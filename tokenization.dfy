/** The normaliser `tokenization` (calculator.c:78-100): it lexes the input
    line and rewrites it as the token texts separated by single spaces,
    failing when that text does not fit the 100-byte line buffer. */
module Normaliser {
  import opened CalcTypes
  import opened Lexer

  /** Offset of the first newline, which `strchr` finds when no `'\0'`
      comes before it. */
  function NewlineAt(line: seq<char>): (i: nat)
    requires '\n' in line
    ensures i < |line| && line[i] == '\n' && '\n' !in line[..i]
  {
    if line[0] == '\n' then 0
    else
      assert '\n' in line[1..] by {
        var k :| 0 <= k < |line| && line[k] == '\n';
        assert line[1..][k - 1] == '\n';
      }
      var i := 1 + NewlineAt(line[1..]);
      assert line[..i] == [line[0]] + line[1..][..i - 1];
      i
  }

  /** The C string that is scanned once `*strchr(str, '\n') = '\0'` has cut
      the line at its first newline. */
  function Cut(line: seq<char>): seq<char>
    requires '\n' in line
  {
    line[..NewlineAt(line)]
  }

  /** The lexemes of the line, with the previous token's kind passed along. */
  function Words(line: seq<char>): seq<string>
    requires '\n' in line
  {
    Texts(Scan(Cut(line), 0, End, true))
  }

  /** The normalised line neither starts nor ends with a space, and it is
      empty exactly when the line holds no lexeme. */
  lemma WordsHaveNoEdgeSpaces(line: seq<char>)
    requires '\n' in line
    ensures var r := Join(Words(line)); r != [] ==> r[0] != ' ' && r[|r| - 1] != ' '
    ensures Join(Words(line)) == [] <==> Scan(Cut(line), 0, End, true) == []
  {
    var ts := Scan(Cut(line), 0, End, true);
    ScanShape(Cut(line), 0, End, true);
    forall i | 0 <= i < |Texts(ts)|
      ensures Texts(ts)[i] != [] && ' ' !in Texts(ts)[i]
    {
      TextsAt(ts, i);
      assert WellShaped(ts[i]);
    }
    JoinHasNoEdgeSpaces(Texts(ts));
  }

  /** A lexeme copied after the words already written is a prefix of the
      joined text of all words. */
  lemma NextWordIsPrefix(done: seq<string>, token: string, rest: seq<string>)
    ensures Spaced(done) + token <= Join(done + [token] + rest)
  {
    JoinAppend(done, [token] + rest);
    assert done + [token] + rest == done + ([token] + rest);
    if rest != [] {
      assert Join([token] + rest) == token + " " + Join(rest);
    }
  }

  /** Taking the next token of the scan: its text follows the words
      already written in the joined text. */
  lemma WordStep(all: seq<string>, done: seq<string>, t: Token, rest: seq<Token>)
    requires all == done + Texts([t] + rest)
    ensures all == (done + [t.text]) + Texts(rest)
    ensures Spaced(done) + t.text <= Join(all)
  {
    TextsCons(t, rest);
    NextWordIsPrefix(done, t.text, Texts(rest));
  }

  /** The body of `tokenization`'s loop for one lexeme: copy `token` after
      the words `done` already in the buffer, stopping with ERROR once the
      index reaches MAX_BUFFER_SIZE - 1, then write the separator. The
      separator is written only while the index is inside the buffer (the
      source writes it unconditionally: see `AsWrittenLastSeparator`). */
  method WriteLexeme(buffer: array<char>, index0: nat, token: string,
                     ghost done: seq<string>, ghost all: seq<string>)
    returns (index: nat, status: Status)
    requires buffer.Length == MaxBufferSize && token != []
    requires index0 == |Spaced(done)| <= MaxBufferSize - 1 && buffer[..index0] == Spaced(done)
    requires Spaced(done) + token <= Join(all)
    modifies buffer
    ensures status == Success ==>
      index == |Spaced(done + [token])| <= MaxBufferSize - 1 && buffer[..index] == Spaced(done + [token])
    ensures status == Error ==>
      index == MaxBufferSize && buffer[..MaxBufferSize - 1] <= Join(all) && MaxBufferSize - 1 <= |Join(all)|
  {
    index, status := index0, Success;
    var i := 0;
    // `token[i] != '\0'` holds exactly while i < |token|: no lexeme holds a NUL
    while status == Success && i < |token|
      invariant 0 <= i <= |token|
      invariant index == index0 + i <= MaxBufferSize
      invariant buffer[..index] == Spaced(done) + token[..i]
      invariant status == Success ==> index <= MaxBufferSize - 1 && (i > 0 ==> index < MaxBufferSize - 1)
      invariant status == Error ==> i > 0 && MaxBufferSize - 1 <= index
    {
      buffer[index] := token[i];
      index, i := index + 1, i + 1;
      assert buffer[..index] == Spaced(done) + token[..i];
      if index >= MaxBufferSize - 1 {
        status := Error;
      }
    }
    if status == Success {
      buffer[index] := ' ';
      index := index + 1;
      assert token[..i] == token;
      assert buffer[..index] == Spaced(done) + token + " ";
      SpacedAppend(done, [token]);
    } else {
      assert buffer[..MaxBufferSize - 1] <= buffer[..index] <= Spaced(done) + token;
      if index < MaxBufferSize {
        buffer[index] := ' ';
        index := index + 1;
      }
    }
  }

  /** The offset of the last separator `tokenization`'s loop stores, AS
      WRITTEN in the source, when the lexemes of lengths `lens[k..]` are
      copied from `index` on: each lexeme's characters go in until the index
      reaches MAX_BUFFER_SIZE - 1, and `buffer[index++] = ' '` follows
      whether or not that set ERROR. The loop stops after the lexeme that
      set ERROR. The separator lands at most one byte past the buffer. */
  function AsWrittenLastSeparator(lens: seq<nat>, k: nat, index: nat): (r: nat)
    requires k < |lens| && index <= MaxBufferSize - 1
    ensures index <= r <= MaxBufferSize
    decreases |lens| - k
  {
    var room := if index < MaxBufferSize - 1 then MaxBufferSize - 1 - index else 1;
    var separator := index + (if lens[k] < room then lens[k] else room);
    if separator >= MaxBufferSize - 1 || k == |lens| - 1 then separator
    else AsWrittenLastSeparator(lens, k + 1, separator + 1)
  }

  /** A lexeme that ends below offset MAX_BUFFER_SIZE - 2 is followed by its
      separator, and the next lexeme starts one past it. */
  lemma AsWrittenStep(lens: seq<nat>, k: nat, index: nat)
    requires k < |lens| - 1 && index + lens[k] < MaxBufferSize - 1
    ensures AsWrittenLastSeparator(lens, k, index) == AsWrittenLastSeparator(lens, k + 1, index + lens[k] + 1)
  {
  }

  /** After a 2-character lexeme, the 1-character lexeme `k` starts at
      offset `2 * k + 1`; the 49th starts at offset 99. */
  lemma {:induction false} AsWrittenOnes(lens: seq<nat>, k: nat)
    requires |lens| == 50 && forall j :: 1 <= j < |lens| ==> lens[j] == 1
    requires 1 <= k < |lens|
    ensures AsWrittenLastSeparator(lens, k, 2 * k + 1) == MaxBufferSize
    decreases |lens| - k
  {
    if k < |lens| - 1 {
      AsWrittenStep(lens, k, 2 * k + 1);
      AsWrittenOnes(lens, k + 1);
    }
  }

  /** The line `12+1+1+...+1+`, 51 characters: the lexeme `12` followed by
      49 one-character lexemes. Each lexeme and its separator take the next
      offsets, so the 49th one-character lexeme is stored at offset 99 and
      sets ERROR, and its separator is stored at offset 100, one past the
      end of `buffer[MAX_BUFFER_SIZE]`; `buffer[--index] = '\0'` then stores
      at offset 100 as well. */
  lemma AsWrittenSeparatorOverflows(lens: seq<nat>)
    requires |lens| == 50 && lens[0] == 2 && forall j :: 1 <= j < |lens| ==> lens[j] == 1
    ensures AsWrittenLastSeparator(lens, 0, 0) == MaxBufferSize
  {
    AsWrittenStep(lens, 0, 0);
    AsWrittenOnes(lens, 1);
  }

  /** Every lexeme the loop reads fits `token[MAX_TOKEN_SIZE]`. The loop
      reads lexeme `k` only while fewer than MAX_BUFFER_SIZE bytes are
      written before it: the lexeme that brings the index to
      MAX_BUFFER_SIZE - 1 sets ERROR, and the loop header then stops before
      calling `get_token` again. */
  predicate FitsWhileRead(ws: seq<string>)
  {
    forall k :: 0 <= k < |ws| && |Spaced(ws[..k])| < MaxBufferSize ==> |ws[k]| < MaxTokenSize
  }

  /** The next lexeme, read after the words `done` with fewer than
      MAX_BUFFER_SIZE bytes written, fits the token buffer. */
  lemma ReadHead(done: seq<string>, all: seq<string>, ts: seq<Token>)
    requires all == done + Texts(ts) && FitsWhileRead(all)
    requires |Spaced(done)| < MaxBufferSize
    ensures HeadFits(ts)
  {
    if ts != [] {
      TextsAt(ts, 0);
      assert all[|done|] == ts[0].text;
      assert all[..|done|] == done;
    }
  }

  /** Lexemes that all fit certainly fit while they are read: the
      normaliser asks no more of the line than the other stages do. */
  lemma AllFitFitsWhileRead(ts: seq<Token>)
    requires AllFit(ts)
    ensures FitsWhileRead(Texts(ts))
  {
    forall k | 0 <= k < |ts| ensures |Texts(ts)[k]| < MaxTokenSize {
      TextsAt(ts, k);
    }
  }

  /** The scanning loop of `tokenization`: lex `text` token by token, with
      the previous token's kind passed along, and write each lexeme and its
      separator into `buffer` until the end of the text or the first ERROR
      (`while (status == SUCCESS && (type = get_token(...)) != TOKEN_END)`). */
  method WriteLexemes(buffer: array<char>, text: seq<char>) returns (index: nat, status: Status)
    requires buffer.Length == MaxBufferSize
    requires FitsWhileRead(Texts(Scan(text, 0, End, true)))
    modifies buffer
    ensures var all := Texts(Scan(text, 0, End, true));
      status == Success ==> index == |Spaced(all)| <= MaxBufferSize - 1 && buffer[..index] == Spaced(all)
    ensures var all := Texts(Scan(text, 0, End, true));
      status == Error ==>
        index == MaxBufferSize && buffer[..MaxBufferSize - 1] <= Join(all) && MaxBufferSize - 1 <= |Join(all)|
  {
    ghost var all := Texts(Scan(text, 0, End, true));
    index := 0;
    status := Success;
    var last := End;
    var cur := new Cursor(text);
    ghost var done: seq<string> := [];
    while true
      invariant cur.text == text && cur.pos <= |text|
      invariant all == done + Texts(Scan(text, cur.pos, last, true))
      invariant status == Success
      invariant index == |Spaced(done)| <= MaxBufferSize - 1 && buffer[..index] == Spaced(done)
      decreases |text| - cur.pos
    {
      ReadHead(done, all, Scan(text, cur.pos, last, true));
      var kind, token := NextToken(cur, last, true);
      if kind == End {
        assert all == done;
        break;
      }
      WordStep(all, done, Token(kind, token), Scan(text, cur.pos, kind, true));
      index, status := WriteLexeme(buffer, index, token, done, all);
      if status == Error {
        break;
      }
      done := done + [token];
      last := kind;
    }
  }

  /** `tokenization`: cut the line at its newline, write each lexeme followed
      by a space, fail with ERROR as soon as a lexeme character brings the
      index to MAX_BUFFER_SIZE - 1, and end the string over the last
      character written. The returned `out` is the C string copied back over
      the line. On ERROR it is the first 99 bytes of the buffer, whose last
      byte may be a separator or a lexeme character. */
  method Tokenization(line: seq<char>) returns (status: Status, out: string)
    requires '\n' in line && '\0' !in Cut(line)
    requires Scan(Cut(line), 0, End, true) != []
    requires FitsWhileRead(Words(line))
    ensures status == Success <==> |Join(Words(line))| < MaxBufferSize - 1
    ensures status == Success ==> out == Join(Words(line))
    ensures status == Success ==> out != [] && out[0] != ' ' && out[|out| - 1] != ' '
    ensures status == Error ==> |out| == MaxBufferSize - 1 && out <= Join(Words(line))
  {
    var text := Cut(line);
    ghost var all := Words(line);
    var buffer := new char[MaxBufferSize];
    var index;
    index, status := WriteLexemes(buffer, text);
    assert status == Success ==> buffer[..index] == Join(all) + " " by {
      if status == Success {
        SpacedIsJoinThenSpace(all);
      }
    }
    // `buffer[--index] = '\0'` ends the string just before the last character written
    index := index - 1;
    out := buffer[..index];
    buffer[index] := '\0';
    WordsHaveNoEdgeSpaces(line);
  }
}
