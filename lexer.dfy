/** The lexer `get_token` (calculator.c:268-297) over a character cursor with
    one character of pushback (`getch`/`ungetch`, calculator.c:346-348).

    The input is a C string: `CharAt` reads the terminator `'\0'` at the end
    of the sequence, and an embedded `'\0'` ends the string early exactly as
    it does in C. (`tokenization` cuts the line at its newline before
    lexing, and requires no `'\0'` ahead of that newline.) Character
    classes are those of the "C" locale. Each character stands for one byte
    of the source's `char` string, so only ASCII input is modelled. */
module Lexer {
  import opened CalcTypes

  predicate IsDigit(c: char) { '0' <= c <= '9' }
  predicate IsAlpha(c: char) { 'a' <= c <= 'z' || 'A' <= c <= 'Z' }
  predicate IsBlank(c: char) { c == ' ' || c == '\t' }

  /** The character `getch` returns at offset `i` of the C string `s`. */
  function CharAt(s: seq<char>, i: nat): char
  {
    if i < |s| then s[i] else '\0'
  }

  /** First offset at or after `i` that is not a blank. */
  function SkipBlanks(s: seq<char>, i: nat): (j: nat)
    ensures i <= j && !IsBlank(CharAt(s, j))
    ensures forall k :: i <= k < j ==> IsBlank(CharAt(s, k))
    decreases |s| - i
  {
    if IsBlank(CharAt(s, i)) then SkipBlanks(s, i + 1) else i
  }

  /** End of the run of digits starting at `i`. */
  function DigitsEnd(s: seq<char>, i: nat): (j: nat)
    ensures i <= j && !IsDigit(CharAt(s, j))
    ensures i <= |s| ==> j <= |s|
    ensures forall k :: i <= k < j ==> IsDigit(CharAt(s, k))
    decreases |s| - i
  {
    if IsDigit(CharAt(s, i)) then DigitsEnd(s, i + 1) else i
  }

  /** End of the run of letters starting at `i`. */
  function AlphaEnd(s: seq<char>, i: nat): (j: nat)
    ensures i <= j && !IsAlpha(CharAt(s, j))
    ensures i <= |s| ==> j <= |s|
    ensures forall k :: i <= k < j ==> IsAlpha(CharAt(s, k))
    decreases |s| - i
  {
    if IsAlpha(CharAt(s, i)) then AlphaEnd(s, i + 1) else i
  }

  /** One lexeme and the cursor offset `get_token` leaves behind it. */
  datatype Lexeme = Lexeme(tok: Token, next: nat)

  /** What `get_token(&str, token, last)` returns when `str` points at offset
      `pos` of `s`: blanks are skipped, then the lexeme is classified. */
  function Lex(s: seq<char>, pos: nat, last: TokenType): (r: Lexeme)
    ensures r.next > pos
    ensures r.tok.kind != End ==> r.next <= |s| && r.tok.text != []
    ensures r.tok.kind == End ==> r.tok.text == []
  {
    Classify(s, SkipBlanks(s, pos), last)
  }

  /** The lexeme starting at the non-blank offset `q`. */
  function Classify(s: seq<char>, q: nat, last: TokenType): (r: Lexeme)
    ensures r.next > q
    ensures r.tok.kind != End ==> r.next <= |s| && r.tok.text != []
    ensures r.tok.kind == End ==> r.tok.text == []
  {
    var c := CharAt(s, q);
    if c == '\0' then
      Lexeme(Token(End, ""), q + 1)
    else if IsDigit(c) then
      var j := DigitsEnd(s, q + 1);
      var k := if CharAt(s, j) == '.' then DigitsEnd(s, j + 1) else j;
      Lexeme(Token(Number, s[q..k]), k)
    else if c == '-' && last != Number then
      Lexeme(Token(Operator, "u"), q + 1)
    else if c == '(' then
      Lexeme(Token(LBracket, "("), q + 1)
    else if c == ')' then
      Lexeme(Token(RBracket, ")"), q + 1)
    else if IsAlpha(c) then
      var j := AlphaEnd(s, q + 1);
      Lexeme(Token(Function, s[q..j]), j)
    else
      Lexeme(Token(Operator, [c]), q + 1)
  }

  /** A numeral as `get_token` reads one: digits, then optionally a point
      followed by more digits (possibly none). */
  predicate IsNumeral(t: string)
  {
    exists d :: 1 <= d <= |t| && NumeralSplit(t, d)
  }

  /** `t` is `d` digits, then (when more follows) a point and digits. */
  predicate NumeralSplit(t: string, d: int)
  {
    1 <= d <= |t| &&
    (forall k :: 0 <= k < d ==> IsDigit(t[k])) &&
    (d < |t| ==> t[d] == '.' && forall k :: d < k < |t| ==> IsDigit(t[k]))
  }

  /** The classification `get_token` performs on the first character after
      the blanks, and where the lexeme ends. */
  lemma LexClassifies(s: seq<char>, pos: nat, last: TokenType)
    ensures var q, r := SkipBlanks(s, pos), Lex(s, pos, last);
      var c := CharAt(s, q);
      && (r.tok.kind == End <==> c == '\0')
      && (r.tok.kind == Number <==> IsDigit(c))
      && (r.tok.kind == LBracket <==> c == '(')
      && (r.tok.kind == RBracket <==> c == ')')
      && (r.tok.kind == Function <==> IsAlpha(c))
      && (r.tok.kind in {Number, Function} ==> r.tok.text == s[q..r.next])
      && (r.tok.kind in {Operator, LBracket, RBracket, End} ==> r.next == q + 1)
      && (r.tok.kind == Operator ==>
            r.tok.text == (if c == '-' && last != Number then "u" else [c]))
  {
  }

  /** A number is read by maximal munch: digits, optionally a point and more
      digits, and the character after it is no digit (nor a point when the
      number already holds one). */
  lemma LexNumber(s: seq<char>, pos: nat, last: TokenType)
    requires Lex(s, pos, last).tok.kind == Number
    ensures IsNumeral(Lex(s, pos, last).tok.text)
    ensures !IsDigit(CharAt(s, Lex(s, pos, last).next))
    ensures CharAt(s, Lex(s, pos, last).next) == '.' ==> '.' in Lex(s, pos, last).tok.text
  {
    var q, r := SkipBlanks(s, pos), Lex(s, pos, last);
    LexClassifies(s, pos, last);
    var j := DigitsEnd(s, q + 1);
    var t := r.tok.text;
    assert r == Classify(s, q, last);
    assert t == s[q..r.next];
    assert forall k :: 0 <= k < j - q ==> IsDigit(t[k]) by {
      forall k | 0 <= k < j - q ensures IsDigit(t[k]) {
        assert t[k] == CharAt(s, q + k);
      }
    }
    if CharAt(s, j) == '.' {
      assert t[j - q] == '.';
      assert forall k :: j - q < k < |t| ==> IsDigit(t[k]) by {
        forall k | j - q < k < |t| ensures IsDigit(t[k]) {
          assert t[k] == CharAt(s, q + k);
        }
      }
      assert '.' in t;
    }
    assert NumeralSplit(t, j - q);
  }

  /** A word is read by maximal munch: letters only, and the character after
      it is no letter. */
  lemma LexWord(s: seq<char>, pos: nat, last: TokenType)
    requires Lex(s, pos, last).tok.kind == Function
    ensures var r := Lex(s, pos, last);
      (forall k :: 0 <= k < |r.tok.text| ==> IsAlpha(r.tok.text[k])) &&
      !IsAlpha(CharAt(s, r.next))
  {
    var q, r := SkipBlanks(s, pos), Lex(s, pos, last);
    var t := r.tok.text;
    forall k | 0 <= k < |t| ensures IsAlpha(t[k]) {
      assert t[k] == CharAt(s, q + k);
    }
  }

  /** A `-` is binary subtraction exactly after a number; anywhere else
      (at the start, after `)`, after an operator) it is rewritten to `u`. */
  lemma MinusRule(s: seq<char>, pos: nat, last: TokenType)
    ensures var c := CharAt(s, SkipBlanks(s, pos));
      && (Lex(s, pos, last).tok == Token(Operator, "u") <==> c == '-' && last != Number)
      && (Lex(s, pos, last).tok == Token(Operator, "-") <==> c == '-' && last == Number)
  {
  }

  /** The cursor `char **str` of `getch`/`ungetch`: the text it runs over and
      its offset in it. */
  class Cursor {
    const text: seq<char>
    var pos: nat

    constructor (s: seq<char>)
      ensures text == s && pos == 0
    {
      text := s;
      pos := 0;
    }

    /** `getch`: the character under the cursor, which then moves on. */
    method Getch() returns (c: char)
      modifies this
      ensures c == CharAt(text, old(pos)) && pos == old(pos) + 1
    {
      c := CharAt(text, pos);
      pos := pos + 1;
    }

    /** `ungetch`: push the last character read back. */
    method Ungetch()
      requires pos > 0
      modifies this
      ensures pos == old(pos) - 1
    {
      pos := pos - 1;
    }
  }

  /** The lexeme at `pos` fits the token buffer: `get_token` writes up to
      index |text| of `token[MAX_TOKEN_SIZE]` and has no bound of its own. */
  predicate Fits(t: Token)
  {
    |t.text| < MaxTokenSize
  }

  /** `while (isdigit(token[++i] = getch(str)));`: append the run of digits
      under the cursor to `token`; `c` is the first other character, already
      read. */
  method ReadDigits(cur: Cursor, token: string) returns (t: string, c: char)
    requires cur.pos <= |cur.text|
    modifies cur
    ensures var j := DigitsEnd(cur.text, old(cur.pos));
      t == token + cur.text[old(cur.pos)..j] && cur.pos == j + 1 && c == CharAt(cur.text, j)
  {
    ghost var s, p0 := cur.text, cur.pos;
    t := token;
    c := cur.Getch();
    while IsDigit(c)
      invariant cur.text == s && p0 < cur.pos <= |s| + 1
      invariant c == CharAt(s, cur.pos - 1)
      invariant t == token + s[p0..cur.pos - 1]
      invariant DigitsEnd(s, p0) == DigitsEnd(s, cur.pos - 1)
      decreases |s| + 1 - cur.pos
    {
      t := t + [c];
      c := cur.Getch();
    }
  }

  /** `while (isalpha(token[++i] = getch(str)));`: the same for letters. */
  method ReadLetters(cur: Cursor, token: string) returns (t: string, c: char)
    requires cur.pos <= |cur.text|
    modifies cur
    ensures var j := AlphaEnd(cur.text, old(cur.pos));
      t == token + cur.text[old(cur.pos)..j] && cur.pos == j + 1 && c == CharAt(cur.text, j)
  {
    ghost var s, p0 := cur.text, cur.pos;
    t := token;
    c := cur.Getch();
    while IsAlpha(c)
      invariant cur.text == s && p0 < cur.pos <= |s| + 1
      invariant c == CharAt(s, cur.pos - 1)
      invariant t == token + s[p0..cur.pos - 1]
      invariant AlphaEnd(s, p0) == AlphaEnd(s, cur.pos - 1)
      decreases |s| + 1 - cur.pos
    {
      t := t + [c];
      c := cur.Getch();
    }
  }

  /** The number branch of `get_token`: the first digit `c` has been read;
      read the rest of the numeral and push back the character after it. */
  method ReadNumber(cur: Cursor, c: char, ghost last: TokenType) returns (token: string)
    requires 0 < cur.pos <= |cur.text| && c == CharAt(cur.text, cur.pos - 1) && IsDigit(c)
    modifies cur
    ensures Classify(cur.text, old(cur.pos) - 1, last) == Lexeme(Token(Number, token), cur.pos)
  {
    ghost var s, q := cur.text, cur.pos - 1;
    var d;
    token, d := ReadDigits(cur, [c]);
    ghost var j := cur.pos - 1;
    assert j == DigitsEnd(s, q + 1) && token == s[q..j];
    if d == '.' {
      token, d := ReadDigits(cur, token + [d]);
      assert token == s[q..j] + [s[j]] + s[j + 1..cur.pos - 1] == s[q..cur.pos - 1];
    }
    cur.Ungetch();
  }

  /** `get_token`: skip blanks, classify, and read the lexeme through the
      cursor, pushing back the first character that does not belong to a
      number or a word. */
  method GetToken(cur: Cursor, last: TokenType) returns (kind: TokenType, token: string)
    requires cur.pos <= |cur.text|
    requires Fits(Lex(cur.text, cur.pos, last).tok)
    modifies cur
    ensures Lex(cur.text, old(cur.pos), last) == Lexeme(Token(kind, token), cur.pos)
  {
    ghost var s, p0 := cur.text, cur.pos;
    var c := cur.Getch();
    while c == ' ' || c == '\t'
      invariant cur.text == s && p0 < cur.pos <= |s| + 1
      invariant c == CharAt(s, cur.pos - 1)
      invariant SkipBlanks(s, p0) == SkipBlanks(s, cur.pos - 1)
      decreases |s| + 1 - cur.pos
    {
      c := cur.Getch();
    }
    ghost var q := cur.pos - 1;
    assert Lex(s, p0, last) == Classify(s, q, last);
    if c == '\0' {
      kind, token := End, "";
      assert Classify(s, q, last) == Lexeme(Token(kind, token), cur.pos);
    } else if IsDigit(c) {
      token := ReadNumber(cur, c, last);
      kind := Number;
    } else if c == '-' && last != Number {
      kind, token := Operator, "u";
    } else if c == '(' {
      kind, token := LBracket, "(";
    } else if c == ')' {
      kind, token := RBracket, ")";
    } else if IsAlpha(c) {
      token, c := ReadLetters(cur, [c]);
      cur.Ungetch();
      kind := Function;
      assert Classify(s, q, last) == Lexeme(Token(kind, token), cur.pos);
    } else {
      kind, token := Operator, [c];
      assert Classify(s, q, last) == Lexeme(Token(kind, token), cur.pos);
    }
  }

  /** The tokens a stage's loop `while ((type = get_token(...)) != TOKEN_END)`
      sees from offset `pos` on. With `track` the previous token's kind is
      passed to the next call (tokenization, validate, infix_to_postfix);
      without it `last` stays fixed (calc_rpn never updates `last_type`). */
  function Scan(s: seq<char>, pos: nat, last: TokenType, track: bool): (ts: seq<Token>)
    ensures forall i :: 0 <= i < |ts| ==> ts[i].kind != End && ts[i].text != []
    ensures ts == [] || pos + |ts| <= |s|
    decreases |s| - pos
  {
    var l := Lex(s, pos, last);
    if l.tok.kind == End then []
    else [l.tok] + Scan(s, l.next, if track then l.tok.kind else last, track)
  }

  /** Every lexeme of the scan fits the token buffer. */
  predicate AllFit(ts: seq<Token>)
  {
    forall i :: 0 <= i < |ts| ==> Fits(ts[i])
  }

  /** The next lexeme of the scan, if any, fits the token buffer. */
  predicate HeadFits(ts: seq<Token>)
  {
    ts != [] ==> Fits(ts[0])
  }

  /** One step of a stage's scanning loop: the lexeme at the cursor fits and
      is the head of the remaining scan. */
  lemma ScanStep(s: seq<char>, pos: nat, last: TokenType, track: bool)
    requires HeadFits(Scan(s, pos, last, track))
    ensures Fits(Lex(s, pos, last).tok)
    ensures var l := Lex(s, pos, last);
      l.tok.kind != End ==>
        Scan(s, pos, last, track)
          == [l.tok] + Scan(s, l.next, if track then l.tok.kind else last, track)
        && (AllFit(Scan(s, pos, last, track)) ==> AllFit(Scan(s, l.next, if track then l.tok.kind else last, track)))
  {
    var l := Lex(s, pos, last);
    if l.tok.kind != End {
      assert Scan(s, pos, last, track)[0] == l.tok;
      var rest := Scan(s, l.next, if track then l.tok.kind else last, track);
      if AllFit(Scan(s, pos, last, track)) {
        forall i | 0 <= i < |rest| ensures Fits(rest[i]) {
          assert rest[i] == Scan(s, pos, last, track)[i + 1];
        }
      }
    }
  }

  /** A stage's call `get_token(&str, token, last_type)` seen through the
      scan: it returns the head of the remaining tokens, or END when none
      remain. */
  method NextToken(cur: Cursor, last: TokenType, ghost track: bool) returns (kind: TokenType, token: string)
    requires cur.pos <= |cur.text|
    requires HeadFits(Scan(cur.text, cur.pos, last, track))
    modifies cur
    ensures kind == End <==> Scan(cur.text, old(cur.pos), last, track) == []
    ensures kind != End ==>
      && old(cur.pos) < cur.pos <= |cur.text|
      && Scan(cur.text, old(cur.pos), last, track)
           == [Token(kind, token)] + Scan(cur.text, cur.pos, if track then kind else last, track)
      && (AllFit(Scan(cur.text, old(cur.pos), last, track)) ==>
            AllFit(Scan(cur.text, cur.pos, if track then kind else last, track)))
  {
    ScanStep(cur.text, cur.pos, last, track);
    kind, token := GetToken(cur, last);
  }

  /** A lexeme holds no blank, and it starts with a digit exactly when it is
      a number. */
  predicate WellShaped(t: Token)
  {
    t.text != [] && ' ' !in t.text && '\t' !in t.text &&
    (t.kind == Number <==> IsDigit(t.text[0]))
  }

  lemma LexShape(s: seq<char>, pos: nat, last: TokenType)
    requires Lex(s, pos, last).tok.kind != End
    ensures WellShaped(Lex(s, pos, last).tok)
  {
    LexClassifies(s, pos, last);
    var q := SkipBlanks(s, pos);
    var t := Lex(s, pos, last).tok.text;
    if Lex(s, pos, last).tok.kind == Number {
      LexNumber(s, pos, last);
      var d :| NumeralSplit(t, d);
      forall k | 0 <= k < |t| ensures !IsBlank(t[k]) {
        assert IsDigit(t[k]) || t[k] == '.';
      }
    } else if Lex(s, pos, last).tok.kind == Function {
      LexWord(s, pos, last);
      forall k | 0 <= k < |t| ensures !IsBlank(t[k]) {
        assert IsAlpha(t[k]);
      }
    }
  }

  /** Every token of a scan is well shaped. */
  lemma {:induction false} ScanShape(s: seq<char>, pos: nat, last: TokenType, track: bool)
    ensures forall i :: 0 <= i < |Scan(s, pos, last, track)| ==> WellShaped(Scan(s, pos, last, track)[i])
    decreases |s| - pos
  {
    var l := Lex(s, pos, last);
    if l.tok.kind != End {
      LexShape(s, pos, last);
      ScanShape(s, l.next, if track then l.tok.kind else last, track);
      var ts := Scan(s, pos, last, track);
      assert ts == [l.tok] + Scan(s, l.next, if track then l.tok.kind else last, track);
    }
  }

  /** calc_rpn never updates `last_type`, so in its scan every `-` has
      become `u`: no token it sees is the binary minus. */
  lemma {:induction false} ScanWithoutTrackingHasNoMinus(s: seq<char>, pos: nat)
    ensures forall i :: 0 <= i < |Scan(s, pos, End, false)| ==>
      Scan(s, pos, End, false)[i].text != "-"
    decreases |s| - pos
  {
    var l := Lex(s, pos, End);
    if l.tok.kind != End {
      LexClassifies(s, pos, End);
      ScanWithoutTrackingHasNoMinus(s, l.next);
    }
  }
}
