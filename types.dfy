/** Shared vocabulary of the calculator pipeline: buffer sizes, token kinds,
    the two-valued status and the space-separated text the stages write. */
module CalcTypes {

  /** Size of every token buffer (`char token[MAX_TOKEN_SIZE]`), terminator included. */
  const MaxTokenSize: nat := 10
  /** Size of every line buffer (`char buffer[MAX_BUFFER_SIZE]`), terminator included. */
  const MaxBufferSize: nat := 100

  datatype TokenType = Number | Operator | LBracket | RBracket | Function | End

  /** The source has a single error kind: division by zero, stack underflow
      and malformed input all come back as `Error`. */
  datatype Status = Success | Error

  /** A classified lexeme: its kind and its text, as `get_token` leaves them
      in `token[]`. */
  datatype Token = Token(kind: TokenType, text: string)

  function Texts(ts: seq<Token>): (r: seq<string>)
    ensures |r| == |ts|
  {
    if ts == [] then [] else [ts[0].text] + Texts(ts[1..])
  }

  /** The `i`-th text is the text of the `i`-th token. */
  lemma {:induction false} TextsAt(ts: seq<Token>, i: nat)
    requires i < |ts|
    ensures Texts(ts)[i] == ts[i].text
    decreases i
  {
    if i > 0 {
      TextsAt(ts[1..], i - 1);
    }
  }

  /** The texts of a scan that starts with the token `t`. */
  lemma TextsCons(t: Token, rest: seq<Token>)
    ensures Texts([t] + rest) == [t.text] + Texts(rest)
  {
    assert ([t] + rest)[0] == t && ([t] + rest)[1..] == rest;
  }

  /** Moving one element from the front of the rest to the end of the prefix. */
  lemma MoveFront<T>(done: seq<T>, x: T, rest: seq<T>)
    ensures done + ([x] + rest) == (done + [x]) + rest
  {
  }

  /** What a stage has written into its buffer after emitting the words `ws`:
      each word followed by one space. */
  function Spaced(ws: seq<string>): string
  {
    if ws == [] then "" else ws[0] + " " + Spaced(ws[1..])
  }

  /** The words separated by single spaces. */
  function Join(ws: seq<string>): string
  {
    if ws == [] then ""
    else if |ws| == 1 then ws[0]
    else ws[0] + " " + Join(ws[1..])
  }

  lemma {:induction false} SpacedAppend(a: seq<string>, b: seq<string>)
    ensures Spaced(a + b) == Spaced(a) + Spaced(b)
  {
    if a == [] {
      assert a + b == b;
    } else {
      assert (a + b)[1..] == a[1..] + b;
      SpacedAppend(a[1..], b);
    }
  }

  /** Writing one more word and its separator after the text `prefix`
      and the words `ws`. */
  lemma SpacedSnoc(prefix: string, ws: seq<string>, w: string)
    ensures prefix + Spaced(ws) + w + " " == prefix + Spaced(ws + [w])
  {
    SpacedAppend(ws, [w]);
  }

  /** Dropping the trailing space of the buffer (`buffer[--index] = '\0'`)
      leaves the words joined by single spaces. */
  lemma {:induction false} SpacedIsJoinThenSpace(ws: seq<string>)
    requires ws != []
    ensures Spaced(ws) == Join(ws) + " "
  {
    if |ws| > 1 {
      SpacedIsJoinThenSpace(ws[1..]);
    }
  }

  /** Joining a prefix and a non-empty rest: the prefix's spaced text comes first. */
  lemma {:induction false} JoinAppend(a: seq<string>, b: seq<string>)
    requires b != []
    ensures Join(a + b) == Spaced(a) + Join(b)
  {
    if a == [] {
      assert a + b == b;
    } else {
      assert (a + b)[1..] == a[1..] + b;
      JoinAppend(a[1..], b);
      assert Join(a + b) == a[0] + " " + Join(a[1..] + b);
    }
  }

  /** When no word is empty or holds a space, the joined text neither starts
      nor ends with a space, and a space occurs exactly between words. */
  lemma {:induction false} JoinHasNoEdgeSpaces(ws: seq<string>)
    requires forall i :: 0 <= i < |ws| ==> ws[i] != [] && ' ' !in ws[i]
    ensures var r := Join(ws); r != [] ==> r[0] != ' ' && r[|r| - 1] != ' '
    ensures (Join(ws) == []) <==> (ws == [])
  {
    if |ws| > 1 {
      JoinHasNoEdgeSpaces(ws[1..]);
      var r := Join(ws);
      assert r == ws[0] + " " + Join(ws[1..]);
      assert r[0] == ws[0][0];
    }
  }
}
