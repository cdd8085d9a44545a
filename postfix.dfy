/** The shunting-yard converter `infix_to_postfix` (calculator.c:102-168)
    and its priority table `get_priority` (calculator.c:299-312). */
module Postfix {
  import opened CalcTypes
  import opened Lexer
  import opened Stacks
  import Validator

  /** `get_priority`: binding strength of an operator or function text;
      total, with 0 for anything it does not know. */
  function GetPriority(token: string): (p: int)
    ensures 0 <= p <= 4
  {
    if token == "+" || token == "-" then 1
    else if token == "*" || token == "/" then 2
    else if token == "tan" || token == "ctg" || token == "sin" || token == "cos"
      || token == "ln" || token == "sqrt" then 3
    else if token == "u" then 4
    else 0
  }

  /** The table of `get_priority`, level by level. */
  lemma PriorityTable(token: string)
    ensures GetPriority(token) == 1 <==> token == "+" || token == "-"
    ensures GetPriority(token) == 2 <==> token == "*" || token == "/"
    ensures GetPriority(token) == 3 <==> token in ["tan", "ctg", "sin", "cos", "ln", "sqrt"]
    ensures GetPriority(token) == 4 <==> token == "u"
    ensures GetPriority(token) == 0 <==> token !in ["+", "-", "*", "/", "tan", "ctg", "sin", "cos", "ln", "sqrt", "u"]
  {
  }

  /** Among the symbols `validate` accepts, exactly the brackets have
      priority 0, so an operator never pops a `(` off the stack. */
  lemma PriorityOfValidTokens()
    ensures forall t :: t in Validator.ValidTokens ==>
      (GetPriority(t) == 0 <==> t == "(" || t == ")")
  {
    forall t | t in Validator.ValidTokens
      ensures GetPriority(t) == 0 <==> t == "(" || t == ")"
    {
      var i :| 0 <= i < |Validator.ValidTokens| && Validator.ValidTokens[i] == t;
    }
  }

  /** The words in reverse order: popping a stack emits its items top first. */
  function Reversed(ws: seq<string>): (r: seq<string>)
    ensures |r| == |ws|
  {
    if ws == [] then [] else Reversed(ws[1..]) + [ws[0]]
  }

  /** The inner loop for an OPERATOR or FUNCTION of priority `p`: pop and
      emit every top whose priority is at least `p`. The result is the
      emitted words, top first, and the stack left behind. */
  function PopWhileAtLeast(stack: seq<string>, p: int): (r: (seq<string>, seq<string>))
    ensures r.1 <= stack && |r.0| + |r.1| == |stack|
    decreases |stack|
  {
    if stack == [] || GetPriority(stack[|stack| - 1]) < p then ([], stack)
    else
      var r := PopWhileAtLeast(stack[..|stack| - 1], p);
      ([stack[|stack| - 1]] + r.0, r.1)
  }

  /** `PopWhileAtLeast` splits the stack: what stays, then the popped words
      in stack order. */
  lemma {:induction false} PopWhileAtLeastSplits(stack: seq<string>, p: int)
    ensures var r := PopWhileAtLeast(stack, p);
      stack == r.1 + Reversed(r.0)
    decreases |stack|
  {
    if stack != [] && GetPriority(stack[|stack| - 1]) >= p {
      var top := stack[|stack| - 1];
      PopWhileAtLeastSplits(stack[..|stack| - 1], p);
      var r := PopWhileAtLeast(stack[..|stack| - 1], p);
      assert ([top] + r.0)[1..] == r.0;
    }
  }

  /** Every word `PopWhileAtLeast` pops has priority at least `p`, and the
      top it stops at (if any) has a lower one. */
  lemma {:induction false} PopWhileAtLeastPriorities(stack: seq<string>, p: int)
    ensures var r := PopWhileAtLeast(stack, p);
      && (forall i :: 0 <= i < |r.0| ==> GetPriority(r.0[i]) >= p)
      && (r.1 != [] ==> GetPriority(r.1[|r.1| - 1]) < p)
    decreases |stack|
  {
    if stack != [] && GetPriority(stack[|stack| - 1]) >= p {
      PopWhileAtLeastPriorities(stack[..|stack| - 1], p);
    }
  }

  /** The inner loop for `)`: pop and emit every top up to the nearest `(`,
      which stays on the stack (or the whole stack when there is none). */
  function PopUntilOpen(stack: seq<string>): (r: (seq<string>, seq<string>))
    ensures r.1 <= stack && |r.0| + |r.1| == |stack|
    decreases |stack|
  {
    if stack == [] || stack[|stack| - 1] == "(" then ([], stack)
    else
      var r := PopUntilOpen(stack[..|stack| - 1]);
      ([stack[|stack| - 1]] + r.0, r.1)
  }

  /** `PopUntilOpen` splits the stack: what stays, then the popped words in
      stack order. No `(` is popped, and what stays is empty or ends with
      the nearest `(`. */
  lemma {:induction false} PopUntilOpenSplits(stack: seq<string>)
    ensures var r := PopUntilOpen(stack);
      && stack == r.1 + Reversed(r.0)
      && "(" !in r.0
      && (r.1 != [] ==> r.1[|r.1| - 1] == "(")
    decreases |stack|
  {
    if stack != [] && stack[|stack| - 1] != "(" {
      var top := stack[|stack| - 1];
      PopUntilOpenSplits(stack[..|stack| - 1]);
      var r := PopUntilOpen(stack[..|stack| - 1]);
      assert ([top] + r.0)[1..] == r.0;
    }
  }

  /** The converter's state between tokens: the words emitted so far, the
      operator stack (top last), the status and `last_type`. */
  datatype Conv = Conv(out: seq<string>, stack: seq<string>, status: Status, last: TokenType)

  /** An ERROR for two tokens of the same kind in a row, for the three kinds
      the source checks. */
  predicate Repeats(previous: TokenType, kind: TokenType)
  {
    previous == kind && (kind == Number || kind == Operator || kind == Function)
  }

  /** One pass of the converter's loop body. */
  function Step(c: Conv, t: Token): (r: Conv)
    ensures r.last == t.kind
    ensures r.status == Success <==> c.status == Success && !Repeats(c.last, t.kind) && t.kind != End
    ensures t.kind == Number ==> r.out == c.out + [t.text] && r.stack == c.stack
    ensures t.kind == LBracket ==> r.out == c.out && r.stack == c.stack + [t.text]
    ensures c.out <= r.out && |r.out| + |r.stack| <= |c.out| + |c.stack| + 1
  {
    match t.kind
    case Number =>
      Conv(c.out + [t.text], c.stack, if c.last == Number then Error else c.status, Number)
    case LBracket =>
      Conv(c.out, c.stack + [t.text], c.status, LBracket)
    case RBracket =>
      var (e, rest) := PopUntilOpen(c.stack);
      Conv(c.out + e, if rest == [] then [] else rest[..|rest| - 1], c.status, RBracket)
    case Operator =>
      var (e, rest) := PopWhileAtLeast(c.stack, GetPriority(t.text));
      Conv(c.out + e, rest + [t.text], if c.last == Operator then Error else c.status, Operator)
    case Function =>
      var (e, rest) := PopWhileAtLeast(c.stack, GetPriority(t.text));
      Conv(c.out + e, rest + [t.text], if c.last == Function then Error else c.status, Function)
    case End =>
      Conv(c.out, c.stack, Error, End)
  }

  /** The converter's loop over the tokens `ts`. */
  function ConvertFrom(ts: seq<Token>, c: Conv): (r: Conv)
    ensures c.out <= r.out && |r.out| + |r.stack| <= |c.out| + |c.stack| + |ts|
    ensures c.status == Error ==> r.status == Error
    decreases |ts|
  {
    if ts == [] then c else ConvertFrom(ts[1..], Step(c, ts[0]))
  }

  /** The whole conversion: the loop from an empty stack with `last_type`
      END, then the stack drained top first. */
  function PostfixOf(ts: seq<Token>): (r: (Status, seq<string>))
    ensures |r.1| <= |ts|
  {
    var c := ConvertFrom(ts, Conv([], [], Success, End));
    (c.status, c.out + Reversed(c.stack))
  }

  /** A word is a number's text exactly when it starts with a digit. */
  predicate IsNumberText(w: string)
  {
    w != [] && IsDigit(w[0])
  }

  function Numerals(ws: seq<string>): seq<string>
  {
    if ws == [] then [] else (if IsNumberText(ws[0]) then [ws[0]] else []) + Numerals(ws[1..])
  }

  /** The texts of the NUMBER tokens, in input order. */
  function NumberTexts(ts: seq<Token>): seq<string>
  {
    if ts == [] then [] else (if ts[0].kind == Number then [ts[0].text] else []) + NumberTexts(ts[1..])
  }

  lemma {:induction false} NumeralsAppend(a: seq<string>, b: seq<string>)
    ensures Numerals(a + b) == Numerals(a) + Numerals(b)
  {
    if a == [] {
      assert a + b == b;
    } else {
      var h := if IsNumberText(a[0]) then [a[0]] else [];
      assert (a + b)[0] == a[0] && (a + b)[1..] == a[1..] + b;
      assert Numerals(a + b) == h + Numerals(a[1..] + b);
      NumeralsAppend(a[1..], b);
      assert h + (Numerals(a[1..]) + Numerals(b)) == (h + Numerals(a[1..])) + Numerals(b);
    }
  }

  lemma {:induction false} NoNumeralsReversed(ws: seq<string>)
    requires forall i :: 0 <= i < |ws| ==> !IsNumberText(ws[i])
    ensures Numerals(Reversed(ws)) == []
  {
    if ws != [] {
      NoNumeralsReversed(ws[1..]);
      NumeralsAppend(Reversed(ws[1..]), [ws[0]]);
    }
  }

  /** No number's text is ever on the stack. */
  predicate NoNumbersStacked(stack: seq<string>)
  {
    forall i :: 0 <= i < |stack| ==> !IsNumberText(stack[i])
  }

  /** Popped words come from the stack, so they hold no number either. */
  lemma EmittedFromStack(stack: seq<string>, rest: seq<string>, e: seq<string>)
    requires NoNumbersStacked(stack) && stack == rest + Reversed(e)
    ensures NoNumbersStacked(rest) && Numerals(e) == []
  {
    forall i | 0 <= i < |e| ensures !IsNumberText(e[i]) {
      ReversedIndex(e, i);
      assert stack[|rest| + |e| - 1 - i] == e[i];
    }
    NoNumeralsOf(e);
    forall i | 0 <= i < |rest| ensures !IsNumberText(rest[i]) {
      assert stack[i] == rest[i];
    }
  }

  lemma {:induction false} ReversedIndex(ws: seq<string>, i: nat)
    requires i < |ws|
    ensures Reversed(ws)[|ws| - 1 - i] == ws[i]
  {
    if i > 0 {
      ReversedIndex(ws[1..], i - 1);
    }
  }

  lemma {:induction false} NoNumeralsOf(ws: seq<string>)
    requires forall i :: 0 <= i < |ws| ==> !IsNumberText(ws[i])
    ensures Numerals(ws) == []
  {
    if ws != [] {
      NoNumeralsOf(ws[1..]);
    }
  }

  /** Each step keeps numbers off the stack and emits exactly the step's own
      number, if any. */
  lemma StepNumerals(c: Conv, t: Token)
    requires NoNumbersStacked(c.stack) && WellShaped(t)
    ensures NoNumbersStacked(Step(c, t).stack)
    ensures Numerals(Step(c, t).out) == Numerals(c.out) + (if t.kind == Number then [t.text] else [])
  {
    var r := Step(c, t);
    match t.kind
    case Number =>
      NumeralsAppend(c.out, [t.text]);
    case LBracket =>
      assert !IsNumberText(t.text);
    case RBracket =>
      var (e, rest) := PopUntilOpen(c.stack);
      PopUntilOpenSplits(c.stack);
      EmittedFromStack(c.stack, rest, e);
      NumeralsAppend(c.out, e);
    case Operator =>
      var (e, rest) := PopWhileAtLeast(c.stack, GetPriority(t.text));
      PopWhileAtLeastSplits(c.stack, GetPriority(t.text));
      EmittedFromStack(c.stack, rest, e);
      NumeralsAppend(c.out, e);
    case Function =>
      var (e, rest) := PopWhileAtLeast(c.stack, GetPriority(t.text));
      PopWhileAtLeastSplits(c.stack, GetPriority(t.text));
      EmittedFromStack(c.stack, rest, e);
      NumeralsAppend(c.out, e);
    case End =>
  }

  lemma {:induction false} ConvertNumerals(ts: seq<Token>, c: Conv)
    requires NoNumbersStacked(c.stack)
    requires forall i :: 0 <= i < |ts| ==> WellShaped(ts[i])
    ensures NoNumbersStacked(ConvertFrom(ts, c).stack)
    ensures Numerals(ConvertFrom(ts, c).out) == Numerals(c.out) + NumberTexts(ts)
    decreases |ts|
  {
    if ts != [] {
      StepNumerals(c, ts[0]);
      ConvertNumerals(ts[1..], Step(c, ts[0]));
    }
  }

  /** NUMBERs come out in input order: the numbers of the postfix text are
      exactly the input's NUMBER tokens, in the same order. */
  lemma NumbersKeepOrder(s: seq<char>)
    ensures Numerals(PostfixOf(Scan(s, 0, End, true)).1) == NumberTexts(Scan(s, 0, End, true))
  {
    var ts := Scan(s, 0, End, true);
    ScanShape(s, 0, End, true);
    assert forall i :: 0 <= i < |ts| ==> WellShaped(ts[i]);
    ConvertNumerals(ts, Conv([], [], Success, End));
    var c := ConvertFrom(ts, Conv([], [], Success, End));
    NoNumeralsReversed(c.stack);
    NumeralsAppend(c.out, Reversed(c.stack));
  }

  /** The fold's status: SUCCESS exactly when it started so and no token
      repeats the kind of the one before it (the first compared with
      `last`) for NUMBER, OPERATOR or FUNCTION. */
  lemma {:induction false} ConvertStatus(ts: seq<Token>, c: Conv)
    requires forall i :: 0 <= i < |ts| ==> ts[i].kind != End
    ensures ConvertFrom(ts, c).status == Success <==>
      c.status == Success && (ts != [] ==> !Repeats(c.last, ts[0].kind)) &&
      forall i :: 0 < i < |ts| ==> !Repeats(ts[i - 1].kind, ts[i].kind)
    decreases |ts|
  {
    if ts != [] {
      var t := ts[0];
      ConvertStatus(ts[1..], Step(c, t));
      assert forall i :: 0 < i < |ts[1..]| ==> ts[1..][i - 1] == ts[i] && ts[1..][i] == ts[i + 1];
      if |ts| > 1 {
        assert ts[1..][0] == ts[1];
      }
    }
  }

  /** `infix_to_postfix` returns ERROR exactly on NUMBER after NUMBER,
      OPERATOR after OPERATOR or FUNCTION after FUNCTION. */
  lemma PostfixErrors(s: seq<char>)
    ensures var ts := Scan(s, 0, End, true);
      PostfixOf(ts).0 == Error <==>
        exists i :: 0 < i < |ts| && Repeats(ts[i - 1].kind, ts[i].kind)
  {
    var ts := Scan(s, 0, End, true);
    ConvertStatus(ts, Conv([], [], Success, End));
  }

  /** Popping one top of priority at least `p` is the first step of
      `PopWhileAtLeast`. */
  lemma PopWhileAtLeastStep(stack: seq<string>, p: int)
    requires stack != [] && GetPriority(stack[|stack| - 1]) >= p
    ensures PopWhileAtLeast(stack, p).0 == [stack[|stack| - 1]] + PopWhileAtLeast(stack[..|stack| - 1], p).0
    ensures PopWhileAtLeast(stack, p).1 == PopWhileAtLeast(stack[..|stack| - 1], p).1
  {
  }

  /** Popping one top other than `(` is the first step of `PopUntilOpen`. */
  lemma PopUntilOpenStep(stack: seq<string>)
    requires stack != [] && stack[|stack| - 1] != "("
    ensures PopUntilOpen(stack).0 == [stack[|stack| - 1]] + PopUntilOpen(stack[..|stack| - 1]).0
    ensures PopUntilOpen(stack).1 == PopUntilOpen(stack[..|stack| - 1]).1
  {
  }

  /** Copy a word into the output buffer character by character, then a
      space: the buffer held `prefix` and the words `done`, and now holds
      `token` as one more word. */
  method Emit(buffer: string, token: string, ghost prefix: string, ghost done: seq<string>)
    returns (buffer': string)
    requires buffer == prefix + Spaced(done)
    ensures buffer' == prefix + Spaced(done + [token])
  {
    buffer' := buffer;
    var i := 0;
    while i < |token|
      invariant 0 <= i <= |token|
      invariant buffer' == buffer + token[..i]
    {
      buffer' := buffer' + [token[i]];
      i := i + 1;
    }
    buffer' := buffer' + " ";
    assert token[..i] == token;
    SpacedSnoc(prefix, done, token);
  }

  /** The inner loop for an OPERATOR or FUNCTION of priority `p`, on the
      stack object: emit each popped top followed by a space. The pops
      cannot fail, so `status` comes back unchanged. */
  method EmitWhileAtLeast(stack: Stack, buffer: string, p: int, status: Status)
    returns (buffer': string, status': Status)
    modifies stack
    ensures stack.items == PopWhileAtLeast(old(stack.items), p).1
    ensures buffer' == buffer + Spaced(PopWhileAtLeast(old(stack.items), p).0)
    ensures status' == status
  {
    buffer', status' := buffer, status;
    ghost var target := PopWhileAtLeast(stack.items, p);
    ghost var done: seq<string> := [];
    assert done + PopWhileAtLeast(stack.items, p).0 == target.0;
    while !stack.IsEmpty() && GetPriority(stack.Peek().value) >= p
      invariant target.0 == done + PopWhileAtLeast(stack.items, p).0
      invariant target.1 == PopWhileAtLeast(stack.items, p).1
      invariant buffer' == buffer + Spaced(done) && status' == status
      decreases |stack.items|
    {
      PopWhileAtLeastStep(stack.items, p);
      var st, top := stack.Pop("");
      if st == Error {
        status' := Error;
      }
      ghost var r := PopWhileAtLeast(stack.items, p).0;
      MoveFront(done, top, r);
      buffer' := Emit(buffer', top, buffer, done);
      done := done + [top];
    }
    assert PopWhileAtLeast(stack.items, p) == ([], stack.items);
    assert done + [] == done;
  }

  /** The inner loop for `)`, on the stack object, followed by the `pop`
      that discards the `(`; that pop's result is ignored, as in the
      source. */
  method EmitUntilOpen(stack: Stack, buffer: string, status: Status)
    returns (buffer': string, status': Status)
    modifies stack
    ensures var rest := PopUntilOpen(old(stack.items)).1;
      stack.items == (if rest == [] then [] else rest[..|rest| - 1])
    ensures buffer' == buffer + Spaced(PopUntilOpen(old(stack.items)).0)
    ensures status' == status
  {
    buffer', status' := buffer, status;
    ghost var target := PopUntilOpen(stack.items);
    ghost var done: seq<string> := [];
    assert done + PopUntilOpen(stack.items).0 == target.0;
    while !stack.IsEmpty() && stack.Peek().value != "("
      invariant target.0 == done + PopUntilOpen(stack.items).0
      invariant target.1 == PopUntilOpen(stack.items).1
      invariant buffer' == buffer + Spaced(done) && status' == status
      decreases |stack.items|
    {
      PopUntilOpenStep(stack.items);
      var st, top := stack.Pop("");
      if st == Error {
        status' := Error;
      }
      ghost var r := PopUntilOpen(stack.items).0;
      MoveFront(done, top, r);
      buffer' := Emit(buffer', top, buffer, done);
      done := done + [top];
    }
    assert PopUntilOpen(stack.items) == ([], stack.items);
    assert done + [] == done;
    ghost var rest := stack.items;
    var _, _ := stack.Pop("");
    assert stack.items == if rest == [] then [] else rest[..|rest| - 1];
  }

  /** The final drain: pop and emit every remaining item, top first. */
  method Drain(stack: Stack, buffer: string, status: Status)
    returns (buffer': string, status': Status)
    modifies stack
    ensures stack.items == [] && buffer' == buffer + Spaced(Reversed(old(stack.items)))
    ensures status' == status
  {
    buffer', status' := buffer, status;
    ghost var target := Reversed(stack.items);
    ghost var done: seq<string> := [];
    assert target == done + Reversed(stack.items);
    while !stack.IsEmpty()
      invariant target == done + Reversed(stack.items)
      invariant buffer' == buffer + Spaced(done) && status' == status
      decreases |stack.items|
    {
      ghost var before := stack.items;
      var st, top := stack.Pop("");
      if st == Error {
        status' := Error;
      }
      ReversedSnoc(stack.items, top);
      assert Reversed(before) == [top] + Reversed(stack.items);
      assert done + ([top] + Reversed(stack.items)) == (done + [top]) + Reversed(stack.items);
      buffer' := Emit(buffer', top, buffer, done);
      done := done + [top];
    }
    assert done + Reversed(stack.items) == done;
  }

  lemma {:induction false} ReversedSnoc(ws: seq<string>, w: string)
    ensures Reversed(ws + [w]) == [w] + Reversed(ws)
  {
    if ws != [] {
      assert (ws + [w])[1..] == ws[1..] + [w];
      ReversedSnoc(ws[1..], w);
    } else {
      assert ws + [w] == [w];
    }
  }

  /** `infix_to_postfix`: the converter's loop over the string, scanning
      with the previous token's kind passed along, then the drain; the
      result replaces the string. `buffer[--index]` needs at least one word
      of output. */
  method InfixToPostfix(s: seq<char>) returns (status: Status, out: string)
    requires AllFit(Scan(s, 0, End, true))
    requires PostfixOf(Scan(s, 0, End, true)).1 != []
    ensures (status, out) == (PostfixOf(Scan(s, 0, End, true)).0, Join(PostfixOf(Scan(s, 0, End, true)).1))
  {
    ghost var ts := Scan(s, 0, End, true);
    var cur := new Cursor(s);
    var stack := new Stack();
    var buffer: string := "";
    var last := End;
    status := Success;
    ghost var c := Conv([], [], Success, End);
    while true
      invariant cur.text == s && cur.pos <= |s|
      invariant AllFit(Scan(s, cur.pos, last, true))
      invariant ConvertFrom(Scan(s, cur.pos, last, true), c) == ConvertFrom(ts, Conv([], [], Success, End))
      invariant c.stack == stack.items && c.status == status && c.last == last
      invariant buffer == Spaced(c.out)
      decreases |s| - cur.pos
    {
      var kind, token := NextToken(cur, last, true);
      if kind == End {
        break;
      }
      ghost var c' := Step(c, Token(kind, token));
      if kind == Number {
        if last == Number {
          status := Error;
        }
        buffer := Emit(buffer, token, "", c.out);
      } else if kind == LBracket {
        stack.Push(token);
      } else if kind == RBracket {
        ghost var e := PopUntilOpen(stack.items).0;
        buffer, status := EmitUntilOpen(stack, buffer, status);
        SpacedAppend(c.out, e);
      } else if kind == Operator {
        if last == Operator {
          status := Error;
        }
        ghost var e := PopWhileAtLeast(stack.items, GetPriority(token)).0;
        buffer, status := EmitWhileAtLeast(stack, buffer, GetPriority(token), status);
        SpacedAppend(c.out, e);
        stack.Push(token);
      } else if kind == Function {
        if last == Function {
          status := Error;
        }
        ghost var e := PopWhileAtLeast(stack.items, GetPriority(token)).0;
        buffer, status := EmitWhileAtLeast(stack, buffer, GetPriority(token), status);
        SpacedAppend(c.out, e);
        stack.Push(token);
      } else {
        status := Error;
      }
      last := kind;
      c := c';
    }
    ghost var drained := Reversed(stack.items);
    buffer, status := Drain(stack, buffer, status);
    SpacedAppend(c.out, drained);
    SpacedIsJoinThenSpace(c.out + drained);
    out := buffer[..|buffer| - 1];
    stack.Clean();
  }
}
