/** The RPN evaluator `calc_rpn` (calculator.c:170-241). Values travel on
    the stack as text: each result is printed with `sprintf("%lf")` and read
    back with `atof`. Both conversions and the `math.h` functions are
    parameters of the model (`Numerics`). */
module Rpn {
  import opened CalcTypes
  import opened Lexer
  import opened Stacks

  /** The numeric environment: `atof`, `sprintf("%lf")`, the `math.h`
      functions, and the text `sprintf` prints for `1.0 / tan(x)` when
      `tan(x)` is zero. */
  datatype Numerics = Numerics(
    atof: string -> real,
    format: real -> string,
    tan: real -> real,
    sin: real -> real,
    cos: real -> real,
    log: real -> real,
    sqrt: real -> real,
    pole: string)

  /** The branches of `calc_rpn`'s `strcmp` chain, for a token that is not
      a NUMBER. */
  datatype RpnOp = Plus | Times | Minus | Divide | Negate | Tan | Ctg | Sin | Cos | Ln | Sqrt | Unknown

  /** Which branch of the `strcmp` chain a token's text selects. */
  function OpOf(text: string): (op: RpnOp)
    ensures op == Unknown <==> text !in ["+", "*", "-", "/", "u", "tan", "ctg", "sin", "cos", "ln", "sqrt"]
  {
    if text == "+" then Plus
    else if text == "*" then Times
    else if text == "-" then Minus
    else if text == "/" then Divide
    else if text == "u" then Negate
    else if text == "tan" then Tan
    else if text == "ctg" then Ctg
    else if text == "sin" then Sin
    else if text == "cos" then Cos
    else if text == "ln" then Ln
    else if text == "sqrt" then Sqrt
    else Unknown
  }

  /** The evaluator's state between tokens: the value stack (top last), the
      status, and the buffers `tmp_token1` and `tmp_token2`, which keep
      their text from one token to the next. */
  datatype Eval = Eval(stack: seq<string>, status: Status, t1: string, t2: string)

  /** What the `+`, `*` and `-` branches compute from the value popped
      first (`right`, from `tmp_token1`) and the one popped second (`left`). */
  function Arith(op: RpnOp, right: real, left: real): real
    requires op == Plus || op == Times || op == Minus
  {
    if op == Plus then right + left
    else if op == Times then right * left
    else left - right
  }

  /** The text a unary branch pushes for the operand `x`: `-x`, a `math.h`
      function, or the cotangent, printed with `sprintf("%lf")`. */
  function UnaryText(env: Numerics, op: RpnOp, x: real): string
    requires op in {Negate, Tan, Ctg, Sin, Cos, Ln, Sqrt}
  {
    match op
    case Negate => env.format(-x)
    case Tan => env.format(env.tan(x))
    case Ctg => Cotangent(env, x)
    case Sin => env.format(env.sin(x))
    case Cos => env.format(env.cos(x))
    case Ln => env.format(env.log(x))
    case Sqrt => env.format(env.sqrt(x))
  }

  /** A binary branch: pop the right operand into `tmp_token1`, the left one
      into `tmp_token2`, and push `Arith(op, right, left)` as text. A failed pop
      sets ERROR and leaves its buffer as it was, and the push happens
      anyway. */
  function Binary(env: Numerics, e: Eval, op: RpnOp): (r: Eval)
    requires op == Plus || op == Times || op == Minus
    ensures |e.stack| >= 2 ==>
      var n := |e.stack|;
      r == Eval(e.stack[..n - 2] + [env.format(Arith(op, env.atof(e.stack[n - 1]), env.atof(e.stack[n - 2])))],
                e.status, e.stack[n - 1], e.stack[n - 2])
    ensures |e.stack| < 2 ==> r.status == Error
  {
    var (s1, right, rest1) := PopFrom(e.stack, e.t1);
    var (s2, left, rest2) := PopFrom(rest1, e.t2);
    var status := if s1 == Error || s2 == Error then Error else e.status;
    Eval(rest2 + [env.format(Arith(op, env.atof(right), env.atof(left)))], status, right, left)
  }

  /** The `/` branch: as a binary branch, except that a zero divisor sets
      ERROR and pushes nothing. */
  function Division(env: Numerics, e: Eval): (r: Eval)
    ensures |e.stack| >= 2 ==>
      var n := |e.stack|;
      var divisor := env.atof(e.stack[n - 1]);
      if divisor != 0.0 then
        r == Eval(e.stack[..n - 2] + [env.format(env.atof(e.stack[n - 2]) / divisor)],
                  e.status, e.stack[n - 1], e.stack[n - 2])
      else
        r == Eval(e.stack[..n - 2], Error, e.stack[n - 1], e.stack[n - 2])
    ensures |e.stack| < 2 ==> r.status == Error
  {
    var (s1, right, rest1) := PopFrom(e.stack, e.t1);
    var (s2, left, rest2) := PopFrom(rest1, e.t2);
    var status := if s1 == Error || s2 == Error then Error else e.status;
    if env.atof(right) != 0.0 then
      Eval(rest2 + [env.format(env.atof(left) / env.atof(right))], status, right, left)
    else
      Eval(rest2, Error, right, left)
  }

  /** A unary branch: pop the operand into `tmp_token1` and push the text
      `UnaryText(env, op, x)` of its value `x`. */
  function Unary(env: Numerics, e: Eval, op: RpnOp): (r: Eval)
    requires op in {Negate, Tan, Ctg, Sin, Cos, Ln, Sqrt}
    ensures e.stack != [] ==>
      var n := |e.stack|;
      r == Eval(e.stack[..n - 1] + [UnaryText(env, op, env.atof(e.stack[n - 1]))], e.status, e.stack[n - 1], e.t2)
    ensures e.stack == [] ==> r == Eval([UnaryText(env, op, env.atof(e.t1))], Error, e.t1, e.t2)
  {
    var (s1, operand, rest) := PopFrom(e.stack, e.t1);
    Eval(rest + [UnaryText(env, op, env.atof(operand))], if s1 == Error then Error else e.status, operand, e.t2)
  }

  /** `1.0 / tan(x)` as printed. */
  function Cotangent(env: Numerics, x: real): (r: string)
    ensures env.tan(x) == 0.0 ==> r == env.pole
    ensures env.tan(x) != 0.0 ==> exists c: real {:trigger env.format(c)} :: r == env.format(c) && c * env.tan(x) == 1.0
  {
    if env.tan(x) == 0.0 then env.pole
    else
      var c := 1.0 / env.tan(x);
      assert c * env.tan(x) == 1.0;
      env.format(c)
  }

  /** One pass of `calc_rpn`'s loop body. */
  function Step(env: Numerics, e: Eval, t: Token): (r: Eval)
    ensures e.status == Error ==> r.status == Error
    ensures t.kind == Number ==> r == e.(stack := e.stack + [t.text])
    ensures t.kind != Number && OpOf(t.text) in {Plus, Times, Minus} ==> r == Binary(env, e, OpOf(t.text))
    ensures t.kind != Number && OpOf(t.text) == Divide ==> r == Division(env, e)
    ensures t.kind != Number && OpOf(t.text) in {Negate, Tan, Ctg, Sin, Cos, Ln, Sqrt} ==> r == Unary(env, e, OpOf(t.text))
    ensures t.kind != Number && OpOf(t.text) == Unknown ==> r == e.(status := Error)
    ensures |r.stack| <= |e.stack| + 1
  {
    if t.kind == Number then e.(stack := e.stack + [t.text])
    else
      var op := OpOf(t.text);
      match op
      case Plus | Times | Minus => Binary(env, e, op)
      case Divide => Division(env, e)
      case Negate | Tan | Ctg | Sin | Cos | Ln | Sqrt => Unary(env, e, op)
      case Unknown => e.(status := Error)
  }

  /** `calc_rpn`'s loop over the tokens `ts`. */
  function RunFrom(env: Numerics, ts: seq<Token>, e: Eval): (r: Eval)
    ensures |r.stack| <= |e.stack| + |ts|
    decreases |ts|
  {
    if ts == [] then e else RunFrom(env, ts[1..], Step(env, e, ts[0]))
  }

  /** After the loop: pop the top into `tmp_token1` (ERROR on an empty
      stack, leaving the buffer as it was) and read the result from it.
      Whatever lies under the top is discarded. */
  function Finish(env: Numerics, e: Eval): (r: (Status, real))
    ensures e.stack != [] ==> r == (e.status, env.atof(e.stack[|e.stack| - 1]))
    ensures e.stack == [] ==> r == (Error, env.atof(e.t1))
  {
    var (s, top, _) := PopFrom(e.stack, e.t1);
    (if s == Error then Error else e.status, env.atof(top))
  }

  /** The buffers start out holding no text. */
  const Start := Eval([], Success, "", "")

  /** The whole evaluation of the tokens `ts`. */
  function RpnOf(env: Numerics, ts: seq<Token>): (r: (Status, real))
    ensures (forall i :: 0 <= i < |ts| ==> ts[i].kind != Number) ==> r.0 == Error
  {
    NoNumberNoValue(env, ts, Start);
    Finish(env, RunFrom(env, ts, Start))
  }

  /** Without a NUMBER nothing pushes a value while the status is SUCCESS:
      every operator branch on an empty stack sets ERROR. */
  lemma {:induction false} NoNumberNoValue(env: Numerics, ts: seq<Token>, e: Eval)
    ensures (forall i :: 0 <= i < |ts| ==> ts[i].kind != Number) && (e.stack == [] || e.status == Error) ==>
      var r := RunFrom(env, ts, e); r.stack == [] || r.status == Error
    decreases |ts|
  {
    if ts != [] && (forall i :: 0 <= i < |ts| ==> ts[i].kind != Number) && (e.stack == [] || e.status == Error) {
      assert ts[0].kind != Number;
      NoNumberNoValue(env, ts[1..], Step(env, e, ts[0]));
      assert forall i :: 0 <= i < |ts[1..]| ==> ts[1..][i] == ts[i + 1];
    }
  }

  /** Once ERROR is set the evaluator keeps scanning, and the status stays
      ERROR to the end. */
  lemma {:induction false} ErrorsAreSticky(env: Numerics, ts: seq<Token>, e: Eval)
    requires e.status == Error
    ensures RunFrom(env, ts, e).status == Error
    ensures Finish(env, RunFrom(env, ts, e)).0 == Error
    decreases |ts|
  {
    if ts != [] {
      ErrorsAreSticky(env, ts[1..], Step(env, e, ts[0]));
    }
  }

  /** Running the tokens `a + b` is running `a`, then `b`. */
  lemma {:induction false} RunAppend(env: Numerics, a: seq<Token>, b: seq<Token>, e: Eval)
    ensures RunFrom(env, a + b, e) == RunFrom(env, b, RunFrom(env, a, e))
    decreases |a|
  {
    if a != [] {
      assert (a + b)[0] == a[0] && (a + b)[1..] == a[1..] + b;
      RunAppend(env, a[1..], b, Step(env, e, a[0]));
    } else {
      assert a + b == b;
    }
  }

  /** A NUMBER token pushes its text, and the evaluation after a run of
      numbers holds them in order with the last one on top. */
  lemma {:induction false} NumbersArePushed(env: Numerics, ts: seq<Token>, e: Eval)
    requires forall i :: 0 <= i < |ts| ==> ts[i].kind == Number
    ensures RunFrom(env, ts, e) == e.(stack := e.stack + Texts(ts))
    decreases |ts|
  {
    if ts != [] {
      NumbersArePushed(env, ts[1..], Step(env, e, ts[0]));
      assert e.stack + [ts[0].text] + Texts(ts[1..]) == e.stack + Texts(ts);
    }
  }

  /** The unary branches (`u` and the six functions) pop one value and push
      one: on a non-empty stack the height and everything under the top
      stay, and the status is unchanged. */
  lemma UnaryKeepsHeight(env: Numerics, e: Eval, t: Token)
    requires t.kind != Number && OpOf(t.text) in {Negate, Tan, Ctg, Sin, Cos, Ln, Sqrt}
    requires e.stack != []
    ensures var r := Step(env, e, t);
      |r.stack| == |e.stack| && r.stack[..|r.stack| - 1] == e.stack[..|e.stack| - 1] && r.status == e.status
  {
  }

  /** A binary branch on a stack of at least two values replaces them with
      one, computed with the top value as the right operand: `+` and `*`
      take it first, `-` subtracts it from the value under it. */
  lemma BinaryOperandOrder(env: Numerics, e: Eval, op: RpnOp, right: real, left: real)
    requires op == Plus || op == Times || op == Minus
    requires |e.stack| >= 2
    requires right == env.atof(e.stack[|e.stack| - 1]) && left == env.atof(e.stack[|e.stack| - 2])
    ensures op == Plus ==> Binary(env, e, op).stack == e.stack[..|e.stack| - 2] + [env.format(right + left)]
    ensures op == Times ==> Binary(env, e, op).stack == e.stack[..|e.stack| - 2] + [env.format(right * left)]
    ensures op == Minus ==> Binary(env, e, op).stack == e.stack[..|e.stack| - 2] + [env.format(left - right)]
  {
    if op == Times {
      assert Arith(Times, right, left) == right * left;
    }
  }

  /** With fewer than two values a binary operator sets ERROR; on an empty
      stack so does a unary one. */
  lemma StackUnderflow(env: Numerics, e: Eval, t: Token)
    requires t.kind != Number
    ensures OpOf(t.text) in {Plus, Times, Minus, Divide} && |e.stack| < 2 ==> Step(env, e, t).status == Error
    ensures OpOf(t.text) in {Negate, Tan, Ctg, Sin, Cos, Ln, Sqrt} && e.stack == [] ==>
      Step(env, e, t).status == Error
  {
  }

  /** `calc_rpn` reads its string without updating `last_type`, so every
      `-` in it is read as `u`: the subtraction branch never runs, and each
      step on a token of that scan is one the evaluator would take with the
      `-` branch removed. */
  lemma MinusBranchIsDead(s: seq<char>)
    ensures forall i :: 0 <= i < |Scan(s, 0, End, false)| ==>
      Scan(s, 0, End, false)[i].kind == Number || OpOf(Scan(s, 0, End, false)[i].text) != Minus
  {
    ScanWithoutTrackingHasNoMinus(s, 0);
  }

  /** The evaluation `calc_rpn` evidently intends. Its input is postfix
      text in which every unary minus is already `u`, so reading it with
      `last_type` held at NUMBER leaves each `-` a subtraction. */
  function IntendedRpnOf(env: Numerics, s: seq<char>): (r: (Status, real))
    ensures (forall i :: 0 <= i < |s| ==> s[i] != '-') ==> r == RpnOf(env, Scan(s, 0, End, false))
  {
    ScanWithoutMinus(s, 0, Number, End);
    RpnOf(env, Scan(s, 0, Number, false))
  }

  /** `last_type` only decides how a `-` is read, so on a text without one
      the scan does not depend on it. */
  lemma {:induction false} ScanWithoutMinus(s: seq<char>, pos: nat, a: TokenType, b: TokenType)
    ensures (forall i :: 0 <= i < |s| ==> s[i] != '-') ==> Scan(s, pos, a, false) == Scan(s, pos, b, false)
    decreases |s| - pos
  {
    if forall i :: 0 <= i < |s| ==> s[i] != '-' {
      var q := SkipBlanks(s, pos);
      assert CharAt(s, q) != '-';
      var l := Lex(s, pos, a);
      assert l == Lex(s, pos, b);
      if l.tok.kind != End {
        ScanWithoutMinus(s, l.next, a, b);
      }
    }
  }

  /** With `last_type` held at NUMBER no operator is rewritten: every
      OPERATOR token is the one character read, never `u`, and a `-` in the
      text is the subtraction. */
  lemma {:induction false} IntendedScanKeepsMinus(s: seq<char>, pos: nat)
    ensures var ts := Scan(s, pos, Number, false);
      forall i :: 0 <= i < |ts| && ts[i].kind == Operator ==>
        |ts[i].text| == 1 && ts[i].text != "u" && (ts[i].text == "-" ==> OpOf(ts[i].text) == Minus)
    decreases |s| - pos
  {
    var l := Lex(s, pos, Number);
    if l.tok.kind != End {
      LexClassifies(s, pos, Number);
      IntendedScanKeepsMinus(s, l.next);
      var ts := Scan(s, pos, Number, false);
      assert ts == [l.tok] + Scan(s, l.next, Number, false);
    }
  }

  /** A binary branch on the stack object. */
  method ApplyBinary(env: Numerics, stack: Stack, t1: string, t2: string, status: Status, op: RpnOp)
    returns (t1': string, t2': string, status': Status)
    requires op == Plus || op == Times || op == Minus
    modifies stack
    ensures Eval(stack.items, status', t1', t2') == Binary(env, Eval(old(stack.items), status, t1, t2), op)
  {
    var s1, s2;
    status' := status;
    s1, t1' := stack.Pop(t1);
    if s1 == Error {
      status' := Error;
    }
    s2, t2' := stack.Pop(t2);
    if s2 == Error {
      status' := Error;
    }
    stack.Push(env.format(Arith(op, env.atof(t1'), env.atof(t2'))));
  }

  /** The `/` branch on the stack object. */
  method ApplyDivision(env: Numerics, stack: Stack, t1: string, t2: string, status: Status)
    returns (t1': string, t2': string, status': Status)
    modifies stack
    ensures Eval(stack.items, status', t1', t2') == Division(env, Eval(old(stack.items), status, t1, t2))
  {
    var s1, s2;
    status' := status;
    s1, t1' := stack.Pop(t1);
    if s1 == Error {
      status' := Error;
    }
    s2, t2' := stack.Pop(t2);
    if s2 == Error {
      status' := Error;
    }
    if env.atof(t1') != 0.0 {
      stack.Push(env.format(env.atof(t2') / env.atof(t1')));
    } else {
      status' := Error;
    }
  }

  /** A unary branch on the stack object. */
  method ApplyUnary(env: Numerics, stack: Stack, t1: string, t2: string, status: Status, op: RpnOp)
    returns (t1': string, status': Status)
    requires op in {Negate, Tan, Ctg, Sin, Cos, Ln, Sqrt}
    modifies stack
    ensures Eval(stack.items, status', t1', t2) == Unary(env, Eval(old(stack.items), status, t1, t2), op)
  {
    var s1;
    status' := status;
    s1, t1' := stack.Pop(t1);
    if s1 == Error {
      status' := Error;
    }
    stack.Push(UnaryText(env, op, env.atof(t1')));
  }

  /** `calc_rpn`: scan the postfix string with `last_type` fixed at END,
      run each token, then pop the result. */
  method CalcRpn(env: Numerics, s: seq<char>) returns (status: Status, result: real)
    requires AllFit(Scan(s, 0, End, false))
    ensures (status, result) == RpnOf(env, Scan(s, 0, End, false))
  {
    ghost var ts := Scan(s, 0, End, false);
    var cur := new Cursor(s);
    var stack := new Stack();
    var t1, t2 := "", "";
    status := Success;
    while true
      invariant cur.text == s && cur.pos <= |s|
      invariant AllFit(Scan(s, cur.pos, End, false))
      invariant RunFrom(env, Scan(s, cur.pos, End, false), Eval(stack.items, status, t1, t2))
        == RunFrom(env, ts, Start)
      decreases |s| - cur.pos
    {
      var kind, token := NextToken(cur, End, false);
      if kind == End {
        break;
      }
      ghost var next := Step(env, Eval(stack.items, status, t1, t2), Token(kind, token));
      if kind == Number {
        stack.Push(token);
      } else {
        var op := OpOf(token);
        match op
        case Plus | Times | Minus =>
          t1, t2, status := ApplyBinary(env, stack, t1, t2, status, op);
        case Divide =>
          t1, t2, status := ApplyDivision(env, stack, t1, t2, status);
        case Negate | Tan | Ctg | Sin | Cos | Ln | Sqrt =>
          t1, status := ApplyUnary(env, stack, t1, t2, status, op);
        case Unknown =>
          status := Error;
      }
      assert Eval(stack.items, status, t1, t2) == next;
    }
    var popped;
    popped, t1 := stack.Pop(t1);
    if popped == Error {
      status := Error;
    }
    stack.Clean();
    result := env.atof(t1);
  }
}
