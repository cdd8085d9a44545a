/** The structural validator `validate` (calculator.c:243-266): every
    OPERATOR must be one of the thirteen known symbols and the running
    bracket count must never go negative. */
module Validator {
  import opened CalcTypes
  import opened Lexer

  /** `VALID_TOKENS`, in the order of its initialiser. */
  const ValidTokens: seq<string> :=
    ["+", "-", "*", "/", "(", ")", "u", "tan", "ctg", "sin", "cos", "ln", "sqrt"]

  /** The change one token makes to `brackets_count`; the source compares
      the token's text, whatever its kind. */
  function BracketDelta(text: string): int
  {
    if text == "(" then 1 else if text == ")" then -1 else 0
  }

  /** The bracket count after the tokens `ts`, from zero. */
  function Depth(ts: seq<Token>): int
  {
    if ts == [] then 0 else BracketDelta(ts[0].text) + Depth(ts[1..])
  }

  /** The validator's loop as a fold: `count` is `brackets_count` and
      `status` the status before the tokens `ts`; the result is the pair
      after them. An unknown OPERATOR and a negative count both set ERROR,
      and scanning goes on. */
  function ValidateFrom(ts: seq<Token>, count: int, status: Status): (r: (int, Status))
    ensures status == Error ==> r.1 == Error
    ensures r.1 == Success && ts != [] ==> r.0 >= 0
    decreases |ts|
  {
    if ts == [] then (count, status)
    else
      var t := ts[0];
      var known := if t.kind == Operator && t.text !in ValidTokens then Error else status;
      var count' := count + BracketDelta(t.text);
      ValidateFrom(ts[1..], count', if count' < 0 then Error else known)
  }

  /** Every OPERATOR token is one of `VALID_TOKENS`. */
  predicate KnownOperators(ts: seq<Token>)
  {
    forall i :: 0 <= i < |ts| ==> ts[i].kind == Operator ==> ts[i].text in ValidTokens
  }

  /** The bracket count, started at `count`, is non-negative after every
      non-empty prefix of `ts`. */
  predicate NeverBelowZero(ts: seq<Token>, count: int)
  {
    forall n :: 1 <= n <= |ts| ==> count + Depth(ts[..n]) >= 0
  }

  /** What the fold computes: the final count is the start plus the depth
      of all tokens, and the status stays SUCCESS exactly when it started so,
      every operator is known and the count never went negative. */
  lemma {:induction false} ValidateFromMeaning(ts: seq<Token>, count: int, status: Status)
    ensures ValidateFrom(ts, count, status).0 == count + Depth(ts)
    ensures ValidateFrom(ts, count, status).1 == Success
      <==> status == Success && KnownOperators(ts) && NeverBelowZero(ts, count)
    decreases |ts|
  {
    if ts != [] {
      var t := ts[0];
      var known := if t.kind == Operator && t.text !in ValidTokens then Error else status;
      var count' := count + BracketDelta(t.text);
      var status' := if count' < 0 then Error else known;
      ValidateFromMeaning(ts[1..], count', status');
      forall n | 1 <= n <= |ts| ensures Depth(ts[..n]) == BracketDelta(t.text) + Depth(ts[1..][..n - 1]) {
        assert ts[..n][1..] == ts[1..][..n - 1];
      }
      if KnownOperators(ts) {
        forall i | 0 <= i < |ts[1..]| ensures ts[1..][i].kind == Operator ==> ts[1..][i].text in ValidTokens {
          assert ts[1..][i] == ts[i + 1];
        }
      }
      if KnownOperators(ts[1..]) && known == Success {
        forall i | 0 <= i < |ts| ensures ts[i].kind == Operator ==> ts[i].text in ValidTokens {
          if i > 0 {
            assert ts[i] == ts[1..][i - 1];
          }
        }
      }
      if NeverBelowZero(ts, count) {
        assert count + Depth(ts[..1]) >= 0;
        forall n | 1 <= n <= |ts[1..]| ensures count' + Depth(ts[1..][..n]) >= 0 {
          assert count + Depth(ts[..n + 1]) >= 0;
        }
      }
      if NeverBelowZero(ts[1..], count') && count' >= 0 {
        forall n | 1 <= n <= |ts| ensures count + Depth(ts[..n]) >= 0 {
          if n > 1 {
            assert count' + Depth(ts[1..][..n - 1]) >= 0;
          } else {
            assert ts[1..][..0] == [];
          }
        }
      }
    }
  }

  /** The fold consumes one token. */
  lemma ValidateFromStep(t: Token, rest: seq<Token>, count: int, status: Status, known: Status,
                         count': int, status': Status)
    requires known == if t.kind == Operator && t.text !in ValidTokens then Error else status
    requires count' == count + BracketDelta(t.text)
    requires status' == if count' < 0 then Error else known
    ensures ValidateFrom([t] + rest, count, status) == ValidateFrom(rest, count', status')
  {
    assert ([t] + rest)[0] == t && ([t] + rest)[1..] == rest;
  }

  /** The inner `for` loop: is `token` one of `VALID_TOKENS`? */
  method IsValidOperator(token: string) returns (isValid: bool)
    ensures isValid <==> token in ValidTokens
  {
    isValid := false;
    for i := 0 to |ValidTokens|
      invariant isValid <==> token in ValidTokens[..i]
    {
      if token == ValidTokens[i] {
        isValid := true;
      }
      assert ValidTokens[..i + 1] == ValidTokens[..i] + [ValidTokens[i]];
    }
    assert ValidTokens[..|ValidTokens|] == ValidTokens;
  }

  /** `validate`: scan the string with the previous token's kind passed
      along, and report ERROR for an unknown OPERATOR or a bracket count
      that goes negative. Neither a non-zero final count nor an unknown
      FUNCTION word is rejected. */
  method Validate(s: seq<char>) returns (status: Status)
    requires AllFit(Scan(s, 0, End, true))
    ensures var ts := Scan(s, 0, End, true);
      status == Success <==> KnownOperators(ts) && NeverBelowZero(ts, 0)
  {
    ghost var ts := Scan(s, 0, End, true);
    var cur := new Cursor(s);
    var last := End;
    var count := 0;
    status := Success;
    while true
      invariant cur.text == s && cur.pos <= |s|
      invariant AllFit(Scan(s, cur.pos, last, true))
      invariant ValidateFrom(Scan(s, cur.pos, last, true), count, status) == ValidateFrom(ts, 0, Success)
      decreases |s| - cur.pos
    {
      var kind, token := NextToken(cur, last, true);
      if kind == End {
        break;
      }
      ghost var before, countBefore := status, count;
      if kind == Operator {
        var isValid := IsValidOperator(token);
        if !isValid {
          status := Error;
        }
      }
      ghost var known := status;
      if token == "(" {
        count := count + 1;
      } else if token == ")" {
        count := count - 1;
      }
      if count < 0 {
        status := Error;
      }
      ValidateFromStep(Token(kind, token), Scan(s, cur.pos, kind, true), countBefore, before, known, count, status);
      last := kind;
    }
    ValidateFromMeaning(ts, 0, Success);
  }
}
