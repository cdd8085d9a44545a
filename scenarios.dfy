/** Worked inputs that show the pipeline's quirks end to end. */
module Scenarios {
  import opened CalcTypes
  import opened Lexer
  import Normaliser
  import Validator
  import Postfix
  import Rpn

  /** `5 3 -` as `calc_rpn` lexes it: `last_type` stays END, so the `-`
      becomes `u`. */
  lemma RpnLexesMinusAsNegation(s: seq<char>)
    requires s == "5 3 -"
    ensures Scan(s, 0, End, false)
      == [Token(Number, "5"), Token(Number, "3"), Token(Operator, "u")]
  {
    assert CharAt(s, 0) == '5' && CharAt(s, 1) == ' ' && CharAt(s, 2) == '3';
    assert CharAt(s, 3) == ' ' && CharAt(s, 4) == '-' && CharAt(s, 5) == '\0';
    assert DigitsEnd(s, 1) == 1 && DigitsEnd(s, 3) == 3;
    assert SkipBlanks(s, 1) == 2 && SkipBlanks(s, 3) == 4 && SkipBlanks(s, 5) == 5;
    assert Lex(s, 0, End) == Lexeme(Token(Number, "5"), 1);
    assert Lex(s, 1, End) == Lexeme(Token(Number, "3"), 3);
    assert Lex(s, 3, End) == Lexeme(Token(Operator, "u"), 5);
    assert Lex(s, 5, End).tok.kind == End;
    assert Scan(s, 5, End, false) == [];
    assert Scan(s, 3, End, false) == [Token(Operator, "u")];
    assert Scan(s, 1, End, false) == [Token(Number, "3"), Token(Operator, "u")];
  }

  /** Evaluating those tokens negates the 3 and discards the 5 under it. */
  lemma NegationDiscardsLeftOperand(env: Rpn.Numerics, ts: seq<Token>)
    requires ts == [Token(Number, "5"), Token(Number, "3"), Token(Operator, "u")]
    ensures Rpn.RpnOf(env, ts) == (Success, env.atof(env.format(-env.atof("3"))))
  {
    var e1 := Rpn.Start.(stack := ["5"]);
    var e2 := Rpn.Start.(stack := ["5", "3"]);
    var e3 := Rpn.Start.(stack := ["5", env.format(-env.atof("3"))], t1 := "3");
    assert Rpn.Step(env, Rpn.Start, ts[0]) == e1;
    assert Rpn.Step(env, e1, ts[1]) == e2;
    assert Rpn.OpOf("u") == Rpn.Negate;
    assert Rpn.Step(env, e2, ts[2]) == e3;
    assert Rpn.RunFrom(env, ts[3..], e3) == e3;
    assert Rpn.RunFrom(env, ts[2..], e2) == e3;
    assert Rpn.RunFrom(env, ts[1..], e1) == e3;
  }

  /** Read with `last_type` held at NUMBER, `5 3 -` keeps its `-`. */
  lemma IntendedLexKeepsMinus(s: seq<char>)
    requires s == "5 3 -"
    ensures Scan(s, 0, Number, false)
      == [Token(Number, "5"), Token(Number, "3"), Token(Operator, "-")]
  {
    assert CharAt(s, 0) == '5' && CharAt(s, 1) == ' ' && CharAt(s, 2) == '3';
    assert CharAt(s, 3) == ' ' && CharAt(s, 4) == '-' && CharAt(s, 5) == '\0';
    assert DigitsEnd(s, 1) == 1 && DigitsEnd(s, 3) == 3;
    assert SkipBlanks(s, 1) == 2 && SkipBlanks(s, 3) == 4 && SkipBlanks(s, 5) == 5;
    assert Lex(s, 0, Number) == Lexeme(Token(Number, "5"), 1);
    assert Lex(s, 1, Number) == Lexeme(Token(Number, "3"), 3);
    assert Lex(s, 3, Number) == Lexeme(Token(Operator, "-"), 5);
    assert Lex(s, 5, Number).tok.kind == End;
    assert Scan(s, 5, Number, false) == [];
    assert Scan(s, 3, Number, false) == [Token(Operator, "-")];
    assert Scan(s, 1, Number, false) == [Token(Number, "3"), Token(Operator, "-")];
  }

  /** Read as intended, `5 3 -` is 5 - 3. */
  lemma IntendedSubtraction(env: Rpn.Numerics, s: seq<char>)
    requires s == "5 3 -"
    ensures Rpn.IntendedRpnOf(env, s) == (Success, env.atof(env.format(env.atof("5") - env.atof("3"))))
  {
    IntendedLexKeepsMinus(s);
    var ts := Scan(s, 0, Number, false);
    var e1 := Rpn.Start.(stack := ["5"]);
    var e2 := Rpn.Start.(stack := ["5", "3"]);
    var e3 := Rpn.Start.(stack := [env.format(env.atof("5") - env.atof("3"))], t1 := "3", t2 := "5");
    assert Rpn.Step(env, Rpn.Start, ts[0]) == e1;
    assert Rpn.Step(env, e1, ts[1]) == e2;
    assert Rpn.OpOf("-") == Rpn.Minus;
    Rpn.BinaryOperandOrder(env, e2, Rpn.Minus, env.atof("3"), env.atof("5"));
    assert Rpn.Step(env, e2, ts[2]) == e3;
    assert Rpn.RunFrom(env, ts[2..], e2) == e3;
    assert Rpn.RunFrom(env, ts[1..], e1) == e3;
  }

  /** `--3`: the first `-` follows nothing and the second follows an
      OPERATOR, so the normaliser writes both as `u`. */
  lemma DoubleMinusNormalised(line: seq<char>)
    requires line == "--3\n"
    ensures Normaliser.Words(line) == ["u", "u", "3"]
    ensures Join(Normaliser.Words(line)) == "u u 3"
  {
    assert Normaliser.NewlineAt(line) == 3;
    var s := Normaliser.Cut(line);
    assert s == "--3";
    assert CharAt(s, 0) == '-' && CharAt(s, 1) == '-' && CharAt(s, 2) == '3' && CharAt(s, 3) == '\0';
    assert DigitsEnd(s, 3) == 3;
    assert Lex(s, 0, End) == Lexeme(Token(Operator, "u"), 1);
    assert Lex(s, 1, Operator) == Lexeme(Token(Operator, "u"), 2);
    assert Lex(s, 2, Operator) == Lexeme(Token(Number, "3"), 3);
    assert Lex(s, 3, Number).tok.kind == End;
    assert Scan(s, 3, Number, true) == [];
    assert Scan(s, 2, Operator, true) == [Token(Number, "3")];
    assert Scan(s, 1, Operator, true) == [Token(Operator, "u"), Token(Number, "3")];
    var ts := Scan(s, 0, End, true);
    assert ts == [Token(Operator, "u"), Token(Operator, "u"), Token(Number, "3")];
    assert Texts(ts[2..]) == ["3"];
    assert Texts(ts[1..]) == ["u", "3"];
    assert Texts(ts) == ["u", "u", "3"];
    assert Join(["3"]) == "3";
    assert Join(["u", "3"]) == "u 3";
  }

  /** Re-read by `infix_to_postfix`, each `u` is a FUNCTION word, and two
      FUNCTION tokens in a row are rejected: `--3` never reaches the
      evaluator. */
  lemma DoubleNegationRejected(s: seq<char>)
    requires s == "u u 3"
    ensures Postfix.PostfixOf(Scan(s, 0, End, true)).0 == Error
  {
    assert CharAt(s, 0) == 'u' && CharAt(s, 1) == ' ' && CharAt(s, 2) == 'u';
    assert AlphaEnd(s, 1) == 1 && AlphaEnd(s, 3) == 3;
    assert Lex(s, 0, End) == Lexeme(Token(Function, "u"), 1);
    assert SkipBlanks(s, 1) == 2;
    assert Lex(s, 1, Function) == Lexeme(Token(Function, "u"), 3);
    var ts := Scan(s, 0, End, true);
    assert ts[0] == Token(Function, "u");
    assert Scan(s, 1, Function, true)[0] == Token(Function, "u");
    assert ts[1] == Token(Function, "u");
    assert Postfix.Repeats(ts[0].kind, ts[1].kind);
    Postfix.PostfixErrors(s);
  }

  /** `validate` checks only that the bracket count never goes negative:
      an unclosed `(` passes. */
  lemma UnclosedBracketValid(s: seq<char>)
    requires s == "(1"
    ensures var ts := Scan(s, 0, End, true);
      Validator.KnownOperators(ts) && Validator.NeverBelowZero(ts, 0) && Validator.Depth(ts) == 1
  {
    assert CharAt(s, 0) == '(' && CharAt(s, 1) == '1' && CharAt(s, 2) == '\0';
    assert DigitsEnd(s, 2) == 2;
    assert Lex(s, 0, End) == Lexeme(Token(LBracket, "("), 1);
    assert Lex(s, 1, LBracket) == Lexeme(Token(Number, "1"), 2);
    assert Lex(s, 2, Number).tok.kind == End;
    assert Scan(s, 2, Number, true) == [];
    assert Scan(s, 1, LBracket, true) == [Token(Number, "1")];
    var ts := Scan(s, 0, End, true);
    assert ts == [Token(LBracket, "("), Token(Number, "1")];
    assert Validator.Depth(ts[..1]) == 1;
    assert ts[..2] == ts;
  }
}
