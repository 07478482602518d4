/**
 The equation builder `make_sw_equations`: the right-hand sides of the
 parametric X(t) and Y(t) equations of the cycloidal disk, as text for an
 Equation Driven Curve of SolidWorks, which spells arctangent `atn`:

   phi(t) = atn(sin((1-N)t) / (R_p/(eN) - cos((1-N)t)))
   x(t)   =  R_p cos t - r cos(t + phi(t)) - e cos(N t)
   y(t)   = -R_p sin t + r sin(t + phi(t)) + e sin(N t)
 */
module Equations {
  import opened Numerics
  import opened Text
  import opened Formatter

  datatype EquationPair = EquationPair(x: string, y: string)

  /** The X f-string, split at its phase term: with the rendered R_p, r,
      e, N, 1-N and R_p/(eN) in the holes it reads
      `(Rp*cos(t)) - (rr*cos(t+atn(sin(N_*t)/(RpeN-cos(N_*t))))) - (ee*cos(Nn*t))`. */
  function XExpr(rp: string, rr: string, ee: string, nn: string, n1: string, rpen: string): string {
    XHead(rp, rr) + PhiText(n1, rpen) + XTail(ee, nn)
  }

  /** The Y f-string, split the same way:
      `(-Rp*sin(t)) + (rr*sin(t+atn(sin(N_*t)/(RpeN-cos(N_*t))))) + (ee*sin(Nn*t))`. */
  function YExpr(rp: string, rr: string, ee: string, nn: string, n1: string, rpen: string): string {
    YHead(rp, rr) + PhiText(n1, rpen) + YTail(ee, nn)
  }

  /** `make_sw_equations(R_p, e, r, N)`, with `_fmt_num` passed as `fmt`.
      The ratio is computed before any text is produced, so a zero `e * N`
      raises before anything is returned. */
  function MakeSwEquations(fmt: real -> string, rp: real, e: real, r: real, n: int): (res: Result<EquationPair>)
    ensures res.Ok? <==> e * (n as real) != 0.0
  {
    if e * (n as real) == 0.0 then ZeroDivisionError
    else
      var ratio := Ratio(rp, e, n as real);
      var rp', ee, rr, nn := fmt(rp), fmt(e), fmt(r), IntToString(n);
      var n1, rpen := fmt((1 - n) as real), fmt(ratio);
      Ok(EquationPair(XExpr(rp', rr, ee, nn, n1, rpen), YExpr(rp', rr, ee, nn, n1, rpen)))
  }

  /** The phase term phi(t) as text, given the renderings of 1-N and R_p/(eN). */
  function PhiText(n1: string, rpen: string): string {
    "atn(" + PhiArgument(n1, rpen) + ")"
  }

  /** The argument of `atn`: sin((1-N)t) / (R_p/(eN) - cos((1-N)t)). */
  function PhiArgument(n1: string, rpen: string): string {
    "sin(" + n1 + "*t)/(" + rpen + "-cos(" + n1 + "*t))"
  }

  // The X and Y templates around their phase term.

  function XHead(rp: string, rr: string): string {
    "(" + rp + "*cos(t)) - (" + rr + "*cos(t+"
  }

  function XTail(ee: string, nn: string): string {
    ")) - (" + ee + "*cos(" + nn + "*t))"
  }

  function YHead(rp: string, rr: string): string {
    "(-" + rp + "*sin(t)) + (" + rr + "*sin(t+"
  }

  function YTail(ee: string, nn: string): string {
    ")) + (" + ee + "*sin(" + nn + "*t))"
  }

  /** Each expression is, character for character, the source's f-string
      with Fmt(R_p), Fmt(r), Fmt(e), Fmt(1-N) and Fmt(R_p/(eN)) in its holes
      and N itself as `str(N)`; neither starts with `x=` or `y=`. */
  lemma EquationsSplice(fmt: real -> string, rp: real, e: real, r: real, n: int)
    requires e * (n as real) != 0.0
    ensures var eq := MakeSwEquations(fmt, rp, e, r, n).value;
            var rp', ee, rr, nn := fmt(rp), fmt(e), fmt(r), IntToString(n);
            var n1, rpen := fmt((1 - n) as real), fmt(Ratio(rp, e, n as real));
            eq.x == "(" + rp' + "*cos(t)) - ("
                    + rr + "*cos(t+atn(sin(" + n1 + "*t)/(" + rpen + "-cos(" + n1 + "*t))))) - ("
                    + ee + "*cos(" + nn + "*t))" &&
            eq.y == "(-" + rp' + "*sin(t)) + ("
                    + rr + "*sin(t+atn(sin(" + n1 + "*t)/(" + rpen + "-cos(" + n1 + "*t))))) + ("
                    + ee + "*sin(" + nn + "*t))"
  {
    var rp', ee, rr, nn := fmt(rp), fmt(e), fmt(r), IntToString(n);
    var n1, rpen := fmt((1 - n) as real), fmt(Ratio(rp, e, n as real));
    XMatchesSource(rp', rr, ee, nn, n1, rpen);
    YMatchesSource(rp', rr, ee, nn, n1, rpen);
  }

  /** The head/phase/tail split of X reassembles the X f-string. */
  lemma XMatchesSource(rp: string, rr: string, ee: string, nn: string, n1: string, rpen: string)
    ensures XExpr(rp, rr, ee, nn, n1, rpen)
         == "(" + rp + "*cos(t)) - ("
            + rr + "*cos(t+atn(sin(" + n1 + "*t)/(" + rpen + "-cos(" + n1 + "*t))))) - ("
            + ee + "*cos(" + nn + "*t))"
  {
    assert "*cos(t+atn(sin(" == "*cos(t+" + "atn(" + "sin(";
    assert "*t))))) - (" == "*t))" + ")" + ")) - (";
    Regroup("(" + rp + "*cos(t)) - (" + rr, "*cos(t+", "atn(", "sin(", n1, "*t)/(", rpen, "-cos(",
            "*t))", ")", ")) - (", ee, "*cos(", nn, "*t))");
  }

  /** The head/phase/tail split of Y reassembles the Y f-string. */
  lemma YMatchesSource(rp: string, rr: string, ee: string, nn: string, n1: string, rpen: string)
    ensures YExpr(rp, rr, ee, nn, n1, rpen)
         == "(-" + rp + "*sin(t)) + ("
            + rr + "*sin(t+atn(sin(" + n1 + "*t)/(" + rpen + "-cos(" + n1 + "*t))))) + ("
            + ee + "*sin(" + nn + "*t))"
  {
    assert "*sin(t+atn(sin(" == "*sin(t+" + "atn(" + "sin(";
    assert "*t))))) + (" == "*t))" + ")" + ")) + (";
    Regroup("(-" + rp + "*sin(t)) + (" + rr, "*sin(t+", "atn(", "sin(", n1, "*t)/(", rpen, "-cos(",
            "*t))", ")", ")) + (", ee, "*sin(", nn, "*t))");
  }

  /** Regrouping a concatenation of fifteen pieces into head, phase and tail. */
  lemma Regroup(a: string, p: string, q: string, r: string, n1: string, l3: string, rpen: string, l4: string,
                l5a: string, l5b: string, l5c: string, ee: string, l6: string, nn: string, l7: string)
    ensures a + (p + q + r) + n1 + l3 + rpen + l4 + n1 + (l5a + l5b + l5c) + ee + l6 + nn + l7
         == (a + p) + (q + (r + n1 + l3 + rpen + l4 + n1 + l5a) + l5b) + (l5c + ee + l6 + nn + l7)
  {
  }

  /** Both expressions contain the whole phase text, and so call the
      arctangent by SolidWorks' name `atn`. */
  lemma PhiShared(fmt: real -> string, rp: real, e: real, r: real, n: int)
    requires e * (n as real) != 0.0
    ensures var eq := MakeSwEquations(fmt, rp, e, r, n).value;
            var phi := PhiText(fmt((1 - n) as real), fmt(Ratio(rp, e, n as real)));
            Contains(eq.x, phi) && Contains(eq.y, phi) &&
            Contains(eq.x, "atn(") && Contains(eq.y, "atn(")
  {
    var rp', rr, ee, nn := fmt(rp), fmt(r), fmt(e), IntToString(n);
    var n1, rpen := fmt((1 - n) as real), fmt(Ratio(rp, e, n as real));
    var eq := MakeSwEquations(fmt, rp, e, r, n).value;
    assert eq.x == XHead(rp', rr) + PhiText(n1, rpen) + XTail(ee, nn);
    assert eq.y == YHead(rp', rr) + PhiText(n1, rpen) + YTail(ee, nn);
    var phi := PhiText(n1, rpen);
    ContainsInMiddle(XHead(rp', rr), phi, XTail(ee, nn));
    ContainsInMiddle(YHead(rp', rr), phi, YTail(ee, nn));
    var arg := PhiArgument(n1, rpen);
    assert phi == "atn(" + (arg + ")");
    ContainsPrefix("atn(", arg + ")");
    ContainsTransitive(eq.x, phi, "atn(");
    ContainsTransitive(eq.y, phi, "atn(");
  }

  /** Every character the two expressions may contain: numerals, the
      variable `t`, the names `cos`, `sin` and `atn`, the operators and
      parentheses. */
  const ExprAlphabet: string := "0123456789.-+e()*/ cosinat"

  /** Text in which every `a` starts `atn` and every character is in the
      expression alphabet. */
  predicate WellSpelled(s: string) {
    AOnlyInAtn(s) && CharsIn(s, ExprAlphabet)
  }

  lemma WellSpelledConcat(a: string, b: string)
    requires WellSpelled(a) && WellSpelled(b)
    ensures WellSpelled(a + b)
  {
    AOnlyInAtnConcat(a, b);
    assert forall i :: 0 <= i < |b| ==> (a + b)[|a| + i] == b[i];
  }

  lemma NumeralWellSpelled(s: string)
    requires IsNumeral(s)
    ensures WellSpelled(s)
  {
  }

  lemma XHeadWellSpelled(rp: string, rr: string)
    requires IsNumeral(rp) && IsNumeral(rr)
    ensures WellSpelled(XHead(rp, rr))
  {
    NumeralWellSpelled(rp);
    NumeralWellSpelled(rr);
    WellSpelledConcat("(", rp);
    WellSpelledConcat("(" + rp, "*cos(t)) - (");
    WellSpelledConcat("(" + rp + "*cos(t)) - (", rr);
    WellSpelledConcat("(" + rp + "*cos(t)) - (" + rr, "*cos(t+");
  }

  lemma YHeadWellSpelled(rp: string, rr: string)
    requires IsNumeral(rp) && IsNumeral(rr)
    ensures WellSpelled(YHead(rp, rr))
  {
    NumeralWellSpelled(rp);
    NumeralWellSpelled(rr);
    WellSpelledConcat("(-", rp);
    WellSpelledConcat("(-" + rp, "*sin(t)) + (");
    WellSpelledConcat("(-" + rp + "*sin(t)) + (", rr);
    WellSpelledConcat("(-" + rp + "*sin(t)) + (" + rr, "*sin(t+");
  }

  lemma XTailWellSpelled(ee: string, nn: string)
    requires IsNumeral(ee) && IsNumeral(nn)
    ensures WellSpelled(XTail(ee, nn))
  {
    NumeralWellSpelled(ee);
    NumeralWellSpelled(nn);
    WellSpelledConcat(")) - (", ee);
    WellSpelledConcat(")) - (" + ee, "*cos(");
    WellSpelledConcat(")) - (" + ee + "*cos(", nn);
    WellSpelledConcat(")) - (" + ee + "*cos(" + nn, "*t))");
  }

  lemma YTailWellSpelled(ee: string, nn: string)
    requires IsNumeral(ee) && IsNumeral(nn)
    ensures WellSpelled(YTail(ee, nn))
  {
    NumeralWellSpelled(ee);
    NumeralWellSpelled(nn);
    WellSpelledConcat(")) + (", ee);
    WellSpelledConcat(")) + (" + ee, "*sin(");
    WellSpelledConcat(")) + (" + ee + "*sin(", nn);
    WellSpelledConcat(")) + (" + ee + "*sin(" + nn, "*t))");
  }

  lemma PhiWellSpelled(n1: string, rpen: string)
    requires IsNumeral(n1) && IsNumeral(rpen)
    ensures WellSpelled(PhiText(n1, rpen))
  {
    NumeralWellSpelled(n1);
    NumeralWellSpelled(rpen);
    WellSpelledConcat("sin(", n1);
    WellSpelledConcat("sin(" + n1, "*t)/(");
    WellSpelledConcat("sin(" + n1 + "*t)/(", rpen);
    WellSpelledConcat("sin(" + n1 + "*t)/(" + rpen, "-cos(");
    WellSpelledConcat("sin(" + n1 + "*t)/(" + rpen + "-cos(", n1);
    WellSpelledConcat("sin(" + n1 + "*t)/(" + rpen + "-cos(" + n1, "*t))");
    WellSpelledConcat("atn(", PhiArgument(n1, rpen));
    WellSpelledConcat("atn(" + PhiArgument(n1, rpen), ")");
  }

  /** With numerals in the holes, both expressions are well spelled. */
  lemma TemplatesWellSpelled(rp: string, rr: string, ee: string, nn: string, n1: string, rpen: string)
    requires IsNumeral(rp) && IsNumeral(rr) && IsNumeral(ee) && IsNumeral(nn) && IsNumeral(n1) && IsNumeral(rpen)
    ensures WellSpelled(XExpr(rp, rr, ee, nn, n1, rpen)) && WellSpelled(YExpr(rp, rr, ee, nn, n1, rpen))
  {
    XHeadWellSpelled(rp, rr);
    YHeadWellSpelled(rp, rr);
    XTailWellSpelled(ee, nn);
    YTailWellSpelled(ee, nn);
    PhiWellSpelled(n1, rpen);
    var phi := PhiText(n1, rpen);
    WellSpelledConcat(XHead(rp, rr), phi);
    WellSpelledConcat(XHead(rp, rr) + phi, XTail(ee, nn));
    WellSpelledConcat(YHead(rp, rr), phi);
    WellSpelledConcat(YHead(rp, rr) + phi, YTail(ee, nn));
  }

  /** With `_fmt_num` producing numerals only, neither expression contains
      the conventional spelling `atan`, which SolidWorks rejects; every
      character is a numeral character, `t`, a letter of `cos`, `sin` or
      `atn`, an operator, a parenthesis or a space, so in particular there
      is no `=`. */
  lemma EquationsWellSpelled(fmt: real -> string, rp: real, e: real, r: real, n: int)
    requires IsNumeralFormatter(fmt)
    requires e * (n as real) != 0.0
    ensures var eq := MakeSwEquations(fmt, rp, e, r, n).value;
            !Contains(eq.x, "atan") && !Contains(eq.y, "atan") &&
            CharsIn(eq.x, ExprAlphabet) && CharsIn(eq.y, ExprAlphabet) &&
            '=' !in eq.x && '=' !in eq.y
  {
    var rp', rr, ee, nn := fmt(rp), fmt(r), fmt(e), IntToString(n);
    var n1, rpen := fmt((1 - n) as real), fmt(Ratio(rp, e, n as real));
    var eq := MakeSwEquations(fmt, rp, e, r, n).value;
    assert eq.x == XExpr(rp', rr, ee, nn, n1, rpen) && eq.y == YExpr(rp', rr, ee, nn, n1, rpen);
    assert IsNumeral(rp') && IsNumeral(rr) && IsNumeral(ee) && IsNumeral(n1) && IsNumeral(rpen);
    TemplatesWellSpelled(rp', rr, ee, nn, n1, rpen);
    NoAtan(eq.x);
    NoAtan(eq.y);
    NoEqualsSign(eq.x);
    NoEqualsSign(eq.y);
  }

  lemma NoEqualsSign(s: string)
    requires CharsIn(s, ExprAlphabet)
    ensures '=' !in s
  {
  }
}
