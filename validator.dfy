/**
 The input validator `validate_inputs(R_p, e, r, N)`: four independent
 gates applied in order to a candidate parameter set, each appending at most
 one message. The first three are errors and clear `ok`; the fourth, a
 warning that R_p/(eN) lies in [-1, 1], never does.
 */
module Validator {
  import opened Numerics
  import opened Text
  import Sampler

  /** The pin count as the caller hands it over: a Python int, or some other
      number (a float) that fails the `isinstance` test. */
  datatype PinCount = IntCount(n: int) | FloatCount(x: real) {
    /** The numeric value that takes part in `e * N`. */
    function Value(): real {
      match this
      case IntCount(n) => n as real
      case FloatCount(x) => x
    }
  }

  /** The four messages the validator can append; `Text` is the string the
      source appends. The warning carries the `.6g` rendering of the ratio. */
  datatype Message =
    | PinCountError
    | PositivityError
    | DenominatorError
    | RatioWarning(ratioText: string)
  {
    /** The texts of disk_generator.py, each read as its first word and the rest. */
    function Text(): (t: string)
      ensures StartsWith(t, Lead()) && |t| > |Lead()|
    {
      assert (Lead() + Rest())[..|Lead()|] == Lead();
      Lead() + Rest()
    }

    /** The number of the rule that appends this message. */
    function Rule(): (k: int)
      ensures 1 <= k <= 4
    {
      match this
      case PinCountError => 1
      case PositivityError => 2
      case DenominatorError => 3
      case RatioWarning(_) => 4
    }

    /** The first word of the text, which is what classifies it. */
    function Lead(): string {
      match this
      case PinCountError => "N"
      case PositivityError => "All"
      case DenominatorError => "Denominator"
      case RatioWarning(_) => "Warning"
    }

    /** The text after its first word. */
    function Rest(): string {
      match this
      case PinCountError => " must be an integer \U{2265} 2 (number of fixed pins)."
      case PositivityError => " geometry parameters must be positive (R_p, e, r > 0)."
      case DenominatorError => " e*N must be non-zero."
      case RatioWarning(p) =>
        ": R_p/(e*N) = " + p + " lies in [-1,1]. "
          + "The `atn` denominator may hit zero for some t; SolidWorks may reject or break the curve."
    }
  }

  /** The warning shows the rendered ratio it is about. */
  lemma WarningShowsRatio(p: string)
    ensures Contains(RatioWarning(p).Text(), p)
  {
    var lead, before := "Warning", ": R_p/(e*N) = ";
    var after1, after2 := " lies in [-1,1]. ",
      "The `atn` denominator may hit zero for some t; SolidWorks may reject or break the curve.";
    assert RatioWarning(p).Text() == lead + (before + p + after1 + after2);
    RegroupAround(lead, before, p, after1, after2);
    ContainsInMiddle(lead + before, p, after1 + after2);
  }

  lemma RegroupAround(a: string, b: string, p: string, c: string, d: string)
    ensures a + (b + p + c + d) == (a + b) + p + (c + d)
  {
  }

  /** How the caller sorts a message: `m.lower().startswith("warning")`. */
  predicate IsWarning(text: string) {
    StartsWith(Lower(text), "warning")
  }

  /** The caller's text test picks out exactly the warning. */
  lemma Classification(m: Message)
    ensures IsWarning(m.Text()) <==> m.RatioWarning?
  {
    if m.RatioWarning? {
      LowerStartsWithPrefix(m.Lead(), m.Rest(), "warning");
      assert Lower("Warning") == "warning";
    } else {
      LowerFirstMismatch(m.Lead(), m.Rest(), "warning");
    }
  }

  lemma ClassificationAll(msgs: seq<Message>)
    ensures forall i :: 0 <= i < |msgs| ==> (IsWarning(msgs[i].Text()) <==> msgs[i].RatioWarning?)
  {
    forall i | 0 <= i < |msgs|
      ensures IsWarning(msgs[i].Text()) <==> msgs[i].RatioWarning?
    {
      Classification(msgs[i]);
    }
  }

  /** Rule 1: N is an int and at least 2. */
  predicate PinCountValid(n: PinCount) {
    n.IntCount? && n.n >= 2
  }

  /** Rule 2: R_p, e and r are all strictly positive. */
  predicate GeometryPositive(rp: real, e: real, r: real) {
    rp > 0.0 && e > 0.0 && r > 0.0
  }

  /** Rule 4: e*N is non-zero and R_p/(e*N) lies in [-1, 1]. */
  predicate WarningFires(rp: real, e: real, n: PinCount) {
    e * n.Value() != 0.0 && InUnitInterval(Ratio(rp, e, n.Value()))
  }

  /** The message a gate appends: `m` when the gate fires, nothing otherwise. */
  function When(fires: bool, m: Message): (out: seq<Message>)
    ensures |out| <= 1 && (m in out <==> fires)
  {
    if fires then [m] else []
  }

  /** The messages the four gates append, in order; the list is empty
      exactly when no gate fires. */
  function Messages(rp: real, e: real, r: real, n: PinCount, render: real -> string): (msgs: seq<Message>)
    ensures msgs == [] <==>
              PinCountValid(n) && GeometryPositive(rp, e, r) && e * n.Value() != 0.0 && !WarningFires(rp, e, n)
  {
    When(!PinCountValid(n), PinCountError)
      + When(!GeometryPositive(rp, e, r), PositivityError)
      + When(e * n.Value() == 0.0, DenominatorError)
      + (if WarningFires(rp, e, n) then [RatioWarning(render(Ratio(rp, e, n.Value())))] else [])
  }

  /** Messages come out in rule order, each rule adding at most one, so
      there are at most four. */
  lemma MessagesInRuleOrder(rp: real, e: real, r: real, n: PinCount, render: real -> string)
    ensures var msgs := Messages(rp, e, r, n, render);
            Ranked(msgs) && |msgs| <= 4
  {
    var msgs := Messages(rp, e, r, n, render);
    var b1, b2, b3 := !PinCountValid(n), !GeometryPositive(rp, e, r), e * n.Value() == 0.0;
    var w := if e * n.Value() != 0.0 then RatioWarning(render(Ratio(rp, e, n.Value()))) else RatioWarning([]);
    var b4 := WarningFires(rp, e, n);
    assert msgs == When(b1, PinCountError) + When(b2, PositivityError) + When(b3, DenominatorError) + When(b4, w);
    GatesRanked(b1, b2, b3, b4, w);
  }

  /** The four gates, whichever of them fire, append in rule order. */
  lemma GatesRanked(b1: bool, b2: bool, b3: bool, b4: bool, w: Message)
    requires w.RatioWarning?
    ensures var msgs := When(b1, PinCountError) + When(b2, PositivityError) + When(b3, DenominatorError) + When(b4, w);
            Ranked(msgs) && |msgs| <= 4
  {
    var m1 := When(b1, PinCountError);
    var m2 := m1 + When(b2, PositivityError);
    var m3 := m2 + When(b3, DenominatorError);
    var m4 := m3 + When(b4, w);
    assert Ranked(m1) && AllBefore(m1, 2);
    RankedAppend(m1, PositivityError, b2);
    assert Ranked(m2) && AllBefore(m2, 3);
    RankedAppend(m2, DenominatorError, b3);
    assert Ranked(m3) && AllBefore(m3, 4);
    RankedAppend(m3, w, b4);
    assert Ranked(m4);
    RankedLength(m4);
  }

  /** Messages sorted strictly by rule. */
  predicate Ranked(msgs: seq<Message>) {
    forall i, j :: 0 <= i < j < |msgs| ==> msgs[i].Rule() < msgs[j].Rule()
  }

  /** Every message in `msgs` comes from a rule before rule `k`. */
  predicate AllBefore(msgs: seq<Message>, k: int) {
    forall i :: 0 <= i < |msgs| ==> msgs[i].Rule() < k
  }

  lemma RankedAppend(msgs: seq<Message>, m: Message, add: bool)
    requires Ranked(msgs) && AllBefore(msgs, m.Rule())
    ensures Ranked(msgs + When(add, m)) && AllBefore(msgs + When(add, m), m.Rule() + 1)
  {
  }

  /** A ranked list holds at most one message per rule. */
  lemma {:induction false} RankedLength(msgs: seq<Message>)
    requires Ranked(msgs)
    ensures |msgs| <= 4
    ensures |msgs| > 0 ==> msgs[|msgs| - 1].Rule() >= |msgs|
    decreases |msgs|
  {
    if |msgs| > 0 {
      var init := msgs[..|msgs| - 1];
      assert Ranked(init);
      RankedLength(init);
      if |init| > 0 {
        assert msgs[|msgs| - 2] == init[|init| - 1];
        assert msgs[|msgs| - 2].Rule() < msgs[|msgs| - 1].Rule();
      }
    }
  }

  /** Each error message is present exactly when its rule fails. */
  lemma ErrorMessagesPresent(rp: real, e: real, r: real, n: PinCount, render: real -> string)
    ensures var msgs := Messages(rp, e, r, n, render);
            (PinCountError in msgs <==> !PinCountValid(n)) &&
            (PositivityError in msgs <==> !GeometryPositive(rp, e, r)) &&
            (DenominatorError in msgs <==> e * n.Value() == 0.0)
  {
  }

  /** A warning is present exactly when rule 4 fires, and it is always the
      last message; the rules that clear `ok` are exactly the ones that
      leave a non-warning message. */
  lemma WarningPlacement(rp: real, e: real, r: real, n: PinCount, render: real -> string)
    ensures var msgs := Messages(rp, e, r, n, render);
            ((exists i :: 0 <= i < |msgs| && msgs[i].RatioWarning?) <==> WarningFires(rp, e, n)) &&
            (forall i :: 0 <= i < |msgs| && msgs[i].RatioWarning? ==> i == |msgs| - 1) &&
            ((forall i | 0 <= i < |msgs| :: msgs[i].RatioWarning?)
               <==> PinCountValid(n) && GeometryPositive(rp, e, r) && e * n.Value() != 0.0)
  {
    var msgs := Messages(rp, e, r, n, render);
    var errs: seq<Message> := (if PinCountValid(n) then [] else [PinCountError])
      + (if GeometryPositive(rp, e, r) then [] else [PositivityError])
      + (if e * n.Value() != 0.0 then [] else [DenominatorError]);
    assert forall i | 0 <= i < |errs| :: !errs[i].RatioWarning?;
    assert errs == [] <==> PinCountValid(n) && GeometryPositive(rp, e, r) && e * n.Value() != 0.0;
    if errs != [] {
      assert !msgs[0].RatioWarning?;
    }
    if WarningFires(rp, e, n) {
      assert msgs == errs + [RatioWarning(render(Ratio(rp, e, n.Value())))];
      assert msgs[|msgs| - 1].RatioWarning?;
    } else {
      assert msgs == errs;
    }
  }

  /** What the caller sees of the message list through its text test: `ok`
      exactly when every message reads as a warning, a warning exactly when
      rule 4 fires, and never before another message. */
  lemma MessageTexts(rp: real, e: real, r: real, n: PinCount, render: real -> string)
    ensures var msgs := Messages(rp, e, r, n, render);
            ((forall i | 0 <= i < |msgs| :: IsWarning(msgs[i].Text()))
               <==> PinCountValid(n) && GeometryPositive(rp, e, r) && e * n.Value() != 0.0) &&
            ((exists i :: 0 <= i < |msgs| && IsWarning(msgs[i].Text())) <==> WarningFires(rp, e, n)) &&
            (forall i :: 0 <= i < |msgs| && IsWarning(msgs[i].Text()) ==> i == |msgs| - 1)
  {
    WarningPlacement(rp, e, r, n, render);
    ClassificationAll(Messages(rp, e, r, n, render));
  }

  /** `validate_inputs`, with the `.6g` rendering of the ratio in the warning
      passed as `render`. */
  method ValidateInputs(rp: real, e: real, r: real, n: PinCount, render: real -> string)
    returns (ok: bool, msgs: seq<Message>)
    ensures ok <==> PinCountValid(n) && GeometryPositive(rp, e, r) && e * n.Value() != 0.0
    ensures ok <==> PinCountValid(n) && GeometryPositive(rp, e, r)
    ensures msgs == Messages(rp, e, r, n, render)
  {
    msgs := [];
    ok := true;
    if !(n.IntCount? && n.n >= 2) {
      ok := false;
      msgs := msgs + [PinCountError];
    }
    assert msgs == When(!PinCountValid(n), PinCountError);
    if rp <= 0.0 || e <= 0.0 || r <= 0.0 {
      ok := false;
      msgs := msgs + [PositivityError];
    }
    assert msgs == When(!PinCountValid(n), PinCountError) + When(!GeometryPositive(rp, e, r), PositivityError);
    if e * n.Value() == 0.0 {
      ok := false;
      msgs := msgs + [DenominatorError];
    }
    ghost var errs := msgs;
    assert errs == When(!PinCountValid(n), PinCountError) + When(!GeometryPositive(rp, e, r), PositivityError)
      + When(e * n.Value() == 0.0, DenominatorError);
    if e * n.Value() != 0.0 {
      var ratio := Ratio(rp, e, n.Value());
      if -1.0 <= ratio <= 1.0 {
        msgs := msgs + [RatioWarning(render(ratio))];
      }
    }
    assert msgs == errs + (if WarningFires(rp, e, n) then [RatioWarning(render(Ratio(rp, e, n.Value())))] else []);
  }

  /** The sampler's `R_p_over_eN_in_unit_interval` diagnostic is the same
      [-1, 1] test as the validator's warning, for an int pin count. */
  lemma DiagnosticMatchesWarning(rp: real, e: real, n: int, ts: seq<real>, cos: real -> real)
    requires e * (n as real) != 0.0
    ensures Sampler.SampleCurveGuard(rp, e, n, ts, cos).value.diagnostics.ratioInUnitInterval
            <==> WarningFires(rp, e, IntCount(n))
  {
  }

  /** Four sample parameter sets: no message, one warning, N = 1, a negative R_p. */
  method ValidatorExamples(render: real -> string) {
    var ok, msgs := ValidateInputs(50.0, 2.5, 2.0, IntCount(10), render);
    assert ok && msgs == [];
    ok, msgs := ValidateInputs(10.0, 2.5, 2.0, IntCount(10), render);
    assert ok && msgs == [RatioWarning(render(0.4))];
    ok, msgs := ValidateInputs(50.0, 2.5, 2.0, IntCount(1), render);
    assert !ok && msgs == [PinCountError];
    ok, msgs := ValidateInputs(-1.0, 2.5, 2.0, IntCount(10), render);
    assert !ok && msgs == [PositivityError, RatioWarning(render(-0.04))];
  }
}
