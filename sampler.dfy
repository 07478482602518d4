/**
 The singularity guard of `sample_curve`. The sampler evaluates the disk
 curve at evenly spaced t and divides by the phase denominator
 R_p/(eN) - cos((1-N)t); samples whose denominator is within 1e-9 of zero
 have it replaced by sign(denominator) * 1e-9 before the division, and the
 diagnostics report whether that happened and whether R_p/(eN) lies in
 [-1, 1]. The sample points and the cosine are parameters; the trigonometric
 evaluation of X and Y is not modelled.
 */
module Sampler {
  import opened Numerics

  /** `eps = 1e-9`, also passed as the absolute tolerance of `np.isclose`. */
  const Epsilon: real := 0.000000001

  /** The default relative tolerance of `np.isclose`, 1e-05. */
  const RelativeTolerance: real := 0.00001

  /** `np.isclose(a, b, atol=atol, rtol=rtol)`: |a - b| <= atol + rtol * |b|. */
  predicate IsClose(a: real, b: real, atol: real, rtol: real): (c: bool)
    ensures b == 0.0 ==> (c <==> -atol <= a <= atol)
  {
    Abs(a - b) <= atol + rtol * Abs(b)
  }

  /** `np.sign`: -1, 0 or 1, and 0 exactly for 0. */
  function Sign(d: real): (s: real)
    ensures s == 1.0 <==> d > 0.0
    ensures s == -1.0 <==> d < 0.0
    ensures s == 0.0 <==> d == 0.0
  {
    if d > 0.0 then 1.0 else if d < 0.0 then -1.0 else 0.0
  }

  /** `mask_bad = np.isclose(denom, 0.0, atol=1e-9)`, elementwise. */
  function MaskBad(denoms: seq<real>): (mask: seq<bool>)
    ensures |mask| == |denoms|
    ensures forall i :: 0 <= i < |denoms| ==> (mask[i] <==> Abs(denoms[i]) <= Epsilon)
  {
    if denoms == [] then []
    else [IsClose(denoms[0], 0.0, Epsilon, RelativeTolerance)] + MaskBad(denoms[1..])
  }

  /** `np.sign(denom) * eps`, elementwise. */
  function SignedEpsilons(denoms: seq<real>): (s: seq<real>)
    ensures |s| == |denoms|
    ensures forall i :: 0 <= i < |denoms| ==> s[i] == Sign(denoms[i]) * Epsilon
  {
    if denoms == [] then [] else [Sign(denoms[0]) * Epsilon] + SignedEpsilons(denoms[1..])
  }

  /** `np.where(mask, a, b)`: the element of `a` where the mask is set, of `b` elsewhere. */
  function Where(mask: seq<bool>, a: seq<real>, b: seq<real>): (w: seq<real>)
    requires |mask| == |a| == |b|
    ensures |w| == |mask|
    ensures forall i :: 0 <= i < |mask| ==> w[i] == (if mask[i] then a[i] else b[i])
  {
    if mask == [] then []
    else [if mask[0] then a[0] else b[0]] + Where(mask[1..], a[1..], b[1..])
  }

  /** `denom_safe`: each denominator with |d| <= 1e-9 becomes sign(d) * 1e-9,
      every other one is kept, and the length is unchanged. */
  function SafeDenominators(denoms: seq<real>): (safe: seq<real>)
    ensures |safe| == |denoms|
    ensures forall i :: 0 <= i < |denoms| && Abs(denoms[i]) <= Epsilon ==> safe[i] == Sign(denoms[i]) * Epsilon
    ensures forall i :: 0 <= i < |denoms| && Abs(denoms[i]) > Epsilon ==> safe[i] == denoms[i]
  {
    Where(MaskBad(denoms), SignedEpsilons(denoms), denoms)
  }

  /** `np.any(mask)` */
  function Any(mask: seq<bool>): (b: bool)
    ensures b <==> exists i :: 0 <= i < |mask| && mask[i]
  {
    if mask == [] then false else mask[0] || Any(mask[1..])
  }

  /** The substitution keeps the sign of every denominator. A denominator
      that is exactly zero stays zero, because `np.sign(0)` is 0; every other
      one comes out at least 1e-9 away from zero. */
  lemma SafeDenominatorsBounds(denoms: seq<real>)
    ensures var safe := SafeDenominators(denoms);
            forall i :: 0 <= i < |denoms| ==>
              Sign(safe[i]) == Sign(denoms[i]) &&
              (safe[i] == 0.0 <==> denoms[i] == 0.0) &&
              (denoms[i] != 0.0 ==> Abs(safe[i]) >= Epsilon)
  {
    var safe := SafeDenominators(denoms);
    forall i | 0 <= i < |denoms|
      ensures Sign(safe[i]) == Sign(denoms[i])
      ensures safe[i] == 0.0 <==> denoms[i] == 0.0
      ensures denoms[i] != 0.0 ==> Abs(safe[i]) >= Epsilon
    {
      var d := denoms[i];
      if Abs(d) <= Epsilon {
        assert safe[i] == Sign(d) * Epsilon;
        if d > 0.0 {
          assert safe[i] == Epsilon;
        } else if d < 0.0 {
          assert safe[i] == -Epsilon;
        }
      }
    }
  }

  /** Guarding an already guarded sequence changes nothing. */
  lemma SafeDenominatorsIdempotent(denoms: seq<real>)
    ensures SafeDenominators(SafeDenominators(denoms)) == SafeDenominators(denoms)
  {
    var safe := SafeDenominators(denoms);
    var again := SafeDenominators(safe);
    forall i | 0 <= i < |denoms|
      ensures again[i] == safe[i]
    {
      var d := denoms[i];
      if Abs(d) <= Epsilon {
        if d > 0.0 {
          assert safe[i] == Epsilon;
        } else if d < 0.0 {
          assert safe[i] == -Epsilon;
        } else {
          assert safe[i] == 0.0;
        }
      }
    }
  }

  /** The diagnostics dictionary of `sample_curve`. */
  datatype Diagnostics = Diagnostics(hasSingularity: bool, ratio: real, ratioInUnitInterval: bool)

  /** The phase denominators at the sample points, before and after the guard. */
  datatype GuardedSamples = GuardedSamples(denominators: seq<real>, safe: seq<real>, diagnostics: Diagnostics)

  /** `_N_ * t` */
  function Angle(n1: int, t: real): real {
    (n1 as real) * t
  }

  /** `denom = R_p_e_N - np.cos(_N_ * t)` at each sample point. */
  function Denominators(ratio: real, n1: int, ts: seq<real>, cos: real -> real): (ds: seq<real>)
    ensures |ds| == |ts|
    ensures forall i :: 0 <= i < |ts| ==> ds[i] == ratio - cos(Angle(n1, ts[i]))
  {
    if ts == [] then [] else [ratio - cos(Angle(n1, ts[0]))] + Denominators(ratio, n1, ts[1..], cos)
  }

  /** The guard and diagnostics of `sample_curve(R_p, e, r, N)` at the sample
      points `ts` (the result of `np.linspace`), with `np.cos` as `cos`. */
  function SampleCurveGuard(rp: real, e: real, n: int, ts: seq<real>, cos: real -> real): (res: Result<GuardedSamples>)
    ensures res.Ok? <==> e * (n as real) != 0.0
    ensures res.Ok? ==> res.value.denominators == Denominators(res.value.diagnostics.ratio, 1 - n, ts, cos)
    ensures res.Ok? ==> res.value.safe == SafeDenominators(res.value.denominators)
    ensures res.Ok? ==> res.value.diagnostics.ratio * (e * (n as real)) == rp
    ensures res.Ok? ==> (res.value.diagnostics.hasSingularity <==>
                           exists i :: 0 <= i < |ts| && Abs(res.value.denominators[i]) <= Epsilon)
    ensures res.Ok? ==> (res.value.diagnostics.ratioInUnitInterval <==> -1.0 <= res.value.diagnostics.ratio <= 1.0)
  {
    if e * (n as real) == 0.0 then ZeroDivisionError
    else
      var ratio := Ratio(rp, e, n as real);
      var denoms := Denominators(ratio, 1 - n, ts, cos);
      var mask := MaskBad(denoms);
      Ok(GuardedSamples(denoms, SafeDenominators(denoms),
                        Diagnostics(Any(mask), ratio, InUnitInterval(ratio))))
  }

  /** With a cosine bounded by [-1, 1], a masked sample needs R_p/(eN) within
      1e-9 of [-1, 1]; a ratio farther out never reports a singularity. */
  lemma SingularityNeedsNearUnitRatio(rp: real, e: real, n: int, ts: seq<real>, cos: real -> real)
    requires forall x :: -1.0 <= cos(x) <= 1.0
    requires e * (n as real) != 0.0
    ensures var d := SampleCurveGuard(rp, e, n, ts, cos).value.diagnostics;
            d.hasSingularity ==> -1.0 - Epsilon <= d.ratio <= 1.0 + Epsilon
  {
    var g := SampleCurveGuard(rp, e, n, ts, cos).value;
    if g.diagnostics.hasSingularity {
      var i :| 0 <= i < |ts| && Abs(g.denominators[i]) <= Epsilon;
      var c := cos(Angle(1 - n, ts[i]));
      assert g.denominators[i] == g.diagnostics.ratio - c;
      assert -1.0 <= c <= 1.0;
    }
  }

  /** A sample at which the cosine term equals R_p/(eN) is always masked. */
  lemma ExactZeroIsSingular(rp: real, e: real, n: int, ts: seq<real>, cos: real -> real, i: int)
    requires e * (n as real) != 0.0
    requires 0 <= i < |ts| && cos(Angle(1 - n, ts[i])) == Ratio(rp, e, n as real)
    ensures var g := SampleCurveGuard(rp, e, n, ts, cos).value;
            g.diagnostics.hasSingularity && g.denominators[i] == 0.0 && g.safe[i] == 0.0
  {
    var g := SampleCurveGuard(rp, e, n, ts, cos).value;
    assert g.diagnostics.ratio == Ratio(rp, e, n as real);
    assert g.denominators[i] == g.diagnostics.ratio - cos(Angle(1 - n, ts[i]));
  }
}
