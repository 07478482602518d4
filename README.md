# Cycloidal disk generator: validator, equation builder and singularity guard

The generator produces the profile of a cycloidal reducer disk. Its inputs are the
pin-circle radius R_p, the eccentricity e, the pin radius r and the pin count N.
It emits the disk profile in two forms: as text, the right-hand sides of
SolidWorks' parametric X(t) and Y(t) equations, and as numeric samples for a
preview plot. This project models the three parts of the core that carry logic:

- `validate_inputs`, in module `Validator` (validator.dfy). It clears `ok` and
  appends a message for each of three failed error gates: the pin count, the
  positivity of the geometry, and a non-zero e·N. A fourth gate appends a warning
  when R_p/(e·N) lies in [-1, 1], and never clears `ok`. The method follows the
  source's sequence of `if`s and is proved equal to the function `Messages`.
  The lemmas about the message list are stated on `Messages`.
- `make_sw_equations`, in module `Equations` (equations.dfy). It is a pure string
  builder. `_fmt_num` (the `.12g` formatter) is a function parameter `fmt`.
  The lemmas that need it require `Formatter.IsNumeralFormatter(fmt)`: every
  output character is one of `0-9 . - + e`. `str(N)` is modelled as
  `Formatter.IntToString`, and its round trip is proved.
- The denominator guard of `sample_curve`, in module `Sampler` (sampler.dfy).
  It is modelled as pure functions over `seq<real>`, with the sample points and
  the cosine as parameters.

Python raises `ZeroDivisionError` in R_p/(e·N) when e·N is zero. Both the builder
and the sampler model this as `Numerics.Result.ZeroDivisionError`.

Floating-point numbers are modelled as mathematical reals.

`np.sign` is 0 at 0, so an exactly-zero denominator stays 0 under the
singularity guard; it is not forced positive (see
`Sampler.SafeDenominatorsBounds`). The message texts are the ones the code
appends.

## Model

| member | source | states |
|---|---|---|
| Numerics.Ratio | disk_generator.py:44 | R_p/(e·N) is the number q with q·(e·N) = R_p; it is defined only when e·N is non-zero |
| Formatter.IntToString | disk_generator.py:49 | `str(N_int)` is a non-empty numeral whose first character is `-` exactly when N is negative |
| Formatter.IntToStringRoundTrip | disk_generator.py:49 | reading the decimal text of N back gives N again |
| Equations.MakeSwEquations | disk_generator.py:37-63 | the builder returns an equation pair exactly when e·N is non-zero, and ZeroDivisionError otherwise |
| Equations.EquationsSplice | disk_generator.py:42-62 | each returned expression is, character for character, the source's X or Y f-string with Fmt(R_p), Fmt(r), Fmt(e), Fmt(1−N) and Fmt(R_p/(eN)) in its holes and N as `str(N)`, so there is no `x=`/`y=` prefix |
| Equations.XMatchesSource | disk_generator.py:53-57 | the head / phase / tail split of X reassembles exactly the flat X f-string |
| Equations.YMatchesSource | disk_generator.py:58-62 | the head / phase / tail split of Y reassembles exactly the flat Y f-string |
| Equations.PhiShared | disk_generator.py:53-62 | the whole phase text `atn(sin(N_*t)/(RpeN-cos(N_*t)))` occurs in both x and y, and so does `atn(` |
| Equations.TemplatesWellSpelled | disk_generator.py:53-62 | with numerals in the holes, every `a` in either template starts `atn` and every character is a numeral character, a parenthesis, an operator, a space, `t` or a letter of `cos`, `sin`, `atn` |
| Equations.EquationsWellSpelled | disk_generator.py:53-62 | for a formatter that emits numerals, neither expression contains `atan`; both use only the expression alphabet, so there is no `=` |
| Sampler.IsClose | disk_generator.py:78 | `np.isclose(a, 0, atol)` with its default relative tolerance holds exactly when −atol ≤ a ≤ atol |
| Sampler.Sign | disk_generator.py:79 | `np.sign` is 1, -1 or 0 exactly for positive, negative or zero input |
| Sampler.MaskBad | disk_generator.py:78 | `np.isclose(denom, 0, atol=1e-9)` marks exactly the samples with abs(d) ≤ 1e-9 |
| Sampler.SignedEpsilons | disk_generator.py:79 | `np.sign(denom) * eps` is sign(d)·1e-9 at each sample |
| Sampler.Where | disk_generator.py:79 | `np.where` takes the first array where the mask is set and the second elsewhere, keeping the length |
| Sampler.SafeDenominators | disk_generator.py:77-79 | the guard keeps the length; a denominator with abs(d) ≤ 1e-9 becomes sign(d)·1e-9; every other one is unchanged |
| Sampler.SafeDenominatorsBounds | disk_generator.py:79 | the guard keeps every sign; a zero stays zero; a non-zero denominator comes out at least 1e-9 from zero |
| Sampler.SafeDenominatorsIdempotent | disk_generator.py:77-79 | guarding an already guarded sequence changes nothing |
| Sampler.Any | disk_generator.py:87 | `np.any` holds exactly when some entry is set |
| Sampler.Denominators | disk_generator.py:76 | each denominator is R_p/(eN) − cos((1−N)·t) at its sample point |
| Sampler.SampleCurveGuard | disk_generator.py:71-89 | the guard is defined exactly when e·N is non-zero; it gives the denominators and their guarded form; `has_singularity` holds exactly when some sample has abs(d) ≤ 1e-9; the reported ratio times e·N is R_p; the unit-interval flag is exactly −1 ≤ ratio ≤ 1 |
| Sampler.SingularityNeedsNearUnitRatio | disk_generator.py:76-87 | with a cosine in [−1, 1], a singularity can be reported only when R_p/(eN) lies within 1e-9 of [−1, 1] |
| Sampler.ExactZeroIsSingular | disk_generator.py:76-87 | a sample where the cosine term equals R_p/(eN) is reported as a singularity and keeps its zero denominator |
| Validator.Message.Text | disk_generator.py:100-111 | the four appended texts, each of which begins with its first word (`N`, `All`, `Denominator`, `Warning`) and goes on past it |
| Validator.WarningShowsRatio | disk_generator.py:109-111 | the warning text contains the `.6g` rendering of the ratio |
| Validator.Messages | disk_generator.py:98-113 | the message list the four gates build; it is empty exactly when N is an int ≥ 2, R_p, e, r are positive, e·N ≠ 0 and the ratio warning does not fire |
| Validator.Classification | disk_generator.py:153 | the caller's test `m.lower().startswith("warning")` holds exactly for the ratio warning |
| Validator.ClassificationAll | disk_generator.py:152-156 | the same classification holds for every message of any list |
| Validator.ValidateInputs | disk_generator.py:93-113 | `ok` holds exactly when N is an int ≥ 2, R_p, e and r are positive, and e·N is non-zero (equivalently, when only the first two rules hold); the message list is `Messages` |
| Validator.MessagesInRuleOrder | disk_generator.py:98-113 | messages come out strictly in rule order, so each rule adds at most one and there are at most four |
| Validator.GatesRanked | disk_generator.py:100-112 | whichever of the four gates fire, they append in rule order |
| Validator.ErrorMessagesPresent | disk_generator.py:100-105 | each error message is present exactly when its rule fails |
| Validator.WarningPlacement | disk_generator.py:100-112 | the warning is present exactly when e·N ≠ 0 and R_p/(eN) ∈ [−1, 1]; it is always last; every message is a warning exactly when rules 1-3 pass, so the warning never affects `ok` |
| Validator.MessageTexts | disk_generator.py:98-113 | read through the caller's text test: only warnings exactly when rules 1-3 pass; some warning exactly when the warning gate fires; a warning only in last place |
| Validator.DiagnosticMatchesWarning | disk_generator.py:89 | the sampler's `R_p_over_eN_in_unit_interval` flag is the validator's warning test, for an integer N |

## Left out

- The Streamlit page, form, clipboard button and layout (disk_generator.py:119-207) are presentation and I/O. Only the caller's `startswith("warning")` test is modelled.
- The Matplotlib preview plot (disk_generator.py:188-194) is drawing only.
- `_fmt_num`'s `.12g` rendering (disk_generator.py:33-35) is library float formatting. It is a parameter; the only property assumed of it is the numeral character set.
- The `.6g` rendering of the ratio in the warning (disk_generator.py:110) is a parameter (`render`) for the same reason.
- `np.linspace`, `np.sin`, `np.arctan` and the numeric X/Y formulas of `sample_curve` (disk_generator.py:75, 81-84) are floating-point trigonometry. The sample points and `np.cos` are parameters of `Sampler.SampleCurveGuard`.
- Equations.MakeSwEquations: takes N as an integer, so `int(N)`'s truncation of a float N is not modelled. The same holds for Sampler.SampleCurveGuard.
- Floating-point semantics (rounding, NaN, infinities, overflow of e·N) is not modelled. Every value is a real.
- Validator.Classification: lower-casing is ASCII only, where Python's `str.lower` covers all of Unicode. Only the first letter of each message matters, and those are ASCII.
