/** The threshold table and the rating of a p75 value against it. */
module Classifier {
  import opened Wrappers
  import opened CruxResponse

  datatype Rating = Good | NeedsImprovement | Poor | NotApplicable {

    /** The text the performance report shows. */
    function Label(): string {
      match this
      case Good => "Good"
      case NeedsImprovement => "Needs Improvement"
      case Poor => "Poor"
      case NotApplicable => "N/A"
    }
  }

  /** Different ratings are shown differently, so the text determines the rating. */
  lemma LabelInjective(a: Rating, b: Rating)
    ensures a.Label() == b.Label() <==> a == b
  {
  }

  /** Upper bounds, both inclusive, of the Good and the Needs Improvement bands. */
  datatype Bounds = Bounds(good: real, needsImprovement: real)

  const Thresholds: map<string, Bounds> := map[
    "largest_contentful_paint" := Bounds(2500.0, 4000.0),
    "first_contentful_paint" := Bounds(1800.0, 3000.0),
    "interaction_to_next_paint" := Bounds(200.0, 500.0),
    "experimental_time_to_first_byte" := Bounds(800.0, 1800.0),
    "cumulative_layout_shift" := Bounds(0.1, 0.25)
  ]

  /** A value that Python's `float(...)` can return: a finite number, an infinity or NaN.
      Rounding of finite values is not modelled. */
  datatype Float = Finite(x: real) | Infinity(negative: bool) | NaN

  /** `v <= bound` on Python floats: false for NaN and for positive infinity. */
  predicate AtMost(v: Float, bound: real) {
    match v
    case Finite(x) => x <= bound
    case Infinity(negative) => negative
    case NaN => false
  }

  /** The `if`/`elif`/`else` of the classifier, for a metric in the table. */
  function Rate(b: Bounds, v: Float): Rating {
    if AtMost(v, b.good) then Good
    else if AtMost(v, b.needsImprovement) then NeedsImprovement
    else Poor
  }

  /** `float(str(p75))`. A JSON number converts to itself; a string goes through `parse`,
      Python's `float` on strings, which yields `None` where Python raises ValueError. */
  function Coerce(p75: Scalar, parse: string -> Option<Float>): Option<Float> {
    match p75
    case Num(x) => Some(Finite(x))
    case Str(s) => parse(s)
  }

  /** The rating appended for a metric: N/A, without looking at the value, for a name outside
      the table; otherwise the band of the coerced value, or ValueError when it does not parse. */
  function Classify(name: string, p75: Scalar, parse: string -> Option<Float>): (r: Result<Rating, Error>)
    ensures name !in Thresholds ==> r == Ok(NotApplicable)
    ensures name in Thresholds ==> (r.Err? <==> Coerce(p75, parse).None?)
    ensures r.Err? ==> r.error == ValueError
    ensures r.Ok? && name in Thresholds ==> r.value != NotApplicable
  {
    if name in Thresholds then
      match Coerce(p75, parse)
      case None => Err(ValueError)
      case Some(v) => Ok(Rate(Thresholds[name], v))
    else Ok(NotApplicable)
  }

  /** Every entry of the table has its Good bound below its Needs Improvement bound. */
  lemma ThresholdsOrdered(name: string)
    requires name in Thresholds
    ensures 0.0 < Thresholds[name].good < Thresholds[name].needsImprovement
  {
  }

  /** For a metric in the table and a p75 that converts to the finite value `x` (a JSON number,
      or a string such as cumulative layout shift's that `float` parses), the three bands in
      full: Good up to and including the good bound, Needs Improvement above it up to and
      including the second bound, Poor above that. */
  lemma ClassifyBands(name: string, p75: Scalar, x: real, parse: string -> Option<Float>)
    requires name in Thresholds && Coerce(p75, parse) == Some(Finite(x))
    ensures var b := Thresholds[name];
            && (Classify(name, p75, parse) == Ok(Good) <==> x <= b.good)
            && (Classify(name, p75, parse) == Ok(NeedsImprovement) <==> b.good < x <= b.needsImprovement)
            && (Classify(name, p75, parse) == Ok(Poor) <==> b.needsImprovement < x)
  {
    ThresholdsOrdered(name);
  }

  /** A position on the scale Good < Needs Improvement < Poor. */
  function Severity(r: Rating): nat {
    match r
    case Good => 0
    case NeedsImprovement => 1
    case Poor => 2
    case NotApplicable => 0
  }

  /** A larger value never gets a better rating. */
  lemma {:induction false} RateMonotonic(b: Bounds, x: real, y: real)
    requires b.good <= b.needsImprovement && x <= y
    ensures Severity(Rate(b, Finite(x))) <= Severity(Rate(b, Finite(y)))
  {
    if Rate(b, Finite(y)) == Good {
      assert y <= b.good;
    } else if Rate(b, Finite(y)) == NeedsImprovement {
      assert y <= b.needsImprovement;
    }
  }

  /** What `float` can return besides a finite number: NaN and positive infinity fail both
      comparisons and rate Poor, negative infinity rates Good. */
  lemma RateNonFinite(b: Bounds)
    ensures Rate(b, NaN) == Poor
    ensures Rate(b, Infinity(false)) == Poor
    ensures Rate(b, Infinity(true)) == Good
  {
  }

  /** Largest contentful paint at 2500 ms is Good, at 4000 ms Needs Improvement, at 4001 ms Poor;
      cumulative layout shift sent as the string "0.25" is Needs Improvement when it parses to 0.25. */
  lemma ClassifyExamples(parse: string -> Option<Float>)
    ensures Classify("largest_contentful_paint", Num(2500.0), parse) == Ok(Good)
    ensures Classify("largest_contentful_paint", Num(4000.0), parse) == Ok(NeedsImprovement)
    ensures Classify("largest_contentful_paint", Num(4001.0), parse) == Ok(Poor)
    ensures parse("0.25") == Some(Finite(0.25)) ==>
              Classify("cumulative_layout_shift", Str("0.25"), parse) == Ok(NeedsImprovement)
    ensures Classify("round_trip_time", Str("not a number"), parse) == Ok(NotApplicable)
  {
  }
}
