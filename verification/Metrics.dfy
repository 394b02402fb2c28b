// The evaluation of the rule classifier: confusion counts and basis points.
module Metrics {
  import opened Prelude

  const USIZE_MAX: nat := 0xffff_ffff_ffff_ffff

  datatype Decision = Rejected | MatchedExplicit | ManualReview

  const SCHEMA_VERSION := "classifier-evaluation-dataset.v1"

  datatype Case = Case(id: string, text: string, evaluatedAt: Option<string>, expected: Decision)

  datatype Dataset = Dataset(schemaVersion: string, evaluatedAt: string, cases: seq<Case>)

  datatype Outcome = Outcome(decision: Decision, score: int, matchedRules: seq<string>)

  datatype Failure = Failure(caseId: string, expected: Decision, actual: Outcome)

  datatype Report = Report(
    perCaseTimes: bool, caseCount: nat, exactMatches: nat, accuracy: nat,
    expectedNotifications: nat, predictedNotifications: nat,
    truePositives: nat, falsePositives: nat, falseNegatives: nat, trueNegatives: nat,
    precision: Option<nat>, recall: Option<nat>, f1: Option<nat>,
    predictedManualReview: nat, failures: seq<Failure>)

  // `saturating_mul` then the quotient, capped at 10,000.
  function BasisPoints(numerator: nat, denominator: nat): (r: Option<nat>)
    ensures r.Some? ==> r.value <= 10_000
  {
    if denominator == 0 then None
    else
      var product := if numerator * 10_000 <= USIZE_MAX then numerator * 10_000 else USIZE_MAX;
      var value := product / denominator;
      Some(if value <= 10_000 then value else 10_000)
  }

  // ---- Counting -----------------------------------------------------------

  // How often a pair of expected and predicted decision satisfies a predicate.
  function CountOf(cases: seq<Case>, outcomes: seq<Outcome>, p: (Decision, Decision) -> bool): nat
    requires |cases| == |outcomes|
  {
    if cases == [] then 0
    else
      var last := |cases| - 1;
      var before := CountOf(cases[..last], outcomes[..last], p);
      if p(cases[last].expected, outcomes[last].decision) then before + 1 else before
  }

  function Mismatches(cases: seq<Case>, outcomes: seq<Outcome>): seq<Failure>
    requires |cases| == |outcomes|
  {
    if cases == [] then []
    else
      var last := |cases| - 1;
      Mismatches(cases[..last], outcomes[..last])
      + if outcomes[last].decision != cases[last].expected
        then [Failure(cases[last].id, cases[last].expected, outcomes[last])] else []
  }

  const HIT := (e: Decision, a: Decision) => e.MatchedExplicit? && a.MatchedExplicit?
  const FALSE_ALARM := (e: Decision, a: Decision) => !e.MatchedExplicit? && a.MatchedExplicit?
  const MISS := (e: Decision, a: Decision) => e.MatchedExplicit? && !a.MatchedExplicit?
  const QUIET := (e: Decision, a: Decision) => !e.MatchedExplicit? && !a.MatchedExplicit?
  const WANTED := (e: Decision, a: Decision) => e.MatchedExplicit?
  const NOTIFIED := (e: Decision, a: Decision) => a.MatchedExplicit?
  const EXACT := (e: Decision, a: Decision) => e == a
  const REVIEWED := (e: Decision, a: Decision) => a.ManualReview?

  ghost predicate Counted(r: Report, cases: seq<Case>, outcomes: seq<Outcome>)
    requires |cases| == |outcomes|
  {
    && r.exactMatches == CountOf(cases, outcomes, EXACT) && r.failures == Mismatches(cases, outcomes)
    && r.expectedNotifications == CountOf(cases, outcomes, WANTED)
    && r.predictedNotifications == CountOf(cases, outcomes, NOTIFIED)
    && r.truePositives == CountOf(cases, outcomes, HIT) && r.falsePositives == CountOf(cases, outcomes, FALSE_ALARM)
    && r.falseNegatives == CountOf(cases, outcomes, MISS) && r.trueNegatives == CountOf(cases, outcomes, QUIET)
    && r.predictedManualReview == CountOf(cases, outcomes, REVIEWED)
  }

  // ---- What the evaluation asks of a dataset ------------------------------

  // The library functions involved: trimming, the timestamp parser, and the
  // classifier at an instant, with None where it fails.
  datatype Library = Library(
    trim: string -> string,
    clock: string -> Option<int>,
    classify: (Case, int) -> Option<Outcome>)

  ghost predicate ValidCases(lib: Library, cases: seq<Case>) {
    && (forall i :: 0 <= i < |cases| ==> lib.trim(cases[i].id) != "" && lib.trim(cases[i].text) != "")
    && (forall i, j :: 0 <= i < j < |cases| ==> cases[i].id != cases[j].id)
  }

  ghost predicate ValidDataset(lib: Library, dataset: Dataset) {
    dataset.schemaVersion == SCHEMA_VERSION && dataset.cases != [] && ValidCases(lib, dataset.cases)
  }

  method ValidateDataset(lib: Library, dataset: Dataset) returns (ok: bool)
    ensures ok <==> ValidDataset(lib, dataset)
  {
    if dataset.schemaVersion != SCHEMA_VERSION || dataset.cases == [] { return false; }
    var cases := dataset.cases;
    var ids: set<string> := {};
    for i := 0 to |cases|
      invariant ValidCases(lib, cases[..i])
      invariant forall id :: id in ids <==> exists j :: 0 <= j < i && cases[j].id == id
    {
      if lib.trim(cases[i].id) == "" || lib.trim(cases[i].text) == "" { return false; }
      if cases[i].id in ids { return false; }
      ids := ids + {cases[i].id};
    }
    assert cases[..|cases|] == cases;
    ok := true;
  }

  // The instant a case is classified at: its own time, or the dataset's.
  function InstantOf(lib: Library, base: int, c: Case): Option<int> {
    match c.evaluatedAt case Some(text) => lib.clock(text) case None => Some(base)
  }

  function Classified(lib: Library, base: int, c: Case): Option<Outcome> {
    match InstantOf(lib, base, c) case None => None case Some(instant) => lib.classify(c, instant)
  }

  predicate AllClassified(lib: Library, base: int, cases: seq<Case>) {
    forall i :: 0 <= i < |cases| ==> Classified(lib, base, cases[i]).Some?
  }

  function Outcomes(lib: Library, base: int, cases: seq<Case>): (r: seq<Outcome>)
    requires AllClassified(lib, base, cases)
    ensures |r| == |cases| && forall i :: 0 <= i < |cases| ==> Classified(lib, base, cases[i]) == Some(r[i])
  {
    seq(|cases|, i requires 0 <= i < |cases| => Classified(lib, base, cases[i]).value)
  }

  lemma CountedStep(n: Report, cases: seq<Case>, outcomes: seq<Outcome>, c: Case, o: Outcome)
    requires |cases| == |outcomes| && Counted(n, cases, outcomes)
    ensures Counted(Tallied(n, c, o), cases + [c], outcomes + [o])
  {
  }

  // The report after one more case.
  function Tallied(n: Report, c: Case, o: Outcome): Report {
    var wanted, notified := c.expected.MatchedExplicit?, o.decision.MatchedExplicit?;
    n.(expectedNotifications := n.expectedNotifications + (if wanted then 1 else 0),
       predictedNotifications := n.predictedNotifications + (if notified then 1 else 0),
       truePositives := n.truePositives + (if wanted && notified then 1 else 0),
       falsePositives := n.falsePositives + (if !wanted && notified then 1 else 0),
       falseNegatives := n.falseNegatives + (if wanted && !notified then 1 else 0),
       trueNegatives := n.trueNegatives + (if !wanted && !notified then 1 else 0),
       predictedManualReview := n.predictedManualReview + (if o.decision.ManualReview? then 1 else 0),
       exactMatches := n.exactMatches + (if o.decision == c.expected then 1 else 0),
       failures := n.failures + if o.decision == c.expected then [] else [Failure(c.id, c.expected, o)])
  }

  method CountCase(before: Report, c: Case, result: Outcome) returns (n: Report)
    ensures n == Tallied(before, c, result)
  {
    n := before;
    var expected, predicted := c.expected.MatchedExplicit?, result.decision.MatchedExplicit?;
    if expected { n := n.(expectedNotifications := n.expectedNotifications + 1); }
    if predicted { n := n.(predictedNotifications := n.predictedNotifications + 1); }
    if result.decision.ManualReview? { n := n.(predictedManualReview := n.predictedManualReview + 1); }
    match (expected, predicted) {
      case (true, true) => n := n.(truePositives := n.truePositives + 1);
      case (false, true) => n := n.(falsePositives := n.falsePositives + 1);
      case (true, false) => n := n.(falseNegatives := n.falseNegatives + 1);
      case (false, false) => n := n.(trueNegatives := n.trueNegatives + 1);
    }
    if result.decision == c.expected {
      n := n.(exactMatches := n.exactMatches + 1);
    } else {
      n := n.(failures := n.failures + [Failure(c.id, c.expected, result)]);
    }
  }

  // A case is classified at its own time if it gives one, and then that must
  // parse; otherwise at the dataset's.
  lemma {:induction false} ClassifiedIs(lib: Library, base: int, c: Case, o: Outcome)
    ensures c.evaluatedAt.Some? ==>
      (Classified(lib, base, c) == Some(o) <==>
         exists instant :: lib.clock(c.evaluatedAt.value) == Some(instant) && lib.classify(c, instant) == Some(o))
    ensures c.evaluatedAt.None? ==> (Classified(lib, base, c) == Some(o) <==> lib.classify(c, base) == Some(o))
  {
  }

  // The cases with the pair of decisions asked for.
  ghost function Where(cases: seq<Case>, outcomes: seq<Outcome>, p: (Decision, Decision) -> bool): set<nat>
    requires |cases| == |outcomes|
  {
    set i: nat | i < |cases| && p(cases[i].expected, outcomes[i].decision)
  }

  // Each count is their number.
  lemma {:induction false} CountIs(cases: seq<Case>, outcomes: seq<Outcome>, p: (Decision, Decision) -> bool)
    requires |cases| == |outcomes|
    ensures CountOf(cases, outcomes, p) == |Where(cases, outcomes, p)|
  {
    if cases != [] {
      var last := |cases| - 1;
      CountIs(cases[..last], outcomes[..last], p);
      WhereStep(cases, outcomes, p);
      hide Where;
    } else {
      assert Where(cases, outcomes, p) == {};
    }
  }

  lemma WhereStep(cases: seq<Case>, outcomes: seq<Outcome>, p: (Decision, Decision) -> bool)
    requires |cases| == |outcomes| && cases != []
    ensures var last := |cases| - 1;
      var before := Where(cases[..last], outcomes[..last], p);
      && last !in before
      && Where(cases, outcomes, p)
         == if p(cases[last].expected, outcomes[last].decision) then before + {last} else before
  {
  }

  lemma {:induction false} PairsAre(e: Decision, a: Decision)
    ensures HIT(e, a) <==> e == MatchedExplicit && a == MatchedExplicit
    ensures FALSE_ALARM(e, a) <==> e != MatchedExplicit && a == MatchedExplicit
    ensures MISS(e, a) <==> e == MatchedExplicit && a != MatchedExplicit
    ensures QUIET(e, a) <==> e != MatchedExplicit && a != MatchedExplicit
    ensures WANTED(e, a) <==> e == MatchedExplicit
    ensures NOTIFIED(e, a) <==> a == MatchedExplicit
    ensures EXACT(e, a) <==> e == a
    ensures REVIEWED(e, a) <==> a == ManualReview
  {
  }

  // The dataset is valid, its times parse, and every case can be classified.
  ghost predicate Evaluable(lib: Library, dataset: Dataset) {
    && ValidDataset(lib, dataset) && lib.clock(dataset.evaluatedAt).Some?
    && AllClassified(lib, lib.clock(dataset.evaluatedAt).value, dataset.cases)
  }

  method Evaluate(lib: Library, dataset: Dataset) returns (r: Option<Report>)
    ensures r.Some? <==> Evaluable(lib, dataset)
    ensures r.Some? ==>
      && r.value.caseCount == |dataset.cases|
      && (r.value.perCaseTimes <==> exists i :: 0 <= i < |dataset.cases| && dataset.cases[i].evaluatedAt.Some?)
      && Counted(r.value, dataset.cases, Outcomes(lib, lib.clock(dataset.evaluatedAt).value, dataset.cases))
      && r.value.accuracy == BasisPoints(r.value.exactMatches, |dataset.cases|).GetOr(0)
      && r.value.precision == BasisPoints(r.value.truePositives, r.value.truePositives + r.value.falsePositives)
      && r.value.recall == BasisPoints(r.value.truePositives, r.value.truePositives + r.value.falseNegatives)
      && r.value.f1 == BasisPoints(2 * r.value.truePositives,
                                   2 * r.value.truePositives + r.value.falsePositives + r.value.falseNegatives)
  {
    hide BasisPoints, CountOf, Mismatches, ValidDataset;
    var valid := ValidateDataset(lib, dataset);
    if !valid { return None; }
    var default := lib.clock(dataset.evaluatedAt);
    if default.None? { return None; }
    var cases, base := dataset.cases, default.value;
    var timed := exists i :: 0 <= i < |cases| && cases[i].evaluatedAt.Some?;
    var n := Report(timed, |cases|, 0, 0, 0, 0, 0, 0, 0, 0, None, None, None, 0, []);
    ghost var outcomes: seq<Outcome> := [];
    NothingCounted(n);
    for i := 0 to |cases|
      invariant |outcomes| == i && forall j :: 0 <= j < i ==> Classified(lib, base, cases[j]) == Some(outcomes[j])
      invariant n.perCaseTimes == timed && n.caseCount == |cases| && Counted(n, cases[..i], outcomes)
    {
      var c := cases[i];
      var instant := InstantOf(lib, base, c);
      if instant.None? { return None; }
      var classified := lib.classify(c, instant.value);
      if classified.None? { return None; }
      var result := classified.value;
      ghost var before := n;
      n := CountCase(n, c, result);
      CountedStep(before, cases[..i], outcomes, c, result);
      assert cases[..i + 1] == cases[..i] + [c];
      outcomes := outcomes + [result];
    }
    assert cases[..|cases|] == cases;
    assert outcomes == Outcomes(lib, base, cases);
    r := Some(n.(accuracy := BasisPoints(n.exactMatches, n.caseCount).GetOr(0),
                 precision := BasisPoints(n.truePositives, n.truePositives + n.falsePositives),
                 recall := BasisPoints(n.truePositives, n.truePositives + n.falseNegatives),
                 f1 := BasisPoints(2 * n.truePositives, 2 * n.truePositives + n.falsePositives + n.falseNegatives)));
  }

  lemma NothingCounted(n: Report)
    requires n == Report(n.perCaseTimes, n.caseCount, 0, 0, 0, 0, 0, 0, 0, 0, None, None, None, 0, [])
    ensures Counted(n, [], [])
  {
  }

  // ---- The counts fit together --------------------------------------------

  lemma {:induction false} CountsFit(cases: seq<Case>, outcomes: seq<Outcome>)
    requires |cases| == |outcomes|
    ensures CountOf(cases, outcomes, HIT) + CountOf(cases, outcomes, FALSE_ALARM) + CountOf(cases, outcomes, MISS)
            + CountOf(cases, outcomes, QUIET) == |cases|
    ensures CountOf(cases, outcomes, HIT) + CountOf(cases, outcomes, MISS) == CountOf(cases, outcomes, WANTED)
    ensures CountOf(cases, outcomes, HIT) + CountOf(cases, outcomes, FALSE_ALARM) == CountOf(cases, outcomes, NOTIFIED)
    ensures CountOf(cases, outcomes, EXACT) + |Mismatches(cases, outcomes)| == |cases|
  {
    if cases != [] { CountsFit(cases[..|cases| - 1], outcomes[..|cases| - 1]); }
  }

  // ---- Basis points -------------------------------------------------------

  // The quotient without saturation or cap.
  predicate IsFloor(q: nat, a: nat, b: nat) {
    q * b <= a < (q + 1) * b
  }

  lemma FloorOf(a: nat, b: nat)
    requires b > 0
    ensures IsFloor(a / b, a, b)
  {
    assert a == (a / b) * b + a % b;
  }

  lemma BasisPointsExact(numerator: nat, denominator: nat)
    requires numerator <= denominator && denominator > 0 && numerator * 10_000 <= USIZE_MAX
    ensures BasisPoints(numerator, denominator).Some?
    ensures IsFloor(BasisPoints(numerator, denominator).value, numerator * 10_000, denominator)
  {
    FloorOf(numerator * 10_000, denominator);
    var q := numerator * 10_000 / denominator;
    assert q <= 10_000 by {
      if q > 10_000 {
        assert 10_000 * numerator <= 10_000 * denominator;
        assert q * denominator >= 10_001 * denominator by { Scale(10_001, q, denominator); }
      }
    }
  }

  lemma Scale(a: nat, b: nat, k: nat)
    requires a <= b
    ensures a * k <= b * k
  {
  }

  lemma FloorOrder(p: nat, a: nat, b: nat, q: nat, c: nat, d: nat)
    requires b > 0 && d > 0 && IsFloor(p, a, b) && IsFloor(q, c, d) && a * d <= c * b
    ensures p <= q
  {
    if p > q {
      assert p * b * d <= a * d by { Scale(p * b, a, d); }
      assert (q + 1) * d * b <= p * d * b by { Scale((q + 1) * d, p * d, b); }
      assert c < (q + 1) * d;
      assert p * b * d == p * d * b by { Swap(p, b, d); }
      StrictScale(c, (q + 1) * d, b);
    }
  }

  lemma StrictScale(a: nat, b: nat, k: nat)
    requires a < b && k > 0
    ensures a * k < b * k
  {
  }

  lemma Swap(p: nat, b: nat, d: nat)
    ensures p * b * d == p * d * b
  {
  }

  // The floored F1 lies between the floored precision and recall whenever both
  // exist, as long as its product does not saturate.
  lemma {:induction false} F1Between(tp: nat, fp: nat, fn: nat)
    requires tp + fp > 0 && tp + fn > 0 && 2 * tp * 10_000 <= USIZE_MAX
    ensures var precision, recall := BasisPoints(tp, tp + fp).value, BasisPoints(tp, tp + fn).value;
      var f1 := BasisPoints(2 * tp, 2 * tp + fp + fn).value;
      (precision <= f1 <= recall) || (recall <= f1 <= precision)
  {
    hide BasisPoints, IsFloor;
    BasisPointsExact(tp, tp + fp);
    BasisPointsExact(tp, tp + fn);
    BasisPointsExact(2 * tp, 2 * tp + fp + fn);
    if fp <= fn { F1Order(tp, fp, fn); } else { F1Order(tp, fn, fp); }
  }

  // With the smaller error count first: the larger quotient bounds F1 from above.
  lemma F1Order(tp: nat, few: nat, many: nat)
    requires few <= many && tp + few > 0 && 2 * tp * 10_000 <= USIZE_MAX
    ensures BasisPoints(tp, tp + many).Some? && BasisPoints(tp, tp + few).Some?
      && BasisPoints(2 * tp, 2 * tp + few + many).Some?
    ensures BasisPoints(tp, tp + many).value <= BasisPoints(2 * tp, 2 * tp + few + many).value
            <= BasisPoints(tp, tp + few).value
  {
    hide BasisPoints, IsFloor;
    BasisPointsExact(tp, tp + few);
    BasisPointsExact(tp, tp + many);
    BasisPointsExact(2 * tp, 2 * tp + few + many);
    var a, both := tp * 10_000, 2 * tp + few + many;
    Scale(both, 2 * (tp + many), a);
    Scale(2 * (tp + few), both, a);
    Double(a, tp + many);
    Double(a, tp + few);
    FloorOrder(BasisPoints(tp, tp + many).value, a, tp + many, BasisPoints(2 * tp, both).value, 2 * tp * 10_000, both);
    FloorOrder(BasisPoints(2 * tp, both).value, 2 * tp * 10_000, both, BasisPoints(tp, tp + few).value, a, tp + few);
  }

  lemma Double(a: nat, b: nat)
    ensures 2 * b * a == 2 * a * b
  {
  }

  // The condition is needed: with 10^15 hits and no error, more than a dataset
  // can hold, precision and recall are 10,000 and F1 is not.
  lemma SaturatedF1()
    ensures BasisPoints(1_000_000_000_000_000, 1_000_000_000_000_000) == Some(10_000)
    ensures BasisPoints(2 * 1_000_000_000_000_000, 2 * 1_000_000_000_000_000) == Some(9_223)
  {
  }
}
