/**
 The extraction scorecard. Scores, rates and accuracies are exact rationals rounded to four
 places, half to even; they are kept as integers in ten-thousandths. A case arrives with
 the outcome of each field comparison that its expectations called for.
 */
module Scorecard {
  datatype Field = DocumentType | Vendor | Amount | InvoiceNumber | Currency | SourceKind

  const FIELDS: seq<Field> := [DocumentType, Vendor, Amount, InvoiceNumber, Currency, SourceKind]

  /** The weight of a field, in hundredths. */
  function Weight(f: Field): (w: nat)
    ensures 5 <= w <= 35
  {
    match f
    case DocumentType => 10
    case Vendor => 20
    case Amount => 35
    case InvoiceNumber => 25
    case Currency => 10
    case SourceKind => 5
  }

  function Position(f: Field): (i: nat)
    ensures i < |FIELDS| && FIELDS[i] == f
  {
    match f
    case DocumentType => 0
    case Vendor => 1
    case Amount => 2
    case InvoiceNumber => 3
    case Currency => 4
    case SourceKind => 5
  }

  /** The comparisons made for a case, and whether each matched. */
  type Comparisons = map<Field, bool>

  /** `about` is what gates may look at besides: document type, sender, subject and layout. */
  datatype Case = Case(id: string, vendor: string, about: string, comparisons: Comparisons)

  datatype Report = Report(id: string, vendor: string, comparisons: Comparisons, score: nat, allMatched: bool)

  // ---------------------------------------------------------------------------
  // Rounding
  // ---------------------------------------------------------------------------

  /** A quotient with its remainder, rounded to the nearest integer, ties to the even one. */
  function HalfEven(q: nat, r: nat, d: nat): nat {
    if 2 * r < d || (2 * r == d && q % 2 == 0) then q else q + 1
  }

  /** The integer nearest to `a / d`. */
  function Round(a: nat, d: nat): nat
    requires d > 0
  {
    HalfEven(a / d, a % d, d)
  }

  lemma Quotient(a: nat, d: nat) returns (q: nat, r: nat)
    requires d > 0
    ensures a == q * d + r && r < d && Round(a, d) == HalfEven(q, r, d)
  {
    q, r := a / d, a % d;
  }

  lemma ProductsGrow(x: nat, y: nat, d: nat)
    requires x <= y
    ensures x * d <= y * d && (x + 1) * d == x * d + d
  {
  }

  /** The quotient is no smaller for a larger numerator. */
  lemma QuotientsGrow(q: nat, r: nat, p: nat, s: nat, d: nat)
    requires r < d && s < d && q * d + r <= p * d + s
    ensures q < p || (q == p && r <= s)
  {
    if p < q {
      ProductsGrow(p + 1, q, d);
      ProductsGrow(p, p, d);
    }
  }

  lemma RoundIsMonotone(a: nat, b: nat, d: nat)
    requires d > 0 && a <= b
    ensures Round(a, d) <= Round(b, d)
  {
    var q, r := Quotient(a, d);
    var p, s := Quotient(b, d);
    QuotientsGrow(q, r, p, s, d);
  }

  /** A ratio of at most one rounds to 1.0000 exactly when it misses one by at most half a place. */
  lemma RoundsToOne(a: nat, d: nat)
    requires d > 0 && a <= 10000 * d
    ensures Round(a, d) <= 10000
    ensures Round(a, d) == 10000 <==> 2 * (10000 * d - a) <= d
  {
    var q, r := Quotient(a, d);
    QuotientsGrow(q, r, 10000, 0, d);
    if q <= 9999 {
      ProductsGrow(q, 9999, d);
    }
    if q <= 9998 {
      ProductsGrow(q, 9998, d);
    }
  }

  /** `r` is `a / d` to the nearest integer, and the even one of two that are equally near. */
  predicate Nearest(a: nat, d: nat, r: nat) {
    && 2 * (d * r) <= 2 * a + d && 2 * a <= 2 * (d * r) + d
    && (2 * (d * r) == 2 * a + d || 2 * a == 2 * (d * r) + d ==> r % 2 == 0)
  }

  /** Rounding finds the nearest integer, ties to the even one. */
  lemma RoundIsNearest(a: nat, d: nat)
    requires d > 0
    ensures Nearest(a, d, Round(a, d))
  {
    var q, r := Quotient(a, d);
    assert d * q == q * d && d * (q + 1) == q * d + d;
  }

  /** Only one integer is nearest. */
  lemma NearestIsUnique(a: nat, d: nat, r: nat, t: nat)
    requires d > 0 && Nearest(a, d, r) && Nearest(a, d, t)
    ensures r == t
  {
    if r < t {
      NearestIsNotSmaller(a, d, r, t);
    } else if t < r {
      NearestIsNotSmaller(a, d, t, r);
    }
  }

  lemma NearestIsNotSmaller(a: nat, d: nat, r: nat, t: nat)
    requires d > 0 && Nearest(a, d, r) && Nearest(a, d, t)
    ensures t <= r
  {
    assert d * (r + 1) == d * r + d;
    FactorsCompare(d, t, r + 1);
  }

  lemma FactorsCompare(d: nat, x: nat, y: nat)
    requires d > 0 && d * x <= d * y
    ensures x <= y
  {
  }

  // ---------------------------------------------------------------------------
  // One case
  // ---------------------------------------------------------------------------

  /** The weight of the fields compared, among the first `n`. */
  function WeightOf(c: Comparisons, n: nat): nat
    requires n <= |FIELDS|
  {
    if n == 0 then 0
    else WeightOf(c, n - 1) + if FIELDS[n - 1] in c then Weight(FIELDS[n - 1]) else 0
  }

  /** The weight of the fields that matched, among the first `n`. */
  function HitOf(c: Comparisons, n: nat): nat
    requires n <= |FIELDS|
  {
    if n == 0 then 0
    else HitOf(c, n - 1) + if FIELDS[n - 1] in c && c[FIELDS[n - 1]] then Weight(FIELDS[n - 1]) else 0
  }

  function Score(c: Comparisons): nat {
    var total := WeightOf(c, |FIELDS|);
    if total > 0 then Round(10000 * HitOf(c, |FIELDS|), total) else 0
  }

  predicate AllMatched(c: Comparisons) {
    c != map[] && forall f | f in c :: c[f]
  }

  function ReportOf(c: Case): Report {
    Report(c.id, c.vendor, c.comparisons, Score(c.comparisons), AllMatched(c.comparisons))
  }

  lemma {:induction false} HitsAndWeights(c: Comparisons, n: nat)
    requires n <= |FIELDS|
    ensures HitOf(c, n) <= WeightOf(c, n) <= 35 * n
    ensures forall f | f in c && Position(f) < n :: WeightOf(c, n) > 0
    ensures (forall f | f in c && Position(f) < n :: c[f]) ==> HitOf(c, n) == WeightOf(c, n)
    ensures forall f | f in c && !c[f] && Position(f) < n :: HitOf(c, n) + 5 <= WeightOf(c, n)
  {
    if n > 0 {
      HitsAndWeights(c, n - 1);
      assert forall f: Field :: Position(f) == n - 1 ==> f == FIELDS[n - 1];
      assert Position(FIELDS[n - 1]) == n - 1;
    }
  }

  /** A rounded case score is 1.0000 exactly when every expected field matched. */
  lemma ScoreIsOneExactly(c: Comparisons)
    ensures Score(c) <= 10000
    ensures Score(c) == 10000 <==> AllMatched(c)
  {
    var n := |FIELDS|;
    HitsAndWeights(c, n);
    if c == map[] {
      NothingCompared(n);
    } else {
      var f :| f in c;
      assert Position(f) < n;
      RoundsToOne(10000 * HitOf(c, n), WeightOf(c, n));
    }
  }

  lemma {:induction false} NothingCompared(n: nat)
    requires n <= |FIELDS|
    ensures WeightOf(map[], n) == 0
  {
    if n > 0 {
      NothingCompared(n - 1);
    }
  }

  /** The weights, in hundredths. */
  lemma Weights()
    ensures Weight(Amount) == 35 && Weight(InvoiceNumber) == 25 && Weight(Vendor) == 20
    ensures Weight(DocumentType) == 10 && Weight(Currency) == 10 && Weight(SourceKind) == 5
  {
  }

  /** The weight compared, and the weight matched. */
  function Compared(c: Comparisons): nat {
    WeightOf(c, |FIELDS|)
  }

  function Matched(c: Comparisons): nat {
    HitOf(c, |FIELDS|)
  }

  /** Nothing compared weighs nothing; one more comparison adds its field's weight, to the matched weight only when it matches. */
  lemma WeighingExactly(c: Comparisons, f: Field, matched: bool)
    requires f !in c
    ensures Compared(map[]) == 0 && Matched(map[]) == 0
    ensures Compared(c[f := matched]) == Compared(c) + Weight(f)
    ensures Matched(c[f := matched]) == Matched(c) + if matched then Weight(f) else 0
  {
    NothingCompared(|FIELDS|);
    HitsAndWeights(map[], |FIELDS|);
    AddedWeight(c, f, matched, |FIELDS|);
    AddedHit(c, f, matched, |FIELDS|);
  }

  lemma FieldAt(n: nat, f: Field)
    requires n < |FIELDS|
    ensures FIELDS[n] == f <==> Position(f) == n
  {
    assert Position(FIELDS[n]) == n;
  }

  lemma {:induction false} AddedWeight(c: Comparisons, f: Field, matched: bool, n: nat)
    requires n <= |FIELDS| && f !in c
    ensures WeightOf(c[f := matched], n) == WeightOf(c, n) + if Position(f) < n then Weight(f) else 0
  {
    if n > 0 {
      AddedWeight(c, f, matched, n - 1);
      FieldAt(n - 1, f);
    }
  }

  lemma {:induction false} AddedHit(c: Comparisons, f: Field, matched: bool, n: nat)
    requires n <= |FIELDS| && f !in c
    ensures HitOf(c[f := matched], n) == HitOf(c, n) + if Position(f) < n && matched then Weight(f) else 0
  {
    if n > 0 {
      AddedHit(c, f, matched, n - 1);
      FieldAt(n - 1, f);
    }
  }

  /** A case's score is the share of the compared weight that matched, to four places, and zero when nothing was compared. */
  lemma ScoreIsNearest(c: Comparisons)
    ensures c != map[] ==> Compared(c) > 0 && Nearest(10000 * Matched(c), Compared(c), Score(c))
    ensures c == map[] ==> Score(c) == 0
  {
    HitsAndWeights(c, |FIELDS|);
    if c == map[] {
      NothingCompared(|FIELDS|);
    } else {
      var f :| f in c;
      assert Position(f) < |FIELDS|;
      RoundIsNearest(10000 * Matched(c), Compared(c));
    }
  }

  /** A concrete partial score: vendor and amount match, the currency does not, and the score is 0.8462. */
  lemma PartialScore()
    ensures Score(map[Vendor := true, Amount := true, Currency := false]) == 8462
  {
    var c0: Comparisons := map[];
    var c1 := c0[Vendor := true];
    var c2 := c1[Amount := true];
    var c3 := c2[Currency := false];
    WeighingExactly(c0, Vendor, true);
    WeighingExactly(c1, Amount, true);
    WeighingExactly(c2, Currency, false);
    ScoreIsNearest(c3);
    NearestIsUnique(550000, 65, Score(c3), 8462);
    assert c3 == map[Vendor := true, Amount := true, Currency := false];
  }

  method ScoreCase(c: Case) returns (r: Report)
    ensures r == ReportOf(c)
  {
    var weightSum, weightedHitSum: nat := 0, 0;
    var allMatch := c.comparisons != map[];
    for i := 0 to |FIELDS|
      invariant weightSum == WeightOf(c.comparisons, i)
      invariant weightedHitSum == HitOf(c.comparisons, i)
      invariant allMatch <==> c.comparisons != map[] && forall f | f in c.comparisons && Position(f) < i :: c.comparisons[f]
    {
      var field := FIELDS[i];
      assert forall f: Field :: Position(f) == i ==> f == field;
      if field in c.comparisons {
        assert Position(field) == i;
        var matched := c.comparisons[field];
        weightSum := weightSum + Weight(field);
        weightedHitSum := weightedHitSum + (if matched then Weight(field) else 0);
        allMatch := allMatch && matched;
      }
    }
    assert forall f | f in c.comparisons :: Position(f) < |FIELDS|;
    var score := if weightSum > 0 then Round(10000 * weightedHitSum, weightSum) else 0;
    return Report(c.id, c.vendor, c.comparisons, score, allMatch);
  }

  // ---------------------------------------------------------------------------
  // Summaries
  // ---------------------------------------------------------------------------

  /** The quantities a summary adds up over the case reports. */
  datatype Measure = Size | Perfects | Scores | Totals(field: Field) | Hits(field: Field)

  function Amounting(m: Measure, r: Report): nat {
    match m
    case Size => 1
    case Perfects => if r.allMatched then 1 else 0
    case Scores => r.score
    case Totals(f) => if f in r.comparisons then 1 else 0
    case Hits(f) => if f in r.comparisons && r.comparisons[f] then 1 else 0
  }

  function Tally(reports: seq<Report>, m: Measure): nat {
    if reports == [] then 0
    else Tally(reports[..|reports| - 1], m) + Amounting(m, reports[|reports| - 1])
  }

  datatype Rating = NeedsWork | Good | Great | Perfect

  function Rank(r: Rating): nat {
    match r
    case NeedsWork => 0
    case Good => 1
    case Great => 2
    case Perfect => 3
  }

  datatype Summary = Summary(size: nat, overall: nat, perfectRate: nat, accuracy: map<Field, nat>, rating: Rating)

  function AccuracyOf(accuracy: map<Field, nat>, f: Field): nat {
    if f in accuracy then accuracy[f] else 0
  }

  function DetermineRating(overall: nat, perfectRate: nat, accuracy: map<Field, nat>): Rating {
    if overall == 10000 && perfectRate == 10000 then Perfect
    else if
      && overall >= 9500
      && AccuracyOf(accuracy, Amount) >= 9500
      && AccuracyOf(accuracy, InvoiceNumber) >= 9500
      && AccuracyOf(accuracy, Vendor) >= 9000
      && AccuracyOf(accuracy, DocumentType) >= 9800
    then Great
    else if overall >= 8000 && AccuracyOf(accuracy, Amount) >= 8500 && AccuracyOf(accuracy, InvoiceNumber) >= 8500 then Good
    else NeedsWork
  }

  function Accuracies(reports: seq<Report>): map<Field, nat> {
    map f: Field | Tally(reports, Totals(f)) > 0
      :: Round(10000 * Tally(reports, Hits(f)), Tally(reports, Totals(f)))
  }

  function SummaryOf(reports: seq<Report>): Summary {
    var n := |reports|;
    var overall := if n > 0 then Round(Tally(reports, Scores), n) else 0;
    var rate := if n > 0 then Round(10000 * Tally(reports, Perfects), n) else 0;
    Summary(n, overall, rate, Accuracies(reports), DetermineRating(overall, rate, Accuracies(reports)))
  }

  function Count(counts: map<Field, nat>, f: Field): nat {
    if f in counts then counts[f] else 0
  }

  /** Adds one report's comparisons to the counters. */
  method CountComparisons(totals0: map<Field, nat>, hits0: map<Field, nat>, r: Report)
    returns (totals: map<Field, nat>, hits: map<Field, nat>)
    ensures forall f: Field :: Count(totals, f) == Count(totals0, f) + Amounting(Totals(f), r)
    ensures forall f: Field :: Count(hits, f) == Count(hits0, f) + Amounting(Hits(f), r)
  {
    totals, hits := totals0, hits0;
    for j := 0 to |FIELDS|
      invariant forall f: Field :: Count(totals, f) == Count(totals0, f) + if Position(f) < j then Amounting(Totals(f), r) else 0
      invariant forall f: Field :: Count(hits, f) == Count(hits0, f) + if Position(f) < j then Amounting(Hits(f), r) else 0
    {
      var field := FIELDS[j];
      assert forall f: Field :: Position(f) == j <==> f == field;
      if field in r.comparisons {
        totals := totals[field := Count(totals, field) + 1];
        if r.comparisons[field] {
          hits := hits[field := Count(hits, field) + 1];
        }
      }
    }
    assert forall f: Field :: Position(f) < |FIELDS|;
  }

  method Summarize(reports: seq<Report>) returns (s: Summary)
    ensures s == SummaryOf(reports)
  {
    var totals: map<Field, nat> := map[];
    var hits: map<Field, nat> := map[];
    var scoreSum, perfects: nat := 0, 0;
    for i := 0 to |reports|
      invariant scoreSum == Tally(reports[..i], Scores) && perfects == Tally(reports[..i], Perfects)
      invariant forall f: Field :: Count(totals, f) == Tally(reports[..i], Totals(f))
      invariant forall f: Field :: Count(hits, f) == Tally(reports[..i], Hits(f))
    {
      var r := reports[i];
      assert reports[..i + 1][..i] == reports[..i];
      scoreSum := scoreSum + r.score;
      if r.allMatched {
        perfects := perfects + 1;
      }
      totals, hits := CountComparisons(totals, hits, r);
    }
    assert reports[..|reports|] == reports;
    var accuracy := map f: Field | f in totals && totals[f] > 0 :: Round(10000 * Count(hits, f), totals[f]);
    assert forall f: Field :: (f in totals && totals[f] > 0) <==> Count(totals, f) > 0;
    assert accuracy == Accuracies(reports);
    var n := |reports|;
    var overall := if n > 0 then Round(scoreSum, n) else 0;
    var rate := if n > 0 then Round(10000 * perfects, n) else 0;
    return Summary(n, overall, rate, accuracy, DetermineRating(overall, rate, accuracy));
  }

  // ---------------------------------------------------------------------------
  // What "perfect" means
  // ---------------------------------------------------------------------------

  /** The reports of a dataset, in order. */
  function Reports(cases: seq<Case>): (rs: seq<Report>)
    ensures |rs| == |cases| && forall i | 0 <= i < |cases| :: rs[i] == ReportOf(cases[i])
  {
    seq(|cases|, i requires 0 <= i < |cases| => ReportOf(cases[i]))
  }

  function Misses(reports: seq<Report>): int {
    |reports| - Tally(reports, Perfects)
  }

  lemma TallyOfCases(cases: seq<Case>, m: Measure)
    requires cases != []
    ensures Tally(Reports(cases), m) == Tally(Reports(cases[..|cases| - 1]), m) + Amounting(m, ReportOf(cases[|cases| - 1]))
  {
    assert Reports(cases)[..|cases| - 1] == Reports(cases[..|cases| - 1]);
  }

  /** Each case that fell short costs the score sum at most one. */
  lemma {:induction false} ShortfallIsBounded(cases: seq<Case>)
    ensures Tally(Reports(cases), Scores) <= 10000 * |cases|
    ensures 0 <= Misses(Reports(cases)) <= |cases|
    ensures 10000 * |cases| - Tally(Reports(cases), Scores) <= 10000 * Misses(Reports(cases))
    ensures Misses(Reports(cases)) == 0 <==> forall i | 0 <= i < |cases| :: AllMatched(cases[i].comparisons)
  {
    if cases != [] {
      var front, last := cases[..|cases| - 1], cases[|cases| - 1];
      ShortfallIsBounded(front);
      ScoreIsOneExactly(last.comparisons);
      TallyOfCases(cases, Scores);
      TallyOfCases(cases, Perfects);
    }
  }

  /**
   The rating is "perfect" exactly when the dataset is not empty and at most one case in
   20000 fell short: four-place rounding hides that share and no more.
   */
  lemma PerfectExactly(cases: seq<Case>)
    ensures SummaryOf(Reports(cases)).rating == Perfect
       <==> |cases| > 0 && 20000 * Misses(Reports(cases)) <= |cases|
  {
    var reports := Reports(cases);
    if |cases| > 0 {
      ShortfallIsBounded(cases);
      RoundsToOne(Tally(reports, Scores), |cases|);
      RoundsToOne(10000 * Tally(reports, Perfects), |cases|);
    }
  }

  /** Below 20000 cases a perfect rating means that every expected field of every case matched. */
  lemma PerfectHidesNothingBelow20000(cases: seq<Case>)
    requires |cases| < 20000
    ensures SummaryOf(Reports(cases)).rating == Perfect
       <==> |cases| > 0 && forall i | 0 <= i < |cases| :: AllMatched(cases[i].comparisons)
  {
    PerfectExactly(cases);
    ShortfallIsBounded(cases);
  }

  lemma OneMoreMiss(front: seq<Case>, miss: Case)
    requires !AllMatched(miss.comparisons)
    ensures Misses(Reports(front + [miss])) == Misses(Reports(front)) + 1
  {
    var cases := front + [miss];
    assert cases[..|front|] == front && cases[|front|] == miss;
    TallyOfCases(cases, Perfects);
  }

  /** From 20000 cases up the bound is sharp: some dataset of that size is rated perfect with a miss in it. */
  lemma PerfectCanHideAMiss(n: nat) returns (cases: seq<Case>)
    requires n >= 20000
    ensures |cases| == n && SummaryOf(Reports(cases)).rating == Perfect
    ensures exists i :: 0 <= i < n && !AllMatched(cases[i].comparisons)
  {
    var good, bad := Case("good", "v", "", map[Amount := true]), Case("bad", "v", "", map[Amount := false]);
    var front := seq(n - 1, _ => good);
    assert Amount in good.comparisons && AllMatched(good.comparisons);
    assert Amount in bad.comparisons && !bad.comparisons[Amount];
    ShortfallIsBounded(front);
    OneMoreMiss(front, bad);
    cases := front + [bad];
    assert cases[n - 1] == bad;
    PerfectExactly(cases);
  }

  // ---------------------------------------------------------------------------
  // What a summary says
  // ---------------------------------------------------------------------------

  /** A tally adds up its measure over the reports. */
  lemma TallyAdds(reports: seq<Report>, r: Report, m: Measure)
    ensures Tally([], m) == 0 && Tally(reports + [r], m) == Tally(reports, m) + Amounting(m, r)
  {
    assert (reports + [r])[..|reports|] == reports;
  }

  predicate CountsTowards(m: Measure, r: Report) {
    match m
    case Size => true
    case Perfects => r.allMatched
    case Totals(f) => f in r.comparisons
    case Hits(f) => f in r.comparisons && r.comparisons[f]
    case Scores => false
  }

  function Places(reports: seq<Report>, m: Measure): set<nat> {
    set i: nat | i < |reports| && CountsTowards(m, reports[i])
  }

  lemma OneMorePlace(reports: seq<Report>, r: Report, m: Measure)
    ensures Places(reports + [r], m) == Places(reports, m) + if CountsTowards(m, r) then {|reports|} else {}
  {
  }

  /** Sizes, perfect cases, totals and hits are numbers of reports. */
  lemma {:induction false} TallyCounts(reports: seq<Report>, m: Measure)
    requires m != Scores
    ensures Tally(reports, m) == |Places(reports, m)|
  {
    if reports != [] {
      var front, last := reports[..|reports| - 1], reports[|reports| - 1];
      TallyCounts(front, m);
      OneMorePlace(front, last, m);
      assert reports == front + [last];
    } else {
      assert Places(reports, m) == {};
    }
  }

  /** A measured report carries its case, its score, and whether all of it matched. */
  lemma ReportSays(c: Case)
    ensures ReportOf(c).id == c.id && ReportOf(c).vendor == c.vendor && ReportOf(c).comparisons == c.comparisons
    ensures Amounting(Scores, ReportOf(c)) == Score(c.comparisons)
    ensures ReportOf(c).allMatched <==> c.comparisons != map[] && forall f | f in c.comparisons :: c.comparisons[f]
  {
  }

  /** The overall score is the mean score, the perfect rate the share of perfect cases, and a field's accuracy its share of hits, each to four places. */
  lemma SummaryIsNearest(reports: seq<Report>, f: Field)
    requires reports != []
    ensures SummaryOf(reports).size == |reports|
    ensures Nearest(Tally(reports, Scores), |reports|, SummaryOf(reports).overall)
    ensures Nearest(10000 * Tally(reports, Perfects), |reports|, SummaryOf(reports).perfectRate)
    ensures f in SummaryOf(reports).accuracy <==> Tally(reports, Totals(f)) > 0
    ensures f in SummaryOf(reports).accuracy ==>
              Nearest(10000 * Tally(reports, Hits(f)), Tally(reports, Totals(f)), SummaryOf(reports).accuracy[f])
  {
    RoundIsNearest(Tally(reports, Scores), |reports|);
    RoundIsNearest(10000 * Tally(reports, Perfects), |reports|);
    if Tally(reports, Totals(f)) > 0 {
      RoundIsNearest(10000 * Tally(reports, Hits(f)), Tally(reports, Totals(f)));
    }
  }

  /** An empty dataset scores nothing, and needs work. */
  lemma EmptySummary()
    ensures SummaryOf([]) == Summary(0, 0, 0, map[], NeedsWork)
  {
    assert Accuracies([]) == map[];
  }

  /** What each rank of the rating takes, in ten-thousandths. */
  lemma RatingExactly(overall: nat, perfectRate: nat, a: map<Field, nat>)
    ensures var rank := Rank(DetermineRating(overall, perfectRate, a));
            var perfect := overall == 10000 == perfectRate;
            var great := && overall >= 9500 && AccuracyOf(a, Amount) >= 9500 && AccuracyOf(a, InvoiceNumber) >= 9500
                         && AccuracyOf(a, Vendor) >= 9000 && AccuracyOf(a, DocumentType) >= 9800;
            var good := overall >= 8000 && AccuracyOf(a, Amount) >= 8500 && AccuracyOf(a, InvoiceNumber) >= 8500;
            (rank == 3 <==> perfect) && (rank >= 2 <==> perfect || great) && (rank >= 1 <==> perfect || good)
  {
  }

  // ---------------------------------------------------------------------------
  // Corrections never hurt
  // ---------------------------------------------------------------------------

  function Corrected(c: Case, f: Field): Case {
    c.(comparisons := c.comparisons[f := true])
  }

  /** `after` is `before` with one mismatch, of field `f` in case `k`, turned into a match. */
  ghost predicate Corrects(before: seq<Case>, after: seq<Case>, k: nat, f: Field) {
    && k < |before| && f in before[k].comparisons && !before[k].comparisons[f]
    && after == before[k := Corrected(before[k], f)]
  }

  lemma {:induction false} HitsGrow(c: Comparisons, f: Field, n: nat)
    requires n <= |FIELDS| && f in c
    ensures WeightOf(c[f := true], n) == WeightOf(c, n) && HitOf(c[f := true], n) >= HitOf(c, n)
  {
    if n > 0 {
      HitsGrow(c, f, n - 1);
    }
  }

  lemma ScoreGrows(c: Comparisons, f: Field)
    requires f in c
    ensures Score(c) <= Score(c[f := true])
    ensures AllMatched(c) ==> AllMatched(c[f := true])
  {
    var n := |FIELDS|;
    HitsGrow(c, f, n);
    if WeightOf(c, n) > 0 {
      RoundIsMonotone(10000 * HitOf(c, n), 10000 * HitOf(c[f := true], n), WeightOf(c, n));
    }
    if AllMatched(c) {
      assert c[f := true] == c;
    }
  }

  lemma AmountGrows(c: Case, f: Field, m: Measure)
    requires f in c.comparisons && !c.comparisons[f]
    ensures Grows(m, Amounting(m, ReportOf(c)), Amounting(m, ReportOf(Corrected(c, f))))
  {
    ScoreGrows(c.comparisons, f);
  }

  /** What one correction does to a tally. */
  predicate Grows(m: Measure, a: nat, b: nat) {
    a <= b && (m.Totals? ==> a == b)
  }

  lemma LastTallyGrows(before: seq<Case>, after: seq<Case>, n: nat, m: Measure)
    requires |before| == |after| == n + 1
    requires Grows(m, Tally(Reports(before[..n]), m), Tally(Reports(after[..n]), m))
    requires Grows(m, Amounting(m, ReportOf(before[n])), Amounting(m, ReportOf(after[n])))
    ensures Grows(m, Tally(Reports(before), m), Tally(Reports(after), m))
  {
    TallyOfCases(before, m);
    TallyOfCases(after, m);
  }

  lemma {:induction false} TallyGrows(before: seq<Case>, after: seq<Case>, k: nat, f: Field, m: Measure)
    requires Corrects(before, after, k, f)
    ensures Grows(m, Tally(Reports(before), m), Tally(Reports(after), m))
  {
    var n := |before| - 1;
    if k < n {
      assert Corrects(before[..n], after[..n], k, f);
      TallyGrows(before[..n], after[..n], k, f, m);
    } else {
      assert before[..n] == after[..n];
      AmountGrows(before[k], f, m);
    }
    LastTallyGrows(before, after, n, m);
  }

  lemma {:induction false} HitsWithinTotals(reports: seq<Report>, f: Field)
    ensures Tally(reports, Hits(f)) <= Tally(reports, Totals(f))
  {
    if reports != [] {
      HitsWithinTotals(reports[..|reports| - 1], f);
    }
  }

  /** No number of the summary is lower, and the rating ranks no lower. */
  ghost predicate NoWorse(a: Summary, b: Summary) {
    && b.size == a.size && b.overall >= a.overall && b.perfectRate >= a.perfectRate
    && b.accuracy.Keys == a.accuracy.Keys && (forall f | f in a.accuracy :: b.accuracy[f] >= a.accuracy[f])
    && Rank(b.rating) >= Rank(a.rating)
  }

  lemma AccuraciesGrow(before: seq<Case>, after: seq<Case>, k: nat, f: Field, g: Field)
    requires Corrects(before, after, k, f)
    ensures g in Accuracies(Reports(before)) <==> g in Accuracies(Reports(after))
    ensures AccuracyOf(Accuracies(Reports(before)), g) <= AccuracyOf(Accuracies(Reports(after)), g)
  {
    TallyGrows(before, after, k, f, Totals(g));
    TallyGrows(before, after, k, f, Hits(g));
    var total := Tally(Reports(before), Totals(g));
    if total > 0 {
      RoundIsMonotone(10000 * Tally(Reports(before), Hits(g)), 10000 * Tally(Reports(after), Hits(g)), total);
    }
  }

  lemma RatesGrow(before: seq<Case>, after: seq<Case>, k: nat, f: Field)
    requires Corrects(before, after, k, f)
    ensures SummaryOf(Reports(before)).overall <= SummaryOf(Reports(after)).overall <= 10000
    ensures SummaryOf(Reports(before)).perfectRate <= SummaryOf(Reports(after)).perfectRate <= 10000
  {
    TallyGrows(before, after, k, f, Scores);
    TallyGrows(before, after, k, f, Perfects);
    RoundIsMonotone(Tally(Reports(before), Scores), Tally(Reports(after), Scores), |before|);
    RoundIsMonotone(10000 * Tally(Reports(before), Perfects), 10000 * Tally(Reports(after), Perfects), |before|);
    ShortfallIsBounded(after);
    RoundsToOne(Tally(Reports(after), Scores), |after|);
    RoundsToOne(10000 * Tally(Reports(after), Perfects), |after|);
  }

  /** The rating cascade is monotone in every number it reads. */
  lemma RatingIsMonotone(o: nat, p: nat, a: map<Field, nat>, o': nat, p': nat, a': map<Field, nat>)
    requires o <= o' <= 10000 && p <= p' <= 10000
    requires forall f: Field :: AccuracyOf(a, f) <= AccuracyOf(a', f)
    ensures Rank(DetermineRating(o, p, a)) <= Rank(DetermineRating(o', p', a'))
  {
  }

  /** Correcting one comparison anywhere lowers no case score, accuracy, rate or rating. */
  lemma CorrectionNeverHurts(before: seq<Case>, after: seq<Case>, k: nat, f: Field)
    requires Corrects(before, after, k, f)
    ensures forall i | 0 <= i < |before| :: ReportOf(before[i]).score <= ReportOf(after[i]).score
    ensures NoWorse(SummaryOf(Reports(before)), SummaryOf(Reports(after)))
  {
    ScoreGrows(before[k].comparisons, f);
    RatesGrow(before, after, k, f);
    var a, b := SummaryOf(Reports(before)), SummaryOf(Reports(after));
    forall g: Field
      ensures g in a.accuracy <==> g in b.accuracy
      ensures AccuracyOf(a.accuracy, g) <= AccuracyOf(b.accuracy, g)
    {
      AccuraciesGrow(before, after, k, f, g);
    }
    RatingIsMonotone(a.overall, a.perfectRate, a.accuracy, b.overall, b.perfectRate, b.accuracy);
    forall g | g in a.accuracy ensures b.accuracy[g] >= a.accuracy[g] {
      assert AccuracyOf(a.accuracy, g) <= AccuracyOf(b.accuracy, g);
    }
  }

  // ---------------------------------------------------------------------------
  // Regression gates
  // ---------------------------------------------------------------------------

  const CRITICAL: set<Field> := {Amount, Currency, InvoiceNumber, Vendor, DocumentType}

  /**
   A gate's specification: named cases, or a test on what a correction does not touch, the vendor
   and the rest; the least overall score; and thresholds by field.
   */
  datatype Spec = Spec(caseIds: seq<string>, matches: (string, string) -> bool, minimumOverall: real, thresholds: map<Field, real>)

  predicate Selects(spec: Spec, c: Case) {
    if spec.caseIds != [] then c.id in spec.caseIds else spec.matches(c.vendor, c.about)
  }

  function Selected(spec: Spec, cases: seq<Case>): seq<Case> {
    if cases == [] then []
    else
      var front, last := Selected(spec, cases[..|cases| - 1]), cases[|cases| - 1];
      if Selects(spec, last) then front + [last] else front
  }

  /** Every named case is there. */
  predicate NothingMissing(spec: Spec, cases: seq<Case>) {
    forall id | id in spec.caseIds :: exists i | 0 <= i < |cases| :: cases[i].id == id
  }

  /** Only critical fields have an accuracy a threshold can see; any other field counts as zero. */
  function CriticalAccuracy(s: Summary, f: Field): nat {
    if f in CRITICAL then AccuracyOf(s.accuracy, f) else 0
  }

  predicate GatePasses(spec: Spec, cases: seq<Case>) {
    var chosen := Selected(spec, cases);
    var s := SummaryOf(Reports(chosen));
    && s.size > 0
    && NothingMissing(spec, chosen)
    && s.overall as real / 10000.0 >= spec.minimumOverall
    && forall f | f in spec.thresholds :: !(CriticalAccuracy(s, f) as real / 10000.0 < spec.thresholds[f])
  }

  /** A correction shows among a gate's cases as one correction, or not at all. */
  lemma {:induction false} CorrectionSelected(spec: Spec, before: seq<Case>, after: seq<Case>, k: nat, f: Field) returns (j: nat)
    requires Corrects(before, after, k, f)
    ensures if Selects(spec, before[k]) then Corrects(Selected(spec, before), Selected(spec, after), j, f)
            else Selected(spec, after) == Selected(spec, before)
  {
    var n := |before| - 1;
    j := 0;
    if k < n {
      assert Corrects(before[..n], after[..n], k, f);
      j := CorrectionSelected(spec, before[..n], after[..n], k, f);
    } else {
      assert before[..n] == after[..n];
      j := |Selected(spec, before[..n])|;
    }
  }

  /** A gate that passes still passes after any correction anywhere in the dataset. */
  lemma CorrectionKeepsGate(before: seq<Case>, after: seq<Case>, k: nat, f: Field, spec: Spec)
    requires Corrects(before, after, k, f) && GatePasses(spec, before)
    ensures GatePasses(spec, after)
  {
    var j := CorrectionSelected(spec, before, after, k, f);
    if Selects(spec, before[k]) {
      CorrectionKeepsChosen(Selected(spec, before), Selected(spec, after), j, f, spec);
    }
  }

  lemma CorrectionKeepsChosen(before: seq<Case>, after: seq<Case>, k: nat, f: Field, spec: Spec)
    requires Corrects(before, after, k, f)
    ensures SummaryOf(Reports(before)).size == SummaryOf(Reports(after)).size
    ensures NothingMissing(spec, before) ==> NothingMissing(spec, after)
    ensures SummaryOf(Reports(before)).overall <= SummaryOf(Reports(after)).overall
    ensures forall g: Field :: CriticalAccuracy(SummaryOf(Reports(before)), g) <= CriticalAccuracy(SummaryOf(Reports(after)), g)
  {
    CorrectionNeverHurts(before, after, k, f);
    var a, b := SummaryOf(Reports(before)), SummaryOf(Reports(after));
    assert forall g: Field :: AccuracyOf(a.accuracy, g) <= AccuracyOf(b.accuracy, g);
    forall id | id in spec.caseIds && NothingMissing(spec, before)
      ensures exists i | 0 <= i < |after| :: after[i].id == id
    {
      var i :| 0 <= i < |before| && before[i].id == id;
      assert after[i].id == id;
    }
  }

  /** A positive threshold on a field that is not critical is never met, however well the field does. */
  lemma UncriticalThresholdFails(spec: Spec, cases: seq<Case>, f: Field)
    requires f in spec.thresholds && f !in CRITICAL && spec.thresholds[f] > 0.0
    ensures !GatePasses(spec, cases)
  {
  }

  /** A gate selects the named cases, or those its test accepts, in dataset order and each once. */
  lemma {:induction false} SelectedExactly(spec: Spec, cases: seq<Case>) returns (at: seq<nat>)
    ensures |at| == |Selected(spec, cases)|
    ensures forall k | 0 <= k < |at| :: at[k] < |cases| && cases[at[k]] == Selected(spec, cases)[k]
    ensures forall j, k | 0 <= j < k < |at| :: at[j] < at[k]
    ensures forall i: nat | i < |cases| ::
              i in at <==> if spec.caseIds != [] then cases[i].id in spec.caseIds else spec.matches(cases[i].vendor, cases[i].about)
  {
    at := [];
    if cases != [] {
      var n := |cases| - 1;
      at := SelectedExactly(spec, cases[..n]);
      assert forall i | 0 <= i < n :: cases[..n][i] == cases[i];
      if Selects(spec, cases[n]) {
        at := at + [n];
      }
    }
  }

  /** The accuracy a threshold on this field sees: zero for the source, and for fields never compared. */
  function Seen(s: Summary, f: Field): nat {
    if f != SourceKind && f in s.accuracy then s.accuracy[f] else 0
  }

  predicate Named(cases: seq<Case>, id: string) {
    exists c | c in cases :: c.id == id
  }

  lemma NamedExactly(spec: Spec, cases: seq<Case>)
    ensures NothingMissing(spec, cases) <==> forall id | id in spec.caseIds :: Named(cases, id)
  {
    forall id | id in spec.caseIds ensures (exists i | 0 <= i < |cases| :: cases[i].id == id) <==> Named(cases, id) {
      if i :| 0 <= i < |cases| && cases[i].id == id {
        assert cases[i] in cases;
      }
    }
  }

  /** What passing takes, on the selected cases and their summary. */
  lemma GatePassesExactly(spec: Spec, cases: seq<Case>)
    ensures var chosen := Selected(spec, cases);
            var s := SummaryOf(Reports(chosen));
            GatePasses(spec, cases)
            <==> && chosen != [] && (forall id | id in spec.caseIds :: Named(chosen, id))
                 && s.overall as real >= 10000.0 * spec.minimumOverall
                 && (forall f | f in spec.thresholds :: Seen(s, f) as real >= 10000.0 * spec.thresholds[f])
  {
    var s := SummaryOf(Reports(Selected(spec, cases)));
    NamedExactly(spec, Selected(spec, cases));
    assert forall f: Field :: CriticalAccuracy(s, f) == Seen(s, f);
  }

  // ---------------------------------------------------------------------------
  // Vendor scorecards
  // ---------------------------------------------------------------------------

  function VendorKey(r: Report): string {
    if r.vendor == "" then "UNKNOWN" else r.vendor
  }

  /** The reports filed under a vendor name, in dataset order. */
  function OfVendor(reports: seq<Report>, name: string): seq<Report> {
    if reports == [] then []
    else
      var front := OfVendor(reports[..|reports| - 1], name);
      if VendorKey(reports[|reports| - 1]) == name then front + [reports[|reports| - 1]] else front
  }

  /** A report is filed under its own vendor, or under UNKNOWN when it has none. */
  lemma {:induction false} FiledExactly(reports: seq<Report>, name: string, r: Report)
    ensures r in OfVendor(reports, name) <==> r in reports && name == if r.vendor == "" then "UNKNOWN" else r.vendor
  {
    if reports != [] {
      var front, last := reports[..|reports| - 1], reports[|reports| - 1];
      FiledExactly(front, name, r);
      assert reports == front + [last];
    }
  }

  datatype VendorCard = VendorCard(name: string, members: seq<Report>, summary: Summary)

  function SumOver(names: seq<string>, reports: seq<Report>, m: Measure): nat {
    if names == [] then 0
    else SumOver(names[..|names| - 1], reports, m) + Tally(OfVendor(reports, names[|names| - 1]), m)
  }

  ghost predicate Distinct(names: seq<string>) {
    forall i, j | 0 <= i < j < |names| :: names[i] != names[j]
  }

  /** Every report is filed under one of the names. */
  ghost predicate Covers(names: seq<string>, reports: seq<Report>) {
    forall r | r in reports :: VendorKey(r) in names
  }

  lemma {:induction false} SumOverNothing(names: seq<string>, m: Measure)
    ensures SumOver(names, [], m) == 0
  {
    if names != [] {
      SumOverNothing(names[..|names| - 1], m);
    }
  }

  lemma {:induction false} SumOverOneMore(names: seq<string>, reports: seq<Report>, r: Report, m: Measure)
    requires Distinct(names)
    ensures SumOver(names, reports + [r], m) == SumOver(names, reports, m) + if VendorKey(r) in names then Amounting(m, r) else 0
  {
    assert (reports + [r])[..|reports|] == reports;
    if names != [] {
      SumOverOneMore(names[..|names| - 1], reports, r, m);
      var own := OfVendor(reports, names[|names| - 1]);
      assert (own + [r])[..|own|] == own;
    }
  }

  /** Distinct names that cover the dataset split every quantity into parts that add up to the whole. */
  lemma {:induction false} VendorsPartition(names: seq<string>, reports: seq<Report>, m: Measure)
    requires Distinct(names) && Covers(names, reports)
    ensures SumOver(names, reports, m) == Tally(reports, m)
  {
    if reports == [] {
      SumOverNothing(names, m);
    } else {
      var front, last := reports[..|reports| - 1], reports[|reports| - 1];
      assert reports == front + [last];
      assert last in reports && forall r | r in front :: r in reports;
      VendorsPartition(names, front, m);
      SumOverOneMore(names, front, last, m);
    }
  }

  method ScoreCases(cases: seq<Case>) returns (reports: seq<Report>)
    ensures reports == Reports(cases)
  {
    reports := [];
    for i := 0 to |cases|
      invariant reports == Reports(cases[..i])
    {
      var r := ScoreCase(cases[i]);
      reports := reports + [r];
    }
    assert cases[..|cases|] == cases;
  }

  /** The names found so far, and what is filed under each of them, for a list of reports. */
  ghost predicate Grouped(names: seq<string>, groups: map<string, seq<Report>>, reports: seq<Report>) {
    && Distinct(names)
    && (forall name :: name in names <==> name in groups)
    && (forall name | name in groups :: groups[name] == OfVendor(reports, name) && groups[name] != [])
    && (forall name | name !in groups :: OfVendor(reports, name) == [])
    && Covers(names, reports)
  }

  /** Filing one more report keeps the groups faithful. */
  lemma GroupedOneMore(names: seq<string>, groups: map<string, seq<Report>>, reports: seq<Report>, r: Report)
    requires Grouped(names, groups, reports)
    ensures var key := VendorKey(r);
            Grouped(if key in groups then names else names + [key],
                    groups[key := (if key in groups then groups[key] else []) + [r]],
                    reports + [r])
  {
    assert (reports + [r])[..|reports|] == reports;
  }

  method GroupByVendor(reports: seq<Report>) returns (names: seq<string>, groups: map<string, seq<Report>>)
    ensures Grouped(names, groups, reports)
  {
    names, groups := [], map[];
    for i := 0 to |reports|
      invariant Grouped(names, groups, reports[..i])
    {
      assert reports[..i + 1] == reports[..i] + [reports[i]];
      GroupedOneMore(names, groups, reports[..i], reports[i]);
      var key := VendorKey(reports[i]);
      var filed := if key in groups then groups[key] else [];
      names := if key in groups then names else names + [key];
      groups := groups[key := filed + [reports[i]]];
    }
    assert reports[..|reports|] == reports;
  }

  function Names(cards: seq<VendorCard>): (names: seq<string>)
    ensures |names| == |cards| && forall i | 0 <= i < |cards| :: names[i] == cards[i].name
  {
    seq(|cards|, i requires 0 <= i < |cards| => cards[i].name)
  }

  /** Each card holds exactly its vendor's reports, and the cards together split the dataset. */
  ghost predicate Partitions(cards: seq<VendorCard>, reports: seq<Report>) {
    && Distinct(Names(cards))
    && (forall i | 0 <= i < |cards| :: cards[i].members == OfVendor(reports, cards[i].name) && cards[i].members != [])
    && (forall i | 0 <= i < |cards| :: cards[i].summary == SummaryOf(cards[i].members))
    && Covers(Names(cards), reports)
    && (forall m: Measure :: SumOver(Names(cards), reports, m) == Tally(reports, m))
  }

  method SummarizeGroups(names: seq<string>, groups: map<string, seq<Report>>) returns (cards: seq<VendorCard>)
    requires forall name | name in names :: name in groups
    ensures |cards| == |names|
    ensures forall k | 0 <= k < |names| ::
              cards[k] == VendorCard(names[k], groups[names[k]], SummaryOf(groups[names[k]]))
  {
    cards := [];
    for i := 0 to |names|
      invariant |cards| == i
      invariant forall k | 0 <= k < i ::
                  cards[k] == VendorCard(names[k], groups[names[k]], SummaryOf(groups[names[k]]))
    {
      var summary := Summarize(groups[names[i]]);
      cards := cards + [VendorCard(names[i], groups[names[i]], summary)];
    }
  }

  /** Scores every case, summarises the dataset, and files each report under its vendor. */
  method EvaluateCases(cases: seq<Case>) returns (reports: seq<Report>, base: Summary, cards: seq<VendorCard>)
    ensures reports == Reports(cases) && base == SummaryOf(reports) && Partitions(cards, reports)
  {
    reports := ScoreCases(cases);
    base := Summarize(reports);
    var names, groups := GroupByVendor(reports);
    cards := SummarizeGroups(names, groups);
    assert Names(cards) == names;
    forall m: Measure ensures SumOver(names, reports, m) == Tally(reports, m) {
      VendorsPartition(names, reports, m);
    }
  }
}
