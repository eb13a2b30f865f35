// Combining tamper signals (src/authenticity/signals.ts). Numbers are exact reals.
module Tamper {

  datatype Severity = Info | Low | Medium | High

  datatype Signal = Signal(code: string, severity: Severity, detail: string)

  datatype Verdict = Clean | Suspicious | LikelyDoctored | Inconclusive

  datatype Analyzer = Pdf | Image | Unsupported

  datatype Report = Report(verdict: Verdict, score: real, signals: seq<Signal>, analyzer: Analyzer)

  function Weight(s: Severity): real {
    match s
    case Info => 0.0
    case Low => 0.15
    case Medium => 0.4
    case High => 0.8
  }

  // The product the reduce computes: the chance that no signal is right.
  function Unsuspected(signals: seq<Signal>): real {
    if signals == [] then 1.0
    else Unsuspected(signals[..|signals| - 1]) * (1.0 - Weight(signals[|signals| - 1].severity))
  }

  function Thousandths(x: real): int {
    (1000.0 * x + 0.5).Floor
  }

  // `toFixed(3)`: to the nearest thousandth, halves upward.
  function Round3(x: real): real {
    Thousandths(x) as real / 1000.0
  }

  function Score(signals: seq<Signal>): real {
    Round3(1.0 - Unsuspected(signals))
  }

  predicate Has(signals: seq<Signal>, severity: Severity) {
    exists s :: s in signals && s.severity == severity
  }

  function VerdictFor(signals: seq<Signal>, score: real): Verdict {
    if Has(signals, High) then LikelyDoctored
    else if Has(signals, Medium) || score >= 0.35 then Suspicious
    else Clean
  }

  function Aggregate(analyzer: Analyzer, signals: seq<Signal>): Report {
    var score := Score(signals);
    Report(if analyzer.Unsupported? then Inconclusive else VerdictFor(signals, score), score, signals, analyzer)
  }

  // ---- the product ----

  lemma {:induction false} UnsuspectedBounds(signals: seq<Signal>)
    ensures 0.0 < Unsuspected(signals) <= 1.0
  {
    if signals != [] { UnsuspectedBounds(signals[..|signals| - 1]); }
  }

  lemma OneMore(xs: seq<Signal>, x: Signal)
    ensures Unsuspected(xs + [x]) == Unsuspected(xs) * (1.0 - Weight(x.severity))
  {
    assert (xs + [x])[..|xs|] == xs;
  }

  lemma SwapFactors(a: real, p: real, q: real)
    ensures a * p * q == a * q * p
  {
  }

  // A signal contributes the same factor wherever it stands.
  lemma {:induction false} FactorOut(xs: seq<Signal>, x: Signal, ys: seq<Signal>)
    ensures Unsuspected(xs + [x] + ys) == Unsuspected(xs + ys) * (1.0 - Weight(x.severity))
  {
    if ys == [] {
      assert xs + [x] + ys == xs + [x] && xs + ys == xs;
      OneMore(xs, x);
    } else {
      var init, y := ys[..|ys| - 1], ys[|ys| - 1];
      assert xs + [x] + ys == (xs + [x] + init) + [y] && xs + ys == (xs + init) + [y];
      OneMore(xs + [x] + init, y);
      OneMore(xs + init, y);
      FactorOut(xs, x, init);
      SwapFactors(Unsuspected(xs + init), 1.0 - Weight(x.severity), 1.0 - Weight(y.severity));
    }
  }

  function Count(signals: seq<Signal>, severity: Severity): nat {
    if signals == [] then 0
    else Count(signals[..|signals| - 1], severity) + if signals[|signals| - 1].severity == severity then 1 else 0
  }

  function Power(base: real, n: nat): real {
    if n == 0 then 1.0 else Power(base, n - 1) * base
  }

  function Product(lows: nat, mediums: nat, highs: nat): real {
    Power(0.85, lows) * (Power(0.6, mediums) * Power(0.2, highs))
  }

  lemma ProductSteps(lows: nat, mediums: nat, highs: nat)
    ensures Product(lows + 1, mediums, highs) == Product(lows, mediums, highs) * 0.85
    ensures Product(lows, mediums + 1, highs) == Product(lows, mediums, highs) * 0.6
    ensures Product(lows, mediums, highs + 1) == Product(lows, mediums, highs) * 0.2
  {
    var a, b, c := Power(0.85, lows), Power(0.6, mediums), Power(0.2, highs);
    SwapFactors(a, 0.85, b * c);
    assert b * 0.6 * c == b * c * 0.6 by { SwapFactors(b, 0.6, c); }
    assert b * (c * 0.2) == b * c * 0.2;
    assert a * (b * c * 0.6) == a * (b * c) * 0.6 && a * (b * c * 0.2) == a * (b * c) * 0.2;
  }

  // Only how many signals there are of each severity matters.
  lemma {:induction false} ProductOfCounts(signals: seq<Signal>)
    ensures Unsuspected(signals) == Product(Count(signals, Low), Count(signals, Medium), Count(signals, High))
  {
    if signals != [] {
      var init := signals[..|signals| - 1];
      ProductOfCounts(init);
      ProductSteps(Count(init, Low), Count(init, Medium), Count(init, High));
    }
  }

  lemma {:induction false} HasIffCounted(signals: seq<Signal>, severity: Severity)
    ensures Has(signals, severity) <==> Count(signals, severity) > 0
  {
    if signals != [] {
      var init, last := signals[..|signals| - 1], signals[|signals| - 1];
      HasIffCounted(init, severity);
      assert forall s :: s in signals <==> s in init || s == last;
    }
  }

  lemma FloorMonotone(x: real, y: real)
    requires x <= y
    ensures x.Floor <= y.Floor
  {
  }

  lemma RoundMonotone(x: real, y: real)
    requires x <= y
    ensures Round3(x) <= Round3(y)
  {
    FloorMonotone(1000.0 * x + 0.5, 1000.0 * y + 0.5);
    assert Thousandths(x) <= Thousandths(y);
  }

  // ---- the report ----

  // Any signal above `info` leaves a doubt of at least 0.15.
  lemma OneSuspects(signals: seq<Signal>, i: nat)
    requires i < |signals| && !signals[i].severity.Info?
    ensures Unsuspected(signals) <= 0.85
  {
    var before, after := signals[..i], signals[i + 1..];
    assert signals == before + [signals[i]] + after;
    FactorOut(before, signals[i], after);
    UnsuspectedBounds(before + after);
  }

  lemma {:induction false} InfoIsNeutral(signals: seq<Signal>)
    requires forall i :: 0 <= i < |signals| ==> signals[i].severity.Info?
    ensures Unsuspected(signals) == 1.0
  {
    if signals != [] { InfoIsNeutral(signals[..|signals| - 1]); }
  }

  lemma ScoreInUnit(signals: seq<Signal>)
    ensures 0.0 <= Score(signals) <= 1.0
    ensures Score(signals) == 0.0 <==> forall i :: 0 <= i < |signals| ==> signals[i].severity.Info?
  {
    UnsuspectedBounds(signals);
    RoundMonotone(0.0, 1.0 - Unsuspected(signals));
    RoundMonotone(1.0 - Unsuspected(signals), 1.0);
    if i :| 0 <= i < |signals| && !signals[i].severity.Info? {
      OneSuspects(signals, i);
      RoundMonotone(0.15, 1.0 - Unsuspected(signals));
    } else {
      InfoIsNeutral(signals);
    }
  }

  // The order in which signals were found does not matter, nor anything but their severities.
  lemma ReportIgnoresOrder(analyzer: Analyzer, xs: seq<Signal>, ys: seq<Signal>)
    requires forall s: Severity :: Count(xs, s) == Count(ys, s)
    ensures Aggregate(analyzer, xs).score == Aggregate(analyzer, ys).score
    ensures Aggregate(analyzer, xs).verdict == Aggregate(analyzer, ys).verdict
  {
    ProductOfCounts(xs);
    ProductOfCounts(ys);
    assert Count(xs, Low) == Count(ys, Low);
    assert Count(xs, Medium) == Count(ys, Medium) && Count(xs, High) == Count(ys, High);
    HasIffCounted(xs, High);
    HasIffCounted(ys, High);
    HasIffCounted(xs, Medium);
    HasIffCounted(ys, Medium);
  }

  function Suspicion(v: Verdict): nat {
    match v
    case Inconclusive => 0
    case Clean => 0
    case Suspicious => 1
    case LikelyDoctored => 2
  }

  // More evidence, wherever it is inserted, never lowers the score or softens the verdict.
  lemma MoreSignalsMoreSuspicion(analyzer: Analyzer, xs: seq<Signal>, x: Signal, ys: seq<Signal>)
    ensures var before, after := Aggregate(analyzer, xs + ys), Aggregate(analyzer, xs + [x] + ys);
      && before.score <= after.score
      && Suspicion(before.verdict) <= Suspicion(after.verdict)
      && (before.verdict.Inconclusive? <==> after.verdict.Inconclusive?)
  {
    FactorOut(xs, x, ys);
    UnsuspectedBounds(xs + ys);
    RoundMonotone(1.0 - Unsuspected(xs + ys), 1.0 - Unsuspected(xs + [x] + ys));
    forall s | s in xs + ys ensures s in xs + [x] + ys {}
  }

  // ---- weak signals ----

  predicate OnlyWeak(signals: seq<Signal>) {
    forall i :: 0 <= i < |signals| ==> signals[i].severity.Info? || signals[i].severity.Low?
  }

  lemma {:induction false} WeakCounts(signals: seq<Signal>)
    requires OnlyWeak(signals)
    ensures Count(signals, Medium) == 0 && Count(signals, High) == 0
  {
    if signals != [] { WeakCounts(signals[..|signals| - 1]); }
  }

  lemma {:induction false} LowsFall(n: nat)
    ensures n >= 3 ==> 0.0 < Power(0.85, n) <= 0.614125
    ensures n <= 2 ==> Power(0.85, n) >= 0.7225
  {
    if n > 3 {
      LowsFall(n - 1);
    } else if n > 0 {
      assert Power(0.85, 1) == 0.85 && Power(0.85, 2) == 0.7225;
    }
  }

  // Weak signals alone raise suspicion exactly from the third `low` on, and never more than that.
  lemma WeakSuspiciousIff(signals: seq<Signal>)
    requires OnlyWeak(signals)
    ensures VerdictFor(signals, Score(signals)) == if Count(signals, Low) >= 3 then Suspicious else Clean
  {
    WeakCounts(signals);
    ProductOfCounts(signals);
    HasIffCounted(signals, High);
    HasIffCounted(signals, Medium);
    LowsFall(Count(signals, Low));
    var doubt := 1.0 - Unsuspected(signals);
    if Count(signals, Low) >= 3 { RoundMonotone(0.385875, doubt); } else { RoundMonotone(doubt, 0.2775); }
  }

  // ---- what the report says ----

  lemma RoundedToThousandth(x: real)
    ensures x - 0.0005 <= Round3(x) <= x + 0.0005
    ensures (1000.0 * Round3(x)).Floor as real == 1000.0 * Round3(x)
  {
    assert 1000.0 * Round3(x) == Thousandths(x) as real;
  }

  // The score is one minus the chance that every signal is wrong, to the nearest thousandth.
  lemma ScoreIsNoisyOr(signals: seq<Signal>)
    ensures var doubt := 1.0 - Product(Count(signals, Low), Count(signals, Medium), Count(signals, High));
      doubt - 0.0005 <= Score(signals) <= doubt + 0.0005
    ensures (1000.0 * Score(signals)).Floor as real == 1000.0 * Score(signals)
  {
    ProductOfCounts(signals);
    RoundedToThousandth(1.0 - Unsuspected(signals));
  }

  // A `high` signal alone makes a document likely doctored, a `medium` one or a score of 0.35
  // suspicious; where nothing can analyse it, the report is inconclusive. It carries all signals.
  lemma VerdictIff(analyzer: Analyzer, signals: seq<Signal>)
    ensures var r := Aggregate(analyzer, signals);
      var high := exists i :: 0 <= i < |signals| && signals[i].severity == High;
      var medium := exists i :: 0 <= i < |signals| && signals[i].severity == Medium;
      && (r.verdict == Inconclusive <==> analyzer == Unsupported)
      && (r.verdict == LikelyDoctored <==> analyzer != Unsupported && high)
      && (r.verdict == Suspicious <==> analyzer != Unsupported && !high && (medium || Score(signals) >= 0.35))
      && r.score == Score(signals) && r.signals == signals && r.analyzer == analyzer
  {
    forall severity: Severity
      ensures Has(signals, severity) <==> exists i :: 0 <= i < |signals| && signals[i].severity == severity
    {
      if i :| 0 <= i < |signals| && signals[i].severity == severity { assert signals[i] in signals; }
    }
  }
}
