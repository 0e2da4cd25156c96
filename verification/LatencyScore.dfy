/**
 Scores of the fixed-rate profiles: CPU cost and two latency tails, each set
 against the best value in the field, times the share of the rate that was held.

 Numbers are exact reals, and the logarithm is any function that is 0 at 1,
 positive above 1 and never decreasing from 1 on.
 */
module LatencyScore {
  import opened Basics

  const W_CPU := 0.60
  const W_P99 := 0.25
  const W_P999 := 0.15
  const DECADES := 3.0

  /** The rate that earns full credit; only these profiles are scored this way. */
  function FullRate(profile: string): Option<real> {
    if profile == "latency-1m" then Some(950000.0)
    else if profile == "latency-10k" then Some(9500.0)
    else if profile == "8gbit" then Some(47500.0)
    else None
  }

  lemma FullRatePositive(profile: string)
    ensures FullRate(profile).Some? ==> FullRate(profile).value > 0.0
  {
  }

  ghost predicate LogLike(lg: real -> real) {
    && lg(1.0) == 0.0
    && (forall x :: x > 1.0 ==> lg(x) > 0.0)
    && (forall x, y :: 1.0 <= x <= y ==> lg(x) <= lg(y))
  }

  datatype Measure = Cpu | P99 | P999

  datatype Sample = Sample(rps: real, cpu: Option<real>, p99: Option<real>, p999: Option<real>) {
    function Get(m: Measure): Option<real> {
      match m case Cpu => cpu case P99 => p99 case P999 => p999
    }
  }

  datatype Marks = Marks(rateFactor: real, cpuScore: real, p99Score: real, p999Score: real, score: real)

  function Clamp(v: real): real {
    if v < 0.0 then 0.0 else if v > 1.0 then 1.0 else v
  }

  function RateFactor(rps: real, full: real): real
    requires full > 0.0
  {
    Clamp(rps / full)
  }

  predicate Usable(v: Option<real>) {
    v.Some? && v.value > 0.0
  }

  function LinearScore(value: Option<real>, best: Option<real>): real {
    if !Usable(value) || !Usable(best) then 0.0 else Clamp(best.value / value.value)
  }

  function DecadeScore(lg: real -> real, value: Option<real>, best: Option<real>): real {
    if !Usable(value) || !Usable(best) then 0.0
    else
      var v := if value.value > best.value then value.value else best.value;
      Clamp(1.0 - lg(v / best.value) / DECADES)
  }

  function MeasureScore(lg: real -> real, m: Measure, value: Option<real>, best: Option<real>): real {
    if m.Cpu? then LinearScore(value, best) else DecadeScore(lg, value, best)
  }

  /** The least value present in the field; zero counts as absent. */
  function Best(field: seq<Sample>, m: Measure): Option<real> {
    if field == [] then None
    else
      var rest, v := Best(field[..|field| - 1], m), field[|field| - 1].Get(m);
      if v.None? || v.value == 0.0 then rest
      else if rest.None? || v.value < rest.value then v
      else rest
  }

  function Quality(cpu: real, p99: real, p999: real): real {
    W_CPU * cpu + W_P99 * p99 + W_P999 * p999
  }

  function Weigh(rate: real, cpu: real, p99: real, p999: real): real {
    100.0 * rate * Quality(cpu, p99, p999)
  }

  function Mark(lg: real -> real, field: seq<Sample>, r: Sample, full: real): Marks
    requires full > 0.0
  {
    var rate := RateFactor(r.rps, full);
    var cpu := LinearScore(r.cpu, Best(field, Cpu));
    var p99 := DecadeScore(lg, r.p99, Best(field, P99));
    var p999 := DecadeScore(lg, r.p999, Best(field, P999));
    Marks(rate, cpu, p99, p999, Weigh(rate, cpu, p99, p999))
  }

  function Score(lg: real -> real, field: seq<Sample>, r: Sample, full: real): real
    requires full > 0.0
  {
    Mark(lg, field, r, full).score
  }

  // ---- Scoring a board in place --------------------------------------------------

  datatype Row = Row(sample: Sample, marks: Option<Marks>)

  function Samples(rows: seq<Row>): (r: seq<Sample>)
    ensures |r| == |rows|
  {
    seq(|rows|, i requires 0 <= i < |rows| => rows[i].sample)
  }

  method BestOf(rows: array<Row>, m: Measure) returns (best: Option<real>)
    ensures best == Best(Samples(rows[..]), m)
  {
    best := None;
    for i := 0 to rows.Length
      invariant best == Best(Samples(rows[..i]), m)
    {
      assert Samples(rows[..i + 1])[..i] == Samples(rows[..i]);
      var v := rows[i].sample.Get(m);
      if v.Some? && v.value != 0.0 {
        if best.None? || v.value < best.value {
          best := v;
        }
      }
    }
    assert rows[..rows.Length] == rows[..];
  }

  /** Every row gets its marks against the bests of the rows given; nothing else changes. */
  method ScoreRows(lg: real -> real, rows: array<Row>, full: real)
    requires full > 0.0
    modifies rows
    ensures forall i :: 0 <= i < rows.Length ==>
      rows[i] == Row(old(rows[i].sample), Some(Mark(lg, Samples(old(rows[..])), old(rows[i].sample), full)))
  {
    hide RateFactor, LinearScore, DecadeScore, Best, Weigh;
    ghost var field := Samples(rows[..]);
    var bestCpu := BestOf(rows, Cpu);
    var bestP99 := BestOf(rows, P99);
    var bestP999 := BestOf(rows, P999);
    for i := 0 to rows.Length
      invariant forall k :: 0 <= k < i ==>
        rows[k] == Row(old(rows[k].sample), Some(Mark(lg, field, old(rows[k].sample), full)))
      invariant forall k :: i <= k < rows.Length ==> rows[k] == old(rows[k])
    {
      var r := rows[i].sample;
      var rate, cpu := RateFactor(r.rps, full), LinearScore(r.cpu, bestCpu);
      var p99, p999 := DecadeScore(lg, r.p99, bestP99), DecadeScore(lg, r.p999, bestP999);
      rows[i] := Row(r, Some(Marks(rate, cpu, p99, p999, Weigh(rate, cpu, p99, p999))));
    }
  }

  // ---- Picking the best of several runs -------------------------------------------

  /** What one run left on disk. */
  datatype RunFiles = RunFiles(
    run: nat, rps: real, requests: real, cpuUsec: real, p99: Option<real>, p999: Option<real>)

  function Measured(f: RunFiles): Sample {
    var cpu := if f.requests > 0.0 && f.cpuUsec > 0.0 then Some(f.cpuUsec / f.requests) else None;
    Sample(f.rps, cpu, f.p99, f.p999)
  }

  function Field(files: seq<RunFiles>): (r: seq<Sample>)
    ensures |r| == |files|
  {
    seq(|files|, i requires 0 <= i < |files| => Measured(files[i]))
  }

  /** `max(..., key=lambda r: (r["score"], r["rps"]))` compares these. */
  predicate Above(scoreB: real, rpsB: real, scoreA: real, rpsA: real) {
    scoreB > scoreA || (scoreB == scoreA && rpsB > rpsA)
  }

  /** Run b is ahead of run a: a higher score, or the same score at a higher rate. */
  predicate Ahead(lg: real -> real, files: seq<RunFiles>, full: real, b: nat, a: nat)
    requires full > 0.0 && a < |files| && b < |files|
  {
    var field := Field(files);
    Above(Score(lg, field, field[b], full), files[b].rps, Score(lg, field, field[a], full), files[a].rps)
  }

  /** The first run that no run is ahead of. */
  ghost predicate IsPick(lg: real -> real, files: seq<RunFiles>, full: real, best: nat)
    requires full > 0.0
  {
    && best < |files|
    && (forall i: nat :: i < |files| ==> !Ahead(lg, files, full, i, best))
    && (forall i: nat :: i < best ==> Ahead(lg, files, full, best, i))
  }

  /** The position of the first row with the greatest (score, rps). */
  method FirstMax(rows: array<Row>) returns (best: nat)
    requires rows.Length > 0 && forall i :: 0 <= i < rows.Length ==> rows[i].marks.Some?
    ensures best < rows.Length
    ensures forall i :: 0 <= i < rows.Length ==>
      !Above(rows[i].marks.value.score, rows[i].sample.rps, rows[best].marks.value.score, rows[best].sample.rps)
    ensures forall i :: 0 <= i < best ==>
      Above(rows[best].marks.value.score, rows[best].sample.rps, rows[i].marks.value.score, rows[i].sample.rps)
  {
    best := 0;
    for n := 1 to rows.Length
      invariant best < n
      invariant forall i :: 0 <= i < n ==>
        !Above(rows[i].marks.value.score, rows[i].sample.rps, rows[best].marks.value.score, rows[best].sample.rps)
      invariant forall i :: 0 <= i < best ==>
        Above(rows[best].marks.value.score, rows[best].sample.rps, rows[i].marks.value.score, rows[i].sample.rps)
    {
      if Above(rows[n].marks.value.score, rows[n].sample.rps, rows[best].marks.value.score, rows[best].sample.rps) {
        best := n;
      }
    }
  }

  method Pick(lg: real -> real, files: seq<RunFiles>, full: real) returns (run: Option<nat>)
    requires full > 0.0
    ensures run.None? <==> files == []
    ensures run.Some? ==> exists best: nat :: IsPick(lg, files, full, best) && run.value == files[best].run
  {
    hide Mark, Measured, Above;
    var list: seq<Row> := [];
    for i := 0 to |files|
      invariant |list| == i
      invariant forall k :: 0 <= k < i ==> list[k] == Row(Measured(files[k]), None)
    {
      list := list + [Row(Measured(files[i]), None)];
    }
    if list == [] {
      return None;
    }
    var rows := new Row[|list|](i requires 0 <= i < |list| => list[i]);
    assert rows[..] == list;
    assert Samples(rows[..]) == Field(files);
    ScoreRows(lg, rows, full);
    assert forall k :: 0 <= k < |files| ==>
      rows[k] == Row(Field(files)[k], Some(Mark(lg, Field(files), Field(files)[k], full)));
    var best := FirstMax(rows);
    RpsKept(files);
    forall i: nat | i < |files| ensures !Ahead(lg, files, full, i, best) {
      assert rows[i].sample == Field(files)[i];
    }
    forall i: nat | i < best ensures Ahead(lg, files, full, best, i) {
      assert rows[i].sample == Field(files)[i];
    }
    assert IsPick(lg, files, full, best);
    run := Some(files[best].run);
  }

  lemma RpsKept(files: seq<RunFiles>)
    ensures forall i :: 0 <= i < |files| ==> Field(files)[i].rps == files[i].rps
  {
  }

  // ---- What the scores promise -----------------------------------------------------

  lemma {:induction false} BestIsLeast(field: seq<Sample>, m: Measure, i: nat)
    requires i < |field| && field[i].Get(m).Some? && field[i].Get(m).value != 0.0
    ensures Best(field, m).Some? && Best(field, m).value <= field[i].Get(m).value
  {
    var front := field[..|field| - 1];
    if i < |front| {
      BestIsLeast(front, m, i);
    }
  }

  lemma {:induction false} BestIsPresent(field: seq<Sample>, m: Measure) returns (i: nat)
    requires Best(field, m).Some?
    ensures i < |field| && field[i].Get(m) == Best(field, m) && Best(field, m).value != 0.0
  {
    var front, v := field[..|field| - 1], field[|field| - 1].Get(m);
    if Best(front, m) == Best(field, m) {
      i := BestIsPresent(front, m);
    } else {
      i := |field| - 1;
    }
  }

  lemma DivideMonotone(a: real, b: real, c: real)
    requires a <= b && c > 0.0
    ensures a / c <= b / c
  {
  }

  lemma DivideAntitone(a: real, b: real, c: real)
    requires 0.0 < a <= b && c > 0.0
    ensures c / b <= c / a
  {
    assert c / b * b == c && c / a * a == c;
    assert c / b * a <= c / b * b;
  }

  lemma DivideStrictly(a: real, b: real, c: real)
    requires a < b && c > 0.0
    ensures a / c < b / c
  {
  }

  lemma DivideByItself(a: real)
    requires a > 0.0
    ensures a / a == 1.0
  {
  }

  lemma MeasureInUnit(lg: real -> real, m: Measure, value: Option<real>, best: Option<real>)
    ensures 0.0 <= MeasureScore(lg, m, value, best) <= 1.0
  {
  }

  /** A measure earns everything exactly when it is present and is the field's best. */
  lemma FullMarkIffBest(lg: real -> real, m: Measure, value: Option<real>, best: Option<real>)
    requires LogLike(lg) && (Usable(value) ==> best.Some? && best.value <= value.value)
    ensures MeasureScore(lg, m, value, best) == 1.0 <==> Usable(value) && value == best
  {
    if Usable(value) && Usable(best) {
      var q := value.value / best.value;
      DivideMonotone(best.value, value.value, best.value);
      DivideByItself(value.value);
      DivideByItself(best.value);
      if value.value > best.value {
        DivideStrictly(best.value, value.value, best.value);
        DivideStrictly(best.value, value.value, value.value);
        assert lg(q) > 0.0;
      }
    }
  }

  /** A smaller value never earns less. */
  lemma MeasureMonotone(lg: real -> real, m: Measure, a: Option<real>, b: Option<real>, best: Option<real>)
    requires LogLike(lg) && (Usable(b) ==> Usable(a) && a.value <= b.value)
    ensures MeasureScore(lg, m, a, best) >= MeasureScore(lg, m, b, best)
  {
    if Usable(b) && Usable(best) {
      DivideAntitone(a.value, b.value, best.value);
      var t := best.value;
      var x, y := if a.value > t then a.value else t, if b.value > t then b.value else t;
      DivideByItself(t);
      DivideMonotone(t, x, t);
      DivideMonotone(x, y, t);
      var p, q := x / t, y / t;
      assert 1.0 <= p <= q && lg(p) <= lg(q);
    }
  }

  /** A better best never earns anybody more. */
  lemma BetterBestNeverHelps(lg: real -> real, m: Measure, value: Option<real>, best: Option<real>,
      better: Option<real>)
    requires LogLike(lg) && (Usable(value) ==> best.Some? && best.value <= value.value)
    requires best.Some? ==> better.Some? && better.value <= best.value
    ensures MeasureScore(lg, m, value, better) <= MeasureScore(lg, m, value, best)
  {
    if Usable(value) && Usable(best) && Usable(better) {
      var v, b, t := value.value, best.value, better.value;
      DivideMonotone(t, b, v);
      DivideAntitone(t, b, v);
      DivideMonotone(b, v, b);
      DivideByItself(b);
      var p, q := v / b, v / t;
      assert 1.0 <= p <= q && lg(p) <= lg(q);
    }
  }

  /** The weighted sum grows with each of its three parts, and stays only if all do. */
  lemma QualityMonotone(c: real, p: real, q: real, c': real, p': real, q': real)
    requires 0.0 <= c <= c' <= 1.0 && 0.0 <= p <= p' <= 1.0 && 0.0 <= q <= q' <= 1.0
    ensures 0.0 <= Quality(c, p, q) <= Quality(c', p', q') <= 1.0
    ensures Quality(c, p, q) == Quality(c', p', q') <==> c == c' && p == p' && q == q'
  {
  }

  lemma WeightedMonotone(rate: real, c: real, p: real, q: real, rate': real, c': real, p': real, q': real)
    requires 0.0 <= rate <= rate' <= 1.0
    requires 0.0 <= c <= c' <= 1.0 && 0.0 <= p <= p' <= 1.0 && 0.0 <= q <= q' <= 1.0
    ensures 0.0 <= Weigh(rate, c, p, q) <= Weigh(rate', c', p', q') <= 100.0
  {
    hide Weigh, Quality;
    QualityMonotone(c, p, q, c', p', q');
    var x, y := Quality(c, p, q), Quality(c', p', q');
    ProductMonotone(rate, x, rate', y);
    ProductMonotone(rate', y, 1.0, 1.0);
    WeighIsScaled(rate, c, p, q);
    WeighIsScaled(rate', c', p', q');
  }

  /** At one rate the score stays exactly if the rate is zero or all three marks stay. */
  lemma WeighedAlikeIff(rate: real, c: real, p: real, q: real, c': real, p': real, q': real)
    requires 0.0 <= rate
    requires 0.0 <= c <= c' <= 1.0 && 0.0 <= p <= p' <= 1.0 && 0.0 <= q <= q' <= 1.0
    ensures Weigh(rate, c, p, q) == Weigh(rate, c', p', q') <==> rate == 0.0 || (c == c' && p == p' && q == q')
  {
    hide Weigh, Quality;
    QualityMonotone(c, p, q, c', p', q');
    WeighIsScaled(rate, c, p, q);
    WeighIsScaled(rate, c', p', q');
    CancelFactor(rate, Quality(c, p, q), Quality(c', p', q'));
  }

  lemma CancelFactor(a: real, x: real, y: real)
    ensures a * x == a * y <==> a == 0.0 || x == y
  {
    assert a * x - a * y == a * (x - y);
  }

  lemma WeighIsScaled(rate: real, c: real, p: real, q: real)
    ensures Weigh(rate, c, p, q) == 100.0 * (rate * Quality(c, p, q))
  {
  }

  lemma ProductMonotone(a: real, x: real, b: real, y: real)
    requires 0.0 <= a <= b && 0.0 <= x <= y
    ensures 0.0 <= a * x <= b * y
  {
    assert a * x <= a * y <= b * y;
  }

  lemma WeightedFull(rate: real, c: real, p: real, q: real)
    requires 0.0 <= rate <= 1.0 && 0.0 <= c <= 1.0 && 0.0 <= p <= 1.0 && 0.0 <= q <= 1.0
    ensures Weigh(rate, c, p, q) == 100.0 <==> rate == 1.0 && c == 1.0 && p == 1.0 && q == 1.0
  {
    assert Quality(1.0, 1.0, 1.0) == 1.0;
    hide Weigh, Quality;
    QualityMonotone(c, p, q, 1.0, 1.0, 1.0);
    WeighIsScaled(rate, c, p, q);
    ProductOne(rate, Quality(c, p, q));
  }

  lemma ProductOne(a: real, x: real)
    requires 0.0 <= a <= 1.0 && 0.0 <= x <= 1.0
    ensures a * x == 1.0 <==> a == 1.0 && x == 1.0
  {
    ProductMonotone(a, x, a, 1.0);
    ProductMonotone(a, x, 1.0, x);
  }

  lemma MarksInUnit(lg: real -> real, field: seq<Sample>, r: Sample)
    ensures 0.0 <= LinearScore(r.cpu, Best(field, Cpu)) <= 1.0
    ensures 0.0 <= DecadeScore(lg, r.p99, Best(field, P99)) <= 1.0
    ensures 0.0 <= DecadeScore(lg, r.p999, Best(field, P999)) <= 1.0
  {
    MeasureInUnit(lg, Cpu, r.cpu, Best(field, Cpu));
    MeasureInUnit(lg, P99, r.p99, Best(field, P99));
    MeasureInUnit(lg, P999, r.p999, Best(field, P999));
  }

  lemma RateInUnit(rps: real, full: real)
    requires full > 0.0
    ensures 0.0 <= RateFactor(rps, full) <= 1.0
  {
  }

  /** Every score lies between 0 and 100. */
  lemma ScoreInRange(lg: real -> real, field: seq<Sample>, r: Sample, full: real)
    requires full > 0.0
    ensures 0.0 <= Score(lg, field, r, full) <= 100.0
  {
    hide RateFactor, LinearScore, DecadeScore, Best, Weigh;
    MarksInUnit(lg, field, r);
    RateInUnit(r.rps, full);
    var k := Mark(lg, field, r, full);
    WeightedMonotone(k.rateFactor, k.cpuScore, k.p99Score, k.p999Score,
      k.rateFactor, k.cpuScore, k.p99Score, k.p999Score);
  }

  predicate IsFieldBest(field: seq<Sample>, r: Sample, m: Measure) {
    Usable(r.Get(m)) && r.Get(m) == Best(field, m)
  }

  lemma FullMarkIffFieldBest(lg: real -> real, field: seq<Sample>, i: nat, m: Measure)
    requires LogLike(lg) && i < |field|
    ensures MeasureScore(lg, m, field[i].Get(m), Best(field, m)) == 1.0 <==> IsFieldBest(field, field[i], m)
  {
    var value := field[i].Get(m);
    if Usable(value) {
      BestIsLeast(field, m, i);
    }
    FullMarkIffBest(lg, m, value, Best(field, m));
  }

  /** 100 is for the entry that holds the full rate and is best at all three measures. */
  lemma PerfectIffBestAtAll(lg: real -> real, field: seq<Sample>, i: nat, full: real)
    requires LogLike(lg) && full > 0.0 && i < |field|
    ensures Score(lg, field, field[i], full) == 100.0 <==>
      && field[i].rps >= full
      && IsFieldBest(field, field[i], Cpu) && IsFieldBest(field, field[i], P99) && IsFieldBest(field, field[i], P999)
  {
    hide RateFactor, LinearScore, DecadeScore, Best, Weigh, IsFieldBest, LogLike;
    var r := field[i];
    MarksInUnit(lg, field, r);
    FullRateIff(r.rps, full);
    FullMarkIffFieldBest(lg, field, i, Cpu);
    FullMarkIffFieldBest(lg, field, i, P99);
    FullMarkIffFieldBest(lg, field, i, P999);
    var k := Mark(lg, field, r, full);
    WeightedFull(k.rateFactor, k.cpuScore, k.p99Score, k.p999Score);
  }

  lemma RateMonotone(a: real, b: real, full: real)
    requires full > 0.0 && a <= b
    ensures 0.0 <= RateFactor(a, full) <= RateFactor(b, full) <= 1.0
  {
    DivideMonotone(a, b, full);
  }

  lemma FullRateIff(rps: real, full: real)
    requires full > 0.0
    ensures 0.0 <= RateFactor(rps, full) <= 1.0 && (RateFactor(rps, full) == 1.0 <==> rps >= full)
  {
    assert rps / full * full == rps;
    if rps >= full {
      DivideMonotone(full, rps, full);
    } else {
      assert rps / full < 1.0;
    }
  }

  // ---- What the numbers are ---------------------------------------------------------

  /** The three profiles, and the rates that earn full credit on them. */
  lemma FullCreditIff(rps: real)
    ensures forall profile :: FullRate(profile).Some? <==> profile in ["latency-1m", "latency-10k", "8gbit"]
    ensures RateFactor(rps, FullRate("latency-1m").value) == 1.0 <==> rps >= 950000.0
    ensures RateFactor(rps, FullRate("latency-10k").value) == 1.0 <==> rps >= 9500.0
    ensures RateFactor(rps, FullRate("8gbit").value) == 1.0 <==> rps >= 47500.0
  {
    hide RateFactor;
    FullRateIff(rps, 950000.0);
    FullRateIff(rps, 9500.0);
    FullRateIff(rps, 47500.0);
  }

  /** Below the full rate the factor is the share of it that was served. */
  lemma RateIsTheShare(rps: real, full: real)
    requires 0.0 <= rps <= full && full > 0.0
    ensures RateFactor(rps, full) * full == rps
  {
    DivideMonotone(rps, full, full);
    DivideByItself(full);
    assert rps / full * full == rps;
  }

  /** Twice the best cost is half the mark. */
  lemma CostIsInverse(value: real, best: real)
    requires 0.0 < best <= value
    ensures LinearScore(Some(value), Some(best)) * value == best
  {
    DivideMonotone(best, value, value);
    DivideByItself(value);
    assert best / value * value == best;
  }

  /** A tail loses a third of its mark with every decade above the best, and all of it at three. */
  lemma TailFallsByDecades(lg: real -> real, value: real, best: real)
    requires LogLike(lg) && 0.0 < best <= value
    ensures var decades := lg(value / best);
      && (DecadeScore(lg, Some(value), Some(best)) == 0.0 <==> decades >= 3.0)
      && (decades <= 3.0 ==> 3.0 * (1.0 - DecadeScore(lg, Some(value), Some(best))) == decades)
  {
    DivideMonotone(best, value, best);
    DivideByItself(best);
    assert lg(1.0) <= lg(value / best);
  }

  /** Of a hundred points 60 go by cost and 25 and 15 by the tails, times the rate factor. */
  lemma PointsOfAHundred(lg: real -> real, field: seq<Sample>, r: Sample, full: real)
    requires full > 0.0
    ensures Score(lg, field, r, full) == RateFactor(r.rps, full) * (
      60.0 * LinearScore(r.cpu, Best(field, Cpu))
      + 25.0 * DecadeScore(lg, r.p99, Best(field, P99)) + 15.0 * DecadeScore(lg, r.p999, Best(field, P999)))
  {
    hide RateFactor, LinearScore, DecadeScore, Best;
    WeighInPoints(RateFactor(r.rps, full), LinearScore(r.cpu, Best(field, Cpu)),
      DecadeScore(lg, r.p99, Best(field, P99)), DecadeScore(lg, r.p999, Best(field, P999)));
  }

  lemma WeighInPoints(rate: real, c: real, p: real, q: real)
    ensures Weigh(rate, c, p, q) == rate * (60.0 * c + 25.0 * p + 15.0 * q)
  {
    WeighIsScaled(rate, c, p, q);
    var x := Quality(c, p, q);
    assert 100.0 * x == 60.0 * c + 25.0 * p + 15.0 * q;
    assert 100.0 * (rate * x) == rate * (100.0 * x);
  }

  /** What is measured of a run: the processor time of one request where both are known, and
      the other columns as they are. */
  lemma MeasuredIs(f: RunFiles)
    ensures var r := Measured(f);
      && r.rps == f.rps && r.p99 == f.p99 && r.p999 == f.p999
      && (r.cpu.Some? <==> f.requests > 0.0 && f.cpuUsec > 0.0)
      && (r.cpu.Some? ==> r.cpu.value * f.requests == f.cpuUsec)
  {
  }

  ghost predicate PickedOver(lg: real -> real, files: seq<RunFiles>, full: real, best: nat, i: nat)
    requires full > 0.0 && best < |files| && i < |files|
  {
    var mine, its := Score(lg, Field(files), Field(files)[best], full), Score(lg, Field(files), Field(files)[i], full);
    its < mine || (its == mine && (files[i].rps < files[best].rps || (files[i].rps == files[best].rps && best <= i)))
  }

  /** The run picked: no other has a higher score, none of the same score a higher rate, and
      it is the first such run. */
  lemma PickIff(lg: real -> real, files: seq<RunFiles>, full: real, best: nat)
    requires full > 0.0 && best < |files|
    ensures IsPick(lg, files, full, best) <==> forall i: nat :: i < |files| ==> PickedOver(lg, files, full, best, i)
  {
    hide Score, Measured;
    forall i: nat | i < |files| ensures PickedOver(lg, files, full, best, i) <==>
      !Ahead(lg, files, full, i, best) && (i < best ==> Ahead(lg, files, full, best, i))
    {
    }
    hide Ahead, PickedOver;
    assert (forall i: nat :: i < |files| ==> PickedOver(lg, files, full, best, i)) <==> IsPick(lg, files, full, best);
  }

  /** As much served, and every measure the other has is there and no worse. */
  predicate AtLeastAsGood(a: Sample, b: Sample) {
    && a.rps >= b.rps
    && (Usable(b.cpu) ==> Usable(a.cpu) && a.cpu.value <= b.cpu.value)
    && (Usable(b.p99) ==> Usable(a.p99) && a.p99.value <= b.p99.value)
    && (Usable(b.p999) ==> Usable(a.p999) && a.p999.value <= b.p999.value)
  }

  /** A result at least as good on all four counts never scores less. */
  lemma BetterNeverScoresLess(lg: real -> real, field: seq<Sample>, a: Sample, b: Sample, full: real)
    requires LogLike(lg) && full > 0.0 && AtLeastAsGood(a, b)
    ensures Score(lg, field, a, full) >= Score(lg, field, b, full)
  {
    hide RateFactor, LinearScore, DecadeScore, Best, Weigh;
    MarksInUnit(lg, field, a);
    MarksInUnit(lg, field, b);
    MeasureMonotone(lg, Cpu, a.cpu, b.cpu, Best(field, Cpu));
    MeasureMonotone(lg, P99, a.p99, b.p99, Best(field, P99));
    MeasureMonotone(lg, P999, a.p999, b.p999, Best(field, P999));
    RateMonotone(b.rps, a.rps, full);
    var x, y := Mark(lg, field, b, full), Mark(lg, field, a, full);
    WeightedMonotone(x.rateFactor, x.cpuScore, x.p99Score, x.p999Score,
      y.rateFactor, y.cpuScore, y.p99Score, y.p999Score);
  }

  /** So a run that is beaten on all counts and on rate is never the one picked. */
  lemma BeatenRunIsNotPicked(lg: real -> real, files: seq<RunFiles>, full: real, a: nat, b: nat)
    requires LogLike(lg) && full > 0.0 && a < |files| && b < |files|
    requires AtLeastAsGood(Measured(files[a]), Measured(files[b])) && files[a].rps > files[b].rps
    ensures !IsPick(lg, files, full, b)
  {
    var field := Field(files);
    BetterNeverScoresLess(lg, field, field[a], field[b], full);
    assert Ahead(lg, files, full, a, b);
  }

  predicate ImprovesNoBest(field: seq<Sample>, joiner: Sample) {
    && Best(field + [joiner], Cpu) == Best(field, Cpu)
    && Best(field + [joiner], P99) == Best(field, P99)
    && Best(field + [joiner], P999) == Best(field, P999)
  }

  lemma BestAfterJoin(field: seq<Sample>, joiner: Sample, m: Measure)
    ensures Best(field, m).Some? ==>
      Best(field + [joiner], m).Some? && Best(field + [joiner], m).value <= Best(field, m).value
    ensures var v := joiner.Get(m);
      Best(field + [joiner], m) == Best(field, m) <==>
        v.None? || v.value == 0.0 || (Best(field, m).Some? && Best(field, m).value <= v.value)
  {
    assert (field + [joiner])[..|field|] == field;
    if Best(field, m).Some? {
      var i := BestIsPresent(field, m);
    }
  }

  lemma JoiningLowersMeasure(lg: real -> real, field: seq<Sample>, joiner: Sample, i: nat, m: Measure)
    requires LogLike(lg) && i < |field|
    ensures MeasureScore(lg, m, field[i].Get(m), Best(field + [joiner], m)) <=
      MeasureScore(lg, m, field[i].Get(m), Best(field, m))
  {
    var value := field[i].Get(m);
    BestAfterJoin(field, joiner, m);
    if Usable(value) {
      BestIsLeast(field, m, i);
    }
    BetterBestNeverHelps(lg, m, value, Best(field, m), Best(field + [joiner], m));
  }

  /** When an entry joins, no score rises, and none moves if it improves no best. */
  lemma JoiningOnlyLowers(lg: real -> real, field: seq<Sample>, joiner: Sample, i: nat, full: real)
    requires LogLike(lg) && full > 0.0 && i < |field|
    ensures Score(lg, field + [joiner], field[i], full) <= Score(lg, field, field[i], full)
    ensures ImprovesNoBest(field, joiner) ==>
      Score(lg, field + [joiner], field[i], full) == Score(lg, field, field[i], full)
  {
    hide RateFactor, LinearScore, DecadeScore, Best, Weigh, LogLike;
    var r, wider := field[i], field + [joiner];
    RateInUnit(r.rps, full);
    MarksInUnit(lg, field, r);
    MarksInUnit(lg, wider, r);
    JoiningLowersMeasure(lg, field, joiner, i, Cpu);
    JoiningLowersMeasure(lg, field, joiner, i, P99);
    JoiningLowersMeasure(lg, field, joiner, i, P999);
    var x, y := Mark(lg, wider, r, full), Mark(lg, field, r, full);
    WeightedMonotone(x.rateFactor, x.cpuScore, x.p99Score, x.p999Score,
      y.rateFactor, y.cpuScore, y.p99Score, y.p999Score);
  }

  lemma RateZeroIff(rps: real, full: real)
    requires full > 0.0
    ensures RateFactor(rps, full) == 0.0 <==> rps <= 0.0
  {
    assert rps / full * full == rps;
  }

  predicate MarkStays(lg: real -> real, field: seq<Sample>, joiner: Sample, value: Option<real>, m: Measure) {
    MeasureScore(lg, m, value, Best(field + [joiner], m)) == MeasureScore(lg, m, value, Best(field, m))
  }

  /** The score of a row stays exactly if it serves nothing or all its three marks stay. */
  lemma ScoreStaysIff(lg: real -> real, field: seq<Sample>, joiner: Sample, i: nat, full: real)
    requires LogLike(lg) && full > 0.0 && i < |field|
    ensures Score(lg, field + [joiner], field[i], full) == Score(lg, field, field[i], full) <==>
      field[i].rps <= 0.0 || forall m :: MarkStays(lg, field, joiner, field[i].Get(m), m)
  {
    hide RateFactor, LinearScore, DecadeScore, Best, Weigh, LogLike;
    var r, wider := field[i], field + [joiner];
    RateInUnit(r.rps, full);
    RateZeroIff(r.rps, full);
    MarksInUnit(lg, field, r);
    MarksInUnit(lg, wider, r);
    JoiningLowersMeasure(lg, field, joiner, i, Cpu);
    JoiningLowersMeasure(lg, field, joiner, i, P99);
    JoiningLowersMeasure(lg, field, joiner, i, P999);
    var x, y := Mark(lg, wider, r, full), Mark(lg, field, r, full);
    WeighedAlikeIff(x.rateFactor, x.cpuScore, x.p99Score, x.p999Score, y.cpuScore, y.p99Score, y.p999Score);
    MarksStay(lg, field, joiner, r, full);
  }

  lemma MarksStay(lg: real -> real, field: seq<Sample>, joiner: Sample, r: Sample, full: real)
    requires full > 0.0
    ensures var x, y := Mark(lg, field + [joiner], r, full), Mark(lg, field, r, full);
      (forall m :: MarkStays(lg, field, joiner, r.Get(m), m)) <==>
      x.cpuScore == y.cpuScore && x.p99Score == y.p99Score && x.p999Score == y.p999Score
  {
    hide RateFactor, LinearScore, DecadeScore, Best, Weigh;
    assert MarkStays(lg, field, joiner, r.Get(Cpu), Cpu) <==>
      Mark(lg, field + [joiner], r, full).cpuScore == Mark(lg, field, r, full).cpuScore;
    assert MarkStays(lg, field, joiner, r.Get(P99), P99) <==>
      Mark(lg, field + [joiner], r, full).p99Score == Mark(lg, field, r, full).p99Score;
    assert MarkStays(lg, field, joiner, r.Get(P999), P999) <==>
      Mark(lg, field + [joiner], r, full).p999Score == Mark(lg, field, r, full).p999Score;
  }

  ghost predicate KeepsUsableBests(field: seq<Sample>, joiner: Sample) {
    forall m :: Usable(Best(field, m)) ==> Best(field + [joiner], m) == Best(field, m)
  }

  ghost predicate NoScoreMoves(lg: real -> real, field: seq<Sample>, joiner: Sample, full: real)
    requires full > 0.0
  {
    forall i: nat :: i < |field| ==>
      Score(lg, field + [joiner], field[i], full) == Score(lg, field, field[i], full)
  }

  /** Some holder of this measure's best serves requests. */
  ghost predicate BestServes(field: seq<Sample>, m: Measure) {
    exists i: nat :: i < |field| && IsFieldBest(field, field[i], m) && field[i].rps > 0.0
  }

  /** A best that is replaced takes the full mark from whoever held it. */
  lemma ReplacedBestMoves(lg: real -> real, field: seq<Sample>, joiner: Sample, i: nat, m: Measure)
    requires LogLike(lg) && i < |field| && IsFieldBest(field, field[i], m)
    requires Best(field + [joiner], m) != Best(field, m)
    ensures !MarkStays(lg, field, joiner, field[i].Get(m), m)
  {
    hide LogLike, MeasureScore, Best;
    FullMarkIffFieldBest(lg, field, i, m);
    BestAfterJoin(field, joiner, m);
    FullMarkIffBest(lg, m, field[i].Get(m), Best(field + [joiner], m));
  }

  lemma KeptBestsStay(lg: real -> real, field: seq<Sample>, joiner: Sample, value: Option<real>, m: Measure)
    requires KeepsUsableBests(field, joiner)
    requires Usable(value) ==> Best(field, m).Some?
    ensures MarkStays(lg, field, joiner, value, m)
  {
    hide Best;
    if !Usable(Best(field, m)) {
      BestAfterJoin(field, joiner, m);
    }
  }

  /** A newcomer moves no score exactly if every usable best of the field stays the best:
      a better cost or tail is paid for by all who were measured against the old one. */
  lemma NewcomerMovesNothingIff(lg: real -> real, field: seq<Sample>, joiner: Sample, full: real)
    requires LogLike(lg) && full > 0.0
    requires forall m :: Usable(Best(field, m)) ==> BestServes(field, m)
    ensures NoScoreMoves(lg, field, joiner, full) <==> KeepsUsableBests(field, joiner)
  {
    hide LogLike, Score, Best, MarkStays, IsFieldBest, Usable;
    if KeepsUsableBests(field, joiner) {
      forall i: nat | i < |field|
        ensures Score(lg, field + [joiner], field[i], full) == Score(lg, field, field[i], full)
      {
        forall m ensures MarkStays(lg, field, joiner, field[i].Get(m), m) {
          UsableHasBest(field, i, m);
          KeptBestsStay(lg, field, joiner, field[i].Get(m), m);
        }
        ScoreStaysIff(lg, field, joiner, i, full);
      }
    } else {
      var m :| Usable(Best(field, m)) && Best(field + [joiner], m) != Best(field, m);
      assert BestServes(field, m);
      var i: nat :| i < |field| && IsFieldBest(field, field[i], m) && field[i].rps > 0.0;
      ReplacedBestMoves(lg, field, joiner, i, m);
      ScoreStaysIff(lg, field, joiner, i, full);
    }
  }

  lemma UsableHasBest(field: seq<Sample>, i: nat, m: Measure)
    requires i < |field|
    ensures Usable(field[i].Get(m)) ==> Best(field, m).Some?
  {
    if Usable(field[i].Get(m)) {
      BestIsLeast(field, m, i);
    }
  }

  /** And it can move: a newcomer that halves the best cost takes a perfect score to 70. */
  lemma NewcomerMovesScores(lg: real -> real, full: real) returns (leader: Sample, joiner: Sample)
    requires LogLike(lg) && full > 0.0
    ensures Score(lg, [leader], leader, full) == 100.0
    ensures Score(lg, [leader, joiner], leader, full) == 70.0
    ensures !KeepsUsableBests([leader], joiner)
  {
    leader := Sample(full, Some(2.0), Some(1.0), Some(1.0));
    joiner := Sample(full, Some(1.0), None, None);
    var one, two := [leader], [leader, joiner];
    assert one + [joiner] == two;
    assert one[..0] == [] && two[..1] == one;
    assert forall m :: Best([], m) == None;
    assert Best(one, Cpu) == Some(2.0) && Best(one, P99) == Some(1.0) && Best(one, P999) == Some(1.0);
    assert Best(two, Cpu) == Some(1.0) && Best(two, P99) == Some(1.0) && Best(two, P999) == Some(1.0);
    assert 1.0 / 1.0 == 1.0 && full / full == 1.0;
    assert DecadeScore(lg, Some(1.0), Some(1.0)) == 1.0;
    assert LinearScore(Some(2.0), Some(2.0)) == 1.0 && LinearScore(Some(2.0), Some(1.0)) == 0.5;
  }
}
