/**
 The composite score of one family of profiles within one league: every profile
 is normalised against the league's own best, the sum is scaled by a
 completeness factor, and display filters only choose who is listed.
 */
module Composite {
  import opened Basics
  import opened Ranking
  import LatencyScore

  datatype Family = H1 | H2 | H3 | Gw | Grpc | Ws

  datatype Tier = Flagship | Emerging | Experimental | Engine | Infrastructure | Unlisted

  datatype Axis = Routing | Middleware | Request | Response

  /** What an entry declares about itself; `done` holds the completeness axes it grades. */
  datatype Meta = Meta(tier: Tier, tuned: bool, done: map<Axis, bool>)

  datatype Profile = Profile(id: string, category: string, scored: bool, engineScored: bool, infraScored: bool)

  /** One framework's averages on one profile. */
  datatype Cell = Cell(fw: string, rps: real, memory: real, bandwidth: real)

  /** Everything the board is computed from.  A column lists each framework once. */
  datatype Board = Board(
    profiles: seq<Profile>,
    columns: map<string, seq<Cell>>,
    fixedRate: map<string, map<string, real>>,
    meta: map<string, Meta>,
    languages: map<string, string>)

  type League = set<Tier>

  /** The two display filters. */
  datatype View = View(showTuned: bool, language: Option<string>)

  const EVERYTHING := View(true, None)

  function FamilyOf(category: string): Family {
    if category == "Gateway" then Gw
    else if category == "HTTP/2" then H2
    else if category == "HTTP/3" then H3
    else if category == "gRPC" then Grpc
    else if category == "WebSocket" then Ws
    else H1
  }

  function MetaOf(b: Board, fw: string): Meta {
    if fw in b.meta then b.meta[fw] else Meta(Emerging, false, map[])
  }

  predicate InLeague(b: Board, league: League, fw: string) {
    MetaOf(b, fw).tier in league
  }

  predicate Shown(b: Board, view: View, fw: string) {
    && (view.showTuned || !MetaOf(b, fw).tuned)
    && (view.language.Some? ==> fw in b.languages && b.languages[fw] == view.language.value)
  }

  function ColumnOf(b: Board, pid: string): seq<Cell> {
    if pid in b.columns then b.columns[pid] else []
  }

  function Find(column: seq<Cell>, fw: string): Option<Cell> {
    if column == [] then None else if column[0].fw == fw then Some(column[0]) else Find(column[1..], fw)
  }

  function Rps(column: seq<Cell>, fw: string): real {
    var c := Find(column, fw);
    if c.Some? then c.value.rps else 0.0
  }

  // ---- The number a profile is ranked on --------------------------------------------

  const JSON_COMP := "json-comp"

  predicate Compresses(c: Cell) {
    c.rps > 0.0 && c.bandwidth > 0.0
  }

  function BytesPerRequest(c: Cell): (r: real)
    requires Compresses(c)
    ensures r > 0.0
  {
    RatioPositive(c.bandwidth, c.rps);
    c.bandwidth / c.rps
  }

  lemma RatioPositive(a: real, b: real)
    requires a > 0.0 && b > 0.0
    ensures a / b > 0.0
  {
    assert a / b * b == a;
  }

  /** The fewest bytes per request in the league. */
  function Bar(b: Board, league: League, column: seq<Cell>): Option<real> {
    if column == [] then None
    else
      var last, rest := column[|column| - 1], Bar(b, league, column[..|column| - 1]);
      if !InLeague(b, league, last.fw) || !Compresses(last) then rest
      else if rest.None? || BytesPerRequest(last) < rest.value then Some(BytesPerRequest(last))
      else rest
  }

  /** Average rps; on json-comp scaled by the square of how close to the bar the entry is. */
  function Effective(bar: Option<real>, c: Cell): real {
    if c.rps <= 0.0 then 0.0
    else if bar.Some? && Compresses(c) then Penalised(c.rps, bar.value, BytesPerRequest(c))
    else c.rps
  }

  /** `rps * (bar / mine) ** 2` */
  function Penalised(rps: real, bar: real, mine: real): real
    requires mine > 0.0
  {
    Times(rps, Square(bar / mine))
  }

  function Square(x: real): real {
    Times(x, x)
  }

  function Times(x: real, y: real): real {
    x * y
  }

  function BarOf(b: Board, league: League, pid: string): Option<real> {
    if pid == JSON_COMP then Bar(b, league, ColumnOf(b, pid)) else None
  }

  /** `max((eff(pid, fw) for fw in column if in_league(fw)), default=0.0)` */
  function Leader(b: Board, league: League, bar: Option<real>, column: seq<Cell>): real {
    if column == [] then 0.0
    else
      var last, rest := column[|column| - 1], Leader(b, league, bar, column[..|column| - 1]);
      if InLeague(b, league, last.fw) && Effective(bar, last) > rest then Effective(bar, last) else rest
  }

  function MaxOf(b: Board, league: League, pid: string): real {
    Leader(b, league, BarOf(b, league, pid), ColumnOf(b, pid))
  }

  // ---- The composite -----------------------------------------------------------------

  predicate ScoredFor(b: Board, p: Profile, fw: string) {
    var tier := MetaOf(b, fw).tier;
    if tier == Infrastructure then p.infraScored
    else p.scored && (tier == Engine ==> p.engineScored)
  }

  predicate HasResult(b: Board, league: League, p: Profile, fw: string) {
    Rps(ColumnOf(b, p.id), fw) > 0.0 && MaxOf(b, league, p.id) > 0.0
  }

  function FixedRateScore(b: Board, pid: string, fw: string): real {
    if pid in b.fixedRate && fw in b.fixedRate[pid] then b.fixedRate[pid][fw] else 0.0
  }

  /** Between 0 and 1000 for one profile. */
  function Contribution(b: Board, league: League, p: Profile, fw: string): real {
    if !HasResult(b, league, p, fw) || !ScoredFor(b, p, fw) then 0.0
    else if LatencyScore.FullRate(p.id).Some? then FixedRateScore(b, p.id, fw) * 10.0
    else
      var cell := Find(ColumnOf(b, p.id), fw).value;
      Effective(BarOf(b, league, p.id), cell) / MaxOf(b, league, p.id) * 1000.0
  }

  function Total(b: Board, league: League, profiles: seq<Profile>, fw: string): real {
    if profiles == [] then 0.0
    else Total(b, league, profiles[..|profiles| - 1], fw) + Contribution(b, league, profiles[|profiles| - 1], fw)
  }

  function MissingAxes(m: Meta): set<Axis> {
    set a | a in m.done && !m.done[a]
  }

  function CompletenessFactor(b: Board, scope: Family, fw: string): real {
    var m := MetaOf(b, fw);
    if scope == Ws || scope == Grpc || m.tier == Engine || m.tier == Infrastructure || m.tier == Unlisted then 1.0
    else 1.0 - 0.025 * |MissingAxes(m)| as real
  }

  function InFamily(profiles: seq<Profile>, scope: Family): seq<Profile> {
    if profiles == [] then []
    else
      var last := profiles[|profiles| - 1];
      InFamily(profiles[..|profiles| - 1], scope) + if FamilyOf(last.category) == scope then [last] else []
  }

  function ScoreOf(b: Board, league: League, scope: Family, fw: string): real {
    Times(Total(b, league, InFamily(b.profiles, scope), fw), CompletenessFactor(b, scope, fw))
  }

  predicate Listed(b: Board, league: League, scope: Family, fw: string) {
    && InLeague(b, league, fw)
    && exists p :: p in InFamily(b.profiles, scope) && HasResult(b, league, p, fw)
  }

  /** The framework names of some columns, each once, in order of appearance. */
  function Names(columns: seq<seq<Cell>>): seq<string> {
    if columns == [] then []
    else AddNames(Names(columns[..|columns| - 1]), columns[|columns| - 1])
  }

  function AddNames(names: seq<string>, column: seq<Cell>): seq<string> {
    if column == [] then names
    else
      var front, fw := AddNames(names, column[..|column| - 1]), column[|column| - 1].fw;
      if fw in front then front else front + [fw]
  }

  function Columns(b: Board, profiles: seq<Profile>): (r: seq<seq<Cell>>)
    ensures |r| == |profiles|
  {
    seq(|profiles|, i requires 0 <= i < |profiles| => ColumnOf(b, profiles[i].id))
  }

  function RowsOf(b: Board, league: League, scope: Family, view: View, names: seq<string>): seq<Row> {
    if names == [] then []
    else
      var fw := names[|names| - 1];
      RowsOf(b, league, scope, view, names[..|names| - 1])
      + if Listed(b, league, scope, fw) && Shown(b, view, fw) then [Row(fw, ScoreOf(b, league, scope, fw))] else []
  }

  /** The field as the board lists it, best first. */
  function BadgeComposite(b: Board, league: League, scope: Family, view: View): seq<Row> {
    SortRows(RowsOf(b, league, scope, view, Names(Columns(b, InFamily(b.profiles, scope)))))
  }

  // ---- The loops ----------------------------------------------------------------------

  method ComputeBar(b: Board, league: League, column: seq<Cell>) returns (bar: Option<real>)
    ensures bar == Bar(b, league, column)
  {
    bar := None;
    for i := 0 to |column|
      invariant bar == Bar(b, league, column[..i])
    {
      assert column[..i + 1][..i] == column[..i];
      var c := column[i];
      if InLeague(b, league, c.fw) && c.rps > 0.0 && c.bandwidth > 0.0 {
        if bar.None? || c.bandwidth / c.rps < bar.value {
          bar := Some(c.bandwidth / c.rps);
        }
      }
    }
    assert column[..|column|] == column;
  }

  method ComputeMax(b: Board, league: League, pid: string) returns (best: real)
    ensures best == MaxOf(b, league, pid)
  {
    var column := ColumnOf(b, pid);
    var bar := None;
    if pid == JSON_COMP {
      bar := ComputeBar(b, league, column);
    }
    best := 0.0;
    for i := 0 to |column|
      invariant best == Leader(b, league, bar, column[..i])
    {
      assert column[..i + 1][..i] == column[..i];
      if InLeague(b, league, column[i].fw) && Effective(bar, column[i]) > best {
        best := Effective(bar, column[i]);
      }
    }
    assert column[..|column|] == column;
  }

  ghost predicate Maxima(b: Board, league: League, pids: seq<Profile>, maxR: map<string, real>) {
    forall p :: p in pids ==> p.id in maxR && maxR[p.id] == MaxOf(b, league, p.id)
  }

  method ComputeMaxima(b: Board, league: League, pids: seq<Profile>) returns (maxR: map<string, real>)
    ensures Maxima(b, league, pids, maxR)
  {
    maxR := map[];
    for i := 0 to |pids|
      invariant Maxima(b, league, pids[..i], maxR)
    {
      var best := ComputeMax(b, league, pids[i].id);
      maxR := maxR[pids[i].id := best];
      assert pids[..i + 1] == pids[..i] + [pids[i]];
    }
    assert pids[..|pids|] == pids;
  }

  lemma NextProfile(b: Board, league: League, pids: seq<Profile>, i: nat, fw: string)
    requires i < |pids|
    ensures Total(b, league, pids[..i + 1], fw) ==
      Total(b, league, pids[..i], fw) + Contribution(b, league, pids[i], fw)
    ensures HasAny(b, league, pids[..i + 1], fw) <==>
      HasAny(b, league, pids[..i], fw) || HasResult(b, league, pids[i], fw)
  {
    hide Contribution, HasResult;
    assert pids[..i + 1] == pids[..i] + [pids[i]] && pids[..i + 1][..i] == pids[..i];
    assert pids[i] in pids[..i + 1];
  }

  lemma ProfileCases(b: Board, league: League, p: Profile, fw: string)
    ensures HasResult(b, league, p, fw) <==> Rps(ColumnOf(b, p.id), fw) > 0.0 && MaxOf(b, league, p.id) > 0.0
    ensures HasResult(b, league, p, fw) ==> Find(ColumnOf(b, p.id), fw).Some? && MaxOf(b, league, p.id) != 0.0
    ensures Contribution(b, league, p, fw) ==
      if !HasResult(b, league, p, fw) || !ScoredFor(b, p, fw) then 0.0
      else if LatencyScore.FullRate(p.id).Some? then FixedRateScore(b, p.id, fw) * 10.0
      else Effective(BarOf(b, league, p.id), Find(ColumnOf(b, p.id), fw).value) / MaxOf(b, league, p.id) * 1000.0
  {
    hide MaxOf, Effective, BarOf, ScoredFor, FixedRateScore;
  }

  lemma MaximumAt(b: Board, league: League, pids: seq<Profile>, maxR: map<string, real>, i: nat)
    requires Maxima(b, league, pids, maxR) && i < |pids|
    ensures pids[i].id in maxR && maxR[pids[i].id] == MaxOf(b, league, pids[i].id)
  {
    hide MaxOf;
    assert pids[i] in pids;
  }

  ghost predicate HasAny(b: Board, league: League, pids: seq<Profile>, fw: string) {
    exists p :: p in pids && HasResult(b, league, p, fw)
  }

  /** One entry's total over the profiles, and whether it has any result there. */
  method SumProfiles(b: Board, league: League, pids: seq<Profile>, maxR: map<string, real>, fw: string)
    returns (score: real, any: bool)
    requires Maxima(b, league, pids, maxR)
    ensures score == Total(b, league, pids, fw)
    ensures any <==> HasAny(b, league, pids, fw)
  {
    hide Maxima, HasResult;
    score, any := 0.0, false;
    for i := 0 to |pids|
      invariant score == Total(b, league, pids[..i], fw)
      invariant any <==> HasAny(b, league, pids[..i], fw)
    {
      hide *;
      var p := pids[i];
      NextProfile(b, league, pids, i, fw);
      ProfileCases(b, league, p, fw);
      MaximumAt(b, league, pids, maxR, i);
      var rps := Rps(ColumnOf(b, p.id), fw);
      if rps > 0.0 && maxR[p.id] > 0.0 {
        any := true;
        if ScoredFor(b, p, fw) {
          if LatencyScore.FullRate(p.id).Some? {
            score := score + FixedRateScore(b, p.id, fw) * 10.0;
          } else {
            var cell := Find(ColumnOf(b, p.id), fw).value;
            score := score + Effective(BarOf(b, league, p.id), cell) / maxR[p.id] * 1000.0;
          }
        }
      }
    }
    assert pids[..|pids|] == pids;
  }

  /** The whole computation, loop by loop. */
  method ComputeComposite(b: Board, league: League, scope: Family, view: View) returns (rows: seq<Row>)
    ensures rows == BadgeComposite(b, league, scope, view)
  {
    hide SortRows, Total, CompletenessFactor, HasResult, Names, MaxOf, InLeague, Shown, Times;
    var pids := InFamily(b.profiles, scope);
    var maxR := ComputeMaxima(b, league, pids);
    var names := Names(Columns(b, pids));
    var unsorted: seq<Row> := [];
    for i := 0 to |names|
      invariant unsorted == RowsOf(b, league, scope, view, names[..i])
    {
      hide *;
      var fw := names[i];
      NextRow(b, league, scope, view, names, i);
      if InLeague(b, league, fw) && Shown(b, view, fw) {
        var score, any := SumProfiles(b, league, pids, maxR, fw);
        if any {
          unsorted := unsorted + [Row(fw, Times(score, CompletenessFactor(b, scope, fw)))];
        }
      }
    }
    assert names[..|names|] == names;
    rows := SortRows(unsorted);
  }

  lemma NextRow(b: Board, league: League, scope: Family, view: View, names: seq<string>, i: nat)
    requires i < |names|
    ensures var fw, pids := names[i], InFamily(b.profiles, scope);
      var before, after := RowsOf(b, league, scope, view, names[..i]), RowsOf(b, league, scope, view, names[..i + 1]);
      if InLeague(b, league, fw) && Shown(b, view, fw) && HasAny(b, league, pids, fw)
      then after == before + [Row(fw, Times(Total(b, league, pids, fw), CompletenessFactor(b, scope, fw)))]
      else after == before
  {
    hide Total, CompletenessFactor, HasResult, Times, InLeague, Shown;
    assert names[..i + 1][..i] == names[..i];
    var before := RowsOf(b, league, scope, view, names[..i]);
    assert before + [] == before;
  }

  // ---- Bounds ---------------------------------------------------------------------------

  lemma DivideBounds(a: real, m: real)
    requires 0.0 <= a <= m && m > 0.0
    ensures 0.0 <= a / m <= 1.0 && (a / m == 1.0 <==> a == m)
  {
    assert a / m * m == a;
  }

  lemma TimesBounds(x: real, y: real)
    requires x > 0.0 && 0.0 < y <= 1.0
    ensures 0.0 < Times(x, y) <= x && (Times(x, y) == x <==> y == 1.0)
  {
    assert x * y > 0.0;
    if y < 1.0 {
      assert x * (1.0 - y) > 0.0;
    }
  }

  lemma SquareBounds(x: real)
    requires 0.0 < x <= 1.0
    ensures 0.0 < Square(x) <= 1.0 && (Square(x) == 1.0 <==> x == 1.0)
  {
    hide Times;
    TimesBounds(x, x);
  }

  lemma {:induction false} BarIsLeast(b: Board, league: League, column: seq<Cell>, i: nat)
    requires i < |column| && InLeague(b, league, column[i].fw) && Compresses(column[i])
    ensures Bar(b, league, column).Some?
    ensures Bar(b, league, column).value <= BytesPerRequest(column[i])
  {
    if i < |column| - 1 {
      BarIsLeast(b, league, column[..|column| - 1], i);
    }
  }

  lemma {:induction false} BarIsAttained(b: Board, league: League, column: seq<Cell>) returns (i: nat)
    requires Bar(b, league, column).Some?
    ensures i < |column| && InLeague(b, league, column[i].fw) && Compresses(column[i])
    ensures Bar(b, league, column).value == BytesPerRequest(column[i])
  {
    var last, front := column[|column| - 1], column[..|column| - 1];
    if InLeague(b, league, last.fw) && Compresses(last) && Bar(b, league, column) == Some(BytesPerRequest(last)) {
      i := |column| - 1;
    } else {
      i := BarIsAttained(b, league, front);
    }
  }

  lemma PenalisedBounds(rps: real, bar: real, mine: real)
    requires rps > 0.0 && 0.0 < bar <= mine
    ensures 0.0 < Penalised(rps, bar, mine) <= rps && (Penalised(rps, bar, mine) == rps <==> bar == mine)
  {
    DivideBounds(bar, mine);
    RatioPositive(bar, mine);
    hide Square, Times;
    SquareBounds(bar / mine);
    TimesBounds(rps, Square(bar / mine));
  }

  /** The size adjustment never raises an entry of the league, and spares exactly
      those that send the league's fewest bytes per request (or report none). */
  lemma AdjustmentOnlyLowers(b: Board, league: League, column: seq<Cell>, i: nat)
    requires i < |column| && InLeague(b, league, column[i].fw) && column[i].rps > 0.0
    ensures var c, bar := column[i], Bar(b, league, column);
      && 0.0 < Effective(bar, c) <= c.rps
      && (Effective(bar, c) == c.rps <==> c.bandwidth <= 0.0 || bar == Some(BytesPerRequest(c)))
  {
    var c := column[i];
    if Compresses(c) {
      BarIsLeast(b, league, column, i);
      var k := BarIsAttained(b, league, column);
      hide Bar, BytesPerRequest, Penalised;
      PenalisedBounds(c.rps, Bar(b, league, column).value, BytesPerRequest(c));
    }
  }

  lemma EffectiveNonNegative(b: Board, league: League, pid: string, c: Cell)
    requires c in ColumnOf(b, pid) && InLeague(b, league, c.fw)
    ensures Effective(BarOf(b, league, pid), c) >= 0.0
    ensures c.rps > 0.0 ==> Effective(BarOf(b, league, pid), c) > 0.0
  {
    var column := ColumnOf(b, pid);
    var i :| 0 <= i < |column| && column[i] == c;
    if c.rps > 0.0 {
      AdjustmentOnlyLowers(b, league, column, i);
    }
  }

  lemma {:induction false} LeaderIsGreatest(b: Board, league: League, bar: Option<real>, column: seq<Cell>, c: Cell)
    requires c in column && InLeague(b, league, c.fw)
    ensures Effective(bar, c) <= Leader(b, league, bar, column)
  {
    var front, last := column[..|column| - 1], column[|column| - 1];
    assert column == front + [last];
    if c in front {
      LeaderIsGreatest(b, league, bar, front, c);
    }
  }

  lemma {:induction false} LeaderIsAttained(b: Board, league: League, bar: Option<real>, column: seq<Cell>)
    returns (c: Cell)
    requires Leader(b, league, bar, column) > 0.0
    ensures c in column && InLeague(b, league, c.fw) && Effective(bar, c) == Leader(b, league, bar, column)
  {
    var front, last := column[..|column| - 1], column[|column| - 1];
    if InLeague(b, league, last.fw) && Effective(bar, last) == Leader(b, league, bar, column) {
      c := last;
    } else {
      c := LeaderIsAttained(b, league, bar, front);
    }
  }

  lemma {:induction false} FindIsPresent(column: seq<Cell>, fw: string)
    ensures Find(column, fw).Some? ==> Find(column, fw).value in column && Find(column, fw).value.fw == fw
    ensures Find(column, fw).None? <==> forall c :: c in column ==> c.fw != fw
  {
    if column != [] {
      FindIsPresent(column[1..], fw);
      assert column == [column[0]] + column[1..];
    }
  }

  ghost predicate FixedRatesInRange(b: Board) {
    forall pid, fw :: 0.0 <= FixedRateScore(b, pid, fw) <= 100.0
  }

  /** No profile contributes less than 0 or more than 1000. */
  lemma ContributionInRange(b: Board, league: League, p: Profile, fw: string)
    requires InLeague(b, league, fw) && FixedRatesInRange(b)
    ensures 0.0 <= Contribution(b, league, p, fw) <= 1000.0
  {
    var column, bar := ColumnOf(b, p.id), BarOf(b, league, p.id);
    assert 0.0 <= FixedRateScore(b, p.id, fw) <= 100.0;
    if HasResult(b, league, p, fw) && ScoredFor(b, p, fw) && LatencyScore.FullRate(p.id).None? {
      FindIsPresent(column, fw);
      var c := Find(column, fw).value;
      EffectiveNonNegative(b, league, p.id, c);
      LeaderIsGreatest(b, league, bar, column, c);
      DivideBounds(Effective(bar, c), MaxOf(b, league, p.id));
    }
  }

  /** Fixed-rate scores are in range because the scoring formula keeps them there. */
  lemma PublishedFixedRatesInRange(b: Board, lg: real -> real, fields: map<string, seq<LatencyScore.Sample>>)
    requires forall pid, fw :: pid in b.fixedRate && fw in b.fixedRate[pid] ==>
      && pid in fields && LatencyScore.FullRate(pid).Some?
      && exists r :: b.fixedRate[pid][fw] == LatencyScore.Score(lg, fields[pid], r, LatencyScore.FullRate(pid).value)
    ensures FixedRatesInRange(b)
  {
    hide LatencyScore.Score, LatencyScore.FullRate;
    forall pid, fw ensures 0.0 <= FixedRateScore(b, pid, fw) <= 100.0 {
      if pid in b.fixedRate && fw in b.fixedRate[pid] {
        var full := LatencyScore.FullRate(pid).value;
        LatencyScore.FullRatePositive(pid);
        var r :| b.fixedRate[pid][fw] == LatencyScore.Score(lg, fields[pid], r, full);
        LatencyScore.ScoreInRange(lg, fields[pid], r, full);
      }
    }
  }

  ghost predicate OneCellEach(column: seq<Cell>) {
    forall i, j :: 0 <= i < j < |column| ==> column[i].fw != column[j].fw
  }

  /** Where the league has a result, somebody in it contributes exactly 1000: the
      leader, if the profile counts for its tier. */
  lemma LeaderContributesAll(b: Board, league: League, p: Profile) returns (fw: string)
    requires MaxOf(b, league, p.id) > 0.0 && LatencyScore.FullRate(p.id).None? && OneCellEach(ColumnOf(b, p.id))
    ensures InLeague(b, league, fw) && HasResult(b, league, p, fw)
    ensures Contribution(b, league, p, fw) == if ScoredFor(b, p, fw) then 1000.0 else 0.0
  {
    var column, bar := ColumnOf(b, p.id), BarOf(b, league, p.id);
    var c := LeaderIsAttained(b, league, bar, column);
    fw := c.fw;
    FindIsPresent(column, fw);
    var found := Find(column, fw).value;
    assert found == c by {
      var i :| 0 <= i < |column| && column[i] == c;
      var j :| 0 <= j < |column| && column[j] == found;
    }
    assert c.rps > 0.0;
    DivideBounds(Effective(bar, c), MaxOf(b, league, p.id));
  }

  lemma AxesAtMostFour(s: set<Axis>)
    ensures |s| <= 4
  {
    var all := {Routing, Middleware, Request, Response};
    forall a | a in s ensures a in all {
      match a case Routing => case Middleware => case Request => case Response =>
    }
    SubsetNoLarger(s, all);
  }

  lemma {:induction false} SubsetNoLarger<T>(a: set<T>, b: set<T>)
    requires a <= b
    ensures |a| <= |b|
  {
    if a != {} {
      var x :| x in a;
      SubsetNoLarger(a - {x}, b - {x});
    }
  }

  /** The completeness factor is between 0.90 and 1.00, one of five steps. */
  lemma FactorInRange(b: Board, scope: Family, fw: string)
    ensures 0.9 <= CompletenessFactor(b, scope, fw) <= 1.0
    ensures scope == Ws || scope == Grpc ==> CompletenessFactor(b, scope, fw) == 1.0
    ensures CompletenessFactor(b, scope, fw) == 1.0 || MissingAxes(MetaOf(b, fw)) != {}
  {
    AxesAtMostFour(MissingAxes(MetaOf(b, fw)));
  }

  lemma {:induction false} TotalInRange(b: Board, league: League, profiles: seq<Profile>, fw: string)
    requires InLeague(b, league, fw) && FixedRatesInRange(b)
    ensures 0.0 <= Total(b, league, profiles, fw) <= 1000.0 * |profiles| as real
  {
    if profiles != [] {
      TotalInRange(b, league, profiles[..|profiles| - 1], fw);
      ContributionInRange(b, league, profiles[|profiles| - 1], fw);
    }
  }

  /** A composite is at most 1000 for each profile of its family. */
  lemma ScoreInRange(b: Board, league: League, scope: Family, fw: string)
    requires InLeague(b, league, fw) && FixedRatesInRange(b)
    ensures 0.0 <= ScoreOf(b, league, scope, fw) <= 1000.0 * |InFamily(b.profiles, scope)| as real
  {
    hide Total, CompletenessFactor, Times;
    var pids := InFamily(b.profiles, scope);
    TotalInRange(b, league, pids, fw);
    FactorInRange(b, scope, fw);
    ScaleBounds(Total(b, league, pids, fw), CompletenessFactor(b, scope, fw));
    assert ScoreOf(b, league, scope, fw) <= Total(b, league, pids, fw);
  }

  lemma ScaleBounds(total: real, factor: real)
    requires 0.0 <= total && 0.0 <= factor <= 1.0
    ensures 0.0 <= Times(total, factor) <= total
  {
    assert total * factor <= total * 1.0;
  }

  // ---- What the numbers are -----------------------------------------------------------------

  lemma SquareLaw(r: real, q: real, m: real, bar: real)
    requires q * m == bar
    ensures r * (q * q) * m * m == r * bar * bar
  {
    assert r * (q * q) * m * m == r * ((q * m) * (q * m));
  }

  lemma PenaltyLaw(rps: real, bar: real, mine: real)
    requires mine > 0.0
    ensures Penalised(rps, bar, mine) * mine * mine == rps * bar * bar
  {
    var q := bar / mine;
    assert q * mine == bar && Penalised(rps, bar, mine) == rps * (q * q);
    SquareLaw(rps, q, mine, bar);
  }

  lemma BytesTimesRate(c: Cell)
    requires Compresses(c)
    ensures BytesPerRequest(c) * c.rps == c.bandwidth
  {
  }

  lemma CompressedIs(b: Board, league: League, c: Cell)
    requires c in ColumnOf(b, "json-comp") && InLeague(b, league, c.fw) && Compresses(c)
    ensures var bar := BarOf(b, league, "json-comp");
      bar.Some? && Effective(bar, c) == Penalised(c.rps, bar.value, BytesPerRequest(c))
  {
    hide Penalised, BytesPerRequest, InLeague, Bar;
    var column := ColumnOf(b, "json-comp");
    var i :| 0 <= i < |column| && column[i] == c;
    BarIsLeast(b, league, column, i);
  }

  /** On json-comp an entry is penalised by the square of how many more bytes it sends for
      a request than the league's best compressor. */
  lemma PenaltyIsTheSquare(b: Board, league: League, c: Cell)
    requires c in ColumnOf(b, "json-comp") && InLeague(b, league, c.fw) && c.rps > 0.0 && c.bandwidth > 0.0
    ensures var bar := BarOf(b, league, "json-comp");
      && bar.Some? && BytesPerRequest(c) * c.rps == c.bandwidth
      && Effective(bar, c) * BytesPerRequest(c) * BytesPerRequest(c) == c.rps * bar.value * bar.value
  {
    hide Penalised, BytesPerRequest, Effective, BarOf, InLeague;
    BytesTimesRate(c);
    CompressedIs(b, league, c);
    PenaltyLaw(c.rps, BarOf(b, league, "json-comp").value, BytesPerRequest(c));
  }

  /** Everywhere else, and for an entry that reports no bandwidth, the rate is what counts. */
  lemma OtherwiseTheRate(b: Board, league: League, pid: string, c: Cell)
    requires c.rps > 0.0 && (pid != "json-comp" || c.bandwidth <= 0.0)
    ensures Effective(BarOf(b, league, pid), c) == c.rps
  {
  }

  /** What a tier is scored on. */
  predicate Counts(tier: Tier, p: Profile) {
    match tier
    case Infrastructure => p.infraScored
    case Engine => p.scored && p.engineScored
    case _ => p.scored
  }

  function TierOf(b: Board, fw: string): Tier {
    if fw in b.meta then b.meta[fw].tier else Emerging
  }

  /** Anybody in the league with a rate has a result: nothing but the league's own rates
      decides whether its best is positive. */
  lemma RateIsResult(b: Board, league: League, p: Profile, fw: string)
    requires InLeague(b, league, fw)
    ensures HasResult(b, league, p, fw) <==> Rps(ColumnOf(b, p.id), fw) > 0.0
  {
    var column, bar := ColumnOf(b, p.id), BarOf(b, league, p.id);
    if Rps(column, fw) > 0.0 {
      FindIsPresent(column, fw);
      var c := Find(column, fw).value;
      EffectiveNonNegative(b, league, p.id, c);
      LeaderIsGreatest(b, league, bar, column, c);
    }
  }

  /** An entry of the league earns points on a profile that is not fixed-rate exactly if it
      has a rate there and the profile counts for its tier. */
  lemma EarnsPointsIff(b: Board, league: League, p: Profile, fw: string)
    requires TierOf(b, fw) in league && p.id !in ["latency-1m", "latency-10k", "8gbit"]
    ensures Contribution(b, league, p, fw) != 0.0 <==> Rps(ColumnOf(b, p.id), fw) > 0.0 && Counts(TierOf(b, fw), p)
  {
    var column, bar := ColumnOf(b, p.id), BarOf(b, league, p.id);
    RateIsResult(b, league, p, fw);
    if Rps(column, fw) > 0.0 && ScoredFor(b, p, fw) {
      FindIsPresent(column, fw);
      var c := Find(column, fw).value;
      EffectiveNonNegative(b, league, p.id, c);
      RatioPositive(Effective(bar, c), MaxOf(b, league, p.id));
    }
  }

  /** A fixed-rate profile gives ten points for each of the hundred of its own score, and
      none to an entry without one. */
  lemma FixedRateGivesTenfold(b: Board, league: League, p: Profile, fw: string)
    requires TierOf(b, fw) in league && p.id in ["latency-1m", "latency-10k", "8gbit"]
    requires Rps(ColumnOf(b, p.id), fw) > 0.0 && Counts(TierOf(b, fw), p)
    ensures Contribution(b, league, p, fw) ==
      if p.id in b.fixedRate && fw in b.fixedRate[p.id] then 10.0 * b.fixedRate[p.id][fw] else 0.0
  {
    RateIsResult(b, league, p, fw);
  }

  /** What two entries contribute to. */
  ghost predicate BothCount(b: Board, league: League, p: Profile, c: Cell, d: Cell) {
    && c in ColumnOf(b, p.id) && d in ColumnOf(b, p.id) && OneCellEach(ColumnOf(b, p.id))
    && TierOf(b, c.fw) in league && TierOf(b, d.fw) in league && c.rps > 0.0 && d.rps > 0.0
    && Counts(TierOf(b, c.fw), p) && Counts(TierOf(b, d.fw), p)
  }

  lemma CellIsFound(column: seq<Cell>, c: Cell)
    requires c in column && OneCellEach(column)
    ensures Find(column, c.fw) == Some(c)
  {
    FindIsPresent(column, c.fw);
    var found := Find(column, c.fw).value;
    var i :| 0 <= i < |column| && column[i] == c;
    var j :| 0 <= j < |column| && column[j] == found;
  }

  lemma ShareOf(b: Board, league: League, p: Profile, c: Cell)
    requires c in ColumnOf(b, p.id) && OneCellEach(ColumnOf(b, p.id)) && TierOf(b, c.fw) in league
    requires c.rps > 0.0 && Counts(TierOf(b, c.fw), p) && LatencyScore.FullRate(p.id).None?
    ensures MaxOf(b, league, p.id) > 0.0
    ensures Contribution(b, league, p, c.fw) ==
      Effective(BarOf(b, league, p.id), c) * (1000.0 / MaxOf(b, league, p.id))
  {
    hide Effective, MaxOf, BarOf, Find;
    CellIsFound(ColumnOf(b, p.id), c);
    RateIsResult(b, league, p, c.fw);
    Reordered(Effective(BarOf(b, league, p.id), c), MaxOf(b, league, p.id));
  }

  lemma Reordered(e: real, m: real)
    requires m > 0.0
    ensures e / m * 1000.0 == e * (1000.0 / m)
  {
  }

  /** Points are shared in proportion to the rates. */
  lemma PointsFollowRates(b: Board, league: League, p: Profile, c: Cell, d: Cell)
    requires BothCount(b, league, p, c, d) && p.id !in ["latency-1m", "latency-10k", "8gbit", "json-comp"]
    ensures Contribution(b, league, p, c.fw) * d.rps == Contribution(b, league, p, d.fw) * c.rps
  {
    ShareOf(b, league, p, c);
    ShareOf(b, league, p, d);
    OtherwiseTheRate(b, league, p.id, c);
    OtherwiseTheRate(b, league, p.id, d);
    hide Contribution, Effective, MaxOf, BarOf;
    CrossTerms(c.rps, d.rps, 1000.0 / MaxOf(b, league, p.id));
  }

  lemma CrossTerms(x: real, y: real, k: real)
    ensures x * k * y == y * k * x
  {
  }

  function Cube(x: real): real {
    x * x * x
  }

  lemma SentLaw(e: real, bpr: real, rps: real, bandwidth: real, bar: real)
    requires e * bpr * bpr == rps * bar * bar && bpr * rps == bandwidth
    ensures e * Square(bandwidth) == Cube(rps) * Square(bar)
  {
    assert e * (bandwidth * bandwidth) == (e * bpr * bpr) * (rps * rps);
    assert (rps * bar * bar) * (rps * rps) == Cube(rps) * (bar * bar);
  }

  /** An entry's effective value on json-comp in terms of what was measured. */
  lemma SentOf(b: Board, league: League, c: Cell)
    requires c in ColumnOf(b, "json-comp") && InLeague(b, league, c.fw) && c.rps > 0.0 && c.bandwidth > 0.0
    ensures var bar := BarOf(b, league, "json-comp");
      bar.Some? && Effective(bar, c) * Square(c.bandwidth) == Cube(c.rps) * Square(bar.value)
  {
    hide Effective, BarOf, BytesPerRequest, Square, Cube;
    PenaltyIsTheSquare(b, league, c);
    var bar, bpr := BarOf(b, league, "json-comp").value, BytesPerRequest(c);
    SentLaw(Effective(Some(bar), c), bpr, c.rps, c.bandwidth, bar);
  }

  lemma CrossProducts(e: real, x: real, r: real, f: real, y: real, s: real, k: real, q: real)
    requires e * x == r * q && f * y == s * q
    ensures e * k * x * s == f * k * y * r
  {
    assert e * k * x * s == (e * x) * (k * s) == (r * q) * (k * s);
    assert f * k * y * r == (f * y) * (k * r) == (s * q) * (k * r);
    assert (r * q) * (k * s) == (s * q) * (k * r);
  }

  /** On json-comp they are shared in proportion to rate cubed over bandwidth squared. */
  lemma PointsFollowCompression(b: Board, league: League, p: Profile, c: Cell, d: Cell)
    requires BothCount(b, league, p, c, d) && p.id == "json-comp" && c.bandwidth > 0.0 && d.bandwidth > 0.0
    ensures Contribution(b, league, p, c.fw) * Square(c.bandwidth) * Cube(d.rps) ==
      Contribution(b, league, p, d.fw) * Square(d.bandwidth) * Cube(c.rps)
  {
    hide Contribution, Effective, MaxOf, BarOf, Square, Cube;
    ShareOf(b, league, p, c);
    ShareOf(b, league, p, d);
    SentOf(b, league, c);
    SentOf(b, league, d);
    var bar := BarOf(b, league, p.id);
    CrossProducts(Effective(bar, c), Square(c.bandwidth), Cube(c.rps),
      Effective(bar, d), Square(d.bandwidth), Cube(d.rps), 1000.0 / MaxOf(b, league, p.id), Square(bar.value));
  }

  /** Each axis of four that an entry of a framework tier declares missing costs 2.5 percent. */
  lemma AxesCost(b: Board, scope: Family, fw: string)
    ensures var graded := scope !in [Ws, Grpc] && TierOf(b, fw) in [Flagship, Emerging, Experimental];
      var missing := if fw in b.meta then set a | a in b.meta[fw].done && !b.meta[fw].done[a] else {};
      40.0 * CompletenessFactor(b, scope, fw) == 40.0 - if graded then |missing| as real else 0.0
  {
    assert fw !in b.meta ==> MissingAxes(MetaOf(b, fw)) == {};
  }

  lemma {:induction false} TotalSplits(b: Board, league: League, x: seq<Profile>, y: seq<Profile>, fw: string)
    ensures Total(b, league, x + y, fw) == Total(b, league, x, fw) + Total(b, league, y, fw)
  {
    hide Contribution;
    if y == [] {
      assert x + y == x;
    } else {
      TotalSplits(b, league, x, y[..|y| - 1], fw);
      assert (x + y)[..|x + y| - 1] == x + y[..|y| - 1];
    }
  }

  lemma TotalOfOne(b: Board, league: League, p: Profile, fw: string)
    ensures Total(b, league, [p], fw) == Contribution(b, league, p, fw)
  {
    hide Contribution;
    assert [p][..0] == [];
    assert Total(b, league, [], fw) == 0.0;
  }

  /** The families by the category names of the profiles. */
  predicate BelongsTo(category: string, scope: Family) {
    match scope
    case Gw => category == "Gateway"
    case H2 => category == "HTTP/2"
    case H3 => category == "HTTP/3"
    case Grpc => category == "gRPC"
    case Ws => category == "WebSocket"
    case H1 => category !in ["Gateway", "HTTP/2", "HTTP/3", "gRPC", "WebSocket"]
  }

  lemma FamilyIs(category: string, scope: Family)
    ensures FamilyOf(category) == scope <==> BelongsTo(category, scope)
  {
  }

  lemma {:induction false} FamilyMembers(profiles: seq<Profile>, scope: Family, p: Profile)
    ensures p in InFamily(profiles, scope) <==> p in profiles && BelongsTo(p.category, scope)
  {
    hide FamilyOf, BelongsTo;
    if profiles != [] {
      var front, last := profiles[..|profiles| - 1], profiles[|profiles| - 1];
      FamilyIs(last.category, scope);
      FamilyMembers(front, scope, p);
      assert profiles == front + [last];
    }
  }

  ghost predicate HasCell(column: seq<Cell>, fw: string) {
    exists c :: c in column && c.fw == fw
  }

  lemma {:induction false} AddedNames(names: seq<string>, column: seq<Cell>, fw: string)
    ensures fw in AddNames(names, column) <==> fw in names || HasCell(column, fw)
  {
    if column != [] {
      var front, last := column[..|column| - 1], column[|column| - 1];
      AddedNames(names, front, fw);
      assert column == front + [last];
    }
  }

  lemma {:induction false} NamesMembers(columns: seq<seq<Cell>>, fw: string)
    ensures fw in Names(columns) <==> exists column :: column in columns && HasCell(column, fw)
  {
    hide HasCell;
    if columns != [] {
      var front, last := columns[..|columns| - 1], columns[|columns| - 1];
      NamesMembers(front, fw);
      AddedNames(Names(front), last, fw);
      assert columns == front + [last];
    }
  }

  ghost predicate HasRateIn(b: Board, scope: Family, fw: string) {
    exists p :: p in b.profiles && BelongsTo(p.category, scope) && Rps(ColumnOf(b, p.id), fw) > 0.0
  }

  lemma RateIsNamed(b: Board, scope: Family, fw: string)
    requires HasRateIn(b, scope, fw)
    ensures fw in Names(Columns(b, InFamily(b.profiles, scope)))
  {
    var p :| p in b.profiles && BelongsTo(p.category, scope) && Rps(ColumnOf(b, p.id), fw) > 0.0;
    var pids := InFamily(b.profiles, scope);
    FamilyMembers(b.profiles, scope, p);
    FindIsPresent(ColumnOf(b, p.id), fw);
    var k :| 0 <= k < |pids| && pids[k] == p;
    assert Columns(b, pids)[k] in Columns(b, pids);
    NamesMembers(Columns(b, pids), fw);
  }

  lemma RowsOfField(b: Board, league: League, scope: Family, view: View, r: Row)
    ensures r in BadgeComposite(b, league, scope, view) <==>
      && r.fw in Names(Columns(b, InFamily(b.profiles, scope))) && Listed(b, league, scope, r.fw)
      && Shown(b, view, r.fw) && r.score == ScoreOf(b, league, scope, r.fw)
  {
    hide Names, Columns, InFamily, Listed, Shown, ScoreOf, SortRows, RowsOf, DistinctNames;
    var names := Names(Columns(b, InFamily(b.profiles, scope)));
    NamesDistinct(Columns(b, InFamily(b.profiles, scope)));
    RowsDistinct(b, league, scope, view, names);
    SortSorts(RowsOf(b, league, scope, view, names));
    RowsNamed(b, league, scope, view, names, r);
  }

  /** Who is in a field, and with what score: every entry of the league with a rate on some
      profile of the family that the filters let through, its points summed over the
      family's profiles and scaled by its completeness. */
  lemma FieldMembers(b: Board, league: League, scope: Family, view: View, r: Row)
    ensures r in BadgeComposite(b, league, scope, view) <==>
      && TierOf(b, r.fw) in league && HasRateIn(b, scope, r.fw)
      && (view.showTuned || r.fw !in b.meta || !b.meta[r.fw].tuned)
      && (view.language.None? || (r.fw in b.languages && b.languages[r.fw] == view.language.value))
      && r.score == Total(b, league, InFamily(b.profiles, scope), r.fw) * CompletenessFactor(b, scope, r.fw)
  {
    hide Total, CompletenessFactor, Names, Listed, HasRateIn, Columns, InFamily, BadgeComposite;
    RowsOfField(b, league, scope, view, r);
    ListedIff(b, league, scope, r.fw);
    if HasRateIn(b, scope, r.fw) {
      RateIsNamed(b, scope, r.fw);
    }
  }

  lemma ListedIff(b: Board, league: League, scope: Family, fw: string)
    ensures Listed(b, league, scope, fw) <==> TierOf(b, fw) in league && HasRateIn(b, scope, fw)
  {
    if TierOf(b, fw) in league {
      forall p ensures p in InFamily(b.profiles, scope) <==> p in b.profiles && BelongsTo(p.category, scope) {
        FamilyMembers(b.profiles, scope, p);
      }
      forall p ensures HasResult(b, league, p, fw) <==> Rps(ColumnOf(b, p.id), fw) > 0.0 {
        RateIsResult(b, league, p, fw);
      }
    }
  }

  // ---- League isolation -------------------------------------------------------------------

  /** Two boards with the same profiles and the same members of a league. */
  ghost predicate SameMembers(b: Board, b': Board, league: League) {
    && b.profiles == b'.profiles
    && (forall fw :: InLeague(b, league, fw) <==> InLeague(b', league, fw))
    && (forall fw :: InLeague(b, league, fw) ==> MetaOf(b, fw) == MetaOf(b', fw))
  }

  /** The same league inside two boards: same members, same results of theirs, whatever
      the entries outside it are and did. */
  ghost predicate SameLeague(b: Board, b': Board, league: League) {
    && SameMembers(b, b', league)
    && (forall pid, c: Cell :: InLeague(b, league, c.fw) ==> (c in ColumnOf(b, pid) <==> c in ColumnOf(b', pid)))
    && (forall pid :: OneCellEach(ColumnOf(b, pid)) && OneCellEach(ColumnOf(b', pid)))
  }

  lemma SameLeagueBack(b: Board, b': Board, league: League)
    requires SameLeague(b, b', league)
    ensures SameLeague(b', b, league)
  {
    hide ColumnOf, MetaOf;
  }

  lemma SameScope(b: Board, b': Board, league: League, p: Profile, fw: string)
    requires SameLeague(b, b', league) && InLeague(b, league, fw)
    ensures ScoredFor(b, p, fw) == ScoredFor(b', p, fw)
  {
  }

  lemma BarNoHigher(b: Board, b': Board, league: League, pid: string)
    requires SameLeague(b, b', league) && Bar(b, league, ColumnOf(b, pid)).Some?
    ensures Bar(b', league, ColumnOf(b', pid)).Some?
    ensures Bar(b', league, ColumnOf(b', pid)).value <= Bar(b, league, ColumnOf(b, pid)).value
  {
    var column, column' := ColumnOf(b, pid), ColumnOf(b', pid);
    var i := BarIsAttained(b, league, column);
    assert column[i] in column;
    var j :| 0 <= j < |column'| && column'[j] == column[i];
    BarIsLeast(b', league, column', j);
  }

  lemma SameBar(b: Board, b': Board, league: League, pid: string)
    requires SameLeague(b, b', league)
    ensures BarOf(b, league, pid) == BarOf(b', league, pid)
  {
    SameLeagueBack(b, b', league);
    if Bar(b, league, ColumnOf(b, pid)).Some? {
      BarNoHigher(b, b', league, pid);
    }
    if Bar(b', league, ColumnOf(b', pid)).Some? {
      BarNoHigher(b', b, league, pid);
    }
  }

  lemma {:induction false} LeaderNonNegative(b: Board, league: League, bar: Option<real>, column: seq<Cell>)
    ensures Leader(b, league, bar, column) >= 0.0
  {
    if column != [] {
      LeaderNonNegative(b, league, bar, column[..|column| - 1]);
    }
  }

  lemma MaxNoLower(b: Board, b': Board, league: League, pid: string)
    requires SameLeague(b, b', league)
    ensures MaxOf(b', league, pid) >= MaxOf(b, league, pid)
  {
    var bar := BarOf(b, league, pid);
    SameBar(b, b', league, pid);
    LeaderNonNegative(b', league, bar, ColumnOf(b', pid));
    if MaxOf(b, league, pid) > 0.0 {
      var c := LeaderIsAttained(b, league, bar, ColumnOf(b, pid));
      LeaderIsGreatest(b', league, bar, ColumnOf(b', pid), c);
    }
  }

  lemma SameCell(b: Board, b': Board, league: League, pid: string, fw: string)
    requires SameLeague(b, b', league) && InLeague(b, league, fw)
    ensures Find(ColumnOf(b, pid), fw) == Find(ColumnOf(b', pid), fw)
  {
    var column, column' := ColumnOf(b, pid), ColumnOf(b', pid);
    FindIsPresent(column, fw);
    FindIsPresent(column', fw);
    if Find(column, fw).Some? && Find(column', fw).Some? {
      var c, c' := Find(column, fw).value, Find(column', fw).value;
      var i :| 0 <= i < |column| && column[i] == c;
      assert c' in column;
      var j :| 0 <= j < |column| && column[j] == c';
      assert OneCellEach(column);
    }
  }

  /** Adding, dropping or changing results outside a league changes no contribution
      inside it on any profile that is not fixed-rate, json-comp included. */
  lemma LeagueIsolation(b: Board, b': Board, league: League, p: Profile, fw: string)
    requires SameLeague(b, b', league) && InLeague(b, league, fw) && LatencyScore.FullRate(p.id).None?
    ensures Contribution(b, league, p, fw) == Contribution(b', league, p, fw)
  {
    hide SameLeague, MaxOf, BarOf, Find, Effective, Contribution, HasResult, ScoredFor, InLeague, ColumnOf;
    SameLeagueBack(b, b', league);
    SameBar(b, b', league, p.id);
    MaxNoLower(b, b', league, p.id);
    MaxNoLower(b', b, league, p.id);
    SameCell(b, b', league, p.id, fw);
    SameScope(b, b', league, p, fw);
    ProfileCases(b, league, p, fw);
    ProfileCases(b', league, p, fw);
  }

  // ---- Display filters ----------------------------------------------------------------------

  lemma {:induction false} RowsNamed(b: Board, league: League, scope: Family, view: View, names: seq<string>, r: Row)
    ensures r in RowsOf(b, league, scope, view, names) <==>
      && r.fw in names && Listed(b, league, scope, r.fw) && Shown(b, view, r.fw)
      && r.score == ScoreOf(b, league, scope, r.fw)
  {
    hide Listed, Shown, ScoreOf;
    if names != [] {
      RowsNamed(b, league, scope, view, names[..|names| - 1], r);
      assert names == names[..|names| - 1] + [names[|names| - 1]];
    }
  }

  ghost predicate Distinct(names: seq<string>) {
    forall i, j :: 0 <= i < j < |names| ==> names[i] != names[j]
  }

  lemma {:induction false} RowsDistinct(b: Board, league: League, scope: Family, view: View, names: seq<string>)
    requires Distinct(names)
    ensures DistinctNames(RowsOf(b, league, scope, view, names))
  {
    hide Listed, Shown, ScoreOf;
    if names != [] {
      var front := names[..|names| - 1];
      var rows := RowsOf(b, league, scope, view, front);
      RowsDistinct(b, league, scope, view, front);
      forall k | 0 <= k < |rows| ensures rows[k].fw != names[|names| - 1] {
        RowsNamed(b, league, scope, view, front, rows[k]);
      }
    }
  }

  lemma {:induction false} AddNamesDistinct(names: seq<string>, column: seq<Cell>)
    requires Distinct(names)
    ensures Distinct(AddNames(names, column))
  {
    if column != [] {
      AddNamesDistinct(names, column[..|column| - 1]);
    }
  }

  lemma {:induction false} NamesDistinct(columns: seq<seq<Cell>>)
    ensures Distinct(Names(columns))
  {
    if columns != [] {
      NamesDistinct(columns[..|columns| - 1]);
      AddNamesDistinct(Names(columns[..|columns| - 1]), columns[|columns| - 1]);
    }
  }

  lemma {:induction false} FilterRows(b: Board, league: League, scope: Family, view: View, names: seq<string>,
      shown: set<string>)
    requires forall fw :: fw in names ==> (fw in shown <==> Shown(b, view, fw))
    ensures RowsOf(b, league, scope, view, names) == Keep(RowsOf(b, league, scope, EVERYTHING, names), shown)
  {
    if names != [] {
      var front, fw := names[..|names| - 1], names[|names| - 1];
      assert names == front + [fw];
      FilterRows(b, league, scope, view, front, shown);
      hide Listed, ScoreOf;
      assert Shown(b, EVERYTHING, fw);
      var all := RowsOf(b, league, scope, EVERYTHING, front);
      assert all + [] == all && Keep(all, shown) + [] == Keep(all, shown);
      KeepLast(all, Row(fw, ScoreOf(b, league, scope, fw)), shown);
    }
  }

  lemma KeepLast(rows: seq<Row>, row: Row, shown: set<string>)
    ensures Keep(rows + [row], shown) == Keep(rows, shown) + if row.fw in shown then [row] else []
  {
    assert (rows + [row])[..|rows|] == rows;
  }

  function NamesOf(b: Board, scope: Family): seq<string> {
    Names(Columns(b, InFamily(b.profiles, scope)))
  }

  function ShownNames(b: Board, scope: Family, view: View): set<string> {
    set fw | fw in NamesOf(b, scope) && Shown(b, view, fw)
  }

  /** Any filter gives the unfiltered ranking with the hidden entries struck out:
      same scores, same order. */
  lemma FiltersNeverRescore(b: Board, league: League, scope: Family, view: View)
    ensures BadgeComposite(b, league, scope, view) ==
      Keep(BadgeComposite(b, league, scope, EVERYTHING), ShownNames(b, scope, view))
  {
    var names, shown := NamesOf(b, scope), ShownNames(b, scope, view);
    var all := RowsOf(b, league, scope, EVERYTHING, names);
    NamesDistinct(Columns(b, InFamily(b.profiles, scope)));
    RowsDistinct(b, league, scope, EVERYTHING, names);
    FilterRows(b, league, scope, view, names, shown);
    SortThenKeep(all, shown);
  }
}
