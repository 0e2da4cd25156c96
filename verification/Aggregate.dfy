/**
 What the composite is computed from: for each framework, the average of its rows
 over the connection counts a profile is scored on.
 */
module Aggregate {
  import opened Composite
  import LatencyScore

  /** A published row; a missing number reads as zero. */
  datatype Row = Row(fw: string, rps: real, memory: real, bandwidth: real)

  datatype Tally = Tally(count: nat, rps: real, memory: real, bandwidth: real)

  const EMPTY := Tally(0, 0.0, 0.0, 0.0)

  /** The rows of a framework, in the order they are read. */
  function RowsOf(rows: seq<Row>, fw: string): seq<Row> {
    if rows == [] then []
    else RowsOf(rows[..|rows| - 1], fw) + if rows[|rows| - 1].fw == fw then [rows[|rows| - 1]] else []
  }

  function Add(t: Tally, r: Row): Tally {
    Tally(t.count + 1, t.rps + r.rps, t.memory + r.memory, t.bandwidth + r.bandwidth)
  }

  function TallyOf(rows: seq<Row>): (t: Tally)
    ensures t.count == |rows|
  {
    if rows == [] then EMPTY else Add(TallyOf(rows[..|rows| - 1]), rows[|rows| - 1])
  }

  function Average(fw: string, rows: seq<Row>): Cell
    requires rows != []
  {
    var t := TallyOf(rows);
    Cell(fw, t.rps / t.count as real, t.memory / t.count as real, t.bandwidth / t.count as real)
  }

  function Flatten(files: seq<seq<Row>>): seq<Row> {
    if files == [] then [] else Flatten(files[..|files| - 1]) + files[|files| - 1]
  }

  /** One cell for each framework that has a row: the average of its rows. */
  ghost predicate IsColumn(column: seq<Cell>, rows: seq<Row>) {
    && OneCellEach(column)
    && (forall c :: c in column ==> RowsOf(rows, c.fw) != [] && c == Average(c.fw, RowsOf(rows, c.fw)))
    && (forall fw :: RowsOf(rows, fw) != [] ==> exists c :: c in column && c.fw == fw)
  }

  /** The dictionaries of the loop: keys in order of first appearance, and sums so far. */
  ghost predicate Tallied(rows: seq<Row>, names: seq<string>, sums: map<string, Tally>) {
    && (forall i, j :: 0 <= i < j < |names| ==> names[i] != names[j])
    && (forall fw :: fw in names <==> fw in sums)
    && (forall fw :: TalliedAt(rows, sums, fw))
  }

  ghost predicate TalliedAt(rows: seq<Row>, sums: map<string, Tally>, fw: string) {
    if fw in sums then RowsOf(rows, fw) != [] && sums[fw] == TallyOf(RowsOf(rows, fw)) else RowsOf(rows, fw) == []
  }

  lemma NextRow(rows: seq<Row>, r: Row, fw: string)
    ensures RowsOf(rows + [r], fw) == if r.fw == fw then RowsOf(rows, fw) + [r] else RowsOf(rows, fw)
    ensures TallyOf(RowsOf(rows, fw) + [r]) == Add(TallyOf(RowsOf(rows, fw)), r)
  {
    assert (rows + [r])[..|rows|] == rows;
    assert (RowsOf(rows, fw) + [r])[..|RowsOf(rows, fw)|] == RowsOf(rows, fw);
  }

  function WithRow(sums: map<string, Tally>, r: Row): map<string, Tally> {
    sums[r.fw := Add(if r.fw in sums then sums[r.fw] else EMPTY, r)]
  }

  lemma TallyAt(rows: seq<Row>, sums: map<string, Tally>, r: Row, fw: string)
    requires TalliedAt(rows, sums, fw)
    ensures TalliedAt(rows + [r], WithRow(sums, r), fw)
  {
    assert TallyOf([]) == EMPTY;
    hide RowsOf, TallyOf, Add;
    NextRow(rows, r, fw);
  }

  lemma TallyRow(rows: seq<Row>, names: seq<string>, sums: map<string, Tally>, r: Row)
    requires Tallied(rows, names, sums)
    ensures Tallied(rows + [r], if r.fw in sums then names else names + [r.fw], WithRow(sums, r))
  {
    hide TalliedAt, Add;
    forall fw ensures TalliedAt(rows + [r], WithRow(sums, r), fw) {
      TallyAt(rows, sums, r, fw);
    }
  }

  method TallyFile(rows: seq<Row>, names: seq<string>, sums: map<string, Tally>, ghost before: seq<Row>)
    returns (names': seq<string>, sums': map<string, Tally>)
    requires Tallied(before, names, sums)
    ensures Tallied(before + rows, names', sums')
  {
    hide *;
    names', sums' := names, sums;
    assert before + rows[..0] == before;
    for i := 0 to |rows|
      invariant Tallied(before + rows[..i], names', sums')
    {
      var r := rows[i];
      TallyRow(before + rows[..i], names', sums', r);
      assert before + rows[..i + 1] == before + rows[..i] + [r];
      if r.fw !in sums' {
        names' := names' + [r.fw];
      }
      sums' := WithRow(sums', r);
    }
    assert rows[..|rows|] == rows;
  }

  /** `badge_aggregate`, for one profile. */
  method ColumnFor(files: seq<seq<Row>>) returns (column: seq<Cell>)
    ensures IsColumn(column, Flatten(files))
  {
    hide Tallied, RowsOf, TallyOf;
    var names: seq<string>, sums: map<string, Tally> := [], map[];
    assert Tallied([], [], map[]) by { NothingTallied(); }
    for f := 0 to |files|
      invariant Tallied(Flatten(files[..f]), names, sums)
    {
      assert files[..f + 1][..f] == files[..f];
      names, sums := TallyFile(files[f], names, sums, Flatten(files[..f]));
    }
    assert files[..|files|] == files;
    column := Divide(Flatten(files), names, sums);
  }

  lemma NothingTallied()
    ensures Tallied([], [], map[])
  {
  }

  method Divide(ghost rows: seq<Row>, names: seq<string>, sums: map<string, Tally>) returns (column: seq<Cell>)
    requires Tallied(rows, names, sums)
    ensures IsColumn(column, rows)
  {
    hide RowsOf, TallyOf;
    column := [];
    for k := 0 to |names|
      invariant |column| == k
      invariant forall j :: 0 <= j < k ==>
        RowsOf(rows, names[j]) != [] && column[j] == Average(names[j], RowsOf(rows, names[j]))
    {
      assert names[k] in names && TalliedAt(rows, sums, names[k]);
      var t := sums[names[k]];
      var n := t.count as real;
      column := column + [Cell(names[k], t.rps / n, t.memory / n, t.bandwidth / n)];
    }
    forall fw | RowsOf(rows, fw) != [] ensures exists c :: c in column && c.fw == fw {
      assert TalliedAt(rows, sums, fw) && fw in names;
      var j :| 0 <= j < |names| && names[j] == fw;
      assert column[j] in column && column[j].fw == fw;
    }
  }

  // ---- What an average is ------------------------------------------------------------------

  function Sum(values: seq<real>): real {
    if values == [] then 0.0 else values[0] + Sum(values[1..])
  }

  lemma {:induction false} SumSnoc(values: seq<real>, last: real)
    ensures Sum(values + [last]) == Sum(values) + last
  {
    if values == [] {
      assert values + [last] == [last] && [last][1..] == [];
    } else {
      assert (values + [last])[1..] == values[1..] + [last];
      SumSnoc(values[1..], last);
    }
  }

  function Scaled(x: real, n: nat): real {
    x * n as real
  }

  function Rates(rows: seq<Row>): (r: seq<real>)
    ensures |r| == |rows|
  {
    seq(|rows|, i requires 0 <= i < |rows| => rows[i].rps)
  }

  function Memories(rows: seq<Row>): (r: seq<real>)
    ensures |r| == |rows|
  {
    seq(|rows|, i requires 0 <= i < |rows| => rows[i].memory)
  }

  function Bandwidths(rows: seq<Row>): (r: seq<real>)
    ensures |r| == |rows|
  {
    seq(|rows|, i requires 0 <= i < |rows| => rows[i].bandwidth)
  }

  lemma {:induction false} TallyIsSum(rows: seq<Row>)
    ensures TallyOf(rows) == Tally(|rows|, Sum(Rates(rows)), Sum(Memories(rows)), Sum(Bandwidths(rows)))
  {
    if rows != [] {
      var front, last := rows[..|rows| - 1], rows[|rows| - 1];
      TallyIsSum(front);
      assert Rates(rows) == Rates(front) + [last.rps];
      assert Memories(rows) == Memories(front) + [last.memory];
      assert Bandwidths(rows) == Bandwidths(front) + [last.bandwidth];
      SumSnoc(Rates(front), last.rps);
      SumSnoc(Memories(front), last.memory);
      SumSnoc(Bandwidths(front), last.bandwidth);
    }
  }

  /** Number of rows times average is sum, column by column. */
  lemma AverageTimesCount(fw: string, rows: seq<Row>)
    requires rows != []
    ensures var c := Average(fw, rows);
      && c.fw == fw && Scaled(c.rps, |rows|) == Sum(Rates(rows))
      && Scaled(c.memory, |rows|) == Sum(Memories(rows)) && Scaled(c.bandwidth, |rows|) == Sum(Bandwidths(rows))
  {
    TallyIsSum(rows);
    hide TallyOf, Sum;
  }

  lemma {:induction false} RowsOfSplits(x: seq<Row>, y: seq<Row>, fw: string)
    ensures RowsOf(x + y, fw) == RowsOf(x, fw) + RowsOf(y, fw)
  {
    if y == [] {
      assert x + y == x;
    } else {
      RowsOfSplits(x, y[..|y| - 1], fw);
      assert (x + y)[..|x + y| - 1] == x + y[..|y| - 1];
    }
  }

  /** A framework's rows are those that bear its name, in the order they stand in. */
  lemma RowsOfOne(r: Row, fw: string)
    ensures RowsOf([r], fw) == if r.fw == fw then [r] else []
  {
    assert [r][..0] == [] && RowsOf([], fw) == [];
  }

  // ---- What an average depends on ------------------------------------------------------

  lemma QuotientBounds(sum: real, n: nat, lo: real, hi: real)
    requires n > 0 && Scaled(lo, n) <= sum <= Scaled(hi, n)
    ensures lo <= sum / n as real <= hi
  {
    var q := sum / n as real;
    assert Scaled(q, n) == sum;
    if q < lo {
      ScaledStrictly(q, lo, n);
    }
    if q > hi {
      ScaledStrictly(hi, q, n);
    }
  }

  lemma ScaledStrictly(x: real, y: real, n: nat)
    requires x < y && n > 0
    ensures Scaled(x, n) < Scaled(y, n)
  {
  }

  lemma OneMore(x: real, n: nat)
    ensures Scaled(x, n + 1) == Scaled(x, n) + x
  {
  }

  lemma {:induction false} SumBounds(rows: seq<Row>, lo: real, hi: real)
    requires forall r :: r in rows ==> lo <= r.rps <= hi
    ensures Scaled(lo, |rows|) <= TallyOf(rows).rps <= Scaled(hi, |rows|)
  {
    if rows != [] {
      var front := rows[..|rows| - 1];
      SumBounds(front, lo, hi);
      assert rows[|rows| - 1] in rows;
      OneMore(lo, |front|);
      OneMore(hi, |front|);
      hide Scaled;
    }
  }

  /** An average lies between the lowest and the highest of its rows. */
  lemma AverageIsBetween(fw: string, rows: seq<Row>, lo: real, hi: real)
    requires rows != [] && forall r :: r in rows ==> lo <= r.rps <= hi
    ensures lo <= Average(fw, rows).rps <= hi
  {
    SumBounds(rows, lo, hi);
    hide Scaled;
    QuotientBounds(TallyOf(rows).rps, |rows|, lo, hi);
  }

  /** Columns built from rows that agree on a league's frameworks have the same cells for
      them, whatever rows other frameworks have and wherever they stand in between. */
  lemma SameRowsSameCells(b: Board, league: League, rows: seq<Row>, rows': seq<Row>, column: seq<Cell>,
      column': seq<Cell>, c: Cell)
    requires IsColumn(column, rows) && IsColumn(column', rows')
    requires forall fw :: InLeague(b, league, fw) ==> RowsOf(rows, fw) == RowsOf(rows', fw)
    requires InLeague(b, league, c.fw)
    ensures c in column <==> c in column'
  {
    hide InLeague, Average;
    CellIsThere(column, rows, c.fw);
    CellIsThere(column', rows', c.fw);
  }

  lemma CellIsThere(column: seq<Cell>, rows: seq<Row>, fw: string)
    requires IsColumn(column, rows)
    ensures forall c :: c in column && c.fw == fw ==> RowsOf(rows, fw) != [] && c == Average(fw, RowsOf(rows, fw))
    ensures RowsOf(rows, fw) != [] ==> Average(fw, RowsOf(rows, fw)) in column
  {
    if RowsOf(rows, fw) != [] {
      var c :| c in column && c.fw == fw;
    }
  }

  /** The files a profile is averaged over, one for each connection count. */
  type Published = map<string, seq<seq<Row>>>

  function RowsUnder(published: Published, pid: string): seq<Row> {
    if pid in published then Flatten(published[pid]) else []
  }

  /** The board's columns are the averages of the published rows. */
  ghost predicate ComputedFrom(b: Board, published: Published) {
    forall pid :: IsColumn(ColumnOf(b, pid), RowsUnder(published, pid))
  }

  ghost predicate SameRowsWithin(b: Board, league: League, published: Published, published': Published) {
    forall pid, fw :: InLeague(b, league, fw) ==>
      RowsOf(RowsUnder(published, pid), fw) == RowsOf(RowsUnder(published', pid), fw)
  }

  lemma SameRowsSameLeague(b: Board, b': Board, league: League, published: Published, published': Published)
    requires ComputedFrom(b, published) && ComputedFrom(b', published')
    requires SameMembers(b, b', league) && SameRowsWithin(b, league, published, published')
    ensures SameLeague(b, b', league)
  {
    hide RowsUnder, ColumnOf, InLeague, SameMembers, RowsOf;
    forall pid ensures OneCellEach(ColumnOf(b, pid)) && OneCellEach(ColumnOf(b', pid)) {
      assert IsColumn(ColumnOf(b, pid), RowsUnder(published, pid));
      assert IsColumn(ColumnOf(b', pid), RowsUnder(published', pid));
    }
    hide IsColumn;
    forall pid, c: Cell | InLeague(b, league, c.fw) ensures c in ColumnOf(b, pid) <==> c in ColumnOf(b', pid) {
      assert IsColumn(ColumnOf(b, pid), RowsUnder(published, pid));
      assert IsColumn(ColumnOf(b', pid), RowsUnder(published', pid));
      SameRowsSameCells(b, league, RowsUnder(published, pid), RowsUnder(published', pid),
        ColumnOf(b, pid), ColumnOf(b', pid), c);
    }
  }

  /** From published rows to contributions: rows of entries outside a league, however many
      and wherever they stand in the files, move nothing inside it. */
  lemma RowsOutsideMoveNothing(b: Board, b': Board, league: League, published: Published, published': Published,
      p: Profile, fw: string)
    requires ComputedFrom(b, published) && ComputedFrom(b', published')
    requires SameMembers(b, b', league) && SameRowsWithin(b, league, published, published')
    requires InLeague(b, league, fw) && LatencyScore.FullRate(p.id).None?
    ensures Contribution(b, league, p, fw) == Contribution(b', league, p, fw)
  {
    hide *;
    SameRowsSameLeague(b, b', league, published, published');
    LeagueIsolation(b, b', league, p, fw);
  }
}
