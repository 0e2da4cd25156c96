/**
 Ordering the rows of a board and giving them places: best score first, equal
 scores by name, and competition ranks in which near ties share a place.
 */
module Ranking {
  import opened Names

  datatype Row = Row(fw: string, score: real)

  datatype Placed = Placed(fw: string, rank: nat, total: nat, score: real)

  // ---- The sort key (-score, name) ----------------------------------------------

  predicate Before(a: Row, b: Row) {
    a.score > b.score || (a.score == b.score && NameLess(a.fw, b.fw))
  }

  lemma BeforeTransitive(a: Row, b: Row, c: Row)
    requires Before(a, b) && Before(b, c)
    ensures Before(a, c)
  {
    if a.score == c.score {
      NameLessTransitive(a.fw, b.fw, c.fw);
    }
  }

  /** Rows of different names are strictly ordered one way or the other. */
  lemma BeforeTotal(a: Row, b: Row)
    requires a.fw != b.fw
    ensures Before(a, b) != Before(b, a)
  {
    NameLessTotal(a.fw, b.fw);
    NameLessIrreflexive(a.fw);
    if NameLess(a.fw, b.fw) && NameLess(b.fw, a.fw) {
      NameLessTransitive(a.fw, b.fw, a.fw);
    }
  }

  // ---- Sorting --------------------------------------------------------------------

  ghost predicate Sorted(rows: seq<Row>) {
    forall i, j :: 0 <= i < j < |rows| ==> Before(rows[i], rows[j])
  }

  ghost predicate DistinctNames(rows: seq<Row>) {
    forall i, j :: 0 <= i < j < |rows| ==> rows[i].fw != rows[j].fw
  }

  ghost predicate SameRows(a: seq<Row>, b: seq<Row>) {
    forall r :: r in a <==> r in b
  }

  /** Where a row goes in a sorted list. */
  function Insert(row: Row, rows: seq<Row>): seq<Row> {
    if rows == [] || Before(row, rows[0]) then [row] + rows
    else [rows[0]] + Insert(row, rows[1..])
  }

  /** `rows.sort(key=lambda r: (-r[1], r[0]))` */
  function SortRows(rows: seq<Row>): seq<Row> {
    if rows == [] then [] else Insert(rows[0], SortRows(rows[1..]))
  }

  lemma {:induction false} InsertSorted(row: Row, rows: seq<Row>)
    requires Sorted(rows) && forall r :: r in rows ==> r.fw != row.fw
    ensures Sorted(Insert(row, rows)) && SameRows(Insert(row, rows), [row] + rows)
    ensures |Insert(row, rows)| == |rows| + 1
  {
    if rows == [] {
    } else if Before(row, rows[0]) {
      forall j | 0 < j < |rows| ensures Before(row, rows[j]) {
        BeforeTransitive(row, rows[0], rows[j]);
      }
    } else {
      InsertSorted(row, rows[1..]);
      BeforeTotal(row, rows[0]);
      var rest := Insert(row, rows[1..]);
      forall j | 0 <= j < |rest| ensures Before(rows[0], rest[j]) {
        assert rest[j] in [row] + rows[1..];
      }
      assert rows == [rows[0]] + rows[1..];
    }
  }

  lemma {:induction false} SortSorts(rows: seq<Row>)
    requires DistinctNames(rows)
    ensures Sorted(SortRows(rows)) && SameRows(SortRows(rows), rows) && |SortRows(rows)| == |rows|
    ensures var r := SortRows(rows); forall i, j :: 0 <= i < j < |r| ==>
      r[i].score > r[j].score || (r[i].score == r[j].score && NameLess(r[i].fw, r[j].fw))
  {
    if rows != [] {
      var rest := rows[1..];
      SortSorts(rest);
      forall r | r in SortRows(rest) ensures r.fw != rows[0].fw {
        assert r in rest;
      }
      InsertSorted(rows[0], SortRows(rest));
      assert rows == [rows[0]] + rest;
    }
  }

  lemma SortedHasNoRepeats(rows: seq<Row>, i: nat, j: nat)
    requires Sorted(rows) && i < j < |rows|
    ensures rows[i] != rows[j]
  {
    NameLessIrreflexive(rows[i].fw);
  }

  /** There is one way to sort a set of rows. */
  lemma {:induction false} SortedUnique(a: seq<Row>, b: seq<Row>)
    requires Sorted(a) && Sorted(b) && SameRows(a, b)
    ensures a == b
  {
    SameRowsBothEmpty(a, b);
    if a != [] {
      assert a[0] in b && b[0] in a;
      assert a[0] == b[0] by {
        if a[0] != b[0] {
          BeforeTransitive(a[0], b[0], a[0]);
          NameLessIrreflexive(a[0].fw);
        }
      }
      var x, y := a[1..], b[1..];
      forall r ensures r in x <==> r in y {
        if r in x { SameTail(a, b, r); }
        if r in y { SameTail(b, a, r); }
      }
      SortedUnique(x, y);
      assert a == [a[0]] + x && b == [b[0]] + y;
    }
  }

  lemma SameRowsBothEmpty(a: seq<Row>, b: seq<Row>)
    ensures SameRows(a, b) ==> (a == [] <==> b == [])
  {
    if a != [] { assert a[0] in a; }
    if b != [] { assert b[0] in b; }
  }

  lemma SameTail(a: seq<Row>, b: seq<Row>, r: Row)
    requires Sorted(a) && SameRows(a, b) && a != [] && b != [] && a[0] == b[0] && r in a[1..]
    ensures r in b[1..]
  {
    var i :| 0 <= i < |a| - 1 && a[1..][i] == r;
    SortedHasNoRepeats(a, 0, i + 1);
    assert a[i + 1] in b;
  }

  // ---- Filtering ------------------------------------------------------------------

  function Keep(rows: seq<Row>, shown: set<string>): seq<Row> {
    if rows == [] then []
    else
      var last := rows[|rows| - 1];
      Keep(rows[..|rows| - 1], shown) + if last.fw in shown then [last] else []
  }

  lemma {:induction false} KeepMembers(rows: seq<Row>, shown: set<string>, r: Row)
    ensures r in Keep(rows, shown) <==> r in rows && r.fw in shown
  {
    if rows != [] {
      var front, last := rows[..|rows| - 1], rows[|rows| - 1];
      KeepMembers(front, shown, r);
      assert rows == front + [last];
    }
  }

  lemma {:induction false} KeepSorted(rows: seq<Row>, shown: set<string>)
    requires Sorted(rows)
    ensures Sorted(Keep(rows, shown))
  {
    if rows != [] {
      var front, last := rows[..|rows| - 1], rows[|rows| - 1];
      KeepSorted(front, shown);
      forall j | 0 <= j < |Keep(front, shown)| ensures Before(Keep(front, shown)[j], last) {
        KeepMembers(front, shown, Keep(front, shown)[j]);
      }
    }
  }

  lemma {:induction false} KeepDistinct(rows: seq<Row>, shown: set<string>)
    requires DistinctNames(rows)
    ensures DistinctNames(Keep(rows, shown))
  {
    if rows != [] {
      var front, last := rows[..|rows| - 1], rows[|rows| - 1];
      KeepDistinct(front, shown);
      forall j | 0 <= j < |Keep(front, shown)| ensures Keep(front, shown)[j].fw != last.fw {
        KeepMembers(front, shown, Keep(front, shown)[j]);
      }
    }
  }

  /** Filtering before or after the sort gives the same list. */
  lemma SortThenKeep(rows: seq<Row>, shown: set<string>)
    requires DistinctNames(rows)
    ensures SortRows(Keep(rows, shown)) == Keep(SortRows(rows), shown)
  {
    SortSorts(rows);
    KeepSorted(SortRows(rows), shown);
    KeepDistinct(rows, shown);
    SortSorts(Keep(rows, shown));
    forall r ensures r in SortRows(Keep(rows, shown)) <==> r in Keep(SortRows(rows), shown) {
      KeepMembers(rows, shown, r);
      KeepMembers(SortRows(rows), shown, r);
    }
    SortedUnique(SortRows(Keep(rows, shown)), Keep(SortRows(rows), shown));
  }

  // ---- Competition ranks -----------------------------------------------------------

  const TIE: real := 0.000000001

  function Gap(rows: seq<Row>, i: nat): real
    requires 0 < i < |rows|
  {
    var d := rows[i - 1].score - rows[i].score;
    if d < 0.0 then -d else d
  }

  /** A row shares its predecessor's rank when their scores are closer than the tie width. */
  function RankAt(rows: seq<Row>, i: nat): (rank: nat)
    requires i < |rows|
    ensures 1 <= rank <= i + 1
  {
    if i > 0 && Gap(rows, i) < TIE then RankAt(rows, i - 1) else i + 1
  }

  method Ranked(rows: seq<Row>) returns (out: seq<Placed>)
    ensures |out| == |rows|
    ensures forall i :: 0 <= i < |rows| ==>
      out[i] == Placed(rows[i].fw, RankAt(rows, i), |rows|, rows[i].score)
  {
    out := [];
    var prevScore, prevRank := 0.0, 0;
    for i := 0 to |rows|
      invariant |out| == i
      invariant forall k :: 0 <= k < i ==> out[k] == Placed(rows[k].fw, RankAt(rows, k), |rows|, rows[k].score)
      invariant i > 0 ==> prevScore == rows[i - 1].score && prevRank == RankAt(rows, i - 1)
    {
      var score := rows[i].score;
      var gap := if prevScore < score then score - prevScore else prevScore - score;
      var rank := if i > 0 && gap < TIE then prevRank else i + 1;
      prevScore, prevRank := score, rank;
      out := out + [Placed(rows[i].fw, rank, |rows|, score)];
    }
  }

  /** Closer than a billionth, either way round. */
  predicate NearTie(x: real, y: real) {
    -0.000000001 < x - y < 0.000000001
  }

  /** A rank is one plus the start of the maximal run of near ties the row is in. */
  lemma {:induction false} RankIsRunStart(rows: seq<Row>, i: nat)
    requires i < |rows|
    ensures var start := RankAt(rows, i) - 1;
      && start <= i
      && (start > 0 ==> !NearTie(rows[start - 1].score, rows[start].score))
      && forall k :: start < k <= i ==> NearTie(rows[k - 1].score, rows[k].score)
  {
    if i > 0 && Gap(rows, i) < TIE {
      RankIsRunStart(rows, i - 1);
    }
  }

  function CountBetter(rows: seq<Row>, score: real): nat {
    if rows == [] then 0
    else (if rows[|rows| - 1].score > score then 1 else 0) + CountBetter(rows[..|rows| - 1], score)
  }

  ghost predicate Descending(rows: seq<Row>) {
    forall i, j :: 0 <= i < j < |rows| ==> rows[i].score >= rows[j].score
  }

  /** Neighbours are either level or at least the tie width apart. */
  ghost predicate Separated(rows: seq<Row>) {
    forall i: nat :: 0 < i < |rows| ==> LevelOrApart(rows, i)
  }

  predicate LevelOrApart(rows: seq<Row>, i: nat)
    requires 0 < i < |rows|
  {
    rows[i - 1].score == rows[i].score || Gap(rows, i) >= TIE
  }

  /** In a descending list the strictly better rows are a prefix. */
  lemma {:induction false} CountPrefix(rows: seq<Row>, score: real, n: nat)
    requires Descending(rows) && n <= |rows|
    requires forall i :: 0 <= i < n ==> rows[i].score > score
    requires forall i :: n <= i < |rows| ==> rows[i].score <= score
    ensures CountBetter(rows, score) == n
  {
    if rows != [] {
      var front := rows[..|rows| - 1];
      CountPrefix(front, score, if n == |rows| then n - 1 else n);
    }
  }

  predicate CountsBetter(rows: seq<Row>, i: nat) {
    i < |rows| && RankAt(rows, i) == 1 + CountBetter(rows, rows[i].score)
  }

  /** Every rank is one plus the number of strictly better rows exactly when
      neighbouring scores are level or properly apart. */
  lemma RanksCountBetterIffSeparated(rows: seq<Row>)
    requires Descending(rows)
    ensures (forall i: nat :: i < |rows| ==> CountsBetter(rows, i)) <==> Separated(rows)
  {
    if Separated(rows) {
      forall i: nat | i < |rows| ensures CountsBetter(rows, i) {
        RankCountsBetter(rows, i);
      }
    } else {
      var i: nat :| 0 < i < |rows| && !LevelOrApart(rows, i);
      NearTieMiscounts(rows, i);
      assert !CountsBetter(rows, i);
    }
  }

  lemma NearTieMiscounts(rows: seq<Row>, i: nat)
    requires Descending(rows) && 0 < i < |rows| && rows[i - 1].score != rows[i].score && Gap(rows, i) < TIE
    ensures !CountsBetter(rows, i)
  {
    var n := LevelEnd(rows, i);
    CountPrefix(rows, rows[i].score, i);
  }

  lemma LevelEnd(rows: seq<Row>, i: nat) returns (n: nat)
    requires Descending(rows) && 0 < i < |rows| && rows[i - 1].score != rows[i].score
    ensures n == i && forall k :: 0 <= k < i ==> rows[k].score > rows[i].score
  {
    n := i;
    forall k | 0 <= k < i ensures rows[k].score > rows[i].score {
      assert rows[k].score >= rows[i - 1].score > rows[i].score;
    }
  }

  lemma {:induction false} RankCountsBetter(rows: seq<Row>, i: nat)
    requires Descending(rows) && Separated(rows) && i < |rows|
    ensures RankAt(rows, i) == 1 + CountBetter(rows, rows[i].score)
  {
    if i > 0 && Gap(rows, i) < TIE {
      assert LevelOrApart(rows, i);
      RankCountsBetter(rows, i - 1);
    } else {
      if i > 0 {
        assert LevelOrApart(rows, i);
        var n := LevelEnd(rows, i);
      }
      CountPrefix(rows, rows[i].score, i);
    }
  }

  // ---- Narrowing the field ----------------------------------------------------------

  /** A sub-list, told by where each of its rows sits in the full list. */
  ghost predicate Picks(field: seq<Row>, rows: seq<Row>, at: seq<nat>) {
    && |at| == |field|
    && (forall i :: 0 <= i < |at| ==> at[i] < |rows| && rows[at[i]] == field[i])
    && forall i, j :: 0 <= i < j < |at| ==> at[i] < at[j]
  }

  lemma {:induction false} KeepPicks(rows: seq<Row>, shown: set<string>) returns (at: seq<nat>)
    ensures Picks(Keep(rows, shown), rows, at)
  {
    at := [];
    if rows != [] {
      var front, last := rows[..|rows| - 1], rows[|rows| - 1];
      var before := KeepPicks(front, shown);
      at := before;
      if last.fw in shown {
        at := before + [|front|];
      }
      forall i | 0 <= i < |at| ensures at[i] < |rows| && rows[at[i]] == Keep(rows, shown)[i] {
        assert i < |before| ==> rows[at[i]] == front[before[i]];
      }
    }
  }

  /** Every row is within the tie width of the first row it shares its rank with. */
  ghost predicate NarrowRuns(rows: seq<Row>) {
    forall i: nat :: i < |rows| ==> NearItsFirst(rows, i)
  }

  predicate NearItsFirst(rows: seq<Row>, i: nat)
    requires i < |rows|
  {
    rows[RankAt(rows, i) - 1].score - rows[i].score < TIE
  }

  /** Row j of the filtered list is row i of the full one, and ranks no worse. */
  ghost predicate RanksNoWorse(rows: seq<Row>, shown: set<string>, i: nat, j: nat) {
    i < |rows| && j < |Keep(rows, shown)| && Keep(rows, shown)[j] == rows[i] ==>
      RankAt(Keep(rows, shown), j) <= RankAt(rows, i)
  }

  /** Rows less than the tie width apart share a run, and the upper one is as near to
      its first row as the lower one is. */
  lemma NearRowsShareRun(rows: seq<Row>, k: nat, i: nat)
    requires Descending(rows) && k <= i < |rows| && rows[k].score - rows[i].score < TIE
    ensures RankAt(rows, i) - 1 <= k && RankAt(rows, k) == RankAt(rows, i)
    ensures NearItsFirst(rows, i) ==> NearItsFirst(rows, k)
  {
    RankIsRunStart(rows, i);
    SameRun(rows, k, i);
  }

  lemma {:induction false} SameRun(rows: seq<Row>, k: nat, i: nat)
    requires k <= i < |rows| && RankAt(rows, i) - 1 <= k
    ensures RankAt(rows, k) == RankAt(rows, i)
  {
    if k < i {
      SameRun(rows, k, i - 1);
    }
  }

  lemma {:induction false} PicksRankNoWorse(rows: seq<Row>, field: seq<Row>, at: seq<nat>, j: nat)
    requires Descending(rows) && Picks(field, rows, at) && j < |field| && NearItsFirst(rows, at[j])
    ensures RankAt(field, j) <= RankAt(rows, at[j])
  {
    if j > 0 {
      var k, i := at[j - 1], at[j];
      assert k < i && rows[k].score >= rows[i].score;
      if Gap(field, j) < TIE {
        NearRowsShareRun(rows, k, i);
        PicksRankNoWorse(rows, field, at, j - 1);
      } else {
        var start := RankAt(rows, i) - 1;
        assert k < start;
        PicksShorter(start, at[..j]);
      }
    }
  }

  lemma {:induction false} KeepAll(rows: seq<Row>, shown: set<string>)
    requires forall r :: r in rows ==> r.fw in shown
    ensures Keep(rows, shown) == rows
  {
    if rows != [] {
      var front, last := rows[..|rows| - 1], rows[|rows| - 1];
      assert rows == front + [last];
      KeepAll(front, shown);
    }
  }

  lemma {:induction false} KeepNone(rows: seq<Row>, shown: set<string>)
    requires forall r :: r in rows ==> r.fw !in shown
    ensures Keep(rows, shown) == []
  {
    if rows != [] {
      var front, last := rows[..|rows| - 1], rows[|rows| - 1];
      assert rows == front + [last];
      KeepNone(front, shown);
    }
  }

  lemma {:induction false} KeepConcat(a: seq<Row>, b: seq<Row>, shown: set<string>)
    ensures Keep(a + b, shown) == Keep(a, shown) + Keep(b, shown)
  {
    if b == [] {
      assert a + b == a;
    } else {
      var front, last := b[..|b| - 1], b[|b| - 1];
      assert (a + b)[..|a + b| - 1] == a + front;
      KeepConcat(a, front, shown);
    }
  }

  function NamesIn(rows: seq<Row>): set<string> {
    set r | r in rows :: r.fw
  }

  lemma NamesApart(rows: seq<Row>, from: nat, to: nat, s: nat, i: nat)
    requires DistinctNames(rows) && s < i < |rows| && s < from <= to <= |rows| && (to <= i || i < from)
    ensures forall r :: r in rows[from..to] ==> r.fw !in NamesIn(rows[..s + 1]) + {rows[i].fw}
  {
    forall r | r in rows[from..to] ensures r.fw !in NamesIn(rows[..s + 1]) + {rows[i].fw} {
      var k :| from <= k < to && rows[k] == r;
      forall q | q in rows[..s + 1] ensures q.fw != r.fw {
        var m :| 0 <= m < s + 1 && rows[m] == q;
      }
    }
  }

  lemma KeepPieces(head: seq<Row>, middle: seq<Row>, row: Row, tail: seq<Row>, shown: set<string>)
    requires (forall r :: r in head ==> r.fw in shown) && row.fw in shown
    requires (forall r :: r in middle ==> r.fw !in shown) && (forall r :: r in tail ==> r.fw !in shown)
    ensures Keep(head + middle + [row] + tail, shown) == head + [row]
  {
    hide Keep;
    calc {
      Keep(head + middle + [row] + tail, shown);
    ==  { KeepConcat(head + middle + [row], tail, shown); KeepNone(tail, shown); }
      Keep(head + middle + [row], shown);
    ==  { KeepConcat(head + middle, [row], shown); KeepAll([row], shown); }
      Keep(head + middle, shown) + [row];
    ==  { KeepConcat(head, middle, shown); KeepNone(middle, shown); }
      Keep(head, shown) + [row];
    ==  { KeepAll(head, shown); }
      head + [row];
    }
  }

  /** Any first rows and one further row can be all that is shown. */
  lemma KeepFirstAnd(rows: seq<Row>, s: nat, i: nat)
    requires DistinctNames(rows) && s < i < |rows|
    ensures Keep(rows, NamesIn(rows[..s + 1]) + {rows[i].fw}) == rows[..s + 1] + [rows[i]]
  {
    NamesApart(rows, s + 1, i, s, i);
    NamesApart(rows, i + 1, |rows|, s, i);
    FirstNamed(rows[..s + 1], rows[i]);
    FourPieces(rows, s, i);
    hide *;
    KeepPieces(rows[..s + 1], rows[s + 1..i], rows[i], rows[i + 1..|rows|], NamesIn(rows[..s + 1]) + {rows[i].fw});
  }

  lemma FirstNamed(head: seq<Row>, row: Row)
    ensures forall r :: r in head ==> r.fw in NamesIn(head) + {row.fw}
  {
  }

  lemma FourPieces(rows: seq<Row>, s: nat, i: nat)
    requires s < i < |rows|
    ensures rows == rows[..s + 1] + rows[s + 1..i] + [rows[i]] + rows[i + 1..|rows|]
  {
  }

  /** Hiding what lies between the first row of a run and a row too far below it gives
      the latter a rank of its own. */
  lemma WideRunBreaks(rows: seq<Row>, i: nat) returns (shown: set<string>, j: nat)
    requires Descending(rows) && DistinctNames(rows) && i < |rows| && !NearItsFirst(rows, i)
    ensures !RanksNoWorse(rows, shown, i, j)
  {
    var s := RankAt(rows, i) - 1;
    assert s < i;
    KeepFirstAnd(rows, s, i);
    shown, j := NamesIn(rows[..s + 1]) + {rows[i].fw}, s + 1;
    hide Keep, NamesIn;
  }

  /** No filter worsens the rank of a row exactly if the row is within the tie width of
      the first row it shares its rank with. */
  lemma RankNeverWorsensIff(rows: seq<Row>, i: nat)
    requires Descending(rows) && DistinctNames(rows) && i < |rows|
    ensures (forall shown, j: nat :: RanksNoWorse(rows, shown, i, j)) <==> NearItsFirst(rows, i)
  {
    if NearItsFirst(rows, i) {
      forall shown, j: nat ensures RanksNoWorse(rows, shown, i, j) {
        if j < |Keep(rows, shown)| && Keep(rows, shown)[j] == rows[i] {
          NarrowingNeverHurts(rows, shown, i, j);
        }
      }
    } else {
      var shown, j := WideRunBreaks(rows, i);
    }
  }

  /** Showing fewer entries never worsens any rank, whatever is hidden, exactly if every
      run of near ties is narrower than the tie width. */
  lemma NarrowingNeverHurtsIff(rows: seq<Row>)
    requires Descending(rows) && DistinctNames(rows)
    ensures (forall shown, i: nat, j: nat :: RanksNoWorse(rows, shown, i, j)) <==> NarrowRuns(rows)
  {
    if NarrowRuns(rows) {
      forall shown, i: nat, j: nat ensures RanksNoWorse(rows, shown, i, j) {
        if i < |rows| {
          RankNeverWorsensIff(rows, i);
        }
      }
    } else {
      var i: nat :| i < |rows| && !NearItsFirst(rows, i);
      RankNeverWorsensIff(rows, i);
    }
  }

  /** And it never enlarges the field. */
  lemma NarrowingNeverHurts(rows: seq<Row>, shown: set<string>, i: nat, j: nat)
    requires Descending(rows) && DistinctNames(rows) && i < |rows|
    requires j < |Keep(rows, shown)| && Keep(rows, shown)[j] == rows[i]
    ensures NearItsFirst(rows, i) ==> RankAt(Keep(rows, shown), j) <= RankAt(rows, i)
    ensures |Keep(rows, shown)| <= |rows|
  {
    var at := KeepPicks(rows, shown);
    assert at[j] == i;
    if NearItsFirst(rows, i) {
      PicksRankNoWorse(rows, Keep(rows, shown), at, j);
    }
    PicksShorter(|rows|, at);
  }

  /** Scores that are level or properly apart make narrow runs, but so do many others. */
  lemma {:induction false} SeparatedIsNarrow(rows: seq<Row>, i: nat)
    requires Descending(rows) && Separated(rows) && i < |rows|
    ensures rows[RankAt(rows, i) - 1].score == rows[i].score && NearItsFirst(rows, i)
  {
    if i > 0 && Gap(rows, i) < TIE {
      assert LevelOrApart(rows, i);
      SeparatedIsNarrow(rows, i - 1);
    }
  }

  lemma {:induction false} PicksShorter(n: nat, at: seq<nat>)
    requires forall i :: 0 <= i < |at| ==> at[i] < n
    requires forall i, j :: 0 <= i < j < |at| ==> at[i] < at[j]
    ensures |at| <= n
  {
    if at != [] {
      var front := at[..|at| - 1];
      PicksShorter(at[|at| - 1], front);
    }
  }

  lemma MiddleHidden(a: Row, b: Row, c: Row, shown: set<string>)
    requires a.fw in shown && b.fw !in shown && c.fw in shown
    ensures Keep([a, b, c], shown) == [a, c]
  {
    KeepPieces([a], [b], c, [], shown);
    assert [a] + [b] + [c] + [] == [a, b, c] && [a] + [c] == [a, c];
  }

  /** Wide runs do occur: three scores, each 0.6e-9 from the next, all share first
      place, and hiding the middle one drops the last to second. */
  lemma NearTieChainBreaks() returns (rows: seq<Row>, shown: set<string>)
    ensures Descending(rows) && !NarrowRuns(rows) && |rows| == 3
    ensures Keep(rows, shown) == [rows[0], rows[2]]
    ensures RankAt(rows, 2) == 1 && RankAt(Keep(rows, shown), 1) == 2
  {
    var a, b, c := Row("a", 10.0), Row("b", 10.0 - 0.0000000006), Row("c", 10.0 - 0.0000000012);
    rows, shown := [a, b, c], {"a", "c"};
    var kept := [a, c];
    MiddleHidden(a, b, c, shown);
    hide Keep;
    assert Gap(rows, 1) < TIE && Gap(rows, 2) < TIE && Gap(kept, 1) >= TIE;
    assert RankAt(rows, 0) == 1 && RankAt(rows, 1) == 1 && RankAt(rows, 2) == 1;
    assert !NearItsFirst(rows, 2);
  }
}
