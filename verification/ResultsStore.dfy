/**
 The results store: flat arrays of rows turned into one file per framework, runs
 merged into those files, stale files purged, and the flat view rebuilt from them.
 */
module ResultsStore {
  import opened Basics
  import opened Names
  import opened Slugs

  /** A result row: the framework it names ("" when it names none) and all else it holds. */
  datatype Row = Row(framework: string, rest: string)

  datatype Item = Entry(row: Row) | Other

  datatype FlatFile = Unreadable | NotAList | Array(items: seq<Item>)

  /** A file of results/; `results` is None unless it holds an object of that name. */
  datatype ResultFile = Corrupt | Stored(framework: string, results: Option<map<string, Row>>)

  /** Files are keyed by their stem and listed by their full name. */
  type Files = map<string, ResultFile>

  const NON_RESULT: set<string> := {"frameworks", "current", "langcolors"}

  // ---- Rows under keys ---------------------------------------------------------------

  datatype Keyed = Keyed(key: string, row: Row)

  /** The rows of a flat array that name a framework. */
  function NamedRows(items: seq<Item>): seq<Row> {
    if items == [] then []
    else
      var last := items[|items| - 1];
      NamedRows(items[..|items| - 1]) + if last.Entry? && last.row.framework != "" then [last.row] else []
  }

  function RowsIn(flat: map<string, FlatFile>, key: string): seq<Row> {
    if key in flat && key !in NON_RESULT && flat[key].Array? then NamedRows(flat[key].items) else []
  }

  function Label(key: string, rows: seq<Row>): (r: seq<Keyed>)
    ensures |r| == |rows| && forall i :: 0 <= i < |r| ==> r[i] == Keyed(key, rows[i])
  {
    seq(|rows|, i requires 0 <= i < |rows| => Keyed(key, rows[i]))
  }

  /** All rows of some flat files, in the order they are read. */
  function AllRows(flat: map<string, FlatFile>, keys: seq<string>): seq<Keyed> {
    if keys == [] then []
    else
      var key := keys[|keys| - 1];
      AllRows(flat, keys[..|keys| - 1]) + Label(key, RowsIn(flat, key))
  }

  /** The last row read for a slug under a key: the one that stays. */
  function LastOf(rows: seq<Keyed>, slug: string, key: string): Option<Row> {
    if rows == [] then None
    else
      var last := rows[|rows| - 1];
      if last.key == key && Slug(last.row.framework) == slug then Some(last.row)
      else LastOf(rows[..|rows| - 1], slug, key)
  }

  /** The first name read for a slug: the one the file is created with. */
  function FirstName(rows: seq<Keyed>, slug: string): Option<string> {
    if rows == [] then None
    else
      var before, last := FirstName(rows[..|rows| - 1], slug), rows[|rows| - 1];
      if before.Some? then before
      else if Slug(last.row.framework) == slug then Some(last.row.framework)
      else None
  }

  function Held(file: ResultFile, key: string): Option<Row> {
    if file.Stored? && file.results.Some? && key in file.results.value then Some(file.results.value[key]) else None
  }

  /** Every slug's file holds the last row of each key, under the first name. */
  ghost predicate Collected(rows: seq<Keyed>, files: Files) {
    && (forall slug :: slug in files <==> FirstName(rows, slug).Some?)
    && (forall slug :: slug in files ==> files[slug].Stored? && files[slug].results.Some?
                                         && FirstName(rows, slug) == Some(files[slug].framework))
    && (forall slug, key :: slug in files ==> Held(files[slug], key) == LastOf(rows, slug, key))
  }

  // ---- What is read ---------------------------------------------------------------------

  predicate IsFor(k: Keyed, slug: string, key: string) {
    k.key == key && Slug(k.row.framework) == slug
  }

  ghost predicate IsLastFor(rows: seq<Keyed>, slug: string, key: string, i: nat) {
    i < |rows| && IsFor(rows[i], slug, key) && forall j :: i < j < |rows| ==> !IsFor(rows[j], slug, key)
  }

  ghost predicate IsFirstOf(rows: seq<Keyed>, slug: string, i: nat) {
    && i < |rows| && Slug(rows[i].row.framework) == slug
    && forall j :: 0 <= j < i ==> Slug(rows[j].row.framework) != slug
  }

  lemma {:induction false} LastOfFound(rows: seq<Keyed>, slug: string, key: string) returns (i: nat)
    ensures match LastOf(rows, slug, key)
      case Some(row) => IsLastFor(rows, slug, key, i) && rows[i].row == row
      case None => forall j :: 0 <= j < |rows| ==> !IsFor(rows[j], slug, key)
  {
    hide Slug;
    i := 0;
    if rows != [] {
      var n := |rows| - 1;
      if IsFor(rows[n], slug, key) {
        i := n;
      } else {
        i := LastOfFound(rows[..n], slug, key);
      }
    }
  }

  /** The row that stays is the last one read for its slug and key. */
  lemma LastOfIff(rows: seq<Keyed>, slug: string, key: string, row: Row)
    ensures LastOf(rows, slug, key) == Some(row) <==>
      exists i: nat :: IsLastFor(rows, slug, key, i) && rows[i].row == row
    ensures LastOf(rows, slug, key).None? <==> forall i :: 0 <= i < |rows| ==> !IsFor(rows[i], slug, key)
  {
    hide LastOf, IsFor;
    var found := LastOfFound(rows, slug, key);
    if i: nat :| IsLastFor(rows, slug, key, i) && rows[i].row == row {
      assert i == found;
    }
  }

  /** The name a file is created with is the first one read for its slug. */
  lemma {:induction false} FirstNameIff(rows: seq<Keyed>, slug: string, name: string)
    ensures FirstName(rows, slug) == Some(name) <==>
      exists i: nat :: IsFirstOf(rows, slug, i) && rows[i].row.framework == name
    ensures FirstName(rows, slug).None? <==> forall i :: 0 <= i < |rows| ==> Slug(rows[i].row.framework) != slug
  {
    hide Slug;
    if rows != [] {
      var front := rows[..|rows| - 1];
      FirstNameIff(front, slug, name);
      forall i: nat | i < |front| ensures IsFirstOf(rows, slug, i) <==> IsFirstOf(front, slug, i) {}
      if FirstName(front, slug).None? && Slug(rows[|front|].row.framework) == slug {
        assert IsFirstOf(rows, slug, |front|);
      }
    }
  }

  lemma {:induction false} AllRowsSplits(flat: map<string, FlatFile>, a: seq<string>, b: seq<string>)
    ensures AllRows(flat, a + b) == AllRows(flat, a) + AllRows(flat, b)
  {
    hide RowsIn;
    if b == [] {
      assert a + b == a;
    } else {
      AllRowsSplits(flat, a, b[..|b| - 1]);
      assert (a + b)[..|a + b| - 1] == a + b[..|b| - 1];
    }
  }

  /** Files are read one after the other; one that is an array gives the rows of its items
      that name a framework, and all but three are asked. */
  lemma AllRowsOfOne(flat: map<string, FlatFile>, key: string)
    ensures AllRows(flat, [key]) == Label(key,
      if key in flat && key !in ["frameworks", "current", "langcolors"] && flat[key].Array?
      then NamedRows(flat[key].items) else [])
  {
    hide NamedRows;
    assert [key][..0] == [] && AllRows(flat, []) == [];
  }

  // ---- Migrating -----------------------------------------------------------------------

  lemma {:induction false} NamelessIsUnheld(rows: seq<Keyed>, slug: string, key: string)
    requires FirstName(rows, slug).None?
    ensures LastOf(rows, slug, key).None?
  {
    if rows != [] {
      NamelessIsUnheld(rows[..|rows| - 1], slug, key);
    }
  }

  function Put(files: Files, key: string, row: Row): Files {
    var slug := Slug(row.framework);
    var entry := if slug in files && files[slug].Stored? && files[slug].results.Some? then files[slug]
                 else Stored(row.framework, Some(map[]));
    files[slug := entry.(results := Some(entry.results.value[key := row]))]
  }

  lemma PutCollects(rows: seq<Keyed>, files: Files, key: string, row: Row)
    requires Collected(rows, files)
    ensures Collected(rows + [Keyed(key, row)], Put(files, key, row))
  {
    hide Slug;
    var later, more := Put(files, key, row), rows + [Keyed(key, row)];
    var mine := Slug(row.framework);
    assert more[..|rows|] == rows;
    forall slug ensures slug in later <==> FirstName(more, slug).Some? {}
    forall slug, k | slug in later ensures Held(later[slug], k) == LastOf(more, slug, k) {
      if slug == mine && slug !in files {
        NamelessIsUnheld(rows, slug, k);
      }
    }
  }

  lemma NoneNamed()
    ensures NamedRows([]) == []
  {
  }

  lemma NextItem(items: seq<Item>, i: nat)
    requires i < |items|
    ensures NamedRows(items[..i + 1]) == NamedRows(items[..i]) +
      if items[i].Entry? && items[i].row.framework != "" then [items[i].row] else []
  {
    assert items[..i + 1][..i] == items[..i];
  }

  /** One flat array. */
  method CollectArray(key: string, items: seq<Item>, files: Files, ghost before: seq<Keyed>) returns (out: Files)
    requires Collected(before, files)
    ensures Collected(before + Label(key, NamedRows(items)), out)
  {
    hide Collected, Put, NamedRows, Slug;
    out := files;
    NoneNamed();
    ghost var read := before;
    assert items[..0] == [] && before + Label(key, []) == before;
    for i := 0 to |items|
      invariant read == before + Label(key, NamedRows(items[..i])) && Collected(read, out)
    {
      NextItem(items, i);
      if items[i].Entry? && items[i].row.framework != "" {
        PutCollects(read, out, key, items[i].row);
        out := Put(out, key, items[i].row);
        read := read + [Keyed(key, items[i].row)];
      }
    }
    assert items[..|items|] == items;
  }

  lemma NothingLabelled(rows: seq<Keyed>, key: string)
    ensures rows + Label(key, []) == rows
  {
  }

  /** `collect`: what the per-framework files should hold. */
  method Collect(flat: map<string, FlatFile>) returns (out: Files)
    ensures Collected(AllRows(flat, Listing(flat.Keys, ".json")), out)
  {
    hide Collected, NamedRows, Label, Listing;
    var keys := List(flat.Keys, ".json");
    out := map[];
    NothingCollected();
    for k := 0 to |keys|
      invariant Collected(AllRows(flat, keys[..k]), out)
    {
      ListingIsComplete(flat.Keys, ".json");
      var key := keys[k];
      assert keys[..k + 1][..k] == keys[..k] && key in flat;
      if key !in NON_RESULT && flat[key].Array? {
        out := CollectArray(key, flat[key].items, out, AllRows(flat, keys[..k]));
      } else {
        NothingLabelled(AllRows(flat, keys[..k]), key);
      }
    }
    assert keys[..|keys|] == keys;
  }

  lemma NothingCollected()
    ensures Collected([], map[])
  {
  }

  // ---- Loading ---------------------------------------------------------------------------

  predicate NameSorts(a: Row, b: Row) {
    NameLess(Lower(a.framework), Lower(b.framework))
  }

  /** Python's sort is stable: a row goes in front of those it does not follow. */
  function InsertRow(row: Row, rows: seq<Row>): seq<Row> {
    if rows == [] || !NameSorts(rows[0], row) then [row] + rows
    else [rows[0]] + InsertRow(row, rows[1..])
  }

  function SortByName(rows: seq<Row>): seq<Row> {
    if rows == [] then [] else InsertRow(rows[0], SortByName(rows[1..]))
  }

  /** The rows filed under a key, file by file. */
  function RowsAt(files: Files, names: seq<string>, key: string): seq<Row> {
    if names == [] then []
    else
      var name := names[|names| - 1];
      RowsAt(files, names[..|names| - 1], key) + if name in files then AsSeq(Held(files[name], key)) else []
  }

  function AsSeq(row: Option<Row>): seq<Row> {
    if row.Some? then [row.value] else []
  }

  function Under(index: map<string, seq<Row>>, key: string): seq<Row> {
    if key in index then index[key] else []
  }

  ghost predicate NoEmpty(index: map<string, seq<Row>>) {
    forall key :: key in index ==> index[key] != []
  }

  /** The row under a key, once the key has been dealt with. */
  function Taken(results: map<string, Row>, left: set<string>, key: string): seq<Row> {
    if key in results && key !in left then [results[key]] else []
  }

  method AddFile(index: map<string, seq<Row>>, results: map<string, Row>) returns (later: map<string, seq<Row>>)
    requires NoEmpty(index)
    ensures NoEmpty(later)
    ensures forall key :: Under(later, key) == Under(index, key) + if key in results then [results[key]] else []
  {
    later := index;
    var left := results.Keys;
    while left != {}
      invariant left <= results.Keys && NoEmpty(later)
      invariant forall key :: Under(later, key) == Under(index, key) + Taken(results, left, key)
    {
      var key :| key in left;
      later := later[key := Under(later, key) + [results[key]]];
      left := left - {key};
    }
  }

  lemma NoRowsYet(files: Files)
    ensures forall key :: RowsAt(files, [], key) == []
  {
  }

  lemma NextFile(files: Files, names: seq<string>, n: nat)
    requires n < |names| && names[n] in files
    ensures forall key ::
      RowsAt(files, names[..n + 1], key) == RowsAt(files, names[..n], key) + AsSeq(Held(files[names[n]], key))
  {
    assert names[..n + 1][..n] == names[..n];
  }

  lemma {:induction false} InsertKeepsRows(row: Row, rows: seq<Row>)
    ensures multiset(InsertRow(row, rows)) == multiset{row} + multiset(rows)
    ensures |InsertRow(row, rows)| == |rows| + 1
  {
    if rows == [] || !NameSorts(rows[0], row) {
      assert InsertRow(row, rows) == [row] + rows;
    } else {
      InsertKeepsRows(row, rows[1..]);
      assert rows == [rows[0]] + rows[1..];
    }
  }

  lemma {:induction false} SortKeepsRows(rows: seq<Row>)
    ensures multiset(SortByName(rows)) == multiset(rows) && |SortByName(rows)| == |rows|
  {
    hide InsertRow;
    if rows != [] {
      SortKeepsRows(rows[1..]);
      InsertKeepsRows(rows[0], SortByName(rows[1..]));
      hide SortByName;
      assert rows == [rows[0]] + rows[1..];
    }
  }

  ghost predicate Sorted(rows: seq<Row>) {
    forall i, j :: 0 <= i < j < |rows| ==> !NameSorts(rows[j], rows[i])
  }

  lemma NotAfterTransitive(a: Row, b: Row, c: Row)
    requires !NameSorts(b, a) && !NameSorts(c, b)
    ensures !NameSorts(c, a)
  {
    var x, y, z := Lower(a.framework), Lower(b.framework), Lower(c.framework);
    hide Lower;
    NameLessTotal(x, y);
    NameLessTotal(y, z);
    if NameLess(z, x) {
      if x == y || y == z {
      } else {
        NameLessTransitive(x, y, z);
        NameLessTransitive(x, z, x);
        NameLessIrreflexive(x);
      }
    }
  }

  lemma NameSortsOneWay(a: Row, b: Row)
    requires NameSorts(a, b)
    ensures !NameSorts(b, a)
  {
    var x, y := Lower(a.framework), Lower(b.framework);
    if NameLess(y, x) {
      NameLessTransitive(x, y, x);
      NameLessIrreflexive(x);
    }
  }

  lemma SortedCons(first: Row, rest: seq<Row>)
    requires Sorted(rest) && forall r :: r in rest ==> !NameSorts(r, first)
    ensures Sorted([first] + rest)
  {
    hide NameSorts;
  }

  lemma {:induction false} InsertSorted(row: Row, rows: seq<Row>)
    requires Sorted(rows)
    ensures Sorted(InsertRow(row, rows))
  {
    hide NameSorts, Sorted;
    if rows == [] {
      SortedCons(row, []);
      assert [row] + [] == [row];
    } else if !NameSorts(rows[0], row) {
      forall r | r in rows ensures !NameSorts(r, row) {
        FirstIsLeast(rows, r);
        NotAfterTransitive(row, rows[0], r);
      }
      SortedCons(row, rows);
    } else {
      var rest := InsertRow(row, rows[1..]);
      TailsAlike(rows);
      InsertSorted(row, rows[1..]);
      InsertKeepsRows(row, rows[1..]);
      NameSortsOneWay(rows[0], row);
      forall r | r in rest ensures !NameSorts(r, rows[0]) {
        assert r in multiset(rest);
        if r != row {
          FirstIsLeast(rows, r);
        }
      }
      SortedCons(rows[0], rest);
    }
  }

  lemma FirstIsLeast(rows: seq<Row>, r: Row)
    requires Sorted(rows) && r in rows
    ensures !NameSorts(r, rows[0])
  {
    NameSortsNotItself(r);
    hide NameSorts;
    var j :| 0 <= j < |rows| && rows[j] == r;
  }

  lemma NameSortsNotItself(r: Row)
    ensures !NameSorts(r, r)
  {
    NameLessIrreflexive(Lower(r.framework));
  }

  lemma {:induction false} SortSorts(rows: seq<Row>)
    ensures Sorted(SortByName(rows))
  {
    if rows != [] {
      SortSorts(rows[1..]);
      InsertSorted(rows[0], SortByName(rows[1..]));
    }
  }

  /** Stability: rows already in order stay as they are, ties included. */
  lemma {:induction false} SortKeepsOrder(rows: seq<Row>)
    requires Sorted(rows)
    ensures SortByName(rows) == rows
  {
    if rows != [] {
      SortKeepsOrder(rows[1..]);
      assert rows == [rows[0]] + rows[1..];
    }
  }

  /** The rows of one lower-cased name, in order. */
  function Namesakes(rows: seq<Row>, name: string): seq<Row> {
    if rows == [] then []
    else (if Lower(rows[0].framework) == name then [rows[0]] else []) + Namesakes(rows[1..], name)
  }

  lemma {:induction false} InsertKeepsNamesakes(row: Row, rows: seq<Row>, name: string)
    ensures Namesakes(InsertRow(row, rows), name) ==
      (if Lower(row.framework) == name then [row] else []) + Namesakes(rows, name)
  {
    hide Lower, NameSorts;
    if rows == [] || !NameSorts(rows[0], row) {
      NamesakesStep(row, rows, name);
    } else {
      InsertKeepsNamesakes(row, rows[1..], name);
      NamesApartSort(rows[0], row);
      NamesakesStep(rows[0], InsertRow(row, rows[1..]), name);
    }
  }

  lemma NamesakesStep(row: Row, rows: seq<Row>, name: string)
    ensures Namesakes([row] + rows, name) ==
      (if Lower(row.framework) == name then [row] else []) + Namesakes(rows, name)
  {
    assert ([row] + rows)[1..] == rows;
  }

  lemma NamesApartSort(a: Row, b: Row)
    requires NameSorts(a, b)
    ensures Lower(a.framework) != Lower(b.framework)
  {
    NameLessIrreflexive(Lower(a.framework));
  }

  /** Rows that differ in the case of their names at most keep their order. */
  lemma {:induction false} SortIsStable(rows: seq<Row>, name: string)
    ensures Namesakes(SortByName(rows), name) == Namesakes(rows, name)
  {
    if rows != [] {
      SortIsStable(rows[1..], name);
      InsertKeepsNamesakes(rows[0], SortByName(rows[1..]), name);
    }
  }

  lemma SortOrders(rows: seq<Row>, i: nat, j: nat)
    requires i < j < |SortByName(rows)|
    ensures !NameLess(Lower(SortByName(rows)[j].framework), Lower(SortByName(rows)[i].framework))
  {
    SortSorts(rows);
  }

  method SortAll(unsorted: map<string, seq<Row>>) returns (index: map<string, seq<Row>>)
    requires NoEmpty(unsorted)
    ensures NoEmpty(index) && forall key :: Under(index, key) == SortByName(Under(unsorted, key))
  {
    index := unsorted;
    assert SortByName([]) == [] by { SortKeepsOrder([]); }
    hide SortByName;
    var left := index.Keys;
    while left != {}
      invariant left <= index.Keys == unsorted.Keys && NoEmpty(index)
      invariant forall key ::
        Under(index, key) == if key in left then Under(unsorted, key) else SortByName(Under(unsorted, key))
    {
      var key :| key in left;
      SortKeepsRows(index[key]);
      index := index[key := SortByName(index[key])];
      left := left - {key};
    }
  }

  /** `load_results`: the flat view of the store. */
  method Load(files: Files) returns (index: map<string, seq<Row>>)
    ensures NoEmpty(index)
    ensures forall key :: Under(index, key) == SortByName(RowsAt(files, Listing(files.Keys, ".json"), key))
  {
    hide SortByName, RowsAt;
    var names := List(files.Keys, ".json");
    var unsorted: map<string, seq<Row>> := map[];
    NoRowsYet(files);
    assert names[..0] == [];
    for n := 0 to |names|
      invariant NoEmpty(unsorted) && forall key :: Under(unsorted, key) == RowsAt(files, names[..n], key)
    {
      hide NameSorts, Precedes, Slug, SortedBy, Held, AsSeq;
      ListingIsComplete(files.Keys, ".json");
      var file := files[names[n]];
      NextFile(files, names, n);
      if file.Stored? && file.results.Some? {
        unsorted := AddFile(unsorted, file.results.value);
      }
    }
    assert names[..|names|] == names;
    index := SortAll(unsorted);
  }

  // ---- Nothing is lost --------------------------------------------------------------------

  ghost predicate DistinctSlugs(rows: seq<Row>) {
    forall i, j :: 0 <= i < j < |rows| ==> Slug(rows[i].framework) != Slug(rows[j].framework)
  }

  lemma {:induction false} LastOfAppended(before: seq<Keyed>, more: seq<Keyed>, slug: string, key: string)
    ensures LastOf(before + more, slug, key) ==
      if LastOf(more, slug, key).Some? then LastOf(more, slug, key) else LastOf(before, slug, key)
  {
    hide Slug;
    if more == [] {
      assert before + more == before;
    } else {
      LastOfAppended(before, more[..|more| - 1], slug, key);
      assert (before + more)[..|before + more| - 1] == before + more[..|more| - 1];
    }
  }

  lemma {:induction false} OtherLabel(other: string, rows: seq<Row>, slug: string, key: string)
    requires other != key
    ensures LastOf(Label(other, rows), slug, key).None?
  {
    hide Slug;
    if rows != [] {
      var front := rows[..|rows| - 1];
      OtherLabel(other, front, slug, key);
      assert Label(other, rows)[..|rows| - 1] == Label(other, front);
    }
  }

  /** Only the array of a key decides what is held under it. */
  lemma {:induction false} LastOfKey(flat: map<string, FlatFile>, keys: seq<string>, slug: string, key: string)
    requires forall i, j :: 0 <= i < j < |keys| ==> keys[i] != keys[j]
    ensures LastOf(AllRows(flat, keys), slug, key) ==
      if key in keys then LastOf(Label(key, RowsIn(flat, key)), slug, key) else None
  {
    hide RowsIn, LastOf;
    if keys == [] {
      assert LastOf([], slug, key) == None by { LastOfNothing(slug, key); }
    } else {
      var front, last := keys[..|keys| - 1], keys[|keys| - 1];
      assert keys == front + [last];
      LastOfKey(flat, front, slug, key);
      LastOfAppended(AllRows(flat, front), Label(last, RowsIn(flat, last)), slug, key);
      if last != key {
        OtherLabel(last, RowsIn(flat, last), slug, key);
      }
    }
  }

  lemma LastOfNothing(slug: string, key: string)
    ensures LastOf([], slug, key) == None
  {
  }

  lemma {:induction false} LastIsThere(rows: seq<Row>, slug: string, key: string)
    ensures var r := LastOf(Label(key, rows), slug, key);
      r.Some? ==> r.value in rows && Slug(r.value.framework) == slug
  {
    hide Slug;
    if rows != [] {
      var front := rows[..|rows| - 1];
      LastIsThere(front, slug, key);
      assert Label(key, rows)[..|rows| - 1] == Label(key, front);
      hide Label;
      assert rows == front + [rows[|rows| - 1]];
    }
  }

  lemma {:induction false} EachIsLast(rows: seq<Row>, key: string, i: nat)
    requires DistinctSlugs(rows) && i < |rows|
    ensures LastOf(Label(key, rows), Slug(rows[i].framework), key) == Some(rows[i])
  {
    hide Slug;
    assert Label(key, rows)[..|rows| - 1] == Label(key, rows[..|rows| - 1]);
    if i < |rows| - 1 {
      EachIsLast(rows[..|rows| - 1], key, i);
    }
  }

  lemma {:induction false} RowsAtHolds(files: Files, names: seq<string>, key: string, r: Row)
    ensures r in RowsAt(files, names, key) <==>
      exists name :: name in names && name in files && Held(files[name], key) == Some(r)
  {
    hide Held;
    if names != [] {
      var front, last := names[..|names| - 1], names[|names| - 1];
      assert names == front + [last];
      RowsAtHolds(files, front, key, r);
    }
  }

  /** Every row names a framework and sits in the file of its slug. */
  ghost predicate Filed(files: Files) {
    forall slug, key :: slug in files && Held(files[slug], key).Some? ==> FiledRow(Held(files[slug], key).value, slug)
  }

  predicate FiledRow(r: Row, slug: string) {
    r.framework != "" && Slug(r.framework) == slug
  }

  lemma {:induction false} FiledAreDistinct(files: Files, names: seq<string>, key: string)
    requires Filed(files) && forall i, j :: 0 <= i < j < |names| ==> names[i] != names[j]
    ensures DistinctSlugs(RowsAt(files, names, key))
  {
    hide Held, Slug;
    if names != [] {
      var front, last := names[..|names| - 1], names[|names| - 1];
      var rows := RowsAt(files, front, key);
      FiledAreDistinct(files, front, key);
      if last in files && Held(files[last], key).Some? {
        forall i | 0 <= i < |rows| ensures Slug(rows[i].framework) != last {
          RowsAtHolds(files, front, key, rows[i]);
        }
      }
    }
  }

  lemma {:induction false} CountsTwice(rows: seq<Row>, i: nat, j: nat)
    requires i < j < |rows| && rows[i] == rows[j]
    ensures multiset(rows)[rows[i]] >= 2
  {
    assert rows == rows[..j] + [rows[j]] + rows[j + 1..];
    assert rows[..j][i] in multiset(rows[..j]);
  }

  lemma {:induction false} CountsOnce(rows: seq<Row>, r: Row)
    requires DistinctSlugs(rows)
    ensures multiset(rows)[r] <= 1
  {
    hide Slug;
    if rows != [] {
      CountsOnce(rows[1..], r);
      assert rows == [rows[0]] + rows[1..];
      if r == rows[0] {
        assert r !in multiset(rows[1..]) by {
          assert forall i :: 0 <= i < |rows| - 1 ==> rows[1..][i] == rows[i + 1];
        }
      }
    }
  }

  lemma SameElements(a: seq<Row>, b: seq<Row>)
    requires DistinctSlugs(a) && DistinctSlugs(b) && forall r :: r in a <==> r in b
    ensures multiset(a) == multiset(b)
  {
    hide DistinctSlugs;
    forall r ensures multiset(a)[r] == multiset(b)[r] {
      CountsOnce(a, r);
      CountsOnce(b, r);
      assert r in a <==> r in multiset(a);
      assert r in b <==> r in multiset(b);
    }
  }

  lemma DistinctIsShared(a: seq<Row>, b: seq<Row>)
    requires DistinctSlugs(a) && multiset(a) == multiset(b)
    ensures DistinctSlugs(b)
  {
    hide Slug;
    forall i, j | 0 <= i < j < |b| ensures Slug(b[i].framework) != Slug(b[j].framework) {
      if b[i] == b[j] {
        CountsTwice(b, i, j);
        CountsOnce(a, b[i]);
      } else {
        assert b[i] in multiset(b) && b[j] in multiset(b);
        assert b[i] in a && b[j] in a;
      }
    }
  }

  /** Rows of distinct slugs are sorted in one way only. */
  lemma {:induction false} SortedInOneWay(a: seq<Row>, b: seq<Row>)
    requires Sorted(a) && Sorted(b) && DistinctSlugs(a) && multiset(a) == multiset(b)
    ensures a == b
  {
    hide Sorted, DistinctSlugs;
    assert |a| == |multiset(a)| == |multiset(b)| == |b|;
    if a != [] {
      FirstOfSorted(a, b);
      TailsAlike(a);
      TailsAlike(b);
      assert a == [a[0]] + a[1..] && b == [b[0]] + b[1..];
      SortedInOneWay(a[1..], b[1..]);
    }
  }

  lemma TailsAlike(a: seq<Row>)
    requires a != []
    ensures multiset(a[1..]) == multiset(a) - multiset{a[0]}
    ensures Sorted(a) ==> Sorted(a[1..])
    ensures DistinctSlugs(a) ==> DistinctSlugs(a[1..])
  {
    hide Slug, NameSorts;
    assert a == [a[0]] + a[1..];
  }

  lemma FirstOfSorted(a: seq<Row>, b: seq<Row>)
    requires Sorted(a) && Sorted(b) && DistinctSlugs(a) && multiset(a) == multiset(b) && a != [] && b != []
    ensures a[0] == b[0]
  {
    hide Slug, Lower;
    if a[0] != b[0] {
      assert a[0] in multiset(b) && b[0] in multiset(a);
      var i :| 0 <= i < |a| && a[i] == b[0];
      var j :| 0 <= j < |b| && b[j] == a[0];
      NameLessTotal(Lower(a[0].framework), Lower(b[0].framework));
      if Lower(a[0].framework) == Lower(b[0].framework) {
        SlugIgnoresCase(a[0].framework, b[0].framework);
      }
    }
  }

  /** The flat view of a store. */
  ghost function View(files: Files, key: string): seq<Row> {
    SortByName(RowsAt(files, Listing(files.Keys, ".json"), key))
  }

  lemma CollectedIsFiled(flat: map<string, FlatFile>, out: Files)
    requires Collected(AllRows(flat, Listing(flat.Keys, ".json")), out)
    ensures Filed(out)
    ensures forall slug, key :: slug in out ==> Held(out[slug], key) == LastOf(Label(key, RowsIn(flat, key)), slug, key)
  {
    hide Held, LastOf, Slug, FirstName, RowsIn;
    var keys := Listing(flat.Keys, ".json");
    ListingIsComplete(flat.Keys, ".json");
    forall slug, key | slug in out
      ensures Held(out[slug], key) == LastOf(Label(key, RowsIn(flat, key)), slug, key)
    {
      LastOfKey(flat, keys, slug, key);
      if key !in flat {
        NothingThere(flat, slug, key);
      }
    }
    forall slug, key | slug in out && Held(out[slug], key).Some? ensures FiledRow(Held(out[slug], key).value, slug) {
      LastIsThere(RowsIn(flat, key), slug, key);
      RowsAreNamed(flat, key);
    }
  }

  lemma RowsAreNamed(flat: map<string, FlatFile>, key: string)
    ensures forall r :: r in RowsIn(flat, key) ==> r.framework != ""
  {
    if key in flat && flat[key].Array? {
      NamedAreNamed(flat[key].items);
    }
  }

  lemma {:induction false} NamedAreNamed(items: seq<Item>)
    ensures forall r :: r in NamedRows(items) ==> r.framework != ""
  {
    if items != [] {
      NamedAreNamed(items[..|items| - 1]);
    }
  }

  lemma NothingThere(flat: map<string, FlatFile>, slug: string, key: string)
    requires key !in flat
    ensures LastOf(Label(key, RowsIn(flat, key)), slug, key) == None
  {
  }

  lemma SlugIsCollected(rows: seq<Keyed>, files: Files, slug: string, key: string)
    requires Collected(rows, files) && LastOf(rows, slug, key).Some?
    ensures slug in files
  {
    if FirstName(rows, slug).None? {
      NamelessIsUnheld(rows, slug, key);
    }
  }

  /** With one row per slug in an array, the files hold its rows and no others. */
  lemma CollectedKeepsRows(flat: map<string, FlatFile>, out: Files, key: string, r: Row)
    requires Collected(AllRows(flat, Listing(flat.Keys, ".json")), out) && DistinctSlugs(RowsIn(flat, key))
    ensures r in RowsAt(out, Listing(out.Keys, ".json"), key) <==> r in RowsIn(flat, key)
  {
    hide Held, LastOf, Slug, FirstName, RowsIn, Collected, DistinctSlugs, RowsAt, AllRows;
    var rows, names := RowsIn(flat, key), Listing(out.Keys, ".json");
    ListingIsComplete(out.Keys, ".json");
    ListingIsComplete(flat.Keys, ".json");
    CollectedIsFiled(flat, out);
    RowsAtHolds(out, names, key, r);
    if r in RowsAt(out, names, key) {
      var slug :| slug in names && slug in out && Held(out[slug], key) == Some(r);
      LastIsThere(rows, slug, key);
    }
    if r in rows {
      var i :| 0 <= i < |rows| && rows[i] == r;
      var slug := Slug(r.framework);
      EachIsLast(rows, key, i);
      if key !in flat {
        NothingThere(flat, slug, key);
      }
      LastOfKey(flat, Listing(flat.Keys, ".json"), slug, key);
      SlugIsCollected(AllRows(flat, Listing(flat.Keys, ".json")), out, slug, key);
      assert slug in names && Held(out[slug], key) == Some(r);
    }
  }

  lemma ViewHolds(files: Files, key: string, r: Row)
    ensures r in View(files, key) <==> exists slug :: slug in files && Held(files[slug], key) == Some(r)
  {
    var names := Listing(files.Keys, ".json");
    ListingIsComplete(files.Keys, ".json");
    RowsAtHolds(files, names, key, r);
    SortKeepsRows(RowsAt(files, names, key));
    hide SortByName, RowsAt, Held;
    assert r in View(files, key) <==> r in multiset(View(files, key));
    assert r in RowsAt(files, names, key) <==> r in multiset(RowsAt(files, names, key));
  }

  lemma ViewIsDistinct(files: Files, key: string)
    requires Filed(files)
    ensures DistinctSlugs(View(files, key)) && Sorted(View(files, key))
  {
    hide Filed, DistinctSlugs, Sorted, SortByName;
    var rows := RowsAt(files, Listing(files.Keys, ".json"), key);
    ListingIsComplete(files.Keys, ".json");
    FiledAreDistinct(files, Listing(files.Keys, ".json"), key);
    SortSorts(rows);
    SortKeepsRows(rows);
    DistinctIsShared(rows, SortByName(rows));
  }

  lemma MigratingKeepsFiling(flat: map<string, FlatFile>, before: Files, out: Files)
    requires Collected(AllRows(flat, Listing(flat.Keys, ".json")), out) && Filed(before)
    ensures Filed(before + out)
  {
    hide Held, FiledRow, Collected;
    CollectedIsFiled(flat, out);
  }

  function AsItems(rows: seq<Row>): (r: seq<Item>)
    ensures |r| == |rows| && forall i :: 0 <= i < |r| ==> r[i] == Entry(rows[i])
  {
    seq(|rows|, i requires 0 <= i < |rows| => Entry(rows[i]))
  }

  predicate AllNamed(items: seq<Item>) {
    forall item :: item in items ==> item.Entry? && item.row.framework != ""
  }

  lemma {:induction false} NamedItemsAreRows(items: seq<Item>)
    requires AllNamed(items)
    ensures AsItems(NamedRows(items)) == items
  {
    if items != [] {
      var front, last := items[..|items| - 1], items[|items| - 1];
      assert items == front + [last];
      NamedItemsAreRows(front);
      assert NamedRows(items) == NamedRows(front) + [last.row];
    }
  }

  lemma ItemsSnoc(rows: seq<Row>, r: Row)
    ensures AsItems(rows + [r]) == AsItems(rows) + [Entry(r)]
  {
  }

  lemma {:induction false} ItemsCount(rows: seq<Row>, r: Row)
    ensures multiset(AsItems(rows))[Entry(r)] == multiset(rows)[r]
  {
    if rows == [] {
      assert AsItems(rows) == [];
    } else {
      hide AsItems;
      var front, last := rows[..|rows| - 1], rows[|rows| - 1];
      ItemsCount(front, r);
      assert rows == front + [last];
      ItemsSnoc(front, last);
      assert multiset(rows) == multiset(front) + multiset{last};
      assert multiset(AsItems(rows)) == multiset(AsItems(front)) + multiset{Entry(last)};
    }
  }

  lemma ItemsAlikeIff(a: seq<Row>, b: seq<Row>)
    ensures multiset(AsItems(a)) == multiset(AsItems(b)) <==> multiset(a) == multiset(b)
  {
    if multiset(a) == multiset(b) {
      forall item ensures multiset(AsItems(a))[item] == multiset(AsItems(b))[item] {
        if item.Entry? {
          ItemsCount(a, item.row);
          ItemsCount(b, item.row);
        } else {
          assert item !in multiset(AsItems(a)) && item !in multiset(AsItems(b));
        }
      }
    } else if multiset(AsItems(a)) == multiset(AsItems(b)) {
      forall r ensures multiset(a)[r] == multiset(b)[r] {
        ItemsCount(a, r);
        ItemsCount(b, r);
      }
    }
  }

  predicate IsMigrated(flat: map<string, FlatFile>, key: string) {
    key in flat && key !in ["frameworks", "current", "langcolors"] && flat[key].Array?
  }

  /** No earlier file that the migration does not write holds a row under the key. */
  ghost predicate NothingElseHeld(before: Files, out: Files, key: string) {
    forall slug :: slug in before && slug !in out ==> Held(before[slug], key).None?
  }

  /** The caller's own check of an array: each item names a framework, no two share a
      slug, and the results directory holds nothing else under the key. */
  ghost predicate Returnable(flat: map<string, FlatFile>, before: Files, out: Files, key: string)
    requires IsMigrated(flat, key)
  {
    AllNamed(flat[key].items) && DistinctSlugs(RowsIn(flat, key)) && NothingElseHeld(before, out, key)
  }

  lemma ReturnableRows(flat: map<string, FlatFile>, before: Files, out: Files, key: string, r: Row)
    requires Collected(AllRows(flat, Listing(flat.Keys, ".json")), out)
    requires DistinctSlugs(RowsIn(flat, key)) && NothingElseHeld(before, out, key)
    ensures r in View(before + out, key) <==> r in RowsIn(flat, key)
  {
    hide Collected, AllRows, DistinctSlugs, RowsIn, RowsAt, View, Held;
    var names := Listing(out.Keys, ".json");
    CollectedKeepsRows(flat, out, key, r);
    ListingIsComplete(out.Keys, ".json");
    RowsAtHolds(out, names, key, r);
    ViewHolds(before + out, key, r);
    if r in RowsIn(flat, key) {
      var slug :| slug in names && slug in out && Held(out[slug], key) == Some(r);
      assert (before + out)[slug] == out[slug];
    }
  }

  lemma ReturnableComesBack(flat: map<string, FlatFile>, before: Files, out: Files, key: string)
    requires Collected(AllRows(flat, Listing(flat.Keys, ".json")), out) && Filed(before)
    requires IsMigrated(flat, key) && Returnable(flat, before, out, key)
    ensures multiset(View(before + out, key)) == multiset(RowsIn(flat, key))
    ensures AsItems(RowsIn(flat, key)) == flat[key].items
  {
    hide Collected, AllRows, DistinctSlugs, View, Filed, NamedRows, NothingElseHeld;
    MigratingKeepsFiling(flat, before, out);
    ViewIsDistinct(before + out, key);
    forall r ensures r in View(before + out, key) <==> r in RowsIn(flat, key) {
      ReturnableRows(flat, before, out, key, r);
    }
    SameElements(View(before + out, key), RowsIn(flat, key));
    NamedItemsAreRows(flat[key].items);
  }

  lemma ComesBackNamed(files: Files, key: string, items: seq<Item>)
    requires Filed(files) && multiset(AsItems(View(files, key))) == multiset(items)
    ensures AllNamed(items)
  {
    hide View, Held, Slug;
    forall item | item in items ensures item.Entry? && item.row.framework != "" {
      assert item in multiset(items) && item in AsItems(View(files, key));
      ViewHolds(files, key, item.row);
    }
  }

  lemma OwnSlugHolds(files: Files, key: string, r: Row, slug: string)
    requires Filed(files) && FiledRow(r, slug) && r in RowsAt(files, Listing(files.Keys, ".json"), key)
    ensures slug in files && Held(files[slug], key) == Some(r)
  {
    hide RowsAt, Held, Slug;
    var names := Listing(files.Keys, ".json");
    RowsAtHolds(files, names, key, r);
    var at :| at in names && at in files && Held(files[at], key) == Some(r);
  }

  /** A row held elsewhere under the key would show in the view beside the array's own. */
  lemma ComesBackAlone(flat: map<string, FlatFile>, before: Files, out: Files, key: string)
    requires Collected(AllRows(flat, Listing(flat.Keys, ".json")), out) && Filed(before)
    requires DistinctSlugs(RowsIn(flat, key)) && multiset(View(before + out, key)) == multiset(RowsIn(flat, key))
    ensures NothingElseHeld(before, out, key)
  {
    hide Collected, AllRows, DistinctSlugs, RowsIn, RowsAt, View, Held, FiledRow;
    CollectedIsFiled(flat, out);
    forall slug | slug in before && slug !in out ensures Held(before[slug], key).None? {
      if Held(before[slug], key).Some? {
        var r := Held(before[slug], key).value;
        assert (before + out)[slug] == before[slug];
        ViewHolds(before + out, key, r);
        assert r in multiset(View(before + out, key)) && r in multiset(RowsIn(flat, key));
        CollectedKeepsRows(flat, out, key, r);
        OwnSlugHolds(out, key, r, slug);
      }
    }
  }

  /** What the store shows under a key after the migration is the array it was given, item
      for item, exactly if the array was returnable: otherwise an item is dropped, a row
      is overwritten by one of its slug, or an earlier row stands beside them. */
  lemma MigratedArrayComesBackIff(flat: map<string, FlatFile>, before: Files, out: Files, key: string)
    requires Collected(AllRows(flat, Listing(flat.Keys, ".json")), out) && Filed(before) && IsMigrated(flat, key)
    ensures multiset(AsItems(View(before + out, key))) == multiset(flat[key].items) <==>
      Returnable(flat, before, out, key)
  {
    hide Collected, AllRows, DistinctSlugs, View, Filed, AllNamed, NamedRows, NothingElseHeld, Sorted;
    var rows, view := RowsIn(flat, key), View(before + out, key);
    ItemsAlikeIff(view, rows);
    if Returnable(flat, before, out, key) {
      ReturnableComesBack(flat, before, out, key);
    } else if multiset(AsItems(view)) == multiset(flat[key].items) {
      MigratingKeepsFiling(flat, before, out);
      ComesBackNamed(before + out, key, flat[key].items);
      NamedItemsAreRows(flat[key].items);
      ViewIsDistinct(before + out, key);
      DistinctIsShared(view, rows);
      ComesBackAlone(flat, before, out, key);
    }
  }

  /** And in the very order it had, so that nothing published churns, exactly if it was
      sorted by lower-cased name besides. */
  lemma MigratedArrayKeepsOrderIff(flat: map<string, FlatFile>, before: Files, out: Files, key: string)
    requires Collected(AllRows(flat, Listing(flat.Keys, ".json")), out) && Filed(before) && IsMigrated(flat, key)
    ensures AsItems(View(before + out, key)) == flat[key].items <==>
      Returnable(flat, before, out, key) && Sorted(RowsIn(flat, key))
  {
    hide Collected, AllRows, DistinctSlugs, View, Filed, AllNamed, NamedRows, NothingElseHeld, Sorted;
    var rows, view := RowsIn(flat, key), View(before + out, key);
    MigratedArrayComesBackIff(flat, before, out, key);
    if Returnable(flat, before, out, key) {
      ReturnableComesBack(flat, before, out, key);
      MigratingKeepsFiling(flat, before, out);
      ViewIsDistinct(before + out, key);
      if Sorted(rows) {
        SortedInOneWay(rows, view);
      }
      if AsItems(view) == AsItems(rows) {
        SameItemsSameRows(view, rows);
      }
    }
  }

  lemma SameItemsSameRows(a: seq<Row>, b: seq<Row>)
    requires AsItems(a) == AsItems(b)
    ensures a == b
  {
    assert |a| == |AsItems(a)| == |AsItems(b)| == |b|;
    forall i | 0 <= i < |a| ensures a[i] == b[i] {
      assert AsItems(a)[i] == AsItems(b)[i];
    }
  }

  /** Such arrays exist: of C and C# only one row comes back. */
  lemma MigrationCanLoseARow() returns (flat: map<string, FlatFile>)
    ensures |RowsIn(flat, "json-64")| == 2 && !DistinctSlugs(RowsIn(flat, "json-64"))
    ensures IsMigrated(flat, "json-64") && forall before, out :: !Returnable(flat, before, out, "json-64")
  {
    var c, sharp := Row("C", ""), Row("C#", "");
    var items := [Entry(c), Entry(sharp)];
    flat := map["json-64" := Array(items)];
    assert items[..1] == [Entry(c)] && [Entry(c)][..0] == [];
    assert NamedRows([Entry(c)]) == NamedRows([]) + [c] == [c];
    assert NamedRows(items) == [c] + [sharp];
    SlugsCollide();
    var rows := RowsIn(flat, "json-64");
    assert rows[0] == c && rows[1] == sharp;
    assert Slug(rows[0].framework) == Slug(rows[1].framework);
  }

  // ---- Merging a run ------------------------------------------------------------------------

  /** A file of a run, in the order they are visited; `entry` is None if it cannot be read. */
  datatype RunFile = RunFile(key: string, entry: Option<Row>)

  type Incoming = map<string, map<string, Row>>

  function RowsOfName(m: Incoming, name: string): map<string, Row> {
    if name in m then m[name] else map[]
  }

  /** The rows of a run by framework and key. */
  function Gathered(run: seq<RunFile>): Incoming {
    if run == [] then map[]
    else
      var m, last := Gathered(run[..|run| - 1]), run[|run| - 1];
      if last.entry.None? || last.entry.value.framework == "" then m
      else
        var name := last.entry.value.framework;
        m[name := RowsOfName(m, name)[last.key := last.entry.value]]
  }

  method Gather(run: seq<RunFile>) returns (incoming: Incoming)
    ensures incoming == Gathered(run)
  {
    incoming := map[];
    for i := 0 to |run|
      invariant incoming == Gathered(run[..i])
    {
      assert run[..i + 1][..i] == run[..i];
      if run[i].entry.Some? && run[i].entry.value.framework != "" {
        var name := run[i].entry.value.framework;
        if name !in incoming {
          incoming := incoming[name := map[]];
        }
        incoming := incoming[name := incoming[name][run[i].key := run[i].entry.value]];
      }
    }
    assert run[..|run|] == run;
  }

  function OldRows(file: Option<ResultFile>): map<string, Row> {
    if file.Some? && file.value.Stored? && file.value.results.Some? then file.value.results.value else map[]
  }

  function At(files: Files, slug: string): Option<ResultFile> {
    if slug in files then Some(files[slug]) else None
  }

  function RewriteOne(files: Files, name: string, rows: map<string, Row>): Files {
    files[Slug(name) := Stored(name, Some(OldRows(At(files, Slug(name))) + rows))]
  }

  /** The files of these frameworks, each rewritten in turn. */
  function Rewritten(files: Files, names: seq<string>, incoming: Incoming): Files {
    if names == [] then files
    else
      var name := names[|names| - 1];
      RewriteOne(Rewritten(files, names[..|names| - 1], incoming), name, RowsOfName(incoming, name))
  }

  lemma NextRewrite(files: Files, names: seq<string>, i: nat, incoming: Incoming)
    requires i < |names| && names[i] in incoming
    ensures Rewritten(files, names[..i + 1], incoming) ==
            RewriteOne(Rewritten(files, names[..i], incoming), names[i], incoming[names[i]])
  {
    assert names[..i + 1][..i] == names[..i];
  }

  predicate Stale(file: ResultFile, valid: set<string>) {
    valid != {} && file.Stored? && file.framework != "" && file.framework !in valid
  }

  function Purged(files: Files, valid: set<string>): Files {
    map slug | slug in files && !Stale(files[slug], valid) :: files[slug]
  }

  /** The store after a run has been merged into it. */
  ghost function Merged(files: Files, run: seq<RunFile>, valid: set<string>): Files {
    Purged(Rewritten(files, Listing(Gathered(run).Keys, ""), Gathered(run)), valid)
  }

  /** Only readable files go that name a framework which is not current. */
  predicate Stays(file: ResultFile, valid: set<string>) {
    file.Stored? && file.framework != "" ==> file.framework in valid
  }

  class SiteData {
    var flat: map<string, FlatFile>
    var results: Files

    constructor (flat: map<string, FlatFile>, results: Files)
      ensures this.flat == flat && this.results == results
    {
      this.flat, this.results := flat, results;
    }

    /** One file per framework is written, then every flat array is removed. */
    method Migrate() returns (ghost out: Files)
      modifies this
      ensures Collected(AllRows(old(flat), Listing(old(flat).Keys, ".json")), out)
      ensures results == old(results) + out && (Filed(old(results)) ==> Filed(results))
      ensures flat == old(flat) - (old(flat).Keys - {"frameworks", "current", "langcolors"})
    {
      hide *;
      var collected := Collect(flat);
      out := collected;
      if Filed(results) {
        MigratingKeepsFiling(flat, results, collected);
      }
      WriteFiles(collected);
      RemoveFlat();
    }

    method WriteFiles(collected: Files)
      modifies this`results
      ensures results == old(results) + collected
    {
      var left := collected.Keys;
      while left != {}
        invariant left <= collected.Keys
        invariant results == old(results) + (map slug | slug in collected && slug !in left :: collected[slug])
      {
        LeastExists(left, ".json");
        var slug :| IsLeast(slug, left, ".json");
        results := results[slug := collected[slug]];
        left := left - {slug};
      }
    }

    method RemoveFlat()
      modifies this`flat
      ensures flat == old(flat) - (old(flat).Keys - {"frameworks", "current", "langcolors"})
    {
      var left := flat.Keys;
      while left != {}
        invariant left <= old(flat).Keys
        invariant flat == old(flat) - (old(flat).Keys - left - NON_RESULT)
      {
        LeastExists(left, ".json");
        var key :| IsLeast(key, left, ".json");
        if key !in NON_RESULT {
          flat := flat - {key};
        }
        left := left - {key};
      }
    }

    /** A run is folded in framework by framework, then stale files are dropped. */
    method MergeResults(run: seq<RunFile>, valid: set<string>)
      modifies this`results
      ensures results == Merged(old(results), run, valid)
      ensures Filed(old(results)) ==> Filed(results)
    {
      hide Filed;
      if Filed(results) {
        MergingKeepsFiling(results, run, valid);
      }
      var incoming := Gather(run);
      var names := List(incoming.Keys, "");
      for i := 0 to |names|
        invariant results == Rewritten(old(results), names[..i], incoming)
      {
        hide *;
        ListingIsComplete(incoming.Keys, "");
        assert names[i] in incoming;
        NextRewrite(old(results), names, i, incoming);
        Rewrite(names[i], incoming[names[i]]);
      }
      assert names[..|names|] == names;
      if valid != {} {
        PurgeStale(valid);
      } else {
        assert Purged(results, valid) == results;
      }
    }

    method Rewrite(name: string, rows: map<string, Row>)
      modifies this`results
      ensures results == RewriteOne(old(results), name, rows)
    {
      var slug := Slug(name);
      var data: map<string, Row> := map[];
      if slug in results && results[slug].Stored? && results[slug].results.Some? {
        data := results[slug].results.value;
      }
      results := results[slug := Stored(name, Some(data + rows))];
    }

    method PurgeStale(valid: set<string>)
      requires valid != {}
      modifies this`results
      ensures results == Purged(old(results), valid)
      ensures forall slug :: slug in results <==> slug in old(results) && Stays(old(results)[slug], valid)
    {
      var left := results.Keys;
      while left != {}
        invariant left <= old(results).Keys
        invariant results == map slug | slug in old(results)
          && (slug in left || !Stale(old(results)[slug], valid)) :: old(results)[slug]
      {
        LeastExists(left, ".json");
        var slug :| IsLeast(slug, left, ".json");
        if results[slug].Stored? && results[slug].framework != "" && results[slug].framework !in valid {
          results := results - {slug};
        }
        left := left - {slug};
      }
    }

    method LoadResults() returns (index: map<string, seq<Row>>)
      ensures NoEmpty(index) && forall key :: Under(index, key) == View(results, key)
    {
      index := Load(results);
    }
  }

  // ---- What merging keeps ---------------------------------------------------------------------

  /** The rows a run has for a slug: of its frameworks sharing it, the later ones win. */
  function Produced(names: seq<string>, incoming: Incoming, slug: string): map<string, Row> {
    if names == [] then map[]
    else
      var front, name := Produced(names[..|names| - 1], incoming, slug), names[|names| - 1];
      if Slug(name) == slug then front + RowsOfName(incoming, name) else front
  }

  function Owner(names: seq<string>, slug: string): Option<string> {
    if names == [] then None
    else if Slug(names[|names| - 1]) == slug then Some(names[|names| - 1])
    else Owner(names[..|names| - 1], slug)
  }

  /** A file as a run leaves it, purging aside: untouched if the run has nothing for it,
      else its rows overridden by the new ones. */
  function Overridden(file: Option<ResultFile>, names: seq<string>, incoming: Incoming,
      slug: string): Option<ResultFile> {
    var owner := Owner(names, slug);
    if owner.None? then file
    else Some(Stored(owner.value, Some(OldRows(file) + Produced(names, incoming, slug))))
  }

  lemma {:induction false} RewritingOverrides(files: Files, names: seq<string>, incoming: Incoming, slug: string)
    ensures At(Rewritten(files, names, incoming), slug) == Overridden(At(files, slug), names, incoming, slug)
  {
    hide Slug;
    if names != [] {
      var front, name := names[..|names| - 1], names[|names| - 1];
      RewritingOverrides(files, front, incoming, slug);
      if Owner(front, slug).None? {
        NothingProduced(front, incoming, slug);
      }
      hide OldRows, RowsOfName;
      OverrideTwice(OldRows(At(files, slug)), Produced(front, incoming, slug), RowsOfName(incoming, name));
    }
  }

  lemma OverrideTwice(held: map<string, Row>, added: map<string, Row>, more: map<string, Row>)
    ensures held + added + more == held + (added + more)
    ensures held + map[] == held && map[] + more == more
  {
  }

  lemma {:induction false} NothingProduced(names: seq<string>, incoming: Incoming, slug: string)
    requires Owner(names, slug).None?
    ensures Produced(names, incoming, slug) == map[]
  {
    hide Slug;
    if names != [] {
      NothingProduced(names[..|names| - 1], incoming, slug);
    }
  }

  function Kept(file: Option<ResultFile>, valid: set<string>): Option<ResultFile> {
    if file.Some? && Stale(file.value, valid) then None else file
  }

  ghost function NamesOf(run: seq<RunFile>): seq<string> {
    Listing(Gathered(run).Keys, "")
  }

  ghost function After(file: Option<ResultFile>, run: seq<RunFile>, valid: set<string>,
      slug: string): Option<ResultFile> {
    Kept(Overridden(file, NamesOf(run), Gathered(run), slug), valid)
  }

  lemma {:induction false} GatheredUnderOwnName(run: seq<RunFile>, name: string)
    ensures forall key :: key in RowsOfName(Gathered(run), name) ==>
      RowsOfName(Gathered(run), name)[key].framework == name
  {
    if run != [] {
      var front := RowsOfName(Gathered(run[..|run| - 1]), name);
      GatheredUnderOwnName(run[..|run| - 1], name);
      forall key | key in RowsOfName(Gathered(run), name)
        ensures RowsOfName(Gathered(run), name)[key].framework == name
      {
        assert key in front ==> front[key].framework == name;
      }
    }
  }

  lemma RewritingOneKeepsFiling(files: Files, name: string, rows: map<string, Row>)
    requires Filed(files) && name != "" && forall key :: key in rows ==> rows[key].framework == name
    ensures Filed(RewriteOne(files, name, rows))
  {
    hide Slug;
    var slug, later := Slug(name), RewriteOne(files, name, rows);
    forall at, key | at in later && Held(later[at], key).Some? ensures FiledRow(Held(later[at], key).value, at) {
      if at == slug && key !in rows {
        assert Held(files[slug], key) == Held(later[slug], key);
      } else if at != slug {
        assert later[at] == files[at];
      }
    }
  }

  lemma {:induction false} RewritingKeepsFiling(files: Files, names: seq<string>, run: seq<RunFile>)
    requires Filed(files) && forall name :: name in names ==> name in Gathered(run)
    ensures Filed(Rewritten(files, names, Gathered(run)))
  {
    hide Filed, Gathered, RewriteOne, RowsOfName;
    if names != [] {
      var front, name := names[..|names| - 1], names[|names| - 1];
      RewritingKeepsFiling(files, front, run);
      NamesAreNonEmpty(run, name);
      GatheredUnderOwnName(run, name);
      RewritingOneKeepsFiling(Rewritten(files, front, Gathered(run)), name, RowsOfName(Gathered(run), name));
    }
  }

  /** Merging, too, leaves every row named and in the file of its slug. */
  lemma MergingKeepsFiling(files: Files, run: seq<RunFile>, valid: set<string>)
    requires Filed(files)
    ensures Filed(Merged(files, run, valid))
  {
    hide Gathered, Rewritten, Held, FiledRow, Stale;
    ListingIsComplete(Gathered(run).Keys, "");
    RewritingKeepsFiling(files, NamesOf(run), run);
  }

  /** Merging is a map override file by file, and purging takes away exactly the files
      whose framework is not current. */
  lemma MergingOverrides(files: Files, run: seq<RunFile>, valid: set<string>, slug: string)
    ensures At(Merged(files, run, valid), slug) == After(At(files, slug), run, valid, slug)
  {
    RewritingOverrides(files, NamesOf(run), Gathered(run), slug);
  }

  function LastRun(run: seq<RunFile>, name: string, key: string): Option<Row> {
    if run == [] then None
    else
      var last := run[|run| - 1];
      if last.entry.Some? && last.entry.value.framework == name && last.key == key then last.entry
      else LastRun(run[..|run| - 1], name, key)
  }

  /** A run's row for a framework and key is the last one it holds. */
  lemma {:induction false} GatheredIsLast(run: seq<RunFile>, name: string, key: string)
    requires name != ""
    ensures var rows := RowsOfName(Gathered(run), name);
      LastRun(run, name, key) == if key in rows then Some(rows[key]) else None
  {
    if run != [] {
      GatheredIsLast(run[..|run| - 1], name, key);
    }
  }

  lemma {:induction false} OwnedAlone(names: seq<string>, incoming: Incoming, name: string)
    requires name in names && (forall n :: n in names && Slug(n) == Slug(name) ==> n == name)
    requires forall i, j :: 0 <= i < j < |names| ==> names[i] != names[j]
    ensures Owner(names, Slug(name)) == Some(name) && Produced(names, incoming, Slug(name)) ==
      RowsOfName(incoming, name)
  {
    hide Slug;
    var front, last := names[..|names| - 1], names[|names| - 1];
    assert names == front + [last];
    if last == name {
      OwnerIsNamed(front, Slug(name));
      NothingProduced(front, incoming, Slug(name));
      assert map[] + RowsOfName(incoming, name) == RowsOfName(incoming, name);
    } else {
      OwnedAlone(front, incoming, name);
    }
  }

  lemma {:induction false} OwnerIsNamed(names: seq<string>, slug: string)
    ensures var owner := Owner(names, slug);
      if owner.Some? then owner.value in names && Slug(owner.value) == slug
      else forall n :: n in names ==> Slug(n) != slug
  {
    hide Slug;
    if names != [] {
      OwnerIsNamed(names[..|names| - 1], slug);
      assert names == names[..|names| - 1] + [names[|names| - 1]];
    }
  }

  function RowAt(file: Option<ResultFile>, key: string): Option<Row> {
    if key in OldRows(file) then Some(OldRows(file)[key]) else None
  }

  /** For a current framework alone in its slug: the file bears its name, and each key holds
      the run's last row for it, or, if the run has none, what it held before. */
  lemma NewRowsReplaceOld(files: Files, run: seq<RunFile>, valid: set<string>, name: string, key: string)
    requires name in Gathered(run) && (valid == {} || name in valid)
    requires forall n :: n in Gathered(run) && Slug(n) == Slug(name) ==> n == name
    ensures name != ""
    ensures var file := At(Merged(files, run, valid), Slug(name));
      file.Some? && file.value.Stored? && file.value.framework == name
    ensures RowAt(At(Merged(files, run, valid), Slug(name)), key) ==
      if LastRun(run, name, key).Some? then LastRun(run, name, key) else RowAt(At(files, Slug(name)), key)
  {
    hide Slug, Merged, LastRun;
    NamesAreNonEmpty(run, name);
    ListingIsComplete(Gathered(run).Keys, "");
    OwnedAlone(NamesOf(run), Gathered(run), name);
    MergingOverrides(files, run, valid, Slug(name));
    GatheredIsLast(run, name, key);
  }

  lemma {:induction false} NamesAreNonEmpty(run: seq<RunFile>, name: string)
    requires name in Gathered(run)
    ensures name != ""
  {
    if name == "" || run[|run| - 1].entry.None? || run[|run| - 1].entry.value.framework != name {
      NamesAreNonEmpty(run[..|run| - 1], name);
    }
  }

  lemma SameFiles(f: Files, g: Files)
    requires forall slug :: At(f, slug) == At(g, slug)
    ensures f == g
  {
    forall slug ensures slug in f <==> slug in g {
      assert At(f, slug) == At(g, slug);
    }
    forall slug | slug in f ensures f[slug] == g[slug] {
      assert At(f, slug) == At(g, slug);
    }
  }

  /** Merging a run again changes nothing, whatever it and the store hold. */
  lemma MergingTwiceIsOnce(files: Files, run: seq<RunFile>, valid: set<string>)
    ensures Merged(Merged(files, run, valid), run, valid) == Merged(files, run, valid)
  {
    hide Merged;
    var once := Merged(files, run, valid);
    forall slug ensures At(Merged(once, run, valid), slug) == At(once, slug) {
      MergingOverrides(files, run, valid, slug);
      MergingOverrides(once, run, valid, slug);
      AfterTwice(At(files, slug), run, valid, slug);
    }
    SameFiles(Merged(once, run, valid), once);
  }

  lemma AfterTwice(file: Option<ResultFile>, run: seq<RunFile>, valid: set<string>, slug: string)
    ensures After(After(file, run, valid, slug), run, valid, slug) == After(file, run, valid, slug)
  {
    hide Owner, Produced;
    var added := Produced(NamesOf(run), Gathered(run), slug);
    assert OldRows(file) + added + added == OldRows(file) + added;
  }

  ghost predicate Disjoint(a: seq<RunFile>, b: seq<RunFile>) {
    forall slug :: Owner(NamesOf(a), slug).None? || Owner(NamesOf(b), slug).None?
  }

  /** No stale file waits under a slug of the run with rows the run would inherit. */
  ghost predicate NothingStaleInherited(files: Files, run: seq<RunFile>, valid: set<string>) {
    forall slug :: InheritsNothingStale(At(files, slug), run, valid, slug)
  }

  ghost predicate InheritsNothingStale(file: Option<ResultFile>, run: seq<RunFile>, valid: set<string>, slug: string) {
    var owner := Owner(NamesOf(run), slug);
    owner.Some? && file.Some? && Stale(file.value, valid) && owner.value in valid
    ==> OldRows(file).Keys <= Produced(NamesOf(run), Gathered(run), slug).Keys
  }

  lemma EmptyNameHasNoOwner(run: seq<RunFile>, slug: string)
    ensures Owner(NamesOf(run), slug).Some? ==> Owner(NamesOf(run), slug).value != ""
  {
    OwnerIsNamed(NamesOf(run), slug);
    ListingIsComplete(Gathered(run).Keys, "");
    if Owner(NamesOf(run), slug).Some? {
      NamesAreNonEmpty(run, Owner(NamesOf(run), slug).value);
    }
  }

  lemma AddsNothing(a: map<string, Row>, b: map<string, Row>)
    ensures a + b == map[] + b <==> a.Keys <= b.Keys
  {
    if a.Keys <= b.Keys {
      assert a + b == b == map[] + b;
    } else {
      var k :| k in a.Keys && k !in b.Keys;
      assert k in a + b && k !in map[] + b;
    }
  }

  /** At a slug only run a has: b's purge in between matters exactly if it takes away
      rows a would have inherited. */
  lemma PurgeBetween(file: Option<ResultFile>, a: seq<RunFile>, valid: set<string>, slug: string)
    requires Owner(NamesOf(a), slug).Some?
    ensures After(file, a, valid, slug) == After(Kept(file, valid), a, valid, slug) <==>
      InheritsNothingStale(file, a, valid, slug)
    ensures Kept(After(file, a, valid, slug), valid) == After(file, a, valid, slug)
  {
    hide Owner, Produced, NamesOf, Gathered;
    EmptyNameHasNoOwner(a, slug);
    AddsNothing(OldRows(file), Produced(NamesOf(a), Gathered(a), slug));
  }

  lemma CommuteAt(file: Option<ResultFile>, a: seq<RunFile>, b: seq<RunFile>, valid: set<string>, slug: string)
    requires Disjoint(a, b)
    ensures After(After(file, a, valid, slug), b, valid, slug) == After(After(file, b, valid, slug), a, valid, slug)
      <==> InheritsNothingStale(file, a, valid, slug) && InheritsNothingStale(file, b, valid, slug)
  {
    hide Owner, Produced, NamesOf, Gathered;
    assert Owner(NamesOf(a), slug).None? || Owner(NamesOf(b), slug).None?;
    if Owner(NamesOf(a), slug).Some? {
      PurgeBetween(file, a, valid, slug);
    } else if Owner(NamesOf(b), slug).Some? {
      PurgeBetween(file, b, valid, slug);
    }
  }

  /** Two runs over frameworks of disjoint slugs can be merged in either order exactly
      if neither inherits rows of a stale file, which the other's purge would remove. */
  lemma DisjointRunsCommuteIff(files: Files, a: seq<RunFile>, b: seq<RunFile>, valid: set<string>)
    requires Disjoint(a, b)
    ensures Merged(Merged(files, a, valid), b, valid) == Merged(Merged(files, b, valid), a, valid)
      <==> NothingStaleInherited(files, a, valid) && NothingStaleInherited(files, b, valid)
  {
    hide Merged, After, InheritsNothingStale, Disjoint;
    var ab, ba := Merged(Merged(files, a, valid), b, valid), Merged(Merged(files, b, valid), a, valid);
    forall slug
      ensures At(ab, slug) == At(ba, slug) <==>
        InheritsNothingStale(At(files, slug), a, valid, slug) && InheritsNothingStale(At(files, slug), b, valid, slug)
    {
      MergingOverrides(files, a, valid, slug);
      MergingOverrides(files, b, valid, slug);
      MergingOverrides(Merged(files, a, valid), b, valid, slug);
      MergingOverrides(Merged(files, b, valid), a, valid, slug);
      CommuteAt(At(files, slug), a, b, valid, slug);
    }
    if NothingStaleInherited(files, a, valid) && NothingStaleInherited(files, b, valid) {
      SameFiles(ab, ba);
    }
  }

  lemma OneRowRun(key: string, r: Row)
    requires r.framework != ""
    ensures var run := [RunFile(key, Some(r))];
      && Gathered(run) == map[r.framework := map[key := r]]
      && NamesOf(run) == [r.framework]
      && Owner(NamesOf(run), Slug(r.framework)) == Some(r.framework)
      && Produced(NamesOf(run), Gathered(run), Slug(r.framework)) == map[key := r]
  {
    hide Slug;
    var run, name := [RunFile(key, Some(r))], r.framework;
    assert run[..0] == [] && Gathered([]) == map[];
    assert RowsOfName(map[], name)[key := r] == map[key := r];
    assert Gathered(run).Keys == {name} && Least({name}, "") == name && {name} - {name} == {};
    assert Listing({name}, "") == [name] + Listing({}, "") == [name];
    assert [name][..0] == [] && Produced([], Gathered(run), Slug(name)) == map[];
    assert map[] + map[key := r] == map[key := r];
  }

  /** Order can matter: a framework renamed from C# to C inherits the old rows unless
      another run's merge has purged them first. */
  lemma OrderCanMatter() returns (files: Files, a: seq<RunFile>, b: seq<RunFile>, valid: set<string>)
    ensures Disjoint(a, b)
    ensures Merged(Merged(files, a, valid), b, valid) != Merged(Merged(files, b, valid), a, valid)
  {
    hide Slug, Gathered, NamesOf, Owner, Produced, Merged;
    var r := Row("C", "");
    files, valid := map["c" := Stored("C#", Some(map["old-64" := Row("C#", "")]))], {"C"};
    a, b := [RunFile("new-64", Some(r))], [];
    SlugsCollide();
    OneRowRun("new-64", r);
    EmptyRun();
    assert "old-64" in OldRows(At(files, "c")).Keys;
    assert !InheritsNothingStale(At(files, "c"), a, valid, "c");
    DisjointRunsCommuteIff(files, a, b, valid);
  }

  lemma EmptyRun()
    ensures forall slug :: Owner(NamesOf([]), slug) == None
  {
  }
}
