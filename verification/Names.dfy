/** Names in the order Python sorts them, and listings of a set of names. */
module Names {

  /** Strings by code point, as Python compares them. */
  predicate NameLess(a: string, b: string) {
    b != "" && (a == "" || a[0] < b[0] || (a[0] == b[0] && NameLess(a[1..], b[1..])))
  }

  /** The one string goes on where the other ends, or has the lower code point where they
      first differ. */
  ghost predicate LowerAt(a: string, b: string, k: nat) {
    && k <= |a| && k < |b| && a[..k] == b[..k]
    && (k == |a| || (a[k] as int) < (b[k] as int))
  }

  lemma HeadsOf(a: string, b: string, k: nat)
    requires LowerAt(a, b, k)
    ensures b != "" && (if k == 0 then a == "" || a[0] < b[0] else a != "" && a[0] == b[0])
  {
    if k > 0 {
      assert a[..k][0] == a[0] && b[..k][0] == b[0];
    }
  }

  lemma {:induction false} NameLessIff(a: string, b: string)
    ensures NameLess(a, b) <==> exists k: nat :: LowerAt(a, b, k)
  {
    if a != "" && b != "" && a[0] == b[0] {
      NameLessIff(a[1..], b[1..]);
      assert a == [a[0]] + a[1..] && b == [b[0]] + b[1..];
      forall k: nat | LowerAt(a[1..], b[1..], k) ensures LowerAt(a, b, k + 1) {
        assert a[..k + 1] == [a[0]] + a[1..][..k] && b[..k + 1] == [b[0]] + b[1..][..k];
      }
      forall k: nat | LowerAt(a, b, k) ensures k > 0 && LowerAt(a[1..], b[1..], k - 1) {
        HeadsOf(a, b, k);
        assert a[..k][1..] == a[1..][..k - 1] && b[..k][1..] == b[1..][..k - 1];
      }
    } else if NameLess(a, b) {
      assert LowerAt(a, b, 0);
    } else {
      forall k: nat ensures !LowerAt(a, b, k) {
        if LowerAt(a, b, k) {
          HeadsOf(a, b, k);
        }
      }
    }
  }

  lemma {:induction false} NameLessTotal(a: string, b: string)
    ensures a == b || NameLess(a, b) || NameLess(b, a)
  {
    if a != "" && b != "" && a[0] == b[0] {
      NameLessTotal(a[1..], b[1..]);
      assert a == [a[0]] + a[1..] && b == [b[0]] + b[1..];
    }
  }

  lemma {:induction false} NameLessTransitive(a: string, b: string, c: string)
    requires NameLess(a, b) && NameLess(b, c)
    ensures NameLess(a, c)
  {
    if a != "" && a[0] == b[0] == c[0] {
      NameLessTransitive(a[1..], b[1..], c[1..]);
    }
  }

  lemma {:induction false} NameLessIrreflexive(a: string)
    ensures !NameLess(a, a)
  {
    if a != "" {
      NameLessIrreflexive(a[1..]);
    }
  }

  // ---- Listings -------------------------------------------------------------------

  /** Names compared with the suffix they carry: `actix-web.json` comes before `actix.json`. */
  predicate Precedes(a: string, b: string, suffix: string) {
    NameLess(a + suffix, b + suffix)
  }

  lemma SuffixTellsApart(a: string, b: string, suffix: string)
    requires a + suffix == b + suffix
    ensures a == b
  {
    assert a == (a + suffix)[..|a + suffix| - |suffix|];
    assert b == (b + suffix)[..|b + suffix| - |suffix|];
  }

  lemma PrecedesTotal(a: string, b: string, suffix: string)
    requires a != b
    ensures Precedes(a, b, suffix) != Precedes(b, a, suffix)
  {
    if a + suffix == b + suffix {
      SuffixTellsApart(a, b, suffix);
    }
    NameLessTotal(a + suffix, b + suffix);
    NameLessIrreflexive(a + suffix);
    if Precedes(a, b, suffix) && Precedes(b, a, suffix) {
      NameLessTransitive(a + suffix, b + suffix, a + suffix);
    }
  }

  predicate IsLeast(least: string, names: set<string>, suffix: string) {
    least in names && forall x :: x in names && x != least ==> Precedes(least, x, suffix)
  }

  lemma {:induction false} LeastExists(names: set<string>, suffix: string)
    requires names != {}
    ensures exists least :: IsLeast(least, names, suffix)
  {
    var some :| some in names;
    if names == {some} {
      assert IsLeast(some, names, suffix);
    } else {
      var others := names - {some};
      LeastExists(others, suffix);
      var least :| IsLeast(least, others, suffix);
      PrecedesTotal(some, least, suffix);
      if Precedes(least, some, suffix) {
        assert IsLeast(least, names, suffix);
      } else {
        forall x | x in names && x != some ensures Precedes(some, x, suffix) {
          if x != least {
            assert x in others && Precedes(least, x, suffix);
            NameLessTransitive(some + suffix, least + suffix, x + suffix);
          }
        }
        assert IsLeast(some, names, suffix);
      }
    }
  }

  lemma LeastIsUnique(a: string, b: string, names: set<string>, suffix: string)
    requires IsLeast(a, names, suffix) && IsLeast(b, names, suffix)
    ensures a == b
  {
    if a != b {
      PrecedesTotal(a, b, suffix);
    }
  }

  ghost function Least(names: set<string>, suffix: string): (least: string)
    requires names != {}
    ensures IsLeast(least, names, suffix)
  {
    LeastExists(names, suffix);
    var least :| IsLeast(least, names, suffix);
    least
  }

  /** `sorted(names)`, each name carrying a suffix. */
  ghost function Listing(names: set<string>, suffix: string): seq<string> {
    if names == {} then [] else [Least(names, suffix)] + Listing(names - {Least(names, suffix)}, suffix)
  }

  /** A listing names everything once. */
  lemma {:induction false} ListingIsComplete(names: set<string>, suffix: string)
    ensures forall x :: x in Listing(names, suffix) <==> x in names
    ensures forall i, j :: 0 <= i < j < |Listing(names, suffix)| ==>
      Listing(names, suffix)[i] != Listing(names, suffix)[j]
  {
    if names != {} {
      ListingIsComplete(names - {Least(names, suffix)}, suffix);
    }
  }

  ghost predicate SortedBy(listing: seq<string>, suffix: string) {
    forall i, j :: 0 <= i < j < |listing| ==> Precedes(listing[i], listing[j], suffix)
  }

  lemma {:induction false} ListingIsSorted(names: set<string>, suffix: string)
    ensures SortedBy(Listing(names, suffix), suffix)
  {
    if names != {} {
      var rest := names - {Least(names, suffix)};
      ListingIsSorted(rest, suffix);
      ListingIsComplete(rest, suffix);
      forall j | 0 <= j < |Listing(rest, suffix)|
        ensures Precedes(Least(names, suffix), Listing(rest, suffix)[j], suffix)
      {
        assert Listing(rest, suffix)[j] in rest;
      }
    }
  }

  method List(names: set<string>, suffix: string) returns (listing: seq<string>)
    ensures listing == Listing(names, suffix)
  {
    listing := [];
    var left := names;
    while left != {}
      invariant listing + Listing(left, suffix) == Listing(names, suffix)
    {
      LeastExists(left, suffix);
      var next :| IsLeast(next, left, suffix);
      LeastIsUnique(next, Least(left, suffix), left, suffix);
      listing, left := listing + [next], left - {next};
    }
  }
}
