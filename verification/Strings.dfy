/** The string operations of Python that the text modules share. */
module Strings {

  /** `c.isspace()` */
  predicate IsSpace(c: char) {
    var n := c as int;
    || 9 <= n <= 13 || 28 <= n <= 32 || n == 133 || n == 160 || n == 5760
    || 8192 <= n <= 8202 || n == 8232 || n == 8233 || n == 8239 || n == 8287 || n == 12288
  }

  function StripLeft(s: string): (r: string)
    ensures |r| <= |s| && r == s[|s| - |r|..]
    ensures r != "" ==> !IsSpace(r[0])
  {
    if s != "" && IsSpace(s[0]) then StripLeft(s[1..]) else s
  }

  function StripRight(s: string): (r: string)
    ensures |r| <= |s| && r == s[..|r|]
    ensures r != "" ==> !IsSpace(r[|r| - 1])
  {
    if s != "" && IsSpace(s[|s| - 1]) then StripRight(s[..|s| - 1]) else s
  }

  function Strip(s: string): (r: string)
    ensures |r| <= |s|
  {
    StripRight(StripLeft(s))
  }

  function StripEach(pieces: seq<string>): (r: seq<string>)
    ensures |r| == |pieces|
  {
    seq(|pieces|, i requires 0 <= i < |pieces| => Strip(pieces[i]))
  }

  /** How many characters of white space a line starts with. */
  function Lead(s: string): nat {
    |s| - |StripLeft(s)|
  }

  predicate IsBlank(s: string) {
    StripLeft(s) == ""
  }

  function Concat(pieces: seq<string>): string {
    if pieces == [] then "" else Concat(pieces[..|pieces| - 1]) + pieces[|pieces| - 1]
  }

  lemma {:induction false} ConcatSnoc(pieces: seq<string>, piece: string)
    ensures Concat(pieces + [piece]) == Concat(pieces) + piece
  {
    assert (pieces + [piece])[..|pieces|] == pieces;
  }

  predicate AllSpace(s: string) {
    forall c :: c in s ==> IsSpace(c)
  }

  lemma TailMembers(s: string)
    requires s != ""
    ensures s[0] in s && forall c :: c in s[1..] ==> c in s
  {
  }

  /** Empty, or with a character at either end that is no white space. */
  predicate Tight(s: string) {
    s != "" ==> !IsSpace(s[0]) && !IsSpace(s[|s| - 1])
  }

  /** The white space of Python, by code points. */
  lemma SpaceIs(c: char)
    ensures IsSpace(c) <==> c as int in {9, 10, 11, 12, 13, 28, 29, 30, 31, 32, 133, 160, 5760, 8192, 8193, 8194, 8195,
      8196, 8197, 8198, 8199, 8200, 8201, 8202, 8232, 8233, 8239, 8287, 12288}
  {
  }

  lemma StripLeftStep(s: string)
    requires s != "" && IsSpace(s[0])
    ensures StripLeft(s) == StripLeft(s[1..]) && Lead(s) == Lead(s[1..]) + 1
  {
  }

  lemma NothingLeads(s: string)
    requires s == "" || !IsSpace(s[0])
    ensures StripLeft(s) == s && Lead(s) == 0 && AllSpace("")
  {
  }

  lemma {:induction false} StripLeftIs(blanks: string, rest: string)
    requires AllSpace(blanks) && (rest != "" ==> !IsSpace(rest[0]))
    ensures StripLeft(blanks + rest) == rest && Lead(blanks + rest) == |blanks|
  {
    hide IsSpace, StripLeft, Lead;
    if blanks == "" {
      assert blanks + rest == rest;
      NothingLeads(rest);
    } else {
      TailMembers(blanks);
      var s := blanks + rest;
      assert s[0] == blanks[0] && s[1..] == blanks[1..] + rest;
      StripLeftStep(s);
      StripLeftIs(blanks[1..], rest);
    }
  }

  lemma {:induction false} StripRightIs(front: string, blanks: string)
    requires AllSpace(blanks) && (front != "" ==> !IsSpace(front[|front| - 1]))
    ensures StripRight(front + blanks) == front
  {
    hide IsSpace;
    if blanks == "" {
      assert front + blanks == front;
    } else {
      var n := |blanks| - 1;
      assert (front + blanks)[..|front + blanks| - 1] == front + blanks[..n] && blanks[n] in blanks;
      StripRightIs(front, blanks[..n]);
    }
  }

  /** Stripping takes away the white space at both ends and nothing else. */
  lemma StripIs(before: string, core: string, after: string)
    requires AllSpace(before) && AllSpace(after) && Tight(core)
    ensures Strip(before + core + after) == core
  {
    hide IsSpace, StripLeft, StripRight;
    if core == "" {
      assert before + core + after == (before + after) + "";
      StripLeftIs(before + after, "");
      StripRightIs("", "");
      assert "" + "" == "";
    } else {
      assert before + core + after == before + (core + after);
      StripLeftIs(before, core + after);
      StripRightIs(core, after);
    }
  }

  lemma SpaceGrows(c: char, blanks: string)
    requires IsSpace(c) && AllSpace(blanks)
    ensures AllSpace([c] + blanks)
  {
  }

  /** Where the white space ends that a text begins with. */
  lemma {:induction false} LeadIsSpace(s: string)
    ensures AllSpace(s[..Lead(s)]) && s == s[..Lead(s)] + StripLeft(s)
  {
    hide IsSpace, StripLeft, AllSpace, Lead;
    if s == "" || !IsSpace(s[0]) {
      NothingLeads(s);
      assert s[..0] == "" && s == "" + s;
    } else {
      var rest := s[1..];
      StripLeftStep(s);
      LeadIsSpace(rest);
      LeadInside(rest);
      SpaceGrows(s[0], rest[..Lead(rest)]);
      SplitsFurther(s, Lead(rest), StripLeft(rest));
    }
  }

  lemma LeadInside(s: string)
    ensures Lead(s) <= |s|
  {
  }

  lemma SplitsFurther(s: string, n: nat, stripped: string)
    requires s != "" && n < |s| && s[1..] == s[1..][..n] + stripped
    ensures s[..n + 1] == [s[0]] + s[1..][..n] && s == s[..n + 1] + stripped
  {
    assert s == [s[0]] + s[1..];
  }

  lemma BlankIff(s: string)
    ensures IsBlank(s) <==> AllSpace(s)
  {
    LeadIsSpace(s);
    if AllSpace(s) {
      StripLeftIs(s, "");
      assert s + "" == s;
    }
  }

  // ---- Splitting and joining --------------------------------------------------------

  /** `s.split(c)` */
  function Split(s: string, c: char): (r: seq<string>)
    ensures r != []
  {
    if s == "" then [""]
    else
      var front, last := Split(s[..|s| - 1], c), s[|s| - 1];
      if last == c then front + [""]
      else front[..|front| - 1] + [front[|front| - 1] + [last]]
  }

  /** `c.join(pieces)` */
  function Join(pieces: seq<string>, c: char): string {
    if pieces == [] then ""
    else if |pieces| == 1 then pieces[0]
    else Join(pieces[..|pieces| - 1], c) + [c] + pieces[|pieces| - 1]
  }

  lemma {:induction false} SplitPiecesAreWhole(s: string, c: char)
    ensures forall p :: p in Split(s, c) ==> c !in p
  {
    if s != "" {
      SplitPiecesAreWhole(s[..|s| - 1], c);
    }
  }

  lemma {:induction false} SplitAfter(s: string, piece: string, c: char)
    requires c !in piece
    ensures Split(s + [c] + piece, c) == Split(s, c) + [piece]
  {
    var all := s + [c] + piece;
    if piece == "" {
      assert all[..|all| - 1] == s;
    } else {
      var front := piece[..|piece| - 1];
      assert all[..|all| - 1] == s + [c] + front;
      assert piece == front + [piece[|piece| - 1]];
      SplitAfter(s, front, c);
    }
  }

  lemma {:induction false} SplitWhole(piece: string, c: char)
    requires c !in piece
    ensures Split(piece, c) == [piece]
  {
    if piece != "" {
      var front := piece[..|piece| - 1];
      assert piece == front + [piece[|piece| - 1]];
      SplitWhole(front, c);
    }
  }

  lemma JoinSnoc(pieces: seq<string>, piece: string, c: char)
    requires pieces != []
    ensures Join(pieces + [piece], c) == Join(pieces, c) + [c] + piece
  {
    assert (pieces + [piece])[..|pieces|] == pieces;
  }

  /** Joining and splitting again gives the pieces back. */
  lemma {:induction false} SplitJoin(pieces: seq<string>, c: char)
    requires pieces != [] && forall p :: p in pieces ==> c !in p
    ensures Split(Join(pieces, c), c) == pieces
  {
    if |pieces| == 1 {
      SplitWhole(pieces[0], c);
    } else {
      hide Split, Join;
      var front, last := pieces[..|pieces| - 1], pieces[|pieces| - 1];
      SplitJoin(front, c);
      assert front + [last] == pieces;
      JoinSnoc(front, last, c);
      SplitAfter(Join(front, c), last, c);
    }
  }

  lemma JoinGrow(front: seq<string>, last: string, x: char, c: char)
    ensures Join(front + [last + [x]], c) == Join(front + [last], c) + [x]
  {
    if front == [] {
      assert front + [last] == [last] && front + [last + [x]] == [last + [x]];
    } else {
      JoinSnoc(front, last, c);
      JoinSnoc(front, last + [x], c);
    }
  }

  lemma JoinSplitStep(front: seq<string>, last: char, c: char)
    requires front != []
    ensures Join(if last == c then front + [""] else front[..|front| - 1] + [front[|front| - 1] + [last]], c)
      == Join(front, c) + [last]
  {
    JoinSnoc(front, "", c);
    JoinGrow(front[..|front| - 1], front[|front| - 1], last, c);
    assert front[..|front| - 1] + [front[|front| - 1]] == front;
  }

  /** Splitting and joining again gives the text back. */
  lemma {:induction false} JoinSplit(s: string, c: char)
    ensures Join(Split(s, c), c) == s
  {
    if s != "" {
      JoinSplit(s[..|s| - 1], c);
      JoinSplitStep(Split(s[..|s| - 1], c), s[|s| - 1], c);
    }
  }
}
