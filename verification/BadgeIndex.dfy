/**
 The badge index: nested loops over families, leagues, the tuned filter and
 languages rank one field after the other and file every place under a key of
 its entry, with a tuned entry's place filed twice.
 */
module BadgeIndex {
  import opened Basics
  import opened Names
  import opened Ranking
  import opened Composite
  import opened Slugs

  const FAMILIES: seq<Family> := [H1, H2, H3, Gw, Grpc, Ws]

  const LEAGUES: seq<League> := [{Flagship, Emerging}, {Engine}, {Experimental}, {Infrastructure}]

  /** A rank is published only if something was beaten to earn it. */
  const BADGE_MIN_FIELD := 2

  datatype Key = Default | WithTuned | ByLanguage | ByLanguageWithTuned

  /** One ranking that gets published. */
  datatype Pass = Pass(scope: Family, league: League, view: View)

  /** `link` names the board view the rank was taken in. */
  datatype Badge = Badge(rank: nat, total: nat, score: real, link: Pass)

  /** Where a badge is filed: `index[slug].scopes[scope][key]`. */
  datatype Slot = Slot(slug: string, scope: Family, key: Key)

  type Index = map<Slot, Badge>

  predicate IsTuned(b: Board, fw: string) {
    MetaOf(b, fw).tuned
  }

  function LanguageOf(b: Board, fw: string): Option<string> {
    if fw in b.languages && b.languages[fw] != "" then Some(b.languages[fw]) else None
  }

  function FieldOf(b: Board, p: Pass): seq<Row> {
    BadgeComposite(b, p.league, p.scope, p.view)
  }

  function KeyFor(language: Option<string>, withTuned: bool): Key {
    if language.Some? then if withTuned then ByLanguageWithTuned else ByLanguage
    else if withTuned then WithTuned else Default
  }

  // ---- What the index should hold ------------------------------------------------------

  function PositionOf(rows: seq<Row>, fw: string): Option<nat> {
    if rows == [] then None
    else if rows[|rows| - 1].fw == fw then Some(|rows| - 1)
    else PositionOf(rows[..|rows| - 1], fw)
  }

  /** The badge of row i, if the field is large enough and the score positive. */
  function BadgeAt(p: Pass, rows: seq<Row>, i: nat): Option<Badge>
    requires i < |rows|
  {
    if |rows| < BADGE_MIN_FIELD || rows[i].score <= 0.0 then None
    else Some(Badge(RankAt(rows, i), |rows|, rows[i].score, p))
  }

  function BadgeIn(b: Board, p: Pass, fw: string): Option<Badge> {
    var rows := FieldOf(b, p);
    var i := PositionOf(rows, fw);
    if i.None? || i.value >= |rows| then None else BadgeAt(p, rows, i.value)
  }

  function LeagueOf(tier: Tier): Option<League> {
    match tier
    case Flagship => Some(LEAGUES[0])
    case Emerging => Some(LEAGUES[0])
    case Engine => Some(LEAGUES[1])
    case Experimental => Some(LEAGUES[2])
    case Infrastructure => Some(LEAGUES[3])
    case Unlisted => None
  }

  /** The one ranking that decides an entry's badge under a key.  A tuned entry has
      no place in the field without tuned entries, so its plain keys follow the other. */
  function PassFor(b: Board, fw: string, scope: Family, key: Key): Option<Pass> {
    var league := LeagueOf(MetaOf(b, fw).tier);
    var tuned := key == WithTuned || key == ByLanguageWithTuned || IsTuned(b, fw);
    if league.None? then None
    else if key == Default || key == WithTuned then Some(Pass(scope, league.value, View(tuned, None)))
    else if LanguageOf(b, fw).None? then None
    else Some(Pass(scope, league.value, View(tuned, LanguageOf(b, fw))))
  }

  function Expected(b: Board, fw: string, scope: Family, key: Key): Option<Badge> {
    var p := PassFor(b, fw, scope, key);
    if p.None? then None else BadgeIn(b, p.value, fw)
  }

  /** An entry's claim to a badge. */
  datatype Claim = Claim(fw: string, scope: Family, key: Key)

  function ExpectedFor(b: Board, c: Claim): Option<Badge> {
    Expected(b, c.fw, c.scope, c.key)
  }

  function SlotOf(c: Claim): Slot {
    Slot(Slug(c.fw), c.scope, c.key)
  }

  predicate Publishable(p: Pass) {
    p.league in LEAGUES && (p.view.language.Some? ==> p.view.language.value != "")
  }

  // ---- Facts about one field -------------------------------------------------------------

  lemma FieldRows(b: Board, p: Pass)
    ensures DistinctNames(FieldOf(b, p)) && Sorted(FieldOf(b, p))
    ensures forall r :: r in FieldOf(b, p) <==>
      && r.fw in NamesOf(b, p.scope) && Listed(b, p.league, p.scope, r.fw) && Shown(b, p.view, r.fw)
      && r.score == ScoreOf(b, p.league, p.scope, r.fw)
  {
    var names := NamesOf(b, p.scope);
    var rows := RowsOf(b, p.league, p.scope, p.view, names);
    NamesDistinct(Columns(b, InFamily(b.profiles, p.scope)));
    RowsDistinct(b, p.league, p.scope, p.view, names);
    SortSorts(rows);
    forall r ensures r in FieldOf(b, p) <==>
      && r.fw in names && Listed(b, p.league, p.scope, r.fw) && Shown(b, p.view, r.fw)
      && r.score == ScoreOf(b, p.league, p.scope, r.fw)
    {
      RowsNamed(b, p.league, p.scope, p.view, names, r);
    }
    SortedDistinct(b, p);
  }

  lemma SortedDistinct(b: Board, p: Pass)
    requires Sorted(FieldOf(b, p))
    requires forall r :: r in FieldOf(b, p) ==> r.score == ScoreOf(b, p.league, p.scope, r.fw)
    ensures DistinctNames(FieldOf(b, p))
  {
    var rows := FieldOf(b, p);
    forall i, j | 0 <= i < j < |rows| ensures rows[i].fw != rows[j].fw {
      SortedHasNoRepeats(rows, i, j);
      assert rows[i] in rows && rows[j] in rows;
    }
  }

  lemma {:induction false} PositionFound(rows: seq<Row>, i: nat)
    requires DistinctNames(rows) && i < |rows|
    ensures PositionOf(rows, rows[i].fw) == Some(i)
  {
    if i < |rows| - 1 {
      PositionFound(rows[..|rows| - 1], i);
    }
  }

  lemma {:induction false} PositionIsThere(rows: seq<Row>, fw: string)
    requires PositionOf(rows, fw).Some?
    ensures PositionOf(rows, fw).value < |rows| && rows[PositionOf(rows, fw).value].fw == fw
  {
    if rows[|rows| - 1].fw != fw {
      PositionIsThere(rows[..|rows| - 1], fw);
    }
  }

  lemma LeaguesApart(b: Board, league: League, fw: string)
    requires league in LEAGUES && InLeague(b, league, fw)
    ensures LeagueOf(MetaOf(b, fw).tier) == Some(league)
  {
  }

  lemma LeagueListed(tier: Tier)
    ensures LeagueOf(tier).Some? ==> LeagueOf(tier).value in LEAGUES && tier in LeagueOf(tier).value
  {
  }

  lemma RowIsListed(b: Board, p: Pass, i: nat)
    requires i < |FieldOf(b, p)|
    ensures var fw := FieldOf(b, p)[i].fw;
      && InLeague(b, p.league, fw) && Shown(b, p.view, fw)
      && PositionOf(FieldOf(b, p), fw) == Some(i)
  {
    FieldRows(b, p);
    PositionFound(FieldOf(b, p), i);
    hide FieldOf, NamesOf, ScoreOf, PositionOf, Shown, InLeague;
    assert FieldOf(b, p)[i] in FieldOf(b, p);
  }

  lemma PassOfRow(b: Board, p: Pass, fw: string)
    requires Publishable(p) && InLeague(b, p.league, fw) && Shown(b, p.view, fw)
    ensures p.view.showTuned || !IsTuned(b, fw)
    ensures PassFor(b, fw, p.scope, KeyFor(p.view.language, p.view.showTuned)) == Some(p)
    ensures IsTuned(b, fw) ==> PassFor(b, fw, p.scope, KeyFor(p.view.language, false)) == Some(p)
  {
    LeaguesApart(b, p.league, fw);
  }

  predicate Decides(b: Board, p: Pass, c: Claim, badge: Option<Badge>) {
    PassFor(b, c.fw, c.scope, c.key) == Some(p) && ExpectedFor(b, c) == badge
  }

  /** A row of a published field claims its key through this pass and no other; so does a
      tuned entry its alias. */
  lemma RowBelongsToPass(b: Board, p: Pass, i: nat)
    requires Publishable(p) && i < |FieldOf(b, p)|
    ensures var fw := FieldOf(b, p)[i].fw;
      && (p.view.showTuned || !IsTuned(b, fw))
      && Decides(b, p, OwnClaim(p, fw), BadgeAt(p, FieldOf(b, p), i))
      && (IsTuned(b, fw) ==> Decides(b, p, AliasClaim(p, fw), BadgeAt(p, FieldOf(b, p), i)))
  {
    RowIsListed(b, p, i);
    hide FieldOf, BadgeAt, PositionOf, Shown, InLeague, Publishable, PassFor, IsTuned, KeyFor;
    PassOfRow(b, p, FieldOf(b, p)[i].fw);
  }

  // ---- Publishing ---------------------------------------------------------------------------

  /** What has been claimed so far: badges that are due, through passes already made. */
  ghost predicate Due(b: Board, claims: set<Claim>, done: set<Pass>) {
    forall c :: c in claims ==>
      ExpectedFor(b, c).Some? && PassFor(b, c.fw, c.scope, c.key).value in done
  }

  /** A slot is filled exactly if somebody claimed it, with the badge one of them is due. */
  ghost predicate Files(b: Board, index: Index, claims: set<Claim>) {
    && (forall c :: c in claims ==> SlotOf(c) in index)
    && (forall s :: s in index ==> FiledBy(b, index, claims, s))
  }

  ghost predicate FiledBy(b: Board, index: Index, claims: set<Claim>, s: Slot)
    requires s in index
  {
    exists c :: c in claims && SlotOf(c) == s && ExpectedFor(b, c) == Some(index[s])
  }

  function OwnClaim(p: Pass, fw: string): Claim {
    Claim(fw, p.scope, KeyFor(p.view.language, p.view.showTuned))
  }

  /** A tuned entry's place also serves the key of the field it is absent from. */
  function AliasClaim(p: Pass, fw: string): Claim {
    Claim(fw, p.scope, KeyFor(p.view.language, false))
  }

  ghost predicate ClaimsRow(b: Board, claims: set<Claim>, p: Pass, fw: string) {
    OwnClaim(p, fw) in claims && (IsTuned(b, fw) ==> AliasClaim(p, fw) in claims)
  }

  ghost predicate RowCovered(b: Board, claims: set<Claim>, p: Pass, rows: seq<Row>, i: nat)
    requires i < |rows|
  {
    BadgeAt(p, rows, i).Some? ==> ClaimsRow(b, claims, p, rows[i].fw)
  }

  /** Everybody this pass gives a badge has claimed it. */
  ghost predicate Covers(b: Board, claims: set<Claim>, p: Pass) {
    forall i: nat :: i < |FieldOf(b, p)| ==> RowCovered(b, claims, p, FieldOf(b, p), i)
  }

  lemma EmitFiles(b: Board, index: Index, claims: set<Claim>, c: Claim, badge: Badge)
    requires Files(b, index, claims) && ExpectedFor(b, c) == Some(badge)
    ensures Files(b, index[SlotOf(c) := badge], claims + {c})
  {
    hide Expected, Slug;
    var later := index[SlotOf(c) := badge];
    forall s | s in later ensures FiledBy(b, later, claims + {c}, s) {
      if s == SlotOf(c) {
        assert c in claims + {c};
      } else {
        var d :| d in claims && SlotOf(d) == s && ExpectedFor(b, d) == Some(index[s]);
        assert d in claims + {c};
      }
    }
  }

  lemma EmitDue(b: Board, claims: set<Claim>, done: set<Pass>, p: Pass, c: Claim, badge: Badge)
    requires Due(b, claims, done) && Decides(b, p, c, Some(badge)) && p in done
    ensures Due(b, claims + {c}, done)
  {
    hide PassFor, Expected;
  }

  lemma DueLater(b: Board, claims: set<Claim>, done: set<Pass>, more: set<Pass>)
    requires Due(b, claims, done)
    ensures Due(b, claims, done + more)
  {
  }

  /** Since `before`, only rows ahead of row i have claimed anything. */
  ghost predicate Unclaimed(before: set<Claim>, claims: set<Claim>, rows: seq<Row>, i: nat) {
    forall c :: c in claims ==> c in before || IsAhead(rows, i, c.fw)
  }

  ghost predicate IsAhead(rows: seq<Row>, i: nat, fw: string) {
    exists k: nat :: k < i && k < |rows| && rows[k].fw == fw
  }

  lemma RowIsUnclaimed(b: Board, before: set<Claim>, claims: set<Claim>, done: set<Pass>, p: Pass, rows: seq<Row>,
      i: nat, c: Claim, badge: Badge)
    requires Due(b, before, done) && p !in done && Unclaimed(before, claims, rows, i)
    requires DistinctNames(rows) && i < |rows| && c.fw == rows[i].fw && Decides(b, p, c, Some(badge))
    ensures c !in claims
  {
    hide PassFor, Expected;
  }

  /** What PublishRow needs to know about the row it files. */
  ghost predicate Ready(b: Board, p: Pass, claims: set<Claim>, fw: string, badge: Option<Badge>) {
    && (p.view.showTuned || !IsTuned(b, fw))
    && Decides(b, p, OwnClaim(p, fw), badge) && OwnClaim(p, fw) !in claims
    && (IsTuned(b, fw) ==> Decides(b, p, AliasClaim(p, fw), badge) && AliasClaim(p, fw) !in claims)
  }

  /** One row of a ranking: a tuned entry's badge is filed under the alias as well. */
  method PublishRow(b: Board, index: Index, p: Pass, q: Placed, ghost claims: set<Claim>, ghost done: set<Pass>)
    returns (later: Index, written: nat, ghost after: set<Claim>)
    requires Due(b, claims, done) && Files(b, index, claims) && p in done
    requires Ready(b, p, claims, q.fw, Some(Badge(q.rank, q.total, q.score, p)))
    ensures Due(b, after, done) && Files(b, later, after)
    ensures ClaimsRow(b, after, p, q.fw)
    ensures claims <= after && |after| == |claims| + written && forall c :: c in after - claims ==> c.fw == q.fw
  {
    hide PassFor, Expected, Slug, IsTuned, Files, Due;
    later, written, after := index, 0, claims;
    var badge := Badge(q.rank, q.total, q.score, p);
    var own, alias := OwnClaim(p, q.fw), AliasClaim(p, q.fw);
    if p.view.showTuned && IsTuned(b, q.fw) {
      EmitFiles(b, later, after, alias, badge);
      EmitDue(b, after, done, p, alias, badge);
      later, written, after := later[SlotOf(alias) := badge], 1, after + {alias};
    }
    EmitFiles(b, later, after, own, badge);
    EmitDue(b, after, done, p, own, badge);
    later, written, after := later[SlotOf(own) := badge], written + 1, after + {own};
  }

  /** The first i rows have claimed what they are due, and no other row anything. */
  ghost predicate Progress(b: Board, before: set<Claim>, claims: set<Claim>, p: Pass, rows: seq<Row>, i: nat) {
    && i <= |rows| && Unclaimed(before, claims, rows, i)
    && forall k: nat :: k < i ==> RowCovered(b, claims, p, rows, k)
  }

  lemma ProgressRow(b: Board, before: set<Claim>, claims: set<Claim>, after: set<Claim>, p: Pass, rows: seq<Row>,
      i: nat)
    requires Progress(b, before, claims, p, rows, i) && i < |rows|
    requires claims <= after && forall c :: c in after - claims ==> c.fw == rows[i].fw
    requires BadgeAt(p, rows, i).Some? ==> ClaimsRow(b, after, p, rows[i].fw)
    ensures Progress(b, before, after, p, rows, i + 1)
  {
    hide IsTuned, OwnClaim, AliasClaim, BadgeAt;
    forall c | c in after && c !in before ensures IsAhead(rows, i + 1, c.fw) {
      if c in claims {
        var k: nat :| k < i && k < |rows| && rows[k].fw == c.fw;
        assert k < i + 1;
      } else {
        assert c in after - claims && rows[i].fw == c.fw;
      }
    }
    forall k: nat | k < i + 1 ensures RowCovered(b, after, p, rows, k) {
      if k < i {
        assert RowCovered(b, claims, p, rows, k);
      }
    }
  }

  /** `publish`: one ranking into the index.  Nothing it writes was written before. */
  method Publish(b: Board, index: Index, p: Pass, rows: seq<Row>, ghost claims: set<Claim>, ghost done: set<Pass>)
    returns (later: Index, written: nat, ghost after: set<Claim>)
    requires Publishable(p) && p !in done && rows == FieldOf(b, p)
    requires Due(b, claims, done) && Files(b, index, claims)
    ensures Due(b, after, done + {p}) && Files(b, later, after)
    ensures Covers(b, after, p)
    ensures claims <= after && |after| == |claims| + written
  {
    hide PassFor, Expected, FieldOf, Slug, IsTuned, Files, Due, Ready, RankAt;
    later, written, after := index, 0, claims;
    DueLater(b, claims, done, {p});
    if |rows| < BADGE_MIN_FIELD {
      return;
    }
    var placed := Ranked(rows);
    for i := 0 to |rows|
      invariant Due(b, after, done + {p}) && Files(b, later, after)
      invariant claims <= after && |after| == |claims| + written
      invariant Progress(b, claims, after, p, rows, i)
    {
      hide Progress, ClaimsRow;
      var q := placed[i];
      ghost var so := after;
      if q.score > 0.0 {
        RowIsReady(b, claims, so, done, p, i);
        var n: nat;
        later, n, after := PublishRow(b, later, p, q, so, done + {p});
        written := written + n;
      }
      ProgressRow(b, claims, so, after, p, rows, i);
    }
  }

  lemma RowIsReady(b: Board, before: set<Claim>, claims: set<Claim>, done: set<Pass>, p: Pass, i: nat)
    requires Publishable(p) && p !in done && Due(b, before, done)
    requires i < |FieldOf(b, p)| && Progress(b, before, claims, p, FieldOf(b, p), i)
    requires BadgeAt(p, FieldOf(b, p), i).Some?
    ensures Ready(b, p, claims, FieldOf(b, p)[i].fw, BadgeAt(p, FieldOf(b, p), i))
  {
    hide FieldOf, PassFor, Expected, IsTuned, Due, Unclaimed, Decides, KeyFor, BadgeAt, RowCovered;
    var rows := FieldOf(b, p);
    var fw, badge := rows[i].fw, BadgeAt(p, rows, i).value;
    assert DistinctNames(rows) by { FieldRows(b, p); }
    RowBelongsToPass(b, p, i);
    RowIsUnclaimed(b, before, claims, done, p, rows, i, OwnClaim(p, fw), badge);
    if IsTuned(b, fw) {
      RowIsUnclaimed(b, before, claims, done, p, rows, i, AliasClaim(p, fw), badge);
    }
  }

  // ---- The nested loops ---------------------------------------------------------------------

  function ScopeTurn(scope: Family): nat {
    match scope
    case H1 => 0
    case H2 => 1
    case H3 => 2
    case Gw => 3
    case Grpc => 4
    case Ws => 5
  }

  function LeagueTurn(league: League): nat {
    if Flagship in league then 0 else if Engine in league then 1 else if Experimental in league then 2 else 3
  }

  /** When the loops come to a pass. */
  function Turn(p: Pass): nat {
    8 * ScopeTurn(p.scope) + 2 * LeagueTurn(p.league) + if p.view.showTuned then 1 else 0
  }

  lemma TurnIsUnique(p: Pass, q: Pass)
    requires p.league in LEAGUES && q.league in LEAGUES && Turn(p) == Turn(q)
    ensures p.scope == q.scope && p.league == q.league && p.view.showTuned == q.view.showTuned
  {
    assert ScopeTurn(p.scope) == ScopeTurn(q.scope) && LeagueTurn(p.league) == LeagueTurn(q.league);
  }

  /** Every pass before this turn has been made, and no other. */
  ghost predicate Reached(b: Board, claims: set<Claim>, done: set<Pass>, turn: nat) {
    && (forall p :: p in done ==> Turn(p) < turn)
    && (forall p :: Publishable(p) && Turn(p) < turn ==> Covers(b, claims, p))
  }

  lemma CoversLater(b: Board, claims: set<Claim>, after: set<Claim>, p: Pass)
    requires Covers(b, claims, p) && claims <= after
    ensures Covers(b, after, p)
  {
    hide FieldOf, BadgeAt, IsTuned, OwnClaim, AliasClaim;
    forall i: nat | i < |FieldOf(b, p)| ensures RowCovered(b, after, p, FieldOf(b, p), i) {
      assert RowCovered(b, claims, p, FieldOf(b, p), i);
    }
  }

  function LanguagesOf(b: Board, rows: seq<Row>): set<string> {
    (set r | r in rows && LanguageOf(b, r.fw).Some? :: LanguageOf(b, r.fw).value)
  }

  function Narrowed(p: Pass, language: string): Pass {
    Pass(p.scope, p.league, View(p.view.showTuned, Some(language)))
  }

  /** A language with a field of its own is found among the rows of the whole field. */
  lemma LanguageIsFound(b: Board, p: Pass, language: string)
    requires language != "" && p.view.language == None && FieldOf(b, Narrowed(p, language)) != []
    ensures language in LanguagesOf(b, FieldOf(b, p))
  {
    var q := Narrowed(p, language);
    FieldRows(b, p);
    FieldRows(b, q);
    hide FieldOf, NamesOf, ScoreOf, Listed;
    var r := FieldOf(b, q)[0];
    assert r in FieldOf(b, q);
    assert r in FieldOf(b, p);
    assert LanguageOf(b, r.fw) == Some(language);
  }

  /** Among the passes of one turn, those made already. */
  ghost predicate Within(b: Board, claims: set<Claim>, done: set<Pass>, p: Pass, turn: nat, languages: set<string>) {
    && (forall q :: q in done ==> Turn(q) < turn || q == p || exists l :: l in languages && q == Narrowed(p, l))
    && (forall q :: Publishable(q) && Turn(q) < turn ==> Covers(b, claims, q))
    && Covers(b, claims, p)
    && (forall l :: l in languages ==> Covers(b, claims, Narrowed(p, l)))
  }

  lemma NarrowedIsNew(b: Board, claims: set<Claim>, done: set<Pass>, p: Pass, turn: nat, languages: set<string>,
      language: string)
    requires Within(b, claims, done, p, turn, languages) && language !in languages
    requires Turn(p) == turn && p.view.language == None
    ensures Narrowed(p, language) !in done
  {
  }

  lemma WithinNext(b: Board, claims: set<Claim>, after: set<Claim>, done: set<Pass>, p: Pass, turn: nat,
      languages: set<string>, language: string)
    requires Within(b, claims, done, p, turn, languages) && claims <= after
    requires Covers(b, after, Narrowed(p, language))
    ensures Within(b, after, done + {Narrowed(p, language)}, p, turn, languages + {language})
  {
    hide Turn, Covers, Publishable;
    forall q | Publishable(q) && Turn(q) < turn ensures Covers(b, after, q) {
      CoversLater(b, claims, after, q);
    }
    CoversLater(b, claims, after, p);
    forall l | l in languages + {language} ensures Covers(b, after, Narrowed(p, l)) {
      if l in languages { CoversLater(b, claims, after, Narrowed(p, l)); }
    }
    forall q | q in done + {Narrowed(p, language)}
      ensures Turn(q) < turn || q == p || exists l :: l in languages + {language} && q == Narrowed(p, l)
    {
      if q == Narrowed(p, language) {
        assert language in languages + {language};
      } else if !(Turn(q) < turn || q == p) {
        var l :| l in languages && q == Narrowed(p, l);
        assert l in languages + {language};
      }
    }
  }

  /** With its languages done too, a turn is over. */
  lemma TurnIsOver(b: Board, claims: set<Claim>, done: set<Pass>, p: Pass, turn: nat)
    requires Within(b, claims, done, p, turn, LanguagesOf(b, FieldOf(b, p)))
    requires p.league in LEAGUES && Turn(p) == turn && p.view.language == None
    ensures Reached(b, claims, done, turn + 1)
  {
    hide Covers, FieldOf, LanguagesOf;
    forall q | Publishable(q) && Turn(q) < turn + 1 ensures Covers(b, claims, q) {
      if Turn(q) == turn {
        TurnIsUnique(p, q);
        if q.view.language.Some? && q.view.language.value !in LanguagesOf(b, FieldOf(b, p)) {
          EmptyIsCovered(b, claims, p, q.view.language.value);
          assert q == Narrowed(p, q.view.language.value);
        } else if q.view.language.Some? {
          assert q == Narrowed(p, q.view.language.value);
        } else {
          assert q == p;
        }
      }
    }
  }

  lemma EmptyIsCovered(b: Board, claims: set<Claim>, p: Pass, language: string)
    requires language != "" && p.view.language == None && language !in LanguagesOf(b, FieldOf(b, p))
    ensures Covers(b, claims, Narrowed(p, language))
  {
    hide FieldOf, LanguagesOf;
    if FieldOf(b, Narrowed(p, language)) != [] {
      LanguageIsFound(b, p, language);
    }
  }

  /** One turn: the whole field, then one field for each language found in it. */
  method PublishField(b: Board, index: Index, p: Pass, ghost claims: set<Claim>, ghost done: set<Pass>)
    returns (later: Index, written: nat, ghost after: set<Claim>, ghost made: set<Pass>)
    requires p.league in LEAGUES && p.view.language == None
    requires Due(b, claims, done) && Files(b, index, claims) && Reached(b, claims, done, Turn(p))
    ensures Due(b, after, made) && Files(b, later, after) && Reached(b, after, made, Turn(p) + 1)
    ensures claims <= after && |after| == |claims| + written
  {
    hide FieldOf, Files, Due, Covers, LanguagesOf, Turn, BadgeComposite;
    var rows := ComputeComposite(b, p.league, p.scope, p.view);
    assert rows == FieldOf(b, p) by { FieldIsComposite(b, p); }
    later, written, after := Publish(b, index, p, rows, claims, done);
    made := done + {p};
    var languages := LanguagesOf(b, rows);
    var left := languages;
    assert Within(b, after, made, p, Turn(p), languages - left) by {
      forall q | Publishable(q) && Turn(q) < Turn(p) ensures Covers(b, after, q) {
        CoversLater(b, claims, after, q);
      }
    }
    while left != {}
      invariant left <= languages
      invariant Due(b, after, made) && Files(b, later, after)
      invariant Within(b, after, made, p, Turn(p), languages - left)
      invariant claims <= after && |after| == |claims| + written
    {
      hide Within;
      LeastExists(left, "");
      var language :| IsLeast(language, left, "");
      var q := Narrowed(p, language);
      assert language != "" by { LanguagesAreNamed(b, rows, language); }
      NarrowedIsNew(b, after, made, p, Turn(p), languages - left, language);
      var sub := ComputeComposite(b, q.league, q.scope, q.view);
      assert sub == FieldOf(b, q) by { FieldIsComposite(b, q); }
      ghost var before := after;
      var n: nat;
      later, n, after := Publish(b, later, q, sub, after, made);
      written := written + n;
      WithinNext(b, before, after, made, p, Turn(p), languages - left, language);
      made := made + {q};
      assert languages - left + {language} == languages - (left - {language});
      left := left - {language};
    }
    assert languages - left == languages;
    TurnIsOver(b, after, made, p, Turn(p));
  }

  lemma FieldIsComposite(b: Board, p: Pass)
    ensures FieldOf(b, p) == BadgeComposite(b, p.league, p.scope, p.view)
  {
  }

  lemma LanguagesAreNamed(b: Board, rows: seq<Row>, language: string)
    requires language in LanguagesOf(b, rows)
    ensures language != ""
  {
  }

  ghost predicate Covered(claims: set<Claim>, slots: set<Slot>) {
    && (forall c :: c in claims ==> SlotOf(c) in slots)
    && (forall s :: s in slots ==> Claimed(claims, s))
  }

  ghost predicate Claimed(claims: set<Claim>, s: Slot) {
    exists c :: c in claims && SlotOf(c) == s
  }

  ghost predicate AllApart(claims: set<Claim>) {
    forall c, d :: c in claims && d in claims && SlotOf(c) == SlotOf(d) ==> c == d
  }

  lemma ClaimedWithout(claims: set<Claim>, c: Claim, s: Slot)
    requires Claimed(claims, s) && (SlotOf(c) == s ==> Claimed(claims - {c}, s))
    ensures Claimed(claims - {c}, s)
  {
    hide SlotOf;
    if SlotOf(c) != s {
      var d :| d in claims && SlotOf(d) == s;
      assert d in claims - {c};
    }
  }

  /** Slots are as many as the claims that fill them exactly if no two claims share one. */
  lemma {:induction false} ImageSize(claims: set<Claim>, slots: set<Slot>)
    requires Covered(claims, slots)
    ensures |slots| <= |claims| && (|slots| == |claims| <==> AllApart(claims))
  {
    hide SlotOf;
    if claims == {} {
      assert slots == {};
    } else {
      var c :| c in claims;
      var rest, others := claims - {c}, slots - {SlotOf(c)};
      var shared := Claimed(rest, SlotOf(c));
      forall s | s in slots && (shared || s != SlotOf(c)) ensures Claimed(rest, s) {
        ClaimedWithout(claims, c, s);
      }
      ImageSize(rest, if shared then slots else others);
      if shared {
        SharedIsNotApart(claims, c);
      } else {
        ApartWith(claims, c);
      }
    }
  }

  lemma SharedIsNotApart(claims: set<Claim>, c: Claim)
    requires c in claims && Claimed(claims - {c}, SlotOf(c))
    ensures !AllApart(claims)
  {
    hide SlotOf;
    var d :| d in claims - {c} && SlotOf(d) == SlotOf(c);
    assert d in claims && d != c;
  }

  lemma ApartWith(claims: set<Claim>, c: Claim)
    requires c in claims && !Claimed(claims - {c}, SlotOf(c))
    ensures AllApart(claims) <==> AllApart(claims - {c})
  {
    hide SlotOf;
    forall d | d in claims - {c} ensures SlotOf(d) != SlotOf(c) {}
  }

  /** Somebody is due exactly this badge in slot s. */
  ghost predicate DueIn(b: Board, s: Slot, badge: Badge) {
    exists c :: SlotOf(c) == s && ExpectedFor(b, c) == Some(badge)
  }

  /** Every badge that is due has its slot filled, and every slot holds a badge that is
      due there, whoever shares a slug with whom. */
  ghost predicate Published(b: Board, index: Index) {
    && (forall c :: ExpectedFor(b, c).Some? ==> SlotOf(c) in index)
    && (forall s :: s in index ==> DueIn(b, s, index[s]))
  }

  ghost predicate AllClaims(b: Board, claims: set<Claim>) {
    forall c :: c in claims <==> ExpectedFor(b, c).Some?
  }

  ghost predicate Underway(b: Board, index: Index, claims: set<Claim>, done: set<Pass>, turn: nat) {
    Due(b, claims, done) && Files(b, index, claims) && Reached(b, claims, done, turn)
  }

  /** `write_badges`: every family, league and tuned setting in turn. */
  method WriteBadges(b: Board) returns (index: Index, written: nat, ghost claims: set<Claim>)
    ensures Published(b, index) && |index| <= written
    ensures AllClaims(b, claims) && written == |claims|
  {
    hide Due, Files, Covers;
    index, written, claims := map[], 0, {};
    ghost var done: set<Pass> := {};
    NothingYet(b);
    for f := 0 to |FAMILIES|
      invariant Underway(b, index, claims, done, 8 * f) && written == |claims|
    {
      for l := 0 to |LEAGUES|
        invariant Underway(b, index, claims, done, 8 * f + 2 * l) && written == |claims|
      {
        hide Reached;
        var n: nat;
        var untuned := Pass(FAMILIES[f], LEAGUES[l], View(false, None));
        var tuned := Pass(FAMILIES[f], LEAGUES[l], View(true, None));
        TurnOf(f, l);
        index, n, claims, done := PublishField(b, index, untuned, claims, done);
        written := written + n;
        index, n, claims, done := PublishField(b, index, tuned, claims, done);
        written := written + n;
      }
    }
    AllIsClaimed(b, claims, done);
    FiledIsPublished(b, index, claims);
  }

  lemma FiledIsPublished(b: Board, index: Index, claims: set<Claim>)
    requires Files(b, index, claims) && AllClaims(b, claims)
    ensures Published(b, index) && |index| <= |claims|
  {
    hide ExpectedFor, Slug;
    forall s | s in index ensures DueIn(b, s, index[s]) && Claimed(claims, s) {
      assert FiledBy(b, index, claims, s);
    }
    ImageSize(claims, index.Keys);
    assert |index| == |index.Keys|;
  }

  lemma NothingYet(b: Board)
    ensures Underway(b, map[], {}, {}, 0)
  {
  }

  lemma TurnOf(f: nat, l: nat)
    requires f < |FAMILIES| && l < |LEAGUES|
    ensures ScopeTurn(FAMILIES[f]) == f && LeagueTurn(LEAGUES[l]) == l
  {
    assert l == 0 || l == 1 || l == 2 || l == 3;
    assert f == 0 || f == 1 || f == 2 || f == 3 || f == 4 || f == 5;
  }

  lemma AllIsClaimed(b: Board, claims: set<Claim>, done: set<Pass>)
    requires Due(b, claims, done) && Reached(b, claims, done, 48)
    ensures AllClaims(b, claims)
  {
    hide Covers, Expected;
    forall c: Claim | ExpectedFor(b, c).Some? ensures c in claims {
      var p := PassOfClaim(b, c);
      CoveredClaim(b, claims, c, p);
    }
  }

  lemma PassOfClaim(b: Board, c: Claim) returns (p: Pass)
    requires ExpectedFor(b, c).Some?
    ensures PassFor(b, c.fw, c.scope, c.key) == Some(p) && BadgeIn(b, p, c.fw).Some?
    ensures Publishable(p) && Turn(p) < 48 && p.scope == c.scope
    ensures c == OwnClaim(p, c.fw) || (IsTuned(b, c.fw) && c == AliasClaim(p, c.fw))
  {
    hide BadgeIn;
    p := PassFor(b, c.fw, c.scope, c.key).value;
    LeagueListed(MetaOf(b, c.fw).tier);
  }

  lemma CoveredClaim(b: Board, claims: set<Claim>, c: Claim, p: Pass)
    requires Covers(b, claims, p) && BadgeIn(b, p, c.fw).Some?
    requires c == OwnClaim(p, c.fw) || (IsTuned(b, c.fw) && c == AliasClaim(p, c.fw))
    ensures c in claims
  {
    hide FieldOf, BadgeAt, IsTuned, KeyFor, PositionOf;
    var rows := FieldOf(b, p);
    PositionIsThere(rows, c.fw);
    assert RowCovered(b, claims, p, rows, PositionOf(rows, c.fw).value);
  }

  // ---- What the finished index promises --------------------------------------------------

  /** No two entries that appear in any field share a slug. */
  ghost predicate UniqueSlugs(b: Board) {
    forall x, y :: Appears(b, x) && Appears(b, y) && Slug(x) == Slug(y) ==> x == y
  }

  ghost predicate Appears(b: Board, fw: string) {
    exists p: Pass :: Publishable(p) && PositionOf(FieldOf(b, p), fw).Some?
  }

  lemma ClaimantAppears(b: Board, c: Claim)
    requires ExpectedFor(b, c).Some?
    ensures Appears(b, c.fw)
  {
    hide FieldOf, PassFor, PositionOf, BadgeAt, Publishable, Turn;
    var p := PassOfClaim(b, c);
  }

  /** With unique slugs an entry's slot holds its own badge, and nothing if it has none. */
  lemma SlotHoldsOwnBadge(b: Board, index: Index, c: Claim)
    requires Published(b, index) && UniqueSlugs(b) && Appears(b, c.fw)
    ensures ExpectedFor(b, c) == if SlotOf(c) in index then Some(index[SlotOf(c)]) else None
  {
    hide ExpectedFor, Appears, Slug;
    if SlotOf(c) in index {
      assert DueIn(b, SlotOf(c), index[SlotOf(c)]);
      var d :| SlotOf(d) == SlotOf(c) && ExpectedFor(b, d) == Some(index[SlotOf(c)]);
      ClaimantAppears(b, d);
      assert d == c;
    }
  }

  /** The league a tier competes in: flagship and emerging entries as one field, the other
      three each on its own, and an unknown tier in none. */
  function RivalsOf(tier: Tier): League {
    match tier
    case Flagship => {Flagship, Emerging}
    case Emerging => {Flagship, Emerging}
    case Engine => {Engine}
    case Experimental => {Experimental}
    case Infrastructure => {Infrastructure}
    case Unlisted => {}
  }

  /** An entry's badge as a maintainer reads it: its place among at least two in the league of
      its tier, with a positive score; tuned entries are counted if the key says so or the
      entry is tuned itself, and a language key narrows the field to the entry's own. */
  ghost predicate Places(b: Board, fw: string, scope: Family, key: Key, i: nat, badge: Badge) {
    var tier := TierOf(b, fw);
    var byLanguage := key in [ByLanguage, ByLanguageWithTuned];
    var tuned := key in [WithTuned, ByLanguageWithTuned] || (fw in b.meta && b.meta[fw].tuned);
    var view := View(tuned, if byLanguage && fw in b.languages then Some(b.languages[fw]) else None);
    var rows := BadgeComposite(b, RivalsOf(tier), scope, view);
    && tier != Unlisted && (byLanguage ==> fw in b.languages && b.languages[fw] != "")
    && 2 <= |rows| && i < |rows| && rows[i].fw == fw && rows[i].score > 0.0
    && badge == Badge(RankAt(rows, i), |rows|, rows[i].score, Pass(scope, RivalsOf(tier), view))
  }

  lemma PassOf(b: Board, fw: string, scope: Family, key: Key)
    ensures var tier := TierOf(b, fw);
      var byLanguage := key in [ByLanguage, ByLanguageWithTuned];
      var tuned := key in [WithTuned, ByLanguageWithTuned] || (fw in b.meta && b.meta[fw].tuned);
      PassFor(b, fw, scope, key) ==
      if tier == Unlisted || (byLanguage && !(fw in b.languages && b.languages[fw] != "")) then None
      else Some(Pass(scope, RivalsOf(tier), View(tuned, if byLanguage then Some(b.languages[fw]) else None)))
  {
  }

  /** The badge due is exactly that place. */
  lemma ExpectedIff(b: Board, fw: string, scope: Family, key: Key, badge: Badge)
    ensures Expected(b, fw, scope, key) == Some(badge) <==> exists i: nat :: Places(b, fw, scope, key, i, badge)
  {
    hide BadgeComposite, RankAt, PassFor, PositionOf, RivalsOf;
    PassOf(b, fw, scope, key);
    var p := PassFor(b, fw, scope, key);
    if p.Some? {
      var rows := FieldOf(b, p.value);
      assert DistinctNames(rows) by { FieldRows(b, p.value); }
      forall i: nat | i < |rows| && rows[i].fw == fw ensures PositionOf(rows, fw) == Some(i) {
        PositionFound(rows, i);
      }
      if PositionOf(rows, fw).Some? {
        PositionIsThere(rows, fw);
        var i := PositionOf(rows, fw).value;
        assert Expected(b, fw, scope, key) == Some(badge) ==> Places(b, fw, scope, key, i, badge);
      }
    }
  }

  /** With unique slugs the index holds, under an entry's slug, family and key, that place and
      nothing if there is none. */
  lemma IndexHoldsPlaces(b: Board, index: Index, fw: string, scope: Family, key: Key, badge: Badge)
    requires Published(b, index) && UniqueSlugs(b) && Appears(b, fw)
    ensures var slot := Slot(Slug(fw), scope, key);
      slot in index && index[slot] == badge <==> exists i: nat :: Places(b, fw, scope, key, i, badge)
  {
    hide Published, UniqueSlugs, Appears, Slug, Places, Expected;
    SlotHoldsOwnBadge(b, index, Claim(fw, scope, key));
    ExpectedIff(b, fw, scope, key, badge);
  }

  /** What the parity script compares: badge and board agree on row i of a field. */
  predicate Agrees(index: Index, p: Pass, rows: seq<Row>, i: nat)
    requires i < |rows|
  {
    var s := SlotOf(OwnClaim(p, rows[i].fw));
    if |rows| < 2 || rows[i].score <= 0.0 then s !in index
    else s in index && index[s].rank == RankAt(rows, i) && index[s].total == |rows| && index[s].score == rows[i].score
  }

  /** The first loop of the parity script finds nothing to report. */
  lemma BoardAndIndexAgree(b: Board, index: Index, p: Pass, i: nat)
    requires Published(b, index) && UniqueSlugs(b)
    requires Publishable(p) && i < |FieldOf(b, p)|
    ensures Agrees(index, p, FieldOf(b, p), i)
  {
    RowIsListed(b, p, i);
    RowBelongsToPass(b, p, i);
    hide FieldOf, Published, UniqueSlugs, PassFor, ExpectedFor, PositionOf, Slug, Publishable;
    var fw := FieldOf(b, p)[i].fw;
    assert Appears(b, fw);
    SlotHoldsOwnBadge(b, index, OwnClaim(p, fw));
  }

  /** Nor does the second: a tuned entry's plain badges are its with-tuned ones, link
      included, language by language. */
  lemma TunedDefaultIsAlias(b: Board, index: Index, fw: string, scope: Family, byLanguage: bool)
    requires Published(b, index) && UniqueSlugs(b) && Appears(b, fw) && IsTuned(b, fw)
    ensures var plain := Slot(Slug(fw), scope, if byLanguage then ByLanguage else Default);
      var tuned := Slot(Slug(fw), scope, if byLanguage then ByLanguageWithTuned else WithTuned);
      && (plain in index <==> tuned in index)
      && (plain in index ==> index[plain] == index[tuned])
  {
    hide Published, UniqueSlugs, Appears, Slug;
    SlotHoldsOwnBadge(b, index, Claim(fw, scope, if byLanguage then ByLanguage else Default));
    SlotHoldsOwnBadge(b, index, Claim(fw, scope, if byLanguage then ByLanguageWithTuned else WithTuned));
  }

  /** The number of documents written equals the number of index entries, so that no
      write replaced another, exactly when no two entries of one slug both have a badge
      under the same family and key. */
  lemma NothingOverwrittenIff(b: Board, index: Index, claims: set<Claim>)
    requires Published(b, index) && AllClaims(b, claims)
    ensures |index| == |claims| <==> forall c, d ::
      ExpectedFor(b, c).Some? && ExpectedFor(b, d).Some? && SlotOf(c) == SlotOf(d) ==> c == d
  {
    hide ExpectedFor, Slug;
    forall s | s in index.Keys ensures Claimed(claims, s) {
      assert DueIn(b, s, index[s]);
    }
    ImageSize(claims, index.Keys);
    assert |index| == |index.Keys|;
  }

  /** With unique slugs nothing is ever overwritten. */
  lemma UniqueSlugsOverwriteNothing(b: Board, index: Index, claims: set<Claim>)
    requires Published(b, index) && AllClaims(b, claims) && UniqueSlugs(b)
    ensures |index| == |claims|
  {
    hide ExpectedFor, Slug, Appears, Published;
    forall c, d | ExpectedFor(b, c).Some? && ExpectedFor(b, d).Some? && SlotOf(c) == SlotOf(d) ensures c == d {
      ClaimantAppears(b, c);
      ClaimantAppears(b, d);
    }
    NothingOverwrittenIff(b, index, claims);
  }

  /** The entry's row is within the tie width of the first row of its rank; no filter
      worsens a rank exactly if it is (Ranking.RankNeverWorsensIff). */
  predicate NearTop(b: Board, p: Pass, fw: string) {
    var rows := FieldOf(b, p);
    var i := PositionOf(rows, fw);
    i.Some? && i.value < |rows| && NearItsFirst(rows, i.value)
  }

  /** Every badge of an entry agrees with its place in the whole league: the same score,
      no more entries, and no worse a rank if the place is within the tie width of the
      first one it shares its rank with. */
  lemma BadgesAgreeWithTheWholeField(b: Board, fw: string, scope: Family, key: Key)
    requires Expected(b, fw, scope, key).Some?
    ensures var mine, whole := Expected(b, fw, scope, key).value, Expected(b, fw, scope, WithTuned);
      && whole.Some? && whole.value.score == mine.score && mine.total <= whole.value.total
      && (NearTop(b, whole.value.link, fw) ==> mine.rank <= whole.value.rank)
  {
    var p, q := PassFor(b, fw, scope, key).value, PassFor(b, fw, scope, WithTuned).value;
    NarrowFieldAgrees(b, p, q, fw);
  }

  /** Where a row of a narrower field sits in the whole one. */
  lemma SameRow(b: Board, p: Pass, q: Pass, fw: string) returns (i: nat, j: nat)
    requires q == Pass(p.scope, p.league, EVERYTHING) && PositionOf(FieldOf(b, p), fw).Some?
    ensures var rows, all, shown := FieldOf(b, p), FieldOf(b, q), ShownNames(b, p.scope, p.view);
      && rows == Keep(all, shown) && Sorted(all) && DistinctNames(all)
      && j < |rows| && i < |all| && all[i] == rows[j] && |rows| <= |all|
      && PositionOf(rows, fw) == Some(j) && PositionOf(all, fw) == Some(i)
  {
    hide BadgeComposite, ScoreOf, NamesOf, ShownNames;
    var all, rows, shown := FieldOf(b, q), FieldOf(b, p), ShownNames(b, p.scope, p.view);
    FiltersNeverRescore(b, p.league, p.scope, p.view);
    assert Sorted(all) && DistinctNames(all) by { FieldRows(b, q); }
    hide FieldOf, Sorted, DistinctNames, Keep;
    PositionIsThere(rows, fw);
    j := PositionOf(rows, fw).value;
    KeepMembers(all, shown, rows[j]);
    i :| 0 <= i < |all| && all[i] == rows[j];
    PositionFound(all, i);
    var at := KeepPicks(all, shown);
    PicksShorter(|all|, at);
  }

  lemma NarrowFieldAgrees(b: Board, p: Pass, q: Pass, fw: string)
    requires q == Pass(p.scope, p.league, EVERYTHING) && BadgeIn(b, p, fw).Some?
    ensures var mine, whole := BadgeIn(b, p, fw).value, BadgeIn(b, q, fw);
      && whole.Some? && whole.value.score == mine.score && mine.total <= whole.value.total
      && whole.value.link == q && (NearTop(b, q, fw) ==> mine.rank <= whole.value.rank)
  {
    hide FieldOf, RankAt, NearItsFirst, Sorted, DistinctNames, Keep, PositionOf, ShownNames;
    var i, j := SameRow(b, p, q, fw);
    SortedDescends(FieldOf(b, q));
    NarrowingNeverHurts(FieldOf(b, q), ShownNames(b, p.scope, p.view), i, j);
  }

  lemma SortedDescends(rows: seq<Row>)
    requires Sorted(rows)
    ensures Descending(rows)
  {
  }
}
