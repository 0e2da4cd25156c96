/**
 The cache-aside item endpoints that many workers run against one Postgres
 table and one Redis.

 A request is a task that advances one await at a time, so a run of the system
 is a sequence of atomic actions chosen in any order: requests interleave
 freely, every call may be refused or lose its answer, and the clock moves
 whenever it likes.  `Apply` is the meaning of one action, `Run` a history of
 them, and `Backend` the same actions as updates of mutable state.
 */
module CacheAside {
  import opened Basics

  type ItemId = int
  type RequestId = nat

  /** How long Redis keeps a cached body, in milliseconds. */
  const CRUD_TTL_MS := 200

  /** The columns a cached body is printed from.  A body and its row determine each other. */
  datatype Row = Row(
    name: string, category: string, price: int, quantity: int,
    active: bool, tags: string, ratingScore: int, ratingCount: int)

  /** A request body; an absent field takes the endpoint's default. */
  datatype Body = Body(name: Option<string>, category: Option<string>, price: Option<int>, quantity: Option<int>)

  /** The aiohttp entry awaits its cache fill; the Bun entry does not. */
  datatype Server = Aiohttp | Bun

  /** What becomes of a call to Postgres or Redis: it works, it works but the
      caller sees an exception, or it never happens and the caller sees one. */
  datatype Call = Answered | Lost | Refused

  datatype Entry = Entry(row: Row, setAt: nat)

  datatype Task =
    | Reading(id: ItemId)
    | Missed(id: ItemId)
    | Filling(id: ItemId, row: Row)
    | Updating(id: ItemId, body: Body)
    | Invalidating(id: ItemId)

  datatype Reply = Hit(row: Row) | Miss(row: Row) | NotFound | Saved | Failed

  datatype State = State(
    now: nat,
    rows: map<ItemId, Row>,
    cache: map<ItemId, Entry>,
    tasks: map<RequestId, Task>,
    replies: map<RequestId, Reply>)

  datatype Action =
    | Tick(ms: nat)
    | StartGet(r: RequestId, id: ItemId)
    | CacheGet(r: RequestId, call: Call)
    | Select(r: RequestId, call: Call)
    | CacheSet(r: RequestId, call: Call)
    | StartPut(r: RequestId, id: ItemId, body: Body)
    | Update(r: RequestId, call: Call)
    | CacheDel(r: RequestId, call: Call)
    | Post(r: RequestId, id: ItemId, body: Body, call: Call)

  function Or<T>(o: Option<T>, default: T): T {
    if o.Some? then o.value else default
  }

  function UpdatedRow(row: Row, b: Body): Row {
    row.(name := Or(b.name, "Updated"), price := Or(b.price, 0), quantity := Or(b.quantity, 0))
  }

  function UpsertedRow(rows: map<ItemId, Row>, id: ItemId, b: Body): Row {
    var name, price, quantity := Or(b.name, "New Product"), Or(b.price, 0), Or(b.quantity, 0);
    if id in rows then rows[id].(name := name, price := price, quantity := quantity)
    else Row(name, Or(b.category, "test"), price, quantity, true, "[\"bench\"]", 0, 0)
  }

  predicate Live(s: State, id: ItemId) {
    id in s.cache && s.now < s.cache[id].setAt + CRUD_TTL_MS
  }

  predicate Known(s: State, r: RequestId) {
    r in s.tasks || r in s.replies
  }

  /** Which action may come next: a request takes its own steps in order. */
  predicate Enabled(s: State, a: Action) {
    match a
    case Tick(_) => true
    case StartGet(r, _) => !Known(s, r)
    case StartPut(r, _, _) => !Known(s, r)
    case Post(r, _, _, _) => !Known(s, r)
    case CacheGet(r, _) => r in s.tasks && s.tasks[r].Reading?
    case Select(r, _) => r in s.tasks && s.tasks[r].Missed?
    case CacheSet(r, _) => r in s.tasks && s.tasks[r].Filling?
    case Update(r, _) => r in s.tasks && s.tasks[r].Updating?
    case CacheDel(r, _) => r in s.tasks && s.tasks[r].Invalidating?
  }

  function Finish(s: State, r: RequestId, reply: Reply): State {
    s.(tasks := s.tasks - {r}, replies := s.replies[r := reply])
  }

  function Proceed(s: State, r: RequestId, task: Task): State {
    s.(tasks := s.tasks[r := task])
  }

  function ApplyCacheGet(server: Server, s: State, r: RequestId, call: Call): State
    requires Enabled(s, CacheGet(r, call))
  {
    var id := s.tasks[r].id;
    if call != Answered then
      if server.Aiohttp? then Proceed(s, r, Missed(id)) else Finish(s, r, Failed)
    else if Live(s, id) then Finish(s, r, Hit(s.cache[id].row))
    else Proceed(s, r, Missed(id))
  }

  function ApplySelect(server: Server, s: State, r: RequestId, call: Call): State
    requires Enabled(s, Select(r, call))
  {
    var id := s.tasks[r].id;
    if call != Answered then Finish(s, r, Failed)
    else if id !in s.rows then Finish(s, r, NotFound)
    else
      var filling := Proceed(s, r, Filling(id, s.rows[id]));
      if server.Aiohttp? then filling
      else filling.(replies := s.replies[r := Miss(s.rows[id])])
  }

  function ApplyCacheSet(server: Server, s: State, r: RequestId, call: Call): State
    requires Enabled(s, CacheSet(r, call))
  {
    var Filling(id, row) := s.tasks[r];
    var stored := if call == Refused then s else s.(cache := s.cache[id := Entry(row, s.now)]);
    if server.Aiohttp? then Finish(stored, r, Miss(row)) else stored.(tasks := s.tasks - {r})
  }

  function ApplyUpdate(s: State, r: RequestId, call: Call): State
    requires Enabled(s, Update(r, call))
  {
    var Updating(id, body) := s.tasks[r];
    var written :=
      if call == Refused || id !in s.rows then s
      else s.(rows := s.rows[id := UpdatedRow(s.rows[id], body)]);
    if call != Answered then Finish(written, r, Failed)
    else if id !in s.rows then Finish(written, r, NotFound)
    else Proceed(written, r, Invalidating(id))
  }

  function ApplyCacheDel(server: Server, s: State, r: RequestId, call: Call): State
    requires Enabled(s, CacheDel(r, call))
  {
    var deleted := if call == Refused then s else s.(cache := s.cache - {s.tasks[r].id});
    Finish(deleted, r, if call == Answered || server.Aiohttp? then Saved else Failed)
  }

  function ApplyPost(s: State, r: RequestId, id: ItemId, body: Body, call: Call): State {
    var written := if call == Refused then s else s.(rows := s.rows[id := UpsertedRow(s.rows, id, body)]);
    written.(replies := s.replies[r := if call == Answered then Saved else Failed])
  }

  /** The state after one atomic action. */
  function Apply(server: Server, s: State, a: Action): State
    requires Enabled(s, a)
  {
    match a
    case Tick(ms) => s.(now := s.now + ms)
    case StartGet(r, id) => Proceed(s, r, Reading(id))
    case StartPut(r, id, body) => Proceed(s, r, Updating(id, body))
    case Post(r, id, body, call) => ApplyPost(s, r, id, body, call)
    case CacheGet(r, call) => ApplyCacheGet(server, s, r, call)
    case Select(r, call) => ApplySelect(server, s, r, call)
    case CacheSet(r, call) => ApplyCacheSet(server, s, r, call)
    case Update(r, call) => ApplyUpdate(s, r, call)
    case CacheDel(r, call) => ApplyCacheDel(server, s, r, call)
  }

  /** The shared stores and the requests in flight, updated in place. */
  class Backend {
    const server: Server
    var now: nat
    var rows: map<ItemId, Row>
    var cache: map<ItemId, Entry>
    var tasks: map<RequestId, Task>
    var replies: map<RequestId, Reply>

    ghost function View(): State
      reads this
    {
      State(now, rows, cache, tasks, replies)
    }

    constructor (server: Server, rows: map<ItemId, Row>)
      ensures this.server == server && View() == State(0, rows, map[], map[], map[])
    {
      this.server := server;
      this.rows := rows;
      now, cache, tasks, replies := 0, map[], map[], map[];
    }

    method Advance(ms: nat)
      modifies this
      ensures View() == Apply(server, old(View()), Tick(ms))
    {
      now := now + ms;
    }

    method Accept(r: RequestId, id: ItemId, put: Option<Body>)
      requires !Known(View(), r)
      modifies this
      ensures put.None? ==> View() == Apply(server, old(View()), StartGet(r, id))
      ensures put.Some? ==> View() == Apply(server, old(View()), StartPut(r, id, put.value))
    {
      tasks := tasks[r := if put.None? then Reading(id) else Updating(id, put.value)];
    }

    /** GET, first await: a live entry answers the request. */
    method CacheGetStep(r: RequestId, call: Call)
      requires Enabled(View(), CacheGet(r, call))
      modifies this
      ensures View() == Apply(server, old(View()), CacheGet(r, call))
    {
      var id := tasks[r].id;
      if call != Answered && server.Bun? {
        tasks, replies := tasks - {r}, replies[r := Failed];
        return;
      }
      if call == Answered && id in cache && now < cache[id].setAt + CRUD_TTL_MS {
        tasks, replies := tasks - {r}, replies[r := Hit(cache[id].row)];
        return;
      }
      tasks := tasks[r := Missed(id)];
    }

    /** GET, second await: read the row. */
    method SelectStep(r: RequestId, call: Call)
      requires Enabled(View(), Select(r, call))
      modifies this
      ensures View() == Apply(server, old(View()), Select(r, call))
    {
      var id := tasks[r].id;
      if call != Answered {
        tasks, replies := tasks - {r}, replies[r := Failed];
      } else if id !in rows {
        tasks, replies := tasks - {r}, replies[r := NotFound];
      } else {
        tasks := tasks[r := Filling(id, rows[id])];
        if server.Bun? {
          replies := replies[r := Miss(rows[id])];
        }
      }
    }

    /** GET, last call: fill the cache, whose failure is swallowed. */
    method CacheSetStep(r: RequestId, call: Call)
      requires Enabled(View(), CacheSet(r, call))
      modifies this
      ensures View() == Apply(server, old(View()), CacheSet(r, call))
    {
      var Filling(id, row) := tasks[r];
      if call != Refused {
        cache := cache[id := Entry(row, now)];
      }
      tasks := tasks - {r};
      if server.Aiohttp? {
        replies := replies[r := Miss(row)];
      }
    }

    /** PUT, first await: the UPDATE statement. */
    method UpdateStep(r: RequestId, call: Call)
      requires Enabled(View(), Update(r, call))
      modifies this
      ensures View() == Apply(server, old(View()), Update(r, call))
    {
      var Updating(id, body) := tasks[r];
      var found := id in rows;
      if call != Refused && found {
        rows := rows[id := UpdatedRow(rows[id], body)];
      }
      if call != Answered {
        tasks, replies := tasks - {r}, replies[r := Failed];
      } else if !found {
        tasks, replies := tasks - {r}, replies[r := NotFound];
      } else {
        tasks := tasks[r := Invalidating(id)];
      }
    }

    /** PUT, second await: drop the cached body. */
    method CacheDelStep(r: RequestId, call: Call)
      requires Enabled(View(), CacheDel(r, call))
      modifies this
      ensures View() == Apply(server, old(View()), CacheDel(r, call))
    {
      if call != Refused {
        cache := cache - {tasks[r].id};
      }
      tasks := tasks - {r};
      replies := replies[r := if call != Answered && server.Bun? then Failed else Saved];
    }

    /** POST: one upsert, and no word to the cache. */
    method PostStep(r: RequestId, id: ItemId, body: Body, call: Call)
      requires Enabled(View(), Post(r, id, body, call))
      modifies this
      ensures View() == Apply(server, old(View()), Post(r, id, body, call))
    {
      if call != Refused {
        rows := rows[id := UpsertedRow(rows, id, body)];
      }
      replies := replies[r := if call == Answered then Saved else Failed];
    }
  }

  /** A history: `acts[i]` takes `states[i]` to `states[i + 1]`. */
  datatype Run = Run(server: Server, states: seq<State>, acts: seq<Action>)

  ghost predicate Initial(s: State) {
    s.cache == map[] && s.tasks == map[] && s.replies == map[]
  }

  ghost predicate Valid(h: Run) {
    && |h.states| == |h.acts| + 1
    && Initial(h.states[0])
    && forall i :: 0 <= i < |h.acts| ==> StepAt(h, i)
  }

  ghost predicate StepAt(h: Run, i: nat)
    requires i < |h.acts| < |h.states|
  {
    Enabled(h.states[i], h.acts[i]) && h.states[i + 1] == Apply(h.server, h.states[i], h.acts[i])
  }

  /** Step k is the SELECT of request r and it returned `row` for `id`. */
  ghost predicate Fetches(h: Run, k: nat, r: RequestId, id: ItemId, row: Row)
    requires Valid(h)
  {
    && k < |h.acts| && h.acts[k] == Select(r, Answered)
    && r in h.states[k].tasks && h.states[k].tasks[r] == Missed(id)
    && id in h.states[k].rows && h.states[k].rows[id] == row
  }

  /** Step m is the SET of request r and it reached Redis. */
  ghost predicate Fills(h: Run, m: nat, r: RequestId, id: ItemId, row: Row)
    requires Valid(h)
  {
    && m < |h.acts| && h.acts[m].CacheSet? && h.acts[m].r == r && h.acts[m].call != Refused
    && r in h.states[m].tasks && h.states[m].tasks[r] == Filling(id, row)
  }

  /** Step k fetched, for request r, the very row that step m cached. */
  ghost predicate FillPair(h: Run, k: nat, m: nat, r: RequestId, id: ItemId, row: Row)
    requires Valid(h)
  {
    k < m && Fetches(h, k, r, id, row) && Fills(h, m, r, id, row)
  }

  /** Step j answers a GET of `id` from the cache. */
  ghost predicate Hits(h: Run, j: nat, id: ItemId)
    requires Valid(h)
  {
    && j < |h.acts| && h.acts[j].CacheGet? && h.acts[j].call == Answered
    && h.acts[j].r in h.states[j].tasks && h.states[j].tasks[h.acts[j].r] == Reading(id)
    && Live(h.states[j], id)
  }

  /** Step w changes the row of `id`: an UPDATE that reached Postgres, or an upsert. */
  ghost predicate Puts(h: Run, w: nat, id: ItemId)
    requires Valid(h)
  {
    && w < |h.acts| && h.acts[w].Update? && h.acts[w].call != Refused
    && h.acts[w].r in h.states[w].tasks && h.states[w].tasks[h.acts[w].r].Updating?
    && h.states[w].tasks[h.acts[w].r].id == id && id in h.states[w].rows
  }

  ghost predicate Posts(h: Run, w: nat, id: ItemId)
    requires Valid(h)
  {
    w < |h.acts| && h.acts[w].Post? && h.acts[w].id == id && h.acts[w].call != Refused
  }

  ghost predicate Writes(h: Run, w: nat, id: ItemId)
    requires Valid(h)
  {
    Puts(h, w, id) || Posts(h, w, id)
  }

  /** Step d is the delete that belongs to the UPDATE at step w, and it reached Redis. */
  ghost predicate Invalidates(h: Run, w: nat, d: nat, id: ItemId)
    requires Valid(h)
  {
    && w < d < |h.acts| && Puts(h, w, id)
    && h.acts[d].CacheDel? && h.acts[d].r == h.acts[w].r && h.acts[d].call != Refused
  }

  ghost predicate UndeletedBefore(h: Run, w: nat, j: nat, id: ItemId)
    requires Valid(h)
  {
    forall d: nat :: d < j ==> !Invalidates(h, w, d, id)
  }

  /** The entry a reader finds at step j was put there at step m and not touched since. */
  ghost predicate EntrySince(h: Run, m: nat, j: nat, id: ItemId, entry: Entry)
    requires Valid(h) && j < |h.states|
  {
    forall i :: m < i <= j ==> id in h.states[i].cache && h.states[i].cache[id] == entry
  }

  ghost predicate FillDelayAtMost(h: Run, delay: nat)
    requires Valid(h)
  {
    forall k: nat, m: nat, r, id, row :: FillPair(h, k, m, r, id, row) ==> h.states[m].now - h.states[k].now <= delay
  }

  // ---- What a run keeps -------------------------------------------------------

  lemma {:induction false} ClockNeverTurnsBack(h: Run, i: nat, j: nat)
    requires Valid(h) && i <= j < |h.states|
    ensures h.states[i].now <= h.states[j].now
  {
    if i < j {
      ClockNeverTurnsBack(h, i, j - 1);
      assert StepAt(h, j - 1);
    }
  }

  // One action at a time: what it can do to a request, a cache entry, a row.

  lemma KnownStep(server: Server, s: State, a: Action, r: RequestId)
    requires Enabled(s, a) && Known(s, r)
    requires server.Bun? && r in s.tasks && s.tasks[r].Filling? ==> r in s.replies
    ensures Known(Apply(server, s, a), r)
  {
  }

  /** A task that is about to fill got there by its own SELECT. */
  lemma FillingStep(server: Server, s: State, a: Action, r: RequestId)
    requires Enabled(s, a) && r in Apply(server, s, a).tasks && Apply(server, s, a).tasks[r].Filling?
    ensures var n := Apply(server, s, a);
      || (r in s.tasks && s.tasks[r] == n.tasks[r]
          && (r in s.replies ==> r in n.replies && n.replies[r] == s.replies[r]))
      || (a == Select(r, Answered) && s.tasks[r] == Missed(n.tasks[r].id)
          && n.tasks[r].id in s.rows && s.rows[n.tasks[r].id] == n.tasks[r].row
          && (server.Bun? ==> r in n.replies && n.replies[r] == Miss(n.tasks[r].row)))
  {
    if a.Tick? || a.r != r {
      OtherRequest(server, s, a, r);
    }
  }

  /** An action touches no task and no reply but its own request's. */
  lemma OtherRequest(server: Server, s: State, a: Action, r: RequestId)
    requires Enabled(s, a) && (a.Tick? || a.r != r)
    ensures var n := Apply(server, s, a);
      && (r in n.tasks <==> r in s.tasks) && (r in s.tasks ==> n.tasks[r] == s.tasks[r])
      && (r in s.replies ==> r in n.replies && n.replies[r] == s.replies[r])
  {
    if a.CacheGet? || a.Select? || a.CacheSet? {
      OtherThanReader(server, s, a, r);
    }
  }

  lemma OtherThanReader(server: Server, s: State, a: Action, r: RequestId)
    requires Enabled(s, a) && (a.CacheGet? || a.Select? || a.CacheSet?) && a.r != r
    ensures var n := Apply(server, s, a);
      && (r in n.tasks <==> r in s.tasks) && (r in s.tasks ==> n.tasks[r] == s.tasks[r])
      && (r in s.replies ==> r in n.replies && n.replies[r] == s.replies[r])
  {
  }

  /** An entry appears only by a SET that reached Redis. */
  lemma EntryStep(server: Server, s: State, a: Action, id: ItemId)
    requires Enabled(s, a) && id in Apply(server, s, a).cache
    ensures var entry := Apply(server, s, a).cache[id];
      || (id in s.cache && s.cache[id] == entry)
      || (a.CacheSet? && a.call != Refused && s.tasks[a.r] == Filling(id, entry.row) && entry.setAt == s.now)
  {
  }

  lemma RowStep(server: Server, s: State, a: Action, id: ItemId)
    requires Enabled(s, a) && id in s.rows
    requires !(a.Post? && a.id == id && a.call != Refused)
    requires !(a.Update? && a.call != Refused && s.tasks[a.r].id == id)
    ensures id in Apply(server, s, a).rows && Apply(server, s, a).rows[id] == s.rows[id]
  {
  }

  lemma InvalidatingStep(server: Server, s: State, a: Action, r: RequestId, id: ItemId)
    requires Enabled(s, a) && Known(s, r) && (r in s.tasks ==> s.tasks[r] == Invalidating(id))
    ensures r in Apply(server, s, a).tasks ==> Apply(server, s, a).tasks[r] == Invalidating(id)
  {
  }

  /** Bun answers a GET that missed before it fills the cache. */
  lemma {:induction false} AnsweredBeforeFill(h: Run, i: nat, r: RequestId)
    requires Valid(h) && i < |h.states| && h.server.Bun?
    requires r in h.states[i].tasks && h.states[i].tasks[r].Filling?
    ensures r in h.states[i].replies && h.states[i].replies[r] == Miss(h.states[i].tasks[r].row)
  {
    assert i != 0;
    hide Apply;
    assert StepAt(h, i - 1);
    FillingStep(h.server, h.states[i - 1], h.acts[i - 1], r);
    if r in h.states[i - 1].tasks && h.states[i - 1].tasks[r].Filling? {
      AnsweredBeforeFill(h, i - 1, r);
    }
  }

  lemma {:induction false} KnownForever(h: Run, i: nat, j: nat, r: RequestId)
    requires Valid(h) && i <= j < |h.states|
    requires Known(h.states[i], r)
    ensures Known(h.states[j], r)
  {
    if i < j {
      KnownForever(h, i, j - 1, r);
      hide Apply;
      assert StepAt(h, j - 1);
      if h.server.Bun? && r in h.states[j - 1].tasks && h.states[j - 1].tasks[r].Filling? {
        AnsweredBeforeFill(h, j - 1, r);
      }
      KnownStep(h.server, h.states[j - 1], h.acts[j - 1], r);
    }
  }

  /** A reader about to fill carries a row it fetched at an earlier step. */
  lemma {:induction false} FetchedEarlier(h: Run, m: nat, r: RequestId) returns (k: nat)
    requires Valid(h) && m < |h.states|
    requires r in h.states[m].tasks && h.states[m].tasks[r].Filling?
    ensures k < m && Fetches(h, k, r, h.states[m].tasks[r].id, h.states[m].tasks[r].row)
  {
    assert m != 0;
    hide Apply;
    assert StepAt(h, m - 1);
    FillingStep(h.server, h.states[m - 1], h.acts[m - 1], r);
    if h.acts[m - 1].Select? && h.acts[m - 1].r == r {
      k := m - 1;
    } else {
      k := FetchedEarlier(h, m - 1, r);
    }
  }

  /** Every entry has one origin: a fetch, then a fill by the same request. */
  lemma {:induction false} EntryOrigin(h: Run, j: nat, id: ItemId) returns (k: nat, m: nat, r: RequestId)
    requires Valid(h) && j < |h.states| && id in h.states[j].cache
    ensures m < j && FillPair(h, k, m, r, id, h.states[j].cache[id].row)
    ensures h.states[j].cache[id].setAt == h.states[m].now
    ensures EntrySince(h, m, j, id, h.states[j].cache[id])
  {
    assert j != 0;
    hide Apply;
    assert StepAt(h, j - 1);
    var a := h.acts[j - 1];
    EntryStep(h.server, h.states[j - 1], a, id);
    if id !in h.states[j - 1].cache || h.states[j - 1].cache[id] != h.states[j].cache[id] {
      m, r := j - 1, a.r;
      k := FetchedEarlier(h, m, r);
    } else {
      k, m, r := EntryOrigin(h, j - 1, id);
    }
  }

  lemma {:induction false} RowKeptWithoutWrites(h: Run, i: nat, j: nat, id: ItemId)
    requires Valid(h) && i <= j < |h.states|
    requires id in h.states[i].rows
    requires forall w :: i <= w < j ==> !Writes(h, w, id)
    ensures id in h.states[j].rows && h.states[j].rows[id] == h.states[i].rows[id]
  {
    if i < j {
      RowKeptWithoutWrites(h, i, j - 1, id);
      hide Apply;
      assert StepAt(h, j - 1) && !Writes(h, j - 1, id);
      RowStep(h.server, h.states[j - 1], h.acts[j - 1], id);
    }
  }

  lemma {:induction false} InvalidatingTask(h: Run, w: nat, d: nat, id: ItemId)
    requires Valid(h) && Puts(h, w, id) && w < d < |h.states|
    ensures Known(h.states[d], h.acts[w].r)
    ensures h.acts[w].r in h.states[d].tasks ==> h.states[d].tasks[h.acts[w].r] == Invalidating(id)
  {
    var r := h.acts[w].r;
    assert StepAt(h, w) && StepAt(h, d - 1);
    KnownForever(h, w, d, r);
    if w < d - 1 {
      InvalidatingTask(h, w, d - 1, id);
      hide Apply;
      InvalidatingStep(h.server, h.states[d - 1], h.acts[d - 1], r, id);
    }
  }

  /** No delete reaches Redis while an entry is in place. */
  lemma EntryMeansNoDelete(h: Run, w: nat, d: nat, m: nat, j: nat, id: ItemId, entry: Entry)
    requires Valid(h) && m < d < j < |h.states| && EntrySince(h, m, j, id, entry)
    ensures !Invalidates(h, w, d, id)
  {
    assert StepAt(h, d) && id in h.states[d + 1].cache;
    if Invalidates(h, w, d, id) {
      InvalidatingTask(h, w, d, id);
      assert false;
    }
  }

  // ---- Main results -----------------------------------------------------------

  /** A HIT carries exactly the row the database held when its filler fetched
      it, and the fill is less than the time-to-live old. */
  lemma HitIsARecentSnapshot(h: Run, j: nat, id: ItemId) returns (k: nat, m: nat, r: RequestId)
    requires Valid(h) && Hits(h, j, id)
    ensures h.acts[j].r in h.states[j + 1].replies
    ensures h.states[j + 1].replies[h.acts[j].r] == Hit(h.states[j].cache[id].row)
    ensures m < j && FillPair(h, k, m, r, id, h.states[j].cache[id].row)
    ensures EntrySince(h, m, j, id, h.states[j].cache[id])
    ensures 0 <= h.states[j].now - h.states[m].now < 200
  {
    assert StepAt(h, j);
    k, m, r := EntryOrigin(h, j, id);
    ClockNeverTurnsBack(h, m, j);
  }

  /** If a reader never takes longer than `delay` from fetch to fill, no HIT
      shows a row that left the database 200 ms plus `delay` ago or earlier. */
  lemma BoundedStaleness(h: Run, j: nat, id: ItemId, delay: nat) returns (k: nat)
    requires Valid(h) && Hits(h, j, id) && FillDelayAtMost(h, delay)
    ensures k < j && id in h.states[k].rows && h.states[k].rows[id] == h.states[j].cache[id].row
    ensures h.states[j].now - h.states[k].now < 200 + delay
  {
    var m, r;
    k, m, r := HitIsARecentSnapshot(h, j, id);
  }

  /** Every write between a HIT's fetch and the HIT is one of three kinds: an
      upsert, an UPDATE whose delete has not reached Redis, or an UPDATE that
      started after the fetch and finished deleting before the fill. */
  lemma InterveningWriteExplained(h: Run, k: nat, w: nat, m: nat, j: nat, r: RequestId, id: ItemId)
    requires Valid(h) && k < w < j && m < j < |h.states|
    requires id in h.states[j].cache && FillPair(h, k, m, r, id, h.states[j].cache[id].row)
    requires EntrySince(h, m, j, id, h.states[j].cache[id])
    requires Writes(h, w, id)
    ensures Posts(h, w, id) || UndeletedBefore(h, w, j, id) || exists d: nat :: d < m && Invalidates(h, w, d, id)
  {
    if !Posts(h, w, id) && !UndeletedBefore(h, w, j, id) {
      var d: nat :| d < j && Invalidates(h, w, d, id);
      if m < d {
        EntryMeansNoDelete(h, w, d, m, j, id, h.states[j].cache[id]);
      }
    }
  }

  /** A HIT that differs from the current row is fully accounted for. */
  lemma StaleHitClassified(h: Run, j: nat, id: ItemId) returns (k: nat, w: nat, m: nat, r: RequestId)
    requires Valid(h) && Hits(h, j, id)
    requires id !in h.states[j].rows || h.states[j].rows[id] != h.states[j].cache[id].row
    ensures k < w < j && m < j && FillPair(h, k, m, r, id, h.states[j].cache[id].row) && Writes(h, w, id)
    ensures Posts(h, w, id) || UndeletedBefore(h, w, j, id) || exists d: nat :: d < m && Invalidates(h, w, d, id)
  {
    k, m, r := HitIsARecentSnapshot(h, j, id);
    if forall w' :: k <= w' < j ==> !Writes(h, w', id) {
      RowKeptWithoutWrites(h, k, j, id);
      assert false;
    }
    w :| k <= w < j && Writes(h, w, id);
    InterveningWriteExplained(h, k, w, m, j, r, id);
  }

  /** Step j gives GET g the row it will reply with, from the cache or from the table. */
  ghost predicate Reads(h: Run, j: nat, g: RequestId, id: ItemId, row: Row)
    requires Valid(h)
  {
    || Fetches(h, j, g, id, row)
    || (Hits(h, j, id) && h.acts[j].r == g && h.states[j].cache[id].row == row)
  }

  /** A reader fetched before the UPDATE at w and filled between its delete at d and step j. */
  ghost predicate RacingFill(h: Run, w: nat, d: nat, j: nat, id: ItemId)
    requires Valid(h)
  {
    exists k: nat, m: nat, r, row :: FillPair(h, k, m, r, id, row) && k < w && d < m < j
  }

  /** What an UPDATE leaves of a row: three columns are the body's, or the endpoint's own
      values where the body has none, and the other five are as they were. */
  predicate IsUpdateOf(row: Row, before: Row, b: Body) {
    && row.name == (match b.name case Some(name) => name case None => "Updated")
    && row.price == (match b.price case Some(price) => price case None => 0)
    && row.quantity == (match b.quantity case Some(quantity) => quantity case None => 0)
    && row.category == before.category && row.active == before.active && row.tags == before.tags
    && row.ratingScore == before.ratingScore && row.ratingCount == before.ratingCount
  }

  /** What an upsert inserts where there is no row. */
  predicate IsInsertOf(row: Row, b: Body) {
    && row.name == (match b.name case Some(name) => name case None => "New Product")
    && row.category == (match b.category case Some(category) => category case None => "test")
    && row.price == (match b.price case Some(price) => price case None => 0)
    && row.quantity == (match b.quantity case Some(quantity) => quantity case None => 0)
    && row.active && row.tags == "[\"bench\"]" && row.ratingScore == 0 && row.ratingCount == 0
  }

  /** And what it leaves of one that is there. */
  predicate IsConflictOf(row: Row, before: Row, b: Body) {
    && row.name == (match b.name case Some(name) => name case None => "New Product")
    && row.price == (match b.price case Some(price) => price case None => 0)
    && row.quantity == (match b.quantity case Some(quantity) => quantity case None => 0)
    && row.category == before.category && row.active == before.active && row.tags == before.tags
    && row.ratingScore == before.ratingScore && row.ratingCount == before.ratingCount
  }

  ghost predicate SameElsewhere(s: State, n: State, id: ItemId) {
    n.rows.Keys == s.rows.Keys + {id} && forall x :: x in s.rows && x != id ==> n.rows[x] == s.rows[x]
  }

  /** In every run, an UPDATE that reaches Postgres writes these columns of this row. */
  lemma UpdateWritesFields(h: Run, w: nat, id: ItemId)
    requires Valid(h) && Puts(h, w, id)
    ensures var s, n := h.states[w], h.states[w + 1];
      && SameElsewhere(s, n, id) && n.cache == s.cache
      && IsUpdateOf(n.rows[id], s.rows[id], s.tasks[h.acts[w].r].body)
  {
    assert StepAt(h, w);
  }

  /** And an upsert that reaches Postgres inserts, or overwrites three columns. */
  lemma UpsertWritesFields(h: Run, w: nat, id: ItemId)
    requires Valid(h) && Posts(h, w, id)
    ensures var s, n := h.states[w], h.states[w + 1];
      && SameElsewhere(s, n, id) && n.cache == s.cache
      && if id in s.rows then IsConflictOf(n.rows[id], s.rows[id], h.acts[w].body)
         else IsInsertOf(n.rows[id], h.acts[w].body)
  {
    assert StepAt(h, w);
  }

  /** Once a PUT has deleted the key, a read shows the PUT's row or a later one
      unless a racing fill put an older row back; awaited or not, the fill makes
      no difference. */
  lemma ReadAfterPut(h: Run, w: nat, d: nat, j: nat, g: RequestId, id: ItemId, row: Row) returns (k: nat)
    requires Valid(h) && Invalidates(h, w, d, id) && d < j
    requires Reads(h, j, g, id, row) && !RacingFill(h, w, d, j, id)
    ensures w < k <= j && id in h.states[k].rows && h.states[k].rows[id] == row
    ensures (forall v :: w < v < j ==> !Writes(h, v, id)) ==>
      IsUpdateOf(row, h.states[w].rows[id], h.states[w].tasks[h.acts[w].r].body)
  {
    hide IsUpdateOf;
    UpdateWritesFields(h, w, id);
    if Fetches(h, j, g, id, row) {
      k := j;
    } else {
      var m, r;
      k, m, r := HitIsARecentSnapshot(h, j, id);
      if m < d {
        EntryMeansNoDelete(h, w, d, m, j, id, h.states[j].cache[id]);
      }
      assert FillPair(h, k, m, r, id, row);
    }
    assert StepAt(h, w);
    if forall v :: w < v < j ==> !Writes(h, v, id) {
      RowKeptWithoutWrites(h, w + 1, k, id);
    }
  }

  // ---- What a state promises to later reads -----------------------------------

  ghost predicate Extends(h: Run, g: Run)
    requires Valid(h)
  {
    && Valid(g) && g.server == h.server && |h.acts| <= |g.acts|
    && g.states[..|h.states|] == h.states && g.acts[..|h.acts|] == h.acts
  }

  function Last(h: Run): State
    requires h.states != []
  {
    h.states[|h.states| - 1]
  }

  ghost predicate NoWrites(h: Run, i: nat, j: nat, id: ItemId)
    requires Valid(h)
  {
    forall w :: i <= w < j ==> !Writes(h, w, id)
  }

  predicate Shows(s: State, id: ItemId, row: Row) {
    id in s.rows && s.rows[id] == row
  }

  /** From here on, with no further write of the row, every HIT shows what the table holds. */
  ghost predicate FreshFromHere(h: Run, id: ItemId)
    requires Valid(h)
  {
    forall g: Run, j: nat :: Extends(h, g) && |h.acts| <= j && FollowedBy(g, |h.acts|, j, id) ==>
      Shows(Last(h), id, g.states[j].cache[id].row)
  }

  /** Step j is a HIT and the row has not been written since step i. */
  ghost predicate FollowedBy(h: Run, i: nat, j: nat, id: ItemId)
    requires Valid(h)
  {
    Hits(h, j, id) && NoWrites(h, i, j, id)
  }

  /** No request is about to fill the cache with another row than the table's. */
  ghost predicate NoStaleFill(s: State, id: ItemId) {
    forall r :: r in s.tasks && s.tasks[r].Filling? && s.tasks[r].id == id ==> Shows(s, id, s.tasks[r].row)
  }

  /** Nor does a live entry hold one. */
  ghost predicate Clean(s: State, id: ItemId) {
    NoStaleFill(s, id) && (Live(s, id) ==> Shows(s, id, s.cache[id].row))
  }

  ghost predicate IsWrite(s: State, a: Action, id: ItemId)
    requires Enabled(s, a)
  {
    || (a.Update? && a.call != Refused && s.tasks[a.r].id == id && id in s.rows)
    || (a.Post? && a.id == id && a.call != Refused)
  }

  lemma SameRowStep(server: Server, s: State, a: Action, id: ItemId, row: Row)
    requires Enabled(s, a) && !IsWrite(s, a, id)
    ensures Shows(Apply(server, s, a), id, row) <==> Shows(s, id, row)
  {
  }

  lemma CleanStep(server: Server, s: State, a: Action, id: ItemId)
    requires Enabled(s, a) && !IsWrite(s, a, id) && Clean(s, id)
    ensures Clean(Apply(server, s, a), id)
  {
    var n := Apply(server, s, a);
    forall r | r in n.tasks && n.tasks[r].Filling? && n.tasks[r].id == id ensures Shows(n, id, n.tasks[r].row) {
      FillingStep(server, s, a, r);
      SameRowStep(server, s, a, id, n.tasks[r].row);
    }
    if Live(n, id) {
      LiveStep(server, s, a, id);
      SameRowStep(server, s, a, id, n.cache[id].row);
    }
  }

  lemma LiveStep(server: Server, s: State, a: Action, id: ItemId)
    requires Enabled(s, a) && Live(Apply(server, s, a), id)
    ensures var entry := Apply(server, s, a).cache[id];
      || (Live(s, id) && s.cache[id] == entry)
      || (a.CacheSet? && s.tasks[a.r] == Filling(id, entry.row))
  {
    EntryStep(server, s, a, id);
  }

  lemma {:induction false} StaysClean(g: Run, i: nat, j: nat, id: ItemId)
    requires Valid(g) && i <= j < |g.states| && NoWrites(g, i, j, id) && Clean(g.states[i], id)
    ensures Clean(g.states[j], id)
    ensures forall row :: Shows(g.states[j], id, row) <==> Shows(g.states[i], id, row)
  {
    hide Apply, Clean, Shows;
    if i < j {
      StaysClean(g, i, j - 1, id);
      assert StepAt(g, j - 1) && !Writes(g, j - 1, id);
      CleanStep(g.server, g.states[j - 1], g.acts[j - 1], id);
      forall row ensures Shows(g.states[j], id, row) <==> Shows(g.states[j - 1], id, row) {
        SameRowStep(g.server, g.states[j - 1], g.acts[j - 1], id, row);
      }
    }
  }

  function Then(h: Run, a: Action): Run
    requires h.states != [] && Enabled(Last(h), a)
  {
    Run(h.server, h.states + [Apply(h.server, Last(h), a)], h.acts + [a])
  }

  lemma ThenExtends(h: Run, a: Action)
    requires Valid(h) && Enabled(Last(h), a)
    ensures Valid(Then(h, a)) && Extends(h, Then(h, a))
    ensures Last(Then(h, a)) == Apply(h.server, Last(h), a) && |Then(h, a).acts| == |h.acts| + 1
  {
    hide Apply, Enabled;
    var g := Then(h, a);
    forall i | 0 <= i < |g.acts| ensures StepAt(g, i) {
      if i < |h.acts| {
        assert StepAt(h, i);
      }
    }
  }

  lemma ExtendsFurther(h: Run, g: Run, a: Action)
    requires Valid(h) && Extends(h, g) && Enabled(Last(g), a)
    ensures Extends(h, Then(g, a))
  {
    hide Apply, Enabled;
    ThenExtends(g, a);
    var f := Then(g, a);
    assert f.states[..|h.states|] == g.states[..|h.states|] && f.acts[..|h.acts|] == g.acts[..|h.acts|];
  }

  lemma {:induction false} UnusedId(used: set<RequestId>) returns (q: RequestId)
    ensures forall r :: r in used ==> r < q
  {
    q := 0;
    if used != {} {
      var r :| r in used;
      var p := UnusedId(used - {r});
      q := if p > r then p else r + 1;
      assert forall x :: x in used ==> x == r || x in used - {r};
    }
  }

  /** A new GET is served a live entry. */
  lemma NewGetHits(h: Run, id: ItemId, q: RequestId) returns (g: Run)
    requires Valid(h) && Live(Last(h), id) && !Known(Last(h), q)
    ensures Extends(h, g) && |g.acts| == |h.acts| + 2
    ensures g.acts[|h.acts|] == StartGet(q, id) && g.acts[|h.acts| + 1] == CacheGet(q, Answered)
    ensures Hits(g, |h.acts| + 1, id) && g.states[|h.acts| + 1].cache[id] == Last(h).cache[id]
  {
    var start, get := StartGet(q, id), CacheGet(q, Answered);
    ThenExtends(h, start);
    ExtendsFurther(h, Then(h, start), get);
    ThenExtends(Then(h, start), get);
    g := Then(Then(h, start), get);
    assert g.states[|h.acts| + 1] == Last(Then(h, start));
  }

  /** What a pending fill holds is what a GET will be served that starts after it. */
  lemma FillIsServed(h: Run, r: RequestId, id: ItemId, q: RequestId) returns (g: Run)
    requires Valid(h) && r in Last(h).tasks && Last(h).tasks[r].Filling? && Last(h).tasks[r].id == id
    requires !Known(Last(h), q)
    ensures Extends(h, g) && |g.acts| == |h.acts| + 3 && g.acts[|h.acts|] == CacheSet(r, Answered)
    ensures g.acts[|h.acts| + 1] == StartGet(q, id) && g.acts[|h.acts| + 2] == CacheGet(q, Answered)
    ensures Hits(g, |h.acts| + 2, id) && g.states[|h.acts| + 2].cache[id].row == Last(h).tasks[r].row
  {
    var fill := CacheSet(r, Answered);
    ThenExtends(h, fill);
    assert Live(Last(Then(h, fill)), id) && !Known(Last(Then(h, fill)), q);
    g := NewGetHits(Then(h, fill), id, q);
    hide Apply, Hits;
    var f := Then(h, fill);
    assert g.states[..|h.states|] == f.states[..|h.states|] && g.acts[..|h.acts|] == f.acts[..|h.acts|];
    assert g.acts[|h.acts|] == f.acts[|h.acts|];
  }

  /** In every state of every run: all HITs that follow show the table's row, for as long
      as nobody writes it, exactly if no live entry and no pending fill holds another. */
  lemma FreshFromHereIff(h: Run, id: ItemId)
    requires Valid(h)
    ensures FreshFromHere(h, id) <==> Clean(Last(h), id)
  {
    if Clean(Last(h), id) {
      forall g: Run, j: nat | Extends(h, g) && |h.acts| <= j && FollowedBy(g, |h.acts|, j, id)
        ensures Shows(Last(h), id, g.states[j].cache[id].row)
      {
        assert g.states[|h.acts|] == g.states[..|h.states|][|h.acts|];
        StaysClean(g, |h.acts|, j, id);
      }
    } else {
      var q := UnusedId(Last(h).tasks.Keys + Last(h).replies.Keys);
      assert !Known(Last(h), q);
      if Live(Last(h), id) && !Shows(Last(h), id, Last(h).cache[id].row) {
        var g := NewGetHits(h, id, q);
        assert FollowedBy(g, |h.acts|, |h.acts| + 1, id);
      } else {
        var r :| r in Last(h).tasks && Last(h).tasks[r].Filling? && Last(h).tasks[r].id == id
                 && !Shows(Last(h), id, Last(h).tasks[r].row);
        var g := FillIsServed(h, r, id, q);
        assert FollowedBy(g, |h.acts|, |h.acts| + 2, id);
      }
    }
  }

  /** Right after a PUT's delete has reached Redis only the pending fills matter. */
  lemma FreshAfterDeleteIff(h: Run, id: ItemId)
    requires Valid(h) && h.acts != []
    requires var d := |h.acts| - 1;
      h.acts[d].CacheDel? && h.acts[d].call != Refused && h.acts[d].r in h.states[d].tasks
      && h.states[d].tasks[h.acts[d].r].id == id
    ensures FreshFromHere(h, id) <==> NoStaleFill(Last(h), id)
  {
    assert StepAt(h, |h.acts| - 1);
    assert id !in Last(h).cache;
    FreshFromHereIff(h, id);
  }

  // ---- A request that nobody interrupts -----------------------------------------

  /** These actions one after the other; None if one of them may not come next. */
  function InARow(server: Server, s: State, acts: seq<Action>): Option<State> {
    if acts == [] then Some(s)
    else
      var before := InARow(server, s, acts[..|acts| - 1]);
      if before.Some? && Enabled(before.value, acts[|acts| - 1])
      then Some(Apply(server, before.value, acts[|acts| - 1])) else None
  }

  lemma TwoInARow(server: Server, s: State, a: Action, b: Action)
    ensures InARow(server, s, [a, b]) ==
      if Enabled(s, a) && Enabled(Apply(server, s, a), b) then Some(Apply(server, Apply(server, s, a), b)) else None
  {
    hide Apply, Enabled;
    assert [a, b][..1] == [a] && [a][..0] == [];
    assert InARow(server, s, []) == Some(s);
    assert InARow(server, s, [a]) == if Enabled(s, a) then Some(Apply(server, s, a)) else None;
  }

  lemma NextInARow(server: Server, s: State, acts: seq<Action>, a: Action)
    ensures InARow(server, s, acts + [a]) ==
      var before := InARow(server, s, acts);
      if before.Some? && Enabled(before.value, a) then Some(Apply(server, before.value, a)) else None
  {
    hide Apply, Enabled;
    assert (acts + [a])[..|acts|] == acts;
  }

  lemma TaskEnds(tasks: map<RequestId, Task>, r: RequestId, x: Task, y: Task)
    requires r !in tasks
    ensures tasks[r := x] - {r} == tasks && tasks[r := x][r := y] == tasks[r := y]
  {
  }

  function Replied(s: State, r: RequestId, reply: Reply): State {
    s.(replies := s.replies[r := reply])
  }

  /** A GET up to its first answer from Redis: an entry stored less than 200 ms ago is the
      reply; without one the table is next; and a call that fails ends the request in Bun
      and goes on to the table in aiohttp. */
  lemma UninterruptedLookup(server: Server, s: State, r: RequestId, id: ItemId, get: Call)
    requires !Known(s, r)
    ensures var young := id in s.cache && s.now - s.cache[id].setAt < 200;
      InARow(server, s, [StartGet(r, id), CacheGet(r, get)]) == Some(
        if get == Answered && young then Replied(s, r, Hit(s.cache[id].row))
        else if get != Answered && server == Bun then Replied(s, r, Failed)
        else s.(tasks := s.tasks[r := Missed(id)]))
  {
    TwoInARow(server, s, StartGet(r, id), CacheGet(r, get));
    TaskEnds(s.tasks, r, Reading(id), Missed(id));
  }

  /** From there to the end: no row is 404, a failed SELECT an error; otherwise the row is
      stored, unless the SET never happens, and is the reply whatever becomes of the SET. */
  lemma UninterruptedMiss(server: Server, s: State, r: RequestId, id: ItemId, select: Call, put: Call)
    requires !Known(s, r)
    ensures var missed := s.(tasks := s.tasks[r := Missed(id)]);
      if select != Answered then InARow(server, missed, [Select(r, select)]) == Some(Replied(s, r, Failed))
      else if id !in s.rows then InARow(server, missed, [Select(r, select)]) == Some(Replied(s, r, NotFound))
      else InARow(server, missed, [Select(r, select), CacheSet(r, put)]) == Some(
        Replied(s, r, Miss(s.rows[id])).(
          cache := if put == Refused then s.cache else s.cache[id := Entry(s.rows[id], s.now)]))
  {
    var missed := s.(tasks := s.tasks[r := Missed(id)]);
    TaskEnds(s.tasks, r, Missed(id), if id in s.rows then Filling(id, s.rows[id]) else Missed(id));
    NextInARow(server, missed, [], Select(r, select));
    assert [] + [Select(r, select)] == [Select(r, select)];
    if select == Answered && id in s.rows {
      TwoInARow(server, missed, Select(r, select), CacheSet(r, put));
      TaskEnds(s.tasks, r, Filling(id, s.rows[id]), Missed(id));
    }
  }

  /** A PUT: the row is written unless the call never happens; no row is 404; and only an
      UPDATE that was answered goes on to delete the key, after which aiohttp reports
      success whatever became of the delete and Bun only if it was answered. */
  lemma UninterruptedPut(server: Server, s: State, r: RequestId, id: ItemId, body: Body, update: Call, del: Call)
    returns (row: Row)
    requires !Known(s, r)
    ensures id in s.rows ==> IsUpdateOf(row, s.rows[id], body)
    ensures var acts := [StartPut(r, id, body), Update(r, update)];
      var written := s.(rows := s.rows[id := row]);
      if id !in s.rows then
        InARow(server, s, acts) == Some(Replied(s, r, if update == Answered then NotFound else Failed))
      else if update == Refused then InARow(server, s, acts) == Some(Replied(s, r, Failed))
      else if update == Lost then InARow(server, s, acts) == Some(Replied(written, r, Failed))
      else InARow(server, s, acts + [CacheDel(r, del)]) == Some(
        Replied(written, r, if del == Answered || server == Aiohttp then Saved else Failed).(
          cache := if del == Refused then s.cache else s.cache - {id}))
  {
    var acts := [StartPut(r, id, body), Update(r, update)];
    TwoInARow(server, s, StartPut(r, id, body), Update(r, update));
    TaskEnds(s.tasks, r, Updating(id, body), Invalidating(id));
    row := if id in s.rows then UpdatedRow(s.rows[id], body) else UpsertedRow(s.rows, id, body);
    if id in s.rows {
      if update == Answered {
        NextInARow(server, s, acts, CacheDel(r, del));
        TaskEnds(s.tasks, r, Invalidating(id), Invalidating(id));
      }
    }
  }

  /** A POST: the row is written unless the call never happens, the cache stays, and the
      reply says whether the call was answered. */
  lemma UninterruptedPost(server: Server, s: State, r: RequestId, id: ItemId, body: Body, call: Call) returns (row: Row)
    requires !Known(s, r)
    ensures if id in s.rows then IsConflictOf(row, s.rows[id], body) else IsInsertOf(row, body)
    ensures InARow(server, s, [Post(r, id, body, call)]) ==
      Some(Replied(if call == Refused then s else s.(rows := s.rows[id := row]), r,
                   if call == Answered then Saved else Failed))
  {
    NextInARow(server, s, [], Post(r, id, body, call));
    assert [] + [Post(r, id, body, call)] == [Post(r, id, body, call)];
    row := UpsertedRow(s.rows, id, body);
  }

  // ---- The race is real -------------------------------------------------------

  /** A reader fetches, and a PUT updates and deletes: the actions, and the state before
      each of them. */
  function RaceActions(id: ItemId, body: Body): seq<Action> {
    [ StartGet(0, id), CacheGet(0, Answered), Select(0, Answered),
      StartPut(1, id, body), Update(1, Answered), CacheDel(1, Answered)]
  }

  function RaceState(server: Server, id: ItemId, row: Row, body: Body, n: nat): State {
    var rows := map[id := if n <= 4 then row else UpdatedRow(row, body)];
    var early := if server.Bun? then map[0 := Miss(row)] else map[];
    match n
    case 0 => State(0, rows, map[], map[], map[])
    case 1 => State(0, rows, map[], map[0 := Reading(id)], map[])
    case 2 => State(0, rows, map[], map[0 := Missed(id)], map[])
    case 3 => State(0, rows, map[], map[0 := Filling(id, row)], early)
    case 4 => State(0, rows, map[], map[0 := Filling(id, row), 1 := Updating(id, body)], early)
    case 5 => State(0, rows, map[], map[0 := Filling(id, row), 1 := Invalidating(id)], early)
    case _ => State(0, rows, map[], map[0 := Filling(id, row)], early[1 := Saved])
  }

  lemma RaceReaderSteps(server: Server, id: ItemId, row: Row, body: Body, n: nat)
    requires n < 4
    ensures Enabled(RaceState(server, id, row, body, n), RaceActions(id, body)[n])
    ensures Apply(server, RaceState(server, id, row, body, n), RaceActions(id, body)[n]) ==
      RaceState(server, id, row, body, n + 1)
  {
    if n == 0 {} else if n == 1 {} else if n == 2 {} else {}
  }

  lemma RaceWriterSteps(server: Server, id: ItemId, row: Row, body: Body, n: nat)
    requires 4 <= n < 6
    ensures Enabled(RaceState(server, id, row, body, n), RaceActions(id, body)[n])
    ensures Apply(server, RaceState(server, id, row, body, n), RaceActions(id, body)[n]) ==
      RaceState(server, id, row, body, n + 1)
  {
    if n == 4 {} else {}
  }

  lemma RaceRun(server: Server, id: ItemId, row: Row, body: Body) returns (h: Run)
    ensures Valid(h) && h.server == server && h.acts == RaceActions(id, body)
    ensures h.states[0].rows == map[id := row] && Last(h) == RaceState(server, id, row, body, 6)
    ensures Invalidates(h, 4, 5, id)
  {
    h := Run(server, seq(7, n requires 0 <= n => RaceState(server, id, row, body, n)), RaceActions(id, body));
    forall i | 0 <= i < 6 ensures StepAt(h, i) {
      if i < 4 {
        RaceReaderSteps(server, id, row, body, i);
      } else {
        RaceWriterSteps(server, id, row, body, i);
      }
    }
  }

  lemma StaleFillPending(server: Server, id: ItemId, row: Row, body: Body)
    requires UpdatedRow(row, body) != row
    ensures var s := RaceState(server, id, row, body, 6);
      && 0 in s.tasks && s.tasks[0] == Filling(id, row) && !Shows(s, id, row) && !Known(s, 2)
      && Shows(s, id, UpdatedRow(row, body)) && 1 in s.replies && s.replies[1] == Saved
  {
  }

  /** On either server, for any row and any PUT that changes it, there is a run that ends
      with the PUT answered and a stale fill pending, so that FreshFromHereIff gives the
      old row to a GET that starts afterwards. */
  lemma StaleReadAfterPutHappens(server: Server, id: ItemId, row: Row, body: Body)
    returns (h: Run, g: Run)
    requires UpdatedRow(row, body) != row
    ensures Valid(h) && h.server == server && h.states[0].rows == map[id := row]
    ensures Invalidates(h, 4, 5, id) && |h.acts| == 6
    ensures h.acts[5].r in Last(h).replies && Last(h).replies[h.acts[5].r] == Saved
    ensures Extends(h, g) && |g.acts| == 9 && g.acts[7] == StartGet(2, id)
    ensures Hits(g, 8, id) && g.acts[8] == CacheGet(2, Answered)
    ensures Shows(Last(h), id, UpdatedRow(row, body)) && g.states[8].cache[id].row == row
    ensures !FreshFromHere(h, id)
  {
    h := RaceRun(server, id, row, body);
    StaleFillPending(server, id, row, body);
    assert |h.acts| == 6 && h.acts[5] == CacheDel(1, Answered);
    hide RaceState, RaceActions, Valid, Extends, Hits, Invalidates, Live, Shows, FreshFromHere;
    assert !Clean(Last(h), id);
    FreshFromHereIff(h, id);
    g := FillIsServed(h, 0, id, 2);
  }
}
