/**
 The hot-reloaded server certificate: handshake threads that check two PEM
 files at most once a second, reload them under a lock, swap the certificate
 and retire the old one, while a writer replaces the files one at a time.

 Every read or write of shared memory or of a file is one atomic step, so a
 thread may be overtaken between any two of them, between the two file stamps
 and between the two file reads included.  File stamps strictly increase.
 */
module CertificateRotation {
  import opened Basics

  type ThreadId = nat
  type PairId = nat

  const CHECK_INTERVAL_MS := 1000

  /** What a PEM file holds: one half of some pair, or nothing usable. */
  datatype Content = Half(pair: PairId) | Unusable

  datatype Files = Files(cert: Content, certStamp: nat, key: Content, keyStamp: nat) {
    function LastWrite(): nat {
      if certStamp > keyStamp then certStamp else keyStamp
    }

    /** The two halves belong together, so a load succeeds. */
    predicate Match() {
      cert.Half? && cert == key
    }

    /** `this` may have become `later` by writes whose stamps strictly increase. */
    predicate Precedes(later: Files) {
      && ((later.cert == cert && later.certStamp == certStamp) || LastWrite() < later.certStamp)
      && ((later.key == key && later.keyStamp == keyStamp) || LastWrite() < later.keyStamp)
    }
  }

  /** A loaded certificate object; `serial` tells apart two loads of one pair. */
  datatype Certificate = Certificate(serial: nat, pair: PairId)

  /** Where a handshake thread is inside `Current`. */
  datatype Thread =
    | Clocked(time: nat)
    | Due(time: nat)
    | Stamping
    | HalfStamped(certStamp: nat)
    | Stamped(stamp: nat)
    | Waiting(stamp: nat)
    | Entered(stamp: nat)
    | Loading(stamp: nat)
    | HalfLoaded(stamp: nat, cert: Content)
    | Loaded(stamp: nat, renewed: Certificate)
    | Swapped(stamp: nat, previous: Certificate)
    | Retiring(stamp: nat, previous: Certificate)
    | Serving
  {
    predicate HoldsGate() {
      Entered? || Loading? || HalfLoaded? || Loaded? || Swapped? || Retiring?
    }
  }

  /** `installed` lists every value `current` has had, `disposed` every disposal. */
  datatype State = State(
    files: Files,
    time: nat,
    lastCheck: nat,
    current: Certificate,
    loadedStamp: nat,
    gate: Option<ThreadId>,
    threads: map<ThreadId, Thread>,
    served: map<ThreadId, Certificate>,
    installed: seq<Certificate>,
    disposed: seq<Certificate>)

  datatype Action =
    | Tick(ms: nat)
    | WriteCert(content: Content, at: nat)
    | WriteKey(content: Content, at: nat)
    | Arrive(t: ThreadId)
    | Step(t: ThreadId)
  {
    predicate Write() {
      WriteCert? || WriteKey?
    }
  }

  predicate Enabled(s: State, a: Action) {
    match a
    case Tick(_) => true
    case WriteCert(_, at) => s.files.LastWrite() < at
    case WriteKey(_, at) => s.files.LastWrite() < at
    case Arrive(t) => t !in s.threads && t !in s.served
    case Step(t) => t in s.threads && (s.threads[t].Waiting? ==> s.gate.None?)
  }

  function Goto(s: State, t: ThreadId, next: Thread): State {
    s.(threads := s.threads[t := next])
  }

  /** Leaving `lock` on any path, an exception's included. */
  function Leave(s: State, t: ThreadId): State {
    Goto(s, t, Serving).(gate := None)
  }

  function CheckStep(s: State, t: ThreadId): State
    requires t in s.threads && !s.threads[t].HoldsGate()
  {
    match s.threads[t]
    case Clocked(time) => Goto(s, t, if time - s.lastCheck >= CHECK_INTERVAL_MS then Due(time) else Serving)
    case Due(time) => Goto(s, t, Stamping).(lastCheck := time)
    case Stamping => Goto(s, t, HalfStamped(s.files.certStamp))
    case HalfStamped(c) => Goto(s, t, Stamped(if c > s.files.keyStamp then c else s.files.keyStamp))
    case Stamped(stamp) => Goto(s, t, if stamp == s.loadedStamp then Serving else Waiting(stamp))
    case Waiting(stamp) => Goto(s, t, Entered(stamp)).(gate := Some(t))
    case Serving => s.(threads := s.threads - {t}, served := s.served[t := s.current])
  }

  function GateStep(s: State, t: ThreadId): State
    requires t in s.threads && s.threads[t].HoldsGate()
  {
    match s.threads[t]
    case Entered(stamp) => if stamp == s.loadedStamp then Leave(s, t) else Goto(s, t, Loading(stamp))
    case Loading(stamp) => Goto(s, t, HalfLoaded(stamp, s.files.cert))
    case HalfLoaded(stamp, cert) =>
      if cert.Half? && cert == s.files.key
      then Goto(s, t, Loaded(stamp, Certificate(|s.installed|, cert.pair)))
      else Leave(s, t)
    case Loaded(stamp, renewed) =>
      Goto(s, t, Swapped(stamp, s.current)).(current := renewed, installed := s.installed + [renewed])
    case Swapped(stamp, previous) => Goto(s, t, Retiring(stamp, previous)).(loadedStamp := stamp)
    case Retiring(_, previous) => Leave(s, t).(disposed := s.disposed + [previous])
  }

  /** The state after one atomic action. */
  function Apply(s: State, a: Action): State
    requires Enabled(s, a)
  {
    match a
    case Tick(ms) => s.(time := s.time + ms)
    case WriteCert(content, at) => s.(files := s.files.(cert := content, certStamp := at))
    case WriteKey(content, at) => s.(files := s.files.(key := content, keyStamp := at))
    case Arrive(t) => Goto(s, t, Clocked(s.time))
    case Step(t) => if s.threads[t].HoldsGate() then GateStep(s, t) else CheckStep(s, t)
  }

  /** What the constructor leaves behind: it loads the two files, then stamps
      them, and the writer may act between any two of those four reads. */
  ghost predicate Constructed(s: State, atCert: Files, atKey: Files, atCertStamp: Files) {
    && atCert.Precedes(atKey) && atKey.Precedes(atCertStamp) && atCertStamp.Precedes(s.files)
    && atCert.cert == atKey.key == Half(s.current.pair)
    && s.loadedStamp == (if atCertStamp.certStamp > s.files.keyStamp then atCertStamp.certStamp else s.files.keyStamp)
    && s.lastCheck == s.time && s.gate.None? && s.threads == map[] && s.served == map[]
    && s.current.serial == 0 && s.installed == [s.current] && s.disposed == []
  }

  /** The stamp is the files' own, yet they hold another pair than the one served. */
  predicate Missed(s: State) {
    s.loadedStamp == s.files.LastWrite() && s.files.Match() && s.files.cert.pair != s.current.pair
  }

  /** The object handshakes share, updated in place one atomic step at a time. */
  class RotatingCertificate {
    var files: Files
    var time: nat
    var lastCheck: nat
    var current: Certificate
    var loadedStamp: nat
    var gate: Option<ThreadId>
    var threads: map<ThreadId, Thread>
    var served: map<ThreadId, Certificate>
    ghost var installed: seq<Certificate>
    ghost var disposed: seq<Certificate>
    var loads: nat

    ghost function View(): State
      reads this
    {
      State(files, time, lastCheck, current, loadedStamp, gate, threads, served, installed, disposed)
    }

    ghost predicate Counted()
      reads this
    {
      loads == |installed|
    }

    /** The constructor reads the certificate, the key and then the two stamps, and finds
        the files as they are at each of these reads.  Halves that do not match make it
        throw, and then there is no object. */
    constructor (atCert: Files, atKey: Files, atCertStamp: Files, atKeyStamp: Files, time: nat)
      requires atCert.cert.Half? && atCert.cert == atKey.key
      requires atCert.Precedes(atKey) && atKey.Precedes(atCertStamp) && atCertStamp.Precedes(atKeyStamp)
      ensures Constructed(View(), atCert, atKey, atCertStamp)
      ensures View().files == atKeyStamp && View().time == time && Counted()
    {
      this.files, this.time, lastCheck := atKeyStamp, time, time;
      current := Certificate(0, atCert.cert.pair);
      loadedStamp := if atCertStamp.certStamp > atKeyStamp.keyStamp then atCertStamp.certStamp else atKeyStamp.keyStamp;
      gate, threads, served := None, map[], map[];
      installed, disposed, loads := [Certificate(0, atCert.cert.pair)], [], 1;
    }

    /** A construction that may fail. */
    static method Open(atCert: Files, atKey: Files, atCertStamp: Files, atKeyStamp: Files, time: nat)
      returns (loaded: Option<RotatingCertificate>)
      requires atCert.Precedes(atKey) && atKey.Precedes(atCertStamp) && atCertStamp.Precedes(atKeyStamp)
      ensures loaded.Some? <==> atCert.cert.Half? && atCert.cert == atKey.key
      ensures loaded.Some? ==> fresh(loaded.value) && loaded.value.View().files == atKeyStamp
      ensures loaded.Some? ==> Constructed(loaded.value.View(), atCert, atKey, atCertStamp)
    {
      if atCert.cert.Half? && atCert.cert == atKey.key {
        var certificate := new RotatingCertificate(atCert, atKey, atCertStamp, atKeyStamp, time);
        loaded := Some(certificate);
      } else {
        loaded := None;
      }
    }

    /** One step of `Current`, or of `ReloadIfChanged` before it takes the lock. */
    method StepOutsideLock(t: ThreadId)
      requires Enabled(View(), Step(t)) && !threads[t].HoldsGate() && Counted()
      modifies this
      ensures View() == Apply(old(View()), Step(t)) && Counted()
    {
      match threads[t] {
        case Clocked(now) =>
          threads := threads[t := if now - lastCheck >= CHECK_INTERVAL_MS then Due(now) else Serving];
        case Due(now) =>
          lastCheck := now;
          threads := threads[t := Stamping];
        case Stamping =>
          threads := threads[t := HalfStamped(files.certStamp)];
        case HalfStamped(c) =>
          var k := files.keyStamp;
          threads := threads[t := Stamped(if c > k then c else k)];
        case Stamped(stamp) =>
          threads := threads[t := if stamp == loadedStamp then Serving else Waiting(stamp)];
        case Waiting(stamp) =>
          gate := Some(t);
          threads := threads[t := Entered(stamp)];
        case Serving =>
          threads, served := threads - {t}, served[t := current];
      }
    }

    /** One step of the locked part of `ReloadIfChanged`. */
    method StepInsideLock(t: ThreadId)
      requires Enabled(View(), Step(t)) && threads[t].HoldsGate() && Counted()
      modifies this
      ensures View() == Apply(old(View()), Step(t)) && Counted()
    {
      match threads[t] {
        case Entered(stamp) =>
          if stamp == loadedStamp {
            gate := None;
            threads := threads[t := Serving];
          } else {
            threads := threads[t := Loading(stamp)];
          }
        case Loading(stamp) =>
          threads := threads[t := HalfLoaded(stamp, files.cert)];
        case HalfLoaded(stamp, cert) =>
          if cert.Half? && cert == files.key {
            threads := threads[t := Loaded(stamp, Certificate(loads, cert.pair))];
          } else {
            gate := None;
            threads := threads[t := Serving];
          }
        case Loaded(stamp, renewed) =>
          threads := threads[t := Swapped(stamp, current)];
          current := renewed;
          installed, loads := installed + [renewed], loads + 1;
        case Swapped(stamp, previous) =>
          loadedStamp := stamp;
          threads := threads[t := Retiring(stamp, previous)];
        case Retiring(_, previous) =>
          disposed := disposed + [previous];
          gate := None;
          threads := threads[t := Serving];
      }
    }
  }

  datatype Run = Run(states: seq<State>, acts: seq<Action>)

  ghost predicate StepAt(h: Run, i: nat)
    requires i < |h.acts| < |h.states|
  {
    Enabled(h.states[i], h.acts[i]) && h.states[i + 1] == Apply(h.states[i], h.acts[i])
  }

  /** A history that begins with some constructor, whatever the writer did meanwhile. */
  ghost predicate Valid(h: Run) {
    && |h.states| == |h.acts| + 1
    && (exists a, b, c :: Constructed(h.states[0], a, b, c))
    && forall i :: 0 <= i < |h.acts| ==> StepAt(h, i)
  }

  // ---- Ownership: who has disposed what ---------------------------------------

  ghost predicate Exclusive(s: State) {
    && (forall t :: t in s.threads && s.threads[t].HoldsGate() ==> s.gate == Some(t))
    && (s.gate.Some? ==> s.gate.value in s.threads && s.threads[s.gate.value].HoldsGate())
  }

  /** The certificate the lock holder has replaced and not disposed of yet. */
  ghost function Pending(s: State): seq<Certificate>
    requires Exclusive(s)
  {
    if s.gate.None? then [] else
      match s.threads[s.gate.value]
      case Swapped(_, previous) => [previous]
      case Retiring(_, previous) => [previous]
      case _ => []
  }

  /** Retired certificates are disposed in the order they were installed. */
  ghost predicate Owned(s: State) {
    && Exclusive(s)
    && s.installed == s.disposed + Pending(s) + [s.current]
    && (forall i :: 0 <= i < |s.installed| ==> s.installed[i].serial == i)
    && (forall t :: t in s.threads && s.threads[t].Loaded? ==> s.threads[t].renewed.serial == |s.installed|)
  }

  /** Outside the lock a thread moves only itself, and takes the lock only if waiting. */
  lemma OutsideLockFrame(s: State, t: ThreadId)
    requires Enabled(s, Step(t)) && !s.threads[t].HoldsGate()
    ensures var n := Apply(s, Step(t));
      && n.files == s.files && n.current == s.current && n.loadedStamp == s.loadedStamp
      && n.installed == s.installed && n.disposed == s.disposed
      && (if s.threads[t].Waiting? then s.gate.None? && n.gate == Some(t) else n.gate == s.gate)
      && (forall u :: u != t ==> (u in n.threads <==> u in s.threads))
      && (forall u :: u != t && u in n.threads ==> n.threads[u] == s.threads[u])
      && (t in n.threads && !s.threads[t].Waiting? ==> !n.threads[t].HoldsGate())
      && (s.threads[t].Waiting? ==> t in n.threads && n.threads[t] == Entered(s.threads[t].stamp))
  {
  }

  lemma OwnedOutsideLock(s: State, t: ThreadId)
    requires Owned(s) && Enabled(s, Step(t)) && !s.threads[t].HoldsGate()
    ensures Owned(Apply(s, Step(t)))
  {
    OutsideLockFrame(s, t);
    hide Apply;
    var n := Apply(s, Step(t));
    assert Exclusive(n) && Pending(n) == Pending(s);
  }

  lemma OwnedInsideLock(s: State, t: ThreadId)
    requires Owned(s) && Enabled(s, Step(t)) && s.threads[t].HoldsGate()
    ensures Owned(Apply(s, Step(t)))
  {
    var n := Apply(s, Step(t));
    assert s.gate == Some(t);
    forall u | u in n.threads && u != t ensures !n.threads[u].HoldsGate() {
      assert n.threads[u] == s.threads[u];
    }
    assert Exclusive(n);
    assert n.installed == n.disposed + Pending(n) + [n.current];
  }

  lemma OwnedStep(s: State, a: Action)
    requires Owned(s) && Enabled(s, a)
    ensures Owned(Apply(s, a))
  {
    if a.Step? {
      if s.threads[a.t].HoldsGate() {
        OwnedInsideLock(s, a.t);
      } else {
        OwnedOutsideLock(s, a.t);
      }
    }
  }

  lemma {:induction false} AlwaysOwned(h: Run, i: nat)
    requires Valid(h) && i < |h.states|
    ensures Owned(h.states[i])
  {
    if i == 0 {
      var a, b, c :| Constructed(h.states[0], a, b, c);
      assert h.states[0].installed == [] + [] + [h.states[0].current];
    } else {
      AlwaysOwned(h, i - 1);
      assert StepAt(h, i - 1);
      OwnedStep(h.states[i - 1], h.acts[i - 1]);
    }
  }

  /** In every reachable state the certificate being served has not been disposed,
      and every other one that was ever installed has been disposed exactly once,
      or is the single one its replacer is about to dispose. */
  lemma DisposedExactlyOnce(h: Run, i: nat, c: Certificate)
    requires Valid(h) && i < |h.states|
    ensures Exclusive(h.states[i])
    ensures var s := h.states[i];
      && s.current !in s.disposed
      && multiset(s.disposed)[c] <= 1
      && (c in s.installed && c != s.current ==> (c in s.disposed <==> c !in Pending(s)))
      && (c in s.disposed ==> c in s.installed)
      && |Pending(s)| <= 1
  {
    AlwaysOwned(h, i);
    var s := h.states[i];
    var d := s.disposed;
    var p := Pending(s);
    forall k | 0 <= k < |d| ensures d[k].serial == k { assert s.installed[k] == d[k]; }
    forall k | 0 <= k < |p| ensures p[k].serial == |d| + k { assert s.installed[|d| + k] == p[k]; }
    assert s.installed[|s.installed| - 1] == s.current;
    OncePerSerial(d, c);
    if c in s.installed && c != s.current {
      var k :| 0 <= k < |s.installed| && s.installed[k] == c;
      assert k < |d| ==> d[k] == c;
      assert k >= |d| ==> k - |d| < |p| && p[k - |d|] == c;
    }
  }

  lemma {:induction false} OncePerSerial(d: seq<Certificate>, c: Certificate)
    requires forall k :: 0 <= k < |d| ==> d[k].serial == k
    ensures multiset(d)[c] <= 1
  {
    if d != [] {
      var front, last := d[..|d| - 1], d[|d| - 1];
      assert d == front + [last];
      OncePerSerial(front, c);
      if c == last {
        assert c !in front;
      }
    }
  }

  // ---- What a handshake is handed ----------------------------------------------

  /** The certificate handed out is the current one, and it has not been disposed. */
  lemma ServedUndisposed(h: Run, k: nat, t: ThreadId)
    requires Valid(h) && k < |h.acts| && h.acts[k] == Step(t)
    requires t in h.states[k].threads && h.states[k].threads[t].Serving?
    ensures var n := h.states[k + 1];
      t in n.served && n.served[t] == h.states[k].current && n.served[t] !in n.disposed
  {
    assert StepAt(h, k);
    DisposedExactlyOnce(h, k, h.states[k].current);
  }

  ghost predicate ServedInstalled(s: State) {
    forall t :: t in s.served ==> s.served[t] in s.installed
  }

  lemma ServedStep(s: State, a: Action)
    requires ServedInstalled(s) && s.current in s.installed && Enabled(s, a)
    ensures ServedInstalled(Apply(s, a))
  {
  }

  lemma {:induction false} AlwaysServedInstalled(h: Run, i: nat)
    requires Valid(h) && i < |h.states|
    ensures ServedInstalled(h.states[i])
  {
    if i > 0 {
      AlwaysServedInstalled(h, i - 1);
      AlwaysOwned(h, i - 1);
      CurrentIsInstalled(h.states[i - 1]);
      hide Apply, Owned, ServedInstalled;
      assert StepAt(h, i - 1);
      ServedStep(h.states[i - 1], h.acts[i - 1]);
    } else {
      var a, b, c :| Constructed(h.states[0], a, b, c);
    }
  }

  lemma CurrentIsInstalled(s: State)
    requires Owned(s)
    ensures s.current in s.installed
  {
    assert s.installed[|s.installed| - 1] == s.current;
  }

  /** It is disposed under a handshake that still holds it exactly once another has become
      current and its replacer is through with it. */
  lemma ServedDisposedIff(h: Run, i: nat, t: ThreadId)
    requires Valid(h) && i < |h.states| && t in h.states[i].served
    ensures Exclusive(h.states[i])
    ensures var s := h.states[i];
      s.served[t] in s.disposed <==> s.served[t] != s.current && s.served[t] !in Pending(s)
  {
    AlwaysServedInstalled(h, i);
    AlwaysOwned(h, i);
    DisposedExactlyOnce(h, i, h.states[i].served[t]);
    if h.states[i].served[t] in Pending(h.states[i]) {
      PendingIsUndisposed(h.states[i], h.states[i].served[t]);
    }
  }

  lemma PendingIsUndisposed(s: State, c: Certificate)
    requires Owned(s) && c in Pending(s)
    ensures c !in s.disposed
  {
    var d, p := s.disposed, Pending(s);
    var k :| 0 <= k < |p| && p[k] == c;
    assert s.installed[|d| + k] == c;
    forall m | 0 <= m < |d| ensures d[m] != c {
      assert s.installed[m] == d[m];
    }
  }

  // ---- Provenance: what was installed was read from the files ------------------

  /** Thread t read both halves of `pair`, the certificate at step a and the key at step b. */
  ghost predicate Loads(h: Run, t: ThreadId, a: nat, b: nat, pair: PairId)
    requires Valid(h)
  {
    && a < b < |h.acts| && h.acts[a] == h.acts[b] == Step(t)
    && t in h.states[a].threads && h.states[a].threads[t].Loading? && h.states[a].files.cert == Half(pair)
    && t in h.states[b].threads && h.states[b].threads[t].HalfLoaded? && h.states[b].files.key == Half(pair)
  }

  predicate LoadedBy(s: State, before: Thread, after: Thread) {
    || (before.Loading? && after.HalfLoaded? && after.cert == s.files.cert)
    || (before.HalfLoaded? && after.Loaded? && before.cert == s.files.key == Half(after.renewed.pair))
  }

  /** How a thread comes to hold one half, and then both. */
  lemma LoadStep(s: State, a: Action, t: ThreadId)
    requires Enabled(s, a) && t in Apply(s, a).threads
    ensures var th := Apply(s, a).threads[t];
      (th.HalfLoaded? || th.Loaded?) ==>
        && t in s.threads
        && (s.threads[t] == th || (a == Step(t) && LoadedBy(s, s.threads[t], th)))
  {
    if a != Step(t) && a != Arrive(t) {
      OtherThread(s, a, t);
    }
  }

  lemma OtherThread(s: State, a: Action, t: ThreadId)
    requires Enabled(s, a) && a != Step(t) && a != Arrive(t)
    ensures t in Apply(s, a).threads <==> t in s.threads
    ensures t in s.threads ==> Apply(s, a).threads[t] == s.threads[t]
  {
    if a.Step? && !s.threads[a.t].HoldsGate() {
      OutsideLockFrame(s, a.t);
    }
  }

  lemma {:induction false} HalfWasRead(h: Run, i: nat, t: ThreadId) returns (a: nat)
    requires Valid(h) && i < |h.states| && t in h.states[i].threads && h.states[i].threads[t].HalfLoaded?
    ensures a < i && h.acts[a] == Step(t) && t in h.states[a].threads && h.states[a].threads[t].Loading?
    ensures h.states[a].files.cert == h.states[i].threads[t].cert
  {
    assert i != 0;
    hide Apply;
    assert StepAt(h, i - 1);
    LoadStep(h.states[i - 1], h.acts[i - 1], t);
    if h.states[i - 1].threads[t].Loading? {
      a := i - 1;
    } else {
      a := HalfWasRead(h, i - 1, t);
    }
  }

  lemma {:induction false} PairWasRead(h: Run, i: nat, t: ThreadId) returns (a: nat, b: nat)
    requires Valid(h) && i < |h.states| && t in h.states[i].threads && h.states[i].threads[t].Loaded?
    ensures b < i && Loads(h, t, a, b, h.states[i].threads[t].renewed.pair)
  {
    assert i != 0;
    hide Apply;
    assert StepAt(h, i - 1);
    LoadStep(h.states[i - 1], h.acts[i - 1], t);
    if h.states[i - 1].threads[t].HalfLoaded? {
      b := i - 1;
      a := HalfWasRead(h, b, t);
    } else {
      a, b := PairWasRead(h, i - 1, t);
    }
  }

  /** Every certificate ever installed after the first came from a load that read
      two matching halves; a load that failed installed nothing. */
  lemma {:induction false} InstalledWasLoaded(h: Run, i: nat, k: nat) returns (t: ThreadId, a: nat, b: nat)
    requires Valid(h) && i < |h.states| && 0 < k < |h.states[i].installed|
    ensures b < i && Loads(h, t, a, b, h.states[i].installed[k].pair)
  {
    assert i != 0;
    assert StepAt(h, i - 1);
    if k < |h.states[i - 1].installed| {
      t, a, b := InstalledWasLoaded(h, i - 1, k);
    } else {
      t := h.acts[i - 1].t;
      a, b := PairWasRead(h, i - 1, t);
    }
  }

  // ---- Convergence: the files win ---------------------------------------------

  /** The certificate, and whatever the lock holder has read so far, agree with
      the files. */
  ghost predicate Settled(s: State) {
    && s.files.Match() && s.current.pair == s.files.cert.pair
    && (forall t :: t in s.threads && s.threads[t].HalfLoaded? ==> s.threads[t].cert == s.files.cert)
    && (forall t :: t in s.threads && s.threads[t].Loaded? ==> s.threads[t].renewed.pair == s.files.cert.pair)
  }

  /** A thread whose stamp is the last write's, or who came in after it was
      recorded, has read only what the files hold now. */
  predicate FreshThread(files: Files, loadedStamp: nat, pair: PairId, th: Thread) {
    var last := files.LastWrite();
    match th
    case HalfStamped(c) => c <= files.certStamp
    case Stamped(stamp) => stamp <= last
    case Waiting(stamp) => stamp <= last
    case Entered(stamp) => stamp <= last
    case Loading(stamp) => stamp <= last
    case HalfLoaded(stamp, cert) =>
      stamp <= last && (stamp == last || loadedStamp == last ==> cert == files.cert)
    case Loaded(stamp, renewed) =>
      stamp <= last && (stamp == last || loadedStamp == last ==> files.Match() ==> files.cert == Half(renewed.pair))
    case Swapped(stamp, _) =>
      stamp <= last && (stamp == last ==> files.Match() ==> files.cert == Half(pair))
    case Retiring(stamp, _) => stamp <= last && stamp == loadedStamp
    case _ => true
  }

  ghost predicate FreshAt(s: State, t: ThreadId) {
    t in s.threads ==> FreshThread(s.files, s.loadedStamp, s.current.pair, s.threads[t])
  }

  ghost predicate Fresh(s: State) {
    && Exclusive(s)
    && s.loadedStamp <= s.files.LastWrite()
    && !Missed(s)
    && forall t :: FreshAt(s, t)
  }

  /** A write makes every stamp taken before it old. */
  lemma FreshAfterWrite(s: State, a: Action)
    requires Fresh(s) && Enabled(s, a) && a.Write()
    ensures Fresh(Apply(s, a))
  {
    forall t ensures FreshAt(Apply(s, a), t) {
      assert FreshAt(s, t);
    }
  }

  lemma FreshOutsideLock(s: State, t: ThreadId)
    requires Fresh(s) && Enabled(s, Step(t)) && !s.threads[t].HoldsGate()
    ensures Fresh(Apply(s, Step(t)))
  {
    OutsideLockFrame(s, t);
    assert FreshAt(s, t);
    FreshOwnStep(s, t);
    hide Apply, FreshThread;
    var n := Apply(s, Step(t));
    forall u ensures FreshAt(n, u) {
      assert FreshAt(s, u);
    }
  }

  lemma FreshOwnStep(s: State, t: ThreadId)
    requires Enabled(s, Step(t)) && !s.threads[t].HoldsGate() && FreshAt(s, t) && s.loadedStamp <= s.files.LastWrite()
    ensures FreshAt(Apply(s, Step(t)), t)
  {
  }

  lemma FreshInsideLock(s: State, t: ThreadId)
    requires Fresh(s) && Enabled(s, Step(t)) && s.threads[t].HoldsGate()
    ensures Fresh(Apply(s, Step(t)))
  {
    var n := Apply(s, Step(t));
    assert FreshAt(s, t) && s.gate == Some(t);
    forall u ensures FreshAt(n, u) && (u != t && u in n.threads ==> !n.threads[u].HoldsGate()) {
      assert FreshAt(s, u);
      assert u != t && u in n.threads ==> n.threads[u] == s.threads[u] && !s.threads[u].HoldsGate();
    }
  }

  lemma FreshStep(s: State, a: Action)
    requires Fresh(s) && Enabled(s, a)
    ensures Fresh(Apply(s, a))
  {
    if a.Write() {
      FreshAfterWrite(s, a);
    } else if a.Step? {
      if s.threads[a.t].HoldsGate() {
        FreshInsideLock(s, a.t);
      } else {
        FreshOutsideLock(s, a.t);
      }
    } else {
      forall t ensures FreshAt(Apply(s, a), t) {
        assert FreshAt(s, t);
      }
    }
  }

  lemma {:induction false} AlwaysFresh(h: Run, i: nat, j: nat)
    requires Valid(h) && i <= j < |h.states| && Fresh(h.states[i])
    ensures Fresh(h.states[j])
  {
    hide Apply, FreshAt, Exclusive, Missed;
    if i < j {
      AlwaysFresh(h, i, j - 1);
      assert StepAt(h, j - 1);
      FreshStep(h.states[j - 1], h.acts[j - 1]);
    }
  }

  lemma StartsFresh(h: Run)
    requires Valid(h) && !Missed(h.states[0])
    ensures Fresh(h.states[0])
  {
    var a, b, c :| Constructed(h.states[0], a, b, c);
    assert forall t :: FreshAt(h.states[0], t);
  }

  ghost predicate NoWritesFrom(h: Run, i: nat) {
    forall n :: i <= n < |h.acts| ==> !h.acts[n].Write()
  }

  lemma SettledStep(s: State, a: Action)
    requires Settled(s) && Enabled(s, a) && !a.Write()
    ensures Settled(Apply(s, a))
  {
  }

  lemma {:induction false} SettledForever(h: Run, i: nat, j: nat)
    requires Valid(h) && i <= j < |h.states| && NoWritesFrom(h, i) && Settled(h.states[i])
    ensures Settled(h.states[j]) && h.states[j].files == h.states[i].files
  {
    if i < j {
      SettledForever(h, i, j - 1);
      assert StepAt(h, j - 1);
      SettledStep(h.states[j - 1], h.acts[j - 1]);
    }
  }

  /** Thread t is in a check whose stamp was taken from the present files. */
  ghost predicate Checking(s: State, t: ThreadId) {
    t in s.threads &&
    match s.threads[t]
    case HalfStamped(c) => c == s.files.certStamp
    case Stamped(stamp) => stamp == s.files.LastWrite()
    case Waiting(stamp) => stamp == s.files.LastWrite()
    case Entered(stamp) => stamp == s.files.LastWrite()
    case Loading(stamp) => stamp == s.files.LastWrite()
    case HalfLoaded(stamp, _) => stamp == s.files.LastWrite()
    case Loaded(stamp, _) => stamp == s.files.LastWrite()
    case Swapped(stamp, _) => stamp == s.files.LastWrite()
    case Retiring(stamp, _) => stamp == s.files.LastWrite()
    case _ => false
  }

  /** A check of the present, matching files goes on or leaves everything settled. */
  lemma CheckSettles(s: State, a: Action, t: ThreadId)
    requires Fresh(s) && s.files.Match() && Checking(s, t)
    requires Enabled(s, a) && !a.Write()
    ensures Checking(Apply(s, a), t) || Settled(Apply(s, a))
  {
    if a == Step(t) && s.threads[t].HoldsGate() {
      LockedCheckSettles(s, t);
    } else if a == Step(t) {
      OutsideCheckSettles(s, t);
    }
  }

  lemma OutsideCheckSettles(s: State, t: ThreadId)
    requires Fresh(s) && s.files.Match() && Checking(s, t)
    requires Enabled(s, Step(t)) && !s.threads[t].HoldsGate()
    ensures Checking(Apply(s, Step(t)), t) || Settled(Apply(s, Step(t)))
  {
    OutsideLockFrame(s, t);
    assert FreshAt(s, t);
    if s.threads[t].Stamped? && s.threads[t].stamp == s.loadedStamp {
      forall u | u in s.threads && u != t ensures FreshAt(s, u) {}
    }
  }

  lemma LockedCheckSettles(s: State, t: ThreadId)
    requires Fresh(s) && s.files.Match() && Checking(s, t)
    requires Enabled(s, Step(t)) && s.threads[t].HoldsGate()
    ensures Checking(Apply(s, Step(t)), t) || Settled(Apply(s, Step(t)))
  {
    assert FreshAt(s, t) && s.gate == Some(t);
    assert forall u :: u in s.threads && u != t ==> !s.threads[u].HoldsGate();
  }

  /** Thread t has begun stamping at step i and is past its check at step j. */
  ghost predicate ChecksBetween(h: Run, t: ThreadId, i: nat, j: nat) {
    && i < j < |h.states| == |h.acts| + 1
    && h.acts[i] == Step(t) && t in h.states[i].threads && h.states[i].threads[t].Stamping?
    && (t in h.states[j].threads ==> h.states[j].threads[t].Serving?)
  }

  lemma {:induction false} CheckingUntilSettled(h: Run, t: ThreadId, i: nat, j: nat)
    requires Valid(h) && NoWritesFrom(h, i) && i < j < |h.states| && Fresh(h.states[i])
    requires h.acts[i] == Step(t) && t in h.states[i].threads && h.states[i].threads[t].Stamping?
    requires h.states[i].files.Match()
    ensures Checking(h.states[j], t) || Settled(h.states[j])
    ensures h.states[j].files == h.states[i].files
  {
    assert StepAt(h, j - 1);
    if i + 1 < j {
      CheckingUntilSettled(h, t, i, j - 1);
      if Settled(h.states[j - 1]) {
        SettledStep(h.states[j - 1], h.acts[j - 1]);
      } else {
        AlwaysFresh(h, i, j - 1);
        hide Apply, Checking, Settled;
        CheckSettles(h.states[j - 1], h.acts[j - 1], t);
      }
    }
  }

  // ---- When a check is due -----------------------------------------------------

  /** Thread t steps at k with the time it has noted, `now`. */
  ghost predicate ReadsClock(h: Run, t: ThreadId, k: nat, now: nat)
    requires Valid(h)
  {
    k < |h.acts| && h.acts[k] == Step(t) && t in h.states[k].threads && h.states[k].threads[t] == Clocked(now)
  }

  /** Thread t takes its first stamp at step k. */
  ghost predicate BeginsStamping(h: Run, t: ThreadId, k: nat)
    requires Valid(h)
  {
    k < |h.acts| && h.acts[k] == Step(t) && t in h.states[k].threads && h.states[k].threads[t].Stamping?
  }

  ghost predicate Past(h: Run, t: ThreadId, j: nat)
    requires j < |h.states|
  {
    t !in h.states[j].threads && t in h.states[j].served
  }

  lemma ClockStep(s: State, t: ThreadId, now: nat)
    requires Enabled(s, Step(t)) && s.threads[t] == Clocked(now)
    ensures var n := Apply(s, Step(t));
      && t in n.threads && n.threads[t] == (if now - s.lastCheck >= 1000 then Due(now) else Serving)
      && n == s.(threads := n.threads)
  {
  }

  lemma DueStep(s: State, t: ThreadId, now: nat)
    requires Enabled(s, Step(t)) && s.threads[t] == Due(now)
    ensures var n := Apply(s, Step(t));
      t in n.threads && n.threads[t] == Stamping && n.lastCheck == now
      && n == s.(threads := n.threads, lastCheck := now)
  {
  }

  lemma ServeStep(s: State, t: ThreadId)
    requires Enabled(s, Step(t)) && s.threads[t] == Serving
    ensures var n := Apply(s, Step(t));
      t !in n.threads && t in n.served && n.served[t] == s.current
  {
  }

  lemma ServedStays(s: State, a: Action, t: ThreadId)
    requires Enabled(s, a) && t !in s.threads && t in s.served
    ensures t !in Apply(s, a).threads && t in Apply(s, a).served
  {
  }

  /** From the clock to its stamp a due thread waits, moves the time of the last check to
      the time it noted, and then stamps. */
  ghost predicate OnItsWay(h: Run, t: ThreadId, k: nat, j: nat, now: nat)
    requires Valid(h) && j < |h.states|
  {
    || (t in h.states[j].threads && h.states[j].threads[t] == Due(now))
    || (t in h.states[j].threads && h.states[j].threads[t] == Stamping && MovedBetween(h, t, k, j, now))
    || exists b: nat :: k < b < j && BeginsStamping(h, t, b) && MovedBetween(h, t, k, b, now)
  }

  /** At a step of thread t between k and j the time of the last check became `now`. */
  ghost predicate MovedBetween(h: Run, t: ThreadId, k: nat, j: nat, now: nat)
    requires Valid(h) && j < |h.states|
  {
    exists m: nat :: k < m < j && h.acts[m] == Step(t) && h.states[m + 1].lastCheck == now
  }

  lemma {:induction false} DueGoesOn(h: Run, t: ThreadId, k: nat, j: nat, now: nat)
    requires Valid(h) && ReadsClock(h, t, k, now) && k < j < |h.states|
    requires now - h.states[k].lastCheck >= 1000
    ensures OnItsWay(h, t, k, j, now)
  {
    hide Apply;
    assert StepAt(h, j - 1);
    var s, a := h.states[j - 1], h.acts[j - 1];
    if j == k + 1 {
      ClockStep(s, t, now);
    } else {
      DueGoesOn(h, t, k, j - 1, now);
      if t in s.threads && s.threads[t] == Due(now) {
        if a == Step(t) {
          DueStep(s, t, now);
          assert h.states[j - 1 + 1].lastCheck == now;
          assert MovedBetween(h, t, k, j, now);
        } else {
          OthersLeave(s, a, t);
        }
      } else if t in s.threads && s.threads[t] == Stamping && MovedBetween(h, t, k, j - 1, now) {
        if a == Step(t) {
          assert BeginsStamping(h, t, j - 1);
        } else {
          OthersLeave(s, a, t);
          MovedStays(h, t, k, j - 1, now);
        }
      }
    }
  }

  lemma MovedStays(h: Run, t: ThreadId, k: nat, j: nat, now: nat)
    requires Valid(h) && j + 1 < |h.states| && MovedBetween(h, t, k, j, now)
    ensures MovedBetween(h, t, k, j + 1, now)
  {
    var m: nat :| k < m < j && h.acts[m] == Step(t) && h.states[m + 1].lastCheck == now;
    assert h.acts[m] == Step(t);
  }

  lemma OthersLeave(s: State, a: Action, t: ThreadId)
    requires Enabled(s, a) && a != Step(t) && t in s.threads
    ensures t in Apply(s, a).threads && Apply(s, a).threads[t] == s.threads[t]
  {
    if a != Arrive(t) {
      OtherThread(s, a, t);
    }
  }

  /** A thread that is not due only waits to be served. */
  lemma {:induction false} NotDueIsServed(h: Run, t: ThreadId, k: nat, j: nat, now: nat)
    requires Valid(h) && ReadsClock(h, t, k, now) && k < j < |h.states|
    requires now - h.states[k].lastCheck < 1000
    ensures (t in h.states[j].threads && h.states[j].threads[t] == Serving) || Past(h, t, j)
  {
    hide Apply;
    assert StepAt(h, j - 1);
    var s, a := h.states[j - 1], h.acts[j - 1];
    if j == k + 1 {
      ClockStep(s, t, now);
    } else {
      NotDueIsServed(h, t, k, j - 1, now);
      if Past(h, t, j - 1) {
        ServedStays(s, a, t);
      } else if a == Step(t) {
        ServeStep(s, t);
      } else {
        OthersLeave(s, a, t);
      }
    }
  }

  /** In every run, a handshake that looks at the clock and is served in the end has
      stamped the files in between exactly if a second or more had gone by since the last
      check, and the time it noted then became the time of the last check. */
  lemma ChecksIffASecondIsOver(h: Run, t: ThreadId, k: nat, j: nat, now: nat)
    requires Valid(h) && ReadsClock(h, t, k, now) && k < j < |h.states| && t !in h.states[j].threads
    ensures (exists b: nat :: k < b < j && BeginsStamping(h, t, b)) <==> now - h.states[k].lastCheck >= 1000
    ensures now - h.states[k].lastCheck >= 1000 ==> MovedBetween(h, t, k, j, now)
  {
    hide Apply;
    if now - h.states[k].lastCheck >= 1000 {
      DueGoesOn(h, t, k, j, now);
      var b: nat :| k < b < j && BeginsStamping(h, t, b) && MovedBetween(h, t, k, b, now);
      var m: nat :| k < m < b && h.acts[m] == Step(t) && h.states[m + 1].lastCheck == now;
      assert h.acts[m] == Step(t);
    } else {
      forall b: nat | k < b < j ensures !BeginsStamping(h, t, b) {
        NotDueIsServed(h, t, k, b, now);
      }
    }
  }

  // ---- A handshake that nobody interrupts ----------------------------------------

  /** `k` steps of thread t in a row. */
  function Alone(s: State, t: ThreadId, k: nat): State {
    if k == 0 then s
    else
      var before := Alone(s, t, k - 1);
      if Enabled(before, Step(t)) then Apply(before, Step(t)) else before
  }

  lemma {:induction false} AloneOnward(s: State, t: ThreadId, j: nat, k: nat)
    ensures Alone(s, t, j + k) == Alone(Alone(s, t, j), t, k)
  {
    hide Apply, Enabled;
    if k > 0 {
      AloneOnward(s, t, j, k - 1);
    }
  }

  lemma GotoTwice(b: State, t: ThreadId, x: Thread, y: Thread)
    ensures Goto(Goto(b, t, x), t, y) == Goto(b, t, y)
  {
    assert b.threads[t := x][t := y] == b.threads[t := y];
  }

  lemma NotesDue(b: State, t: ThreadId, now: nat)
    ensures Apply(Goto(b, t, Clocked(now)), Step(t)) ==
      Goto(b, t, if now - b.lastCheck >= 1000 then Due(now) else Serving)
    ensures Apply(Goto(b, t, Due(now)), Step(t)) == Goto(b.(lastCheck := now), t, Stamping)
  {
    var c := b.(lastCheck := now);
    GotoTwice(b, t, Clocked(now), if now - b.lastCheck >= 1000 then Due(now) else Serving);
    GotoTwice(c, t, Due(now), Stamping);
  }

  lemma TakesStamps(b: State, t: ThreadId)
    ensures var f := b.files;
      var stamp := if f.certStamp > f.keyStamp then f.certStamp else f.keyStamp;
      && Apply(Goto(b, t, Stamping), Step(t)) == Goto(b, t, HalfStamped(f.certStamp))
      && Apply(Goto(b, t, HalfStamped(f.certStamp)), Step(t)) == Goto(b, t, Stamped(stamp))
  {
    var f := b.files;
    var stamp := if f.certStamp > f.keyStamp then f.certStamp else f.keyStamp;
    GotoTwice(b, t, Stamping, HalfStamped(f.certStamp));
    GotoTwice(b, t, HalfStamped(f.certStamp), Stamped(stamp));
  }

  lemma ComparesStamp(b: State, t: ThreadId, stamp: nat)
    ensures Apply(Goto(b, t, Stamped(stamp)), Step(t)) ==
      Goto(b, t, if stamp == b.loadedStamp then Serving else Waiting(stamp))
  {
    GotoTwice(b, t, Stamped(stamp), if stamp == b.loadedStamp then Serving else Waiting(stamp));
  }

  lemma StepAlone(s: State, t: ThreadId, k: nat, b: State, at: Thread, next: State)
    requires Alone(s, t, k) == Goto(b, t, at) && !at.Waiting?
    requires Enabled(Goto(b, t, at), Step(t)) ==> Apply(Goto(b, t, at), Step(t)) == next
    ensures Alone(s, t, k + 1) == next
  {
    hide Apply;
  }

  /** From the clock to the first comparison of stamps. */
  lemma ChecksAlone(b: State, t: ThreadId, now: nat)
    requires now - b.lastCheck >= 1000
    ensures var stamp := if b.files.certStamp > b.files.keyStamp then b.files.certStamp else b.files.keyStamp;
      Alone(Goto(b, t, Clocked(now)), t, 5) ==
        Goto(b.(lastCheck := now), t, if stamp == b.loadedStamp then Serving else Waiting(stamp))
  {
    var c := b.(lastCheck := now);
    var f := b.files;
    var stamp := if f.certStamp > f.keyStamp then f.certStamp else f.keyStamp;
    var s := Goto(b, t, Clocked(now));
    assert Alone(s, t, 0) == s;
    hide Apply, Alone, Goto;
    NotesDue(b, t, now);
    TakesStamps(c, t);
    ComparesStamp(c, t, stamp);
    StepAlone(s, t, 0, b, Clocked(now), Goto(b, t, Due(now)));
    StepAlone(s, t, 1, b, Due(now), Goto(c, t, Stamping));
    StepAlone(s, t, 2, c, Stamping, Goto(c, t, HalfStamped(f.certStamp)));
    StepAlone(s, t, 3, c, HalfStamped(f.certStamp), Goto(c, t, Stamped(stamp)));
    StepAlone(s, t, 4, c, Stamped(stamp),
      Goto(c, t, if stamp == c.loadedStamp then Serving else Waiting(stamp)));
  }

  /** Under the lock: one more comparison, which finds nothing new, and the two reads. */
  lemma LoadsAlone(b: State, t: ThreadId, stamp: nat)
    requires b.gate.None? && stamp != b.loadedStamp
    ensures Alone(Goto(b, t, Waiting(stamp)), t, 4) ==
      if b.files.cert.Half? && b.files.cert == b.files.key
      then Goto(b.(gate := Some(t)), t, Loaded(stamp, Certificate(|b.installed|, b.files.cert.pair)))
      else Goto(b, t, Serving)
  {
    var c, f := b.(gate := Some(t)), b.files;
    var s0, s1, s2 := Goto(b, t, Waiting(stamp)), Goto(c, t, Entered(stamp)), Goto(c, t, Loading(stamp));
    var s3 := Goto(c, t, HalfLoaded(stamp, f.cert));
    var s4 := if f.cert.Half? && f.cert == f.key
      then Goto(c, t, Loaded(stamp, Certificate(|b.installed|, f.cert.pair))) else Goto(b, t, Serving);
    GotoTwice(c, t, Waiting(stamp), Entered(stamp));
    GotoTwice(c, t, Entered(stamp), Loading(stamp));
    GotoTwice(c, t, Loading(stamp), HalfLoaded(stamp, f.cert));
    GotoTwice(c, t, HalfLoaded(stamp, f.cert), s4.threads[t]);
    assert Apply(s0, Step(t)) == s1 && Apply(s1, Step(t)) == s2 && Apply(s2, Step(t)) == s3;
    assert Apply(s3, Step(t)) == s4;
    hide Apply;
    assert Alone(s0, t, 0) == s0 && Alone(s0, t, 1) == s1 && Alone(s0, t, 2) == s2 && Alone(s0, t, 3) == s3;
  }

  /** A certificate swapped in, its stamp recorded and the former one disposed. */
  function Replaced(b: State, stamp: nat, renewed: Certificate): State {
    b.(gate := None, current := renewed, loadedStamp := stamp,
       installed := b.installed + [renewed], disposed := b.disposed + [b.current])
  }

  lemma SwapsAlone(b: State, t: ThreadId, stamp: nat, renewed: Certificate)
    ensures Alone(Goto(b.(gate := Some(t)), t, Loaded(stamp, renewed)), t, 3) ==
      Goto(Replaced(b, stamp, renewed), t, Serving)
  {
    var g := b.(gate := Some(t));
    var c := g.(current := renewed, installed := b.installed + [renewed]);
    var d := c.(loadedStamp := stamp);
    var e := d.(gate := None, disposed := b.disposed + [b.current]);
    var s0, s1 := Goto(g, t, Loaded(stamp, renewed)), Goto(c, t, Swapped(stamp, b.current));
    var s2, s3 := Goto(d, t, Retiring(stamp, b.current)), Goto(e, t, Serving);
    GotoTwice(c, t, Loaded(stamp, renewed), Swapped(stamp, b.current));
    GotoTwice(d, t, Swapped(stamp, b.current), Retiring(stamp, b.current));
    GotoTwice(e, t, Retiring(stamp, b.current), Serving);
    assert Apply(s0, Step(t)) == s1 && Apply(s1, Step(t)) == s2 && Apply(s2, Step(t)) == s3;
    hide Apply;
    assert Alone(s0, t, 0) == s0 && Alone(s0, t, 1) == s1 && Alone(s0, t, 2) == s2;
  }

  lemma ServedAlone(b: State, t: ThreadId)
    requires t !in b.threads
    ensures Alone(Goto(b, t, Serving), t, 1) == b.(served := b.served[t := b.current])
  {
    assert b.threads[t := Serving] - {t} == b.threads;
    assert Alone(Goto(b, t, Serving), t, 0) == Goto(b, t, Serving);
  }

  lemma NotDueAlone(s: State, t: ThreadId)
    requires t !in s.threads && s.time - s.lastCheck < 1000
    ensures Alone(Goto(s, t, Clocked(s.time)), t, 2) == s.(served := s.served[t := s.current])
  {
    var start := Goto(s, t, Clocked(s.time));
    assert Alone(start, t, 0) == start;
    hide Apply, Alone, Goto;
    NotesDue(s, t, s.time);
    StepAlone(start, t, 0, s, Clocked(s.time), Goto(s, t, Serving));
    AloneOnward(start, t, 1, 1);
    ServedAlone(s, t);
  }

  lemma NothingNewAlone(s: State, t: ThreadId)
    requires t !in s.threads && s.time - s.lastCheck >= 1000
    requires s.loadedStamp == if s.files.certStamp > s.files.keyStamp then s.files.certStamp else s.files.keyStamp
    ensures Alone(Goto(s, t, Clocked(s.time)), t, 6) == s.(lastCheck := s.time, served := s.served[t := s.current])
  {
    hide Apply, Alone, Goto;
    ChecksAlone(s, t, s.time);
    AloneOnward(Goto(s, t, Clocked(s.time)), t, 5, 1);
    ServedAlone(s.(lastCheck := s.time), t);
  }

  lemma FailsAlone(s: State, t: ThreadId)
    requires t !in s.threads && s.gate.None? && s.time - s.lastCheck >= 1000
    requires s.loadedStamp != if s.files.certStamp > s.files.keyStamp then s.files.certStamp else s.files.keyStamp
    requires !(s.files.cert.Half? && s.files.key == s.files.cert)
    ensures Alone(Goto(s, t, Clocked(s.time)), t, 10) == s.(lastCheck := s.time, served := s.served[t := s.current])
  {
    var f, start, c := s.files, Goto(s, t, Clocked(s.time)), s.(lastCheck := s.time);
    var stamp := if f.certStamp > f.keyStamp then f.certStamp else f.keyStamp;
    hide Apply, Alone, Goto;
    ChecksAlone(s, t, s.time);
    AloneOnward(start, t, 5, 4);
    LoadsAlone(c, t, stamp);
    AloneOnward(start, t, 9, 1);
    ServedAlone(c, t);
  }

  lemma LoadedAlone(s: State, t: ThreadId, stamp: nat)
    requires s.gate.None? && s.time - s.lastCheck >= 1000 && stamp != s.loadedStamp
    requires stamp == if s.files.certStamp > s.files.keyStamp then s.files.certStamp else s.files.keyStamp
    requires s.files.cert.Half? && s.files.key == s.files.cert
    ensures Alone(Goto(s, t, Clocked(s.time)), t, 9) ==
      Goto(s.(lastCheck := s.time, gate := Some(t)), t,
           Loaded(stamp, Certificate(|s.installed|, s.files.cert.pair)))
  {
    hide Apply, Alone, Goto;
    ChecksAlone(s, t, s.time);
    AloneOnward(Goto(s, t, Clocked(s.time)), t, 5, 4);
    LoadsAlone(s.(lastCheck := s.time), t, stamp);
  }

  lemma ReplacedAlone(start: State, b: State, t: ThreadId, stamp: nat, renewed: Certificate)
    requires t !in b.threads && Alone(start, t, 9) == Goto(b.(gate := Some(t)), t, Loaded(stamp, renewed))
    ensures Alone(start, t, 13) == Replaced(b, stamp, renewed).(served := b.served[t := renewed])
  {
    hide Apply, Alone, Goto;
    AloneOnward(start, t, 9, 3);
    SwapsAlone(b, t, stamp, renewed);
    AloneOnward(start, t, 12, 1);
    ServedAlone(Replaced(b, stamp, renewed), t);
  }

  lemma ReloadsAlone(s: State, t: ThreadId, stamp: nat)
    requires t !in s.threads && s.gate.None? && s.time - s.lastCheck >= 1000 && stamp != s.loadedStamp
    requires stamp == if s.files.certStamp > s.files.keyStamp then s.files.certStamp else s.files.keyStamp
    requires s.files.cert.Half? && s.files.key == s.files.cert
    ensures var renewed := Certificate(|s.installed|, s.files.cert.pair);
      Alone(Goto(s, t, Clocked(s.time)), t, 13) == s.(
        lastCheck := s.time, current := renewed, loadedStamp := stamp,
        installed := s.installed + [renewed], disposed := s.disposed + [s.current], served := s.served[t := renewed])
  {
    hide Apply, Alone, Goto;
    LoadedAlone(s, t, stamp);
    ReplacedAlone(Goto(s, t, Clocked(s.time)), s.(lastCheck := s.time), t, stamp,
      Certificate(|s.installed|, s.files.cert.pair));
  }

  /** `Current`, read by one thread while nothing else happens: it throttles by the second,
      compares the later of the two stamps with the recorded one, reloads only matching
      halves, and then replaces, records and disposes; in every other case it changes no
      more than the time of the check.  Atomic steps that nobody interrupts are the getter. */
  lemma UninterruptedHandshake(s: State, t: ThreadId) returns (k: nat)
    requires t !in s.threads && t !in s.served && s.gate.None?
    ensures var f := s.files;
      var due := s.time - s.lastCheck >= 1000;
      var stamp := if f.certStamp > f.keyStamp then f.certStamp else f.keyStamp;
      var reload := due && stamp != s.loadedStamp && f.cert.Half? && f.key == f.cert;
      var renewed := if reload then Certificate(|s.installed|, f.cert.pair) else s.current;
      Alone(Apply(s, Arrive(t)), t, k) == s.(
        lastCheck := if due then s.time else s.lastCheck,
        current := renewed,
        loadedStamp := if reload then stamp else s.loadedStamp,
        installed := if reload then s.installed + [renewed] else s.installed,
        disposed := if reload then s.disposed + [s.current] else s.disposed,
        served := s.served[t := renewed])
  {
    var f := s.files;
    var stamp := if f.certStamp > f.keyStamp then f.certStamp else f.keyStamp;
    assert Apply(s, Arrive(t)) == Goto(s, t, Clocked(s.time));
    hide Apply, Alone, Goto;
    if s.time - s.lastCheck < 1000 {
      NotDueAlone(s, t);
      k := 2;
    } else if stamp == s.loadedStamp {
      NothingNewAlone(s, t);
      k := 6;
    } else if f.cert.Half? && f.key == f.cert {
      ReloadsAlone(s, t, stamp);
      k := 13;
    } else {
      FailsAlone(s, t);
      k := 10;
    }
  }

  /** Whoever goes on to load under the lock has a stamp that is not the recorded one: what
      another thread has loaded in the meantime is not loaded again. */
  ghost predicate LoadsNews(s: State, t: ThreadId) {
    t in s.threads ==>
      match s.threads[t]
      case Loading(stamp) => stamp != s.loadedStamp
      case HalfLoaded(stamp, _) => stamp != s.loadedStamp
      case Loaded(stamp, _) => stamp != s.loadedStamp
      case Swapped(stamp, _) => stamp != s.loadedStamp
      case _ => true
  }

  lemma NewsStep(s: State, a: Action, t: ThreadId)
    requires Exclusive(s) && LoadsNews(s, t) && Enabled(s, a)
    ensures LoadsNews(Apply(s, a), t)
  {
    if a != Step(t) && a != Arrive(t) {
      OtherThread(s, a, t);
      if a.Step? && !s.threads[a.t].HoldsGate() {
        OutsideLockFrame(s, a.t);
      }
    }
  }

  lemma {:induction false} LoadsOnlyNews(h: Run, i: nat, t: ThreadId)
    requires Valid(h) && i < |h.states|
    ensures LoadsNews(h.states[i], t)
  {
    if i > 0 {
      LoadsOnlyNews(h, i - 1, t);
      AlwaysOwned(h, i - 1);
      hide Apply, LoadsNews;
      assert StepAt(h, i - 1);
      NewsStep(h.states[i - 1], h.acts[i - 1], t);
    } else {
      var a, b, c :| Constructed(h.states[0], a, b, c);
    }
  }

  // ---- The constructor stamps after it loads ----------------------------------

  ghost predicate Idle(s: State) {
    && Exclusive(s) && s.loadedStamp == s.files.LastWrite()
    && forall t :: t in s.threads ==>
      && FreshStamp(s, s.threads[t])
      && !s.threads[t].Waiting? && !s.threads[t].HoldsGate()
  }

  ghost predicate FreshStamp(s: State, th: Thread) {
    && (th.HalfStamped? ==> th.certStamp == s.files.certStamp)
    && (th.Stamped? ==> th.stamp == s.files.LastWrite())
  }

  lemma IdleStep(s: State, a: Action)
    requires Idle(s) && Enabled(s, a) && !a.Write()
    ensures Idle(Apply(s, a)) && Apply(s, a).current == s.current && Apply(s, a).files == s.files
  {
  }

  /** A constructor that missed a rotation serves the old pair for as long as the files
      are not written again, however many checks run. */
  lemma {:induction false} MissedForever(h: Run, n: nat)
    requires Valid(h) && Missed(h.states[0]) && NoWritesBefore(h, n) && n < |h.states|
    ensures h.states[n].current == h.states[0].current && h.states[n].files == h.states[0].files
    ensures Idle(h.states[n])
  {
    if n == 0 {
      var a, b, c :| Constructed(h.states[0], a, b, c);
    } else {
      MissedForever(h, n - 1);
      hide Apply;
      assert StepAt(h, n - 1);
      IdleStep(h.states[n - 1], h.acts[n - 1]);
    }
  }

  ghost predicate NoWritesBefore(h: Run, n: nat) {
    forall m :: 0 <= m < n && m < |h.acts| ==> !h.acts[m].Write()
  }

  /** The next write heals: the recorded stamp is old again. */
  lemma WriteHeals(s: State, a: Action)
    requires Idle(s) && Enabled(s, a) && a.Write()
    ensures Fresh(Apply(s, a))
  {
  }

  lemma {:induction false} FirstWrite(h: Run, n: nat) returns (w: nat)
    requires n <= |h.acts| && !NoWritesBefore(h, n)
    ensures w < n && h.acts[w].Write() && NoWritesBefore(h, w)
  {
    if NoWritesBefore(h, n - 1) {
      w := n - 1;
    } else {
      w := FirstWrite(h, n - 1);
    }
  }

  /** Where the files are at rest, everything is fresh unless the constructor missed a
      rotation and nothing has been written since. */
  lemma FreshAtRest(h: Run, i: nat)
    requires Valid(h) && i < |h.states| && NoWritesFrom(h, i)
    requires !(Missed(h.states[0]) && NoWritesFrom(h, 0))
    ensures Fresh(h.states[i])
  {
    hide Apply, Fresh, Missed, Idle;
    if Missed(h.states[0]) {
      assert !NoWritesBefore(h, i);
      var w := FirstWrite(h, i);
      MissedForever(h, w);
      assert StepAt(h, w);
      WriteHeals(h.states[w], h.acts[w]);
      AlwaysFresh(h, w + 1, i);
    } else {
      StartsFresh(h);
      AlwaysFresh(h, 0, i);
    }
  }

  /** Once the files are at rest and match, the first check that is stamped after
      that and runs to its end makes the served certificate the files' pair, and
      nothing that happens later, a straggler with an old stamp included, undoes it:
      unless the constructor missed a rotation and the files were not written again. */
  lemma ConvergenceIff(h: Run, t: ThreadId, i: nat, j: nat, n: nat)
    requires Valid(h) && NoWritesFrom(h, i) && ChecksBetween(h, t, i, j) && j <= n < |h.states|
    requires h.states[i].files.Match()
    ensures h.states[n].files == h.states[i].files
    ensures h.states[n].current.pair == h.states[i].files.cert.pair <==>
      !(Missed(h.states[0]) && NoWritesFrom(h, 0))
  {
    if Missed(h.states[0]) && NoWritesFrom(h, 0) {
      MissedForever(h, i);
      MissedForever(h, n);
    } else {
      FreshAtRest(h, i);
      CheckingUntilSettled(h, t, i, j);
      SettledForever(h, j, n);
    }
  }

  /** From the handshake's own point of view: with the files at rest and matching, one that
      looks at the clock a second or more after the last check leaves their pair being
      served for good once it has been served itself. */
  lemma HandshakeConvergesIff(h: Run, t: ThreadId, k: nat, j: nat, n: nat, now: nat)
    requires Valid(h) && ReadsClock(h, t, k, now) && NoWritesFrom(h, k) && h.states[k].files.Match()
    requires now - h.states[k].lastCheck >= 1000 && k < j <= n < |h.states| && t !in h.states[j].threads
    ensures h.states[n].files == h.states[k].files
    ensures h.states[n].current.pair == h.states[k].files.cert.pair <==>
      !(Missed(h.states[0]) && NoWritesFrom(h, 0))
  {
    hide Apply, Missed;
    ChecksIffASecondIsOver(h, t, k, j, now);
    var b: nat :| k < b < j && BeginsStamping(h, t, b);
    FilesRest(h, k, b);
    ConvergenceIff(h, t, b, j, n);
  }

  lemma {:induction false} FilesRest(h: Run, i: nat, j: nat)
    requires Valid(h) && i <= j < |h.states| && NoWritesFrom(h, i)
    ensures h.states[j].files == h.states[i].files
  {
    if i < j {
      FilesRest(h, i, j - 1);
      assert StepAt(h, j - 1);
      FilesStay(h.states[j - 1], h.acts[j - 1]);
    }
  }

  lemma FilesStay(s: State, a: Action)
    requires Enabled(s, a) && !a.Write()
    ensures Apply(s, a).files == s.files
  {
  }

  /** Whatever happens from this state on, a check completed after the files have come to
      rest on a matching pair leaves that pair being served. */
  ghost predicate Converges(s: State) {
    forall h: Run, t, i: nat, j: nat ::
      Valid(h) && h.states[0] == s && NoWritesFrom(h, i) && ChecksBetween(h, t, i, j) && h.states[i].files.Match() ==>
        h.states[j].current.pair == h.states[i].files.cert.pair
  }

  /** One handshake, alone, a second after the constructor: its actions and states. */
  function LoneActions(): seq<Action> {
    [Tick(CHECK_INTERVAL_MS), Arrive(0), Step(0), Step(0), Step(0), Step(0), Step(0)]
  }

  function LoneState(s: State, n: nat): State {
    var late := if n == 0 then s else s.(time := s.time + CHECK_INTERVAL_MS);
    var checked := if n < 4 then late else late.(lastCheck := late.time);
    match n
    case 2 => checked.(threads := map[0 := Clocked(late.time)])
    case 3 => checked.(threads := map[0 := Due(late.time)])
    case 4 => checked.(threads := map[0 := Stamping])
    case 5 => checked.(threads := map[0 := HalfStamped(s.files.certStamp)])
    case 6 => checked.(threads := map[0 := Stamped(s.files.LastWrite())])
    case 7 => checked.(threads := map[0 := Serving])
    case _ => checked
  }

  lemma LoneStep(s: State, n: nat)
    requires s.threads == map[] && s.served == map[] && s.lastCheck == s.time
    requires s.loadedStamp == s.files.LastWrite() && n < 7
    ensures Enabled(LoneState(s, n), LoneActions()[n])
    ensures Apply(LoneState(s, n), LoneActions()[n]) == LoneState(s, n + 1)
  {
    if n == 0 {} else if n == 1 {} else if n == 2 {} else if n == 3 {} else if n == 4 {} else if n == 5 {} else {}
  }

  lemma LoneCheck(s: State, a: Files, b: Files, c: Files) returns (h: Run)
    requires Constructed(s, a, b, c) && Missed(s)
    ensures Valid(h) && h.states[0] == s && NoWritesFrom(h, 0) && ChecksBetween(h, 0, 4, 7)
  {
    h := Run(seq(8, n requires 0 <= n => LoneState(s, n)), LoneActions());
    assert Constructed(h.states[0], a, b, c);
    forall i | 0 <= i < |h.acts| ensures StepAt(h, i) {
      LoneStep(s, i);
    }
  }

  /** The constructor loads and then stamps.  It is safe for exactly those states in
      which the stamp is not already the one of a different matching pair. */
  lemma ConvergesUnlessRotationMissed(s: State, a: Files, b: Files, c: Files)
    requires Constructed(s, a, b, c)
    ensures Converges(s) <==> !Missed(s)
  {
    if Missed(s) {
      var h := LoneCheck(s, a, b, c);
      MissedForever(h, 4);
      ConvergenceIff(h, 0, 4, 7, 7);
      assert NoWritesFrom(h, 4) && h.states[4].files.Match();
      assert h.states[7].current.pair != h.states[4].files.cert.pair;
    } else {
      forall h: Run, t, i: nat, j: nat
        | Valid(h) && h.states[0] == s && NoWritesFrom(h, i) && ChecksBetween(h, t, i, j) && h.states[i].files.Match()
        ensures h.states[j].current.pair == h.states[i].files.cert.pair
      {
        ConvergenceIff(h, t, i, j, j);
      }
    }
  }

  /** So a constructor during which nobody writes is safe. */
  lemma QuietConstructorConverges(s: State)
    requires Constructed(s, s.files, s.files, s.files)
    ensures Converges(s)
  {
    ConvergesUnlessRotationMissed(s, s.files, s.files, s.files);
  }

  /** A whole rotation that falls between the load and the stamp is such a miss. */
  lemma RotationInsideConstructorIsMissed(former: PairId, latter: PairId) returns (s: State, before: Files)
    requires former != latter
    ensures Constructed(s, before, before, s.files) && before.Match() && before.cert == Half(former)
    ensures s.files.Match() && s.files.cert == Half(latter) && Missed(s)
  {
    before := Files(Half(former), 1, Half(former), 2);
    var first := Certificate(0, former);
    s := State(Files(Half(latter), 3, Half(latter), 4), 0, 0, first, 4, None, map[], map[], [first], []);
  }

  /** One handshake is served, the files are rotated, and a second later another handshake
      reloads them. */
  function OverlapActions(latter: PairId): seq<Action> {
    [ Arrive(0), Step(0), Step(0),
      WriteCert(Half(latter), 3), WriteKey(Half(latter), 4), Tick(CHECK_INTERVAL_MS), Arrive(1),
      Step(1), Step(1), Step(1), Step(1), Step(1), Step(1), Step(1), Step(1), Step(1), Step(1), Step(1), Step(1)]
  }

  function OverlapThread(n: nat, former: Certificate, renewed: Certificate): Thread {
    match n
    case 7 => Clocked(CHECK_INTERVAL_MS)
    case 8 => Due(CHECK_INTERVAL_MS)
    case 9 => Stamping
    case 10 => HalfStamped(3)
    case 11 => Stamped(4)
    case 12 => Waiting(4)
    case 13 => Entered(4)
    case 14 => Loading(4)
    case 15 => HalfLoaded(4, Half(renewed.pair))
    case 16 => Loaded(4, renewed)
    case 17 => Swapped(4, former)
    case 18 => Retiring(4, former)
    case _ => Serving
  }

  function OverlapState(former: PairId, latter: PairId, n: nat): State {
    var first, renewed := Certificate(0, former), Certificate(1, latter);
    State(
      Files(if n <= 3 then Half(former) else Half(latter), if n <= 3 then 1 else 3,
            if n <= 4 then Half(former) else Half(latter), if n <= 4 then 2 else 4),
      if n <= 5 then 0 else CHECK_INTERVAL_MS,
      if n <= 8 then 0 else CHECK_INTERVAL_MS,
      if n <= 16 then first else renewed,
      if n <= 17 then 2 else 4,
      if 13 <= n <= 18 then Some(1) else None,
      if n == 1 then map[0 := Clocked(0)] else if n == 2 then map[0 := Serving]
      else if n < 7 then map[] else map[1 := OverlapThread(n, first, renewed)],
      if n <= 2 then map[] else map[0 := first],
      if n <= 16 then [first] else [first, renewed],
      if n <= 18 then [] else [first])
  }

  ghost predicate OverlapStepAt(former: PairId, latter: PairId, n: nat)
    requires n < 19
  {
    var s, a := OverlapState(former, latter, n), OverlapActions(latter)[n];
    Enabled(s, a) && Apply(s, a) == OverlapState(former, latter, n + 1)
  }

  lemma OverlapServed(former: PairId, latter: PairId, n: nat)
    requires n < 3
    ensures OverlapStepAt(former, latter, n)
  {
    if n == 0 {} else if n == 1 {} else {}
  }

  lemma OverlapRotated(former: PairId, latter: PairId, n: nat)
    requires 3 <= n < 7
    ensures OverlapStepAt(former, latter, n)
  {
    if n == 3 {} else if n == 4 {} else if n == 5 {} else {}
  }

  lemma OverlapStamped(former: PairId, latter: PairId, n: nat)
    requires 7 <= n < 10
    ensures OverlapStepAt(former, latter, n)
  {
    if n == 7 {} else if n == 8 {} else {}
  }

  lemma OverlapLocked(former: PairId, latter: PairId, n: nat)
    requires 10 <= n < 13
    ensures OverlapStepAt(former, latter, n)
  {
    if n == 10 {} else if n == 11 {} else {}
  }

  lemma OverlapLoaded(former: PairId, latter: PairId, n: nat)
    requires 13 <= n < 16
    ensures OverlapStepAt(former, latter, n)
  {
    if n == 13 {} else if n == 14 {} else {}
  }

  lemma OverlapRetired(former: PairId, latter: PairId, n: nat)
    requires 16 <= n < 19
    ensures OverlapStepAt(former, latter, n)
  {
    if n == 16 {} else if n == 17 {} else {}
  }

  /** There is such a run, for any two pairs: the first handshake's certificate is disposed. */
  lemma ServedThenDisposedHappens(former: PairId, latter: PairId) returns (h: Run)
    requires former != latter
    ensures Valid(h) && |h.states| == 20
    ensures 0 in h.states[3].served && h.states[3].served[0] == h.states[3].current
    ensures h.states[19].served == h.states[3].served && h.states[19].served[0] in h.states[19].disposed
  {
    h := Run(seq(20, n requires 0 <= n => OverlapState(former, latter, n)), OverlapActions(latter));
    var files := h.states[0].files;
    assert Constructed(h.states[0], files, files, files);
    hide Apply, Enabled, Constructed;
    forall i | 0 <= i < 19 ensures StepAt(h, i) {
      if i < 3 {
        OverlapServed(former, latter, i);
      } else if i < 7 {
        OverlapRotated(former, latter, i);
      } else if i < 10 {
        OverlapStamped(former, latter, i);
      } else if i < 13 {
        OverlapLocked(former, latter, i);
      } else if i < 16 {
        OverlapLoaded(former, latter, i);
      } else {
        OverlapRetired(former, latter, i);
      }
    }
  }
}
