/** One Secret's watcher against the API: every interleaving of API changes, lists, watches, events that may be
    lost but not reordered, direct gets, failures and panics. */
module CacheProtocol {
  import opened Text
  import opened Snapshot
  import opened SecretApi
  import opened SecretCache

  /** A queued event: the event of change `i`, or one that tells nothing about the Secret. */
  datatype Pending = Of(i: nat) | Stray(ev: Event)

  /** `Answered` holds a list that shows change `at` and is of version `from`, not stored yet. A watch holds its queue
      and, while a reconciliation is under way, the change `got` that its get showed. */
  datatype Pc =
    | Listing
    | Answered(at: nat, from: nat)
    | Opening(from: nat)
    | Watching(queue: seq<Pending>, got: Option<nat>)

  /** `log` is the Secret's history, `rv` the API's version, which other Secrets move too. `idx` names the change
      that explains the cached state; nothing reads it. */
  datatype State = State(log: seq<Change>, rv: nat, pc: Pc, res: Res, idx: nat)

  const START := State([Change(100, None, false)], 100, Listing, Res(UNKNOWN, false, 0, 0, 0), 0)

  datatype Label =
    // The API.
    | Apply(data: Data, notify: bool)
    | Delete(notify: bool)
    | OtherChange
    | Send(ev: Event)
    | Lose(k: nat)
    // The watcher.
    | List(answer: ListOutcome)
    | Open(ok: bool)
    | OpenCancelled
    | Receive
    | Reconcile(outcome: GetOutcome)
    | Store(now: nat)
    | EndWatch
    | Panic

  /** A request is answered from the API's current state, and the answer stored later, or something goes wrong. */
  datatype ListOutcome = ListAnswered | ListBroken(broken: ListAnswer)
  datatype GetOutcome = GetAnswered | GetBroken(failed: GetAnswer)

  function Current(s: State): Option<Obj> {
    if s.log == [] then None else Last(s.log).obj
  }

  /** The API's new change, told to the open watch unless it is silent. */
  function Changed(s: State, obj: Option<Obj>, notify: bool): State {
    var s' := s.(log := s.log + [Change(s.rv + 1, obj, notify)], rv := s.rv + 1);
    if notify && s.pc.Watching? then s'.(pc := s.pc.(queue := s.pc.queue + [Of(|s.log|)])) else s'
  }

  /** The watcher leaves the watch, or never had one. */
  function Relist(s: State): State {
    s.(pc := Listing, res := s.res.(connected := false))
  }

  function Pendings(told: seq<nat>): seq<Pending> {
    seq(|told|, k requires 0 <= k < |told| => Of(told[k]))
  }

  function EventAt(s: State, p: Pending): Event {
    match p
    case Stray(ev) => ev
    case Of(i) => if 0 < i < |s.log| then EventOf(s.log, i) else Event(Unknown, None)
  }

  /** An answer that must not change the cache. */
  predicate Faulty(ref: Ref, a: ListAnswer) {
    a.ListFailed? || (a.items != [] && forall o :: o in a.items ==> !Matches(ref, o))
  }

  predicate FaultyGet(ref: Ref, a: GetAnswer) {
    a.GetFailed? || (a.Got? && (a.o.None? || !Matches(ref, a.o.value)))
  }

  /** The successor state; a label that does not apply leaves the state as it is. */
  function Next(ref: Ref, s: State, l: Label): State {
    match l
    case Apply(data, notify) => Changed(s, Some(Applied(ref, Current(s), s.rv + 1, data)), notify)
    case Delete(notify) => if Current(s).Some? then Changed(s, None, notify) else s
    case OtherChange => s.(rv := s.rv + 1)
    case Send(ev) =>
      if s.pc.Watching? && Noise(ref, ev) then s.(pc := s.pc.(queue := s.pc.queue + [Stray(ev)])) else s
    case Lose(k) =>
      if s.pc.Watching? && k < |s.pc.queue| then s.(pc := s.pc.(queue := s.pc.queue[..k] + s.pc.queue[k + 1..]))
      else s
    case List(outcome) => if s.pc.Listing? then AfterList(ref, s, outcome) else s
    case Open(ok) =>
      if !s.pc.Opening? then s
      else if ok then s.(pc := Watching(Pendings(Told(s.log, s.pc.from)), None), res := s.res.(connected := true))
      else Relist(s.(res := WatchError(s.res)))
    case OpenCancelled => if s.pc.Opening? then Relist(s) else s
    case Receive =>
      if !Idle(s.pc) || s.pc.queue == [] then s
      else AfterEvent(ref, s.(pc := Watching(s.pc.queue[1..], None)), s.pc.queue[0])
    case Reconcile(outcome) => if Idle(s.pc) then AfterGet(ref, s, outcome) else s
    case Store(now) => AfterStore(ref, s, now)
    case EndWatch => if Idle(s.pc) then Relist(s) else s
    case Panic => Relist(s.(res := WatchError(s.res)))
  }

  /** The event loop of the watch waits for what comes next. */
  predicate Idle(pc: Pc) {
    pc.Watching? && pc.got.None?
  }

  function AfterList(ref: Ref, s: State, outcome: ListOutcome): State {
    match outcome
    case ListBroken(a) => if Faulty(ref, a) then s.(res := ListHandled(ref, s.res, a, 0).0) else s
    case ListAnswered => if s.log == [] then s else s.(pc := Answered(|s.log| - 1, s.rv))
  }

  function AfterEvent(ref: Ref, s: State, p: Pending): State {
    var (res, keep) := EventHandled(ref, s.res, EventAt(s, p));
    var s' := s.(res := res, idx := if p.Of? then p.i else s.idx);
    if keep then s' else Relist(s')
  }

  function AfterGet(ref: Ref, s: State, outcome: GetOutcome): State {
    match outcome
    case GetBroken(a) => if FaultyGet(ref, a) then s.(res := Reconciled(ref, s.res, a, 0).0) else s
    case GetAnswered => if s.log == [] || !s.pc.Watching? then s else s.(pc := s.pc.(got := Some(|s.log| - 1)))
  }

  /** What a list of the state that change `at` left contains, and what a get answers. */
  function ItemsAt(s: State, at: nat): seq<Obj> {
    if at < |s.log| && s.log[at].obj.Some? then [s.log[at].obj.value] else []
  }

  function GotAt(s: State, at: nat): GetAnswer {
    if at < |s.log| && s.log[at].obj.Some? then Got(s.log[at].obj) else NotFound
  }

  /** Storing the answer of a list or a get, which the API may have left behind meanwhile. A reconciliation that
      confirms the cached state leaves `idx` alone, for events of earlier changes may still be queued; one that
      corrects it ends the watch and with it the queue. */
  function AfterStore(ref: Ref, s: State, now: nat): State {
    match s.pc
    case Answered(at, from) =>
      var (res, version) := ListHandled(ref, s.res, Listed(ItemsAt(s, at), from), now);
      if version.None? then s.(res := res, pc := Listing) else s.(res := res, pc := Opening(version.value), idx := at)
    case Watching(queue, Some(at)) =>
      var (res, keep) := Reconciled(ref, s.res, GotAt(s, at), now);
      if keep then s.(res := res, pc := Watching(queue, None)) else Relist(s.(res := res, idx := at))
    case _ => s
  }

  function Run(ref: Ref, s: State, labels: seq<Label>): State
    decreases |labels|
  {
    if labels == [] then s else Run(ref, Next(ref, s, labels[0]), labels[1..])
  }

  // ---- The invariant ----

  /** The queue tells of changes after `idx`, in order, and otherwise of nothing. */
  ghost predicate QueueOk(ref: Ref, s: State, q: seq<Pending>) {
    && (forall k :: 0 <= k < |q| && q[k].Of? ==> s.idx < q[k].i < |s.log|)
    && (forall k, l :: 0 <= k < l < |q| && q[k].Of? && q[l].Of? ==> q[k].i < q[l].i)
    && (forall k :: 0 <= k < |q| && q[k].Stray? ==> Noise(ref, q[k].ev))
  }

  ghost predicate Inv(ref: Ref, s: State) {
    && IsHistory(ref, s.log) && Last(s.log).rv <= s.rv && s.idx < |s.log|
    && s.res.secret == (if s.res.secret.synced then View(s.log[s.idx].obj) else UNKNOWN)
    && (s.res.secret.synced || s.idx == 0)
    && (s.res.connected <==> s.pc.Watching?)
    && (s.pc.Opening? || s.pc.Watching? ==> s.res.secret.synced)
    && (s.pc.Answered? ==> s.idx <= s.pc.at && VersionOk(s, s.pc.at, s.pc.from))
    && (s.pc.Opening? ==> VersionOk(s, s.idx, s.pc.from))
    && (s.pc.Watching? ==> QueueOk(ref, s, s.pc.queue))
    && (s.pc.Watching? && s.pc.got.Some? ==> s.idx <= s.pc.got.value < |s.log|)
  }

  /** Version `from` is of the time when change `at` was the last. */
  ghost predicate VersionOk(s: State, at: nat, from: nat) {
    at < |s.log| && s.log[at].rv <= from <= s.rv && forall i :: at < i < |s.log| ==> s.log[i].rv > from
  }

  lemma ChangeKeepsInv(ref: Ref, s: State, obj: Option<Obj>, notify: bool)
    requires Inv(ref, s)
    requires obj.Some? ==> Matches(ref, obj.value) && obj.value.rv == s.rv + 1
    requires obj.None? ==> Current(s).Some?
    ensures Inv(ref, Changed(s, obj, notify))
  {
    HistoryGrows(ref, s.log, Change(s.rv + 1, obj, notify));
    var s' := Changed(s, obj, notify);
    assert s'.log[s.idx] == s.log[s.idx];
    if s.pc.Watching? {
      QueueGrows(ref, s, s'.log, s.pc.queue);
    } else if s.pc.Opening? {
      VersionStays(s, obj, notify, s.idx, s.pc.from);
    } else if s.pc.Answered? {
      VersionStays(s, obj, notify, s.pc.at, s.pc.from);
    }
  }

  lemma VersionStays(s: State, obj: Option<Obj>, notify: bool, at: nat, from: nat)
    requires VersionOk(s, at, from)
    ensures VersionOk(Changed(s, obj, notify), at, from)
  {
    var s' := Changed(s, obj, notify);
    forall i | at < i < |s'.log| ensures s'.log[i].rv > from {
      assert i < |s.log| ==> s'.log[i] == s.log[i];
    }
  }

  lemma QueueGrows(ref: Ref, s: State, log: seq<Change>, q: seq<Pending>)
    requires QueueOk(ref, s, q) && s.idx < |s.log| && |log| == |s.log| + 1
    ensures QueueOk(ref, s.(log := log), q) && QueueOk(ref, s.(log := log), q + [Of(|s.log|)])
  {
  }

  lemma OpenKeepsInv(ref: Ref, s: State)
    requires Inv(ref, s) && s.pc.Opening?
    ensures Inv(ref, Next(ref, s, Open(true)))
  {
    ToldIsAfter(s.log, s.pc.from);
    var told := Told(s.log, s.pc.from);
    forall k | 0 <= k < |told| ensures s.idx < told[k] {
      ByVersion(ref, s.log, s.idx, told[k]);
    }
    assert QueueOk(ref, s, Pendings(told));
  }

  lemma ReceiveKeepsInv(ref: Ref, s: State)
    requires Inv(ref, s) && Idle(s.pc) && s.pc.queue != []
    ensures Inv(ref, Next(ref, s, Receive))
  {
    var q := s.pc.queue;
    if q[0].Of? {
      var i := q[0].i;
      assert DeletesWhatExists(s.log, i) && ObjectOf(ref, s.log, i) && ObjectOf(ref, s.log, i - 1);
      assert !Noise(ref, EventOf(s.log, i));
    }
  }

  lemma StoreKeepsInv(ref: Ref, s: State, now: nat)
    requires Inv(ref, s)
    ensures Inv(ref, AfterStore(ref, s, now))
  {
    match s.pc
    case Answered(at, from) => StoredList(ref, s, at, from, now);
    case Watching(queue, Some(at)) =>
      // Same version, same state: versions identify the changes that left an object.
      ByVersion(ref, s.log, s.idx, at);
      assert ObjectOf(ref, s.log, at) && ObjectOf(ref, s.log, s.idx);
    case _ =>
  }

  /** A list that was answered stores the state it shows, and its version is the one to watch from. */
  lemma StoredList(ref: Ref, s: State, at: nat, from: nat, now: nat)
    requires IsHistory(ref, s.log) && at < |s.log|
    ensures ListHandled(ref, s.res, Listed(ItemsAt(s, at), from), now) ==
      (Stored(s.res, s.log[at].obj, true, now), Some(from))
  {
    assert ObjectOf(ref, s.log, at);
    assert FirstMatch(ref, ItemsAt(s, at)) == s.log[at].obj;
  }

  lemma CurrentMatches(ref: Ref, s: State)
    requires IsHistory(ref, s.log)
    ensures Current(s).Some? ==> Matches(ref, Current(s).value)
  {
    assert ObjectOf(ref, s.log, |s.log| - 1);
  }

  lemma ListKeepsInv(ref: Ref, s: State, outcome: ListOutcome)
    requires Inv(ref, s) && s.pc.Listing?
    ensures Inv(ref, AfterList(ref, s, outcome))
  {
    match outcome
    case ListBroken(a) =>
      if Faulty(ref, a) { FaultsKeepTheState(ref, s.res, Event(Error, None), GetFailed(false), a, 0); }
    case ListAnswered => assert VersionOk(s, |s.log| - 1, s.rv);
  }

  lemma StepGoesOn(ref: Ref, s: State, l: Label)
    requires s.log != [] && s.idx < |s.log|
    requires s.pc.Watching? ==> forall k :: 0 <= k < |s.pc.queue| && s.pc.queue[k].Of? ==> s.idx < s.pc.queue[k].i
    requires s.pc.Answered? ==> s.idx <= s.pc.at
    requires s.pc.Watching? && s.pc.got.Some? ==> s.idx <= s.pc.got.value
    ensures s.idx <= Next(ref, s, l).idx && s.log <= Next(ref, s, l).log
    ensures s.res.secret.synced ==> Next(ref, s, l).res.secret.synced
  {
  }

  lemma LoseKeepsInv(ref: Ref, s: State, k: nat)
    requires Inv(ref, s) && s.pc.Watching? && k < |s.pc.queue|
    ensures Inv(ref, Next(ref, s, Lose(k)))
  {
    QueueWithout(ref, s, s.pc.queue, k);
  }

  lemma QueueWithout(ref: Ref, s: State, q: seq<Pending>, k: nat)
    requires QueueOk(ref, s, q) && k < |q|
    ensures QueueOk(ref, s, q[..k] + q[k + 1..])
  {
    var q' := q[..k] + q[k + 1..];
    assert forall j :: 0 <= j < |q'| ==> q'[j] == if j < k then q[j] else q[j + 1];
  }

  lemma SendKeepsInv(ref: Ref, s: State, ev: Event)
    requires Inv(ref, s) && s.pc.Watching? && Noise(ref, ev)
    ensures Inv(ref, Next(ref, s, Send(ev)))
  {
    assert QueueOk(ref, s, s.pc.queue + [Stray(ev)]);
  }

  lemma StepKeepsInv(ref: Ref, s: State, l: Label)
    requires Inv(ref, s)
    ensures Inv(ref, Next(ref, s, l))
    ensures s.idx <= Next(ref, s, l).idx && s.log <= Next(ref, s, l).log
    ensures s.res.secret.synced ==> Next(ref, s, l).res.secret.synced
  {
    HereToGoOn(ref, s);
    StepGoesOn(ref, s, l);
    if l.Apply? || l.Delete? || l.OtherChange? || l.Send? || l.Lose? {
      ApiKeepsInv(ref, s, l);
    } else {
      WatcherKeepsInv(ref, s, l);
    }
  }

  lemma HereToGoOn(ref: Ref, s: State)
    requires Inv(ref, s)
    ensures s.log != [] && s.idx < |s.log|
    ensures s.pc.Watching? ==> forall k :: 0 <= k < |s.pc.queue| && s.pc.queue[k].Of? ==> s.idx < s.pc.queue[k].i
    ensures s.pc.Answered? ==> s.idx <= s.pc.at
    ensures s.pc.Watching? && s.pc.got.Some? ==> s.idx <= s.pc.got.value
  {
  }

  lemma ApiKeepsInv(ref: Ref, s: State, l: Label)
    requires Inv(ref, s) && (l.Apply? || l.Delete? || l.OtherChange? || l.Send? || l.Lose?)
    ensures Inv(ref, Next(ref, s, l))
  {
    match l
    case Apply(data, notify) => ChangeKeepsInv(ref, s, Some(Applied(ref, Current(s), s.rv + 1, data)), notify);
    case Delete(notify) => if Current(s).Some? { ChangeKeepsInv(ref, s, None, notify); }
    case Lose(k) => if s.pc.Watching? && k < |s.pc.queue| { LoseKeepsInv(ref, s, k); }
    case Send(ev) => if s.pc.Watching? && Noise(ref, ev) { SendKeepsInv(ref, s, ev); }
    case _ =>
  }

  lemma WatcherKeepsInv(ref: Ref, s: State, l: Label)
    requires Inv(ref, s) && !l.Apply? && !l.Delete? && !l.OtherChange? && !l.Send? && !l.Lose?
    ensures Inv(ref, Next(ref, s, l))
  {
    match l
    case Open(ok) => if s.pc.Opening? && ok { OpenKeepsInv(ref, s); }
    case Receive => if Idle(s.pc) && s.pc.queue != [] { ReceiveKeepsInv(ref, s); }
    case Store(now) => StoreKeepsInv(ref, s, now);
    case List(outcome) => if s.pc.Listing? { ListKeepsInv(ref, s, outcome); }
    case _ =>
  }

  lemma {:induction false} RunKeepsInv(ref: Ref, s: State, labels: seq<Label>)
    requires Inv(ref, s)
    ensures var r := Run(ref, s, labels);
      Inv(ref, r) && s.idx <= r.idx && s.log <= r.log && (s.res.secret.synced ==> r.res.secret.synced)
    decreases |labels|
  {
    if labels != [] {
      StepKeepsInv(ref, s, labels[0]);
      RunKeepsInv(ref, Next(ref, s, labels[0]), labels[1..]);
    }
  }

  lemma StartOk(ref: Ref)
    ensures Inv(ref, START)
  {
  }

  lemma {:induction false} RunConcat(ref: Ref, s: State, a: seq<Label>, b: seq<Label>)
    ensures Run(ref, s, a + b) == Run(ref, Run(ref, s, a), b)
    decreases |a|
  {
    if a == [] {
      assert a + b == b;
    } else {
      assert (a + b)[0] == a[0] && (a + b)[1..] == a[1..] + b;
      RunConcat(ref, Next(ref, s, a[0]), a[1..], b);
    }
  }

  // ---- The queue is the watch of the API ----

  function QueueEvents(s: State): seq<Event>
    requires s.pc.Watching?
  {
    seq(|s.pc.queue|, k requires 0 <= k < |s.pc.queue| => EventAt(s, s.pc.queue[k]))
  }

  /** A change adds to the queue the event that FakeAPI.Record adds to the open watch, and no change rewrites what is
      queued already. */
  lemma ChangeIsQueued(ref: Ref, s: State, obj: Option<Obj>, notify: bool)
    requires Inv(ref, s) && s.pc.Watching?
    ensures QueueEvents(Changed(s, obj, notify)) ==
      QueueEvents(s) + if notify then [EventFor(Current(s), obj, s.rv + 1)] else []
  {
    var s' := Changed(s, obj, notify);
    forall k | 0 <= k < |s.pc.queue| ensures EventAt(s', s.pc.queue[k]) == EventAt(s, s.pc.queue[k]) {
      if s.pc.queue[k].Of? {
        var i := s.pc.queue[k].i;
        assert s'.log[i] == s.log[i] && s'.log[i - 1] == s.log[i - 1];
      }
    }
    assert notify ==> EventAt(s', Of(|s.log|)) == EventFor(Current(s), obj, s.rv + 1);
  }

  /** A new watch starts with the events that FakeAPI.WatchSecret replays. */
  lemma OpenReplays(ref: Ref, s: State)
    requires Inv(ref, s) && s.pc.Opening?
    ensures QueueEvents(Next(ref, s, Open(true))) == Replay(s.log, s.pc.from)
  {
    ToldIsAfter(s.log, s.pc.from);
  }

  // ---- What follows ----

  /** The cache is explained by history. In every run there are indices into the Secret's history, never decreasing,
      such that at every point the cached state is the API's state at its index. */
  lemma CacheIsExplained(ref: Ref, labels: seq<Label>) returns (idx: seq<nat>)
    ensures |idx| == |labels| + 1
    ensures forall m, n :: 0 <= m <= n <= |labels| ==> idx[m] <= idx[n]
    ensures forall n :: 0 <= n <= |labels| ==>
      var s := Run(ref, START, labels[..n]);
      idx[n] < |s.log| && s.log <= Run(ref, START, labels).log &&
      s.res.secret == if s.res.secret.synced then View(s.log[idx[n]].obj) else UNKNOWN
  {
    idx := seq(|labels| + 1, n requires 0 <= n <= |labels| => Run(ref, START, labels[..n]).idx);
    StartOk(ref);
    forall m, n | 0 <= m <= n <= |labels| ensures idx[m] <= idx[n] {
      Between(ref, START, labels, m, n);
    }
    forall n | 0 <= n <= |labels| ensures
      var s := Run(ref, START, labels[..n]);
      idx[n] < |s.log| && s.log <= Run(ref, START, labels).log &&
      s.res.secret == if s.res.secret.synced then View(s.log[idx[n]].obj) else UNKNOWN
    {
      RunKeepsInv(ref, START, labels[..n]);
      Between(ref, START, labels, n, |labels|);
      assert labels[..|labels|] == labels;
    }
  }

  lemma Between(ref: Ref, s: State, labels: seq<Label>, m: nat, n: nat)
    requires Inv(ref, s) && m <= n <= |labels|
    ensures Run(ref, s, labels[..m]).idx <= Run(ref, s, labels[..n]).idx
    ensures Run(ref, s, labels[..m]).log <= Run(ref, s, labels[..n]).log
  {
    var a, b := labels[..m], labels[m..n];
    assert labels[..n] == a + b;
    Onwards(ref, s, a, b);
  }

  lemma Onwards(ref: Ref, s: State, a: seq<Label>, b: seq<Label>)
    requires Inv(ref, s)
    ensures Run(ref, s, a).idx <= Run(ref, s, a + b).idx && Run(ref, s, a).log <= Run(ref, s, a + b).log
  {
    RunKeepsInv(ref, s, a);
    RunConcat(ref, s, a, b);
    RunKeepsInv(ref, Run(ref, s, a), b);
  }

  /** Readers learn of an established state for good, and of a connected watch only while there is one. */
  lemma SyncedIsForGood(ref: Ref, labels: seq<Label>, more: seq<Label>)
    ensures Run(ref, START, labels).res.secret.synced ==> Run(ref, START, labels + more).res.secret.synced
    ensures Run(ref, START, labels).res.connected <==> Run(ref, START, labels).pc.Watching?
    ensures Run(ref, START, labels).res.secret.present ==>
      exists i :: 0 <= i < |Run(ref, START, labels).log| && Run(ref, START, labels).log[i].obj.Some? &&
        Matches(ref, Run(ref, START, labels).log[i].obj.value) &&
        Run(ref, START, labels).res.secret == View(Run(ref, START, labels).log[i].obj)
  {
    StartOk(ref);
    RunKeepsInv(ref, START, labels);
    RunConcat(ref, START, labels, more);
    RunKeepsInv(ref, Run(ref, START, labels), more);
    var s := Run(ref, START, labels);
    assert ObjectOf(ref, s.log, s.idx);
  }

  // ---- Nothing is lost between list and watch ----

  /** No change is silent and no event is lost. */
  predicate Lossless(l: Label) {
    match l
    case Apply(_, notify) => notify
    case Delete(notify) => notify
    case Lose(_) => false
    case _ => true
  }

  /** The changes a queue tells of. */
  function Tells(q: seq<Pending>): seq<nat> {
    if q == [] then []
    else if q[0].Of? then [q[0].i] + Tells(q[1..])
    else Tells(q[1..])
  }

  function Upto(a: nat, b: nat): seq<nat>
    requires a <= b
  {
    seq(b - a, k requires 0 <= k < b - a => a + k)
  }

  /** Every change is notified, and the open watch still holds every one after the cached state. */
  ghost predicate Complete(s: State) {
    && (forall i :: 0 < i < |s.log| ==> s.log[i].notified)
    && (s.pc.Watching? && s.idx < |s.log| ==> Tells(s.pc.queue) == Upto(s.idx + 1, |s.log|))
  }

  lemma {:induction false} TellsConcat(a: seq<Pending>, b: seq<Pending>)
    ensures Tells(a + b) == Tells(a) + Tells(b)
  {
    if a == [] {
      assert a + b == b;
    } else {
      assert (a + b)[1..] == a[1..] + b;
      TellsConcat(a[1..], b);
    }
  }

  lemma {:induction false} TellsPendings(told: seq<nat>)
    ensures Tells(Pendings(told)) == told
  {
    if told != [] {
      assert Pendings(told)[1..] == Pendings(told[1..]);
      TellsPendings(told[1..]);
    }
  }

  lemma EmptyOrNot(told: seq<nat>)
    ensures told == [] || exists i: nat :: i in told
  {
    if told != [] {
      assert told[0] in told;
    }
  }

  predicate Increasing(told: seq<nat>) {
    forall k, l :: 0 <= k < l < |told| ==> told[k] < told[l]
  }

  ghost predicate Covers(told: seq<nat>, a: nat, b: nat) {
    forall i: nat :: i in told <==> a <= i < b
  }

  /** The first of such numbers starts the range, and the others cover the rest of it. */
  lemma FirstInOrder(told: seq<nat>, a: nat, b: nat)
    requires a < b && Increasing(told) && Covers(told, a, b)
    ensures told != [] && told[0] == a && Covers(told[1..], a + 1, b)
  {
    assert a in told;
    assert told[0] in told;
    forall i: nat ensures i in told[1..] <==> i in told && i != told[0] {
      RestIn(told, i);
    }
  }

  lemma RestIn(told: seq<nat>, i: nat)
    requires told != [] && Increasing(told)
    ensures i in told[1..] <==> i in told && i != told[0]
  {
    assert told == [told[0]] + told[1..];
    assert forall m :: 0 <= m < |told| - 1 ==> told[1..][m] == told[m + 1] > told[0];
  }

  /** A strictly increasing list of all numbers of a range is that range. */
  lemma {:induction false} AllInOrder(told: seq<nat>, a: nat, b: nat)
    requires a <= b && Increasing(told) && Covers(told, a, b)
    ensures told == Upto(a, b)
    decreases b - a
  {
    if a < b {
      FirstInOrder(told, a, b);
      AllInOrder(told[1..], a + 1, b);
      assert Upto(a, b) == [a] + Upto(a + 1, b);
    } else {
      EmptyOrNot(told);
    }
  }

  /** A list at version N and a watch from N together cover the history. */
  lemma OpenIsComplete(ref: Ref, s: State)
    requires Inv(ref, s) && Complete(s) && s.pc.Opening?
    ensures Complete(Next(ref, s, Open(true)))
  {
    ToldTheRest(ref, s);
    TellsPendings(Told(s.log, s.pc.from));
  }

  lemma ToldTheRest(ref: Ref, s: State)
    requires Inv(ref, s) && s.pc.Opening? && forall i :: 0 < i < |s.log| ==> s.log[i].notified
    ensures Told(s.log, s.pc.from) == Upto(s.idx + 1, |s.log|)
  {
    var told := Told(s.log, s.pc.from);
    CoversTheRest(ref, s);
    assert Increasing(told) by { ToldIsAfter(s.log, s.pc.from); }
    AllInOrder(told, s.idx + 1, |s.log|);
  }

  lemma CoversTheRest(ref: Ref, s: State)
    requires Inv(ref, s) && s.pc.Opening? && forall i :: 0 < i < |s.log| ==> s.log[i].notified
    ensures Covers(Told(s.log, s.pc.from), s.idx + 1, |s.log|)
  {
    var told := Told(s.log, s.pc.from);
    ToldIsAfter(s.log, s.pc.from);
    forall i: nat ensures i in told <==> s.idx + 1 <= i < |s.log| {
      if i < |s.log| {
        ByVersion(ref, s.log, s.idx, i);
      }
    }
  }

  lemma ReceivingIsLossless(ref: Ref, s: State)
    requires Inv(ref, s) && Complete(s) && Idle(s.pc) && s.pc.queue != [] && s.pc.queue[0].Of?
    ensures Complete(Next(ref, s, Receive))
  {
    var q, all := s.pc.queue, Upto(s.idx + 1, |s.log|);
    assert Tells(q)[0] == q[0].i && all[0] == s.idx + 1;
    assert Tells(q)[1..] == Tells(q[1..]) && all[1..] == Upto(s.idx + 2, |s.log|);
  }

  lemma LosslessStep(ref: Ref, s: State, l: Label)
    requires Inv(ref, s) && Complete(s) && Lossless(l)
    ensures Complete(Next(ref, s, l))
  {
    match l
    case Apply(data, notify) => ChangedIsComplete(ref, s, Some(Applied(ref, Current(s), s.rv + 1, data)));
    case Delete(notify) => if Current(s).Some? { ChangedIsComplete(ref, s, None); }
    case Open(ok) => if s.pc.Opening? && ok { OpenIsComplete(ref, s); }
    case Send(ev) => if s.pc.Watching? { TellsConcat(s.pc.queue, [Stray(ev)]); }
    case Receive =>
      if Idle(s.pc) && s.pc.queue != [] && s.pc.queue[0].Of? { ReceivingIsLossless(ref, s); }
    case _ =>
  }

  lemma ChangedIsComplete(ref: Ref, s: State, obj: Option<Obj>)
    requires Inv(ref, s) && Complete(s)
    ensures Complete(Changed(s, obj, true))
  {
    if s.pc.Watching? {
      TellsConcat(s.pc.queue, [Of(|s.log|)]);
      assert Upto(s.idx + 1, |s.log| + 1) == Upto(s.idx + 1, |s.log|) + [|s.log|];
    }
  }

  lemma {:induction false} LosslessRun(ref: Ref, s: State, labels: seq<Label>)
    requires Inv(ref, s) && Complete(s) && forall l :: l in labels ==> Lossless(l)
    ensures Complete(Run(ref, s, labels)) && Inv(ref, Run(ref, s, labels))
    decreases |labels|
  {
    if labels != [] {
      StepKeepsInv(ref, s, labels[0]);
      LosslessStep(ref, s, labels[0]);
      LosslessRun(ref, Next(ref, s, labels[0]), labels[1..]);
    }
  }

  /** The cache shows the API's current state. */
  predicate Converged(s: State) {
    s.res.secret == View(Current(s))
  }

  /** No gap between list and watch: in a run that loses nothing, once the watch has no events left the cache is
      the API's current state. */
  lemma DrainedIsConverged(ref: Ref, labels: seq<Label>)
    requires forall l :: l in labels ==> Lossless(l)
    ensures var s := Run(ref, START, labels);
      s.pc.Watching? && (forall k :: 0 <= k < |s.pc.queue| ==> s.pc.queue[k].Stray?) ==> Converged(s)
  {
    StartOk(ref);
    LosslessRun(ref, START, labels);
    var s := Run(ref, START, labels);
    if s.pc.Watching? && (forall k :: 0 <= k < |s.pc.queue| ==> s.pc.queue[k].Stray?) {
      NothingLeft(ref, s);
    }
  }

  lemma NothingLeft(ref: Ref, s: State)
    requires Inv(ref, s) && Complete(s) && s.pc.Watching? && forall k :: 0 <= k < |s.pc.queue| ==> s.pc.queue[k].Stray?
    ensures Converged(s)
  {
    TellsNothing(s.pc.queue);
    assert |Upto(s.idx + 1, |s.log|)| == 0;
  }

  lemma {:induction false} TellsNothing(q: seq<Pending>)
    requires forall k :: 0 <= k < |q| ==> q[k].Stray?
    ensures Tells(q) == []
  {
    if q != [] {
      TellsNothing(q[1..]);
    }
  }

  /** When the API is quiet, receiving the queued events and bookmarks of a complete watch drains it in as many steps,
      and the cache converges. */
  lemma {:induction false} DrainingConverges(ref: Ref, s: State)
    requires Inv(ref, s) && Complete(s) && Idle(s.pc)
    requires forall k :: 0 <= k < |s.pc.queue| && s.pc.queue[k].Stray? ==> s.pc.queue[k].ev.kind == Bookmark
    ensures var r := Run(ref, s, seq(|s.pc.queue|, i => Receive));
      r.pc == Watching([], None) && r.log == s.log && Converged(r)
    decreases |s.pc.queue|
  {
    var q := s.pc.queue;
    var ls := seq(|q|, i => Receive);
    if q == [] {
      assert |Upto(s.idx + 1, |s.log|)| == 0;
    } else {
      StepKeepsInv(ref, s, Receive);
      LosslessStep(ref, s, Receive);
      ReceivedIsStored(ref, s);
      var s' := Next(ref, s, Receive);
      assert s'.pc == Watching(q[1..], None);
      assert ls[1..] == seq(|q[1..]|, i => Receive);
      DrainingConverges(ref, s');
    }
  }

  /** Whatever was lost before, storing a list shows the state it was answered with: the current one, if the API has
      not changed since. */
  lemma ListConverges(ref: Ref, s: State, now: nat)
    requires Inv(ref, s) && s.pc.Answered? && s.log[s.pc.at].obj == Current(s)
    ensures Converged(Next(ref, s, Store(now)))
  {
    StoredList(ref, s, s.pc.at, s.pc.from, now);
  }

  /** Labels under which a quiet API stays quiet and the watcher hears nothing of its changes. */
  predicate Quiet(l: Label) {
    !l.Apply? && !l.Delete?
  }

  /** A reconciliation, its get answered and stored. */
  function GotAndStored(ref: Ref, s: State, now: nat): State {
    Next(ref, Next(ref, s, Reconcile(GetAnswered)), Store(now))
  }

  /** A successful reconciliation with nothing left queued converges, and stays so while the API is quiet. */
  lemma {:induction false} ReconcileConverges(ref: Ref, s: State, now: nat, labels: seq<Label>)
    requires Inv(ref, s) && Idle(s.pc) && (forall k :: 0 <= k < |s.pc.queue| ==> s.pc.queue[k].Stray?)
    requires forall l :: l in labels ==> Quiet(l)
    ensures Converged(Run(ref, GotAndStored(ref, s, now), labels))
  {
    GotKeepsInv(ref, s, now);
    ReconciledIs(ref, s, now);
    StaysConverged(ref, GotAndStored(ref, s, now), labels);
  }

  lemma GotKeepsInv(ref: Ref, s: State, now: nat)
    requires Inv(ref, s)
    ensures Inv(ref, GotAndStored(ref, s, now))
  {
    StepKeepsInv(ref, s, Reconcile(GetAnswered));
    StepKeepsInv(ref, Next(ref, s, Reconcile(GetAnswered)), Store(now));
  }

  /** Whatever can still arrive or be stored tells of the state the API is in. */
  ghost predicate Harmless(s: State) {
    && (s.pc.Watching? ==> forall k :: 0 <= k < |s.pc.queue| ==> HarmlessEvent(s, s.pc.queue[k]))
    && (s.pc.Watching? && s.pc.got.Some? ==> s.pc.got.value < |s.log| && s.log[s.pc.got.value].obj == Current(s))
    && (s.pc.Opening? ==> s.idx == |s.log| - 1)
    && (s.pc.Answered? ==> s.pc.at == |s.log| - 1)
  }

  predicate HarmlessEvent(s: State, p: Pending) {
    p.Of? ==> p.i < |s.log| && s.log[p.i].obj == Current(s)
  }

  lemma {:induction false} StaysConverged(ref: Ref, s: State, labels: seq<Label>)
    requires Inv(ref, s) && Converged(s) && Harmless(s) && forall l :: l in labels ==> Quiet(l)
    ensures Converged(Run(ref, s, labels))
    decreases |labels|
  {
    if labels != [] {
      var s' := Next(ref, s, labels[0]);
      StepKeepsInv(ref, s, labels[0]);
      QuietStep(ref, s, labels[0]);
      StaysConverged(ref, s', labels[1..]);
    }
  }

  lemma QuietStep(ref: Ref, s: State, l: Label)
    requires Inv(ref, s) && Converged(s) && Harmless(s) && Quiet(l)
    ensures Converged(Next(ref, s, l)) && Harmless(Next(ref, s, l))
  {
    match l
    case List(outcome) => if s.pc.Listing? { QuietList(ref, s, outcome); }
    case Open(ok) => if s.pc.Opening? && ok { QuietOpen(ref, s); }
    case Receive => if Idle(s.pc) && s.pc.queue != [] { QuietReceive(ref, s); }
    case Store(now) => QuietStore(ref, s, now);
    case _ =>
  }

  lemma QuietList(ref: Ref, s: State, outcome: ListOutcome)
    requires Inv(ref, s) && Converged(s) && s.pc.Listing?
    ensures Converged(Next(ref, s, List(outcome))) && Harmless(Next(ref, s, List(outcome)))
  {
    if outcome.ListBroken? && Faulty(ref, outcome.broken) {
      FaultsKeepTheState(ref, s.res, Event(Error, None), GetFailed(false), outcome.broken, 0);
    }
  }

  lemma QuietStore(ref: Ref, s: State, now: nat)
    requires Inv(ref, s) && Converged(s) && Harmless(s)
    ensures Converged(Next(ref, s, Store(now))) && Harmless(Next(ref, s, Store(now)))
  {
    match s.pc
    case Answered(at, from) => StoredList(ref, s, at, from, now);
    case Watching(queue, Some(at)) => assert ObjectOf(ref, s.log, at);
    case _ =>
  }

  lemma QuietOpen(ref: Ref, s: State)
    requires Inv(ref, s) && Converged(s) && s.pc.Opening? && s.idx == |s.log| - 1
    ensures Converged(Next(ref, s, Open(true))) && Harmless(Next(ref, s, Open(true)))
  {
    forall i | 0 <= i < |s.log| ensures s.log[i].rv <= s.pc.from {
      ByVersion(ref, s.log, i, s.idx);
    }
    SecretApi.NothingTold(s.log, s.pc.from);
  }

  lemma QuietReceive(ref: Ref, s: State)
    requires Inv(ref, s) && Converged(s) && Harmless(s) && Idle(s.pc) && s.pc.queue != []
    ensures Converged(Next(ref, s, Receive)) && Harmless(Next(ref, s, Receive))
  {
    ReceivedIsStored(ref, s);
    var s' := Next(ref, s, Receive);
    assert HarmlessEvent(s, s.pc.queue[0]);
    if s'.pc.Watching? {
      forall k | 0 <= k < |s'.pc.queue| ensures HarmlessEvent(s', s'.pc.queue[k]) {
        assert HarmlessEvent(s, s.pc.queue[k + 1]);
      }
    }
  }

  /** Receiving the event of a change stores the state the change left; anything else leaves the cache alone. */
  lemma ReceivedIsStored(ref: Ref, s: State)
    requires Inv(ref, s) && Idle(s.pc) && s.pc.queue != []
    ensures var s' := Next(ref, s, Receive); var p := s.pc.queue[0];
      && s'.log == s.log && (s'.pc == Watching(s.pc.queue[1..], None) || s'.pc == Listing)
      && (p.Of? ==> 0 < p.i < |s.log| && s'.res.secret == View(s.log[p.i].obj) && s'.pc.Watching?)
      && (p.Stray? && p.ev.kind == Bookmark ==> s'.pc.Watching?)
      && (p.Stray? ==> s'.res.secret == s.res.secret)
  {
    var p := s.pc.queue[0];
    if p.Of? {
      assert DeletesWhatExists(s.log, p.i) && ObjectOf(ref, s.log, p.i) && ObjectOf(ref, s.log, p.i - 1);
      assert !Noise(ref, EventOf(s.log, p.i));
    }
  }

  // ---- What does not hold ----

  /** The event of a change that left the Secret present is queued. */
  ghost predicate PresenceQueued(s: State) {
    s.pc.Watching? && exists k :: 0 <= k < |s.pc.queue| && ShowsPresent(s, s.pc.queue[k])
  }

  predicate ShowsPresent(s: State, p: Pending) {
    p.Of? && p.i < |s.log| && s.log[p.i].obj.Some?
  }

  /** Exactly when a successful reconciliation can be followed by an outdated state although the API stays quiet: when
      it found the Secret absent, as cached, and the event of a change that left it present is still queued. */
  lemma OutdatedIff(ref: Ref, s: State, now: nat)
    requires Inv(ref, s) && Idle(s.pc)
    ensures var c := GotAndStored(ref, s, now);
      (exists labels :: (forall l :: l in labels ==> Quiet(l)) && !Converged(Run(ref, c, labels))) <==>
      (Current(s).None? && !s.res.secret.present && PresenceQueued(s))
  {
    var c := GotAndStored(ref, s, now);
    GotKeepsInv(ref, s, now);
    ReconciledIs(ref, s, now);
    if Current(s).None? && !s.res.secret.present && PresenceQueued(s) {
      var k :| 0 <= k < |s.pc.queue| && ShowsPresent(s, s.pc.queue[k]);
      var labels := ReceiveNth(ref, c, k);
    } else {
      forall labels | forall l :: l in labels ==> Quiet(l) ensures Converged(Run(ref, c, labels)) {
        StaysConverged(ref, c, labels);
      }
    }
  }

  /** A reconciliation shows the API's state. Unless it confirms an absence, nothing outdated is left queued. */
  lemma ReconciledIs(ref: Ref, s: State, now: nat)
    requires Inv(ref, s) && Idle(s.pc)
    ensures var c := GotAndStored(ref, s, now);
      && Converged(c) && c.log == s.log
      && (if c.pc == s.pc then s.res.secret.present == Current(s).Some? else c.pc == Listing)
      && (Current(s).None? && !s.res.secret.present ==> c.pc == s.pc)
      && (Current(s).Some? || !PresenceQueued(s) ==> Harmless(c))
  {
    var c := GotAndStored(ref, s, now);
    var n := |s.log| - 1;
    ByVersion(ref, s.log, s.idx, n);
    assert ObjectOf(ref, s.log, n) && ObjectOf(ref, s.log, s.idx);
    if c.pc == s.pc && (Current(s).Some? || !PresenceQueued(s)) {
      forall k | 0 <= k < |s.pc.queue| ensures HarmlessEvent(c, s.pc.queue[k]) {
        assert Current(s).None? ==> !ShowsPresent(s, s.pc.queue[k]);
      }
    }
  }

  lemma LoseFirst(ref: Ref, s: State)
    requires s.pc.Watching? && s.pc.queue != []
    ensures Next(ref, s, Lose(0)) == s.(pc := s.pc.(queue := s.pc.queue[1..]))
  {
    assert s.pc.queue[..0] + s.pc.queue[1..] == s.pc.queue[1..];
  }

  lemma ReceivedIsOutdated(ref: Ref, s: State)
    requires Inv(ref, s) && Idle(s.pc) && s.pc.queue != [] && Current(s).None? && ShowsPresent(s, s.pc.queue[0])
    ensures !Converged(Next(ref, s, Receive))
  {
    ReceivedIsStored(ref, s);
  }

  function Loses(k: nat): (r: seq<Label>)
    ensures |r| == k && forall l :: l in r ==> l == Lose(0)
  {
    if k == 0 then [] else [Lose(0)] + Loses(k - 1)
  }

  lemma {:induction false} LoseMany(ref: Ref, s: State, k: nat)
    requires s.pc.Watching? && k <= |s.pc.queue|
    ensures Run(ref, s, Loses(k)) == s.(pc := s.pc.(queue := s.pc.queue[k..]))
    decreases k
  {
    if k > 0 {
      LoseFirst(ref, s);
      var s' := s.(pc := s.pc.(queue := s.pc.queue[1..]));
      LoseMany(ref, s', k - 1);
      assert s.pc.queue[1..][k - 1..] == s.pc.queue[k..];
      assert Loses(k)[1..] == Loses(k - 1);
    }
  }

  /** The event at place `k` is received after all before it are lost. */
  lemma ReceiveNth(ref: Ref, s: State, k: nat) returns (labels: seq<Label>)
    requires Inv(ref, s) && Idle(s.pc) && k < |s.pc.queue| && Current(s).None? && ShowsPresent(s, s.pc.queue[k])
    ensures (forall l :: l in labels ==> Quiet(l)) && !Converged(Run(ref, s, labels))
  {
    var r := Run(ref, s, Loses(k));
    RunKeepsInv(ref, s, Loses(k));
    LoseMany(ref, s, k);
    ReceivedIsOutdated(ref, r);
    RunOne(ref, r, Receive);
    RunConcat(ref, s, Loses(k), [Receive]);
    labels := Loses(k) + [Receive];
  }

  /** One such run, from the start. With "absent" cached and the events of an addition and a deletion queued, a get
      also says absent and the watch is kept; then the addition is received, although the API has not changed since
      the get. So the index of CacheIsExplained cannot be the time of the last full read. */
  lemma ConfirmedThenOutdated(ref: Ref) returns (labels: seq<Label>, n: nat)
    ensures n + 1 == |labels| && labels[n] == Receive
    ensures Converged(Run(ref, START, labels[..n])) && Run(ref, START, labels[..n]).res.lastSync == 7
    ensures Run(ref, START, labels).log == Run(ref, START, labels[..n]).log
    ensures !Converged(Run(ref, START, labels)) && Run(ref, START, labels).res.secret.present
  {
    var open := [List(ListAnswered), Store(1)] + [Open(true)];
    var changes := [Apply(map[], true), Delete(true)];
    var get := [Reconcile(GetAnswered), Store(7)];
    labels, n := open + changes + get + [Receive], 7;
    assert labels[..n] == open + changes + get;
    RunConcat(ref, START, [List(ListAnswered), Store(1)], [Open(true)]);
    RunTwo(ref, START, List(ListAnswered), Store(1));
    RunOne(ref, Next(ref, Next(ref, START, List(ListAnswered)), Store(1)), Open(true));
    EmptyWatch(ref);
    var s3 := Run(ref, START, open);
    RunConcat(ref, START, open, changes);
    RunTwo(ref, s3, Apply(map[], true), Delete(true));
    AddedAndDeleted(ref, s3);
    var s5 := Run(ref, START, open + changes);
    RunConcat(ref, START, open + changes, get);
    RunTwo(ref, s5, Reconcile(GetAnswered), Store(7));
    RunConcat(ref, START, open + changes + get, [Receive]);
    RunOne(ref, Run(ref, START, open + changes + get), Receive);
    AbsenceConfirmed(ref, s5);
  }

  lemma RunOne(ref: Ref, s: State, l: Label)
    ensures Run(ref, s, [l]) == Next(ref, s, l)
  {
    assert [l][1..] == [];
  }

  lemma RunTwo(ref: Ref, s: State, k: Label, l: Label)
    ensures Run(ref, s, [k, l]) == Next(ref, Next(ref, s, k), l)
  {
    assert [k, l] == [k] + [l];
    RunConcat(ref, s, [k], [l]);
    RunOne(ref, s, k);
    RunOne(ref, Next(ref, s, k), l);
  }

  lemma EmptyWatch(ref: Ref)
    ensures var s := Next(ref, Next(ref, Next(ref, START, List(ListAnswered)), Store(1)), Open(true));
      s.pc == Watching([], None) && s.res.secret == View(None) && s.log == START.log && s.rv == 100
  {
    var s := Next(ref, Next(ref, START, List(ListAnswered)), Store(1));
    assert s == START.(res := s.res, pc := Opening(100)) && s.res.secret == View(None);
    assert Told(s.log, 100) == [];
  }

  lemma AddedAndDeleted(ref: Ref, s: State)
    requires s.pc == Watching([], None) && |s.log| == 1 && s.log[0].obj.None?
    ensures var r := Next(ref, Next(ref, s, Apply(map[], true)), Delete(true));
      r == s.(pc := Watching([Of(1), Of(2)], None), rv := s.rv + 2, log := r.log) && |r.log| == 3 &&
      r.log[0].obj.None? && r.log[1].obj.Some? && Matches(ref, r.log[1].obj.value) && r.log[2].obj.None?
  {
    var m := Next(ref, s, Apply(map[], true));
    assert m.pc == Watching([Of(1)], None) && Current(m).Some?;
    var r := Next(ref, m, Delete(true));
    assert r.pc == Watching([Of(1), Of(2)], None);
  }

  lemma AbsenceConfirmed(ref: Ref, s: State)
    requires s.pc == Watching([Of(1), Of(2)], None) && |s.log| == 3 && s.res.secret == View(None)
    requires s.log[0].obj.None? && s.log[1].obj.Some? && Matches(ref, s.log[1].obj.value) && s.log[2].obj.None?
    ensures var c := GotAndStored(ref, s, 7);
      Converged(c) && c.res.lastSync == 7 && c.log == s.log &&
      var r := Next(ref, c, Receive);
      r.log == s.log && !Converged(r) && r.res.secret.present
  {
    var c := GotAndStored(ref, s, 7);
    assert c == s.(res := c.res) && c.res.secret == View(None);
    assert EventAt(c, Of(1)) == EventFor(None, s.log[1].obj, s.log[1].rv);
  }

  // ---- What a reconciliation does to the watch ----

  /** A reconciliation keeps the watch, with everything it holds, exactly when the cache already shows what the API
      holds; otherwise the watch is given up for a new list. */
  lemma WatchKeptIff(ref: Ref, s: State, now: nat)
    requires Inv(ref, s) && Idle(s.pc)
    ensures GotAndStored(ref, s, now).pc == if s.res.secret == View(Current(s)) then s.pc else Listing
  {
    ReconciledIs(ref, s, now);
    var n := |s.log| - 1;
    ByVersion(ref, s.log, s.idx, n);
    assert ObjectOf(ref, s.log, n) && ObjectOf(ref, s.log, s.idx);
  }

  // ---- The counters and the time of the last full retrieval ----

  /** A watch fails: it cannot be opened, brings something that must not be acted on, or its handling panics. */
  predicate WatchFails(s: State, l: Label) {
    || (l == Open(false) && s.pc.Opening?)
    || (l == Receive && Idle(s.pc) && s.pc.queue != [] && s.pc.queue[0].Stray? && s.pc.queue[0].ev.kind != Bookmark)
    || l == Panic
  }

  /** A full retrieval fails: a list or a get, unless the manager is being cancelled. */
  predicate SyncFails(ref: Ref, s: State, l: Label) {
    || (l.List? && s.pc.Listing? && l.answer.ListBroken? && Faulty(ref, l.answer.broken) &&
        l.answer.broken != ListFailed(true))
    || (l.Reconcile? && Idle(s.pc) && l.outcome.GetBroken? && FaultyGet(ref, l.outcome.failed) &&
        l.outcome.failed != GetFailed(true))
  }

  /** An answer in hand is stored. */
  predicate Stores(s: State, l: Label) {
    l.Store? && (s.pc.Answered? || (s.pc.Watching? && s.pc.got.Some?))
  }

  lemma StepCounts(ref: Ref, s: State, l: Label)
    requires Inv(ref, s)
    ensures var t := Next(ref, s, l);
      && t.res.watchErrors == s.res.watchErrors + (if WatchFails(s, l) then 1 else 0)
      && t.res.syncErrors == s.res.syncErrors + (if SyncFails(ref, s, l) then 1 else 0)
      && t.res.lastSync == if Stores(s, l) then l.now else s.res.lastSync
  {
    match l
    case Receive => if Idle(s.pc) && s.pc.queue != [] { ReceiveCounts(ref, s); }
    case Store(now) => StoreCounts(ref, s, now);
    case List(answer) =>
      if s.pc.Listing? && answer.ListBroken? && Faulty(ref, answer.broken) { ListMeans(ref, s.res, answer.broken, 0); }
    case _ =>
  }

  lemma ReceiveCounts(ref: Ref, s: State)
    requires Inv(ref, s) && Idle(s.pc) && s.pc.queue != []
    ensures var t := Next(ref, s, Receive);
      && t.res.watchErrors == s.res.watchErrors + (if WatchFails(s, Receive) then 1 else 0)
      && t.res.syncErrors == s.res.syncErrors && t.res.lastSync == s.res.lastSync
  {
    var p := s.pc.queue[0];
    EventMeans(ref, s.res, EventAt(s, p));
    if p.Of? {
      assert DeletesWhatExists(s.log, p.i) && ObjectOf(ref, s.log, p.i) && ObjectOf(ref, s.log, p.i - 1);
    }
  }

  lemma StoreCounts(ref: Ref, s: State, now: nat)
    requires Inv(ref, s)
    ensures var t := Next(ref, s, Store(now));
      && t.res.watchErrors == s.res.watchErrors && t.res.syncErrors == s.res.syncErrors
      && t.res.lastSync == if Stores(s, Store(now)) then now else s.res.lastSync
  {
    match s.pc
    case Answered(at, from) => StoredList(ref, s, at, from, now);
    case Watching(queue, Some(at)) => assert ObjectOf(ref, s.log, at);
    case _ =>
  }

  /** How many of the steps fail a watch, and how many fail a retrieval. */
  function Failures(ref: Ref, s: State, labels: seq<Label>): (nat, nat)
    decreases |labels|
  {
    if labels == [] then (0, 0)
    else
      var (w, f) := Failures(ref, Next(ref, s, labels[0]), labels[1..]);
      (w + (if WatchFails(s, labels[0]) then 1 else 0), f + (if SyncFails(ref, s, labels[0]) then 1 else 0))
  }

  /** Over every run, the error counters count exactly the failures. */
  lemma {:induction false} ErrorsAreCounted(ref: Ref, s: State, labels: seq<Label>)
    requires Inv(ref, s)
    ensures var r := Run(ref, s, labels);
      (r.res.watchErrors, r.res.syncErrors) ==
      (s.res.watchErrors + Failures(ref, s, labels).0, s.res.syncErrors + Failures(ref, s, labels).1)
    decreases |labels|
  {
    if labels != [] {
      StepCounts(ref, s, labels[0]);
      StepKeepsInv(ref, s, labels[0]);
      ErrorsAreCounted(ref, Next(ref, s, labels[0]), labels[1..]);
    }
  }

  // ---- Incarnations ----

  /** The entry at which the incarnation that entry `i` shows was created. */
  function Birth(log: seq<Change>, i: nat): (c: nat)
    requires i < |log|
    ensures c <= i
  {
    if i == 0 || log[i - 1].obj.None? then i else Birth(log, i - 1)
  }

  lemma {:induction false} BirthIs(log: seq<Change>, i: nat)
    requires i < |log| && log[i].obj.Some?
    ensures var c := Birth(log, i);
      (c == 0 || log[c - 1].obj.None?) && forall m :: c <= m <= i ==> log[m].obj.Some?
  {
    if i > 0 && log[i - 1].obj.Some? {
      BirthIs(log, i - 1);
    }
  }

  /** Every object carries the UID its incarnation was created with. */
  ghost predicate UidsOk(log: seq<Change>) {
    forall i :: 0 <= i < |log| ==> UidOk(log, i)
  }

  predicate UidOk(log: seq<Change>, i: nat)
    requires i < |log|
  {
    log[i].obj.Some? ==> log[i].obj.value.uid == "uid-" + Decimal(log[Birth(log, i)].rv)
  }

  lemma {:induction false} BirthStays(log: seq<Change>, c: Change, i: nat)
    requires i < |log|
    ensures Birth(log + [c], i) == Birth(log, i)
  {
    if i > 0 && log[i - 1].obj.Some? {
      BirthStays(log, c, i - 1);
    }
  }

  lemma ChangeKeepsUids(ref: Ref, s: State, obj: Option<Obj>, notify: bool)
    requires s.log != [] && UidsOk(s.log)
    requires var current := Current(s);
      obj.Some? ==> obj.value.uid == if current.Some? then current.value.uid else "uid-" + Decimal(s.rv + 1)
    ensures UidsOk(Changed(s, obj, notify).log)
  {
    var c := Change(s.rv + 1, obj, notify);
    var log := s.log + [c];
    var n := |s.log|;
    forall i | 0 <= i < |log| ensures UidOk(log, i) {
      if i < n {
        BirthStays(s.log, c, i);
        assert UidOk(s.log, i);
      } else if obj.Some? && Current(s).Some? {
        BirthStays(s.log, c, n - 1);
        assert UidOk(s.log, n - 1) && Birth(log, n) == Birth(log, n - 1);
      }
    }
  }

  lemma {:induction false} RunKeepsUids(ref: Ref, s: State, labels: seq<Label>)
    requires s.log != [] && UidsOk(s.log)
    ensures UidsOk(Run(ref, s, labels).log)
    decreases |labels|
  {
    if labels != [] {
      StepKeepsUids(ref, s, labels[0]);
      RunKeepsUids(ref, Next(ref, s, labels[0]), labels[1..]);
    }
  }

  lemma StepKeepsUids(ref: Ref, s: State, l: Label)
    requires s.log != [] && UidsOk(s.log)
    ensures Next(ref, s, l).log != [] && UidsOk(Next(ref, s, l).log)
  {
    match l
    case Apply(data, notify) => ChangeKeepsUids(ref, s, Some(Applied(ref, Current(s), s.rv + 1, data)), notify);
    case Delete(notify) => if Current(s).Some? { ChangeKeepsUids(ref, s, None, notify); }
    case _ =>
  }

  /** A UID names one incarnation: it stays the same across updates, and a Secret that was deleted and created again has
      one that it never had before. */
  lemma UidNamesIncarnation(ref: Ref, labels: seq<Label>, i: nat, j: nat)
    requires i <= j < |Run(ref, START, labels).log|
    ensures var log := Run(ref, START, labels).log;
      log[i].obj.Some? && log[j].obj.Some? ==>
        (log[i].obj.value.uid == log[j].obj.value.uid <==> forall m :: i <= m <= j ==> log[m].obj.Some?)
  {
    var log := Run(ref, START, labels).log;
    assert UidsOk(START.log);
    RunKeepsUids(ref, START, labels);
    StartOk(ref);
    RunKeepsInv(ref, START, labels);
    if log[i].obj.Some? && log[j].obj.Some? {
      var a, b := Birth(log, i), Birth(log, j);
      BirthIs(log, i);
      BirthIs(log, j);
      assert UidOk(log, i) && UidOk(log, j);
      ByVersion(ref, log, a, b);
      SameUid(log[a].rv, log[b].rv);
      BirthsAgree(log, i, j);
    }
  }

  lemma SameUid(m: nat, n: nat)
    ensures "uid-" + Decimal(m) == "uid-" + Decimal(n) <==> m == n
  {
    if "uid-" + Decimal(m) == "uid-" + Decimal(n) {
      assert ("uid-" + Decimal(m))[4..] == Decimal(m) && ("uid-" + Decimal(n))[4..] == Decimal(n);
      DecimalInjective(m, n);
    }
  }

  /** Two entries have one birth exactly when the Secret is there all the way between them. */
  lemma {:induction false} BirthsAgree(log: seq<Change>, i: nat, j: nat)
    requires i <= j < |log| && log[i].obj.Some? && log[j].obj.Some?
    ensures Birth(log, i) == Birth(log, j) <==> forall m :: i <= m <= j ==> log[m].obj.Some?
    decreases j
  {
    BirthIs(log, i);
    BirthIs(log, j);
    if i < j && log[j - 1].obj.Some? {
      BirthsAgree(log, i, j - 1);
    } else if i < j {
      assert Birth(log, j) == j;
    }
  }
}
