/** The cached state of one Secret and what changes it (gateway/internal/resources/manager.go). */
module SecretCache {
  import opened Text
  import opened Snapshot
  import opened SecretApi

  /** An immutable snapshot, as readers receive it. */
  datatype Secret = Secret(present: bool, synced: bool, data: Data, rv: nat, uid: string)

  const UNKNOWN := Secret(false, false, map[], 0, "")

  /** The snapshot of an API state. */
  function View(o: Option<Obj>): Secret {
    match o
    case None => Secret(false, true, map[], 0, "")
    case Some(obj) => Secret(true, true, obj.data, obj.rv, obj.uid)
  }

  datatype Res = Res(secret: Secret, connected: bool, lastSync: nat, watchErrors: nat, syncErrors: nat)

  function WatchError(r: Res): Res { r.(watchErrors := r.watchErrors + 1) }
  function SyncError(r: Res): Res { r.(syncErrors := r.syncErrors + 1) }

  /** store: replace the cached state; a full retrieval also moves the time of the last one. */
  function Stored(r: Res, o: Option<Obj>, full: bool, now: nat): Res {
    r.(secret := View(o), lastSync := if full then now else r.lastSync)
  }

  /** handleEvent, and whether the watch is kept. */
  function EventHandled(ref: Ref, r: Res, ev: Event): (Res, bool) {
    match ev.kind
    case Bookmark => (r, true)
    case Error => (WatchError(r), false)
    case Unknown => (WatchError(r), false)
    case _ =>
      if ev.payload.None? || !Matches(ref, ev.payload.value) then (WatchError(r), false)
      else (Stored(r, if ev.kind == Deleted then None else ev.payload, false, 0), true)
  }

  /** The answer to a direct get; `Got(None)` is a client that returns neither an object nor an error. An error that
      comes while the manager is being cancelled is not counted. */
  datatype GetAnswer = Got(o: Option<Obj>) | NotFound | GetFailed(cancelled: bool)

  /** reconcile, and whether the watch is kept. */
  function Reconciled(ref: Ref, r: Res, got: GetAnswer, now: nat): (Res, bool) {
    match got
    case GetFailed(cancelled) => (if cancelled then r else SyncError(r), true)
    case NotFound => var r' := Stored(r, None, true, now); (r', Confirms(r.secret, r'.secret))
    case Got(o) =>
      if o.None? || !Matches(ref, o.value) then (SyncError(r), true)
      else var r' := Stored(r, o, true, now); (r', Confirms(r.secret, r'.secret))
  }

  predicate Confirms(prev: Secret, cur: Secret) {
    prev.present == cur.present && prev.rv == cur.rv
  }

  datatype ListAnswer = ListFailed(cancelled: bool) | Listed(items: seq<Obj>, version: nat)

  function FirstMatch(ref: Ref, items: seq<Obj>): Option<Obj> {
    if items == [] then None else if Matches(ref, items[0]) then Some(items[0]) else FirstMatch(ref, items[1..])
  }

  /** list, and the version to watch from if it succeeded. */
  function ListHandled(ref: Ref, r: Res, got: ListAnswer, now: nat): (Res, Option<nat>) {
    match got
    case ListFailed(cancelled) => (if cancelled then r else SyncError(r), None)
    case Listed(items, version) =>
      var found := FirstMatch(ref, items);
      if found.None? && items != [] then (SyncError(r), None)
      else (Stored(r, found, true, now), Some(version))
  }

  /** Faults never corrupt the cache: whatever a list, an event or a get brings, the cached state either stays as it
      is or becomes the snapshot of an object of this Secret, or of its absence, that was just received. */
  lemma FaultsKeepTheState(ref: Ref, r: Res, ev: Event, got: GetAnswer, list: ListAnswer, now: nat)
    ensures EventHandled(ref, r, ev).0.secret == r.secret <== Noise(ref, ev)
    ensures EventHandled(ref, r, ev).1 == (ev.kind == Bookmark || !Noise(ref, ev))
    ensures !Noise(ref, ev) ==>
      EventHandled(ref, r, ev).0.secret == View(if ev.kind == Deleted then None else ev.payload)
    ensures got == GetFailed(false) || got == Got(None) || (got.Got? && got.o.Some? && !Matches(ref, got.o.value)) ==>
      Reconciled(ref, r, got, now) == (SyncError(r), true)
    ensures got == GetFailed(true) ==> Reconciled(ref, r, got, now) == (r, true)
    ensures list == ListFailed(false) || (list.Listed? && list.items != [] && forall o :: o in list.items ==>
      !Matches(ref, o)) ==>
      ListHandled(ref, r, list, now) == (SyncError(r), None)
    ensures list == ListFailed(true) ==> ListHandled(ref, r, list, now) == (r, None)
    ensures list.Listed? && (list.items == [] || exists o :: o in list.items && Matches(ref, o)) ==>
      ListHandled(ref, r, list, now).1 == Some(list.version)
    ensures r.secret.synced ==>
      EventHandled(ref, r, ev).0.secret.synced && Reconciled(ref, r, got, now).0.secret.synced &&
      ListHandled(ref, r, list, now).0.secret.synced
  {
    if list.Listed? {
      FirstMatchFinds(ref, list.items);
    }
  }

  /** An event that tells nothing about the Secret: a bookmark, or something that must not be acted on. */
  predicate Noise(ref: Ref, ev: Event) {
    ev.kind == Bookmark || ev.kind == Error || ev.kind == Unknown || ev.payload.None? || !Matches(ref, ev.payload.value)
  }

  lemma {:induction false} FirstMatchFinds(ref: Ref, items: seq<Obj>)
    ensures FirstMatch(ref, items).None? <==> forall o :: o in items ==> !Matches(ref, o)
    ensures FirstMatch(ref, items).Some? ==>
      FirstMatch(ref, items).value in items && Matches(ref, FirstMatch(ref, items).value)
  {
    if items != [] {
      FirstMatchFinds(ref, items[1..]);
      assert items == [items[0]] + items[1..];
    }
  }

  // ---- What each answer does, in full ----

  /** Added or changed: the object itself. */
  function Cached(o: Obj): Secret { Secret(true, true, o.data, o.rv, o.uid) }

  /** Known to be absent. */
  const ABSENT := Secret(false, true, map[], 0, "")

  /** An object of another Secret: another name, or another namespace that is not left out. */
  predicate OfAnother(ref: Ref, o: Obj) {
    o.name != ref.name || (o.namespace != "" && o.namespace != ref.namespace)
  }

  /** An event of this Secret is stored, a deletion as absence, without touching the time of the last full retrieval;
      a bookmark changes nothing; everything else counts one watch error, leaves the state and ends the watch. */
  lemma EventMeans(ref: Ref, r: Res, ev: Event)
    ensures var (r', keep) := EventHandled(ref, r, ev);
      match ev.kind
      case Bookmark => r' == r && keep
      case Error => r' == r.(watchErrors := r.watchErrors + 1) && !keep
      case Unknown => r' == r.(watchErrors := r.watchErrors + 1) && !keep
      case _ =>
        if ev.payload.None? || OfAnother(ref, ev.payload.value) then
          r' == r.(watchErrors := r.watchErrors + 1) && !keep
        else keep && r' == r.(secret := if ev.kind == Deleted then ABSENT else Cached(ev.payload.value))
  {
  }

  /** A get that found this Secret, or found none, is stored with the time, and keeps the watch exactly when presence
      and version are those cached. Any other answer keeps watch and state, and counts a sync error unless cancelled. */
  lemma GetMeans(ref: Ref, r: Res, got: GetAnswer, now: nat)
    ensures var (r', keep) := Reconciled(ref, r, got, now);
      match got
      case NotFound => r' == r.(secret := ABSENT, lastSync := now) && (keep <==> !r.secret.present && r.secret.rv == 0)
      case GetFailed(cancelled) => keep && r' == if cancelled then r else r.(syncErrors := r.syncErrors + 1)
      case Got(o) =>
        if o.None? || OfAnother(ref, o.value) then keep && r' == r.(syncErrors := r.syncErrors + 1)
        else
          && r' == r.(secret := Cached(o.value), lastSync := now)
          && (keep <==> r.secret.present && r.secret.rv == o.value.rv)
  {
  }

  /** A list is stored with the time: its first object of this Secret, or absence if it is empty. With foreign objects
      only it changes nothing and counts a sync error, as a failed one does unless cancelled. */
  lemma ListMeans(ref: Ref, r: Res, list: ListAnswer, now: nat)
    ensures var (r', version) := ListHandled(ref, r, list, now);
      match list
      case ListFailed(cancelled) => version.None? && r' == if cancelled then r else r.(syncErrors := r.syncErrors + 1)
      case Listed(items, v) =>
        if items == [] then version == Some(v) && r' == r.(secret := ABSENT, lastSync := now)
        else if forall o :: o in items ==> OfAnother(ref, o) then
          version.None? && r' == r.(syncErrors := r.syncErrors + 1)
        else version == Some(v) && exists i ::
          && 0 <= i < |items| && !OfAnother(ref, items[i]) && (forall k :: 0 <= k < i ==> OfAnother(ref, items[k]))
          && r' == r.(secret := Cached(items[i]), lastSync := now)
  {
    if list.Listed? {
      FirstMatchFinds(ref, list.items);
      if exists o :: o in list.items && !OfAnother(ref, o) {
        FirstMatchIsFirst(ref, list.items);
      }
    }
  }

  lemma {:induction false} FirstMatchIsFirst(ref: Ref, items: seq<Obj>)
    requires exists o :: o in items && !OfAnother(ref, o)
    ensures exists i ::
      && 0 <= i < |items| && !OfAnother(ref, items[i]) && (forall k :: 0 <= k < i ==> OfAnother(ref, items[k]))
      && FirstMatch(ref, items) == Some(items[i])
  {
    if OfAnother(ref, items[0]) {
      assert items == [items[0]] + items[1..];
      FirstMatchIsFirst(ref, items[1..]);
      var rest := items[1..];
      var i :|
        && 0 <= i < |rest| && !OfAnother(ref, rest[i]) && (forall k :: 0 <= k < i ==> OfAnother(ref, rest[k]))
        && FirstMatch(ref, rest) == Some(rest[i]);
      assert items[i + 1] == items[1..][i];
      forall k | 0 <= k < i + 1 ensures OfAnother(ref, items[k]) {
        assert k > 0 ==> items[k] == items[1..][k - 1];
      }
    }
  }

  /** resource: only its watcher writes it. */
  class Resource {
    const ref: Ref
    var secret: Secret
    var connected: bool
    var lastSync: nat
    var watchErrors: nat
    var syncErrors: nat

    constructor (ref: Ref)
      ensures this.ref == ref && State() == Res(UNKNOWN, false, 0, 0, 0)
    {
      this.ref := ref;
      secret, connected, lastSync, watchErrors, syncErrors := UNKNOWN, false, 0, 0, 0;
    }

    function State(): Res
      reads this
    {
      Res(secret, connected, lastSync, watchErrors, syncErrors)
    }

    method Store(obj: Option<Obj>, fullSync: bool, now: nat) returns (prev: Secret, cur: Secret)
      modifies this
      ensures State() == Stored(old(State()), obj, fullSync, now) && prev == old(secret) && cur == secret
    {
      cur := Secret(false, true, map[], 0, "");
      if obj.Some? {
        cur := cur.(present := true, rv := obj.value.rv, uid := obj.value.uid, data := obj.value.data);
      }
      prev := secret;
      secret := cur;
      if fullSync {
        lastSync := now;
      }
    }

    method HandleEvent(ev: Event) returns (keep: bool)
      modifies this
      ensures (State(), keep) == EventHandled(ref, old(State()), ev)
    {
      match ev.kind
      case Bookmark => return true;
      case Error => watchErrors := watchErrors + 1; return false;
      case Unknown => watchErrors := watchErrors + 1; return false;
      case _ =>
        if ev.payload.None? {
          watchErrors := watchErrors + 1;
          return false;
        }
        if !Matches(ref, ev.payload.value) {
          watchErrors := watchErrors + 1;
          return false;
        }
        var s := ev.payload;
        if ev.kind == Deleted {
          s := None;
        }
        var _, _ := Store(s, false, 0);
        return true;
    }

    method Reconcile(got: GetAnswer, now: nat) returns (keep: bool)
      modifies this
      ensures (State(), keep) == Reconciled(ref, old(State()), got, now)
    {
      var s: Option<Obj> := None;
      match got {
        case NotFound =>
        case GetFailed(cancelled) =>
          if !cancelled {
            syncErrors := syncErrors + 1;
          }
          return true;
        case Got(o) =>
          if o.None? || !Matches(ref, o.value) {
            syncErrors := syncErrors + 1;
            return true;
          }
          s := o;
      }
      var prev, cur := Store(s, true, now);
      if prev.present != cur.present || prev.rv != cur.rv {
        return false;
      }
      return true;
    }

    method List(got: ListAnswer, now: nat) returns (version: Option<nat>)
      modifies this
      ensures (State(), version) == ListHandled(ref, old(State()), got, now)
    {
      if got.ListFailed? {
        if !got.cancelled {
          syncErrors := syncErrors + 1;
        }
        return None;
      }
      var found: Option<Obj> := None;
      for i := 0 to |got.items|
        invariant found.None? && FirstMatch(ref, got.items) == FirstMatch(ref, got.items[i..])
        invariant State() == old(State())
      {
        if Matches(ref, got.items[i]) {
          found := Some(got.items[i]);
          break;
        }
      }
      if found.None? && |got.items| > 0 {
        syncErrors := syncErrors + 1;
        return None;
      }
      var _, _ := Store(found, true, now);
      return Some(got.version);
    }
  }
}
