/** The Kubernetes API as the gateway sees it: for every Secret a history of states, and list, get and
    watch-from-a-version over that history (gateway/internal/kubernetes/kubetest/fake.go). */
module SecretApi {
  import opened Text
  import opened Snapshot

  datatype Ref = Ref(namespace: string, name: string)

  /** An API object. A resourceVersion is a positive number; 0 stands for the empty string. */
  datatype Obj = Obj(namespace: string, name: string, rv: nat, uid: string, data: Data)

  /** One entry of a Secret's history: the version it was made at, the state it left, and whether watches are told. */
  datatype Change = Change(rv: nat, obj: Option<Obj>, notified: bool)

  datatype Kind = Added | Modified | Deleted | Bookmark | Error | Unknown

  /** What a watch delivers. `payload` is None if it is not a Secret. */
  datatype Event = Event(kind: Kind, payload: Option<Obj>)

  /** resource.matches. */
  predicate Matches(ref: Ref, o: Obj) {
    o.name == ref.name && (o.namespace == "" || o.namespace == ref.namespace)
  }

  /** A history: it starts absent, versions increase, only what exists is deleted, and every object is of this Secret
      at its version. */
  ghost predicate IsHistory(ref: Ref, log: seq<Change>) {
    && |log| > 0 && log[0].obj.None?
    && (forall i, j :: 0 <= i < j < |log| ==> Earlier(log, i, j))
    && (forall i :: 0 <= i < |log| ==> ObjectOf(ref, log, i))
    && (forall i :: 0 < i < |log| ==> DeletesWhatExists(log, i))
  }

  predicate Earlier(log: seq<Change>, i: nat, j: nat)
    requires i < |log| && j < |log|
  {
    log[i].rv < log[j].rv
  }

  predicate ObjectOf(ref: Ref, log: seq<Change>, i: nat)
    requires i < |log|
  {
    log[i].obj.Some? ==> Matches(ref, log[i].obj.value) && log[i].obj.value.rv == log[i].rv > 0
  }

  /** Versions order the history. */
  lemma ByVersion(ref: Ref, log: seq<Change>, i: nat, j: nat)
    requires IsHistory(ref, log) && i < |log| && j < |log|
    ensures log[i].rv < log[j].rv <==> i < j
    ensures log[i].rv == log[j].rv <==> i == j
  {
    assert i < j ==> Earlier(log, i, j);
    assert j < i ==> Earlier(log, j, i);
  }

  predicate DeletesWhatExists(log: seq<Change>, i: nat)
    requires 0 < i < |log|
  {
    log[i].obj.None? ==> log[i - 1].obj.Some?
  }

  lemma HistoryGrows(ref: Ref, log: seq<Change>, c: Change)
    requires IsHistory(ref, log) && c.rv > Last(log).rv
    requires c.obj.Some? ==> Matches(ref, c.obj.value) && c.obj.value.rv == c.rv
    requires c.obj.None? ==> Last(log).obj.Some?
    ensures IsHistory(ref, log + [c])
  {
    var log' := log + [c];
    forall i, j | 0 <= i < j < |log'| ensures Earlier(log', i, j) {
      if j == |log| { ByVersion(ref, log, i, |log| - 1); } else { assert Earlier(log, i, j); }
    }
    forall i | 0 <= i < |log'| ensures ObjectOf(ref, log', i) {
      if i < |log| { assert ObjectOf(ref, log, i); }
    }
    forall i | 0 < i < |log'| ensures DeletesWhatExists(log', i) {
      if i < |log| { assert DeletesWhatExists(log, i); }
    }
  }

  function Last(log: seq<Change>): Change
    requires |log| > 0
  {
    log[|log| - 1]
  }

  /** The event a change to `next` at version `rv` causes. A deletion carries the object as it was, at the deletion's
      version. */
  function EventFor(before: Option<Obj>, next: Option<Obj>, rv: nat): Event {
    match next
    case Some(o) => Event(if before.Some? then Modified else Added, next)
    case None => Event(Deleted, if before.Some? then Some(before.value.(rv := rv)) else None)
  }

  function EventOf(log: seq<Change>, i: nat): Event
    requires 0 < i < |log|
  {
    EventFor(log[i - 1].obj, log[i].obj, log[i].rv)
  }

  /** An event says whether the Secret came, changed or went, and carries the object the change left, or the one it took
      away, at the version of the change. */
  lemma EventShows(log: seq<Change>, i: nat)
    requires 0 < i < |log| && (log[i - 1].obj.Some? || log[i].obj.Some?)
    ensures var ev, before, after := EventOf(log, i), log[i - 1].obj, log[i].obj;
      && (ev.kind == Added <==> before.None? && after.Some?)
      && (ev.kind == Modified <==> before.Some? && after.Some?)
      && (ev.kind == Deleted <==> after.None?)
      && ev.payload == if after.Some? then after else Some(before.value.(rv := log[i].rv))
  {
  }

  /** The changes a watch started at version `from` is told of: every notified one after it, in order. */
  function Told(log: seq<Change>, from: nat): seq<nat> {
    if |log| <= 1 then []
    else
      var n := |log| - 1;
      var earlier := Told(log[..n], from);
      if log[n].notified && log[n].rv > from then earlier + [n] else earlier
  }

  lemma {:induction false} ToldIsAfter(log: seq<Change>, from: nat)
    ensures forall k :: 0 <= k < |Told(log, from)| ==>
      0 < Told(log, from)[k] < |log| && log[Told(log, from)[k]].rv > from && log[Told(log, from)[k]].notified
    ensures forall k, l :: 0 <= k < l < |Told(log, from)| ==> Told(log, from)[k] < Told(log, from)[l]
    ensures forall i :: 0 < i < |log| && log[i].rv > from && log[i].notified ==> i in Told(log, from)
    decreases |log|
  {
    if |log| > 1 {
      var n := |log| - 1;
      ToldIsAfter(log[..n], from);
      assert forall i :: 0 <= i < n ==> log[..n][i] == log[i];
      forall i | 0 < i < |log| && log[i].rv > from && log[i].notified ensures i in Told(log, from) {
        if i < n { assert i in Told(log[..n], from); }
      }
    }
  }

  lemma {:induction false} NothingTold(log: seq<Change>, from: nat)
    requires forall i :: 0 <= i < |log| ==> log[i].rv <= from
    ensures Told(log, from) == []
    decreases |log|
  {
    if |log| > 1 {
      NothingTold(log[..|log| - 1], from);
    }
  }

  /** The events of those changes. */
  function Events(log: seq<Change>, told: seq<nat>): seq<Event>
    requires forall k :: 0 <= k < |told| ==> 0 < told[k] < |log|
  {
    seq(|told|, k requires 0 <= k < |told| => EventOf(log, told[k]))
  }

  function Replay(log: seq<Change>, from: nat): seq<Event> {
    ToldIsAfter(log, from);
    Events(log, Told(log, from))
  }

  lemma ReplaySnoc(log: seq<Change>, c: Change, from: nat)
    requires |log| > 0
    ensures Replay(log + [c], from) ==
      Replay(log, from) + if c.notified && c.rv > from then [EventFor(Last(log).obj, c.obj, c.rv)] else []
  {
    var log' := log + [c];
    assert log'[..|log|] == log;
    ToldIsAfter(log, from);
    ToldIsAfter(log', from);
    var told, told' := Told(log, from), Told(log', from);
    var n := |told|;
    assert told' == told + if c.notified && c.rv > from then [|log|] else [];
    forall k | 0 <= k < n ensures Replay(log', from)[k] == Replay(log, from)[k] {
      assert told'[k] == told[k] && log'[told[k]] == log[told[k]] && log'[told[k] - 1] == log[told[k] - 1];
    }
  }

  // ---- The fake API ----

  function Decimal(n: nat): string {
    if n < 10 then [('0' as int + n) as char] else Decimal(n / 10) + [('0' as int + n % 10) as char]
  }

  /** Decimal numerals differ for different numbers. */
  lemma {:induction false} DecimalInjective(m: nat, n: nat)
    requires Decimal(m) == Decimal(n)
    ensures m == n
  {
    DecimalLast(m);
    DecimalLast(n);
    if m >= 10 && n >= 10 {
      assert Decimal(m)[..|Decimal(m)| - 1] == Decimal(m / 10) && Decimal(n)[..|Decimal(n)| - 1] == Decimal(n / 10);
      DecimalInjective(m / 10, n / 10);
    }
  }

  lemma {:induction false} DecimalLast(n: nat)
    ensures Decimal(n) != "" && Decimal(n)[|Decimal(n)| - 1] as int == '0' as int + n % 10
    ensures n >= 10 ==> |Decimal(n)| >= 2
  {
    if n >= 10 {
      DecimalLast(n / 10);
    }
  }

  datatype HistoryEntry = HistoryEntry(ref: Ref, rv: nat, ev: Event)

  /** Apply's new object: a known Secret keeps its UID, a new one gets one of its own. */
  function Applied(ref: Ref, existing: Option<Obj>, rv: nat, data: Data): Obj {
    Obj(ref.namespace, ref.name, rv, if existing.Some? then existing.value.uid else "uid-" + Decimal(rv), data)
  }

  /** The recorded events of one Secret after a version. */
  function Recorded(h: seq<HistoryEntry>, ref: Ref, from: nat): seq<Event> {
    if h == [] then []
    else
      var n := |h| - 1;
      var earlier := Recorded(h[..n], ref, from);
      if h[n].ref == ref && h[n].rv > from then earlier + [h[n].ev] else earlier
  }

  type Logs = map<Ref, seq<Change>>

  /** The history of one Secret; the API starts at version 100 with no Secrets. */
  function LogOf(logs: Logs, ref: Ref): (r: seq<Change>)
    ensures |r| > 0
  {
    if ref in logs && |logs[ref]| > 0 then logs[ref] else [Change(100, None, false)]
  }

  predicate Tracks(rv: nat, secrets: map<Ref, Obj>, log: seq<Change>, ref: Ref)
    requires |log| > 0
  {
    Last(log).rv <= rv && Last(log).obj == if ref in secrets then Some(secrets[ref]) else None
  }

  /** The API's fields are what the histories say. */
  ghost predicate Consistent(rv: nat, secrets: map<Ref, Obj>, history: seq<HistoryEntry>, logs: Logs) {
    && (forall ref :: IsHistory(ref, LogOf(logs, ref)) && Tracks(rv, secrets, LogOf(logs, ref), ref))
    && (forall ref, from: nat :: Recorded(history, ref, from) == Replay(LogOf(logs, ref), from))
  }

  function Recording(history: seq<HistoryEntry>, ref: Ref, before: Option<Obj>, c: Change): seq<HistoryEntry> {
    if c.notified then history + [HistoryEntry(ref, c.rv, EventFor(before, c.obj, c.rv))] else history
  }

  lemma RecordingReplays(history: seq<HistoryEntry>, log: seq<Change>, ref: Ref, c: Change, r: Ref, logR: seq<Change>,
      from: nat)
    requires |log| > 0 && Recorded(history, r, from) == Replay(logR, from) && (r == ref ==> logR == log)
    ensures Recorded(Recording(history, ref, Last(log).obj, c), r, from) ==
      Replay(if r == ref then log + [c] else logR, from)
  {
    var h := Recording(history, ref, Last(log).obj, c);
    if c.notified {
      assert h[..|h| - 1] == history;
    }
    if r == ref {
      ReplaySnoc(log, c, from);
    }
  }

  /** A recorded change keeps the fields consistent with the histories. */
  lemma RecordingIsConsistent(rv: nat, secrets: map<Ref, Obj>, history: seq<HistoryEntry>, logs: Logs, ref: Ref,
      c: Change)
    requires Consistent(rv, secrets, history, logs) && c.rv == rv + 1
    requires c.obj.Some? ==> Matches(ref, c.obj.value) && c.obj.value.rv == c.rv
    requires c.obj.None? ==> ref in secrets
    ensures var log := LogOf(logs, ref);
      Consistent(rv + 1, if c.obj.Some? then secrets[ref := c.obj.value] else secrets - {ref},
                 Recording(history, ref, Last(log).obj, c), logs[ref := log + [c]])
  {
    var log := LogOf(logs, ref);
    var logs' := logs[ref := log + [c]];
    assert IsHistory(ref, log) && Tracks(rv, secrets, log, ref);
    HistoryGrows(ref, log, c);
    var secrets' := if c.obj.Some? then secrets[ref := c.obj.value] else secrets - {ref};
    var history' := Recording(history, ref, Last(log).obj, c);
    forall r ensures IsHistory(r, LogOf(logs', r)) && Tracks(rv + 1, secrets', LogOf(logs', r), r) {
      if r != ref {
        assert LogOf(logs', r) == LogOf(logs, r);
        assert Tracks(rv, secrets, LogOf(logs, r), r);
      } else {
        assert LogOf(logs', r) == log + [c];
      }
    }
    forall r, from: nat ensures Recorded(history', r, from) == Replay(LogOf(logs', r), from) {
      assert LogOf(logs', r) == if r == ref then log + [c] else LogOf(logs, r);
      RecordingReplays(history, log, ref, c, r, LogOf(logs, r), from);
    }
  }

  /** What the open watches of a Secret hold after one more event: each gets it. */
  function Delivered(open: seq<seq<Event>>, ev: Event): seq<seq<Event>> {
    seq(|open|, i requires 0 <= i < |open| => open[i] + [ev])
  }

  /** The in-memory API of kubetest. `log` is the full history of each Secret, silent changes included; the other
      fields are specified by it. `watches` lists the open watches of each Secret with what they have been sent. */
  class FakeAPI {
    var rv: nat
    var secrets: map<Ref, Obj>
    var history: seq<HistoryEntry>
    var watches: map<Ref, seq<seq<Event>>>
    ghost var log: Logs

    ghost function Log(ref: Ref): (r: seq<Change>)
      reads this
      ensures |r| > 0
    {
      LogOf(log, ref)
    }

    ghost predicate Valid()
      reads this
    {
      Consistent(rv, secrets, history, log)
    }

    constructor ()
      ensures Valid() && log == map[] && secrets == map[] && watches == map[] && rv == 100
    {
      rv, secrets, history, watches, log := 100, map[], [], map[], map[];
    }

    /** ListSecret: the current object, if any, and the version the list is of. */
    method ListSecret(ref: Ref) returns (items: seq<Obj>, version: nat)
      requires Valid()
      ensures version == rv >= Last(Log(ref)).rv
      ensures items == if Last(Log(ref)).obj.Some? then [Last(Log(ref)).obj.value] else []
    {
      assert Tracks(rv, secrets, Log(ref), ref);
      version := rv;
      items := if ref in secrets then [secrets[ref]] else [];
    }

    method GetSecret(ref: Ref) returns (o: Option<Obj>)
      requires Valid()
      ensures o == Last(Log(ref)).obj
    {
      assert Tracks(rv, secrets, Log(ref), ref);
      o := if ref in secrets then Some(secrets[ref]) else None;
    }

    function Open(ref: Ref): seq<seq<Event>>
      reads this
    {
      if ref in watches then watches[ref] else []
    }

    /** WatchSecret: a new watch starts with every recorded change after `version`, so that no change is lost
        between a list and its watch, or with nothing if the version does not parse; the other watches of the Secret
        stay open. */
    method WatchSecret(ref: Ref, version: Option<nat>)
      requires Valid()
      modifies this`watches
      ensures Valid()
      ensures var replayed := if version.Some? then Replay(Log(ref), version.value) else [];
        watches == old(watches)[ref := old(Open(ref)) + [replayed]]
    {
      var from := if version.Some? then version.value else rv;
      if version.None? {
        UpToDate(ref);
      }
      var queue: seq<Event> := [];
      for i := 0 to |history|
        invariant queue == Recorded(history[..i], ref, from)
      {
        assert history[..i + 1][..i] == history[..i];
        if history[i].ref == ref && history[i].rv > from {
          queue := queue + [history[i].ev];
        }
      }
      assert history[..|history|] == history;
      watches := watches[ref := Open(ref) + [queue]];
    }

    /** No change is later than the API's version. */
    lemma UpToDate(ref: Ref)
      requires Valid()
      ensures Replay(Log(ref), rv) == []
    {
      var l := Log(ref);
      assert Tracks(rv, secrets, l, ref) && IsHistory(ref, l);
      forall i | 0 <= i < |l| ensures l[i].rv <= rv {
        ByVersion(ref, l, i, |l| - 1);
      }
      NothingTold(l, rv);
    }

    /** CloseWatches: the server disconnects every watch of a Secret. */
    method CloseWatches(ref: Ref)
      requires Valid()
      modifies this`watches
      ensures Valid() && watches == old(watches) - {ref} && Open(ref) == []
    {
      watches := watches - {ref};
    }

    /** What apply and delete share: the state changes and, unless the change is silent, it is recorded and delivered
        to every open watch, all under one lock. */
    method Record(ref: Ref, obj: Option<Obj>, notify: bool)
      requires Valid()
      requires obj.Some? ==> Matches(ref, obj.value) && obj.value.rv == rv + 1
      requires obj.None? ==> ref in secrets
      modifies this
      ensures Valid() && rv == old(rv) + 1
      ensures log == old(log)[ref := old(Log(ref)) + [Change(rv, obj, notify)]]
      ensures watches == if notify && ref in old(watches)
        then old(watches)[ref := Delivered(old(watches)[ref], EventFor(old(Last(Log(ref)).obj), obj, rv))]
        else old(watches)
    {
      ghost var before, c := Log(ref), Change(rv + 1, obj, notify);
      assert Tracks(rv, secrets, before, ref);
      RecordingIsConsistent(rv, secrets, history, log, ref, c);
      var existing := if ref in secrets then Some(secrets[ref]) else None;
      rv := rv + 1;
      secrets := if obj.Some? then secrets[ref := obj.value] else secrets - {ref};
      log := log[ref := before + [c]];
      if notify {
        var ev := EventFor(existing, obj, rv);
        history := history + [HistoryEntry(ref, rv, ev)];
        if ref in watches {
          var sent: seq<seq<Event>> := [];
          for i := 0 to |watches[ref]|
            invariant ref in watches && |sent| == i && forall k :: 0 <= k < i ==> sent[k] == watches[ref][k] + [ev]
          {
            sent := sent + [watches[ref][i] + [ev]];
          }
          assert sent == Delivered(watches[ref], ev);
          watches := watches[ref := sent];
        }
      }
    }

    /** Apply: create or update a Secret. */
    method Apply(ref: Ref, data: Data, notify: bool)
      requires Valid()
      modifies this
      ensures Valid() && rv == old(rv) + 1
      ensures log == old(log)[ref := old(Log(ref)) +
        [Change(rv, Some(Applied(ref, old(Last(Log(ref)).obj), rv, data)), notify)]]
      ensures var now, before := Last(Log(ref)).obj, old(Last(Log(ref)).obj);
        && now.Some? && now.value == Obj(ref.namespace, ref.name, rv, now.value.uid, data)
        && (before.Some? ==> now.value.uid == before.value.uid)
    {
      assert Tracks(rv, secrets, Log(ref), ref);
      var existing := if ref in secrets then Some(secrets[ref]) else None;
      Record(ref, Some(Applied(ref, existing, rv + 1, data)), notify);
    }

    /** Delete: remove a Secret that exists; nothing happens otherwise. */
    method Delete(ref: Ref, notify: bool)
      requires Valid()
      modifies this
      ensures Valid()
      ensures log == if old(Last(Log(ref)).obj.Some?)
        then old(log)[ref := old(Log(ref)) + [Change(rv, None, notify)]] else old(log)
    {
      assert Tracks(rv, secrets, Log(ref), ref);
      if ref in secrets {
        Record(ref, None, notify);
      }
    }
  }
}
