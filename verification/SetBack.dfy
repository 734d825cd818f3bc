/** The exact condition on the API for a "not modified" to be always right: the Secret is never set back. */
module SetBack {
  import opened Text
  import opened Disk
  import opened SyncProtocol
  import opened SyncInvariant
  import opened SyncTheorems
  import opened SyncWitness
  import opened EndToEnd
  import SecretApi
  import SecretCache
  import Cache = CacheProtocol
  import Bodies = Snapshot
  import Reader = SnapshotReader
  import Serving
  import ETags

  // ---- A watcher that reads every state ----

  predicate Api(l: Cache.Label) {
    l.Apply? || l.Delete? || l.OtherChange?
  }

  /** The API's part of a run. */
  function ApiOf(steps: seq<Cache.Label>): seq<Cache.Label> {
    if steps == [] then []
    else
      var n := |steps| - 1;
      if Api(steps[n]) then ApiOf(steps[..n]) + [steps[n]] else ApiOf(steps[..n])
  }

  /** List and store after a change, and fail to open the watch. */
  const LIST: seq<Cache.Label> := [Cache.List(Cache.ListAnswered), Cache.Store(0)]
  const READ: seq<Cache.Label> := LIST + [Cache.Open(false)]

  /** The same API, read after every one of its steps. */
  function Eager(api: seq<Cache.Label>): seq<Cache.Label> {
    if api == [] then [] else Eager(api[..|api| - 1]) + [api[|api| - 1]] + READ
  }

  /** Two states in which the API is the same. */
  predicate SameApi(s: Cache.State, t: Cache.State) {
    s.log == t.log && s.rv == t.rv
  }

  lemma ApiStep(ref: SecretApi.Ref, s: Cache.State, t: Cache.State, l: Cache.Label)
    requires SameApi(s, t)
    ensures Api(l) ==> SameApi(Cache.Next(ref, s, l), Cache.Next(ref, t, l))
    ensures !Api(l) ==> SameApi(Cache.Next(ref, s, l), t)
  {
  }

  lemma Snoc(ref: SecretApi.Ref, o: Cache.State, a: seq<Cache.Label>, l: Cache.Label)
    ensures Cache.Run(ref, o, a + [l]) == Cache.Next(ref, Cache.Run(ref, o, a), l)
  {
    Cache.RunConcat(ref, o, a, [l]);
    Cache.RunOne(ref, Cache.Run(ref, o, a), l);
  }

  /** The watcher's steps do not touch the history. */
  lemma {:induction false} ApiAlone(ref: SecretApi.Ref, o: Cache.State, steps: seq<Cache.Label>)
    ensures SameApi(Cache.Run(ref, o, steps), Cache.Run(ref, o, ApiOf(steps)))
    ensures forall l :: l in ApiOf(steps) ==> Api(l)
    decreases |steps|
  {
    if steps != [] {
      var init, l := steps[..|steps| - 1], steps[|steps| - 1];
      assert steps == init + [l];
      ApiAlone(ref, o, init);
      Snoc(ref, o, init, l);
      Snoc(ref, o, ApiOf(init), l);
      ApiStep(ref, Cache.Run(ref, o, init), Cache.Run(ref, o, ApiOf(init)), l);
    }
  }

  /** Reading shows the current state and leaves the watcher ready to list again. */
  lemma ReadShows(ref: SecretApi.Ref, s: Cache.State)
    requires Cache.Inv(ref, s) && s.pc.Listing?
    ensures var t := Cache.Next(ref, Cache.Next(ref, s, Cache.List(Cache.ListAnswered)), Cache.Store(0));
      && SameApi(s, t) && t.res.secret == SecretCache.View(Cache.Current(s)) && t.pc.Opening?
      && var u := Cache.Next(ref, t, Cache.Open(false)); SameApi(s, u) && u.pc.Listing?
  {
    var a := Cache.Next(ref, s, Cache.List(Cache.ListAnswered));
    Cache.StepKeepsInv(ref, s, Cache.List(Cache.ListAnswered));
    Cache.StoredList(ref, a, a.pc.at, a.pc.from, 0);
  }

  /** Entry `h` of the history is shown after `at` steps. */
  ghost predicate ShownAfter(ref: SecretApi.Ref, o: Cache.State, steps: seq<Cache.Label>, log: seq<SecretApi.Change>,
      at: nat, h: nat) {
    at <= |steps| && h < |log| && Cache.Run(ref, o, steps[..at]).res.secret == SecretCache.View(log[h].obj)
  }

  /** Every entry of the history but the first is shown, in order: entry `h` after `at[h]` steps. */
  ghost predicate ShowsAll(ref: SecretApi.Ref, o: Cache.State, steps: seq<Cache.Label>, log: seq<SecretApi.Change>,
      at: seq<nat>) {
    && |at| == |log|
    && (forall h :: 0 < h < |at| ==> ShownAfter(ref, o, steps, log, at[h], h))
    && (forall g, h :: 0 <= g < h < |at| ==> at[g] <= at[h])
    && (forall h :: 0 <= h < |at| ==> at[h] <= |steps|)
  }

  /** Further steps, and a further entry once it is shown, keep that so. */
  lemma ShowsMore(
      ref: SecretApi.Ref, o: Cache.State, steps: seq<Cache.Label>, more: seq<Cache.Label>, log: seq<SecretApi.Change>,
      log': seq<SecretApi.Change>, at: seq<nat>, last: nat) returns (at': seq<nat>)
    requires ShowsAll(ref, o, steps, log, at) && log <= log' && |log'| <= |log| + 1 && |steps| <= last
    requires log' != [] && ShownAfter(ref, o, steps + more, log', last, |log'| - 1)
    ensures ShowsAll(ref, o, steps + more, log', at')
  {
    at' := if |log'| > |log| then at + [last] else at;
    forall h | 0 < h < |at'| ensures ShownAfter(ref, o, steps + more, log', at'[h], h) {
      if h < |at| {
        assert ShownAfter(ref, o, steps, log, at[h], h);
        assert (steps + more)[..at[h]] == steps[..at[h]];
      }
    }
  }

  /** Where the eager watcher stands after the API's steps. */
  ghost predicate Ready(ref: SecretApi.Ref, o: Cache.State, api: seq<Cache.Label>) {
    var s := Cache.Run(ref, o, Eager(api));
    SameApi(s, Cache.Run(ref, o, api)) && s.pc.Listing?
  }

  /** The eager watcher shows every entry of the history but the first, in order. */
  lemma {:induction false} EagerShowsAll(ref: SecretApi.Ref, o: Cache.State, api: seq<Cache.Label>)
    returns (at: seq<nat>)
    requires Cache.Inv(ref, o) && o.pc.Listing? && |o.log| == 1 && forall l :: l in api ==> Api(l)
    ensures Ready(ref, o, api) && ShowsAll(ref, o, Eager(api), Cache.Run(ref, o, Eager(api)).log, at)
    decreases |api|
  {
    if api == [] {
      at := [0];
    } else {
      var init, l := api[..|api| - 1], api[|api| - 1];
      assert api == init + [l];
      var before := EagerShowsAll(ref, o, init);
      OneMoreRead(ref, o, init, l);
      assert Eager(api) == Eager(init) + ([l] + READ);
      at := ShowsMore(ref, o, Eager(init), [l] + READ, Cache.Run(ref, o, Eager(init)).log,
                      Cache.Run(ref, o, Eager(api)).log, before, |Eager(init)| + 3);
    }
  }

  lemma OneMoreRead(ref: SecretApi.Ref, o: Cache.State, init: seq<Cache.Label>, l: Cache.Label)
    requires Cache.Inv(ref, o) && Api(l) && Ready(ref, o, init)
    ensures var log, e := Cache.Run(ref, o, Eager(init)).log, Eager(init + [l]);
      var log' := Cache.Run(ref, o, e).log;
      && Ready(ref, o, init + [l]) && log <= log' && log' != [] && |log'| <= |log| + 1
      && ShownAfter(ref, o, e, log', |Eager(init)| + 3, |log'| - 1)
  {
    var e := Eager(init);
    var s := Cache.Run(ref, o, e);
    assert (init + [l])[..|init|] == init;
    assert Eager(init + [l]) == e + [l] + READ;
    Snoc(ref, o, e, l);
    Snoc(ref, o, init, l);
    ApiStep(ref, s, Cache.Run(ref, o, init), l);
    Grows(ref, s, l);
    RunsRead(ref, o, e + [l]);
  }

  /** A step of the API adds at most one entry, at the end, and leaves a listing watcher listing. */
  lemma Grows(ref: SecretApi.Ref, s: Cache.State, l: Cache.Label)
    requires Api(l) && s.pc.Listing?
    ensures var t := Cache.Next(ref, s, l); t.pc.Listing? && s.log <= t.log && |t.log| <= |s.log| + 1
  {
  }

  lemma RunsRead(ref: SecretApi.Ref, o: Cache.State, a: seq<Cache.Label>)
    requires Cache.Inv(ref, o) && Cache.Run(ref, o, a).pc.Listing?
    ensures var s, r := Cache.Run(ref, o, a), Cache.Run(ref, o, a + READ);
      && SameApi(s, r) && r.pc.Listing? && |READ| == 3 && s.log != []
      && ShownAfter(ref, o, a + READ, s.log, |a| + 2, |s.log| - 1)
  {
    InvHere(ref, o, a);
    ListShows(ref, o, a);
    Snoc(ref, o, a + LIST, Cache.Open(false));
    assert a + READ == a + LIST + [Cache.Open(false)];
    assert (a + READ)[..|a| + 2] == a + LIST;
  }

  lemma ListShows(ref: SecretApi.Ref, o: Cache.State, a: seq<Cache.Label>)
    requires Cache.Inv(ref, Cache.Run(ref, o, a)) && Cache.Run(ref, o, a).pc.Listing?
    ensures var s, t := Cache.Run(ref, o, a), Cache.Run(ref, o, a + LIST);
      && s.log != [] && SameApi(s, t) && t.res.secret == SecretCache.View(s.log[|s.log| - 1].obj)
      && SameApi(s, Cache.Next(ref, t, Cache.Open(false))) && Cache.Next(ref, t, Cache.Open(false)).pc.Listing?
  {
    var s := Cache.Run(ref, o, a);
    ReadShows(ref, s);
    Cache.RunConcat(ref, o, a, LIST);
    Cache.RunTwo(ref, s, Cache.List(Cache.ListAnswered), Cache.Store(0));
  }

  lemma InvHere(ref: SecretApi.Ref, o: Cache.State, a: seq<Cache.Label>)
    requires Cache.Inv(ref, o)
    ensures Cache.Inv(ref, Cache.Run(ref, o, a))
  {
    Cache.RunKeepsInv(ref, o, a);
  }

  // ---- The condition ----

  /** The host, along a run of the watcher. */
  ghost function Along(w: World, mac: ETags.Mac, e: Serving.Exposure, ref: SecretApi.Ref,
      steps: seq<Cache.Label>): World {
    w.(replies := ServedAlong(mac, e, ref, steps))
  }

  lemma SoundAlong(w: World, replies: seq<Reply>)
    requires Sound(w)
    ensures Sound(w.(replies := replies))
  {
    var v := w.(replies := replies);
    assert v.Targets() == w.Targets();
    forall p ensures v.Owns(p) <==> w.Owns(p) {
      TargetPathAlong(w, v, p);
    }
  }

  lemma TargetPathAlong(w: World, v: World, p: Path)
    requires v.Targets() == w.Targets()
    ensures v.IsTargetPath(p) <==> w.IsTargetPath(p)
  {
  }

  /** A history that is set back has a watcher along which the gateway relapses: the one that reads every state. */
  lemma SetBackRelapses(
      w: World, mac: ETags.Mac, e: Serving.Exposure, ref: SecretApi.Ref, steps: seq<Cache.Label>, i: nat, j: nat,
      k: nat)
    returns (eager: seq<Cache.Label>)
    requires PlainKeys(e.keys) && forall t :: 0 <= t < |w.Targets()| ==> w.Targets()[t].key in e.keys
    requires !NotSetBack(e.keys, w.Targets(), Cache.Run(ref, Cache.START, steps).log, i, j, k)
    ensures Cache.Run(ref, Cache.START, eager).log == Cache.Run(ref, Cache.START, steps).log
    ensures !NoRelapse(Along(w, mac, e, ref, eager))
  {
    var log := Cache.Run(ref, Cache.START, steps).log;
    var at;
    eager, at := EagerOf(ref, steps);
    var v := Along(w, mac, e, ref, eager);
    AllAreServed(v, mac, e, ref, eager, log, at);
    ShownThrice(e.keys, w.Targets(), log, i, j, k);
    NotFirst(ref, steps, e.keys, i);
    ServedSetBack(v, mac, e.keys, log, at, i, j, k);
  }

  lemma ShownThrice(keys: seq<string>, targets: seq<Target>, log: seq<SecretApi.Change>, i: nat, j: nat, k: nat)
    requires !NotSetBack(keys, targets, log, i, j, k)
    ensures i <= j <= k && Shown(keys, log, i) && Shown(keys, log, j) && Shown(keys, log, k)
  {
  }

  /** Reply `at[h]` is installable and shows entry `h`, for every entry that can be delivered. */
  ghost predicate AllServed(v: World, mac: ETags.Mac, keys: seq<string>, log: seq<SecretApi.Change>, at: seq<nat>) {
    && |at| == |log| && (forall g, h :: 0 <= g < h < |at| ==> at[g] <= at[h])
    && (forall h: nat :: 0 < h && Shown(keys, log, h) ==>
          v.Installable(at[h]) && ShowsObject(mac, keys, log[h].obj.value, v.replies[at[h]]))
  }

  lemma AllAreServed(
      v: World, mac: ETags.Mac, e: Serving.Exposure, ref: SecretApi.Ref, steps: seq<Cache.Label>,
      log: seq<SecretApi.Change>, at: seq<nat>)
    requires PlainKeys(e.keys) && v.replies == ServedAlong(mac, e, ref, steps)
    requires forall t :: 0 <= t < |v.Targets()| ==> v.Targets()[t].key in e.keys
    requires ShowsAll(ref, Cache.START, steps, log, at)
    ensures AllServed(v, mac, e.keys, log, at)
  {
    forall h: nat | 0 < h && Shown(e.keys, log, h)
      ensures v.Installable(at[h]) && ShowsObject(mac, e.keys, log[h].obj.value, v.replies[at[h]])
    {
      ReplyAt(v, mac, e, ref, steps, log, at[h], h);
    }
  }

  lemma EagerOf(ref: SecretApi.Ref, steps: seq<Cache.Label>) returns (eager: seq<Cache.Label>, at: seq<nat>)
    ensures Cache.Run(ref, Cache.START, eager).log == Cache.Run(ref, Cache.START, steps).log
    ensures ShowsAll(ref, Cache.START, eager, Cache.Run(ref, Cache.START, steps).log, at)
  {
    ApiAlone(ref, Cache.START, steps);
    at := EagerShowsAll(ref, Cache.START, ApiOf(steps));
    eager := Eager(ApiOf(steps));
  }

  /** A history starts with an absence, so what is shown is not its first entry. */
  lemma NotFirst(ref: SecretApi.Ref, steps: seq<Cache.Label>, keys: seq<string>, h: nat)
    requires Shown(keys, Cache.Run(ref, Cache.START, steps).log, h)
    ensures h > 0
  {
    Cache.StartOk(ref);
    Cache.RunKeepsInv(ref, Cache.START, steps);
  }

  /** Serving three entries between which the Secret is set back is a relapse. */
  lemma ServedSetBack(
      v: World, mac: ETags.Mac, keys: seq<string>, log: seq<SecretApi.Change>, at: seq<nat>, i: nat, j: nat, k: nat)
    requires AllServed(v, mac, keys, log, at) && 0 < i && !NotSetBack(keys, v.Targets(), log, i, j, k)
    ensures !NoRelapse(v)
  {
    var a, b, c := at[i], at[j], at[k];
    WantedIsInstalled(mac, keys, v, a, b, log[i].obj.value, log[j].obj.value);
    SameBody(keys, log[i].obj.value, log[k].obj.value);
    assert SameTag(v, a, c);
    assert !SameBetween(v, a, b, c);
  }

  /** Where the cache shows a deliverable entry, the gateway serves it, and the host can install it. */
  lemma ReplyAt(
      v: World, mac: ETags.Mac, e: Serving.Exposure, ref: SecretApi.Ref, steps: seq<Cache.Label>,
      log: seq<SecretApi.Change>, at: nat, h: nat)
    requires PlainKeys(e.keys) && v.replies == ServedAlong(mac, e, ref, steps)
    requires forall t :: 0 <= t < |v.Targets()| ==> v.Targets()[t].key in e.keys
    requires ShownAfter(ref, Cache.START, steps, log, at, h) && Shown(e.keys, log, h)
    ensures v.Installable(at) && ShowsObject(mac, e.keys, log[h].obj.value, v.replies[at])
  {
    ReplyShowsObject(mac, e, log[h].obj);
    assert v.replies[at] == ReplyOf(mac, e, SecretCache.View(log[h].obj));
  }

  /** Objects that show the same data have the same body. */
  lemma SameBody(keys: seq<string>, o: SecretApi.Obj, p: SecretApi.Obj)
    requires Bodies.HasAll(o.data, keys) && Bodies.HasAll(p.data, keys)
    requires Reader.Restricted(o.data, keys) == Reader.Restricted(p.data, keys)
    ensures Bodies.Body(o.data, keys) == Bodies.Body(p.data, keys)
  {
    forall k | k in keys ensures o.data[k] == p.data[k] {
      assert Reader.Restricted(o.data, keys)[k] == Reader.Restricted(p.data, keys)[k];
    }
    Bodies.BodyIsCanonical(o.data, p.data, keys, keys);
  }

  /** The exact condition, on the API. For a history that the API can have, and targets whose keys are served: along
      every watcher of that history a "not modified" is always right, if and only if the Secret is never set back. */
  lemma TrustIffNeverSetBack(w: World, mac: ETags.Mac, e: Serving.Exposure, ref: SecretApi.Ref, steps: seq<Cache.Label>)
    requires Sound(w) && ETags.Injective(mac) && PlainKeys(e.keys)
    requires forall t :: 0 <= t < |w.Targets()| ==> w.Targets()[t].key in e.keys
    ensures var log := Cache.Run(ref, Cache.START, steps).log;
      NeverSetBack(e.keys, w.Targets(), log) <==>
      forall other :: Cache.Run(ref, Cache.START, other).log == log ==> NeverMisled(Along(w, mac, e, ref, other))
  {
    var log := Cache.Run(ref, Cache.START, steps).log;
    if NeverSetBack(e.keys, w.Targets(), log) {
      forall other | Cache.Run(ref, Cache.START, other).log == log ensures NeverMisled(Along(w, mac, e, ref, other)) {
        var v := Along(w, mac, e, ref, other);
        SoundAlong(w, v.replies);
        ServedRepliesAreGood(mac, e, ref, other, v);
        ServedRepliesDoNotRelapse(mac, e, ref, other, v);
        TrustIffNoRelapse(v);
      }
    } else {
      var i: nat, j: nat, k: nat :| !NotSetBack(e.keys, w.Targets(), log, i, j, k);
      var eager := SetBackRelapses(w, mac, e, ref, steps, i, j, k);
      var v := Along(w, mac, e, ref, eager);
      SoundAlong(w, v.replies);
      ServedRepliesAreGood(mac, e, ref, eager, v);
      TrustIffNoRelapse(v);
    }
  }
}
