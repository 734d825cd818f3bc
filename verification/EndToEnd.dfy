/** From the Kubernetes API to the files of a host: the watcher, the served snapshot, the fetch and the installation
    together. The gateway's steps and the agent's interleave in any way. */
module EndToEnd {
  import opened Text
  import opened Disk
  import opened SyncProtocol
  import opened SyncInvariant
  import opened SyncSteps
  import opened SyncPresence
  import opened SyncTheorems
  import opened SyncRecovery
  import SecretApi
  import SecretCache
  import Cache = CacheProtocol
  import Bodies = Snapshot
  import Reader = SnapshotReader
  import Serving
  import ETags

  /** The agent's request, once its address and credentials are accepted. */
  function Asking(etag: string): Serving.Request {
    Serving.Request("GET", "", false, "", 0, 0, "", [], None, if etag == "" then [] else [etag])
  }

  /** What the agent makes of the gateway's answer to an unconditional request, with `cached` in the cache. */
  function ReplyOf(mac: ETags.Mac, e: Serving.Exposure, cached: SecretCache.Secret): Reply {
    var r := Serving.Delivered(mac, Asking(""), e, cached).reply;
    match Reader.Fetch(Reader.Response(r.status, r.etag, r.body))
    case Result(values, etag) => Snapshot(etag, values)
    case _ => Refused(r.status)
  }

  /** A conditional request is the unconditional one, but for a 304 exactly when the stored tag matches. */
  lemma ConditionalRequest(mac: ETags.Mac, e: Serving.Exposure, cached: SecretCache.Secret, etag: string)
    requires etag != ""
    ensures var plain := Serving.Delivered(mac, Asking(""), e, cached).reply;
      var asked := Serving.Delivered(mac, Asking(etag), e, cached).reply;
      if plain.status == 200 && ETags.WeakMatch([etag], plain.etag) then asked.status == 304 else asked == plain
  {
  }

  /** A request that is admitted and authentic is answered from the cached source Secret. */
  lemma HandledIsDelivered<Addr, Prefix>(gw: Serving.Gateway<Addr, Prefix>, r: Serving.Request,
      e: Serving.Exposure<Prefix>)
    requires Serving.InjectiveSha(gw.sha) && Serving.Admitted(gw, r, e)
    requires Serving.Lookup(gw.secrets, e.auth).present
    requires Serving.Authentic(Serving.Lookup(gw.secrets, e.auth).data, r.credentials)
    ensures Serving.Handled(gw, r) == Serving.Delivered(gw.mac, r, e, Serving.Lookup(gw.secrets, e.source))
  {
    Serving.AuthenticIff(gw.sha, Serving.Lookup(gw.secrets, e.auth).data, r.credentials);
  }

  /** What configuration validation establishes of an exposure's keys. */
  ghost predicate PlainKeys(keys: seq<string>) {
    forall k :: k in keys ==> Reader.KeyLike(k)
  }

  /** The snapshot of one API object under its tag. */
  ghost predicate ShowsObject(mac: ETags.Mac, keys: seq<string>, o: SecretApi.Obj, r: Reply) {
    && Deliverable(keys, o)
    && r == Snapshot(ETags.ETag(mac, o.uid, Bodies.Body(o.data, keys)), Reader.Restricted(o.data, keys))
  }

  /** The tag of an object's snapshot. */
  function TagOf(mac: ETags.Mac, keys: seq<string>, o: SecretApi.Obj): string
    requires Bodies.HasAll(o.data, keys)
  {
    ETags.ETag(mac, o.uid, Bodies.Body(o.data, keys))
  }

  /** The object has every configured key, and its body fits the agent's limit. */
  predicate Deliverable(keys: seq<string>, o: SecretApi.Obj) {
    Bodies.HasAll(o.data, keys) && |Bodies.Body(o.data, keys)| <= Reader.MAX_EXPOSURE_BYTES
  }

  lemma ReplyShowsObject(mac: ETags.Mac, e: Serving.Exposure, o: Option<SecretApi.Obj>)
    requires PlainKeys(e.keys)
    ensures var r := ReplyOf(mac, e, SecretCache.View(o));
      if o.Some? && Deliverable(e.keys, o.value) then ShowsObject(mac, e.keys, o.value, r) else r.Refused?
  {
    if o.Some? {
      var data := o.value.data;
      Serving.MissingIsEmptyIff(data, e.keys);
      if Bodies.HasAll(data, e.keys) {
        var body := Bodies.Body(data, e.keys);
        var tag := ETags.ETag(mac, o.value.uid, body);
        assert !ETags.WeakMatch([], tag);
        Reader.FetchAcceptsIffItFits(data, e.keys, tag);
      }
    }
  }

  /** The replies along a run of the gateway's watcher: reply `v` is what is served after its first `v` steps. */
  ghost function ServedAlong(mac: ETags.Mac, e: Serving.Exposure, ref: SecretApi.Ref,
      steps: seq<Cache.Label>): seq<Reply> {
    seq(|steps| + 1, v requires 0 <= v <= |steps| =>
      ReplyOf(mac, e, Cache.Run(ref, Cache.START, steps[..v]).res.secret))
  }

  /** Every reply shows the source Secret as it was at one point of its history, and these points never go back. */
  lemma RepliesFollowHistory(mac: ETags.Mac, e: Serving.Exposure, ref: SecretApi.Ref, steps: seq<Cache.Label>)
    returns (h: seq<nat>)
    requires PlainKeys(e.keys)
    ensures |h| == |steps| + 1
    ensures forall u, v :: 0 <= u <= v < |h| ==> h[u] <= h[v]
    ensures forall v :: 0 <= v < |h| ==> Explained(mac, e, ref, steps, h, v)
  {
    h := Cache.CacheIsExplained(ref, steps);
    forall v | 0 <= v < |h| ensures Explained(mac, e, ref, steps, h, v) {
      var c := Cache.Run(ref, Cache.START, steps[..v]);
      var log := Cache.Run(ref, Cache.START, steps).log;
      assert c.log <= log && c.log[h[v]] == log[h[v]];
      if c.res.secret.synced {
        ReplyShowsObject(mac, e, log[h[v]].obj);
      }
    }
  }

  /** Reply `v`, if it is a snapshot, shows the object of history entry `h[v]`. */
  ghost predicate Explained(mac: ETags.Mac, e: Serving.Exposure, ref: SecretApi.Ref, steps: seq<Cache.Label>,
      h: seq<nat>, v: nat)
    requires v < |h| == |steps| + 1
  {
    var log := Cache.Run(ref, Cache.START, steps).log;
    var r := ServedAlong(mac, e, ref, steps)[v];
    h[v] < |log| && (r.Snapshot? ==> log[h[v]].obj.Some? && ShowsObject(mac, e.keys, log[h[v]].obj.value, r))
  }

  /** One and the same version, end to end. Whatever the interleaving of API changes, cache updates, requests and
      syncs, and whatever fails, a Sync that commits leaves the targets holding their keys' values from one object of
      the source Secret's history, and stores that object's tag. A target is missing only if it was deleted after this
      Sync renamed it. */
  lemma SingleVersion(mac: ETags.Mac, e: Serving.Exposure, ref: SecretApi.Ref, steps: seq<Cache.Label>, w: World,
      labels: seq<Label>, l: Label)
    returns (h: seq<nat>)
    requires Sound(w) && PlainKeys(e.keys) && w.replies == ServedAlong(mac, e, ref, steps)
    ensures |h| == |w.replies| && forall u, v :: 0 <= u <= v < |h| ==> h[u] <= h[v]
    ensures var s := Run(w, Init(w), labels); var s' := Next(w, s, l);
      var log := Cache.Run(ref, Cache.START, steps).log;
      s'.commits > s.commits ==>
        && s.pc.TagRenaming? && s.pc.ver < |h| && h[s.pc.ver] < |log| && log[h[s.pc.ver]].obj.Some?
        && HoldsObject(w, s'.disk, log[h[s.pc.ver]].obj.value)
        && (forall i: nat, k: nat :: i < |w.Targets()| && k <= |labels| && Undisturbed(w, labels, k, i) ==>
              Look(s'.disk, w.Targets()[i].path).Some?)
        && Look(s'.disk, w.EtagPath()).Some?
        && Bodies.HasAll(log[h[s.pc.ver]].obj.value.data, e.keys)
        && Look(s'.disk, w.EtagPath()).value.content ==
             TagOf(mac, e.keys, log[h[s.pc.ver]].obj.value) + "\n"
  {
    h := RepliesFollowHistory(mac, e, ref, steps);
    CommitInstallsOneSnapshot(w, labels, l);
    var s := Run(w, Init(w), labels);
    var s' := Next(w, s, l);
    if s'.commits > s.commits {
      var v := s.pc.ver;
      assert Explained(mac, e, ref, steps, h, v);
      var o := Cache.Run(ref, Cache.START, steps).log[h[v]].obj.value;
      ShownIsHeld(mac, e.keys, w, s'.disk, v, o);
    }
  }

  /** Every target that exists holds the object's value for its key. */
  ghost predicate HoldsObject(w: World, d: Disk, o: SecretApi.Obj) {
    forall i: nat :: i < |w.Targets()| ==>
      w.Targets()[i].key in o.data &&
      (Look(d, w.Targets()[i].path).Some? ==> Look(d, w.Targets()[i].path).value.content == o.data[w.Targets()[i].key])
  }

  lemma ShownIsHeld(mac: ETags.Mac, keys: seq<string>, w: World, d: Disk, v: nat, o: SecretApi.Obj)
    requires w.Installable(v) && ShowsObject(mac, keys, o, w.replies[v])
    requires forall i: nat :: i < |w.Targets()| && Look(d, w.Targets()[i].path).Some? ==>
      Look(d, w.Targets()[i].path).value.content == w.Value(v, i)
    ensures HoldsObject(w, d, o)
  {
    forall i: nat | i < |w.Targets()|
      ensures w.Targets()[i].key in o.data && w.Value(v, i) == o.data[w.Targets()[i].key]
    {
      assert w.Targets()[i].key in w.replies[v].values;
    }
  }

  // ---- The premises of the commit theorem, from the gateway and the API ----

  /** The gateway's tags are well formed and identify what they are served with. */
  lemma ServedRepliesAreGood(mac: ETags.Mac, e: Serving.Exposure, ref: SecretApi.Ref, steps: seq<Cache.Label>, w: World)
    requires ETags.Injective(mac) && PlainKeys(e.keys) && w.replies == ServedAlong(mac, e, ref, steps)
    ensures GoodReplies(w)
  {
    var h := RepliesFollowHistory(mac, e, ref, steps);
    var log := Cache.Run(ref, Cache.START, steps).log;
    forall v: nat | v < |w.replies| && w.replies[v].Snapshot? ensures ETags.TagLike(w.replies[v].tag) {
      assert Explained(mac, e, ref, steps, h, v);
      var o := log[h[v]].obj.value;
      ETags.ETagIsTagLike(mac, o.uid, Bodies.Body(o.data, e.keys));
    }
    forall u: nat, v: nat | SameTag(w, u, v) ensures w.replies[u] == w.replies[v] {
      assert Explained(mac, e, ref, steps, h, u) && Explained(mac, e, ref, steps, h, v);
      SameTagSameObject(mac, e.keys, log[h[u]].obj.value, log[h[v]].obj.value, w.replies[u], w.replies[v]);
    }
  }

  lemma SameTagSameObject(mac: ETags.Mac, keys: seq<string>, o: SecretApi.Obj, p: SecretApi.Obj, r: Reply, q: Reply)
    requires ETags.Injective(mac) && PlainKeys(keys) && ShowsObject(mac, keys, o, r) && ShowsObject(mac, keys, p, q)
    requires r.tag == q.tag
    ensures r == q && o.uid == p.uid && Reader.Restricted(o.data, keys) == Reader.Restricted(p.data, keys)
  {
    ETags.ETagIdentifies(mac, o.uid, Bodies.Body(o.data, keys), p.uid, Bodies.Body(p.data, keys));
    Reader.BodyIsInjective(o.data, p.data, keys, keys);
  }

  /** At entry `h` of its history the Secret can be delivered. */
  predicate Shown(keys: seq<string>, log: seq<SecretApi.Change>, h: nat) {
    h < |log| && log[h].obj.Some? && Deliverable(keys, log[h].obj.value)
  }

  /** The Secret is never set back: once values that targets want have changed, the configured values do not all return
      under the same UID. */
  ghost predicate NeverSetBack(keys: seq<string>, targets: seq<Target>, log: seq<SecretApi.Change>) {
    forall i: nat, j: nat, k: nat :: NotSetBack(keys, targets, log, i, j, k)
  }

  ghost predicate NotSetBack(keys: seq<string>, targets: seq<Target>, log: seq<SecretApi.Change>, i: nat, j: nat,
      k: nat) {
    && i <= j <= k && Shown(keys, log, i) && Shown(keys, log, j) && Shown(keys, log, k)
    && log[i].obj.value.uid == log[k].obj.value.uid
    && Reader.Restricted(log[i].obj.value.data, keys) == Reader.Restricted(log[k].obj.value.data, keys)
    ==> SameWanted(keys, targets, log[i].obj.value, log[j].obj.value)
  }

  /** Two objects have the same values for the target keys that are served. */
  predicate SameWanted(keys: seq<string>, targets: seq<Target>, o: SecretApi.Obj, p: SecretApi.Obj) {
    forall t :: 0 <= t < |targets| && targets[t].key in keys && targets[t].key in o.data && targets[t].key in p.data ==>
      o.data[targets[t].key] == p.data[targets[t].key]
  }

  lemma ServedRepliesDoNotRelapse(mac: ETags.Mac, e: Serving.Exposure, ref: SecretApi.Ref, steps: seq<Cache.Label>,
      w: World)
    requires ETags.Injective(mac) && PlainKeys(e.keys) && w.replies == ServedAlong(mac, e, ref, steps)
    requires NeverSetBack(e.keys, w.Targets(), Cache.Run(ref, Cache.START, steps).log)
    ensures NoRelapse(w)
  {
    var h := RepliesFollowHistory(mac, e, ref, steps);
    var log := Cache.Run(ref, Cache.START, steps).log;
    forall i: nat, j: nat, k: nat ensures SameBetween(w, i, j, k) {
      if i <= j <= k && w.Installable(i) && w.Installable(j) && SameTag(w, i, k) {
        assert Explained(mac, e, ref, steps, h, i) && Explained(mac, e, ref, steps, h, j);
        assert Explained(mac, e, ref, steps, h, k);
        SameTagSameObject(mac, e.keys, log[h[i]].obj.value, log[h[k]].obj.value, w.replies[i], w.replies[k]);
        assert NotSetBack(e.keys, w.Targets(), log, h[i], h[j], h[k]);
        WantedIsInstalled(mac, e.keys, w, i, j, log[h[i]].obj.value, log[h[j]].obj.value);
      }
    }
  }

  lemma WantedIsInstalled(mac: ETags.Mac, keys: seq<string>, w: World, i: nat, j: nat, o: SecretApi.Obj,
      p: SecretApi.Obj)
    requires w.Installable(i) && w.Installable(j)
    requires ShowsObject(mac, keys, o, w.replies[i]) && ShowsObject(mac, keys, p, w.replies[j])
    ensures SameWanted(keys, w.Targets(), o, p) <==> forall t: nat :: t < |w.Targets()| ==>
      w.Value(i, t) == w.Value(j, t)
  {
    forall t: nat | t < |w.Targets()|
      ensures var k := w.Targets()[t].key;
        k in keys && k in o.data && k in p.data && w.Value(i, t) == o.data[k] && w.Value(j, t) == p.data[k]
    {
      assert w.Targets()[t].key in w.replies[i].values && w.Targets()[t].key in w.replies[j].values;
    }
  }

  /** Commit, end to end. If the Secret is never set back under one UID, then at every moment of every run at which
      the host would be told "not modified" and the cache has converged, every target is there, with its mode and the
      value the API holds at that moment, and the change command has succeeded on it. */
  lemma UpToDateWithTheApi(mac: ETags.Mac, e: Serving.Exposure, ref: SecretApi.Ref, steps: seq<Cache.Label>, w: World,
      labels: seq<Label>)
    requires Sound(w) && ETags.Injective(mac) && PlainKeys(e.keys) && w.replies == ServedAlong(mac, e, ref, steps)
    requires NeverSetBack(e.keys, w.Targets(), Cache.Run(ref, Cache.START, steps).log)
    ensures var s := Run(w, Init(w), labels);
      Trusted(w, s) ==>
        && UpToDate(w, s)
        && var c := Cache.Run(ref, Cache.START, steps[..s.now]);
           Cache.Converged(c) ==>
             && Cache.Current(c).Some? && HoldsObject(w, s.disk, Cache.Current(c).value)
             && forall i: nat :: i < |w.Targets()| ==> HasMode(w, s.disk, i)
  {
    ServedRepliesAreGood(mac, e, ref, steps, w);
    ServedRepliesDoNotRelapse(mac, e, ref, steps, w);
    CommitTheorem(w, labels);
    var s := Run(w, Init(w), labels);
    if Trusted(w, s) {
      var c := Cache.Run(ref, Cache.START, steps[..s.now]);
      if Cache.Converged(c) {
        ReplyShowsObject(mac, e, Cache.Current(c));
        ShownIsHeld(mac, e.keys, w, s.disk, s.now, Cache.Current(c).value);
      }
    }
  }

  /** Once the cache has converged and the host's clock has caught up, one undisturbed Sync brings the API's state to
      the files, from whatever state the host is in. */
  lemma OneSyncReachesTheApi(
      mac: ETags.Mac, e: Serving.Exposure, ref: SecretApi.Ref, steps: seq<Cache.Label>, w: World, labels: seq<Label>,
      sync: seq<Label>)
    requires Sound(w) && ETags.Injective(mac) && PlainKeys(e.keys) && w.replies == ServedAlong(mac, e, ref, steps)
    requires NeverSetBack(e.keys, w.Targets(), Cache.Run(ref, Cache.START, steps).log)
    requires Cache.Converged(Cache.Run(ref, Cache.START, steps))
    requires var s := Run(w, Init(w), labels);
      s.now == |steps| && s.pc.Idle? && w.Installable(s.now) && Smooth(w, s, sync)
    ensures var r := Run(w, Init(w), labels + sync); var api := Cache.Current(Cache.Run(ref, Cache.START, steps));
      && r.pc.Idle? && api.Some? && HoldsObject(w, r.disk, api.value)
      && forall k: nat :: k < |w.Targets()| ==> HasMode(w, r.disk, k)
  {
    ServedRepliesAreGood(mac, e, ref, steps, w);
    ServedRepliesDoNotRelapse(mac, e, ref, steps, w);
    OneGoodSyncRecovers(w, labels, sync);
    RunConcat(w, Init(w), labels, sync);
    UpToDateWithTheApi(mac, e, ref, steps, w, labels + sync);
    assert steps[..|steps|] == steps;
  }

  // ---- The fetch between the two halves ----

  /** What Sync does with the answer of Client.Fetch. */
  function AfterAnswer(w: World, s: State, fetched: Reader.Fetched): State {
    match fetched
    case NotModified => Return(s, false, false)
    case Failed => Return(s, false, true)
    case Result(values, _) =>
      if forall i :: 0 <= i < |w.Targets()| ==> w.Targets()[i].key in values then s.(pc := AfterStaging(w, s.now, []))
      else Return(s, false, true)
  }

  /** What the cache holds after the first `n` steps of the watcher, or after all of them. */
  ghost function CachedAt(ref: SecretApi.Ref, steps: seq<Cache.Label>, n: nat): SecretCache.Secret {
    Cache.Run(ref, Cache.START, if n <= |steps| then steps[..n] else steps).res.secret
  }

  /** The host never looks beyond the replies there are. */
  lemma {:induction false} NowInRange(w: World, s: State, labels: seq<Label>)
    requires s.now < |w.replies|
    ensures Run(w, s, labels).now < |w.replies|
    decreases |labels|
  {
    if labels != [] {
      NowStep(w, s, labels[0]);
      NowInRange(w, Next(w, s, labels[0]), labels[1..]);
    }
  }

  lemma NowStep(w: World, s: State, l: Label)
    requires s.now < |w.replies|
    ensures Next(w, s, l).now < |w.replies|
  {
    if l.Call? {
      CallKeepsNow(w, s, l.ok, l.tmp);
    }
  }

  lemma CallKeepsNow(w: World, s: State, ok: bool, tmp: Path)
    ensures Act(w, s, ok, tmp).now == s.now
  {
    match s.pc
    case Creating(_, _) =>
    case Filling(_, _, _) =>
    case Renaming(_, _, _) =>
    case _ =>
  }

  /** A tag that the gateway would match is of a body that the agent has read before, so it fits the agent's limit and
      is served as a snapshot. */
  lemma MatchedIsServed(mac: ETags.Mac, e: Serving.Exposure, ref: SecretApi.Ref, steps: seq<Cache.Label>, w: World,
      s: State)
    requires Sound(w) && Inv(w, s) && s.pc.Fetching? && s.pc.etag != "" && s.now <= |steps|
    requires ETags.Injective(mac) && PlainKeys(e.keys) && w.replies == ServedAlong(mac, e, ref, steps)
    requires var cached := Cache.Run(ref, Cache.START, steps[..s.now]).res.secret;
      var plain := Serving.Delivered(mac, Asking(""), e, cached).reply;
      plain.status == 200 && ETags.WeakMatch([s.pc.etag], plain.etag)
    ensures w.replies[s.now].Snapshot?
  {
    var cached := Cache.Run(ref, Cache.START, steps[..s.now]).res.secret;
    var g := Look(s.disk, w.EtagPath()).value;
    assert TagMay(w, s.disk, g);
    var h := RepliesFollowHistory(mac, e, ref, steps);
    assert Explained(mac, e, ref, steps, h, g.ver);
    var o := Cache.Run(ref, Cache.START, steps).log[h[g.ver]].obj.value;
    var earlier := Bodies.Body(o.data, e.keys);
    ETags.ETagIsTagLike(mac, o.uid, earlier);
    TrimOfTrimmed(w.replies[g.ver].tag);
    assert s.pc.etag == ETags.ETag(mac, o.uid, earlier);
    Serving.MissingIsEmptyIff(cached.data, e.keys);
    var body := Bodies.Body(cached.data, e.keys);
    ETags.NotModifiedIffUnchanged(mac, o.uid, earlier, cached.uid, body);
    ServedFits(mac, e, ref, steps, g.ver, earlier);
    assert !ETags.WeakMatch([], ETags.ETag(mac, cached.uid, body));
    Reader.FetchAcceptsIffItFits(cached.data, e.keys, ETags.ETag(mac, cached.uid, body));
  }

  /** A reply that is a snapshot was read from a body within the limit. */
  lemma ServedFits(mac: ETags.Mac, e: Serving.Exposure, ref: SecretApi.Ref, steps: seq<Cache.Label>, v: nat,
      body: string)
    requires PlainKeys(e.keys) && ETags.Injective(mac) && v <= |steps|
    requires var r := ServedAlong(mac, e, ref, steps)[v];
      r.Snapshot? && exists uid :: r.tag == ETags.ETag(mac, uid, body)
    ensures |body| <= Reader.MAX_EXPOSURE_BYTES
  {
    var cached := Cache.Run(ref, Cache.START, steps[..v]).res.secret;
    var r := ServedAlong(mac, e, ref, steps)[v];
    Serving.MissingIsEmptyIff(cached.data, e.keys);
    var b := Bodies.Body(cached.data, e.keys);
    var tag := ETags.ETag(mac, cached.uid, b);
    assert !ETags.WeakMatch([], tag);
    Reader.FetchAcceptsIffItFits(cached.data, e.keys, tag);
    var uid :| r.tag == ETags.ETag(mac, uid, body);
    ETags.ETagIdentifies(mac, uid, body, cached.uid, b);
  }

  /** The two halves meet. At every fetch of every run, for a request that the gateway admits and whose credentials are
      right, what the agent reads from the gateway's actual answer leads to the step the protocol takes. */
  lemma AnswerIsAfterFetch<Addr, Prefix>(
      gw: Serving.Gateway<Addr, Prefix>, r: Serving.Request, e: Serving.Exposure<Prefix>, steps: seq<Cache.Label>,
      w: World, labels: seq<Label>)
    requires Sound(w) && ETags.Injective(gw.mac) && Serving.InjectiveSha(gw.sha) && PlainKeys(e.keys)
    requires w.replies == ServedAlong(gw.mac, e, e.source, steps)
    requires var s := Run(w, Init(w), labels);
      && s.pc.Fetching?
      && r.verb == "GET" && r.ifNoneMatch == (if s.pc.etag == "" then [] else [s.pc.etag])
      && Serving.Lookup(gw.secrets, e.source) == CachedAt(e.source, steps, s.now)
    requires Serving.Admitted(gw, r, e)
    requires Serving.Lookup(gw.secrets, e.auth).present
    requires Serving.Authentic(Serving.Lookup(gw.secrets, e.auth).data, r.credentials)
    ensures var s := Run(w, Init(w), labels); var a := Serving.Handled(gw, r).reply;
      AfterFetch(w, s, s.pc.etag) == AfterAnswer(w, s, Reader.Fetch(Reader.Response(a.status, a.etag, a.body)))
  {
    var s := Run(w, Init(w), labels);
    var etag, cached := s.pc.etag, Serving.Lookup(gw.secrets, e.source);
    InitOk(w);
    RunKeepsInv(w, Init(w), labels);
    NowInRange(w, Init(w), labels);
    HandledIsDelivered(gw, r, e);
    SameAsked(gw.mac, e, r, cached, etag);
    AskedIsAfterFetch(gw.mac, e, e.source, steps, w, s);
  }

  /** Of a request that got this far, only the method and the tags sent matter. */
  lemma SameAsked(mac: ETags.Mac, e: Serving.Exposure, r: Serving.Request, cached: SecretCache.Secret, etag: string)
    requires r.verb == "GET" && r.ifNoneMatch == (if etag == "" then [] else [etag])
    ensures Serving.Delivered(mac, r, e, cached) == Serving.Delivered(mac, Asking(etag), e, cached)
  {
  }

  lemma AskedIsAfterFetch(mac: ETags.Mac, e: Serving.Exposure, ref: SecretApi.Ref, steps: seq<Cache.Label>, w: World,
      s: State)
    requires Sound(w) && Inv(w, s) && s.pc.Fetching? && s.now <= |steps|
    requires ETags.Injective(mac) && PlainKeys(e.keys) && w.replies == ServedAlong(mac, e, ref, steps)
    ensures var cached := Cache.Run(ref, Cache.START, steps[..s.now]).res.secret;
      var a := Serving.Delivered(mac, Asking(s.pc.etag), e, cached).reply;
      AfterFetch(w, s, s.pc.etag) == AfterAnswer(w, s, Reader.Fetch(Reader.Response(a.status, a.etag, a.body)))
  {
    var etag, cached := s.pc.etag, Cache.Run(ref, Cache.START, steps[..s.now]).res.secret;
    var plain := Serving.Delivered(mac, Asking(""), e, cached).reply;
    var fetched := Reader.Fetch(Reader.Response(plain.status, plain.etag, plain.body));
    assert w.replies[s.now] == ReplyOf(mac, e, cached);
    PlainReply(mac, e, cached);
    if etag != "" {
      ConditionalRequest(mac, e, cached, etag);
      if plain.status == 200 && ETags.WeakMatch([etag], plain.etag) {
        MatchedIsServed(mac, e, ref, steps, w, s);
      }
    }
    PlainIsAfterFetch(w, s, fetched, plain.etag);
  }

  /** An unconditional request is never answered 304, and the tag read is the tag sent. */
  lemma PlainReply(mac: ETags.Mac, e: Serving.Exposure, cached: SecretCache.Secret)
    ensures var plain := Serving.Delivered(mac, Asking(""), e, cached).reply;
      var fetched := Reader.Fetch(Reader.Response(plain.status, plain.etag, plain.body));
      && (plain.status == 200 || plain.status == 503) && !fetched.NotModified?
      && (fetched.Result? ==> plain.status == 200 && fetched.etag == plain.etag)
  {
    assert forall tag :: !ETags.WeakMatch([], tag);
  }

  lemma PlainIsAfterFetch(w: World, s: State, fetched: Reader.Fetched, tag: string)
    requires s.pc.Fetching? && s.now < |w.replies| && !fetched.NotModified?
    requires fetched.Result? <==> w.replies[s.now].Snapshot?
    requires fetched.Result? ==> w.replies[s.now] == Snapshot(fetched.etag, fetched.values) && fetched.etag == tag
    ensures s.pc.etag == "" || fetched.Failed? || !ETags.WeakMatch([s.pc.etag], tag) ==>
      AfterFetch(w, s, s.pc.etag) == AfterAnswer(w, s, fetched)
    ensures s.pc.etag != "" && fetched.Result? && ETags.WeakMatch([s.pc.etag], tag) ==>
      AfterFetch(w, s, s.pc.etag) == Return(s, false, false)
  {
  }
}
