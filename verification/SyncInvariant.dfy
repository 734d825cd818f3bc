/** What every step of the synchronization protocol keeps. */
module SyncInvariant {
  import opened Text
  import opened Disk
  import opened SyncProtocol

  /** File `f` is a faithful copy of target `i` from a reply the gateway has already given. */
  predicate Faithful(w: World, now: nat, i: nat, f: File)
    requires i < |w.Targets()|
  {
    f.ver <= now && w.Installable(f.ver) && f.content == w.Value(f.ver, i)
  }

  /** File `g` holds the tag of a reply the gateway has already given. */
  predicate TagFile(w: World, now: nat, g: File) {
    g.ver <= now && w.Installable(g.ver) && g.content == w.replies[g.ver].tag + "\n"
  }

  ghost predicate TargetMay(w: World, d: Disk, i: nat, f: File)
    requires i < |w.Targets()|
  {
    Possible(w.powerLoss, d, w.Targets()[i].path, Some(f))
  }

  ghost predicate TagMay(w: World, d: Disk, g: File) {
    Possible(w.powerLoss, d, w.EtagPath(), Some(g))
  }

  /** Whatever can be found at a target is a faithful copy. */
  ghost predicate TargetsOk(w: World, d: Disk, now: nat) {
    forall i: nat, f :: i < |w.Targets()| && TargetMay(w, d, i, f) ==> Faithful(w, now, i, f)
  }

  ghost predicate TagOk(w: World, d: Disk, now: nat) {
    forall g :: TagMay(w, d, g) ==> TagFile(w, now, g)
  }

  /** The heart of the protocol: no target is older than any tag that can be found on disk. */
  ghost predicate TagIsOldest(w: World, d: Disk) {
    forall g, i: nat, f :: TagMay(w, d, g) && i < |w.Targets()| && TargetMay(w, d, i, f) ==> g.ver <= f.ver
  }

  /** With a change command, neither is anything the consumer loaded, and the command ran for the tag. */
  ghost predicate ConsumerOk(w: World, s: State) {
    && |s.loaded| == |w.Targets()|
    && (forall i: nat :: i < |w.Targets()| && s.loaded[i].Some? ==> Faithful(w, s.now, i, s.loaded[i].value))
    && (|w.exposure.command| > 0 ==>
          forall g :: TagMay(w, s.disk, g) ==>
            g.ver in s.reloads &&
            forall i: nat :: i < |w.Targets()| && s.loaded[i].Some? ==> g.ver <= s.loaded[i].value.ver)
  }

  /** Reply `v` is being installed: it is installable and at least as new as any tag on disk and as any
      installation still owed. */
  ghost predicate VersionOk(w: World, s: State, v: nat) {
    v <= s.now && w.Installable(v) && (forall g :: TagMay(w, s.disk, g) ==> g.ver <= v) &&
    (s.owed.Some? ==> s.owed.value <= v)
  }

  /** A temporary file of this exposure. */
  predicate IsTemp(w: World, t: Path) {
    w.InFootprint(t) && !w.Owns(t)
  }

  predicate AllTemps(w: World, temps: seq<Path>) {
    forall k :: 0 <= k < |temps| ==> IsTemp(w, temps[k])
  }

  /** The staged files from `from` on hold the complete new values and modes. */
  ghost predicate Staged(w: World, s: State, v: nat, temps: seq<Path>, from: nat) {
    && |temps| <= |w.Targets()| && w.Installable(v)
    && (forall k :: 0 <= k < |temps| ==> IsTempFor(w.Targets()[k].path, temps[k]))
    && (forall k, l :: 0 <= k < l < |temps| ==> temps[k] != temps[l])
    && forall k: nat :: from <= k < |temps| ==>
         Look(s.disk, temps[k]) == Some(w.Copy(v, k))
  }

  /** The first `n` targets are what was renamed into place, unless deleted since. */
  ghost predicate Installed(w: World, d: Disk, v: nat, n: nat) {
    forall i: nat :: i < n && i < |w.Targets()| && Look(d, w.Targets()[i].path).Some? ==>
      Look(d, w.Targets()[i].path).value.ver == v
  }

  /** Target `i` can only ever be found in version `v`, even after a power loss. */
  ghost predicate Settled(w: World, d: Disk, v: nat, i: nat)
    requires i < |w.Targets()|
  {
    forall f :: TargetMay(w, d, i, f) ==> f.ver == v
  }

  ghost predicate AllSettled(w: World, d: Disk, v: nat) {
    forall i: nat :: i < |w.Targets()| ==> Settled(w, d, v, i)
  }

  ghost predicate Reloaded(w: World, s: State, v: nat) {
    |w.exposure.command| > 0 ==>
      v in s.reloads && |s.loaded| == |w.Targets()| &&
      forall i: nat :: i < |w.Targets()| && s.loaded[i].Some? ==> s.loaded[i].value.ver == v
  }

  ghost predicate PcOk(w: World, s: State) {
    match s.pc
    case Idle => true
    case Stat(i) => i < |w.Targets()|
    case ReadTag => true
    case Fetching(etag) =>
      etag != "" ==> Look(s.disk, w.EtagPath()).Some? && etag == TrimSpace(Look(s.disk, w.EtagPath()).value.content)
    case Creating(v, temps) => |temps| < |w.Targets()| && VersionOk(w, s, v) && Staged(w, s, v, temps, 0)
    case Filling(v, temps, tmp) =>
      |temps| < |w.Targets()| && VersionOk(w, s, v) && Staged(w, s, v, temps, 0) &&
      IsTempFor(w.Targets()[|temps|].path, tmp) && tmp !in temps
    case Dropping(temps, tmp) => AllTemps(w, temps) && IsTemp(w, tmp)
    case Renaming(v, temps, i) =>
      i < |w.Targets()| == |temps| && VersionOk(w, s, v) && Staged(w, s, v, temps, i) && Installed(w, s.disk, v, i)
    case Cleaning(temps) => AllTemps(w, temps)
    case Flushing(v, dirs) =>
      && VersionOk(w, s, v) && Installed(w, s.disk, v, |w.Targets()|)
      && forall i: nat :: i < |w.Targets()| && w.Targets()[i].path.dir !in dirs ==> Settled(w, s.disk, v, i)
    case Stamping(v) => VersionOk(w, s, v) && AllSettled(w, s.disk, v)
    case Commanding(v) => VersionOk(w, s, v) && AllSettled(w, s.disk, v)
    case TagCreating(v) => VersionOk(w, s, v) && AllSettled(w, s.disk, v) && Reloaded(w, s, v)
    case TagFilling(v, tmp) =>
      VersionOk(w, s, v) && AllSettled(w, s.disk, v) && Reloaded(w, s, v) && IsTempFor(w.EtagPath(), tmp)
    case TagRenaming(v, tmp) =>
      VersionOk(w, s, v) && AllSettled(w, s.disk, v) && Reloaded(w, s, v) && IsTempFor(w.EtagPath(), tmp) &&
      Look(s.disk, tmp) == Some(File(w.replies[v].tag + "\n", 0x180, v))
    case TagDropping(tmp) => IsTemp(w, tmp)
  }

  ghost predicate Inv(w: World, s: State) {
    && TargetsOk(w, s.disk, s.now) && TagOk(w, s.disk, s.now) && TagIsOldest(w, s.disk)
    && ConsumerOk(w, s) && OwedOk(w, s) && PcOk(w, s)
  }

  predicate OwedOk(w: World, s: State) {
    s.owed.Some? ==> s.owed.value <= s.now && w.Installable(s.owed.value)
  }

  /** The premise on the hardware: power may fail, or a directory flush may fail, but not both. */
  ghost predicate Sound(w: World) {
    w.WellFormed() && !(w.powerLoss && w.flushFails)
  }

  /** Disk `e` offers nothing at a target or at the tag file that disk `d` did not, up to file modes. */
  ghost predicate Covers(w: World, d: Disk, e: Disk) {
    && (forall i: nat, f :: i < |w.Targets()| && TargetMay(w, e, i, f) ==>
          TargetMay(w, d, i, f) ||
          (Look(d, w.Targets()[i].path).Some? && SameCopy(f, Look(d, w.Targets()[i].path).value)))
    && forall g :: TagMay(w, e, g) ==> TagMay(w, d, g)
  }

  predicate SameCopy(f: File, g: File) {
    f.content == g.content && f.ver == g.ver
  }

  /** Nothing but deletions and mode changes happened at the targets. */
  ghost predicate Weathered(w: World, d: Disk, e: Disk) {
    forall i: nat :: i < |w.Targets()| && Look(e, w.Targets()[i].path).Some? ==>
      Look(d, w.Targets()[i].path).Some? &&
      SameCopy(Look(e, w.Targets()[i].path).value, Look(d, w.Targets()[i].path).value)
  }

  ghost predicate Core(w: World, s: State) {
    TargetsOk(w, s.disk, s.now) && TagOk(w, s.disk, s.now) && TagIsOldest(w, s.disk) && ConsumerOk(w, s)
  }

  lemma CoversKeepsCore(w: World, s: State, s': State)
    requires Core(w, s) && Covers(w, s.disk, s'.disk)
    requires s'.now >= s.now && s'.loaded == s.loaded && s'.reloads == s.reloads
    ensures Core(w, s')
  {
    forall i: nat, f | i < |w.Targets()| && TargetMay(w, s'.disk, i, f) ensures Faithful(w, s'.now, i, f) {
      OldCopy(w, s.disk, s'.disk, i, f);
    }
    forall g, i: nat, f | TagMay(w, s'.disk, g) && i < |w.Targets()| && TargetMay(w, s'.disk, i, f)
      ensures g.ver <= f.ver
    {
      OldCopy(w, s.disk, s'.disk, i, f);
    }
  }

  /** Whatever can be found at a target afterwards is a copy of something that could be found before. */
  lemma OldCopy(w: World, d: Disk, e: Disk, i: nat, f: File)
    requires Covers(w, d, e) && i < |w.Targets()| && TargetMay(w, e, i, f)
    ensures exists f0 :: TargetMay(w, d, i, f0) && SameCopy(f, f0)
  {
    if TargetMay(w, d, i, f) {
    } else {
      assert TargetMay(w, d, i, Look(d, w.Targets()[i].path).value);
    }
  }

  lemma CoversKeepsVersion(w: World, s: State, s': State, v: nat)
    requires VersionOk(w, s, v) && Covers(w, s.disk, s'.disk) && s'.now >= s.now && s'.owed == s.owed
    ensures VersionOk(w, s', v)
  {
  }

  lemma CoversKeepsSettled(w: World, d: Disk, e: Disk, v: nat, i: nat)
    requires i < |w.Targets()| && Settled(w, d, v, i) && Covers(w, d, e)
    ensures Settled(w, e, v, i)
  {
    forall f | TargetMay(w, e, i, f) ensures f.ver == v {
      OldCopy(w, d, e, i, f);
    }
  }

  /** The environment leaves the agent's place in its program valid. */
  lemma PcKept(w: World, s: State, s': State)
    requires w.WellFormed() && PcOk(w, s) && s'.pc == s.pc
    requires Covers(w, s.disk, s'.disk) && Weathered(w, s.disk, s'.disk)
    requires s'.now >= s.now && s'.loaded == s.loaded && s'.reloads == s.reloads && s'.owed == s.owed
    requires forall p :: w.InFootprint(p) && !w.IsTargetPath(p) ==> Look(s'.disk, p) == Look(s.disk, p)
    ensures PcOk(w, s')
  {
    forall v | VersionOk(w, s, v) ensures VersionOk(w, s', v) { CoversKeepsVersion(w, s, s', v); }
    forall v, i: nat | i < |w.Targets()| && Settled(w, s.disk, v, i) ensures Settled(w, s'.disk, v, i) {
      CoversKeepsSettled(w, s.disk, s'.disk, v, i);
    }
    forall p, q | w.Owns(p) && IsTempFor(p, q) ensures !w.IsTargetPath(q) {
      assert w.Owns(q) ==> !IsTempFor(p, q);
    }
    forall i: nat, q | i < |w.Targets()| && IsTempFor(w.Targets()[i].path, q)
      ensures w.InFootprint(q) && !w.IsTargetPath(q)
    {
      assert w.Owns(w.Targets()[i].path);
    }
    forall q | IsTempFor(w.EtagPath(), q) ensures w.InFootprint(q) && !w.IsTargetPath(q) {
      assert w.Owns(w.EtagPath());
    }
  }
}
