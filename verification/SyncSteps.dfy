/** Every step keeps the invariant of SyncInvariant. */
module SyncSteps {
  import opened Text
  import opened Disk
  import opened SyncProtocol
  import opened SyncInvariant

  lemma InitOk(w: World)
    ensures Inv(w, Init(w))
  {
  }

  lemma TempsAreUnowned(w: World)
    requires w.WellFormed()
    ensures forall q :: IsTempFor(w.EtagPath(), q) ==> !w.Owns(q) && IsTemp(w, q)
    ensures forall i: nat, q :: i < |w.Targets()| && IsTempFor(w.Targets()[i].path, q) ==> !w.Owns(q) && IsTemp(w, q)
  {
    forall q | IsTempFor(w.EtagPath(), q) ensures !w.Owns(q) && IsTemp(w, q) {
      assert w.Owns(w.EtagPath());
    }
    forall i: nat, q | i < |w.Targets()| && IsTempFor(w.Targets()[i].path, q)
      ensures !w.Owns(q) && IsTemp(w, q)
    {
      assert w.Owns(w.Targets()[i].path);
    }
  }

  lemma UnownedSet(w: World, d: Disk, p: Path, x: Option<File>)
    requires !w.Owns(p)
    ensures Covers(w, d, Set(d, p, x)) && Weathered(w, d, Set(d, p, x))
    ensures forall q :: w.Owns(q) ==> Look(Set(d, p, x), q) == Look(d, q)
  {
    assert forall i: nat :: i < |w.Targets()| ==> w.Owns(w.Targets()[i].path);
  }

  lemma CoversSelf(w: World, d: Disk)
    ensures Covers(w, d, d) && Weathered(w, d, d)
  {
  }

  /** Time passes at the gateway, or the process dies. */
  lemma AdvanceOrCrashStep(w: World, s: State, l: Label)
    requires Sound(w) && Inv(w, s) && (l.Advance? || l.Crash?)
    ensures Inv(w, Next(w, s, l))
  {
    CoversSelf(w, s.disk);
    CoversKeepsCore(w, s, Next(w, s, l));
    if l.Advance? {
      PcKept(w, s, Next(w, s, l));
    }
  }

  /** A target is deleted, or its mode is changed. */
  lemma TargetStep(w: World, s: State, i: nat, x: Option<File>)
    requires Sound(w) && Inv(w, s) && i < |w.Targets()|
    requires x.Some? ==> Look(s.disk, w.Targets()[i].path).Some? &&
                         SameCopy(x.value, Look(s.disk, w.Targets()[i].path).value)
    ensures Inv(w, s.(disk := Set(s.disk, w.Targets()[i].path, x)))
  {
    var T := w.Targets();
    var p := T[i].path;
    var s' := s.(disk := Set(s.disk, p, x));
    assert w.IsTargetPath(p);
    assert forall k: nat :: k < |T| && k != i ==> T[k].path != p;
    CoversKeepsCore(w, s, s');
    PcKept(w, s, s');
  }

  lemma ForeignStep(w: World, s: State, d: Disk)
    requires Sound(w) && Inv(w, s) && ForeignChange(w, s.disk, d)
    ensures Inv(w, s.(disk := d))
  {
    var s' := s.(disk := d);
    forall p | w.InFootprint(p) ensures Look(d, p) == Look(s.disk, p) && May(d, p) <= May(s.disk, p) {
      if p !in s.disk.Keys + d.Keys {
      }
    }
    assert forall i: nat :: i < |w.Targets()| ==> w.InFootprint(w.Targets()[i].path);
    assert w.InFootprint(w.EtagPath());
    CoversKeepsCore(w, s, s');
    PcKept(w, s, s');
  }

  lemma PowerLossStep(w: World, s: State, pick: map<Path, Option<File>>)
    requires Sound(w) && Inv(w, s)
    ensures Inv(w, Next(w, s, PowerLoss(pick)))
  {
    if w.powerLoss {
      var d := AfterPowerLoss(s.disk, pick);
      var mid := s.(disk := d);
      forall p, x | Possible(true, d, p, x) ensures Possible(true, s.disk, p, x) {
        PossibleAfterPowerLoss(s.disk, pick, true, p, x);
      }
      CoversKeepsCore(w, s, mid);
      forall i: nat | i < |w.Targets()| && Seen(w, d)[i].Some?
        ensures TargetMay(w, d, i, Seen(w, d)[i].value)
      {
      }
    }
  }

  /** Steps that only look: the disk is untouched. */
  lemma LookingStep(w: World, s: State, ok: bool, tmp: Path)
    requires Sound(w) && Inv(w, s)
    requires s.pc.Idle? || s.pc.Stat? || s.pc.ReadTag? || s.pc.Fetching?
    ensures Inv(w, Act(w, s, ok, tmp))
  {
    if s.pc.Fetching? {
      FetchingStep(w, s, ok, tmp);
    } else {
      var s' := Act(w, s, ok, tmp);
      assert s' == s.(pc := s'.pc, counts := s'.counts) && PcOk(w, s');
    }
  }

  lemma FetchingStep(w: World, s: State, ok: bool, tmp: Path)
    requires Sound(w) && Inv(w, s) && s.pc.Fetching?
    ensures Inv(w, Act(w, s, ok, tmp))
  {
    var s' := Act(w, s, ok, tmp);
    assert s' == s.(pc := s'.pc, counts := s'.counts);
    if s'.pc.Creating? {
      NewestSoFar(w, s);
      assert Staged(w, s', s.now, [], 0);
    }
  }

  /** A reply of this moment is as new as any tag on disk. */
  lemma NewestSoFar(w: World, s: State)
    requires TagOk(w, s.disk, s.now) && OwedOk(w, s) && w.Installable(s.now)
    ensures VersionOk(w, s, s.now)
  {
  }

  /** Creating a temporary file. */
  lemma CreatingStep(w: World, s: State, ok: bool, tmp: Path)
    requires Sound(w) && Inv(w, s) && s.pc.Creating?
    ensures Inv(w, Act(w, s, ok, tmp))
  {
    TempsAreUnowned(w);
    var s' := Act(w, s, ok, tmp);
    var Creating(v, temps) := s.pc;
    if s'.pc.Filling? {
      UnownedSet(w, s.disk, tmp, Some(File("", 0x180, v)));
      assert forall k: nat :: k < |temps| ==> temps[k] != tmp;
    } else {
      CoversSelf(w, s.disk);
    }
    CoversKeepsCore(w, s, s');
    CoversKeepsVersion(w, s, s', v);
  }

  /** Filling a temporary file. */
  lemma FillingStep(w: World, s: State, ok: bool, tmp: Path)
    requires Sound(w) && Inv(w, s) && s.pc.Filling?
    ensures Inv(w, Act(w, s, ok, tmp))
  {
    TempsAreUnowned(w);
    var s' := Act(w, s, ok, tmp);
    var Filling(v, temps, t) := s.pc;
    if s'.pc.Dropping? {
      CoversSelf(w, s.disk);
      CoversKeepsCore(w, s, s');
    } else {
      UnownedSet(w, s.disk, t, Some(w.Copy(v, |temps|)));
      CoversKeepsCore(w, s, s');
      CoversKeepsVersion(w, s, s', v);
      StagedGrows(w, s, s', v, temps, t);
    }
  }

  lemma StagedGrows(w: World, s: State, s': State, v: nat, temps: seq<Path>, t: Path)
    requires Staged(w, s, v, temps, 0) && |temps| < |w.Targets()| && t !in temps
    requires IsTempFor(w.Targets()[|temps|].path, t) && s'.disk == Put(s.disk, t, w.Copy(v, |temps|))
    ensures Staged(w, s', v, temps + [t], 0)
  {
  }

  /** Removing temporary files after a failure. */
  lemma RemovingStep(w: World, s: State, ok: bool, tmp: Path)
    requires Sound(w) && Inv(w, s)
    requires s.pc.Dropping? || s.pc.Cleaning? || s.pc.TagDropping?
    ensures Inv(w, Act(w, s, ok, tmp))
  {
    var s' := Act(w, s, ok, tmp);
    CoversSelf(w, s.disk);
    match s.pc
    case Dropping(temps, t) =>
      UnownedSet(w, s.disk, t, None);
      CoversKeepsCore(w, s, s');
    case Cleaning(temps) =>
      if temps != [] { UnownedSet(w, s.disk, temps[0], None); }
      CoversKeepsCore(w, s, s');
    case TagDropping(t) =>
      UnownedSet(w, s.disk, t, None);
      CoversKeepsCore(w, s, s');
  }

  /** Putting reply `v`'s copy of target `i` in place keeps the core when no tag is newer than `v`. */
  lemma InstallKeepsCore(w: World, s: State, v: nat, i: nat)
    requires w.WellFormed() && Core(w, s) && VersionOk(w, s, v) && i < |w.Targets()|
    ensures var f := w.Copy(v, i);
      var s' := s.(disk := Put(s.disk, w.Targets()[i].path, f));
      Core(w, s') && VersionOk(w, s', v)
  {
    var T := w.Targets();
    var p, f := T[i].path, w.Copy(v, i);
    var s' := s.(disk := Put(s.disk, p, f));
    assert w.IsTargetPath(p);
    assert forall g :: TagMay(w, s'.disk, g) ==> TagMay(w, s.disk, g);
    forall k: nat, x | k < |T| && TargetMay(w, s'.disk, k, x)
      ensures TargetMay(w, s.disk, k, x) || (k == i && x == f)
    {
      PossibleAfterSet(w.powerLoss, s.disk, p, Some(f), T[k].path, Some(x));
    }
  }

  /** Renaming a staged file over its target. */
  lemma RenamingStep(w: World, s: State, ok: bool, tmp: Path)
    requires Sound(w) && Inv(w, s) && s.pc.Renaming?
    ensures Inv(w, Act(w, s, ok, tmp))
  {
    TempsAreUnowned(w);
    var s' := Act(w, s, ok, tmp);
    var Renaming(v, temps, i) := s.pc;
    if s'.pc.Cleaning? {
      CoversSelf(w, s.disk);
      CoversKeepsCore(w, s, s');
    } else {
      RenameDone(w, s, v, temps, i);
    }
  }

  lemma RenameDone(w: World, s: State, v: nat, temps: seq<Path>, i: nat)
    requires Sound(w) && Inv(w, s) && s.pc == Renaming(v, temps, i)
    ensures var s' := s.(disk := Rename(s.disk, temps[i], w.Targets()[i].path),
                         pc := AfterRename(w, v, temps, i + 1), owed := Some(v));
      Inv(w, s')
  {
    TempsAreUnowned(w);
    var T := w.Targets();
    var t, p := temps[i], T[i].path;
    var s' := s.(disk := Rename(s.disk, t, p), pc := AfterRename(w, v, temps, i + 1), owed := Some(v));
    assert w.Owns(p);
    var mid := s.(disk := Remove(s.disk, t));
    UnownedSet(w, s.disk, t, None);
    CoversKeepsCore(w, s, mid);
    CoversKeepsVersion(w, s, mid, v);
    InstallKeepsCore(w, mid, v, i);
    assert Core(w, s') && VersionOk(w, s', v);
    RenamedIsInstalled(w, s, s', v, temps, i);
  }

  /** One more target is installed, and the names not renamed yet are as they were staged. */
  lemma RenamedIsInstalled(w: World, s: State, s': State, v: nat, temps: seq<Path>, i: nat)
    requires w.WellFormed() && i < |w.Targets()| == |temps| && Staged(w, s, v, temps, i) && Installed(w, s.disk, v, i)
    requires s'.disk == Rename(s.disk, temps[i], w.Targets()[i].path)
    ensures Staged(w, s', v, temps, i + 1) && Installed(w, s'.disk, v, i + 1)
  {
    TempsAreUnowned(w);
    var T := w.Targets();
    var t, p := temps[i], T[i].path;
    assert w.Owns(p);
    forall k: nat | k < i + 1
      ensures Look(s'.disk, T[k].path) == if k == i then Some(w.Copy(v, i)) else Look(s.disk, T[k].path)
    {
      assert w.Owns(T[k].path);
      LookAfterRename(s.disk, t, p, T[k].path);
    }
    forall k: nat | i + 1 <= k < |temps| ensures Look(s'.disk, temps[k]) == Look(s.disk, temps[k]) {
      assert temps[k] != t && temps[k] != p;
      LookAfterRename(s.disk, t, p, temps[k]);
    }
  }

  lemma FlushingStep(w: World, s: State, ok: bool, tmp: Path)
    requires Sound(w) && Inv(w, s) && s.pc.Flushing?
    ensures Inv(w, Act(w, s, ok, tmp))
  {
    var s' := Act(w, s, ok, tmp);
    var Flushing(v, dirs) := s.pc;
    var T := w.Targets();
    if dirs == [] {
      CoversSelf(w, s.disk);
    } else {
      forall p, x | Possible(w.powerLoss, s'.disk, p, x) ensures Possible(w.powerLoss, s.disk, p, x) {
        if s'.disk != s.disk { PossibleAfterFlush(w.powerLoss, s.disk, dirs[0], p, x); }
      }
      forall i: nat, f | i < |T| && T[i].path.dir == dirs[0] && TargetMay(w, s'.disk, i, f) ensures f.ver == v {
        if s'.disk != s.disk { PossibleAfterFlush(w.powerLoss, s.disk, dirs[0], T[i].path, Some(f)); }
      }
      forall i: nat | i < |T| && T[i].path.dir !in dirs[1..] ensures Settled(w, s'.disk, v, i) {
        if T[i].path.dir != dirs[0] {
          assert T[i].path.dir !in dirs;
          CoversKeepsSettled(w, s.disk, s'.disk, v, i);
        }
      }
    }
    CoversKeepsCore(w, s, s');
    CoversKeepsVersion(w, s, s', v);
  }

  /** Touching the stamp and staging the tag. */
  lemma CommittingStep(w: World, s: State, ok: bool, tmp: Path)
    requires Sound(w) && Inv(w, s)
    requires s.pc.Stamping? || s.pc.TagCreating? || s.pc.TagFilling?
    ensures Inv(w, Act(w, s, ok, tmp))
  {
    var s' := Act(w, s, ok, tmp);
    CommittingCovers(w, s, ok, tmp);
    CoversKeepsInstalled(w, s, s', s.pc.ver);
    assert s.pc.TagFilling? && s'.pc.TagRenaming? ==> Look(s'.disk, s.pc.tmp).Some?;
  }

  lemma CommittingCovers(w: World, s: State, ok: bool, tmp: Path)
    requires w.WellFormed() && PcOk(w, s) && (s.pc.Stamping? || s.pc.TagCreating? || s.pc.TagFilling?)
    ensures Covers(w, s.disk, Act(w, s, ok, tmp).disk)
  {
    TempsAreUnowned(w);
    CoversSelf(w, s.disk);
    match s.pc
    case Stamping(v) =>
      assert !w.IsTargetPath(w.StampPath());
      SetCovers(w, s.disk, w.StampPath(), Some(Stamp(s.stamps + 1, v)));
    case TagCreating(v) =>
      if Fresh(s, w.EtagPath(), tmp) { UnownedSet(w, s.disk, tmp, Some(File("", 0x180, v))); }
    case TagFilling(v, t) => UnownedSet(w, s.disk, t, Some(File(w.replies[v].tag + "\n", 0x180, v)));
  }

  /** Setting a path that is neither a target nor the tag file. */
  lemma SetCovers(w: World, d: Disk, p: Path, x: Option<File>)
    requires !w.IsTargetPath(p) && p != w.EtagPath()
    ensures Covers(w, d, Set(d, p, x))
  {
    forall i: nat | i < |w.Targets()| ensures w.Targets()[i].path != p {
      assert w.IsTargetPath(w.Targets()[i].path);
    }
  }

  /** What is installed and settled stays so while nothing new appears at the targets or the tag. */
  lemma CoversKeepsInstalled(w: World, s: State, s': State, v: nat)
    requires Core(w, s) && VersionOk(w, s, v) && AllSettled(w, s.disk, v) && Covers(w, s.disk, s'.disk)
    requires s'.now >= s.now && s'.loaded == s.loaded && s'.reloads == s.reloads && s'.owed == s.owed
    ensures Core(w, s') && VersionOk(w, s', v) && AllSettled(w, s'.disk, v)
  {
    CoversKeepsCore(w, s, s');
    CoversKeepsVersion(w, s, s', v);
    forall i: nat | i < |w.Targets()| ensures Settled(w, s'.disk, v, i) {
      CoversKeepsSettled(w, s.disk, s'.disk, v, i);
    }
  }

  /** Running the change command: the consumer loads what is at the targets. */
  lemma CommandingStep(w: World, s: State, ok: bool, tmp: Path)
    requires Sound(w) && Inv(w, s) && s.pc.Commanding?
    ensures Inv(w, Act(w, s, ok, tmp))
  {
    var s' := Act(w, s, ok, tmp);
    if ok {
      forall i: nat | i < |w.Targets()| && s'.loaded[i].Some?
        ensures TargetMay(w, s.disk, i, s'.loaded[i].value) && s'.loaded[i].value.ver == s.pc.ver
      {
        assert Settled(w, s.disk, s.pc.ver, i);
        assert TargetMay(w, s.disk, i, s'.loaded[i].value);
      }
    }
  }

  /** The commit: the tag file is replaced. */
  lemma TagRenamingStep(w: World, s: State, ok: bool, tmp: Path)
    requires Sound(w) && Inv(w, s) && s.pc.TagRenaming?
    ensures Inv(w, Act(w, s, ok, tmp))
  {
    TempsAreUnowned(w);
    var s' := Act(w, s, ok, tmp);
    var TagRenaming(v, t) := s.pc;
    if s'.pc.TagDropping? {
      CoversSelf(w, s.disk);
      CoversKeepsCore(w, s, s');
    } else {
      var mid := s.(disk := Remove(s.disk, t));
      UnownedSet(w, s.disk, t, None);
      CoversKeepsCore(w, s, mid);
      var g := File(w.replies[v].tag + "\n", 0x180, v);
      assert s'.disk == Set(mid.disk, w.EtagPath(), Some(g));
      forall i: nat | i < |w.Targets()| ensures w.Targets()[i].path != w.EtagPath() {
        assert w.IsTargetPath(w.Targets()[i].path);
      }
      assert forall x :: TagMay(w, s'.disk, x) ==> TagMay(w, mid.disk, x) || x == g;
      forall i: nat | i < |w.Targets()| ensures Settled(w, s'.disk, v, i) {
        CoversKeepsSettled(w, s.disk, mid.disk, v, i);
        assert forall f :: TargetMay(w, s'.disk, i, f) ==> TargetMay(w, mid.disk, i, f);
      }
      forall x, i: nat, f | TagMay(w, s'.disk, x) && i < |w.Targets()| && TargetMay(w, s'.disk, i, f)
        ensures x.ver <= f.ver
      {
        assert Settled(w, s'.disk, v, i) && (TagMay(w, mid.disk, x) || x == g);
      }
    }
  }

  /** Every call of the agent keeps the invariant. */
  lemma CallKeepsInv(w: World, s: State, ok: bool, tmp: Path)
    requires Sound(w) && Inv(w, s)
    ensures Inv(w, Act(w, s, ok, tmp))
  {
    var pc := s.pc;
    if pc.Idle? || pc.Stat? || pc.ReadTag? || pc.Fetching? {
      LookingStep(w, s, ok, tmp);
    } else if pc.Creating? {
      CreatingStep(w, s, ok, tmp);
    } else if pc.Filling? {
      FillingStep(w, s, ok, tmp);
    } else if pc.Dropping? || pc.Cleaning? || pc.TagDropping? {
      RemovingStep(w, s, ok, tmp);
    } else if pc.Renaming? {
      RenamingStep(w, s, ok, tmp);
    } else if pc.Flushing? {
      FlushingStep(w, s, ok, tmp);
    } else if pc.Commanding? {
      CommandingStep(w, s, ok, tmp);
    } else if pc.TagRenaming? {
      TagRenamingStep(w, s, ok, tmp);
    } else {
      CommittingStep(w, s, ok, tmp);
    }
  }

  /** Every step keeps the invariant. */
  lemma StepKeepsInv(w: World, s: State, l: Label)
    requires Sound(w) && Inv(w, s)
    ensures Inv(w, Next(w, s, l))
  {
    match l
    case Call(ok, tmp) => CallKeepsInv(w, s, ok, tmp);
    case PowerLoss(pick) => PowerLossStep(w, s, pick);
    case Delete(i) =>
      if i < |w.Targets()| { TargetStep(w, s, i, None); }
    case Chmod(i, mode) =>
      if i < |w.Targets()| && Look(s.disk, w.Targets()[i].path).Some? {
        TargetStep(w, s, i, Some(Look(s.disk, w.Targets()[i].path).value.(mode := mode)));
      }
    case Foreign(d) =>
      if ForeignChange(w, s.disk, d) { ForeignStep(w, s, d); }
    case _ => AdvanceOrCrashStep(w, s, l);
  }

  lemma {:induction false} RunKeepsInv(w: World, s: State, labels: seq<Label>)
    requires Sound(w) && Inv(w, s)
    ensures Inv(w, Run(w, s, labels))
    decreases |labels|
  {
    if labels != [] {
      StepKeepsInv(w, s, labels[0]);
      RunKeepsInv(w, Next(w, s, labels[0]), labels[1..]);
    }
  }

  // ---- What a call leaves alone ----

  /** The path a successful call of the agent replaces, if it is one of its own files. */
  predicate Replaces(w: World, s: State, p: Path) {
    match s.pc
    case Renaming(_, _, i) => i < |w.Targets()| && p == w.Targets()[i].path
    case Stamping(_) => p == w.StampPath()
    case TagRenaming(_, _) => p == w.EtagPath()
    case _ => false
  }

  /** A call changes none of the agent's own files but the one it replaces. */
  lemma OwnedUntouched(w: World, s: State, ok: bool, tmp: Path, p: Path)
    requires w.WellFormed() && PcOk(w, s) && w.Owns(p) && !(ok && Replaces(w, s, p))
    ensures Look(Act(w, s, ok, tmp).disk, p) == Look(s.disk, p)
  {
    var pc := s.pc;
    if pc.Creating? || pc.Filling? || pc.TagCreating? || pc.TagFilling? {
      WritingUntouched(w, s, ok, tmp, p);
    } else if pc.Dropping? || pc.Cleaning? || pc.TagDropping? {
      RemovingUntouched(w, s, ok, tmp, p);
    } else if pc.Renaming? || pc.TagRenaming? {
      MovingUntouched(w, s, ok, tmp, p);
    } else {
      OtherUntouched(w, s, ok, tmp, p);
    }
  }

  lemma WritingUntouched(w: World, s: State, ok: bool, tmp: Path, p: Path)
    requires w.WellFormed() && PcOk(w, s) && w.Owns(p)
    requires s.pc.Creating? || s.pc.Filling? || s.pc.TagCreating? || s.pc.TagFilling?
    ensures Look(Act(w, s, ok, tmp).disk, p) == Look(s.disk, p)
  {
    TempsAreUnowned(w);
  }

  lemma RemovingUntouched(w: World, s: State, ok: bool, tmp: Path, p: Path)
    requires PcOk(w, s) && w.Owns(p) && (s.pc.Dropping? || s.pc.Cleaning? || s.pc.TagDropping?)
    ensures Look(Act(w, s, ok, tmp).disk, p) == Look(s.disk, p)
  {
    match s.pc
    case Dropping(_, t) => assert t != p;
    case Cleaning(temps) => assert temps != [] ==> temps[0] != p;
    case TagDropping(t) => assert t != p;
  }

  lemma MovingUntouched(w: World, s: State, ok: bool, tmp: Path, p: Path)
    requires w.WellFormed() && PcOk(w, s) && w.Owns(p) && (s.pc.Renaming? || s.pc.TagRenaming?)
    requires !(ok && Replaces(w, s, p))
    ensures Look(Act(w, s, ok, tmp).disk, p) == Look(s.disk, p)
  {
    TempsAreUnowned(w);
    match s.pc
    case Renaming(_, temps, i) =>
      assert w.Owns(w.Targets()[i].path);
      if Look(s.disk, temps[i]).Some? { LookAfterRename(s.disk, temps[i], w.Targets()[i].path, p); }
    case TagRenaming(_, t) =>
      assert w.Owns(w.EtagPath());
      if Look(s.disk, t).Some? { LookAfterRename(s.disk, t, w.EtagPath(), p); }
  }

  lemma OtherUntouched(w: World, s: State, ok: bool, tmp: Path, p: Path)
    requires w.Owns(p) && !(ok && Replaces(w, s, p))
    requires s.pc.Idle? || s.pc.Stat? || s.pc.ReadTag? || s.pc.Fetching? ||
      s.pc.Flushing? || s.pc.Stamping? || s.pc.Commanding?
    ensures Look(Act(w, s, ok, tmp).disk, p) == Look(s.disk, p)
  {
  }
}
