/** What an installation leaves behind, whenever and however it ends. */
module SyncInstall {
  import opened Text
  import opened Disk
  import opened SyncProtocol
  import opened SyncInvariant
  import opened SyncSteps

  /** The first `j` targets are new and complete, the others as they were. */
  ghost predicate PrefixUpdated(w: World, base: Disk, d: Disk, v: nat, j: nat)
    requires w.Installable(v)
  {
    && j <= |w.Targets()|
    && (forall i: nat :: i < j ==> Look(d, w.Targets()[i].path) == Some(w.Copy(v, i)))
    && (forall i: nat :: j <= i < |w.Targets()| ==> Look(d, w.Targets()[i].path) == Look(base, w.Targets()[i].path))
  }

  /** The step renames a staged file into place. */
  predicate Renames(w: World, s: State, l: Label) {
    s.pc.Renaming? && l.Call? && !Next(w, s, l).pc.Cleaning?
  }

  function RenameCount(w: World, s: State, labels: seq<Label>): nat
    decreases |labels|
  {
    if labels == [] then 0
    else (if Renames(w, s, labels[0]) then 1 else 0) + RenameCount(w, Next(w, s, labels[0]), labels[1..])
  }

  /** The labels are calls of one Sync, up to its return or to any earlier point, with rotations at the gateway and
      the activity of other exposures in between. */
  predicate OneSync(w: World, s: State, labels: seq<Label>)
    decreases |labels|
  {
    labels == [] ||
    ((labels[0].Call? || labels[0].Advance? || labels[0].Foreign?) &&
     (Next(w, s, labels[0]).pc.Idle? ==> |labels| == 1) &&
     OneSync(w, Next(w, s, labels[0]), labels[1..]))
  }

  ghost predicate AtPrefix(w: World, base: Disk, s: State, v: nat, j: nat) {
    && w.Installable(v) && PrefixUpdated(w, base, s.disk, v, j)
    && match s.pc
       case Creating(u, _) => u == v && j == 0
       case Filling(u, _, _) => u == v && j == 0
       case Renaming(u, _, i) => u == v && j == i
       case Stat(_) => false
       case ReadTag => false
       case Fetching(_) => false
       case _ => true
  }

  /** Only a rename touches a target. */
  lemma TargetsOnlyRenamed(w: World, s: State, l: Label)
    requires Sound(w) && Inv(w, s) && (l.Call? || l.Advance? || l.Foreign?) && !Renames(w, s, l)
    ensures forall i: nat :: i < |w.Targets()| ==>
      Look(Next(w, s, l).disk, w.Targets()[i].path) == Look(s.disk, w.Targets()[i].path)
  {
    forall i: nat | i < |w.Targets()|
      ensures Look(Next(w, s, l).disk, w.Targets()[i].path) == Look(s.disk, w.Targets()[i].path)
    {
      if l.Call? {
        TargetUntouched(w, s, l, i);
      } else if l.Foreign? && ForeignChange(w, s.disk, l.disk) {
        var p := w.Targets()[i].path;
        assert w.IsTargetPath(p) && w.InFootprint(p);
      }
    }
  }

  lemma TargetUntouched(w: World, s: State, l: Label, i: nat)
    requires w.WellFormed() && PcOk(w, s) && l.Call? && !Renames(w, s, l) && i < |w.Targets()|
    ensures Look(Next(w, s, l).disk, w.Targets()[i].path) == Look(s.disk, w.Targets()[i].path)
  {
    var p := w.Targets()[i].path;
    assert w.IsTargetPath(p);
    if s.pc.Renaming? {
      assert Next(w, s, l).disk == s.disk;
    } else {
      OwnedUntouched(w, s, l.ok, l.tmp, p);
    }
  }

  lemma RenameAdvances(w: World, base: Disk, s: State, l: Label, v: nat, j: nat)
    requires Sound(w) && Inv(w, s) && AtPrefix(w, base, s, v, j) && Renames(w, s, l)
    ensures AtPrefix(w, base, Next(w, s, l), v, j + 1)
  {
    TempsAreUnowned(w);
    var T := w.Targets();
    var t, s' := s.pc.temps[j], Next(w, s, l);
    forall i: nat | i < |T| && i != j ensures Look(s'.disk, T[i].path) == Look(s.disk, T[i].path) {
      assert w.Owns(T[i].path) && T[i].path != T[j].path;
    }
    assert w.Owns(T[j].path);
  }

  lemma OtherStepsKeep(w: World, base: Disk, s: State, l: Label, v: nat, j: nat)
    requires Sound(w) && Inv(w, s) && AtPrefix(w, base, s, v, j) && !Renames(w, s, l) && !s.pc.Idle?
    requires l.Call? || l.Advance? || l.Foreign?
    ensures AtPrefix(w, base, Next(w, s, l), v, j)
  {
    TargetsOnlyRenamed(w, s, l);
    var s' := Next(w, s, l);
    assert PrefixUpdated(w, base, s'.disk, v, j);
  }

  lemma {:induction false} PrefixRun(w: World, base: Disk, s: State, labels: seq<Label>, v: nat, j: nat)
    requires Sound(w) && Inv(w, s) && AtPrefix(w, base, s, v, j) && OneSync(w, s, labels)
    requires s.pc.Idle? ==> labels == []
    ensures PrefixUpdated(w, base, Run(w, s, labels).disk, v, j + RenameCount(w, s, labels))
    decreases |labels|
  {
    if labels != [] {
      var l := labels[0];
      var s' := Next(w, s, l);
      StepKeepsInv(w, s, l);
      if Renames(w, s, l) {
        RenameAdvances(w, base, s, l, v, j);
        PrefixRun(w, base, s', labels[1..], v, j + 1);
      } else {
        OtherStepsKeep(w, base, s, l, v, j);
        PrefixRun(w, base, s', labels[1..], v, j);
      }
    }
  }

  /** Staging: no target has been touched yet. */
  predicate Staging(pc: Pc) {
    pc.Creating? || pc.Filling?
  }

  lemma StagingStartsClean(w: World, s: State)
    requires Inv(w, s) && Staging(s.pc)
    ensures AtPrefix(w, s.disk, s, s.pc.ver, 0)
  {
  }

  /** Install is a prefix update: wherever a Sync stops, returns or is killed, compared with the disk it found while
      staging the targets renamed so far are new and complete and all others are untouched. */
  lemma InstallIsPrefixUpdate(w: World, s: State, labels: seq<Label>)
    requires Sound(w) && Inv(w, s) && Staging(s.pc) && OneSync(w, s, labels)
    ensures w.Installable(s.pc.ver)
    ensures PrefixUpdated(w, s.disk, Run(w, s, labels).disk, s.pc.ver, RenameCount(w, s, labels))
  {
    StagingStartsClean(w, s);
    PrefixRun(w, s.disk, s, labels, s.pc.ver, 0);
  }

  /** The Sync only cleans up, or has returned. */
  predicate GivingUp(pc: Pc) {
    pc.Dropping? || pc.Cleaning? || pc.Idle?
  }

  /** A Sync that has begun to clean up renames nothing any more. */
  lemma {:induction false} NothingRenamed(w: World, s: State, labels: seq<Label>)
    requires GivingUp(s.pc) && OneSync(w, s, labels) && (s.pc.Idle? ==> labels == [])
    ensures RenameCount(w, s, labels) == 0
    decreases |labels|
  {
    if labels != [] {
      NothingRenamed(w, Next(w, s, labels[0]), labels[1..]);
    }
  }

  /** The Sync has left staging, in one direction or the other, and not returned. */
  predicate PastStaging(pc: Pc) {
    !pc.Idle? && !pc.Stat? && !pc.ReadTag? && !pc.Fetching? && !Staging(pc)
  }

  /** It does not come back to it. */
  lemma {:induction false} NeverBack(w: World, s: State, labels: seq<Label>)
    requires (PastStaging(s.pc) || s.pc.Idle?) && OneSync(w, s, labels) && (s.pc.Idle? ==> labels == [])
    ensures PastStaging(Run(w, s, labels).pc) || Run(w, s, labels).pc.Idle?
    decreases |labels|
  {
    if labels != [] {
      StaysPast(w, s, labels[0]);
      NeverBack(w, Next(w, s, labels[0]), labels[1..]);
    }
  }

  lemma StaysPast(w: World, s: State, l: Label)
    requires PastStaging(s.pc) && (l.Call? || l.Advance? || l.Foreign?)
    ensures PastStaging(Next(w, s, l).pc) || Next(w, s, l).pc.Idle?
  {
    match s.pc
    case Renaming(_, _, _) =>
    case TagRenaming(_, _) =>
    case _ =>
  }

  /** If staging any one target fails, at its creation or while it is written, the Sync renames nothing and changes no
      target at all, neither before nor after. Step `n` is the one that fails. */
  lemma {:induction false} FailedStagingTouchesNothing(w: World, s: State, labels: seq<Label>, n: nat)
    requires Sound(w) && Inv(w, s) && Staging(s.pc) && OneSync(w, s, labels)
    requires n < |labels| && Staging(Run(w, s, labels[..n]).pc) && labels[n].Call? && !labels[n].ok
    ensures RenameCount(w, s, labels) == 0
    ensures forall i: nat :: i < |w.Targets()| ==>
      Look(Run(w, s, labels).disk, w.Targets()[i].path) == Look(s.disk, w.Targets()[i].path)
    decreases n
  {
    NoRenameAfterFailure(w, s, labels, n);
    InstallIsPrefixUpdate(w, s, labels);
  }

  lemma {:induction false} NoRenameAfterFailure(w: World, s: State, labels: seq<Label>, n: nat)
    requires Staging(s.pc) && OneSync(w, s, labels)
    requires n < |labels| && Staging(Run(w, s, labels[..n]).pc) && labels[n].Call? && !labels[n].ok
    ensures RenameCount(w, s, labels) == 0
    decreases n
  {
    var s' := Next(w, s, labels[0]);
    if n == 0 {
      NothingRenamed(w, s', labels[1..]);
    } else {
      assert labels[..n][1..] == labels[1..][..n - 1];
      OneSyncPrefix(w, s', labels[1..], n - 1);
      if !Staging(s'.pc) {
        LeavesStaging(w, s, labels[0]);
        NeverBack(w, s', labels[1..][..n - 1]);
      } else {
        NoRenameAfterFailure(w, s', labels[1..], n - 1);
      }
    }
  }

  lemma LeavesStaging(w: World, s: State, l: Label)
    requires Staging(s.pc) && (l.Call? || l.Advance? || l.Foreign?) && !Staging(Next(w, s, l).pc)
    ensures PastStaging(Next(w, s, l).pc)
  {
  }

  lemma {:induction false} OneSyncPrefix(w: World, s: State, labels: seq<Label>, n: nat)
    requires OneSync(w, s, labels) && n <= |labels|
    ensures OneSync(w, s, labels[..n])
    decreases n
  {
    if n > 0 {
      assert labels[..n][1..] == labels[1..][..n - 1];
      OneSyncPrefix(w, Next(w, s, labels[0]), labels[1..], n - 1);
    }
  }

  // ---- Temporary files ----

  /** The temporary files the Sync still has to rename or remove. */
  function Held(pc: Pc): set<Path> {
    match pc
    case Creating(_, temps) => set t | t in temps
    case Filling(_, temps, tmp) => (set t | t in temps) + {tmp}
    case Dropping(temps, tmp) => (set t | t in temps) + {tmp}
    case Renaming(_, temps, i) => if i <= |temps| then set t | t in temps[i..] else {}
    case Cleaning(temps) => set t | t in temps
    case TagFilling(_, tmp) => {tmp}
    case TagRenaming(_, tmp) => {tmp}
    case TagDropping(tmp) => {tmp}
    case _ => {}
  }

  /** A temporary file of this exposure that was not there before: `base` holds those that were, say from a crash. */
  predicate NewTemp(w: World, base: set<Path>, p: Path) {
    IsTemp(w, p) && p !in base
  }

  ghost predicate NoStrays(w: World, base: set<Path>, s: State) {
    forall p :: NewTemp(w, base, p) && Look(s.disk, p).Some? ==> p in Held(s.pc)
  }

  /** A label that neither kills the process nor makes a removal fail. */
  predicate Orderly(s: State, l: Label) {
    match l
    case Call(ok, _) => (s.pc.Dropping? || s.pc.Cleaning? || s.pc.TagDropping?) ==> ok
    case Crash => false
    case PowerLoss(_) => false
    case _ => true
  }

  predicate OrderlyRun(w: World, s: State, labels: seq<Label>)
    decreases |labels|
  {
    labels == [] || (Orderly(s, labels[0]) && OrderlyRun(w, Next(w, s, labels[0]), labels[1..]))
  }

  lemma StraysStep(w: World, base: set<Path>, s: State, l: Label)
    requires Sound(w) && Inv(w, s) && NoStrays(w, base, s) && Orderly(s, l)
    ensures NoStrays(w, base, Next(w, s, l))
  {
    var s' := Next(w, s, l);
    forall p | NewTemp(w, base, p) && Look(s'.disk, p).Some? ensures p in Held(s'.pc) {
      match l
      case Call(ok, tmp) => StraysCall(w, base, s, ok, tmp, p);
      case Delete(i) =>
        if i < |w.Targets()| { assert w.IsTargetPath(w.Targets()[i].path); }
      case Chmod(i, _) =>
        if i < |w.Targets()| { assert w.IsTargetPath(w.Targets()[i].path); }
      case Foreign(d) => assert ForeignChange(w, s.disk, d) ==> Look(d, p) == Look(s.disk, p);
      case _ =>
    }
  }

  lemma StraysCall(w: World, base: set<Path>, s: State, ok: bool, tmp: Path, p: Path)
    requires w.WellFormed() && PcOk(w, s) && NoStrays(w, base, s) && Orderly(s, Call(ok, tmp))
    requires NewTemp(w, base, p) && Look(Act(w, s, ok, tmp).disk, p).Some?
    ensures p in Held(Act(w, s, ok, tmp).pc)
  {
    var pc := s.pc;
    if pc.Filling? {
      StraysFilling(w, base, s, ok, tmp, p);
    } else if pc.Renaming? {
      StraysRenaming(w, base, s, ok, tmp, p);
    } else if pc.Cleaning? || pc.Dropping? || pc.TagDropping? {
      StraysRemoved(w, base, s, tmp, p);
    } else if pc.Creating? || pc.TagCreating? || pc.TagFilling? || pc.TagRenaming? {
      StraysCreated(w, base, s, ok, tmp, p);
    } else {
      StraysElsewhere(w, base, s, ok, tmp, p);
    }
  }

  lemma StraysCreated(w: World, base: set<Path>, s: State, ok: bool, tmp: Path, p: Path)
    requires NoStrays(w, base, s) && NewTemp(w, base, p) && Look(Act(w, s, ok, tmp).disk, p).Some?
    requires s.pc.Creating? || s.pc.TagCreating? || s.pc.TagFilling? || s.pc.TagRenaming?
    ensures p in Held(Act(w, s, ok, tmp).pc)
  {
    if s.pc.TagRenaming? && ok && Look(s.disk, s.pc.tmp).Some? {
      assert p != w.EtagPath();
    }
  }

  lemma StraysRemoved(w: World, base: set<Path>, s: State, tmp: Path, p: Path)
    requires NoStrays(w, base, s) && (s.pc.Dropping? || s.pc.Cleaning? || s.pc.TagDropping?)
    requires NewTemp(w, base, p) && Look(Act(w, s, true, tmp).disk, p).Some?
    ensures p in Held(Act(w, s, true, tmp).pc)
  {
    if s.pc.Cleaning? && s.pc.temps != [] {
      assert s.pc.temps == [s.pc.temps[0]] + s.pc.temps[1..];
    }
  }

  lemma StraysFilling(w: World, base: set<Path>, s: State, ok: bool, tmp: Path, p: Path)
    requires w.WellFormed() && PcOk(w, s) && NoStrays(w, base, s) && s.pc.Filling?
    requires NewTemp(w, base, p) && Look(Act(w, s, ok, tmp).disk, p).Some?
    ensures p in Held(Act(w, s, ok, tmp).pc)
  {
    var Filling(v, temps, t) := s.pc;
    assert forall x :: x in temps + [t] <==> x in temps || x == t;
    assert (temps + [t])[0..] == temps + [t];
    assert p in temps + [t];
  }

  lemma StraysRenamed(d: Disk, temps: seq<Path>, i: nat, to: Path, p: Path)
    requires i < |temps| && Look(d, temps[i]).Some? && p != to
    requires Look(Rename(d, temps[i], to), p).Some?
    requires Look(d, p).Some? ==> p in temps[i..]
    ensures p in temps[i + 1..]
  {
    assert temps[i..] == [temps[i]] + temps[i + 1..];
  }

  lemma StraysRenaming(w: World, base: set<Path>, s: State, ok: bool, tmp: Path, p: Path)
    requires PcOk(w, s) && NoStrays(w, base, s) && s.pc.Renaming?
    requires NewTemp(w, base, p) && Look(Act(w, s, ok, tmp).disk, p).Some?
    ensures p in Held(Act(w, s, ok, tmp).pc)
  {
    var Renaming(v, temps, i) := s.pc;
    var to := w.Targets()[i].path;
    assert w.Owns(to) && Look(s.disk, temps[i]).Some?;
    if ok {
      assert Act(w, s, ok, tmp).disk == Rename(s.disk, temps[i], to);
      StraysRenamed(s.disk, temps, i, to, p);
      HeldAfterRename(w, v, temps, i, p);
    }
  }

  lemma HeldAfterRename(w: World, v: nat, temps: seq<Path>, i: nat, p: Path)
    requires i < |w.Targets()| == |temps| && p in temps[i + 1..]
    ensures p in Held(AfterRename(w, v, temps, i + 1))
  {
  }

  /** Calls made while nothing is staged create no temporary file. */
  lemma StraysElsewhere(w: World, base: set<Path>, s: State, ok: bool, tmp: Path, p: Path)
    requires w.WellFormed() && PcOk(w, s) && NoStrays(w, base, s) && Held(s.pc) == {} && !s.pc.Creating?
    requires !s.pc.Renaming?
    requires !s.pc.TagCreating? && !s.pc.Cleaning?
    requires NewTemp(w, base, p)
    ensures Look(Act(w, s, ok, tmp).disk, p).None?
  {
    assert Look(s.disk, p).None?;
    assert p != w.StampPath();
  }

  /** Every Sync that returns has renamed or removed each temporary file it created, whatever else is on the disk and
      whatever other exposures do meanwhile. */
  lemma {:induction false} TempFilesRemoved(w: World, base: set<Path>, s: State, labels: seq<Label>)
    requires Sound(w) && Inv(w, s) && NoStrays(w, base, s) && OrderlyRun(w, s, labels)
    ensures NoStrays(w, base, Run(w, s, labels))
    ensures Run(w, s, labels).pc.Idle? ==> forall p :: NewTemp(w, base, p) ==> Look(Run(w, s, labels).disk, p).None?
    decreases |labels|
  {
    if labels != [] {
      StepKeepsInv(w, s, labels[0]);
      StraysStep(w, base, s, labels[0]);
      TempFilesRemoved(w, base, Next(w, s, labels[0]), labels[1..]);
    }
  }
}
