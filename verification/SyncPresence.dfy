/** When a target is there: from its rename on, until somebody deletes it. */
module SyncPresence {
  import opened Text
  import opened Disk
  import opened SyncProtocol
  import opened SyncInvariant
  import opened SyncSteps

  /** Target `i` is there, and no power loss can leave it missing. */
  ghost predicate Present(w: World, d: Disk, i: nat)
    requires i < |w.Targets()|
  {
    !Possible(w.powerLoss, d, w.Targets()[i].path, None)
  }

  /** The Sync at `pc` has renamed target `i` into place. */
  predicate Placed(pc: Pc, i: nat) {
    pc.Flushing? || Flushed(pc) || (pc.Renaming? && i < pc.i)
  }

  /** The Sync at `pc` is past its directory flushes. */
  predicate Flushed(pc: Pc) {
    pc.Stamping? || pc.Commanding? || pc.TagCreating? || pc.TagFilling? || pc.TagRenaming?
  }

  /** What this Sync renamed is there, and what it flushed stays. */
  ghost predicate Standing(w: World, s: State, i: nat)
    requires i < |w.Targets()|
  {
    var p := w.Targets()[i].path;
    && (Placed(s.pc, i) ==> Look(s.disk, p).Some?)
    && (s.pc.Flushing? && p.dir !in s.pc.dirs ==> Present(w, s.disk, i))
    && (Flushed(s.pc) ==> Present(w, s.disk, i))
  }

  /** Disk `e` does not lose target `i` of `d`. */
  ghost predicate Keeps(w: World, d: Disk, e: Disk, i: nat)
    requires i < |w.Targets()|
  {
    && (Present(w, d, i) ==> Present(w, e, i))
    && (Look(d, w.Targets()[i].path).Some? ==> Look(e, w.Targets()[i].path).Some?)
  }

  lemma PutKeeps(w: World, d: Disk, p: Path, f: File, i: nat)
    requires i < |w.Targets()|
    ensures Keeps(w, d, Put(d, p, f), i)
  {
  }

  lemma RemoveKeeps(w: World, d: Disk, p: Path, i: nat)
    requires i < |w.Targets()| && p != w.Targets()[i].path
    ensures Keeps(w, d, Remove(d, p), i)
  {
  }

  lemma RenameKeeps(w: World, d: Disk, from: Path, to: Path, i: nat)
    requires i < |w.Targets()| && from != w.Targets()[i].path && Look(d, from).Some?
    ensures Keeps(w, d, Rename(d, from, to), i)
    ensures to == w.Targets()[i].path ==> Look(Rename(d, from, to), to).Some?
  {
    RemoveKeeps(w, d, from, i);
    PutKeeps(w, Remove(d, from), to, Look(d, from).value, i);
  }

  lemma FlushKeeps(w: World, d: Disk, dir: string, i: nat)
    requires i < |w.Targets()|
    ensures Keeps(w, d, Flush(d, dir), i)
    ensures w.Targets()[i].path.dir == dir && Look(d, w.Targets()[i].path).Some? ==> Present(w, Flush(d, dir), i)
  {
  }

  lemma PowerLossKeeps(w: World, d: Disk, pick: map<Path, Option<File>>, i: nat)
    requires w.powerLoss && i < |w.Targets()|
    ensures Present(w, d, i) ==> Present(w, AfterPowerLoss(d, pick), i)
  {
  }

  lemma ForeignKeeps(w: World, d: Disk, e: Disk, i: nat)
    requires ForeignChange(w, d, e) && i < |w.Targets()|
    ensures Keeps(w, d, e, i)
  {
    assert w.IsTargetPath(w.Targets()[i].path) && w.InFootprint(w.Targets()[i].path);
  }

  // ---- What a call of the agent does to a target ----

  lemma TempsAreNot(w: World, i: nat)
    requires w.WellFormed() && i < |w.Targets()|
    ensures forall t :: IsTemp(w, t) ==> t != w.Targets()[i].path
  {
    assert w.IsTargetPath(w.Targets()[i].path);
  }

  /** No call loses a target. */
  lemma CallKeeps(w: World, s: State, ok: bool, tmp: Path, i: nat)
    requires Sound(w) && PcOk(w, s) && i < |w.Targets()|
    ensures Keeps(w, s.disk, Act(w, s, ok, tmp).disk, i)
  {
    var pc := s.pc;
    if pc.Creating? || pc.Filling? || pc.Stamping? || pc.TagCreating? || pc.TagFilling? {
      WritingKeeps(w, s, ok, tmp, i);
    } else if pc.Dropping? || pc.Cleaning? || pc.TagDropping? {
      RemovingKeeps(w, s, ok, tmp, i);
    } else if pc.Renaming? || pc.TagRenaming? {
      MovingKeeps(w, s, ok, tmp, i);
    } else if pc.Flushing? && pc.dirs != [] {
      FlushKeeps(w, s.disk, pc.dirs[0], i);
    }
  }

  lemma WritingKeeps(w: World, s: State, ok: bool, tmp: Path, i: nat)
    requires Sound(w) && PcOk(w, s) && i < |w.Targets()|
    requires s.pc.Creating? || s.pc.Filling? || s.pc.Stamping? || s.pc.TagCreating? || s.pc.TagFilling?
    ensures Keeps(w, s.disk, Act(w, s, ok, tmp).disk, i)
  {
    match s.pc
    case Creating(ver, temps) => PutKeeps(w, s.disk, tmp, File("", 0x180, ver), i);
    case Filling(ver, temps, t) => PutKeeps(w, s.disk, t, w.Copy(ver, |temps|), i);
    case Stamping(ver) => PutKeeps(w, s.disk, w.StampPath(), Stamp(s.stamps + 1, ver), i);
    case TagCreating(ver) => PutKeeps(w, s.disk, tmp, File("", 0x180, ver), i);
    case TagFilling(ver, t) => PutKeeps(w, s.disk, t, File(w.replies[ver].tag + "\n", 0x180, ver), i);
  }

  lemma RemovingKeeps(w: World, s: State, ok: bool, tmp: Path, i: nat)
    requires Sound(w) && PcOk(w, s) && i < |w.Targets()| && (s.pc.Dropping? || s.pc.Cleaning? || s.pc.TagDropping?)
    ensures Keeps(w, s.disk, Act(w, s, ok, tmp).disk, i)
  {
    TempsAreNot(w, i);
    match s.pc
    case Dropping(temps, t) => RemoveKeeps(w, s.disk, t, i);
    case Cleaning(temps) => if temps != [] { RemoveKeeps(w, s.disk, temps[0], i); }
    case TagDropping(t) => RemoveKeeps(w, s.disk, t, i);
  }

  lemma MovingKeeps(w: World, s: State, ok: bool, tmp: Path, i: nat)
    requires Sound(w) && PcOk(w, s) && i < |w.Targets()| && (s.pc.Renaming? || s.pc.TagRenaming?)
    ensures Keeps(w, s.disk, Act(w, s, ok, tmp).disk, i)
  {
    TempsAreUnowned(w);
    TempsAreNot(w, i);
    match s.pc
    case Renaming(ver, temps, k) =>
      if Look(s.disk, temps[k]).Some? { RenameKeeps(w, s.disk, temps[k], w.Targets()[k].path, i); }
    case TagRenaming(ver, t) => if Look(s.disk, t).Some? { RenameKeeps(w, s.disk, t, w.EtagPath(), i); }
  }

  lemma CallKeepsStanding(w: World, s: State, ok: bool, tmp: Path, i: nat)
    requires Sound(w) && PcOk(w, s) && i < |w.Targets()| && Standing(w, s, i)
    ensures Standing(w, Act(w, s, ok, tmp), i)
  {
    CallKeeps(w, s, ok, tmp, i);
    if s.pc.Renaming? {
      RenamingStands(w, s, ok, tmp, i);
    } else if s.pc.Flushing? {
      FlushingStands(w, s, ok, tmp, i);
    }
  }

  lemma RenamingStands(w: World, s: State, ok: bool, tmp: Path, i: nat)
    requires Sound(w) && PcOk(w, s) && i < |w.Targets()| && Standing(w, s, i) && s.pc.Renaming?
    ensures Standing(w, Act(w, s, ok, tmp), i)
  {
    var Renaming(ver, temps, k) := s.pc;
    TempsAreUnowned(w);
    TempsAreNot(w, i);
    if ok && Look(s.disk, temps[k]).Some? {
      RenameKeeps(w, s.disk, temps[k], w.Targets()[k].path, i);
    }
  }

  lemma FlushingStands(w: World, s: State, ok: bool, tmp: Path, i: nat)
    requires Sound(w) && i < |w.Targets()| && Standing(w, s, i) && s.pc.Flushing?
    ensures Standing(w, Act(w, s, ok, tmp), i)
  {
    if s.pc.dirs != [] {
      FlushKeeps(w, s.disk, s.pc.dirs[0], i);
      if !w.powerLoss {
        assert Present(w, Act(w, s, ok, tmp).disk, i);
      }
    }
  }

  /** No step but its deletion takes away what this Sync has placed. */
  lemma StepKeepsStanding(w: World, s: State, l: Label, i: nat)
    requires Sound(w) && PcOk(w, s) && i < |w.Targets()| && Standing(w, s, i) && l != Delete(i)
    ensures Standing(w, Next(w, s, l), i)
  {
    match l
    case Call(ok, tmp) => CallKeepsStanding(w, s, ok, tmp, i);
    case Delete(j) =>
      if j < |w.Targets()| { RemoveKeeps(w, s.disk, w.Targets()[j].path, i); }
    case Chmod(j, mode) =>
      if j < |w.Targets()| && Look(s.disk, w.Targets()[j].path).Some? {
        PutKeeps(w, s.disk, w.Targets()[j].path, Look(s.disk, w.Targets()[j].path).value.(mode := mode), i);
      }
    case Foreign(d) => if ForeignChange(w, s.disk, d) { ForeignKeeps(w, s.disk, d, i); }
    case _ =>
  }

  lemma {:induction false} RunKeepsStanding(w: World, s: State, labels: seq<Label>, i: nat)
    requires Sound(w) && Inv(w, s) && i < |w.Targets()| && Standing(w, s, i) && Delete(i) !in labels
    ensures Standing(w, Run(w, s, labels), i)
    decreases |labels|
  {
    if labels != [] {
      StepKeepsInv(w, s, labels[0]);
      StepKeepsStanding(w, s, labels[0], i);
      RunKeepsStanding(w, Next(w, s, labels[0]), labels[1..], i);
    }
  }

  /** From step `k` of the run on, nobody deletes target `i`, and by then the Sync at work at the end of the run had
      not yet renamed it. */
  predicate Undisturbed(w: World, labels: seq<Label>, k: nat, i: nat)
    requires k <= |labels|
  {
    !Placed(Run(w, Init(w), labels[..k]).pc, i) && Delete(i) !in labels[k..]
  }

  /** A target that a Sync has placed is missing only if it was deleted after its rename. */
  lemma PlacedIsThere(w: World, labels: seq<Label>, k: nat, i: nat)
    requires Sound(w) && i < |w.Targets()| && k <= |labels| && Undisturbed(w, labels, k, i)
    ensures Placed(Run(w, Init(w), labels).pc, i) ==> Look(Run(w, Init(w), labels).disk, w.Targets()[i].path).Some?
  {
    var a, b := labels[..k], labels[k..];
    InitOk(w);
    RunKeepsInv(w, Init(w), a);
    RunConcat(w, Init(w), a, b);
    assert labels == a + b;
    RunKeepsStanding(w, Run(w, Init(w), a), b, i);
  }
}
