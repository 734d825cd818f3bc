/** The order of renames, directory flushes and the tag across power losses (agent/internal/fetch/fetch.go). */
module SyncPowerLoss {
  import opened Text
  import opened Disk
  import opened SyncProtocol
  import opened SyncInvariant
  import opened SyncSteps
  import opened SyncPresence

  /** A tag that can be found stands for a target that cannot be missing. */
  ghost predicate Kept(w: World, s: State, i: nat)
    requires i < |w.Targets()|
  {
    Standing(w, s, i) && forall g :: TagMay(w, s.disk, g) ==> Present(w, s.disk, i)
  }

  /** Disk `e` offers no tag that `d` did not. */
  ghost predicate NoNewTag(w: World, d: Disk, e: Disk) {
    forall g :: TagMay(w, e, g) ==> TagMay(w, d, g)
  }

  lemma SetElsewhere(w: World, d: Disk, p: Path, x: Option<File>)
    requires p != w.EtagPath()
    ensures NoNewTag(w, d, Set(d, p, x)) && NoNewTag(w, d, Remove(d, p))
  {
  }

  lemma FlushNoTag(w: World, d: Disk, dir: string)
    ensures NoNewTag(w, d, Flush(d, dir))
  {
  }

  lemma RenameElsewhere(w: World, d: Disk, from: Path, to: Path)
    requires from != w.EtagPath() && to != w.EtagPath() && Look(d, from).Some?
    ensures NoNewTag(w, d, Rename(d, from, to))
  {
    SetElsewhere(w, d, from, None);
    SetElsewhere(w, Remove(d, from), to, Look(d, from));
  }

  /** Only a commit puts a tag on disk that could not be found there before. */
  lemma OnlyCommitsAddTags(w: World, s: State, l: Label)
    requires Sound(w) && PcOk(w, s) && !(s.pc.TagRenaming? && l.Call? && l.ok)
    ensures NoNewTag(w, s.disk, Next(w, s, l).disk)
  {
    assert w.Owns(w.EtagPath()) && w.InFootprint(w.EtagPath());
    forall i: nat | i < |w.Targets()| ensures w.Targets()[i].path != w.EtagPath() {
      assert w.IsTargetPath(w.Targets()[i].path);
    }
    match l
    case Call(ok, tmp) => CallAddsNoTag(w, s, ok, tmp);
    case Delete(j) => if j < |w.Targets()| { SetElsewhere(w, s.disk, w.Targets()[j].path, None); }
    case Chmod(j, mode) =>
      if j < |w.Targets()| && Look(s.disk, w.Targets()[j].path).Some? {
        SetElsewhere(w, s.disk, w.Targets()[j].path, Some(Look(s.disk, w.Targets()[j].path).value.(mode := mode)));
      }
    case _ =>
  }

  lemma CallAddsNoTag(w: World, s: State, ok: bool, tmp: Path)
    requires Sound(w) && PcOk(w, s) && !(s.pc.TagRenaming? && ok) && w.Owns(w.EtagPath())
    requires forall i: nat :: i < |w.Targets()| ==> w.Targets()[i].path != w.EtagPath()
    ensures NoNewTag(w, s.disk, Act(w, s, ok, tmp).disk)
  {
    TempsAreUnowned(w);
    match s.pc
    case Creating(ver, temps) =>
      if Fresh(s, w.Targets()[|temps|].path, tmp) { SetElsewhere(w, s.disk, tmp, Some(File("", 0x180, ver))); }
    case Filling(ver, temps, t) => SetElsewhere(w, s.disk, t, Some(w.Copy(ver, |temps|)));
    case Dropping(temps, t) => SetElsewhere(w, s.disk, t, None);
    case Cleaning(temps) => if temps != [] { SetElsewhere(w, s.disk, temps[0], None); }
    case Renaming(ver, temps, k) =>
      if Look(s.disk, temps[k]).Some? { RenameElsewhere(w, s.disk, temps[k], w.Targets()[k].path); }
    case Flushing(ver, dirs) => if dirs != [] { FlushNoTag(w, s.disk, dirs[0]); }
    case Stamping(ver) => SetElsewhere(w, s.disk, w.StampPath(), Some(Stamp(s.stamps + 1, ver)));
    case TagCreating(ver) =>
      if Fresh(s, w.EtagPath(), tmp) { SetElsewhere(w, s.disk, tmp, Some(File("", 0x180, ver))); }
    case TagFilling(ver, t) => SetElsewhere(w, s.disk, t, Some(File(w.replies[ver].tag + "\n", 0x180, ver)));
    case TagDropping(t) => SetElsewhere(w, s.disk, t, None);
    case _ =>
  }

  lemma StepKeepsKept(w: World, s: State, l: Label, i: nat)
    requires Sound(w) && PcOk(w, s) && i < |w.Targets()| && Kept(w, s, i) && l != Delete(i)
    ensures Kept(w, Next(w, s, l), i)
  {
    StepKeepsStanding(w, s, l, i);
    if s.pc.TagRenaming? && l.Call? && l.ok {
      CallKeeps(w, s, l.ok, l.tmp, i);
    } else {
      OnlyCommitsAddTags(w, s, l);
      StepKeepsPresent(w, s, l, i);
    }
  }

  /** A target that no power loss can take stays so until it is deleted. */
  lemma StepKeepsPresent(w: World, s: State, l: Label, i: nat)
    requires Sound(w) && PcOk(w, s) && i < |w.Targets()| && l != Delete(i)
    ensures Present(w, s.disk, i) ==> Present(w, Next(w, s, l).disk, i)
  {
    match l
    case Call(ok, tmp) => CallKeeps(w, s, ok, tmp, i);
    case Delete(j) => if j < |w.Targets()| { RemoveKeeps(w, s.disk, w.Targets()[j].path, i); }
    case Chmod(j, mode) =>
      if j < |w.Targets()| && Look(s.disk, w.Targets()[j].path).Some? {
        PutKeeps(w, s.disk, w.Targets()[j].path, Look(s.disk, w.Targets()[j].path).value.(mode := mode), i);
      }
    case PowerLoss(pick) => if w.powerLoss { PowerLossKeeps(w, s.disk, pick, i); }
    case Foreign(d) => if ForeignChange(w, s.disk, d) { ForeignKeeps(w, s.disk, d, i); }
    case _ =>
  }

  lemma {:induction false} RunKeepsKept(w: World, s: State, labels: seq<Label>, i: nat)
    requires Sound(w) && Inv(w, s) && i < |w.Targets()| && Kept(w, s, i) && Delete(i) !in labels
    ensures Kept(w, Run(w, s, labels), i) && Inv(w, Run(w, s, labels))
    decreases |labels|
  {
    if labels != [] {
      StepKeepsInv(w, s, labels[0]);
      StepKeepsKept(w, s, labels[0], i);
      RunKeepsKept(w, Next(w, s, labels[0]), labels[1..], i);
    }
  }

  /** Power-loss ordering. Un-flushed directory operations may be lost in any subset at any moment. A tag found
      afterwards means that every target of its installation is there too, unless somebody deletes that target, and
      whatever is there is complete and from the tag's reply or a later one. */
  lemma SurvivingTagMeansSurvivingRenames(w: World, labels: seq<Label>, pick: map<Path, Option<File>>)
    requires Sound(w) && w.powerLoss
    ensures var d := AfterPowerLoss(Run(w, Init(w), labels).disk, pick);
      Look(d, w.EtagPath()).Some? ==>
        forall i: nat :: i < |w.Targets()| ==>
          var x := Look(d, w.Targets()[i].path);
          && (Delete(i) !in labels ==> x.Some?)
          && (x.Some? ==>
                x.value.ver >= Look(d, w.EtagPath()).value.ver && w.Installable(x.value.ver) &&
                x.value.content == w.Value(x.value.ver, i))
  {
    var s := Run(w, Init(w), labels);
    InitOk(w);
    RunKeepsInv(w, Init(w), labels);
    StepKeepsInv(w, s, PowerLoss(pick));
    var s' := Next(w, s, PowerLoss(pick));
    if Look(s'.disk, w.EtagPath()).Some? {
      forall i: nat | i < |w.Targets()|
        ensures Delete(i) !in labels ==> Look(s'.disk, w.Targets()[i].path).Some?
        ensures var x := Look(s'.disk, w.Targets()[i].path);
          x.Some? ==>
            x.value.ver >= Look(s'.disk, w.EtagPath()).value.ver && w.Installable(x.value.ver) &&
            x.value.content == w.Value(x.value.ver, i)
      {
        SurvivorsAreNew(w, s', i);
        if Delete(i) !in labels {
          SurvivorsAreThere(w, labels, pick, i);
        }
      }
    }
  }

  lemma SurvivorsAreThere(w: World, labels: seq<Label>, pick: map<Path, Option<File>>, i: nat)
    requires Sound(w) && w.powerLoss && i < |w.Targets()| && Delete(i) !in labels
    ensures var d := AfterPowerLoss(Run(w, Init(w), labels).disk, pick);
      Look(d, w.EtagPath()).Some? ==> Look(d, w.Targets()[i].path).Some?
  {
    InitOk(w);
    RunKeepsKept(w, Init(w), labels, i);
    var s := Run(w, Init(w), labels);
    StepKeepsKept(w, s, PowerLoss(pick), i);
    var d := AfterPowerLoss(s.disk, pick);
    if Look(d, w.EtagPath()).Some? {
      assert TagMay(w, d, Look(d, w.EtagPath()).value);
    }
  }

  lemma SurvivorsAreNew(w: World, s: State, i: nat)
    requires Inv(w, s) && i < |w.Targets()| && Look(s.disk, w.EtagPath()).Some?
    ensures var x := Look(s.disk, w.Targets()[i].path);
      x.Some? ==>
        x.value.ver >= Look(s.disk, w.EtagPath()).value.ver && w.Installable(x.value.ver) &&
        x.value.content == w.Value(x.value.ver, i)
  {
    assert TagMay(w, s.disk, Look(s.disk, w.EtagPath()).value);
    if Look(s.disk, w.Targets()[i].path).Some? {
      assert TargetMay(w, s.disk, i, Look(s.disk, w.Targets()[i].path).value);
    }
  }
}
