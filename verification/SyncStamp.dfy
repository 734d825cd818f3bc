/** The stamp file, whose writing is what a systemd .path unit reloads the consumer on. */
module SyncStamp {
  import opened Text
  import opened Disk
  import opened SyncProtocol
  import opened SyncInvariant
  import opened SyncSteps
  import opened SyncTheorems
  import opened SyncPresence

  /** The Sync at `pc` is past writing the stamp. */
  predicate Stamped(pc: Pc) {
    pc.Commanding? || Commanded(pc)
  }

  /** The Sync at `pc` has renamed all its targets. */
  predicate Complete(pc: Pc) {
    pc.Stamping? || Stamped(pc) || pc.TagDropping?
  }

  /** Since there were `stamps` writes of the stamp and `installs` complete installations, a Sync past the one or the
      other has added one; and past its stamp, the stamp is what the last write left, of the reply being installed. */
  ghost predicate Marked(w: World, s: State, stamps: nat, installs: nat) {
    && stamps <= s.stamps && (Stamped(s.pc) ==> stamps < s.stamps)
    && installs <= s.installs && (Complete(s.pc) ==> installs < s.installs)
    && (Stamped(s.pc) ==> Look(s.disk, w.StampPath()) == Some(Stamp(s.stamps, s.pc.ver)))
  }

  /** A call writes the stamp, or completes an installation, or neither. */
  lemma CallMarks(w: World, s: State, ok: bool, tmp: Path)
    ensures var r := Act(w, s, ok, tmp);
      && r.stamps == s.stamps + (if s.pc.Stamping? && ok then 1 else 0)
      && r.installs == s.installs + (if s.pc.Flushing? && s.pc.dirs == [] then 1 else 0)
  {
    match s.pc
    case Creating(_, _) =>
    case Filling(_, _, _) =>
    case Renaming(_, _, _) =>
    case TagRenaming(_, _) =>
    case _ =>
  }

  /** A Sync gets past its stamp only by writing it, and to it only by completing the installation. */
  lemma CallGoesOn(w: World, s: State, ok: bool, tmp: Path)
    ensures var r := Act(w, s, ok, tmp);
      && (Stamped(r.pc) ==> ((s.pc.Stamping? && ok) || Stamped(s.pc)) && r.pc.ver == s.pc.ver)
      && (Complete(r.pc) ==> (s.pc.Flushing? && s.pc.dirs == []) || Complete(s.pc))
  {
    match s.pc
    case Creating(_, _) =>
    case Filling(_, _, _) =>
    case Renaming(_, _, _) =>
    case TagRenaming(_, _) =>
    case _ =>
  }

  lemma CallKeepsMarked(w: World, s: State, ok: bool, tmp: Path, stamps: nat, installs: nat)
    requires Sound(w) && Inv(w, s) && Marked(w, s, stamps, installs)
    ensures Marked(w, Act(w, s, ok, tmp), stamps, installs)
  {
    CallMarks(w, s, ok, tmp);
    CallGoesOn(w, s, ok, tmp);
    if Stamped(s.pc) {
      StampUntouched(w, s, ok, tmp);
    }
  }

  lemma StampUntouched(w: World, s: State, ok: bool, tmp: Path)
    requires Sound(w) && Inv(w, s) && Stamped(s.pc)
    ensures Look(Act(w, s, ok, tmp).disk, w.StampPath()) == Look(s.disk, w.StampPath())
  {
    assert w.Owns(w.StampPath());
    OwnedUntouched(w, s, ok, tmp, w.StampPath());
  }

  lemma StepKeepsMarked(w: World, s: State, l: Label, stamps: nat, installs: nat)
    requires Sound(w) && Inv(w, s) && Marked(w, s, stamps, installs)
    ensures Marked(w, Next(w, s, l), stamps, installs)
  {
    var p := w.StampPath();
    forall i: nat | i < |w.Targets()| ensures w.Targets()[i].path != p {
      assert w.IsTargetPath(w.Targets()[i].path);
    }
    if l.Call? {
      CallKeepsMarked(w, s, l.ok, l.tmp, stamps, installs);
    } else if l.Foreign? {
      assert w.InFootprint(p);
      assert ForeignChange(w, s.disk, l.disk) && p in s.disk.Keys + l.disk.Keys ==> Look(l.disk, p) == Look(s.disk, p);
    }
  }

  lemma {:induction false} RunKeepsMarked(w: World, s: State, labels: seq<Label>, stamps: nat, installs: nat)
    requires Sound(w) && Inv(w, s) && Marked(w, s, stamps, installs)
    ensures Marked(w, Run(w, s, labels), stamps, installs)
    decreases |labels|
  {
    if labels != [] {
      StepKeepsMarked(w, s, labels[0], stamps, installs);
      StepKeepsInv(w, s, labels[0]);
      RunKeepsMarked(w, Next(w, s, labels[0]), labels[1..], stamps, installs);
    }
  }

  /** A commit, and a success of the change command. */
  predicate Triggers(w: World, s: State, l: Label) {
    Next(w, s, l).commits > s.commits || Next(w, s, l).runs > s.runs
  }

  /** Every commit and every success of the change command comes after its Sync wrote the stamp: from any earlier point
      at which that Sync was not past its stamp, its fetch in particular, the stamp has been written again after all
      targets were renamed again, and the file shows that very write, of the very reply that was installed. */
  lemma ChangesAreStamped(w: World, labels: seq<Label>, l: Label, k: nat)
    requires Sound(w) && k <= |labels| && !Complete(Run(w, Init(w), labels[..k]).pc)
    ensures var r := Run(w, Init(w), labels[..k]);
      var s := Run(w, Init(w), labels);
      var s' := Next(w, s, l);
      Triggers(w, s, l) ==>
        && (s.pc.Commanding? || s.pc.TagRenaming?)
        && s'.stamps > r.stamps && s'.installs > r.installs
        && Look(s'.disk, w.StampPath()) == Some(Stamp(s'.stamps, s.pc.ver))
  {
    var a, b := labels[..k], labels[k..];
    assert labels == a + b;
    RunConcat(w, Init(w), a, b);
    InitOk(w);
    RunKeepsInv(w, Init(w), a);
    RunKeepsInv(w, Init(w), labels);
    var r := Run(w, Init(w), a);
    RunKeepsMarked(w, r, b, r.stamps, r.installs);
    var s := Run(w, Init(w), labels);
    if Triggers(w, s, l) {
      TriggersFrom(w, s, l);
      CallMarks(w, s, l.ok, l.tmp);
      StampUntouched(w, s, l.ok, l.tmp);
    }
  }

  lemma TriggersFrom(w: World, s: State, l: Label)
    requires Triggers(w, s, l)
    ensures l.Call? && (s.pc.Commanding? || s.pc.TagRenaming?)
  {
    CommitsFromTag(w, s, l);
    RunsFromCommand(w, s, l);
  }

  lemma RunsFromCommand(w: World, s: State, l: Label)
    ensures Next(w, s, l).runs > s.runs ==> l.Call? && s.pc.Commanding?
  {
    match s.pc
    case Creating(_, _) =>
    case Filling(_, _, _) =>
    case Renaming(_, _, _) =>
    case TagRenaming(_, _) =>
    case _ =>
  }

  /** The stamp is a safe trigger: when it is written, every target is of the one reply being installed, and missing
      only if it was deleted after this Sync renamed it; so no reload happens between two renames. */
  lemma StampIsSafe(w: World, labels: seq<Label>, l: Label)
    requires Sound(w)
    ensures var s := Run(w, Init(w), labels);
      Next(w, s, l).stamps > s.stamps ==>
        && s.pc.Stamping? && w.Installable(s.pc.ver)
        && (forall i: nat :: i < |w.Targets()| && Look(s.disk, w.Targets()[i].path).Some? ==>
             Look(s.disk, w.Targets()[i].path).value.content == w.Value(s.pc.ver, i))
        && (forall i: nat, k: nat :: i < |w.Targets()| && k <= |labels| && Undisturbed(w, labels, k, i) ==>
             Look(s.disk, w.Targets()[i].path).Some?)
  {
    InitOk(w);
    RunKeepsInv(w, Init(w), labels);
    var s := Run(w, Init(w), labels);
    if l.Call? {
      CallMarks(w, s, l.ok, l.tmp);
    }
    if Next(w, s, l).stamps > s.stamps {
      forall i: nat | i < |w.Targets()| && Look(s.disk, w.Targets()[i].path).Some?
        ensures Look(s.disk, w.Targets()[i].path).value.content == w.Value(s.pc.ver, i)
      {
        assert TargetMay(w, s.disk, i, Look(s.disk, w.Targets()[i].path).value) && Settled(w, s.disk, s.pc.ver, i);
      }
      forall i: nat, k: nat | i < |w.Targets()| && k <= |labels| && Undisturbed(w, labels, k, i)
        ensures Look(s.disk, w.Targets()[i].path).Some?
      {
        PlacedIsThere(w, labels, k, i);
      }
    }
  }

  /** Different writes leave different stamps: the file has changed since every earlier write. */
  lemma StampsDiffer(m: nat, n: nat, u: nat, v: nat)
    requires m != n
    ensures Stamp(m, u).content != Stamp(n, v).content
  {
    assert |Stamp(m, u).content| == m && |Stamp(n, v).content| == n;
  }
}
