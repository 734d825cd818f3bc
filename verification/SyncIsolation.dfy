/** Exposures synchronize concurrently on one file system without disturbing each other. */
module SyncIsolation {
  import opened Text
  import opened Disk
  import opened SyncProtocol
  import opened SyncInvariant
  import opened SyncSteps

  // ---- One exposure among others ----

  /** The two states agree on everything the exposure reads or owns. Alone, a power loss can leave no less than among
      others, whose flushes of a shared directory settle what is in it. */
  ghost predicate Agree(w: World, s: State, r: State) {
    && r == s.(disk := r.disk)
    && forall p :: w.InFootprint(p) ==> Look(r.disk, p) == Look(s.disk, p) && May(s.disk, p) <= May(r.disk, p)
  }

  predicate AgreeAt(d: Disk, e: Disk, p: Path) {
    Look(e, p) == Look(d, p) && May(d, p) <= May(e, p)
  }

  function OwnLabels(labels: seq<Label>): seq<Label> {
    if labels == [] then []
    else if labels[0].Foreign? then OwnLabels(labels[1..])
    else [labels[0]] + OwnLabels(labels[1..])
  }

  lemma ForeignIsInvisible(w: World, s: State, r: State, d: Disk)
    requires Agree(w, s, r)
    ensures Agree(w, Next(w, s, Foreign(d)), r)
  {
    if ForeignChange(w, s.disk, d) {
      forall p | w.InFootprint(p) ensures AgreeAt(d, r.disk, p) {
        assert AgreeAt(s.disk, r.disk, p);
        if p !in s.disk.Keys + d.Keys {
        }
      }
    }
  }

  lemma OwnStepAgrees(w: World, s: State, r: State, l: Label)
    requires Sound(w) && Inv(w, s) && Agree(w, s, r) && !l.Foreign? && !l.PowerLoss?
    ensures Agree(w, Next(w, s, l), Next(w, r, l))
  {
    forall i: nat | i < |w.Targets()| ensures AgreeAt(s.disk, r.disk, w.Targets()[i].path) {
      assert w.IsTargetPath(w.Targets()[i].path);
    }
    if l.Call? {
      OwnCallAgrees(w, s, r, l.ok, l.tmp);
    }
  }

  /** What a power loss left among others it can leave alone too: pick that. */
  lemma PowerLossAgrees(w: World, s: State, r: State, pick: map<Path, Option<File>>)
    returns (alone: map<Path, Option<File>>)
    requires Agree(w, s, r)
    ensures Agree(w, Next(w, s, PowerLoss(pick)), Next(w, r, PowerLoss(alone)))
  {
    var d := AfterPowerLoss(s.disk, pick);
    alone := map p | p in d :: d[p].cur;
    var e := AfterPowerLoss(r.disk, alone);
    forall p | w.InFootprint(p) ensures AgreeAt(d, e, p) {
      PicksAgree(s.disk, r.disk, pick, alone, p);
    }
    forall i: nat | i < |w.Targets()| ensures Look(d, w.Targets()[i].path) == Look(e, w.Targets()[i].path) {
      assert w.IsTargetPath(w.Targets()[i].path);
      assert AgreeAt(d, e, w.Targets()[i].path);
    }
    assert Seen(w, d) == Seen(w, e);
  }

  lemma PicksAgree(d: Disk, e: Disk, pick: map<Path, Option<File>>, alone: map<Path, Option<File>>, p: Path)
    requires AgreeAt(d, e, p) && alone == map q | q in AfterPowerLoss(d, pick) :: AfterPowerLoss(d, pick)[q].cur
    ensures AgreeAt(AfterPowerLoss(d, pick), AfterPowerLoss(e, alone), p)
  {
    var x := Look(AfterPowerLoss(d, pick), p);
    assert x in May(d, p) && x in May(e, p);
    if p in d && p in e {
      assert alone[p] == x;
    } else if p in d {
      assert May(e, p) == {None};
    } else {
      assert p !in alone;
    }
  }

  lemma OwnCallAgrees(w: World, s: State, r: State, ok: bool, tmp: Path)
    requires w.WellFormed() && PcOk(w, s) && Agree(w, s, r)
    ensures Agree(w, Act(w, s, ok, tmp), Act(w, r, ok, tmp))
  {
    SameReads(w, s, r, tmp);
    match s.pc
    case Idle => LookingAgrees(w, s, r, ok, tmp);
    case Stat(_) => LookingAgrees(w, s, r, ok, tmp);
    case ReadTag => LookingAgrees(w, s, r, ok, tmp);
    case Fetching(_) => LookingAgrees(w, s, r, ok, tmp);
    case Creating(_, _) => StagingAgrees(w, s, r, ok, tmp);
    case Filling(_, _, _) => StagingAgrees(w, s, r, ok, tmp);
    case Renaming(_, _, _) => RenamingAgrees(w, s, r, ok, tmp);
    case Flushing(_, _) => FlushingAgrees(w, s, r, ok, tmp);
    case Dropping(_, _) => RemovingAgrees(w, s, r, ok, tmp);
    case Cleaning(_) => RemovingAgrees(w, s, r, ok, tmp);
    case TagDropping(_) => RemovingAgrees(w, s, r, ok, tmp);
    case Stamping(_) => StampingAgrees(w, s, r, ok, tmp);
    case Commanding(_) => CommandingAgrees(w, s, r, ok, tmp);
    case TagCreating(_) => TagAgrees(w, s, r, ok, tmp);
    case TagFilling(_, _) => TagAgrees(w, s, r, ok, tmp);
    case TagRenaming(_, _) => RenamingAgrees(w, s, r, ok, tmp);
  }

  /** The paths the next call reads. */
  function ReadBy(w: World, s: State, tmp: Path): seq<Path> {
    match s.pc
    case Creating(_, temps) =>
      if |temps| < |w.Targets()| && IsTempFor(w.Targets()[|temps|].path, tmp) then [tmp] else []
    case TagCreating(_) => if IsTempFor(w.EtagPath(), tmp) then [tmp] else []
    case Renaming(_, temps, i) => if i < |temps| then [temps[i]] else []
    case Cleaning(temps) => if temps == [] then [] else [temps[0]]
    case Dropping(_, t) => [t]
    case TagRenaming(_, t) => [t]
    case TagDropping(t) => [t]
    case _ => [w.EtagPath()] + seq(|w.Targets()|, i requires 0 <= i < |w.Targets()| => w.Targets()[i].path)
  }

  ghost predicate SameRead(w: World, s: State, r: State, tmp: Path) {
    forall p :: p in ReadBy(w, s, tmp) ==> Look(r.disk, p) == Look(s.disk, p)
  }

  lemma SameReads(w: World, s: State, r: State, tmp: Path)
    requires w.WellFormed() && PcOk(w, s) && Agree(w, s, r)
    ensures SameRead(w, s, r, tmp)
  {
    TempsAreUnowned(w);
    forall p | p in ReadBy(w, s, tmp) ensures w.InFootprint(p) {
      if i: nat :| i < |w.Targets()| && p == w.Targets()[i].path {
        assert w.IsTargetPath(p);
      }
    }
  }

  lemma LookingAgrees(w: World, s: State, r: State, ok: bool, tmp: Path)
    requires Agree(w, s, r) && SameRead(w, s, r, tmp)
    requires s.pc.Idle? || s.pc.Stat? || s.pc.ReadTag? || s.pc.Fetching?
    ensures Agree(w, Act(w, s, ok, tmp), Act(w, r, ok, tmp))
  {
    var rs := ReadBy(w, s, tmp);
    if s.pc.Stat? && s.pc.i < |w.Targets()| {
      assert rs[s.pc.i + 1] == w.Targets()[s.pc.i].path;
    }
    assert s.pc.ReadTag? ==> rs[0] == w.EtagPath();
  }

  lemma StagingAgrees(w: World, s: State, r: State, ok: bool, tmp: Path)
    requires Agree(w, s, r) && SameRead(w, s, r, tmp)
    requires s.pc.Creating? || s.pc.Filling?
    ensures Agree(w, Act(w, s, ok, tmp), Act(w, r, ok, tmp))
  {
    assert s.pc.Creating? && |s.pc.temps| < |w.Targets()| ==>
      Fresh(s, w.Targets()[|s.pc.temps|].path, tmp) == Fresh(r, w.Targets()[|s.pc.temps|].path, tmp);
  }

  /** The disks agree on the footprint. */
  ghost predicate DisksAgree(w: World, d: Disk, e: Disk) {
    forall p :: w.InFootprint(p) ==> Look(e, p) == Look(d, p) && May(d, p) <= May(e, p)
  }

  lemma RemoveAgrees(w: World, d: Disk, e: Disk, t: Path)
    requires DisksAgree(w, d, e) && Look(d, t) == Look(e, t)
    ensures DisksAgree(w, Remove(d, t), Remove(e, t))
  {
  }

  lemma PutAgrees(w: World, d: Disk, e: Disk, p: Path, f: File)
    requires DisksAgree(w, d, e)
    ensures DisksAgree(w, Put(d, p, f), Put(e, p, f))
  {
  }

  lemma RenameAgrees(w: World, d: Disk, e: Disk, from: Path, to: Path)
    requires DisksAgree(w, d, e) && Look(d, from) == Look(e, from) && Look(d, from).Some?
    ensures DisksAgree(w, Rename(d, from, to), Rename(e, from, to))
  {
    RemoveAgrees(w, d, e, from);
    PutAgrees(w, Remove(d, from), Remove(e, from), to, Look(d, from).value);
  }

  lemma RenamingAgrees(w: World, s: State, r: State, ok: bool, tmp: Path)
    requires Agree(w, s, r) && SameRead(w, s, r, tmp)
    requires s.pc.Renaming? || s.pc.TagRenaming?
    ensures Agree(w, Act(w, s, ok, tmp), Act(w, r, ok, tmp))
  {
    match s.pc
    case Renaming(_, temps, i) =>
      if i < |temps| {
        assert temps[i] in ReadBy(w, s, tmp);
        if i < |w.Targets()| && Look(s.disk, temps[i]).Some? {
          RenameAgrees(w, s.disk, r.disk, temps[i], w.Targets()[i].path);
        }
      }
    case TagRenaming(_, t) =>
      assert t in ReadBy(w, s, tmp);
      if Look(s.disk, t).Some? { RenameAgrees(w, s.disk, r.disk, t, w.EtagPath()); }
  }

  lemma FlushingAgrees(w: World, s: State, r: State, ok: bool, tmp: Path)
    requires Agree(w, s, r) && SameRead(w, s, r, tmp)
    requires s.pc.Flushing?
    ensures Agree(w, Act(w, s, ok, tmp), Act(w, r, ok, tmp))
  {
  }

  lemma RemovingAgrees(w: World, s: State, r: State, ok: bool, tmp: Path)
    requires Agree(w, s, r) && SameRead(w, s, r, tmp)
    requires s.pc.Dropping? || s.pc.Cleaning? || s.pc.TagDropping?
    ensures Agree(w, Act(w, s, ok, tmp), Act(w, r, ok, tmp))
  {
    if s.pc.Cleaning? && s.pc.temps == [] {
    } else {
      var t := if s.pc.Cleaning? then s.pc.temps[0] else s.pc.tmp;
      assert t in ReadBy(w, s, tmp);
      RemoveAgrees(w, s.disk, r.disk, t);
    }
  }

  lemma StampingAgrees(w: World, s: State, r: State, ok: bool, tmp: Path)
    requires Agree(w, s, r) && SameRead(w, s, r, tmp)
    requires s.pc.Stamping?
    ensures Agree(w, Act(w, s, ok, tmp), Act(w, r, ok, tmp))
  {
  }

  lemma CommandingAgrees(w: World, s: State, r: State, ok: bool, tmp: Path)
    requires Agree(w, s, r) && SameRead(w, s, r, tmp)
    requires s.pc.Commanding?
    ensures Agree(w, Act(w, s, ok, tmp), Act(w, r, ok, tmp))
  {
    SeenAgrees(w, s, r, tmp);
  }

  lemma SeenAgrees(w: World, s: State, r: State, tmp: Path)
    requires SameRead(w, s, r, tmp) && s.pc.Commanding?
    ensures Seen(w, s.disk) == Seen(w, r.disk)
  {
    var rs := ReadBy(w, s, tmp);
    forall i: nat | i < |w.Targets()| ensures Look(s.disk, w.Targets()[i].path) == Look(r.disk, w.Targets()[i].path) {
      assert rs[i + 1] == w.Targets()[i].path;
    }
  }

  lemma TagAgrees(w: World, s: State, r: State, ok: bool, tmp: Path)
    requires Agree(w, s, r) && SameRead(w, s, r, tmp)
    requires s.pc.TagCreating? || s.pc.TagFilling?
    ensures Agree(w, Act(w, s, ok, tmp), Act(w, r, ok, tmp))
  {
    assert s.pc.TagCreating? ==> Fresh(s, w.EtagPath(), tmp) == Fresh(r, w.EtagPath(), tmp);
  }

  /** The same steps, but for what power losses happen to leave. */
  predicate SameButPicks(a: seq<Label>, b: seq<Label>) {
    |a| == |b| && forall i :: 0 <= i < |a| ==> a[i] == b[i] || (a[i].PowerLoss? && b[i].PowerLoss?)
  }

  lemma SameButPicksCons(a: seq<Label>, b: seq<Label>, k: Label, l: Label)
    requires SameButPicks(a, b) && (k == l || (k.PowerLoss? && l.PowerLoss?))
    ensures SameButPicks([k] + a, [l] + b)
  {
  }

  /** The exposure's own step has a counterpart when it runs alone. */
  lemma StepAlone(w: World, s: State, r: State, l: Label) returns (alone: Label)
    requires Sound(w) && Inv(w, s) && Agree(w, s, r) && !l.Foreign?
    ensures Agree(w, Next(w, s, l), Next(w, r, alone)) && (alone == l || (alone.PowerLoss? && l.PowerLoss?))
  {
    if l.PowerLoss? {
      var pick := PowerLossAgrees(w, s, r, l.pick);
      alone := PowerLoss(pick);
    } else {
      OwnStepAgrees(w, s, r, l);
      alone := l;
    }
  }

  /** Exposure non-interference: whatever other exposures do meanwhile, an exposure ends with the files, stamp,
      tag, counters and place in its program that its own steps alone would have given it, power losses leaving the
      same. */
  lemma {:induction false} OthersDoNotInterfere(w: World, s: State, r: State, labels: seq<Label>)
    returns (alone: seq<Label>)
    requires Sound(w) && Inv(w, s) && Agree(w, s, r)
    ensures SameButPicks(OwnLabels(labels), alone) && Agree(w, Run(w, s, labels), Run(w, r, alone))
    decreases |labels|
  {
    if labels == [] {
      alone := [];
    } else {
      var l := labels[0];
      StepKeepsInv(w, s, l);
      if l.Foreign? {
        ForeignIsInvisible(w, s, r, l.disk);
        alone := OthersDoNotInterfere(w, Next(w, s, l), r, labels[1..]);
      } else {
        var own := StepAlone(w, s, r, l);
        var rest := OthersDoNotInterfere(w, Next(w, s, l), Next(w, r, own), labels[1..]);
        alone := [own] + rest;
        SameButPicksCons(OwnLabels(labels[1..]), rest, l, own);
        assert alone[1..] == rest;
      }
    }
  }

  // ---- Several exposures at once ----

  /** A temporary name belongs to one file only. */
  lemma TempOwnerUnique(p: Path, q: Path, t: Path)
    requires IsTempFor(p, t) && IsTempFor(q, t)
    ensures p == q
  {
    LastP(p, t);
    LastP(q, t);
    assert |p.base| == |q.base|;
    var a := |p.base|;
    assert t.base[..a + 5][1..a + 1] == p.base && t.base[..a + 5][1..a + 1] == q.base;
  }

  /** The last 'p' of a temporary name ends its pattern: only digits follow it. */
  lemma LastP(p: Path, t: Path)
    requires IsTempFor(p, t)
    ensures t.base[|p.base| + 4] == 'p'
    ensures forall k :: |p.base| + 4 < k < |t.base| ==> t.base[k] != 'p'
  {
    var a := |p.base|;
    assert t.base[..a + 5][a + 4] == 'p';
    forall k | a + 4 < k < |t.base| ensures t.base[k] != 'p' {
      assert t.base[k] == t.base[a + 5..][k - a - 5];
    }
  }

  /** Different exposures own different files, and neither owns a file named like the other's temporaries. */
  ghost predicate Apart(v: World, w: World) {
    && (forall p :: v.Owns(p) ==> !w.Owns(p))
    && (forall p, q :: v.Owns(p) && w.Owns(q) ==> !IsTempFor(p, q) && !IsTempFor(q, p))
  }

  lemma FootprintsDisjoint(v: World, w: World, p: Path)
    requires Apart(v, w) && v.InFootprint(p)
    ensures !w.InFootprint(p)
  {
    if w.InFootprint(p) {
      var a := OwnerOf(v, p);
      var b := OwnerOf(w, p);
      if a != p && b != p {
        TempOwnerUnique(a, b, p);
      }
    }
  }

  /** The owned file that a path of the footprint is, or is a temporary file of. */
  lemma OwnerOf(w: World, p: Path) returns (owner: Path)
    requires w.InFootprint(p)
    ensures w.Owns(owner) && (owner == p || IsTempFor(owner, p))
  {
    if w.Owns(p) {
      owner := p;
    } else if IsTempFor(w.EtagPath(), p) {
      owner := w.EtagPath();
    } else {
      var i :| 0 <= i < |w.Targets()| && IsTempFor(w.Targets()[i].path, p);
      owner := w.Targets()[i].path;
      assert w.IsTargetPath(owner);
    }
  }

  /** A step of one exposure: anything but the death of the process or a foreign change. */
  predicate Own(l: Label) {
    !l.Crash? && !l.PowerLoss? && !l.Foreign?
  }

  /** What happens to the host happens to every exposure. */
  predicate Shared(l: Label) {
    l.Crash? || l.PowerLoss?
  }

  /** The exposures share one disk and one process: `k` takes step `l`, and a crash or a power loss is everybody's. */
  function FleetNext(ws: seq<World>, ss: seq<State>, k: nat, l: Label): seq<State>
    requires |ws| == |ss|
  {
    if Shared(l) then seq(|ss|, j requires 0 <= j < |ss| => Next(ws[j], ss[j], l))
    else if k < |ss| && Own(l) then
      var s' := Next(ws[k], ss[k], l);
      seq(|ss|, j requires 0 <= j < |ss| => if j == k then s' else ss[j].(disk := s'.disk))
    else ss
  }

  function FleetRun(ws: seq<World>, ss: seq<State>, steps: seq<(nat, Label)>): seq<State>
    requires |ws| == |ss|
    decreases |steps|
  {
    if steps == [] then ss else FleetRun(ws, FleetNext(ws, ss, steps[0].0, steps[0].1), steps[1..])
  }

  /** The steps of exposure `j` in an interleaving: its own, and those that are shared. */
  function StepsOf(j: nat, steps: seq<(nat, Label)>): seq<Label> {
    if steps == [] then []
    else if Shared(steps[0].1) || (steps[0].0 == j && Own(steps[0].1)) then [steps[0].1] + StepsOf(j, steps[1..])
    else StepsOf(j, steps[1..])
  }

  ghost predicate Fleet(ws: seq<World>, ss: seq<State>) {
    && |ws| == |ss|
    && (forall j :: 0 <= j < |ws| ==> Sound(ws[j]) && Inv(ws[j], ss[j]))
    && (forall i, j :: 0 <= i < |ws| && 0 <= j < |ws| ==> ws[i].powerLoss == ws[j].powerLoss)
    && (forall i, j :: 0 <= i < |ws| && 0 <= j < |ws| && i != j ==> Apart(ws[i], ws[j]))
    && (forall i, j :: 0 <= i < |ws| && 0 <= j < |ws| ==> ss[i].disk == ss[j].disk)
  }

  /** A step writes only to its own footprint; a flush of a shared directory narrows what a power loss can
      leave elsewhere and changes nothing. */
  lemma StepFrame(w: World, s: State, l: Label, p: Path)
    requires Sound(w) && Inv(w, s) && Own(l) && !w.InFootprint(p)
    ensures Untouched(s.disk, Next(w, s, l).disk, p)
  {
    forall i: nat | i < |w.Targets()| ensures w.Targets()[i].path != p {
      assert w.IsTargetPath(w.Targets()[i].path);
    }
    if l.Call? {
      CallFrame(w, s, l.ok, l.tmp, p);
    }
  }

  /** The path reads the same, and a power loss can leave no more there. */
  predicate Untouched(d: Disk, e: Disk, p: Path) {
    Look(e, p) == Look(d, p) && May(e, p) <= May(d, p)
  }

  lemma CallFrame(w: World, s: State, ok: bool, tmp: Path, p: Path)
    requires w.WellFormed() && PcOk(w, s) && !w.InFootprint(p)
    requires forall i: nat :: i < |w.Targets()| ==> w.Targets()[i].path != p
    ensures Untouched(s.disk, Act(w, s, ok, tmp).disk, p)
  {
    var pc := s.pc;
    if pc.Creating? || pc.Filling? || pc.TagCreating? || pc.TagFilling? {
      WritingFrame(w, s, ok, tmp, p);
    } else if pc.Dropping? || pc.Cleaning? || pc.TagDropping? {
      RemovingFrame(w, s, ok, tmp, p);
    } else if pc.Renaming? || pc.TagRenaming? {
      MovingFrame(w, s, ok, tmp, p);
    }
  }

  lemma WritingFrame(w: World, s: State, ok: bool, tmp: Path, p: Path)
    requires w.WellFormed() && PcOk(w, s) && !w.InFootprint(p)
    requires s.pc.Creating? || s.pc.Filling? || s.pc.TagCreating? || s.pc.TagFilling?
    ensures Untouched(s.disk, Act(w, s, ok, tmp).disk, p)
  {
    TempsAreUnowned(w);
    match s.pc
    case Creating(_, temps) => assert Fresh(s, w.Targets()[|temps|].path, tmp) ==> tmp != p;
    case Filling(_, _, t) => assert t != p;
    case TagCreating(_) => assert Fresh(s, w.EtagPath(), tmp) ==> tmp != p;
    case TagFilling(_, t) => assert t != p;
  }

  lemma RemovingFrame(w: World, s: State, ok: bool, tmp: Path, p: Path)
    requires PcOk(w, s) && !w.InFootprint(p) && (s.pc.Dropping? || s.pc.Cleaning? || s.pc.TagDropping?)
    ensures Untouched(s.disk, Act(w, s, ok, tmp).disk, p)
  {
    match s.pc
    case Dropping(_, t) => assert t != p;
    case Cleaning(temps) => assert temps != [] ==> temps[0] != p;
    case TagDropping(t) => assert t != p;
  }

  lemma MovingFrame(w: World, s: State, ok: bool, tmp: Path, p: Path)
    requires w.WellFormed() && PcOk(w, s) && !w.InFootprint(p) && (s.pc.Renaming? || s.pc.TagRenaming?)
    requires forall i: nat :: i < |w.Targets()| ==> w.Targets()[i].path != p
    ensures Untouched(s.disk, Act(w, s, ok, tmp).disk, p)
  {
    TempsAreUnowned(w);
    match s.pc
    case Renaming(_, temps, i) => assert temps[i] != p;
    case TagRenaming(_, t) => assert t != p;
  }

  /** Seen from another exposure, a step is a foreign change. */
  lemma StepIsForeign(v: World, w: World, s: State, r: State, l: Label)
    requires Sound(v) && Inv(v, s) && Apart(v, w) && Own(l) && r.disk == s.disk
    ensures Next(w, r, Foreign(Next(v, s, l).disk)) == r.(disk := Next(v, s, l).disk)
  {
    forall p | w.InFootprint(p)
      ensures Look(Next(v, s, l).disk, p) == Look(s.disk, p) && May(Next(v, s, l).disk, p) <= May(s.disk, p)
    {
      if v.InFootprint(p) {
        FootprintsDisjoint(v, w, p);
      } else {
        StepFrame(v, s, l, p);
      }
    }
  }

  lemma FleetStep(ws: seq<World>, ss: seq<State>, k: nat, l: Label)
    requires Fleet(ws, ss)
    ensures Fleet(ws, FleetNext(ws, ss, k, l))
  {
    forall j | 0 <= j < |ss| ensures Inv(ws[j], FleetNext(ws, ss, k, l)[j]) {
      FleetInv(ws, ss, k, l, j);
    }
    forall i, j | 0 <= i < |ws| && 0 <= j < |ws|
      ensures FleetNext(ws, ss, k, l)[i].disk == FleetNext(ws, ss, k, l)[j].disk
    {
      OneDisk(ws, ss, k, l, i, j);
    }
  }

  lemma FleetInv(ws: seq<World>, ss: seq<State>, k: nat, l: Label, j: nat)
    requires Fleet(ws, ss) && j < |ss|
    ensures Inv(ws[j], FleetNext(ws, ss, k, l)[j])
  {
    if Shared(l) || (j == k && Own(l)) {
      StepKeepsInv(ws[j], ss[j], l);
    } else if k < |ss| && Own(l) {
      SeenAsForeign(ws, ss, k, l, j);
      StepKeepsInv(ws[j], ss[j], Foreign(Next(ws[k], ss[k], l).disk));
    }
  }

  lemma OneDisk(ws: seq<World>, ss: seq<State>, k: nat, l: Label, i: nat, j: nat)
    requires |ws| == |ss| && i < |ss| && j < |ss| && ws[i].powerLoss == ws[j].powerLoss && ss[i].disk == ss[j].disk
    ensures FleetNext(ws, ss, k, l)[i].disk == FleetNext(ws, ss, k, l)[j].disk
  {
  }

  /** To the others, a step of exposure `k` is a foreign change. */
  lemma SeenAsForeign(ws: seq<World>, ss: seq<State>, k: nat, l: Label, j: nat)
    requires Fleet(ws, ss) && k < |ss| && j < |ss| && j != k && Own(l)
    ensures FleetNext(ws, ss, k, l)[j] == Next(ws[j], ss[j], Foreign(Next(ws[k], ss[k], l).disk))
  {
    StepIsForeign(ws[k], ws[j], ss[k], ss[j], l);
  }

  /** Concurrency is harmless: in every interleaving of any number of exposures, with any number of crashes of the
      process they share and of power losses, each of them runs as one exposure of SyncProtocol does, and ends as if it
      had taken its own steps alone. */
  lemma {:induction false} InterleavingIsHarmless(ws: seq<World>, ss: seq<State>, r: State, steps: seq<(nat, Label)>,
      j: nat)
    returns (alone: seq<Label>)
    requires Fleet(ws, ss) && j < |ws| && Agree(ws[j], ss[j], r)
    ensures |FleetRun(ws, ss, steps)| == |ws| && Fleet(ws, FleetRun(ws, ss, steps))
    ensures SameButPicks(StepsOf(j, steps), alone)
    ensures Agree(ws[j], FleetRun(ws, ss, steps)[j], Run(ws[j], r, alone))
    decreases |steps|
  {
    if steps == [] {
      alone := [];
    } else {
      var (k, l) := steps[0];
      var ss' := FleetNext(ws, ss, k, l);
      FleetStep(ws, ss, k, l);
      if Shared(l) || (k == j && Own(l)) {
        var own := StepAlone(ws[j], ss[j], r, l);
        var rest := InterleavingIsHarmless(ws, ss', Next(ws[j], r, own), steps[1..], j);
        alone := [own] + rest;
        SameButPicksCons(StepsOf(j, steps[1..]), rest, l, own);
        assert alone[1..] == rest;
      } else {
        if k < |ss| && Own(l) {
          SeenAsForeign(ws, ss, k, l, j);
          ForeignIsInvisible(ws[j], ss[j], r, Next(ws[k], ss[k], l).disk);
        }
        alone := InterleavingIsHarmless(ws, ss', r, steps[1..], j);
      }
    }
  }
}
