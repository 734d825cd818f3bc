/** Every Sync returns, and one that nothing disturbs repairs whatever state it finds. */
module SyncRecovery {
  import opened Text
  import opened Disk
  import opened SyncProtocol
  import opened SyncInvariant
  import opened SyncSteps
  import opened SyncTheorems
  import ETags

  // ---- Every Sync returns ----

  /** A bound on the calls until the Sync at `pc` returns. */
  function Remaining(w: World, pc: Pc): int {
    var t, d := |w.Targets()|, |Dirs(w.Targets())|;
    match pc
    case Idle => 0
    case Stat(i) => 5 * t + d + 20 - i
    case ReadTag => 4 * t + d + 19
    case Fetching(_) => 4 * t + d + 18
    case Creating(_, temps) => 2 * t + d + 12 + 2 * (t - |temps|)
    case Filling(_, temps, _) => 2 * t + d + 11 + 2 * (t - |temps|)
    case Dropping(temps, _) => |temps| + 2
    case Cleaning(temps) => |temps| + 1
    case Renaming(_, _, i) => t + d + 10 + t - i
    case Flushing(_, dirs) => |dirs| + 8
    case Stamping(_) => 7
    case Commanding(_) => 6
    case TagCreating(_) => 5
    case TagFilling(_, _) => 4
    case TagRenaming(_, _) => 3
    case TagDropping(_) => 2
  }

  /** Every call of a Sync, successful or not, brings its return nearer. */
  lemma CallsRunOut(w: World, s: State, ok: bool, tmp: Path)
    requires w.WellFormed() && PcOk(w, s) && !s.pc.Idle?
    ensures 0 <= Remaining(w, Act(w, s, ok, tmp).pc) < Remaining(w, s.pc)
  {
    InRange(w, s);
    StagingRunsOut(w, s, ok, tmp);
    FinishingRunsOut(w, s, ok, tmp);
    LookingRunsOut(w, s, ok, tmp);
  }

  /** Counters of the program stay within the list of targets. */
  predicate Within(w: World, pc: Pc) {
    match pc
    case Stat(i) => i < |w.Targets()|
    case Creating(_, temps) => |temps| < |w.Targets()|
    case Filling(_, temps, _) => |temps| < |w.Targets()|
    case Renaming(_, temps, i) => i < |w.Targets()| == |temps|
    case _ => true
  }

  lemma InRange(w: World, s: State)
    requires PcOk(w, s)
    ensures Within(w, s.pc)
  {
  }

  predicate Looking(pc: Pc) {
    pc.Idle? || pc.Stat? || pc.ReadTag? || pc.Fetching?
  }

  lemma LookingRunsOut(w: World, s: State, ok: bool, tmp: Path)
    requires |w.Targets()| > 0 && Within(w, s.pc)
    ensures Looking(s.pc) && !s.pc.Idle? ==> 0 <= Remaining(w, Act(w, s, ok, tmp).pc) < Remaining(w, s.pc)
  {
  }

  predicate Staging(pc: Pc) {
    pc.Creating? || pc.Filling? || pc.Renaming?
  }

  lemma StagingRunsOut(w: World, s: State, ok: bool, tmp: Path)
    requires |w.Targets()| > 0 && Within(w, s.pc)
    ensures Staging(s.pc) ==> 0 <= Remaining(w, Act(w, s, ok, tmp).pc) < Remaining(w, s.pc)
  {
    match s.pc
    case Creating(_, temps) =>
    case Filling(_, temps, _) =>
    case Renaming(_, temps, i) =>
    case _ =>
  }

  lemma FinishingRunsOut(w: World, s: State, ok: bool, tmp: Path)
    requires |w.Targets()| > 0
    ensures !Looking(s.pc) && !Staging(s.pc) ==> 0 <= Remaining(w, Act(w, s, ok, tmp).pc) < Remaining(w, s.pc)
  {
    match s.pc
    case Cleaning(temps) =>
    case _ =>
  }

  /** The calls of the agent among the steps. */
  function Calls(labels: seq<Label>): nat {
    if labels == [] then 0 else (if labels[0].Call? then 1 else 0) + Calls(labels[1..])
  }

  /** Some prefix of the labels ends with the Sync returned. */
  ghost predicate Returns(w: World, s: State, labels: seq<Label>) {
    exists n: nat :: n <= |labels| && Run(w, s, labels[..n]).pc.Idle?
  }

  /** Whatever its calls return and whatever happens between them, a Sync has returned, or died with the process, after
      as many of them as `Remaining` says. */
  lemma {:induction false} SyncReturns(w: World, s: State, labels: seq<Label>)
    requires Sound(w) && Inv(w, s) && Calls(labels) >= Remaining(w, s.pc)
    ensures Returns(w, s, labels)
    decreases |labels|
  {
    if s.pc.Idle? {
      assert labels[..0] == [];
      assert Run(w, s, labels[..0]).pc.Idle?;
    } else {
      var l := labels[0];
      var s' := Next(w, s, l);
      Nearer(w, s, l);
      StepKeepsInv(w, s, l);
      SyncReturns(w, s', labels[1..]);
      var n: nat :| n <= |labels[1..]| && Run(w, s', labels[1..][..n]).pc.Idle?;
      assert labels[..n + 1][1..] == labels[1..][..n];
      assert Run(w, s, labels[..n + 1]).pc.Idle?;
    }
  }

  /** A call brings the return nearer, and nothing else puts it off. */
  lemma Nearer(w: World, s: State, l: Label)
    requires Sound(w) && Inv(w, s) && !s.pc.Idle?
    ensures Remaining(w, s.pc) > 0
    ensures Remaining(w, Next(w, s, l).pc) <= Remaining(w, s.pc) - if l.Call? then 1 else 0
  {
    NotYetReturned(w, s);
    if l.Call? {
      CallsRunOut(w, s, l.ok, l.tmp);
    }
  }

  lemma NotYetReturned(w: World, s: State)
    requires w.WellFormed() && PcOk(w, s) && !s.pc.Idle?
    ensures Remaining(w, s.pc) > 0
  {
    CallsRunOut(w, s, false, Path("", ""));
  }

  // ---- Names for temporary files ----

  function Zeros(n: nat): (r: string)
    ensures |r| == n && AllDigits(r)
  {
    seq(n, i => '0')
  }

  /** The length of the longest name on the disk. */
  ghost function Longest(d: Disk): (n: nat)
    ensures forall p :: p in d ==> |p.base| <= n
  {
    if d == map[] then 0
    else
      var p :| p in d;
      var rest := d - {p};
      assert forall q :: q in d ==> q == p || q in rest;
      var n := Longest(rest);
      if |p.base| > n then |p.base| else n
  }

  /** There is always an unused name of the pattern of os.CreateTemp. */
  lemma FreshName(s: State, p: Path) returns (t: Path)
    ensures Fresh(s, p, t)
  {
    var pattern, digits := "." + p.base + ".tmp", Zeros(Longest(s.disk) + 1);
    t := Path(p.dir, pattern + digits);
    assert t.base[..|pattern|] == pattern && t.base[|pattern|..] == digits;
    assert t !in s.disk;
  }

  // ---- A Sync that nothing disturbs ----

  /** The next call succeeds, with an unused name where it needs one. */
  predicate Succeeds(w: World, s: State, l: Label) {
    l.Call? && l.ok && match s.pc
      case Creating(_, temps) => |temps| < |w.Targets()| && Fresh(s, w.Targets()[|temps|].path, l.tmp)
      case TagCreating(_) => Fresh(s, w.EtagPath(), l.tmp)
      case _ => true
  }

  /** All calls succeed, nothing else happens, and the Sync returns with the last one. */
  predicate Smooth(w: World, s: State, labels: seq<Label>)
    decreases |labels|
  {
    labels != [] && Succeeds(w, s, labels[0]) &&
    var s' := Next(w, s, labels[0]);
    if s'.pc.Idle? then |labels| == 1 else Smooth(w, s', labels[1..])
  }

  /** The next call can succeed. */
  lemma CanSucceed(w: World, s: State) returns (l: Label)
    requires Sound(w) && Inv(w, s)
    ensures Succeeds(w, s, l)
  {
    var t := Path("", "");
    match s.pc {
      case Creating(_, temps) => t := FreshName(s, w.Targets()[|temps|].path);
      case TagCreating(_) => t := FreshName(s, w.EtagPath());
      case _ =>
    }
    l := Call(true, t);
  }

  /** Such a Sync can always be completed, from any point of it. */
  lemma {:induction false} SmoothExists(w: World, s: State) returns (labels: seq<Label>)
    requires Sound(w) && Inv(w, s)
    ensures Smooth(w, s, labels)
    decreases s.pc.Idle?, Remaining(w, s.pc)
  {
    var l := CanSucceed(w, s);
    var s' := Next(w, s, l);
    StepKeepsInv(w, s, l);
    if s'.pc.Idle? {
      labels := [l];
    } else {
      if !s.pc.Idle? { CallsRunOut(w, s, true, l.tmp); }
      var rest := SmoothExists(w, s');
      labels := [l] + rest;
      assert labels[1..] == rest;
    }
  }

  /** What has been achieved at each point of an undisturbed Sync that started in `o`. */
  ghost predicate OnCourse(w: World, o: State, s: State) {
    && s.now == o.now && (!s.pc.Idle? ==> s.counts == o.counts)
    && match s.pc
       case Stat(i) => s.disk == o.disk && forall k: nat :: k < i && k < |w.Targets()| ==> Intact(w, s.disk, k)
       case ReadTag => s.disk == o.disk && forall k: nat :: k < |w.Targets()| ==> Intact(w, s.disk, k)
       case Fetching(etag) => s.disk == o.disk && etag == CurrentETag(w, o.disk)
       case Creating(v, _) => v == o.now && w.Installable(v)
       case Filling(v, _, _) => v == o.now && w.Installable(v)
       case Renaming(v, _, i) => v == o.now && CopiesOf(w, s.disk, v, i)
       case Flushing(v, _) => v == o.now && CopiesOf(w, s.disk, v, |w.Targets()|)
       case Stamping(v) => v == o.now && CopiesOf(w, s.disk, v, |w.Targets()|)
       case Commanding(v) => v == o.now && CopiesOf(w, s.disk, v, |w.Targets()|)
       case TagCreating(v) => v == o.now && CopiesOf(w, s.disk, v, |w.Targets()|)
       case TagFilling(v, _) => v == o.now && CopiesOf(w, s.disk, v, |w.Targets()|)
       case TagRenaming(v, _) => v == o.now && CopiesOf(w, s.disk, v, |w.Targets()|)
       case Idle => Arrived(w, o, s)
       case _ => false
  }

  ghost predicate CopiesOf(w: World, d: Disk, v: nat, n: nat) {
    w.Installable(v) && forall k: nat :: k < n && k < |w.Targets()| ==>
      Look(d, w.Targets()[k].path) == Some(w.Copy(v, k))
  }

  /** The end: everything served is installed and its tag stored, or the refusal is reported and nothing touched. */
  ghost predicate Arrived(w: World, o: State, s: State) {
    if w.Installable(o.now) then Trusted(w, s) && s.counts.errors == o.counts.errors
    else s.disk == o.disk && s.counts == Observe(o.counts, false, true)
  }

  /** Setting a path that is no target leaves the copies. */
  lemma CopiesKept(w: World, d: Disk, e: Disk, v: nat, n: nat)
    requires CopiesOf(w, d, v, n)
    requires forall k: nat :: k < |w.Targets()| ==> Look(e, w.Targets()[k].path) == Look(d, w.Targets()[k].path)
    ensures CopiesOf(w, e, v, n)
  {
  }

  lemma LookingOn(w: World, o: State, s: State, l: Label)
    requires Sound(w) && GoodReplies(w) && Inv(w, s) && OnCourse(w, o, s) && Succeeds(w, s, l)
    requires s.pc.Stat? || s.pc.ReadTag? || s.pc.Fetching?
    ensures OnCourse(w, o, Next(w, s, l))
  {
    if s.pc.Fetching? {
      FetchingOn(w, o, s, l);
    }
  }

  lemma FetchingOn(w: World, o: State, s: State, l: Label)
    requires Sound(w) && GoodReplies(w) && Inv(w, s) && OnCourse(w, o, s) && Succeeds(w, s, l) && s.pc.Fetching?
    ensures OnCourse(w, o, Next(w, s, l))
  {
    var etag := s.pc.etag;
    if etag != "" && s.now < |w.replies| && w.replies[s.now].Snapshot? &&
       ETags.WeakMatch([etag], w.replies[s.now].tag)
    {
      var g := StoredTag(w, s);
      ETags.SingleTagMatch(w.replies[g.ver].tag, w.replies[s.now].tag);
      assert SameTag(w, g.ver, s.now);
      assert w.Installable(s.now);
      assert Trusted(w, Next(w, s, l));
    }
  }

  lemma StagingOn(w: World, o: State, s: State, l: Label)
    requires Sound(w) && PcOk(w, s) && OnCourse(w, o, s) && Succeeds(w, s, l) && (s.pc.Creating? || s.pc.Filling?)
    ensures OnCourse(w, o, Next(w, s, l))
  {
  }

  lemma RenamingOn(w: World, o: State, s: State, l: Label)
    requires Sound(w) && PcOk(w, s) && OnCourse(w, o, s) && Succeeds(w, s, l) && s.pc.Renaming?
    ensures OnCourse(w, o, Next(w, s, l))
  {
    var Renaming(v, temps, i) := s.pc;
    var T, s' := w.Targets(), Next(w, s, l);
    TempsAreUnowned(w);
    assert w.IsTargetPath(T[i].path) && temps[i] != T[i].path;
    LookAfterRename(s.disk, temps[i], T[i].path, T[i].path);
    forall k: nat | k < i ensures Look(s'.disk, T[k].path) == Look(s.disk, T[k].path) {
      assert w.IsTargetPath(T[k].path) && T[k].path != T[i].path;
      OwnedUntouched(w, s, l.ok, l.tmp, T[k].path);
    }
    MoreCopies(w, s.disk, s'.disk, v, i);
  }

  lemma MoreCopies(w: World, d: Disk, e: Disk, v: nat, i: nat)
    requires CopiesOf(w, d, v, i) && i < |w.Targets()| && Look(e, w.Targets()[i].path) == Some(w.Copy(v, i))
    requires forall k: nat :: k < i ==> Look(e, w.Targets()[k].path) == Look(d, w.Targets()[k].path)
    ensures CopiesOf(w, e, v, i + 1)
  {
  }

  lemma FinishingOn(w: World, o: State, s: State, l: Label)
    requires Sound(w) && PcOk(w, s) && OnCourse(w, o, s) && Succeeds(w, s, l)
    requires s.pc.Flushing? || s.pc.Stamping? || s.pc.Commanding? || s.pc.TagCreating? || s.pc.TagFilling?
    ensures OnCourse(w, o, Next(w, s, l))
  {
    var s' := Next(w, s, l);
    TempsAreUnowned(w);
    forall k: nat | k < |w.Targets()| ensures Look(s'.disk, w.Targets()[k].path) == Look(s.disk, w.Targets()[k].path) {
      assert w.IsTargetPath(w.Targets()[k].path);
    }
    CopiesKept(w, s.disk, s'.disk, s.pc.ver, |w.Targets()|);
  }

  lemma CommittingOn(w: World, o: State, s: State, l: Label)
    requires Sound(w) && GoodReplies(w) && PcOk(w, s) && OnCourse(w, o, s) && Succeeds(w, s, l) && s.pc.TagRenaming?
    ensures OnCourse(w, o, Next(w, s, l))
  {
    var s', tag := Next(w, s, l), w.replies[s.pc.ver].tag;
    TempsAreUnowned(w);
    forall k: nat | k < |w.Targets()| ensures Intact(w, s'.disk, k) {
      assert w.IsTargetPath(w.Targets()[k].path);
      assert Look(s.disk, w.Targets()[k].path) == Some(w.Copy(s.pc.ver, k));
    }
    TrimOfTrimmed(tag);
    ETags.SingleTagMatch(tag, tag);
    assert CurrentETag(w, s'.disk) == tag;
  }

  lemma StepOn(w: World, o: State, s: State, l: Label)
    requires Sound(w) && GoodReplies(w) && Inv(w, s) && OnCourse(w, o, s) && Succeeds(w, s, l) && !s.pc.Idle?
    ensures OnCourse(w, o, Next(w, s, l))
  {
    var pc := s.pc;
    if pc.Stat? || pc.ReadTag? || pc.Fetching? {
      LookingOn(w, o, s, l);
    } else if pc.Creating? || pc.Filling? {
      StagingOn(w, o, s, l);
    } else if pc.Renaming? {
      RenamingOn(w, o, s, l);
    } else if pc.TagRenaming? {
      CommittingOn(w, o, s, l);
    } else {
      FinishingOn(w, o, s, l);
    }
  }

  lemma {:induction false} SmoothArrives(w: World, o: State, s: State, labels: seq<Label>)
    requires Sound(w) && GoodReplies(w) && Inv(w, s) && OnCourse(w, o, s) && !s.pc.Idle? && Smooth(w, s, labels)
    ensures Run(w, s, labels).pc.Idle? && Arrived(w, o, Run(w, s, labels)) && Run(w, s, labels).now == o.now
    decreases |labels|
  {
    var s' := Next(w, s, labels[0]);
    StepOn(w, o, s, labels[0]);
    StepKeepsInv(w, s, labels[0]);
    if s'.pc.Idle? {
      assert labels[1..] == [];
    } else {
      SmoothArrives(w, o, s', labels[1..]);
    }
  }

  /** Recovery. Whatever crashes, failures, deletions and power losses led to a state, one Sync whose calls succeed and
      that nothing disturbs ends up to date with what the gateway serves, or reports the gateway's refusal and touches
      nothing. */
  lemma OneGoodSyncRecovers(w: World, labels: seq<Label>, sync: seq<Label>)
    requires Sound(w) && GoodReplies(w) && NoRelapse(w)
    requires Run(w, Init(w), labels).pc.Idle? && Smooth(w, Run(w, Init(w), labels), sync)
    ensures var s := Run(w, Init(w), labels); var r := Run(w, s, sync);
      && r.pc.Idle? && r.now == s.now
      && if w.Installable(s.now) then Trusted(w, r) && UpToDate(w, r) && r.counts.errors == s.counts.errors
         else r.disk == s.disk && r.counts == Observe(s.counts, false, true)
  {
    InitOk(w);
    RunKeepsInv(w, Init(w), labels);
    var s := Run(w, Init(w), labels);
    var s1 := Next(w, s, sync[0]);
    StepKeepsInv(w, s, sync[0]);
    assert s1 == s.(pc := Stat(0));
    SmoothArrives(w, s, s1, sync[1..]);
    RunConcat(w, Init(w), labels, sync);
    CommitTheorem(w, labels + sync);
  }

  // ---- Whether it reruns the change command ----

  /** The tag that would be sent from `o` is not the one being served. */
  predicate OtherTag(w: World, o: State) {
    o.now < |w.replies| && w.replies[o.now].Snapshot? && CurrentETag(w, o.disk) != w.replies[o.now].tag
  }

  /** How often the command has succeeded so far in an undisturbed Sync from `o`. */
  predicate RunsSoFar(w: World, o: State, s: State) {
    match s.pc
    case Stat(_) => s.runs == o.runs
    case ReadTag => s.runs == o.runs
    case Fetching(_) => s.runs == o.runs
    case Idle => s.runs == o.runs + if w.Installable(o.now) && OtherTag(w, o) then 1 else 0
    case _ => OtherTag(w, o) && s.runs == o.runs + if Commanded(s.pc) then 1 else 0
  }

  lemma FetchDecides(w: World, o: State, s: State, l: Label)
    requires Sound(w) && GoodReplies(w) && Inv(w, s) && OnCourse(w, o, s) && RunsSoFar(w, o, s) && Succeeds(w, s, l)
    requires s.pc.Fetching?
    ensures RunsSoFar(w, o, Next(w, s, l))
  {
    if s.now < |w.replies| && w.replies[s.now].Snapshot? && s.pc.etag != "" {
      var g := StoredTag(w, s);
      ETags.SingleTagMatch(w.replies[g.ver].tag, w.replies[s.now].tag);
    }
  }

  lemma InstallingRuns(w: World, o: State, s: State, l: Label)
    requires w.WellFormed() && PcOk(w, s) && OnCourse(w, o, s) && RunsSoFar(w, o, s) && Succeeds(w, s, l)
    requires s.pc.Creating? || s.pc.Filling? || s.pc.Renaming?
    ensures RunsSoFar(w, o, Next(w, s, l))
  {
  }

  lemma FinishingRuns(w: World, o: State, s: State, l: Label)
    requires PcOk(w, s) && OnCourse(w, o, s) && RunsSoFar(w, o, s) && Succeeds(w, s, l) && |w.exposure.command| > 0
    requires s.pc.Flushing? || s.pc.Stamping? || s.pc.Commanding? || Commanded(s.pc)
    ensures RunsSoFar(w, o, Next(w, s, l))
  {
  }

  lemma StepRuns(w: World, o: State, s: State, l: Label)
    requires Sound(w) && GoodReplies(w) && Inv(w, s) && |w.exposure.command| > 0
    requires OnCourse(w, o, s) && RunsSoFar(w, o, s) && Succeeds(w, s, l) && !s.pc.Idle?
    ensures RunsSoFar(w, o, Next(w, s, l))
  {
    var pc := s.pc;
    if pc.Fetching? {
      FetchDecides(w, o, s, l);
    } else if pc.Creating? || pc.Filling? || pc.Renaming? {
      InstallingRuns(w, o, s, l);
    } else if pc.Flushing? || pc.Stamping? || pc.Commanding? || Commanded(pc) {
      FinishingRuns(w, o, s, l);
    }
  }

  lemma {:induction false} SmoothRuns(w: World, o: State, s: State, labels: seq<Label>)
    requires Sound(w) && GoodReplies(w) && Inv(w, s) && |w.exposure.command| > 0
    requires OnCourse(w, o, s) && RunsSoFar(w, o, s) && !s.pc.Idle? && Smooth(w, s, labels)
    ensures Run(w, s, labels).pc.Idle? && RunsSoFar(w, o, Run(w, s, labels))
    decreases |labels|
  {
    var s' := Next(w, s, labels[0]);
    StepOn(w, o, s, labels[0]);
    StepRuns(w, o, s, labels[0]);
    StepKeepsInv(w, s, labels[0]);
    if s'.pc.Idle? {
      assert labels[1..] == [];
    } else {
      SmoothRuns(w, o, s', labels[1..]);
    }
  }

  /** Exactly when the next Sync runs the change command (again), whatever became of it before: an undisturbed Sync of
      an installable reply runs it once if the tag that the disk offers is not the one being served, and not at all
      otherwise. So a failed command is retried unless the tag it failed for is stored, with every target in place. */
  lemma RerunIff(w: World, labels: seq<Label>, sync: seq<Label>)
    requires Sound(w) && GoodReplies(w) && |w.exposure.command| > 0
    requires var s := Run(w, Init(w), labels); s.pc.Idle? && w.Installable(s.now) && Smooth(w, s, sync)
    ensures var s := Run(w, Init(w), labels);
      Run(w, s, sync).runs == s.runs + if CurrentETag(w, s.disk) != w.replies[s.now].tag then 1 else 0
  {
    InitOk(w);
    RunKeepsInv(w, Init(w), labels);
    var s := Run(w, Init(w), labels);
    StepKeepsInv(w, s, sync[0]);
    assert Next(w, s, sync[0]) == s.(pc := Stat(0));
    SmoothRuns(w, s, Next(w, s, sync[0]), sync[1..]);
  }
}
