/** What the synchronization protocol guarantees over every run. */
module SyncTheorems {
  import opened Text
  import opened Disk
  import opened SyncProtocol
  import opened SyncInvariant
  import opened SyncSteps
  import opened SyncPresence
  import opened SyncPowerLoss
  import ETags

  /** What the gateway guarantees of its tags: their shape, and that a tag determines the snapshot. */
  ghost predicate GoodReplies(w: World) {
    && (forall v: nat :: v < |w.replies| && w.replies[v].Snapshot? ==> ETags.TagLike(w.replies[v].tag))
    && (forall u: nat, v: nat :: SameTag(w, u, v) ==> w.replies[u] == w.replies[v])
  }

  predicate SameTag(w: World, u: nat, v: nat) {
    u < |w.replies| && v < |w.replies| && w.replies[u].Snapshot? && w.replies[v].Snapshot? &&
    w.replies[u].tag == w.replies[v].tag
  }

  /** Reply `j`, served between two replies with one tag, carries the same target values as they do. */
  ghost predicate SameBetween(w: World, i: nat, j: nat, k: nat) {
    i <= j <= k && w.Installable(i) && w.Installable(j) && SameTag(w, i, k) ==>
      forall t: nat :: t < |w.Targets()| ==> w.Value(i, t) == w.Value(j, t)
  }

  /** The gateway never returns to a tag after serving other target values in between. */
  ghost predicate NoRelapse(w: World) {
    forall i: nat, j: nat, k: nat :: SameBetween(w, i, j, k)
  }

  /** A poll made now would be answered 304: the agent would leave everything as it is. */
  ghost predicate Trusted(w: World, s: State) {
    && s.now < |w.replies| && w.replies[s.now].Snapshot?
    && CurrentETag(w, s.disk) != "" && ETags.WeakMatch([CurrentETag(w, s.disk)], w.replies[s.now].tag)
  }

  /** Target `i` is there, and its permission bits are those configured. */
  predicate HasMode(w: World, d: Disk, i: nat)
    requires i < |w.Targets()|
  {
    var f := Look(d, w.Targets()[i].path);
    f.Some? && f.value.mode % 512 == w.Targets()[i].mode
  }

  /** Every target is present, with its mode and the value being served; nothing the consumer loaded is
      stale; and the change command, if there is one, has succeeded on the tag being served. */
  ghost predicate UpToDate(w: World, s: State) {
    && w.Installable(s.now)
    && (forall i: nat :: i < |w.Targets()| ==>
          HasMode(w, s.disk, i) && Look(s.disk, w.Targets()[i].path).value.content == w.Value(s.now, i))
    && (|w.exposure.command| > 0 ==>
          && |s.loaded| == |w.Targets()|
          && (forall i: nat :: i < |w.Targets()| && s.loaded[i].Some? ==>
                s.loaded[i].value.content == w.Value(s.now, i))
          && exists v :: v in s.reloads && w.Installable(v) && w.replies[v].tag == w.replies[s.now].tag)
  }

  /** The stored tag is the tag of a known reply, and currentETag returns exactly that tag. */
  lemma StoredTag(w: World, s: State) returns (g: File)
    requires Inv(w, s) && GoodReplies(w) && CurrentETag(w, s.disk) != ""
    ensures Look(s.disk, w.EtagPath()) == Some(g) && TagMay(w, s.disk, g) && TagFile(w, s.now, g)
    ensures CurrentETag(w, s.disk) == w.replies[g.ver].tag && ETags.TagLike(w.replies[g.ver].tag)
  {
    g := Look(s.disk, w.EtagPath()).value;
    assert TagMay(w, s.disk, g);
    TrimOfTrimmed(w.replies[g.ver].tag);
  }

  lemma TrustedIsUpToDate(w: World, s: State)
    requires Inv(w, s) && GoodReplies(w) && NoRelapse(w) && Trusted(w, s)
    ensures UpToDate(w, s)
  {
    var g := StoredTag(w, s);
    ETags.SingleTagMatch(w.replies[g.ver].tag, w.replies[s.now].tag);
    assert SameTag(w, g.ver, s.now);
    forall i: nat | i < |w.Targets()|
      ensures HasMode(w, s.disk, i) && Look(s.disk, w.Targets()[i].path).value.content == w.Value(s.now, i)
    {
      assert Intact(w, s.disk, i);
      var f := Look(s.disk, w.Targets()[i].path).value;
      assert TargetMay(w, s.disk, i, f);
      assert SameBetween(w, g.ver, f.ver, s.now);
    }
    if |w.exposure.command| > 0 {
      forall i: nat | i < |w.Targets()| && s.loaded[i].Some?
        ensures s.loaded[i].value.content == w.Value(s.now, i)
      {
        assert SameBetween(w, g.ver, s.loaded[i].value.ver, s.now);
      }
      assert g.ver in s.reloads;
    }
  }

  /** The commit theorem. Over every run, with crashes and failing calls anywhere, rotations, deleted and
      chmod-ed targets and other exposures at work, a tag that would earn a 304 stands for files that are
      complete and current and for a consumer that has loaded them. */
  lemma CommitTheorem(w: World, labels: seq<Label>)
    requires Sound(w) && GoodReplies(w) && NoRelapse(w)
    ensures var s := Run(w, Init(w), labels); Trusted(w, s) ==> UpToDate(w, s)
  {
    InitOk(w);
    RunKeepsInv(w, Init(w), labels);
    var s := Run(w, Init(w), labels);
    if Trusted(w, s) {
      TrustedIsUpToDate(w, s);
    }
  }

  /** The same at the step that matters: a Sync that is told "not modified" leaves no stale target. */
  lemma NotModifiedMeansCurrent(w: World, labels: seq<Label>, tmp: Path)
    requires Sound(w) && GoodReplies(w) && NoRelapse(w)
    ensures var s := Run(w, Init(w), labels); var s' := Next(w, s, Call(true, tmp));
      s.pc.Fetching? && s'.counts.same > s.counts.same ==>
        w.Installable(s.now) &&
        forall i: nat :: i < |w.Targets()| && Look(s.disk, w.Targets()[i].path).Some? ==>
          Look(s.disk, w.Targets()[i].path).value.content == w.Value(s.now, i)
  {
    InitOk(w);
    RunKeepsInv(w, Init(w), labels);
    var s := Run(w, Init(w), labels);
    var s' := Next(w, s, Call(true, tmp));
    if s.pc.Fetching? && s'.counts.same > s.counts.same {
      var g := Look(s.disk, w.EtagPath()).value;
      assert TagMay(w, s.disk, g);
      TrimOfTrimmed(w.replies[g.ver].tag);
      ETags.SingleTagMatch(w.replies[g.ver].tag, w.replies[s.now].tag);
      assert SameTag(w, g.ver, s.now);
      forall i: nat | i < |w.Targets()| && Look(s.disk, w.Targets()[i].path).Some?
        ensures Look(s.disk, w.Targets()[i].path).value.content == w.Value(s.now, i)
      {
        var f := Look(s.disk, w.Targets()[i].path).value;
        assert TargetMay(w, s.disk, i, f);
        assert SameBetween(w, g.ver, f.ver, s.now);
      }
    }
  }

  /** A Sync that commits leaves the targets holding one and the same reply. Whatever is there is of that reply, and a
      target is missing only if it was deleted after this Sync renamed it. */
  lemma CommitInstallsOneSnapshot(w: World, labels: seq<Label>, l: Label)
    requires Sound(w)
    ensures var s := Run(w, Init(w), labels); var s' := Next(w, s, l);
      s'.commits > s.commits ==>
        && s.pc.TagRenaming? && s.pc.ver <= s.now && w.Installable(s.pc.ver)
        && Look(s'.disk, w.EtagPath()) == Some(File(w.replies[s.pc.ver].tag + "\n", 0x180, s.pc.ver))
        && (forall i: nat :: i < |w.Targets()| && Look(s'.disk, w.Targets()[i].path).Some? ==>
             Look(s'.disk, w.Targets()[i].path).value.content == w.Value(s.pc.ver, i))
        && (forall i: nat, k: nat :: i < |w.Targets()| && k <= |labels| && Undisturbed(w, labels, k, i) ==>
             Look(s'.disk, w.Targets()[i].path).Some?)
  {
    InitOk(w);
    RunKeepsInv(w, Init(w), labels);
    var s := Run(w, Init(w), labels);
    var s' := Next(w, s, l);
    if s'.commits > s.commits {
      CommitsTheTag(w, s, l);
      forall i: nat, k: nat | i < |w.Targets()| && k <= |labels| && Undisturbed(w, labels, k, i)
        ensures Look(s'.disk, w.Targets()[i].path).Some?
      {
        StillThere(w, labels, l, k, i);
      }
      forall i: nat | i < |w.Targets()| && Look(s'.disk, w.Targets()[i].path).Some?
        ensures Look(s'.disk, w.Targets()[i].path).value.content == w.Value(s.pc.ver, i)
      {
        CommittedContent(w, s, l, i);
      }
    }
  }

  lemma CommitsTheTag(w: World, s: State, l: Label)
    requires w.WellFormed() && PcOk(w, s) && Next(w, s, l).commits > s.commits
    ensures l.Call? && s.pc.TagRenaming? && s.pc.ver <= s.now && w.Installable(s.pc.ver)
    ensures Look(Next(w, s, l).disk, w.EtagPath()) == Some(File(w.replies[s.pc.ver].tag + "\n", 0x180, s.pc.ver))
  {
    CommitsFromTag(w, s, l);
  }

  lemma CommittedContent(w: World, s: State, l: Label, i: nat)
    requires w.WellFormed() && Inv(w, s) && s.pc.TagRenaming? && l.Call? && i < |w.Targets()|
    ensures var x := Look(Next(w, s, l).disk, w.Targets()[i].path);
      w.Installable(s.pc.ver) && (x.Some? ==> x.value.content == w.Value(s.pc.ver, i))
  {
    var p := w.Targets()[i].path;
    assert w.IsTargetPath(p);
    OwnedUntouched(w, s, l.ok, l.tmp, p);
    if Look(s.disk, p).Some? {
      assert TargetMay(w, s.disk, i, Look(s.disk, p).value) && Settled(w, s.disk, s.pc.ver, i);
    }
  }

  lemma StillThere(w: World, labels: seq<Label>, l: Label, k: nat, i: nat)
    requires Sound(w) && i < |w.Targets()| && k <= |labels| && Undisturbed(w, labels, k, i)
    requires Run(w, Init(w), labels).pc.TagRenaming? && l.Call?
    ensures Look(Next(w, Run(w, Init(w), labels), l).disk, w.Targets()[i].path).Some?
  {
    InitOk(w);
    RunKeepsInv(w, Init(w), labels);
    PlacedIsThere(w, labels, k, i);
    CallKeeps(w, Run(w, Init(w), labels), l.ok, l.tmp, i);
  }

  /** Sync accounting: every attempt is an error, an unchanged success or a change, and the changes
      counted are exactly the tags written. */
  lemma {:induction false} Accounting(w: World, s: State, labels: seq<Label>)
    requires s.counts.attempts == s.counts.errors + s.counts.same + s.counts.changes
    requires s.counts.changes == s.commits
    ensures var r := Run(w, s, labels);
      && r.counts.attempts == r.counts.errors + r.counts.same + r.counts.changes
      && r.counts.changes == r.commits
    decreases |labels|
  {
    if labels != [] {
      AccountingStep(w, s, labels[0]);
      Accounting(w, Next(w, s, labels[0]), labels[1..]);
    }
  }

  lemma AccountingStep(w: World, s: State, l: Label)
    requires s.counts.attempts == s.counts.errors + s.counts.same + s.counts.changes
    requires s.counts.changes == s.commits
    ensures var r := Next(w, s, l);
      && r.counts.attempts == r.counts.errors + r.counts.same + r.counts.changes
      && r.counts.changes == r.commits
  {
    if l.Call? {
      CallIsCounted(w, s, l.ok, l.tmp);
    }
  }

  /** A call goes on, or returns with a failure or nothing changed, or commits. */
  predicate Counted(s: State, r: State) {
    || (r.commits == s.commits &&
        (r.counts == s.counts || r.counts == Observe(s.counts, false, true) ||
         r.counts == Observe(s.counts, true, true) || r.counts == Observe(s.counts, false, false)))
    || (r.commits == s.commits + 1 && r.counts == Observe(s.counts, true, false))
  }

  lemma CallIsCounted(w: World, s: State, ok: bool, tmp: Path)
    ensures Counted(s, Act(w, s, ok, tmp))
  {
    match s.pc
    case Creating(_, _) =>
    case Filling(_, _, _) =>
    case Renaming(_, _, _) =>
    case TagRenaming(_, _) =>
    case _ =>
  }

  // ---- Retrying an installation that was not committed ----

  /** A tag, once left, never recurs. */
  ghost predicate NonRecurring(w: World) {
    forall i: nat, j: nat, k: nat :: i <= j <= k && SameTag(w, i, k) && w.replies[j].Snapshot? ==> SameTag(w, i, j)
  }

  /** An installation has begun, is not committed, and is of another tag than any that can be found stored. */
  ghost predicate Owing(w: World, s: State) {
    && s.owed.Some? && s.owed.value <= s.now && w.Installable(s.owed.value)
    && forall g :: TagMay(w, s.disk, g) ==>
         g.ver <= s.owed.value && w.Installable(g.ver) && w.replies[g.ver].tag != w.replies[s.owed.value].tag
  }

  /** The agent reaches the end of `labels` without writing a tag. */
  predicate Uncommitted(w: World, s: State, labels: seq<Label>)
    decreases |labels|
  {
    s.owed.Some? && (labels == [] || Uncommitted(w, Next(w, s, labels[0]), labels[1..]))
  }

  /** A tag that an owing installation has left is not served again. */
  lemma LeftForGood(w: World, s: State, g: File, v: nat)
    requires NonRecurring(w) && Owing(w, s) && TagMay(w, s.disk, g)
    requires s.owed.value <= v && w.Installable(v)
    ensures !SameTag(w, g.ver, v)
  {
    assert !SameTag(w, g.ver, s.owed.value);
  }

  /** Only a commit or a power loss changes the tag file. */
  lemma EtagOnlyCommitted(w: World, s: State, l: Label)
    requires Sound(w) && Inv(w, s) && !(l.PowerLoss? && w.powerLoss)
    requires !(s.pc.TagRenaming? && l.Call? && l.ok)
    ensures Look(Next(w, s, l).disk, w.EtagPath()) == Look(s.disk, w.EtagPath())
  {
    var e := w.EtagPath();
    forall i: nat | i < |w.Targets()| ensures w.Targets()[i].path != e {
      assert w.IsTargetPath(w.Targets()[i].path);
    }
    if l.Call? {
      OwnedUntouched(w, s, l.ok, l.tmp, e);
    } else if l.Foreign? {
      assert w.InFootprint(e);
      assert ForeignChange(w, s.disk, l.disk) && e in s.disk.Keys + l.disk.Keys ==> Look(l.disk, e) == Look(s.disk, e);
    }
  }

  /** Only a rename makes another installation the one owed, and only a commit clears it. */
  lemma OwedChanges(w: World, s: State, l: Label)
    ensures var s' := Next(w, s, l);
      && s.now <= s'.now
      && (s'.owed == s.owed || s'.owed.None? || (s.pc.Renaming? && s'.owed == Some(s.pc.ver)))
      && (s.owed.Some? && s'.owed.Some? && s.pc.TagRenaming? && l.Call? && l.ok ==> Look(s.disk, s.pc.tmp).None?)
  {
  }

  lemma OwingStep(w: World, s: State, l: Label)
    requires Sound(w) && NonRecurring(w)
    requires Inv(w, s) && Owing(w, s) && Next(w, s, l).owed.Some?
    ensures Owing(w, Next(w, s, l))
  {
    var s' := Next(w, s, l);
    OwedChanges(w, s, l);
    OnlyCommitsAddTags(w, s, l);
    var v := s'.owed.value;
    forall g | TagMay(w, s'.disk, g)
      ensures g.ver <= v && w.Installable(g.ver) && w.replies[g.ver].tag != w.replies[v].tag
    {
      LeftForGood(w, s, g, v);
    }
  }

  /** While an installation is owed, no fetch is answered "not modified". */
  lemma OwingFetch(w: World, s: State, l: Label)
    requires Sound(w) && NonRecurring(w) && GoodReplies(w) && Inv(w, s) && Owing(w, s)
    ensures Next(w, s, l).counts.same <= s.counts.same
    ensures s.pc.Fetching? && w.Installable(s.now) && l.Call? && l.ok ==> Next(w, s, l).pc == Creating(s.now, [])
  {
    if l.Call? && s.pc.Fetching? && s.now < |w.replies| && w.replies[s.now].Snapshot? && s.pc.etag != "" {
      var g := Look(s.disk, w.EtagPath()).value;
      assert TagMay(w, s.disk, g);
      TrimOfTrimmed(w.replies[g.ver].tag);
      ETags.SingleTagMatch(w.replies[g.ver].tag, w.replies[s.now].tag);
      assert !SameTag(w, g.ver, s.owed.value);
      assert !SameTag(w, g.ver, s.now);
    }
  }

  /** Reload retry. Once a different tag has begun to be installed, then until a tag is written every Sync
      either fails or installs again: none of them is told "not modified", whatever crashes and power losses there
      are in between. */
  lemma {:induction false} RetryUntilCommitted(w: World, s: State, labels: seq<Label>)
    requires Sound(w) && NonRecurring(w) && GoodReplies(w)
    requires Inv(w, s) && Owing(w, s) && Uncommitted(w, s, labels)
    ensures var r := Run(w, s, labels); Inv(w, r) && Owing(w, r) && r.counts.same <= s.counts.same
    ensures var r := Run(w, s, labels);
      forall tmp :: r.pc.Fetching? && w.Installable(r.now) ==>
        Next(w, r, Call(true, tmp)).pc == Creating(r.now, [])
    decreases |labels|
  {
    if labels == [] {
      forall tmp { OwingFetch(w, s, Call(true, tmp)); }
    } else {
      StepKeepsInv(w, s, labels[0]);
      OwingStep(w, s, labels[0]);
      OwingFetch(w, s, labels[0]);
      RetryUntilCommitted(w, Next(w, s, labels[0]), labels[1..]);
    }
  }

  /** Exactly when a Sync whose fetch is answered installs (again): when the tag it sent is not the one being served.
      So an installation that was not committed is retried unless it was of the tag already stored. */
  lemma ReinstallsIff(w: World, labels: seq<Label>, tmp: Path)
    requires Sound(w) && GoodReplies(w)
    ensures var s := Run(w, Init(w), labels);
      s.pc.Fetching? && w.Installable(s.now) ==>
        (Next(w, s, Call(true, tmp)).pc == Creating(s.now, []) <==> s.pc.etag != w.replies[s.now].tag)
  {
    InitOk(w);
    RunKeepsInv(w, Init(w), labels);
    var s := Run(w, Init(w), labels);
    if s.pc.Fetching? && w.Installable(s.now) && s.pc.etag != "" {
      var g := Look(s.disk, w.EtagPath()).value;
      assert TagMay(w, s.disk, g);
      TrimOfTrimmed(w.replies[g.ver].tag);
      ETags.SingleTagMatch(w.replies[g.ver].tag, w.replies[s.now].tag);
    }
  }

  /** The first rename of a tag other than the stored one starts the obligation. */
  lemma RenameStartsOwing(w: World, s: State, tmp: Path)
    requires Sound(w) && Inv(w, s) && s.pc.Renaming?
    requires forall g :: TagMay(w, s.disk, g) && TagFile(w, s.now, g) ==>
      w.replies[g.ver].tag != w.replies[s.pc.ver].tag
    ensures Owing(w, Next(w, s, Call(true, tmp)))
  {
    OnlyCommitsAddTags(w, s, Call(true, tmp));
  }

  // ---- A commit has rerun the command ----

  /** The Sync at `pc` is past its change command. */
  predicate Commanded(pc: Pc) {
    pc.TagCreating? || pc.TagFilling? || pc.TagRenaming?
  }

  /** Since there were `base` successful runs of the command, a Sync past its command has added one. */
  predicate Reran(w: World, s: State, base: nat) {
    base <= s.runs && (|w.exposure.command| > 0 && Commanded(s.pc) ==> base < s.runs)
  }

  lemma {:induction false} RunKeepsReran(w: World, s: State, labels: seq<Label>, base: nat)
    requires Reran(w, s, base)
    ensures Reran(w, Run(w, s, labels), base)
    decreases |labels|
  {
    if labels != [] {
      StepKeepsReran(w, s, labels[0], base);
      RunKeepsReran(w, Next(w, s, labels[0]), labels[1..], base);
    }
  }

  lemma StepKeepsReran(w: World, s: State, l: Label, base: nat)
    requires Reran(w, s, base)
    ensures Reran(w, Next(w, s, l), base)
  {
    if l.Call? {
      CallReruns(w, s, l.ok, l.tmp);
    }
  }

  /** A Sync gets past its command only by running it. */
  lemma CallReruns(w: World, s: State, ok: bool, tmp: Path)
    ensures var r := Act(w, s, ok, tmp);
      s.runs <= r.runs && (|w.exposure.command| > 0 && Commanded(r.pc) && !Commanded(s.pc) ==> s.runs < r.runs)
  {
    match s.pc
    case Creating(_, _) =>
    case Filling(_, _, _) =>
    case Renaming(_, _, _) =>
    case TagRenaming(_, _) =>
    case _ =>
  }

  /** Every commit has rerun the change command: from any earlier point at which the committing Sync had not got past
      its command, its fetch in particular, the command has succeeded at least once more. */
  lemma CommitReruns(w: World, labels: seq<Label>, l: Label, k: nat)
    requires k <= |labels| && |w.exposure.command| > 0 && !Commanded(Run(w, Init(w), labels[..k]).pc)
    ensures var s := Run(w, Init(w), labels);
      Next(w, s, l).commits > s.commits ==> s.runs > Run(w, Init(w), labels[..k]).runs
  {
    var a, b := labels[..k], labels[k..];
    assert labels == a + b;
    RunConcat(w, Init(w), a, b);
    var r := Run(w, Init(w), a);
    RunKeepsReran(w, r, b, r.runs);
    CommitsFromTag(w, Run(w, Init(w), labels), l);
  }

  lemma CommitsFromTag(w: World, s: State, l: Label)
    ensures Next(w, s, l).commits > s.commits ==> l.Call? && s.pc.TagRenaming?
  {
    if l.Call? {
      CallIsCounted(w, s, l.ok, l.tmp);
      OnlyTagsCommit(w, s, l.ok, l.tmp);
    }
  }

  lemma OnlyTagsCommit(w: World, s: State, ok: bool, tmp: Path)
    ensures !s.pc.TagRenaming? ==> Act(w, s, ok, tmp).commits == s.commits
  {
    match s.pc
    case Creating(_, _) =>
    case Filling(_, _, _) =>
    case Renaming(_, _, _) =>
    case _ =>
  }

  /** So the commit that ends an owed installation ends it with the command rerun, after any number of failed
      attempts, crashes and power losses. */
  lemma RetryEndsReloaded(w: World, s: State, labels: seq<Label>, l: Label)
    requires Sound(w) && NonRecurring(w) && GoodReplies(w) && |w.exposure.command| > 0
    requires Inv(w, s) && Owing(w, s) && Uncommitted(w, s, labels) && !Commanded(s.pc)
    ensures var r := Run(w, s, labels);
      Next(w, r, l).commits > r.commits ==>
        r.runs > s.runs && Next(w, r, l).owed.None? && r.counts.same <= s.counts.same
  {
    RunKeepsReran(w, s, labels, s.runs);
    RetryUntilCommitted(w, s, labels);
    CommitsFromTag(w, Run(w, s, labels), l);
  }

  // ---- A poll of an unchanged exposure ----

  function Polls(n: nat, tmp: Path): seq<Label> {
    seq(n, i => Call(true, tmp))
  }

  /** Quiescent idempotence: when nothing has changed, a poll reads every target and the stored tag, is told
      "not modified", and writes and runs nothing. */
  lemma PollOfUnchanged(w: World, s: State, tmp: Path)
    requires w.WellFormed() && s.pc == Idle && Trusted(w, s)
    ensures Run(w, s, Polls(|w.Targets()| + 3, tmp)) == Return(s, false, false)
  {
    var n := |w.Targets()|;
    var ls := Polls(n + 3, tmp);
    assert ls[1..] == Polls(n + 2, tmp);
    StatAll(w, s.(pc := Stat(0)), 0, tmp);
  }

  lemma {:induction false} StatAll(w: World, s: State, i: nat, tmp: Path)
    requires i < |w.Targets()| && s.pc == Stat(i) && Trusted(w, s)
    ensures Run(w, s, Polls(|w.Targets()| - i + 2, tmp)) == Return(s, false, false)
    decreases |w.Targets()| - i
  {
    var n := |w.Targets()|;
    var ls := Polls(n - i + 2, tmp);
    assert Intact(w, s.disk, i);
    assert ls[1..] == Polls(n - i + 1, tmp);
    var s1 := Next(w, s, ls[0]);
    if i + 1 < n {
      StatAll(w, s1, i + 1, tmp);
      assert Return(s1, false, false) == Return(s, false, false);
    } else {
      assert s1 == s.(pc := ReadTag);
      var s2 := Next(w, s1, ls[1]);
      assert s2 == s.(pc := Fetching(CurrentETag(w, s.disk)));
      assert ls[1..][1..] == Polls(1, tmp);
      assert Run(w, s2, Polls(1, tmp)) == Next(w, s2, ls[2]) by {
        assert Polls(1, tmp)[1..] == [];
      }
    }
  }

  /** Right after a commit of the reply being served, with every target still in place, the next poll is
      such a poll: the tag written with a newline is read back, sent, and matched. */
  lemma CommitThenPoll(w: World, s: State, tmp: Path, tmp2: Path)
    requires Sound(w) && GoodReplies(w) && Inv(w, s)
    requires s.pc.TagRenaming? && s.pc.ver == s.now
    requires forall i: nat :: i < |w.Targets()| ==> Intact(w, s.disk, i)
    ensures var s' := Next(w, s, Call(true, tmp));
      s'.commits == s.commits + 1 && Run(w, s', Polls(|w.Targets()| + 3, tmp2)) == Return(s', false, false)
  {
    var s' := Next(w, s, Call(true, tmp));
    TempsAreUnowned(w);
    var tag := w.replies[s.now].tag;
    forall i: nat | i < |w.Targets()| ensures Intact(w, s'.disk, i) {
      assert w.Owns(w.Targets()[i].path) && w.IsTargetPath(w.Targets()[i].path);
      assert Intact(w, s.disk, i);
    }
    TrimOfTrimmed(tag);
    ETags.SingleTagMatch(tag, tag);
    assert CurrentETag(w, s'.disk) == tag;
    PollOfUnchanged(w, s', tmp2);
  }
}
