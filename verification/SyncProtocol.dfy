/** The agent's synchronization of one exposure (agent/internal/fetch/fetch.go), one system call a
    step, against an environment that may crash the host, rotate the Secret, delete or chmod a target,
    and run other exposures at the same time. */
module SyncProtocol {
  import opened Text
  import opened Disk
  import ETags

  datatype Target = Target(key: string, path: Path, mode: nat)
  datatype Exposure = Exposure(name: string, command: seq<string>, targets: seq<Target>)

  /** What the gateway answers at one moment: an error status, or one snapshot under one tag. */
  datatype Reply = Refused(status: nat) | Snapshot(tag: string, values: map<string, string>)

  /** Everything fixed during a run. `replies` lists what the gateway serves, in the order it serves
      it. `powerLoss` admits power losses, `flushFails` admits failing directory flushes. */
  datatype World = World(exposure: Exposure, stateDir: string, replies: seq<Reply>,
                         powerLoss: bool, flushFails: bool)
  {
    function Targets(): seq<Target> { exposure.targets }
    function EtagPath(): Path { Path(stateDir, exposure.name + ".etag") }
    function StampPath(): Path { Path(stateDir, exposure.name + ".stamp") }

    /** Whether a reply can be installed: a snapshot that has every target key. */
    predicate Installable(v: nat) {
      v < |replies| && replies[v].Snapshot? &&
      forall i :: 0 <= i < |Targets()| ==> Targets()[i].key in replies[v].values
    }

    function Value(v: nat, i: nat): string
      requires Installable(v) && i < |Targets()|
    {
      replies[v].values[Targets()[i].key]
    }

    /** Target `i` as reply `v` would install it: the complete value, with the configured mode. */
    function Copy(v: nat, i: nat): File
      requires Installable(v) && i < |Targets()|
    {
      File(Value(v, i), Targets()[i].mode, v)
    }

    predicate IsTargetPath(p: Path) {
      exists i :: 0 <= i < |Targets()| && Targets()[i].path == p
    }

    /** The files this exposure replaces. */
    predicate Owns(p: Path) {
      p == EtagPath() || p == StampPath() || IsTargetPath(p)
    }

    /** Owned files, and the temporary files staged beside them. */
    predicate InFootprint(p: Path) {
      Owns(p) || IsTempFor(EtagPath(), p) ||
      exists i :: 0 <= i < |Targets()| && IsTempFor(Targets()[i].path, p)
    }

    /** What configuration validation establishes, and the premise that no owned file is named like a
        temporary file of the exposure. */
    ghost predicate WellFormed() {
      && |Targets()| > 0
      && (forall i :: 0 <= i < |Targets()| ==> Targets()[i].mode <= 0x1ff)
      && (forall i, j :: 0 <= i < j < |Targets()| ==> Targets()[i].path != Targets()[j].path)
      && EtagPath() != StampPath() && !IsTargetPath(EtagPath()) && !IsTargetPath(StampPath())
      && (forall p, q :: Owns(p) && Owns(q) ==> !IsTempFor(p, q))
    }
  }

  predicate AllDigits(s: string) {
    forall i :: 0 <= i < |s| ==> '0' <= s[i] <= '9'
  }

  /** os.CreateTemp(dir, "."+base+".tmp"): the pattern followed by decimal digits, in the same directory. */
  predicate IsTempFor(p: Path, tmp: Path) {
    var pattern := "." + p.base + ".tmp";
    tmp.dir == p.dir && |tmp.base| >= |pattern| && tmp.base[..|pattern|] == pattern &&
    AllDigits(tmp.base[|pattern|..])
  }

  /** Where a Sync stands. `ver` is the reply being installed, `temps` the staged files. */
  datatype Pc =
    | Idle
    | Stat(i: nat)
    | ReadTag
    | Fetching(etag: string)
    | Creating(ver: nat, temps: seq<Path>)
    | Filling(ver: nat, temps: seq<Path>, tmp: Path)
    | Dropping(temps: seq<Path>, tmp: Path)
    | Renaming(ver: nat, temps: seq<Path>, i: nat)
    | Cleaning(temps: seq<Path>)
    | Flushing(ver: nat, dirs: seq<string>)
    | Stamping(ver: nat)
    | Commanding(ver: nat)
    | TagCreating(ver: nat)
    | TagFilling(ver: nat, tmp: Path)
    | TagRenaming(ver: nat, tmp: Path)
    | TagDropping(tmp: Path)

  /** The counters of agent/internal/metrics/metrics.go, since the process started. */
  datatype Counters = Counters(attempts: nat, errors: nat, same: nat, changes: nat)

  const NO_COUNTS := Counters(0, 0, 0, 0)

  /** `now` indexes the reply the gateway would give. `loaded` is what the consumer found at each target
      when it last (re)loaded, `reloads` the replies on which the change command has succeeded, `owed`
      the reply whose installation has started and not been committed, `commits` the tag writes since
      the process started, `runs` how often the change command has succeeded, `stamps` how often the stamp has been
      written and `installs` how often all targets have been renamed; no step decides anything by the last seven. */
  datatype State = State(disk: Disk, now: nat, pc: Pc, counts: Counters,
                         loaded: seq<Option<File>>, reloads: set<nat>, owed: Option<nat>, commits: nat, runs: nat,
                         stamps: nat, installs: nat)

  function Init(w: World): State {
    State(map[], 0, Idle, NO_COUNTS, seq(|w.Targets()|, i => None), {}, None, 0, 0, 0, 0)
  }

  /** One step of the run. `Call` is the agent's next system call, which succeeds or fails; `tmp` is the
      name os.CreateTemp happens to pick. The rest is the environment. */
  datatype Label =
    | Call(ok: bool, tmp: Path)
    | Advance
    | Delete(i: nat)
    | Chmod(i: nat, mode: nat)
    | Crash
    | PowerLoss(pick: map<Path, Option<File>>)
    | Foreign(disk: Disk)

  /** ObserveSync: one attempt, with the outcome Sync returned. */
  function Observe(c: Counters, changed: bool, failed: bool): Counters {
    var c1 := c.(attempts := c.attempts + 1);
    if failed then c1.(errors := c1.errors + 1)
    else if changed then c1.(changes := c1.changes + 1)
    else c1.(same := c1.same + 1)
  }

  /** Sync's deferred call of ObserveSync: every return is counted once. */
  function Return(s: State, changed: bool, failed: bool): State {
    s.(pc := Idle, counts := Observe(s.counts, changed, failed))
  }

  function Dirs(targets: seq<Target>): (r: seq<string>)
    ensures forall i :: 0 <= i < |targets| ==> targets[i].path.dir in r
  {
    if targets == [] then []
    else
      var r := Dirs(targets[..|targets| - 1]);
      var dir := targets[|targets| - 1].path.dir;
      if dir in r then r else r + [dir]
  }

  predicate IsDir(targets: seq<Target>, dir: string) {
    exists i :: 0 <= i < |targets| && targets[i].path.dir == dir
  }

  /** The directories to flush are those of the targets, each once. */
  lemma {:induction false} DirsAre(targets: seq<Target>)
    ensures forall dir :: dir in Dirs(targets) <==> IsDir(targets, dir)
    ensures forall i, j :: 0 <= i < j < |Dirs(targets)| ==> Dirs(targets)[i] != Dirs(targets)[j]
  {
    if targets != [] {
      var n := |targets| - 1;
      var rest, last := targets[..n], targets[n];
      DirsAre(rest);
      assert targets == rest + [last];
      forall dir ensures IsDir(targets, dir) <==> IsDir(rest, dir) || dir == last.path.dir {
        if i :| 0 <= i < |rest| && rest[i].path.dir == dir {
          assert targets[i].path.dir == dir;
        }
        assert targets[n].path.dir == last.path.dir;
      }
    }
  }

  /** The tag currentETag would return, read in one instant; "" to fetch unconditionally. */
  function CurrentETag(w: World, d: Disk): string {
    if (exists i :: 0 <= i < |w.Targets()| && !Intact(w, d, i)) || Look(d, w.EtagPath()).None? then ""
    else TrimSpace(Look(d, w.EtagPath()).value.content)
  }

  /** fs.FileMode.Perm: the permission bits of a mode. */
  function Perm(mode: nat): nat {
    mode % 0x200
  }

  /** A target that is present with its configured permissions. */
  predicate Intact(w: World, d: Disk, i: nat)
    requires i < |w.Targets()|
  {
    var f := Look(d, w.Targets()[i].path);
    f.Some? && Perm(f.value.mode) == w.Targets()[i].mode
  }

  function Seen(w: World, d: Disk): seq<Option<File>> {
    seq(|w.Targets()|, i requires 0 <= i < |w.Targets()| => Look(d, w.Targets()[i].path))
  }

  function AfterStat(w: World, i: nat): Pc {
    if i < |w.Targets()| then Stat(i) else ReadTag
  }

  function AfterStaging(w: World, ver: nat, temps: seq<Path>): Pc {
    if |temps| < |w.Targets()| then Creating(ver, temps) else AfterRename(w, ver, temps, 0)
  }

  function AfterRename(w: World, ver: nat, temps: seq<Path>, i: nat): Pc {
    if i < |w.Targets()| then Renaming(ver, temps, i) else Flushing(ver, Dirs(w.Targets()))
  }

  /** The gateway's answer to a fetch that sent `etag`. */
  function AfterFetch(w: World, s: State, etag: string): State {
    if s.now >= |w.replies| || w.replies[s.now].Refused? then Return(s, false, true)
    else if etag != "" && ETags.WeakMatch([etag], w.replies[s.now].tag) then Return(s, false, false)
    else if !w.Installable(s.now) then Return(s, false, true)
    else s.(pc := AfterStaging(w, s.now, []))
  }

  predicate Fresh(s: State, owner: Path, tmp: Path) {
    Look(s.disk, tmp).None? && IsTempFor(owner, tmp)
  }

  /** The stamp file as its `n`-th write leaves it. It holds the time, a text of its own for every write: here the
      number of the write, in strokes. */
  function Stamp(n: nat, ver: nat): File {
    File(seq(n, _ => '|'), 0x1A4, ver)
  }

  /** The agent's next call. */
  function Act(w: World, s: State, ok: bool, tmp: Path): State {
    match s.pc
    case Idle => if ok then s.(pc := AfterStat(w, 0)) else Return(s, false, true)
    case Stat(i) =>
      if !ok || i >= |w.Targets()| then Return(s, false, true)
      else if !Intact(w, s.disk, i) then s.(pc := Fetching(""))
      else s.(pc := AfterStat(w, i + 1))
    case ReadTag =>
      if !ok then Return(s, false, true)
      else if Look(s.disk, w.EtagPath()).None? then s.(pc := Fetching(""))
      else s.(pc := Fetching(TrimSpace(Look(s.disk, w.EtagPath()).value.content)))
    case Fetching(etag) => if ok then AfterFetch(w, s, etag) else Return(s, false, true)
    case Creating(ver, temps) =>
      if ok && |temps| < |w.Targets()| && Fresh(s, w.Targets()[|temps|].path, tmp) then
        s.(disk := Put(s.disk, tmp, File("", 0x180, ver)), pc := Filling(ver, temps, tmp))
      else s.(pc := Cleaning(temps))
    case Filling(ver, temps, tmp) =>
      if ok && |temps| < |w.Targets()| && w.Installable(ver) then
        s.(disk := Put(s.disk, tmp, w.Copy(ver, |temps|)),
           pc := AfterStaging(w, ver, temps + [tmp]))
      else s.(pc := Dropping(temps, tmp))
    case Dropping(temps, tmp) =>
      s.(disk := if ok then Remove(s.disk, tmp) else s.disk, pc := Cleaning(temps))
    case Renaming(ver, temps, i) =>
      if ok && i < |temps| && i < |w.Targets()| && Look(s.disk, temps[i]).Some? then
        s.(disk := Rename(s.disk, temps[i], w.Targets()[i].path),
           pc := AfterRename(w, ver, temps, i + 1), owed := Some(ver))
      else s.(pc := Cleaning(if i <= |temps| then temps[i..] else []))
    case Cleaning(temps) =>
      if temps == [] then Return(s, false, true)
      else s.(disk := if ok then Remove(s.disk, temps[0]) else s.disk, pc := Cleaning(temps[1..]))
    case Flushing(ver, dirs) =>
      if dirs == [] then s.(pc := Stamping(ver), installs := s.installs + 1)
      else s.(disk := if ok || !w.flushFails then Flush(s.disk, dirs[0]) else s.disk,
              pc := Flushing(ver, dirs[1..]))
    case Stamping(ver) =>
      if ok then
        s.(disk := Put(s.disk, w.StampPath(), Stamp(s.stamps + 1, ver)), stamps := s.stamps + 1,
           pc := if |w.exposure.command| > 0 then Commanding(ver) else TagCreating(ver))
      else Return(s, true, true)
    case Commanding(ver) =>
      if ok then
        s.(loaded := Seen(w, s.disk), reloads := s.reloads + {ver}, runs := s.runs + 1, pc := TagCreating(ver))
      else Return(s, true, true)
    case TagCreating(ver) =>
      if ok && Fresh(s, w.EtagPath(), tmp) then
        s.(disk := Put(s.disk, tmp, File("", 0x180, ver)), pc := TagFilling(ver, tmp))
      else Return(s, true, true)
    case TagFilling(ver, tmp) =>
      if ok && ver < |w.replies| && w.replies[ver].Snapshot? then
        s.(disk := Put(s.disk, tmp, File(w.replies[ver].tag + "\n", 0x180, ver)), pc := TagRenaming(ver, tmp))
      else s.(pc := TagDropping(tmp))
    case TagRenaming(ver, tmp) =>
      if ok && Look(s.disk, tmp).Some? then
        Return(s.(disk := Rename(s.disk, tmp, w.EtagPath()), owed := None, commits := s.commits + 1), true, false)
      else s.(pc := TagDropping(tmp))
    case TagDropping(tmp) =>
      Return(s.(disk := if ok then Remove(s.disk, tmp) else s.disk), true, true)
  }

  /** Whether another exposure's activity can have turned one disk into the other: our footprint reads
      the same, and a flush of a shared directory may only have narrowed what a power loss can leave. */
  predicate ForeignChange(w: World, before: Disk, after: Disk) {
    forall p :: p in before.Keys + after.Keys && w.InFootprint(p) ==>
      Look(after, p) == Look(before, p) && May(after, p) <= May(before, p)
  }

  /** The successor state. A label that does not apply leaves the state as it is, so that every sequence
      of labels is a run. */
  function Next(w: World, s: State, l: Label): State {
    match l
    case Call(ok, tmp) => Act(w, s, ok, tmp)
    case Advance => if s.now + 1 < |w.replies| then s.(now := s.now + 1) else s
    case Delete(i) => if i < |w.Targets()| then s.(disk := Remove(s.disk, w.Targets()[i].path)) else s
    case Chmod(i, mode) =>
      if i < |w.Targets()| && Look(s.disk, w.Targets()[i].path).Some? then
        var f := Look(s.disk, w.Targets()[i].path).value;
        s.(disk := Put(s.disk, w.Targets()[i].path, f.(mode := mode)))
      else s
    case Crash => Restarted(s)
    case PowerLoss(pick) =>
      if w.powerLoss then
        var d := AfterPowerLoss(s.disk, pick);
        Restarted(s.(disk := d, loaded := Seen(w, d)))
      else s
    case Foreign(d) => if ForeignChange(w, s.disk, d) then s.(disk := d) else s
  }

  /** The process dies: its memory is lost and its counters start over. */
  function Restarted(s: State): State {
    s.(pc := Idle, counts := NO_COUNTS, commits := 0)
  }

  function Run(w: World, s: State, labels: seq<Label>): State
    decreases |labels|
  {
    if labels == [] then s else Run(w, Next(w, s, labels[0]), labels[1..])
  }

  lemma {:induction false} RunConcat(w: World, s: State, a: seq<Label>, b: seq<Label>)
    ensures Run(w, s, a + b) == Run(w, Run(w, s, a), b)
    decreases |a|
  {
    if a == [] {
      assert a + b == b;
    } else {
      assert (a + b)[0] == a[0] && (a + b)[1..] == a[1..] + b;
      RunConcat(w, Next(w, s, a[0]), a[1..], b);
    }
  }

  lemma RunOne(w: World, s: State, a: Label)
    ensures Run(w, s, [a]) == Next(w, s, a)
  {
    assert [a][1..] == [];
  }

  lemma RunTwo(w: World, s: State, a: Label, b: Label)
    ensures Run(w, s, [a, b]) == Next(w, Next(w, s, a), b)
  {
    assert [a, b][1..] == [b];
    RunOne(w, Next(w, s, a), b);
  }
}
