/** Sync as the program it is (agent/internal/fetch/fetch.go): loops and local variables over system calls
    that can fail, with the environment acting before every call. Each method is proved to follow
    SyncProtocol step by step, so that what is proved there of every run holds of this program. */
module Runner {
  import opened Text
  import opened Disk
  import opened SyncProtocol
  import opened SyncInvariant
  import opened SyncSteps
  import opened SyncTheorems
  import opened SyncPresence
  import opened SyncStamp
  import ETags

  datatype StatResult = StatFailed | NotThere | There(mode: nat)
  datatype ReadResult = ReadFailed | NoFile | Contents(text: string)
  datatype FetchResult = FetchFailed | NotModified | Fetched(reply: nat, tag: string, values: map<string, string>)

  /** The target keys a response does not contain, in target order. */
  method MissingKeys(targets: seq<Target>, values: map<string, string>) returns (missing: seq<string>)
    ensures missing == [] <==> forall i :: 0 <= i < |targets| ==> targets[i].key in values
    ensures forall k :: k in missing <==> k !in values && exists i :: 0 <= i < |targets| && targets[i].key == k
  {
    missing := [];
    for i := 0 to |targets|
      invariant missing == [] <==> forall m :: 0 <= m < i ==> targets[m].key in values
      invariant forall k :: k in missing <==> k !in values && exists m :: 0 <= m < i && targets[m].key == k
    {
      if targets[i].key !in values {
        missing := missing + [targets[i].key];
      }
    }
  }

  class Host {
    const w: World
    var s: State
    /** Every step taken since the host was created. */
    ghost var trace: seq<Label>

    ghost predicate Valid()
      reads this
    {
      Sound(w) && s == Run(w, Init(w), trace)
    }

    /** So the host is always in a state the invariant describes. */
    lemma Invariant()
      requires Valid()
      ensures Inv(w, s)
    {
      InitOk(w);
      RunKeepsInv(w, Init(w), trace);
    }

    constructor (w: World)
      requires Sound(w)
      ensures Valid() && this.w == w && s == Init(w) && trace == []
    {
      this.w := w;
      this.s := Init(w);
      this.trace := [];
    }

    /** What the environment cannot change between two calls of the agent. */
    twostate predicate OnlyEnvironment()
      reads this
    {
      && old(trace) <= trace && old(s.now) <= s.now
      && s == old(s).(disk := s.disk, now := s.now)
      && Look(s.disk, w.EtagPath()) == old(Look(s.disk, w.EtagPath()))
    }

    method Take(l: Label)
      requires Valid()
      modifies this
      ensures Valid() && s == Next(w, old(s), l) && trace == old(trace) + [l]
    {
      RunConcat(w, Init(w), trace, [l]);
      RunOne(w, s, l);
      s := Next(w, s, l);
      trace := trace + [l];
    }

    /** Rotations at the gateway, deleted targets, changed modes and the work of other exposures, any number of them. */
    method Interfere()
      requires Valid()
      modifies this
      ensures Valid() && OnlyEnvironment()
    {
      var n: nat := *;
      while n > 0
        invariant Valid() && OnlyEnvironment()
      {
        var l: Label := *;
        if l.Advance? || l.Delete? || l.Chmod? || l.Foreign? {
          Invariant();
          EtagOnlyCommitted(w, s, l);
          Take(l);
        }
        n := n - 1;
      }
    }

    /** The agent's next system call: it succeeds or fails, after the environment had its turn. */
    method Call(ok: bool, tmp: Path)
      requires Valid()
      modifies this
      ensures Valid() && trace == old(trace) + [SyncProtocol.Call(ok, tmp)] && s == Act(w, old(s), ok, tmp)
      ensures !(old(s.pc).TagRenaming? && ok) ==> Look(s.disk, w.EtagPath()) == old(Look(s.disk, w.EtagPath()))
    {
      if !(s.pc.TagRenaming? && ok) {
        Invariant();
        EtagOnlyCommitted(w, s, SyncProtocol.Call(ok, tmp));
      }
      Take(SyncProtocol.Call(ok, tmp));
    }

    /** The tag file, the counters and what the consumer loaded are as they were. */
    twostate predicate TagKept()
      reads this
    {
      && old(trace) <= trace
      && Look(s.disk, w.EtagPath()) == old(Look(s.disk, w.EtagPath()))
      && s.commits == old(s.commits)
      && s.reloads >= old(s.reloads) && s.runs >= old(s.runs) && s.stamps >= old(s.stamps)
    }

    /** Neither the stamp nor the change command has made the consumer reload meanwhile. */
    twostate predicate NoReload()
      reads this
    {
      s.reloads == old(s.reloads) && s.runs == old(s.runs) && s.stamps == old(s.stamps)
    }

    /** No installation has been completed meanwhile. */
    twostate predicate NoInstall()
      reads this
    {
      s.installs == old(s.installs)
    }

    /** os.Stat. */
    method Stat(path: Path, ghost i: nat) returns (r: StatResult)
      requires Valid() && i < |w.Targets()| && s.pc == SyncProtocol.Stat(i) && path == w.Targets()[i].path
      modifies this
      ensures Valid() && TagKept() && NoReload() && NoInstall()
      ensures r.StatFailed? ==> s.pc == Idle && s.counts == Observe(old(s.counts), false, true)
      ensures !r.StatFailed? ==>
        && s.counts == old(s.counts)
        && s.pc == if r.There? && Perm(r.mode) == w.Targets()[i].mode then AfterStat(w, i + 1) else Fetching("")
    {
      Interfere();
      var ok: bool := *;
      var f := Look(s.disk, path);
      Call(ok, Path("", ""));
      r := if !ok then StatFailed else if f.None? then NotThere else There(f.value.mode);
    }

    /** os.ReadFile. */
    method ReadFile(path: Path) returns (r: ReadResult)
      requires Valid() && s.pc == ReadTag && path == w.EtagPath()
      modifies this
      ensures Valid() && TagKept() && NoReload() && NoInstall()
      ensures r.ReadFailed? ==> s.pc == Idle && s.counts == Observe(old(s.counts), false, true)
      ensures !r.ReadFailed? ==>
        s.counts == old(s.counts) && s.pc == Fetching(if r.NoFile? then "" else TrimSpace(r.text))
    {
      Interfere();
      var ok: bool := *;
      var f := Look(s.disk, path);
      Call(ok, Path("", ""));
      r := if !ok then ReadFailed else if f.None? then NoFile else Contents(f.value.content);
    }

    /** currentETag: stat every target, then read the stored tag; "" to fetch unconditionally. */
    method CurrentETag() returns (etag: string, failed: bool)
      requires Valid() && s.pc == AfterStat(w, 0)
      modifies this
      ensures Valid() && TagKept() && NoReload() && NoInstall()
      ensures failed ==> s.pc == Idle && s.counts == Observe(old(s.counts), false, true)
      ensures !failed ==> s.pc == Fetching(etag) && s.counts == old(s.counts)
    {
      for i := 0 to |w.Targets()|
        invariant Valid() && TagKept() && NoReload() && NoInstall()
        invariant s.pc == AfterStat(w, i) && s.counts == old(s.counts)
      {
        var info := Stat(w.Targets()[i].path, i);
        if info.StatFailed? {
          return "", true;
        } else if info.NotThere? {
          return "", false;
        } else if Perm(info.mode) != w.Targets()[i].mode {
          return "", false;
        }
      }
      var data := ReadFile(w.EtagPath());
      match data
      case ReadFailed => return "", true;
      case NoFile => return "", false;
      case Contents(text) => return TrimSpace(text), false;
    }

    /** Client.Fetch: the gateway's answer to If-None-Match with `etag`. The reply is of this moment. */
    method Fetch(etag: string) returns (r: FetchResult)
      requires Valid() && s.pc == Fetching(etag)
      modifies this
      ensures Valid() && TagKept() && NoReload() && NoInstall()
      ensures r.FetchFailed? ==> s.pc == Idle && s.counts == Observe(old(s.counts), false, true)
      ensures r.NotModified? ==> s.pc == Idle && s.counts == Observe(old(s.counts), false, false)
      ensures r.Fetched? ==>
        && r.reply < |w.replies| && w.replies[r.reply] == Snapshot(r.tag, r.values)
        && if w.Installable(r.reply) then s.pc == AfterStaging(w, r.reply, []) && s.counts == old(s.counts)
           else s.pc == Idle && s.counts == Observe(old(s.counts), false, true)
    {
      Interfere();
      var ok: bool := *;
      var now := s.now;
      Call(ok, Path("", ""));
      if !ok || now >= |w.replies| || w.replies[now].Refused? {
        return FetchFailed;
      } else if etag != "" && ETags.WeakMatch([etag], w.replies[now].tag) {
        return NotModified;
      } else {
        return Fetched(now, w.replies[now].tag, w.replies[now].values);
      }
    }

    /** os.CreateTemp in the directory of `p`: any unused name of its pattern. */
    method CreateTemp(p: Path) returns (tmp: Option<Path>)
      requires Valid() && ((s.pc.TagCreating? && p == w.EtagPath()) ||
        (s.pc.Creating? && |s.pc.temps| < |w.Targets()| && p == w.Targets()[|s.pc.temps|].path))
      modifies this
      ensures Valid() && TagKept() && NoReload() && NoInstall()
      ensures tmp.Some? ==>
        s.counts == old(s.counts) && Look(s.disk, tmp.value) == Some(File("", 0x180, old(s.pc).ver))
      ensures tmp.Some? ==>
        s.pc == if old(s.pc).Creating? then Filling(old(s.pc).ver, old(s.pc).temps, tmp.value)
                else TagFilling(old(s.pc).ver, tmp.value)
      ensures tmp.None? ==>
        if old(s.pc).Creating? then s.pc == Cleaning(old(s.pc).temps) && s.counts == old(s.counts)
        else s.pc == Idle && s.counts == Observe(old(s.counts), true, true)
    {
      Interfere();
      var ok: bool, t: Path := *, *;
      var created := ok && Fresh(s, p, t);
      Call(ok, t);
      return if created then Some(t) else None;
    }

    /** Chmod, Write and Sync of an open temporary file. */
    method FillTemp(tmp: Path, data: string, mode: nat) returns (ok: bool)
      requires Valid() && Filled(tmp, data, mode)
      modifies this
      ensures Valid() && TagKept() && NoReload() && NoInstall() && s.counts == old(s.counts)
      ensures ok ==> s.pc == if old(s.pc).Filling?
        then AfterStaging(w, old(s.pc).ver, old(s.pc).temps + [tmp])
        else TagRenaming(old(s.pc).ver, tmp)
      ensures !ok ==> s.pc == if old(s.pc).Filling? then Dropping(old(s.pc).temps, tmp) else TagDropping(tmp)
      ensures ok ==>
        Look(s.disk, tmp).Some? && Look(s.disk, tmp).value.content == data && Look(s.disk, tmp).value.mode == mode
    {
      Interfere();
      ok := *;
      Invariant();
      Call(ok, Path("", ""));
    }

    /** What the machine is about to write, where, and with which mode. */
    ghost predicate Filled(tmp: Path, data: string, mode: nat)
      reads this
    {
      match s.pc
      case Filling(ver, temps, t) =>
        t == tmp && |temps| < |w.Targets()| && w.Installable(ver) &&
        data == w.Value(ver, |temps|) && mode == w.Targets()[|temps|].mode
      case TagFilling(ver, t) =>
        t == tmp && ver < |w.replies| && w.replies[ver].Snapshot? && data == w.replies[ver].tag + "\n" && mode == 0x180
      case _ => false
    }

    /** os.Remove of a temporary file; its error is ignored. */
    method RemoveTemp(tmp: Path)
      requires Valid() && match s.pc
        case Dropping(_, t) => t == tmp
        case TagDropping(t) => t == tmp
        case Cleaning(temps) => temps != [] && temps[0] == tmp
        case _ => false
      modifies this
      ensures Valid() && TagKept() && NoReload() && NoInstall()
      ensures old(s.pc).Dropping? ==> s.pc == Cleaning(old(s.pc).temps) && s.counts == old(s.counts)
      ensures old(s.pc).Cleaning? ==> s.pc == Cleaning(old(s.pc).temps[1..]) && s.counts == old(s.counts)
      ensures old(s.pc).TagDropping? ==> s.pc == Idle && s.counts == Observe(old(s.counts), true, true)
    {
      Interfere();
      var ok: bool := *;
      Call(ok, Path("", ""));
    }

    /** writeTemp: a complete temporary file beside `p` with this content and mode, or none. */
    method WriteTemp(p: Path, data: string, mode: nat) returns (tmp: Option<Path>)
      requires Valid()
      requires match s.pc
        case Creating(ver, temps) =>
          |temps| < |w.Targets()| && w.Installable(ver) && p == w.Targets()[|temps|].path &&
          data == w.Value(ver, |temps|) && mode == w.Targets()[|temps|].mode
        case TagCreating(ver) =>
          p == w.EtagPath() && ver < |w.replies| && w.replies[ver].Snapshot? &&
          data == w.replies[ver].tag + "\n" && mode == 0x180
        case _ => false
      modifies this
      ensures Valid() && TagKept() && NoReload() && NoInstall()
      ensures tmp.Some? ==> s.counts == old(s.counts) && s.pc == if old(s.pc).Creating?
        then AfterStaging(w, old(s.pc).ver, old(s.pc).temps + [tmp.value]) else TagRenaming(old(s.pc).ver, tmp.value)
      ensures tmp.None? ==> if old(s.pc).Creating? then s.pc == Cleaning(old(s.pc).temps) && s.counts == old(s.counts)
        else s.pc == Idle && s.counts == Observe(old(s.counts), true, true)
    {
      tmp := CreateTemp(p);
      if tmp.Some? {
        var ok := FillTemp(tmp.value, data, mode);
        if !ok {
          RemoveTemp(tmp.value);
          tmp := None;
        }
      }
    }

    /** os.Rename of a staged file over its target. */
    method RenameTarget(from: Path, to: Path) returns (ok: bool)
      requires Valid() && s.pc.Renaming? && s.pc.i < |s.pc.temps| && s.pc.i < |w.Targets()|
      requires from == s.pc.temps[s.pc.i] && to == w.Targets()[s.pc.i].path
      modifies this
      ensures Valid() && TagKept() && NoReload() && NoInstall() && s.counts == old(s.counts)
      ensures s.pc == if ok then AfterRename(w, old(s.pc).ver, old(s.pc).temps, old(s.pc).i + 1)
                      else Cleaning(old(s.pc).temps[old(s.pc).i..])
      ensures ok ==>
        w.Installable(old(s.pc).ver) && Look(s.disk, to) == Some(w.Copy(old(s.pc).ver, old(s.pc).i))
    {
      Interfere();
      ok := *;
      Invariant();
      Call(ok, Path("", ""));
    }

    /** Sync of an opened directory; its error is ignored. */
    method FlushDir(dir: string)
      requires Valid() && s.pc.Flushing? && s.pc.dirs != [] && dir == s.pc.dirs[0]
      modifies this
      ensures Valid() && TagKept() && NoReload() && NoInstall() && s.counts == old(s.counts)
      ensures s.pc == Flushing(old(s.pc).ver, old(s.pc).dirs[1..])
    {
      Interfere();
      var ok: bool := *;
      Call(ok, Path("", ""));
    }

    /** install returns without an error. */
    method EndInstall()
      requires Valid() && s.pc.Flushing? && s.pc.dirs == []
      modifies this
      ensures Valid() && TagKept() && NoReload() && s.counts == old(s.counts) && s.pc == Stamping(old(s.pc).ver)
      ensures s.installs == old(s.installs) + 1
    {
      Interfere();
      Call(true, Path("", ""));
    }

    /** The deferred clean-up of install: every name still listed was not renamed. */
    method RemoveAll(temps: seq<Option<Path>>, ghost staged: seq<Path>, ghost done: nat)
      requires Valid() && done <= |staged| == |temps| && s.pc == Cleaning(staged[done..])
      requires forall k :: 0 <= k < |temps| ==> temps[k] == if k < done then None else Some(staged[k])
      modifies this
      ensures Valid() && TagKept() && NoReload() && NoInstall()
      ensures s.pc == Idle && s.counts == Observe(old(s.counts), false, true)
    {
      for k := 0 to |temps|
        invariant Valid() && TagKept() && NoReload() && NoInstall() && s.counts == old(s.counts)
        invariant s.pc == Cleaning(staged[if k < done then done else k..])
      {
        if temps[k].Some? {
          RemoveTemp(temps[k].value);
        }
      }
      Interfere();
      var ok: bool := *;
      Call(ok, Path("", ""));
    }

    /** The first loop of install: a complete temporary file for every target, or none at all. */
    method StageAll(files: seq<Target>, values: map<string, string>, ghost ver: nat)
      returns (ok: bool, temps: seq<Option<Path>>, ghost staged: seq<Path>)
      requires Valid() && w.Installable(ver) && s.pc == AfterStaging(w, ver, [])
      requires files == w.Targets() && values == w.replies[ver].values
      modifies this
      ensures Valid() && TagKept() && NoReload() && NoInstall()
      ensures ok ==> |temps| == |staged| == |files| && forall m :: 0 <= m < |files| ==> temps[m] == Some(staged[m])
      ensures ok ==> s.pc == AfterRename(w, ver, staged, 0) && s.counts == old(s.counts)
      ensures !ok ==> s.pc == Idle && s.counts == Observe(old(s.counts), false, true)
    {
      temps, staged := [], [];
      for k := 0 to |files|
        invariant Valid() && TagKept() && NoReload() && NoInstall() && s.counts == old(s.counts)
        invariant |temps| == |staged| == k && s.pc == AfterStaging(w, ver, staged)
        invariant forall m :: 0 <= m < k ==> temps[m] == Some(staged[m])
      {
        var tmp := WriteTemp(files[k].path, values[files[k].key], files[k].mode);
        if tmp.None? {
          assert staged[0..] == staged;
          RemoveAll(temps, staged, 0);
          return false, temps, staged;
        }
        temps, staged := temps + [tmp], staged + [tmp.value];
      }
      ok := true;
    }

    /** The second loop of install: rename in order; a name that was renamed is blanked. */
    method RenameAll(files: seq<Target>, names: seq<Option<Path>>, ghost staged: seq<Path>, ghost ver: nat)
      returns (ok: bool)
      requires Valid() && files == w.Targets() && s.pc == AfterRename(w, ver, staged, 0)
      requires |names| == |staged| == |files| && forall m :: 0 <= m < |files| ==> names[m] == Some(staged[m])
      modifies this
      ensures Valid() && TagKept() && NoReload() && NoInstall()
      ensures ok ==> s.pc == Flushing(ver, Dirs(files)) && s.counts == old(s.counts)
      ensures !ok ==> s.pc == Idle && s.counts == Observe(old(s.counts), false, true)
    {
      var temps := names;
      for i := 0 to |files|
        invariant Valid() && TagKept() && NoReload() && NoInstall() && s.counts == old(s.counts)
        invariant |temps| == |files| && s.pc == AfterRename(w, ver, staged, i)
        invariant forall m :: 0 <= m < |temps| ==> temps[m] == if m < i then None else Some(staged[m])
      {
        var renamed := RenameTarget(temps[i].value, files[i].path);
        if !renamed {
          RemoveAll(temps, staged, i);
          return false;
        }
        temps := temps[i := None];
      }
      ok := true;
    }

    /** install: stage every target, then rename them in order, then flush their directories. */
    method Install(files: seq<Target>, values: map<string, string>, ghost ver: nat) returns (ok: bool)
      requires Valid() && w.Installable(ver) && s.pc == AfterStaging(w, ver, [])
      requires files == w.Targets() && values == w.replies[ver].values
      modifies this
      ensures Valid() && TagKept() && NoReload()
      ensures ok ==> s.pc == Stamping(ver) && s.counts == old(s.counts) && s.installs == old(s.installs) + 1
      ensures !ok ==> NoInstall() && s.pc == Idle && s.counts == Observe(old(s.counts), false, true)
    {
      var temps;
      ghost var staged;
      ok, temps, staged := StageAll(files, values, ver);
      if !ok {
        return false;
      }
      ok := RenameAll(files, temps, staged, ver);
      if !ok {
        return false;
      }
      var dirs := Dirs(files);
      for d := 0 to |dirs|
        invariant Valid() && TagKept() && NoReload() && NoInstall() && s.counts == old(s.counts)
        invariant s.pc == Flushing(ver, dirs[d..])
      {
        FlushDir(dirs[d]);
      }
      EndInstall();
      return true;
    }

    /** touchStamp. */
    method TouchStamp(path: Path) returns (ok: bool)
      requires Valid() && s.pc.Stamping? && path == w.StampPath()
      modifies this
      ensures Valid() && TagKept() && NoInstall() && s.reloads == old(s.reloads) && s.runs == old(s.runs)
      ensures s.stamps == old(s.stamps) + if ok then 1 else 0
      ensures ok ==> s.counts == old(s.counts) && Look(s.disk, path) == Some(Stamp(s.stamps, old(s.pc).ver))
      ensures ok ==>
        s.pc == if |w.exposure.command| > 0 then Commanding(old(s.pc).ver) else TagCreating(old(s.pc).ver)
      ensures !ok ==> s.pc == Idle && s.counts == Observe(old(s.counts), true, true)
    {
      Interfere();
      ok := *;
      Call(ok, Path("", ""));
    }

    /** runCommand. */
    method RunCommand(command: seq<string>) returns (ok: bool)
      requires Valid() && s.pc.Commanding? && command == w.exposure.command
      modifies this
      ensures Valid() && TagKept() && NoInstall() && s.stamps == old(s.stamps)
      ensures ok ==> s.pc == TagCreating(old(s.pc).ver) && s.counts == old(s.counts)
      ensures ok ==> old(s.pc).ver in s.reloads && s.runs == old(s.runs) + 1
      ensures !ok ==> s.pc == Idle && s.counts == Observe(old(s.counts), true, true) && s.runs == old(s.runs)
    {
      Interfere();
      ok := *;
      Call(ok, Path("", ""));
    }

    /** Every step but the last. */
    ghost function Earlier(): seq<Label>
      reads this
    {
      if trace == [] then [] else trace[..|trace| - 1]
    }

    /** The state right after a commit: the tag of `ver` is stored and no target holds anything else. */
    ghost predicate Committed(ver: nat)
      reads this
    {
      && w.Installable(ver) && ver <= s.now
      && Look(s.disk, w.EtagPath()) == Some(File(w.replies[ver].tag + "\n", 0x180, ver))
      && (forall i: nat :: i < |w.Targets()| && Look(s.disk, w.Targets()[i].path).Some? ==>
           Look(s.disk, w.Targets()[i].path).value.content == w.Value(ver, i))
    }

    /** And a target is missing only if it was deleted after it was renamed. */
    ghost predicate NoneLost()
      reads this
    {
      forall i: nat, k: nat :: i < |w.Targets()| && k <= |Earlier()| && Undisturbed(w, Earlier(), k, i) ==>
        Look(s.disk, w.Targets()[i].path).Some?
    }

    /** And the stamp is what its last write left, of the same reply. */
    ghost predicate StampOf(ver: nat)
      reads this
    {
      Look(s.disk, w.StampPath()) == Some(Stamp(s.stamps, ver))
    }

    /** os.Rename of the staged tag: the commit. */
    method RenameTag(from: Path, to: Path) returns (ok: bool)
      requires Valid() && s.pc.TagRenaming? && from == s.pc.tmp && to == w.EtagPath()
      modifies this
      ensures Valid() && old(trace) <= trace && NoReload() && NoInstall()
      ensures ok ==> s.pc == Idle && Committed(old(s.pc).ver) && NoneLost() && StampOf(old(s.pc).ver)
      ensures ok ==> s.commits == old(s.commits) + 1 && s.counts == Observe(old(s.counts), true, false)
      ensures !ok ==> TagKept() && s.pc == TagDropping(from) && s.counts == old(s.counts)
    {
      Interfere();
      ok := *;
      Invariant();
      CommitInstallsOneSnapshot(w, trace, SyncProtocol.Call(true, Path("", "")));
      ChangesAreStamped(w, trace, SyncProtocol.Call(true, Path("", "")), 0);
      ghost var before := trace;
      Call(ok, Path("", ""));
      assert Earlier() == before;
    }

    /** writeFile of the stored tag. */
    method WriteFile(path: Path, data: string, mode: nat, ghost ver: nat) returns (ok: bool)
      requires Valid() && s.pc == TagCreating(ver) && path == w.EtagPath() && mode == 0x180
      requires ver < |w.replies| && w.replies[ver].Snapshot? && data == w.replies[ver].tag + "\n"
      modifies this
      ensures Valid() && s.pc == Idle && old(trace) <= trace && NoReload() && NoInstall()
      ensures ok ==> NoneLost() && StampOf(ver)
      ensures ok ==>
        Committed(ver) && s.commits == old(s.commits) + 1 && s.counts == Observe(old(s.counts), true, false)
      ensures !ok ==> TagKept() && s.counts == Observe(old(s.counts), true, true)
    {
      var tmp := WriteTemp(path, data, mode);
      if tmp.None? {
        return false;
      }
      ok := RenameTag(tmp.value, path);
      if !ok {
        RemoveTemp(tmp.value);
      }
    }

    /** After the targets are in place: the stamp, the change command, and last the tag. */
    method Finish(etag: string, ghost ver: nat) returns (ok: bool)
      requires Valid() && s.pc == Stamping(ver) && w.Installable(ver) && etag == w.replies[ver].tag
      modifies this
      ensures Valid() && s.pc == Idle && old(trace) <= trace
      ensures s.counts == Observe(old(s.counts), true, !ok)
      ensures NoInstall() && s.stamps <= old(s.stamps) + 1
      ensures ok ==> Committed(ver) && NoneLost() && s.commits == old(s.commits) + 1
      ensures ok ==> StampOf(ver) && s.stamps == old(s.stamps) + 1
      ensures ok && |w.exposure.command| > 0 ==> ver in s.reloads && s.runs == old(s.runs) + 1
      ensures !ok ==> TagKept()
    {
      var stamped := TouchStamp(w.StampPath());
      if !stamped {
        return false;
      }
      if |w.exposure.command| > 0 {
        var ran := RunCommand(w.exposure.command);
        if !ran {
          return false;
        }
      }
      ok := WriteFile(w.EtagPath(), etag + "\n", 0x180, ver);
    }

    /** The part of Sync after a fetch that brought a snapshot. */
    method Update(result: FetchResult) returns (changed: bool, failed: bool)
      requires Valid() && result.Fetched? && result.reply < |w.replies|
      requires w.replies[result.reply] == Snapshot(result.tag, result.values)
      requires w.Installable(result.reply) ==> s.pc == AfterStaging(w, result.reply, [])
      requires !w.Installable(result.reply) ==> s.pc == Idle
      modifies this
      ensures Valid() && s.pc == Idle && old(trace) <= trace
      ensures s.counts == if w.Installable(result.reply) then Observe(old(s.counts), changed, failed) else old(s.counts)
      ensures !w.Installable(result.reply) ==> !changed && failed
      ensures changed && !failed ==> Committed(result.reply) && NoneLost() && s.commits == old(s.commits) + 1
      ensures changed && !failed && |w.exposure.command| > 0 ==> result.reply in s.reloads && s.runs == old(s.runs) + 1
      ensures changed && !failed ==> StampOf(result.reply) && s.stamps == old(s.stamps) + 1
      ensures !(changed && !failed) ==> TagKept()
      ensures s.installs == old(s.installs) + if changed then 1 else 0
      ensures !changed ==> NoReload()
    {
      var missing := MissingKeys(w.Targets(), result.values);
      if |missing| > 0 {
        return false, true;
      }
      var installed := Install(w.Targets(), result.values, result.reply);
      if !installed {
        return false, true;
      }
      var finished := Finish(result.tag, result.reply);
      return true, !finished;
    }

    /** Sync. It reports (true, no error) exactly when it has stored the tag of one reply over that reply's values,
        written the stamp for it and run the change command on it, each once; a target is then missing only if it was
        deleted during this very Sync. Every other outcome leaves the stored tag alone. It reports a change exactly when
        it has renamed all targets. Every attempt is counted once, with the outcome it returns. */
    method Sync() returns (changed: bool, failed: bool, ghost ver: nat)
      requires Valid() && s.pc == Idle
      modifies this
      ensures Valid() && s.pc == Idle && old(trace) <= trace
      ensures s.counts == Observe(old(s.counts), changed, failed)
      ensures changed && !failed ==> Committed(ver) && s.commits == old(s.commits) + 1
      ensures changed && !failed && |w.exposure.command| > 0 ==> ver in s.reloads && s.runs == old(s.runs) + 1
      ensures changed && !failed ==>
        forall i: nat :: i < |w.Targets()| && Delete(i) !in trace[|old(trace)|..] ==>
          Look(s.disk, w.Targets()[i].path).Some?
      ensures changed && !failed ==> StampOf(ver) && s.stamps == old(s.stamps) + 1
      ensures !(changed && !failed) ==> TagKept()
      ensures s.installs == old(s.installs) + if changed then 1 else 0
      ensures !changed ==> NoReload()
    {
      ver := 0;
      Interfere();
      var resolved: bool := *;
      Call(resolved, Path("", ""));
      if !resolved {
        return false, true, ver;
      }
      var etag, statFailed := CurrentETag();
      if statFailed {
        return false, true, ver;
      }
      var result := Fetch(etag);
      match result {
        case NotModified => return false, false, ver;
        case FetchFailed => return false, true, ver;
        case Fetched(_, _, _) =>
      }
      ver := result.reply;
      changed, failed := Update(result);
      if changed && !failed {
        NoneMissing(old(trace));
      }
    }

    /** A Sync that began after `before` leaves every target that nobody deleted since. */
    lemma NoneMissing(before: seq<Label>)
      requires NoneLost() && before <= trace && |before| < |trace| && Run(w, Init(w), before).pc == Idle
      ensures forall i: nat :: i < |w.Targets()| && Delete(i) !in trace[|before|..] ==>
        Look(s.disk, w.Targets()[i].path).Some?
    {
      var all, k := Earlier(), |before|;
      assert all[..k] == before;
      assert forall l :: l in all[k..] ==> l in trace[k..];
      forall i: nat | i < |w.Targets()| && Delete(i) !in trace[k..] ensures Look(s.disk, w.Targets()[i].path).Some? {
        assert Undisturbed(w, all, k, i);
      }
    }
  }
}
