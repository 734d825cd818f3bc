/** Runs that show the premises of SyncTheorems to be necessary. They are built for every world, not for
    one example. */
module SyncWitness {
  import opened Text
  import opened Disk
  import opened SyncProtocol
  import opened SyncInvariant
  import opened SyncSteps
  import opened SyncTheorems
  import ETags

  function TempOf(p: Path): (t: Path)
    ensures IsTempFor(p, t)
  {
    var pattern := "." + p.base + ".tmp";
    var t := Path(p.dir, pattern + "0");
    assert t.base[..|pattern|] == pattern && t.base[|pattern|..] == "0";
    t
  }

  lemma TempOfInjective(p: Path, q: Path)
    requires TempOf(p) == TempOf(q)
    ensures p == q
  {
    var b, c := TempOf(p).base, TempOf(q).base;
    assert |p.base| == |q.base|;
    assert b[1..1 + |p.base|] == p.base && c[1..1 + |q.base|] == q.base;
  }

  function Temps(w: World, n: nat): seq<Path>
    requires n <= |w.Targets()|
  {
    seq(n, i requires 0 <= i < n => TempOf(w.Targets()[i].path))
  }

  /** The temporary names this construction uses are free. */
  predicate Tidy(w: World, d: Disk) {
    Look(d, TempOf(w.EtagPath())).None? &&
    forall i: nat :: i < |w.Targets()| ==> Look(d, TempOf(w.Targets()[i].path)).None?
  }

  /** The names used are distinct and none is an owned file. */
  ghost predicate Separate(w: World) {
    && (forall i: nat, j: nat :: i < j < |w.Targets()| ==> TempOf(w.Targets()[i].path) != TempOf(w.Targets()[j].path))
    && (forall i: nat :: i < |w.Targets()| ==>
          !w.Owns(TempOf(w.Targets()[i].path)) && TempOf(w.Targets()[i].path) != TempOf(w.EtagPath()))
    && !w.Owns(TempOf(w.EtagPath()))
    && (forall i: nat :: i < |w.Targets()| ==> w.Owns(w.Targets()[i].path) && w.IsTargetPath(w.Targets()[i].path))
    && w.Owns(w.EtagPath()) && w.Owns(w.StampPath())
  }

  lemma NamesAreSeparate(w: World)
    requires w.WellFormed()
    ensures Separate(w)
  {
    TempsAreUnowned(w);
    forall i: nat, j: nat | i < j < |w.Targets()|
      ensures TempOf(w.Targets()[i].path) != TempOf(w.Targets()[j].path)
    {
      if TempOf(w.Targets()[i].path) == TempOf(w.Targets()[j].path) {
        TempOfInjective(w.Targets()[i].path, w.Targets()[j].path);
      }
    }
    forall i: nat | i < |w.Targets()|
      ensures w.IsTargetPath(w.Targets()[i].path) && TempOf(w.Targets()[i].path) != TempOf(w.EtagPath())
    {
      assert w.IsTargetPath(w.Targets()[i].path);
      if TempOf(w.Targets()[i].path) == TempOf(w.EtagPath()) {
        TempOfInjective(w.Targets()[i].path, w.EtagPath());
      }
    }
  }

  /** The owned files read the same, and everything a power loss could leave it still can. */
  ghost predicate OwnedKept(w: World, d: Disk, e: Disk) {
    forall p :: w.Owns(p) ==> Look(e, p) == Look(d, p) && May(d, p) <= May(e, p)
  }

  /** A Sync gets as far as its first staged file: target 0 was deleted, so it fetches unconditionally. */
  lemma Begin(w: World, s: State) returns (ls: seq<Label>, r: State)
    requires w.WellFormed() && s.pc == Idle && w.Installable(s.now)
    ensures r == Run(w, s, ls) && r == s.(disk := Remove(s.disk, w.Targets()[0].path), pc := Creating(s.now, []))
  {
    var call := Call(true, Path("", ""));
    ls := [Delete(0), call, call, call];
    var s1 := Next(w, s, Delete(0));
    var s2 := Next(w, s1, call);
    assert !Intact(w, s2.disk, 0);
    var s3 := Next(w, s2, call);
    r := Next(w, s3, call);
    RunTwo(w, s, Delete(0), call);
    RunTwo(w, s2, call, call);
    RunConcat(w, s, [Delete(0), call], [call, call]);
    assert ls == [Delete(0), call] + [call, call];
  }

  /** Staging the remaining targets. */
  lemma {:induction false} Stage(w: World, s: State, v: nat, k: nat) returns (ls: seq<Label>, r: State)
    requires Separate(w) && k < |w.Targets()| && w.Installable(v) && s.pc == Creating(v, Temps(w, k))
    requires forall i: nat :: i < k ==> Look(s.disk, TempOf(w.Targets()[i].path)) == Some(w.Copy(v, i))
    requires forall i: nat :: k <= i < |w.Targets()| ==> Look(s.disk, TempOf(w.Targets()[i].path)).None?
    ensures r == Run(w, s, ls) && r == s.(disk := r.disk, pc := Renaming(v, Temps(w, |w.Targets()|), 0))
    ensures OwnedKept(w, s.disk, r.disk)
    ensures Look(r.disk, TempOf(w.EtagPath())) == Look(s.disk, TempOf(w.EtagPath()))
    ensures forall i: nat :: i < |w.Targets()| ==> Look(r.disk, TempOf(w.Targets()[i].path)) == Some(w.Copy(v, i))
    decreases |w.Targets()| - k
  {
    var T := w.Targets();
    var t := TempOf(T[k].path);
    var call := Call(true, t);
    var s1 := Next(w, s, call);
    assert s1 == s.(disk := Put(s.disk, t, File("", 0x180, v)), pc := Filling(v, Temps(w, k), t));
    var s2 := Next(w, s1, call);
    assert Temps(w, k) + [t] == Temps(w, k + 1);
    assert s2 == s.(disk := Put(s1.disk, t, w.Copy(v, k)), pc := AfterStaging(w, v, Temps(w, k + 1)));
    assert OwnedKept(w, s.disk, s2.disk);
    RunTwo(w, s, call, call);
    if k + 1 < |T| {
      var rest: seq<Label>;
      rest, r := Stage(w, s2, v, k + 1);
      ls := [call, call] + rest;
      RunConcat(w, s, [call, call], rest);
    } else {
      ls, r := [call, call], s2;
    }
  }

  /** Renaming targets `i` up to `n`. */
  lemma {:induction false} RenameUpTo(w: World, s: State, v: nat, i: nat, n: nat) returns (ls: seq<Label>, r: State)
    requires Separate(w) && w.WellFormed() && i <= n <= |w.Targets()| && w.Installable(v)
    requires s.pc == AfterRename(w, v, Temps(w, |w.Targets()|), i)
    requires forall k: nat :: i <= k < |w.Targets()| ==> Look(s.disk, TempOf(w.Targets()[k].path)) == Some(w.Copy(v, k))
    ensures r == Run(w, s, ls)
    ensures r == s.(disk := r.disk, pc := AfterRename(w, v, Temps(w, |w.Targets()|), n),
                    owed := if i < n then Some(v) else s.owed)
    ensures forall k: nat :: i <= k < n ==>
      Look(r.disk, w.Targets()[k].path) == Some(w.Copy(v, k)) && Look(r.disk, TempOf(w.Targets()[k].path)).None?
    ensures forall k: nat :: k < |w.Targets()| && !(i <= k < n) ==>
      Look(r.disk, w.Targets()[k].path) == Look(s.disk, w.Targets()[k].path) &&
      Look(r.disk, TempOf(w.Targets()[k].path)) == Look(s.disk, TempOf(w.Targets()[k].path))
    ensures Look(r.disk, w.EtagPath()) == Look(s.disk, w.EtagPath())
    ensures Look(r.disk, TempOf(w.EtagPath())) == Look(s.disk, TempOf(w.EtagPath()))
    ensures forall k: nat :: k < |w.Targets()| ==> May(s.disk, w.Targets()[k].path) <= May(r.disk, w.Targets()[k].path)
    decreases n - i
  {
    if i == n {
      ls, r := [], s;
    } else {
      var T := w.Targets();
      var call := Call(true, Path("", ""));
      var s1 := Next(w, s, call);
      var t, p := TempOf(T[i].path), T[i].path;
      assert Temps(w, |T|)[i] == t;
      assert s1 == s.(disk := Rename(s.disk, t, p), pc := AfterRename(w, v, Temps(w, |T|), i + 1), owed := Some(v));
      OneRenamed(w, s.disk, i);
      var rest: seq<Label>;
      rest, r := RenameUpTo(w, s1, v, i + 1, n);
      ls := [call] + rest;
    }
  }

  /** Renaming the staged file of target `i` touches that target and that name only. */
  lemma OneRenamed(w: World, d: Disk, i: nat)
    requires Separate(w) && w.WellFormed() && i < |w.Targets()| && Look(d, TempOf(w.Targets()[i].path)).Some?
    ensures var T := w.Targets(); var t, p := TempOf(T[i].path), T[i].path; var e := Rename(d, t, p);
      && Look(e, p) == Look(d, t) && Look(e, t).None?
      && (forall k: nat :: k < |T| && k != i ==>
            Look(e, T[k].path) == Look(d, T[k].path) && Look(e, TempOf(T[k].path)) == Look(d, TempOf(T[k].path)))
      && Look(e, w.EtagPath()) == Look(d, w.EtagPath())
      && Look(e, TempOf(w.EtagPath())) == Look(d, TempOf(w.EtagPath()))
      && (forall k: nat :: k < |T| ==> May(d, T[k].path) <= May(e, T[k].path))
  {
    var T := w.Targets();
    var t, p := TempOf(T[i].path), T[i].path;
    assert w.Owns(p) && t != p;
    LookAfterRename(d, t, p, p);
    LookAfterRename(d, t, p, t);
    LookAfterRename(d, t, p, w.EtagPath());
    LookAfterRename(d, t, p, TempOf(w.EtagPath()));
    forall k: nat | k < |T| && k != i
      ensures Look(Rename(d, t, p), T[k].path) == Look(d, T[k].path)
      ensures Look(Rename(d, t, p), TempOf(T[k].path)) == Look(d, TempOf(T[k].path))
    {
      assert T[k].path != p && TempOf(T[k].path) != t && w.Owns(T[k].path);
      LookAfterRename(d, t, p, T[k].path);
      LookAfterRename(d, t, p, TempOf(T[k].path));
    }
  }

  /** Flushing every directory, or failing to. */
  lemma {:induction false} FlushAll(w: World, s: State, v: nat, dirs: seq<string>, ok: bool)
    returns (ls: seq<Label>, r: State)
    requires s.pc == Flushing(v, dirs) && (!ok ==> w.flushFails)
    ensures r == Run(w, s, ls) && r == s.(disk := r.disk, pc := Stamping(v), installs := s.installs + 1)
    ensures forall p :: Look(r.disk, p) == Look(s.disk, p)
    ensures !ok ==> r.disk == s.disk
    decreases |dirs|
  {
    var call := Call(ok, Path("", ""));
    var s1 := Next(w, s, call);
    if dirs == [] {
      ls, r := [call], s1;
      assert ls[1..] == [];
    } else {
      var rest: seq<Label>;
      rest, r := FlushAll(w, s1, v, dirs[1..], ok);
      ls := [call] + rest;
    }
  }

  /** Touching the stamp and, if there is one, running the command. */
  lemma StampAndRun(w: World, s: State, v: nat) returns (ls: seq<Label>, r: State)
    requires s.pc == Stamping(v)
    ensures r == Run(w, s, ls) && r.pc == TagCreating(v) && r.now == s.now && r.counts == s.counts
    ensures forall p :: p != w.StampPath() ==> Look(r.disk, p) == Look(s.disk, p) && May(r.disk, p) == May(s.disk, p)
  {
    var call := Call(true, Path("", ""));
    var s1 := Next(w, s, call);
    if s1.pc.Commanding? {
      RunTwo(w, s, call, call);
      ls, r := [call, call], Next(w, s1, call);
    } else {
      RunOne(w, s, call);
      ls, r := [call], s1;
    }
  }

  /** From a touched stamp to the written tag. */
  lemma WriteTag(w: World, s: State, v: nat) returns (ls: seq<Label>, r: State)
    requires Separate(w) && w.WellFormed() && w.Installable(v) && s.pc == TagCreating(v)
    requires Look(s.disk, TempOf(w.EtagPath())).None?
    ensures r == Run(w, s, ls) && r.pc == Idle && r.now == s.now && r.owed == None
    ensures r.counts == Return(s, true, false).counts
    ensures Look(r.disk, w.EtagPath()) == Some(File(w.replies[v].tag + "\n", 0x180, v))
    ensures Look(r.disk, TempOf(w.EtagPath())).None?
    ensures forall p :: p != w.EtagPath() && p != TempOf(w.EtagPath()) ==>
      Look(r.disk, p) == Look(s.disk, p) && May(r.disk, p) == May(s.disk, p)
  {
    var t := TempOf(w.EtagPath());
    var call := Call(true, t);
    ls := [call, call, call];
    var s1 := Next(w, s, call);
    var s2 := Next(w, s1, call);
    r := Next(w, s2, call);
    assert ls[1..] == [call, call];
    RunTwo(w, s1, call, call);
  }

  /** A complete Sync of the reply being served, whose directory flushes succeed if `flushed`. */
  lemma FullSync(w: World, s: State, flushed: bool) returns (ls: seq<Label>, r: State)
    requires w.WellFormed() && s.pc == Idle && w.Installable(s.now) && Tidy(w, s.disk) && (!flushed ==> w.flushFails)
    ensures r == Run(w, s, ls) && r.pc == Idle && r.now == s.now && Tidy(w, r.disk) && r.owed == None
    ensures r.counts == Return(s, true, false).counts
    ensures forall i: nat :: i < |w.Targets()| ==> Look(r.disk, w.Targets()[i].path) == Some(w.Copy(s.now, i))
    ensures Look(r.disk, w.EtagPath()) == Some(File(w.replies[s.now].tag + "\n", 0x180, s.now))
    ensures !flushed ==> forall i: nat :: i < |w.Targets()| ==>
      May(s.disk, w.Targets()[i].path) <= May(r.disk, w.Targets()[i].path)
  {
    NamesAreSeparate(w);
    var l1, s1 := UpToRenames(w, s, |w.Targets()|);
    var l2, s2 := FlushAll(w, s1, s.now, Dirs(w.Targets()), flushed);
    var l3, s3 := StampAndRun(w, s2, s.now);
    assert Look(s3.disk, TempOf(w.EtagPath())) == Look(s2.disk, TempOf(w.EtagPath()));
    var l4, s4 := WriteTag(w, s3, s.now);
    RunConcat(w, s, l1, l2);
    RunConcat(w, s, l1 + l2, l3);
    RunConcat(w, s, l1 + l2 + l3, l4);
    ls, r := l1 + l2 + l3 + l4, s4;
    TargetsUntouched(w, s1.disk, s2.disk, s3.disk, s4.disk);
  }

  /** Flushing, stamping and writing the tag leave the targets and the staging names as they are. */
  lemma TargetsUntouched(w: World, d1: Disk, d2: Disk, d3: Disk, d4: Disk)
    requires Separate(w) && w.WellFormed()
    requires forall p :: Look(d2, p) == Look(d1, p)
    requires forall p :: p != w.StampPath() ==> Look(d3, p) == Look(d2, p) && May(d3, p) == May(d2, p)
    requires forall p :: p != w.EtagPath() && p != TempOf(w.EtagPath()) ==>
      Look(d4, p) == Look(d3, p) && May(d4, p) == May(d3, p)
    ensures forall i: nat :: i < |w.Targets()| ==>
      Look(d4, w.Targets()[i].path) == Look(d1, w.Targets()[i].path) &&
      May(d4, w.Targets()[i].path) == May(d2, w.Targets()[i].path) &&
      Look(d4, TempOf(w.Targets()[i].path)) == Look(d1, TempOf(w.Targets()[i].path))
  {
    forall i: nat | i < |w.Targets()|
      ensures Look(d4, w.Targets()[i].path) == Look(d1, w.Targets()[i].path)
      ensures May(d4, w.Targets()[i].path) == May(d2, w.Targets()[i].path)
      ensures Look(d4, TempOf(w.Targets()[i].path)) == Look(d1, TempOf(w.Targets()[i].path))
    {
      var p, t := w.Targets()[i].path, TempOf(w.Targets()[i].path);
      assert w.IsTargetPath(p) && !w.Owns(t);
      assert p != w.StampPath() && p != w.EtagPath() && p != TempOf(w.EtagPath());
      assert t != w.StampPath() && t != w.EtagPath() && t != TempOf(w.EtagPath());
    }
  }

  /** A Sync of the reply being served, stopped after `n` renames. */
  lemma UpToRenames(w: World, s: State, n: nat) returns (ls: seq<Label>, r: State)
    requires w.WellFormed() && s.pc == Idle && w.Installable(s.now) && Tidy(w, s.disk) && 0 < n <= |w.Targets()|
    ensures r == Run(w, s, ls) && r.pc == AfterRename(w, s.now, Temps(w, |w.Targets()|), n)
    ensures r.now == s.now && r.owed == Some(s.now) && r.counts == s.counts
    ensures forall i: nat :: i < |w.Targets()| ==>
      Look(r.disk, w.Targets()[i].path) == if i < n then Some(w.Copy(s.now, i)) else Look(s.disk, w.Targets()[i].path)
    ensures Look(r.disk, w.EtagPath()) == Look(s.disk, w.EtagPath())
    ensures Look(r.disk, TempOf(w.EtagPath())).None?
    ensures n == |w.Targets()| ==> Tidy(w, r.disk)
    ensures forall i: nat :: i < |w.Targets()| ==> May(s.disk, w.Targets()[i].path) <= May(r.disk, w.Targets()[i].path)
  {
    NamesAreSeparate(w);
    var T := w.Targets();
    var l1, s1 := Begin(w, s);
    assert Temps(w, 0) == [];
    StillTidy(w, s.disk);
    var l2, s2 := Stage(w, s1, s.now, 0);
    var l3, s3 := RenameUpTo(w, s2, s.now, 0, n);
    RunConcat(w, s, l1, l2);
    RunConcat(w, s, l1 + l2, l3);
    ls, r := l1 + l2 + l3, s3;
    OthersAsBefore(w, s.disk, s2.disk, s3.disk, n);
  }

  /** Deleting a target leaves the names for staging free. */
  lemma StillTidy(w: World, d: Disk)
    requires Separate(w) && Tidy(w, d) && |w.Targets()| > 0
    ensures Tidy(w, Remove(d, w.Targets()[0].path))
    ensures Look(Remove(d, w.Targets()[0].path), w.EtagPath()) == Look(d, w.EtagPath()) || w.IsTargetPath(w.EtagPath())
  {
  }

  /** What was not renamed, and the tag, read as before target 0 was deleted and the others were staged. */
  lemma OthersAsBefore(w: World, d0: Disk, d2: Disk, d3: Disk, n: nat)
    requires Separate(w) && w.WellFormed() && 0 < n <= |w.Targets()|
    requires OwnedKept(w, Remove(d0, w.Targets()[0].path), d2)
    requires forall k: nat :: n <= k < |w.Targets()| ==> Look(d3, w.Targets()[k].path) == Look(d2, w.Targets()[k].path)
    requires Look(d3, w.EtagPath()) == Look(d2, w.EtagPath())
    requires forall k: nat :: k < |w.Targets()| ==> May(d2, w.Targets()[k].path) <= May(d3, w.Targets()[k].path)
    ensures forall k: nat :: n <= k < |w.Targets()| ==> Look(d3, w.Targets()[k].path) == Look(d0, w.Targets()[k].path)
    ensures Look(d3, w.EtagPath()) == Look(d0, w.EtagPath())
    ensures forall k: nat :: k < |w.Targets()| ==> May(d0, w.Targets()[k].path) <= May(d3, w.Targets()[k].path)
  {
    var T := w.Targets();
    forall k: nat | k < |T|
      ensures k > 0 ==> Look(d2, T[k].path) == Look(d0, T[k].path)
      ensures May(d0, T[k].path) <= May(d2, T[k].path)
    {
      assert w.Owns(T[k].path);
      assert k > 0 ==> T[k].path != T[0].path;
    }
    assert w.IsTargetPath(T[0].path);
  }

  lemma {:induction false} AdvanceTo(w: World, s: State, k: nat) returns (ls: seq<Label>, r: State)
    requires s.now <= k < |w.replies|
    ensures r == Run(w, s, ls) && r == s.(now := k)
    decreases k - s.now
  {
    if s.now == k {
      ls, r := [], s;
    } else {
      var rest: seq<Label>;
      rest, r := AdvanceTo(w, Next(w, s, Advance), k);
      ls := [Advance] + rest;
    }
  }

  /** What CommitTheorem promises of a world. */
  ghost predicate NeverMisled(w: World) {
    forall labels :: var s := Run(w, Init(w), labels); Trusted(w, s) ==> UpToDate(w, s)
  }

  lemma Chain(w: World, o: State, a: seq<Label>, s: State, b: seq<Label>)
    requires s == Run(w, o, a)
    ensures Run(w, o, a + b) == Run(w, s, b)
  {
    RunConcat(w, o, a, b);
  }

  /** If other target values were ever served between two replies with one tag, then installing the first,
      being stopped while installing the second, and polling at the third leaves mixed files for good. */
  lemma RelapseMisleads(w: World, i: nat, j: nat, k: nat) returns (labels: seq<Label>)
    requires w.WellFormed() && GoodReplies(w) && !SameBetween(w, i, j, k)
    ensures var s := Run(w, Init(w), labels); Trusted(w, s) && !UpToDate(w, s)
  {
    var T := w.Targets();
    var x: nat :| x < |T| && w.Value(i, x) != w.Value(j, x);
    assert SameTag(w, i, k);
    var l1, s1 := AdvanceTo(w, Init(w), i);
    var l2, s2 := FullSync(w, s1, true);
    var l3, s3 := AdvanceTo(w, s2, j);
    var l4, s4 := UpToRenames(w, s3, x + 1);
    var s5 := Next(w, s4, Crash);
    RunOne(w, s4, Crash);
    var l6, s6 := AdvanceTo(w, s5, k);
    Chain(w, Init(w), l1, s1, l2);
    Chain(w, Init(w), l1 + l2, s2, l3);
    Chain(w, Init(w), l1 + l2 + l3, s3, l4);
    Chain(w, Init(w), l1 + l2 + l3 + l4, s4, [Crash]);
    Chain(w, Init(w), l1 + l2 + l3 + l4 + [Crash], s5, l6);
    labels := l1 + l2 + l3 + l4 + [Crash] + l6;
    MixedIsTrusted(w, s6, i, j, x);
  }

  /** The tag of `i` over targets of `i` and `j`, while that tag is served: trusted, and wrong at target `x`. */
  lemma MixedIsTrusted(w: World, s: State, i: nat, j: nat, x: nat)
    requires w.WellFormed() && GoodReplies(w) && w.Installable(i) && w.Installable(j) && SameTag(w, i, s.now)
    requires x < |w.Targets()| && w.Value(i, x) != w.Value(j, x)
    requires forall m: nat :: m < |w.Targets()| ==>
      Look(s.disk, w.Targets()[m].path) == Some(w.Copy(if m <= x then j else i, m))
    requires Look(s.disk, w.EtagPath()) == Some(File(w.replies[i].tag + "\n", 0x180, i))
    ensures Trusted(w, s) && !UpToDate(w, s)
  {
    forall m: nat | m < |w.Targets()| ensures Intact(w, s.disk, m) {
      assert w.Targets()[m].mode <= 0x1ff;
    }
    StoredIsServed(w, s, i);
    assert w.replies[i] == w.replies[s.now];
    assert Look(s.disk, w.Targets()[x].path) == Some(w.Copy(j, x));
  }

  /** With every target intact and the tag of reply `i` stored, a poll is trusted while that tag is served. */
  lemma StoredIsServed(w: World, s: State, i: nat)
    requires GoodReplies(w) && SameTag(w, i, s.now)
    requires forall m: nat :: m < |w.Targets()| ==> Intact(w, s.disk, m)
    requires Look(s.disk, w.EtagPath()) == Some(File(w.replies[i].tag + "\n", 0x180, i))
    ensures Trusted(w, s)
  {
    var tag := w.replies[i].tag;
    TrimOfTrimmed(tag);
    ETags.SingleTagMatch(tag, tag);
    assert CurrentETag(w, s.disk) == tag;
  }

  /** Exactly when the stored tag can be trusted: for every sound world, no run is ever misled if and only if
      the gateway never returns to a tag after serving other target values. */
  lemma TrustIffNoRelapse(w: World)
    requires Sound(w) && GoodReplies(w)
    ensures NeverMisled(w) <==> NoRelapse(w)
  {
    if NoRelapse(w) {
      forall labels ensures var s := Run(w, Init(w), labels); Trusted(w, s) ==> UpToDate(w, s) {
        CommitTheorem(w, labels);
      }
    } else {
      var i: nat, j: nat, k: nat :| !SameBetween(w, i, j, k);
      var labels := RelapseMisleads(w, i, j, k);
    }
  }

  /** If directory flushes may fail and power may be lost, a new tag can survive the loss of a rename it stands for:
      after a Sync of `u`, a Sync of `v` whose flushes fail, and a power loss that takes one rename. */
  lemma UnflushedPowerLossMisleads(w: World, u: nat, v: nat, x: nat) returns (labels: seq<Label>)
    requires w.WellFormed() && GoodReplies(w) && w.powerLoss && w.flushFails
    requires u < v && w.Installable(u) && w.Installable(v) && x < |w.Targets()| && w.Value(u, x) != w.Value(v, x)
    ensures var s := Run(w, Init(w), labels); Trusted(w, s) && !UpToDate(w, s)
  {
    var T := w.Targets();
    var l0, s0 := AdvanceTo(w, Init(w), u);
    var l1, s1 := FullSync(w, s0, true);
    var l2, s2 := AdvanceTo(w, s1, v);
    var l3, s3 := FullSync(w, s2, false);
    var p := T[x].path;
    var pick := map[p := Some(w.Copy(u, x))];
    assert Some(w.Copy(u, x)) in May(s3.disk, p);
    var s4 := Next(w, s3, PowerLoss(pick));
    RunOne(w, s3, PowerLoss(pick));
    RunConcat(w, Init(w), l0, l1);
    RunConcat(w, Init(w), l0 + l1, l2);
    RunConcat(w, Init(w), l0 + l1 + l2, l3);
    RunConcat(w, Init(w), l0 + l1 + l2 + l3, [PowerLoss(pick)]);
    labels := l0 + l1 + l2 + l3 + [PowerLoss(pick)];
    LostRename(w, s3, u, v, x, pick);
  }

  lemma LostRename(w: World, s: State, u: nat, v: nat, x: nat, pick: map<Path, Option<File>>)
    requires w.WellFormed() && GoodReplies(w) && w.powerLoss && w.Installable(u) && w.Installable(v) && s.now == v
    requires x < |w.Targets()| && w.Value(u, x) != w.Value(v, x)
    requires forall i: nat :: i < |w.Targets()| ==> Look(s.disk, w.Targets()[i].path) == Some(w.Copy(v, i))
    requires Look(s.disk, w.EtagPath()) == Some(File(w.replies[v].tag + "\n", 0x180, v))
    requires pick == map[w.Targets()[x].path := Some(w.Copy(u, x))]
    requires Some(w.Copy(u, x)) in May(s.disk, w.Targets()[x].path)
    ensures var r := Next(w, s, PowerLoss(pick)); Trusted(w, r) && !UpToDate(w, r)
  {
    var T := w.Targets();
    var r := Next(w, s, PowerLoss(pick));
    NamesAreSeparate(w);
    forall m: nat | m < |T|
      ensures Look(r.disk, T[m].path) == if m == x then Some(w.Copy(u, x)) else Some(w.Copy(v, m))
    {
      assert T[m].path in s.disk;
      assert m != x ==> T[m].path != T[x].path;
    }
    assert w.EtagPath() in s.disk && w.EtagPath() != T[x].path;
    forall m: nat | m < |T| ensures Intact(w, r.disk, m) {
    }
    StoredIsServed(w, r, v);
  }

  /** The exact condition with the hardware included. Where two replies differ in a target value, a "not modified" is
      always right if and only if the gateway never returns to a tag after other values, and power losses do not come
      together with failing flushes. */
  lemma TrustIffNoRelapseAndFlushed(w: World, u: nat, v: nat, x: nat)
    requires w.WellFormed() && GoodReplies(w)
    requires u < v && w.Installable(u) && w.Installable(v) && x < |w.Targets()| && w.Value(u, x) != w.Value(v, x)
    ensures NeverMisled(w) <==> NoRelapse(w) && !(w.powerLoss && w.flushFails)
  {
    if w.powerLoss && w.flushFails {
      var labels := UnflushedPowerLossMisleads(w, u, v, x);
    } else {
      TrustIffNoRelapse(w);
    }
  }

  /** Repairs of the same tag are not covered by RetryUntilCommitted. When a deleted target forces the stored
      tag to be installed again and the change command then fails, an installation is owed, yet the next poll
      is told "not modified" and the command is not retried. */
  lemma FailedRepairIsNotRetried(w: World) returns (labels: seq<Label>)
    requires w.WellFormed() && GoodReplies(w) && w.Installable(0) && |w.exposure.command| > 0
    ensures var s := Run(w, Init(w), labels);
      s.pc == Idle && s.owed == Some(0) && s.counts.errors == 1 && Trusted(w, s)
  {
    var l1, s1 := FullSync(w, Init(w), true);
    var l2, s2 := UpToRenames(w, s1, |w.Targets()|);
    var l3, s3 := FlushAll(w, s2, 0, Dirs(w.Targets()), true);
    var stamp, command := Call(true, Path("", "")), Call(false, Path("", ""));
    var s4 := Next(w, Next(w, s3, stamp), command);
    RunTwo(w, s3, stamp, command);
    RunConcat(w, Init(w), l1, l2);
    RunConcat(w, Init(w), l1 + l2, l3);
    RunConcat(w, Init(w), l1 + l2 + l3, [stamp, command]);
    labels := l1 + l2 + l3 + [stamp, command];
    RepairedButFailed(w, s1, s3, s4);
  }

  lemma RepairedButFailed(w: World, s1: State, s3: State, s4: State)
    requires w.WellFormed() && GoodReplies(w) && w.Installable(0) && |w.exposure.command| > 0
    requires Look(s1.disk, w.EtagPath()) == Some(File(w.replies[0].tag + "\n", 0x180, 0))
    requires s3.pc == Stamping(0) && s3.now == 0 && Look(s3.disk, w.EtagPath()) == Look(s1.disk, w.EtagPath())
    requires forall i: nat :: i < |w.Targets()| ==> Look(s3.disk, w.Targets()[i].path) == Some(w.Copy(0, i))
    requires s4 == Next(w, Next(w, s3, Call(true, Path("", ""))), Call(false, Path("", "")))
    ensures s4.pc == Idle && s4.owed == s3.owed && s4.counts.errors == s3.counts.errors + 1 && Trusted(w, s4)
  {
    NamesAreSeparate(w);
    forall m: nat | m < |w.Targets()| ensures Intact(w, s4.disk, m) {
      assert w.IsTargetPath(w.Targets()[m].path);
    }
    StoredIsServed(w, s4, 0);
  }
}
