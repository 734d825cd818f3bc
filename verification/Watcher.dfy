/** The watcher of one Secret as the program it is (gateway/internal/resources/manager.go): list, then the event
    loop of the watch, then a delay, for as long as the manager lives. The environment acts before every step.
    Each method is proved to follow CacheProtocol, and the loop is proved to space out its list requests. */
module Watcher {
  import opened Text
  import opened SecretApi
  import opened SecretCache
  import opened CacheProtocol
  import opened Retry

  class Watcher {
    const opts: Options
    const r: Resource
    const bo: Backoff
    /** The API and the open watch; its `res` is what the resource holds. */
    var s: State
    ghost var trace: seq<Label>
    var clock: int
    /** The time of every list request so far. */
    ghost var lists: seq<int>
    /** How many lists have been stored, when the last one was, and how many panics there were. */
    ghost var stored: nat
    ghost var storedAt: int
    ghost var panics: nat

    ghost predicate Valid()
      reads this, r, bo
    {
      && s == Run(r.ref, START, trace) && s.res == r.State()
      && 0 < opts.initial <= opts.max < TWO_63 && opts.stable > 0
      && bo.initial == opts.initial && bo.max == opts.max
      && (bo.current == 0 || opts.initial <= bo.current <= opts.max)
    }

    constructor (ref: Ref, asked: Options)
      requires asked.initial < TWO_63 && asked.max < TWO_63
      ensures Valid() && fresh(r) && fresh(bo) && r.ref == ref && opts == WithDefaults(asked)
      ensures s == START && lists == []
    {
      var o := WithDefaults(asked);
      opts := o;
      r := new Resource(ref);
      bo := new Backoff(o.initial, o.max);
      s, trace, clock, lists := START, [], 0, [];
      stored, storedAt, panics := 0, 0, 0;
    }

    /** What every step keeps. */
    twostate predicate Onward()
      reads this, r, bo
    {
      old(trace) <= trace && old(clock) <= clock && bo.current == old(bo.current)
    }

    /** No list has been stored meanwhile, and nothing has panicked. */
    twostate predicate NoList()
      reads this
    {
      stored == old(stored) && storedAt == old(storedAt) && panics == old(panics)
    }

    /** The last cycle stored its list at a time from which its watch, if that is what kept it until `ended`, lasted the
        stable duration; and it did not panic. */
    twostate predicate WasStable(ended: int)
      reads this
    {
      stored == old(stored) + 1 && panics == old(panics) && ended - storedAt >= opts.stable
    }

    /** The machine takes the step that the resource just took. */
    method Take(l: Label)
      requires s == Run(r.ref, START, trace) && Next(r.ref, s, l).res == r.State()
      modifies this`s, this`trace, this`stored, this`storedAt, this`panics
      ensures s == Next(r.ref, old(s), l) == Run(r.ref, START, trace) && trace == old(trace) + [l] && s.res == r.State()
      ensures panics == old(panics) + if l == Panic then 1 else 0
      ensures if l.Store? && old(s.pc).Answered? then stored == old(stored) + 1 && storedAt == clock
              else stored == old(stored) && storedAt == old(storedAt)
    {
      if l.Store? && s.pc.Answered? {
        stored, storedAt := stored + 1, clock;
      }
      panics := panics + if l == Panic then 1 else 0;
      RunConcat(r.ref, START, trace, [l]);
      RunOne(r.ref, s, l);
      s := Next(r.ref, s, l);
      trace := trace + [l];
    }

    lemma Invariant()
      requires Valid()
      ensures Inv(r.ref, s)
    {
      StartOk(r.ref);
      RunKeepsInv(r.ref, START, trace);
    }

    /** The watcher is where it was, up to what its watch holds, and holds the state it held. */
    twostate predicate Unmoved()
      reads this
    {
      && s.res == old(s.res) && old(s.log) <= s.log
      && s.pc == if s.pc.Watching? && old(s.pc).Watching? then old(s.pc).(queue := s.pc.queue) else old(s.pc)
    }

    /** Time passes, Secrets change, and events arrive or get lost. */
    method Interfere()
      requires Valid()
      modifies this`s, this`trace, this`clock, this`stored, this`storedAt, this`panics
      ensures Valid() && Onward() && Unmoved() && NoList()
    {
      var n: nat := *;
      while n > 0
        invariant Valid() && Onward() && Unmoved() && NoList()
      {
        var l: Label, pause: nat := *, *;
        if l.Apply? || l.Delete? || l.OtherChange? || l.Send? || l.Lose? {
          EnvironmentOnly(r.ref, s, l);
          Take(l);
        }
        clock := clock + pause;
        n := n - 1;
      }
    }

    lemma EnvironmentOnly(ref: Ref, s: State, l: Label)
      requires l.Apply? || l.Delete? || l.OtherChange? || l.Send? || l.Lose?
      ensures var t := Next(ref, s, l);
        && t.res == s.res && s.log <= t.log
        && t.pc == if t.pc.Watching? && s.pc.Watching? then s.pc.(queue := t.pc.queue) else s.pc
    {
    }

    /** list: the API answers with the state it is in, which is stored some time later, or something is wrong with
        the answer. A client that panics is reported as such. */
    method List() returns (version: Option<nat>, panicked: bool)
      requires Valid() && s.pc.Listing?
      modifies this`s, this`trace, this`clock, r, this`stored, this`storedAt, this`panics
      ensures Valid() && Onward() && panics == old(panics)
      ensures version.Some? ==> s.pc.Opening? && !panicked && stored == old(stored) + 1 && storedAt == clock
      ensures version.None? ==> s.pc.Listing? && stored == old(stored)
    {
      Interfere();
      var outcome: nat, broken: ListAnswer, now: nat := *, *, *;
      Invariant();
      panicked := false;
      if outcome == 0 {
        return None, true;
      } else if outcome == 1 && Faulty(r.ref, broken) {
        FaultsKeepTheState(r.ref, s.res, Event(Error, None), GetFailed(false), broken, 0);
        version := r.List(broken, 0);
        Take(CacheProtocol.List(ListBroken(broken)));
      } else {
        var items, rv := if Current(s).Some? then [Current(s).value] else [], s.rv;
        Take(CacheProtocol.List(ListAnswered));
        version := StoreList(items, rv, now);
      }
    }

    /** The rest of list, with the answer in hand. */
    method StoreList(items: seq<Obj>, rv: nat, now: nat) returns (version: Option<nat>)
      requires Valid() && s.pc.Answered? && items == ItemsAt(s, s.pc.at) && rv == s.pc.from && s.pc.at < |s.log|
      modifies this`s, this`trace, this`clock, r, this`stored, this`storedAt, this`panics
      ensures Valid() && Onward() && version.Some? && s.pc.Opening?
      ensures stored == old(stored) + 1 && storedAt == clock && panics == old(panics)
    {
      Interfere();
      assert items == ItemsAt(s, s.pc.at);
      Invariant();
      StoredList(r.ref, s, s.pc.at, rv, now);
      version := r.List(Listed(items, rv), now);
      Take(Store(now));
    }

    method SetConnected(v: bool)
      modifies r
      ensures r.State() == old(r.State()).(connected := v)
    {
      r.connected := v;
    }

    /** WatchSecret. */
    method OpenWatch() returns (ok: bool, panicked: bool)
      requires Valid() && s.pc.Opening?
      modifies this`s, this`trace, this`clock, r, this`stored, this`storedAt, this`panics
      ensures Valid() && Onward() && NoList() && !(ok && panicked)
      ensures !panicked ==> if ok then Idle(s.pc) else s.pc.Listing?
    {
      Interfere();
      var cancelled: bool;
      ok, panicked, cancelled := *, *, *;
      if panicked {
        return false, true;
      }
      if !ok && cancelled {
        Invariant();
        Take(OpenCancelled);
        return false, false;
      }
      Invariant();
      if ok {
        SetConnected(true);
      } else {
        r.watchErrors := r.watchErrors + 1;
      }
      Take(Open(ok));
    }

    /** The event loop of watch: receive events and reconcile until anything calls for a new list. */
    method Watch() returns (panicked: bool)
      requires Valid() && Idle(s.pc)
      modifies this`s, this`trace, this`clock, r, this`stored, this`storedAt, this`panics
      ensures Valid() && Onward() && NoList() && if panicked then Idle(s.pc) else s.pc.Listing?
    {
      var rounds: nat := *;
      while rounds > 0
        invariant Valid() && Onward() && NoList() && Idle(s.pc)
      {
        Interfere();
        var choice: nat, keep := *, true;
        if choice == 0 {
          return true;
        } else if choice == 1 {
          break;
        } else if choice == 2 {
          keep := ReconcileNow();
        } else if s.pc.queue != [] {
          keep := ReceiveNext();
        }
        if !keep {
          return false;
        }
        rounds := rounds - 1;
      }
      SetConnected(false);
      Take(EndWatch);
      return false;
    }

    /** reconcile within the loop; if it ends the watch, the watch is disconnected. */
    method ReconcileNow() returns (keep: bool)
      requires Valid() && Idle(s.pc)
      modifies this`s, this`trace, this`clock, r, this`stored, this`storedAt, this`panics
      ensures Valid() && Onward() && NoList() && if keep then Idle(s.pc) else s.pc.Listing?
    {
      var outcome: nat, broken: GetAnswer, now: nat := *, *, *;
      Invariant();
      if outcome == 0 && FaultyGet(r.ref, broken) {
        keep := r.Reconcile(broken, 0);
        Take(Reconcile(GetBroken(broken)));
      } else {
        var got := if Current(s).Some? then Got(Current(s)) else NotFound;
        Take(Reconcile(GetAnswered));
        keep := StoreGot(got, now);
      }
    }

    /** The rest of reconcile, with the answer in hand. */
    method StoreGot(got: GetAnswer, now: nat) returns (keep: bool)
      requires Valid() && s.pc.Watching? && s.pc.got.Some? && s.pc.got.value < |s.log|
      requires got == GotAt(s, s.pc.got.value)
      modifies this`s, this`trace, this`clock, r, this`stored, this`storedAt, this`panics
      ensures Valid() && Onward() && NoList() && if keep then Idle(s.pc) else s.pc.Listing?
    {
      Interfere();
      assert got == GotAt(s, s.pc.got.value);
      keep := r.Reconcile(got, now);
      if !keep {
        SetConnected(false);
      }
      Take(Store(now));
    }

    method ReceiveNext() returns (keep: bool)
      requires Valid() && Idle(s.pc) && s.pc.queue != []
      modifies this`s, this`trace, r, this`stored, this`storedAt, this`panics
      ensures Valid() && Onward() && NoList() && if keep then Idle(s.pc) else s.pc.Listing?
    {
      var ev := EventAt(s, s.pc.queue[0]);
      assert ev == EventAt(s.(pc := Watching(s.pc.queue[1..], None)), s.pc.queue[0]);
      keep := r.HandleEvent(ev);
      if !keep {
        SetConnected(false);
      }
      Take(Receive);
    }

    /** cycle: one list and one watch. A panic in either is recovered from. It is healthy exactly if its list was
        stored, nothing panicked, and from then on it lasted the stable duration. */
    method Cycle() returns (healthy: bool)
      requires Valid() && s.pc.Listing?
      modifies this, r
      ensures Valid() && Onward() && s.pc.Listing? && lists == old(lists) + [old(clock)]
      ensures healthy <==> WasStable(clock)
      ensures healthy ==> clock >= old(clock) + opts.stable
    {
      lists := lists + [clock];
      var version, panicked := List();
      if version.Some? {
        var start := clock;
        var open;
        open, panicked := OpenWatch();
        if open {
          panicked := Watch();
        }
        if !panicked {
          return clock - start >= opts.stable;
        }
      }
      if panicked {
        Recover();
      }
      return false;
    }

    /** The deferred recovery of cycle. */
    method Recover()
      requires Valid()
      modifies this`s, this`trace, this`stored, this`storedAt, this`panics, r
      ensures Valid() && Onward() && s.pc.Listing? && panics == old(panics) + 1 && stored == old(stored)
    {
      SetConnected(false);
      r.watchErrors := r.watchErrors + 1;
      Take(Panic);
    }

    /** The delay after an unhealthy cycle, and the sleep, which may take longer. If drawing it panics there is none. */
    method Pause(ghost failures: nat) returns (delay: Option<int>)
      requires Valid() && bo.current == Base(opts.initial, opts.max, failures)
      modifies this`clock, bo
      ensures s == old(s) && trace == old(trace)
      ensures clock >= old(clock) + if delay.Some? then delay.value else 0
      ensures delay.Some? ==> Valid() && clock >= old(clock) + opts.initial / 2
      ensures delay.Some? ==>
        bo.current == Base(opts.initial, opts.max, failures + 1) && IsDelay(bo.current, delay.value)
    {
      var draw: nat, oversleep: nat := *, *;
      DelayIsNotShort(opts.initial, opts.max, bo.current, draw);
      delay := bo.Next(draw);
      if delay.Some? {
        clock := clock + delay.value + oversleep;
      }
    }

    /** One round of the loop: a cycle, and unless it was healthy a delay. If drawing the delay panics there is none. */
    method OneRound(ghost failures: nat) returns (healthy: bool, delay: Option<int>, ghost ended: int)
      requires Valid() && s.pc.Listing? && bo.current == Base(opts.initial, opts.max, failures)
      modifies this, r, bo
      ensures s == Run(r.ref, START, trace) && s.res == r.State() && lists == old(lists) + [old(clock)]
      ensures healthy <==> WasStable(ended)
      ensures old(clock) <= ended && ended + (if delay.Some? then delay.value else 0) <= clock
      ensures healthy ==> delay.None? && bo.current == 0 && ended == clock
      ensures !healthy && delay.Some? ==>
        bo.current == Base(opts.initial, opts.max, failures + 1) && IsDelay(bo.current, delay.value)
      ensures healthy || delay.Some? ==>
        Valid() && s.pc.Listing? && clock - old(clock) >= Min(opts.stable, opts.initial / 2)
    {
      healthy := Cycle();
      ended := clock;
      if healthy {
        bo.Reset();
        delay := None;
      } else {
        delay := Pause(failures);
      }
    }

    /** run. However the API, the network and the client behave, panics included, two list requests are never closer
        than the stable duration or half the first delay, and the delay after k unhealthy cycles in a row is drawn
        around the base that k failures lead to. */
    method RunLoop() returns (ghost rounds: seq<Round>)
      requires Valid() && s.pc.Listing? && lists == [] && bo.current == 0
      modifies this, r, bo
      ensures s == Run(r.ref, START, trace) && s.res == r.State()
      ensures Spaced(lists, Min(opts.stable, opts.initial / 2))
      ensures AllDrawn(opts, rounds) && |rounds| <= |lists| <= |rounds| + 1
    {
      ghost var gap := Min(opts.stable, opts.initial / 2);
      rounds := [];
      var cycles: nat := *;
      while cycles > 0
        invariant Valid() && s.pc.Listing? && Spaced(lists, gap) && |lists| == |rounds|
        invariant lists != [] ==> clock - lists[|lists| - 1] >= gap
        invariant bo.current == Base(opts.initial, opts.max, Streak(rounds)) && AllDrawn(opts, rounds)
      {
        SpacedGrows(lists, gap, clock);
        var healthy, delay, _ := OneRound(Streak(rounds));
        if !healthy && delay.None? {
          return;
        }
        rounds := AnotherRound(opts, rounds, Round(healthy, delay));
        cycles := cycles - 1;
      }
    }
  }

  /** One cycle of the loop: whether it was healthy, and the delay after it. */
  datatype Round = Round(healthy: bool, delay: Option<int>)

  /** How many unhealthy cycles in a row there are at the end. */
  function Streak(rounds: seq<Round>): nat {
    if rounds == [] || rounds[|rounds| - 1].healthy then 0 else Streak(rounds[..|rounds| - 1]) + 1
  }

  /** After an unhealthy cycle, the k-th in a row, the delay is drawn around the base after k failures; after a healthy
      one there is none. */
  ghost predicate DrawnAfter(opts: Options, rounds: seq<Round>, i: nat)
    requires i < |rounds|
  {
    if rounds[i].healthy then rounds[i].delay.None?
    else rounds[i].delay.Some? && IsDelay(Base(opts.initial, opts.max, Streak(rounds[..i + 1])), rounds[i].delay.value)
  }

  ghost predicate AllDrawn(opts: Options, rounds: seq<Round>) {
    forall i :: 0 <= i < |rounds| ==> DrawnAfter(opts, rounds, i)
  }

  ghost predicate IsDelay(base: int, d: int) {
    exists draw: nat :: Delay(base, draw) == Some(d)
  }

  lemma AnotherRound(opts: Options, rounds: seq<Round>, x: Round) returns (all: seq<Round>)
    requires AllDrawn(opts, rounds)
    requires if x.healthy then x.delay.None? else
      x.delay.Some? && IsDelay(Base(opts.initial, opts.max, Streak(rounds) + 1), x.delay.value)
    ensures all == rounds + [x] && AllDrawn(opts, all) && Streak(all) == if x.healthy then 0 else Streak(rounds) + 1
  {
    all := rounds + [x];
    assert all[..|all| - 1] == rounds;
    forall i | 0 <= i < |all| ensures DrawnAfter(opts, all, i) {
      if i < |rounds| {
        assert all[..i + 1] == rounds[..i + 1] && DrawnAfter(opts, rounds, i);
      } else {
        assert all[..i + 1] == all;
      }
    }
  }

  /** With a cap below 2^62, then, the delay after k unhealthy cycles in a row lies between half of
      min(initial * 2^(k-1), max) and all of it. */
  lemma DelayAfterStreak(opts: Options, rounds: seq<Round>, i: nat)
    requires 0 < opts.initial <= opts.max < TWO_62 && i < |rounds| && DrawnAfter(opts, rounds, i) && !rounds[i].healthy
    ensures var k := Streak(rounds[..i + 1]);
      k > 0 && Capped(opts.initial, opts.max, k) / 2 <= rounds[i].delay.value <= Capped(opts.initial, opts.max, k)
  {
    var upto := rounds[..i + 1];
    var k := Streak(upto);
    assert upto[|upto| - 1] == rounds[i];
    BaseIsCapped(opts.initial, opts.max, k);
    BaseIsPositive(opts.initial, opts.max, k);
    DelayRange(Base(opts.initial, opts.max, k), rounds[i].delay.value);
  }
}
