/** The manager's initialization barrier (gateway/internal/resources/manager.go): every watcher counts itself down
    once, after its first attempt or when it exits, and the last one closes the channel that readiness waits on. */
module Barrier {
  import opened SecretApi
  import opened RefOrder

  /** Where a watcher goes after its call of initOnce.Do. */
  datatype After = ToWatch | ToDelay | ToExit

  /** `Counting` is about to call initOnce.Do; `Closing` has counted down to zero and is about to close. */
  datatype Pc = Unborn | Loop | Listing | Counting(next: After) | Closing(next: After) | Watching | Sleeping | Exited

  /** `attempted` holds the Secrets whose first list has ended. Closing the channel twice would panic, so `closes`
      counts. */
  datatype State = State(
    pcs: map<Ref, Pc>,
    fired: set<Ref>,
    attempted: set<Ref>,
    pending: int,
    closes: nat,
    cancelled: bool)

  datatype Label = Launch(ref: Ref) | Cancel | Step(ref: Ref, outcome: Outcome)
  datatype Outcome = Fine | Failed | Panicked

  function Goes(next: After): Pc {
    match next
    case ToWatch => Watching
    case ToDelay => Sleeping
    case ToExit => Exited
  }

  function At(s: State, ref: Ref, pc: Pc): State {
    s.(pcs := s.pcs[ref := pc])
  }

  /** NewManager, for the distinct references. With none there is nothing to wait for. */
  function Init(refs: set<Ref>): State {
    State(map ref | ref in refs :: Unborn, {}, {}, |refs|, if refs == {} then 1 else 0, false)
  }

  /** One atomic step of one watcher. */
  function Act(s: State, ref: Ref, outcome: Outcome): State
    requires ref in s.pcs
  {
    match s.pcs[ref]
    case Loop => At(s, ref, if s.cancelled then Counting(ToExit) else Listing)
    case Listing =>
      At(s, ref, Counting(if outcome == Fine then ToWatch else ToDelay)).(attempted := s.attempted + {ref})
    case Counting(next) =>
      if ref in s.fired then At(s, ref, Goes(next))
      else
        var s' := s.(fired := s.fired + {ref}, pending := s.pending - 1);
        At(s', ref, if s'.pending == 0 then Closing(next) else Goes(next))
    case Closing(next) => At(s, ref, Goes(next)).(closes := s.closes + 1)
    case Watching =>
      At(s, ref, if outcome == Panicked then Counting(ToDelay)
                 else if s.cancelled then Counting(ToExit)
                 else if outcome == Fine then Loop else Sleeping)
    case Sleeping => At(s, ref, if s.cancelled then Counting(ToExit) else Loop)
    case _ => s
  }

  function Next(s: State, l: Label): State {
    match l
    case Cancel => s.(cancelled := true)
    case Launch(ref) => if ref in s.pcs && s.pcs[ref] == Unborn then At(s, ref, Loop) else s
    case Step(ref, outcome) => if ref in s.pcs then Act(s, ref, outcome) else s
  }

  function Run(s: State, labels: seq<Label>): State
    decreases |labels|
  {
    if labels == [] then s else Run(Next(s, labels[0]), labels[1..])
  }

  predicate Leaving(pc: Pc) {
    pc.Exited? || ((pc.Counting? || pc.Closing?) && pc.next == ToExit)
  }

  /** Being past the countdown means having counted, and having counted means having attempted or given up. */
  predicate WatcherOk(s: State, ref: Ref)
    requires ref in s.pcs
  {
    var pc := s.pcs[ref];
    && (ref in s.fired ==> ref in s.attempted || Leaving(pc))
    && (ref in s.attempted && !pc.Counting? ==> ref in s.fired)
    && (pc.Counting? && pc.next != ToExit ==> ref in s.attempted)
    && (pc.Watching? || pc.Sleeping? || pc.Exited? || pc.Closing? ==> ref in s.fired)
    && (pc.Closing? && pc.next != ToExit ==> ref in s.attempted)
  }

  ghost predicate ClosingOk(s: State) {
    && (forall a :: a in s.pcs && s.pcs[a].Closing? ==> s.pending == 0 && s.closes == 0)
    && (forall a, b :: a in s.pcs && b in s.pcs && s.pcs[a].Closing? && s.pcs[b].Closing? ==> a == b)
    && (s.pending == 0 ==> s.closes == 1 || exists a :: a in s.pcs && s.pcs[a].Closing?)
    && (s.pending != 0 ==> s.closes == 0)
    && s.closes <= 1
  }

  ghost predicate Inv(s: State) {
    && s.fired <= s.pcs.Keys && s.attempted <= s.pcs.Keys
    && s.pending == |s.pcs.Keys - s.fired|
    && (forall ref :: ref in s.pcs ==> WatcherOk(s, ref))
    && ClosingOk(s)
  }

  lemma InitOk(refs: set<Ref>)
    ensures Inv(Init(refs)) && Init(refs).pcs.Keys == refs
  {
    var s := Init(refs);
    assert s.pcs.Keys == refs && s.pcs.Keys - s.fired == refs;
  }

  lemma CountKeepsInv(s: State, ref: Ref, outcome: Outcome)
    requires Inv(s) && ref in s.pcs && s.pcs[ref].Counting? && ref !in s.fired
    ensures Inv(Act(s, ref, outcome))
  {
    var s' := Act(s, ref, outcome);
    assert s'.pcs.Keys == s.pcs.Keys;
    OneLess(s.pcs.Keys, s.fired, ref);
    forall r | r in s'.pcs ensures WatcherOk(s', r) {
      assert WatcherOk(s, r);
    }
    if s'.pending == 0 { assert s'.pcs[ref].Closing?; }
  }

  lemma MoveKeepsInv(s: State, s': State, ref: Ref)
    requires Inv(s) && ref in s.pcs && !s.pcs[ref].Closing?
    requires ref in s'.pcs && s' == s.(pcs := s.pcs[ref := s'.pcs[ref]], attempted := s'.attempted)
    requires s'.attempted == s.attempted || s'.attempted == s.attempted + {ref}
    requires WatcherOk(s', ref) && !s'.pcs[ref].Closing?
    ensures Inv(s')
  {
    assert s'.pcs.Keys == s.pcs.Keys;
    forall r | r in s'.pcs ensures WatcherOk(s', r) {
      assert WatcherOk(s, r);
    }
    if s.pending == 0 && s.closes != 1 {
      var a :| a in s.pcs && s.pcs[a].Closing?;
      assert s'.pcs[a].Closing?;
    }
  }

  lemma CloseKeepsInv(s: State, ref: Ref, outcome: Outcome)
    requires Inv(s) && ref in s.pcs && s.pcs[ref].Closing?
    ensures Inv(Act(s, ref, outcome))
  {
    var s' := Act(s, ref, outcome);
    assert s'.pcs.Keys == s.pcs.Keys;
    forall r | r in s'.pcs ensures WatcherOk(s', r) {
      assert WatcherOk(s, r);
    }
    assert forall r :: r in s'.pcs && r != ref ==> !s.pcs[r].Closing?;
  }

  lemma ActKeepsInv(s: State, ref: Ref, outcome: Outcome)
    requires Inv(s) && ref in s.pcs
    ensures Inv(Act(s, ref, outcome))
  {
    assert WatcherOk(s, ref);
    match s.pcs[ref]
    case Counting(next) =>
      if ref !in s.fired { CountKeepsInv(s, ref, outcome); } else { MoveKeepsInv(s, Act(s, ref, outcome), ref); }
    case Closing(next) => CloseKeepsInv(s, ref, outcome);
    case Unborn =>
    case Exited =>
    case _ => MoveKeepsInv(s, Act(s, ref, outcome), ref);
  }

  lemma StepKeepsInv(s: State, l: Label)
    requires Inv(s)
    ensures Inv(Next(s, l))
  {
    match l
    case Cancel =>
      forall r | r in s.pcs ensures WatcherOk(Next(s, l), r) {
        assert WatcherOk(s, r);
      }
    case Launch(ref) =>
      if ref in s.pcs && s.pcs[ref] == Unborn {
        assert WatcherOk(s, ref);
        MoveKeepsInv(s, Next(s, l), ref);
      }
    case Step(ref, outcome) =>
      if ref in s.pcs { ActKeepsInv(s, ref, outcome); }
  }

  lemma StepGoesOn(s: State, l: Label)
    ensures Next(s, l).pcs.Keys == s.pcs.Keys && s.closes <= Next(s, l).closes
  {
  }

  lemma {:induction false} RunKeepsInv(s: State, labels: seq<Label>)
    requires Inv(s)
    ensures Inv(Run(s, labels)) && Run(s, labels).pcs.Keys == s.pcs.Keys && s.closes <= Run(s, labels).closes
    decreases |labels|
  {
    if labels != [] {
      StepKeepsInv(s, labels[0]);
      StepGoesOn(s, labels[0]);
      RunKeepsInv(Next(s, labels[0]), labels[1..]);
    }
  }

  /** Between two statements of the countdown. */
  predicate MidCount(pc: Pc) {
    pc.Counting? || pc.Closing?
  }

  /** Under every interleaving of watchers, failures, panics and cancellation: `pending` is the number of Secrets
      whose once has not fired; the channel is closed at most once, and once closed every Secret was attempted or
      given up on; and when that is so and no watcher is in the middle of counting, it is closed. */
  lemma BarrierLaw(refs: set<Ref>, labels: seq<Label>)
    ensures var s := Run(Init(refs), labels);
      && s.pcs.Keys == refs && s.fired <= refs && s.pending == |refs - s.fired|
      && s.closes <= 1
      && (s.closes == 1 ==> s.fired == refs && forall ref :: ref in refs ==> ref in s.attempted || Leaving(s.pcs[ref]))
      && ((forall ref :: ref in refs ==> (ref in s.attempted || Leaving(s.pcs[ref])) && !MidCount(s.pcs[ref])) ==>
        s.closes == 1)
  {
    var s := Run(Init(refs), labels);
    InitOk(refs);
    RunKeepsInv(Init(refs), labels);
    if s.closes == 1 {
      assert s.pending == 0;
      assert refs - s.fired == {};
      forall ref | ref in refs ensures ref in s.fired && (ref in s.attempted || Leaving(s.pcs[ref])) {
        assert WatcherOk(s, ref);
        assert ref !in refs - s.fired;
      }
    }
    if forall ref :: ref in refs ==> (ref in s.attempted || Leaving(s.pcs[ref])) && !MidCount(s.pcs[ref]) {
      forall ref | ref in refs ensures ref in s.fired {
        assert WatcherOk(s, ref);
      }
      assert refs - s.fired == {};
    }
  }

  /** Whoever waits for all watchers to exit finds the barrier open, however early they were cancelled. */
  lemma ExitedIsInitialized(refs: set<Ref>, labels: seq<Label>)
    requires forall ref :: ref in refs ==>
      ref in Run(Init(refs), labels).pcs && Run(Init(refs), labels).pcs[ref] == Exited
    ensures Run(Init(refs), labels).closes == 1
  {
    BarrierLaw(refs, labels);
  }

  /** Once open, the barrier stays open. */
  lemma InitializedIsForGood(refs: set<Ref>, labels: seq<Label>, more: seq<Label>)
    ensures Run(Init(refs), labels).closes == 1 ==> Run(Run(Init(refs), labels), more).closes == 1
  {
    InitOk(refs);
    RunKeepsInv(Init(refs), labels);
    RunKeepsInv(Run(Init(refs), labels), more);
  }

  // ---- That it opens, and that everyone exits ----

  /** The watcher has counted and, if it was the last, closed. */
  predicate Done(s: State, ref: Ref) {
    ref in s.pcs && ref in s.fired && !s.pcs[ref].Closing?
  }

  /** How many of its own steps a watcher needs at most until it is done with the countdown. */
  function ToCount(s: State, ref: Ref): nat
    requires ref in s.pcs
  {
    match s.pcs[ref]
    case Loop => 4
    case Listing => 3
    case Counting(_) => 2
    case Closing(_) => 1
    case _ => 0
  }

  /** How many of its own steps a watcher needs at most, once cancelled, until it has exited. */
  function ToLeave(pc: Pc): nat {
    match pc
    case Listing => 9
    case Counting(next) => if next == ToWatch then 8 else if next == ToDelay then 5 else 2
    case Closing(next) => if next == ToWatch then 7 else if next == ToDelay then 4 else 1
    case Watching => 6
    case Sleeping => 3
    case Loop => 3
    case _ => 0
  }

  /** How many of the labels are steps of this watcher. */
  function Steps(labels: seq<Label>, ref: Ref): nat {
    if labels == [] then 0
    else Steps(labels[1..], ref) + if labels[0].Step? && labels[0].ref == ref then 1 else 0
  }

  predicate Launched(s: State, ref: Ref) {
    ref in s.pcs && s.pcs[ref] != Unborn
  }

  lemma StepLeads(s: State, l: Label, ref: Ref)
    requires Launched(s, ref) && WatcherOk(s, ref)
    ensures var s' := Next(s, l); var own := l.Step? && l.ref == ref;
      && Launched(s', ref)
      && (Done(s, ref) ==> Done(s', ref))
      && (Done(s', ref) || ToCount(s', ref) <= ToCount(s, ref) - if own then 1 else 0)
      && (s.cancelled ==> s'.cancelled)
      && (s.cancelled ==>
            s'.pcs[ref].Exited? || ToLeave(s'.pcs[ref]) <= ToLeave(s.pcs[ref]) - if own then 1 else 0)
  {
  }

  lemma {:induction false} StepsLead(s: State, labels: seq<Label>, ref: Ref)
    requires Inv(s) && Launched(s, ref)
    ensures var r := Run(s, labels);
      && Launched(r, ref)
      && (Done(s, ref) || Steps(labels, ref) >= ToCount(s, ref) ==> Done(r, ref))
      && (s.cancelled && Steps(labels, ref) >= ToLeave(s.pcs[ref]) ==> r.pcs[ref] == Exited)
    decreases |labels|
  {
    assert WatcherOk(s, ref);
    if labels != [] {
      StepLeads(s, labels[0], ref);
      StepKeepsInv(s, labels[0]);
      StepsLead(Next(s, labels[0]), labels[1..], ref);
    }
  }

  /** The barrier opens: four steps of each watcher after its launch are enough, whatever its list and the others do. */
  lemma StepsOpen(refs: set<Ref>, before: seq<Label>, labels: seq<Label>)
    requires forall ref :: ref in refs ==> Launched(Run(Init(refs), before), ref) && Steps(labels, ref) >= 4
    ensures Run(Run(Init(refs), before), labels).closes == 1
  {
    InitOk(refs);
    RunKeepsInv(Init(refs), before);
    LaunchedOpen(Run(Init(refs), before), labels);
  }

  lemma LaunchedOpen(s: State, labels: seq<Label>)
    requires Inv(s) && forall ref :: ref in s.pcs ==> Launched(s, ref) && Steps(labels, ref) >= 4
    ensures Run(s, labels).closes == 1
  {
    RunKeepsInv(s, labels);
    var r := Run(s, labels);
    forall ref | ref in r.pcs ensures Done(r, ref) {
      StepsLead(s, labels, ref);
    }
    AllDone(r);
  }

  lemma AllDone(s: State)
    requires Inv(s) && forall ref :: ref in s.pcs ==> Done(s, ref)
    ensures s.closes == 1
  {
    assert s.pcs.Keys - s.fired == {};
  }

  /** A list that went well leads to a watch, and one that failed or panicked to a delay. */
  lemma ListLeadsOn(s: State, ref: Ref, list: Outcome, second: Outcome, third: Outcome)
    requires ref in s.pcs && s.pcs[ref] == Listing
    ensures var counted := Act(Act(s, ref, list), ref, second);
      var next := if list == Fine then Watching else Sleeping;
      counted.pcs[ref] == next || (counted.pcs[ref].Closing? && Act(counted, ref, third).pcs[ref] == next)
  {
  }

  /** And once the manager is cancelled, nine steps of each are enough for all to exit. */
  lemma CancelledExits(refs: set<Ref>, before: seq<Label>, labels: seq<Label>, ref: Ref)
    requires Run(Init(refs), before).cancelled && Launched(Run(Init(refs), before), ref) && Steps(labels, ref) >= 9
    ensures var r := Run(Run(Init(refs), before), labels); ref in r.pcs && r.pcs[ref] == Exited
  {
    InitOk(refs);
    RunKeepsInv(Init(refs), before);
    StepsLead(Run(Init(refs), before), labels, ref);
  }

  /** The manager's own fields. */
  class Manager {
    var sorted: seq<Ref>
    var pending: int
    var initialized: bool
    /** The references whose once has fired. */
    ghost var fired: set<Ref>

    ghost predicate Valid()
      reads this
    {
      && Distinct(sorted) && SortedRefs(sorted)
      && fired <= Set(sorted)
      && pending == |Set(sorted) - fired|
      && (initialized <==> fired == Set(sorted))
    }

    /** NewManager: duplicate references share one entry, and the entries are sorted. */
    constructor (refs: seq<Ref>)
      ensures Valid() && fired == {} && Set(sorted) == Set(refs) && pending == |sorted| && (initialized <==> refs == [])
    {
      var distinct := SortedDistinct(refs);
      sorted := distinct;
      pending := |distinct|;
      initialized := |distinct| == 0;
      fired := {};
      new;
      DistinctSize(sorted);
      assert Set(sorted) - fired == Set(sorted);
      if |sorted| > 0 { assert sorted[0] in Set(sorted); }
      if |refs| > 0 { assert refs[0] in Set(refs); }
    }

    /** initOnce.Do(m.initDone) of one reference: it counts the first time only. */
    method CountOnce(ref: Ref, first: bool) returns (closed: bool)
      requires Valid() && ref in sorted && first == (ref !in fired)
      modifies this`pending, this`initialized, this`fired
      ensures Valid() && fired == old(fired) + {ref} && sorted == old(sorted)
      ensures closed ==> !old(initialized) && initialized
      ensures initialized <==> old(initialized) || closed
    {
      closed := false;
      OneLess(Set(sorted), fired, ref);
      if first {
        fired := fired + {ref};
        pending := pending - 1;
        if pending == 0 {
          initialized := true;
          closed := true;
        }
      }
    }
  }

  ghost function Set(refs: seq<Ref>): set<Ref> {
    set r | r in refs
  }

  /** Counting one more leaves one less, and zero exactly when all have counted. */
  lemma OneLess(all: set<Ref>, fired: set<Ref>, ref: Ref)
    requires fired <= all && ref in all
    ensures ref !in fired ==> |all - (fired + {ref})| == |all - fired| - 1
    ensures ref in fired ==> fired + {ref} == fired
    ensures |all - (fired + {ref})| == 0 <==> fired + {ref} == all
    ensures |all - fired| == 0 <==> fired == all
  {
    if ref !in fired {
      assert all - fired == (all - (fired + {ref})) + {ref};
    }
    EmptyIff(all, fired);
    EmptyIff(all, fired + {ref});
  }

  lemma EmptyIff(all: set<Ref>, fired: set<Ref>)
    requires fired <= all
    ensures |all - fired| == 0 <==> fired == all
  {
    assert fired == all ==> all - fired == {};
    assert |all - fired| == 0 ==> all - fired == {};
  }

  lemma {:induction false} DistinctSize(refs: seq<Ref>)
    requires Distinct(refs)
    ensures |Set(refs)| == |refs|
  {
    if refs == [] {
      assert Set(refs) == {};
    } else {
      var n := |refs| - 1;
      DistinctSize(refs[..n]);
      assert refs == refs[..n] + [refs[n]];
      assert Set(refs) == Set(refs[..n]) + {refs[n]};
    }
  }
}
