/** What the invariants mean: results about every reachable state of the lock-level machine. */
module LateBoundTheorems {
  import opened Wrappers
  import opened LateBoundMachine
  import opened LateBoundInvariants

  ghost predicate Inv(s: State) {
    LockInv(s) && RegInv(s) && HostInv(s)
  }

  lemma {:induction false} RunInvariants(states: seq<State>, run: seq<Action>, serial: bool, n: nat)
    requires IsRun(states, run, serial) && states[0] == INIT && n <= |run|
    ensures Inv(states[n])
    ensures serial ==> SerialInv(states[n])
    ensures states[n].subscribes < WRAP ==> IdInv(states[n])
  {
    if n > 0 {
      RunInvariants(states, run, serial, n - 1);
      assert IsStep(states, run, n - 1, serial);
      InvStep(states[n - 1], run[n - 1], serial);
    }
  }

  lemma InvStep(s: State, a: Action, serial: bool)
    requires Enabled(s, a, serial)
    requires Inv(s) && (serial ==> SerialInv(s)) && (s.subscribes < WRAP ==> IdInv(s))
    ensures var s' := Do(s, a); Inv(s') && (serial ==> SerialInv(s')) && (s'.subscribes < WRAP ==> IdInv(s'))
  {
    LockStep(s, a);
    RegStep(s, a);
    HostStep(s, a);
    if serial { SerialStep(s, a); }
    assert Do(s, a).subscribes >= s.subscribes;
    if Do(s, a).subscribes < WRAP { IdStep(s, a); }
  }

  lemma ReachableInv(s: State, serial: bool)
    requires Reachable(s, serial)
    ensures Inv(s)
    ensures serial ==> SerialInv(s)
    ensures s.subscribes < WRAP ==> IdInv(s)
  {
    var run :| Leads(INIT, run, serial, s);
    var states :| IsRun(states, run, serial) && states[0] == INIT && states[|run|] == s;
    RunInvariants(states, run, serial, |run|);
  }

  // ---- Conservation of registrations

  lemma {:induction false} FiredWithout(live: map<Token, Registration>, k: Token, at: Option<Host>, l: Listener, n: Token)
    requires k in live
    ensures k >= n ==> Fired(live - {k}, at, l, n) == Fired(live, at, l, n)
    ensures k < n ==>
              Fired(live, at, l, n) == Fired(live - {k}, at, l, n) + Heard(live[k], at, l)
  {
    if n > 0 {
      FiredWithout(live, k, at, l, n - 1);
    }
  }

  lemma {:induction false} FiredNothing(live: map<Token, Registration>, at: Option<Host>, l: Listener, n: Token)
    requires forall k :: k in live ==> at.Some? && live[k].host != at.value
    ensures Fired(live, at, l, n) == 0
  {
    if n > 0 { FiredNothing(live, at, l, n - 1); }
  }

  lemma {:induction false} FiredEverywhere(live: map<Token, Registration>, h: Host, l: Listener, n: Token)
    requires forall k :: k in live ==> live[k].host == h
    ensures Fired(live, Some(h), l, n) == Fired(live, None, l, n)
  {
    if n > 0 { FiredEverywhere(live, h, l, n - 1); }
  }

  ghost function PendingHeard(live: map<Token, Registration>, pending: Option<Token>, l: Listener): nat {
    if pending.Some? && pending.value in live then Heard(live[pending.value], None, l) else 0
  }

  lemma {:induction false} FiredSlots(live: map<Token, Registration>, slots: seq<Slot>, pending: Option<Token>, l: Listener, n: Token)
    requires TokensDistinct(slots)
    requires forall x :: x in slots && x.token.Some? ==> x.token.value in live && live[x.token.value].listener == x.listener
    requires forall k :: k in live ==> k < n && (Owned(slots, k) || pending == Some(k))
    requires pending.Some? ==> pending.value in live && !Owned(slots, pending.value)
    ensures Fired(live, None, l, n) == Registered(slots, l) + PendingHeard(live, pending, l)
  {
    if slots == [] {
      if pending.Some? {
        FiredWithout(live, pending.value, None, l, n);
        FiredEmpty(live - {pending.value}, l, n);
      } else {
        FiredEmpty(live, l, n);
      }
    } else {
      var x, rest := slots[0], slots[1..];
      var left := if x.token.Some? then live - {x.token.value} else live;
      assert x in slots;
      FirstOwner(slots);
      FiredSlots(left, rest, pending, l, n);
      if x.token.Some? { FiredWithout(live, x.token.value, None, l, n); }
    }
  }

  /** What the first slot does not own, the others do; what it owns, they do not. */
  lemma FirstOwner(slots: seq<Slot>)
    requires slots != [] && TokensDistinct(slots)
    ensures TokensDistinct(slots[1..])
    ensures forall x :: x in slots[1..] ==> x in slots
    ensures forall k: nat :: Owned(slots, k) <==> Owned(slots[1..], k) || slots[0].token == Some(k)
    ensures slots[0].token.Some? ==> !Owned(slots[1..], slots[0].token.value)
  {
    var rest := slots[1..];
    assert slots == [slots[0]] + rest;
    assert forall j :: 0 <= j < |rest| ==> rest[j] == slots[j + 1];
  }

  lemma {:induction false} FiredEmpty(live: map<Token, Registration>, l: Listener, n: Token)
    requires live == map[]
    ensures Fired(live, None, l, n) == 0
  {
    if n > 0 { FiredEmpty(live, l, n - 1); }
  }

  /**
    In every reachable state, overlapping `set` calls and half-done replays included, the
    registrations held at all hosts together are the buffered callbacks that have a real
    subscription, each once, and the one a running subscribe is about to push.
  */
  lemma RegistrationsConserved(s: State, l: Listener)
    requires Reachable(s, false)
    ensures Fired(s.live, None, l, s.nextToken) ==
            Registered(s.slots, l) + PendingHeard(s.live, Pending(s), l)
  {
    ReachableInv(s, false);
    FiredSlots(s.live, s.slots, Pending(s), l, s.nextToken);
  }

  lemma {:induction false} FiredAtTwo(live: map<Token, Registration>, g: Host, h: Host, l: Listener, n: Token)
    requires g != h
    ensures Fired(live, Some(g), l, n) + Fired(live, Some(h), l, n) <= Fired(live, None, l, n)
  {
    if n > 0 { FiredAtTwo(live, g, h, l, n - 1); }
  }

  lemma {:induction false} RegisteredSome(slots: seq<Slot>, l: Listener)
    ensures Registered(slots, l) <= Buffered(slots, l)
  {
    if slots != [] { RegisteredSome(slots[1..], l); }
  }

  /**
    Two hosts together never hold a callback more often than it was subscribed, even in the
    middle of a replay: one subscribed once is never registered at two hosts.
  */
  lemma NeverAtTwoHosts(s: State, l: Listener, g: Host, h: Host)
    requires Reachable(s, false) && g != h
    ensures Fired(s.live, Some(g), l, s.nextToken) + Fired(s.live, Some(h), l, s.nextToken) <=
            Buffered(s.slots, l) + PendingHeard(s.live, Pending(s), l)
  {
    RegistrationsConserved(s, l);
    FiredAtTwo(s.live, g, h, l, s.nextToken);
    RegisteredSome(s.slots, l);
  }

  ghost predicate At(s: State, x: Slot, h: Host) {
    x.token.Some? && x.token.value in s.live && s.live[x.token.value] == Registration(h, x.listener)
  }

  /** No two slots share a registration, so the one a slot holds is its callback's only one. */
  lemma RegistrationsNotShared(s: State, i: nat, j: nat)
    requires Reachable(s, false) && i < |s.slots| && j < |s.slots| && i != j && s.slots[i].token.Some?
    ensures exists h :: At(s, s.slots[i], h)
    ensures s.slots[i].token != s.slots[j].token
  {
    ReachableInv(s, false);
    assert s.slots[i] in s.slots;
    assert At(s, s.slots[i], s.live[s.slots[i].token.value].host);
    if j < i { assert s.slots[j].token.Some? ==> s.slots[j].token != s.slots[i].token; }
  }

  /** A replay that has run to its end leaves every slot it saw, and no other registration, at its host. */
  lemma ReplayMovesEverything(s: State, t: Thread)
    requires Reachable(s, false) && CanRun(s, t) && s.threads[t].SetReplays? && NextPc(s, t) == None
    ensures forall x :: x in s.slots ==> At(s, x, s.threads[t].host)
    ensures forall k :: k in s.live ==> s.live[k].host == s.threads[t].host
  {
    ReachableInv(s, false);
    FinishedReplay(s, t);
  }

  // ---- Agreement with the bound host

  /** A slot untouched since the last replay. */
  ghost predicate Older(s: State, x: Slot) {
    x.token.Some? && x.token.value < s.mark
  }

  /**
    After any interleaving of `set` calls, once none is running: every slot is at the
    bound host or at the host of the last replay to finish, and all of them are at the
    bound host if and only if that replay was for it or nothing it moved is left.
  */
  lemma AgreementExactly(s: State, h: Host)
    requires Reachable(s, false) && !SetInFlight(s) && s.inner == Some(h)
    ensures forall x :: x in s.slots ==> At(s, x, h) || (s.replayed.Some? && At(s, x, s.replayed.value))
    ensures (forall x :: x in s.slots ==> At(s, x, h)) <==>
            (s.replayed == Some(h) || forall x :: x in s.slots ==> !Older(s, x))
  {
    ReachableInv(s, false);
    assert !Dirty(s);
  }

  /** The slot of a guard, registered at `h`, and no other slot with the guard's id. */
  ghost predicate OneSlotAt(s: State, id: nat, l: Listener, h: Host) {
    exists i :: 0 <= i < |s.slots| && s.slots[i].id == id && s.slots[i].listener == l && At(s, s.slots[i], h)
                && forall j :: 0 <= j < |s.slots| && j != i ==> s.slots[j].id != id && s.slots[j].token != s.slots[i].token
  }

  lemma OnlySlot(slots: seq<Slot>, i: nat)
    requires IdsDistinct(slots) && TokensDistinct(slots) && i < |slots| && slots[i].token.Some?
    ensures forall j :: 0 <= j < |slots| && j != i ==> slots[j].id != slots[i].id && slots[j].token != slots[i].token
  {
    forall j | 0 <= j < |slots| && j != i
      ensures slots[j].id != slots[i].id && slots[j].token != slots[i].token
    {
      if j < i {
        assert slots[j].id != slots[i].id;
      } else {
        assert slots[i].id != slots[j].id;
      }
    }
  }

  lemma SerialHosts(s: State, h: Host)
    requires Reachable(s, true) && !SetInFlight(s) && s.inner == Some(h)
    ensures forall x :: x in s.slots ==> At(s, x, h)
    ensures forall k :: k in s.live ==> s.live[k].host == h
  {
    ReachableInv(s, true);
    assert !Dirty(s);
  }

  lemma GuardHasSlot(s: State, id: nat, h: Host)
    requires IdsDistinct(s.slots) && TokensDistinct(s.slots) && id in s.guards && HasSlot(s, id, s.guards[id])
    requires forall x :: x in s.slots ==> At(s, x, h)
    ensures OneSlotAt(s, id, s.guards[id], h)
  {
    var x :| x in s.slots && x.id == id && x.listener == s.guards[id];
    var i :| 0 <= i < |s.slots| && s.slots[i] == x;
    OnlySlot(s.slots, i);
  }

  /**
    When `set` calls do not overlap and fewer than 2^64 subscriptions were made: with no
    `set` running, every live guard owns exactly one slot, registered once and at the
    bound host; an event at any other host runs nothing.
  */
  lemma GuardsServedByBoundHost(s: State, h: Host)
    requires Reachable(s, true) && s.subscribes < WRAP && !SetInFlight(s) && s.inner == Some(h)
    ensures forall id :: id in s.guards ==> OneSlotAt(s, id, s.guards[id], h)
    ensures forall g, l :: g != h ==> Fired(s.live, Some(g), l, s.nextToken) == 0
  {
    ReachableInv(s, true);
    SerialHosts(s, h);
    forall id | id in s.guards
      ensures OneSlotAt(s, id, s.guards[id], h)
    {
      GuardHasSlot(s, id, h);
    }
    forall g, l | g != h
      ensures Fired(s.live, Some(g), l, s.nextToken) == 0
    {
      FiredNothing(s.live, Some(g), l, s.nextToken);
    }
  }

  lemma {:induction false} RegisteredAll(slots: seq<Slot>, l: Listener)
    requires forall x :: x in slots ==> x.token.Some?
    ensures Registered(slots, l) == Buffered(slots, l)
  {
    if slots != [] {
      RegisteredAll(slots[1..], l);
      assert slots[0] in slots;
    }
  }

  /** Every slot holds a registration once a host is bound and no `set` is running. */
  lemma EventCount(s: State, h: Host, l: Listener)
    requires Reachable(s, true) && !SetInFlight(s) && s.inner == Some(h)
    ensures Fired(s.live, Some(h), l, s.nextToken) == Buffered(s.slots, l) + PendingHeard(s.live, Pending(s), l)
  {
    ReachableInv(s, true);
    SerialHosts(s, h);
    FiredEverywhere(s.live, h, l, s.nextToken);
    FiredSlots(s.live, s.slots, Pending(s), l, s.nextToken);
    RegisteredAll(s.slots, l);
  }

  /**
    Under the same condition, whatever subscribes, drops and reads are running: an event at
    the bound host runs a callback once for each slot that buffers it, and once more for the
    subscribe about to push one; the slots are one for each live guard, and one for each
    subscribe about to return or drop not yet done.
  */
  lemma EventReachesEachGuardOnce(s: State, h: Host, l: Listener)
    requires Reachable(s, true) && s.subscribes < WRAP && !SetInFlight(s) && s.inner == Some(h)
    ensures Fired(s.live, Some(h), l, s.nextToken) == Buffered(s.slots, l) + PendingHeard(s.live, Pending(s), l)
    ensures forall id :: id in s.guards ==> OneSlotAt(s, id, s.guards[id], h)
    ensures IdsDistinct(s.slots)
    ensures forall x :: x in s.slots ==> Answerable(s, x.id)
  {
    EventCount(s, h, l);
    GuardsServedByBoundHost(s, h);
    ReachableInv(s, true);
  }

  /** With no call running at all, slots and live guards correspond one to one and nothing else is heard. */
  lemma QuietEvent(s: State, h: Host, l: Listener)
    requires Reachable(s, true) && s.subscribes < WRAP && s.threads == map[] && s.inner == Some(h)
    ensures Fired(s.live, Some(h), l, s.nextToken) == Buffered(s.slots, l)
    ensures IdsDistinct(s.slots)
    ensures forall x :: x in s.slots ==> x.id in s.guards && s.guards[x.id] == x.listener
    ensures forall id :: id in s.guards ==> exists x :: x in s.slots && x.id == id
  {
    EventCount(s, h, l);
    ReachableInv(s, true);
    forall x | x in s.slots
      ensures x.id in s.guards && s.guards[x.id] == x.listener
    {
      QuietSlot(s, x);
    }
  }

  lemma QuietSlot(s: State, x: Slot)
    requires IdInv(s) && s.threads == map[] && x in s.slots
    ensures x.id in s.guards && s.guards[x.id] == x.listener
  {
    assert Answerable(s, x.id);
    var y :| y in s.slots && y.id == x.id && y.listener == s.guards[x.id];
    SameIdSameSlot(s.slots, x, y);
  }

  // ---- Progress

  predicate WriterWaits(s: State) {
    exists t :: t in s.threads && s.threads[t].SetWantsInner?
  }

  /** A step that a lock which holds readers back while a writer waits would also allow. */
  predicate CanRunBehindWriters(s: State, t: Thread) {
    CanRun(s, t) && (s.threads[t].SubWantsInner? || s.threads[t].ReadWantsInner? ==> !WriterWaits(s))
  }

  /** No reachable state with a call under way is stuck, not even if waiting writers keep readers out. */
  lemma SomeThreadCanRun(s: State)
    requires Reachable(s, false) && s.threads != map[]
    ensures exists t :: CanRunBehindWriters(s, t)
  {
    ReachableInv(s, false);
    if s.writer.Some? {
      assert CanRunBehindWriters(s, s.writer.value);
    } else if s.readers != {} {
      var t :| t in s.readers;
      assert CanRunBehindWriters(s, t);
    } else if WriterWaits(s) {
      var t :| t in s.threads && s.threads[t].SetWantsInner?;
      assert CanRunBehindWriters(s, t);
    } else if s.subs.Some? {
      assert CanRunBehindWriters(s, s.subs.value);
    } else {
      var t :| t in s.threads;
      assert CanRunBehindWriters(s, t);
    }
  }

  ghost predicate WillPush(pc: Pc) {
    pc.SubWantsSubs? || pc.SubAllocates? || InHand(pc)
  }

  ghost function Pushers(s: State): set<Thread> {
    set t | t in s.threads && WillPush(s.threads[t])
  }

  /** Slots there can be before another call comes in. */
  ghost function Room(s: State): nat {
    |s.slots| + |Pushers(s)|
  }

  /** An upper bound on the steps a thread still takes if no call comes in. */
  ghost function StepsLeft(room: nat, pc: Pc): int {
    match pc
    case SetWantsInner(_) => 2 * room + 4
    case SetHoldsInner(_) => 2 * room + 3
    case SetWantsSubs(_) => 2 * room + 2
    case SetReplays(_, next, dropped) => 2 * (room - next) + (if dropped then 0 else 1)
    case SubWantsSubs(_) => 6
    case SubAllocates(_) => 5
    case SubWantsInner(_, _) => 4
    case SubRegisters(_, _) => 3
    case SubPushes(_, _, _) => 2
    case SubReturns(_, _) => 1
    case DropWantsSubs(_, _) => 2
    case DropRetains(_, _) => 1
    case ReadWantsInner => 2
    case ReadHoldsInner => 1
  }

  lemma {:induction false} RetainedLength(slots: seq<Slot>, c: Channel, id: nat)
    ensures |Retained(slots, c, id)| <= |slots|
  {
    if slots != [] { RetainedLength(slots[1..], c, id); }
  }

  lemma SlotsGrowByPushes(s: State, t: Thread)
    requires CanRun(s, t)
    ensures |Advance(s, t).slots| <= |s.slots| + if s.threads[t].SubPushes? then 1 else 0
  {
    if s.threads[t].DropRetains? { RetainedLength(s.slots, s.threads[t].listener.channel, s.threads[t].id); }
  }

  lemma RoomShrinks(s: State, t: Thread)
    requires CanRun(s, t)
    ensures Room(Advance(s, t)) <= Room(s)
  {
    var s' := Advance(s, t);
    SlotsGrowByPushes(s, t);
    if s.threads[t].SubPushes? {
      assert Pushers(s') == Pushers(s) - {t};
    } else {
      assert t in s'.threads ==> WillPush(s'.threads[t]) == WillPush(s.threads[t]);
      assert Pushers(s') == Pushers(s);
    }
  }

  lemma CallNearsEnd(s: State, t: Thread)
    requires CanRun(s, t) && (s.threads[t].SetReplays? ==> s.threads[t].next <= |s.slots|)
    requires t in Advance(s, t).threads
    ensures 0 <= StepsLeft(Room(Advance(s, t)), Advance(s, t).threads[t]) < StepsLeft(Room(s), s.threads[t])
  {
    RoomShrinks(s, t);
    if s.threads[t].SetReplays? {
      assert |Advance(s, t).slots| == |s.slots|;
    }
  }

  /** Every step brings its own call nearer to its end and pushes no other call back, so all calls return. */
  lemma EveryStepIsProgress(s: State, t: Thread)
    requires Reachable(s, false) && CanRun(s, t)
    ensures t in Advance(s, t).threads ==>
              0 <= StepsLeft(Room(Advance(s, t)), Advance(s, t).threads[t]) < StepsLeft(Room(s), s.threads[t])
    ensures forall u :: u in s.threads && u != t ==>
              u in Advance(s, t).threads
              && StepsLeft(Room(Advance(s, t)), Advance(s, t).threads[u]) <= StepsLeft(Room(s), s.threads[u])
  {
    assert s.threads[t].SetReplays? ==> s.threads[t].next <= |s.slots| by {
      ReachableInv(s, false);
      if s.threads[t].SetReplays? { assert Holder(s) == Some(s.threads[t]); }
    }
    RoomShrinks(s, t);
    OthersStay(s, Run(t));
    if t in Advance(s, t).threads { CallNearsEnd(s, t); }
  }

  /** The steps the threads below `n` still take, at most. */
  ghost function AllStepsLeft(room: nat, threads: map<Thread, Pc>, n: nat): int {
    if n == 0 then 0
    else
      var t := n - 1;
      AllStepsLeft(room, threads, t) + if t in threads then StepsLeft(room, threads[t]) else 0
  }

  ghost function Total(s: State, n: nat): int {
    AllStepsLeft(Room(s), s.threads, n)
  }

  ghost predicate AllBelow(s: State, n: nat) {
    forall t :: t in s.threads ==> t < n
  }

  /** Replays stand within the slots, so that no bound is negative. */
  ghost predicate Bounded(s: State) {
    forall t :: t in s.threads ==> StepsLeft(Room(s), s.threads[t]) > 0
  }

  lemma ReachableBounded(s: State)
    requires Reachable(s, false)
    ensures Bounded(s)
  {
    ReachableInv(s, false);
    forall t | t in s.threads
      ensures StepsLeft(Room(s), s.threads[t]) > 0
    {
      if s.threads[t].SetReplays? { assert Holder(s) == Some(s.threads[t]); }
    }
  }

  lemma {:induction false} TotalNonNegative(s: State, n: nat)
    requires Bounded(s)
    ensures Total(s, n) >= 0
  {
    if n > 0 { TotalNonNegative(s, n - 1); }
  }

  /** No thread is pushed back between `s` and `s'`, and `t` is brought nearer to its end. */
  ghost predicate Nearer(s: State, t: Thread, s': State) {
    && t in s.threads
    && (if t in s'.threads then StepsLeft(Room(s'), s'.threads[t]) < StepsLeft(Room(s), s.threads[t])
        else StepsLeft(Room(s), s.threads[t]) > 0)
    && (forall u :: u != t && u in s'.threads ==>
          u in s.threads && StepsLeft(Room(s'), s'.threads[u]) <= StepsLeft(Room(s), s.threads[u]))
    && (forall u :: u != t && u in s.threads ==> u in s'.threads)
  }

  lemma {:induction false} TotalFalls(s: State, t: Thread, s': State, n: nat)
    requires Nearer(s, t, s')
    ensures Total(s', n) <= Total(s, n) - if t < n then 1 else 0
  {
    if n > 0 { TotalFalls(s, t, s', n - 1); }
  }

  lemma StepIsNearer(s: State, t: Thread)
    requires Reachable(s, false) && CanRun(s, t)
    ensures Nearer(s, t, Advance(s, t))
  {
    EveryStepIsProgress(s, t);
    ReachableBounded(s);
    OthersStay(s, Run(t));
  }

  lemma {:induction false} RunShortens(s: State, states: seq<State>, run: seq<Action>, n: nat, i: nat)
    requires Reachable(s, false) && AllBelow(s, n) && IsRun(states, run, false) && states[0] == s && i <= |run|
    requires forall k :: 0 <= k < |run| ==> run[k].Run?
    ensures Reachable(states[i], false) && AllBelow(states[i], n) && i + Total(states[i], n) <= Total(s, n)
  {
    if i > 0 {
      var before := i - 1;
      RunShortens(s, states, run, n, before);
      assert IsStep(states, run, before, false);
      var mid, t := states[before], run[before].thread;
      StepIsNearer(mid, t);
      TotalFalls(mid, t, states[i], n);
      var next := Then(mid, run[before]);
    }
  }

  /**
    All calls return: from a reachable state whose threads are numbered below `n`, no run
    without new calls is longer than the steps left, and one that cannot go on has no call left.
  */
  lemma AllCallsReturn(s: State, run: seq<Action>, end: State, n: nat)
    requires Reachable(s, false) && AllBelow(s, n) && Leads(s, run, false, end)
    requires forall k :: 0 <= k < |run| ==> run[k].Run?
    ensures |run| <= Total(s, n)
    ensures (forall t :: !CanRunBehindWriters(end, t)) ==> end.threads == map[]
  {
    var states :| IsRun(states, run, false) && states[0] == s && states[|run|] == end;
    RunShortens(s, states, run, n, |run|);
    ReachableBounded(end);
    TotalNonNegative(end, n);
    if end.threads != map[] { SomeThreadCanRun(end); }
  }

  // ---- Two overlapping `set` calls

  const FIRST: Host := 1
  const SECOND: Host := 2
  const ALARM: Listener := Listener(Revocation, 7)

  const ALLOCATED: State :=
    INIT.(subs := Some(0), nextId := 1, subscribes := 1, threads := map[0 := SubWantsInner(ALARM, 1)])
  const SUBSCRIBED: State :=
    INIT.(nextId := 1, slots := [Slot(1, ALARM, None)], guards := map[1 := ALARM], subscribes := 1)
  const STORED: State :=
    SUBSCRIBED.(inner := Some(SECOND), threads := map[1 := SetWantsSubs(FIRST), 2 := SetWantsSubs(SECOND)])
  const SECOND_REPLAYED: State :=
    STORED.(slots := [Slot(1, ALARM, Some(0))], live := map[0 := Registration(SECOND, ALARM)], nextToken := 1,
            threads := map[1 := SetWantsSubs(FIRST)], replayed := Some(SECOND), mark := 1)
  const FIRST_REPLAYED: State :=
    STORED.(slots := [Slot(1, ALARM, Some(1))], live := map[1 := Registration(FIRST, ALARM)], nextToken := 2,
            threads := map[], replayed := Some(FIRST), mark := 2)

  lemma Then(s: State, a: Action) returns (next: State)
    requires Reachable(s, false) && Enabled(s, a, false)
    ensures Reachable(next, false) && next == Do(s, a)
  {
    next := Do(s, a);
    var run :| Leads(INIT, run, false, s);
    LeadsFurther(INIT, run, false, s, a, next);
  }

  /** One subscriber; `set(FIRST)` then `set(SECOND)` store their hosts; the second replays before the first. */
  lemma OverlappingSetsDisagree()
    ensures Reachable(FIRST_REPLAYED, false) && FIRST_REPLAYED.threads == map[]
    ensures FIRST_REPLAYED.inner == Some(SECOND)
    ensures At(FIRST_REPLAYED, FIRST_REPLAYED.slots[0], FIRST) && !At(FIRST_REPLAYED, FIRST_REPLAYED.slots[0], SECOND)
    ensures FIRST_REPLAYED.slots[0].id in FIRST_REPLAYED.guards
  {
    LeadsNowhere(INIT, false);
    AllocateId();
    SubscribeUnbound();
    StoreBoth();
    ReplaySecond();
    ReplayFirst();
  }

  lemma AllocateId()
    requires Reachable(INIT, false)
    ensures Reachable(ALLOCATED, false)
  {
    var s := INIT;
    s := Then(s, CallSubscribe(0, ALARM));
    s := Then(s, Run(0));
    s := Then(s, Run(0));
    assert s == ALLOCATED;
  }

  lemma SubscribeUnbound()
    requires Reachable(ALLOCATED, false)
    ensures Reachable(SUBSCRIBED, false)
  {
    var s := ALLOCATED;
    s := Then(s, Run(0));
    s := Then(s, Run(0));
    s := Then(s, Run(0));
    s := Then(s, Run(0));
    assert s == SUBSCRIBED;
  }

  lemma StoreBoth()
    requires Reachable(SUBSCRIBED, false)
    ensures Reachable(STORED, false)
  {
    var s := SUBSCRIBED;
    s := Then(s, CallSet(1, FIRST));
    s := Then(s, CallSet(2, SECOND));
    s := Then(s, Run(1));
    s := Then(s, Run(1));
    s := Then(s, Run(2));
    s := Then(s, Run(2));
    assert s == STORED;
  }

  lemma ReplaySecond()
    requires Reachable(STORED, false)
    ensures Reachable(SECOND_REPLAYED, false)
  {
    var s := STORED;
    s := Then(s, Run(2));
    s := Then(s, Run(2));
    s := Then(s, Run(2));
    s := Then(s, Run(2));
    assert s == SECOND_REPLAYED;
  }

  lemma ReplayFirst()
    requires Reachable(SECOND_REPLAYED, false)
    ensures Reachable(FIRST_REPLAYED, false)
  {
    var s := SECOND_REPLAYED;
    s := Then(s, Run(1));
    s := Then(s, Run(1));
    s := Then(s, Run(1));
    s := Then(s, Run(1));
    assert s == FIRST_REPLAYED;
  }
}
