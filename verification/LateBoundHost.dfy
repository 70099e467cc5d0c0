/**
  `LateBoundBackendHost` as the object it is, called by one thread at a time. Each method is
  proved to be one run of the lock-level machine, so everything known of the machine's
  reachable states holds of the object.
*/
module LateBoundHost {
  import opened Wrappers
  import opened LateBoundMachine
  import opened LateBoundInvariants
  import opened LateBoundTheorems
  import Text

  /** The registries of the inner hosts, as far as subscribing and dropping a subscription go. */
  class InnerHosts {
    var live: map<Token, Registration>
    var nextToken: Token

    constructor ()
      ensures live == map[] && nextToken == 0
    {
      live, nextToken := map[], 0;
    }

    method Subscribe(h: Host, l: Listener) returns (token: Token)
      modifies this
      ensures token == old(nextToken) && nextToken == token + 1
      ensures live == old(live)[token := Registration(h, l)]
    {
      token := nextToken;
      live, nextToken := live[token := Registration(h, l)], nextToken + 1;
    }

    /** The drop of a subscription, or of none. */
    method Release(token: Option<Token>)
      modifies this`live
      ensures live == if token.Some? then old(live) - {token.value} else old(live)
    {
      if token.Some? {
        live := live - {token.value};
      }
    }
  }

  // ---- A call on its own

  function Steps(n: nat): seq<Action> {
    seq(n, _ => Run(0))
  }

  /** The call `a`, made with nothing else running, has taken `n` steps and reached `s`. */
  ghost predicate After(start: State, a: Action, n: nat, s: State) {
    Leads(start, [a] + Steps(n), true, s)
  }

  /** The call `a`, run to its end with nothing else running, turns `start` into `end`. */
  ghost predicate Completes(start: State, a: Action, end: State) {
    end.threads == map[] && exists n: nat :: After(start, a, n, end)
  }

  lemma Begin(start: State, a: Action, next: State)
    requires Enabled(start, a, true) && next == Do(start, a)
    ensures After(start, a, 0, next)
  {
    LeadsNowhere(start, true);
    LeadsFurther(start, [], true, start, a, next);
    assert [a] + Steps(0) == [] + [a];
  }

  lemma Step(start: State, a: Action, n: nat, s: State, next: State)
    requires After(start, a, n, s) && CanRun(s, 0) && next == Advance(s, 0)
    ensures After(start, a, n + 1, next)
  {
    LeadsFurther(start, [a] + Steps(n), true, s, Run(0), next);
    assert [a] + Steps(n + 1) == [a] + Steps(n) + [Run(0)];
  }

  lemma StaysReachable(start: State, a: Action, end: State)
    requires Reachable(start, true) && Completes(start, a, end)
    ensures Reachable(end, true)
  {
    var run :| Leads(INIT, run, true, start);
    var n: nat :| After(start, a, n, end);
    LeadsOn(INIT, run, start, [a] + Steps(n), end, true);
  }

  /** `s` while thread 0 replays its slots at `h` and stands before slot `i`. */
  function Replaying(s: State, h: Host, i: nat): State {
    s.(subs := Some(0), threads := map[0 := SetReplays(h, i, false)])
  }

  function Unregister(live: map<Token, Registration>, token: Option<Token>): map<Token, Registration> {
    if token.Some? then live - {token.value} else live
  }

  function SlotMoved(s: State, h: Host, i: nat): State
    requires i < |s.slots|
  {
    var x := s.slots[i];
    s.(slots := s.slots[i := x.(token := Some(s.nextToken))], nextToken := s.nextToken + 1,
       live := Unregister(s.live, x.token)[s.nextToken := Registration(h, x.listener)])
  }

  lemma ReplaySlot(start: State, a: Action, n: nat, s: State, h: Host, i: nat)
    requires After(start, a, n, Replaying(s, h, i)) && i < |s.slots|
    ensures After(start, a, n + 2, Replaying(SlotMoved(s, h, i), h, i + 1))
  {
    var mid := Replaying(s, h, i);
    var dropped := Advance(mid, 0);
    Step(start, a, n, mid, dropped);
    var x := s.slots[i];
    assert dropped.slots[i].listener == x.listener;
    assert dropped.slots[i := x.(token := Some(s.nextToken))] == s.slots[i := x.(token := Some(s.nextToken))];
    Step(start, a, n + 1, dropped, Replaying(SlotMoved(s, h, i), h, i + 1));
  }

  /** The first steps of `set`: the host is stored, then the slots are locked. */
  lemma StoreThenLock(start: State, h: Host)
    requires start.threads == map[] && start.subs == None && start.writer == None && start.readers == {}
    ensures After(start, CallSet(0, h), 3, Replaying(start.(inner := Some(h)), h, 0))
  {
    var a := CallSet(0, h);
    var s0 := start.(threads := map[0 := SetWantsInner(h)]);
    var s1 := start.(writer := Some(0), threads := map[0 := SetHoldsInner(h)]);
    var s2 := start.(inner := Some(h), threads := map[0 := SetWantsSubs(h)]);
    Begin(start, a, s0);
    Step(start, a, 0, s0, s1);
    Step(start, a, 1, s1, s2);
    Step(start, a, 2, s2, Replaying(start.(inner := Some(h)), h, 0));
  }

  lemma FinishReplay(start: State, a: Action, n: nat, s: State, h: Host)
    requires After(start, a, n, Replaying(s, h, |s.slots|)) && s.subs == None && s.threads == map[]
    ensures Completes(start, a, s.(replayed := Some(h), mark := s.nextToken))
  {
    Step(start, a, n, Replaying(s, h, |s.slots|), s.(replayed := Some(h), mark := s.nextToken));
  }

  lemma SubscribeLocks(start: State, l: Listener)
    requires start.threads == map[] && start.subs == None
    ensures After(start, CallSubscribe(0, l), 1, start.(subs := Some(0), threads := map[0 := SubAllocates(l)]))
  {
    var s0 := start.(threads := map[0 := SubWantsSubs(l)]);
    Begin(start, CallSubscribe(0, l), s0);
    Step(start, CallSubscribe(0, l), 0, s0, start.(subs := Some(0), threads := map[0 := SubAllocates(l)]));
  }

  lemma SubscribeCompletes(start: State, l: Listener)
    requires start.threads == map[] && start.subs == None && start.writer == None && start.readers == {}
    ensures Completes(start, CallSubscribe(0, l), Buffering(start, l))
  {
    var a := CallSubscribe(0, l);
    var s2 := Allocated(start, SubWantsInner(l, NextId(start)));
    var s3 := Allocated(start, SubRegisters(l, NextId(start))).(readers := {0});
    SubscribeLocks(start, l);
    Step(start, a, 1, start.(subs := Some(0), threads := map[0 := SubAllocates(l)]), s2);
    Step(start, a, 2, s2, s3);
    PushCompletes(start, l, s3);
  }

  function NextId(s: State): nat {
    (s.nextId + 1) % WRAP
  }

  function Allocated(s: State, pc: Pc): State {
    s.(nextId := NextId(s), subscribes := s.subscribes + 1, subs := Some(0), threads := map[0 := pc])
  }

  lemma PushCompletes(start: State, l: Listener, s3: State)
    requires start.threads == map[] && start.subs == None && start.writer == None && start.readers == {}
    requires s3 == Allocated(start, SubRegisters(l, NextId(start))).(readers := {0})
    requires After(start, CallSubscribe(0, l), 3, s3)
    ensures Completes(start, CallSubscribe(0, l), Buffering(start, l))
  {
    var a := CallSubscribe(0, l);
    var s4 := Advance(s3, 0);
    var s5 := Advance(s4, 0);
    assert s3.readers - {0} == {};
    Step(start, a, 3, s3, s4);
    Step(start, a, 4, s4, s5);
    Step(start, a, 5, s5, Buffering(start, l));
  }

  /** `s` after an undisturbed subscribe. */
  function Buffering(s: State, l: Listener): State {
    var id := NextId(s);
    var r := if s.inner.Some? then Register(s, s.inner.value, l) else s;
    var x := NewSlot(s, l);
    r.(nextId := id, subscribes := s.subscribes + 1, slots := Push(s.slots, x), guards := s.guards[id := l])
  }

  lemma DropCompletes(start: State, id: nat)
    requires start.threads == map[] && start.subs == None && id in start.guards
    ensures Completes(start, CallDrop(0, id), Dropping(start, start.guards[id].channel, id))
  {
    var a := CallDrop(0, id);
    var s0 := start.(guards := start.guards - {id}, threads := map[0 := DropWantsSubs(start.guards[id], id)]);
    var s1 := s0.(subs := Some(0), threads := map[0 := DropRetains(start.guards[id], id)]);
    Begin(start, a, s0);
    Step(start, a, 0, s0, s1);
    Step(start, a, 1, s1, Dropping(start, start.guards[id].channel, id));
  }

  /** `s` after an undisturbed drop of the guard `id`. */
  function Dropping(s: State, c: Channel, id: nat): State {
    s.(guards := s.guards - {id}, slots := Retained(s.slots, c, id), live := s.live - Released(s.slots, c, id))
  }

  // ---- The two vectors

  ghost predicate AllOn(slots: seq<Slot>, c: Channel) {
    forall x :: x in slots ==> x.listener.channel == c
  }

  lemma {:induction false} CountOfVectors(revocation: seq<Slot>, rotation: seq<Slot>)
    requires AllOn(revocation, Revocation) && AllOn(rotation, Rotation)
    ensures RevocationCount(revocation + rotation) == |revocation|
  {
    if revocation != [] {
      assert (revocation + rotation)[1..] == revocation[1..] + rotation;
      CountOfVectors(revocation[1..], rotation);
      assert revocation[0] in revocation;
    } else if rotation != [] {
      assert revocation + rotation == rotation;
      assert rotation[0] in rotation;
      assert [] + rotation[1..] == rotation[1..];
      CountOfVectors([], rotation[1..]);
    }
  }

  lemma PushToVector(revocation: seq<Slot>, rotation: seq<Slot>, x: Slot)
    requires AllOn(revocation, Revocation) && AllOn(rotation, Rotation)
    ensures Push(revocation + rotation, x) ==
            if x.listener.channel.Revocation? then (revocation + [x]) + rotation else revocation + (rotation + [x])
  {
    CountOfVectors(revocation, rotation);
    var both := revocation + rotation;
    assert both[..|revocation|] == revocation && both[|revocation|..] == rotation;
    assert both[..|both|] == both;
  }

  /** The slot an undisturbed subscribe pushes. */
  function NewSlot(s: State, l: Listener): Slot {
    Slot(NextId(s), l, if s.inner.Some? then Some(s.nextToken) else None)
  }

  /** `end` is `start` with the slots `slots` and the registration of a new one, if a host is bound. */
  ghost predicate Subscribes(start: State, l: Listener, slots: seq<Slot>, end: State) {
    && end.slots == slots
    && end.live == (if start.inner.Some? then start.live[start.nextToken := Registration(start.inner.value, l)] else start.live)
    && end.nextToken == start.nextToken + (if start.inner.Some? then 1 else 0)
    && end.nextId == NextId(start) && end.subscribes == start.subscribes + 1 && end.guards == start.guards[NextId(start) := l]
    && end.inner == start.inner && end.writer == start.writer && end.readers == start.readers && end.subs == start.subs
    && end.threads == start.threads && end.replayed == start.replayed && end.mark == start.mark
  }

  lemma SubscribeEnds(start: State, l: Listener, slots: seq<Slot>, end: State)
    requires start.threads == map[] && start.subs == None && start.writer == None && start.readers == {}
    requires Reachable(start, true) && slots == Push(start.slots, NewSlot(start, l)) && Subscribes(start, l, slots, end)
    ensures Completes(start, CallSubscribe(0, l), end) && Reachable(end, true)
  {
    assert end == Buffering(start, l);
    SubscribeCompletes(start, l);
    StaysReachable(start, CallSubscribe(0, l), end);
  }

  lemma PushedOn(slots: seq<Slot>, c: Channel, x: Slot)
    requires AllOn(slots, c) && x.listener.channel == c
    ensures AllOn(slots + [x], c)
  {
  }

  lemma ReplayRight(start: State, a: Action, n: nat, s: State, revocation: seq<Slot>, rotation: seq<Slot>, h: Host, i: nat, at: nat)
    requires s.slots == revocation + rotation && i < |rotation| && at == |revocation| + i
    requires After(start, a, n, Replaying(s, h, at))
    ensures var x := rotation[i];
            After(start, a, n + 2,
                  Replaying(s.(slots := revocation + rotation[i := x.(token := Some(s.nextToken))], nextToken := s.nextToken + 1,
                               live := Unregister(s.live, x.token)[s.nextToken := Registration(h, x.listener)]),
                            h, at + 1))
  {
    ReplaySlot(start, a, n, s, h, at);
    UpdateRight(revocation, rotation, i, rotation[i].(token := Some(s.nextToken)));
  }

  lemma UpdateRight(a: seq<Slot>, b: seq<Slot>, i: nat, x: Slot)
    requires i < |b|
    ensures (a + b)[|a| + i := x] == a + b[i := x]
  {
  }

  lemma {:induction false} RetainedConcat(a: seq<Slot>, b: seq<Slot>, c: Channel, id: nat)
    ensures Retained(a + b, c, id) == Retained(a, c, id) + Retained(b, c, id)
  {
    if a == [] {
      assert a + b == b;
    } else {
      var rest := a[1..];
      assert (a + b)[0] == a[0] && (a + b)[1..] == rest + b;
      RetainedConcat(rest, b, c, id);
      var head := if Matches(a[0], c, id) then [] else [a[0]];
      Text.Assoc(head, Retained(rest, c, id), Retained(b, c, id));
    }
  }

  lemma {:induction false} RetainedOtherChannel(slots: seq<Slot>, on: Channel, c: Channel, id: nat)
    requires AllOn(slots, on) && on != c
    ensures Retained(slots, c, id) == slots && Released(slots, c, id) == {}
  {
    if slots != [] {
      assert slots[0] in slots;
      RetainedOtherChannel(slots[1..], on, c, id);
    }
  }

  /** `retain` on one vector: the slots with the id go, and with each its real subscription. */
  method Retain(slots: seq<Slot>, ghost c: Channel, id: nat, hosts: InnerHosts) returns (kept: seq<Slot>)
    requires AllOn(slots, c)
    modifies hosts`live
    ensures kept == Retained(slots, c, id)
    ensures hosts.live == old(hosts.live) - Released(slots, c, id)
  {
    kept := [];
    for i := 0 to |slots|
      invariant kept == Retained(slots[..i], c, id)
      invariant hosts.live == old(hosts.live) - Released(slots[..i], c, id)
    {
      var x := slots[i];
      assert slots[..i + 1] == slots[..i] + [x];
      RetainedConcat(slots[..i], [x], c, id);
      if x.id == id {
        hosts.Release(x.token);
      } else {
        kept := kept + [x];
      }
    }
    assert slots[..|slots|] == slots;
  }

  class LateBoundBackendHost {
    var inner: Option<Host>
    var nextId: nat
    var revocation: seq<Slot>
    var rotation: seq<Slot>
    const hosts: InnerHosts
    ghost var guards: map<nat, Listener>
    ghost var subscribes: nat
    ghost var replayed: Option<Host>
    ghost var mark: Token
    /** The hosts installed so far, in order. */
    ghost var installed: seq<Host>

    /** The machine's view of the object between two calls. */
    ghost function Abs(): State
      reads this, hosts
    {
      State(inner, None, {}, None, nextId, revocation + rotation, hosts.live, hosts.nextToken,
            guards, map[], subscribes, replayed, mark)
    }

    ghost predicate Valid()
      reads this, hosts
    {
      && AllOn(revocation, Revocation) && AllOn(rotation, Rotation) && Reachable(Abs(), true)
      && inner == (if installed == [] then None else Some(installed[|installed| - 1]))
    }

    constructor ()
      ensures Valid() && fresh(hosts) && Abs() == INIT && installed == []
    {
      inner, nextId, revocation, rotation := None, 0, [], [];
      hosts := new InnerHosts();
      guards, subscribes, replayed, mark, installed := map[], 0, None, 0, [];
      new;
      assert revocation + rotation == [];
      LeadsNowhere(INIT, true);
    }

    /** Whether `Set` was ever called. */
    method IsBound() returns (bound: bool)
      requires Valid()
      ensures bound <==> installed != []
    {
      bound := inner.Some?;
    }

    /** Stores the host, then moves every buffered subscription to it, in the order of the two vectors. */
    method Set(h: Host)
      requires Valid()
      modifies this, hosts
      ensures Valid()
      ensures Completes(old(Abs()), CallSet(0, h), Abs())
      ensures inner == Some(h) && guards == old(guards) && installed == old(installed) + [h]
      ensures SameIds(old(revocation), revocation) && SameIds(old(rotation), rotation)
      ensures forall x :: x in revocation + rotation ==> At(Abs(), x, h)
      ensures forall k :: k in hosts.live ==> hosts.live[k].host == h
    {
      ghost var start := Abs();
      inner, installed := Some(h), installed + [h];
      StoreThenLock(start, h);
      ghost var n := ReplayRevocation(h, start);
      n := ReplayRotation(h, start, n);
      FinishReplay(start, CallSet(0, h), n, Abs(), h);
      replayed, mark := Some(h), hosts.nextToken;
      StaysReachable(start, CallSet(0, h), Abs());
      SerialHosts(Abs(), h);
    }

    /** The first replay loop of `Set`. */
    method ReplayRevocation(h: Host, ghost start: State) returns (ghost n: nat)
      requires AllOn(revocation, Revocation)
      requires After(start, CallSet(0, h), 3, Replaying(Abs(), h, 0))
      modifies this`revocation, hosts
      ensures SameIds(old(revocation), revocation) && AllOn(revocation, Revocation)
      ensures After(start, CallSet(0, h), n, Replaying(Abs(), h, |revocation|))
    {
      n := 3;
      var i := 0;
      while i < |revocation|
        invariant i <= |revocation| && SameIds(old(revocation), revocation) && AllOn(revocation, Revocation)
        invariant After(start, CallSet(0, h), n, Replaying(Abs(), h, i))
      {
        ghost var before := Abs();
        var x := revocation[i];
        assert x in revocation;
        revocation := revocation[i := x.(token := None)];
        hosts.Release(x.token);
        var token := hosts.Subscribe(h, x.listener);
        revocation := revocation[i := x.(token := Some(token))];
        ReplaySlot(start, CallSet(0, h), n, before, h, i);
        assert Abs().slots == SlotMoved(before, h, i).slots;
        n, i := n + 2, i + 1;
      }
    }

    /** The second one. */
    method ReplayRotation(h: Host, ghost start: State, ghost n0: nat) returns (ghost n: nat)
      requires AllOn(rotation, Rotation)
      requires After(start, CallSet(0, h), n0, Replaying(Abs(), h, |revocation|))
      modifies this`rotation, hosts
      ensures SameIds(old(rotation), rotation) && AllOn(rotation, Rotation)
      ensures After(start, CallSet(0, h), n, Replaying(Abs(), h, |revocation + rotation|))
    {
      n := n0;
      var i := 0;
      ghost var at := |revocation|;
      while i < |rotation|
        invariant i <= |rotation| && SameIds(old(rotation), rotation) && AllOn(rotation, Rotation)
        invariant at == |revocation| + i && After(start, CallSet(0, h), n, Replaying(Abs(), h, at))
      {
        ghost var before := Abs();
        ReplayRight(start, CallSet(0, h), n, before, revocation, rotation, h, i, at);
        var x := rotation[i];
        assert x in rotation;
        ghost var moved := rotation[i := x.(token := Some(hosts.nextToken))];
        rotation := rotation[i := x.(token := None)];
        hosts.Release(x.token);
        var token := hosts.Subscribe(h, x.listener);
        rotation := rotation[i := x.(token := Some(token))];
        assert rotation == moved;
        n, i, at := n + 2, i + 1, at + 1;
      }
      assert at == |revocation + rotation|;
    }

    /** The registration a subscribe would get now: none while no host is bound. */
    function NextToken(): Option<Token>
      reads this, hosts
    {
      if inner.Some? then Some(hosts.nextToken) else None
    }

    /** The real subscription of a new slot: one at the bound host, if there is one. */
    method Connect(l: Listener) returns (token: Option<Token>)
      modifies hosts
      ensures token == old(NextToken())
      ensures hosts.nextToken == old(hosts.nextToken) + if inner.Some? then 1 else 0
      ensures hosts.live ==
              if inner.Some? then old(hosts.live)[old(hosts.nextToken) := Registration(inner.value, l)] else old(hosts.live)
    {
      token := None;
      if inner.Some? {
        var t := hosts.Subscribe(inner.value, l);
        token := Some(t);
      }
    }

    /** The part of a subscribe that runs under the `subscriptions` lock. */
    method BufferRevocation(l: Listener) returns (id: nat)
      modifies `nextId, `revocation, hosts
      ensures id == nextId == (old(nextId) + 1) % WRAP
      ensures revocation == old(revocation) + [Slot(id, l, old(NextToken()))]
      ensures hosts.nextToken == old(hosts.nextToken) + if inner.Some? then 1 else 0
      ensures hosts.live ==
              if inner.Some? then old(hosts.live)[old(hosts.nextToken) := Registration(inner.value, l)] else old(hosts.live)
    {
      nextId := (nextId + 1) % WRAP;
      id := nextId;
      var token := Connect(l);
      revocation := revocation + [Slot(id, l, token)];
    }

    /** Buffers a revocation callback, subscribing it at once when a host is bound; the result names its guard. */
    method SubscribeCredentialRevoked(callback: nat) returns (id: nat)
      requires Valid()
      modifies this, hosts
      ensures Valid()
      ensures Completes(old(Abs()), CallSubscribe(0, Listener(Revocation, callback)), Abs())
      ensures id == nextId && guards == old(guards)[id := Listener(Revocation, callback)] && installed == old(installed)
      ensures inner == old(inner) && rotation == old(rotation)
      ensures revocation == old(revocation) + [Slot(id, Listener(Revocation, callback), old(NextToken()))]
    {
      ghost var start := Abs();
      var l := Listener(Revocation, callback);
      ghost var x, was := NewSlot(start, l), revocation;
      PushToVector(revocation, rotation, x);
      PushedOn(revocation, Revocation, x);
      id := BufferRevocation(l);
      guards, subscribes := guards[id := l], subscribes + 1;
      SubscribeEnds(start, l, revocation + rotation, Abs());
    }

    /** The same for a rotation callback. */
    method BufferRotation(l: Listener) returns (id: nat)
      modifies `nextId, `rotation, hosts
      ensures id == nextId == (old(nextId) + 1) % WRAP
      ensures rotation == old(rotation) + [Slot(id, l, old(NextToken()))]
      ensures hosts.nextToken == old(hosts.nextToken) + if inner.Some? then 1 else 0
      ensures hosts.live ==
              if inner.Some? then old(hosts.live)[old(hosts.nextToken) := Registration(inner.value, l)] else old(hosts.live)
    {
      nextId := (nextId + 1) % WRAP;
      id := nextId;
      var token := Connect(l);
      rotation := rotation + [Slot(id, l, token)];
    }

    /** The same for a rotation callback. */
    method SubscribeSecretRotation(callback: nat) returns (id: nat)
      requires Valid()
      modifies this, hosts
      ensures Valid()
      ensures Completes(old(Abs()), CallSubscribe(0, Listener(Rotation, callback)), Abs())
      ensures id == nextId && guards == old(guards)[id := Listener(Rotation, callback)] && installed == old(installed)
      ensures inner == old(inner) && revocation == old(revocation)
      ensures rotation == old(rotation) + [Slot(id, Listener(Rotation, callback), old(NextToken()))]
    {
      ghost var start := Abs();
      var l := Listener(Rotation, callback);
      ghost var x, was := NewSlot(start, l), rotation;
      PushToVector(revocation, rotation, x);
      PushedOn(rotation, Rotation, x);
      id := BufferRotation(l);
      guards, subscribes := guards[id := l], subscribes + 1;
      SubscribeEnds(start, l, revocation + rotation, Abs());
    }

    /** The drop of a revocation guard. */
    method DropRevocationGuard(id: nat)
      requires Valid() && id in guards && guards[id].channel == Revocation
      modifies this, hosts
      ensures Valid()
      ensures Completes(old(Abs()), CallDrop(0, id), Abs())
      ensures inner == old(inner) && rotation == old(rotation) && guards == old(guards) - {id} && installed == old(installed)
      ensures forall x :: x in revocation <==> x in old(revocation) && x.id != id
    {
      ghost var start := Abs();
      DropCompletes(start, id);
      RetainedConcat(revocation, rotation, Revocation, id);
      RetainedOtherChannel(rotation, Rotation, Revocation, id);
      RetainedMembers(revocation, Revocation, id);
      assert Released(revocation + rotation, Revocation, id) == Released(revocation, Revocation, id);
      revocation := Retain(revocation, Revocation, id, hosts);
      guards := guards - {id};
      assert Abs() == Dropping(start, Revocation, id);
      StaysReachable(start, CallDrop(0, id), Abs());
    }

    /** The drop of a rotation guard. */
    method DropRotationGuard(id: nat)
      requires Valid() && id in guards && guards[id].channel == Rotation
      modifies this, hosts
      ensures Valid()
      ensures Completes(old(Abs()), CallDrop(0, id), Abs())
      ensures inner == old(inner) && revocation == old(revocation) && guards == old(guards) - {id} && installed == old(installed)
      ensures forall x :: x in rotation <==> x in old(rotation) && x.id != id
    {
      ghost var start := Abs();
      DropCompletes(start, id);
      RetainedConcat(revocation, rotation, Rotation, id);
      RetainedOtherChannel(revocation, Revocation, Rotation, id);
      RetainedMembers(rotation, Rotation, id);
      assert Released(revocation + rotation, Rotation, id) == Released(rotation, Rotation, id);
      rotation := Retain(rotation, Rotation, id, hosts);
      guards := guards - {id};
      assert Abs() == Dropping(start, Rotation, id);
      StaysReachable(start, CallDrop(0, id), Abs());
    }
  }
}
