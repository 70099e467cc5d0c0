/** The invariants of the lock-level machine, each kept by every step. */
module LateBoundInvariants {
  import opened Wrappers
  import opened LateBoundMachine

  // ---- Locks

  /** A lock is held by a thread exactly when that thread stands where it holds it. */
  ghost predicate LockInv(s: State) {
    SubsInv(s) && WriterInv(s) && ReaderInv(s)
  }

  ghost predicate SubsInv(s: State) {
    && (forall t :: t in s.threads ==> (s.threads[t].HoldsSubs() <==> s.subs == Some(t)))
    && (s.subs.Some? ==> s.subs.value in s.threads)
  }

  ghost predicate WriterInv(s: State) {
    && (forall t :: t in s.threads ==> (s.threads[t].SetHoldsInner? <==> s.writer == Some(t)))
    && (s.writer.Some? ==> s.writer.value in s.threads)
  }

  ghost predicate ReaderInv(s: State) {
    && (forall t :: t in s.threads ==> (s.threads[t].HoldsRead() <==> t in s.readers))
    && (forall t :: t in s.readers ==> t in s.threads)
    && (s.writer.Some? ==> s.readers == {})
  }

  /** No thread but `t` moves between `s` and `s'`. */
  ghost predicate OnlyMoves(s: State, t: Thread, s': State) {
    forall u :: u != t ==>
      (u in s'.threads <==> u in s.threads) && (u in s.threads ==> s'.threads[u] == s.threads[u])
  }

  lemma OthersStay(s: State, a: Action)
    requires Enabled(s, a, false)
    ensures OnlyMoves(s, a.thread, Do(s, a))
  {
  }

  ghost predicate InSubs(s: State, t: Thread) {
    t in s.threads && s.threads[t].HoldsSubs()
  }

  ghost predicate InWriter(s: State, t: Thread) {
    t in s.threads && s.threads[t].SetHoldsInner?
  }

  ghost predicate InReaders(s: State, t: Thread) {
    t in s.threads && s.threads[t].HoldsRead()
  }

  // A lock changes hands just as the thread goes in or out, and lets it in only when it is free.

  ghost predicate PassesSubs(s: State, t: Thread, s': State) {
    if InSubs(s', t) == InSubs(s, t) then s'.subs == s.subs
    else if InSubs(s', t) then s.subs == None && s'.subs == Some(t)
    else s'.subs == None
  }

  ghost predicate PassesWriter(s: State, t: Thread, s': State) {
    if InWriter(s', t) == InWriter(s, t) then s'.writer == s.writer
    else if InWriter(s', t) then s.writer == None && s.readers == {} && !InReaders(s', t) && s'.writer == Some(t)
    else s'.writer == None
  }

  ghost predicate PassesReaders(s: State, t: Thread, s': State) {
    if InReaders(s', t) == InReaders(s, t) then s'.readers == s.readers
    else if InReaders(s', t) then s.writer == None && s'.writer == None && s'.readers == s.readers + {t}
    else s'.readers == s.readers - {t}
  }

  lemma SubsPass(s: State, a: Action)
    requires Enabled(s, a, false)
    ensures PassesSubs(s, a.thread, Do(s, a))
  {
    if a.Run? { SubsPassRun(s, a.thread); }
  }

  lemma SubsPassRun(s: State, t: Thread)
    requires CanRun(s, t)
    ensures PassesSubs(s, t, Advance(s, t))
  {
  }

  lemma WriterPass(s: State, a: Action)
    requires Enabled(s, a, false)
    ensures PassesWriter(s, a.thread, Do(s, a))
  {
    if a.Run? { WriterPassRun(s, a.thread); }
  }

  lemma WriterPassRun(s: State, t: Thread)
    requires CanRun(s, t)
    ensures PassesWriter(s, t, Advance(s, t))
  {
  }

  lemma ReadersPass(s: State, a: Action)
    requires Enabled(s, a, false)
    ensures PassesReaders(s, a.thread, Do(s, a))
  {
    if a.Run? { ReadersPassRun(s, a.thread); }
  }

  lemma ReadersPassRun(s: State, t: Thread)
    requires CanRun(s, t)
    ensures PassesReaders(s, t, Advance(s, t))
  {
  }

  lemma SubsKept(s: State, t: Thread, s': State)
    requires SubsInv(s) && OnlyMoves(s, t, s') && PassesSubs(s, t, s')
    ensures SubsInv(s')
  {
  }

  lemma WriterKept(s: State, t: Thread, s': State)
    requires WriterInv(s) && OnlyMoves(s, t, s') && PassesWriter(s, t, s')
    ensures WriterInv(s')
  {
  }

  lemma ReadersKept(s: State, t: Thread, s': State)
    requires WriterInv(s) && ReaderInv(s) && OnlyMoves(s, t, s')
    requires PassesWriter(s, t, s') && PassesReaders(s, t, s')
    ensures ReaderInv(s')
  {
  }

  lemma SubsStep(s: State, a: Action)
    requires SubsInv(s) && Enabled(s, a, false)
    ensures SubsInv(Do(s, a))
  {
    OthersStay(s, a);
    SubsPass(s, a);
    SubsKept(s, a.thread, Do(s, a));
  }

  lemma LockStep(s: State, a: Action)
    requires LockInv(s) && Enabled(s, a, false)
    ensures LockInv(Do(s, a))
  {
    OthersStay(s, a);
    SubsPass(s, a);
    WriterPass(s, a);
    ReadersPass(s, a);
    SubsKept(s, a.thread, Do(s, a));
    WriterKept(s, a.thread, Do(s, a));
    ReadersKept(s, a.thread, Do(s, a));
  }

  /** The program counter of the thread inside the `subscriptions` lock. */
  ghost function Holder(s: State): Option<Pc> {
    if s.subs.Some? && s.subs.value in s.threads then Some(s.threads[s.subs.value]) else None
  }

  // ---- Registrations

  ghost predicate TokensDistinct(slots: seq<Slot>) {
    forall i, j :: 0 <= i < j < |slots| && slots[i].token.Some? ==> slots[i].token != slots[j].token
  }

  ghost predicate IdsDistinct(slots: seq<Slot>) {
    forall i, j :: 0 <= i < j < |slots| ==> slots[i].id != slots[j].id
  }

  ghost predicate Owned(slots: seq<Slot>, k: Token) {
    exists x :: x in slots && x.token == Some(k)
  }

  /** The registration a subscribe has made but not pushed yet. */
  ghost function Pending(s: State): Option<Token> {
    if Holder(s).Some? && Holder(s).value.SubPushes? then Holder(s).value.token else None
  }

  ghost predicate SlotsInv(s: State) {
    && (forall x :: x in s.slots && x.token.Some? ==>
          x.token.value in s.live && s.live[x.token.value].listener == x.listener)
    && TokensDistinct(s.slots)
  }

  ghost predicate LiveInv(s: State) {
    && s.mark <= s.nextToken
    && (forall k :: k in s.live ==> k < s.nextToken)
    && (forall k :: k in s.live ==> Owned(s.slots, k) || Pending(s) == Some(k))
    && (Pending(s).Some? ==>
          Pending(s).value in s.live && s.live[Pending(s).value].listener == Holder(s).value.listener
          && !Owned(s.slots, Pending(s).value))
  }

  /** The replay has moved every slot before `next` to its own host. */
  ghost predicate ReplayInv(s: State) {
    Holder(s).Some? && Holder(s).value.SetReplays? ==>
      var pc := Holder(s).value;
      && pc.next <= |s.slots|
      && (pc.dropped ==> pc.next < |s.slots| && s.slots[pc.next].token == None)
      && (forall j :: 0 <= j < pc.next ==>
            s.slots[j].token.Some? && s.slots[j].token.value in s.live
            && s.live[s.slots[j].token.value].host == pc.host)
  }

  /** No registration is shared, stray or doubled, at any host, in any interleaving. */
  ghost predicate RegInv(s: State) {
    SlotsInv(s) && LiveInv(s) && ReplayInv(s)
  }

  lemma {:induction false} RetainedMembers(slots: seq<Slot>, c: Channel, id: nat)
    ensures forall x :: x in Retained(slots, c, id) <==> x in slots && !Matches(x, c, id)
  {
    if slots != [] {
      RetainedMembers(slots[1..], c, id);
      assert slots == [slots[0]] + slots[1..];
    }
  }

  lemma {:induction false} RetainedDistinct(slots: seq<Slot>, c: Channel, id: nat)
    ensures TokensDistinct(slots) ==> TokensDistinct(Retained(slots, c, id))
    ensures IdsDistinct(slots) ==> IdsDistinct(Retained(slots, c, id))
  {
    if slots != [] {
      var rest := slots[1..];
      RetainedDistinct(rest, c, id);
      RetainedMembers(rest, c, id);
      assert forall x :: x in rest ==> exists j :: 1 <= j < |slots| && slots[j] == x;
      var kept := Retained(rest, c, id);
      assert forall i :: 0 <= i < |kept| ==> kept[i] in rest;
    }
  }

  lemma InsertDistinct(a: seq<Slot>, x: Slot, b: seq<Slot>)
    ensures TokensDistinct(a + b) && (x.token.Some? ==> !Owned(a + b, x.token.value)) ==> TokensDistinct(a + [x] + b)
    ensures IdsDistinct(a + b) && (forall y :: y in a + b ==> y.id != x.id) ==> IdsDistinct(a + [x] + b)
  {
    var was, now := a + b, a + [x] + b;
    assert forall i :: 0 <= i < |was| ==> was[i] in was;
    forall i, j | 0 <= i < j < |now|
      ensures TokensDistinct(was) && (x.token.Some? ==> !Owned(was, x.token.value)) ==>
                now[i].token.Some? ==> now[i].token != now[j].token
      ensures IdsDistinct(was) && (forall y :: y in was ==> y.id != x.id) ==> now[i].id != now[j].id
    {
      var i', j' := if i < |a| then i else i - 1, if j < |a| then j else j - 1;
      assert i != |a| ==> now[i] == was[i'];
      assert j != |a| ==> now[j] == was[j'];
    }
  }

  lemma PushMembers(slots: seq<Slot>, x: Slot)
    ensures forall y :: y in Push(slots, x) <==> y in slots || y == x
    ensures TokensDistinct(slots) && (x.token.Some? ==> !Owned(slots, x.token.value)) ==> TokensDistinct(Push(slots, x))
    ensures IdsDistinct(slots) && (forall y :: y in slots ==> y.id != x.id) ==> IdsDistinct(Push(slots, x))
  {
    var at := if x.listener.channel.Revocation? then RevocationCount(slots) else |slots|;
    assert slots == slots[..at] + slots[at..];
    InsertDistinct(slots[..at], x, slots[at..]);
  }

  /** Slot `at` gives up its registration. */
  lemma Unsubscribed(s: State, at: nat, s': State)
    requires SlotsInv(s) && LiveInv(s) && Pending(s) == None && Pending(s') == None
    requires at < |s.slots| && s'.mark == s.mark && s'.nextToken == s.nextToken
    requires s'.slots == s.slots[at := s.slots[at].(token := None)]
    requires var k := s.slots[at].token; s'.live == if k.Some? then s.live - {k.value} else s.live
    ensures SlotsInv(s') && LiveInv(s')
  {
    assert forall j :: 0 <= j < |s.slots| && j != at ==> s'.slots[j] == s.slots[j] && s.slots[j] in s.slots;
    assert s.slots[at] in s.slots;
    forall k | k in s'.live
      ensures Owned(s'.slots, k)
    {
      var j :| 0 <= j < |s.slots| && s.slots[j].token == Some(k);
      assert s'.slots[j] in s'.slots;
    }
  }

  lemma RegReplayDrops(s: State, t: Thread)
    requires LockInv(s) && RegInv(s) && CanRun(s, t)
    requires s.threads[t].SetReplays? && s.threads[t].next < |s.slots| && !s.threads[t].dropped
    ensures RegInv(Advance(s, t))
  {
    var s' := Advance(s, t);
    assert Holder(s) == Some(s.threads[t]) && Holder(s') == Some(s'.threads[t]);
    Unsubscribed(s, s.threads[t].next, s');
  }

  /** A fresh registration takes the place of slot `at`, which had none. */
  lemma Resubscribed(s: State, at: nat, s': State)
    requires SlotsInv(s) && LiveInv(s) && Pending(s) == None && Pending(s') == None
    requires at < |s.slots| && s.slots[at].token == None && s'.mark == s.mark
    requires s'.slots == s.slots[at := s.slots[at].(token := Some(s.nextToken))] && s'.nextToken == s.nextToken + 1
    requires exists h :: s'.live == s.live[s.nextToken := Registration(h, s.slots[at].listener)]
    ensures SlotsInv(s') && LiveInv(s')
  {
    assert forall j :: 0 <= j < |s.slots| && j != at ==> s'.slots[j] == s.slots[j] && s.slots[j] in s.slots;
    assert s'.slots[at] in s'.slots;
    forall k | k in s.live
      ensures Owned(s'.slots, k)
    {
      var j :| 0 <= j < |s.slots| && s.slots[j].token == Some(k);
      assert s'.slots[j] in s'.slots;
    }
  }

  lemma RegReplaySubscribes(s: State, t: Thread)
    requires LockInv(s) && RegInv(s) && CanRun(s, t)
    requires s.threads[t].SetReplays? && s.threads[t].next < |s.slots| && s.threads[t].dropped
    ensures RegInv(Advance(s, t))
  {
    var s' := Advance(s, t);
    assert Holder(s) == Some(s.threads[t]) && Holder(s') == Some(s'.threads[t]);
    Resubscribed(s, s.threads[t].next, s');
  }

  lemma RegDrop(s: State, t: Thread)
    requires LockInv(s) && RegInv(s) && CanRun(s, t) && s.threads[t].DropRetains?
    ensures RegInv(Advance(s, t))
  {
    var s' := Advance(s, t);
    var DropRetains(l, id) := s.threads[t];
    assert Holder(s) == Some(s.threads[t]);
    RetainedMembers(s.slots, l.channel, id);
    RetainedDistinct(s.slots, l.channel, id);
    forall x | x in s'.slots && x.token.Some?
      ensures x.token.value in s'.live
    {
      forall y | y in s.slots && y.token == x.token
        ensures y == x
      {
        SameTokenSameSlot(s.slots, x, y);
      }
    }
    forall k | k in s'.live
      ensures Owned(s'.slots, k)
    {
      var x :| x in s.slots && x.token == Some(k);
      assert x in s'.slots;
    }
  }

  lemma SameTokenSameSlot(slots: seq<Slot>, x: Slot, y: Slot)
    requires TokensDistinct(slots) && x in slots && y in slots && x.token.Some? && x.token == y.token
    ensures x == y
  {
    var i :| 0 <= i < |slots| && slots[i] == x;
    var j :| 0 <= j < |slots| && slots[j] == y;
    assert i == j;
  }

  lemma RegPush(s: State, t: Thread)
    requires LockInv(s) && RegInv(s) && CanRun(s, t) && s.threads[t].SubPushes?
    ensures RegInv(Advance(s, t))
  {
    var s' := Advance(s, t);
    var SubPushes(l, id, token) := s.threads[t];
    assert Holder(s) == Some(s.threads[t]) && Pending(s) == token;
    assert Holder(s') == Some(SubReturns(l, id));
    var x := Slot(id, l, token);
    PushMembers(s.slots, x);
    forall k | k in s'.live
      ensures Owned(s'.slots, k)
    {
      if Owned(s.slots, k) {
        var y :| y in s.slots && y.token == Some(k);
        assert y in s'.slots;
      } else {
        assert x in s'.slots;
      }
    }
  }

  lemma RegRegister(s: State, t: Thread)
    requires LockInv(s) && RegInv(s) && CanRun(s, t) && s.threads[t].SubRegisters?
    ensures RegInv(Advance(s, t))
  {
    var s' := Advance(s, t);
    assert Holder(s) == Some(s.threads[t]);
    assert Holder(s') == Some(s'.threads[t]);
    assert forall k :: Owned(s.slots, k) ==> k in s.live;
    assert !Owned(s.slots, s.nextToken);
  }

  /** The steps that touch neither a slot nor a registration. */
  ghost predicate Quiet(s: State, a: Action) {
    a.Run? && a.thread in s.threads ==>
      var pc := s.threads[a.thread];
      !pc.SetReplays? && !pc.DropRetains? && !pc.SubPushes? && !pc.SubRegisters?
  }

  /** `s'` has the slots and registrations of `s`. */
  ghost predicate SameTables(s: State, s': State) {
    && s'.slots == s.slots && s'.live == s.live
    && s'.nextToken == s.nextToken && s'.mark == s.mark && s'.replayed == s.replayed
  }

  lemma QuietTables(s: State, a: Action)
    requires Enabled(s, a, false) && Quiet(s, a)
    ensures SameTables(s, Do(s, a))
  {
  }

  /** Where a quiet step leaves its thread: about to push only never, replaying only at the very beginning. */
  lemma QuietPc(s: State, a: Action)
    requires Enabled(s, a, false) && Quiet(s, a)
    ensures a.thread in s.threads ==> !s.threads[a.thread].SubPushes? && !s.threads[a.thread].SetReplays?
    ensures a.thread in Do(s, a).threads ==>
              var pc := Do(s, a).threads[a.thread];
              !pc.SubPushes? && (pc.SetReplays? ==> pc.next == 0 && !pc.dropped)
  {
  }

  /** Replays and pushes under way stay as they are. */
  ghost predicate SameHolder(s: State, s': State) {
    && Pending(s') == Pending(s)
    && (Pending(s).Some? ==> Holder(s') == Holder(s))
    && (Holder(s').Some? && Holder(s').value.SetReplays? ==>
          Holder(s') == Holder(s) || (Holder(s').value.next == 0 && !Holder(s').value.dropped))
    && (Holder(s').Some? && Holder(s').value.SubPushes? ==> Holder(s') == Holder(s))
  }

  lemma HolderKept(s: State, t: Thread, s': State)
    requires SubsInv(s) && SubsInv(s') && OnlyMoves(s, t, s')
    requires t in s.threads ==> !s.threads[t].SubPushes? && !s.threads[t].SetReplays?
    requires t in s'.threads ==>
               !s'.threads[t].SubPushes? && (s'.threads[t].SetReplays? ==> s'.threads[t].next == 0 && !s'.threads[t].dropped)
    ensures SameHolder(s, s')
  {
    assert Holder(s).Some? && s.subs.value != t ==> Holder(s') == Holder(s);
    assert Holder(s').Some? && s'.subs.value != t ==> Holder(s') == Holder(s);
  }

  lemma QuietHolder(s: State, a: Action)
    requires LockInv(s) && Enabled(s, a, false) && Quiet(s, a)
    ensures SameHolder(s, Do(s, a)) && SameTables(s, Do(s, a))
  {
    SubsStep(s, a);
    OthersStay(s, a);
    QuietPc(s, a);
    QuietTables(s, a);
    HolderKept(s, a.thread, Do(s, a));
  }

  lemma RegKept(s: State, s': State)
    requires RegInv(s) && SameHolder(s, s') && SameTables(s, s')
    ensures RegInv(s')
  {
  }

  lemma RegStep(s: State, a: Action)
    requires LockInv(s) && RegInv(s) && Enabled(s, a, false)
    ensures RegInv(Do(s, a))
  {
    if Quiet(s, a) {
      QuietHolder(s, a);
      RegKept(s, Do(s, a));
    } else if s.threads[a.thread].SetReplays? {
      if s.threads[a.thread].next >= |s.slots| {
        assert Holder(s) == Some(s.threads[a.thread]);
      } else if s.threads[a.thread].dropped {
        RegReplaySubscribes(s, a.thread);
      } else {
        RegReplayDrops(s, a.thread);
      }
    } else if s.threads[a.thread].DropRetains? {
      RegDrop(s, a.thread);
    } else if s.threads[a.thread].SubPushes? {
      RegPush(s, a.thread);
    } else {
      RegRegister(s, a.thread);
    }
  }

  // ---- Hosts

  /** Some thread has stored its host and not finished the replay. */
  ghost predicate Dirty(s: State) {
    exists t :: t in s.threads && s.threads[t].IsDirty()
  }

  /** Registrations older than the last finished replay are at the host that replay moved them to. */
  ghost predicate OldHostInv(s: State) {
    && (s.replayed.Some? ==> s.inner.Some?)
    && (Dirty(s) ==> s.inner.Some?)
    && (forall k :: k in s.live && k < s.mark ==> s.replayed == Some(s.live[k].host))
  }

  /** Unless a replay is owed, younger ones are at the bound host, and nothing is left unregistered. */
  ghost predicate NewHostInv(s: State) {
    !Dirty(s) ==>
      && (forall k :: k in s.live && k >= s.mark ==> s.inner == Some(s.live[k].host))
      && (s.inner.Some? ==> forall x :: x in s.slots ==> x.token.Some?)
      && (s.inner.Some? && Holder(s).Some? && Holder(s).value.SubPushes? ==> Holder(s).value.token.Some?)
  }

  ghost predicate HostInv(s: State) {
    OldHostInv(s) && NewHostInv(s)
  }

  lemma DirtyStep(s: State, a: Action)
    requires Enabled(s, a, false)
    ensures Dirty(s) && !(a.Run? && s.threads[a.thread].SetReplays? && s.threads[a.thread].next >= |s.slots|) ==>
              Dirty(Do(s, a))
    ensures Dirty(Do(s, a)) && !(a.Run? && s.threads[a.thread].SetHoldsInner?) ==> Dirty(s)
    ensures a.Run? && s.threads[a.thread].SetHoldsInner? ==> Dirty(Do(s, a))
  {
    var s' := Do(s, a);
    if a.Run? && s.threads[a.thread].SetHoldsInner? {
      assert s'.threads[a.thread].IsDirty();
    }
    forall t | t in s.threads && s.threads[t].IsDirty() && !(a == Run(t) && s.threads[t].SetReplays? && s.threads[t].next >= |s.slots|)
      ensures Dirty(s')
    {
      assert s'.threads[t].IsDirty();
    }
    forall t | t in s'.threads && s'.threads[t].IsDirty() && !(a.Run? && s.threads[a.thread].SetHoldsInner?)
      ensures Dirty(s)
    {
      assert s.threads[t].IsDirty();
    }
  }

  lemma HostOther(s: State, t: Thread)
    requires LockInv(s) && RegInv(s) && HostInv(s) && CanRun(s, t) && !Quiet(s, Run(t)) && !s.threads[t].SetReplays?
    ensures HostInv(Advance(s, t))
  {
    var s' := Advance(s, t);
    DirtyStep(s, Run(t));
    assert Holder(s) == Some(s.threads[t]);
    if s.threads[t].DropRetains? {
      RetainedMembers(s.slots, s.threads[t].listener.channel, s.threads[t].id);
      assert Holder(s') == None;
    } else if s.threads[t].SubPushes? {
      PushMembers(s.slots, Slot(s.threads[t].id, s.threads[t].listener, s.threads[t].token));
      assert Holder(s') == Some(s'.threads[t]);
    } else {
      assert Holder(s') == Some(s'.threads[t]);
    }
  }

  lemma HostReplay(s: State, t: Thread)
    requires LockInv(s) && RegInv(s) && HostInv(s) && CanRun(s, t) && s.threads[t].SetReplays?
    ensures HostInv(Advance(s, t))
  {
    DirtyStep(s, Run(t));
    assert Holder(s) == Some(s.threads[t]);
    var s' := Advance(s, t);
    if s.threads[t].next >= |s.slots| {
      FinishedReplay(s, t);
    } else {
      assert s'.threads[t].IsDirty();
    }
  }

  /** What a replay leaves behind, whatever else is running: every slot and every registration at its host. */
  lemma FinishedReplay(s: State, t: Thread)
    requires LockInv(s) && RegInv(s) && CanRun(s, t)
    requires s.threads[t].SetReplays? && s.threads[t].next >= |s.slots|
    ensures forall x :: x in s.slots ==>
              x.token.Some? && x.token.value in s.live && s.live[x.token.value] == Registration(s.threads[t].host, x.listener)
    ensures forall k :: k in s.live ==> s.live[k].host == s.threads[t].host
  {
    assert Holder(s) == Some(s.threads[t]);
    forall k | k in s.live
      ensures s.live[k].host == s.threads[t].host
    {
      var x :| x in s.slots && x.token == Some(k);
      var j :| 0 <= j < |s.slots| && s.slots[j] == x;
    }
  }

  lemma InnerStep(s: State, a: Action)
    requires Enabled(s, a, false)
    ensures Do(s, a).inner ==
            if a.Run? && s.threads[a.thread].SetHoldsInner? then Some(s.threads[a.thread].host) else s.inner
  {
  }

  /** Nothing moves but perhaps the bound host, and then a replay is owed. */
  lemma HostKept(s: State, s': State)
    requires HostInv(s) && SameHolder(s, s') && SameTables(s, s')
    requires (s'.inner == s.inner && Dirty(s') == Dirty(s)) || (s'.inner.Some? && Dirty(s'))
    ensures HostInv(s')
  {
  }

  lemma HostQuiet(s: State, a: Action)
    requires LockInv(s) && HostInv(s) && Enabled(s, a, false) && Quiet(s, a)
    ensures HostInv(Do(s, a))
  {
    QuietHolder(s, a);
    DirtyStep(s, a);
    InnerStep(s, a);
    HostKept(s, Do(s, a));
  }

  lemma HostStep(s: State, a: Action)
    requires LockInv(s) && RegInv(s) && HostInv(s) && Enabled(s, a, false)
    ensures HostInv(Do(s, a))
  {
    if Quiet(s, a) {
      HostQuiet(s, a);
    } else if s.threads[a.thread].SetReplays? {
      HostReplay(s, a.thread);
    } else {
      HostOther(s, a.thread);
    }
  }

  // ---- One `set` at a time

  ghost predicate OneSet(s: State) {
    forall t, u :: t in s.threads && u in s.threads && s.threads[t].IsSet() && s.threads[u].IsSet() ==> t == u
  }

  ghost predicate SerialInv(s: State) {
    && OneSet(s)
    && (forall t :: t in s.threads && s.threads[t].IsDirty() ==> s.inner == Some(s.threads[t].host))
    && (!Dirty(s) && s.inner.Some? ==> s.replayed == s.inner)
  }

  lemma OneSetStep(s: State, a: Action)
    requires OneSet(s) && Enabled(s, a, true)
    ensures OneSet(Do(s, a))
  {
    OthersStay(s, a);
    var s' := Do(s, a);
    if a.Run? {
      assert a.thread in s'.threads ==> (s'.threads[a.thread].IsSet() <==> s.threads[a.thread].IsSet());
    } else if a.CallSet? {
      assert !SetInFlight(s);
    }
  }

  lemma SerialStep(s: State, a: Action)
    requires SerialInv(s) && Enabled(s, a, true)
    ensures SerialInv(Do(s, a))
  {
    OneSetStep(s, a);
    OthersStay(s, a);
    DirtyStep(s, a);
    var s' := Do(s, a);
    if a.Run? && s.threads[a.thread].SetHoldsInner? {
      assert s.threads[a.thread].IsSet();
    } else if a.Run? && s.threads[a.thread].SetReplays? {
      assert s.threads[a.thread].IsDirty();
    } else {
      assert s'.inner == s.inner && s'.replayed == s.replayed;
    }
  }

  // ---- Ids and guards

  /** The id a thread has in hand. */
  ghost function HeldId(pc: Pc): Option<nat> {
    match pc
    case SubReturns(_, id) => Some(id)
    case DropWantsSubs(_, id) => Some(id)
    case DropRetains(_, id) => Some(id)
    case _ => None
  }

  ghost predicate HasSlot(s: State, id: nat, l: Listener) {
    exists x :: x in s.slots && x.id == id && x.listener == l
  }

  ghost predicate Answerable(s: State, id: nat) {
    id in s.guards || exists t :: t in s.threads && HeldId(s.threads[t]) == Some(id)
  }

  ghost predicate CountInv(s: State) {
    s.nextId == s.subscribes && IdsDistinct(s.slots) && forall x :: x in s.slots ==> x.id <= s.nextId
  }

  ghost predicate BackedInv(s: State) {
    && (forall id :: id in s.guards ==> HasSlot(s, id, s.guards[id]))
    && (forall t :: t in s.threads && HeldId(s.threads[t]).Some? ==>
          HasSlot(s, HeldId(s.threads[t]).value, s.threads[t].listener))
  }

  ghost predicate HeldInv(s: State) {
    && (forall t :: t in s.threads && HeldId(s.threads[t]).Some? ==> HeldId(s.threads[t]).value !in s.guards)
    && (forall t, u :: t in s.threads && u in s.threads && t != u && HeldId(s.threads[t]).Some? ==>
          HeldId(s.threads[t]) != HeldId(s.threads[u]))
  }

  ghost predicate AnswerInv(s: State) {
    forall x :: x in s.slots ==> Answerable(s, x.id)
  }

  ghost predicate InHand(pc: Pc) {
    pc.SubWantsInner? || pc.SubRegisters? || pc.SubPushes?
  }

  ghost predicate FreshInv(s: State) {
    forall t :: t in s.threads && InHand(s.threads[t]) ==>
      s.threads[t].id == s.nextId && forall x :: x in s.slots ==> x.id != s.nextId
  }

  /** Each buffered slot belongs to exactly one live guard, returning subscribe or running drop. */
  ghost predicate IdInv(s: State) {
    CountInv(s) && BackedInv(s) && HeldInv(s) && AnswerInv(s) && FreshInv(s)
  }

  // How a step changes the slots, ids and listeners only.

  ghost predicate SameIds(a: seq<Slot>, b: seq<Slot>) {
    |a| == |b| && forall j :: 0 <= j < |a| ==> a[j].id == b[j].id && a[j].listener == b[j].listener
  }

  lemma SameIdsMembers(a: seq<Slot>, b: seq<Slot>)
    requires SameIds(a, b)
    ensures forall x :: x in a ==> exists y :: y in b && y.id == x.id && y.listener == x.listener
    ensures IdsDistinct(a) ==> IdsDistinct(b)
  {
    forall x | x in a
      ensures exists y :: y in b && y.id == x.id && y.listener == x.listener
    {
      var j :| 0 <= j < |a| && a[j] == x;
      assert b[j] in b;
    }
  }

  ghost predicate Pushing(s: State, a: Action) {
    a.Run? && a.thread in s.threads && s.threads[a.thread].SubPushes?
  }

  ghost predicate Retaining(s: State, a: Action) {
    a.Run? && a.thread in s.threads && s.threads[a.thread].DropRetains?
  }

  lemma SlotIdsStay(s: State, a: Action)
    requires Enabled(s, a, false) && !Pushing(s, a) && !Retaining(s, a)
    ensures SameIds(s.slots, Do(s, a).slots)
  {
    if a.Run? { SlotIdsStayRun(s, a.thread); }
  }

  lemma SlotIdsStayRun(s: State, t: Thread)
    requires CanRun(s, t) && !s.threads[t].SubPushes? && !s.threads[t].DropRetains?
    ensures SameIds(s.slots, Effect(s, t).slots)
  {
  }

  lemma NextIdRun(s: State, t: Thread)
    requires CanRun(s, t)
    ensures var e, allocates := Effect(s, t), s.threads[t].SubAllocates?;
            && e.nextId == (if allocates then (s.nextId + 1) % WRAP else s.nextId)
            && e.subscribes == s.subscribes + if allocates then 1 else 0
  {
  }

  lemma NextIdStep(s: State, a: Action)
    requires s.nextId == s.subscribes && Enabled(s, a, false) && Do(s, a).subscribes < WRAP
    ensures Do(s, a).nextId == Do(s, a).subscribes
    ensures Do(s, a).nextId == s.nextId + if a.Run? && s.threads[a.thread].SubAllocates? then 1 else 0
  {
    if a.Run? { NextIdRun(s, a.thread); }
  }

  lemma CountStep(s: State, a: Action)
    requires CountInv(s) && FreshInv(s) && Enabled(s, a, false) && Do(s, a).subscribes < WRAP
    ensures CountInv(Do(s, a))
  {
    NextIdStep(s, a);
    if Pushing(s, a) {
      PushMembers(s.slots, Slot(s.threads[a.thread].id, s.threads[a.thread].listener, s.threads[a.thread].token));
    } else if Retaining(s, a) {
      RetainedMembers(s.slots, s.threads[a.thread].listener.channel, s.threads[a.thread].id);
      RetainedDistinct(s.slots, s.threads[a.thread].listener.channel, s.threads[a.thread].id);
    } else {
      SlotIdsStay(s, a);
      SameIdsMembers(s.slots, Do(s, a).slots);
      SameIdsMembers(Do(s, a).slots, s.slots);
    }
  }

  lemma HeldIdStep(s: State, a: Action)
    requires Enabled(s, a, false) && a.thread in Do(s, a).threads
    ensures HeldId(Do(s, a).threads[a.thread]) ==
              if a.CallDrop? then Some(a.id) else if Pushing(s, a) then Some(s.threads[a.thread].id)
              else if a.Run? then HeldId(s.threads[a.thread]) else None
  {
    if a.Run? {
      if s.threads[a.thread].SetReplays? {
      } else if s.threads[a.thread].SubRegisters? {
      } else if s.threads[a.thread].DropWantsSubs? {
      } else if s.threads[a.thread].SubPushes? {
      } else {
      }
    }
  }

  lemma GuardsStep(s: State, a: Action)
    requires Enabled(s, a, false)
    ensures Do(s, a).guards ==
              if a.CallDrop? then s.guards - {a.id}
              else if a.Run? && s.threads[a.thread].SubReturns?
              then s.guards[s.threads[a.thread].id := s.threads[a.thread].listener]
              else s.guards
    ensures a.Run? && s.threads[a.thread].SubReturns? ==> a.thread !in Do(s, a).threads
  {
    if a.Run? { GuardsRun(s, a.thread); }
  }

  lemma GuardsRun(s: State, t: Thread)
    requires CanRun(s, t)
    ensures Effect(s, t).guards ==
            if s.threads[t].SubReturns? then s.guards[s.threads[t].id := s.threads[t].listener] else s.guards
  {
  }

  lemma HeldStep(s: State, a: Action)
    requires HeldInv(s) && BackedInv(s) && FreshInv(s) && Enabled(s, a, false)
    ensures HeldInv(Do(s, a))
  {
    OthersStay(s, a);
    GuardsStep(s, a);
    if a.thread in Do(s, a).threads { HeldIdStep(s, a); }
    if Pushing(s, a) {
      assert InHand(s.threads[a.thread]);
      assert forall l :: !HasSlot(s, s.nextId, l);
    }
  }

  lemma FreshStep(s: State, a: Action)
    requires SubsInv(s) && FreshInv(s) && CountInv(s) && Enabled(s, a, false) && Do(s, a).subscribes < WRAP
    ensures FreshInv(Do(s, a))
  {
    OthersStay(s, a);
    SubsStep(s, a);
    NextIdStep(s, a);
    var s' := Do(s, a);
    forall t | t in s'.threads && InHand(s'.threads[t])
      ensures s'.threads[t].id == s'.nextId && forall x :: x in s'.slots ==> x.id != s'.nextId
    {
      assert s'.subs == Some(t);
      if t != a.thread {
        assert s.subs == Some(t);
        assert a.Run? ==> !s.threads[a.thread].HoldsSubs();
      }
      SlotIdsStay(s, a);
      SameIdsMembers(s'.slots, s.slots);
    }
  }

  lemma GuardAnswers(s: State, a: Action, id: nat)
    requires Enabled(s, a, false) && id in s.guards
    ensures Answerable(Do(s, a), id)
  {
    GuardsStep(s, a);
    if a.CallDrop? && a.id == id { assert HeldId(Do(s, a).threads[a.thread]) == Some(id); }
  }

  lemma HeldAnswers(s: State, a: Action, id: nat, t: Thread)
    requires Enabled(s, a, false) && t in s.threads && HeldId(s.threads[t]) == Some(id)
    ensures Answerable(Do(s, a), id) || (Retaining(s, a) && s.threads[a.thread].id == id)
  {
    if t != a.thread {
      OthersStay(s, a);
      assert HeldId(Do(s, a).threads[t]) == Some(id);
    } else if s.threads[t].DropWantsSubs? {
      assert HeldId(Do(s, a).threads[t]) == Some(id);
    } else if s.threads[t].SubReturns? {
      GuardsStep(s, a);
    }
  }

  /** The only id a step gives up is the one its own `retain` throws out. */
  lemma AnswerableStep(s: State, a: Action, id: nat)
    requires Enabled(s, a, false) && Answerable(s, id)
    ensures Answerable(Do(s, a), id) || (Retaining(s, a) && s.threads[a.thread].id == id)
  {
    if id in s.guards {
      GuardAnswers(s, a, id);
    } else {
      var t :| t in s.threads && HeldId(s.threads[t]) == Some(id);
      HeldAnswers(s, a, id, t);
    }
  }

  lemma HasSlotPush(s: State, t: Thread, id: nat, l: Listener)
    requires CanRun(s, t) && s.threads[t].SubPushes? && HasSlot(s, id, l)
    ensures HasSlot(Advance(s, t), id, l)
  {
    var x :| x in s.slots && x.id == id && x.listener == l;
    PushMembers(s.slots, Slot(s.threads[t].id, s.threads[t].listener, s.threads[t].token));
    assert x in Advance(s, t).slots;
  }

  lemma HasSlotRetain(s: State, t: Thread, id: nat, l: Listener)
    requires CanRun(s, t) && s.threads[t].DropRetains? && HasSlot(s, id, l) && s.threads[t].id != id
    ensures HasSlot(Advance(s, t), id, l)
  {
    var x :| x in s.slots && x.id == id && x.listener == l;
    RetainedMembers(s.slots, s.threads[t].listener.channel, s.threads[t].id);
    assert x in Advance(s, t).slots;
  }

  lemma HasSlotStep(s: State, a: Action, id: nat, l: Listener)
    requires Enabled(s, a, false) && HasSlot(s, id, l)
    ensures HasSlot(Do(s, a), id, l) || (Retaining(s, a) && s.threads[a.thread].id == id)
  {
    if Pushing(s, a) {
      HasSlotPush(s, a.thread, id, l);
    } else if Retaining(s, a) {
      if s.threads[a.thread].id != id { HasSlotRetain(s, a.thread, id, l); }
    } else {
      SlotIdsStay(s, a);
      SameIdsMembers(s.slots, Do(s, a).slots);
    }
  }

  /** Every slot after a step was there before, under its id, or is the one just pushed. */
  lemma SlotsStep(s: State, a: Action)
    requires Enabled(s, a, false)
    ensures forall x :: x in Do(s, a).slots ==>
              (Pushing(s, a) && x.id == s.threads[a.thread].id) || exists y :: y in s.slots && y.id == x.id
  {
    if Pushing(s, a) {
      PushMembers(s.slots, Slot(s.threads[a.thread].id, s.threads[a.thread].listener, s.threads[a.thread].token));
    } else if Retaining(s, a) {
      RetainedMembers(s.slots, s.threads[a.thread].listener.channel, s.threads[a.thread].id);
    } else {
      SlotIdsStay(s, a);
      SameIdsMembers(Do(s, a).slots, s.slots);
    }
  }

  lemma AnswerOne(s: State, a: Action, x: Slot)
    requires AnswerInv(s) && Enabled(s, a, false) && x in Do(s, a).slots
    requires Retaining(s, a) ==> x.id != s.threads[a.thread].id
    ensures Answerable(Do(s, a), x.id)
  {
    SlotsStep(s, a);
    if Pushing(s, a) && x.id == s.threads[a.thread].id {
      PushedAnswerable(s, a.thread);
    } else {
      var y :| y in s.slots && y.id == x.id;
      AnswerableStep(s, a, y.id);
    }
  }

  lemma AnswerStep(s: State, a: Action)
    requires AnswerInv(s) && BackedInv(s) && CountInv(s) && Enabled(s, a, false)
    ensures AnswerInv(Do(s, a))
  {
    if Retaining(s, a) { GoneAfterRetain(s, a.thread); }
    forall x | x in Do(s, a).slots
      ensures Answerable(Do(s, a), x.id)
    {
      AnswerOne(s, a, x);
    }
  }

  lemma PushedAnswerable(s: State, t: Thread)
    requires CanRun(s, t) && s.threads[t].SubPushes?
    ensures Answerable(Advance(s, t), s.threads[t].id)
  {
    assert HeldId(Advance(s, t).threads[t]) == Some(s.threads[t].id);
  }

  lemma GoneAfterRetain(s: State, t: Thread)
    requires BackedInv(s) && CountInv(s) && CanRun(s, t) && s.threads[t].DropRetains?
    ensures forall x :: x in Advance(s, t).slots ==> x in s.slots && x.id != s.threads[t].id
  {
    var DropRetains(l, id) := s.threads[t];
    RetainedMembers(s.slots, l.channel, id);
    assert HeldId(s.threads[t]) == Some(id);
    var y :| y in s.slots && y.id == id && y.listener == l;
    forall x | x in s.slots && x.id == id
      ensures Matches(x, l.channel, id)
    {
      SameIdSameSlot(s.slots, x, y);
    }
  }

  lemma SameIdSameSlot(slots: seq<Slot>, x: Slot, y: Slot)
    requires IdsDistinct(slots) && x in slots && y in slots && x.id == y.id
    ensures x == y
  {
    var i :| 0 <= i < |slots| && slots[i] == x;
    var j :| 0 <= j < |slots| && slots[j] == y;
    assert i == j;
  }

  /** What the step of `t` may throw out: the slots of the id `gone`, if any. */
  ghost predicate SlotsKept(s: State, gone: Option<nat>, s': State) {
    forall id: nat, l :: HasSlot(s, id, l) && gone != Some(id) ==> HasSlot(s', id, l)
  }

  ghost function Gone(s: State, a: Action): Option<nat> {
    if Retaining(s, a) then Some(s.threads[a.thread].id) else None
  }

  lemma SlotsKeptStep(s: State, a: Action)
    requires Enabled(s, a, false)
    ensures SlotsKept(s, Gone(s, a), Do(s, a))
  {
    forall id: nat, l | HasSlot(s, id, l) && Gone(s, a) != Some(id)
      ensures HasSlot(Do(s, a), id, l)
    {
      HasSlotStep(s, a, id, l);
    }
  }

  lemma GuardsBacked(s: State, a: Action)
    requires BackedInv(s) && HeldInv(s) && Enabled(s, a, false)
    ensures forall id :: id in Do(s, a).guards ==> HasSlot(Do(s, a), id, Do(s, a).guards[id])
  {
    GuardsStep(s, a);
    SlotsKeptStep(s, a);
    if Retaining(s, a) { assert HeldId(s.threads[a.thread]) == Gone(s, a); }
    if a.Run? && s.threads[a.thread].SubReturns? {
      assert HeldId(s.threads[a.thread]) == Some(s.threads[a.thread].id);
    }
  }

  lemma OthersBacked(s: State, a: Action, u: Thread)
    requires BackedInv(s) && HeldInv(s) && Enabled(s, a, false)
    requires u != a.thread && u in s.threads && HeldId(s.threads[u]).Some?
    ensures HasSlot(Do(s, a), HeldId(s.threads[u]).value, s.threads[u].listener)
  {
    SlotsKeptStep(s, a);
    if Retaining(s, a) { assert HeldId(s.threads[a.thread]) == Gone(s, a); }
  }

  /** What the moving thread has in hand: a slot just pushed, a guard just given up, or what it had. */
  lemma MovedBacked(s: State, a: Action)
    requires BackedInv(s) && Enabled(s, a, false) && a.thread in Do(s, a).threads
    ensures var pc := Do(s, a).threads[a.thread];
            HeldId(pc).Some? ==> HasSlot(Do(s, a), HeldId(pc).value, pc.listener)
  {
    SlotsKeptStep(s, a);
    if Pushing(s, a) {
      var x := Slot(s.threads[a.thread].id, s.threads[a.thread].listener, s.threads[a.thread].token);
      PushMembers(s.slots, x);
      assert x in Do(s, a).slots;
    } else if !Retaining(s, a) {
      HeldIdStep(s, a);
    }
  }

  lemma BackedStep(s: State, a: Action)
    requires BackedInv(s) && HeldInv(s) && Enabled(s, a, false)
    ensures BackedInv(Do(s, a))
  {
    OthersStay(s, a);
    GuardsBacked(s, a);
    forall u | u in Do(s, a).threads && HeldId(Do(s, a).threads[u]).Some?
      ensures HasSlot(Do(s, a), HeldId(Do(s, a).threads[u]).value, Do(s, a).threads[u].listener)
    {
      if u == a.thread { MovedBacked(s, a); } else { OthersBacked(s, a, u); }
    }
  }

  lemma IdStep(s: State, a: Action)
    requires SubsInv(s) && IdInv(s) && Enabled(s, a, false) && Do(s, a).subscribes < WRAP
    ensures IdInv(Do(s, a))
  {
    CountStep(s, a);
    HeldStep(s, a);
    FreshStep(s, a);
    AnswerStep(s, a);
    BackedStep(s, a);
  }
}
