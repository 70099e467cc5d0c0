/**
  The lock-level behaviour of `LateBoundBackendHost`: any number of threads run `set`,
  `subscribe_*`, guard drops and short reads against one late-bound host. Every action
  moves one thread by one lock operation or one effect, so a run may stop between any two
  lines of the replay loops.

  The registries of all inner hosts are one table, `live`: a token stands for one
  subscription guard an inner host handed out, and dropping the guard removes its entry.
*/
module LateBoundMachine {
  import opened Wrappers

  type Host = nat
  type Thread = nat
  type Token = nat

  const WRAP: nat := 0x1_0000_0000_0000_0000

  datatype Channel = Revocation | Rotation
  datatype Listener = Listener(channel: Channel, callback: nat)
  datatype Registration = Registration(host: Host, listener: Listener)
  datatype Slot = Slot(id: nat, listener: Listener, token: Option<Token>)

  /** Where a thread stands inside the call it is making. */
  datatype Pc =
    | SetWantsInner(host: Host)
    | SetHoldsInner(host: Host)
    | SetWantsSubs(host: Host)
    | SetReplays(host: Host, next: nat, dropped: bool)
    | SubWantsSubs(listener: Listener)
    | SubAllocates(listener: Listener)
    | SubWantsInner(listener: Listener, id: nat)
    | SubRegisters(listener: Listener, id: nat)
    | SubPushes(listener: Listener, id: nat, token: Option<Token>)
    | SubReturns(listener: Listener, id: nat)
    | DropWantsSubs(listener: Listener, id: nat)
    | DropRetains(listener: Listener, id: nat)
    | ReadWantsInner
    | ReadHoldsInner
  {
    predicate IsSet() {
      SetWantsInner? || SetHoldsInner? || IsDirty()
    }

    /** The inner host is stored and the replay that follows it is not finished. */
    predicate IsDirty() {
      SetWantsSubs? || SetReplays?
    }

    predicate HoldsSubs() {
      SetReplays? || SubAllocates? || SubWantsInner? || SubRegisters? || SubPushes? || SubReturns? || DropRetains?
    }

    predicate HoldsRead() {
      SubRegisters? || ReadHoldsInner?
    }
  }

  /**
    `slots` is the revocation vector followed by the rotation vector. The last three fields
    only record history: how many subscriptions were made, the host of the last finished
    replay, and the first token issued after it.
  */
  datatype State = State(
    inner: Option<Host>, writer: Option<Thread>, readers: set<Thread>, subs: Option<Thread>,
    nextId: nat, slots: seq<Slot>, live: map<Token, Registration>, nextToken: Token,
    guards: map<nat, Listener>, threads: map<Thread, Pc>,
    subscribes: nat, replayed: Option<Host>, mark: Token)

  datatype Action =
    | CallSet(thread: Thread, host: Host)
    | CallSubscribe(thread: Thread, listener: Listener)
    | CallDrop(thread: Thread, id: nat)
    | CallRead(thread: Thread)
    | Run(thread: Thread)

  const INIT: State := State(None, None, {}, None, 0, [], map[], 0, map[], map[], 0, None, 0)

  // ---- Slot vectors

  function RevocationCount(slots: seq<Slot>): (n: nat)
    ensures n <= |slots|
  {
    if slots == [] then 0
    else (if slots[0].listener.channel.Revocation? then 1 else 0) + RevocationCount(slots[1..])
  }

  /** A push onto the vector of the slot's own channel. */
  function Push(slots: seq<Slot>, x: Slot): seq<Slot> {
    var at := if x.listener.channel.Revocation? then RevocationCount(slots) else |slots|;
    slots[..at] + [x] + slots[at..]
  }

  predicate Matches(x: Slot, channel: Channel, id: nat) {
    x.id == id && x.listener.channel == channel
  }

  function Retained(slots: seq<Slot>, channel: Channel, id: nat): seq<Slot> {
    if slots == [] then []
    else (if Matches(slots[0], channel, id) then [] else [slots[0]]) + Retained(slots[1..], channel, id)
  }

  /** The registrations released when `retain` throws slots away. */
  function Released(slots: seq<Slot>, channel: Channel, id: nat): set<Token> {
    set x | x in slots && Matches(x, channel, id) && x.token.Some? :: x.token.value
  }

  // ---- Steps

  predicate CanRun(s: State, t: Thread) {
    t in s.threads &&
    match s.threads[t]
    case SetWantsInner(_) => s.writer.None? && s.readers == {}
    case SetWantsSubs(_) => s.subs.None?
    case SubWantsSubs(_) => s.subs.None?
    case DropWantsSubs(_, _) => s.subs.None?
    case SubWantsInner(_, _) => s.writer.None?
    case ReadWantsInner => s.writer.None?
    case _ => true
  }

  predicate SetInFlight(s: State) {
    exists t :: t in s.threads && s.threads[t].IsSet()
  }

  /** With `serial`, a `set` is only called while no other one is running. */
  predicate Enabled(s: State, a: Action, serial: bool) {
    match a
    case CallSet(t, _) => t !in s.threads && (serial ==> !SetInFlight(s))
    case CallSubscribe(t, _) => t !in s.threads
    case CallDrop(t, id) => t !in s.threads && id in s.guards
    case CallRead(t) => t !in s.threads
    case Run(t) => CanRun(s, t)
  }

  /** The state with a new registration of `l` at `h`, under the token `s.nextToken`. */
  function Register(s: State, h: Host, l: Listener): State {
    s.(live := s.live[s.nextToken := Registration(h, l)], nextToken := s.nextToken + 1)
  }

  /** The replay of one slot is two effects: its old registration goes, then its new one comes. */
  function ReplayEffect(s: State, h: Host, next: nat, dropped: bool): State {
    if next >= |s.slots| then
      s.(subs := None, replayed := Some(h), mark := s.nextToken)
    else
      var x := s.slots[next];
      if !dropped then
        s.(slots := s.slots[next := x.(token := None)],
           live := if x.token.Some? then s.live - {x.token.value} else s.live)
      else
        Register(s, h, x.listener).(slots := s.slots[next := x.(token := Some(s.nextToken))])
  }

  /** What the next step of the thread `t` does to everything but its own position. */
  function Effect(s: State, t: Thread): State
    requires t in s.threads
  {
    match s.threads[t]
    case SetWantsInner(_) => s.(writer := Some(t))
    case SetHoldsInner(h) => s.(writer := None, inner := Some(h))
    case SetWantsSubs(_) => s.(subs := Some(t))
    case SetReplays(h, next, dropped) => ReplayEffect(s, h, next, dropped)
    case SubWantsSubs(_) => s.(subs := Some(t))
    case SubAllocates(_) => s.(nextId := (s.nextId + 1) % WRAP, subscribes := s.subscribes + 1)
    case SubWantsInner(_, _) => s.(readers := s.readers + {t})
    case SubRegisters(l, _) =>
      (if s.inner.Some? then Register(s, s.inner.value, l) else s).(readers := s.readers - {t})
    case SubPushes(l, id, token) => s.(slots := Push(s.slots, Slot(id, l, token)))
    case SubReturns(l, id) => s.(subs := None, guards := s.guards[id := l])
    case DropWantsSubs(_, _) => s.(subs := Some(t))
    case DropRetains(l, id) =>
      s.(subs := None, slots := Retained(s.slots, l.channel, id), live := s.live - Released(s.slots, l.channel, id))
    case ReadWantsInner => s.(readers := s.readers + {t})
    case ReadHoldsInner => s.(readers := s.readers - {t})
  }

  /** Where that step leaves the thread, or `None` when its call is over. */
  function NextPc(s: State, t: Thread): Option<Pc>
    requires t in s.threads
  {
    match s.threads[t]
    case SetWantsInner(h) => Some(SetHoldsInner(h))
    case SetHoldsInner(h) => Some(SetWantsSubs(h))
    case SetWantsSubs(h) => Some(SetReplays(h, 0, false))
    case SetReplays(h, next, dropped) =>
      if next >= |s.slots| then None
      else if !dropped then Some(SetReplays(h, next, true))
      else Some(SetReplays(h, next + 1, false))
    case SubWantsSubs(l) => Some(SubAllocates(l))
    case SubAllocates(l) => Some(SubWantsInner(l, (s.nextId + 1) % WRAP))
    case SubWantsInner(l, id) => Some(SubRegisters(l, id))
    case SubRegisters(l, id) => Some(SubPushes(l, id, if s.inner.Some? then Some(s.nextToken) else None))
    case SubPushes(l, id, _) => Some(SubReturns(l, id))
    case SubReturns(_, _) => None
    case DropWantsSubs(l, id) => Some(DropRetains(l, id))
    case DropRetains(_, _) => None
    case ReadWantsInner => Some(ReadHoldsInner)
    case ReadHoldsInner => None
  }

  function Moved(threads: map<Thread, Pc>, t: Thread, pc: Option<Pc>): map<Thread, Pc> {
    match pc
    case Some(next) => threads[t := next]
    case None => threads - {t}
  }

  /** One step of the thread `t`. */
  function Advance(s: State, t: Thread): State
    requires t in s.threads
  {
    Effect(s, t).(threads := Moved(s.threads, t, NextPc(s, t)))
  }

  function Call(s: State, t: Thread, pc: Pc): State {
    s.(threads := s.threads[t := pc])
  }

  function Do(s: State, a: Action): State
    requires Enabled(s, a, false)
  {
    match a
    case CallSet(t, h) => Call(s, t, SetWantsInner(h))
    case CallSubscribe(t, l) => Call(s, t, SubWantsSubs(l))
    case CallDrop(t, id) => Call(s, t, DropWantsSubs(s.guards[id], id)).(guards := s.guards - {id})
    case CallRead(t) => Call(s, t, ReadWantsInner)
    case Run(t) => Advance(s, t)
  }

  /** The `i`-th action of a run is enabled and leads to the next state. */
  ghost predicate IsStep(states: seq<State>, run: seq<Action>, i: nat, serial: bool) {
    && i < |run| && i + 1 < |states|
    && Enabled(states[i], run[i], serial) && states[i + 1] == Do(states[i], run[i])
  }

  ghost predicate IsRun(states: seq<State>, run: seq<Action>, serial: bool) {
    |states| == |run| + 1 && forall i :: 0 <= i < |run| ==> IsStep(states, run, i, serial)
  }

  /** The run of actions is possible from `s` and ends in `end`. */
  ghost predicate Leads(s: State, run: seq<Action>, serial: bool, end: State) {
    exists states :: IsRun(states, run, serial) && states[0] == s && states[|run|] == end
  }

  ghost predicate Reachable(s: State, serial: bool) {
    exists run :: Leads(INIT, run, serial, s)
  }

  lemma LeadsNowhere(s: State, serial: bool)
    ensures Leads(s, [], serial, s)
  {
    assert IsRun([s], [], serial);
  }

  lemma LeadsFurther(s: State, run: seq<Action>, serial: bool, mid: State, a: Action, end: State)
    requires Leads(s, run, serial, mid) && Enabled(mid, a, serial) && end == Do(mid, a)
    ensures Leads(s, run + [a], serial, end)
  {
    var states :| IsRun(states, run, serial) && states[0] == s && states[|run|] == mid;
    var longer := states + [end];
    forall i | 0 <= i < |run + [a]|
      ensures IsStep(longer, run + [a], i, serial)
    {
      assert i < |run| ==> IsStep(states, run, i, serial);
    }
    assert IsRun(longer, run + [a], serial);
  }

  lemma LeadsOn(s: State, run: seq<Action>, mid: State, more: seq<Action>, end: State, serial: bool)
    requires Leads(s, run, serial, mid) && Leads(mid, more, serial, end)
    ensures Leads(s, run + more, serial, end)
  {
    var a :| IsRun(a, run, serial) && a[0] == s && a[|run|] == mid;
    var b :| IsRun(b, more, serial) && b[0] == mid && b[|more|] == end;
    var states := a + b[1..];
    forall i | 0 <= i < |run + more|
      ensures IsStep(states, run + more, i, serial)
    {
      if i < |run| {
        assert IsStep(a, run, i, serial);
      } else {
        assert IsStep(b, more, i - |run|, serial);
      }
    }
    assert IsRun(states, run + more, serial);
  }

  // ---- Events

  function Heard(r: Registration, at: Option<Host>, l: Listener): nat {
    if (at.None? || at.value == r.host) && r.listener == l then 1 else 0
  }

  /** How often an event on the channel of `l` runs its callback: at one host, or with `None` at every host. */
  function Fired(live: map<Token, Registration>, at: Option<Host>, l: Listener, upTo: Token): nat {
    if upTo == 0 then 0
    else
      var k := upTo - 1;
      Fired(live, at, l, k) + if k in live then Heard(live[k], at, l) else 0
  }

  function One(x: Slot, l: Listener): nat {
    if x.listener == l then 1 else 0
  }

  /** How often `l` is buffered. */
  function Buffered(slots: seq<Slot>, l: Listener): nat {
    if slots == [] then 0 else One(slots[0], l) + Buffered(slots[1..], l)
  }

  /** How often `l` is buffered in a slot that holds a real subscription. */
  function Registered(slots: seq<Slot>, l: Listener): nat {
    if slots == [] then 0
    else (if slots[0].token.Some? then One(slots[0], l) else 0) + Registered(slots[1..], l)
  }
}
