/**
 The eventfd that guards writing to the debugger connection. Reading it takes its value away, writing
 puts a value back; readers wait while it is zero. Any number of threads publish DDM packets, each in one
 write; the agent writes packets piece by piece; the poll thread replaces the connection.
 */
module AdbLock {
  import opened Leb128

  const UNLOCKED := 1

  /** Outside the lock, or inside with the value that was read. A writer knows how much of its packet is
      out and whether it has seen a live connection. */
  datatype Phase =
    | Away
    | Writing(value: nat, packet: seq<byte>, written: nat, checked: bool)
    | Swapping(value: nat)

  function Value(ph: Phase): nat {
    if ph.Away? then 0 else ph.value
  }

  const AGENT := 0

  /** Thread 0 is the agent. `sent` is what has gone out over the current connection, `packets` the
      contributions that are complete; `broken` says a write failed half way. */
  datatype State = State(counter: nat, threads: seq<Phase>, socket: Option<nat>, attached: bool,
                         sent: seq<byte>, packets: seq<seq<byte>>, broken: bool)

  datatype Event =
    | BeginWrite(t: nat, packet: seq<byte>)
    | Look(t: nat)
    | Emit(t: nat, n: nat)         // a publisher emits once, perhaps too little
    | EndWrite(t: nat)
    | Fail(t: nat)
    | BeginSwap(t: nat)
    | EndSwap(t: nat, socket: Option<nat>)
    | Attach
    | Detach
    | Greet(bytes: seq<byte>)

  predicate Enabled(s: State, e: Event) {
    match e
    case BeginWrite(t, _) => t < |s.threads| && s.threads[t].Away? && s.counter > 0 && (t == AGENT ==> s.attached)
    case Look(t) => t < |s.threads| && s.threads[t].Writing? && !s.threads[t].checked
    case Emit(t, n) =>
      && t < |s.threads| && s.threads[t].Writing? && s.threads[t].checked
      && 0 < n <= |s.threads[t].packet| - s.threads[t].written
      && (t != AGENT ==> s.threads[t].written == 0)
    case EndWrite(t) => t < |s.threads| && s.threads[t].Writing? && s.threads[t].checked
        && s.threads[t].written == |s.threads[t].packet|
    case Fail(t) => t < |s.threads| && s.threads[t].Writing? && s.threads[t].checked
    case BeginSwap(t) => t != AGENT && t < |s.threads| && s.threads[t].Away? && s.counter > 0
    case EndSwap(t, _) => t < |s.threads| && s.threads[t].Swapping? && !s.attached
    case Attach => s.socket.Some? && !s.attached
    case Detach => s.attached && AGENT < |s.threads| && s.threads[AGENT].Away?
    case Greet(_) => s.socket.Some? && !s.attached
  }

  /** Leaving the lock puts the value back. */
  function Release(s: State, t: nat): State
    requires t < |s.threads|
  {
    s.(threads := s.threads[t := Away], counter := s.counter + Value(s.threads[t]))
  }

  function Step(s: State, e: Event): State
    requires Enabled(s, e)
  {
    match e
    case BeginWrite(t, packet) => s.(threads := s.threads[t := Writing(s.counter, packet, 0, false)], counter := 0)
    case Look(t) =>
      if s.socket.Some? then s.(threads := s.threads[t := s.threads[t].(checked := true)]) else Release(s, t)
    case Emit(t, n) =>
      var w := s.threads[t];
      var short := t != AGENT && w.written + n < |w.packet|;
      var now := s.(threads := s.threads[t := w.(written := w.written + n)],
                    sent := s.sent + w.packet[w.written..w.written + n], broken := s.broken || short);
      if w.written + n == |w.packet| then now.(packets := s.packets + [w.packet]) else now
    case EndWrite(t) => Release(s, t)
    case Fail(t) => Release(s, t).(broken := s.broken || 0 < s.threads[t].written < |s.threads[t].packet|)
    case BeginSwap(t) => s.(threads := s.threads[t := Swapping(s.counter)], counter := 0)
    case EndSwap(t, socket) => Release(s, t).(socket := socket, sent := [], packets := [], broken := false)
    case Attach => s.(attached := true)
    case Detach => s.(attached := false)
    case Greet(bytes) => s.(sent := s.sent + bytes, packets := s.packets + [bytes])
  }

  // ---- the lock

  function Held(threads: seq<Phase>): nat {
    if threads == [] then 0 else Value(threads[0]) + Held(threads[1..])
  }

  lemma {:induction false} HeldUpdate(threads: seq<Phase>, t: nat, ph: Phase)
    requires t < |threads|
    ensures Held(threads[t := ph]) + Value(threads[t]) == Held(threads) + Value(ph)
  {
    hide Value;
    if t > 0 {
      HeldUpdate(threads[1..], t - 1, ph);
      assert threads[t := ph][1..] == threads[1..][t - 1 := ph];
    } else {
      assert threads[t := ph][1..] == threads[1..];
    }
  }

  lemma {:induction false} HeldAtLeast(threads: seq<Phase>, i: nat, j: nat)
    requires i < j < |threads|
    ensures Value(threads[i]) + Value(threads[j]) <= Held(threads)
  {
    hide Value;
    if i > 0 {
      HeldAtLeast(threads[1..], i - 1, j - 1);
    } else {
      HeldOne(threads[1..], j - 1);
    }
  }

  lemma {:induction false} HeldOne(threads: seq<Phase>, i: nat)
    requires i < |threads|
    ensures Value(threads[i]) <= Held(threads)
  {
    hide Value;
    if i > 0 {
      HeldOne(threads[1..], i - 1);
    }
  }

  ghost predicate Locking(s: State) {
    s.counter + Held(s.threads) == UNLOCKED && forall t :: 0 <= t < |s.threads| && !s.threads[t].Away? ==>
        s.threads[t].value > 0
  }

  /** At most one thread is inside. */
  lemma {:induction false} OneInside(s: State, i: nat, j: nat)
    requires Locking(s) && i < |s.threads| && j < |s.threads| && !s.threads[i].Away? && !s.threads[j].Away?
    ensures i == j && s.counter == 0
  {
    hide Held;
    HeldOne(s.threads, i);
    if i < j {
      HeldAtLeast(s.threads, i, j);
    } else if j < i {
      HeldAtLeast(s.threads, j, i);
    }
  }

  lemma {:induction false} StepKeepsLock(s: State, e: Event)
    requires Locking(s) && Enabled(s, e)
    ensures Locking(Step(s, e))
  {
    hide Held;
    if !e.Attach? && !e.Detach? && !e.Greet? {
      HeldUpdate(s.threads, e.t, Step(s, e).threads[e.t]);
      assert Step(s, e).threads == s.threads[e.t := Step(s, e).threads[e.t]];
    }
  }

  // ---- the stream

  function Concat(parts: seq<seq<byte>>): seq<byte> {
    if parts == [] then [] else Concat(parts[..|parts| - 1]) + parts[|parts| - 1]
  }

  lemma {:induction false} ConcatMore(parts: seq<seq<byte>>, last: seq<byte>)
    ensures Concat(parts + [last]) == Concat(parts) + last
  {
    assert (parts + [last])[..|parts|] == parts;
  }

  /** The part of an unfinished packet that is out. */
  function Part(ph: Phase): seq<byte> {
    if ph.Writing? && ph.written < |ph.packet| then ph.packet[..ph.written] else []
  }

  ghost predicate Sane(s: State, t: nat)
    requires t < |s.threads|
  {
    var ph := s.threads[t];
    ph.Writing? ==>
      && ph.written <= |ph.packet| && (ph.written > 0 ==> ph.checked)
      && (t != AGENT && !s.broken ==> ph.written == 0 || ph.written == |ph.packet|)
      && (t == AGENT ==> s.attached)
      && (ph.checked ==> s.socket.Some?)
  }

  /** What is out is the complete packets, then the begun part of the packet of whoever is inside. */
  ghost predicate Whole(s: State) {
    && (forall t :: 0 <= t < |s.threads| ==> Sane(s, t))
    && (s.attached ==> s.socket.Some?)
    && (!s.broken ==>
          && (forall t :: 0 <= t < |s.threads| && !s.threads[t].Away? ==>
              s.sent == Concat(s.packets) + Part(s.threads[t]))
          && ((forall t :: 0 <= t < |s.threads| ==> s.threads[t].Away?) ==> s.sent == Concat(s.packets)))
  }

  lemma {:induction false} NobodyInside(s: State)
    requires Locking(s) && s.counter > 0
    ensures forall t :: 0 <= t < |s.threads| ==> s.threads[t].Away?
  {
    hide Held;
    forall t | 0 <= t < |s.threads|
      ensures s.threads[t].Away?
    {
      HeldOne(s.threads, t);
    }
  }

  lemma {:induction false} OthersAway(s: State, t: nat)
    requires Locking(s) && t < |s.threads| && !s.threads[t].Away?
    ensures forall i :: 0 <= i < |s.threads| && i != t ==> s.threads[i].Away?
  {
    hide Locking;
    forall i | 0 <= i < |s.threads| && i != t
      ensures s.threads[i].Away?
    {
      if !s.threads[i].Away? {
        OneInside(s, t, i);
      }
    }
  }

  lemma {:induction false} EnterKeeps(s: State, e: Event)
    requires Locking(s) && Whole(s) && Enabled(s, e) && (e.BeginWrite? || e.BeginSwap?)
    ensures Whole(Step(s, e))
  {
    hide Concat, Locking;
    NobodyInside(s);
  }

  lemma {:induction false} LeaveKeeps(s: State, e: Event)
    requires Locking(s) && Whole(s) && Enabled(s, e) && (e.Look? || e.EndWrite? || e.Fail?)
    ensures Whole(Step(s, e))
  {
    hide Concat, Locking;
    OthersAway(s, e.t);
    assert Sane(s, e.t);
    assert Concat(s.packets) + [] == Concat(s.packets);
    assert s.threads[e.t].written == 0 ==> s.threads[e.t].packet[..0] == [];
  }

  lemma {:induction false} SwapKeeps(s: State, e: Event)
    requires Locking(s) && Whole(s) && Enabled(s, e) && e.EndSwap?
    ensures Whole(Step(s, e))
    ensures !s.broken ==> s.sent == Concat(s.packets)
  {
    hide Locking;
    OthersAway(s, e.t);
    assert Part(s.threads[e.t]) == [];
  }

  lemma {:induction false} EmitIsSane(s: State, e: Event)
    requires Locking(s) && Whole(s) && Enabled(s, e) && e.Emit?
    ensures forall t :: 0 <= t < |s.threads| ==> Sane(Step(s, e), t)
  {
    hide Concat, Locking, Part;
    OthersAway(s, e.t);
    assert Sane(s, e.t);
  }

  lemma {:induction false} EmitKeeps(s: State, e: Event)
    requires Locking(s) && Whole(s) && Enabled(s, e) && e.Emit?
    ensures Whole(Step(s, e))
  {
    hide Concat, Locking;
    var w := s.threads[e.t];
    EmitIsSane(s, e);
    assert Sane(s, e.t) && !Step(s, e).threads[e.t].Away?;
    OthersAway(s, e.t);
    ConcatMore(s.packets, w.packet);
    assert w.packet[..w.written] + w.packet[w.written..w.written + e.n] == w.packet[..w.written + e.n];
    assert w.packet[..|w.packet|] == w.packet;
    Associate(Concat(s.packets), w.packet[..w.written], w.packet[w.written..w.written + e.n]);
    assert Concat(s.packets + [w.packet]) + [] == Concat(s.packets + [w.packet]);
  }

  lemma {:induction false} RestKeeps(s: State, e: Event)
    requires Locking(s) && Whole(s) && Enabled(s, e) && (e.Attach? || e.Detach? || e.Greet?)
    ensures Whole(Step(s, e))
  {
    hide Concat, Locking;
    if e.Greet? {
      ConcatMore(s.packets, e.bytes);
      forall t | 0 <= t < |s.threads| && !s.threads[t].Away? && !s.broken
        ensures Part(s.threads[t]) == []
      {
        assert Sane(s, t);
      }
      assert Concat(s.packets) + [] == Concat(s.packets);
      assert Concat(s.packets + [e.bytes]) + [] == Concat(s.packets + [e.bytes]);
      forall t | 0 <= t < |s.threads|
        ensures Sane(Step(s, e), t)
      {
        assert Sane(s, t);
      }
    } else {
      forall t | 0 <= t < |s.threads|
        ensures Sane(Step(s, e), t)
      {
        assert Sane(s, t);
      }
    }
  }

  lemma {:induction false} StepKeepsWhole(s: State, e: Event)
    requires Locking(s) && Whole(s) && Enabled(s, e)
    ensures Whole(Step(s, e))
  {
    hide Locking, Whole, Enabled, Step;
    if e.BeginWrite? || e.BeginSwap? {
      EnterKeeps(s, e);
    } else if e.Look? || e.EndWrite? || e.Fail? {
      LeaveKeeps(s, e);
    } else if e.EndSwap? {
      SwapKeeps(s, e);
    } else if e.Emit? {
      EmitKeeps(s, e);
    } else {
      RestKeeps(s, e);
    }
  }

  // ---- whole runs

  function Initial(n: nat): State {
    State(UNLOCKED, seq(n, i => Away), None, false, [], [], false)
  }

  ghost predicate IsRun(states: seq<State>, events: seq<Event>) {
    && |states| == |events| + 1 && states[0] == Initial(|states[0].threads|)
    && forall i :: 0 <= i < |events| ==> Enabled(states[i], events[i]) && states[i + 1] == Step(states[i], events[i])
  }

  lemma {:induction false} AllAway(n: nat)
    ensures Held(seq(n, i => Away)) == 0
  {
    if n > 0 {
      AllAway(n - 1);
      assert seq(n, i => Away)[1..] == seq(n - 1, i => Away);
    }
  }

  /** For any number of threads: counter and held values add up to one at all times, and the bytes sent
      are whole packets followed by part of at most one, that of the thread inside. */
  lemma {:induction false} LockIsSound(states: seq<State>, events: seq<Event>, i: nat)
    requires IsRun(states, events) && i < |states|
    ensures states[i].counter + Held(states[i].threads) == UNLOCKED
    ensures Locking(states[i]) && Whole(states[i])
  {
    hide Step, Enabled, Whole, Held;
    if i == 0 {
      AllAway(|states[0].threads|);
      NothingSent(|states[0].threads|);
    } else {
      LockIsSound(states, events, i - 1);
      StepKeepsLock(states[i - 1], events[i - 1]);
      StepKeepsWhole(states[i - 1], events[i - 1]);
    }
  }

  lemma {:induction false} NothingSent(n: nat)
    ensures Whole(Initial(n))
  {
  }

  ghost predicate WritesFrom(states: seq<State>, t: nat, i: nat, j: nat) {
    forall k :: i <= k <= j < |states| ==> t < |states[k].threads| && states[k].threads[t].Writing?
  }

  lemma {:induction false} WriterKeepsSocket(s: State, e: Event, t: nat)
    requires Locking(s) && Enabled(s, e) && t < |s.threads| && s.threads[t].Writing?
    ensures Step(s, e).socket == s.socket
  {
    hide Locking;
    if e.EndSwap? {
      OneInside(s, t, e.t);
    }
  }

  /** From before a writer looks until after its last byte is out, the connection stays the one it was:
      it is neither reset nor replaced in between. */
  lemma {:induction false} SeenIsStillThere(states: seq<State>, events: seq<Event>, t: nat, i: nat, j: nat)
    requires IsRun(states, events) && i <= j < |states| && WritesFrom(states, t, i, j)
    ensures states[j].socket == states[i].socket
    ensures states[j].threads[t].checked ==> states[i].socket.Some?
    decreases j - i
  {
    hide Locking, Held, Step, Enabled;
    LockIsSound(states, events, j);
    assert Sane(states[j], t);
    if i < j {
      hide Whole;
      SeenIsStillThere(states, events, t, i, j - 1);
      LockIsSound(states, events, j - 1);
      WriterKeepsSocket(states[j - 1], events[j - 1], t);
    }
  }

  /** Nobody is inside, nothing failed: what went out is exactly the packets, one after the other. */
  lemma {:induction false} QuietMeansWhole(states: seq<State>, events: seq<Event>, i: nat)
    requires IsRun(states, events) && i < |states| && states[i].counter == UNLOCKED && !states[i].broken
    ensures states[i].sent == Concat(states[i].packets)
  {
    hide Step, Enabled, Concat, IsRun, Held;
    LockIsSound(states, events, i);
    NobodyInside(states[i]);
  }

  // ---- when a stream is broken

  /** A publisher gets less out than its packet, or the agent gives up within one. */
  predicate CutsShort(s: State, e: Event)
    requires Enabled(s, e)
  {
    match e
    case Emit(t, n) => t != AGENT && s.threads[t].written + n < |s.threads[t].packet|
    case Fail(t) => 0 < s.threads[t].written < |s.threads[t].packet|
    case _ => false
  }

  ghost predicate SameConnection(events: seq<Event>, k: nat, i: nat)
    requires i <= |events|
  {
    forall j :: k <= j < i ==> !events[j].EndSwap?
  }

  ghost predicate WasCut(states: seq<State>, events: seq<Event>, i: nat)
    requires IsRun(states, events) && i <= |events|
  {
    exists k :: 0 <= k < i && CutsShort(states[k], events[k]) && SameConnection(events, k + 1, i)
  }

  lemma {:induction false} BrokenStep(s: State, e: Event)
    requires Enabled(s, e)
    ensures Step(s, e).broken <==> CutsShort(s, e) || (s.broken && !e.EndSwap?)
  {
  }

  /** A stream counts as broken exactly when a write was cut short since the connection was made. */
  lemma {:induction false} BrokenIff(states: seq<State>, events: seq<Event>, i: nat)
    requires IsRun(states, events) && i <= |events|
    ensures states[i].broken <==> WasCut(states, events, i)
  {
    hide Step, Enabled, CutsShort;
    if i > 0 {
      BrokenIff(states, events, i - 1);
      BrokenStep(states[i - 1], events[i - 1]);
      CutEarlier(states, events, i);
    } else {
      StartsWhole(states, events);
    }
  }

  lemma {:induction false} StartsWhole(states: seq<State>, events: seq<Event>)
    requires IsRun(states, events)
    ensures !states[0].broken
  {
  }

  lemma {:induction false} CutEarlier(states: seq<State>, events: seq<Event>, i: nat)
    requires IsRun(states, events) && 0 < i <= |events|
    ensures WasCut(states, events, i) <==>
        CutsShort(states[i - 1], events[i - 1]) || (WasCut(states, events, i - 1) && !events[i - 1].EndSwap?)
  {
    hide Step, Enabled, CutsShort;
    if WasCut(states, events, i) {
      var k :| 0 <= k < i && CutsShort(states[k], events[k]) && SameConnection(events, k + 1, i);
      if k < i - 1 {
        assert SameConnection(events, k + 1, i - 1);
      }
    }
    if CutsShort(states[i - 1], events[i - 1]) {
      assert SameConnection(events, i, i);
    }
    if WasCut(states, events, i - 1) && !events[i - 1].EndSwap? {
      var k :| 0 <= k < i - 1 && CutsShort(states[k], events[k]) && SameConnection(events, k + 1, i - 1);
      assert SameConnection(events, k + 1, i);
    }
  }

  lemma {:induction false} OneMore(states: seq<State>, events: seq<Event>, e: Event) returns (more: seq<State>)
    requires IsRun(states, events) && Enabled(states[|events|], e)
    ensures |more| == |events| + 2 && more[|events| + 1] == Step(states[|events|], e) && IsRun(more, events + [e])
  {
    hide Enabled, Step;
    more := states + [Step(states[|events|], e)];
  }

  lemma {:induction false} FourSteps(s: State, t: nat, packet: seq<byte>)
    requires t < |s.threads| && s.threads[t].Away? && s.counter > 0 && s.socket.Some? && (t == AGENT ==> s.attached)
    requires packet != []
    ensures Enabled(s, BeginWrite(t, packet))
    ensures var a := Step(s, BeginWrite(t, packet));
            Enabled(a, Look(t))
            && var b := Step(a, Look(t));
               Enabled(b, Emit(t, |packet|))
               && var c := Step(b, Emit(t, |packet|));
                  Enabled(c, EndWrite(t))
                  && Step(c, EndWrite(t)) == s.(sent := s.sent + packet, packets := s.packets + [packet])
  {
    var a := Step(s, BeginWrite(t, packet));
    var b := Step(a, Look(t));
    var c := Step(b, Emit(t, |packet|));
    assert packet[0..|packet|] == packet;
    assert Step(c, EndWrite(t)).threads == s.threads;
  }

  /** Whoever finds the lock free and the connection there gets a packet out. */
  lemma {:induction false} WriteOut(states: seq<State>, events: seq<Event>, t: nat, packet: seq<byte>)
    returns (more: seq<State>, then_: seq<Event>)
    requires IsRun(states, events) && packet != []
    requires var s := states[|events|];
             && t < |s.threads| && s.threads[t].Away? && s.counter > 0 && s.socket.Some?
             && (t == AGENT ==> s.attached)
    ensures IsRun(more, then_)
    ensures var s := states[|events|]; more[|then_|] == s.(sent := s.sent + packet, packets := s.packets + [packet])
  {
    FourSteps(states[|events|], t, packet);
    hide IsRun, Step, Enabled;
    more := OneMore(states, events, BeginWrite(t, packet));
    then_ := events + [BeginWrite(t, packet)];
    more := OneMore(more, then_, Look(t));
    then_ := then_ + [Look(t)];
    more := OneMore(more, then_, Emit(t, |packet|));
    then_ := then_ + [Emit(t, |packet|)];
    more := OneMore(more, then_, EndWrite(t));
    then_ := then_ + [EndWrite(t)];
  }

  /** The agent and a publisher both get their packets out over one connection. */
  lemma {:induction false} BothWrite(p: seq<byte>, q: seq<byte>) returns (states: seq<State>, events: seq<Event>)
    requires p != [] && q != []
    ensures IsRun(states, events)
    ensures var last := states[|events|]; last.sent == p + q && last.packets == [p, q] && last.counter == UNLOCKED
  {
    hide IsRun;
    states, events := [Initial(2)], [];
    FirstState(2);
    states := OneMore(states, events, BeginSwap(1));
    events := events + [BeginSwap(1)];
    states := OneMore(states, events, EndSwap(1, Some(5)));
    events := events + [EndSwap(1, Some(5))];
    states := OneMore(states, events, Attach);
    events := events + [Attach];
    states, events := WriteOut(states, events, 0, p);
    states, events := WriteOut(states, events, 1, q);
    assert [] + p == p && [] + [p] == [p] && [p] + [q] == [p, q];
  }

  lemma {:induction false} FirstState(n: nat)
    ensures IsRun([Initial(n)], [])
  {
  }
}
