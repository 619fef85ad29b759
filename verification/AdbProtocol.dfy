/**
 The plugin and the debugger agent's transport, talking over a pair of first-in first-out sockets, in
 every interleaving with connections coming and going.
 */
module AdbProtocol {
  import opened Leb128
  import opened AdbPlugin

  // ---- the life of the agent's transport

  /** Idle; listening for file descriptors; attached and still listening; attached only. */
  datatype Mode = Idle | Waiting | Attached | Serving

  /** What a message of the transport says about where it stands now. */
  function After(m: Mode, msg: Msg): Option<Mode> {
    match (m, msg)
    case (Idle, StartListen) => Some(Waiting)
    case (Waiting, Accepted) => Some(Attached)
    case (Waiting, EndListen) => Some(Idle)
    case (Attached, Closing) => Some(Waiting)
    case (Attached, EndListen) => Some(Serving)
    case (Serving, Closing) => Some(Idle)
    case _ => None
  }

  function AfterAll(m: Mode, q: seq<Msg>): Option<Mode>
    decreases |q|
  {
    if q == [] then Some(m)
    else match After(m, q[0]) case None => None case Some(n) => AfterAll(n, q[1..])
  }

  lemma {:induction false} AfterOneMore(m: Mode, q: seq<Msg>, msg: Msg)
    requires AfterAll(m, q).Some?
    ensures AfterAll(m, q + [msg]) == After(AfterAll(m, q).value, msg)
    decreases |q|
  {
    hide After;
    if q == [] {
      assert q + [msg] == [msg];
      assert [msg][1..] == [];
    } else {
      AfterOneMore(After(m, q[0]).value, q[1..], msg);
      assert (q + [msg])[1..] == q[1..] + [msg];
    }
  }

  function Accepts(q: seq<Msg>): nat {
    if q == [] then 0 else (if q[0].Accepted? then 1 else 0) + Accepts(q[1..])
  }

  lemma {:induction false} AcceptsOneMore(q: seq<Msg>, msg: Msg)
    ensures Accepts(q + [msg]) == Accepts(q) + if msg.Accepted? then 1 else 0
  {
    if q == [] {
      assert q + [msg] == [msg];
      assert Accepts([msg][1..]) == 0;
    } else {
      AcceptsOneMore(q[1..], msg);
      assert (q + [msg])[1..] == q[1..] + [msg];
    }
  }

  /** How often the transport gives up listening without having accepted anything. */
  function GivesUp(m: Mode, q: seq<Msg>): nat
    decreases |q|
  {
    if q == [] || After(m, q[0]).None? then 0
    else (if m.Waiting? && q[0].EndListen? then 1 else 0) + GivesUp(After(m, q[0]).value, q[1..])
  }

  lemma {:induction false} GivesUpOneMore(m: Mode, q: seq<Msg>, msg: Msg)
    requires AfterAll(m, q + [msg]).Some? && AfterAll(m, q).Some?
    ensures GivesUp(m, q + [msg]) == GivesUp(m, q) + if AfterAll(m, q).value.Waiting? && msg.EndListen? then 1 else 0
    decreases |q|
  {
    hide After;
    if q == [] {
      assert q + [msg] == [msg];
      assert [msg][1..] == [];
    } else {
      assert (q + [msg])[1..] == q[1..] + [msg];
      GivesUpOneMore(After(m, q[0]).value, q[1..], msg);
    }
  }

  /** Where the plugin's flags say the transport stands. */
  function ModeOf(p: Plugin): Mode {
    if p.listening then (if p.hasSocket then Attached else Waiting) else if p.hasSocket then Serving else Idle
  }

  // ---- both together

  /** Messages under way to the plugin, handovers under way to the agent, all handovers so far, whether
      sending one has ever failed, and whether the agent failed to receive the last one. */
  datatype System = System(p: Plugin, agent: Mode, q: seq<Msg>, fds: seq<Handover>, handed: seq<Handover>, failed: bool,
      lost: bool)

  datatype Event =
    | Deliver(sendOk: bool)
    | Connect(fd: Option<nat>, sendOk: bool)
    | ControlHangup
    | ControlRestored
    | Data(input: seq<byte>, io: Io)
    | Hangup
    | AgentListens
    | AgentAccepts
    | AgentFails
    | AgentRejects
    | AgentStops
    | AgentCloses

  /** What the poll loop waits for, and what the agent does next. */
  predicate Enabled(s: System, e: Event) {
    match e
    case Deliver(_) => s.p.control && s.p.loaded && s.q != []
    case Connect(_, _) => s.p.control && s.p.socket.None?
    case ControlHangup => s.p.control && s.p.socket.None?
    case ControlRestored => !s.p.control
    case Data(_, _) => s.p.control && s.p.socket.Some? && !s.p.hasSocket && !s.p.sentFds
    case Hangup => s.p.control && s.p.socket.Some? && !s.p.hasSocket && !s.p.sentFds
    case AgentListens => s.p.loaded && s.agent.Idle?
    case AgentAccepts => s.agent.Waiting? && s.fds != []
    case AgentFails => s.agent.Waiting? && s.fds != []
    case AgentRejects => s.agent.Attached?
    case AgentStops => s.agent.Attached?
    case AgentCloses => s.agent.Serving?
  }

  /** The checks the plugin makes of itself on the way. */
  predicate Checks(s: System, e: Event)
    requires Enabled(s, e)
  {
    match e
    case Deliver(_) => s.q[0].StartListen? ==> MayStart(s.p)
    case Connect(fd, _) => fd.Some? && s.p.loaded && s.p.listening ==> !s.p.sentFds
    case ControlHangup => !s.p.hasSocket
    case Data(_, _) => !s.p.hasSocket && (!s.p.loaded ==> !s.p.listening)
    case Hangup => !s.p.hasSocket
    case _ => true
  }

  /** Whether the event makes the plugin offer its connection to the agent. */
  predicate Offers(s: System, e: Event)
    requires Enabled(s, e)
  {
    match e
    case Deliver(_) => s.q[0].StartListen? && s.p.socket.Some?
    case Connect(fd, _) => fd.Some? && s.p.loaded && s.p.listening
    case Data(_, _) => s.p.loaded && s.p.listening && !s.p.sentFds
    case _ => false
  }

  predicate SendOk(e: Event) {
    match e case Deliver(ok) => ok case Connect(_, ok) => ok case Data(_, io) => io.sendOk case _ => true
  }

  function Plus(s: System, p: Plugin, h: Option<Handover>, failed: bool): System {
    match h
    case None => s.(p := p, failed := failed)
    case Some(h) => s.(p := p, fds := s.fds + [h], handed := s.handed + [h], failed := failed, lost := false)
  }

  function Say(s: System, agent: Mode, m: Msg): System {
    s.(agent := agent, q := s.q + [m])
  }

  function Step(s: System, e: Event): System
    requires Enabled(s, e)
  {
    var failed := s.failed || (Offers(s, e) && !SendOk(e));
    match e
    case Deliver(ok) => var (p, h) := AgentMessageOf(s.p, s.q[0], ok); Plus(s, p, h, failed).(q := s.q[1..])
    case Connect(fd, ok) => var (p, h) := NewConnectionOf(s.p, fd, ok); Plus(s, p, h, failed)
    case ControlHangup => s.(p := s.p.(control := false))
    case ControlRestored => s.(p := s.p.(control := true))
    case Data(input, io) => var (p, h) := AdbDataOf(s.p, input, io); Plus(s, p, h, failed)
    case Hangup => s.(p := CloseOf(s.p))
    case AgentListens => Say(s, Waiting, StartListen)
    case AgentAccepts => Say(s.(fds := s.fds[1..]), Attached, Accepted)
    case AgentFails => Say(s.(fds := s.fds[1..], lost := true), Idle, EndListen)
    case AgentRejects => Say(s, Waiting, Closing)
    case AgentStops => Say(s, Serving, EndListen)
    case AgentCloses => Say(s, Idle, Closing)
  }

  const INITIAL := System(Plugin(false, None, false, false, false, false, false, false), Idle, [], [], [], false, false)

  // ---- what is always so

  ghost predicate Inv(s: System) {
    && (!s.p.loaded ==> s.q == [] && s.fds == [] && s.agent.Idle? && !s.p.listening && !s.p.hasSocket && !s.p.sentFds)
    && AfterAll(ModeOf(s.p), s.q) == Some(s.agent)
    && |s.fds| + Accepts(s.q) + (if s.lost then 1 else 0) == (if s.p.sentFds then 1 else 0)
    && GivesUp(ModeOf(s.p), s.q) <= (if s.lost && s.p.listening then 1 else 0)
    && (s.p.sentFds && !s.lost ==> ModeOf(s.p).Waiting?)
    && (s.lost ==> !s.p.hasSocket)
    && (s.p.sentFds || s.p.hasSocket ==> s.p.socket.Some?)
  }

  /** The agent begins to listen, and the set it was sent before has never reached it. */
  predicate StartsAfterLoss(s: System, e: Event)
    requires Enabled(s, e)
  {
    e.Deliver? && s.q[0].StartListen? && s.lost
  }

  /** Exactly one check can fail. */
  lemma {:induction false} ChecksHold(s: System, e: Event)
    requires Inv(s) && Enabled(s, e)
    ensures Checks(s, e) <==> !StartsAfterLoss(s, e)
  {
    if e.Deliver? && s.q[0].StartListen? {
      assert After(ModeOf(s.p), s.q[0]).Some?;
    }
  }

  lemma {:induction false} DeliverKeeps(s: System, ok: bool)
    requires Inv(s) && Enabled(s, Deliver(ok))
    ensures Inv(Step(s, Deliver(ok)))
  {
    hide AfterAll, GivesUp;
    HeadOfQueue(ModeOf(s.p), s.q);
  }

  lemma {:induction false} HeadOfQueue(m: Mode, q: seq<Msg>)
    requires q != [] && AfterAll(m, q).Some?
    ensures After(m, q[0]).Some? && AfterAll(m, q) == AfterAll(After(m, q[0]).value, q[1..])
    ensures GivesUp(m, q) == (if m.Waiting? && q[0].EndListen? then 1 else 0) + GivesUp(After(m, q[0]).value, q[1..])
  {
  }

  lemma {:induction false} DataKeeps(s: System, input: seq<byte>, io: Io)
    requires Inv(s) && Enabled(s, Data(input, io))
    ensures Inv(Step(s, Data(input, io)))
  {
    hide AfterAll, Accepts, GivesUp, DataOf;
    if !s.p.loaded {
      DataKeepsMode(s.p, input, io);
    }
  }

  predicate SameStanding(p: Plugin, now: Plugin) {
    && now.control == p.control && now.listening == p.listening
    && now.hasSocket == p.hasSocket && now.sentFds == p.sentFds
  }

  /** Data moves nothing but the connection, and may load the agent. */
  lemma {:induction false} DataKeepsMode(p: Plugin, input: seq<byte>, io: Io)
    requires p.socket.Some?
    ensures SameStanding(p, DataOf(p, input, io)) && ModeOf(DataOf(p, input, io)) == ModeOf(p)
  {
    hide Be32, HandshakeOf, ChunkOf;
    if !p.performedHandshake {
      HandshakeKeepsMode(p, input, io);
    } else if IsWholeChunk(input) {
      ChunkKeepsMode(p, input[..Be32(input[..4])]);
    }
  }

  lemma {:induction false} HandshakeKeepsMode(p: Plugin, input: seq<byte>, io: Io)
    requires p.socket.Some?
    ensures SameStanding(p, HandshakeOf(p, input, io))
  {
  }

  lemma {:induction false} ChunkKeepsMode(p: Plugin, packet: seq<byte>)
    requires p.socket.Some?
    ensures SameStanding(p, ChunkOf(p, packet))
  {
    hide IsHandled;
  }

  lemma {:induction false} ConnectKeeps(s: System, e: Event)
    requires Inv(s) && Enabled(s, e) && (e.Connect? || e.ControlHangup? || e.ControlRestored? || e.Hangup?)
    ensures Inv(Step(s, e))
  {
    hide AfterAll, Accepts, GivesUp;
  }

  function Said(e: Event): Msg
    requires e.AgentListens? || e.AgentAccepts? || e.AgentFails? || e.AgentRejects? || e.AgentStops? || e.AgentCloses?
  {
    match e
    case AgentListens => StartListen
    case AgentAccepts => Accepted
    case AgentFails => EndListen
    case AgentStops => EndListen
    case _ => Closing
  }

  lemma {:induction false} AgentKeeps(s: System, e: Event)
    requires Inv(s) && Enabled(s, e)
    requires e.AgentListens? || e.AgentAccepts? || e.AgentFails? || e.AgentRejects? || e.AgentStops? || e.AgentCloses?
    ensures Inv(Step(s, e))
  {
    hide AfterAll, Accepts, GivesUp;
    AfterOneMore(ModeOf(s.p), s.q, Said(e));
    AcceptsOneMore(s.q, Said(e));
    GivesUpOneMore(ModeOf(s.p), s.q, Said(e));
  }

  lemma {:induction false} StepKeeps(s: System, e: Event)
    requires Inv(s) && Enabled(s, e)
    ensures Inv(Step(s, e))
  {
    hide Inv, Step, Enabled;
    if e.Deliver? {
      DeliverKeeps(s, e.sendOk);
    } else if e.Data? {
      DataKeeps(s, e.input, e.io);
    } else if e.Connect? || e.ControlHangup? || e.ControlRestored? || e.Hangup? {
      ConnectKeeps(s, e);
    } else {
      AgentKeeps(s, e);
    }
  }

  // ---- whole runs

  ghost predicate IsRun(states: seq<System>, events: seq<Event>) {
    && |states| == |events| + 1 && states[0] == INITIAL
    && forall i :: 0 <= i < |events| ==> Enabled(states[i], events[i]) && states[i + 1] == Step(states[i], events[i])
  }

  /** The set last sent was lost on the agent's side, seen from the events alone. */
  ghost predicate LostBy(states: seq<System>, events: seq<Event>, i: nat)
    requires IsRun(states, events) && i <= |events|
  {
    exists k :: 0 <= k < i && events[k].AgentFails? && NoneSent(states, events, k + 1, i)
  }

  ghost predicate NoneSent(states: seq<System>, events: seq<Event>, from: nat, to: nat)
    requires IsRun(states, events) && to <= |events|
  {
    forall j :: from <= j < to ==> !(Offers(states[j], events[j]) && SendOk(events[j]))
  }

  lemma {:induction false} LossIsRecorded(states: seq<System>, events: seq<Event>, i: nat)
    requires IsRun(states, events) && i <= |events|
    ensures states[i].lost <==> LostBy(states, events, i)
  {
    hide Enabled, Inv;
    if i > 0 {
      var s, e := states[i - 1], events[i - 1];
      LossIsRecorded(states, events, i - 1);
      LostStep(s, e);
      if e.AgentFails? {
        assert NoneSent(states, events, i, i);
      } else {
        LostAlready(states, events, i);
      }
    }
  }

  lemma {:induction false} LostAlready(states: seq<System>, events: seq<Event>, i: nat)
    requires IsRun(states, events) && 0 < i <= |events| && !events[i - 1].AgentFails?
    ensures LostBy(states, events, i) <==>
              LostBy(states, events, i - 1) && !(Offers(states[i - 1], events[i - 1]) && SendOk(events[i - 1]))
  {
    hide Enabled, Step, Offers, SendOk;
    if LostBy(states, events, i) {
      var k :| 0 <= k < i && events[k].AgentFails? && NoneSent(states, events, k + 1, i);
      assert NoneSent(states, events, k + 1, i - 1);
    } else if LostBy(states, events, i - 1) {
      var k :| 0 <= k < i - 1 && events[k].AgentFails? && NoneSent(states, events, k + 1, i - 1);
      assert !NoneSent(states, events, k + 1, i);
    }
  }

  lemma {:induction false} LostStep(s: System, e: Event)
    requires Enabled(s, e)
    ensures Step(s, e).lost <==> e.AgentFails? || (s.lost && !(Offers(s, e) && SendOk(e)))
  {
    hide DataOf;
  }

  /** In every run of plugin and agent descriptors are sent only when none are outstanding, whoever holds
      or awaits the socket has one, and every check holds but one: the check made when the agent begins to
      listen fails exactly when the agent has failed to receive the set that was sent last. */
  lemma {:induction false} RunsAreSafe(states: seq<System>, events: seq<Event>, i: nat)
    requires IsRun(states, events) && i < |states|
    ensures Inv(states[i])
    ensures i < |events| ==>
              (Checks(states[i], events[i]) <==>
               !(events[i].Deliver? && states[i].q[0].StartListen? && LostBy(states, events, i)))
    ensures Consistent(states[i].p) && |states[i].fds| <= 1
  {
    hide Step, Enabled, LostBy;
    if i > 0 {
      RunsAreSafe(states, events, i - 1);
      StepKeeps(states[i - 1], events[i - 1]);
    }
    if i < |events| {
      ChecksHold(states[i], events[i]);
      LossIsRecorded(states, events, i);
    }
  }

  /** A shorter queue without acceptances cannot lead from not holding the socket to holding it. */
  lemma {:induction false} NothingAccepted(m: Mode, q: seq<Msg>)
    requires (m.Idle? || m.Waiting?) && AfterAll(m, q).Some? && Accepts(q) == 0
    ensures var a := AfterAll(m, q).value; a.Idle? || a.Waiting?
    decreases |q|
  {
    if q != [] {
      NothingAccepted(After(m, q[0]).value, q[1..]);
    }
  }

  predicate Changes(a: Option<Conn>, b: Option<Conn>) {
    a.Some? != b.Some? || (a.Some? && a.value.id != b.value.id)
  }

  /** The plugin resets or replaces its connection only when the agent neither holds it nor is about to
      receive it. */
  lemma {:induction false} ConnectionIsUnheld(s: System, e: Event)
    requires Inv(s) && Enabled(s, e) && Changes(s.p.socket, Step(s, e).p.socket)
    ensures !s.agent.Attached? && !s.agent.Serving? && s.fds == []
  {
    hide AfterAll, GivesUp, Be32;
    if e.Deliver? {
      HeadOfQueue(ModeOf(s.p), s.q);
      NothingAccepted(After(ModeOf(s.p), s.q[0]).value, s.q[1..]);
    } else {
      NothingAccepted(ModeOf(s.p), s.q);
    }
  }

  // ---- the poll loop

  /** What poll can report of the two together: a message only if one is under way. */
  predicate Reports(s: System, poll: Poll) {
    && s.p.control && Polled(s.p, poll)
    && (poll.agent.Some? ==> s.q != [] && poll.agent.value == s.q[0])
  }

  predicate Ready(poll: Poll) {
    poll.agent.Some? || poll.controlIn.Some? || poll.controlHup || poll.adbIn.Some? || poll.adbHup
  }

  /** What a wake-up amounts to, whatever else is ready. */
  function EventOf(poll: Poll, io: Io): Event
    requires Ready(poll)
  {
    if poll.agent.Some? then Deliver(io.sendOk)
    else if poll.controlIn.Some? then Connect(poll.controlIn.value, io.sendOk)
    else if poll.controlHup then ControlHangup
    else if poll.adbIn.Some? then Data(poll.adbIn.value, io)
    else Hangup
  }

  function Sent(h: Option<Handover>): seq<Handover> {
    if h.Some? then [h.value] else []
  }

  /** A wake-up with any combination of ready descriptors is a step of one enabled event. */
  lemma {:induction false} WakeIsStep(s: System, poll: Poll, io: Io)
    requires Reports(s, poll) && Ready(poll)
    ensures var e, (p, h) := EventOf(poll, io), WakeOf(s.p, poll, io);
            Enabled(s, e) && Step(s, e).p == p && Step(s, e).handed == s.handed + Sent(h)
  {
    hide DataOf;
    var h := WakeOf(s.p, poll, io).1;
    assert h.None? ==> s.handed + Sent(h) == s.handed;
  }

  predicate IsWakeUp(e: Event) {
    e.Deliver? || e.Connect? || e.ControlHangup? || e.Data? || e.Hangup?
  }

  /** Every event of the plugin's side is a wake-up that poll can report. */
  lemma {:induction false} EventIsPolled(s: System, e: Event) returns (poll: Poll, io: Io)
    requires Enabled(s, e) && IsWakeUp(e)
    ensures Reports(s, poll) && Ready(poll) && EventOf(poll, io) == e
  {
    io := match e case Deliver(ok) => ALL_OK.(sendOk := ok) case Connect(_, ok) => ALL_OK.(sendOk := ok) case Data(_,
        io) => io case _ => ALL_OK;
    poll := match e
      case Deliver(_) => Poll(Some(s.q[0]), None, false, None, false)
      case Connect(fd, _) => Poll(None, Some(fd), false, None, false)
      case ControlHangup => Poll(None, None, true, None, false)
      case Data(input, _) => Poll(None, None, false, Some(input), false)
      case _ => Poll(None, None, false, None, true);
  }

  datatype Wake = Wake(poll: Poll, io: Io)

  /** The wake-ups poll reported for the events of a run, with anything else that was ready as well. */
  ghost predicate Woken(states: seq<System>, events: seq<Event>, wakes: seq<Wake>) {
    && IsRun(states, events) && |wakes| == |events|
    && forall i :: 0 <= i < |events| && IsWakeUp(events[i]) ==>
         && Reports(states[i], wakes[i].poll) && Ready(wakes[i].poll)
         && EventOf(wakes[i].poll, wakes[i].io) == events[i]
  }

  /** One turn of the loop: all checks pass unless the agent listens again after a loss. */
  method Turn(connection: AdbConnection, s: System, e: Event, wake: Wake) returns (handover: Option<Handover>)
    requires Inv(s) && Enabled(s, e) && !StartsAfterLoss(s, e) && connection.View() == s.p
    requires IsWakeUp(e) ==> Reports(s, wake.poll) && Ready(wake.poll) && EventOf(wake.poll, wake.io) == e
    modifies connection
    ensures connection.View() == Step(s, e).p && Step(s, e).handed == s.handed + Sent(handover)
  {
    hide WakeOf, Accepts, AfterAll, GivesUp;
    ChecksHold(s, e);
    if IsWakeUp(e) {
      WakeIsStep(s, wake.poll, wake.io);
      handover := connection.PollOnce(wake.poll, wake.io);
    } else {
      handover := None;
      assert s.handed + Sent(None) == s.handed;
      if e.ControlRestored? {
        connection.SetupAdbConnection();
      }
    }
  }

  /** The plugin's code, woken in any way a run allows, keeps to the run's states and sends what the run
      sends, up to the first check that fails; it comes to that exactly when the agent listens again after
      a loss. */
  method PollLoop(states: seq<System>, events: seq<Event>, wakes: seq<Wake>)
    returns (connection: AdbConnection, n: nat, sent: seq<Handover>)
    requires Woken(states, events, wakes)
    ensures n <= |events| && connection.View() == states[n].p && sent == states[n].handed
    ensures forall i :: 0 <= i < n ==> !StartsAfterLoss(states[i], events[i])
    ensures n < |events| ==> StartsAfterLoss(states[n], events[n])
  {
    hide Inv, Step, Reports, EventOf, Ready;
    connection := new AdbConnection();
    sent := [];
    for i := 0 to |events|
      invariant connection.View() == states[i].p && fresh(connection) && sent == states[i].handed
      invariant forall j :: 0 <= j < i ==> !StartsAfterLoss(states[j], events[j])
    {
      RunsAreSafe(states, events, i);
      if events[i].Deliver? && states[i].q[0].StartListen? && states[i].lost {
        return connection, i, sent;
      }
      var handover := Turn(connection, states[i], events[i], wakes[i]);
      sent := sent + Sent(handover);
    }
    n := |events|;
  }

  /** The check made when the agent begins to listen. */
  predicate MayStart(p: Plugin) {
    p.socket.Some? ==> !p.sentFds
  }

  // ---- the bytes of a connection

  /** Whole DDM packets, one after the other. */
  ghost predicate Framed(s: seq<byte>)
    decreases |s|
  {
    s == [] || (IsWholeChunk(s) && Framed(s[Be32(s[..4])..]))
  }

  /** The handshake and whole packets: what follows is the start of a packet. */
  ghost predicate AtBoundary(s: seq<byte>) {
    |s| >= |HANDSHAKE| && s[..|HANDSHAKE|] == HANDSHAKE && Framed(s[|HANDSHAKE|..])
  }

  lemma {:induction false} FramedMore(s: seq<byte>, packet: seq<byte>)
    requires Framed(s) && IsWholeChunk(packet) && Be32(packet[..4]) == |packet|
    ensures Framed(s + packet)
    decreases |s|
  {
    hide Be32;
    if s == [] {
      assert s + packet == packet && packet[|packet|..] == [];
    } else {
      var n := Be32(s[..4]);
      FramedMore(s[n..], packet);
      assert (s + packet)[..4] == s[..4] && (s + packet)[n..] == s[n..] + packet;
    }
  }

  lemma {:induction false} BoundaryMore(s: seq<byte>, packet: seq<byte>)
    requires AtBoundary(s) && IsWholeChunk(packet) && Be32(packet[..4]) == |packet|
    ensures AtBoundary(s + packet)
  {
    hide Be32, Framed;
    var n := |HANDSHAKE|;
    FramedMore(s[n..], packet);
    assert (s + packet)[..n] == s[..n] && (s + packet)[n..] == s[n..] + packet;
  }

  /** Before the agent has the socket, the plugin has taken either nothing or the handshake and whole
      packets, and its flag says which. */
  ghost predicate TakenProperly(p: Plugin) {
    && (p.socket.None? ==> !p.performedHandshake)
    && (p.socket.Some? && !p.hasSocket ==>
          if p.performedHandshake then AtBoundary(p.socket.value.consumed) else p.socket.value.consumed == [])
  }

  /** The agent is asked for the handshake exactly when it is still to come. */
  ghost predicate OneHandshake(h: Handover) {
    if h.skipHandshake then AtBoundary(h.consumed) else h.consumed == []
  }

  ghost predicate InvBytes(s: System) {
    && TakenProperly(s.p)
    && (!s.failed ==> (ModeOf(s.p).Waiting? && s.p.socket.Some? ==> s.p.sentFds))
    && (!s.failed ==> forall h :: h in s.handed ==> OneHandshake(h))
    && (forall h :: h in s.handed && h.skipHandshake ==> AtBoundary(h.consumed))
  }

  lemma {:induction false} HandshakeIsBoundary()
    ensures AtBoundary(HANDSHAKE)
  {
  }

  lemma {:induction false} DataTakesProperly(p: Plugin, input: seq<byte>, io: Io)
    requires p.socket.Some? && !p.hasSocket && TakenProperly(p)
    ensures TakenProperly(DataOf(p, input, io))
  {
    hide Be32, AtBoundary;
    HandshakeIsBoundary();
    if p.performedHandshake && IsWholeChunk(input) {
      var packet := input[..Be32(input[..4])];
      assert packet[..4] == input[..4];
      BoundaryMore(p.socket.value.consumed, packet);
    } else if !p.performedHandshake {
      assert [] + HANDSHAKE == HANDSHAKE;
    }
  }

  lemma {:induction false} DataKeepsBytes(s: System, input: seq<byte>, io: Io)
    requires Inv(s) && InvBytes(s) && Enabled(s, Data(input, io))
    ensures InvBytes(Step(s, Data(input, io)))
  {
    hide AfterAll, Accepts, Be32, AtBoundary, DataOf;
    if !s.p.loaded {
      DataTakesProperly(s.p, input, io);
      DataKeepsMode(s.p, input, io);
    }
  }

  lemma {:induction false} DeliverKeepsBytes(s: System, ok: bool)
    requires Inv(s) && InvBytes(s) && Enabled(s, Deliver(ok))
    ensures InvBytes(Step(s, Deliver(ok)))
  {
    hide AfterAll, Accepts, AtBoundary;
    HeadOfQueue(ModeOf(s.p), s.q);
  }

  lemma {:induction false} OthersKeepBytes(s: System, e: Event)
    requires Inv(s) && InvBytes(s) && Enabled(s, e) && !e.Deliver? && !e.Data?
    ensures InvBytes(Step(s, e))
  {
    hide AfterAll, Accepts, AtBoundary;
  }

  lemma {:induction false} StepKeepsBytes(s: System, e: Event)
    requires Inv(s) && InvBytes(s) && Enabled(s, e)
    ensures InvBytes(Step(s, e))
  {
    hide Inv, InvBytes, Step, Enabled;
    match e
    case Deliver(ok) => DeliverKeepsBytes(s, ok);
    case Data(input, io) => DataKeepsBytes(s, input, io);
    case _ => OthersKeepBytes(s, e);
  }

  lemma {:induction false} RunKeepsBytes(states: seq<System>, events: seq<Event>, i: nat)
    requires IsRun(states, events) && i < |states|
    ensures InvBytes(states[i])
  {
    hide Inv, Step, Enabled;
    if i > 0 {
      RunKeepsBytes(states, events, i - 1);
      RunsAreSafe(states, events, i - 1);
      StepKeepsBytes(states[i - 1], events[i - 1]);
    }
  }

  /** In runs where sending descriptors never fails, each connection handed over has been or will be
      greeted by exactly one side, and the agent's first byte is the first of a packet or of the greeting. */
  lemma {:induction false} OneSideShakesHands(states: seq<System>, events: seq<Event>, i: nat, h: Handover)
    requires IsRun(states, events) && i < |states| && !states[i].failed && h in states[i].handed
    ensures h.skipHandshake <==> AtBoundary(h.consumed)
    ensures !h.skipHandshake <==> h.consumed == []
  {
    hide AtBoundary;
    RunKeepsBytes(states, events, i);
    NothingIsNoBoundary();
  }

  lemma {:induction false} NothingIsNoBoundary()
    ensures !AtBoundary([])
  {
  }

  /** Whatever makes the plugin hand over its connection, the agent is told rightly whether a handshake is
      still to come, unless it is data on a connection that the plugin has already greeted; and data makes
      it hand over only after a failure. */
  lemma {:induction false} SendingAgain(s: System, e: Event)
    requires Inv(s) && InvBytes(s) && Enabled(s, e) && Offers(s, e) && SendOk(e)
    ensures e.Data? ==> s.failed
    ensures |Step(s, e).handed| == |s.handed| + 1
    ensures OneHandshake(Step(s, e).handed[|s.handed|]) <==> !(e.Data? && s.p.performedHandshake)
  {
    hide AfterAll, Accepts, AtBoundary, GivesUp;
    NothingIsNoBoundary();
    if e.Deliver? {
      HeadOfQueue(ModeOf(s.p), s.q);
    }
  }

  const ALL_OK := Io(true, true, true, true, true)

  const GREETED := Plugin(true, Some(Conn(1, HANDSHAKE)), false, false, false, false, true, false)

  /** A debugger connects, is greeted, and sends something that makes the plugin load the agent. */
  lemma {:induction false} Greeting()
    ensures NewConnectionOf(INITIAL.p.(control := true), Some(1), true)
         == (INITIAL.p.(control := true, socket := Some(Conn(1, []))), None)
    ensures AdbDataOf(INITIAL.p.(control := true, socket := Some(Conn(1, []))), HANDSHAKE, ALL_OK) == (GREETED, None)
    ensures AdbDataOf(GREETED, [0], ALL_OK) == (GREETED.(loaded := true), None)
  {
    assert [] + HANDSHAKE == HANDSHAKE && HANDSHAKE[..|HANDSHAKE|] == HANDSHAKE;
  }

  const LOADING := [ControlRestored, Connect(Some(1), true), Data(HANDSHAKE, ALL_OK), Data([0], ALL_OK), AgentListens]

  lemma {:induction false} Loading() returns (states: seq<System>)
    ensures IsRun(states, LOADING) && |states| == 6
    ensures states[5] == INITIAL.(p := GREETED.(loaded := true), agent := Waiting, q := [StartListen])
  {
    hide AdbDataOf, NewConnectionOf;
    Greeting();
    var s1 := INITIAL.(p := INITIAL.p.(control := true));
    var s2 := s1.(p := s1.p.(socket := Some(Conn(1, []))));
    var s3, s4 := INITIAL.(p := GREETED), INITIAL.(p := GREETED.(loaded := true));
    var s5 := s4.(agent := Waiting, q := [StartListen]);
    states := [INITIAL, s1, s2, s3, s4, s5];
  }

  lemma {:induction false} RunOneMore(states: seq<System>, events: seq<Event>, e: Event) returns (more: seq<System>)
    requires IsRun(states, events) && |states| == |events| + 1 && Enabled(states[|events|], e)
    ensures |more| == |events| + 2 && more[|events| + 1] == Step(states[|events|], e)
    ensures IsRun(more, events + [e])
  {
    hide Enabled, Step;
    more := states + [Step(states[|events|], e)];
  }

  /** After one failure the debugger is in fact greeted twice. */
  lemma {:induction false} FailedSendGreetsTwice() returns (states: seq<System>, events: seq<Event>)
    ensures IsRun(states, events)
    ensures
      var last := states[|states| - 1];
      |last.handed| == 1 && !last.handed[0].skipHandshake && last.handed[0].consumed == HANDSHAKE
  {
    hide IsRun;
    states := Loading();
    events := LOADING;
    states := RunOneMore(states, events, Deliver(false));
    events := events + [Deliver(false)];
    states := RunOneMore(states, events, Data([0], ALL_OK));
    events := events + [Data([0], ALL_OK)];
  }

  /** A run in which the agent fails to receive what it was sent and listens again: the check fails. */
  lemma {:induction false} LostSetBreaksCheck() returns (states: seq<System>, events: seq<Event>)
    ensures IsRun(states, events) && |events| == 9 && events[6].AgentFails?
    ensures Enabled(states[9], Deliver(true)) && !Checks(states[9], Deliver(true))
  {
    hide IsRun;
    states := Loading();
    events := LOADING;
    states := RunOneMore(states, events, Deliver(true));
    events := events + [Deliver(true)];
    states := RunOneMore(states, events, AgentFails);
    events := events + [AgentFails];
    states := RunOneMore(states, events, AgentListens);
    events := events + [AgentListens];
    assert states[8].q == [EndListen, StartListen];
    states := RunOneMore(states, events, Deliver(true));
    events := events + [Deliver(true)];
  }
}
