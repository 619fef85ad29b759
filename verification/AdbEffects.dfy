/**
 The steps of plugin and agent, field by field: which events change a field, and to what.
 */
module AdbEffects {
  import opened Leb128
  import opened AdbPlugin
  import opened AdbProtocol

  /** This message of the agent is delivered. */
  predicate Hears(s: System, e: Event, m: Msg)
    requires Enabled(s, e)
  {
    e.Deliver? && s.q[0] == m
  }

  /** Data arrives that the plugin has to deal with itself. */
  predicate HandlesData(s: System, e: Event) {
    e.Data? && !s.p.loaded
  }

  /** The connection is closed: the debugger or the agent closes it, a call fails, or a greeting does. */
  predicate Closes(s: System, e: Event)
    requires Enabled(s, e)
  {
    || e.Hangup? || Hears(s, e, Closing)
    || (HandlesData(s, e) && s.p.performedHandshake && (e.input == [] || CallFails(e.input, e.io)))
    || (HandlesData(s, e) && !s.p.performedHandshake && !ShakesHands(e.input, e.io))
  }

  /** What the plugin takes from the connection. */
  function Taken(s: System, e: Event): seq<byte>
    requires Enabled(s, e)
  {
    if !HandlesData(s, e) || Closes(s, e) then []
    else if !s.p.performedHandshake then HANDSHAKE
    else if IsWholeChunk(e.input) then e.input[..Be32(e.input[..4])]
    else []
  }

  /** Anything but a whole chunk is for the agent. */
  predicate LoadsAgent(s: System, e: Event)
    requires Enabled(s, e)
  {
    HandlesData(s, e) && s.p.performedHandshake && !Closes(s, e) && !IsWholeChunk(e.input) && e.io.attachOk
  }

  /** What data does: it closes the connection, or bytes are taken from it, or the agent is loaded. */
  ghost predicate Closed(p: Plugin, now: Plugin) {
    now.socket.None? && !now.performedHandshake && now.loaded == p.loaded && now.notified == (p.notified && p.loaded)
  }

  ghost predicate Took(p: Plugin, now: Plugin, bytes: seq<byte>, loads: bool, notifies: bool)
    requires p.socket.Some?
  {
    && now.performedHandshake && now.socket == Some(Conn(p.socket.value.id, p.socket.value.consumed + bytes))
    && now.loaded == (p.loaded || loads) && now.notified == (p.notified || notifies)
  }

  lemma {:induction false} GreetingEffect(p: Plugin, input: seq<byte>, io: Io)
    requires p.socket.Some?
    ensures var now := HandshakeOf(p, input, io);
            if ShakesHands(input, io) then Took(p, now, HANDSHAKE, false, false) else Closed(p, now)
  {
  }

  lemma {:induction false} PacketEffect(p: Plugin, input: seq<byte>, io: Io)
    requires p.socket.Some? && p.performedHandshake
    ensures var now := DataOf(p, input, io);
            if input == [] || CallFails(input, io) then Closed(p, now)
            else if IsWholeChunk(input) then
              var packet := input[..Be32(input[..4])];
              Took(p, now, packet, false, IsHandled(packet))
            else Took(p, now, [], io.attachOk, false)
  {
    hide Be32, IsHandled;
    assert p.socket.value.consumed + [] == p.socket.value.consumed;
  }

  lemma {:induction false} DataEffect(p: Plugin, input: seq<byte>, io: Io)
    requires p.socket.Some?
    ensures SameStanding(p, DataOf(p, input, io))
    ensures var now := DataOf(p, input, io);
            if (if p.performedHandshake then input == [] || CallFails(input, io) else !ShakesHands(input, io))
            then Closed(p, now)
            else
              var whole := p.performedHandshake && IsWholeChunk(input);
              var taken := if whole then input[..Be32(input[..4])] else if p.performedHandshake then [] else HANDSHAKE;
              Took(p, now, taken, p.performedHandshake && !whole && io.attachOk, whole && IsHandled(taken))
  {
    hide Be32, IsHandled, CallFails, ShakesHands, Took, Closed, HandshakeOf, ChunkOf;
    DataKeepsMode(p, input, io);
    if p.performedHandshake {
      PacketEffect(p, input, io);
    } else {
      GreetingEffect(p, input, io);
    }
  }

  lemma {:induction false} DataStep(s: System, e: Event)
    requires Enabled(s, e) && HandlesData(s, e)
    ensures var now := Step(s, e).p;
            && SameStanding(s.p, now) && Step(s, e).handed == s.handed
            && if Closes(s, e) then Closed(s.p, now)
               else Took(s.p, now, Taken(s, e), LoadsAgent(s, e), s.p.performedHandshake && IsHandled(Taken(s, e)))
  {
    hide DataOf, CallFails, ShakesHands, IsWholeChunk, IsHandled, Be32, Closed, Took;
    DataEffect(s.p, e.input, e.io);
    NothingIsHandled();
  }

  lemma {:induction false} NothingIsHandled()
    ensures !IsHandled([])
  {
  }

  /** What a message of the agent or a new connection leaves of the plugin's state. */
  ghost predicate Heard(s: System, ok: bool, now: Plugin)
    requires s.q != []
  {
    match s.q[0]
    case StartListen => now == s.p.(listening := true, sentFds := s.p.sentFds || (s.p.socket.Some? && ok))
    case EndListen => now == s.p.(listening := false)
    case Closing => Closed(s.p, now) && SameStanding(s.p.(hasSocket := false), now)
    case Accepted => now == s.p.(hasSocket := true, sentFds := false, performedHandshake := false)
    case Unknown => now == s.p
  }

  ghost predicate Connected(p: Plugin, fd: Option<nat>, ok: bool, now: Plugin) {
    if fd.None? then now == p.(control := false)
    else now == p.(socket := Some(Conn(fd.value, [])), sentFds := p.sentFds || (p.loaded && p.listening && ok))
  }

  /** Each step in turn. */
  ghost predicate Steps(s: System, e: Event, now: Plugin)
    requires Enabled(s, e)
  {
    match e
    case Deliver(ok) => Heard(s, ok, now)
    case Connect(fd, ok) => Connected(s.p, fd, ok, now)
    case ControlHangup => now == s.p.(control := false)
    case ControlRestored => now == s.p.(control := true)
    case Data(_, io) =>
      if s.p.loaded then now == s.p.(sentFds := s.p.sentFds || (s.p.listening && io.sendOk))
      else
        && SameStanding(s.p, now)
        && if Closes(s, e) then Closed(s.p, now)
           else Took(s.p, now, Taken(s, e), LoadsAgent(s, e), s.p.performedHandshake && IsHandled(Taken(s, e)))
    case Hangup => Closed(s.p, now) && SameStanding(s.p, now)
    case _ => now == s.p
  }

  lemma {:induction false} DeliverStep(s: System, ok: bool)
    requires Enabled(s, Deliver(ok))
    ensures Heard(s, ok, Step(s, Deliver(ok)).p)
  {
  }

  lemma {:induction false} ConnectStep(s: System, fd: Option<nat>, ok: bool)
    requires Enabled(s, Connect(fd, ok))
    ensures Connected(s.p, fd, ok, Step(s, Connect(fd, ok)).p)
  {
  }

  lemma {:induction false} RestStep(s: System, e: Event)
    requires Enabled(s, e) && !HandlesData(s, e) && !e.Deliver? && !e.Connect?
    ensures Steps(s, e, Step(s, e).p)
  {
    hide Heard, Connected, Closes, Taken, LoadsAgent, DataOf;
  }

  lemma {:induction false} OneStep(s: System, e: Event)
    requires Enabled(s, e)
    ensures Steps(s, e, Step(s, e).p)
  {
    hide CallFails, ShakesHands, IsWholeChunk, IsHandled, Be32, Step, Closed, Took, Heard, Connected, Closes, Taken,
        LoadsAgent, SameStanding;
    if HandlesData(s, e) {
      DataStep(s, e);
    } else if e.Deliver? {
      DeliverStep(s, e.sendOk);
    } else if e.Connect? {
      ConnectStep(s, e.fd, e.sendOk);
    } else {
      RestStep(s, e);
    }
  }

  // ---- flags

  lemma {:induction false} ControlChanges(s: System, e: Event)
    requires Enabled(s, e)
    ensures Step(s, e).p.control <==>
        e.ControlRestored? || (s.p.control && !e.ControlHangup? && !(e.Connect? && e.fd.None?))
  {
    hide CallFails, ShakesHands, IsWholeChunk, IsHandled, Be32, Step, Taken;
    OneStep(s, e);
  }

  lemma {:induction false} ListeningChanges(s: System, e: Event)
    requires Enabled(s, e)
    ensures Step(s, e).p.listening <==> Hears(s, e, StartListen) || (s.p.listening && !Hears(s, e, EndListen))
  {
    hide CallFails, ShakesHands, IsWholeChunk, IsHandled, Be32, Step, Taken;
    OneStep(s, e);
  }

  lemma {:induction false} HasSocketChanges(s: System, e: Event)
    requires Enabled(s, e)
    ensures Step(s, e).p.hasSocket <==> Hears(s, e, Accepted) || (s.p.hasSocket && !Hears(s, e, Closing))
  {
    hide CallFails, ShakesHands, IsWholeChunk, IsHandled, Be32, Step, Taken;
    OneStep(s, e);
  }

  lemma {:induction false} SentFdsChanges(s: System, e: Event)
    requires Enabled(s, e)
    ensures Step(s, e).p.sentFds <==> (Offers(s, e) && SendOk(e)) || (s.p.sentFds && !Hears(s, e, Accepted))
  {
    hide CallFails, ShakesHands, IsWholeChunk, IsHandled, Be32, Step, Taken;
    OneStep(s, e);
  }

  lemma {:induction false} LoadedChanges(s: System, e: Event)
    requires Enabled(s, e)
    ensures Step(s, e).p.loaded <==> s.p.loaded || LoadsAgent(s, e)
  {
    hide CallFails, ShakesHands, IsWholeChunk, IsHandled, Be32, Step, Taken;
    OneStep(s, e);
  }

  lemma {:induction false} HandshakeChanges(s: System, e: Event)
    requires Enabled(s, e)
    ensures Step(s, e).p.performedHandshake <==>
        (s.p.performedHandshake || HandlesData(s, e)) && !Closes(s, e) && !Hears(s, e, Accepted)
  {
    hide CallFails, ShakesHands, IsWholeChunk, IsHandled, Be32, Step, Taken;
    OneStep(s, e);
  }

  /** DDMS is told of a chunk that is handled, and of the end of a connection that never reached the agent. */
  lemma {:induction false} NotifiedChanges(s: System, e: Event)
    requires Enabled(s, e)
    ensures Step(s, e).p.notified <==>
        if Closes(s, e) then s.p.notified && s.p.loaded
        else s.p.notified || (s.p.performedHandshake && IsHandled(Taken(s, e)))
  {
    hide CallFails, ShakesHands, IsWholeChunk, Be32, Step, IsHandled;
    NothingIsHandled();
    OneStep(s, e);
  }

  // ---- the connection and what is handed over

  lemma {:induction false} SocketChanges(s: System, e: Event)
    requires Enabled(s, e)
    ensures Step(s, e).p.socket ==
        if Closes(s, e) then None
        else if e.Connect? && e.fd.Some? then Some(Conn(e.fd.value, []))
        else if s.p.socket.None? then None
        else Some(Conn(s.p.socket.value.id, s.p.socket.value.consumed + Taken(s, e)))
  {
    hide CallFails, ShakesHands, IsWholeChunk, IsHandled, Be32, Step;
    OneStep(s, e);
    if s.p.socket.Some? {
      assert s.p.socket.value.consumed + [] == s.p.socket.value.consumed;
    }
  }

  /** What is handed over is the connection as it stands, and the agent is told to skip the handshake only
      when it begins to listen after the plugin has shaken hands. */
  lemma {:induction false} HandedChanges(s: System, e: Event)
    requires Enabled(s, e)
    ensures if Offers(s, e) && SendOk(e) then
          var c := Step(s, e).p.socket;
          && c.Some?
          && Step(s, e).handed
              == s.handed + [Handover(c.value.id, e.Deliver? && s.p.performedHandshake, c.value.consumed)]
        else Step(s, e).handed == s.handed
  {
    hide DataOf, CallFails, ShakesHands, IsWholeChunk, IsHandled, Be32, Closes, Taken, LoadsAgent;
    if HandlesData(s, e) {
      hide Step;
      DataStep(s, e);
    }
  }

  // ---- what follows for whole runs

  /** The plugin's own handshake is forgotten once the agent has the socket, and DDMS is held active only
      while there is a connection or an agent. */
  ghost predicate Tidy(p: Plugin) {
    && (p.hasSocket ==> !p.performedHandshake)
    && (p.notified ==> p.loaded || p.socket.Some?)
    && (p.performedHandshake ==> p.socket.Some?)
  }

  lemma {:induction false} StepIsTidy(s: System, e: Event)
    requires Inv(s) && Tidy(s.p) && Enabled(s, e)
    ensures Tidy(Step(s, e).p)
  {
    hide Inv, Step, CallFails, ShakesHands, IsWholeChunk, IsHandled, Offers;
    HandshakeChanges(s, e);
    NotifiedChanges(s, e);
    SocketChanges(s, e);
    LoadedChanges(s, e);
    HasSocketChanges(s, e);
  }

  lemma {:induction false} RunsAreTidy(states: seq<System>, events: seq<Event>, i: nat)
    requires IsRun(states, events) && i < |states|
    ensures Tidy(states[i].p)
  {
    hide Inv, Step, Enabled;
    if i > 0 {
      RunsAreTidy(states, events, i - 1);
      RunsAreSafe(states, events, i - 1);
      StepIsTidy(states[i - 1], events[i - 1]);
    }
  }
}
