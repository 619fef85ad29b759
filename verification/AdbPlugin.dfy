/**
 The connection state of the adb plugin and what each wake-up of its poll loop does to it.
 Preconditions are the checks that the plugin makes of itself; system calls report their outcome
 through parameters.
 */
module AdbPlugin {
  import opened Leb128

  /** A debugger connection and the bytes this side has taken from it. */
  datatype Conn = Conn(id: nat, consumed: seq<byte>)

  /** What is passed on to the agent with the file descriptors. */
  datatype Handover = Handover(id: nat, skipHandshake: bool, consumed: seq<byte>)

  datatype Msg = StartListen | EndListen | Closing | Accepted | Unknown

  /** Outcomes of the system calls that one wake-up may make. */
  datatype Io = Io(ioctlOk: bool, peekOk: bool, recvOk: bool, sendOk: bool, attachOk: bool)

  datatype Plugin = Plugin(control: bool, socket: Option<Conn>, loaded: bool, listening: bool, hasSocket: bool,
                           sentFds: bool, performedHandshake: bool, notified: bool)

  const HANDSHAKE: seq<byte> := [0x4a, 0x44, 0x57, 0x50, 0x2d, 0x48, 0x61, 0x6e, 0x64, 0x73, 0x68, 0x61, 0x6b, 0x65]
  const PACKET_HEADER := 11
  const DDM_COMMAND_SET: byte := 199
  const DDM_CHUNK_COMMAND: byte := 1

  /** A number in network byte order. */
  function Be32(s: seq<byte>): nat
    requires |s| == 4
  {
    LeValue([s[3], s[2], s[1], s[0]])
  }

  lemma {:induction false} BeValue(s: seq<byte>)
    requires |s| == 4
    ensures Be32(s) == ((s[0] as int * 0x100 + s[1]) * 0x100 + s[2]) * 0x100 + s[3]
  {
    FourDigits([s[3], s[2], s[1], s[0]]);
  }

  lemma {:induction false} FourDigits(s: seq<byte>)
    requires |s| == 4
    ensures LeValue(s) == ((s[3] as int * 0x100 + s[2]) * 0x100 + s[1]) * 0x100 + s[0]
  {
    var a, b, c := s[1..], s[2..], s[3..];
    assert a[1..] == b && b[1..] == c && c[1..] == [];
    assert LeValue(c) == s[3] && LeValue(b) == s[2] + 0x100 * LeValue(c) && LeValue(a) == s[1] + 0x100 * LeValue(b);
  }

  lemma {:induction false} HandshakeText()
    ensures |HANDSHAKE| == |"JDWP-Handshake"|
    ensures forall i :: 0 <= i < |HANDSHAKE| ==> HANDSHAKE[i] == "JDWP-Handshake"[i] as int
  {
    assert forall i :: 0 <= i < 14 ==>
        i in {0, 1, 2, 3, 4, 5, 6, 7, 8, 9, 10, 11, 12, 13} && HANDSHAKE[i] == "JDWP-Handshake"[i] as int;
  }

  // ---- effects on the state

  function CloseOf(p: Plugin): Plugin {
    p.(socket := None, performedHandshake := false, notified := p.notified && p.loaded)
  }

  function SendOf(p: Plugin, ok: bool): Plugin {
    if ok then p.(sentFds := true) else p
  }

  function Offer(p: Plugin, requireHandshake: bool): Handover
    requires p.socket.Some?
  {
    Handover(p.socket.value.id, !requireHandshake, p.socket.value.consumed)
  }

  function Take(p: Plugin, bytes: seq<byte>): Plugin
    requires p.socket.Some?
  {
    p.(socket := Some(p.socket.value.(consumed := p.socket.value.consumed + bytes)))
  }

  /** The state after an agent message and the handover, if one was sent. */
  function AgentMessageOf(p: Plugin, m: Msg, ok: bool): (Plugin, Option<Handover>) {
    match m
    case StartListen =>
      var now := p.(listening := true);
      if p.socket.Some? then (SendOf(now, ok), if ok then Some(Offer(p, !p.performedHandshake)) else None)
          else (now, None)
    case EndListen => (p.(listening := false), None)
    case Closing => (CloseOf(p).(hasSocket := false), None)
    case Accepted => (p.(hasSocket := true, sentFds := false, performedHandshake := false), None)
    case Unknown => (p, None)
  }

  function NewConnectionOf(p: Plugin, fd: Option<nat>, ok: bool): (Plugin, Option<Handover>) {
    match fd
    case None => (p.(control := false), None)
    case Some(id) =>
      if p.socket.Some? then (p, None)
      else
        var now := p.(socket := Some(Conn(id, [])));
        if p.loaded && p.listening then (SendOf(now, ok), if ok then Some(Offer(now, true)) else None) else (now, None)
  }

  function HandshakeOf(p: Plugin, input: seq<byte>, io: Io): Plugin
    requires p.socket.Some?
  {
    if !io.ioctlOk || |input| < |HANDSHAKE| || !io.recvOk || input[..|HANDSHAKE|] != HANDSHAKE || !io.sendOk
        then CloseOf(p)
    else Take(p, HANDSHAKE).(performedHandshake := true)
  }

  function AttachOf(p: Plugin, io: Io): Plugin {
    if io.attachOk then p.(loaded := true) else p
  }

  /** The input starts like a DDM chunk: command 1 of command set 199, and no shorter than its header. */
  predicate BeginsChunk(input: seq<byte>) {
    |input| >= 11 && input[9] == 199 && input[10] == 1 && Be32(input[..4]) >= 11
  }

  /** It is there in full. */
  predicate IsWholeChunk(input: seq<byte>) {
    BeginsChunk(input) && Be32(input[..4]) <= |input|
  }

  /** Some system call that the input leads to fails. */
  predicate CallFails(input: seq<byte>, io: Io) {
    || !io.peekOk
    || (BeginsChunk(input) && !io.ioctlOk)
    || (IsWholeChunk(input) && !io.recvOk)
  }

  /** The input begins with the handshake and it can be answered. */
  predicate ShakesHands(input: seq<byte>, io: Io) {
    io.ioctlOk && io.recvOk && io.sendOk && HANDSHAKE <= input
  }

  /** The chunk's own length field fits its packet, so it is handled rather than ignored. */
  predicate IsHandled(packet: seq<byte>) {
    |packet| >= PACKET_HEADER + 8 && Be32(packet[15..19]) <= |packet| - PACKET_HEADER - 8
  }

  /** A chunk is handled exactly when a type, the length of its data and that much data follow the header. */
  lemma {:induction false} HandledIff(packet: seq<byte>)
    ensures IsHandled(packet) <==>
        |packet| >= 19 && exists n: nat :: n < 0x1_0000_0000 && packet[15..19] == BeBytes(n) && n <= |packet| - 19
  {
    hide BeBytes, Be32;
    if |packet| >= 19 {
      var s := packet[15..19];
      BeDigits(s);
      forall n: nat | n < 0x1_0000_0000 && s == BeBytes(n)
        ensures n == Be32(s)
      {
        BeRoundTrip(n);
      }
    }
  }

  lemma {:induction false} BeDigits(s: seq<byte>)
    requires |s| == 4
    ensures Be32(s) < 0x1_0000_0000 && BeBytes(Be32(s)) == s
  {
    hide LeBytes, LeValue;
    var le := [s[3], s[2], s[1], s[0]];
    LeDigits(le);
    assert Pow8(4) == 0x1_0000_0000;
  }

  function ChunkOf(p: Plugin, packet: seq<byte>): Plugin
    requires p.socket.Some?
  {
    Take(p, packet).(notified := p.notified || IsHandled(packet))
  }

  function DataOf(p: Plugin, input: seq<byte>, io: Io): Plugin
    requires p.socket.Some?
  {
    if !p.performedHandshake then HandshakeOf(p, input, io)
    else if !io.peekOk || input == [] then CloseOf(p)
    else if |input| < PACKET_HEADER || input[9] != DDM_COMMAND_SET || input[10] != DDM_CHUNK_COMMAND
            || Be32(input[..4]) < PACKET_HEADER then AttachOf(p, io)
    else if !io.ioctlOk then CloseOf(p)
    else if |input| < Be32(input[..4]) then AttachOf(p, io)
    else if !io.recvOk then CloseOf(p)
    else ChunkOf(p, input[..Be32(input[..4])])
  }

  function AdbDataOf(p: Plugin, input: seq<byte>, io: Io): (Plugin, Option<Handover>)
    requires p.socket.Some?
  {
    if !p.loaded then (DataOf(p, input, io), None)
    else if p.listening && !p.sentFds then (SendOf(p, io.sendOk), if io.sendOk then Some(Offer(p, true)) else None)
    else (p, None)
  }

  // ---- packets sent by the plugin

  function BeBytes(v: nat): (s: seq<byte>)
    ensures |s| == 4
  {
    var le := LeBytes(v, 4);
    [le[3], le[2], le[1], le[0]]
  }

  lemma {:induction false} BeRoundTrip(v: nat)
    requires v < 0x1_0000_0000
    ensures Be32(BeBytes(v)) == v
  {
    hide LeBytes, LeValue;
    WordRoundTrip(v);
    var le, be := LeBytes(v, 4), BeBytes(v);
    assert [be[3], be[2], be[1], be[0]] == le;
  }

  /** A DDM chunk as a command or as a reply to one. */
  function DdmPacket(id: uint32, reply: bool, chunkType: uint32, data: seq<byte>): seq<byte> {
    BeBytes(PACKET_HEADER + 8 + |data|) + BeBytes(id)
    + (if reply then [0x80, 0, 0] else [0, DDM_COMMAND_SET, DDM_CHUNK_COMMAND])
    + BeBytes(chunkType) + BeBytes(|data|) + data
  }

  /** The length field covers the packet exactly, and a command, followed by anything, is one that this
      kind of reader takes whole and handles. */
  lemma {:induction false} PacketIsWhole(id: uint32, reply: bool, chunkType: uint32, data: seq<byte>, suffix: seq<byte>)
    requires PACKET_HEADER + 8 + |data| < 0x1_0000_0000
    ensures var packet := DdmPacket(id, reply, chunkType, data);
            && Be32(packet[..4]) == |packet| && IsHandled(packet)
            && (!reply ==> IsWholeChunk(packet + suffix))
  {
    hide Be32, BeBytes;
    var packet := DdmPacket(id, reply, chunkType, data);
    BeRoundTrip(PACKET_HEADER + 8 + |data|);
    BeRoundTrip(|data|);
    assert packet[..4] == BeBytes(PACKET_HEADER + 8 + |data|) == (packet + suffix)[..4];
    assert packet[15..19] == BeBytes(|data|);
  }

  /** The fields of a packet are found at their places. */
  lemma {:induction false} PacketParts(id: uint32, reply: bool, chunkType: uint32, data: seq<byte>)
    requires PACKET_HEADER + 8 + |data| < 0x1_0000_0000
    ensures var packet := DdmPacket(id, reply, chunkType, data);
            && |packet| == 19 + |data| && Be32(packet[4..8]) == id
            && (if reply then packet[8..11] == [0x80, 0, 0] else packet[8..11] == [0, 199, 1])
            && Be32(packet[11..15]) == chunkType && Be32(packet[15..19]) == |data| && packet[19..] == data
  {
    hide Be32, BeBytes;
    var packet := DdmPacket(id, reply, chunkType, data);
    BeRoundTrip(id);
    BeRoundTrip(chunkType);
    BeRoundTrip(|data|);
    assert packet[4..8] == BeBytes(id) && packet[11..15] == BeBytes(chunkType) && packet[15..19] == BeBytes(|data|);
  }

  // ---- one wake-up

  /** What poll reports, for the descriptors it was given. */
  datatype Poll = Poll(agent: Option<Msg>, controlIn: Option<Option<nat>>, controlHup: bool, adbIn: Option<seq<byte>>,
      adbHup: bool)

  /** The agent is polled once it is loaded, adbd while there is no connection, and the connection until
      it has been offered to the agent. */
  predicate Polled(p: Plugin, poll: Poll) {
    && (poll.agent.Some? ==> p.loaded)
    && (poll.controlIn.Some? || poll.controlHup ==> p.socket.None?)
    && (poll.adbIn.Some? || poll.adbHup ==> p.socket.Some? && !p.hasSocket && !p.sentFds)
  }

  /** What has to hold for the plugin's own checks to pass on any wake-up. */
  predicate Consistent(p: Plugin) {
    (p.sentFds || p.hasSocket ==> p.socket.Some?) && (!p.loaded ==> !p.listening)
  }

  /** Only the first of the ready descriptors is served. */
  function WakeOf(p: Plugin, poll: Poll, io: Io): (Plugin, Option<Handover>)
    requires Polled(p, poll)
  {
    if poll.agent.Some? then AgentMessageOf(p, poll.agent.value, io.sendOk)
    else if poll.controlIn.Some? then NewConnectionOf(p, poll.controlIn.value, io.sendOk)
    else if poll.controlHup then (p.(control := false), None)
    else if poll.adbIn.Some? then AdbDataOf(p, poll.adbIn.value, io)
    else if poll.adbHup then (CloseOf(p), None)
    else (p, None)
  }

  // ---- the plugin itself

  class AdbConnection {
    var control: bool
    var socket: Option<Conn>
    var loaded: bool
    var listening: bool
    var hasSocket: bool
    var sentFds: bool
    var performedHandshake: bool
    var notified: bool

    ghost function View(): Plugin
      reads this
    {
      Plugin(control, socket, loaded, listening, hasSocket, sentFds, performedHandshake, notified)
    }

    constructor ()
      ensures View() == Plugin(false, None, false, false, false, false, false, false)
    {
      control, socket := false, None;
      loaded, listening, hasSocket, sentFds, performedHandshake, notified := false, false, false, false, false, false;
    }

    method NotifyDdms(active: bool)
      requires notified != active
      modifies `notified
      ensures notified == active
    {
      notified := active;
    }

    method CloseFds()
      modifies `socket, `performedHandshake, `notified
      ensures View() == CloseOf(old(View()))
    {
      socket := None;
      performedHandshake := false;
      if !loaded && notified {
        NotifyDdms(false);
      }
    }

    method SendAgentFds(requireHandshake: bool, sendOk: bool) returns (handover: Option<Handover>)
      requires !sentFds && socket.Some?
      modifies `sentFds
      ensures View() == SendOf(old(View()), sendOk)
      ensures handover == if sendOk then Some(Offer(View(), requireHandshake)) else None
    {
      handover := None;
      if sendOk {
        sentFds := true;
        handover := Some(Handover(socket.value.id, !requireHandshake, socket.value.consumed));
      }
    }

    /** The agent's control socket is readable. */
    method OnAgentMessage(m: Msg, sendOk: bool) returns (handover: Option<Handover>)
      requires loaded && (m.StartListen? && socket.Some? ==> !sentFds)
      modifies this
      ensures (View(), handover) == AgentMessageOf(old(View()), m, sendOk)
    {
      handover := None;
      match m {
        case StartListen =>
          listening := true;
          if socket.Some? {
            handover := SendAgentFds(!performedHandshake, sendOk);
          }
        case EndListen =>
          listening := false;
        case Closing =>
          CloseFds();
          hasSocket := false;
        case Accepted =>
          hasSocket := true;
          sentFds := false;
          performedHandshake := false;
        case Unknown =>
      }
    }

    /** adbd passes on a connection, or fails to. */
    method OnNewConnection(fd: Option<nat>, sendOk: bool) returns (handover: Option<Handover>)
      requires control && (fd.Some? && socket.None? && loaded && listening ==> !sentFds)
      modifies this
      ensures (View(), handover) == NewConnectionOf(old(View()), fd, sendOk)
    {
      handover := None;
      match fd {
        case None =>
          control := false;
        case Some(id) =>
          var maybeSendFds := false;
          if socket.None? {
            socket := Some(Conn(id, []));
            maybeSendFds := true;
          }
          if maybeSendFds && loaded && listening {
            handover := SendAgentFds(true, sendOk);
          }
      }
    }

    method OnControlHangup()
      requires !hasSocket
      modifies `control
      ensures View() == old(View()).(control := false)
    {
      control := false;
    }

    method PerformHandshake(input: seq<byte>, io: Io)
      requires !performedHandshake && socket.Some?
      modifies this
      ensures View() == HandshakeOf(old(View()), input, io)
      ensures ShakesHands(input, io) ==>
          && performedHandshake && notified == old(notified)
          && socket == Some(Conn(old(socket.value.id), old(socket.value.consumed) + HANDSHAKE))
      ensures !ShakesHands(input, io) ==> socket == None && !performedHandshake && notified == old(notified && loaded)
    {
      if !io.ioctlOk || |input| < |HANDSHAKE| {
        CloseFds();
        return;
      }
      if !io.recvOk || input[..|HANDSHAKE|] != HANDSHAKE {
        CloseFds();
        return;
      }
      socket := Some(socket.value.(consumed := socket.value.consumed + input[..|HANDSHAKE|]));
      if !io.sendOk {
        CloseFds();
        return;
      }
      performedHandshake := true;
    }

    method AttachJdwpAgent(io: Io)
      modifies `loaded
      ensures View() == AttachOf(old(View()), io)
    {
      if io.attachOk {
        loaded := true;
      }
    }

    /** Handles the handshake and DDM chunks; anything else loads the agent and stays unread. */
    method HandleDataWithoutAgent(input: seq<byte>, io: Io)
      requires !loaded && !listening && socket.Some?
      modifies this
      ensures View() == DataOf(old(View()), input, io)
      ensures control == old(control) && !listening && hasSocket == old(hasSocket) && sentFds == old(sentFds)
      ensures socket.None? <==>
          if old(performedHandshake) then CallFails(input, io) || input == [] else !ShakesHands(input, io)
      ensures socket.None? ==> !performedHandshake && !notified && !loaded
      ensures socket.Some? ==> performedHandshake && socket.value.id == old(socket.value.id)
      ensures socket.Some? && !old(performedHandshake) ==>
          !loaded && notified == old(notified) && socket.value.consumed == old(socket.value.consumed) + HANDSHAKE
      ensures socket.Some? && old(performedHandshake) && IsWholeChunk(input) ==>
          var packet := input[..Be32(input[..4])];
          && !loaded && socket.value.consumed == old(socket.value.consumed) + packet
          && notified == (old(notified) || IsHandled(packet))
      ensures socket.Some? && old(performedHandshake) && !IsWholeChunk(input) ==>
          loaded == io.attachOk && socket == old(socket) && notified == old(notified)
    {
      if !performedHandshake {
        PerformHandshake(input, io);
        return;
      }
      if !io.peekOk || input == [] {
        CloseFds();
        return;
      } else if |input| < PACKET_HEADER {
        AttachJdwpAgent(io);
        return;
      }
      var fullLength := Be32(input[..4]);
      if input[9] != DDM_COMMAND_SET || input[10] != DDM_CHUNK_COMMAND || fullLength < PACKET_HEADER {
        AttachJdwpAgent(io);
        return;
      }
      if !io.ioctlOk {
        CloseFds();
        return;
      } else if |input| < fullLength {
        AttachJdwpAgent(io);
        return;
      }
      if !io.recvOk {
        CloseFds();
        return;
      }
      var packet := input[..fullLength];
      socket := Some(socket.value.(consumed := socket.value.consumed + packet));
      if fullLength - PACKET_HEADER < 8 {
        return;
      }
      if Be32(packet[15..19]) > fullLength - PACKET_HEADER - 8 {
        return;
      }
      if !notified {
        NotifyDdms(true);
      }
    }

    /** The debugger connection is readable. */
    method OnAdbData(input: seq<byte>, io: Io) returns (handover: Option<Handover>)
      requires !hasSocket && socket.Some? && (!loaded ==> !listening)
      modifies this
      ensures (View(), handover) == AdbDataOf(old(View()), input, io)
    {
      handover := None;
      if !loaded {
        HandleDataWithoutAgent(input, io);
      } else if listening && !sentFds {
        handover := SendAgentFds(true, io.sendOk);
      }
    }

    method OnAdbHangup()
      requires !hasSocket
      modifies this
      ensures View() == CloseOf(old(View()))
    {
      CloseFds();
    }

    /** The connection to adbd is made anew. */
    method SetupAdbConnection()
      requires !control
      modifies `control
      ensures View() == old(View()).(control := true)
    {
      control := true;
    }

    /** The body of the poll loop. */
    method PollOnce(poll: Poll, io: Io) returns (handover: Option<Handover>)
      requires control && Consistent(View()) && Polled(View(), poll)
      requires poll.agent == Some(StartListen) && socket.Some? ==> !sentFds
      modifies this
      ensures (View(), handover) == WakeOf(old(View()), poll, io)
    {
      handover := None;
      if poll.agent.Some? {
        handover := OnAgentMessage(poll.agent.value, io.sendOk);
      } else if poll.controlIn.Some? {
        handover := OnNewConnection(poll.controlIn.value, io.sendOk);
      } else if poll.controlHup {
        OnControlHangup();
      } else if poll.adbIn.Some? {
        handover := OnAdbData(poll.adbIn.value, io);
      } else if poll.adbHup {
        OnAdbHangup();
      }
    }
  }
}
