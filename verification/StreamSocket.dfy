/**
 One end of one stream: what a local socket does with a packet from the transport and with an
 event on its descriptor, as functions of the socket's state. Operating-system choices (how many
 bytes a write accepts, whether it fails, what a read returns) are arguments.
 */
module StreamSocket {
  import opened ByteSeqs

  const MAX_PAYLOAD: nat := 4096

  datatype Command = OPEN | OKAY | WRTE | CLSE

  /** arg0 is the id of the sender's socket, arg1 the id of the receiver's; 0 means "none". */
  datatype Packet = Packet(command: Command, arg0: nat, arg1: nat, data: Bytes)

  datatype Phase = Live | Closing | Dead

  /** Why a socket left the live list: never did, its peer's CLSE, or anything on its own side. */
  datatype Cause = Never | ByPeer | BySelf

  /**
   peer, read, write, queue and phase are the socket's own fields (peer is the peer's id, read and
   write its FDE_READ and FDE_WRITE interest). The rest is history: mate is the first peer ever
   connected, got the bytes read from the descriptor while live, put the bytes written to it, and
   fault says that the socket was closed while it still had bytes to write.
   */
  datatype Sock = Sock(
    peer: nat, read: bool, write: bool, queue: seq<Bytes>, phase: Phase,
    mate: nat, got: Bytes, put: Bytes, cause: Cause, fault: bool)

  datatype Effect = Effect(sock: Sock, sends: seq<Packet>)

  /** A local socket waiting for the answer to its OPEN. */
  const FRESH := Sock(0, false, false, [], Live, 0, [], [], Never, false)

  /** A service socket created for an OPEN from socket rid: connected and ready to read. */
  function Accepted(rid: nat): Sock
  {
    FRESH.(peer := rid, mate := rid, read := true)
  }

  /** Closing tells the peer first; a socket with queued packets lingers until they are written. */
  function CloseLocked(id: nat, s: Sock, why: Cause): Effect
  {
    var sends := if s.peer != 0 then [Packet(CLSE, id, s.peer, [])] else [];
    var cause := if s.cause.Never? then why else s.cause;
    if s.phase.Closing? || s.queue == [] then
      Effect(s.(phase := Dead, peer := 0, read := false, write := false, queue := [],
                cause := cause, fault := s.fault || s.queue != []), sends)
    else
      Effect(s.(phase := Closing, peer := 0, read := false, cause := cause), sends)
  }

  datatype Event =
    | Writable(n: nat, fail: bool)         // writes accept n bytes, then fail or would block
    | Readable(chunk: Bytes, eof: bool)    // reads yield chunk, then end of file or would block
    | Abort(notify: bool)                  // closed from outside; notify: the peer gets a CLSE

  /**
   Which events can be dispatched. A READ event already pending when a socket starts closing is
   still delivered, so a closing socket may see one although its READ interest is off.
   */
  predicate Enabled(s: Sock, ev: Event)
  {
    match ev
    case Writable(n, _) => s.write && n <= |Concat(s.queue)|
    case Readable(chunk, _) =>
      |chunk| <= MAX_PAYLOAD && ((s.phase.Live? && s.read) || s.phase.Closing?)
    case Abort(_) => s.phase.Live?
  }

  function OnEvent(id: nat, s: Sock, ev: Event): Effect
    requires Enabled(s, ev)
  {
    match ev
    case Writable(n, fail) =>
      var s' := s.(put := s.put + Concat(s.queue)[..n], queue := DropBytes(s.queue, n));
      if n == |Concat(s.queue)| then
        if s.phase.Closing? then CloseLocked(id, s', BySelf)
        else Effect(s'.(write := false), [Packet(OKAY, id, s.peer, [])])
      else if fail then CloseLocked(id, s', BySelf)
      else Effect(s', [])
    case Readable(chunk, eof) =>
      if s.phase.Closing? then
        if eof then CloseLocked(id, s, BySelf) else Effect(s, [])
      else
        var sent := chunk != [] && s.peer != 0;
        var s' := s.(got := s.got + chunk, read := !sent);
        var sends := if sent then [Packet(WRTE, id, s.peer, chunk)] else [];
        if eof then
          var c := CloseLocked(id, s', BySelf);
          Effect(c.sock, sends + c.sends)
        else Effect(s', sends)
    case Abort(notify) =>
      CloseLocked(id, if notify then s else s.(peer := 0), BySelf)
  }

  /** Delivery of a payload: queue behind a backlog, else write at once and keep the rest. */
  function Enqueue(id: nat, s: Sock, data: Bytes, n: nat, fail: bool): Effect
    requires n <= |data|
  {
    if s.queue != [] then
      Effect(s.(queue := s.queue + [data], write := true), [])
    else
      var s' := s.(put := s.put + data[..n]);
      if n == |data| then Effect(s', [Packet(OKAY, id, s.peer, [])])
      else if fail then CloseLocked(id, s'.(fault := true), BySelf)
      else Effect(s'.(queue := [data[n..]], write := true), [])
  }

  /** What the socket with the packet's arg1 as id does with the packet. */
  function OnPacket(id: nat, s: Sock, p: Packet, n: nat, fail: bool): Effect
    requires n <= |p.data|
  {
    if !s.phase.Live? then Effect(s, [])
    else match p.command
      case OPEN => Effect(s, [])
      case OKAY =>
        if p.arg0 == 0 then Effect(s, [])
        else if s.peer == 0 then Effect(s.(peer := p.arg0, mate := p.arg0, read := true), [])
        else if s.peer == p.arg0 then Effect(s.(read := true), [])
        else Effect(s, [])
      case CLSE =>
        if p.arg0 == 0 || s.peer == p.arg0 then CloseLocked(id, s, ByPeer) else Effect(s, [])
      case WRTE =>
        if p.arg0 != 0 && s.peer == p.arg0 then Enqueue(id, s, p.data, n, fail) else Effect(s, [])
  }
}
