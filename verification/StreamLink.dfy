/**
 Two adb processes joined by a transport. Whatever happens to their descriptors, and in whatever
 order the packets are handled, what the two socket tables go through is a run of StreamWorld, so
 all that is proved of runs holds of the processes.
 */
module StreamLink {
  import opened ByteSeqs
  import opened StreamSocket
  import opened StreamWorld
  import opened StreamTheorems
  import opened StreamTraces
  import opened SocketIo
  import opened SocketTable

  /** What can happen to a process. A socket that the input names may be long gone. */
  datatype Input =
    | Opens(destination: Bytes)                            // a client asks for a service on the other side
    | CanRead(id: nat, offers: seq<ReadResult>)
    | CanWrite(id: nat, accepts: seq<WriteResult>)
    | Closes(id: nat, notify: bool)
    | Arrives(service: bool, accepts: seq<WriteResult>)    // the next packet from the transport

  /** Every far socket is a remote one on transport t. */
  ghost predicate OneLink(g: Tables, t: nat)
  {
    forall f :: f in g.fars ==> g.fars[f].id != 0 && g.fars[f].transport == t
  }

  /** What was handed to transport t. */
  function Packets(outs: seq<Out>, t: nat): seq<Packet>
  {
    if outs == [] then []
    else (if outs[0].transport == t then [outs[0].packet] else []) + Packets(outs[1..], t)
  }

  lemma {:induction false} PacketsTagged(t: nat, sends: seq<Packet>)
    ensures Packets(Tagged(t, sends), t) == sends
  {
    if sends != [] {
      assert Tagged(t, sends)[1..] == Tagged(t, sends[1..]);
      PacketsTagged(t, sends[1..]);
    }
  }

  lemma PacketsSince(before: seq<Out>, t: nat, sends: seq<Packet>)
    ensures Packets((before + Tagged(t, sends))[|before|..], t) == sends
  {
    assert (before + Tagged(t, sends))[|before|..] == Tagged(t, sends);
    PacketsTagged(t, sends);
  }

  /** The packets of an event all go to the peer, if there is one. */
  lemma NoPeerNoPackets(k: nat, s: Sock, ev: Event)
    requires Enabled(s, ev) && !s.phase.Dead? && s.peer == 0 && (s.phase.Live? ==> !s.write)
    ensures OnEvent(k, s, ev).sends == []
  {
  }

  /** A client's socket, with the smart socket that is to read its request. */
  method Client(p: Adb) returns (f: nat)
    requires p.Valid()
    modifies p`g, p`view
    ensures p.Valid() && p.view == old(p.view) + [FRESH.(read := true)]
    ensures f in p.g.fars && p.g.fars == old(p.g).fars[f := FarSock(0, |old(p.view)|, 0)]
  {
    ghost var v := p.view;
    var k := p.CreateLocalSocket(0);
    f := p.ConnectSmart(k);
    assert (v + [FRESH])[|v| := FRESH.(read := true)] == v + [FRESH.(read := true)];
  }

  /** A client's socket is created, its request read by the smart socket, and the stream asked for. */
  method Dial(p: Adb, t: nat, destination: Bytes)
    requires p.Valid() && OneLink(p.g, t)
    modifies p
    ensures p.Valid() && OneLink(p.g, t) && p.view == old(p.view) + [FRESH]
    ensures p.sent == old(p.sent) + Tagged(t, [Packet(OPEN, |old(p.view)|, 0, destination)])
  {
    ghost var v := p.view;
    var f := Client(p);
    p.SmartConnect(f, t, destination);
    TaggedOne(t, Packet(OPEN, |v|, 0, destination));
    assert (v + [FRESH.(read := true)])[|v| := FRESH] == v + [FRESH];
  }

  /** The action takes the world to one with this view, these packets more, and this inbox. */
  ghost predicate Does(w: World, act: Action, view: seq<Sock>, out: seq<Packet>, inbox: seq<Packet>)
  {
    Can(w, act) && Do(w, act) == World(view, w.b, w.ab + out, inbox)
  }

  lemma EventDone(w: World, g: Tables, k: nat, ev: Event, t: nat, view: seq<Sock>, before: seq<Out>, sent: seq<Out>)
    requires TablesOk(g, w.a) && OneLink(g, t) && k in g.locals && k < |w.a| && Enabled(w.a[k], ev)
    requires var e := OnEvent(k, w.a[k], ev);
             view == w.a[k := e.sock] && sent == before + Tagged(PeerTransport(g, k), e.sends)
    ensures |before| <= |sent| && Does(w, Local(k, ev), view, Packets(sent[|before|..], t), w.ba)
  {
    LocalKnown(g, w.a, k);
    if w.a[k].peer == 0 {
      NoPeerNoPackets(k, w.a[k], ev);
    }
    PacketsSince(before, t, OnEvent(k, w.a[k], ev).sends);
  }

  lemma PacketDone(w: World, g: Tables, t: nat, service: bool, n: nat, fail: bool,
                   view: seq<Sock>, before: seq<Out>, sent: seq<Out>)
    requires TablesOk(g, w.a) && OneLink(g, t) && w.ba != [] && n <= |w.ba[0].data|
    requires var h := Handled(g, w.a, w.ba[0], t, service, n, fail); view == h.0 && sent == before + h.1
    ensures |before| <= |sent| && Does(w, Deliver(service, n, fail), view, Packets(sent[|before|..], t), w.ba[1..])
  {
    var p := w.ba[0];
    HandledPlain(g, w.a, p, t, service, n, fail);
    PacketsSince(before, t, Handle(w.a, p, service, n, fail).1);
  }

  // ---- inputs and actions ----

  /** Whether the input means anything to the near machine as it is. */
  predicate Applies(w: World, input: Input)
  {
    match input
    case Opens(_) => true
    case CanRead(id, _) => 0 < id < |w.a| && ((w.a[id].phase.Live? && w.a[id].read) || w.a[id].phase.Closing?)
    case CanWrite(id, _) => 0 < id < |w.a| && !w.a[id].phase.Dead? && w.a[id].write
    case Closes(id, _) => 0 < id < |w.a| && w.a[id].phase.Live?
    case Arrives(_, _) => w.ba != []
  }

  /** The action that the input stands for. */
  function Meant(w: World, input: Input): (act: Action)
    requires Applies(w, input)
    ensures Can(w, act)
  {
    match input
    case Opens(destination) => Connect(destination)
    case CanRead(id, offers) =>
      var (chunk, eof) := ReadAll(MAX_PAYLOAD, offers);
      Local(id, Readable(chunk, eof))
    case CanWrite(id, accepts) =>
      var (n, fail) := DrainAll(w.a[id].queue, accepts);
      Local(id, Writable(n, fail))
    case Closes(id, notify) => Local(id, Abort(notify || w.a[id].peer == 0))
    case Arrives(service, accepts) =>
      var (n, fail) := Written(w.a, w.ba[0], accepts);
      Deliver(service, n, fail)
  }

  /** A socket is in the table exactly while it is not dead. */
  lemma InTable(g: Tables, view: seq<Sock>, k: nat)
    requires TablesOk(g, view)
    ensures k in g.locals <==> k < |view| && !view[k].phase.Dead?
    ensures k in g.locals ==> k != 0
  {
    if k in g.locals {
      LocalKnown(g, view, k);
    }
  }

  // ---- one process reacts ----

  method ReadEvent(p: Adb, t: nat, id: nat, offers: seq<ReadResult>, ghost w: World)
    requires p.Valid() && OneLink(p.g, t) && w.a == p.view && Applies(w, CanRead(id, offers))
    modifies p
    ensures p.Valid() && OneLink(p.g, t) && |old(p.sent)| <= |p.sent|
    ensures Does(w, Meant(w, CanRead(id, offers)), p.view, Packets(p.sent[|old(p.sent)|..], t), w.ba)
  {
    InTable(p.g, p.view, id);
    LocalKnown(p.g, p.view, id);
    ghost var g, sent := p.g, p.sent;
    ghost var chunk, eof;
    chunk, eof := p.OnReadable(id, offers);
    EventDone(w, g, id, Readable(chunk, eof), t, p.view, sent, p.sent);
  }

  method WriteEvent(p: Adb, t: nat, id: nat, accepts: seq<WriteResult>, ghost w: World)
    requires p.Valid() && OneLink(p.g, t) && w.a == p.view && Applies(w, CanWrite(id, accepts))
    modifies p
    ensures p.Valid() && OneLink(p.g, t) && |old(p.sent)| <= |p.sent|
    ensures Does(w, Meant(w, CanWrite(id, accepts)), p.view, Packets(p.sent[|old(p.sent)|..], t), w.ba)
  {
    InTable(p.g, p.view, id);
    LocalKnown(p.g, p.view, id);
    ghost var g, sent := p.g, p.sent;
    ghost var n, fail;
    n, fail := p.OnWritable(id, accepts);
    EventDone(w, g, id, Writable(n, fail), t, p.view, sent, p.sent);
  }

  method CloseEvent(p: Adb, t: nat, id: nat, notify: bool, ghost w: World)
    requires p.Valid() && OneLink(p.g, t) && w.a == p.view && Applies(w, Closes(id, notify))
    modifies p
    ensures p.Valid() && OneLink(p.g, t) && |old(p.sent)| <= |p.sent|
    ensures Does(w, Meant(w, Closes(id, notify)), p.view, Packets(p.sent[|old(p.sent)|..], t), w.ba)
  {
    InTable(p.g, p.view, id);
    LocalKnown(p.g, p.view, id);
    ghost var g, sent := p.g, p.sent;
    if notify || p.g.locals[id].peer == 0 {
      p.CloseSocket(id, BySelf);
      EventDone(w, g, id, Abort(true), t, p.view, sent, p.sent);
    } else {
      p.Detach(p.g.locals[id].peer);
      EventDone(w, g, id, Abort(false), t, p.view, sent, p.sent);
    }
  }

  method PacketEvent(p: Adb, t: nat, service: bool, accepts: seq<WriteResult>, inbox: seq<Packet>, ghost w: World)
    requires p.Valid() && OneLink(p.g, t) && w.a == p.view && w.ba == inbox && inbox != []
    modifies p
    ensures p.Valid() && OneLink(p.g, t) && |old(p.sent)| <= |p.sent|
    ensures Does(w, Meant(w, Arrives(service, accepts)), p.view, Packets(p.sent[|old(p.sent)|..], t), inbox[1..])
  {
    ghost var g, sent := p.g, p.sent;
    ghost var r := Written(p.view, inbox[0], accepts);
    p.HandlePacket(inbox[0], t, true, service, accepts);
    PacketDone(w, g, t, service, r.0, r.1, p.view, sent, p.sent);
  }

  method OpenEvent(p: Adb, t: nat, destination: Bytes, ghost w: World)
    requires p.Valid() && OneLink(p.g, t) && w.a == p.view
    modifies p
    ensures p.Valid() && OneLink(p.g, t) && |old(p.sent)| <= |p.sent|
    ensures Does(w, Connect(destination), p.view, Packets(p.sent[|old(p.sent)|..], t), w.ba)
  {
    ghost var sent := p.sent;
    Dial(p, t, destination);
    PacketsSince(sent, t, [Packet(OPEN, |w.a|, 0, destination)]);
  }

  /** A process reacts to an input as the action of the stream model that is meant, or not at all. */
  method React(p: Adb, t: nat, input: Input, inbox: seq<Packet>, ghost w: World) returns (rest: seq<Packet>)
    requires p.Valid() && OneLink(p.g, t) && w.a == p.view && w.ba == inbox
    modifies p
    ensures p.Valid() && OneLink(p.g, t) && |old(p.sent)| <= |p.sent|
    ensures Applies(w, input) ==> Does(w, Meant(w, input), p.view, Packets(p.sent[|old(p.sent)|..], t), rest)
    ensures !Applies(w, input) ==> unchanged(p) && rest == inbox
  {
    rest := inbox;
    match input {
      case Opens(destination) =>
        OpenEvent(p, t, destination, w);
      case CanRead(id, offers) =>
        InTable(p.g, p.view, id);
        if id in p.g.locals && (p.g.locals[id].read || p.g.locals[id].closing) {
          LocalKnown(p.g, p.view, id);
          ReadEvent(p, t, id, offers, w);
        }
      case CanWrite(id, accepts) =>
        InTable(p.g, p.view, id);
        if id in p.g.locals && p.g.locals[id].write {
          LocalKnown(p.g, p.view, id);
          WriteEvent(p, t, id, accepts, w);
        }
      case Closes(id, notify) =>
        InTable(p.g, p.view, id);
        if id in p.g.locals && !p.g.locals[id].closing {
          LocalKnown(p.g, p.view, id);
          CloseEvent(p, t, id, notify, w);
        }
      case Arrives(service, accepts) =>
        if inbox != [] {
          PacketEvent(p, t, service, accepts, inbox, w);
          rest := inbox[1..];
        }
    }
  }

  // ---- two processes ----

  datatype Turn = Turn(far: bool, input: Input)

  /** What a turn makes of the world. */
  function TurnOf(w: World, turn: Turn): World
  {
    var v := if turn.far then Swap(w) else w;
    if !Applies(v, turn.input) then w
    else if turn.far then Swap(Do(v, Meant(v, turn.input)))
    else Do(v, Meant(v, turn.input))
  }

  function TurnsOf(turns: seq<Turn>): World
  {
    if turns == [] then INITIAL else TurnOf(TurnsOf(turns[..|turns| - 1]), turns[|turns| - 1])
  }

  lemma TurnsSnoc(turns: seq<Turn>, i: nat)
    requires i < |turns|
    ensures TurnsOf(turns[..i + 1]) == TurnOf(TurnsOf(turns[..i]), turns[i])
  {
    assert turns[..i + 1][..i] == turns[..i];
  }

  /** Every sequence of turns is a run of the stream model. */
  lemma {:induction false} TurnsAreRun(turns: seq<Turn>) returns (run: seq<World>, moves: seq<Move>)
    ensures IsTrace(run, moves) && Last(run) == TurnsOf(turns)
  {
    if turns == [] {
      run, moves := [INITIAL], [];
    } else {
      var turn := turns[|turns| - 1];
      run, moves := TurnsAreRun(turns[..|turns| - 1]);
      var w := Last(run);
      var v := if turn.far then Swap(w) else w;
      if Applies(v, turn.input) {
        var m := Move(turn.far, Meant(v, turn.input));
        TraceSnoc(run, moves, m);
        run, moves := run + [After(w, m)], moves + [m];
      }
    }
  }

  /** One process of two reacts: out and inbox are the queues to and from the other. */
  method Take(p: Adb, q: Adb, t: nat, input: Input, out: seq<Packet>, inbox: seq<Packet>)
      returns (out': seq<Packet>, rest: seq<Packet>)
    requires p != q && p.Valid() && OneLink(p.g, t)
    modifies p
    ensures p.Valid() && OneLink(p.g, t)
    ensures World(p.view, q.view, out', rest) == TurnOf(World(old(p.view), q.view, out, inbox), Turn(false, input))
  {
    var n := |p.sent|;
    ghost var w := World(p.view, q.view, out, inbox);
    rest := React(p, t, input, inbox, w);
    out' := out + Packets(p.sent[n..], t);
  }

  method TakeTurn(a: Adb, b: Adb, t: nat, u: nat, turn: Turn, ab: seq<Packet>, ba: seq<Packet>)
      returns (ab': seq<Packet>, ba': seq<Packet>)
    requires a != b && a.Valid() && b.Valid() && OneLink(a.g, t) && OneLink(b.g, u)
    modifies a, b
    ensures a.Valid() && b.Valid() && OneLink(a.g, t) && OneLink(b.g, u)
    ensures World(a.view, b.view, ab', ba') == TurnOf(World(old(a.view), old(b.view), ab, ba), turn)
  {
    if turn.far {
      ba', ab' := Take(b, a, u, turn.input, ba, ab);
    } else {
      ab', ba' := Take(a, b, t, turn.input, ab, ba);
    }
  }

  /** Two processes without sockets, each with one transport to the other, take turns: their views
      and the two queues between them are what the stream model says. */
  method Play(a: Adb, b: Adb, t: nat, u: nat, turns: seq<Turn>) returns (ab: seq<Packet>, ba: seq<Packet>)
    requires a != b && a.Valid() && b.Valid() && OneLink(a.g, t) && OneLink(b.g, u)
    requires a.view == b.view == [NOBODY]
    modifies a, b
    ensures a.Valid() && b.Valid() && World(a.view, b.view, ab, ba) == TurnsOf(turns)
  {
    ab, ba := [], [];
    for i := 0 to |turns|
      invariant a.Valid() && b.Valid() && OneLink(a.g, t) && OneLink(b.g, u)
      invariant World(a.view, b.view, ab, ba) == TurnsOf(turns[..i])
    {
      TurnsSnoc(turns, i);
      ab, ba := TakeTurn(a, b, t, u, turns[i], ab, ba);
    }
    assert turns[..|turns|] == turns;
  }

  /** Two new processes take turns. */
  method Join(t: nat, u: nat, turns: seq<Turn>) returns (a: Adb, b: Adb, ab: seq<Packet>, ba: seq<Packet>)
    ensures fresh(a) && fresh(b) && a.Valid() && b.Valid()
    ensures World(a.view, b.view, ab, ba) == TurnsOf(turns)
  {
    a := new Adb();
    b := new Adb();
    ab, ba := Play(a, b, t, u, turns);
  }
}
