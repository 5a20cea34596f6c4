/**
 Two machines joined by a transport: any number of streams multiplexed over one FIFO of packets in
 each direction. A run is any interleaving of connects, descriptor events and packet deliveries.
 */
module StreamWorld {
  import opened ByteSeqs
  import opened StreamSocket
  import opened StreamPair

  /** Sockets are indexed by id; ids are handed out in order and 0 is not one. */
  datatype World = World(a: seq<Sock>, b: seq<Sock>, ab: seq<Packet>, ba: seq<Packet>)

  const NOBODY := FRESH.(phase := Dead, cause := BySelf)
  const INITIAL := World([NOBODY], [NOBODY], [], [])

  function Swap(w: World): World
  {
    World(w.b, w.a, w.ba, w.ab)
  }

  /** What machine a does next; service, n and fail are the operating system's choices. */
  datatype Action =
    | Connect(destination: Bytes)
    | Local(id: nat, ev: Event)
    | Deliver(service: bool, n: nat, fail: bool)

  /** handle_packet for the stream commands: the sockets afterwards and the packets sent. */
  function Handle(socks: seq<Sock>, p: Packet, service: bool, n: nat, fail: bool): (seq<Sock>, seq<Packet>)
    requires n <= |p.data|
  {
    if p.command.OPEN? then
      if p.arg0 == 0 || p.arg1 != 0 then (socks, [])
      else if service then
        (socks + [Accepted(p.arg0)], [Packet(OKAY, |socks|, p.arg0, [])])
      else (socks, [Packet(CLSE, 0, p.arg0, [])])
    else if 0 < p.arg1 < |socks| then
      var e := OnPacket(p.arg1, socks[p.arg1], p, n, fail);
      (socks[p.arg1 := e.sock], e.sends)
    else (socks, [])
  }

  predicate Can(w: World, act: Action)
  {
    match act
    case Connect(_) => true
    case Local(id, ev) => 0 < id < |w.a| && Enabled(w.a[id], ev)
    case Deliver(_, n, _) => w.ba != [] && n <= |w.ba[0].data|
  }

  function Do(w: World, act: Action): World
    requires Can(w, act)
  {
    match act
    case Connect(destination) =>
      w.(a := w.a + [FRESH], ab := w.ab + [Packet(OPEN, |w.a|, 0, destination)])
    case Local(id, ev) =>
      var e := OnEvent(id, w.a[id], ev);
      w.(a := w.a[id := e.sock], ab := w.ab + e.sends)
    case Deliver(service, n, fail) =>
      var (socks, sends) := Handle(w.a, w.ba[0], service, n, fail);
      w.(a := socks, ab := w.ab + sends, ba := w.ba[1..])
  }

  ghost predicate Step(w: World, w': World)
  {
    || (exists act :: Can(w, act) && w' == Do(w, act))
    || (exists act :: Can(Swap(w), act) && w' == Swap(Do(Swap(w), act)))
  }

  ghost predicate IsRun(run: seq<World>)
  {
    && run != [] && run[0] == INITIAL
    && forall k :: 0 < k < |run| ==> Step(run[k - 1], run[k])
  }

  // ---- one stream's share of a queue ----

  predicate Belongs(p: Packet, i: nat, j: nat)
  {
    !p.command.OPEN? && p.arg0 == i && p.arg1 == j
  }

  function Between(q: seq<Packet>, i: nat, j: nat): seq<Packet>
  {
    if q == [] then []
    else (if Belongs(q[0], i, j) then [q[0]] else []) + Between(q[1..], i, j)
  }

  lemma {:induction false} BetweenAppend(q: seq<Packet>, r: seq<Packet>, i: nat, j: nat)
    ensures Between(q + r, i, j) == Between(q, i, j) + Between(r, i, j)
  {
    if q == [] {
      assert q + r == r;
    } else {
      assert (q + r)[1..] == q[1..] + r;
      BetweenAppend(q[1..], r, i, j);
      Regroup(if Belongs(q[0], i, j) then [q[0]] else [], Between(q[1..], i, j), Between(r, i, j));
    }
  }

  lemma {:induction false} SentHere(q: seq<Packet>, r: seq<Packet>, i: nat, j: nat)
    requires forall k :: 0 <= k < |r| ==> Belongs(r[k], i, j)
    ensures Between(q + r, i, j) == Between(q, i, j) + r
  {
    if r == [] {
      assert q + r == q;
    } else {
      var s := r[..|r| - 1];
      var p := r[|r| - 1];
      SentHere(q, s, i, j);
      assert q + r == (q + s) + [p];
      assert Between([p], i, j) == [p] + Between([p][1..], i, j);
      BetweenAppend(q + s, [p], i, j);
    }
  }

  lemma {:induction false} SentElsewhere(q: seq<Packet>, r: seq<Packet>, i: nat, j: nat)
    requires forall k :: 0 <= k < |r| ==> !Belongs(r[k], i, j)
    ensures Between(q + r, i, j) == Between(q, i, j)
    decreases r
  {
    if r == [] {
      assert q + r == q;
    } else {
      assert q + r == (q + [r[0]]) + r[1..];
      BetweenAppend(q, [r[0]], i, j);
      assert Between([r[0]], i, j) == Between([r[0]][1..], i, j);
      SentElsewhere(q + [r[0]], r[1..], i, j);
    }
  }

  lemma TakenElsewhere(q: seq<Packet>, i: nat, j: nat)
    requires q != [] && !Belongs(q[0], i, j)
    ensures Between(q[1..], i, j) == Between(q, i, j)
  {
    assert [] + Between(q[1..], i, j) == Between(q[1..], i, j);
  }

  lemma TakenHere(q: seq<Packet>, i: nat, j: nat)
    requires q != [] && Belongs(q[0], i, j)
    ensures Between(q, i, j) != [] && Between(q, i, j)[0] == q[0]
    ensures Between(q[1..], i, j) == Between(q, i, j)[1..]
  {
    assert Between(q, i, j) == [q[0]] + Between(q[1..], i, j);
  }

  // ---- the invariant ----

  ghost predicate Mated(w: World, i: nat, j: nat)
  {
    0 < i < |w.a| && 0 < j < |w.b| && (w.a[i].mate == j || w.b[j].mate == i)
  }

  ghost predicate Unclaimed(socks: seq<Sock>, i: nat)
  {
    forall j :: 0 <= j < |socks| ==> socks[j].mate != i
  }

  ghost predicate Opening(q: seq<Packet>, i: nat)
  {
    exists k :: 0 <= k < |q| && q[k].command.OPEN? && q[k].arg0 == i
  }

  /** A packet on its way from a to b is about a stream whose sender knows both ends, opens one, or
      refuses one. */
  ghost predicate PacketOk(w: World, p: Packet)
  {
    if p.command.OPEN? then
      && p.arg1 == 0 && 0 < p.arg0 < |w.a| && w.a[p.arg0].mate == 0 && Unclaimed(w.b, p.arg0)
      && (w.a[p.arg0].phase.Live? || w.a[p.arg0].cause.BySelf?)
    else if p.arg0 == 0 then
      && p.command.CLSE? && 0 < p.arg1 < |w.b| && w.b[p.arg1].mate == 0 && Unclaimed(w.a, p.arg1)
      && !Opening(w.ba, p.arg1)
    else
      0 < p.arg0 < |w.a| && p.arg1 != 0 && w.a[p.arg0].mate == p.arg1
  }

  ghost predicate MatesOk(w: World)
  {
    && (forall i :: 0 <= i < |w.a| && w.a[i].mate != 0 ==>
          w.a[i].mate < |w.b| && (w.b[w.a[i].mate].mate == i || w.b[w.a[i].mate].mate == 0))
    && (forall i, i' :: 0 <= i < i' < |w.a| && w.a[i].mate != 0 ==> w.a[i].mate != w.a[i'].mate)
  }

  ghost predicate OpensOnce(q: seq<Packet>)
  {
    forall k, l :: 0 <= k < l < |q| && q[k].command.OPEN? && q[l].command.OPEN? ==> q[k].arg0 != q[l].arg0
  }

  ghost predicate SideOk(w: World)
  {
    && |w.a| > 0 && w.a[0] == NOBODY
    && (forall i :: 0 <= i < |w.a| ==> SockOk(w.a[i]))
    && MatesOk(w)
    && OpensOnce(w.ab)
    && (forall k :: 0 <= k < |w.ab| ==> PacketOk(w, w.ab[k]))
  }

  ghost predicate StreamOk(w: World, i: nat, j: nat)
    requires i < |w.a| && j < |w.b|
  {
    SInv(w.a[i], w.b[j], Between(w.ab, i, j), Between(w.ba, j, i))
  }

  ghost predicate StreamsOk(w: World)
  {
    forall i, j :: Mated(w, i, j) ==> StreamOk(w, i, j)
  }

  ghost predicate WInv(w: World)
  {
    SideOk(w) && SideOk(Swap(w)) && StreamsOk(w)
  }

  lemma SameStream(w: World, w': World, i: nat, j: nat)
    requires i < |w.a| && j < |w.b| && i < |w'.a| && j < |w'.b|
    requires w'.a[i] == w.a[i] && w'.b[j] == w.b[j]
    requires Between(w'.ab, i, j) == Between(w.ab, i, j) && Between(w'.ba, j, i) == Between(w.ba, j, i)
    ensures StreamOk(w, i, j) ==> StreamOk(w', i, j)
  {
  }

  lemma SwapInv(w: World)
    requires WInv(w)
    ensures WInv(Swap(w))
  {
    assert Swap(Swap(w)) == w;
    forall i, j | Mated(Swap(w), i, j) ensures StreamOk(Swap(w), i, j) {
      assert Mated(w, j, i);
      assert StreamOk(w, j, i);
    }
  }

  // ---- machine a connects ----

  lemma ConnectSide(w: World, to: Bytes)
    requires WInv(w)
    ensures SideOk(Do(w, Connect(to)))
  {
    var w' := Do(w, Connect(to));
    forall k | 0 <= k < |w'.ab| ensures PacketOk(w', w'.ab[k]) {
      if k < |w.ab| {
        assert PacketOk(w, w.ab[k]);
      } else {
        assert MatesOk(Swap(w));
      }
    }
    assert OpensOnce(w'.ab);
  }

  lemma ConnectFarSide(w: World, to: Bytes)
    requires WInv(w)
    ensures SideOk(Swap(Do(w, Connect(to))))
  {
    var w' := Do(w, Connect(to));
    forall k | 0 <= k < |w'.ba| ensures PacketOk(Swap(w'), w'.ba[k]) {
      assert PacketOk(Swap(w), w.ba[k]);
    }
    assert MatesOk(Swap(w'));
  }

  lemma ConnectStream(w: World, to: Bytes, i: nat, j: nat)
    requires Mated(w, i, j) && StreamOk(w, i, j)
    ensures StreamOk(Do(w, Connect(to)), i, j)
  {
    var p := Packet(OPEN, |w.a|, 0, to);
    SentElsewhere(w.ab, [p], i, j);
    assert Do(w, Connect(to)).a[i] == w.a[i];
  }

  lemma ConnectKeeps(w: World, to: Bytes)
    requires WInv(w)
    ensures WInv(Do(w, Connect(to)))
  {
    var w' := Do(w, Connect(to));
    ConnectSide(w, to);
    ConnectFarSide(w, to);
    forall i: nat, j: nat | Mated(w', i, j) ensures StreamOk(w', i, j) {
      assert MatesOk(Swap(w));
      assert Mated(w, i, j);
      ConnectStream(w, to, i, j);
    }
  }

  // ---- an event on a descriptor of machine a ----

  /** An event changes no connection, and whatever is sent belongs to the socket's own stream. */
  lemma EventFrame(i: nat, s: Sock, ev: Event)
    requires SockOk(s) && Enabled(s, ev)
    ensures var e := OnEvent(i, s, ev);
            && e.sock.mate == s.mate && SockOk(e.sock)
            && (e.sock.phase.Live? ==> s.phase.Live?)
            && (e.sock.cause.ByPeer? ==> s.cause.ByPeer?)
            && (forall k :: 0 <= k < |e.sends| ==> s.mate != 0 && Belongs(e.sends[k], i, s.mate))
  {
    match ev {
      case Writable(n, fail) =>
        OneInQueue(s);
        DropBytesConcat(s.queue, n);
      case _ =>
    }
  }

  lemma LocalSide(w: World, id: nat, ev: Event)
    requires WInv(w) && Can(w, Local(id, ev))
    ensures SideOk(Do(w, Local(id, ev)))
  {
    EventFrame(id, w.a[id], ev);
    LocalPackets(w, id, ev);
  }

  lemma LocalPackets(w: World, id: nat, ev: Event)
    requires WInv(w) && Can(w, Local(id, ev))
    ensures var w' := Do(w, Local(id, ev)); forall k :: 0 <= k < |w'.ab| ==> PacketOk(w', w'.ab[k])
  {
    var w' := Do(w, Local(id, ev));
    EventFrame(id, w.a[id], ev);
    forall k | 0 <= k < |w'.ab| ensures PacketOk(w', w'.ab[k]) {
      if k < |w.ab| {
        assert PacketOk(w, w.ab[k]);
      }
    }
  }

  lemma LocalFarSide(w: World, id: nat, ev: Event)
    requires WInv(w) && Can(w, Local(id, ev))
    ensures SideOk(Swap(Do(w, Local(id, ev))))
  {
    var w' := Do(w, Local(id, ev));
    EventFrame(id, w.a[id], ev);
    forall k | 0 <= k < |w'.ba| ensures PacketOk(Swap(w'), w'.ba[k]) {
      assert PacketOk(Swap(w), w.ba[k]);
    }
  }

  lemma LocalStream(w: World, id: nat, ev: Event, i: nat, j: nat)
    requires MatesOk(Swap(w)) && Can(w, Local(id, ev)) && SockOk(w.a[id])
    requires Mated(w, i, j) && StreamOk(w, i, j)
    ensures StreamOk(Do(w, Local(id, ev)), i, j)
  {
    var e := OnEvent(id, w.a[id], ev);
    EventFrame(id, w.a[id], ev);
    if i == id {
      assert w.a[i].mate == j || w.a[i].mate == 0;
      SentHere(w.ab, e.sends, i, j);
      EventKeeps(w.a[i], w.b[j], Between(w.ab, i, j), Between(w.ba, j, i), i, ev);
    } else {
      SentElsewhere(w.ab, e.sends, i, j);
    }
  }

  lemma LocalKeeps(w: World, id: nat, ev: Event)
    requires WInv(w) && Can(w, Local(id, ev))
    ensures WInv(Do(w, Local(id, ev)))
  {
    var w' := Do(w, Local(id, ev));
    EventFrame(id, w.a[id], ev);
    LocalSide(w, id, ev);
    LocalFarSide(w, id, ev);
    forall i: nat, j: nat | Mated(w', i, j) ensures StreamOk(w', i, j) {
      assert Mated(w, i, j);
      LocalStream(w, id, ev, i, j);
    }
  }

  // ---- machine a is asked to open a stream ----

  lemma AcceptPackets(w: World, n: nat, fail: bool)
    requires WInv(w) && Can(w, Deliver(true, n, fail)) && w.ba[0].command.OPEN?
    ensures var w' := Do(w, Deliver(true, n, fail));
            forall k :: 0 <= k < |w'.ab| ==> PacketOk(w', w'.ab[k])
  {
    var w' := Do(w, Deliver(true, n, fail));
    assert PacketOk(Swap(w), w.ba[0]);
    assert Opening(w.ba, w.ba[0].arg0);
    forall k | 0 <= k < |w'.ab| ensures PacketOk(w', w'.ab[k]) {
      if k < |w.ab| {
        assert PacketOk(w, w.ab[k]);
      }
    }
  }

  lemma AcceptSide(w: World, n: nat, fail: bool)
    requires WInv(w) && Can(w, Deliver(true, n, fail)) && w.ba[0].command.OPEN?
    ensures SideOk(Do(w, Deliver(true, n, fail)))
  {
    AcceptPackets(w, n, fail);
    assert PacketOk(Swap(w), w.ba[0]);
  }

  lemma AcceptFarSide(w: World, n: nat, fail: bool)
    requires WInv(w) && Can(w, Deliver(true, n, fail)) && w.ba[0].command.OPEN?
    ensures SideOk(Swap(Do(w, Deliver(true, n, fail))))
  {
    var w' := Do(w, Deliver(true, n, fail));
    assert PacketOk(Swap(w), w.ba[0]);
    forall k | 0 <= k < |w'.ba| ensures PacketOk(Swap(w'), w'.ba[k]) {
      assert w'.ba[k] == w.ba[k + 1];
      assert PacketOk(Swap(w), w.ba[k + 1]);
    }
    assert MatesOk(Swap(w'));
    assert OpensOnce(w'.ba);
  }

  lemma {:induction false} NoneBetween(q: seq<Packet>, i: nat, j: nat)
    requires forall k :: 0 <= k < |q| ==> !Belongs(q[k], i, j)
    ensures Between(q, i, j) == []
  {
    if q != [] {
      NoneBetween(q[1..], i, j);
    }
  }

  /** The new stream starts with its accepting OKAY as the only packet in flight. */
  lemma AcceptedQueues(w: World, n: nat, fail: bool)
    requires WInv(w) && Can(w, Deliver(true, n, fail)) && w.ba[0].command.OPEN?
    ensures var w', i, j := Do(w, Deliver(true, n, fail)), |w.a|, w.ba[0].arg0;
            && Between(w'.ab, i, j) == [Packet(OKAY, i, j, [])]
            && Between(w'.ba, j, i) == []
  {
    var i, j := |w.a|, w.ba[0].arg0;
    assert PacketOk(Swap(w), w.ba[0]);
    forall k | 0 <= k < |w.ab| ensures !Belongs(w.ab[k], i, j) {
      assert PacketOk(w, w.ab[k]);
    }
    NoneBetween(w.ab, i, j);
    SentHere(w.ab, [Packet(OKAY, i, j, [])], i, j);
    forall k | 0 <= k < |w.ba| ensures !Belongs(w.ba[k], j, i) {
      assert PacketOk(Swap(w), w.ba[k]);
    }
    NoneBetween(w.ba[1..], j, i);
  }

  lemma AcceptedStream(w: World, n: nat, fail: bool)
    requires WInv(w) && Can(w, Deliver(true, n, fail)) && w.ba[0].command.OPEN?
    ensures PacketOk(Swap(w), w.ba[0])
    ensures StreamOk(Do(w, Deliver(true, n, fail)), |w.a|, w.ba[0].arg0)
  {
    var j := w.ba[0].arg0;
    assert PacketOk(Swap(w), w.ba[0]);
    AcceptedQueues(w, n, fail);
    AcceptKeeps(w.b[j], j, Packet(OKAY, |w.a|, j, []));
  }

  lemma OpenStreams(w: World, service: bool, n: nat, fail: bool, i: nat, j: nat)
    requires Can(w, Deliver(service, n, fail)) && w.ba[0].command.OPEN?
    requires Mated(w, i, j) && StreamOk(w, i, j)
    ensures StreamOk(Do(w, Deliver(service, n, fail)), i, j)
  {
    var (socks, sends) := Handle(w.a, w.ba[0], service, n, fail);
    SentElsewhere(w.ab, sends, i, j);
    TakenElsewhere(w.ba, j, i);
    var w' := Do(w, Deliver(service, n, fail));
    assert w'.a[i] == w.a[i];
    SameStream(w, w', i, j);
  }

  lemma AcceptOpenKeeps(w: World, n: nat, fail: bool)
    requires WInv(w) && Can(w, Deliver(true, n, fail)) && w.ba[0].command.OPEN?
    ensures WInv(Do(w, Deliver(true, n, fail)))
  {
    var w' := Do(w, Deliver(true, n, fail));
    AcceptSide(w, n, fail);
    AcceptFarSide(w, n, fail);
    AcceptedStream(w, n, fail);
    assert MatesOk(Swap(w));
    forall i: nat, j: nat | Mated(w', i, j) ensures StreamOk(w', i, j) {
      if i < |w.a| {
        assert Mated(w, i, j);
        OpenStreams(w, true, n, fail, i, j);
      } else {
        assert j == w.ba[0].arg0;
      }
    }
  }

  lemma RefuseSides(w: World, n: nat, fail: bool)
    requires WInv(w) && Can(w, Deliver(false, n, fail)) && w.ba[0].command.OPEN?
    ensures SideOk(Do(w, Deliver(false, n, fail))) && SideOk(Swap(Do(w, Deliver(false, n, fail))))
  {
    var w' := Do(w, Deliver(false, n, fail));
    assert PacketOk(Swap(w), w.ba[0]);
    forall k | 0 <= k < |w'.ab| ensures PacketOk(w', w'.ab[k]) {
      if k < |w.ab| {
        assert PacketOk(w, w.ab[k]);
      }
    }
    forall k | 0 <= k < |w'.ba| ensures PacketOk(Swap(w'), w'.ba[k]) {
      assert PacketOk(Swap(w), w.ba[k + 1]);
    }
  }

  lemma RefuseOpenKeeps(w: World, n: nat, fail: bool)
    requires WInv(w) && Can(w, Deliver(false, n, fail)) && w.ba[0].command.OPEN?
    ensures WInv(Do(w, Deliver(false, n, fail)))
  {
    var w' := Do(w, Deliver(false, n, fail));
    RefuseSides(w, n, fail);
    assert PacketOk(Swap(w), w.ba[0]);
    forall i: nat, j: nat | Mated(w', i, j) ensures StreamOk(w', i, j) {
      assert Mated(w, i, j);
      OpenStreams(w, false, n, fail, i, j);
    }
  }

  // ---- machine a is told that its OPEN was refused ----

  lemma RefusedKeeps(w: World, act: Action)
    requires WInv(w) && act.Deliver? && Can(w, act)
    requires !w.ba[0].command.OPEN? && w.ba[0].arg0 == 0
    ensures WInv(Do(w, act))
  {
    var w', x := Do(w, act), w.ba[0].arg1;
    assert PacketOk(Swap(w), w.ba[0]);
    assert w'.ab == w.ab;
    RefusedSide(w, act);
    RefusedFarSide(w, act);
    forall i: nat, j: nat | Mated(w', i, j) ensures StreamOk(w', i, j) {
      assert Mated(w, i, j) && i != x;
      TakenElsewhere(w.ba, j, i);
      SameStream(w, w', i, j);
    }
  }

  lemma RefusedSide(w: World, act: Action)
    requires WInv(w) && act.Deliver? && Can(w, act)
    requires !w.ba[0].command.OPEN? && w.ba[0].arg0 == 0
    ensures SideOk(Do(w, act))
  {
    var w' := Do(w, act);
    assert PacketOk(Swap(w), w.ba[0]);
    assert w'.ab == w.ab;
    forall k | 0 <= k < |w'.ab| ensures PacketOk(w', w'.ab[k]) {
      assert PacketOk(w, w.ab[k]);
    }
  }

  lemma RefusedFarSide(w: World, act: Action)
    requires WInv(w) && act.Deliver? && Can(w, act)
    requires !w.ba[0].command.OPEN? && w.ba[0].arg0 == 0
    ensures SideOk(Swap(Do(w, act)))
  {
    var w' := Do(w, act);
    assert PacketOk(Swap(w), w.ba[0]);
    assert w'.ab == w.ab;
    forall k | 0 <= k < |w'.ba| ensures PacketOk(Swap(w'), w'.ba[k]) {
      assert PacketOk(Swap(w), w.ba[k + 1]);
    }
  }

  // ---- machine a receives a packet of an established stream ----

  lemma PacketFrame(x: nat, s: Sock, p: Packet, n: nat, fail: bool)
    requires SockOk(s) && p.arg0 != 0 && !p.command.OPEN? && n <= |p.data|
    requires s.mate == 0 || s.mate == p.arg0
    requires s.mate == 0 && s.phase.Live? ==> p.command.OKAY?
    ensures var e := OnPacket(x, s, p, n, fail);
            && (e.sock.mate == s.mate || e.sock.mate == p.arg0)
            && (forall k :: 0 <= k < |e.sends| ==> Belongs(e.sends[k], x, p.arg0))
  {
  }

  /** The stream a packet from machine b is about, and what it means that the packet is its first. */
  lemma Addressed(w: World)
    requires WInv(w) && w.ba != [] && !w.ba[0].command.OPEN? && w.ba[0].arg0 != 0
    ensures var x, y := w.ba[0].arg1, w.ba[0].arg0;
            && Mated(w, x, y) && StreamOk(w, x, y) && w.b[y].mate == x
            && (w.a[x].mate == y || w.a[x].mate == 0)
            && (w.a[x].mate == 0 && w.a[x].phase.Live? ==> w.ba[0].command.OKAY?)
            && Between(w.ba, y, x) != [] && Between(w.ba, y, x)[0] == w.ba[0]
            && Between(w.ba[1..], y, x) == Between(w.ba, y, x)[1..]
  {
    var x, y := w.ba[0].arg1, w.ba[0].arg0;
    assert PacketOk(Swap(w), w.ba[0]);
    assert Mated(w, x, y);
    TakenHere(w.ba, y, x);
  }

  lemma DeliverOwn(w: World, act: Action)
    requires WInv(w) && act.Deliver? && Can(w, act)
    requires !w.ba[0].command.OPEN? && w.ba[0].arg0 != 0
    ensures var x, y := w.ba[0].arg1, w.ba[0].arg0;
            x < |Do(w, act).a| && y < |Do(w, act).b| && StreamOk(Do(w, act), x, y)
  {
    var x, y := w.ba[0].arg1, w.ba[0].arg0;
    Addressed(w);
    PacketFrame(x, w.a[x], w.ba[0], act.n, act.fail);
    SentHere(w.ab, OnPacket(x, w.a[x], w.ba[0], act.n, act.fail).sends, x, y);
    PacketKeeps(w.b[y], w.a[x], Between(w.ba, y, x), Between(w.ab, x, y), x, act.n, act.fail);
  }

  lemma DeliverStream(w: World, act: Action, i: nat, j: nat)
    requires WInv(w) && act.Deliver? && Can(w, act)
    requires !w.ba[0].command.OPEN? && w.ba[0].arg0 != 0
    requires Mated(w, i, j)
    ensures StreamOk(Do(w, act), i, j)
  {
    var w', x, y := Do(w, act), w.ba[0].arg1, w.ba[0].arg0;
    Addressed(w);
    PacketFrame(x, w.a[x], w.ba[0], act.n, act.fail);
    var e := OnPacket(x, w.a[x], w.ba[0], act.n, act.fail);
    if i == x && j == y {
      DeliverOwn(w, act);
    } else {
      assert i != x;
      SentElsewhere(w.ab, e.sends, i, j);
      TakenElsewhere(w.ba, j, i);
      SameStream(w, w', i, j);
    }
  }

  lemma DeliverPackets(w: World, act: Action)
    requires WInv(w) && act.Deliver? && Can(w, act)
    requires !w.ba[0].command.OPEN? && w.ba[0].arg0 != 0
    ensures var w' := Do(w, act); forall k :: 0 <= k < |w'.ab| ==> PacketOk(w', w'.ab[k])
  {
    var w', x, y := Do(w, act), w.ba[0].arg1, w.ba[0].arg0;
    Addressed(w);
    PacketFrame(x, w.a[x], w.ba[0], act.n, act.fail);
    forall k | 0 <= k < |w'.ab| ensures PacketOk(w', w'.ab[k]) {
      if k < |w.ab| {
        assert PacketOk(w, w.ab[k]);
      }
    }
  }

  lemma DeliverFarPackets(w: World, act: Action)
    requires WInv(w) && act.Deliver? && Can(w, act)
    requires !w.ba[0].command.OPEN? && w.ba[0].arg0 != 0
    ensures var w' := Do(w, act); forall k :: 0 <= k < |w'.ba| ==> PacketOk(Swap(w'), w'.ba[k])
  {
    var w', x, y := Do(w, act), w.ba[0].arg1, w.ba[0].arg0;
    Addressed(w);
    PacketFrame(x, w.a[x], w.ba[0], act.n, act.fail);
    var e := OnPacket(x, w.a[x], w.ba[0], act.n, act.fail);
    forall k | 0 <= k < |w'.ba| ensures PacketOk(Swap(w'), w'.ba[k]) {
      FarPacketOk(w, x, y, e, w', w.ba[k + 1]);
    }
  }

  /** A packet from machine b stays in order when a socket of machine a does something, and perhaps
      learns its mate. */
  lemma FarPacketOk(w: World, x: nat, y: nat, e: Effect, w': World, p: Packet)
    requires PacketOk(Swap(w), p) && x < |w.a| && 0 < y < |w.b| && w.b[y].mate == x != 0
    requires w'.a == w.a[x := e.sock] && w'.b == w.b && (e.sock.mate == y || e.sock.mate == w.a[x].mate)
    requires w'.ab == w.ab + e.sends && forall k :: 0 <= k < |e.sends| ==> !e.sends[k].command.OPEN?
    ensures PacketOk(Swap(w'), p)
  {
  }

  lemma DeliverSocks(w: World, act: Action)
    requires WInv(w) && act.Deliver? && Can(w, act)
    requires !w.ba[0].command.OPEN? && w.ba[0].arg0 != 0
    ensures var w' := Do(w, act); forall i :: 0 <= i < |w'.a| ==> SockOk(w'.a[i])
  {
    var x, y := w.ba[0].arg1, w.ba[0].arg0;
    Addressed(w);
    DeliverStream(w, act, x, y);
  }

  lemma DeliverMates(w: World, act: Action)
    requires WInv(w) && act.Deliver? && Can(w, act)
    requires !w.ba[0].command.OPEN? && w.ba[0].arg0 != 0
    ensures MatesOk(Do(w, act)) && OpensOnce(Do(w, act).ab)
  {
    var x, y := w.ba[0].arg1, w.ba[0].arg0;
    Addressed(w);
    PacketFrame(x, w.a[x], w.ba[0], act.n, act.fail);
    var e := OnPacket(x, w.a[x], w.ba[0], act.n, act.fail);
    MateLearnt(w, x, y, e.sock, Do(w, act));
    NoOpens(w.ab, e.sends);
  }

  /** A socket may learn the mate that already knows it. */
  lemma MateLearnt(w: World, x: nat, y: nat, s: Sock, w': World)
    requires MatesOk(w) && MatesOk(Swap(w)) && x < |w.a| && 0 < y < |w.b| && w.b[y].mate == x != 0
    requires w'.a == w.a[x := s] && w'.b == w.b && (s.mate == y || s.mate == w.a[x].mate)
    ensures MatesOk(w')
  {
  }

  lemma NoOpens(q: seq<Packet>, sends: seq<Packet>)
    requires OpensOnce(q) && forall k :: 0 <= k < |sends| ==> !sends[k].command.OPEN?
    ensures OpensOnce(q + sends)
  {
  }

  lemma DeliverSide(w: World, act: Action)
    requires WInv(w) && act.Deliver? && Can(w, act)
    requires !w.ba[0].command.OPEN? && w.ba[0].arg0 != 0
    ensures SideOk(Do(w, act))
  {
    Addressed(w);
    DeliverMates(w, act);
    DeliverPackets(w, act);
    DeliverSocks(w, act);
  }

  lemma DeliverFarSide(w: World, act: Action)
    requires WInv(w) && act.Deliver? && Can(w, act)
    requires !w.ba[0].command.OPEN? && w.ba[0].arg0 != 0
    ensures SideOk(Swap(Do(w, act)))
  {
    var x, y := w.ba[0].arg1, w.ba[0].arg0;
    Addressed(w);
    PacketFrame(x, w.a[x], w.ba[0], act.n, act.fail);
    DeliverFarPackets(w, act);
    FarMates(w, x, y, OnPacket(x, w.a[x], w.ba[0], act.n, act.fail).sock, Do(w, act));
    assert OpensOnce(w.ba[1..]);
  }

  lemma FarMates(w: World, x: nat, y: nat, s: Sock, w': World)
    requires MatesOk(w) && MatesOk(Swap(w)) && x < |w.a| && 0 < y < |w.b| && w.b[y].mate == x != 0
    requires w'.a == w.a[x := s] && w'.b == w.b && (s.mate == y || s.mate == w.a[x].mate)
    ensures MatesOk(Swap(w'))
  {
  }

  lemma DeliverPacketKeeps(w: World, act: Action)
    requires WInv(w) && act.Deliver? && Can(w, act)
    requires !w.ba[0].command.OPEN? && w.ba[0].arg0 != 0
    ensures WInv(Do(w, act))
  {
    var w' := Do(w, act);
    DeliverSide(w, act);
    DeliverFarSide(w, act);
    forall i: nat, j: nat | Mated(w', i, j) ensures StreamOk(w', i, j) {
      Addressed(w);
      PacketFrame(w.ba[0].arg1, w.a[w.ba[0].arg1], w.ba[0], act.n, act.fail);
      assert Mated(w, i, j);
      DeliverStream(w, act, i, j);
    }
  }

  // ---- every step, every run ----

  lemma DoKeeps(w: World, act: Action)
    requires WInv(w) && Can(w, act)
    ensures WInv(Do(w, act))
  {
    match act {
      case Connect(to) => ConnectKeeps(w, to);
      case Local(id, ev) => LocalKeeps(w, id, ev);
      case Deliver(service, n, fail) =>
        if w.ba[0].command.OPEN? {
          if service {
            AcceptOpenKeeps(w, n, fail);
          } else {
            RefuseOpenKeeps(w, n, fail);
          }
        } else if w.ba[0].arg0 == 0 {
          RefusedKeeps(w, act);
        } else {
          DeliverPacketKeeps(w, act);
        }
    }
  }

  lemma StepKeeps(w: World, w': World)
    requires WInv(w) && Step(w, w')
    ensures WInv(w')
  {
    if act :| Can(w, act) && w' == Do(w, act) {
      DoKeeps(w, act);
    } else {
      var act :| Can(Swap(w), act) && w' == Swap(Do(Swap(w), act));
      SwapInv(w);
      DoKeeps(Swap(w), act);
      SwapInv(Do(Swap(w), act));
    }
  }

  lemma {:induction false} RunInv(run: seq<World>)
    requires IsRun(run)
    ensures WInv(run[|run| - 1])
  {
    if |run| > 1 {
      var pre := run[..|run| - 1];
      RunInv(pre);
      StepKeeps(pre[|pre| - 1], run[|run| - 1]);
    }
  }
}
