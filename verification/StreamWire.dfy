/**
 The streams of StreamWorld over the bytes of PacketCodec: every packet of every run can be written
 to the wire, and the queue between two machines arrives there as it was sent.
 */
module StreamWire {
  import opened ByteSeqs
  import opened FdIo
  import opened StreamSocket
  import opened StreamPair
  import opened StreamWorld
  import opened StreamTheorems
  import opened StreamTraces
  import opened PacketCodec

  // ---- what a wire can carry ----

  predicate AllFit(q: seq<Packet>)
  {
    forall k :: 0 <= k < |q| ==> Fits(q[k])
  }

  function Wired(q: seq<Packet>): (ws: seq<APacket>)
    requires AllFit(q)
    ensures |ws| == |q| && forall k :: 0 <= k < |q| ==> ws[k] == ToWire(q[k])
  {
    if q == [] then [] else [ToWire(q[0])] + Wired(q[1..])
  }

  /** The stream packet that a packet of the wire stands for, if its command is one of a stream's. */
  function FromWire(w: APacket): Packet
  {
    var c := w.msg.command;
    Packet.Packet(if c == A_OPEN then OPEN else if c == A_OKAY then OKAY else if c == A_WRTE then WRTE else CLSE,
                  w.msg.arg0, w.msg.arg1, w.data)
  }

  function Unwired(ws: seq<APacket>): seq<Packet>
  {
    if ws == [] then [] else [FromWire(ws[0])] + Unwired(ws[1..])
  }

  lemma {:induction false} UnwiredWired(q: seq<Packet>)
    requires AllFit(q)
    ensures Unwired(Wired(q)) == q
  {
    if q != [] {
      UnwiredWired(q[1..]);
      assert Wired(q)[1..] == Wired(q[1..]);
    }
  }

  /** The bytes of a queue, and the packets in such bytes. */
  function OnWire(q: seq<Packet>): Bytes
    requires AllFit(q)
  {
    EncodeAll(Wired(q))
  }

  function OffWire(s: Bytes): seq<Packet>
  {
    Unwired(DecodeAll(s))
  }

  lemma WireIsQueue(q: seq<Packet>)
    requires AllFit(q)
    ensures OffWire(OnWire(q)) == q
  {
    FifoOfPackets(Wired(q));
    UnwiredWired(q);
  }

  // ---- every packet of a run fits ----

  predicate Light(q: seq<Packet>)
  {
    forall k :: 0 <= k < |q| ==> |q[k].data| <= StreamSocket.MAX_PAYLOAD
  }

  /** The streams are opened to destinations that connect_to_remote accepts. */
  predicate ShortNames(moves: seq<Move>)
  {
    forall k :: 0 <= k < |moves| && moves[k].act.Connect? ==> |moves[k].act.destination| <= StreamSocket.MAX_PAYLOAD
  }

  lemma LightAppend(q: seq<Packet>, r: seq<Packet>)
    requires Light(q) && Light(r)
    ensures Light(q + r)
  {
  }

  lemma EventLight(i: nat, s: Sock, ev: Event)
    requires Enabled(s, ev)
    ensures Light(OnEvent(i, s, ev).sends)
  {
  }

  lemma PacketLight(i: nat, s: Sock, p: Packet, n: nat, fail: bool)
    requires n <= |p.data|
    ensures Light(OnPacket(i, s, p, n, fail).sends)
  {
  }

  lemma DoLight(w: World, act: Action)
    requires Can(w, act) && Light(w.ab) && Light(w.ba)
    requires act.Connect? ==> |act.destination| <= StreamSocket.MAX_PAYLOAD
    ensures Light(Do(w, act).ab) && Light(Do(w, act).ba)
  {
    match act {
      case Connect(to) => LightAppend(w.ab, [Packet.Packet(OPEN, |w.a|, 0, to)]);
      case Local(id, ev) =>
        EventLight(id, w.a[id], ev);
        LightAppend(w.ab, OnEvent(id, w.a[id], ev).sends);
      case Deliver(service, n, fail) =>
        var p := w.ba[0];
        if 0 < p.arg1 < |w.a| {
          PacketLight(p.arg1, w.a[p.arg1], p, n, fail);
        }
        LightAppend(w.ab, Handle(w.a, p, service, n, fail).1);
    }
  }

  lemma {:induction false} TraceLight(run: seq<World>, moves: seq<Move>, k: nat)
    requires IsTrace(run, moves) && ShortNames(moves) && k <= |moves|
    ensures Light(run[k].ab) && Light(run[k].ba)
    decreases k
  {
    if k > 0 {
      TraceLight(run, moves, k - 1);
      var w, m := run[k - 1], moves[k - 1];
      assert CanMove(w, m) && run[k] == After(w, m);
      DoLight(if m.far then Swap(w) else w, m.act);
    }
  }

  /** Ids are handed out in order, so they fit a word while there are no more sockets than words. */
  lemma SideFits(w: World)
    requires SideOk(w) && Light(w.ab) && |w.a| <= WORD && |w.b| <= WORD
    ensures AllFit(w.ab)
  {
    forall k | 0 <= k < |w.ab| ensures Fits(w.ab[k]) {
      assert PacketOk(w, w.ab[k]);
    }
  }

  /** In every state of every run with at most 2^32 sockets on a side, opened to names that
      fit a packet, the packets in flight fit the wire, and the bytes that carry them are read as
      exactly them, in order. */
  lemma QueuesOnWire(run: seq<World>, moves: seq<Move>)
    requires IsTrace(run, moves) && ShortNames(moves) && |Last(run).a| <= WORD && |Last(run).b| <= WORD
    ensures var w := Last(run);
            && AllFit(w.ab) && AllFit(w.ba) && OffWire(OnWire(w.ab)) == w.ab && OffWire(OnWire(w.ba)) == w.ba
  {
    var w := Last(run);
    TraceLight(run, moves, |moves|);
    TraceInv(run, moves, |moves|);
    SideFits(w);
    SideFits(Swap(w));
    WireIsQueue(w.ab);
    WireIsQueue(w.ba);
  }

  /** In-order delivery down to the bytes: what the receiver of an open stream has written and queued,
      followed by the payload of that stream in the bytes on the wire, is what the sender read. */
  lemma DeliveredOverWire(run: seq<World>, moves: seq<Move>, i: nat, j: nat)
    requires IsTrace(run, moves) && ShortNames(moves) && |Last(run).a| <= WORD && |Last(run).b| <= WORD
    requires Mated(Last(run), i, j) && Last(run).b[j].phase.Live?
    ensures var w := Last(run);
            && AllFit(w.ab)
            && w.b[j].put + Concat(w.b[j].queue) + Payload(Between(OffWire(OnWire(w.ab)), i, j)) == w.a[i].got
  {
    QueuesOnWire(run, moves);
    TraceIsRun(run, moves);
    InOrderDelivery(run, i, j);
  }
}
