/**
 One stream seen from both machines: its two sockets and, for each direction, the packets of this
 stream that are in flight, in order. The invariant SInv holds of every stream in every reachable
 state; it is symmetric in the two ends, so each step is proved once.
 */
module StreamPair {
  import opened ByteSeqs
  import opened StreamSocket

  // ---- what a queue of packets of one stream holds ----

  function Wrtes(q: seq<Packet>): nat
  {
    if q == [] then 0 else (if q[0].command.WRTE? then 1 else 0) + Wrtes(q[1..])
  }

  function Okays(q: seq<Packet>): nat
  {
    if q == [] then 0 else (if q[0].command.OKAY? then 1 else 0) + Okays(q[1..])
  }

  /** The payload bytes in flight. */
  function Payload(q: seq<Packet>): Bytes
  {
    if q == [] then [] else (if q[0].command.WRTE? then q[0].data else []) + Payload(q[1..])
  }

  lemma {:induction false} PayloadAppend(q: seq<Packet>, r: seq<Packet>)
    ensures Payload(q + r) == Payload(q) + Payload(r)
  {
    if q == [] {
      assert q + r == r;
    } else {
      assert (q + r)[1..] == q[1..] + r;
      PayloadAppend(q[1..], r);
      Regroup(if q[0].command.WRTE? then q[0].data else [], Payload(q[1..]), Payload(r));
    }
  }

  lemma {:induction false} CountsAppend(q: seq<Packet>, r: seq<Packet>)
    ensures Wrtes(q + r) == Wrtes(q) + Wrtes(r)
    ensures Okays(q + r) == Okays(q) + Okays(r)
  {
    if q == [] {
      assert q + r == r;
    } else {
      assert (q + r)[1..] == q[1..] + r;
      CountsAppend(q[1..], r);
    }
  }

  lemma QueueAppend(q: seq<Packet>, r: seq<Packet>)
    ensures Wrtes(q + r) == Wrtes(q) + Wrtes(r)
    ensures Okays(q + r) == Okays(q) + Okays(r)
    ensures Payload(q + r) == Payload(q) + Payload(r)
  {
    CountsAppend(q, r);
    PayloadAppend(q, r);
  }

  /** Every packet of the stream is well formed, and nothing follows a CLSE. */
  predicate Shape(q: seq<Packet>)
  {
    && (forall k :: 0 <= k < |q| && q[k].command.CLSE? ==> k == |q| - 1)
    && (forall k :: 0 <= k < |q| ==> !q[k].command.OPEN?)
    && (forall k :: 0 <= k < |q| && q[k].command.WRTE? ==> 0 < |q[k].data| <= MAX_PAYLOAD)
  }

  predicate NoClose(q: seq<Packet>)
  {
    forall k :: 0 <= k < |q| ==> !q[k].command.CLSE?
  }

  // ---- the invariant ----

  /** The fields of one socket agree with each other. */
  predicate SockOk(s: Sock)
  {
    && (s.phase.Live? ==> s.peer == s.mate && s.cause.Never? && !s.fault)
    && (!s.phase.Live? ==> s.peer == 0 && !s.read && !s.cause.Never?)
    && (s.write <==> s.queue != [])
    && (s.phase.Closing? ==> s.queue != [])
    && (s.phase.Dead? ==> s.queue == [])
    && |s.queue| <= 1
    && (s.queue != [] ==> s.queue[0] != [])
    && (s.fault ==> s.phase.Dead?)
    && (s.mate == 0 ==> !s.read && s.queue == [] && s.got == [] && s.put == [])
  }

  /** The tokens of the direction from s to r; f carries packets from s to r, k from r to s. */
  function Credit(s: Sock, r: Sock, f: seq<Packet>, k: seq<Packet>): nat
  {
    (if s.read then 1 else 0) + Wrtes(f) + (if r.queue != [] then 1 else 0) + Okays(k)
  }

  /** What r has of the bytes of s: written to its descriptor or waiting to be. */
  function Arrived(r: Sock): Bytes
  {
    r.put + Concat(r.queue)
  }

  /** In-order delivery from s to r, up to and after a close of either end. */
  predicate Delivery(s: Sock, r: Sock, f: seq<Packet>)
  {
    && (r.cause.Never? ==> Arrived(r) + Payload(f) == s.got)
    && (r.cause.BySelf? ==> Arrived(r) <= s.got)
    && (r.cause.ByPeer? ==>
          && !s.phase.Live? && f == []
          && (if r.fault then r.put < s.got else Arrived(r) == s.got))
  }

  /** The handshake: until r learns its peer, the accepting OKAY leads everything sent to it. */
  predicate Handshake(s: Sock, r: Sock, f: seq<Packet>, k: seq<Packet>)
  {
    r.mate == 0 ==>
      && s.mate != 0 && k == []
      && (r.phase.Live? ==> f != [] && f[0].command.OKAY?)
      && (r.phase.Live? || r.cause.BySelf?)
  }

  predicate Half(s: Sock, r: Sock, f: seq<Packet>, k: seq<Packet>)
  {
    && SockOk(s)
    && Shape(f)
    && (s.phase.Live? ==> NoClose(f))
    && Credit(s, r, f, k) <= 1
    && (s.phase.Live? && r.phase.Live? ==> Credit(s, r, f, k) == 1)
    && Delivery(s, r, f)
    && Handshake(s, r, f, k)
  }

  predicate SInv(a: Sock, b: Sock, ab: seq<Packet>, ba: seq<Packet>)
  {
    Half(a, b, ab, ba) && Half(b, a, ba, ab)
  }

  // ---- every step keeps it ----

  /**
   What an event on its descriptor may do to a socket and what the socket then sends: tokens are
   moved, never made, and none is lost while the socket stays live; bytes read are all sent.
   */
  predicate LocalMove(s: Sock, s': Sock, sends: seq<Packet>)
  {
    && SockOk(s') && s'.mate == s.mate
    && Shape(sends)
    && (s'.phase.Live? ==> s.phase.Live? && NoClose(sends))
    && (!s.phase.Live? || s.mate == 0 ==> sends == [])
    && Moves(s.read, s'.read, Wrtes(sends), s'.phase.Live?)
    && Moves(s.queue != [], s'.queue != [], Okays(sends), s'.phase.Live?)
    && s'.got == s.got + Payload(sends)
    && (s'.cause.Never? ==> s.cause.Never? && Arrived(s') == Arrived(s))
    && (s'.cause.BySelf? ==> !s.cause.ByPeer? && Arrived(s') <= Arrived(s))
    && (s'.cause.ByPeer? ==>
          && s.cause.ByPeer? && !s.fault
          && (if s'.fault then s'.put < Arrived(s) else Arrived(s') == Arrived(s)))
  }

  /** A token held before is held after or was sent; it may vanish only when the socket closes. */
  predicate Moves(before: bool, after: bool, sent: nat, live: bool)
  {
    var b, a := if before then 1 else 0, if after then 1 else 0;
    a + sent <= b && (live ==> a + sent == b)
  }

  lemma OneInQueue(s: Sock)
    requires SockOk(s)
    ensures Concat(s.queue) == if s.queue == [] then [] else s.queue[0]
  {
    if s.queue != [] {
      assert s.queue[1..] == [];
    }
  }

  lemma Single(p: Packet)
    ensures Wrtes([p]) == if p.command.WRTE? then 1 else 0
    ensures Okays([p]) == if p.command.OKAY? then 1 else 0
    ensures Payload([p]) == if p.command.WRTE? then p.data else []
  {
    assert [p][1..] == [];
  }

  lemma WritableMoves(i: nat, s: Sock, n: nat)
    requires SockOk(s) && Enabled(s, Writable(n, false))
    ensures var e := OnEvent(i, s, Writable(n, false)); LocalMove(s, e.sock, e.sends)
  {
    var e := OnEvent(i, s, Writable(n, false));
    OneInQueue(s);
    if n < |s.queue[0]| {
      PartMoves(i, s, n);
    } else {
      DropBytesConcat(s.queue, n);
      if s.phase.Live? {
        Single(e.sends[0]);
      }
    }
  }

  lemma PartMoves(i: nat, s: Sock, n: nat)
    requires SockOk(s) && Enabled(s, Writable(n, false)) && n < |s.queue[0]|
    ensures var e := OnEvent(i, s, Writable(n, false)); LocalMove(s, e.sock, e.sends)
  {
    var e := OnEvent(i, s, Writable(n, false));
    OneInQueue(s);
    assert e.sock == s.(put := s.put + s.queue[0][..n], queue := [s.queue[0][n..]]);
    OneInQueue(e.sock);
    assert Arrived(e.sock) == Arrived(s);
  }

  lemma LiveCloses(i: nat, s: Sock, notify: bool)
    requires SockOk(s) && s.phase.Live?
    ensures var e := CloseLocked(i, if notify then s else s.(peer := 0), BySelf);
            LocalMove(s, e.sock, e.sends)
  {
    var e := CloseLocked(i, if notify then s else s.(peer := 0), BySelf);
    OneInQueue(s);
    if e.sends != [] {
      Single(e.sends[0]);
      assert e.sends == [e.sends[0]];
    }
  }

  lemma CloseMoves(i: nat, s: Sock, notify: bool)
    requires SockOk(s) && !s.phase.Dead?
    requires notify || s.phase.Live?
    ensures var e := CloseLocked(i, if notify then s else s.(peer := 0), BySelf);
            LocalMove(s, e.sock, e.sends)
  {
    if s.phase.Live? {
      LiveCloses(i, s, notify);
    } else {
      OneInQueue(s);
    }
  }

  lemma ReadMoves(i: nat, s: Sock, chunk: Bytes)
    requires SockOk(s) && s.phase.Live? && Enabled(s, Readable(chunk, false))
    ensures var e := OnEvent(i, s, Readable(chunk, false)); LocalMove(s, e.sock, e.sends)
  {
    var e := OnEvent(i, s, Readable(chunk, false));
    if e.sends != [] {
      Single(e.sends[0]);
      assert e.sends == [e.sends[0]];
    }
  }

  lemma ShapeAppend(q: seq<Packet>, r: seq<Packet>)
    requires Shape(q) && Shape(r) && (r == [] || NoClose(q))
    ensures Shape(q + r)
    ensures NoClose(q) && NoClose(r) ==> NoClose(q + r)
  {
    if r == [] {
      assert q + r == q;
    }
  }

  lemma SentIsDelivered(s: Sock, r: Sock, f: seq<Packet>, s': Sock, sends: seq<Packet>)
    requires Delivery(s, r, f)
    requires s'.got == s.got + Payload(sends) && (s'.phase.Live? ==> s.phase.Live?)
    requires r.cause.ByPeer? ==> sends == []
    ensures Delivery(s', r, f + sends)
  {
    QueueAppend(f, sends);
    assert sends == [] ==> f + sends == f;
    assert Arrived(r) + (Payload(f) + Payload(sends)) == (Arrived(r) + Payload(f)) + Payload(sends);
  }

  lemma SenderKeeps(a: Sock, b: Sock, ab: seq<Packet>, ba: seq<Packet>, a': Sock, sends: seq<Packet>)
    requires SInv(a, b, ab, ba) && LocalMove(a, a', sends)
    ensures Half(a', b, ab + sends, ba)
  {
    QueueAppend(ab, sends);
    ShapeAppend(ab, sends);
    SentIsDelivered(a, b, ab, a', sends);
    if sends == [] {
      assert ab + sends == ab;
    }
  }

  lemma ReceiverKeeps(a: Sock, b: Sock, ab: seq<Packet>, ba: seq<Packet>, a': Sock, sends: seq<Packet>)
    requires SInv(a, b, ab, ba) && LocalMove(a, a', sends)
    ensures Half(b, a', ba, ab + sends)
  {
    QueueAppend(ab, sends);
    if sends == [] {
      assert ab + sends == ab;
    }
  }

  lemma LocalMoveKeeps(a: Sock, b: Sock, ab: seq<Packet>, ba: seq<Packet>, a': Sock, sends: seq<Packet>)
    requires SInv(a, b, ab, ba) && LocalMove(a, a', sends)
    ensures SInv(a', b, ab + sends, ba)
  {
    SenderKeeps(a, b, ab, ba, a', sends);
    ReceiverKeeps(a, b, ab, ba, a', sends);
  }

  lemma ReadKeeps(a: Sock, b: Sock, ab: seq<Packet>, ba: seq<Packet>, i: nat, chunk: Bytes)
    requires SInv(a, b, ab, ba) && a.phase.Live? && Enabled(a, Readable(chunk, false))
    ensures var e := OnEvent(i, a, Readable(chunk, false)); SInv(e.sock, b, ab + e.sends, ba)
  {
    var e := OnEvent(i, a, Readable(chunk, false));
    ReadMoves(i, a, chunk);
    LocalMoveKeeps(a, b, ab, ba, e.sock, e.sends);
  }

  lemma CloseKeeps(a: Sock, b: Sock, ab: seq<Packet>, ba: seq<Packet>, i: nat, notify: bool)
    requires SInv(a, b, ab, ba) && !a.phase.Dead? && (notify || a.phase.Live?)
    ensures var e := CloseLocked(i, if notify then a else a.(peer := 0), BySelf);
            SInv(e.sock, b, ab + e.sends, ba)
  {
    var e := CloseLocked(i, if notify then a else a.(peer := 0), BySelf);
    CloseMoves(i, a, notify);
    LocalMoveKeeps(a, b, ab, ba, e.sock, e.sends);
  }

  lemma WriteKeeps(a: Sock, b: Sock, ab: seq<Packet>, ba: seq<Packet>, i: nat, n: nat, fail: bool)
    requires SInv(a, b, ab, ba) && Enabled(a, Writable(n, fail))
    ensures var e := OnEvent(i, a, Writable(n, fail)); SInv(e.sock, b, ab + e.sends, ba)
  {
    var w := OnEvent(i, a, Writable(n, false));
    WritableMoves(i, a, n);
    LocalMoveKeeps(a, b, ab, ba, w.sock, w.sends);
    if n < |Concat(a.queue)| && fail {
      assert ab + w.sends == ab;
      CloseKeeps(w.sock, b, ab, ba, i, true);
    }
  }

  lemma LastReadKeeps(a: Sock, b: Sock, ab: seq<Packet>, ba: seq<Packet>, i: nat, chunk: Bytes)
    requires SInv(a, b, ab, ba) && Enabled(a, Readable(chunk, true))
    ensures var e := OnEvent(i, a, Readable(chunk, true)); SInv(e.sock, b, ab + e.sends, ba)
  {
    if a.phase.Closing? {
      CloseKeeps(a, b, ab, ba, i, true);
    } else {
      ReadThenClose(i, a, chunk);
      var r := OnEvent(i, a, Readable(chunk, false));
      ReadKeeps(a, b, ab, ba, i, chunk);
      CloseKeeps(r.sock, b, ab + r.sends, ba, i, true);
      Regroup(ab, r.sends, CloseLocked(i, r.sock, BySelf).sends);
    }
  }

  lemma ReadThenClose(i: nat, s: Sock, chunk: Bytes)
    requires Enabled(s, Readable(chunk, true)) && s.phase.Live?
    ensures var r := OnEvent(i, s, Readable(chunk, false));
            var c := CloseLocked(i, r.sock, BySelf);
            OnEvent(i, s, Readable(chunk, true)) == Effect(c.sock, r.sends + c.sends)
  {
  }

  /** Every event on a socket's descriptor keeps the stream invariant. */
  lemma EventKeeps(a: Sock, b: Sock, ab: seq<Packet>, ba: seq<Packet>, i: nat, ev: Event)
    requires SInv(a, b, ab, ba) && Enabled(a, ev)
    ensures var e := OnEvent(i, a, ev); SInv(e.sock, b, ab + e.sends, ba)
  {
    match ev {
      case Writable(n, fail) => WriteKeeps(a, b, ab, ba, i, n, fail);
      case Abort(notify) => CloseKeeps(a, b, ab, ba, i, notify);
      case Readable(chunk, eof) =>
        if eof {
          LastReadKeeps(a, b, ab, ba, i, chunk);
        } else if a.phase.Live? {
          ReadKeeps(a, b, ab, ba, i, chunk);
        } else {
          assert ab + [] == ab;
        }
    }
  }

  /** Nothing is taken off the front but the packet itself. */
  lemma QueueTail(q: seq<Packet>)
    requires q != [] && Shape(q)
    ensures Wrtes(q) == Wrtes(q[1..]) + Wrtes([q[0]])
    ensures Okays(q) == Okays(q[1..]) + Okays([q[0]])
    ensures Payload(q) == Payload([q[0]]) + Payload(q[1..])
    ensures Shape(q[1..])
    ensures NoClose(q) ==> NoClose(q[1..])
    ensures q[0].command.CLSE? ==> q[1..] == []
  {
    Single(q[0]);
    assert forall k :: 0 <= k < |q[1..]| ==> q[1..][k] == q[k + 1];
  }

  /** A packet that its addressee, no longer live, ignores. */
  lemma IgnoredKeeps(a: Sock, b: Sock, ab: seq<Packet>, ba: seq<Packet>)
    requires SInv(a, b, ab, ba) && ab != [] && !b.phase.Live?
    ensures SInv(a, b, ab[1..], ba)
  {
    QueueTail(ab);
    Single(ab[0]);
  }

  lemma OkayKeeps(a: Sock, b: Sock, ab: seq<Packet>, ba: seq<Packet>, b': Sock)
    requires SInv(a, b, ab, ba) && ab != [] && ab[0].command.OKAY? && b.phase.Live?
    requires b'.mate == b'.peer != 0 && (b.mate != 0 ==> b'.mate == b.mate)
    requires b' == b.(peer := b'.peer, mate := b'.mate, read := true)
    ensures SInv(a, b', ab[1..], ba)
  {
    QueueTail(ab);
    Single(ab[0]);
  }

  /** Closing a live socket with a peer sends one CLSE and leaves what has arrived where it is. */
  lemma CloseByPeer(b: Sock, j: nat)
    requires SockOk(b) && b.phase.Live? && b.mate != 0
    ensures var e := CloseLocked(j, b, ByPeer);
            && Shape(e.sends) && Wrtes(e.sends) == 0 && Okays(e.sends) == 0 && Payload(e.sends) == []
            && Arrived(e.sock) == Arrived(b) && SockOk(e.sock)
  {
    var e := CloseLocked(j, b, ByPeer);
    Single(e.sends[0]);
    assert e.sends == [e.sends[0]];
  }

  lemma ClseForward(a: Sock, b: Sock, ab: seq<Packet>, ba: seq<Packet>, j: nat)
    requires SInv(a, b, ab, ba) && ab != [] && ab[0].command.CLSE? && b.phase.Live? && b.mate != 0
    ensures var e := CloseLocked(j, b, ByPeer); Half(a, e.sock, ab[1..], ba + e.sends)
  {
    QueueTail(ab);
    Single(ab[0]);
    CloseByPeer(b, j);
    QueueAppend(ba, CloseLocked(j, b, ByPeer).sends);
  }

  lemma ClseBackward(a: Sock, b: Sock, ab: seq<Packet>, ba: seq<Packet>, j: nat)
    requires SInv(a, b, ab, ba) && ab != [] && ab[0].command.CLSE? && b.phase.Live? && b.mate != 0
    ensures var e := CloseLocked(j, b, ByPeer); Half(e.sock, a, ba + e.sends, ab[1..])
  {
    QueueTail(ab);
    Single(ab[0]);
    CloseByPeer(b, j);
    QueueAppend(ba, CloseLocked(j, b, ByPeer).sends);
    ShapeAppend(ba, CloseLocked(j, b, ByPeer).sends);
  }

  lemma ClseKeeps(a: Sock, b: Sock, ab: seq<Packet>, ba: seq<Packet>, j: nat)
    requires SInv(a, b, ab, ba) && ab != [] && ab[0].command.CLSE? && b.phase.Live? && b.mate != 0
    ensures var e := CloseLocked(j, b, ByPeer); SInv(a, e.sock, ab[1..], ba + e.sends)
  {
    ClseForward(a, b, ab, ba, j);
    ClseBackward(a, b, ab, ba, j);
  }

  /** How delivery of a payload changes a live socket without a backlog. */
  predicate Takes(b: Sock, data: Bytes, b': Sock, sends: seq<Packet>)
  {
    && SockOk(b') && b'.mate == b.mate && b'.got == b.got && !b'.cause.ByPeer?
    && Shape(sends) && Wrtes(sends) == 0 && Payload(sends) == []
    && (b'.phase.Live? ==> NoClose(sends) && b'.read == b.read)
    && Okays(sends) + (if b'.queue != [] then 1 else 0) == (if b'.phase.Live? then 1 else 0)
    && (if b'.cause.Never? then Arrived(b') == Arrived(b) + data
        else Arrived(b') <= Arrived(b) + data)
  }

  lemma AllTaken(b: Sock, j: nat, data: Bytes, fail: bool)
    requires SockOk(b) && b.phase.Live? && b.mate != 0 && b.queue == [] && data != []
    ensures var e := Enqueue(j, b, data, |data|, fail); Takes(b, data, e.sock, e.sends)
  {
    var e := Enqueue(j, b, data, |data|, fail);
    Single(e.sends[0]);
    assert Arrived(e.sock) == Arrived(b) + data;
  }

  lemma PartTaken(b: Sock, j: nat, data: Bytes, n: nat)
    requires SockOk(b) && b.phase.Live? && b.mate != 0 && b.queue == [] && n < |data|
    ensures var e := Enqueue(j, b, data, n, false); Takes(b, data, e.sock, e.sends)
  {
    var e := Enqueue(j, b, data, n, false);
    OneInQueue(e.sock);
    Regroup(b.put, data[..n], data[n..]);
    assert data[..n] + data[n..] == data;
  }

  lemma EnqueueTakes(b: Sock, j: nat, data: Bytes, n: nat, fail: bool)
    requires SockOk(b) && b.phase.Live? && b.mate != 0 && b.queue == []
    requires n <= |data| && data != []
    ensures var e := Enqueue(j, b, data, n, fail); Takes(b, data, e.sock, e.sends)
  {
    OneInQueue(b);
    if n == |data| {
      AllTaken(b, j, data, fail);
    } else if fail {
      var e := Enqueue(j, b, data, n, fail);
      Single(e.sends[0]);
      assert Arrived(e.sock) == Arrived(b) + data[..n];
    } else {
      PartTaken(b, j, data, n);
    }
  }

  lemma WrteKeepsForward(a: Sock, b: Sock, ab: seq<Packet>, ba: seq<Packet>, b': Sock, sends: seq<Packet>)
    requires SInv(a, b, ab, ba) && ab != [] && ab[0].command.WRTE? && b.phase.Live? && b.mate != 0
    requires Takes(b, ab[0].data, b', sends)
    ensures Half(a, b', ab[1..], ba + sends)
  {
    QueueTail(ab);
    Single(ab[0]);
    QueueAppend(ba, sends);
    Regroup(Arrived(b), ab[0].data, Payload(ab[1..]));
  }

  lemma WrteKeepsBackward(a: Sock, b: Sock, ab: seq<Packet>, ba: seq<Packet>, b': Sock, sends: seq<Packet>)
    requires SInv(a, b, ab, ba) && ab != [] && ab[0].command.WRTE? && b.phase.Live? && b.mate != 0
    requires Takes(b, ab[0].data, b', sends)
    ensures Half(b', a, ba + sends, ab[1..])
  {
    QueueTail(ab);
    Single(ab[0]);
    QueueAppend(ba, sends);
    ShapeAppend(ba, sends);
  }

  lemma WrteKeeps(a: Sock, b: Sock, ab: seq<Packet>, ba: seq<Packet>, j: nat, n: nat, fail: bool)
    requires SInv(a, b, ab, ba) && ab != [] && ab[0].command.WRTE? && b.phase.Live? && b.mate != 0
    requires n <= |ab[0].data|
    ensures var e := Enqueue(j, b, ab[0].data, n, fail); SInv(a, e.sock, ab[1..], ba + e.sends)
  {
    QueueTail(ab);
    Single(ab[0]);
    var e := Enqueue(j, b, ab[0].data, n, fail);
    EnqueueTakes(b, j, ab[0].data, n, fail);
    WrteKeepsForward(a, b, ab, ba, e.sock, e.sends);
    WrteKeepsBackward(a, b, ab, ba, e.sock, e.sends);
  }

  /** Every packet of the stream, when it arrives, keeps the stream invariant. */
  lemma PacketKeeps(a: Sock, b: Sock, ab: seq<Packet>, ba: seq<Packet>, j: nat, n: nat, fail: bool)
    requires SInv(a, b, ab, ba) && ab != [] && n <= |ab[0].data|
    requires ab[0].arg0 != 0 && (b.mate == 0 || b.mate == ab[0].arg0)
    ensures var e := OnPacket(j, b, ab[0], n, fail); SInv(a, e.sock, ab[1..], ba + e.sends)
  {
    var e := OnPacket(j, b, ab[0], n, fail);
    assert ba + [] == ba;
    if !b.phase.Live? {
      IgnoredKeeps(a, b, ab, ba);
    } else if ab[0].command.OKAY? {
      OkayKeeps(a, b, ab, ba, e.sock);
    } else if ab[0].command.CLSE? {
      ClseKeeps(a, b, ab, ba, j);
    } else {
      WrteKeeps(a, b, ab, ba, j, n, fail);
    }
  }

  lemma AcceptKeeps(a: Sock, rid: nat, p: Packet)
    requires rid != 0
    requires a.mate == 0 && SockOk(a) && (a.phase.Live? || a.cause.BySelf?)
    requires p.command.OKAY?
    ensures SInv(a, Accepted(rid), [], [p])
  {
    Single(p);
  }
}
