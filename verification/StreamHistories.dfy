/**
 The histories of a socket, from the moves of a run: the bytes it has read are those the reads gave,
 the bytes it has written those the writes took, and it is open for exactly as long as nothing that
 ends it has happened.
 */
module StreamHistories {
  import opened ByteSeqs
  import opened StreamSocket
  import opened StreamPair
  import opened StreamWorld
  import opened StreamTheorems
  import opened StreamTraces

  // ---- what a move does to one socket ----

  /** The bytes that a READ event gives to a socket that is open. */
  function ReadBy(s: Sock, ev: Event): Bytes
  {
    if ev.Readable? && s.phase.Live? then ev.chunk else []
  }

  /** The bytes that the descriptor of a socket takes: so many of those that wait. */
  function WrittenBy(s: Sock, ev: Event): Bytes
    requires Enabled(s, ev)
  {
    if ev.Writable? then Concat(s.queue)[..ev.n] else []
  }

  /** The end of its input, a write that fails short, and an abort end a socket. */
  predicate EndedBy(s: Sock, ev: Event)
  {
    match ev
    case Readable(_, eof) => eof
    case Writable(n, fail) => fail && n < |Concat(s.queue)|
    case Abort(_) => true
  }

  /** The payload of a packet that comes from the peer and finds nothing waiting: so much of it is
      written at once. */
  function WrittenOf(s: Sock, p: Packet, n: nat): Bytes
    requires n <= |p.data|
  {
    if s.phase.Live? && p.command.WRTE? && p.arg0 != 0 && p.arg0 == s.peer && s.queue == [] then p.data[..n] else []
  }

  /** A CLSE of the peer or a refusal ends a socket, and so does a payload that cannot be written. */
  predicate EndedWith(s: Sock, p: Packet, n: nat, fail: bool)
  {
    || (p.command.CLSE? && (p.arg0 == 0 || p.arg0 == s.peer))
    || (p.command.WRTE? && p.arg0 != 0 && p.arg0 == s.peer && s.queue == [] && fail && n < |p.data|)
  }

  lemma EventHistory(id: nat, s: Sock, ev: Event)
    requires SockOk(s) && Enabled(s, ev)
    ensures var r := OnEvent(id, s, ev).sock;
            && r.got == s.got + ReadBy(s, ev) && r.put == s.put + WrittenBy(s, ev)
            && (r.phase.Live? <==> s.phase.Live? && !EndedBy(s, ev))
  {
    assert s.got + [] == s.got && s.put + [] == s.put;
  }

  lemma PacketHistory(id: nat, s: Sock, p: Packet, n: nat, fail: bool)
    requires SockOk(s) && n <= |p.data|
    ensures var r := OnPacket(id, s, p, n, fail).sock;
            && r.got == s.got && r.put == s.put + WrittenOf(s, p, n)
            && (r.phase.Live? <==> s.phase.Live? && !EndedWith(s, p, n, fail))
  {
    assert s.put + [] == s.put;
  }

  // ---- one machine of a world ----

  /** The world as the machine sees it that makes the moves with this flag. */
  function Seen(w: World, far: bool): World
  {
    if far then Swap(w) else w
  }

  /** The move is an event on socket j of that machine. */
  predicate EventOn(w: World, m: Move, far: bool, j: nat)
  {
    m.far == far && m.act.Local? && m.act.id == j < |Seen(w, far).a|
  }

  /** The move is a packet delivered to socket j of that machine. */
  predicate PacketTo(w: World, m: Move, far: bool, j: nat)
    requires CanMove(w, m)
  {
    && m.far == far && m.act.Deliver? && !Seen(w, far).ba[0].command.OPEN?
    && Seen(w, far).ba[0].arg1 == j < |Seen(w, far).a|
  }

  function Reads(w: World, m: Move, far: bool, j: nat): Bytes
  {
    if EventOn(w, m, far, j) then ReadBy(Seen(w, far).a[j], m.act.ev) else []
  }

  function Writes(w: World, m: Move, far: bool, j: nat): Bytes
    requires CanMove(w, m)
  {
    if EventOn(w, m, far, j) then WrittenBy(Seen(w, far).a[j], m.act.ev)
    else if PacketTo(w, m, far, j) then WrittenOf(Seen(w, far).a[j], Seen(w, far).ba[0], m.act.n)
    else []
  }

  predicate Ends(w: World, m: Move, far: bool, j: nat)
    requires CanMove(w, m)
  {
    if EventOn(w, m, far, j) then EndedBy(Seen(w, far).a[j], m.act.ev)
    else PacketTo(w, m, far, j) && EndedWith(Seen(w, far).a[j], Seen(w, far).ba[0], m.act.n, m.act.fail)
  }

  lemma SeenOk(w: World, far: bool, j: nat)
    requires WInv(w) && j < |Seen(w, far).a|
    ensures SockOk(Seen(w, far).a[j])
  {
    assert SideOk(w) && SideOk(Swap(w));
  }

  lemma MoveHistory(w: World, m: Move, far: bool, j: nat)
    requires WInv(w) && CanMove(w, m) && 0 < j < |Seen(w, far).a|
    ensures j < |Seen(After(w, m), far).a|
    ensures var s, s' := Seen(w, far).a[j], Seen(After(w, m), far).a[j];
            && s'.got == s.got + Reads(w, m, far, j) && s'.put == s.put + Writes(w, m, far, j)
            && (s'.phase.Live? <==> s.phase.Live? && !Ends(w, m, far, j))
  {
    var s := Seen(w, far).a[j];
    SeenOk(w, far, j);
    if EventOn(w, m, far, j) {
      EventHistory(j, s, m.act.ev);
    } else if PacketTo(w, m, far, j) {
      PacketHistory(j, s, Seen(w, far).ba[0], m.act.n, m.act.fail);
    } else {
      assert s.got + [] == s.got && s.put + [] == s.put;
      Untouched(w, m, far, j);
    }
  }

  lemma Untouched(w: World, m: Move, far: bool, j: nat)
    requires CanMove(w, m) && 0 < j < |Seen(w, far).a| && !EventOn(w, m, far, j) && !PacketTo(w, m, far, j)
    ensures j < |Seen(After(w, m), far).a| && Seen(After(w, m), far).a[j] == Seen(w, far).a[j]
  {
  }

  // ---- whole runs ----

  /** All that the moves so far gave the socket to read. */
  function AllRead(run: seq<World>, moves: seq<Move>, far: bool, j: nat, n: nat): Bytes
    requires n <= |moves| < |run|
  {
    if n == 0 then [] else AllRead(run, moves, far, j, n - 1) + Reads(run[n - 1], moves[n - 1], far, j)
  }

  /** All that the moves so far wrote for it. */
  function AllWritten(run: seq<World>, moves: seq<Move>, far: bool, j: nat, n: nat): Bytes
    requires n <= |moves| < |run| && forall k :: 0 <= k < n ==> CanMove(run[k], moves[k])
  {
    if n == 0 then [] else AllWritten(run, moves, far, j, n - 1) + Writes(run[n - 1], moves[n - 1], far, j)
  }

  ghost predicate Ended(run: seq<World>, moves: seq<Move>, far: bool, j: nat, n: nat)
    requires n <= |moves| < |run| && forall k :: 0 <= k < n ==> CanMove(run[k], moves[k])
  {
    exists k :: 0 <= k < n && Ends(run[k], moves[k], far, j)
  }

  /** Nothing happens to a socket before it is there. */
  lemma {:induction false} NothingBefore(run: seq<World>, moves: seq<Move>, far: bool, j: nat, n: nat)
    requires IsTrace(run, moves) && n <= |moves| && j >= |Seen(run[n], far).a|
    ensures AllRead(run, moves, far, j, n) == [] && AllWritten(run, moves, far, j, n) == []
    ensures !Ended(run, moves, far, j, n)
  {
    if n > 0 {
      NoneLost(run, moves, n - 1, n);
      NothingBefore(run, moves, far, j, n - 1);
    }
  }

  lemma BornOpen(w: World, m: Move, far: bool, j: nat)
    requires CanMove(w, m) && |Seen(w, far).a| <= j < |Seen(After(w, m), far).a|
    ensures var s := Seen(After(w, m), far).a[j]; s.got == [] && s.put == [] && s.phase.Live?
    ensures Reads(w, m, far, j) == [] && Writes(w, m, far, j) == [] && !Ends(w, m, far, j)
  {
  }

  /** For every run and every socket: it has read what the READ events gave it while it was open, in
      order, and written what the writes took, and it is open if and only if nothing has ended it. */
  lemma {:induction false} History(run: seq<World>, moves: seq<Move>, far: bool, j: nat, n: nat)
    requires IsTrace(run, moves) && n <= |moves| && 0 < j < |Seen(run[n], far).a|
    ensures var s := Seen(run[n], far).a[j];
            && s.got == AllRead(run, moves, far, j, n) && s.put == AllWritten(run, moves, far, j, n)
            && (s.phase.Live? <==> !Ended(run, moves, far, j, n))
  {
    if n > 0 {
      assert CanMove(run[n - 1], moves[n - 1]) && run[n - 1 + 1] == After(run[n - 1], moves[n - 1]);
      if j < |Seen(run[n - 1], far).a| {
        History(run, moves, far, j, n - 1);
        TraceInv(run, moves, n - 1);
        MoveHistory(run[n - 1], moves[n - 1], far, j);
      } else {
        NothingBefore(run, moves, far, j, n - 1);
        BornOpen(run[n - 1], moves[n - 1], far, j);
      }
      EndedLast(run, moves, far, j, n);
    }
  }

  lemma EndedLast(run: seq<World>, moves: seq<Move>, far: bool, j: nat, n: nat)
    requires IsTrace(run, moves) && 0 < n <= |moves|
    ensures Ended(run, moves, far, j, n) <==>
              Ended(run, moves, far, j, n - 1) || Ends(run[n - 1], moves[n - 1], far, j)
  {
  }

  /** In-order delivery from descriptor to descriptor: whatever the writes at one end of a stream have
      taken is a prefix of what the reads at the other end gave; and while nothing has ended the one,
      what is missing is waiting there or in flight. */
  lemma DescriptorToDescriptor(run: seq<World>, moves: seq<Move>, i: nat, j: nat)
    requires IsTrace(run, moves) && Mated(Last(run), i, j)
    ensures var n := |moves|;
            var read, written := AllRead(run, moves, false, i, n), AllWritten(run, moves, true, j, n);
            && written <= read
            && (!Ended(run, moves, true, j, n) ==>
                  written + Concat(Last(run).b[j].queue) + Payload(Between(Last(run).ab, i, j)) == read)
  {
    TraceIsRun(run, moves);
    InOrderDelivery(run, i, j);
    History(run, moves, false, i, |moves|);
    History(run, moves, true, j, |moves|);
  }
}
