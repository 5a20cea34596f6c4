/**
 What the stream layer guarantees over every run: one credit per direction of an open stream,
 in-order delivery, and what a receiver closed by its peer has or still holds.
 */
module StreamTheorems {
  import opened ByteSeqs
  import opened StreamSocket
  import opened StreamPair
  import opened StreamWorld

  function Last(run: seq<World>): World
    requires run != []
  {
    run[|run| - 1]
  }

  /** Packets of one command from socket i to socket j in a queue shared by all streams. */
  function Count(q: seq<Packet>, c: Command, i: nat, j: nat): nat
  {
    if q == [] then 0
    else (if q[0].command == c && q[0].arg0 == i && q[0].arg1 == j then 1 else 0) + Count(q[1..], c, i, j)
  }

  function One(b: bool): nat
  {
    if b then 1 else 0
  }

  /** The credits of the direction from socket i of machine a to socket j of machine b. */
  function Credits(w: World, i: nat, j: nat): nat
    requires i < |w.a| && j < |w.b|
  {
    Count(w.ab, OPEN, i, 0) + One(w.a[i].read) + Count(w.ab, WRTE, i, j)
    + One(w.b[j].queue != []) + Count(w.ba, OKAY, j, i)
  }

  ghost predicate OpenStream(w: World, i: nat, j: nat)
  {
    Mated(w, i, j) && w.a[i].phase.Live? && w.b[j].phase.Live?
  }

  lemma {:induction false} CountBetween(q: seq<Packet>, i: nat, j: nat)
    ensures Count(q, WRTE, i, j) == Wrtes(Between(q, i, j))
    ensures Count(q, OKAY, i, j) == Okays(Between(q, i, j))
  {
    if q != [] {
      CountBetween(q[1..], i, j);
      if Belongs(q[0], i, j) {
        assert Between(q, i, j)[1..] == Between(q[1..], i, j);
      } else {
        assert [] + Between(q[1..], i, j) == Between(q[1..], i, j);
      }
    }
  }

  lemma {:induction false} CountNone(q: seq<Packet>, i: nat)
    requires !Opening(q, i)
    ensures Count(q, OPEN, i, 0) == 0
  {
    if q != [] {
      forall k | 0 <= k < |q[1..]| ensures !(q[1..][k].command.OPEN? && q[1..][k].arg0 == i) {
        assert q[1..][k] == q[k + 1];
      }
      CountNone(q[1..], i);
    }
  }

  lemma {:induction false} CountOne(q: seq<Packet>, i: nat)
    requires OpensOnce(q) && Opening(q, i)
    requires forall k :: 0 <= k < |q| && q[k].command.OPEN? ==> q[k].arg1 == 0
    ensures Count(q, OPEN, i, 0) == 1
  {
    if q[0].command.OPEN? && q[0].arg0 == i {
      assert forall k :: 0 <= k < |q[1..]| ==> q[1..][k] == q[k + 1];
      CountNone(q[1..], i);
    } else {
      var k :| 0 <= k < |q| && q[k].command.OPEN? && q[k].arg0 == i;
      assert q[1..][k - 1] == q[k];
      CountOne(q[1..], i);
    }
  }

  lemma CreditsAre(w: World, i: nat, j: nat)
    requires WInv(w) && Mated(w, i, j)
    ensures Credits(w, i, j) == Credit(w.a[i], w.b[j], Between(w.ab, i, j), Between(w.ba, j, i))
  {
    CountBetween(w.ab, i, j);
    CountBetween(w.ba, j, i);
    forall k | 0 <= k < |w.ab| ensures !(w.ab[k].command.OPEN? && w.ab[k].arg0 == i) {
      assert PacketOk(w, w.ab[k]);
    }
    CountNone(w.ab, i);
  }

  /** In every reachable state an open stream has exactly one credit in each direction. */
  lemma CreditConservation(run: seq<World>, i: nat, j: nat)
    requires IsRun(run) && OpenStream(Last(run), i, j)
    ensures Credits(Last(run), i, j) == 1
    ensures Credits(Swap(Last(run)), j, i) == 1
  {
    var w := Last(run);
    RunInv(run);
    assert StreamOk(w, i, j);
    CreditsAre(w, i, j);
    SwapInv(w);
    assert Mated(Swap(w), j, i);
    CreditsAre(Swap(w), j, i);
  }

  /** Whatever has happened to either end, no direction ever has a second credit: at most one
      unacknowledged WRTE, and at most one packet in a receiver's backlog. */
  lemma NeverTwoCredits(run: seq<World>, i: nat, j: nat)
    requires IsRun(run) && Mated(Last(run), i, j)
    ensures Credits(Last(run), i, j) <= 1
    ensures |Last(run).b[j].queue| <= 1
  {
    RunInv(run);
    assert StreamOk(Last(run), i, j);
    CreditsAre(Last(run), i, j);
  }

  /** In-order delivery: what the receiver wrote, has queued and has in flight is what the sender
      read; once the receiver has closed, what it wrote is still a prefix of it. */
  lemma InOrderDelivery(run: seq<World>, i: nat, j: nat)
    requires IsRun(run) && Mated(Last(run), i, j)
    ensures var w := Last(run);
            && (w.b[j].phase.Live? ==>
                  w.b[j].put + Concat(w.b[j].queue) + Payload(Between(w.ab, i, j)) == w.a[i].got)
            && w.b[j].put <= w.a[i].got
  {
    RunInv(run);
    assert StreamOk(Last(run), i, j);
  }

  /**
   Graceful close. When the sender's CLSE is what closed the receiver, the sender is gone, nothing
   of the stream is in flight, and the receiver has or has queued all the sender ever read. Once it
   is destroyed it has written all of it, unless it was destroyed with bytes still queued.
   */
  lemma GracefulClose(run: seq<World>, i: nat, j: nat)
    requires IsRun(run) && Mated(Last(run), i, j) && Last(run).b[j].cause.ByPeer?
    ensures var w := Last(run);
            && !w.a[i].phase.Live?
            && (w.b[j].phase.Closing? ==> w.b[j].put + Concat(w.b[j].queue) == w.a[i].got)
            && (w.b[j].phase.Dead? ==> (w.b[j].put == w.a[i].got <==> !w.b[j].fault))
  {
    RunInv(run);
    assert StreamOk(Last(run), i, j);
  }

  /** Only one way out of closing delivers everything: a WRITE event whose writes take all of the
      queue. A failed write or an end of file read by a late READ event drops what is queued. */
  lemma ClosingEnds(id: nat, s: Sock, ev: Event)
    requires SockOk(s) && s.phase.Closing? && Enabled(s, ev)
    ensures var r := OnEvent(id, s, ev).sock;
            r.phase.Dead? ==> (r.fault <==> ev.Readable? || ev.n < |Concat(s.queue)|)
    ensures var r := OnEvent(id, s, ev).sock;
            r.phase.Dead? ==> (r.put == Arrived(s) <==> !r.fault)
  {
    OneInQueue(s);
    if ev.Writable? {
      DropBytesConcat(s.queue, ev.n);
    }
  }

  // ---- histories only grow ----

  /** What later states of the same socket keep. */
  predicate Evolves(s: Sock, s': Sock)
  {
    && s.got <= s'.got && s.put <= s'.put
    && (s.mate != 0 ==> s'.mate == s.mate)
    && (!s.phase.Live? ==> !s'.phase.Live? && s'.got == s.got && s'.cause == s.cause)
    && (s.phase.Dead? ==> s' == s)
  }

  lemma EventEvolves(i: nat, s: Sock, ev: Event)
    requires SockOk(s) && Enabled(s, ev)
    ensures Evolves(s, OnEvent(i, s, ev).sock)
  {
  }

  lemma PacketEvolves(i: nat, s: Sock, p: Packet, n: nat, fail: bool)
    requires SockOk(s) && n <= |p.data|
    ensures Evolves(s, OnPacket(i, s, p, n, fail).sock)
  {
  }

  lemma DoEvolves(w: World, act: Action, i: nat)
    requires WInv(w) && Can(w, act) && i < |w.a|
    ensures i < |Do(w, act).a| && Evolves(w.a[i], Do(w, act).a[i])
  {
    match act {
      case Connect(_) =>
      case Local(id, ev) => EventEvolves(id, w.a[id], ev);
      case Deliver(service, n, fail) =>
        var p := w.ba[0];
        if !p.command.OPEN? && 0 < p.arg1 < |w.a| {
          PacketEvolves(p.arg1, w.a[p.arg1], p, n, fail);
        }
    }
  }

  lemma StepEvolves(w: World, w': World, i: nat)
    requires WInv(w) && Step(w, w') && i < |w.a|
    ensures i < |w'.a| && Evolves(w.a[i], w'.a[i])
  {
    if act :| Can(w, act) && w' == Do(w, act) {
      DoEvolves(w, act, i);
    }
  }

  /** A sender's input is complete once it is closed: no later state of any run changes it, so the
      bytes of GracefulClose are all the bytes there will ever be. */
  lemma {:induction false} RunEvolves(run: seq<World>, k: nat, i: nat)
    requires IsRun(run) && k < |run| && i < |run[k].a|
    ensures i < |Last(run).a| && Evolves(run[k].a[i], Last(run).a[i])
    decreases |run|
  {
    if k < |run| - 1 {
      var pre := run[..|run| - 1];
      RunEvolves(pre, k, i);
      RunInv(pre);
      StepEvolves(Last(pre), Last(run), i);
    }
  }
}
