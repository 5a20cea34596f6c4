/**
 What streams can still do: the OPEN of a live socket without a peer, or the answer to it, is always
 under way, and while both ends of a stream are open the machines can bring its credit back to its
 sender. A stream with one end gone may have no way on; StreamHalfOpen says which.
 */
module StreamProgress {
  import opened ByteSeqs
  import opened StreamSocket
  import opened StreamPair
  import opened StreamWorld
  import opened StreamTheorems

  // ---- every OPEN is answered ----

  ghost predicate Refusing(q: seq<Packet>, i: nat)
  {
    exists k :: 0 <= k < |q| && q[k].command.CLSE? && q[k].arg0 == 0 && q[k].arg1 == i
  }

  /** A live socket without a peer has its OPEN in flight, was accepted, or is being refused. */
  ghost predicate Answered(w: World, i: nat)
    requires i < |w.a|
  {
    w.a[i].phase.Live? && w.a[i].mate == 0 ==>
      Opening(w.ab, i) || !Unclaimed(w.b, i) || Refusing(w.ba, i)
  }

  ghost predicate AllAnswered(w: World)
  {
    && (forall i: nat :: 0 < i < |w.a| ==> Answered(w, i))
    && (forall j: nat :: 0 < j < |w.b| ==> Answered(Swap(w), j))
  }

  lemma OpeningAppend(q: seq<Packet>, r: seq<Packet>, i: nat)
    ensures Opening(q, i) ==> Opening(q + r, i)
    ensures Refusing(q, i) ==> Refusing(q + r, i)
  {
    if Opening(q, i) {
      var k :| 0 <= k < |q| && q[k].command.OPEN? && q[k].arg0 == i;
      assert (q + r)[k] == q[k];
    }
    if Refusing(q, i) {
      var k :| 0 <= k < |q| && q[k].command.CLSE? && q[k].arg0 == 0 && q[k].arg1 == i;
      assert (q + r)[k] == q[k];
    }
  }

  lemma OpeningTail(q: seq<Packet>, i: nat)
    requires q != []
    ensures Opening(q, i) && !(q[0].command.OPEN? && q[0].arg0 == i) ==> Opening(q[1..], i)
    ensures Refusing(q, i) && !(q[0].command.CLSE? && q[0].arg0 == 0 && q[0].arg1 == i) ==>
              Refusing(q[1..], i)
  {
    assert forall k :: 0 < k < |q| ==> q[1..][k - 1] == q[k];
  }

  lemma NearAnswered(w: World, act: Action, i: nat)
    requires WInv(w) && Can(w, act) && 0 < i < |w.a| && Answered(w, i)
    ensures 0 < i < |Do(w, act).a| && Answered(Do(w, act), i)
  {
    var w' := Do(w, act);
    DoEvolves(w, act, i);
    var sends := w'.ab[|w.ab|..];
    assert w'.ab == w.ab + sends;
    OpeningAppend(w.ab, sends, i);
    if act.Deliver? {
      OpeningTail(w.ba, i);
      assert PacketOk(Swap(w), w.ba[0]);
    }
  }

  lemma StaysClaimed(w: World, act: Action, j: nat)
    requires WInv(w) && Can(w, act) && j != 0 && !Unclaimed(w.a, j)
    ensures !Unclaimed(Do(w, act).a, j)
  {
    var i :| 0 <= i < |w.a| && w.a[i].mate == j;
    DoEvolves(w, act, i);
  }

  lemma FarAnswered(w: World, act: Action, j: nat)
    requires WInv(w) && Can(w, act) && 0 < j < |w.b| && Answered(Swap(w), j)
    ensures Answered(Swap(Do(w, act)), j)
  {
    var w' := Do(w, act);
    var sends := w'.ab[|w.ab|..];
    assert w'.ab == w.ab + sends;
    OpeningAppend(w.ab, sends, j);
    if !Unclaimed(w.a, j) {
      StaysClaimed(w, act, j);
    }
    if act.Deliver? {
      OpeningTail(w.ba, j);
      assert PacketOk(Swap(w), w.ba[0]);
      if w.ba[0].command.OPEN? && w.ba[0].arg0 == j {
        if act.service {
          assert w'.a[|w.a|].mate == j;
        } else {
          assert w'.ab[|w.ab|] == Packet(CLSE, 0, j, []);
        }
      }
    }
  }

  lemma NewAnswered(w: World, act: Action, i: nat)
    requires Can(w, act) && |w.a| <= i < |Do(w, act).a|
    requires WInv(w)
    ensures Answered(Do(w, act), i)
  {
    var w' := Do(w, act);
    if act.Connect? {
      assert w'.ab[|w.ab|] == Packet(OPEN, i, 0, act.destination);
    } else {
      assert PacketOk(Swap(w), w.ba[0]);
    }
  }

  lemma DoAnswers(w: World, act: Action)
    requires WInv(w) && Can(w, act) && AllAnswered(w)
    ensures AllAnswered(Do(w, act))
  {
    var w' := Do(w, act);
    forall i: nat | 0 < i < |w'.a| ensures Answered(w', i) {
      if i < |w.a| {
        NearAnswered(w, act, i);
      } else {
        NewAnswered(w, act, i);
      }
    }
    forall j: nat | 0 < j < |w'.b| ensures Answered(Swap(w'), j) {
      FarAnswered(w, act, j);
    }
  }

  lemma SwapAnswered(w: World)
    requires AllAnswered(w)
    ensures AllAnswered(Swap(w))
  {
    assert Swap(Swap(w)) == w;
  }

  lemma {:induction false} RunAnswered(run: seq<World>)
    requires IsRun(run)
    ensures AllAnswered(Last(run))
  {
    if |run| > 1 {
      var pre := run[..|run| - 1];
      var w, w' := Last(pre), Last(run);
      RunAnswered(pre);
      RunInv(pre);
      assert Step(w, w');
      if act :| Can(w, act) && w' == Do(w, act) {
        DoAnswers(w, act);
      } else {
        var act :| Can(Swap(w), act) && w' == Swap(Do(Swap(w), act));
        SwapInv(w);
        SwapAnswered(w);
        DoAnswers(Swap(w), act);
        SwapAnswered(Do(Swap(w), act));
      }
    }
  }

  /** The credit of a stream that is still being opened is its OPEN, of which there is one. */
  lemma OpeningCredit(run: seq<World>, i: nat)
    requires IsRun(run) && 0 < i < |Last(run).a|
    requires Last(run).a[i].phase.Live? && Last(run).a[i].mate == 0 && Unclaimed(Last(run).b, i)
    ensures !Last(run).a[i].read && Last(run).a[i].queue == []
    ensures Count(Last(run).ab, OPEN, i, 0) == 1 || Refusing(Last(run).ba, i)
  {
    var w := Last(run);
    RunInv(run);
    RunAnswered(run);
    assert Answered(w, i);
    if Opening(w.ab, i) {
      assert forall k :: 0 <= k < |w.ab| ==> PacketOk(w, w.ab[k]);
      CountOne(w.ab, i);
    }
  }

  // ---- credits come back ----

  /** How far the credit of the direction from i to j is from its sender. */
  ghost function Stage(w: World, i: nat, j: nat): nat
    requires i < |w.a| && j < |w.b|
  {
    if w.a[i].read then 0
    else if Wrtes(Between(w.ab, i, j)) > 0 then 3
    else if w.b[j].queue != [] then 2
    else 1
  }

  /** Sockets other than the addressee of a packet are untouched by it. */
  lemma DeliverAlive(w: World, i: nat, j: nat)
    requires WInv(w) && OpenStream(w, i, j) && w.ba != []
    ensures var act := Deliver(true, |w.ba[0].data|, false);
            && Can(w, act) && OpenStream(Do(w, act), i, j)
            && Wrtes(Between(Do(w, act).ab, i, j)) == Wrtes(Between(w.ab, i, j))
  {
    var p := w.ba[0];
    var act := Deliver(true, |p.data|, false);
    var (socks, sends) := Handle(w.a, p, true, |p.data|, false);
    assert StreamOk(w, i, j);
    assert PacketOk(Swap(w), p);
    if p.command.OPEN? {
      SentElsewhere(w.ab, sends, i, j);
    } else if p.arg0 == 0 {
      assert p.arg1 != i;
      assert sends == [];
      SentElsewhere(w.ab, sends, i, j);
    } else {
      Addressed(w);
      PacketFrame(p.arg1, w.a[p.arg1], p, |p.data|, false);
      if p.arg1 == i {
        assert p.arg0 == j;
        OwnPacketAlive(w, i, j);
      } else {
        SentElsewhere(w.ab, sends, i, j);
      }
    }
  }

  lemma OwnPacketAlive(w: World, i: nat, j: nat)
    requires WInv(w) && OpenStream(w, i, j) && w.ba != [] && Belongs(w.ba[0], j, i) && j != 0
    ensures var act := Deliver(true, |w.ba[0].data|, false);
            && OpenStream(Do(w, act), i, j)
            && Wrtes(Between(Do(w, act).ab, i, j)) == Wrtes(Between(w.ab, i, j))
  {
    var p := w.ba[0];
    Addressed(w);
    assert StreamOk(w, i, j);
    var q := Between(w.ba, j, i);
    assert q[0] == p && NoClose(q);
    PacketFrame(i, w.a[i], p, |p.data|, false);
    AnswersAlive(i, w.a[i], p);
    var e := OnPacket(i, w.a[i], p, |p.data|, false);
    SentHere(w.ab, e.sends, i, j);
    QueueAppend(Between(w.ab, i, j), e.sends);
  }

  /** A packet other than CLSE, with a write that succeeds, leaves its socket live and has it send
      no data. */
  lemma AnswersAlive(i: nat, s: Sock, p: Packet)
    requires s.phase.Live? && !p.command.CLSE?
    ensures var e := OnPacket(i, s, p, |p.data|, false); e.sock.phase.Live? && Wrtes(e.sends) == 0
  {
    var e := OnPacket(i, s, p, |p.data|, false);
    if e.sends != [] {
      Single(e.sends[0]);
      assert e.sends == [e.sends[0]];
    }
  }

  ghost predicate IsPath(path: seq<World>)
  {
    path != [] && forall k :: 0 < k < |path| ==> Step(path[k - 1], path[k])
  }

  /** One step towards the sender. */
  lemma Advance(w: World, i: nat, j: nat) returns (w': World)
    requires WInv(w) && OpenStream(w, i, j) && !w.a[i].read
    ensures Step(w, w') && WInv(w') && OpenStream(w', i, j)
    ensures var s, s' := Stage(w, i, j), Stage(w', i, j);
            s' < s || (s' == s == 3 && |w'.ab| < |w.ab|) || (s' == s == 1 && |w'.ba| < |w.ba|)
  {
    var stage := Stage(w, i, j);
    if stage == 3 {
      w' := DeliverData(w, i, j);
    } else if stage == 2 {
      w' := DrainBacklog(w, i, j);
    } else {
      w' := DeliverAnswer(w, i, j);
    }
    StepKeeps(w, w');
  }

  lemma DeliverAnswer(w: World, i: nat, j: nat) returns (w': World)
    requires WInv(w) && OpenStream(w, i, j) && Stage(w, i, j) == 1
    ensures Step(w, w') && OpenStream(w', i, j) && Stage(w', i, j) <= 1 && |w'.ba| < |w.ba|
  {
    assert StreamOk(w, i, j);
    assert Okays(Between(w.ba, j, i)) == 1;
    assert w.ba != [];
    DeliverAlive(w, i, j);
    w' := Do(w, Deliver(true, |w.ba[0].data|, false));
  }

  lemma DeliverData(w: World, i: nat, j: nat) returns (w': World)
    requires WInv(w) && OpenStream(w, i, j) && Stage(w, i, j) == 3
    ensures Step(w, w') && OpenStream(w', i, j) && |w'.ab| < |w.ab| && w'.a == w.a
  {
    var v := Swap(w);
    assert w.ab != [];
    SwapInv(w);
    assert OpenStream(v, j, i);
    DeliverAlive(v, j, i);
    w' := Swap(Do(v, Deliver(true, |w.ab[0].data|, false)));
  }

  lemma DrainBacklog(w: World, i: nat, j: nat) returns (w': World)
    requires WInv(w) && OpenStream(w, i, j) && Stage(w, i, j) == 2
    ensures Step(w, w') && OpenStream(w', i, j) && Stage(w', i, j) <= 1
  {
    var v := Swap(w);
    assert StreamOk(w, i, j);
    var act := Local(j, Writable(|Concat(w.b[j].queue)|, false));
    assert Can(v, act);
    w' := Swap(Do(v, act));
    OneInQueue(w.b[j]);
    DropBytesConcat(w.b[j].queue, |Concat(w.b[j].queue)|);
    assert w'.ab == w.ab;
    assert w'.b[j].queue == [];
  }

  lemma PathCons(w: World, rest: seq<World>)
    requires IsPath(rest) && Step(w, rest[0])
    ensures IsPath([w] + rest) && Last([w] + rest) == Last(rest)
  {
    var path := [w] + rest;
    forall k | 0 < k < |path| ensures Step(path[k - 1], path[k]) {
      assert path[k] == rest[k - 1];
      assert k > 1 ==> path[k - 1] == rest[k - 2];
    }
  }

  /** From every reachable state, whatever other streams are doing, there is a way on that gives
      the sender of an open stream leave to read again. */
  lemma CreditReturns(w: World, i: nat, j: nat) returns (path: seq<World>)
    requires WInv(w) && OpenStream(w, i, j)
    ensures IsPath(path) && path[0] == w
    ensures OpenStream(Last(path), i, j) && Last(path).a[i].read
    decreases Stage(w, i, j), if Stage(w, i, j) == 3 then |w.ab| else |w.ba|
  {
    if w.a[i].read {
      path := [w];
    } else {
      var w' := Advance(w, i, j);
      var rest := CreditReturns(w', i, j);
      PathCons(w, rest);
      path := [w] + rest;
    }
  }
}
