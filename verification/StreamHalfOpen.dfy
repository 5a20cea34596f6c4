/**
 Streams with one end gone. An end that is closed tells the other with a CLSE, but not always: one
 that never learned its peer has nobody to tell, and one that is closed because its transport went
 away does not. The other end then stays open until something on its own side closes it.
 */
module StreamHalfOpen {
  import opened ByteSeqs
  import opened StreamSocket
  import opened StreamPair
  import opened StreamWorld
  import opened StreamTheorems
  import opened StreamTraces

  /** A CLSE from socket i of machine a to socket j of machine b is on its way. */
  ghost predicate CloseSent(w: World, i: nat, j: nat)
  {
    !NoClose(Between(w.ab, i, j))
  }

  /** Socket j is open and its mate i is not. */
  ghost predicate HalfOpen(w: World, i: nat, j: nat)
  {
    Mated(w, i, j) && w.b[j].phase.Live? && !w.a[i].phase.Live?
  }

  /** The end that is left hears of it exactly if the other knew its peer and was not silenced. */
  ghost predicate Told(w: World, i: nat, j: nat, silenced: bool)
  {
    HalfOpen(w, i, j) ==> (CloseSent(w, i, j) <==> w.a[i].mate != 0 && !silenced)
  }

  // ---- closing, and what it sends ----

  lemma CloseAppend(q: seq<Packet>, r: seq<Packet>)
    ensures NoClose(q + r) <==> NoClose(q) && NoClose(r)
  {
    assert forall k :: 0 <= k < |q| ==> (q + r)[k] == q[k];
    assert forall k :: 0 <= k < |r| ==> (q + r)[|q| + k] == r[k];
  }

  lemma EventTells(i: nat, s: Sock, ev: Event)
    requires SockOk(s) && Enabled(s, ev)
    ensures var e := OnEvent(i, s, ev);
            && (!s.phase.Live? ==> e.sends == [])
            && (s.phase.Live? && !e.sock.phase.Live? ==>
                  (NoClose(e.sends) <==> s.mate == 0 || ev == Abort(false)))
  {
    var e := OnEvent(i, s, ev);
    if s.phase.Live? && !e.sock.phase.Live? && s.mate != 0 && ev != Abort(false) {
      assert e.sends[|e.sends| - 1].command.CLSE?;
    }
  }

  lemma PacketTells(i: nat, s: Sock, p: Packet, n: nat, fail: bool)
    requires SockOk(s) && n <= |p.data| && p.arg0 != 0
    ensures var e := OnPacket(i, s, p, n, fail);
            && (!s.phase.Live? ==> e == Effect(s, []))
            && (s.phase.Live? && !e.sock.phase.Live? && !p.command.CLSE? ==> s.mate != 0 && !NoClose(e.sends))
  {
    var e := OnPacket(i, s, p, n, fail);
    if s.phase.Live? && !e.sock.phase.Live? && !p.command.CLSE? {
      assert e.sends[0].command.CLSE?;
    }
  }

  // ---- a step of the end that may go ----

  lemma OwnTold(w: World, ev: Event, i: nat, j: nat, silenced: bool)
    requires WInv(w) && Can(w, Local(i, ev)) && Told(w, i, j, silenced) && Mated(w, i, j)
    requires w.a[i].phase.Live? ==> !silenced
    ensures Told(Do(w, Local(i, ev)), i, j, silenced || ev == Abort(false))
  {
    var e := OnEvent(i, w.a[i], ev);
    assert StreamOk(w, i, j);
    assert w.a[i].mate == j || w.a[i].mate == 0;
    EventFrame(i, w.a[i], ev);
    SentHere(w.ab, e.sends, i, j);
    CloseAppend(Between(w.ab, i, j), e.sends);
    EventTells(i, w.a[i], ev);
  }

  lemma LocalTold(w: World, id: nat, ev: Event, i: nat, j: nat, silenced: bool)
    requires WInv(w) && Can(w, Local(id, ev)) && Told(w, i, j, silenced)
    requires i < |w.a| && w.a[i].phase.Live? ==> !silenced
    ensures Told(Do(w, Local(id, ev)), i, j, silenced || (id == i && ev == Abort(false)))
  {
    EventFrame(id, w.a[id], ev);
    if id != i {
      if 0 < i < |w.a| && 0 < j < |w.b| {
        SameTold(w, Do(w, Local(id, ev)), OnEvent(id, w.a[id], ev).sends, i, j, silenced);
      }
    } else if Mated(w, i, j) {
      OwnTold(w, ev, i, j, silenced);
    }
  }

  /** A step that leaves the stream alone. */
  lemma SameTold(w: World, w': World, sends: seq<Packet>, i: nat, j: nat, silenced: bool)
    requires Told(w, i, j, silenced) && 0 < i < |w.a| && 0 < j < |w.b| && i < |w'.a| && j < |w'.b|
    requires w'.a[i] == w.a[i] && w'.b[j] == w.b[j] && w'.ab == w.ab + sends
    requires forall k :: 0 <= k < |sends| ==> !Belongs(sends[k], i, j)
    ensures Told(w', i, j, silenced)
  {
    SentElsewhere(w.ab, sends, i, j);
  }

  lemma ConnectTold(w: World, to: Bytes, i: nat, j: nat, silenced: bool)
    requires WInv(w) && Told(w, i, j, silenced)
    ensures Told(Do(w, Connect(to)), i, j, silenced)
  {
    if 0 < i < |w.a| && 0 < j < |w.b| {
      SameTold(w, Do(w, Connect(to)), [Packet(OPEN, |w.a|, 0, to)], i, j, silenced);
    }
  }

  lemma AnswerTold(w: World, act: Action, i: nat, j: nat, silenced: bool)
    requires WInv(w) && act.Deliver? && Can(w, act) && Told(w, i, j, silenced)
    requires w.ba[0].command.OPEN? || w.ba[0].arg0 == 0
    ensures Told(Do(w, act), i, j, silenced)
  {
    var w', p := Do(w, act), w.ba[0];
    var (socks, sends) := Handle(w.a, p, act.service, act.n, act.fail);
    assert PacketOk(Swap(w), p);
    if HalfOpen(w', i, j) {
      assert Mated(w, i, j) && w'.a[i] == w.a[i];
      SameTold(w, w', sends, i, j, silenced);
    }
  }

  lemma PacketTold(w: World, act: Action, i: nat, j: nat, silenced: bool)
    requires WInv(w) && act.Deliver? && Can(w, act) && Told(w, i, j, silenced)
    requires i < |w.a| && w.a[i].phase.Live? ==> !silenced
    requires !w.ba[0].command.OPEN? && w.ba[0].arg0 != 0
    ensures Told(Do(w, act), i, j, silenced)
  {
    var w', p := Do(w, act), w.ba[0];
    var e := OnPacket(p.arg1, w.a[p.arg1], p, act.n, act.fail);
    Addressed(w);
    PacketFrame(p.arg1, w.a[p.arg1], p, act.n, act.fail);
    if HalfOpen(w', i, j) {
      if p.arg1 == i {
        assert p.arg0 == j;
        OwnPacketTold(w, act, j, silenced);
      } else {
        SameTold(w, w', e.sends, i, j, silenced);
      }
    }
  }

  lemma OwnPacketTold(w: World, act: Action, j: nat, silenced: bool)
    requires WInv(w) && act.Deliver? && Can(w, act)
    requires !w.ba[0].command.OPEN? && w.ba[0].arg0 == j != 0 && w.ba[0].arg1 < |w.a|
    requires Told(w, w.ba[0].arg1, j, silenced) && (w.a[w.ba[0].arg1].phase.Live? ==> !silenced)
    ensures Told(Do(w, act), w.ba[0].arg1, j, silenced)
  {
    var p := w.ba[0];
    var i := p.arg1;
    var e := OnPacket(i, w.a[i], p, act.n, act.fail);
    Addressed(w);
    PacketFrame(i, w.a[i], p, act.n, act.fail);
    PacketTells(i, w.a[i], p, act.n, act.fail);
    assert StreamOk(w, i, j);
    SentHere(w.ab, e.sends, i, j);
    CloseAppend(Between(w.ab, i, j), e.sends);
  }

  lemma NearTold(w: World, act: Action, i: nat, j: nat, silenced: bool)
    requires WInv(w) && Can(w, act) && Told(w, i, j, silenced)
    requires i < |w.a| && w.a[i].phase.Live? ==> !silenced
    ensures Told(Do(w, act), i, j, silenced || act == Local(i, Abort(false)))
  {
    match act {
      case Connect(to) => ConnectTold(w, to, i, j, silenced);
      case Local(id, ev) => LocalTold(w, id, ev, i, j, silenced);
      case Deliver(_, _, _) =>
        if w.ba[0].command.OPEN? || w.ba[0].arg0 == 0 {
          AnswerTold(w, act, i, j, silenced);
        } else {
          PacketTold(w, act, i, j, silenced);
        }
    }
  }

  // ---- a step of the end that may be left ----

  lemma HeadClose(q: seq<Packet>)
    requires q != [] && !q[0].command.CLSE?
    ensures NoClose(q[1..]) <==> NoClose(q)
  {
    assert forall k :: 0 < k < |q| ==> q[1..][k - 1] == q[k];
  }

  /** The stream of socket i of machine b with socket j of machine a. */
  lemma TakenTold(w: World, act: Action, i: nat, j: nat, silenced: bool)
    requires WInv(w) && act.Deliver? && Can(w, act) && Told(Swap(w), i, j, silenced)
    requires !w.ba[0].command.OPEN? && w.ba[0].arg0 != 0
    ensures Told(Swap(Do(w, act)), i, j, silenced)
  {
    var w' := Do(w, act);
    var p := w.ba[0];
    Addressed(w);
    PacketFrame(p.arg1, w.a[p.arg1], p, act.n, act.fail);
    if HalfOpen(Swap(w'), i, j) {
      assert Mated(Swap(w), i, j);
      if Belongs(p, i, j) {
        TakenHere(w.ba, i, j);
        if !p.command.CLSE? {
          HeadClose(Between(w.ba, i, j));
        }
      } else {
        TakenElsewhere(w.ba, i, j);
      }
    }
  }

  lemma AcceptTold(w: World, act: Action, i: nat, silenced: bool)
    requires WInv(w) && act.Deliver? && Can(w, act) && w.ba[0].command.OPEN?
    ensures Told(Swap(Do(w, act)), i, |w.a|, silenced)
  {
    assert PacketOk(Swap(w), w.ba[0]);
    if act.service {
      AcceptedQueues(w, act.n, act.fail);
    }
  }

  lemma OpenTold(w: World, act: Action, i: nat, j: nat, silenced: bool)
    requires WInv(w) && act.Deliver? && Can(w, act) && Told(Swap(w), i, j, silenced)
    requires w.ba[0].command.OPEN? || w.ba[0].arg0 == 0
    ensures Told(Swap(Do(w, act)), i, j, silenced)
  {
    var w' := Do(w, act);
    assert PacketOk(Swap(w), w.ba[0]);
    if HalfOpen(Swap(w'), i, j) {
      if j < |w.a| {
        assert w'.a[j].mate == w.a[j].mate;
        TakenElsewhere(w.ba, i, j);
      } else {
        AcceptTold(w, act, i, silenced);
      }
    }
  }

  lemma FarTold(w: World, act: Action, i: nat, j: nat, silenced: bool)
    requires WInv(w) && Can(w, act) && Told(Swap(w), i, j, silenced)
    ensures Told(Swap(Do(w, act)), i, j, silenced)
  {
    match act {
      case Connect(_) =>
      case Local(id, ev) => EventFrame(id, w.a[id], ev);
      case Deliver(_, _, _) =>
        if w.ba[0].command.OPEN? || w.ba[0].arg0 == 0 {
          OpenTold(w, act, i, j, silenced);
        } else {
          TakenTold(w, act, i, j, silenced);
        }
    }
  }

  // ---- every trace ----

  /** Socket i of machine a is closed without its peer being told. */
  predicate Silences(m: Move, i: nat)
  {
    !m.far && m.act == Local(i, Abort(false))
  }

  ghost predicate Silenced(moves: seq<Move>, i: nat)
  {
    exists k :: 0 <= k < |moves| && Silences(moves[k], i)
  }

  lemma MoveTold(w: World, m: Move, i: nat, j: nat, silenced: bool)
    requires WInv(w) && CanMove(w, m) && Told(w, i, j, silenced)
    requires i < |w.a| && w.a[i].phase.Live? ==> !silenced
    ensures Told(After(w, m), i, j, silenced || Silences(m, i))
    ensures i < |After(w, m).a| && After(w, m).a[i].phase.Live? ==> !Silences(m, i)
  {
    if m.far {
      SwapInv(w);
      assert Swap(Swap(w)) == w;
      FarTold(Swap(w), m.act, i, j, silenced);
    } else {
      NearTold(w, m.act, i, j, silenced);
    }
  }

  lemma {:induction false} TraceTold(run: seq<World>, moves: seq<Move>, i: nat, j: nat)
    requires IsTrace(run, moves)
    ensures Told(Last(run), i, j, Silenced(moves, i))
    ensures i < |Last(run).a| && Last(run).a[i].phase.Live? ==> !Silenced(moves, i)
    decreases |moves|
  {
    if moves != [] {
      var n := |moves| - 1;
      var pre, before := run[..n + 1], moves[..n];
      TraceInit(run, moves);
      TraceInv(run, moves, n);
      TraceTold(pre, before, i, j);
      assert Last(pre) == run[n] && Last(run) == After(run[n], moves[n]);
      assert Silenced(moves, i) <==> Silenced(before, i) || Silences(moves[n], i);
      MoveTold(run[n], moves[n], i, j, Silenced(before, i));
      if Silenced(before, i) {
        SilencedThere(pre, before, i);
        MoveEvolves(run[n], moves[n], i);
      }
    }
  }

  lemma MoveEvolves(w: World, m: Move, i: nat)
    requires WInv(w) && CanMove(w, m) && i < |w.a|
    ensures i < |After(w, m).a| && Evolves(w.a[i], After(w, m).a[i])
  {
    MoveIsStep(w, m);
    StepEvolves(w, After(w, m), i);
  }

  lemma SilencedThere(run: seq<World>, moves: seq<Move>, i: nat)
    requires IsTrace(run, moves) && Silenced(moves, i)
    ensures i < |Last(run).a|
  {
    var k :| 0 <= k < |moves| && Silences(moves[k], i);
    assert CanMove(run[k], moves[k]);
    NoneLost(run, moves, k, |moves|);
  }

  /**
   When one end of a stream is gone and the other is open, a CLSE is on its way to it if and only if
   the end that is gone knew its peer and was not closed silently.
   */
  lemma CloseIsTold(run: seq<World>, moves: seq<Move>, i: nat, j: nat)
    requires IsTrace(run, moves) && HalfOpen(Last(run), i, j)
    ensures CloseSent(Last(run), i, j) <==> Last(run).a[i].mate != 0 && !Silenced(moves, i)
  {
    TraceTold(run, moves, i, j);
  }

  /** An end that went without learning its peer never sends it anything: whatever the other end is
      waiting for does not come. */
  lemma NothingFromStranger(run: seq<World>, i: nat, j: nat)
    requires IsRun(run) && HalfOpen(Last(run), i, j) && Last(run).a[i].mate == 0
    ensures Between(Last(run).ab, i, j) == []
  {
    RunInv(run);
    assert StreamOk(Last(run), i, j);
  }

  /** A stream that is left half open: the opener is closed before its OPEN is answered, so the
      service accepts it, the OKAY finds nobody, and nothing is in flight any more. */
  lemma LeftHalfOpen() returns (run: seq<World>, moves: seq<Move>)
    ensures IsTrace(run, moves) && HalfOpen(Last(run), 1, 1)
    ensures moves == [Move(false, Connect([])), Move(false, Local(1, Abort(true))),
                      Move(true, Deliver(true, 0, false)), Move(false, Deliver(true, 0, false))]
    ensures Last(run).ab == [] && Last(run).ba == []
  {
    var m1, m2 := Move(false, Connect([])), Move(false, Local(1, Abort(true)));
    var m3, m4 := Move(true, Deliver(true, 0, false)), Move(false, Deliver(true, 0, false));
    var w1 := After(INITIAL, m1);
    var w2 := After(w1, m2);
    var w3 := After(w2, m3);
    var w4 := After(w3, m4);
    run, moves := [INITIAL, w1, w2, w3, w4], [m1, m2, m3, m4];
    forall k | 0 <= k < |moves| ensures CanMove(run[k], moves[k]) && run[k + 1] == After(run[k], moves[k]) {
    }
  }
}
