/**
 Runs together with the moves that made them, and what they say that the states alone do not: which
 moves make a graceful close lose bytes, and which ends of a stream are left without a CLSE.
 */
module StreamTraces {
  import opened ByteSeqs
  import opened StreamSocket
  import opened StreamPair
  import opened StreamWorld
  import opened StreamTheorems

  /** An action of machine a, or of machine b if far. */
  datatype Move = Move(far: bool, act: Action)

  predicate CanMove(w: World, m: Move)
  {
    Can(if m.far then Swap(w) else w, m.act)
  }

  function After(w: World, m: Move): World
    requires CanMove(w, m)
  {
    if m.far then Swap(Do(Swap(w), m.act)) else Do(w, m.act)
  }

  /** The run is made by these moves, one after the other. */
  ghost predicate IsTrace(run: seq<World>, moves: seq<Move>)
  {
    && |run| == |moves| + 1 && run[0] == INITIAL
    && forall k :: 0 <= k < |moves| ==> CanMove(run[k], moves[k]) && run[k + 1] == After(run[k], moves[k])
  }

  lemma MoveIsStep(w: World, m: Move)
    requires CanMove(w, m)
    ensures Step(w, After(w, m))
  {
  }

  lemma TraceIsRun(run: seq<World>, moves: seq<Move>)
    requires IsTrace(run, moves)
    ensures IsRun(run)
  {
    forall k | 0 < k < |run| ensures Step(run[k - 1], run[k]) {
      MoveIsStep(run[k - 1], moves[k - 1]);
      assert run[k - 1 + 1] == After(run[k - 1], moves[k - 1]);
    }
  }

  /** Every run is made by some moves. */
  lemma {:induction false} RunHasTrace(run: seq<World>) returns (moves: seq<Move>)
    requires IsRun(run)
    ensures IsTrace(run, moves)
  {
    if |run| == 1 {
      moves := [];
    } else {
      var pre := run[..|run| - 1];
      var before := RunHasTrace(pre);
      var m := StepHasMove(Last(pre), Last(run));
      TraceSnoc(pre, before, m);
      assert run == pre + [Last(run)];
      moves := before + [m];
    }
  }

  lemma TraceSnoc(run: seq<World>, moves: seq<Move>, m: Move)
    requires IsTrace(run, moves) && CanMove(Last(run), m)
    ensures IsTrace(run + [After(Last(run), m)], moves + [m])
  {
    var longer, all := run + [After(Last(run), m)], moves + [m];
    forall k | 0 <= k < |all| ensures CanMove(longer[k], all[k]) && longer[k + 1] == After(longer[k], all[k]) {
      if k < |moves| {
        assert CanMove(run[k], moves[k]) && run[k + 1] == After(run[k], moves[k]);
      }
    }
  }

  lemma StepHasMove(w: World, w': World) returns (m: Move)
    requires Step(w, w')
    ensures CanMove(w, m) && w' == After(w, m)
  {
    if act :| Can(w, act) && w' == Do(w, act) {
      m := Move(false, act);
    } else {
      var act :| Can(Swap(w), act) && w' == Swap(Do(Swap(w), act));
      m := Move(true, act);
    }
  }

  lemma TraceInv(run: seq<World>, moves: seq<Move>, k: nat)
    requires IsTrace(run, moves) && k <= |moves|
    ensures WInv(run[k])
  {
    var pre := run[..k + 1];
    TraceIsRun(run, moves);
    assert IsRun(pre);
    RunInv(pre);
  }

  lemma TraceInit(run: seq<World>, moves: seq<Move>)
    requires IsTrace(run, moves) && moves != []
    ensures IsTrace(run[..|moves|], moves[..|moves| - 1])
  {
  }

  // ---- what makes a graceful close lose bytes ----

  /** An event on a closing socket that destroys it before its queue is written: the end of file seen
      by a READ event, or a write that fails short of the queue. */
  predicate Cuts(s: Sock, ev: Event)
  {
    && s.phase.Closing?
    && ((ev.Readable? && ev.eof) || (ev.Writable? && ev.fail && ev.n < |Concat(s.queue)|))
  }

  /** The move is such an event on socket j of machine b. */
  predicate Spoils(w: World, m: Move, j: nat)
  {
    m.far && m.act.Local? && m.act.id == j && j < |w.b| && Cuts(w.b[j], m.act.ev)
  }

  ghost predicate Spoiled(run: seq<World>, moves: seq<Move>, j: nat)
    requires |run| > |moves|
  {
    exists k :: 0 <= k < |moves| && Spoils(run[k], moves[k], j)
  }

  /** A socket whose peer closed it, destroyed with bytes unwritten. */
  predicate CutShort(s: Sock)
  {
    s.phase.Dead? && s.cause.ByPeer? && s.fault
  }

  lemma EventCuts(i: nat, s: Sock, ev: Event)
    requires SockOk(s) && Enabled(s, ev) && !s.phase.Dead?
    ensures var r := OnEvent(i, s, ev).sock;
            && (Cuts(s, ev) ==> r.phase.Dead? && r.fault)
            && (CutShort(r) ==> Cuts(s, ev))
  {
    OneInQueue(s);
    if ev.Writable? {
      DropBytesConcat(s.queue, ev.n);
    }
  }

  lemma PacketCuts(i: nat, s: Sock, p: Packet, n: nat, fail: bool)
    requires SockOk(s) && n <= |p.data| && !s.phase.Dead?
    ensures !CutShort(OnPacket(i, s, p, n, fail).sock)
  {
  }

  lemma MoveCuts(w: World, m: Move, j: nat)
    requires WInv(w) && CanMove(w, m) && j < |w.b| && j < |After(w, m).b|
    ensures var s, s' := w.b[j], After(w, m).b[j];
            && (s.phase.Dead? ==> s' == s && !Spoils(w, m, j))
            && (Spoils(w, m, j) ==> s'.phase.Dead? && s'.fault)
            && (!s.phase.Dead? && CutShort(s') ==> Spoils(w, m, j))
  {
    var s := w.b[j];
    assert SockOk(Swap(w).a[j]);
    if m.far {
      match m.act {
        case Connect(_) =>
        case Local(id, ev) =>
          if id == j && !s.phase.Dead? {
            EventCuts(j, s, ev);
          }
        case Deliver(service, n, fail) =>
          if w.ab[0].arg1 == j && !s.phase.Dead? {
            PacketCuts(j, s, w.ab[0], n, fail);
          }
      }
    }
  }

  /** A socket that its peer's CLSE closed ends with bytes unwritten exactly if such a move was made. */
  lemma {:induction false} TraceCuts(run: seq<World>, moves: seq<Move>, j: nat)
    requires IsTrace(run, moves) && j < |Last(run).b|
    ensures Spoiled(run, moves, j) ==> Last(run).b[j].phase.Dead? && Last(run).b[j].fault
    ensures CutShort(Last(run).b[j]) ==> Spoiled(run, moves, j)
    decreases |moves|
  {
    if moves != [] {
      var n := |moves| - 1;
      var pre, before := run[..n + 1], moves[..n];
      TraceInit(run, moves);
      TraceInv(run, moves, n);
      assert Last(pre) == run[n] && Last(run) == After(run[n], moves[n]);
      SpoiledLast(run, moves, j);
      if j < |run[n].b| {
        TraceCuts(pre, before, j);
        MoveCuts(run[n], moves[n], j);
      } else {
        NeverThere(run, moves, j);
      }
    }
  }

  lemma SpoiledLast(run: seq<World>, moves: seq<Move>, j: nat)
    requires |run| == |moves| + 1 && moves != []
    ensures var n := |moves| - 1;
            Spoiled(run, moves, j) <==> Spoiled(run[..n + 1], moves[..n], j) || Spoils(run[n], moves[n], j)
  {
    var n := |moves| - 1;
    assert forall k :: 0 <= k < n ==> run[..n + 1][k] == run[k] && moves[..n][k] == moves[k];
  }

  /** A socket that is only now created was not touched before. */
  lemma NeverThere(run: seq<World>, moves: seq<Move>, j: nat)
    requires IsTrace(run, moves) && moves != [] && |run[|moves| - 1].b| <= j < |Last(run).b|
    ensures !Spoiled(run, moves, j) && Last(run).b[j].phase.Live?
  {
    var n := |moves| - 1;
    assert Last(run) == After(run[n], moves[n]);
    forall k | 0 <= k < |moves| ensures !Spoils(run[k], moves[k], j) {
      NoneLost(run, moves, k, n);
    }
  }

  /** Sockets are never taken off the machines' lists. */
  lemma {:induction false} NoneLost(run: seq<World>, moves: seq<Move>, k: nat, l: nat)
    requires IsTrace(run, moves) && k <= l <= |moves|
    ensures |run[k].a| <= |run[l].a| && |run[k].b| <= |run[l].b|
    decreases l
  {
    if k < l {
      NoneLost(run, moves, k, l - 1);
      assert run[l - 1 + 1] == After(run[l - 1], moves[l - 1]);
    }
  }

  /**
   Graceful close, exactly. A receiver closed by its peer's CLSE has written or still holds all the
   sender ever read; when it is destroyed, it has written all of it if and only if no move of the run
   was a READ event with end of file, or a failing write, on that socket while it was closing.
   */
  lemma GracefulCloseExact(run: seq<World>, moves: seq<Move>, i: nat, j: nat)
    requires IsTrace(run, moves) && Mated(Last(run), i, j) && Last(run).b[j].cause.ByPeer?
    ensures var s, got := Last(run).b[j], Last(run).a[i].got;
            && (s.phase.Closing? ==> s.put + Concat(s.queue) == got)
            && (s.phase.Dead? ==> (s.put == got <==> forall k :: 0 <= k < |moves| ==> !Spoils(run[k], moves[k], j)))
  {
    TraceIsRun(run, moves);
    GracefulClose(run, i, j);
    TraceCuts(run, moves, j);
  }

  // ---- a late READ event loses bytes ----

  /** A write of the operating system that fails. */
  predicate WriteFails(m: Move)
  {
    (m.act.Deliver? && m.act.fail) || (m.act.Local? && m.act.ev.Writable? && m.act.ev.fail)
  }

  /** Three moves that open a stream. */
  lemma Opened() returns (run: seq<World>, moves: seq<Move>)
    ensures IsTrace(run, moves) && forall k :: 0 <= k < |moves| ==> !WriteFails(moves[k])
    ensures Last(run) == World([NOBODY, Accepted(1)], [NOBODY, Accepted(1)], [], [])
  {
    var m1, m2, m3 := Move(false, Connect([])), Move(true, Deliver(true, 0, false)), Move(false, Deliver(true, 0, false));
    var w1 := After(INITIAL, m1);
    var w2 := After(w1, m2);
    var w3 := After(w2, m3);
    assert w3.a[1] == Accepted(1);
    run, moves := [INITIAL, w1, w2, w3], [m1, m2, m3];
    forall k | 0 <= k < |moves| ensures CanMove(run[k], moves[k]) && run[k + 1] == After(run[k], moves[k]) {
    }
  }

  /** The stream is open, its two bytes have been read, one of them is written and the CLSE is on
      its way. */
  lemma HalfWritten() returns (run: seq<World>, moves: seq<Move>)
    ensures IsTrace(run, moves) && forall k :: 0 <= k < |moves| ==> !WriteFails(moves[k])
    ensures var w := Last(run);
            && |w.a| == |w.b| == 2 && w.a[1].phase.Dead? && w.a[1].mate == 1 && w.a[1].got == [7, 8]
            && w.b[1] == Accepted(1).(queue := [[8]], put := [7], write := true)
            && w.ab == [Packet(CLSE, 1, 1, [])]
  {
    var start, before := Opened();
    var m4, m5 := Move(false, Local(1, Readable([7, 8], true))), Move(true, Deliver(true, 1, false));
    var w4 := After(Last(start), m4);
    var w5 := After(w4, m5);
    TraceSnoc(start, before, m4);
    TraceSnoc(start + [w4], before + [m4], m5);
    run, moves := (start + [w4]) + [w5], (before + [m4]) + [m5];
  }

  /** A READ for socket j of machine b that comes with move k was there already when the socket began
      to close: reads were wanted then, and no event of the socket was dispatched since. */
  ghost predicate WasPending(run: seq<World>, moves: seq<Move>, j: nat, k: nat)
    requires |run| == |moves| + 1 && k < |moves|
  {
    exists c :: 0 <= c < k && BeginsToClose(run[c], run[c + 1], j) && Quiet(moves, j, c + 1, k)
  }

  predicate BeginsToClose(w: World, w': World, j: nat)
  {
    j < |w.b| && j < |w'.b| && w.b[j].phase.Live? && w.b[j].read && w'.b[j].phase.Closing?
  }

  predicate Quiet(moves: seq<Move>, j: nat, start: nat, end: nat)
    requires end <= |moves|
  {
    forall m :: start <= m < end && moves[m].far && moves[m].act.Local? ==> moves[m].act.id != j
  }

  /** A run in which no write fails and yet the receiver, closed by its peer's CLSE, is destroyed
      having written one of the two bytes sent: its last move is a READ event, pending since before
      the CLSE, that finds the socket closing and the end of the file. */
  lemma LateReadLosesBytes() returns (run: seq<World>, moves: seq<Move>)
    ensures IsTrace(run, moves) && Mated(Last(run), 1, 1)
    ensures forall k :: 0 <= k < |moves| ==> !WriteFails(moves[k])
    ensures var n := |moves| - 1;
            n >= 0 && moves[n] == Move(true, Local(1, Readable([], true))) && run[n].b[1].phase.Closing?
    ensures WasPending(run, moves, 1, |moves| - 1)
    ensures Last(run).b[1].cause.ByPeer? && Last(run).b[1].phase.Dead?
    ensures Last(run).b[1].put == [7] && Last(run).a[1].got == [7, 8]
  {
    var half, before := HalfWritten();
    var m6, m7 := Move(true, Deliver(true, 0, false)), Move(true, Local(1, Readable([], true)));
    var w6 := After(Last(half), m6);
    assert w6.b[1].phase.Closing?;
    TraceSnoc(half, before, m6);
    TraceSnoc(half + [w6], before + [m6], m7);
    run, moves := (half + [w6]) + [After(w6, m7)], (before + [m6]) + [m7];
    assert run[|before|] == Last(half) && run[|before| + 1] == w6;
    assert BeginsToClose(run[|before|], run[|before| + 1], 1) && Quiet(moves, 1, |before| + 1, |moves| - 1);
  }
}
