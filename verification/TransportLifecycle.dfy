/**
 The life of one transport: the output thread (remote to main loop), the input thread (main loop
 to remote) and the main loop, interleaved in any order. Each action is one system call, one
 critical section or one unlocked read of a shared field.
 */
module TransportLifecycle {
  import ByteSeqs

  /** A packet as the threads see it: SYNC(arg0, arg1), or anything else. */
  datatype Msg = Sync(arg0: nat, arg1: nat) | Data(content: nat)

  datatype OutputAt = Starting | Pumping | GoingOffline | OutKick(at: KickAt) | OutUnref | OutDone
  datatype InputAt = Relaying | ClosingSockets | InKick(at: KickAt) | InUnref | InDone

  /** kick_transport: an unlocked test, a locked test-and-set, then the kick itself. */
  datatype KickAt = Peeking | Testing | Kicking

  /** The reference count and the kicked flag, and how often kick, close and remove_transport ran. */
  datatype Life = Life(refs: int, kicked: bool, kicks: nat, closes: nat, removes: nat)

  /** The pipe to the input thread: toInput is what it has yet to read of all sends, of which it has
      taken some; active is its own flag, remote what it wrote to the remote, and offline whether it
      stopped on a SYNC(0, _). */
  datatype Relay = Relay(toInput: seq<Msg>, active: bool, sends: seq<Msg>, taken: nat, remote: seq<Msg>, offline: bool)

  /** posted says that the output thread's SYNC(0, 0) was written. */
  datatype State = State(
    life: Life, output: OutputAt, input: InputAt, token: nat, toMain: seq<Msg>, posted: bool, relay: Relay)

  const INITIAL := State(Life(2, false, 0, 0, 0), Starting, Relaying, 1, [], false, Relay([], false, [], 0, [], false))

  datatype Action =
    | OutputStart(ok: bool)
    | OutputRead(m: Msg, ok: bool)    // a packet from the remote, passed on to the main loop
    | OutputReadFails
    | OutputOffline(ok: bool)
    | OutputKick
    | OutputUnref
    | InputRead
    | InputReadFails
    | InputCloses(replies: seq<Msg>)  // close_all_sockets, which may still send packets
    | InputKick
    | InputUnref
    | MainReads(replies: seq<Msg>)    // handle_packet, and what it sends besides a bounced SYNC
    | MainSends(m: Msg)

  predicate NoSync(q: seq<Msg>)
  {
    forall k :: 0 <= k < |q| ==> q[k].Data?
  }

  predicate Can(s: State, act: Action)
  {
    match act
    case OutputStart(_) => s.output.Starting?
    case OutputRead(_, _) => s.output.Pumping?
    case OutputReadFails => s.output.Pumping?
    case OutputOffline(_) => s.output.GoingOffline?
    case OutputKick => s.output.OutKick?
    case OutputUnref => s.output.OutUnref?
    case InputRead => s.input.Relaying? && s.relay.toInput != []
    case InputReadFails => s.input.Relaying?
    case InputCloses(replies) => s.input.ClosingSockets? && NoSync(replies)
    case InputKick => s.input.InKick?
    case InputUnref => s.input.InUnref?
    case MainReads(replies) => s.toMain != [] && NoSync(replies)
    case MainSends(m) => m.Data?
  }

  datatype KickResult = Finished | More(at: KickAt)

  /** One step of kick_transport, and where the caller continues. */
  function Kick(l: Life, at: KickAt): (Life, KickResult)
  {
    match at
    case Peeking => if l.kicked then (l, Finished) else (l, More(Testing))
    case Testing => if l.kicked then (l, Finished) else (l.(kicked := true), More(Kicking))
    case Kicking => (l.(kicks := l.kicks + 1), Finished)
  }

  /** transport_unref, under the lock. */
  function Unref(l: Life): Life
  {
    if l.refs - 1 == 0 then
      Life(0, true, if l.kicked then l.kicks else l.kicks + 1, l.closes + 1, l.removes + 1)
    else l.(refs := l.refs - 1)
  }

  function Sending(r: Relay, q: seq<Msg>): Relay
  {
    r.(toInput := r.toInput + q, sends := r.sends + q)
  }

  /** One packet read by the input thread. */
  function Take(r: Relay, token: nat): Relay
    requires r.toInput != []
  {
    var m := r.toInput[0];
    var r' := r.(toInput := r.toInput[1..], taken := r.taken + 1);
    if m.Sync? then
      if m.arg0 == 0 then r'.(offline := true)
      else if m.arg1 == token then r'.(active := true) else r'
    else if r.active then r'.(remote := r.remote + [m]) else r'
  }

  function Next(s: State, act: Action): State
    requires Can(s, act)
  {
    match act
    case OutputStart(ok) =>
      var s' := s.(token := s.token + 1);
      if ok then s'.(toMain := s.toMain + [Sync(1, s'.token)], output := Pumping)
      else s'.(output := OutKick(Peeking))
    case OutputRead(m, ok) =>
      if ok then s.(toMain := s.toMain + [m]) else s.(output := OutKick(Peeking))
    case OutputReadFails => s.(output := GoingOffline)
    case OutputOffline(ok) =>
      s.(toMain := if ok then s.toMain + [Sync(0, 0)] else s.toMain, output := OutKick(Peeking), posted := ok)
    case OutputKick =>
      var (l, k) := Kick(s.life, s.output.at);
      s.(life := l, output := if k.Finished? then OutUnref else OutKick(k.at))
    case OutputUnref => s.(life := Unref(s.life), output := OutDone)
    case InputRead =>
      var r := Take(s.relay, s.token);
      s.(relay := r, input := if r.offline then ClosingSockets else Relaying)
    case InputReadFails => s.(input := ClosingSockets)
    case InputCloses(replies) => s.(relay := Sending(s.relay, replies), input := InKick(Peeking))
    case InputKick =>
      var (l, k) := Kick(s.life, s.input.at);
      s.(life := l, input := if k.Finished? then InUnref else InKick(k.at))
    case InputUnref => s.(life := Unref(s.life), input := InDone)
    case MainReads(replies) =>
      var m := s.toMain[0];
      s.(toMain := s.toMain[1..], relay := Sending(s.relay, (if m.Sync? then [m] else []) + replies))
    case MainSends(m) => s.(relay := Sending(s.relay, [m]))
  }

  ghost predicate Step(s: State, s': State)
  {
    exists act :: Can(s, act) && s' == Next(s, act)
  }

  ghost predicate IsRun(run: seq<State>)
  {
    && run != [] && run[0] == INITIAL
    && forall k :: 0 < k < |run| ==> Step(run[k - 1], run[k])
  }

  function Last(run: seq<State>): State
    requires run != []
  {
    run[|run| - 1]
  }

  // ---- references, kick, close ----

  /** The references still held: one per thread that has not released its own. */
  function Held(s: State): int
  {
    (if s.output.OutDone? then 0 else 1) + (if s.input.InDone? then 0 else 1)
  }

  /** Whether a thread has got past its kick_transport. */
  predicate OutputKicked(s: State)
  {
    s.output.OutUnref? || s.output.OutDone?
  }

  predicate InputKicked(s: State)
  {
    s.input.InUnref? || s.input.InDone?
  }

  function Kickers(s: State): nat
  {
    (if s.output == OutKick(Kicking) then 1 else 0) + (if s.input == InKick(Kicking) then 1 else 0)
  }

  /** The flag is set exactly when the kick was made or one thread is about to make it. */
  predicate LifeOk(s: State)
  {
    var l := s.life;
    && l.refs == Held(s)
    && (if l.kicked then l.kicks + Kickers(s) == 1 else l.kicks + Kickers(s) == 0)
    && (OutputKicked(s) || InputKicked(s) ==> l.kicked)
    && l.closes == l.removes == (if l.refs == 0 then 1 else 0)
  }

  lemma LifeKeeps(s: State, act: Action)
    requires LifeOk(s) && Can(s, act)
    ensures LifeOk(Next(s, act))
  {
    var s' := Next(s, act);
    if act.OutputKick? || act.InputKick? || act.OutputUnref? || act.InputUnref? {
      assert s'.relay == s.relay && s'.toMain == s.toMain;
    } else {
      assert s'.life == s.life;
    }
  }

  lemma {:induction false} RunLife(run: seq<State>)
    requires IsRun(run)
    ensures LifeOk(Last(run))
  {
    if |run| > 1 {
      var pre := run[..|run| - 1];
      RunLife(pre);
      assert Step(Last(pre), Last(run));
      var act :| Can(Last(pre), act) && Last(run) == Next(Last(pre), act);
      LifeKeeps(Last(pre), act);
    }
  }

  /** kick runs at most once; close and remove_transport run at most once, together, and exactly
      when both threads have released their reference, by when kick has run. */
  lemma KickAndCloseOnce(run: seq<State>)
    requires IsRun(run)
    ensures var s := Last(run); var l := s.life;
            && l.kicks <= 1
            && l.closes == l.removes <= 1
            && (l.closes == 1 <==> s.output.OutDone? && s.input.InDone?)
            && (l.closes == 1 ==> l.kicks == 1)
  {
    RunLife(run);
  }

  /** The kick in transport_unref_locked is never the one that happens, and no thread kicks a
      transport that has been closed. */
  lemma UnrefNeverKicks(run: seq<State>)
    requires IsRun(run)
    ensures var s := Last(run);
            && (s.output.OutUnref? || s.input.InUnref? ==> Unref(s.life).kicks == s.life.kicks)
            && (Kickers(s) > 0 ==> s.life.closes == 0)
  {
    RunLife(run);
  }

  // ---- what reaches the remote ----

  /** The packets sent before the first SYNC(0, _). */
  function UntilOffline(q: seq<Msg>): seq<Msg>
  {
    if q == [] || (q[0].Sync? && q[0].arg0 == 0) then [] else [q[0]] + UntilOffline(q[1..])
  }

  /** The packets sent after the first SYNC(n, token) with n nonzero. */
  function SinceOnline(q: seq<Msg>, token: nat): seq<Msg>
  {
    if q == [] then []
    else if q[0].Sync? && q[0].arg0 != 0 && q[0].arg1 == token then q[1..]
    else SinceOnline(q[1..], token)
  }

  function DataOf(q: seq<Msg>): seq<Msg>
  {
    if q == [] then [] else (if q[0].Data? then [q[0]] else []) + DataOf(q[1..])
  }

  /** The packets sent between going online and going offline, without the SYNCs themselves. */
  function Window(sends: seq<Msg>, token: nat): seq<Msg>
  {
    DataOf(SinceOnline(UntilOffline(sends), token))
  }

  predicate IsOffline(m: Msg)
  {
    m.Sync? && m.arg0 == 0
  }

  predicate IsOnline(m: Msg, token: nat)
  {
    m.Sync? && m.arg0 != 0 && m.arg1 == token
  }

  predicate HasOffline(q: seq<Msg>)
  {
    exists k :: 0 <= k < |q| && IsOffline(q[k])
  }

  predicate HasOnline(q: seq<Msg>, token: nat)
  {
    exists k :: 0 <= k < |q| && IsOnline(q[k], token)
  }

  lemma {:induction false} UntilOfflineAppend(q: seq<Msg>, r: seq<Msg>)
    ensures UntilOffline(q + r) == if HasOffline(q) then UntilOffline(q) else q + UntilOffline(r)
  {
    if q == [] {
      assert q + r == r;
    } else {
      assert (q + r)[1..] == q[1..] + r;
      OfflineTail(q);
      if !IsOffline(q[0]) {
        UntilOfflineAppend(q[1..], r);
        ByteSeqs.Regroup([q[0]], q[1..], UntilOffline(r));
      }
    }
  }

  lemma OfflineTail(q: seq<Msg>)
    requires q != []
    ensures HasOffline(q) <==> IsOffline(q[0]) || HasOffline(q[1..])
  {
    assert forall k :: 0 < k < |q| ==> q[k] == q[1..][k - 1];
    assert forall k :: 0 <= k < |q[1..]| ==> q[1..][k] == q[k + 1];
  }

  lemma HasTail(q: seq<Msg>)
    requires q != []
    ensures HasOffline(q) <==> IsOffline(q[0]) || HasOffline(q[1..])
    ensures forall token :: HasOnline(q, token) <==> IsOnline(q[0], token) || HasOnline(q[1..], token)
  {
    assert forall k :: 0 < k < |q| ==> q[k] == q[1..][k - 1];
    assert forall k :: 0 <= k < |q[1..]| ==> q[1..][k] == q[k + 1];
  }

  lemma {:induction false} SinceOnlineAppend(q: seq<Msg>, r: seq<Msg>, token: nat)
    ensures SinceOnline(q + r, token) ==
              if HasOnline(q, token) then SinceOnline(q, token) + r else SinceOnline(r, token)
  {
    if q == [] {
      assert q + r == r;
    } else {
      assert (q + r)[1..] == q[1..] + r;
      HasTail(q);
      if !IsOnline(q[0], token) {
        SinceOnlineAppend(q[1..], r, token);
      }
    }
  }

  lemma {:induction false} DataOfAppend(q: seq<Msg>, r: seq<Msg>)
    ensures DataOf(q + r) == DataOf(q) + DataOf(r)
  {
    if q == [] {
      assert q + r == r;
    } else {
      assert (q + r)[1..] == q[1..] + r;
      DataOfAppend(q[1..], r);
      var first := if q[0].Data? then [q[0]] else [];
      assert first + (DataOf(q[1..]) + DataOf(r)) == (first + DataOf(q[1..])) + DataOf(r);
    }
  }

  lemma HasSnoc(q: seq<Msg>, m: Msg)
    ensures HasOffline(q + [m]) <==> HasOffline(q) || IsOffline(m)
    ensures forall token :: HasOnline(q + [m], token) <==> HasOnline(q, token) || IsOnline(m, token)
  {
    var r := q + [m];
    assert r[|q|] == m;
    assert forall k :: 0 <= k < |q| ==> r[k] == q[k];
  }

  /** What the input thread has done with the part of the sends it has read. */
  predicate TakenOk(r: Relay, relaying: bool)
  {
    && r.taken <= |r.sends| && r.toInput == r.sends[r.taken..]
    && (relaying ==>
          && !r.offline && !HasOffline(r.sends[..r.taken])
          && (r.active <==> HasOnline(r.sends[..r.taken], 2))
          && r.remote == DataOf(SinceOnline(r.sends[..r.taken], 2)))
    && r.remote <= Window(r.sends, 2)
    && (r.offline ==> r.remote == Window(r.sends, 2) && HasOffline(r.sends))
  }

  /** Before the output thread starts there is no SYNC anywhere; from then on the token is 2. */
  predicate RelayOk(s: State)
  {
    && TakenOk(s.relay, s.input.Relaying?)
    && (if s.output.Starting? then s.token == 1 && s.toMain == [] && NoSync(s.relay.sends) else s.token == 2)
  }

  /** Sending more can only extend the window, and not after an offline SYNC. */
  lemma WindowGrows(q: seq<Msg>, r: seq<Msg>)
    ensures Window(q, 2) <= Window(q + r, 2)
    ensures HasOffline(q) ==> Window(q + r, 2) == Window(q, 2)
  {
    UntilOfflineAppend(q, r);
    if !HasOffline(q) {
      UntilOfflineAppend(q, []);
      assert q + [] == q;
      SinceOnlineAppend(q, UntilOffline(r), 2);
      if HasOnline(q, 2) {
        DataOfAppend(SinceOnline(q, 2), UntilOffline(r));
      } else {
        SinceOnlineAppend(q, [], 2);
      }
    }
  }

  lemma HasAppend(q: seq<Msg>, r: seq<Msg>)
    ensures HasOffline(q) ==> HasOffline(q + r)
  {
    if HasOffline(q) {
      var k :| 0 <= k < |q| && IsOffline(q[k]);
      assert IsOffline((q + r)[k]);
    }
  }

  /** Nothing a sender does changes what has been relayed. */
  lemma SendingRelays(r: Relay, relaying: bool, q: seq<Msg>)
    requires TakenOk(r, relaying)
    ensures TakenOk(Sending(r, q), relaying)
  {
    var r' := Sending(r, q);
    assert r'.sends[..r.taken] == r.sends[..r.taken];
    assert r'.sends[r.taken..] == r.sends[r.taken..] + q;
    WindowGrows(r.sends, q);
    HasAppend(r.sends, q);
  }

  /** The input thread's window so far, and once it meets an offline SYNC. */
  lemma WindowOfTaken(q: seq<Msg>, n: nat)
    requires n <= |q| && !HasOffline(q[..n])
    ensures DataOf(SinceOnline(q[..n], 2)) <= Window(q, 2)
    ensures n < |q| && IsOffline(q[n]) ==> DataOf(SinceOnline(q[..n], 2)) == Window(q, 2)
  {
    var c, r := q[..n], q[n..];
    assert q == c + r;
    UntilOfflineAppend(c, []);
    assert c + [] == c;
    WindowGrows(c, r);
    if r != [] && IsOffline(r[0]) {
      UntilOfflineAppend(c, r);
      assert UntilOffline(r) == [];
    }
  }

  /** How one more packet read changes what the input thread has to have written. */
  lemma RelayedOne(c: seq<Msg>, m: Msg)
    ensures DataOf(SinceOnline(c + [m], 2)) ==
              DataOf(SinceOnline(c, 2)) + (if HasOnline(c, 2) && m.Data? then [m] else [])
  {
    SinceOnlineAppend(c, [m], 2);
    if HasOnline(c, 2) {
      DataOfAppend(SinceOnline(c, 2), [m]);
      assert DataOf([m]) == (if m.Data? then [m] else []) + DataOf([m][1..]);
    } else {
      SinceOnlineAppend(c, [], 2);
      assert c + [] == c;
      assert SinceOnline([m], 2) == [];
    }
  }

  lemma TakeRelays(r: Relay)
    requires TakenOk(r, true) && r.toInput != []
    ensures TakenOk(Take(r, 2), !Take(r, 2).offline)
    ensures r.toInput[0].Data? ==> Take(r, 1) == Take(r, 2)
  {
    var m, c, n := r.toInput[0], r.sends[..r.taken], r.taken;
    assert m == r.sends[n] && r.sends[..n + 1] == c + [m] && r.toInput[1..] == r.sends[n + 1..];
    HasSnoc(c, m);
    RelayedOne(c, m);
    if IsOffline(m) {
      WindowOfTaken(r.sends, n);
    } else {
      WindowOfTaken(r.sends, n + 1);
    }
  }

  lemma NextRelays(s: State, act: Action)
    requires RelayOk(s) && Can(s, act)
    ensures RelayOk(Next(s, act))
  {
    var relaying := s.input.Relaying?;
    match act {
      case InputRead =>
        assert s.relay.toInput[0] == s.relay.sends[s.relay.taken];
        TakeRelays(s.relay);
      case InputCloses(replies) => SendingRelays(s.relay, relaying, replies);
      case MainSends(m) => SendingRelays(s.relay, relaying, [m]);
      case MainReads(replies) =>
        var m := s.toMain[0];
        SendingRelays(s.relay, relaying, (if m.Sync? then [m] else []) + replies);
      case _ => assert Next(s, act).relay == s.relay;
    }
  }

  lemma {:induction false} RunRelays(run: seq<State>)
    requires IsRun(run)
    ensures RelayOk(Last(run))
  {
    if |run| > 1 {
      var pre := run[..|run| - 1];
      RunRelays(pre);
      assert Step(Last(pre), Last(run));
      var act :| Can(Last(pre), act) && Last(run) == Next(Last(pre), act);
      NextRelays(Last(pre), act);
    }
  }

  /** The remote gets, in order, packets sent while the transport was online, and, when the input
      thread stops because it went offline, exactly those. */
  lemma RemoteGetsWindow(run: seq<State>)
    requires IsRun(run)
    ensures var r := Last(run).relay;
            && r.remote <= Window(r.sends, 2)
            && (r.offline ==> r.remote == Window(r.sends, 2))
  {
    RunRelays(run);
  }

  // ---- the shutdown is not lost ----

  predicate ShutdownOk(s: State)
  {
    && (s.posted && s.input.Relaying? ==> HasOffline(s.toMain) || HasOffline(s.relay.toInput))
    && (s.posted ==> !s.output.Starting? && !s.output.Pumping? && !s.output.GoingOffline?)
  }

  lemma HasLast(q: seq<Msg>, r: seq<Msg>)
    ensures HasOffline(q) || HasOffline(r) ==> HasOffline(q + r)
  {
    if HasOffline(q) {
      HasAppend(q, r);
    } else if HasOffline(r) {
      var k :| 0 <= k < |r| && IsOffline(r[k]);
      assert IsOffline((q + r)[|q| + k]);
    }
  }

  lemma NextShutdown(s: State, act: Action)
    requires ShutdownOk(s) && Can(s, act)
    ensures ShutdownOk(Next(s, act))
  {
    match act {
      case OutputOffline(ok) => HasSnoc(s.toMain, Sync(0, 0));
      case InputRead => HasTail(s.relay.toInput);
      case InputCloses(replies) => HasLast(s.relay.toInput, replies);
      case MainSends(m) => HasLast(s.relay.toInput, [m]);
      case MainReads(replies) =>
        var m := s.toMain[0];
        HasTail(s.toMain);
        HasSnoc([], m);
        assert [] + [m] == [m];
        HasLast(if m.Sync? then [m] else [], replies);
        HasLast(s.relay.toInput, (if m.Sync? then [m] else []) + replies);
      case _ =>
    }
  }

  /** Once the output thread has posted its SYNC(0, 0), it is on its way to the input thread until
      the input thread has stopped. */
  lemma {:induction false} ShutdownArrives(run: seq<State>)
    requires IsRun(run)
    ensures ShutdownOk(Last(run))
  {
    if |run| > 1 {
      var pre := run[..|run| - 1];
      ShutdownArrives(pre);
      assert Step(Last(pre), Last(run));
      var act :| Can(Last(pre), act) && Last(run) == Next(Last(pre), act);
      NextShutdown(Last(pre), act);
    }
  }

  // ---- the transport goes online ----

  /** While the output thread pumps, its SYNC for the current token is on its way to the main loop or
      has been sent on from there. */
  predicate OnlineOk(s: State)
  {
    s.output.Pumping? ==> HasOnline(s.toMain, s.token) || HasOnline(s.relay.sends, s.token)
  }

  lemma OnlineAppend(q: seq<Msg>, r: seq<Msg>, token: nat)
    ensures HasOnline(q + r, token) <==> HasOnline(q, token) || HasOnline(r, token)
  {
    var all := q + r;
    assert forall k :: 0 <= k < |q| ==> all[k] == q[k];
    assert forall k :: 0 <= k < |r| ==> all[|q| + k] == r[k];
    if k :| 0 <= k < |all| && IsOnline(all[k], token) {
      assert k < |q| || all[k] == r[k - |q|];
    }
  }

  lemma NextOnline(s: State, act: Action)
    requires OnlineOk(s) && Can(s, act)
    ensures OnlineOk(Next(s, act))
  {
    match act {
      case OutputStart(ok) => HasSnoc(s.toMain, Sync(1, s.token + 1));
      case OutputRead(m, ok) => OnlineAppend(s.toMain, [m], s.token);
      case InputCloses(replies) => OnlineAppend(s.relay.sends, replies, s.token);
      case MainSends(m) => OnlineAppend(s.relay.sends, [m], s.token);
      case MainReads(replies) => PassedOn(s, replies);
      case _ =>
    }
  }

  lemma PassedOn(s: State, replies: seq<Msg>)
    requires OnlineOk(s) && Can(s, MainReads(replies))
    ensures OnlineOk(Next(s, MainReads(replies)))
  {
    var m := s.toMain[0];
    var bounced := if m.Sync? then [m] else [];
    HasTail(s.toMain);
    OnlineAppend(bounced, replies, s.token);
    OnlineAppend(s.relay.sends, bounced + replies, s.token);
    assert IsOnline(m, s.token) ==> IsOnline(bounced[0], s.token);
  }

  /** In every run, for as long as the output thread pumps. */
  lemma {:induction false} GoesOnline(run: seq<State>)
    requires IsRun(run)
    ensures OnlineOk(Last(run))
  {
    if |run| > 1 {
      var pre := run[..|run| - 1];
      GoesOnline(pre);
      assert Step(Last(pre), Last(run));
      var act :| Can(Last(pre), act) && Last(run) == Next(Last(pre), act);
      NextOnline(Last(pre), act);
    }
  }

  /** Both pipes are in order and neither has an offline SYNC in it. */
  predicate Healthy(s: State)
  {
    && RelayOk(s) && OnlineOk(s) && s.output.Pumping? && s.input.Relaying?
    && !HasOffline(s.toMain) && !HasOffline(s.relay.toInput)
  }

  ghost predicate IsPath(path: seq<State>)
  {
    path != [] && forall k :: 0 < k < |path| ==> Step(path[k - 1], path[k])
  }

  lemma PathCons(s: State, rest: seq<State>)
    requires IsPath(rest) && Step(s, rest[0])
    ensures IsPath([s] + rest) && Last([s] + rest) == Last(rest)
  {
    var path := [s] + rest;
    forall k | 0 < k < |path| ensures Step(path[k - 1], path[k]) {
      assert path[k] == rest[k - 1];
      assert k > 1 ==> path[k - 1] == rest[k - 2];
    }
  }

  lemma HealthyRead(s: State)
    requires Healthy(s) && s.toMain != []
    ensures Can(s, MainReads([])) && Healthy(Next(s, MainReads([])))
    ensures |Next(s, MainReads([])).toMain| < |s.toMain|
  {
    var m := s.toMain[0];
    var bounced := if m.Sync? then [m] else [];
    NextRelays(s, MainReads([]));
    NextOnline(s, MainReads([]));
    HasTail(s.toMain);
    assert bounced + [] == bounced;
    if m.Sync? {
      HasSnoc(s.relay.toInput, m);
    } else {
      assert s.relay.toInput + [] == s.relay.toInput;
    }
  }

  lemma HealthyTake(s: State)
    requires Healthy(s) && s.relay.toInput != []
    ensures Can(s, InputRead) && Healthy(Next(s, InputRead))
    ensures var s' := Next(s, InputRead); s'.toMain == s.toMain && |s'.relay.toInput| < |s.relay.toInput|
  {
    NextRelays(s, InputRead);
    NextOnline(s, InputRead);
    HasTail(s.relay.toInput);
  }

  /** The main loop and then the input thread read all there is. */
  lemma {:induction false} CatchUp(s: State) returns (path: seq<State>)
    requires Healthy(s)
    ensures IsPath(path) && path[0] == s && Healthy(Last(path))
    ensures Last(path).toMain == [] && Last(path).relay.toInput == []
    decreases |s.toMain|, |s.relay.toInput|
  {
    if s.toMain != [] {
      HealthyRead(s);
      var rest := CatchUp(Next(s, MainReads([])));
      PathCons(s, rest);
      path := [s] + rest;
    } else if s.relay.toInput != [] {
      HealthyTake(s);
      var rest := CatchUp(Next(s, InputRead));
      PathCons(s, rest);
      path := [s] + rest;
    } else {
      path := [s];
    }
  }

  /** From every state of every run in which both threads work and no offline SYNC is under way there is
      a way on after which a packet that is sent reaches the remote. */
  lemma PacketGetsThrough(run: seq<State>, m: Msg) returns (path: seq<State>)
    requires IsRun(run) && m.Data? && Last(run).output.Pumping? && Last(run).input.Relaying?
    requires !HasOffline(Last(run).toMain) && !HasOffline(Last(run).relay.toInput)
    ensures IsPath(path) && path[0] == Last(run)
    ensures |path| > 2 && Last(path).relay.remote == path[|path| - 3].relay.remote + [m]
  {
    RunRelays(run);
    GoesOnline(run);
    var before := CatchUp(Last(run));
    var s := Last(before);
    var s1 := Next(s, MainSends(m));
    Online(s);
    assert s1.relay.toInput == [m];
    var s2 := Next(s1, InputRead);
    assert Step(s, s1) && Step(s1, s2);
    path := before + [s1, s2];
    forall k | 0 < k < |path| ensures Step(path[k - 1], path[k]) {
      if k < |before| {
        assert path[k] == before[k] && path[k - 1] == before[k - 1];
      }
    }
  }

  lemma Online(s: State)
    requires Healthy(s) && s.toMain == [] && s.relay.toInput == []
    ensures s.relay.active
  {
    assert s.relay.sends[..s.relay.taken] == s.relay.sends;
  }

  // ---- nothing is lost between the output thread and the main loop ----

  ghost predicate IsTrace(run: seq<State>, acts: seq<Action>)
  {
    && |run| == |acts| + 1 && run[0] == INITIAL
    && forall k :: 0 <= k < |acts| ==> Can(run[k], acts[k]) && run[k + 1] == Next(run[k], acts[k])
  }

  lemma TraceIsRun(run: seq<State>, acts: seq<Action>, n: nat)
    requires IsTrace(run, acts) && n < |run|
    ensures IsRun(run[..n + 1])
  {
    forall k | 0 < k < n + 1 ensures Step(run[k - 1], run[k]) {
      assert Can(run[k - 1], acts[k - 1]) && run[k] == Next(run[k - 1], acts[k - 1]);
    }
  }

  /** What the output thread writes to the main loop: it goes online with the second token, passes on
      what it reads from the remote, and goes offline. */
  function Posted(acts: seq<Action>, n: nat): seq<Msg>
    requires n <= |acts|
  {
    if n == 0 then []
    else
      Posted(acts, n - 1)
      + match acts[n - 1]
        case OutputStart(ok) => if ok then [Sync(1, 2)] else []
        case OutputRead(m, ok) => if ok then [m] else []
        case OutputOffline(ok) => if ok then [Sync(0, 0)] else []
        case _ => []
  }

  /** What the main loop has read. */
  function Seen(run: seq<State>, acts: seq<Action>, n: nat): seq<Msg>
    requires n <= |acts| < |run|
  {
    if n == 0 then []
    else
      Seen(run, acts, n - 1)
      + if acts[n - 1].MainReads? && run[n - 1].toMain != [] then [run[n - 1].toMain[0]] else []
  }

  /** Everything the output thread writes, in order, has been read by the main loop or is waiting for
      it. */
  lemma {:induction false} MainGetsAll(run: seq<State>, acts: seq<Action>, n: nat)
    requires IsTrace(run, acts) && n <= |acts|
    ensures Seen(run, acts, n) + run[n].toMain == Posted(acts, n)
  {
    if n > 0 {
      MainGetsAll(run, acts, n - 1);
      var s, act := run[n - 1], acts[n - 1];
      assert Can(s, act) && run[n] == Next(s, act);
      TokenThen(run, acts, n - 1);
      MainStep(Seen(run, acts, n - 1), s, act);
    }
  }

  lemma TokenThen(run: seq<State>, acts: seq<Action>, n: nat)
    requires IsTrace(run, acts) && n < |run|
    ensures run[n].output.Starting? ==> run[n].token == 1
  {
    TraceIsRun(run, acts, n);
    RunRelays(run[..n + 1]);
  }

  lemma MainStep(seen: seq<Msg>, s: State, act: Action)
    requires Can(s, act) && (s.output.Starting? ==> s.token == 1)
    ensures seen + (if act.MainReads? then [s.toMain[0]] else []) + Next(s, act).toMain
            == seen + s.toMain
               + match act
                 case OutputStart(ok) => if ok then [Sync(1, 2)] else []
                 case OutputRead(m, ok) => if ok then [m] else []
                 case OutputOffline(ok) => if ok then [Sync(0, 0)] else []
                 case _ => []
  {
  }

  /** What is sent to the input thread: a SYNC that the main loop reads goes back, and behind it come
      its other packets and those of the sockets being closed. */
  function Outgoing(run: seq<State>, acts: seq<Action>, n: nat): seq<Msg>
    requires n <= |acts| < |run|
  {
    if n == 0 then []
    else
      Outgoing(run, acts, n - 1)
      + match acts[n - 1]
        case MainReads(replies) =>
          if run[n - 1].toMain != [] && run[n - 1].toMain[0].Sync? then [run[n - 1].toMain[0]] + replies else replies
        case MainSends(m) => [m]
        case InputCloses(replies) => replies
        case _ => []
  }

  /** All of that, in order, is what the input thread is sent; what of it reaches the remote is the
      window. */
  lemma {:induction false} InputGetsAll(run: seq<State>, acts: seq<Action>, n: nat)
    requires IsTrace(run, acts) && n <= |acts|
    ensures run[n].relay.sends == Outgoing(run, acts, n)
  {
    if n > 0 {
      InputGetsAll(run, acts, n - 1);
      assert Can(run[n - 1], acts[n - 1]) && run[n] == Next(run[n - 1], acts[n - 1]);
      SendStep(run[n - 1], acts[n - 1]);
    }
  }

  lemma SendStep(s: State, act: Action)
    requires Can(s, act)
    ensures Next(s, act).relay.sends
            == s.relay.sends
               + match act
                 case MainReads(replies) => if s.toMain[0].Sync? then [s.toMain[0]] + replies else replies
                 case MainSends(m) => [m]
                 case InputCloses(replies) => replies
                 case _ => []
  {
    if act.MainReads? {
      assert [] + act.replies == act.replies;
    }
  }

  // ---- the transport shuts down ----

  /** What a thread has yet to do. */
  function KickLeft(at: KickAt): nat
  {
    match at
    case Peeking => 3
    case Testing => 2
    case Kicking => 1
  }

  function InputLeft(at: InputAt): nat
  {
    match at
    case Relaying => 6
    case ClosingSockets => 5
    case InKick(k) => 1 + KickLeft(k)
    case InUnref => 1
    case InDone => 0
  }

  function OutputLeft(at: OutputAt): nat
  {
    match at
    case OutKick(k) => 1 + KickLeft(k)
    case OutUnref => 1
    case OutDone => 0
    case _ => 5
  }

  /** The output thread has posted its SYNC(0, 0) and is on its way out. */
  predicate Leaving(s: State)
  {
    LifeOk(s) && ShutdownOk(s) && s.posted
  }

  /** The next thing to do, of which nothing fails: the input thread reads before the main loop does. */
  function Onward(s: State): Action
    requires s.input.InDone? ==> !s.output.OutDone?
  {
    match s.input
    case Relaying => if s.relay.toInput != [] then InputRead else MainReads([])
    case ClosingSockets => InputCloses([])
    case InKick(_) => InputKick
    case InUnref => InputUnref
    case InDone => if s.output.OutUnref? then OutputUnref else OutputKick
  }

  lemma OnwardLeaves(s: State)
    requires Leaving(s) && (s.input.InDone? ==> !s.output.OutDone?)
    ensures var act := Onward(s);
            && Can(s, act) && Leaving(Next(s, act))
            && InputLeft(Next(s, act).input) <= InputLeft(s.input)
            && (s.input.Relaying? ==> Next(s, act).input.Relaying? || Next(s, act).input.ClosingSockets?)
            && (s.input.InDone? ==> Next(s, act).input.InDone? && OutputLeft(Next(s, act).output) < OutputLeft(s.output))
            && (InputLeft(Next(s, act).input) == InputLeft(s.input) && !s.input.InDone? ==>
                  && |Next(s, act).toMain| <= |s.toMain|
                  && (|Next(s, act).toMain| == |s.toMain| ==> |Next(s, act).relay.toInput| < |s.relay.toInput|))
  {
    var act := Onward(s);
    LifeKeeps(s, act);
    NextShutdown(s, act);
  }

  lemma {:induction false} LeavingEnds(s: State) returns (path: seq<State>)
    requires Leaving(s)
    ensures IsPath(path) && path[0] == s && Last(path).life.closes == 1 && Last(path).life.removes == 1
    ensures s.input.Relaying? ==> exists k :: 0 <= k < |path| && path[k].input.ClosingSockets?
    decreases InputLeft(s.input), |s.toMain|, |s.relay.toInput|, OutputLeft(s.output)
  {
    if s.input.InDone? && s.output.OutDone? {
      path := [s];
    } else {
      OnwardLeaves(s);
      var s' := Next(s, Onward(s));
      var rest := LeavingEnds(s');
      PathCons(s, rest);
      path := [s] + rest;
      if s.input.Relaying? {
        assert rest[0] == s';
        var k :| 0 <= k < |rest| && rest[k].input.ClosingSockets?;
        assert path[k + 1] == rest[k];
      }
    }
  }

  /** From every state of every run in which the output thread has posted its SYNC(0, 0) there is a way
      on, without anything failing, to where the transport is closed and removed; an input thread that
      still relays closes the sockets on that way. */
  lemma ShutdownEnds(run: seq<State>) returns (path: seq<State>)
    requires IsRun(run) && Last(run).posted
    ensures IsPath(path) && path[0] == Last(run) && Last(path).life.closes == 1 && Last(path).life.removes == 1
    ensures Last(run).input.Relaying? ==> exists k :: 0 <= k < |path| && path[k].input.ClosingSockets?
  {
    RunLife(run);
    ShutdownArrives(run);
    path := LeavingEnds(Last(run));
  }

  /** The input thread lets go of the transport only after it has closed the sockets. */
  lemma {:induction false} SocketsClosedFirst(run: seq<State>, acts: seq<Action>, n: nat)
    requires IsTrace(run, acts) && n <= |acts| && InputLeft(run[n].input) < 5
    ensures exists k :: 0 <= k < n && acts[k].InputCloses?
  {
    assert n > 0;
    assert Can(run[n - 1], acts[n - 1]) && run[n] == Next(run[n - 1], acts[n - 1]);
    if InputLeft(run[n - 1].input) < 5 {
      SocketsClosedFirst(run, acts, n - 1);
    } else {
      assert acts[n - 1].InputCloses?;
    }
  }
}
