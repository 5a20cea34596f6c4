/**
 The fdevent loop over select(): a table from descriptors to event records, three descriptor sets,
 the interest and event bits of each record, and the list of records with events to dispatch.
 Records are named by handles; handle 0 is the null pointer.
 */
module FdEvent {
  import ByteSeqs
  import opened IdLists

  /** FDE_READ, FDE_WRITE, FDE_ERROR and FDE_DONT_CLOSE. */
  datatype Mask = Mask(read: bool, write: bool, error: bool, keep: bool)

  const NONE := Mask(false, false, false, false)

  function Or(a: Mask, b: Mask): Mask
  {
    Mask(a.read || b.read, a.write || b.write, a.error || b.error, a.keep || b.keep)
  }

  function Minus(a: Mask, b: Mask): Mask
  {
    Mask(a.read && !b.read, a.write && !b.write, a.error && !b.error, a.keep && !b.keep)
  }

  /** want and the two flags are the state word; events are the events seen and not yet dispatched. */
  datatype Fde = Fde(fd: int, active: bool, pending: bool, want: Mask, events: Mask)

  /** The three descriptor sets. */
  datatype Sets = Sets(read: set<int>, write: set<int>, error: set<int>)

  type Fdes = map<nat, Fde>

  datatype Loop = Loop(fdes: Fdes, table: seq<nat>, sets: Sets, selectN: nat, pending: seq<nat>)

  const EMPTY := Loop(map[], [], Sets({}, {}, {}), 0, [])

  // ---- the representations agree ----

  /** The table holds exactly the active records, each at its own descriptor, below selectN. */
  ghost predicate TableOk(fdes: Fdes, table: seq<nat>, selectN: nat)
  {
    && 0 !in fdes && selectN <= |table|
    && (forall f :: f in fdes && fdes[f].active ==>
          0 <= fdes[f].fd < selectN && table[fdes[f].fd] == f)
    && (forall i :: 0 <= i < |table| && table[i] != 0 ==>
          table[i] in fdes && fdes[table[i]].active && fdes[table[i]].fd == i)
  }

  /** What a descriptor's record wants, if it has one. */
  function Wanted(fdes: Fdes, table: seq<nat>, i: int): Mask
  {
    if 0 <= i < |table| && table[i] in fdes then fdes[table[i]].want else NONE
  }

  predicate Agrees(m: Mask, s: Sets, i: int)
  {
    (i in s.read <==> m.read) && (i in s.write <==> m.write) && (i in s.error <==> m.error)
  }

  /** Each descriptor set holds exactly the descriptors whose record wants that event. */
  ghost predicate SetsOk(fdes: Fdes, table: seq<nat>, sets: Sets)
  {
    forall i :: Agrees(Wanted(fdes, table, i), sets, i)
  }

  /** On the list once, flagged pending, having events: all the same. */
  ghost predicate PendingOk(fdes: Fdes, pending: seq<nat>)
  {
    && NoDup(pending)
    && (forall f :: f in pending ==> f in fdes && fdes[f].pending)
    && (forall f :: f in fdes && fdes[f].pending ==> f in pending && fdes[f].active)
    && (forall f :: f in fdes ==> (fdes[f].pending <==> fdes[f].events != NONE))
  }

  ghost predicate LoopOk(l: Loop)
  {
    TableOk(l.fdes, l.table, l.selectN) && SetsOk(l.fdes, l.table, l.sets) && PendingOk(l.fdes, l.pending)
  }

  // ---- install ----

  /** The table size that makes room for fd. */
  function Grown(size: nat, fd: nat): (r: nat)
    requires size > 0
    ensures r > fd && r >= size
    decreases fd + 1 - size
  {
    if size <= fd then Grown(2 * size, fd) else size
  }

  function Room(table: seq<nat>, fd: nat): seq<nat>
  {
    if fd < |table| then table
    else table + seq(Grown(if |table| == 0 then 256 else |table|, fd) - |table|, _ => 0)
  }

  /** fdevent_install aborts on a negative descriptor, and on a huge one beyond the table. */
  predicate Installable(l: Loop, fd: int)
  {
    0 <= fd && (fd < |l.table| || fd <= 32000)
  }

  function Installed(l: Loop, f: nat, fd: nat): Loop
  {
    var room := Room(l.table, fd);
    l.(fdes := l.fdes[f := Fde(fd, true, false, NONE, NONE)], table := room[fd := f],
       selectN := if fd >= l.selectN then fd + 1 else l.selectN)
  }

  lemma InstallTable(fdes: Fdes, table: seq<nat>, selectN: nat, f: nat, fd: nat)
    requires TableOk(fdes, table, selectN) && f != 0 && (f in fdes ==> !fdes[f].active)
    requires fd < |table| ==> table[fd] == 0
    ensures TableOk(fdes[f := Fde(fd, true, false, NONE, NONE)], Room(table, fd)[fd := f],
                    if fd >= selectN then fd + 1 else selectN)
  {
  }

  lemma InstallSets(fdes: Fdes, table: seq<nat>, selectN: nat, sets: Sets, f: nat, fd: nat)
    requires TableOk(fdes, table, selectN) && SetsOk(fdes, table, sets)
    requires f != 0 && (f in fdes ==> !fdes[f].active) && (fd < |table| ==> table[fd] == 0)
    ensures SetsOk(fdes[f := Fde(fd, true, false, NONE, NONE)], Room(table, fd)[fd := f], sets)
  {
    var fdes' := fdes[f := Fde(fd, true, false, NONE, NONE)];
    var table' := Room(table, fd)[fd := f];
    forall i ensures Agrees(Wanted(fdes', table', i), sets, i) {
      assert Agrees(Wanted(fdes, table, i), sets, i);
    }
  }

  lemma InstallPending(fdes: Fdes, pending: seq<nat>, f: nat, fd: nat)
    requires PendingOk(fdes, pending) && (f in fdes ==> !fdes[f].active)
    ensures PendingOk(fdes[f := Fde(fd, true, false, NONE, NONE)], pending)
  {
  }

  lemma InstallOk(l: Loop, f: nat, fd: nat)
    requires LoopOk(l) && f != 0 && (f in l.fdes ==> !l.fdes[f].active)
    requires fd < |l.table| ==> l.table[fd] == 0
    ensures LoopOk(Installed(l, f, fd))
  {
    InstallTable(l.fdes, l.table, l.selectN, f, fd);
    InstallSets(l.fdes, l.table, l.selectN, l.sets, f, fd);
    InstallPending(l.fdes, l.pending, f, fd);
  }

  // ---- remove ----

  /** The highest used slot among the first n, or 0. */
  function LastUsed(table: seq<nat>, n: nat): (r: nat)
    requires n <= |table|
    ensures r < n || r == 0
    ensures forall i :: 0 <= i < n && table[i] != 0 ==> i <= r
  {
    if n == 0 then 0 else if table[n - 1] != 0 then n - 1 else LastUsed(table, n - 1)
  }

  function Cleared(s: Sets, fd: int): Sets
  {
    Sets(s.read - {fd}, s.write - {fd}, s.error - {fd})
  }

  function Off(e: Fde): Fde
  {
    e.(active := false, pending := false, want := NONE, events := NONE)
  }

  /** fdevent_remove: off the list, out of the sets, out of the table. */
  function Removed(l: Loop, f: nat): Loop
    requires f in l.fdes && l.selectN <= |l.table|
  {
    var e := l.fdes[f];
    var l' := l.(fdes := l.fdes[f := Off(e)], pending := if e.pending then Without(l.pending, f) else l.pending);
    if e.active && 0 <= e.fd < |l.table| then
      l'.(sets := Cleared(l.sets, e.fd), selectN := LastUsed(l.table, l.selectN) + 1, table := l.table[e.fd := 0])
    else l'
  }

  lemma RemoveTable(fdes: Fdes, table: seq<nat>, selectN: nat, f: nat)
    requires TableOk(fdes, table, selectN) && f in fdes && fdes[f].active
    ensures TableOk(fdes[f := Off(fdes[f])], table[fdes[f].fd := 0], LastUsed(table, selectN) + 1)
  {
  }

  lemma RemoveSets(fdes: Fdes, table: seq<nat>, selectN: nat, sets: Sets, f: nat)
    requires TableOk(fdes, table, selectN) && SetsOk(fdes, table, sets) && f in fdes && fdes[f].active
    ensures SetsOk(fdes[f := Off(fdes[f])], table[fdes[f].fd := 0], Cleared(sets, fdes[f].fd))
  {
    var fd := fdes[f].fd;
    var fdes', table' := fdes[f := Off(fdes[f])], table[fd := 0];
    forall i ensures Agrees(Wanted(fdes', table', i), Cleared(sets, fd), i) {
      assert Agrees(Wanted(fdes, table, i), sets, i);
    }
  }

  lemma RemovePending(fdes: Fdes, pending: seq<nat>, f: nat)
    requires PendingOk(fdes, pending) && f in fdes
    ensures PendingOk(fdes[f := Off(fdes[f])], if fdes[f].pending then Without(pending, f) else pending)
  {
    WithoutOthers(pending, f);
    WithoutNoDup(pending, f);
  }

  lemma RemoveIdle(l: Loop, f: nat)
    requires LoopOk(l) && f in l.fdes && !l.fdes[f].active
    ensures LoopOk(Removed(l, f))
  {
    RemovePending(l.fdes, l.pending, f);
    var fdes' := l.fdes[f := Off(l.fdes[f])];
    forall i ensures Agrees(Wanted(fdes', l.table, i), l.sets, i) {
      assert Agrees(Wanted(l.fdes, l.table, i), l.sets, i);
    }
  }

  lemma RemoveOk(l: Loop, f: nat)
    requires LoopOk(l) && f in l.fdes
    ensures LoopOk(Removed(l, f)) && Sub(Removed(l, f).pending, l.pending)
  {
    WithoutSub(l.pending, f);
    SubSelf(l.pending);
    if l.fdes[f].active {
      RemoveTable(l.fdes, l.table, l.selectN, f);
      RemoveSets(l.fdes, l.table, l.selectN, l.sets, f);
      RemovePending(l.fdes, l.pending, f);
    } else {
      RemoveIdle(l, f);
    }
  }

  // ---- set ----

  function Put(s: set<int>, fd: int, on: bool): set<int>
  {
    if on then s + {fd} else s - {fd}
  }

  function Updated(s: Sets, fd: int, m: Mask): Sets
  {
    Sets(Put(s.read, fd, m.read), Put(s.write, fd, m.write), Put(s.error, fd, m.error))
  }

  /** A pending record whose interest is set loses the events now wanted, and with its last event
      its place on the list. */
  function SetFde(e: Fde, m: Mask): Fde
  {
    var events := if e.pending then Minus(e.events, m) else e.events;
    e.(want := m, events := events, pending := e.pending && events != NONE)
  }

  /** fdevent_set. */
  function SetTo(l: Loop, f: nat, m: Mask): Loop
    requires f in l.fdes
  {
    var e := l.fdes[f];
    if e.want == m then l
    else
      var e' := SetFde(e, m);
      l.(fdes := l.fdes[f := e'], sets := if e.active then Updated(l.sets, e.fd, m) else l.sets,
         pending := if e.pending && !e'.pending then Without(l.pending, f) else l.pending)
  }

  lemma SetTable(fdes: Fdes, table: seq<nat>, selectN: nat, f: nat, m: Mask)
    requires TableOk(fdes, table, selectN) && f in fdes
    ensures TableOk(fdes[f := SetFde(fdes[f], m)], table, selectN)
  {
  }

  lemma SetSets(fdes: Fdes, table: seq<nat>, selectN: nat, sets: Sets, f: nat, m: Mask)
    requires TableOk(fdes, table, selectN) && SetsOk(fdes, table, sets) && f in fdes
    ensures SetsOk(fdes[f := SetFde(fdes[f], m)], table, if fdes[f].active then Updated(sets, fdes[f].fd, m) else sets)
  {
    var e := fdes[f];
    var sets' := if e.active then Updated(sets, e.fd, m) else sets;
    var fdes' := fdes[f := SetFde(e, m)];
    forall i ensures Agrees(Wanted(fdes', table, i), sets', i) {
      assert Agrees(Wanted(fdes, table, i), sets, i);
    }
  }

  lemma SetPending(fdes: Fdes, pending: seq<nat>, f: nat, m: Mask)
    requires PendingOk(fdes, pending) && f in fdes
    ensures var e := SetFde(fdes[f], m);
            PendingOk(fdes[f := e], if fdes[f].pending && !e.pending then Without(pending, f) else pending)
  {
    WithoutOthers(pending, f);
    WithoutNoDup(pending, f);
  }

  lemma SetOk(l: Loop, f: nat, m: Mask)
    requires LoopOk(l) && f in l.fdes
    ensures LoopOk(SetTo(l, f, m)) && Sub(SetTo(l, f, m).pending, l.pending)
  {
    SetTable(l.fdes, l.table, l.selectN, f, m);
    SetSets(l.fdes, l.table, l.selectN, l.sets, f, m);
    SetPending(l.fdes, l.pending, f, m);
    WithoutSub(l.pending, f);
    SubSelf(l.pending);
  }

  // ---- collecting events ----

  /** The events that the returned sets report for a descriptor. */
  function Reported(s: Sets, i: int): Mask
  {
    Mask(i in s.read, i in s.write, i in s.error, false)
  }

  /** New events for a record; the first ones put it on the list. */
  function Noted(l: Loop, f: nat, ev: Mask): Loop
    requires f in l.fdes
  {
    var e := l.fdes[f];
    l.(fdes := l.fdes[f := e.(events := Or(e.events, ev), pending := true)],
       pending := if e.pending then l.pending else l.pending + [f])
  }

  /** The loop after the first n descriptors have been looked at. */
  function Scanned(l: Loop, s: Sets, n: nat): (r: Loop)
    requires n <= |l.table|
    ensures r.table == l.table && r.selectN == l.selectN && r.sets == l.sets
  {
    if n == 0 then l
    else
      var r := Scanned(l, s, n - 1);
      var f := l.table[n - 1];
      if Reported(s, n - 1) != NONE && f in r.fdes then Noted(r, f, Reported(s, n - 1)) else r
  }

  lemma NotedOk(l: Loop, f: nat, ev: Mask)
    requires LoopOk(l) && f in l.fdes && l.fdes[f].active && ev != NONE
    ensures LoopOk(Noted(l, f, ev))
  {
    var fdes' := Noted(l, f, ev).fdes;
    forall i ensures Agrees(Wanted(fdes', l.table, i), l.sets, i) {
      assert Agrees(Wanted(l.fdes, l.table, i), l.sets, i);
    }
    if !l.fdes[f].pending {
      SnocNoDup(l.pending, f);
    }
  }

  lemma {:induction false} ScannedOk(l: Loop, s: Sets, n: nat)
    requires LoopOk(l) && n <= |l.table|
    ensures LoopOk(Scanned(l, s, n))
  {
    if n > 0 {
      ScannedOk(l, s, n - 1);
      var r, f := Scanned(l, s, n - 1), l.table[n - 1];
      if Reported(s, n - 1) != NONE && f in r.fdes {
        assert f != 0;
        NotedOk(r, f, Reported(s, n - 1));
      }
    }
  }

  /** Each record scanned has its reported events added to what it had; the others are as before. */
  lemma {:induction false} ScannedEvents(l: Loop, s: Sets, n: nat, f: nat)
    requires LoopOk(l) && n <= |l.table| && f in l.fdes
    ensures var e := l.fdes[f];
            f in Scanned(l, s, n).fdes && Scanned(l, s, n).fdes[f] ==
              if e.active && e.fd < n && Reported(s, e.fd) != NONE
              then e.(events := Or(e.events, Reported(s, e.fd)), pending := true) else e
  {
    if n > 0 {
      ScannedEvents(l, s, n - 1, f);
      ScannedOk(l, s, n - 1);
      var g := l.table[n - 1];
      if g == f {
        assert f != 0;
      }
    }
  }

  /** The records a scan puts on the list, in the order of their descriptors. */
  function Newly(l: Loop, s: Sets, n: nat): seq<nat>
    requires n <= |l.table|
  {
    if n == 0 then []
    else
      var f := l.table[n - 1];
      Newly(l, s, n - 1) +
      if Reported(s, n - 1) != NONE && f in l.fdes && !l.fdes[f].pending then [f] else []
  }

  /** A scan keeps the records already on the list in place and appends the new ones. */
  lemma {:induction false} ScannedList(l: Loop, s: Sets, n: nat)
    requires LoopOk(l) && n <= |l.table|
    ensures Scanned(l, s, n).pending == l.pending + Newly(l, s, n)
  {
    if n == 0 {
      assert l.pending + [] == l.pending;
    } else {
      ScannedList(l, s, n - 1);
      SlotUntouched(l, s, n - 1);
      var f := l.table[n - 1];
      var own := if Reported(s, n - 1) != NONE && f in l.fdes && !l.fdes[f].pending then [f] else [];
      ByteSeqs.Regroup(l.pending, Newly(l, s, n - 1), own);
    }
  }

  /** A scan has not yet touched the record of the descriptor it comes to next. */
  lemma SlotUntouched(l: Loop, s: Sets, n: nat)
    requires LoopOk(l) && n < |l.table|
    ensures var f, r := l.table[n], Scanned(l, s, n);
            (f in r.fdes <==> f in l.fdes) && (f in l.fdes ==> r.fdes[f] == l.fdes[f])
  {
    ScannedSame(l, s, n);
    var f := l.table[n];
    if f in l.fdes {
      assert f != 0 && l.fdes[f].fd == n;
      ScannedEvents(l, s, n, f);
    }
  }

  lemma {:induction false} ScannedSame(l: Loop, s: Sets, n: nat)
    requires n <= |l.table|
    ensures Scanned(l, s, n).fdes.Keys == l.fdes.Keys
  {
    if n > 0 {
      ScannedSame(l, s, n - 1);
    }
  }

  /** Descriptors for which nothing is reported can be left unscanned. */
  lemma {:induction false} ScannedRest(l: Loop, s: Sets, i: nat, n: nat)
    requires i <= n <= |l.table|
    requires forall k :: i <= k < n ==> Reported(s, k) == NONE
    ensures Scanned(l, s, n) == Scanned(l, s, i)
  {
    if i < n {
      ScannedRest(l, s, i, n - 1);
    }
  }

  // ---- dispatching ----

  /** The head of the list taken off it, its events cleared, before its callback runs. */
  function Taken(l: Loop): Loop
    requires l.pending != [] && l.pending[0] in l.fdes
  {
    var f := l.pending[0];
    l.(fdes := l.fdes[f := l.fdes[f].(events := NONE, pending := false)], pending := l.pending[1..])
  }

  lemma TakenOk(l: Loop)
    requires LoopOk(l) && l.pending != []
    ensures l.pending[0] in l.fdes && LoopOk(Taken(l))
  {
    var f := l.pending[0];
    assert f in l.pending;
    var fdes' := Taken(l).fdes;
    forall i ensures Agrees(Wanted(fdes', l.table, i), l.sets, i) {
      assert Agrees(Wanted(l.fdes, l.table, i), l.sets, i);
    }
    assert forall g :: g in l.pending <==> g == f || g in l.pending[1..];
  }

  /** What a callback may do to the loop. */
  datatype Op = Install(f: nat, fd: int) | Remove(f: nat) | Set(f: nat, m: Mask)
              | Add(f: nat, m: Mask) | Del(f: nat, m: Mask)

  /** Records are installed once, on descriptors that no other record is installed on. */
  predicate Legal(l: Loop, op: Op)
  {
    match op
    case Install(f, fd) =>
      && f != 0 && (f in l.fdes ==> !l.fdes[f].active)
      && Installable(l, fd) && (fd < |l.table| ==> l.table[fd] == 0)
    case _ => op.f in l.fdes
  }

  function Targets(ops: seq<Op>): set<nat>
  {
    set i | 0 <= i < |ops| :: ops[i].f
  }

  /** Pending records other than these stay pending and as they are. */
  ghost predicate Spares(l: Loop, l': Loop, touched: set<nat>)
  {
    forall f :: f in l.pending && f !in touched ==>
      f in l'.pending && f in l.fdes && f in l'.fdes && l'.fdes[f] == l.fdes[f]
  }

  lemma SparesBoth(l: Loop, mid: Loop, l': Loop, a: set<nat>, b: set<nat>)
    requires Spares(l, mid, a) && Spares(mid, l', b)
    ensures Spares(l, l', a + b)
  {
  }

  lemma SparesMore(l: Loop, l': Loop, a: set<nat>, b: set<nat>)
    requires Spares(l, l', a) && a <= b
    ensures Spares(l, l', b)
  {
  }

  lemma SetSpares(l: Loop, f: nat, m: Mask)
    requires LoopOk(l) && f in l.fdes
    ensures Spares(l, SetTo(l, f, m), {f})
  {
    WithoutOthers(l.pending, f);
  }

  lemma RemoveSpares(l: Loop, f: nat)
    requires LoopOk(l) && f in l.fdes
    ensures Spares(l, Removed(l, f), {f})
  {
    WithoutOthers(l.pending, f);
  }

  /** No callback does anything to the record. */
  ghost predicate Untouched<M(!new)>(callback: (M, Loop, nat, Mask) -> (seq<Op>, M), f: nat)
  {
    forall m: M, l: Loop, g: nat, ev: Mask :: f !in Targets(callback(m, l, g, ev).0)
  }

  ghost predicate CalledWith(calls: seq<nat>, events: seq<Mask>, f: nat, ev: Mask)
  {
    |calls| == |events| && exists k :: 0 <= k < |calls| && calls[k] == f && events[k] == ev
  }

  /** Every record that was pending and is not touched is still pending as it was, or has been called
      with the events it had. */
  ghost predicate Attended<M(!new)>(callback: (M, Loop, nat, Mask) -> (seq<Op>, M), was: Loop, now: Loop,
                                    calls: seq<nat>, events: seq<Mask>)
  {
    forall f :: f in was.pending && f in was.fdes && Untouched(callback, f) ==>
      || (f in now.pending && f in now.fdes && now.fdes[f] == was.fdes[f])
      || CalledWith(calls, events, f, was.fdes[f].events)
  }

  lemma CalledMore(calls: seq<nat>, events: seq<Mask>, f: nat, ev: Mask, g: nat, more: Mask)
    requires |calls| == |events|
    ensures CalledWith(calls, events, f, ev) ==> CalledWith(calls + [g], events + [more], f, ev)
    ensures CalledWith(calls + [g], events + [more], g, more)
  {
    if k :| 0 <= k < |calls| && calls[k] == f && events[k] == ev {
      assert (calls + [g])[k] == f && (events + [more])[k] == ev;
    }
    assert (calls + [g])[|calls|] == g && (events + [more])[|calls|] == more;
  }

  lemma AttendedNext<M(!new)>(callback: (M, Loop, nat, Mask) -> (seq<Op>, M), was: Loop, before: Loop, now: Loop,
                              calls: seq<nat>, events: seq<Mask>, ops: seq<Op>)
    requires |calls| == |events| && Attended(callback, was, before, calls, events)
    requires before.pending != [] && before.pending[0] in before.fdes && Spares(Taken(before), now, Targets(ops))
    requires forall f :: Untouched(callback, f) ==> f !in Targets(ops)
    ensures var g := before.pending[0];
            Attended(callback, was, now, calls + [g], events + [before.fdes[g].events])
  {
    var g := before.pending[0];
    var ev := before.fdes[g].events;
    forall f | f in was.pending && f in was.fdes && Untouched(callback, f)
      ensures || (f in now.pending && f in now.fdes && now.fdes[f] == was.fdes[f])
              || CalledWith(calls + [g], events + [ev], f, was.fdes[f].events)
    {
      CalledMore(calls, events, f, was.fdes[f].events, g, ev);
      if f in before.pending && f != g {
        assert f in Taken(before).pending;
      }
    }
  }

  /** What select() returned; bad descriptors are those fcntl rejects. */
  datatype Select = Ready(s: Sets) | Interrupted | BadDescriptor | OtherError

  /** Members of a set of descriptors not yet passed by the scan. */
  function Rest(s: set<int>, i: int): set<int>
  {
    set x | x in s && x >= i
  }

  lemma RestStep(s: set<int>, i: int)
    ensures |Rest(s, i)| == |Rest(s, i + 1)| + if i in s then 1 else 0
  {
    if i in s {
      assert Rest(s, i) == Rest(s, i + 1) + {i};
    } else {
      assert Rest(s, i) == Rest(s, i + 1);
    }
  }

  lemma RestNone(s: set<int>, i: int)
    requires |Rest(s, i)| == 0
    ensures forall k :: k in s ==> k < i
  {
    forall k | k in s ensures k < i {
      assert k in Rest(s, i) || k < i;
    }
  }

  /** The number of reports not yet passed by the scan. */
  function Left(s: Sets, i: int): nat
  {
    |Rest(s.read, i)| + |Rest(s.write, i)| + |Rest(s.error, i)|
  }

  /** Every reported descriptor has a record. */
  ghost predicate Registered(l: Loop, s: Sets)
  {
    forall i :: i in s.read || i in s.write || i in s.error ==> 0 <= i < |l.table| && i < l.selectN && l.table[i] != 0
  }

  /** The registered descriptors that fcntl rejects. */
  function BadOnes(l: Loop, bad: set<int>): set<int>
  {
    set i | i in bad && 0 <= i < |l.table| && i < l.selectN && l.table[i] != 0
  }

  /** The reports that a pass over the table acts on: those of select(), or a faked read for every
      bad descriptor when select() failed on one or reported nothing. */
  function Acted(l: Loop, sel: Select, bad: set<int>): Sets
  {
    match sel
    case Ready(s) => if |s.read| + |s.write| + |s.error| > 0 then s else Sets(BadOnes(l, bad), {}, {})
    case BadDescriptor => Sets(BadOnes(l, bad), {}, {})
    case _ => Sets({}, {}, {})
  }

  /** select() failed on a descriptor or reported nothing, so that reads are faked. */
  predicate Fakes(sel: Select)
  {
    sel.BadDescriptor? || (sel.Ready? && |sel.s.read| + |sel.s.write| + |sel.s.error| == 0)
  }

  /** select() only clears bits of the sets it is given. */
  ghost predicate Answer(l: Loop, sel: Select)
  {
    sel.Ready? ==> sel.s.read <= l.sets.read && sel.s.write <= l.sets.write && sel.s.error <= l.sets.error
  }

  lemma AnswerRegistered(l: Loop, sel: Select, bad: set<int>)
    requires LoopOk(l) && Answer(l, sel)
    ensures Registered(l, Acted(l, sel, bad))
  {
    var s := Acted(l, sel, bad);
    forall i | i in s.read || i in s.write || i in s.error
      ensures 0 <= i < |l.table| && i < l.selectN && l.table[i] != 0 {
      assert Agrees(Wanted(l.fdes, l.table, i), l.sets, i);
    }
  }

  lemma LeftAll(l: Loop, s: Sets)
    requires Registered(l, s)
    ensures Left(s, 0) == |s.read| + |s.write| + |s.error|
    ensures Left(s, l.selectN) == 0
  {
    assert Rest(s.read, 0) == s.read && Rest(s.write, 0) == s.write && Rest(s.error, 0) == s.error;
    assert Rest(s.read, l.selectN) == {} && Rest(s.write, l.selectN) == {} && Rest(s.error, l.selectN) == {};
  }

  lemma LeftStep(s: Sets, i: int)
    ensures Left(s, i) == Left(s, i + 1) + (if i in s.read then 1 else 0) + (if i in s.write then 1 else 0)
                          + (if i in s.error then 1 else 0)
  {
    RestStep(s.read, i);
    RestStep(s.write, i);
    RestStep(s.error, i);
  }

  lemma LeftNone(l: Loop, s: Sets, i: nat)
    requires i <= l.selectN <= |l.table| && Left(s, i) == 0
    ensures Scanned(l, s, l.selectN) == Scanned(l, s, i)
  {
    RestNone(s.read, i);
    RestNone(s.write, i);
    RestNone(s.error, i);
    ScannedRest(l, s, i, l.selectN);
  }

  /** One turn of the scan: what is reported has a record, and its events are added to that. */
  lemma ScanTurn(l: Loop, s: Sets, i: nat)
    requires LoopOk(l) && Registered(l, s) && i < l.selectN
    ensures l.selectN <= |l.table|
    ensures var f, ev, r := l.table[i], Reported(s, i), Scanned(l, s, i);
            && (ev != NONE ==> f != 0 && f in r.fdes)
            && Scanned(l, s, i + 1) == if ev != NONE then Noted(r, f, ev) else r
  {
    SlotUntouched(l, s, i);
  }

  class EventLoop {
    var l: Loop
    var closed: seq<int>    // descriptors closed by fdevent_unregister, in order

    ghost predicate Valid()
      reads this
    {
      LoopOk(l)
    }

    constructor ()
      ensures Valid() && l == EMPTY && closed == []
    {
      l, closed := EMPTY, [];
    }

    /** fdevent_install; the result says whether it aborted. */
    method Install(f: nat, fd: int) returns (fatal: bool)
      requires Valid() && f != 0 && (f in l.fdes ==> !l.fdes[f].active)
      requires 0 <= fd < |l.table| ==> l.table[fd] == 0
      modifies this`l
      ensures Valid() && (fatal <==> !Installable(old(l), fd))
      ensures l == if fatal then old(l) else Installed(old(l), f, fd)
      ensures !fatal ==> fd < |l.table| && l.table[fd] == f && l.fdes == old(l).fdes[f := Fde(fd, true, false, NONE, NONE)]
    {
      if fd < 0 || (fd >= |l.table| && fd > 32000) {
        return true;
      }
      InstallOk(l, f, fd);
      var table := l.table;
      if fd >= |table| {
        var max := if |table| == 0 then 256 else |table|;
        while max <= fd
          invariant |table| <= max && 0 < max && Grown(max, fd) == Grown(if |table| == 0 then 256 else |table|, fd)
          decreases fd + 1 - max
        {
          max := 2 * max;
        }
        table := table + seq(max - |table|, _ => 0);
      }
      l := l.(fdes := l.fdes[f := Fde(fd, true, false, NONE, NONE)], table := table[fd := f]);
      if fd >= l.selectN {
        l := l.(selectN := fd + 1);
      }
      return false;
    }

    /** fdevent_remove; neither of the aborts of fdevent_unregister is reached. */
    method Remove(f: nat) returns (fatal: bool)
      requires Valid() && f in l.fdes
      modifies this
      ensures Valid() && !fatal && l == Removed(old(l), f) && Sub(l.pending, old(l).pending)
      ensures f !in l.pending && f in l.fdes && !l.fdes[f].active && l.fdes == old(l).fdes[f := l.fdes[f]]
      ensures closed == old(closed) + var e := old(l).fdes[f]; if e.active && !e.want.keep then [e.fd] else []
    {
      fatal := false;
      RemoveOk(l, f);
      var e := l.fdes[f];
      if e.pending {
        l := l.(pending := Without(l.pending, f));
      }
      if e.active {
        var n := 0;
        for i := 0 to l.selectN
          invariant n == LastUsed(l.table, i)
        {
          if l.table[i] != 0 {
            n := i;
          }
        }
        l := l.(sets := Cleared(l.sets, e.fd), selectN := n + 1);
        if e.fd < 0 || e.fd >= |l.table| || l.table[e.fd] != f {
          return true;
        }
        l := l.(table := l.table[e.fd := 0]);
        if !e.want.keep {
          closed := closed + [e.fd];
        }
      }
      l := l.(fdes := l.fdes[f := Off(e)]);
    }

    /** fdevent_set. */
    method SetInterest(f: nat, m: Mask)
      requires Valid() && f in l.fdes
      modifies this`l
      ensures Valid() && l == SetTo(old(l), f, m) && Sub(l.pending, old(l).pending)
      ensures f in l.fdes && Reset(old(l), l, f, m)
    {
      SetBits(l, f, m);
      SetOk(l, f, m);
      var e := l.fdes[f];
      if e.want == m {
        return;
      }
      if e.active {
        l := l.(sets := Updated(l.sets, e.fd, m));
      }
      e := e.(want := m);
      if e.pending {
        e := e.(events := Minus(e.events, m));
        if e.events == NONE {
          l := l.(pending := Without(l.pending, f));
          e := e.(pending := false);
        }
      }
      l := l.(fdes := l.fdes[f := e]);
    }

    /** fdevent_add. */
    method AddInterest(f: nat, m: Mask)
      requires Valid() && f in l.fdes
      modifies this`l
      ensures Valid() && l == SetTo(old(l), f, Or(old(l).fdes[f].want, m)) && Sub(l.pending, old(l).pending)
      ensures f in l.fdes && var was, now := old(l).fdes[f].want, l.fdes[f].want;
              && (now.read <==> was.read || m.read) && (now.write <==> was.write || m.write)
              && (now.error <==> was.error || m.error) && (now.keep <==> was.keep || m.keep)
    {
      SetInterest(f, Or(l.fdes[f].want, m));
    }

    /** fdevent_del. */
    method DelInterest(f: nat, m: Mask)
      requires Valid() && f in l.fdes
      modifies this`l
      ensures Valid() && l == SetTo(old(l), f, Minus(old(l).fdes[f].want, m)) && Sub(l.pending, old(l).pending)
      ensures f in l.fdes && var was, now := old(l).fdes[f].want, l.fdes[f].want;
              && (now.read <==> was.read && !m.read) && (now.write <==> was.write && !m.write)
              && (now.error <==> was.error && !m.error) && (now.keep <==> was.keep && !m.keep)
    {
      SetInterest(f, Minus(l.fdes[f].want, m));
    }

    /** fdevent_fd_check: the bad descriptors and their number. */
    method FdCheck(bad: set<int>) returns (fds: set<int>, n: nat)
      requires Valid()
      ensures fds == BadOnes(l, bad) && n == |fds|
    {
      fds, n := {}, 0;
      for i := 0 to l.selectN
        invariant fds == (set k | k in bad && 0 <= k < |l.table| && k < i && l.table[k] != 0) && n == |fds|
      {
        if l.table[i] != 0 && i in bad {
          fds, n := fds + {i}, n + 1;
        }
      }
    }

    /** The events of one record; fdevent_plist_enqueue if they are its first. */
    method Note(f: nat, ev: Mask)
      requires f in l.fdes
      modifies this`l
      ensures l == Noted(old(l), f, ev)
    {
      var e := l.fdes[f];
      l := l.(fdes := l.fdes[f := e.(events := Or(e.events, ev), pending := true)],
              pending := if e.pending then l.pending else l.pending + [f]);
    }

    /** The scan of fdevent_process. It stops once n reports have been passed; it never meets a
        report for a descriptor without a record. */
    method Scan(s: Sets, count: nat) returns (fatal: bool)
      requires Valid() && Registered(l, s) && count == |s.read| + |s.write| + |s.error|
      modifies this`l
      ensures Valid() && !fatal && l == Scanned(old(l), s, old(l).selectN)
      ensures AllGain(old(l).fdes, l.fdes, s)
    {
      ScannedAll(l, s);
      ghost var l0 := l;
      var i, n := 0, count;
      LeftAll(l, s);
      while i < l.selectN && n > 0
        invariant 0 <= i <= l.selectN == l0.selectN && n == Left(s, i) && l == Scanned(l0, s, i)
      {
        LeftStep(s, i);
        ScanTurn(l0, s, i);
        var ev := Reported(s, i);
        n := n - (if ev.read then 1 else 0) - (if ev.write then 1 else 0) - (if ev.error then 1 else 0);
        if ev != NONE {
          var f := l.table[i];
          if f == 0 {
            return true;
          }
          Note(f, ev);
        }
        i := i + 1;
      }
      ScannedOk(l0, s, l0.selectN);
      if n == 0 {
        LeftNone(l0, s, i);
      }
      return false;
    }

    /** fdevent_process. */
    method Process(sel: Select, bad: set<int>) returns (fatal: bool)
      requires Valid() && Answer(l, sel)
      modifies this`l
      ensures Valid() && !fatal
      ensures l == Scanned(old(l), Acted(old(l), sel, bad), old(l).selectN)
      ensures l.fdes.Keys == old(l).fdes.Keys
      ensures forall f :: f in old(l).fdes ==> Notices(old(l).fdes[f], l.fdes[f], sel, bad)
    {
      AllNotice(l, sel, bad);
      AnswerRegistered(l, sel, bad);
      var s, n := Sets({}, {}, {}), 0;
      match sel {
        case Ready(r) =>
          s, n := r, |r.read| + |r.write| + |r.error|;
        case BadDescriptor =>
        case _ =>
          LeftAll(l, s);
          LeftNone(l, s, 0);
          return false;
      }
      if n <= 0 {
        var fds;
        fds, n := FdCheck(bad);
        s := Sets(fds, {}, {});
      }
      fatal := Scan(s, n);
    }

    /** fdevent_plist_dequeue and the first half of fdevent_call_fdfunc. */
    method TakePending() returns (f: nat, events: Mask)
      requires Valid() && l.pending != []
      modifies this`l
      ensures Valid() && f == old(l).pending[0] && f in old(l).fdes && l == Taken(old(l))
      ensures events == old(l).fdes[f].events && events != NONE
    {
      TakenOk(l);
      f := l.pending[0];
      assert f in l.pending;
      l := l.(pending := l.pending[1..]);
      events := l.fdes[f].events;
      l := l.(fdes := l.fdes[f := l.fdes[f].(events := NONE, pending := false)]);
    }

    /** One thing a callback does; records cannot get onto the list this way. */
    method RunOp(op: Op) returns (fatal: bool)
      requires Valid() && Legal(l, op)
      modifies this
      ensures Valid() && !fatal && Sub(l.pending, old(l).pending) && Spares(old(l), l, {op.f})
    {
      fatal := false;
      match op {
        case Install(f, fd) =>
          SubSelf(l.pending);
          fatal := Install(f, fd);
        case Remove(f) =>
          RemoveSpares(l, f);
          fatal := Remove(f);
        case Set(f, m) =>
          SetSpares(l, f, m);
          SetInterest(f, m);
        case Add(f, m) =>
          SetSpares(l, f, Or(l.fdes[f].want, m));
          AddInterest(f, m);
        case Del(f, m) =>
          SetSpares(l, f, Minus(l.fdes[f].want, m));
          DelInterest(f, m);
      }
    }

    /** A callback: any operations, of which only legal ones are ever made. */
    method RunCallback(ops: seq<Op>) returns (fatal: bool)
      requires Valid()
      modifies this
      ensures Valid() && !fatal && Sub(l.pending, old(l).pending) && Spares(old(l), l, Targets(ops))
    {
      fatal := false;
      SubSelf(l.pending);
      for i := 0 to |ops|
        invariant Valid() && !fatal && Sub(l.pending, old(l).pending) && Spares(old(l), l, Targets(ops))
      {
        if Legal(l, ops[i]) {
          ghost var before := l;
          fatal := RunOp(ops[i]);
          SubTransitive(l.pending, before.pending, old(l).pending);
          SparesBoth(old(l), before, l, Targets(ops), {ops[i].f});
          SparesMore(old(l), l, Targets(ops) + {ops[i].f}, Targets(ops));
        }
      }
    }

    /** The dispatch loop of fdevent_loop: whatever callbacks do, with whatever they remember from
        one call to the next, it ends, with an empty list. The records called are among those listed,
        in their order, each with events; and one that no callback touches is called, with the events
        it had. */
    method Dispatch<M(!new)>(callback: (M, Loop, nat, Mask) -> (seq<Op>, M), memory: M)
        returns (calls: seq<nat>, events: seq<Mask>, fatal: bool, after: M)
      requires Valid()
      modifies this
      ensures Valid() && !fatal && l.pending == []
      ensures Sub(calls, old(l).pending) && |events| == |calls| && NONE !in events
      ensures forall f :: f in old(l).pending && Untouched(callback, f) ==>
                f in old(l).fdes && CalledWith(calls, events, f, old(l).fdes[f].events)
    {
      calls, events, fatal, after := [], [], false, memory;
      SubSelf(l.pending);
      assert calls + l.pending == l.pending;
      while l.pending != []
        invariant Valid() && !fatal && Sub(calls + l.pending, old(l).pending)
        invariant |events| == |calls| && NONE !in events
        invariant Attended(callback, old(l), l, calls, events)
        decreases |l.pending|
      {
        ghost var first := l;
        ghost var before := l.pending;
        assert calls + before == (calls + [before[0]]) + before[1..];
        var f, ev := TakePending();
        var does := callback(after, l, f, ev);
        after := does.1;
        fatal := RunCallback(does.0);
        AttendedNext(callback, old(l), first, l, calls, events, does.0);
        calls, events := calls + [f], events + [ev];
        SubAppend(calls, l.pending, before[1..]);
        SubTransitive(calls + l.pending, calls + before[1..], old(l).pending);
        SubShorter(l.pending, before[1..]);
      }
      assert calls + l.pending == calls;
    }
  }

  // ---- bit by bit ----

  /** Only the events of a record have changed, by these being added. */
  predicate Gains(e: Fde, e': Fde, read: bool, write: bool, error: bool)
  {
    && e'.fd == e.fd && e'.active == e.active && e'.want == e.want && e'.events.keep == e.events.keep
    && (e'.events.read <==> e.events.read || read)
    && (e'.events.write <==> e.events.write || write)
    && (e'.events.error <==> e.events.error || error)
    && (e'.pending <==> e.pending || read || write || error)
  }

  /** A record after a pass over what select() said of its descriptor, and over the bad descriptors if
      reads are faked. */
  predicate Notices(e: Fde, e': Fde, sel: Select, bad: set<int>)
  {
    if e.active then
      Gains(e, e', (sel.Ready? && e.fd in sel.s.read) || (Fakes(sel) && e.fd in bad),
            sel.Ready? && e.fd in sel.s.write, sel.Ready? && e.fd in sel.s.error)
    else e' == e
  }

  /** A scan gives every registered record exactly the events that the sets have for its descriptor. */
  lemma ScannedBits(l: Loop, s: Sets, f: nat)
    requires LoopOk(l) && f in l.fdes
    ensures f in Scanned(l, s, l.selectN).fdes
    ensures var e, e' := l.fdes[f], Scanned(l, s, l.selectN).fdes[f];
            if e.active then Gains(e, e', e.fd in s.read, e.fd in s.write, e.fd in s.error) else e' == e
  {
    ScannedEvents(l, s, l.selectN, f);
  }

  ghost predicate AllGain(fdes: Fdes, fdes': Fdes, s: Sets)
  {
    forall f :: f in fdes ==>
      f in fdes' && var e, e' := fdes[f], fdes'[f];
      if e.active then Gains(e, e', e.fd in s.read, e.fd in s.write, e.fd in s.error) else e' == e
  }

  lemma ScannedAll(l: Loop, s: Sets)
    requires LoopOk(l)
    ensures AllGain(l.fdes, Scanned(l, s, l.selectN).fdes, s)
  {
    var fdes' := Scanned(l, s, l.selectN).fdes;
    forall f | f in l.fdes
      ensures f in fdes' && var e, e' := l.fdes[f], fdes'[f];
              if e.active then Gains(e, e', e.fd in s.read, e.fd in s.write, e.fd in s.error) else e' == e {
      ScannedBits(l, s, f);
    }
  }

  lemma {:induction false} ScannedKeys(l: Loop, s: Sets, n: nat)
    requires n <= |l.table|
    ensures Scanned(l, s, n).fdes.Keys == l.fdes.Keys
  {
    if n > 0 {
      ScannedKeys(l, s, n - 1);
    }
  }

  /** Every ready descriptor's record, and no other, is given exactly the events that select() reported,
      and a read if its descriptor is found bad. */
  lemma ProcessedBits(l: Loop, sel: Select, bad: set<int>, f: nat)
    requires LoopOk(l) && Answer(l, sel) && f in l.fdes
    ensures var after := Scanned(l, Acted(l, sel, bad), l.selectN);
            f in after.fdes && Notices(l.fdes[f], after.fdes[f], sel, bad)
  {
    ScannedBits(l, Acted(l, sel, bad), f);
    if sel.Ready? && Fakes(sel) {
      assert sel.s.read == {} && sel.s.write == {} && sel.s.error == {};
    }
  }

  lemma AllNotice(l: Loop, sel: Select, bad: set<int>)
    requires LoopOk(l) && Answer(l, sel)
    ensures var after := Scanned(l, Acted(l, sel, bad), l.selectN);
            && after.fdes.Keys == l.fdes.Keys
            && forall f :: f in l.fdes ==> f in after.fdes && Notices(l.fdes[f], after.fdes[f], sel, bad)
  {
    var after := Scanned(l, Acted(l, sel, bad), l.selectN);
    ScannedKeys(l, Acted(l, sel, bad), l.selectN);
    forall f | f in l.fdes ensures f in after.fdes && Notices(l.fdes[f], after.fdes[f], sel, bad) {
      ProcessedBits(l, sel, bad, f);
    }
  }

  /** fdevent_set, bit by bit: the interest is the one given, no other record changes, and a record
      whose interest changes loses the events it now wants. */
  predicate Reset(l: Loop, l': Loop, f: nat, m: Mask)
    requires f in l.fdes && f in l'.fdes
  {
    var e, e' := l.fdes[f], l'.fdes[f];
    && e'.want == m && e'.fd == e.fd && e'.active == e.active && l'.fdes == l.fdes[f := e']
    && (e'.events.read <==> e.events.read && (e.want == m || !m.read))
    && (e'.events.write <==> e.events.write && (e.want == m || !m.write))
    && (e'.events.error <==> e.events.error && (e.want == m || !m.error))
  }

  lemma SetBits(l: Loop, f: nat, m: Mask)
    requires LoopOk(l) && f in l.fdes
    ensures f in SetTo(l, f, m).fdes && Reset(l, SetTo(l, f, m), f, m)
  {
    assert l.fdes[f := l.fdes[f]] == l.fdes;
  }

  // ---- the mask of fdevent_set ----

  /** Every event of a is in b. */
  predicate Within(a: Mask, b: Mask)
  {
    Minus(a, b) == NONE
  }

  /** The comment in fdevent_set promises that a pending record keeps no event that is no longer
      wanted. The code clears the wanted ones instead, unless the interest does not change, so the
      promise is kept exactly when every pending event is wanted already. */
  lemma SetKeepsUnwanted(l: Loop, f: nat, m: Mask)
    requires LoopOk(l) && f in l.fdes
    ensures f in SetTo(l, f, m).fdes
    ensures var e, e' := l.fdes[f], SetTo(l, f, m).fdes[f];
            && (Within(e'.events, m) <==> Within(e.events, m))
            && (e.want == m ==> SetTo(l, f, m) == l)
            && (e.want != m ==> e'.events == Minus(e.events, m) && (f in SetTo(l, f, m).pending <==> !Within(e.events, m)))
  {
    WithoutOthers(l.pending, f);
  }

  /** A record that does not want reads has one to dispatch after a pass over the table if and only if
      it had one before, or one is faked because its descriptor is bad. */
  lemma NoNewRead(l: Loop, sel: Select, bad: set<int>, f: nat)
    requires LoopOk(l) && Answer(l, sel) && f in l.fdes && l.fdes[f].active && !l.fdes[f].want.read
    ensures var e, after := l.fdes[f], Scanned(l, Acted(l, sel, bad), l.selectN);
            f in after.fdes && (after.fdes[f].events.read <==> e.events.read || (Fakes(sel) && e.fd in bad))
  {
    var fd := l.fdes[f].fd;
    assert Agrees(Wanted(l.fdes, l.table, fd), l.sets, fd);
    ScannedEvents(l, Acted(l, sel, bad), l.selectN, f);
  }

  const READ := Mask(true, false, false, false)
  const WRITE := Mask(false, true, false, false)

  /** Any record, on any descriptor: it wants reads and writes, both are reported, and the interest
      in reads is given up. The write that is still wanted is dropped and the read stays pending. */
  method UnwantedReadStays(f: nat, fd: nat) returns (loop: EventLoop)
    requires f != 0 && fd <= 32000
    ensures fresh(loop) && loop.Valid() && f in loop.l.fdes && f in loop.l.pending
    ensures loop.l.fdes[f] == Fde(fd, true, true, WRITE, READ)
  {
    loop := new EventLoop();
    var fatal := loop.Install(f, fd);
    loop.SetInterest(f, Or(READ, WRITE));
    ghost var l0 := loop.l;
    assert l0.fdes[f] == Fde(fd, true, false, Or(READ, WRITE), NONE);
    fatal := loop.Process(Ready(Sets({fd}, {fd}, {})), {});
    ScannedEvents(l0, Sets({fd}, {fd}, {}), l0.selectN, f);
    assert loop.l.fdes[f] == Fde(fd, true, true, Or(READ, WRITE), Or(READ, WRITE));
    loop.DelInterest(f, READ);
  }
}
