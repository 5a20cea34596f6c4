/**
 The sockets of one adb process, as records that point at each other by handle: local sockets
 (bound to a descriptor) on the live or the closing list, and the remote and smart sockets they
 are peered with. A handle that is not in its table has been freed, so every use of a pointer is
 proved to be a use of an allocated socket. Each operation keeps the graph consistent and does to
 the sockets what StreamSocket and StreamWorld.Handle say.
 */
module SocketTable {
  import opened ByteSeqs
  import opened IdLists
  import opened SocketIo
  import opened StreamSocket
  import opened StreamWorld

  /** A packet handed to a transport. */
  datatype Out = Out(transport: nat, packet: Packet)

  /** peer is the handle of a far socket; a local socket's handle is the id it was created with. */
  datatype LocalSock = LocalSock(
    id: nat, peer: nat, transport: nat, closing: bool, queue: seq<Bytes>, read: bool, write: bool)

  /** A remote socket (id is its id on the other machine) or a smart socket (id 0). */
  datatype FarSock = FarSock(id: nat, peer: nat, transport: nat)

  type Locals = map<nat, LocalSock>
  type Fars = map<nat, FarSock>

  /** The process-wide socket state. */
  datatype Tables = Tables(
    locals: Locals,
    fars: Fars,
    live: seq<nat>,         // the list of open local sockets
    lingering: seq<nat>,    // the list of closing local sockets
    nodes: seq<nat>,        // the disconnect nodes of the remote sockets, oldest first
    nextId: nat,
    nextFar: nat)

  /** A local socket agrees with its peer and with its abstract value. */
  predicate LocalOk(k: nat, l: LocalSock, fars: Fars, s: Sock)
  {
    && l.id == (if l.closing then 0 else k)
    && (l.closing ==> l.peer == 0 && l.queue != [] && !l.read)
    && (l.write <==> l.queue != [])
    && (l.peer != 0 ==> l.peer in fars && fars[l.peer].peer == k)
    && (!l.closing && l.queue != [] ==> l.peer != 0 && fars[l.peer].id != 0)
    && s.peer == (if l.peer == 0 then 0 else fars[l.peer].id)
    && s.read == l.read && s.write == l.write && s.queue == l.queue
    && s.phase == (if l.closing then Closing else Live)
  }

  /** Peers point at each other, nothing points at a freed socket, and the freed ones are dead. */
  ghost predicate GraphOk(locals: Locals, fars: Fars, view: seq<Sock>)
  {
    && |view| > 0 && 0 !in locals && 0 !in fars
    && (forall k :: k in locals ==> k < |view| && LocalOk(k, locals[k], fars, view[k]))
    && (forall f :: f in fars ==> fars[f].peer in locals && locals[fars[f].peer].peer == f)
    && (forall k :: 0 <= k < |view| && k !in locals ==> view[k].phase.Dead?)
  }

  /** The list holds each local socket that is, or is not, closing, once. */
  ghost predicate Lists(q: seq<nat>, locals: Locals, closing: bool)
  {
    && NoDup(q)
    && (forall k :: k in q ==> k in locals && locals[k].closing == closing)
    && (forall k :: k in locals && locals[k].closing == closing ==> k in q)
  }

  /** The nodes of the disconnect lists are the remote sockets. */
  ghost predicate Nodes(q: seq<nat>, fars: Fars)
  {
    && NoDup(q)
    && (forall f :: f in q ==> f in fars && fars[f].id != 0)
    && (forall f :: f in fars && fars[f].id != 0 ==> f in q)
  }

  /** view is every local socket there ever was, by id, as StreamSocket sees it. */
  ghost predicate TablesOk(g: Tables, view: seq<Sock>)
  {
    && GraphOk(g.locals, g.fars, view)
    && Lists(g.live, g.locals, false) && Lists(g.lingering, g.locals, true) && Nodes(g.nodes, g.fars)
    && g.nextId == |view| && g.nextFar > 0
    && (forall f :: f in g.fars ==> f < g.nextFar)
  }

  /** What consistent tables mean: peers are mutual, every local socket is on exactly one of the two
      lists, a closing one has no id and no peer but packets left to write, WRITE is wanted exactly
      while packets wait, and an open socket with packets waiting has a peer to notify. */
  lemma SocketGraph(g: Tables, view: seq<Sock>)
    requires TablesOk(g, view)
    ensures forall k :: k in g.locals && g.locals[k].peer != 0 ==>
                          g.locals[k].peer in g.fars && g.fars[g.locals[k].peer].peer == k
    ensures forall f :: f in g.fars ==> g.fars[f].peer in g.locals && g.locals[g.fars[f].peer].peer == f
    ensures forall k :: k in g.locals <==> k in g.live || k in g.lingering
    ensures forall k :: k in g.live ==> k !in g.lingering && g.locals[k].id == k != 0
    ensures forall k :: k in g.lingering ==>
                          var l := g.locals[k]; l.id == 0 && l.peer == 0 && l.queue != [] && l.write
    ensures forall k :: k in g.locals ==> (g.locals[k].write <==> g.locals[k].queue != [])
    ensures forall k :: k in g.live && g.locals[k].queue != [] ==> g.locals[k].peer in g.fars
  {
    assert forall k :: k in g.locals ==> LocalOk(k, g.locals[k], g.fars, view[k]);
  }

  lemma LocalKnown(g: Tables, view: seq<Sock>, k: nat)
    requires TablesOk(g, view) && k in g.locals
    ensures k != 0 && k < |view| && LocalOk(k, g.locals[k], g.fars, view[k])
  {
  }

  /** Far sockets are as before or gone. */
  ghost predicate Kept(fars: Fars, fars': Fars)
  {
    forall f :: f in fars' ==> f in fars && fars'[f] == fars[f]
  }

  /** Far sockets are as before, or gone, or new remote ones on the transport. */
  ghost predicate Spread(fars: Fars, fars': Fars, t: nat)
  {
    forall f :: f in fars' ==> (f in fars && fars'[f] == fars[f]) || (fars'[f].id != 0 && fars'[f].transport == t)
  }

  // ---- creating ----

  function Created(g: Tables, transport: nat): Tables
  {
    var k := g.nextId;
    g.(locals := g.locals[k := LocalSock(k, 0, transport, false, [], false, false)],
       live := g.live + [k], nextId := k + 1)
  }

  lemma CreateGraph(locals: Locals, fars: Fars, view: seq<Sock>, l: LocalSock)
    requires GraphOk(locals, fars, view) && LocalOk(|view|, l, fars, FRESH) && l.peer == 0
    ensures GraphOk(locals[|view| := l], fars, view + [FRESH])
  {
    forall n | n in locals ensures LocalOk(n, locals[n], fars, (view + [FRESH])[n]) {
      assert LocalOk(n, locals[n], fars, view[n]);
    }
  }

  lemma CreateLists(live: seq<nat>, lingering: seq<nat>, locals: Locals, k: nat, l: LocalSock)
    requires Lists(live, locals, false) && Lists(lingering, locals, true) && k !in locals && !l.closing
    ensures Lists(live + [k], locals[k := l], false) && Lists(lingering, locals[k := l], true)
  {
    SnocNoDup(live, k);
  }

  lemma CreatedOk(g: Tables, view: seq<Sock>, transport: nat)
    requires TablesOk(g, view)
    ensures TablesOk(Created(g, transport), view + [FRESH])
  {
    var l := LocalSock(g.nextId, 0, transport, false, [], false, false);
    CreateGraph(g.locals, g.fars, view, l);
    CreateLists(g.live, g.lingering, g.locals, g.nextId, l);
  }

  // ---- connecting ----

  /** A new far socket r, peered with the local socket r.peer; a remote one joins the nodes. */
  function Linked(g: Tables, r: FarSock): Tables
    requires r.peer in g.locals
  {
    var f := g.nextFar;
    g.(locals := g.locals[r.peer := g.locals[r.peer].(peer := f)], fars := g.fars[f := r],
       nodes := if r.id != 0 then g.nodes + [f] else g.nodes, nextFar := f + 1)
  }

  lemma NoPeer(g: Tables, view: seq<Sock>, k: nat)
    requires TablesOk(g, view) && k in g.locals && g.locals[k].peer == 0
    ensures view[k] == view[k].(peer := 0)
  {
    assert LocalOk(k, g.locals[k], g.fars, view[k]);
  }

  lemma LinkGraph(locals: Locals, fars: Fars, view: seq<Sock>, k: nat, f: nat, r: FarSock, s: Sock)
    requires GraphOk(locals, fars, view) && k in locals && locals[k].peer == 0 && !locals[k].closing
    requires f != 0 && f !in fars && r.peer == k && s == view[k].(peer := r.id, mate := s.mate)
    ensures GraphOk(locals[k := locals[k].(peer := f)], fars[f := r], view[k := s])
  {
    assert LocalOk(k, locals[k], fars, view[k]);
    forall n | n in locals && n != k ensures LocalOk(n, locals[n], fars[f := r], view[n]) {
      assert LocalOk(n, locals[n], fars, view[n]);
    }
  }

  lemma LinkNodes(q: seq<nat>, fars: Fars, f: nat, r: FarSock)
    requires Nodes(q, fars) && f !in fars
    ensures Nodes(if r.id != 0 then q + [f] else q, fars[f := r])
  {
    SnocNoDup(q, f);
  }

  lemma LinkedLists(g: Tables, view: seq<Sock>, r: FarSock)
    requires TablesOk(g, view) && r.peer in g.locals
    ensures var h := Linked(g, r);
            && Lists(h.live, h.locals, false) && Lists(h.lingering, h.locals, true) && Nodes(h.nodes, h.fars)
            && (forall f :: f in h.fars ==> f < h.nextFar)
  {
    TouchLists(g.live, g.lingering, g.locals, r.peer, g.locals[r.peer].(peer := g.nextFar));
    LinkNodes(g.nodes, g.fars, g.nextFar, r);
  }

  lemma LinkedOk(g: Tables, view: seq<Sock>, r: FarSock, s: Sock)
    requires TablesOk(g, view)
    requires r.peer in g.locals && g.locals[r.peer].peer == 0 && !g.locals[r.peer].closing
    requires s == view[r.peer].(peer := r.id, mate := s.mate)
    ensures TablesOk(Linked(g, r), view[r.peer := s])
  {
    LinkedLists(g, view, r);
    LinkGraph(g.locals, g.fars, view, r.peer, g.nextFar, r, s);
  }

  // ---- changes that leave a socket's peer and list alone ----

  function Touched(g: Tables, k: nat, l: LocalSock): Tables
  {
    g.(locals := g.locals[k := l])
  }

  lemma TouchGraph(locals: Locals, fars: Fars, view: seq<Sock>, k: nat, l: LocalSock, s: Sock)
    requires GraphOk(locals, fars, view) && k in locals && LocalOk(k, l, fars, s) && l.peer == locals[k].peer
    ensures GraphOk(locals[k := l], fars, view[k := s])
  {
    forall n | n in locals && n != k ensures LocalOk(n, locals[n], fars, view[n]) {
      assert LocalOk(n, locals[n], fars, view[n]);
    }
  }

  lemma TouchLists(live: seq<nat>, lingering: seq<nat>, locals: Locals, k: nat, l: LocalSock)
    requires Lists(live, locals, false) && Lists(lingering, locals, true)
    requires k in locals && l.closing == locals[k].closing
    ensures Lists(live, locals[k := l], false) && Lists(lingering, locals[k := l], true)
  {
  }

  lemma TouchedOk(g: Tables, view: seq<Sock>, k: nat, l: LocalSock, s: Sock)
    requires TablesOk(g, view) && k in g.locals && LocalOk(k, l, g.fars, s)
    requires l.peer == g.locals[k].peer && l.closing == g.locals[k].closing
    ensures TablesOk(Touched(g, k, l), view[k := s])
  {
    TouchGraph(g.locals, g.fars, view, k, l, s);
    TouchLists(g.live, g.lingering, g.locals, k, l);
  }

  // ---- a smart socket lets go of its peer ----

  function Released(g: Tables, f: nat, t: nat): Tables
    requires f in g.fars && g.fars[f].peer in g.locals
  {
    var k := g.fars[f].peer;
    g.(locals := g.locals[k := g.locals[k].(peer := 0, transport := t, read := false)], fars := g.fars - {f})
  }

  lemma ReleaseGraph(locals: Locals, fars: Fars, view: seq<Sock>, f: nat, l: LocalSock, s: Sock)
    requires GraphOk(locals, fars, view) && f in fars && fars[f].id == 0
    requires l == locals[fars[f].peer].(peer := 0, transport := l.transport, read := false)
    requires s == view[fars[f].peer].(read := false)
    ensures GraphOk(locals[fars[f].peer := l], fars - {f}, view[fars[f].peer := s])
  {
    var k := fars[f].peer;
    assert LocalOk(k, locals[k], fars, view[k]);
    forall n | n in locals && n != k ensures LocalOk(n, locals[n], fars - {f}, view[n]) {
      assert LocalOk(n, locals[n], fars, view[n]);
    }
  }

  lemma ReleasedOk(g: Tables, view: seq<Sock>, f: nat, t: nat)
    requires TablesOk(g, view) && f in g.fars && g.fars[f].id == 0
    ensures TablesOk(Released(g, f, t), view[g.fars[f].peer := view[g.fars[f].peer].(read := false)])
  {
    var k := g.fars[f].peer;
    var l := g.locals[k].(peer := 0, transport := t, read := false);
    ReleaseGraph(g.locals, g.fars, view, f, l, view[k].(read := false));
    TouchLists(g.live, g.lingering, g.locals, k, l);
  }

  // ---- closing ----

  /** Whether closing a socket destroys it at once. */
  predicate Gone(l: LocalSock)
  {
    l.closing || l.queue == []
  }

  function ClosedLocals(locals: Locals, k: nat): Locals
    requires k in locals
  {
    if Gone(locals[k]) then locals - {k}
    else locals[k := locals[k].(id := 0, peer := 0, closing := true, read := false)]
  }

  function ClosedList(q: seq<nat>, k: nat, l: LocalSock): seq<nat>
  {
    if Gone(l) then Without(q, k) else q + [k]
  }

  /** The peer is freed; the socket is freed too, or moved to the closing list. */
  function Unlinked(g: Tables, k: nat): Tables
    requires k in g.locals
  {
    var f := g.locals[k].peer;
    g.(locals := ClosedLocals(g.locals, k), fars := g.fars - {f}, live := Without(g.live, k),
       lingering := ClosedList(g.lingering, k, g.locals[k]), nodes := Without(g.nodes, f))
  }

  /** What becomes of the abstract value of a socket that is closed. */
  predicate ClosedValue(l: LocalSock, s: Sock)
  {
    if Gone(l) then s.phase.Dead?
    else s.phase.Closing? && s.peer == 0 && !s.read && s.write && s.queue == l.queue
  }

  lemma CloseGraph(locals: Locals, fars: Fars, view: seq<Sock>, k: nat, s: Sock)
    requires GraphOk(locals, fars, view) && k in locals && ClosedValue(locals[k], s)
    ensures GraphOk(ClosedLocals(locals, k), fars - {locals[k].peer}, view[k := s])
  {
    var fars' := fars - {locals[k].peer};
    assert LocalOk(k, locals[k], fars, view[k]);
    forall n | n in locals && n != k ensures LocalOk(n, locals[n], fars', view[n]) {
      assert LocalOk(n, locals[n], fars, view[n]);
    }
  }

  lemma CloseLists(locals: Locals, live: seq<nat>, lingering: seq<nat>, k: nat)
    requires Lists(live, locals, false) && Lists(lingering, locals, true) && k in locals
    ensures Lists(Without(live, k), ClosedLocals(locals, k), false)
    ensures Lists(ClosedList(lingering, k, locals[k]), ClosedLocals(locals, k), true)
  {
    WithoutNoDup(live, k);
    WithoutOthers(live, k);
    if Gone(locals[k]) {
      WithoutNoDup(lingering, k);
      WithoutOthers(lingering, k);
    } else {
      SnocNoDup(lingering, k);
    }
  }

  lemma CloseNodes(q: seq<nat>, fars: Fars, f: nat)
    requires Nodes(q, fars)
    ensures Nodes(Without(q, f), fars - {f})
  {
    WithoutNoDup(q, f);
    WithoutOthers(q, f);
  }

  lemma UnlinkedOk(g: Tables, view: seq<Sock>, k: nat, s: Sock)
    requires TablesOk(g, view) && k in g.locals && ClosedValue(g.locals[k], s)
    ensures TablesOk(Unlinked(g, k), view[k := s])
  {
    CloseGraph(g.locals, g.fars, view, k, s);
    CloseLists(g.locals, g.live, g.lingering, k);
    CloseNodes(g.nodes, g.fars, g.locals[k].peer);
  }

  lemma ClosedOk(g: Tables, view: seq<Sock>, k: nat, l: LocalSock, v: Sock, why: Cause)
    requires TablesOk(g, view) && k in g.locals && LocalOk(k, l, g.fars, v)
    requires l.peer == g.locals[k].peer && l.closing == g.locals[k].closing
    ensures TablesOk(Unlinked(Touched(g, k, l), k), view[k := CloseLocked(k, v, why).sock])
  {
    var s := CloseLocked(k, v, why).sock;
    assert view[k := v][k := s] == view[k := s];
    LeftBehind(k, l, g.fars, v, why);
    TouchedOk(g, view, k, l, v);
    UnlinkedOk(Touched(g, k, l), view[k := v], k, s);
  }

  lemma LeftBehind(k: nat, l: LocalSock, fars: Fars, v: Sock, why: Cause)
    requires LocalOk(k, l, fars, v)
    ensures ClosedValue(l, CloseLocked(k, v, why).sock)
  {
  }

  /** Packets handed to one transport. */
  function Tagged(t: nat, sends: seq<Packet>): seq<Out>
  {
    if sends == [] then [] else [Out(t, sends[0])] + Tagged(t, sends[1..])
  }

  lemma {:induction false} TaggedAppend(t: nat, a: seq<Packet>, b: seq<Packet>)
    ensures Tagged(t, a + b) == Tagged(t, a) + Tagged(t, b)
  {
    if a == [] {
      assert a + b == b;
    } else {
      assert (a + b)[1..] == a[1..] + b;
      TaggedAppend(t, a[1..], b);
      Regroup([Out(t, a[0])], Tagged(t, a[1..]), Tagged(t, b));
    }
  }

  lemma SentTwice(before: seq<Out>, t: nat, a: seq<Packet>, b: seq<Packet>)
    ensures before + Tagged(t, a) + Tagged(t, b) == before + Tagged(t, a + b)
  {
    TaggedAppend(t, a, b);
  }

  lemma TaggedOne(t: nat, p: Packet)
    ensures Tagged(t, [p]) == [Out(t, p)]
  {
    assert [p][1..] == [];
  }

  /** The transport of the socket's peer. */
  function PeerTransport(g: Tables, k: nat): nat
    requires k in g.locals
  {
    if g.locals[k].peer in g.fars then g.fars[g.locals[k].peer].transport else 0
  }

  /** A packet that the process does not act on although the socket it names is open: an OKAY for a
      socket that still talks to its smart socket, and a refusal from another transport. */
  predicate Ignores(g: Tables, p: Packet, t: nat)
    requires p.arg1 in g.locals
  {
    var far := g.locals[p.arg1].peer;
    && far in g.fars
    && ((p.command.OKAY? && g.fars[far].id == 0) || (p.command.CLSE? && p.arg0 == 0 && g.fars[far].transport != t))
  }

  /** handle_packet for the stream commands on a packet from transport t: an OKAY goes back where the
      packet came from, a CLSE to the peer. */
  function Handled(g: Tables, view: seq<Sock>, p: Packet, t: nat, service: bool, n: nat, fail: bool): (seq<Sock>, seq<Out>)
    requires n <= |p.data|
  {
    if p.command.OPEN? then
      var h := Handle(view, p, service, n, fail);
      (h.0, Tagged(t, h.1))
    else if p.arg1 !in g.locals || p.arg1 >= |view| || Ignores(g, p, t) then (view, [])
    else
      var e := OnPacket(p.arg1, view[p.arg1], p, n, fail);
      var to := if e.sends != [] && e.sends[0].command.OKAY? then t else PeerTransport(g, p.arg1);
      (view[p.arg1 := e.sock], Tagged(to, e.sends))
  }

  /** How much of a packet's data is written at once, and whether a write fails. */
  function Written(view: seq<Sock>, p: Packet, accepts: seq<WriteResult>): (r: (nat, bool))
    ensures r.0 <= |p.data|
  {
    if p.command.WRTE? && p.arg1 < |view| && view[p.arg1].queue == [] then
      var w := WriteAll(|p.data|, accepts);
      (w.n, w.fail)
    else (0, false)
  }

  lemma WrittenAtOnce(view: seq<Sock>, p: Packet, accepts: seq<WriteResult>)
    requires p.command.WRTE? && p.arg1 < |view| && view[p.arg1].queue == []
    ensures var (n, fail) := Written(view, p, accepts); Writes(|p.data|, accepts, n, fail)
  {
    WriteAllWrites(|p.data|, accepts);
  }

  /** In a process whose remote sockets are all on one transport that is the stream model's step. */
  lemma HandledPlain(g: Tables, view: seq<Sock>, p: Packet, t: nat, service: bool, n: nat, fail: bool)
    requires TablesOk(g, view) && n <= |p.data| && Plain(g, p.arg1, t)
    ensures var h := Handle(view, p, service, n, fail);
            Handled(g, view, p, t, service, n, fail) == (h.0, Tagged(t, h.1))
  {
    var k := p.arg1;
    if !p.command.OPEN? && 0 < k < |view| {
      if k in g.locals {
        LocalKnown(g, view, k);
      } else {
        assert view[k := view[k]] == view;
      }
    }
  }

  /** A socket with a peer elsewhere: a refusal from another transport, and an OKAY for a socket that
      still talks to its smart socket, change nothing and are not answered. */
  lemma HandledForeign(g: Tables, view: seq<Sock>, p: Packet, t: nat, service: bool, n: nat, fail: bool)
    requires TablesOk(g, view) && n <= |p.data| && p.arg1 in g.locals && g.locals[p.arg1].peer in g.fars
    requires var far := g.fars[g.locals[p.arg1].peer];
             (p.command.CLSE? && p.arg0 == 0 && far.transport != t) || (p.command.OKAY? && far.id == 0)
    ensures Handled(g, view, p, t, service, n, fail) == (view, [])
  {
  }

  /** A packet that finds no open socket to act on, or is ignored by the one it finds. */
  lemma NotActedOn(g: Tables, view: seq<Sock>, p: Packet, t: nat, n: nat, fail: bool)
    requires !p.command.OPEN? && n <= |p.data|
    requires p.arg1 in g.locals && p.arg1 < |view| && !Ignores(g, p, t) ==>
               OnPacket(p.arg1, view[p.arg1], p, n, fail) == Effect(view[p.arg1], [])
    ensures Handled(g, view, p, t, true, n, fail) == (view, [])
  {
    if p.arg1 in g.locals && p.arg1 < |view| {
      assert view[p.arg1 := view[p.arg1]] == view;
    }
  }

  lemma OkayHandled(g: Tables, view: seq<Sock>, p: Packet, t: nat, s: Sock)
    requires p.command.OKAY? && p.arg1 in g.locals && p.arg1 < |view| && !Ignores(g, p, t)
    requires OnPacket(p.arg1, view[p.arg1], p, 0, false) == Effect(s, [])
    ensures Handled(g, view, p, t, true, 0, false) == (view[p.arg1 := s], [])
  {
  }

  lemma ClseHandled(g: Tables, view: seq<Sock>, p: Packet, t: nat)
    requires p.command.CLSE? && p.arg1 in g.locals && p.arg1 < |view| && !Ignores(g, p, t)
    requires view[p.arg1].phase.Live? && (p.arg0 == 0 || view[p.arg1].peer == p.arg0)
    ensures var e := CloseLocked(p.arg1, view[p.arg1], ByPeer);
            Handled(g, view, p, t, true, 0, false) == (view[p.arg1 := e.sock], Tagged(PeerTransport(g, p.arg1), e.sends))
  {
  }

  lemma DataHandled(g: Tables, view: seq<Sock>, p: Packet, t: nat, n: nat, fail: bool)
    requires p.command.WRTE? && n <= |p.data| && p.arg1 in g.locals && p.arg1 < |view| && p.arg0 != 0
    requires view[p.arg1].phase.Live? && view[p.arg1].peer == p.arg0
    ensures var e := Enqueue(p.arg1, view[p.arg1], p.data, n, fail);
            var all := view[p.arg1].queue == [] && n == |p.data|;
            && (all ==> e.sends == [Packet(OKAY, p.arg1, p.arg0, [])])
            && Handled(g, view, p, t, true, n, fail)
               == (view[p.arg1 := e.sock], Tagged(if all then t else PeerTransport(g, p.arg1), e.sends))
  {
  }

  // ---- teardown ----

  /** close_all_sockets looks for these. */
  predicate Uses(g: Tables, k: nat, t: nat)
    requires k in g.locals
  {
    g.locals[k].transport == t || (g.locals[k].peer in g.fars && g.fars[g.locals[k].peer].transport == t)
  }

  /** The sockets that use the transport. */
  function Users(g: Tables, t: nat): set<nat>
  {
    set k | k in g.locals && Uses(g, k, t)
  }

  /** k is the first live socket that uses the transport, at place n; 0 is none. */
  ghost predicate FirstUser(g: Tables, t: nat, k: nat, n: nat)
  {
    && n <= |g.live|
    && (forall m :: 0 <= m < n ==> g.live[m] !in Users(g, t))
    && (if k == 0 then n == |g.live| else n < |g.live| && k == g.live[n] && k in Users(g, t))
  }

  /** What closing sockets one after the other tells their peers. */
  function Farewells(g: Tables, v: seq<Sock>, ks: seq<nat>): seq<Out>
  {
    if ks == [] then []
    else Farewells(g, v, ks[..|ks| - 1]) + Farewell(g, v, ks[|ks| - 1])
  }

  function Farewell(g: Tables, v: seq<Sock>, k: nat): seq<Out>
  {
    if k in g.locals && k < |v| then Tagged(PeerTransport(g, k), CloseLocked(k, v[k], BySelf).sends) else []
  }

  lemma FarewellsSnoc(g: Tables, v: seq<Sock>, ks: seq<nat>, k: nat)
    ensures Farewells(g, v, ks + [k]) == Farewells(g, v, ks) + Farewell(g, v, k)
  {
    assert (ks + [k])[..|ks|] == ks;
  }

  /** A socket still live after part of a sweep is as it was before, and so is its peer. */
  ghost predicate Spared(g: Tables, g': Tables)
  {
    forall k :: k in g'.live ==>
      && k in g.locals && k in g'.locals && g'.locals[k] == g.locals[k]
      && (g.locals[k].peer in g.fars <==> g.locals[k].peer in g'.fars)
      && (g.locals[k].peer in g.fars ==> g'.fars[g.locals[k].peer] == g.fars[g.locals[k].peer])
  }

  /** A socket changed by a sweep used the transport and was closed. */
  ghost predicate Swept(g: Tables, v: seq<Sock>, v': seq<Sock>, t: nat)
  {
    && |v'| == |v|
    && (forall k :: 0 <= k < |v| && v'[k] != v[k] ==>
          k in g.locals && Uses(g, k, t) && v'[k] == CloseLocked(k, v[k], BySelf).sock)
  }

  lemma SpareStep(g: Tables, g': Tables, v': seq<Sock>, k: nat)
    requires TablesOk(g', v') && Spared(g, g') && k in g'.live
    ensures Spared(g, Unlinked(g', k)) && |Unlinked(g', k).live| < |g'.live|
  {
    WithoutOthers(g'.live, k);
    var h := Unlinked(g', k);
    assert LocalOk(k, g'.locals[k], g'.fars, v'[k]);
    forall n | n in h.live
      ensures n in g.locals && n in h.locals && h.locals[n] == g.locals[n]
      ensures g.locals[n].peer in g.fars <==> g.locals[n].peer in h.fars
      ensures g.locals[n].peer in g.fars ==> h.fars[g.locals[n].peer] == g.fars[g.locals[n].peer] {
      assert LocalOk(n, g'.locals[n], g'.fars, v'[n]);
    }
  }

  lemma SparedUsers(g: Tables, g': Tables, t: nat)
    requires Spared(g, g')
    ensures forall k :: k in g'.live ==> (k in Users(g, t) <==> k in Users(g', t))
    ensures forall k :: k in g'.live ==> k in g.locals && k in g'.locals && PeerTransport(g', k) == PeerTransport(g, k)
  {
  }

  lemma NoUsersLeft(g: Tables, g': Tables, t: nat, n: nat)
    requires Spared(g, g') && FirstUser(g', t, 0, n)
    ensures Chosen(g'.live, Users(g, t)) == [] && forall k :: k in g'.live ==> k !in Users(g', t)
  {
    SparedUsers(g, g', t);
    ChosenNone(g'.live, Users(g, t));
  }

  /** One more socket closed, and told of. */
  ghost predicate Told(g: Tables, v: seq<Sock>, before: seq<Out>, sent: seq<Out>, live: seq<nat>, t: nat, closed: seq<nat>)
  {
    closed + Chosen(live, Users(g, t)) == Chosen(g.live, Users(g, t)) && sent == before + Farewells(g, v, closed)
  }

  lemma TellOne(g: Tables, v: seq<Sock>, before: seq<Out>, sent: seq<Out>, live: seq<nat>, live': seq<nat>, t: nat,
                closed: seq<nat>, k: nat)
    requires Told(g, v, before, sent, live, t, closed) && Chosen(live, Users(g, t)) == [k] + Chosen(live', Users(g, t))
    ensures Told(g, v, before, sent + Farewell(g, v, k), live', t, closed + [k])
  {
    FarewellsSnoc(g, v, closed, k);
    Regroup(closed, [k], Chosen(live', Users(g, t)));
    Regroup(before, Farewells(g, v, closed), Farewell(g, v, k));
  }

  lemma SweepStep(g: Tables, v: seq<Sock>, g': Tables, v': seq<Sock>, t: nat, k: nat)
    requires TablesOk(g', v') && Spared(g, g') && Swept(g, v, v', t)
    requires k in g'.live && Uses(g', k, t)
    ensures Swept(g, v, v'[k := CloseLocked(k, v'[k], BySelf).sock], t)
  {
    StillLive(g, v, g', v', t, k);
    SweptOne(g, v, v', t, k);
  }

  lemma StillLive(g: Tables, v: seq<Sock>, g': Tables, v': seq<Sock>, t: nat, k: nat)
    requires TablesOk(g', v') && Swept(g, v, v', t) && k in g'.live
    ensures k < |v| && v'[k] == v[k]
  {
    assert LocalOk(k, g'.locals[k], g'.fars, v'[k]);
    assert v'[k].phase.Live?;
  }

  lemma SweptOne(g: Tables, v: seq<Sock>, v': seq<Sock>, t: nat, k: nat)
    requires Swept(g, v, v', t) && k < |v| && v'[k] == v[k] && k in g.locals && Uses(g, k, t)
    ensures Swept(g, v, v'[k := CloseLocked(k, v'[k], BySelf).sock], t)
  {
  }

  /** The nodes of one transport's disconnect list, in order. */
  function NodesOf(q: seq<nat>, fars: Fars, t: nat): seq<nat>
  {
    if q == [] then []
    else (if q[0] in fars && fars[q[0]].transport == t then [q[0]] else []) + NodesOf(q[1..], fars, t)
  }

  lemma {:induction false} NodesOfIn(q: seq<nat>, fars: Fars, t: nat)
    ensures forall f :: f in NodesOf(q, fars, t) <==> f in q && f in fars && fars[f].transport == t
  {
    if q != [] {
      NodesOfIn(q[1..], fars, t);
    }
  }

  lemma {:induction false} NodesOfFreed(q: seq<nat>, fars: Fars, t: nat, f: nat)
    requires f !in q
    ensures NodesOf(q, fars - {f}, t) == NodesOf(q, fars, t)
  {
    if q != [] {
      NodesOfFreed(q[1..], fars, t, f);
    }
  }

  /** The n-th node of a list, or 0 for its head. */
  function FirstNode(q: seq<nat>, n: nat): nat
  {
    if n < |q| then q[n] else 0
  }

  lemma NextNode(visited: seq<nat>, left: seq<nat>)
    requires left != []
    ensures (visited + [left[0]]) + left[1..] == visited + left && FirstNode(left, 1) == FirstNode(left[1..], 0)
  {
  }

  lemma NoNodes(g: Tables, view: seq<Sock>, t: nat)
    requires TablesOk(g, view) && FirstNode(NodesOf(g.nodes, g.fars, t), 0) == 0
    ensures NodesOf(g.nodes, g.fars, t) == []
    ensures forall f :: f in g.fars && g.fars[f].id != 0 ==> g.fars[f].transport != t
  {
    var q := NodesOf(g.nodes, g.fars, t);
    NodesOfIn(g.nodes, g.fars, t);
    assert forall n :: 0 <= n < |q| ==> q[n] in q;
  }

  /** Unlinking the first node of a transport leaves the rest of that transport's list. */
  lemma {:induction false} NodesOfTail(q: seq<nat>, fars: Fars, t: nat)
    requires NoDup(q) && NodesOf(q, fars, t) != []
    ensures var f := NodesOf(q, fars, t)[0];
            NodesOf(Without(q, f), fars - {f}, t) == NodesOf(q, fars, t)[1..]
  {
    var f := NodesOf(q, fars, t)[0];
    NodesOfIn(q, fars, t);
    assert f in NodesOf(q, fars, t);
    if q[0] == f {
      WithoutNone(q[1..], f);
      NodesOfFreed(q[1..], fars, t, f);
    } else {
      assert NodesOf(q, fars, t) == [] + NodesOf(q[1..], fars, t);
      NodesOfTail(q[1..], fars, t);
      assert Without(q, f) == [q[0]] + Without(q[1..], f);
      assert Without(q, f)[1..] == Without(q[1..], f);
    }
  }

  /** The socket, if open, has no peer or a remote peer on transport t. */
  predicate Plain(g: Tables, k: nat, t: nat)
  {
    k in g.locals && g.locals[k].peer in g.fars ==>
      g.fars[g.locals[k].peer].id != 0 && g.fars[g.locals[k].peer].transport == t
  }

  /** What a smart socket makes of the bytes its peer hands it. */
  datatype Answer = Waits | Refuses | Connects(transport: nat, destination: Bytes)

  /** A socket after its smart peer has been handed what was read, if anything: it is closed with the
      request refused, and is not read while its OPEN is under way. */
  function AfterRequest(k: nat, s: Sock, data: Bytes, answer: Answer): Sock
    requires s.phase.Live?
  {
    if data == [] || answer.Waits? then s
    else if answer.Refuses? then OnEvent(k, s, Abort(false)).sock
    else s.(read := false)
  }

  /** Reading the last of the input is reading it and then closing. */
  lemma ReadEnds(k: nat, v0: seq<Sock>, v1: seq<Sock>, v2: seq<Sock>, chunk: Bytes,
                 t: nat, s0: seq<Out>, s1: seq<Out>, s2: seq<Out>)
    requires k < |v0| && Enabled(v0[k], Readable(chunk, false))
    requires var r := OnEvent(k, v0[k], Readable(chunk, false));
             v1 == v0[k := r.sock] && s1 == s0 + Tagged(t, r.sends)
    requires var c := CloseLocked(k, v1[k], BySelf);
             v2 == v1[k := c.sock] && s2 == s1 + Tagged(t, c.sends)
    ensures var e := OnEvent(k, v0[k], Readable(chunk, true));
            v2 == v0[k := e.sock] && s2 == s0 + Tagged(t, e.sends)
  {
    var r := OnEvent(k, v0[k], Readable(chunk, false));
    var c := CloseLocked(k, r.sock, BySelf);
    assert OnEvent(k, v0[k], Readable(chunk, true)) == Effect(c.sock, r.sends + c.sends);
    SentTwice(s0, t, r.sends, c.sends);
  }

  /** What a WRITE event amounts to once so much is written and the queue q is left. */
  lemma WritableMeans(k: nat, s: Sock, q: seq<Bytes>, m: nat, f: bool)
    requires m <= |Concat(s.queue)| && q == DropBytes(s.queue, m) && (q == [] <==> m == |Concat(s.queue)|) && s.write
    ensures var v := s.(put := s.put + Concat(s.queue)[..m], queue := q);
            var e := OnEvent(k, s, Writable(m, f));
            && (q != [] ==> e == if f then CloseLocked(k, v, BySelf) else Effect(v, []))
            && (q == [] && s.phase.Closing? ==> e == CloseLocked(k, v, BySelf))
            && (q == [] && !s.phase.Closing? ==> e == Effect(v.(write := false), [Packet(OKAY, k, v.peer, [])]))
  {
  }

  class Adb {
    var g: Tables
    var sent: seq<Out>
    ghost var view: seq<Sock>

    ghost predicate Valid()
      reads this`g, this`view
    {
      TablesOk(g, view)
    }

    constructor ()
      ensures Valid() && g.fars == map[] && view == [NOBODY] && sent == []
    {
      g, sent, view := Tables(map[], map[], [], [], [], 1, 1), [], [NOBODY];
    }

    /** create_local_socket: the new socket gets the next id, which is never 0. */
    method CreateLocalSocket(transport: nat) returns (k: nat)
      requires Valid()
      modifies this`g, this`view
      ensures Valid() && g == Created(old(g), transport) && view == old(view) + [FRESH]
      ensures k == old(g).nextId && k != 0
    {
      CreatedOk(g, view, transport);
      k := g.nextId;
      g := g.(locals := g.locals[k := LocalSock(k, 0, transport, false, [], false, false)],
              live := g.live + [k], nextId := k + 1);
      view := view + [FRESH];
    }

    /** find_local_socket: the live socket with this id and, unless peerId is 0, with this peer. */
    method FindLocalSocket(localId: nat, peerId: nat) returns (k: nat)
      requires Valid()
      ensures k != 0 ==> k == localId && k in g.locals && view[k].phase.Live? && (peerId == 0 || view[k].peer == peerId)
      ensures k == 0 && 0 < localId < |view| && view[localId].phase.Live? ==>
                peerId != 0 && view[localId].peer != peerId
    {
      k := 0;
      for n := 0 to |g.live|
        invariant forall m :: 0 <= m < n ==> g.live[m] != localId
      {
        var s := g.locals[g.live[n]];
        if s.id == localId {
          if peerId == 0 || (s.peer != 0 && g.fars[s.peer].id == peerId) {
            k := g.live[n];
          }
          return;
        }
      }
    }

    /** create_remote_socket, peered with the local socket k. */
    method ConnectRemote(k: nat, id: nat, t: nat)
      requires Valid() && k in g.locals && g.locals[k].peer == 0 && !g.locals[k].closing && id != 0
      modifies this`g, this`view
      ensures Valid() && g == Linked(old(g), FarSock(id, k, t))
      ensures view == old(view)[k := old(view)[k].(peer := id, mate := id)]
    {
      var f := Link(FarSock(id, k, t), view[k].(peer := id, mate := id));
    }

    /** local_socket_close_locked: tell the peer and let go of it, then go or linger. l and v are
        the socket and its value with what has just happened to it on record. */
    method Close(k: nat, l: LocalSock, ghost v: Sock, ghost why: Cause)
      requires Valid() && k in g.locals && LocalOk(k, l, g.fars, v)
      requires l.peer == g.locals[k].peer && l.closing == g.locals[k].closing
      modifies this
      ensures Valid() && g == Unlinked(Touched(old(g), k, l), k)
      ensures view == old(view)[k := CloseLocked(k, v, why).sock]
      ensures sent == old(sent) + Tagged(PeerTransport(old(g), k), CloseLocked(k, v, why).sends)
    {
      ghost var e := CloseLocked(k, v, why);
      ClosedOk(g, view, k, l, v, why);
      if l.peer != 0 && g.fars[l.peer].id != 0 {
        var p := Packet(CLSE, l.id, g.fars[l.peer].id, []);
        TaggedOne(g.fars[l.peer].transport, p);
        sent := sent + [Out(g.fars[l.peer].transport, p)];
      }
      g := g.(locals := g.locals[k := l]);
      g := g.(fars := g.fars - {l.peer}, nodes := Without(g.nodes, l.peer), live := Without(g.live, k),
              lingering := ClosedList(g.lingering, k, l), locals := ClosedLocals(g.locals, k));
      view := view[k := e.sock];
    }

    /** Closing a socket as it stands. */
    method CloseSocket(k: nat, ghost why: Cause)
      requires Valid() && k in g.locals
      modifies this
      ensures Valid() && g == Unlinked(old(g), k)
      ensures view == old(view)[k := CloseLocked(k, old(view)[k], why).sock]
      ensures sent == old(sent) + Tagged(PeerTransport(old(g), k), CloseLocked(k, old(view)[k], why).sends)
    {
      assert LocalOk(k, g.locals[k], g.fars, view[k]);
      assert g.locals[k := g.locals[k]] == g.locals;
      Close(k, g.locals[k], view[k], why);
    }

    /** A change of interest, queue or history that leaves peer and lists alone. */
    method Touch(k: nat, l: LocalSock, ghost s: Sock)
      requires Valid() && k in g.locals && LocalOk(k, l, g.fars, s)
      requires l.peer == g.locals[k].peer && l.closing == g.locals[k].closing
      modifies this`g, this`view
      ensures Valid() && g == Touched(old(g), k, l) && view == old(view)[k := s]
    {
      TouchedOk(g, view, k, l, s);
      g := g.(locals := g.locals[k := l]);
      view := view[k := s];
    }

    /** local_socket_enqueue: 0 means ready for more, 1 not ready. */
    method LocalEnqueue(k: nat, data: Bytes, accepts: seq<WriteResult>)
        returns (r: int, ghost n: nat, ghost fail: bool)
      requires Valid() && k in g.locals && view[k].phase.Live? && view[k].peer != 0
      modifies this
      ensures Valid() && n <= |data| && Kept(old(g).fars, g.fars)
      ensures var w := WriteAll(|data|, accepts);
              (n, fail) == if old(view)[k].queue == [] then (w.n, w.fail) else (0, false)
      ensures old(view)[k].queue == [] ==> Writes(|data|, accepts, n, fail)
      ensures view == old(view)[k := Enqueue(k, old(view)[k], data, n, fail).sock]
      ensures r == 0 <==> old(view)[k].queue == [] && n == |data|
      ensures r == 0 ==> sent == old(sent)
      ensures r != 0 ==> sent == old(sent) + Tagged(PeerTransport(old(g), k), Enqueue(k, old(view)[k], data, n, fail).sends)
    {
      LocalKnown(g, view, k);
      n, fail := 0, false;
      if g.locals[k].queue != [] {
        r := 1;
        QueueBehind(k, data);
      } else {
        var m, f, rest := WriteLoop(data, accepts);
        n, fail := m, f;
        r := Keep(k, data, m, f);
      }
    }

    /** A packet behind others. */
    method QueueBehind(k: nat, data: Bytes)
      requires Valid() && k in g.locals && g.locals[k].queue != [] && view[k].phase.Live?
      modifies this`g, this`view
      ensures Valid() && g.fars == old(g).fars
      ensures view == old(view)[k := Enqueue(k, old(view)[k], data, 0, false).sock]
      ensures sent == sent + Tagged(PeerTransport(old(g), k), Enqueue(k, old(view)[k], data, 0, false).sends)
    {
      LocalKnown(g, view, k);
      var s := g.locals[k];
      Touch(k, s.(queue := s.queue + [data]), view[k].(queue := view[k].queue + [data]));
    }

    /** What is not written of a packet at once is kept, or the socket is closed. */
    method Keep(k: nat, data: Bytes, m: nat, f: bool) returns (r: int)
      requires Valid() && k in g.locals && view[k].phase.Live? && view[k].peer != 0 && view[k].queue == []
      requires m <= |data| && (f ==> m < |data|)
      modifies this
      ensures Valid() && Kept(old(g).fars, g.fars)
      ensures view == old(view)[k := Enqueue(k, old(view)[k], data, m, f).sock]
      ensures r == 0 <==> m == |data|
      ensures r == 0 ==> sent == old(sent)
      ensures r != 0 ==> sent == old(sent) + Tagged(PeerTransport(old(g), k), Enqueue(k, old(view)[k], data, m, f).sends)
    {
      r := if m == |data| then 0 else 1;
      if f {
        CloseFailed(k, data, m);
      } else {
        KeepRest(k, data, m);
      }
    }

    method CloseFailed(k: nat, data: Bytes, m: nat)
      requires Valid() && k in g.locals && view[k].phase.Live? && view[k].queue == [] && m < |data|
      modifies this
      ensures Valid() && Kept(old(g).fars, g.fars)
      ensures view == old(view)[k := Enqueue(k, old(view)[k], data, m, true).sock]
      ensures sent == old(sent) + Tagged(PeerTransport(old(g), k), Enqueue(k, old(view)[k], data, m, true).sends)
    {
      LocalKnown(g, view, k);
      Close(k, g.locals[k], view[k].(put := view[k].put + data[..m], fault := true), BySelf);
    }

    method KeepRest(k: nat, data: Bytes, m: nat)
      requires Valid() && k in g.locals && view[k].phase.Live? && view[k].peer != 0 && view[k].queue == []
      requires m <= |data|
      modifies this`g, this`view
      ensures Valid() && g.fars == old(g).fars
      ensures view == old(view)[k := Enqueue(k, old(view)[k], data, m, false).sock]
      ensures m < |data| ==>
                sent == sent + Tagged(PeerTransport(old(g), k), Enqueue(k, old(view)[k], data, m, false).sends)
    {
      LocalKnown(g, view, k);
      var rest := if m < |data| then [data[m..]] else [];
      Touch(k, g.locals[k].(queue := rest, write := m < |data|),
            view[k].(put := view[k].put + data[..m], queue := rest, write := m < |data|));
    }

    /** The FDE_WRITE half of local_socket_event_func. */
    method OnWritable(k: nat, accepts: seq<WriteResult>) returns (ghost n: nat, ghost fail: bool)
      requires Valid() && k in g.locals && g.locals[k].write
      modifies this
      ensures Valid() && Kept(old(g).fars, g.fars) && Enabled(old(view)[k], Writable(n, fail))
      ensures (n, fail) == DrainAll(old(g).locals[k].queue, accepts)
      ensures |old(g).locals[k].queue| == 1 ==> Writes(|old(g).locals[k].queue[0]|, accepts, n, fail)
      ensures view == old(view)[k := OnEvent(k, old(view)[k], Writable(n, fail)).sock]
      ensures sent == old(sent) + Tagged(PeerTransport(old(g), k), OnEvent(k, old(view)[k], Writable(n, fail)).sends)
    {
      LocalKnown(g, view, k);
      DrainsSingle(g.locals[k].queue, accepts);
      var q, m, f := DrainLoop(g.locals[k].queue, accepts);
      n, fail := m, f;
      WritableMeans(k, view[k], q, m, f);
      ghost var v := view[k].(put := view[k].put + Concat(view[k].queue)[..m], queue := q);
      if q != [] && f {
        FailWrite(k, q, v);
      } else if q != [] {
        StallWrite(k, q, v);
      } else if g.locals[k].closing {
        CloseDrained(k, v);
      } else {
        Resume(k, g.locals[k].(queue := []), v);
      }
    }

    /** A write fails before the queue is empty: the socket is closed. */
    method FailWrite(k: nat, q: seq<Bytes>, ghost v: Sock)
      requires Valid() && k in g.locals && g.locals[k].queue != [] && q != []
      requires v == view[k].(put := v.put, queue := q)
      modifies this
      ensures Valid() && Kept(old(g).fars, g.fars)
      ensures view == old(view)[k := CloseLocked(k, v, BySelf).sock]
      ensures sent == old(sent) + Tagged(PeerTransport(old(g), k), CloseLocked(k, v, BySelf).sends)
    {
      LocalKnown(g, view, k);
      Close(k, g.locals[k].(queue := q), v, BySelf);
    }

    /** A write would block: the rest waits. */
    method StallWrite(k: nat, q: seq<Bytes>, ghost v: Sock)
      requires Valid() && k in g.locals && g.locals[k].queue != [] && q != []
      requires v == view[k].(put := v.put, queue := q)
      modifies this`g, this`view
      ensures Valid() && g.fars == old(g).fars && view == old(view)[k := v]
    {
      LocalKnown(g, view, k);
      Touch(k, g.locals[k].(queue := q), v);
    }

    /** The peer may send again, now that nothing is queued. */
    method Resume(k: nat, s: LocalSock, ghost v: Sock)
      requires Valid() && k in g.locals && s == g.locals[k].(queue := []) && g.locals[k].queue != [] && !s.closing
      requires v == view[k].(put := v.put, queue := [])
      modifies this
      ensures Valid() && g.fars == old(g).fars && view == old(view)[k := v.(write := false)]
      ensures sent == old(sent) + Tagged(PeerTransport(old(g), k), [Packet(OKAY, k, v.peer, [])])
    {
      LocalKnown(g, view, k);
      Send(g.fars[s.peer].transport, Packet(OKAY, s.id, g.fars[s.peer].id, []));
      Touch(k, s.(write := false), v.(write := false));
    }

    /** Destroying a closing socket whose last packet was just written. */
    method CloseDrained(k: nat, ghost v: Sock)
      requires Valid() && k in g.locals && g.locals[k].closing
      requires v.phase.Closing? && v.queue == [] && v.peer == 0
      modifies this`g, this`view
      ensures Valid() && Kept(old(g).fars, g.fars)
      ensures view == old(view)[k := CloseLocked(k, v, BySelf).sock]
    {
      assert LocalOk(k, g.locals[k], g.fars, view[k]);
      UnlinkedOk(g, view, k, CloseLocked(k, v, BySelf).sock);
      g := Unlinked(g, k);
      view := view[k := CloseLocked(k, v, BySelf).sock];
    }

    /** The FDE_READ half of local_socket_event_func for a socket whose peer is a smart socket: what
        is read goes to the smart socket, which waits for more of the request, or refuses it and
        closes the socket, or opens a stream for it. The end of the input closes the socket. */
    method OnSmartReadable(k: nat, offers: seq<ReadResult>, answer: Answer) returns (ghost chunk: Bytes, ghost eof: bool)
      requires Valid() && k in g.locals && g.locals[k].read && g.locals[k].peer in g.fars
      requires g.fars[g.locals[k].peer].id == 0
      modifies this
      ensures Valid() && (chunk, eof) == ReadAll(MAX_PAYLOAD, offers) && Reads(MAX_PAYLOAD, offers, chunk, eof)
      ensures var s := AfterRequest(k, old(view)[k], chunk, answer);
              view == old(view)[k := if eof && s.phase.Live? then OnEvent(k, s, Abort(true)).sock else s]
      ensures sent == old(sent) +
                if chunk != [] && answer.Connects? then [Out(answer.transport, Packet(OPEN, k, 0, answer.destination))] else []
    {
      var data, end := ReadLoop(offers);
      chunk, eof := data, end;
      ghost var v := view;
      var r := AskSmart(k, data, answer);
      if r >= 0 && end {
        CloseAlone(k, v);
      }
    }

    /** What smart_socket_enqueue does to its peer k, if there is anything for it, and its result: -1
        says that k is closed. */
    method AskSmart(k: nat, data: Bytes, answer: Answer) returns (r: int)
      requires Valid() && k in g.locals && g.locals[k].peer in g.fars && g.fars[g.locals[k].peer].id == 0
      modifies this
      ensures Valid() && (r < 0 <==> data != [] && answer.Refuses?)
      ensures view == old(view)[k := AfterRequest(k, old(view)[k], data, answer)]
      ensures r < 0 ==> !view[k].phase.Live?
      ensures r >= 0 ==> k in g.locals && view[k].phase.Live? && view[k].peer == 0
      ensures sent == old(sent) +
                if data != [] && answer.Connects? then [Out(answer.transport, Packet(OPEN, k, 0, answer.destination))] else []
    {
      LocalKnown(g, view, k);
      r := 0;
      if data == [] || answer.Waits? {
        assert view[k := view[k]] == view;
      } else if answer.Refuses? {
        Detach(g.locals[k].peer);
        r := -1;
      } else {
        SmartConnect(g.locals[k].peer, answer.transport, answer.destination);
        r := 1;
      }
    }

    /** Closing a socket that no other machine knows of. */
    method CloseAlone(k: nat, ghost v: seq<Sock>)
      requires Valid() && k in g.locals && view[k].phase.Live? && view[k].peer == 0
      requires k < |v| && view == v[k := view[k]]
      modifies this
      ensures Valid() && view == v[k := OnEvent(k, old(view)[k], Abort(true)).sock] && sent == old(sent)
    {
      CloseSocket(k, BySelf);
    }

    /** The FDE_READ half of local_socket_event_func, for a socket with a remote peer or none. */
    method OnReadable(k: nat, offers: seq<ReadResult>) returns (ghost chunk: Bytes, ghost eof: bool)
      requires Valid() && k in g.locals && (g.locals[k].read || g.locals[k].closing)
      requires g.locals[k].peer != 0 ==> view[k].peer != 0
      modifies this
      ensures Valid() && Kept(old(g).fars, g.fars) && Enabled(old(view)[k], Readable(chunk, eof))
      ensures (chunk, eof) == ReadAll(MAX_PAYLOAD, offers) && Reads(MAX_PAYLOAD, offers, chunk, eof)
      ensures view == old(view)[k := OnEvent(k, old(view)[k], Readable(chunk, eof)).sock]
      ensures sent == old(sent) + Tagged(PeerTransport(old(g), k), OnEvent(k, old(view)[k], Readable(chunk, eof)).sends)
    {
      LocalKnown(g, view, k);
      var data, end := ReadLoop(offers);
      chunk, eof := data, end;
      if end {
        PassLast(k, data);
      } else {
        Pass(k, data);
      }
    }

    /** The end of the input closes the socket after what was read has been handed on. */
    method PassLast(k: nat, data: Bytes)
      requires Valid() && k in g.locals && (g.locals[k].read || g.locals[k].closing)
      requires g.locals[k].peer != 0 ==> view[k].peer != 0
      requires Enabled(view[k], Readable(data, true))
      modifies this
      ensures Valid() && Kept(old(g).fars, g.fars)
      ensures view == old(view)[k := OnEvent(k, old(view)[k], Readable(data, true)).sock]
      ensures sent == old(sent) + Tagged(PeerTransport(old(g), k), OnEvent(k, old(view)[k], Readable(data, true)).sends)
    {
      Pass(k, data);
      ghost var v, s := view, sent;
      CloseSocket(k, BySelf);
      ReadEnds(k, old(view), v, view, data, PeerTransport(old(g), k), old(sent), s, sent);
    }

    /** What was read is handed to the peer, which has to ask for more. */
    method Pass(k: nat, data: Bytes)
      requires Valid() && k in g.locals && (g.locals[k].read || g.locals[k].closing)
      requires g.locals[k].peer != 0 ==> view[k].peer != 0
      requires Enabled(view[k], Readable(data, false))
      modifies this
      ensures Valid() && g.fars == old(g).fars && k in g.locals && g.locals[k].peer == old(g).locals[k].peer
      ensures view == old(view)[k := OnEvent(k, old(view)[k], Readable(data, false)).sock]
      ensures sent == old(sent) + Tagged(PeerTransport(old(g), k), OnEvent(k, old(view)[k], Readable(data, false)).sends)
    {
      LocalKnown(g, view, k);
      var s := g.locals[k];
      ghost var v := view[k];
      if s.closing {
        assert view[k := v] == view;
      } else if data != [] && s.peer != 0 {
        Send(g.fars[s.peer].transport, Packet(WRTE, s.id, g.fars[s.peer].id, data));
        Touch(k, s.(read := false), v.(got := v.got + data, read := false));
      } else {
        Touch(k, s, v.(got := v.got + data));
      }
    }

    /** local_socket_ready: the far side takes data again. */
    method Ready(k: nat)
      requires Valid() && k in g.locals && !g.locals[k].closing
      modifies this`g, this`view
      ensures Valid() && view == old(view)[k := old(view)[k].(read := true)]
      ensures g == Touched(old(g), k, old(g).locals[k].(read := true))
    {
      Touch(k, g.locals[k].(read := true), view[k].(read := true));
    }

    /** A new remote peer for k, which may then be read. */
    method Attach(k: nat, id: nat, t: nat)
      requires Valid() && k in g.locals && g.locals[k].peer == 0 && !g.locals[k].closing && id != 0
      modifies this`g, this`view
      ensures Valid() && view == old(view)[k := old(view)[k].(peer := id, mate := id, read := true)]
      ensures g.fars == old(g).fars[old(g).nextFar := FarSock(id, k, t)]
    {
      ghost var s := view[k].(peer := id, mate := id);
      assert view[k := s][k := s.(read := true)] == view[k := s.(read := true)];
      ConnectRemote(k, id, t);
      Ready(k);
    }

    /** A service socket for an accepted OPEN. */
    method Accept(id: nat, t: nat) returns (k: nat)
      requires Valid() && id != 0
      modifies this`g, this`view
      ensures Valid() && k == |old(view)| && view == old(view) + [Accepted(id)]
      ensures g.fars == old(g).fars[old(g).nextFar := FarSock(id, k, t)]
    {
      k := CreateLocalSocket(0);
      Attach(k, id, t);
      assert (old(view) + [FRESH])[k := Accepted(id)] == old(view) + [Accepted(id)];
    }

    method HandleOpen(p: Packet, t: nat, service: bool)
      requires Valid() && p.command.OPEN?
      modifies this
      ensures Valid() && Spread(old(g).fars, g.fars, t)
      ensures var h := Handled(old(g), old(view), p, t, service, 0, false); view == h.0 && sent == old(sent) + h.1
    {
      if p.arg0 != 0 && p.arg1 == 0 {
        if !service {
          Send(t, Packet(CLSE, 0, p.arg0, []));
        } else {
          var k := Accept(p.arg0, t);
          Send(t, Packet(OKAY, k, p.arg0, []));
        }
      }
    }

    method HandleOkay(p: Packet, t: nat)
      requires Valid() && p.command.OKAY?
      modifies this`g, this`view
      ensures Valid() && Spread(old(g).fars, g.fars, t)
      ensures (view, []) == Handled(old(g), old(view), p, t, true, 0, false)
    {
      if p.arg0 != 0 && p.arg1 != 0 {
        var k := FindLocalSocket(p.arg1, 0);
        if k != 0 {
          LocalKnown(g, view, k);
          var s := g.locals[k];
          if s.peer == 0 {
            OkayHandled(g, view, p, t, view[k].(peer := p.arg0, mate := p.arg0, read := true));
            Attach(k, p.arg0, t);
            return;
          } else if g.fars[s.peer].id == p.arg0 {
            OkayHandled(g, view, p, t, view[k].(read := true));
            Ready(k);
            return;
          }
        }
      }
      NotActedOn(g, view, p, t, 0, false);
    }

    method HandleClse(p: Packet, t: nat)
      requires Valid() && p.command.CLSE?
      modifies this
      ensures Valid() && Spread(old(g).fars, g.fars, t)
      ensures var h := Handled(old(g), old(view), p, t, true, 0, false); view == h.0 && sent == old(sent) + h.1
    {
      var k := 0;
      if p.arg1 != 0 {
        k := FindLocalSocket(p.arg1, p.arg0);
      }
      if k != 0 {
        LocalKnown(g, view, k);
        var s := g.locals[k];
        if !(p.arg0 == 0 && s.peer != 0 && g.fars[s.peer].transport != t) {
          ClseHandled(g, view, p, t);
          CloseSocket(k, ByPeer);
          return;
        }
      }
      NotActedOn(g, view, p, t, 0, false);
    }

    method Send(t: nat, p: Packet)
      modifies this`sent
      ensures sent == old(sent) + Tagged(t, [p])
    {
      TaggedOne(t, p);
      sent := sent + [Out(t, p)];
    }

    method HandleWrte(p: Packet, t: nat, accepts: seq<WriteResult>)
      requires Valid() && p.command.WRTE?
      modifies this
      ensures Valid() && Spread(old(g).fars, g.fars, t)
      ensures var (n, fail) := Written(old(view), p, accepts);
              var h := Handled(old(g), old(view), p, t, true, n, fail);
              view == h.0 && sent == old(sent) + h.1
    {
      var k := 0;
      if p.arg0 != 0 && p.arg1 != 0 {
        k := FindLocalSocket(p.arg1, p.arg0);
      }
      ghost var g0, seen := g, view;
      ghost var n, fail := Written(view, p, accepts).0, Written(view, p, accepts).1;
      if k != 0 {
        n, fail := TakeData(k, p.arg0, p.data, t, accepts);
        DataHandled(g0, seen, p, t, n, fail);
      } else {
        NotActedOn(g0, seen, p, t, n, fail);
      }
    }

    /** Data for an open socket from its peer: once it is all written, the sender is told. */
    method TakeData(k: nat, id: nat, data: Bytes, t: nat, accepts: seq<WriteResult>)
        returns (ghost n: nat, ghost fail: bool)
      requires Valid() && k in g.locals && view[k].phase.Live? && view[k].peer == id != 0
      modifies this
      ensures Valid() && n <= |data| && Kept(old(g).fars, g.fars)
      ensures var w := WriteAll(|data|, accepts);
              (n, fail) == if old(view)[k].queue == [] then (w.n, w.fail) else (0, false)
      ensures view == old(view)[k := Enqueue(k, old(view)[k], data, n, fail).sock]
      ensures sent == old(sent) + Tagged(if old(view)[k].queue == [] && n == |data| then t else PeerTransport(old(g), k),
                                         Enqueue(k, old(view)[k], data, n, fail).sends)
    {
      var r;
      r, n, fail := LocalEnqueue(k, data, accepts);
      if r == 0 {
        Send(t, Packet(OKAY, k, id, []));
      }
    }

    /** handle_packet for the stream commands. */
    method HandlePacket(p: Packet, t: nat, online: bool, service: bool, accepts: seq<WriteResult>)
      requires Valid()
      modifies this
      ensures Valid() && Spread(old(g).fars, g.fars, t)
      ensures !online ==> view == old(view) && sent == old(sent)
      ensures online ==>
                var (n, fail) := Written(old(view), p, accepts);
                var h := Handled(old(g), old(view), p, t, service, n, fail);
                view == h.0 && sent == old(sent) + h.1
    {
      if online {
        match p.command {
          case OPEN => HandleOpen(p, t, service);
          case OKAY => HandleOkay(p, t);
          case CLSE => HandleClse(p, t);
          case WRTE => HandleWrte(p, t, accepts);
        }
      }
    }

    /** The first live socket on the transport and its place in the list, or 0. */
    method FindUser(t: nat) returns (k: nat, n: nat)
      requires Valid()
      ensures FirstUser(g, t, k, n)
    {
      for i := 0 to |g.live|
        invariant forall m :: 0 <= m < i ==> g.live[m] !in Users(g, t)
      {
        k, n := g.live[i], i;
        if g.locals[k].transport == t || (g.locals[k].peer in g.fars && g.fars[g.locals[k].peer].transport == t) {
          return;
        }
      }
      k, n := 0, |g.live|;
    }

    /** close_all_sockets: the live sockets on the transport are closed in the order of the list,
        each telling its peer, none is left, and no other socket is touched. */
    method CloseAllSockets(t: nat) returns (ghost closed: seq<nat>)
      requires Valid()
      modifies this
      ensures Valid() && Spared(old(g), g) && Swept(old(g), old(view), view, t)
      ensures closed == Chosen(old(g).live, Users(old(g), t))
      ensures forall k :: k in g.live ==> k !in Users(g, t)
      ensures sent == old(sent) + Farewells(old(g), old(view), closed)
    {
      ghost var g0, v0 := g, view;
      closed := [];
      assert [] + Chosen(g.live, Users(g0, t)) == Chosen(g0.live, Users(g0, t));
      var k, n := FindUser(t);
      while k != 0
        invariant Valid() && Spared(g0, g) && Swept(g0, v0, view, t)
        invariant Told(g0, v0, old(sent), sent, g.live, t, closed)
        invariant FirstUser(g, t, k, n)
        decreases |g.live|, k
      {
        ghost var live, before := g.live, sent;
        CloseOne(k, n, t, g0, v0);
        TellOne(g0, v0, old(sent), before, live, g.live, t, closed, k);
        closed := closed + [k];
        k, n := FindUser(t);
      }
      NoUsersLeft(g0, g, t, n);
      assert closed + [] == closed;
    }

    method CloseOne(k: nat, ghost n: nat, t: nat, ghost g0: Tables, ghost v0: seq<Sock>)
      requires Valid() && Spared(g0, g) && Swept(g0, v0, view, t) && k != 0 && FirstUser(g, t, k, n)
      modifies this
      ensures Valid() && Spared(g0, g) && Swept(g0, v0, view, t) && |g.live| < |old(g).live|
      ensures Chosen(old(g).live, Users(g0, t)) == [k] + Chosen(g.live, Users(g0, t))
      ensures sent == old(sent) + Farewell(g0, v0, k)
    {
      SpareStep(g0, g, view, k);
      SweepStep(g0, v0, g, view, t, k);
      SparedUsers(g0, g, t);
      ChosenTail(g.live, Users(g0, t), n);
      StillLive(g0, v0, g, view, t, k);
      CloseSocket(k, BySelf);
    }

    /** remote_socket_disconnect, and the peer half of smart_socket_close: the far socket's local
        peer is closed without a packet being sent, and the far socket is freed. */
    method Detach(f: nat)
      requires Valid() && f in g.fars
      modifies this`g, this`view
      ensures Valid() && g == Unlinked(old(g), old(g).fars[f].peer)
      ensures var k := old(g).fars[f].peer;
              view == old(view)[k := OnEvent(k, old(view)[k], Abort(false)).sock]
    {
      var k := g.fars[f].peer;
      assert LocalOk(k, g.locals[k], g.fars, view[k]);
      ghost var s := OnEvent(k, view[k], Abort(false)).sock;
      UnlinkedOk(g, view, k, s);
      g := g.(fars := g.fars - {f}, nodes := Without(g.nodes, f), live := Without(g.live, k),
              lingering := ClosedList(g.lingering, k, g.locals[k]), locals := ClosedLocals(g.locals, k));
      view := view[k := s];
    }

    /** run_transport_disconnects: the walk saves the next node before the callback unlinks the
        current one. It visits each node of the transport once and leaves none. */
    method RunTransportDisconnects(t: nat) returns (ghost visited: seq<nat>)
      requires Valid()
      modifies this`g, this`view
      ensures Valid() && visited == old(NodesOf(g.nodes, g.fars, t)) && NodesOf(g.nodes, g.fars, t) == []
      ensures forall f :: f in g.fars && g.fars[f].id != 0 ==> g.fars[f].transport != t
      ensures visited == [] ==> g == old(g) && view == old(view)
    {
      ghost var list := NodesOf(g.nodes, g.fars, t);
      ghost var left := list;
      visited := [];
      assert visited + left == list;
      var dis := FirstNode(NodesOf(g.nodes, g.fars, t), 0);
      while dis != 0
        invariant Valid() && left == NodesOf(g.nodes, g.fars, t) && visited + left == list
        invariant dis == FirstNode(left, 0)
        invariant visited == [] ==> g == old(g) && view == old(view)
        decreases |left|
      {
        var next := FirstNode(NodesOf(g.nodes, g.fars, t), 1);
        NextNode(visited, left);
        DetachNode(dis, t);
        visited, left := visited + [dis], left[1..];
        dis := next;
      }
      NoNodes(g, view, t);
      assert visited + [] == visited;
    }

    /** The callback of one node: it is unlinked, and so the rest of the list is what follows it. */
    method DetachNode(dis: nat, t: nat)
      requires Valid() && dis != 0 && dis == FirstNode(NodesOf(g.nodes, g.fars, t), 0)
      modifies this`g, this`view
      ensures Valid() && NodesOf(g.nodes, g.fars, t) == old(NodesOf(g.nodes, g.fars, t))[1..]
    {
      NodesOfIn(g.nodes, g.fars, t);
      NodesOfTail(g.nodes, g.fars, t);
      assert dis in NodesOf(g.nodes, g.fars, t);
      Detach(dis);
    }

    /** connect_to_smartsocket: a smart peer, which wants the request that k is about to read. */
    method ConnectSmart(k: nat) returns (f: nat)
      requires Valid() && k in g.locals && g.locals[k].peer == 0 && !g.locals[k].closing
      modifies this`g, this`view
      ensures Valid() && view == old(view)[k := old(view)[k].(read := true)]
      ensures f in g.fars && g.fars == old(g).fars[f := FarSock(0, k, 0)] && k in g.locals && g.locals[k].peer == f
    {
      NoPeer(g, view, k);
      f := Link(FarSock(0, k, 0), view[k]);
      assert old(view)[k := old(view)[k]] == old(view);
      Ready(k);
    }

    method Link(r: FarSock, ghost s: Sock) returns (f: nat)
      requires Valid() && r.peer in g.locals && g.locals[r.peer].peer == 0 && !g.locals[r.peer].closing
      requires s == view[r.peer].(peer := r.id, mate := s.mate)
      modifies this`g, this`view
      ensures Valid() && f == old(g).nextFar && g == Linked(old(g), r) && view == old(view)[r.peer := s]
    {
      LinkedOk(g, view, r, s);
      f := g.nextFar;
      g := g.(locals := g.locals[r.peer := g.locals[r.peer].(peer := f)], fars := g.fars[f := r],
              nodes := if r.id != 0 then g.nodes + [f] else g.nodes, nextFar := f + 1);
      view := view[r.peer := s];
    }

    /** smart_socket_enqueue connecting its peer to a service behind transport t: the peer waits,
        unread, for the answer to its OPEN, and the smart socket is gone. */
    method SmartConnect(f: nat, t: nat, destination: Bytes)
      requires Valid() && f in g.fars && g.fars[f].id == 0
      modifies this
      ensures Valid() && g == Released(old(g), f, t)
      ensures var k := old(g).fars[f].peer;
              && view == old(view)[k := old(view)[k].(read := false)]
              && sent == old(sent) + [Out(t, Packet(OPEN, k, 0, destination))]
    {
      var k := g.fars[f].peer;
      assert LocalOk(k, g.locals[k], g.fars, view[k]);
      ReleasedOk(g, view, f, t);
      sent := sent + [Out(t, Packet(OPEN, g.locals[k].id, 0, destination))];
      g := g.(locals := g.locals[k := g.locals[k].(peer := 0, transport := t, read := false)], fars := g.fars - {f});
      view := view[k := view[k].(read := false)];
    }
  }
}
