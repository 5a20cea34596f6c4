/**
 A reader, a writer and a thread that closes, on one buffer: what bip_buffer_read and
 bip_buffer_write do around their critical sections, in every interleaving. Inside the lock they do
 what the methods of BipBuffer.Bip do to the shared state; waiting, waking and closing happen outside.
 */
module BipThreads {
  import opened ByteSeqs
  import opened BipBuffer

  /** Where a thread is in its call: about to take the lock, past a lock under which it could not go
      on, waiting for its event, or past the wait. */
  datatype Pc<T> = Idle | Entering(arg: T) | Turned(arg: T) | Waiting(arg: T) | Woken(arg: T)

  /** bip_buffer_close, statement by statement. */
  datatype Closer = Open | Marked | ReaderWoken | Done

  /** put and got are the bytes accepted and returned so far. */
  datatype State = State(
    shared: Shared, reader: Pc<nat>, writer: Pc<Bytes>, closer: Closer, put: Bytes, got: Bytes)

  const INITIAL := State(EMPTY, Idle, Idle, Open, [], [])

  datatype Action =
    | StartRead(len: nat) | ReadGoes
    | StartWrite(src: Bytes) | WriteGoes
    | CloseGoes

  predicate Can(s: State, act: Action)
  {
    match act
    case StartRead(len) => s.reader.Idle? && len > 0
    case ReadGoes => !s.reader.Idle? && (s.reader.Waiting? ==> s.shared.evtRead)
    case StartWrite(src) => s.writer.Idle? && src != []
    case WriteGoes => !s.writer.Idle? && (s.writer.Waiting? ==> s.shared.evtWrite)
    case CloseGoes => !s.closer.Done?
  }

  function ReadStep(s: State): State
    requires |s.shared.held| <= SIZE
  {
    match s.reader
    case Idle => s
    case Entering(len) =>
      if s.shared.held == [] then s.(reader := Turned(len))
      else s.(reader := Idle, shared := Take(s.shared, len), got := s.got + Popped(s.shared.held, len).0)
    case Turned(len) => s.(reader := if s.shared.closed then Idle else Waiting(len))
    case Waiting(len) => s.(reader := Woken(len))
    case Woken(len) => s.(reader := if s.shared.closed then Idle else Entering(len))
  }

  function WriteStep(s: State): State
    requires |s.shared.held| <= SIZE
  {
    match s.writer
    case Idle => s
    case Entering(src) =>
      if |s.shared.held| == SIZE then s.(writer := Turned(src))
      else
        s.(writer := Idle, shared := Put(s.shared, src), put := s.put + src[..Min(|src|, SIZE - |s.shared.held|)])
    case Turned(src) => s.(writer := if s.shared.closed then Idle else Waiting(src))
    case Waiting(src) => s.(writer := Woken(src))
    case Woken(src) => s.(writer := if s.shared.closed then Idle else Entering(src))
  }

  function CloseStep(s: State): State
  {
    match s.closer
    case Open => s.(closer := Marked, shared := MarkClosed(s.shared))
    case Marked => s.(closer := ReaderWoken, shared := WakeReader(s.shared))
    case ReaderWoken => s.(closer := Done, shared := WakeWriter(s.shared))
    case Done => s
  }

  function Next(s: State, act: Action): State
    requires Can(s, act) && |s.shared.held| <= SIZE
  {
    match act
    case StartRead(len) => s.(reader := Entering(len))
    case ReadGoes => ReadStep(s)
    case StartWrite(src) => s.(writer := Entering(src))
    case WriteGoes => WriteStep(s)
    case CloseGoes => CloseStep(s)
  }

  ghost predicate IsRun(run: seq<State>)
  {
    && run != [] && run[0] == INITIAL
    && forall k :: 0 < k < |run| ==> Steps(run[k - 1], run[k])
  }

  ghost predicate Steps(s: State, s': State)
  {
    |s.shared.held| <= SIZE && exists act :: Can(s, act) && s' == Next(s, act)
  }

  function Last(run: seq<State>): State
    requires run != []
  {
    run[|run| - 1]
  }

  // ---- what every interleaving keeps ----

  /** The bytes, the events, and who may be waiting for what. */
  predicate Inv(s: State)
  {
    var b := s.shared;
    && |b.held| <= SIZE && s.put == s.got + b.held
    && (!s.reader.Idle? ==> s.reader.arg > 0) && (!s.writer.Idle? ==> s.writer.arg != [])
    && (b.closed <==> !s.closer.Open?)
    && (b.held != [] ==> b.evtRead) && (|b.held| < SIZE ==> b.evtWrite)
    && (!b.closed ==> (b.evtRead <==> b.held != []) && (b.evtWrite <==> |b.held| < SIZE))
    && (s.reader.Waiting? && !b.evtRead ==> s.closer.Open? || s.closer.Marked?)
    && (s.writer.Waiting? && !b.evtWrite ==> !s.closer.Done?)
  }

  lemma ReadKeeps(s: State)
    requires Inv(s) && Can(s, ReadGoes)
    ensures Inv(ReadStep(s))
  {
    if s.reader.Entering? && s.shared.held != [] {
      var (data, rest) := Popped(s.shared.held, s.reader.arg);
      assert s.got + (data + rest) == (s.got + data) + rest && data + rest == s.shared.held;
    }
  }

  lemma WriteKeeps(s: State)
    requires Inv(s) && Can(s, WriteGoes)
    ensures Inv(WriteStep(s))
  {
    if s.writer.Entering? && |s.shared.held| < SIZE {
      var part := s.writer.arg[..Min(|s.writer.arg|, SIZE - |s.shared.held|)];
      assert (s.got + s.shared.held) + part == s.got + (s.shared.held + part);
    }
  }

  lemma NextKeeps(s: State, act: Action)
    requires Inv(s) && Can(s, act)
    ensures Inv(Next(s, act))
  {
    match act {
      case ReadGoes => ReadKeeps(s);
      case WriteGoes => WriteKeeps(s);
      case _ =>
    }
  }

  lemma {:induction false} RunInv(run: seq<State>)
    requires IsRun(run)
    ensures Inv(Last(run))
  {
    if |run| > 1 {
      var pre := run[..|run| - 1];
      RunInv(pre);
      assert Steps(Last(pre), Last(run));
      var act :| Can(Last(pre), act) && Last(run) == Next(Last(pre), act);
      NextKeeps(Last(pre), act);
    }
  }

  /** Whatever the threads do, bytes returned and held are the bytes accepted, in order. */
  lemma Conserved(run: seq<State>)
    requires IsRun(run)
    ensures Last(run).put == Last(run).got + Last(run).shared.held && |Last(run).shared.held| <= SIZE
  {
    RunInv(run);
  }

  /** Nobody sleeps through what it waits for: a reader that cannot go on finds the buffer empty, a
      writer finds it full, and in either case it is open or its closing is still to signal the
      thread; and the two are never both stuck. */
  lemma NoLostWakeup(run: seq<State>)
    requires IsRun(run)
    ensures var s := Last(run);
            && (s.reader.Waiting? && !Can(s, ReadGoes) ==>
                  s.shared.held == [] && (!s.shared.closed || s.closer.Marked?))
            && (s.writer.Waiting? && !Can(s, WriteGoes) ==>
                  |s.shared.held| == SIZE && (!s.shared.closed || !s.closer.Done?))
            && !(s.reader.Waiting? && !Can(s, ReadGoes) && s.writer.Waiting? && !Can(s, WriteGoes))
  {
    RunInv(run);
  }

  // ---- when a read fails although there are bytes ----

  /** The run is made by these actions, one after the other. */
  ghost predicate IsTrace(run: seq<State>, acts: seq<Action>)
  {
    && |run| == |acts| + 1 && run[0] == INITIAL
    && forall k :: 0 <= k < |acts| ==> Made(run[k], acts[k], run[k + 1])
  }

  predicate Made(s: State, act: Action, s': State)
  {
    |s.shared.held| <= SIZE && Can(s, act) && s' == Next(s, act)
  }

  lemma TraceIsRun(run: seq<State>, acts: seq<Action>)
    requires IsTrace(run, acts)
    ensures IsRun(run)
  {
    forall k | 0 < k < |run| ensures Steps(run[k - 1], run[k]) {
      assert Made(run[k - 1], acts[k - 1], run[k]);
    }
  }

  lemma RunHasTrace(run: seq<State>) returns (acts: seq<Action>)
    requires IsRun(run)
    ensures IsTrace(run, acts)
  {
    acts := [];
    while |acts| + 1 < |run|
      invariant |acts| < |run| && forall k :: 0 <= k < |acts| ==> Made(run[k], acts[k], run[k + 1])
    {
      var k := |acts|;
      assert Steps(run[k], run[k + 1]);
      var act :| Can(run[k], act) && run[k + 1] == Next(run[k], act);
      acts := acts + [act];
    }
  }

  lemma StateInv(run: seq<State>, acts: seq<Action>, k: nat)
    requires IsTrace(run, acts) && k < |run|
    ensures Inv(run[k])
  {
    TraceIsRun(run, acts);
    var front := run[..k + 1];
    assert forall m :: 0 < m < |front| ==> Steps(front[m - 1], front[m]);
    RunInv(front);
  }

  /** The reader found nothing under the lock and has not been back. */
  predicate Away(s: State)
  {
    s.reader.Turned? || s.reader.Waiting? || s.reader.Woken?
  }

  /** The reader's next step ends its call with EPIPE. */
  predicate ReadFails(s: State)
  {
    (s.reader.Turned? || s.reader.Woken?) && s.shared.closed
  }

  /** A write takes bytes into the buffer. */
  predicate Accepts(s: State, act: Action)
  {
    act.WriteGoes? && s.writer.Entering? && |s.shared.held| < SIZE
  }

  /** At e the reader took the lock and found the buffer empty, and until k it has not been back. */
  ghost predicate Looked(run: seq<State>, acts: seq<Action>, e: nat, k: nat)
    requires |run| == |acts| + 1
  {
    && e < k < |run| && acts[e].ReadGoes? && run[e].reader.Entering? && run[e].shared.held == []
    && forall m :: e < m <= k ==> Away(run[m])
  }

  /** A reader that is away has looked, and once: there is a last time. */
  lemma {:induction false} LastLook(run: seq<State>, acts: seq<Action>, k: nat) returns (e: nat)
    requires IsTrace(run, acts) && k < |run| && Away(run[k])
    ensures Looked(run, acts, e, k)
  {
    assert k > 0;
    assert Made(run[k - 1], acts[k - 1], run[k]);
    if Away(run[k - 1]) {
      e := LastLook(run, acts, k - 1);
    } else {
      e := k - 1;
    }
  }

  /** While the reader is away nothing is taken, and bytes come only with a write that goes through. */
  lemma AwayStep(s: State, act: Action)
    requires Inv(s) && Can(s, act) && Away(s) && Away(Next(s, act))
    ensures Next(s, act).got == s.got
    ensures Next(s, act).put != s.put <==> Accepts(s, act)
  {
  }

  lemma {:induction false} SinceLook(run: seq<State>, acts: seq<Action>, e: nat, k: nat)
    requires IsTrace(run, acts) && Looked(run, acts, e, k)
    ensures run[k].got == run[e].got && |run[k].put| >= |run[e].put|
    ensures run[k].put != run[e].put <==> exists m :: e < m < k && Accepts(run[m], acts[m])
    decreases k
  {
    if k == e + 1 {
      assert Made(run[e], acts[e], run[k]);
    } else {
      SinceLook(run, acts, e, k - 1);
      assert Made(run[k - 1], acts[k - 1], run[k]);
      StateInv(run, acts, k - 1);
      StateInv(run, acts, k);
      AwayStep(run[k - 1], acts[k - 1]);
    }
  }

  /**
   A read that fails leaves bytes behind if and only if a write went through after its last look at
   the buffer, and what it leaves is exactly what was written since.
   */
  lemma FailsExactly(run: seq<State>, acts: seq<Action>) returns (e: nat)
    requires IsTrace(run, acts) && ReadFails(Last(run))
    ensures Looked(run, acts, e, |acts|)
    ensures Last(run).put == run[e].put + Last(run).shared.held
    ensures Last(run).shared.held != [] <==> exists m :: e < m < |acts| && Accepts(run[m], acts[m])
  {
    e := LastLook(run, acts, |acts|);
    SinceLook(run, acts, e, |acts|);
    StateInv(run, acts, e);
    StateInv(run, acts, |acts|);
  }

  /** Such a run: the writer puts a byte, the buffer is closed, and only then does the reader look
      again. */
  lemma FailsWithBytes() returns (run: seq<State>, acts: seq<Action>)
    ensures IsTrace(run, acts) && ReadFails(Last(run)) && Last(run).shared.held == [7]
  {
    acts := [StartRead(1), ReadGoes, ReadGoes, StartWrite([7]), WriteGoes, CloseGoes, ReadGoes];
    var s1 := Next(INITIAL, StartRead(1));
    var s2 := Next(s1, ReadGoes);
    var s3 := Next(s2, ReadGoes);
    var s4 := Next(s3, StartWrite([7]));
    var s5 := Next(s4, WriteGoes);
    assert s5.shared.held == [7];
    var s6 := Next(s5, CloseGoes);
    var s7 := Next(s6, ReadGoes);
    run := [INITIAL, s1, s2, s3, s4, s5, s6, s7];
    forall k | 0 <= k < |acts| ensures Made(run[k], acts[k], run[k + 1]) {
    }
  }
}
