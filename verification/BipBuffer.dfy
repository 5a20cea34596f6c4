/**
 The circular buffer behind an emulated socket pair: two regions of one array, cached "can read"
 and "can write" flags, and the two events that blocked threads wait on. It is a bounded FIFO.
 */
module BipBuffer {
  import opened ByteSeqs

  const SIZE: nat := 4096

  function Min(a: nat, b: nat): nat
  {
    if a <= b then a else b
  }

  // ---- the FIFO it is meant to be ----

  /** What a write of src leaves in a FIFO that holds s: as much of src as there is room for. */
  function Pushed(s: Bytes, src: Bytes): Bytes
    requires |s| <= SIZE
  {
    s + src[..Min(|src|, SIZE - |s|)]
  }

  /** What a read of up to len bytes takes from a FIFO that holds s, and what it leaves. */
  function Popped(s: Bytes, len: nat): (Bytes, Bytes)
  {
    var n := Min(len, |s|);
    (s[..n], s[n..])
  }

  lemma PopsSplit(s: Bytes, a: Bytes, b: Bytes, len: nat)
    requires s == a + b && |a| == Min(len, |s|)
    ensures Popped(s, len) == (a, b)
  {
  }

  lemma PopsTwice(s: Bytes, a: Bytes, mid: Bytes, b: Bytes, rest: Bytes, len: nat)
    requires s == a + mid && mid == b + rest && |a| <= len && |b| == Min(len - |a|, |mid|)
    ensures Popped(s, len) == (a + b, rest)
  {
    assert s == (a + b) + rest;
    PopsSplit(s, a + b, rest, len);
  }

  datatype Call = Write(src: Bytes) | Read(len: nat)

  /** The bytes accepted, returned and held after a sequence of calls on an empty FIFO. */
  function Run(calls: seq<Call>): (r: (Bytes, Bytes, Bytes))
    ensures |r.2| <= SIZE
  {
    if calls == [] then ([], [], []) else RunOne(Run(calls[..|calls| - 1]), calls[|calls| - 1])
  }

  /** One more call. */
  function RunOne(r: (Bytes, Bytes, Bytes), call: Call): (r': (Bytes, Bytes, Bytes))
    requires |r.2| <= SIZE
    ensures |r'.2| <= SIZE
  {
    var (put, got, held) := r;
    match call
    case Write(src) => (put + src[..Min(|src|, SIZE - |held|)], got, Pushed(held, src))
    case Read(len) => (put, got + Popped(held, len).0, Popped(held, len).1)
  }

  /** Nothing is lost, repeated or reordered: what was returned and what is held is what was put. */
  lemma {:induction false} RunConserves(calls: seq<Call>)
    ensures var (put, got, held) := Run(calls); put == got + held
  {
    if calls != [] {
      var n := |calls| - 1;
      RunConserves(calls[..n]);
      OneConserves(Run(calls[..n]), calls[n]);
    }
  }

  lemma OneConserves(r: (Bytes, Bytes, Bytes), call: Call)
    requires |r.2| <= SIZE && r.0 == r.1 + r.2
    ensures var (put, got, held) := RunOne(r, call); put == got + held
  {
  }

  /** What the two threads share: the bytes held, whether the buffer is closed, and the events. */
  datatype Shared = Shared(held: Bytes, closed: bool, evtRead: bool, evtWrite: bool)

  const EMPTY := Shared([], false, false, true)

  /** bip_buffer_write inside the lock, when there is room. */
  function Put(s: Shared, src: Bytes): Shared
    requires |s.held| <= SIZE
  {
    var held := Pushed(s.held, src);
    s.(held := held, evtRead := s.evtRead || s.held == [], evtWrite := s.evtWrite && |held| < SIZE)
  }

  /** bip_buffer_read inside the lock, when there are bytes. */
  function Take(s: Shared, len: nat): Shared
    requires |s.held| <= SIZE
  {
    var held := Popped(s.held, len).1;
    s.(held := held, evtRead := s.evtRead && held != [], evtWrite := s.evtWrite || |s.held| == SIZE)
  }

  /** The three statements of bip_buffer_close, which takes no lock. */
  function MarkClosed(s: Shared): Shared
  {
    s.(closed := true)
  }

  function WakeReader(s: Shared): Shared
  {
    s.(evtRead := s.evtRead || s.held == [])
  }

  function WakeWriter(s: Shared): Shared
  {
    s.(evtWrite := s.evtWrite || |s.held| == SIZE)
  }

  /** How a call ends: with a byte count, with EPIPE, or waiting for the other side. */
  datatype Outcome = Count(n: nat) | Epipe | Wait

  class Bip {
    var aStart: nat
    var aEnd: nat
    var bEnd: nat
    var closed: bool
    var canWrite: bool
    var evtWrite: bool    // the manual-reset event is signalled
    var canRead: bool
    var evtRead: bool
    const buff: array<Byte>

    /** Region A, then region B. */
    ghost function Contents(): Bytes
      reads this, buff
      requires Shape()
      ensures |Contents()| == Held()
    {
      buff[aStart..aEnd] + buff[..bEnd]
    }

    /** The regions: b_end never passes a_start, and region B is used only once A reaches the end. */
    ghost predicate Shape()
      reads this
    {
      buff.Length == SIZE && bEnd <= aStart <= aEnd <= SIZE && (bEnd > 0 ==> aEnd == SIZE)
    }

    ghost function Held(): int
      reads this
    {
      aEnd - aStart + bEnd
    }

    /** An empty buffer is reset, and the flags and events say what is possible; a closed buffer may
        have its events signalled besides. */
    ghost predicate Valid()
      reads this
    {
      && Shape()
      && (aStart == aEnd ==> aEnd == 0)
      && (canRead <==> Held() > 0)
      && (canWrite <==> Held() < SIZE)
      && (canRead ==> evtRead) && (canWrite ==> evtWrite)
      && (!closed ==> evtRead == canRead && evtWrite == canWrite)
    }

    ghost function State(): Shared
      reads this, buff
      requires Shape()
    {
      Shared(Contents(), closed, evtRead, evtWrite)
    }

    /** bip_buffer_init. */
    constructor ()
      ensures Valid() && fresh(buff) && State() == EMPTY
    {
      aStart, aEnd, bEnd, closed := 0, 0, 0, false;
      canWrite, canRead, evtWrite, evtRead := true, false, true, false;
      buff := new Byte[SIZE](_ => 0);
    }

    /** bip_buffer_close: wakes whoever is waiting. */
    method Close()
      requires Valid()
      modifies this`closed, this`evtRead, this`evtWrite
      ensures Valid() && State() == WakeWriter(WakeReader(MarkClosed(old(State()))))
    {
      closed := true;
      if !canRead {
        evtRead := true;
      }
      if !canWrite {
        evtWrite := true;
      }
    }

    /** Appending to region A. */
    method FillA(src: Bytes) returns (n: nat)
      requires Shape() && aEnd < SIZE
      modifies this`aEnd, buff
      ensures Shape() && n == Min(|src|, SIZE - old(aEnd)) && aEnd == old(aEnd) + n
      ensures Contents() == old(Contents()) + src[..n]
    {
      n := SIZE - aEnd;
      if n > |src| {
        n := |src|;
      }
      forall k | 0 <= k < n {
        buff[aEnd + k] := src[k];
      }
      assert buff[aStart..aEnd + n] == old(buff[aStart..aEnd]) + src[..n];
      aEnd := aEnd + n;
    }

    /** Appending to region B. */
    method FillB(src: Bytes) returns (n: nat)
      requires Shape() && aEnd == SIZE && bEnd < aStart
      modifies this`bEnd, buff
      ensures Shape() && n == Min(|src|, aStart - old(bEnd)) && bEnd == old(bEnd) + n
      ensures Contents() == old(Contents()) + src[..n]
    {
      n := aStart - bEnd;
      if n > |src| {
        n := |src|;
      }
      forall k | 0 <= k < n {
        buff[bEnd + k] := src[k];
      }
      assert buff[aStart..aEnd] == old(buff[aStart..aEnd]);
      assert buff[..bEnd + n] == old(buff[..bEnd]) + src[..n];
      bEnd := bEnd + n;
    }

    /** Region A first, then region B. */
    method Fill(src: Bytes) returns (count: nat, full: bool)
      requires Shape() && Held() < SIZE && src != []
      modifies this`aEnd, this`bEnd, buff
      ensures Shape() && count == Min(|src|, SIZE - old(Held())) && count > 0
      ensures Contents() == old(Contents()) + src[..count] && (full <==> Held() == SIZE)
    {
      count, full := 0, false;
      if aEnd < SIZE {
        count := FillA(src);
        if aEnd == SIZE && aStart == 0 {
          return count, true;
        }
      }
      if count < |src| {
        assert aStart - bEnd > 0;
        var n := FillB(src[count..]);
        assert src[..count] + src[count..][..n] == src[..count + n];
        count := count + n;
        full := bEnd == aStart;
      }
    }

    /** bip_buffer_write, up to the point where it would wait. */
    method Write(src: Bytes) returns (r: Outcome)
      requires Valid()
      modifies this, buff
      ensures Valid() && Contents() == Pushed(old(Contents()), src)
      ensures State() == if src != [] && r.Count? then Put(old(State()), src) else old(State())
      ensures if src == [] then r == Count(0)
              else if |old(Contents())| == SIZE then r == if closed then Epipe else Wait
              else r == Count(Min(|src|, SIZE - |old(Contents())|)) && r.n > 0
    {
      if src == [] {
        return Count(0);
      }
      if !canWrite {
        return if closed then Epipe else Wait;
      }
      var count, full := Fill(src);
      if full {
        canWrite, evtWrite := false, false;
      }
      if !canRead {
        canRead, evtRead := true, true;
      }
      return Count(count);
    }

    /** Taking from the front of region A. */
    method DrainA(len: nat) returns (data: Bytes)
      requires Shape()
      modifies this`aStart
      ensures Shape() && aStart == old(aStart) + |data| && |data| == Min(len, aEnd - old(aStart))
      ensures old(Contents()) == data + Contents()
    {
      var n := aEnd - aStart;
      if n > len {
        n := len;
      }
      data := buff[aStart..aStart + n];
      assert buff[aStart..aEnd] == data + buff[aStart + n..aEnd];
      aStart := aStart + n;
    }

    /** Region B becomes region A and is taken from in turn; an emptied buffer is reset. */
    method Flip(len: nat) returns (data: Bytes)
      requires Shape() && aStart == aEnd
      modifies this`aStart, this`aEnd, this`bEnd
      ensures Shape() && (aStart == aEnd ==> aEnd == 0) && bEnd == 0
      ensures old(Contents()) == data + Contents() && |data| == Min(len, |old(Contents())|)
    {
      ghost var c := Contents();
      aStart, aEnd, bEnd := 0, bEnd, 0;
      assert Contents() == c;
      data := [];
      if aEnd > 0 {
        data := DrainA(len);
        if aStart == aEnd {
          aStart, aEnd := 0, 0;
        }
      }
    }

    /** Region A first, then what was region B. */
    method Drain(len: nat) returns (data: Bytes)
      requires Shape() && Held() > 0 && aStart < aEnd && len > 0
      modifies this`aStart, this`aEnd, this`bEnd
      ensures Shape() && (aStart == aEnd ==> aEnd == 0 && bEnd == 0)
      ensures (data, Contents()) == Popped(old(Contents()), len) && |data| > 0
    {
      ghost var c := Contents();
      data := DrainA(len);
      ghost var mid := Contents();
      if aStart == aEnd {
        var more := Flip(len - |data|);
        PopsTwice(c, data, mid, more, Contents(), len);
        data := data + more;
      } else {
        PopsSplit(c, data, Contents(), len);
      }
    }

    /** bip_buffer_read, up to the point where it would wait. */
    method Read(len: nat) returns (r: Outcome, data: Bytes)
      requires Valid()
      modifies this
      ensures Valid() && (data, Contents()) == Popped(old(Contents()), len)
      ensures State() == if len > 0 && r.Count? then Take(old(State()), len) else old(State())
      ensures if len == 0 then r == Count(0)
              else if old(Contents()) == [] then r == if closed then Epipe else Wait
              else r == Count(|data|) && |data| > 0
      ensures Contents() == [] ==> aStart == aEnd == bEnd == 0
    {
      if len == 0 {
        return Count(0), [];
      }
      if !canRead {
        return if closed then Epipe else Wait, [];
      }
      data := Drain(len);
      if aEnd == 0 {
        canRead, evtRead := false, false;
      }
      if !canWrite {
        canWrite, evtWrite := true, true;
      }
      return Count(|data|), data;
    }

    /** Reader and writer never wait at the same time, and neither waits on a signalled event. */
    lemma NeverBothWait()
      requires Valid()
      ensures canRead || canWrite
      ensures !closed && !canRead ==> !evtRead && canWrite && evtWrite
      ensures !closed && !canWrite ==> !evtWrite && canRead && evtRead
    {
    }
  }

  /** A buffer of its own driven through any sequence of calls by one thread, which does not wait:
      it holds and has returned what the FIFO would, and so nothing is lost, repeated or reordered. */
  method Drive(calls: seq<Call>) returns (b: Bip, put: Bytes, got: Bytes)
    ensures fresh(b) && b.Valid() && (put, got, b.Contents()) == Run(calls)
    ensures put == got + b.Contents()
  {
    b := new Bip();
    put, got := [], [];
    var i := 0;
    assert calls[..0] == [];
    while i < |calls|
      invariant i <= |calls| && fresh(b) && fresh(b.buff) && b.Valid()
      invariant (put, got, b.Contents()) == Run(calls[..i])
    {
      assert calls[..i + 1][..i] == calls[..i] && calls[..i + 1][i] == calls[i];
      put, got := DriveOne(b, calls[i], put, got);
      i := i + 1;
    }
    assert calls[..i] == calls;
    RunConserves(calls);
  }

  method DriveOne(b: Bip, call: Call, put: Bytes, got: Bytes) returns (put': Bytes, got': Bytes)
    requires b.Valid()
    modifies b, b.buff
    ensures b.Valid()
    ensures (put', got', b.Contents()) == RunOne((put, got, old(b.Contents())), call)
  {
    put', got' := put, got;
    match call {
      case Write(src) =>
        var r := b.Write(src);
        put' := put + if r.Count? then src[..r.n] else [];
      case Read(len) =>
        var r, data := b.Read(len);
        got' := got + data;
    }
  }
}
