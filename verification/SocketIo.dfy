/**
 The loops of local_socket_event_func and local_socket_enqueue around adb_read and adb_write: what
 comes of them for every sequence of results that the operating system gives.
 */
module SocketIo {
  import opened ByteSeqs
  import opened StreamSocket

  /** What the operating system does with one write, and with one read. */
  datatype WriteResult = Wrote(n: nat) | WriteAgain | WriteFailed
  datatype ReadResult = Got(data: Bytes) | ReadAgain | EndOfFile

  function Min(a: nat, b: nat): nat
  {
    if a < b then a else b
  }

  function Sum(counts: seq<nat>): nat
  {
    if counts == [] then 0 else counts[0] + Sum(counts[1..])
  }

  /** The writes that make progress, up to the first that does not. */
  ghost predicate Absorbed(accepts: seq<WriteResult>, counts: seq<nat>)
  {
    && |counts| <= |accepts|
    && (forall i :: 0 <= i < |counts| ==> accepts[i] == Wrote(counts[i]) && counts[i] > 0)
    && (|counts| < |accepts| ==> !(accepts[|counts|].Wrote? && accepts[|counts|].n > 0))
  }

  /** What a loop of writes comes to: as much is written as the writes take and there is to write, and
      it fails if and only if that is not all and what stopped it was not that it would block. */
  ghost predicate Writes(len: nat, accepts: seq<WriteResult>, n: nat, fail: bool)
  {
    exists counts :: Absorbed(accepts, counts) && WritesBy(len, accepts, n, fail, counts)
  }

  predicate WritesBy(len: nat, accepts: seq<WriteResult>, n: nat, fail: bool, counts: seq<nat>)
    requires |counts| <= |accepts|
  {
    && n == Min(len, Sum(counts))
    && (fail <==> Sum(counts) < len && |counts| < |accepts| && !accepts[|counts|].WriteAgain?)
  }

  /** The reads that give bytes, up to the first that does not. */
  ghost predicate Supplied(offers: seq<ReadResult>, datas: seq<Bytes>)
  {
    && |datas| <= |offers|
    && (forall i :: 0 <= i < |datas| ==> offers[i] == Got(datas[i]) && datas[i] != [])
    && (|datas| < |offers| ==> !(offers[|datas|].Got? && offers[|datas|].data != []))
  }

  /** What a loop of reads comes to: the bytes that the reads give, in order, as far as there is room,
      and the end of the file if and only if there is room left and what stopped the reads was not
      that they would block. */
  ghost predicate Reads(room: nat, offers: seq<ReadResult>, chunk: Bytes, eof: bool)
  {
    exists datas :: Supplied(offers, datas) && ReadsBy(room, offers, chunk, eof, datas)
  }

  predicate ReadsBy(room: nat, offers: seq<ReadResult>, chunk: Bytes, eof: bool, datas: seq<Bytes>)
    requires |datas| <= |offers|
  {
    && chunk == Concat(datas)[..Min(|Concat(datas)|, room)]
    && (eof <==> |Concat(datas)| < room && |datas| < |offers| && !offers[|datas|].ReadAgain?)
  }

  /** How much a loop of writes gets rid of, whether it failed, and the results it did not use. */
  datatype WriteRun = WriteRun(n: nat, fail: bool, rest: seq<WriteResult>)

  /** adb_write until so much is written, or it would block, or it fails. */
  function WriteAll(len: nat, accepts: seq<WriteResult>): (r: WriteRun)
    ensures r.n <= len && (r.fail ==> r.n < len)
    decreases accepts
  {
    if len == 0 || accepts == [] then WriteRun(0, false, accepts)
    else if accepts[0].WriteAgain? then WriteRun(0, false, accepts[1..])
    else if accepts[0].WriteFailed? || accepts[0].n == 0 then WriteRun(0, true, accepts[1..])
    else
      var m := if accepts[0].n < len then accepts[0].n else len;
      var r := WriteAll(len - m, accepts[1..]);
      r.(n := m + r.n)
  }

  lemma {:induction false} SomeAbsorbed(accepts: seq<WriteResult>) returns (counts: seq<nat>)
    ensures Absorbed(accepts, counts)
  {
    if accepts == [] || !accepts[0].Wrote? || accepts[0].n == 0 {
      counts := [];
    } else {
      var later := SomeAbsorbed(accepts[1..]);
      counts := [accepts[0].n] + later;
      assert forall i :: 0 < i < |counts| ==> accepts[i] == accepts[1..][i - 1];
    }
  }

  lemma {:induction false} WriteAllBy(len: nat, accepts: seq<WriteResult>, counts: seq<nat>)
    requires Absorbed(accepts, counts)
    ensures var r := WriteAll(len, accepts); WritesBy(len, accepts, r.n, r.fail, counts)
    decreases counts
  {
    if len > 0 && counts != [] {
      var m := Min(counts[0], len);
      assert forall i :: 0 <= i < |counts[1..]| ==> accepts[1..][i] == Wrote(counts[1..][i]);
      WriteAllBy(len - m, accepts[1..], counts[1..]);
    }
  }

  lemma WriteAllWrites(len: nat, accepts: seq<WriteResult>)
    ensures var r := WriteAll(len, accepts); Writes(len, accepts, r.n, r.fail)
  {
    var counts := SomeAbsorbed(accepts);
    WriteAllBy(len, accepts, counts);
  }

  method WriteLoop(data: Bytes, accepts: seq<WriteResult>) returns (n: nat, fail: bool, rest: seq<WriteResult>)
    ensures WriteRun(n, fail, rest) == WriteAll(|data|, accepts) && Writes(|data|, accepts, n, fail)
  {
    WriteAllWrites(|data|, accepts);
    n, fail, rest := 0, false, accepts;
    while n < |data|
      invariant n <= |data| && !fail
      invariant var r := WriteAll(|data| - n, rest); WriteAll(|data|, accepts) == r.(n := n + r.n)
    {
      if rest == [] || rest[0].WriteAgain? {
        rest := if rest == [] then [] else rest[1..];
        return;
      } else if rest[0].WriteFailed? || rest[0].n == 0 {
        fail, rest := true, rest[1..];
        return;
      }
      n := n + if rest[0].n < |data| - n then rest[0].n else |data| - n;
      rest := rest[1..];
    }
  }

  /** The bytes adb_read gives until there is no more room, or it would block, or the file ends. */
  function ReadAll(room: nat, offers: seq<ReadResult>): (r: (Bytes, bool))
    ensures |r.0| <= room
    decreases offers
  {
    if room == 0 || offers == [] || offers[0].ReadAgain? then ([], false)
    else if offers[0].EndOfFile? || offers[0].data == [] then ([], true)
    else
      var d := offers[0].data;
      var part := if |d| <= room then d else d[..room];
      var r := ReadAll(room - |part|, offers[1..]);
      (part + r.0, r.1)
  }

  lemma {:induction false} SomeSupplied(offers: seq<ReadResult>) returns (datas: seq<Bytes>)
    ensures Supplied(offers, datas)
  {
    if offers == [] || !offers[0].Got? || offers[0].data == [] {
      datas := [];
    } else {
      var later := SomeSupplied(offers[1..]);
      datas := [offers[0].data] + later;
      assert forall i :: 0 < i < |datas| ==> offers[i] == offers[1..][i - 1];
    }
  }

  lemma TakePart(a: Bytes, b: Bytes, room: nat)
    ensures var part := a[..Min(|a|, room)];
            (a + b)[..Min(|a + b|, room)] == part + b[..Min(|b|, room - |part|)]
  {
  }

  lemma {:induction false} ReadAllBy(room: nat, offers: seq<ReadResult>, datas: seq<Bytes>)
    requires Supplied(offers, datas)
    ensures var r := ReadAll(room, offers); ReadsBy(room, offers, r.0, r.1, datas)
    decreases datas
  {
    if room > 0 && datas != [] {
      var part := datas[0][..Min(|datas[0]|, room)];
      assert forall i :: 0 <= i < |datas[1..]| ==> offers[1..][i] == Got(datas[1..][i]);
      ReadAllBy(room - |part|, offers[1..], datas[1..]);
      TakePart(datas[0], Concat(datas[1..]), room);
    }
  }

  lemma ReadAllReads(room: nat, offers: seq<ReadResult>)
    ensures var r := ReadAll(room, offers); Reads(room, offers, r.0, r.1)
  {
    var datas := SomeSupplied(offers);
    ReadAllBy(room, offers, datas);
  }

  method ReadLoop(offers: seq<ReadResult>) returns (chunk: Bytes, eof: bool)
    ensures (chunk, eof) == ReadAll(MAX_PAYLOAD, offers) && Reads(MAX_PAYLOAD, offers, chunk, eof)
  {
    ReadAllReads(MAX_PAYLOAD, offers);
    chunk, eof := [], false;
    var rest, room := offers, MAX_PAYLOAD;
    ghost var all := ReadAll(room, rest);
    assert [] + all.0 == all.0;
    while room > 0
      invariant 0 <= room <= MAX_PAYLOAD && !eof && |chunk| == MAX_PAYLOAD - room
      invariant all.0 == chunk + ReadAll(room, rest).0 && all.1 == ReadAll(room, rest).1
      decreases room
    {
      assert chunk + [] == chunk;
      if rest == [] || rest[0].ReadAgain? {
        return;
      } else if rest[0].EndOfFile? || rest[0].data == [] {
        eof := true;
        return;
      }
      var part := if |rest[0].data| <= room then rest[0].data else rest[0].data[..room];
      Regroup(chunk, part, ReadAll(room - |part|, rest[1..]).0);
      chunk, rest, room := chunk + part, rest[1..], room - |part|;
    }
    assert chunk + [] == chunk;
  }

  /** Writing a queue of packets out, one after the other. */
  function DrainAll(queue: seq<Bytes>, accepts: seq<WriteResult>): (r: (nat, bool))
    ensures r.0 <= |Concat(queue)|
  {
    if queue == [] then (0, false)
    else
      var w := WriteAll(|queue[0]|, accepts);
      if w.n < |queue[0]| then (w.n, w.fail)
      else
        var r := DrainAll(queue[1..], w.rest);
        (w.n + r.0, r.1)
  }

  /** A queue of one packet, and there is never more, is written out as that packet is. */
  lemma DrainsOne(packet: Bytes, accepts: seq<WriteResult>)
    ensures var (n, fail) := DrainAll([packet], accepts); Writes(|packet|, accepts, n, fail)
  {
    WriteAllWrites(|packet|, accepts);
    assert [packet][1..] == [];
  }

  lemma DrainsSingle(queue: seq<Bytes>, accepts: seq<WriteResult>)
    ensures |queue| == 1 ==> var (n, fail) := DrainAll(queue, accepts); Writes(|queue[0]|, accepts, n, fail)
  {
    if |queue| == 1 {
      DrainsOne(queue[0], accepts);
      assert queue == [queue[0]];
    }
  }

  /** What is left of the queue is the queue without the bytes written. */
  method DrainLoop(queue: seq<Bytes>, accepts: seq<WriteResult>) returns (q: seq<Bytes>, n: nat, fail: bool)
    ensures (n, fail) == DrainAll(queue, accepts)
    ensures q == DropBytes(queue, n) && (q == [] <==> n == |Concat(queue)|)
  {
    q, n, fail := queue, 0, false;
    var rest := accepts;
    DropBytesAll(queue);
    while q != []
      invariant Remains(queue, n, q) && !fail
      invariant var r := DrainAll(q, rest); DrainAll(queue, accepts) == (n + r.0, r.1)
      decreases |q|
    {
      var m, f, rest' := WriteLoop(q[0], rest);
      if m < |q[0]| {
        RemainsPart(queue, n, q, m);
        q, n, fail := [q[0][m..]] + q[1..], n + m, f;
        return;
      }
      RemainsWhole(queue, n, q);
      q, n, rest := q[1..], n + m, rest';
    }
  }
}
