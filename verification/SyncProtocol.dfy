/**
 Pushing and pulling files: the client's and the device's halves of the sync protocol, over
 streams that arrive in arbitrary fragments and files that are read in arbitrary pieces.
 */
module SyncProtocol {
  import opened ByteSeqs
  import opened FdIo

  const DATA_MAX: nat := 65536
  const NAME_MAX: nat := 1024

  // the identifiers, four letters each, first letter lowest
  const ID_SEND: Word := 0x444e4553
  const ID_QUIT: Word := 0x54495551
  const ID_DATA: Word := 0x41544144
  const ID_DONE: Word := 0x454e4f44
  const ID_FAIL: Word := 0x4c494146

  // ---- frames ----

  function Frame(id: Word, size: Word): (b: Bytes)
    ensures |b| == 8
  {
    PutWord(id) + PutWord(size)
  }

  function FrameId(s: Bytes): Word
    requires |s| >= 8
  {
    GetWord(s[..4])
  }

  function FrameSize(s: Bytes): Word
    requires |s| >= 8
  {
    GetWord(s[4..8])
  }

  lemma FrameRead(id: Word, size: Word, rest: Bytes)
    ensures var s := Frame(id, size) + rest; FrameId(s) == id && FrameSize(s) == size && s[8..] == rest
  {
    var s := Frame(id, size) + rest;
    GetPut(id);
    GetPut(size);
    assert s[..4] == PutWord(id) && s[4..8] == PutWord(size);
  }

  predicate Pieces(chunks: seq<Bytes>)
  {
    forall i :: 0 <= i < |chunks| ==> 0 < |chunks[i]| <= DATA_MAX
  }

  function DataFrames(chunks: seq<Bytes>): Bytes
    requires Pieces(chunks)
  {
    if chunks == [] then [] else Frame(ID_DATA, |chunks[0]|) + chunks[0] + DataFrames(chunks[1..])
  }

  // ---- taking frames off a stream ----

  /** What arrives next: data with its bytes, any other header (data too long included), a stream
      that ends inside a header, or one that ends inside the data. */
  datatype Item = Data(data: Bytes) | Other(id: Word, size: Word) | NoHeader | NoData

  datatype Next = Next(item: Item, rest: Bytes)

  function NextItem(s: Bytes): (n: Next)
    ensures n.item.Data? || n.item.Other? ==> |n.rest| < |s|
  {
    if |s| < 8 then Next(NoHeader, s)
    else if FrameId(s) != ID_DATA || FrameSize(s) > DATA_MAX then Next(Other(FrameId(s), FrameSize(s)), s[8..])
    else if |s| < 8 + FrameSize(s) then Next(NoData, s[8..])
    else Next(Data(s[8..8 + FrameSize(s)]), s[8 + FrameSize(s)..])
  }

  method ReadItem(fragments: seq<Fragment>) returns (item: Item, rest: seq<Fragment>)
    ensures Next(item, Concat(rest)) == NextItem(Concat(fragments)) || (item == NoHeader == NextItem(Concat(fragments)).item)
  {
    ghost var s := Concat(fragments);
    var h := ReadFdExactly(fragments, 8);
    if !h.ok {
      return NoHeader, h.rest;
    }
    assert h.data[..4] == s[..4] && h.data[4..8] == s[4..8];
    var id, size := FrameId(h.data), FrameSize(h.data);
    if id != ID_DATA || size > DATA_MAX {
      return Other(id, size), h.rest;
    }
    var d := ReadFdExactly(h.rest, size);
    if !d.ok {
      return NoData, h.rest;
    }
    assert s[8..][..size] == s[8..8 + size] && s[8..][size..] == s[8 + size..];
    return Data(d.data), d.rest;
  }

  lemma NextOther(id: Word, size: Word, rest: Bytes)
    requires id != ID_DATA
    ensures NextItem(Frame(id, size) + rest) == Next(Other(id, size), rest)
  {
    FrameRead(id, size, rest);
  }

  lemma NextData(data: Bytes, rest: Bytes)
    requires |data| <= DATA_MAX
    ensures NextItem(Frame(ID_DATA, |data|) + data + rest) == Next(Data(data), rest)
  {
    var s := Frame(ID_DATA, |data|) + (data + rest);
    FrameRead(ID_DATA, |data|, data + rest);
    assert s == Frame(ID_DATA, |data|) + data + rest;
    assert s[8..8 + |data|] == data && s[8 + |data|..] == rest;
  }

  // ---- reading a file and sending it ----

  datatype FileRead = Piece(data: Bytes) | Eintr | ReadError

  predicate Readable(input: seq<FileRead>)
  {
    forall i :: 0 <= i < |input| && input[i].Piece? ==> 0 < |input[i].data| <= DATA_MAX
  }

  /** The pieces read before the end of the file or an error. */
  function PiecesFrom(input: seq<FileRead>, i: nat): (chunks: seq<Bytes>)
    requires Readable(input) && i <= |input|
    ensures Pieces(chunks)
    decreases |input| - i
  {
    if i == |input| || input[i].ReadError? then []
    else if input[i].Eintr? then PiecesFrom(input, i + 1)
    else [input[i].data] + PiecesFrom(input, i + 1)
  }

  function PiecesRead(input: seq<FileRead>): (chunks: seq<Bytes>)
    requires Readable(input)
    ensures Pieces(chunks)
  {
    PiecesFrom(input, 0)
  }

  predicate ReadFails(input: seq<FileRead>)
  {
    exists i :: 0 <= i < |input| && input[i].ReadError?
  }

  /** The loop of write_data_file and of do_recv; the result says whether a read failed. */
  method SendPieces(input: seq<FileRead>) returns (out: Bytes, failed: bool)
    requires Readable(input)
    ensures out == DataFrames(PiecesRead(input)) && (failed <==> ReadFails(input))
  {
    ghost var all := DataFrames(PiecesRead(input));
    out, failed := [], false;
    assert [] + all == all;
    var i := 0;
    while i < |input| && !failed
      decreases |input| - i, !failed
      invariant i <= |input| && (failed ==> i < |input| && input[i].ReadError?)
      invariant all == out + DataFrames(PiecesFrom(input, i))
      invariant forall k :: 0 <= k < i ==> !input[k].ReadError?
    {
      PiecesStep(input, i);
      match input[i] {
        case ReadError =>
          failed := true;
        case Eintr =>
          i := i + 1;
        case Piece(data) =>
          var frame := Frame(ID_DATA, |data|) + data;
          Regroup(out, frame, DataFrames(PiecesFrom(input, i + 1)));
          out, i := out + frame, i + 1;
      }
    }
    assert out + [] == out;
  }

  lemma PiecesStep(input: seq<FileRead>, i: nat)
    requires Readable(input) && i < |input|
    ensures var now, later := DataFrames(PiecesFrom(input, i)), DataFrames(PiecesFrom(input, i + 1));
            match input[i]
            case ReadError => now == []
            case Eintr => now == later
            case Piece(data) => now == (Frame(ID_DATA, |data|) + data) + later
  {
    if input[i].Piece? {
      DataFramesCons(input[i].data, PiecesFrom(input, i + 1));
    }
  }

  lemma DataFramesCons(c: Bytes, chunks: seq<Bytes>)
    requires Pieces([c] + chunks)
    ensures Pieces(chunks) && 0 < |c| <= DATA_MAX
    ensures DataFrames([c] + chunks) == (Frame(ID_DATA, |c|) + c) + DataFrames(chunks)
  {
    assert ([c] + chunks)[0] == c && ([c] + chunks)[1..] == chunks;
    forall i | 0 <= i < |chunks| ensures 0 < |chunks[i]| <= DATA_MAX {
      assert ([c] + chunks)[i + 1] == chunks[i];
    }
  }

  // ---- the device stores a pushed file ----

  datatype Reply = Okay | Fail

  /** ok: the service goes on; file: what was written; time: the DONE's timestamp. */
  datatype Stored = Stored(ok: bool, file: Bytes, time: Word, replies: seq<Reply>, rest: Bytes)

  /** The loop of handle_send_file. The flags are the outcomes of its writes to the file; a write
      beyond them succeeds. */
  function Receive(s: Bytes, open: bool, writes: seq<bool>): Stored
    decreases |s|
  {
    var n := NextItem(s);
    match n.item
    case NoHeader => Stored(false, [], 0, [], n.rest)
    case NoData => Stored(false, [], 0, [], n.rest)
    case Other(id, size) =>
      if id == ID_DONE then Stored(true, [], size, if open then [Okay] else [], n.rest)
      else Stored(false, [], 0, [Fail], n.rest)
    case Data(data) =>
      if !open then Receive(n.rest, false, writes)
      else if writes != [] && !writes[0] then
        var r := Receive(n.rest, false, writes[1..]);
        r.(replies := [Fail] + r.replies)
      else
        var r := Receive(n.rest, true, if writes == [] then [] else writes[1..]);
        r.(file := data + r.file)
  }

  /** How opening the file went: whether making its directories failed, whether it is open, and
      whether an open file could not be given its owner. Each failure is reported at once. */
  datatype Opening = Opening(mkdirsFailed: bool, open: bool, chownFailed: bool)

  function Complaints(o: Opening): seq<Reply>
  {
    (if o.mkdirsFailed then [Fail] else []) + (if !o.open || o.chownFailed then [Fail] else [])
  }

  function Store(s: Bytes, o: Opening, writes: seq<bool>): Stored
  {
    var r := Receive(s, o.open, writes);
    r.(replies := Complaints(o) + r.replies)
  }

  /** A result behind what was written and answered before. */
  function Behind(file: Bytes, replies: seq<Reply>, r: Stored): Stored
  {
    r.(file := file + r.file, replies := replies + r.replies)
  }

  lemma BehindMore(file: Bytes, replies: seq<Reply>, r: Stored, data: Bytes)
    ensures Behind(file, replies, r.(file := data + r.file)) == Behind(file + data, replies, r)
    ensures Behind(file, replies, r.(replies := [Fail] + r.replies)) == Behind(file, replies + [Fail], r)
  {
    assert file + (data + r.file) == (file + data) + r.file;
    assert replies + ([Fail] + r.replies) == (replies + [Fail]) + r.replies;
  }

  method HandleSendFile(fragments: seq<Fragment>, o: Opening, writes: seq<bool>)
      returns (ok: bool, file: Bytes, time: Word, replies: seq<Reply>, rest: seq<Fragment>)
    ensures var r := Store(Concat(fragments), o, writes);
            && ok == r.ok && file == r.file && time == r.time && replies == r.replies
            && (ok ==> Concat(rest) == r.rest)
  {
    var open, outcomes := o.open, writes;
    file, replies, rest, ok, time := [], Complaints(o), fragments, false, 0;
    while true
      invariant !ok && time == 0
      invariant Store(Concat(fragments), o, writes) == Behind(file, replies, Receive(Concat(rest), open, outcomes))
      decreases |Concat(rest)|
    {
      var item, after := ReadItem(rest);
      match item {
        case NoHeader =>
          return;
        case NoData =>
          return;
        case Other(id, size) =>
          if id == ID_DONE {
            ok, time, rest := true, size, after;
            replies := if open then replies + [Okay] else replies;
          } else {
            replies := replies + [Fail];
          }
          return;
        case Data(data) =>
          rest := after;
          if open {
            var written := outcomes == [] || outcomes[0];
            outcomes := if outcomes == [] then [] else outcomes[1..];
            ghost var r := Receive(Concat(rest), written, outcomes);
            BehindMore(file, replies, r, data);
            if written {
              file := file + data;
            } else {
              open, replies := false, replies + [Fail];
            }
          }
      }
    }
  }

  // ---- a push, end to end ----

  function PushBody(chunks: seq<Bytes>, time: Word): Bytes
    requires Pieces(chunks)
  {
    DataFrames(chunks) + Frame(ID_DONE, time)
  }

  lemma NextOfPush(chunks: seq<Bytes>, time: Word, rest: Bytes)
    requires Pieces(chunks)
    ensures chunks == [] ==> NextItem(PushBody(chunks, time) + rest) == Next(Other(ID_DONE, time), rest)
    ensures chunks != [] ==>
              NextItem(PushBody(chunks, time) + rest) == Next(Data(chunks[0]), PushBody(chunks[1..], time) + rest)
  {
    if chunks == [] {
      NextOther(ID_DONE, time, rest);
      assert PushBody(chunks, time) == Frame(ID_DONE, time);
    } else {
      var after := PushBody(chunks[1..], time) + rest;
      NextData(chunks[0], after);
      assert PushBody(chunks, time) + rest == Frame(ID_DATA, |chunks[0]|) + chunks[0] + after;
    }
  }

  /** The stream holds these pieces as data frames, then a DONE with this time, then the rest. */
  ghost predicate Carries(s: Bytes, chunks: seq<Bytes>, time: Word, rest: Bytes)
    decreases chunks
  {
    if chunks == [] then NextItem(s) == Next(Other(ID_DONE, time), rest)
    else NextItem(s).item == Data(chunks[0]) && Carries(NextItem(s).rest, chunks[1..], time, rest)
  }

  lemma {:induction false} PushCarries(chunks: seq<Bytes>, time: Word, rest: Bytes)
    requires Pieces(chunks)
    ensures Carries(PushBody(chunks, time) + rest, chunks, time, rest)
    decreases chunks
  {
    NextOfPush(chunks, time, rest);
    if chunks != [] {
      PushCarries(chunks[1..], time, rest);
    }
  }

  /** How many of the first n writes come before the first that fails. */
  function Written(writes: seq<bool>, n: nat): (k: nat)
    ensures k <= n
  {
    if n == 0 || (writes != [] && !writes[0]) then 0
    else 1 + Written(if writes == [] then [] else writes[1..], n - 1)
  }

  /** A device whose file is not open reads to the DONE and says nothing. */
  lemma {:induction false} Skipped(s: Bytes, chunks: seq<Bytes>, time: Word, rest: Bytes, writes: seq<bool>)
    ensures Carries(s, chunks, time, rest) ==> Receive(s, false, writes) == Stored(true, [], time, [], rest)
    decreases chunks
  {
    if chunks != [] && NextItem(s).item.Data? {
      Skipped(NextItem(s).rest, chunks[1..], time, rest, writes);
    }
  }

  /** The bytes of the pieces written before the first write that fails. */
  function Kept(chunks: seq<Bytes>, writes: seq<bool>): Bytes
  {
    if chunks == [] || (writes != [] && !writes[0]) then []
    else chunks[0] + Kept(chunks[1..], if writes == [] then [] else writes[1..])
  }

  lemma {:induction false} KeptPrefix(chunks: seq<Bytes>, writes: seq<bool>)
    ensures Kept(chunks, writes) == Concat(chunks[..Written(writes, |chunks|)])
  {
    var k := Written(writes, |chunks|);
    if k == 0 {
      assert chunks[..0] == [];
    } else {
      assert chunks[..k][0] == chunks[0] && chunks[..k][1..] == chunks[1..][..k - 1];
      KeptPrefix(chunks[1..], if writes == [] then [] else writes[1..]);
    }
  }

  lemma {:induction false} Received(s: Bytes, chunks: seq<Bytes>, time: Word, rest: Bytes, writes: seq<bool>)
    ensures Carries(s, chunks, time, rest) ==>
              Receive(s, true, writes)
              == Stored(true, Kept(chunks, writes), time,
                        [if Written(writes, |chunks|) == |chunks| then Okay else Fail], rest)
    decreases chunks
  {
    if chunks != [] && NextItem(s).item.Data? {
      if writes != [] && !writes[0] {
        Skipped(NextItem(s).rest, chunks[1..], time, rest, writes[1..]);
      } else {
        Received(NextItem(s).rest, chunks[1..], time, rest, if writes == [] then [] else writes[1..]);
      }
    }
  }

  /** However the file was cut into pieces, the device writes the pieces in order up to the first
      write that fails, gives one verdict, and stops reading right behind the DONE. */
  lemma PushStored(chunks: seq<Bytes>, time: Word, rest: Bytes, writes: seq<bool>)
    requires Pieces(chunks)
    ensures var k := Written(writes, |chunks|);
            Receive(PushBody(chunks, time) + rest, true, writes)
            == Stored(true, Concat(chunks[..k]), time, [if k == |chunks| then Okay else Fail], rest)
  {
    PushCarries(chunks, time, rest);
    Received(PushBody(chunks, time) + rest, chunks, time, rest, writes);
    KeptPrefix(chunks, writes);
  }

  /** The device answers a push exactly once if and only if the directories could be made and the
      owner could be set; otherwise it answers once more for each of those that failed. The answer
      OKAY is given if and only if the file was opened and every write of it succeeded. */
  lemma PushAnswers(chunks: seq<Bytes>, time: Word, rest: Bytes, o: Opening, writes: seq<bool>)
    requires Pieces(chunks)
    ensures var r := Store(PushBody(chunks, time) + rest, o, writes);
            && r.ok && r.rest == rest && r.time == time
            && (|r.replies| == 1 <==> !o.mkdirsFailed && !(o.open && o.chownFailed))
            && 1 <= |r.replies| <= 3
            && (Okay in r.replies <==> o.open && Written(writes, |chunks|) == |chunks|)
            && (Okay in r.replies ==> r.file == Concat(chunks))
  {
    if o.open {
      PushStored(chunks, time, rest, writes);
      assert chunks[..|chunks|] == chunks;
    } else {
      PushCarries(chunks, time, rest);
      Skipped(PushBody(chunks, time) + rest, chunks, time, rest, writes);
    }
  }

  /** What the device gets of a local file: the bytes read before a local read error, and the
      client ends the transfer with a DONE either way. */
  lemma PushDelivers(input: seq<FileRead>, time: Word, rest: Bytes)
    requires Readable(input)
    ensures var chunks := PiecesRead(input);
            Store(PushBody(chunks, time) + rest, Opening(false, true, false), [])
            == Stored(true, Concat(chunks), time, [Okay], rest)
  {
    var chunks := PiecesRead(input);
    AllWritten(|chunks|);
    PushStored(chunks, time, rest, []);
    assert chunks[..|chunks|] == chunks;
  }

  lemma {:induction false} AllWritten(n: nat)
    ensures Written([], n) == n
  {
    if n > 0 {
      AllWritten(n - 1);
    }
  }

  /** The bytes the file would have given had no read failed. */
  function Contents(input: seq<FileRead>, i: nat): Bytes
    requires i <= |input|
    decreases |input| - i
  {
    if i == |input| then [] else (if input[i].Piece? then input[i].data else []) + Contents(input, i + 1)
  }

  lemma {:induction false} NoContents(input: seq<FileRead>, i: nat)
    requires Readable(input) && i <= |input|
    ensures Contents(input, i) == [] <==> forall k :: i <= k < |input| ==> !input[k].Piece?
    decreases |input| - i
  {
    if i < |input| {
      NoContents(input, i + 1);
    }
  }

  /** Nothing is left to read behind an error. */
  predicate NoneBehind(input: seq<FileRead>, i: nat)
  {
    forall j, k :: i <= j < k < |input| && input[j].ReadError? ==> !input[k].Piece?
  }

  lemma BehindError(input: seq<FileRead>, i: nat)
    requires i < |input| && input[i].ReadError?
    ensures NoneBehind(input, i) <==> forall k :: i < k < |input| ==> !input[k].Piece?
  {
  }

  lemma BehindOther(input: seq<FileRead>, i: nat)
    requires i < |input| && !input[i].ReadError?
    ensures NoneBehind(input, i) <==> NoneBehind(input, i + 1)
  {
  }

  /** What is read is a prefix of the file, and all of it if and only if there was nothing more to
      read behind the first error. */
  lemma {:induction false} WholeFileRead(input: seq<FileRead>, i: nat)
    requires Readable(input) && i <= |input|
    ensures Concat(PiecesFrom(input, i)) <= Contents(input, i)
    ensures Concat(PiecesFrom(input, i)) == Contents(input, i) <==> NoneBehind(input, i)
    decreases |input| - i
  {
    if i < |input| {
      if input[i].ReadError? {
        NoContents(input, i + 1);
        BehindError(input, i);
      } else {
        WholeFileRead(input, i + 1);
        BehindOther(input, i);
        if input[i].Piece? {
          var p := PiecesFrom(input, i);
          assert p[0] == input[i].data && p[1..] == PiecesFrom(input, i + 1);
          SamePrefix(input[i].data, Concat(PiecesFrom(input, i + 1)), Contents(input, i + 1));
        }
      }
    }
  }

  lemma SamePrefix(a: Bytes, b: Bytes, c: Bytes)
    requires b <= c
    ensures a + b <= a + c && (a + b == a + c <==> b == c)
  {
    assert (a + b)[|a|..] == b && (a + c)[|a|..] == c;
  }

  // ---- streams that go wrong ----

  /** The front of a push: cut in a header, cut in the data, or the first piece and the front of
      the rest. */
  lemma NextOfCut(chunks: seq<Bytes>, time: Word, n: nat)
    requires Pieces(chunks) && n < |PushBody(chunks, time)|
    ensures var t := NextItem(PushBody(chunks, time)[..n]);
            || t.item.NoHeader? || t.item.NoData?
            || (chunks != [] && n >= 8 + |chunks[0]|
                && t == Next(Data(chunks[0]), PushBody(chunks[1..], time)[..n - 8 - |chunks[0]|]))
  {
    if n >= 8 && chunks != [] {
      var c, after := chunks[0], PushBody(chunks[1..], time);
      assert PushBody(chunks, time) == Frame(ID_DATA, |c|) + (c + after);
      if n < 8 + |c| {
        CutFront(Frame(ID_DATA, |c|), c + after, n);
        NextShort(|c|, (c + after)[..n - 8]);
      } else {
        assert PushBody(chunks, time) == (Frame(ID_DATA, |c|) + c) + after;
        CutFront(Frame(ID_DATA, |c|) + c, after, n);
        NextData(c, after[..n - 8 - |c|]);
      }
    }
  }

  lemma CutFront(head: Bytes, tail: Bytes, n: nat)
    requires |head| <= n <= |head + tail|
    ensures (head + tail)[..n] == head + tail[..n - |head|]
  {
  }

  lemma NextShort(size: Word, rest: Bytes)
    requires |rest| < size <= DATA_MAX
    ensures NextItem(Frame(ID_DATA, size) + rest).item == NoData
  {
    FrameRead(ID_DATA, size, rest);
  }

  /** A push cut off anywhere is never answered with OKAY, and the service ends. */
  lemma {:induction false} PushCut(chunks: seq<Bytes>, time: Word, n: nat, open: bool, writes: seq<bool>)
    requires Pieces(chunks) && n < |PushBody(chunks, time)|
    ensures var r := Receive(PushBody(chunks, time)[..n], open, writes); !r.ok && Okay !in r.replies
    decreases chunks
  {
    NextOfCut(chunks, time, n);
    var t := NextItem(PushBody(chunks, time)[..n]);
    if t.item.Data? {
      var m := n - 8 - |chunks[0]|;
      if !open {
        PushCut(chunks[1..], time, m, false, writes);
      } else if writes != [] && !writes[0] {
        PushCut(chunks[1..], time, m, false, writes[1..]);
      } else {
        PushCut(chunks[1..], time, m, true, if writes == [] then [] else writes[1..]);
      }
    }
  }

  /** A frame that is neither data nor DONE, or data too long, is answered with a failure and ends
      the service, wherever in a push it comes and whatever became of the writes before it. */
  lemma {:induction false} PushBroken(chunks: seq<Bytes>, id: Word, size: Word, rest: Bytes, open: bool, writes: seq<bool>)
    requires Pieces(chunks) && id != ID_DONE && (id == ID_DATA ==> size > DATA_MAX)
    ensures Receive(DataFrames(chunks) + Frame(id, size) + rest, open, writes)
            == Stored(false, if open then Kept(chunks, writes) else [], 0,
                      if open && Written(writes, |chunks|) < |chunks| then [Fail, Fail] else [Fail], rest)
    decreases chunks
  {
    var s := DataFrames(chunks) + Frame(id, size) + rest;
    if chunks == [] {
      assert s == Frame(id, size) + rest;
      FrameRead(id, size, rest);
    } else {
      var after := DataFrames(chunks[1..]) + Frame(id, size) + rest;
      assert s == Frame(ID_DATA, |chunks[0]|) + chunks[0] + after;
      NextData(chunks[0], after);
      var later := if writes == [] then [] else writes[1..];
      if !open {
        PushBroken(chunks[1..], id, size, rest, false, writes);
      } else if writes != [] && !writes[0] {
        PushBroken(chunks[1..], id, size, rest, false, later);
      } else {
        PushBroken(chunks[1..], id, size, rest, true, later);
      }
    }
  }

  // ---- a pull, end to end ----

  datatype Pulled = Complete(file: Bytes, rest: Bytes) | RemoteError(rest: Bytes) | Aborted

  /** The text of a failure message is read up to this length. */
  const REASON_MAX: nat := 256

  /** sync_recv: the file it leaves behind, if any, and what of the stream it has not read. */
  function Collect(s: Bytes): Pulled
    decreases |s|
  {
    var n := NextItem(s);
    match n.item
    case NoHeader => Aborted
    case NoData => Aborted
    case Other(id, size) =>
      if id == ID_DONE then Complete([], n.rest)
      else if id == ID_DATA then Aborted
      else if id == ID_FAIL then
        var len := if size > REASON_MAX then REASON_MAX else size;
        if |n.rest| < len then Aborted else RemoteError(n.rest[len..])
      else RemoteError(n.rest)
    case Data(data) =>
      var r := Collect(n.rest);
      if r.Complete? then r.(file := data + r.file) else r
  }

  /** What sync_recv returns to its caller: a failure reported by the device counts as success. */
  function Status(r: Pulled): int
  {
    if r.Aborted? then -1 else 0
  }

  method SyncRecv(fragments: seq<Fragment>) returns (r: Pulled, status: int)
    ensures r == Collect(Concat(fragments)) && status == Status(r)
  {
    r := ReceiveFile(fragments);
    status := if r.Aborted? then -1 else 0;
  }

  method ReceiveFile(fragments: seq<Fragment>) returns (r: Pulled)
    ensures r == Collect(Concat(fragments))
  {
    var file, left := [], fragments;
    while true
      invariant var r := Collect(Concat(left));
                Collect(Concat(fragments)) == if r.Complete? then r.(file := file + r.file) else r
      decreases |Concat(left)|
    {
      var item, after := ReadItem(left);
      match item {
        case NoHeader =>
          return Aborted;
        case NoData =>
          return Aborted;
        case Other(id, size) =>
          if id == ID_DONE {
            return Complete(file, Concat(after));
          } else if id == ID_DATA {
            return Aborted;
          } else if id == ID_FAIL {
            var text := ReadFdExactly(after, if size > REASON_MAX then REASON_MAX else size);
            if !text.ok {
              return Aborted;
            }
            return RemoteError(Concat(text.rest));
          }
          return RemoteError(Concat(after));
        case Data(data) =>
          ghost var r := Collect(Concat(after));
          assert r.Complete? ==> file + (data + r.file) == (file + data) + r.file;
          file, left := file + data, after;
      }
    }
  }

  function FailMessage(reason: Bytes): Bytes
    requires |reason| < WORD
  {
    Frame(ID_FAIL, |reason|) + reason
  }

  /** do_recv on a file that could be opened or not. */
  method DoRecv(open: bool, input: seq<FileRead>, reason: Bytes) returns (out: Bytes)
    requires Readable(input) && |reason| < WORD
    ensures out == if !open then FailMessage(reason)
                   else if ReadFails(input) then DataFrames(PiecesRead(input)) + FailMessage(reason)
                   else PushBody(PiecesRead(input), 0)
  {
    if !open {
      return FailMessage(reason);
    }
    var failed;
    out, failed := SendPieces(input);
    out := out + if failed then FailMessage(reason) else Frame(ID_DONE, 0);
  }

  /** A file read to its end arrives whole, whatever pieces it was read in, and the client is left
      at the end of the transfer. */
  lemma {:induction false} PullDelivers(chunks: seq<Bytes>, time: Word, rest: Bytes)
    requires Pieces(chunks)
    ensures Collect(PushBody(chunks, time) + rest) == Complete(Concat(chunks), rest)
    decreases chunks
  {
    NextOfPush(chunks, time, rest);
    if chunks != [] {
      PullDelivers(chunks[1..], time, rest);
    }
  }

  /** A read that fails on the device leaves no file at the client, however much had arrived, and
      the client is left at the end of the message if and only if the text is no longer than 256. */
  lemma {:induction false} PullFails(chunks: seq<Bytes>, reason: Bytes, rest: Bytes)
    requires Pieces(chunks) && |reason| < WORD
    ensures Collect(DataFrames(chunks) + FailMessage(reason) + rest).RemoteError?
    ensures Collect(DataFrames(chunks) + FailMessage(reason) + rest) == RemoteError(rest) <==> |reason| <= REASON_MAX
    decreases chunks
  {
    var s := DataFrames(chunks) + FailMessage(reason) + rest;
    if chunks == [] {
      assert s == Frame(ID_FAIL, |reason|) + (reason + rest);
      NextOther(ID_FAIL, |reason|, reason + rest);
      assert (reason + rest)[|reason|..] == rest;
    } else {
      var after := DataFrames(chunks[1..]) + FailMessage(reason) + rest;
      assert s == Frame(ID_DATA, |chunks[0]|) + chunks[0] + after;
      NextData(chunks[0], after);
      PullFails(chunks[1..], reason, rest);
    }
  }

  /** What comes behind the data: the first item that is none. */
  function Ending(s: Bytes): Next
    decreases |s|
  {
    var n := NextItem(s);
    if n.item.Data? then Ending(n.rest) else n
  }

  /** Status 0 is returned if and only if the data are followed by a header that is not one of more
      data, with the text of a failure all there; and then there is a file if and only if that
      header is DONE. */
  lemma {:induction false} StatusExactly(s: Bytes)
    ensures var end := Ending(s);
            var o := end.item;
            && (Status(Collect(s)) == 0 <==>
                  o.Other? && o.id != ID_DATA
                  && (o.id == ID_FAIL ==> |end.rest| >= if o.size > REASON_MAX then REASON_MAX else o.size))
            && (Collect(s).Complete? <==> o.Other? && o.id == ID_DONE)
    decreases |s|
  {
    var n := NextItem(s);
    if n.item.Data? {
      StatusExactly(n.rest);
    }
  }

  /** A refusal right at the start. */
  lemma RefusalCollected(reason: Bytes, rest: Bytes)
    requires |reason| < WORD
    ensures Collect(FailMessage(reason) + rest).RemoteError?
    ensures |reason| <= REASON_MAX ==> Collect(FailMessage(reason) + rest) == RemoteError(rest)
  {
    PullFails([], reason, rest);
    assert DataFrames([]) + FailMessage(reason) + rest == FailMessage(reason) + rest;
  }

  /** The failing case: the device refuses, there is no file, and the status is 0. */
  lemma RefusedWithStatusZero(reason: Bytes, rest: Bytes)
    requires |reason| < WORD
    ensures var r := Collect(FailMessage(reason) + rest); Status(r) == 0 && !r.Complete?
  {
    RefusalCollected(reason, rest);
  }

  /** A transfer cut off anywhere is never taken for a whole file. */
  lemma {:induction false} PullCut(chunks: seq<Bytes>, time: Word, n: nat)
    requires Pieces(chunks) && n < |PushBody(chunks, time)|
    ensures Collect(PushBody(chunks, time)[..n]) == Aborted
    decreases chunks
  {
    NextOfCut(chunks, time, n);
    if NextItem(PushBody(chunks, time)[..n]).item.Data? {
      PullCut(chunks[1..], time, n - 8 - |chunks[0]|);
    }
  }
}
