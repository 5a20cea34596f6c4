/**
 fastboot's sparse downloads: the image comes in pieces of any size, and a buffer of 1024 bytes
 turns them into transfers of whole blocks with one shorter transfer at the end.
 */
module SparseDownload {
  import opened ByteSeqs

  const BLOCK: nat := 1024

  datatype WriteResult = Written | TransferFailed | InternalError

  /** Transfers of whole blocks. */
  predicate Blocks(transfers: seq<Bytes>)
  {
    forall i :: 0 <= i < |transfers| ==> |transfers[i]| > 0 && |transfers[i]| % BLOCK == 0
  }

  lemma BlocksSnoc(transfers: seq<Bytes>, t: Bytes)
    requires Blocks(transfers) && |t| > 0 && |t| % BLOCK == 0
    ensures Blocks(transfers + [t])
  {
  }

  /** How the device and the bus behave during one download: whether it is let start, whether the
      transfers of each piece and of the last buffer succeed, and how it ends. A piece without a
      flag fails. */
  datatype Device = Device(started: bool, writes: seq<bool>, flushed: bool, ended: bool)

  predicate Good(writes: seq<bool>, i: nat)
  {
    i < |writes| && writes[i]
  }

  predicate Smooth(d: Device, pieces: nat)
  {
    d.started && d.flushed && d.ended && forall i :: 0 <= i < pieces ==> Good(d.writes, i)
  }

  class Usb {
    const buf: array<Byte>
    var len: nat
    // what the device has received of the current download
    var transfers: seq<Bytes>

    constructor ()
      ensures Valid() && len == 0 && fresh(buf)
    {
      buf := new Byte[BLOCK](_ => 0);
      len, transfers := 0, [];
    }

    ghost predicate Valid()
      reads this, buf
    {
      buf.Length == BLOCK && len <= BLOCK
    }

    /** Everything taken in: what was sent and what is held back. */
    ghost function Taken(): Bytes
      reads this, buf
      requires Valid()
    {
      Concat(transfers) + buf[..len]
    }

    /** _command_data: all of it or a failure. */
    method Send(data: Bytes, success: bool) returns (ok: bool)
      modifies this`transfers
      ensures ok == success
      ensures transfers == if ok then old(transfers) + [data] else old(transfers)
      ensures ok ==> Concat(transfers) == Concat(old(transfers)) + data
    {
      ok := success;
      if ok {
        ConcatSnoc(transfers, data);
        transfers := transfers + [data];
      }
    }

    /** The front of the data fills up a buffer that is not empty. */
    method TopUp(data: Bytes) returns (rest: Bytes)
      requires Valid()
      modifies this`len, buf
      ensures Valid() && Taken() + rest == old(Taken()) + data
      ensures old(len) == 0 ==> len == 0 && rest == data
      ensures old(len) > 0 ==> len > 0 && (len == BLOCK || rest == [])
    {
      rest := data;
      if len > 0 {
        var n := if BLOCK - len < |data| then BLOCK - len else |data|;
        forall k | 0 <= k < n {
          buf[len + k] := data[k];
        }
        assert buf[..len + n] == old(buf[..len]) + data[..n];
        len, rest := len + n, data[n..];
        assert (old(Concat(transfers)) + (old(buf[..len]) + data[..n])) + data[n..]
            == (old(Concat(transfers)) + old(buf[..len])) + data;
      }
    }

    /** A full buffer goes out. */
    method SendBuffer(success: bool) returns (ok: bool)
      requires Valid() && Blocks(transfers)
      modifies this`len, this`transfers
      ensures Valid() && Blocks(transfers)
      ensures ok ==> Taken() == old(Taken()) && (old(len) == BLOCK ==> len == 0) && (old(len) < BLOCK ==> len == old(len))
      ensures !ok ==> old(len) == BLOCK && !success
    {
      ok := true;
      if len == BLOCK {
        BlocksSnoc(transfers, buf[..]);
        ok := Send(buf[..], success);
        if ok {
          assert buf[..] == buf[..len];
          len := 0;
        }
      }
    }

    /** Whole blocks of a long rest go out directly. */
    method SendBlocks(data: Bytes, success: bool) returns (r: WriteResult, rest: Bytes)
      requires Valid() && Blocks(transfers)
      requires len > 0 ==> data == []
      modifies this`transfers
      ensures Valid() && Blocks(transfers) && r != InternalError
      ensures r == Written ==> Taken() + rest == old(Taken()) + data && |rest| <= BLOCK && (len > 0 ==> rest == [])
      ensures r == TransferFailed ==> !success
    {
      r, rest := Written, data;
      if |data| > BLOCK {
        if len > 0 {
          return InternalError, rest;
        }
        var n := |data| - |data| % BLOCK;
        BlocksSnoc(transfers, data[..n]);
        var ok := Send(data[..n], success);
        if !ok {
          return TransferFailed, rest;
        }
        rest := data[n..];
        assert (old(Concat(transfers)) + data[..n]) + rest == old(Concat(transfers)) + data;
      }
    }

    /** What is left is held back. */
    method Hold(data: Bytes) returns (r: WriteResult)
      requires Valid() && |data| <= BLOCK && (len > 0 ==> data == [])
      modifies this`len, buf
      ensures Valid() && r == Written && Taken() == old(Taken()) + data
    {
      if |data| > 0 {
        if |data| > BLOCK {
          return InternalError;
        }
        forall k | 0 <= k < |data| {
          buf[k] := data[k];
        }
        len := |data|;
        assert buf[..len] == data;
      }
      r := Written;
    }

    /** fb_download_data_sparse_write: nothing is lost, doubled or reordered, only whole blocks go
        out, and neither internal error can happen. */
    method SparseWrite(data: Bytes, buffer: bool, direct: bool) returns (r: WriteResult)
      requires Valid() && Blocks(transfers)
      modifies this`len, this`transfers, buf
      ensures Valid() && Blocks(transfers) && r != InternalError
      ensures r == Written ==> Taken() == old(Taken()) + data
      ensures r == TransferFailed ==> !buffer || !direct
    {
      var rest := TopUp(data);
      var ok := SendBuffer(buffer);
      if !ok {
        return TransferFailed;
      }
      r, rest := SendBlocks(rest, direct);
      if r == Written {
        r := Hold(rest);
      }
    }

    /** fb_download_data_sparse_flush */
    method Flush(success: bool) returns (ok: bool)
      requires Valid()
      modifies this`len, this`transfers
      ensures Valid()
      ensures ok ==> len == 0 && Concat(transfers) == old(Taken())
      ensures ok ==> transfers == if old(len) == 0 then old(transfers) else old(transfers) + [old(buf[..len])]
      ensures !ok ==> !success
    {
      ok := true;
      if len > 0 {
        ok := Send(buf[..len], success);
        if ok {
          len := 0;
        }
      }
    }

    /** sparse_file_callback hands over the pieces one by one and stops at the first failure. */
    method WritePieces(pieces: seq<Bytes>, writes: seq<bool>) returns (ok: bool)
      requires Valid() && Blocks(transfers)
      modifies this`len, this`transfers, buf
      ensures Valid() && Blocks(transfers)
      ensures ok ==> Taken() == old(Taken()) + Concat(pieces)
      ensures !ok ==> exists i :: 0 <= i < |pieces| && !Good(writes, i)
    {
      var i := 0;
      assert pieces[..0] == [];
      while i < |pieces|
        invariant i <= |pieces| && Valid() && Blocks(transfers)
        invariant Taken() == old(Taken()) + Concat(pieces[..i])
      {
        var good := Good(writes, i);
        var r := SparseWrite(pieces[i], good, good);
        if r != Written {
          return false;
        }
        assert pieces[..i + 1] == pieces[..i] + [pieces[i]];
        ConcatSnoc(pieces[..i], pieces[i]);
        i := i + 1;
      }
      assert pieces[..i] == pieces;
      return true;
    }

    /** fb_download_data_sparse. What the device receives is what was left in the buffer before,
        followed by the pieces. */
    method DownloadSparse(pieces: seq<Bytes>, d: Device) returns (ok: bool)
      requires Valid()
      modifies this`len, this`transfers, buf
      ensures Valid()
      ensures ok ==> len == 0 && Concat(transfers) == old(buf[..len]) + Concat(pieces)
      ensures ok ==> transfers != [] ==> Blocks(transfers[..|transfers| - 1])
      ensures Smooth(d, |pieces|) && |Concat(pieces)| > 0 ==> ok
    {
      if |Concat(pieces)| == 0 || !d.started {
        return false;
      }
      transfers := [];
      assert Taken() == old(buf[..len]);
      ok := WritePieces(pieces, d.writes);
      if ok {
        ghost var before := transfers;
        ok := Flush(d.flushed);
        assert ok ==> transfers == before || transfers[..|transfers| - 1] == before;
        ok := ok && d.ended;
      }
    }
  }
}
