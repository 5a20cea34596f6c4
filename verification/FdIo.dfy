/**
 Exact reads from a descriptor that hands over its bytes in arbitrary fragments, and little-endian
 32-bit numbers as the structures on the wire hold them.
 */
module FdIo {
  import opened ByteSeqs

  /** What one successful read gives: never nothing, for that is the end of the file. */
  type Fragment = b: Bytes | |b| > 0 witness [0]

  /** An exact read: whether there was enough, the bytes, and what is left to read. */
  datatype ReadExact = ReadExact(ok: bool, data: Bytes, rest: seq<Fragment>)

  /** ReadFdExactly: every fragment is one successful read; the list ends with the file or an error. */
  method ReadFdExactly(fragments: seq<Fragment>, len: nat) returns (r: ReadExact)
    ensures r.ok <==> len <= |Concat(fragments)|
    ensures r.ok ==> r.data == Concat(fragments)[..len] && Concat(r.rest) == Concat(fragments)[len..]
  {
    var data: Bytes, rest := [], fragments;
    while |data| < len
      invariant |data| <= len && data + Concat(rest) == Concat(fragments)
      decreases |rest|, len - |data|
    {
      if rest == [] {
        return ReadExact(false, data, rest);
      }
      var need := len - |data|;
      if |rest[0]| <= need {
        data, rest := data + rest[0], rest[1..];
      } else {
        var tail: seq<Fragment> := [rest[0][need..]] + rest[1..];
        assert Concat(tail) == rest[0][need..] + Concat(tail[1..]) && tail[1..] == rest[1..];
        assert data + Concat(rest) == (data + rest[0][..need]) + Concat(tail);
        data, rest := data + rest[0][..need], tail;
      }
    }
    return ReadExact(true, data, rest);
  }

  // ---- 32-bit numbers ----

  const WORD: nat := 0x1_0000_0000

  type Word = n: nat | n < WORD

  function PutWord(n: Word): (b: Bytes)
    ensures |b| == 4
  {
    [n % 256, n / 256 % 256, n / 65536 % 256, n / 16777216]
  }

  function GetWord(b: Bytes): Word
    requires |b| == 4
  {
    var b0: int, b1: int, b2: int, b3: int := b[0], b[1], b[2], b[3];
    b0 + 256 * b1 + 65536 * b2 + 16777216 * b3
  }

  lemma GetPut(n: Word)
    ensures GetWord(PutWord(n)) == n
  {
    var q := n / 256;
    assert n == 256 * q + n % 256;
    assert q == 256 * (q / 256) + q % 256 && n / 65536 == q / 256;
    assert n / 16777216 == n / 65536 / 256;
  }

  lemma PutGet(b: Bytes)
    requires |b| == 4
    ensures PutWord(GetWord(b)) == b
  {
    var n: int := GetWord(b);
    var b0: int, b1: int, b2: int, b3: int := b[0], b[1], b[2], b[3];
    assert n == b0 + 256 * (b1 + 256 * b2 + 65536 * b3);
    assert n / 256 == b1 + 256 * (b2 + 256 * b3);
    assert n / 65536 == n / 256 / 256 == b2 + 256 * b3;
    assert n / 16777216 == n / 65536 / 256 == b3;
  }
}
