/** Bytes, byte strings and their concatenation: the vocabulary shared by every component. */
module ByteSeqs {
  type Byte = b: int | 0 <= b < 256
  type Bytes = seq<Byte>

  /** The parts of a fragmented byte string, put back together. */
  function Concat(parts: seq<Bytes>): Bytes
  {
    if parts == [] then [] else parts[0] + Concat(parts[1..])
  }

  lemma Regroup<T>(a: seq<T>, b: seq<T>, c: seq<T>)
    ensures a + (b + c) == (a + b) + c
  {
  }

  lemma {:induction false} ConcatAppend(a: seq<Bytes>, b: seq<Bytes>)
    ensures Concat(a + b) == Concat(a) + Concat(b)
  {
    if a == [] {
      assert a + b == b;
    } else {
      assert (a + b)[1..] == a[1..] + b;
      ConcatAppend(a[1..], b);
      Regroup(a[0], Concat(a[1..]), Concat(b));
    }
  }

  lemma ConcatSnoc(a: seq<Bytes>, x: Bytes)
    ensures Concat(a + [x]) == Concat(a) + x
  {
    ConcatAppend(a, [x]);
    assert Concat([x]) == x + Concat([x][1..]);
  }

  /** What is left of a queue of byte strings once its first n bytes are taken off the front. */
  function DropBytes(parts: seq<Bytes>, n: nat): (r: seq<Bytes>)
    requires n <= |Concat(parts)|
  {
    if parts == [] then []
    else if n >= |parts[0]| then DropBytes(parts[1..], n - |parts[0]|)
    else [parts[0][n..]] + parts[1..]
  }

  lemma {:induction false} DropBytesConcat(parts: seq<Bytes>, n: nat)
    requires n <= |Concat(parts)|
    ensures Concat(DropBytes(parts, n)) == Concat(parts)[n..]
  {
    if parts != [] {
      if n >= |parts[0]| {
        DropBytesConcat(parts[1..], n - |parts[0]|);
      } else {
        var r := DropBytes(parts, n);
        assert r[0] == parts[0][n..] && r[1..] == parts[1..];
      }
    }
  }

  lemma {:induction false} DropBytesTwice(parts: seq<Bytes>, n: nat, m: nat)
    requires n + m <= |Concat(parts)|
    ensures m <= |Concat(DropBytes(parts, n))|
    ensures DropBytes(DropBytes(parts, n), m) == DropBytes(parts, n + m)
  {
    DropBytesConcat(parts, n);
    if parts != [] {
      if n >= |parts[0]| {
        DropBytesTwice(parts[1..], n - |parts[0]|, m);
      } else {
        var r := DropBytes(parts, n);
        assert r[0] == parts[0][n..] && r[1..] == parts[1..];
        if m < |r[0]| {
          assert parts[0][n..][m..] == parts[0][n + m..];
        }
      }
    }
  }

  lemma {:induction false} DropBytesAll(parts: seq<Bytes>)
    ensures DropBytes(parts, |Concat(parts)|) == []
  {
    if parts != [] {
      DropBytesAll(parts[1..]);
    }
  }

  /** The parts q are what is left of parts behind the first n bytes. */
  ghost predicate Remains(parts: seq<Bytes>, n: nat, q: seq<Bytes>)
  {
    n <= |Concat(parts)| && Concat(q) == Concat(parts)[n..] && DropBytes(parts, n) == DropBytes(q, 0)
  }

  /** Some bytes of the first part more. */
  lemma RemainsPart(parts: seq<Bytes>, n: nat, q: seq<Bytes>, m: nat)
    requires Remains(parts, n, q) && q != [] && m < |q[0]|
    ensures n + m < |Concat(parts)| && DropBytes(parts, n + m) == [q[0][m..]] + q[1..]
  {
    DropBytesTwice(parts, n, m);
    DropBytesTwice(q, 0, m);
  }

  /** All of the first part more. */
  lemma RemainsWhole(parts: seq<Bytes>, n: nat, q: seq<Bytes>)
    requires Remains(parts, n, q) && q != []
    ensures Remains(parts, n + |q[0]|, q[1..])
  {
    DropBytesTwice(parts, n, |q[0]|);
    DropBytesTwice(q, 0, |q[0]|);
  }
}
