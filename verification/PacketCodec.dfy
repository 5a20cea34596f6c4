/**
 The packet codec of a transport: what send_packet and remote_write put on the wire, remote_read
 takes off it unchanged, however the bytes are fragmented.
 */
module PacketCodec {
  import opened ByteSeqs
  import opened FdIo
  import StreamSocket

  const MAX_PAYLOAD: nat := StreamSocket.MAX_PAYLOAD
  const HEADER: nat := 24

  const A_OPEN: Word := 0x4e45504f
  const A_OKAY: Word := 0x59414b4f
  const A_CLSE: Word := 0x45534c43
  const A_WRTE: Word := 0x45545257

  /** struct amessage. */
  datatype Message = Message(command: Word, arg0: Word, arg1: Word, length: Word, check: Word, magic: Word)

  datatype APacket = APacket(msg: Message, data: Bytes)

  /** A word exclusive-or'ed with 0xffffffff. */
  function Inverted(n: Word): Word
  {
    WORD - 1 - n
  }

  function Sum(data: Bytes): nat
  {
    if data == [] then 0 else Sum(data[..|data| - 1]) + data[|data| - 1]
  }

  function Checksum(data: Bytes): Word
  {
    Sum(data) % WORD
  }

  /** The summing loop of send_packet and check_data, in 32-bit arithmetic. */
  method SumBytes(data: Bytes) returns (sum: Word)
    ensures sum == Checksum(data)
  {
    sum := 0;
    for i := 0 to |data|
      invariant sum == Checksum(data[..i])
    {
      assert data[..i + 1][..i] == data[..i];
      sum := (sum + data[i]) % WORD;
    }
    assert data[..|data|] == data;
  }

  /** The sum of the bytes, however they are grouped. */
  lemma {:induction false} SumAppend(a: Bytes, b: Bytes)
    ensures Sum(a + b) == Sum(a) + Sum(b)
  {
    if b == [] {
      assert a + b == a;
    } else {
      var n := |b| - 1;
      assert (a + b)[..|a| + n] == a + b[..n] && (a + b)[|a| + n] == b[n];
      SumAppend(a, b[..n]);
    }
  }

  lemma SumOfRests(x: nat, y: nat)
    ensures (x + y) % WORD == (x % WORD + y % WORD) % WORD
  {
    var q, z := x / WORD + y / WORD, x % WORD + y % WORD;
    assert x + y == WORD * q + z;
    if z < WORD {
      assert (x + y) / WORD == q;
    } else {
      assert (x + y) / WORD == q + 1;
    }
  }

  lemma ChecksumAppend(a: Bytes, b: Bytes)
    ensures Checksum(a + b) == (Checksum(a) + Checksum(b)) % WORD
  {
    SumAppend(a, b);
    SumOfRests(Sum(a), Sum(b));
  }

  lemma ChecksumOne(b: Byte)
    ensures Checksum([]) == 0 && Checksum([b]) == b
  {
    assert Sum([b]) == Sum([b][..0]) + b;
  }

  function Bit(n: nat, k: nat): bool
  {
    if k == 0 then n % 2 == 1 else Bit(n / 2, k - 1)
  }

  function Pow2(w: nat): (p: nat)
    ensures p > 0
  {
    if w == 0 then 1 else 2 * Pow2(w - 1)
  }

  lemma {:induction false} BitsFlipped(n: nat, w: nat, k: nat)
    requires n < Pow2(w) && k < w
    ensures Bit(Pow2(w) - 1 - n, k) == !Bit(n, k)
  {
    var half := Pow2(w - 1);
    assert n == 2 * (n / 2) + n % 2;
    if k > 0 {
      assert (2 * half - 1 - n) / 2 == half - 1 - n / 2;
      BitsFlipped(n / 2, w - 1, k - 1);
    }
  }

  /** The magic of a message is its command with every bit the other way. */
  lemma InvertedBits(n: Word, k: nat)
    requires k < 32
    ensures Bit(Inverted(n), k) == !Bit(n, k)
  {
    assert Pow2(8) == 256;
    assert Pow2(16) == 65536;
    assert Pow2(24) == 0x100_0000;
    assert Pow2(32) == WORD;
    BitsFlipped(n, 32, k);
  }

  /** A packet as send_packet leaves it: magic and checksum agree with the rest. */
  predicate Sealed(p: APacket)
  {
    && p.msg.length == |p.data| <= MAX_PAYLOAD
    && p.msg.magic == Inverted(p.msg.command)
    && p.msg.check == Checksum(p.data)
  }

  /** send_packet, up to handing the packet over. */
  method Seal(command: Word, arg0: Word, arg1: Word, data: Bytes) returns (p: APacket)
    requires |data| <= MAX_PAYLOAD
    ensures Sealed(p) && p.data == data
    ensures p.msg.command == command && p.msg.arg0 == arg0 && p.msg.arg1 == arg1
  {
    var sum := SumBytes(data);
    p := APacket(Message(command, arg0, arg1, |data|, sum, Inverted(command)), data);
  }

  function PutMessage(m: Message): (b: Bytes)
    ensures |b| == HEADER
  {
    PutWord(m.command) + PutWord(m.arg0) + PutWord(m.arg1) + PutWord(m.length) + PutWord(m.check) + PutWord(m.magic)
  }

  function GetMessage(b: Bytes): Message
    requires |b| == HEADER
  {
    Message(GetWord(b[..4]), GetWord(b[4..8]), GetWord(b[8..12]), GetWord(b[12..16]), GetWord(b[16..20]),
            GetWord(b[20..]))
  }

  /** remote_write. */
  function Encode(p: APacket): Bytes
  {
    PutMessage(p.msg) + p.data
  }

  datatype Decoded = Failed | Packet(p: APacket, rest: Bytes)

  /** remote_read on the bytes still to come. */
  function Decode(s: Bytes): Decoded
  {
    if |s| < HEADER then Failed
    else
      var m := GetMessage(s[..HEADER]);
      if m.magic != Inverted(m.command) || m.length > MAX_PAYLOAD || |s| < HEADER + m.length then Failed
      else
        var data := s[HEADER..HEADER + m.length];
        if m.check != Checksum(data) then Failed else Packet(APacket(m, data), s[HEADER + m.length..])
  }

  /** remote_read itself, on a fragmented stream. */
  method RemoteRead(fragments: seq<Fragment>) returns (ok: bool, p: APacket, rest: seq<Fragment>)
    ensures ok <==> Decode(Concat(fragments)).Packet?
    ensures ok ==> Decode(Concat(fragments)) == Packet(p, Concat(rest))
  {
    ghost var s := Concat(fragments);
    p, rest := APacket(Message(0, 0, 0, 0, 0, 0), []), fragments;
    var h := ReadFdExactly(fragments, HEADER);
    if !h.ok {
      return false, p, rest;
    }
    var m := GetMessage(h.data);
    if m.magic != Inverted(m.command) || m.length > MAX_PAYLOAD {
      return false, p, rest;
    }
    var d := ReadFdExactly(h.rest, m.length);
    if !d.ok {
      return false, p, rest;
    }
    assert d.data == s[HEADER..HEADER + m.length];
    var sum := SumBytes(d.data);
    if sum != m.check {
      return false, p, rest;
    }
    assert s[HEADER..][m.length..] == s[HEADER + m.length..];
    return true, APacket(m, d.data), d.rest;
  }

  // ---- the codec loses nothing and accepts nothing else ----

  lemma GetPutMessage(m: Message)
    ensures GetMessage(PutMessage(m)) == m
  {
    GetPut(m.command);
    GetPut(m.arg0);
    GetPut(m.arg1);
    GetPut(m.length);
    GetPut(m.check);
    GetPut(m.magic);
    MessageLayout(m);
  }

  lemma PutGetMessage(b: Bytes)
    requires |b| == HEADER
    ensures PutMessage(GetMessage(b)) == b
  {
    PutGet(b[..4]);
    PutGet(b[4..8]);
    PutGet(b[8..12]);
    PutGet(b[12..16]);
    PutGet(b[16..20]);
    PutGet(b[20..]);
    assert b == b[..4] + b[4..8] + b[8..12] + b[12..16] + b[16..20] + b[20..];
  }

  /** Every sealed packet is read back unchanged, and what follows it is left alone. */
  lemma DecodeEncode(p: APacket, rest: Bytes)
    requires Sealed(p)
    ensures Decode(Encode(p) + rest) == Packet(p, rest)
  {
    var s := Encode(p) + rest;
    GetPutMessage(p.msg);
    assert s[..HEADER] == PutMessage(p.msg);
    assert s[HEADER..HEADER + |p.data|] == p.data;
    assert s[HEADER + |p.data|..] == rest;
  }

  /** Only the encoding of a sealed packet is accepted. */
  lemma EncodeDecode(s: Bytes)
    requires Decode(s).Packet?
    ensures Sealed(Decode(s).p) && s == Encode(Decode(s).p) + Decode(s).rest
  {
    PutGetMessage(s[..HEADER]);
    var n := HEADER + GetMessage(s[..HEADER]).length;
    assert s == s[..HEADER] + s[HEADER..n] + s[n..];
  }

  /** The order of the fields on the wire. */
  lemma HeaderLayout(p: APacket)
    ensures var b := Encode(p);
            && b[..4] == PutWord(p.msg.command) && b[4..8] == PutWord(p.msg.arg0)
            && b[8..12] == PutWord(p.msg.arg1) && b[12..16] == PutWord(p.msg.length)
            && b[16..20] == PutWord(p.msg.check) && b[20..24] == PutWord(p.msg.magic) && b[24..] == p.data
  {
    MessageLayout(p.msg);
    var h := PutMessage(p.msg);
    forall i, j | 0 <= i <= j <= 24 ensures Encode(p)[i..j] == h[i..j] {
    }
  }

  lemma MessageLayout(m: Message)
    ensures var b := PutMessage(m);
            && b[..4] == PutWord(m.command) && b[4..8] == PutWord(m.arg0) && b[8..12] == PutWord(m.arg1)
            && b[12..16] == PutWord(m.length) && b[16..20] == PutWord(m.check) && b[20..] == PutWord(m.magic)
  {
  }

  /** The commands are the letters of their names. */
  lemma CommandsSpelled()
    ensures PutWord(A_OPEN) == ['O' as int, 'P' as int, 'E' as int, 'N' as int]
    ensures PutWord(A_OKAY) == ['O' as int, 'K' as int, 'A' as int, 'Y' as int]
    ensures PutWord(A_CLSE) == ['C' as int, 'L' as int, 'S' as int, 'E' as int]
    ensures PutWord(A_WRTE) == ['W' as int, 'R' as int, 'T' as int, 'E' as int]
  {
  }

  function EncodeAll(ps: seq<APacket>): Bytes
  {
    if ps == [] then [] else Encode(ps[0]) + EncodeAll(ps[1..])
  }

  /** The packets read from a stream until a read fails. */
  function DecodeAll(s: Bytes): seq<APacket>
    decreases |s|
  {
    match Decode(s)
    case Failed => []
    case Packet(p, rest) => [p] + DecodeAll(rest)
  }

  lemma OneDecoded(p: APacket, rest: Bytes)
    requires Sealed(p)
    ensures DecodeAll(Encode(p) + rest) == [p] + DecodeAll(rest)
  {
    DecodeEncode(p, rest);
  }

  /** The transport is a FIFO of packets: what arrives is what was sent, in order. */
  lemma {:induction false} FifoOfPackets(ps: seq<APacket>)
    requires forall i :: 0 <= i < |ps| ==> Sealed(ps[i])
    ensures DecodeAll(EncodeAll(ps)) == ps
  {
    if ps != [] {
      OneDecoded(ps[0], EncodeAll(ps[1..]));
      FifoOfPackets(ps[1..]);
    }
  }

  // ---- stream packets on the wire ----

  function Code(c: StreamSocket.Command): Word
  {
    match c
    case OPEN => A_OPEN
    case OKAY => A_OKAY
    case WRTE => A_WRTE
    case CLSE => A_CLSE
  }

  predicate Fits(p: StreamSocket.Packet)
  {
    p.arg0 < WORD && p.arg1 < WORD && |p.data| <= MAX_PAYLOAD
  }

  function ToWire(p: StreamSocket.Packet): (w: APacket)
    requires Fits(p)
    ensures Sealed(w)
  {
    APacket(Message(Code(p.command), p.arg0, p.arg1, |p.data|, Checksum(p.data), Inverted(Code(p.command))), p.data)
  }

  /** Different stream packets look different on the wire, so the queue of a StreamWorld arrives as
      it was sent. */
  lemma ToWireInjective(p: StreamSocket.Packet, q: StreamSocket.Packet)
    requires Fits(p) && Fits(q) && Encode(ToWire(p)) == Encode(ToWire(q))
    ensures p == q
  {
    DecodeEncode(ToWire(p), []);
    DecodeEncode(ToWire(q), []);
    assert Encode(ToWire(p)) + [] == Encode(ToWire(p)) && Encode(ToWire(q)) + [] == Encode(ToWire(q));
  }
}
