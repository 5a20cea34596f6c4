/**
 The "newc" archive writer of mkbootfs, and a reader written from the published format: the
 cpio_header table for magic 070701 of the Linux kernel's initramfs buffer format. A character
 stands for a byte.
 */
module Cpio {
  import opened ByteSeqs
  import opened CStrings
  import opened Hex
  import opened Wrappers

  const TRAILER: string := "TRAILER!!!"
  const MAGIC: string := "070701"
  const FIRST_INODE: nat := 300000

  /** Bytes of a header: the magic and thirteen numbers of eight digits. */
  const HEADER: nat := 110

  datatype Entry = Entry(name: string, mode: nat, data: string)

  /** What the writer can be given: a C string for a name, numbers of 32 bits. */
  predicate Writable(e: Entry)
  {
    NUL !in e.name && |e.name| + 1 < 0x1_0000_0000 && e.mode < 0x1_0000_0000 && |e.data| < 0x1_0000_0000
  }

  predicate AllWritable(entries: seq<Entry>)
  {
    forall i :: 0 <= i < |entries| ==> Writable(entries[i])
  }

  const LAST: Entry := Entry(TRAILER, 0, "")

  // ---- the bytes of an archive ----

  function Zeros(n: nat): (z: string)
    ensures |z| == n
  {
    if n == 0 then "" else Zeros(n - 1) + [NUL]
  }

  /** The units an archive is padded to. */
  predicate Unit(unit: nat)
  {
    unit == 4 || unit == 256
  }

  /** How many zeros bring a length to a multiple of the unit. */
  function Gap(n: nat, unit: nat): nat
    requires Unit(unit)
  {
    if unit == 4 then (4 - n % 4) % 4 else (256 - n % 256) % 256
  }

  /** The padding loop goes on while the length is no multiple, and that is exactly until the gap
      is filled. */
  lemma GapFilled(n: nat, g: nat, unit: nat)
    requires Unit(unit) && g <= Gap(n, unit)
    ensures (n + g) % unit == 0 <==> g == Gap(n, unit)
  {
    if unit == 4 {
      var q, r := n / 4, n % 4;
      assert n + g == 4 * q + (r + g);
      assert r + g < 4 ==> (n + g) % 4 == r + g;
    } else {
      var q, r := n / 256, n % 256;
      assert n + g == 256 * q + (r + g);
      assert r + g < 256 ==> (n + g) % 256 == r + g;
    }
  }

  function Digits(fields: seq<nat>): (d: string)
    ensures |d| == 8 * |fields|
  {
    if fields == [] then "" else Hexed(fields[0], 8) + Digits(fields[1..])
  }

  /** Inode, mode, owner, group, links, time, size, four device numbers, length of the name with
      its terminator, checksum. */
  function Fields(e: Entry, inode: nat): (f: seq<nat>)
    ensures |f| == 13
  {
    [inode, e.mode, 0, 0, 1, 0, |e.data|, 0, 0, 0, 0, |e.name| + 1, 0]
  }

  function Header(e: Entry, inode: nat): (h: string)
    ensures |h| == HEADER
  {
    MAGIC + Digits(Fields(e, inode))
  }

  /** The parts of an entry written behind so many bytes. */
  function Parts(at: nat, e: Entry, inode: nat): seq<string>
  {
    var lead := Gap(at, 4);
    var gap := Gap(at + lead + HEADER + |e.name| + 1, 4);
    [Zeros(lead), Header(e, inode), e.name, [NUL], Zeros(gap), e.data]
  }

  /** The output after one more entry. */
  function Ejected(out: string, e: Entry, inode: nat): (r: string)
    ensures out <= r
  {
    out + Joined(Parts(|out|, e, inode))
  }

  lemma JoinedSix(a: string, b: string, c: string, d: string, e: string, f: string)
    ensures Joined([a, b, c, d, e, f]) == a + (b + (c + (d + (e + f))))
  {
    assert [a, b, c, d, e, f][1..] == [b, c, d, e, f];
    assert [b, c, d, e, f][1..] == [c, d, e, f];
    assert [c, d, e, f][1..] == [d, e, f] && [d, e, f][1..] == [e, f] && [e, f][1..] == [f] && [f][1..] == [];
    assert Joined([f]) == f;
    assert Joined([e, f]) == e + f;
    assert Joined([d, e, f]) == d + (e + f);
    assert Joined([c, d, e, f]) == c + (d + (e + f));
    assert Joined([b, c, d, e, f]) == b + (c + (d + (e + f)));
  }

  lemma EjectedParts(out: string, e: Entry, inode: nat)
    ensures var lead := Gap(|out|, 4);
            var gap := Gap(|out| + lead + HEADER + |e.name| + 1, 4);
            Ejected(out, e, inode) == out + Zeros(lead) + Header(e, inode) + (e.name + [NUL] + Zeros(gap) + e.data)
  {
    var lead := Gap(|out|, 4);
    var gap := Gap(|out| + lead + HEADER + |e.name| + 1, 4);
    Reassociate(out, Zeros(lead), Header(e, inode), e.name, [NUL], Zeros(gap), e.data);
    JoinedSix(Zeros(lead), Header(e, inode), e.name, [NUL], Zeros(gap), e.data);
  }

  lemma Reassociate(o: string, a: string, b: string, c: string, d: string, e: string, f: string)
    ensures o + (a + (b + (c + (d + (e + f))))) == o + a + b + (c + d + e + f)
  {
    assert c + (d + (e + f)) == c + d + e + f;
  }

  lemma Grouped(start: string, h: string, name: string, pad: string, data: string)
    ensures start + h + (name + [NUL] + pad + data) == (start + h + name + [NUL] + pad) + data
  {
  }

  /** Every header and every block of data starts at a multiple of 4. */
  lemma Aligned(out: string, e: Entry, inode: nat)
    ensures var start := out + Zeros(Gap(|out|, 4));
            var named := start + Header(e, inode) + e.name + [NUL];
            var padded := named + Zeros(Gap(|named|, 4));
            && Ejected(out, e, inode) == padded + e.data
            && |start| % 4 == 0 && |padded| % 4 == 0
  {
    var lead := Gap(|out|, 4);
    var n := |out| + lead + HEADER + |e.name| + 1;
    GapFilled(|out|, lead, 4);
    GapFilled(n, Gap(n, 4), 4);
    EjectedParts(out, e, inode);
    Grouped(out + Zeros(lead), Header(e, inode), e.name, Zeros(Gap(n, 4)), e.data);
  }

  /** The output after all of the entries, each written by the same function of the output so far,
      the entry and its inode number. */
  function Written(out: string, entries: seq<Entry>, inode: nat, eject: (string, Entry, nat) -> string): string
    decreases entries
  {
    if entries == [] then out else Written(eject(out, entries[0], inode), entries[1..], inode + 1, eject)
  }

  function AllEjected(out: string, entries: seq<Entry>, inode: nat): string
  {
    Written(out, entries, inode, Ejected)
  }

  /** The whole archive. */
  function Archive(entries: seq<Entry>): string
  {
    Rounded(AllEjected("", entries + [LAST], FIRST_INODE))
  }

  function Rounded(body: string): string
  {
    body + Zeros(Gap(|body|, 256))
  }

  lemma {:induction false} WrittenAppend(out: string, a: seq<Entry>, b: seq<Entry>, inode: nat,
                                         eject: (string, Entry, nat) -> string)
    ensures Written(out, a + b, inode, eject) == Written(Written(out, a, inode, eject), b, inode + |a|, eject)
    decreases a
  {
    if a == [] {
      assert a + b == b;
    } else {
      assert (a + b)[1..] == a[1..] + b;
      WrittenAppend(eject(out, a[0], inode), a[1..], b, inode + 1, eject);
    }
  }

  lemma EjectedAppend(out: string, a: seq<Entry>, b: seq<Entry>, inode: nat)
    ensures AllEjected(out, a + b, inode) == AllEjected(AllEjected(out, a, inode), b, inode + |a|)
  {
    WrittenAppend(out, a, b, inode, Ejected);
  }

  // ---- the writer ----

  class Writer {
    var stdout: string
    var totalSize: nat
    var nextInode: nat

    ghost predicate Valid()
      reads this
    {
      totalSize == |stdout|
    }

    constructor ()
      ensures Valid() && stdout == "" && nextInode == FIRST_INODE
    {
      stdout, totalSize, nextInode := "", 0, FIRST_INODE;
    }

    method Pad(unit: nat)
      requires Valid() && Unit(unit)
      modifies this
      ensures Valid() && nextInode == old(nextInode)
      ensures stdout == old(stdout) + Zeros(Gap(|old(stdout)|, unit))
    {
      ghost var was, n := stdout, 0;
      GapFilled(|was|, n, unit);
      while totalSize % unit != 0
        invariant Valid() && nextInode == old(nextInode)
        invariant n <= Gap(|was|, unit) && stdout == was + Zeros(n)
        invariant totalSize % unit == 0 <==> n == Gap(|was|, unit)
        decreases Gap(|was|, unit) - n
      {
        totalSize := totalSize + 1;
        stdout, n := stdout + [NUL], n + 1;
        GapFilled(|was|, n, unit);
      }
    }

    /** _eject: the count of bytes written keeps up with the bytes themselves. */
    method Eject(e: Entry)
      requires Valid() && NUL !in e.name
      modifies this
      ensures Valid() && nextInode == old(nextInode) + 1
      ensures stdout == Ejected(old(stdout), e, old(nextInode))
    {
      EjectedParts(stdout, e, nextInode);
      Pad(4);
      stdout := stdout + Header(e, nextInode) + e.name + [NUL];
      nextInode := nextInode + 1;
      totalSize := totalSize + (6 + 8 * 13 + |e.name| + 1);
      Pad(4);
      if |e.data| != 0 {
        stdout := stdout + e.data;
        totalSize := totalSize + |e.data|;
      }
    }

    method EjectTrailer()
      requires Valid()
      modifies this
      ensures Valid()
      ensures stdout == Rounded(Ejected(old(stdout), LAST, old(nextInode)))
      ensures |stdout| % 256 == 0
    {
      Eject(LAST);
      GapFilled(|stdout|, Gap(|stdout|, 256), 256);
      Pad(256);
    }
  }

  // ---- a reader of the format ----

  function Align(n: nat): nat
  {
    n + Gap(n, 4)
  }

  /** The k-th number of the header at a place. */
  function FieldAt(s: string, at: nat, k: nat): Option<nat>
    requires at + HEADER <= |s| && k < 13
  {
    Unhex(s[at + 6 + 8 * k..at + 14 + 8 * k])
  }

  datatype Parsed = Found(entry: Entry, next: nat) | Bad

  /** The entry at a place: header, name with its terminator, data, each part at a multiple of 4. */
  function ReadEntry(s: string, at: nat): (p: Parsed)
    ensures p.Found? ==> at < p.next <= |s|
  {
    var h := Align(at);
    if h + HEADER > |s| || s[h..h + 6] != MAGIC then Bad
    else
      var mode, size, len := FieldAt(s, h, 1), FieldAt(s, h, 6), FieldAt(s, h, 11);
      if mode.None? || size.None? || len.None? || len.value == 0 then Bad
      else
        var n := h + HEADER;
        var d := Align(n + len.value);
        if d + size.value > |s| || s[n + len.value - 1] != NUL then Bad
        else Found(Entry(s[n..n + len.value - 1], mode.value, s[d..d + size.value]), d + size.value)
  }

  /** The entries from a place up to the one with the trailer's name. */
  function ReadArchive(s: string, at: nat): Option<seq<Entry>>
    decreases |s| - at
  {
    var p := ReadEntry(s, at);
    if p.Bad? then None
    else if p.entry.name == TRAILER then Some([])
    else
      var later := ReadArchive(s, p.next);
      if later.None? then None else Some([p.entry] + later.value)
  }

  // ---- the reader undoes the writer ----

  lemma {:induction false} DigitsAt(fields: seq<nat>, k: nat)
    requires k < |fields|
    ensures Digits(fields)[8 * k..8 * k + 8] == Hexed(fields[k], 8)
  {
    var d := Digits(fields);
    if k == 0 {
      assert d[0..8] == Hexed(fields[0], 8);
    } else {
      DigitsAt(fields[1..], k - 1);
      assert d[8 * k..8 * k + 8] == Digits(fields[1..])[8 * (k - 1)..8 * (k - 1) + 8];
    }
  }

  lemma FieldCut(before: string, e: Entry, inode: nat, after: string, k: nat)
    requires k < 13
    ensures FieldAt(before + Header(e, inode) + after, |before|, k) == Some(Fields(e, inode)[k] % 0x1_0000_0000)
  {
    var s, d := before + Header(e, inode) + after, Digits(Fields(e, inode));
    assert s[|before| + 6 + 8 * k..|before| + 14 + 8 * k] == d[8 * k..8 * k + 8];
    DigitsAt(Fields(e, inode), k);
    Widths();
    UnhexCut(Fields(e, inode)[k], 8);
  }

  lemma FieldRead(before: string, e: Entry, inode: nat, after: string, k: nat)
    requires k < 13 && Fields(e, inode)[k] < 0x1_0000_0000
    ensures FieldAt(before + Header(e, inode) + after, |before|, k) == Some(Fields(e, inode)[k])
  {
    FieldCut(before, e, inode, after, k);
  }

  lemma HeaderRead(before: string, e: Entry, inode: nat, after: string)
    requires Writable(e)
    ensures var s, h := before + Header(e, inode) + after, |before|;
            && s[h..h + 6] == MAGIC
            && FieldAt(s, h, 1) == Some(e.mode) && FieldAt(s, h, 6) == Some(|e.data|)
            && FieldAt(s, h, 11) == Some(|e.name| + 1)
  {
    FieldRead(before, e, inode, after, 1);
    FieldRead(before, e, inode, after, 6);
    FieldRead(before, e, inode, after, 11);
  }

  lemma Slices(head: string, name: string, zeros: string, data: string, after: string)
    ensures var s := head + (name + [NUL] + zeros + data + after);
            var n := |head|;
            var d := n + |name| + 1 + |zeros|;
            s[n..n + |name|] == name && s[n + |name|] == NUL && s[d..d + |data|] == data
  {
    var t := name + [NUL] + zeros + data + after;
    var s := head + t;
    var d := |name| + 1 + |zeros|;
    assert t[..|name|] == name && t[d..d + |data|] == data;
    assert s[|head|..|head| + |name|] == t[..|name|];
    assert s[|head| + d..|head| + d + |data|] == t[d..d + |data|];
  }

  lemma ReadParts(s: string, start: string, e: Entry, inode: nat, pad: nat, after: string, at: nat)
    requires Writable(e) && Align(at) == |start|
    requires Gap(|start| + HEADER + |e.name| + 1, 4) == pad
    requires s == start + Header(e, inode) + (e.name + [NUL] + Zeros(pad) + e.data + after)
    ensures ReadEntry(s, at) == Found(e, |start| + HEADER + |e.name| + 1 + pad + |e.data|)
  {
    HeaderRead(start, e, inode, e.name + [NUL] + Zeros(pad) + e.data + after);
    Slices(start + Header(e, inode), e.name, Zeros(pad), e.data, after);
  }

  lemma ReadEjected(out: string, e: Entry, inode: nat, after: string)
    requires Writable(e)
    ensures ReadEntry(Ejected(out, e, inode) + after, |out|) == Found(e, |Ejected(out, e, inode)|)
  {
    var start := out + Zeros(Gap(|out|, 4));
    var pad := Gap(|start| + HEADER + |e.name| + 1, 4);
    EjectedThen(out, e, inode, after);
    ReadParts(Ejected(out, e, inode) + after, start, e, inode, pad, after, |out|);
  }

  lemma EjectedThen(out: string, e: Entry, inode: nat, after: string)
    ensures var start := out + Zeros(Gap(|out|, 4));
            var pad := Gap(|start| + HEADER + |e.name| + 1, 4);
            && Ejected(out, e, inode) + after
               == start + Header(e, inode) + (e.name + [NUL] + Zeros(pad) + e.data + after)
            && |Ejected(out, e, inode)| == |start| + HEADER + |e.name| + 1 + pad + |e.data|
  {
    var start := out + Zeros(Gap(|out|, 4));
    var pad := Gap(|start| + HEADER + |e.name| + 1, 4);
    EjectedParts(out, e, inode);
    Regroup(start + Header(e, inode), e.name + [NUL] + Zeros(pad) + e.data, after);
  }

  /** The entries before the first that carries the trailer's name. */
  function UpToTrailer(entries: seq<Entry>): seq<Entry>
  {
    if entries == [] || entries[0].name == TRAILER then [] else [entries[0]] + UpToTrailer(entries[1..])
  }

  /** The reader finds, behind any output, every entry written there, whatever follows it. */
  ghost predicate Faithful(eject: (string, Entry, nat) -> string)
  {
    forall out: string, e: Entry, inode: nat, after: string :: Writable(e) ==>
      && out <= eject(out, e, inode)
      && ReadEntry(eject(out, e, inode) + after, |out|) == Found(e, |eject(out, e, inode)|)
  }

  lemma EjectedFaithful()
    ensures Faithful(Ejected)
  {
    forall out: string, e: Entry, inode: nat, after: string | Writable(e)
      ensures out <= Ejected(out, e, inode)
      ensures ReadEntry(Ejected(out, e, inode) + after, |out|) == Found(e, |Ejected(out, e, inode)|)
    {
      ReadEjected(out, e, inode, after);
    }
    assert Faithful(Ejected);
  }

  lemma {:induction false} WrittenGrows(out: string, entries: seq<Entry>, inode: nat,
                                        eject: (string, Entry, nat) -> string)
    requires Faithful(eject) && AllWritable(entries)
    ensures out <= Written(out, entries, inode, eject)
    decreases entries
  {
    if entries != [] {
      var one := eject(out, entries[0], inode);
      assert one + "" == one;
      WrittenGrows(one, entries[1..], inode + 1, eject);
    }
  }

  lemma FirstThenRest(out: string, all: seq<Entry>, inode: nat, after: string,
                      eject: (string, Entry, nat) -> string) returns (rest: string)
    requires Faithful(eject) && AllWritable(all) && all != []
    ensures Written(out, all, inode, eject) + after == eject(out, all[0], inode) + rest
  {
    var one, whole := eject(out, all[0], inode), Written(out, all, inode, eject);
    WrittenGrows(one, all[1..], inode + 1, eject);
    rest := whole[|one|..] + after;
  }

  lemma ReadFaithful(out: string, e: Entry, inode: nat, after: string, eject: (string, Entry, nat) -> string)
    requires Faithful(eject) && Writable(e)
    ensures ReadEntry(eject(out, e, inode) + after, |out|) == Found(e, |eject(out, e, inode)|)
  {
  }

  lemma ReadFirst(s: string, out: string, all: seq<Entry>, inode: nat, after: string,
                  eject: (string, Entry, nat) -> string)
    requires Faithful(eject) && AllWritable(all) && all != [] && s == Written(out, all, inode, eject) + after
    ensures ReadEntry(s, |out|) == Found(all[0], |eject(out, all[0], inode)|)
  {
    var rest := FirstThenRest(out, all, inode, after, eject);
    ReadFaithful(out, all[0], inode, rest, eject);
  }

  /** The entries stand one behind the other in the text. */
  ghost predicate Chain(s: string, at: nat, entries: seq<Entry>)
    decreases entries
  {
    entries != [] ==>
      var p := ReadEntry(s, at);
      p.Found? && p.entry == entries[0] && Chain(s, p.next, entries[1..])
  }

  lemma {:induction false} WrittenChain(s: string, out: string, all: seq<Entry>, inode: nat, after: string,
                                        eject: (string, Entry, nat) -> string)
    requires Faithful(eject) && AllWritable(all) && s == Written(out, all, inode, eject) + after
    ensures Chain(s, |out|, all)
    decreases all
  {
    if all != [] {
      ReadFirst(s, out, all, inode, after, eject);
      WrittenChain(s, eject(out, all[0], inode), all[1..], inode + 1, after, eject);
    }
  }

  lemma {:induction false} ChainRead(s: string, at: nat, entries: seq<Entry>, last: Entry)
    requires last.name == TRAILER
    ensures Chain(s, at, entries + [last]) ==> ReadArchive(s, at) == Some(UpToTrailer(entries))
    decreases entries
  {
    var p := ReadEntry(s, at);
    if entries != [] && p.Found? {
      assert (entries + [last])[1..] == entries[1..] + [last];
      ChainRead(s, p.next, entries[1..], last);
    }
  }

  /** Reading an archive back gives exactly the entries written, if and only if none of them has
      the trailer's name; otherwise everything from the first of those on is lost. The length of
      the archive is a multiple of 256. */
  lemma RoundTrip(entries: seq<Entry>)
    requires AllWritable(entries)
    ensures ReadArchive(Archive(entries), 0) == Some(UpToTrailer(entries))
    ensures UpToTrailer(entries) == entries <==> forall i :: 0 <= i < |entries| ==> entries[i].name != TRAILER
    ensures |Archive(entries)| % 256 == 0
  {
    var body := AllEjected("", entries + [LAST], FIRST_INODE);
    EjectedFaithful();
    WrittenChain(Archive(entries), "", entries + [LAST], FIRST_INODE, Zeros(Gap(|body|, 256)), Ejected);
    ChainRead(Archive(entries), 0, entries, LAST);
    UpToTrailerAll(entries);
    RoundedLength(body);
  }

  // ---- the whole header ----

  /** The numbers of the header at a place. */
  predicate NumbersAre(s: string, h: nat, f: seq<nat>)
    requires h + HEADER <= |s|
  {
    |f| == 13 && forall k :: 0 <= k < 13 ==> FieldAt(s, h, k) == Some(f[k])
  }

  /** A header as it should be: nobody owns the entry, and it has one link and no time. The inode
      number is counted in 32 bits. */
  predicate HeaderIs(s: string, h: nat, e: Entry, inode: nat)
  {
    && h + HEADER <= |s| && s[h..h + 6] == "070701"
    && NumbersAre(s, h, [inode % 0x1_0000_0000, e.mode, 0, 0, 1, 0, |e.data|, 0, 0, 0, 0, |e.name| + 1, 0])
  }

  lemma HeaderWhole(s: string, before: string, e: Entry, inode: nat, after: string)
    requires Writable(e) && s == before + Header(e, inode) + after
    ensures HeaderIs(s, |before|, e, inode)
  {
    var f := Fields(e, inode)[0 := inode % 0x1_0000_0000];
    FieldCut(before, e, inode, after, 0);
    forall k | 0 < k < 13 ensures FieldAt(s, |before|, k) == Some(f[k]) {
      FieldRead(before, e, inode, after, k);
    }
    assert NumbersAre(s, |before|, f);
  }

  /** The entries stand one behind the other, with inode numbers that count up. */
  ghost predicate Numbered(s: string, at: nat, entries: seq<Entry>, inode: nat)
    decreases entries
  {
    entries != [] ==>
      var p := ReadEntry(s, at);
      && p.Found? && p.entry == entries[0] && HeaderIs(s, Align(at), entries[0], inode)
      && Numbered(s, p.next, entries[1..], inode + 1)
  }

  lemma {:induction false} WrittenNumbered(s: string, out: string, all: seq<Entry>, inode: nat, after: string)
    requires AllWritable(all) && s == AllEjected(out, all, inode) + after
    ensures Numbered(s, |out|, all, inode)
    decreases all
  {
    if all != [] {
      EjectedFaithful();
      ReadFirst(s, out, all, inode, after, Ejected);
      var rest := FirstThenRest(out, all, inode, after, Ejected);
      FirstHeader(s, out, all[0], inode, rest);
      WrittenNumbered(s, Ejected(out, all[0], inode), all[1..], inode + 1, after);
    }
  }

  lemma FirstHeader(s: string, out: string, e: Entry, inode: nat, rest: string)
    requires Writable(e) && s == Ejected(out, e, inode) + rest
    ensures HeaderIs(s, Align(|out|), e, inode)
  {
    var start := out + Zeros(Gap(|out|, 4));
    var pad := Gap(|start| + HEADER + |e.name| + 1, 4);
    EjectedThen(out, e, inode, rest);
    HeaderWhole(s, start, e, inode, e.name + [NUL] + Zeros(pad) + e.data + rest);
  }

  lemma RoundedNumbered(all: seq<Entry>, inode: nat)
    requires AllWritable(all)
    ensures Numbered(Rounded(AllEjected("", all, inode)), 0, all, inode)
  {
    var body := AllEjected("", all, inode);
    WrittenNumbered(Rounded(body), "", all, inode, Zeros(Gap(|body|, 256)));
  }

  /** Every header of an archive, the trailer's included: the inode numbers count up from 300000 and
      each of the other numbers is what the format wants. */
  lemma ArchiveNumbered(entries: seq<Entry>)
    requires AllWritable(entries)
    ensures Numbered(Archive(entries), 0, entries + [LAST], 300000)
  {
    RoundedNumbered(entries + [LAST], FIRST_INODE);
  }

  lemma RoundedLength(body: string)
    ensures |Rounded(body)| % 256 == 0
  {
    GapFilled(|body|, Gap(|body|, 256), 256);
  }

  lemma {:induction false} UpToTrailerAll(entries: seq<Entry>)
    ensures UpToTrailer(entries) <= entries
    ensures UpToTrailer(entries) == entries <==> forall i :: 0 <= i < |entries| ==> entries[i].name != TRAILER
  {
    if entries != [] && entries[0].name != TRAILER {
      UpToTrailerAll(entries[1..]);
      assert entries == [entries[0]] + entries[1..];
      assert forall i :: 0 < i < |entries| ==> entries[i] == entries[1..][i - 1];
    }
  }
}
