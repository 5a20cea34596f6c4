/** The STAT and LIST answers of the sync protocol: what the device sends and the client reads. */
module SyncInfo {
  import opened ByteSeqs
  import opened FdIo
  import opened SyncProtocol

  const ID_STAT: Word := 0x54415453
  const ID_DENT: Word := 0x544e4544

  /** Names longer than this are not listed, and not read. */
  const ENTRY_MAX: nat := 256

  datatype Stat = Stat(mode: Word, size: Word, time: Word)

  datatype Dent = Dent(stat: Stat, name: Bytes)

  // ---- structures of words ----

  function Words(ws: seq<Word>): (b: Bytes)
    ensures |b| == 4 * |ws|
  {
    if ws == [] then [] else PutWord(ws[0]) + Words(ws[1..])
  }

  function WordAt(s: Bytes, k: nat): Word
    requires 4 * k + 4 <= |s|
  {
    GetWord(s[4 * k..4 * k + 4])
  }

  lemma {:induction false} WordsRead(ws: seq<Word>, rest: Bytes, k: nat)
    requires k < |ws|
    ensures WordAt(Words(ws) + rest, k) == ws[k]
  {
    var s := Words(ws) + rest;
    if k == 0 {
      assert s[0..4] == PutWord(ws[0]);
      GetPut(ws[0]);
    } else {
      var later := Words(ws[1..]) + rest;
      assert s == PutWord(ws[0]) + later;
      assert s[4 * k..4 * k + 4] == later[4 * (k - 1)..4 * (k - 1) + 4];
      WordsRead(ws[1..], rest, k - 1);
    }
  }

  // ---- STAT ----

  /** do_stat; a path that cannot be examined gives zeros. */
  function StatBytes(st: Stat): Bytes
  {
    Words([ID_STAT, st.mode, st.size, st.time])
  }

  datatype StatRead = Statted(stat: Stat, rest: Bytes) | NoStat

  /** sync_finish_readtime */
  function ReadStat(s: Bytes): StatRead
  {
    if |s| < 16 || WordAt(s, 0) != ID_STAT then NoStat
    else Statted(Stat(WordAt(s, 1), WordAt(s, 2), WordAt(s, 3)), s[16..])
  }

  lemma StatRoundTrip(st: Stat, rest: Bytes)
    ensures ReadStat(StatBytes(st) + rest) == Statted(st, rest)
  {
    var ws := [ID_STAT, st.mode, st.size, st.time];
    WordsRead(ws, rest, 0);
    WordsRead(ws, rest, 1);
    WordsRead(ws, rest, 2);
    WordsRead(ws, rest, 3);
  }

  lemma {:induction false} WordsLayout(ws: seq<Word>, k: nat)
    requires k < |ws|
    ensures Words(ws)[4 * k..4 * k + 4] == PutWord(ws[k])
  {
    if k > 0 {
      WordsLayout(ws[1..], k - 1);
      assert Words(ws)[4 * k..4 * k + 4] == Words(ws[1..])[4 * (k - 1)..4 * (k - 1) + 4];
    }
  }

  /** The order of the numbers in the answers to STAT and LIST. */
  lemma InfoLayout(st: Stat, id: Word, len: Word)
    ensures var b := StatBytes(st);
            && b[..4] == PutWord(ID_STAT) && b[4..8] == PutWord(st.mode)
            && b[8..12] == PutWord(st.size) && b[12..] == PutWord(st.time)
    ensures var b := DentHead(id, st, len);
            && b[..4] == PutWord(id) && b[4..8] == PutWord(st.mode) && b[8..12] == PutWord(st.size)
            && b[12..16] == PutWord(st.time) && b[16..] == PutWord(len)
  {
    var four, five := [ID_STAT, st.mode, st.size, st.time], [id, st.mode, st.size, st.time, len];
    WordsLayout(four, 0);
    WordsLayout(four, 1);
    WordsLayout(four, 2);
    WordsLayout(four, 3);
    WordsLayout(five, 0);
    WordsLayout(five, 1);
    WordsLayout(five, 2);
    WordsLayout(five, 3);
    WordsLayout(five, 4);
  }

  // ---- LIST ----

  function DentHead(id: Word, st: Stat, len: Word): (b: Bytes)
    ensures |b| == 20
  {
    Words([id, st.mode, st.size, st.time, len])
  }

  /** do_list: an entry for every name that is not too long, then the end. */
  function ListBytes(dents: seq<Dent>): Bytes
  {
    if dents == [] then DentHead(ID_DONE, Stat(0, 0, 0), 0)
    else if |dents[0].name| > ENTRY_MAX then ListBytes(dents[1..])
    else DentHead(ID_DENT, dents[0].stat, |dents[0].name|) + dents[0].name + ListBytes(dents[1..])
  }

  function Listable(dents: seq<Dent>): seq<Dent>
  {
    if dents == [] then []
    else if |dents[0].name| > ENTRY_MAX then Listable(dents[1..])
    else [dents[0]] + Listable(dents[1..])
  }

  datatype ListRead = Listed(dents: seq<Dent>, rest: Bytes) | ListBroken

  /** What the loop of sync_ls makes of the next entry: one, the end, or a stream it gives up. */
  datatype Head = Entry(stat: Stat, len: Word) | End | Bad

  function HeadOf(s: Bytes): Head
    requires |s| >= 20
  {
    if WordAt(s, 0) == ID_DONE then End
    else if WordAt(s, 0) != ID_DENT || WordAt(s, 4) > ENTRY_MAX then Bad
    else Entry(Stat(WordAt(s, 1), WordAt(s, 2), WordAt(s, 3)), WordAt(s, 4))
  }

  lemma HeadRead(id: Word, st: Stat, len: Word, rest: Bytes)
    ensures HeadOf(DentHead(id, st, len) + rest)
            == if id == ID_DONE then End else if id != ID_DENT || len > ENTRY_MAX then Bad else Entry(st, len)
  {
    var ws := [id, st.mode, st.size, st.time, len];
    WordsRead(ws, rest, 0);
    WordsRead(ws, rest, 1);
    WordsRead(ws, rest, 2);
    WordsRead(ws, rest, 3);
    WordsRead(ws, rest, 4);
  }

  /** sync_ls */
  function ReadList(s: Bytes): ListRead
    decreases |s|
  {
    if |s| < 20 then ListBroken
    else
      match HeadOf(s)
      case End => Listed([], s[20..])
      case Bad => ListBroken
      case Entry(stat, len) =>
        if |s| < 20 + len then ListBroken
        else
          var r := ReadList(s[20 + len..]);
          if r.ListBroken? then r else r.(dents := [Dent(stat, s[20..20 + len])] + r.dents)
  }

  /** One turn of the loop of sync_ls over fragments. */
  method ReadDent(fragments: seq<Fragment>) returns (head: Head, name: Bytes, rest: seq<Fragment>)
    ensures var s := Concat(fragments);
            match head
            case Bad => ReadList(s) == ListBroken
            case End => ReadList(s) == Listed([], Concat(rest))
            case Entry(stat, _) =>
              && |Concat(rest)| < |s|
              && var r := ReadList(Concat(rest));
                 ReadList(s) == if r.ListBroken? then r else r.(dents := [Dent(stat, name)] + r.dents)
  {
    ghost var s := Concat(fragments);
    var h := ReadFdExactly(fragments, 20);
    head, name, rest := Bad, [], h.rest;
    if h.ok {
      assert s == h.data + s[20..];
      SameHead(h.data, s);
      head := HeadOf(h.data);
      if head.Entry? {
        var n := ReadFdExactly(h.rest, head.len);
        if n.ok {
          assert s[20..][..head.len] == s[20..20 + head.len] && s[20..][head.len..] == s[20 + head.len..];
          name, rest := n.data, n.rest;
        } else {
          head := Bad;
        }
      }
    }
  }

  lemma SameHead(h: Bytes, s: Bytes)
    requires |h| == 20 && h <= s
    ensures HeadOf(h) == HeadOf(s)
  {
    assert forall k :: 0 <= k < 5 ==> h[4 * k..4 * k + 4] == s[4 * k..4 * k + 4];
  }

  method SyncLs(fragments: seq<Fragment>) returns (ok: bool, dents: seq<Dent>)
    ensures var r := ReadList(Concat(fragments)); ok == r.Listed? && (ok ==> dents == r.dents)
  {
    dents := [];
    var left, going := fragments, true;
    while going
      invariant var r, all := ReadList(Concat(left)), ReadList(Concat(fragments));
                going ==> (all.ListBroken? <==> r.ListBroken?) && (all.Listed? ==> all.dents == dents + r.dents)
      invariant !going ==> ReadList(Concat(fragments)).Listed? && ReadList(Concat(fragments)).dents == dents
      decreases going, |Concat(left)|
    {
      var head, name, rest := ReadDent(left);
      match head {
        case Bad =>
          return false, dents;
        case End =>
          assert dents + [] == dents;
          going := false;
        case Entry(stat, _) =>
          ghost var r := ReadList(Concat(rest));
          assert r.Listed? ==> dents + ([Dent(stat, name)] + r.dents) == (dents + [Dent(stat, name)]) + r.dents;
          dents, left := dents + [Dent(stat, name)], rest;
      }
    }
    ok := true;
  }

  /** A listing arrives as it was sent, without the names that are too long. */
  lemma {:induction false} ListRoundTrip(dents: seq<Dent>, rest: Bytes)
    ensures ReadList(ListBytes(dents) + rest) == Listed(Listable(dents), rest)
    decreases dents
  {
    if dents == [] {
      HeadRead(ID_DONE, Stat(0, 0, 0), 0, rest);
    } else if |dents[0].name| > ENTRY_MAX {
      ListRoundTrip(dents[1..], rest);
    } else {
      ListRoundTrip(dents[1..], rest);
      EntryRead(dents[0], ListBytes(dents[1..]) + rest);
      var head := DentHead(ID_DENT, dents[0].stat, |dents[0].name|);
      assert (head + dents[0].name + ListBytes(dents[1..])) + rest
          == head + dents[0].name + (ListBytes(dents[1..]) + rest);
    }
  }

  lemma EntryRead(d: Dent, rest: Bytes)
    requires |d.name| <= ENTRY_MAX
    ensures var r := ReadList(rest);
            ReadList(DentHead(ID_DENT, d.stat, |d.name|) + d.name + rest)
            == if r.ListBroken? then r else r.(dents := [d] + r.dents)
  {
    var head := DentHead(ID_DENT, d.stat, |d.name|);
    var s := head + (d.name + rest);
    assert head + d.name + rest == s;
    HeadRead(ID_DENT, d.stat, |d.name|, d.name + rest);
    assert s[20..20 + |d.name|] == d.name && s[20 + |d.name|..] == rest;
  }
}
