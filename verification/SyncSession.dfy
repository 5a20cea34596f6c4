/**
 A whole sync session: the client sends requests down one stream, the device's service loop serves
 them from its files, with whatever failures it meets, and the client reads the answers back, until
 it has sent all it wanted to or a push is refused.
 */
module SyncSession {
  import opened ByteSeqs
  import opened FdIo
  import opened SyncProtocol
  import opened SyncInfo

  const ID_RECV: Word := 0x56434552
  const ID_LIST: Word := 0x5453494c
  const ID_OKAY: Word := 0x59414b4f
  const COMMA: Byte := 44

  /** The regular files of the device. */
  type Files = map<Bytes, Bytes>

  datatype Op =
    | Push(path: Bytes, mode: Bytes, chunks: seq<Bytes>, time: Word)
    | Pull(path: Bytes)
    | Examine(path: Bytes)
    | Directory(path: Bytes)

  /** How one request fares on the device: how the file opens and what becomes of its writes when it
      is sent, and whether it can be opened when it is received. */
  datatype Fate = Fate(opening: Opening, writes: seq<bool>, readable: bool)

  const FINE := Fate(Opening(false, true, false), [], true)

  /** A request without a fate of its own goes well. */
  function First(fates: seq<Fate>): Fate
  {
    if fates == [] then FINE else fates[0]
  }

  function Later(fates: seq<Fate>): seq<Fate>
  {
    if fates == [] then [] else fates[1..]
  }

  /** The text of failure messages, and what the device's file system says of a path. */
  datatype Env = Env(why: Bytes, statOf: (Files, Bytes) -> Stat, listOf: (Files, Bytes) -> seq<Dent>)

  // ---- the client's side of the stream ----

  /** What the client sends as the name: a push has the mode behind a comma. */
  function Name(op: Op): Bytes
  {
    if op.Push? then op.path + [COMMA] + op.mode else op.path
  }

  predicate Sendable(op: Op)
  {
    op.Push? ==> Pieces(op.chunks) && COMMA !in op.mode
  }

  predicate Fits(op: Op)
  {
    |Name(op)| <= NAME_MAX
  }

  function Request(id: Word, name: Bytes): Bytes
    requires |name| < WORD
  {
    Frame(id, |name|) + name
  }

  function OpId(op: Op): Word
  {
    match op
    case Push(_, _, _, _) => ID_SEND
    case Pull(_) => ID_RECV
    case Examine(_) => ID_STAT
    case Directory(_) => ID_LIST
  }

  function OpBytes(op: Op): Bytes
    requires Sendable(op) && |Name(op)| < WORD
  {
    Request(OpId(op), Name(op)) + if op.Push? then PushBody(op.chunks, op.time) else []
  }

  predicate AllFit(ops: seq<Op>)
  {
    forall i :: 0 <= i < |ops| ==> Sendable(ops[i]) && Fits(ops[i])
  }

  function Session(ops: seq<Op>): Bytes
    requires AllFit(ops)
  {
    if ops == [] then Request(ID_QUIT, []) else OpBytes(ops[0]) + Session(ops[1..])
  }

  // ---- the device's service loop ----

  /** The place of the last comma of a name, or -1. */
  function LastComma(name: Bytes): (i: int)
    ensures -1 <= i < |name| && (i >= 0 ==> name[i] == COMMA)
    ensures forall k :: i < k < |name| ==> name[k] != COMMA
  {
    if name == [] then -1
    else if name[|name| - 1] == COMMA then |name| - 1
    else LastComma(name[..|name| - 1])
  }

  function SendPath(name: Bytes): Bytes
  {
    if LastComma(name) < 0 then name else name[..LastComma(name)]
  }

  /** The path survives the mode behind it, commas of its own included. */
  lemma PathRecovered(path: Bytes, mode: Bytes)
    requires COMMA !in mode
    ensures SendPath(path + [COMMA] + mode) == path && LastComma(path + [COMMA] + mode) >= 0
  {
    var name := path + [COMMA] + mode;
    var i := LastComma(name);
    assert name[|path|] == COMMA;
    assert forall k :: |path| < k < |name| ==> name[k] == mode[k - |path| - 1];
    assert i == |path|;
  }

  /** The reads of a file of the device, each as long as it can be. */
  function Cut(file: Bytes): (chunks: seq<Bytes>)
    ensures Pieces(chunks) && Concat(chunks) == file
  {
    if file == [] then []
    else if |file| <= DATA_MAX then
      assert [file][1..] == [];
      [file]
    else
      var later := Cut(file[DATA_MAX..]);
      var all := [file[..DATA_MAX]] + later;
      assert all[0] == file[..DATA_MAX] && all[1..] == later;
      all
  }

  function Answer(reply: Reply, why: Bytes): Bytes
    requires |why| < WORD
  {
    if reply.Okay? then Frame(ID_OKAY, 0) else FailMessage(why)
  }

  function Answers(replies: seq<Reply>, why: Bytes): Bytes
    requires |why| < WORD
  {
    if replies == [] then [] else Answer(replies[0], why) + Answers(replies[1..], why)
  }

  lemma {:induction false} ReceiveShrinks(s: Bytes, open: bool, writes: seq<bool>)
    ensures |Receive(s, open, writes).rest| <= |s|
    decreases |s|
  {
    var n := NextItem(s);
    if n.item.Data? {
      if !open {
        ReceiveShrinks(n.rest, false, writes);
      } else if writes != [] && !writes[0] {
        ReceiveShrinks(n.rest, false, writes[1..]);
      } else {
        ReceiveShrinks(n.rest, true, if writes == [] then [] else writes[1..]);
      }
    }
  }

  datatype Command = Command(id: Word, name: Bytes, rest: Bytes) | Unreadable

  /** The next request of the stream, if it is all there and its name is not too long. */
  function NextCommand(s: Bytes): Command
  {
    if |s| < 8 || FrameSize(s) > NAME_MAX || |s| < 8 + FrameSize(s) then Unreadable
    else Command(FrameId(s), s[8..8 + FrameSize(s)], s[8 + FrameSize(s)..])
  }

  /** One request served: whether the service goes on, the files, the answer and the rest. */
  datatype Step = Step(more: bool, files: Files, answer: Bytes, rest: Bytes)

  /** What is under the path of a send is removed first, unless the name has no mode behind a comma. */
  function Unlinked(files: Files, name: Bytes): Files
  {
    if LastComma(name) >= 0 then files - {SendPath(name)} else files
  }

  /** A file written over another from its start: what the other has behind that stays. */
  function Over(file: Bytes, was: Bytes): Bytes
  {
    file + if |file| < |was| then was[|file|..] else []
  }

  function Contents(files: Files, path: Bytes): Bytes
  {
    if path in files then files[path] else []
  }

  /** The files after a send. One that was written to the end is there; one that was never opened is
      left alone; any other failure removes it. */
  function StoredFiles(files: Files, name: Bytes, open: bool, r: Stored): Files
  {
    var path, before := SendPath(name), Unlinked(files, name);
    if r.ok && Okay in r.replies then before[path := Over(r.file, Contents(before, path))]
    else if r.ok && !open then before
    else before - {path}
  }

  function PullBytes(files: Files, path: Bytes, fate: Fate, why: Bytes): Bytes
    requires |why| < WORD
  {
    if path in files && fate.readable then PushBody(Cut(files[path]), 0) else FailMessage(why)
  }

  /** One turn of file_sync_service. */
  function ServeOne(s: Bytes, files: Files, fate: Fate, env: Env): (t: Step)
    requires |env.why| < WORD
    ensures t.more ==> |t.rest| < |s|
  {
    match NextCommand(s)
    case Unreadable => Step(false, files, FailMessage(env.why), s)
    case Command(id, name, rest) =>
      if id == ID_SEND then
        var r := Store(rest, fate.opening, fate.writes);
        ReceiveShrinks(rest, fate.opening.open, fate.writes);
        Step(r.ok, StoredFiles(files, name, fate.opening.open, r), Answers(r.replies, env.why), r.rest)
      else if id == ID_RECV then Step(true, files, PullBytes(files, name, fate, env.why), rest)
      else if id == ID_STAT then Step(true, files, StatBytes(env.statOf(files, name)), rest)
      else if id == ID_LIST then Step(true, files, ListBytes(env.listOf(files, name)), rest)
      else Step(false, files, if id == ID_QUIT then [] else FailMessage(env.why), rest)
  }

  datatype Served = Served(files: Files, out: Bytes)

  function Serve(s: Bytes, files: Files, fates: seq<Fate>, env: Env): Served
    requires |env.why| < WORD
    decreases |s|
  {
    var t := ServeOne(s, files, First(fates), env);
    if !t.more then Served(t.files, t.answer)
    else
      var later := Serve(t.rest, t.files, Later(fates), env);
      later.(out := t.answer + later.out)
  }

  method ReadCommand(fragments: seq<Fragment>) returns (ok: bool, id: Word, name: Bytes, rest: seq<Fragment>)
    ensures NextCommand(Concat(fragments)) == if ok then Command(id, name, Concat(rest)) else Unreadable
  {
    ghost var s := Concat(fragments);
    ok, id, name, rest := false, 0, [], fragments;
    var h := ReadFdExactly(fragments, 8);
    if h.ok {
      assert h.data[..4] == s[..4] && h.data[4..8] == s[4..8];
      var len := FrameSize(h.data);
      if len <= NAME_MAX {
        var n := ReadFdExactly(h.rest, len);
        assert n.ok ==> s[8..][..len] == s[8..8 + len] && s[8..][len..] == s[8 + len..];
        ok, id, name, rest := n.ok, FrameId(h.data), n.data, n.rest;
      }
    }
  }

  /** do_send */
  method DoSend(fragments: seq<Fragment>, given: Files, name: Bytes, fate: Fate, why: Bytes)
      returns (ok: bool, files: Files, out: Bytes, rest: seq<Fragment>)
    requires |why| < WORD
    ensures var r := Store(Concat(fragments), fate.opening, fate.writes);
            && ok == r.ok && files == StoredFiles(given, name, fate.opening.open, r) && out == Answers(r.replies, why)
            && (ok ==> Concat(rest) == r.rest)
  {
    var path := SendPath(name);
    files := given;
    if LastComma(name) >= 0 {
      files := files - {path};
    }
    var file, time, replies;
    ok, file, time, replies, rest := HandleSendFile(fragments, fate.opening, fate.writes);
    if ok && Okay in replies {
      files := files[path := Over(file, Contents(files, path))];
    } else if !ok || fate.opening.open {
      files := files - {path};
    }
    out := Answers(replies, why);
  }

  method ServeCommand(fragments: seq<Fragment>, given: Files, fate: Fate, env: Env)
      returns (more: bool, files: Files, answer: Bytes, rest: seq<Fragment>)
    requires |env.why| < WORD
    ensures var t := ServeOne(Concat(fragments), given, fate, env);
            more == t.more && files == t.files && answer == t.answer && (more ==> Concat(rest) == t.rest)
  {
    var ok, id, name, after := ReadCommand(fragments);
    more, files, answer, rest := false, given, FailMessage(env.why), after;
    if ok {
      if id == ID_SEND {
        more, files, answer, rest := DoSend(after, given, name, fate, env.why);
      } else if id == ID_RECV {
        more, answer := true, PullBytes(files, name, fate, env.why);
      } else if id == ID_STAT {
        more, answer := true, StatBytes(env.statOf(files, name));
      } else if id == ID_LIST {
        more, answer := true, ListBytes(env.listOf(files, name));
      } else if id == ID_QUIT {
        answer := [];
      }
    }
  }

  method FileSyncService(fragments: seq<Fragment>, given: Files, fates: seq<Fate>, env: Env)
      returns (files: Files, out: Bytes)
    requires |env.why| < WORD
    ensures Served(files, out) == Serve(Concat(fragments), given, fates, env)
  {
    files, out := given, [];
    var more, left, fate := true, fragments, fates;
    ghost var all := Serve(Concat(fragments), given, fates, env);
    while more
      invariant more ==> var r := Serve(Concat(left), files, fate, env); all == r.(out := out + r.out)
      invariant !more ==> all == Served(files, out)
      decreases more, |Concat(left)|
    {
      var answer;
      more, files, answer, left := ServeCommand(left, files, First(fate), env);
      fate := Later(fate);
      if more {
        Regroup(out, answer, Serve(Concat(left), files, fate, env).out);
      }
      out := out + answer;
    }
  }

  // ---- the client reads the answers ----

  datatype Result = Pushed | Refused | Got(file: Bytes) | NotGot | Info(stat: Stat) | Names(dents: seq<Dent>) | Broken

  /** What the client makes of the answer to one request, and what it has not read; after a stream
      it cannot follow it reads no more. */
  datatype Heard = Heard(result: Result, rest: Bytes) | Lost

  function HearStatus(s: Bytes): Heard
  {
    if |s| < 8 then Lost
    else if FrameId(s) == ID_OKAY then Heard(Pushed, s[8..])
    else if FrameId(s) == ID_FAIL then
      var len := if FrameSize(s) > REASON_MAX then REASON_MAX else FrameSize(s);
      if |s| < 8 + len then Lost else Heard(Refused, s[8 + len..])
    else Heard(Refused, s[8..])
  }

  /** The status check of sync_send, sync_recv, sync_finish_readtime and sync_ls. */
  function Hear(op: Op, s: Bytes): Heard
  {
    match op
    case Push(_, _, _, _) => HearStatus(s)
    case Pull(_) =>
      (match Collect(s)
       case Complete(file, rest) => Heard(Got(file), rest)
       case RemoteError(rest) => Heard(NotGot, rest)
       case Aborted => Lost)
    case Examine(_) => if ReadStat(s).NoStat? then Lost else Heard(Info(ReadStat(s).stat), ReadStat(s).rest)
    case Directory(_) => if ReadList(s).ListBroken? then Lost else Heard(Names(ReadList(s).dents), ReadList(s).rest)
  }

  /** What the client reads, which is up to the refusal of a push. */
  function ReadOn(ops: seq<Op>, s: Bytes): seq<Result>
  {
    if ops == [] then []
    else
      match Hear(ops[0], s)
      case Lost => [Broken]
      case Heard(result, rest) => [result] + if result.Refused? then [] else ReadOn(ops[1..], rest)
  }

  datatype Talk = Talk(results: seq<Result>, files: Files)

  /** The session as it goes: a request is sent, served and its answer read before the next one; a
      push that is refused is the last. coming is what the device has not read, unread what the
      client has not. */
  function Converse(ops: seq<Op>, coming: Bytes, unread: Bytes, files: Files, fates: seq<Fate>, env: Env): Talk
    requires AllFit(ops) && |env.why| < WORD
    decreases ops
  {
    if ops == [] then Talk([], files)
    else
      var t := ServeOne(coming + OpBytes(ops[0]), files, First(fates), env);
      match Hear(ops[0], unread + t.answer)
      case Lost => Talk([Broken], t.files)
      case Heard(result, rest) =>
        if result.Refused? || !t.more then Talk([result], t.files)
        else
          var later := Converse(ops[1..], t.rest, rest, t.files, Later(fates), env);
          later.(results := [result] + later.results)
  }

  // ---- what it should amount to ----

  /** The push is written whole. */
  predicate Stores(op: Op, fate: Fate)
    requires op.Push?
  {
    fate.opening.open && Written(fate.writes, |op.chunks|) == |op.chunks|
  }

  function After(files: Files, op: Op, fate: Fate): Files
  {
    if !op.Push? then files
    else if Stores(op, fate) then files[op.path := Concat(op.chunks)]
    else files - {op.path}
  }

  function Final(ops: seq<Op>, files: Files, fates: seq<Fate>): Files
  {
    if ops == [] then files else Final(ops[1..], After(files, ops[0], First(fates)), Later(fates))
  }

  function ResultOf(op: Op, files: Files, fate: Fate, env: Env): Result
  {
    match op
    case Push(_, _, _, _) => if Stores(op, fate) then Pushed else Refused
    case Pull(path) => if path in files && fate.readable then Got(files[path]) else NotGot
    case Examine(path) => Info(env.statOf(files, path))
    case Directory(path) => Names(Listable(env.listOf(files, path)))
  }

  /** What the client is told: a push that meets a failure on the way to its file is refused. */
  function Told(op: Op, files: Files, fate: Fate, env: Env): Result
  {
    if AnsweredOnce(op, fate) then ResultOf(op, files, fate, env) else Refused
  }

  /** Request by request, up to the first push that is refused. */
  function AllTold(ops: seq<Op>, files: Files, fates: seq<Fate>, env: Env): (r: seq<Result>)
    ensures |r| <= |ops|
  {
    if ops == [] then []
    else
      var result := Told(ops[0], files, First(fates), env);
      [result]
      + if result.Refused? then [] else AllTold(ops[1..], After(files, ops[0], First(fates)), Later(fates), env)
  }

  /** The answer to one request. */
  function OpAnswer(op: Op, files: Files, fate: Fate, env: Env): Bytes
    requires |env.why| < WORD
  {
    match op
    case Push(_, _, _, _) => Answers(PushReplies(op, fate), env.why)
    case Pull(path) => PullBytes(files, path, fate, env.why)
    case Examine(path) => StatBytes(env.statOf(files, path))
    case Directory(path) => ListBytes(env.listOf(files, path))
  }

  function PushReplies(op: Op, fate: Fate): seq<Reply>
    requires op.Push?
  {
    Complaints(fate.opening)
    + if !fate.opening.open then [] else if Stores(op, fate) then [Okay] else [Fail]
  }

  /** The answers to a session. */
  function OpAnswers(ops: seq<Op>, files: Files, fates: seq<Fate>, env: Env): Bytes
    requires |env.why| < WORD
  {
    if ops == [] then []
    else
      OpAnswer(ops[0], files, First(fates), env)
      + OpAnswers(ops[1..], After(files, ops[0], First(fates)), Later(fates), env)
  }

  // ---- the device serves the session ----

  lemma RequestRead(id: Word, name: Bytes, rest: Bytes)
    requires |name| < WORD
    ensures NextCommand(Request(id, name) + rest)
            == if |name| <= NAME_MAX then Command(id, name, rest) else Unreadable
  {
    var s := Request(id, name) + rest;
    assert s == Frame(id, |name|) + (name + rest);
    FrameRead(id, |name|, name + rest);
  }

  lemma StorePush(op: Op, rest: Bytes, fate: Fate)
    requires op.Push? && Sendable(op)
    ensures var r := Store(PushBody(op.chunks, op.time) + rest, fate.opening, fate.writes);
            && r.ok && r.rest == rest && r.replies == PushReplies(op, fate)
            && (Okay in r.replies <==> Stores(op, fate))
            && (Stores(op, fate) ==> r.file == Concat(op.chunks))
  {
    PushAnswers(op.chunks, op.time, rest, fate.opening, fate.writes);
    if fate.opening.open {
      PushStored(op.chunks, op.time, rest, fate.writes);
    } else {
      PushCarries(op.chunks, op.time, rest);
      Skipped(PushBody(op.chunks, op.time) + rest, op.chunks, op.time, rest, fate.writes);
    }
  }

  lemma Replaced(files: Files, path: Bytes, file: Bytes)
    ensures (files - {path})[path := Over(file, [])] == files[path := file]
    ensures (files - {path}) - {path} == files - {path}
  {
    assert Over(file, []) == file;
  }

  lemma ServeOp(op: Op, rest: Bytes, files: Files, fate: Fate, env: Env)
    requires Sendable(op) && Fits(op) && |env.why| < WORD
    ensures ServeOne(OpBytes(op) + rest, files, fate, env)
            == Step(true, After(files, op, fate), OpAnswer(op, files, fate, env), rest)
  {
    if op.Push? {
      var body := PushBody(op.chunks, op.time) + rest;
      assert OpBytes(op) + rest == Request(ID_SEND, Name(op)) + body;
      RequestRead(ID_SEND, Name(op), body);
      PathRecovered(op.path, op.mode);
      StorePush(op, rest, fate);
      Replaced(files, op.path, Concat(op.chunks));
    } else {
      assert OpBytes(op) + rest == Request(OpId(op), Name(op)) + rest;
      RequestRead(OpId(op), Name(op), rest);
    }
  }

  /** For every sequence of requests and whatever becomes of each of them: the device ends with the
      files they amount to, and sends the answers one after the other. */
  lemma {:induction false} SessionServed(ops: seq<Op>, files: Files, fates: seq<Fate>, env: Env)
    requires AllFit(ops) && |env.why| < WORD
    ensures Serve(Session(ops), files, fates, env)
            == Served(Final(ops, files, fates), OpAnswers(ops, files, fates, env))
    decreases ops
  {
    if ops == [] {
      RequestRead(ID_QUIT, [], []);
      assert Request(ID_QUIT, []) + [] == Session(ops);
    } else {
      ServeOp(ops[0], Session(ops[1..]), files, First(fates), env);
      SessionServed(ops[1..], After(files, ops[0], First(fates)), Later(fates), env);
    }
  }

  // ---- the client follows, or does not ----

  /** Every push gets one answer exactly if the directories could be made and the owner set. */
  predicate AnsweredOnce(op: Op, fate: Fate)
  {
    op.Push? ==> !fate.opening.mkdirsFailed && !(fate.opening.open && fate.opening.chownFailed)
  }

  lemma HearReply(reply: Reply, why: Bytes, rest: Bytes)
    requires |why| <= REASON_MAX
    ensures HearStatus(Answer(reply, why) + rest) == Heard(if reply.Okay? then Pushed else Refused, rest)
  {
    if reply.Okay? {
      FrameRead(ID_OKAY, 0, rest);
    } else {
      var s := Frame(ID_FAIL, |why|) + (why + rest);
      assert FailMessage(why) + rest == s;
      FrameRead(ID_FAIL, |why|, why + rest);
      assert s[8 + |why|..] == rest;
    }
  }

  /** The client hears the first of the replies to a push; more than one leave it behind. */
  lemma HearPush(replies: seq<Reply>, why: Bytes, rest: Bytes)
    requires replies != [] && |why| <= REASON_MAX
    ensures var h := HearStatus(Answers(replies, why) + rest);
            && h.Heard? && (h.rest == rest <==> |replies| == 1)
            && h.result == if replies[0].Okay? then Pushed else Refused
  {
    var more := Answers(replies[1..], why) + rest;
    assert Answers(replies, why) + rest == Answer(replies[0], why) + more;
    HearReply(replies[0], why, more);
    assert |replies| > 1 ==> |Answers(replies[1..], why)| > 0;
    assert |replies| == 1 ==> more == rest;
  }

  lemma PullCollected(files: Files, path: Bytes, fate: Fate, why: Bytes, rest: Bytes)
    requires |why| <= REASON_MAX
    ensures Collect(PullBytes(files, path, fate, why) + rest)
            == if path in files && fate.readable then Complete(files[path], rest) else RemoteError(rest)
  {
    if path in files && fate.readable {
      PullDelivers(Cut(files[path]), 0, rest);
    } else {
      RefusalCollected(why, rest);
    }
  }

  lemma HearOne(op: Op, files: Files, fate: Fate, env: Env, rest: Bytes)
    requires |env.why| <= REASON_MAX
    ensures var h := Hear(op, OpAnswer(op, files, fate, env) + rest);
            h.Heard? && (h.rest == rest <==> AnsweredOnce(op, fate)) && h.result == Told(op, files, fate, env)
  {
    match op {
      case Push(_, _, _, _) => HearPush(PushReplies(op, fate), env.why, rest);
      case Pull(path) => PullCollected(files, path, fate, env.why, rest);
      case Examine(path) => StatRoundTrip(env.statOf(files, path), rest);
      case Directory(path) => ListRoundTrip(env.listOf(files, path), rest);
    }
  }

  /** Whatever becomes of the requests, what the client reads of the answers is what it is told. */
  lemma {:induction false} AnswersRead(ops: seq<Op>, files: Files, fates: seq<Fate>, env: Env)
    requires |env.why| <= REASON_MAX
    ensures ReadOn(ops, OpAnswers(ops, files, fates, env)) == AllTold(ops, files, fates, env)
    decreases ops
  {
    if ops != [] {
      var files' := After(files, ops[0], First(fates));
      HearOne(ops[0], files, First(fates), env, OpAnswers(ops[1..], files', Later(fates), env));
      AnswersRead(ops[1..], files', Later(fates), env);
    }
  }

  /** Every session, whatever becomes of its requests: the client gets its answers one by one and
      stops at the first refusal, and the device ends with the files that the requests sent until
      then amount to. */
  lemma {:induction false} SessionFaithful(ops: seq<Op>, files: Files, fates: seq<Fate>, env: Env)
    requires AllFit(ops) && |env.why| <= REASON_MAX
    ensures var told := AllTold(ops, files, fates, env);
            Converse(ops, [], [], files, fates, env) == Talk(told, Final(ops[..|told|], files, fates))
    decreases ops
  {
    if ops != [] {
      TalkOne(ops[0], files, First(fates), env);
      SessionFaithful(ops[1..], After(files, ops[0], First(fates)), Later(fates), env);
      FinalFirst(ops, |AllTold(ops, files, fates, env)|, files, fates);
    }
  }

  /** One request between two ends that have read all: both have again, unless it was refused. */
  lemma TalkOne(op: Op, files: Files, fate: Fate, env: Env)
    requires Sendable(op) && Fits(op) && |env.why| <= REASON_MAX
    ensures var t := ServeOne([] + OpBytes(op), files, fate, env);
            var h := Hear(op, [] + t.answer);
            && t.more && t.files == After(files, op, fate) && t.rest == []
            && h.Heard? && h.result == Told(op, files, fate, env) && (!h.result.Refused? ==> h.rest == [])
  {
    assert [] + OpBytes(op) == OpBytes(op) + [];
    ServeOp(op, [], files, fate, env);
    var answer := OpAnswer(op, files, fate, env);
    assert [] + answer == answer + [];
    HearOne(op, files, fate, env, []);
  }

  lemma FinalFirst(ops: seq<Op>, n: nat, files: Files, fates: seq<Fate>)
    requires 0 < n <= |ops|
    ensures Final(ops[..n], files, fates)
            == Final(ops[1..][..n - 1], After(files, ops[0], First(fates)), Later(fates))
  {
    assert ops[..n][0] == ops[0] && ops[..n][1..] == ops[1..][..n - 1];
  }

  /** What the client is told of a request is what became of it, except for a push that is stored
      although its directories could not be made or its owner not set: that one is called refused. */
  lemma ToldExactly(op: Op, files: Files, fate: Fate, env: Env)
    ensures Told(op, files, fate, env) == ResultOf(op, files, fate, env)
            <==> !(op.Push? && Stores(op, fate) && !AnsweredOnce(op, fate))
  {
  }

  /** The failing case: the owner cannot be set, the file is stored, the client is told that it was
      refused, and the OKAY is never read. */
  lemma OwnerNotSet(op: Op, files: Files, env: Env)
    requires op.Push? && Sendable(op) && Fits(op) && |env.why| <= REASON_MAX
    ensures var fate := Fate(Opening(false, true, true), [], true);
            && Converse([op], [], [], files, [fate], env) == Talk([Refused], files[op.path := Concat(op.chunks)])
            && OpAnswer(op, files, fate, env) == FailMessage(env.why) + Frame(ID_OKAY, 0)
  {
    var fate := Fate(Opening(false, true, true), [], true);
    AllWritten(|op.chunks|);
    assert PushReplies(op, fate) == [Fail, Okay];
    OneOkay(env.why);
    var ops := [op];
    assert ops[0] == op && ops[..1] == ops && ops[1..] == [] && First([fate]) == fate;
    SessionFaithful(ops, files, [fate], env);
  }

  // ---- names without a mode ----

  lemma NoComma(name: Bytes)
    requires COMMA !in name
    ensures LastComma(name) == -1 && SendPath(name) == name
  {
  }

  /** A send whose name has no comma, which no client makes, does not replace a file but writes over
      it: the file is what was sent if and only if it was not longer before. */
  lemma TailStays(name: Bytes, chunks: seq<Bytes>, time: Word, rest: Bytes, files: Files, env: Env)
    requires COMMA !in name && |name| <= NAME_MAX && Pieces(chunks) && name in files && |env.why| < WORD
    ensures var t := ServeOne(Request(ID_SEND, name) + PushBody(chunks, time) + rest, files, FINE, env);
            && t == Step(true, files[name := Over(Concat(chunks), files[name])], Frame(ID_OKAY, 0), rest)
            && (t.files[name] == Concat(chunks) <==> |files[name]| <= |Concat(chunks)|)
  {
    var body := PushBody(chunks, time) + rest;
    assert Request(ID_SEND, name) + PushBody(chunks, time) + rest == Request(ID_SEND, name) + body;
    RequestRead(ID_SEND, name, body);
    NoComma(name);
    var op := Push(name, [], chunks, time);
    StorePush(op, rest, FINE);
    AllWritten(|chunks|);
    assert PushReplies(op, FINE) == [Okay];
    OneOkay(env.why);
    OverWhole(Concat(chunks), files[name]);
  }

  lemma OneOkay(why: Bytes)
    requires |why| < WORD
    ensures Answers([Okay], why) == Frame(ID_OKAY, 0)
  {
    assert [Okay][1..] == [];
  }

  lemma OverWhole(file: Bytes, was: Bytes)
    ensures Over(file, was) == file <==> |was| <= |file|
  {
  }

  // ---- sends that do not end ----

  /** Without an OKAY among the replies the client is not told of a success. */
  lemma NotPushed(replies: seq<Reply>, why: Bytes)
    requires Okay !in replies && |why| <= REASON_MAX
    ensures HearStatus(Answers(replies, why)).Heard? ==> HearStatus(Answers(replies, why)).result == Refused
  {
    if replies != [] {
      HearReply(replies[0], why, Answers(replies[1..], why));
    }
  }

  /** A push that breaks off anywhere before its end leaves no file under its path, is not called a
      success, and ends the service. */
  lemma CutOff(op: Op, n: nat, files: Files, fate: Fate, env: Env)
    requires op.Push? && Sendable(op) && Fits(op) && n < |PushBody(op.chunks, op.time)| && |env.why| <= REASON_MAX
    ensures var t := ServeOne(Request(ID_SEND, Name(op)) + PushBody(op.chunks, op.time)[..n], files, fate, env);
            && !t.more && t.files == files - {op.path}
            && (HearStatus(t.answer).Heard? ==> HearStatus(t.answer).result == Refused)
  {
    var body := PushBody(op.chunks, op.time)[..n];
    RequestRead(ID_SEND, Name(op), body);
    PathRecovered(op.path, op.mode);
    PushCut(op.chunks, op.time, n, fate.opening.open, fate.writes);
    NotPushed(Store(body, fate.opening, fate.writes).replies, env.why);
  }

  lemma StoreBroken(op: Op, body: Bytes, id: Word, size: Word, rest: Bytes, fate: Fate)
    requires op.Push? && Sendable(op) && id != ID_DONE && (id == ID_DATA ==> size > DATA_MAX)
    requires body == DataFrames(op.chunks) + Frame(id, size) + rest
    ensures var r := Store(body, fate.opening, fate.writes); !r.ok && r.replies != [] && r.replies[0].Fail?
  {
    PushBroken(op.chunks, id, size, rest, fate.opening.open, fate.writes);
  }

  /** So does one with a frame in it that is neither data nor its end. */
  lemma BrokenOff(op: Op, id: Word, size: Word, rest: Bytes, files: Files, fate: Fate, env: Env)
    requires op.Push? && Sendable(op) && Fits(op) && |env.why| <= REASON_MAX
    requires id != ID_DONE && (id == ID_DATA ==> size > DATA_MAX)
    ensures var body := DataFrames(op.chunks) + Frame(id, size) + rest;
            var t := ServeOne(Request(ID_SEND, Name(op)) + body, files, fate, env);
            && !t.more && t.files == files - {op.path}
            && HearStatus(t.answer).Heard? && HearStatus(t.answer).result == Refused
  {
    var body := DataFrames(op.chunks) + Frame(id, size) + rest;
    RequestRead(ID_SEND, Name(op), body);
    PathRecovered(op.path, op.mode);
    StoreBroken(op, body, id, size, rest, fate);
    var replies := Store(body, fate.opening, fate.writes).replies;
    HearReply(replies[0], env.why, Answers(replies[1..], env.why));
  }

  // ---- the names of the requests ----

  /** The numbers of the requests and answers are the letters of their names. */
  lemma IdsSpelled()
    ensures PutWord(ID_SEND) == ['S' as int, 'E' as int, 'N' as int, 'D' as int]
    ensures PutWord(ID_RECV) == ['R' as int, 'E' as int, 'C' as int, 'V' as int]
    ensures PutWord(ID_STAT) == ['S' as int, 'T' as int, 'A' as int, 'T' as int]
    ensures PutWord(ID_LIST) == ['L' as int, 'I' as int, 'S' as int, 'T' as int]
    ensures PutWord(ID_DENT) == ['D' as int, 'E' as int, 'N' as int, 'T' as int]
    ensures PutWord(ID_DATA) == ['D' as int, 'A' as int, 'T' as int, 'A' as int]
    ensures PutWord(ID_DONE) == ['D' as int, 'O' as int, 'N' as int, 'E' as int]
    ensures PutWord(ID_OKAY) == ['O' as int, 'K' as int, 'A' as int, 'Y' as int]
    ensures PutWord(ID_FAIL) == ['F' as int, 'A' as int, 'I' as int, 'L' as int]
    ensures PutWord(ID_QUIT) == ['Q' as int, 'U' as int, 'I' as int, 'T' as int]
  {
  }

  // ---- names that are too long ----

  /** The client checks the length of the path, the device that of the path with the mode: a push
      is accepted if and only if the latter is within the limit, and if it is not, the service
      answers once and serves nothing that follows. */
  lemma PushAccepted(op: Op, rest: Bytes, files: Files, env: Env)
    requires op.Push? && Sendable(op) && |Name(op)| < WORD && |env.why| < WORD
    ensures Frame(ID_OKAY, 0) <= Serve(OpBytes(op) + rest, files, [], env).out <==> Fits(op)
    ensures !Fits(op) ==> Serve(OpBytes(op) + rest, files, [], env) == Served(files, FailMessage(env.why))
  {
    if Fits(op) {
      ServeOp(op, rest, files, FINE, env);
      AllWritten(|op.chunks|);
      assert PushReplies(op, FINE) == [Okay];
    } else {
      var body := PushBody(op.chunks, op.time) + rest;
      assert OpBytes(op) + rest == Request(ID_SEND, Name(op)) + body;
      RequestRead(ID_SEND, Name(op), body);
      FrameRead(ID_FAIL, |env.why|, env.why);
      FrameRead(ID_OKAY, 0, []);
      assert FailMessage(env.why)[..4] == PutWord(ID_FAIL) && Frame(ID_OKAY, 0)[..4] == PutWord(ID_OKAY);
      GetPut(ID_FAIL);
      GetPut(ID_OKAY);
    }
  }

  /** A path the client takes and the device does not: 1024 long, with any mode behind it. */
  lemma LongPathRefused(path: Bytes, mode: Bytes, chunks: seq<Bytes>, time: Word, env: Env)
    requires |path| == NAME_MAX && |mode| < 64 && COMMA !in mode && Pieces(chunks) && |env.why| < WORD
    ensures Serve(OpBytes(Push(path, mode, chunks, time)), map[], [], env) == Served(map[], FailMessage(env.why))
  {
    var op := Push(path, mode, chunks, time);
    PushAccepted(op, [], map[], env);
    assert OpBytes(op) + [] == OpBytes(op);
  }
}
