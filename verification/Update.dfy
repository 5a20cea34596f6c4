/**
 A fastboot update: the order in which do_update queues its actions, and what must have happened
 before anything of the device is changed.
 */
module Update {
  import opened ByteSeqs
  import opened CStrings
  import opened ActionQueue
  import opened Requirements
  import opened Wrappers

  // ---- the lines of the requirements ----

  const NEWLINE: char := '\n'

  /** The first newline from a place on, or the end. */
  function NextNewline(text: string, k: nat): (i: nat)
    requires k <= |text|
    ensures k <= i <= |text|
    decreases |text| - k
  {
    if k == |text| || text[k] == NEWLINE then k else NextNewline(text, k + 1)
  }

  /** The lines from a place on that end in a newline. */
  function Lines(text: string, k: nat): seq<string>
    requires k <= |text|
    decreases |text| - k
  {
    var i := NextNewline(text, k);
    if i == |text| then [] else [text[k..i]] + Lines(text, i + 1)
  }

  function Ended(lines: seq<string>): string
  {
    if lines == [] then "" else lines[0] + [NEWLINE] + Ended(lines[1..])
  }

  lemma {:induction false} NewlineNext(text: string, k: nat)
    requires k <= |text|
    ensures var i := NextNewline(text, k); NEWLINE !in text[k..i] && (i < |text| ==> text[i] == NEWLINE)
    decreases |text| - k
  {
    if k < |text| && text[k] != NEWLINE {
      NewlineNext(text, k + 1);
      var i := NextNewline(text, k);
      assert text[k..i] == [text[k]] + text[k + 1..i];
    }
  }

  /** Where the last line from a place on ends. */
  function Stop(text: string, k: nat): (n: nat)
    requires k <= |text|
    ensures k <= n <= |text|
    decreases |text| - k
  {
    var i := NextNewline(text, k);
    if i == |text| then k else Stop(text, i + 1)
  }

  /** One line more in front of what the lines behind it make up. */
  lemma LineInFront(text: string, k: nat, i: nat, n: nat, later: seq<string>)
    requires k <= i < n <= |text| && text[i] == NEWLINE && text[i + 1..n] == Ended(later)
    ensures text[k..n] == Ended([text[k..i]] + later)
  {
    assert ([text[k..i]] + later)[1..] == later;
    assert text[k..n] == text[k..i] + [NEWLINE] + text[i + 1..n];
  }

  /** The lines are the text up to there. */
  lemma {:induction false} LinesStop(text: string, k: nat)
    requires k <= |text|
    ensures text[k..Stop(text, k)] == Ended(Lines(text, k))
    decreases |text| - k
  {
    var i := NextNewline(text, k);
    if i < |text| {
      NewlineNext(text, k);
      LinesStop(text, i + 1);
      LineInFront(text, k, i, Stop(text, i + 1), Lines(text, i + 1));
    } else {
      assert text[k..k] == "";
    }
  }

  /** Nothing is left out if and only if the text ends in a newline or there is none; what is left
      out is one last piece without a newline. */
  lemma {:induction false} LinesCover(text: string, k: nat)
    requires k <= |text|
    ensures Stop(text, k) == |text| <==> k == |text| || text[|text| - 1] == NEWLINE
    ensures NEWLINE !in text[Stop(text, k)..]
    decreases |text| - k
  {
    var i := NextNewline(text, k);
    NewlineNext(text, k);
    if i == |text| {
      assert text[k..] == text[k..i];
      assert k < i ==> text[i - 1] in text[k..i];
    } else {
      LinesCover(text, i + 1);
    }
  }

  /** The requirements of these lines, or none if one of them is broken; a line stops at a NUL. */
  function Parsed(lines: seq<string>, parse: string -> Line): Option<seq<Requirement>>
  {
    if lines == [] then Some([])
    else
      var first := parse(Str(lines[0]));
      if first.Broken? then None else Behind(Own(first), Parsed(lines[1..], parse))
  }

  function Own(line: Line): seq<Requirement>
  {
    if line.Required? then [line.requirement] else []
  }

  function Behind(done: seq<Requirement>, later: Option<seq<Requirement>>): Option<seq<Requirement>>
  {
    if later.None? then None else Some(done + later.value)
  }

  lemma BehindNone(later: Option<seq<Requirement>>, done: seq<Requirement>)
    ensures Behind([], later) == later && Behind(done, Some([])) == Some(done)
  {
    assert later.Some? ==> [] + later.value == later.value;
    assert done + [] == done;
  }

  lemma BehindTwice(done: seq<Requirement>, own: seq<Requirement>, later: Option<seq<Requirement>>)
    ensures Behind(done, Behind(own, later)) == Behind(done + own, later)
  {
    if later.Some? {
      assert done + (own + later.value) == (done + own) + later.value;
    }
  }

  /** One line taken off the text, behind the requirements found so far. */
  lemma TakeLine(done: seq<Requirement>, text: string, data: nat, s: nat, parse: string -> Line)
    requires data <= s < |text| && text[s] == NEWLINE && NextNewline(text, data) == s
    ensures var first := parse(Str(text[data..s]));
            Behind(done, Parsed(Lines(text, data), parse))
            == if first.Broken? then None else Behind(done + Own(first), Parsed(Lines(text, s + 1), parse))
  {
    var line, later := text[data..s], Lines(text, s + 1);
    assert ([line] + later)[0] == line && ([line] + later)[1..] == later;
    BehindTwice(done, Own(parse(Str(line))), Parsed(later, parse));
  }

  method QueueLine(done: seq<Requirement>, text: string, data: nat, s: nat) returns (ok: bool, now: seq<Requirement>)
    requires data <= s < |text| && text[s] == NEWLINE && NextNewline(text, data) == s
    ensures Behind(done, Parsed(Lines(text, data), ParseLine))
            == if ok then Behind(now, Parsed(Lines(text, s + 1), ParseLine)) else None
  {
    TakeLine(done, text, data, s, ParseLine);
    var r := SetupLine(Str(text[data..s]));
    ok, now := !r.Broken?, done + Own(r);
  }

  /** setup_requirements: character by character, a line at each newline. */
  method SetupRequirements(text: string) returns (ok: bool, requirements: seq<Requirement>)
    ensures Parsed(Lines(text, 0), ParseLine) == if ok then Some(requirements) else None
  {
    ghost var all := Parsed(Lines(text, 0), ParseLine);
    requirements := [];
    var data, s := 0, 0;
    BehindNone(all, []);
    while s < |text|
      invariant data <= s <= |text| && NextNewline(text, data) == NextNewline(text, s)
      invariant all == Behind(requirements, Parsed(Lines(text, data), ParseLine))
    {
      if text[s] == NEWLINE {
        ok, requirements := QueueLine(requirements, text, data, s);
        if !ok {
          return;
        }
        data := s + 1;
      }
      s := s + 1;
    }
    BehindNone(None, requirements);
    ok := true;
  }

  // ---- the queue of an update ----

  datatype Payload = Whole(size: nat) | Split(parts: seq<seq<Bytes>>)

  /** One image of the package: its signature if it has one, whether its partition is erased first,
      and what is to be written. */
  datatype Image = Image(part: string, signature: Option<nat>, erase: bool, payload: Payload)

  const PRODUCT: Action := Action(Query, GetVar("product"), Save)

  /** The variables that are shown first. */
  const INFO: seq<string> := ["version-bootloader", "version-baseband", "serialno"]

  const RULE: Action := Action(Notice, NoCmd, Default)

  function Displays(variables: seq<string>): (q: seq<Action>)
    ensures |q| == |variables|
  {
    if variables == [] then [] else [Action(Query, GetVar(variables[0]), Display)] + Displays(variables[1..])
  }

  function RequireAction(r: Requirement): Action
  {
    Action(Query, GetVar(r.name), Require(r.prod, r.options, r.invert))
  }

  function RequireActions(rs: seq<Requirement>): (q: seq<Action>)
    ensures |q| == |rs|
  {
    if rs == [] then [] else [RequireAction(rs[0])] + RequireActions(rs[1..])
  }

  function FlashParts(part: string, parts: seq<seq<Bytes>>): seq<Action>
  {
    if parts == [] then []
    else [Action(Sparse(parts[0]), NoCmd, Default), Action(Command, Flash(part), Default)] + FlashParts(part, parts[1..])
  }

  /** do_update_signature. */
  function SignActions(image: Image): seq<Action>
  {
    if image.signature.None? then []
    else [Action(Download(image.signature.value), NoCmd, Default), Action(Command, Signature, Default)]
  }

  function EraseActions(image: Image): seq<Action>
  {
    if image.erase then [Action(Command, Erase(image.part), Default)] else []
  }

  /** flash_buf. */
  function FlashActions(image: Image): seq<Action>
  {
    match image.payload
    case Whole(size) => [Action(Download(size), NoCmd, Default), Action(Command, Flash(image.part), Default)]
    case Split(parts) => FlashParts(image.part, parts)
  }

  function ImageActions(image: Image): seq<Action>
  {
    SignActions(image) + EraseActions(image) + FlashActions(image)
  }

  function AllImages(images: seq<Image>): seq<Action>
  {
    if images == [] then [] else ImageActions(images[0]) + AllImages(images[1..])
  }

  /** What is queued before the images: some variables to show, the product, the requirements. */
  function Questions(info: seq<string>, rs: seq<Requirement>): (q: seq<Action>)
    ensures |q| == Asked(info, rs)
  {
    [RULE] + Displays(info) + [RULE, PRODUCT] + RequireActions(rs)
  }

  function Asked(info: seq<string>, rs: seq<Requirement>): nat
  {
    |info| + 3 + |rs|
  }

  /** do_update, with the variables of queue_info_dump. */
  function UpdateQueue(rs: seq<Requirement>, images: seq<Image>): seq<Action>
  {
    Questions(INFO, rs) + AllImages(images)
  }

  // ---- what an update may do ----

  /** The device meets a requirement: it gave a value, and if the requirement is for this product,
      some alternative matches the value exactly when a match is wanted. */
  ghost predicate Meets(r: Requirement, product: string, answer: Answer)
  {
    && answer.status == 0
    && (r.prod == None || r.prod == Some(product) ==> (Matches(answer.resp, r.options) <==> !r.invert))
  }

  ghost predicate AllMet(rs: seq<Requirement>, product: string, log: seq<Answer>)
    requires |log| == |rs|
  {
    forall i :: 0 <= i < |rs| ==> Meets(rs[i], product, log[i])
  }

  ghost predicate AllAnswered(log: seq<Answer>)
  {
    forall i :: 0 <= i < |log| ==> log[i].status == 0
  }

  /** The device said what it was asked, and it is the right one. */
  ghost predicate Cleared(info: seq<string>, rs: seq<Requirement>, log: seq<Answer>)
    requires |log| >= Asked(info, rs)
  {
    var n := |info|;
    && AllAnswered(log[1..1 + n])
    && log[2 + n].status == 0
    && AllMet(rs, log[2 + n].resp, log[3 + n..3 + n + |rs|])
  }

  lemma {:induction false} RequirementsPass(rs: seq<Requirement>, log: seq<Answer>, product: string)
    requires |log| == |rs|
    ensures AllPass(RequireActions(rs), log, product) <==> AllMet(rs, product, log)
  {
    if rs != [] {
      RequirementsPass(rs[1..], log[1..], product);
      assert forall i :: 0 < i < |rs| ==> rs[i] == rs[1..][i - 1] && log[i] == log[1..][i - 1];
      var a := RequireActions(rs);
      assert a[0] == RequireAction(rs[0]) && a[1..] == RequireActions(rs[1..]);
      assert Meets(rs[0], product, log[0]) <==> Verdict(a[0], log[0], product) == 0;
    }
  }

  lemma {:induction false} DisplaysPass(info: seq<string>, log: seq<Answer>, product: string)
    requires |log| == |info|
    ensures AllPass(Displays(info), log, product) <==> AllAnswered(log)
    ensures After(Displays(info), log, product) == product
  {
    if info != [] {
      DisplaysPass(info[1..], log[1..], product);
      assert Displays(info)[1..] == Displays(info[1..]);
      assert forall i :: 0 < i < |info| ==> log[i] == log[1..][i - 1];
    }
  }

  lemma RulePasses(q: seq<Action>, log: seq<Answer>, product: string)
    requires log != []
    ensures AllPass([RULE] + q, log, product) <==> AllPass(q, log[1..], product)
  {
    assert ([RULE] + q)[0] == RULE && ([RULE] + q)[1..] == q;
  }

  lemma ProductPasses(q: seq<Action>, log: seq<Answer>, product: string)
    requires log != []
    ensures AllPass([PRODUCT] + q, log, product) <==> log[0].status == 0 && AllPass(q, log[1..], log[0].resp)
  {
    assert ([PRODUCT] + q)[0] == PRODUCT && ([PRODUCT] + q)[1..] == q;
  }

  lemma EndPasses(rs: seq<Requirement>, log: seq<Answer>)
    requires |log| == 2 + |rs|
    ensures AllPass([RULE] + ([PRODUCT] + RequireActions(rs)), log, "") <==>
              log[1].status == 0 && AllMet(rs, log[1].resp, log[2..])
  {
    RulePasses([PRODUCT] + RequireActions(rs), log, "");
    ProductPasses(RequireActions(rs), log[1..], "");
    assert log[1..][1..] == log[2..];
    RequirementsPass(rs, log[2..], log[1].resp);
  }

  lemma StartPasses(info: seq<string>, end: seq<Action>, log: seq<Answer>)
    requires |log| == 1 + |info| + |end|
    ensures AllPass([RULE] + (Displays(info) + end), log, "") <==>
              AllAnswered(log[1..1 + |info|]) && AllPass(end, log[1 + |info|..], "")
  {
    var n := |info|;
    RulePasses(Displays(info) + end, log, "");
    DisplaysThen(info, end, log[1..]);
    SliceTwice(log, n);
  }

  lemma DisplaysThen(info: seq<string>, end: seq<Action>, log: seq<Answer>)
    requires |log| == |info| + |end|
    ensures AllPass(Displays(info) + end, log, "") <==>
              AllAnswered(log[..|info|]) && AllPass(end, log[|info|..], "")
  {
    PassAppend(Displays(info), end, log, "");
    DisplaysPass(info, log[..|info|], "");
  }

  lemma SliceTwice(log: seq<Answer>, n: nat)
    requires 1 + n <= |log|
    ensures log[1..][..n] == log[1..1 + n] && log[1..][n..] == log[1 + n..]
  {
  }

  /** The questions before the images let an update pass if and only if the device is cleared. */
  lemma QuestionsPass(info: seq<string>, rs: seq<Requirement>, log: seq<Answer>)
    requires |log| == Asked(info, rs)
    ensures AllPass(Questions(info, rs), log, "") <==> Cleared(info, rs, log)
  {
    var n := |info|;
    var end, later := [RULE] + ([PRODUCT] + RequireActions(rs)), log[1 + n..];
    assert Questions(info, rs) == [RULE] + (Displays(info) + end);
    StartPasses(info, end, log);
    EndPasses(rs, later);
    assert later[1] == log[2 + n] && later[2..] == log[3 + n..3 + n + |rs|];
  }

  /** What is asked for the images of an update is reached if and only if the product query, the
      other questions and every requirement passed. */
  lemma UpdateGated(rs: seq<Requirement>, images: seq<Image>, log: seq<Answer>)
    requires IsRun(UpdateQueue(rs, images), log, "") && AllImages(images) != []
    ensures |log| > Asked(INFO, rs) <==> |log| >= Asked(INFO, rs) && Cleared(INFO, rs, log)
  {
    Gated(INFO, rs, AllImages(images), log);
  }

  lemma Gated(info: seq<string>, rs: seq<Requirement>, rest: seq<Action>, log: seq<Answer>)
    requires IsRun(Questions(info, rs) + rest, log, "") && rest != []
    ensures |log| > Asked(info, rs) <==> |log| >= Asked(info, rs) && Cleared(info, rs, log)
  {
    Gate(Questions(info, rs), rest, log, "");
    if |log| >= Asked(info, rs) {
      QuestionsPass(info, rs, log[..Asked(info, rs)]);
      ClearedEarly(info, rs, log);
    }
  }

  predicate Changes(op: Op)
  {
    op.Command? || op.Download? || op.Sparse?
  }

  lemma {:induction false} RequirementsAsk(rs: seq<Requirement>, k: nat)
    requires k < |rs|
    ensures RequireActions(rs)[k].op.Query?
  {
    if k > 0 {
      RequirementsAsk(rs[1..], k - 1);
    }
  }

  lemma {:induction false} DisplaysAsk(info: seq<string>, k: nat)
    requires k < |info|
    ensures Displays(info)[k].op.Query?
  {
    if k > 0 {
      DisplaysAsk(info[1..], k - 1);
    }
  }

  lemma QuestionsAsk(info: seq<string>, rs: seq<Requirement>, k: nat)
    requires k < Asked(info, rs)
    ensures !Changes(Questions(info, rs)[k].op)
  {
    var n := |info|;
    if 1 <= k < 1 + n {
      DisplaysAsk(info, k - 1);
    } else if 3 + n <= k {
      RequirementsAsk(rs, k - 3 - n);
    }
  }

  /** Nothing that changes the device is sent unless the device is cleared. */
  lemma NothingChangedUncleared(rs: seq<Requirement>, images: seq<Image>, log: seq<Answer>, k: nat)
    requires IsRun(UpdateQueue(rs, images), log, "") && k < |log| && k < |UpdateQueue(rs, images)|
    requires Changes(UpdateQueue(rs, images)[k].op)
    ensures |log| > Asked(INFO, rs) && Cleared(INFO, rs, log)
  {
    ChangesLate(INFO, rs, AllImages(images), k);
    UpdateGated(rs, images, log);
  }

  lemma ChangesLate(info: seq<string>, rs: seq<Requirement>, rest: seq<Action>, k: nat)
    requires k < Asked(info, rs) + |rest| && Changes((Questions(info, rs) + rest)[k].op)
    ensures k >= Asked(info, rs) && rest != []
  {
    if k < Asked(info, rs) {
      QuestionsAsk(info, rs, k);
    }
  }

  // ---- from the text to the queue ----

  lemma {:induction false} NextIs(text: string, k: nat, n: nat)
    requires k + n < |text| && text[k + n] == NEWLINE
    requires forall j :: k <= j < k + n ==> text[j] != NEWLINE
    ensures NextNewline(text, k) == k + n
    decreases n
  {
    if n > 0 {
      NextIs(text, k + 1, n - 1);
    }
  }

  lemma {:induction false} NextNone(text: string, k: nat)
    requires k <= |text| && forall j :: k <= j < |text| ==> text[j] != NEWLINE
    ensures NextNewline(text, k) == |text|
    decreases |text| - k
  {
    if k < |text| {
      NextNone(text, k + 1);
    }
  }

  predicate Clean(lines: seq<string>)
  {
    forall i :: 0 <= i < |lines| ==> NEWLINE !in lines[i]
  }

  lemma LineAt(text: string, k: nat, n: nat)
    requires k + n < |text| && text[k + n] == NEWLINE && NEWLINE !in text[k..k + n]
    ensures Lines(text, k) == [text[k..k + n]] + Lines(text, k + n + 1)
  {
    forall j | k <= j < k + n ensures text[j] != NEWLINE {
      assert text[j] == text[k..k + n][j - k];
    }
    NextIs(text, k, n);
  }

  lemma LineInside(text: string, before: string, line: string, rest: string)
    requires text == before + (line + [NEWLINE] + rest)
    ensures |before| + |line| < |text|
    ensures text[|before|..|before| + |line|] == line && text[|before| + |line|] == NEWLINE
  {
  }

  lemma EndedShift(before: string, line: string, later: string, tail: string)
    ensures var text := before + ((line + [NEWLINE] + later) + tail);
            && text == before + (line + [NEWLINE] + (later + tail))
            && text == (before + line + [NEWLINE]) + (later + tail)
  {
    assert (line + [NEWLINE] + later) + tail == line + [NEWLINE] + (later + tail);
  }

  lemma NoLine(text: string, before: string, tail: string)
    requires NEWLINE !in tail && text == before + tail
    ensures Lines(text, |before|) == []
  {
    NextNone(text, |before|);
  }

  /** Lines that were ended come back, and a piece behind them that was not does not. */
  lemma {:induction false} LinesOfEnded(before: string, lines: seq<string>, tail: string)
    requires Clean(lines) && NEWLINE !in tail
    ensures Lines(before + (Ended(lines) + tail), |before|) == lines
    decreases lines
  {
    var text := before + (Ended(lines) + tail);
    if lines == [] {
      NoLine(text, before, tail);
    } else {
      EndedShift(before, lines[0], Ended(lines[1..]), tail);
      LineInside(text, before, lines[0], Ended(lines[1..]) + tail);
      LineAt(text, |before|, |lines[0]|);
      LinesOfEnded(before + lines[0] + [NEWLINE], lines[1..], tail);
    }
  }

  predicate Stateable(rs: seq<Requirement>)
  {
    forall i :: 0 <= i < |rs| ==> Writable(rs[i]) && NEWLINE !in WriteLine(rs[i]) && NUL !in WriteLine(rs[i])
  }

  function Stated(rs: seq<Requirement>): (lines: seq<string>)
    requires Stateable(rs)
    ensures Clean(lines)
  {
    if rs == [] then [] else [WriteLine(rs[0])] + Stated(rs[1..])
  }

  lemma {:induction false} StatedAt(rs: seq<Requirement>, i: nat)
    requires Stateable(rs) && i < |rs|
    ensures |Stated(rs)| == |rs| && Stated(rs)[i] == WriteLine(rs[i])
  {
    if |rs| > 1 {
      StatedAt(rs[1..], if i == 0 then 0 else i - 1);
    }
  }

  /** Lines that are parsed one by one to these requirements are parsed to all of them. */
  lemma {:induction false} ParsedEach(lines: seq<string>, rs: seq<Requirement>, parse: string -> Line)
    requires |lines| == |rs| && forall i :: 0 <= i < |rs| ==> parse(Str(lines[i])) == Required(rs[i])
    ensures Parsed(lines, parse) == Some(rs)
  {
    if rs != [] {
      ParsedEach(lines[1..], rs[1..], parse);
      assert rs == [rs[0]] + rs[1..];
    }
  }

  lemma ParsedStated(rs: seq<Requirement>)
    requires Stateable(rs)
    ensures Parsed(Stated(rs), ParseLine) == Some(rs)
  {
    var lines := Stated(rs);
    forall i | 0 <= i < |rs| ensures |lines| == |rs| && ParseLine(Str(lines[i])) == Required(rs[i]) {
      StatedAt(rs, i);
      StrWhole(WriteLine(rs[i]));
      ParseWritten(rs[i]);
    }
    ParsedEach(lines, rs, ParseLine);
  }

  /** A text that states requirements line by line gets exactly these queued; a last line without
      its newline is not looked at, whatever it states. */
  lemma TextQueued(rs: seq<Requirement>, tail: string)
    requires Stateable(rs) && NEWLINE !in tail
    ensures Parsed(Lines(Ended(Stated(rs)) + tail, 0), ParseLine) == Some(rs)
  {
    LinesOfEnded("", Stated(rs), tail);
    assert "" + (Ended(Stated(rs)) + tail) == Ended(Stated(rs)) + tail;
    ParsedStated(rs);
  }

  // ---- an update from beginning to end ----

  /** The images that are sent in sparse pieces, in order. */
  function SparseImages(images: seq<Image>): seq<Bytes>
  {
    if images == [] then []
    else (if images[0].payload.Split? then Wholes(images[0].payload.parts) else []) + SparseImages(images[1..])
  }

  function Wholes(parts: seq<seq<Bytes>>): seq<Bytes>
  {
    if parts == [] then [] else [Concat(parts[0])] + Wholes(parts[1..])
  }

  lemma {:induction false} ImagesAppend(a: seq<Action>, b: seq<Action>)
    ensures Images(a + b) == Images(a) + Images(b)
  {
    if a == [] {
      assert a + b == b;
    } else {
      assert (a + b)[1..] == a[1..] + b;
      ImagesAppend(a[1..], b);
    }
  }

  lemma QueueableAppend(a: seq<Action>, b: seq<Action>)
    requires Queueable(a) && Queueable(b)
    ensures Queueable(a + b)
  {
  }

  lemma {:induction false} PartsQueued(part: string, parts: seq<seq<Bytes>>)
    ensures Queueable(FlashParts(part, parts)) && Images(FlashParts(part, parts)) == Wholes(parts)
  {
    if parts != [] {
      var first := [Action(Sparse(parts[0]), NoCmd, Default), Action(Command, Flash(part), Default)];
      PartsQueued(part, parts[1..]);
      QueueableAppend(first, FlashParts(part, parts[1..]));
      ImagesAppend(first, FlashParts(part, parts[1..]));
      assert first[1..][1..] == [];
    }
  }

  lemma ImageQueued(image: Image)
    ensures Queueable(ImageActions(image))
    ensures Images(ImageActions(image)) == if image.payload.Split? then Wholes(image.payload.parts) else []
  {
    var signed, erased, flashed := SignActions(image), EraseActions(image), FlashActions(image);
    if image.payload.Split? {
      PartsQueued(image.part, image.payload.parts);
    } else {
      PlainQueued(flashed);
    }
    PlainQueued(signed);
    PlainQueued(erased);
    QueueableAppend(signed, erased);
    QueueableAppend(signed + erased, flashed);
    ImagesAppend(signed, erased);
    ImagesAppend(signed + erased, flashed);
  }

  lemma {:induction false} PlainQueued(q: seq<Action>)
    requires forall i :: 0 <= i < |q| ==> !q[i].op.Sparse?
    ensures Queueable(q) && Images(q) == []
  {
    if q != [] {
      PlainQueued(q[1..]);
    }
  }

  lemma {:induction false} AllQueued(images: seq<Image>)
    ensures Queueable(AllImages(images)) && Images(AllImages(images)) == SparseImages(images)
  {
    if images != [] {
      ImageQueued(images[0]);
      AllQueued(images[1..]);
      QueueableAppend(ImageActions(images[0]), AllImages(images[1..]));
      ImagesAppend(ImageActions(images[0]), AllImages(images[1..]));
    }
  }

  lemma QuestionsQueued(info: seq<string>, rs: seq<Requirement>, n: nat)
    requires n <= Asked(info, rs)
    ensures Queueable(Questions(info, rs)[..n]) && Images(Questions(info, rs)[..n]) == []
  {
    var q := Questions(info, rs);
    forall i | 0 <= i < n ensures !q[..n][i].op.Sparse? {
      QuestionsAsk(info, rs, i);
    }
    PlainQueued(q[..n]);
  }

  /** The queue of an update can be executed, and the images it delivers are those of the package. */
  lemma UpdateQueued(rs: seq<Requirement>, images: seq<Image>)
    ensures Queueable(UpdateQueue(rs, images)) && Images(UpdateQueue(rs, images)) == SparseImages(images)
  {
    var q := Questions(INFO, rs);
    QuestionsQueued(INFO, rs, |q|);
    assert q[..|q|] == q;
    AllQueued(images);
    QueueableAppend(q, AllImages(images));
    ImagesAppend(q, AllImages(images));
  }

  /** Nothing that changes the device is queued without its answer being judged. */
  lemma AllJudged(rs: seq<Requirement>, images: seq<Image>)
    ensures forall i :: 0 <= i < |UpdateQueue(rs, images)| && Changes(UpdateQueue(rs, images)[i].op) ==>
                          Asks(UpdateQueue(rs, images)[i])
  {
    var q := UpdateQueue(rs, images);
    ImagesJudged(images);
    forall i | 0 <= i < |q| && Changes(q[i].op) ensures Asks(q[i]) {
      ChangesLate(INFO, rs, AllImages(images), i);
      assert q[i] == AllImages(images)[i - Asked(INFO, rs)];
    }
  }

  predicate Judged(queue: seq<Action>)
  {
    forall i :: 0 <= i < |queue| ==> Asks(queue[i])
  }

  lemma {:induction false} ImagesJudged(images: seq<Image>)
    ensures Judged(AllImages(images))
  {
    if images != [] {
      if images[0].payload.Split? {
        PartsJudged(images[0].part, images[0].payload.parts);
      }
      assert Judged(ImageActions(images[0]));
      ImagesJudged(images[1..]);
    }
  }

  lemma {:induction false} PartsJudged(part: string, parts: seq<seq<Bytes>>)
    ensures Judged(FlashParts(part, parts))
  {
    if parts != [] {
      PartsJudged(part, parts[1..]);
    }
  }

  /** What was delivered before an update stopped among its questions is nothing. */
  lemma NothingDelivered(rs: seq<Requirement>, images: seq<Image>, n: nat)
    requires n <= Asked(INFO, rs)
    ensures n <= |UpdateQueue(rs, images)| && Images(UpdateQueue(rs, images)[..n]) == []
  {
    QuestionsQueued(INFO, rs, n);
    assert UpdateQueue(rs, images)[..n] == Questions(INFO, rs)[..n];
  }

  lemma PassedCleared(rs: seq<Requirement>, images: seq<Image>, log: seq<Answer>)
    requires AllPass(UpdateQueue(rs, images), log, "") && |log| == |UpdateQueue(rs, images)|
    ensures Cleared(INFO, rs, log)
  {
    PassAppend(Questions(INFO, rs), AllImages(images), log, "");
    QuestionsPass(INFO, rs, log[..Asked(INFO, rs)]);
    ClearedEarly(INFO, rs, log);
  }

  lemma ClearedEarly(info: seq<string>, rs: seq<Requirement>, log: seq<Answer>)
    requires |log| >= Asked(info, rs)
    ensures Cleared(info, rs, log[..Asked(info, rs)]) <==> Cleared(info, rs, log)
  {
    var n, asked := |info|, log[..Asked(info, rs)];
    assert asked[1..1 + n] == log[1..1 + n] && asked[3 + n..3 + n + |rs|] == log[3 + n..3 + n + |rs|];
  }

  // ---- what the queue does to a device ----

  /** What a bootloader has in its download buffer: nothing, so many bytes, or these. */
  datatype Staged = Empty | Sized(size: nat) | Loaded(data: Bytes)

  /** What a bootloader does. */
  datatype Deed = Told(variable: string) | Verified(staged: Staged) | Erased(part: string)
                | Wrote(part: string, staged: Staged)

  /** A bootloader that is sent the actions one after the other: a download fills its buffer, and a
      command works on what is there. */
  function Deeds(queue: seq<Action>, staged: Staged): seq<Deed>
  {
    if queue == [] then []
    else
      DeedOf(queue[0], staged) + Deeds(queue[1..], Staging(queue[0], staged))
  }

  function Staging(a: Action, staged: Staged): Staged
  {
    match a.op
    case Download(size) => Sized(size)
    case Sparse(pieces) => Loaded(Concat(pieces))
    case _ => staged
  }

  function DeedOf(a: Action, staged: Staged): seq<Deed>
  {
    if a.op.Query? && a.cmd.GetVar? then [Told(a.cmd.variable)]
    else if !a.op.Command? then []
    else
      match a.cmd
      case Erase(part) => [Erased(part)]
      case Flash(part) => [Wrote(part, staged)]
      case Signature => [Verified(staged)]
      case _ => []
  }

  function StagedAfter(queue: seq<Action>, staged: Staged): Staged
  {
    if queue == [] then staged else StagedAfter(queue[1..], Staging(queue[0], staged))
  }

  lemma {:induction false} DeedsAppend(a: seq<Action>, b: seq<Action>, staged: Staged)
    ensures Deeds(a + b, staged) == Deeds(a, staged) + Deeds(b, StagedAfter(a, staged))
  {
    if a == [] {
      assert a + b == b;
    } else {
      assert (a + b)[1..] == a[1..] + b;
      var now := Staging(a[0], staged);
      DeedsAppend(a[1..], b, now);
      Regroup(DeedOf(a[0], staged), Deeds(a[1..], now), Deeds(b, StagedAfter(a[1..], now)));
    }
  }

  /** What should become of an image: its signature is verified, its partition is erased if that was
      asked for, and the image, or each part of it in turn, is written there. */
  function Due(image: Image): seq<Deed>
  {
    (if image.signature.Some? then [Verified(Sized(image.signature.value))] else [])
    + (if image.erase then [Erased(image.part)] else [])
    + Written(image.part, image.payload)
  }

  function Written(part: string, payload: Payload): seq<Deed>
  {
    match payload
    case Whole(size) => [Wrote(part, Sized(size))]
    case Split(parts) => seq(|parts|, i requires 0 <= i < |parts| => Wrote(part, Loaded(Concat(parts[i]))))
  }

  function AllDue(images: seq<Image>): seq<Deed>
  {
    if images == [] then [] else Due(images[0]) + AllDue(images[1..])
  }

  lemma TwoDeeds(a: Action, b: Action, staged: Staged)
    ensures Deeds([a, b], staged) == DeedOf(a, staged) + DeedOf(b, Staging(a, staged))
  {
    var now := Staging(a, staged);
    assert [a, b][1..] == [b] && [b][1..] == [];
    assert Deeds([b], now) == DeedOf(b, now) + [];
  }

  lemma {:induction false} PartsDue(part: string, parts: seq<seq<Bytes>>, staged: Staged)
    ensures Deeds(FlashParts(part, parts), staged)
            == seq(|parts|, i requires 0 <= i < |parts| => Wrote(part, Loaded(Concat(parts[i]))))
  {
    if parts != [] {
      var a, b := Action(Sparse(parts[0]), NoCmd, Default), Action(Command, Flash(part), Default);
      DeedsAppend([a, b], FlashParts(part, parts[1..]), staged);
      TwoDeeds(a, b, staged);
      PartsDue(part, parts[1..], StagedAfter([a, b], staged));
    }
  }

  lemma DeedsThree(a: seq<Action>, b: seq<Action>, c: seq<Action>, staged: Staged)
    ensures Deeds(a + b + c, staged)
            == Deeds(a, staged) + Deeds(b, StagedAfter(a, staged)) + Deeds(c, StagedAfter(a + b, staged))
  {
    DeedsAppend(a + b, c, staged);
    DeedsAppend(a, b, staged);
  }

  lemma ImageDue(image: Image, staged: Staged)
    ensures Deeds(ImageActions(image), staged) == Due(image)
  {
    var signed, erased := SignActions(image), EraseActions(image);
    DeedsThree(signed, erased, FlashActions(image), staged);
    SignedDue(image, staged);
    ErasedDue(image, StagedAfter(signed, staged));
    FlashedDue(image, StagedAfter(signed + erased, staged));
  }

  lemma ErasedDue(image: Image, staged: Staged)
    ensures Deeds(EraseActions(image), staged) == if image.erase then [Erased(image.part)] else []
  {
    if image.erase {
      assert EraseActions(image)[1..] == [];
    }
  }

  lemma SignedDue(image: Image, staged: Staged)
    ensures Deeds(SignActions(image), staged)
            == if image.signature.Some? then [Verified(Sized(image.signature.value))] else []
  {
    if image.signature.Some? {
      TwoDeeds(Action(Download(image.signature.value), NoCmd, Default), Action(Command, Signature, Default), staged);
    }
  }

  lemma FlashedDue(image: Image, staged: Staged)
    ensures Deeds(FlashActions(image), staged) == Written(image.part, image.payload)
  {
    match image.payload {
      case Whole(size) =>
        TwoDeeds(Action(Download(size), NoCmd, Default), Action(Command, Flash(image.part), Default), staged);
      case Split(parts) => PartsDue(image.part, parts, staged);
    }
  }

  lemma {:induction false} ImagesDue(images: seq<Image>, staged: Staged)
    ensures Deeds(AllImages(images), staged) == AllDue(images)
  {
    if images != [] {
      var first := ImageActions(images[0]);
      DeedsAppend(first, AllImages(images[1..]), staged);
      ImageDue(images[0], staged);
      ImagesDue(images[1..], StagedAfter(first, staged));
    }
  }

  function AllTold(variables: seq<string>): seq<Deed>
  {
    seq(|variables|, i requires 0 <= i < |variables| => Told(variables[i]))
  }

  lemma ToldFirst(queue: seq<Action>, variables: seq<string>, staged: Staged)
    requires queue != [] && variables != [] && DeedOf(queue[0], staged) == [Told(variables[0])]
    requires Staging(queue[0], staged) == staged && Deeds(queue[1..], staged) == AllTold(variables[1..])
    ensures Deeds(queue, staged) == AllTold(variables)
  {
    assert AllTold(variables) == [Told(variables[0])] + AllTold(variables[1..]);
  }

  lemma {:induction false} DisplaysTell(variables: seq<string>, staged: Staged)
    ensures Deeds(Displays(variables), staged) == AllTold(variables) && StagedAfter(Displays(variables), staged) == staged
  {
    if variables != [] {
      DisplaysTell(variables[1..], staged);
      ToldFirst(Displays(variables), variables, staged);
    }
  }

  function VariablesOf(rs: seq<Requirement>): seq<string>
  {
    seq(|rs|, i requires 0 <= i < |rs| => rs[i].name)
  }

  lemma {:induction false} RequirementsTell(rs: seq<Requirement>, staged: Staged)
    ensures Deeds(RequireActions(rs), staged) == AllTold(VariablesOf(rs))
  {
    if rs != [] {
      RequirementsTell(rs[1..], staged);
      ToldFirst(RequireActions(rs), VariablesOf(rs), staged);
      assert VariablesOf(rs)[1..] == VariablesOf(rs[1..]);
    }
  }

  lemma QuestionsTell(info: seq<string>, rs: seq<Requirement>)
    ensures Deeds(Questions(info, rs), Empty) == AllTold(info) + [Told("product")] + AllTold(VariablesOf(rs))
  {
    var shown, end := [RULE] + Displays(info), [RULE, PRODUCT];
    DeedsThree(shown, end, RequireActions(rs), Empty);
    ShownTell(info, Empty);
    TwoDeeds(RULE, PRODUCT, StagedAfter(shown, Empty));
    RequirementsTell(rs, StagedAfter(shown + end, Empty));
  }

  lemma ShownTell(info: seq<string>, staged: Staged)
    ensures Deeds([RULE] + Displays(info), staged) == AllTold(info)
  {
    DeedsAppend([RULE], Displays(info), staged);
    assert [RULE][1..] == [];
    DisplaysTell(info, StagedAfter([RULE], staged));
  }

  /** What the queue of an update, executed to its end, has a bootloader do: tell the variables that
      are shown, its product and the variable of each requirement, and then do for each image of the
      package, in order, what is due to it. */
  lemma UpdateDoes(rs: seq<Requirement>, images: seq<Image>)
    ensures Deeds(UpdateQueue(rs, images), Empty)
            == AllTold(["version-bootloader", "version-baseband", "serialno"]) + [Told("product")]
               + AllTold(VariablesOf(rs)) + AllDue(images)
  {
    DeedsAppend(Questions(INFO, rs), AllImages(images), Empty);
    QuestionsTell(INFO, rs);
    ImagesDue(images, StagedAfter(Questions(INFO, rs), Empty));
  }

  /** do_update, and fb_execute_queue on what it queued. A line of the requirements that is broken
      ends it before anything is sent. The images are delivered, all and in order, if nothing stops
      the queue, and none is unless the device is cleared. */
  method DoUpdate(engine: Engine, text: string, images: seq<Image>, replies: seq<Reply>)
      returns (ok: bool, rs: seq<Requirement>, status: int, log: seq<Answer>)
    requires engine.usb.Valid() && engine.usb.len == 0 && engine.product == ""
    modifies engine`product, engine`received, engine.usb, engine.usb.buf
    ensures Parsed(Lines(text, 0), ParseLine) == if ok then Some(rs) else None
    ensures !ok ==> log == [] && engine.received == old(engine.received)
    ensures ok ==> IsRun(UpdateQueue(rs, images), log, "")
    ensures ok && status == 0 ==>
              && |log| == |UpdateQueue(rs, images)| && Cleared(INFO, rs, log)
              && engine.received == old(engine.received) + SparseImages(images)
    ensures engine.received != old(engine.received) ==>
              ok && |log| > Asked(INFO, rs) && Cleared(INFO, rs, log)
    ensures ok && status == 0 ==>
              forall i :: 0 <= i < |UpdateQueue(rs, images)| && Changes(UpdateQueue(rs, images)[i].op) ==> log[i].status == 0
    ensures ok && status != 0 ==>
              0 < |log| <= |UpdateQueue(rs, images)| && StoppedBy(UpdateQueue(rs, images), log, status, "")
  {
    status, log := 0, [];
    ok, rs := SetupRequirements(text);
    if !ok {
      return;
    }
    ghost var n := Asked(INFO, rs);
    UpdateQueued(rs, images);
    AllJudged(rs, images);
    status, log := engine.ExecuteQueue(UpdateQueue(rs, images), replies);
    if status == 0 {
      PassedCleared(rs, images, log);
      NothingDelivered(rs, images, n);
      assert |log| == n ==> UpdateQueue(rs, images)[..n] == UpdateQueue(rs, images);
    } else if |log| <= n {
      NothingDelivered(rs, images, |log| - 1);
    } else {
      UpdateGated(rs, images, log);
    }
  }
}
