/**
 fastboot's queue of actions: how it is executed, what stops it, and what has therefore happened
 before any action that is sent to the device.
 */
module ActionQueue {
  import opened ByteSeqs
  import opened SparseDownload
  import opened Wrappers

  // ---- matching a value of the device ----

  /** An option ending in a star is a prefix, unless it is only the star. */
  predicate OptionMatches(option: string, value: string)
  {
    if |option| > 1 && option[|option| - 1] == '*' then option[..|option| - 1] <= value else option == value
  }

  predicate Matches(value: string, options: seq<string>)
  {
    exists i :: 0 <= i < |options| && OptionMatches(options[i], value)
  }

  /** An option that ends in a star, with something before it, matches what begins with that; any other
      matches only itself. */
  lemma OptionMeans(head: string, option: string, value: string)
    ensures head != "" ==> (OptionMatches(head + "*", value) <==> exists tail :: value == head + tail)
    ensures (forall h :: h != "" ==> option != h + "*") ==> (OptionMatches(option, value) <==> option == value)
  {
    assert (head + "*")[..|head|] == head;
    if head <= value {
      assert value == head + value[|head|..];
    }
    if |option| > 1 && option[|option| - 1] == '*' {
      assert option == option[..|option| - 1] + "*";
    }
  }

  method Match(value: string, options: seq<string>) returns (yes: bool)
    ensures yes <==> Matches(value, options)
  {
    var n := 0;
    while n < |options|
      invariant n <= |options|
      invariant forall i :: 0 <= i < n ==> !OptionMatches(options[i], value)
    {
      var option := options[n];
      var len := |option|;
      var matches: bool;
      if len > 1 && option[len - 1] == '*' {
        len := len - 1;
        matches := len <= |value| && option[..len] == value[..len];
      } else {
        matches := option == value;
      }
      if matches {
        return true;
      }
      n := n + 1;
    }
    return false;
  }

  // ---- actions ----

  datatype Op =
    | Download(size: nat)
    | Command
    | Query
    | Notice
    | Sparse(pieces: seq<Bytes>)
    | WaitForDisconnect

  /** The function that judges the answer of an action. */
  datatype Check =
    | Default
    | Require(prod: Option<string>, options: seq<string>, invert: bool)
    | Display
    | Save
    | Nothing

  datatype Cmd = GetVar(variable: string) | Erase(part: string) | Flash(part: string) | Signature | NoCmd

  datatype Action = Action(op: Op, cmd: Cmd, check: Check)

  datatype Answer = Answer(status: int, resp: string)

  /** cb_check, without its messages. */
  function Checked(status: int, prod: Option<string>, product: string, matched: bool, invert: bool): int
  {
    if status != 0 then status
    else if prod.Some? && prod.value != product then 0
    else if matched != invert then 0
    else -1
  }

  /** The status an action leaves behind; nothing is asked of the device for a notice or a wait. */
  function Verdict(a: Action, answer: Answer, product: string): int
  {
    if a.op.Notice? || a.op.WaitForDisconnect? || a.check.Nothing? then 0
    else if a.check.Require? then
      Checked(answer.status, a.check.prod, product, Matches(answer.resp, a.check.options), a.check.invert)
    else answer.status
  }

  /** The device is asked something and its answer is judged. */
  predicate Asks(a: Action)
  {
    (a.op.Download? || a.op.Command? || a.op.Query? || a.op.Sparse?) && !a.check.Nothing?
  }

  /** A requirement that is for this product and not met. */
  ghost predicate Unmet(a: Action, resp: string, product: string)
  {
    && a.check.Require? && (a.check.prod == None || a.check.prod == Some(product))
    && (Matches(resp, a.check.options) <==> a.check.invert)
  }

  /** What a status means: an action that asks nothing leaves none, one that the device fails leaves the
      device's, and one that it does not fail leaves one exactly if it states a requirement not met. */
  lemma VerdictMeans(a: Action, answer: Answer, product: string)
    ensures var v := Verdict(a, answer, product);
            && (!Asks(a) ==> v == 0)
            && (Asks(a) && answer.status != 0 ==> v == answer.status)
            && (Asks(a) && answer.status == 0 ==> v == if Unmet(a, answer.resp, product) then -1 else 0)
  {
  }

  /** Everything that was asked was answered with success. */
  ghost predicate AllZero(queue: seq<Action>, log: seq<Answer>)
  {
    forall i :: 0 <= i < |queue| && i < |log| && Asks(queue[i]) ==> log[i].status == 0
  }

  lemma {:induction false} PassedZero(queue: seq<Action>, log: seq<Answer>, product: string)
    requires AllPass(queue, log, product)
    ensures |log| == |queue| && AllZero(queue, log)
  {
    if queue != [] {
      VerdictMeans(queue[0], log[0], product);
      PassedZero(queue[1..], log[1..], Known(queue[0], log[0], product));
      assert forall i :: 0 < i < |queue| ==> queue[i] == queue[1..][i - 1] && log[i] == log[1..][i - 1];
    }
  }

  /** The product known after an action. */
  function Known(a: Action, answer: Answer, product: string): string
  {
    if a.op.Query? && a.check.Save? && answer.status == 0 then answer.resp else product
  }

  /** These answers are those of a run of the queue: it stops right behind the first action that
      leaves a status. */
  ghost predicate IsRun(queue: seq<Action>, log: seq<Answer>, product: string)
  {
    if queue == [] then log == []
    else
      && log != []
      && if Verdict(queue[0], log[0], product) != 0 then |log| == 1
         else IsRun(queue[1..], log[1..], Known(queue[0], log[0], product))
  }

  /** All of the queue was executed and nothing stopped it. */
  ghost predicate AllPass(queue: seq<Action>, log: seq<Answer>, product: string)
  {
    if queue == [] then log == []
    else
      && log != [] && Verdict(queue[0], log[0], product) == 0
      && AllPass(queue[1..], log[1..], Known(queue[0], log[0], product))
  }

  /** The product known after these actions. */
  function After(queue: seq<Action>, log: seq<Answer>, product: string): string
  {
    if queue == [] || log == [] then product
    else After(queue[1..], log[1..], Known(queue[0], log[0], product))
  }

  lemma {:induction false} PassRuns(queue: seq<Action>, log: seq<Answer>, product: string)
    requires AllPass(queue, log, product)
    ensures IsRun(queue, log, product) && |log| == |queue|
  {
    if queue != [] {
      PassRuns(queue[1..], log[1..], Known(queue[0], log[0], product));
    }
  }

  /** Once the first part of a queue has passed, a run of the whole is a run of the rest. */
  lemma {:induction false} RunOn(pre: seq<Action>, post: seq<Action>, done: seq<Answer>, more: seq<Answer>, product: string)
    requires AllPass(pre, done, product)
    ensures IsRun(pre + post, done + more, product) <==> IsRun(post, more, After(pre, done, product))
  {
    if pre == [] {
      assert pre + post == post && done + more == more;
    } else {
      assert (pre + post)[1..] == pre[1..] + post && (done + more)[1..] == done[1..] + more;
      RunOn(pre[1..], post, done[1..], more, Known(pre[0], done[0], product));
    }
  }

  lemma {:induction false} PassSnoc(queue: seq<Action>, log: seq<Answer>, a: Action, answer: Answer, product: string)
    requires AllPass(queue, log, product) && Verdict(a, answer, After(queue, log, product)) == 0
    ensures AllPass(queue + [a], log + [answer], product)
    ensures After(queue + [a], log + [answer], product) == Known(a, answer, After(queue, log, product))
  {
    if queue == [] {
      assert queue + [a] == [a] && log + [answer] == [answer] && [a][1..] == [] && [answer][1..] == [];
    } else {
      assert (queue + [a])[1..] == queue[1..] + [a] && (log + [answer])[1..] == log[1..] + [answer];
      PassSnoc(queue[1..], log[1..], a, answer, Known(queue[0], log[0], product));
    }
  }

  lemma {:induction false} PassAppend(a: seq<Action>, b: seq<Action>, log: seq<Answer>, product: string)
    requires |log| >= |a|
    ensures AllPass(a + b, log, product) <==>
              AllPass(a, log[..|a|], product) && AllPass(b, log[|a|..], After(a, log[..|a|], product))
    ensures |log| == |a| + |b| ==>
              After(a + b, log, product) == After(b, log[|a|..], After(a, log[..|a|], product))
  {
    if a == [] {
      assert a + b == b && log[0..] == log && log[..0] == [];
    } else {
      assert (a + b)[1..] == a[1..] + b;
      assert log[..|a|][1..] == log[1..][..|a| - 1] && log[|a|..] == log[1..][|a| - 1..];
      PassAppend(a[1..], b, log[1..], Known(a[0], log[0], product));
    }
  }

  /** A run executes all of the queue with every status zero, or exactly up to the first action
      that leaves a status. */
  lemma {:induction false} RunPrefix(queue: seq<Action>, log: seq<Answer>, product: string)
    requires IsRun(queue, log, product)
    ensures |log| <= |queue|
    ensures AllPass(queue, log, product) <==> !Stopped(queue, log, product)
  {
    if queue != [] {
      var now := Known(queue[0], log[0], product);
      if Verdict(queue[0], log[0], product) != 0 {
        assert queue[..0] == [] && log[..0] == [];
      } else {
        RunPrefix(queue[1..], log[1..], now);
        if |log| > 1 {
          var n := |log| - 1;
          assert queue[..n][1..] == queue[1..][..n - 1] && log[..n][1..] == log[1..][..n - 1];
        } else {
          assert queue[..0] == [] && log[..0] == [];
        }
      }
    }
  }

  /** All before the last executed action passed, and that one left a status. */
  ghost predicate Stopped(queue: seq<Action>, log: seq<Answer>, product: string)
    requires |log| <= |queue|
  {
    var n := |log| - 1;
    n >= 0 && AllPass(queue[..n], log[..n], product) && Verdict(queue[n], log[n], After(queue[..n], log[..n], product)) != 0
  }

  /** Something behind the first part of a queue is executed if and only if all of the first part
      passed. */
  lemma {:induction false} Gate(pre: seq<Action>, post: seq<Action>, log: seq<Answer>, product: string)
    requires IsRun(pre + post, log, product) && post != []
    ensures |log| > |pre| <==> |log| >= |pre| && AllPass(pre, log[..|pre|], product)
    ensures |log| > |pre| ==> IsRun(post, log[|pre|..], After(pre, log[..|pre|], product))
  {
    if pre == [] {
      assert pre + post == post && log[0..] == log && log[..0] == [];
    } else {
      assert (pre + post)[1..] == pre[1..] + post;
      var v := Verdict(pre[0], log[0], product);
      if v == 0 {
        Gate(pre[1..], post, log[1..], Known(pre[0], log[0], product));
        if |log| >= |pre| {
          assert log[..|pre|][1..] == log[1..][..|pre| - 1] && log[|pre|..] == log[1..][|pre| - 1..];
        }
      }
    }
  }

  // ---- execution ----

  /** What the device says to an action, and how it behaves if the action is a sparse download. */
  datatype Reply = Reply(answer: Answer, device: Device)

  /** Sparse downloads keep the function every action is queued with. */
  predicate Queueable(queue: seq<Action>)
  {
    forall i :: 0 <= i < |queue| && queue[i].op.Sparse? ==> queue[i].check.Default?
  }

  /** The images of the sparse downloads. */
  function Images(queue: seq<Action>): seq<Bytes>
  {
    if queue == [] then []
    else if queue[0].op.Sparse? then [Concat(queue[0].op.pieces)] + Images(queue[1..])
    else Images(queue[1..])
  }

  lemma {:induction false} ImagesSnoc(queue: seq<Action>, a: Action)
    ensures Images(queue + [a]) == Images(queue) + if a.op.Sparse? then [Concat(a.op.pieces)] else []
  {
    if queue == [] {
      assert queue + [a] == [a] && [a][1..] == [];
    } else {
      assert (queue + [a])[1..] == queue[1..] + [a];
      ImagesSnoc(queue[1..], a);
    }
  }

  function ReplyTo(replies: seq<Reply>, i: nat): Reply
  {
    if i < |replies| then replies[i] else Reply(Answer(-1, ""), Device(false, [], false, false))
  }

  /** But for sparse downloads, which have more to say, the log is what the device answered. */
  ghost predicate FromDevice(queue: seq<Action>, log: seq<Answer>, replies: seq<Reply>)
  {
    forall i :: 0 <= i < |log| && i < |queue| && !queue[i].op.Sparse? ==> log[i] == ReplyTo(replies, i).answer
  }

  lemma FromDeviceMore(queue: seq<Action>, log: seq<Answer>, answer: Answer, replies: seq<Reply>)
    requires |log| < |queue| && FromDevice(queue, log, replies)
    requires !queue[|log|].op.Sparse? ==> answer == ReplyTo(replies, |log|).answer
    ensures FromDevice(queue, log + [answer], replies)
  {
  }

  /** All before the last action that was executed was answered with success, and the last one was
      failed by the device or states a requirement that is not met. */
  ghost predicate StoppedBy(queue: seq<Action>, log: seq<Answer>, status: int, product: string)
    requires 0 < |log| <= |queue|
  {
    var n := |log| - 1;
    && AllZero(queue[..n], log[..n]) && Asks(queue[n])
    && if log[n].status != 0 then status == log[n].status
       else status == -1 && Unmet(queue[n], log[n].resp, After(queue[..n], log[..n], product))
  }

  lemma StopsHere(queue: seq<Action>, i: nat, log: seq<Answer>, answer: Answer, status: int, product: string)
    requires i < |queue| && |log| == i && AllPass(queue[..i], log, product)
    requires status == Verdict(queue[i], answer, After(queue[..i], log, product)) != 0
    ensures StoppedBy(queue, log + [answer], status, product)
  {
    PassedZero(queue[..i], log, product);
    VerdictMeans(queue[i], answer, After(queue[..i], log, product));
    assert (log + [answer])[..i] == log;
  }

  lemma RunsHere(queue: seq<Action>, i: nat, log: seq<Answer>, answer: Answer, product: string)
    requires i < |queue| && |log| == i && AllPass(queue[..i], log, product)
    requires Verdict(queue[i], answer, After(queue[..i], log, product)) != 0
    ensures IsRun(queue, log + [answer], product)
  {
    assert queue[..i] + queue[i..] == queue && queue[i..][0] == queue[i];
    RunOn(queue[..i], queue[i..], log, [answer], product);
  }

  lemma PassesHere(queue: seq<Action>, i: nat, log: seq<Answer>, answer: Answer, product: string)
    requires i < |queue| && |log| == i && AllPass(queue[..i], log, product)
    requires Verdict(queue[i], answer, After(queue[..i], log, product)) == 0
    ensures AllPass(queue[..i + 1], log + [answer], product)
    ensures After(queue[..i + 1], log + [answer], product) == Known(queue[i], answer, After(queue[..i], log, product))
    ensures Images(queue[..i + 1])
            == Images(queue[..i]) + if queue[i].op.Sparse? then [Concat(queue[i].op.pieces)] else []
  {
    assert queue[..i + 1] == queue[..i] + [queue[i]];
    PassSnoc(queue[..i], log, queue[i], answer, product);
    ImagesSnoc(queue[..i], queue[i]);
  }

  class Engine {
    const usb: Usb
    var product: string
    // the images the device has received whole, in order
    var received: seq<Bytes>

    constructor ()
      ensures usb.Valid() && usb.len == 0 && product == "" && received == []
    {
      usb := new Usb();
      product, received := "", [];
    }

    /** The answer of one action; a sparse download that succeeds has delivered exactly its image. */
    method Ask(a: Action, reply: Reply) returns (answer: Answer)
      requires usb.Valid() && usb.len == 0
      modifies this`received, usb, usb.buf
      ensures usb.Valid() && (usb.len == 0 || (a.op.Sparse? && answer.status != 0))
      ensures !a.op.Sparse? ==> answer == reply.answer && received == old(received)
      ensures a.op.Sparse? ==>
                received == old(received) + if answer.status == 0 then [Concat(a.op.pieces)] else []
    {
      answer := reply.answer;
      if a.op.Sparse? {
        assert usb.buf[..usb.len] == [];
        var ok := usb.DownloadSparse(a.op.pieces, reply.device);
        answer := Answer(if ok then 0 else -1, "");
        if ok {
          assert Concat(usb.transfers) == Concat(a.op.pieces);
          received := received + [Concat(usb.transfers)];
        }
      }
    }

    method Judge(a: Action, answer: Answer) returns (status: int)
      modifies this`product
      ensures status == Verdict(a, answer, old(product)) && product == Known(a, answer, old(product))
      ensures !Asks(a) ==> status == 0
      ensures Asks(a) && answer.status != 0 ==> status == answer.status
      ensures Asks(a) && answer.status == 0 ==> status == if Unmet(a, answer.resp, old(product)) then -1 else 0
    {
      VerdictMeans(a, answer, product);
      status := 0;
      if !a.op.Notice? && !a.op.WaitForDisconnect? {
        match a.check {
          case Require(prod, options, invert) =>
            var yes := Match(answer.resp, options);
            status := Checked(answer.status, prod, product, yes, invert);
          case Nothing =>
          case _ =>
            status := answer.status;
        }
      }
      if a.op.Query? && a.check.Save? && status == 0 {
        product := answer.resp;
      }
    }

    /** fb_execute_queue: the answers are those of a run of the queue, and every sparse download
        that did not stop it has delivered exactly its image. */
    method ExecuteQueue(queue: seq<Action>, replies: seq<Reply>) returns (status: int, log: seq<Answer>)
      requires usb.Valid() && usb.len == 0 && Queueable(queue)
      modifies this`product, this`received, usb, usb.buf
      ensures IsRun(queue, log, old(product))
      ensures status == 0 ==> |log| == |queue| && AllPass(queue, log, old(product)) && usb.Valid() && usb.len == 0
      ensures status != 0 ==> log != [] && |log| <= |queue|
      ensures status == 0 ==> received == old(received) + Images(queue)
      ensures status != 0 ==> received == old(received) + Images(queue[..|log| - 1])
      ensures FromDevice(queue, log, replies)
      ensures status == 0 ==> AllZero(queue, log)
      ensures status != 0 ==> StoppedBy(queue, log, status, old(product))
    {
      status, log := 0, [];
      var i := 0;
      assert queue[..0] == [];
      while i < |queue|
        invariant i <= |queue| && |log| == i && usb.Valid() && usb.len == 0
        invariant received == old(received) + Images(queue[..i])
        invariant AllPass(queue[..i], log, old(product)) && product == After(queue[..i], log, old(product))
        invariant FromDevice(queue, log, replies)
      {
        var a := queue[i];
        var answer := Ask(a, ReplyTo(replies, i));
        status := Judge(a, answer);
        FromDeviceMore(queue, log, answer, replies);
        if status != 0 {
          StopsHere(queue, i, log, answer, status, old(product));
          RunsHere(queue, i, log, answer, old(product));
          return status, log + [answer];
        }
        PassesHere(queue, i, log, answer, old(product));
        log, i := log + [answer], i + 1;
      }
      assert queue[..i] == queue;
      PassRuns(queue, log, old(product));
      PassedZero(queue, log, old(product));
    }
  }
}
