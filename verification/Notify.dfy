/** A notification: escalation step by step, resends, acknowledgement. */
module Notify {

  import opened Wrappers

  const UNKNOWN := 0
  const CLEAR := 1
  const CRITICAL := 5

  type Flags = s: seq<bool> | |s| == CRITICAL + 1 witness [false, false, false, false, false, false]

  datatype Conf = Conf(renotify: int, unAckTimeout: int, autoAck: Flags, ackOnUp: Flags, ackOnBetter: Flags, ackOnWorse: Flags)

  /** One line of the escalation table: when, to whom, and when last sent (0 for never). */
  datatype Step = Step(when: int, dst: seq<string>, last: int)

  datatype Line = Line(at: int, who: string, msg: string)

  /** The notification was put, for one step, in the queues of that step's destinations. */
  datatype Queueing = Queueing(step: nat, at: int)

  // ---- histories ----

  /** When a step was last queued. */
  function LastAt(h: seq<Queueing>, step: nat): Option<int> {
    if h == [] then None
    else if h[|h| - 1].step == step then Some(h[|h| - 1].at)
    else LastAt(h[..|h| - 1], step)
  }

  /** The steps in the order in which each was first queued. */
  function Firsts(h: seq<Queueing>): seq<nat> {
    if h == [] then []
    else
      var p := h[..|h| - 1];
      var step := h[|h| - 1].step;
      Firsts(p) + if LastAt(p, step) == None then [step] else []
  }

  /** How the code decides on each queueing, from what was queued before: the next step when due, or a resend. */
  predicate Paced(h: seq<Queueing>, due: seq<int>, renotify: int) {
    h != [] ==>
      var p := h[..|h| - 1];
      var e := h[|h| - 1];
      && Paced(p, due, renotify)
      && match LastAt(p, e.step)
         case None => e.step == |Firsts(p)| < |due| && due[e.step] <= e.at
         case Some(t) => renotify != 0 && t + renotify <= e.at
  }

  lemma {:induction false} LastAtAppend(h: seq<Queueing>, e: Queueing, step: nat)
    ensures LastAt(h + [e], step) == if e.step == step then Some(e.at) else LastAt(h, step)
  {
    assert (h + [e])[..|h|] == h;
  }

  lemma {:induction false} LastAtSome(h: seq<Queueing>, k: nat)
    requires k < |h|
    ensures LastAt(h, h[k].step) != None
  {
    if k != |h| - 1 {
      LastAtSome(h[..|h| - 1], k);
    }
  }

  /** A step with a last queueing has an entry saying so. */
  lemma {:induction false} LastAtWhere(h: seq<Queueing>, step: nat) returns (k: nat)
    requires LastAt(h, step) != None
    ensures k < |h| && h[k] == Queueing(step, LastAt(h, step).value)
  {
    if h[|h| - 1].step == step {
      k := |h| - 1;
    } else {
      k := LastAtWhere(h[..|h| - 1], step);
    }
  }

  /** Steps are first queued in the order of the table, each once, none skipped. */
  lemma {:induction false} InOrderOnceEach(h: seq<Queueing>, due: seq<int>, renotify: int)
    requires Paced(h, due, renotify)
    ensures |Firsts(h)| <= |due|
    ensures forall i :: 0 <= i < |Firsts(h)| ==> Firsts(h)[i] == i
    ensures forall s: nat :: LastAt(h, s) != None <==> s < |Firsts(h)|
  {
    if h != [] {
      var p, e := h[..|h| - 1], h[|h| - 1];
      InOrderOnceEach(p, due, renotify);
      assert h == p + [e];
      forall s: nat ensures LastAt(h, s) == if e.step == s then Some(e.at) else LastAt(p, s) {
        LastAtAppend(p, e, s);
      }
    }
  }

  /** No step is queued before its time. */
  lemma {:induction false} NeverEarly(h: seq<Queueing>, due: seq<int>, renotify: int, k: nat)
    requires Paced(h, due, renotify) && renotify >= 0 && k < |h|
    ensures h[k].step < |due| && due[h[k].step] <= h[k].at
  {
    var p, e := h[..|h| - 1], h[|h| - 1];
    if k < |p| {
      NeverEarly(p, due, renotify, k);
    } else if LastAt(p, e.step) != None {
      var j := LastAtWhere(p, e.step);
      NeverEarly(p, due, renotify, j);
    }
  }

  /** The last queueing of a step is the latest. */
  lemma {:induction false} LastIsLatest(h: seq<Queueing>, due: seq<int>, renotify: int, j: nat)
    requires Paced(h, due, renotify) && renotify >= 0 && j < |h|
    ensures LastAt(h, h[j].step) != None && h[j].at <= LastAt(h, h[j].step).value
  {
    var p, e := h[..|h| - 1], h[|h| - 1];
    if j < |p| {
      LastIsLatest(p, due, renotify, j);
    }
  }

  /** Two queueings of one step are a resend interval apart; without resends there are never two. */
  lemma {:induction false} ResendsApart(h: seq<Queueing>, due: seq<int>, renotify: int, j: nat, k: nat)
    requires Paced(h, due, renotify) && renotify >= 0 && j < k < |h| && h[j].step == h[k].step
    ensures renotify > 0 && h[j].at + renotify <= h[k].at
  {
    var p := h[..|h| - 1];
    if k < |p| {
      ResendsApart(p, due, renotify, j, k);
    } else {
      LastIsLatest(p, due, renotify, j);
    }
  }

  lemma Regroup<T>(a: seq<T>, b: seq<T>, c: seq<T>)
    ensures a + b + c == a + (b + c)
  {
  }

  // ---- lines of the log ----

  function StepLines(dst: seq<string>, reached: set<string>, at: int): seq<Line> {
    if dst == [] then []
    else
      var d := dst[|dst| - 1];
      StepLines(dst[..|dst| - 1], reached, at) + [Line(at, d, if d in reached then "queued" else "failed")]
  }

  /** One line for each destination, in order, saying whether there was a way to reach it. */
  lemma {:induction false} StepLinesMean(dst: seq<string>, reached: set<string>, at: int)
    ensures |StepLines(dst, reached, at)| == |dst|
    ensures forall k :: 0 <= k < |dst| ==>
                          && StepLines(dst, reached, at)[k].at == at && StepLines(dst, reached, at)[k].who == dst[k]
                          && (dst[k] in reached ==> StepLines(dst, reached, at)[k].msg == "queued")
                          && (dst[k] !in reached ==> StepLines(dst, reached, at)[k].msg == "failed")
  {
    if dst != [] {
      StepLinesMean(dst[..|dst| - 1], reached, at);
    }
  }

  /** What a history writes to the log. */
  function Lines(h: seq<Queueing>, dsts: seq<seq<string>>, reached: set<string>): seq<Line> {
    if h == [] then []
    else
      var e := h[|h| - 1];
      Lines(h[..|h| - 1], dsts, reached) + if e.step < |dsts| then StepLines(dsts[e.step], reached, e.at) else []
  }

  /** The log's lines about queueing. */
  function Sends(log: seq<Line>): seq<Line> {
    if log == [] then []
    else
      var l := log[|log| - 1];
      Sends(log[..|log| - 1]) + if l.msg == "queued" || l.msg == "failed" then [l] else []
  }

  lemma SendsAppend(log: seq<Line>, l: Line)
    ensures Sends(log + [l]) == Sends(log) + if l.msg == "queued" || l.msg == "failed" then [l] else []
  {
    assert (log + [l])[..|log|] == log;
  }

  lemma StepLinesAppend(dst: seq<string>, n: nat, reached: set<string>, at: int)
    requires n < |dst|
    ensures StepLines(dst[..n + 1], reached, at)
         == StepLines(dst[..n], reached, at) + [Line(at, dst[n], if dst[n] in reached then "queued" else "failed")]
  {
    assert dst[..n + 1][..n] == dst[..n];
  }

  lemma LinesAppend(h: seq<Queueing>, e: Queueing, dsts: seq<seq<string>>, reached: set<string>)
    requires e.step < |dsts|
    ensures Lines(h + [e], dsts, reached) == Lines(h, dsts, reached) + StepLines(dsts[e.step], reached, e.at)
  {
    assert (h + [e])[..|h|] == h;
  }

  /** The destinations some method delivers to. */
  function Deliverable(dst: seq<string>, reached: set<string>): (out: seq<string>)
    ensures forall d :: d in out <==> d in dst && d in reached
  {
    if dst == [] then []
    else
      var d := dst[|dst| - 1];
      Deliverable(dst[..|dst| - 1], reached) + if d in reached then [d] else []
  }

  /** They keep their order: those of some destinations come before those of later ones. */
  lemma {:induction false} DeliverableInOrder(a: seq<string>, b: seq<string>, reached: set<string>)
    ensures Deliverable(a + b, reached) == Deliverable(a, reached) + Deliverable(b, reached)
  {
    if b == [] {
      assert a + b == a;
    } else {
      var k := |b| - 1;
      DeliverableInOrder(a, b[..k], reached);
      assert b[..k + 1] == b && a + b == a + b[..k] + [b[k]];
      Regroup(Deliverable(a, reached), Deliverable(b[..k], reached), if b[k] in reached then [b[k]] else []);
      DeliverableOne(a + b[..k], b[k], reached);
      DeliverableOne(b[..k], b[k], reached);
    }
  }

  lemma DeliverableOne(a: seq<string>, d: string, reached: set<string>)
    ensures Deliverable(a + [d], reached) == Deliverable(a, reached) + if d in reached then [d] else []
  {
    assert (a + [d])[..|a|] == a;
  }

  /** All of them, where all can be reached. */
  lemma {:induction false} DeliverableAll(a: seq<string>, reached: set<string>)
    requires forall d :: d in a ==> d in reached
    ensures Deliverable(a, reached) == a
  {
    if a != [] {
      var p := a[..|a| - 1];
      forall k | 0 <= k < |p| ensures p[k] in reached {
        assert p[k] == a[k];
      }
      DeliverableAll(p, reached);
      assert a[|a| - 1] in reached && a == p + [a[|a| - 1]];
    }
  }

  lemma DeliverableAppend(dst: seq<string>, n: nat, reached: set<string>)
    requires n < |dst|
    ensures Deliverable(dst[..n + 1], reached)
         == if dst[n] in reached then Deliverable(dst[..n], reached) + [dst[n]] else Deliverable(dst[..n], reached)
  {
    assert dst[..n + 1][..n] == dst[..n];
  }

  /** The queues a history put the notification in. */
  function Batch(h: seq<Queueing>, dsts: seq<seq<string>>, reached: set<string>): seq<string> {
    if h == [] then []
    else
      var e := h[|h| - 1];
      Batch(h[..|h| - 1], dsts, reached) + if e.step < |dsts| then Deliverable(dsts[e.step], reached) else []
  }

  lemma BatchAppend(h: seq<Queueing>, e: Queueing, dsts: seq<seq<string>>, reached: set<string>)
    requires e.step < |dsts|
    ensures Batch(h + [e], dsts, reached) == Batch(h, dsts, reached) + Deliverable(dsts[e.step], reached)
  {
    assert (h + [e])[..|h|] == h;
  }

  /** A status map with some destinations marked. */
  function Marked(status: map<string, string>, ds: seq<string>, mark: string): map<string, string> {
    if ds == [] then status else Marked(status, ds[..|ds| - 1], mark)[ds[|ds| - 1] := mark]
  }

  lemma MarkedAppend(status: map<string, string>, ds: seq<string>, d: string, mark: string)
    ensures Marked(status, ds + [d], mark) == Marked(status, ds, mark)[d := mark]
  {
    assert (ds + [d])[..|ds|] == ds;
  }

  lemma {:induction false} MarkedAll(status: map<string, string>, ds: seq<string>, mark: string)
    ensures forall d :: d in Marked(status, ds, mark) <==> d in status || d in ds
    ensures forall d :: d in Marked(status, ds, mark) ==>
                          Marked(status, ds, mark)[d] == if d in ds then mark else status[d]
  {
    if ds != [] {
      MarkedAll(status, ds[..|ds| - 1], mark);
      assert ds == ds[..|ds| - 1] + [ds[|ds| - 1]];
    }
  }

  // ---- the books ----

  function Dues(steps: seq<Step>, created: int): seq<int> {
    seq(|steps|, i requires 0 <= i < |steps| => created + steps[i].when)
  }

  function Lasts(steps: seq<Step>): seq<int> {
    seq(|steps|, i requires 0 <= i < |steps| => steps[i].last)
  }

  function Dsts(steps: seq<Step>): seq<seq<string>> {
    seq(|steps|, i requires 0 <= i < |steps| => steps[i].dst)
  }

  lemma Stamped(steps: seq<Step>, created: int, i: nat, now: int)
    requires i < |steps|
    ensures Lasts(steps[i := steps[i].(last := now)]) == Lasts(steps)[i := now]
    ensures Dues(steps[i := steps[i].(last := now)], created) == Dues(steps, created)
    ensures Dsts(steps[i := steps[i].(last := now)]) == Dsts(steps)
  {
  }

  /** What a notification remembers about its sending: the history, the table, the log's lines, the queues it is in. */
  datatype Book = Book(hist: seq<Queueing>, steps: seq<Step>, stepNo: nat, escalated: bool,
                       sends: seq<Line>, queues: seq<string>)
  {
    /** How many steps of the table have been taken. */
    function Taken(): nat {
      if stepNo <= |steps| then stepNo else |steps|
    }

    /** The fields say what the history says. */
    ghost predicate Good(created: int, renotify: int, reached: set<string>) {
      && Lawful(hist, Dues(steps, created), renotify, Lasts(steps), stepNo, escalated)
      && sends == Lines(hist, Dsts(steps), reached)
      && queues == Batch(hist, Dsts(steps), reached)
    }
  }

  ghost predicate Lawful(h: seq<Queueing>, due: seq<int>, renotify: int, lasts: seq<int>, stepNo: int, escalated: bool) {
    && |lasts| == |due|
    && Paced(h, due, renotify)
    && stepNo == |Firsts(h)| <= |due|
    && (forall i :: 0 <= i < stepNo ==> LastAt(h, i) == Some(lasts[i]))
    && (escalated <==> |Firsts(h)| >= 2)
  }

  /** One step goes to the queues, and is stamped. */
  function Sent(b: Book, step: nat, now: int, reached: set<string>): Book
    requires step < |b.steps|
  {
    b.(hist := b.hist + [Queueing(step, now)],
       steps := b.steps[step := b.steps[step].(last := now)],
       sends := b.sends + StepLines(b.steps[step].dst, reached, now),
       queues := b.queues + Deliverable(b.steps[step].dst, reached))
  }

  /** The first send or the next escalation, when its time has come. */
  function Advanced(b: Book, created: int, now: int, reached: set<string>): Book {
    if b.stepNo < |b.steps| && b.steps[b.stepNo].when + created <= now then
      Sent(b, b.stepNo, now, reached).(stepNo := b.stepNo + 1, escalated := b.escalated || b.stepNo > 0)
    else b
  }

  predicate ResendDue(s: Step, renotify: int, now: int) {
    s.last != 0 && s.last + renotify <= now
  }

  /** The resends due among the first `n` steps. */
  function Again(b: Book, n: nat, renotify: int, now: int, reached: set<string>): (r: Book)
    requires n <= |b.steps|
    ensures |r.steps| == |b.steps| && r.stepNo == b.stepNo && r.escalated == b.escalated
    ensures forall k :: n <= k < |b.steps| ==> r.steps[k] == b.steps[k]
  {
    if n == 0 then b
    else
      var p := Again(b, n - 1, renotify, now, reached);
      if ResendDue(p.steps[n - 1], renotify, now) then Sent(p, n - 1, now, reached) else p
  }

  // ---- the books stay right ----

  lemma SentLines(b: Book, step: nat, now: int, created: int, reached: set<string>)
    requires step < |b.steps|
    requires b.sends == Lines(b.hist, Dsts(b.steps), reached) && b.queues == Batch(b.hist, Dsts(b.steps), reached)
    ensures var r := Sent(b, step, now, reached);
            && r.sends == Lines(r.hist, Dsts(r.steps), reached) && r.queues == Batch(r.hist, Dsts(r.steps), reached)
            && Dues(r.steps, created) == Dues(b.steps, created) && Lasts(r.steps) == Lasts(b.steps)[step := now]
  {
    Stamped(b.steps, created, step, now);
    LinesAppend(b.hist, Queueing(step, now), Dsts(b.steps), reached);
    BatchAppend(b.hist, Queueing(step, now), Dsts(b.steps), reached);
  }

  /** The next step, when due. */
  lemma StepTaken(h: seq<Queueing>, due: seq<int>, renotify: int, lasts: seq<int>, stepNo: int, escalated: bool, now: int)
    requires Lawful(h, due, renotify, lasts, stepNo, escalated)
    requires stepNo < |due| && due[stepNo] <= now
    ensures Lawful(h + [Queueing(stepNo, now)], due, renotify, lasts[stepNo := now], stepNo + 1, escalated || stepNo > 0)
  {
    var e := Queueing(stepNo, now);
    InOrderOnceEach(h, due, renotify);
    assert (h + [e])[..|h|] == h;
    forall i | 0 <= i < stepNo + 1 ensures LastAt(h + [e], i) == Some(lasts[stepNo := now][i]) {
      LastAtAppend(h, e, i);
    }
  }

  /** A step already taken, sent again. */
  lemma Resent(h: seq<Queueing>, due: seq<int>, renotify: int, lasts: seq<int>, stepNo: int, escalated: bool, i: nat, now: int)
    requires Lawful(h, due, renotify, lasts, stepNo, escalated)
    requires i < stepNo && renotify != 0 && lasts[i] + renotify <= now
    ensures Lawful(h + [Queueing(i, now)], due, renotify, lasts[i := now], stepNo, escalated)
  {
    var e := Queueing(i, now);
    assert (h + [e])[..|h|] == h;
    forall j | 0 <= j < stepNo ensures LastAt(h + [e], j) == Some(lasts[i := now][j]) {
      LastAtAppend(h, e, j);
    }
  }

  lemma AdvancedGood(b: Book, created: int, renotify: int, now: int, reached: set<string>)
    requires b.Good(created, renotify, reached)
    ensures Advanced(b, created, now, reached).Good(created, renotify, reached)
    ensures Dues(Advanced(b, created, now, reached).steps, created) == Dues(b.steps, created)
  {
    if b.stepNo < |b.steps| && b.steps[b.stepNo].when + created <= now {
      SentLines(b, b.stepNo, now, created, reached);
      StepTaken(b.hist, Dues(b.steps, created), renotify, Lasts(b.steps), b.stepNo, b.escalated, now);
    }
  }

  lemma {:induction false} AgainGood(b: Book, n: nat, created: int, renotify: int, now: int, reached: set<string>)
    returns (r: Book)
    requires b.Good(created, renotify, reached) && renotify != 0 && n <= b.stepNo <= |b.steps|
    ensures r == Again(b, n, renotify, now, reached)
    ensures r.Good(created, renotify, reached)
    ensures b.hist <= r.hist && Dues(r.steps, created) == Dues(b.steps, created)
  {
    if n == 0 {
      r := b;
    } else {
      var p := AgainGood(b, n - 1, created, renotify, now, reached);
      if ResendDue(p.steps[n - 1], renotify, now) {
        r := Sent(p, n - 1, now, reached);
        SentGood(p, r, n - 1, created, renotify, now, reached);
      } else {
        r := p;
      }
    }
  }

  lemma SentGood(b: Book, r: Book, i: nat, created: int, renotify: int, now: int, reached: set<string>)
    requires b.Good(created, renotify, reached) && renotify != 0 && i < b.stepNo <= |b.steps|
    requires b.steps[i].last + renotify <= now && r == Sent(b, i, now, reached)
    ensures r.Good(created, renotify, reached) && Dues(r.steps, created) == Dues(b.steps, created)
  {
    SentLines(b, i, now, created, reached);
    Resent(b.hist, Dues(b.steps, created), renotify, Lasts(b.steps), b.stepNo, b.escalated, i, now);
  }

  /** A whole pass: the next step, then the resends. */
  function Passed(b: Book, created: int, renotify: int, now: int, reached: set<string>): Book {
    var a := Advanced(b, created, now, reached);
    if renotify == 0 then a else Again(a, a.Taken(), renotify, now, reached)
  }

  /** A pass keeps the books right and only adds to the history. */
  lemma PassedGood(b: Book, r: Book, created: int, renotify: int, now: int, reached: set<string>)
    requires b.Good(created, renotify, reached) && r == Passed(b, created, renotify, now, reached)
    ensures r.Good(created, renotify, reached) && b.hist <= r.hist
    ensures Dues(r.steps, created) == Dues(b.steps, created)
  {
    AdvancedGood(b, created, renotify, now, reached);
    var a := Advanced(b, created, now, reached);
    if renotify != 0 {
      var again := AgainGood(a, a.stepNo, created, renotify, now, reached);
    }
  }

  lemma {:induction false} AgainAll(b: Book, n: nat, renotify: int, now: int, reached: set<string>)
    requires n <= |b.steps| && renotify > 0
    ensures forall k :: 0 <= k < n ==> !ResendDue(Again(b, n, renotify, now, reached).steps[k], renotify, now)
  {
    if n > 0 {
      AgainAll(b, n - 1, renotify, now, reached);
    }
  }

  /** A pass sends everything that is due: the next step if its time has come, and every resend. */
  lemma NothingLeftDue(b: Book, r: Book, created: int, renotify: int, now: int, reached: set<string>)
    requires b.Good(created, renotify, reached) && r == Passed(b, created, renotify, now, reached)
    ensures r.stepNo == b.stepNo + if b.stepNo < |b.steps| && created + b.steps[b.stepNo].when <= now then 1 else 0
    ensures renotify > 0 ==>
              forall k :: 0 <= k < r.stepNo <= |r.steps| ==> r.steps[k].last == 0 || now < r.steps[k].last + renotify
  {
    var a := Advanced(b, created, now, reached);
    if renotify > 0 {
      AgainAll(a, a.Taken(), renotify, now, reached);
    }
  }

  class N {
    const cf: Conf
    const created: int
    const ovStatus: nat           // the status that caused it
    const reached: set<string>    // the destinations some method delivers to
    var isActive: bool
    var stepNo: nat
    var escalated: bool
    var currOv: nat               // the status now
    var sendTo: seq<Step>
    var status: map<string, string>
    var log: seq<Line>
    var queues: seq<string>       // the destination queues it was put in, in order
    ghost var hist: seq<Queueing>

    ghost function Books(): Book
      reads this
    {
      Book(hist, sendTo, stepNo, escalated, Sends(log), queues)
    }

    constructor (cf: Conf, created: int, ovStatus: nat, reached: set<string>, sendTo: seq<Step>)
      requires forall i :: 0 <= i < |sendTo| ==> sendTo[i].last == 0
      ensures Life(Books(), isActive) == Fresh(sendTo) && this.cf == cf && this.created == created && this.reached == reached
    {
      this.cf, this.created, this.ovStatus, this.reached := cf, created, ovStatus, reached;
      isActive, stepNo, escalated, currOv, this.sendTo := true, 0, false, ovStatus, sendTo;
      status, log, hist, queues := map[], [Line(created, "system", "created")], [], [];
      new;
      SendsAppend([], Line(created, "system", "created"));
      assert log == [] + [Line(created, "system", "created")];
    }

    /** Put the notification in the queues of a step's destinations. */
    method AddToQueue(dst: seq<string>, now: int)
      modifies this`status, this`log, this`queues
      ensures Sends(log) == old(Sends(log)) + StepLines(dst, reached, now)
      ensures queues == old(queues) + Deliverable(dst, reached)
      ensures status == Marked(old(status), Deliverable(dst, reached), "queued")
    {
      ghost var lines, qs, marks := Sends(log), queues, status;
      for k := 0 to |dst|
        invariant Sends(log) == lines + StepLines(dst[..k], reached, now)
        invariant queues == qs + Deliverable(dst[..k], reached)
        invariant status == Marked(marks, Deliverable(dst[..k], reached), "queued")
      {
        ghost var d, done, said := dst[k], Deliverable(dst[..k], reached), StepLines(dst[..k], reached, now);
        StepLinesAppend(dst, k, reached, now);
        DeliverableAppend(dst, k, reached);
        MarkedAppend(marks, done, d, "queued");
        Regroup(qs, done, [d]);
        Regroup(lines, said, [Line(now, d, if d in reached then "queued" else "failed")]);
        AddOne(dst[k], now);
      }
      assert dst[..|dst|] == dst;
    }

    method AddOne(d: string, now: int)
      modifies this`status, this`log, this`queues
      ensures Sends(log) == old(Sends(log)) + [Line(now, d, if d in reached then "queued" else "failed")]
      ensures queues == if d in reached then old(queues) + [d] else old(queues)
      ensures status == if d in reached then old(status)[d := "queued"] else old(status)
    {
      var l := Line(now, d, if d in reached then "queued" else "failed");
      SendsAppend(log, l);
      log := log + [l];
      if d in reached {
        queues := queues + [d];
        status := status[d := "queued"];
      }
    }

    /** Send what is due: the next step of the table, then every resend. */
    method MaybeQueue(now: int)
      modifies this`status, this`log, this`queues, this`sendTo, this`stepNo, this`escalated, this`hist
      ensures Books() == if isActive then Passed(old(Books()), created, cf.renotify, now, reached) else old(Books())
      ensures !isActive ==> status == old(status)
    {
      if !isActive {
        return;
      }
      QueueNext(now);
      if cf.renotify == 0 {
        return;
      }
      Resend(now);
    }

    method QueueNext(now: int)
      modifies this`status, this`log, this`queues, this`sendTo, this`stepNo, this`escalated, this`hist
      ensures Books() == Advanced(old(Books()), created, now, reached)
    {
      if |sendTo| > stepNo {
        if sendTo[stepNo].when + created <= now {
          SendStep(stepNo, now);
          if stepNo > 0 {
            escalated := true;
          }
          stepNo := stepNo + 1;
        }
      }
    }

    method Resend(now: int)
      modifies this`status, this`log, this`queues, this`sendTo, this`hist
      ensures Books() == Again(old(Books()), old(Books()).Taken(), cf.renotify, now, reached)
    {
      ghost var first := Books();
      var i := 0;
      while i < |sendTo|
        invariant i <= first.Taken() && stepNo == first.stepNo && |sendTo| == |first.steps|
        invariant Books() == Again(first, i, cf.renotify, now, reached)
      {
        if i >= stepNo {
          break;
        }
        if sendTo[i].last != 0 && sendTo[i].last + cf.renotify <= now {
          SendStep(i, now);
        }
        i := i + 1;
      }
    }

    method SendStep(step: nat, now: int)
      requires step < |sendTo|
      modifies this`status, this`log, this`queues, this`sendTo, this`hist
      ensures Books() == Sent(old(Books()), step, now, reached)
    {
      sendTo := sendTo[step := sendTo[step].(last := now)];
      AddToQueue(sendTo[step].dst, now);
      hist := hist + [Queueing(step, now)];
    }

    /** Acknowledged: no longer active, and every destination knows. */
    method Ack(who: string, now: int)
      modifies this`isActive, this`log, this`status
      ensures !isActive && Books() == old(Books())
      ensures log == old(log) + [Line(now, who, "acked")]
      ensures status.Keys == old(status).Keys && forall d :: d in status ==> status[d] == "acked"
    {
      isActive := false;
      SendsAppend(log, Line(now, who, "acked"));
      log := log + [Line(now, who, "acked")];
      status := map d | d in status :: "acked";
    }

    /** The status changed: acknowledge if the configuration says so for this kind of change. */
    method MaybeAck(now: int)
      modifies this`isActive, this`log, this`status
      ensures Books() == old(Books())
      ensures isActive == (old(isActive) && !AcksChange(cf, ovStatus, currOv))
      ensures !AcksChange(cf, ovStatus, currOv) ==> status == old(status)
    {
      if currOv == CLEAR && ovStatus <= CRITICAL {
        if cf.ackOnUp[ovStatus] || cf.ackOnUp[UNKNOWN] {
          Ack("auto", now);
          return;
        }
      }
      if currOv > ovStatus && ovStatus <= CRITICAL {
        if cf.ackOnWorse[ovStatus] || cf.ackOnWorse[UNKNOWN] {
          Ack("auto", now);
          return;
        }
      }
      if currOv < ovStatus && ovStatus <= CRITICAL {
        if cf.ackOnBetter[ovStatus] || cf.ackOnBetter[UNKNOWN] {
          Ack("auto", now);
          return;
        }
      }
    }

    /** After a delivery: some statuses need no answer. */
    method MaybeAutoAck(now: int)
      modifies this`isActive, this`log, this`status
      ensures Books() == old(Books())
      ensures isActive == (old(isActive) && !(ovStatus <= CRITICAL && (cf.autoAck[ovStatus] || cf.autoAck[UNKNOWN])))
    {
      if ovStatus > CRITICAL {
        return;
      }
      if cf.autoAck[ovStatus] || cf.autoAck[UNKNOWN] {
        Ack("auto", now);
      }
    }

    /** An active notification learns its monitor's new status. */
    method UpdateStatus(st: nat) returns (told: bool)
      modifies this`currOv
      ensures told == isActive && currOv == if isActive then st else old(currOv)
    {
      if !isActive {
        return false;
      }
      currOv := st;
      return true;
    }

    /** One round of maintenance over an active notification: too old without an answer, or send what is due. */
    method Maintain(now: int)
      requires isActive
      modifies this`status, this`log, this`queues, this`sendTo, this`stepNo, this`escalated, this`hist, this`isActive
      ensures var late := cf.unAckTimeout > 0 && created + cf.unAckTimeout < now;
              && isActive == !late
              && Books() == if late then old(Books()) else Passed(old(Books()), created, cf.renotify, now, reached)
    {
      if cf.unAckTimeout > 0 && created + cf.unAckTimeout < now {
        Ack("timeout", now);
      } else {
        MaybeQueue(now);
      }
    }
  }

  /** The changes the configuration acknowledges by itself. */
  predicate AcksChange(cf: Conf, was: nat, st: nat) {
    was <= CRITICAL
    && (|| (st == CLEAR && (cf.ackOnUp[was] || cf.ackOnUp[UNKNOWN]))
        || (st > was && (cf.ackOnWorse[was] || cf.ackOnWorse[UNKNOWN]))
        || (st < was && (cf.ackOnBetter[was] || cf.ackOnBetter[UNKNOWN])))
  }

  /**
   * Recovery, worsening and improvement each have their own setting, by the status that caused the notification or for
   * all; recovery counts as what it is, and as the change it is. Where nothing has changed there is nothing to do, and
   * the overriding statuses, above critical, have no settings.
   */
  lemma AcksExactly(cf: Conf, was: nat, st: nat)
    ensures was > 5 ==> !AcksChange(cf, was, st)
    ensures was <= 5 ==>
            var up, better, worse := cf.ackOnUp[was] || cf.ackOnUp[0], cf.ackOnBetter[was] || cf.ackOnBetter[0],
                                     cf.ackOnWorse[was] || cf.ackOnWorse[0];
            && (was != 1 && was == st ==> !AcksChange(cf, was, st))
            && (st != 1 && st > was ==> AcksChange(cf, was, st) == worse)
            && (st != 1 && st < was ==> AcksChange(cf, was, st) == better)
            && (st == 1 < was ==> AcksChange(cf, was, st) == (up || better))
            && (was == 0 && st == 1 ==> AcksChange(cf, was, st) == (up || worse))
            && (was == 1 && st == 1 ==> AcksChange(cf, was, st) == up)
  {
  }

  // ---- whole runs ----

  datatype Event = Queue(now: int) | Acked | Other

  datatype Life = Life(book: Book, active: bool)

  /** What each call does to the books and to being active. */
  function Next(l: Life, e: Event, created: int, renotify: int, reached: set<string>): Life {
    match e
    case Queue(now) => if l.active then l.(book := Passed(l.book, created, renotify, now, reached)) else l
    case Acked => l.(active := false)
    case Other => l
  }

  function Run(l: Life, es: seq<Event>, created: int, renotify: int, reached: set<string>): Life {
    if es == [] then l
    else Next(Run(l, es[..|es| - 1], created, renotify, reached), es[|es| - 1], created, renotify, reached)
  }

  function Fresh(steps: seq<Step>): Life {
    Life(Book([], steps, 0, false, [], []), true)
  }

  lemma {:induction false} RunGood(l: Life, es: seq<Event>, created: int, renotify: int, reached: set<string>) returns (r: Life)
    requires l.book.Good(created, renotify, reached)
    ensures r == Run(l, es, created, renotify, reached)
    ensures r.book.Good(created, renotify, reached) && l.book.hist <= r.book.hist
    ensures Dues(r.book.steps, created) == Dues(l.book.steps, created)
  {
    if es == [] {
      r := l;
    } else {
      var p := RunGood(l, es[..|es| - 1], created, renotify, reached);
      var e := es[|es| - 1];
      r := Next(p, e, created, renotify, reached);
      if e.Queue? && p.active {
        PassedGood(p.book, r.book, created, renotify, e.now, reached);
      }
    }
  }

  /**
   * Over every run: steps are first queued in the order of the table, once each and none skipped; never before
   * their time; two queueings of one step are a resend interval apart; and `escalated` says that two steps went out.
   */
  lemma WholeRun(steps: seq<Step>, es: seq<Event>, created: int, renotify: int, reached: set<string>)
    requires renotify >= 0
    ensures var b := Run(Fresh(steps), es, created, renotify, reached).book;
            && |Firsts(b.hist)| <= |steps|
            && (forall i :: 0 <= i < |Firsts(b.hist)| ==> Firsts(b.hist)[i] == i)
            && (forall k :: 0 <= k < |b.hist| ==>
                              b.hist[k].step < |steps| && created + steps[b.hist[k].step].when <= b.hist[k].at)
            && (forall j, k :: 0 <= j < k < |b.hist| && b.hist[j].step == b.hist[k].step ==>
                                 renotify > 0 && b.hist[j].at + renotify <= b.hist[k].at)
            && (b.escalated <==> |Firsts(b.hist)| >= 2)
            && b.queues == Batch(b.hist, Dsts(b.steps), reached)
  {
    var r := RunGood(Fresh(steps), es, created, renotify, reached);
    RightHistory(r.book.hist, Dues(steps, created), renotify);
    forall k | 0 <= k < |r.book.hist|
      ensures r.book.hist[k].step < |steps| && created + steps[r.book.hist[k].step].when <= r.book.hist[k].at
    {
      NeverEarly(r.book.hist, Dues(steps, created), renotify, k);
    }
  }

  lemma RightHistory(h: seq<Queueing>, due: seq<int>, renotify: int)
    requires Paced(h, due, renotify) && renotify >= 0
    ensures |Firsts(h)| <= |due| && forall i :: 0 <= i < |Firsts(h)| ==> Firsts(h)[i] == i
    ensures forall j, k :: 0 <= j < k < |h| && h[j].step == h[k].step ==> renotify > 0 && h[j].at + renotify <= h[k].at
  {
    InOrderOnceEach(h, due, renotify);
    forall j, k | 0 <= j < k < |h| && h[j].step == h[k].step
      ensures renotify > 0 && h[j].at + renotify <= h[k].at
    {
      ResendsApart(h, due, renotify, j, k);
    }
  }

  /** Nothing is queued after an acknowledgement. */
  lemma {:induction false} NothingAfterAck(l: Life, before: seq<Event>, after: seq<Event>,
                                           created: int, renotify: int, reached: set<string>)
    ensures Run(l, before + [Acked] + after, created, renotify, reached)
         == Run(l, before, created, renotify, reached).(active := false)
  {
    var es := before + [Acked] + after;
    if after == [] {
      assert es[..|es| - 1] == before;
    } else {
      assert es[..|es| - 1] == before + [Acked] + after[..|after| - 1];
      NothingAfterAck(l, before, after[..|after| - 1], created, renotify, reached);
    }
  }
}
