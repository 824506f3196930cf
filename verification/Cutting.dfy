/** When a dispatch is cut: what is due, what others send meanwhile, and the room in the queues decide, whatever workers do. */
module Cutting {
  import opened Wrappers
  import opened Dispatching

  /** A number of tasks of each priority. */
  datatype Load = Load(high: nat, express: nat, none: nat)
  {
    function Part(p: Prio): nat {
      match p case High => high case Express => express case None => none
    }

    predicate UpTo(l: Load) {
      high <= l.high && express <= l.express && none <= l.none
    }
  }

  /** Tasks that are not high may have either of two priorities, and go from one to the other. */
  predicate Regraded(l: Load, m: Load) {
    l.high == m.high && l.express + l.none == m.express + m.none
  }

  /** All of these with one of the two. */
  function Graded(l: Load, p: Prio): Load {
    if p == Express then Load(l.high, l.express + l.none, 0) else Load(l.high, 0, l.express + l.none)
  }

  function Sum(l: Load, m: Load): Load {
    Load(l.high + m.high, l.express + m.express, l.none + m.none)
  }

  function One(p: Prio): Load {
    Load(if p == High then 1 else 0, if p == Express then 1 else 0, if p == Prio.None then 1 else 0)
  }

  function NoLoad(): Load { Load(0, 0, 0) }

  /** All but one task of a priority. */
  function Less(l: Load, p: Prio): Load
    requires l.Part(p) > 0
  {
    match p
    case High => l.(high := l.high - 1)
    case Express => l.(express := l.express - 1)
    case None => l.(none := l.none - 1)
  }

  function LoadOf(ts: seq<Task>, prio: map<Task, Prio>): Load {
    if ts == [] then NoLoad() else Sum(LoadOf(ts[..|ts| - 1], prio), One(PrioIn(prio, ts[|ts| - 1])))
  }

  // ---- room in the queues ----

  function Over(x: int, room: int): nat {
    if x > room then x - room else 0
  }

  /** What comes down to the express queue when nobody takes anything. */
  function ExpressDown(q: Queues, l: Load): nat {
    l.express + Over(l.high, PRIOLEN - |q.high|)
  }

  /** What comes down to the work queue. */
  function Down(q: Queues, l: Load): nat {
    l.none + Over(ExpressDown(q, l), EXPRLEN - |q.express|)
  }

  /** More tasks than the queues have room for, each going to the queue of its priority or a lower one. */
  predicate Exceeds(q: Queues, l: Load) {
    Down(q, l) > QUEUELEN - |q.work|
  }

  /** After these, the queue of a priority and the lower ones are full, when nobody takes anything. */
  predicate FullAfter(q: Queues, l: Load, p: Prio) {
    && (p == High ==> l.high >= PRIOLEN - |q.high|)
    && (p != Prio.None ==> ExpressDown(q, l) >= EXPRLEN - |q.express|)
    && Down(q, l) >= QUEUELEN - |q.work|
  }

  /** Together they exceed the room, and some task due is among those that overflow: one that goes to the work queue,
      or one that goes to the express queue, which overflows too, or one that goes to the high one, which also does. */
  predicate MayRefuse(q: Queues, due: Load, sent: Load) {
    var all := Sum(due, sent);
    && Exceeds(q, all)
    && (|| due.none > 0
        || (ExpressDown(q, all) > EXPRLEN - |q.express|
            && (due.express > 0 || (due.high > 0 && all.high > PRIOLEN - |q.high|))))
  }

  /** When nothing is sent, it is enough that they exceed the room. */
  lemma ExceedsRefuses(q: Queues, due: Load, sent: Load)
    requires q.Fit() && sent == NoLoad()
    ensures MayRefuse(q, due, sent) <==> Exceeds(q, due)
  {
    PlusNothing(due);
  }

  lemma MoreSent(q: Queues, due: Load, sent: Load, more: Load)
    requires q.Fit() && MayRefuse(q, due, sent) && sent.UpTo(more)
    ensures MayRefuse(q, due, more)
  {
  }

  /** Priorities may change: more than there is room for when everything that is not high goes to the work queue, where
      some of what is due can go; or, when only what is high is due, it overflows the high queue, and with all that is sent
      there is more than all the room. */
  predicate MayOverflow(q: Queues, due: Load, sent: Load) {
    var high, low := due.high + sent.high, due.express + due.none + sent.express + sent.none;
    var h, e, w := PRIOLEN - |q.high|, EXPRLEN - |q.express|, QUEUELEN - |q.work|;
    || (due.express + due.none > 0 && low + Over(Over(high, h), e) > w)
    || (due.high > 0 && high > h && low + high > h + e + w)
  }

  lemma MoreOverflow(q: Queues, due: Load, sent: Load, more: Load)
    requires q.Fit() && MayOverflow(q, due, sent) && sent.UpTo(more)
    ensures MayOverflow(q, due, more)
  {
  }

  lemma GradedOverflow(q: Queues, due: Load, sent: Load, p: Prio)
    requires q.Fit() && MayOverflow(q, due, sent) && p == if due.express + due.none > 0 then Prio.None else Express
    ensures MayRefuse(q, Graded(due, p), Graded(sent, p))
  {
  }

  lemma OverflowOf(q: Queues, due: Load, sent: Load, due': Load, sent': Load)
    requires q.Fit() && Regraded(due, due') && Regraded(sent, sent') && MayRefuse(q, due', sent')
    ensures MayOverflow(q, due, sent)
  {
  }

  /** This is so exactly if some priorities lead to a refusal. */
  lemma OverflowExactly(q: Queues, due: Load, sent: Load)
    requires q.Fit()
    ensures MayOverflow(q, due, sent)
            <==> exists due', sent' :: Regraded(due, due') && Regraded(sent, sent') && MayRefuse(q, due', sent')
  {
    if MayOverflow(q, due, sent) {
      var p := if due.express + due.none > 0 then Prio.None else Express;
      GradedOverflow(q, due, sent, p);
      assert Regraded(due, Graded(due, p)) && Regraded(sent, Graded(sent, p));
    }
    forall due', sent' | Regraded(due, due') && Regraded(sent, sent') && MayRefuse(q, due', sent')
      ensures MayOverflow(q, due, sent)
    {
      OverflowOf(q, due, sent, due', sent');
    }
  }

  /** Of what is sent, a part that fits by itself, but not with what is due. */
  lemma FillingPart(q: Queues, due: Load, sent: Load) returns (part: Load)
    requires q.Fit() && MayRefuse(q, due, sent)
    ensures part.UpTo(sent) && !Exceeds(q, part) && Exceeds(q, Sum(due, part))
  {
    var rh, re, rw := PRIOLEN - |q.high|, EXPRLEN - |q.express|, QUEUELEN - |q.work|;
    if Exceeds(q, Load(sent.high, 0, 0)) {
      return Load(rh + re + rw, 0, 0);
    }
    var sh := Over(sent.high, rh);
    if Exceeds(q, Load(sent.high, sent.express, 0)) {
      part := Load(sent.high, re + rw - sh, 0);
      FilledWithExpress(q, due, sent, part);
    } else {
      var left := rw - Down(q, Load(sent.high, sent.express, 0));
      part := Load(sent.high, sent.express, if sent.none < left then sent.none else left);
      FilledWithNone(q, due, sent, part);
    }
  }

  lemma FilledWithExpress(q: Queues, due: Load, sent: Load, part: Load)
    requires q.Fit() && MayRefuse(q, due, sent)
    requires part.high == sent.high && part.none == 0 && Down(q, part) == QUEUELEN - |q.work|
    requires ExpressDown(q, part) >= EXPRLEN - |q.express|
    ensures Exceeds(q, Sum(due, part))
  {
  }

  lemma FilledWithNone(q: Queues, due: Load, sent: Load, part: Load)
    requires q.Fit() && MayRefuse(q, due, sent)
    requires part.high == sent.high && part.express == sent.express
    requires part == sent || Down(q, part) == QUEUELEN - |q.work|
    ensures Exceeds(q, Sum(due, part))
  {
  }

  // ---- the flow through the queues ----

  /** What was queued, what went down a queue because one was full, and what workers took. */
  datatype Flow = Flow(load: Load, highDown: nat, expressDown: nat, highTaken: nat, expressTaken: nat, workTaken: nat)

  /** No more went down than would have if nobody had taken anything. */
  ghost predicate Flows(q: Queues, q': Queues, f: Flow) {
    (&& q.Fit() && q'.Fit()
     && |q'.high| + f.highDown + f.highTaken == |q.high| + f.load.high
     && |q'.express| + f.expressDown + f.expressTaken == |q.express| + f.load.express + f.highDown
     && |q'.work| + f.workTaken == |q.work| + f.load.none + f.expressDown
     && f.highDown <= Over(f.load.high, PRIOLEN - |q.high|)
     && f.expressDown <= Over(f.load.express + f.highDown, EXPRLEN - |q.express|)) == true
  }

  ghost predicate Undisturbed(f: Flow) {
    f.highTaken == f.expressTaken == f.workTaken == 0
  }

  lemma FlowStarts(q: Queues) returns (f: Flow)
    requires q.Fit()
    ensures Flows(q, q, f) && Undisturbed(f) && f.load == NoLoad()
  {
    f := Flow(NoLoad(), 0, 0, 0, 0, 0);
  }

  lemma FlowAdds(q: Queues, q': Queues, f: Flow, d: Task, p: Prio) returns (f': Flow)
    requires Flows(q, q', f) && Room(q', p)
    ensures Flows(q, Taken(q', d, p), f') && f'.load == Sum(f.load, One(p))
    ensures Undisturbed(f) ==> Undisturbed(f')
  {
    f' := f.(load := Sum(f.load, One(p)));
    if p == High && |q'.high| == PRIOLEN {
      f' := f'.(highDown := f.highDown + 1);
    }
    if (p == Express || (p == High && |q'.high| == PRIOLEN)) && |q'.express| == EXPRLEN {
      f' := f'.(expressDown := f.expressDown + 1);
    }
  }

  lemma FlowTakes(q: Queues, q': Queues, f: Flow, p: Prio) returns (f': Flow)
    requires Flows(q, q', f) && q'.Line(p) != []
    ensures Flows(q, q'.Popped(p), f') && f'.load == f.load
  {
    match p {
      case High => f' := f.(highTaken := f.highTaken + 1);
      case Express => f' := f.(expressTaken := f.expressTaken + 1);
      case None => f' := f.(workTaken := f.workTaken + 1);
    }
  }

  /** When queues are full, those that were queued are enough to fill them without workers, too. */
  lemma FullMeans(q: Queues, q': Queues, f: Flow, p: Prio)
    requires Flows(q, q', f) && !Room(q', p)
    ensures FullAfter(q, f.load, p)
  {
  }

  /** Without workers it is exact. */
  lemma UndisturbedMeans(q: Queues, q': Queues, f: Flow)
    requires Flows(q, q', f) && Undisturbed(f)
    ensures |q'.work| == |q.work| + Down(q, f.load) && !Exceeds(q, f.load)
  {
  }

  // ---- runs ----

  predicate NoneTaken(es: seq<Event>) {
    forall k :: 0 <= k < |es| ==> !es[k].Take?
  }

  lemma FewerTaken(es: seq<Event>)
    requires es != []
    ensures NoneTaken(es) ==> NoneTaken(es[..|es| - 1]) && !es[|es| - 1].Take?
  {
  }

  predicate NoneReady(es: seq<Event>) {
    forall k :: 0 <= k < |es| ==> !es[k].Ready?
  }

  /** The priorities after some events. */
  function PrioAfter(prio: map<Task, Prio>, es: seq<Event>): map<Task, Prio> {
    if es == [] then prio else Rated(PrioAfter(prio, es[..|es| - 1]), es[|es| - 1])
  }

  function Handing(e: Event, prio: map<Task, Prio>): Load {
    if e.Hand? then One(PrioIn(prio, e.d)) else NoLoad()
  }

  function Sending(e: Event, prio: map<Task, Prio>): Load {
    if e.Asap? then One(PrioIn(prio, e.d)) else NoLoad()
  }

  /** What was handed over, each task with the priority it had then. */
  function HandLoad(es: seq<Event>, prio: map<Task, Prio>): Load {
    if es == [] then NoLoad()
    else Sum(HandLoad(es[..|es| - 1], prio), Handing(es[|es| - 1], PrioAfter(prio, es[..|es| - 1])))
  }

  /** What was sent, each task with the priority it had then. */
  function SentLoad(es: seq<Event>, prio: map<Task, Prio>): Load {
    if es == [] then NoLoad()
    else Sum(SentLoad(es[..|es| - 1], prio), Sending(es[|es| - 1], PrioAfter(prio, es[..|es| - 1])))
  }

  lemma Arriving(e: Event, prio: map<Task, Prio>)
    ensures Sum(Handing(e, prio), Sending(e, prio))
         == if e.Hand? || e.Asap? then One(PrioIn(prio, e.d)) else NoLoad()
  {
  }

  lemma PlusNothing(l: Load)
    ensures Sum(l, NoLoad()) == Sum(NoLoad(), l) == l
  {
  }

  lemma PlusMoves(a: Load, b: Load, c: Load, d: Load)
    ensures Sum(Sum(a, b), Sum(c, d)) == Sum(Sum(a, c), Sum(b, d))
  {
  }

  lemma LoadOne(ts: seq<Task>, d: Task, prio: map<Task, Prio>)
    ensures LoadOf(ts + [d], prio) == Sum(LoadOf(ts, prio), One(PrioIn(prio, d)))
  {
    assert (ts + [d])[..|ts|] == ts;
  }

  lemma MoreSentTasks(ts: seq<Task>, e: Event, prio: map<Task, Prio>)
    ensures LoadOf(ts + SentBy(e), prio) == Sum(LoadOf(ts, prio), Sending(e, prio))
  {
    if e.Asap? {
      LoadOne(ts, e.d, prio);
    } else {
      assert ts + [] == ts;
    }
  }

  lemma {:induction false} PrioRun(b: Board, es: seq<Event>, b': Board)
    requires Under(b, es, b')
    ensures b'.prio == PrioAfter(b.prio, es)
  {
    if es != [] {
      var m, _ := UnderLast(b, es, b');
      PrioRun(b, es[..|es| - 1], m);
    }
  }

  lemma {:induction false} FlowRun(b: Board, es: seq<Event>, b': Board) returns (f: Flow)
    requires Under(b, es, b')
    ensures Flows(b.queues, b'.queues, f) && f.load == Sum(HandLoad(es, b.prio), SentLoad(es, b.prio))
    ensures NoneTaken(es) ==> Undisturbed(f)
  {
    if es == [] {
      f := FlowStarts(b.queues);
      PlusNothing(f.load);
    } else {
      var k := |es| - 1;
      var m, e := UnderLast(b, es, b');
      FewerTaken(es);
      var f0 := FlowRun(b, es[..k], m);
      PrioRun(b, es[..k], m);
      f := FlowStep(b.queues, m.queues, f0, e, m.prio, b'.queues);
      LoadStep(es, b.prio, e, m.prio);
    }
  }

  /** What one event adds to what arrives. */
  lemma LoadStep(es: seq<Event>, prio: map<Task, Prio>, e: Event, now: map<Task, Prio>)
    requires es != [] && e == es[|es| - 1] && now == PrioAfter(prio, es[..|es| - 1])
    ensures var init := es[..|es| - 1];
            && Sum(HandLoad(es, prio), SentLoad(es, prio))
            == Sum(Sum(HandLoad(init, prio), SentLoad(init, prio)), Sum(Handing(e, now), Sending(e, now)))
  {
    var init := es[..|es| - 1];
    PlusMoves(HandLoad(init, prio), Handing(e, now), SentLoad(init, prio), Sending(e, now));
  }

  lemma FlowStep(q: Queues, q1: Queues, f: Flow, e: Event, prio: map<Task, Prio>, q2: Queues) returns (f': Flow)
    requires Flows(q, q1, f) && Acceptable(q1, e, prio) && q2 == Queued(q1, e, prio) && q2.Fit()
    ensures Flows(q, q2, f') && f'.load == Sum(f.load, Sum(Handing(e, prio), Sending(e, prio)))
    ensures !e.Take? && Undisturbed(f) ==> Undisturbed(f')
  {
    Arriving(e, prio);
    f' := f;
    if e.Hand? || e.Asap? {
      f' := FlowAdds(q, q1, f, e.d, PrioIn(prio, e.d));
    } else {
      PlusNothing(f.load);
      if e.Take? {
        f' := FlowTakes(q, q1, f, e.p);
      }
    }
  }

  // ---- what is due ----

  ghost function DueIn(es: set<Entry>, prio: map<Task, Prio>, now: int, p: Prio): set<Entry> {
    set e | e in es && e.0 <= now && PrioIn(prio, e.1) == p
  }

  ghost function DueOf(es: set<Entry>, prio: map<Task, Prio>, now: int): Load {
    Load(|DueIn(es, prio, now, High)|, |DueIn(es, prio, now, Express)|, |DueIn(es, prio, now, Prio.None)|)
  }

  ghost function Due(b: Board): Load
    requires b.busy.Some?
  {
    DueOf(b.entries, b.prio, b.busy.value)
  }

  ghost function DueTasks(es: set<Entry>, now: int): set<Task> {
    set e | e in es && e.0 <= now :: e.1
  }

  lemma DueLess(es: set<Entry>, e: Event, prio: map<Task, Prio>, now: int, es': set<Entry>)
    requires e.Hand? ==> (e.at, e.d) in es && e.at <= now
    requires es' == if e.Hand? then es - {(e.at, e.d)} else es
    ensures DueOf(es, prio, now) == Sum(DueOf(es', prio, now), Handing(e, prio))
  {
    if e.Hand? {
      forall p
        ensures |DueIn(es, prio, now, p)| == |DueIn(es', prio, now, p)| + if PrioIn(prio, e.d) == p then 1 else 0
      {
        OneDueLess(es, (e.at, e.d), prio, now, p);
      }
    } else {
      PlusNothing(DueOf(es, prio, now));
    }
  }

  lemma OneDueLess(es: set<Entry>, e: Entry, prio: map<Task, Prio>, now: int, p: Prio)
    requires e in es && e.0 <= now
    ensures |DueIn(es, prio, now, p)| == |DueIn(es - {e}, prio, now, p)| + if PrioIn(prio, e.1) == p then 1 else 0
  {
    if PrioIn(prio, e.1) == p {
      assert DueIn(es, prio, now, p) == DueIn(es - {e}, prio, now, p) + {e};
    } else {
      assert DueIn(es, prio, now, p) == DueIn(es - {e}, prio, now, p);
    }
  }

  lemma StillDue(b: Board, e: Entry)
    requires b.busy.Some? && e in b.entries && e.0 <= b.busy.value
    ensures Due(b).Part(b.Prio(e.1)) > 0
  {
    assert e in DueIn(b.entries, b.prio, b.busy.value, b.Prio(e.1));
  }

  // ---- priorities that change ----

  /** The same tasks are high. */
  ghost predicate SameHigh(prio: map<Task, Prio>, prio': map<Task, Prio>) {
    forall d: Task :: PrioIn(prio', d) == High <==> PrioIn(prio, d) == High
  }

  lemma LowDue(es: set<Entry>, prio: map<Task, Prio>, now: int) returns (low: set<Entry>)
    ensures low == set e | e in es && e.0 <= now && PrioIn(prio, e.1) != High
    ensures DueOf(es, prio, now).express + DueOf(es, prio, now).none == |low|
  {
    low := DueIn(es, prio, now, Express) + DueIn(es, prio, now, Prio.None);
  }

  lemma DueRegraded(es: set<Entry>, prio: map<Task, Prio>, prio': map<Task, Prio>, now: int)
    requires SameHigh(prio, prio')
    ensures Regraded(DueOf(es, prio, now), DueOf(es, prio', now))
  {
    var low := LowDue(es, prio, now);
    var low' := LowDue(es, prio', now);
    assert low == low';
    assert DueIn(es, prio, now, High) == DueIn(es, prio', now, High);
  }

  lemma RegradedOn(due: Load, left: Load, handed: Load, left': Load, left2: Load, more: Load)
    requires Regraded(due, Sum(left, handed)) && left == Sum(left', more) && Regraded(left', left2)
    ensures Regraded(due, Sum(left2, Sum(handed, more)))
  {
  }

  lemma {:induction false} HighStays(b: Board, es: seq<Event>, b': Board)
    requires Under(b, es, b')
    ensures SameHigh(b.prio, b'.prio)
  {
    if es != [] {
      var m, e := UnderLast(b, es, b');
      HighStays(b, es[..|es| - 1], m);
      RatedHigh(m.queues, e, m.prio);
    }
  }

  /** What was due was handed over or is still due, but perhaps with another priority. */
  lemma {:induction false} DueSplit(b: Board, es: seq<Event>, b': Board)
    requires Under(b, es, b')
    ensures b'.busy == b.busy && Regraded(Due(b), Sum(Due(b'), HandLoad(es, b.prio)))
  {
    if es == [] {
      PlusNothing(Due(b));
    } else {
      var k := |es| - 1;
      var m, e := UnderLast(b, es, b');
      DueSplit(b, es[..k], m);
      PrioRun(b, es[..k], m);
      DueStep(m, e, b');
      RegradedOn(Due(b), Due(m), HandLoad(es[..k], b.prio), DueOf(b'.entries, m.prio, b.busy.value), Due(b'),
                 Handing(e, m.prio));
    }
  }

  lemma DueStep(m: Board, e: Event, b': Board)
    requires m.busy.Some? && b'.busy == m.busy && (e.Hand? ==> IsNext(m, (e.at, e.d)))
    requires b'.entries == if e.Hand? then m.entries - {(e.at, e.d)} else m.entries
    requires b'.prio == Rated(m.prio, e) && Acceptable(m.queues, e, m.prio)
    ensures Due(m) == Sum(DueOf(b'.entries, m.prio, m.busy.value), Handing(e, m.prio))
    ensures Regraded(DueOf(b'.entries, m.prio, m.busy.value), Due(b'))
  {
    DueLess(m.entries, e, m.prio, m.busy.value, b'.entries);
    RatedHigh(m.queues, e, m.prio);
    DueRegraded(b'.entries, m.prio, b'.prio, m.busy.value);
  }

  lemma RatedHigh(q: Queues, e: Event, prio: map<Task, Prio>)
    requires Acceptable(q, e, prio)
    ensures SameHigh(prio, Rated(prio, e))
  {
  }

  /** So was what was sent. */
  lemma {:induction false} SentSplit(b: Board, es: seq<Event>, b': Board)
    requires Under(b, es, b')
    ensures Regraded(LoadOf(Sent(es), b.prio), SentLoad(es, b.prio))
  {
    if es != [] {
      var k := |es| - 1;
      var m, e := UnderLast(b, es, b');
      SentSplit(b, es[..k], m);
      HighStays(b, es[..k], m);
      PrioRun(b, es[..k], m);
      MoreSentTasks(Sent(es[..k]), e, b.prio);
      SendingAlike(e, b.prio, m.prio);
      RegradedSum(LoadOf(Sent(es[..k]), b.prio), SentLoad(es[..k], b.prio), Sending(e, b.prio), Sending(e, m.prio));
    }
  }

  lemma SendingAlike(e: Event, prio: map<Task, Prio>, prio': map<Task, Prio>)
    requires SameHigh(prio, prio')
    ensures Regraded(Sending(e, prio), Sending(e, prio'))
  {
  }

  lemma RegradedSum(a: Load, a': Load, b: Load, b': Load)
    requires Regraded(a, a') && Regraded(b, b')
    ensures Regraded(Sum(a, b), Sum(a', b'))
  {
  }

  /** Some tasks may get new times, but no new priorities. */
  predicate SteadyFor(ds: set<Task>, prio: map<Task, Prio>, es: seq<Event>) {
    forall k :: 0 <= k < |es| && es[k].Ready? && es[k].d in ds ==> PrioIn(prio, es[k].d) == es[k].prio
  }

  /** The tasks due and those sent. */
  ghost function Concerned(b: Board, es: seq<Event>): set<Task>
    requires b.busy.Some?
  {
    DueTasks(b.entries, b.busy.value) + set d | d in Sent(es)
  }

  /** What is due or sent gets no new priority. */
  ghost predicate Steady(b: Board, es: seq<Event>)
    requires b.busy.Some?
  {
    SteadyFor(Concerned(b, es), b.prio, es)
  }

  ghost predicate Agree(ds: set<Task>, prio: map<Task, Prio>, prio': map<Task, Prio>) {
    forall d :: d in ds ==> PrioIn(prio', d) == PrioIn(prio, d)
  }

  lemma DueAdds(due: Load, left: Load, left': Load, handed: Load, more: Load)
    requires due == Sum(left, handed) && left == Sum(left', more)
    ensures due == Sum(left', Sum(handed, more))
  {
  }

  /** Where these priorities do not change, what is due and what is sent is as it was. */
  lemma {:induction false} SteadySplit(b: Board, es: seq<Event>, b': Board, ds: set<Task>)
    requires Under(b, es, b') && SteadyFor(ds, b.prio, es)
    requires DueTasks(b.entries, b.busy.value) <= ds && forall d :: d in Sent(es) ==> d in ds
    ensures Agree(ds, b.prio, b'.prio) && b'.busy == b.busy && b'.entries <= b.entries
    ensures Due(b) == Sum(DueOf(b'.entries, b.prio, b.busy.value), HandLoad(es, b.prio))
    ensures LoadOf(Sent(es), b.prio) == SentLoad(es, b.prio)
  {
    if es == [] {
      PlusNothing(Due(b));
    } else {
      var k, now := |es| - 1, b.busy.value;
      var m, e := UnderLast(b, es, b');
      SteadySplit(b, es[..k], m, ds);
      PrioRun(b, es[..k], m);
      SameArrivals(e, ds, b.prio, m.prio, m.entries, b.entries, now);
      DueLess(m.entries, e, b.prio, now, b'.entries);
      DueAdds(Due(b), DueOf(m.entries, b.prio, now), DueOf(b'.entries, b.prio, now), HandLoad(es[..k], b.prio),
              Handing(e, m.prio));
      MoreSentTasks(Sent(es[..k]), e, b.prio);
    }
  }

  lemma SameArrivals(e: Event, ds: set<Task>, prio: map<Task, Prio>, prio': map<Task, Prio>, es': set<Entry>,
                     es: set<Entry>, now: int)
    requires Agree(ds, prio, prio') && es' <= es && DueTasks(es, now) <= ds
    requires e.Hand? ==> (e.at, e.d) in es' && e.at <= now
    requires e.Asap? ==> e.d in ds
    ensures Handing(e, prio') == Handing(e, prio) && Sending(e, prio') == Sending(e, prio)
  {
    if e.Hand? {
      assert (e.at, e.d).1 in DueTasks(es, now);
    }
  }

  lemma DueAgree(es: set<Entry>, ds: set<Task>, prio: map<Task, Prio>, prio': map<Task, Prio>, now: int)
    requires Agree(ds, prio, prio') && DueTasks(es, now) <= ds
    ensures DueOf(es, prio, now) == DueOf(es, prio', now)
  {
    forall e | e in es && e.0 <= now ensures PrioIn(prio, e.1) == PrioIn(prio', e.1) {
      assert e.1 in DueTasks(es, now);
    }
    forall p ensures DueIn(es, prio, now, p) == DueIn(es, prio', now, p) {
    }
  }

  lemma SteadyLoads(b: Board, es: seq<Event>, b': Board)
    requires Under(b, es, b') && Steady(b, es)
    ensures b'.busy == b.busy && Due(b) == Sum(Due(b'), HandLoad(es, b.prio))
    ensures LoadOf(Sent(es), b.prio) == SentLoad(es, b.prio)
  {
    var ds, now := Concerned(b, es), b.busy.value;
    SteadySplit(b, es, b', ds);
    assert DueTasks(b'.entries, now) <= DueTasks(b.entries, now);
    DueAgree(b'.entries, ds, b.prio, b'.prio, now);
  }

  // ---- when a dispatch is cut ----

  /**
   * Whatever others do while it runs, a dispatch is cut only if what is due and what is sent meanwhile can fill the
   * queues with some priorities; and with those they have, if these do not change.
   */
  lemma CutNeeds(b: Board, es: seq<Event>, m: Board, w: int, d: Task)
    requires Under(b, es, m) && Enabled(m, Refuse(w, d))
    ensures MayOverflow(b.queues, Due(b), LoadOf(Sent(es), b.prio))
    ensures Steady(b, es) ==> MayRefuse(b.queues, Due(b), LoadOf(Sent(es), b.prio))
  {
    var due, sent := Refused(b, es, m, w, d);
    OverflowOf(b.queues, Due(b), LoadOf(Sent(es), b.prio), due, sent);
  }

  lemma RefuseIs(m: Board, w: int, d: Task)
    requires Enabled(m, Refuse(w, d))
    ensures m.busy.Some? && (w, d) in m.entries && w <= m.busy.value && !Room(m.queues, m.Prio(d))
  {
  }

  /** What was due and sent, with the priorities it had when it mattered, may be refused. */
  lemma Refused(b: Board, es: seq<Event>, m: Board, w: int, d: Task) returns (due: Load, sent: Load)
    requires Under(b, es, m) && Enabled(m, Refuse(w, d))
    ensures MayRefuse(b.queues, due, sent)
    ensures Regraded(Due(b), due) && Regraded(LoadOf(Sent(es), b.prio), sent)
    ensures Steady(b, es) ==> due == Due(b) && sent == LoadOf(Sent(es), b.prio)
  {
    var handed := HandLoad(es, b.prio);
    sent := SentLoad(es, b.prio);
    RefuseIs(m, w, d);
    var f := FlowRun(b, es, m);
    FullMeans(b.queues, m.queues, f, m.Prio(d));
    DueSplit(b, es, m);
    due := Sum(Due(m), handed);
    StillDue(m, (w, d));
    RefusedMay(b.queues, due, handed, Due(m), sent, m.Prio(d));
    SentSplit(b, es, m);
    if Steady(b, es) {
      SteadyLoads(b, es, m);
    }
  }

  lemma RefusedMay(q: Queues, due: Load, handed: Load, left: Load, sent: Load, p: Prio)
    requires q.Fit() && due == Sum(left, handed) && left.Part(p) > 0 && FullAfter(q, Sum(handed, sent), p)
    ensures MayRefuse(q, due, sent)
  {
  }

  /** With tasks that others may send while a dispatch runs, each at most once, some course of events cuts it. */
  ghost predicate CanCut(b: Board, sent: seq<Task>) {
    exists es, m, w, d :: Cut(b, sent, es, m, w, d)
  }

  ghost predicate Cut(b: Board, sent: seq<Task>, es: seq<Event>, m: Board, w: int, d: Task) {
    Under(b, es, m) && multiset(Sent(es)) <= multiset(sent) && Enabled(m, Refuse(w, d))
  }

  /** Some course of events in which what is due or sent keeps its priority. */
  ghost predicate CanCutSteadily(b: Board, sent: seq<Task>) {
    exists es, m, w, d :: Cut(b, sent, es, m, w, d) && Steady(b, es)
  }

  lemma {:induction false} LoadWithout(ts: seq<Task>, i: nat, prio: map<Task, Prio>)
    requires i < |ts|
    ensures LoadOf(ts, prio) == Sum(LoadOf(ts[..i] + ts[i + 1..], prio), One(PrioIn(prio, ts[i])))
  {
    var k := |ts| - 1;
    if i < k {
      LoadWithout(ts[..k], i, prio);
      assert (ts[..i] + ts[i + 1..])[..k - 1] == ts[..k][..i] + ts[..k][i + 1..];
    } else {
      assert ts[..i] + ts[i + 1..] == ts[..k];
    }
  }

  lemma OneOut(xs: seq<Task>, ys: seq<Task>) returns (i: nat)
    requires xs != [] && multiset(xs) <= multiset(ys)
    ensures i < |ys| && ys[i] == xs[|xs| - 1]
    ensures multiset(xs[..|xs| - 1]) <= multiset(ys[..i] + ys[i + 1..])
  {
    var k := |xs| - 1;
    assert xs == xs[..k] + [xs[k]];
    assert multiset(xs) == multiset(xs[..k]) + multiset{xs[k]};
    assert xs[k] in multiset(ys);
    i :| 0 <= i < |ys| && ys[i] == xs[k];
    TakenOut(ys, i);
    CancelOne(multiset(xs[..k]), multiset(ys[..i] + ys[i + 1..]), xs[k]);
  }

  lemma CancelOne(a: multiset<Task>, b: multiset<Task>, d: Task)
    requires a + multiset{d} <= b + multiset{d}
    ensures a <= b
  {
    assert a == a + multiset{d} - multiset{d} && b == b + multiset{d} - multiset{d};
    forall x ensures a[x] <= b[x] {
      assert (a + multiset{d})[x] <= (b + multiset{d})[x];
    }
  }

  lemma TakenOut(ys: seq<Task>, i: nat)
    requires i < |ys|
    ensures multiset(ys) == multiset(ys[..i] + ys[i + 1..]) + multiset{ys[i]}
  {
    assert ys == ys[..i] + [ys[i]] + ys[i + 1..];
  }

  lemma {:induction false} SubLoad(xs: seq<Task>, ys: seq<Task>, prio: map<Task, Prio>)
    requires multiset(xs) <= multiset(ys)
    ensures LoadOf(xs, prio).UpTo(LoadOf(ys, prio))
  {
    if xs != [] {
      var i := OneOut(xs, ys);
      LoadWithout(ys, i, prio);
      SubLoad(xs[..|xs| - 1], ys[..i] + ys[i + 1..], prio);
    }
  }

  /** Tasks from `ts` that make up a load. */
  lemma {:induction false} Pick(ts: seq<Task>, part: Load, prio: map<Task, Prio>) returns (xs: seq<Task>)
    requires part.UpTo(LoadOf(ts, prio))
    ensures multiset(xs) <= multiset(ts) && LoadOf(xs, prio) == part
  {
    if ts == [] {
      return [];
    }
    var k := |ts| - 1;
    if part.UpTo(LoadOf(ts[..k], prio)) {
      xs := Pick(ts[..k], part, prio);
      MoreToPick(ts, xs);
    } else {
      OneToPick(part, LoadOf(ts[..k], prio), PrioIn(prio, ts[k]));
      xs := Pick(ts[..k], Less(part, PrioIn(prio, ts[k])), prio);
      MoreToPick(ts, xs);
      LoadOne(xs, ts[k], prio);
      xs := xs + [ts[k]];
    }
  }

  lemma OneToPick(part: Load, l: Load, p: Prio)
    requires part.UpTo(Sum(l, One(p))) && !part.UpTo(l)
    ensures part.Part(p) > 0 && Less(part, p).UpTo(l) && Sum(Less(part, p), One(p)) == part
  {
  }

  lemma MoreToPick(ts: seq<Task>, xs: seq<Task>)
    requires ts != [] && multiset(xs) <= multiset(ts[..|ts| - 1])
    ensures multiset(xs) <= multiset(ts) && multiset(xs + [ts[|ts| - 1]]) <= multiset(ts)
  {
    assert ts == ts[..|ts| - 1] + [ts[|ts| - 1]];
  }

  /** Only sends and hand-overs. */
  predicate Alone(es: seq<Event>) {
    NoneTaken(es) && NoneReady(es)
  }

  lemma AloneOn(es: seq<Event>, e: Event)
    requires Alone(es) && !e.Take? && !e.Ready?
    ensures Alone(es + [e])
  {
  }

  /** Without workers, tasks that fit are all queued. */
  lemma {:induction false} SendAll(b: Board, xs: seq<Task>) returns (es: seq<Event>, m: Board)
    requires Good(b) && b.busy.Some? && !Exceeds(b.queues, LoadOf(xs, b.prio))
    ensures Under(b, es, m) && Alone(es) && Sent(es) == xs && |Handed(es)| == 0
  {
    if xs == [] {
      return [], b;
    }
    var k := |xs| - 1;
    var d := xs[k];
    LoadFits(b.queues, xs, b.prio);
    es, m := SendAll(b, xs[..k]);
    RoomForOne(b, es, m, xs, d);
    OneAsap(b, es, m, d);
    AloneOn(es, Asap(d));
    es, m := es + [Asap(d)], Next(m, Asap(d));
    WithLast(xs);
  }

  lemma WithLast(xs: seq<Task>)
    requires xs != []
    ensures xs == xs[..|xs| - 1] + [xs[|xs| - 1]]
  {
  }

  lemma RoomForOne(b: Board, es: seq<Event>, m: Board, xs: seq<Task>, d: Task)
    requires xs != [] && d == xs[|xs| - 1] && !Exceeds(b.queues, LoadOf(xs, b.prio))
    requires Under(b, es, m) && Alone(es) && Sent(es) == xs[..|xs| - 1] && |Handed(es)| == 0
    ensures Room(m.queues, m.Prio(d))
  {
    var f := FlowRun(b, es, m);
    SamePrio(b, es, m);
    NoneHanded(es, b.prio);
    SteadyLoads(b, es, m);
    PlusNothing(SentLoad(es, b.prio));
    StillRoom(b.queues, m.queues, f, PrioIn(b.prio, d));
  }

  lemma OneAsap(b: Board, es: seq<Event>, m: Board, d: Task)
    requires Under(b, es, m) && Room(m.queues, m.Prio(d))
    ensures Enabled(m, Asap(d)) && Under(b, es + [Asap(d)], Next(m, Asap(d)))
    ensures Sent(es + [Asap(d)]) == Sent(es) + [d] && Handed(es + [Asap(d)]) == Handed(es)
  {
    OneMore(b, es, m, Asap(d));
    Appended(es, Asap(d));
  }

  lemma {:induction false} SamePrio(b: Board, es: seq<Event>, b': Board)
    requires Under(b, es, b') && NoneReady(es)
    ensures b'.prio == b.prio
  {
    if es != [] {
      var m, _ := UnderLast(b, es, b');
      SamePrio(b, es[..|es| - 1], m);
    }
  }

  lemma {:induction false} NoneHanded(es: seq<Event>, prio: map<Task, Prio>)
    requires |Handed(es)| == 0
    ensures HandLoad(es, prio) == NoLoad()
  {
    if es != [] {
      assert !es[|es| - 1].Hand?;
      NoneHanded(es[..|es| - 1], prio);
      PlusNothing(NoLoad());
    }
  }

  lemma LoadFits(q: Queues, xs: seq<Task>, prio: map<Task, Prio>)
    requires xs != [] && !Exceeds(q, LoadOf(xs, prio))
    ensures !Exceeds(q, LoadOf(xs[..|xs| - 1], prio))
  {
  }

  lemma StillRoom(q: Queues, q': Queues, f: Flow, p: Prio)
    requires Flows(q, q', f) && Undisturbed(f) && !Exceeds(q, Sum(f.load, One(p)))
    ensures Room(q', p)
  {
  }

  lemma Appended(es: seq<Event>, e: Event)
    ensures Sent(es + [e]) == Sent(es) + SentBy(e) && Handed(es + [e]) == Handed(es) + HandedBy(e)
  {
    assert (es + [e])[..|es|] == es;
  }

  lemma {:induction false} Earliest(es: set<Entry>) returns (e: Entry)
    requires es != {}
    ensures e in es && forall x :: x in es ==> e.0 <= x.0
    decreases |es|
  {
    e :| e in es;
    if es != {e} {
      var x := Earliest(es - {e});
      if x.0 < e.0 {
        e := x;
      }
    }
  }

  /** Somebody is due, or the dispatch can end. */
  lemma NextDue(b: Board) returns (over: bool, e: Entry)
    requires b.busy.Some?
    ensures if over then Enabled(b, Rest) else IsNext(b, e)
  {
    over, e := true, (0, 0);
    if b.entries != {} {
      e := Earliest(b.entries);
      over := e.0 > b.busy.value;
    }
  }

  /** Left alone, a dispatch goes on until it is refused or nothing due is left. */
  lemma {:induction false} GoOn(b: Board, es: seq<Event>, m: Board) returns (es': seq<Event>, m': Board, over: bool, e: Entry)
    requires Under(b, es, m) && Alone(es)
    ensures Under(b, es', m') && Alone(es') && Sent(es') == Sent(es)
    ensures if over then Enabled(m', Rest) else Enabled(m', Refuse(e.0, e.1))
    decreases |m.entries|
  {
    StillBusy(b, es, m);
    over, e := NextDue(m);
    es', m' := es, m;
    if !over && Room(m.queues, m.Prio(e.1)) {
      es', m' := HandOne(b, es, m, e);
      es', m', over, e := GoOn(b, es', m');
    }
  }

  lemma HandOne(b: Board, es: seq<Event>, m: Board, e: Entry) returns (es': seq<Event>, m': Board)
    requires Under(b, es, m) && IsNext(m, e) && Room(m.queues, m.Prio(e.1))
    ensures Under(b, es', m') && es <= es' && Sent(es') == Sent(es) && (Alone(es) ==> Alone(es'))
    ensures |m'.entries| < |m.entries|
  {
    var h := Hand(e.0, e.1);
    OneMore(b, es, m, h);
    Appended(es, h);
    es', m' := es + [h], Next(m, h);
    assert m.entries == m'.entries + {e};
  }

  lemma NothingDue(b: Board)
    requires Enabled(b, Rest)
    ensures Due(b) == NoLoad()
  {
    forall p ensures DueIn(b.entries, b.prio, b.busy.value, p) == {} {
    }
  }

  /** Without workers, a dispatch that is not cut has found room for everything. */
  lemma OverFits(b: Board, es: seq<Event>, m: Board)
    requires Under(b, es, m) && Steady(b, es) && NoneTaken(es) && Enabled(m, Rest)
    ensures !Exceeds(b.queues, Sum(Due(b), LoadOf(Sent(es), b.prio)))
  {
    var f := FlowRun(b, es, m);
    UndisturbedMeans(b.queues, m.queues, f);
    SteadyLoads(b, es, m);
    NothingDue(m);
  }

  /** While what is due or sent keeps its priority: a dispatch can be cut exactly if some task due may find its queues
      filled by the others that are due and by those sent. */
  lemma SteadyCutExactly(b: Board, sent: seq<Task>)
    requires Good(b) && b.busy.Some?
    ensures CanCutSteadily(b, sent) <==> MayRefuse(b.queues, Due(b), LoadOf(sent, b.prio))
  {
    if es, m, w, d :| Cut(b, sent, es, m, w, d) && Steady(b, es) {
      CutNeeds(b, es, m, w, d);
      SubLoad(Sent(es), sent, b.prio);
      MoreSent(b.queues, Due(b), LoadOf(Sent(es), b.prio), LoadOf(sent, b.prio));
    }
    if MayRefuse(b.queues, Due(b), LoadOf(sent, b.prio)) {
      CutBySending(b, sent);
    }
  }

  lemma CutBySending(b: Board, sent: seq<Task>)
    requires Good(b) && b.busy.Some? && MayRefuse(b.queues, Due(b), LoadOf(sent, b.prio))
    ensures CanCutSteadily(b, sent)
  {
    var part := FillingPart(b.queues, Due(b), LoadOf(sent, b.prio));
    var xs := Pick(sent, part, b.prio);
    var es0, m0 := SendAll(b, xs);
    var es, m, over, e := GoOn(b, es0, m0);
    if over {
      OverFits(b, es, m);
      assert false;
    }
    assert Cut(b, sent, es, m, e.0, e.1) && Steady(b, es);
  }

  // ---- with any priorities ----

  /** While a dispatch runs, tasks that are not high can all get one of the other priorities. */
  lemma {:induction false} RateAll(b: Board, ds: set<Task>, p: Prio) returns (es: seq<Event>, m: Board)
    requires Good(b) && b.busy.Some? && p != High
    ensures Under(b, es, m) && Sent(es) == []
    ensures m.entries == b.entries && m.queues == b.queues && m.busy == b.busy
    ensures GradedFor(ds, b.prio, m.prio, p)
  {
    if ds == {} {
      return [], b;
    }
    var d :| d in ds;
    es, m := RateAll(b, ds - {d}, p);
    var e := Ready(d, m.When(d), if b.Prio(d) == High then High else p);
    OneMore(b, es, m, e);
    Appended(es, e);
    es, m := es + [e], Next(m, e);
  }

  ghost predicate GradedFor(ds: set<Task>, prio: map<Task, Prio>, prio': map<Task, Prio>, p: Prio) {
    && SameHigh(prio, prio')
    && forall d :: d in ds && PrioIn(prio, d) != High ==> PrioIn(prio', d) == p
  }

  lemma {:induction false} SentGraded(ts: seq<Task>, ds: set<Task>, prio: map<Task, Prio>, prio': map<Task, Prio>, p: Prio)
    requires p != High && GradedFor(ds, prio, prio', p) && forall d :: d in ts ==> d in ds
    ensures LoadOf(ts, prio') == Graded(LoadOf(ts, prio), p)
  {
    if ts != [] {
      SentGraded(ts[..|ts| - 1], ds, prio, prio', p);
    }
  }

  lemma DueGraded(es: set<Entry>, ds: set<Task>, prio: map<Task, Prio>, prio': map<Task, Prio>, now: int, p: Prio)
    requires p != High && GradedFor(ds, prio, prio', p) && DueTasks(es, now) <= ds
    ensures DueOf(es, prio', now) == Graded(DueOf(es, prio, now), p)
  {
    DueRegraded(es, prio, prio', now);
    forall e | e in es && e.0 <= now ensures PrioIn(prio, e.1) != High ==> PrioIn(prio', e.1) == p {
      assert e.1 in DueTasks(es, now);
    }
    assert DueIn(es, prio', now, if p == Express then Prio.None else Express) == {};
  }

  lemma {:induction false} SentConcat(es: seq<Event>, more: seq<Event>)
    ensures Sent(es + more) == Sent(es) + Sent(more)
  {
    if more == [] {
      assert es + more == es;
    } else {
      var k := |more| - 1;
      assert (es + more)[..|es| + k] == es + more[..k];
      SentConcat(es, more[..k]);
    }
  }

  /**
   * Whatever others do, sending given tasks, changing priorities, and taking tasks from the queues: a dispatch can be
   * cut exactly if more is due and sent than there is room for, counted as if everything that is not high were without
   * priority, or, when only what is high is due, in all the queues.
   */
  lemma CutExactly(b: Board, sent: seq<Task>)
    requires Good(b) && b.busy.Some?
    ensures CanCut(b, sent) <==> MayOverflow(b.queues, Due(b), LoadOf(sent, b.prio))
  {
    if es, m, w, d :| Cut(b, sent, es, m, w, d) {
      CutNeeds(b, es, m, w, d);
      SubLoad(Sent(es), sent, b.prio);
      MoreOverflow(b.queues, Due(b), LoadOf(Sent(es), b.prio), LoadOf(sent, b.prio));
    }
    if MayOverflow(b.queues, Due(b), LoadOf(sent, b.prio)) {
      CutByRating(b, sent);
    }
  }

  lemma CutByRating(b: Board, sent: seq<Task>)
    requires Good(b) && b.busy.Some? && MayOverflow(b.queues, Due(b), LoadOf(sent, b.prio))
    ensures CanCut(b, sent)
  {
    var p := if Due(b).express + Due(b).none > 0 then Prio.None else Express;
    var now := b.busy.value;
    var ds := DueTasks(b.entries, now) + set d | d in sent;
    var es, m := RateAll(b, ds, p);
    RunGood(b, es, m);
    DueGraded(b.entries, ds, b.prio, m.prio, now, p);
    SentGraded(sent, ds, b.prio, m.prio, p);
    GradedOverflow(b.queues, Due(b), LoadOf(sent, b.prio), p);
    SteadyCutExactly(m, sent);
    var more, m', w, d :| Cut(m, sent, more, m', w, d);
    RunsOn(b, es, m, more, m');
    SentConcat(es, more);
    assert Cut(b, sent, es + more, m', w, d);
  }

  /** When nothing due or sent is high: exactly if something is due, and it and what is sent exceed the room in the work
      queue. */
  lemma NoneHighExactly(b: Board, sent: seq<Task>)
    requires Good(b) && b.busy.Some? && Due(b).high == LoadOf(sent, b.prio).high == 0
    ensures CanCut(b, sent)
            <==> var due := set e | e in b.entries && e.0 <= b.busy.value;
                 due != {} && |due| + |sent| > QUEUELEN - |b.queues.work|
  {
    var low := LowDue(b.entries, b.prio, b.busy.value);
    forall e | e in b.entries && e.0 <= b.busy.value ensures PrioIn(b.prio, e.1) != High {
      assert e !in DueIn(b.entries, b.prio, b.busy.value, High);
    }
    assert low == set e | e in b.entries && e.0 <= b.busy.value;
    LoadCounts(sent, b.prio);
    OverflowCounts(b.queues, Due(b), LoadOf(sent, b.prio));
    CutExactly(b, sent);
  }

  lemma OverflowCounts(q: Queues, due: Load, sent: Load)
    requires q.Fit() && due.high == sent.high == 0
    ensures MayOverflow(q, due, sent)
            <==> due.express + due.none > 0
                 && due.express + due.none + sent.express + sent.none > QUEUELEN - |q.work|
  {
  }

  lemma {:induction false} LoadCounts(ts: seq<Task>, prio: map<Task, Prio>)
    ensures LoadOf(ts, prio).high + LoadOf(ts, prio).express + LoadOf(ts, prio).none == |ts|
  {
    if ts != [] {
      LoadCounts(ts[..|ts| - 1], prio);
    }
  }

  // ---- left to itself, and saved by workers ----

  /** Left to itself, a dispatch is cut exactly if more is due than the queues have room for. */
  lemma AloneExactly(b: Board, es: seq<Event>, m: Board, w: int, d: Task)
    requires Under(b, es, m) && Steady(b, es) && NoneTaken(es) && Sent(es) == []
    ensures Enabled(m, Refuse(w, d)) ==> Exceeds(b.queues, Due(b))
    ensures Enabled(m, Rest) ==> !Exceeds(b.queues, Due(b))
  {
    PlusNothing(Due(b));
    if Enabled(m, Refuse(w, d)) {
      CutNeeds(b, es, m, w, d);
    }
    if Enabled(m, Rest) {
      OverFits(b, es, m);
    }
  }

  /** However much is due, workers may be quick enough: each dispatch has a course of events that gets to its end. */
  lemma {:induction false} WorkersSave(b: Board, es: seq<Event>, m: Board) returns (es': seq<Event>, m': Board)
    requires Under(b, es, m)
    ensures Under(b, es', m') && es <= es' && Sent(es') == Sent(es) && Enabled(m', Rest)
    decreases |m.entries|
  {
    StillBusy(b, es, m);
    var over, e := NextDue(m);
    es', m' := es, m;
    if !over {
      if !Room(m.queues, m.Prio(e.1)) {
        es', m' := TakeOne(b, es, m);
      }
      es', m' := HandOne(b, es', m', e);
      es', m' := WorkersSave(b, es', m');
    }
  }

  lemma TakeOne(b: Board, es: seq<Event>, m: Board) returns (es': seq<Event>, m': Board)
    requires Under(b, es, m) && |m.queues.work| >= QUEUELEN
    ensures Under(b, es', m') && es <= es' && Sent(es') == Sent(es)
    ensures m' == m.(queues := m'.queues) && Room(m'.queues, Prio.None)
  {
    var t := Take(Prio.None, m.queues.work[0]);
    RunGood(b, es, m);
    OneMore(b, es, m, t);
    Appended(es, t);
    es', m' := es + [t], Next(m, t);
  }

  /** When nobody sends anything and priorities stay: exactly if more is due than there is room for. */
  lemma NobodySends(b: Board, nobody: seq<Task>)
    requires Good(b) && b.busy.Some? && nobody == []
    ensures CanCutSteadily(b, nobody) <==> Exceeds(b.queues, Due(b))
  {
    SteadyCutExactly(b, nobody);
    ExceedsRefuses(b.queues, Due(b), LoadOf(nobody, b.prio));
  }

  /** Room for one more task, one task due, and another that may be sent first: each fits, but the dispatch can be cut. */
  lemma SentFirst(b: Board, d: Task, others: seq<Task>, nobody: seq<Task>)
    requires Lone(b, d, QUEUELEN - 1) && |others| == 1 && nobody == []
    requires b.Prio(d) == b.Prio(others[0]) == Prio.None
    ensures CanCutSteadily(b, others) && !CanCut(b, nobody)
  {
    OneToo(b, d, others);
    OneFits(b, d, nobody);
  }

  /** One task is due, the two upper queues are empty, and the work queue has so many. */
  ghost predicate Lone(b: Board, d: Task, work: nat) {
    (&& Good(b) && b.busy == Some(1) && b.entries == {(1, d)}
     && |b.queues.high| == |b.queues.express| == 0 && |b.queues.work| == work) == true
  }

  lemma OneToo(b: Board, d: Task, others: seq<Task>)
    requires Lone(b, d, QUEUELEN - 1) && |others| == 1 && b.Prio(d) == b.Prio(others[0]) == Prio.None
    ensures CanCutSteadily(b, others)
  {
    OneDue(b, d);
    OneLoad(others, b.prio);
    OneMoreEach(b.queues, Due(b), LoadOf(others, b.prio));
    SteadyCutExactly(b, others);
  }

  lemma OneFits(b: Board, d: Task, nobody: seq<Task>)
    requires Lone(b, d, QUEUELEN - 1) && nobody == [] && b.Prio(d) == Prio.None
    ensures !CanCut(b, nobody)
  {
    OneDue(b, d);
    CutExactly(b, nobody);
    OverflowCounts(b.queues, Due(b), LoadOf(nobody, b.prio));
  }

  lemma OneMoreEach(q: Queues, due: Load, sent: Load)
    requires |q.high| == |q.express| == 0 && |q.work| == QUEUELEN - 1
    requires due.high == due.express == sent.high == sent.express == 0 && due.none == sent.none == 1
    ensures MayRefuse(q, due, sent)
  {
    AtLeastNone(q, Sum(due, sent));
  }

  /** A full work queue, and one task due that has a queue to itself, as long as it keeps its priority. */
  lemma Demoted(b: Board, d: Task, nobody: seq<Task>)
    requires Lone(b, d, QUEUELEN) && nobody == [] && b.Prio(d) == Express
    ensures CanCut(b, nobody) && !CanCutSteadily(b, nobody)
  {
    OneDue(b, d);
    OneDemoted(b.queues, Due(b), LoadOf(nobody, b.prio));
    CutExactly(b, nobody);
    SteadyCutExactly(b, nobody);
  }

  lemma OneDemoted(q: Queues, due: Load, nothing: Load)
    requires |q.high| == |q.express| == 0 && |q.work| == QUEUELEN
    requires due.high == due.none == nothing.high == nothing.express == nothing.none == 0 && due.express == 1
    ensures MayOverflow(q, due, nothing) && !MayRefuse(q, due, nothing)
  {
    RoomAbove(q, due, nothing);
  }

  /** What fits in the two upper queues leaves the lowest one to the others. */
  lemma UpperFits(q: Queues, l: Load)
    requires l.high <= PRIOLEN - |q.high| && l.express <= EXPRLEN - |q.express|
    ensures ExpressDown(q, l) == l.express && Down(q, l) == l.none
  {
  }

  lemma AtLeastNone(q: Queues, l: Load)
    ensures Down(q, l) >= l.none
  {
  }

  /** A full work queue, one task due for the free high queue, and another sent that fits nowhere: together they exceed
      the room, but no course of events cuts the dispatch. */
  lemma ExceedingIsNotEnough(b: Board, d: Task, others: seq<Task>)
    requires Lone(b, d, QUEUELEN) && |others| == 1
    requires b.Prio(d) == High && b.Prio(others[0]) == Prio.None
    ensures Exceeds(b.queues, Sum(Due(b), LoadOf(others, b.prio))) && !CanCut(b, others)
  {
    OneDue(b, d);
    OneLoad(others, b.prio);
    OneEach(b.queues, Due(b), LoadOf(others, b.prio));
    CutExactly(b, others);
  }

  lemma OneEach(q: Queues, due: Load, sent: Load)
    requires |q.high| == |q.express| == 0 && |q.work| == QUEUELEN && due == One(High) && sent == One(Prio.None)
    ensures Exceeds(q, Sum(due, sent)) && !MayOverflow(q, due, sent)
  {
    AtLeastNone(q, Sum(due, sent));
  }

  /** What is due for the upper queues and fits there is never refused, as long as it stays there. */
  lemma RoomAbove(q: Queues, due: Load, sent: Load)
    requires q.Fit() && due.none == 0
    requires due.high + sent.high <= PRIOLEN - |q.high| && due.express + sent.express <= EXPRLEN - |q.express|
    ensures !MayRefuse(q, due, sent)
  {
    UpperFits(q, Sum(due, sent));
  }

  lemma OneLoad(ts: seq<Task>, prio: map<Task, Prio>)
    requires |ts| == 1
    ensures LoadOf(ts, prio) == One(PrioIn(prio, ts[0]))
  {
    assert ts[..|ts| - 1] == [];
    PlusNothing(One(PrioIn(prio, ts[0])));
  }

  lemma OneDue(b: Board, d: Task)
    requires b.entries == {(1, d)} && b.busy == Some(1)
    ensures Due(b) == One(b.Prio(d))
  {
    forall p ensures DueIn(b.entries, b.prio, 1, p) == if p == b.Prio(d) then {(1, d)} else {} {
    }
  }

  // ---- a whole dispatch ----

  lemma {:induction false} NoCuts(es: seq<Event>)
    requires Within(es)
    ensures Cuts(es) == 0
  {
    if es != [] {
      NoCuts(es[..|es| - 1]);
      assert Outside(es[|es| - 1]) || es[|es| - 1].Hand?;
    }
  }

  /** Whatever others do while it runs, nothing is lost or made, only what is due goes, and in order of time. */
  lemma DispatchConserves(b: Board, now: int, mid: seq<Event>, m: Board, end: Event, b': Board)
    requires Good(b) && Dispatched(b, now, mid, m, end, b')
    ensures multiset(b.entries) == multiset(b'.entries) + multiset(Handed(mid))
    ensures b.queues.All() + multiset(Tasks(Handed(mid))) + multiset(Sent(mid)) == b'.queues.All() + multiset(Took(mid))
    ensures InOrder(Handed(mid)) && AllBy(Handed(mid), now)
    ensures end.Rest? ==> forall e :: e in b'.entries ==> e.0 > now
  {
    var b1 := Next(b, Tick(now));
    assert Good(b1);
    Conserved(b1, mid, m);
  }

  /** A dispatch that is cut has met more than the room there was, and leaves one entry that its task does not point at;
      one that is not leaves none, if there was none. */
  lemma DispatchCut(b: Board, now: int, mid: seq<Event>, m: Board, end: Event, b': Board)
    requires Good(b) && Dispatched(b, now, mid, m, end, b')
    ensures end.Refuse? ==> MayOverflow(b.queues, DueOf(b.entries, b.prio, now), LoadOf(Sent(mid), b.prio))
    ensures end.Refuse? && Steady(Next(b, Tick(now)), mid) ==>
              MayRefuse(b.queues, DueOf(b.entries, b.prio, now), LoadOf(Sent(mid), b.prio))
    ensures Single(b.entries, b.locte) ==>
              if end.Refuse? then SingleBut(b'.entries, b'.locte, (end.at, end.d)) else Single(b'.entries, b'.locte)
  {
    var b1 := Next(b, Tick(now));
    assert Good(b1);
    if end.Refuse? {
      CutNeeds(b1, mid, m, end.at, end.d);
    }
    if Single(b.entries, b.locte) {
      NoOrphans(b1);
      NoCuts(mid);
      OrphansOnlyByCuts(b1, mid, m);
      NoOrphans(m);
      if end.Refuse? {
        CutOrphans(m, end.at, end.d);
      }
    }
  }
}
