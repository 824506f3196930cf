/** The scheduler as a state machine: the main loop, the workers and everyone who asks for a task to run, a step at a time. */
module Dispatching {
  import opened Wrappers

  const PRIOLEN := 10
  const EXPRLEN := 1000
  const QUEUELEN := 1000

  type Task = nat
  type Entry = (int, Task)    // a time, and a task due then

  datatype Prio = None | Express | High

  function PrioIn(prio: map<Task, Prio>, d: Task): Prio {
    if d in prio then prio[d] else Prio.None
  }

  // ---- the queues ----

  datatype Queues = Queues(high: seq<Task>, express: seq<Task>, work: seq<Task>)
  {
    predicate Fit() {
      |high| <= PRIOLEN && |express| <= EXPRLEN && |work| <= QUEUELEN
    }

    function All(): multiset<Task> {
      multiset(high) + multiset(express) + multiset(work)
    }

    function Line(p: Prio): seq<Task> {
      match p case High => high case Express => express case None => work
    }

    /** A worker has taken the first task of a queue. A worker that waits takes what comes at once: its queue is empty. */
    function Popped(p: Prio): Queues
      requires Line(p) != []
    {
      match p
      case High => this.(high := high[1..])
      case Express => this.(express := express[1..])
      case None => this.(work := work[1..])
    }
  }

  /** Some queue among that of a priority and the lower ones has room. */
  predicate Room(q: Queues, p: Prio) {
    || (p == High && |q.high| < PRIOLEN)
    || (p != Prio.None && |q.express| < EXPRLEN)
    || |q.work| < QUEUELEN
  }

  /** A task goes to the first of them. */
  function Taken(q: Queues, d: Task, p: Prio): Queues {
    if p == High && |q.high| < PRIOLEN then q.(high := q.high + [d])
    else if p != Prio.None && |q.express| < EXPRLEN then q.(express := q.express + [d])
    else if |q.work| < QUEUELEN then q.(work := q.work + [d])
    else q
  }

  lemma TakenOnce(q: Queues, d: Task, p: Prio)
    requires q.Fit()
    ensures Taken(q, d, p).Fit()
    ensures Taken(q, d, p).All() == if Room(q, p) then q.All() + multiset{d} else q.All()
    ensures !Room(q, p) ==> Taken(q, d, p) == q && |q.work| == QUEUELEN
  {
  }

  lemma PoppedOnce(q: Queues, p: Prio)
    requires q.Fit() && q.Line(p) != []
    ensures q.Popped(p).Fit() && q.Popped(p).All() + multiset{q.Line(p)[0]} == q.All()
  {
    var line := q.Line(p);
    assert line == [line[0]] + line[1..];
  }

  // ---- the state and its steps ----

  /**
   * What is scheduled; where each task points: its bucket's time stands for the bucket; when each task wants to run,
   * 0 for never; the queues; the tasks waiting for the main loop to receive them; and since when the main loop has
   * been dispatching, if it is.
   */
  datatype Board = Board(entries: set<Entry>, locte: map<Task, int>, when: map<Task, int>, prio: map<Task, Prio>,
                         queues: Queues, calls: seq<Task>, busy: Option<int>)
  {
    function When(d: Task): int {
      if d in when then when[d] else 0
    }

    function Prio(d: Task): Prio {
      PrioIn(prio, d)
    }
  }

  /** Nothing is scheduled or queued. Some tasks are made with high priority. */
  function Start(high: set<Task>): Board {
    Board({}, map[], map[], map d | d in high :: High, Queues([], [], []), [], Option.None)
  }

  /**
   * Of others: a task gets a time and a priority and is handed to the main loop, but what is high stays high, and
   * nothing becomes high; a task is sent straight to the queues, or, when they have no room, is handed to the main loop
   * with a time; a worker takes a task.
   * Of the main loop: it receives a task; it starts to dispatch; it hands over an entry; a queue refuses one, which
   * ends the dispatch; nothing due is left, which ends it too.
   */
  datatype Event =
    | Ready(d: Task, when: int, prio: Prio)
    | Asap(d: Task)
    | Defer(d: Task, when: int)
    | Take(p: Prio, d: Task)
    | Receive
    | Tick(now: int)
    | Hand(at: int, d: Task)
    | Refuse(at: int, d: Task)
    | Rest

  /** Due, and nothing is scheduled for an earlier time. */
  ghost predicate IsNext(b: Board, e: Entry) {
    && b.busy.Some? && e in b.entries && e.0 <= b.busy.value
    && forall x :: x in b.entries ==> e.0 <= x.0
  }

  /** What the main loop makes of the entries when it receives `d`, to run at `w`. */
  ghost function Moved(es: set<Entry>, locte: map<Task, int>, d: Task, w: int): set<Entry> {
    es - (if d in locte then {(locte[d], d)} else {}) + (if w == 0 then {} else {(w, d)})
  }

  function Pointed(locte: map<Task, int>, d: Task, w: int): map<Task, int> {
    if w == 0 then locte - {d} else locte[d := w]
  }

  function Reprio(prio: map<Task, Prio>, d: Task, p: Prio): map<Task, Prio> {
    if PrioIn(prio, d) == p then prio else prio[d := p]
  }

  /** Where a step leads, if it can be taken. */
  ghost function Step(b: Board, e: Event): Option<Board> {
    match e
    case Ready(d, w, p) =>
      if (p == High) == (b.Prio(d) == High) then
        Some(b.(when := b.when[d := w], prio := Reprio(b.prio, d, p), calls := b.calls + [d]))
      else Option.None
    case Asap(d) =>
      if Room(b.queues, b.Prio(d)) then Some(b.(queues := Taken(b.queues, d, b.Prio(d)))) else Option.None
    case Defer(d, w) =>
      if Room(b.queues, b.Prio(d)) then Option.None else Some(b.(when := b.when[d := w], calls := b.calls + [d]))
    case Take(p, d) =>
      if b.queues.Line(p) != [] && d == b.queues.Line(p)[0] then Some(b.(queues := b.queues.Popped(p))) else Option.None
    case Receive =>
      if b.busy != Option.None || b.calls == [] then Option.None
      else
        var d := b.calls[0];
        Some(b.(calls := b.calls[1..], entries := Moved(b.entries, b.locte, d, b.When(d)),
                locte := Pointed(b.locte, d, b.When(d))))
    case Tick(now) =>
      if b.busy == Option.None then Some(b.(busy := Some(now))) else Option.None
    case Hand(w, d) =>
      if IsNext(b, (w, d)) && Room(b.queues, b.Prio(d)) then
        Some(b.(entries := b.entries - {(w, d)}, locte := b.locte - {d}, queues := Taken(b.queues, d, b.Prio(d))))
      else Option.None
    case Refuse(w, d) =>
      if IsNext(b, (w, d)) && !Room(b.queues, b.Prio(d)) then Some(b.(locte := b.locte - {d}, busy := Option.None))
      else Option.None
    case Rest =>
      if b.busy.Some? && forall x :: x in b.entries ==> x.0 > b.busy.value then Some(b.(busy := Option.None))
      else Option.None
  }

  ghost predicate Enabled(b: Board, e: Event) {
    Step(b, e) != Option.None
  }

  ghost function Next(b: Board, e: Event): Board
    requires Enabled(b, e)
  {
    Step(b, e).value
  }

  /** Where some steps lead, if each can be taken. */
  ghost function After(b: Board, es: seq<Event>): Option<Board> {
    if es == [] then Some(b)
    else
      match After(b, es[..|es| - 1])
      case None => Option.None
      case Some(m) => if Enabled(m, es[|es| - 1]) then Some(Next(m, es[|es| - 1])) else Option.None
  }

  ghost predicate Runs(b: Board, es: seq<Event>, b': Board) {
    After(b, es) == Some(b')
  }

  lemma LastStep(b: Board, es: seq<Event>, b': Board) returns (m: Board)
    requires Runs(b, es, b') && es != []
    ensures Runs(b, es[..|es| - 1], m) && Enabled(m, es[|es| - 1]) && b' == Next(m, es[|es| - 1])
  {
    m := After(b, es[..|es| - 1]).value;
  }

  lemma OneMore(b: Board, es: seq<Event>, m: Board, e: Event)
    requires Runs(b, es, m) && Enabled(m, e)
    ensures Runs(b, es + [e], Next(m, e))
  {
    assert (es + [e])[..|es|] == es;
  }

  lemma {:induction false} RunsOn(b: Board, es: seq<Event>, m: Board, more: seq<Event>, b': Board)
    requires Runs(b, es, m) && Runs(m, more, b')
    ensures Runs(b, es + more, b')
  {
    if more == [] {
      assert es + more == es;
    } else {
      var k := |more| - 1;
      var m' := LastStep(m, more, b');
      RunsOn(b, es, m, more[..k], m');
      OneMore(b, es + more[..k], m', more[k]);
      assert es + more == es + more[..k] + [more[k]];
    }
  }

  // ---- what holds in every state ----

  /** Where a task points, it is scheduled. */
  ghost predicate Linked(es: set<Entry>, locte: map<Task, int>) {
    forall t :: t in locte ==> (locte[t], t) in es
  }

  ghost predicate Good(b: Board) {
    Linked(b.entries, b.locte) && b.queues.Fit()
  }

  lemma NextGood(b: Board, e: Event)
    requires Good(b) && Enabled(b, e)
    ensures Good(Next(b, e))
  {
    NextFits(b, e);
    NextLinked(b, e);
  }

  lemma NextFits(b: Board, e: Event)
    requires b.queues.Fit() && Enabled(b, e)
    ensures Next(b, e).queues.Fit()
  {
    if e.Asap? || e.Hand? {
      TakenOnce(b.queues, e.d, b.Prio(e.d));
    } else if e.Take? {
      PoppedOnce(b.queues, e.p);
    }
  }

  lemma NextLinked(b: Board, e: Event)
    requires Linked(b.entries, b.locte) && Enabled(b, e)
    ensures Linked(Next(b, e).entries, Next(b, e).locte)
  {
  }

  lemma {:induction false} RunGood(b: Board, es: seq<Event>, b': Board)
    requires Good(b) && Runs(b, es, b')
    ensures Good(b')
  {
    if es != [] {
      var m := LastStep(b, es, b');
      RunGood(b, es[..|es| - 1], m);
      NextGood(m, es[|es| - 1]);
    }
  }

  // ---- tasks in two buckets ----

  /** Every entry is the one its task points at. */
  ghost predicate Single(es: set<Entry>, locte: map<Task, int>) {
    forall e :: e in es ==> Points(locte, e)
  }

  predicate Points(locte: map<Task, int>, e: Entry) {
    e.1 in locte && locte[e.1] == e.0
  }

  /** The entries that their tasks do not point at: nobody can take them out but a dispatch. */
  ghost function Orphans(b: Board): set<Entry> {
    set e | e in b.entries && !Points(b.locte, e)
  }

  ghost predicate Twice(es: set<Entry>, d: Task) {
    exists w, w' :: w != w' && (w, d) in es && (w', d) in es
  }

  lemma NoneTwice(es: set<Entry>, locte: map<Task, int>, d: Task)
    requires Single(es, locte)
    ensures !Twice(es, d)
  {
    forall w, w' | (w, d) in es && (w', d) in es ensures w == w' {
      assert Points(locte, (w, d)) && Points(locte, (w', d));
    }
  }

  function Cuts(es: seq<Event>): nat {
    if es == [] then 0 else Cuts(es[..|es| - 1]) + if es[|es| - 1].Refuse? then 1 else 0
  }

  lemma Subset(x: set<Entry>, y: set<Entry>)
    requires x <= y
    ensures |x| <= |y|
    decreases |x|
  {
    if x != {} {
      var e :| e in x;
      Subset(x - {e}, y - {e});
    }
  }

  /** A step makes at most one orphan, and only a cut does. */
  lemma NextOrphans(b: Board, e: Event)
    requires Good(b) && Enabled(b, e)
    ensures |Orphans(Next(b, e))| <= |Orphans(b)| + if e.Refuse? then 1 else 0
  {
    match e {
      case Hand(w, d) => HandOrphans(b, w, d);
      case Refuse(w, d) => RefuseOrphans(b, w, d);
      case Receive => ReceiveOrphans(b);
      case _ => SameOrphans(b, Next(b, e));
    }
  }

  lemma SameOrphans(b: Board, b': Board)
    requires b'.entries == b.entries && b'.locte == b.locte
    ensures Orphans(b') == Orphans(b)
  {
  }

  lemma RefuseOrphans(b: Board, w: int, d: Task)
    requires Enabled(b, Refuse(w, d))
    ensures |Orphans(Next(b, Refuse(w, d)))| <= |Orphans(b)| + 1
  {
    var x: set<Entry> := if d in b.locte then {(b.locte[d], d)} else {};
    Subset(Orphans(Next(b, Refuse(w, d))), Orphans(b) + x);
  }

  lemma ReceiveOrphans(b: Board)
    requires Enabled(b, Receive)
    ensures |Orphans(Next(b, Receive))| <= |Orphans(b)|
  {
    Subset(Orphans(Next(b, Receive)), Orphans(b));
  }

  /** The entry of a task handed over makes an orphan of the other one, if it was an orphan itself. */
  lemma HandOrphans(b: Board, w: int, d: Task)
    requires Good(b) && Enabled(b, Hand(w, d))
    ensures |Orphans(Next(b, Hand(w, d)))| <= |Orphans(b)|
  {
    var was, now := Orphans(b), Orphans(Next(b, Hand(w, d)));
    if d in b.locte && b.locte[d] != w {
      var e := (b.locte[d], d);
      assert (w, d) in was && e !in was;
      Subset(now, was - {(w, d)} + {e});
    } else {
      Subset(now, was);
    }
  }

  /** Over every run there are no more orphans than dispatches were cut, beyond those there were. */
  lemma {:induction false} OrphansOnlyByCuts(b: Board, es: seq<Event>, b': Board)
    requires Good(b) && Runs(b, es, b')
    ensures |Orphans(b')| <= |Orphans(b)| + Cuts(es)
  {
    if es != [] {
      var m := LastStep(b, es, b');
      RunGood(b, es[..|es| - 1], m);
      OrphansOnlyByCuts(b, es[..|es| - 1], m);
      NextOrphans(m, es[|es| - 1]);
    }
  }

  lemma NoOrphans(b: Board)
    ensures Orphans(b) == {} <==> Single(b.entries, b.locte)
  {
    if e :| e in b.entries && !Points(b.locte, e) {
      assert e in Orphans(b);
    }
  }

  /** As long as no dispatch is cut, no task is in two buckets. */
  lemma UncutNoneTwice(high: set<Task>, es: seq<Event>, b: Board, d: Task)
    requires Runs(Start(high), es, b) && Cuts(es) == 0
    ensures Single(b.entries, b.locte) && !Twice(b.entries, d)
  {
    assert Orphans(Start(high)) == {};
    OrphansOnlyByCuts(Start(high), es, b);
    NoOrphans(b);
    NoneTwice(b.entries, b.locte, d);
  }

  /** Every entry but `but` is the one its task points at, and the task of `but` points nowhere. */
  ghost predicate SingleBut(es: set<Entry>, locte: map<Task, int>, but: Entry) {
    && but in es && but.1 !in locte
    && forall e :: e in es && e != but ==> Points(locte, e)
  }

  /** A cut leaves exactly the entry refused without its task. */
  lemma CutOrphans(b: Board, w: int, d: Task)
    requires Single(b.entries, b.locte) && Enabled(b, Refuse(w, d))
    ensures var b' := Next(b, Refuse(w, d)); SingleBut(b'.entries, b'.locte, (w, d))
  {
    assert Points(b.locte, (w, d));
  }

  /** Then receiving a task puts one in two buckets exactly if it is the orphan and goes to another time. */
  lemma TwiceExactly(b: Board, orphan: Entry)
    requires SingleBut(b.entries, b.locte, orphan) && Enabled(b, Receive)
    ensures forall t :: !Twice(b.entries, t)
    ensures (exists t :: Twice(Next(b, Receive).entries, t))
            <==> b.calls[0] == orphan.1 && b.When(b.calls[0]) !in {0, orphan.0}
  {
    var es, now, d, w := b.entries, Next(b, Receive).entries, b.calls[0], b.When(b.calls[0]);
    forall t, x, y | (x, t) in es && (y, t) in es ensures x == y {
      assert (x, t) == orphan || Points(b.locte, (x, t));
      assert (y, t) == orphan || Points(b.locte, (y, t));
    }
    if d == orphan.1 && w != 0 && w != orphan.0 {
      assert (orphan.0, d) in now && (w, d) in now;
      assert Twice(now, d);
    } else {
      forall t, x, y | (x, t) in now && (y, t) in now ensures x == y {
        if t == d {
          OnlyHere(b, orphan, x);
          OnlyHere(b, orphan, y);
        }
      }
    }
  }

  lemma OnlyHere(b: Board, orphan: Entry, x: int)
    requires SingleBut(b.entries, b.locte, orphan) && Enabled(b, Receive)
    requires !(b.calls[0] == orphan.1 && b.When(b.calls[0]) !in {0, orphan.0})
    requires (x, b.calls[0]) in Next(b, Receive).entries
    ensures x == if b.calls[0] == orphan.1 then orphan.0 else b.When(b.calls[0])
  {
    var e := (x, b.calls[0]);
    if e in b.entries && e != orphan {
      assert Points(b.locte, e);
    }
  }

  // ---- one dispatch ----

  /** Steps others take. */
  predicate Outside(e: Event) {
    e.Ready? || e.Asap? || e.Defer? || e.Take?
  }

  /** Steps that can be taken while a dispatch is under way. */
  predicate Within(es: seq<Event>) {
    forall k :: 0 <= k < |es| ==> Outside(es[k]) || es[k].Hand?
  }

  ghost predicate Under(b: Board, es: seq<Event>, m: Board) {
    (Good(b) && b.busy.Some? && Within(es) && Runs(b, es, m)) == true
  }

  /** What a step does to the queues. */
  function Queued(q: Queues, e: Event, prio: map<Task, Prio>): Queues {
    if e.Hand? || e.Asap? then Taken(q, e.d, PrioIn(prio, e.d))
    else if e.Take? && q.Line(e.p) != [] then q.Popped(e.p)
    else q
  }

  /** And to the priorities. */
  function Rated(prio: map<Task, Prio>, e: Event): map<Task, Prio> {
    if e.Ready? then Reprio(prio, e.d, e.prio) else prio
  }

  predicate Acceptable(q: Queues, e: Event, prio: map<Task, Prio>) {
    && (e.Hand? || e.Asap? ==> Room(q, PrioIn(prio, e.d)))
    && (e.Take? ==> q.Line(e.p) != [] && e.d == q.Line(e.p)[0])
    && (e.Ready? ==> (e.prio == High) == (PrioIn(prio, e.d) == High))
  }

  lemma UnderLast(b: Board, es: seq<Event>, b': Board) returns (m: Board, e: Event)
    requires Under(b, es, b') && es != []
    ensures e == es[|es| - 1] && Under(b, es[..|es| - 1], m) && Enabled(m, e) && b' == Next(m, e)
    ensures Good(m) && Good(b') && b'.busy == m.busy && m.busy.Some? && Acceptable(m.queues, e, m.prio)
    ensures b'.queues == Queued(m.queues, e, m.prio) && b'.prio == Rated(m.prio, e)
    ensures b'.entries == if e.Hand? then m.entries - {(e.at, e.d)} else m.entries
    ensures e.Hand? ==> IsNext(m, (e.at, e.d))
  {
    m := LastStep(b, es, b');
    e := es[|es| - 1];
    RunGood(b, es[..|es| - 1], m);
    StillBusy(b, es[..|es| - 1], m);
    NextGood(m, e);
  }

  lemma {:induction false} StillBusy(b: Board, es: seq<Event>, b': Board)
    requires Under(b, es, b')
    ensures b'.busy == b.busy
  {
    if es != [] {
      var m := LastStep(b, es, b');
      StillBusy(b, es[..|es| - 1], m);
    }
  }

  function HandedBy(e: Event): seq<Entry> {
    if e.Hand? then [(e.at, e.d)] else []
  }

  function SentBy(e: Event): seq<Task> {
    if e.Asap? then [e.d] else []
  }

  function TookBy(e: Event): seq<Task> {
    if e.Take? then [e.d] else []
  }

  function Handed(es: seq<Event>): seq<Entry> {
    if es == [] then [] else Handed(es[..|es| - 1]) + HandedBy(es[|es| - 1])
  }

  function Sent(es: seq<Event>): seq<Task> {
    if es == [] then [] else Sent(es[..|es| - 1]) + SentBy(es[|es| - 1])
  }

  function Took(es: seq<Event>): seq<Task> {
    if es == [] then [] else Took(es[..|es| - 1]) + TookBy(es[|es| - 1])
  }

  function Tasks(log: seq<Entry>): (ts: seq<Task>)
    ensures |ts| == |log|
  {
    seq(|log|, i requires 0 <= i < |log| => log[i].1)
  }

  ghost predicate InOrder(log: seq<Entry>) {
    forall i, j :: 0 <= i < j < |log| ==> log[i].0 <= log[j].0
  }

  /** All that is still scheduled is no earlier than what was handed over. */
  ghost predicate Later(log: seq<Entry>, es: set<Entry>) {
    forall i, e :: 0 <= i < |log| && e in es ==> log[i].0 <= e.0
  }

  /**
   * Whatever others do meanwhile, a dispatch loses and makes nothing: what was scheduled is still scheduled or was
   * handed over, each entry once, in order of time, and due; and what was handed over, or sent straight in, or queued
   * before, is queued or was taken by a worker.
   */
  lemma Conserved(b: Board, es: seq<Event>, b': Board)
    requires Under(b, es, b')
    ensures Good(b') && b'.busy == b.busy
    ensures multiset(b.entries) == multiset(b'.entries) + multiset(Handed(es))
    ensures b.queues.All() + multiset(Tasks(Handed(es))) + multiset(Sent(es)) == b'.queues.All() + multiset(Took(es))
    ensures InOrder(Handed(es)) && Later(Handed(es), b'.entries) && AllBy(Handed(es), b.busy.value)
  {
    RunGood(b, es, b');
    EntriesConserved(b, es, b');
    QueuesConserved(b, es, b');
  }

  ghost predicate AllBy(log: seq<Entry>, now: int) {
    forall k :: 0 <= k < |log| ==> log[k].0 <= now
  }

  lemma {:induction false} EntriesConserved(b: Board, es: seq<Event>, b': Board)
    requires Under(b, es, b')
    ensures b'.busy == b.busy && multiset(b.entries) == multiset(b'.entries) + multiset(Handed(es))
    ensures InOrder(Handed(es)) && Later(Handed(es), b'.entries) && AllBy(Handed(es), b.busy.value)
  {
    if es != [] {
      var m, e := UnderLast(b, es, b');
      EntriesConserved(b, es[..|es| - 1], m);
      EntriesStep(m, e, b'.entries, Handed(es[..|es| - 1]));
    }
  }

  lemma EntriesStep(m: Board, e: Event, left: set<Entry>, log: seq<Entry>)
    requires m.busy.Some? && (e.Hand? ==> IsNext(m, (e.at, e.d)))
    requires left == if e.Hand? then m.entries - {(e.at, e.d)} else m.entries
    requires InOrder(log) && Later(log, m.entries) && AllBy(log, m.busy.value)
    ensures multiset(m.entries) == multiset(left) + multiset(HandedBy(e))
    ensures InOrder(log + HandedBy(e)) && Later(log + HandedBy(e), left) && AllBy(log + HandedBy(e), m.busy.value)
  {
    if e.Hand? {
      assert m.entries == left + {(e.at, e.d)};
    } else {
      assert log + HandedBy(e) == log;
    }
  }

  lemma {:induction false} QueuesConserved(b: Board, es: seq<Event>, b': Board)
    requires Under(b, es, b')
    ensures b.queues.All() + multiset(Tasks(Handed(es))) + multiset(Sent(es)) == b'.queues.All() + multiset(Took(es))
  {
    if es != [] {
      var k := |es| - 1;
      var m, e := UnderLast(b, es, b');
      QueuesConserved(b, es[..k], m);
      QueuesStep(m.queues, e, m.prio, b'.queues);
      TasksConcat(Handed(es[..k]), HandedBy(e));
      AddUp(b.queues.All(), m.queues.All(), b'.queues.All(), Tasks(Handed(es[..k])), Sent(es[..k]), Took(es[..k]),
            Tasks(HandedBy(e)), SentBy(e), TookBy(e));
    }
  }

  lemma QueuesStep(q: Queues, e: Event, prio: map<Task, Prio>, q': Queues)
    requires q.Fit() && Acceptable(q, e, prio) && q' == Queued(q, e, prio)
    ensures q.All() + multiset(Tasks(HandedBy(e))) + multiset(SentBy(e)) == q'.All() + multiset(TookBy(e))
  {
    TasksOf(e);
    if e.Hand? || e.Asap? {
      TakenOnce(q, e.d, PrioIn(prio, e.d));
    } else if e.Take? {
      PoppedOnce(q, e.p);
    }
  }

  lemma TasksOf(e: Event)
    ensures Tasks(HandedBy(e)) == if e.Hand? then [e.d] else []
  {
  }

  lemma TasksConcat(log: seq<Entry>, more: seq<Entry>)
    ensures Tasks(log + more) == Tasks(log) + Tasks(more)
  {
  }

  lemma AddUp(q: multiset<Task>, q1: multiset<Task>, q2: multiset<Task>, handed: seq<Task>, sent: seq<Task>, took: seq<Task>,
              h: seq<Task>, s: seq<Task>, t: seq<Task>)
    requires q + multiset(handed) + multiset(sent) == q1 + multiset(took)
    requires q1 + multiset(h) + multiset(s) == q2 + multiset(t)
    ensures q + multiset(handed + h) + multiset(sent + s) == q2 + multiset(took + t)
  {
    calc {
      q + multiset(handed + h) + multiset(sent + s);
      q + multiset(handed) + multiset(sent) + multiset(h) + multiset(s);
      q1 + multiset(took) + multiset(h) + multiset(s);
      q1 + multiset(h) + multiset(s) + multiset(took);
      q2 + multiset(t) + multiset(took);
      q2 + multiset(took + t);
    }
  }

  /** A dispatch from its beginning to its end: what happens meanwhile, and how it ends. */
  ghost predicate Dispatched(b: Board, now: int, mid: seq<Event>, m: Board, end: Event, b': Board) {
    && Enabled(b, Tick(now)) && Runs(Next(b, Tick(now)), mid, m) && Within(mid)
    && (end.Refuse? || end.Rest?) && Enabled(m, end) && b' == Next(m, end)
  }

  lemma DispatchRuns(b: Board, now: int, mid: seq<Event>, m: Board, end: Event, b': Board) returns (es: seq<Event>)
    requires Dispatched(b, now, mid, m, end, b')
    ensures es == [Tick(now)] + mid + [end] && Runs(b, es, b')
  {
    OneMore(b, [], b, Tick(now));
    assert [] + [Tick(now)] == [Tick(now)];
    RunsOn(b, [Tick(now)], Next(b, Tick(now)), mid, m);
    OneMore(b, [Tick(now)] + mid, m, end);
    es := [Tick(now)] + mid + [end];
  }

  /** Refused once, and received again for another time, a task is in two buckets. */
  lemma CutThenTwice(b: Board, e: Entry, now: int, w: int) returns (es: seq<Event>, b': Board)
    requires Good(b) && Single(b.entries, b.locte) && b.busy == Option.None && b.calls == []
    requires IsNext(b.(busy := Some(now)), e) && !Room(b.queues, b.Prio(e.1)) && w != 0 && w != e.0
    ensures es == [Tick(now), Refuse(e.0, e.1), Ready(e.1, w, b.Prio(e.1)), Receive]
    ensures Runs(b, es, b') && Twice(b'.entries, e.1)
  {
    var b1 := Next(b, Tick(now));
    var b2 := Next(b1, Refuse(e.0, e.1));
    var b3 := Next(b2, Ready(e.1, w, b.Prio(e.1)));
    b' := Next(b3, Receive);
    OneMore(b, [], b, Tick(now));
    OneMore(b, [] + [Tick(now)], b1, Refuse(e.0, e.1));
    OneMore(b, [] + [Tick(now)] + [Refuse(e.0, e.1)], b2, Ready(e.1, w, b.Prio(e.1)));
    OneMore(b, [] + [Tick(now)] + [Refuse(e.0, e.1)] + [Ready(e.1, w, b.Prio(e.1))], b3, Receive);
    es := [] + [Tick(now)] + [Refuse(e.0, e.1)] + [Ready(e.1, w, b.Prio(e.1))] + [Receive];
    assert (e.0, e.1) in b'.entries && (w, e.1) in b'.entries;
  }
}
