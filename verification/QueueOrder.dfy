/** Over whole runs of the scheduler: which queue a task goes to, that queues keep their order, and where tasks stand. */
module QueueOrder {
  import opened Wrappers
  import opened Dispatching

  /** From the top down. */
  function Rank(p: Prio): nat {
    match p case High => 0 case Express => 1 case None => 2
  }

  function Ranked(r: nat): Prio
    requires r <= 2
  {
    if r == 0 then High else if r == 1 then Express else Prio.None
  }

  predicate HasRoom(q: Queues, r: nat)
    requires r <= 2
  {
    |q.Line(Ranked(r))| < if r == 0 then 10 else 1000
  }

  /** The first queue with room from a priority's own down, or 3 if there is none. */
  function Home(q: Queues, r: nat): (h: nat)
    requires r <= 3
    ensures r <= h <= 3 && (h < 3 ==> HasRoom(q, h)) && forall k :: r <= k < h ==> !HasRoom(q, k)
    decreases 3 - r
  {
    if r == 3 || HasRoom(q, r) then r else Home(q, r + 1)
  }

  /** There is room exactly if there is such a queue; the task goes to its end, and the others stay as they are. */
  lemma TakenHome(q: Queues, d: Task, p: Prio)
    ensures Room(q, p) <==> Home(q, Rank(p)) < 3
    ensures forall r :: 0 <= r <= 2 ==>
                          Taken(q, d, p).Line(Ranked(r)) == q.Line(Ranked(r)) + if r == Home(q, Rank(p)) then [d] else []
  {
    var h := Home(q, Rank(p));
    forall r | 0 <= r <= 2 ensures Taken(q, d, p).Line(Ranked(r)) == q.Line(Ranked(r)) + if r == h then [d] else [] {
      TakenThere(q, d, p, r);
    }
  }

  lemma TakenThere(q: Queues, d: Task, p: Prio, r: nat)
    requires r <= 2
    ensures Taken(q, d, p).Line(Ranked(r)) == q.Line(Ranked(r)) + if r == Home(q, Rank(p)) then [d] else []
  {
    assert Home(q, 3) == 3;
    assert q.Line(Ranked(r)) + [] == q.Line(Ranked(r));
  }

  /** What an event puts in a queue, and what a worker takes from it. */
  function PutBy(b: Board, e: Event, r: nat): seq<Task> {
    if (e.Hand? || e.Asap?) && Home(b.queues, Rank(b.Prio(e.d))) == r then [e.d] else []
  }

  function TookFrom(e: Event, r: nat): seq<Task> {
    if e.Take? && Rank(e.p) == r then [e.d] else []
  }

  ghost function Put(b: Board, es: seq<Event>, r: nat): seq<Task>
    requires After(b, es) != Option.None
  {
    if es == [] then []
    else
      var k := |es| - 1;
      Put(b, es[..k], r) + PutBy(After(b, es[..k]).value, es[k], r)
  }

  function Took(es: seq<Event>, r: nat): seq<Task> {
    if es == [] then [] else Took(es[..|es| - 1], r) + TookFrom(es[|es| - 1], r)
  }

  /**
   * Over every run workers take the tasks of a queue in the order in which they got there: those that stood in it and
   * those put in since are those taken, and then those that stand in it now.
   */
  lemma {:induction false} FirstInFirstOut(b: Board, es: seq<Event>, b': Board, r: nat)
    requires Runs(b, es, b') && r <= 2
    ensures b.queues.Line(Ranked(r)) + Put(b, es, r) == Took(es, r) + b'.queues.Line(Ranked(r))
  {
    if es != [] {
      var k := |es| - 1;
      var m := LastStep(b, es, b');
      FirstInFirstOut(b, es[..k], m, r);
      OneEvent(m, es[k], b', r);
      Regroup(b.queues.Line(Ranked(r)), Put(b, es[..k], r), PutBy(m, es[k], r));
      Regroup(Took(es[..k], r), m.queues.Line(Ranked(r)), PutBy(m, es[k], r));
      Regroup(Took(es[..k], r), TookFrom(es[k], r), b'.queues.Line(Ranked(r)));
    }
  }

  lemma Regroup(a: seq<Task>, b: seq<Task>, c: seq<Task>)
    ensures a + b + c == a + (b + c)
  {
  }

  lemma OneEvent(b: Board, e: Event, b': Board, r: nat)
    requires Enabled(b, e) && b' == Next(b, e) && r <= 2
    ensures b.queues.Line(Ranked(r)) + PutBy(b, e, r) == TookFrom(e, r) + b'.queues.Line(Ranked(r))
  {
    if e.Hand? || e.Asap? {
      TakenThere(b.queues, e.d, b.Prio(e.d), r);
    }
  }

  // ---- where tasks stand ----

  /** A task that is scheduled and not waiting to be received stands at the time it was last given. */
  ghost predicate AtTheirTimes(b: Board) {
    forall d :: d in b.locte && d !in b.calls ==> b.locte[d] == b.When(d) != 0
  }

  /** Over every run. */
  lemma {:induction false} StandAtTheirTimes(high: set<Task>, es: seq<Event>, b: Board)
    requires Runs(Start(high), es, b)
    ensures AtTheirTimes(b)
  {
    if es != [] {
      var m := LastStep(Start(high), es, b);
      StandAtTheirTimes(high, es[..|es| - 1], m);
      StandOn(m, es[|es| - 1], b);
    }
  }

  lemma StandOn(b: Board, e: Event, b': Board)
    requires AtTheirTimes(b) && Enabled(b, e) && b' == Next(b, e)
    ensures AtTheirTimes(b')
  {
    match e {
      case Receive =>
        forall d | d in b'.locte && d !in b'.calls ensures b'.locte[d] == b'.When(d) != 0 {
          assert d == b.calls[0] || d !in b.calls;
        }
      case _ =>
        forall d | d in b'.locte && d !in b'.calls ensures b'.locte[d] == b'.When(d) != 0 {
          assert d in b.locte && d !in b.calls;
        }
    }
  }

  /** A received task stands at its time, and no longer where it stood; one that is to be removed stands nowhere. */
  lemma ReceivedStands(b: Board, b': Board)
    requires Enabled(b, Receive) && b' == Next(b, Receive)
    ensures var d := b.calls[0];
            && b'.calls == b.calls[1..]
            && (b.When(d) != 0 ==> d in b'.locte && b'.locte[d] == b.When(d) && (b.When(d), d) in b'.entries)
            && (b.When(d) == 0 ==> d !in b'.locte)
            && (d in b.locte && b.locte[d] != b.When(d) ==> (b.locte[d], d) !in b'.entries)
            && forall e: Entry :: e.1 != d ==> (e in b'.entries <==> e in b.entries)
  {
  }

  /** Who asks for a task to run last says when. */
  lemma ReadyWaits(b: Board, d: Task, w: int, p: Prio, b': Board)
    requires Enabled(b, Ready(d, w, p)) && b' == Next(b, Ready(d, w, p))
    ensures b'.calls == b.calls + [d] && b'.When(d) == w && b'.Prio(d) == p
    ensures forall t :: t != d ==> b'.When(t) == b.When(t) && b'.Prio(t) == b.Prio(t)
    ensures b'.entries == b.entries && b'.queues == b.queues
  {
  }
}
