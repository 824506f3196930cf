/** Once the outside is quiet, updates run out, whatever the order, and the outcome does not depend on it. */
module Termination {
  import opened Aggregate
  import opened Monel
  import opened MonitorGraph
  import opened Propagation
  import opened UpToDate
  import opened Quiescence

  predicate Internal(e: Event) {
    e.Begin? || e.ReadStatus? || e.ReadSummary? || e.Commit?
  }

  /** Steps one update of each element takes: begin, read every child, commit. */
  ghost function StepWeights(g: Net, ov: set<Id>): (w: Weights)
    ensures Covers(g, w)
  {
    map n | n in g.nodes :: 2 + |g.children[n]| + SummaryReads(g, ov, n)
  }

  /** Steps an update of each element takes together with all the updates it will cause. */
  ghost function Steps(g: Net, ov: set<Id>): (f: Weights)
    ensures f.Keys == g.nodes
  {
    Climbs(g, StepWeights(g, ov))
  }

  lemma StepsUnfold(g: Net, ov: set<Id>, n: Id)
    requires n in g.nodes && !TellsItself(g, n)
    ensures Within(Targets(g, n), Steps(g, ov))
    ensures Steps(g, ov)[n]
         == 2 + |g.children[n]| + SummaryReads(g, ov, n) + Total(Steps(g, ov), Targets(g, n))
  {
    ClimbUnfolds(g, StepWeights(g, ov), n);
  }

  lemma StepsEnough(g: Net, ov: set<Id>, n: Id)
    requires n in g.nodes
    ensures Steps(g, ov)[n] >= 2 + |g.children[n]| + SummaryReads(g, ov, n)
  {
  }

  /** Steps a running update still has to take, with all it will cause. */
  ghost function Left(f: Weights, job: Job): int
    requires job.target in f
  {
    f[job.target] - 1 - |job.seen| - |job.sums|
  }

  ghost predicate Aimed(f: Weights, jobs: seq<Job>) {
    forall j :: 0 <= j < |jobs| ==> jobs[j].target in f
  }

  ghost function LeftAll(f: Weights, jobs: seq<Job>): int
    requires Aimed(f, jobs)
  {
    if jobs == [] then 0 else LeftAll(f, jobs[..|jobs| - 1]) + Left(f, jobs[|jobs| - 1])
  }

  lemma {:induction false} LeftSplit(f: Weights, jobs: seq<Job>, j: nat)
    requires Aimed(f, jobs) && j < |jobs|
    ensures LeftAll(f, jobs) == LeftAll(f, Without(jobs, j)) + Left(f, jobs[j])
  {
    var k := |jobs| - 1;
    if j < k {
      LeftSplit(f, jobs[..k], j);
      assert Without(jobs, j)[..k - 1] == Without(jobs[..k], j);
    } else {
      assert Without(jobs, j) == jobs[..k];
    }
  }

  lemma LeftUpdated(f: Weights, jobs: seq<Job>, j: nat, job: Job)
    requires Aimed(f, jobs) && j < |jobs| && job.target in f
    ensures LeftAll(f, jobs[j := job]) == LeftAll(f, jobs) - Left(f, jobs[j]) + Left(f, job)
  {
    LeftSplit(f, jobs, j);
    LeftSplit(f, jobs[j := job], j);
    assert Without(jobs[j := job], j) == Without(jobs, j);
  }

  lemma InGraph(g: Net, s: State, f: Weights)
    requires Shape(g, s) && f.Keys == g.nodes
    ensures Within(s.pending, f) && Aimed(f, s.active)
  {
    forall j | 0 <= j < |s.active| ensures s.active[j].target in f {
      assert JobShape(g, s.override, s.active[j]);
    }
  }

  /** The exact number of steps until nothing is pending or running. */
  ghost function Work(g: Net, s: State): int
    requires Shape(g, s)
  {
    InGraph(g, s, Steps(g, s.override));
    Total(Steps(g, s.override), s.pending) + LeftAll(Steps(g, s.override), s.active)
  }

  lemma BeginWork(g: Net, s: State, i: nat)
    requires Shape(g, s) && Enabled(g, s, Begin(i)) && Shape(g, Next(g, s, Begin(i)))
    ensures Work(g, Next(g, s, Begin(i))) == Work(g, s) - 1
  {
    var t, f := Next(g, s, Begin(i)), Steps(g, s.override);
    InGraph(g, s, f);
    TotalRemove(f, s.pending, i);
    LeftSplit(f, t.active, |s.active|);
    assert Without(t.active, |s.active|) == s.active;
  }

  lemma ReadWork(g: Net, s: State, e: Event)
    requires Shape(g, s) && Enabled(g, s, e) && (e.ReadStatus? || e.ReadSummary?) && Shape(g, Next(g, s, e))
    ensures Work(g, Next(g, s, e)) == Work(g, s) - 1
  {
    InGraph(g, s, Steps(g, s.override));
    LeftUpdated(Steps(g, s.override), s.active, e.j, Next(g, s, e).active[e.j]);
  }

  lemma CommitWork(g: Net, s: State, j: nat)
    requires Shape(g, s) && Enabled(g, s, Commit(j)) && Shape(g, Next(g, s, Commit(j)))
    requires !TellsItself(g, s.active[j].target)
    ensures Work(g, Next(g, s, Commit(j))) == Work(g, s) - 1
  {
    var f, job := Steps(g, s.override), s.active[j];
    InGraph(g, s, f);
    LeftSplit(f, s.active, j);
    StepsUnfold(g, s.override, job.target);
    TotalConcat(f, s.pending, Targets(g, job.target));
  }

  /** Every step of an update brings the end exactly one step closer. */
  lemma StepWork(g: Dag, s: State, e: Event)
    requires Inv(g, s) && Enabled(g, s, e) && Internal(e)
    ensures Inv(g, Next(g, s, e)) && Work(g, Next(g, s, e)) == Work(g, s) - 1
  {
    StepKeeps(g, s, e);
    TakesWork(g, s, e);
  }

  lemma TakesWork(g: Net, s: State, e: Event)
    requires Shape(g, s) && Enabled(g, s, e) && Internal(e) && Shape(g, Next(g, s, e))
    requires e.Commit? ==> !TellsItself(g, s.active[e.j].target)
    ensures Work(g, Next(g, s, e)) == Work(g, s) - 1
  {
    match e {
      case Begin(i) => BeginWork(g, s, i);
      case ReadStatus(_) => ReadWork(g, s, e);
      case ReadSummary(_) => ReadWork(g, s, e);
      case Commit(j) => CommitWork(g, s, j);
    }
  }

  // ---- updates left to commit ----

  ghost function OneEach(g: Net): (w: Weights)
    ensures Covers(g, w)
  {
    map n | n in g.nodes :: 1
  }

  /** How many upward paths start at each element. */
  ghost function Paths(g: Net): (f: Weights)
    ensures f.Keys == g.nodes
  {
    Climbs(g, OneEach(g))
  }

  function TargetsOf(jobs: seq<Job>): (ts: seq<Id>)
    ensures |ts| == |jobs|
  {
    seq(|jobs|, j requires 0 <= j < |jobs| => jobs[j].target)
  }

  /** Upward paths from all elements an update is due for or running on. */
  ghost function Outstanding(g: Net, s: State): nat
    requires Shape(g, s)
  {
    InGraph(g, s, Paths(g));
    Total(Paths(g), s.pending) + Total(Paths(g), TargetsOf(s.active))
  }

  lemma MovedTotal(f: Weights, pending: seq<Id>, jobs: seq<Job>, i: nat, job: Job)
    requires Within(pending, f) && Within(TargetsOf(jobs), f) && i < |pending| && job.target == pending[i]
    ensures Within(Without(pending, i), f) && Within(TargetsOf(jobs + [job]), f)
    ensures Total(f, Without(pending, i)) + Total(f, TargetsOf(jobs + [job]))
         == Total(f, pending) + Total(f, TargetsOf(jobs))
  {
    TotalRemove(f, pending, i);
    var ts := TargetsOf(jobs + [job]);
    assert ts == TargetsOf(jobs) + [pending[i]];
    TotalRemove(f, ts, |jobs|);
    assert Without(ts, |jobs|) == TargetsOf(jobs);
  }

  lemma DoneTotal(f: Weights, pending: seq<Id>, jobs: seq<Job>, j: nat, told: seq<Id>)
    requires Within(pending, f) && Within(TargetsOf(jobs), f) && Within(told, f) && j < |jobs|
    ensures Within(pending + told, f) && Within(TargetsOf(Without(jobs, j)), f)
    ensures Total(f, pending + told) + Total(f, TargetsOf(Without(jobs, j)))
         == Total(f, pending) + Total(f, TargetsOf(jobs)) + Total(f, told) - f[TargetsOf(jobs)[j]]
  {
    TotalRemove(f, TargetsOf(jobs), j);
    TargetsWithout(jobs, j);
    TotalConcat(f, pending, told);
  }

  lemma TargetsWithout(jobs: seq<Job>, j: nat)
    requires j < |jobs|
    ensures Without(TargetsOf(jobs), j) == TargetsOf(Without(jobs, j))
  {
  }

  /** A commit lowers the number of outstanding upward paths by exactly one; beginning and reading leave it. */
  lemma CommitsCountDown(g: Dag, s: State, e: Event)
    requires Inv(g, s) && Enabled(g, s, e) && Internal(e) && Shape(g, Next(g, s, e))
    ensures Outstanding(g, Next(g, s, e)) == Outstanding(g, s) - if e.Commit? then 1 else 0
  {
    match e {
      case Begin(i) => BeginCounts(g, s, i);
      case ReadStatus(j) =>
        assert TargetsOf(Next(g, s, e).active) == TargetsOf(s.active);
      case ReadSummary(j) =>
        assert TargetsOf(Next(g, s, e).active) == TargetsOf(s.active);
      case Commit(j) => CommitCounts(g, s, j);
    }
  }

  lemma BeginCounts(g: Net, s: State, i: nat)
    requires Shape(g, s) && Enabled(g, s, Begin(i)) && Shape(g, Next(g, s, Begin(i)))
    ensures Outstanding(g, Next(g, s, Begin(i))) == Outstanding(g, s)
  {
    InGraph(g, s, Paths(g));
    MovedTotal(Paths(g), s.pending, s.active, i, Job(s.pending[i], [], []));
  }

  lemma CommitCounts(g: Dag, s: State, j: nat)
    requires Shape(g, s) && Enabled(g, s, Commit(j)) && Shape(g, Next(g, s, Commit(j)))
    ensures Outstanding(g, Next(g, s, Commit(j))) == Outstanding(g, s) - 1
  {
    InGraph(g, s, Paths(g));
    ClimbUnfolds(g, OneEach(g), s.active[j].target);
    DoneTotal(Paths(g), s.pending, s.active, j, Targets(g, s.active[j].target));
  }

  // ---- there is always a next step until the end ----

  /** The running update on the lowest element is not kept waiting. */
  lemma {:induction false} LowestRuns(g: Net, s: State, j: nat) returns (e: Event)
    requires Shape(g, s) && j < |s.active|
    ensures Internal(e) && Enabled(g, s, e)
    decreases g.rank[s.active[j].target]
  {
    var job := s.active[j];
    assert JobShape(g, s.override, job);
    var n := job.target;
    if Complete(g, s.override, job) {
      return Commit(j);
    }
    var k := if |job.seen| < |g.children[n]| then |job.seen| else |job.sums|;
    ChildBelow(g, n, k);
    if i :| 0 <= i < |s.active| && s.active[i].target == g.children[n][k] {
      e := LowestRuns(g, s, i);
    } else {
      e := if |job.seen| < |g.children[n]| then ReadStatus(j) else ReadSummary(j);
    }
  }

  /** No deadlock: as long as an update is due or running, some step can be taken. */
  lemma SomeStep(g: Net, s: State) returns (e: Event)
    requires Shape(g, s) && !Quiescent(s)
    ensures Internal(e) && Enabled(g, s, e)
  {
    if s.active != [] {
      e := LowestRuns(g, s, 0);
    } else {
      e := Begin(0);
    }
  }

  lemma {:induction false} LeftNonNegative(g: Net, s: State, jobs: seq<Job>)
    requires forall j :: 0 <= j < |jobs| ==> JobShape(g, s.override, jobs[j])
    requires Aimed(Steps(g, s.override), jobs)
    ensures LeftAll(Steps(g, s.override), jobs) >= |jobs|
  {
    if jobs != [] {
      var last := jobs[|jobs| - 1];
      LeftNonNegative(g, s, jobs[..|jobs| - 1]);
      assert JobShape(g, s.override, last);
      StepsEnough(g, s.override, last.target);
    }
  }

  lemma {:induction false} TotalPositive(g: Net, ov: set<Id>, xs: seq<Id>)
    requires Within(xs, Steps(g, ov))
    ensures Total(Steps(g, ov), xs) >= |xs|
  {
    if xs != [] {
      TotalPositive(g, ov, xs[..|xs| - 1]);
      StepsEnough(g, ov, xs[|xs| - 1]);
    }
  }

  lemma WorkZero(g: Net, s: State)
    requires Shape(g, s)
    ensures Work(g, s) >= 0
    ensures Work(g, s) == 0 <==> Quiescent(s)
  {
    InGraph(g, s, Steps(g, s.override));
    LeftNonNegative(g, s, s.active);
    TotalPositive(g, s.override, s.pending);
  }

  // ---- every schedule ends, after the same number of steps, in the same place ----

  ghost predicate AllInternal(es: seq<Event>) {
    forall i :: 0 <= i < |es| ==> Internal(es[i])
  }

  lemma {:induction false} RunWork(g: Dag, s: State, es: seq<Event>, t: State)
    requires Inv(g, s) && AllInternal(es) && Run(g, s, es, t)
    ensures Inv(g, t) && Work(g, t) == Work(g, s) - |es|
    ensures WorldOf(g, t) == WorldOf(g, s)
    decreases |es|
  {
    if es != [] {
      StepWork(g, s, es[0]);
      StepWorld(g, s, es[0]);
      RunWork(g, Next(g, s, es[0]), es[1..], t);
    }
  }

  /** Updates touch neither what services reported nor the overrides. */
  lemma StepWorld(g: Dag, s: State, e: Event)
    requires Inv(g, s) && Enabled(g, s, e) && Internal(e) && Shape(g, Next(g, s, e))
    ensures WorldOf(g, Next(g, s, e)) == WorldOf(g, s)
  {
    match e {
      case Begin(_) =>
      case ReadStatus(_) =>
      case ReadSummary(_) =>
      case Commit(j) => CommitWorld(g, s, j);
    }
  }

  lemma CommitWorld(g: Dag, s: State, j: nat)
    requires Shape(g, s) && Enabled(g, s, Commit(j)) && Shape(g, Next(g, s, Commit(j)))
    ensures WorldOf(g, Next(g, s, Commit(j))) == WorldOf(g, s)
  {
    assert JobShape(g, s.override, s.active[j]);
  }

  /** A run of updates is over exactly when it has taken `Work` steps; no run is longer. */
  lemma RunLength(g: Dag, s: State, es: seq<Event>, t: State)
    requires Inv(g, s) && AllInternal(es) && Run(g, s, es, t)
    ensures |es| <= Work(g, s)
    ensures Quiescent(t) <==> |es| == Work(g, s)
  {
    RunWork(g, s, es, t);
    WorkZero(g, t);
  }

  lemma WorkLeft(g: Dag, s: State) returns (e: Event)
    requires Inv(g, s) && !Quiescent(s)
    ensures Internal(e) && Enabled(g, s, e) && Inv(g, Next(g, s, e))
    ensures 0 <= Work(g, Next(g, s, e)) < Work(g, s)
  {
    e := SomeStep(g, s);
    StepWork(g, s, e);
    WorkZero(g, Next(g, s, e));
  }

  lemma RunExtends(g: Net, s: State, e: Event, es: seq<Event>, t: State)
    requires Shape(g, s) && Enabled(g, s, e) && Internal(e) && AllInternal(es) && Run(g, Next(g, s, e), es, t)
    ensures AllInternal([e] + es) && Run(g, s, [e] + es, t)
  {
    assert ([e] + es)[1..] == es;
  }

  /** Some run does get to the end. */
  lemma {:induction false} RunExists(g: Dag, s: State) returns (es: seq<Event>, t: State)
    requires Inv(g, s)
    ensures AllInternal(es) && Run(g, s, es, t) && Quiescent(t)
    decreases Work(g, s)
  {
    if Quiescent(s) {
      return [], s;
    }
    var e := WorkLeft(g, s);
    es, t := RunExists(g, Next(g, s, e));
    RunExtends(g, s, e, es, t);
    es := [e] + es;
  }

  /** Whatever the schedule, updates end after `Work` steps, and then every element shows what the services'
      statuses and the overrides dictated at the start. */
  lemma EveryScheduleEndsIdeal(g: Dag, s: State, es: seq<Event>, t: State, n: Id)
    requires Inv(g, s) && n in g.nodes && Covered(g, WorldOf(g, s))
    requires AllInternal(es) && Run(g, s, es, t) && |es| == Work(g, s)
    ensures Quiescent(t) && Shape(g, t)
    ensures t.node[n].ov == Ideal(g, WorldOf(g, s), n).ov
    ensures t.node[n].summary == IdealSummary(g, WorldOf(g, s), n)
    ensures ClassOf(t.node[n].status) == ClassOf(Ideal(g, WorldOf(g, s), n).status)
  {
    RunLength(g, s, es, t);
    RunWork(g, s, es, t);
    QuietIsIdeal(g, t, n);
  }
}
