/** Whether updates ever run out, on graphs where an element may tell itself. */
module Recurrence {
  import opened Aggregate
  import opened MonitorGraph
  import opened Propagation
  import opened UpToDate
  import opened Quiescence
  import opened Termination

  /** There is a limit to how many steps of updates can follow. */
  ghost predicate Ends(g: Net, s: State) {
    exists limit: nat :: EndsWithin(g, s, limit)
  }

  ghost predicate EndsWithin(g: Net, s: State, limit: nat) {
    forall es, t :: AllInternal(es) && Run(g, s, es, t) ==> |es| <= limit
  }

  /** Neither `n` nor anything above it tells itself. */
  ghost predicate Clean(g: Net, n: Id)
    requires n in g.nodes
    decreases g.height - g.rank[n]
  {
    && !TellsItself(g, n)
    && forall p :: p in g.parents[n] && p in g.nodes && n in g.children[p] ==> Clean(g, p)
  }

  lemma {:induction false} CleanMeans(g: Net, n: Id)
    requires n in g.nodes
    ensures Clean(g, n) <==> forall m :: m in g.nodes && Below(g, m, n) ==> !TellsItself(g, m)
    decreases g.height - g.rank[n]
  {
    forall p | p in g.parents[n] && p in g.nodes && n in g.children[p]
      ensures Clean(g, p) <==> forall m :: m in g.nodes && Below(g, m, p) ==> !TellsItself(g, m)
    {
      CleanMeans(g, p);
    }
    assert Below(g, n, n);
  }

  lemma CleanTells(g: Net, n: Id, i: nat)
    requires n in g.nodes && Clean(g, n) && i < |Targets(g, n)|
    ensures Targets(g, n)[i] in g.nodes && Clean(g, Targets(g, n)[i])
  {
    TargetsAreParents(g, n);
    assert g.parents[n][i] in g.parents[n];
  }

  /** From an element that is not clean an update always leads to another such. */
  lemma UncleanTells(g: Net, n: Id) returns (i: nat)
    requires n in g.nodes && !Clean(g, n)
    ensures i < |Targets(g, n)| && Targets(g, n)[i] in g.nodes && !Clean(g, Targets(g, n)[i])
  {
    if k :| 0 < k < |g.parents[n]| && |g.children[g.parents[n][k]]| == 1 {
      LoneParentTellsItself(g, n, k);
      return k;
    }
    TargetsAreParents(g, n);
    var p :| p in g.parents[n] && p in g.nodes && n in g.children[p] && !Clean(g, p);
    i :| 0 <= i < |g.parents[n]| && g.parents[n][i] == p;
  }

  /** An update of `n` is due or running. */
  ghost predicate Due(s: State, n: Id) {
    n in s.pending || Locked(s, n)
  }

  ghost predicate AllClean(g: Net, s: State) {
    forall n :: n in g.nodes && Due(s, n) ==> Clean(g, n)
  }

  lemma StepShape(g: Net, s: State, e: Event)
    requires Shape(g, s) && Enabled(g, s, e) && Internal(e)
    ensures Shape(g, Next(g, s, e))
  {
    match e {
      case Begin(i) => BeginShape(g, s, i);
      case ReadStatus(_) => ReadShape(g, s, e);
      case ReadSummary(_) => ReadShape(g, s, e);
      case Commit(j) => CommitShape(g, s, j);
    }
  }

  lemma BeganBefore(s: State, t: State, i: nat, j: nat)
    requires i < |s.pending| && t.active == s.active + [Job(s.pending[i], [], [])] && j < |t.active|
    ensures Due(s, t.active[j].target)
  {
    if j < |s.active| {
      assert t.active[j] == s.active[j];
    }
  }

  lemma LeftBefore(s: State, t: State, k: nat, j: nat)
    requires k < |s.active| && t.active == Without(s.active, k) && j < |t.active|
    ensures Due(s, t.active[j].target)
  {
    assert t.active[j] == s.active[if j < k then j else j + 1];
  }

  lemma RanBefore(g: Net, s: State, e: Event, j: nat)
    requires Shape(g, s) && Enabled(g, s, e) && Internal(e) && j < |Next(g, s, e).active|
    ensures Due(s, Next(g, s, e).active[j].target)
  {
    match e {
      case Begin(i) => BeganBefore(s, Next(g, s, e), i, j);
      case ReadStatus(_) => assert Next(g, s, e).active[j].target == s.active[j].target;
      case ReadSummary(_) => assert Next(g, s, e).active[j].target == s.active[j].target;
      case Commit(k) => LeftBefore(s, Next(g, s, e), k, j);
    }
  }

  /** Whatever is due after a step was due before it or was told by the step. */
  lemma DueBefore(g: Net, s: State, e: Event, n: Id)
    requires Shape(g, s) && Enabled(g, s, e) && Internal(e) && Due(Next(g, s, e), n)
    ensures Due(s, n) || (e.Commit? && n in Targets(g, s.active[e.j].target))
  {
    if j :| 0 <= j < |Next(g, s, e).active| && Next(g, s, e).active[j].target == n {
      RanBefore(g, s, e, j);
    }
  }

  /** Whatever was due stays due unless its update finishes. */
  lemma DueAfter(g: Net, s: State, e: Event, n: Id)
    requires Shape(g, s) && Enabled(g, s, e) && Internal(e) && Due(s, n)
    ensures Due(Next(g, s, e), n) || (e.Commit? && n == s.active[e.j].target)
  {
    match e {
      case Begin(i) => BeginDue(g, s, i, n);
      case ReadStatus(_) =>
        if Locked(s, n) {
          ReadLocked(g, s, e, n);
        }
      case ReadSummary(_) =>
        if Locked(s, n) {
          ReadLocked(g, s, e, n);
        }
      case Commit(j) =>
        if k :| 0 <= k < |s.active| && s.active[k].target == n && k != j {
          StillRunning(g, s, j, k);
        }
    }
  }

  lemma CleanStep(g: Net, s: State, e: Event)
    requires Shape(g, s) && Enabled(g, s, e) && Internal(e) && AllClean(g, s)
    ensures AllClean(g, Next(g, s, e))
  {
    forall n | n in g.nodes && Due(Next(g, s, e), n) ensures Clean(g, n) {
      DueBefore(g, s, e, n);
      if !Due(s, n) {
        var teller := s.active[e.j].target;
        assert Due(s, teller) && JobShape(g, s.override, s.active[e.j]);
        var i :| 0 <= i < |Targets(g, teller)| && Targets(g, teller)[i] == n;
        CleanTells(g, teller, i);
      }
    }
  }

  lemma UncleanStep(g: Net, s: State, e: Event)
    requires Shape(g, s) && Enabled(g, s, e) && Internal(e) && !AllClean(g, s)
    ensures !AllClean(g, Next(g, s, e))
  {
    var n :| n in g.nodes && Due(s, n) && !Clean(g, n);
    DueAfter(g, s, e, n);
    if !Due(Next(g, s, e), n) {
      var i := UncleanTells(g, n);
      var t := Next(g, s, e);
      assert t.pending[|s.pending| + i] == Targets(g, n)[i];
    }
  }

  lemma CleanCommit(g: Net, s: State, j: nat)
    requires Shape(g, s) && AllClean(g, s) && j < |s.active|
    ensures s.active[j].target in g.nodes && !TellsItself(g, s.active[j].target)
  {
    assert JobShape(g, s.override, s.active[j]);
    assert Due(s, s.active[j].target);
  }

  lemma CleanTakes(g: Net, s: State, e: Event)
    requires Shape(g, s) && Enabled(g, s, e) && Internal(e) && AllClean(g, s)
    ensures Shape(g, Next(g, s, e)) && AllClean(g, Next(g, s, e))
    ensures Work(g, Next(g, s, e)) == Work(g, s) - 1
  {
    StepShape(g, s, e);
    CleanStep(g, s, e);
    if e.Commit? {
      CleanCommit(g, s, e.j);
    }
    TakesWork(g, s, e);
  }

  lemma {:induction false} CleanRun(g: Net, s: State, es: seq<Event>, t: State)
    requires Shape(g, s) && AllClean(g, s) && AllInternal(es) && Run(g, s, es, t)
    ensures |es| <= Work(g, s)
    decreases |es|
  {
    if es == [] {
      WorkZero(g, s);
    } else {
      CleanTakes(g, s, es[0]);
      CleanRun(g, Next(g, s, es[0]), es[1..], t);
    }
  }

  /** From such a state updates can go on for as long as one likes. */
  lemma {:induction false} UncleanRun(g: Net, s: State, k: nat) returns (es: seq<Event>, t: State)
    requires Shape(g, s) && !AllClean(g, s)
    ensures AllInternal(es) && Run(g, s, es, t) && |es| == k
    decreases k
  {
    if k == 0 {
      return [], s;
    }
    var e := SomeStep(g, s);
    StepShape(g, s, e);
    UncleanStep(g, s, e);
    es, t := UncleanRun(g, Next(g, s, e), k - 1);
    RunExtends(g, s, e, es, t);
    es := [e] + es;
  }

  /** Nor does any run ever come to rest. */
  lemma {:induction false} NeverQuiet(g: Net, s: State, es: seq<Event>, t: State)
    requires Shape(g, s) && !AllClean(g, s) && AllInternal(es) && Run(g, s, es, t)
    ensures !Quiescent(t)
    decreases |es|
  {
    if es != [] {
      StepShape(g, s, es[0]);
      UncleanStep(g, s, es[0]);
      NeverQuiet(g, Next(g, s, es[0]), es[1..], t);
    }
  }

  /** Nothing at or above an element that updates are due for tells itself. */
  ghost predicate NoneTellsItself(g: Net, s: State) {
    forall n, m :: n in g.nodes && m in g.nodes && Due(s, n) && Below(g, m, n) ==> !TellsItself(g, m)
  }

  lemma AllCleanMeans(g: Net, s: State)
    ensures AllClean(g, s) <==> NoneTellsItself(g, s)
  {
    forall n | n in g.nodes
      ensures Clean(g, n) <==> forall m :: m in g.nodes && Below(g, m, n) ==> !TellsItself(g, m)
    {
      CleanMeans(g, n);
    }
  }

  lemma CleanEnds(g: Net, s: State)
    requires Shape(g, s) && AllClean(g, s)
    ensures Ends(g, s)
  {
    WorkZero(g, s);
    forall es, t | AllInternal(es) && Run(g, s, es, t) ensures |es| <= Work(g, s) {
      CleanRun(g, s, es, t);
    }
    assert EndsWithin(g, s, Work(g, s));
  }

  lemma UncleanGoesOn(g: Net, s: State)
    requires Shape(g, s) && !AllClean(g, s)
    ensures !Ends(g, s)
  {
    forall limit: nat ensures !EndsWithin(g, s, limit) {
      var es, t := UncleanRun(g, s, limit + 1);
    }
  }

  /** There is a limit to how long updates go on exactly when nothing at or above an element they are due for
      tells itself. */
  lemma EndsExactlyWhen(g: Net, s: State)
    requires Shape(g, s)
    ensures Ends(g, s) <==> NoneTellsItself(g, s)
  {
    AllCleanMeans(g, s);
    if AllClean(g, s) {
      CleanEnds(g, s);
    } else {
      UncleanGoesOn(g, s);
    }
  }

  /** A service below two groups that have no other child. */
  const Shared: Net := Graph(
    {0, 1, 2},
    map[0 := Conf(Dn, false), 1 := Conf(Dn, false), 2 := Conf(Dn, false)],
    map[0 := [], 1 := [0], 2 := [0]],
    map[0 := [1, 2], 1 := [], 2 := []],
    map[0 := 0, 1 := 1, 2 := 1],
    1)

  lemma SharedGoesOn(s: State)
    requires Shape(Shared, s) && 0 in s.pending
    ensures !Ends(Shared, s)
  {
    assert |Shared.children[Shared.parents[0][1]]| == 1;
    assert Due(s, 0) && Below(Shared, 0, 0) && TellsItself(Shared, 0);
    EndsExactlyWhen(Shared, s);
  }
}
