/** When the real status of a group, which may lag in severity, is exact after all. */
module RealStatuses {
  import opened Aggregate
  import opened Monel
  import opened MonitorGraph
  import opened Propagation
  import opened UpToDate
  import opened Quiescence
  import opened Startup

  /** A service under an override, or due for the update that follows its removal, may change in silence. */
  ghost predicate Doubtful(s: State, c: Id) {
    c in s.override || c in s.pending || Locked(s, c)
  }

  ghost predicate Excused(g: Dag, s: State, n: Id)
    requires n in g.nodes
  {
    exists c :: c in g.children[n] && c in g.nodes && Leaf(g, c) && Doubtful(s, c)
  }

  ghost predicate ExactNode(g: Dag, s: State, n: Id)
    requires Shape(g, s) && n in g.nodes
  {
    || Leaf(g, n) || n in s.pending || Locked(s, n) || Excused(g, s, n)
    || s.node[n].status == RealStatus(s.node[n].status, g.conf[n].gravity, Kids(g, s.node, n))
  }

  ghost predicate ExactJob(g: Dag, s: State, job: Job)
    requires Shape(g, s) && JobShape(g, s.override, job)
  {
    || job.target in s.pending || Excused(g, s, job.target)
    || forall k :: 0 <= k < |job.seen| ==> job.seen[k].status == Kids(g, s.node, job.target)[k].status
  }

  ghost predicate Exact(g: Dag, s: State)
    requires Shape(g, s)
  {
    && (forall n :: n in g.nodes ==> ExactNode(g, s, n))
    && (forall j :: 0 <= j < |s.active| ==> ExactJob(g, s, s.active[j]))
  }

  /** Between `s` and `t` only `n` changed its status, and every parent of it is due, excused, or untouched. */
  ghost predicate OneMoved(g: Dag, s: State, t: State, n: Id)
    requires Shape(g, s) && Shape(g, t) && n in g.nodes
  {
    && t.node == s.node[n := t.node[n]]
    && (forall m :: m in s.pending ==> m in t.pending)
    && (forall m :: m in g.nodes && m != n && Doubtful(s, m) ==> Doubtful(t, m))
    && (forall p :: p in g.nodes && n in g.children[p] ==>
         || p in t.pending
         || (t.node[n].status == s.node[n].status && (Leaf(g, n) && Doubtful(s, n) ==> Doubtful(t, n)))
         || (Leaf(g, n) && Doubtful(t, n)))
  }

  lemma ExcuseStays(g: Dag, s: State, t: State, n: Id, p: Id)
    requires Shape(g, s) && Shape(g, t) && n in g.nodes && p in g.nodes && OneMoved(g, s, t, n)
    requires Excused(g, s, p)
    ensures p in t.pending || Excused(g, t, p)
  {
    var c :| c in g.children[p] && c in g.nodes && Leaf(g, c) && Doubtful(s, c);
  }

  lemma StatusesStay(g: Dag, s: State, t: State, n: Id, p: Id, k: nat)
    requires Shape(g, s) && Shape(g, t) && n in g.nodes && p in g.nodes && OneMoved(g, s, t, n)
    requires p !in t.pending && !Excused(g, t, p) && k < |g.children[p]|
    ensures Kids(g, s.node, p)[k].status == Kids(g, t.node, p)[k].status
  {
    assert g.children[p][k] in g.children[p];
  }

  lemma NodeStaysExact(g: Dag, s: State, t: State, n: Id, m: Id)
    requires Shape(g, s) && Shape(g, t) && n in g.nodes && m in g.nodes && m != n && OneMoved(g, s, t, n)
    requires !Locked(s, m) && ExactNode(g, s, m)
    ensures ExactNode(g, t, m)
  {
    if !Leaf(g, m) && m !in t.pending && !Excused(g, t, m) {
      if Excused(g, s, m) {
        ExcuseStays(g, s, t, n, m);
      }
      forall k | 0 <= k < |g.children[m]| ensures Statuses(Kids(g, s.node, m))[k] == Statuses(Kids(g, t.node, m))[k] {
        StatusesStay(g, s, t, n, m, k);
      }
      assert Statuses(Kids(g, s.node, m)) == Statuses(Kids(g, t.node, m));
    }
  }

  lemma JobStaysExact(g: Dag, s: State, t: State, n: Id, job: Job)
    requires Shape(g, s) && Shape(g, t) && n in g.nodes && OneMoved(g, s, t, n)
    requires JobShape(g, s.override, job) && JobShape(g, t.override, job)
    requires ExactJob(g, s, job)
    ensures ExactJob(g, t, job)
  {
    var m := job.target;
    if m !in t.pending && !Excused(g, t, m) {
      if Excused(g, s, m) {
        ExcuseStays(g, s, t, n, m);
      }
      forall k | 0 <= k < |job.seen| ensures job.seen[k].status == Kids(g, t.node, m)[k].status {
        StatusesStay(g, s, t, n, m, k);
      }
    }
  }

  lemma StillLocked(s: State, t: State, m: Id)
    requires t.active == s.active && Locked(s, m)
    ensures Locked(t, m)
  {
    var j :| 0 <= j < |s.active| && s.active[j].target == m;
    assert t.active[j].target == m;
  }

  /** Reports and overrides. */
  lemma OutsideExact(g: Dag, s: State, e: Event)
    requires Inv(g, s) && Exact(g, s) && Enabled(g, s, e) && Inv(g, Next(g, s, e))
    requires e.Update? || e.SetOverride? || e.DelOverride?
    ensures Exact(g, Next(g, s, e))
  {
    OutsideTold(g, s, e);
    OutsideNodes(g, s, e);
    JobsCarryExact(g, s, Next(g, s, e), e.n);
  }

  lemma OutsideNodes(g: Dag, s: State, e: Event)
    requires Inv(g, s) && Exact(g, s) && Enabled(g, s, e) && Inv(g, Next(g, s, e))
    requires e.Update? || e.SetOverride? || e.DelOverride?
    requires OneMoved(g, s, Next(g, s, e), e.n)
    ensures forall m :: m in g.nodes ==> ExactNode(g, Next(g, s, e), m)
  {
    forall m | m in g.nodes ensures ExactNode(g, Next(g, s, e), m) {
      OutsideNode(g, s, e, m);
    }
  }

  lemma JobsCarryExact(g: Dag, s: State, t: State, n: Id)
    requires Shape(g, s) && Shape(g, t) && Exact(g, s) && n in g.nodes && OneMoved(g, s, t, n) && t.active == s.active
    ensures forall j :: 0 <= j < |t.active| ==> ExactJob(g, t, t.active[j])
  {
    forall j | 0 <= j < |t.active| ensures ExactJob(g, t, t.active[j]) {
      JobCarriesExact(g, s, t, n, j, j);
    }
  }

  lemma OutsideNode(g: Dag, s: State, e: Event, m: Id)
    requires Inv(g, s) && Exact(g, s) && Enabled(g, s, e) && Inv(g, Next(g, s, e))
    requires e.Update? || e.SetOverride? || e.DelOverride?
    requires OneMoved(g, s, Next(g, s, e), e.n) && m in g.nodes
    ensures ExactNode(g, Next(g, s, e), m)
  {
    var t := Next(g, s, e);
    assert ExactNode(g, s, m);
    if Locked(s, m) {
      StillLocked(s, t, m);
    } else if m != e.n {
      NodeStaysExact(g, s, t, e.n, m);
    } else if !e.Update? {
      assert t.pending[|s.pending|] == m;
    }
  }

  lemma OutsideDoubtful(g: Dag, s: State, e: Event, m: Id)
    requires Shape(g, s) && Enabled(g, s, e) && (e.Update? || e.SetOverride? || e.DelOverride?)
    requires Doubtful(s, m)
    ensures Doubtful(Next(g, s, e), m)
  {
    if Locked(s, m) {
      StillLocked(s, Next(g, s, e), m);
    } else if !e.Update? && m == e.n {
      assert Next(g, s, e).pending[|s.pending|] == m;
    }
  }

  lemma OutsideTold(g: Dag, s: State, e: Event)
    requires Inv(g, s) && Enabled(g, s, e) && Inv(g, Next(g, s, e))
    requires e.Update? || e.SetOverride? || e.DelOverride?
    ensures OneMoved(g, s, Next(g, s, e), e.n)
  {
    if e.Update? {
      ReportTold(g, s, e.n, e.status);
    } else {
      var t := Next(g, s, e);
      forall m | Doubtful(s, m) ensures Doubtful(t, m) {
        OutsideDoubtful(g, s, e, m);
      }
    }
  }

  lemma ReportTold(g: Dag, s: State, n: Id, st: Status)
    requires Inv(g, s) && Enabled(g, s, Event.Update(n, st)) && Inv(g, Next(g, s, Event.Update(n, st)))
    ensures OneMoved(g, s, Next(g, s, Event.Update(n, st)), n)
  {
    var t := Next(g, s, Event.Update(n, st));
    forall m | Doubtful(s, m) ensures Doubtful(t, m) {
      OutsideDoubtful(g, s, Event.Update(n, st), m);
    }
    UpdateTold(g, s, n, st);
  }

  /** A service that is not doubtful shows its status, so that its parents are told of any change. */
  lemma UpdateTold(g: Dag, s: State, n: Id, st: Status)
    requires Inv(g, s) && Enabled(g, s, Event.Update(n, st)) && Shape(g, Next(g, s, Event.Update(n, st)))
    ensures
      var t := Next(g, s, Event.Update(n, st));
      || t == s
      || (forall p :: p in g.parents[n] ==> p in t.pending)
      || Doubtful(t, n)
  {
    TargetsAreParents(g, n);
    assert NodeOk(g, s, n);
    if !Doubtful(s, n) {
      LeafFresh(g, s.node, s.override, n);
    }
  }

  lemma BeginExact(g: Dag, s: State, i: nat)
    requires Inv(g, s) && Exact(g, s) && Enabled(g, s, Begin(i)) && Inv(g, Next(g, s, Begin(i)))
    ensures Exact(g, Next(g, s, Begin(i)))
  {
    var t, n := Next(g, s, Begin(i)), s.pending[i];
    forall m | Doubtful(s, m) ensures Doubtful(t, m) {
      BeginDoubtful(g, s, i, m);
    }
    forall m | m in g.nodes ensures ExactNode(g, t, m) {
      assert ExactNode(g, s, m);
      if m in s.pending || Locked(s, m) {
        BeginDue(g, s, i, m);
      }
    }
    forall j | 0 <= j < |t.active| ensures ExactJob(g, t, t.active[j]) {
      if j < |s.active| {
        assert ExactJob(g, s, s.active[j]) && s.active[j].target != n;
        if s.active[j].target in s.pending {
          StaysIn(s.pending, i, s.active[j].target);
        }
      }
    }
  }

  lemma BeginDoubtful(g: Dag, s: State, i: nat, m: Id)
    requires Shape(g, s) && Enabled(g, s, Begin(i)) && Doubtful(s, m)
    ensures Doubtful(Next(g, s, Begin(i)), m)
  {
    if m !in s.override {
      BeginDue(g, s, i, m);
    }
  }

  lemma ReadExcused(g: Dag, s: State, e: Event, m: Id)
    requires Shape(g, s) && Enabled(g, s, e) && (e.ReadStatus? || e.ReadSummary?)
    requires m in g.nodes && Excused(g, s, m)
    ensures Excused(g, Next(g, s, e), m)
  {
    var c :| c in g.children[m] && c in g.nodes && Leaf(g, c) && Doubtful(s, c);
    if Locked(s, c) {
      ReadLocked(g, s, e, c);
    }
    assert Doubtful(Next(g, s, e), c);
  }

  lemma ReadExact(g: Dag, s: State, e: Event)
    requires Inv(g, s) && Exact(g, s) && Enabled(g, s, e) && (e.ReadStatus? || e.ReadSummary?)
    requires Inv(g, Next(g, s, e))
    ensures Exact(g, Next(g, s, e))
  {
    var t := Next(g, s, e);
    forall m | m in g.nodes ensures ExactNode(g, t, m) {
      assert ExactNode(g, s, m);
      if Locked(s, m) {
        ReadLocked(g, s, e, m);
      } else if Excused(g, s, m) {
        ReadExcused(g, s, e, m);
      }
    }
    ReadStep(g, s, e, t);
    forall j | 0 <= j < |t.active| ensures ExactJob(g, t, t.active[j]) {
      assert ExactJob(g, s, s.active[j]);
      if Excused(g, s, s.active[j].target) {
        ReadExcused(g, s, e, s.active[j].target);
      }
      ReadJobExact(g, s, t, j);
    }
  }

  lemma ReadJobExact(g: Dag, s: State, t: State, j: nat)
    requires Shape(g, s) && Shape(g, t) && ReadsOnly(g, s, t) && j < |s.active| && ExactJob(g, s, s.active[j])
    requires Excused(g, s, s.active[j].target) ==> Excused(g, t, s.active[j].target)
    ensures ExactJob(g, t, t.active[j])
  {
    var job, job' := s.active[j], t.active[j];
    assert Furthers(g, s.node, job, job');
    if job.target !in s.pending && !Excused(g, s, job.target) {
      forall k | 0 <= k < |job'.seen| ensures job'.seen[k].status == Kids(g, t.node, job.target)[k].status {
        if k < |job.seen| {
          assert job'.seen[k] == job.seen[k];
        }
      }
    }
  }

  lemma CommitExact(g: Dag, s: State, j: nat)
    requires Inv(g, s) && Exact(g, s) && Enabled(g, s, Commit(j)) && Inv(g, Next(g, s, Commit(j)))
    ensures Exact(g, Next(g, s, Commit(j)))
  {
    var t := Next(g, s, Commit(j));
    CommitTold(g, s, j);
    forall m | m in g.nodes ensures ExactNode(g, t, m) {
      CommitNodeExact(g, s, j, m);
    }
    forall i | 0 <= i < |t.active| ensures ExactJob(g, t, t.active[i]) {
      WithoutAt(s.active, j, i);
      JobCarriesExact(g, s, t, s.active[j].target, if i < j then i else i + 1, i);
    }
  }

  lemma CommitNodeExact(g: Dag, s: State, j: nat, m: Id)
    requires Inv(g, s) && Exact(g, s) && Enabled(g, s, Commit(j)) && Inv(g, Next(g, s, Commit(j)))
    requires OneMoved(g, s, Next(g, s, Commit(j)), s.active[j].target) && m in g.nodes
    ensures ExactNode(g, Next(g, s, Commit(j)), m)
  {
    var n := s.active[j].target;
    assert ExactNode(g, s, m);
    if m == n {
      CommitTarget(g, s, j);
    } else if k :| 0 <= k < |s.active| && s.active[k].target == m {
      StillRunning(g, s, j, k);
    } else {
      NodeStaysExact(g, s, Next(g, s, Commit(j)), n, m);
    }
  }

  lemma WithoutAt(jobs: seq<Job>, j: nat, i: nat)
    requires j < |jobs| && i < |jobs| - 1
    ensures Without(jobs, j)[i] == jobs[if i < j then i else i + 1]
  {
  }

  lemma JobCarriesExact(g: Dag, s: State, t: State, n: Id, k: nat, i: nat)
    requires Shape(g, s) && Shape(g, t) && Exact(g, s) && n in g.nodes && OneMoved(g, s, t, n)
    requires k < |s.active| && i < |t.active| && t.active[i] == s.active[k]
    ensures ExactJob(g, t, t.active[i])
  {
    JobStaysExact(g, s, t, n, s.active[k]);
  }

  lemma CommitTold(g: Dag, s: State, j: nat)
    requires Shape(g, s) && Enabled(g, s, Commit(j)) && Shape(g, Next(g, s, Commit(j)))
    ensures OneMoved(g, s, Next(g, s, Commit(j)), s.active[j].target)
  {
    var t, n := Next(g, s, Commit(j)), s.active[j].target;
    TargetsAreParents(g, n);
    forall m | m != n && Doubtful(s, m) ensures Doubtful(t, m) {
      if k :| 0 <= k < |s.active| && s.active[k].target == m {
        StillRunning(g, s, j, k);
      }
    }
  }

  /** A finished update has an exact status when what it read was exact. */
  lemma CommitTarget(g: Dag, s: State, j: nat)
    requires Inv(g, s) && Exact(g, s) && Enabled(g, s, Commit(j)) && Inv(g, Next(g, s, Commit(j)))
    requires OneMoved(g, s, Next(g, s, Commit(j)), s.active[j].target)
    ensures ExactNode(g, Next(g, s, Commit(j)), s.active[j].target)
  {
    var t, job := Next(g, s, Commit(j)), s.active[j];
    var n := job.target;
    if !Leaf(g, n) && n !in t.pending && !Excused(g, t, n) {
      JobStaysExact(g, s, t, n, job);
      SameReadings(g, t, job);
    }
  }

  lemma SameReadings(g: Dag, t: State, job: Job)
    requires Shape(g, t) && JobShape(g, t.override, job) && ExactJob(g, t, job)
    requires job.target !in t.pending && !Excused(g, t, job.target) && |job.seen| == |g.children[job.target]|
    ensures Statuses(job.seen) == Statuses(Kids(g, t.node, job.target))
  {
  }

  /** Each step keeps real statuses exact, due, or excused by a doubtful service among the children. */
  lemma StepExact(g: Dag, s: State, e: Event)
    requires Inv(g, s) && Exact(g, s) && Enabled(g, s, e)
    ensures Inv(g, Next(g, s, e)) && Exact(g, Next(g, s, e))
  {
    StepKeeps(g, s, e);
    match e {
      case Update(_, _) => OutsideExact(g, s, e);
      case SetOverride(_) => OutsideExact(g, s, e);
      case DelOverride(_) => OutsideExact(g, s, e);
      case Begin(i) => BeginExact(g, s, i);
      case ReadStatus(_) => ReadExact(g, s, e);
      case ReadSummary(_) => ReadExact(g, s, e);
      case Commit(j) => CommitExact(g, s, j);
    }
  }

  lemma {:induction false} RunExact(g: Dag, s: State, es: seq<Event>, t: State)
    requires Inv(g, s) && Exact(g, s) && Run(g, s, es, t)
    ensures Inv(g, t) && Exact(g, t)
    decreases |es|
  {
    if es != [] {
      StepExact(g, s, es[0]);
      RunExact(g, Next(g, s, es[0]), es[1..], t);
    }
  }

  /** No service at or below `n` is overridden; groups may be. */
  ghost predicate Bare(g: Dag, ov: set<Id>, n: Id)
    requires n in g.nodes
    decreases g.rank[n]
  {
    if Leaf(g, n) then n !in ov
    else forall i :: 0 <= i < |g.children[n]| ==>
      (ChildBelow(g, n, i); Bare(g, ov, g.children[n][i]))
  }

  /** Once nothing is pending, a real status is exactly what the services dictate unless a service below is overridden. */
  lemma {:induction false} QuietIsExact(g: Dag, s: State, n: Id)
    requires Inv(g, s) && Exact(g, s) && Quiescent(s) && n in g.nodes && Covered(g, WorldOf(g, s))
    requires Bare(g, s.override, n)
    ensures s.node[n].status == Ideal(g, WorldOf(g, s), n).status
    decreases g.rank[n]
  {
    if !Leaf(g, n) {
      var kids, ideals := Kids(g, s.node, n), IdealKids(g, WorldOf(g, s), n);
      forall i | 0 <= i < |kids| ensures Statuses(kids)[i] == Statuses(ideals)[i] {
        ChildBelow(g, n, i);
        QuietIsExact(g, s, g.children[n][i]);
      }
      ExactFromKids(g, s, n, kids, ideals);
    }
  }

  lemma ExactFromKids(g: Dag, s: State, n: Id, kids: seq<View>, ideals: seq<View>)
    requires Shape(g, s) && Exact(g, s) && Quiescent(s) && n in g.nodes && !Leaf(g, n) && Bare(g, s.override, n)
    requires kids == Kids(g, s.node, n) && |ideals| == |kids|
    requires forall i :: 0 <= i < |kids| ==> Statuses(kids)[i] == Statuses(ideals)[i]
    ensures s.node[n].status == AggrList(g.conf[n].gravity, CRITICAL, Statuses(ideals))
  {
    assert Statuses(kids) == Statuses(ideals);
    assert ExactNode(g, s, n);
    BareNotExcused(g, s, n);
  }

  lemma BareNotExcused(g: Dag, s: State, n: Id)
    requires n in g.nodes && !Leaf(g, n) && Bare(g, s.override, n) && Quiescent(s)
    ensures !Excused(g, s, n)
  {
    forall c | c in g.children[n] && c in g.nodes && Leaf(g, c) ensures !Doubtful(s, c) {
      var i :| 0 <= i < |g.children[n]| && g.children[n][i] == c;
      assert Bare(g, s.override, g.children[n][i]);
    }
  }

  /** And it is chosen by the group's gravity from its children's, unless a service among them is overridden. */
  lemma QuietReal(g: Dag, s: State, n: Id)
    requires Inv(g, s) && Exact(g, s) && Quiescent(s) && n in g.nodes && g.children[n] != []
    requires forall c :: c in g.children[n] && c in g.nodes && g.children[c] == [] ==> c !in s.override
    ensures Chosen(g.conf[n].gravity, Statuses(Kids(g, s.node, n)), s.node[n].status)
  {
    assert ExactNode(g, s, n) && !Excused(g, s, n);
    KidsInRange(g, s, n);
    RealChosen(s.node[n].status, g.conf[n].gravity, Kids(g, s.node, n));
  }

  lemma RealChosen(st: Status, grav: Gravity, kids: seq<View>)
    requires kids != [] && st == RealStatus(st, grav, kids) && forall i :: 0 <= i < |kids| ==> InRange(kids[i])
    ensures Chosen(grav, Statuses(kids), st)
  {
    assert UpTo(Statuses(kids), CRITICAL);
    AggrIsChosen(grav, CRITICAL, Statuses(kids));
  }

  /** The start is exact. */
  lemma StartsExact(g: Dag, node: map<Id, Node>, ov: set<Id>, top: Id)
    requires top in g.nodes && node.Keys == g.nodes && LeavesInRange(g, node)
    requires forall n :: n in g.nodes ==> Below(g, top, n)
    ensures Inv(g, Started(g, node, ov, top)) && Quiescent(Started(g, node, ov, top))
    ensures Exact(g, Started(g, node, ov, top))
  {
    StartsUpToDate(g, node, ov, top);
    var s := Started(g, node, ov, top);
    forall n | n in g.nodes ensures ExactNode(g, s, n) {
      DoneExact(g, s, n);
    }
  }

  lemma DoneExact(g: Dag, s: State, n: Id)
    requires Shape(g, s) && n in g.nodes && Done(g, s.node, s.override, n)
    ensures ExactNode(g, s, n)
  {
    if !Leaf(g, n) {
      assert Kids(g, s.node, n) != [];
    }
  }

  // ---- a group over one overridden service ----

  const Lone: Graph := Graph(
    {0, 1},
    map[0 := Conf(Dn, false), 1 := Conf(Dn, false)],
    map[0 := [1], 1 := []],
    map[0 := [], 1 := [0]],
    map[0 := 1, 1 := 0],
    1)

  lemma OneKid(max: Status, x: Status)
    requires x <= max
    ensures AggrList(Dn, max, [x]) == x
  {
    DnIsMaximum(max, [x]);
  }

  /** The service is overridden while at WARNING, and so is what its group shows. */
  lemma LoneStart() returns (s: State)
    ensures Wired(Lone) && NoAliases(Lone)
    ensures Inv(Lone, s) && Exact(Lone, s) && Quiescent(s) && s.override == {1}
    ensures s.node[0].status == s.node[1].status == WARNING
  {
    assert Wired(Lone) && NoAliases(Lone);
    var blank := Node(WARNING, UNKNOWN, NoCounts);
    var node: map<Id, Node> := map[0 := blank, 1 := blank];
    assert Below(Lone, 0, 0);
    assert Below(Lone, 0, 1) by {
      assert 0 in Lone.parents[1] && 1 in Lone.children[0];
    }
    StartsUpToDate(Lone, node, {1}, 0);
    StartsExact(Lone, node, {1}, 0);
    s := Started(Lone, node, {1}, 0);
    assert Leaf(Lone, 1) && s.node[1].status == WARNING;
    assert Done(Lone, s.node, {1}, 0);
    LoneGroup(s);
  }

  lemma LoneGroup(s: State)
    requires Wired(Lone) && NoAliases(Lone) && Shape(Lone, s) && s.node[1].status <= CRITICAL
    ensures RealStatus(s.node[0].status, Dn, Kids(Lone, s.node, 0)) == s.node[1].status
  {
    var kids := Kids(Lone, s.node, 0);
    assert kids == [Look(s.node[1])];
    assert Statuses(kids) == [s.node[1].status];
    OneKid(CRITICAL, s.node[1].status);
  }

  /** A group's real status can stay behind for good: the overridden service goes from WARNING to CRITICAL,
      nobody is told, nothing is pending, and the group still has WARNING. */
  lemma SeverityCanLag() returns (s: State, t: State)
    ensures Wired(Lone) && NoAliases(Lone)
    ensures Inv(Lone, s) && Exact(Lone, s) && Quiescent(s)
    ensures Enabled(Lone, s, Event.Update(1, CRITICAL)) && t == Next(Lone, s, Event.Update(1, CRITICAL))
    ensures Inv(Lone, t) && Quiescent(t) && Covered(Lone, WorldOf(Lone, t))
    ensures t.node[0].status == WARNING && Ideal(Lone, WorldOf(Lone, t), 0).status == CRITICAL
  {
    s := LoneStart();
    t := LoneReport(s);
    WorldCovered(Lone, t);
    LoneIdeal(t);
  }

  lemma LoneReport(s: State) returns (t: State)
    requires Wired(Lone) && NoAliases(Lone)
    requires Inv(Lone, s) && Quiescent(s) && s.override == {1} && s.node[0].status == s.node[1].status == WARNING
    ensures Enabled(Lone, s, Event.Update(1, CRITICAL)) && t == Next(Lone, s, Event.Update(1, CRITICAL))
    ensures Inv(Lone, t) && Quiescent(t) && t.node[0].status == WARNING && t.node[1].status == CRITICAL
  {
    t := Next(Lone, s, Event.Update(1, CRITICAL));
    StepKeeps(Lone, s, Event.Update(1, CRITICAL));
    SilentReports(Lone, s, 1, CRITICAL);
  }

  lemma LoneIdeal(t: State)
    requires Wired(Lone) && NoAliases(Lone) && Shape(Lone, t) && Covered(Lone, WorldOf(Lone, t))
    ensures Ideal(Lone, WorldOf(Lone, t), 0).status == t.node[1].status
  {
    var w := WorldOf(Lone, t);
    var kids := IdealKids(Lone, w, 0);
    assert IdealKids(Lone, w, 1) == [];
    assert Leaf(Lone, 1);
    assert kids == [Ideal(Lone, w, 1)];
    assert Statuses(kids) == [t.node[1].status];
    assert InRange(Look(t.node[1]));
    OneKid(CRITICAL, t.node[1].status);
  }
}
