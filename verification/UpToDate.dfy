/** Every step keeps every element up to date or due for an update. */
module UpToDate {
  import opened Aggregate
  import opened Monel
  import opened MonitorGraph
  import opened Propagation

  /** A parent reading `a` or `b` recomputes the same. */
  predicate SameFace(a: Node, b: Node) {
    Alike(Look(a), Look(b)) && a.summary == b.summary
  }

  /** Only `n` changed between `s` and `t`, and its parents do not notice or are due for an update. */
  ghost predicate Noticed(g: Dag, s: State, t: State, n: Id)
    requires Shape(g, s) && Shape(g, t) && n in g.nodes
  {
    && t.node == s.node[n := t.node[n]]
    && (forall m :: m in g.nodes && m != n ==> (m in s.override <==> m in t.override))
    && (forall m :: m in s.pending ==> m in t.pending)
    && (SameFace(s.node[n], t.node[n]) || forall p :: p in g.parents[n] ==> p in t.pending)
  }

  lemma KidsAlike(g: Dag, s: State, t: State, n: Id, m: Id)
    requires Shape(g, s) && Shape(g, t) && n in g.nodes && m in g.nodes
    requires t.node == s.node[n := t.node[n]]
    requires n in g.children[m] ==> SameFace(s.node[n], t.node[n])
    ensures forall i :: 0 <= i < |g.children[m]| ==> Alike(Kids(g, s.node, m)[i], Kids(g, t.node, m)[i])
    ensures KidSums(g, s.node, m) == KidSums(g, t.node, m)
  {
    forall i | 0 <= i < |g.children[m]|
      ensures SameFace(s.node[g.children[m][i]], t.node[g.children[m][i]])
    {
      assert g.children[m][i] in g.children[m];
    }
  }

  /** A change of `n` leaves `m` up to date or due. */
  lemma StaysFresh(g: Dag, s: State, t: State, n: Id, m: Id)
    requires Shape(g, s) && Shape(g, t) && n in g.nodes && m in g.nodes && m != n
    requires Noticed(g, s, t, n)
    requires m in s.pending || Fresh(g, s.node, s.override, m)
    ensures m in t.pending || Fresh(g, t.node, t.override, m)
  {
    if m !in t.pending {
      assert n in g.children[m] ==> m in g.parents[n];
      KidsAlike(g, s, t, n, m);
      KidsInRange(g, s, m);
      KidsInRange(g, t, m);
      AlikeDecides(s.node[m].status, t.node[m].status, m in s.override, g.conf[m].gravity,
                   Kids(g, s.node, m), Kids(g, t.node, m));
    }
  }

  /** A change of `n` leaves the readings of a running update good or its target due. */
  lemma StaysRead(g: Dag, s: State, t: State, n: Id, job: Job)
    requires Shape(g, s) && Shape(g, t) && n in g.nodes
    requires Noticed(g, s, t, n)
    requires JobShape(g, s.override, job) && JobShape(g, t.override, job)
    requires job.target in s.pending || FreshReads(g, s.node, s.override, job)
    ensures job.target in t.pending || FreshReads(g, t.node, t.override, job)
  {
    var m := job.target;
    if m !in t.pending {
      assert n in g.children[m] ==> m in g.parents[n];
      KidsAlike(g, s, t, n, m);
      forall k | 0 <= k < |job.seen| ensures Alike(job.seen[k], Kids(g, t.node, m)[k]) {
        assert Alike(job.seen[k], Kids(g, s.node, m)[k]);
      }
    }
  }

  /** A change of one element that keeps the running updates, and leaves that element itself in order. */
  lemma OneChanged(g: Dag, s: State, t: State, n: Id)
    requires Inv(g, s) && Shape(g, t) && n in g.nodes
    requires Noticed(g, s, t, n) && t.active == s.active
    requires NodeOk(g, t, n) && LeafOk(g, t, n)
    ensures Inv(g, t)
  {
    forall m | m in g.nodes ensures NodeOk(g, t, m) && LeafOk(g, t, m) {
      assert NodeOk(g, s, m) && LeafOk(g, s, m);
      if m != n && !Locked(s, m) {
        StaysFresh(g, s, t, n, m);
      }
    }
    forall j | 0 <= j < |t.active| ensures JobOk(g, t, j) {
      assert JobOk(g, s, j);
      StaysRead(g, s, t, n, s.active[j]);
    }
  }

  // ---- a service reports ----

  lemma ReportKeeps(g: Dag, s: State, n: Id, st: Status)
    requires Inv(g, s) && Enabled(g, s, Event.Update(n, st))
    ensures Inv(g, Next(g, s, Event.Update(n, st)))
  {
    var t := Next(g, s, Event.Update(n, st));
    ReportShape(g, s, n, st);
    ReportedLeaf(g, s, n, st);
    assert Noticed(g, s, t, n) by {
      TargetsAreParents(g, n);
    }
    OneChanged(g, s, t, n);
  }

  lemma ReportShape(g: Net, s: State, n: Id, st: Status)
    requires Shape(g, s) && Enabled(g, s, Event.Update(n, st))
    ensures Shape(g, Next(g, s, Event.Update(n, st)))
  {
    TargetsInside(g, n);
  }

  /** A leaf whose shown status stays keeps its class. */
  lemma ReportedLeaf(g: Dag, s: State, n: Id, st: Status)
    requires Inv(g, s) && Enabled(g, s, Event.Update(n, st))
    requires Shape(g, Next(g, s, Event.Update(n, st)))
    ensures
      var t := Next(g, s, Event.Update(n, st));
      && NodeOk(g, t, n) && LeafOk(g, t, n)
      && (t.node[n].ov == s.node[n].ov ==> SameFace(s.node[n], t.node[n]))
  {
    var t := Next(g, s, Event.Update(n, st));
    assert NodeOk(g, s, n) && LeafOk(g, s, n);
    if n !in t.pending {
      LeafFresh(g, s.node, s.override, n);
      LeafFresh(g, t.node, t.override, n);
    }
  }

  /** For a leaf, being up to date is a matter of its own fields. */
  lemma LeafFresh(g: Dag, node: map<Id, Node>, ov: set<Id>, n: Id)
    requires n in g.nodes && node.Keys == g.nodes && Leaf(g, n)
    ensures Fresh(g, node, ov, n)
            <==> && node[n].ov == Masked(n in ov, node[n].status, node[n].status)
                 && node[n].summary == NoCounts[node[n].ov := 1]
  {
    assert Kids(g, node, n) == [];
  }

  /** The report is passed on exactly when the shown status changes; a masked failure
      can therefore become another failure in silence. */
  lemma SilentReports(g: Dag, s: State, n: Id, st: Status)
    requires Inv(g, s) && Enabled(g, s, Event.Update(n, st)) && n !in s.pending
    requires g.parents[n] != []
    ensures Next(g, s, Event.Update(n, st)).pending == s.pending
            <==> st == s.node[n].status
                 || (n in s.override && ClassOf(st) == Failing && ClassOf(s.node[n].status) == Failing)
  {
    assert NodeOk(g, s, n);
    assert Kids(g, s.node, n) == [];
    assert |s.pending + Targets(g, n)| > |s.pending|;
  }

  // ---- overrides ----

  lemma OverrideShape(g: Net, s: State, e: Event)
    requires Shape(g, s) && Enabled(g, s, e) && (e.SetOverride? || e.DelOverride?)
    ensures Shape(g, Next(g, s, e))
  {
    var t := Next(g, s, e);
    forall j | 0 <= j < |t.active| ensures JobShape(g, t.override, t.active[j]) {
      assert JobShape(g, s.override, s.active[j]);
    }
  }

  lemma OverrideKeeps(g: Dag, s: State, e: Event)
    requires Inv(g, s) && Enabled(g, s, e) && (e.SetOverride? || e.DelOverride?)
    ensures Inv(g, Next(g, s, e))
  {
    var t := Next(g, s, e);
    OverrideShape(g, s, e);
    assert t.pending[|s.pending|] == e.n;
    assert Noticed(g, s, t, e.n);
    assert LeafOk(g, s, e.n);
    OneChanged(g, s, t, e.n);
  }

  // ---- an update begins and reads ----

  lemma BeginShape(g: Net, s: State, i: nat)
    requires Shape(g, s) && Enabled(g, s, Begin(i))
    ensures Shape(g, Next(g, s, Begin(i)))
  {
    var t, n := Next(g, s, Begin(i)), s.pending[i];
    forall j | 0 <= j < |s.active| ensures t.active[j] == s.active[j] {
    }
  }

  lemma BeginNode(g: Dag, s: State, i: nat, m: Id)
    requires Shape(g, s) && Enabled(g, s, Begin(i)) && Shape(g, Next(g, s, Begin(i)))
    requires m in g.nodes && NodeOk(g, s, m)
    ensures NodeOk(g, Next(g, s, Begin(i)), m)
  {
    var t, n := Next(g, s, Begin(i)), s.pending[i];
    if m == n {
      assert t.active[|s.active|].target == n;
    } else if m in s.pending {
      StaysIn(s.pending, i, m);
    } else if j :| 0 <= j < |s.active| && s.active[j].target == m {
      assert t.active[j].target == m;
    }
  }

  lemma StaysIn(xs: seq<Id>, i: nat, x: Id)
    requires i < |xs| && x in xs && x != xs[i]
    ensures x in Without(xs, i)
  {
    var k :| 0 <= k < |xs| && xs[k] == x;
    assert Without(xs, i)[if k < i then k else k - 1] == x;
  }

  lemma BeginKeeps(g: Dag, s: State, i: nat)
    requires Inv(g, s) && Enabled(g, s, Begin(i))
    ensures Inv(g, Next(g, s, Begin(i)))
  {
    var t, n := Next(g, s, Begin(i)), s.pending[i];
    BeginShape(g, s, i);
    forall m | m in g.nodes ensures NodeOk(g, t, m) && LeafOk(g, t, m) {
      assert LeafOk(g, s, m);
      BeginNode(g, s, i, m);
    }
    forall j | 0 <= j < |t.active| ensures JobOk(g, t, j) {
      BeginJob(g, s, i, j);
    }
  }

  lemma BeginJob(g: Dag, s: State, i: nat, j: nat)
    requires Inv(g, s) && Enabled(g, s, Begin(i)) && Shape(g, Next(g, s, Begin(i)))
    requires j <= |s.active|
    ensures JobOk(g, Next(g, s, Begin(i)), j)
  {
    if j < |s.active| {
      assert JobOk(g, s, j);
      assert !Locked(s, s.pending[i]);
      if s.active[j].target in s.pending {
        StaysIn(s.pending, i, s.active[j].target);
      }
    }
  }

  lemma ReadKeeps(g: Dag, s: State, e: Event)
    requires Inv(g, s) && Enabled(g, s, e) && (e.ReadStatus? || e.ReadSummary?)
    ensures Inv(g, Next(g, s, e))
  {
    var t := Next(g, s, e);
    ReadShape(g, s, e);
    ReadStep(g, s, e, t);
    forall m | m in g.nodes ensures NodeOk(g, t, m) && LeafOk(g, t, m) {
      assert NodeOk(g, s, m) && LeafOk(g, s, m);
      if j :| 0 <= j < |s.active| && s.active[j].target == m {
        assert t.active[j].target == m;
      }
    }
    forall j | 0 <= j < |t.active| ensures JobOk(g, t, j) {
      ReadJob(g, s, t, j);
    }
  }

  /** `job'` is `job` with perhaps some more readings, taken now. */
  ghost predicate Furthers(g: Dag, node: map<Id, Node>, job: Job, job': Job)
    requires job.target in g.nodes && node.Keys == g.nodes
  {
    && job'.target == job.target && job.seen <= job'.seen && job.sums <= job'.sums
    && |job'.seen| <= |g.children[job.target]| && |job'.sums| <= |g.children[job.target]|
    && (forall k :: |job.seen| <= k < |job'.seen| ==> job'.seen[k] == Kids(g, node, job.target)[k])
    && (forall k :: |job.sums| <= k < |job'.sums| ==> job'.sums[k] == KidSums(g, node, job.target)[k])
  }

  /** Reading changes nothing but the readings. */
  ghost predicate ReadsOnly(g: Dag, s: State, t: State)
    requires Shape(g, s)
  {
    && t.node == s.node && t.override == s.override && t.pending == s.pending && |t.active| == |s.active|
    && forall j :: 0 <= j < |s.active| ==> Furthers(g, s.node, s.active[j], t.active[j])
  }

  lemma ReadStep(g: Dag, s: State, e: Event, t: State)
    requires Shape(g, s) && Enabled(g, s, e) && (e.ReadStatus? || e.ReadSummary?) && t == Next(g, s, e)
    ensures ReadsOnly(g, s, t)
  {
    forall j | 0 <= j < |s.active| ensures Furthers(g, s.node, s.active[j], t.active[j]) {
      assert JobShape(g, s.override, s.active[j]);
      if j == e.j {
        ReadOne(g, s, s.active[j], t.active[j]);
      }
    }
  }

  lemma ReadOne(g: Dag, s: State, job: Job, job': Job)
    requires Shape(g, s) && JobShape(g, s.override, job)
    requires || (&& |job.seen| < |g.children[job.target]|
                 && job' == job.(seen := job.seen + [Kids(g, s.node, job.target)[|job.seen|]]))
             || (&& |job.sums| < |g.children[job.target]|
                 && job' == job.(sums := job.sums + [KidSums(g, s.node, job.target)[|job.sums|]]))
    ensures Furthers(g, s.node, job, job')
  {
  }

  lemma ReadJob(g: Dag, s: State, t: State, j: nat)
    requires Shape(g, s) && Shape(g, t) && ReadsOnly(g, s, t)
    requires j < |s.active| && JobOk(g, s, j)
    ensures JobOk(g, t, j)
  {
    if s.active[j].target !in s.pending {
      ReadFresh(g, s.node, s.override, s.active[j], t.active[j]);
    }
  }

  /** A reading just taken is good. */
  lemma ReadFresh(g: Dag, node: map<Id, Node>, ov: set<Id>, job: Job, job': Job)
    requires node.Keys == g.nodes && JobShape(g, ov, job) && JobShape(g, ov, job') && FreshReads(g, node, ov, job)
    requires Furthers(g, node, job, job')
    ensures FreshReads(g, node, ov, job')
  {
    forall k | 0 <= k < |job'.seen| ensures Alike(job'.seen[k], Kids(g, node, job.target)[k]) {
      if k < |job.seen| {
        assert Alike(job.seen[k], Kids(g, node, job.target)[k]);
      }
    }
  }

  lemma ReadShape(g: Net, s: State, e: Event)
    requires Shape(g, s) && Enabled(g, s, e) && (e.ReadStatus? || e.ReadSummary?)
    ensures Shape(g, Next(g, s, e))
  {
    var t := Next(g, s, e);
    forall j | 0 <= j < |t.active| ensures JobShape(g, t.override, t.active[j]) {
      assert JobShape(g, s.override, s.active[j]);
      if j == e.j && e.ReadStatus? {
        var job := s.active[j];
        var c := g.children[job.target][|job.seen|];
        assert c in g.children[job.target] && c in s.node;
        assert InRange(Look(s.node[c]));
      }
    }
  }

  // ---- an update finishes ----

  lemma CommitKeeps(g: Dag, s: State, j: nat)
    requires Inv(g, s) && Enabled(g, s, Commit(j))
    ensures Inv(g, Next(g, s, Commit(j)))
  {
    var t := Next(g, s, Commit(j));
    CommitShape(g, s, j);
    CommitNoticed(g, s, j);
    forall m | m in g.nodes ensures NodeOk(g, t, m) && LeafOk(g, t, m) {
      CommitNode(g, s, j, m);
    }
    forall i | 0 <= i < |t.active| ensures JobOk(g, t, i) {
      CommitJob(g, s, t, j, i);
    }
  }

  lemma CommitNoticed(g: Dag, s: State, j: nat)
    requires Shape(g, s) && Enabled(g, s, Commit(j)) && Shape(g, Next(g, s, Commit(j)))
    ensures Noticed(g, s, Next(g, s, Commit(j)), s.active[j].target)
  {
    TargetsAreParents(g, s.active[j].target);
  }

  lemma CommitNode(g: Dag, s: State, j: nat, m: Id)
    requires Inv(g, s) && Enabled(g, s, Commit(j)) && Shape(g, Next(g, s, Commit(j)))
    requires Noticed(g, s, Next(g, s, Commit(j)), s.active[j].target)
    requires m in g.nodes
    ensures NodeOk(g, Next(g, s, Commit(j)), m) && LeafOk(g, Next(g, s, Commit(j)), m)
  {
    var n := s.active[j].target;
    assert NodeOk(g, s, m) && LeafOk(g, s, m);
    if m == n {
      CommitFreshens(g, s, j);
      CommitLeaf(g, s, j);
    } else if k :| 0 <= k < |s.active| && s.active[k].target == m {
      StillRunning(g, s, j, k);
    } else {
      StaysFresh(g, s, Next(g, s, Commit(j)), n, m);
    }
  }

  lemma CommitJob(g: Dag, s: State, t: State, j: nat, i: nat)
    requires Inv(g, s) && Shape(g, t) && j < |s.active| && t.active == Without(s.active, j)
    requires Noticed(g, s, t, s.active[j].target)
    requires i < |s.active| - 1
    ensures JobOk(g, t, i)
  {
    JobCarries(g, s, t, s.active[j].target, if i < j then i else i + 1, i);
  }

  lemma JobCarries(g: Dag, s: State, t: State, n: Id, k: nat, i: nat)
    requires Inv(g, s) && Shape(g, t) && n in g.nodes && Noticed(g, s, t, n)
    requires k < |s.active| && i < |t.active| && t.active[i] == s.active[k]
    ensures JobOk(g, t, i)
  {
    assert JobOk(g, s, k);
    StaysRead(g, s, t, n, s.active[k]);
  }

  lemma StillRunning(g: Net, s: State, j: nat, k: nat)
    requires Shape(g, s) && Enabled(g, s, Commit(j)) && k < |s.active| && k != j
    ensures Locked(Next(g, s, Commit(j)), s.active[k].target)
  {
    var t := Next(g, s, Commit(j));
    assert t.active[if k < j then k else k - 1] == s.active[k];
  }

  lemma CommitShape(g: Net, s: State, j: nat)
    requires Shape(g, s) && Enabled(g, s, Commit(j))
    ensures Shape(g, Next(g, s, Commit(j)))
  {
    var t, job := Next(g, s, Commit(j)), s.active[j];
    var n := job.target;
    TargetsInside(g, n);
    assert JobShape(g, s.override, job);
    assert InRange(Look(s.node[n]));
    RecomputedInRange(s.node[n].status, n in s.override, g.conf[n].gravity, job.seen);
    ReplacedShape(g, s, t, n, j);
  }

  lemma ReplacedShape(g: Net, s: State, t: State, n: Id, j: nat)
    requires Shape(g, s) && n in g.nodes && j < |s.active| && n in t.node && InRange(Look(t.node[n]))
    requires t.node == s.node[n := t.node[n]] && t.override == s.override && t.active == Without(s.active, j)
    requires |t.pending| >= |s.pending| && t.pending[..|s.pending|] == s.pending
    requires forall i :: |s.pending| <= i < |t.pending| ==> t.pending[i] in g.nodes
    ensures Shape(g, t)
  {
    forall i | 0 <= i < |t.active| ensures t.active[i] == s.active[if i < j then i else i + 1] {
    }
    forall i | 0 <= i < |s.pending| ensures t.pending[i] == s.pending[i] {
      assert t.pending[..|s.pending|][i] == s.pending[i];
    }
  }

  /** A finished update leaves its target up to date, unless another one is due. */
  lemma CommitFreshens(g: Dag, s: State, j: nat)
    requires Inv(g, s) && Enabled(g, s, Commit(j)) && Shape(g, Next(g, s, Commit(j)))
    ensures
      var t, n := Next(g, s, Commit(j)), s.active[j].target;
      n in t.pending || Fresh(g, t.node, t.override, n)
  {
    var t, job := Next(g, s, Commit(j)), s.active[j];
    assert JobOk(g, s, j);
    if job.target !in t.pending {
      KidsAlike(g, s, t, job.target, job.target);
      KidsInRange(g, t, job.target);
      RecomputedFresh(g, s, t.node, job);
    }
  }

  lemma CommitLeaf(g: Dag, s: State, j: nat)
    requires Shape(g, s) && Enabled(g, s, Commit(j)) && Shape(g, Next(g, s, Commit(j)))
    ensures LeafOk(g, Next(g, s, Commit(j)), s.active[j].target)
  {
    assert JobShape(g, s.override, s.active[j]);
  }

  lemma RecomputedFresh(g: Dag, s: State, node: map<Id, Node>, job: Job)
    requires Shape(g, s) && JobShape(g, s.override, job) && Complete(g, s.override, job)
    requires FreshReads(g, s.node, s.override, job)
    requires node.Keys == g.nodes && node[job.target] == Recomputed(g, s, job)
    requires forall i :: 0 <= i < |g.children[job.target]| ==>
      InRange(Kids(g, node, job.target)[i]) && Alike(Kids(g, s.node, job.target)[i], Kids(g, node, job.target)[i])
    requires KidSums(g, s.node, job.target) == KidSums(g, node, job.target)
    ensures Fresh(g, node, s.override, job.target)
  {
    var n := job.target;
    var kids := Kids(g, node, n);
    forall k | 0 <= k < |kids| ensures Alike(job.seen[k], kids[k]) && InRange(job.seen[k]) {
      assert Alike(job.seen[k], Kids(g, s.node, n)[k]);
    }
    AlikeDecides(s.node[n].status, node[n].status, n in s.override, g.conf[n].gravity, job.seen, kids);
    SumsRead(g, s, job);
  }

  /** A complete update has the counts it needs. */
  lemma SumsRead(g: Dag, s: State, job: Job)
    requires Shape(g, s) && JobShape(g, s.override, job) && Complete(g, s.override, job)
    requires FreshReads(g, s.node, s.override, job)
    ensures
      var n, ov := job.target, Recomputed(g, s, job).ov;
      SummaryOf(g.conf[n].countstop, n in s.override, |g.children[n]|, ov, job.sums)
      == SummaryOf(g.conf[n].countstop, n in s.override, |g.children[n]|, ov, KidSums(g, s.node, n))
  {
    if SummaryReads(g, s.override, job.target) > 0 {
      assert job.sums == KidSums(g, s.node, job.target);
    }
  }

  lemma BeginDue(g: Net, s: State, i: nat, m: Id)
    requires Shape(g, s) && Enabled(g, s, Begin(i)) && (m in s.pending || Locked(s, m))
    ensures m in Next(g, s, Begin(i)).pending || Locked(Next(g, s, Begin(i)), m)
  {
    var t := Next(g, s, Begin(i));
    if j :| 0 <= j < |s.active| && s.active[j].target == m {
      assert t.active[j].target == m;
    } else if m != s.pending[i] {
      StaysIn(s.pending, i, m);
    } else {
      assert t.active[|s.active|].target == m;
    }
  }

  lemma ReadLocked(g: Net, s: State, e: Event, m: Id)
    requires Shape(g, s) && Enabled(g, s, e) && (e.ReadStatus? || e.ReadSummary?) && Locked(s, m)
    ensures Locked(Next(g, s, e), m)
  {
    var j :| 0 <= j < |s.active| && s.active[j].target == m;
    assert Next(g, s, e).active[j].target == m;
  }

  // ---- locks ----

  /** No two updates of one element run at once. */
  ghost predicate Exclusive(s: State) {
    forall j, k :: 0 <= j < k < |s.active| ==> s.active[j].target != s.active[k].target
  }

  lemma StepExclusive(g: Net, s: State, e: Event)
    requires Shape(g, s) && Enabled(g, s, e) && Exclusive(s)
    ensures Exclusive(Next(g, s, e))
  {
  }

  // ---- every step, every run ----

  /** Each step of any interleaving keeps every element up to date or due. */
  lemma StepKeeps(g: Dag, s: State, e: Event)
    requires Inv(g, s) && Enabled(g, s, e)
    ensures Inv(g, Next(g, s, e))
  {
    match e {
      case Update(n, st) => ReportKeeps(g, s, n, st);
      case SetOverride(_) => OverrideKeeps(g, s, e);
      case DelOverride(_) => OverrideKeeps(g, s, e);
      case Begin(i) => BeginKeeps(g, s, i);
      case ReadStatus(_) => ReadKeeps(g, s, e);
      case ReadSummary(_) => ReadKeeps(g, s, e);
      case Commit(j) => CommitKeeps(g, s, j);
    }
  }

  /** `es` is a run from `s` to `t`. */
  ghost predicate Run(g: Net, s: State, es: seq<Event>, t: State)
    decreases |es|
  {
    if es == [] then s == t
    else Shape(g, s) && Enabled(g, s, es[0]) && Run(g, Next(g, s, es[0]), es[1..], t)
  }

  lemma {:induction false} RunKeeps(g: Dag, s: State, es: seq<Event>, t: State)
    requires Inv(g, s) && Run(g, s, es, t)
    ensures Inv(g, t)
    decreases |es|
  {
    if es != [] {
      StepKeeps(g, s, es[0]);
      RunKeeps(g, Next(g, s, es[0]), es[1..], t);
    }
  }
}
