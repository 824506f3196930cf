/** Status changes travelling up the monitor tree, as steps of concurrent updates.
    An update of an element holds that element's lock while it reads its children one at a time,
    each under the child's own lock, and leaves one pending update per parent when it is done. */
module Propagation {
  import opened Aggregate
  import opened Monel
  import opened MonitorGraph

  datatype Node = Node(status: Status, ov: Status, summary: Counts)

  // An update in progress: what it has read so far. It holds the lock of its target.
  datatype Job = Job(target: Id, seen: seq<View>, sums: seq<Counts>)

  // `pending` is a bag: goroutines still to call UpUpdate on these elements, in any order.
  datatype State = State(node: map<Id, Node>, override: set<Id>, pending: seq<Id>, active: seq<Job>)

  datatype Event =
    | Update(n: Id, status: Status)
    | SetOverride(n: Id)
    | DelOverride(n: Id)
    | Begin(i: nat)
    | ReadStatus(j: nat)
    | ReadSummary(j: nat)
    | Commit(j: nat)

  ghost predicate Locked(s: State, n: Id) {
    exists j :: 0 <= j < |s.active| && s.active[j].target == n
  }

  /** How many child summaries an update of `n` adds up. */
  function SummaryReads(g: Net, ov: set<Id>, n: Id): nat
    requires n in g.nodes
  {
    if CountsOnce(g.conf[n].countstop, |g.children[n]|) || n in ov then 0 else |g.children[n]|
  }

  ghost predicate JobShape(g: Net, ov: set<Id>, job: Job) {
    && job.target in g.nodes
    && |job.seen| <= |g.children[job.target]|
    && |job.sums| <= SummaryReads(g, ov, job.target)
    && (|job.sums| > 0 ==> |job.seen| == |g.children[job.target]|)
    && forall k :: 0 <= k < |job.seen| ==> InRange(job.seen[k])
  }

  predicate InRange(v: View) {
    v.status <= CRITICAL && v.ov <= OVERRIDE
  }

  function Look(nd: Node): View {
    View(nd.status, nd.ov)
  }

  ghost predicate Shape(g: Net, s: State) {
    && s.node.Keys == g.nodes
    && (forall i :: 0 <= i < |s.pending| ==> s.pending[i] in g.nodes)
    && (forall j :: 0 <= j < |s.active| ==> JobShape(g, s.override, s.active[j]))
    && (forall n :: n in s.node ==> InRange(Look(s.node[n])))
  }

  predicate Complete(g: Net, ov: set<Id>, job: Job)
    requires job.target in g.nodes
  {
    |job.seen| == |g.children[job.target]| && |job.sums| == SummaryReads(g, ov, job.target)
  }

  ghost predicate Enabled(g: Net, s: State, e: Event)
    requires Shape(g, s)
  {
    match e
    case Update(n, st) => n in g.nodes && Leaf(g, n) && !Locked(s, n) && st <= CRITICAL
    case SetOverride(n) => n in g.nodes && !Locked(s, n)
    case DelOverride(n) => n in g.nodes && !Locked(s, n)
    case Begin(i) => i < |s.pending| && !Locked(s, s.pending[i])
    case ReadStatus(j) =>
      && j < |s.active|
      && var job := s.active[j];
      && |job.seen| < |g.children[job.target]|
      && !Locked(s, g.children[job.target][|job.seen|])
    case ReadSummary(j) =>
      && j < |s.active|
      && var job := s.active[j];
      && |job.seen| == |g.children[job.target]|
      && |job.sums| < SummaryReads(g, s.override, job.target)
      && !Locked(s, g.children[job.target][|job.sums|])
    case Commit(j) => j < |s.active| && Complete(g, s.override, s.active[j])
  }

  /** What an update that has read everything makes of its target. */
  function Recomputed(g: Net, s: State, job: Job): Node
    requires job.target in g.nodes && job.target in s.node
  {
    var n, c := job.target, g.conf[job.target];
    var own, masked := s.node[n].status, n in s.override;
    var ov := ShownStatus(own, masked, c.gravity, job.seen);
    Node(RealStatus(own, c.gravity, job.seen), ov,
         SummaryOf(c.countstop, masked, |g.children[n]|, ov, job.sums))
  }

  /** A service reports a status: its parents are told only when its shown status changes. */
  function Reported(g: Net, s: State, n: Id, st: Status): State
    requires n in g.nodes && n in s.node
  {
    var nd, c := s.node[n], g.conf[n];
    var ov := ShownStatus(st, n in s.override, c.gravity, []);
    if st == nd.status then s
    else if ov == nd.ov then s.(node := s.node[n := nd.(status := st)])
    else s.(node := s.node[n := Node(st, ov, SummaryOf(c.countstop, n in s.override, 0, ov, []))],
            pending := s.pending + Targets(g, n))
  }

  ghost function Next(g: Net, s: State, e: Event): State
    requires Shape(g, s) && Enabled(g, s, e)
  {
    match e
    case Update(n, st) => Reported(g, s, n, st)
    case SetOverride(n) => s.(override := s.override + {n}, pending := s.pending + [n])
    case DelOverride(n) => s.(override := s.override - {n}, pending := s.pending + [n])
    case Begin(i) => s.(pending := Without(s.pending, i), active := s.active + [Job(s.pending[i], [], [])])
    case ReadStatus(j) =>
      var job := s.active[j];
      var c := g.children[job.target][|job.seen|];
      assert c in g.children[job.target];
      s.(active := s.active[j := job.(seen := job.seen + [Look(s.node[c])])])
    case ReadSummary(j) =>
      var job := s.active[j];
      var c := g.children[job.target][|job.sums|];
      assert c in g.children[job.target];
      s.(active := s.active[j := job.(sums := job.sums + [s.node[c].summary])])
    case Commit(j) =>
      var job := s.active[j];
      s.(node := s.node[job.target := Recomputed(g, s, job)],
         pending := s.pending + Targets(g, job.target),
         active := Without(s.active, j))
  }

  // ---- being up to date ----

  /** Two views a parent cannot tell apart: the same shown status and the same class of real status. */
  predicate Alike(v: View, w: View) {
    ClassOf(v.status) == ClassOf(w.status) && v.ov == w.ov
  }

  function Kids(g: Dag, node: map<Id, Node>, n: Id): (vs: seq<View>)
    requires n in g.nodes && node.Keys == g.nodes
    ensures |vs| == |g.children[n]|
    ensures forall i :: 0 <= i < |vs| ==> g.children[n][i] in node && vs[i] == Look(node[g.children[n][i]])
  {
    var ch := g.children[n];
    assert forall i :: 0 <= i < |ch| ==> ch[i] in ch;
    seq(|ch|, i requires 0 <= i < |ch| => Look(node[ch[i]]))
  }

  function KidSums(g: Dag, node: map<Id, Node>, n: Id): (cs: seq<Counts>)
    requires n in g.nodes && node.Keys == g.nodes
    ensures |cs| == |g.children[n]|
    ensures forall i :: 0 <= i < |cs| ==> g.children[n][i] in node && cs[i] == node[g.children[n][i]].summary
  {
    var ch := g.children[n];
    assert forall i :: 0 <= i < |ch| ==> ch[i] in ch;
    seq(|ch|, i requires 0 <= i < |ch| => node[ch[i]].summary)
  }

  /** `n` shows what an update would show now. Its real status may differ, but not in class. */
  ghost predicate Fresh(g: Dag, node: map<Id, Node>, ov: set<Id>, n: Id)
    requires n in g.nodes && node.Keys == g.nodes
  {
    var nd, c, kids := node[n], g.conf[n], Kids(g, node, n);
    && ClassOf(nd.status) == ClassOf(RealStatus(nd.status, c.gravity, kids))
    && nd.ov == ShownStatus(nd.status, n in ov, c.gravity, kids)
    && nd.summary == SummaryOf(c.countstop, n in ov, |kids|, nd.ov, KidSums(g, node, n))
  }

  /** What a running update has read is still what it would read. */
  ghost predicate FreshReads(g: Dag, node: map<Id, Node>, ov: set<Id>, job: Job)
    requires JobShape(g, ov, job) && node.Keys == g.nodes
  {
    && (forall k :: 0 <= k < |job.seen| ==> Alike(job.seen[k], Kids(g, node, job.target)[k]))
    && (forall k :: 0 <= k < |job.sums| ==> job.sums[k] == KidSums(g, node, job.target)[k])
  }

  ghost predicate NodeOk(g: Dag, s: State, n: Id)
    requires Shape(g, s) && n in g.nodes
  {
    n in s.pending || Locked(s, n) || Fresh(g, s.node, s.override, n)
  }

  ghost predicate JobOk(g: Dag, s: State, j: nat)
    requires Shape(g, s) && j < |s.active|
  {
    s.active[j].target in s.pending || FreshReads(g, s.node, s.override, s.active[j])
  }

  ghost predicate LeafOk(g: Dag, s: State, n: Id)
    requires Shape(g, s) && n in g.nodes
  {
    Leaf(g, n) ==> ClassOf(s.node[n].ov) == ClassOf(s.node[n].status)
  }

  /** Every element is up to date, or an update of it is pending, or one is running on good readings. */
  ghost predicate Inv(g: Dag, s: State) {
    && Shape(g, s)
    && (forall n :: n in g.nodes ==> NodeOk(g, s, n) && LeafOk(g, s, n))
    && (forall j :: 0 <= j < |s.active| ==> JobOk(g, s, j))
  }

  // ---- parents notice only class, shown status and counts ----

  lemma StatusesAlike(vs: seq<View>, ws: seq<View>)
    requires |vs| == |ws| && forall i :: 0 <= i < |vs| ==> Alike(vs[i], ws[i]) && InRange(vs[i]) && InRange(ws[i])
    ensures Shown(vs) == Shown(ws)
    ensures UpTo(Statuses(vs), CRITICAL) && UpTo(Statuses(ws), CRITICAL)
    ensures forall i :: 0 <= i < |vs| ==> ClassOf(Statuses(vs)[i]) == ClassOf(Statuses(ws)[i])
  {
  }

  /** Readings that are alike give the same shown status and the same class of real status. */
  lemma AlikeDecides(own: Status, own': Status, masked: bool, grav: Gravity, vs: seq<View>, ws: seq<View>)
    requires |vs| == |ws| && forall i :: 0 <= i < |vs| ==> Alike(vs[i], ws[i]) && InRange(vs[i]) && InRange(ws[i])
    requires vs == [] ==> own == own'
    ensures ClassOf(RealStatus(own, grav, vs)) == ClassOf(RealStatus(own', grav, ws))
    ensures ShownStatus(own, masked, grav, vs) == ShownStatus(own', masked, grav, ws)
  {
    if vs != [] {
      StatusesAlike(vs, ws);
      ClassesDecide(grav, CRITICAL, Statuses(vs), Statuses(ws));
    }
  }

  lemma KidsInRange(g: Dag, s: State, n: Id)
    requires Shape(g, s) && n in g.nodes
    ensures forall i :: 0 <= i < |g.children[n]| ==> InRange(Kids(g, s.node, n)[i])
  {
  }

  /** Recomputing stays in range. */
  lemma RecomputedInRange(own: Status, masked: bool, grav: Gravity, vs: seq<View>)
    requires own <= CRITICAL && forall i :: 0 <= i < |vs| ==> InRange(vs[i])
    ensures RealStatus(own, grav, vs) <= CRITICAL
    ensures ShownStatus(own, masked, grav, vs) <= OVERRIDE
  {
    if vs != [] {
      assert UpTo(Statuses(vs), CRITICAL) && UpTo(Shown(vs), OVERRIDE);
      AggrBound(grav, CRITICAL, CRITICAL, Statuses(vs));
      AggrBound(grav, MAXSTATUS, OVERRIDE, Shown(vs));
    }
  }
}
