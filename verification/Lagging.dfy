/** On a tree, whose real status can stay behind for good: exactly the groups over an overridden service. */
module Lagging {
  import opened Aggregate
  import opened Monel
  import opened MonitorGraph
  import opened Propagation
  import opened UpToDate
  import opened Quiescence
  import opened Startup
  import opened RealStatuses

  /** As monitors are made: each is added once, to the children of its only parent. */
  ghost predicate Tree(g: Dag) {
    && (forall n :: n in g.nodes ==> |g.parents[n]| <= 1)
    && (forall n, i, j :: n in g.nodes && 0 <= i < j < |g.children[n]| ==> g.children[n][i] != g.children[n][j])
  }

  // ---- siblings that let one child's status through ----

  /** With this beside child `k` of `m`, child `k` decides. */
  function Beside(grav: Gravity, m: nat, k: nat, i: nat): Status
    requires k < m
  {
    match grav
    case Up => CRITICAL
    case Dn => CLEAR
    case _ =>
      var low := (m - 1) / 2;
      if i < low + (if k < low then 1 else 0) then CLEAR else CRITICAL
  }

  ghost predicate LeftToOne(grav: Gravity, xs: seq<Status>, k: nat) {
    && k < |xs| && CLEAR < xs[k] <= CRITICAL
    && forall i :: 0 <= i < |xs| && i != k ==> xs[i] == Beside(grav, |xs|, k, i)
  }

  /** How many of the first `j` children are no worse than `s`, when `low` others are clear. */
  function NoWorse(v: Status, low: nat, k: nat, j: nat, s: Status): nat
  {
    var clear := low + if k < low then 1 else 0;
    var before := if j < clear then j else clear;
    before - (if k < before then 1 else 0) + (if k < j && v <= s then 1 else 0)
  }

  lemma {:induction false} CountNoWorse(xs: seq<Status>, low: nat, k: nat, j: nat, s: Status)
    requires k < |xs| && j <= |xs| && CLEAR < xs[k] <= CRITICAL && CLEAR <= s < CRITICAL
    requires forall i :: 0 <= i < |xs| && i != k ==>
      xs[i] == if i < low + (if k < low then 1 else 0) then CLEAR else CRITICAL
    ensures Between(Histogram(xs[..j]), CLEAR, s) == NoWorse(xs[k], low, k, j, s)
  {
    if j == 0 {
      BetweenNone(s);
    } else {
      CountNoWorse(xs, low, k, j - 1, s);
      assert xs[..j][..j - 1] == xs[..j - 1];
      BetweenBump(Histogram(xs[..j - 1]), xs[j - 1], s);
    }
  }

  lemma VotePasses(grav: Gravity, xs: seq<Status>, k: nat)
    requires !grav.Up? && !grav.Dn? && LeftToOne(grav, xs, k)
    ensures AggrList(grav, CRITICAL, xs) == xs[k]
  {
    var m, h, v := |xs|, Histogram(xs), xs[k];
    assert xs[..m] == xs;
    HistogramCounts(xs, UNKNOWN);
    assert h[UNKNOWN] == 0;
    BetweenCap(xs, CRITICAL);
    CountNoWorse(xs, (m - 1) / 2, k, m, v - 1);
    ReachingAtMost(h, Majority(m), CRITICAL, v - 1);
    if v < CRITICAL {
      CountNoWorse(xs, (m - 1) / 2, k, m, v);
      ReachingAtMost(h, Majority(m), CRITICAL, v);
    }
  }

  lemma OnePasses(grav: Gravity, xs: seq<Status>, k: nat)
    requires LeftToOne(grav, xs, k)
    ensures AggrList(grav, CRITICAL, xs) == xs[k]
  {
    if grav.Up? {
      UpIsMinimumKnown(CRITICAL, xs);
    } else if grav.Dn? {
      DnIsMaximum(CRITICAL, xs);
    } else {
      VotePasses(grav, xs, k);
    }
  }

  lemma AllAlikePass(grav: Gravity, xs: seq<Status>, v: Status)
    requires xs != [] && CLEAR <= v <= CRITICAL && forall i :: 0 <= i < |xs| ==> xs[i] == v
    ensures AggrList(grav, CRITICAL, xs) == v
  {
    AggrBound(grav, CRITICAL, v, xs);
    if grav.Up? {
      UpIsMinimumKnown(CRITICAL, xs);
    } else if grav.Dn? {
      DnIsMaximum(CRITICAL, xs);
    } else {
      BetweenCap(xs, CRITICAL);
      HistogramCounts(xs, UNKNOWN);
      if v > CLEAR {
        NoneBelow(xs, v, v - 1);
      }
      ReachingAtMost(Histogram(xs), Majority(|xs|), CRITICAL, CLEAR);
      if v > CLEAR {
        ReachingAtMost(Histogram(xs), Majority(|xs|), CRITICAL, v - 1);
      }
    }
  }

  lemma {:induction false} NoneBelow(xs: seq<Status>, v: Status, s: Status)
    requires s < v && forall i :: 0 <= i < |xs| ==> xs[i] == v
    ensures Between(Histogram(xs), CLEAR, s) == 0
  {
    if xs == [] {
      BetweenNone(s);
    } else {
      NoneBelow(xs[..|xs| - 1], v, s);
      BetweenBump(Histogram(xs[..|xs| - 1]), v, s);
    }
  }

  // ---- the line of groups above one service ----

  lemma {:induction false} BelowRank(g: Dag, top: Id, n: Id)
    requires top in g.nodes && n in g.nodes && Below(g, top, n)
    ensures g.rank[n] <= g.rank[top]
    decreases g.height - g.rank[n]
  {
    if n != top {
      var p :| p in g.parents[n] && p in g.nodes && n in g.children[p] && Below(g, top, p);
      BelowRank(g, top, p);
    }
  }

  lemma OnlyParent(g: Dag, n: Id, p: Id, q: Id)
    requires Tree(g) && n in g.nodes && p in g.parents[n] && q in g.parents[n]
    ensures p == q
  {
  }

  /** Only one child of `x` leads down to `l`. */
  lemma {:induction false} OneWayDown(g: Dag, x: Id, c: Id, d: Id, l: Id)
    requires Tree(g) && x in g.nodes && l in g.nodes && c in g.children[x] && d in g.children[x]
    requires Below(g, c, l) && Below(g, d, l)
    ensures c == d
    decreases g.height - g.rank[l]
  {
    if l == c || l == d {
      var other := if l == c then d else c;
      if other != l {
        var p :| p in g.parents[l] && p in g.nodes && l in g.children[p] && Below(g, other, p);
        OnlyParent(g, l, p, x);
        BelowRank(g, other, x);
      }
    } else {
      var p :| p in g.parents[l] && p in g.nodes && l in g.children[p] && Below(g, c, p);
      var q :| q in g.parents[l] && q in g.nodes && l in g.children[q] && Below(g, d, q);
      OnlyParent(g, l, p, q);
      OneWayDown(g, x, c, d, p);
    }
  }

  /** Some child of `x` does. */
  lemma {:induction false} SomeWayDown(g: Dag, x: Id, l: Id) returns (i: nat)
    requires x in g.nodes && l in g.nodes && x != l && Below(g, x, l)
    ensures i < |g.children[x]| && g.children[x][i] in g.nodes && Below(g, g.children[x][i], l)
    decreases g.height - g.rank[l]
  {
    var p :| p in g.parents[l] && p in g.nodes && l in g.children[p] && Below(g, x, p);
    if p == x {
      i :| 0 <= i < |g.children[x]| && g.children[x][i] == l;
    } else {
      i := SomeWayDown(g, x, p);
      var c := g.children[x][i];
      assert Below(g, c, l);
    }
  }

  ghost function Line(g: Dag, l: Id): set<Id>
    requires l in g.nodes
  {
    set x | x in g.nodes && Below(g, x, l)
  }

  /** Where the first element from `on` stands. */
  ghost function Slot(ch: seq<Id>, on: set<Id>): (k: nat)
    ensures k <= |ch| && (k < |ch| ==> ch[k] in on)
    ensures forall j :: 0 <= j < k ==> ch[j] !in on
  {
    if ch == [] then 0
    else if ch[0] in on then 0
    else 1 + Slot(ch[1..], on)
  }

  // ---- statuses that let one service decide ----

  /** Off the line a whole subtree is alike. */
  ghost function Wanted(g: Dag, l: Id, v: Status, x: Id): Status
    requires l in g.nodes && x in g.nodes
    decreases g.height - g.rank[x]
  {
    if x in Line(g, l) then v
    else if g.parents[x] == [] then CLEAR
    else
      var p := g.parents[x][0];
      assert p in g.parents[x] && x in g.children[p];
      if p !in Line(g, l) then Wanted(g, l, v, p)
      else
        var m, k := |g.children[p]|, Slot(g.children[p], Line(g, l));
        if k == m then CLEAR else Beside(g.conf[p].gravity, m, k, Slot(g.children[p], {x}))
  }

  ghost function Given(g: Dag, st: map<Id, Status>, x: Id): (xs: seq<Status>)
    requires x in g.nodes && st.Keys == g.nodes
    ensures |xs| == |g.children[x]|
  {
    seq(|g.children[x]|, i requires 0 <= i < |g.children[x]| => ChildBelow(g, x, i); st[g.children[x][i]])
  }

  /** `st` is what groups make of their services. */
  ghost predicate Aggregated(g: Dag, st: map<Id, Status>) {
    && st.Keys == g.nodes
    && forall x :: x in g.nodes && !Leaf(g, x) ==> st[x] == AggrList(g.conf[x].gravity, CRITICAL, Given(g, st, x))
  }

  lemma WantedRange(g: Dag, l: Id, v: Status, x: Id)
    requires l in g.nodes && x in g.nodes && CLEAR <= v <= CRITICAL
    ensures CLEAR <= Wanted(g, l, v, x) <= CRITICAL
    decreases g.height - g.rank[x]
  {
  }

  /** On the line the siblings leave it to one child. */
  lemma WantedOnLine(g: Dag, l: Id, v: Status, x: Id, xs: seq<Status>) returns (k: nat)
    requires Tree(g) && l in g.nodes && x in Line(g, l) && x != l && CLEAR < v <= CRITICAL
    requires |xs| == |g.children[x]|
    requires forall i :: 0 <= i < |xs| ==> (ChildBelow(g, x, i); xs[i] == Wanted(g, l, v, g.children[x][i]))
    ensures LeftToOne(g.conf[x].gravity, xs, k) && xs[k] == v
  {
    var ch, line := g.children[x], Line(g, l);
    k := Slot(ch, line);
    var way := SomeWayDown(g, x, l);
    assert ch[way] in line;
    ChildBelow(g, x, k);
    assert xs[k] == v;
    forall i | 0 <= i < |xs| && i != k ensures xs[i] == Beside(g.conf[x].gravity, |xs|, k, i) {
      WantedBesideLine(g, l, v, x, k, i);
    }
  }

  lemma WantedBesideLine(g: Dag, l: Id, v: Status, x: Id, k: nat, i: nat)
    requires Tree(g) && l in g.nodes && x in Line(g, l) && i < |g.children[x]| && i != k < |g.children[x]|
    requires k == Slot(g.children[x], Line(g, l))
    ensures g.children[x][i] in g.nodes
    ensures Wanted(g, l, v, g.children[x][i]) == Beside(g.conf[x].gravity, |g.children[x]|, k, i)
  {
    var ch := g.children[x];
    var c := ch[i];
    ChildBelow(g, x, i);
    assert c in ch && ch[k] in ch;
    assert x in g.parents[c] && g.parents[c][0] in g.parents[c];
    OnlyParent(g, c, x, g.parents[c][0]);
    if Below(g, c, l) {
      OneWayDown(g, x, c, ch[k], l);
      assert false;
    }
    assert ch[Slot(ch, {c})] == c;
  }

  /** Off the line a group's children want what it wants. */
  lemma WantedOffLine(g: Dag, l: Id, v: Status, x: Id, i: nat)
    requires Tree(g) && l in g.nodes && x in g.nodes && x !in Line(g, l) && i < |g.children[x]|
    ensures g.children[x][i] in g.nodes && Wanted(g, l, v, g.children[x][i]) == Wanted(g, l, v, x)
  {
    var c := g.children[x][i];
    ChildBelow(g, x, i);
    assert c in g.children[x];
    assert x in g.parents[c] && g.parents[c][0] in g.parents[c];
    OnlyParent(g, c, x, g.parents[c][0]);
    BelowUp(g, x, c, l);
  }

  lemma {:induction false} BelowUp(g: Dag, x: Id, c: Id, l: Id)
    requires x in g.nodes && l in g.nodes && c in g.children[x]
    ensures Below(g, c, l) ==> Below(g, x, l)
    decreases g.height - g.rank[l]
  {
    if l == c {
      assert Below(g, x, x);
    } else if Below(g, c, l) {
      var p :| p in g.parents[l] && p in g.nodes && l in g.children[p] && Below(g, c, p);
      BelowUp(g, x, c, p);
    }
  }

  /** Services that have what is wanted make groups have it. */
  lemma {:induction false} WantedWorks(g: Dag, l: Id, v: Status, st: map<Id, Status>, x: Id)
    requires Tree(g) && l in g.nodes && Leaf(g, l) && CLEAR < v <= CRITICAL && Aggregated(g, st)
    requires forall y :: y in g.nodes && Leaf(g, y) ==> st[y] == Wanted(g, l, v, y)
    requires x in g.nodes
    ensures st[x] == Wanted(g, l, v, x)
    decreases g.rank[x]
  {
    if !Leaf(g, x) {
      var xs := Given(g, st, x);
      forall i | 0 <= i < |xs|
        ensures g.children[x][i] in g.nodes && xs[i] == Wanted(g, l, v, g.children[x][i])
      {
        ChildBelow(g, x, i);
        WantedWorks(g, l, v, st, g.children[x][i]);
      }
      if x in Line(g, l) {
        var k := WantedOnLine(g, l, v, x, xs);
        OnePasses(g.conf[x].gravity, xs, k);
      } else {
        WantedRange(g, l, v, x);
        forall i | 0 <= i < |xs| ensures xs[i] == Wanted(g, l, v, x) {
          WantedOffLine(g, l, v, x, i);
        }
        AllAlikePass(g.conf[x].gravity, xs, Wanted(g, l, v, x));
      }
    }
  }

  // ---- a run that leaves a group behind ----

  ghost function RealAt(g: Dag, node: map<Id, Node>): (st: map<Id, Status>)
    requires node.Keys == g.nodes
    ensures st.Keys == g.nodes
  {
    map x | x in g.nodes :: node[x].status
  }

  ghost function RealIdeal(g: Dag, w: World): (st: map<Id, Status>)
    requires Covered(g, w)
    ensures st.Keys == g.nodes
  {
    map x | x in g.nodes :: Ideal(g, w, x).status
  }

  lemma DoneAggregated(g: Dag, node: map<Id, Node>, ov: set<Id>)
    requires node.Keys == g.nodes && forall x :: x in g.nodes ==> Done(g, node, ov, x)
    ensures Aggregated(g, RealAt(g, node))
  {
    var st := RealAt(g, node);
    forall x | x in g.nodes && !Leaf(g, x)
      ensures st[x] == AggrList(g.conf[x].gravity, CRITICAL, Given(g, st, x))
    {
      assert Done(g, node, ov, x);
      GivenByKids(g, node, x);
    }
  }

  lemma GivenByKids(g: Dag, node: map<Id, Node>, x: Id)
    requires node.Keys == g.nodes && x in g.nodes
    ensures Given(g, RealAt(g, node), x) == Statuses(Kids(g, node, x))
  {
    forall i | 0 <= i < |g.children[x]|
      ensures Given(g, RealAt(g, node), x)[i] == Statuses(Kids(g, node, x))[i]
    {
      ChildBelow(g, x, i);
    }
  }

  lemma IdealAggregated(g: Dag, w: World)
    requires Covered(g, w)
    ensures Aggregated(g, RealIdeal(g, w))
  {
    var st := RealIdeal(g, w);
    forall x | x in g.nodes && !Leaf(g, x)
      ensures st[x] == AggrList(g.conf[x].gravity, CRITICAL, Given(g, st, x))
    {
      forall i | 0 <= i < |g.children[x]| ensures Given(g, st, x)[i] == Statuses(IdealKids(g, w, x))[i] {
        ChildBelow(g, x, i);
      }
      assert Given(g, st, x) == Statuses(IdealKids(g, w, x));
    }
  }

  /** Some run from configuration to rest, ending with overrides `ov`, leaves `n` with another status than the
      services dictate. */
  ghost predicate CanLag(g: Dag, top: Id, ov: set<Id>, n: Id)
    requires top in g.nodes && n in g.nodes
  {
    exists node, ov0, es, t :: LagsIn(g, top, ov, n, node, ov0, es, t)
  }

  ghost predicate LagsIn(g: Dag, top: Id, ov: set<Id>, n: Id, node: map<Id, Node>, ov0: set<Id>,
                         es: seq<Event>, t: State)
    requires top in g.nodes && n in g.nodes
  {
    && node.Keys == g.nodes && LeavesInRange(g, node)
    && Run(g, Started(g, node, ov0, top), es, t)
    && Quiescent(t) && t.override == ov
    && Shape(g, t) && Covered(g, WorldOf(g, t))
    && t.node[n].status != Ideal(g, WorldOf(g, t), n).status
  }

  lemma {:induction false} FindMasked(g: Dag, ov: set<Id>, n: Id) returns (l: Id)
    requires n in g.nodes && !Bare(g, ov, n)
    ensures l in g.nodes && Leaf(g, l) && l in ov && Below(g, n, l)
    decreases g.rank[n]
  {
    if Leaf(g, n) {
      return n;
    }
    var i :| 0 <= i < |g.children[n]| && (ChildBelow(g, n, i); !Bare(g, ov, g.children[n][i]));
    ChildBelow(g, n, i);
    l := FindMasked(g, ov, g.children[n][i]);
    BelowUp(g, n, g.children[n][i], l);
  }

  /** What services have reported before: the one on the line a warning. */
  ghost function Before(g: Dag, l: Id): (node: map<Id, Node>)
    requires l in g.nodes
    ensures node.Keys == g.nodes
  {
    map x | x in g.nodes :: Node(Wanted(g, l, WARNING, x), UNKNOWN, NoCounts)
  }

  lemma LeafOnLine(g: Dag, l: Id, x: Id)
    requires l in g.nodes && x in g.nodes && Leaf(g, x) && x != l
    ensures x !in Line(g, l) && Wanted(g, l, WARNING, x) == Wanted(g, l, CRITICAL, x)
  {
    if Below(g, x, l) {
      var i := SomeWayDown(g, x, l);
      assert false;
    }
    SameOffLine(g, l, WARNING, CRITICAL, x);
  }

  lemma {:induction false} SameOffLine(g: Dag, l: Id, v: Status, w: Status, x: Id)
    requires l in g.nodes && x in g.nodes && x !in Line(g, l)
    ensures Wanted(g, l, v, x) == Wanted(g, l, w, x)
    decreases g.height - g.rank[x]
  {
    if g.parents[x] != [] {
      var p := g.parents[x][0];
      assert p in g.parents[x] && x in g.children[p];
      if p !in Line(g, l) {
        SameOffLine(g, l, v, w, p);
      }
    }
  }

  lemma WantedStart(g: Dag, top: Id, ov: set<Id>, l: Id) returns (node: map<Id, Node>, s: State)
    requires Tree(g) && top in g.nodes && forall x :: x in g.nodes ==> Below(g, top, x)
    requires l in g.nodes && Leaf(g, l)
    ensures node.Keys == g.nodes && LeavesInRange(g, node) && s == Started(g, node, ov, top)
    ensures Inv(g, s) && Quiescent(s)
    ensures forall x :: x in g.nodes ==> s.node[x].status == Wanted(g, l, WARNING, x)
  {
    node := Before(g, l);
    forall x | x in g.nodes ensures node[x].status <= CRITICAL {
      WantedRange(g, l, WARNING, x);
    }
    s := Started(g, node, ov, top);
    StartsUpToDate(g, node, ov, top);
    DoneAggregated(g, s.node, ov);
    forall x | x in g.nodes ensures s.node[x].status == Wanted(g, l, WARNING, x) {
      WantedWorks(g, l, WARNING, RealAt(g, s.node), x);
    }
  }

  /** Then that service turns critical, unheard under its override. */
  lemma TurnsCritical(g: Dag, s: State, l: Id) returns (es: seq<Event>, t: State)
    requires Tree(g) && Inv(g, s) && Quiescent(s) && l in g.nodes && Leaf(g, l) && l in s.override
    requires g.parents[l] != []
    requires forall x :: x in g.nodes ==> s.node[x].status == Wanted(g, l, WARNING, x)
    ensures Run(g, s, es, t) && Inv(g, t) && Quiescent(t) && t.override == s.override
    ensures forall x :: x in g.nodes ==> t.node[x].status == if x == l then CRITICAL else s.node[x].status
  {
    var e := Event.Update(l, CRITICAL);
    t := Next(g, s, e);
    StepKeeps(g, s, e);
    assert Below(g, l, l);
    SilentReports(g, s, l, CRITICAL);
    ReportStatus(g, s, l, CRITICAL, t);
    es := [e];
    OneStepRun(g, s, e);
  }

  lemma ReportStatus(g: Dag, s: State, n: Id, st: Status, t: State)
    requires n in g.nodes && s.node.Keys == g.nodes && t == Reported(g, s, n, st)
    ensures t.override == s.override && t.active == s.active && t.node.Keys == g.nodes
    ensures forall x :: x in g.nodes ==> t.node[x].status == if x == n then st else s.node[x].status
  {
  }

  lemma OneStepRun(g: Dag, s: State, e: Event)
    requires Shape(g, s) && Enabled(g, s, e)
    ensures Run(g, s, [e], Next(g, s, e))
  {
    assert [e][1..] == [];
    assert Run(g, Next(g, s, e), [], Next(g, s, e));
  }

  lemma IdealFollows(g: Dag, t: State, l: Id, x: Id)
    requires Tree(g) && Shape(g, t) && Covered(g, WorldOf(g, t)) && l in g.nodes && Leaf(g, l) && x in g.nodes
    requires forall y :: y in g.nodes && Leaf(g, y) ==>
      t.node[y].status == if y == l then CRITICAL else Wanted(g, l, WARNING, y)
    ensures Ideal(g, WorldOf(g, t), x).status == Wanted(g, l, CRITICAL, x)
  {
    var w := WorldOf(g, t);
    var st := RealIdeal(g, w);
    IdealAggregated(g, w);
    forall y | y in g.nodes && Leaf(g, y) ensures st[y] == Wanted(g, l, CRITICAL, y) {
      assert IdealKids(g, w, y) == [];
      assert Below(g, l, l);
      if y != l {
        LeafOnLine(g, l, y);
      }
    }
    WantedWorks(g, l, CRITICAL, st, x);
  }

  lemma GroupLags(g: Dag, top: Id, ov: set<Id>, n: Id)
    requires Tree(g) && top in g.nodes && forall x :: x in g.nodes ==> Below(g, top, x)
    requires n in g.nodes && !Leaf(g, n) && !Bare(g, ov, n)
    ensures CanLag(g, top, ov, n)
  {
    var l := FindMasked(g, ov, n);
    assert g.parents[l] != [];
    var node, s := WantedStart(g, top, ov, l);
    var es, t := TurnsCritical(g, s, l);
    LeftBehind(g, t, l, n);
    assert LagsIn(g, top, ov, n, node, ov, es, t);
  }

  lemma LeftBehind(g: Dag, t: State, l: Id, n: Id)
    requires Tree(g) && Shape(g, t) && l in g.nodes && Leaf(g, l)
    requires n in g.nodes && n != l && Below(g, n, l)
    requires forall x :: x in g.nodes ==>
      t.node[x].status == if x == l then CRITICAL else Wanted(g, l, WARNING, x)
    ensures Covered(g, WorldOf(g, t)) && t.node[n].status != Ideal(g, WorldOf(g, t), n).status
  {
    WorldCovered(g, t);
    IdealFollows(g, t, l, n);
    assert n in Line(g, l);
  }

  lemma NoneLags(g: Dag, top: Id, ov: set<Id>, n: Id)
    requires top in g.nodes && forall x :: x in g.nodes ==> Below(g, top, x)
    requires n in g.nodes && (Leaf(g, n) || Bare(g, ov, n))
    ensures !CanLag(g, top, ov, n)
  {
    forall node: map<Id, Node>, ov0, es, t
      | node.Keys == g.nodes && LeavesInRange(g, node)
        && Run(g, Started(g, node, ov0, top), es, t) && Quiescent(t) && t.override == ov
      ensures !LagsIn(g, top, ov, n, node, ov0, es, t)
    {
      StartsExact(g, node, ov0, top);
      RunExact(g, Started(g, node, ov0, top), es, t);
      WorldCovered(g, t);
      ExactEnd(g, t, n);
    }
  }

  lemma ExactEnd(g: Dag, t: State, n: Id)
    requires Inv(g, t) && Exact(g, t) && Quiescent(t) && n in g.nodes && Covered(g, WorldOf(g, t))
    requires Leaf(g, n) || Bare(g, t.override, n)
    ensures t.node[n].status == Ideal(g, WorldOf(g, t), n).status
  {
    if Leaf(g, n) {
      assert IdealKids(g, WorldOf(g, t), n) == [];
    } else {
      QuietIsExact(g, t, n);
    }
  }

  /** On a tree a real status can be left behind exactly where it is that of a group over an overridden service. */
  lemma LagsExactly(g: Dag, top: Id, ov: set<Id>, n: Id)
    requires Tree(g) && top in g.nodes && forall x :: x in g.nodes ==> Below(g, top, x)
    requires n in g.nodes
    ensures CanLag(g, top, ov, n) <==> !Leaf(g, n) && !Bare(g, ov, n)
  {
    if !Leaf(g, n) && !Bare(g, ov, n) {
      GroupLags(g, top, ov, n);
    } else {
      NoneLags(g, top, ov, n);
    }
  }
}
