/** What the tree shows once nothing is pending: a function of the services' statuses and the overrides. */
module Quiescence {
  import opened Aggregate
  import opened Monel
  import opened MonitorGraph
  import opened Propagation
  import opened UpToDate

  /** What the outside sets: the statuses services reported, and where overrides are. */
  datatype World = World(reported: map<Id, Status>, override: set<Id>)

  ghost function WorldOf(g: Dag, s: State): (w: World)
    requires Shape(g, s)
    ensures w.reported.Keys == set n | n in g.nodes && Leaf(g, n)
  {
    World(map n | n in g.nodes && Leaf(g, n) :: s.node[n].status, s.override)
  }

  ghost predicate Covered(g: Dag, w: World) {
    forall n :: n in g.nodes && Leaf(g, n) ==> n in w.reported && w.reported[n] <= CRITICAL
  }

  lemma ChildBelow(g: Net, n: Id, i: nat)
    requires n in g.nodes && i < |g.children[n]|
    ensures g.children[n][i] in g.nodes && g.rank[g.children[n][i]] < g.rank[n]
  {
    assert g.children[n][i] in g.children[n];
  }

  /** The status `n` would have if every change had reached it, and what it would show. */
  ghost function Ideal(g: Dag, w: World, n: Id): View
    requires n in g.nodes && Covered(g, w)
    decreases g.rank[n], 1
  {
    var own, c := if Leaf(g, n) then w.reported[n] else UNKNOWN, g.conf[n];
    var kids := IdealKids(g, w, n);
    View(RealStatus(own, c.gravity, kids), ShownStatus(own, n in w.override, c.gravity, kids))
  }

  ghost function IdealKids(g: Dag, w: World, n: Id): (vs: seq<View>)
    requires n in g.nodes && Covered(g, w)
    ensures |vs| == |g.children[n]|
    decreases g.rank[n], 0
  {
    seq(|g.children[n]|, i requires 0 <= i < |g.children[n]| =>
      ChildBelow(g, n, i);
      Ideal(g, w, g.children[n][i]))
  }

  ghost function IdealSummary(g: Dag, w: World, n: Id): Counts
    requires n in g.nodes && Covered(g, w)
    decreases g.rank[n], 1
  {
    SummaryOf(g.conf[n].countstop, n in w.override, |g.children[n]|, Ideal(g, w, n).ov, IdealSums(g, w, n))
  }

  ghost function IdealSums(g: Dag, w: World, n: Id): (cs: seq<Counts>)
    requires n in g.nodes && Covered(g, w)
    ensures |cs| == |g.children[n]|
    decreases g.rank[n], 0
  {
    seq(|g.children[n]|, i requires 0 <= i < |g.children[n]| =>
      ChildBelow(g, n, i);
      IdealSummary(g, w, g.children[n][i]))
  }

  ghost predicate Quiescent(s: State) {
    s.pending == [] && s.active == []
  }

  lemma WorldCovered(g: Dag, s: State)
    requires Shape(g, s)
    ensures Covered(g, WorldOf(g, s))
  {
    forall n | n in g.nodes && Leaf(g, n) ensures s.node[n].status <= CRITICAL {
      assert InRange(Look(s.node[n]));
    }
  }

  /** `n` is as the outside dictates, except that its real status may be another of the same class. */
  ghost predicate Settled(g: Dag, s: State, n: Id)
    requires Shape(g, s) && n in g.nodes && Covered(g, WorldOf(g, s))
  {
    var nd, w := s.node[n], WorldOf(g, s);
    && Alike(Look(nd), Ideal(g, w, n))
    && InRange(Ideal(g, w, n))
    && nd.summary == IdealSummary(g, w, n)
  }

  /** When no update is pending or running, every element shows what the services' statuses and the
      overrides dictate. */
  lemma {:induction false} QuietIsIdeal(g: Dag, s: State, n: Id)
    requires Inv(g, s) && Quiescent(s) && n in g.nodes && Covered(g, WorldOf(g, s))
    ensures Settled(g, s, n)
    decreases g.rank[n]
  {
    var w, nd := WorldOf(g, s), s.node[n];
    assert NodeOk(g, s, n);
    forall i | 0 <= i < |g.children[n]|
      ensures Alike(Kids(g, s.node, n)[i], IdealKids(g, w, n)[i])
      ensures InRange(IdealKids(g, w, n)[i])
      ensures KidSums(g, s.node, n)[i] == IdealSums(g, w, n)[i]
    {
      ChildBelow(g, n, i);
      QuietIsIdeal(g, s, g.children[n][i]);
    }
    SettledFromKids(g, s, n);
  }

  lemma SettledFromKids(g: Dag, s: State, n: Id)
    requires Shape(g, s) && n in g.nodes && Covered(g, WorldOf(g, s))
    requires Fresh(g, s.node, s.override, n)
    requires forall i :: 0 <= i < |g.children[n]| ==>
      && Alike(Kids(g, s.node, n)[i], IdealKids(g, WorldOf(g, s), n)[i])
      && InRange(IdealKids(g, WorldOf(g, s), n)[i])
    requires KidSums(g, s.node, n) == IdealSums(g, WorldOf(g, s), n)
    ensures Settled(g, s, n)
  {
    KidsInRange(g, s, n);
    assert InRange(Look(s.node[n]));
    ViewFromKids(g, s.node[n], WorldOf(g, s), n, Kids(g, s.node, n));
  }

  lemma ViewFromKids(g: Dag, nd: Node, w: World, n: Id, kids: seq<View>)
    requires n in g.nodes && Covered(g, w) && |kids| == |g.children[n]| && nd.status <= CRITICAL
    requires forall i :: 0 <= i < |kids| ==>
      Alike(kids[i], IdealKids(g, w, n)[i]) && InRange(kids[i]) && InRange(IdealKids(g, w, n)[i])
    requires ClassOf(nd.status) == ClassOf(RealStatus(nd.status, g.conf[n].gravity, kids))
    requires nd.ov == ShownStatus(nd.status, n in w.override, g.conf[n].gravity, kids)
    requires Leaf(g, n) ==> w.reported[n] == nd.status
    ensures Alike(Look(nd), Ideal(g, w, n)) && InRange(Ideal(g, w, n))
  {
    var own := if Leaf(g, n) then nd.status else UNKNOWN;
    SameShown(nd.status, own, n in w.override, g.conf[n].gravity, kids, IdealKids(g, w, n));
  }

  lemma SameShown(was: Status, own: Status, masked: bool, grav: Gravity, kids: seq<View>, ideals: seq<View>)
    requires own <= CRITICAL && |kids| == |ideals| && (kids == [] ==> was == own)
    requires forall i :: 0 <= i < |kids| ==> Alike(kids[i], ideals[i]) && InRange(kids[i]) && InRange(ideals[i])
    ensures ClassOf(RealStatus(was, grav, kids)) == ClassOf(RealStatus(own, grav, ideals))
    ensures ShownStatus(was, masked, grav, kids) == ShownStatus(own, masked, grav, ideals)
    ensures RealStatus(own, grav, ideals) <= CRITICAL && ShownStatus(own, masked, grav, ideals) <= OVERRIDE
  {
    AlikeDecides(was, own, masked, grav, kids, ideals);
    RecomputedInRange(own, masked, grav, ideals);
  }

  // ---- what is shown, said of the statuses themselves ----

  /** When no update is pending or running: a failing element under an override shows the override; any other service
      shows its status, and any other group what its gravity chooses from what its children show. And a group's real
      status is of the class of what its gravity chooses from its children's. */
  lemma QuietShows(g: Dag, s: State, n: Id)
    requires Inv(g, s) && Quiescent(s) && n in g.nodes
    ensures var nd, kids := s.node[n], Kids(g, s.node, n);
            && (if n in s.override && nd.status !in {0, 1} then nd.ov == 6
                else if g.children[n] == [] then nd.ov == nd.status
                else Chosen(g.conf[n].gravity, Shown(kids), nd.ov))
            && (g.children[n] != [] ==> exists r: Status :: Chosen(g.conf[n].gravity, Statuses(kids), r)
                                                     && (r == 0 <==> nd.status == 0) && (r == 1 <==> nd.status == 1))
  {
    assert NodeOk(g, s, n);
    KidsInRange(g, s, n);
    FreshShows(s.node[n], n in s.override, g.conf[n].gravity, Kids(g, s.node, n));
  }

  lemma FreshShows(nd: Node, masked: bool, grav: Gravity, kids: seq<View>)
    requires ClassOf(nd.status) == ClassOf(RealStatus(nd.status, grav, kids)) && nd.status <= CRITICAL
    requires nd.ov == ShownStatus(nd.status, masked, grav, kids)
    requires forall i :: 0 <= i < |kids| ==> InRange(kids[i])
    ensures if masked && nd.status !in {0, 1} then nd.ov == 6
            else if kids == [] then nd.ov == nd.status
            else Chosen(grav, Shown(kids), nd.ov)
    ensures kids != [] ==> exists r: Status :: Chosen(grav, Statuses(kids), r)
                                               && (r == 0 <==> nd.status == 0) && (r == 1 <==> nd.status == 1)
  {
    if kids != [] {
      assert UpTo(Statuses(kids), CRITICAL) && UpTo(Shown(kids), OVERRIDE);
      AggrIsChosen(grav, CRITICAL, Statuses(kids));
      AggrIsChosen(grav, MAXSTATUS, Shown(kids));
      AggrBound(grav, MAXSTATUS, OVERRIDE, Shown(kids));
    }
  }

  // ---- what is counted, element by element ----

  /** What an element contributes to the counts above it: itself as it is shown, if it is a service or counting stops
      there; its children as overridden, if it is; or else what its children contribute. */
  ghost function Faces(g: Net, node: map<Id, Node>, ov: set<Id>, n: Id): seq<Status>
    requires n in g.nodes && node.Keys == g.nodes
    decreases g.rank[n], 1, 0
  {
    if g.children[n] == [] || g.conf[n].countstop then [node[n].ov]
    else if n in ov then seq(|g.children[n]|, i => 6)
    else KidFaces(g, node, ov, n, |g.children[n]|)
  }

  ghost function KidFaces(g: Net, node: map<Id, Node>, ov: set<Id>, n: Id, k: nat): seq<Status>
    requires n in g.nodes && node.Keys == g.nodes && k <= |g.children[n]|
    decreases g.rank[n], 0, k
  {
    if k == 0 then []
    else
      ChildBelow(g, n, k - 1);
      KidFaces(g, node, ov, n, k - 1) + Faces(g, node, ov, g.children[n][k - 1])
  }

  function Times(xs: seq<Status>, x: Status): nat {
    if xs == [] then 0 else Times(xs[..|xs| - 1], x) + if xs[|xs| - 1] == x then 1 else 0
  }

  lemma {:induction false} TimesConcat(xs: seq<Status>, ys: seq<Status>, x: Status)
    ensures Times(xs + ys, x) == Times(xs, x) + Times(ys, x)
  {
    if ys == [] {
      assert xs + ys == xs;
    } else {
      assert (xs + ys)[..|xs| + |ys| - 1] == xs + ys[..|ys| - 1];
      TimesConcat(xs, ys[..|ys| - 1], x);
    }
  }

  lemma {:induction false} AllOverridden(xs: seq<Status>, k: Status)
    requires forall i :: 0 <= i < |xs| ==> xs[i] == 6
    ensures Times(xs, k) == if k == 6 then |xs| else 0
  {
    if xs != [] {
      AllOverridden(xs[..|xs| - 1], k);
    }
  }

  /** When no update is pending or running, an element's count of a status is the sum of its children's counts of that
      status, unless it is childless, stops the counting, or is overridden. */
  lemma QuietTallies(g: Dag, s: State, n: Id)
    requires Inv(g, s) && Quiescent(s) && n in g.nodes
    ensures var nd := s.node[n];
            Tallies(g.conf[n].countstop, n in s.override, |g.children[n]|, nd.ov, KidSums(g, s.node, n), nd.summary)
  {
    assert NodeOk(g, s, n);
    SummaryTallies(g.conf[n].countstop, n in s.override, |g.children[n]|, s.node[n].ov, KidSums(g, s.node, n));
  }

  /** So it is how many of the elements that count below it show that status. */
  lemma QuietCounts(g: Dag, s: State, n: Id, k: Status)
    requires Inv(g, s) && Quiescent(s) && n in g.nodes
    ensures s.node[n].summary[k] == Times(Faces(g, s.node, s.override, n), k)
  {
    forall m | m in g.nodes ensures Counted(g, s.node, s.override, m, k) {
      QuietTallies(g, s, m);
      KidSumEntries(g, s.node, m, k, |g.children[m]|);
      assert KidSums(g, s.node, m)[..|g.children[m]|] == KidSums(g, s.node, m);
    }
    FacesCount(g, s.node, s.override, n, k);
  }

  ghost function KidEntries(g: Net, node: map<Id, Node>, n: Id, k: Status, j: nat): nat
    requires n in g.nodes && node.Keys == g.nodes && j <= |g.children[n]|
  {
    if j == 0 then 0
    else
      ChildBelow(g, n, j - 1);
      KidEntries(g, node, n, k, j - 1) + node[g.children[n][j - 1]].summary[k]
  }

  ghost predicate Counted(g: Net, node: map<Id, Node>, ov: set<Id>, n: Id, k: Status)
    requires n in g.nodes && node.Keys == g.nodes
  {
    node[n].summary[k] ==
      if g.children[n] == [] || g.conf[n].countstop then (if k == node[n].ov then 1 else 0)
      else if n in ov then (if k == 6 then |g.children[n]| else 0)
      else KidEntries(g, node, n, k, |g.children[n]|)
  }

  lemma {:induction false} KidSumEntries(g: Dag, node: map<Id, Node>, n: Id, k: Status, j: nat)
    requires n in g.nodes && node.Keys == g.nodes && j <= |g.children[n]|
    ensures Entries(KidSums(g, node, n)[..j], k) == KidEntries(g, node, n, k, j)
  {
    if j > 0 {
      KidSumEntries(g, node, n, k, j - 1);
      LastEntry(KidSums(g, node, n), j, k);
    }
  }

  lemma LastEntry(cs: seq<Counts>, j: nat, k: Status)
    requires 0 < j <= |cs|
    ensures Entries(cs[..j], k) == Entries(cs[..j - 1], k) + cs[j - 1][k]
  {
    assert cs[..j][..j - 1] == cs[..j - 1];
  }

  lemma {:induction false} FacesCount(g: Net, node: map<Id, Node>, ov: set<Id>, n: Id, k: Status)
    requires n in g.nodes && node.Keys == g.nodes && forall m :: m in g.nodes ==> Counted(g, node, ov, m, k)
    ensures node[n].summary[k] == Times(Faces(g, node, ov, n), k)
    decreases g.rank[n], 1, 0
  {
    assert Counted(g, node, ov, n, k);
    if g.children[n] == [] || g.conf[n].countstop {
      OneFace(node[n].ov, k);
    } else if n in ov {
      AllOverridden(Faces(g, node, ov, n), k);
    } else {
      KidFacesCount(g, node, ov, n, k, |g.children[n]|);
    }
  }

  lemma OneFace(x: Status, k: Status)
    ensures Times([x], k) == if x == k then 1 else 0
  {
    assert [x][..0] == [];
  }

  lemma {:induction false} KidFacesCount(g: Net, node: map<Id, Node>, ov: set<Id>, n: Id, k: Status, j: nat)
    requires n in g.nodes && node.Keys == g.nodes && forall m :: m in g.nodes ==> Counted(g, node, ov, m, k)
    requires j <= |g.children[n]|
    ensures KidEntries(g, node, n, k, j) == Times(KidFaces(g, node, ov, n, j), k)
    decreases g.rank[n], 0, j
  {
    if j > 0 {
      ChildBelow(g, n, j - 1);
      KidFacesCount(g, node, ov, n, k, j - 1);
      FacesCount(g, node, ov, g.children[n][j - 1], k);
      TimesConcat(KidFaces(g, node, ov, n, j - 1), Faces(g, node, ov, g.children[n][j - 1]), k);
    }
  }

  // ---- how much the counts add up to ----

  function Size(c: Counts): nat {
    c[0] + c[1] + c[2] + c[3] + c[4] + c[5] + c[6] + c[7]
  }

  /** The number of elements an element stands for in the counts. */
  ghost function Weight(g: Dag, ov: set<Id>, n: Id): nat
    requires n in g.nodes
    decreases g.rank[n], 1, 0
  {
    if CountsOnce(g.conf[n].countstop, |g.children[n]|) then 1
    else if n in ov then |g.children[n]|
    else WeightKids(g, ov, n, |g.children[n]|)
  }

  ghost function WeightKids(g: Dag, ov: set<Id>, n: Id, k: nat): nat
    requires n in g.nodes && k <= |g.children[n]|
    decreases g.rank[n], 0, k
  {
    if k == 0 then 0
    else
      ChildBelow(g, n, k - 1);
      WeightKids(g, ov, n, k - 1) + Weight(g, ov, g.children[n][k - 1])
  }

  /** No element is lost or counted twice on the way up. */
  lemma {:induction false} SummaryTotal(g: Dag, w: World, n: Id)
    requires n in g.nodes && Covered(g, w)
    ensures Size(IdealSummary(g, w, n)) == Weight(g, w.override, n)
    decreases g.rank[n], 1, 0
  {
    var sums := IdealSums(g, w, n);
    SumTotal(g, w, n, |g.children[n]|, sums);
    assert sums[..|g.children[n]|] == sums;
  }

  lemma {:induction false} SumTotal(g: Dag, w: World, n: Id, k: nat, sums: seq<Counts>)
    requires n in g.nodes && Covered(g, w) && k <= |g.children[n]| && sums == IdealSums(g, w, n)
    ensures Size(Sum(sums[..k])) == WeightKids(g, w.override, n, k)
    decreases g.rank[n], 0, k
  {
    if k > 0 {
      SumTotal(g, w, n, k - 1, sums);
      ChildBelow(g, n, k - 1);
      SummaryTotal(g, w, g.children[n][k - 1]);
      LastSum(sums, k);
    }
  }

  lemma LastSum(cs: seq<Counts>, k: nat)
    requires 0 < k <= |cs|
    ensures Size(Sum(cs[..k])) == Size(Sum(cs[..k - 1])) + Size(cs[k - 1])
  {
    assert cs[..k][..k - 1] == cs[..k - 1];
  }

  /** The same, for what is stored once nothing is pending. */
  lemma QuietTotal(g: Dag, s: State, n: Id)
    requires Inv(g, s) && Quiescent(s) && n in g.nodes
    ensures Size(s.node[n].summary) == Weight(g, s.override, n)
  {
    WorldCovered(g, s);
    QuietIsIdeal(g, s, n);
    SummaryTotal(g, WorldOf(g, s), n);
  }
}
