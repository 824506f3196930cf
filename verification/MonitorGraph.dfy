/** The monitor tree as a graph of parents and children, and sums taken along all upward paths. */
module MonitorGraph {
  import opened Aggregate

  type Id = nat

  datatype Conf = Conf(gravity: Gravity, countstop: bool)

  /** `rank` witnesses that the graph is acyclic: every child ranks below its parents. */
  datatype Graph = Graph(
    nodes: set<Id>,
    conf: map<Id, Conf>,
    children: map<Id, seq<Id>>,
    parents: map<Id, seq<Id>>,
    rank: map<Id, nat>,
    height: nat)

  /** Parents and children mirror each other, and there is no cycle. */
  ghost predicate Wired(g: Graph) {
    && g.nodes <= g.conf.Keys && g.nodes <= g.children.Keys && g.nodes <= g.parents.Keys && g.nodes <= g.rank.Keys
    && (forall n :: n in g.nodes ==> g.rank[n] <= g.height)
    && (forall n, c :: n in g.nodes && c in g.children[n] ==> c in g.nodes && n in g.parents[c] && g.rank[c] < g.rank[n])
    && (forall n, p :: n in g.nodes && p in g.parents[n] ==> p in g.nodes && n in g.children[p])
  }

  type Net = g: Graph | Wired(g) witness Graph({}, map[], map[], map[], map[], 0)

  /** A further parent of `n` has no other child, as an alias would if it were given its aliased element as child. */
  ghost predicate TellsItself(g: Net, n: Id)
    requires n in g.nodes
  {
    exists i :: 0 < i < |g.parents[n]| && |g.children[g.parents[n][i]]| == 1
  }

  ghost predicate NoAliases(g: Net) {
    forall n :: n in g.nodes ==> !TellsItself(g, n)
  }

  type Dag = g: Net | NoAliases(g) witness Graph({}, map[], map[], map[], map[], 0)

  predicate Leaf(g: Net, n: Id)
    requires n in g.nodes
  {
    g.children[n] == []
  }

  /** Who is told after `n` was updated: andUpwards' list. */
  function Targets(g: Net, n: Id): (ts: seq<Id>)
    requires n in g.nodes
    ensures |ts| == |g.parents[n]|
  {
    var ps := g.parents[n];
    seq(|ps|, i requires 0 <= i < |ps| =>
      assert ps[i] in ps;
      if i > 0 && |g.children[ps[i]]| == 1 then g.children[ps[i]][0] else ps[i])
  }

  /** The parents themselves are told exactly when no further parent has an only child ... */
  lemma TargetsAreParents(g: Net, n: Id)
    requires n in g.nodes
    ensures Targets(g, n) == g.parents[n] <==> !TellsItself(g, n)
  {
    var ps := g.parents[n];
    forall i | 0 < i < |ps| && |g.children[ps[i]]| == 1
      ensures Targets(g, n)[i] != ps[i]
    {
      LoneParentTellsItself(g, n, i);
      assert ps[i] in ps;
    }
  }

  /** ... and such a parent is passed over: the element tells itself instead. */
  lemma LoneParentTellsItself(g: Net, n: Id, i: nat)
    requires n in g.nodes && 0 < i < |g.parents[n]| && |g.children[g.parents[n][i]]| == 1
    ensures Targets(g, n)[i] == n != g.parents[n][i]
  {
    var p := g.parents[n][i];
    assert p in g.parents[n];
    assert n in g.children[p];
  }

  lemma TargetsInside(g: Net, n: Id)
    requires n in g.nodes
    ensures forall i :: 0 <= i < |Targets(g, n)| ==> Targets(g, n)[i] in g.nodes
  {
    forall i | 0 <= i < |g.parents[n]| ensures Targets(g, n)[i] in g.nodes {
      assert g.parents[n][i] in g.parents[n] && n in g.children[g.parents[n][i]];
    }
  }

  /** `n` is `top` or one of its descendants. */
  ghost predicate Below(g: Net, top: Id, n: Id)
    requires n in g.nodes
    decreases g.height - g.rank[n]
  {
    n == top || exists p :: p in g.parents[n] && p in g.nodes && n in g.children[p] && Below(g, top, p)
  }

  // ---- sums along upward paths ----

  type Weights = map<Id, nat>

  ghost predicate Covers(g: Graph, w: Weights) {
    g.nodes <= w.Keys
  }

  /** The weights of all elements on all paths from `n` upwards. */
  ghost function Climb(g: Net, w: Weights, n: Id): nat
    requires n in g.nodes && Covers(g, w)
    decreases g.height - g.rank[n], 1, 0
  {
    w[n] + ClimbParents(g, w, n, |g.parents[n]|)
  }

  ghost function ClimbParents(g: Net, w: Weights, n: Id, k: nat): nat
    requires n in g.nodes && Covers(g, w) && k <= |g.parents[n]|
    decreases g.height - g.rank[n], 0, k
  {
    if k == 0 then 0
    else
      var p := g.parents[n][k - 1];
      assert p in g.parents[n] && n in g.children[p];
      ClimbParents(g, w, n, k - 1) + Climb(g, w, p)
  }

  /** The climb of every element. */
  ghost function Climbs(g: Net, w: Weights): (f: Weights)
    requires Covers(g, w)
    ensures f.Keys == g.nodes
  {
    map n | n in g.nodes :: Climb(g, w, n)
  }

  ghost predicate Within(xs: seq<Id>, f: Weights) {
    forall i :: 0 <= i < |xs| ==> xs[i] in f
  }

  ghost function Total(f: Weights, xs: seq<Id>): nat
    requires Within(xs, f)
  {
    if xs == [] then 0
    else
      assert Within(xs[..|xs| - 1], f);
      Total(f, xs[..|xs| - 1]) + f[xs[|xs| - 1]]
  }

  lemma ParentsWithin(g: Net, n: Id, k: nat)
    requires n in g.nodes && k <= |g.parents[n]|
    ensures forall i :: 0 <= i < k ==> g.parents[n][i] in g.nodes
  {
    forall i | 0 <= i < k ensures g.parents[n][i] in g.nodes {
      assert g.parents[n][i] in g.parents[n];
    }
  }

  lemma {:induction false} ClimbIsTotal(g: Net, w: Weights, n: Id, k: nat)
    requires n in g.nodes && Covers(g, w) && k <= |g.parents[n]|
    ensures Within(g.parents[n][..k], Climbs(g, w))
    ensures ClimbParents(g, w, n, k) == Total(Climbs(g, w), g.parents[n][..k])
  {
    ParentsWithin(g, n, k);
    if k > 0 {
      ClimbIsTotal(g, w, n, k - 1);
      LastOfPrefix(Climbs(g, w), g.parents[n], k);
    }
  }

  lemma LastOfPrefix(f: Weights, ps: seq<Id>, k: nat)
    requires 0 < k <= |ps| && Within(ps[..k], f)
    ensures Within(ps[..k - 1], f)
    ensures Total(f, ps[..k]) == Total(f, ps[..k - 1]) + f[ps[k - 1]]
  {
    assert ps[..k][..k - 1] == ps[..k - 1];
    assert ps[..k][k - 1] == ps[k - 1];
  }

  /** An update's weight is its own plus that of the updates it causes. */
  lemma ClimbUnfolds(g: Net, w: Weights, n: Id)
    requires n in g.nodes && Covers(g, w) && !TellsItself(g, n)
    ensures Within(Targets(g, n), Climbs(g, w))
    ensures Climbs(g, w)[n] == w[n] + Total(Climbs(g, w), Targets(g, n))
  {
    TargetsAreParents(g, n);
    ClimbIsTotal(g, w, n, |g.parents[n]|);
    assert g.parents[n][..|g.parents[n]|] == g.parents[n];
  }

  lemma {:induction false} TotalConcat(f: Weights, xs: seq<Id>, ys: seq<Id>)
    requires Within(xs, f) && Within(ys, f)
    ensures Within(xs + ys, f)
    ensures Total(f, xs + ys) == Total(f, xs) + Total(f, ys)
  {
    if ys == [] {
      assert xs + ys == xs;
    } else {
      assert (xs + ys)[..|xs + ys| - 1] == xs + ys[..|ys| - 1];
      TotalConcat(f, xs, ys[..|ys| - 1]);
    }
  }

  function Without<T>(xs: seq<T>, i: nat): (ys: seq<T>)
    requires i < |xs|
    ensures |ys| == |xs| - 1
  {
    xs[..i] + xs[i + 1..]
  }

  lemma TotalRemove(f: Weights, xs: seq<Id>, i: nat)
    requires i < |xs| && Within(xs, f)
    ensures Within(Without(xs, i), f)
    ensures Total(f, xs) == Total(f, Without(xs, i)) + f[xs[i]]
  {
    assert xs == xs[..i + 1] + xs[i + 1..];
    LastOfPrefix(f, xs, i + 1);
    TotalConcat(f, xs[..i + 1], xs[i + 1..]);
    TotalConcat(f, xs[..i], xs[i + 1..]);
  }
}
