/** Configuration ends with a pass that settles every element, children first. */
module Startup {
  import opened Aggregate
  import opened Monel
  import opened MonitorGraph
  import opened Propagation
  import opened UpToDate
  import opened Quiescence

  /** What an element becomes when it is settled on its children as they are. */
  function Configured(g: Dag, node: map<Id, Node>, ov: set<Id>, n: Id): Node
    requires n in g.nodes && node.Keys == g.nodes
  {
    var own, c, kids := node[n].status, g.conf[n], Kids(g, node, n);
    var shown := ShownStatus(own, n in ov, c.gravity, kids);
    Node(RealStatus(own, c.gravity, kids), shown,
         SummaryOf(c.countstop, n in ov, |g.children[n]|, shown, KidSums(g, node, n)))
  }

  /** The order of the pass: the children's subtrees one after the other, then the element itself. */
  function PostOrder(g: Dag, n: Id): (order: seq<Id>)
    requires n in g.nodes
    ensures InGraph(g, order)
    decreases g.rank[n], 1, 0
  {
    PostKids(g, n, |g.children[n]|) + [n]
  }

  function PostKids(g: Dag, n: Id, k: nat): (order: seq<Id>)
    requires n in g.nodes && k <= |g.children[n]|
    ensures InGraph(g, order)
    decreases g.rank[n], 0, k
  {
    if k == 0 then []
    else
      ChildBelow(g, n, k - 1);
      PostKids(g, n, k - 1) + PostOrder(g, g.children[n][k - 1])
  }

  ghost predicate InGraph(g: Dag, order: seq<Id>) {
    forall i :: 0 <= i < |order| ==> order[i] in g.nodes
  }

  function SettleAll(g: Dag, node: map<Id, Node>, ov: set<Id>, order: seq<Id>): (node': map<Id, Node>)
    requires InGraph(g, order) && node.Keys == g.nodes
    ensures node'.Keys == g.nodes
  {
    if order == [] then node
    else
      var k := |order| - 1;
      var node' := SettleAll(g, node, ov, order[..k]);
      node'[order[k] := Configured(g, node', ov, order[k])]
  }

  /** Settle `n` and everything below it. */
  function DoneConfig(g: Dag, node: map<Id, Node>, ov: set<Id>, n: Id): (node': map<Id, Node>)
    requires n in g.nodes && node.Keys == g.nodes
    ensures node'.Keys == g.nodes
  {
    SettleAll(g, node, ov, PostOrder(g, n))
  }

  /** Whenever an element's turn comes, its children have had theirs. */
  ghost predicate ChildFirst(g: Dag, order: seq<Id>) {
    forall i, c :: 0 <= i < |order| && order[i] in g.nodes && c in g.children[order[i]] ==> c in order[..i]
  }

  lemma ChildFirstConcat(g: Dag, xs: seq<Id>, ys: seq<Id>)
    requires ChildFirst(g, xs) && ChildFirst(g, ys)
    ensures ChildFirst(g, xs + ys)
  {
    var zs := xs + ys;
    forall i, c | 0 <= i < |zs| && zs[i] in g.nodes && c in g.children[zs[i]] ensures c in zs[..i] {
      if i < |xs| {
        assert zs[..i] == xs[..i];
      } else {
        assert c in ys[..i - |xs|];
        assert zs[..i] == xs + ys[..i - |xs|];
      }
    }
  }

  lemma {:induction false} PostOrderChildFirst(g: Dag, n: Id)
    requires n in g.nodes
    ensures ChildFirst(g, PostOrder(g, n)) && n in PostOrder(g, n)
    decreases g.rank[n], 1, 0
  {
    var kids := PostKids(g, n, |g.children[n]|);
    PostKidsChildFirst(g, n, |g.children[n]|);
    var order := kids + [n];
    forall i, c | 0 <= i < |order| && order[i] in g.nodes && c in g.children[order[i]] ensures c in order[..i] {
      if i < |kids| {
        assert order[..i] == kids[..i];
      } else {
        assert order[..i] == kids;
      }
    }
    assert order[|kids|] == n;
  }

  lemma {:induction false} PostKidsChildFirst(g: Dag, n: Id, k: nat)
    requires n in g.nodes && k <= |g.children[n]|
    ensures ChildFirst(g, PostKids(g, n, k))
    ensures forall i :: 0 <= i < k ==> g.children[n][i] in PostKids(g, n, k)
    decreases g.rank[n], 0, k
  {
    if k > 0 {
      ChildBelow(g, n, k - 1);
      PostKidsChildFirst(g, n, k - 1);
      PostOrderChildFirst(g, g.children[n][k - 1]);
      ChildFirstConcat(g, PostKids(g, n, k - 1), PostOrder(g, g.children[n][k - 1]));
    }
  }

  /** `n` and everything below it is settled. */
  ghost predicate Done(g: Dag, node: map<Id, Node>, ov: set<Id>, n: Id)
    requires n in g.nodes && node.Keys == g.nodes
    decreases g.rank[n]
  {
    && node[n] == Configured(g, node, ov, n)
    && forall i :: 0 <= i < |g.children[n]| ==>
      (ChildBelow(g, n, i); Done(g, node, ov, g.children[n][i]))
  }

  lemma SameKids(g: Dag, node: map<Id, Node>, n: Id, v: Node, x: Id)
    requires n in g.nodes && x in g.nodes && node.Keys == g.nodes && n !in g.children[x]
    ensures Kids(g, node[n := v], x) == Kids(g, node, x)
    ensures KidSums(g, node[n := v], x) == KidSums(g, node, x)
  {
    forall i | 0 <= i < |g.children[x]| ensures g.children[x][i] != n {
      assert g.children[x][i] in g.children[x];
    }
  }

  /** Settling `n` keeps settled what was. */
  lemma {:induction false} KeepsDone(g: Dag, node: map<Id, Node>, ov: set<Id>, n: Id, x: Id, node': map<Id, Node>)
    requires n in g.nodes && x in g.nodes && node.Keys == g.nodes
    requires Done(g, node, ov, x) && node' == node[n := Configured(g, node, ov, n)]
    ensures Done(g, node', ov, x)
    decreases g.rank[x], 1
  {
    if node' != node {
      KidsStayDone(g, node, ov, n, x, node');
      NotAmongDone(g, node, ov, n, x);
      OneKeepsDone(g, node, ov, n, node'[n], x);
    }
  }

  lemma DoneItself(g: Dag, node: map<Id, Node>, ov: set<Id>, x: Id, i: nat)
    requires x in g.nodes && node.Keys == g.nodes && Done(g, node, ov, x) && i < |g.children[x]|
    ensures g.children[x][i] in g.nodes && node[g.children[x][i]] == Configured(g, node, ov, g.children[x][i])
  {
    ChildBelow(g, x, i);
    assert Done(g, node, ov, g.children[x][i]);
  }

  /** What is not settled is neither a settled element nor a child of one. */
  lemma NotAmongDone(g: Dag, node: map<Id, Node>, ov: set<Id>, n: Id, x: Id)
    requires n in g.nodes && x in g.nodes && node.Keys == g.nodes
    requires Done(g, node, ov, x) && node[n] != Configured(g, node, ov, n)
    ensures x != n && n !in g.children[x]
  {
    forall i | 0 <= i < |g.children[x]| ensures g.children[x][i] != n {
      DoneItself(g, node, ov, x, i);
    }
  }

  lemma OneKeepsDone(g: Dag, node: map<Id, Node>, ov: set<Id>, n: Id, v: Node, x: Id)
    requires n in g.nodes && x in g.nodes && node.Keys == g.nodes && n !in g.children[x] && x != n
    requires node[x] == Configured(g, node, ov, x) && KidsDone(g, node[n := v], ov, x)
    ensures Done(g, node[n := v], ov, x)
  {
    SameKids(g, node, n, v, x);
  }

  ghost predicate KidsDone(g: Dag, node: map<Id, Node>, ov: set<Id>, n: Id)
    requires n in g.nodes && node.Keys == g.nodes
  {
    forall i :: 0 <= i < |g.children[n]| ==> (ChildBelow(g, n, i); Done(g, node, ov, g.children[n][i]))
  }

  lemma {:induction false} KidsStayDone(g: Dag, node: map<Id, Node>, ov: set<Id>, n: Id, x: Id, node': map<Id, Node>)
    requires n in g.nodes && x in g.nodes && node.Keys == g.nodes && KidsDone(g, node, ov, x)
    requires node' == node[n := Configured(g, node, ov, n)]
    ensures KidsDone(g, node', ov, x)
    decreases g.rank[x], 0
  {
    forall i | 0 <= i < |g.children[x]| ensures g.children[x][i] in g.nodes && Done(g, node', ov, g.children[x][i]) {
      ChildBelow(g, x, i);
      KeepsDone(g, node, ov, n, g.children[x][i], node');
    }
  }

  /** Settling `n` after its children settles it. */
  lemma SettlesDone(g: Dag, node: map<Id, Node>, ov: set<Id>, n: Id)
    requires n in g.nodes && node.Keys == g.nodes && KidsDone(g, node, ov, n)
    ensures Done(g, node[n := Configured(g, node, ov, n)], ov, n)
  {
    KidsStayDone(g, node, ov, n, n, node[n := Configured(g, node, ov, n)]);
    assert n !in g.children[n];
    SameKids(g, node, n, Configured(g, node, ov, n), n);
    Reconfigured(g, node, ov, n);
  }

  /** Settling twice is settling once. */
  lemma Reconfigured(g: Dag, node: map<Id, Node>, ov: set<Id>, n: Id)
    requires n in g.nodes && node.Keys == g.nodes
    requires Kids(g, node[n := Configured(g, node, ov, n)], n) == Kids(g, node, n)
    requires KidSums(g, node[n := Configured(g, node, ov, n)], n) == KidSums(g, node, n)
    ensures Configured(g, node[n := Configured(g, node, ov, n)], ov, n) == Configured(g, node, ov, n)
  {
  }

  lemma ChildFirstPrefix(g: Dag, order: seq<Id>, k: nat)
    requires ChildFirst(g, order) && k <= |order|
    ensures ChildFirst(g, order[..k])
  {
    forall i | 0 <= i < k ensures order[..k][..i] == order[..i] {
    }
  }

  /** After a pass that takes children first, everything it visited is settled. */
  lemma {:induction false} SettleAllDone(g: Dag, node: map<Id, Node>, ov: set<Id>, order: seq<Id>, x: Id)
    requires InGraph(g, order) && node.Keys == g.nodes && ChildFirst(g, order) && x in order
    ensures Done(g, SettleAll(g, node, ov, order), ov, x)
    decreases |order|, 1
  {
    var k := |order| - 1;
    var mid := SettleAll(g, node, ov, order[..k]);
    if x == order[k] {
      LastKidsDone(g, node, ov, order);
      SettlesDone(g, mid, ov, x);
    } else {
      ChildFirstPrefix(g, order, k);
      SettleAllDone(g, node, ov, order[..k], x);
      KeepsDone(g, mid, ov, order[k], x, SettleAll(g, node, ov, order));
    }
  }

  lemma {:induction false} LastKidsDone(g: Dag, node: map<Id, Node>, ov: set<Id>, order: seq<Id>)
    requires InGraph(g, order) && node.Keys == g.nodes && ChildFirst(g, order) && order != []
    ensures KidsDone(g, SettleAll(g, node, ov, order[..|order| - 1]), ov, order[|order| - 1])
    decreases |order|, 0
  {
    var k := |order| - 1;
    var n := order[k];
    ChildFirstPrefix(g, order, k);
    forall i | 0 <= i < |g.children[n]|
      ensures g.children[n][i] in g.nodes
           && Done(g, SettleAll(g, node, ov, order[..k]), ov, g.children[n][i])
    {
      assert g.children[n][i] in g.children[n];
      SettleAllDone(g, node, ov, order[..k], g.children[n][i]);
    }
  }

  lemma {:induction false} DoneBelow(g: Dag, node: map<Id, Node>, ov: set<Id>, top: Id, n: Id)
    requires top in g.nodes && n in g.nodes && node.Keys == g.nodes
    requires Done(g, node, ov, top) && Below(g, top, n)
    ensures Done(g, node, ov, n)
    decreases g.height - g.rank[n]
  {
    if n != top {
      var p :| p in g.parents[n] && p in g.nodes && n in g.children[p] && Below(g, top, p);
      DoneBelow(g, node, ov, top, p);
      var i :| 0 <= i < |g.children[p]| && g.children[p][i] == n;
    }
  }

  ghost predicate LeavesInRange(g: Dag, node: map<Id, Node>)
    requires node.Keys == g.nodes
  {
    forall n :: n in g.nodes && Leaf(g, n) ==> node[n].status <= CRITICAL
  }

  lemma {:induction false} DoneInRange(g: Dag, node: map<Id, Node>, ov: set<Id>, n: Id)
    requires n in g.nodes && node.Keys == g.nodes && Done(g, node, ov, n) && LeavesInRange(g, node)
    ensures InRange(Look(node[n]))
    decreases g.rank[n]
  {
    var kids := Kids(g, node, n);
    forall i | 0 <= i < |kids| ensures InRange(kids[i]) {
      ChildBelow(g, n, i);
      DoneInRange(g, node, ov, g.children[n][i]);
    }
    var own := if Leaf(g, n) then node[n].status else UNKNOWN;
    RecomputedInRange(own, n in ov, g.conf[n].gravity, kids);
  }

  /** The pass leaves the services' own statuses alone. */
  lemma {:induction false} SettleKeepsLeaves(g: Dag, node: map<Id, Node>, ov: set<Id>, order: seq<Id>, x: Id)
    requires InGraph(g, order) && x in g.nodes && node.Keys == g.nodes && Leaf(g, x)
    ensures SettleAll(g, node, ov, order)[x].status == node[x].status
  {
    if order != [] {
      var k := |order| - 1;
      SettleKeepsLeaves(g, node, ov, order[..k], x);
      assert Kids(g, SettleAll(g, node, ov, order[..k]), x) == [];
    }
  }

  /** Where updates start from: whatever was restored, once everything below the top has been settled. */
  ghost function Started(g: Dag, node: map<Id, Node>, ov: set<Id>, top: Id): State
    requires top in g.nodes && node.Keys == g.nodes
  {
    State(DoneConfig(g, node, ov, top), ov, [], [])
  }

  /** The start is quiet and everything is up to date; so by RunKeeps it stays up to date or due. */
  lemma StartsUpToDate(g: Dag, node: map<Id, Node>, ov: set<Id>, top: Id)
    requires top in g.nodes && node.Keys == g.nodes && LeavesInRange(g, node)
    requires forall n :: n in g.nodes ==> Below(g, top, n)
    ensures Inv(g, Started(g, node, ov, top)) && Quiescent(Started(g, node, ov, top))
    ensures forall n :: n in g.nodes ==> Done(g, Started(g, node, ov, top).node, ov, n)
    ensures forall n :: n in g.nodes && Leaf(g, n) ==> Started(g, node, ov, top).node[n].status == node[n].status
  {
    var s := Started(g, node, ov, top);
    PostOrderChildFirst(g, top);
    SettleAllDone(g, node, ov, PostOrder(g, top), top);
    forall n | n in g.nodes ensures Done(g, s.node, ov, n) {
      DoneBelow(g, s.node, ov, top, n);
    }
    forall n | n in g.nodes && Leaf(g, n) ensures s.node[n].status == node[n].status {
      SettleKeepsLeaves(g, node, ov, PostOrder(g, top), n);
    }
    SettledInv(g, s);
  }

  lemma SettledInv(g: Dag, s: State)
    requires s.node.Keys == g.nodes && Quiescent(s) && LeavesInRange(g, s.node)
    requires forall n :: n in g.nodes ==> Done(g, s.node, s.override, n)
    ensures Inv(g, s)
  {
    forall n | n in g.nodes ensures InRange(Look(s.node[n])) {
      DoneInRange(g, s.node, s.override, n);
    }
    forall n | n in g.nodes ensures NodeOk(g, s, n) && LeafOk(g, s, n) {
      DoneFresh(g, s, n);
    }
  }

  lemma DoneFresh(g: Dag, s: State, n: Id)
    requires Shape(g, s) && n in g.nodes && Done(g, s.node, s.override, n)
    ensures NodeOk(g, s, n) && LeafOk(g, s, n)
  {
    var nd, c, kids := s.node[n], g.conf[n], Kids(g, s.node, n);
    if kids == [] {
      LeafFresh(g, s.node, s.override, n);
    }
  }
}
