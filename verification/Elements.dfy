/** The monitor objects take the steps of the state machine. */
module Elements {
  import opened Aggregate
  import opened Monel
  import opened MonitorGraph
  import opened Propagation

  type Objects = map<Id, M>

  ghost predicate Have(obj: Objects, xs: seq<Id>) {
    forall i :: 0 <= i < |xs| ==> xs[i] in obj
  }

  ghost function ObjectsOf(obj: Objects, xs: seq<Id>): (ms: seq<M>)
    requires Have(obj, xs)
    ensures |ms| == |xs| && forall i :: 0 <= i < |ms| ==> ms[i] == obj[xs[i]]
  {
    seq(|xs|, i requires 0 <= i < |xs| => obj[xs[i]])
  }

  /** One object for each element. */
  ghost predicate Whole(g: Dag, obj: Objects) {
    && obj.Keys == g.nodes
    && (forall m, n :: m in g.nodes && n in g.nodes && obj[m] == obj[n] ==> m == n)
  }

  /** The fields of an object. */
  datatype Fields = Fields(children: seq<M>, parents: seq<M>, status: Status, ov: Status, override: bool, summary: Counts)

  ghost function FieldsOf(m: M): Fields
    reads m
  {
    Fields(m.children, m.parents, m.status, m.ovStatus, m.override, m.summary)
  }

  ghost function AllFields(g: Dag, obj: Objects): (fs: map<Id, Fields>)
    requires Whole(g, obj)
    reads obj.Values
    ensures fs.Keys == g.nodes
  {
    map n | n in g.nodes :: FieldsOf(obj[n])
  }

  /** `m` is configured and placed as `n` in the graph, and its fields read what the state has for `n`. */
  ghost predicate Mirrored(g: Dag, node: map<Id, Node>, ov: set<Id>, obj: Objects, n: Id, f: Fields)
    requires Whole(g, obj) && n in g.nodes && node.Keys == g.nodes
  {
    && |obj[n].siren| == 6 && obj[n].gravity == g.conf[n].gravity && obj[n].countstop == g.conf[n].countstop
    && Have(obj, g.children[n]) && f.children == ObjectsOf(obj, g.children[n])
    && Have(obj, g.parents[n]) && f.parents == ObjectsOf(obj, g.parents[n])
    && f.status == node[n].status && f.ov == node[n].ov && f.summary == node[n].summary && f.override == (n in ov)
  }

  ghost predicate Mirrors(g: Dag, node: map<Id, Node>, ov: set<Id>, obj: Objects, fs: map<Id, Fields>)
    requires Whole(g, obj) && node.Keys == fs.Keys == g.nodes
  {
    forall n :: n in g.nodes ==> Mirrored(g, node, ov, obj, n, fs[n])
  }

  lemma MirrorsMoved(g: Dag, node: map<Id, Node>, ov: set<Id>, obj: Objects, fs: map<Id, Fields>,
                     n: Id, nd: Node, f: Fields)
    requires Whole(g, obj) && node.Keys == fs.Keys == g.nodes && n in g.nodes && Mirrors(g, node, ov, obj, fs)
    requires f == fs[n].(status := nd.status, ov := nd.ov, summary := nd.summary)
    ensures Mirrors(g, node[n := nd], ov, obj, fs[n := f])
  {
    forall x | x in g.nodes ensures Mirrored(g, node[n := nd], ov, obj, x, fs[n := f][x]) {
      assert Mirrored(g, node, ov, obj, x, fs[x]);
    }
  }

  lemma SameViews(g: Dag, node: map<Id, Node>, ov: set<Id>, obj: Objects, n: Id)
    requires Whole(g, obj) && n in g.nodes && node.Keys == g.nodes && Mirrors(g, node, ov, obj, AllFields(g, obj))
    ensures obj[n].Views() == Kids(g, node, n) && obj[n].Sums() == KidSums(g, node, n)
  {
    assert Mirrored(g, node, ov, obj, n, FieldsOf(obj[n]));
    forall i | 0 <= i < |g.children[n]|
      ensures obj[n].Views()[i] == Kids(g, node, n)[i] && obj[n].Sums()[i] == KidSums(g, node, n)[i]
    {
      var c := g.children[n][i];
      assert Mirrored(g, node, ov, obj, c, FieldsOf(obj[c]));
    }
  }

  /** An object tells the objects of those its element tells. */
  lemma SameUpward(g: Dag, node: map<Id, Node>, ov: set<Id>, obj: Objects, n: Id)
    requires Whole(g, obj) && n in g.nodes && node.Keys == g.nodes && Mirrors(g, node, ov, obj, AllFields(g, obj))
    ensures Have(obj, Targets(g, n)) && obj[n].Upward() == ObjectsOf(obj, Targets(g, n))
  {
    TargetsInside(g, n);
    assert Mirrored(g, node, ov, obj, n, FieldsOf(obj[n]));
    forall i | 0 <= i < |g.parents[n]| ensures obj[n].Upward()[i] == obj[Targets(g, n)[i]] {
      var p := g.parents[n][i];
      assert Mirrored(g, node, ov, obj, p, FieldsOf(obj[p]));
    }
  }

  /** What an object must satisfy for its methods to be called. */
  lemma OwnFields(g: Dag, node: map<Id, Node>, ov: set<Id>, obj: Objects, n: Id)
    requires Whole(g, obj) && n in g.nodes && node.Keys == g.nodes && Mirrors(g, node, ov, obj, AllFields(g, obj))
    ensures obj[n].Valid() && |obj[n].children| == |g.children[n]|
    ensures obj[n].gravity == g.conf[n].gravity && obj[n].countstop == g.conf[n].countstop
    ensures Node(obj[n].status, obj[n].ovStatus, obj[n].summary) == node[n] && obj[n].override == (n in ov)
  {
    assert Mirrored(g, node, ov, obj, n, FieldsOf(obj[n]));
    forall i | 0 <= i < |g.children[n]| ensures g.children[n][i] != n {
      assert g.children[n][i] in g.children[n];
    }
  }

  lemma ReportParts(g: Dag, s: State, n: Id, st: Status) returns (nd: Node, told: seq<Id>)
    requires n in g.nodes && n in s.node
    ensures Reported(g, s, n, st) == s.(node := s.node[n := nd], pending := s.pending + told)
    ensures nd.status == st
    ensures nd.ov == if st == s.node[n].status then s.node[n].ov
                     else ShownStatus(st, n in s.override, g.conf[n].gravity, [])
    ensures nd.summary == if nd.ov == s.node[n].ov then s.node[n].summary
                          else SummaryOf(g.conf[n].countstop, n in s.override, 0, nd.ov, [])
    ensures told == if nd.ov == s.node[n].ov then [] else Targets(g, n)
  {
    nd := Reported(g, s, n, st).node[n];
    told := if nd.ov == s.node[n].ov then [] else Targets(g, n);
    assert s.node[n := s.node[n]] == s.node && s.pending + [] == s.pending;
  }

  /** The objects stand as the state says. */
  ghost predicate Stand(g: Dag, s: State, obj: Objects)
    reads obj.Values
  {
    Shape(g, s) && Whole(g, obj) && Mirrors(g, s.node, s.override, obj, AllFields(g, obj))
  }

  /** What the object of `n` will read, and whom it will tell. */
  lemma Outlook(g: Dag, s: State, obj: Objects, n: Id, m: M)
    returns (fs: map<Id, Fields>, kids: seq<View>, sums: seq<Counts>, upup: seq<M>)
    requires Stand(g, s, obj) == true && n in g.nodes && n in obj && m == obj[n]
    ensures m.Valid() && |m.children| == |g.children[n]| && m.gravity == g.conf[n].gravity
    ensures m.countstop == g.conf[n].countstop && m.override == (n in s.override)
    ensures n in s.node && m.status == s.node[n].status && m.ovStatus == s.node[n].ov
    ensures m.summary == s.node[n].summary
    ensures m.Views() == kids == Kids(g, s.node, n) && m.Sums() == sums == KidSums(g, s.node, n)
    ensures Have(obj, Targets(g, n)) && m.Upward() == upup == ObjectsOf(obj, Targets(g, n))
    ensures fs == AllFields(g, obj) && Mirrors(g, s.node, s.override, obj, fs) == true
  {
    OwnFields(g, s.node, s.override, obj, n);
    SameViews(g, s.node, s.override, obj, n);
    SameUpward(g, s.node, s.override, obj, n);
    fs, kids, sums, upup := AllFields(g, obj), m.Views(), m.Sums(), m.Upward();
  }

  lemma FieldsMoved(g: Dag, obj: Objects, fs: map<Id, Fields>, n: Id, m: M)
    requires Whole(g, obj) && fs.Keys == g.nodes && n in g.nodes && obj[n] == m
    requires forall x :: x in g.nodes && x != n ==> FieldsOf(obj[x]) == fs[x]
    ensures AllFields(g, obj) == fs[n := FieldsOf(m)]
  {
  }

  /** The objects stand as the next state says once one of them has moved there. */
  lemma Landed(g: Dag, node: map<Id, Node>, ov: set<Id>, obj: Objects, fs: map<Id, Fields>, n: Id, m: M, nd: Node)
    requires Whole(g, obj) && node.Keys == fs.Keys == g.nodes && Mirrors(g, node, ov, obj, fs) == true
    requires n in g.nodes && obj[n] == m
    requires forall x :: x in g.nodes && x != n ==> FieldsOf(obj[x]) == fs[x]
    requires FieldsOf(m) == fs[n].(status := nd.status, ov := nd.ov, summary := nd.summary)
    ensures Mirrors(g, node[n := nd], ov, obj, AllFields(g, obj)) == true
  {
    MirrorsMoved(g, node, ov, obj, fs, n, nd, FieldsOf(m));
    FieldsMoved(g, obj, fs, n, m);
  }

  /** An update of an object is, in the state machine, an update that reads all children at once. */
  method Recompute(ghost g: Dag, ghost s: State, ghost obj: Objects, ghost n: Id, m: M)
    returns (upup: seq<M>, ghost nd: Node)
    requires Stand(g, s, obj) == true && n in g.nodes && n in obj && m == obj[n]
    modifies m`status, m`ovStatus, m`summary, m`alarm
    ensures n in s.node && nd == Recomputed(g, s, Job(n, Kids(g, s.node, n), KidSums(g, s.node, n)))
    ensures Mirrors(g, s.node[n := nd], s.override, obj, AllFields(g, obj)) == true
    ensures Have(obj, Targets(g, n)) && upup == ObjectsOf(obj, Targets(g, n))
  {
    ghost var fs, kids, sums, ups := Outlook(g, s, obj, n, m);
    nd := Recomputed(g, s, Job(n, kids, sums));
    upup := m.ReUpdate();
    Landed(g, s.node, s.override, obj, fs, n, m, nd);
  }

  /** A report to the object of a service is a report in the state machine. */
  method Report(ghost g: Dag, ghost s: State, ghost obj: Objects, ghost n: Id, m: M, st: Status)
    returns (upup: seq<M>, ghost nd: Node, ghost told: seq<Id>)
    requires Stand(g, s, obj) == true && n in g.nodes && n in obj && m == obj[n] && Leaf(g, n)
    modifies m`status, m`ovStatus, m`summary, m`alarm
    ensures n in s.node && Reported(g, s, n, st) == s.(node := s.node[n := nd], pending := s.pending + told)
    ensures Mirrors(g, s.node[n := nd], s.override, obj, AllFields(g, obj)) == true
    ensures Have(obj, told) && upup == ObjectsOf(obj, told)
  {
    ghost var fs, kids, sums, ups := Outlook(g, s, obj, n, m);
    nd, told := ReportParts(g, s, n, st);
    upup := m.Update(st);
    Landed(g, s.node, s.override, obj, fs, n, m, nd);
  }
}
