/** Whole runs, reports and overrides and updates in any order: once nothing is pending, the last word counts. */
module Outcome {
  import opened Aggregate
  import opened Monel
  import opened MonitorGraph
  import opened Propagation
  import opened UpToDate
  import opened Quiescence
  import opened Termination

  /** What an event says about what the outside sets. */
  ghost function Said(w: World, e: Event): World {
    match e
    case Update(n, st) => w.(reported := w.reported[n := st])
    case SetOverride(n) => w.(override := w.override + {n})
    case DelOverride(n) => w.(override := w.override - {n})
    case _ => w
  }

  ghost function Heard(w: World, es: seq<Event>): World
    decreases |es|
  {
    if es == [] then w else Heard(Said(w, es[0]), es[1..])
  }

  /** A service's status is what it reported last. */
  lemma {:induction false} LastReport(w: World, es: seq<Event>, k: nat, n: Id)
    requires k < |es| && es[k].Update? && es[k].n == n
    requires forall j :: k < j < |es| ==> !(es[j].Update? && es[j].n == n)
    ensures n in Heard(w, es).reported && Heard(w, es).reported[n] == es[k].status
    decreases |es|
  {
    if k == 0 {
      NoReport(Said(w, es[0]), es[1..], n);
    } else {
      LastReport(Said(w, es[0]), es[1..], k - 1, n);
    }
  }

  /** One that has reported nothing has the status it had. */
  lemma {:induction false} NoReport(w: World, es: seq<Event>, n: Id)
    requires n in w.reported && forall j :: 0 <= j < |es| ==> !(es[j].Update? && es[j].n == n)
    ensures n in Heard(w, es).reported && Heard(w, es).reported[n] == w.reported[n]
    decreases |es|
  {
    if es != [] {
      NoReport(Said(w, es[0]), es[1..], n);
    }
  }

  predicate Overrides(e: Event, n: Id) {
    (e.SetOverride? || e.DelOverride?) && e.n == n
  }

  /** An override is in place exactly if it was set since it was last removed. */
  lemma {:induction false} LastOverride(w: World, es: seq<Event>, k: nat, n: Id)
    requires k < |es| && Overrides(es[k], n)
    requires forall j :: k < j < |es| ==> !Overrides(es[j], n)
    ensures n in Heard(w, es).override <==> es[k].SetOverride?
    decreases |es|
  {
    if k == 0 {
      NoOverride(Said(w, es[0]), es[1..], n);
    } else {
      LastOverride(Said(w, es[0]), es[1..], k - 1, n);
    }
  }

  lemma {:induction false} NoOverride(w: World, es: seq<Event>, n: Id)
    requires forall j :: 0 <= j < |es| ==> !Overrides(es[j], n)
    ensures n in Heard(w, es).override <==> n in w.override
    decreases |es|
  {
    if es != [] {
      NoOverride(Said(w, es[0]), es[1..], n);
    }
  }

  lemma SaysOne(g: Dag, s: State, e: Event)
    requires Inv(g, s) && Enabled(g, s, e) && Inv(g, Next(g, s, e))
    ensures WorldOf(g, Next(g, s, e)) == Said(WorldOf(g, s), e)
  {
    if Internal(e) {
      StepWorld(g, s, e);
    } else if e.Update? {
      ReportSays(g, s, e.n, e.status);
    }
  }

  lemma ReportSays(g: Dag, s: State, n: Id, st: Status)
    requires Inv(g, s) && Enabled(g, s, Update(n, st)) && Shape(g, Next(g, s, Update(n, st)))
    ensures WorldOf(g, Next(g, s, Update(n, st))) == Said(WorldOf(g, s), Update(n, st))
  {
    var t := Reported(g, s, n, st);
    ReportedStatus(g, s, n, st, t);
    OnlyOne(g, s, t, n, st);
  }

  lemma ReportedStatus(g: Net, s: State, n: Id, st: Status, t: State)
    requires n in g.nodes && n in s.node && t == Reported(g, s, n, st)
    ensures t.override == s.override && t.node.Keys == s.node.Keys
    ensures forall m :: m in s.node ==> t.node[m].status == if m == n then st else s.node[m].status
  {
  }

  lemma OnlyOne(g: Dag, s: State, t: State, n: Id, st: Status)
    requires Shape(g, s) && Shape(g, t) && n in g.nodes && Leaf(g, n) && t.override == s.override
    requires forall m :: m in s.node ==> t.node[m].status == if m == n then st else s.node[m].status
    ensures WorldOf(g, t) == Said(WorldOf(g, s), Update(n, st))
  {
    var a, b := WorldOf(g, t).reported, WorldOf(g, s).reported[n := st];
    assert a.Keys == b.Keys;
    assert a == b;
  }

  /** Updates travelling through the tree change nothing that the outside has set. */
  lemma {:induction false} RunSays(g: Dag, s: State, es: seq<Event>, t: State)
    requires Inv(g, s) && Run(g, s, es, t)
    ensures Inv(g, t) && WorldOf(g, t) == Heard(WorldOf(g, s), es)
    decreases |es|
  {
    if es != [] {
      StepKeeps(g, s, es[0]);
      SaysOne(g, s, es[0]);
      RunSays(g, Next(g, s, es[0]), es[1..], t);
    }
  }

  /**
   * Over every run, however reports, overrides and updates overtake each other: once nothing is pending or running,
   * every element shows what the last reports and the overrides in place dictate, and nothing else matters.
   */
  lemma LastWordCounts(g: Dag, s: State, es: seq<Event>, t: State, n: Id, w: World)
    requires Inv(g, s) && Run(g, s, es, t) && Quiescent(t) && n in g.nodes && w == Heard(WorldOf(g, s), es)
    ensures Shape(g, t) && Covered(g, w)
    ensures t.node[n].ov == Ideal(g, w, n).ov && t.node[n].summary == IdealSummary(g, w, n)
    ensures ClassOf(t.node[n].status) == ClassOf(Ideal(g, w, n).status)
  {
    RunSays(g, s, es, t);
    QuietIsOf(g, t, n, w);
  }

  lemma QuietIsOf(g: Dag, t: State, n: Id, w: World)
    requires Inv(g, t) && Quiescent(t) && n in g.nodes && w == WorldOf(g, t)
    ensures Covered(g, w)
    ensures t.node[n].ov == Ideal(g, w, n).ov && t.node[n].summary == IdealSummary(g, w, n)
    ensures ClassOf(t.node[n].status) == ClassOf(Ideal(g, w, n).status)
  {
    ReportsCovered(g, t, w);
    QuietIsIdeal(g, t, n);
  }

  lemma ReportsCovered(g: Dag, t: State, w: World)
    requires Shape(g, t) && w == WorldOf(g, t)
    ensures Covered(g, w)
  {
    forall m | m in g.nodes && Leaf(g, m) ensures m in w.reported && w.reported[m] <= CRITICAL {
      assert InRange(Look(t.node[m]));
    }
  }
}
