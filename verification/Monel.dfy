/** A monitor element: its status, the status shown to others, and the counts it shows. */
module Monel {
  import opened Aggregate

  /** What a parent sees when it asks a child for its status: the real one and the shown one. */
  datatype View = View(status: Status, ov: Status)

  function Statuses(kids: seq<View>): seq<Status> {
    seq(|kids|, i requires 0 <= i < |kids| => kids[i].status)
  }

  function Shown(kids: seq<View>): seq<Status> {
    seq(|kids|, i requires 0 <= i < |kids| => kids[i].ov)
  }

  /** The real status: an element without children keeps its own. */
  function RealStatus(own: Status, grav: Gravity, kids: seq<View>): Status {
    if kids == [] then own else AggrList(grav, CRITICAL, Statuses(kids))
  }

  /** An override hides a failing status, unless a dependency already does. */
  function Masked(overridden: bool, actual: Status, shown: Status): Status {
    if actual == CLEAR || actual == UNKNOWN || shown == DEPENDS || !overridden then shown else OVERRIDE
  }

  /** The status shown to others. */
  function ShownStatus(own: Status, overridden: bool, grav: Gravity, kids: seq<View>): Status {
    var actual := RealStatus(own, grav, kids);
    Masked(overridden, actual, if kids == [] then actual else AggrList(grav, MAXSTATUS, Shown(kids)))
  }

  function Plus(a: Counts, b: Counts): Counts {
    seq(8, i requires 0 <= i < 8 => a[i] + b[i])
  }

  function Sum(xs: seq<Counts>): Counts {
    if xs == [] then NoCounts else Plus(Sum(xs[..|xs| - 1]), xs[|xs| - 1])
  }

  /** An element with no children, or one where counting stops, counts once, under its own shown status. */
  function CountsOnce(countstop: bool, nkids: nat): bool {
    nkids == 0 || countstop
  }

  /** How many elements stand in each shown status below this one. */
  function SummaryOf(countstop: bool, overridden: bool, nkids: nat, ov: Status, sums: seq<Counts>): Counts {
    if CountsOnce(countstop, nkids) then NoCounts[ov := 1]
    else if overridden then NoCounts[OVERRIDE := nkids]
    else Sum(sums)
  }

  /** The siren sounds for failures it is set for; entry UNKNOWN stands for all of them. */
  predicate Sounds(siren: seq<bool>, ov: Status)
    requires |siren| == 6
  {
    CLEAR < ov <= CRITICAL && (siren[ov] || siren[UNKNOWN])
  }

  // ---- what these mean for what is shown ----

  /** Without children the real status is the element's own; with children that report severities it is chosen from
      theirs. */
  ghost predicate IsReal(own: Status, grav: Gravity, kids: seq<View>, actual: Status) {
    if kids == [] then actual == own
    else (forall v :: v in kids ==> v.status <= 5) ==> Chosen(grav, Statuses(kids), actual)
  }

  /** A failing element under an override shows the override, be it a service or a group, unless a dependency hides it
      already; any other shows its own status, or what its gravity chooses from what its children show. */
  ghost predicate Shows(actual: Status, overridden: bool, grav: Gravity, kids: seq<View>, ov: Status) {
    var hides := overridden && actual != 0 && actual != 1;
    if kids == [] then ov == if hides && actual != 7 then 6 else actual
    else exists os: Status :: Chosen(grav, Shown(kids), os) && ov == if hides && os != 7 then 6 else os
  }

  lemma ShownIsRight(own: Status, overridden: bool, grav: Gravity, kids: seq<View>)
    ensures IsReal(own, grav, kids, RealStatus(own, grav, kids))
    ensures Shows(RealStatus(own, grav, kids), overridden, grav, kids, ShownStatus(own, overridden, grav, kids))
  {
    if kids != [] {
      AggrIsChosen(grav, MAXSTATUS, Shown(kids));
      assert Chosen(grav, Shown(kids), AggrList(grav, MAXSTATUS, Shown(kids)));
      if forall v :: v in kids ==> v.status <= 5 {
        AggrIsChosen(grav, CRITICAL, Statuses(kids));
      }
    }
  }

  /** What the children count under one status, together. */
  function Entries(cs: seq<Counts>, k: nat): nat
    requires k < 8
  {
    if cs == [] then 0 else Entries(cs[..|cs| - 1], k) + cs[|cs| - 1][k]
  }

  /** A childless or stopping element counts once, as what it shows; an overridden group counts its children as
      overridden; any other counts, status by status, what its children count. */
  ghost predicate Tallies(countstop: bool, overridden: bool, nkids: nat, ov: Status, sums: seq<Counts>, c: Counts) {
    forall k: nat :: k < 8 ==>
      c[k] == if nkids == 0 || countstop then (if k == ov then 1 else 0)
              else if overridden then (if k == 6 then nkids else 0)
              else Entries(sums, k)
  }

  lemma SummaryTallies(countstop: bool, overridden: bool, nkids: nat, ov: Status, sums: seq<Counts>)
    ensures Tallies(countstop, overridden, nkids, ov, sums, SummaryOf(countstop, overridden, nkids, ov, sums))
  {
    forall k: nat | k < 8 ensures Sum(sums)[k] == Entries(sums, k) {
      SumEntries(sums, k);
    }
  }

  lemma {:induction false} SumEntries(sums: seq<Counts>, k: nat)
    requires k < 8
    ensures Sum(sums)[k] == Entries(sums, k)
  {
    if sums != [] {
      SumEntries(sums[..|sums| - 1], k);
    }
  }

  /** Nothing but a severity ever sounds, and so no failure that an override hides; with the entry for all set every
      severity does, and without it those whose own entry is set. */
  lemma SirenMeans(siren: seq<bool>, ov: Status)
    requires |siren| == 6
    ensures Sounds(siren, ov) ==> ov in {2, 3, 4, 5}
    ensures siren[0] ==> (Sounds(siren, ov) <==> ov in {2, 3, 4, 5})
    ensures !siren[0] ==> forall s: Status :: 2 <= s <= 5 ==> (Sounds(siren, s) <==> siren[s])
  {
  }

  function LookAll(ms: seq<M>): (vs: seq<View>)
    reads ms`status, ms`ovStatus
    ensures |vs| == |ms| && forall i :: 0 <= i < |ms| ==> vs[i] == ms[i].Look()
  {
    if ms == [] then [] else LookAll(ms[..|ms| - 1]) + [ms[|ms| - 1].Look()]
  }

  function SummaryAll(ms: seq<M>): (cs: seq<Counts>)
    reads ms`summary
    ensures |cs| == |ms| && forall i :: 0 <= i < |ms| ==> cs[i] == ms[i].summary
  {
    if ms == [] then [] else SummaryAll(ms[..|ms| - 1]) + [ms[|ms| - 1].summary]
  }

  function Told(parents: seq<M>, k: nat): (up: seq<M>)
    requires k <= |parents|
    reads parents`children
    ensures |up| == k
    ensures forall i :: 0 <= i < k ==>
      up[i] == if i > 0 && |parents[i].children| == 1 then parents[i].children[0] else parents[i]
  {
    if k == 0 then []
    else
      var p := parents[k - 1];
      Told(parents, k - 1) + [if k > 1 && |p.children| == 1 then p.children[0] else p]
  }

  class M {
    const gravity: Gravity
    const countstop: bool
    const siren: seq<bool>
    var children: seq<M>
    var parents: seq<M>
    var status: Status
    var ovStatus: Status
    var override: bool
    var alarm: bool
    var summary: Counts

    constructor (gravity: Gravity, countstop: bool, siren: seq<bool>)
      requires |siren| == 6
      ensures Valid() && children == [] && parents == []
      ensures status == ovStatus == UNKNOWN && summary == NoCounts && !override && !alarm
      ensures this.gravity == gravity && this.countstop == countstop && this.siren == siren
    {
      this.gravity, this.countstop, this.siren := gravity, countstop, siren;
      children, parents := [], [];
      status, ovStatus, override, alarm, summary := UNKNOWN, UNKNOWN, false, false, NoCounts;
    }

    ghost predicate Valid()
      reads this`children
    {
      |siren| == 6 && this !in children
    }

    /** What every parent is told. */
    function Look(): View
      reads this`status, this`ovStatus
    {
      View(status, ovStatus)
    }

    function Views(): seq<View>
      reads this`children, children`status, children`ovStatus
    {
      LookAll(children)
    }

    function Sums(): seq<Counts>
      reads this`children, children`summary
    {
      SummaryAll(children)
    }

    method AddChild(n: M)
      requires Valid() && n != this
      modifies this`children
      ensures Valid() && children == old(children) + [n]
    {
      children := children + [n];
    }

    method DetermineAggrStatus()
      requires Valid()
      modifies this`status, this`ovStatus
      ensures status == RealStatus(old(status), gravity, old(Views()))
      ensures ovStatus == if children == [] then status
                          else AggrList(gravity, MAXSTATUS, Shown(old(Views())))
    {
      if |children| == 0 {
        ovStatus := status;
        return;
      }
      ghost var kids := Views();
      var nchild := 0;
      var rsum, osum := NoCounts, NoCounts;
      while nchild < |children|
        invariant 0 <= nchild <= |children|
        invariant rsum == Histogram(Statuses(kids[..nchild]))
        invariant osum == Histogram(Shown(kids[..nchild]))
      {
        var seen := children[nchild].Look();
        assert seen == kids[nchild];
        OneMore(kids, nchild);
        rsum := rsum[seen.status := rsum[seen.status] + 1];
        osum := osum[seen.ov := osum[seen.ov] + 1];
        nchild := nchild + 1;
      }
      assert kids[..nchild] == kids;
      var rs := CalcAggrStatus(gravity, nchild, CRITICAL, rsum);
      var os := CalcAggrStatus(gravity, nchild, MAXSTATUS, osum);
      status, ovStatus := rs, os;
    }

    method CheckOverride()
      modifies this`ovStatus
      ensures ovStatus == Masked(override, status, old(ovStatus))
    {
      if status == CLEAR || status == UNKNOWN {
        return;
      }
      if ovStatus == DEPENDS {
        return;
      }
      if override {
        ovStatus := OVERRIDE;
      }
    }

    method DetermineStatus() returns (changed: bool)
      requires Valid()
      modifies this`status, this`ovStatus
      ensures status == RealStatus(old(status), gravity, old(Views()))
      ensures ovStatus == ShownStatus(old(status), override, gravity, old(Views()))
      ensures IsReal(old(status), gravity, old(Views()), status)
      ensures Shows(status, override, gravity, old(Views()), ovStatus)
      ensures changed <==> ovStatus != old(ovStatus)
    {
      var prevo := ovStatus;
      ShownIsRight(status, override, gravity, Views());
      DetermineAggrStatus();
      CheckOverride();
      changed := ovStatus != prevo;
    }

    method DetermineSummary()
      requires Valid()
      modifies this`summary
      ensures summary == SummaryOf(countstop, override, |children|, ovStatus, old(Sums()))
      ensures Tallies(countstop, override, |children|, ovStatus, old(Sums()), summary)
    {
      SummaryTallies(countstop, override, |children|, ovStatus, Sums());
      summary := NoCounts;
      if |children| == 0 || countstop {
        summary := summary[ovStatus := 1];
        return;
      }
      if override {
        summary := summary[OVERRIDE := |children|];
        return;
      }
      SumChildren();
    }

    /** Add up the counts of the children. */
    method SumChildren()
      requires Valid() && summary == NoCounts
      modifies this`summary
      ensures summary == Sum(old(Sums()))
    {
      ghost var sums := Sums();
      for k := 0 to |children|
        invariant Sums() == sums
        invariant summary == Sum(sums[..k])
      {
        ghost var before := summary;
        var theirs := children[k].summary;
        for i := 0 to 8
          invariant |before| == 8 && |theirs| == 8 && theirs == sums[k]
          invariant Sums() == sums
          invariant forall n :: 0 <= n < 8 ==> summary[n] == before[n] + if n < i then theirs[n] else 0
        {
          summary := summary[i := summary[i] + theirs[i]];
        }
        assert summary == Plus(before, sums[k]);
        assert sums[..k + 1] == sums[..k] + [sums[k]];
      }
      assert sums[..|children|] == sums;
    }

    method SetAlarm()
      requires Valid()
      modifies this`alarm
      ensures alarm == Sounds(siren, ovStatus)
      ensures alarm ==> ovStatus in {2, 3, 4, 5} && (siren[ovStatus] || siren[0])
      ensures ovStatus in {2, 3, 4, 5} && (siren[ovStatus] || siren[0]) ==> alarm
    {
      var a := false;
      if ovStatus > CLEAR && ovStatus <= CRITICAL {
        if siren[ovStatus] || siren[UNKNOWN] {
          a := true;
        }
      }
      if a != alarm {
        alarm := a;
      }
    }

    /** Who is told: the parents, except that a further parent with an only child stands for an alias
        and that child is told instead. */
    function Upward(): seq<M>
      reads this`parents, parents`children
    {
      Told(parents, |parents|)
    }

    method AndUpwards() returns (upup: seq<M>)
      ensures upup == Upward()
    {
      upup := [];
      var notfirst := false;
      for i := 0 to |parents|
        invariant upup == Told(parents, i)
        invariant notfirst <==> i > 0
      {
        var parent := parents[i];
        if notfirst && |parent.children| == 1 {
          upup := upup + [parent.children[0]];
          continue;
        }
        upup := upup + [parent];
        notfirst := true;
      }
    }

    /** The rest of an update once the shown status is settled. */
    method CommonUpdate() returns (upup: seq<M>)
      requires Valid()
      modifies this`summary, this`alarm
      ensures summary == SummaryOf(countstop, override, |children|, ovStatus, old(Sums()))
      ensures alarm == Sounds(siren, ovStatus)
      ensures upup == Upward()
    {
      SetAlarm();
      DetermineSummary();
      upup := AndUpwards();
    }

    method CommonUpdateNoChange() returns (upup: seq<M>)
      requires Valid()
      modifies this`summary, this`alarm
      ensures summary == SummaryOf(countstop, override, |children|, ovStatus, old(Sums()))
      ensures alarm == Sounds(siren, ovStatus)
      ensures upup == Upward()
    {
      DetermineSummary();
      SetAlarm();
      upup := AndUpwards();
    }

    method UpdateStatus(st: Status) returns (changed: bool)
      requires Valid()
      modifies this`status, this`ovStatus
      ensures if st == old(status) then status == old(status) && ovStatus == old(ovStatus)
              else
                && status == RealStatus(st, gravity, old(Views()))
                && ovStatus == ShownStatus(st, override, gravity, old(Views()))
      ensures changed <==> ovStatus != old(ovStatus)
    {
      if st == status {
        return false;
      }
      ghost var kids := Views();
      status := st;
      assert Views() == kids;
      changed := DetermineStatus();
    }

    /** A service reports its status. Nobody is told unless the shown status changes. */
    method Update(st: Status) returns (upup: seq<M>)
      requires Valid()
      modifies this`status, this`ovStatus, this`summary, this`alarm
      ensures if st == old(status) then status == old(status) && ovStatus == old(ovStatus)
              else
                && status == RealStatus(st, gravity, old(Views()))
                && ovStatus == ShownStatus(st, override, gravity, old(Views()))
      ensures if ovStatus == old(ovStatus) then upup == [] && summary == old(summary) && alarm == old(alarm)
              else
                && summary == SummaryOf(countstop, override, |children|, ovStatus, old(Sums()))
                && alarm == Sounds(siren, ovStatus)
                && upup == old(Upward())
    {
      ghost var sums := Sums();
      var changed := UpdateStatus(st);
      if !changed {
        return [];
      }
      assert Sums() == sums;
      upup := CommonUpdate();
    }

    /** Recompute everything from the children. The parents are told whether or not anything changed. */
    method ReUpdate() returns (upup: seq<M>)
      requires Valid()
      modifies this`status, this`ovStatus, this`summary, this`alarm
      ensures status == RealStatus(old(status), gravity, old(Views()))
      ensures ovStatus == ShownStatus(old(status), override, gravity, old(Views()))
      ensures summary == SummaryOf(countstop, override, |children|, ovStatus, old(Sums()))
      ensures alarm == Sounds(siren, ovStatus)
      ensures IsReal(old(status), gravity, old(Views()), status)
      ensures Shows(status, override, gravity, old(Views()), ovStatus)
      ensures Tallies(countstop, override, |children|, ovStatus, old(Sums()), summary)
      ensures override && status != 0 && status != 1 ==> !alarm
      ensures upup == old(Upward())
    {
      ghost var sums := Sums();
      var changed := DetermineStatus();
      assert Sums() == sums;
      SummaryTallies(countstop, override, |children|, ovStatus, sums);
      SirenMeans(siren, ovStatus);
      if !changed {
        upup := CommonUpdateNoChange();
        return;
      }
      upup := CommonUpdate();
    }
  }

  lemma OneMore(kids: seq<View>, n: nat)
    requires n < |kids|
    ensures
      var c := Histogram(Statuses(kids[..n]));
      Histogram(Statuses(kids[..n + 1])) == c[kids[n].status := c[kids[n].status] + 1]
    ensures
      var c := Histogram(Shown(kids[..n]));
      Histogram(Shown(kids[..n + 1])) == c[kids[n].ov := c[kids[n].ov] + 1]
  {
    assert Statuses(kids[..n + 1])[..n] == Statuses(kids[..n]);
    assert Shown(kids[..n + 1])[..n] == Shown(kids[..n]);
  }
}
