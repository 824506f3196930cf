/** Severities, gravities, and the aggregation of many statuses into one. */
module Aggregate {

  // src/argus/argus/status.go: UNKNOWN .. DEPENDS
  type Status = s: int | 0 <= s <= 7

  const UNKNOWN: Status := 0
  const CLEAR: Status := 1
  const WARNING: Status := 2
  const CRITICAL: Status := 5
  const OVERRIDE: Status := 6
  const DEPENDS: Status := 7
  const MAXSTATUS: Status := 7

  // src/argus/argus/gravity.go
  datatype Gravity = Up | Dn | Vote | Ietf | Self

  // One counter for each status.
  type Counts = c: seq<nat> | |c| == 8 witness [0, 0, 0, 0, 0, 0, 0, 0]

  const NoCounts: Counts := [0, 0, 0, 0, 0, 0, 0, 0]

  /** How often each status occurs in a list of child statuses. */
  function Histogram(xs: seq<Status>): (c: Counts)
    ensures c[UNKNOWN] + c[CLEAR] <= |xs|
  {
    if xs == [] then NoCounts
    else
      var c := Histogram(xs[..|xs| - 1]);
      c[xs[|xs| - 1] := c[xs[|xs| - 1]] + 1]
  }

  /** The counters of the severities from `lo` up to `hi`, added up. */
  function Between(c: Counts, lo: nat, hi: int): nat
    requires hi <= 7
    decreases hi - lo
  {
    if hi < lo then 0 else Between(c, lo, hi - 1) + c[hi]
  }

  /** The votes needed for a majority among `known` children. */
  function Majority(known: nat): nat {
    (known + 1) / 2
  }

  /** The highest status up to `hi` that occurs, UNKNOWN if none does. */
  function Highest(c: Counts, hi: Status): Status {
    if hi == UNKNOWN then UNKNOWN
    else if c[hi] > 0 then hi
    else Highest(c, hi - 1)
  }

  /** The lowest status from `lo` to `max` that occurs, CLEAR if none does. */
  function Lowest(c: Counts, lo: nat, max: Status): Status
    decreases |c| - lo
  {
    if lo > max then CLEAR
    else if c[lo] > 0 then lo
    else Lowest(c, lo + 1, max)
  }

  /** The first severity from `lo` to `max` at which the running total reaches `lim`, UNKNOWN if it never does. */
  function Reaching(c: Counts, lim: nat, lo: nat, max: Status): Status
    decreases |c| - lo
  {
    if lo > max then UNKNOWN
    else if Between(c, CLEAR, lo) >= lim then lo
    else Reaching(c, lim, lo + 1, max)
  }

  /** What calcAggrStatus answers for `tot` children counted in `c`. */
  function Aggr(grav: Gravity, tot: nat, max: Status, c: Counts): Status
    requires c[UNKNOWN] <= tot
  {
    match grav
    case Dn => Highest(c, max)
    case Up => Lowest(c, CLEAR, max)
    case _ => Reaching(c, Majority(tot - c[UNKNOWN]), CLEAR, max)
  }

  /** Aggregate of counters: one of three searches, by gravity. */
  method CalcAggrStatus(grav: Gravity, total: nat, max: Status, statuses: seq<nat>) returns (r: Status)
    requires |statuses| == 8 && statuses[UNKNOWN] <= total
    ensures r == Aggr(grav, total, max, statuses)
  {
    var tot := total - statuses[UNKNOWN];
    match grav {
      case Dn =>
        var sev: int := max;
        while sev >= CLEAR
          invariant 0 <= sev <= max
          invariant Highest(statuses, max) == Highest(statuses, sev)
        {
          if statuses[sev] > 0 {
            return sev;
          }
          sev := sev - 1;
        }
      case Up =>
        var sev: int := CLEAR;
        while sev <= max
          invariant CLEAR <= sev
          invariant Lowest(statuses, CLEAR, max) == Lowest(statuses, sev, max)
        {
          if statuses[sev] > 0 {
            return sev;
          }
          sev := sev + 1;
        }
        return CLEAR;
      case _ =>
        var lim := (tot + 1) / 2;
        var cum := 0;
        var sev: int := CLEAR;
        while sev <= max
          invariant CLEAR <= sev <= 8
          invariant cum == Between(statuses, CLEAR, sev - 1)
          invariant Reaching(statuses, lim, CLEAR, max) == Reaching(statuses, lim, sev, max)
        {
          cum := cum + statuses[sev];
          if cum >= lim {
            return sev;
          }
          sev := sev + 1;
        }
    }
    return UNKNOWN;
  }

  /** The same answer read from the list of the children's statuses. */
  function AggrList(grav: Gravity, max: Status, xs: seq<Status>): Status {
    Aggr(grav, |xs|, max, Histogram(xs))
  }

  // ---- what the counters mean ----

  lemma {:induction false} HighestIsMax(c: Counts, hi: Status)
    ensures Highest(c, hi) <= hi
    ensures Highest(c, hi) != UNKNOWN ==> c[Highest(c, hi)] > 0
    ensures forall s :: Highest(c, hi) < s <= hi ==> c[s] == 0
  {
    if hi != UNKNOWN && c[hi] == 0 {
      HighestIsMax(c, hi - 1);
    }
  }

  lemma {:induction false} LowestIsMin(c: Counts, lo: nat, max: Status)
    requires CLEAR <= lo
    ensures
      var r := Lowest(c, lo, max);
      (lo <= r <= max && c[r] > 0 && forall s :: lo <= s < r ==> c[s] == 0)
      || (r == CLEAR && forall s :: lo <= s <= max ==> c[s] == 0)
    decreases |c| - lo
  {
    if lo <= max && c[lo] == 0 {
      LowestIsMin(c, lo + 1, max);
    }
  }

  lemma {:induction false} ReachingIsFirst(c: Counts, lim: nat, lo: nat, max: Status)
    requires CLEAR <= lo <= max && lim <= Between(c, CLEAR, max)
    requires lo > CLEAR ==> Between(c, CLEAR, lo - 1) < lim
    ensures
      var r := Reaching(c, lim, lo, max);
      lo <= r <= max && Between(c, CLEAR, r) >= lim && (r > CLEAR ==> Between(c, CLEAR, r - 1) < lim)
    decreases |c| - lo
  {
    if Between(c, CLEAR, lo) < lim {
      ReachingIsFirst(c, lim, lo + 1, max);
    }
  }

  lemma {:induction false} BetweenGrows(c: Counts, s: int, t: int)
    requires s <= t <= 7
    ensures Between(c, CLEAR, s) <= Between(c, CLEAR, t)
    decreases t - s
  {
    if s < t {
      BetweenGrows(c, s, t - 1);
    }
  }

  /** The status reached is at most `s` exactly when the running total at `s` suffices. */
  lemma ReachingAtMost(c: Counts, lim: nat, max: Status, s: Status)
    requires CLEAR <= s && CLEAR <= max && lim <= Between(c, CLEAR, max)
    ensures CLEAR <= Reaching(c, lim, CLEAR, max) <= max
    ensures Reaching(c, lim, CLEAR, max) <= s <==> Between(c, CLEAR, s) >= lim
  {
    ReachingIsFirst(c, lim, CLEAR, max);
    var r := Reaching(c, lim, CLEAR, max);
    if r <= s {
      BetweenGrows(c, r, s);
    } else {
      BetweenGrows(c, s, r - 1);
    }
  }

  // ---- what the answer means for the list of children ----

  ghost predicate UpTo(xs: seq<Status>, max: Status) {
    forall i :: 0 <= i < |xs| ==> xs[i] <= max
  }

  lemma {:induction false} HistogramCounts(xs: seq<Status>, s: Status)
    ensures Histogram(xs)[s] == multiset(xs)[s]
    ensures Histogram(xs)[s] > 0 <==> s in xs
  {
    if xs != [] {
      HistogramCounts(xs[..|xs| - 1], s);
      assert xs == xs[..|xs| - 1] + [xs[|xs| - 1]];
    }
  }

  /** The statuses that are known, in order. */
  function Known(xs: seq<Status>): seq<Status> {
    if xs == [] then []
    else Known(xs[..|xs| - 1]) + if xs[|xs| - 1] == UNKNOWN then [] else [xs[|xs| - 1]]
  }

  ghost predicate Sorted(ys: seq<Status>) {
    forall i, j :: 0 <= i < j < |ys| ==> ys[i] <= ys[j]
  }

  lemma {:induction false} BetweenBump(c: Counts, v: Status, hi: int)
    requires hi <= 7
    ensures Between(c[v := c[v] + 1], CLEAR, hi) == Between(c, CLEAR, hi) + if CLEAR <= v <= hi then 1 else 0
    decreases hi
  {
    if CLEAR <= hi {
      BetweenBump(c, v, hi - 1);
    }
  }

  lemma {:induction false} BetweenNone(hi: int)
    requires hi <= 7
    ensures Between(NoCounts, CLEAR, hi) == 0
    decreases hi
  {
    if CLEAR <= hi {
      BetweenNone(hi - 1);
    }
  }

  lemma {:induction false} BetweenCap(xs: seq<Status>, s: Status)
    ensures Between(Histogram(xs), CLEAR, s) + Histogram(xs)[UNKNOWN] <= |xs|
    ensures UpTo(xs, s) ==> Between(Histogram(xs), CLEAR, s) + Histogram(xs)[UNKNOWN] == |xs|
  {
    if xs == [] {
      BetweenNone(s);
    } else {
      var init, last := xs[..|xs| - 1], xs[|xs| - 1];
      BetweenCap(init, s);
      BetweenBump(Histogram(init), last, s);
      if UpTo(xs, s) {
        assert forall i :: 0 <= i < |init| ==> xs[i] == init[i];
        assert UpTo(init, s);
      }
    }
  }

  lemma SameCounts(c: Counts, d: Counts, hi: int)
    requires hi <= 7
    requires forall s :: CLEAR <= s <= 7 ==> c[s] == d[s]
    ensures Between(c, CLEAR, hi) == Between(d, CLEAR, hi)
    decreases hi
  {
  }

  /** In a sorted list the running total passes k + 1 exactly at the element in position k. */
  lemma {:induction false} RankInSorted(ys: seq<Status>, k: nat, s: Status)
    requires Sorted(ys) && k < |ys| && ys[0] != UNKNOWN
    ensures s >= ys[k] ==> Between(Histogram(ys), CLEAR, s) > k
    ensures s < ys[k] ==> Between(Histogram(ys), CLEAR, s) <= k
  {
    var init, last := ys[..|ys| - 1], ys[|ys| - 1];
    BetweenBump(Histogram(init), last, s);
    BetweenCap(init, s);
    if k < |init| {
      RankInSorted(init, k, s);
    } else if s >= last {
      HistogramCounts(init, UNKNOWN);
      assert UpTo(init, s);
    }
  }

  lemma {:induction false} KnownCounts(xs: seq<Status>, s: Status)
    ensures |Known(xs)| + Histogram(xs)[UNKNOWN] == |xs|
    ensures multiset(Known(xs))[s] == if s == UNKNOWN then 0 else Histogram(xs)[s]
  {
    if xs != [] {
      KnownCounts(xs[..|xs| - 1], s);
    }
  }

  /** Down picks the worst child. */
  lemma DnIsMaximum(max: Status, xs: seq<Status>)
    requires UpTo(xs, max)
    ensures var r := AggrList(Dn, max, xs);
            if xs == [] then r == UNKNOWN else r in xs && UpTo(xs, r)
  {
    HighestIsMax(Histogram(xs), max);
    var r := AggrList(Dn, max, xs);
    HistogramCounts(xs, r);
    forall i | 0 <= i < |xs| ensures xs[i] <= r && r in xs {
      HistogramCounts(xs, xs[i]);
    }
  }

  /** Up picks the best child whose status is known, CLEAR when none is. */
  lemma UpIsMinimumKnown(max: Status, xs: seq<Status>)
    requires UpTo(xs, max)
    ensures var r := AggrList(Up, max, xs);
            if UpTo(xs, UNKNOWN) then r == CLEAR
            else r in xs && r != UNKNOWN && forall i :: 0 <= i < |xs| && xs[i] != UNKNOWN ==> r <= xs[i]
  {
    LowestIsMin(Histogram(xs), CLEAR, max);
    var r := AggrList(Up, max, xs);
    HistogramCounts(xs, r);
    forall i | 0 <= i < |xs| && xs[i] != UNKNOWN ensures r in xs && r <= xs[i] {
      HistogramCounts(xs, xs[i]);
    }
  }

  /** Every other gravity picks the lower median of the known statuses, CLEAR when none is known.
      `ys` is any sorted arrangement of them. */
  lemma VoteIsLowerMedian(grav: Gravity, max: Status, xs: seq<Status>, ys: seq<Status>)
    requires !grav.Up? && !grav.Dn? && max >= CLEAR
    requires UpTo(xs, max)
    requires Sorted(ys) && multiset(ys) == multiset(Known(xs))
    ensures AggrList(grav, max, xs) == if ys == [] then CLEAR else ys[(|ys| - 1) / 2]
  {
    assert |ys| == |multiset(ys)| == |Known(xs)|;
    KnownCounts(xs, UNKNOWN);
    BetweenCap(xs, max);
    forall s: Status ensures Histogram(ys)[s] == if s == UNKNOWN then 0 else Histogram(xs)[s] {
      HistogramCounts(ys, s);
      KnownCounts(xs, s);
    }
    HistogramCounts(ys, UNKNOWN);
    MedianOfCounts(grav, |xs|, Histogram(xs), ys, max);
  }

  /** The positions of the known statuses up to `hi`. */
  function KnownUpTo(xs: seq<Status>, hi: int): set<nat> {
    set i: nat | i < |xs| && 1 <= xs[i] <= hi
  }

  /** The worst, the best known or, by most voices, the lower median of the known statuses; clear where none is known. */
  ghost predicate Chosen(grav: Gravity, xs: seq<Status>, r: Status) {
    if grav.Dn? then r in xs && forall x :: x in xs ==> x <= r
    else if forall x :: x in xs ==> x == 0 then r == 1
    else if grav.Up? then r in xs && r != 0 && forall x :: x in xs && x != 0 ==> r <= x
    else r in xs && r != 0 && 2 * |KnownUpTo(xs, r - 1)| < |KnownUpTo(xs, 7)| <= 2 * |KnownUpTo(xs, r)|
  }

  lemma {:induction false} BetweenIsMany(xs: seq<Status>, hi: int)
    requires hi <= 7
    ensures Between(Histogram(xs), CLEAR, hi) == |KnownUpTo(xs, hi)|
  {
    if xs == [] {
      BetweenNone(hi);
      assert KnownUpTo(xs, hi) == {};
    } else {
      var k := |xs| - 1;
      BetweenIsMany(xs[..k], hi);
      BetweenBump(Histogram(xs[..k]), xs[k], hi);
      assert KnownUpTo(xs, hi) == KnownUpTo(xs[..k], hi) + if 1 <= xs[k] <= hi then {k} else {};
    }
  }

  /** That is what the aggregate of a list is. */
  lemma AggrIsChosen(grav: Gravity, max: Status, xs: seq<Status>)
    requires xs != [] && max >= CLEAR && UpTo(xs, max)
    ensures Chosen(grav, xs, AggrList(grav, max, xs))
  {
    match grav {
      case Dn => DnIsMaximum(max, xs);
      case Up => UpIsMinimumKnown(max, xs);
      case _ => VoteIsChosen(grav, max, xs);
    }
  }

  lemma VoteIsChosen(grav: Gravity, max: Status, xs: seq<Status>)
    requires !grav.Up? && !grav.Dn? && max >= CLEAR && UpTo(xs, max)
    ensures Chosen(grav, xs, AggrList(grav, max, xs))
  {
    var r, c := AggrList(grav, max, xs), Histogram(xs);
    BetweenCap(xs, max);
    ReachingAtMost(c, Majority(|xs| - c[UNKNOWN]), max, CLEAR);
    ReachingAtMost(c, Majority(|xs| - c[UNKNOWN]), max, r);
    BetweenIsMany(xs, r);
    BetweenIsMany(xs, r - 1);
    BetweenIsMany(xs, max);
    assert KnownUpTo(xs, 7) == KnownUpTo(xs, max);
    if r > CLEAR {
      ReachingAtMost(c, Majority(|xs| - c[UNKNOWN]), max, r - 1);
    }
    HistogramCounts(xs, r);
    SomeKnown(xs);
  }

  lemma SomeKnown(xs: seq<Status>)
    ensures |KnownUpTo(xs, 7)| == 0 <==> forall x :: x in xs ==> x == 0
  {
    if KnownUpTo(xs, 7) == {} {
      forall i: nat | i < |xs| ensures xs[i] == 0 {
        assert i !in KnownUpTo(xs, 7);
      }
    } else {
      var i :| i in KnownUpTo(xs, 7);
      assert xs[i] in xs;
    }
  }

  lemma MedianOfCounts(grav: Gravity, tot: nat, c: Counts, ys: seq<Status>, max: Status)
    requires !grav.Up? && !grav.Dn? && max >= CLEAR
    requires Sorted(ys) && (ys != [] ==> ys[0] != UNKNOWN)
    requires Between(c, CLEAR, max) == |ys| == tot - c[UNKNOWN]
    requires forall s: Status :: s != UNKNOWN ==> Histogram(ys)[s] == c[s]
    ensures Aggr(grav, tot, max, c) == if ys == [] then CLEAR else ys[(|ys| - 1) / 2]
  {
    if ys == [] {
      ReachingAtMost(c, 0, max, CLEAR);
    } else {
      SortedReaches(c, ys, (|ys| - 1) / 2, max);
    }
  }

  lemma SortedReaches(c: Counts, ys: seq<Status>, k: nat, max: Status)
    requires Sorted(ys) && k < |ys| && ys[0] != UNKNOWN && max >= CLEAR
    requires Between(c, CLEAR, max) == |ys|
    requires forall s: Status :: s != UNKNOWN ==> Histogram(ys)[s] == c[s]
    ensures Reaching(c, k + 1, CLEAR, max) == ys[k]
  {
    var r := Reaching(c, k + 1, CLEAR, max);
    ReachingAtMost(c, k + 1, max, ys[k]);
    RankInSorted(ys, k, ys[k]);
    SameCounts(Histogram(ys), c, ys[k]);
    ReachingAtMost(c, k + 1, max, r);
    RankInSorted(ys, k, r);
    SameCounts(Histogram(ys), c, r);
  }

  // ---- raising a child ----

  /** Every child is at least as bad in `ys`, and the same children are unknown. */
  ghost predicate Worse(xs: seq<Status>, ys: seq<Status>) {
    && |xs| == |ys|
    && forall i :: 0 <= i < |xs| ==> WorseStatus(xs[i], ys[i])
  }

  predicate WorseStatus(s: Status, t: Status) {
    s <= t && (s == UNKNOWN <==> t == UNKNOWN)
  }

  lemma {:induction false} RaisedCounts(xs: seq<Status>, ys: seq<Status>, s: Status)
    requires Worse(xs, ys)
    ensures Histogram(xs)[UNKNOWN] == Histogram(ys)[UNKNOWN]
    ensures Between(Histogram(ys), CLEAR, s) <= Between(Histogram(xs), CLEAR, s)
  {
    if xs != [] {
      var k := |xs| - 1;
      var xs', ys' := xs[..k], ys[..k];
      assert WorseStatus(xs[k], ys[k]);
      assert Worse(xs', ys') by {
        forall i | 0 <= i < k ensures WorseStatus(xs'[i], ys'[i]) {
          assert WorseStatus(xs[i], ys[i]);
        }
      }
      RaisedCounts(xs', ys', s);
      var c, d := Histogram(xs'), Histogram(ys');
      RaisedBump(c, d, xs[k], ys[k], s);
      assert Histogram(xs) == c[xs[k] := c[xs[k]] + 1];
      assert Histogram(ys) == d[ys[k] := d[ys[k]] + 1];
    }
  }

  lemma RaisedBump(c: Counts, d: Counts, v: Status, w: Status, s: Status)
    requires WorseStatus(v, w) && Between(d, CLEAR, s) <= Between(c, CLEAR, s)
    ensures Between(d[w := d[w] + 1], CLEAR, s) <= Between(c[v := c[v] + 1], CLEAR, s)
  {
    BetweenBump(c, v, s);
    BetweenBump(d, w, s);
  }

  /** When children only get worse, and none becomes known or unknown, the aggregate does not improve. */
  lemma AggrMonotone(grav: Gravity, max: Status, xs: seq<Status>, ys: seq<Status>)
    requires max >= CLEAR && UpTo(ys, max) && Worse(xs, ys)
    ensures AggrList(grav, max, xs) <= AggrList(grav, max, ys)
  {
    assert forall i :: 0 <= i < |xs| ==> WorseStatus(xs[i], ys[i]);
    assert UpTo(xs, max);
    match grav {
      case Dn =>
        DnMonotone(max, xs, ys);
      case Up =>
        UpIsMinimumKnown(max, xs);
        UpIsMinimumKnown(max, ys);
      case _ =>
        VoteMonotone(grav, max, xs, ys);
    }
  }

  /** Under Dn a child may also become known. */
  lemma DnMonotone(max: Status, xs: seq<Status>, ys: seq<Status>)
    requires |xs| == |ys| && UpTo(xs, max) && UpTo(ys, max) && forall i :: 0 <= i < |xs| ==> xs[i] <= ys[i]
    ensures AggrList(Dn, max, xs) <= AggrList(Dn, max, ys)
  {
    DnIsMaximum(max, xs);
    DnIsMaximum(max, ys);
  }

  lemma VoteMonotone(grav: Gravity, max: Status, xs: seq<Status>, ys: seq<Status>)
    requires !grav.Up? && !grav.Dn? && max >= CLEAR && UpTo(xs, max) && UpTo(ys, max) && Worse(xs, ys)
    ensures AggrList(grav, max, xs) <= AggrList(grav, max, ys)
  {
    BetweenCap(xs, max);
    BetweenCap(ys, max);
    RaisedCounts(xs, ys, AggrList(grav, max, ys));
    FewerReachLater(grav, |xs|, max, Histogram(xs), Histogram(ys));
  }

  lemma FewerReachLater(grav: Gravity, tot: nat, max: Status, c: Counts, d: Counts)
    requires !grav.Up? && !grav.Dn? && max >= CLEAR
    requires c[UNKNOWN] == d[UNKNOWN] <= tot
    requires Between(c, CLEAR, max) == Between(d, CLEAR, max) == tot - c[UNKNOWN]
    requires var r := Aggr(grav, tot, max, d); Between(d, CLEAR, r) <= Between(c, CLEAR, r)
    ensures Aggr(grav, tot, max, c) <= Aggr(grav, tot, max, d)
  {
    var lim, r := Majority(tot - c[UNKNOWN]), Aggr(grav, tot, max, d);
    ReachingIsFirst(d, lim, CLEAR, max);
    ReachingAtMost(c, lim, max, r);
  }

  /** A child that becomes known can improve the aggregate of a critical sibling. */
  lemma BecomingKnownCanImprove()
    ensures AggrList(Up, CRITICAL, [UNKNOWN, CRITICAL]) == CRITICAL
    ensures AggrList(Up, CRITICAL, [CLEAR, CRITICAL]) == CLEAR
    ensures AggrList(Vote, CRITICAL, [UNKNOWN, CRITICAL]) == CRITICAL
    ensures AggrList(Vote, CRITICAL, [CLEAR, CRITICAL]) == CLEAR
  {
    WithCriticalUp(UNKNOWN);
    WithCriticalUp(CLEAR);
    WithCriticalVote(UNKNOWN);
    WithCriticalVote(CLEAR);
  }

  lemma WithCriticalUp(a: Status)
    requires a == UNKNOWN || a == CLEAR
    ensures AggrList(Up, CRITICAL, [a, CRITICAL]) == if a == UNKNOWN then CRITICAL else CLEAR
  {
    var xs: seq<Status> := [a, CRITICAL];
    assert xs[0] == a && xs[1] == CRITICAL;
    UpIsMinimumKnown(CRITICAL, xs);
  }

  lemma WithCriticalVote(a: Status)
    requires a == UNKNOWN || a == CLEAR
    ensures AggrList(Vote, CRITICAL, [a, CRITICAL]) == if a == UNKNOWN then CRITICAL else CLEAR
  {
    var xs: seq<Status> := [a, CRITICAL];
    var c: Counts, r := Histogram(xs), AggrList(Vote, CRITICAL, xs);
    HistogramCounts(xs, UNKNOWN);
    VoteList(Vote, CRITICAL, xs, c, r);
    WithCriticalCounted(a, CRITICAL);
    WithCriticalCounted(a, CLEAR);
    WithCriticalCounted(a, CRITICAL - 1);
    ReachingAtMost(c, 1, CRITICAL, CLEAR);
    ReachingAtMost(c, 1, CRITICAL, CRITICAL - 1);
  }

  lemma WithCriticalCounted(a: Status, s: Status)
    ensures Between(Histogram([a, CRITICAL]), CLEAR, s)
         == (if CLEAR <= a <= s then 1 else 0) + if CRITICAL <= s then 1 else 0
  {
    var xs: seq<Status> := [a, CRITICAL];
    assert xs[..1] == [a] && [a][..0] == [];
    LastCounted(xs, s);
    LastCounted([a], s);
    BetweenNone(s);
  }

  /** Under Up, a child that becomes known with status `t` improves the aggregate exactly when `t` is below it. */
  lemma UpBecomingKnown(max: Status, xs: seq<Status>, k: nat, t: Status)
    requires k < |xs| && xs[k] == UNKNOWN && UNKNOWN < t <= max && UpTo(xs, max)
    ensures AggrList(Up, max, xs[k := t]) < AggrList(Up, max, xs) <==> t < AggrList(Up, max, xs)
  {
    var ys := xs[k := t];
    assert UpTo(ys, max);
    UpIsMinimumKnown(max, xs);
    UpIsMinimumKnown(max, ys);
    assert ys[k] == t;
    if i :| 0 <= i < |xs| && xs[i] == AggrList(Up, max, xs) && i != k {
      assert ys[i] == xs[i];
    }
  }

  lemma {:induction false} OneMoreKnown(xs: seq<Status>, k: nat, t: Status, s: Status)
    requires k < |xs| && xs[k] == UNKNOWN && t > UNKNOWN
    ensures Between(Histogram(xs[k := t]), CLEAR, s) == Between(Histogram(xs), CLEAR, s) + if t <= s then 1 else 0
  {
    var n := |xs| - 1;
    LastCounted(xs, s);
    LastCounted(xs[k := t], s);
    if k == n {
      assert xs[k := t][..n] == xs[..n];
    } else {
      assert xs[k := t][..n] == xs[..n][k := t];
      OneMoreKnown(xs[..n], k, t, s);
    }
  }

  lemma LastCounted(xs: seq<Status>, s: Status)
    requires xs != []
    ensures var x := xs[|xs| - 1];
            (Between(Histogram(xs), CLEAR, s)
             == Between(Histogram(xs[..|xs| - 1]), CLEAR, s) + if CLEAR <= x <= s then 1 else 0)
  {
    var c: Counts, x := Histogram(xs[..|xs| - 1]), xs[|xs| - 1];
    assert Histogram(xs) == c[x := c[x] + 1];
    BetweenBump(c, x, s);
  }

  lemma {:induction false} OneLessUnknown(xs: seq<Status>, k: nat, t: Status)
    requires k < |xs| && xs[k] == UNKNOWN && t > UNKNOWN
    ensures Histogram(xs[k := t])[UNKNOWN] + 1 == Histogram(xs)[UNKNOWN]
  {
    HistogramCounts(xs, UNKNOWN);
    HistogramCounts(xs[k := t], UNKNOWN);
  }

  /**
   * Under the voting gravities, a child that becomes known with status `t` improves the aggregate exactly when `t` is
   * below it and the children then known to be better make a majority of the children then known.
   */
  lemma VoteBecomingKnown(grav: Gravity, max: Status, xs: seq<Status>, ys: seq<Status>, k: nat, t: Status,
                          was: Status, now: Status)
    requires !grav.Up? && !grav.Dn? && k < |xs| && xs[k] == UNKNOWN && UNKNOWN < t <= max && UpTo(xs, max)
    requires ys == xs[k := t] && was == AggrList(grav, max, xs) && now == AggrList(grav, max, ys)
    ensures now < was <==>
            t < was && Between(Histogram(xs), CLEAR, was - 1) + 1 >= Majority(|xs| - Histogram(xs)[UNKNOWN] + 1)
  {
    var c: Counts, d: Counts := Histogram(xs), Histogram(ys);
    VoteCounts(max, xs, ys, k, t, c, d, was);
    VoteList(grav, max, xs, c, was);
    VoteList(grav, max, ys, d, now);
    VoteChange(c, d, |xs| - c[UNKNOWN], max, was, now, t);
  }

  lemma VoteCounts(max: Status, xs: seq<Status>, ys: seq<Status>, k: nat, t: Status, c: Counts, d: Counts, was: Status)
    requires k < |xs| && xs[k] == UNKNOWN && UNKNOWN < t <= max && UpTo(xs, max) && ys == xs[k := t]
    requires c == Histogram(xs) && d == Histogram(ys)
    ensures d[UNKNOWN] + 1 == c[UNKNOWN] <= |xs| == |ys|
    ensures Between(c, CLEAR, max) + c[UNKNOWN] == |xs| && Between(d, CLEAR, max) == Between(c, CLEAR, max) + 1
    ensures was > CLEAR ==> Between(d, CLEAR, was - 1) == Between(c, CLEAR, was - 1) + if t <= was - 1 then 1 else 0
  {
    BetweenCap(xs, max);
    OneMoreFact(xs, ys, k, t, c, d, max);
    if was > CLEAR {
      OneMoreFact(xs, ys, k, t, c, d, was - 1);
    }
  }

  lemma OneMoreFact(xs: seq<Status>, ys: seq<Status>, k: nat, t: Status, c: Counts, d: Counts, s: Status)
    requires k < |xs| && xs[k] == UNKNOWN && t > UNKNOWN && ys == xs[k := t] && c == Histogram(xs) && d == Histogram(ys)
    ensures d[UNKNOWN] + 1 == c[UNKNOWN]
    ensures Between(d, CLEAR, s) == Between(c, CLEAR, s) + if t <= s then 1 else 0
  {
    OneLessUnknown(xs, k, t);
    OneMoreKnown(xs, k, t, s);
  }

  lemma VoteList(grav: Gravity, max: Status, xs: seq<Status>, c: Counts, r: Status)
    requires !grav.Up? && !grav.Dn? && c == Histogram(xs) && r == AggrList(grav, max, xs)
    ensures c[UNKNOWN] <= |xs| && r == Reaching(c, Majority(|xs| - c[UNKNOWN]), CLEAR, max)
  {
  }

  lemma VoteChange(c: Counts, d: Counts, known: nat, max: Status, was: Status, now: Status, t: Status)
    requires UNKNOWN < t <= max && Between(c, CLEAR, max) == known && Between(d, CLEAR, max) == known + 1
    requires was > CLEAR ==> Between(d, CLEAR, was - 1) == Between(c, CLEAR, was - 1) + if t <= was - 1 then 1 else 0
    requires was == Reaching(c, Majority(known), CLEAR, max) && now == Reaching(d, Majority(known + 1), CLEAR, max)
    ensures now < was <==> t < was && Between(c, CLEAR, was - 1) + 1 >= Majority(known + 1)
  {
    ReachingIsFirst(c, Majority(known), CLEAR, max);
    VoteImproves(c, d, known, max, was, t);
  }

  lemma VoteImproves(c: Counts, d: Counts, known: nat, max: Status, r: Status, t: Status)
    requires CLEAR <= max && CLEAR <= r
    requires Between(d, CLEAR, max) == known + 1 && t > UNKNOWN
    requires r > CLEAR ==> Between(c, CLEAR, r - 1) < Majority(known)
    requires r > CLEAR ==> Between(d, CLEAR, r - 1) == Between(c, CLEAR, r - 1) + if t <= r - 1 then 1 else 0
    ensures Reaching(d, Majority(known + 1), CLEAR, max) < r <==>
            t < r && Between(c, CLEAR, r - 1) + 1 >= Majority(known + 1)
  {
    var lim := Majority(known + 1);
    ReachingAtMost(d, lim, max, CLEAR);
    if r > CLEAR {
      ReachingAtMost(d, lim, max, r - 1);
    }
  }

  // ---- the coarse class of a status ----

  datatype Class = Unknowable | Fine | Failing

  /** Unknown, clear or down: all that override handling looks at. */
  function ClassOf(s: Status): Class {
    if s == UNKNOWN then Unknowable else if s == CLEAR then Fine else Failing
  }

  /** The class of an aggregate, from the number of children that are unknown and that are clear. */
  function ClassAggr(grav: Gravity, tot: nat, unknown: nat, clear: nat): Class
    requires unknown + clear <= tot
  {
    match grav
    case Dn => if tot > unknown + clear then Failing else if clear > 0 then Fine else Unknowable
    case Up => if clear > 0 || tot == unknown then Fine else Failing
    case _ => if clear >= Majority(tot - unknown) then Fine else Failing
  }

  lemma ClassOfAggr(grav: Gravity, max: Status, xs: seq<Status>)
    requires max >= CLEAR && UpTo(xs, max)
    ensures ClassOf(AggrList(grav, max, xs)) == ClassAggr(grav, |xs|, Histogram(xs)[UNKNOWN], Histogram(xs)[CLEAR])
  {
    BetweenCap(xs, max);
    OnlyClear(Histogram(xs), max);
    ClassOfCounts(grav, |xs|, max, Histogram(xs));
  }

  lemma ClassOfCounts(grav: Gravity, tot: nat, max: Status, c: Counts)
    requires max >= CLEAR && Between(c, CLEAR, max) + c[UNKNOWN] == tot
    requires c[CLEAR] <= Between(c, CLEAR, max)
    ensures ClassOf(Aggr(grav, tot, max, c)) == ClassAggr(grav, tot, c[UNKNOWN], c[CLEAR])
  {
    OnlyClear(c, max);
    var some := tot > c[UNKNOWN] + c[CLEAR];
    match grav {
      case Dn => ClassOfHighest(c, max, some);
      case Up => ClassOfLowest(c, max, some);
      case _ => ClassOfReaching(c, Majority(tot - c[UNKNOWN]), max);
    }
  }

  lemma ClassOfHighest(c: Counts, max: Status, some: bool)
    requires max >= CLEAR && (some <==> exists s :: CLEAR < s <= max && c[s] > 0)
    ensures ClassOf(Highest(c, max)) == if some then Failing else if c[CLEAR] > 0 then Fine else Unknowable
  {
    HighestIsMax(c, max);
  }

  lemma ClassOfLowest(c: Counts, max: Status, some: bool)
    requires max >= CLEAR && (some <==> exists s :: CLEAR < s <= max && c[s] > 0)
    ensures ClassOf(Lowest(c, CLEAR, max)) == if c[CLEAR] > 0 || !some then Fine else Failing
  {
    LowestIsMin(c, CLEAR, max);
  }

  lemma ClassOfReaching(c: Counts, lim: nat, max: Status)
    requires max >= CLEAR && lim <= Between(c, CLEAR, max)
    ensures ClassOf(Reaching(c, lim, CLEAR, max)) == if c[CLEAR] >= lim then Fine else Failing
  {
    ReachingAtMost(c, lim, max, CLEAR);
  }

  lemma {:induction false} OnlyClear(c: Counts, hi: Status)
    requires hi >= CLEAR
    ensures Between(c, CLEAR, hi) >= c[CLEAR]
    ensures Between(c, CLEAR, hi) == c[CLEAR] <==> forall s :: CLEAR < s <= hi ==> c[s] == 0
  {
    if hi > CLEAR {
      OnlyClear(c, hi - 1);
    }
  }

  /** The class of the aggregate depends on the children's classes only. */
  lemma ClassesDecide(grav: Gravity, max: Status, xs: seq<Status>, ys: seq<Status>)
    requires max >= CLEAR && |xs| == |ys|
    requires UpTo(xs, max) && UpTo(ys, max)
    requires forall i :: 0 <= i < |xs| ==> ClassOf(xs[i]) == ClassOf(ys[i])
    ensures ClassOf(AggrList(grav, max, xs)) == ClassOf(AggrList(grav, max, ys))
  {
    SameClassCounts(xs, ys);
    ClassOfAggr(grav, max, xs);
    ClassOfAggr(grav, max, ys);
  }

  lemma {:induction false} SameClassCounts(xs: seq<Status>, ys: seq<Status>)
    requires |xs| == |ys| && forall i :: 0 <= i < |xs| ==> ClassOf(xs[i]) == ClassOf(ys[i])
    ensures Histogram(xs)[UNKNOWN] == Histogram(ys)[UNKNOWN]
    ensures Histogram(xs)[CLEAR] == Histogram(ys)[CLEAR]
  {
    if xs != [] {
      SameClassCounts(xs[..|xs| - 1], ys[..|ys| - 1]);
    }
  }

  /** Aggregates stay within the statuses that may occur. */
  lemma AggrBound(grav: Gravity, max: Status, hi: Status, xs: seq<Status>)
    requires CLEAR <= hi <= max && UpTo(xs, hi)
    ensures AggrList(grav, max, xs) <= hi
  {
    BetweenCap(xs, hi);
    assert UpTo(xs, max);
    BetweenCap(xs, max);
    HistogramCounts(xs, AggrList(grav, max, xs));
    AggrCountsBound(grav, |xs|, max, hi, Histogram(xs));
  }

  lemma AggrCountsBound(grav: Gravity, tot: nat, max: Status, hi: Status, c: Counts)
    requires CLEAR <= hi <= max
    requires Between(c, CLEAR, hi) + c[UNKNOWN] == Between(c, CLEAR, max) + c[UNKNOWN] == tot
    requires var r := Aggr(grav, tot, max, c); c[r] > 0 ==> r <= hi
    ensures Aggr(grav, tot, max, c) <= hi
  {
    match grav {
      case Dn => HighestIsMax(c, max);
      case Up => LowestIsMin(c, CLEAR, max);
      case _ => ReachingAtMost(c, Majority(tot - c[UNKNOWN]), max, hi);
    }
  }
}
