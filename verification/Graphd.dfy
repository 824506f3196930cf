/** The graph file: three rings of fixed-size records behind a header, for samples, hours and days. */
module Graphd {
  import opened Wrappers
  import opened Bytes
  import opened Cbuf

  const HdrSize := 1024
  const SampSize := 20
  const SummySize := 32
  const NMax := 1024
  const SampStart := HdrSize
  const HourStart := SampStart + SampSize * NMax
  const DayStart := HourStart + SummySize * NMax

  function FromSeconds(t: nat): U32 {
    t / 4 % 0x1_0000_0000
  }

  function ToSeconds(t: U32): nat {
    t * 4
  }

  // Stored floats are bit patterns; what the hardware does with them is a parameter.
  datatype Floats = Floats(
    zero: U32,
    of: nat -> U32,
    less: (U32, U32) -> bool,
    add: (U32, U32) -> U32,
    sub: (U32, U32) -> U32,
    mul: (U32, U32) -> U32,
    div: (U32, U32) -> U32,
    sqrt: U32 -> U32)

  // Local wall-clock day and hour of a time.
  datatype Calendar = Calendar(day: nat -> int, hour: nat -> int)

  datatype Point = Point(when: nat, status: U32, val: U32, exp: U32, delt: U32)

  function EncPoint(p: Point): (b: seq<Byte>)
    ensures |b| == SampSize
  {
    EncWords([FromSeconds(p.when), p.status, p.val, p.exp, p.delt])
  }

  // ---- the accumulators of a header section ----

  datatype Acc = Acc(nsamp: nat, min: U32, max: U32, sigm: U32, sigm2: U32, exp: U32, delt: U32, status: U32)

  function Empty(fl: Floats): Acc {
    Acc(0, fl.zero, fl.zero, fl.zero, fl.zero, fl.zero, fl.zero, 0)
  }

  function Reset(fl: Floats, val: U32): Acc {
    Acc(0, val, val, fl.zero, fl.zero, fl.zero, fl.zero, 0)
  }

  function Gather(fl: Floats, a: Acc, p: Point): Acc {
    Acc(a.nsamp + 1,
        if fl.less(p.val, a.min) then p.val else a.min,
        if fl.less(a.max, p.val) then p.val else a.max,
        fl.add(a.sigm, p.val),
        fl.add(a.sigm2, fl.mul(p.val, p.val)),
        fl.add(a.exp, p.exp),
        fl.add(a.delt, p.delt),
        if p.status > a.status then p.status else a.status)
  }

  function GatherAll(fl: Floats, a: Acc, ps: seq<Point>): Acc {
    if ps == [] then a else Gather(fl, GatherAll(fl, a, ps[..|ps| - 1]), ps[|ps| - 1])
  }

  function EncSummary(fl: Floats, a: Acc, lastt: U32): (b: seq<Byte>)
    ensures |b| == SummySize
  {
    var n := fl.of(a.nsamp);
    var ave := fl.div(a.sigm, n);
    var std := fl.sub(fl.div(a.sigm2, n), fl.mul(ave, ave));
    EncWords([lastt, a.status, a.min, a.max, ave,
              if fl.less(fl.zero, std) then fl.sqrt(std) else fl.zero,
              fl.div(a.exp, n), fl.div(a.delt, n)])
  }

  // ---- what the history of samples dictates ----

  /** The samples cut where the hour, or the day, changes. The time of the last sample is known to 4 seconds. */
  function Periods(unit: nat -> int, hist: seq<Point>): (ps: seq<seq<Point>>)
    ensures hist == [] <==> ps == []
    ensures forall i :: 0 <= i < |ps| ==> ps[i] != []
  {
    if hist == [] then []
    else
      var k := |hist| - 1;
      var ps := Periods(unit, hist[..k]);
      if k == 0 || unit(ToSeconds(FromSeconds(hist[k - 1].when))) != unit(hist[k].when)
      then ps + [[hist[k]]]
      else ps[..|ps| - 1] + [ps[|ps| - 1] + [hist[k]]]
  }

  /** The sums over one period; all but the first start from the period's first value. */
  function PeriodAcc(fl: Floats, ps: seq<seq<Point>>, i: nat): Acc
    requires i < |ps| && ps[i] != []
  {
    GatherAll(fl, if i == 0 then Empty(fl) else Reset(fl, ps[i][0].val), ps[i])
  }

  /** One record for each period that is over, stamped with the time of its last sample. */
  function Summaries(fl: Floats, unit: nat -> int, hist: seq<Point>): (rs: seq<seq<Byte>>)
    ensures |rs| == if hist == [] then 0 else |Periods(unit, hist)| - 1
    ensures forall i :: 0 <= i < |rs| ==> |rs[i]| == SummySize
  {
    Over(fl, Periods(unit, hist))
  }

  function Over(fl: Floats, ps: seq<seq<Point>>): (rs: seq<seq<Byte>>)
    requires forall i :: 0 <= i < |ps| ==> ps[i] != []
    ensures |rs| == if ps == [] then 0 else |ps| - 1
    ensures forall i :: 0 <= i < |rs| ==> |rs[i]| == SummySize
  {
    if ps == [] then []
    else
      seq(|ps| - 1, i requires 0 <= i < |ps| - 1 =>
        EncSummary(fl, PeriodAcc(fl, ps, i), FromSeconds(ps[i][|ps[i]| - 1].when)))
  }

  lemma OverMore(fl: Floats, ps: seq<seq<Point>>, q: seq<Point>)
    requires q != [] && ps != [] && forall i :: 0 <= i < |ps| ==> ps[i] != []
    ensures var k := |ps| - 1;
            Over(fl, ps + [q]) == Over(fl, ps) + [EncSummary(fl, PeriodAcc(fl, ps, k), FromSeconds(ps[k][|ps[k]| - 1].when))]
  {
    forall i | 0 <= i < |ps| ensures (ps + [q])[i] == ps[i] && PeriodAcc(fl, ps + [q], i) == PeriodAcc(fl, ps, i) {
    }
  }

  lemma OverSame(fl: Floats, ps: seq<seq<Point>>, q: seq<Point>)
    requires q != [] && ps != [] && forall i :: 0 <= i < |ps| ==> ps[i] != []
    ensures Over(fl, ps[..|ps| - 1] + [q]) == Over(fl, ps)
  {
  }

  function Running(fl: Floats, unit: nat -> int, hist: seq<Point>): Acc {
    var ps := Periods(unit, hist);
    if ps == [] then Empty(fl) else PeriodAcc(fl, ps, |ps| - 1)
  }

  function LastTime(hist: seq<Point>): U32 {
    if hist == [] then 0 else FromSeconds(hist[|hist| - 1].when)
  }

  function Flatten(ps: seq<seq<Point>>): seq<Point> {
    if ps == [] then [] else Flatten(ps[..|ps| - 1]) + ps[|ps| - 1]
  }

  lemma FlattenExtended(ps: seq<seq<Point>>, p: Point)
    requires ps != []
    ensures Flatten(ps[..|ps| - 1] + [ps[|ps| - 1] + [p]]) == Flatten(ps) + [p]
  {
    var qs := ps[..|ps| - 1] + [ps[|ps| - 1] + [p]];
    assert qs[..|qs| - 1] == ps[..|ps| - 1];
    var a, b := Flatten(ps[..|ps| - 1]), ps[|ps| - 1];
    assert a + (b + [p]) == a + b + [p];
  }

  /** Whether a new sample closes the running period. */
  predicate Closes(unit: nat -> int, hist: seq<Point>, p: Point) {
    hist != [] && unit(ToSeconds(LastTime(hist))) != unit(p.when)
  }

  function GrownPeriods(unit: nat -> int, hist: seq<Point>, p: Point): seq<seq<Point>> {
    var ps := Periods(unit, hist);
    if hist == [] || Closes(unit, hist, p) then ps + [[p]]
    else ps[..|ps| - 1] + [ps[|ps| - 1] + [p]]
  }

  lemma PeriodsGrow(unit: nat -> int, hist: seq<Point>, p: Point)
    ensures Periods(unit, hist + [p]) == GrownPeriods(unit, hist, p)
  {
    assert (hist + [p])[..|hist|] == hist;
  }

  /** Every sample belongs to exactly one period, in order. */
  lemma {:induction false} PeriodsPartition(unit: nat -> int, hist: seq<Point>)
    ensures Flatten(Periods(unit, hist)) == hist
  {
    if hist != [] {
      var init, p := hist[..|hist| - 1], hist[|hist| - 1];
      assert hist == init + [p];
      PeriodsPartition(unit, init);
      PeriodsGrow(unit, init, p);
      var ps := Periods(unit, init);
      if init == [] || Closes(unit, init, p) {
        assert (ps + [[p]])[..|ps|] == ps;
      } else {
        FlattenExtended(ps, p);
      }
    }
  }

  lemma OneGathered(fl: Floats, a: Acc, ps: seq<Point>, p: Point)
    ensures GatherAll(fl, a, ps + [p]) == Gather(fl, GatherAll(fl, a, ps), p)
  {
    assert (ps + [p])[..|ps|] == ps;
  }

  /** A new sample either joins the running period ... */
  lemma RunningGrows(fl: Floats, unit: nat -> int, hist: seq<Point>, p: Point)
    ensures Running(fl, unit, hist + [p]) ==
      Gather(fl, if Closes(unit, hist, p) then Reset(fl, p.val) else Running(fl, unit, hist), p)
  {
    PeriodsGrow(unit, hist, p);
    var ps: seq<seq<Point>> := Periods(unit, hist);
    if hist == [] {
      OneGathered(fl, Empty(fl), [], p);
      assert [] + [p] == [p];
    } else if Closes(unit, hist, p) {
      OneGathered(fl, Reset(fl, p.val), [], p);
      assert [] + [p] == [p];
    } else {
      var k: nat := |ps| - 1;
      OneGathered(fl, if k == 0 then Empty(fl) else Reset(fl, ps[k][0].val), ps[k], p);
    }
  }

  /** ... or closes it with one more record. */
  lemma SummariesGrow(fl: Floats, unit: nat -> int, hist: seq<Point>, p: Point)
    ensures Summaries(fl, unit, hist + [p]) ==
      Summaries(fl, unit, hist)
      + if Closes(unit, hist, p) then [EncSummary(fl, Running(fl, unit, hist), LastTime(hist))] else []
  {
    PeriodsGrow(unit, hist, p);
    var ps := Periods(unit, hist);
    if hist == [] {
      assert Over(fl, ps + [[p]]) == [];
    } else if Closes(unit, hist, p) {
      LastOfLast(unit, hist);
      OverMore(fl, ps, [p]);
    } else {
      OverSame(fl, ps, ps[|ps| - 1] + [p]);
    }
  }

  lemma LastOfLast(unit: nat -> int, hist: seq<Point>)
    requires hist != []
    ensures var ps := Periods(unit, hist); var l := ps[|ps| - 1]; l[|l| - 1] == hist[|hist| - 1]
  {
  }

  // ---- periods that span more than one hour or day ----

  /** The code compares the hour of the clock and the day of the month; `stamp` numbers the hours, or days, themselves. */
  ghost predicate Spans(stamp: nat -> int, ps: seq<Point>) {
    exists i, j :: 0 <= i < |ps| && 0 <= j < |ps| && stamp(ps[i].when) != stamp(ps[j].when)
  }

  ghost predicate SomeSpans(stamp: nat -> int, pss: seq<seq<Point>>) {
    exists i :: 0 <= i < |pss| && Spans(stamp, pss[i])
  }

  /** A sample that does not close the period although its hour, or day, is another one than that of the sample before. */
  ghost predicate Slips(unit: nat -> int, stamp: nat -> int, hist: seq<Point>, i: nat)
    requires 0 < i < |hist|
  {
    !Closes(unit, hist[..i], hist[i]) && stamp(hist[i - 1].when) != stamp(hist[i].when)
  }

  ghost predicate SomeSlips(unit: nat -> int, stamp: nat -> int, hist: seq<Point>) {
    exists i: nat :: 0 < i < |hist| && Slips(unit, stamp, hist, i)
  }

  /** A period, and so a summary, spans two hours, or days, exactly if two samples in a row have different ones that
      the comparison takes for the same. */
  lemma {:induction false} SpansExactly(unit: nat -> int, stamp: nat -> int, hist: seq<Point>)
    ensures SomeSpans(stamp, Periods(unit, hist)) <==> SomeSlips(unit, stamp, hist)
  {
    if hist != [] {
      var k := |hist| - 1;
      var init, p := hist[..k], hist[k];
      assert hist == init + [p];
      SpansExactly(unit, stamp, init);
      PeriodsGrow(unit, init, p);
      SlipsMore(unit, stamp, hist);
      if init != [] {
        LastOfLast(unit, init);
      }
      SpansMore(unit, stamp, init, p);
    }
  }

  lemma SlipsMore(unit: nat -> int, stamp: nat -> int, hist: seq<Point>)
    requires hist != []
    ensures var k := |hist| - 1;
            SomeSlips(unit, stamp, hist) <==> SomeSlips(unit, stamp, hist[..k]) || (k > 0 && Slips(unit, stamp, hist, k))
  {
    var k := |hist| - 1;
    forall i: nat | 0 < i < k ensures Slips(unit, stamp, hist, i) <==> Slips(unit, stamp, hist[..k], i) {
      assert hist[..k][..i] == hist[..i];
    }
  }

  /** One more sample makes the last period span exactly if it slips into it, or it did so already. */
  lemma SpansMore(unit: nat -> int, stamp: nat -> int, init: seq<Point>, p: Point)
    ensures SomeSpans(stamp, GrownPeriods(unit, init, p))
        <==> SomeSpans(stamp, Periods(unit, init))
             || (init != [] && !Closes(unit, init, p) && stamp(init[|init| - 1].when) != stamp(p.when))
  {
    var ps, qs := Periods(unit, init), GrownPeriods(unit, init, p);
    if init == [] || Closes(unit, init, p) {
      OneMorePeriod(stamp, ps, [p]);
    } else {
      var k := |ps| - 1;
      LastOfLast(unit, init);
      assert ps == ps[..k] + [ps[k]];
      OneMorePeriod(stamp, ps[..k], ps[k]);
      OneMorePeriod(stamp, ps[..k], ps[k] + [p]);
      OneMoreSample(stamp, ps[k], p);
    }
  }

  lemma OneMorePeriod(stamp: nat -> int, ps: seq<seq<Point>>, q: seq<Point>)
    ensures SomeSpans(stamp, ps + [q]) <==> SomeSpans(stamp, ps) || Spans(stamp, q)
  {
    forall i | 0 <= i < |ps| ensures (ps + [q])[i] == ps[i] {
    }
    assert (ps + [q])[|ps|] == q;
  }

  lemma OneMoreSample(stamp: nat -> int, q: seq<Point>, p: Point)
    requires q != []
    ensures Spans(stamp, q + [p]) <==> Spans(stamp, q) || stamp(q[|q| - 1].when) != stamp(p.when)
  {
    var r, k := q + [p], |q| - 1;
    assert r[k] == q[k] && r[k + 1] == p;
    forall i | 0 <= i < |q| ensures r[i] == q[i] {
    }
  }

  const HOUR := 3600

  const MINUTE := 60

  /** For the hours of a clock that is set some minutes from Greenwich, and not changed, that means: the same hour, some
      days later. */
  lemma HourSlips(zone: nat, hist: seq<Point>, i: nat)
    requires 0 < i < |hist| && hist[i - 1].when <= hist[i].when < 4 * 0x1_0000_0000
    ensures var stamp := (t: nat) => (t + zone * MINUTE) / HOUR;
            var unit := (t: nat) => stamp(t) % 24;
            Slips(unit, stamp, hist, i)
            <==> exists n: nat :: n > 0 && stamp(hist[i].when) == stamp(hist[i - 1].when) + 24 * n
  {
    var a, b := hist[i - 1].when, hist[i].when;
    RoundedHour(a, zone);
    var x, y := (a + zone * MINUTE) / HOUR, (b + zone * MINUTE) / HOUR;
    assert x <= y;
    if x % 24 == y % 24 && x != y {
      assert y == x + 24 * (y / 24 - x / 24);
    }
    assert hist[..i][|hist[..i]| - 1] == hist[i - 1];
  }

  /** The hour of a clock that goes back by one at some time. */
  function ClockHour(zone: nat, change: nat, t: nat): int {
    (t + zone * MINUTE + if t < change then HOUR else 0) / HOUR % 24
  }

  /** When clocks go back, two hours in a row have the same name, and samples of both get one summary. */
  lemma ClocksBack(zone: nat, change: nat, hist: seq<Point>)
    requires |hist| == 2 && change <= hist[1].when < change + HOUR && hist[1].when == hist[0].when + HOUR
    requires hist[1].when < 4 * 0x1_0000_0000
    ensures var hour := (t: nat) => ClockHour(zone, change, t);
            |Periods(hour, hist)| == 1 && SomeSpans((t: nat) => (t + zone * MINUTE) / HOUR, Periods(hour, hist))
  {
    var hour, stamp := (t: nat) => ClockHour(zone, change, t), (t: nat) => (t + zone * MINUTE) / HOUR;
    var a := hist[0].when;
    RoundedHour(a, zone + MINUTE);
    HourOn(a + zone * MINUTE);
    assert hist[..1] == [hist[0]];
    PeriodsGrow(hour, hist[..1], hist[1]);
    assert hist == hist[..1] + [hist[1]];
    PeriodsGrow(hour, [], hist[0]);
    assert [] + [hist[0]] == hist[..1];
    assert hour(ToSeconds(FromSeconds(a))) == hour(hist[1].when);
    assert Slips(hour, stamp, hist, 1);
    SpansExactly(hour, stamp, hist);
  }

  lemma HourOn(x: nat)
    ensures (x + HOUR) / HOUR == x / HOUR + 1
  {
  }

  lemma RoundedHour(t: nat, zone: nat)
    requires t < 4 * 0x1_0000_0000
    ensures (ToSeconds(FromSeconds(t)) + zone * MINUTE) / HOUR == (t + zone * MINUTE) / HOUR
  {
    SmallTime(t);
    Aligned(t, zone * 15);
    QuarterHour(t + zone * MINUTE);
  }

  lemma SmallTime(t: nat)
    requires t < 4 * 0x1_0000_0000
    ensures ToSeconds(FromSeconds(t)) == t / 4 * 4
  {
  }

  lemma Aligned(t: nat, m: nat)
    ensures t / 4 * 4 + 4 * m == (t + 4 * m) / 4 * 4
  {
  }

  lemma QuarterHour(x: nat)
    ensures x / 4 * 4 / HOUR == x / HOUR
  {
    var q, r := x / HOUR, x % HOUR;
    assert x / 4 * 4 == q * HOUR + r / 4 * 4;
  }

  // ---- rings of records ----

  function Slot(j: nat): nat {
    j % NMax
  }

  type RecordSize = n: nat | n == SampSize || n == SummySize witness SampSize

  /** Where a slot of the ring at `start` is in the file. */
  function Offset(start: nat, size: RecordSize, slot: nat): nat {
    start + if size == SampSize then SampSize * slot else SummySize * slot
  }

  ghost predicate AllSized(items: seq<seq<Byte>>, size: nat) {
    forall j :: 0 <= j < |items| ==> |items[j]| == size
  }

  /** The file has the last NMax of `items` in the ring at `start`, each in its slot, and nothing in the slots not used
      yet. */
  ghost predicate RingHolds(data: seq<Byte>, start: nat, size: RecordSize, idx: nat, count: nat, items: seq<seq<Byte>>) {
    && AllSized(items, size)
    && idx == Slot(|items|) && count == (if |items| < NMax then |items| else NMax)
    && (forall j :: 0 <= j < |items| && |items| - j <= NMax ==> Holds(data, Offset(start, size, Slot(j)), items[j]))
    && Vacant(data, Offset(start, size, |items|), Offset(start, size, NMax))
  }

  function Bumped(count: nat): nat {
    if count + 1 > NMax then NMax else count + 1
  }

  /** The n-th record is written where the oldest one was. */
  lemma RingAppends(data: seq<Byte>, start: nat, size: RecordSize, idx: nat, count: nat, items: seq<seq<Byte>>,
                    b: seq<Byte>)
    requires RingHolds(data, start, size, idx, count, items) && |b| == size
    ensures RingHolds(Patched(data, Offset(start, size, idx), b), start, size, (idx + 1) % NMax, Bumped(count),
                      items + [b])
  {
    var data', items' := Patched(data, Offset(start, size, idx), b), items + [b];
    forall j | 0 <= j < |items'| && |items'| - j <= NMax
      ensures Holds(data', Offset(start, size, Slot(j)), items'[j])
    {
      if j < |items| {
        OldStays(data, start, size, idx, count, items, b, j);
      }
    }
    NextFree(|items|);
    if |items| < NMax {
      VacantElsewhere(data, Offset(start, size, idx), b, Offset(start, size, |items| + 1), Offset(start, size, NMax));
    }
  }

  lemma NextFree(n: nat)
    ensures (Slot(n) + 1) % NMax == Slot(n + 1)
  {
  }

  lemma OldStays(data: seq<Byte>, start: nat, size: RecordSize, idx: nat, count: nat, items: seq<seq<Byte>>,
                 b: seq<Byte>, j: nat)
    requires RingHolds(data, start, size, idx, count, items) && |b| == size && j < |items| < j + NMax
    ensures Holds(Patched(data, Offset(start, size, idx), b), Offset(start, size, Slot(j)), items[j])
  {
    assert Holds(data, Offset(start, size, Slot(j)), items[j]);
    SlotsApart(j, |items|);
    PatchedElsewhere(data, Offset(start, size, idx), b, Offset(start, size, Slot(j)), size);
  }

  lemma SlotsApart(j: nat, n: nat)
    requires j < n < j + NMax
    ensures Slot(j) < Slot(n) || Slot(n) < Slot(j)
  {
  }

  /** A write outside the ring leaves it alone. */
  lemma RingElsewhere(data: seq<Byte>, start: nat, size: RecordSize, idx: nat, count: nat, items: seq<seq<Byte>>,
                      pos: nat, b: seq<Byte>)
    requires RingHolds(data, start, size, idx, count, items)
    requires pos + |b| <= start || Offset(start, size, NMax) <= pos
    ensures RingHolds(Patched(data, pos, b), start, size, idx, count, items)
  {
    forall j | 0 <= j < |items| && |items| - j <= NMax
      ensures Holds(Patched(data, pos, b), Offset(start, size, Slot(j)), items[j])
    {
      assert Holds(data, Offset(start, size, Slot(j)), items[j]);
      PatchedElsewhere(data, pos, b, Offset(start, size, Slot(j)), size);
    }
    VacantElsewhere(data, pos, b, Offset(start, size, |items|), Offset(start, size, NMax));
  }
}
