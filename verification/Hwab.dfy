/** Housekeeping of the Holt-Winters buckets: filling gaps, smoothing, and centring, over exact reals. */
module Hwab {

  /** Buckets are arranged in a circle. */
  function Idx(i: int, n: int): int
    requires n == 1 || (n > 0 && -n <= i < 2 * n)
    ensures 0 <= Idx(i, n) < n
    ensures 0 <= i < n ==> Idx(i, n) == i
    ensures n <= i < 2 * n ==> Idx(i, n) == i - n
    ensures -n <= i < 0 ==> Idx(i, n) == i + n
  {
    if n == 1 then 0 else if i < 0 then i + n else if i < n then i else i - n
  }

  /** The straight line from `a` at `l` to `b` at `r`, at `i`. */
  function Line(l: int, a: real, r: int, b: real, i: int): real
    requires l < r
  {
    (a * (r - i) as real + b * (i - l) as real) / (r - l) as real
  }

  /** Going on from a point of a line towards its end, `r` steps after the next point, stays on the line. */
  lemma LineGoesOn(l: int, a: real, i: int, r: nat, b: real, y: real)
    requires l <= i && y == Line(l, a, i + 1 + r, b, i) && r > 0
    ensures Blend(y, r, b, 1) == Line(l, a, i + 1 + r, b, i + 1)
  {
    var n, k := (i + 1 + r - l) as real, (1 + r) as real;
    assert y * n == a * k + b * (n - k);
    LineStep(y, a, b, n, k);
    assert k - 1.0 == r as real && n - k + 1.0 == (i + 1 - l) as real;
  }

  /** The mean of `x` and `y`, weighted by `r` and `l`. */
  function Blend(x: real, r: nat, y: real, l: nat): real
    requires l + r > 0
  {
    (x * r as real + y * l as real) / (l + r) as real
  }

  lemma LineStep(y: real, a: real, b: real, n: real, k: real)
    requires n > 0.0 && k > 0.0 && y * n == a * k + b * (n - k)
    ensures (y * (k - 1.0) + b) / k == (a * (k - 1.0) + b * (n - k + 1.0)) / n
  {
    var p, q := y * (k - 1.0) + b, a * (k - 1.0) + b * (n - k + 1.0);
    assert p * n == y * n * (k - 1.0) + b * n;
    assert p * n == (a * k + b * (n - k)) * (k - 1.0) + b * n;
    assert q * k == a * k * (k - 1.0) + b * (n - k + 1.0) * k;
    assert (a * k + b * (n - k)) * (k - 1.0) == a * k * (k - 1.0) + b * (n - k) * (k - 1.0);
    assert b * (n - k) * (k - 1.0) + b * n == b * (n - k + 1.0) * k;
    assert p * n == q * k;
    CrossDivide(p, q, n, k);
  }

  lemma CrossDivide(p: real, q: real, n: real, k: real)
    requires n > 0.0 && k > 0.0 && p * n == q * k
    ensures p / k == q / n
  {
    assert p == p / k * k && q == q / n * n;
    assert p / k * k * n == q / n * n * k;
    assert (p / k - q / n) * (k * n) == 0.0;
  }

  /** The last bucket before `i` that holds data. */
  function Left(d: seq<real>, i: nat): (l: nat)
    requires 0 < i <= |d| && d[0] != 0.0
    ensures l < i && d[l] != 0.0 && forall j :: l < j < i ==> d[j] == 0.0
  {
    if d[i - 1] != 0.0 then i - 1 else Left(d, i - 1)
  }

  /** The first bucket from `i` on that holds data. */
  function Right(d: seq<real>, i: nat): (r: nat)
    requires i < |d| && d[|d| - 1] != 0.0
    ensures i <= r < |d| && d[r] != 0.0 && forall j :: i <= j < r ==> d[j] == 0.0
    decreases |d| - i
  {
    if d[i] != 0.0 then i else Right(d, i + 1)
  }

  /** Both ends hold data, and no spread is negative. */
  ghost predicate Enough(d: seq<real>) {
    |d| > 0 && d[0] != 0.0 && d[|d| - 1] != 0.0 && forall i :: 0 <= i < |d| ==> d[i] >= 0.0
  }

  /** Bucket `i` as it should be filled: data stays, a gap takes the straight line between its ends. */
  ghost predicate FilledAt(c0: seq<real>, d0: seq<real>, c: seq<real>, d: seq<real>, i: nat)
    requires |c0| == |d0| == |c| == |d| && i < |d0| && Enough(d0)
  {
    if d0[i] != 0.0 then c[i] == c0[i] && d[i] == d0[i]
    else
      var l, r := Left(d0, i), Right(d0, i);
      c[i] == Line(l, c0[l], r, c0[r], i) && d[i] == d0[l] + d0[r]
  }

  class HWAB {
    var Lap: nat
    var Count: nat
    var A: real
    var B: real
    var C: array<real>
    var D: array<real>
    var yn: real      // the forecasts: value, spread and season
    var dn: real
    var cn: real
    const buckets: nat
    const k: Knobs

    ghost predicate Valid()
      reads this
    {
      C != D && C.Length == D.Length == buckets && buckets > 0
    }

    /** A new series holds no data. */
    constructor (buckets: nat, k: Knobs)
      requires buckets > 0
      ensures Valid() && this.buckets == buckets && this.k == k && fresh(C) && fresh(D)
      ensures Blank(buckets, State())
    {
      this.buckets, this.k := buckets, k;
      Lap, Count, A, B, yn, dn, cn := 0, 0, 0.0, 0.0, 0.0, 0.0, 0.0;
      C, D := new real[buckets](_ => 0.0), new real[buckets](_ => 0.0);
    }

    /** Do the first and the last bucket hold data? */
    method CheckEnough() returns (enough: bool)
      requires Valid()
      ensures enough <==> D[0] != 0.0 && D[buckets - 1] != 0.0
    {
      if D[0] == 0.0 || D[buckets - 1] == 0.0 {
        return false;
      }
      return true;
    }

    /** Steps to the left, counted from 0, until a bucket holds data. */
    method StepsLeft(si: nat) returns (l: nat)
      requires Valid() && 0 < si < buckets && D[si] == 0.0 && D[si - 1] != 0.0
      ensures l == 1
    {
      l := 0;
      while l < buckets
        invariant l <= 1
      {
        if D[Idx(si - l, buckets)] != 0.0 {
          break;
        }
        l := l + 1;
      }
    }

    method StepsRight(si: nat, ghost d0: seq<real>) returns (r: nat)
      requires Valid() && si < buckets && |d0| == buckets && Enough(d0)
      requires forall j :: si <= j < buckets ==> D[j] == d0[j]
      ensures si + r == Right(d0, si)
    {
      r := 0;
      while r < buckets
        invariant si + r <= Right(d0, si)
      {
        if D[Idx(si + r, buckets)] != 0.0 {
          break;
        }
        r := r + 1;
      }
    }

    /** Fill the gaps, from left to right, in place. */
    method Interpolate()
      requires Valid() && Enough(D[..])
      modifies C, D
      ensures Filled(old(C[..]), old(D[..]), C[..], D[..])
      ensures forall i :: 0 <= i < buckets ==> D[i] > 0.0
    {
      ghost var c0, d0 := C[..], D[..];
      var li: nat := 0;
      for si := 0 to buckets
        invariant C != D && C.Length == D.Length == buckets
        invariant forall i :: 0 <= i < si ==> FilledAt(c0, d0, C[..], D[..], i) && D[i] > 0.0
        invariant forall i :: si <= i < buckets ==> C[i] == c0[i] && D[i] == d0[i]
        invariant li == if si == 0 then 0 else Left(d0, si)
      {
        if D[si] != 0.0 {
          li := si;
          continue;
        }
        FillOne(si, li, c0, d0);
      }
    }

    method FillOne(si: nat, li: nat, ghost c0: seq<real>, ghost d0: seq<real>)
      requires Valid() && 0 < si < buckets && |c0| == |d0| == buckets && Enough(d0)
      requires d0[si] == 0.0 && li == Left(d0, si)
      requires forall i :: 0 <= i < si ==> FilledAt(c0, d0, C[..], D[..], i) && D[i] > 0.0
      requires forall i :: si <= i < buckets ==> C[i] == c0[i] && D[i] == d0[i]
      modifies C, D
      ensures forall i :: 0 <= i < buckets && i != si ==> C[i] == old(C[i]) && D[i] == old(D[i])
      ensures FilledAt(c0, d0, C[..], D[..], si) && D[si] > 0.0
    {
      var l := StepsLeft(si);
      var r := StepsRight(si, d0);
      NextOnLine(c0, d0, C[..], D[..], si, r);
      var c := Blend(C[Idx(si - l, buckets)], r, C[Idx(si + r, buckets)], l);
      var d := D[Idx(li, buckets)] + D[Idx(si + r, buckets)];
      C[si], D[si] := c, d;
    }

    /** Replace every bucket by a weighted mean over the buckets around it that hold data. */
    method Smooth(w: int -> real)
      requires Valid() && forall i :: w(i) > 0.0
      modifies this`C, this`D
      ensures Valid() && fresh(C) && fresh(D)
      ensures forall si :: 0 <= si < buckets ==>
        SmoothedAt(w, old(C[..]), old(D[..]), si, C[si], D[si])
    {
      var c, d := new real[buckets](_ => 0.0), new real[buckets](_ => 0.0);
      for si := 0 to buckets
        invariant c.Length == d.Length == buckets && c != d && Valid() && c != C && c != D && d != C && d != D
        invariant C[..] == old(C[..]) && D[..] == old(D[..])
        invariant forall j :: 0 <= j < si ==> SmoothedAt(w, C[..], D[..], j, c[j], d[j])
        invariant forall j :: si <= j < buckets ==> c[j] == d[j] == 0.0
      {
        var ctot, dtot, wtot := Gather(w, si);
        if wtot == 0.0 {
          continue;
        }
        c[si], d[si] := ctot / wtot, dtot / wtot;
      }
      C, D := c, d;
    }

    /** Add up the window around a bucket. */
    method Gather(w: int -> real, si: nat) returns (ctot: real, dtot: real, wtot: real)
      requires Valid() && si < buckets
      ensures var k := Window(buckets) + 1;
              && ctot == Weighted(w, C[..], D[..], si, k) && dtot == Weighted(w, D[..], D[..], si, k)
              && wtot == Weights(w, D[..], si, k)
    {
      var wsize := Window(buckets);
      ctot, dtot, wtot := 0.0, 0.0, 0.0;
      var i := -wsize;
      while i <= wsize
        invariant -wsize <= i <= wsize + 1
        invariant ctot == Weighted(w, C[..], D[..], si, i)
        invariant dtot == Weighted(w, D[..], D[..], si, i)
        invariant wtot == Weights(w, D[..], si, i)
      {
        var sj := Near(buckets, si, i);
        i := i + 1;
        if D[sj] == 0.0 {
          continue;
        }
        ctot := ctot + w(i - 1) * C[sj];
        dtot := dtot + w(i - 1) * D[sj];
        wtot := wtot + w(i - 1);
      }
    }

    /** Move the mean of C into A. */
    method Normalize()
      requires Valid()
      modifies this`A, C
      ensures Total(C[..]) == 0.0
      ensures forall i :: 0 <= i < buckets ==> A + C[i] == old(A) + old(C[i])
    {
      var ctot := 0.0;
      for i := 0 to buckets
        invariant ctot == Total(C[..i])
      {
        ctot := ctot + C[i];
        assert C[..i + 1][..i] == C[..i];
      }
      assert C[..buckets] == C[..];
      ghost var c0 := C[..];
      var cm := ctot / buckets as real;
      MeanTimes(ctot, buckets);
      Lower(cm);
      A := A + cm;
      Shifted(c0, C[..], cm);
    }

    /** Take a number off every bucket. */
    method Lower(m: real)
      requires Valid()
      modifies C
      ensures forall i :: 0 <= i < buckets ==> C[i] == old(C[i]) - m
    {
      for i := 0 to buckets
        invariant Valid()
        invariant forall j :: 0 <= j < buckets ==> C[j] == old(C[j]) - if j < i then m else 0.0
      {
        C[i] := C[i] - m;
      }
    }

    /** What the first value of a period does before it is taken in: gaps are filled after the first period, if
        it has data enough; later periods start with smoothing. */
    method TurnPeriod(si: nat, w: int -> real)
      requires Valid() && forall i :: w(i) > 0.0
      requires forall i :: 0 <= i < buckets ==> D[i] >= 0.0
      modifies this`Lap, this`Count, this`A, this`C, this`D, C, D
      ensures Valid()
      ensures (C == old(C) || fresh(C)) && (D == old(D) || fresh(D))
      ensures Turned(w, si, old(State()), State())
    {
      ghost var c0, d0 := C[..], D[..];
      if si == 0 && Count > 0 {
        Lap := Lap + 1;
      }
      assert C[..] == c0 && D[..] == d0;
      if Lap == 1 && si == 0 {
        var enough := CheckEnough();
        if enough {
          Interpolate();
          assert Filled(c0, d0, C[..], D[..]);
        } else {
          Lap, Count := 0, 0;
        }
      }
      if si == 0 && Lap > 1 {
        assert C[..] == c0 && D[..] == d0;
        Smooth(w);
        ghost var c, d := C[..], D[..];
        assert Smoothed(w, c0, d0, c, d);
        Normalize();
        assert D[..] == d && Centred(old(A), c, A, C[..]);
      }
    }

    ghost function State(): Series
      reads this, C, D
    {
      Series(Lap, Count, A, B, C[..], D[..], yn, dn, cn)
    }

    /** Take in the mean and the spread of a few minutes. */
    method Add(ave: real, sdv: real, si: nat, w: int -> real)
      requires Valid() && si < buckets && forall i :: w(i) > 0.0
      requires forall i :: 0 <= i < buckets ==> D[i] >= 0.0
      modifies this`Lap, this`Count, this`A, this`B, this`C, this`D, this`yn, this`dn, this`cn, C, D
      ensures Valid()
      ensures Added(w, k, old(State()), ave, sdv, si, State())
    {
      TurnPeriod(si, w);
      ghost var turned := State();
      if Lap == 0 {
        Bootstrap1(ave, sdv, si);
      } else if Lap == 1 {
        Bootstrap2(ave, sdv, si);
      } else {
        Hw(ave, sdv, si);
      }
      Count := Count + 1;
      assert State() == Learnt(k, turned, ave, sdv, si);
    }

    /** The first period. */
    method Bootstrap1(ave: real, sdv: real, si: nat)
      requires Valid() && si < buckets
      modifies this`A, this`B, this`yn, this`dn, this`cn, C, D
      ensures State() == First(k, old(State()), ave, sdv, si)
    {
      ghost var was := State();
      var sp := Idx(si - 1, buckets);
      var c, d := C[sp], D[sp];
      if d == 0.0 {
        c, d := ave, sdv;
      }
      var at := ave;
      var dx := sdv + Abs(ave - c);
      if dx == 0.0 {
        dx := k.root(ave);
      }
      var dt := (dx + 3.0 * d) / 4.0;
      A, B := 0.0, 0.0;
      C[si], D[si] := at, dt;
      yn, cn, dn := 2.0 * at - c, at, dt;
      assert C[..] == was.c[si := at] && D[..] == was.d[si := dt];
    }

    /** The second period. */
    method Bootstrap2(ave: real, sdv: real, si: nat)
      requires Valid() && si < buckets
      modifies this`A, this`B, this`yn, this`dn, this`cn, C, D
      ensures State() == Second(k, old(State()), ave, sdv, si)
    {
      ghost var was := State();
      var sp, sn := Idx(si - 1, buckets), Idx(si + 1, buckets);
      var c, d := C[si], D[si];
      var dp := D[sp];
      if d == 0.0 {
        d := dp;
        if dp == 0.0 {
          d := sdv;
        }
        c := ave - A;
      }
      var y := Ahead(B, buckets as real, c);
      var dx := Abs(ave - y) + sdv;
      if dx == 0.0 {
        dx := k.root(ave);
      }
      var beta, gamma := 1.0 / (si + 1) as real, 0.5;
      var at := Mix(k.alpha, ave - c, A + B);
      var bt := Drift(beta, ave - c, buckets as real, B);
      var ct := ave - at - bt;
      var dt := Mix(gamma, dx, d);
      assert (c, d) == Patched(was, ave, sdv, si);
      Store(si, at, bt, ct, dt);
      cn, yn, dn := ct, ave + bt, D[sn];
    }

    method Store(si: nat, at: real, bt: real, ct: real, dt: real)
      requires Valid() && si < buckets
      modifies this`A, this`B, C, D
      ensures State() == old(State()).(A := at, B := bt, c := old(C[..])[si := ct], d := old(D[..])[si := dt])
    {
      ghost var c, d := C[..], D[..];
      A, B := at, bt;
      C[si], D[si] := ct, dt;
      assert C[..] == c[si := ct] && D[..] == d[si := dt];
    }

    /** Every later one. */
    method Hw(ave: real, sdv: real, si: nat)
      requires Valid() && si < buckets
      modifies this`A, this`B, this`yn, this`dn, this`cn, C, D
      ensures State() == Later(k, old(State()), ave, sdv, si)
    {
      ghost var was := State();
      var sn := Idx(si + 1, buckets);
      var c, d := C[si], D[si];
      var y := A + B + c;
      var dx := Abs(ave - y) + sdv;
      if dx == 0.0 {
        dx := EPSILOND;
      }
      var at := Mix(k.alpha, ave - c, A + B);
      var bt := Mix(k.beta, at - A, B);
      var ct := Mix(k.gamma, ave - at, c);
      var dt := Mix(k.gamma, dx, d);
      Store(si, at, bt, ct, dt);
      cn := C[sn];
      yn, dn := A + B + cn, D[sn];
    }
  }

  /** All there is to a series: which period it is in, how many values it has taken, level and trend, its buckets, and
      its forecasts. */
  datatype Series = Series(lap: nat, count: nat, A: real, B: real, c: seq<real>, d: seq<real>,
                           yn: real, dn: real, cn: real)

  const EPSILOND := 0.0001

  /** Configured weights, and the square root. */
  datatype Knobs = Knobs(alpha: real, beta: real, gamma: real, root: real -> real)

  function Abs(x: real): real {
    if x < 0.0 then -x else x
  }

  function Mix(g: real, x: real, y: real): real {
    g * x + (1.0 - g) * y
  }

  /** The trend, a whole circle's share of a difference mixed in. */
  function Drift(g: real, x: real, n: real, b: real): real
    requires n != 0.0
  {
    g * x / n + (1.0 - g) * b
  }

  /** Where the trend takes a bucket by the next time round. */
  function Ahead(b: real, n: real, c: real): real {
    b * n + c
  }

  /** In the first period a bucket takes the mean, and its spread follows that of the bucket before. */
  function First(k: Knobs, s: Series, ave: real, sdv: real, si: nat): Series
    requires si < |s.c| == |s.d|
  {
    var sp := Idx(si - 1, |s.c|);
    var (c, d) := if s.d[sp] == 0.0 then (ave, sdv) else (s.c[sp], s.d[sp]);
    var gap := sdv + Abs(ave - c);
    var dt := ((if gap == 0.0 then k.root(ave) else gap) + 3.0 * d) / 4.0;
    s.(A := 0.0, B := 0.0, c := s.c[si := ave], d := s.d[si := dt], yn := 2.0 * ave - c, cn := ave, dn := dt)
  }

  /** What a bucket holds, or something in its place. */
  function Patched(s: Series, ave: real, sdv: real, si: nat): (real, real)
    requires si < |s.c| == |s.d|
  {
    var dp := s.d[Idx(si - 1, |s.c|)];
    if s.d[si] != 0.0 then (s.c[si], s.d[si]) else (ave - s.A, if dp == 0.0 then sdv else dp)
  }

  /** In the second one level and trend are estimated. */
  function Second(k: Knobs, s: Series, ave: real, sdv: real, si: nat): Series
    requires si < |s.c| == |s.d|
  {
    var n := |s.c| as real;
    var (c, d) := Patched(s, ave, sdv, si);
    var gap := Abs(ave - Ahead(s.B, n, c)) + sdv;
    var at := Mix(k.alpha, ave - c, s.A + s.B);
    var bt := Drift(1.0 / (si + 1) as real, ave - c, n, s.B);
    var dt := Mix(0.5, if gap == 0.0 then k.root(ave) else gap, d);
    var d' := s.d[si := dt];
    s.(A := at, B := bt, c := s.c[si := ave - at - bt], d := d',
       cn := ave - at - bt, yn := ave + bt, dn := d'[Idx(si + 1, |s.c|)])
  }

  /** Afterwards each value moves level, trend, season and spread a little. */
  function Later(k: Knobs, s: Series, ave: real, sdv: real, si: nat): Series
    requires si < |s.c| == |s.d|
  {
    var gap := Abs(ave - (s.A + s.B + s.c[si])) + sdv;
    var at := Mix(k.alpha, ave - s.c[si], s.A + s.B);
    var bt := Mix(k.beta, at - s.A, s.B);
    var ct := Mix(k.gamma, ave - at, s.c[si]);
    var dt := Mix(k.gamma, if gap == 0.0 then EPSILOND else gap, s.d[si]);
    var c', d', sn := s.c[si := ct], s.d[si := dt], Idx(si + 1, |s.c|);
    s.(A := at, B := bt, c := c', d := d', cn := c'[sn], yn := at + bt + c'[sn], dn := d'[sn])
  }

  /** What a value does to a series once the turn of the period is over. */
  function Learnt(k: Knobs, s: Series, ave: real, sdv: real, si: nat): Series
    requires si < |s.c| == |s.d|
  {
    var s' := if s.lap == 0 then First(k, s, ave, sdv, si)
              else if s.lap == 1 then Second(k, s, ave, sdv, si)
              else Later(k, s, ave, sdv, si);
    s'.(count := s.count + 1)
  }

  ghost predicate Added(w: int -> real, k: Knobs, s: Series, ave: real, sdv: real, si: nat, s': Series)
    requires si < |s.c| == |s.d|
  {
    exists t: Series :: |t.c| == |t.d| == |s.c| && Turned(w, si, s, t) && s' == Learnt(k, t, ave, sdv, si)
  }

  ghost predicate Filled(c0: seq<real>, d0: seq<real>, c: seq<real>, d: seq<real>) {
    && |c0| == |d0| == |c| == |d| && Enough(d0)
    && forall i :: 0 <= i < |d0| ==> FilledAt(c0, d0, c, d, i)
  }

  ghost predicate Smoothed(w: int -> real, c0: seq<real>, d0: seq<real>, c: seq<real>, d: seq<real>) {
    && |c0| == |d0| == |c| == |d|
    && forall i :: 0 <= i < |d0| ==> SmoothedAt(w, c0, d0, i, c[i], d[i])
  }

  /** The mean of the buckets has moved into A. */
  ghost predicate Centred(a0: real, c0: seq<real>, a: real, c: seq<real>) {
    && |c0| == |c| && Total(c) == 0.0
    && forall i :: 0 <= i < |c| ==> a + c[i] == a0 + c0[i]
  }

  /** What the turn of a period makes of a series. */
  ghost predicate Turned(w: int -> real, si: nat, b: Series, b': Series)
    requires |b.c| == |b.d| > 0
  {
    var lap := b.lap + if b.count > 0 then 1 else 0;
    if si != 0 || lap == 0 then b' == b
    else if lap == 1 then
      if b.d[0] == 0.0 || b.d[|b.d| - 1] == 0.0 then b' == b.(lap := 0, count := 0)
      else b' == b.(lap := 1, c := b'.c, d := b'.d) && Filled(b.c, b.d, b'.c, b'.d)
    else
      && b' == b.(lap := lap, A := b'.A, c := b'.c, d := b'.d)
      && exists c :: Smoothed(w, b.c, b.d, c, b'.d) && Centred(b.A, c, b'.A, b'.c)
  }

  // ---- smoothing ----

  /** A twentieth of the circle to each side, at least two buckets. */
  function Window(n: nat): (k: int)
    ensures 2 <= k && (n > 1 ==> k <= n)
  {
    if n / 20 < 2 then 2 else n / 20
  }

  /** The bucket `k` places from `si`. */
  function Near(n: nat, si: nat, k: int): (sj: nat)
    requires si < n && -Window(n) <= k <= Window(n)
    ensures sj < n
  {
    Idx(si + k, n)
  }

  /** The weights of the buckets around `si` that hold data, up to offset `i`. */
  function Weights(w: int -> real, d: seq<real>, si: nat, i: int): real
    requires |d| > 0 && si < |d| && i <= Window(|d|) + 1
    decreases i + Window(|d|)
  {
    if i <= -Window(|d|) then 0.0
    else Weights(w, d, si, i - 1) + if d[Near(|d|, si, i - 1)] == 0.0 then 0.0 else w(i - 1)
  }

  /** Their values, weighted. */
  function Weighted(w: int -> real, x: seq<real>, d: seq<real>, si: nat, i: int): real
    requires |x| == |d| > 0 && si < |d| && i <= Window(|d|) + 1
    decreases i + Window(|d|)
  {
    if i <= -Window(|d|) then 0.0
    else
      var sj := Near(|d|, si, i - 1);
      Weighted(w, x, d, si, i - 1) + if d[sj] == 0.0 then 0.0 else w(i - 1) * x[sj]
  }

  /** The weighted means of the window, or nothing where the window is empty. */
  ghost predicate SmoothedAt(w: int -> real, c0: seq<real>, d0: seq<real>, si: nat, c: real, d: real)
    requires |c0| == |d0| > 0 && si < |d0|
  {
    var i := Window(|d0|) + 1;
    var wtot := Weights(w, d0, si, i);
    if wtot == 0.0 then c == 0.0 && d == 0.0
    else c == Weighted(w, c0, d0, si, i) / wtot && d == Weighted(w, d0, d0, si, i) / wtot
  }

  /** Every bucket with data in the window of `si` has its value between `lo` and `hi`. */
  ghost predicate WindowWithin(x: seq<real>, d: seq<real>, si: nat, lo: real, hi: real)
    requires |x| == |d| > 0 && si < |d|
  {
    forall k :: -Window(|d|) <= k <= Window(|d|) && d[Near(|d|, si, k)] != 0.0 ==> lo <= x[Near(|d|, si, k)] <= hi
  }

  lemma {:induction false} WeightedWithin(w: int -> real, x: seq<real>, d: seq<real>, si: nat, i: int, lo: real, hi: real,
                                          s: real, t: real)
    requires |x| == |d| > 0 && si < |d| && -Window(|d|) <= i <= Window(|d|) + 1
    requires (forall i :: w(i) > 0.0) && WindowWithin(x, d, si, lo, hi)
    requires s == Weighted(w, x, d, si, i) && t == Weights(w, d, si, i)
    ensures lo * t <= s <= hi * t && 0.0 <= t
    decreases i + Window(|d|)
  {
    if i > -Window(|d|) {
      var s', t' := Weighted(w, x, d, si, i - 1), Weights(w, d, si, i - 1);
      WeightedWithin(w, x, d, si, i - 1, lo, hi, s', t');
      OneFurther(w, x, d, si, i, lo, hi, s', t', s, t);
    }
  }

  lemma OneFurther(w: int -> real, x: seq<real>, d: seq<real>, si: nat, i: int, lo: real, hi: real,
                   s: real, t: real, s': real, t': real)
    requires |x| == |d| > 0 && si < |d| && -Window(|d|) < i <= Window(|d|) + 1
    requires w(i - 1) > 0.0 && WindowWithin(x, d, si, lo, hi)
    requires var v := if d[Near(|d|, si, i - 1)] == 0.0 then 0.0 else w(i - 1);
             t' == t + v && s' == s + if v == 0.0 then 0.0 else v * x[Near(|d|, si, i - 1)]
    requires lo * t <= s <= hi * t && 0.0 <= t
    ensures lo * t' <= s' <= hi * t' && 0.0 <= t'
  {
    var sj := Near(|d|, si, i - 1);
    if d[sj] != 0.0 {
      AddWithin(lo, hi, s, t, w(i - 1), x[sj], s', t');
    }
  }

  lemma AddWithin(lo: real, hi: real, s: real, t: real, w: real, x: real, s': real, t': real)
    requires lo * t <= s <= hi * t && w > 0.0 && lo <= x <= hi
    requires s' == s + w * x && t' == t + w
    ensures lo * t' <= s' <= hi * t'
  {
    ScaleWithin(w, lo, x, hi);
    assert lo * t' == lo * t + lo * w;
    assert hi * t' == hi * t + hi * w;
  }

  lemma ScaleWithin(w: real, lo: real, x: real, hi: real)
    requires w > 0.0 && lo <= x <= hi
    ensures lo * w <= w * x <= hi * w
  {
    assert (x - lo) * w >= 0.0;
    assert (hi - x) * w >= 0.0;
  }

  lemma DivideWithin(lo: real, x: real, hi: real, t: real)
    requires t > 0.0 && lo * t <= x <= hi * t
    ensures lo <= x / t <= hi
  {
    var q := x / t;
    assert x == q * t;
    if q < lo {
      Scale(q, lo, t);
    } else if hi < q {
      Scale(hi, q, t);
    }
  }

  lemma Scale(a: real, b: real, t: real)
    requires a < b && t > 0.0
    ensures a * t < b * t
  {
    assert (b - a) * t > 0.0;
  }

  lemma MeanWithin(w: int -> real, x: seq<real>, d: seq<real>, si: nat, lo: real, hi: real)
    requires |x| == |d| > 0 && si < |d| && forall i :: w(i) > 0.0
    requires Weights(w, d, si, Window(|d|) + 1) != 0.0 && WindowWithin(x, d, si, lo, hi)
    ensures lo <= Weighted(w, x, d, si, Window(|d|) + 1) / Weights(w, d, si, Window(|d|) + 1) <= hi
  {
    var i := Window(|d|) + 1;
    var s, t := Weighted(w, x, d, si, i), Weights(w, d, si, i);
    WeightedWithin(w, x, d, si, i, lo, hi, s, t);
    DivideWithin(lo, s, hi, t);
  }

  /** Smoothing keeps each value within the range of the data around it. */
  lemma SmoothStaysWithin(w: int -> real, c0: seq<real>, d0: seq<real>, si: nat, c: real, d: real, lo: real, hi: real)
    requires |c0| == |d0| > 0 && si < |d0| && SmoothedAt(w, c0, d0, si, c, d) && forall i :: w(i) > 0.0
    requires Weights(w, d0, si, Window(|d0|) + 1) != 0.0
    ensures WindowWithin(c0, d0, si, lo, hi) ==> lo <= c <= hi
    ensures WindowWithin(d0, d0, si, lo, hi) ==> lo <= d <= hi
  {
    if WindowWithin(c0, d0, si, lo, hi) {
      MeanWithin(w, c0, d0, si, lo, hi);
    }
    if WindowWithin(d0, d0, si, lo, hi) {
      MeanWithin(w, d0, d0, si, lo, hi);
    }
  }

  /** The window is empty exactly when no bucket in it holds data. */
  lemma {:induction false} EmptyWindow(w: int -> real, d: seq<real>, si: nat, i: int)
    requires |d| > 0 && si < |d| && -Window(|d|) <= i <= Window(|d|) + 1 && forall i :: w(i) > 0.0
    ensures 0.0 <= Weights(w, d, si, i)
    ensures Weights(w, d, si, i) == 0.0 <==> forall k :: -Window(|d|) <= k < i ==> d[Near(|d|, si, k)] == 0.0
    decreases i + Window(|d|)
  {
    if i > -Window(|d|) {
      EmptyWindow(w, d, si, i - 1);
    }
  }

  // ---- centring ----

  function Total(xs: seq<real>): real {
    if xs == [] then 0.0 else Total(xs[..|xs| - 1]) + xs[|xs| - 1]
  }

  lemma MeanTimes(x: real, n: nat)
    requires n > 0
    ensures x / n as real * n as real == x
  {
  }

  lemma {:induction false} Shifted(xs: seq<real>, ys: seq<real>, m: real)
    requires |xs| == |ys| && forall i :: 0 <= i < |xs| ==> ys[i] == xs[i] - m
    ensures Total(ys) == Total(xs) - m * |xs| as real
  {
    if xs != [] {
      Shifted(xs[..|xs| - 1], ys[..|ys| - 1], m);
      assert m * |xs| as real == m * (|xs| - 1) as real + m;
    }
  }

  // ---- the lines of interpolation ----

  /** What a gap's bucket takes from its two sides is on the gap's line, and its spread the sum of its ends'. */
  lemma NextOnLine(c0: seq<real>, d0: seq<real>, c: seq<real>, d: seq<real>, si: nat, r: nat)
    requires |c0| == |d0| == |c| == |d| && 0 < si < |d0| && Enough(d0) && d0[si] == 0.0
    requires FilledAt(c0, d0, c, d, si - 1) && FilledAt(c0, d0, c, d, Left(d0, si))
    requires si + r == Right(d0, si) && c[si + r] == c0[si + r]
    ensures r > 0 && d[Left(d0, si)] == d0[Left(d0, si)]
    ensures Blend(c[si - 1], r, c[si + r], 1)
         == Line(Left(d0, si), c0[Left(d0, si)], si + r, c0[si + r], si)
  {
    PreviousOnLine(c0, d0, c, d, si);
    LineGoesOn(Left(d0, si), c0[Left(d0, si)], si - 1, r, c0[si + r], c[si - 1]);
  }

  /** The bucket before a gap's bucket is on the gap's line. */
  lemma PreviousOnLine(c0: seq<real>, d0: seq<real>, c: seq<real>, d: seq<real>, si: nat)
    requires |c0| == |d0| == |c| == |d| && 0 < si < |d0| && Enough(d0) && d0[si] == 0.0
    requires FilledAt(c0, d0, c, d, si - 1)
    ensures
      var l, r := Left(d0, si), Right(d0, si);
      c[si - 1] == Line(l, c0[l], r, c0[r], si - 1)
  {
    var l, r := Left(d0, si), Right(d0, si);
    if d0[si - 1] != 0.0 {
      LineStart(l, c0[l], r, c0[r]);
    }
  }

  lemma LineStart(l: int, a: real, r: int, b: real)
    requires l < r
    ensures Line(l, a, r, b, l) == a
  {
    assert a * (r - l) as real + b * 0.0 == a * (r - l) as real;
    CrossDivide(a * (r - l) as real, a, 1.0, (r - l) as real);
  }

  // ---- the turns of three periods together ----

  /** Some bounds of a list, above nothing when all of it is. */
  lemma {:induction false} Bounds(xs: seq<real>) returns (lo: real, hi: real)
    ensures forall i :: 0 <= i < |xs| ==> lo <= xs[i] <= hi
    ensures (forall i :: 0 <= i < |xs| ==> xs[i] > 0.0) ==> lo > 0.0
  {
    if xs == [] {
      return 1.0, 1.0;
    }
    var k := |xs| - 1;
    lo, hi := Bounds(xs[..k]);
    lo, hi := if xs[k] < lo then xs[k] else lo, if xs[k] > hi then xs[k] else hi;
  }

  lemma LineWithin(l: int, a: real, r: int, b: real, i: int, lo: real, hi: real)
    requires l <= i <= r && l < r && lo <= a <= hi && lo <= b <= hi
    ensures lo <= Line(l, a, r, b, i) <= hi
  {
    var p, q := (r - i) as real, (i - l) as real;
    MixWithin(a, p, b, q, lo, hi);
    DivideWithin(lo, a * p + b * q, hi, (r - l) as real);
  }

  lemma MixWithin(a: real, p: real, b: real, q: real, lo: real, hi: real)
    requires p >= 0.0 && q >= 0.0 && lo <= a <= hi && lo <= b <= hi
    ensures lo * (p + q) <= a * p + b * q <= hi * (p + q)
  {
    Times(a - lo, p);
    Times(hi - a, p);
    Times(b - lo, q);
    Times(hi - b, q);
    Distribute(lo, p, q);
    Distribute(hi, p, q);
  }

  lemma Times(x: real, y: real)
    requires x >= 0.0 && y >= 0.0
    ensures x * y >= 0.0
  {
  }

  lemma Distribute(x: real, p: real, q: real)
    ensures x * (p + q) == x * p + x * q
  {
  }

  /** The values that stand in buckets with data lie between `lo` and `hi`. */
  ghost predicate DataWithin(c: seq<real>, d: seq<real>, lo: real, hi: real)
    requires |c| == |d|
  {
    forall i :: 0 <= i < |d| && d[i] != 0.0 ==> lo <= c[i] <= hi
  }

  lemma FilledWithin(c0: seq<real>, d0: seq<real>, c: seq<real>, d: seq<real>, lo: real, hi: real)
    requires Filled(c0, d0, c, d) && DataWithin(c0, d0, lo, hi)
    ensures forall i :: 0 <= i < |c| ==> d[i] > 0.0 && lo <= c[i] <= hi
  {
    forall i | 0 <= i < |c| ensures d[i] > 0.0 && lo <= c[i] <= hi {
      assert FilledAt(c0, d0, c, d, i);
      if d0[i] == 0.0 {
        var l, r := Left(d0, i), Right(d0, i);
        LineWithin(l, c0[l], r, c0[r], i, lo, hi);
      }
    }
  }

  ghost predicate AllWithin(x: seq<real>, lo: real, hi: real) {
    forall i :: 0 <= i < |x| ==> lo <= x[i] <= hi
  }

  lemma FullWindow(w: int -> real, d: seq<real>, si: nat)
    requires si < |d| && (forall i :: w(i) > 0.0) && forall i :: 0 <= i < |d| ==> d[i] > 0.0
    ensures Weights(w, d, si, Window(|d|) + 1) > 0.0
  {
    EmptyWindow(w, d, si, Window(|d|) + 1);
    assert d[Near(|d|, si, 0)] != 0.0;
  }

  lemma BucketWithin(w: int -> real, x: seq<real>, d: seq<real>, si: nat, lo: real, hi: real)
    requires |x| == |d| > si && (forall i :: w(i) > 0.0) && (forall i :: 0 <= i < |d| ==> d[i] > 0.0)
    requires AllWithin(x, lo, hi)
    ensures var i := Window(|d|) + 1;
            Weights(w, d, si, i) > 0.0 && lo <= Weighted(w, x, d, si, i) / Weights(w, d, si, i) <= hi
  {
    FullWindow(w, d, si);
    assert WindowWithin(x, d, si, lo, hi);
    MeanWithin(w, x, d, si, lo, hi);
  }

  lemma SmoothedWithin(w: int -> real, c0: seq<real>, d0: seq<real>, c: seq<real>, d: seq<real>, lo: real, hi: real)
    requires Smoothed(w, c0, d0, c, d) && forall i :: w(i) > 0.0
    requires forall i :: 0 <= i < |c0| ==> d0[i] > 0.0 && lo <= c0[i] <= hi
    ensures forall i :: 0 <= i < |c| ==> d[i] > 0.0 && lo <= c[i] <= hi
  {
    var dlo, dhi := Bounds(d0);
    assert AllWithin(c0, lo, hi) && AllWithin(d0, dlo, dhi);
    forall i | 0 <= i < |c| ensures d[i] > 0.0 && lo <= c[i] <= hi {
      assert SmoothedAt(w, c0, d0, i, c[i], d[i]);
      BucketWithin(w, c0, d0, i, lo, hi);
      BucketWithin(w, d0, d0, i, dlo, dhi);
    }
  }

  /** A later period's turn that finds data in every bucket keeps what is predicted in its range, and makes the buckets
      add up to nothing. */
  lemma TurnedWithin(w: int -> real, b: Series, b': Series, lo: real, hi: real)
    requires |b.c| == |b.d| > 0 && Turned(w, 0, b, b') && b.lap + (if b.count > 0 then 1 else 0) > 1
    requires (forall i :: w(i) > 0.0) && forall i :: 0 <= i < |b.c| ==> b.d[i] > 0.0 && lo <= b.c[i] <= hi
    ensures |b'.c| == |b'.d| == |b.c| && Total(b'.c) == 0.0
    ensures forall i :: 0 <= i < |b'.c| ==> b'.d[i] > 0.0 && b.A + lo <= b'.A + b'.c[i] <= b.A + hi
  {
    var c :| Smoothed(w, b.c, b.d, c, b'.d) && Centred(b.A, c, b'.A, b'.c);
    SmoothedWithin(w, b.c, b.d, c, b'.d, lo, hi);
  }

  /** The first period's turn leaves no bucket empty exactly when both ends hold data; else it starts over. */
  lemma FirstTurn(w: int -> real, b: Series, b': Series, lo: real, hi: real)
    requires |b.c| == |b.d| > 0 && Turned(w, 0, b, b') && b.lap + (if b.count > 0 then 1 else 0) == 1
    requires (forall i :: 0 <= i < |b.d| ==> b.d[i] >= 0.0) && DataWithin(b.c, b.d, lo, hi)
    ensures b'.lap == 1 <==> b.d[0] != 0.0 && b.d[|b.d| - 1] != 0.0
    ensures |b'.c| == |b'.d| == |b.c|
    ensures b'.lap == 1 <==> forall i :: 0 <= i < |b'.c| ==> b'.d[i] > 0.0
    ensures DataWithin(b'.c, b'.d, lo, hi)
  {
    if b'.lap == 1 {
      FilledWithin(b.c, b.d, b'.c, b'.d, lo, hi);
    }
  }

  // ---- whole runs ----

  datatype Sample = Sample(ave: real, sdv: real, si: nat)

  /** Spreads are not negative, roots are not, and the weight of a new value is a fraction. */
  ghost predicate Sane(w: int -> real, k: Knobs) {
    (forall i :: w(i) > 0.0) && 0.0 <= k.gamma <= 1.0 && forall x :: k.root(x) >= 0.0
  }

  ghost predicate Fits(n: nat, x: Sample, lo: real, hi: real) {
    x.si < n && x.sdv >= 0.0 && lo <= x.ave <= hi
  }

  ghost predicate TakesIn(n: nat, w: int -> real, k: Knobs, s: Series, x: Sample, s': Series) {
    |s.c| == |s.d| == n && x.si < n && Added(w, k, s, x.ave, x.sdv, x.si, s')
  }

  /** Over the first period every value is one that was measured; from the end of that on no bucket is empty. */
  ghost predicate Kept(n: nat, s: Series, lo: real, hi: real) {
    && |s.c| == |s.d| == n > 0
    && (forall i :: 0 <= i < n ==> s.d[i] >= 0.0)
    && (if s.lap == 0 then DataWithin(s.c, s.d, lo, hi) else forall i :: 0 <= i < n ==> s.d[i] > 0.0)
  }

  /** A series before anything was measured. */
  ghost predicate Blank(n: nat, s: Series) {
    |s.c| == |s.d| == n > 0 && s.lap == s.count == 0 && forall i :: 0 <= i < n ==> s.d[i] == 0.0
  }

  lemma TurnKeeps(n: nat, w: int -> real, s: Series, si: nat, t: Series, lo: real, hi: real)
    requires (forall i :: w(i) > 0.0) && Kept(n, s, lo, hi) && Turned(w, si, s, t)
    ensures Kept(n, t, lo, hi)
  {
    var lap := s.lap + if s.count > 0 then 1 else 0;
    if si == 0 && lap == 1 {
      FirstTurnKeeps(n, w, s, t, lo, hi);
    } else if si == 0 && lap > 1 {
      LaterTurnKeeps(n, w, s, t, lo, hi);
    }
  }

  lemma FirstTurnKeeps(n: nat, w: int -> real, s: Series, t: Series, lo: real, hi: real)
    requires (forall i :: w(i) > 0.0) && Kept(n, s, lo, hi) && Turned(w, 0, s, t)
    requires s.lap + (if s.count > 0 then 1 else 0) == 1
    ensures Kept(n, t, lo, hi)
  {
    if s.lap == 0 {
      FirstTurn(w, s, t, lo, hi);
    } else {
      var clo, chi := Bounds(s.c);
      FirstTurn(w, s, t, clo, chi);
    }
  }

  lemma LaterTurnKeeps(n: nat, w: int -> real, s: Series, t: Series, lo: real, hi: real)
    requires (forall i :: w(i) > 0.0) && Kept(n, s, lo, hi) && Turned(w, 0, s, t)
    requires s.lap + (if s.count > 0 then 1 else 0) > 1
    ensures Kept(n, t, lo, hi)
  {
    var clo, chi := Bounds(s.c);
    TurnedWithin(w, s, t, clo, chi);
  }

  lemma LearningKeeps(n: nat, k: Knobs, s: Series, x: Sample, lo: real, hi: real)
    requires 0.0 <= k.gamma <= 1.0 && (forall v :: k.root(v) >= 0.0)
    requires Kept(n, s, lo, hi) && Fits(n, x, lo, hi)
    ensures Kept(n, Learnt(k, s, x.ave, x.sdv, x.si), lo, hi)
  {
    if s.lap == 0 {
      FirstKeeps(n, k, s, x, lo, hi);
    } else {
      SpreadStays(n, k, s, x, lo, hi, Learnt(k, s, x.ave, x.sdv, x.si));
    }
  }

  lemma FirstKeeps(n: nat, k: Knobs, s: Series, x: Sample, lo: real, hi: real)
    requires (forall v :: k.root(v) >= 0.0) && Kept(n, s, lo, hi) && Fits(n, x, lo, hi) && s.lap == 0
    ensures Kept(n, Learnt(k, s, x.ave, x.sdv, x.si), lo, hi)
  {
    var t := Learnt(k, s, x.ave, x.sdv, x.si);
    assert t.d[x.si] >= 0.0;
    assert t.d == s.d[x.si := t.d[x.si]] && t.c == s.c[x.si := x.ave];
  }

  lemma SpreadStays(n: nat, k: Knobs, s: Series, x: Sample, lo: real, hi: real, t: Series)
    requires 0.0 <= k.gamma <= 1.0 && (forall v :: k.root(v) >= 0.0)
    requires Kept(n, s, lo, hi) && Fits(n, x, lo, hi) && s.lap > 0 && t == Learnt(k, s, x.ave, x.sdv, x.si)
    ensures Kept(n, t, lo, hi)
  {
    var d := s.d[x.si];
    if s.lap == 1 {
      var gap := Abs(x.ave - Ahead(s.B, n as real, s.c[x.si])) + x.sdv;
      Blended(0.5, if gap == 0.0 then k.root(x.ave) else gap, d);
    } else {
      var gap := Abs(x.ave - (s.A + s.B + s.c[x.si])) + x.sdv;
      Blended(k.gamma, if gap == 0.0 then EPSILOND else gap, d);
    }
    assert t.d == s.d[x.si := t.d[x.si]];
  }

  lemma Blended(g: real, x: real, y: real)
    requires 0.0 <= g <= 1.0 && x >= 0.0 && y > 0.0 && (g == 1.0 ==> x > 0.0)
    ensures Mix(g, x, y) > 0.0
  {
    if g < 1.0 {
      assert g * x >= 0.0 && (1.0 - g) * y > 0.0;
    }
  }

  /** From nothing measured on, over every run: values come from the data in the first period, and once that is over no
      bucket is ever empty again. */
  lemma {:induction false} RunKept(n: nat, w: int -> real, k: Knobs, ss: seq<Series>, xs: seq<Sample>, lo: real, hi: real)
    requires Sane(w, k) && |ss| == |xs| + 1 && Blank(n, ss[0])
    requires forall j :: 0 <= j < |xs| ==> Fits(n, xs[j], lo, hi) && TakesIn(n, w, k, ss[j], xs[j], ss[j + 1])
    ensures Kept(n, ss[|xs|], lo, hi)
    decreases |xs|
  {
    if xs != [] {
      var j := |xs| - 1;
      RunKept(n, w, k, ss[..|xs|], xs[..j], lo, hi);
      var s := ss[j];
      var t: Series :| |t.c| == |t.d| == |s.c| && Turned(w, xs[j].si, s, t)
               && ss[j + 1] == Learnt(k, t, xs[j].ave, xs[j].sdv, xs[j].si);
      TurnKeeps(n, w, s, xs[j].si, t, lo, hi);
      LearningKeeps(n, k, t, xs[j], lo, hi);
    }
  }
}
