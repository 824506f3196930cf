/** What learning, smoothing and filling come to, by the errors of the forecast and as sums over a window. */
module HwabLearning {
  import opened Hwab

  lemma MixMoves(g: real, x: real, y: real)
    ensures Mix(g, x, y) == y + g * (x - y)
  {
  }

  lemma DriftMoves(g: real, x: real, n: real, b: real)
    requires n != 0.0
    ensures Drift(g, x, n, b) == b + g * (x / n - b)
  {
    assert g * x / n == g * (x / n);
  }

  /** The next bucket round the circle, and the one before. */
  function NextTo(si: nat, n: nat): (r: nat)
    requires si < n
    ensures r < n
  {
    if si + 1 < n then si + 1 else 0
  }

  function Before(si: nat, n: nat): (r: nat)
    requires si < n
    ensures r < n
  {
    if si > 0 then si - 1 else n - 1
  }

  lemma Neighbours(si: nat, n: nat)
    requires si < n
    ensures Idx(si + 1, n) == NextTo(si, n) && Idx(si - 1, n) == Before(si, n)
  {
  }

  /** Only one bucket is learnt. */
  ghost predicate OneBucket(s: Series, si: nat, r: Series)
    requires si < |s.c| == |s.d|
  {
    && |r.c| == |r.d| == |s.c| && r.lap == s.lap && r.count == s.count
    && r.c == s.c[si := r.c[si]] && r.d == s.d[si := r.d[si]]
  }

  /**
   * In the first period a bucket holds what was measured; its spread moves a quarter of the way from the one before to
   * what is seen now, and the forecast goes on as the last step went.
   */
  lemma FirstLearns(k: Knobs, s: Series, ave: real, sdv: real, si: nat, r: Series)
    requires si < |s.c| == |s.d| && sdv >= 0.0 && r == First(k, s, ave, sdv, si)
    ensures OneBucket(s, si, r) && r.c[si] == ave && r.A == 0.0 && r.B == 0.0
    ensures var sp := Before(si, |s.c|);
            var c, d := if s.d[sp] == 0.0 then ave else s.c[sp], if s.d[sp] == 0.0 then sdv else s.d[sp];
            var seen := sdv + if ave >= c then ave - c else c - ave;
            && (seen != 0.0 ==> r.d[si] - d == (seen - d) / 4.0)
            && (seen == 0.0 ==> r.d[si] - d == (k.root(ave) - d) / 4.0)
            && r.yn - ave == ave - c && r.cn == ave && r.dn == r.d[si]
  {
    Neighbours(si, |s.c|);
  }

  /** What a bucket holds by the second period; if that is nothing, what is measured stands in for it, and the spread of
      the one before, or its own. */
  lemma PatchedMeans(s: Series, ave: real, sdv: real, si: nat)
    requires si < |s.c| == |s.d|
    ensures var (c, d) := Patched(s, ave, sdv, si);
            var before := s.d[Before(si, |s.c|)];
            && (s.d[si] != 0.0 ==> c == s.c[si] && d == s.d[si])
            && (s.d[si] == 0.0 ==> c == ave - s.A && d == if before != 0.0 then before else sdv)
  {
    Neighbours(si, |s.c|);
  }

  /**
   * In the second period the level moves by the trend and by a fraction of the error of that; level, trend and season
   * together are what was measured.
   */
  lemma SecondLearns(k: Knobs, s: Series, ave: real, sdv: real, si: nat, r: Series, c: real)
    requires si < |s.c| == |s.d| && r == Second(k, s, ave, sdv, si) && c == Patched(s, ave, sdv, si).0
    ensures OneBucket(s, si, r)
    ensures r.A == s.A + s.B + k.alpha * (ave - c - (s.A + s.B))
    ensures r.A + r.B + r.c[si] == ave && r.cn == r.c[si] && r.yn == ave + r.B
    ensures r.dn == r.d[NextTo(si, |s.c|)]
  {
    Neighbours(si, |s.c|);
    MixMoves(k.alpha, ave - c, s.A + s.B);
  }

  /** The trend moves to the bucket's share of the difference, by less and less. */
  lemma SecondTrend(k: Knobs, s: Series, ave: real, sdv: real, si: nat, r: Series, c: real, beta: real, n: real)
    requires si < |s.c| == |s.d| && r == Second(k, s, ave, sdv, si) && c == Patched(s, ave, sdv, si).0
    requires beta == 1.0 / (si + 1) as real && n == |s.c| as real
    ensures r.B == s.B + beta * ((ave - c) / n - s.B)
  {
    DriftMoves(beta, ave - c, n, s.B);
    assert r.B == Drift(beta, ave - c, n, s.B);
  }

  /** The spread becomes the mean of what it was and what is seen, by how far the trend misses. */
  lemma SecondSpread(k: Knobs, s: Series, ave: real, sdv: real, si: nat, r: Series, c: real, d: real, y: real, seen: real)
    requires si < |s.c| == |s.d| && r == Second(k, s, ave, sdv, si) && (c, d) == Patched(s, ave, sdv, si)
    requires y == s.B * |s.c| as real + c && seen == sdv + if ave >= y then ave - y else y - ave
    ensures 2.0 * r.d[si] == d + if seen == 0.0 then k.root(ave) else seen
  {
    AheadIs(s.B, |s.c| as real, c);
    SeenIs(ave, y, sdv, seen);
    MixMoves(0.5, if seen == 0.0 then k.root(ave) else seen, d);
  }

  lemma AheadIs(b: real, n: real, c: real)
    ensures Ahead(b, n, c) == b * n + c
  {
  }

  lemma SeenIs(ave: real, y: real, sdv: real, seen: real)
    requires seen == sdv + if ave >= y then ave - y else y - ave
    ensures Abs(ave - y) + sdv == seen
  {
  }

  /**
   * Afterwards everything moves by a fraction of the error: of the forecast, the level; of the level, the trend; of what
   * the level leaves, the season; and the spread by a fraction of the way to what is seen now.
   */
  lemma LaterLearns(k: Knobs, s: Series, ave: real, sdv: real, si: nat, r: Series, error: real)
    requires si < |s.c| == |s.d| && r == Later(k, s, ave, sdv, si) && error == ave - (s.A + s.B + s.c[si])
    ensures OneBucket(s, si, r)
    ensures r.A == s.A + s.B + k.alpha * error
    ensures r.B == s.B + k.beta * (r.A - s.A - s.B)
    ensures r.c[si] == s.c[si] + k.gamma * (ave - r.A - s.c[si])
    ensures var seen := sdv + if error >= 0.0 then error else -error;
            && (seen != 0.0 ==> r.d[si] == s.d[si] + k.gamma * (seen - s.d[si]))
            && (seen == 0.0 ==> r.d[si] == s.d[si] + k.gamma * (0.0001 - s.d[si]))
    ensures var sn := NextTo(si, |s.c|); r.cn == r.c[sn] && r.dn == r.d[sn] && r.yn == r.A + r.B + r.cn
  {
    Neighbours(si, |s.c|);
    MixMoves(k.alpha, ave - s.c[si], s.A + s.B);
    MixMoves(k.beta, r.A - s.A, s.B);
    MixMoves(k.gamma, ave - r.A, s.c[si]);
    MixMoves(k.gamma, if Abs(error) + sdv == 0.0 then EPSILOND else Abs(error) + sdv, s.d[si]);
  }

  /** What is exactly as forecast changes nothing but the level, which follows the trend. */
  lemma AsForecast(k: Knobs, s: Series, sdv: real, si: nat, r: Series)
    requires si < |s.c| == |s.d| && r == Later(k, s, s.A + s.B + s.c[si], sdv, si)
    ensures r.A == s.A + s.B && r.B == s.B && r.c == s.c
    ensures r.yn == s.A + 2.0 * s.B + s.c[NextTo(si, |s.c|)]
  {
    LaterLearns(k, s, s.A + s.B + s.c[si], sdv, si, r, 0.0);
    assert k.alpha * 0.0 == 0.0 && k.beta * 0.0 == 0.0 && k.gamma * 0.0 == 0.0;
    assert r.A == s.A + s.B && r.c[si] == s.c[si];
    assert r.c == s.c;
  }

  /** Which of them is at work goes by the period. */
  lemma ByPeriod(k: Knobs, s: Series, ave: real, sdv: real, si: nat, r: Series)
    requires si < |s.c| == |s.d| && r == Learnt(k, s, ave, sdv, si)
    ensures r.count == s.count + 1
    ensures s.lap == 0 ==> r.(count := s.count) == First(k, s, ave, sdv, si)
    ensures s.lap == 1 ==> r.(count := s.count) == Second(k, s, ave, sdv, si)
    ensures s.lap > 1 ==> r.(count := s.count) == Later(k, s, ave, sdv, si)
  {
  }

  // ---- lines ----

  /** A line goes from one end to the other. */
  lemma LineEnds(l: int, a: real, r: int, b: real)
    requires l < r
    ensures Line(l, a, r, b, l) == a && Line(l, a, r, b, r) == b
  {
    var n := (r - l) as real;
    assert (r - r) as real == 0.0 && (l - l) as real == 0.0;
    assert a * 0.0 == 0.0 && b * 0.0 == 0.0;
    Cancels(a, n);
    Cancels(b, n);
  }

  /** In equal steps. */
  lemma LineSteps(l: int, a: real, r: int, b: real, i: int)
    requires l < r
    ensures Line(l, a, r, b, i + 1) - Line(l, a, r, b, i) == (b - a) / (r - l) as real
  {
    var p, q := (r - i) as real, (i - l) as real;
    Steps(a, b, p, q);
    assert (r - (i + 1)) as real == p - 1.0 && (i + 1 - l) as real == q + 1.0;
    assert Line(l, a, r, b, i + 1) == (a * (p - 1.0) + b * (q + 1.0)) / (r - l) as real;
    Quotients(a * (p - 1.0) + b * (q + 1.0), a * p + b * q, (r - l) as real);
  }

  lemma Steps(a: real, b: real, p: real, q: real)
    ensures a * (p - 1.0) + b * (q + 1.0) - (a * p + b * q) == b - a
  {
  }

  lemma Quotients(y: real, x: real, n: real)
    requires n != 0.0
    ensures y / n - x / n == (y - x) / n
  {
  }

  lemma Cancels(a: real, n: real)
    requires n != 0.0
    ensures a * n / n == a
  {
  }

  // ---- the turn of a period ----

  /** A period turns with its first bucket, if anything has been taken in. Unless both ends of the first period hold data
      everything starts over: it counts as the first again, with nothing taken in, though what is held stays. */
  lemma TurnMeans(w: int -> real, si: nat, b: Series, r: Series)
    requires |b.c| == |b.d| > 0 && Turned(w, si, b, r)
    ensures si != 0 || (b.lap == 0 && b.count == 0) ==> r == b
    ensures si == 0 && b.lap == 0 && b.count > 0 && (b.d[0] == 0.0 || b.d[|b.d| - 1] == 0.0) ==>
              r.lap == 0 && r.count == 0 && r.c == b.c && r.d == b.d && r.A == b.A && r.B == b.B
    ensures si == 0 && b.count > 0 && !(b.lap == 0 && (b.d[0] == 0.0 || b.d[|b.d| - 1] == 0.0)) ==>
              r.lap == b.lap + 1 && r.count == b.count && r.B == b.B
  {
  }

  /** Between two buckets that hold data a gap is filled: on the line from one to the other, with the spreads of both. */
  lemma GapMeans(w: int -> real, b: Series, r: Series, left: nat, i: nat, right: nat)
    requires |b.c| == |b.d| > 0 && Turned(w, 0, b, r) && b.lap == 0 && b.count > 0
    requires b.d[0] != 0.0 && b.d[|b.d| - 1] != 0.0
    requires left < i < right < |b.d| && b.d[left] != 0.0 && b.d[right] != 0.0
    requires forall j :: left < j < right ==> b.d[j] == 0.0
    ensures |r.c| == |r.d| == |b.c| && r.d[i] == b.d[left] + b.d[right]
    ensures r.c[i] == Line(left, b.c[left], right, b.c[right], i)
    ensures r.c[left] == b.c[left] && r.d[left] == b.d[left]
  {
    assert FilledAt(b.c, b.d, r.c, r.d, i) && FilledAt(b.c, b.d, r.c, r.d, left);
    assert Left(b.d, i) == left && Right(b.d, i) == right;
  }

  // ---- smoothing ----

  /** What the window of a bucket contributes, place by place: a bucket with data its value, by the place's weight. */
  function Terms(w: int -> real, x: seq<real>, d: seq<real>, si: nat, half: nat, m: nat): (ts: seq<real>)
    requires |x| == |d| > 0
    ensures |ts| == m
  {
    seq(m, j requires 0 <= j < m => Term(w, x, d, si, j - half))
  }

  function Term(w: int -> real, x: seq<real>, d: seq<real>, si: nat, k: int): real
    requires |x| == |d| > 0
  {
    var sj := Round(si + k, |d|);
    if d[sj] == 0.0 then 0.0 else w(k) * x[sj]
  }

  /** Where a number of steps leads on a circle of `n`. */
  function Round(i: int, n: nat): (j: nat)
    requires n > 0
    ensures j < n
    decreases i < 0, if i < 0 then -i else i
  {
    if i < 0 then Round(i + n, n) else if i < n then i else Round(i - n, n)
  }

  function Ones(n: nat): (s: seq<real>)
    ensures |s| == n
  {
    seq(n, j requires 0 <= j < n => 1.0)
  }

  lemma Around(n: nat, si: nat, k: int)
    requires si < n && -Window(n) <= k <= Window(n)
    ensures Near(n, si, k) == Round(si + k, n)
  {
  }

  lemma {:induction false} WeightsSum(w: int -> real, d: seq<real>, si: nat, i: int)
    requires |d| > 0 && si < |d| && i <= Window(|d|) + 1
    ensures Weights(w, d, si, i) == Weighted(w, Ones(|d|), d, si, i)
    decreases i + Window(|d|)
  {
    if i > -Window(|d|) {
      WeightsSum(w, d, si, i - 1);
      assert Ones(|d|)[Near(|d|, si, i - 1)] == 1.0;
    }
  }

  lemma OneFurtherOn(w: int -> real, x: seq<real>, d: seq<real>, si: nat, i: int)
    requires |x| == |d| > 0 && si < |d| && -Window(|d|) < i <= Window(|d|) + 1
    ensures Weighted(w, x, d, si, i) == Weighted(w, x, d, si, i - 1) + Term(w, x, d, si, i - 1)
  {
    Around(|d|, si, i - 1);
  }

  lemma {:induction false} PartialSum(w: int -> real, x: seq<real>, d: seq<real>, si: nat, half: nat, m: nat)
    requires |x| == |d| > 0 && si < |d| && half == Window(|d|) && m <= 2 * half + 1
    ensures Weighted(w, x, d, si, m - half) == Total(Terms(w, x, d, si, half, m))
    decreases m
  {
    if m > 0 {
      PartialSum(w, x, d, si, half, m - 1);
      OneFurtherOn(w, x, d, si, m - half);
      OneMore(w, x, d, si, half, m);
    }
  }

  lemma OneMore(w: int -> real, x: seq<real>, d: seq<real>, si: nat, half: nat, m: nat)
    requires |x| == |d| > 0 && m > 0
    ensures Total(Terms(w, x, d, si, half, m)) == Total(Terms(w, x, d, si, half, m - 1)) + Term(w, x, d, si, m - 1 - half)
  {
    assert Terms(w, x, d, si, half, m)[..m - 1] == Terms(w, x, d, si, half, m - 1);
  }

  /**
   * A smoothed bucket times the weights of its window is the sum of that window: a twentieth of the circle to each side,
   * or two buckets, each with data counting with the weight of its place.
   */
  lemma SmoothedMeans(w: int -> real, c0: seq<real>, d0: seq<real>, si: nat, c: real, d: real)
    requires |c0| == |d0| > 0 && si < |d0| && SmoothedAt(w, c0, d0, si, c, d)
    ensures var half := if |d0| / 20 < 2 then 2 else |d0| / 20;
            var m := 2 * half + 1;
            IsMean(c, d, Total(Terms(w, c0, d0, si, half, m)), Total(Terms(w, d0, d0, si, half, m)),
                   Total(Terms(w, Ones(|d0|), d0, si, half, m)))
  {
    var half := Window(|d0|);
    var m := 2 * half + 1;
    PartialSum(w, c0, d0, si, half, m);
    PartialSum(w, d0, d0, si, half, m);
    PartialSum(w, Ones(|d0|), d0, si, half, m);
    Divided(w, c0, d0, si, c, d, half + 1, Weighted(w, c0, d0, si, half + 1), Weighted(w, d0, d0, si, half + 1),
            Weights(w, d0, si, half + 1));
    WeightsSum(w, d0, si, half + 1);
  }

  ghost predicate IsMean(c: real, d: real, ctot: real, dtot: real, all: real) {
    if all == 0.0 then c == d == 0.0 else c * all == ctot && d * all == dtot
  }

  lemma Divided(w: int -> real, c0: seq<real>, d0: seq<real>, si: nat, c: real, d: real, i: int,
                ctot: real, dtot: real, all: real)
    requires |c0| == |d0| > 0 && si < |d0| && SmoothedAt(w, c0, d0, si, c, d) && i == Window(|d0|) + 1
    requires ctot == Weighted(w, c0, d0, si, i) && dtot == Weighted(w, d0, d0, si, i) && all == Weights(w, d0, si, i)
    ensures IsMean(c, d, ctot, dtot, all)
  {
    if all != 0.0 {
      assert c == ctot / all && d == dtot / all;
      Restores(ctot, all, c);
      Restores(dtot, all, d);
    }
  }

  lemma Restores(x: real, t: real, c: real)
    requires t != 0.0 && c == x / t
    ensures c * t == x
  {
  }
}
