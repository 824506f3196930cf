/** What a summary says about the samples of its period, and where in a file things stand. */
module GraphMeaning {
  import opened Wrappers
  import opened Bytes
  import opened Graphd
  import opened GraphFile
  import opened GraphRead
  import opened GraphWindow

  function Values(ps: seq<Point>): (xs: seq<U32>)
    ensures |xs| == |ps|
  {
    seq(|ps|, i requires 0 <= i < |ps| => ps[i].val)
  }

  function Square(fl: Floats, p: Point): U32 {
    fl.mul(p.val, p.val)
  }

  function Squares(fl: Floats, ps: seq<Point>): (xs: seq<U32>)
    ensures |xs| == |ps|
  {
    seq(|ps|, i requires 0 <= i < |ps| => Square(fl, ps[i]))
  }

  function Expected(ps: seq<Point>): (xs: seq<U32>)
    ensures |xs| == |ps|
  {
    seq(|ps|, i requires 0 <= i < |ps| => ps[i].exp)
  }

  function Spreads(ps: seq<Point>): (xs: seq<U32>)
    ensures |xs| == |ps|
  {
    seq(|ps|, i requires 0 <= i < |ps| => ps[i].delt)
  }

  /** Added up from nothing, in order. */
  function Total(fl: Floats, xs: seq<U32>): U32 {
    if xs == [] then fl.zero else fl.add(Total(fl, xs[..|xs| - 1]), xs[|xs| - 1])
  }

  function Mean(fl: Floats, xs: seq<U32>): U32 {
    fl.div(Total(fl, xs), fl.of(|xs|))
  }

  /** The deviation: the root of the mean square less the squared mean, or nothing if that is not positive. */
  function Deviation(fl: Floats, ps: seq<Point>): U32 {
    var mean := Mean(fl, Values(ps));
    var variance := fl.sub(Mean(fl, Squares(fl, ps)), fl.mul(mean, mean));
    if fl.less(fl.zero, variance) then fl.sqrt(variance) else fl.zero
  }

  ghost predicate Ordered(less: (U32, U32) -> bool) {
    && (forall x :: !less(x, x))
    && (forall x, y :: less(x, y) || x == y || less(y, x))
    && (forall x, y, z :: less(x, y) && less(y, z) ==> less(x, z))
  }

  // ---- what is gathered ----

  lemma LastOnes(fl: Floats, ps: seq<Point>)
    requires ps != []
    ensures var k := |ps| - 1;
            && Total(fl, Values(ps)) == fl.add(Total(fl, Values(ps[..k])), ps[k].val)
            && Total(fl, Squares(fl, ps)) == fl.add(Total(fl, Squares(fl, ps[..k])), fl.mul(ps[k].val, ps[k].val))
            && Total(fl, Expected(ps)) == fl.add(Total(fl, Expected(ps[..k])), ps[k].exp)
            && Total(fl, Spreads(ps)) == fl.add(Total(fl, Spreads(ps[..k])), ps[k].delt)
  {
    var k := |ps| - 1;
    assert Values(ps)[..k] == Values(ps[..k]) && Squares(fl, ps)[..k] == Squares(fl, ps[..k]);
    assert Expected(ps)[..k] == Expected(ps[..k]) && Spreads(ps)[..k] == Spreads(ps[..k]);
  }

  /** A section that starts with no samples and no sums. */
  predicate Blank(fl: Floats, a: Acc) {
    a.nsamp == 0 && a.sigm == a.sigm2 == a.exp == a.delt == fl.zero && a.status == 0
  }

  /** The sums of a section are those of its samples. */
  lemma {:induction false} SumsMean(fl: Floats, a: Acc, ps: seq<Point>)
    requires Blank(fl, a)
    ensures var r := GatherAll(fl, a, ps);
            && r.nsamp == |ps| && r.sigm == Total(fl, Values(ps)) && r.sigm2 == Total(fl, Squares(fl, ps))
            && r.exp == Total(fl, Expected(ps)) && r.delt == Total(fl, Spreads(ps))
  {
    if ps != [] {
      SumsMean(fl, a, ps[..|ps| - 1]);
      LastOnes(fl, ps);
    }
  }

  /** The worst status of some samples, or none worse than clear yet. */
  ghost predicate Worst(ps: seq<Point>, status: U32) {
    && (forall p :: p in ps ==> p.status <= status)
    && (if ps == [] then status == 0 else exists p :: p in ps && p.status == status)
  }

  lemma WorstOn(ps: seq<Point>, q: Point, status: U32, worse: U32)
    requires Worst(ps, status) && worse == if q.status > status then q.status else status
    ensures Worst(ps + [q], worse)
  {
    assert q in ps + [q];
    if ps != [] {
      var p :| p in ps && p.status == status;
      assert p in ps + [q];
    }
  }

  /** Its status is the worst of its samples'. */
  lemma {:induction false} StatusMeans(fl: Floats, a: Acc, ps: seq<Point>)
    requires a.status == 0
    ensures Worst(ps, GatherAll(fl, a, ps).status)
  {
    if ps != [] {
      var k := |ps| - 1;
      StatusMeans(fl, a, ps[..k]);
      WorstOn(ps[..k], ps[k], GatherAll(fl, a, ps[..k]).status, GatherAll(fl, a, ps).status);
      assert ps == ps[..k] + [ps[k]];
    }
  }

  /** Its bounds are bounds, and each is a sample's value or what the section started with. */
  lemma {:induction false} BoundsMean(fl: Floats, a: Acc, ps: seq<Point>)
    requires Ordered(fl.less)
    ensures var r := GatherAll(fl, a, ps);
            && (forall p :: p in ps ==> !fl.less(p.val, r.min) && !fl.less(r.max, p.val))
            && !fl.less(a.min, r.min) && !fl.less(r.max, a.max)
            && (r.min == a.min || exists p :: p in ps && p.val == r.min)
            && (r.max == a.max || exists p :: p in ps && p.val == r.max)
  {
    if ps != [] {
      var k := |ps| - 1;
      BoundsMean(fl, a, ps[..k]);
      assert ps == ps[..k] + [ps[k]] && ps[k] in ps;
      BoundsOn(fl, a, ps, GatherAll(fl, a, ps[..k]), GatherAll(fl, a, ps));
    }
  }

  lemma BoundsOn(fl: Floats, a: Acc, ps: seq<Point>, b: Acc, r: Acc)
    requires Ordered(fl.less) && ps != [] && r == Gather(fl, b, ps[|ps| - 1])
    requires forall p :: p in ps[..|ps| - 1] ==> !fl.less(p.val, b.min) && !fl.less(b.max, p.val)
    requires !fl.less(a.min, b.min) && !fl.less(b.max, a.max)
    ensures forall p :: p in ps ==> !fl.less(p.val, r.min) && !fl.less(r.max, p.val)
    ensures !fl.less(a.min, r.min) && !fl.less(r.max, a.max)
  {
    var q := ps[|ps| - 1];
    forall p | p in ps ensures !fl.less(p.val, r.min) && !fl.less(r.max, p.val) {
      assert p in ps[..|ps| - 1] || p == q;
    }
  }

  // ---- what a summary says ----

  /** What stands in the summary of the samples `p`: their worst status, what was measured on average, and how it spread. */
  ghost predicate Summed(fl: Floats, p: seq<Point>, e: Export) {
    && p != [] && e.time == p[|p| - 1].when / 4 % 0x1_0000_0000 * 4
    && Worst(p, e.status) && e.value == Mean(fl, Values(p)) && e.stdev == Deviation(fl, p)
    && e.exp == Mean(fl, Expected(p)) && e.delt == Mean(fl, Spreads(p))
  }

  /** Bounds, which are values of the period's own but in the first one, where nothing counts as a value, too. */
  ghost predicate Bounded(fl: Floats, p: seq<Point>, first: bool, e: Export) {
    && (forall x: Point :: x in p ==> !fl.less(x.val, e.min) && !fl.less(e.max, x.val))
    && ((first && e.min == fl.zero) || exists x: Point :: x in p && x.val == e.min)
    && ((first && e.max == fl.zero) || exists x: Point :: x in p && x.val == e.max)
  }

  /** The summary of a period that is over. */
  lemma SummaryMeans(fl: Floats, unit: nat -> int, hist: seq<Point>, i: nat)
    requires i < |Summaries(fl, unit, hist)|
    ensures Summed(fl, Periods(unit, hist)[i], SummaryExports(fl, unit, hist)[i])
  {
    var ps := Periods(unit, hist);
    var p: seq<Point> := ps[i];
    OneMeans(fl, ps, i, if i == 0 then Empty(fl) else Reset(fl, p[0].val), SummaryOf(fl, ps, i));
  }

  lemma OneMeans(fl: Floats, ps: seq<seq<Point>>, i: nat, a: Acc, e: Export)
    requires i < |ps| && ps[i] != [] && e == SummaryOf(fl, ps, i) && Blank(fl, a)
    requires PeriodAcc(fl, ps, i) == GatherAll(fl, a, ps[i])
    ensures Summed(fl, ps[i], e)
  {
    SumsMean(fl, a, ps[i]);
    StatusMeans(fl, a, ps[i]);
  }

  lemma SummaryBounds(fl: Floats, unit: nat -> int, hist: seq<Point>, i: nat)
    requires i < |Summaries(fl, unit, hist)| && Ordered(fl.less)
    ensures Bounded(fl, Periods(unit, hist)[i], i == 0, SummaryExports(fl, unit, hist)[i])
  {
    var ps := Periods(unit, hist);
    var p: seq<Point> := ps[i];
    BoundsMean(fl, if i == 0 then Empty(fl) else Reset(fl, p[0].val), p);
    assert p[0] in p;
  }

  /** Whatever a request for summaries is answered says this of one of the periods that are over. */
  lemma AnswerMeans(fl: Floats, unit: nat -> int, hist: seq<Point>, res: seq<Export>, since: int, m: int, width: int,
                    e: Export) returns (i: nat)
    requires var es := SummaryExports(fl, unit, hist);
             && IsAnswer(res, es, SummariesThere(es, m), since, m, width) && e in res
             && (since > 0 ==> m <= NMax || (|es| >= NMax && m <= NMax + Slot(|es|)))
    ensures i < |Summaries(fl, unit, hist)| && Summed(fl, Periods(unit, hist)[i], e)
    ensures Ordered(fl.less) ==> Bounded(fl, Periods(unit, hist)[i], i == 0, e)
    ensures since > 0 ==> e.time > since
  {
    var es := SummaryExports(fl, unit, hist);
    AnswerIsAmong(res, es, since, m, width, e);
    i :| 0 <= i < |es| && es[i] == e;
    SummaryMeans(fl, unit, hist, i);
    if Ordered(fl.less) {
      SummaryBounds(fl, unit, hist, i);
    }
  }

  lemma AnswerIsAmong(res: seq<Export>, es: seq<Export>, since: int, m: int, width: int, e: Export)
    requires IsAnswer(res, es, SummariesThere(es, m), since, m, width) && e in res
    requires since > 0 ==> m <= NMax || (|es| >= NMax && m <= NMax + Slot(|es|))
    ensures e in es && (since > 0 ==> e.time > since)
  {
    if since <= 0 {
      StridedAmong(Kept(es), Stride(|Kept(es)|, width), e);
    } else {
      NewerAmong(if m <= NMax then SummariesThere(es, m) else LastOf(es, m - NMax) + LastOf(es, NMax),
                 since, Every(Filled(|es|), width), e);
    }
  }

  lemma {:induction false} StridedAmong(xs: seq<Export>, sub: nat, e: Export)
    requires sub > 0 && e in Strided(xs, sub)
    ensures e in xs
  {
    if xs != [] && e in Strided(xs[..|xs| - 1], sub) {
      StridedAmong(xs[..|xs| - 1], sub, e);
    }
  }

  lemma {:induction false} NewerAmong(xs: seq<Export>, since: int, sub: nat, e: Export)
    requires sub > 0 && e in Newer(xs, since, sub)
    ensures e in xs && (since > 0 ==> e.time > since)
  {
    if xs != [] && e in Newer(xs[..|xs| - 1], since, sub) {
      NewerAmong(xs[..|xs| - 1], since, sub, e);
    }
  }

  // ---- what is recorded ----

  /** What is not known, or hidden by a dependency, is recorded as clear, and everything else as it is. */
  lemma NormalMeans(p: Point)
    ensures Normal(p).status !in {0, 7} && (p.status !in {0, 7} ==> Normal(p) == p)
    ensures p.status in {0, 7} ==> Normal(p) == Point(p.when, 1, p.val, p.exp, p.delt)
  {
  }

  /** A request reaches back as many units as begin since then, and no more. */
  lemma BackCovers(since: int, now: int, per: int)
    requires per > 0 && since <= now
    ensures var m := Back(since, now, per); since + (m - 1) * per < now <= since + m * per
  {
    var x := now - since + per - 1;
    assert x == x / per * per + x % per;
  }

  /** The stride is the least that leaves no more points than the width. */
  lemma StrideIsLeast(n: nat, width: nat, sub: nat)
    requires n > 0 && width > 0 && sub > 0 && sub < Stride(n, width)
    ensures sub * width < n
  {
    var x, q := n + width - 1, Stride(n, width);
    assert x == q * width + x % width;
    assert (q - 1) * width < n;
    Fewer(sub, q - 1, width);
  }

  lemma Fewer(a: nat, b: nat, w: nat)
    requires a <= b
    ensures a * w <= b * w
  {
  }

  // ---- where things stand ----

  /** A number goes with its highest byte first. */
  lemma HighFirst(n: U32, i: nat)
    requires i < 4
    ensures Enc32(n)[i] == n / (if i == 0 then 16777216 else if i == 1 then 65536 else if i == 2 then 256 else 1) % 256
  {
  }

  lemma {:induction false} WordAt(ws: seq<U32>, k: nat)
    requires k < |ws|
    ensures 4 * k + 4 <= |EncWords(ws)| && EncWords(ws)[4 * k..4 * k + 4] == Enc32(ws[k])
  {
    if k > 0 {
      WordAt(ws[1..], k - 1);
      var b := EncWords(ws);
      assert b[4..] == EncWords(ws[1..]);
      assert b[4 * k..4 * k + 4] == b[4..][4 * (k - 1)..4 * (k - 1) + 4];
    }
  }

  /** A sample's record: time in units of four seconds, status, value, expectation and spread. */
  lemma RecordLayout(p: Point)
    ensures var b := EncPoint(p);
            && b[0..4] == Enc32(p.when / 4 % 0x1_0000_0000) && b[4..8] == Enc32(p.status) && b[8..12] == Enc32(p.val)
            && b[12..16] == Enc32(p.exp) && b[16..20] == Enc32(p.delt)
  {
    var ws := [FromSeconds(p.when), p.status, p.val, p.exp, p.delt];
    WordAt(ws, 0);
    WordAt(ws, 1);
    WordAt(ws, 2);
    WordAt(ws, 3);
    WordAt(ws, 4);
  }

  /** A summary's: time, status, bounds, mean and deviation of the values, mean expectation and mean spread. */
  lemma SummaryLayout(fl: Floats, a: Acc, lastt: U32, mean: U32, variance: U32)
    requires mean == fl.div(a.sigm, fl.of(a.nsamp))
    requires variance == fl.sub(fl.div(a.sigm2, fl.of(a.nsamp)), fl.mul(mean, mean))
    ensures var b := EncSummary(fl, a, lastt);
            && b[0..4] == Enc32(lastt) && b[4..8] == Enc32(a.status) && b[8..12] == Enc32(a.min) && b[12..16] == Enc32(a.max)
            && b[16..20] == Enc32(mean) && b[20..24] == Enc32(if fl.less(fl.zero, variance) then fl.sqrt(variance) else fl.zero)
            && b[24..28] == Enc32(fl.div(a.exp, fl.of(a.nsamp))) && b[28..32] == Enc32(fl.div(a.delt, fl.of(a.nsamp)))
  {
    var ws := [lastt, a.status, a.min, a.max, mean, if fl.less(fl.zero, variance) then fl.sqrt(variance) else fl.zero,
               fl.div(a.exp, fl.of(a.nsamp)), fl.div(a.delt, fl.of(a.nsamp))];
    EightWords(ws);
  }

  lemma EightWords(ws: seq<U32>)
    requires |ws| == 8
    ensures var b := EncWords(ws);
            && b[0..4] == Enc32(ws[0]) && b[4..8] == Enc32(ws[1]) && b[8..12] == Enc32(ws[2]) && b[12..16] == Enc32(ws[3])
            && b[16..20] == Enc32(ws[4]) && b[20..24] == Enc32(ws[5]) && b[24..28] == Enc32(ws[6]) && b[28..32] == Enc32(ws[7])
  {
    WordAt(ws, 0);
    WordAt(ws, 1);
    WordAt(ws, 2);
    WordAt(ws, 3);
    WordAt(ws, 4);
    WordAt(ws, 5);
    WordAt(ws, 6);
    WordAt(ws, 7);
  }

  /** A section of the header: eleven words, the second of them the size of the ring. */
  lemma SectionWord(s: Sect, k: nat)
    requires Fits(s) && k < 11
    ensures EncSect(s)[4 * k..4 * k + 4] == Enc32(match k
                                                  case 0 => s.idx case 1 => 1024 case 2 => s.count case 3 => s.acc.nsamp
                                                  case 4 => s.acc.min case 5 => s.acc.max case 6 => s.acc.sigm
                                                  case 7 => s.acc.sigm2 case 8 => s.acc.exp case 9 => s.acc.delt
                                                  case _ => s.acc.status)
  {
    WordAt(SectWords(s), k);
    assert EncSect(s)[4 * k..4 * k + 4] == EncWords(SectWords(s))[4 * k..4 * k + 4];
  }

  /** The header: what marks the file, the time of the last sample, and from 128 on the sections of 128 bytes. */
  lemma HeaderLayout(h: Header)
    requires FitsAll(h)
    ensures var b := EncHeader(h);
            && |b| == 512 && (forall i :: 0 <= i < 4 ==> b[i] as int == "AGD5"[i] as int) && b[4..8] == Enc32(h.lastt)
            && b[128..256] == EncSect(h.samp) && b[256..384] == EncSect(h.hour) && b[384..512] == EncSect(h.day)
  {
    var first := MAGIC + Enc32(h.lastt) + Zeros(120);
    HeaderParts(first, EncSect(h.samp), EncSect(h.hour), EncSect(h.day));
    var b := EncHeader(h);
    assert b[..4] == b[..128][..4] == first[..4] == MAGIC;
    assert b[4..8] == b[..128][4..8] == first[4..8] == Enc32(h.lastt);
    forall i | 0 <= i < 4 ensures b[i] as int == "AGD5"[i] as int {
      assert b[i] == b[..4][i];
    }
  }

  /** Behind 1024 bytes for the header, 1024 samples of 20 bytes; then as many hours, and days, of 32. */
  lemma Places(k: nat)
    ensures Offset(SampStart, SampSize, k) == 1024 + 20 * k
    ensures Offset(HourStart, SummySize, k) == 21504 + 32 * k
    ensures Offset(DayStart, SummySize, k) == 54272 + 32 * k
    ensures SampStart + SampSize * NMax == HourStart && HourStart + SummySize * NMax == DayStart && NMax == 1024
  {
  }

  /** A sample comes back as it was given, but for its time, which is known to four seconds. */
  lemma ExportMeans(hist: seq<Point>, i: nat)
    requires i < |hist|
    ensures var p, e := hist[i], Exports(hist)[i];
            && e.time == p.when / 4 % 0x1_0000_0000 * 4 && e.status == p.status && e.value == p.val
            && e.exp == p.exp && e.delt == p.delt
  {
  }
}
