/** Reading the samples of a graph file back, oldest first, thinned to a width. */
module GraphRead {
  import opened Wrappers
  import opened Bytes
  import opened Cbuf
  import opened Graphd
  import opened GraphFile

  datatype Export = Export(time: nat, status: U32, value: U32, min: U32, max: U32, stdev: U32, exp: U32, delt: U32)

  /** A sample as it comes back. */
  function ExportOf(p: Point): Export {
    Export(ToSeconds(FromSeconds(p.when)), p.status, p.val, 0, 0, 0, p.exp, p.delt)
  }

  /** Times come back rounded down to a multiple of four seconds, within the stored width. */
  lemma TimesRoundDown(t: nat)
    requires t < 4 * 0x1_0000_0000
    ensures ToSeconds(FromSeconds(t)) == t - t % 4
  {
  }

  function DecPoint(b: seq<Byte>): Export
    requires |b| == SampSize
  {
    var w := DecWords(b);
    Export(ToSeconds(w[0]), w[1], w[2], 0, 0, 0, w[3], w[4])
  }

  lemma DecPointEncPoint(p: Point)
    ensures DecPoint(EncPoint(p)) == ExportOf(p)
  {
    DecWordsEncWords([FromSeconds(p.when), p.status, p.val, p.exp, p.delt]);
  }

  /** The summary of a period that is over: the time of its last sample, its worst status, mean, bounds and deviation. */
  function SummaryOf(fl: Floats, ps: seq<seq<Point>>, i: nat): Export
    requires i < |ps| && ps[i] != []
  {
    var a := PeriodAcc(fl, ps, i);
    var n := fl.of(a.nsamp);
    var ave := fl.div(a.sigm, n);
    var variance := fl.sub(fl.div(a.sigm2, n), fl.mul(ave, ave));
    Export(ToSeconds(FromSeconds(ps[i][|ps[i]| - 1].when)), a.status, ave, a.min, a.max,
           if fl.less(fl.zero, variance) then fl.sqrt(variance) else fl.zero, fl.div(a.exp, n), fl.div(a.delt, n))
  }

  function DecSummary(b: seq<Byte>): Export
    requires |b| == SummySize
  {
    var w := DecWords(b);
    Export(ToSeconds(w[0]), w[1], w[4], w[2], w[3], w[5], w[6], w[7])
  }

  lemma DecSummaryBack(fl: Floats, ps: seq<seq<Point>>, i: nat)
    requires i < |ps| && ps[i] != []
    ensures DecSummary(EncSummary(fl, PeriodAcc(fl, ps, i), FromSeconds(ps[i][|ps[i]| - 1].when))) == SummaryOf(fl, ps, i)
  {
    DecEight(EncSummary(fl, PeriodAcc(fl, ps, i), FromSeconds(ps[i][|ps[i]| - 1].when)), fl, PeriodAcc(fl, ps, i),
             FromSeconds(ps[i][|ps[i]| - 1].when));
  }

  lemma DecEight(b: seq<Byte>, fl: Floats, a: Acc, lastt: U32)
    requires b == EncSummary(fl, a, lastt)
    ensures var n := fl.of(a.nsamp);
            var ave := fl.div(a.sigm, n);
            var variance := fl.sub(fl.div(a.sigm2, n), fl.mul(ave, ave));
            DecSummary(b) == Export(ToSeconds(lastt), a.status, ave, a.min, a.max,
                                    if fl.less(fl.zero, variance) then fl.sqrt(variance) else fl.zero,
                                    fl.div(a.exp, n), fl.div(a.delt, n))
  {
    var n := fl.of(a.nsamp);
    var ave := fl.div(a.sigm, n);
    var variance := fl.sub(fl.div(a.sigm2, n), fl.mul(ave, ave));
    DecWordsEncWords([lastt, a.status, a.min, a.max, ave,
                      if fl.less(fl.zero, variance) then fl.sqrt(variance) else fl.zero,
                      fl.div(a.exp, n), fl.div(a.delt, n)]);
  }

  /** Every `sub`-th element, from the first on. */
  function Strided<T>(xs: seq<T>, sub: nat): seq<T>
    requires sub > 0
  {
    if xs == [] then []
    else Strided(xs[..|xs| - 1], sub) + if (|xs| - 1) % sub == 0 then [xs[|xs| - 1]] else []
  }

  function CeilDiv(n: nat, d: nat): nat
    requires d > 0
  {
    (n + d - 1) / d
  }

  /** The stride for showing `n` records in `width`: all of them when no width is given. */
  function Stride(n: nat, width: int): nat {
    if width < 1 then 1 else CeilDiv(n, width)
  }

  // ---- what a file keeps ----

  /** The last of some things, as many as a ring holds. */
  function Kept<T>(xs: seq<T>): (k: seq<T>)
    ensures |k| == Filled(|xs|)
  {
    xs[|xs| - Filled(|xs|)..]
  }

  function Exports(hist: seq<Point>): (es: seq<Export>)
    ensures |es| == |hist|
  {
    seq(|hist|, i requires 0 <= i < |hist| => ExportOf(hist[i]))
  }

  /** One for each hour, or day, that is over. */
  function SummaryExports(fl: Floats, unit: nat -> int, hist: seq<Point>): (es: seq<Export>)
    ensures |es| == |Summaries(fl, unit, hist)|
  {
    var ps := Periods(unit, hist);
    seq(|Summaries(fl, unit, hist)|, i requires 0 <= i < |Summaries(fl, unit, hist)| => SummaryOf(fl, ps, i))
  }

  /** The records of a ring, as what they are when read. */
  ghost predicate ReadsAs(items: seq<seq<Byte>>, size: RecordSize, es: seq<Export>) {
    && AllSized(items, size) && |es| == |items|
    && forall j :: 0 <= j < |items| ==> Decoded(items[j], size) == es[j]
  }

  function Decoded(b: seq<Byte>, size: RecordSize): Export
    requires |b| == size
  {
    if size == SampSize then DecPoint(b) else DecSummary(b)
  }

  lemma SamplesRead(hist: seq<Point>)
    ensures ReadsAs(Records(hist), SampSize, Exports(hist))
  {
    forall j | 0 <= j < |hist| ensures DecPoint(Records(hist)[j]) == Exports(hist)[j] {
      DecPointEncPoint(hist[j]);
    }
  }

  lemma SummariesRead(fl: Floats, unit: nat -> int, hist: seq<Point>)
    ensures ReadsAs(Summaries(fl, unit, hist), SummySize, SummaryExports(fl, unit, hist))
  {
    var ps, rs := Periods(unit, hist), Summaries(fl, unit, hist);
    forall j | 0 <= j < |rs| ensures DecSummary(rs[j]) == SummaryExports(fl, unit, hist)[j] {
      DecSummaryBack(fl, ps, j);
    }
  }

  /** The file has the last of `items` in the ring at `start`. */
  ghost predicate HasRing(data: seq<Byte>, start: nat, size: RecordSize, items: seq<seq<Byte>>) {
    RingHolds(data, start, size, Slot(|items|), Filled(|items|), items)
  }

  lemma HeldRings(g: GraphData)
    requires g.Valid()
    ensures HasRing(g.f.data, SampStart, SampSize, Records(g.hist))
    ensures HasRing(g.f.data, HourStart, SummySize, Summaries(g.fl, g.cal.hour, g.hist))
    ensures HasRing(g.f.data, DayStart, SummySize, Summaries(g.fl, g.cal.day, g.hist))
    ensures g.samp.idx == Slot(|g.hist|) && g.samp.count == Filled(|g.hist|)
    ensures g.hour.idx == Slot(|Summaries(g.fl, g.cal.hour, g.hist)|)
    ensures g.hour.count == Filled(|Summaries(g.fl, g.cal.hour, g.hist)|)
    ensures g.day.idx == Slot(|Summaries(g.fl, g.cal.day, g.hist)|)
    ensures g.day.count == Filled(|Summaries(g.fl, g.cal.day, g.hist)|)
  {
  }

  /** `res` is every so many of `kept`, so that there are no more than `width`, if that is given. */
  ghost predicate IsReading(res: seq<Export>, kept: seq<Export>, width: int) {
    if kept == [] then res == []
    else Stride(|kept|, width) > 0 && res == Strided(kept, Stride(|kept|, width))
  }

  // ---- what is found in the slots ----

  /** What is read where nothing was written. */
  const VOID := Export(0, 0, 0, 0, 0, 0, 0, 0)

  /** The latest of `n` records that went to a slot. */
  function Holder(n: nat, slot: nat): (j: nat)
    requires slot < NMax && slot < n
    ensures j < n <= j + NMax && Slot(j) == slot
  {
    n - 1 - (n - 1 - slot) % NMax
  }

  lemma HolderIs(n: nat, j: nat)
    requires j < n <= j + NMax
    ensures Slot(j) < n && Holder(n, Slot(j)) == j
  {
    var h := Holder(n, Slot(j));
    if h < j {
      SlotsApart(h, j);
    } else if j < h {
      SlotsApart(j, h);
    }
  }

  function InSlot(es: seq<Export>, slot: nat): Export
    requires slot < NMax
  {
    if slot < |es| then es[Holder(|es|, slot)] else VOID
  }

  /** What is in so many slots from one on, going round. */
  function Seen(es: seq<Export>, first: nat, num: nat): seq<Export> {
    seq(num, i requires 0 <= i < num => InSlot(es, Slot(first + i)))
  }

  /** Every so many, if later than some time. */
  function Newer(xs: seq<Export>, since: int, sub: nat): seq<Export>
    requires sub > 0
  {
    if xs == [] then []
    else
      var k := |xs| - 1;
      Newer(xs[..k], since, sub) + if k % sub == 0 && (since <= 0 || xs[k].time > since) then [xs[k]] else []
  }

  /** Of a ring not yet full, this is what is there from a slot on. */
  function From(es: seq<Export>, first: nat, num: nat): seq<Export> {
    if first >= |es| then [] else es[first..if first + num < |es| then first + num else |es|]
  }

  function LastOf(es: seq<Export>, m: nat): seq<Export> {
    if m < |es| then es[|es| - m..] else es
  }

  lemma {:induction false} NewerVoid(xs: seq<Export>, n: nat, since: int, sub: nat)
    requires sub > 0 && since > 0 && n <= |xs| && forall i :: n <= i < |xs| ==> xs[i] == VOID
    ensures Newer(xs, since, sub) == Newer(xs[..n], since, sub)
  {
    if n < |xs| {
      var k := |xs| - 1;
      NewerVoid(xs[..k], n, since, sub);
      assert xs[..k][..n] == xs[..n];
    } else {
      assert xs[..n] == xs;
    }
  }

  lemma InOwnSlot(j: nat)
    ensures j < NMax ==> Slot(j) == j
  {
  }

  /** Before the ring is full. */
  lemma SeenOpen(es: seq<Export>, first: nat, num: nat, since: int, sub: nat)
    requires |es| < NMax && first + num <= NMax && since > 0 && sub > 0
    ensures Newer(Seen(es, first, num), since, sub) == Newer(From(es, first, num), since, sub)
  {
    var seen, there := Seen(es, first, num), From(es, first, num);
    forall i | 0 <= i < num ensures seen[i] == if first + i < |es| then es[first + i] else VOID {
      OpenSlot(es, first + i);
    }
    assert seen[..|there|] == there;
    NewerVoid(seen, |there|, since, sub);
  }

  lemma OpenSlot(es: seq<Export>, j: nat)
    requires |es| < NMax && j < NMax
    ensures InSlot(es, Slot(j)) == if j < |es| then es[j] else VOID
  {
    InOwnSlot(j);
    if j < |es| {
      HolderIs(|es|, j);
    }
  }

  /** The last ones, from where the oldest of them is. */
  lemma SeenLast(es: seq<Export>, first: nat, m: nat)
    requires m <= |es| && m <= NMax && Slot(first) == Slot(|es| - m)
    ensures Seen(es, first, m) == LastOf(es, m)
  {
    forall i | 0 <= i < m ensures Seen(es, first, m)[i] == es[|es| - m + i] {
      SameSlots(first, |es| - m, i);
      HolderIs(|es|, |es| - m + i);
    }
  }

  lemma SameSlots(a: nat, b: nat, i: nat)
    requires Slot(a) == Slot(b)
    ensures Slot(a + i) == Slot(b + i)
  {
  }

  /** More than the ring holds: the newest come first, and again after all the others. */
  lemma SeenRound(es: seq<Export>, first: nat, k: nat)
    requires k <= NMax <= |es| && Slot(first) == Slot(|es| - k)
    ensures Seen(es, first, NMax + k) == LastOf(es, k) + LastOf(es, NMax)
  {
    SeenLast(es, first, k);
    SameSlots(first, |es| - k, k);
    Around(|es|);
    SeenLast(es, first + k, NMax);
    SeenSplit(es, first, k, NMax);
  }

  lemma SeenSplit(es: seq<Export>, first: nat, a: nat, b: nat)
    ensures Seen(es, first, a + b) == Seen(es, first, a) + Seen(es, first + a, b)
  {
  }

  lemma Around(n: nat)
    requires n >= NMax
    ensures Slot(n) == Slot(n - NMax)
  {
  }

  // ---- reading a stretch of slots ----

  /** The reader goes round a ring of the file. */
  ghost predicate OnRing(r: CbufReader, size: RecordSize, items: seq<seq<Byte>>)
    reads r, r.f, r.buf
  {
    r.Valid() && r.sectsize == Offset(0, size, NMax) && HasRing(r.f.data, r.sectoff, size, items)
  }

  /** It stands at a slot, or for good at the end of the file, which is before all slots in use. */
  ghost predicate Standing(r: CbufReader, size: RecordSize, n: nat, at: nat)
    reads r, r.f
  {
    StandsAt(r.f.data, r.sectoff, size, n, at, r.Next())
  }

  ghost predicate StandsAt(data: seq<Byte>, start: nat, size: RecordSize, n: nat, at: nat, next: int) {
    next == Offset(0, size, Slot(at)) || (n < NMax && n <= at && start + next >= |data|)
  }

  /** Going round is allowed only in a full ring. */
  predicate Reachable(n: nat, first: nat, num: nat) {
    n >= NMax || first + num <= NMax
  }

  /** So many records from a slot on, later than some time, and every so many of them. */
  method ReadFrom(f: File, start: nat, size: RecordSize, first: nat, num: int, since: int, sub: nat,
                  ghost items: seq<seq<Byte>>, ghost es: seq<Export>)
    returns (res: seq<Export>)
    requires HasRing(f.data, start, size, items) && ReadsAs(items, size, es)
    requires num > 0 ==> first < NMax && sub > 0 && Reachable(|items|, first, num)
    modifies f`pos
    ensures res == if num <= 0 then [] else Newer(Seen(es, first, num), since, sub)
  {
    var r := new CbufReader(f, start, Offset(0, size, NMax));
    r.Seek(Offset(0, size, first));
    if num <= 0 {
      return [];
    }
    InOwnSlot(first);
    res := ReadOn(r, size, first, num, since, sub, items, es);
  }

  method ReadOn(r: CbufReader, size: RecordSize, ghost first: nat, num: nat, since: int, sub: nat,
                ghost items: seq<seq<Byte>>, ghost es: seq<Export>)
    returns (res: seq<Export>)
    requires OnRing(r, size, items) && ReadsAs(items, size, es)
    requires sub > 0 && Reachable(|items|, first, num) && Standing(r, size, |items|, first)
    modifies r`sectpos, r`bpos, r`bend, r.f`pos, r.buf
    ensures res == Newer(Seen(es, first, num), since, sub)
  {
    res := [];
    for i := 0 to num
      invariant OnRing(r, size, items) && Standing(r, size, |items|, first + i)
      invariant res == Newer(Seen(es, first, i), since, sub)
    {
      var e := ReadSlot(r, size, items, es, first + i);
      NewerNext(es, first, i, since, sub);
      if since > 0 && e.time <= since {
        continue;
      }
      if i % sub != 0 {
        continue;
      }
      res := res + [e];
    }
  }

  lemma NewerNext(es: seq<Export>, first: nat, i: nat, since: int, sub: nat)
    requires sub > 0
    ensures Newer(Seen(es, first, i + 1), since, sub)
         == Newer(Seen(es, first, i), since, sub)
            + if i % sub == 0 && (since <= 0 || InSlot(es, Slot(first + i)).time > since)
              then [InSlot(es, Slot(first + i))] else []
  {
    assert Seen(es, first, i + 1)[..i] == Seen(es, first, i);
  }

  /** The next record; where there is none, nothing. */
  method ReadSlot(r: CbufReader, size: RecordSize, ghost items: seq<seq<Byte>>, ghost es: seq<Export>, ghost at: nat)
    returns (e: Export)
    requires OnRing(r, size, items) && ReadsAs(items, size, es) && Standing(r, size, |items|, at)
    requires |items| < NMax ==> at < NMax
    modifies r`sectpos, r`bpos, r`bend, r.f`pos, r.buf
    ensures OnRing(r, size, items) && Standing(r, size, |items|, at + 1)
    ensures e == InSlot(es, Slot(at))
  {
    ghost var next, data := r.Next(), r.f.data;
    var p := new Byte[size](_ => 0);
    var nr, ok := r.Read(p);
    SlotRead(data, r.sectoff, size, items, es, at, next, p[..nr], ok, r.Next());
    e := VOID;
    if ok {
      assert p[..nr] == p[..];
      e := Decoded(p[..], size);
    }
  }

  lemma SlotRead(data: seq<Byte>, start: nat, size: RecordSize, items: seq<seq<Byte>>, es: seq<Export>, at: nat,
                 next: int, out: seq<Byte>, ok: bool, next': int)
    requires HasRing(data, start, size, items) && ReadsAs(items, size, es) && (|items| < NMax ==> at < NMax)
    requires 0 <= next < Offset(0, size, NMax)
    requires StandsAt(data, start, size, |items|, at, next)
    requires Ringed(data, start, Offset(0, size, NMax), next, out) && |out| <= size && (ok <==> |out| == size)
    requires next' == Spot(next, |out|, Offset(0, size, NMax)) && (!ok ==> start + next' >= |data|)
    ensures InSlot(es, Slot(at)) == if ok then Decoded(out, size) else VOID
    ensures StandsAt(data, start, size, |items|, at + 1, next')
  {
    NextSlot(at);
    InOwnSlot(at);
    if Slot(at) < |items| {
      WrittenRead(data, start, size, items, Slot(at), out, ok);
    } else {
      VacantRead(data, start, size, |items|, at, next, out, ok);
    }
  }

  lemma NextSlot(j: nat)
    ensures (Slot(j) + 1) % NMax == Slot(j + 1)
  {
  }

  lemma WrittenRead(data: seq<Byte>, start: nat, size: RecordSize, items: seq<seq<Byte>>, slot: nat, out: seq<Byte>,
                    ok: bool)
    requires HasRing(data, start, size, items) && slot < NMax && slot < |items|
    requires Offset(0, size, slot) < Offset(0, size, NMax)
    requires Ringed(data, start, Offset(0, size, NMax), Offset(0, size, slot), out)
    requires |out| <= size && (ok <==> |out| == size)
    requires !ok ==> start + Spot(Offset(0, size, slot), |out|, Offset(0, size, NMax)) >= |data|
    ensures ok && out == items[Holder(|items|, slot)]
    ensures Spot(Offset(0, size, slot), size, Offset(0, size, NMax)) == Offset(0, size, (slot + 1) % NMax)
  {
    var j := Holder(|items|, slot);
    assert Holds(data, Offset(start, size, Slot(j)), items[j]);
    RecordRead(data, start, size, slot, items[j], out, ok);
  }

  /** Nothing but zeros comes from a slot not used, and from the end of the file nothing. */
  lemma VacantRead(data: seq<Byte>, start: nat, size: RecordSize, n: nat, at: nat, next: int, out: seq<Byte>, ok: bool)
    requires n <= at < NMax && Vacant(data, Offset(start, size, n), Offset(start, size, NMax))
    requires 0 <= next < Offset(0, size, NMax)
    requires next == Offset(0, size, at) || start + next >= |data|
    requires Ringed(data, start, Offset(0, size, NMax), next, out) && |out| <= size && (ok <==> |out| == size)
    ensures ok ==> Decoded(out, size) == VOID && next == Offset(0, size, at)
    ensures start + next >= |data| ==> !ok && |out| == 0
    ensures next == Offset(0, size, at) ==> Spot(next, size, Offset(0, size, NMax)) == Offset(0, size, (at + 1) % NMax)
  {
    var whole := Offset(0, size, NMax);
    if start + next >= |data| {
      assert |out| > 0 ==> HoldsAt(data, start, whole, next, 0, out[0]);
    }
    if next == Offset(0, size, at) {
      OneRecordOn(size, at);
      forall k | 0 <= k < |out| ensures out[k] == 0 {
        SpotAhead(next, 0, k, whole);
        assert HoldsAt(data, start, whole, next, k, out[k]);
      }
      if ok {
        DecodedZeros(out, size);
      }
    }
  }

  lemma DecodedZeros(b: seq<Byte>, size: RecordSize)
    requires |b| == size && forall k :: 0 <= k < |b| ==> b[k] == 0
    ensures Decoded(b, size) == VOID
  {
    WordsOfZeros(b);
  }

  lemma {:induction false} WordsOfZeros(b: seq<Byte>)
    requires |b| % 4 == 0 && forall k :: 0 <= k < |b| ==> b[k] == 0
    ensures forall k :: 0 <= k < |DecWords(b)| ==> DecWords(b)[k] == 0
  {
    if b != [] {
      WordsOfZeros(b[4..]);
    }
  }

  /** Reading as many bytes as a record has where the file holds one yields it and leads to the next slot. */
  lemma RecordRead(data: seq<Byte>, start: nat, size: RecordSize, slot: nat, rec: seq<Byte>, out: seq<Byte>, ok: bool)
    requires slot < NMax && |rec| == size && Holds(data, Offset(start, size, slot), rec)
    requires Offset(0, size, slot) < Offset(0, size, NMax)
    requires Ringed(data, start, Offset(0, size, NMax), Offset(0, size, slot), out)
    requires |out| <= size && (ok <==> |out| == size)
    requires !ok ==> start + Spot(Offset(0, size, slot), |out|, Offset(0, size, NMax)) >= |data|
    ensures ok && out == rec
    ensures Spot(Offset(0, size, slot), size, Offset(0, size, NMax)) == Offset(0, size, (slot + 1) % NMax)
  {
    var first, whole := Offset(0, size, slot), Offset(0, size, NMax);
    SpotAhead(first, 0, |out|, whole);
    OneRecordOn(size, slot);
    forall k | 0 <= k < |out| ensures out[k] == rec[k] {
      ByteRead(data, start, whole, first, rec, out, k);
    }
  }

  lemma OneRecordOn(size: RecordSize, slot: nat)
    requires slot < NMax && Offset(0, size, slot) < Offset(0, size, NMax)
    ensures Spot(Offset(0, size, slot), size, Offset(0, size, NMax)) == Offset(0, size, (slot + 1) % NMax)
  {
    SpotAhead(Offset(0, size, slot), 0, size, Offset(0, size, NMax));
  }

  lemma ByteRead(data: seq<Byte>, off: nat, size: nat, start: nat, rec: seq<Byte>, out: seq<Byte>, k: nat)
    requires k < |out| <= |rec| && start + |rec| <= size && Holds(data, off + start, rec)
    requires start < size && Ringed(data, off, size, start, out)
    ensures out[k] == rec[k]
  {
    SpotAhead(start, 0, k, size);
    assert HoldsAt(data, off, size, start, k, out[k]);
    assert rec[k] == data[off + start..off + start + |rec|][k];
  }

  lemma StridePositive(n: nat, width: int, w: nat)
    requires n > 0 && w == if width < 1 then n else width
    ensures CeilDiv(n, w) == Stride(n, width) > 0
  {
    if width < 1 {
      DivIs(n + n - 1, n, 1, n - 1);
    } else {
      QuotientAtLeastOne(n + w - 1, w);
    }
  }

  lemma DivIs(x: nat, d: nat, q: nat, r: nat)
    requires r < d && x == q * d + r
    ensures x / d == q
  {
    ModIs(x, q, r, d);
    assert x == x / d * d + r;
    SameQuotient(q, x / d, d);
  }

  lemma SameQuotient(a: nat, b: nat, d: nat)
    requires d > 0 && a * d == b * d
    ensures a == b
  {
    if a > b {
      OneMoreTime(a, b, d);
    } else if b > a {
      OneMoreTime(b, a, d);
    }
  }

  lemma QuotientAtLeastOne(x: nat, d: nat)
    requires d > 0 && x >= d
    ensures x / d >= 1
  {
  }

  /** A strided selection has the first element of each stride, and ceil(n / sub) of them. */
  lemma {:induction false} StridedAt<T>(xs: seq<T>, sub: nat, k: nat)
    requires sub > 0
    ensures |Strided(xs, sub)| == CeilDiv(|xs|, sub)
    ensures k < |Strided(xs, sub)| ==> k * sub < |xs| && Strided(xs, sub)[k] == xs[k * sub]
  {
    if xs == [] {
      DivIs(sub - 1, sub, 0, sub - 1);
    } else {
      var n := |xs| - 1;
      StridedAt(xs[..n], sub, k);
      CeilStep(n, sub);
      if n % sub == 0 && k == |Strided(xs[..n], sub)| {
        assert k * sub == n by { ExactDiv(n, sub); }
      }
    }
  }

  /** One more element is selected exactly when its position is a multiple of the stride. */
  lemma CeilStep(n: nat, d: nat)
    requires d > 0
    ensures CeilDiv(n + 1, d) == CeilDiv(n, d) + if n % d == 0 then 1 else 0
  {
    var q, r := n / d, n % d;
    assert n == q * d + r;
    if r == 0 {
      DivIs(n + d - 1, d, q, d - 1);
      assert n + d == (q + 1) * d;
      DivIs(n + d, d, q + 1, 0);
    } else {
      assert n + d - 1 == (q + 1) * d + (r - 1);
      assert n + d == (q + 1) * d + r;
      DivIs(n + d - 1, d, q + 1, r - 1);
      DivIs(n + d, d, q + 1, r);
    }
  }

  lemma ExactDiv(n: nat, d: nat)
    requires d > 0 && n % d == 0
    ensures CeilDiv(n, d) * d == n
  {
    assert n == n / d * d;
    DivIs(n + d - 1, d, n / d, d - 1);
  }

  /** No more points than the width asked for. */
  lemma WithinWidth<T>(xs: seq<T>, width: nat)
    requires xs != [] && width > 0
    ensures Stride(|xs|, width) > 0 && |Strided(xs, Stride(|xs|, width))| <= width
  {
    var n := |xs|;
    StridePositive(n, width, width);
    var sub := CeilDiv(n, width);
    StridedAt(xs, sub, 0);
    CeilCovers(n, width);
    CeilWithin(n, sub, width);
  }

  /** `d` times the rounded-up quotient covers `n`. */
  lemma CeilCovers(n: nat, d: nat)
    requires d > 0
    ensures CeilDiv(n, d) * d >= n
  {
    var x := n + d - 1;
    assert x == x / d * d + x % d;
  }

  lemma CeilWithin(n: nat, d: nat, w: nat)
    requires d > 0 && n <= d * w
    ensures CeilDiv(n, d) <= w
  {
    var x := n + d - 1;
    assert x == x / d * d + x % d;
    if x / d > w {
      OneMoreTime(x / d, w, d);
    }
  }

  /** Without a width, all that is kept is returned: the last 1024, oldest first. */
  lemma FullRead(res: seq<Export>, es: seq<Export>, width: int)
    requires width < 1 && IsReading(res, Kept(es), width)
    ensures res == Kept(es)
  {
    StrideOne(Kept(es));
  }

  lemma {:induction false} StrideOne<T>(xs: seq<T>)
    ensures Strided(xs, 1) == xs
  {
    if xs != [] {
      StrideOne(xs[..|xs| - 1]);
      assert xs == xs[..|xs| - 1] + [xs[|xs| - 1]];
    }
  }
}
