/** The operations on a graph file, against the history of samples added to it. */
module GraphFile {
  import opened Wrappers
  import opened Bytes
  import opened Cbuf
  import opened Graphd

  // ---- the header on disk ----

  datatype Sect = Sect(idx: nat, count: nat, acc: Acc)

  const MAGIC: seq<Byte> := [0x41, 0x47, 0x44, 0x35]
  const SectSize := 128
  const HeaderLen := 512

  /** The 32-bit width of the counters. */
  predicate Fits(s: Sect) {
    s.idx < 0x8000_0000 && s.count < 0x8000_0000 && s.acc.nsamp < 0x8000_0000
  }

  function SectWords(s: Sect): (ws: seq<U32>)
    requires Fits(s)
    ensures |ws| == 11
  {
    [s.idx, NMax, s.count, s.acc.nsamp, s.acc.min, s.acc.max, s.acc.sigm, s.acc.sigm2, s.acc.exp, s.acc.delt, s.acc.status]
  }

  function EncSect(s: Sect): (b: seq<Byte>)
    requires Fits(s)
    ensures |b| == SectSize
  {
    EncWords(SectWords(s)) + Zeros(84)
  }

  function DecSect(b: seq<Byte>): Sect
    requires |b| == SectSize
  {
    var w := DecWords(b[..44]);
    Sect(w[0], w[2], Acc(w[3], w[4], w[5], w[6], w[7], w[8], w[9], w[10]))
  }

  lemma DecSectEncSect(s: Sect)
    requires Fits(s)
    ensures DecSect(EncSect(s)) == s
  {
    assert EncSect(s)[..44] == EncWords(SectWords(s));
    DecWordsEncWords(SectWords(s));
  }

  datatype Header = Header(lastt: U32, samp: Sect, hour: Sect, day: Sect)

  predicate FitsAll(h: Header) {
    Fits(h.samp) && Fits(h.hour) && Fits(h.day)
  }

  function EncHeader(h: Header): (b: seq<Byte>)
    requires FitsAll(h)
    ensures |b| == HeaderLen
  {
    (MAGIC + Enc32(h.lastt) + Zeros(120)) + EncSect(h.samp) + EncSect(h.hour) + EncSect(h.day)
  }

  function DecHeader(b: seq<Byte>): Option<Header>
    requires |b| == HeaderLen
  {
    if b[..4] != MAGIC then None
    else Some(Header(Dec32(b[4..8]), DecSect(b[128..256]), DecSect(b[256..384]), DecSect(b[384..512])))
  }

  lemma HeaderParts(a: seq<Byte>, b: seq<Byte>, c: seq<Byte>, d: seq<Byte>)
    requires |a| == |b| == |c| == |d| == SectSize
    ensures (a + b + c + d)[..128] == a && (a + b + c + d)[128..256] == b
    ensures (a + b + c + d)[256..384] == c && (a + b + c + d)[384..512] == d
  {
  }

  /** What save writes, readHeader reads back. */
  lemma DecHeaderEncHeader(h: Header)
    requires FitsAll(h)
    ensures DecHeader(EncHeader(h)) == Some(h)
  {
    var first := MAGIC + Enc32(h.lastt) + Zeros(120);
    HeaderParts(first, EncSect(h.samp), EncSect(h.hour), EncSect(h.day));
    var b := EncHeader(h);
    assert b[..4] == b[..128][..4] == first[..4] == MAGIC;
    assert b[4..8] == b[..128][4..8] == first[4..8] == Enc32(h.lastt);
    Dec32Enc32(h.lastt);
    DecSectEncSect(h.samp);
    DecSectEncSect(h.hour);
    DecSectEncSect(h.day);
  }

  // ---- what the file must hold after a history of samples ----

  function Records(hist: seq<Point>): (rs: seq<seq<Byte>>)
    ensures |rs| == |hist|
  {
    seq(|hist|, i requires 0 <= i < |hist| => EncPoint(hist[i]))
  }

  function Filled(n: nat): nat {
    if n < NMax then n else NMax
  }

  function SectOf(n: nat, acc: Acc): Sect {
    Sect(Slot(n), Filled(n), acc)
  }

  function HeaderOf(fl: Floats, cal: Calendar, hist: seq<Point>): Header {
    Header(LastTime(hist),
           SectOf(|hist|, Empty(fl)),
           SectOf(|Summaries(fl, cal.hour, hist)|, Running(fl, cal.hour, hist)),
           SectOf(|Summaries(fl, cal.day, hist)|, Running(fl, cal.day, hist)))
  }

  ghost predicate RingsHold(data: seq<Byte>, fl: Floats, cal: Calendar, hist: seq<Point>) {
    var h := HeaderOf(fl, cal, hist);
    && RingHolds(data, SampStart, SampSize, h.samp.idx, h.samp.count, Records(hist))
    && RingHolds(data, HourStart, SummySize, h.hour.idx, h.hour.count, Summaries(fl, cal.hour, hist))
    && RingHolds(data, DayStart, SummySize, h.day.idx, h.day.count, Summaries(fl, cal.day, hist))
  }

  /** A file that was closed after these samples. */
  ghost predicate Stored(data: seq<Byte>, fl: Floats, cal: Calendar, hist: seq<Point>) {
    && FitsAll(HeaderOf(fl, cal, hist))
    && Holds(data, 0, EncHeader(HeaderOf(fl, cal, hist)))
    && RingsHold(data, fl, cal, hist)
  }

  class HeaderSect {
    var idx: nat
    var count: nat
    var nsamp: nat
    var min: U32
    var max: U32
    var sigm: U32
    var sigm2: U32
    var exp: U32
    var delt: U32
    var status: U32

    constructor (s: Sect)
      ensures Value() == s
    {
      idx, count, nsamp := s.idx, s.count, s.acc.nsamp;
      min, max, sigm, sigm2 := s.acc.min, s.acc.max, s.acc.sigm, s.acc.sigm2;
      exp, delt, status := s.acc.exp, s.acc.delt, s.acc.status;
    }

    function Sums(): Acc
      reads this
    {
      Acc(nsamp, min, max, sigm, sigm2, exp, delt, status)
    }

    function Value(): Sect
      reads this
    {
      Sect(idx, count, Sums())
    }

    method Add(fl: Floats, p: Point)
      modifies this`nsamp, this`min, this`max, this`sigm, this`sigm2, this`exp, this`delt, this`status
      ensures Sums() == Gather(fl, old(Sums()), p)
      ensures nsamp == old(nsamp) + 1 && status >= old(status) && status >= p.status && status in {old(status), p.status}
      ensures fl.less(p.val, old(min)) ==> min == p.val
      ensures !fl.less(p.val, old(min)) ==> min == old(min)
      ensures fl.less(old(max), p.val) ==> max == p.val
      ensures !fl.less(old(max), p.val) ==> max == old(max)
      ensures sigm == fl.add(old(sigm), p.val) && sigm2 == fl.add(old(sigm2), fl.mul(p.val, p.val))
      ensures exp == fl.add(old(exp), p.exp) && delt == fl.add(old(delt), p.delt)
    {
      nsamp := nsamp + 1;
      if fl.less(p.val, min) {
        min := p.val;
      }
      if fl.less(max, p.val) {
        max := p.val;
      }
      sigm := fl.add(sigm, p.val);
      sigm2 := fl.add(sigm2, fl.mul(p.val, p.val));
      exp := fl.add(exp, p.exp);
      delt := fl.add(delt, p.delt);
      if p.status > status {
        status := p.status;
      }
    }

    method Clear(fl: Floats, val: U32)
      modifies this`nsamp, this`min, this`max, this`sigm, this`sigm2, this`exp, this`delt, this`status
      ensures Sums() == Reset(fl, val)
    {
      nsamp, min, max, sigm, sigm2, exp, delt, status := 0, val, val, fl.zero, fl.zero, fl.zero, fl.zero, 0;
    }

    method Advance()
      modifies this`idx, this`count
      ensures idx == (old(idx) + 1) % NMax && count == Bumped(old(count))
    {
      idx := (idx + 1) % NMax;
      count := count + 1;
      if count > NMax {
        count := NMax;
      }
    }
  }

  method WriteAt(f: File, pos: nat, b: seq<Byte>)
    modifies f
    ensures f.data == Patched(old(f.data), pos, b)
  {
    f.Seek(pos);
    f.Write(b);
  }

  /** An open graph file. */
  class GraphData {
    const fl: Floats
    const cal: Calendar
    const f: File
    const samp: HeaderSect
    const hour: HeaderSect
    const day: HeaderSect
    var lastt: U32
    ghost var hist: seq<Point>    // every sample ever added

    ghost predicate Valid()
      reads this, f, samp, hour, day
    {
      && samp != hour && samp != day && hour != day
      && HeaderNow() == HeaderOf(fl, cal, hist)
      && RingsHold(f.data, fl, cal, hist)
    }

    function HeaderNow(): Header
      reads this, samp, hour, day
    {
      Header(lastt, samp.Value(), hour.Value(), day.Value())
    }

    constructor (f: File, h: Header, fl: Floats, cal: Calendar, ghost hist: seq<Point>)
      requires h == HeaderOf(fl, cal, hist) && RingsHold(f.data, fl, cal, hist)
      ensures Valid() && this.hist == hist && this.f == f && this.fl == fl && this.cal == cal
      ensures fresh(samp) && fresh(hour) && fresh(day)
    {
      this.f, this.fl, this.cal, this.hist := f, fl, cal, hist;
      samp := new HeaderSect(h.samp);
      hour := new HeaderSect(h.hour);
      day := new HeaderSect(h.day);
      lastt := h.lastt;
    }

    /** Write the sample in its slot. */
    method AddRecord(p: Point)
      modifies f, samp`idx, samp`count
      ensures f.data == Patched(old(f.data), Offset(SampStart, SampSize, old(samp.idx)), EncPoint(p))
      ensures samp.Value() == Sect((old(samp.idx) + 1) % NMax, Bumped(old(samp.count)), old(samp.Sums()))
    {
      WriteAt(f, SampStart + SampSize * samp.idx, EncPoint(p));
      samp.Advance();
    }

    /** Close a period: write its record and start the next one. */
    method Roll(h: HeaderSect, start: nat, val: U32)
      requires h != samp
      modifies f, h
      ensures if old(h.nsamp) == 0 then f.data == old(f.data) && h.Value() == old(h.Value())
              else
                && f.data == Patched(old(f.data), Offset(start, SummySize, old(h.idx)), EncSummary(fl, old(h.Sums()), lastt))
                && h.Value() == Sect((old(h.idx) + 1) % NMax, Bumped(old(h.count)), Reset(fl, val))
    {
      if h.nsamp == 0 {
        return;
      }
      WriteAt(f, start + SummySize * h.idx, EncSummary(fl, h.Sums(), lastt));
      h.Advance();
      h.Clear(fl, val);
    }

    /** Roll a section when its period has changed, then gather the sample into it. */
    method RollDay(p: Point)
      requires day != samp
      modifies f, day
      ensures f.data == Rolled(old(f.data), fl, DayStart, old(day.Value()), lastt, cal.day, p)
      ensures day.Value() == RolledSect(old(day.Value()), fl, lastt, cal.day, p)
    {
      if cal.day(ToSeconds(lastt)) != cal.day(p.when) {
        Roll(day, DayStart, p.val);
      }
    }

    method RollHour(p: Point)
      requires hour != samp
      modifies f, hour
      ensures f.data == Rolled(old(f.data), fl, HourStart, old(hour.Value()), lastt, cal.hour, p)
      ensures hour.Value() == RolledSect(old(hour.Value()), fl, lastt, cal.hour, p)
    {
      if cal.hour(ToSeconds(lastt)) != cal.hour(p.when) {
        Roll(hour, HourStart, p.val);
      }
    }

    method Summarize(p: Point)
      requires samp != hour && samp != day && hour != day
      modifies f, hour, day
      ensures
        var d := Rolled(old(f.data), fl, DayStart, old(day.Value()), lastt, cal.day, p);
        f.data == Rolled(d, fl, HourStart, old(hour.Value()), lastt, cal.hour, p)
      ensures hour.Value() == Gathered(RolledSect(old(hour.Value()), fl, lastt, cal.hour, p), fl, p)
      ensures day.Value() == Gathered(RolledSect(old(day.Value()), fl, lastt, cal.day, p), fl, p)
    {
      RollDay(p);
      RollHour(p);
      hour.Add(fl, p);
      day.Add(fl, p);
    }

    method AddSample(p: Point)
      requires samp != hour && samp != day && hour != day
      modifies this`lastt, f, samp`idx, samp`count, hour, day
      ensures f.data == AddedData(old(f.data), fl, cal, old(HeaderNow()), p)
      ensures HeaderNow() == AddedHeader(fl, cal, old(HeaderNow()), p)
    {
      ghost var d, m, hv, dv := f.data, samp.Value(), hour.Value(), day.Value();
      AddRecord(p);
      ghost var now := samp.Value();
      assert hour.Value() == hv && day.Value() == dv;
      Summarize(p);
      assert samp.Value() == now;
      lastt := FromSeconds(p.when);
    }

    /** One sample: its record, the summaries of the periods it closes, and the sums of those it joins. */
    method Add(p: Point)
      requires Valid()
      modifies this`lastt, this`hist, f, samp`idx, samp`count, hour, day
      ensures Valid() && hist == old(hist) + [p]
    {
      ghost var data, h := f.data, HeaderNow();
      AddSample(p);
      AddKeeps(data, fl, cal, hist, p, h, f.data, HeaderNow(), hist + [p]);
      hist := hist + [p];
    }
  }

  // ---- opening, saving, adding ----

  method Save(g: GraphData)
    requires g.Valid() && FitsAll(g.HeaderNow())
    modifies g.f
    ensures g.Valid() && g.hist == old(g.hist) && Stored(g.f.data, g.fl, g.cal, g.hist)
  {
    var h := g.HeaderNow();
    HeaderElsewhere(g.f.data, g.fl, g.cal, g.hist, EncHeader(h));
    WriteAt(g.f, 0, EncHeader(h));
  }

  predicate HasMagic(data: seq<Byte>) {
    |data| >= HeaderLen && data[..4] == MAGIC
  }

  /** Open a graph file by reading its header; None without the magic bytes. */
  method Open(f: File, fl: Floats, cal: Calendar, ghost hist: seq<Point>) returns (r: Option<GraphData>)
    requires HasMagic(f.data) ==> Stored(f.data, fl, cal, hist)
    ensures r.Some? <==> HasMagic(f.data)
    ensures r.Some? ==>
      var g := r.value;
      fresh(g) && fresh(g.samp) && fresh(g.hour) && fresh(g.day)
      && g.Valid() && g.f == f && g.fl == fl && g.cal == cal && g.hist == hist
  {
    if !HasMagic(f.data) {
      return None;
    }
    var b := f.data[..HeaderLen];
    assert b[..4] == f.data[..4];
    DecHeaderEncHeader(HeaderOf(fl, cal, hist));
    assert b == EncHeader(HeaderOf(fl, cal, hist));
    var g := new GraphData(f, DecHeader(b).value, fl, cal, hist);
    return Some(g);
  }

  /** A new file has no samples yet; an old one is emptied. */
  method Create(f: File, fl: Floats, cal: Calendar) returns (g: GraphData)
    modifies f
    ensures f.data == []
    ensures fresh(g) && fresh(g.samp) && fresh(g.hour) && fresh(g.day)
    ensures g.Valid() && g.f == f && g.fl == fl && g.cal == cal && g.hist == []
  {
    f.Truncate();
    g := new GraphData(f, HeaderOf(fl, cal, []), fl, cal, []);
  }

  /** DEPENDS and UNKNOWN are recorded as CLEAR. */
  function Normal(p: Point): Point {
    if p.status == 7 || p.status == 0 then p.(status := 1) else p
  }

  /** The file is no graph file, which counts as empty, or was closed after `hist`. */
  ghost predicate Archive(data: seq<Byte>, fl: Floats, cal: Calendar, hist: seq<Point>) {
    (!HasMagic(data) && hist == []) || Stored(data, fl, cal, hist)
  }

  /** Add one sample to the file of that name: open or create, add, save, close. From an archive of a history it
      makes the archive of the history one longer, as long as the counters fit their width. */
  method AddToFile(f: File, fl: Floats, cal: Calendar, p: Point, ghost hist: seq<Point>)
    requires Archive(f.data, fl, cal, hist) && FitsAll(HeaderOf(fl, cal, hist + [Normal(p)]))
    modifies f
    ensures Archive(f.data, fl, cal, hist + [Normal(p)])
  {
    StoredHasMagic(f.data, fl, cal, hist);
    var o := Open(f, fl, cal, hist);
    var g: GraphData;
    if o.None? {
      g := Create(f, fl, cal);
    } else {
      g := o.value;
    }
    g.Add(Normal(p));
    Save(g);
  }

  lemma StoredHasMagic(data: seq<Byte>, fl: Floats, cal: Calendar, hist: seq<Point>)
    requires Archive(data, fl, cal, hist)
    ensures if HasMagic(data) then Stored(data, fl, cal, hist) else hist == []
  {
    if Stored(data, fl, cal, hist) {
      var h := EncHeader(HeaderOf(fl, cal, hist));
      assert data[..4] == data[0..0 + |h|][..4] == h[..4] == MAGIC;
    }
  }

  /** Writing the header leaves the rings alone. */
  lemma HeaderElsewhere(data: seq<Byte>, fl: Floats, cal: Calendar, hist: seq<Point>, b: seq<Byte>)
    requires RingsHold(data, fl, cal, hist) && |b| == HeaderLen
    ensures RingsHold(Patched(data, 0, b), fl, cal, hist)
  {
    var h := HeaderOf(fl, cal, hist);
    RingElsewhere(data, SampStart, SampSize, h.samp.idx, h.samp.count, Records(hist), 0, b);
    RingElsewhere(data, HourStart, SummySize, h.hour.idx, h.hour.count, Summaries(fl, cal.hour, hist), 0, b);
    RingElsewhere(data, DayStart, SummySize, h.day.idx, h.day.count, Summaries(fl, cal.day, hist), 0, b);
  }

  // ---- the effect of a roll ----

  predicate Rolls(s: Sect, lastt: U32, unit: nat -> int, p: Point) {
    unit(ToSeconds(lastt)) != unit(p.when) && s.acc.nsamp != 0
  }

  function Rolled(data: seq<Byte>, fl: Floats, start: nat, s: Sect, lastt: U32, unit: nat -> int, p: Point): seq<Byte> {
    if Rolls(s, lastt, unit, p)
    then Patched(data, Offset(start, SummySize, s.idx), EncSummary(fl, s.acc, lastt)) else data
  }

  function RolledSect(s: Sect, fl: Floats, lastt: U32, unit: nat -> int, p: Point): Sect {
    if Rolls(s, lastt, unit, p) then Sect((s.idx + 1) % NMax, Bumped(s.count), Reset(fl, p.val)) else s
  }

  /** A section and its ring are what `hist` dictates. */
  ghost predicate UnitHolds(data: seq<Byte>, fl: Floats, start: nat, unit: nat -> int, hist: seq<Point>, s: Sect) {
    && s == SectOf(|Summaries(fl, unit, hist)|, Running(fl, unit, hist))
    && RingHolds(data, start, SummySize, s.idx, s.count, Summaries(fl, unit, hist))
  }

  lemma {:induction false} GatheredSome(fl: Floats, a: Acc, ps: seq<Point>)
    ensures GatherAll(fl, a, ps).nsamp == a.nsamp + |ps|
  {
    if ps != [] {
      GatheredSome(fl, a, ps[..|ps| - 1]);
    }
  }

  /** A section has samples from the first one on. */
  lemma RunningSome(fl: Floats, unit: nat -> int, hist: seq<Point>)
    ensures Running(fl, unit, hist).nsamp == 0 <==> hist == []
  {
    var ps: seq<seq<Point>> := Periods(unit, hist);
    if hist != [] {
      var k: nat := |ps| - 1;
      GatheredSome(fl, if k == 0 then Empty(fl) else Reset(fl, ps[k][0].val), ps[k]);
    }
  }

  /** Rolling and then gathering keeps a section what the history dictates. */
  lemma UnitRolled(data: seq<Byte>, fl: Floats, start: nat, unit: nat -> int, hist: seq<Point>, s: Sect, p: Point)
    requires UnitHolds(data, fl, start, unit, hist, s)
    ensures
      var t := RolledSect(s, fl, LastTime(hist), unit, p);
      UnitHolds(Rolled(data, fl, start, s, LastTime(hist), unit, p), fl, start, unit, hist + [p],
                t.(acc := Gather(fl, t.acc, p)))
  {
    RunningSome(fl, unit, hist);
    RunningGrows(fl, unit, hist, p);
    SummariesGrow(fl, unit, hist, p);
    var rs := Summaries(fl, unit, hist);
    assert Rolls(s, LastTime(hist), unit, p) <==> Closes(unit, hist, p);
    if Closes(unit, hist, p) {
      RingAppends(data, start, SummySize, s.idx, s.count, rs, EncSummary(fl, s.acc, LastTime(hist)));
    } else {
      assert rs + [] == rs;
    }
  }

  /** A roll of one ring leaves another alone. */
  lemma RolledElsewhere(data: seq<Byte>, fl: Floats, start: nat, s: Sect, lastt: U32, unit: nat -> int, p: Point,
                        start': nat, size: RecordSize, idx: nat, count: nat, items: seq<seq<Byte>>)
    requires RingHolds(data, start', size, idx, count, items) && s.idx < NMax
    requires Offset(start, SummySize, NMax) <= start' || Offset(start', size, NMax) <= start
    ensures RingHolds(Rolled(data, fl, start, s, lastt, unit, p), start', size, idx, count, items)
  {
    if Rolls(s, lastt, unit, p) {
      RingElsewhere(data, start', size, idx, count, items, Offset(start, SummySize, s.idx), EncSummary(fl, s.acc, lastt));
    }
  }

  /** Between the steps of Add, each ring and section is what its own history dictates. */
  ghost predicate Between(data: seq<Byte>, fl: Floats, cal: Calendar, hist: seq<Point>, hours: seq<Point>,
                          days: seq<Point>, h: Sect, d: Sect)
  {
    && RingHolds(data, SampStart, SampSize, Slot(|hist|), Filled(|hist|), Records(hist))
    && UnitHolds(data, fl, HourStart, cal.hour, hours, h)
    && UnitHolds(data, fl, DayStart, cal.day, days, d)
  }

  function Gathered(s: Sect, fl: Floats, p: Point): Sect {
    s.(acc := Gather(fl, s.acc, p))
  }

  lemma RecordAdded(data: seq<Byte>, fl: Floats, cal: Calendar, hist: seq<Point>, p: Point)
    requires RingsHold(data, fl, cal, hist)
    ensures
      var h, d := HeaderOf(fl, cal, hist), Patched(data, Offset(SampStart, SampSize, Slot(|hist|)), EncPoint(p));
      Between(d, fl, cal, hist + [p], hist, hist, h.hour, h.day)
  {
    var h := HeaderOf(fl, cal, hist);
    var at := Offset(SampStart, SampSize, Slot(|hist|));
    assert Records(hist + [p]) == Records(hist) + [EncPoint(p)];
    RingAppends(data, SampStart, SampSize, h.samp.idx, h.samp.count, Records(hist), EncPoint(p));
    RingElsewhere(data, HourStart, SummySize, h.hour.idx, h.hour.count, Summaries(fl, cal.hour, hist), at, EncPoint(p));
    RingElsewhere(data, DayStart, SummySize, h.day.idx, h.day.count, Summaries(fl, cal.day, hist), at, EncPoint(p));
  }

  lemma DayStep(data: seq<Byte>, fl: Floats, cal: Calendar, hist: seq<Point>, p: Point, h: Sect, d: Sect)
    requires Between(data, fl, cal, hist + [p], hist, hist, h, d)
    ensures Between(Rolled(data, fl, DayStart, d, LastTime(hist), cal.day, p), fl, cal, hist + [p], hist, hist + [p],
                    h, Gathered(RolledSect(d, fl, LastTime(hist), cal.day, p), fl, p))
  {
    var l, now := LastTime(hist), hist + [p];
    UnitRolled(data, fl, DayStart, cal.day, hist, d, p);
    RolledElsewhere(data, fl, DayStart, d, l, cal.day, p, SampStart, SampSize, Slot(|now|), Filled(|now|), Records(now));
    RolledElsewhere(data, fl, DayStart, d, l, cal.day, p, HourStart, SummySize, h.idx, h.count,
                    Summaries(fl, cal.hour, hist));
  }

  lemma HourStep(data: seq<Byte>, fl: Floats, cal: Calendar, hist: seq<Point>, p: Point, h: Sect, d: Sect)
    requires Between(data, fl, cal, hist + [p], hist, hist + [p], h, d)
    ensures Between(Rolled(data, fl, HourStart, h, LastTime(hist), cal.hour, p), fl, cal, hist + [p], hist + [p], hist + [p],
                    Gathered(RolledSect(h, fl, LastTime(hist), cal.hour, p), fl, p), d)
  {
    var l, now := LastTime(hist), hist + [p];
    UnitRolled(data, fl, HourStart, cal.hour, hist, h, p);
    RolledElsewhere(data, fl, HourStart, h, l, cal.hour, p, SampStart, SampSize, Slot(|now|), Filled(|now|), Records(now));
    RolledElsewhere(data, fl, HourStart, h, l, cal.hour, p, DayStart, SummySize, d.idx, d.count,
                    Summaries(fl, cal.day, now));
  }

  function AddedData(data: seq<Byte>, fl: Floats, cal: Calendar, h: Header, p: Point): seq<Byte> {
    var d1 := Patched(data, Offset(SampStart, SampSize, h.samp.idx), EncPoint(p));
    var d2 := Rolled(d1, fl, DayStart, h.day, h.lastt, cal.day, p);
    Rolled(d2, fl, HourStart, h.hour, h.lastt, cal.hour, p)
  }

  function AddedHeader(fl: Floats, cal: Calendar, h: Header, p: Point): Header {
    Header(FromSeconds(p.when),
           Sect((h.samp.idx + 1) % NMax, Bumped(h.samp.count), h.samp.acc),
           Gathered(RolledSect(h.hour, fl, h.lastt, cal.hour, p), fl, p),
           Gathered(RolledSect(h.day, fl, h.lastt, cal.day, p), fl, p))
  }

  lemma AllBetween(data: seq<Byte>, fl: Floats, cal: Calendar, hist: seq<Point>, h: Header)
    requires Between(data, fl, cal, hist, hist, hist, h.hour, h.day)
    requires h.lastt == LastTime(hist) && h.samp == SectOf(|hist|, Empty(fl))
    ensures RingsHold(data, fl, cal, hist)
    ensures HeaderOf(fl, cal, hist) == h
  {
  }

  lemma AddSteps(data: seq<Byte>, fl: Floats, cal: Calendar, hist: seq<Point>, p: Point, h: Header,
                 data': seq<Byte>, h': Header)
    requires RingsHold(data, fl, cal, hist) && h == HeaderOf(fl, cal, hist)
    requires data' == AddedData(data, fl, cal, h, p) && h' == AddedHeader(fl, cal, h, p)
    ensures Between(data', fl, cal, hist + [p], hist + [p], hist + [p], h'.hour, h'.day)
  {
    var d1 := Patched(data, Offset(SampStart, SampSize, h.samp.idx), EncPoint(p));
    var d2 := Rolled(d1, fl, DayStart, h.day, h.lastt, cal.day, p);
    RecordAdded(data, fl, cal, hist, p);
    DayStep(d1, fl, cal, hist, p, h.hour, h.day);
    HourStep(d2, fl, cal, hist, p, h.hour, Gathered(RolledSect(h.day, fl, h.lastt, cal.day, p), fl, p));
  }

  lemma AddedFields(fl: Floats, cal: Calendar, hist: seq<Point>, p: Point, h: Header, now: seq<Point>, h': Header)
    requires h.samp == SectOf(|hist|, Empty(fl)) && now == hist + [p] && h' == AddedHeader(fl, cal, h, p)
    ensures h'.lastt == LastTime(now) && h'.samp == SectOf(|now|, Empty(fl))
  {
  }

  /** What Add does to the file and the sections is what the longer history dictates. */
  lemma AddKeeps(data: seq<Byte>, fl: Floats, cal: Calendar, hist: seq<Point>, p: Point, h: Header,
                 data': seq<Byte>, h': Header, now: seq<Point>)
    requires RingsHold(data, fl, cal, hist) && h == HeaderOf(fl, cal, hist) && now == hist + [p]
    requires data' == AddedData(data, fl, cal, h, p) && h' == AddedHeader(fl, cal, h, p)
    ensures RingsHold(data', fl, cal, now) && HeaderOf(fl, cal, now) == h'
  {
    AddSteps(data, fl, cal, hist, p, h, data', h');
    AddedFields(fl, cal, hist, p, h, now, h');
    AllBetween(data', fl, cal, now, h');
  }
}
