/** What a request for samples, hours or days is answered: everything kept, or what is later than some time. */
module GraphWindow {
  import opened Wrappers
  import opened Bytes
  import opened Cbuf
  import opened Graphd
  import opened GraphFile
  import opened GraphRead

  /** Division and its remainder, toward zero. */
  function Quotient(a: int, b: int): int
    requires b > 0
  {
    if a >= 0 then a / b else -(-a / b)
  }

  function Remainder(a: int, b: int): int
    requires b > 0
  {
    a - Quotient(a, b) * b
  }

  /** How many units of `per` seconds back `since` is. */
  function Back(since: int, now: int, per: int): int
    requires per > 0
  {
    Quotient(now - since + per - 1, per)
  }

  /** With nothing kept there is nothing to divide; the number is not used. */
  function Every(count: nat, width: int): (sub: nat)
    ensures sub > 0
  {
    if count == 0 then 1
    else
      StridePositive(count, width, if width < 1 then count else width);
      Stride(count, width)
  }

  // ---- what is answered ----

  /** Of summaries, once their ring is full the last ones; before, those from a slot counted from the ring's end. */
  function SummariesThere(es: seq<Export>, m: int): seq<Export> {
    if m < 0 || m > NMax then [] else if |es| < NMax then From(es, NMax - m, m) else LastOf(es, m)
  }

  /**
   * Nothing when the time has not come; what is there of as many records as there are units since, if they are no more
   * than a ring holds; and if they are more, the newest once before and once after the others. What is asked for beyond
   * the last place in the ring is not said.
   */
  ghost predicate IsWindow(res: seq<Export>, es: seq<Export>, there: seq<Export>, since: int, m: int, sub: nat)
    requires sub > 0
  {
    if m <= 0 then res == []
    else if m <= NMax then res == Newer(there, since, sub)
    else if |es| >= NMax && m <= NMax + Slot(|es|) then
      res == Newer(LastOf(es, m - NMax) + LastOf(es, NMax), since, sub)
    else true
  }

  // ---- from where reading starts to what it finds ----

  /** The oldest kept record is in slot 0 until the ring is full, and then where the next one will go. */
  lemma FirstSlot(n: nat)
    ensures Slot(n - Filled(n)) == if Filled(n) < NMax then 0 else Slot(n)
  {
  }

  /** Everything kept, from the oldest on. */
  lemma KeptSeen(es: seq<Export>, first: nat)
    requires first == if Filled(|es|) < NMax then 0 else Slot(|es|)
    ensures Seen(es, first, Filled(|es|)) == Kept(es)
  {
    OldestSlot(|es|, first);
    SeenLast(es, first, Filled(|es|));
    KeptIsLast(es);
  }

  lemma OldestSlot(n: nat, first: nat)
    requires first == if Filled(n) < NMax then 0 else Slot(n)
    ensures Slot(first) == Slot(n - Filled(n))
  {
    FirstSlot(n);
    SameSlot(first);
  }

  lemma KeptIsLast(es: seq<Export>)
    ensures LastOf(es, Filled(|es|)) == Kept(es)
  {
  }

  lemma ReadingIs(kept: seq<Export>, width: int, sub: nat)
    requires sub == Every(|kept|, width)
    ensures IsReading(Strided(kept, sub), kept, width)
  {
  }

  lemma SameSlot(first: nat)
    ensures first < NMax ==> Slot(first) == first
  {
  }

  lemma {:induction false} NewerAll(xs: seq<Export>, since: int, sub: nat)
    requires sub > 0 && since <= 0
    ensures Newer(xs, since, sub) == Strided(xs, sub)
  {
    if xs != [] {
      NewerAll(xs[..|xs| - 1], since, sub);
    }
  }

  /** A stretch of a full ring that goes back `m` places from where the next record will go. */
  lemma FullWindow(es: seq<Export>, first: nat, there: seq<Export>, since: int, m: int, sub: nat)
    requires |es| >= NMax && m > 0 && sub > 0 && (m <= NMax ==> there == LastOf(es, m))
    requires m <= NMax + Slot(|es|) ==> first == (Slot(|es|) + NMax - m) % NMax
    ensures IsWindow(Newer(Seen(es, first, m), since, sub), es, there, since, m, sub)
  {
    if m <= NMax {
      PlacesBack(|es|, m);
      SeenLast(es, first, m);
    } else if m <= NMax + Slot(|es|) {
      PlacesBack(|es|, m - NMax);
      SeenRound(es, first, m - NMax);
    }
  }

  lemma PlacesBack(n: nat, m: nat)
    requires m <= NMax <= n
    ensures Slot((Slot(n) + NMax - m) % NMax) == Slot(n - m)
    ensures m <= Slot(n) ==> (Slot(n) + NMax - (m + NMax)) % NMax == (Slot(n) + NMax - m) % NMax
  {
  }

  /** Before the ring is full. */
  lemma OpenWindow(es: seq<Export>, first: nat, there: seq<Export>, since: int, m: int, sub: nat)
    requires |es| < NMax && m > 0 && since > 0 && sub > 0 && first + m <= NMax && there == From(es, first, m)
    ensures IsWindow(Newer(Seen(es, first, m), since, sub), es, there, since, m, sub)
  {
    SeenOpen(es, first, m, since, sub);
  }

  /** Samples: where to start `m` minutes ago. */
  function SampleStart(n: nat, m: int): (first: int)
    ensures m > 0 ==> first < NMax
  {
    var start := Slot(n) - m;
    if n < NMax then if start < 0 then 0 else start
    else if start < 0 then Remainder(start + NMax, NMax) else start
  }

  /** Summaries: where to start `m` units ago. */
  function SummaryStart(n: nat, m: int): (first: int)
    ensures first < NMax
  {
    Remainder((if n < NMax then 0 else Slot(n)) + NMax - m, NMax)
  }

  /** Not before the ring, and not round one that is not full. */
  predicate InRing(n: nat, first: int, m: int) {
    m <= 0 || (0 <= first && (n < NMax ==> first + m <= NMax))
  }

  function SamplesThere(es: seq<Export>, m: int): seq<Export> {
    LastOf(es, if m < 0 then 0 else m)
  }

  lemma SampleWindow(es: seq<Export>, since: int, m: int, sub: nat)
    requires since > 0 && sub > 0 && m > 0
    ensures var first := SampleStart(|es|, m);
            if InRing(|es|, first, m) then
              first < NMax && IsWindow(Newer(Seen(es, first, m), since, sub), es, SamplesThere(es, m), since, m, sub)
            else m > NMax && (|es| < NMax || m > NMax + Slot(|es|))
  {
    var n, first := |es|, SampleStart(|es|, m);
    SameSlot(n);
    if InRing(n, first, m) {
      if n < NMax {
        assert SamplesThere(es, m) == From(es, first, m);
        OpenWindow(es, first, SamplesThere(es, m), since, m, sub);
      } else {
        FullWindow(es, first, SamplesThere(es, m), since, m, sub);
      }
    }
  }

  lemma SummaryWindow(es: seq<Export>, since: int, m: int, sub: nat)
    requires since > 0 && sub > 0 && m > 0
    ensures var first := SummaryStart(|es|, m);
            if InRing(|es|, first, m) then
              first < NMax && IsWindow(Newer(Seen(es, first, m), since, sub), es, SummariesThere(es, m), since, m, sub)
            else m > NMax && (|es| < NMax || m > NMax + Slot(|es|))
  {
    var n, first := |es|, SummaryStart(|es|, m);
    if InRing(n, first, m) {
      if n < NMax {
        assert SummariesThere(es, m) == From(es, first, m);
        OpenWindow(es, first, SummariesThere(es, m), since, m, sub);
      } else {
        FullWindow(es, first, SummariesThere(es, m), since, m, sub);
      }
    }
  }

  // ---- the requests ----

  /** The answer to a request for everything, or for what is later than a time `m` units ago. */
  ghost predicate IsAnswer(res: seq<Export>, es: seq<Export>, there: seq<Export>, since: int, m: int, width: int) {
    if since <= 0 then IsReading(res, Kept(es), width)
    else IsWindow(res, es, there, since, m, Every(Filled(|es|), width))
  }

  /** What reading a stretch gives; what comes of one that leaves the ring, or goes round one that is not full, is not
      said. */
  ghost predicate IsSpan(res: seq<Export>, es: seq<Export>, first: int, num: int, since: int, sub: nat)
    requires sub > 0
  {
    && (num <= 0 ==> res == [])
    && (num > 0 && InRing(|es|, first, num) ==> res == Newer(Seen(es, first, num), since, sub))
  }

  lemma AnswersAll(es: seq<Export>, first: int, num: int, since: int, sub: nat, res: seq<Export>, there: seq<Export>,
                   m: int, width: int)
    requires since <= 0 && sub == Every(Filled(|es|), width) && IsSpan(res, es, first, num, since, sub)
    requires num == Filled(|es|) && first == if num < NMax then 0 else Slot(|es|)
    ensures IsAnswer(res, es, there, since, m, width)
  {
    if num > 0 {
      KeptSeen(es, first);
      NewerAll(Kept(es), since, sub);
    }
    ReadingIs(Kept(es), width, sub);
  }

  lemma AnswersSamples(es: seq<Export>, since: int, m: int, sub: nat, res: seq<Export>, width: int)
    requires since > 0 && sub == Every(Filled(|es|), width) && IsSpan(res, es, SampleStart(|es|, m), m, since, sub)
    ensures IsAnswer(res, es, SamplesThere(es, m), since, m, width)
  {
    if m > 0 {
      SampleWindow(es, since, m, sub);
    }
  }

  lemma AnswersSummaries(es: seq<Export>, since: int, m: int, sub: nat, res: seq<Export>, width: int)
    requires since > 0 && sub == Every(Filled(|es|), width) && IsSpan(res, es, SummaryStart(|es|, m), m, since, sub)
    ensures IsAnswer(res, es, SummariesThere(es, m), since, m, width)
  {
    if m > 0 {
      SummaryWindow(es, since, m, sub);
    }
  }

  method GetSamples(g: GraphData, since: int, now: int, width: int) returns (res: seq<Export>)
    requires g.Valid()
    modifies g.f`pos
    ensures var es, m := Exports(g.hist), Back(since, now, 60); IsAnswer(res, es, SamplesThere(es, m), since, m, width)
  {
    HeldRings(g);
    SamplesRead(g.hist);
    res := ReadSamples(g.f, g.samp.idx, g.samp.count, since, now, width, Records(g.hist), Exports(g.hist));
  }

  method ReadSamples(f: File, idx: nat, count: nat, since: int, now: int, width: int,
                     ghost items: seq<seq<Byte>>, ghost es: seq<Export>)
    returns (res: seq<Export>)
    requires HasRing(f.data, SampStart, SampSize, items) && ReadsAs(items, SampSize, es)
    requires idx == Slot(|items|) && count == Filled(|items|)
    modifies f`pos
    ensures var m := Back(since, now, 60); IsAnswer(res, es, SamplesThere(es, m), since, m, width)
  {
    ghost var m := Back(since, now, 60);
    var startRec: int, numRec: int := idx, count;
    if count < NMax {
      startRec := 0;
    }
    var sub := Every(count, width);
    // estimate where to start
    if since > 0 {
      var minago := Back(since, now, 60);
      startRec := idx - minago;
      if count < NMax {
        if startRec < 0 {
          startRec := 0;
        }
      } else {
        if startRec < 0 {
          startRec := Remainder(startRec + NMax, NMax);
        }
      }
      numRec := minago;
      assert startRec == SampleStart(|es|, m);
    }
    res := ReadSpan(f, SampStart, SampSize, count, startRec, numRec, since, sub, items, es);
    if since > 0 {
      AnswersSamples(es, since, m, sub, res, width);
    } else {
      AnswersAll(es, startRec, numRec, since, sub, res, SamplesThere(es, m), m, width);
    }
  }

  method ReadSpan(f: File, start: nat, size: RecordSize, count: nat, first: int, num: int, since: int, sub: nat,
                  ghost items: seq<seq<Byte>>, ghost es: seq<Export>)
    returns (res: seq<Export>)
    requires HasRing(f.data, start, size, items) && ReadsAs(items, size, es) && count == Filled(|items|)
    requires sub > 0 && (num > 0 ==> first < NMax)
    modifies f`pos
    ensures IsSpan(res, es, first, num, since, sub)
  {
    if num <= 0 {
      return [];
    }
    if first < 0 || (count < NMax && first + num > NMax) {
      res := *;
      return;
    }
    res := ReadFrom(f, start, size, first, num, since, sub, items, es);
  }

  method GetHourSummy(g: GraphData, since: int, now: int, width: int) returns (res: seq<Export>)
    requires g.Valid()
    modifies g.f`pos
    ensures var es, m := SummaryExports(g.fl, g.cal.hour, g.hist), Back(since, now, 3600);
            IsAnswer(res, es, SummariesThere(es, m), since, m, width)
  {
    HeldRings(g);
    SummariesRead(g.fl, g.cal.hour, g.hist);
    res := GetSummy(g.f, HourStart, g.hour.idx, g.hour.count, since, now, width, 3600,
                    Summaries(g.fl, g.cal.hour, g.hist), SummaryExports(g.fl, g.cal.hour, g.hist));
  }

  method GetDaySummy(g: GraphData, since: int, now: int, width: int) returns (res: seq<Export>)
    requires g.Valid()
    modifies g.f`pos
    ensures var es, m := SummaryExports(g.fl, g.cal.day, g.hist), Back(since, now, 24 * 3600);
            IsAnswer(res, es, SummariesThere(es, m), since, m, width)
  {
    HeldRings(g);
    SummariesRead(g.fl, g.cal.day, g.hist);
    res := GetSummy(g.f, DayStart, g.day.idx, g.day.count, since, now, width, 24 * 3600,
                    Summaries(g.fl, g.cal.day, g.hist), SummaryExports(g.fl, g.cal.day, g.hist));
  }

  method GetSummy(f: File, start: nat, idx: nat, count: nat, since: int, now: int, width: int, spu: int,
                  ghost items: seq<seq<Byte>>, ghost es: seq<Export>)
    returns (res: seq<Export>)
    requires HasRing(f.data, start, SummySize, items) && ReadsAs(items, SummySize, es) && spu > 0
    requires idx == Slot(|items|) && count == Filled(|items|)
    modifies f`pos
    ensures var m := Back(since, now, spu); IsAnswer(res, es, SummariesThere(es, m), since, m, width)
  {
    ghost var m := Back(since, now, spu);
    var startRec: int, numRec: int := idx, count;
    if count < NMax {
      startRec := 0;
    }
    var sub := Every(count, width);
    // estimate where to start
    if since > 0 {
      var uago := Back(since, now, spu);
      startRec := startRec + NMax - uago;
      startRec := Remainder(startRec, NMax);
      numRec := uago;
      assert startRec == SummaryStart(|es|, m);
    }
    res := ReadSpan(f, start, SummySize, count, startRec, numRec, since, sub, items, es);
    if since > 0 {
      AnswersSummaries(es, since, m, sub, res, width);
    } else {
      AnswersAll(es, startRec, numRec, since, sub, res, SummariesThere(es, m), m, width);
    }
  }

  // ---- what is missed, and what comes twice ----

  /** Of a stretch that begins later, what is newer than some time is all of it exactly if nothing before is. */
  lemma LaterExactly(xs: seq<Export>, k: nat, since: int)
    requires k <= |xs| && since > 0
    ensures Newer(xs[k..], since, 1) == Newer(xs, since, 1) <==> forall j :: 0 <= j < k ==> xs[j].time <= since
  {
    assert xs == xs[..k] + xs[k..];
    NewerConcat(xs[..k], xs[k..], since);
    NoneNewer(xs[..k], since);
  }

  lemma {:induction false} NewerConcat(xs: seq<Export>, ys: seq<Export>, since: int)
    ensures Newer(xs + ys, since, 1) == Newer(xs, since, 1) + Newer(ys, since, 1)
  {
    if ys == [] {
      assert xs + ys == xs;
    } else {
      var k := |ys| - 1;
      assert (xs + ys)[..|xs| + k] == xs + ys[..k];
      NewerConcat(xs, ys[..k], since);
    }
  }

  lemma {:induction false} NoneNewer(xs: seq<Export>, since: int)
    requires since > 0
    ensures |Newer(xs, since, 1)| == 0 <==> forall j :: 0 <= j < |xs| ==> xs[j].time <= since
  {
    if xs != [] {
      NoneNewer(xs[..|xs| - 1], since);
    }
  }

  /** A request for samples since a time is answered by all that are later exactly if none of those kept before the last
      `m` is, for the `m` minutes that the time is back. */
  lemma SamplesSinceExactly(es: seq<Export>, since: int, m: int, width: int, res: seq<Export>)
    requires since > 0 && 0 < m <= NMax && width < 1 && IsAnswer(res, es, SamplesThere(es, m), since, m, width)
    ensures var kept := Kept(es);
            res == Newer(kept, since, 1) <==> forall j :: 0 <= j < |kept| - m ==> kept[j].time <= since
  {
    var kept := Kept(es);
    EveryOne(|kept|, width);
    if m < |kept| {
      assert LastOf(es, m) == kept[|kept| - m..];
      LaterExactly(kept, |kept| - m, since);
    } else {
      assert LastOf(es, m) == kept;
    }
  }

  lemma EveryOne(count: nat, width: int)
    requires width < 1
    ensures Every(count, width) == 1
  {
    if count > 0 {
      StridePositive(count, width, count);
    }
  }

  /** For hours, or days: once the ring is full that is so, too; before, exactly if none but those in the last `m` places
      of the ring is later. */
  lemma SummariesSinceExactly(es: seq<Export>, since: int, m: int, width: int, res: seq<Export>)
    requires since > 0 && 0 < m <= NMax && width < 1 && IsAnswer(res, es, SummariesThere(es, m), since, m, width)
    ensures var kept := Kept(es);
            res == Newer(kept, since, 1)
            <==> forall j :: 0 <= j < |kept| && j < NMax - m ==> kept[j].time <= since
  {
    var kept := Kept(es);
    EveryOne(|kept|, width);
    if |es| < NMax {
      assert kept == es;
      var k := if NMax - m < |es| then NMax - m else |es|;
      assert SummariesThere(es, m) == es[k..];
      LaterExactly(es, k, since);
    } else {
      assert LastOf(es, m) == kept[NMax - m..];
      LaterExactly(kept, NMax - m, since);
    }
  }

  /** So as long as there are few, a request is answered by nothing, whatever there is. */
  lemma NothingYet(es: seq<Export>, since: int, m: int, width: int, res: seq<Export>)
    requires since > 0 && 0 < m && |es| + m <= NMax && IsAnswer(res, es, SummariesThere(es, m), since, m, width)
    ensures res == []
  {
    EveryOne(0, 0);
  }

  /** From a full ring, a request for a little more than it holds is answered by the newest, and then by all, they again. */
  lemma NewestTwice(es: seq<Export>, there: seq<Export>, since: int, m: int, width: int, res: seq<Export>)
    requires since > 0 && |es| >= NMax && NMax < m <= NMax + Slot(|es|) && width < 1
    requires IsAnswer(res, es, there, since, m, width)
    ensures res == Newer(LastOf(es, m - NMax), since, 1) + Newer(Kept(es), since, 1)
  {
    EveryOne(NMax, width);
    assert LastOf(es, NMax) == Kept(es);
    NewerConcat(LastOf(es, m - NMax), Kept(es), since);
  }
}
