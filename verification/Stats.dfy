/** Up and down times of a monitor, by day, month and year. */
module Stats {

  const MAXSTAT := 14
  const SECSNANO := 1_000_000_000

  const UNKNOWN := 0
  const CLEAR := 1

  /** One period: when it began (nanoseconds), and seconds and counts since. */
  datatype StatDat = StatDat(start: int, elapsed: int, ndown: int, tup: int, tdn: int)

  /** What a moment is called on the local calendar; `second` counts from midnight. */
  datatype Civil = Civil(year: int, month: int, day: int, second: int)

  datatype Total = Total(elapsed: int, ndown: int, tup: int, tdn: int)
  {
    function Plus(t: Total): Total {
      Total(elapsed + t.elapsed, ndown + t.ndown, tup + t.tup, tdn + t.tdn)
    }
  }

  const NOTHING := Total(0, 0, 0, 0)

  function Of(d: StatDat): Total {
    Total(d.elapsed, d.ndown, d.tup, d.tdn)
  }

  function Sum(s: seq<StatDat>): Total {
    if s == [] then NOTHING else Of(s[0]).Plus(Sum(s[1..]))
  }

  /** The seconds `dt`, spent in one status. */
  function Spent(status: int, dt: int): Total {
    if status == CLEAR || status == UNKNOWN then Total(dt, 0, dt, 0) else Total(dt, 0, 0, dt)
  }

  /** What `dt` seconds in a status add: clear, or not known, is up, and everything else is down. */
  ghost predicate Booking(t: Total, status: int, dt: int, falls: int) {
    && t.elapsed == dt && t.ndown == falls
    && (status in {0, 1} ==> t.tup == dt && t.tdn == 0)
    && (status !in {0, 1} ==> t.tup == 0 && t.tdn == dt)
  }

  /** A tier is between one and fourteen periods, each fully accounted for. */
  predicate Good(s: seq<StatDat>) {
    1 <= |s| <= MAXSTAT && forall d :: d in s ==> d.elapsed == d.tup + d.tdn
  }

  /** A total goes to the current period. */
  function Added(s: seq<StatDat>, t: Total): (r: seq<StatDat>)
    requires s != []
    ensures |r| == |s|
  {
    var d := s[0];
    s[0 := d.(elapsed := d.elapsed + t.elapsed, ndown := d.ndown + t.ndown, tup := d.tup + t.tup, tdn := d.tdn + t.tdn)]
  }

  /** A new period starts; the oldest may go. */
  function RolledOver(s: seq<StatDat>, t: int): (r: seq<StatDat>) {
    var longer := [StatDat(t * SECSNANO, 0, 0, 0, 0)] + s;
    if |longer| > MAXSTAT then longer[..MAXSTAT] else longer
  }

  /** What a new period pushes out. */
  function Evicted(s: seq<StatDat>): Total {
    if |s| >= MAXSTAT then Sum(s[MAXSTAT - 1..]) else NOTHING
  }

  lemma AddedSum(s: seq<StatDat>, t: Total)
    requires s != []
    ensures Sum(Added(s, t)) == Sum(s).Plus(t)
    ensures Good(s) && t.elapsed == t.tup + t.tdn ==> Good(Added(s, t))
  {
    assert Added(s, t)[1..] == s[1..];
  }

  lemma {:induction false} SumSplit(s: seq<StatDat>, n: nat)
    requires n <= |s|
    ensures Sum(s) == Sum(s[..n]).Plus(Sum(s[n..]))
  {
    if n > 0 {
      SumSplit(s[1..], n - 1);
      assert s[..n][1..] == s[1..][..n - 1];
      assert s[n..] == s[1..][n - 1..];
    } else {
      assert s[n..] == s;
    }
  }

  /** Nothing is lost but what is pushed out. */
  lemma RolledOverSum(s: seq<StatDat>, t: int)
    ensures Sum(RolledOver(s, t)).Plus(Evicted(s)) == Sum(s)
    ensures Good(s) ==> Good(RolledOver(s, t))
  {
    var r := RolledOver(s, t);
    if |s| >= MAXSTAT {
      assert r[1..] == s[..MAXSTAT - 1];
      SumSplit(s, MAXSTAT - 1);
    } else {
      assert r[1..] == s;
    }
  }

  // ---- one tier, with what it has pushed out ----

  datatype Tier = Tier(kept: seq<StatDat>, lost: Total)
  {
    function All(): Total {
      Sum(kept).Plus(lost)
    }

    function Add(t: Total): Tier
      requires kept != []
    {
      Tier(Added(kept, t), lost)
    }

    function Roll(t: int): (r: Tier)
      ensures r.kept != []
    {
      Tier(RolledOver(kept, t), lost.Plus(Evicted(kept)))
    }
  }

  lemma TierAdd(a: Tier, t: Total) returns (r: Tier)
    requires Good(a.kept) && t.elapsed == t.tup + t.tdn
    ensures r == a.Add(t)
    ensures Good(r.kept) && r.All() == a.All().Plus(t)
  {
    r := a.Add(t);
    AddedSum(a.kept, t);
  }

  lemma TierRoll(a: Tier, t: int) returns (r: Tier)
    requires Good(a.kept)
    ensures r == a.Roll(t)
    ensures Good(r.kept) && r.All() == a.All()
  {
    r := a.Roll(t);
    RolledOverSum(a.kept, t);
  }

  // ---- the three tiers ----

  /**
   * The tiers, until when and in which status time is accounted for, and where accounting began (moved on by the
   * time not running).
   */
  datatype Books = Books(daily: Tier, monthly: Tier, yearly: Tier, lastt: int, accounted: int, origin: int)
  {
    predicate Open() {
      daily.kept != [] && monthly.kept != [] && yearly.kept != []
    }

    /** Kept and pushed out, every tier has the same totals, and they are the time since the origin. */
    ghost predicate Balanced(total: Total) {
      && daily.All() == monthly.All() == yearly.All() == total
      && total.elapsed == lastt - origin == total.tup + total.tdn
    }

    ghost predicate Valid(total: Total) {
      Good(daily.kept) && Good(monthly.kept) && Good(yearly.kept) && Balanced(total)
    }

    function Count(t: Total): Books
      requires Open()
    {
      this.(daily := daily.Add(t), monthly := monthly.Add(t), yearly := yearly.Add(t))
    }

    /** Time until `t` is accounted for. */
    function UpTo(t: int): Books
      requires Open()
    {
      Count(Spent(accounted, t - lastt)).(lastt := t)
    }

    function Rolled(t: int, day: bool, month: bool, year: bool): (r: Books)
      ensures Open() ==> r.Open()
    {
      this.(daily := if day then daily.Roll(t) else daily,
            monthly := if month then monthly.Roll(t) else monthly,
            yearly := if year then yearly.Roll(t) else yearly)
    }

    /** Time until now is accounted for; when the day has changed, what came before midnight is yesterday's. */
    function Present(now: int, lt: Civil, ct: Civil): (r: Books)
      requires Open()
      ensures r.Open()
    {
      var midnite := now - ct.second;
      if lt.day != ct.day then UpTo(midnite).Rolled(midnite, true, lt.month != ct.month, lt.year != ct.year).UpTo(now)
      else UpTo(now)
    }

    /** A change of status: time so far was in the old one, and going down is counted. */
    function Changed(now: int, lt: Civil, ct: Civil, status: int): Books
      requires Open()
    {
      var p := Present(now, lt, ct);
      (if Fell(accounted, status) then p.Count(Total(0, 1, 0, 0)) else p).(accounted := status)
    }

    /** Starting up: every tier has a period, and the time not running moves the origin on. */
    function Opened(nano: int, status: int): (r: Books)
      ensures r.Open()
    {
      Books(Begun(daily, nano), Begun(monthly, nano), Begun(yearly, nano), nano / SECSNANO,
            if lastt == 0 then status else accounted, origin + (nano / SECSNANO - lastt))
    }

    /** Periods that are over are rolled. */
    function Resumed(now: int, local: int -> Civil): (r: Books)
      requires Open()
      ensures r.Open()
    {
      var ct, ld := local(now), local(daily.kept[0].start / SECSNANO);
      var lm, ly := local(monthly.kept[0].start / SECSNANO), local(yearly.kept[0].start / SECSNANO);
      Rolled(now, ct.day != ld.day || ct.month != ld.month || ct.year != ld.year,
             ct.month != lm.month || ct.year != lm.year, ct.year != ly.year)
    }

    function Started(nano: int, status: int, local: int -> Civil): Books {
      var now := nano / SECSNANO;
      Opened(nano, status).Resumed(now, local).Changed(now, local(now), local(now), status)
    }
  }

  /** A tier has a period to count in. */
  function Begun(t: Tier, nano: int): (r: Tier)
    ensures r.kept != []
  {
    if t.kept == [] then t.(kept := [StatDat(nano, 0, 0, 0, 0)]) else t
  }

  predicate Fell(was: int, status: int) {
    was == CLEAR && status != CLEAR && status != UNKNOWN
  }

  lemma CountKeeps(b: Books, total: Total, t: Total, lastt: int) returns (r: Books)
    requires b.Valid(total) && t.elapsed == t.tup + t.tdn == lastt - b.lastt
    ensures r == b.Count(t).(lastt := lastt)
    ensures r.Valid(total.Plus(t))
  {
    r := b.Count(t).(lastt := lastt);
    var d := TierAdd(b.daily, t);
    var m := TierAdd(b.monthly, t);
    var y := TierAdd(b.yearly, t);
  }

  lemma RolledKeeps(b: Books, total: Total, t: int, day: bool, month: bool, year: bool) returns (r: Books)
    requires b.Valid(total)
    ensures r == b.Rolled(t, day, month, year)
    ensures r.Valid(total)
  {
    r := b.Rolled(t, day, month, year);
    var d := TierRoll(b.daily, t);
    var m := TierRoll(b.monthly, t);
    var y := TierRoll(b.yearly, t);
  }

  lemma SpentSplit(total: Total, status: int, dt: int, dt': int)
    ensures total.Plus(Spent(status, dt)).Plus(Spent(status, dt')) == total.Plus(Spent(status, dt + dt'))
  {
  }

  lemma UpToKeeps(b: Books, total: Total, t: int) returns (r: Books)
    requires b.Valid(total)
    ensures r == b.UpTo(t) && r.accounted == b.accounted && r.lastt == t
    ensures r.Valid(total.Plus(Spent(b.accounted, t - b.lastt)))
  {
    r := CountKeeps(b, total, Spent(b.accounted, t - b.lastt), t);
  }

  /** Accounting for time keeps the tiers alike, whatever days, months and years begin in between. */
  lemma PresentKeeps(b: Books, total: Total, now: int, lt: Civil, ct: Civil) returns (r: Books)
    requires b.Valid(total)
    ensures r == b.Present(now, lt, ct)
    ensures r.Valid(total.Plus(Spent(b.accounted, now - b.lastt)))
    ensures Booking(Spent(b.accounted, now - b.lastt), b.accounted, now - b.lastt, 0)
  {
    if lt.day != ct.day {
      r := AcrossMidnight(b, total, now - ct.second, now, lt.month != ct.month, lt.year != ct.year);
    } else {
      r := UpToKeeps(b, total, now);
    }
  }

  lemma AcrossMidnight(b: Books, total: Total, midnite: int, now: int, month: bool, year: bool) returns (r: Books)
    requires b.Valid(total)
    ensures r == b.UpTo(midnite).Rolled(midnite, true, month, year).UpTo(now)
    ensures r.Valid(total.Plus(Spent(b.accounted, now - b.lastt)))
  {
    var first := Spent(b.accounted, midnite - b.lastt);
    var u := UpToKeeps(b, total, midnite);
    var v := RolledKeeps(u, total.Plus(first), midnite, true, month, year);
    r := UpToKeeps(v, total.Plus(first), now);
    SpentSplit(total, b.accounted, midnite - b.lastt, now - midnite);
  }

  /** The same where the status changes; one fall is counted if it goes from clear to what is neither clear nor unknown. */
  lemma ChangedKeeps(b: Books, total: Total, now: int, lt: Civil, ct: Civil, status: int) returns (r: Books, t: Total)
    requires b.Valid(total)
    ensures r == b.Changed(now, lt, ct, status)
    ensures r.Valid(total.Plus(t))
    ensures Booking(t, b.accounted, now - b.lastt, if b.accounted == 1 && status !in {0, 1} then 1 else 0)
  {
    t := Spent(b.accounted, now - b.lastt).Plus(Total(0, if Fell(b.accounted, status) then 1 else 0, 0, 0));
    var more := Spent(b.accounted, now - b.lastt);
    r := PresentKeeps(b, total, now, lt, ct);
    if Fell(b.accounted, status) {
      var p := r;
      r := CountKeeps(p, total.Plus(more), Total(0, 1, 0, 0), now);
    }
    r := r.(accounted := status);
  }

  /** The current period has grown by `dt` seconds, up or down, and nothing else has changed. */
  ghost predicate Grown(was: seq<StatDat>, s: seq<StatDat>, dt: int, up: bool) {
    && |s| == |was| > 0 && s[1..] == was[1..] && s[0].start == was[0].start && s[0].ndown == was[0].ndown
    && s[0].elapsed == was[0].elapsed + dt
    && s[0].tup == was[0].tup + (if up then dt else 0) && s[0].tdn == was[0].tdn + (if up then 0 else dt)
  }

  class M {
    const local: int -> Civil          // the calendar, from seconds
    var status: int                    // the monitor's status
    var lastt: int
    var accounted: int
    var daily: seq<StatDat>
    var monthly: seq<StatDat>
    var yearly: seq<StatDat>
    ghost var lostD: Total
    ghost var lostM: Total
    ghost var lostY: Total
    ghost var origin: int

    ghost function State(): Books
      reads this
    {
      Books(Tier(daily, lostD), Tier(monthly, lostM), Tier(yearly, lostY), lastt, accounted, origin)
    }

    constructor (local: int -> Civil, status: int)
      ensures this.local == local && this.status == status
      ensures var none := Tier([], NOTHING); State() == Books(none, none, none, 0, UNKNOWN, 0)
    {
      this.local, this.status := local, status;
      lastt, accounted, daily, monthly, yearly := 0, UNKNOWN, [], [], [];
      lostD, lostM, lostY, origin := NOTHING, NOTHING, NOTHING, 0;
    }

    method Update(t: int)
      requires State().Open()
      modifies this`lastt, this`daily, this`monthly, this`yearly
      ensures State() == old(State()).UpTo(t)
      ensures Grown(old(daily), daily, t - old(lastt), accounted in {0, 1})
      ensures Grown(old(monthly), monthly, t - old(lastt), accounted in {0, 1})
      ensures Grown(old(yearly), yearly, t - old(lastt), accounted in {0, 1})
    {
      var dt := t - lastt;
      if dt == 0 {
        return;
      }
      var more := Spent(accounted, dt);
      daily, monthly, yearly := Added(daily, more), Added(monthly, more), Added(yearly, more);
      lastt := t;
    }

    method RollOver(t: int, day: bool, month: bool, year: bool)
      modifies this`daily, this`monthly, this`yearly, this`lostD, this`lostM, this`lostY
      ensures State() == old(State()).Rolled(t, day, month, year)
    {
      if day {
        lostD := lostD.Plus(Evicted(daily));
        daily := RolledOver(daily, t);
      }
      if month {
        lostM := lostM.Plus(Evicted(monthly));
        monthly := RolledOver(monthly, t);
      }
      if year {
        lostY := lostY.Plus(Evicted(yearly));
        yearly := RolledOver(yearly, t);
      }
    }

    method UpdateMaybeRoll(now: int)
      requires State().Open()
      modifies this`lastt, this`daily, this`monthly, this`yearly, this`lostD, this`lostM, this`lostY
      ensures State() == old(State()).Present(now, local(old(lastt)), local(now))
    {
      var lt, ct := local(lastt), local(now);
      if lt.day != ct.day {
        var midnite := now - ct.second;
        Update(midnite);
        RollOver(midnite, true, ct.month != lt.month, ct.year != lt.year);
      }
      Update(now);
    }

    method Transition(now: int)
      requires State().Open()
      modifies this`lastt, this`accounted, this`daily, this`monthly, this`yearly, this`lostD, this`lostM, this`lostY
      ensures State() == old(State()).Changed(now, local(old(lastt)), local(now), status)
    {
      UpdateMaybeRoll(now);
      if status == UNKNOWN || accounted == UNKNOWN {
        accounted := status;
        return;
      }
      if accounted == CLEAR && status != CLEAR {
        var one := Total(0, 1, 0, 0);
        daily, monthly, yearly := Added(daily, one), Added(monthly, one), Added(yearly, one);
      }
      accounted := status;
    }

    /** Starting up, from nothing or from what was saved: the time not running is not accounted for. */
    method Init(nano: int)
      modifies this
      ensures status == old(status)
      ensures State() == old(State()).Started(nano, status, local)
    {
      var now := nano / SECSNANO;
      Open(nano);
      InitMaybeRoll(now);
      Transition(now);
    }

    method Open(nano: int)
      modifies this`lastt, this`accounted, this`daily, this`monthly, this`yearly, this`origin
      ensures State() == old(State()).Opened(nano, status)
    {
      var now := nano / SECSNANO;
      if lastt == 0 {
        origin := origin + (now - lastt);
        lastt := now;
        accounted := status;
      }
      if |daily| == 0 {
        daily := [StatDat(nano, 0, 0, 0, 0)];
      }
      if |monthly| == 0 {
        monthly := [StatDat(nano, 0, 0, 0, 0)];
      }
      if |yearly| == 0 {
        yearly := [StatDat(nano, 0, 0, 0, 0)];
      }
      origin := origin + (now - lastt);
      lastt := now;
    }

    method InitMaybeRoll(now: int)
      requires State().Open()
      modifies this`daily, this`monthly, this`yearly, this`lostD, this`lostM, this`lostY
      ensures State() == old(State()).Resumed(now, local)
    {
      var ct, ld := local(now), local(daily[0].start / SECSNANO);
      var lm, ly := local(monthly[0].start / SECSNANO), local(yearly[0].start / SECSNANO);
      RollOver(now, ct.day != ld.day || ct.month != ld.month || ct.year != ld.year,
               ct.month != lm.month || ct.year != lm.year, ct.year != ly.year);
    }
  }

  // ---- midnight ----

  /** A tier whose period ended at `midnite`: what came before went to that period, what came after to the new one. */
  ghost predicate SplitAt(a: Tier, r: Tier, midnite: int, before: Total, after: Total) {
    && a.kept != [] && 2 <= |r.kept| <= |a.kept| + 1
    && r.kept[0].start == midnite * SECSNANO && Of(r.kept[0]) == after
    && r.kept[1].start == a.kept[0].start && Of(r.kept[1]) == Of(a.kept[0]).Plus(before)
    && r.kept[2..] == a.kept[1..|r.kept| - 1]
  }

  /** The same for a tier whose period may have gone on. */
  ghost predicate Shared(a: Tier, r: Tier, ended: bool, midnite: int, status: int, before: int, after: int) {
    if ended then SplitAt(a, r, midnite, Spent(status, before), Spent(status, after))
    else a.kept != [] && r == a.Add(Spent(status, before + after))
  }

  lemma TierShared(a: Tier, r: Tier, ended: bool, midnite: int, status: int, before: int, after: int)
    requires Good(a.kept)
    requires var b := a.Add(Spent(status, before));
             r == (if ended then b.Roll(midnite) else b).Add(Spent(status, after))
    ensures Shared(a, r, ended, midnite, status, before, after)
  {
  }

  /** On a new day the interval since last time is split where the clock's time is taken off, in each tier whose period
      ended then: at midnight, if the clock was not changed since. */
  lemma SplitAtMidnight(b: Books, r: Books, now: int, lt: Civil, ct: Civil)
    requires Good(b.daily.kept) && Good(b.monthly.kept) && Good(b.yearly.kept)
    requires lt.day != ct.day && r == b.Present(now, lt, ct)
    ensures var midnite := now - ct.second;
            && Shared(b.daily, r.daily, true, midnite, b.accounted, midnite - b.lastt, ct.second)
            && Shared(b.monthly, r.monthly, lt.month != ct.month, midnite, b.accounted, midnite - b.lastt, ct.second)
            && Shared(b.yearly, r.yearly, lt.year != ct.year, midnite, b.accounted, midnite - b.lastt, ct.second)
  {
    var midnite := now - ct.second;
    TierShared(b.daily, r.daily, true, midnite, b.accounted, midnite - b.lastt, ct.second);
    TierShared(b.monthly, r.monthly, lt.month != ct.month, midnite, b.accounted, midnite - b.lastt, ct.second);
    TierShared(b.yearly, r.yearly, lt.year != ct.year, midnite, b.accounted, midnite - b.lastt, ct.second);
  }

  // ---- intervals across several midnights ----

  /** What the code takes for the last midnight: now less the time on the clock. */
  function Midnight(now: int, local: int -> Civil): int {
    now - local(now).second
  }

  /** A moment is in a day, and the midnight that the time on its clock gives is less than a day off the day's start. */
  predicate InDay(second: int, t: int, start: int -> int, d: int) {
    start(d) <= t < start(d + 1) && start(d - 1) < t - second < start(d + 1)
  }

  predicate Follows(start: int -> int, d: int) {
    start(d) < start(d + 1)
  }

  /** Days follow one another: `date` numbers them, `start` is when they begin; the calendar calls neighbours by
      different days of the month, and the clock may be changed, but by less than a day. */
  ghost predicate Days(local: int -> Civil, date: int -> int, start: int -> int) {
    && (forall t :: InDay(local(t).second, t, start, date(t)))
    && (forall d :: Follows(start, d))
    && (forall t, u :: date(t) == date(u) ==> local(t).day == local(u).day)
    && (forall t, u :: date(u) == date(t) + 1 ==> local(t).day != local(u).day)
  }

  /** The part of an interval that goes to the daily period in place when it began. */
  function Booked(lastt: int, now: int, lt: Civil, ct: Civil): int {
    if lt.day != ct.day then now - ct.second - lastt else now - lastt
  }

  /** The part of it that belongs to the day it began on. */
  function OwnPart(lastt: int, now: int, date: int -> int, start: int -> int): int {
    if date(now) == date(lastt) then now - lastt else start(date(lastt) + 1) - lastt
  }

  /** What is booked to the period in place, and what to a new one: a new one starts, at the last midnight, exactly if
      the day of the month has changed; and the month's and the year's period only then, if theirs have, too. */
  lemma WhereBooked(b: Books, r: Books, now: int, lt: Civil, ct: Civil)
    requires Good(b.daily.kept) && Good(b.monthly.kept) && Good(b.yearly.kept) && r == b.Present(now, lt, ct)
    ensures var x, y, midnite := Booked(b.lastt, now, lt, ct), if lt.day != ct.day then ct.second else 0, now - ct.second;
            && Shared(b.daily, r.daily, lt.day != ct.day, midnite, b.accounted, x, y)
            && Shared(b.monthly, r.monthly, lt.day != ct.day && lt.month != ct.month, midnite, b.accounted, x, y)
            && Shared(b.yearly, r.yearly, lt.day != ct.day && lt.year != ct.year, midnite, b.accounted, x, y)
  {
    if lt.day != ct.day {
      SplitAtMidnight(b, r, now, lt, ct);
    } else {
      AllInPlace(b.daily, r.daily, b.accounted, now - b.lastt);
      AllInPlace(b.monthly, r.monthly, b.accounted, now - b.lastt);
      AllInPlace(b.yearly, r.yearly, b.accounted, now - b.lastt);
    }
  }

  lemma AllInPlace(t: Tier, r: Tier, status: int, dt: int)
    requires Good(t.kept) && r == t.Add(Spent(status, dt))
    ensures forall midnite :: Shared(t, r, false, midnite, status, dt, 0)
  {
  }

  /**
   * The day an interval begins on is booked its own part of it exactly if the interval ends on the same day, or on the
   * next and the clock shows the time that has passed of that. Otherwise the difference is all up to the supposed midnight, or up to
   * now if the days of the month are the same, less what was its own; and it is too much if a whole day lies in between.
   */
  lemma BookedExactly(local: int -> Civil, date: int -> int, start: int -> int, lastt: int, now: int)
    requires Days(local, date, start) && lastt <= now
    ensures var booked, own := Booked(lastt, now, local(lastt), local(now)), OwnPart(lastt, now, date, start);
            && (booked == own <==>
                  date(now) == date(lastt) || (date(now) == date(lastt) + 1 && Midnight(now, local) == start(date(now))))
            && (date(now) != date(lastt) ==>
                  booked == own + (if local(lastt).day != local(now).day then Midnight(now, local) else now)
                            - start(date(lastt) + 1))
            && (date(now) > date(lastt) + 1 ==> booked > own)
  {
    var d, e := date(lastt), date(now);
    InDays(local, date, start, lastt, now);
    SomeDaysOn(d, e, start(d + 1), start(e - 1), start(e), local(lastt), local(now), lastt, now);
  }

  lemma InDays(local: int -> Civil, date: int -> int, start: int -> int, lastt: int, now: int)
    requires Days(local, date, start) && lastt <= now
    ensures var d, e := date(lastt), date(now);
            && d <= e && lastt < start(d + 1) && start(e - 1) < start(e) <= now
            && start(e - 1) < Midnight(now, local)
            && (d == e ==> local(lastt).day == local(now).day)
            && (e == d + 1 ==> local(lastt).day != local(now).day)
            && (e > d + 1 ==> start(d + 1) <= start(e - 1))
  {
    var d, e := date(lastt), date(now);
    StartsInOrder(start, e + 1, d);
    StartsInOrder(start, d + 1, e - 1);
    assert Follows(start, e - 1);
    assert InDay(local(lastt).second, lastt, start, d) && InDay(local(now).second, now, start, e);
  }

  /** The arithmetic of it: from day `d` to day `e`, by which days begin when. */
  lemma SomeDaysOn(d: int, e: int, next: int, before: int, last: int, lt: Civil, ct: Civil, lastt: int, now: int)
    requires d <= e && lastt < next && before < last <= now && before < now - ct.second
    requires (d == e ==> lt.day == ct.day) && (e == d + 1 ==> lt.day != ct.day && next == last)
    requires e > d + 1 ==> next <= before
    ensures var booked, own := Booked(lastt, now, lt, ct), if e == d then now - lastt else next - lastt;
            && (booked == own <==> e == d || (e == d + 1 && now - ct.second == last))
            && (e != d ==> booked == own + (if lt.day != ct.day then now - ct.second else now) - next)
            && (e > d + 1 ==> booked > own)
  {
  }

  lemma {:induction false} StartsInOrder(start: int -> int, d: int, e: int)
    requires forall x :: Follows(start, x)
    ensures d < e ==> start(d) < start(e)
    decreases e - d
  {
    if d < e {
      StartsInOrder(start, d, e - 1);
      assert Follows(start, e - 1);
    }
  }

  // ---- whole runs ----

  datatype Event = Status(now: int, status: int) | Periodic(now: int) | Restart(nano: int, status: int)

  function Next(b: Books, e: Event, local: int -> Civil): (r: Books)
    requires b.Open()
    ensures r.Open()
  {
    match e
    case Status(now, status) => b.Changed(now, local(b.lastt), local(now), status)
    case Periodic(now) => b.Present(now, local(b.lastt), local(now))
    case Restart(nano, status) => b.Started(nano, status, local)
  }

  function Run(b: Books, es: seq<Event>, local: int -> Civil): (r: Books)
    requires b.Open()
    ensures r.Open()
    decreases |es|
  {
    if es == [] then b else Run(Next(b, es[0], local), es[1..], local)
  }

  /** When something happened, in seconds, and what the status is from then on. */
  function At(e: Event): int {
    match e
    case Status(now, _) => now
    case Periodic(now) => now
    case Restart(nano, _) => nano / 1_000_000_000
  }

  function After(status: int, e: Event): int {
    if e.Periodic? then status else e.status
  }

  /** The time spent up, in clear or not known, or down, in anything else; that before a restart was not running. */
  function TimeIn(up: bool, clock: int, status: int, es: seq<Event>): int
    decreases |es|
  {
    if es == [] then 0
    else (if (status in {0, 1}) == up && !es[0].Restart? then At(es[0]) - clock else 0)
         + TimeIn(up, At(es[0]), After(status, es[0]), es[1..])
  }

  /** How often the status went from clear to failing; the first start of all is no fall. */
  function Falls(clock: int, status: int, es: seq<Event>): nat
    decreases |es|
  {
    if es == [] then 0
    else (if status == 1 && After(status, es[0]) !in {0, 1} && !(es[0].Restart? && clock == 0) then 1 else 0)
         + Falls(At(es[0]), After(status, es[0]), es[1..])
  }

  /** What a stretch of a run has added. */
  ghost predicate Accounts(total: Total, t: Total, clock: int, status: int, es: seq<Event>) {
    && t.tup == total.tup + TimeIn(true, clock, status, es)
    && t.tdn == total.tdn + TimeIn(false, clock, status, es)
    && t.ndown == total.ndown + Falls(clock, status, es)
  }

  lemma AccountsOn(total: Total, u: Total, t: Total, clock: int, status: int, es: seq<Event>)
    requires es != [] && Accounts(total, u, clock, status, [es[0]])
    requires Accounts(u, t, At(es[0]), After(status, es[0]), es[1..])
    ensures Accounts(total, t, clock, status, es)
  {
    var now, later := At(es[0]), After(status, es[0]);
    assert [es[0]][1..] == [];
    assert TimeIn(true, now, later, []) == TimeIn(false, now, later, []) == Falls(now, later, []) == 0;
  }

  lemma StartedKeeps(b: Books, total: Total, nano: int, status: int, local: int -> Civil) returns (r: Books, t: Total)
    requires b.Valid(total)
    ensures r == b.Started(nano, status, local) && r.lastt == nano / SECSNANO && r.accounted == status
    ensures r.Valid(t) && t.elapsed == total.elapsed && t.tup == total.tup && t.tdn == total.tdn
    ensures t.ndown == total.ndown + if b.lastt != 0 && b.accounted == 1 && status !in {0, 1} then 1 else 0
  {
    var now := nano / SECSNANO;
    var p := ResumedKeeps(b.Opened(nano, status), total, now, local);
    r, t := ChangedKeeps(p, total, now, local(now), local(now), status);
    t := total.Plus(t);
  }

  lemma ResumedKeeps(o: Books, total: Total, now: int, local: int -> Civil) returns (p: Books)
    requires o.Valid(total) && o.lastt == now
    ensures p == o.Resumed(now, local) && p.Valid(total) && p.lastt == now
  {
    var ct, ld := local(now), local(o.daily.kept[0].start / SECSNANO);
    var lm, ly := local(o.monthly.kept[0].start / SECSNANO), local(o.yearly.kept[0].start / SECSNANO);
    p := RolledKeeps(o, total, now, ct.day != ld.day || ct.month != ld.month || ct.year != ld.year,
                     ct.month != lm.month || ct.year != lm.year, ct.year != ly.year);
  }

  /** After a start every current period is of this day, month or year; one that was already has gone on. */
  lemma ResumedIsCurrent(b: Books, r: Books, now: int, local: int -> Civil)
    requires b.Open() && r == b.Resumed(now, local)
    ensures var d, ct := local(r.daily.kept[0].start / SECSNANO), local(now);
            d.day == ct.day && d.month == ct.month && d.year == ct.year
    ensures var m, ct := local(r.monthly.kept[0].start / SECSNANO), local(now); m.month == ct.month && m.year == ct.year
    ensures local(r.yearly.kept[0].start / SECSNANO).year == local(now).year
    ensures var d, ct := local(b.daily.kept[0].start / SECSNANO), local(now);
            d.day == ct.day && d.month == ct.month && d.year == ct.year ==> r.daily == b.daily
    ensures var m, ct := local(b.monthly.kept[0].start / SECSNANO), local(now);
            m.month == ct.month && m.year == ct.year ==> r.monthly == b.monthly
    ensures local(b.yearly.kept[0].start / SECSNANO).year == local(now).year ==> r.yearly == b.yearly
  {
    RolledIs(b.daily.kept, now, RolledOver(b.daily.kept, now));
    RolledIs(b.monthly.kept, now, RolledOver(b.monthly.kept, now));
    RolledIs(b.yearly.kept, now, RolledOver(b.yearly.kept, now));
  }

  /** A new period starts from nothing, before those there were, of which the last thirteen stay. */
  lemma RolledIs(s: seq<StatDat>, t: int, r: seq<StatDat>)
    requires r == RolledOver(s, t)
    ensures |r| > 0 && r[0] == StatDat(t * 1_000_000_000, 0, 0, 0, 0) && r[0].start / SECSNANO == t
    ensures r[1..] == if |s| <= 13 then s else s[..13]
  {
  }

  /**
   * Over every run, restarts included: each tier keeps one to fourteen periods, in each of them elapsed is up plus
   * down, and what the tiers kept and pushed out adds up to the same totals: as time up, that spent in clear or not
   * known; as time down, that spent in every other status; and as falls, how often it went from the one to the other.
   * Their elapsed time is what passed on the clock while running.
   */
  lemma {:induction false} RunKeeps(b: Books, total: Total, es: seq<Event>, local: int -> Civil) returns (r: Books, t: Total)
    requires b.Valid(total)
    ensures r == Run(b, es, local)
    ensures r.Valid(t) && Accounts(total, t, b.lastt, b.accounted, es)
    decreases |es|
  {
    if es == [] {
      r, t := b, total;
    } else {
      var n, u := NextKeeps(b, total, es[0], local);
      r, t := RunKeeps(n, u, es[1..], local);
      AccountsOn(total, u, t, b.lastt, b.accounted, es);
    }
  }

  lemma NextKeeps(b: Books, total: Total, e: Event, local: int -> Civil) returns (r: Books, t: Total)
    requires b.Valid(total)
    ensures r == Next(b, e, local) && r.lastt == At(e) && r.accounted == After(b.accounted, e)
    ensures r.Valid(t) && Accounts(total, t, b.lastt, b.accounted, [e])
  {
    match e {
      case Status(now, status) =>
        r, t := ChangedKeeps(b, total, now, local(b.lastt), local(now), status);
        t := total.Plus(t);
      case Periodic(now) =>
        r := PresentKeeps(b, total, now, local(b.lastt), local(now));
        t := total.Plus(Spent(b.accounted, now - b.lastt));
      case Restart(nano, status) =>
        r, t := StartedKeeps(b, total, nano, status, local);
    }
  }

  lemma JustBegun(nano: int)
    ensures Sum([StatDat(nano, 0, 0, 0, 0)]) == NOTHING
  {
    assert [StatDat(nano, 0, 0, 0, 0)][1..] == [];
  }

  /** The first start is from nothing at all. */
  lemma FirstStart(nano: int, status: int, local: int -> Civil) returns (r: Books, t: Total)
    ensures var none := Tier([], NOTHING); r == Books(none, none, none, 0, UNKNOWN, 0).Started(nano, status, local)
    ensures r.Valid(t) && t == NOTHING
  {
    var none := Tier([], NOTHING);
    var one := Tier([StatDat(nano, 0, 0, 0, 0)], NOTHING);
    var now := nano / SECSNANO;
    var o := Books(one, one, one, now, status, now);
    JustBegun(nano);
    assert o.Opened(nano, status) == Books(none, none, none, 0, UNKNOWN, 0).Opened(nano, status);
    r, t := StartedKeeps(o, NOTHING, nano, status, local);
  }
}
