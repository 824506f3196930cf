/** The scheduler: tasks in buckets by due time, handed to three bounded queues when due, while others go on working. */
module Scheduler {
  import opened Wrappers
  import opened Dispatching

  // A bucket: everything due at one second.
  datatype Bucket = Bucket(when: int, todo: set<Task>)

  ghost predicate Sorted(s: seq<Bucket>) {
    forall i, j :: 0 <= i < j < |s| ==> s[i].when < s[j].when
  }

  /** All entries of the schedule, each a due time and a task. */
  ghost function Entries(s: seq<Bucket>): set<Entry> {
    set i, t | 0 <= i < |s| && t in s[i].todo :: (s[i].when, t)
  }

  /** The first bucket not before `when`. */
  function Search(s: seq<Bucket>, when: int): (i: nat)
    ensures i <= |s|
    ensures forall j :: 0 <= j < i ==> s[j].when < when
    ensures i < |s| ==> s[i].when >= when
  {
    if s == [] || s[0].when >= when then 0 else 1 + Search(s[1..], when)
  }

  // ---- the next time ----

  /** Division that truncates toward zero. */
  function Quotient(a: int, b: int): int
    requires b > 0
  {
    if a >= 0 then a / b else -(-a / b)
  }

  /** The first try at the next time on a task's grid: whole periods after its phase. */
  function NextTime(now: int, freq: int, phase: int): int {
    var f := if freq <= 0 then 60 else freq;
    Quotient(now - phase, f) * f + f + phase
  }

  lemma Multiples(a: int, f: int)
    requires f > 0
    ensures a >= 0 ==> a - f < Quotient(a, f) * f <= a
    ensures a < 0 ==> a <= Quotient(a, f) * f < a + f
  {
    if a < 0 {
      assert -Quotient(a, f) * f == -(Quotient(a, f) * f);
    }
  }

  /** It is in the future, on the grid, and within one period of now, or two when the phase itself is still ahead. */
  lemma NextIsNext(now: int, freq: int, phase: int)
    ensures var f := if freq <= 0 then 60 else freq;
            && now < NextTime(now, freq, phase)
            && (now >= phase ==> NextTime(now, freq, phase) <= now + f)
            && (now < phase ==> now + f <= NextTime(now, freq, phase) < now + 2 * f)
            && exists k :: NextTime(now, freq, phase) == phase + k * f
  {
    var f := if freq <= 0 then 60 else freq;
    var q := Quotient(now - phase, f);
    Multiples(now - phase, f);
    assert (q + 1) * f == q * f + f;
    assert NextTime(now, freq, phase) == phase + (q + 1) * f;
  }

  /** When a task runs next: after a delay, if there is one, and not at the full hour. */
  function NextWhen(now: int, freq: int, phase: int, delay: int, extra: int): int {
    var w := if delay > 0 then now + delay else NextTime(now, freq, phase);
    if w % 3600 == 0 then w + extra else w
  }

  /** It is in the future, never at a full hour, and at most four seconds after the delay or the time on the grid. */
  lemma WhenIsNext(now: int, freq: int, phase: int, delay: int, extra: int)
    requires 1 <= extra <= 4
    ensures var w, on := NextWhen(now, freq, phase, delay, extra), NextTime(now, freq, phase);
            && now < w && w % 3600 != 0
            && (if delay > 0 then now + delay else on) <= w <= (if delay > 0 then now + delay else on) + 4
            && (w == (if delay > 0 then now + delay else on) || (w - extra) % 3600 == 0)
  {
    NextIsNext(now, freq, phase);
  }

  // ---- priorities ----

  const EXPRESS_LIMIT := 50

  /** The time a task takes to run, smoothed. */
  function Smoothed(xdt: int, exp: int): int {
    Quotient(3 * (if xdt == 0 then exp else xdt) + exp, 4)
  }

  /** What is high stays high; what runs quickly goes to the express queue. */
  function Rating(p: Prio, xdt: int): Prio {
    if p == High then High else if xdt == 0 || xdt >= EXPRESS_LIMIT then Prio.None else Express
  }

  /** The first time taken counts as it is; a later one a quarter, so that the result is between the two. */
  lemma SmoothedMeans(xdt: int, exp: int)
    requires xdt >= 0 && exp >= 0
    ensures xdt == 0 ==> Smoothed(xdt, exp) == exp
    ensures xdt > 0 ==> 4 * Smoothed(xdt, exp) <= 3 * xdt + exp < 4 * Smoothed(xdt, exp) + 4
    ensures xdt > 0 && exp <= xdt ==> exp <= Smoothed(xdt, exp) <= xdt
    ensures xdt > 0 && xdt <= exp ==> xdt <= Smoothed(xdt, exp) <= exp
  {
  }

  /** Express is what takes less than fifty milliseconds, once that is known. */
  lemma RatingMeans(p: Prio, xdt: int)
    ensures Rating(p, xdt) == High <==> p == High
    ensures p != High && xdt >= 0 ==> (Rating(p, xdt) == Express <==> 1 <= xdt <= 49)
  {
  }

  function SmoothedAll(xdt: int, exps: seq<int>): int
    decreases exps
  {
    if exps == [] then xdt else SmoothedAll(Smoothed(xdt, exps[0]), exps[1..])
  }

  /** Whatever it took so far, some times from now on give a task that is not high either of the other priorities. */
  lemma {:induction false} RatedEither(xdt: int, p: Prio, q: Prio) returns (exps: seq<int>)
    requires p != High && q != High
    ensures exps != [] && Rating(p, SmoothedAll(xdt, exps)) == q
    ensures forall k :: 0 <= k < |exps| ==> exps[k] >= 0
    decreases if xdt > 1 then xdt else 0
  {
    if q == Prio.None {
      exps := [if xdt < 0 then 200 - 3 * xdt else 200];
      OneTime(xdt, exps[0]);
    } else if xdt <= 1 {
      exps := [if xdt < 0 then 4 - 3 * xdt else 1];
      OneTime(xdt, exps[0]);
    } else {
      var rest := RatedEither(Smoothed(xdt, 1), p, q);
      exps := [1] + rest;
      assert exps[1..] == rest;
    }
  }

  lemma OneTime(xdt: int, exp: int)
    ensures SmoothedAll(xdt, [exp]) == Smoothed(xdt, exp)
  {
  }

  class Schedule {
    var schedule: seq<Bucket>
    var when: map<Task, int>      // when each task wants to run, 0 for never
    var locte: map<Task, int>     // the time of the bucket each task points at, which is the bucket: times are unique
    var prio: map<Task, Prio>
    var xdt: map<Task, int>       // the smoothed time each task takes
    const freq: map<Task, int>
    const phase: map<Task, int>
    var priochan: seq<Task>
    var expresschan: seq<Task>
    var workchan: seq<Task>
    var schedchan: seq<Task>      // with those still waiting for room in it

    /** The state, as it is while dispatching, or not. */
    ghost function AsOf(busy: Option<int>): Board
      reads this
    {
      Board(Entries(schedule), locte, when, prio, Queues(priochan, expresschan, workchan), schedchan, busy)
    }

    ghost predicate Valid()
      reads this
    {
      Sorted(schedule) && Good(AsOf(Option.None))
    }

    /** The periods and phases of tasks, and which of them are high, are settled when they are made. */
    constructor (high: set<Task>, freq: map<Task, int>, phase: map<Task, int>)
      ensures Valid() && AsOf(Option.None) == Start(high) && this.freq == freq && this.phase == phase
    {
      schedule, when, locte, xdt := [], map[], map[], map[];
      prio := map d | d in high :: High;
      this.freq, this.phase := freq, phase;
      priochan, expresschan, workchan, schedchan := [], [], [], [];
    }

    function When(d: Task): int
      reads this
    {
      if d in when then when[d] else 0
    }

    function Prio(d: Task): Prio
      reads this
    {
      PrioIn(prio, d)
    }

    function Xdt(d: Task): int
      reads this
    {
      if d in xdt then xdt[d] else 0
    }

    /** When a task is to run next. */
    function Wanted(d: Task, now: int, delay: int, extra: int): int {
      NextWhen(now, if d in freq then freq[d] else 0, if d in phase then phase[d] else 0, delay, extra)
    }

    /** Put a task in the bucket of its time, made if need be. */
    method Add(d: Task)
      requires Sorted(schedule)
      modifies this`schedule, this`locte
      ensures Sorted(schedule)
      ensures Entries(schedule) == old(Entries(schedule)) + if When(d) == 0 then {} else {(When(d), d)}
      ensures locte == if When(d) == 0 then old(locte) else old(locte)[d := When(d)]
    {
      var w := When(d);
      if w == 0 {
        return;
      }
      ghost var s := schedule;
      var i := Search(schedule, w);
      if i == |schedule| {
        schedule := schedule + [Bucket(w, {d})];
        Inserted(s, schedule, i, w, d);
      } else if schedule[i].when == w {
        schedule := schedule[i := Bucket(w, schedule[i].todo + {d})];
        Replaced(s, schedule, i);
      } else {
        schedule := schedule[..i] + [Bucket(w, {d})] + schedule[i..];
        Inserted(s, schedule, i, w, d);
      }
      locte := locte[d := w];
      assert Entries(schedule) == Entries(s) + {(w, d)};
    }

    /** Take a task out of the bucket it points at. */
    method Del(d: Task)
      requires Sorted(schedule) && Linked(Entries(schedule), locte)
      modifies this`schedule, this`locte
      ensures Sorted(schedule)
      ensures Entries(schedule) == old(Entries(schedule)) - if d in old(locte) then {(old(locte)[d], d)} else {}
      ensures locte == old(locte) - {d}
    {
      if d !in locte {
        return;
      }
      var w := locte[d];
      ghost var s := schedule;
      var i := Search(schedule, w);
      HoldsAt(schedule, i, w, d);
      schedule := schedule[i := Bucket(w, schedule[i].todo - {d})];
      Replaced(s, schedule, i);
      locte := locte - {d};
      assert Entries(schedule) == Entries(s) - {(w, d)};
    }

    /** The main loop receives a task: it leaves its bucket, if any, and goes where it now belongs. */
    method ReceiveOne()
      requires Valid() && schedchan != []
      modifies this`schedule, this`locte, this`schedchan
      ensures Valid() && Enabled(old(AsOf(Option.None)), Receive)
      ensures AsOf(Option.None) == Next(old(AsOf(Option.None)), Receive)
    {
      ghost var b := AsOf(Option.None);
      NextGood(b, Receive);
      var d := schedchan[0];
      schedchan := schedchan[1..];
      if d in locte {
        Del(d);
      }
      if When(d) != 0 {
        Add(d);
      }
      assert locte == Pointed(b.locte, d, b.When(d));
      assert Entries(schedule) == Moved(b.entries, b.locte, d, b.When(d));
      assert AsOf(Option.None) == Next(b, Receive);
    }

    /** Hand a task to the queue of its priority, or to the next lower one that has room. */
    method SendWork(d: Task) returns (ok: bool)
      modifies this`priochan, this`expresschan, this`workchan
      ensures ok <==> Room(old(AsOf(Option.None)).queues, Prio(d))
      ensures AsOf(Option.None).queues == Taken(old(AsOf(Option.None)).queues, d, Prio(d))
    {
      var p := Prio(d);
      if p == High {
        if |priochan| < PRIOLEN {
          priochan := priochan + [d];
          return true;
        }
      }
      if p == High || p == Express {
        if |expresschan| < EXPRLEN {
          expresschan := expresschan + [d];
          return true;
        }
      }
      if |workchan| < QUEUELEN {
        workchan := workchan + [d];
        return true;
      }
      return false;
    }

    /** A task is handed to the main loop with a time, or with 0, to be removed. */
    method At(d: Task, w: int, ghost busy: Option<int>) returns (ghost e: Event)
      modifies this`when, this`schedchan
      ensures e == Ready(d, w, Prio(d)) && Enabled(old(AsOf(busy)), e) && AsOf(busy) == Next(old(AsOf(busy)), e)
    {
      when := when[d := w];
      schedchan := schedchan + [d];
      e := Ready(d, w, Prio(d));
    }

    /** A task gets its next time. The loop has nothing to do: the time is past the present already. */
    method ReScheduleSamePrio(d: Task, delay: int, now: int, extra: int, ghost busy: Option<int>) returns (ghost e: Event)
      requires 1 <= extra <= 4
      modifies this`when, this`schedchan
      ensures e == Ready(d, Wanted(d, now, delay, extra), Prio(d))
      ensures Enabled(old(AsOf(busy)), e) && AsOf(busy) == Next(old(AsOf(busy)), e)
    {
      var f, ph := if d in freq then freq[d] else 0, if d in phase then phase[d] else 0;
      if f <= 0 {
        f := 60;
      }
      var w;
      if delay > 0 {
        w := now + delay;
      } else {
        w := Quotient(now - ph, f) * f + f + ph;
        ghost var first := w;
        while w < now
          invariant w == first || first < now
        {
          w := w + f;
        }
        NextIsNext(now, if d in freq then freq[d] else 0, ph);
      }
      if w % 3600 == 0 {
        w := w + extra;
      }
      e := At(d, w, busy);
    }

    /** Run a task at once if the queues have room, and soon otherwise. */
    method ASAP(d: Task, now: int, extra: int, ghost busy: Option<int>) returns (ghost e: Event)
      requires 1 <= extra <= 4
      modifies this`when, this`priochan, this`expresschan, this`workchan, this`schedchan
      ensures e == (if Room(old(AsOf(busy)).queues, Prio(d)) then Asap(d) else Defer(d, Wanted(d, now, 1, extra)))
      ensures Enabled(old(AsOf(busy)), e) && AsOf(busy) == Next(old(AsOf(busy)), e)
    {
      var ok := SendWork(d);
      e := Asap(d);
      if !ok {
        ghost var _ := ReScheduleSamePrio(d, 1, now, extra, busy);
        e := Defer(d, Wanted(d, now, 1, extra));
      }
    }

    /** After a run that took so long, a task gets a priority and its next time. */
    method ReSchedule(d: Task, delay: int, exp: int, now: int, extra: int, ghost busy: Option<int>)
      returns (ghost e: Event)
      requires 1 <= extra <= 4
      modifies this`when, this`prio, this`xdt, this`schedchan
      ensures xdt == old(xdt)[d := Smoothed(old(Xdt(d)), exp)]
      ensures e == Ready(d, Wanted(d, now, delay, extra), Rating(old(Prio(d)), Xdt(d)))
      ensures Enabled(old(AsOf(busy)), e) && AsOf(busy) == Next(old(AsOf(busy)), e)
    {
      var x := Xdt(d);
      if x == 0 {
        x := exp;
      }
      x := Quotient(3 * x + exp, 4);
      xdt := xdt[d := x];
      var p := Prio(d);
      if p != High {
        if x == 0 {
          p := Dispatching.Prio.None;
        } else if x < EXPRESS_LIMIT {
          p := Express;
        } else {
          p := Dispatching.Prio.None;
        }
      }
      if Prio(d) != p {
        prio := prio[d := p];
      }
      e := ReScheduleSamePrio(d, delay, now, extra, busy);
    }

    /** A worker receives from its queue. */
    method Work(p: Prio, ghost busy: Option<int>) returns (d: Task)
      requires AsOf(busy).queues.Line(p) != []
      modifies this`priochan, this`expresschan, this`workchan
      ensures Enabled(old(AsOf(busy)), Take(p, d)) && AsOf(busy) == Next(old(AsOf(busy)), Take(p, d))
    {
      match p {
        case High => d, priochan := priochan[0], priochan[1..];
        case Express => d, expresschan := expresschan[0], expresschan[1..];
        case None => d, workchan := workchan[0], workchan[1..];
      }
    }

    /** Whatever workers and those who ask for tasks to run do in the meantime. */
    method Others(ghost busy: Option<int>) returns (ghost es: seq<Event>)
      modifies this`when, this`prio, this`xdt, this`priochan, this`expresschan, this`workchan, this`schedchan
      ensures Runs(old(AsOf(busy)), es, AsOf(busy)) && Within(es)
    {
      es := [];
      var n: int := *;
      while n > 0
        invariant Runs(old(AsOf(busy)), es, AsOf(busy)) && Within(es)
      {
        n := n - 1;
        ghost var was := AsOf(busy);
        ghost var e;
        var what: int, d: Task, w: int, p: Prio, now: int, exp: int := *, *, *, *, *, *;
        var extra :| 1 <= extra <= 4;
        if what == 0 {
          e := ASAP(d, now, extra, busy);
        } else if what == 1 {
          e := ReSchedule(d, w, exp, now, extra, busy);
        } else if what == 2 {
          e := ReScheduleSamePrio(d, w, now, extra, busy);
        } else if what == 3 {
          e := At(d, w, busy);
        } else {
          var idle := match p case High => |priochan| == 0 case Express => |expresschan| == 0 case None => |workchan| == 0;
          if idle {
            continue;
          }
          d := Work(p, busy);
          e := Take(p, d);
        }
        OneMore(old(AsOf(busy)), es, was, e);
        es := es + [e];
      }
    }

    /**
     * The main loop, in competition with all others: a task received, a dispatch, or, once stopped, perhaps nothing in
     * each turn: being stopped ends a turn, never the loop. What it does is a run.
     */
    method MainLoop(turns: nat) returns (ghost es: seq<Event>)
      requires Valid()
      modifies this
      ensures Valid() && Runs(old(AsOf(Option.None)), es, AsOf(Option.None))
    {
      es := [];
      for i := 0 to turns
        invariant Valid() && Runs(old(AsOf(Option.None)), es, AsOf(Option.None))
      {
        ghost var was := AsOf(Option.None);
        ghost var more := Others(Option.None);
        RunGood(was, more, AsOf(Option.None));
        RunsOn(old(AsOf(Option.None)), es, was, more, AsOf(Option.None));
        es := es + more;
        was := AsOf(Option.None);
        var stopped: bool, ready: bool, now: int := *, *, *;
        if stopped {
          continue;
        }
        if ready && |schedchan| > 0 {
          ReceiveOne();
          OneMore(old(AsOf(Option.None)), es, was, Receive);
          es := es + [Receive];
        } else {
          var cut;
          ghost var mid, m, end;
          cut, mid, m, end := Dispatch(now);
          more := DispatchRuns(was, now, mid, m, end, AsOf(Option.None));
          RunsOn(old(AsOf(Option.None)), es, was, more, AsOf(Option.None));
          es := es + more;
        }
      }
    }

    /**
     * Hand over everything that is due, bucket by bucket, until a queue refuses a task. Between two hand-overs
     * anything may happen to the queues.
     */
    method Dispatch(now: int) returns (cut: bool, ghost mid: seq<Event>, ghost m: Board, ghost end: Event)
      requires Valid()
      modifies this
      ensures Valid() && Dispatched(old(AsOf(Option.None)), now, mid, m, end, AsOf(Option.None))
      ensures cut <==> end.Refuse?
    {
      ghost var first := AsOf(Some(now));
      var i := 0;
      mid := [];
      while i < |schedule|
        invariant Valid() && Drained(schedule, i) && Runs(first, mid, AsOf(Some(now))) && Within(mid)
      {
        if schedule[i].when > now {
          break;
        }
        ghost var was, more := AsOf(Some(now)), [];
        cut, more, m, end := DrainBucket(i, now);
        RunsOn(first, mid, was, more, if cut then m else AsOf(Some(now)));
        mid := mid + more;
        if cut {
          DropEmpty(schedule, i);
          schedule := schedule[i..];
          return;
        }
        i := i + 1;
      }
      NoneDue(schedule, i, now);
      DropEmpty(schedule, i);
      m, end := AsOf(Some(now)), Rest;
      schedule := schedule[i..];
      cut := false;
    }

    /** Hand over the tasks of one bucket, in any order, until one is refused. */
    method DrainBucket(i: nat, ghost now: int) returns (full: bool, ghost es: seq<Event>, ghost m: Board, ghost end: Event)
      requires Valid() && i < |schedule| && Drained(schedule, i) && schedule[i].when <= now
      modifies this
      ensures Valid() && |schedule| == |old(schedule)| && Drained(schedule, i) && Within(es)
      ensures if full then
                && Runs(old(AsOf(Some(now))), es, m) && end.Refuse? && Enabled(m, end)
                && AsOf(Option.None) == Next(m, end)
              else
                Runs(old(AsOf(Some(now))), es, AsOf(Some(now))) && Drained(schedule, i + 1)
    {
      ghost var first := AsOf(Some(now));
      es, m, end, full := [], first, Rest, false;
      while schedule[i].todo != {}
        invariant Valid() && i < |schedule| == |old(schedule)| && Drained(schedule, i) && schedule[i].when <= now
        invariant Runs(first, es, AsOf(Some(now))) && Within(es)
        decreases |schedule[i].todo|
      {
        ghost var was := AsOf(Some(now));
        ghost var more := Others(Some(now));
        RunGood(was, more, AsOf(Some(now)));
        RunsOn(first, es, was, more, AsOf(Some(now)));
        es := es + more;
        m := AsOf(Some(now));
        var d :| d in schedule[i].todo;
        full, end := HandOver(i, d, now);
        if full {
          return;
        }
        OneMore(first, es, m, end);
        es := es + [end];
      }
    }

    /** Hand over one task; it forgets its bucket even when no queue takes it. */
    method HandOver(i: nat, d: Task, ghost now: int) returns (full: bool, ghost e: Event)
      requires Valid() && i < |schedule| && Drained(schedule, i) && schedule[i].when <= now && d in schedule[i].todo
      modifies this`schedule, this`locte, this`priochan, this`expresschan, this`workchan
      ensures Valid() && SameBut(old(schedule), schedule, i)
      ensures schedule[i].todo == old(schedule)[i].todo - if full then {} else {d}
      ensures e == if full then Refuse(schedule[i].when, d) else Hand(schedule[i].when, d)
      ensures Enabled(old(AsOf(Some(now))), e)
      ensures AsOf(if full then Option.None else Some(now)) == Next(old(AsOf(Some(now))), e)
    {
      ghost var s, w := schedule, schedule[i].when;
      FirstDue(s, i, d);
      e := if Room(AsOf(Option.None).queues, Prio(d)) then Hand(w, d) else Refuse(w, d);
      NextGood(AsOf(Some(now)), e);
      locte := locte - {d};
      var ok := SendWork(d);
      full := !ok;
      if ok {
        schedule := schedule[i := Bucket(schedule[i].when, schedule[i].todo - {d})];
        Replaced(s, schedule, i);
        assert Entries(schedule) == Entries(s) - {(w, d)};
      }
    }
  }

  // ---- draining ----

  ghost predicate SameBut(s: seq<Bucket>, s': seq<Bucket>, i: nat) {
    |s'| == |s| && i < |s| && s' == s[i := s'[i]] && s'[i].when == s[i].when
  }

  ghost predicate Drained(s: seq<Bucket>, i: nat) {
    i <= |s| && forall j :: 0 <= j < i ==> s[j].todo == {}
  }

  /** What is in the first bucket not yet drained is scheduled, and nothing for an earlier time. */
  lemma FirstDue(s: seq<Bucket>, i: nat, d: Task)
    requires Sorted(s) && Drained(s, i) && i < |s| && d in s[i].todo
    ensures (s[i].when, d) in Entries(s) && forall e :: e in Entries(s) ==> s[i].when <= e.0
  {
    forall e | e in Entries(s) ensures s[i].when <= e.0 {
      InEntries(s, e);
    }
  }

  lemma NoneDue(s: seq<Bucket>, i: nat, now: int)
    requires Sorted(s) && Drained(s, i) && (i < |s| ==> s[i].when > now)
    ensures forall e :: e in Entries(s) ==> e.0 > now
  {
    forall e | e in Entries(s) ensures e.0 > now {
      InEntries(s, e);
    }
  }

  /** Empty buckets can go. */
  lemma DropEmpty(s: seq<Bucket>, i: nat)
    requires Sorted(s) && Drained(s, i)
    ensures Sorted(s[i..]) && Entries(s[i..]) == Entries(s)
  {
    forall e ensures e in Entries(s[i..]) <==> e in Entries(s) {
      InEntries(s, e);
      InEntries(s[i..], e);
      if j :| 0 <= j < |s| && s[j].when == e.0 && e.1 in s[j].todo {
        assert s[i..][j - i] == s[j];
      }
    }
  }

  // ---- entries ----

  lemma InEntries(s: seq<Bucket>, e: (int, Task))
    ensures e in Entries(s) <==> exists i :: 0 <= i < |s| && s[i].when == e.0 && e.1 in s[i].todo
  {
  }

  lemma HoldsAt(s: seq<Bucket>, i: nat, w: int, d: Task)
    requires Sorted(s) && i == Search(s, w) && (w, d) in Entries(s)
    ensures i < |s| && s[i].when == w && d in s[i].todo
  {
    InEntries(s, (w, d));
    var j :| 0 <= j < |s| && s[j].when == w && d in s[j].todo;
  }

  /** A bucket that keeps its time gains and loses only its own entries. */
  lemma Replaced(s: seq<Bucket>, s': seq<Bucket>, i: nat)
    requires Sorted(s) && SameBut(s, s', i)
    ensures Sorted(s')
    ensures forall e :: e in Entries(s') <==> if e.0 == s[i].when then e.1 in s'[i].todo else e in Entries(s)
    ensures forall t :: (s[i].when, t) in Entries(s) <==> t in s[i].todo
  {
    forall e ensures e in Entries(s') <==> if e.0 == s[i].when then e.1 in s'[i].todo else e in Entries(s) {
      InEntries(s', e);
      InEntries(s, e);
      if j :| 0 <= j < |s| && s[j].when == e.0 && e.1 in s[j].todo && j != i {
        assert s'[j] == s[j];
      }
      if j :| 0 <= j < |s'| && s'[j].when == e.0 && e.1 in s'[j].todo && j != i {
        assert s'[j] == s[j];
      }
    }
  }

  lemma StillSorted(s: seq<Bucket>, s': seq<Bucket>, i: nat, w: int, d: Task)
    requires Sorted(s) && i == Search(s, w) && (i < |s| ==> s[i].when != w)
    requires s' == s[..i] + [Bucket(w, {d})] + s[i..]
    ensures Sorted(s')
  {
  }

  /** A new bucket brings its one entry. */
  lemma Inserted(s: seq<Bucket>, s': seq<Bucket>, i: nat, w: int, d: Task)
    requires Sorted(s) && i == Search(s, w) && (i < |s| ==> s[i].when != w)
    requires s' == s[..i] + [Bucket(w, {d})] + s[i..]
    ensures Sorted(s')
    ensures Entries(s') == Entries(s) + {(w, d)}
  {
    StillSorted(s, s', i, w, d);
    forall e ensures e in Entries(s') <==> e in Entries(s) || e == (w, d) {
      InsertedEntry(s, s', i, w, d, e);
    }
  }

  lemma InsertedEntry(s: seq<Bucket>, s': seq<Bucket>, i: nat, w: int, d: Task, e: (int, Task))
    requires i <= |s| && s' == s[..i] + [Bucket(w, {d})] + s[i..]
    ensures e in Entries(s') <==> e in Entries(s) || e == (w, d)
  {
    if e in Entries(s) {
      var j :| 0 <= j < |s| && s[j].when == e.0 && e.1 in s[j].todo;
      assert s'[if j < i then j else j + 1] == s[j];
    }
    if e == (w, d) {
      assert s'[i] == Bucket(w, {d});
    }
  }
}
