/** The queues of notifications, one per destination, and the rounds that send them. */
module NotifyQueues {

  type Id = nat

  /** One destination's queue. `qtime` is the least time between two deliveries to it. */
  datatype Queue = Queue(qtime: int, lastt: int, notif: seq<Id>)

  predicate Due(q: Queue, now: int) {
    q.notif != [] && q.lastt + q.qtime <= now
  }

  /** The queued notifications that are still active. */
  function Live(ids: seq<Id>, actives: set<Id>): (r: seq<Id>)
    ensures forall i :: i in r <==> i in ids && i in actives
  {
    if ids == [] then []
    else
      var i := ids[|ids| - 1];
      Live(ids[..|ids| - 1], actives) + if i in actives then [i] else []
  }

  /** None more often than it was queued. */
  lemma {:induction false} LiveAtMost(ids: seq<Id>, actives: set<Id>)
    ensures multiset(Live(ids, actives)) <= multiset(ids)
  {
    if ids != [] {
      LiveAtMost(ids[..|ids| - 1], actives);
      assert ids == ids[..|ids| - 1] + [ids[|ids| - 1]];
    }
  }

  /** They keep their order, and each is there as often as it was queued. */
  lemma {:induction false} LiveInOrder(a: seq<Id>, b: seq<Id>, actives: set<Id>)
    ensures Live(a + b, actives) == Live(a, actives) + Live(b, actives)
  {
    if b == [] {
      assert a + b == a;
    } else {
      var k := |b| - 1;
      LiveInOrder(a, b[..k], actives);
      assert b[..k + 1] == b && a + b == a + b[..k] + [b[k]];
      LiveOne(a + b[..k], b[k], actives);
      LiveOne(b[..k], b[k], actives);
      Regroup(Live(a, actives), Live(b[..k], actives), if b[k] in actives then [b[k]] else []);
    }
  }

  lemma Regroup(a: seq<Id>, b: seq<Id>, c: seq<Id>)
    ensures a + b + c == a + (b + c)
  {
  }

  lemma LiveOne(a: seq<Id>, i: Id, actives: set<Id>)
    ensures Live(a + [i], actives) == Live(a, actives) + if i in actives then [i] else []
  {
    assert (a + [i])[..|a|] == a;
  }

  lemma {:induction false} LiveAll(a: seq<Id>, actives: set<Id>)
    requires forall i :: i in a ==> i in actives
    ensures Live(a, actives) == a
  {
    if a != [] {
      var p := a[..|a| - 1];
      forall k | 0 <= k < |p| ensures p[k] in actives {
        assert p[k] == a[k];
      }
      LiveAll(p, actives);
      assert a[|a| - 1] in actives && a == p + [a[|a| - 1]];
    }
  }

  function Sent(sent: map<string, seq<Id>>, d: string): seq<Id> {
    if d in sent then sent[d] else []
  }

  /** A destination's queue is as it was, or its live part was delivered and the queue emptied. */
  ghost predicate Kept(q: Queue, q': Queue, sent: seq<Id>, now: int, was: set<Id>, actives: set<Id>) {
    || (q' == q && sent == [])
    || (&& Due(q, now) && q' == q.(lastt := now, notif := []) && sent != []
        && exists live :: actives <= live <= was && sent == Live(q.notif, live))
  }

  /** How far a round has come: the destinations in `left` are still to be seen. */
  ghost predicate Round(q: map<string, Queue>, q': map<string, Queue>, sent: map<string, seq<Id>>, left: set<string>,
                        now: int, was: set<Id>, actives: set<Id>, quiet: set<Id>)
  {
    && q'.Keys == q.Keys && left <= q.Keys && actives <= was
    && (forall d :: d in q ==> Kept(q[d], q'[d], Sent(sent, d), now, was, actives))
    && (forall d :: d in left ==> q'[d] == q[d] && d !in sent)
    && (forall d :: d in q && d !in left ==> q'[d] == q[d] ==> !Due(q[d], now))
    && (forall d, i :: d in sent && i in sent[d] && i in quiet ==> i !in actives)
  }

  lemma KeptLater(q: Queue, q': Queue, sent: seq<Id>, now: int, was: set<Id>, actives: set<Id>, later: set<Id>)
    requires Kept(q, q', sent, now, was, actives) && later <= actives
    ensures Kept(q, q', sent, now, was, later)
  {
    if !(q' == q && sent == []) {
      var live :| actives <= live <= was && sent == Live(q.notif, live);
      assert later <= live <= was;
    }
  }

  lemma Delivers(q: map<string, Queue>, q': map<string, Queue>, sent: map<string, seq<Id>>, left: set<string>,
                 now: int, was: set<Id>, actives: set<Id>, quiet: set<Id>, d: string, ns: seq<Id>, later: set<Id>)
    requires Round(q, q', sent, left, now, was, actives, quiet) && d in left
    requires Due(q'[d], now) && ns == Live(q'[d].notif, actives) && ns != []
    requires later == actives - set i | i in ns && i in quiet
    ensures Round(q, q'[d := q'[d].(lastt := now, notif := [])], sent[d := ns], left - {d}, now, was, later, quiet)
  {
    var q2, sent2 := q'[d := q'[d].(lastt := now, notif := [])], sent[d := ns];
    forall e | e in q ensures Kept(q[e], q2[e], Sent(sent2, e), now, was, later) {
      if e == d {
        assert later <= actives <= was;
      } else {
        KeptLater(q[e], q'[e], Sent(sent, e), now, was, actives, later);
      }
    }
  }

  /**
   * A whole round delivers to each due destination exactly its live notifications: none that had been acknowledged
   * before the round, all that are still active after it, none more often than it was queued.
   */
  lemma WholeRound(q: map<string, Queue>, q': map<string, Queue>, sent: map<string, seq<Id>>,
                   now: int, was: set<Id>, actives: set<Id>, quiet: set<Id>, d: string)
    requires Round(q, q', sent, {}, now, was, actives, quiet) && d in q
    ensures q[d].notif != [] && q[d].lastt + q[d].qtime <= now <==> q'[d] != q[d]
    ensures q[d].notif != [] && q[d].lastt + q[d].qtime <= now <==> Sent(sent, d) != []
    ensures q'[d] != q[d] ==> q'[d] == Queue(q[d].qtime, now, [])
    ensures forall i :: i in Sent(sent, d) ==> i in was && i in q[d].notif
    ensures q'[d] != q[d] ==> forall i :: i in q[d].notif && i in actives ==> i in Sent(sent, d)
    ensures multiset(Sent(sent, d)) <= multiset(q[d].notif)
  {
    assert Kept(q[d], q'[d], Sent(sent, d), now, was, actives);
    if q'[d] != q[d] {
      var live :| actives <= live <= was && Sent(sent, d) == Live(q[d].notif, live);
      LiveAtMost(q[d].notif, live);
    }
  }

  // ---- when a round ends early ----

  /** Due, with nothing active in it. */
  predicate Dead(q: Queue, actives: set<Id>, now: int) {
    Due(q, now) && forall i :: i in q.notif ==> i !in actives
  }

  /** Who is active after a destination's turn. */
  function After(q: map<string, Queue>, actives: set<Id>, quiet: set<Id>, now: int, d: string): set<Id>
    requires d in q
  {
    if Due(q[d], now) then actives - set i | i in q[d].notif && i in quiet else actives
  }

  function AfterAll(q: map<string, Queue>, actives: set<Id>, quiet: set<Id>, now: int, order: seq<string>): set<Id>
    requires forall d :: d in order ==> d in q
  {
    if order == [] then actives else AfterAll(q, After(q, actives, quiet, now, order[0]), quiet, now, order[1..])
  }

  /** A round that takes the destinations in this order comes to a dead one. */
  predicate EndsEarly(q: map<string, Queue>, actives: set<Id>, quiet: set<Id>, now: int, order: seq<string>)
    requires forall d :: d in order ==> d in q
  {
    order != [] && (Dead(q[order[0]], actives, now)
                    || EndsEarly(q, After(q, actives, quiet, now, order[0]), quiet, now, order[1..]))
  }

  /** An order in which a round may take the destinations. */
  ghost predicate Visits(order: seq<string>, keys: set<string>) {
    && (forall d :: d in order <==> d in keys)
    && forall i, j :: 0 <= i < j < |order| ==> order[i] != order[j]
  }

  /** Everything active in `d` is acknowledged by its first delivery and is also due somewhere else. */
  ghost predicate Drains(q: map<string, Queue>, actives: set<Id>, quiet: set<Id>, now: int, d: string) {
    && d in q && Due(q[d], now)
    && forall i :: i in q[d].notif && i in actives ==> i in quiet && Elsewhere(q, now, d, i)
  }

  ghost predicate Elsewhere(q: map<string, Queue>, now: int, d: string, i: Id) {
    exists e :: e in q && e != d && Due(q[e], now) && i in q[e].notif
  }

  lemma {:induction false} Onward(q: map<string, Queue>, actives: set<Id>, quiet: set<Id>, now: int, a: seq<string>, b: seq<string>)
    requires forall d :: d in a + b ==> d in q
    ensures (forall d :: d in a ==> d in q) && forall d :: d in b ==> d in q
    ensures AfterAll(q, actives, quiet, now, a + b) == AfterAll(q, AfterAll(q, actives, quiet, now, a), quiet, now, b)
    ensures EndsEarly(q, actives, quiet, now, a + b) <==>
            EndsEarly(q, actives, quiet, now, a) || EndsEarly(q, AfterAll(q, actives, quiet, now, a), quiet, now, b)
    decreases |a|
  {
    assert forall d :: d in a ==> d in a + b;
    assert forall d :: d in b ==> d in a + b;
    if a == [] {
      assert a + b == b;
    } else {
      assert (a + b)[1..] == a[1..] + b && (a + b)[0] == a[0];
      Onward(q, After(q, actives, quiet, now, a[0]), quiet, now, a[1..], b);
    }
  }

  /** What has had its turn is acknowledged, and only quiet ones are. */
  lemma {:induction false} Acknowledged(q: map<string, Queue>, actives: set<Id>, quiet: set<Id>, now: int, order: seq<string>, i: Id)
    requires forall d :: d in order ==> d in q
    ensures i in AfterAll(q, actives, quiet, now, order) <==>
            i in actives && !(i in quiet && exists e :: e in order && Due(q[e], now) && i in q[e].notif)
    decreases |order|
  {
    if order != [] {
      Acknowledged(q, After(q, actives, quiet, now, order[0]), quiet, now, order[1..], i);
      assert forall e :: e in order <==> e == order[0] || e in order[1..];
    }
  }

  /** Some order for any set. */
  lemma {:induction false} SomeOrder(keys: set<string>) returns (order: seq<string>)
    ensures Visits(order, keys)
    decreases |keys|
  {
    if keys == {} {
      order := [];
    } else {
      var d :| d in keys;
      order := SomeOrder(keys - {d});
      order := order + [d];
    }
  }

  lemma {:induction false} DeadWhere(q: map<string, Queue>, actives: set<Id>, quiet: set<Id>, now: int, order: seq<string>)
    returns (k: nat)
    requires (forall d :: d in order ==> d in q) && EndsEarly(q, actives, quiet, now, order)
    ensures k < |order| && (forall d :: d in order[..k] ==> d in q)
    ensures Dead(q[order[k]], AfterAll(q, actives, quiet, now, order[..k]), now)
    decreases |order|
  {
    if Dead(q[order[0]], actives, now) {
      k := 0;
    } else {
      k := DeadWhere(q, After(q, actives, quiet, now, order[0]), quiet, now, order[1..]);
      k := k + 1;
      assert order[..k][1..] == order[1..][..k - 1];
    }
  }

  /**
   * Some order makes the round end early exactly when some due destination drains: each active notification in it
   * is acknowledged by its first delivery and is queued at another due destination too.
   */
  lemma EndsEarlyExactlyWhen(q: map<string, Queue>, actives: set<Id>, quiet: set<Id>, now: int)
    ensures (exists order :: Visits(order, q.Keys) && EndsEarly(q, actives, quiet, now, order)) <==>
            exists d :: Drains(q, actives, quiet, now, d)
  {
    if order :| Visits(order, q.Keys) && EndsEarly(q, actives, quiet, now, order) {
      var d := EarlyDrains(q, actives, quiet, now, order);
    }
    if d :| Drains(q, actives, quiet, now, d) {
      var order := DrainsEarly(q, actives, quiet, now, d);
    }
  }

  lemma EarlyDrains(q: map<string, Queue>, actives: set<Id>, quiet: set<Id>, now: int, order: seq<string>) returns (d: string)
    requires Visits(order, q.Keys) && EndsEarly(q, actives, quiet, now, order)
    ensures Drains(q, actives, quiet, now, d)
  {
    var k := DeadWhere(q, actives, quiet, now, order);
    d := order[k];
    forall i | i in q[d].notif && i in actives ensures i in quiet && Elsewhere(q, now, d, i) {
      Acknowledged(q, actives, quiet, now, order[..k], i);
      var e :| e in order[..k] && Due(q[e], now) && i in q[e].notif;
      var j :| 0 <= j < k && order[j] == e;
    }
  }

  lemma DrainsEarly(q: map<string, Queue>, actives: set<Id>, quiet: set<Id>, now: int, d: string) returns (order: seq<string>)
    requires Drains(q, actives, quiet, now, d)
    ensures Visits(order, q.Keys) && EndsEarly(q, actives, quiet, now, order)
  {
    var others := SomeOrder(q.Keys - {d});
    order := others + [d];
    Onward(q, actives, quiet, now, others, [d]);
    forall i | i in q[d].notif ensures i !in AfterAll(q, actives, quiet, now, others) {
      Acknowledged(q, actives, quiet, now, others, i);
      if i in actives {
        var e :| e in q && e != d && Due(q[e], now) && i in q[e].notif;
        assert e in others;
      }
    }
  }

  /** With nothing active in a due destination to begin with, every order ends early. */
  lemma DeadEndsEvery(q: map<string, Queue>, actives: set<Id>, quiet: set<Id>, now: int, d: string, order: seq<string>)
    requires d in q && Dead(q[d], actives, now) && Visits(order, q.Keys)
    ensures EndsEarly(q, actives, quiet, now, order)
  {
    var k :| 0 <= k < |order| && order[k] == d;
    assert order == order[..k] + order[k..];
    Onward(q, actives, quiet, now, order[..k], order[k..]);
    forall i | i in q[d].notif ensures i !in AfterAll(q, actives, quiet, now, order[..k]) {
      Acknowledged(q, actives, quiet, now, order[..k], i);
    }
  }

  /** A dead destination keeps a live one from its turn. */
  lemma DeadBlocks()
    ensures var q := map["a" := Queue(0, 0, [1]), "b" := Queue(0, 0, [2])];
            && Visits(["a", "b"], q.Keys) && EndsEarly(q, {2}, {}, 10, ["a", "b"])
            && Due(q["b"], 10) && Live(q["b"].notif, {2}) == [2]
            && !EndsEarly(q, {2}, {}, 10, ["b"]) && Dead(q["a"], {2}, 10)
  {
    assert ["a", "b"][1..] == ["b"] && ["b"][1..] == [] && "a"[0] != "b"[0];
    assert [2][..0] == [] && Live([2], {2}) == Live([], {2}) + [2];
    assert 2 in [2];
  }

  /** The destinations that have had their turn, none of them dead, and who is active now. */
  ghost predicate Taken(q: map<string, Queue>, was: set<Id>, quiet: set<Id>, now: int, seen: seq<string>, left: set<string>,
                        actives: set<Id>)
  {
    && left <= q.Keys && Visits(seen, q.Keys - left)
    && !EndsEarly(q, was, quiet, now, seen) && actives == AfterAll(q, was, quiet, now, seen)
  }

  lemma VisitsOn(a: seq<string>, some: set<string>, b: seq<string>, more: set<string>)
    requires Visits(a, some) && Visits(b, more) && some !! more
    ensures Visits(a + b, some + more)
  {
    forall i, j | 0 <= i < j < |a + b| ensures (a + b)[i] != (a + b)[j] {
      if i < |a| <= j {
        assert a[i] in some && b[j - |a|] in more;
      }
    }
  }

  lemma TakenOn(q: map<string, Queue>, was: set<Id>, quiet: set<Id>, now: int, seen: seq<string>, left: set<string>,
                actives: set<Id>, d: string, later: set<Id>)
    requires Taken(q, was, quiet, now, seen, left, actives) && d in left
    requires !Dead(q[d], actives, now) && later == After(q, actives, quiet, now, d)
    ensures Taken(q, was, quiet, now, seen + [d], left - {d}, later)
  {
    Onward(q, was, quiet, now, seen, [d]);
    assert [d][1..] == [];
  }

  lemma TakenDead(q: map<string, Queue>, was: set<Id>, quiet: set<Id>, now: int, seen: seq<string>, left: set<string>,
                  actives: set<Id>, d: string) returns (order: seq<string>)
    requires Taken(q, was, quiet, now, seen, left, actives) && d in left && Dead(q[d], actives, now)
    ensures Visits(order, q.Keys) && EndsEarly(q, was, quiet, now, order)
  {
    var rest := SomeOrder(left - {d});
    order := seen + ([d] + rest);
    VisitsOn([d], {d}, rest, left - {d});
    VisitsOn(seen, q.Keys - left, [d] + rest, {d} + (left - {d}));
    assert q.Keys - left + ({d} + (left - {d})) == q.Keys;
    Onward(q, was, quiet, now, seen, [d] + rest);
  }

  // ---- whole runs ----

  datatype World = World(queues: map<string, Queue>, actives: set<Id>)

  datatype Event = Enqueued(d: string, qtime: int, i: Id) | New(i: Id) | Acked(i: Id) | Sends(now: int)

  function Queued(q: map<string, Queue>, d: string, qtime: int, i: Id): map<string, Queue> {
    var was := if d in q then q[d] else Queue(qtime, 0, []);
    q[d := was.(notif := was.notif + [i])]
  }

  /** What one event may make of the queues; a new notification is in no queue yet. */
  ghost predicate Step(w: World, e: Event, w': World, quiet: set<Id>) {
    match e
    case Enqueued(d, qtime, i) => w' == w.(queues := Queued(w.queues, d, qtime, i))
    case New(i) => w' == w.(actives := w.actives + {i}) && forall d :: d in w.queues ==> i !in w.queues[d].notif
    case Acked(i) => w' == w.(actives := w.actives - {i})
    case Sends(now) => exists sent, left :: Round(w.queues, w'.queues, sent, left, now, w.actives, w'.actives, quiet)
  }

  /** Something was delivered to a destination. */
  predicate Delivered(w: World, w': World, d: string) {
    d in w.queues && d in w'.queues && w.queues[d].notif != [] && w'.queues[d].notif == []
  }

  lemma OneStep(w: World, e: Event, w': World, quiet: set<Id>, d: string)
    requires Step(w, e, w', quiet) && d in w.queues
    ensures d in w'.queues && w'.queues[d].qtime == w.queues[d].qtime
    ensures Delivered(w, w', d) ==> e.Sends? && w'.queues[d].lastt == e.now >= w.queues[d].lastt + w.queues[d].qtime
    ensures w.queues[d].qtime >= 0 ==> w.queues[d].lastt <= w'.queues[d].lastt
  {
    if e.Sends? {
      var sent, left :| Round(w.queues, w'.queues, sent, left, e.now, w.actives, w'.actives, quiet);
      assert Kept(w.queues[d], w'.queues[d], Sent(sent, d), e.now, w.actives, w'.actives);
    }
  }

  ghost predicate StepAt(ws: seq<World>, es: seq<Event>, quiet: set<Id>, k: int)
    requires 0 <= k < |es| < |ws|
  {
    Step(ws[k], es[k], ws[k + 1], quiet)
  }

  ghost predicate IsRun(ws: seq<World>, es: seq<Event>, quiet: set<Id>) {
    |ws| == |es| + 1 && forall k :: 0 <= k < |es| ==> StepAt(ws, es, quiet, k)
  }

  lemma {:induction false} LastGrows(ws: seq<World>, es: seq<Event>, quiet: set<Id>, d: string, j: nat, k: nat)
    requires IsRun(ws, es, quiet) && j <= k <= |es|
    requires d in ws[j].queues && ws[j].queues[d].qtime >= 0
    ensures d in ws[k].queues && ws[k].queues[d].qtime == ws[j].queues[d].qtime
    ensures ws[j].queues[d].lastt <= ws[k].queues[d].lastt
    decreases k
  {
    if j < k {
      LastGrows(ws, es, quiet, d, j, k - 1);
      assert StepAt(ws, es, quiet, k - 1);
      OneStep(ws[k - 1], es[k - 1], ws[k], quiet, d);
    }
  }

  lemma OneDelivery(ws: seq<World>, es: seq<Event>, quiet: set<Id>, d: string, k: nat)
    requires IsRun(ws, es, quiet) && k < |es| && Delivered(ws[k], ws[k + 1], d)
    ensures es[k].Sends? && ws[k + 1].queues[d].qtime == ws[k].queues[d].qtime
    ensures ws[k + 1].queues[d].lastt == es[k].now >= ws[k].queues[d].lastt + ws[k].queues[d].qtime
  {
    assert StepAt(ws, es, quiet, k);
    OneStep(ws[k], es[k], ws[k + 1], quiet, d);
  }

  /** Over every run, only rounds deliver, and two deliveries to one destination are at least its interval apart. */
  lemma DeliveriesApart(ws: seq<World>, es: seq<Event>, quiet: set<Id>, d: string, j: nat, k: nat)
    requires IsRun(ws, es, quiet)
    requires j < k < |es| && Delivered(ws[j], ws[j + 1], d) && Delivered(ws[k], ws[k + 1], d)
    requires ws[j].queues[d].qtime >= 0
    ensures es[j].Sends? && es[k].Sends? && es[j].now + ws[j].queues[d].qtime <= es[k].now
  {
    OneDelivery(ws, es, quiet, d, j);
    LastGrows(ws, es, quiet, d, j + 1, k);
    OneDelivery(ws, es, quiet, d, k);
  }

  /** A destination with something queued, none of it active. */
  ghost predicate Stale(w: World, d: string) {
    d in w.queues && w.queues[d].notif != [] && forall i :: i in w.queues[d].notif ==> i !in w.actives
  }

  lemma StaleStep(w: World, e: Event, w': World, quiet: set<Id>, d: string)
    requires Step(w, e, w', quiet) && Stale(w, d) && !(e.Enqueued? && e.d == d)
    ensures Stale(w', d) && w'.queues[d] == w.queues[d]
  {
    if e.Sends? {
      var sent, left :| Round(w.queues, w'.queues, sent, left, e.now, w.actives, w'.actives, quiet);
      StaleKept(w.queues[d], w'.queues[d], Sent(sent, d), e.now, w.actives, w'.actives);
    }
  }

  lemma StaleKept(q: Queue, q': Queue, sent: seq<Id>, now: int, was: set<Id>, actives: set<Id>)
    requires Kept(q, q', sent, now, was, actives) && actives <= was && forall i :: i in q.notif ==> i !in was
    ensures q' == q
  {
    forall live | live <= was ensures Live(q.notif, live) == [] {
      LiveNone(q.notif, live);
    }
  }

  lemma {:induction false} LiveNone(ids: seq<Id>, actives: set<Id>)
    requires forall i :: i in ids ==> i !in actives
    ensures Live(ids, actives) == []
  {
    if ids != [] {
      LiveNone(ids[..|ids| - 1], actives);
    }
  }

  /**
   * Whatever happens, until something is queued for it a stale destination stays as it is; once it is due it stays
   * due, and then every round, in every order, ends early.
   */
  lemma {:induction false} StaleForGood(ws: seq<World>, es: seq<Event>, quiet: set<Id>, d: string, now: int, later: int,
                                        order: seq<string>)
    requires IsRun(ws, es, quiet)
    requires Stale(ws[0], d) && forall k :: 0 <= k < |es| ==> !(es[k].Enqueued? && es[k].d == d)
    requires Due(ws[0].queues[d], now) && now <= later && Visits(order, ws[|es|].queues.Keys)
    ensures Stale(ws[|es|], d) && ws[|es|].queues[d] == ws[0].queues[d]
    ensures Due(ws[|es|].queues[d], later)
    ensures EndsEarly(ws[|es|].queues, ws[|es|].actives, quiet, later, order)
    decreases |es|
  {
    if es == [] {
      DeadEndsEvery(ws[0].queues, ws[0].actives, quiet, later, d, order);
    } else {
      assert StepAt(ws, es, quiet, 0);
      StaleStep(ws[0], es[0], ws[1], quiet, d);
      forall k | 0 <= k < |es| - 1 ensures StepAt(ws[1..], es[1..], quiet, k) {
        assert StepAt(ws, es, quiet, k + 1);
      }
      StaleForGood(ws[1..], es[1..], quiet, d, now, later, order);
    }
  }

  /** A turn at a destination that is not dead. */
  lemma RoundOn(q: map<string, Queue>, q1: map<string, Queue>, q2: map<string, Queue>, sent: map<string, seq<Id>>,
                sent2: map<string, seq<Id>>, left: set<string>, now: int, was: set<Id>, actives: set<Id>, later: set<Id>,
                quiet: set<Id>, d: string)
    requires Round(q, q1, sent, left, now, was, actives, quiet) && d in left && !Dead(q1[d], actives, now)
    requires later == After(q1, actives, quiet, now, d)
    requires if Due(q1[d], now) then q2 == q1[d := q1[d].(lastt := now, notif := [])]
                                     && sent2 == sent[d := Live(q1[d].notif, actives)]
             else q2 == q1 && sent2 == sent
    ensures Round(q, q2, sent2, left - {d}, now, was, later, quiet)
  {
    if Due(q1[d], now) {
      var ns := Live(q1[d].notif, actives);
      var i :| i in q1[d].notif && i in actives;
      assert i in ns;
      assert later == actives - set i | i in ns && i in quiet;
      Delivers(q, q1, sent, left, now, was, actives, quiet, d, ns, later);
    }
  }

  /** A round that is over, whether or not every destination had its turn. */
  lemma RoundCut(q: map<string, Queue>, q': map<string, Queue>, sent: map<string, seq<Id>>, left: set<string>,
                 now: int, was: set<Id>, actives: set<Id>, quiet: set<Id>)
    requires Round(q, q', sent, left, now, was, actives, quiet)
    ensures Round(q, q', sent, q'.Keys - sent.Keys, now, was, actives, quiet)
  {
    forall d | d in q && d !in sent ensures q'[d] == q[d] {
      assert Kept(q[d], q'[d], Sent(sent, d), now, was, actives);
    }
  }

  class Queues {
    var queues: map<string, Queue>
    var actives: set<Id>
    const quiet: set<Id>               // those acknowledged by their first delivery
    var sent: map<string, seq<Id>>     // what the last round delivered

    constructor (quiet: set<Id>)
      ensures queues == map[] && actives == {} && this.quiet == quiet
    {
      queues, actives, this.quiet, sent := map[], {}, quiet, map[];
    }

    /** Put a notification in the queue of a destination, made if need be. */
    method Enqueue(d: string, qtime: int, i: Id)
      modifies this`queues
      ensures queues == Queued(old(queues), d, qtime, i)
      ensures queues.Keys == old(queues).Keys + {d} && forall e :: e in old(queues) && e != d ==> queues[e] == old(queues)[e]
      ensures d in old(queues) ==> queues[d] == old(queues)[d].(notif := old(queues)[d].notif + [i])
      ensures d !in old(queues) ==> queues[d] == Queue(qtime, 0, [i])
    {
      if d !in queues {
        queues := queues[d := Queue(qtime, 0, [])];
      }
      queues := queues[d := queues[d].(notif := queues[d].notif + [i])];
    }

    /** A new notification is active. */
    method Activate(i: Id)
      modifies this`actives
      ensures actives == old(actives) + {i}
    {
      actives := actives + {i};
    }

    /** An acknowledged one is not. */
    method Ack(i: Id)
      modifies this`actives
      ensures actives == old(actives) - {i}
    {
      actives := actives - {i};
    }

    /**
     * Deliver every queue that is due, in some order. The round ends early at a due queue with nothing live in
     * it, which stays as it is: `stuck` names it.
     */
    method RunQueues(now: int) returns (stuck: set<string>)
      modifies this`queues, this`actives, this`sent
      ensures Round(old(queues), queues, sent, if stuck == {} then {} else queues.Keys - sent.Keys,
                    now, old(actives), actives, quiet)
      ensures forall d :: d in stuck ==>
                            d in queues && queues[d] == old(queues)[d] && Due(queues[d], now)
                            && forall i :: i in queues[d].notif ==> i !in actives
      ensures exists order :: Visits(order, old(queues).Keys)
                              && (stuck != {} <==> EndsEarly(old(queues), old(actives), quiet, now, order))
    {
      var left := queues.Keys;
      sent, stuck := map[], {};
      ghost var q0, a0 := queues, actives;
      ghost var seen: seq<string> := [];
      while left != {}
        invariant Round(q0, queues, sent, left, now, a0, actives, quiet)
        invariant Taken(q0, a0, quiet, now, seen, left, actives)
      {
        var d :| d in left;
        ghost var q, before, was := queues, actives, sent;
        var dead := Turn(d, now);
        if dead {
          stuck := {d};
          RoundCut(q0, queues, sent, left, now, a0, actives, quiet);
          ghost var order := TakenDead(q0, a0, quiet, now, seen, left, actives, d);
          return;
        }
        RoundOn(q0, q, queues, was, sent, left, now, a0, before, actives, quiet, d);
        TakenOn(q0, a0, quiet, now, seen, left, before, d, actives);
        seen := seen + [d];
        left := left - {d};
      }
      assert Visits(seen, q0.Keys);
    }

    /** One destination's turn. */
    method Turn(d: string, now: int) returns (dead: bool)
      requires d in queues
      modifies this`queues, this`actives, this`sent
      ensures dead <==> Dead(old(queues)[d], old(actives), now)
      ensures actives == if dead then old(actives) else After(old(queues), old(actives), quiet, now, d)
      ensures if dead || !Due(old(queues)[d], now) then queues == old(queues) && sent == old(sent)
              else && queues == old(queues)[d := old(queues)[d].(lastt := now, notif := [])]
                   && sent == old(sent)[d := Live(old(queues)[d].notif, old(actives))]
    {
      var q := queues[d];
      if q.notif == [] || q.lastt + q.qtime > now {
        return false;
      }
      var ns := Live(q.notif, actives);
      if ns == [] {
        return true;
      }
      assert ns[0] in ns;
      queues := queues[d := q.(lastt := now, notif := [])];
      sent := sent[d := ns];
      AutoAck(ns);
      dead := false;
    }

    /** Each delivered notification may be acknowledged at once. */
    method AutoAck(ns: seq<Id>)
      modifies this`actives
      ensures actives == old(actives) - set i | i in ns && i in quiet
    {
      for k := 0 to |ns|
        invariant actives == old(actives) - set i | i in ns[..k] && i in quiet
      {
        if ns[k] in quiet {
          actives := actives - {ns[k]};
        }
      }
      assert ns[..|ns|] == ns;
    }
  }
}
