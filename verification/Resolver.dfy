/** The worker of the asynchronous resolver: outstanding query ids, retries, timeouts and completion. */
module Resolver {
  import opened Wrappers

  const TRIES := 3
  const QUERYTIMEOUT := 4_000_000_000    // nanoseconds
  const MAXQUERIES := 256.0
  const XDK := 40.0
  const TTL_MIN := 60
  const TTL_MAX := 14 * 24 * 3600
  const TTL_ERR := 120

  type Qid = nat

  // What has been learnt for a request: for how long, and the addresses of each family.
  datatype Answer = Answer(ttl: int, v4: seq<string>, v6: seq<string>)

  // One request: a name under one search suffix. The sender records both kinds of query in `underway4`,
  // the second over the first, and never sets `underway6`.
  datatype Req = Req(zname: string, v4: bool, v6: bool, start: int, tries: nat, underway4: Qid, underway6: Qid,
                     res: Option<Answer>, sent: nat, results: seq<Answer>)
  {
    /** It asks for at least one address family. */
    predicate Asks() {
      v4 || v6
    }

    /** It has been handed to sendQueryZone. */
    predicate Started() {
      tries < TRIES
    }

    predicate TimedOut(now: int) {
      start + QUERYTIMEOUT < now
    }
  }

  /** The zones asked for, in order. */
  function Zones(reqs: seq<Req>): (zs: seq<string>)
    ensures |zs| == |reqs|
  {
    seq(|reqs|, i requires 0 <= i < |reqs| => reqs[i].zname)
  }

  function Suffixed(name: string, search: seq<string>): seq<string> {
    seq(|search|, k requires 0 <= k < |search| => name + search[k])
  }

  /** One packet for each address family asked for. */
  function Families(q: Req): nat {
    (if q.v4 then 1 else 0) + if q.v6 then 1 else 0
  }

  /** The addresses learnt so far, by family. */
  function Known(res: Option<Answer>): (seq<string>, seq<string>) {
    if res == None then ([], []) else (res.value.v4, res.value.v6)
  }

  function Cleared(underway: Qid, id: Qid): Qid {
    if underway == id then 0 else underway
  }

  function Tries(reqs: seq<Req>): nat {
    if reqs == [] then 0 else Tries(reqs[..|reqs| - 1]) + reqs[|reqs| - 1].tries
  }

  lemma {:induction false} TriesUpdate(reqs: seq<Req>, i: nat, q: Req)
    requires i < |reqs|
    ensures Tries(reqs[i := q]) == Tries(reqs) - reqs[i].tries + q.tries
  {
    var k := |reqs| - 1;
    if i == k {
      assert reqs[i := q][..k] == reqs[..k];
    } else {
      assert reqs[i := q][..k] == reqs[..k][i := q];
      TriesUpdate(reqs[..k], i, q);
    }
  }

  /** A published answer is kept for about a minute at least and two weeks at most. */
  predicate Sane(a: Answer) {
    54 < a.ttl <= 14 * 86400
  }

  /** For how long an answer may be kept: about two minutes if there was none; else for what was said, but no less than a
      minute and no more than two weeks, less anything below a tenth of that. */
  predicate Keeps(res: Option<Answer>, ttl: int) {
    match res
    case None => 108 < ttl < 132
    case Some(known) =>
      var most := if known.ttl < 60 then 60 else if known.ttl > 14 * 86400 then 14 * 86400 else known.ttl;
      most - most / 10 < ttl <= most
  }

  /** One such answer. */
  function Longest(res: Option<Answer>): Answer {
    match res
    case None => Answer(TTL_ERR, [], [])
    case Some(known) =>
      known.(ttl := if known.ttl < TTL_MIN then TTL_MIN else if known.ttl > TTL_MAX then TTL_MAX else known.ttl)
  }

  datatype RR = A(ttl: int, addr: string) | AAAA(ttl: int, addr: string) | OtherRR(ttl: int)

  function Noted(res: Option<Answer>, rr: RR): Answer {
    var known := if res == None then Answer(rr.ttl, [], []) else res.value;
    match rr
    case A(_, addr) => known.(v4 := known.v4 + [addr])
    case AAAA(_, addr) => known.(v6 := known.v6 + [addr])
    case OtherRR(_) => known
  }

  /** The answers of a response, added to what is known; the first one sets the life time. */
  function Collect(res: Option<Answer>, answers: seq<RR>): Option<Answer>
    decreases |answers|
  {
    if answers == [] then res else Collect(Some(Noted(res, answers[0])), answers[1..])
  }

  /** The addresses of one kind in a response, in order. */
  function Addresses(answers: seq<RR>, six: bool): seq<string> {
    if answers == [] then []
    else
      var rr := answers[|answers| - 1];
      Addresses(answers[..|answers| - 1], six)
      + if (six && rr.AAAA?) || (!six && rr.A?) then [rr.addr] else []
  }

  lemma {:induction false} AddressesFrom(answers: seq<RR>, six: bool)
    requires answers != []
    ensures Addresses(answers, six)
         == (if (six && answers[0].AAAA?) || (!six && answers[0].A?) then [answers[0].addr] else [])
            + Addresses(answers[1..], six)
  {
    var k := |answers| - 1;
    if k > 0 {
      AddressesFrom(answers[..k], six);
      assert answers[..k][1..] == answers[1..][..k - 1];
    }
  }

  /**
   * A response adds its addresses to those known, each family's in the order they stand there; nothing that was known
   * goes. How long it is good for is what the first record ever seen says.
   */
  lemma {:induction false} CollectMeans(res: Option<Answer>, answers: seq<RR>)
    ensures Known(Collect(res, answers)).0 == Known(res).0 + Addresses(answers, false)
    ensures Known(Collect(res, answers)).1 == Known(res).1 + Addresses(answers, true)
    ensures Collect(res, answers) == None <==> res == None && answers == []
    ensures res != None ==> Collect(res, answers).value.ttl == res.value.ttl
    ensures res == None && answers != [] ==> Collect(res, answers).value.ttl == answers[0].ttl
    decreases |answers|
  {
    if answers != [] {
      AddressesFrom(answers, false);
      AddressesFrom(answers, true);
      CollectMeans(Some(Noted(res, answers[0])), answers[1..]);
    }
  }

  ghost predicate Sound(q: Req) {
    && q.tries <= TRIES
    && q.sent <= 2 * (TRIES - q.tries)
    && q.underway6 == 0
    && forall k :: 0 <= k < |q.results| ==> Sane(q.results[k])
  }

  // ---- the state and its steps ----

  /** The outstanding ids, each with the request it belongs to, and every request so far. */
  datatype World = World(pending: map<Qid, nat>, reqs: seq<Req>)

  const NOTHING := World(map[], [])

  /** Ids for the packets of a request that asks for these families: neither 0 nor outstanding, and not the same. */
  predicate Free(w: World, v4: bool, v6: bool, q1: Qid, q2: Qid) {
    && (v4 ==> q1 != 0 && q1 !in w.pending)
    && (v6 ==> q2 != 0 && q2 !in w.pending)
    && (v4 && v6 ==> q1 != q2)
  }

  /** One packet for request `i`. */
  function SentOne(w: World, i: nat, id: Qid): World
    requires i < |w.reqs|
  {
    World(w.pending[id := i], w.reqs[i := w.reqs[i].(sent := w.reqs[i].sent + 1, underway4 := id)])
  }

  /** One try: a packet for each address family asked for, the second noted over the first. */
  function SentZone(w: World, i: nat, q1: Qid, q2: Qid): World
    requires i < |w.reqs| && w.reqs[i].tries > 0
  {
    var w1 := if w.reqs[i].v4 then SentOne(w, i, q1) else w;
    var w2 := if w.reqs[i].v6 then SentOne(w1, i, q2) else w1;
    w2.(reqs := w2.reqs[i := w2.reqs[i].(tries := w.reqs[i].tries - 1)])
  }

  function Fresh(zone: string, v4: bool, v6: bool, now: int): Req {
    Req(zone, v4, v6, now, TRIES, 0, 0, None, 0, [])
  }

  /** A request is published. */
  function Finished(w: World, i: nat, a: Answer): World
    requires i < |w.reqs|
  {
    w.(reqs := w.reqs[i := w.reqs[i].(res := Some(a), results := w.reqs[i].results + [a])])
  }

  function Dropped(w: World, qid: Qid): World {
    w.(pending := w.pending - {qid})
  }

  /** What a response makes of its request before any publication. */
  function Heard(q: Req, qid: Qid, answers: seq<RR>): Req {
    q.(underway4 := Cleared(q.underway4, qid), underway6 := Cleared(q.underway6, qid), res := Collect(q.res, answers))
  }

  /**
   * A request for a zone; an accepted response; a query that has waited too long. The ids are those chosen for the
   * packets sent, the answer the one published, if any.
   */
  datatype Event =
    | Ask(zone: string, v4: bool, v6: bool, now: int, q1: Qid, q2: Qid)
    | Respond(qid: Qid, answers: seq<RR>, a: Answer)
    | Expire(qid: Qid, now: int, q1: Qid, q2: Qid, a: Answer)

  /** A published answer holds what is known, for a sane time. */
  predicate Publishable(res: Option<Answer>, a: Answer) {
    Sane(a) && Keeps(res, a.ttl) && (a.v4, a.v6) == Known(res)
  }

  lemma LongestIs(res: Option<Answer>)
    ensures Publishable(res, Longest(res))
  {
    var a := Longest(res);
    assert Sane(a);
    assert Keeps(res, a.ttl);
    assert a.v4 == Known(res).0;
    assert a.v6 == Known(res).1;
  }

  ghost predicate Enabled(w: World, e: Event) {
    match e
    case Ask(_, v4, v6, _, q1, q2) => Free(w, v4, v6, q1, q2)
    case Respond(qid, answers, a) =>
      && qid in w.pending && w.pending[qid] < |w.reqs|
      && Publishable(Collect(w.reqs[w.pending[qid]].res, answers), a)
    case Expire(qid, now, q1, q2, a) =>
      && qid in w.pending && w.pending[qid] < |w.reqs| && w.reqs[w.pending[qid]].TimedOut(now)
      && var q := w.reqs[w.pending[qid]];
      && Free(Dropped(w, qid), q.v4, q.v6, q1, q2) && Publishable(q.res, a)
  }

  ghost function Next(w: World, e: Event): World
    requires Enabled(w, e)
  {
    match e
    case Ask(zone, v4, v6, now, q1, q2) =>
      SentZone(w.(reqs := w.reqs + [Fresh(zone, v4, v6, now)]), |w.reqs|, q1, q2)
    case Respond(qid, answers, a) =>
      var i := w.pending[qid];
      var q := Heard(w.reqs[i], qid, answers);
      var w1 := Dropped(w, qid).(reqs := w.reqs[i := q]);
      if q.underway4 == 0 && q.underway6 == 0 then Finished(w1, i, a) else w1
    case Expire(qid, now, q1, q2, a) =>
      var i := w.pending[qid];
      var w1 := Dropped(w, qid);
      if w.reqs[i].tries > 0 then SentZone(w1, i, q1, q2)
      else Finished(w1.(reqs := w.reqs[i := w.reqs[i].(underway4 := 0, underway6 := 0)]), i, a)
  }

  /** Where some steps lead, if each can be taken. */
  ghost function After(w: World, es: seq<Event>): Option<World>
    decreases |es|
  {
    if es == [] then Some(w) else if Enabled(w, es[0]) then After(Next(w, es[0]), es[1..]) else None
  }

  ghost predicate Runs(w: World, es: seq<Event>, w': World) {
    After(w, es) == Some(w')
  }

  lemma {:induction false} RunsOn(w: World, es: seq<Event>, w': World, more: seq<Event>, w'': World)
    requires Runs(w, es, w') && Runs(w', more, w'')
    ensures Runs(w, es + more, w'')
    decreases |es|
  {
    if es == [] {
      assert es + more == more;
    } else {
      assert (es + more)[1..] == es[1..] + more;
      RunsOn(Next(w, es[0]), es[1..], w', more, w'');
    }
  }

  lemma RunsOne(w: World, e: Event)
    requires Enabled(w, e)
    ensures Runs(w, [e], Next(w, e))
  {
    assert [e][1..] == [];
  }

  // ---- what holds between steps ----

  /** A started request has been finished, or the id it waits for is outstanding. */
  ghost predicate Awaited(pending: map<Qid, nat>, i: nat, q: Req) {
    q.Asks() && q.Started() && q.results == [] ==>
      q.underway4 != 0 && q.underway4 in pending && pending[q.underway4] == i
  }

  /** A request for one family has no id outstanding but the one it notes, and none once it is published. */
  ghost predicate Owned(q: Req, id: Qid) {
    !(q.v4 && q.v6) ==> id == q.underway4 && q.results == []
  }

  /** Everything is in order, except that request `but` may wait for an id that is not outstanding. */
  ghost predicate OkBut(w: World, but: int) {
    && 0 !in w.pending
    && (forall id :: id in w.pending ==> w.pending[id] < |w.reqs| && Owned(w.reqs[w.pending[id]], id))
    && (forall id :: id in w.pending && w.pending[id] == but ==> w.reqs[but].v4 && w.reqs[but].v6)
    && (forall i :: 0 <= i < |w.reqs| ==> Sound(w.reqs[i]))
    && (forall i :: 0 <= i < |w.reqs| && i != but ==> Awaited(w.pending, i, w.reqs[i]))
  }

  ghost predicate Ok(w: World) {
    OkBut(w, -1)
  }

  /** Falls with every response and every timeout that is accepted. */
  ghost function Measure(w: World): nat {
    3 * Tries(w.reqs) + |w.pending|
  }

  /** What stays of a request for ever. */
  predicate SameRequest(q: Req, r: Req) {
    && r.zname == q.zname && r.v4 == q.v4 && r.v6 == q.v6 && r.start == q.start
    && r.tries <= q.tries && q.sent <= r.sent && q.results <= r.results
  }

  ghost predicate Progress(reqs: seq<Req>, reqs': seq<Req>) {
    |reqs| <= |reqs'| && forall i :: 0 <= i < |reqs| ==> SameRequest(reqs[i], reqs'[i])
  }

  lemma ProgressTransitive(a: seq<Req>, b: seq<Req>, c: seq<Req>)
    requires Progress(a, b) && Progress(b, c)
    ensures Progress(a, c)
  {
    forall i | 0 <= i < |a| ensures SameRequest(a[i], c[i]) {
      assert SameRequest(a[i], b[i]) && SameRequest(b[i], c[i]);
    }
  }

  /** What one try does to its request. */
  lemma ZoneSent(w: World, i: nat, q1: Qid, q2: Qid, w': World)
    requires i < |w.reqs| && w.reqs[i].tries > 0 && Free(w, w.reqs[i].v4, w.reqs[i].v6, q1, q2) && w' == SentZone(w, i, q1, q2)
    ensures var q, r := w.reqs[i], w'.reqs[if i < |w'.reqs| then i else 0];
            && |w'.reqs| == |w.reqs| && w'.reqs == w.reqs[i := r]
            && r == q.(tries := q.tries - 1, sent := q.sent + Families(q),
                       underway4 := if q.v6 then q2 else if q.v4 then q1 else q.underway4)
    ensures forall id :: id in w'.pending <==> id in w.pending || (w.reqs[i].v4 && id == q1) || (w.reqs[i].v6 && id == q2)
    ensures forall id :: id in w'.pending ==> w'.pending[id] == if id in w.pending then w.pending[id] else i
    ensures |w'.pending| == |w.pending| + Families(w.reqs[i])
  {
  }

  /** One try is one packet for each family asked for, under an id of its own; the request notes the last. */
  lemma TryMeans(w: World, i: nat, q1: Qid, q2: Qid, w': World)
    requires i < |w.reqs| && w.reqs[i].tries > 0 && Free(w, w.reqs[i].v4, w.reqs[i].v6, q1, q2) && w' == SentZone(w, i, q1, q2)
    ensures var q := w.reqs[i];
            var was, out := w.pending, w'.pending;
            && (!q.v4 && !q.v6 ==> out == was && w'.reqs == w.reqs[i := q.(tries := q.tries - 1)])
            && (q.v4 && !q.v6 ==>
                  && out == was[q1 := i] && q1 !in was && q1 != 0
                  && w'.reqs == w.reqs[i := q.(tries := q.tries - 1, underway4 := q1, sent := q.sent + 1)])
            && (!q.v4 && q.v6 ==>
                  && out == was[q2 := i] && q2 !in was && q2 != 0
                  && w'.reqs == w.reqs[i := q.(tries := q.tries - 1, underway4 := q2, sent := q.sent + 1)])
            && (q.v4 && q.v6 ==>
                  && out == was[q1 := i][q2 := i] && q1 !in was && q2 !in was && q1 != 0 && q2 != 0 && q1 != q2
                  && w'.reqs == w.reqs[i := q.(tries := q.tries - 1, underway4 := q2, sent := q.sent + 2)])
  {
  }

  lemma ZoneOk(w: World, i: nat, q1: Qid, q2: Qid, w': World)
    requires OkBut(w, i) && i < |w.reqs| && w.reqs[i].tries > 0 && Free(w, w.reqs[i].v4, w.reqs[i].v6, q1, q2)
    requires !(w.reqs[i].v4 && w.reqs[i].v6) ==> w.reqs[i].results == []
    requires w' == SentZone(w, i, q1, q2)
    ensures Ok(w') && Measure(w') == Measure(w) - 3 + Families(w.reqs[i])
  {
    ZoneSent(w, i, q1, q2, w');
    TriesUpdate(w.reqs, i, w'.reqs[i]);
    forall j | 0 <= j < |w'.reqs| ensures Sound(w'.reqs[j]) && Awaited(w'.pending, j, w'.reqs[j]) {
      assert Sound(w.reqs[j]) && (j != i ==> Awaited(w.pending, j, w.reqs[j]));
    }
  }

  lemma DroppedOk(w: World, qid: Qid)
    requires Ok(w) && qid in w.pending
    ensures OkBut(Dropped(w, qid), w.pending[qid]) && |Dropped(w, qid).pending| == |w.pending| - 1
  {
    var i := w.pending[qid];
    assert Owned(w.reqs[i], qid);
    forall id | id in w.pending && w.pending[id] == i && id != qid ensures w.reqs[i].v4 && w.reqs[i].v6 {
      assert Owned(w.reqs[i], id);
    }
    forall j | 0 <= j < |w.reqs| && j != i ensures Awaited(w.pending - {qid}, j, w.reqs[j]) {
      assert Awaited(w.pending, j, w.reqs[j]);
    }
  }

  /** Changing what is noted of a request that nothing rests on. */
  lemma NotedOk(w: World, i: nat, q: Req)
    requires OkBut(w, i) && i < |w.reqs|
    requires q == w.reqs[i].(underway4 := q.underway4, res := q.res, results := q.results)
    requires forall k :: 0 <= k < |q.results| ==> Sane(q.results[k])
    ensures OkBut(w.(reqs := w.reqs[i := q]), i) && Measure(w.(reqs := w.reqs[i := q])) == Measure(w)
    ensures Awaited(w.pending, i, q) ==> Ok(w.(reqs := w.reqs[i := q]))
  {
    TriesUpdate(w.reqs, i, q);
    assert Sound(w.reqs[i]);
    forall j | 0 <= j < |w.reqs| && j != i ensures Sound(w.reqs[j]) && Awaited(w.pending, j, w.reqs[j]) {
    }
  }

  lemma FinishedOk(w: World, i: nat, a: Answer)
    requires OkBut(w, i) && i < |w.reqs| && Sane(a)
    ensures Ok(Finished(w, i, a)) && Measure(Finished(w, i, a)) == Measure(w)
  {
    assert Sound(w.reqs[i]);
    NotedOk(w, i, w.reqs[i].(res := Some(a), results := w.reqs[i].results + [a]));
  }

  lemma AskOk(w: World, e: Event, w': World)
    requires Ok(w) && e.Ask? && Enabled(w, e) && w' == Next(w, e)
    ensures Ok(w')
  {
    var i := |w.reqs|;
    var w1 := w.(reqs := w.reqs + [Fresh(e.zone, e.v4, e.v6, e.now)]);
    forall id | id in w1.pending ensures w1.pending[id] < i && Owned(w1.reqs[w1.pending[id]], id) {
      assert Owned(w.reqs[w.pending[id]], id);
    }
    forall j | 0 <= j < i ensures Sound(w1.reqs[j]) && Awaited(w1.pending, j, w1.reqs[j]) {
      assert Sound(w.reqs[j]) && Awaited(w.pending, j, w.reqs[j]);
    }
    ZoneOk(w1, i, e.q1, e.q2, w');
  }

  lemma RespondOk(w: World, e: Event, w': World)
    requires Ok(w) && e.Respond? && Enabled(w, e) && w' == Next(w, e)
    ensures Ok(w') && Measure(w') == Measure(w) - 1
  {
    var i := w.pending[e.qid];
    DroppedOk(w, e.qid);
    assert Sound(w.reqs[i]);
    assert Awaited(w.pending, i, w.reqs[i]);
    var q := Heard(w.reqs[i], e.qid, e.answers);
    NotedOk(Dropped(w, e.qid), i, q);
    if q.underway4 == 0 {
      FinishedOk(Dropped(w, e.qid).(reqs := w.reqs[i := q]), i, e.a);
    }
  }

  lemma ExpireOk(w: World, e: Event, w': World)
    requires Ok(w) && e.Expire? && Enabled(w, e) && w' == Next(w, e)
    ensures Ok(w') && Measure(w') < Measure(w)
  {
    var i := w.pending[e.qid];
    DroppedOk(w, e.qid);
    assert Sound(w.reqs[i]) && Owned(w.reqs[i], e.qid);
    if w.reqs[i].tries > 0 {
      ZoneOk(Dropped(w, e.qid), i, e.q1, e.q2, w');
    } else {
      var q := w.reqs[i].(underway4 := 0, underway6 := 0);
      NotedOk(Dropped(w, e.qid), i, q);
      FinishedOk(Dropped(w, e.qid).(reqs := w.reqs[i := q]), i, e.a);
    }
  }

  /** Each step keeps everything in order, and all but new requests lower the measure. */
  lemma NextOk(w: World, e: Event, w': World)
    requires Ok(w) && Enabled(w, e) && w' == Next(w, e)
    ensures Ok(w') && (!e.Ask? ==> Measure(w') < Measure(w))
  {
    match e {
      case Ask(_, _, _, _, _, _) => AskOk(w, e, w');
      case Respond(_, _, _) => RespondOk(w, e, w');
      case Expire(_, _, _, _, _) => ExpireOk(w, e, w');
    }
  }

  lemma ExpireProgress(w: World, e: Event, w': World)
    requires e.Expire? && Enabled(w, e) && w' == Next(w, e)
    ensures Progress(w.reqs, w'.reqs)
  {
    if w.reqs[w.pending[e.qid]].tries > 0 {
      ZoneSent(Dropped(w, e.qid), w.pending[e.qid], e.q1, e.q2, w');
    }
  }

  lemma AskProgress(w: World, e: Event, w': World)
    requires e.Ask? && Enabled(w, e) && w' == Next(w, e)
    ensures Progress(w.reqs, w'.reqs)
  {
    var w1 := w.(reqs := w.reqs + [Fresh(e.zone, e.v4, e.v6, e.now)]);
    ZoneSent(w1, |w.reqs|, e.q1, e.q2, w');
  }

  lemma NextProgress(w: World, e: Event, w': World)
    requires Enabled(w, e) && w' == Next(w, e)
    ensures Progress(w.reqs, w'.reqs)
  {
    match e {
      case Ask(_, _, _, _, _, _) => AskProgress(w, e, w');
      case Respond(_, _, _) =>
      case Expire(_, _, _, _, _) => ExpireProgress(w, e, w');
    }
  }

  // ---- whole runs ----

  lemma {:induction false} RunOk(w: World, es: seq<Event>, w': World)
    requires Ok(w) && Runs(w, es, w')
    ensures Ok(w') && Progress(w.reqs, w'.reqs)
    decreases |es|
  {
    if es != [] {
      var w1 := Next(w, es[0]);
      NextOk(w, es[0], w1);
      NextProgress(w, es[0], w1);
      RunOk(w1, es[1..], w');
      ProgressTransitive(w.reqs, w1.reqs, w'.reqs);
    }
  }

  /** Over every run, a request for some family that nobody waits for any more has had its result published. */
  lemma NothingLost(es: seq<Event>, w: World, i: nat)
    requires Runs(NOTHING, es, w) && i < |w.reqs| && w.reqs[i].Asks()
    requires forall id :: id in w.pending ==> w.pending[id] != i
    ensures w.reqs[i].results != []
  {
    RunOk(NOTHING, es, w);
    RunStarted(NOTHING, es, w, i);
    assert Awaited(w.pending, i, w.reqs[i]);
  }

  /** Every request has had its first try. */
  lemma {:induction false} RunStarted(w: World, es: seq<Event>, w': World, i: nat)
    requires Runs(w, es, w') && i < |w'.reqs| && forall k :: 0 <= k < |w.reqs| ==> w.reqs[k].Started()
    ensures w'.reqs[i].Started()
    decreases |es|
  {
    if es != [] {
      var w1 := Next(w, es[0]);
      if es[0].Ask? {
        var e := es[0];
        ZoneSent(w.(reqs := w.reqs + [Fresh(e.zone, e.v4, e.v6, e.now)]), |w.reqs|, e.q1, e.q2, w1);
      } else if es[0].Expire? && w.reqs[w.pending[es[0].qid]].tries > 0 {
        ZoneSent(Dropped(w, es[0].qid), w.pending[es[0].qid], es[0].q1, es[0].q2, w1);
      }
      RunStarted(w1, es[1..], w', i);
    }
  }

  /** Over every run, no request sends more than two packets for each of its tries. */
  lemma FewPackets(es: seq<Event>, w: World, i: nat)
    requires Runs(NOTHING, es, w) && i < |w.reqs|
    ensures w.reqs[i].sent <= 6
  {
    RunOk(NOTHING, es, w);
    assert Sound(w.reqs[i]);
  }

  /** A packet for each family asked for in each try so far. */
  predicate SentAll(q: Req) {
    q.tries <= 3 && q.sent == (if q.v4 then 3 - q.tries else 0) + (if q.v6 then 3 - q.tries else 0)
  }

  lemma {:induction false} RunSent(w: World, es: seq<Event>, w': World)
    requires Runs(w, es, w') && forall k :: 0 <= k < |w.reqs| ==> SentAll(w.reqs[k])
    ensures forall k :: 0 <= k < |w'.reqs| ==> SentAll(w'.reqs[k])
    decreases |es|
  {
    if es != [] {
      NextSent(w, es[0], Next(w, es[0]));
      RunSent(Next(w, es[0]), es[1..], w');
    }
  }

  lemma NextSent(w: World, e: Event, w': World)
    requires Enabled(w, e) && w' == Next(w, e) && forall k :: 0 <= k < |w.reqs| ==> SentAll(w.reqs[k])
    ensures forall k :: 0 <= k < |w'.reqs| ==> SentAll(w'.reqs[k])
  {
    if e.Ask? {
      var w1 := w.(reqs := w.reqs + [Fresh(e.zone, e.v4, e.v6, e.now)]);
      ZoneSent(w1, |w.reqs|, e.q1, e.q2, w');
    } else if e.Expire? && w.reqs[w.pending[e.qid]].tries > 0 {
      ZoneSent(Dropped(w, e.qid), w.pending[e.qid], e.q1, e.q2, w');
    }
  }

  /** Over every run, a query is waited for four seconds and more; then its request is tried again, if that was not the
      third time, and else published with what is known. */
  lemma ThreeTries(es: seq<Event>, w: World, e: Event, w': World, q: Req, r: Req)
    requires Runs(NOTHING, es, w) && e.Expire? && Enabled(w, e) && w' == Next(w, e)
    requires q == w.reqs[w.pending[e.qid]] && q.Asks() && |w'.reqs| == |w.reqs| && r == w'.reqs[w.pending[e.qid]]
    ensures q.start + 4_000_000_000 < e.now
    ensures var each := (if q.v4 then 1 else 0) + (if q.v6 then 1 else 0);
            if q.sent < 3 * each then r.results == q.results && r.sent == q.sent + each
            else q.sent == 3 * each && r.sent == q.sent && r.results == q.results + [e.a] && Publishable(q.res, e.a)
  {
    RunSent(NOTHING, es, w);
    assert SentAll(q);
    if q.tries > 0 {
      ZoneSent(Dropped(w, e.qid), w.pending[e.qid], e.q1, e.q2, w');
    }
  }

  /** Over every run, a request for one family waits for one id at most, the one it notes, and for none once published. */
  lemma OneFamily(es: seq<Event>, w: World, i: nat, id: Qid)
    requires Runs(NOTHING, es, w) && i < |w.reqs| && !(w.reqs[i].v4 && w.reqs[i].v6)
    requires id in w.pending && w.pending[id] == i
    ensures id == w.reqs[i].underway4 && w.reqs[i].results == []
  {
    RunOk(NOTHING, es, w);
    assert Owned(w.reqs[i], id);
  }

  /** A request has been published while one of its packets is still waited for. */
  ghost predicate Early(w: World, i: nat, v4: bool, v6: bool, id: Qid) {
    && i < |w.reqs| && w.reqs[i].v4 == v4 && w.reqs[i].v6 == v6
    && w.reqs[i].results != [] && id in w.pending && w.pending[id] == i
  }

  ghost predicate MayBeEarly(v4: bool, v6: bool) {
    exists es, w, i, id :: Runs(NOTHING, es, w) && Early(w, i, v4, v6, id)
  }

  /** That can happen exactly to the requests for both families. */
  lemma EarlyExactly(v4: bool, v6: bool)
    ensures MayBeEarly(v4, v6) <==> v4 && v6
  {
    if v4 && v6 {
      var es, w := BothFamilies();
      assert Early(w, 0, v4, v6, 1);
    }
    if es, w, i: nat, id: Qid :| Runs(NOTHING, es, w) && Early(w, i, v4, v6, id) {
      RunOk(NOTHING, es, w);
      assert Owned(w.reqs[i], id);
    }
  }

  /** The second packet is answered first: the request is published, and the first is still waited for. */
  lemma BothFamilies() returns (es: seq<Event>, w: World)
    ensures |es| == 2 && Runs(NOTHING, es, w)
    ensures |w.reqs| == 1 && w.reqs[0].v4 && w.reqs[0].v6 && |w.reqs[0].results| == 1 && w.pending == map[1 := 0]
  {
    var e := Ask("a.", true, true, 0, 1, 2);
    var w1 := Next(NOTHING, e);
    assert w1.pending == map[1 := 0, 2 := 0] && w1.reqs[0].underway4 == 2 && w1.reqs[0].res == None;
    var f := Respond(2, [], Answer(TTL_ERR, [], []));
    w := Next(w1, f);
    assert w.pending == map[1 := 0];
    RunsOne(NOTHING, e);
    RunsOne(w1, f);
    RunsOn(NOTHING, [e], w1, [f], w);
    es := [e] + [f];
  }

  /** All that is known is now `res`, and it has been published once more if `out` says so. */
  ghost predicate Published(q: Req, q': Req, res: Option<Answer>, out: bool) {
    && Known(q'.res) == Known(res)
    && (if out then |q'.results| == |q.results| + 1 && Publishable(res, q'.results[|q.results|])
        else q'.results == q.results)
  }

  /** What the worker is told: a name to look up, a packet, or that a second has passed. */
  datatype Work =
    | Query(name: string, suffixes: seq<string>, v4: bool, v6: bool)
    | Packet(qid: Qid, response: bool, question: Option<string>, answers: seq<RR>)
    | Tick

  lemma AskMakes(w: World, e: Event, w': World)
    requires e.Ask? && Enabled(w, e) && w' == Next(w, e)
    ensures |w'.reqs| == |w.reqs| + 1 && w.reqs <= w'.reqs && Zones(w'.reqs) == Zones(w.reqs) + [e.zone]
    ensures var q := w'.reqs[|w.reqs|];
            q.zname == e.zone && q.v4 == e.v4 && q.v6 == e.v6 && q.start == e.now && q.Started() && q.results == []
  {
    ZoneSent(w.(reqs := w.reqs + [Fresh(e.zone, e.v4, e.v6, e.now)]), |w.reqs|, e.q1, e.q2, w');
  }

  /** One new request for each suffix, in order. */
  ghost predicate Made(was: seq<Req>, reqs: seq<Req>, name: string, search: seq<string>, v4: bool, v6: bool, now: int) {
    && was <= reqs && Zones(reqs) == Zones(was) + Suffixed(name, search)
    && forall k :: |was| <= k < |reqs| ==> reqs[k].v4 == v4 && reqs[k].v6 == v6 && reqs[k].start == now
  }

  lemma MadeOne(was: seq<Req>, mid: seq<Req>, reqs: seq<Req>, name: string, search: seq<string>, k: nat,
                v4: bool, v6: bool, now: int)
    requires k < |search| && Made(was, mid, name, search[..k], v4, v6, now)
    requires |reqs| == |mid| + 1 && mid <= reqs && Zones(reqs) == Zones(mid) + [name + search[k]]
    requires reqs[|mid|].v4 == v4 && reqs[|mid|].v6 == v6 && reqs[|mid|].start == now
    ensures Made(was, reqs, name, search[..k + 1], v4, v6, now)
  {
    assert Suffixed(name, search[..k + 1]) == Suffixed(name, search[..k]) + [name + search[k]];
  }

  ghost predicate Asking(w: World, es: seq<Event>, w': World, name: string, search: seq<string>, v4: bool, v6: bool, now: int) {
    Runs(w, es, w') && Made(w.reqs, w'.reqs, name, search, v4, v6, now)
  }

  lemma AskingOn(w: World, es: seq<Event>, w1: World, e: Event, w2: World, name: string, search: seq<string>, k: nat,
                 v4: bool, v6: bool, now: int)
    requires k < |search| && Asking(w, es, w1, name, search[..k], v4, v6, now) && Enabled(w1, e) && w2 == Next(w1, e)
    requires |w2.reqs| == |w1.reqs| + 1 && w1.reqs <= w2.reqs && Zones(w2.reqs) == Zones(w1.reqs) + [name + search[k]]
    requires var q := w2.reqs[|w1.reqs|]; q.v4 == v4 && q.v6 == v6 && q.start == now
    ensures Asking(w, es + [e], w2, name, search[..k + 1], v4, v6, now)
  {
    MadeOne(w.reqs, w1.reqs, w2.reqs, name, search, k, v4, v6, now);
    RunsOne(w1, e);
    RunsOn(w, es, w1, [e], w2);
  }

  /** What the worker makes of one thing it is told. */
  ghost predicate Did(w: World, max: real, now: int, work: Work, es: seq<Event>, w': World) {
    Runs(w, es, w')
    && match work
       case Query(name, suffixes, v4, v6) =>
         if |w.pending| < max.Floor && name != "" then
           Made(w.reqs, w'.reqs, name, if name[|name| - 1] == '.' then [""] else suffixes, v4, v6, now)
         else w' == w
       case Packet(qid, response, question, answers) =>
         if response && qid in w.pending && w.pending[qid] < |w.reqs| && question == Some(w.reqs[w.pending[qid]].zname)
         then exists a :: es == [Respond(qid, answers, a)]
         else w' == w
       case Tick => Expires(w, es, w') && Sweep(w, w', now, {})
  }

  /** How things stand, what led there, and how many queries may be outstanding. */
  datatype Stage = Stage(w: World, es: seq<Event>, max: real)

  ghost predicate DidAt(works: seq<(int, Work)>, trail: seq<Stage>, i: int)
    requires 0 <= i < |works| < |trail|
  {
    Did(trail[i].w, trail[i].max, works[i].0, works[i].1, trail[i + 1].es, trail[i + 1].w)
  }

  /** One thing after another, none left out. */
  ghost predicate Worked(first: Stage, works: seq<(int, Work)>, trail: seq<Stage>) {
    && |trail| == |works| + 1 && trail[0] == first
    && forall i :: 0 <= i < |works| ==> DidAt(works, trail, i)
  }

  lemma WorkedOn(first: Stage, works: seq<(int, Work)>, n: nat, trail: seq<Stage>, next: Stage) returns (longer: seq<Stage>)
    requires n < |works| && Worked(first, works[..n], trail)
    requires Did(trail[n].w, trail[n].max, works[n].0, works[n].1, next.es, next.w)
    ensures longer == trail + [next] && Worked(first, works[..n + 1], longer)
  {
    longer := trail + [next];
    var some := works[..n + 1];
    forall i | 0 <= i < n + 1 ensures DidAt(some, longer, i) {
      assert i < n ==> DidAt(works[..n], trail, i);
    }
  }

  /** All of it is one run. */
  lemma {:induction false} WorkedRuns(first: Stage, works: seq<(int, Work)>, trail: seq<Stage>) returns (es: seq<Event>)
    requires Worked(first, works, trail)
    ensures Runs(first.w, es, trail[|works|].w)
  {
    if works == [] {
      es := [];
    } else {
      var n := |works| - 1;
      var some, part := works[..n], trail[..n + 1];
      forall i | 0 <= i < n ensures DidAt(some, part, i) {
        assert DidAt(works, trail, i);
      }
      es := WorkedRuns(first, some, part);
      assert DidAt(works, trail, n);
      RunsOn(first.w, es, trail[n].w, trail[n + 1].es, trail[n + 1].w);
      es := es + trail[n + 1].es;
    }
  }

  /** The answers of a response, one after the other. */
  method Learn(res: Option<Answer>, answers: seq<RR>) returns (r: Option<Answer>)
    ensures r == Collect(res, answers)
  {
    r := res;
    for k := 0 to |answers|
      invariant Collect(r, answers[k..]) == Collect(res, answers)
    {
      var rr := answers[k];
      assert answers[k..][0] == rr && answers[k..][1..] == answers[k + 1..];
      if r == None {
        r := Some(Answer(rr.ttl, [], []));
      }
      match rr {
        case A(_, addr) => r := Some(r.value.(v4 := r.value.v4 + [addr]));
        case AAAA(_, addr) => r := Some(r.value.(v6 := r.value.v6 + [addr]));
        case OtherRR(_) =>
      }
    }
  }

  class Workstate {
    var pending: map<Qid, nat>
    var reqs: seq<Req>             // an index stands for a pointer to the request
    var nqueries: int
    var maxqueries: real

    ghost function State(): World
      reads this
    {
      World(pending, reqs)
    }

    ghost predicate Counted()
      reads this
    {
      nqueries == |pending| && 1.0 <= maxqueries <= MAXQUERIES
    }

    ghost predicate Valid()
      reads this
    {
      Counted() && Ok(State())
    }

    constructor ()
      ensures Valid() && State() == NOTHING
    {
      pending, reqs, nqueries, maxqueries := map[], [], 0, 1.0;
    }

    /**
     * The worker: one thing after another, for ever; here, for as long as there is work. `trail` is how things stood
     * in between.
     */
    method Worker(works: seq<(int, Work)>) returns (ghost trail: seq<Stage>)
      requires Valid()
      modifies this
      ensures Valid() && Worked(Stage(old(State()), [], old(maxqueries)), works, trail)
      ensures trail[|works|].w == State()
    {
      ghost var first, here := Stage(State(), [], maxqueries), State();
      trail := [first];
      for i := 0 to |works|
        invariant Valid() && here == State() && Worked(first, works[..i], trail)
        invariant trail[i].w == here && trail[i].max == maxqueries
      {
        ghost var es := Do(works[i].0, works[i].1);
        here := State();
        trail := WorkedOn(first, works, i, trail, Stage(here, es, maxqueries));
      }
      assert works[..|works|] == works;
    }

    /** One thing. No query is taken while too many are outstanding. */
    method Do(now: int, work: Work) returns (ghost es: seq<Event>)
      requires Valid()
      modifies this
      ensures Valid() && Did(old(State()), old(maxqueries), now, work, es, State())
    {
      es := [];
      match work {
        case Query(name, suffixes, v4, v6) =>
          if nqueries < maxqueries.Floor && name != "" {
            es := MakeQueries(name, suffixes, v4, v6, now);
          }
        case Packet(qid, response, question, answers) =>
          var accepted;
          accepted, es := ProcessResult(qid, response, question, answers);
        case Tick =>
          es := Timeouts(now);
      }
    }

    /** Some id that is neither 0 nor outstanding. */
    method NextQid() returns (id: Qid)
      ensures id != 0 && id !in pending
    {
      ghost var above := Above(pending.Keys);
      id :| id != 0 && id !in pending;
    }

    /** One packet for request `i`. */
    method SendQuery(i: nat, id: Qid)
      requires i < |reqs| && id !in pending && nqueries == |pending|
      modifies this`pending, this`nqueries, this`reqs
      ensures State() == SentOne(old(State()), i, id) && nqueries == |pending|
    {
      reqs := reqs[i := reqs[i].(underway4 := id)];
      pending := pending[id := i];
      nqueries := nqueries + 1;
      reqs := reqs[i := reqs[i].(sent := reqs[i].sent + 1)];
    }

    /** One try: a packet for each address family; the id of the last one is noted. */
    method SendQueryZone(i: nat) returns (ghost q1: Qid, ghost q2: Qid)
      requires i < |reqs| && reqs[i].tries > 0 && nqueries == |pending|
      modifies this`pending, this`nqueries, this`reqs
      ensures Free(old(State()), old(reqs)[i].v4, old(reqs)[i].v6, q1, q2)
      ensures State() == SentZone(old(State()), i, q1, q2) && nqueries == |pending|
    {
      q1, q2 := 0, 0;
      if reqs[i].v4 {
        var id := NextQid();
        q1 := id;
        SendQuery(i, id);
      }
      if reqs[i].v6 {
        var id := NextQid();
        q2 := id;
        SendQuery(i, id);
      }
      reqs := reqs[i := reqs[i].(tries := reqs[i].tries - 1)];
    }

    /** A new request for one zone. */
    method MakeQuery(zone: string, v4: bool, v6: bool, now: int) returns (ghost e: Event)
      requires Valid()
      modifies this`pending, this`nqueries, this`reqs
      ensures Valid() && |reqs| == |old(reqs)| + 1 && old(reqs) <= reqs
      ensures Zones(reqs) == Zones(old(reqs)) + [zone]
      ensures Enabled(old(State()), e) && State() == Next(old(State()), e)
      ensures e.Ask? && e.zone == zone && e.v4 == v4 && e.v6 == v6 && e.now == now
      ensures var q := reqs[|old(reqs)|];
              q.zname == zone && q.v4 == v4 && q.v6 == v6 && q.start == now && q.Started() && q.results == []
    {
      ghost var was := State();
      reqs := reqs + [Fresh(zone, v4, v6, now)];
      ghost var q1, q2 := SendQueryZone(|reqs| - 1);
      e := Ask(zone, v4, v6, now, q1, q2);
      AskMakes(was, e, State());
      AskOk(was, e, State());
    }

    /** A name is asked for under every search suffix, unless it ends with a dot. */
    method MakeQueries(name: string, suffixes: seq<string>, v4: bool, v6: bool, now: int) returns (ghost es: seq<Event>)
      requires Valid() && name != ""
      modifies this`pending, this`nqueries, this`reqs
      ensures Valid() && Runs(old(State()), es, State())
      ensures var search := if name[|name| - 1] == '.' then [""] else suffixes;
              Made(old(reqs), reqs, name, search, v4, v6, now)
    {
      es := [];
      ghost var first := State();
      var search := [""];
      if name[|name| - 1] != '.' {
        search := suffixes;
      }
      for k := 0 to |search|
        invariant Valid() && Asking(first, es, State(), name, search[..k], v4, v6, now)
      {
        ghost var was := State();
        ghost var e := MakeQuery(name + search[k], v4, v6, now);
        AskingOn(first, es, was, e, State(), name, search, k, v4, v6, now);
        es := es + [e];
      }
      assert search[..|search|] == search;
    }

    /** Publish what is known of request `i`, with some randomness in its life time. */
    method Done(i: nat) returns (ghost a: Answer)
      requires i < |reqs|
      modifies this`reqs
      ensures Publishable(old(reqs)[i].res, a) && State() == Finished(old(State()), i, a)
    {
      var err := Intn(TTL_ERR / 10);
      var res := if reqs[i].res == None then Answer(TTL_ERR + err, [], []) else reqs[i].res.value;
      if res.ttl < TTL_MIN {
        res := res.(ttl := TTL_MIN);
      }
      if res.ttl > TTL_MAX {
        res := res.(ttl := TTL_MAX);
      }
      var less := Intn(res.ttl / 10);
      res := res.(ttl := res.ttl - less);
      reqs := reqs[i := reqs[i].(res := Some(res), results := reqs[i].results + [res])];
      a := res;
    }

    /** A response arrives. It is accepted only if it answers the question its id stands for. */
    method ProcessResult(qid: Qid, response: bool, question: Option<string>, answers: seq<RR>)
      returns (accepted: bool, ghost es: seq<Event>)
      requires Valid()
      modifies this
      ensures Valid() && Runs(old(State()), es, State())
      ensures accepted <==> response && qid in old(pending) && question == Some(old(reqs)[old(pending)[qid]].zname)
      ensures !accepted ==> State() == old(State())
      ensures accepted ==> exists a :: es == [Respond(qid, answers, a)]
      ensures accepted ==> Measure(State()) == Measure(old(State())) - 1
      ensures accepted ==> pending == old(pending) - {qid}
      ensures accepted ==>
        var i := old(pending)[qid];
        && |reqs| == |old(reqs)| && i < |reqs|
        && Published(old(reqs)[i], reqs[i], Collect(old(reqs)[i].res, answers), old(reqs)[i].underway4 in {0, qid})
    {
      es := [];
      if !response || qid !in pending {
        return false, es;
      }
      ghost var was := State();
      var i := pending[qid];
      if question.None? || question.value != reqs[i].zname {
        return false, es;
      }
      accepted := true;
      assert Sound(reqs[i]);
      pending := pending - {qid};
      nqueries := nqueries - 1;
      AddMax(maxqueries + 1.0);
      var res := Learn(reqs[i].res, answers);
      reqs := reqs[i := reqs[i].(underway4 := Cleared(reqs[i].underway4, qid),
                                 underway6 := Cleared(reqs[i].underway6, qid), res := res)];
      ghost var a := Longest(reqs[i].res);
      LongestIs(reqs[i].res);
      if reqs[i].underway4 == 0 && reqs[i].underway6 == 0 {
        a := Done(i);
      }
      ghost var e := Respond(qid, answers, a);
      RespondOk(was, e, State());
      RunsOne(was, e);
      es := [e];
    }

    /** A query that has waited too long: retry the request, or give it up. */
    method TimeOut(qid: Qid, now: int) returns (ghost e: Event)
      requires Valid() && qid in pending && reqs[pending[qid]].TimedOut(now)
      modifies this
      ensures Valid() && e.Expire? && e.qid == qid && e.now == now && Enabled(old(State()), e) && State() == Next(old(State()), e)
    {
      ghost var was := State();
      var i := pending[qid];
      pending := pending - {qid};
      nqueries := nqueries - 1;
      AddMax(maxqueries / 2.0);
      if reqs[i].tries > 0 {
        e := Retry(was, qid, i, now);
      } else {
        e := GiveUp(was, qid, i, now);
      }
      ExpireOk(was, e, State());
    }

    method Retry(ghost was: World, ghost qid: Qid, i: nat, ghost now: int) returns (ghost e: Event)
      requires qid in was.pending && was.pending[qid] == i && i < |was.reqs| && was.reqs[i].TimedOut(now)
      requires State() == Dropped(was, qid) && nqueries == |pending| && reqs[i].tries > 0
      modifies this`pending, this`nqueries, this`reqs
      ensures e.Expire? && e.qid == qid && e.now == now && Enabled(was, e) && State() == Next(was, e) && nqueries == |pending|
    {
      LongestIs(reqs[i].res);
      ghost var a := Longest(reqs[i].res);
      ghost var q1, q2 := SendQueryZone(i);
      e := Expire(qid, now, q1, q2, a);
    }

    method GiveUp(ghost was: World, ghost qid: Qid, i: nat, ghost now: int) returns (ghost e: Event)
      requires qid in was.pending && was.pending[qid] == i && i < |was.reqs| && was.reqs[i].TimedOut(now)
      requires State() == Dropped(was, qid) && reqs[i].tries == 0
      modifies this`reqs
      ensures e.Expire? && e.qid == qid && e.now == now && Enabled(was, e) && State() == Next(was, e)
    {
      ghost var q1 := Above(pending.Keys);
      ghost var q2 := Above(pending.Keys + {q1});
      reqs := reqs[i := reqs[i].(underway4 := 0, underway6 := 0)];
      ghost var a := Done(i);
      e := Expire(qid, now, q1, q2, a);
    }

    /** Deal with what has waited too long. The ids outstanding at the start are all looked at, each once;
        those added on the way may or may not be. */
    method Timeouts(now: int) returns (ghost es: seq<Event>)
      requires Valid()
      modifies this
      ensures Valid() && Expires(old(State()), es, State()) && Sweep(old(State()), State(), now, {})
      ensures forall id :: id in old(pending) && old(reqs)[old(pending)[id]].start + 4_000_000_000 >= now ==>
                             id in pending && pending[id] == old(pending)[id]
    {
      ghost var first := State();
      es := SweepAll(first, now);
      RunOk(first, es, State());
    }

    method SweepAll(ghost first: World, now: int) returns (ghost es: seq<Event>)
      requires Counted() && Ok(first) && first == State()
      modifies this
      ensures Counted() && Expires(first, es, State()) && Sweep(first, State(), now, {})
    {
      var visited: set<Qid>, must := {}, pending.Keys;
      es := [];
      var id: Qid, more := Pick(must, visited);
      while more
        invariant Counted() && Expires(first, es, State()) && Sweep(first, State(), now, must) && must !! visited
        invariant if more then id in pending && id !in visited else must == {}
        decreases Measure(State()), |pending.Keys - visited|
      {
        OneLess(pending.Keys, visited, id);
        var late;
        late, es := Visit(id, now, first, es, must);
        must := must - {id};
        if !late {
          visited := visited + {id};
        }
        id, more := Pick(must, visited);
      }
    }

    /** Some outstanding id that was not seen in time; none only if those that must be looked at have been. */
    method Pick(must: set<Qid>, visited: set<Qid>) returns (id: Qid, more: bool)
      requires must <= pending.Keys && must !! visited
      ensures if more then id in pending && id !in visited else must == {}
    {
      more := *;
      var left := if more then pending.Keys - visited else must;
      if left == {} {
        left := must;
      }
      id, more := 0, left != {};
      if more {
        id :| id in left;
      }
    }

    /** Look at one outstanding id. */
    method Visit(id: Qid, now: int, ghost first: World, ghost so: seq<Event>, ghost must: set<Qid>)
      returns (late: bool, ghost es: seq<Event>)
      requires Counted() && Ok(first) && Expires(first, so, State()) && Sweep(first, State(), now, must)
      requires id in pending || id in must
      modifies this
      ensures Counted() && Sweep(first, State(), now, must - {id}) && Expires(first, es, State())
      ensures if late then Measure(State()) < Measure(old(State())) else State() == old(State())
    {
      ghost var was := State();
      RunOk(first, so, was);
      SweepHas(first, was, now, must, id);
      es := so;
      late := reqs[pending[id]].TimedOut(now);
      if late {
        ghost var e := TimeOut(id, now);
        ExpireOk(was, e, State());
        NextProgress(was, e, State());
        SweepExpires(first, was, State(), now, must, e);
        RunsOne(was, e);
        ExpiresOn(first, so, was, [e], State());
        es := so + [e];
      } else {
        SweepPasses(first, was, now, must, id);
      }
    }

    method AddMax(n: real)
      requires 0.0 <= n
      modifies this`maxqueries
      ensures var x := (40.0 * old(maxqueries) + n) / 41.0;
              maxqueries == if x < 1.0 then 1.0 else if x > 256.0 then 256.0 else x
      ensures 1.0 <= maxqueries <= MAXQUERIES
    {
      maxqueries := (XDK * maxqueries + n) / (XDK + 1.0);
      if maxqueries < 1.0 {
        maxqueries := 1.0;
      }
      if maxqueries > MAXQUERIES {
        maxqueries := MAXQUERIES;
      }
    }
  }

  /** A run in which only queries expire. */
  ghost predicate Expires(w: World, es: seq<Event>, w': World) {
    Runs(w, es, w') && forall k :: 0 <= k < |es| ==> es[k].Expire?
  }

  lemma ExpiresOn(w: World, es: seq<Event>, w': World, more: seq<Event>, w'': World)
    requires Expires(w, es, w') && Expires(w', more, w'')
    ensures Expires(w, es + more, w'')
  {
    RunsOn(w, es, w', more, w'');
  }

  /**
   * Of the ids outstanding at the start of a sweep, those in `must` and those in time are still there; the measure
   * has not risen, and it has fallen if an id now looked at had timed out.
   */
  ghost predicate Sweep(a: World, b: World, now: int, must: set<Qid>) {
    && (forall id :: id in a.pending ==> a.pending[id] < |a.reqs|)
    && Progress(a.reqs, b.reqs) && |b.reqs| == |a.reqs| && must <= a.pending.Keys
    && (forall id :: id in a.pending && (id in must || !a.reqs[a.pending[id]].TimedOut(now)) ==>
          id in b.pending && b.pending[id] == a.pending[id])
    && Measure(b) <= Measure(a)
    && ((exists id :: id in a.pending && id !in must && a.reqs[a.pending[id]].TimedOut(now)) ==> Measure(b) < Measure(a))
  }

  lemma OneLess(keys: set<Qid>, visited: set<Qid>, id: Qid)
    requires id in keys && id !in visited
    ensures |keys - (visited + {id})| < |keys - visited|
  {
    assert keys - visited == keys - (visited + {id}) + {id};
  }

  /** An id about to be looked at is outstanding, for the same request as at the start if it has not been looked at. */
  lemma SweepHas(a: World, b: World, now: int, must: set<Qid>, id: Qid)
    requires Ok(b) && Sweep(a, b, now, must) && (id in b.pending || id in must)
    ensures id in b.pending && b.pending[id] < |b.reqs|
    ensures id in a.pending && (id in must || !a.reqs[a.pending[id]].TimedOut(now)) ==>
              b.reqs[b.pending[id]].TimedOut(now) == a.reqs[a.pending[id]].TimedOut(now)
  {
    if id in a.pending && (id in must || !a.reqs[a.pending[id]].TimedOut(now)) {
      assert SameRequest(a.reqs[a.pending[id]], b.reqs[a.pending[id]]);
    }
  }

  lemma SweepPasses(a: World, b: World, now: int, must: set<Qid>, id: Qid)
    requires Ok(b) && Sweep(a, b, now, must) && id in b.pending && b.pending[id] < |b.reqs| && !b.reqs[b.pending[id]].TimedOut(now)
    ensures Sweep(a, b, now, must - {id})
  {
    SweepHas(a, b, now, must, id);
  }

  lemma SweepExpires(a: World, b: World, c: World, now: int, must: set<Qid>, e: Event)
    requires Ok(b) && Sweep(a, b, now, must) && e.Expire? && e.now == now && Enabled(b, e) && c == Next(b, e)
    requires Measure(c) < Measure(b) && Progress(b.reqs, c.reqs)
    ensures Sweep(a, c, now, must - {e.qid})
  {
    ProgressTransitive(a.reqs, b.reqs, c.reqs);
    SweepHas(a, b, now, must, e.qid);
    if b.reqs[b.pending[e.qid]].tries > 0 {
      ZoneSent(Dropped(b, e.qid), b.pending[e.qid], e.q1, e.q2, c);
    }
  }

  /** Some whole number below `n`. */
  method Intn(n: int) returns (r: int)
    requires n > 0
    ensures 0 <= r < n
  {
    r :| 0 <= r < n;
  }

  lemma {:induction false} Above(ids: set<Qid>) returns (id: Qid)
    ensures id != 0 && id !in ids && forall x :: x in ids ==> x < id
    decreases |ids|
  {
    if ids == {} {
      return 1;
    }
    var x :| x in ids;
    var y := Above(ids - {x});
    id := if x < y then y else x + 1;
    assert ids == (ids - {x}) + {x};
  }
}
