/** One status from what several hosts of a cluster report about the same thing. */
module Darp {

  import opened Aggregate

  type Host = string

  /** A host nobody has heard from about this is unknown. */
  function StatusOf(statuses: map<Host, Status>, h: Host): Status {
    if h in statuses then statuses[h] else UNKNOWN
  }

  /** A host that is down keeps its last word, except under Ietf, where it does not vote. */
  predicate Votes(grav: Gravity, darps: map<Host, bool>, h: Host) {
    h in darps && (darps[h] || grav != Ietf)
  }

  function Voters(grav: Gravity, darps: map<Host, bool>, among: set<Host>): set<Host> {
    set h | h in among && Votes(grav, darps, h)
  }

  /** The voters among some hosts whose status is a severity from `lo` to `hi`. */
  function Reporting(grav: Gravity, statuses: map<Host, Status>, darps: map<Host, bool>, among: set<Host>, lo: int, hi: int):
    set<Host>
  {
    set h | h in among && Votes(grav, darps, h) && lo <= StatusOf(statuses, h) <= hi
  }

  ghost predicate Tallied(grav: Gravity, statuses: map<Host, Status>, darps: map<Host, bool>, done: set<Host>,
                          count: seq<nat>, nstatus: nat)
  {
    && |count| == MAXSTATUS + 1
    && nstatus == |Voters(grav, darps, done)|
    && forall s :: CLEAR <= s <= CRITICAL ==> count[s] == |Reporting(grav, statuses, darps, done, s, s)|
  }

  function One(b: bool): nat {
    if b then 1 else 0
  }

  lemma VotersMore(grav: Gravity, darps: map<Host, bool>, done: set<Host>, h: Host)
    requires h !in done
    ensures |Voters(grav, darps, done + {h})| == |Voters(grav, darps, done)| + One(Votes(grav, darps, h))
  {
    var was := Voters(grav, darps, done);
    assert Voters(grav, darps, done + {h}) == if Votes(grav, darps, h) then was + {h} else was;
  }

  lemma ReportingMore(grav: Gravity, statuses: map<Host, Status>, darps: map<Host, bool>, done: set<Host>, h: Host, s: int)
    requires h !in done
    ensures |Reporting(grav, statuses, darps, done + {h}, s, s)|
         == |Reporting(grav, statuses, darps, done, s, s)| + One(Votes(grav, darps, h) && StatusOf(statuses, h) == s)
  {
    var was, now := Reporting(grav, statuses, darps, done, s, s), Reporting(grav, statuses, darps, done + {h}, s, s);
    if Votes(grav, darps, h) && StatusOf(statuses, h) == s {
      assert now == was + {h};
    } else {
      assert now == was;
    }
  }

  lemma TallyOne(grav: Gravity, statuses: map<Host, Status>, darps: map<Host, bool>, done: set<Host>, h: Host,
                 count: seq<nat>, nstatus: nat)
    requires h !in done && h in darps && Tallied(grav, statuses, darps, done, count, nstatus)
    ensures var st := StatusOf(statuses, h);
            if Votes(grav, darps, h) then
              Tallied(grav, statuses, darps, done + {h}, count[st := count[st] + 1], nstatus + 1)
            else
              Tallied(grav, statuses, darps, done + {h}, count[UNKNOWN := count[UNKNOWN] + 1], nstatus)
  {
    VotersMore(grav, darps, done, h);
    forall s | CLEAR <= s <= CRITICAL
      ensures |Reporting(grav, statuses, darps, done + {h}, s, s)|
           == count[s] + One(Votes(grav, darps, h) && StatusOf(statuses, h) == s)
    {
      ReportingMore(grav, statuses, darps, done, h, s);
    }
  }

  /** One more severity. */
  lemma ReportingGrows(grav: Gravity, statuses: map<Host, Status>, darps: map<Host, bool>, among: set<Host>, i: int)
    requires i >= CLEAR
    ensures |Reporting(grav, statuses, darps, among, CLEAR, i)|
         == |Reporting(grav, statuses, darps, among, CLEAR, i - 1)| + |Reporting(grav, statuses, darps, among, i, i)|
  {
    var a, b := Reporting(grav, statuses, darps, among, CLEAR, i - 1), Reporting(grav, statuses, darps, among, i, i);
    assert Reporting(grav, statuses, darps, among, CLEAR, i) == a + b && a !! b;
  }

  /** At least half of the voters, those that are unknown included, report something from clear to `s`. */
  predicate Half(grav: Gravity, statuses: map<Host, Status>, darps: map<Host, bool>, s: int) {
    |Reporting(grav, statuses, darps, darps.Keys, CLEAR, s)| >= (|Voters(grav, darps, darps.Keys)| + 1) / 2
  }

  /**
   * The aggregate: under Up the least and under Dn the greatest severity a voter reports, under Vote and Ietf the
   * first by which half of the voters have reported, and in each case clear if there is none.
   */
  method CalcAggrStatus(grav: Gravity, mystatus: Status, statuses: map<Host, Status>, darps: map<Host, bool>)
    returns (r: Status)
    ensures grav == Self ==> r == mystatus
    ensures grav in {Up, Dn} ==>
              if Reporting(grav, statuses, darps, darps.Keys, CLEAR, CRITICAL) == {} then r == CLEAR
              else && Reporting(grav, statuses, darps, darps.Keys, r, r) != {}
                   && CLEAR <= r <= CRITICAL
                   && forall h :: h in Reporting(grav, statuses, darps, darps.Keys, CLEAR, CRITICAL) ==>
                                    if grav == Up then r <= StatusOf(statuses, h) else StatusOf(statuses, h) <= r
    ensures grav in {Vote, Ietf} ==>
              if Half(grav, statuses, darps, CRITICAL) then
                && CLEAR <= r <= CRITICAL && Half(grav, statuses, darps, r)
                && forall s :: CLEAR <= s < r ==> !Half(grav, statuses, darps, s)
              else r == CLEAR
  {
    var count, nstatus := Tally(grav, statuses, darps);
    match grav {
      case Self =>
        r := mystatus;
      case Up =>
        r := FirstReported(grav, statuses, darps, count, nstatus);
      case Dn =>
        r := LastReported(grav, statuses, darps, count, nstatus);
      case _ =>
        r := FirstHalf(grav, statuses, darps, count, nstatus);
    }
  }

  method Tally(grav: Gravity, statuses: map<Host, Status>, darps: map<Host, bool>) returns (count: seq<nat>, nstatus: nat)
    ensures Tallied(grav, statuses, darps, darps.Keys, count, nstatus)
  {
    count, nstatus := NoCounts, 0;
    var left := darps.Keys;
    assert forall s :: Reporting(grav, statuses, darps, darps.Keys - left, s, s) == {};
    assert Voters(grav, darps, darps.Keys - left) == {};
    while left != {}
      invariant left <= darps.Keys
      invariant Tallied(grav, statuses, darps, darps.Keys - left, count, nstatus)
    {
      var h :| h in left;
      TallyOne(grav, statuses, darps, darps.Keys - left, h, count, nstatus);
      assert darps.Keys - left + {h} == darps.Keys - (left - {h});
      left := left - {h};
      if darps[h] || grav != Ietf {
        count := count[StatusOf(statuses, h) := count[StatusOf(statuses, h)] + 1];
        nstatus := nstatus + 1;
      } else {
        count := count[UNKNOWN := count[UNKNOWN] + 1];
      }
    }
    assert darps.Keys - left == darps.Keys;
    count := count[UNKNOWN := count[UNKNOWN] + count[OVERRIDE] + count[DEPENDS]];
  }

  method FirstReported(grav: Gravity, statuses: map<Host, Status>, darps: map<Host, bool>, count: seq<nat>, nstatus: nat)
    returns (r: Status)
    requires Tallied(grav, statuses, darps, darps.Keys, count, nstatus)
    ensures var all := Reporting(grav, statuses, darps, darps.Keys, CLEAR, CRITICAL);
            if all == {} then r == CLEAR
            else && Reporting(grav, statuses, darps, darps.Keys, r, r) != {} && CLEAR <= r <= CRITICAL
                 && forall h :: h in all ==> r <= StatusOf(statuses, h)
  {
    ghost var all := Reporting(grav, statuses, darps, darps.Keys, CLEAR, CRITICAL);
    var i: int := CLEAR;
    while i <= CRITICAL
      invariant CLEAR <= i <= CRITICAL + 1
      invariant forall h :: h in all ==> StatusOf(statuses, h) >= i
    {
      if count[i] > 0 {
        assert Reporting(grav, statuses, darps, darps.Keys, i, i) <= all;
        return i;
      }
      assert forall h :: h in all && StatusOf(statuses, h) == i ==> h in Reporting(grav, statuses, darps, darps.Keys, i, i);
      i := i + 1;
    }
    r := CLEAR;
  }

  method LastReported(grav: Gravity, statuses: map<Host, Status>, darps: map<Host, bool>, count: seq<nat>, nstatus: nat)
    returns (r: Status)
    requires Tallied(grav, statuses, darps, darps.Keys, count, nstatus)
    ensures var all := Reporting(grav, statuses, darps, darps.Keys, CLEAR, CRITICAL);
            if all == {} then r == CLEAR
            else && Reporting(grav, statuses, darps, darps.Keys, r, r) != {} && CLEAR <= r <= CRITICAL
                 && forall h :: h in all ==> StatusOf(statuses, h) <= r
  {
    ghost var all := Reporting(grav, statuses, darps, darps.Keys, CLEAR, CRITICAL);
    var i: int := CRITICAL;
    while i >= CLEAR
      invariant CLEAR - 1 <= i <= CRITICAL
      invariant forall h :: h in all ==> StatusOf(statuses, h) <= i
    {
      if count[i] > 0 {
        assert Reporting(grav, statuses, darps, darps.Keys, i, i) <= all;
        return i;
      }
      assert forall h :: h in all && StatusOf(statuses, h) == i ==> h in Reporting(grav, statuses, darps, darps.Keys, i, i);
      i := i - 1;
    }
    r := CLEAR;
  }

  method FirstHalf(grav: Gravity, statuses: map<Host, Status>, darps: map<Host, bool>, count: seq<nat>, nstatus: nat)
    returns (r: Status)
    requires Tallied(grav, statuses, darps, darps.Keys, count, nstatus)
    ensures if Half(grav, statuses, darps, CRITICAL) then
              && CLEAR <= r <= CRITICAL && Half(grav, statuses, darps, r)
              && forall s :: CLEAR <= s < r ==> !Half(grav, statuses, darps, s)
            else r == CLEAR
  {
    var lim := (nstatus + 1) / 2;
    var cum := 0;
    var i: int := CLEAR;
    assert Reporting(grav, statuses, darps, darps.Keys, CLEAR, CLEAR - 1) == {};
    while i <= CRITICAL
      invariant CLEAR <= i <= CRITICAL + 1
      invariant cum == |Reporting(grav, statuses, darps, darps.Keys, CLEAR, i - 1)|
      invariant forall s :: CLEAR <= s < i ==> !Half(grav, statuses, darps, s)
    {
      ReportingGrows(grav, statuses, darps, darps.Keys, i);
      cum := cum + count[i];
      if cum >= lim {
        HalfStays(grav, statuses, darps, i);
        return i;
      }
      i := i + 1;
    }
    r := CLEAR;
  }

  /** Half by one severity is half by every worse one. */
  lemma HalfStays(grav: Gravity, statuses: map<Host, Status>, darps: map<Host, bool>, s: int)
    requires CLEAR <= s <= CRITICAL && Half(grav, statuses, darps, s)
    ensures Half(grav, statuses, darps, CRITICAL)
    decreases CRITICAL - s
  {
    if s < CRITICAL {
      ReportingGrows(grav, statuses, darps, darps.Keys, s + 1);
      HalfStays(grav, statuses, darps, s + 1);
    }
  }

  // ---- who votes, and for what ----

  /** All hosts vote, up or down, but for Ietf, where those that are down do not. */
  lemma VotersAre(grav: Gravity, darps: map<Host, bool>)
    ensures grav != Ietf ==> Voters(grav, darps, darps.Keys) == darps.Keys
    ensures grav == Ietf ==> Voters(grav, darps, darps.Keys) == set h | h in darps && darps[h]
  {
  }

  /** A host reports what was last heard from it, if that is a severity: one nobody has heard from reports nothing, nor
      does one that is overridden or depends on something else. */
  lemma ReportsAre(grav: Gravity, statuses: map<Host, Status>, darps: map<Host, bool>, s: int, h: Host)
    requires 1 <= s <= 5
    ensures h in Reporting(grav, statuses, darps, darps.Keys, 1, s) <==>
            h in darps && h in statuses && 1 <= statuses[h] <= s && (grav != Ietf || darps[h])
  {
  }

  /** Half is at least as many as do not report it. */
  lemma HalfMeans(grav: Gravity, statuses: map<Host, Status>, darps: map<Host, bool>, s: int,
                  voters: set<Host>, those: set<Host>)
    requires 1 <= s <= 5
    requires voters == set h | h in darps && (grav != Ietf || darps[h])
    requires those == set h | h in voters && h in statuses && 1 <= statuses[h] <= s
    ensures Half(grav, statuses, darps, s) <==> |those| >= |voters - those|
  {
    assert voters == Voters(grav, darps, darps.Keys);
    assert those == Reporting(grav, statuses, darps, darps.Keys, CLEAR, s);
    Parted(voters, those);
  }

  lemma Parted(all: set<Host>, some: set<Host>)
    requires some <= all
    ensures |all| == |some| + |all - some|
  {
    assert all == some + (all - some);
  }
}
