/** Overrides, and the mark they leave on everything below. */
module Overrides {

  import opened Wrappers

  type Id = nat

  /** Who is below whom. Monitors are made after those above them. */
  ghost predicate Below(children: map<Id, seq<Id>>, size: nat) {
    forall m :: m in children ==> m < size && forall c :: c in children[m] ==> m < c && c in children
  }

  /** Every monitor is below at most one other. */
  ghost predicate OneParent(children: map<Id, seq<Id>>) {
    forall m, n, c :: m in children && n in children && c in children[m] && c in children[n] ==> m == n
  }

  // ---- what is done ----

  /** Mark, or clear the mark of, everything below a monitor. */
  function Down(children: map<Id, seq<Id>>, size: nat, ov: set<Id>, marks: set<Id>, m: Id): set<Id>
    requires Below(children, size) && m in children
    decreases size - m, |children[m]| + 2
  {
    DownAll(children, size, ov, marks, m, m in ov || m in marks, children[m])
  }

  function DownAll(children: map<Id, seq<Id>>, size: nat, ov: set<Id>, marks: set<Id>, m: Id, v: bool, cs: seq<Id>): set<Id>
    requires Below(children, size) && m in children && forall c :: c in cs ==> c in children[m]
    decreases size - m, |cs| + 1
  {
    if cs == [] then marks
    else
      var p := DownAll(children, size, ov, marks, m, v, cs[..|cs| - 1]);
      var c := cs[|cs| - 1];
      Down(children, size, ov, if v then p + {c} else p - {c}, c)
  }

  // ---- what it means ----

  /** Some monitor above has an override. */
  ghost predicate UnderOverride(children: map<Id, seq<Id>>, size: nat, ov: set<Id>, n: Id)
    requires Below(children, size)
    decreases n
  {
    exists m :: m in children && n in children[m] && (m in ov || UnderOverride(children, size, ov, m))
  }

  /** A chain of monitors, each below the one before. */
  ghost predicate Chain(children: map<Id, seq<Id>>, p: seq<Id>) {
    forall i :: 0 <= i < |p| - 1 ==> p[i] in children && p[i + 1] in children[p[i]]
  }

  lemma {:induction false} UnderHasChain(children: map<Id, seq<Id>>, size: nat, ov: set<Id>, n: Id) returns (p: seq<Id>)
    requires Below(children, size) && UnderOverride(children, size, ov, n)
    ensures |p| >= 2 && Chain(children, p) && p[0] in ov && p[|p| - 1] == n
    decreases n
  {
    var m :| m in children && n in children[m] && (m in ov || UnderOverride(children, size, ov, m));
    if m in ov {
      p := [m, n];
    } else {
      p := UnderHasChain(children, size, ov, m);
      p := p + [n];
    }
  }

  lemma {:induction false} ChainIsUnder(children: map<Id, seq<Id>>, size: nat, ov: set<Id>, p: seq<Id>)
    requires Below(children, size)
    requires |p| >= 2 && Chain(children, p) && p[0] in ov
    ensures UnderOverride(children, size, ov, p[|p| - 1])
  {
    var m := p[|p| - 2];
    assert m in children && p[|p| - 1] in children[m];
    if |p| > 2 {
      ChainIsUnder(children, size, ov, p[..|p| - 1]);
    }
  }

  /** That is: a chain of at least one step leads down to it from an overridden monitor. */
  lemma UnderIsChain(children: map<Id, seq<Id>>, size: nat, ov: set<Id>, n: Id)
    requires Below(children, size)
    ensures UnderOverride(children, size, ov, n) <==>
            exists p: seq<Id> :: |p| >= 2 && Chain(children, p) && p[0] in ov && p[|p| - 1] == n
  {
    if UnderOverride(children, size, ov, n) {
      var p := UnderHasChain(children, size, ov, n);
    }
    if p: seq<Id> :| |p| >= 2 && Chain(children, p) && p[0] in ov && p[|p| - 1] == n {
      ChainIsUnder(children, size, ov, p);
    }
  }

  /** A mark says the truth about a monitor. */
  ghost predicate Right(children: map<Id, seq<Id>>, size: nat, ov: set<Id>, marks: set<Id>, n: Id)
    requires Below(children, size)
  {
    n in marks <==> UnderOverride(children, size, ov, n)
  }

  ghost predicate Reaches(children: map<Id, seq<Id>>, size: nat, m: Id, n: Id)
    requires Below(children, size)
    decreases n
  {
    m == n || exists k :: k in children && n in children[k] && Reaches(children, size, m, k)
  }

  lemma {:induction false} ReachesOn(children: map<Id, seq<Id>>, size: nat, m: Id, k: Id, n: Id)
    requires Below(children, size) && Reaches(children, size, m, k) && Reaches(children, size, k, n)
    ensures Reaches(children, size, m, n)
    decreases n
  {
    if k != n {
      var p :| p in children && n in children[p] && Reaches(children, size, k, p);
      ReachesOn(children, size, m, k, p);
    }
  }

  lemma {:induction false} FirstStep(children: map<Id, seq<Id>>, size: nat, m: Id, n: Id)
    requires Below(children, size) && Reaches(children, size, m, n) && m != n && m in children
    ensures exists c :: c in children[m] && Reaches(children, size, c, n)
    decreases n
  {
    var k :| k in children && n in children[k] && Reaches(children, size, m, k);
    if k == m {
      assert Reaches(children, size, n, n);
    } else {
      FirstStep(children, size, m, k);
      var c :| c in children[m] && Reaches(children, size, c, k);
      assert Reaches(children, size, c, n);
    }
  }

  /** Nothing above an overridden monitor, or beside it, is under its override. */
  lemma {:induction false} UnderIsReached(children: map<Id, seq<Id>>, size: nat, o: Id, n: Id)
    requires Below(children, size) && UnderOverride(children, size, {o}, n)
    ensures Reaches(children, size, o, n)
    decreases n
  {
    var m :| m in children && n in children[m] && (m in {o} || UnderOverride(children, size, {o}, m));
    if m == o {
      assert Reaches(children, size, o, o);
    } else {
      UnderIsReached(children, size, o, m);
    }
  }

  lemma {:induction false} UnderGoesDown(children: map<Id, seq<Id>>, size: nat, ov: set<Id>, m: Id, n: Id)
    requires Below(children, size) && Reaches(children, size, m, n) && (m in ov || UnderOverride(children, size, ov, m))
    ensures n in ov || UnderOverride(children, size, ov, n)
    ensures m != n ==> UnderOverride(children, size, ov, n)
    decreases n
  {
    if m != n {
      var k :| k in children && n in children[k] && Reaches(children, size, m, k);
      UnderGoesDown(children, size, ov, m, k);
    }
  }

  // ---- who writes a mark last ----

  /** Going down from `q`, the last to write the mark of `c` is `q` itself: no later child leads to `c`. */
  ghost predicate Closes(children: map<Id, seq<Id>>, size: nat, q: Id, c: Id)
    requires Below(children, size)
  {
    q in children && exists k :: 0 <= k < |children[q]| && children[q][k] == c && Leaves(children, size, children[q][k + 1..], c)
  }

  /** None of these monitors leads to `n`. */
  ghost predicate Leaves(children: map<Id, seq<Id>>, size: nat, cs: seq<Id>, n: Id)
    requires Below(children, size)
  {
    forall c :: c in cs ==> !Reaches(children, size, c, n)
  }

  /** Every monitor has at most one monitor that writes its mark last. */
  ghost predicate OneCloser(children: map<Id, seq<Id>>, size: nat)
    requires Below(children, size)
  {
    forall q, r, c :: Closes(children, size, q, c) && Closes(children, size, r, c) ==> q == r
  }

  lemma TreesHaveOneCloser(children: map<Id, seq<Id>>, size: nat)
    requires Below(children, size) && OneParent(children)
    ensures OneCloser(children, size)
  {
    forall q, r, c | Closes(children, size, q, c) && Closes(children, size, r, c) ensures q == r {
      assert c in children[q] && c in children[r];
    }
  }

  /** The last child that leads to `n`. */
  lemma {:induction false} LastLeading(children: map<Id, seq<Id>>, size: nat, cs: seq<Id>, n: Id) returns (k: nat)
    requires Below(children, size) && !Leaves(children, size, cs, n)
    ensures k < |cs| && Reaches(children, size, cs[k], n) && Leaves(children, size, cs[k + 1..], n)
  {
    k := |cs| - 1;
    if !Reaches(children, size, cs[k], n) {
      k := LastLeading(children, size, cs[..k], n);
      assert cs[k + 1..] == cs[..|cs| - 1][k + 1..] + [cs[|cs| - 1]];
    }
  }

  /** From every monitor above `c` the way down leads to one that writes its mark last. */
  lemma {:induction false} SomeCloser(children: map<Id, seq<Id>>, size: nat, m: Id, c: Id) returns (q: Id)
    requires Below(children, size) && m in children && m != c && Reaches(children, size, m, c)
    ensures Closes(children, size, q, c) && Reaches(children, size, m, q)
    decreases size - m
  {
    FirstStep(children, size, m, c);
    var k := LastLeading(children, size, children[m], c);
    var x := children[m][k];
    assert x in children[m];
    if x == c {
      q := m;
    } else {
      q := SomeCloser(children, size, x, c);
      assert Reaches(children, size, m, m);
      assert Reaches(children, size, m, x);
      ReachesOn(children, size, m, x, q);
    }
  }

  /** With one closer, what is above a monitor matters only through that. */
  lemma CloserDecides(children: map<Id, seq<Id>>, size: nat, ov: set<Id>, q: Id, c: Id)
    requires Below(children, size) && OneCloser(children, size) && Closes(children, size, q, c)
    ensures UnderOverride(children, size, ov, c) <==> q in ov || UnderOverride(children, size, ov, q)
  {
    if UnderOverride(children, size, ov, c) {
      var m :| m in children && c in children[m] && (m in ov || UnderOverride(children, size, ov, m));
      assert Reaches(children, size, m, m);
      assert Reaches(children, size, m, c);
      var r := SomeCloser(children, size, m, c);
      UnderGoesDown(children, size, ov, m, q);
    }
  }

  // ---- going down ----

  /** Only what is below is written. */
  lemma {:induction false} DownFrame(children: map<Id, seq<Id>>, size: nat, ov: set<Id>, marks: set<Id>, m: Id, n: Id)
    requires Below(children, size) && m in children && (n == m || !Reaches(children, size, m, n))
    ensures n in Down(children, size, ov, marks, m) <==> n in marks
    decreases size - m, |children[m]| + 2
  {
    forall c | c in children[m] ensures !Reaches(children, size, c, n) {
      assert Reaches(children, size, m, m);
      assert Reaches(children, size, m, c);
      if Reaches(children, size, c, n) {
        ReachesUp(children, size, c, n);
        ReachesOn(children, size, m, c, n);
      }
    }
    DownAllFrame(children, size, ov, marks, m, m in ov || m in marks, children[m], n);
  }

  lemma {:induction false} DownAllFrame(children: map<Id, seq<Id>>, size: nat, ov: set<Id>, marks: set<Id>, m: Id,
                                        v: bool, cs: seq<Id>, n: Id)
    requires Below(children, size) && m in children && (forall c :: c in cs ==> c in children[m])
    requires Leaves(children, size, cs, n)
    ensures n in DownAll(children, size, ov, marks, m, v, cs) <==> n in marks
    decreases size - m, |cs| + 1
  {
    if cs != [] {
      var c := cs[|cs| - 1];
      DownAllFrame(children, size, ov, marks, m, v, cs[..|cs| - 1], n);
      var p := DownAll(children, size, ov, marks, m, v, cs[..|cs| - 1]);
      assert c in cs && Reaches(children, size, c, c);
      DownFrame(children, size, ov, if v then p + {c} else p - {c}, c, n);
    }
  }

  /** What the closer writes stays. */
  lemma {:induction false} CloserWrites(children: map<Id, seq<Id>>, size: nat, ov: set<Id>, marks: set<Id>, m: Id,
                                        v: bool, cs: seq<Id>, k: nat)
    requires Below(children, size) && m in children && (forall c :: c in cs ==> c in children[m])
    requires k < |cs| && Leaves(children, size, cs[k + 1..], cs[k])
    ensures cs[k] in DownAll(children, size, ov, marks, m, v, cs) <==> v
    decreases |cs|
  {
    var j := |cs| - 1;
    var c := cs[j];
    var p := DownAll(children, size, ov, marks, m, v, cs[..j]);
    if k < j {
      assert cs[k + 1..] == cs[..j][k + 1..] + [c];
      CloserWrites(children, size, ov, marks, m, v, cs[..j], k);
      assert c in cs[k + 1..] && Reaches(children, size, c, c);
    }
    DownFrame(children, size, ov, if v then p + {c} else p - {c}, c, cs[k]);
  }

  /** Going down from a monitor whose own mark is right puts right all marks below it, and touches no other. */
  lemma {:induction false} DownRights(children: map<Id, seq<Id>>, size: nat, ov: set<Id>, marks: set<Id>, m: Id)
    requires Below(children, size) && OneCloser(children, size) && m in children
    requires Right(children, size, ov, marks, m)
    ensures var r := Down(children, size, ov, marks, m);
            && (forall n :: Right(children, size, ov, marks, n) ==> Right(children, size, ov, r, n))
            && (forall n :: Reaches(children, size, m, n) ==> Right(children, size, ov, r, n))
    decreases size - m, |children[m]| + 2
  {
    var r := Down(children, size, ov, marks, m);
    var cs := children[m];
    assert cs[..|cs|] == cs;
    DownAllRights(children, size, ov, marks, m, |cs|);
    forall n ensures if n != m && Reaches(children, size, m, n) then Right(children, size, ov, r, n)
                     else n in r <==> n in marks
    {
      if n != m && Reaches(children, size, m, n) {
        FirstStep(children, size, m, n);
        assert Written(children, size, cs, |cs|, n);
      } else {
        DownFrame(children, size, ov, marks, m, n);
      }
    }
  }

  /** Of the first `i` children some lead to `n`, and no other does. */
  ghost predicate Written(children: map<Id, seq<Id>>, size: nat, cs: seq<Id>, i: nat, n: Id)
    requires Below(children, size) && i <= |cs|
  {
    !Leaves(children, size, cs[..i], n) && Leaves(children, size, cs[i..], n)
  }

  lemma {:induction false} DownAllRights(children: map<Id, seq<Id>>, size: nat, ov: set<Id>, marks: set<Id>, m: Id, i: nat)
    requires Below(children, size) && OneCloser(children, size) && m in children && i <= |children[m]|
    requires Right(children, size, ov, marks, m)
    ensures var r := DownAll(children, size, ov, marks, m, m in ov || m in marks, children[m][..i]);
            forall n :: Written(children, size, children[m], i, n) ==> Right(children, size, ov, r, n)
    decreases size - m, i + 1
  {
    var cs, v := children[m], m in ov || m in marks;
    if i > 0 {
      var c := cs[i - 1];
      assert c in cs && cs[..i][..i - 1] == cs[..i - 1];
      DownAllRights(children, size, ov, marks, m, i - 1);
      var p := DownAll(children, size, ov, marks, m, v, cs[..i - 1]);
      var q := if v then p + {c} else p - {c};
      forall n | Written(children, size, cs, i, n) ensures Right(children, size, ov, Down(children, size, ov, q, c), n) {
        if Reaches(children, size, c, n) {
          StillLeaves(children, size, cs[i..], c, n);
          assert Closes(children, size, m, c);
          CloserDecides(children, size, ov, m, c);
          DownRights(children, size, ov, q, c);
        } else {
          WrittenBefore(children, size, cs, i, n);
          assert Reaches(children, size, c, c);
          DownFrame(children, size, ov, q, c, n);
        }
      }
    }
  }

  lemma StillLeaves(children: map<Id, seq<Id>>, size: nat, cs: seq<Id>, c: Id, n: Id)
    requires Below(children, size) && Reaches(children, size, c, n) && Leaves(children, size, cs, n)
    ensures Leaves(children, size, cs, c)
  {
    forall x | x in cs ensures !Reaches(children, size, x, c) {
      if Reaches(children, size, x, c) {
        ReachesOn(children, size, x, c, n);
      }
    }
  }

  lemma WrittenBefore(children: map<Id, seq<Id>>, size: nat, cs: seq<Id>, i: nat, n: Id)
    requires Below(children, size) && 0 < i <= |cs| && Written(children, size, cs, i, n)
    requires !Reaches(children, size, cs[i - 1], n)
    ensures Written(children, size, cs, i - 1, n)
  {
    assert cs[..i] == cs[..i - 1] + [cs[i - 1]] && cs[i - 1..] == [cs[i - 1]] + cs[i..];
  }

  /** Setting or removing one override changes the truth only strictly below it. */
  lemma {:induction false} OnlyBelow(children: map<Id, seq<Id>>, size: nat, ov: set<Id>, ov': set<Id>, m: Id, n: Id)
    requires Below(children, size) && forall k :: k != m ==> (k in ov <==> k in ov')
    requires n == m || !Reaches(children, size, m, n)
    ensures UnderOverride(children, size, ov, n) <==> UnderOverride(children, size, ov', n)
    decreases n
  {
    forall k | k in children && n in children[k]
      ensures k != m && (UnderOverride(children, size, ov, k) <==> UnderOverride(children, size, ov', k))
    {
      if Reaches(children, size, m, k) {
        ReachesUp(children, size, m, k);
        assert Reaches(children, size, m, n);
      }
      assert Reaches(children, size, m, m);
      OnlyBelow(children, size, ov, ov', m, k);
    }
  }

  lemma {:induction false} ReachesUp(children: map<Id, seq<Id>>, size: nat, m: Id, n: Id)
    requires Below(children, size) && Reaches(children, size, m, n)
    ensures m <= n
    decreases n
  {
    if m != n {
      var k :| k in children && n in children[k] && Reaches(children, size, m, k);
      ReachesUp(children, size, m, k);
    }
  }

  ghost predicate AllRight(children: map<Id, seq<Id>>, size: nat, ov: set<Id>, marks: set<Id>)
    requires Below(children, size)
  {
    forall n :: Right(children, size, ov, marks, n)
  }

  /** Setting or removing one override, and going down from it, leaves every mark right. */
  lemma ChangeKeeps(children: map<Id, seq<Id>>, size: nat, ov: set<Id>, ov': set<Id>, marks: set<Id>, m: Id)
    requires Below(children, size) && OneCloser(children, size) && m in children
    requires AllRight(children, size, ov, marks) && forall k :: k != m ==> (k in ov <==> k in ov')
    ensures AllRight(children, size, ov', Down(children, size, ov', marks, m))
  {
    forall n | n == m || !Reaches(children, size, m, n) ensures Right(children, size, ov', marks, n) {
      OnlyBelow(children, size, ov, ov', m, n);
      assert Right(children, size, ov, marks, n);
    }
    DownRights(children, size, ov', marks, m);
  }

  class Monitors {
    const children: map<Id, seq<Id>>
    const size: nat
    var override: set<Id>    // the monitors with an override
    var ancInOv: set<Id>     // the monitors marked as below one

    constructor (children: map<Id, seq<Id>>, size: nat)
      requires Below(children, size)
      ensures this.children == children && this.size == size && override == {}
      ensures AllRight(children, size, override, ancInOv)
    {
      this.children, this.size, override, ancInOv := children, size, {}, {};
      new;
      forall n ensures Right(children, size, override, ancInOv, n) {
        NoneUnder(children, size, n);
      }
    }

    method SetOverride(m: Id)
      requires Below(children, size) && m in children
      modifies this
      ensures override == old(override) + {m}
      ensures ancInOv == Down(children, size, override, old(ancInOv), m)
      ensures OneCloser(children, size) && old(AllRight(children, size, override, ancInOv)) ==>
                AllRight(children, size, override, ancInOv)
    {
      ghost var was, marks := override, ancInOv;
      override := override + {m};
      OvPropDown(m);
      if OneCloser(children, size) && AllRight(children, size, was, marks) {
        ChangeKeeps(children, size, was, override, marks, m);
      }
    }

    method DelOverride(m: Id)
      requires Below(children, size) && m in children
      modifies this
      ensures override == old(override) - {m}
      ensures ancInOv == Down(children, size, override, old(ancInOv), m)
      ensures OneCloser(children, size) && old(AllRight(children, size, override, ancInOv)) ==>
                AllRight(children, size, override, ancInOv)
    {
      ghost var was, marks := override, ancInOv;
      override := override - {m};
      OvPropDown(m);
      if OneCloser(children, size) && AllRight(children, size, was, marks) {
        ChangeKeeps(children, size, was, override, marks, m);
      }
    }

    /** Set the mark of everything below a monitor. */
    method OvPropDown(m: Id)
      requires Below(children, size) && m in children
      modifies this`ancInOv
      ensures ancInOv == Down(children, size, override, old(ancInOv), m)
      decreases size - m
    {
      var v := false;
      if m in override || m in ancInOv {
        v := true;
      }
      var childs := children[m];
      for i := 0 to |childs|
        invariant ancInOv == DownAll(children, size, override, old(ancInOv), m, v, childs[..i])
      {
        var c := childs[i];
        assert c in children[m];
        assert childs[..i + 1][..i] == childs[..i];
        if v {
          ancInOv := ancInOv + {c};
        } else {
          ancInOv := ancInOv - {c};
        }
        OvPropDown(c);
      }
      assert childs[..|childs|] == childs;
    }
  }

  lemma {:induction false} NoneUnder(children: map<Id, seq<Id>>, size: nat, n: Id)
    requires Below(children, size)
    ensures !UnderOverride(children, size, {}, n)
    decreases n
  {
    forall m | m in children && n in children[m] ensures !UnderOverride(children, size, {}, m) {
      NoneUnder(children, size, m);
    }
  }

  // ---- whole runs ----

  datatype Change = Set(m: Id) | Del(m: Id)

  /** The overrides and the marks after some changes. */
  function Run(children: map<Id, seq<Id>>, size: nat, cs: seq<Change>): (set<Id>, set<Id>)
    requires Below(children, size) && forall c :: c in cs ==> c.m in children
  {
    if cs == [] then ({}, {})
    else
      var (ov, marks) := Run(children, size, cs[..|cs| - 1]);
      var c := cs[|cs| - 1];
      var ov' := if c.Set? then ov + {c.m} else ov - {c.m};
      (ov', Down(children, size, ov', marks, c.m))
  }

  /** With one closer each, after any changes, a monitor is marked exactly when one above it has an override. */
  lemma {:induction false} MarksAreRight(children: map<Id, seq<Id>>, size: nat, cs: seq<Change>)
    requires Below(children, size) && OneCloser(children, size) && forall c :: c in cs ==> c.m in children
    ensures var (ov, marks) := Run(children, size, cs); AllRight(children, size, ov, marks)
  {
    if cs == [] {
      forall n ensures Right(children, size, {}, {}, n) {
        NoneUnder(children, size, n);
      }
    } else {
      MarksAreRight(children, size, cs[..|cs| - 1]);
      var (ov, marks) := Run(children, size, cs[..|cs| - 1]);
      var c := cs[|cs| - 1];
      ChangeKeeps(children, size, ov, if c.Set? then ov + {c.m} else ov - {c.m}, marks, c.m);
    }
  }

  ghost predicate AlwaysRight(children: map<Id, seq<Id>>, size: nat)
    requires Below(children, size)
  {
    forall cs: seq<Change> :: (forall c :: c in cs ==> c.m in children) ==> RightAfter(children, size, cs)
  }

  ghost predicate RightAfter(children: map<Id, seq<Id>>, size: nat, cs: seq<Change>)
    requires Below(children, size) && forall c :: c in cs ==> c.m in children
  {
    var (ov, marks) := Run(children, size, cs);
    AllRight(children, size, ov, marks)
  }

  /** Two closers of one monitor: overriding the first, and then the second for a while, is enough ... */
  lemma WrongAfter(children: map<Id, seq<Id>>, size: nat, o: Id, m: Id, c: Id)
    requires Below(children, size) && Closes(children, size, o, c) && Closes(children, size, m, c) && o != m
    requires m !in Run(children, size, [Set(o), Set(m)]).1
    ensures !RightAfter(children, size, [Set(o), Set(m), Del(m)])
  {
    var before, all := [Set(o), Set(m)], [Set(o), Set(m), Del(m)];
    SetTwo(children, size, o, m);
    assert all[..2] == before;
    var (ov, marks) := Run(children, size, before);
    assert ov - {m} == {o};
    var k :| 0 <= k < |children[m]| && children[m][k] == c && Leaves(children, size, children[m][k + 1..], c);
    CloserWrites(children, size, {o}, marks, m, false, children[m], k);
    assert c in children[o];
    assert UnderOverride(children, size, {o}, c);
    assert !Right(children, size, {o}, Run(children, size, all).1, c);
  }

  lemma SetTwo(children: map<Id, seq<Id>>, size: nat, o: Id, m: Id)
    requires Below(children, size) && o in children && m in children
    ensures Run(children, size, [Set(o)]) == ({o}, Down(children, size, {o}, {}, o))
    ensures Run(children, size, [Set(o), Set(m)]) == ({o, m}, Down(children, size, {o, m}, Down(children, size, {o}, {}, o), m))
  {
    assert [Set(o), Set(m)][..1] == [Set(o)] && [Set(o)][..0] == [];
    assert Run(children, size, []) == ({}, {}) && {} + {o} == {o} && {o} + {m} == {o, m};
  }

  /** ... when the second is not below the first. */
  lemma ClosersGoWrong(children: map<Id, seq<Id>>, size: nat, o: Id, m: Id, c: Id)
    requires Below(children, size) && Closes(children, size, o, c) && Closes(children, size, m, c)
    requires o != m && !Reaches(children, size, o, m)
    ensures !RightAfter(children, size, [Set(o), Set(m), Del(m)])
  {
    SetTwo(children, size, o, m);
    DownFrame(children, size, {o}, {}, o, m);
    DownFrame(children, size, {o, m}, Down(children, size, {o}, {}, o), m, m);
    WrongAfter(children, size, o, m, c);
  }

  /** The marks stay right over every run exactly when every monitor has one closer; trees are among those graphs. */
  lemma RightExactlyWhen(children: map<Id, seq<Id>>, size: nat)
    requires Below(children, size)
    ensures AlwaysRight(children, size) <==> OneCloser(children, size)
  {
    if OneCloser(children, size) {
      forall cs: seq<Change> | forall c :: c in cs ==> c.m in children ensures RightAfter(children, size, cs) {
        MarksAreRight(children, size, cs);
      }
    } else {
      var q, r, c :| Closes(children, size, q, c) && Closes(children, size, r, c) && q != r;
      if Reaches(children, size, q, r) {
        ReachesUp(children, size, q, r);
        if Reaches(children, size, r, q) {
          ReachesUp(children, size, r, q);
        }
        ClosersGoWrong(children, size, r, q, c);
      } else {
        ClosersGoWrong(children, size, q, r, c);
      }
    }
  }

  /** With two monitors above and neither above the other, removing one override takes a mark that is still due. */
  lemma TwoParentsGoWrong()
    ensures var children: map<Id, seq<Id>> := map[0 := [2], 1 := [2], 2 := []];
            Below(children, 3) && !RightAfter(children, 3, [Set(0), Set(1), Del(1)])
  {
    var children: map<Id, seq<Id>> := map[0 := [2], 1 := [2], 2 := []];
    assert children[0][0] == 2 && children[1][0] == 2 && children[0][1..] == [] && children[1][1..] == [];
    assert Closes(children, 3, 0, 2) && Closes(children, 3, 1, 2);
    assert forall k: Id :: k in children ==> 1 !in children[k];
    ClosersGoWrong(children, 3, 0, 1, 2);
  }

  // ---- the graphs that are built ----

  /** Monitors made one after another: the k-th goes to the children of the one it was made under, if any. */
  function Built(under: seq<Option<Id>>): (children: map<Id, seq<Id>>)
    requires forall k :: 0 <= k < |under| && under[k].Some? ==> under[k].value < k
    ensures forall m: Id :: m in children <==> m < |under|
  {
    if under == [] then map[]
    else
      var m := |under| - 1;
      var was := Built(under[..m]);
      (if under[m].Some? then was[under[m].value := was[under[m].value] + [m]] else was)[m := []]
  }

  /** Such graphs are trees, so their marks are always right. */
  lemma {:induction false} BuiltIsTree(under: seq<Option<Id>>)
    requires forall k :: 0 <= k < |under| && under[k].Some? ==> under[k].value < k
    ensures Below(Built(under), |under|) && OneParent(Built(under))
    ensures AlwaysRight(Built(under), |under|)
  {
    BuiltFrom(under);
    TreesHaveOneCloser(Built(under), |under|);
    RightExactlyWhen(Built(under), |under|);
  }

  lemma BuiltFrom(under: seq<Option<Id>>)
    requires forall k :: 0 <= k < |under| && under[k].Some? ==> under[k].value < k
    ensures Below(Built(under), |under|) && OneParent(Built(under))
  {
    forall m: Id, c: Id | m in Built(under) && c in Built(under)[m] ensures m < c < |under| && under[c] == Some(m) {
      BuiltUnder(under, m, c);
    }
  }

  lemma {:induction false} BuiltUnder(under: seq<Option<Id>>, m: Id, c: Id)
    requires forall k :: 0 <= k < |under| && under[k].Some? ==> under[k].value < k
    requires m in Built(under) && c in Built(under)[m]
    ensures m < c < |under| && under[c] == Some(m)
  {
    var n := |under| - 1;
    var was := Built(under[..n]);
    if m in was && c in was[m] {
      BuiltUnder(under[..n], m, c);
    }
  }
}
