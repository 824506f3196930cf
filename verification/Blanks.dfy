/** Taking blanks off the ends of a text; what a blank is, each alphabet says. */
module Blanks {
  function TrimLeft<T>(space: T -> bool, s: seq<T>): (r: seq<T>)
    ensures |r| <= |s| && (r != [] ==> !space(r[0]))
  {
    if s != [] && space(s[0]) then TrimLeft(space, s[1..]) else s
  }

  function TrimRight<T>(space: T -> bool, s: seq<T>): (r: seq<T>)
    ensures |r| <= |s|
  {
    if s != [] && space(s[|s| - 1]) then TrimRight(space, s[..|s| - 1]) else s
  }

  function Trim<T>(space: T -> bool, s: seq<T>): (r: seq<T>)
    ensures |r| <= |s|
  {
    TrimRight(space, TrimLeft(space, s))
  }

  ghost predicate AllBlank<T>(space: T -> bool, s: seq<T>) {
    forall i :: 0 <= i < |s| ==> space(s[i])
  }

  /** Nothing to trim. */
  ghost predicate Tidy<T>(space: T -> bool, s: seq<T>) {
    s == [] || (!space(s[0]) && !space(s[|s| - 1]))
  }

  lemma {:induction false} TrimLeftOver<T>(space: T -> bool, a: seq<T>, x: seq<T>)
    requires AllBlank(space, a) && (x == [] || !space(x[0]))
    ensures TrimLeft(space, a + x) == x
  {
    if a == [] {
      assert a + x == x;
    } else {
      assert (a + x)[1..] == a[1..] + x;
      TrimLeftOver(space, a[1..], x);
    }
  }

  lemma {:induction false} TrimRightOver<T>(space: T -> bool, x: seq<T>, b: seq<T>)
    requires AllBlank(space, b) && (x == [] || !space(x[|x| - 1]))
    ensures TrimRight(space, x + b) == x
  {
    if b == [] {
      assert x + b == x;
    } else {
      assert (x + b)[..|x + b| - 1] == x + b[..|b| - 1];
      TrimRightOver(space, x, b[..|b| - 1]);
    }
  }

  /** Trimming takes off the blanks around a text that has none at its ends. */
  lemma TrimAround<T>(space: T -> bool, a: seq<T>, x: seq<T>, b: seq<T>)
    requires AllBlank(space, a) && AllBlank(space, b) && Tidy(space, x)
    ensures Trim(space, a + x + b) == x
  {
    if x == [] {
      assert a + x + b == (a + b) + [];
      TrimLeftOver(space, a + b, []);
    } else {
      assert a + x + b == a + (x + b);
      TrimLeftOver(space, a, x + b);
      TrimRightOver(space, x, b);
    }
  }
}
