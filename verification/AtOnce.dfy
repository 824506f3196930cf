/** Overrides set and removed at once: each call goes down one lock at a time, and others go down meanwhile. */
module AtOnce {
  import opened Overrides
  import opened Wrappers

  // ---- the state and its steps ----

  /** What a call has yet to do: to write a mark, or to look at a monitor and go on to its children. */
  datatype Item = Write(n: Id, v: bool) | Enter(n: Id)

  /** A call that sets, or removes, the override of a monitor. */
  datatype Call = Call(root: Id, sets: bool, todo: seq<Item>)

  datatype State = State(ov: set<Id>, marks: set<Id>, calls: seq<Call>)

  /** Some call begins: it changes the override. Or some call under way takes its next step. */
  datatype Event = Begin(c: Change) | Step(i: nat)

  /** What was seen at a monitor is written to its children, one after the other, and each is looked at in turn. */
  function Spread(cs: seq<Id>, v: bool): seq<Item> {
    if cs == [] then [] else [Write(cs[0], v), Enter(cs[0])] + Spread(cs[1..], v)
  }

  function Mark(marks: set<Id>, n: Id, v: bool): set<Id> {
    if v then marks + {n} else marks - {n}
  }

  predicate Enabled(children: map<Id, seq<Id>>, st: State, e: Event) {
    match e
    case Begin(c) => c.m in children
    case Step(i) =>
      && i < |st.calls| && st.calls[i].todo != []
      && (st.calls[i].todo[0].Enter? ==> st.calls[i].todo[0].n in children)
  }

  function Next(children: map<Id, seq<Id>>, st: State, e: Event): State
    requires Enabled(children, st, e)
  {
    match e
    case Begin(Set(m)) => State(st.ov + {m}, st.marks, st.calls + [Call(m, true, [Enter(m)])])
    case Begin(Del(m)) => State(st.ov - {m}, st.marks, st.calls + [Call(m, false, [Enter(m)])])
    case Step(i) =>
      var c := st.calls[i];
      match c.todo[0]
      case Write(n, v) => State(st.ov, Mark(st.marks, n, v), st.calls[i := c.(todo := c.todo[1..])])
      case Enter(n) =>
        var v := n in st.ov || n in st.marks;
        st.(calls := st.calls[i := c.(todo := Spread(children[n], v) + c.todo[1..])])
  }

  const START := State({}, {}, [])

  /** Where some steps lead, if each can be taken. */
  function After(children: map<Id, seq<Id>>, st: State, es: seq<Event>): Option<State> {
    if es == [] then Some(st)
    else
      match After(children, st, es[..|es| - 1])
      case None => None
      case Some(m) => if Enabled(children, m, es[|es| - 1]) then Some(Next(children, m, es[|es| - 1])) else None
  }

  ghost predicate Runs(children: map<Id, seq<Id>>, st: State, es: seq<Event>, st': State) {
    After(children, st, es) == Some(st')
  }

  /** No call is under way. */
  predicate Quiet(st: State) {
    forall i :: 0 <= i < |st.calls| ==> st.calls[i].todo == []
  }

  /** Only some monitors are overridden, and only from some is an override removed. */
  predicate Allowed(sets: set<Id>, dels: set<Id>, es: seq<Event>) {
    forall k :: 0 <= k < |es| && es[k].Begin? ==> if es[k].c.Set? then es[k].c.m in sets else es[k].c.m in dels
  }

  // ---- the condition ----

  ghost predicate Above(children: map<Id, seq<Id>>, size: nat, m: Id, n: Id)
    requires Below(children, size)
  {
    m in children && n in children && Reaches(children, size, m, n) && children[n] != []
  }

  /** One that is overridden and one from which an override is removed, one above the other or the same, and something
      below both. */
  ghost predicate Clash(children: map<Id, seq<Id>>, size: nat, sets: set<Id>, dels: set<Id>)
    requires Below(children, size)
  {
    exists s, d :: s in sets && d in dels && (Above(children, size, s, d) || Above(children, size, d, s))
  }

  /** Two monitors above one are one above the other. */
  lemma {:induction false} InLine(children: map<Id, seq<Id>>, size: nat, a: Id, b: Id, n: Id)
    requires Below(children, size) && OneParent(children)
    requires Reaches(children, size, a, n) && Reaches(children, size, b, n)
    ensures Reaches(children, size, a, b) || Reaches(children, size, b, a)
    decreases n
  {
    if a != n && b != n {
      var j :| j in children && n in children[j] && Reaches(children, size, a, j);
      var k :| k in children && n in children[k] && Reaches(children, size, b, k);
      assert j == k;
      InLine(children, size, a, b, j);
    }
  }

  /** What is above a child is the child or above its parent. */
  lemma AboveParent(children: map<Id, seq<Id>>, size: nat, s: Id, p: Id, c: Id)
    requires Below(children, size) && OneParent(children) && p in children && c in children[p]
    requires s != c && Reaches(children, size, s, c)
    ensures Reaches(children, size, s, p)
  {
    var k :| k in children && c in children[k] && Reaches(children, size, s, k);
    assert k == p;
  }

  lemma HasChild(children: map<Id, seq<Id>>, size: nat, m: Id, n: Id)
    requires Below(children, size) && m in children && n in children && Reaches(children, size, m, n) && children[n] != []
    ensures children[m] != []
  {
    if m != n {
      FirstStep(children, size, m, n);
    }
  }

  // ---- without a clash ----

  /** No monitor that may be overridden is above this one. */
  ghost predicate Cold(children: map<Id, seq<Id>>, size: nat, sets: set<Id>, n: Id)
    requires Below(children, size)
  {
    forall s :: s in sets && s != n ==> !Reaches(children, size, s, n)
  }

  /** What is written to a monitor is due to it, and where nothing is, nothing ever will be. */
  ghost predicate Fair(children: map<Id, seq<Id>>, size: nat, sets: set<Id>, ov: set<Id>, root: Id, it: Item)
    requires Below(children, size)
  {
    && it.n in children && Reaches(children, size, root, it.n)
    && (it.Write? ==>
          && it.n != root
          && (if it.v then UnderOverride(children, size, ov, it.n) else Cold(children, size, sets, it.n)))
  }

  ghost predicate AllFair(children: map<Id, seq<Id>>, size: nat, sets: set<Id>, ov: set<Id>, root: Id, todo: seq<Item>)
    requires Below(children, size)
  {
    forall it :: it in todo ==> Fair(children, size, sets, ov, root, it)
  }

  /** A call that sets marks every monitor before it looks at it. */
  predicate Prepared(root: Id, marks: set<Id>, todo: seq<Item>)
    decreases todo
  {
    if todo == [] then true
    else
      match todo[0]
      case Write(n, v) => v && Prepared(root, marks + {n}, todo[1..])
      case Enter(n) => (n == root || n in marks) && Prepared(root, marks, todo[1..])
  }

  lemma {:induction false} PreparedMore(root: Id, marks: set<Id>, marks': set<Id>, todo: seq<Item>)
    requires Prepared(root, marks, todo) && marks <= marks'
    ensures Prepared(root, marks', todo)
    decreases todo
  {
    if todo != [] {
      match todo[0] {
        case Write(n, v) => PreparedMore(root, marks + {n}, marks' + {n}, todo[1..]);
        case Enter(n) => PreparedMore(root, marks, marks', todo[1..]);
      }
    }
  }

  /** A mark that is not below the call's monitor does not matter to it. */
  lemma {:induction false} PreparedLess(root: Id, marks: set<Id>, marks': set<Id>, todo: seq<Item>, n: Id)
    requires Prepared(root, marks, todo) && marks - {n} <= marks'
    requires forall it :: it in todo ==> it.n != n || it.n == root
    ensures Prepared(root, marks', todo)
    decreases todo
  {
    if todo != [] {
      assert todo[0] in todo && forall it :: it in todo[1..] ==> it in todo;
      match todo[0] {
        case Write(x, v) => PreparedLess(root, marks + {x}, marks' + {x}, todo[1..], n);
        case Enter(x) => PreparedLess(root, marks, marks', todo[1..], n);
      }
    }
  }

  lemma {:induction false} PreparedSpread(root: Id, marks: set<Id>, cs: seq<Id>, rest: seq<Item>)
    requires Prepared(root, marks, rest)
    ensures Prepared(root, marks, Spread(cs, true) + rest)
    decreases cs
  {
    if cs == [] {
      assert Spread(cs, true) + rest == rest;
    } else {
      var all, more := Spread(cs, true) + rest, Spread(cs[1..], true) + rest;
      PreparedMore(root, marks, marks + {cs[0]}, rest);
      PreparedSpread(root, marks + {cs[0]}, cs[1..], rest);
      assert all == [Write(cs[0], true), Enter(cs[0])] + more;
      assert all[1..] == [Enter(cs[0])] + more && all[1..][1..] == more;
    }
  }

  lemma {:induction false} InSpread(cs: seq<Id>, v: bool, it: Item)
    ensures it in Spread(cs, v) <==> it.n in cs && (it.Write? ==> it.v == v)
  {
    if cs != [] {
      InSpread(cs[1..], v, it);
      assert cs == [cs[0]] + cs[1..];
    }
  }

  /** The call will yet write the mark of `n`. */
  ghost predicate Pending(children: map<Id, seq<Id>>, size: nat, todo: seq<Item>, n: Id)
    requires Below(children, size)
  {
    exists it :: it in todo && Leads(children, size, it, n)
  }

  ghost predicate Leads(children: map<Id, seq<Id>>, size: nat, it: Item, n: Id)
    requires Below(children, size)
  {
    if it.Write? then it.n == n else it.n != n && Reaches(children, size, it.n, n)
  }

  /** What a call is like while it is under way. */
  ghost predicate CallOk(children: map<Id, seq<Id>>, size: nat, sets: set<Id>, dels: set<Id>, ov: set<Id>, marks: set<Id>,
                         c: Call)
    requires Below(children, size)
  {
    && c.root in children && AllFair(children, size, sets, ov, c.root, c.todo)
    && (if c.sets then
          && c.root in sets && Prepared(c.root, marks, c.todo)
          && (children[c.root] != [] ==> c.root in ov)
        else c.root in dels)
  }

  /** Everything below an overridden monitor is marked or will be. */
  ghost predicate Covered(children: map<Id, seq<Id>>, size: nat, st: State, s: Id, n: Id)
    requires Below(children, size)
  {
    n in st.marks || exists c :: c in st.calls && c.sets && c.root == s && Pending(children, size, c.todo, n)
  }

  ghost predicate Good(children: map<Id, seq<Id>>, size: nat, sets: set<Id>, dels: set<Id>, st: State)
    requires Below(children, size)
  {
    && st.ov <= sets
    && (forall n :: n in st.marks ==> UnderOverride(children, size, st.ov, n))
    && (forall c :: c in st.calls ==> CallOk(children, size, sets, dels, st.ov, st.marks, c))
    && (forall s, n :: s in st.ov && s != n && Reaches(children, size, s, n) ==> Covered(children, size, st, s, n))
  }

  // ---- every step keeps it ----

  lemma {:induction false} UnderMore(children: map<Id, seq<Id>>, size: nat, ov: set<Id>, ov': set<Id>, n: Id)
    requires Below(children, size) && UnderOverride(children, size, ov, n) && ov <= ov'
    ensures UnderOverride(children, size, ov', n)
    decreases n
  {
    var m :| m in children && n in children[m] && (m in ov || UnderOverride(children, size, ov, m));
    if m !in ov {
      UnderMore(children, size, ov, ov', m);
    }
  }

  /** The override of a monitor with nothing below is no matter to any mark. */
  lemma {:induction false} UnderLess(children: map<Id, seq<Id>>, size: nat, ov: set<Id>, d: Id, n: Id)
    requires Below(children, size) && UnderOverride(children, size, ov, n) && d in children && children[d] == []
    ensures UnderOverride(children, size, ov - {d}, n)
    decreases n
  {
    var m :| m in children && n in children[m] && (m in ov || UnderOverride(children, size, ov, m));
    if m !in ov {
      UnderLess(children, size, ov, d, m);
    }
    assert m != d;
  }

  lemma CallOkOn(children: map<Id, seq<Id>>, size: nat, sets: set<Id>, dels: set<Id>, ov: set<Id>, marks: set<Id>,
                 ov': set<Id>, c: Call)
    requires Below(children, size) && CallOk(children, size, sets, dels, ov, marks, c)
    requires forall n :: UnderOverride(children, size, ov, n) ==> UnderOverride(children, size, ov', n)
    requires forall n :: n in ov && n in children && children[n] != [] ==> n in ov'
    ensures CallOk(children, size, sets, dels, ov', marks, c)
  {
    forall it | it in c.todo ensures Fair(children, size, sets, ov', c.root, it) {
      assert Fair(children, size, sets, ov, c.root, it);
    }
  }

  lemma NewCallOk(children: map<Id, seq<Id>>, size: nat, sets: set<Id>, dels: set<Id>, st: State, c: Change)
    requires Below(children, size) && c.m in children && (if c.Set? then c.m in sets else c.m in dels)
    ensures var st' := Next(children, st, Begin(c));
            CallOk(children, size, sets, dels, st'.ov, st'.marks, Call(c.m, c.Set?, [Enter(c.m)]))
  {
    assert Reaches(children, size, c.m, c.m);
  }

  lemma BeginKeeps(children: map<Id, seq<Id>>, size: nat, sets: set<Id>, dels: set<Id>, st: State, c: Change)
    requires Below(children, size) && Good(children, size, sets, dels, st) && !Clash(children, size, sets, dels)
    requires c.m in children && (if c.Set? then c.m in sets else c.m in dels)
    ensures Good(children, size, sets, dels, Next(children, st, Begin(c)))
  {
    var st' := Next(children, st, Begin(c));
    var more := Call(c.m, c.Set?, [Enter(c.m)]);
    assert st'.calls == st.calls + [more];
    BeginUnder(children, size, sets, dels, st, c);
    NewCallOk(children, size, sets, dels, st, c);
    forall x | x in st'.calls ensures CallOk(children, size, sets, dels, st'.ov, st'.marks, x) {
      if x in st.calls {
        CallOkOn(children, size, sets, dels, st.ov, st.marks, st'.ov, x);
      }
    }
    forall s, n | s in st'.ov && s != n && Reaches(children, size, s, n) ensures Covered(children, size, st', s, n) {
      if c == Set(s) {
        assert Enter(s) in more.todo && Leads(children, size, Enter(s), n);
        assert more in st'.calls;
      } else {
        assert Covered(children, size, st, s, n);
        if n !in st.marks {
          var x :| x in st.calls && x.sets && x.root == s && Pending(children, size, x.todo, n);
          assert x in st'.calls;
        }
      }
    }
  }

  /** Beginning a call takes nothing from under an override. */
  lemma BeginUnder(children: map<Id, seq<Id>>, size: nat, sets: set<Id>, dels: set<Id>, st: State, c: Change)
    requires Below(children, size) && st.ov <= sets && !Clash(children, size, sets, dels)
    requires c.m in children && (if c.Set? then c.m in sets else c.m in dels)
    ensures var ov' := Next(children, st, Begin(c)).ov;
            && ov' <= sets
            && (forall n :: UnderOverride(children, size, st.ov, n) ==> UnderOverride(children, size, ov', n))
            && (forall n :: n in st.ov && n in children && children[n] != [] ==> n in ov')
  {
    var ov' := Next(children, st, Begin(c)).ov;
    if c.Del? && c.m in st.ov && children[c.m] != [] {
      assert Reaches(children, size, c.m, c.m);
      assert Above(children, size, c.m, c.m);
    }
    forall n | UnderOverride(children, size, st.ov, n) ensures UnderOverride(children, size, ov', n) {
      if c.Del? && c.m in st.ov {
        UnderLess(children, size, st.ov, c.m, n);
      } else {
        UnderMore(children, size, st.ov, ov', n);
      }
    }
  }

  lemma WriteKeeps(children: map<Id, seq<Id>>, size: nat, sets: set<Id>, dels: set<Id>, st: State, i: nat)
    requires Below(children, size) && Good(children, size, sets, dels, st)
    requires i < |st.calls| && st.calls[i].todo != [] && st.calls[i].todo[0].Write?
    ensures Good(children, size, sets, dels, Next(children, st, Step(i)))
  {
    var c, st' := st.calls[i], Next(children, st, Step(i));
    var n, v := c.todo[0].n, c.todo[0].v;
    assert c in st.calls && c.todo[0] in c.todo && Fair(children, size, sets, st.ov, c.root, c.todo[0]);
    forall x | x in st'.calls ensures CallOk(children, size, sets, dels, st'.ov, st'.marks, x) {
      if x in st.calls {
        MarkKeepsCall(children, size, sets, dels, st.ov, st.marks, x, n, v);
      } else {
        assert x == c.(todo := c.todo[1..]);
        OwnMark(children, size, sets, dels, st.ov, st.marks, c);
      }
    }
    forall s, k | s in st'.ov && s != k && Reaches(children, size, s, k) ensures Covered(children, size, st', s, k) {
      assert Covered(children, size, st, s, k);
      if k != n && k !in st.marks {
        var x :| x in st.calls && x.sets && x.root == s && Pending(children, size, x.todo, k);
        StillPending(children, size, st, i, x, k);
      }
    }
  }

  /** A mark that others write does not disturb a call. */
  lemma MarkKeepsCall(children: map<Id, seq<Id>>, size: nat, sets: set<Id>, dels: set<Id>, ov: set<Id>, marks: set<Id>,
                      x: Call, n: Id, v: bool)
    requires Below(children, size) && CallOk(children, size, sets, dels, ov, marks, x)
    requires !v ==> Cold(children, size, sets, n)
    ensures CallOk(children, size, sets, dels, ov, Mark(marks, n, v), x)
  {
    if x.sets {
      if v {
        PreparedMore(x.root, marks, Mark(marks, n, v), x.todo);
      } else {
        forall it | it in x.todo ensures it.n != n || it.n == x.root {
          assert Fair(children, size, sets, ov, x.root, it);
        }
        PreparedLess(x.root, marks, Mark(marks, n, v), x.todo, n);
      }
    }
  }

  lemma OwnMark(children: map<Id, seq<Id>>, size: nat, sets: set<Id>, dels: set<Id>, ov: set<Id>, marks: set<Id>, c: Call)
    requires Below(children, size) && CallOk(children, size, sets, dels, ov, marks, c)
    requires c.todo != [] && c.todo[0].Write?
    ensures CallOk(children, size, sets, dels, ov, Mark(marks, c.todo[0].n, c.todo[0].v), c.(todo := c.todo[1..]))
  {
    assert forall it :: it in c.todo[1..] ==> it in c.todo;
  }

  /** What a call has yet to write, but for the mark it writes now, it still has. */
  lemma StillPending(children: map<Id, seq<Id>>, size: nat, st: State, i: nat, x: Call, k: Id)
    requires Below(children, size) && x in st.calls && Pending(children, size, x.todo, k)
    requires i < |st.calls| && st.calls[i].todo != [] && Enabled(children, st, Step(i))
    requires st.calls[i].todo[0].Write? ==> st.calls[i].todo[0].n != k
    ensures var st' := Next(children, st, Step(i));
            exists y :: y in st'.calls && y.sets == x.sets && y.root == x.root && Pending(children, size, y.todo, k)
  {
    var c, st' := st.calls[i], Next(children, st, Step(i));
    if j :| 0 <= j < |st.calls| && st.calls[j] == x && j != i {
      assert st'.calls[j] == x;
    } else {
      var y := st'.calls[i];
      var it :| it in x.todo && Leads(children, size, it, k);
      if it == c.todo[0] {
        SpreadLeads(children, size, it.n, it.n in st.ov || it.n in st.marks, k);
        assert forall z :: z in Spread(children[it.n], it.n in st.ov || it.n in st.marks) ==> z in y.todo;
      } else {
        assert it in c.todo[1..];
        assert it in y.todo;
      }
    }
  }

  lemma SpreadLeads(children: map<Id, seq<Id>>, size: nat, n: Id, v: bool, k: Id)
    requires Below(children, size) && n in children && Leads(children, size, Enter(n), k)
    ensures Pending(children, size, Spread(children[n], v), k)
  {
    FirstStep(children, size, n, k);
    var c :| c in children[n] && Reaches(children, size, c, k);
    InSpread(children[n], v, Write(c, v));
    InSpread(children[n], v, Enter(c));
    if c == k {
      assert Leads(children, size, Write(c, v), k);
    } else {
      assert Leads(children, size, Enter(c), k);
    }
  }

  lemma EnterKeeps(children: map<Id, seq<Id>>, size: nat, sets: set<Id>, dels: set<Id>, st: State, i: nat)
    requires Below(children, size) && OneParent(children) && !Clash(children, size, sets, dels)
    requires Good(children, size, sets, dels, st) && sets <= children.Keys && dels <= children.Keys
    requires Enabled(children, st, Step(i)) && st.calls[i].todo[0].Enter?
    ensures Good(children, size, sets, dels, Next(children, st, Step(i)))
  {
    var c, st' := st.calls[i], Next(children, st, Step(i));
    assert c in st.calls;
    forall x | x in st'.calls ensures CallOk(children, size, sets, dels, st'.ov, st'.marks, x) {
      if x !in st.calls {
        SpreadOk(children, size, sets, dels, st, c);
      }
    }
    forall s, k | s in st'.ov && s != k && Reaches(children, size, s, k) ensures Covered(children, size, st', s, k) {
      assert Covered(children, size, st, s, k);
      if k !in st.marks {
        var x :| x in st.calls && x.sets && x.root == s && Pending(children, size, x.todo, k);
        StillPending(children, size, st, i, x, k);
      }
    }
  }

  /** What is seen is right for the children: due to them, or never to be. */
  lemma SeenIsFair(children: map<Id, seq<Id>>, size: nat, sets: set<Id>, dels: set<Id>, st: State, c: Call, k: Id)
    requires Below(children, size) && OneParent(children) && !Clash(children, size, sets, dels)
    requires Good(children, size, sets, dels, st) && sets <= children.Keys && dels <= children.Keys
    requires c in st.calls && c.todo != [] && c.todo[0].Enter? && c.todo[0].n in children
    requires k in children[c.todo[0].n]
    ensures var n := c.todo[0].n;
            if n in st.ov || n in st.marks then UnderOverride(children, size, st.ov, k)
            else !c.sets && Cold(children, size, sets, k)
  {
    var n := c.todo[0].n;
    assert Fair(children, size, sets, st.ov, c.root, c.todo[0]);
    assert CallOk(children, size, sets, dels, st.ov, st.marks, c);
    if n !in st.ov && n !in st.marks {
      forall s | s in sets && s != k ensures !Reaches(children, size, s, k) {
        if Reaches(children, size, s, k) {
          AboveParent(children, size, s, n, k);
          ClashAt(children, size, sets, dels, s, c.root, n);
        }
      }
    }
  }

  lemma ClashAt(children: map<Id, seq<Id>>, size: nat, sets: set<Id>, dels: set<Id>, s: Id, d: Id, n: Id)
    requires Below(children, size) && OneParent(children) && n in children && children[n] != []
    requires s in sets && d in dels && s in children && d in children
    requires Reaches(children, size, s, n) && Reaches(children, size, d, n)
    ensures Clash(children, size, sets, dels)
  {
    InLine(children, size, s, d, n);
    HasChild(children, size, s, n);
    HasChild(children, size, d, n);
    assert Above(children, size, s, d) || Above(children, size, d, s);
  }

  lemma SpreadOk(children: map<Id, seq<Id>>, size: nat, sets: set<Id>, dels: set<Id>, st: State, c: Call)
    requires Below(children, size) && OneParent(children) && !Clash(children, size, sets, dels)
    requires Good(children, size, sets, dels, st) && sets <= children.Keys && dels <= children.Keys
    requires c in st.calls && c.todo != [] && c.todo[0].Enter? && c.todo[0].n in children
    ensures var n := c.todo[0].n;
            var todo := Spread(children[n], n in st.ov || n in st.marks) + c.todo[1..];
            CallOk(children, size, sets, dels, st.ov, st.marks, c.(todo := todo))
  {
    var n := c.todo[0].n;
    var v := n in st.ov || n in st.marks;
    var todo := Spread(children[n], v) + c.todo[1..];
    assert CallOk(children, size, sets, dels, st.ov, st.marks, c);
    assert Fair(children, size, sets, st.ov, c.root, c.todo[0]);
    forall it | it in todo ensures Fair(children, size, sets, st.ov, c.root, it) {
      if it in c.todo[1..] {
        assert it in c.todo;
      } else {
        InSpread(children[n], v, it);
        SeenIsFair(children, size, sets, dels, st, c, it.n);
        ReachesUp(children, size, c.root, n);
        assert Reaches(children, size, c.root, it.n);
      }
    }
    if c.sets {
      if children[n] == [] {
        assert todo == c.todo[1..];
      } else {
        SeenIsFair(children, size, sets, dels, st, c, children[n][0]);
        PreparedSpread(c.root, st.marks, children[n], c.todo[1..]);
      }
    }
  }

  lemma {:induction false} RunGood(children: map<Id, seq<Id>>, size: nat, sets: set<Id>, dels: set<Id>, es: seq<Event>,
                                   st: State)
    requires Below(children, size) && OneParent(children) && !Clash(children, size, sets, dels)
    requires sets <= children.Keys && dels <= children.Keys && Allowed(sets, dels, es) && Runs(children, START, es, st)
    ensures Good(children, size, sets, dels, st)
  {
    if es != [] {
      var e, m := es[|es| - 1], After(children, START, es[..|es| - 1]).value;
      RunGood(children, size, sets, dels, es[..|es| - 1], m);
      if e.Begin? {
        BeginKeeps(children, size, sets, dels, m, e.c);
      } else if m.calls[e.i].todo[0].Write? {
        WriteKeeps(children, size, sets, dels, m, e.i);
      } else {
        EnterKeeps(children, size, sets, dels, m, e.i);
      }
    }
  }

  lemma {:induction false} SomeAbove(children: map<Id, seq<Id>>, size: nat, ov: set<Id>, n: Id) returns (s: Id)
    requires Below(children, size) && UnderOverride(children, size, ov, n)
    ensures s in ov && s != n && Reaches(children, size, s, n)
    decreases n
  {
    var m :| m in children && n in children[m] && (m in ov || UnderOverride(children, size, ov, m));
    if m in ov {
      s := m;
      assert Reaches(children, size, m, m);
    } else {
      s := SomeAbove(children, size, ov, m);
      ReachesUp(children, size, s, m);
    }
  }

  lemma QuietIsRight(children: map<Id, seq<Id>>, size: nat, sets: set<Id>, dels: set<Id>, st: State)
    requires Below(children, size) && Good(children, size, sets, dels, st) && Quiet(st)
    ensures AllRight(children, size, st.ov, st.marks)
  {
    forall n ensures Right(children, size, st.ov, st.marks, n) {
      if UnderOverride(children, size, st.ov, n) {
        var s := SomeAbove(children, size, st.ov, n);
        assert Covered(children, size, st, s, n);
      }
    }
  }

  // ---- with a clash ----

  predicate OnlySteps(es: seq<Event>) {
    forall k :: 0 <= k < |es| ==> es[k].Step?
  }

  lemma OneMore(children: map<Id, seq<Id>>, st: State, es: seq<Event>, m: State, e: Event)
    requires Runs(children, st, es, m) && Enabled(children, m, e)
    ensures Runs(children, st, es + [e], Next(children, m, e))
  {
    assert (es + [e])[..|es|] == es;
  }

  lemma {:induction false} RunsOn(children: map<Id, seq<Id>>, st: State, es: seq<Event>, m: State, more: seq<Event>,
                                  st': State)
    requires Runs(children, st, es, m) && Runs(children, m, more, st')
    ensures Runs(children, st, es + more, st')
  {
    if more == [] {
      assert es + more == es;
    } else {
      var k := |more| - 1;
      var m' := After(children, m, more[..k]).value;
      RunsOn(children, st, es, m, more[..k], m');
      OneMore(children, st, es + more[..k], m', more[k]);
      assert es + more == es + more[..k] + [more[k]];
    }
  }

  lemma {:induction false} SpreadLast(cs: seq<Id>, v: bool)
    requires cs != []
    ensures Spread(cs, v) == Spread(cs[..|cs| - 1], v) + [Write(cs[|cs| - 1], v), Enter(cs[|cs| - 1])]
  {
    if |cs| > 1 {
      SpreadLast(cs[1..], v);
      assert cs[1..][..|cs| - 2] == cs[..|cs| - 1][1..];
    }
  }

  /** Where call `i` has only this left to do. */
  function Left(st: State, i: nat, marks: set<Id>, todo: seq<Item>): State
    requires i < |st.calls|
  {
    State(st.ov, marks, st.calls[i := st.calls[i].(todo := todo)])
  }

  /** Left alone, a call does to what is below a monitor what going down in one go does. */
  lemma {:induction false} GoDown(children: map<Id, seq<Id>>, size: nat, st: State, i: nat, n: Id, rest: seq<Item>)
    returns (es: seq<Event>)
    requires Below(children, size) && n in children && i < |st.calls| && st.calls[i].todo == [Enter(n)] + rest
    ensures OnlySteps(es)
    ensures Runs(children, st, es, Left(st, i, Down(children, size, st.ov, st.marks, n), rest))
    decreases size - n, |children[n]| + 2
  {
    var v, m := n in st.ov || n in st.marks, Next(children, st, Step(i));
    assert st.calls[i].todo[1..] == rest;
    OneMore(children, st, [], st, Step(i));
    var more := GoDownAll(children, size, m, i, n, v, children[n], rest);
    es := [Step(i)] + more;
    var end := Left(m, i, DownAll(children, size, st.ov, st.marks, n, v, children[n]), rest);
    RunsOn(children, st, [Step(i)], m, more, end);
    assert end == Left(st, i, Down(children, size, st.ov, st.marks, n), rest);
  }

  lemma {:induction false} GoDownAll(children: map<Id, seq<Id>>, size: nat, st: State, i: nat, m: Id, v: bool, cs: seq<Id>,
                                     rest: seq<Item>)
    returns (es: seq<Event>)
    requires Below(children, size) && m in children && (forall c :: c in cs ==> c in children[m])
    requires i < |st.calls| && st.calls[i].todo == Spread(cs, v) + rest
    ensures OnlySteps(es)
    ensures Runs(children, st, es, Left(st, i, DownAll(children, size, st.ov, st.marks, m, v, cs), rest))
    decreases size - m, |cs| + 1
  {
    if cs == [] {
      assert Spread(cs, v) + rest == rest;
      assert Left(st, i, st.marks, rest) == st;
      return [];
    }
    var k := |cs| - 1;
    var c := cs[k];
    assert c in cs && c in children[m];
    SpreadLast(cs, v);
    var last := [Write(c, v), Enter(c)] + rest;
    assert st.calls[i].todo == Spread(cs[..k], v) + last;
    es := GoDownAll(children, size, st, i, m, v, cs[..k], last);
    var st1 := Left(st, i, DownAll(children, size, st.ov, st.marks, m, v, cs[..k]), last);
    var more := GoDownOne(children, size, st1, i, c, v, rest);
    var end := Left(st1, i, Down(children, size, st.ov, Mark(st1.marks, c, v), c), rest);
    RunsOn(children, st, es, st1, more, end);
    assert end == Left(st, i, DownAll(children, size, st.ov, st.marks, m, v, cs), rest);
    es := es + more;
  }

  lemma {:induction false} GoDownOne(children: map<Id, seq<Id>>, size: nat, st: State, i: nat, c: Id, v: bool,
                                     rest: seq<Item>)
    returns (es: seq<Event>)
    requires Below(children, size) && c in children
    requires i < |st.calls| && st.calls[i].todo == [Write(c, v), Enter(c)] + rest
    ensures OnlySteps(es)
    ensures Runs(children, st, es, Left(st, i, Down(children, size, st.ov, Mark(st.marks, c, v), c), rest))
    decreases size - c, |children[c]| + 3
  {
    var st1 := Next(children, st, Step(i));
    assert st.calls[i].todo[1..] == [Enter(c)] + rest;
    OneMore(children, st, [], st, Step(i));
    es := GoDown(children, size, st1, i, c, rest);
    var end := Left(st, i, Down(children, size, st.ov, Mark(st.marks, c, v), c), rest);
    assert Left(st1, i, Down(children, size, st1.ov, st1.marks, c), rest) == end;
    RunsOn(children, st, [Step(i)], st1, es, end);
    es := [Step(i)] + es;
  }

  /** A call does what is left to do, and does not come to `c`. */
  lemma {:induction false} GoOn(children: map<Id, seq<Id>>, size: nat, st: State, i: nat, todo: seq<Item>, c: Id)
    returns (es: seq<Event>, marks: set<Id>)
    requires Below(children, size) && i < |st.calls| && st.calls[i].todo == todo
    requires forall it :: it in todo ==> Away(children, size, it, c)
    ensures OnlySteps(es) && Runs(children, st, es, Left(st, i, marks, [])) && (c in marks <==> c in st.marks)
    decreases |todo|
  {
    if todo == [] {
      assert Left(st, i, st.marks, []) == st;
      return [], st.marks;
    }
    var it := todo[0];
    assert it in todo && Away(children, size, it, c) && todo == [it] + todo[1..];
    var st1;
    if it.Write? {
      es := [Step(i)];
      st1 := Next(children, st, Step(i));
      assert Reaches(children, size, c, c);
      OneMore(children, st, [], st, Step(i));
    } else {
      es := GoDown(children, size, st, i, it.n, todo[1..]);
      st1 := Left(st, i, Down(children, size, st.ov, st.marks, it.n), todo[1..]);
      DownFrame(children, size, st.ov, st.marks, it.n, c);
    }
    assert forall x :: x in todo[1..] ==> x in todo;
    var more;
    more, marks := GoOn(children, size, st1, i, todo[1..], c);
    assert Left(st1, i, marks, []) == Left(st, i, marks, []);
    RunsOn(children, st, es, st1, more, Left(st, i, marks, []));
    es := es + more;
  }

  ghost predicate Away(children: map<Id, seq<Id>>, size: nat, it: Item, c: Id)
    requires Below(children, size)
  {
    it.n in children && !Reaches(children, size, it.n, c)
  }

  lemma {:induction false} NothingDown(children: map<Id, seq<Id>>, size: nat, m: Id)
    requires Below(children, size) && m in children
    ensures Down(children, size, {}, {}, m) == {}
    decreases size - m, |children[m]| + 2
  {
    NothingDownAll(children, size, m, children[m]);
  }

  lemma {:induction false} NothingDownAll(children: map<Id, seq<Id>>, size: nat, m: Id, cs: seq<Id>)
    requires Below(children, size) && m in children && forall c :: c in cs ==> c in children[m]
    ensures DownAll(children, size, {}, {}, m, false, cs) == {}
    decreases size - m, |cs| + 1
  {
    if cs != [] {
      var c, none: set<Id> := cs[|cs| - 1], {};
      assert c in cs && none - {c} == {};
      NothingDownAll(children, size, m, cs[..|cs| - 1]);
      NothingDown(children, size, c);
    }
  }

  /** A call that finds nothing goes down to a child. */
  lemma GoPast(children: map<Id, seq<Id>>, size: nat, st: State, i: nat, m: Id, k: nat, rest: seq<Item>)
    returns (es: seq<Event>)
    requires Below(children, size) && m in children && k < |children[m]|
    requires i < |st.calls| && st.calls[i].todo == [Enter(m)] + rest && st.ov == {} && st.marks == {}
    ensures OnlySteps(es)
    ensures Runs(children, st, es, Left(st, i, {}, [Enter(children[m][k])] + (Spread(children[m][k + 1..], false) + rest)))
  {
    var cs, x := children[m], children[m][k];
    var later := Spread(cs[k + 1..], false) + rest;
    var last := [Write(x, false), Enter(x)] + later;
    var st1, st2, st3 := Next(children, st, Step(i)), Left(st, i, {}, last), Left(st, i, {}, [Enter(x)] + later);
    assert st.calls[i].todo[1..] == rest;
    OneMore(children, st, [], st, Step(i));
    SpreadAt(cs, k, false);
    assert st1.calls[i].todo == Spread(cs[..k], false) + last;
    es := GoDownAll(children, size, st1, i, m, false, cs[..k], last);
    NothingDownAll(children, size, m, cs[..k]);
    assert Left(st1, i, {}, last) == st2;
    RunsOn(children, st, [Step(i)], st1, es, st2);
    Unwritten(st2, i, x, later);
    assert Next(children, st2, Step(i)) == Left(st2, i, {}, [Enter(x)] + later) == st3;
    OneMore(children, st, [Step(i)] + es, st2, Step(i));
    es := [Step(i)] + es + [Step(i)];
  }

  lemma Unwritten(st: State, i: nat, x: Id, later: seq<Item>)
    requires i < |st.calls| && st.calls[i].todo == [Write(x, false), Enter(x)] + later && st.marks == {}
    ensures st.calls[i].todo[1..] == [Enter(x)] + later && Mark(st.marks, x, false) == {}
  {
  }

  /** It can go down until it is about to look at `s`; what it has left then is away from what is below `s`. */
  lemma {:induction false} GoTo(children: map<Id, seq<Id>>, size: nat, st: State, i: nat, m: Id, s: Id, c: Id,
                                rest: seq<Item>)
    returns (es: seq<Event>, rest': seq<Item>)
    requires Below(children, size) && OneParent(children) && m in children && s in children && c in children[s]
    requires Reaches(children, size, m, s) && i < |st.calls| && st.calls[i].todo == [Enter(m)] + rest
    requires st.ov == {} && st.marks == {} && forall it :: it in rest ==> Away(children, size, it, c)
    ensures OnlySteps(es) && Runs(children, st, es, Left(st, i, {}, [Enter(s)] + rest'))
    ensures forall it :: it in rest' ==> Away(children, size, it, c)
    decreases size - m
  {
    if m == s {
      assert Left(st, i, {}, [Enter(s)] + rest) == st;
      return [], rest;
    }
    FirstStep(children, size, m, s);
    var k := LastLeading(children, size, children[m], s);
    var x := children[m][k];
    assert x in children[m];
    var later := Spread(children[m][k + 1..], false) + rest;
    var st1 := Left(st, i, {}, [Enter(x)] + later);
    es := GoPast(children, size, st, i, m, k, rest);
    LaterAway(children, size, m, k, s, c, rest);
    var more;
    more, rest' := GoTo(children, size, st1, i, x, s, c, later);
    var end := Left(st, i, {}, [Enter(s)] + rest');
    assert Left(st1, i, {}, [Enter(s)] + rest') == end;
    RunsOn(children, st, es, st1, more, end);
    es := es + more;
  }

  lemma {:induction false} SpreadAt(cs: seq<Id>, k: nat, v: bool)
    requires k < |cs|
    ensures Spread(cs, v) == Spread(cs[..k], v) + [Write(cs[k], v), Enter(cs[k])] + Spread(cs[k + 1..], v)
  {
    if k > 0 {
      SpreadAt(cs[1..], k - 1, v);
      assert cs[1..][..k - 1] == cs[..k][1..] && cs[1..][k..] == cs[k + 1..];
    }
  }

  /** The later children of a monitor above `s` do not lead below it. */
  lemma LaterAway(children: map<Id, seq<Id>>, size: nat, m: Id, k: nat, s: Id, c: Id, rest: seq<Item>)
    requires Below(children, size) && OneParent(children) && m in children && s in children && c in children[s] && m != s
    requires k < |children[m]| && Leaves(children, size, children[m][k + 1..], s)
    requires forall it :: it in rest ==> Away(children, size, it, c)
    ensures forall it :: it in Spread(children[m][k + 1..], false) + rest ==> Away(children, size, it, c)
  {
    var cs := children[m][k + 1..];
    forall it | it in Spread(cs, false) ensures Away(children, size, it, c) {
      InSpread(cs, false, it);
      assert it.n in children[m];
      if Reaches(children, size, it.n, c) && it.n != c {
        AboveParent(children, size, it.n, s, c);
      }
    }
  }

  /** A call removing an override that is not there sees nothing at a monitor, and another sets one above it and marks
      everything below. */
  lemma Overtaken(children: map<Id, seq<Id>>, size: nat, s: Id, at: Id, st: State, rest: seq<Item>)
    returns (es: seq<Event>, st': State)
    requires Below(children, size) && s in children && at in children
    requires st.ov == {} && st.marks == {} && |st.calls| == 1 && st.calls[0].todo == [Enter(at)] + rest
    ensures Runs(children, st, es, st') && OnlySets(es, s)
    ensures st'.ov == {s} && |st'.calls| == 2 && st'.calls[1].todo == []
    ensures st'.calls[0].todo == Spread(children[at], false) + rest
  {
    var st1 := Next(children, st, Step(0));
    assert st.calls[0].todo[1..] == rest;
    OneMore(children, st, [], st, Step(0));
    var st2 := Next(children, st1, Begin(Set(s)));
    OneMore(children, st, [] + [Step(0)], st1, Begin(Set(s)));
    es := [] + [Step(0)] + [Begin(Set(s))];
    assert st2.calls[1].todo == [Enter(s)] + [];
    var more := GoDown(children, size, st2, 1, s, []);
    st' := Left(st2, 1, Down(children, size, st2.ov, st2.marks, s), []);
    RunsOn(children, st, es, st2, more, st');
    es := es + more;
  }

  predicate OnlySets(es: seq<Event>, s: Id) {
    forall k :: 0 <= k < |es| && es[k].Begin? ==> es[k].c == Set(s)
  }

  /** Then the first goes on and takes the marks of the children. */
  lemma StaleWrite(children: map<Id, seq<Id>>, size: nat, at: Id, st: State, rest: seq<Item>, c: Id)
    returns (es: seq<Event>, end: State)
    requires Below(children, size) && at in children && children[at] != [] && c == children[at][|children[at]| - 1]
    requires |st.calls| == 2 && st.calls[1].todo == [] && st.calls[0].todo == Spread(children[at], false) + rest
    requires forall it :: it in rest ==> Away(children, size, it, c)
    ensures Runs(children, st, es, end) && OnlySteps(es) && Quiet(end) && end.ov == st.ov && c !in end.marks
  {
    var cs := children[at];
    es := GoDownAll(children, size, st, 0, at, false, cs, rest);
    var st1 := Left(st, 0, DownAll(children, size, st.ov, st.marks, at, false, cs), rest);
    CloserWrites(children, size, st.ov, st.marks, at, false, cs, |cs| - 1);
    var more, marks := GoOn(children, size, st1, 0, rest, c);
    end := Left(st1, 0, marks, []);
    RunsOn(children, st, es, st1, more, end);
    es := es + more;
  }

  lemma Removing(children: map<Id, seq<Id>>, size: nat, d: Id, at: Id, c: Id)
    returns (es: seq<Event>, st: State, rest: seq<Item>)
    requires Below(children, size) && OneParent(children) && d in children && at in children && c in children[at]
    requires Reaches(children, size, d, at)
    ensures Runs(children, START, es, st) && forall k :: 0 <= k < |es| && es[k].Begin? ==> es[k].c == Del(d)
    ensures st.ov == {} && st.marks == {} && |st.calls| == 1 && st.calls[0].todo == [Enter(at)] + rest
    ensures forall it :: it in rest ==> Away(children, size, it, c)
  {
    var st0 := Next(children, START, Begin(Del(d)));
    OneMore(children, START, [], START, Begin(Del(d)));
    es := [] + [Begin(Del(d))];
    var down;
    down, rest := GoTo(children, size, st0, 0, d, at, c, []);
    st := Left(st0, 0, {}, [Enter(at)] + rest);
    RunsOn(children, START, es, st0, down, st);
    es := es + down;
  }

  /** So a clash leads to a wrong mark. */
  lemma ClashGoesWrong(children: map<Id, seq<Id>>, size: nat, s: Id, d: Id) returns (es: seq<Event>, st: State)
    requires Below(children, size) && OneParent(children) && (Above(children, size, s, d) || Above(children, size, d, s))
    ensures Allowed({s}, {d}, es) && Runs(children, START, es, st) && Quiet(st) && !AllRight(children, size, st.ov, st.marks)
  {
    var at := if Above(children, size, s, d) then d else s;
    var c := children[at][|children[at]| - 1];
    assert c in children[at];
    assert Reaches(children, size, s, s) && Reaches(children, size, d, d);
    var es1, st1, rest := Removing(children, size, d, at, c);
    var es2, st2 := Overtaken(children, size, s, at, st1, rest);
    var es3;
    es3, st := StaleWrite(children, size, at, st2, rest, c);
    RunsOn(children, START, es1, st1, es2, st2);
    RunsOn(children, START, es1 + es2, st2, es3, st);
    es := es1 + es2 + es3;
    AllAllowed(es1, es2, es3, s, d);
    DueBelow(children, size, s, at, c);
    assert !Right(children, size, st.ov, st.marks, c);
  }

  lemma AllAllowed(es1: seq<Event>, es2: seq<Event>, es3: seq<Event>, s: Id, d: Id)
    requires (forall k :: 0 <= k < |es1| && es1[k].Begin? ==> es1[k].c == Del(d)) && OnlySets(es2, s) && OnlySteps(es3)
    ensures Allowed({s}, {d}, es1 + es2 + es3)
  {
  }

  lemma DueBelow(children: map<Id, seq<Id>>, size: nat, s: Id, at: Id, c: Id)
    requires Below(children, size) && at in children && c in children[at] && Reaches(children, size, s, at)
    ensures UnderOverride(children, size, {s}, c)
  {
    if s != at {
      UnderGoesDown(children, size, {s}, s, at);
    }
  }

  // ---- exactly when ----

  /** Whatever calls are under way at once: when none is left, every mark is right. */
  ghost predicate AlwaysRightAtOnce(children: map<Id, seq<Id>>, size: nat, sets: set<Id>, dels: set<Id>)
    requires Below(children, size)
  {
    forall es: seq<Event>, st ::
      Allowed(sets, dels, es) && Runs(children, START, es, st) && Quiet(st) ==> AllRight(children, size, st.ov, st.marks)
  }

  /** On a tree that is so exactly if no monitor that may be overridden is above, or is, or is below, one from which an
      override may be removed, with something below both. */
  lemma AtOnceExactly(children: map<Id, seq<Id>>, size: nat, sets: set<Id>, dels: set<Id>)
    requires Below(children, size) && OneParent(children) && sets <= children.Keys && dels <= children.Keys
    ensures AlwaysRightAtOnce(children, size, sets, dels) <==> !Clash(children, size, sets, dels)
  {
    if Clash(children, size, sets, dels) {
      var s, d :| s in sets && d in dels && (Above(children, size, s, d) || Above(children, size, d, s));
      var es, st := ClashGoesWrong(children, size, s, d);
      assert Allowed(sets, dels, es);
    } else {
      forall es: seq<Event>, st | Allowed(sets, dels, es) && Runs(children, START, es, st) && Quiet(st)
        ensures AllRight(children, size, st.ov, st.marks)
      {
        RunGood(children, size, sets, dels, es, st);
        QuietIsRight(children, size, sets, dels, st);
      }
    }
  }

  /** Setting alone never goes wrong; setting and removing do, wherever anything is below. */
  lemma SettingIsSafe(children: map<Id, seq<Id>>, size: nat, all: set<Id>)
    requires Below(children, size) && OneParent(children) && all == children.Keys
    ensures AlwaysRightAtOnce(children, size, all, {})
    ensures AlwaysRightAtOnce(children, size, all, all) <==> forall m :: m in children ==> children[m] == []
  {
    AtOnceExactly(children, size, all, {});
    AtOnceExactly(children, size, all, all);
    if m :| m in children && children[m] != [] {
      assert Reaches(children, size, m, m);
      assert Above(children, size, m, m);
    }
  }
}
