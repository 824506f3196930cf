/** The stack machine that runs a postfix program, against direct evaluation of the tree. */
module ExprRun {
  import opened Wrappers
  import opened ExprParse
  import opened ExprTree

  // Numbers and everything the machine asks of the outside. `nul` also takes how many operators ran before,
  // for the clock and the random source.
  datatype Machine<!F> = Machine(
    parse: string -> Option<F>,
    show: F -> string,
    find: string -> Option<string>,
    vars: map<string, string>,
    nul: (Token, nat) -> F,
    un: (Token, F) -> Option<F>,
    bin: (Token, F, F) -> F,
    agg: (Token, string) -> Option<F>)

  /** popf's reading of a popped string: an object's result, then a variable's value, then a number. */
  function Resolve<F>(m: Machine<F>, x: string): Option<F> {
    match if NamesObject(x) then m.find(x) else Some(x)
    case None => None
    case Some(y) => m.parse(if y in m.vars then m.vars[y] else y)
  }

  function Top(s: seq<string>): string {
    if s == [] then "" else s[|s| - 1]
  }

  function Rest(s: seq<string>): seq<string> {
    if s == [] then [] else s[..|s| - 1]
  }

  /** One operator: the value it leaves and the stack it leaves it on. */
  function Apply<F>(ops: Table, m: Machine<F>, op: Token, s: seq<string>, k: nat): Option<(F, seq<string>)>
    requires op in ops
  {
    match ops[op].kind
    case Nullary => Some((m.nul(op, k), s))
    case Aggregate =>
      (match m.agg(op, Top(s)) case None => None case Some(f) => Some((f, Rest(s))))
    case Unary =>
      (match Resolve(m, Top(s))
       case None => None
       case Some(a) => match m.un(op, a) case None => None case Some(f) => Some((f, Rest(s))))
    case Binary =>
      (match Resolve(m, Top(s))
       case None => None
       case Some(a) =>
         match Resolve(m, Top(Rest(s)))
         case None => None
         case Some(b) => Some((m.bin(op, b, a), Rest(Rest(s)))))
  }

  /** The stack after the whole program, None if an operator failed. */
  function RunAll<F>(ops: Table, m: Machine<F>, prog: seq<Token>, s: seq<string>, k: nat): Option<seq<string>>
    decreases |prog|
  {
    if prog == [] then Some(s)
    else if prog[0] !in ops then RunAll(ops, m, prog[1..], s + [prog[0]], k)
    else
      match Apply(ops, m, prog[0], s, k)
      case None => None
      case Some((f, s')) => RunAll(ops, m, prog[1..], s' + [m.show(f)], k + 1)
  }

  function Result<F>(ops: Table, m: Machine<F>, prog: seq<Token>): string {
    match RunAll(ops, m, prog, [], 0)
    case None => ""
    case Some(s) => Top(s)
  }

  class ExprStack<F> {
    const m: Machine<F>
    var prog: seq<Token>
    var s: seq<string>

    constructor (prog: seq<Token>, m: Machine<F>)
      ensures this.prog == prog && this.m == m && s == []
    {
      this.prog, this.m, this.s := prog, m, [];
    }

    method Push(x: string)
      modifies this`s
      ensures s == old(s) + [x]
    {
      s := s + [x];
    }

    method Pushf(x: F)
      modifies this`s
      ensures s == old(s) + [m.show(x)]
    {
      Push(m.show(x));
    }

    method Pop() returns (x: string)
      modifies this`s
      ensures x == Top(old(s)) && s == Rest(old(s))
    {
      if |s| == 0 {
        return "";
      }
      x := s[|s| - 1];
      s := s[..|s| - 1];
    }

    method Popf() returns (r: Option<F>)
      modifies this`s
      ensures r == Resolve(m, Top(old(s))) && s == Rest(old(s))
    {
      var x := Pop();
      if NamesObject(x) {
        match m.find(x) {
          case None => return None;
          case Some(result) => x := result;
        }
      }
      if x in m.vars {
        x := m.vars[x];
      }
      r := m.parse(x);
    }

    /** Run one operator. */
    method Fop(ops: Table, op: Token, k: nat) returns (r: Option<F>)
      requires op in ops
      modifies this`s
      ensures match Apply(ops, m, op, old(s), k)
              case None => r == None
              case Some((f, s')) => r == Some(f) && s == s'
    {
      match ops[op].kind {
        case Nullary =>
          r := Some(m.nul(op, k));
        case Aggregate =>
          var obj := Pop();
          r := m.agg(op, obj);
        case Unary =>
          var a := Popf();
          if a.None? {
            return None;
          }
          r := m.un(op, a.value);
        case Binary =>
          var a := Popf();
          if a.None? {
            return None;
          }
          var b := Popf();
          if b.None? {
            return None;
          }
          r := Some(m.bin(op, b.value, a.value));
      }
    }
  }

  method RunExpr<F>(ops: Table, m: Machine<F>, pt: seq<Token>) returns (r: string)
    ensures r == Result(ops, m, pt)
  {
    var es := new ExprStack(pt, m);
    var k := 0;
    while |es.prog| != 0
      invariant RunAll(ops, m, pt, [], 0) == RunAll(ops, m, es.prog, es.s, k)
      decreases |es.prog|
    {
      var op := es.prog[0];
      es.prog := es.prog[1..];
      if op !in ops {
        es.Push(op);
        continue;
      }
      var res := es.Fop(ops, op, k);
      if res.None? {
        return "";
      }
      k := k + 1;
      es.Pushf(res.value);
    }
    r := es.Pop();
  }

  // ---- what single operators do ----

  /** A monitored object stands for its result, a variable for its value, and all else for the number it is written as; an
      object's result may name a variable, but a variable's value no object. */
  lemma ResolveMeans<F>(m: Machine<F>, x: string)
    ensures !("Top" <= x) && x !in m.vars ==> Resolve(m, x) == m.parse(x)
    ensures !("Top" <= x) && x in m.vars ==> Resolve(m, x) == m.parse(m.vars[x])
    ensures "Top" <= x && m.find(x).None? ==> Resolve(m, x) == None
    ensures "Top" <= x && m.find(x).Some? && m.find(x).value !in m.vars ==> Resolve(m, x) == m.parse(m.find(x).value)
    ensures "Top" <= x && m.find(x).Some? && m.find(x).value in m.vars ==>
              Resolve(m, x) == m.parse(m.vars[m.find(x).value])
  {
  }

  lemma Shifts<F>(ops: Table, m: Machine<F>, a: Token, prog: seq<Token>, s: seq<string>, k: nat)
    requires a !in ops
    ensures RunAll(ops, m, [a] + prog, s, k) == RunAll(ops, m, prog, s + [a], k)
  {
    assert ([a] + prog)[1..] == prog;
  }

  lemma Last<F>(ops: Table, m: Machine<F>, op: Token, s: seq<string>, k: nat)
    requires op in ops
    ensures RunAll(ops, m, [op], s, k)
         == match Apply(ops, m, op, s, k) { case None => None case Some((f, s')) => Some(s' + [m.show(f)]) }
  {
    assert [op][1..] == [];
  }

  /** Two numbers and what is between them: the one written first is the first operand. */
  lemma TwoNumbers<F>(ops: Table, m: Machine<F>, a: Token, b: Token, op: Token)
    requires a !in ops && b !in ops && Is(ops, op, Binary)
    ensures Resolve(m, a).Some? && Resolve(m, b).Some? ==>
              Result(ops, m, [a, b, op]) == m.show(m.bin(op, Resolve(m, a).value, Resolve(m, b).value))
    ensures Resolve(m, a).None? || Resolve(m, b).None? ==> Result(ops, m, [a, b, op]) == ""
  {
    assert [a, b, op] == [a] + [b, op] && [b, op] == [b] + [op];
    Shifts(ops, m, a, [b, op], [], 0);
    Shifts(ops, m, b, [op], [a], 0);
    Last(ops, m, op, [a, b], 0);
    assert [] + [a] == [a] && [a] + [b] == [a, b] && Rest([a, b]) == [a] && Rest([a]) == [];
  }

  /** A function of one number. */
  lemma OneNumber<F>(ops: Table, m: Machine<F>, a: Token, op: Token, x: Option<F>, r: Option<F>)
    requires a !in ops && Is(ops, op, Unary) && x == Resolve(m, a)
    requires r == if x.None? then None else m.un(op, x.value)
    ensures Result(ops, m, [a, op]) == if r.None? then "" else m.show(r.value)
  {
    AloneOnStack(ops, m, a, op);
    assert Rest([a]) == [];
  }

  /** An aggregate is of a group by its name, not of a number. */
  lemma OneGroup<F>(ops: Table, m: Machine<F>, a: Token, op: Token)
    requires a !in ops && Is(ops, op, Aggregate)
    ensures Result(ops, m, [a, op]) == if m.agg(op, a).None? then "" else m.show(m.agg(op, a).value)
  {
    AloneOnStack(ops, m, a, op);
    assert Rest([a]) == [];
  }

  lemma AloneOnStack<F>(ops: Table, m: Machine<F>, a: Token, op: Token)
    requires a !in ops && op in ops
    ensures RunAll(ops, m, [a, op], [], 0)
         == match Apply(ops, m, op, [a], 0) { case None => None case Some((f, s')) => Some(s' + [m.show(f)]) }
  {
    assert [a, op] == [a] + [op] && [] + [a] == [a];
    Shifts(ops, m, a, [op], [], 0);
    Last(ops, m, op, [a], 0);
  }

  lemma NoNumber<F>(ops: Table, m: Machine<F>, op: Token)
    requires Is(ops, op, Nullary)
    ensures Result(ops, m, [op]) == m.show(m.nul(op, 0))
  {
    Last(ops, m, op, [], 0);
  }

  // ---- direct evaluation ----

  function OpsIn(t: Tree): nat {
    match t
    case Word(_) => 0
    case Nul(_) => 1
    case Un(_, a) => OpsIn(a) + 1
    case Bin(_, l, r) => OpsIn(l) + OpsIn(r) + 1
  }

  /** The number an operator node stands for; `k` operators ran before this subtree. Operands are evaluated
      left to right, and every intermediate result is rounded by showing and reading it back. */
  function Compute<F>(ops: Table, m: Machine<F>, t: Tree, k: nat): Option<F>
    requires WellKinded(ops, t) && !t.Word?
    decreases t, 0
  {
    match t
    case Nul(op) => Some(m.nul(op, k))
    case Un(op, a) =>
      if ops[op].kind == Aggregate then
        (match Shown(ops, m, a, k) case None => None case Some(obj) => m.agg(op, obj))
      else
        (match Operand(ops, m, a, k) case None => None case Some(x) => m.un(op, x))
    case Bin(op, l, r) =>
      match (Operand(ops, m, l, k), Operand(ops, m, r, k + OpsIn(l)))
      case (Some(x), Some(y)) => Some(m.bin(op, x, y))
      case _ => None
  }

  /** The string a subtree leaves: a word is left as it is. */
  function Shown<F>(ops: Table, m: Machine<F>, t: Tree, k: nat): Option<string>
    requires WellKinded(ops, t)
    decreases t, 1
  {
    if t.Word? then Some(t.w)
    else match Compute(ops, m, t, k) case None => None case Some(f) => Some(m.show(f))
  }

  /** The number a subtree is worth as an operand. */
  function Operand<F>(ops: Table, m: Machine<F>, t: Tree, k: nat): Option<F>
    requires WellKinded(ops, t)
    decreases t, 2
  {
    match Shown(ops, m, t, k) case None => None case Some(x) => Resolve(m, x)
  }

  lemma {:induction false} RunConcat<F>(ops: Table, m: Machine<F>, a: seq<Token>, b: seq<Token>, s: seq<string>, k: nat)
    requires RunAll(ops, m, a, s, k).Some?
    ensures RunAll(ops, m, a + b, s, k)
         == RunAll(ops, m, b, RunAll(ops, m, a, s, k).value, k + OpsOf(ops, a))
    decreases |a|
  {
    if a == [] {
      assert a + b == b;
    } else {
      assert (a + b)[1..] == a[1..] + b;
      if a[0] !in ops {
        RunConcat(ops, m, a[1..], b, s + [a[0]], k);
      } else {
        var (f, s') := Apply(ops, m, a[0], s, k).value;
        RunConcat(ops, m, a[1..], b, s' + [m.show(f)], k + 1);
      }
    }
  }

  lemma {:induction false} RunFails<F>(ops: Table, m: Machine<F>, a: seq<Token>, b: seq<Token>, s: seq<string>, k: nat)
    requires RunAll(ops, m, a, s, k).None?
    ensures RunAll(ops, m, a + b, s, k).None?
    decreases |a|
  {
    assert (a + b)[1..] == a[1..] + b;
    if a[0] !in ops {
      RunFails(ops, m, a[1..], b, s + [a[0]], k);
    } else if Apply(ops, m, a[0], s, k).Some? {
      var (f, s') := Apply(ops, m, a[0], s, k).value;
      RunFails(ops, m, a[1..], b, s' + [m.show(f)], k + 1);
    }
  }

  function OpsOf(ops: Table, prog: seq<Token>): nat {
    if prog == [] then 0 else (if prog[0] in ops then 1 else 0) + OpsOf(ops, prog[1..])
  }

  lemma {:induction false} OpsOfConcat(ops: Table, a: seq<Token>, b: seq<Token>)
    ensures OpsOf(ops, a + b) == OpsOf(ops, a) + OpsOf(ops, b)
    decreases |a|
  {
    if a == [] {
      assert a + b == b;
    } else {
      assert (a + b)[1..] == a[1..] + b;
      OpsOfConcat(ops, a[1..], b);
    }
  }

  lemma {:induction false} OpsOfPostfix(ops: Table, t: Tree)
    requires WellKinded(ops, t)
    ensures OpsOf(ops, Postfix(t)) == OpsIn(t)
  {
    match t {
      case Word(w) =>
        assert [w][1..] == [];
      case Nul(op) =>
        assert [op][1..] == [];
      case Un(op, a) =>
        OpsOfPostfix(ops, a);
        OpsOfConcat(ops, Postfix(a), [op]);
        assert [op][1..] == [];
      case Bin(op, l, r) =>
        OpsOfPostfix(ops, l);
        OpsOfPostfix(ops, r);
        OpsOfConcat(ops, Postfix(l), Postfix(r));
        OpsOfConcat(ops, Postfix(l) + Postfix(r), [op]);
        assert [op][1..] == [];
    }
  }

  /** Running a compiled tree pushes what direct evaluation gives, or fails with it. */
  ghost predicate Pushes<F>(ops: Table, m: Machine<F>, t: Tree, s: seq<string>, k: nat)
    requires WellKinded(ops, t)
  {
    RunAll(ops, m, Postfix(t), s, k) ==
    match Shown(ops, m, t, k) { case None => None case Some(x) => Some(s + [x]) }
  }

  lemma RunOp<F>(ops: Table, m: Machine<F>, op: Token, s: seq<string>, k: nat)
    requires op in ops
    ensures RunAll(ops, m, [op], s, k) ==
      match Apply(ops, m, op, s, k) { case None => None case Some((f, s')) => Some(s' + [m.show(f)]) }
  {
    assert [op][1..] == [];
  }

  lemma {:induction false} RunTree<F>(ops: Table, m: Machine<F>, t: Tree, s: seq<string>, k: nat)
    requires WellKinded(ops, t)
    ensures Pushes(ops, m, t, s, k)
  {
    match t {
      case Word(w) =>
        assert [w][1..] == [];
      case Nul(op) =>
        RunOp(ops, m, op, s, k);
      case Un(op, a) =>
        RunTree(ops, m, a, s, k);
        RunUn(ops, m, op, a, s, k);
      case Bin(op, l, r) =>
        RunTree(ops, m, l, s, k);
        if x :| Shown(ops, m, l, k) == Some(x) {
          RunTree(ops, m, r, s + [x], k + OpsIn(l));
        }
        RunBin(ops, m, op, l, r, s, k);
    }
  }

  lemma RunUn<F>(ops: Table, m: Machine<F>, op: Token, a: Tree, s: seq<string>, k: nat)
    requires WellKinded(ops, Un(op, a)) && Pushes(ops, m, a, s, k)
    ensures Pushes(ops, m, Un(op, a), s, k)
  {
    match Shown(ops, m, a, k) {
      case None =>
        RunFails(ops, m, Postfix(a), [op], s, k);
        UnFails(ops, m, Un(op, a), k);
      case Some(x) =>
        RunConcat(ops, m, Postfix(a), [op], s, k);
        RunOp(ops, m, op, s + [x], k + OpsOf(ops, Postfix(a)));
        assert Top(s + [x]) == x && Rest(s + [x]) == s;
        assert Operand(ops, m, a, k) == Resolve(m, x);
    }
  }

  lemma RunBin<F>(ops: Table, m: Machine<F>, op: Token, l: Tree, r: Tree, s: seq<string>, k: nat)
    requires WellKinded(ops, Bin(op, l, r)) && Pushes(ops, m, l, s, k)
    requires forall x :: Shown(ops, m, l, k) == Some(x) ==> Pushes(ops, m, r, s + [x], k + OpsIn(l))
    ensures Pushes(ops, m, Bin(op, l, r), s, k)
  {
    var pl, pr := Postfix(l), Postfix(r);
    OpsOfPostfix(ops, l);
    match Shown(ops, m, l, k) {
      case None =>
        RunFails(ops, m, pl, pr, s, k);
        RunFails(ops, m, pl + pr, [op], s, k);
        BinFails(ops, m, Bin(op, l, r), k);
      case Some(x) =>
        RunConcat(ops, m, pl, pr, s, k);
        match Shown(ops, m, r, k + OpsIn(l)) {
          case None =>
            RunFails(ops, m, pl + pr, [op], s, k);
            BinFails(ops, m, Bin(op, l, r), k);
          case Some(y) =>
            RunBinOp(ops, m, op, l, r, s, k, x, y);
        }
    }
  }

  lemma RunBinOp<F>(ops: Table, m: Machine<F>, op: Token, l: Tree, r: Tree, s: seq<string>, k: nat,
                    x: string, y: string)
    requires WellKinded(ops, Bin(op, l, r))
    requires Shown(ops, m, l, k) == Some(x) && Shown(ops, m, r, k + OpsIn(l)) == Some(y)
    requires RunAll(ops, m, Postfix(l) + Postfix(r), s, k) == Some(s + [x] + [y])
    ensures Pushes(ops, m, Bin(op, l, r), s, k)
  {
    var p, s' := Postfix(l) + Postfix(r), s + [x] + [y];
    RunConcat(ops, m, p, [op], s, k);
    RunOp(ops, m, op, s', k + OpsOf(ops, p));
    assert Top(s') == y && Rest(s') == s + [x] && Rest(s + [x]) == s;
    assert Operand(ops, m, l, k) == Resolve(m, x) && Operand(ops, m, r, k + OpsIn(l)) == Resolve(m, y);
  }

  /** Compile and run is direct evaluation: for a tree with an operator at its root, written with enough brackets,
      the machine answers the shown value, and "" exactly when direct evaluation fails. */
  lemma CompileThenRun<F>(ops: Table, m: Machine<F>, e: Infix)
    requires WellKinded(ops, Strip(e)) && Bracketed(ops, e) && !Strip(e).Word?
    ensures Translate(ops, Tokens(e)).Some?
    ensures RunAll(ops, m, Translate(ops, Tokens(e)).value, [], 0).None? <==> Compute(ops, m, Strip(e), 0).None?
    ensures Result(ops, m, Translate(ops, Tokens(e)).value) ==
      match Compute(ops, m, Strip(e), 0) { case None => "" case Some(f) => m.show(f) }
  {
    TranslateTree(ops, e);
    RunTree(ops, m, Strip(e), [], 0);
  }

  // ---- when evaluation fails ----

  /** The operator nodes of a tree, each with the number of operators that run before its subtree. */
  function Nodes(t: Tree, k: nat): set<(Tree, nat)> {
    match t
    case Word(_) => {}
    case Nul(_) => {(t, k)}
    case Un(_, a) => {(t, k)} + Nodes(a, k)
    case Bin(_, l, r) => {(t, k)} + Nodes(l, k) + Nodes(r, k + OpsIn(l))
  }

  /** A node whose operands have been computed, one of which the operator cannot take. */
  ghost predicate BadOperand<F>(ops: Table, m: Machine<F>, t: Tree, k: nat)
    requires WellKinded(ops, t)
  {
    match t
    case Un(op, a) =>
      && Shown(ops, m, a, k).Some?
      && (if ops[op].kind == Aggregate then m.agg(op, Shown(ops, m, a, k).value).None?
          else Operand(ops, m, a, k).None? || m.un(op, Operand(ops, m, a, k).value).None?)
    case Bin(op, l, r) =>
      || (Shown(ops, m, l, k).Some? && Operand(ops, m, l, k).None?)
      || (Shown(ops, m, r, k + OpsIn(l)).Some? && Operand(ops, m, r, k + OpsIn(l)).None?)
    case _ => false
  }

  ghost predicate SomeBad<F>(ops: Table, m: Machine<F>, t: Tree, k: nat) {
    exists n :: n in Nodes(t, k) && WellKinded(ops, n.0) && BadOperand(ops, m, n.0, n.1)
  }

  /** Evaluation fails exactly when the operand of some operator does. */
  lemma {:induction false} FailsExactly<F>(ops: Table, m: Machine<F>, t: Tree, k: nat)
    requires WellKinded(ops, t)
    ensures Shown(ops, m, t, k).None? <==> SomeBad(ops, m, t, k)
  {
    match t {
      case Word(_) =>
      case Nul(_) =>
      case Un(_, a) =>
        FailsExactly(ops, m, a, k);
        UnBad(ops, m, t, k);
        UnFails(ops, m, t, k);
      case Bin(_, l, r) =>
        FailsExactly(ops, m, l, k);
        FailsExactly(ops, m, r, k + OpsIn(l));
        BinBad(ops, m, t, k);
        BinFails(ops, m, t, k);
    }
  }

  lemma UnFails<F>(ops: Table, m: Machine<F>, t: Tree, k: nat)
    requires t.Un? && WellKinded(ops, t)
    ensures Shown(ops, m, t, k).None? <==> Shown(ops, m, t.arg, k).None? || BadOperand(ops, m, t, k)
  {
    var a := Shown(ops, m, t.arg, k);
    assert Operand(ops, m, t.arg, k) == match a { case None => None case Some(x) => Resolve(m, x) };
    assert Shown(ops, m, t, k).None? <==> Compute(ops, m, t, k).None?;
  }

  lemma BinFails<F>(ops: Table, m: Machine<F>, t: Tree, k: nat)
    requires t.Bin? && WellKinded(ops, t)
    ensures Shown(ops, m, t, k).None? <==>
      Shown(ops, m, t.l, k).None? || Shown(ops, m, t.r, k + OpsIn(t.l)).None? || BadOperand(ops, m, t, k)
  {
    var l, r := Shown(ops, m, t.l, k), Shown(ops, m, t.r, k + OpsIn(t.l));
    assert Operand(ops, m, t.l, k) == match l { case None => None case Some(x) => Resolve(m, x) };
    assert Operand(ops, m, t.r, k + OpsIn(t.l)) == match r { case None => None case Some(x) => Resolve(m, x) };
    assert Shown(ops, m, t, k).None? <==> Compute(ops, m, t, k).None?;
  }

  lemma BadWithin<F>(ops: Table, m: Machine<F>, t: Tree, k: nat, sub: Tree, k': nat)
    requires SomeBad(ops, m, sub, k') && Nodes(sub, k') <= Nodes(t, k)
    ensures SomeBad(ops, m, t, k)
  {
    var n :| n in Nodes(sub, k') && WellKinded(ops, n.0) && BadOperand(ops, m, n.0, n.1);
    assert n in Nodes(t, k);
  }

  lemma BadHere<F>(ops: Table, m: Machine<F>, t: Tree, k: nat)
    requires WellKinded(ops, t) && BadOperand(ops, m, t, k)
    ensures SomeBad(ops, m, t, k)
  {
    assert (t, k) in Nodes(t, k);
  }

  lemma UnBad<F>(ops: Table, m: Machine<F>, t: Tree, k: nat)
    requires t.Un? && WellKinded(ops, t)
    ensures SomeBad(ops, m, t, k) <==> BadOperand(ops, m, t, k) || SomeBad(ops, m, t.arg, k)
  {
    if SomeBad(ops, m, t.arg, k) {
      BadWithin(ops, m, t, k, t.arg, k);
    } else if BadOperand(ops, m, t, k) {
      BadHere(ops, m, t, k);
    }
  }

  lemma BinBad<F>(ops: Table, m: Machine<F>, t: Tree, k: nat)
    requires t.Bin? && WellKinded(ops, t)
    ensures SomeBad(ops, m, t, k) <==>
            BadOperand(ops, m, t, k) || SomeBad(ops, m, t.l, k) || SomeBad(ops, m, t.r, k + OpsIn(t.l))
  {
    if SomeBad(ops, m, t.l, k) {
      BadWithin(ops, m, t, k, t.l, k);
    } else if SomeBad(ops, m, t.r, k + OpsIn(t.l)) {
      BadWithin(ops, m, t, k, t.r, k + OpsIn(t.l));
    } else if BadOperand(ops, m, t, k) {
      BadHere(ops, m, t, k);
    }
    if SomeBad(ops, m, t, k) {
      BadSomewhere(ops, m, t, k);
    }
  }

  lemma BadSomewhere<F>(ops: Table, m: Machine<F>, t: Tree, k: nat)
    requires t.Bin? && WellKinded(ops, t) && SomeBad(ops, m, t, k)
    ensures BadOperand(ops, m, t, k) || SomeBad(ops, m, t.l, k) || SomeBad(ops, m, t.r, k + OpsIn(t.l))
  {
    var n := SomeBadNode(ops, m, t, k);
    BadOfBin(ops, m, t, k, k + OpsIn(t.l), n);
  }

  lemma SomeBadNode<F>(ops: Table, m: Machine<F>, t: Tree, k: nat) returns (n: (Tree, nat))
    requires SomeBad(ops, m, t, k)
    ensures n in Nodes(t, k) && WellKinded(ops, n.0) && BadOperand(ops, m, n.0, n.1)
  {
    n :| n in Nodes(t, k) && WellKinded(ops, n.0) && BadOperand(ops, m, n.0, n.1);
  }

  lemma BadOfBin<F>(ops: Table, m: Machine<F>, t: Tree, k: nat, k': nat, n: (Tree, nat))
    requires t.Bin? && WellKinded(ops, t) && k' == k + OpsIn(t.l) && n in Nodes(t, k)
    requires WellKinded(ops, n.0) && BadOperand(ops, m, n.0, n.1)
    ensures BadOperand(ops, m, t, k) || SomeBad(ops, m, t.l, k) || SomeBad(ops, m, t.r, k')
  {
    if n != (t, k) {
      BinNodes(t, k, k', n);
      if n in Nodes(t.l, k) {
        BadAmong(ops, m, t.l, k, n);
      } else {
        BadAmong(ops, m, t.r, k', n);
      }
    }
  }

  lemma BadAmong<F>(ops: Table, m: Machine<F>, t: Tree, k: nat, n: (Tree, nat))
    requires n in Nodes(t, k) && WellKinded(ops, n.0) && BadOperand(ops, m, n.0, n.1)
    ensures SomeBad(ops, m, t, k)
  {
  }

  lemma BinNodes(t: Tree, k: nat, k': nat, n: (Tree, nat))
    requires t.Bin? && k' == k + OpsIn(t.l) && n in Nodes(t, k)
    ensures n == (t, k) || n in Nodes(t.l, k) || n in Nodes(t.r, k')
  {
  }
}
