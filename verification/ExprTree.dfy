/** Expression trees, how they are written, and that the translator compiles them. */
module ExprTree {
  import opened Wrappers
  import opened ExprParse

  datatype Tree =
    | Word(w: Token)
    | Nul(op: Token)
    | Un(op: Token, arg: Tree)
    | Bin(op: Token, l: Tree, r: Tree)

  // A tree as written, with whatever brackets the writer put.
  datatype Infix =
    | IWord(w: Token)
    | INul(op: Token)
    | IUn(op: Token, arg: Infix)
    | IBin(op: Token, l: Infix, r: Infix)
    | IParen(e: Infix)

  function Strip(e: Infix): Tree {
    match e
    case IWord(w) => Word(w)
    case INul(op) => Nul(op)
    case IUn(op, a) => Un(op, Strip(a))
    case IBin(op, l, r) => Bin(op, Strip(l), Strip(r))
    case IParen(e') => Strip(e')
  }

  predicate Is(ops: Table, op: Token, k: Kind) {
    op in ops && ops[op].kind == k
  }

  /** Operators stand where their kind belongs. */
  predicate WellKinded(ops: Table, t: Tree) {
    match t
    case Word(w) => IsOperand(ops, w)
    case Nul(op) => Is(ops, op, Nullary)
    case Un(op, a) => (Is(ops, op, Unary) || Is(ops, op, Aggregate)) && WellKinded(ops, a)
    case Bin(op, l, r) => Is(ops, op, Binary) && WellKinded(ops, l) && WellKinded(ops, r)
  }

  /** How tightly the written form holds together. */
  function Level(ops: Table, e: Infix): nat {
    match e
    case IWord(_) => VALUE + 1
    case INul(_) => VALUE
    case IUn(_, _) => ARGUMENT
    case IBin(op, _, _) => Prec(ops, op)
    case IParen(_) => VALUE + 1
  }

  /** At least the brackets the precedences ask for: operators group to the left, and a function's argument
      is a single value or bracketed. */
  predicate Bracketed(ops: Table, e: Infix) {
    match e
    case IWord(_) => true
    case INul(_) => true
    case IUn(_, a) => Level(ops, a) > ARGUMENT && Bracketed(ops, a)
    case IBin(op, l, r) =>
      Level(ops, l) >= Prec(ops, op) && Level(ops, r) > Prec(ops, op) && Bracketed(ops, l) && Bracketed(ops, r)
    case IParen(e') => Bracketed(ops, e')
  }

  function Tokens(e: Infix): seq<Token> {
    match e
    case IWord(w) => [w]
    case INul(op) => [op]
    case IUn(op, a) => [op] + Tokens(a)
    case IBin(op, l, r) => Tokens(l) + [op] + Tokens(r)
    case IParen(e') => ["("] + Tokens(e') + [")"]
  }

  function Postfix(t: Tree): seq<Token> {
    match t
    case Word(w) => [w]
    case Nul(op) => [op]
    case Un(op, a) => Postfix(a) + [op]
    case Bin(op, l, r) => Postfix(l) + Postfix(r) + [op]
  }

  // ---- the translator on a written tree ----

  /** What has reached the output when the last token of `e` has been read ... */
  function Written(e: Infix): seq<Token> {
    match e
    case IWord(w) => [w]
    case INul(_) => []
    case IUn(_, a) => Written(a)
    case IBin(_, l, r) => Postfix(Strip(l)) + Written(r)
    case IParen(e') => Postfix(Strip(e'))
  }

  /** ... and what is still on the stack. */
  function Waiting(e: Infix): seq<Token> {
    match e
    case IWord(_) => []
    case INul(op) => [op]
    case IUn(op, a) => [op] + Waiting(a)
    case IBin(op, _, r) => [op] + Waiting(r)
    case IParen(_) => []
  }

  lemma {:induction false} ReverseFirst(x: Token, q: seq<Token>)
    ensures Reverse([x] + q) == Reverse(q) + [x]
  {
    if q == [] {
      assert [x] + q == [x] && [x][..0] == [];
    } else {
      var k := |q| - 1;
      assert ([x] + q)[..k + 1] == [x] + q[..k];
      ReverseFirst(x, q[..k]);
    }
  }

  lemma {:induction false} WrittenAndWaiting(e: Infix)
    ensures Written(e) + Reverse(Waiting(e)) == Postfix(Strip(e))
  {
    match e {
      case IWord(w) =>
      case INul(op) =>
        assert [op][..0] == [];
      case IUn(op, a) =>
        WrittenAndWaiting(a);
        ReverseFirst(op, Waiting(a));
      case IBin(op, l, r) =>
        WrittenAndWaiting(r);
        ReverseFirst(op, Waiting(r));
      case IParen(_) =>
    }
  }

  /** All of `q` binds at least as tight as `prec`; being operators, none of them is a bracket. */
  ghost predicate AtLeast(ops: Table, q: seq<Token>, prec: nat) {
    forall i :: 0 <= i < |q| ==> q[i] in ops && Prec(ops, q[i]) >= prec
  }

  lemma {:induction false} WaitingAtLeast(ops: Table, e: Infix)
    requires WellKinded(ops, Strip(e)) && Bracketed(ops, e)
    ensures AtLeast(ops, Waiting(e), Level(ops, e))
  {
    match e {
      case IWord(_) =>
      case INul(_) =>
      case IUn(_, a) => WaitingAtLeast(ops, a);
      case IBin(_, _, r) => WaitingAtLeast(ops, r);
      case IParen(_) =>
    }
  }

  function TopPrec(ops: Table, s: seq<Token>): nat {
    if s == [] then 0 else Prec(ops, s[|s| - 1])
  }

  lemma ReverseLast(oq: seq<Token>, q: seq<Token>)
    requires q != []
    ensures oq + [q[|q| - 1]] + Reverse(q[..|q| - 1]) == oq + Reverse(q)
  {
    Regroup(oq, [q[|q| - 1]], Reverse(q[..|q| - 1]));
  }

  lemma {:induction false} YieldAll(ops: Table, oq: seq<Token>, s: seq<Token>, q: seq<Token>, prec: nat)
    requires AtLeast(ops, q, prec) && TopPrec(ops, s) < prec
    ensures Yield(ops, Stacks(oq, s + q), prec) == Stacks(oq + Reverse(q), s)
    decreases |q|
  {
    if q == [] {
      assert s + q == s && oq + Reverse(q) == oq;
    } else {
      var k := |q| - 1;
      var op := s + q;
      assert op[..|op| - 1] == s + q[..k] && op[|op| - 1] == q[k];
      YieldAll(ops, oq + [q[k]], s, q[..k], prec);
      ReverseLast(oq, q);
    }
  }

  lemma {:induction false} CloseAll(ops: Table, oq: seq<Token>, s: seq<Token>, q: seq<Token>)
    requires AtLeast(ops, q, 0)
    ensures Close(Stacks(oq, s + ["("] + q)) == Some(Stacks(oq + Reverse(q), s))
    decreases |q|
  {
    var op := s + ["("] + q;
    if q == [] {
      assert op[..|op| - 1] == s && op[|op| - 1] == "(";
      assert oq + Reverse(q) == oq;
    } else {
      var k := |q| - 1;
      assert op[..|op| - 1] == s + ["("] + q[..k] && op[|op| - 1] == q[k];
      CloseAll(ops, oq + [q[k]], s, q[..k]);
      ReverseLast(oq, q);
    }
  }

  lemma {:induction false} ShiftConcat(ops: Table, st: Stacks, a: seq<Token>, b: seq<Token>)
    ensures ShiftAll(ops, st, a + b) ==
            match ShiftAll(ops, st, a) { case None => None case Some(st') => ShiftAll(ops, st', b) }
    decreases |a|
  {
    if a == [] {
      assert a + b == b;
    } else {
      assert (a + b)[1..] == a[1..] + b;
      match Shift(ops, st, a[0]) {
        case None =>
        case Some(st') => ShiftConcat(ops, st', a[1..], b);
      }
    }
  }

  lemma ShiftOne(ops: Table, st: Stacks, t: Token)
    ensures ShiftAll(ops, st, [t]) == Shift(ops, st, t)
  {
    assert [t][1..] == [];
  }

  function After(oq: seq<Token>, s: seq<Token>, e: Infix): Stacks {
    Stacks(oq + Written(e), s + Waiting(e))
  }

  /** Reading a written tree on top of operators that bind looser adds just its own output and operators. */
  lemma {:induction false} ShiftTree(ops: Table, oq: seq<Token>, s: seq<Token>, e: Infix)
    requires WellKinded(ops, Strip(e)) && Bracketed(ops, e) && TopPrec(ops, s) < Level(ops, e)
    ensures ShiftAll(ops, Stacks(oq, s), Tokens(e)) == Some(After(oq, s, e))
    decreases e, 1
  {
    match e {
      case IWord(w) =>
        ShiftOne(ops, Stacks(oq, s), w);
        assert s + [] == s;
      case INul(op) =>
        ShiftOne(ops, Stacks(oq, s), op);
        assert oq + [] == oq;
      case IUn(op, a) =>
        ShiftUn(ops, oq, s, op, a);
      case IBin(op, l, r) =>
        ShiftBin(ops, oq, s, op, l, r);
      case IParen(e') =>
        ShiftParen(ops, oq, s, e');
    }
  }

  lemma {:induction false} ShiftUn(ops: Table, oq: seq<Token>, s: seq<Token>, op: Token, a: Infix)
    requires WellKinded(ops, Strip(IUn(op, a))) && Bracketed(ops, IUn(op, a)) && TopPrec(ops, s) < ARGUMENT
    ensures ShiftAll(ops, Stacks(oq, s), Tokens(IUn(op, a))) == Some(After(oq, s, IUn(op, a)))
    decreases IUn(op, a), 0
  {
    ShiftConcat(ops, Stacks(oq, s), [op], Tokens(a));
    ShiftOne(ops, Stacks(oq, s), op);
    ShiftTree(ops, oq, s + [op], a);
    assert s + [op] + Waiting(a) == s + ([op] + Waiting(a));
  }

  lemma {:induction false} ShiftBin(ops: Table, oq: seq<Token>, s: seq<Token>, op: Token, l: Infix, r: Infix)
    requires WellKinded(ops, Strip(IBin(op, l, r))) && Bracketed(ops, IBin(op, l, r))
    requires TopPrec(ops, s) < Prec(ops, op)
    ensures ShiftAll(ops, Stacks(oq, s), Tokens(IBin(op, l, r))) == Some(After(oq, s, IBin(op, l, r)))
    decreases IBin(op, l, r), 0
  {
    var st := Stacks(oq, s);
    ShiftTree(ops, oq, s, l);
    LeftAndOperator(ops, oq, s, op, l);
    ShiftConcat(ops, st, Tokens(l) + [op], Tokens(r));
    ShiftTree(ops, oq + Postfix(Strip(l)), s + [op], r);
    Regroup(oq, Postfix(Strip(l)), Written(r));
    Regroup(s, [op], Waiting(r));
  }

  lemma LeftAndOperator(ops: Table, oq: seq<Token>, s: seq<Token>, op: Token, l: Infix)
    requires op in ops && ops[op].kind.Binary? && WellKinded(ops, Strip(l)) && Bracketed(ops, l)
    requires TopPrec(ops, s) < Prec(ops, op) <= Level(ops, l)
    requires ShiftAll(ops, Stacks(oq, s), Tokens(l)) == Some(After(oq, s, l))
    ensures ShiftAll(ops, Stacks(oq, s), Tokens(l) + [op]) == Some(Stacks(oq + Postfix(Strip(l)), s + [op]))
  {
    ShiftConcat(ops, Stacks(oq, s), Tokens(l), [op]);
    ShiftOne(ops, After(oq, s, l), op);
    OperatorAfter(ops, oq, s, op, l);
  }

  /** An operator completes its left operand. */
  lemma OperatorAfter(ops: Table, oq: seq<Token>, s: seq<Token>, op: Token, l: Infix)
    requires op in ops && ops[op].kind.Binary? && WellKinded(ops, Strip(l)) && Bracketed(ops, l)
    requires TopPrec(ops, s) < Prec(ops, op) <= Level(ops, l)
    ensures Shift(ops, After(oq, s, l), op) == Some(Stacks(oq + Postfix(Strip(l)), s + [op]))
  {
    WaitingAtLeast(ops, l);
    YieldAll(ops, oq + Written(l), s, Waiting(l), Prec(ops, op));
    WholeOutput(oq, l);
  }

  lemma WholeOutput(oq: seq<Token>, e: Infix)
    ensures oq + Written(e) + Reverse(Waiting(e)) == oq + Postfix(Strip(e))
  {
    WrittenAndWaiting(e);
    Regroup(oq, Written(e), Reverse(Waiting(e)));
  }

  lemma {:induction false} ShiftParen(ops: Table, oq: seq<Token>, s: seq<Token>, e: Infix)
    requires WellKinded(ops, Strip(e)) && Bracketed(ops, e)
    ensures ShiftAll(ops, Stacks(oq, s), Tokens(IParen(e))) == Some(After(oq, s, IParen(e)))
    decreases IParen(e), 0
  {
    var st := Stacks(oq, s);
    LevelPositive(ops, e);
    ShiftConcat(ops, st, ["("] + Tokens(e), [")"]);
    ShiftConcat(ops, st, ["("], Tokens(e));
    ShiftOne(ops, st, "(");
    ShiftTree(ops, oq, s + ["("], e);
    ShiftOne(ops, After(oq, s + ["("], e), ")");
    BracketAfter(ops, oq, s, e);
  }

  lemma LevelPositive(ops: Table, e: Infix)
    requires WellKinded(ops, Strip(e))
    ensures Level(ops, e) > 0
  {
  }

  /** A closing bracket completes what it brackets. */
  lemma BracketAfter(ops: Table, oq: seq<Token>, s: seq<Token>, e: Infix)
    requires WellKinded(ops, Strip(e)) && Bracketed(ops, e)
    ensures Shift(ops, After(oq, s + ["("], e), ")") == Some(After(oq, s, IParen(e)))
  {
    var q := Waiting(e);
    assert AtLeast(ops, q, 0) by { WaitingAtLeast(ops, e); }
    CloseAll(ops, oq + Written(e), s, q);
    WholeOutput(oq, e);
    assert s + [] == s;
  }

  /** The translator compiles a tree, however generously bracketed, to its postfix form. */
  lemma TranslateTree(ops: Table, e: Infix)
    requires WellKinded(ops, Strip(e)) && Bracketed(ops, e)
    ensures Translate(ops, Tokens(e)) == Some(Postfix(Strip(e)))
  {
    LevelPositive(ops, e);
    ShiftTree(ops, [], [], e);
    assert [] + Written(e) == Written(e) && [] + Waiting(e) == Waiting(e);
    WrittenAndWaiting(e);
  }

  // ---- every tree can be written ----

  function Atom(ops: Table, e: Infix, least: nat): Infix {
    if Level(ops, e) >= least then e else IParen(e)
  }

  /** Brackets only where they are needed. */
  function Render(ops: Table, t: Tree): Infix {
    match t
    case Word(w) => IWord(w)
    case Nul(op) => INul(op)
    case Un(op, a) => IUn(op, Atom(ops, Render(ops, a), ARGUMENT + 1))
    case Bin(op, l, r) =>
      IBin(op, Atom(ops, Render(ops, l), Prec(ops, op)), Atom(ops, Render(ops, r), Prec(ops, op) + 1))
  }

  lemma {:induction false} RenderKeeps(ops: Table, t: Tree)
    requires WellKinded(ops, t)
    ensures Strip(Render(ops, t)) == t && Bracketed(ops, Render(ops, t))
  {
    match t {
      case Word(_) =>
      case Nul(_) =>
      case Un(_, a) => RenderKeeps(ops, a);
      case Bin(_, l, r) =>
        RenderKeeps(ops, l);
        RenderKeeps(ops, r);
    }
  }
}
