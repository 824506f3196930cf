/** The program's own operators: which there are, what each takes, and how tightly the binary ones bind. */
module ExprTable {
  import opened Wrappers
  import opened ExprParse
  import opened ExprTree
  import opened ExprTokens
  import opened ExprRun

  const CLOCKS: set<Token> := {"time", "rand"}
  const FUNCTIONS: set<Token> := {"ceil", "floor", "abs", "sin", "tan", "cos", "log", "exp", "sqrt"}
  const GROUPS: set<Token> :=
    {"SUM", "AVE", "AVG", "MIN", "MAX", "COUNT", "NSUM", "NAVE", "NAVG", "NMIN", "NMAX", "NCOUNT", "NUP", "NDOWN", "NOVERRIDE"}
  const ARITHMETIC: set<Token> := {"^", "*", "/", "%", "+", "-"}

  /** The operators, each of its kind, and no others. */
  lemma OpsAre(t: Token)
    ensures t in OPS <==> t in CLOCKS || t in FUNCTIONS || t in GROUPS || t in ARITHMETIC
    ensures Is(OPS, t, Nullary) <==> t in CLOCKS
    ensures Is(OPS, t, Unary) <==> t in FUNCTIONS
    ensures Is(OPS, t, Aggregate) <==> t in GROUPS
    ensures Is(OPS, t, Binary) <==> t in ARITHMETIC
  {
  }

  /** Powers before products before quotients before remainders before sums and differences. */
  function Place(op: Token): nat
    requires op in ARITHMETIC
  {
    if op == "^" then 0 else if op == "*" then 1 else if op == "/" then 2 else if op == "%" then 3 else 4
  }

  /** The program's table, as one that is in order. */
  const PROGRAM: Table := OPS

  lemma Precedence(p: Token, q: Token)
    requires p in ARITHMETIC && q in ARITHMETIC
    ensures Is(PROGRAM, p, Binary) && Is(PROGRAM, q, Binary)
    ensures Prec(PROGRAM, p) >= Prec(PROGRAM, q) <==> Place(p) <= Place(q)
  {
    OpsAre(p);
    OpsAre(q);
  }

  /** Of two operators in a row the one that comes first in that order goes first, and of equals the left one. */
  lemma Neighbours(a: Token, p: Token, b: Token, q: Token, c: Token)
    requires p in ARITHMETIC && q in ARITHMETIC && IsOperand(PROGRAM, a) && IsOperand(PROGRAM, b) && IsOperand(PROGRAM, c)
    ensures Translate(PROGRAM, [a, p, b, q, c]) == Some(if Place(p) <= Place(q) then [a, b, p, c, q] else [a, b, c, q, p])
  {
    Precedence(p, q);
    InRow(PROGRAM, a, p, b, q, c);
  }

  /** For any table of operators: by precedence. */
  lemma InRow(ops: Table, a: Token, p: Token, b: Token, q: Token, c: Token)
    requires Is(ops, p, Binary) && Is(ops, q, Binary) && IsOperand(ops, a) && IsOperand(ops, b) && IsOperand(ops, c)
    ensures Translate(ops, [a, p, b, q, c])
         == Some(if Prec(ops, p) >= Prec(ops, q) then [a, b, p, c, q] else [a, b, c, q, p])
  {
    if Prec(ops, p) >= Prec(ops, q) {
      var l := IBin(p, IWord(a), IWord(b));
      Pair(ops, p, IWord(a), IWord(b), [a], [b], [a], [b]);
      assert [a] + [p] + [b] == [a, p, b] && [a] + [b] + [p] == [a, b, p];
      Pair(ops, q, l, IWord(c), [a, p, b], [c], [a, b, p], [c]);
      assert [a, p, b] + [q] + [c] == [a, p, b, q, c] && [a, b, p] + [c] + [q] == [a, b, p, c, q];
      TranslateTree(ops, IBin(q, l, IWord(c)));
    } else {
      var r := IBin(q, IWord(b), IWord(c));
      Pair(ops, q, IWord(b), IWord(c), [b], [c], [b], [c]);
      assert [b] + [q] + [c] == [b, q, c] && [b] + [c] + [q] == [b, c, q];
      Pair(ops, p, IWord(a), r, [a], [b, q, c], [a], [b, c, q]);
      assert [a] + [p] + [b, q, c] == [a, p, b, q, c] && [a] + [b, c, q] + [p] == [a, b, c, q, p];
      TranslateTree(ops, IBin(p, IWord(a), r));
    }
  }

  lemma Pair(ops: Table, op: Token, l: Infix, r: Infix, lt: seq<Token>, rt: seq<Token>, lp: seq<Token>, rp: seq<Token>)
    requires Is(ops, op, Binary) && WellKinded(ops, Strip(l)) && WellKinded(ops, Strip(r))
    requires Bracketed(ops, l) && Bracketed(ops, r) && Level(ops, l) >= Prec(ops, op) && Level(ops, r) > Prec(ops, op)
    requires Tokens(l) == lt && Tokens(r) == rt && Postfix(Strip(l)) == lp && Postfix(Strip(r)) == rp
    ensures var e := IBin(op, l, r);
            && WellKinded(ops, Strip(e)) && Bracketed(ops, e)
            && Tokens(e) == lt + [op] + rt && Postfix(Strip(e)) == lp + rp + [op]
  {
  }

  /** A function, or a group's operator, takes the one value behind it before any of them. */
  lemma FunctionFirst(f: Token, a: Token, q: Token, b: Token)
    requires (f in FUNCTIONS || f in GROUPS) && q in ARITHMETIC && IsOperand(PROGRAM, a) && IsOperand(PROGRAM, b)
    ensures Translate(PROGRAM, [f, a, q, b]) == Some([a, f, b, q])
  {
    OpsAre(f);
    Precedence(q, q);
    BehindFunction(PROGRAM, f, a, q, b);
  }

  lemma BehindFunction(ops: Table, f: Token, a: Token, q: Token, b: Token)
    requires (Is(ops, f, Unary) || Is(ops, f, Aggregate)) && Is(ops, q, Binary) && IsOperand(ops, a) && IsOperand(ops, b)
    ensures Translate(ops, [f, a, q, b]) == Some([a, f, b, q])
  {
    var l := IUn(f, IWord(a));
    assert Tokens(l) == [f, a] && Postfix(Strip(l)) == [a, f] && Strip(l) == Un(f, Word(a));
    Pair(ops, q, l, IWord(b), [f, a], [b], [a, f], [b]);
    assert [f, a] + [q] + [b] == [f, a, q, b] && [a, f] + [b] + [q] == [a, f, b, q];
    TranslateTree(ops, IBin(q, l, IWord(b)));
  }

  /** Two operators in a row give one of the two results: that of the one that goes first, shown and read back, is an operand
      of the other. */
  lemma InTurn<F>(m: Machine<F>, a: Token, p: Token, b: Token, q: Token, c: Token, x: F, y: F, z: F, u: F)
    requires p in ARITHMETIC && q in ARITHMETIC && IsOperand(PROGRAM, a) && IsOperand(PROGRAM, b) && IsOperand(PROGRAM, c)
    requires Resolve(m, a) == Some(x) && Resolve(m, b) == Some(y) && Resolve(m, c) == Some(z)
    requires Resolve(m, m.show(if Place(p) <= Place(q) then m.bin(p, x, y) else m.bin(q, y, z))) == Some(u)
    ensures var r := Translate(PROGRAM, [a, p, b, q, c]);
            r.Some? && Result(PROGRAM, m, r.value) == m.show(if Place(p) <= Place(q) then m.bin(q, u, z) else m.bin(p, x, u))
  {
    Neighbours(a, p, b, q, c);
    Precedence(p, q);
    if Place(p) <= Place(q) {
      LeftFirst(PROGRAM, m, a, p, b, q, c, x, y, z, u);
    } else {
      RightFirst(PROGRAM, m, a, p, b, q, c, x, y, z, u);
    }
  }

  /** An operator behind its two operands leaves its result in their place. */
  lemma Calculated<F>(ops: Table, m: Machine<F>, a: Token, b: Token, op: Token, rest: seq<Token>, s: seq<string>, k: nat,
                      x: F, y: F)
    requires Is(ops, op, Binary) && a !in ops && b !in ops && Resolve(m, a) == Some(x) && Resolve(m, b) == Some(y)
    ensures RunAll(ops, m, [a, b, op] + rest, s, k) == RunAll(ops, m, rest, s + [m.show(m.bin(op, x, y))], k + 1)
  {
    assert [a, b, op] + rest == [a] + ([b, op] + rest) && [b, op] + rest == [b] + ([op] + rest);
    Shifts(ops, m, a, [b, op] + rest, s, k);
    Shifts(ops, m, b, [op] + rest, s + [a], k);
    assert ([op] + rest)[1..] == rest;
    assert Rest(s + [a] + [b]) == s + [a] && Rest(s + [a]) == s;
  }

  lemma LastOfTwo<F>(ops: Table, m: Machine<F>, a: string, b: string, op: Token, k: nat, x: F, y: F)
    requires Is(ops, op, Binary) && Resolve(m, a) == Some(x) && Resolve(m, b) == Some(y)
    ensures RunAll(ops, m, [op], [a, b], k) == Some([m.show(m.bin(op, x, y))])
  {
    Last(ops, m, op, [a, b], k);
    assert Rest([a, b]) == [a] && Rest([a]) == [];
    assert [] + [m.show(m.bin(op, x, y))] == [m.show(m.bin(op, x, y))];
  }

  lemma LeftFirst<F>(ops: Table, m: Machine<F>, a: Token, p: Token, b: Token, q: Token, c: Token, x: F, y: F, z: F, u: F)
    requires Is(ops, p, Binary) && Is(ops, q, Binary) && a !in ops && b !in ops && c !in ops
    requires Resolve(m, a) == Some(x) && Resolve(m, b) == Some(y) && Resolve(m, c) == Some(z)
    requires Resolve(m, m.show(m.bin(p, x, y))) == Some(u)
    ensures Result(ops, m, [a, b, p, c, q]) == m.show(m.bin(q, u, z))
  {
    var v := m.show(m.bin(p, x, y));
    assert [a, b, p, c, q] == [a, b, p] + [c, q];
    Calculated(ops, m, a, b, p, [c, q], [], 0, x, y);
    assert [] + [v] == [v] && [c, q] == [c] + [q] && [v] + [c] == [v, c];
    Shifts(ops, m, c, [q], [v], 1);
    LastOfTwo(ops, m, v, c, q, 1, u, z);
  }

  lemma RightFirst<F>(ops: Table, m: Machine<F>, a: Token, p: Token, b: Token, q: Token, c: Token, x: F, y: F, z: F, u: F)
    requires Is(ops, p, Binary) && Is(ops, q, Binary) && a !in ops && b !in ops && c !in ops
    requires Resolve(m, a) == Some(x) && Resolve(m, b) == Some(y) && Resolve(m, c) == Some(z)
    requires Resolve(m, m.show(m.bin(q, y, z))) == Some(u)
    ensures Result(ops, m, [a, b, c, q, p]) == m.show(m.bin(p, x, u))
  {
    var v := m.show(m.bin(q, y, z));
    assert [a, b, c, q, p] == [a] + [b, c, q, p] && [b, c, q, p] == [b, c, q] + [p];
    Shifts(ops, m, a, [b, c, q, p], [], 0);
    assert [] + [a] == [a] && [a] + [v] == [a, v];
    Calculated(ops, m, b, c, q, [p], [a], 0, y, z);
    LastOfTwo(ops, m, a, v, p, 1, x, u);
  }

  /** The characters that are tokens by themselves are the brackets and these operators. */
  lemma SymbolsAreOperators(c: char)
    ensures IsSymbol(c) <==> c == '(' || c == ')' || [c] in ARITHMETIC
  {
    assert [c][0] == c;
  }

  /** Names of monitored objects begin with the letters of the topmost one. */
  lemma ObjectsBeginWithTop(t: Token)
    ensures NamesObject(t) <==> |t| >= 3 && t[0] == 'T' && t[1] == 'o' && t[2] == 'p'
  {
    if |t| >= 3 && t[0] == 'T' && t[1] == 'o' && t[2] == 'p' {
      assert t[..3] == "Top";
    }
  }
}
