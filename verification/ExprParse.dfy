/** The expression translator: infix tokens to a postfix program, by operator precedence. */
module ExprParse {
  import opened Wrappers

  type Token = string

  datatype Kind = Nullary | Unary | Aggregate | Binary

  datatype Op = Op(prec: nat, kind: Kind)

  const ARGUMENT := 20    // precedence of functions and group operators
  const VALUE := 50       // precedence of time and rand

  /** What the translator needs of its operator table. */
  ghost predicate GoodTable(ops: map<Token, Op>) {
    && "(" !in ops && ")" !in ops
    && forall t :: t in ops ==>
      match ops[t].kind
      case Nullary => ops[t].prec == VALUE
      case Binary => 0 < ops[t].prec < ARGUMENT
      case _ => ops[t].prec == ARGUMENT
  }

  type Table = ops: map<Token, Op> | GoodTable(ops) witness map[]

  const OPS: map<Token, Op> := map[
    "time" := Op(50, Nullary), "rand" := Op(50, Nullary),
    "SUM" := Op(20, Aggregate), "AVE" := Op(20, Aggregate), "AVG" := Op(20, Aggregate),
    "MIN" := Op(20, Aggregate), "MAX" := Op(20, Aggregate), "COUNT" := Op(20, Aggregate),
    "NSUM" := Op(20, Aggregate), "NAVE" := Op(20, Aggregate), "NAVG" := Op(20, Aggregate),
    "NMIN" := Op(20, Aggregate), "NMAX" := Op(20, Aggregate), "NCOUNT" := Op(20, Aggregate),
    "NUP" := Op(20, Aggregate), "NDOWN" := Op(20, Aggregate), "NOVERRIDE" := Op(20, Aggregate),
    "ceil" := Op(20, Unary), "floor" := Op(20, Unary), "abs" := Op(20, Unary),
    "sin" := Op(20, Unary), "tan" := Op(20, Unary), "cos" := Op(20, Unary),
    "log" := Op(20, Unary), "exp" := Op(20, Unary), "sqrt" := Op(20, Unary),
    "^" := Op(16, Binary), "*" := Op(15, Binary), "/" := Op(14, Binary),
    "%" := Op(13, Binary), "+" := Op(12, Binary), "-" := Op(12, Binary)]

  lemma OpsIsGood()
    ensures GoodTable(OPS)
  {
  }

  /** A token that is no operator, an opening bracket included, has precedence 0. */
  function Prec(ops: Table, t: Token): nat {
    if t in ops then ops[t].prec else 0
  }

  predicate IsOperand(ops: Table, t: Token) {
    t != "(" && t != ")" && t !in ops
  }

  function Reverse(q: seq<Token>): seq<Token> {
    if q == [] then [] else [q[|q| - 1]] + Reverse(q[..|q| - 1])
  }

  lemma {:induction false} ReversePermutes(q: seq<Token>)
    ensures multiset(Reverse(q)) == multiset(q)
  {
    if q != [] {
      assert q == q[..|q| - 1] + [q[|q| - 1]];
      ReversePermutes(q[..|q| - 1]);
    }
  }

  // ---- the translator, one token at a time ----

  // The output queue and the operator stack, its top at the end.
  datatype Stacks = Stacks(oq: seq<Token>, op: seq<Token>)

  /** A closing bracket: operators go to the output up to the matching opening bracket. */
  function Close(st: Stacks): Option<Stacks>
    decreases |st.op|
  {
    if st.op == [] then None
    else
      var k := |st.op| - 1;
      if st.op[k] == "(" then Some(Stacks(st.oq, st.op[..k]))
      else Close(Stacks(st.oq + [st.op[k]], st.op[..k]))
  }

  /** An operator: those on the stack that bind as tight or tighter go to the output. */
  function Yield(ops: Table, st: Stacks, prec: nat): Stacks
    decreases |st.op|
  {
    if st.op == [] || Prec(ops, st.op[|st.op| - 1]) < prec then st
    else
      var k := |st.op| - 1;
      Yield(ops, Stacks(st.oq + [st.op[k]], st.op[..k]), prec)
  }

  function Shift(ops: Table, st: Stacks, t: Token): Option<Stacks> {
    if t == "(" then Some(st.(op := st.op + [t]))
    else if t == ")" then Close(st)
    else if t !in ops then Some(st.(oq := st.oq + [t]))
    else
      var st' := Yield(ops, st, ops[t].prec);
      Some(st'.(op := st'.op + [t]))
  }

  function ShiftAll(ops: Table, st: Stacks, tok: seq<Token>): Option<Stacks>
    decreases |tok|
  {
    if tok == [] then Some(st)
    else match Shift(ops, st, tok[0])
      case None => None
      case Some(st') => ShiftAll(ops, st', tok[1..])
  }

  function Flush(st: Stacks): seq<Token> {
    st.oq + Reverse(st.op)
  }

  /** The postfix program, or None for a closing bracket too many. */
  function Translate(ops: Table, tok: seq<Token>): Option<seq<Token>> {
    match ShiftAll(ops, Stacks([], []), tok)
    case None => None
    case Some(st) => Some(Flush(st))
  }

  predicate NamesObject(t: Token) {
    "Top" <= t
  }

  /** The monitored objects an expression refers to. */
  function Objects(ops: Table, tok: seq<Token>): set<Token> {
    set t | t in tok && IsOperand(ops, t) && NamesObject(t)
  }

  lemma ObjectsGrow(ops: Table, tok: seq<Token>, n: nat)
    requires n < |tok|
    ensures Objects(ops, tok[..n + 1])
         == Objects(ops, tok[..n]) + if IsOperand(ops, tok[n]) && NamesObject(tok[n]) then {tok[n]} else {}
  {
    assert tok[..n + 1] == tok[..n] + [tok[n]];
  }

  method Parse(ops: Table, tokens: seq<Token>) returns (r: Option<seq<Token>>, objs: set<Token>)
    ensures r == Translate(ops, tokens)
    ensures r.Some? ==> objs == Objects(ops, tokens)
  {
    var tok := tokens;
    var oq, op := [], [];
    objs := {};
    while |tok| != 0
      invariant |tok| <= |tokens| && tok == tokens[|tokens| - |tok|..]
      invariant ShiftAll(ops, Stacks([], []), tokens) == ShiftAll(ops, Stacks(oq, op), tok)
      invariant objs == Objects(ops, tokens[..|tokens| - |tok|])
    {
      var t := tok[0];
      ghost var before := Stacks(oq, op);
      ObjectsGrow(ops, tokens, |tokens| - |tok|);
      tok := tok[1..];
      if t == "(" {
        op := op + [t];
        continue;
      }
      if t == ")" {
        var matched := false;
        while |op| != 0
          invariant !matched
          invariant Close(Stacks(oq, op)) == Close(before)
        {
          var nt := op[|op| - 1];
          op := op[..|op| - 1];
          if nt == "(" {
            matched := true;
            break;
          }
          oq := oq + [nt];
        }
        if !matched {
          return None, {};
        }
        continue;
      }
      if t !in ops {
        oq := oq + [t];
        if NamesObject(t) {
          objs := objs + {t};
        }
        continue;
      }
      while |op| != 0
        invariant Yield(ops, Stacks(oq, op), ops[t].prec) == Yield(ops, before, ops[t].prec)
      {
        var o := op[|op| - 1];
        if Prec(ops, o) < ops[t].prec {
          break;
        }
        oq := oq + [o];
        op := op[..|op| - 1];
      }
      op := op + [t];
    }
    assert tokens[..|tokens|] == tokens;
    ghost var st := Stacks(oq, op);
    while |op| != 0
      invariant Flush(Stacks(oq, op)) == Flush(st)
    {
      var o := op[|op| - 1];
      op := op[..|op| - 1];
      oq := oq + [o];
    }
    assert oq + [] == oq;
    return Some(oq), objs;
  }

  // ---- any token sequence, well formed or not ----

  /** How often `x` occurs. */
  function Count(tok: seq<Token>, x: Token): nat {
    if tok == [] then 0 else (if tok[0] == x then 1 else 0) + Count(tok[1..], x)
  }

  /** Some prefix closes more brackets than `open` plus those it opens itself. */
  ghost predicate OverCloses(tok: seq<Token>, open: nat) {
    exists k :: 0 <= k <= |tok| && Count(tok[..k], ")") > open + Count(tok[..k], "(")
  }

  lemma OverClosesFirst(tok: seq<Token>, open: nat)
    requires tok != []
    ensures OverCloses(tok, open) <==>
            if tok[0] == "(" then OverCloses(tok[1..], open + 1)
            else if tok[0] == ")" then open == 0 || OverCloses(tok[1..], open - 1)
            else OverCloses(tok[1..], open)
  {
    forall k | 0 < k <= |tok| ensures tok[..k][1..] == tok[1..][..k - 1] {
    }
    if k :| 0 <= k <= |tok| && Count(tok[..k], ")") > open + Count(tok[..k], "(") {
      assert tok[..k][1..] == tok[1..][..k - 1];
    }
    if tok[0] == ")" && open == 0 {
      assert tok[..1][1..] == [];
      assert Count(tok[..1], ")") > Count(tok[..1], "(");
    } else {
      var open' := if tok[0] == "(" then open + 1 else if tok[0] == ")" then open - 1 else open;
      if k :| 0 <= k <= |tok| - 1 && Count(tok[1..][..k], ")") > open' + Count(tok[1..][..k], "(") {
        assert tok[..k + 1][1..] == tok[1..][..k];
        assert Count(tok[..k + 1], ")") > open + Count(tok[..k + 1], "(");
      }
    }
  }

  lemma {:induction false} CountLast(q: seq<Token>, x: Token)
    ensures Count(q, x) == multiset(q)[x]
  {
    if q != [] {
      assert q == [q[0]] + q[1..];
      CountLast(q[1..], x);
    }
  }

  /** Opening brackets still on the stack. */
  function Open(st: Stacks): nat {
    multiset(st.op)["("]
  }

  lemma {:induction false} CloseEffect(ops: Table, st: Stacks)
    ensures Close(st).None? <==> Open(st) == 0
    ensures Close(st).Some? ==>
      var st' := Close(st).value;
      && multiset(st'.oq) + multiset(st'.op) + multiset{"("} == multiset(st.oq) + multiset(st.op)
      && Open(st') == Open(st) - 1
    decreases |st.op|
  {
    if st.op != [] {
      var k := |st.op| - 1;
      assert st.op == st.op[..k] + [st.op[k]];
      if st.op[k] != "(" {
        CloseEffect(ops, Stacks(st.oq + [st.op[k]], st.op[..k]));
      }
    }
  }

  lemma {:induction false} YieldEffect(ops: Table, st: Stacks, prec: nat)
    requires prec > 0
    ensures var st' := Yield(ops, st, prec);
            && multiset(st'.oq) + multiset(st'.op) == multiset(st.oq) + multiset(st.op)
            && Open(st') == Open(st)
    decreases |st.op|
  {
    if st.op != [] {
      var k := |st.op| - 1;
      assert st.op == st.op[..k] + [st.op[k]];
      if Prec(ops, st.op[k]) >= prec {
        YieldEffect(ops, Stacks(st.oq + [st.op[k]], st.op[..k]), prec);
      }
    }
  }

  lemma ShiftEffect(ops: Table, st: Stacks, t: Token)
    ensures Shift(ops, st, t).None? <==> t == ")" && Open(st) == 0
    ensures Shift(ops, st, t).Some? ==>
      var st' := Shift(ops, st, t).value;
      && multiset(st'.oq) + multiset(st'.op) + (if t == ")" then multiset{"(", ")"} else multiset{})
         == multiset(st.oq) + multiset(st.op) + multiset{t}
      && Open(st') == Open(st) + (if t == "(" then 1 else 0) - (if t == ")" then 1 else 0)
  {
    if t == ")" {
      CloseEffect(ops, st);
    } else if t in ops {
      YieldEffect(ops, st, ops[t].prec);
    }
  }

  lemma {:induction false} FailsWhenOverClosed(ops: Table, st: Stacks, tok: seq<Token>)
    ensures ShiftAll(ops, st, tok).None? <==> OverCloses(tok, Open(st))
    decreases |tok|
  {
    if tok == [] {
      assert tok[..0] == [];
    } else {
      ShiftEffect(ops, st, tok[0]);
      OverClosesFirst(tok, Open(st));
      if Shift(ops, st, tok[0]).Some? {
        FailsWhenOverClosed(ops, Shift(ops, st, tok[0]).value, tok[1..]);
      }
    }
  }

  /** Translation fails exactly when some prefix closes more brackets than it opens. */
  lemma TranslateFails(ops: Table, tok: seq<Token>)
    ensures Translate(ops, tok).None? <==> OverCloses(tok, 0)
  {
    FailsWhenOverClosed(ops, Stacks([], []), tok);
  }

  lemma OneShiftKeeps(ops: Table, st: Stacks, t: Token, x: Token)
    requires Shift(ops, st, t).Some?
    ensures
      var st' := Shift(ops, st, t).value;
      multiset(st'.oq)[x] + multiset(st'.op)[x] + (if t == ")" && (x == "(" || x == ")") then 1 else 0)
      == multiset(st.oq)[x] + multiset(st.op)[x] + if t == x then 1 else 0
  {
    ShiftEffect(ops, st, t);
    var st' := Shift(ops, st, t).value;
    var both := multiset(st'.oq) + multiset(st'.op) + (if t == ")" then multiset{"(", ")"} else multiset{});
    assert both[x] == (multiset(st.oq) + multiset(st.op) + multiset{t})[x];
  }

  lemma {:induction false} ShiftAllKeeps(ops: Table, st: Stacks, tok: seq<Token>, x: Token)
    requires ShiftAll(ops, st, tok).Some?
    ensures
      var out := Flush(ShiftAll(ops, st, tok).value);
      multiset(out)[x] + (if x == "(" || x == ")" then Count(tok, ")") else 0)
      == multiset(st.oq)[x] + multiset(st.op)[x] + Count(tok, x)
    decreases |tok|
  {
    if tok == [] {
      ReversePermutes(st.op);
      assert multiset(Flush(st)) == multiset(st.oq) + multiset(Reverse(st.op));
    } else {
      ShiftEffect(ops, st, tok[0]);
      OneShiftKeeps(ops, st, tok[0], x);
      ShiftAllKeeps(ops, Shift(ops, st, tok[0]).value, tok[1..], x);
    }
  }

  /** Otherwise the program holds every token of the input as often as the input does, except that each closing
      bracket takes itself and one opening bracket away. */
  lemma TranslatePermutes(ops: Table, tok: seq<Token>, x: Token)
    requires Translate(ops, tok).Some?
    ensures multiset(Translate(ops, tok).value)[x]
         == Count(tok, x) - if x == "(" || x == ")" then Count(tok, ")") else 0
  {
    ShiftAllKeeps(ops, Stacks([], []), tok, x);
  }

  /** The operands, in order. */
  function Operands(ops: Table, tok: seq<Token>): seq<Token> {
    if tok == [] then []
    else Operands(ops, tok[..|tok| - 1]) + if IsOperand(ops, tok[|tok| - 1]) then [tok[|tok| - 1]] else []
  }

  lemma {:induction false} OperandsConcat(ops: Table, a: seq<Token>, b: seq<Token>)
    ensures Operands(ops, a + b) == Operands(ops, a) + Operands(ops, b)
  {
    if b == [] {
      assert a + b == a;
    } else {
      assert (a + b)[..|a + b| - 1] == a + b[..|b| - 1];
      OperandsConcat(ops, a, b[..|b| - 1]);
    }
  }

  ghost predicate NoOperand(ops: Table, q: seq<Token>) {
    forall i :: 0 <= i < |q| ==> !IsOperand(ops, q[i])
  }

  lemma {:induction false} NoOperands(ops: Table, q: seq<Token>)
    requires NoOperand(ops, q)
    ensures Operands(ops, q) == [] && NoOperand(ops, Reverse(q))
  {
    if q != [] {
      NoOperands(ops, q[..|q| - 1]);
    }
  }

  lemma {:induction false} CloseOperands(ops: Table, st: Stacks)
    requires NoOperand(ops, st.op) && Close(st).Some?
    ensures NoOperand(ops, Close(st).value.op)
    ensures Operands(ops, Close(st).value.oq) == Operands(ops, st.oq)
    decreases |st.op|
  {
    var k := |st.op| - 1;
    if st.op[k] != "(" {
      OperandsConcat(ops, st.oq, [st.op[k]]);
      CloseOperands(ops, Stacks(st.oq + [st.op[k]], st.op[..k]));
    }
  }

  lemma {:induction false} YieldOperands(ops: Table, st: Stacks, prec: nat)
    requires NoOperand(ops, st.op)
    ensures NoOperand(ops, Yield(ops, st, prec).op)
    ensures Operands(ops, Yield(ops, st, prec).oq) == Operands(ops, st.oq)
    decreases |st.op|
  {
    if st.op != [] && Prec(ops, st.op[|st.op| - 1]) >= prec {
      var k := |st.op| - 1;
      OperandsConcat(ops, st.oq, [st.op[k]]);
      YieldOperands(ops, Stacks(st.oq + [st.op[k]], st.op[..k]), prec);
    }
  }

  lemma ShiftOperands(ops: Table, st: Stacks, t: Token)
    requires NoOperand(ops, st.op) && Shift(ops, st, t).Some?
    ensures NoOperand(ops, Shift(ops, st, t).value.op)
    ensures Operands(ops, Shift(ops, st, t).value.oq) == Operands(ops, st.oq) + Operands(ops, [t])
  {
    assert [t][..0] == [];
    if t == ")" {
      CloseOperands(ops, st);
    } else if t in ops {
      YieldOperands(ops, st, ops[t].prec);
    } else {
      OperandsConcat(ops, st.oq, [t]);
    }
  }

  lemma FlushOperands(ops: Table, st: Stacks)
    requires NoOperand(ops, st.op)
    ensures Operands(ops, Flush(st)) == Operands(ops, st.oq)
  {
    NoOperands(ops, st.op);
    NoOperands(ops, Reverse(st.op));
    OperandsConcat(ops, st.oq, Reverse(st.op));
  }

  lemma OperandsFirst(ops: Table, tok: seq<Token>)
    requires tok != []
    ensures Operands(ops, tok) == Operands(ops, [tok[0]]) + Operands(ops, tok[1..])
  {
    assert tok == [tok[0]] + tok[1..];
    OperandsConcat(ops, [tok[0]], tok[1..]);
  }

  lemma Regroup(a: seq<Token>, b: seq<Token>, c: seq<Token>)
    ensures (a + b) + c == a + (b + c)
  {
  }

  lemma {:induction false} ShiftAllOperands(ops: Table, st: Stacks, tok: seq<Token>)
    requires NoOperand(ops, st.op) && ShiftAll(ops, st, tok).Some?
    ensures Operands(ops, Flush(ShiftAll(ops, st, tok).value)) == Operands(ops, st.oq) + Operands(ops, tok)
    decreases |tok|
  {
    if tok == [] {
      FlushOperands(ops, st);
    } else {
      var st', rest := Shift(ops, st, tok[0]).value, tok[1..];
      assert ShiftAll(ops, st, tok) == ShiftAll(ops, st', rest);
      ShiftOperands(ops, st, tok[0]);
      ShiftAllOperands(ops, st', rest);
      OperandsFirst(ops, tok);
      Regroup(Operands(ops, st.oq), Operands(ops, [tok[0]]), Operands(ops, rest));
    }
  }

  /** Operands keep their order. */
  lemma TranslateKeepsOperands(ops: Table, tok: seq<Token>)
    requires Translate(ops, tok).Some?
    ensures Operands(ops, Translate(ops, tok).value) == Operands(ops, tok)
  {
    ShiftAllOperands(ops, Stacks([], []), tok);
  }
}
