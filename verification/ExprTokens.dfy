/** Cutting expression text into tokens, and that the cutter recovers every text laid out from tokens. */
module ExprTokens {
  import opened Wrappers
  import opened ExprParse
  import opened ExprTree
  import opened ExprRun
  import Blanks

  predicate IsSpace(c: char) {
    var u := c as int;
    || 9 <= u <= 13 || u == 0x20 || u == 0x85 || u == 0xA0 || u == 0x1680 || 0x2000 <= u <= 0x200A
    || u == 0x2028 || u == 0x2029 || u == 0x202F || u == 0x205F || u == 0x3000
  }

  predicate IsBlank(c: char) {
    c == ' ' || c == '\t'
  }

  /** Space and tabulator. */
  lemma BlanksAre(c: char)
    ensures IsBlank(c) <==> c as int == 32 || c as int == 9
    ensures IsBlank(c) ==> IsSpace(c)
  {
  }

  predicate IsSymbol(c: char) {
    c in "()+-*/%^"
  }

  predicate IsDelimiter(c: char) {
    IsSymbol(c) || IsBlank(c)
  }

  function Trim(s: string): (r: string)
    ensures |r| <= |s|
  {
    Blanks.Trim(IsSpace, s)
  }

  /** The position of the first `c`. */
  function IndexByte(s: string, c: char): (r: Option<nat>)
    ensures match r
            case None => c !in s
            case Some(e) => e < |s| && s[e] == c && c !in s[..e]
  {
    if s == "" then None
    else if s[0] == c then Some(0)
    else match IndexByte(s[1..], c)
      case None => None
      case Some(e) => assert s[..e + 1] == [s[0]] + s[1..][..e]; Some(e + 1)
  }

  ghost predicate NoDelimiter(s: string) {
    forall i :: 0 <= i < |s| ==> !IsDelimiter(s[i])
  }

  /** The position of the first delimiter. */
  function IndexAny(s: string): (r: Option<nat>)
    ensures match r
            case None => NoDelimiter(s)
            case Some(e) => e < |s| && IsDelimiter(s[e]) && NoDelimiter(s[..e])
  {
    if s == "" then None
    else if IsDelimiter(s[0]) then Some(0)
    else match IndexAny(s[1..])
      case None => None
      case Some(e) => assert s[..e + 1] == [s[0]] + s[1..][..e]; Some(e + 1)
  }

  /** One turn of the cutter on text that is not empty: the tokens it finds and where the rest begins. */
  function Cut(s: string): (r: Option<(seq<Token>, nat)>)
    requires s != ""
    ensures r.Some? ==> 0 < r.value.1 <= |s|
  {
    if s[0] == '{' then
      match IndexByte(s, '}')
      case None => None
      case Some(e) => Some(([Trim(s[1..e])], e + 1))
    else if s[0] == '"' || s[0] == '\'' then
      match IndexByte(s[1..], s[0])
      case None => None
      case Some(e) => Some(([Trim(s[1..e + 1])], e + 2))
    else
      match IndexAny(s)
      case None => Some(([Trim(s)], |s|))
      case Some(e) =>
        if e == 0 then Some(([s[..1]], 1))
        else Some(([Trim(s[..e])] + (if IsBlank(s[e]) then [] else [s[e..e + 1]]), e + 1))
  }

  function Scan(s: string): Option<seq<Token>>
    decreases |s|
  {
    if s == "" then Some([])
    else match Cut(s)
      case None => None
      case Some((t, e)) =>
        match Scan(Trim(s[e..]))
        case None => None
        case Some(ts) => Some(t + ts)
  }

  /** `tok` and then the tokens of the rest. */
  function Then(tok: seq<Token>, rest: string): Option<seq<Token>> {
    match Scan(rest) case None => None case Some(ts) => Some(tok + ts)
  }

  lemma Onward(tok: seq<Token>, s: string, t: seq<Token>, e: nat)
    requires s != "" && Cut(s) == Some((t, e))
    ensures Then(tok, s) == Then(tok + t, Trim(s[e..]))
  {
    match Scan(Trim(s[e..])) {
      case None =>
      case Some(ts) => assert tok + (t + ts) == tok + t + ts;
    }
  }

  lemma NoCut(tok: seq<Token>, s: string)
    requires s != "" && Cut(s) == None
    ensures Then(tok, s) == None
  {
  }

  lemma AtEnds(s: string, tok: seq<Token>)
    ensures Then([], s) == Scan(s) && Then(tok, "") == Some(tok)
  {
    assert forall ts: seq<Token> :: [] + ts == ts;
    assert tok + [] == tok;
  }

  /** A word up to a delimiter, with the delimiter unless that is a blank; or a delimiter alone; or all there is. */
  method Word(expr: string) returns (t: seq<Token>, next: nat)
    requires expr != "" && expr[0] !in {'{', '"', '\''}
    ensures next <= |expr| && Cut(expr) == Some((t, next))
  {
    var e := IndexAny(expr);
    if e.None? {
      return [Trim(expr)], |expr|;
    }
    if e.value == 0 {
      return [expr[..1]], 1;
    }
    t, next := [Trim(expr[..e.value])], e.value + 1;
    if !IsBlank(expr[e.value]) {
      t := t + [expr[e.value..e.value + 1]];
    } else {
      assert t + [] == t;
    }
  }

  method Tokenize(text: string) returns (r: Option<seq<Token>>)
    ensures r == Scan(Trim(text))
  {
    var tok: seq<Token> := [];
    var expr := Trim(text);
    ghost var all := Scan(expr);
    AtEnds(expr, []);
    while expr != ""
      invariant all == Then(tok, expr)
      decreases |expr|
    {
      if expr[0] == '{' {
        var e := IndexByte(expr, '}');
        if e.None? {
          NoCut(tok, expr);
          return None;
        }
        Onward(tok, expr, [Trim(expr[1..e.value])], e.value + 1);
        tok := tok + [Trim(expr[1..e.value])];
        expr := Trim(expr[e.value + 1..]);
        continue;
      }
      if expr[0] == '"' || expr[0] == '\'' {
        var e := IndexByte(expr[1..], expr[0]);
        if e.None? {
          NoCut(tok, expr);
          return None;
        }
        Onward(tok, expr, [Trim(expr[1..e.value + 1])], e.value + 2);
        tok := tok + [Trim(expr[1..e.value + 1])];
        expr := Trim(expr[e.value + 2..]);
        continue;
      }
      var t, e := Word(expr);
      Onward(tok, expr, t, e);
      tok := tok + t;
      expr := Trim(expr[e..]);
    }
    AtEnds("", tok);
    return Some(tok);
  }

  // ---- laying tokens out ----

  datatype Lexeme =
    | Bare(w: string)              // a word without delimiters
    | Symbol(c: char)              // a one-character operator or bracket
    | Braced(w: string)            // {word}
    | Quoted(q: char, w: string)   // "word" or 'word'

  predicate Ends(s: string) {
    s != "" && !IsSpace(s[0]) && !IsSpace(s[|s| - 1])
  }

  ghost predicate WellFormed(x: Lexeme) {
    match x
    case Bare(w) => Ends(w) && NoDelimiter(w) && w[0] != '{' && w[0] != '"' && w[0] != '\''
    case Symbol(c) => IsSymbol(c)
    case Braced(w) => '}' !in w
    case Quoted(q, w) => (q == '"' || q == '\'') && q !in w
  }

  function Text(x: Lexeme): string {
    match x
    case Bare(w) => w
    case Symbol(c) => [c]
    case Braced(w) => "{" + w + "}"
    case Quoted(q, w) => [q] + w + [q]
  }

  function TokenOf(x: Lexeme): Token {
    match x
    case Bare(w) => w
    case Symbol(c) => [c]
    case Braced(w) => Trim(w)
    case Quoted(_, w) => Trim(w)
  }

  // A lexeme and the blanks after it.
  datatype Item = Item(x: Lexeme, gap: string)

  ghost predicate BlankGap(gap: string) {
    forall i :: 0 <= i < |gap| ==> IsBlank(gap[i])
  }

  /** No blanks are needed anywhere but between a bare word and whatever follows that is not a symbol. */
  ghost predicate LaidOut(xs: seq<Item>) {
    && (forall i :: 0 <= i < |xs| ==> WellFormed(xs[i].x) && BlankGap(xs[i].gap))
    && (forall i :: 0 <= i < |xs| - 1 ==> xs[i].x.Bare? ==> xs[i].gap != "" || xs[i + 1].x.Symbol?)
    && (xs != [] ==> xs[|xs| - 1].gap == "")
  }

  function Layout(xs: seq<Item>): string {
    if xs == [] then "" else Text(xs[0].x) + (xs[0].gap + Layout(xs[1..]))
  }

  function TokensOf(xs: seq<Item>): seq<Token> {
    if xs == [] then [] else [TokenOf(xs[0].x)] + TokensOf(xs[1..])
  }

  lemma TrimAround(a: string, x: string, b: string)
    requires forall i :: 0 <= i < |a| ==> IsSpace(a[i])
    requires forall i :: 0 <= i < |b| ==> IsSpace(b[i])
    requires x == "" || Ends(x)
    ensures Trim(a + x + b) == x
  {
    Blanks.TrimAround(IsSpace, a, x, b);
  }

  lemma TextEnds(x: Lexeme)
    requires WellFormed(x)
    ensures Ends(Text(x))
  {
  }

  lemma LaidOutTail(xs: seq<Item>)
    requires LaidOut(xs) && xs != []
    ensures LaidOut(xs[1..])
  {
    forall i | 0 <= i < |xs[1..]| ensures xs[1..][i] == xs[i + 1] {
    }
  }

  lemma {:induction false} LayoutEnds(xs: seq<Item>)
    requires LaidOut(xs)
    ensures Layout(xs) == "" || Ends(Layout(xs))
  {
    if xs != [] {
      LaidOutTail(xs);
      LayoutEnds(xs[1..]);
      TextEnds(xs[0].x);
      if xs[1..] == [] {
        assert Layout(xs) == Text(xs[0].x);
      } else {
        TextEnds(xs[1].x);
        assert Layout(xs)[0] == Text(xs[0].x)[0];
        assert Layout(xs[1..]) != "";
      }
    }
  }

  /** Past the blanks after a lexeme, trimming finds the next one. */
  lemma TrimGap(gap: string, xs: seq<Item>)
    requires LaidOut(xs) && BlankGap(gap)
    ensures Trim(gap + Layout(xs)) == Layout(xs)
  {
    LayoutEnds(xs);
    TrimAround(gap, Layout(xs), "");
    assert gap + Layout(xs) + "" == gap + Layout(xs);
  }

  lemma {:induction false} IndexOfFirst(s: string, c: char, w: string, rest: string)
    requires s == w + [c] + rest && c !in w
    ensures IndexByte(s, c) == Some(|w|)
    decreases |w|
  {
    if w != "" {
      IndexOfFirst(s[1..], c, w[1..], rest);
    }
  }

  lemma CutBraced(w: string, rest: string)
    requires '}' !in w
    ensures Cut("{" + w + "}" + rest) == Some(([Trim(w)], |w| + 2))
  {
    var s := "{" + w + "}" + rest;
    IndexOfFirst(s, '}', "{" + w, rest);
    assert s[1..|w| + 1] == w;
  }

  lemma CutQuoted(q: char, w: string, rest: string)
    requires (q == '"' || q == '\'') && q !in w
    ensures Cut([q] + w + [q] + rest) == Some(([Trim(w)], |w| + 2))
  {
    var s := [q] + w + [q] + rest;
    assert s[1..] == w + [q] + rest;
    IndexOfFirst(s[1..], q, w, rest);
    assert s[1..|w| + 1] == w;
  }

  lemma {:induction false} IndexOfDelimiter(s: string, w: string, rest: string)
    requires s == w + rest && NoDelimiter(w) && rest != "" && IsDelimiter(rest[0])
    ensures IndexAny(s) == Some(|w|)
    decreases |w|
  {
    if w != "" {
      IndexOfDelimiter(s[1..], w[1..], rest);
    }
  }

  lemma WordTrims(w: string)
    requires Ends(w)
    ensures Trim(w) == w
  {
    TrimAround("", w, "");
    assert "" + w + "" == w;
  }

  lemma CutBare(w: string, rest: string)
    requires WellFormed(Bare(w)) && (rest == "" || IsDelimiter(rest[0]))
    ensures Cut(w + rest) ==
      if rest == "" then Some(([w], |w|))
      else Some((if IsBlank(rest[0]) then [w] else [w, rest[..1]], |w| + 1))
  {
    var s := w + rest;
    WordTrims(w);
    assert s[0] == w[0];
    if rest == "" {
      assert s == w;
    } else {
      IndexOfDelimiter(s, w, rest);
      assert s[..|w|] == w && s[|w|..|w| + 1] == rest[..1] && s[|w|] == rest[0];
      assert [w] + [] == [w] && [w] + [rest[..1]] == [w, rest[..1]];
    }
  }

  lemma CutSymbol(c: char, rest: string)
    requires IsSymbol(c)
    ensures Cut([c] + rest) == Some(([[c]], 1))
  {
    var s := [c] + rest;
    assert s[..1] == [c];
  }

  /** A symbol, a braced or a quoted word is cut off whole, whatever follows. */
  lemma CutLexeme(x: Lexeme, rest: string)
    requires WellFormed(x) && !x.Bare?
    ensures Cut(Text(x) + rest) == Some(([TokenOf(x)], |Text(x)|))
  {
    match x {
      case Symbol(c) => CutSymbol(c, rest);
      case Braced(w) => CutBraced(w, rest);
      case Quoted(q, w) => CutQuoted(q, w, rest);
    }
  }

  /** The cutter recovers the tokens of every layout. */
  lemma {:induction false} ScanLayout(xs: seq<Item>)
    requires LaidOut(xs)
    ensures Scan(Layout(xs)) == Some(TokensOf(xs))
    decreases |xs|, 2
  {
    if xs != [] {
      LaidOutTail(xs);
      if xs[0].x.Bare? {
        ScanBare(xs);
      } else {
        CutLexeme(xs[0].x, xs[0].gap + Layout(xs[1..]));
        ScanLayout(xs[1..]);
        NextLexeme(xs);
      }
    }
  }

  lemma Past(a: string, b: string)
    ensures (a + b)[|a|..] == b
  {
  }

  /** A cut that takes exactly one lexeme. */
  lemma NextLexeme(xs: seq<Item>)
    requires LaidOut(xs) && xs != [] && LaidOut(xs[1..])
    requires Layout(xs) != "" && Cut(Layout(xs)) == Some(([TokenOf(xs[0].x)], |Text(xs[0].x)|))
    requires Scan(Layout(xs[1..])) == Some(TokensOf(xs[1..]))
    ensures Scan(Layout(xs)) == Some(TokensOf(xs))
  {
    var text, rest := Text(xs[0].x), xs[0].gap + Layout(xs[1..]);
    Past(text, rest);
    TrimGap(xs[0].gap, xs[1..]);
    ScanStep(text + rest, [TokenOf(xs[0].x)], |text|, rest, Layout(xs[1..]), TokensOf(xs[1..]));
  }

  lemma {:induction false} ScanBare(xs: seq<Item>)
    requires LaidOut(xs) && xs != [] && xs[0].x.Bare?
    ensures Scan(Layout(xs)) == Some(TokensOf(xs))
    decreases |xs|, 1
  {
    var w, gap, tail := xs[0].x.w, xs[0].gap, xs[1..];
    var rest := gap + Layout(tail);
    LaidOutTail(xs);
    if tail == [] {
      CutBare(w, rest);
      Past(w, rest);
    } else if gap != "" {
      CutBare(w, rest);
      ScanLayout(tail);
      NextAfterBlank(xs);
    } else {
      ScanBareSymbol(xs);
    }
  }

  /** A cut that takes a word and the blank after it. */
  lemma NextAfterBlank(xs: seq<Item>)
    requires LaidOut(xs) && xs != [] && LaidOut(xs[1..]) && xs[0].x.Bare? && xs[0].gap != ""
    requires Layout(xs) != "" && Cut(Layout(xs)) == Some(([xs[0].x.w], |xs[0].x.w| + 1))
    requires Scan(Layout(xs[1..])) == Some(TokensOf(xs[1..]))
    ensures Scan(Layout(xs)) == Some(TokensOf(xs))
  {
    TrimGap(xs[0].gap[1..], xs[1..]);
    ScanPastBlank(xs[0].x.w, xs[0].gap, Layout(xs[1..]), TokensOf(xs[1..]));
  }

  lemma DropMore(w: string, a: string, b: string)
    requires a != ""
    ensures (w + (a + b))[|w| + 1..] == a[1..] + b
  {
  }

  lemma ScanPastBlank(w: string, gap: string, rest: string, ts: seq<Token>)
    requires gap != "" && Trim(gap[1..] + rest) == rest && Scan(rest) == Some(ts)
    requires Cut(w + (gap + rest)) == Some(([w], |w| + 1))
    ensures Scan(w + (gap + rest)) == Some([w] + ts)
  {
    var s := w + (gap + rest);
    DropMore(w, gap, rest);
    ScanStep(s, [w], |w| + 1, gap[1..] + rest, rest, ts);
  }

  lemma ScanStep(s: string, t: seq<Token>, e: nat, more: string, rest: string, ts: seq<Token>)
    requires s != "" && Cut(s) == Some((t, e)) && s[e..] == more && Trim(more) == rest && Scan(rest) == Some(ts)
    ensures Scan(s) == Some(t + ts)
  {
  }

  /** A word directly followed by a symbol: one cut yields both. */
  lemma {:induction false} ScanBareSymbol(xs: seq<Item>)
    requires LaidOut(xs) && |xs| > 1 && xs[0].x.Bare? && xs[0].gap == ""
    ensures Scan(Layout(xs)) == Some(TokensOf(xs))
    decreases |xs|, 0
  {
    LaidOutTail(xs);
    LaidOutTail(xs[1..]);
    TwoLexemes(xs, xs[1..], xs[1..][1..]);
  }

  lemma {:induction false} TwoLexemes(xs: seq<Item>, tail: seq<Item>, after: seq<Item>)
    requires LaidOut(xs) && |xs| > 1 && xs[0].x.Bare? && xs[0].gap == ""
    requires tail == xs[1..] && after == tail[1..] && LaidOut(tail) && LaidOut(after)
    ensures Scan(Layout(xs)) == Some(TokensOf(xs))
    decreases |xs| - 1, 3
  {
    assert xs[1] == tail[0];
    TrimGap(tail[0].gap, after);
    ScanLayout(after);
    ScanTwo(xs[0].x.w, tail[0].x.c, tail[0].gap, Layout(after), TokensOf(after));
    assert "" + Layout(tail) == Layout(tail);
  }

  lemma ScanTwo(w: string, c: char, gap: string, rest: string, ts: seq<Token>)
    requires WellFormed(Bare(w)) && IsSymbol(c) && Trim(gap + rest) == rest && Scan(rest) == Some(ts)
    ensures Scan(w + ([c] + (gap + rest))) == Some([w] + ([[c]] + ts))
  {
    var s := w + ([c] + (gap + rest));
    CutTwo(w, c, gap + rest, s);
    ScanStep(s, [w, [c]], |w| + 1, gap + rest, rest, ts);
    assert [w, [c]] == [w] + [[c]];
    Regroup([w], [[c]], ts);
  }

  lemma CutTwo(w: string, c: char, more: string, s: string)
    requires WellFormed(Bare(w)) && IsSymbol(c) && s == w + ([c] + more)
    ensures s != "" && Cut(s) == Some(([w, [c]], |w| + 1)) && s[|w| + 1..] == more
  {
    CutBare(w, [c] + more);
    assert ([c] + more)[..1] == [c];
  }

  /** Spaces around the whole text do not matter. */
  lemma TokenizeLayout(a: string, xs: seq<Item>, b: string)
    requires LaidOut(xs)
    requires forall i :: 0 <= i < |a| ==> IsSpace(a[i])
    requires forall i :: 0 <= i < |b| ==> IsSpace(b[i])
    ensures Scan(Trim(a + Layout(xs) + b)) == Some(TokensOf(xs))
  {
    LayoutEnds(xs);
    TrimAround(a, Layout(xs), b);
    ScanLayout(xs);
  }

  /** From text to answer: any layout of any sufficiently bracketed way to write a tree runs to the value of
      that tree. */
  lemma TextToAnswer<F>(ops: Table, m: Machine<F>, a: string, xs: seq<Item>, b: string, e: Infix)
    requires LaidOut(xs) && TokensOf(xs) == Tokens(e)
    requires forall i :: 0 <= i < |a| ==> IsSpace(a[i])
    requires forall i :: 0 <= i < |b| ==> IsSpace(b[i])
    requires WellKinded(ops, Strip(e)) && Bracketed(ops, e) && !Strip(e).Word?
    ensures Scan(Trim(a + Layout(xs) + b)).Some?
    ensures
      var tok := Scan(Trim(a + Layout(xs) + b)).value;
      && Translate(ops, tok).Some?
      && Result(ops, m, Translate(ops, tok).value) ==
         match Compute(ops, m, Strip(e), 0) { case None => "" case Some(f) => m.show(f) }
  {
    TokenizeLayout(a, xs, b);
    CompileThenRun(ops, m, e);
  }
}
