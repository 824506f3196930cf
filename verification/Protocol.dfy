/** The line protocol between a client and the daemon: a request with arguments, a response with pairs. */
module Protocol {

  import opened Bytes
  import opened Encode
  import opened Wrappers
  import ExprTokens

  type Text = seq<Byte>

  const NL: Byte := 10
  const CR: Byte := 13
  const COLON: Byte := 58

  const GET: Text := [71, 69, 84]                               // GET
  const PROTOCOL: Text := [65, 82, 71, 85, 83, 47, 53, 46, 48]  // ARGUS/5.0

  /** What a buffered reader holds. */
  const BUFSIZE := 4096

  // ---- lines ----

  function IndexNewline(s: Text): (i: nat)
    ensures i <= |s| && (i < |s| ==> s[i] == NL) && forall k :: 0 <= k < i ==> s[k] != NL
  {
    if s == [] || s[0] == NL then 0 else 1 + IndexNewline(s[1..])
  }

  /** The next line, without its ending, and what follows; a line too long for the buffer comes in pieces. */
  function ReadLine(s: Text): (r: Option<(Text, Text)>)
    ensures r.Some? ==> |r.value.1| < |s|
    ensures r == None <==> s == []
  {
    var n := IndexNewline(s);
    if n < |s| && n < BUFSIZE then
      Some((if n > 0 && s[n - 1] == CR then s[..n - 1] else s[..n], s[n + 1..]))
    else if |s| >= BUFSIZE then
      var cut := if s[BUFSIZE - 1] == CR then BUFSIZE - 1 else BUFSIZE;
      Some((s[..cut], s[cut..]))
    else if s == [] then None
    else Some((s, []))
  }

  /** A line that was sent whole is read whole. */
  lemma LineBack(line: Text, rest: Text)
    requires NL !in line && |line| < BUFSIZE && (line != [] ==> line[|line| - 1] != CR)
    ensures ReadLine(line + [NL] + rest) == Some((line, rest))
  {
    var s := line + [NL] + rest;
    NewlineAt(line, rest);
    assert s[..|line|] == line && s[|line| + 1..] == rest;
  }

  lemma {:induction false} NewlineAt(line: Text, rest: Text)
    requires NL !in line
    ensures IndexNewline(line + [NL] + rest) == |line|
  {
    if line != [] {
      assert (line + [NL] + rest)[1..] == line[1..] + [NL] + rest;
      NewlineAt(line[1..], rest);
    }
  }

  /** Nothing of the input is lost: the line, its ending if it had one, and what follows. */
  lemma LineAndRest(s: Text, line: Text, rest: Text)
    requires ReadLine(s) == Some((line, rest))
    ensures 10 !in line && |line| <= 4096
    ensures s == line + [10] + rest || s == line + [13, 10] + rest || (s == line + rest && (rest == [] || |line| >= 4095))
  {
    var n := IndexNewline(s);
    if n < |s| && n < BUFSIZE {
      assert s == s[..n] + [10] + s[n + 1..];
      if n > 0 && s[n - 1] == CR {
        assert s == s[..n - 1] + [13, 10] + s[n + 1..];
      }
    } else {
      assert s == line + rest;
      assert forall k :: 0 <= k < |line| ==> line[k] == s[k];
    }
  }

  // ---- blanks, words, pairs ----

  /** The length of the blank a text begins with, in UTF-8, or 0. */
  function Blank(s: Text): (n: nat)
    ensures n <= |s|
  {
    if s == [] then 0
    else if 9 <= s[0] <= 13 || s[0] == SPACE then 1
    else if |s| > 1 && s[0] == 0xC2 && s[1] in {0x85, 0xA0} then 2
    else if |s| > 2 && WideBlank(s[0], s[1], s[2]) then 3
    else 0
  }

  predicate WideBlank(a: Byte, b: Byte, c: Byte) {
    || (a == 0xE1 && b == 0x9A && c == 0x80)
    || (a == 0xE2 && b == 0x80 && (0x80 <= c <= 0x8A || c in {0xA8, 0xA9, 0xAF}))
    || (a == 0xE2 && b == 0x81 && c == 0x9F)
    || (a == 0xE3 && b == 0x80 && c == 0x80)
  }

  /** A character of the basic plane in UTF-8 (section 3 of RFC 3629). */
  function Utf8(u: nat): Text
    requires u < 0x10000
  {
    if u < 0x80 then [u as Byte]
    else if u < 0x800 then [(0xC0 + u / 64) as Byte, (0x80 + u % 64) as Byte]
    else [(0xE0 + u / 4096) as Byte, (0x80 + u / 64 % 64) as Byte, (0x80 + u % 64) as Byte]
  }

  /** A blank is a space character, whole. */
  lemma BlankIsSpace(c: char, rest: Text)
    requires c as int < 0x10000
    ensures Blank(Utf8(c as int) + rest) == if ExprTokens.IsSpace(c) then |Utf8(c as int)| else 0
  {
    var u := c as int;
    var s := Utf8(u) + rest;
    if u >= 0x800 {
      assert s[0] == (0xE0 + u / 4096) as Byte && s[1] == (0x80 + u / 64 % 64) as Byte && s[2] == (0x80 + u % 64) as Byte;
      Parts(u, u / 4096, u / 64 % 64, u % 64);
    }
  }

  lemma Parts(u: nat, a: nat, b: nat, c: nat)
    requires a == u / 4096 && b == u / 64 % 64 && c == u % 64
    ensures u == 4096 * a + 64 * b + c
  {
    assert u / 64 / 64 == u / 4096;
  }

  /** The length of the blank a text ends with, or 0. */
  function LastBlank(s: Text): (n: nat)
    ensures n <= |s|
  {
    if |s| > 0 && Blank(s[|s| - 1..]) == 1 then 1
    else if |s| > 1 && Blank(s[|s| - 2..]) == 2 then 2
    else if |s| > 2 && Blank(s[|s| - 3..]) == 3 then 3
    else 0
  }

  function TrimLeft(s: Text): Text
    decreases |s|
  {
    if Blank(s) > 0 then TrimLeft(s[Blank(s)..]) else s
  }

  function TrimRight(s: Text): Text
    decreases |s|
  {
    if LastBlank(s) > 0 then TrimRight(s[..|s| - LastBlank(s)]) else s
  }

  function Trim(s: Text): Text {
    TrimRight(TrimLeft(s))
  }

  /** The length of a text's first word. */
  function WordLength(s: Text): (n: nat)
    ensures n <= |s|
    ensures Blank(s[n..]) == 0 ==> n == |s|
  {
    if s == [] || Blank(s) > 0 then 0 else 1 + WordLength(s[1..])
  }

  /** The words of a text. */
  function Fields(s: Text): seq<Text>
    decreases |s|
  {
    if s == [] then []
    else if Blank(s) > 0 then Fields(s[Blank(s)..])
    else [s[..WordLength(s)]] + Fields(s[WordLength(s)..])
  }

  ghost predicate Word(w: Text) {
    w != [] && NoBlank(w)
  }

  ghost predicate NoBlank(w: Text) {
    forall i :: 0 <= i < |w| ==> Blank(w[i..]) == 0
  }

  /** Bytes of ASCII that can be seen. */
  predicate Plain(w: Text) {
    forall i :: 0 <= i < |w| ==> SPACE < w[i] < 127
  }

  lemma PlainBlank(w: Text)
    requires Plain(w)
    ensures Blank(w) == LastBlank(w) == 0
  {
    assert w != [] ==> w[|w| - 1..][0] == w[|w| - 1];
    assert |w| > 1 ==> w[|w| - 2..][0] == w[|w| - 2];
    assert |w| > 2 ==> w[|w| - 3..][0] == w[|w| - 3];
  }

  lemma PlainWord(w: Text)
    requires Plain(w)
    ensures NoBlank(w) && Trim(w) == w
  {
    PlainBlank(w);
    forall i | 0 <= i < |w| ensures Blank(w[i..]) == 0 {
      PlainFrom(w, i);
      PlainBlank(w[i..]);
    }
  }

  lemma PlainFrom(w: Text, i: nat)
    requires Plain(w) && i <= |w|
    ensures Plain(w[i..])
  {
    var v := w[i..];
    forall j | 0 <= j < |v| ensures SPACE < v[j] < 127 {
      assert v[j] == w[i + j];
    }
  }

  /** No blank begins in a word and ends in the space behind it. */
  lemma BlankBefore(w: Text, rest: Text)
    requires w != [] && Blank(w) == 0 && (rest != [] ==> rest[0] == SPACE)
    ensures Blank(w + rest) == 0
  {
  }

  lemma {:induction false} WordUpTo(w: Text, rest: Text)
    requires NoBlank(w) && (rest != [] ==> rest[0] == SPACE)
    ensures WordLength(w + rest) == |w|
  {
    if w != [] {
      assert w[0..] == w;
      BlankBefore(w, rest);
      forall i | 0 <= i < |w[1..]| ensures Blank(w[1..][i..]) == 0 {
        assert w[1..][i..] == w[i + 1..];
      }
      WordUpTo(w[1..], rest);
      assert (w + rest)[1..] == w[1..] + rest;
    } else {
      assert w + rest == rest;
    }
  }

  lemma FieldsWord(w: Text, rest: Text)
    requires Word(w) && (rest != [] ==> rest[0] == SPACE)
    ensures Fields(w + rest) == [w] + Fields(rest)
  {
    assert w[0..] == w;
    BlankBefore(w, rest);
    WordUpTo(w, rest);
    assert (w + rest)[..|w|] == w && (w + rest)[|w|..] == rest;
  }

  lemma WordThen(w: Text, rest: Text)
    requires Word(w)
    ensures Fields(w + ([SPACE] + rest)) == [w] + Fields(rest)
  {
    FieldsWord(w, [SPACE] + rest);
    assert ([SPACE] + rest)[1..] == rest;
  }

  lemma LastWord(w: Text)
    requires Word(w)
    ensures Fields(w) == [w]
  {
    FieldsWord(w, []);
    assert w + [] == w;
  }

  /** The request line, but its end. */
  function RequestLine(m: Text): Text {
    GET + ([SPACE] + (m + ([SPACE] + PROTOCOL)))
  }

  lemma RequestFields(m: Text)
    requires Word(m)
    ensures Fields(RequestLine(m)) == [GET, m, PROTOCOL]
  {
    PlainWord(GET);
    PlainWord(PROTOCOL);
    ThreeWords(GET, m, PROTOCOL);
  }

  lemma ThreeWords(a: Text, m: Text, c: Text)
    requires Word(a) && Word(m) && Word(c)
    ensures Fields(a + ([SPACE] + (m + ([SPACE] + c)))) == [a, m, c]
  {
    LastWord(c);
    WordThen(m, c);
    WordThen(a, m + ([SPACE] + c));
  }

  /** Where `: ` first comes in a line. */
  function IndexSeparator(s: Text): (r: Option<nat>)
    ensures r.Some? ==> r.value + 1 < |s|
  {
    if |s| < 2 then None
    else if s[0] == COLON && s[1] == SPACE then Some(0)
    else
      match IndexSeparator(s[1..])
      case None => None
      case Some(i) => Some(i + 1)
  }

  /** A line as name and value; a line without a separator is all name. */
  function Pair(line: Text): (Text, Text) {
    match IndexSeparator(line)
    case None => (line, [])
    case Some(i) => (line[..i], line[i + 2..])
  }

  predicate HasSeparator(k: Text) {
    exists i :: 0 <= i < |k| - 1 && k[i] == COLON && k[i + 1] == SPACE
  }

  lemma TailSeparator(k: Text)
    requires k != [] && HasSeparator(k[1..])
    ensures HasSeparator(k)
  {
    var i :| 0 <= i < |k[1..]| - 1 && k[1..][i] == COLON && k[1..][i + 1] == SPACE;
    assert k[i + 1] == COLON && k[i + 2] == SPACE;
  }

  lemma {:induction false} SeparatorAt(k: Text, v: Text)
    requires !HasSeparator(k)
    ensures IndexSeparator(k + [COLON, SPACE] + v) == Some(|k|)
  {
    var s := k + [COLON, SPACE] + v;
    if k != [] {
      assert s[1..] == k[1..] + [COLON, SPACE] + v;
      if HasSeparator(k[1..]) {
        TailSeparator(k);
      }
      SeparatorAt(k[1..], v);
      assert !(s[0] == COLON && s[1] == SPACE) by {
        if |k| > 1 {
          assert s[0] == k[0] && s[1] == k[1];
        }
      }
    }
  }

  // ---- one pair on the wire ----

  /** What is sent for one pair, but the end of the line. */
  function PairLine(k: Text, v: Text): Text {
    k + [COLON, SPACE] + UrlEncode(v)
  }

  /** A name that can be sent: no separator and no line end inside, and with its value short enough for a line. */
  predicate Sendable(k: Text, v: Text) {
    !HasSeparator(k) && NL !in k && |PairLine(k, v)| < BUFSIZE
  }

  lemma EncodedPlain(v: Text)
    ensures Plain(UrlEncode(v))
  {
    TheEscapers();
    Harmless(v, PERCENT, ShouldEscapeUrl);
  }

  /** A pair's line is read back whole, and parts into the name and a value that decodes. */
  lemma PairBack(k: Text, v: Text, rest: Text)
    requires Sendable(k, v)
    ensures ReadLine(PairLine(k, v) + [NL] + rest) == Some((PairLine(k, v), rest))
    ensures PairLine(k, v) != []
    ensures Pair(PairLine(k, v)) == (k, UrlEncode(v))
    ensures UrlDecode(Trim(UrlEncode(v))) == v
  {
    var line := PairLine(k, v);
    EncodedPlain(v);
    var e := UrlEncode(v);
    assert line[|line| - 1] == if e == [] then SPACE else e[|e| - 1];
    LineBack(line, rest);
    SeparatorAt(k, UrlEncode(v));
    assert line[..|k|] == k && line[|k| + 2..] == UrlEncode(v);
    PlainWord(UrlEncode(v));
    DecodeEncode(v);
  }

  // ---- the daemon reads a request ----

  /** One header line into the arguments. */
  function AddArg(args: map<Text, Text>, line: Text): map<Text, Text> {
    var (k, v) := Pair(line);
    args[Trim(k) := UrlDecode(Trim(v))]
  }

  lemma AddedArg(args: map<Text, Text>, line: Text, k: Text, x: Text)
    requires Pair(line) == (k, x)
    ensures AddArg(args, line) == args[Trim(k) := UrlDecode(Trim(x))]
  {
  }

  lemma NothingSaid()
    ensures UrlDecode(Trim([])) == []
  {
    var none: Text := [];
    assert Blank(none) == 0 && LastBlank(none) == 0;
    assert TrimLeft(none) == none && TrimRight(none) == none;
    assert Unescape(none) == Some([]);
  }

  /** Header lines up to an empty one: the arguments and what follows, or nothing if the input ends before. */
  function ReadArgs(s: Text, args: map<Text, Text>): Option<(map<Text, Text>, Text)>
    decreases |s|
  {
    match ReadLine(s)
    case None => None
    case Some((line, rest)) => if line == [] then Some((args, rest)) else ReadArgs(rest, AddArg(args, line))
  }

  function ReadRequest(s: Text): Option<(Text, map<Text, Text>, Text)> {
    match ReadLine(s)
    case None => None
    case Some((line, rest)) =>
      var f := Fields(line);
      if |f| != 3 || f[0] != GET || f[2] != PROTOCOL then None
      else
        match ReadArgs(rest, map[])
        case None => None
        case Some((args, left)) => Some((UrlDecode(f[1]), args, left))
  }

  /** What a request is spelt with. */
  lemma Spelling()
    ensures |GET| == 3 && forall i :: 0 <= i < 3 ==> GET[i] as int == "GET"[i] as int
    ensures |PROTOCOL| == 9 && forall i :: 0 <= i < 9 ==> PROTOCOL[i] as int == "ARGUS/5.0"[i] as int
  {
  }

  /** Only that is a request: its first line is three words, of which the first and the last are given, and the one
      between names the method. */
  lemma OnlyRequests(s: Text, m: Text, args: map<Text, Text>, left: Text)
    requires ReadRequest(s) == Some((m, args, left))
    ensures ReadLine(s).Some?
    ensures var f := Fields(ReadLine(s).value.0); |f| == 3 && f[0] == GET && f[2] == PROTOCOL && m == UrlDecode(f[1])
    ensures ReadArgs(ReadLine(s).value.1, map[]) == Some((args, left))
  {
  }

  class Context {
    var input: Text                   // what the client has sent and nobody has read
    var request: Text                 // the method asked for
    var args: map<Text, Text>

    constructor (input: Text)
      ensures this.input == input
    {
      this.input, request, args := input, [], map[];
    }

    method Read() returns (ok: bool)
      modifies this
      ensures ok <==> ReadRequest(old(input)).Some?
      ensures ok ==> ReadRequest(old(input)) == Some((request, args, input))
    {
      var reqline := ReadLine(input);
      if reqline == None {
        return false;
      }
      input := reqline.value.1;
      var flds := Fields(reqline.value.0);
      if |flds| != 3 {
        return false;
      }
      if flds[0] != GET || flds[2] != PROTOCOL {
        return false;
      }
      request := UrlDecode(flds[1]);
      args := map[];
      ok := ReadArguments();
    }

    /** Header lines up to an empty one. */
    method ReadArguments() returns (ok: bool)
      modifies this`input, this`args
      ensures ok <==> ReadArgs(old(input), old(args)).Some?
      ensures ok ==> ReadArgs(old(input), old(args)) == Some((args, input))
    {
      ghost var all := ReadArgs(input, args);
      while true
        invariant ReadArgs(input, args) == all
        decreases |input|
      {
        var line := ReadLine(input);
        if line == None {
          return false;
        }
        input := line.value.1;
        if |line.value.0| == 0 {
          break;
        }
        TakeArgument(line.value.0);
      }
      ok := true;
    }

    method TakeArgument(line: Text)
      modifies this`args
      ensures args == AddArg(old(args), line)
    {
      var sep := IndexSeparator(line);
      var k, v := line, [];
      if sep.Some? {
        k, v := line[..sep.value], UrlDecode(Trim(line[sep.value + 2..]));
        AddedArg(args, line, k, line[sep.value + 2..]);
      } else {
        NothingSaid();
        AddedArg(args, line, k, []);
      }
      args := args[Trim(k) := v];
    }
  }

  // ---- the client sends one ----

  /** The lines of some pairs, in the order given. */
  function PairLines(order: seq<Text>, args: map<Text, Text>): Text
    requires forall k :: k in order ==> k in args
  {
    if order == [] then [] else PairLine(order[0], args[order[0]]) + [NL] + PairLines(order[1..], args)
  }

  /** An order of sending: every name once. */
  ghost predicate Order(order: seq<Text>, args: map<Text, Text>) {
    && (forall k :: k in order <==> k in args)
    && forall i, j :: 0 <= i < j < |order| ==> order[i] != order[j]
  }

  function Request(m: Text, order: seq<Text>, args: map<Text, Text>): Text
    requires forall k :: k in order ==> k in args
  {
    RequestLine(m) + [NL] + (PairLines(order, args) + [NL])
  }

  lemma {:induction false} PairLinesMore(order: seq<Text>, k: Text, args: map<Text, Text>)
    requires k in args && forall x :: x in order ==> x in args
    ensures PairLines(order + [k], args) == PairLines(order, args) + (PairLine(k, args[k]) + [NL])
  {
    if order == [] {
      assert order + [k] == [k] && [k][1..] == [];
    } else {
      assert (order + [k])[1..] == order[1..] + [k];
      PairLinesMore(order[1..], k, args);
    }
  }

  /** Send a request; the arguments go in whatever order they come up. */
  method Send(m: Text, args: map<Text, Text>) returns (out: Text)
    ensures exists order :: Order(order, args) && out == Request(m, order, args)
  {
    var body: Text := [];
    var left := args.Keys;
    ghost var order: seq<Text> := [];
    while left != {}
      invariant left <= args.Keys && (forall k :: k in order <==> k in args && k !in left)
      invariant forall i, j :: 0 <= i < j < |order| ==> order[i] != order[j]
      invariant body == PairLines(order, args)
    {
      var k :| k in left;
      PairLinesMore(order, k, args);
      body := body + (PairLine(k, args[k]) + [NL]);
      order := order + [k];
      left := left - {k};
    }
    out := RequestLine(m) + [NL] + (body + [NL]);
    assert Order(order, args) && out == Request(m, order, args);
  }

  // ---- there and back ----

  lemma Onward(a: Text, b: Text, rest: Text)
    ensures a + [NL] + b + [NL] + rest == a + [NL] + (b + [NL] + rest)
  {
  }

  lemma OneMore(order: seq<Text>, args: map<Text, Text>, acc: map<Text, Text>)
    requires order != [] && forall k :: k in order ==> k in args
    ensures acc[order[0] := args[order[0]]] + Restricted(order[1..], args) == acc + Restricted(order, args)
  {
    assert forall k :: k in order <==> k == order[0] || k in order[1..];
  }

  function Restricted(order: seq<Text>, args: map<Text, Text>): map<Text, Text>
    requires forall k :: k in order ==> k in args
  {
    map k | k in order :: args[k]
  }

  lemma {:induction false} ArgsBack(order: seq<Text>, args: map<Text, Text>, acc: map<Text, Text>, rest: Text)
    requires forall k :: k in order ==> k in args && Sendable(k, args[k]) && Trim(k) == k
    ensures ReadArgs(PairLines(order, args) + [NL] + rest, acc) == Some((acc + Restricted(order, args), rest))
    decreases |order|
  {
    if order == [] {
      LineBack([], rest);
      assert acc + Restricted(order, args) == acc;
    } else {
      var k := order[0];
      var more := PairLines(order[1..], args) + [NL] + rest;
      PairBack(k, args[k], more);
      Onward(PairLine(k, args[k]), PairLines(order[1..], args), rest);
      ArgsBack(order[1..], args, acc[k := args[k]], rest);
      OneMore(order, args, acc);
    }
  }

  lemma AllArgsBack(order: seq<Text>, args: map<Text, Text>, rest: Text)
    requires Order(order, args) && forall k :: k in args ==> Sendable(k, args[k]) && Trim(k) == k
    ensures ReadArgs(PairLines(order, args) + [NL] + rest, map[]) == Some((args, rest))
  {
    ArgsBack(order, args, map[], rest);
    RestrictedAll(order, args);
  }

  lemma RestrictedAll(order: seq<Text>, args: map<Text, Text>)
    requires Order(order, args)
    ensures map[] + Restricted(order, args) == args
  {
  }

  /** A request is read as it was meant, in whatever order its arguments were sent, and no more of the input is used. */
  lemma RequestRoundTrip(m: Text, order: seq<Text>, args: map<Text, Text>, rest: Text)
    requires Word(m) && |RequestLine(m)| < BUFSIZE && Order(order, args)
    requires forall k :: k in args ==> Sendable(k, args[k]) && Trim(k) == k
    ensures ReadRequest(Request(m, order, args) + rest) == Some((UrlDecode(m), args, rest))
  {
    var more := PairLines(order, args) + [NL] + rest;
    Together(RequestLine(m), PairLines(order, args), rest);
    RequestLineBack(m, more);
    AllArgsBack(order, args, rest);
    RequestParts(m, Request(m, order, args) + rest, more, args, rest);
  }

  lemma Together(a: Text, b: Text, rest: Text)
    ensures a + [NL] + (b + [NL]) + rest == a + [NL] + (b + [NL] + rest)
  {
  }

  lemma RequestParts(m: Text, s: Text, more: Text, args: map<Text, Text>, rest: Text)
    requires Word(m) && ReadLine(s) == Some((RequestLine(m), more)) && ReadArgs(more, map[]) == Some((args, rest))
    ensures ReadRequest(s) == Some((UrlDecode(m), args, rest))
  {
    RequestFields(m);
  }

  lemma RequestLineBack(m: Text, rest: Text)
    requires Word(m) && |RequestLine(m)| < BUFSIZE
    ensures ReadLine(RequestLine(m) + [NL] + rest) == Some((RequestLine(m), rest))
  {
    forall i | 0 <= i < |m| ensures m[i] != NL {
      assert Blank(m[i..]) == 0;
    }
    LineBack(RequestLine(m), rest);
  }

  // ---- the answer ----

  /** The lines of an answer, up to an empty one or the end. */
  function AnswerLines(s: Text): seq<Text>
    decreases |s|
  {
    match ReadLine(s)
    case None => []
    case Some((line, rest)) => if line == [] then [] else [line] + AnswerLines(rest)
  }

  /** What the client makes of a line. */
  function Found(line: Text): (Text, Text) {
    var (k, v) := Pair(line);
    (k, UrlDecode(Trim(v)))
  }

  /** The pairs of some lines; the last one of a name counts. */
  function PairsOf(lines: seq<Text>): map<Text, Text> {
    if lines == [] then map[]
    else
      var (k, v) := Found(lines[|lines| - 1]);
      PairsOf(lines[..|lines| - 1])[k := v]
  }

  /** The names are those of the lines, and where a name comes more than once its last line counts. */
  lemma {:induction false} PairsMean(lines: seq<Text>, j: nat)
    requires j < |lines| && forall k :: j < k < |lines| ==> Found(lines[k]).0 != Found(lines[j]).0
    ensures Found(lines[j]).0 in PairsOf(lines) && PairsOf(lines)[Found(lines[j]).0] == Found(lines[j]).1
  {
    if j < |lines| - 1 {
      PairsMean(lines[..|lines| - 1], j);
    }
  }

  lemma {:induction false} PairsOnly(lines: seq<Text>, k: Text)
    requires k in PairsOf(lines)
    ensures exists j :: 0 <= j < |lines| && Found(lines[j]).0 == k
  {
    if k != Found(lines[|lines| - 1]).0 {
      PairsOnly(lines[..|lines| - 1], k);
      var j :| 0 <= j < |lines| - 1 && Found(lines[..|lines| - 1][j]).0 == k;
      assert lines[j] == lines[..|lines| - 1][j];
    }
  }

  lemma LastPair(lines: seq<Text>, k: Text, v: Text)
    requires lines != [] && Found(lines[|lines| - 1]) == (k, v)
    ensures PairsOf(lines) == PairsOf(lines[..|lines| - 1])[k := v]
  {
  }

  lemma FoundParts(line: Text)
    ensures match IndexSeparator(line)
            case Some(i) => Found(line) == (line[..i], UrlDecode(Trim(line[i + 2..])))
            case None => Found(line) == (line, [])
  {
    if IndexSeparator(line) == None {
      assert Pair(line) == (line, []);
      NothingSaid();
    }
  }

  class Response {
    const lines: seq<Text>
    var param: Option<map<Text, Text>>   // filled when first asked for

    ghost predicate Valid()
      reads this
    {
      param.Some? ==> param.value == PairsOf(lines)
    }

    constructor (content: Text)
      ensures Valid() && lines == AnswerLines(content)
    {
      lines, param := AnswerLines(content), None;
    }

    /** The answer's pairs. */
    method Map() returns (r: map<Text, Text>)
      requires Valid()
      modifies this
      ensures Valid() && r == PairsOf(lines)
    {
      if param.Some? {
        return param.value;
      }
      var found: map<Text, Text> := map[];
      for i := 0 to |lines|
        invariant found == PairsOf(lines[..i])
      {
        var sep := IndexSeparator(lines[i]);
        FoundParts(lines[i]);
        LastPair(lines[..i + 1], Found(lines[i]).0, Found(lines[i]).1);
        assert lines[..i + 1][..i] == lines[..i];
        if sep.Some? {
          found := found[lines[i][..sep.value] := UrlDecode(Trim(lines[i][sep.value + 2..]))];
        } else {
          found := found[lines[i] := []];
        }
      }
      assert lines[..|lines|] == lines;
      param := Some(found);
      r := found;
    }
  }

  function LinesOf(order: seq<Text>, args: map<Text, Text>): seq<Text>
    requires forall k :: k in order ==> k in args
  {
    seq(|order|, i requires 0 <= i < |order| => PairLine(order[i], args[order[i]]))
  }

  lemma FirstLine(order: seq<Text>, args: map<Text, Text>)
    requires order != [] && forall k :: k in order ==> k in args
    ensures LinesOf(order, args) == [PairLine(order[0], args[order[0]])] + LinesOf(order[1..], args)
  {
  }

  lemma {:induction false} LinesBack(order: seq<Text>, args: map<Text, Text>, rest: Text)
    requires forall k :: k in order ==> k in args && Sendable(k, args[k])
    ensures AnswerLines(PairLines(order, args) + [NL] + rest) == LinesOf(order, args)
    decreases |order|
  {
    if order == [] {
      LineBack([], rest);
    } else {
      var k := order[0];
      var more := PairLines(order[1..], args) + [NL] + rest;
      PairBack(k, args[k], more);
      Onward(PairLine(k, args[k]), PairLines(order[1..], args), rest);
      LinesBack(order[1..], args, rest);
      FirstLine(order, args);
    }
  }

  lemma LinesButLast(order: seq<Text>, args: map<Text, Text>)
    requires order != [] && forall k :: k in order ==> k in args
    ensures var n := |order| - 1;
            && LinesOf(order, args)[..n] == LinesOf(order[..n], args)
            && Restricted(order[..n], args)[order[n] := args[order[n]]] == Restricted(order, args)
  {
    assert order == order[..|order| - 1] + [order[|order| - 1]];
  }

  lemma {:induction false} PairsBack(order: seq<Text>, args: map<Text, Text>)
    requires forall k :: k in order ==> k in args && Sendable(k, args[k])
    ensures PairsOf(LinesOf(order, args)) == Restricted(order, args)
  {
    if order != [] {
      var n := |order| - 1;
      var k := order[n];
      LinesButLast(order, args);
      PairsBack(order[..n], args);
      LineFound(k, args[k]);
      LastPair(LinesOf(order, args), k, args[k]);
    }
  }

  lemma LineFound(k: Text, v: Text)
    requires Sendable(k, v)
    ensures Found(PairLine(k, v)) == (k, v)
  {
    PairBack(k, v, []);
  }

  /** The pairs the daemon sends are the pairs the client finds. */
  lemma AnswerRoundTrip(order: seq<Text>, args: map<Text, Text>, rest: Text)
    requires Order(order, args) && forall k :: k in args ==> Sendable(k, args[k])
    ensures PairsOf(AnswerLines(PairLines(order, args) + [NL] + rest)) == args
  {
    LinesBack(order, args, rest);
    PairsBack(order, args);
    assert Restricted(order, args) == args;
  }
}
