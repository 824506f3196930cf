/** Escaping bytes as a marker and two hexadecimal digits (section 2.1 of RFC 3986), and back. */
module Encode {

  import opened Bytes
  import opened Wrappers

  const PERCENT: Byte := 37
  const TILDE: Byte := 126
  const PLUS: Byte := 43
  const SPACE: Byte := 32

  const HEX: seq<Byte> := [48, 49, 50, 51, 52, 53, 54, 55, 56, 57, 65, 66, 67, 68, 69, 70]   // 0-9A-F

  // ---- which bytes are escaped ----

  /** `% # + \ ; = " ' ` ? & ~ < > /`, blanks and control bytes, and everything beyond ASCII. */
  predicate ShouldEscapeFile(c: Byte, pct: Byte) {
    || c == pct
    || c in [37, 35, 43, 92, 59, 61, 34, 39, 96, 63, 38, 126, 60, 62, 47]
    || c <= SPACE || c >= 127
  }

  /** `/ \ + ? ; & : = $ @ ,`, blanks and control bytes, and everything beyond ASCII. */
  predicate ShouldEscapeUrl(c: Byte, pct: Byte) {
    || c == pct
    || c in [32, 47, 92, 43, 63, 59, 38, 58, 61, 36, 64, 44]
    || c <= SPACE || c >= 127
  }

  /** Everything but letters and digits. */
  predicate ShouldEscapePunct(c: Byte, pct: Byte) {
    c == pct || c < 48 || 57 < c < 65 || 90 < c < 97 || c > 122
  }

  predicate LetterOrDigit(c: Byte) {
    'a' as int <= c as int <= 'z' as int || 'A' as int <= c as int <= 'Z' as int || '0' as int <= c as int <= '9' as int
  }

  /** In an address letters and digits go as they are, and so do these: ! " # ' ( ) * - . < > [ ] ^ _ ` { | } ~ */
  lemma UrlKeeps(c: Byte)
    ensures !ShouldEscapeUrl(c, 37) <==>
            LetterOrDigit(c) || c in [33, 34, 35, 39, 40, 41, 42, 45, 46, 60, 62, 91, 93, 94, 95, 96, 123, 124, 125, 126]
  {
  }

  /** In a file's name, letters and digits and these: ! $ ( ) * , - . : @ [ ] ^ _ { | } */
  lemma FileKeeps(c: Byte)
    ensures !ShouldEscapeFile(c, 126) <==>
            LetterOrDigit(c) || c in [33, 36, 40, 41, 42, 44, 45, 46, 58, 64, 91, 93, 94, 95, 123, 124, 125]
  {
  }

  /** Where punctuation is escaped, only letters and digits. */
  lemma PunctKeeps(c: Byte)
    ensures !ShouldEscapePunct(c, 126) <==> LetterOrDigit(c)
  {
  }

  // ---- encoding ----

  function Escaped(c: Byte, pct: Byte, should: (Byte, Byte) -> bool): (r: seq<Byte>)
    ensures |r| == if should(c, pct) then 3 else 1
  {
    if should(c, pct) then [pct, HEX[c / 16], HEX[c % 16]] else [c]
  }

  function Encoded(s: seq<Byte>, pct: Byte, should: (Byte, Byte) -> bool): seq<Byte> {
    if s == [] then [] else Escaped(s[0], pct, should) + Encoded(s[1..], pct, should)
  }

  function Count(s: seq<Byte>, pct: Byte, should: (Byte, Byte) -> bool): nat {
    if s == [] then 0 else (if should(s[0], pct) then 1 else 0) + Count(s[1..], pct, should)
  }

  lemma {:induction false} CountMore(s: seq<Byte>, i: nat, pct: Byte, should: (Byte, Byte) -> bool)
    requires i < |s|
    ensures Count(s[..i + 1], pct, should) == Count(s[..i], pct, should) + if should(s[i], pct) then 1 else 0
  {
    if i > 0 {
      CountMore(s[1..], i - 1, pct, should);
      assert s[1..][..i] == s[..i + 1][1..];
      assert s[1..][..i - 1] == s[..i][1..];
    }
  }

  lemma {:induction false} CountRest(s: seq<Byte>, i: nat, pct: Byte, should: (Byte, Byte) -> bool)
    requires i <= |s|
    ensures Count(s, pct, should) == Count(s[..i], pct, should) + Count(s[i..], pct, should)
  {
    if i > 0 {
      CountRest(s[1..], i - 1, pct, should);
      assert s[1..][..i - 1] == s[..i][1..];
      assert s[1..][i - 1..] == s[i..];
    } else {
      assert s[0..] == s;
    }
  }

  /** The encoding is two bytes longer for each escape. */
  lemma {:induction false} EncodedLength(s: seq<Byte>, pct: Byte, should: (Byte, Byte) -> bool)
    ensures |Encoded(s, pct, should)| == |s| + 2 * Count(s, pct, should)
  {
    if s != [] {
      EncodedLength(s[1..], pct, should);
    }
  }

  lemma {:induction false} EncodedMore(s: seq<Byte>, i: nat, pct: Byte, should: (Byte, Byte) -> bool)
    requires i < |s|
    ensures Encoded(s[..i + 1], pct, should) == Encoded(s[..i], pct, should) + Escaped(s[i], pct, should)
  {
    if i > 0 {
      EncodedMore(s[1..], i - 1, pct, should);
      assert s[1..][..i] == s[..i + 1][1..];
      assert s[1..][..i - 1] == s[..i][1..];
    }
  }

  lemma {:induction false} NothingToEscape(s: seq<Byte>, pct: Byte, should: (Byte, Byte) -> bool)
    requires Count(s, pct, should) == 0
    ensures Encoded(s, pct, should) == s
  {
    if s != [] {
      NothingToEscape(s[1..], pct, should);
      assert s == [s[0]] + s[1..];
    }
  }

  /** Count the escapes, make a buffer of just the size needed, and fill it: it comes out exactly full. */
  method Encode(s: seq<Byte>, pct: Byte, should: (Byte, Byte) -> bool) returns (r: seq<Byte>)
    ensures r == Encoded(s, pct, should)
  {
    var hexCount := 0;
    for i := 0 to |s|
      invariant hexCount == Count(s[..i], pct, should)
    {
      CountMore(s, i, pct, should);
      if should(s[i], pct) {
        hexCount := hexCount + 1;
      }
    }
    assert s[..|s|] == s;
    if hexCount == 0 {
      NothingToEscape(s, pct, should);
      return s;
    }
    r := Fill(s, pct, should, hexCount);
  }

  /** The second pass. */
  method Fill(s: seq<Byte>, pct: Byte, should: (Byte, Byte) -> bool, hexCount: nat) returns (r: seq<Byte>)
    requires hexCount == Count(s, pct, should)
    ensures r == Encoded(s, pct, should) && |r| == |s| + 2 * hexCount
  {
    var t := new Byte[|s| + 2 * hexCount];
    var j := 0;
    for i := 0 to |s|
      invariant j == i + 2 * Count(s[..i], pct, should) <= t.Length
      invariant t[..j] == Encoded(s[..i], pct, should)
    {
      var c := s[i];
      Fits(s, i, pct, should);
      EncodedMore(s, i, pct, should);
      ghost var out := t[..j];
      if should(c, pct) {
        PutEscape(t, j, c, pct);
        j := j + 3;
      } else {
        t[j] := c;
        assert t[..j + 1] == out + [c];
        j := j + 1;
      }
    }
    assert s[..|s|] == s;
    r := t[..];
    assert t[..j] == t[..];
  }

  method PutEscape(t: array<Byte>, j: nat, c: Byte, pct: Byte)
    requires j + 3 <= t.Length
    modifies t
    ensures t[..j + 3] == old(t[..j]) + [pct, HEX[c / 16], HEX[c % 16]]
  {
    t[j] := pct;
    t[j + 1] := HEX[c / 16];
    t[j + 2] := HEX[c % 16];
    assert t[..j] == old(t[..j]);
  }

  /** There is room for the next byte. */
  lemma Fits(s: seq<Byte>, i: nat, pct: Byte, should: (Byte, Byte) -> bool)
    requires i < |s|
    ensures var need := if should(s[i], pct) then 3 else 1;
            i + 2 * Count(s[..i], pct, should) + need <= |s| + 2 * Count(s, pct, should)
    ensures Count(s[..i + 1], pct, should) == Count(s[..i], pct, should) + if should(s[i], pct) then 1 else 0
  {
    CountMore(s, i, pct, should);
    CountRest(s, i + 1, pct, should);
  }

  // ---- decoding ----

  predicate IsHex(c: Byte) {
    48 <= c <= 57 || 65 <= c <= 70 || 97 <= c <= 102
  }

  function Unhex(c: Byte): (v: nat)
    requires IsHex(c)
    ensures v < 16
  {
    if c <= 57 then c - 48 else if c <= 70 then c - 55 else c - 87
  }

  /** Percent escapes and plus signs undone; nothing if an escape is malformed. */
  function Unescape(s: seq<Byte>): Option<seq<Byte>> {
    if s == [] then Some([])
    else if s[0] == PERCENT then
      if |s| < 3 || !IsHex(s[1]) || !IsHex(s[2]) then None
      else
        match Unescape(s[3..])
        case None => None
        case Some(r) => Some([(16 * Unhex(s[1]) + Unhex(s[2])) as Byte] + r)
    else
      match Unescape(s[1..])
      case None => None
      case Some(r) => Some([if s[0] == PLUS then SPACE else s[0]] + r)
  }

  /** What holds no marker decodes to itself, but for plus signs, which stand for spaces. */
  lemma {:induction false} UnescapePlain(s: seq<Byte>)
    requires 37 !in s
    ensures Unescape(s).Some? && |Unescape(s).value| == |s|
    ensures forall i :: 0 <= i < |s| ==> Unescape(s).value[i] == if s[i] == 43 then 32 else s[i]
  {
    if s != [] {
      UnescapePlain(s[1..]);
    }
  }

  /** What decodes does so in front of anything, and leaves the rest to be decoded. */
  lemma {:induction false} UnescapeInFront(a: seq<Byte>, b: seq<Byte>)
    requires Unescape(a).Some?
    ensures Unescape(b).None? ==> Unescape(a + b).None?
    ensures Unescape(b).Some? ==> Unescape(a + b) == Some(Unescape(a).value + Unescape(b).value)
    decreases |a|
  {
    if a == [] {
      assert a + b == b;
      if Unescape(b).Some? {
        assert [] + Unescape(b).value == Unescape(b).value;
      }
    } else {
      var n := if a[0] == PERCENT then 3 else 1;
      assert (a + b)[n..] == a[n..] + b;
      UnescapeInFront(a[n..], b);
      if Unescape(b).Some? {
        var x := Unescape(a).value[..1];
        assert Unescape(a).value == x + Unescape(a[n..]).value;
        var y, z := Unescape(a[n..]).value, Unescape(b).value;
        assert Unescape(a + b).value == x + (y + z);
        assert x + (y + z) == x + y + z;
      }
    }
  }

  /** A marker without two hexadecimal digits behind it spoils everything; with them, in either case, it is their value. */
  lemma UnescapeMarker(s: seq<Byte>)
    requires s != [] && s[0] == 37
    ensures |s| < 3 || !HexChar(s[1]) || !HexChar(s[2]) ==> Unescape(s).None?
    ensures |s| == 3 && HexChar(s[1]) && HexChar(s[2]) ==>
              Unescape(s).Some? && |Unescape(s).value| == 1
              && Unescape(s).value[0] as int == 16 * HexValue(s[1]) + HexValue(s[2])
  {
    if |s| == 3 {
      assert s[3..] == [] && Unescape(s[3..]) == Some([]);
    }
  }

  predicate HexChar(c: Byte) {
    || '0' as int <= c as int <= '9' as int || 'A' as int <= c as int <= 'F' as int || 'a' as int <= c as int <= 'f' as int
  }

  function HexValue(c: Byte): int {
    if c as int <= '9' as int then c as int - '0' as int
    else if c as int <= 'F' as int then c as int - 'A' as int + 10 else c as int - 'a' as int + 10
  }

  function UrlEncode(s: seq<Byte>): seq<Byte> {
    Encoded(s, PERCENT, ShouldEscapeUrl)
  }

  /** Nothing at all when the text is malformed. */
  function UrlDecode(s: seq<Byte>): seq<Byte> {
    match Unescape(s)
    case None => []
    case Some(r) => r
  }

  lemma HexDigit(k: nat)
    requires k < 16
    ensures HEX[k] as int == if k < 10 then 48 + k else 55 + k
  {
    assert forall i :: 0 <= i < 16 ==> HEX[i] as int == if i < 10 then 48 + i else 55 + i;
  }

  lemma UnhexDigit(k: nat)
    requires k < 16
    ensures IsHex(HEX[k]) && Unhex(HEX[k]) == k
  {
    HexDigit(k);
  }

  lemma HexBack(c: Byte)
    ensures IsHex(HEX[c / 16]) && IsHex(HEX[c % 16])
    ensures 16 * Unhex(HEX[c / 16]) + Unhex(HEX[c % 16]) == c
  {
    UnhexDigit(c / 16);
    UnhexDigit(c % 16);
  }

  /** Decoding gives back what was encoded. */
  lemma {:induction false} DecodeEncode(s: seq<Byte>)
    ensures Unescape(UrlEncode(s)) == Some(s)
    ensures UrlDecode(UrlEncode(s)) == s
  {
    if s != [] {
      var e := Escaped(s[0], PERCENT, ShouldEscapeUrl);
      DecodeEncode(s[1..]);
      HexBack(s[0]);
      Past(e, UrlEncode(s[1..]));
      assert s == [s[0]] + s[1..];
    }
  }

  lemma Past(a: seq<Byte>, b: seq<Byte>)
    ensures (a + b)[|a|..] == b
  {
  }

  /** Escapers leave hexadecimal digits alone and escape their own marker. */
  ghost predicate Escaper(pct: Byte, should: (Byte, Byte) -> bool) {
    should(pct, pct) && forall k :: 0 <= k < 16 ==> !should(HEX[k], pct)
  }

  lemma TheEscapers()
    ensures Escaper(PERCENT, ShouldEscapeUrl) && Escaper(TILDE, ShouldEscapeFile) && Escaper(TILDE, ShouldEscapePunct)
  {
    forall k: nat | k < 16
      ensures !ShouldEscapeUrl(HEX[k], PERCENT) && !ShouldEscapeFile(HEX[k], TILDE) && !ShouldEscapePunct(HEX[k], TILDE)
    {
      HexDigit(k);
    }
  }

  /** What comes out is the marker, or a byte that needs no escaping. */
  lemma {:induction false} Harmless(s: seq<Byte>, pct: Byte, should: (Byte, Byte) -> bool)
    requires Escaper(pct, should)
    ensures forall i :: 0 <= i < |Encoded(s, pct, should)| ==>
                          var c := Encoded(s, pct, should)[i]; c == pct || !should(c, pct)
  {
    if s != [] {
      Harmless(s[1..], pct, should);
    }
  }

  /** No two texts have one encoding, whichever escaper is used. */
  lemma {:induction false} EncodedApart(s: seq<Byte>, t: seq<Byte>, pct: Byte, should: (Byte, Byte) -> bool)
    requires Escaper(pct, should) && Encoded(s, pct, should) == Encoded(t, pct, should)
    ensures s == t
  {
    if s == [] || t == [] {
      EncodedLength(s, pct, should);
      EncodedLength(t, pct, should);
    } else {
      var a, b := Escaped(s[0], pct, should), Escaped(t[0], pct, should);
      var e := Encoded(s, pct, should);
      assert e[0] == a[0] == b[0];
      assert |a| == 3 ==> e[1] == a[1] && e[2] == a[2];
      assert |b| == 3 ==> e[1] == b[1] && e[2] == b[2];
      HexBack(s[0]);
      HexBack(t[0]);
      assert s[0] == t[0];
      Past(a, Encoded(s[1..], pct, should));
      Past(b, Encoded(t[1..], pct, should));
      EncodedApart(s[1..], t[1..], pct, should);
      assert s == [s[0]] + s[1..] && t == [t[0]] + t[1..];
    }
  }
}
