/** Mail encoding: the hand-written base64 encoder against a decoder of section 4 of RFC 4648, and the line-ending
    normaliser. */
module Mail {
  import opened Prelude

  type byte = bv8

  // ---- the alphabet ----

  const UPPER: string := "ABCDEFGHIJKLMNOPQRSTUVWXYZ"
  const LOWER: string := "abcdefghijklmnopqrstuvwxyz"
  const TABLE: string := UPPER + LOWER + "0123456789" + "+/"

  /** Six bits. */
  type Sextet = s: bv8 | s < 64 witness 0

  /** Table 1 of RFC 4648. */
  function Letter(v: nat): char
    requires v < 64
  {
    if v < 26 then 'A' + v as char
    else if v < 52 then 'a' + (v - 26) as char
    else if v < 62 then '0' + (v - 52) as char
    else if v == 62 then '+' else '/'
  }

  lemma TableIsTheAlphabet(v: nat)
    requires v < 64
    ensures |TABLE| == 64 && TABLE[v] == Letter(v)
  {
  }

  function Symbol(s: Sextet): char {
    assert s as int < 64;
    Letter(s as int)
  }

  /** The six bits a symbol of that table stands for, if it is one. */
  ghost function SymbolValue(c: char): (v: Option<Sextet>)
    ensures v.Some? ==> Symbol(v.value) == c
  {
    if s: Sextet :| Symbol(s) == c then Some(s) else None
  }

  lemma LettersDiffer(v: nat, w: nat)
    requires v < 64 && w < 64 && Letter(v) == Letter(w)
    ensures v == w && Letter(v) != '='
  {
  }

  lemma SymbolRoundTrip(s: Sextet)
    ensures SymbolValue(Symbol(s)) == Some(s) && Symbol(s) != '='
  {
    var t := SymbolValue(Symbol(s)).value;
    LettersDiffer(s as int, t as int);
    assert s as int == t as int;
  }

  // ---- the encoder ----

  /** The four sextets of three bytes. */
  function First(b0: byte): Sextet { b0 >> 2 }
  function Second(b0: byte, b1: byte): Sextet { ((b0 & 0x03) << 4) | (b1 >> 4) }
  function Third(b1: byte, b2: byte): Sextet { ((b1 & 0x0f) << 2) | (b2 >> 6) }
  function Fourth(b2: byte): Sextet { b2 & 0x3f }

  /** Side by side, most significant first, the four sextets are the 24 bits of the three bytes. */
  lemma SextetsConcatenate(b0: byte, b1: byte, b2: byte)
    ensures ((First(b0) as bv24) << 18) | ((Second(b0, b1) as bv24) << 12) | ((Third(b1, b2) as bv24) << 6)
            | (Fourth(b2) as bv24)
            == ((b0 as bv24) << 16) | ((b1 as bv24) << 8) | (b2 as bv24)
  {
  }

  /** The four symbols of one group of up to three bytes. */
  function Group(src: seq<byte>): string
    requires 1 <= |src| <= 3
  {
    var b1 := if |src| > 1 then src[1] else 0;
    var b2 := if |src| > 2 then src[2] else 0;
    [Symbol(First(src[0])),
     Symbol(Second(src[0], b1)),
     if |src| > 1 then Symbol(Third(b1, b2)) else '=',
     if |src| > 2 then Symbol(Fourth(b2)) else '=']
  }

  function Encode(src: seq<byte>): string {
    if src == [] then ""
    else if |src| <= 3 then Group(src)
    else Group(src[..3]) + Encode(src[3..])
  }

  /** The encoder's look-up: an index into its own table. */
  function Entry(s: Sextet): (c: char)
    ensures c == Symbol(s)
  {
    assert s as int < 64;
    TableIsTheAlphabet(s as int);
    TABLE[s as int]
  }

  /** The encoder's loop: three bytes at a time, the missing ones read as zero. */
  method Base64Std(src: seq<byte>) returns (out: string)
    ensures out == Encode(src)
  {
    out := "";
    var i := 0;
    while i < |src|
      invariant 0 <= i
      invariant out + Encode(if i < |src| then src[i..] else []) == Encode(src)
      decreases |src| - i
    {
      var n := if |src| - i < 3 then |src| - i else 3;
      var b0 := src[i];
      var b1 := if n > 1 then src[i + 1] else 0;
      var b2 := if n > 2 then src[i + 2] else 0;
      var c0, c1 := Entry(First(b0)), Entry(Second(b0, b1));
      var c2 := if n > 1 then Entry(Third(b1, b2)) else '=';
      var c3 := if n > 2 then Entry(Fourth(b2)) else '=';
      assert src[i..i + n] == src[i..][..n] && (n == 3 ==> src[i..][3..] == src[i + 3..]);
      assert Group(src[i..i + n]) == [c0, c1, c2, c3];
      out := out + [c0, c1, c2, c3];
      i := i + 3;
    }
  }

  // ---- the decoder ----

  function Byte0(v0: Sextet, v1: Sextet): byte { (v0 << 2) | (v1 >> 4) }
  function Byte1(v1: Sextet, v2: Sextet): byte { (v1 << 4) | (v2 >> 2) }
  function Byte2(v2: Sextet, v3: Sextet): byte { (v2 << 6) | v3 }

  /** One group of four symbols: three bytes, or fewer with padding, whose pad bits have to be zero. */
  ghost function DecodeGroup(g: string): Option<seq<byte>>
    requires |g| == 4
  {
    match (SymbolValue(g[0]), SymbolValue(g[1]), SymbolValue(g[2]), SymbolValue(g[3]))
    case (Some(v0), Some(v1), Some(v2), Some(v3)) => Some([Byte0(v0, v1), Byte1(v1, v2), Byte2(v2, v3)])
    case (Some(v0), Some(v1), Some(v2), None) =>
      if g[3] == '=' && v2 & 0x03 == 0 then Some([Byte0(v0, v1), Byte1(v1, v2)]) else None
    case (Some(v0), Some(v1), None, _) =>
      if g[2] == '=' && g[3] == '=' && v1 & 0x0f == 0 then Some([Byte0(v0, v1)]) else None
    case _ => None
  }

  /** RFC 4648, section 4: groups of four symbols, padding only in the last one. */
  ghost function Decode(t: string): Option<seq<byte>> {
    if t == "" then Some([])
    else if |t| < 4 then None
    else
      match (DecodeGroup(t[..4]), Decode(t[4..]))
      case (Some(head), Some(rest)) => if |head| == 3 || t[4..] == "" then Some(head + rest) else None
      case _ => None
  }

  lemma BytesOfSextets(b0: byte, b1: byte, b2: byte)
    ensures Byte0(First(b0), Second(b0, b1)) == b0
    ensures Byte1(Second(b0, b1), Third(b1, b2)) == b1
    ensures Byte2(Third(b1, b2), Fourth(b2)) == b2
    ensures Second(b0, 0) & 0x0f == 0 && Third(b1, 0) & 0x03 == 0
  {
  }

  lemma SextetsOfBytes(v0: Sextet, v1: Sextet, v2: Sextet, v3: Sextet)
    ensures First(Byte0(v0, v1)) == v0
    ensures Second(Byte0(v0, v1), Byte1(v1, v2)) == v1
    ensures Third(Byte1(v1, v2), Byte2(v2, v3)) == v2
    ensures Fourth(Byte2(v2, v3)) == v3
    ensures v1 & 0x0f == 0 ==> Second(Byte0(v0, v1), 0) == v1
    ensures v2 & 0x03 == 0 ==> Third(Byte1(v1, v2), 0) == v2
  {
  }

  lemma GroupRoundTrip(src: seq<byte>)
    requires 1 <= |src| <= 3
    ensures DecodeGroup(Group(src)) == Some(src)
  {
    var b1 := if |src| > 1 then src[1] else 0;
    var b2 := if |src| > 2 then src[2] else 0;
    SymbolRoundTrip(First(src[0]));
    SymbolRoundTrip(Second(src[0], b1));
    SymbolRoundTrip(Third(b1, b2));
    SymbolRoundTrip(Fourth(b2));
    BytesOfSextets(src[0], b1, b2);
    assert src == if |src| == 1 then [src[0]] else if |src| == 2 then [src[0], src[1]] else [src[0], src[1], src[2]];
  }

  lemma GroupFromDecoded(g: string)
    requires |g| == 4 && DecodeGroup(g).Some?
    ensures var src := DecodeGroup(g).value; 1 <= |src| <= 3 && Group(src) == g
  {
    var v0, v1 := SymbolValue(g[0]).value, SymbolValue(g[1]).value;
    var v2 := if SymbolValue(g[2]).Some? then SymbolValue(g[2]).value else 0;
    var v3 := if SymbolValue(g[3]).Some? then SymbolValue(g[3]).value else 0;
    SextetsOfBytes(v0, v1, v2, v3);
    var src := DecodeGroup(g).value;
    assert g == [g[0], g[1], g[2], g[3]];
    assert Symbol(v0) == g[0] && Symbol(v1) == g[1];
    assert |src| >= 2 ==> Symbol(v2) == g[2];
    assert |src| == 3 ==> Symbol(v3) == g[3];
  }

  /** Decoding inverts encoding on every byte string. */
  lemma {:induction false} DecodeEncode(src: seq<byte>)
    ensures Decode(Encode(src)) == Some(src)
  {
    if 0 < |src| <= 3 {
      GroupRoundTrip(src);
      var t := Encode(src);
      assert t[..4] == t && t[4..] == "" && src + [] == src;
    } else if |src| > 3 {
      GroupRoundTrip(src[..3]);
      DecodeEncode(src[3..]);
      var t := Encode(src);
      assert t[..4] == Group(src[..3]) && t[4..] == Encode(src[3..]);
      assert src == src[..3] + src[3..];
    }
  }

  /** And nothing else decodes: what decodes to a byte string is its encoding. */
  lemma {:induction false} EncodeDecode(t: string)
    requires Decode(t).Some?
    ensures Encode(Decode(t).value) == t
  {
    if t == "" {
    } else {
      GroupFromDecoded(t[..4]);
      EncodeDecode(t[4..]);
      var head, rest := DecodeGroup(t[..4]).value, Decode(t[4..]).value;
      assert t == t[..4] + t[4..];
      if rest == [] {
        assert head + rest == head && t[4..] == "";
      } else {
        assert (head + rest)[..3] == head && (head + rest)[3..] == rest;
      }
    }
  }

  /** The encoder's output, without mention of the encoder: the one text the standard's decoder maps to the input. */
  lemma EncodingIffDecodes(src: seq<byte>, t: string)
    ensures t == Encode(src) <==> Decode(t) == Some(src)
  {
    DecodeEncode(src);
    if Decode(t).Some? { EncodeDecode(t); }
  }

  /** Four symbols for every three bytes or part of three, and padding in the last group alone: one '=' when two
      bytes are left over, two when one is. */
  lemma {:induction false} EncodedShape(src: seq<byte>)
    ensures |Encode(src)| == (|src| + 2) / 3 * 4
    ensures forall k :: 0 <= k < |Encode(src)| ==>
              (Encode(src)[k] == '=' <==> k >= |Encode(src)| - (3 - |src| % 3) % 3)
  {
    if 0 < |src| <= 3 {
      GroupPadding(src);
    } else if |src| > 3 {
      GroupPadding(src[..3]);
      EncodedShape(src[3..]);
      var head, rest := Group(src[..3]), Encode(src[3..]);
      assert Encode(src) == head + rest && |src[3..]| % 3 == |src| % 3;
      assert forall k :: 4 <= k < |head + rest| ==> (head + rest)[k] == rest[k - 4];
    }
  }

  lemma GroupPadding(src: seq<byte>)
    requires 1 <= |src| <= 3
    ensures |Group(src)| == 4
    ensures forall k :: 0 <= k < 4 ==> (Group(src)[k] == '=' <==> k > |src|)
  {
    var b1 := if |src| > 1 then src[1] else 0;
    var b2 := if |src| > 2 then src[2] else 0;
    SymbolRoundTrip(First(src[0]));
    SymbolRoundTrip(Second(src[0], b1));
    SymbolRoundTrip(Third(b1, b2));
    SymbolRoundTrip(Fourth(b2));
  }

  // ---- line endings ----

  /** strings.ReplaceAll(s, "\r\n", "\n"). */
  function Collapse(s: string): string {
    if |s| >= 2 && s[0] == '\r' && s[1] == '\n' then "\n" + Collapse(s[2..])
    else if s == "" then ""
    else [s[0]] + Collapse(s[1..])
  }

  /** strings.ReplaceAll(s, "\n", "\r\n"). */
  function Expand(s: string): string {
    if s == "" then ""
    else (if s[0] == '\n' then "\r\n" else [s[0]]) + Expand(s[1..])
  }

  function NormalizeBody(body: string): string {
    Expand(Collapse(body))
  }

  lemma {:induction false} CollapseExpand(s: string)
    ensures Collapse(Expand(s)) == s
    ensures Expand(s) != "" ==> Expand(s)[0] != '\n'
  {
    if s == "" {
    } else {
      CollapseExpand(s[1..]);
      assert Expand(s)[if s[0] == '\n' then 2 else 1..] == Expand(s[1..]);
      assert s == [s[0]] + s[1..];
    }
  }

  /** No bare line feed is left. */
  lemma {:induction false} NoBareLineFeed(s: string)
    ensures forall k :: 0 <= k < |Expand(s)| && Expand(s)[k] == '\n' ==> k > 0 && Expand(s)[k - 1] == '\r'
  {
    if s == "" {
    } else {
      NoBareLineFeed(s[1..]);
      CollapseExpand(s[1..]);
      var n := if s[0] == '\n' then 2 else 1;
      forall k | 0 <= k < |Expand(s)| && Expand(s)[k] == '\n' ensures k > 0 && Expand(s)[k - 1] == '\r' {
        if k >= n { assert Expand(s)[k] == Expand(s[1..])[k - n]; }
      }
    }
  }

  /** A normalised body has no bare line feed, normalising it again changes nothing, and two bodies come out the same
      exactly when they differ only in line endings. */
  lemma NormalForm(body: string, other: string)
    ensures var n := NormalizeBody(body);
            forall k :: 0 <= k < |n| && n[k] == '\n' ==> k > 0 && n[k - 1] == '\r'
    ensures NormalizeBody(NormalizeBody(body)) == NormalizeBody(body)
    ensures NormalizeBody(body) == NormalizeBody(other) <==> Collapse(body) == Collapse(other)
  {
    NoBareLineFeed(Collapse(body));
    CollapseExpand(Collapse(body));
    CollapseExpand(Collapse(other));
  }
}
