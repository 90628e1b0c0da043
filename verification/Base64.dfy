/**
 The byte encoder and a strict decoder for it: RFC 4648, section 4, with zero pad bits as section 3.5
 requires. Shifts and masks of bytes are written as division and remainder by powers of two.
 */
module Base64 {
  import opened Wrappers

  type Byte = x: int | 0 <= x < 256

  type Sextet = x: int | 0 <= x < 64

  const UPPER := "ABCDEFGHIJKLMNOPQRSTUVWXYZ"
  const LOWER := "abcdefghijklmnopqrstuvwxyz"
  const ALPHABET := UPPER + LOWER + "0123456789+/"

  /** The alphabet by ranges. */
  function Digit(v: Sextet): (c: char)
  {
    if v < 26 then (65 + v) as char
    else if v < 52 then (97 + (v - 26)) as char
    else if v < 62 then (48 + (v - 52)) as char
    else if v == 62 then '+' else '/'
  }

  function Value(c: char): Option<Sextet>
  {
    if 'A' <= c <= 'Z' then Some(c as int - 65)
    else if 'a' <= c <= 'z' then Some(c as int - 97 + 26)
    else if '0' <= c <= '9' then Some(c as int - 48 + 52)
    else if c == '+' then Some(62)
    else if c == '/' then Some(63)
    else None
  }

  lemma UpperIsDigits(v: Sextet)
    requires v < 26
    ensures |UPPER| == 26 && UPPER[v] == Digit(v)
  {
    assert UPPER[v] as int == 65 + v;
  }

  lemma LowerIsDigits(v: Sextet)
    requires 26 <= v < 52
    ensures |LOWER| == 26 && LOWER[v - 26] == Digit(v)
  {
    assert LOWER[v - 26] as int == 97 + (v - 26);
  }

  lemma NumeralsAreDigits(v: Sextet)
    requires 52 <= v
    ensures "0123456789+/"[v - 52] == Digit(v)
  {
    assert v < 62 ==> "0123456789+/"[v - 52] as int == 48 + (v - 52);
  }

  lemma AlphabetIsDigits(v: Sextet)
    ensures |ALPHABET| == 64 && ALPHABET[v] == Digit(v)
  {
    if v < 26 {
      UpperIsDigits(v);
    } else if v < 52 {
      LowerIsDigits(v);
      assert ALPHABET[v] == LOWER[v - 26];
    } else {
      NumeralsAreDigits(v);
      assert ALPHABET[v] == "0123456789+/"[v - 52];
    }
  }

  lemma DigitsAreValues(v: Sextet)
    ensures Value(Digit(v)) == Some(v) && Digit(v) != '=' && Digit(v) != '.'
  {
  }

  lemma ValuesAreDigits(c: char)
    ensures Value(c).Some? ==> Digit(Value(c).value) == c && c != '='
  {
  }

  // ---------------------------------------------------------------- one group

  /** The four sextets of up to three bytes, absent bytes counting as zero. */
  function First(a: Byte): Sextet { a / 4 }
  function Second(a: Byte, b: Byte): Sextet { a % 4 * 16 + b / 16 }
  function Third(b: Byte, c: Byte): Sextet { b % 16 * 4 + c / 64 }
  function Fourth(c: Byte): Sextet { c % 64 }

  /** The bytes of four sextets. */
  function ByteA(p: Sextet, q: Sextet): Byte { p * 4 + q / 16 }
  function ByteB(q: Sextet, r: Sextet): Byte { q % 16 * 16 + r / 4 }
  function ByteC(r: Sextet, s: Sextet): Byte { r % 4 * 64 + s }

  lemma SextetsHoldTheBytes(a: Byte, b: Byte, c: Byte)
    ensures ByteA(First(a), Second(a, b)) == a
    ensures ByteB(Second(a, b), Third(b, c)) == b
    ensures ByteC(Third(b, c), Fourth(c)) == c
    ensures Second(a, 0) % 16 == 0 && Third(b, 0) % 4 == 0
  {
  }

  lemma BytesHoldTheSextets(p: Sextet, q: Sextet, r: Sextet, s: Sextet)
    ensures First(ByteA(p, q)) == p
    ensures Second(ByteA(p, q), ByteB(q, r)) == q && (q % 16 == 0 ==> Second(ByteA(p, q), 0) == q)
    ensures Third(ByteB(q, r), ByteC(r, s)) == r && (r % 4 == 0 ==> Third(ByteB(q, r), 0) == r)
    ensures Fourth(ByteC(r, s)) == s
  {
  }

  function One(a: Byte): string { [Digit(First(a)), Digit(Second(a, 0)), '=', '='] }
  function Two(a: Byte, b: Byte): string { [Digit(First(a)), Digit(Second(a, b)), Digit(Third(b, 0)), '='] }
  function Three(a: Byte, b: Byte, c: Byte): string
  {
    [Digit(First(a)), Digit(Second(a, b)), Digit(Third(b, c)), Digit(Fourth(c))]
  }

  function Printed(group: seq<Byte>): (text: string)
    requires 1 <= |group| <= 3
    ensures |text| == 4
  {
    if |group| == 1 then One(group[0])
    else if |group| == 2 then Two(group[0], group[1])
    else Three(group[0], group[1], group[2])
  }

  /** Zero pad bits are required. */
  function Unprinted(w: char, x: char, y: char, z: char): (group: Option<seq<Byte>>)
    ensures group.Some? ==> 1 <= |group.value| <= 3
  {
    if Value(w).None? || Value(x).None? then None
    else
      var p, q := Value(w).value, Value(x).value;
      if y == '=' then
        if z == '=' && q % 16 == 0 then Some([ByteA(p, q)]) else None
      else if Value(y).None? then None
      else
        var r := Value(y).value;
        if z == '=' then
          if r % 4 == 0 then Some([ByteA(p, q), ByteB(q, r)]) else None
        else if Value(z).None? then None
        else Some([ByteA(p, q), ByteB(q, r), ByteC(r, Value(z).value)])
  }

  lemma OneByteReadsBack(a: Byte)
    ensures Unprinted(Digit(First(a)), Digit(Second(a, 0)), '=', '=') == Some([a])
  {
    LoneByteSextets(a);
    DigitsAreValues(First(a));
    DigitsAreValues(Second(a, 0));
    PaddedQuad(Digit(First(a)), Digit(Second(a, 0)), First(a), Second(a, 0));
  }

  lemma LoneByteSextets(a: Byte)
    ensures Second(a, 0) % 16 == 0 && ByteA(First(a), Second(a, 0)) == a
  {
    assert Second(a, 0) == a % 4 * 16;
  }

  lemma PaddedQuad(w: char, x: char, p: Sextet, q: Sextet)
    requires Value(w) == Some(p) && Value(x) == Some(q) && q % 16 == 0
    ensures Unprinted(w, x, '=', '=') == Some([ByteA(p, q)])
  {
  }

  lemma TwoBytesReadBack(a: Byte, b: Byte)
    ensures Unprinted(Digit(First(a)), Digit(Second(a, b)), Digit(Third(b, 0)), '=') == Some([a, b])
  {
    SextetsHoldTheBytes(a, b, 0);
    DigitsAreValues(First(a));
    DigitsAreValues(Second(a, b));
    DigitsAreValues(Third(b, 0));
  }

  lemma ThreeBytesReadBack(a: Byte, b: Byte, c: Byte)
    ensures Unprinted(Digit(First(a)), Digit(Second(a, b)), Digit(Third(b, c)), Digit(Fourth(c))) == Some([a, b, c])
  {
    SextetsHoldTheBytes(a, b, c);
    DigitsAreValues(First(a));
    DigitsAreValues(Second(a, b));
    DigitsAreValues(Third(b, c));
    DigitsAreValues(Fourth(c));
  }

  lemma UnprintedUndoesPrinted(g: seq<Byte>)
    requires 1 <= |g| <= 3
    ensures var t := Printed(g); Unprinted(t[0], t[1], t[2], t[3]) == Some(g)
  {
    if |g| == 1 {
      OneByteReadsBack(g[0]);
      assert g == [g[0]];
    } else if |g| == 2 {
      TwoBytesReadBack(g[0], g[1]);
      assert g == [g[0], g[1]];
    } else {
      ThreeBytesReadBack(g[0], g[1], g[2]);
      assert g == [g[0], g[1], g[2]];
    }
  }

  lemma PrintedUndoesUnprinted(w: char, x: char, y: char, z: char)
    requires Unprinted(w, x, y, z).Some?
    ensures Printed(Unprinted(w, x, y, z).value) == [w, x, y, z]
  {
    ValuesAreDigits(w);
    ValuesAreDigits(x);
    ValuesAreDigits(y);
    ValuesAreDigits(z);
    var r: Sextet := if Value(y).Some? then Value(y).value else 0;
    var s: Sextet := if Value(z).Some? then Value(z).value else 0;
    BytesHoldTheSextets(Value(w).value, Value(x).value, r, s);
  }

  lemma PrintedHasNoDot(g: seq<Byte>)
    requires 1 <= |g| <= 3
    ensures '.' !in Printed(g)
  {
    var b: Byte := if |g| > 1 then g[1] else 0;
    var c: Byte := if |g| > 2 then g[2] else 0;
    DigitsAreValues(First(g[0]));
    DigitsAreValues(Second(g[0], b));
    DigitsAreValues(Third(b, c));
    DigitsAreValues(Fourth(c));
  }

  // ---------------------------------------------------------------- whole texts

  function Encode(bytes: seq<Byte>): string
  {
    if bytes == [] then ""
    else if |bytes| <= 3 then Printed(bytes)
    else Printed(bytes[..3]) + Encode(bytes[3..])
  }

  /** The lookup `BASE64_ALPHABET[v]`. */
  function Letter(v: Sextet): (c: char)
    ensures c == Digit(v)
  {
    AlphabetIsDigits(v);
    ALPHABET[v]
  }

  method BytesToBase64(bytes: seq<Byte>) returns (output: string)
    ensures output == Encode(bytes)
  {
    output := "";
    var offset := 0;
    while offset < |bytes|
      invariant 0 <= offset
      invariant Encode(bytes) == output + EncodeFrom(bytes, offset)
      decreases |bytes| - offset
    {
      var remaining := |bytes| - offset;
      var first := bytes[offset];
      var second: Byte := if remaining > 1 then bytes[offset + 1] else 0;
      var third: Byte := if remaining > 2 then bytes[offset + 2] else 0;
      ghost var before := output;
      NextGroup(bytes, offset, before);
      if remaining >= 3 {
        output := output + [Letter(first / 4), Letter(first % 4 * 16 + second / 16),
            Letter(second % 16 * 4 + third / 64), Letter(third % 64)];
        assert output == before + Three(first, second, third);
      } else if remaining == 2 {
        output := output + [Letter(first / 4), Letter(first % 4 * 16 + second / 16), Letter(second % 16 * 4), '='];
        assert output == before + Two(first, second);
      } else {
        output := output + [Letter(first / 4), Letter(first % 4 * 16), '=', '='];
        assert output == before + One(first);
      }
      offset := offset + 3;
    }
  }

  ghost function EncodeFrom(bytes: seq<Byte>, offset: nat): string
  {
    if offset < |bytes| then Encode(bytes[offset..]) else ""
  }

  lemma NextGroup(bytes: seq<Byte>, offset: nat, before: string)
    requires offset < |bytes|
    ensures var group :=
              if |bytes| - offset == 1 then One(bytes[offset])
              else if |bytes| - offset == 2 then Two(bytes[offset], bytes[offset + 1])
              else Three(bytes[offset], bytes[offset + 1], bytes[offset + 2]);
            before + EncodeFrom(bytes, offset) == before + group + EncodeFrom(bytes, offset + 3)
  {
    var rest := bytes[offset..];
    var n := if |rest| <= 3 then |rest| else 3;
    assert rest == rest[..n] + rest[n..];
    EncodeGroup(rest[..n], rest[n..]);
    assert offset + 3 < |bytes| ==> rest[n..] == bytes[offset + 3..];
  }

  /** A first group is printed on its own; only the last group may be short. */
  lemma EncodeGroup(g: seq<Byte>, rest: seq<Byte>)
    requires 1 <= |g| <= 3 && (|g| < 3 ==> rest == [])
    ensures Encode(g + rest) == Printed(g) + Encode(rest)
  {
    if rest == [] {
      assert g + rest == g;
    } else {
      assert (g + rest)[..3] == g && (g + rest)[3..] == rest;
    }
  }

  function Decode(text: string): Option<seq<Byte>>
  {
    if text == "" then Some([])
    else if |text| < 4 then None
    else
      var group := Unprinted(text[0], text[1], text[2], text[3]);
      if |text| == 4 then group
      else if group.None? || |group.value| < 3 || Decode(text[4..]).None? then None
      else Some(group.value + Decode(text[4..]).value)
  }

  /** Decoding undoes encoding. */
  lemma {:induction false} DecodeEncode(bytes: seq<Byte>)
    ensures Decode(Encode(bytes)) == Some(bytes)
  {
    if bytes == [] {
    } else {
      var n := if |bytes| <= 3 then |bytes| else 3;
      var g, rest := bytes[..n], bytes[n..];
      assert bytes == g + rest;
      UnprintedUndoesPrinted(g);
      EncodeGroup(g, rest);
      DecodeEncode(rest);
      EncodedLength(rest);
      DecodeGroup(Printed(g), Encode(rest), g, rest);
    }
  }

  lemma DecodeGroup(quad: string, tail: string, g: seq<Byte>, rest: seq<Byte>)
    requires |quad| == 4 && Unprinted(quad[0], quad[1], quad[2], quad[3]) == Some(g)
    requires Decode(tail) == Some(rest) && (tail != "" ==> |g| == 3) && (tail == "" <==> rest == [])
    ensures Decode(quad + tail) == Some(g + rest)
  {
    var text := quad + tail;
    assert text[4..] == tail;
    if tail == "" { assert g + rest == g; }
  }

  /** Encoding undoes decoding: every text the strict decoder accepts is the one the encoder prints. */
  lemma {:induction false} EncodeDecode(text: string)
    requires Decode(text).Some?
    ensures Encode(Decode(text).value) == text
  {
    if text == "" {
    } else {
      PrintedUndoesUnprinted(text[0], text[1], text[2], text[3]);
      var g, tail := Unprinted(text[0], text[1], text[2], text[3]).value, text[4..];
      assert text == [text[0], text[1], text[2], text[3]] + tail;
      EncodeDecode(tail);
      EncodeGroup(g, Decode(tail).value);
      assert tail == "" ==> g + [] == g;
    }
  }

  /** Four characters for every three bytes begun. */
  lemma {:induction false} EncodedLength(bytes: seq<Byte>)
    ensures |Encode(bytes)| == 4 * ((|bytes| + 2) / 3)
  {
    if |bytes| > 3 {
      EncodedLength(bytes[3..]);
      assert Encode(bytes) == Printed(bytes[..3]) + Encode(bytes[3..]);
      assert (|bytes| + 2) / 3 == (|bytes| - 3 + 2) / 3 + 1;
    } else if bytes != [] {
      assert Encode(bytes) == Printed(bytes);
    }
  }

  /** Encoding distributes over concatenation when the first part is a whole number of groups. */
  lemma {:induction false} EncodeConcat(a: seq<Byte>, b: seq<Byte>)
    requires |a| % 3 == 0
    ensures Encode(a + b) == Encode(a) + Encode(b)
  {
    if a == [] {
      assert a + b == b;
    } else {
      var g, tail := a[..3], a[3..];
      EncodeConcat(tail, b);
      GroupThenConcat(g, tail, b);
      assert a == g + tail;
    }
  }

  lemma GroupThenConcat(g: seq<Byte>, tail: seq<Byte>, b: seq<Byte>)
    requires |g| == 3 && Encode(tail + b) == Encode(tail) + Encode(b)
    ensures Encode(g + tail + b) == Encode(g + tail) + Encode(b)
  {
    assert g + tail + b == g + (tail + b);
    EncodeGroup(g, tail);
    EncodeGroup(g, tail + b);
    Regroup(Printed(g), Encode(tail), Encode(b));
  }

  lemma Regroup(a: string, b: string, c: string)
    ensures a + (b + c) == a + b + c
  {
  }

  /** Only alphabet characters and padding appear; in particular no dot. */
  lemma {:induction false} NoDots(bytes: seq<Byte>)
    ensures '.' !in Encode(bytes)
  {
    if bytes == [] {
    } else {
      PrintedHasNoDot(if |bytes| <= 3 then bytes else bytes[..3]);
      if |bytes| > 3 { NoDots(bytes[3..]); }
    }
  }

  // ---------------------------------------------------------------- the forgiving decoder

  /** ASCII white space, which forgiving decoding skips. */
  predicate IsBlank(c: char)
  {
    c in "\t\n\r " || c == '\U{000C}'
  }

  function Unspaced(text: string): string
  {
    if text == "" then ""
    else if IsBlank(text[0]) then Unspaced(text[1..])
    else [text[0]] + Unspaced(text[1..])
  }

  /** Up to two padding characters go, if they complete a group of four. */
  function Unpadded(text: string): string
  {
    if text == "" || |text| % 4 != 0 || text[|text| - 1] != '=' then text
    else if text[|text| - 2] == '=' then text[..|text| - 2]
    else text[..|text| - 1]
  }

  /** Digits to bytes; left-over bits of a short last group are dropped, and a lone last digit is an error. */
  function Bytes(digits: string): Option<seq<Byte>>
  {
    if digits == "" then Some([])
    else if |digits| == 1 || Value(digits[0]).None? || Value(digits[1]).None? then None
    else
      var p, q := Value(digits[0]).value, Value(digits[1]).value;
      if |digits| == 2 then Some([ByteA(p, q)])
      else if Value(digits[2]).None? then None
      else
        var r := Value(digits[2]).value;
        if |digits| == 3 then Some([ByteA(p, q), ByteB(q, r)])
        else if Value(digits[3]).None? || Bytes(digits[4..]).None? then None
        else Some([ByteA(p, q), ByteB(q, r), ByteC(r, Value(digits[3]).value)] + Bytes(digits[4..]).value)
  }

  /** `atob`: the forgiving base64 decoding of the Infra Standard. */
  function Atob(text: string): Option<seq<Byte>> { Bytes(Unpadded(Unspaced(text))) }

  lemma {:induction false} DigitsAreKept(text: string)
    requires forall i | 0 <= i < |text| :: !IsBlank(text[i])
    ensures Unspaced(text) == text
  {
    if text == "" {
    } else {
      DigitsAreKept(text[1..]);
      assert text == [text[0]] + text[1..];
    }
  }

  lemma DecodesGroupwise(text: string)
    requires Decode(text).Some? && text != ""
    ensures |text| >= 4 && Unprinted(text[0], text[1], text[2], text[3]).Some? && Decode(text[4..]).Some?
    ensures |text| > 4 ==> |Unprinted(text[0], text[1], text[2], text[3]).value| == 3
    ensures Decode(text).value == Unprinted(text[0], text[1], text[2], text[3]).value + Decode(text[4..]).value
  {
    assert |text| == 4 ==> text[4..] == "";
  }

  /** What the strict decoder accepts comes in whole groups and holds no white space. */
  lemma StrictTextsAreWhole(text: string)
    requires Decode(text).Some?
    ensures |text| % 4 == 0
  {
    EncodeDecode(text);
    EncodingsAreWhole(Decode(text).value);
  }

  lemma EncodingsAreWhole(bytes: seq<Byte>)
    ensures |Encode(bytes)| % 4 == 0
  {
    EncodedLength(bytes);
    Fours((|bytes| + 2) / 3);
  }

  lemma Fours(groups: nat)
    ensures 4 * groups % 4 == 0
  {
  }

  lemma {:induction false} StrictTextsAreClean(text: string)
    requires Decode(text).Some?
    ensures forall i | 0 <= i < |text| :: !IsBlank(text[i])
  {
    if text == "" {
    } else {
      DecodesGroupwise(text);
      QuadIsClean(text[0], text[1], text[2], text[3]);
      StrictTextsAreClean(text[4..]);
      assert forall i | 4 <= i < |text| :: text[i] == text[4..][i - 4];
    }
  }

  lemma QuadIsClean(w: char, x: char, y: char, z: char)
    requires Unprinted(w, x, y, z).Some?
    ensures !IsBlank(w) && !IsBlank(x) && !IsBlank(y) && !IsBlank(z)
  {
  }

  lemma {:induction false} StrictBytes(text: string)
    requires Decode(text).Some?
    ensures Bytes(Unpadded(text)) == Decode(text)
  {
    if text == "" {
    } else if |text| == 4 {
      DecodesGroupwise(text);
      QuadBytes(text[0], text[1], text[2], text[3]);
      assert text == [text[0], text[1], text[2], text[3]];
    } else {
      DecodesGroupwise(text);
      StrictTextsAreWhole(text);
      StrictBytes(text[4..]);
      UnpaddedTail(text);
      GroupThenBytes(text[..4], Unpadded(text[4..]), Unprinted(text[0], text[1], text[2], text[3]).value);
    }
  }

  lemma UnpaddedTail(text: string)
    requires |text| > 4 && |text| % 4 == 0
    ensures Unpadded(text) == text[..4] + Unpadded(text[4..])
  {
    assert text == text[..4] + text[4..];
  }

  lemma QuadBytes(w: char, x: char, y: char, z: char)
    requires Unprinted(w, x, y, z).Some?
    ensures Bytes(Unpadded([w, x, y, z])) == Unprinted(w, x, y, z)
  {
    var text := [w, x, y, z];
    if y == '=' {
      assert Unpadded(text) == [w, x];
    } else if z == '=' {
      assert Unpadded(text) == [w, x, y];
    } else {
      assert Unpadded(text) == text && text[4..] == "" && Bytes("") == Some([]);
      ValuesAreDigits(z);
      FullQuad(text, Unprinted(w, x, y, z).value);
    }
  }

  lemma FullQuad(quad: string, g: seq<Byte>)
    requires |quad| == 4 && Unprinted(quad[0], quad[1], quad[2], quad[3]) == Some(g) && quad[3] != '='
    ensures Bytes(quad) == Some(g)
  {
    GroupThenBytes(quad, "", g);
    assert quad + "" == quad && g + [] == g;
  }

  lemma GroupThenBytes(quad: string, rest: string, g: seq<Byte>)
    requires |quad| == 4 && Unprinted(quad[0], quad[1], quad[2], quad[3]) == Some(g) && |g| == 3
    requires Bytes(rest).Some?
    ensures Bytes(quad + rest) == Some(g + Bytes(rest).value)
  {
    assert (quad + rest)[4..] == rest;
  }

  /** The forgiving decoder agrees with the strict one wherever that one accepts, so it undoes the encoder too. */
  lemma AtobExtendsDecode(text: string)
    requires Decode(text).Some?
    ensures Atob(text) == Decode(text)
  {
    StrictTextsAreClean(text);
    DigitsAreKept(text);
    StrictBytes(text);
  }

  lemma AtobUndoesEncode(bytes: seq<Byte>)
    ensures Atob(Encode(bytes)) == Some(bytes)
  {
    DecodeEncode(bytes);
    AtobExtendsDecode(Encode(bytes));
  }

  /** A text that decodes is the encoder's own exactly when the strict decoder accepts it. */
  lemma CanonicalIff(text: string)
    requires Atob(text).Some?
    ensures Encode(Atob(text).value) == text <==> Decode(text).Some?
  {
    if Decode(text).Some? {
      AtobExtendsDecode(text);
      EncodeDecode(text);
    }
    DecodeEncode(Atob(text).value);
  }

  /** Dropping the padding changes nothing for the forgiving decoder. */
  lemma PaddingIsOptional(bytes: seq<Byte>)
    ensures Atob(Unpadded(Encode(bytes))) == Some(bytes)
    ensures |bytes| % 3 != 0 ==> Unpadded(Encode(bytes)) != Encode(bytes)
  {
    DecodeEncode(bytes);
    UnpaddedDecodes(Encode(bytes));
    if |bytes| % 3 != 0 {
      EndOfEncoding(bytes);
      EncodingsAreWhole(bytes);
      UnpaddedTwice(Encode(bytes));
    }
  }

  lemma UnpaddedDecodes(text: string)
    requires Decode(text).Some?
    ensures Atob(Unpadded(text)) == Decode(text)
  {
    StrictTextsAreClean(text);
    StrictTextsAreWhole(text);
    StrictBytes(text);
    UnpaddedTwice(text);
    DigitsAreKept(Unpadded(text));
  }

  lemma UnpaddedTwice(text: string)
    requires |text| % 4 == 0
    ensures Unpadded(Unpadded(text)) == Unpadded(text)
    ensures text != "" && text[|text| - 1] == '=' ==> Unpadded(text) != text
  {
  }

  /** An encoding ends in padding if the last group is short. */
  lemma {:induction false} EndOfEncoding(bytes: seq<Byte>)
    requires |bytes| % 3 != 0
    ensures |Encode(bytes)| > 0 && Encode(bytes)[|Encode(bytes)| - 1] == '='
  {
    if |bytes| <= 3 {
      EndOfGroup(bytes);
    } else {
      EndOfEncoding(bytes[3..]);
      LastOfConcat(Printed(bytes[..3]), Encode(bytes[3..]));
    }
  }

  lemma LastOfConcat(a: string, b: string)
    requires |b| > 0
    ensures (a + b)[|a + b| - 1] == b[|b| - 1]
  {
  }

  lemma EndOfGroup(g: seq<Byte>)
    requires 1 <= |g| < 3
    ensures Printed(g)[3] == '='
  {
  }
}
