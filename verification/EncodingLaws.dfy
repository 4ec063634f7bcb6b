/** The encodings byte by byte and read back: which characters each leaves alone, what an encoded string can
    hold, and that nothing is lost. */
module EncodingLaws {
  import opened Octets
  import opened HexDigits
  import opened UrlCoding

  // ----- characters

  predicate Letter(b: Byte) {
    'a' <= b as char <= 'z' || 'A' <= b as char <= 'Z'
  }

  predicate Digit(b: Byte) {
    '0' <= b as char <= '9'
  }

  /** The characters that an encoding leaves alone. */
  predicate LeftAlone(e: Encoding, b: Byte) {
    match e
    case REL_URI => Letter(b) || Digit(b) || b as char in "!()*-./@[\\]^_`{|}~"
    case REL_URI_PART => Letter(b) || Digit(b) || b as char in "!()*-.@[\\]^_`{|}~"
    case HTML => ' ' <= b as char <= '~' && b as char !in "&<>"
    case MINIMAL_XML => ' ' <= b as char && b != 127 && b as char !in "&<>"
    case HEX => false
    case HTTP_HEADER => b as char != '\n'
  }

  lemma LeftAloneExactly(e: Encoding, b: Byte)
    ensures Encode(e, [b]) == [b] <==> LeftAlone(e, b)
  {
    assert [b][1..] == [];
    assert Encode(e, [b]) == EncodeByte(e, b) + [];
  }

  // ----- read back

  /** A character reference `&#xhh;`. */
  predicate Reference(s: Bytes) {
    && |s| >= 6 && s[..3] == ['&' as Byte, '#' as Byte, 'x' as Byte]
    && LowHex(s[3]) && LowHex(s[4]) && s[5] == ';' as Byte
  }

  /** What two digits are worth. */
  function Pair(high: Byte, low: Byte): Byte
    requires LowHex(high) && LowHex(low)
  {
    16 * Worth(high) + Worth(low)
  }

  lemma PairIs(b: Byte)
    ensures var high, low := HexChar(b / 16), HexChar(b % 16); LowHex(high) && LowHex(low) && Pair(high, low) == b
  {
    HexCharIs(b / 16);
    HexCharIs(b % 16);
  }

  /** Reading HTML or XML text: a reference is the byte it names. */
  function Unreferenced(s: Bytes): Bytes {
    if s == [] then []
    else if Reference(s) then [Pair(s[3], s[4])] + Unreferenced(s[6..])
    else [s[0]] + Unreferenced(s[1..])
  }

  /** An ampersand is there only at the beginning of a reference. */
  predicate OnlyReferences(s: Bytes) {
    forall i :: 0 <= i < |s| && s[i] as char == '&' ==> Reference(s[i..])
  }

  lemma ReferenceAt(a: Bytes, b: Bytes, i: nat)
    requires i <= |a| && Reference(a[i..])
    ensures Reference((a + b)[i..])
  {
    assert (a + b)[i..] == a[i..] + b;
    assert (a[i..] + b)[..3] == a[i..][..3];
  }

  /** One encoded byte of text. */
  lemma TextByte(e: Encoding, b: Byte)
    requires e.HTML? || e.MINIMAL_XML?
    ensures var x := EncodeByte(e, b);
      if LeftAlone(e, b) then x == [b] else Reference(x) && |x| == 6 && Pair(x[3], x[4]) == b
  {
    PairIs(b);
    LeftAloneExactly(e, b);
    assert Encode(e, [b]) == EncodeByte(e, b) + [];
  }

  /** Encoded text holds no markup: no angle bracket, and no ampersand but those of references. */
  lemma {:induction false} TextIsSafe(e: Encoding, s: Bytes)
    requires e.HTML? || e.MINIMAL_XML?
    ensures forall b :: b in Encode(e, s) ==> b as char !in "<>" && (b as char == '&' || LeftAlone(e, b))
    ensures OnlyReferences(Encode(e, s))
  {
    if s != [] {
      var x, rest := EncodeByte(e, s[0]), Encode(e, s[1..]);
      TextIsSafe(e, s[1..]);
      TextByte(e, s[0]);
      forall i | 0 <= i < |x + rest| && (x + rest)[i] as char == '&' ensures Reference((x + rest)[i..]) {
        if i < |x| {
          FirstOnly(e, s[0], i);
          ReferenceAt(x, rest, 0);
        } else {
          assert (x + rest)[i..] == rest[i - |x|..];
        }
      }
      forall b | b in x + rest ensures b as char !in "<>" && (b as char == '&' || LeftAlone(e, b)) {
        if b in x {
          TextCharacters(e, s[0], b);
        }
      }
    }
  }

  lemma FirstOnly(e: Encoding, b: Byte, i: nat)
    requires (e.HTML? || e.MINIMAL_XML?) && i < |EncodeByte(e, b)| && EncodeByte(e, b)[i] as char == '&'
    ensures i == 0 && Reference(EncodeByte(e, b)) && EncodeByte(e, b)[0..] == EncodeByte(e, b)
  {
    TextByte(e, b);
  }

  lemma TextCharacters(e: Encoding, b: Byte, c: Byte)
    requires (e.HTML? || e.MINIMAL_XML?) && c in EncodeByte(e, b)
    ensures c as char !in "<>" && (c as char == '&' || LeftAlone(e, c))
  {
    TextByte(e, b);
    hide EncodeByte, LowHex;
    var x := EncodeByte(e, b);
    var i :| 0 <= i < |x| && x[i] == c;
    if !LeftAlone(e, b) {
      if i < 3 {
        assert x[..3][i] == c;
      } else if i < 5 {
        LowHexSafe(e, c);
      }
    }
  }

  lemma LowHexSafe(e: Encoding, c: Byte)
    requires LowHex(c) && (e.HTML? || e.MINIMAL_XML?)
    ensures LeftAlone(e, c)
  {
    var n := Worth(c);
    hide LowHex;
  }

  lemma NoReference(e: Encoding, b: Byte, s: Bytes)
    requires (e.HTML? || e.MINIMAL_XML?) && LeftAlone(e, b) && s != [] && s[0] == b
    ensures !Reference(s)
  {
  }

  /** Reading one encoded byte back. */
  lemma ByteComesBack(e: Encoding, b: Byte, rest: Bytes)
    requires e.HTML? || e.MINIMAL_XML?
    ensures Unreferenced(EncodeByte(e, b) + rest) == [b] + Unreferenced(rest)
  {
    hide LeftAlone, Pair, LowHex, Reference, EncodeByte;
    var x := EncodeByte(e, b);
    TextByte(e, b);
    if LeftAlone(e, b) {
      NoReference(e, b, x + rest);
      assert (x + rest)[1..] == rest;
    } else {
      assert x[0..] == x && (x + rest)[0..] == x + rest;
      ReferenceAt(x, rest, 0);
      assert (x + rest)[6..] == rest && (x + rest)[3] == x[3] && (x + rest)[4] == x[4];
    }
  }

  /** Reading encoded text back gives the text. */
  lemma {:induction false} TextComesBack(e: Encoding, s: Bytes)
    requires e.HTML? || e.MINIMAL_XML?
    ensures Unreferenced(Encode(e, s)) == s
  {
    if s != [] {
      TextComesBack(e, s[1..]);
      ByteComesBack(e, s[0], Encode(e, s[1..]));
      hide EncodeByte, Unreferenced;
    }
  }

  /** Hexadecimal: two digits for each byte, in order. */
  lemma {:induction false} HexPairs(s: Bytes, i: nat)
    requires i < |s|
    ensures var h := Encode(HEX, s);
      |h| == 2 * |s| && LowHex(h[2 * i]) && LowHex(h[2 * i + 1]) && Pair(h[2 * i], h[2 * i + 1]) == s[i]
  {
    hide LowHex, Pair, HexChar, Encode;
    HexLength(s);
    HexFirst(s);
    PairIs(s[0]);
    if i > 0 {
      HexPairs(s[1..], i - 1);
    }
  }

  lemma HexFirst(s: Bytes)
    requires s != []
    ensures Encode(HEX, s) == [HexChar(s[0] / 16), HexChar(s[0] % 16)] + Encode(HEX, s[1..])
  {
  }

  lemma {:induction false} HexLength(s: Bytes)
    ensures |Encode(HEX, s)| == 2 * |s|
  {
    if s != [] {
      HexLength(s[1..]);
    }
  }

  /** Reading folded header lines: the tab behind a line feed goes away. */
  function Unfolded(s: Bytes): Bytes {
    if s == [] then []
    else if |s| > 1 && s[0] as char == '\n' && s[1] as char == '\t' then [s[0]] + Unfolded(s[2..])
    else [s[0]] + Unfolded(s[1..])
  }

  /** A header value stays on its own lines: behind every line feed there is a tab, and without these tabs it
      is the value as it was. */
  lemma {:induction false} HeaderFolds(s: Bytes)
    ensures var h := Encode(HTTP_HEADER, s);
      && (forall i :: 0 <= i < |h| && h[i] as char == '\n' ==> i + 1 < |h| && h[i + 1] as char == '\t')
      && Unfolded(h) == s
  {
    if s != [] {
      var x, rest := EncodeByte(HTTP_HEADER, s[0]), Encode(HTTP_HEADER, s[1..]);
      HeaderFolds(s[1..]);
      assert (x + rest)[|x|..] == rest;
    }
  }

  // ----- decoding

  predicate AnyHex(b: Byte) {
    b as char in "0123456789abcdefABCDEF"
  }

  /** What a digit of either case is worth. */
  function AnyWorth(b: Byte): (n: nat)
    requires AnyHex(b)
    ensures n < 16 && (HEX_DIGITS[n] == b as char || "0123456789ABCDEF"[n] == b as char)
  {
    if Digit(b) then b - 48 else if b as char >= 'a' then b - 87 else b - 55
  }

  /** `%` and two digits of either case. */
  predicate Escaped(s: Bytes) {
    |s| >= 3 && s[0] as char == '%' && AnyHex(s[1]) && AnyHex(s[2])
  }

  lemma AnyHexIs(b: Byte)
    ensures AnyHex(b) <==> HexDigit(b)
    ensures AnyHex(b) ==> Hex2Int(b) == AnyWorth(b)
  {
    Hex2IntExact(b);
    hide Hex2Int;
  }

  lemma EscapedIs(s: Bytes)
    ensures Escaped(s) <==> Escape(s)
    ensures Escaped(s) ==> UrlCoding.Value(s) == 16 * AnyWorth(s[1]) + AnyWorth(s[2])
  {
    if |s| >= 3 {
      AnyHexIs(s[1]);
      AnyHexIs(s[2]);
    }
    hide AnyHex, HexDigit, AnyWorth, Hex2Int;
  }

  /** Decoding takes an escape for the byte it names, an underscore instead of a control character; a plus
      for a space, in a query only; and everything else, a percent sign without its two digits too, for
      itself. */
  lemma DecodesBytewise(s: Bytes, isQuery: bool)
    requires s != []
    ensures Escaped(s) ==>
      var v := 16 * AnyWorth(s[1]) + AnyWorth(s[2]);
      Decode(s, isQuery) == [if ' ' <= v as char && v != 127 then v else '_' as Byte] + Decode(s[3..], isQuery)
    ensures isQuery && s[0] as char == '+' ==> Decode(s, isQuery) == [' ' as Byte] + Decode(s[1..], isQuery)
    ensures !Escaped(s) && !(isQuery && s[0] as char == '+') ==>
      Decode(s, isQuery) == [s[0]] + Decode(s[1..], isQuery)
  {
    EscapedIs(s);
  }

  /** A string without escapes, and in a query without a plus, is left as it is. */
  lemma {:induction false} PlainDecodes(s: Bytes, isQuery: bool)
    requires forall b :: b in s ==> b as char != '%' && !(isQuery && b as char == '+')
    ensures Decode(s, isQuery) == s
  {
    if s != [] {
      assert s[0] in s && forall b :: b in s[1..] ==> b in s;
      PlainDecodes(s[1..], isQuery);
    }
  }

  /** In a URI an escape is a percent sign and two digits, and nothing else holds one. */
  lemma UriByte(e: Encoding, b: Byte)
    requires e.REL_URI? || e.REL_URI_PART?
    ensures var x := EncodeByte(e, b);
      if LeftAlone(e, b) then x == [b] && b as char != '%'
      else |x| == 3 && x[0] as char == '%' && LowHex(x[1]) && LowHex(x[2]) && Pair(x[1], x[2]) == b
  {
    PairIs(b);
    LeftAloneExactly(e, b);
    assert Encode(e, [b]) == EncodeByte(e, b) + [];
  }
}
