/** Percent-encoding into a buffer, and decoding in place. */
module UrlCoding {
  import opened Octets
  import opened Buffers

  datatype Encoding = REL_URI | REL_URI_PART | HTML | MINIMAL_XML | HEX | HTTP_HEADER

  const PERCENT: Byte := 37
  const PLUS: Byte := 43
  const SPACE: Byte := 32
  const UNDERSCORE: Byte := 95

  // ----- encoding

  /** The encoding tables. */
  predicate Mapped(e: Encoding, b: Byte) {
    match e
    case REL_URI => b < 33 || 34 <= b < 40 || b == 43 || b == 44 || 58 <= b < 64 || b >= 127
    case REL_URI_PART => b < 33 || 34 <= b < 40 || b == 43 || b == 44 || b == 47 || 58 <= b < 64 || b >= 127
    case HTML => b < 32 || b == 38 || b == 60 || b == 62 || b >= 127
    case MINIMAL_XML => b < 32 || b == 38 || b == 60 || b == 62 || b == 127
    case HEX => true
    case HTTP_HEADER => b == 10
  }

  function EncodeByte(e: Encoding, b: Byte): Bytes {
    if !Mapped(e, b) then [b]
    else
      var high, low := HexChar(b / 16), HexChar(b % 16);
      match e
      case REL_URI => [PERCENT, high, low]
      case REL_URI_PART => [PERCENT, high, low]
      case HTML => [38, 35, 120, high, low, 59]
      case MINIMAL_XML => [38, 35, 120, high, low, 59]
      case HEX => [high, low]
      case HTTP_HEADER => [b, 9]
  }

  function Encode(e: Encoding, s: Bytes): Bytes {
    if s == [] then [] else EncodeByte(e, s[0]) + Encode(e, s[1..])
  }

  lemma EncodeNext(e: Encoding, s: Bytes, n: nat)
    requires n < |s|
    ensures Encode(e, s[n..]) == EncodeByte(e, s[n]) + Encode(e, s[n + 1..])
  {
    assert s[n..][0] == s[n] && s[n..][1..] == s[n + 1..];
  }

  /** First pass: how many bytes the encoded string has. */
  method CountEncoded(e: Encoding, s: Bytes) returns (dLen: nat)
    ensures dLen == |Encode(e, s)|
  {
    dLen := 0;
    for ndx := 0 to |s|
      invariant dLen + |Encode(e, s[ndx..])| == |Encode(e, s)|
    {
      EncodeNext(e, s, ndx);
      if Mapped(e, s[ndx]) {
        match e {
          case REL_URI | REL_URI_PART => dLen := dLen + 3;
          case HTML | MINIMAL_XML => dLen := dLen + 6;
          case HTTP_HEADER | HEX => dLen := dLen + 2;
        }
      } else {
        dLen := dLen + 1;
      }
    }
  }

  /** Second pass, one byte. */
  method PutEncoded(e: Encoding, b: Byte, d: array<Byte>, at: nat) returns (next: nat)
    requires at + |EncodeByte(e, b)| <= d.Length
    modifies d
    ensures next == at + |EncodeByte(e, b)| && d[..next] == old(d[..at]) + EncodeByte(e, b)
  {
    next := at;
    if Mapped(e, b) {
      var high, low := HexChar(b / 16), HexChar(b % 16);
      match e {
        case REL_URI | REL_URI_PART =>
          d[next], d[next + 1], d[next + 2] := PERCENT, high, low;
          next := next + 3;
        case HTML | MINIMAL_XML =>
          d[next], d[next + 1], d[next + 2] := 38, 35, 120;
          d[next + 3], d[next + 4], d[next + 5] := high, low, 59;
          next := next + 6;
        case HEX =>
          d[next], d[next + 1] := high, low;
          next := next + 2;
        case HTTP_HEADER =>
          d[next], d[next + 1] := b, 9;
          next := next + 2;
      }
    } else {
      d[next] := b;
      next := next + 1;
    }
  }

  lemma Assoc(a: Bytes, b: Bytes, c: Bytes)
    ensures (a + b) + c == a + (b + c)
  {
  }

  /** Second pass: what is written fills exactly the space that the first pass counted. */
  method PutAll(e: Encoding, s: Bytes, d: array<Byte>, at: nat)
    requires at + |Encode(e, s)| < d.Length
    modifies d
    ensures d[..at + |Encode(e, s)| + 1] == old(d[..at]) + Encode(e, s) + [0]
  {
    assert Encode(e, []) == [] && s[0..] == s;
    hide *;
    var next := at;
    ghost var head, done: Bytes := d[..at], [];
    for ndx := 0 to |s|
      invariant next == at + |done| && done + Encode(e, s[ndx..]) == Encode(e, s)
      invariant d[..next] == head + done
    {
      ghost var x := EncodeByte(e, s[ndx]);
      EncodeNext(e, s, ndx);
      Assoc(done, x, Encode(e, s[ndx + 1..]));
      Assoc(head, done, x);
      next := PutEncoded(e, s[ndx], d, next);
      done := done + x;
    }
    assert s[|s|..] == [];
    assert done == Encode(e, s);
    ghost var text := d[..next];
    d[next] := 0;
    assert d[..next + 1] == text + [0];
  }

  /** buffer_append_string_encoded */
  method AppendEncoded(b: Buffer, s: Bytes, e: Encoding)
    requires b.Terminated()
    modifies b, b.ptr
    ensures b.Terminated() && (b.ptr == old(b.ptr) || fresh(b.ptr))
    ensures b.Bytes() == old(b.Bytes()[..b.used - 1]) + Encode(e, s) + [0]
  {
    ghost var was := b.Bytes();
    if s == [] {
      assert was == was[..b.used - 1] + [] + [0];
      return;
    }
    var dLen := CountEncoded(e, s);
    b.PrepareAppend(dLen);
    assert b.ptr[..b.used - 1] == was[..b.used - 1];
    PutAll(e, s, b.ptr, b.used - 1);
    b.used := b.used + dLen;
  }

  // ----- decoding

  /** `c | 0x20` for a byte. */
  function WithBit5(c: int): int {
    if c / 32 % 2 == 1 then c else c + 32
  }

  /** hex2int, in unsigned char arithmetic. */
  function Hex2Int(hex: Byte): Byte {
    var digit := (hex - 48 + 256) % 256;
    var value := if digit > 9 then (WithBit5((digit + 47) % 256) - 97 + 11 + 256) % 256 else digit;
    if value > 15 then 255 else value
  }

  predicate HexDigit(c: Byte) {
    48 <= c <= 57 || 65 <= c <= 70 || 97 <= c <= 102
  }

  /** hex2int recognises exactly the hexadecimal digits, in either case. */
  lemma Hex2IntExact(c: Byte)
    ensures Hex2Int(c) != 255 <==> HexDigit(c)
    ensures 48 <= c <= 57 ==> Hex2Int(c) == c - 48
    ensures 65 <= c <= 70 ==> Hex2Int(c) == c - 55
    ensures 97 <= c <= 102 ==> Hex2Int(c) == c - 87
  {
    var digit := (c - 48 + 256) % 256;
    if c >= 48 {
      Modulo256(c - 48, 1);
    } else {
      Modulo256(c - 48 + 256, 0);
    }
    if digit > 9 {
      var t := if c == 0 then 255 else c - 1;
      Modulo256(t, if c < 48 then 1 else 0);
      assert (digit + 47) % 256 == t;
      var u := WithBit5(t) - 97 + 11;
      if u >= 0 {
        Modulo256(u, 1);
      } else {
        Modulo256(u + 256, 0);
      }
    }
  }

  lemma Modulo256(n: int, k: nat)
    requires 0 <= n < 256
    ensures (n + 256 * k) % 256 == n
  {
  }

  lemma HexRoundTrip(n: Byte)
    requires n < 16
    ensures Hex2Int(HexChar(n)) == n
  {
    Hex2IntExact(HexChar(n));
  }

  /** Control characters do not survive decoding. */
  function Clean(b: Byte): (c: Byte)
    ensures c != 0
  {
    if b < 32 || b == 127 then UNDERSCORE else b
  }

  function Cleaned(s: Bytes): Bytes {
    seq(|s|, i requires 0 <= i < |s| => Clean(s[i]))
  }

  /** A percent sign with two hexadecimal digits behind it. */
  predicate Escape(s: Bytes) {
    |s| >= 3 && s[0] == PERCENT && HexDigit(s[1]) && HexDigit(s[2])
  }

  function Value(s: Bytes): (v: Byte)
    requires Escape(s)
  {
    Hex2IntExact(s[1]);
    Hex2IntExact(s[2]);
    Hex2Int(s[1]) * 16 + Hex2Int(s[2])
  }

  function Decode(s: Bytes, isQuery: bool): Bytes {
    if s == [] then []
    else if isQuery && s[0] == PLUS then [SPACE] + Decode(s[1..], isQuery)
    else if Escape(s) then [Clean(Value(s))] + Decode(s[3..], isQuery)
    else [s[0]] + Decode(s[1..], isQuery)
  }

  /** The next byte of the output, and how much of the input it takes. */
  method DecodeNext(a: array<Byte>, src: nat, isQuery: bool, ghost rest: Bytes) returns (c: Byte, next: nat)
    requires src + |rest| < a.Length && rest != [] && 0 !in rest && a[src..src + |rest| + 1] == rest + [0]
    ensures src < next <= src + |rest| && c != 0
    ensures Decode(rest, isQuery) == [c] + Decode(rest[next - src..], isQuery)
  {
    hide Hex2Int, Clean;
    assert forall i :: 0 <= i <= |rest| ==> a[src + i] == a[src..src + |rest| + 1][i] == (rest + [0])[i];
    Hex2IntExact(0);
    c, next := a[src], src + 1;
    assert rest[0] in rest;
    if isQuery && a[src] == PLUS {
      c := SPACE;
    } else if a[src] == PERCENT {
      Hex2IntExact(a[src + 1]);
      var high := Hex2Int(a[src + 1]);
      if high != 255 {
        assert |rest| > 1;
        Hex2IntExact(a[src + 2]);
        var low := Hex2Int(a[src + 2]);
        if low != 255 {
          assert |rest| > 2;
          c := Clean(high * 16 + low);
          next := src + 3;
        }
      }
    }
  }

  /** The reader is at `src`, with `rest` before it; the writer is at `dst`, behind it. */
  ghost predicate Decoding(a: Bytes, src: nat, dst: nat, rest: Bytes, done: Bytes) {
    && dst <= src && src + |rest| < |a| && 0 !in rest && 0 !in done
    && a[src..src + |rest| + 1] == rest + [0] && a[..dst] == done
  }

  lemma DecodingOn(a: Bytes, src: nat, dst: nat, rest: Bytes, done: Bytes, next: nat, c: Byte)
    requires Decoding(a, src, dst, rest, done) && src < next <= src + |rest| && c != 0
    ensures Decoding(a[dst := c], next, dst + 1, rest[next - src..], done + [c])
  {
    var b, rest' := a[dst := c], rest[next - src..];
    forall i | next <= i <= src + |rest| ensures b[i] == (rest' + [0])[i - next] {
      assert a[src..src + |rest| + 1][i - src] == a[i];
    }
    assert b[next..next + |rest'| + 1] == rest' + [0];
    assert forall x :: x in rest' ==> x in rest;
  }

  lemma DecodingEnds(a: Bytes, src: nat, dst: nat, rest: Bytes, done: Bytes)
    requires Decoding(a, src, dst, rest, done)
    ensures a[src] == 0 <==> rest == []
    ensures a[dst := 0][..dst + 1] == done + [0]
  {
    assert a[src] == a[src..src + |rest| + 1][0] == (rest + [0])[0];
    if rest != [] {
      assert rest[0] in rest;
    }
  }

  /** The loop of buffer_urldecode_internal: the writer never overtakes the reader. */
  method DecodeInPlace(a: array<Byte>, isQuery: bool, ghost orig: Bytes) returns (dst: nat)
    requires |orig| < a.Length && 0 !in orig && a[..|orig| + 1] == orig + [0]
    modifies a
    ensures dst <= |orig| && 0 !in Decode(orig, isQuery) && a[..dst + 1] == Decode(orig, isQuery) + [0]
  {
    assert Decode([], isQuery) == [] && a[0..|orig| + 1] == orig + [0] && a[..0] == [];
    hide Decode;
    var src := 0;
    dst := 0;
    ghost var rest, done: Bytes := orig, [];
    DecodingEnds(a[..], src, dst, rest, done);
    while a[src] != 0
      invariant Decoding(a[..], src, dst, rest, done) && src + |rest| == |orig|
      invariant done + Decode(rest, isQuery) == Decode(orig, isQuery)
      invariant a[src] == 0 <==> rest == []
      decreases |rest|
    {
      ghost var was := a[..];
      assert a[src..src + |rest| + 1] == was[src..src + |rest| + 1];
      var c, next := DecodeNext(a, src, isQuery, rest);
      DecodingOn(was, src, dst, rest, done, next, c);
      Assoc(done, [c], Decode(rest[next - src..], isQuery));
      a[dst] := c;
      assert a[..] == was[dst := c];
      rest := rest[next - src..];
      done := done + [c];
      dst := dst + 1;
      src := next;
      DecodingEnds(a[..], src, dst, rest, done);
    }
    DecodingEnds(a[..], src, dst, rest, done);
    ghost var was := a[..];
    a[dst] := 0;
    assert a[..] == was[dst := 0];
    assert a[..dst + 1] == a[..][..dst + 1];
  }

  /** buffer_urldecode_path and buffer_urldecode_query */
  method UrlDecode(url: Buffer, isQuery: bool) returns (r: int)
    requires url.Valid() && (url.ptr.Length > 0 ==> url.Terminated())
    modifies url, url.ptr
    ensures url.ptr == old(url.ptr)
    ensures old(url.ptr.Length) == 0 ==> r == -1 && url.used == old(url.used)
    ensures old(url.ptr.Length) > 0 ==> r == 0 && url.Terminated() && old(0 in url.Bytes())
    ensures old(url.ptr.Length) > 0 ==> url.Bytes() == Decode(old(CString(url.Bytes())), isQuery) + [0]
  {
    if url.ptr.Length == 0 {
      return -1;
    }
    ghost var bytes := url.Bytes();
    assert bytes[url.used - 1] == 0;
    ghost var orig := CString(bytes);
    assert url.ptr[..|orig| + 1] == bytes[..|orig| + 1] == orig + [0];
    var dst := DecodeInPlace(url.ptr, isQuery, orig);
    url.used := dst + 1;
    r := 0;
  }

  // ----- the round trip

  /** What percent-encoding leaves alone, decoding leaves alone; what it escapes comes back, except
      for control characters. */
  lemma ByteRoundTrip(e: Encoding, b: Byte, rest: Bytes, isQuery: bool)
    requires e.REL_URI? || e.REL_URI_PART?
    ensures Decode(EncodeByte(e, b) + rest, isQuery) == [Clean(b)] + Decode(rest, isQuery)
  {
    var s := EncodeByte(e, b) + rest;
    if Mapped(e, b) {
      HexRoundTrip(b / 16);
      HexRoundTrip(b % 16);
      Hex2IntExact(s[1]);
      Hex2IntExact(s[2]);
      assert Value(s) == b && s[3..] == rest;
    } else {
      assert s[1..] == rest;
    }
  }

  /** Decoding an encoded string, as a path or as a query, gives it back with its control
      characters replaced. */
  lemma {:induction false} RoundTrip(e: Encoding, s: Bytes, isQuery: bool)
    requires e.REL_URI? || e.REL_URI_PART?
    ensures Decode(Encode(e, s), isQuery) == Cleaned(s)
  {
    if s != [] {
      ByteRoundTrip(e, s[0], Encode(e, s[1..]), isQuery);
      RoundTrip(e, s[1..], isQuery);
    }
  }

  /** An encoded string can stand in a C string, and in a URI without being misread. */
  lemma {:induction false} EncodedIsSafe(e: Encoding, s: Bytes)
    requires e.REL_URI? || e.REL_URI_PART?
    ensures forall b :: b in Encode(e, s) ==> 33 <= b < 127 && (b == PERCENT || !Mapped(e, b))
  {
    if s != [] {
      EncodedIsSafe(e, s[1..]);
      assert forall b :: b in EncodeByte(e, s[0]) ==> 33 <= b < 127 && (b == PERCENT || !Mapped(e, b));
    }
  }
}
