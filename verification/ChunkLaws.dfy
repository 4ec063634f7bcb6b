/** Chunked coding as it goes over the wire, character by character. */
module ChunkLaws {
  import opened Arithmetic
  import opened Octets
  import opened HexDigits
  import opened HttpChunk

  predicate AllHex(s: Bytes) {
    forall i :: 0 <= i < |s| ==> LowHex(s[i])
  }

  /** What digits spell. */
  function Number(s: Bytes): nat
    requires AllHex(s)
  {
    if s == [] then 0 else 16 * Number(s[..|s| - 1]) + Worth(s[|s| - 1])
  }

  lemma {:induction false} DigitsSpell(len: nat, i: nat)
    ensures AllHex(Digits(len, i)) && Number(Digits(len, i)) == len % Pow16(i)
    decreases i
  {
    if i > 0 {
      DigitsSpell(len / 16, i - 1);
      HexCharIs(len % 16);
      var front, s := Digits(len / 16, i - 1), Digits(len, i);
      assert s[..i - 1] == front && s[i - 1] == HexChar(len % 16);
      LowDigits(len, Pow16(i - 1));
    }
  }

  lemma LowDigits(len: nat, p: nat)
    requires p > 0
    ensures len % (16 * p) == 16 * (len / 16 % p) + len % 16
  {
    var q := len / 16 / p;
    assert len / 16 == p * q + len / 16 % p;
    assert len == 16 * (len / 16) + len % 16;
    assert 16 * (p * q) == 16 * p * q;
    Quotient(len, 16 * p, q, 16 * (len / 16 % p) + len % 16);
  }

  /** A count of digits below the largest one is exact. */
  lemma {:induction false} CountIs(len: nat, max: nat)
    ensures var i := DigitCount(len, max);
      && (len >= Pow16(max) ==> i == max) && (len < Pow16(max) ==> len < Pow16(i))
      && (0 < len < Pow16(max) ==> i > 0 && len >= Pow16(i - 1))
    decreases max
  {
    if len > 0 && max > 0 {
      CountIs(len / 16, max - 1);
    }
  }

  /** A first digit of zero means a number with fewer digits. */
  lemma {:induction false} FirstDigit(s: Bytes)
    requires s != [] && AllHex(s)
    ensures Number(s) < Pow16(|s|) && (s[0] as char == '0' ==> Number(s) < Pow16(|s| - 1))
  {
    var front := s[..|s| - 1];
    if |s| == 1 {
      assert front == [] && Pow16(1) == 16 && Pow16(0) == 1;
    } else {
      FirstDigit(front);
      assert front[0] == s[0];
    }
  }

  lemma PositiveSize(len: nat)
    requires len > 0
    ensures var d := Digits(len, DigitCount(len, 8));
      && 1 <= |d| <= 8 && AllHex(d) && Number(d) == len % 0x1_0000_0000
      && (len < 0x1_0000_0000 ==> d[0] as char != '0')
  {
    hide Digits, DigitCount, Pow16, Number, AllHex;
    var i := DigitCount(len, 8);
    var d := Digits(len, i);
    Pow16Eight();
    CountIs(len, 8);
    DigitsSpell(len, i);
    if len < 0x1_0000_0000 {
      Below(len, Pow16(i));
      Below(len, 0x1_0000_0000);
      FirstDigit(d);
    }
  }

  lemma Below(len: nat, p: nat)
    requires len < p
    ensures len % p == len
  {
    Quotient(len, p, 0, len);
  }

  /** A size line is the size modulo 2^32 in lower case hexadecimal digits, at most eight, without a leading
      zero as long as the size is below 2^32, and the line end. */
  lemma SizeLineIs(len: nat)
    ensures var s := SizeLine(len);
      && 3 <= |s| <= 10 && s[|s| - 2] as char == '\r' && s[|s| - 1] as char == '\n' && AllHex(s[..|s| - 2])
      && Number(s[..|s| - 2]) == len % 0x1_0000_0000
      && (len < 0x1_0000_0000 && s[0] as char == '0' ==> |s| == 3)
  {
    var s := SizeLine(len);
    if len == 0 {
      assert s[..1] == [48] && [48 as Byte][..0] == [];
    } else {
      PositiveSize(len);
      hide Digits, DigitCount, Number, AllHex;
      var d := Digits(len, DigitCount(len, 8));
      assert s[..|s| - 2] == d;
    }
  }
}
