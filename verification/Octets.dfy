/** Bytes, and words of four bytes with the low byte first, as other modules use them. */
module Octets {
  import opened Arithmetic

  type Byte = x: int | 0 <= x < 256
  type Bytes = seq<Byte>

  /** hex_chars, and the digits of chunk sizes. */
  function HexChar(n: nat): Byte
    requires n < 16
  {
    if n < 10 then 48 + n else 87 + n
  }

  function Concat(pieces: seq<Bytes>): Bytes {
    if pieces == [] then [] else pieces[0] + Concat(pieces[1..])
  }

  lemma {:induction false} ConcatNext(pieces: seq<Bytes>, i: nat)
    requires i < |pieces|
    ensures Concat(pieces[..i + 1]) == Concat(pieces[..i]) + pieces[i]
  {
    if i == 0 {
      assert pieces[..1] == [pieces[0]] && Concat([pieces[0]]) == pieces[0] + Concat([]);
    } else {
      ConcatNext(pieces[1..], i - 1);
      assert pieces[..i + 1][1..] == pieces[1..][..i] && pieces[..i][1..] == pieces[1..][..i - 1];
    }
  }

  function EncodeWord(w: int): (b: Bytes)
    ensures |b| == 4
  {
    [w % 0x100, w / 0x100 % 0x100, w / 0x1_0000 % 0x100, w / 0x100_0000 % 0x100]
  }

  function DecodeWord(b: Bytes): (w: nat)
    requires |b| == 4
  {
    b[0] as nat + 0x100 * b[1] as nat + 0x1_0000 * b[2] as nat + 0x100_0000 * b[3] as nat
  }

  lemma WordRoundTrip(b: Bytes)
    requires |b| == 4
    ensures EncodeWord(DecodeWord(b)) == b
  {
    var b0, b1, b2, b3 := b[0] as int, b[1] as int, b[2] as int, b[3] as int;
    var w := DecodeWord(b);
    Quotient(w, 0x100, b1 + 0x100 * b2 + 0x1_0000 * b3, b0);
    Quotient(w, 0x1_0000, b2 + 0x100 * b3, b0 + 0x100 * b1);
    Quotient(w, 0x100_0000, b3, b0 + 0x100 * b1 + 0x1_0000 * b2);
    Quotient(b1 + 0x100 * b2 + 0x1_0000 * b3, 0x100, b2 + 0x100 * b3, b1);
    Quotient(b2 + 0x100 * b3, 0x100, b3, b2);
  }

  /** What bytes are worth, the first the least. */
  function Value(b: Bytes): nat {
    if b == [] then 0 else b[0] as nat + 0x100 * Value(b[1..])
  }

  lemma DecodeWordValue(b: Bytes)
    requires |b| == 4
    ensures DecodeWord(b) == Value(b)
  {
    assert Value(b[4..]) == 0;
    assert Value(b[3..]) == b[3] as nat + 0x100 * Value(b[4..]) && b[2..][1..] == b[3..];
    assert Value(b[2..]) == b[2] as nat + 0x100 * Value(b[3..]) && b[1..][1..] == b[2..];
  }

  /** The bytes of a word are those that are worth its low 32 bits, and no others. */
  lemma EncodeWordValue(w: int, b: Bytes)
    requires |b| == 4
    ensures EncodeWord(w) == b <==> Value(b) == w % 0x1_0000_0000
  {
    DecodeWordValue(b);
    WordRoundTrip(b);
    DecodeWordValue(EncodeWord(w));
    EncodedValue(w);
    EncodedValue(Value(b));
    if Value(b) == w % 0x1_0000_0000 {
      WordRoundTrip(EncodeWord(w));
    }
  }

  lemma EncodedValue(w: int)
    ensures DecodeWord(EncodeWord(w)) == w % 0x1_0000_0000
  {
    var a := w / 0x100;
    var b := a / 0x100;
    var c := b / 0x100;
    assert w / 0x1_0000 == b && w / 0x100_0000 == c;
    var low := w % 0x100 + 0x100 * (a % 0x100) + 0x1_0000 * (b % 0x100) + 0x100_0000 * (c % 0x100);
    assert w == 0x1_0000_0000 * (c / 0x100) + low;
    Quotient(w, 0x1_0000_0000, c / 0x100, low);
  }
}
