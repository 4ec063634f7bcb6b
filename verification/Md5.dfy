/** MD5 over a message that arrives in pieces (RFC 1321).  The 64 steps of the block transform are a
    parameter; everything around them is here. */
module Md5 {
  import opened Arithmetic
  import opened Octets

  const W := 0x1_0000_0000
  const WW := 0x1_0000_0000_0000_0000

  type Words = seq<nat>

  /** The initial state (section 3.3). */
  const INIT: Words := [0x67452301, 0xefcdab89, 0x98badcfe, 0x10325476]

  // ----- words and bytes, low byte first

  function Encode(words: Words): (b: Bytes)
    ensures |b| == 4 * |words|
  {
    if words == [] then [] else EncodeWord(words[0]) + Encode(words[1..])
  }

  function Decode(b: Bytes): (words: Words)
    requires |b| % 4 == 0
    ensures |words| == |b| / 4
  {
    if b == [] then [] else [DecodeWord(b[..4])] + Decode(b[4..])
  }

  /** The C loops of Encode and Decode. */
  method EncodeLoop(input: Words) returns (output: Bytes)
    ensures output == Encode(input)
  {
    output := [];
    for i := 0 to |input|
      invariant output + Encode(input[i..]) == Encode(input)
    {
      assert input[i..][0] == input[i] && input[i..][1..] == input[i + 1..];
      output := output + EncodeWord(input[i]);
    }
  }

  lemma {:induction false} EncodeDecode(b: Bytes)
    requires |b| % 4 == 0
    ensures Encode(Decode(b)) == b
  {
    if b != [] {
      WordRoundTrip(b[..4]);
      EncodeDecode(b[4..]);
      assert b == b[..4] + b[4..];
    }
  }

  // ----- the reference: pad the message, then transform block by block

  type Rounds = (Words, Words) -> Words

  function Transform(rounds: Rounds, state: Words, block: Bytes): Words
    requires |block| == 64
  {
    rounds(state, Decode(block))
  }

  /** The transform over all full blocks of `s`. */
  function Fold(rounds: Rounds, state: Words, s: Bytes): Words
    decreases |s|
  {
    if |s| < 64 then state else Fold(rounds, Transform(rounds, state, s[..64]), s[64..])
  }

  lemma {:induction false} FoldConcat(rounds: Rounds, state: Words, a: Bytes, b: Bytes)
    requires |a| % 64 == 0
    ensures Fold(rounds, state, a + b) == Fold(rounds, Fold(rounds, state, a), b)
    decreases |a|
  {
    if a == [] {
      assert a + b == b;
    } else {
      assert (a + b)[..64] == a[..64] && (a + b)[64..] == a[64..] + b;
      FoldConcat(rounds, Transform(rounds, state, a[..64]), a[64..], b);
    }
  }

  /** How many bytes take a length to 56 modulo 64 (section 3.1): at least one. */
  function PadLength(n: nat): (p: nat)
    ensures 1 <= p <= 64 && (n + p) % 64 == 56
  {
    var ndx := n % 64;
    if ndx < 56 then 56 - ndx else 120 - ndx
  }

  function Zeros(n: nat): (z: Bytes)
    ensures |z| == n && forall i :: 0 <= i < n ==> z[i] == 0
  {
    seq(n, _ => 0)
  }

  /** The padding bits (section 3.1): a one, then zeros. */
  function Padding(n: nat): (p: Bytes)
    requires n > 0
    ensures |p| == n
  {
    [0x80] + Zeros(n - 1)
  }

  /** The length in bits modulo 2^64, low word first (section 3.2). */
  function LengthBytes(n: nat): (b: Bytes)
    ensures |b| == 8
  {
    Encode([8 * n % WW % W, 8 * n % WW / W])
  }

  function Padded(m: Bytes): (p: Bytes)
    ensures |p| % 64 == 0 && m <= p
  {
    var p := PadLength(|m|);
    assert (|m| + p + 8) % 64 == 0;
    m + Padding(p) + LengthBytes(|m|)
  }

  function Digest(rounds: Rounds, m: Bytes): Bytes {
    Encode(Fold(rounds, INIT, Padded(m)))
  }

  // ----- the bit count in two words

  /** `c0` and `c1` hold the bit length of `n` bytes modulo 2^64. */
  ghost predicate Counts(c0: nat, c1: nat, n: nat) {
    c0 < W && c1 < W && c0 + W * c1 == 8 * n % WW
  }

  /** The update of the count, carry and all, counts `len` more bytes. */
  lemma CountAdds(c0: nat, c1: nat, n: nat, len: nat)
    requires Counts(c0, c1, n) && len < W
    ensures var add := 8 * len % W; var low := (c0 + add) % W;
      Counts(low, (c1 + (if low < add then 1 else 0) + len / 0x2000_0000) % W, n + len)
  {
    var add := 8 * len % W;
    var low := (c0 + add) % W;
    var carry := if low < add then 1 else 0;
    var high := c1 + carry + len / 0x2000_0000;
    assert 8 * len == add + W * (len / 0x2000_0000);
    assert c0 + add == low + W * carry;
    var q := 8 * n / WW;
    assert 8 * (n + len) == WW * q + low + W * high;
    assert high == W * (high / W) + high % W;
    assert 8 * (n + len) == WW * (q + high / W) + (low + W * (high % W));
    assert low + W * (high % W) < WW;
    Quotient(8 * (n + len), WW, q + high / W, low + W * (high % W));
  }

  /** Byte 3 to 8 of the low count word is the number of bytes in the buffer. */
  lemma CountNdx(c0: nat, c1: nat, n: nat)
    requires Counts(c0, c1, n)
    ensures c0 / 8 % 64 == n % 64
  {
    var q := 8 * n / WW;
    assert 8 * n == WW * q + c0 + W * c1;
    var t := W * q + c1;
    var k := n - 0x2000_0000 * t;
    assert c0 == 8 * k;
    assert n == 64 * (0x80_0000 * t) + k;
    hide *;
    Quotient(n, 64, 0x80_0000 * t + k / 64, k % 64);
  }

  lemma CountBytes(c0: nat, c1: nat, n: nat)
    requires Counts(c0, c1, n)
    ensures Encode([c0, c1]) == LengthBytes(n)
  {
    Quotient(c0 + W * c1, W, c1, c0);
    assert (c0 + W * c1) / W == c1;
  }

  /** The guard of the block loop is computed in 32 bits: it is right for every place exactly for
      inputs below 2^32 - 63 bytes. */
  lemma GuardExact(inputLen: nat)
    requires inputLen < W
    ensures (forall i: nat :: i <= inputLen ==> GuardRight(i, inputLen)) <==> inputLen < W - 63
  {
    if inputLen >= W - 63 {
      assert (inputLen + 63) % W == inputLen + 63 - W;
      assert !GuardRight(inputLen, inputLen);
    }
  }

  predicate GuardRight(i: nat, inputLen: nat) {
    (i + 63) % W < inputLen <==> i + 63 < inputLen
  }

  // ----- the context

  class Context {
    const rounds: Rounds
    var state: Words
    var count0: nat
    var count1: nat
    const buffer: array<Byte>
    /** Everything the context has been given. */
    ghost var message: Bytes

    ghost predicate Valid()
      reads this, buffer
    {
      && buffer.Length == 64 && Counts(count0, count1, |message|) && state == Fold(rounds, INIT, message)
      && buffer[..|message| % 64] == Tail(message)
    }

    /** MD5_Init */
    constructor (rounds: Rounds)
      ensures Valid() && message == [] && this.rounds == rounds && fresh(buffer)
    {
      this.rounds := rounds;
      count0, count1 := 0, 0;
      state := INIT;
      message := [];
      buffer := new Byte[64](_ => 0);
    }

    /** The count of bits. */
    method AddCount(inputLen: nat, ghost n: nat)
      requires Counts(count0, count1, n) && inputLen < W
      modifies this`count0, this`count1
      ensures Counts(count0, count1, n + inputLen)
    {
      CountAdds(count0, count1, n, inputLen);
      var add := 8 * inputLen % W;
      var high := inputLen / 0x2000_0000;
      TwoSteps(count1, high);
      count0 := (count0 + add) % W;
      if count0 < add {
        count1 := (count1 + 1) % W;
      }
      count1 := (count1 + high) % W;
    }

    /** MD5_memcpy into the buffer. */
    method Fill(ndx: nat, data: Bytes)
      requires ndx + |data| <= buffer.Length
      modifies buffer
      ensures buffer[..ndx + |data|] == old(buffer[..ndx]) + data
    {
      for j := 0 to |data|
        invariant buffer[..ndx + j] == old(buffer[..ndx]) + data[..j]
      {
        buffer[ndx + j] := data[j];
        assert data[..j + 1] == data[..j] + [data[j]];
      }
      assert data[..|data|] == data;
    }

    /** The transforms of MD5_Update: the buffer, once full, then whole blocks of the input. */
    method Blocks(input: Bytes, ndx: nat) returns (i: nat)
      requires buffer.Length == 64 && state == Fold(rounds, INIT, message) && ndx == |message| % 64
        && buffer[..ndx] == Tail(message)
      requires 64 - ndx <= |input| < W - 63
      modifies this`state, buffer
      ensures i <= |input| < i + 64 && (|message| + i) % 64 == 0 && state == Fold(rounds, INIT, message + input[..i])
    {
      hide Fold, Transform, Counts;
      var partLen := 64 - ndx;
      Fill(ndx, input[..partLen]);
      FirstBlock(rounds, message, input[..partLen]);
      assert buffer[..] == buffer[..64];
      state := Transform(rounds, state, buffer[..]);
      i := partLen;
      while (i + 63) % W < |input|
        invariant partLen <= i <= |input| && (|message| + i) % 64 == 0
          && state == Fold(rounds, INIT, message + input[..i])
        decreases |input| - i
      {
        GuardExact(|input|);
        assert GuardRight(i, |input|);
        NextBlock(rounds, message + input[..i], input[i..i + 64]);
        assert message + input[..i] + input[i..i + 64] == message + input[..i + 64];
        state := Transform(rounds, state, input[i..i + 64]);
        i := i + 64;
      }
      GuardExact(|input|);
      assert GuardRight(i, |input|);
    }

    /** MD5_Update */
    method Update(input: Bytes)
      requires Valid() && |input| < W - 63
      modifies this, buffer
      ensures Valid() && message == old(message) + input
    {
      CountNdx(count0, count1, |message|);
      var ndx := count0 / 8 % 64;
      AddCount(|input|, |message|);
      var i := 0;
      if |input| >= 64 - ndx {
        i := Blocks(input, ndx);
        TailFrom(message, input, i);
        ndx := 0;
      } else {
        TailGrows(rounds, message, input);
      }
      LastPart(rounds, message, input, i);
      Fill(ndx, input[i..]);
      message := message + input;
    }

    /** MD5_Final: the digest of everything the context has been given; the context is cleared. */
    method Final() returns (digest: Bytes)
      requires Valid()
      modifies this, buffer
      ensures digest == Digest(rounds, old(message))
      ensures count0 == 0 && count1 == 0 && state == [0, 0, 0, 0] && buffer[..] == Zeros(64)
    {
      hide Fold, Transform, Encode;
      ghost var m := message;
      var bits := EncodeLoop([count0, count1]);
      CountBytes(count0, count1, |m|);
      CountNdx(count0, count1, |m|);
      var ndx := count0 / 8 % 64;
      var padLen := if ndx < 56 then 56 - ndx else 120 - ndx;
      Update(Padding(padLen));
      Update(bits);
      assert message == Padded(m);
      digest := EncodeLoop(state);
      state, count0, count1 := [0, 0, 0, 0], 0, 0;
      for j := 0 to 64
        invariant buffer.Length == 64 && state == [0, 0, 0, 0] && count0 == 0 && count1 == 0 && forall k ::
          0 <= k < j ==> buffer[k] == 0
      {
        buffer[j] := 0;
      }
    }
  }

  lemma TwoSteps(c: nat, high: nat)
    ensures ((c + 1) % W + high) % W == (c + 1 + high) % W
  {
    var q, r := (c + 1) / W, (c + 1) % W;
    assert c + 1 + high == W * q + (r + high);
    Quotient(c + 1 + high, W, q + (r + high) / W, (r + high) % W);
  }

  /** The bytes after the last full block. */
  function Tail(s: Bytes): (t: Bytes)
    ensures |t| == |s| % 64
  {
    s[|s| - |s| % 64..]
  }

  /** One block more. */
  lemma NextBlock(rounds: Rounds, s: Bytes, block: Bytes)
    requires |s| % 64 == 0 && |block| == 64
    ensures Fold(rounds, INIT, s + block) == Transform(rounds, Fold(rounds, INIT, s), block)
  {
    FoldConcat(rounds, INIT, s, block);
    assert block[..64] == block && block[64..] == [];
  }

  /** A part of a block changes nothing yet. */
  lemma PartBlock(rounds: Rounds, s: Bytes, part: Bytes)
    requires |s| % 64 == 0 && |part| < 64
    ensures Fold(rounds, INIT, s + part) == Fold(rounds, INIT, s)
  {
    FoldConcat(rounds, INIT, s, part);
  }

  lemma Split(m: Bytes) returns (full: Bytes)
    ensures m == full + Tail(m) && |full| % 64 == 0 && |full| == |m| - |m| % 64 && |Tail(m)| == |m| % 64
  {
    full := m[..|m| - |m| % 64];
  }

  /** The tail and the first bytes of the input make a block. */
  lemma FirstBlock(rounds: Rounds, m: Bytes, part: Bytes)
    requires |m| % 64 + |part| == 64
    ensures (|m| + |part|) % 64 == 0
    ensures |Tail(m) + part| == 64
      && Fold(rounds, INIT, m + part) == Transform(rounds, Fold(rounds, INIT, m), Tail(m) + part)
  {
    hide *;
    var full := Split(m);
    PartBlock(rounds, full, Tail(m));
    NextBlock(rounds, full, Tail(m) + part);
    assert full + Tail(m) + part == full + (Tail(m) + part);
  }

  lemma TailFrom(m: Bytes, input: Bytes, i: nat)
    requires i <= |input| < i + 64 && (|m| + i) % 64 == 0
    ensures Tail(m + input) == input[i..]
  {
    assert |m + input| - |m + input| % 64 == |m| + i;
  }

  lemma TailGrows(rounds: Rounds, m: Bytes, input: Bytes)
    requires |m| % 64 + |input| < 64
    ensures Tail(m + input) == Tail(m) + input && Fold(rounds, INIT, m + input) == Fold(rounds, INIT, m)
  {
    TailStays(m, input);
    hide *;
    var full := Split(m);
    PartBlock(rounds, full, Tail(m));
    PartBlock(rounds, full, Tail(m) + input);
    assert full + Tail(m) + input == full + (Tail(m) + input);
  }

  lemma TailStays(m: Bytes, input: Bytes)
    requires |m| % 64 + |input| < 64
    ensures Tail(m + input) == Tail(m) + input
  {
    Quotient(|m + input|, 64, |m| / 64, |m| % 64 + |input|);
    assert |m + input| - |m + input| % 64 == |m| - |m| % 64;
  }

  lemma LastPart(rounds: Rounds, m: Bytes, input: Bytes, i: nat)
    requires i <= |input| < i + 64
    ensures (|m| + i) % 64 == 0 ==> Fold(rounds, INIT, m + input) == Fold(rounds, INIT, m + input[..i])
  {
    if (|m| + i) % 64 == 0 {
      assert m + input == m + input[..i] + input[i..];
      PartBlock(rounds, m + input[..i], input[i..]);
    }
  }

  /** The digest does not depend on how the message is cut: handing over `pieces` one by one and
      finishing gives the digest of their concatenation. */
  method DigestOf(rounds: Rounds, pieces: seq<Bytes>) returns (digest: Bytes)
    requires forall i :: 0 <= i < |pieces| ==> |pieces[i]| < W - 63
    ensures digest == Digest(rounds, Concat(pieces))
  {
    var context := new Context(rounds);
    for i := 0 to |pieces|
      invariant context.Valid() && context.rounds == rounds && context.message == Concat(pieces[..i]) && fresh(context)
        && fresh(context.buffer)
    {
      ConcatNext(pieces, i);
      context.Update(pieces[i]);
    }
    assert pieces[..|pieces|] == pieces;
    digest := context.Final();
  }
}
