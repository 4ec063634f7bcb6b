/** RFC 1321 in its own words: the padded message bit by bit, words by the value of their bytes, and the
    states that lead from the first to the digest. */
module Md5Layout {
  import opened Arithmetic
  import opened Octets
  import opened Md5

  /** The bits of a message, the highest of each byte first (section 2). */
  function Bit(b: Bytes, i: nat): int
    requires i < 8 * |b|
  {
    b[i / 8] / Pow2(7 - i % 8) % 2
  }

  /** Section 3.1: a one, then zeros. */
  lemma PaddingBits(n: nat, i: nat)
    requires n > 0 && i < 8 * n
    ensures Bit(Padding(n), i) == if i == 0 then 1 else 0
  {
    hide Pow2;
    if i < 8 {
      TopBit(7 - i);
      assert Padding(n)[0] == 0x80 && i / 8 == 0 && i % 8 == i;
    } else {
      assert Padding(n)[i / 8] == 0;
    }
  }

  lemma TopBit(k: nat)
    requires k < 8
    ensures 0x80 / Pow2(k) % 2 == if k == 7 then 1 else 0
  {
    assert Pow2(3) == 8 && Pow2(5) == 32 && Pow2(7) == 128;
    if {
      case k == 0 =>
      case k == 1 =>
      case k == 2 =>
      case k == 3 =>
      case k == 4 =>
      case k == 5 =>
      case k == 6 =>
      case k == 7 =>
    }
  }

  /** Sections 3.1 and 3.2: behind the message there is a one, then zeros as far as eight bytes before the
      next multiple of 64 bytes that leaves room, and then the length in bits modulo 2^64, low byte first. */
  lemma PaddedIs(m: Bytes)
    ensures var p := Padded(m);
      && |p| % 64 == 0 && |m| + 9 <= |p| < |m| + 9 + 64 && p[..|m|] == m
      && (forall i :: 8 * |m| <= i < 8 * (|p| - 8) ==> Bit(p, i) == if i == 8 * |m| then 1 else 0)
      && Value(p[|p| - 8..]) == 8 * |m| % 0x1_0000_0000_0000_0000
  {
    var p, n := Padded(m), PadLength(|m|);
    assert p[|p| - 8..] == LengthBytes(|m|);
    LengthValue(|m|);
    forall i | 8 * |m| <= i < 8 * (|p| - 8) ensures Bit(p, i) == if i == 8 * |m| then 1 else 0 {
      var j := i - 8 * |m|;
      PaddingBits(n, j);
      assert i / 8 == |m| + j / 8 && i % 8 == j % 8;
      assert p[i / 8] == Padding(n)[j / 8];
    }
  }

  lemma LengthValue(n: nat)
    ensures Value(LengthBytes(n)) == 8 * n % WW
  {
    hide EncodeWord, Value, Encode;
    var t := 8 * n % WW;
    Halves(t);
    TwoWords(t % W, t / W);
    EncodeWordValue(t % W, EncodeWord(t % W));
    EncodeWordValue(t / W, EncodeWord(t / W));
    ValueAppends(EncodeWord(t % W), EncodeWord(t / W));
  }

  lemma Halves(t: nat)
    requires t < WW
    ensures t == t % W + W * (t / W) && t % W % W == t % W && t / W % W == t / W
  {
    assert t / W < W;
    Quotient(t % W, W, 0, t % W);
    Quotient(t / W, W, 0, t / W);
  }

  lemma TwoWords(low: nat, high: nat)
    ensures Encode([low, high]) == EncodeWord(low) + EncodeWord(high)
  {
    hide EncodeWord;
    assert [low, high][1..] == [high] && [high][1..] == [];
    assert Encode([high]) == EncodeWord(high) + Encode([]);
  }

  lemma ValueAppends(a: Bytes, b: Bytes)
    requires |a| == 4
    ensures Value(a + b) == Value(a) + W * Value(b)
  {
    var s := a + b;
    DecodeWordValue(a);
    assert s[1..][1..] == s[2..] && s[2..][1..] == s[3..] && s[3..][1..] == s[4..] == b;
    assert Value(s[3..]) == a[3] as nat + 0x100 * Value(b);
    assert Value(s[2..]) == a[2] as nat + 0x100 * Value(s[3..]);
    assert Value(s[1..]) == a[1] as nat + 0x100 * Value(s[2..]);
    assert Value(s) == a[0] as nat + 0x100 * Value(s[1..]);
  }

  /** Words by the value of their bytes, low byte first. */
  lemma {:induction false} WordsAre(b: Bytes, i: nat)
    requires |b| % 4 == 0 && i < |b| / 4
    ensures Decode(b)[i] == Value(b[4 * i..4 * i + 4])
  {
    if i == 0 {
      DecodeWordValue(b[..4]);
    } else {
      WordsAre(b[4..], i - 1);
      assert b[4..][4 * (i - 1)..4 * i] == b[4 * i..4 * i + 4];
    }
  }

  /** The bytes of the words that the computation starts from (section 3.3). */
  lemma InitBytes()
    ensures Encode(INIT) == [0x01, 0x23, 0x45, 0x67, 0x89, 0xab, 0xcd, 0xef,
                             0xfe, 0xdc, 0xba, 0x98, 0x76, 0x54, 0x32, 0x10]
  {
    TwoWords(INIT[0], INIT[1]);
    TwoWords(INIT[2], INIT[3]);
    EncodeAppends(INIT[..2], INIT[2..]);
  }

  lemma EncodeAppends(a: Words, b: Words)
    requires |a| == 2
    ensures Encode(a + b) == Encode(a) + Encode(b)
  {
    hide EncodeWord;
    var s := a + b;
    assert s[1..][1..] == b && a[1..][1..] == [] && s[1..][0] == a[1..][0];
    assert Encode(s[1..]) == EncodeWord(a[1]) + Encode(b) && Encode(a[1..]) == EncodeWord(a[1]) + Encode([]);
  }

  /** The states after each block of the padded message: each comes from the one before and the sixteen words
      of the block. */
  ghost predicate States(rounds: Rounds, p: Bytes, states: seq<Words>) {
    && 64 * (|states| - 1) == |p| && |states| > 0
    && forall j: nat :: j < |states| - 1 ==> Follows(rounds, p, states, j)
  }

  ghost predicate Follows(rounds: Rounds, p: Bytes, states: seq<Words>, j: nat)
    requires j + 1 < |states| && 64 * (|states| - 1) == |p|
  {
    exists x: Words :: |x| == 16 && BlockWords(p, j, x) && states[j + 1] == rounds(states[j], x)
  }

  /** The sixteen words of block `j`. */
  ghost predicate BlockWords(p: Bytes, j: nat, x: Words)
    requires 64 * (j + 1) <= |p|
  {
    |x| == 16 && forall i :: 0 <= i < 16 ==> x[i] == Value(p[64 * j + 4 * i..64 * j + 4 * i + 4])
  }

  /** The digest is the last of the states, in bytes. */
  lemma {:induction false} FoldStates(rounds: Rounds, state: Words, p: Bytes) returns (states: seq<Words>)
    requires |p| % 64 == 0
    ensures States(rounds, p, states) && states[0] == state && states[|states| - 1] == Fold(rounds, state, p)
    decreases |p|
  {
    if p == [] {
      states := [state];
    } else {
      var next := Transform(rounds, state, p[..64]);
      var rest := FoldStates(rounds, next, p[64..]);
      states := [state] + rest;
      FirstFollows(rounds, p, states);
      forall j: nat | j < |states| - 1 ensures Follows(rounds, p, states, j) {
        if j > 0 {
          assert Follows(rounds, p[64..], rest, j - 1);
          LaterFollows(rounds, p, states, j);
        }
      }
    }
  }

  lemma FirstFollows(rounds: Rounds, p: Bytes, states: seq<Words>)
    requires |p| >= 64 && 64 * (|states| - 1) == |p| && states[1] == Transform(rounds, states[0], p[..64])
    ensures Follows(rounds, p, states, 0)
  {
    var x := Decode(p[..64]);
    forall i | 0 <= i < 16 ensures x[i] == Value(p[4 * i..4 * i + 4]) {
      WordsAre(p[..64], i);
      assert p[..64][4 * i..4 * i + 4] == p[4 * i..4 * i + 4];
    }
    assert BlockWords(p, 0, x);
  }

  lemma LaterFollows(rounds: Rounds, p: Bytes, states: seq<Words>, j: nat)
    requires 0 < j < |states| - 1 && 64 * (|states| - 1) == |p| && Follows(rounds, p[64..], states[1..], j - 1)
    ensures Follows(rounds, p, states, j)
  {
    var x: Words :| |x| == 16 && BlockWords(p[64..], j - 1, x) && states[1..][j] == rounds(states[1..][j - 1], x);
    forall i | 0 <= i < 16 ensures x[i] == Value(p[64 * j + 4 * i..64 * j + 4 * i + 4]) {
      var at := 64 * (j - 1) + 4 * i;
      assert p[64..][at..at + 4] == p[at + 64..at + 68];
    }
    assert BlockWords(p, j, x);
  }

  /** What a digest is: beginning with the state of section 3.3, one state for each block of the padded
      message; the bytes of the last one, each word low byte first (section 3.5). */
  lemma DigestIs(rounds: Rounds, m: Bytes) returns (states: seq<Words>)
    ensures States(rounds, Padded(m), states)
    ensures Encode(states[0]) == [0x01, 0x23, 0x45, 0x67, 0x89, 0xab, 0xcd, 0xef,
                                  0xfe, 0xdc, 0xba, 0x98, 0x76, 0x54, 0x32, 0x10]
    ensures var last := states[|states| - 1];
      |Digest(rounds, m)| == 4 * |last| && forall i :: 0 <= i < |last| ==>
        Value(Digest(rounds, m)[4 * i..4 * i + 4]) == last[i] % 0x1_0000_0000
  {
    states := FoldStates(rounds, INIT, Padded(m));
    InitBytes();
    var last := states[|states| - 1];
    forall i | 0 <= i < |last| ensures Value(Encode(last)[4 * i..4 * i + 4]) == last[i] % W {
      BytesAre(last, i);
    }
  }

  lemma {:induction false} BytesAre(words: Words, i: nat)
    requires i < |words|
    ensures Value(Encode(words)[4 * i..4 * i + 4]) == words[i] % W
  {
    var b := EncodeWord(words[0]);
    EncodeWordValue(words[0], b);
    assert Encode(words)[..4] == b;
    if i > 0 {
      BytesAre(words[1..], i - 1);
      assert Encode(words)[4 * i..4 * i + 4] == Encode(words[1..])[4 * (i - 1)..4 * i];
    }
  }
}
