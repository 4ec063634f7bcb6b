/** XXTEA as it was published, on 32-bit words, and that the arithmetic of `Xxtea` on PHP integers
    computes it. */
module WordCipher {
  import opened Arithmetic
  import opened Octets
  import opened Xxtea

  // ----- words as numbers

  function Number(w: bv32): int {
    w as int
  }

  lemma DoubleNumber(x: bv32)
    requires x & 0x8000_0000 == 0
    ensures Number(x << 1) == 2 * Number(x) && Number((x << 1) | 1) == 2 * Number(x) + 1
  {
  }

  lemma HalfClear(w: bv32)
    ensures (w >> 1) & 0x8000_0000 == 0
    ensures w & 1 == 0 ==> (w >> 1) << 1 == w
    ensures w & 1 != 0 ==> ((w >> 1) << 1) | 1 == w
  {
  }

  lemma HalfNumber(w: bv32)
    ensures Number(w) == 2 * Number(w >> 1) + if w & 1 == 0 then 0 else 1
  {
    HalfClear(w);
    hide *;
    DoubleNumber(w >> 1);
  }

  function Inc(w: bv32): bv32 {
    w + 1
  }

  lemma IncEven(y: bv32)
    ensures Inc(y << 1) == (y << 1) | 1
  {
  }

  lemma IncOdd(y: bv32)
    ensures Inc((y << 1) | 1) == Inc(y) << 1
  {
  }

  lemma IncRange(y: bv32)
    requires y & 0x8000_0000 == 0
    ensures y != 0x7FFF_FFFF ==> Inc(y) & 0x8000_0000 == 0
    ensures ((y << 1) | 1 == 0xFFFF_FFFF <==> y == 0x7FFF_FFFF) && y != 0xFFFF_FFFF
  {
  }

  lemma NumberRange(w: bv32)
    ensures 0 <= Number(w) < M && (w == 0 <==> Number(w) == 0)
  {
  }

  lemma Ends()
    ensures Number(0xFFFF_FFFF) == M - 1 && Inc(0xFFFF_FFFF) == 0 && Number(0) == 0
  {
  }

  lemma {:induction false} IncNumber(w: bv32)
    requires w != 0xFFFF_FFFF
    ensures Number(Inc(w)) == Number(w) + 1
    decreases Number(w)
  {
    hide *;
    var y := w >> 1;
    HalfNumber(w);
    HalfClear(w);
    IncEven(y);
    IncOdd(y);
    IncRange(y);
    NumberRange(y);
    DoubleNumber(y);
    if w & 1 != 0 {
      IncNumber(y);
      DoubleNumber(Inc(y));
    }
  }

  function Plus(a: bv32, b: bv32): bv32 {
    a + b
  }

  lemma IncIs(w: bv32)
    ensures Inc(w) == w + 1
  {
  }

  lemma PlusIs(a: bv32, b: bv32)
    ensures Plus(a, b) == a + b
  {
  }

  lemma PlusOne(a: bv32, c: bv32)
    ensures Plus(a, c + 1) == Inc(a + c)
  {
  }

  lemma PlusInc(a: bv32, c: bv32)
    ensures Plus(a, Inc(c)) == Inc(Plus(a, c))
  {
    hide *;
    IncIs(c);
    PlusIs(a, c);
    PlusOne(a, c);
  }

  lemma Before(b: bv32) returns (c: bv32)
    requires b != 0
    ensures Inc(c) == b && c != 0xFFFF_FFFF
  {
    c := b - 1;
    assert Inc(b - 1) == b;
  }

  lemma PlusNothing(a: bv32)
    ensures Plus(a, 0) == a
  {
  }

  lemma NextModulo(n: int)
    ensures (n + 1) % M == if n % M == M - 1 then 0 else n % M + 1
  {
  }

  /** Words are added modulo 2^32. */
  lemma {:induction false} AddNumber(a: bv32, b: bv32)
    ensures Number(Plus(a, b)) == (Number(a) + Number(b)) % M
    decreases Number(b)
  {
    hide Number, Inc, Plus;
    NumberRange(a);
    NumberRange(b);
    if b == 0 {
      PlusNothing(a);
    } else {
      var c := Before(b);
      PlusInc(a, c);
      IncNumber(c);
      AddNumber(a, c);
      IncModulo(Plus(a, c), Number(a) + Number(c));
    }
  }

  lemma IncModulo(w: bv32, n: int)
    requires Number(w) == n % M
    ensures Number(Inc(w)) == (n + 1) % M
  {
    hide Number, Inc, Plus;
    NextModulo(n);
    Ends();
    LastNumber(w);
    if w != 0xFFFF_FFFF {
      IncNumber(w);
    }
  }

  function WordAt(n: int): bv32
    requires 0 <= n < M
  {
    n as bv32
  }

  lemma NumberBack(w: bv32)
    ensures 0 <= Number(w) < M && WordAt(Number(w)) == w
  {
  }

  lemma LastAt()
    ensures WordAt(M - 1) == 0xFFFF_FFFF
  {
    hide Number, WordAt;
    Ends();
    NumberBack(0xFFFF_FFFF);
  }

  lemma LastNumber(w: bv32)
    ensures w == 0xFFFF_FFFF <==> Number(w) == M - 1
  {
    hide Number, WordAt;
    NumberBack(w);
    Ends();
    LastAt();
  }

  lemma {:induction false} WordNumbered(n: nat) returns (w: bv32)
    requires n < M
    ensures Number(w) == n
    decreases n
  {
    hide Number, WordAt;
    Ends();
    w := 0;
    if n > 0 {
      var u := WordNumbered(n - 1);
      LastNumber(u);
      IncNumber(u);
      w := Inc(u);
    }
  }

  lemma NumberAt(n: nat)
    requires n < M
    ensures Number(WordAt(n)) == n
  {
    hide Number, WordAt;
    var w := WordNumbered(n);
    NumberBack(w);
  }

  /** The low 32 bits of an integer in two's complement. */
  function WordOf(n: int): bv32 {
    WordAt(n % M)
  }

  lemma WordOfNumber(n: int, w: bv32)
    ensures w == WordOf(n) <==> Number(w) == n % M
  {
    hide Number, WordAt;
    NumberAt(n % M);
    NumberBack(w);
  }

  lemma WordOfAdds(a: int, b: int)
    ensures WordOf(a + b) == Plus(WordOf(a), WordOf(b))
  {
    hide Number, WordOf, Plus;
    var x, y := WordOf(a), WordOf(b);
    WordOfNumber(a, x);
    WordOfNumber(b, y);
    AddNumber(x, y);
    assert (a % M + b % M) % M == (a + b) % M;
    WordOfNumber(a + b, Plus(x, y));
  }

  function Half(w: bv32): bv32 {
    w >> 1
  }

  predicate Odd(w: bv32) {
    w & 1 != 0
  }

  function Xor32(a: bv32, b: bv32): bv32 {
    a ^ b
  }

  lemma Halves(w: bv32)
    ensures Number(w) == 2 * Number(Half(w)) + if Odd(w) then 1 else 0
  {
    hide Number;
    HalfNumber(w);
  }

  lemma XorHalf(a: bv32, b: bv32)
    ensures Half(Xor32(a, b)) == Xor32(Half(a), Half(b)) && (Odd(Xor32(a, b)) <==> Odd(a) != Odd(b))
    ensures Xor32(0, 0) == 0
  {
  }

  lemma {:induction false} XorNumber(a: bv32, b: bv32)
    ensures Number(Xor32(a, b)) == Xor(Number(a), Number(b))
    decreases Number(a) + Number(b)
  {
    hide Number, Xor, Half, Odd, Xor32;
    Halves(a);
    Halves(b);
    Halves(Xor32(a, b));
    XorHalf(a, b);
    NumberRange(a);
    NumberRange(b);
    NumberRange(Half(a));
    NumberRange(Half(b));
    if a == 0 && b == 0 {
      XorNothing();
    } else {
      XorNumber(Half(a), Half(b));
      XorStep(Number(a), Number(b));
    }
  }

  lemma XorNothing()
    ensures Xor(0, 0) == 0
  {
  }

  lemma SignedNumber(n: int)
    ensures Int32(n) == if n % M < M / 2 then n % M else n % M - M
  {
    var q, r := n / M, n % M;
    assert n == M * q + r;
    if r < M / 2 {
      Quotient(n + M / 2, M, q, r + M / 2);
    } else {
      Quotient(n + M / 2, M, q + 1, r - M / 2);
    }
  }

  lemma SameNumber(a: int, b: int)
    ensures Int32(a) == Int32(b) <==> a % M == b % M
  {
    SignedNumber(a);
    SignedNumber(b);
    hide Int32;
  }

  lemma WordsModulo(n: int)
    ensures Int32(n) == Int32(n % M)
  {
    SameNumber(n, n % M);
  }

  lemma LeastNumber(n: int, r: int)
    requires Int32(r) == Int32(n) && 0 <= r < M
    ensures r == n % M
  {
    SameNumber(r, n);
  }

  lemma XorModulo(a: int, b: int, x: int, y: int)
    requires x == a % M && y == b % M && 0 <= Xor(x, y) < M
    ensures Xor(x, y) == Xor(a, b) % M
  {
    WordsModulo(a);
    WordsModulo(b);
    hide *;
    XorWords(a, b, x, y);
    LeastNumber(Xor(a, b), Xor(x, y));
  }

  lemma WordOfXor(a: int, b: int)
    ensures WordOf(Xor(a, b)) == Xor32(WordOf(a), WordOf(b))
  {
    hide Number, WordOf, Xor32, Xor;
    var x, y := WordOf(a), WordOf(b);
    var r := Xor32(x, y);
    WordOfNumber(a, x);
    WordOfNumber(b, y);
    XorNumber(x, y);
    NumberRange(r);
    XorModulo(a, b, Number(x), Number(y));
    WordOfNumber(Xor(a, b), r);
  }

  function Twice(w: bv32): bv32 {
    w << 1
  }

  lemma PlusSame(w: bv32)
    ensures Plus(w, w) == Twice(w)
  {
  }

  lemma WordOfTwice(n: int)
    ensures WordOf(2 * n) == Twice(WordOf(n))
  {
    hide WordOf, Plus, Twice;
    WordOfAdds(n, n);
    PlusSame(WordOf(n));
  }

  lemma WordOfHalf(n: int)
    requires 0 <= n < M
    ensures WordOf(n / 2) == Half(WordOf(n))
  {
    hide WordOf, Number, Half;
    WordOfNumber(n, WordOf(n));
    Halves(WordOf(n));
    NumberRange(Half(WordOf(n)));
    WordOfNumber(n / 2, Half(WordOf(n)));
  }

  function Right2(w: bv32): bv32 {
    w >> 2
  }

  function Right3(w: bv32): bv32 {
    w >> 3
  }

  function Right5(w: bv32): bv32 {
    w >> 5
  }

  lemma NextRight(w: bv32)
    ensures Half(w) == w >> 1 && Half(w >> 1) == w >> 2 && Half(w >> 2) == w >> 3 && Half(w >> 3) == w >> 4
    ensures Half(w >> 4) == w >> 5
  {
  }

  lemma Rights(w: bv32)
    ensures Right2(w) == Half(Half(w)) && Right3(w) == Half(Half(Half(w)))
      && Right5(w) == Half(Half(Half(Half(Half(w)))))
  {
    NextRight(w);
    hide Half;
  }

  lemma WordOfModulo(n: int)
    ensures WordOf(n % M) == WordOf(n)
  {
  }

  lemma RightModulo(n: int)
    ensures n / 0x20 % 0x800_0000 == n % M / 0x20 && n / 8 % 0x2000_0000 == n % M / 8
  {
    Shift5(n % M, n / M);
    Shift3(n % M, n / M);
    assert n == n % M + n / M * M;
  }

  lemma Quarters(m: nat)
    ensures m / 2 / 2 == m / 4 && m / 4 / 2 == m / 8 && m / 8 / 2 == m / 16 && m / 16 / 2 == m / 0x20
    ensures 0 <= m / 16 <= m / 8 <= m / 4 <= m / 2 <= m
  {
  }

  lemma WordRight(m: nat)
    requires m < M
    ensures WordOf(m / 4) == Right2(WordOf(m)) && WordOf(m / 8) == Right3(WordOf(m))
      && WordOf(m / 0x20) == Right5(WordOf(m))
  {
    hide *;
    Quarters(m);
    Rights(WordOf(m));
    WordOfHalf(m);
    WordOfHalf(m / 2);
    WordOfHalf(m / 4);
    WordOfHalf(m / 8);
    WordOfHalf(m / 16);
  }

  lemma WordOfRight(n: int)
    ensures WordOf(n / 0x20 % 0x800_0000) == Right5(WordOf(n)) && WordOf(n / 8 % 0x2000_0000) == Right3(WordOf(n))
    ensures WordOf(n % M / 4) == Right2(WordOf(n))
  {
    assert 0 <= n % M < M;
    hide *;
    RightModulo(n);
    WordOfModulo(n);
    WordRight(n % M);
  }

  // ----- the published algorithm

  type WordKey = k: seq<bv32> | |k| == 4 witness [0, 0, 0, 0]

  function KeyAt(key: WordKey, i: bv32): bv32 {
    if i == 0 then key[0] else if i == 1 then key[1] else if i == 2 then key[2] else key[3]
  }

  function Shifts(y: bv32, z: bv32): bv32 {
    (z >> 5) ^ (y << 2)
  }

  function OtherShifts(y: bv32, z: bv32): bv32 {
    (y >> 3) ^ (z << 4)
  }

  function Keyed(sum: bv32, y: bv32, k: bv32, z: bv32): bv32 {
    Plus(sum ^ y, k ^ z)
  }

  function IndexOf(p: bv32, sum: bv32): bv32 {
    (p & 3) ^ ((sum >> 2) & 3)
  }

  function Shifted(y: bv32, z: bv32): bv32 {
    Shifts(y, z) + OtherShifts(y, z)
  }

  /** MX */
  function Mix(key: WordKey, sum: bv32, y: bv32, z: bv32, p: bv32): bv32 {
    Shifted(y, z) ^ Keyed(sum, y, KeyAt(key, IndexOf(p, sum)), z)
  }

  function After(v: seq<bv32>, p: nat): bv32
    requires p < |v|
  {
    if p == |v| - 1 then v[0] else v[p + 1]
  }

  function Behind(v: seq<bv32>, p: nat): bv32
    requires p < |v|
  {
    if p == 0 then v[|v| - 1] else v[p - 1]
  }

  /** Word `p` of the block takes in its neighbours, around the ends of the block. */
  function Stepped(key: WordKey, sum: bv32, v: seq<bv32>, p: nat): (w: seq<bv32>)
    requires p < |v|
    ensures |w| == |v|
  {
    v[p := v[p] + Mix(key, sum, After(v, p), Behind(v, p), WordOf(p))]
  }

  /** The first `n` steps: word after word, round after round, and each round has one more DELTA in its
      sum. */
  function Run(key: WordKey, v: seq<bv32>, n: nat): (w: seq<bv32>)
    requires v != []
    ensures |w| == |v|
  {
    if n == 0 then v
    else Stepped(key, WordOf(((n - 1) / |v| + 1) * 0x9E3779B9), Run(key, v, n - 1), (n - 1) % |v|)
  }

  // ----- what PHP computes

  function WordsOf(v: seq<int>): (w: seq<bv32>)
    ensures |w| == |v|
  {
    seq(|v|, i requires 0 <= i < |v| => WordOf(v[i]))
  }

  lemma ShiftParts(y: bv32, z: bv32)
    ensures Xor32(Right5(z), Twice(Twice(y))) == Shifts(y, z)
    ensures Xor32(Right3(y), Twice(Twice(Twice(Twice(z))))) == OtherShifts(y, z)
  {
  }

  lemma KeyParts(sum: bv32, y: bv32, k: bv32, z: bv32)
    ensures Keyed(sum, y, k, z) == Plus(Xor32(sum, y), Xor32(k, z))
  {
    hide Plus;
  }

  lemma IndexParts(p: bv32, sum: bv32)
    ensures IndexOf(p, sum) == Xor32(And3(p), And3(Right2(sum)))
  {
  }

  lemma ShiftedParts(y: bv32, z: bv32)
    ensures Shifted(y, z) == Plus(Shifts(y, z), OtherShifts(y, z))
  {
    hide Shifts, OtherShifts;
  }

  lemma MixParts(key: WordKey, sum: bv32, y: bv32, z: bv32, p: bv32)
    ensures Mix(key, sum, y, z, p) == Xor32(Shifted(y, z), Keyed(sum, y, KeyAt(key, IndexOf(p, sum)), z))
  {
    hide Shifted, Keyed, IndexOf, KeyAt;
  }

  function And3(w: bv32): bv32 {
    w & 3
  }

  lemma LowBits(w: bv32)
    ensures Number(And3(w)) == Number(w) % 4
  {
    hide *;
    LowHalves(w);
    Halves(w);
    Halves(Half(w));
    Halves(And3(w));
    Halves(Half(And3(w)));
    Ends();
  }

  lemma LowHalves(w: bv32)
    ensures (Odd(And3(w)) <==> Odd(w)) && (Odd(Half(And3(w))) <==> Odd(Half(w))) && Half(Half(And3(w))) == 0
  {
  }

  lemma LowModulo(n: int)
    ensures n % M % 4 == n % 4 && n % 4 % M == n % 4 && n % M / 4 % 4 == n / 4 % 4
  {
    var k, m := n / M, n % M;
    var q := m / 4;
    assert n == 4 * (q + k * 0x4000_0000) + m % 4;
    assert q + k * 0x4000_0000 == 4 * (q / 4 + k * 0x1000_0000) + q % 4;
    assert 0 <= n % 4 < M;
    hide *;
    Quotient(n, 4, q + k * 0x4000_0000, m % 4);
    Quotient(q + k * 0x4000_0000, 4, q / 4 + k * 0x1000_0000, q % 4);
  }

  lemma WordOfLow(n: int)
    ensures WordOf(n % 4) == And3(WordOf(n))
  {
    LowModulo(n);
    var w := WordOf(n);
    hide *;
    WordOfNumber(n, w);
    LowBits(w);
    WordOfNumber(n % 4, And3(w));
  }

  lemma WordOfSelector(sum: int)
    ensures WordOf(Selector(sum)) == And3(Right2(WordOf(sum)))
  {
    LowModulo(sum);
    hide WordOf, Right2, And3;
    WordOfRight(sum);
    WordOfLow(sum % M / 4);
  }

  lemma WordOfKeyIndex(p: nat, sum: int)
    ensures WordOf(KeyIndex(p, Selector(sum))) == Xor32(And3(WordOf(p)), And3(Right2(WordOf(sum))))
  {
    hide WordOf, Xor, Selector, And3, Right2, Xor32;
    WordOfXor(p % 4, Selector(sum));
    WordOfLow(p);
    WordOfSelector(sum);
  }

  lemma SmallWords()
    ensures WordOf(0) == 0 && WordOf(1) == 1 && WordOf(2) == 2 && WordOf(3) == 3
  {
  }

  lemma KeyAtIndex(key: Key, i: nat)
    requires i < 4
    ensures KeyAt(WordsOf(key), WordOf(i)) == WordOf(key[i])
  {
    SmallWords();
    hide WordOf;
  }

  lemma WordOfLefts(n: int)
    ensures WordOf(n * 4) == Twice(Twice(WordOf(n)))
    ensures WordOf(n * 0x10) == Twice(Twice(Twice(Twice(WordOf(n)))))
  {
    hide WordOf, Twice;
    WordOfTwice(n);
    WordOfTwice(2 * n);
    WordOfTwice(4 * n);
    WordOfTwice(8 * n);
  }

  lemma WordOfInt32(n: int)
    ensures WordOf(Int32(n)) == WordOf(n)
  {
    Int32Idempotent(n);
    SameNumber(Int32(n), n);
  }

  lemma WordOfShifts(y: int, z: int)
    ensures WordOf(Xor(z / 0x20 % 0x800_0000, y * 4)) == Shifts(WordOf(y), WordOf(z))
    ensures WordOf(Xor(y / 8 % 0x2000_0000, z * 0x10)) == OtherShifts(WordOf(y), WordOf(z))
  {
    hide *;
    WordOfXor(z / 0x20 % 0x800_0000, y * 4);
    WordOfXor(y / 8 % 0x2000_0000, z * 0x10);
    WordOfRight(z);
    WordOfRight(y);
    WordOfLefts(y);
    WordOfLefts(z);
    ShiftParts(WordOf(y), WordOf(z));
  }

  lemma WordOfKeyed(key: Key, sum: int, y: int, z: int, p: nat)
    ensures var k := key[KeyIndex(p, Selector(sum))];
      WordOf(Xor(sum, y) + Xor(k, z))
        == Keyed(WordOf(sum), WordOf(y), KeyAt(WordsOf(key), IndexOf(WordOf(p), WordOf(sum))), WordOf(z))
  {
    var i := KeyIndex(p, Selector(sum));
    var k := key[i];
    hide *;
    WordOfXor(sum, y);
    WordOfXor(k, z);
    WordOfAdds(Xor(sum, y), Xor(k, z));
    WordOfKeyIndex(p, sum);
    KeyAtIndex(key, i);
    IndexParts(WordOf(p), WordOf(sum));
    KeyParts(WordOf(sum), WordOf(y), WordOf(k), WordOf(z));
  }

  /** The mixing of the source is MX. */
  lemma WordOfMx(key: Key, sum: int, y: int, z: int, p: nat)
    ensures WordOf(Mx(key, sum, Selector(sum), y, z, p))
      == Mix(WordsOf(key), WordOf(sum), WordOf(y), WordOf(z), WordOf(p))
  {
    hide *;
    var a, b := Xor(z / 0x20 % 0x800_0000, y * 4), Xor(y / 8 % 0x2000_0000, z * 0x10);
    var c := Xor(sum, y) + Xor(key[KeyIndex(p, Selector(sum))], z);
    MxIs(key, sum, Selector(sum), y, z, p);
    WordOfShifts(y, z);
    WordOfAdds(a, b);
    WordOfInt32(a + b);
    WordOfInt32(c);
    WordOfXor(Int32(a + b), Int32(c));
    WordOfKeyed(key, sum, y, z, p);
    ShiftedParts(WordOf(y), WordOf(z));
    MixParts(WordsOf(key), WordOf(sum), WordOf(y), WordOf(z), WordOf(p));
  }

  lemma Neighbours(v: seq<int>, p: nat)
    requires p < |v|
    ensures WordOf(Next(v, p)) == After(WordsOf(v), p) && WordOf(Prev(v, p)) == Behind(WordsOf(v), p)
  {
    hide WordOf;
  }

  lemma WordsOfUpdate(v: seq<int>, p: nat, x: int)
    requires p < |v|
    ensures WordsOf(v[p := x]) == WordsOf(v)[p := WordOf(x)] && WordsOf(v)[p] == WordOf(v[p])
  {
    hide WordOf;
  }

  lemma StepIs(key: Key, sum: int, v: seq<int>, p: nat)
    requires p < |v|
    ensures Step(key, sum, v, p) == v[p := Int32(v[p] + Mx(key, sum, Selector(sum), Next(v, p), Prev(v, p), p))]
  {
    hide Mx, Int32, Selector, Next, Prev;
  }

  lemma SteppedIs(key: WordKey, sum: bv32, w: seq<bv32>, p: nat)
    requires p < |w|
    ensures Stepped(key, sum, w, p) == w[p := Plus(w[p], Mix(key, sum, After(w, p), Behind(w, p), WordOf(p)))]
  {
    hide Mix, WordOf, After, Behind;
  }

  /** One step of the source is one step of the algorithm. */
  lemma WordsOfStep(key: Key, sum: int, v: seq<int>, p: nat)
    requires p < |v|
    ensures WordsOf(Step(key, sum, v, p)) == Stepped(WordsOf(key), WordOf(sum), WordsOf(v), p)
  {
    hide *;
    var mx := Mx(key, sum, Selector(sum), Next(v, p), Prev(v, p), p);
    StepIs(key, sum, v, p);
    SteppedIs(WordsOf(key), WordOf(sum), WordsOf(v), p);
    WordOfMx(key, sum, Next(v, p), Prev(v, p), p);
    Neighbours(v, p);
    WordOfAdds(v[p], mx);
    WordOfInt32(v[p] + mx);
    WordsOfUpdate(v, p, Int32(v[p] + mx));
  }

  lemma RunNext(key: WordKey, w: seq<bv32>, k: nat, n: nat)
    requires 0 < n <= |w|
    ensures var m := k * |w| + n - 1;
      Run(key, w, m + 1) == Stepped(key, WordOf((k + 1) * 0x9E3779B9), Run(key, w, m), n - 1)
  {
    hide Stepped, WordOf;
    Quotient(k * |w| + n - 1, |w|, k, n - 1);
  }

  lemma {:induction false} WordsOfSteps(key: Key, w: seq<bv32>, v: seq<int>, k: nat, n: nat)
    requires v != [] && |w| == |v| && n <= |v| && WordsOf(v) == Run(WordsOf(key), w, k * |w|)
    ensures WordsOf(Steps(key, SumAfter(k + 1), v, n)) == Run(WordsOf(key), w, k * |w| + n)
    decreases n
  {
    hide WordOf, WordsOf, SumAfter, Step, Stepped, Run;
    if n > 0 {
      WordsOfSteps(key, w, v, k, n - 1);
      WordsOfStep(key, SumAfter(k + 1), Steps(key, SumAfter(k + 1), v, n - 1), n - 1);
      SumIs(k + 1);
      RunNext(WordsOf(key), w, k, n);
    }
  }

  lemma SumIs(k: nat)
    ensures WordOf(SumAfter(k)) == WordOf(k * 0x9E3779B9)
  {
    hide WordOf, Int32;
    WordOfInt32(k * DELTA);
  }

  lemma NotRun(key: WordKey, w: seq<bv32>)
    requires w != []
    ensures Run(key, w, 0) == w
  {
  }

  lemma {:induction false} WordsOfRounds(key: Key, v: seq<int>, k: nat)
    requires v != []
    ensures WordsOf(EncryptRounds(key, v, k)) == Run(WordsOf(key), WordsOf(v), k * |v|)
    decreases k
  {
    hide WordOf, WordsOf, SumAfter, Steps, Stepped, Run;
    if k == 0 {
      NotRun(WordsOf(key), WordsOf(v));
    } else {
      WordsOfRounds(key, v, k - 1);
      WordsOfSteps(key, WordsOf(v), EncryptRounds(key, v, k - 1), k - 1, |v|);
      assert (k - 1) * |v| + |v| == k * |v|;
    }
  }

  lemma RoundsFit(n: nat)
    requires n > 0
    ensures Rounds(n) * n <= 6 * n + 52 < (Rounds(n) + 1) * n
  {
    assert 52 == n * (52 / n) + 52 % n;
  }

  /** The source encrypts as published: as many rounds as fit into 6 + 52 / n, on the words of the block. */
  lemma EncryptedAsPublished(key: Key, v: seq<int>) returns (q: nat)
    requires v != []
    ensures q * |v| <= 6 * |v| + 52 < (q + 1) * |v|
    ensures WordsOf(Encrypted(key, v)) == Run(WordsOf(key), WordsOf(v), q * |v|)
  {
    hide Rounds, EncryptRounds, WordsOf, Run;
    q := Rounds(|v|);
    RoundsFit(|v|);
    WordsOfRounds(key, v, q);
  }

  // ----- a published block

  const ZEROS: WordKey := [0, 0, 0, 0]

  function ZeroMix(sum: bv32, y: bv32, z: bv32): bv32 {
    Shifted(y, z) ^ Keyed(sum, y, 0, z)
  }

  lemma ZeroKey(i: bv32)
    ensures KeyAt(ZEROS, i) == 0
  {
  }

  lemma ZeroMixParts(sum: bv32, y: bv32, z: bv32)
    ensures ZeroMix(sum, y, z) == Xor32(Shifted(y, z), Keyed(sum, y, 0, z))
  {
    hide Shifted, Keyed;
  }

  lemma MixOfZeros(sum: bv32, y: bv32, z: bv32, p: bv32)
    ensures Mix(ZEROS, sum, y, z, p) == ZeroMix(sum, y, z)
  {
    hide *;
    ZeroKey(IndexOf(p, sum));
    MixParts(ZEROS, sum, y, z, p);
    ZeroMixParts(sum, y, z);
  }

  /** The block after `k` rounds, and the sum of the last. */
  ghost predicate ZerosAfter(k: nat, s: bv32, a: bv32, b: bv32) {
    Run(ZEROS, [0, 0], 2 * k) == [a, b] && WordOf(k * 0x9E3779B9) == s
  }

  lemma ZeroRound(k: nat, s: bv32, a: bv32, b: bv32, s': bv32, a': bv32, b': bv32)
    requires ZerosAfter(k, s, a, b)
    requires s' == Plus(s, 0x9E3779B9) && a' == Plus(a, ZeroMix(s', b, b)) && b' == Plus(b, ZeroMix(s', a', a'))
    ensures ZerosAfter(k + 1, s', a', b')
  {
    hide Run, Stepped, Mix, ZeroMix, Plus, WordOf;
    SumMore(k);
    var w: seq<bv32> := [0, 0];
    assert k * |w| == 2 * k;
    RunNext(ZEROS, w, k, 1);
    RunNext(ZEROS, w, k, 2);
    var u, v := [a, b], [a', b];
    SteppedIs(ZEROS, s', u, 0);
    SteppedIs(ZEROS, s', v, 1);
    MixOfZeros(s', b, b, WordOf(0));
    MixOfZeros(s', a', a', WordOf(1));
    assert u[0 := a'] == v && v[1 := b'] == [a', b'];
    assert Run(ZEROS, w, 2 * k + 1) == v && Run(ZEROS, w, 2 * k + 2) == [a', b'];
    assert 2 * (k + 1) == 2 * k + 2;
  }

  lemma SumMore(k: nat)
    ensures WordOf((k + 1) * 0x9E3779B9) == Plus(WordOf(k * 0x9E3779B9), 0x9E3779B9)
  {
    hide WordOf, Plus;
    WordOfAdds(k * 0x9E3779B9, 0x9E3779B9);
    assert (k + 1) * 0x9E3779B9 == k * 0x9E3779B9 + 0x9E3779B9;
    DeltaWord();
  }

  lemma DeltaWord()
    ensures WordOf(0x9E3779B9) == 0x9E3779B9
  {
  }

  lemma ZerosStart()
    ensures ZerosAfter(0, 0, 0, 0)
  {
  }

  /** The block of zeros under the key of zeros, round by round. */
  lemma ZerosEncrypted()
    ensures ZerosAfter(32, 0xc6ef3720, 0x053704ab, 0x575d8c80)
  {
    hide ZerosAfter;
    ZerosStart();
    ZeroRound(0, 0x00000000, 0x00000000, 0x00000000, 0x9e3779b9, 0x9e3779b9, 0xf2eaa869);
    ZeroRound(1, 0x9e3779b9, 0x9e3779b9, 0xf2eaa869, 0x3c6ef372, 0xda9244b9, 0xd18827b5);
    ZeroRound(2, 0x3c6ef372, 0xda9244b9, 0xd18827b5, 0xdaa66d2b, 0x7a687295, 0x60924a46);
    ZeroRound(3, 0xdaa66d2b, 0x7a687295, 0x60924a46, 0x78dde6e4, 0x78cdd12f, 0x7cfe2636);
    ZeroRound(4, 0x78dde6e4, 0x78cdd12f, 0x7cfe2636, 0x1715609d, 0xd1424e9d, 0x4314dad4);
    ZeroRound(5, 0x1715609d, 0xd1424e9d, 0x4314dad4, 0xb54cda56, 0x4f5a2793, 0xb53f833e);
    ZeroRound(6, 0xb54cda56, 0x4f5a2793, 0xb53f833e, 0x5384540f, 0xdca7159a, 0xe2d50236);
    ZeroRound(7, 0x5384540f, 0xdca7159a, 0xe2d50236, 0xf1bbcdc8, 0x27b60775, 0xc594b9d5);
    ZeroRound(8, 0xf1bbcdc8, 0x27b60775, 0xc594b9d5, 0x8ff34781, 0x8541fca2, 0x9fa5feb9);
    ZeroRound(9, 0x8ff34781, 0x8541fca2, 0x9fa5feb9, 0x2e2ac13a, 0xba651406, 0x7377b193);
    ZeroRound(10, 0x2e2ac13a, 0xba651406, 0x7377b193, 0xcc623af3, 0xf03b6a37, 0x3d02accb);
    ZeroRound(11, 0xcc623af3, 0xf03b6a37, 0x3d02accb, 0x6a99b4ac, 0x4a2c6478, 0xf9893569);
    ZeroRound(12, 0x6a99b4ac, 0x4a2c6478, 0xf9893569, 0x08d12e65, 0xcd96c0b1, 0x5d515dab);
    ZeroRound(13, 0x08d12e65, 0xcd96c0b1, 0x5d515dab, 0xa708a81e, 0xcf5b7ed7, 0x6e2e549f);
    ZeroRound(14, 0xa708a81e, 0xcf5b7ed7, 0x6e2e549f, 0x454021d7, 0x02cfecb3, 0xebbd12f7);
    ZeroRound(15, 0x454021d7, 0x02cfecb3, 0xebbd12f7, 0xe3779b90, 0xa7a798da, 0xd2045544);
    ZeroRound(16, 0xe3779b90, 0xa7a798da, 0xd2045544, 0x81af1549, 0x54d05ccd, 0x85cc748e);
    ZeroRound(17, 0x81af1549, 0x54d05ccd, 0x85cc748e, 0x1fe68f02, 0x953964e4, 0x37315fe7);
    ZeroRound(18, 0x1fe68f02, 0x953964e4, 0x37315fe7, 0xbe1e08bb, 0x2849e290, 0xd68e7604);
    ZeroRound(19, 0xbe1e08bb, 0x2849e290, 0xd68e7604, 0x5c558274, 0xd7f812e4, 0xb4068a5b);
    ZeroRound(20, 0x5c558274, 0xd7f812e4, 0xb4068a5b, 0xfa8cfc2d, 0x062ba5cc, 0x2dd29795);
    ZeroRound(21, 0xfa8cfc2d, 0x062ba5cc, 0x2dd29795, 0x98c475e6, 0x728a324e, 0xda491a3a);
    ZeroRound(22, 0x98c475e6, 0x728a324e, 0xda491a3a, 0x36fbef9f, 0x5bbce14d, 0xb02d3562);
    ZeroRound(23, 0x36fbef9f, 0x5bbce14d, 0xb02d3562, 0xd5336958, 0x2b041e80, 0xfb7f85fe);
    ZeroRound(24, 0xd5336958, 0x2b041e80, 0xfb7f85fe, 0x736ae311, 0x3c2d965b, 0x39408cfa);
    ZeroRound(25, 0x736ae311, 0x3c2d965b, 0x39408cfa, 0x11a25cca, 0x51f7df3f, 0x021f3622);
    ZeroRound(26, 0x11a25cca, 0x51f7df3f, 0x021f3622, 0xafd9d683, 0xd7f2901d, 0xf170349e);
    ZeroRound(27, 0xafd9d683, 0xd7f2901d, 0xf170349e, 0x4e11503c, 0x539bca2c, 0xe355eaf8);
    ZeroRound(28, 0x4e11503c, 0x539bca2c, 0xe355eaf8, 0xec48c9f5, 0x958de3bf, 0x75ae5259);
    ZeroRound(29, 0xec48c9f5, 0x958de3bf, 0x75ae5259, 0x8a8043ae, 0xf3473340, 0x0f5ab585);
    ZeroRound(30, 0x8a8043ae, 0xf3473340, 0x0f5ab585, 0x28b7bd67, 0xf95ee03f, 0xb59a1fe8);
    ZeroRound(31, 0x28b7bd67, 0xf95ee03f, 0xb59a1fe8, 0xc6ef3720, 0x053704ab, 0x575d8c80);
  }

  lemma {:induction false} StepsMakeWords(key: Key, sum: int, v: seq<int>, n: nat)
    requires n <= |v|
    ensures forall i :: 0 <= i < n ==> Int32(Steps(key, sum, v, n)[i]) == Steps(key, sum, v, n)[i]
    decreases n
  {
    hide Int32, Mixed, Xor;
    if n > 0 {
      var u := Steps(key, sum, v, n - 1);
      StepsMakeWords(key, sum, v, n - 1);
      Int32Idempotent(u[n - 1] + Mixed(key, sum, u, n - 1));
    }
  }

  lemma SignedWord(n: int, w: bv32, m: int)
    requires Int32(n) == n && WordOf(n) == w && 0 <= m < 0x8000_0000 && w == WordOf(m)
    ensures n == m
  {
    hide WordOf, Number;
    WordOfNumber(n, w);
    WordOfNumber(m, w);
  }

  lemma AnchorWords()
    ensures WordOf(0x053704ab) == 0x053704ab && WordOf(0x575d8c80) == 0x575d8c80 && WordOf(0) == 0
  {
  }

  lemma ZerosAsWords(key: Key, v: seq<int>)
    requires key == [0, 0, 0, 0] && v == [0, 0]
    ensures WordsOf(key) == ZEROS && WordsOf(v) == [0, 0]
  {
    AnchorWords();
    hide WordOf;
  }

  lemma ZerosRun(q: nat, n: nat)
    requires n == 2 && q * n <= 6 * n + 52 < (q + 1) * n
    ensures Run(ZEROS, [0, 0], q * n) == [0x053704ab, 0x575d8c80]
  {
    ZerosEncrypted();
    assert q == 32 && q * n == 2 * 32;
    hide Run, WordOf;
  }

  lemma ZeroWords(key: Key, v: seq<int>)
    requires key == [0, 0, 0, 0] && v == [0, 0]
    ensures WordsOf(Encrypted(key, v)) == [0x053704ab, 0x575d8c80]
  {
    assert |v| == 2;
    hide *;
    ZerosAsWords(key, v);
    var q := EncryptedAsPublished(key, v);
    ZerosRun(q, |v|);
  }

  lemma WordsAt(v: seq<int>, i: nat)
    requires i < |v|
    ensures WordsOf(v)[i] == WordOf(v[i])
  {
  }

  /** A published block: zeros under a key of zeros. */
  lemma ZeroBlock()
    ensures Encrypted([0, 0, 0, 0], [0, 0]) == [0x053704ab, 0x575d8c80]
  {
    var key: Key, v: seq<int> := [0, 0, 0, 0], [0, 0];
    var w := Encrypted(key, v);
    hide Encrypted, WordsOf, WordOf, Int32;
    AnchorWords();
    ZeroWords(key, v);
    EncryptMakesWords(key, v);
    WordsAt(w, 0);
    WordsAt(w, 1);
    SignedWord(w[0], 0x053704ab, 0x053704ab);
    SignedWord(w[1], 0x575d8c80, 0x575d8c80);
  }

  lemma EncryptMakesWords(key: Key, v: seq<int>)
    requires v != []
    ensures Words(Encrypted(key, v))
  {
    var k := Rounds(|v|);
    var u := EncryptRounds(key, v, k - 1);
    StepsMakeWords(key, SumAfter(k), u, |u|);
  }
}
