/** The XXTEA block cipher of the PHP client, over PHP integers: machine words are kept in signed
    32 bits by _int32, everything in between is exact. */
module Xxtea {
  import opened Arithmetic
  import opened Octets

  const DELTA := 0x9E3779B9
  const M := 0x1_0000_0000

  // ----- PHP integers

  /** _int32: the signed 32-bit number congruent to `n`. */
  function Int32(n: int): (r: int)
    ensures -0x8000_0000 <= r < 0x8000_0000 && (r - n) % M == 0
  {
    (n + 0x8000_0000) % M - 0x8000_0000
  }

  lemma Int32Unique(n: int, r: int)
    requires -0x8000_0000 <= r < 0x8000_0000 && (r - n) % M == 0
    ensures r == Int32(n)
  {
  }

  method ToInt32(n: int) returns (r: int)
    ensures r == Int32(n)
  {
    r := n;
    while r >= 2147483648
      invariant (r - n) % M == 0 && (r < -0x8000_0000 ==> r == n)
    {
      r := r - 4294967296;
    }
    while r <= -2147483649
      invariant (r - n) % M == 0 && r < 0x8000_0000
      decreases -r
    {
      r := r + 4294967296;
    }
    Int32Unique(n, r);
  }

  /** Exclusive or of two's complement integers. */
  function Xor(a: int, b: int): int
    decreases if a < 0 then -a else a, if b < 0 then -b else b
  {
    if (a == 0 || a == -1) && (b == 0 || b == -1) then if a == b then 0 else -1
    else 2 * Xor(a / 2, b / 2) + if a % 2 == b % 2 then 0 else 1
  }

  lemma XorStep(a: int, b: int)
    ensures Xor(a, b) == 2 * Xor(a / 2, b / 2) + if a % 2 == b % 2 then 0 else 1
  {
  }

  function Times(k: int, m: int): int {
    k * m
  }

  /** The numbers differ by a multiple of `m`. */
  ghost predicate Congruent(a: int, b: int, m: int) {
    exists k :: b == a + Times(k, m)
  }

  lemma CongruentHalves(a: int, b: int, p: int)
    requires Congruent(a, b, 2 * p)
    ensures a % 2 == b % 2 && Congruent(a / 2, b / 2, p)
  {
    var k :| b == a + Times(k, 2 * p);
    var kp := Times(k, p);
    assert Times(k, 2 * p) == 2 * kp;
    hide Times;
    assert b / 2 == a / 2 + kp;
  }

  lemma CongruentDoubles(a: int, b: int, p: int, bit: int)
    requires Congruent(a, b, p)
    ensures Congruent(2 * a + bit, 2 * b + bit, 2 * p)
  {
    var k :| b == a + Times(k, p);
    assert Times(k, 2 * p) == 2 * Times(k, p);
  }

  /** The low bits of an exclusive or depend on the low bits of its operands only. */
  lemma {:induction false} XorLowBits(a: int, b: int, c: int, d: int, n: nat)
    requires Congruent(a, c, Pow2(n)) && Congruent(b, d, Pow2(n))
    ensures Congruent(Xor(a, b), Xor(c, d), Pow2(n))
    decreases n
  {
    if n == 0 {
      assert Xor(c, d) == Xor(a, b) + Times(Xor(c, d) - Xor(a, b), 1);
    } else {
      var p := Pow2(n - 1);
      assert Pow2(n) == 2 * p;
      hide *;
      CongruentHalves(a, c, p);
      CongruentHalves(b, d, p);
      XorLowBits(a / 2, b / 2, c / 2, d / 2, n - 1);
      XorStep(a, b);
      XorStep(c, d);
      CongruentDoubles(Xor(a / 2, b / 2), Xor(c / 2, d / 2), p, if a % 2 == b % 2 then 0 else 1);
    }
  }

  lemma Pow32()
    ensures Pow2(32) == M
  {
    assert Pow2(8) == 256;
    assert Pow2(16) == 0x1_0000;
    assert Pow2(24) == 0x100_0000;
  }

  lemma CongruentWords(a: int, b: int)
    ensures Congruent(a, b, M) <==> Int32(a) == Int32(b)
  {
    if Int32(a) == Int32(b) {
      assert b == a + Times((b - a) / M, M);
    }
  }

  lemma XorWords(a: int, b: int, c: int, d: int)
    requires Int32(a) == Int32(c) && Int32(b) == Int32(d)
    ensures Int32(Xor(a, b)) == Int32(Xor(c, d))
  {
    CongruentWords(a, c);
    CongruentWords(b, d);
    Pow32();
    hide *;
    XorLowBits(a, b, c, d, 32);
    CongruentWords(Xor(a, b), Xor(c, d));
  }

  // ----- the mixing function

  lemma XorSmall(a: int, b: int)
    requires 0 <= a < 4 && 0 <= b < 4
    ensures 0 <= Xor(a, b) < 4
  {
    XorStep(a, b);
    XorStep(a / 2, b / 2);
  }

  /** `$p & 3 ^ $e` */
  function KeyIndex(p: nat, e: int): (i: int)
    requires 0 <= e < 4
    ensures 0 <= i < 4
  {
    XorSmall(p % 4, e);
    Xor(p % 4, e)
  }

  /** `$sum >> 2 & 3` */
  function Selector(sum: int): (e: int)
    ensures 0 <= e < 4
  {
    sum / 4 % 4
  }

  type Key = k: seq<int> | |k| == 4 witness [0, 0, 0, 0]

  /** `$mx`, from the words after and before the one at `p`. */
  function Mx(key: Key, sum: int, e: int, y: int, z: int, p: nat): int
    requires 0 <= e < 4
  {
    Xor(Int32(Xor(z / 0x20 % 0x800_0000, y * 4) + Xor(y / 8 % 0x2000_0000, z * 0x10)),
        Int32(Xor(sum, y) + Xor(key[KeyIndex(p, e)], z)))
  }

  /** How far apart two numbers with the same word are. */
  lemma WordsApart(a: int, b: int) returns (k: int)
    requires Int32(a) == Int32(b)
    ensures b == a + k * M
  {
    k := (b - a) / M;
  }

  lemma Int32Shift(n: int, k: int)
    ensures Int32(n + k * M) == Int32(n)
  {
  }

  lemma ShiftWords(y: int, z: int)
    requires Int32(y) == Int32(z)
    ensures y / 0x20 % 0x800_0000 == z / 0x20 % 0x800_0000
    ensures y / 8 % 0x2000_0000 == z / 8 % 0x2000_0000
    ensures Int32(y * 4) == Int32(z * 4) && Int32(y * 0x10) == Int32(z * 0x10)
  {
    var k := WordsApart(y, z);
    Int32Shift(y * 4, 4 * k);
    Int32Shift(y * 0x10, 0x10 * k);
    Shift5(y, k);
    Shift3(y, k);
    hide *;
    assert z * 4 == y * 4 + 4 * k * M && z * 0x10 == y * 0x10 + 0x10 * k * M;
  }

  lemma Shift5(y: int, k: int)
    ensures (y + k * M) / 0x20 % 0x800_0000 == y / 0x20 % 0x800_0000
  {
    var q, r := y / 0x20, y % 0x20;
    assert y + k * M == 0x20 * (q + k * 0x800_0000) + r;
    assert (y + k * M) / 0x20 == q + k * 0x800_0000;
  }

  lemma Shift3(y: int, k: int)
    ensures (y + k * M) / 8 % 0x2000_0000 == y / 8 % 0x2000_0000
  {
    var q, r := y / 8, y % 8;
    assert y + k * M == 8 * (q + k * 0x2000_0000) + r;
    assert (y + k * M) / 8 == q + k * 0x2000_0000;
  }

  lemma SumWords(a: int, b: int, c: int, d: int)
    requires Int32(a) == Int32(c) && Int32(b) == Int32(d)
    ensures Int32(a + b) == Int32(c + d) && Int32(a - b) == Int32(c - d)
  {
    var i := WordsApart(a, c);
    var j := WordsApart(b, d);
    hide *;
    Int32Shift(a + b, i + j);
    Int32Shift(a - b, i - j);
    assert a + b + (i + j) * M == c + d && a - b + (i - j) * M == c - d;
  }

  lemma MxIs(key: Key, sum: int, e: int, y: int, z: int, p: nat)
    requires 0 <= e < 4
    ensures Mx(key, sum, e, y, z, p)
      == Xor(Int32(Xor(z / 0x20 % 0x800_0000, y * 4) + Xor(y / 8 % 0x2000_0000, z * 0x10)),
             Int32(Xor(sum, y) + Xor(key[KeyIndex(p, e)], z)))
  {
  }

  /** Mixing sees words only: numbers with the same low 32 bits give the same result. */
  lemma MxWords(key: Key, sum: int, e: int, y: int, z: int, y': int, z': int, p: nat)
    requires 0 <= e < 4 && Int32(y) == Int32(y') && Int32(z) == Int32(z')
    ensures Mx(key, sum, e, y, z, p) == Mx(key, sum, e, y', z', p)
  {
    hide *;
    MxIs(key, sum, e, y, z, p);
    MxIs(key, sum, e, y', z', p);
    ShiftWords(y, y');
    ShiftWords(z, z');
    XorWords(z / 0x20 % 0x800_0000, y * 4, z' / 0x20 % 0x800_0000, y' * 4);
    XorWords(y / 8 % 0x2000_0000, z * 0x10, y' / 8 % 0x2000_0000, z' * 0x10);
    SumWords(Xor(z / 0x20 % 0x800_0000, y * 4), Xor(y / 8 % 0x2000_0000, z * 0x10),
             Xor(z' / 0x20 % 0x800_0000, y' * 4), Xor(y' / 8 % 0x2000_0000, z' * 0x10));
    XorWords(sum, y, sum, y');
    XorWords(key[KeyIndex(p, e)], z, key[KeyIndex(p, e)], z');
    SumWords(Xor(sum, y), Xor(key[KeyIndex(p, e)], z), Xor(sum, y'), Xor(key[KeyIndex(p, e)], z'));
  }

  // ----- rounds

  /** The word after `p`, around the end of the block. */
  function Next(v: seq<int>, p: nat): int
    requires p < |v|
  {
    if p == |v| - 1 then v[0] else v[p + 1]
  }

  function Prev(v: seq<int>, p: nat): int
    requires p < |v|
  {
    if p == 0 then v[|v| - 1] else v[p - 1]
  }

  function Mixed(key: Key, sum: int, v: seq<int>, p: nat): int
    requires p < |v|
  {
    Mx(key, sum, Selector(sum), Next(v, p), Prev(v, p), p)
  }

  function Step(key: Key, sum: int, v: seq<int>, p: nat): (w: seq<int>)
    requires p < |v|
    ensures |w| == |v|
  {
    v[p := Int32(v[p] + Mixed(key, sum, v, p))]
  }

  function Undo(key: Key, sum: int, v: seq<int>, p: nat): (w: seq<int>)
    requires p < |v|
    ensures |w| == |v|
  {
    v[p := Int32(v[p] - Mixed(key, sum, v, p))]
  }

  /** The words before `n`, first to last. */
  function Steps(key: Key, sum: int, v: seq<int>, n: nat): (w: seq<int>)
    requires n <= |v|
    ensures |w| == |v|
  {
    if n == 0 then v else Step(key, sum, Steps(key, sum, v, n - 1), n - 1)
  }

  /** The words before `n`, last to first. */
  function Undos(key: Key, sum: int, v: seq<int>, n: nat): (w: seq<int>)
    requires n <= |v|
    ensures |w| == |v|
    decreases n
  {
    if n == 0 then v else Undos(key, sum, Undo(key, sum, v, n - 1), n - 1)
  }

  /** The blocks hold the same words. */
  ghost predicate SameWords(v: seq<int>, w: seq<int>) {
    |v| == |w| && forall i :: 0 <= i < |v| ==> Int32(v[i]) == Int32(w[i])
  }

  /** Undoing a step of a block of two words or more: neither neighbour is the word itself. */
  lemma UndoStep(key: Key, sum: int, v: seq<int>, p: nat)
    requires p < |v| && |v| >= 2
    ensures SameWords(Undo(key, sum, Step(key, sum, v, p), p), v)
  {
    var w := Step(key, sum, v, p);
    assert Next(w, p) == Next(v, p) && Prev(w, p) == Prev(v, p);
    hide Mx;
    assert Mixed(key, sum, w, p) == Mixed(key, sum, v, p);
    var mx := Mixed(key, sum, v, p);
    SumWords(w[p], mx, v[p] + mx, mx);
    Int32Idempotent(v[p]);
    Int32Idempotent(v[p] + mx);
  }

  lemma Int32Idempotent(n: int)
    ensures Int32(Int32(n)) == Int32(n)
  {
  }

  lemma UndoWords(key: Key, sum: int, v: seq<int>, w: seq<int>, p: nat)
    requires SameWords(v, w) && p < |v|
    ensures SameWords(Undo(key, sum, v, p), Undo(key, sum, w, p))
  {
    MxWords(key, sum, Selector(sum), Next(v, p), Prev(v, p), Next(w, p), Prev(w, p), p);
    hide Mx, Int32;
    SumWords(v[p], Mixed(key, sum, v, p), w[p], Mixed(key, sum, w, p));
  }

  lemma {:induction false} UndosWords(key: Key, sum: int, v: seq<int>, w: seq<int>, n: nat)
    requires SameWords(v, w) && n <= |v|
    ensures SameWords(Undos(key, sum, v, n), Undos(key, sum, w, n))
    decreases n
  {
    hide Int32, Mixed, Xor;
    if n > 0 {
      UndoWords(key, sum, v, w, n - 1);
      UndosWords(key, sum, Undo(key, sum, v, n - 1), Undo(key, sum, w, n - 1), n - 1);
    }
  }

  lemma SameTrans(u: seq<int>, v: seq<int>, w: seq<int>)
    requires SameWords(u, v) && SameWords(v, w)
    ensures SameWords(u, w)
  {
  }

  /** One round and back. */
  lemma {:induction false} UndoSteps(key: Key, sum: int, v: seq<int>, n: nat)
    requires n <= |v| && |v| >= 2
    ensures SameWords(Undos(key, sum, Steps(key, sum, v, n), n), v)
  {
    if n > 0 {
      var u := Steps(key, sum, v, n - 1);
      var back := Undo(key, sum, Steps(key, sum, v, n), n - 1);
      assert Steps(key, sum, v, n) == Step(key, sum, u, n - 1);
      assert Undos(key, sum, Steps(key, sum, v, n), n) == Undos(key, sum, back, n - 1);
      hide Undos, Steps, Step, Undo, SameWords;
      UndoStep(key, sum, u, n - 1);
      UndosWords(key, sum, back, u, n - 1);
      UndoSteps(key, sum, v, n - 1);
      SameTrans(Undos(key, sum, back, n - 1), Undos(key, sum, u, n - 1), v);
    }
  }

  /** The round constant after `k` rounds. */
  function SumAfter(k: nat): int {
    Int32(k * DELTA)
  }

  /** `k` rounds of encryption. */
  function EncryptRounds(key: Key, v: seq<int>, k: nat): (w: seq<int>)
    ensures |w| == |v|
  {
    if k == 0 then v else var u := EncryptRounds(key, v, k - 1); Steps(key, SumAfter(k), u, |u|)
  }

  /** Decryption from round `k` down. */
  function DecryptRounds(key: Key, v: seq<int>, k: nat): (w: seq<int>)
    ensures |w| == |v|
    decreases k
  {
    if k == 0 then v else DecryptRounds(key, Undos(key, SumAfter(k), v, |v|), k - 1)
  }

  lemma {:induction false} DecryptWords(key: Key, v: seq<int>, w: seq<int>, k: nat)
    requires SameWords(v, w)
    ensures SameWords(DecryptRounds(key, v, k), DecryptRounds(key, w, k))
    decreases k
  {
    if k > 0 {
      UndosWords(key, SumAfter(k), v, w, |v|);
      DecryptWords(key, Undos(key, SumAfter(k), v, |v|), Undos(key, SumAfter(k), w, |w|), k - 1);
    }
  }

  lemma {:induction false} RoundsCancel(key: Key, v: seq<int>, k: nat)
    requires |v| >= 2
    ensures SameWords(DecryptRounds(key, EncryptRounds(key, v, k), k), v)
    decreases k
  {
    hide Int32, SumAfter, Undos, Steps;
    if k > 0 {
      var u, w := EncryptRounds(key, v, k - 1), EncryptRounds(key, v, k);
      var back := Undos(key, SumAfter(k), w, |w|);
      assert w == Steps(key, SumAfter(k), u, |u|);
      assert DecryptRounds(key, w, k) == DecryptRounds(key, back, k - 1);
      hide Undos, Steps, DecryptRounds, EncryptRounds, SameWords;
      UndoSteps(key, SumAfter(k), u, |u|);
      DecryptWords(key, back, u, k - 1);
      RoundsCancel(key, v, k - 1);
      SameTrans(DecryptRounds(key, back, k - 1), DecryptRounds(key, u, k - 1), v);
    }
  }

  /** `floor(6 + 52 / count)` */
  function Rounds(count: nat): (q: nat)
    requires count > 0
    ensures 6 <= q <= 58
  {
    6 + 52 / count
  }

  function Encrypted(key: Key, v: seq<int>): (w: seq<int>)
    requires v != []
    ensures |w| == |v|
  {
    EncryptRounds(key, v, Rounds(|v|))
  }

  function Decrypted(key: Key, v: seq<int>): (w: seq<int>)
    requires v != []
    ensures |w| == |v|
  {
    DecryptRounds(key, v, Rounds(|v|))
  }

  /** Every word is in signed 32 bits. */
  ghost predicate Words(v: seq<int>) {
    forall i :: 0 <= i < |v| ==> Int32(v[i]) == v[i]
  }

  lemma {:induction false} UndosMakeWords(key: Key, sum: int, v: seq<int>, n: nat)
    requires n <= |v| && forall i :: n <= i < |v| ==> Int32(v[i]) == v[i]
    ensures Words(Undos(key, sum, v, n))
    decreases n
  {
    hide Int32, Mixed, Xor;
    if n > 0 {
      Int32Idempotent(v[n - 1] - Mixed(key, sum, v, n - 1));
      UndosMakeWords(key, sum, Undo(key, sum, v, n - 1), n - 1);
    }
  }

  lemma {:induction false} DecryptMakesWords(key: Key, v: seq<int>, k: nat)
    requires k > 0 || Words(v)
    ensures Words(DecryptRounds(key, v, k))
    decreases k
  {
    if k > 0 {
      UndosMakeWords(key, SumAfter(k), v, |v|);
      DecryptMakesWords(key, Undos(key, SumAfter(k), v, |v|), k - 1);
    }
  }

  /** Decryption undoes encryption: for every key and every block of at least two words it gives
      the words back, in signed 32 bits. */
  lemma DecryptUndoesEncrypt(key: Key, v: seq<int>)
    requires |v| >= 2
    ensures Decrypted(key, Encrypted(key, v)) == seq(|v|, i requires 0 <= i < |v| => Int32(v[i]))
  {
    RoundsCancel(key, v, Rounds(|v|));
    DecryptMakesWords(key, Encrypted(key, v), Rounds(|v|));
  }

  lemma StepWords(key: Key, sum: int, v: seq<int>, w: seq<int>, p: nat)
    requires SameWords(v, w) && p < |v|
    ensures SameWords(Step(key, sum, v, p), Step(key, sum, w, p))
  {
    MxWords(key, sum, Selector(sum), Next(v, p), Prev(v, p), Next(w, p), Prev(w, p), p);
    hide Mx, Int32;
    SumWords(v[p], Mixed(key, sum, v, p), w[p], Mixed(key, sum, w, p));
  }

  lemma RedoStep(key: Key, sum: int, v: seq<int>, p: nat)
    requires p < |v| && |v| >= 2
    ensures SameWords(Step(key, sum, Undo(key, sum, v, p), p), v)
  {
    var w := Undo(key, sum, v, p);
    assert Next(w, p) == Next(v, p) && Prev(w, p) == Prev(v, p);
    hide Mx;
    assert Mixed(key, sum, w, p) == Mixed(key, sum, v, p);
    var mx := Mixed(key, sum, v, p);
    SumWords(w[p], mx, v[p] - mx, mx);
    Int32Idempotent(v[p]);
    Int32Idempotent(v[p] - mx);
  }

  lemma {:induction false} RedoUndos(key: Key, sum: int, v: seq<int>, n: nat)
    requires n <= |v| && |v| >= 2
    ensures SameWords(Steps(key, sum, Undos(key, sum, v, n), n), v)
    decreases n
  {
    hide Int32, Mixed, Xor, Step, Undo;
    if n > 0 {
      var x := Undo(key, sum, v, n - 1);
      var u := Steps(key, sum, Undos(key, sum, x, n - 1), n - 1);
      assert Steps(key, sum, Undos(key, sum, v, n), n) == Step(key, sum, u, n - 1);
      hide Undos, Steps, Step, Undo, SameWords;
      RedoUndos(key, sum, x, n - 1);
      StepWords(key, sum, u, x, n - 1);
      RedoStep(key, sum, v, n - 1);
      SameTrans(Step(key, sum, u, n - 1), Step(key, sum, x, n - 1), v);
    }
  }

  lemma {:induction false} StepsWords(key: Key, sum: int, v: seq<int>, w: seq<int>, n: nat)
    requires SameWords(v, w) && n <= |v|
    ensures SameWords(Steps(key, sum, v, n), Steps(key, sum, w, n))
    decreases n
  {
    hide Int32, Mixed, Xor;
    if n > 0 {
      StepsWords(key, sum, v, w, n - 1);
      StepWords(key, sum, Steps(key, sum, v, n - 1), Steps(key, sum, w, n - 1), n - 1);
    }
  }

  lemma {:induction false} RoundsRedone(key: Key, v: seq<int>, k: nat)
    requires |v| >= 2
    ensures SameWords(EncryptRounds(key, DecryptRounds(key, v, k), k), v)
    decreases k
  {
    hide Int32, SumAfter, Undos, Steps;
    if k > 0 {
      var u := Undos(key, SumAfter(k), v, |v|);
      var w := EncryptRounds(key, DecryptRounds(key, u, k - 1), k - 1);
      assert EncryptRounds(key, DecryptRounds(key, v, k), k) == Steps(key, SumAfter(k), w, |v|);
      hide Undos, Steps, DecryptRounds, EncryptRounds, SameWords;
      RoundsRedone(key, u, k - 1);
      StepsSame(key, SumAfter(k), w, u);
      RedoUndos(key, SumAfter(k), v, |v|);
      SameTrans(Steps(key, SumAfter(k), w, |v|), Steps(key, SumAfter(k), u, |v|), v);
    }
  }

  lemma StepsSame(key: Key, sum: int, w: seq<int>, u: seq<int>)
    requires SameWords(w, u)
    ensures |w| == |u| && SameWords(Steps(key, sum, w, |w|), Steps(key, sum, u, |u|))
  {
    StepsWords(key, sum, w, u, |w|);
  }

  /** And encryption undoes decryption: every block of at least two words is the encryption of another. */
  lemma EncryptUndoesDecrypt(key: Key, v: seq<int>)
    requires |v| >= 2
    ensures SameWords(Encrypted(key, Decrypted(key, v)), v)
  {
    RoundsRedone(key, v, Rounds(|v|));
  }

  // ----- the loops

  /** DELTA times this is 1 modulo 2^32. */
  const INVERSE := 0x144cbc89

  /** DELTA is odd, so a multiple of it is zero only after 2^32 rounds. */
  lemma SumAfterZero(k: nat)
    requires k < M
    ensures SumAfter(k) == 0 <==> k == 0
  {
    if SumAfter(k) == 0 {
      var m := k * DELTA / M;
      assert k * DELTA == m * M;
      assert k + k * 0xc8bc280 * M == k * DELTA * INVERSE == m * INVERSE * M;
      assert k == (m * INVERSE - k * 0xc8bc280) * M;
    }
  }

  lemma SumAfterNext(k: nat)
    ensures Int32(SumAfter(k) + DELTA) == SumAfter(k + 1)
    ensures Int32(SumAfter(k + 1) - DELTA) == SumAfter(k)
  {
    Int32Idempotent(k * DELTA);
    Int32Idempotent((k + 1) * DELTA);
    SumWords(SumAfter(k), DELTA, k * DELTA, DELTA);
    SumWords(SumAfter(k + 1), DELTA, (k + 1) * DELTA, DELTA);
    assert (k + 1) * DELTA == k * DELTA + DELTA;
  }

  // ----- strings

  /** The string of a block. */
  function PackAll(v: seq<int>): (s: Bytes)
    ensures |s| == 4 * |v|
  {
    if v == [] then [] else PackAll(v[..|v| - 1]) + EncodeWord(v[|v| - 1])
  }

  /** unpack('V*', $s) */
  function UnpackAll(s: Bytes): (v: seq<int>)
    requires |s| % 4 == 0
    ensures |v| == |s| / 4
  {
    if s == [] then [] else UnpackAll(s[..|s| - 4]) + [DecodeWord(s[|s| - 4..])]
  }

  /** substr($s, 0, $n): a negative length leaves that many bytes off the end. */
  function Substr(s: Bytes, n: int): Bytes {
    if n >= 0 then s[..if n < |s| then n else |s|]
    else if |s| + n > 0 then s[..|s| + n] else []
  }

  function Padded(s: Bytes): (t: Bytes)
    ensures |t| % 4 == 0 && |t| == |s| + (4 - |s| % 4) % 4
  {
    s + seq((4 - |s| % 4) % 4, _ => 0)
  }

  /** _str2long */
  function Str2Long(s: Bytes, w: bool): (v: seq<int>)
    ensures |v| == |Padded(s)| / 4 + if w then 1 else 0
  {
    UnpackAll(Padded(s)) + if w then [|s|] else []
  }

  lemma {:induction false} PackedAt(v: seq<int>, i: nat)
    requires i < |v|
    ensures PackAll(v)[4 * i..4 * i + 4] == EncodeWord(v[i])
  {
    var m := |v| - 1;
    if i < m {
      PackedAt(v[..m], i);
      assert PackAll(v)[4 * i..4 * i + 4] == PackAll(v[..m])[4 * i..4 * i + 4];
    }
  }

  lemma {:induction false} UnpackedAt(s: Bytes, i: nat)
    requires |s| % 4 == 0 && 4 * i < |s|
    ensures 4 * i + 4 <= |s| && UnpackAll(s)[i] == DecodeWord(s[4 * i..4 * i + 4])
  {
    hide DecodeWord;
    var n := |s| / 4 - 1;
    var m := 4 * n;
    assert |s| == m + 4 && i <= n;
    assert UnpackAll(s) == UnpackAll(s[..m]) + [DecodeWord(s[m..])];
    if i < n {
      UnpackedAt(s[..m], i);
      assert s[..m][4 * i..4 * i + 4] == s[4 * i..4 * i + 4];
    } else {
      assert s[m..] == s[4 * i..4 * i + 4];
    }
  }

  /** Four bytes of the string from `i` on, zeros behind its end. */
  function Four(s: Bytes, i: nat): (b: Bytes)
    ensures |b| == 4
  {
    seq(4, j requires 0 <= j < 4 => if i + j < |s| then s[i + j] else 0)
  }

  lemma PaddedAt(s: Bytes, i: nat)
    requires 4 * i < |s|
    ensures 4 * i + 4 <= |Padded(s)| && Padded(s)[4 * i..4 * i + 4] == Four(s, 4 * i)
    ensures |Padded(s)| / 4 == (|s| + 3) / 4
  {
  }

  /** The words of a string: four bytes each, the first the least, with zeros behind the end; and behind them
      the length of the string. */
  lemma StringWords(s: Bytes, i: nat)
    requires 4 * i < |s|
    ensures var v := Str2Long(s, true);
      |v| == (|s| + 3) / 4 + 1 && v[|v| - 1] == |s| && v[i] == Value(Four(s, 4 * i))
  {
    PaddedAt(s, i);
    hide Padded, Four, UnpackAll, Value, DecodeWord;
    UnpackedAt(Padded(s), i);
    DecodeWordValue(Four(s, 4 * i));
  }

  function EncryptedString(key: Key, s: Bytes): Bytes {
    if s == [] then [] else PackAll(Encrypted(key, Str2Long(s, true)))
  }

  function DecryptedString(key: Key, s: Bytes): Bytes {
    if s == [] then []
    else
      var v := Decrypted(key, Str2Long(s, false));
      Substr(PackAll(v), v[|v| - 1])
  }

  lemma EncodeWordShift(x: int, k: int)
    ensures EncodeWord(x + k * M) == EncodeWord(x)
  {
    var y := x + k * M;
    PackDigit(x, k, 1);
    PackDigit(x, k, 0x100);
    PackDigit(x, k, 0x1_0000);
    PackDigit(x, k, 0x100_0000);
  }

  lemma PackDigit(x: int, k: int, d: int)
    requires d == 1 || d == 0x100 || d == 0x1_0000 || d == 0x100_0000
    ensures (x + k * M) / d % 0x100 == x / d % 0x100
  {
    var n := x / d;
    var e := M / d;
    assert d * e == M && e == 0x100 * (e / 0x100);
    assert k * M == d * (k * e) && k * e == 0x100 * (k * (e / 0x100));
    hide *;
    Quotient(x + k * M, d, n + k * e, x % d);
    Quotient(n + k * e, 0x100, n / 0x100 + k * (e / 0x100), n % 0x100);
  }

  lemma DecodeEncodeWord(x: int)
    ensures Int32(DecodeWord(EncodeWord(x))) == Int32(x)
  {
    var a := x / 0x100;
    var b := a / 0x100;
    var c := b / 0x100;
    assert x / 0x1_0000 == b && x / 0x100_0000 == c;
    assert x == x % 0x100 + 0x100 * (a % 0x100) + 0x1_0000 * (b % 0x100) + 0x100_0000 * (c % 0x100) + M * (c / 0x100);
    Int32Shift(DecodeWord(EncodeWord(x)), c / 0x100);
  }

  lemma {:induction false} PackUnpack(s: Bytes)
    requires |s| % 4 == 0
    ensures PackAll(UnpackAll(s)) == s
  {
    if s != [] {
      PackUnpack(s[..|s| - 4]);
      WordRoundTrip(s[|s| - 4..]);
      var v := UnpackAll(s);
      assert v[..|v| - 1] == UnpackAll(s[..|s| - 4]) && v[|v| - 1] == DecodeWord(s[|s| - 4..]);
      assert s == s[..|s| - 4] + s[|s| - 4..];
    }
  }

  lemma {:induction false} UnpackPack(v: seq<int>)
    ensures SameWords(UnpackAll(PackAll(v)), v)
  {
    if v != [] {
      UnpackPack(v[..|v| - 1]);
      DecodeEncodeWord(v[|v| - 1]);
      var s := PackAll(v);
      assert s[..|s| - 4] == PackAll(v[..|v| - 1]) && s[|s| - 4..] == EncodeWord(v[|v| - 1]);
    }
  }

  lemma {:induction false} PackSame(v: seq<int>, w: seq<int>)
    requires SameWords(v, w)
    ensures PackAll(v) == PackAll(w)
  {
    if v != [] {
      PackSame(v[..|v| - 1], w[..|w| - 1]);
      var k := WordsApart(v[|v| - 1], w[|w| - 1]);
      EncodeWordShift(v[|v| - 1], k);
    }
  }

  /** What comes back from encrypting and decrypting a string: the padded string with its length
      behind it, cut to that length as a signed 32-bit number. */
  lemma StringComesBack(key: Key, s: Bytes)
    requires s != []
    ensures DecryptedString(key, EncryptedString(key, s)) == Substr(Padded(s) + EncodeWord(|s|), Int32(|s|))
  {
    var v := Str2Long(s, true);
    var c := Encrypted(key, v);
    var t := PackAll(c);
    assert |v| >= 2 && t != [] && Padded(t) == t;
    UnpackPack(c);
    var u := Str2Long(t, false);
    assert u == UnpackAll(t) + [] == UnpackAll(t);
    hide Encrypted, Decrypted, SameWords, Int32;
    DecryptSame(key, u, c);
    DecryptUndoesEncrypt(key, v);
    var w := Decrypted(key, u);
    assert w[|w| - 1] == Int32(|s|);
    WordsSame(v, w);
    PackSame(w, v);
    PackUnpack(Padded(s));
    assert v[..|v| - 1] == UnpackAll(Padded(s));
    assert PackAll(v) == Padded(s) + EncodeWord(|s|);
  }

  lemma WordsSame(v: seq<int>, w: seq<int>)
    requires w == seq(|v|, i requires 0 <= i < |v| => Int32(v[i]))
    ensures SameWords(w, v)
  {
    forall i | 0 <= i < |v| ensures Int32(w[i]) == Int32(v[i]) {
      Int32Idempotent(v[i]);
    }
  }

  lemma DecryptSame(key: Key, u: seq<int>, c: seq<int>)
    requires SameWords(u, c) && c != []
    ensures Decrypted(key, u) == Decrypted(key, c)
  {
    DecryptWords(key, u, c, Rounds(|c|));
    DecryptMakesWords(key, u, Rounds(|c|));
    DecryptMakesWords(key, c, Rounds(|c|));
  }

  /** A string survives encryption and decryption exactly if it is shorter than 2^31 bytes, or its
      length is 4 to 7 below a multiple of 2^32 (where its length, read as a negative number, cuts
      off just the padding and the length word). */
  lemma StringSurvives(key: Key, s: Bytes)
    ensures DecryptedString(key, EncryptedString(key, s)) == s <==> |s| < 0x8000_0000 || M - 7 <= |s| % M <= M - 4
  {
    if s != [] {
      StringComesBack(key, s);
      CutsBack(s, Padded(s) + EncodeWord(|s|), Int32(|s|));
    }
  }

  lemma CutsBack(s: Bytes, t: Bytes, n: int)
    requires s != [] && n == Int32(|s|) && |t| == |Padded(s)| + 4 && t[..|s|] == s
    ensures Substr(t, n) == s <==> |s| < 0x8000_0000 || M - 7 <= |s| % M <= M - 4
  {
    if |s| < 0x8000_0000 {
      Int32Unique(|s|, |s|);
    } else if n >= 0 {
      assert n < |s| && n == |s| % M;
    } else {
      assert n == |s| % M - M;
    }
  }

  class Crypt {
    var key: Key

    constructor ()
      ensures key == [0, 0, 0, 0]
    {
      key := [0, 0, 0, 0];
    }

    /** setKey, for an array of integers: up to four, padded with zeros. */
    method SetKey(k: seq<int>) returns (ok: bool)
      modifies this
      ensures ok <==> 0 < |k| <= 4
      ensures key == if ok then k + seq(4 - |k|, _ => 0) else old(key)
    {
      if |k| > 4 || |k| == 0 {
        return false;
      }
      var padded := k;
      for i := |k| to 4
        invariant padded == k + seq(i - |k|, _ => 0)
      {
        padded := padded + [0];
      }
      key := padded;
      ok := true;
    }

    /** _encryptArray */
    method EncryptArray(block: seq<int>) returns (v: seq<int>)
      requires block != []
      ensures v == Encrypted(key, block)
    {
      hide Mx, Int32, Xor, Selector, SumAfter;
      v := block;
      var n := |v| - 1;
      var z, y := v[n], v[0];
      var q := 6 + 52 / (n + 1);
      var sum := 0;
      ghost var k := 0;
      SumAfterZero(0);
      while 0 < q
        invariant |v| == n + 1 && z == v[n] && 0 <= q && q + k == Rounds(|v|)
        invariant sum == SumAfter(k) && v == EncryptRounds(key, block, k)
      {
        q := q - 1;
        SumAfterNext(k);
        sum := ToInt32(sum + DELTA);
        k := k + 1;
        var e := Selector(sum);
        ghost var u := v;
        for p := 0 to n
          invariant |v| == n + 1 && v == Steps(key, sum, u, p) && z == Prev(v, p)
        {
          y := v[p + 1];
          var w := ToInt32(v[p] + Mx(key, sum, e, y, z, p));
          v := v[p := w];
          z := v[p];
        }
        y := v[0];
        var w := ToInt32(v[n] + Mx(key, sum, e, y, z, n));
        v := v[n := w];
        z := v[n];
      }
    }

    /** _decryptArray: the loop runs until the round constant is zero. */
    method DecryptArray(block: seq<int>) returns (v: seq<int>)
      requires block != []
      ensures v == Decrypted(key, block)
    {
      hide Mx, Int32, Xor, Selector, SumAfter;
      v := block;
      var n := |v| - 1;
      var z, y := v[n], v[0];
      var q := 6 + 52 / (n + 1);
      ghost var k: nat := Rounds(|block|);
      var sum := ToInt32(q * DELTA);
      SumAfterIs(k, sum);
      SumAfterZero(k);
      while sum != 0
        invariant |v| == n + 1 && y == v[0] && k <= 58 && sum == SumAfter(k) && (sum == 0 <==> k == 0)
        invariant DecryptRounds(key, v, k) == Decrypted(key, block)
        decreases k
      {
        v, y, z := DecryptRound(sum, v, y, z);
        k := k - 1;
        SumAfterNext(k);
        SumAfterZero(k);
        sum := ToInt32(sum - DELTA);
      }
    }

    /** _long2str */
    method Long2Str(v: seq<int>, w: bool) returns (s: Bytes)
      requires v != []
      ensures s == if w then Substr(PackAll(v), v[|v| - 1]) else PackAll(v)
    {
      var len := |v|;
      s := [];
      for i := 0 to len
        invariant s == PackAll(v[..i])
      {
        assert v[..i + 1][..i] == v[..i];
        s := s + EncodeWord(v[i]);
      }
      assert v[..len] == v;
      if w {
        s := Substr(s, v[len - 1]);
      }
    }

    /** _encryptString */
    method EncryptString(str: Bytes) returns (s: Bytes)
      ensures s == EncryptedString(key, str)
    {
      if str == [] {
        return [];
      }
      var v := Str2Long(str, true);
      v := EncryptArray(v);
      s := Long2Str(v, false);
    }

    /** _decryptString */
    method DecryptString(str: Bytes) returns (s: Bytes)
      ensures s == DecryptedString(key, str)
    {
      if str == [] {
        return [];
      }
      var v := Str2Long(str, false);
      v := DecryptArray(v);
      s := Long2Str(v, true);
    }

    /** One round of _decryptArray. */
    method DecryptRound(sum: int, u: seq<int>, y0: int, z0: int) returns (v: seq<int>, y: int, z: int)
      requires u != [] && y0 == u[0]
      ensures v == Undos(key, sum, u, |u|) && y == v[0]
    {
      hide Mx, Int32, Xor, Selector;
      v, y, z := u, y0, z0;
      var n := |v| - 1;
      var e := Selector(sum);
      var p := n;
      while p > 0
        invariant 0 <= p <= n && |v| == n + 1 && y == Next(v, p)
        invariant Undos(key, sum, v, p + 1) == Undos(key, sum, u, |u|)
      {
        z := v[p - 1];
        var w := ToInt32(v[p] - Mx(key, sum, e, y, z, p));
        v := v[p := w];
        y := v[p];
        p := p - 1;
      }
      z := v[n];
      var w := ToInt32(v[0] - Mx(key, sum, e, y, z, 0));
      v := v[0 := w];
      y := v[0];
    }
  }

  lemma SumAfterIs(k: nat, sum: int)
    requires sum == Int32(k * DELTA)
    ensures sum == SumAfter(k)
  {
  }
}
