/** buffer_caseless_compare of lighttpd: how the keys of its arrays compare, and over which
    alphabets that is an order. */
module Caseless {
  import opened Octets
  import opened Dictionary

  type Key = Bytes

  /** A byte as a signed char. */
  function Signed(b: Byte): int {
    if b < 128 then b else b - 256
  }

  predicate Upper(b: Byte) {
    65 <= b <= 90
  }

  predicate Lower(b: Byte) {
    97 <= b <= 122
  }

  /** How two bytes compare: case is ignored only between an upper and a lower case letter. */
  function ByteCmp(a: Byte, b: Byte): int {
    if Upper(a) && Lower(b) then a as int + 32 - b
    else if Lower(a) && Upper(b) then a as int - (b as int + 32)
    else Signed(a) - Signed(b)
  }

  function Compare(a: Key, b: Key): int {
    if a == [] || b == [] then |a| - |b|
    else if ByteCmp(a[0], b[0]) != 0 then ByteCmp(a[0], b[0])
    else Compare(a[1..], b[1..])
  }

  lemma {:induction false} CompareSkips(a: Key, b: Key, n: nat)
    requires n <= |a| && n <= |b| && forall i :: 0 <= i < n ==> ByteCmp(a[i], b[i]) == 0
    ensures Compare(a, b) == Compare(a[n..], b[n..])
  {
    if n > 0 {
      CompareSkips(a[1..], b[1..], n - 1);
      assert a[1..][n - 1..] == a[n..] && b[1..][n - 1..] == b[n..];
    }
  }

  lemma CompareAt(a: Key, b: Key, n: nat)
    requires n <= |a| && n <= |b| && forall i :: 0 <= i < n ==> ByteCmp(a[i], b[i]) == 0
    ensures n < |a| && n < |b| && ByteCmp(a[n], b[n]) != 0 ==> Compare(a, b) == ByteCmp(a[n], b[n])
    ensures n == |a| || n == |b| ==> Compare(a, b) == |a| - |b|
  {
    CompareSkips(a, b, n);
  }

  /** The size of the words that are compared first if both strings are aligned. */
  const WORD := 8

  method CaselessCompare(a: Key, b: Key, aligned: bool) returns (c: int)
    ensures c == Compare(a, b)
  {
    hide Compare;
    var ndx := 0;
    var shorter := if |a| < |b| then |a| else |b|;
    if aligned {
      var maxNdx := shorter / WORD * WORD;
      while ndx < maxNdx
        invariant 0 <= ndx <= maxNdx && ndx % WORD == 0 && a[..ndx] == b[..ndx]
      {
        if a[ndx..ndx + WORD] != b[ndx..ndx + WORD] {
          break;
        }
        assert a[..ndx + WORD] == a[..ndx] + a[ndx..ndx + WORD];
        assert b[..ndx + WORD] == b[..ndx] + b[ndx..ndx + WORD];
        ndx := ndx + WORD;
      }
      assert forall i :: 0 <= i < ndx ==> a[i] == a[..ndx][i] == b[..ndx][i] == b[i];
    }
    while ndx < shorter
      invariant ndx <= shorter && forall i :: 0 <= i < ndx ==> ByteCmp(a[i], b[i]) == 0
    {
      if a[ndx] != b[ndx] {
        var a1, b1 := Signed(a[ndx]), Signed(b[ndx]);
        if Upper(a[ndx]) && Lower(b[ndx]) {
          a1 := a1 + 32;
        } else if Lower(a[ndx]) && Upper(b[ndx]) {
          b1 := b1 + 32;
        }
        if a1 - b1 != 0 {
          CompareAt(a, b, ndx);
          return a1 - b1;
        }
      }
      ndx := ndx + 1;
    }
    CompareAt(a, b, shorter);
    if |a| == |b| {
      return 0;
    }
    c := |a| - |b|;
  }

  // ----- where the comparison is an order

  /** The byte is none of `[ \ ] ^ _` and backquote, which stand between the two cases. */
  predicate Plain(b: Byte) {
    !(91 <= b <= 96)
  }

  /** An upper and a lower case letter, the lower not after the upper, and a byte that stands
      between the two cases: it comes after the first letter and before the second. */
  predicate Clashing(u: Byte, x: Byte, l: Byte) {
    Upper(u) && !Plain(x) && Lower(l) && u + 32 >= l
  }

  ghost predicate Clash(bytes: set<Byte>) {
    exists u, x, l :: u in bytes && x in bytes && l in bytes && Clashing(u, x, l)
  }

  /** Digits and the terminator take no part in a clash. */
  lemma ClashOfLetters(bytes: set<Byte>, others: set<Byte>)
    requires forall b :: b in others ==> !Upper(b) && Plain(b) && !Lower(b)
    ensures Clash(bytes + others) <==> Clash(bytes)
  {
    if Clash(bytes) {
      var u, x, l :| u in bytes && x in bytes && l in bytes && Clashing(u, x, l);
      assert u in bytes + others && x in bytes + others && l in bytes + others;
    }
  }

  function Sign(n: int): int {
    if n < 0 then -1 else if n == 0 then 0 else 1
  }

  lemma {:induction false} CompareSym(a: Key, b: Key)
    ensures Sign(Compare(a, b)) == -Sign(Compare(b, a))
  {
    if a != [] && b != [] {
      CompareSym(a[1..], b[1..]);
    }
  }

  lemma {:induction false} CompareSelf(a: Key)
    ensures Compare(a, a) == 0
  {
    if a != [] {
      CompareSelf(a[1..]);
    }
  }

  /** The string in lower case. */
  function Folded(k: Key): (f: Key)
    ensures |f| == |k|
  {
    seq(|k|, i requires 0 <= i < |k| => if 65 <= k[i] <= 90 then k[i] + 32 else k[i])
  }

  lemma FoldedTail(k: Key)
    requires k != []
    ensures Folded(k)[1..] == Folded(k[1..]) && Folded(k)[0] == if 65 <= k[0] <= 90 then k[0] + 32 else k[0]
  {
  }

  /** Strings compare as equal exactly if they differ in the case of letters only. */
  lemma {:induction false} EqualIgnoringCase(a: Key, b: Key)
    ensures Compare(a, b) == 0 <==> Folded(a) == Folded(b)
    decreases |a|
  {
    if a != [] && b != [] {
      FoldedTail(a);
      FoldedTail(b);
      EqualIgnoringCase(a[1..], b[1..]);
      var f, g := Folded(a), Folded(b);
      assert f == [f[0]] + f[1..] && g == [g[0]] + g[1..];
    }
  }

  /** Strings of ASCII bytes other than those between the cases are in dictionary order of their lower
      case forms. */
  lemma {:induction false} PlainInOrder(a: Key, b: Key)
    requires forall i :: 0 <= i < |a| ==> a[i] < 128 && Plain(a[i])
    requires forall i :: 0 <= i < |b| ==> b[i] < 128 && Plain(b[i])
    ensures Compare(a, b) < 0 <==> FirstSmaller(Folded(a), Folded(b))
    decreases |a|
  {
    var f, g := Folded(a), Folded(b);
    if a == [] || b == [] {
      assert f[..0] == g[..0];
      assert a == [] && b != [] ==> SmallerAt(f, g, 0);
    } else {
      FoldedTail(a);
      FoldedTail(b);
      PlainInOrder(a[1..], b[1..]);
      SmallerTail(f, g);
    }
  }

  /** A byte as an unsigned number that is in the order of signed characters. */
  function FromMinus128(b: Byte): nat {
    (b as int + 128) % 256
  }

  lemma ByteOrder(a: Byte, b: Byte)
    ensures var x, y := a as char, b as char;
      if ('a' <= x <= 'z' && 'A' <= y <= 'Z') || ('A' <= x <= 'Z' && 'a' <= y <= 'z')
      then ByteCmp(a, b) < 0 <==> Folded([a])[0] < Folded([b])[0]
      else ByteCmp(a, b) < 0 <==> FromMinus128(a) < FromMinus128(b)
    ensures ByteCmp(a, b) == 0 <==> Folded([a]) == Folded([b])
  {
    EqualIgnoringCase([a], [b]);
    assert [a][1..] == [] && [b][1..] == [];
  }

  /** Where two strings first differ by more than case, they compare as the letters do in lower case, if these
      are two letters of different case, and else as the bytes do as signed characters. */
  lemma FirstDifference(a: Key, b: Key, n: nat)
    requires n < |a| && n < |b| && Folded(a)[..n] == Folded(b)[..n] && Folded(a)[n] != Folded(b)[n]
    ensures var x, y := a[n] as char, b[n] as char;
      if ('a' <= x <= 'z' && 'A' <= y <= 'Z') || ('A' <= x <= 'Z' && 'a' <= y <= 'z')
      then Compare(a, b) < 0 <==> Folded(a)[n] < Folded(b)[n]
      else Compare(a, b) < 0 <==> FromMinus128(a[n]) < FromMinus128(b[n])
  {
    forall i | 0 <= i < n ensures ByteCmp(a[i], b[i]) == 0 {
      FoldedAt(a, b, i);
      assert Folded(a)[..n][i] == Folded(b)[..n][i];
      ByteOrder(a[i], b[i]);
    }
    FoldedAt(a, b, n);
    ByteOrder(a[n], b[n]);
    hide *;
    CompareAt(a, b, n);
  }

  lemma FoldedAt(a: Key, b: Key, i: nat)
    requires i < |a| && i < |b|
    ensures Folded(a)[i] == Folded([a[i]])[0] && Folded(b)[i] == Folded([b[i]])[0]
    ensures Folded([a[i]]) == Folded([b[i]]) <==> Folded(a)[i] == Folded(b)[i]
  {
    assert Folded([a[i]]) == [Folded(a)[i]] && Folded([b[i]]) == [Folded(b)[i]];
  }

  /** The keys that can be written with some bytes. */
  ghost predicate Over(bytes: set<Byte>, k: Key) {
    forall i :: 0 <= i < |k| ==> k[i] in bytes
  }

  lemma ByteTrans(bytes: set<Byte>, a: Byte, b: Byte, c: Byte)
    requires !Clash(bytes) && a in bytes && b in bytes && c in bytes
    requires ByteCmp(a, b) <= 0 && ByteCmp(b, c) <= 0
    ensures ByteCmp(a, c) <= 0 && (ByteCmp(a, c) == 0 <==> ByteCmp(a, b) == 0 && ByteCmp(b, c) == 0)
  {
    assert !Clashing(a, b, c) && !Clashing(c, a, b) && !Clashing(b, c, a);
  }

  lemma {:induction false} CompareTrans(bytes: set<Byte>, a: Key, b: Key, c: Key)
    requires !Clash(bytes) && Over(bytes, a) && Over(bytes, b) && Over(bytes, c)
    requires Compare(a, b) <= 0 && Compare(b, c) <= 0
    ensures Compare(a, c) <= 0 && (Compare(a, c) == 0 ==> Compare(a, b) == 0 && Compare(b, c) == 0)
    decreases |a|
  {
    if a != [] && b != [] && c != [] {
      hide Clash, ByteCmp;
      ByteTrans(bytes, a[0], b[0], c[0]);
      if ByteCmp(a[0], b[0]) == 0 && ByteCmp(b[0], c[0]) == 0 {
        CompareTrans(bytes, a[1..], b[1..], c[1..]);
      }
    }
  }

  ghost predicate TransitiveAt(a: Key, b: Key, c: Key) {
    Compare(a, b) <= 0 && Compare(b, c) <= 0 ==>
      Compare(a, c) <= 0 && (Compare(a, c) == 0 ==> Compare(a, b) == 0 && Compare(b, c) == 0)
  }

  ghost predicate Transitive(bytes: set<Byte>) {
    forall a: Key, b: Key, c: Key | Over(bytes, a) && Over(bytes, b) && Over(bytes, c) :: TransitiveAt(a, b, c)
  }

  /** Keys over an alphabet are in order exactly if no byte of it stands between two of its
      letters that compare the other way round. */
  lemma TransitiveExactly(bytes: set<Byte>)
    ensures Transitive(bytes) <==> !Clash(bytes)
  {
    if !Clash(bytes) {
      forall a: Key, b: Key, c: Key | Over(bytes, a) && Over(bytes, b) && Over(bytes, c) ensures TransitiveAt(a, b, c) {
        if Compare(a, b) <= 0 && Compare(b, c) <= 0 {
          CompareTrans(bytes, a, b, c);
        }
      }
    } else {
      var u, x, l :| u in bytes && x in bytes && l in bytes && Clashing(u, x, l);
      var upper: Key, between: Key, lower: Key := [u], [x], [l];
      assert Over(bytes, upper) && Over(bytes, between) && Over(bytes, lower);
      assert Compare(upper, between) < 0 && Compare(between, lower) < 0;
      assert Compare(upper[1..], lower[1..]) == 0;
      assert !TransitiveAt(upper, between, lower);
    }
  }

  /** Upper case letters, digits and underscores are in order: the names of CGI variables. */
  lemma CgiNamesInOrder(bytes: set<Byte>)
    requires forall b :: b in bytes ==> !Lower(b)
    ensures Transitive(bytes)
  {
    TransitiveExactly(bytes);
  }
}
