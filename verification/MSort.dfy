/** lemon's msort: a bottom-up merge sort of a list through thirty bins, bin i holding a sorted
    run of 2^i elements.  Lists are sequences; a merge takes from its first argument only when
    that element is strictly smaller, so ties go to the second argument. */
module MSort {
  import opened Arithmetic

  const LISTSIZE: nat := 30
  const LAST_BIN: nat := 0x2000_0000  // 2^29, the size of the runs in the last bin

  /** What a comparison function must be: antisymmetric in sign, and transitive. */
  ghost predicate Comparison<T(!new)>(cmp: (T, T) -> int) {
    && (forall a, b :: cmp(a, b) < 0 <==> cmp(b, a) > 0)
    && (forall a, b, c :: cmp(a, b) <= 0 && cmp(b, c) <= 0 ==> cmp(a, c) <= 0)
  }

  ghost predicate Sorted<T>(s: seq<T>, cmp: (T, T) -> int) {
    forall i, j :: 0 <= i < j < |s| ==> cmp(s[i], s[j]) <= 0
  }

  /** The elements of `s` that tie with `k`, in order. */
  function Class<T>(s: seq<T>, k: T, cmp: (T, T) -> int): seq<T> {
    if s == [] then [] else (if cmp(s[0], k) == 0 then [s[0]] else []) + Class(s[1..], k, cmp)
  }

  /** Same elements, and elements that tie appear in the same order. */
  ghost predicate SameClasses<T(!new)>(s: seq<T>, t: seq<T>, cmp: (T, T) -> int) {
    forall k :: Class(s, k, cmp) == Class(t, k, cmp)
  }

  /** How many of `n` elements survive: all of them until the last bin is overwritten. */
  function Kept(n: nat): nat {
    if n < LAST_BIN then n else LAST_BIN + n % LAST_BIN
  }

  // ----- classes

  lemma ClassHead<T>(s: seq<T>, k: T, cmp: (T, T) -> int)
    ensures s == [] ==> Class(s, k, cmp) == []
    ensures s != [] ==> Class(s, k, cmp) == (if cmp(s[0], k) == 0 then [s[0]] else []) + Class(s[1..], k, cmp)
  {
  }

  lemma {:induction false} ClassConcat<T>(s: seq<T>, t: seq<T>, k: T, cmp: (T, T) -> int)
    ensures Class(s + t, k, cmp) == Class(s, k, cmp) + Class(t, k, cmp)
  {
    hide Class;
    ClassHead(s, k, cmp);
    if s == [] {
      assert s + t == t;
    } else {
      ClassConcat(s[1..], t, k, cmp);
      ClassHead(s + t, k, cmp);
      assert (s + t)[0] == s[0] && (s + t)[1..] == s[1..] + t;
    }
  }

  lemma {:induction false} ClassEmpty<T>(s: seq<T>, k: T, cmp: (T, T) -> int)
    requires forall x :: x in s ==> cmp(x, k) != 0
    ensures Class(s, k, cmp) == []
  {
    if s != [] {
      ClassEmpty(s[1..], k, cmp);
    }
  }

  lemma {:induction false} ClassCounts<T>(s: seq<T>, x: T, cmp: (T, T) -> int)
    requires cmp(x, x) == 0
    ensures multiset(Class(s, x, cmp))[x] == multiset(s)[x]
  {
    if s != [] {
      assert s == [s[0]] + s[1..];
      ClassCounts(s[1..], x, cmp);
    }
  }

  /** Equal classes make a permutation. */
  lemma SameClassesPermutes<T(!new)>(s: seq<T>, t: seq<T>, cmp: (T, T) -> int)
    requires Comparison(cmp) && SameClasses(s, t, cmp)
    ensures multiset(s) == multiset(t) && |s| == |t|
  {
    forall x ensures multiset(s)[x] == multiset(t)[x] {
      ClassCounts(s, x, cmp);
      ClassCounts(t, x, cmp);
    }
    assert multiset(s) == multiset(t);
    assert |multiset(s)| == |s| && |multiset(t)| == |t|;
  }

  /** Order and classes determine a list: the stable sort of a list is unique. */
  lemma {:induction false} StableSortUnique<T(!new)>(s: seq<T>, t: seq<T>, cmp: (T, T) -> int)
    requires Comparison(cmp) && Sorted(s, cmp) && Sorted(t, cmp) && SameClasses(s, t, cmp)
    ensures s == t
  {
    SameClassesPermutes(s, t, cmp);
    if s != [] {
      var x, y := s[0], t[0];
      assert x in multiset(s) && y in multiset(t);
      assert x in t && y in s;
      assert cmp(x, y) == 0;
      assert Class(s, x, cmp)[0] == x && Class(t, x, cmp)[0] == y;
      forall k ensures Class(s[1..], k, cmp) == Class(t[1..], k, cmp) {
        var c := if cmp(x, k) == 0 then [x] else [];
        assert Class(s, k, cmp) == c + Class(s[1..], k, cmp) && Class(t, k, cmp) == c + Class(t[1..], k, cmp);
        assert Class(s, k, cmp)[|c|..] == Class(s[1..], k, cmp) && Class(t, k, cmp)[|c|..] == Class(t[1..], k, cmp);
      }
      StableSortUnique(s[1..], t[1..], cmp);
    }
  }

  // ----- merge

  function Merged<T>(a: seq<T>, b: seq<T>, cmp: (T, T) -> int): seq<T> {
    if a == [] then b
    else if b == [] then a
    else if cmp(a[0], b[0]) < 0 then [a[0]] + Merged(a[1..], b, cmp)
    else [b[0]] + Merged(a, b[1..], cmp)
  }

  lemma {:induction false} MergedMembers<T>(a: seq<T>, b: seq<T>, cmp: (T, T) -> int, x: T)
    ensures x in Merged(a, b, cmp) <==> x in a || x in b
    decreases |a| + |b|
  {
    if a != [] && b != [] {
      if cmp(a[0], b[0]) < 0 {
        MergedMembers(a[1..], b, cmp, x);
      } else {
        MergedMembers(a, b[1..], cmp, x);
      }
    }
  }

  /** `h` is at most every element of `s`. */
  ghost predicate AtMostAll<T>(h: T, s: seq<T>, cmp: (T, T) -> int) {
    forall x :: x in s ==> cmp(h, x) <= 0
  }

  lemma HeadAtMost<T(!new)>(a: seq<T>, cmp: (T, T) -> int)
    requires Comparison(cmp) && Sorted(a, cmp) && a != []
    ensures AtMostAll(a[0], a, cmp) && Sorted(a[1..], cmp)
  {
  }

  lemma SortedCons<T>(h: T, s: seq<T>, cmp: (T, T) -> int)
    requires AtMostAll(h, s, cmp) && Sorted(s, cmp)
    ensures Sorted([h] + s, cmp)
  {
  }

  lemma MergedAtMost<T(!new)>(h: T, x: T, a: seq<T>, b: seq<T>, cmp: (T, T) -> int)
    requires Comparison(cmp) && cmp(h, x) <= 0 && AtMostAll(h, a, cmp) && AtMostAll(x, b, cmp)
    ensures AtMostAll(h, Merged(a, b, cmp), cmp) && AtMostAll(h, Merged(b, a, cmp), cmp)
  {
    forall y | y in Merged(a, b, cmp) || y in Merged(b, a, cmp) ensures cmp(h, y) <= 0 {
      MergedMembers(a, b, cmp, y);
      MergedMembers(b, a, cmp, y);
      assert y in b ==> cmp(x, y) <= 0;
    }
  }

  lemma {:induction false} MergedSorted<T(!new)>(a: seq<T>, b: seq<T>, cmp: (T, T) -> int)
    requires Comparison(cmp) && Sorted(a, cmp) && Sorted(b, cmp)
    ensures Sorted(Merged(a, b, cmp), cmp)
    decreases |a| + |b|
  {
    if a != [] && b != [] {
      HeadAtMost(a, cmp);
      HeadAtMost(b, cmp);
      assert AtMostAll(a[0], a[1..], cmp) && AtMostAll(b[0], b[1..], cmp);
      assert cmp(a[0], b[0]) <= 0 || cmp(b[0], a[0]) <= 0;
      hide Sorted, AtMostAll;
      if cmp(a[0], b[0]) < 0 {
        MergedSorted(a[1..], b, cmp);
        MergedAtMost(a[0], b[0], a[1..], b, cmp);
        SortedCons(a[0], Merged(a[1..], b, cmp), cmp);
      } else {
        MergedSorted(a, b[1..], cmp);
        MergedAtMost(b[0], a[0], b[1..], a, cmp);
        SortedCons(b[0], Merged(a, b[1..], cmp), cmp);
      }
    }
  }

  /** Among tied elements, those of `b` come first and neither list is reordered. */
  lemma {:induction false} MergedClass<T(!new)>(a: seq<T>, b: seq<T>, k: T, cmp: (T, T) -> int)
    requires Comparison(cmp) && Sorted(a, cmp) && Sorted(b, cmp)
    ensures Class(Merged(a, b, cmp), k, cmp) == Class(b, k, cmp) + Class(a, k, cmp)
    decreases |a| + |b|
  {
    if a != [] && b != [] {
      if cmp(a[0], b[0]) < 0 {
        MergedClass(a[1..], b, k, cmp);
        if cmp(a[0], k) == 0 {
          forall x | x in b ensures cmp(x, k) != 0 {
            assert x == b[0] || cmp(b[0], x) <= 0;
          }
          ClassEmpty(b, k, cmp);
        }
      } else {
        MergedClass(a, b[1..], k, cmp);
      }
    }
  }

  lemma {:induction false} MergedLength<T>(a: seq<T>, b: seq<T>, cmp: (T, T) -> int)
    ensures |Merged(a, b, cmp)| == |a| + |b|
    decreases |a| + |b|
  {
    if a != [] && b != [] {
      if cmp(a[0], b[0]) < 0 {
        MergedLength(a[1..], b, cmp);
      } else {
        MergedLength(a, b[1..], cmp);
      }
    }
  }

  method Merge<T>(a0: seq<T>, b0: seq<T>, cmp: (T, T) -> int) returns (head: seq<T>)
    ensures head == Merged(a0, b0, cmp)
  {
    var a, b := a0, b0;
    head := [];
    while a != [] && b != []
      invariant head + Merged(a, b, cmp) == Merged(a0, b0, cmp)
      decreases |a| + |b|
    {
      if cmp(a[0], b[0]) < 0 {
        assert head + Merged(a, b, cmp) == (head + [a[0]]) + Merged(a[1..], b, cmp);
        head, a := head + [a[0]], a[1..];
      } else {
        assert head + Merged(a, b, cmp) == (head + [b[0]]) + Merged(a, b[1..], cmp);
        head, b := head + [b[0]], b[1..];
      }
    }
    head := head + if a != [] then a else b;
  }

  // ----- the bins

  /** Bins `n-1` down to 0, one after the other: later input sits in lower bins. */
  ghost function Stack<T>(bins: seq<seq<T>>, n: nat): seq<T>
    requires n <= |bins|
  {
    if n == 0 then [] else bins[n - 1] + Stack(bins, n - 1)
  }

  ghost predicate BinsOk<T>(bins: seq<seq<T>>, cmp: (T, T) -> int) {
    && |bins| == LISTSIZE
    && (forall i :: 0 <= i < LISTSIZE ==> Sorted(bins[i], cmp) && (bins[i] == [] || |bins[i]| == Pow2(i)))
  }

  lemma {:induction false} StackEmpty<T>(bins: seq<seq<T>>, n: nat)
    requires n <= |bins| && forall i :: 0 <= i < n ==> bins[i] == []
    ensures Stack(bins, n) == []
  {
    if n > 0 {
      StackEmpty(bins, n - 1);
    }
  }

  /** Bins that are all full hold one element less than the next bin would. */
  lemma {:induction false} StackFull<T>(bins: seq<seq<T>>, n: nat)
    requires n <= |bins| && forall i :: 0 <= i < n ==> |bins[i]| == Pow2(i)
    ensures |Stack(bins, n)| == Pow2(n) - 1
  {
    if n > 0 {
      StackFull(bins, n - 1);
    }
  }

  ghost predicate BinsFit<T>(bins: seq<seq<T>>, n: nat)
    requires n <= |bins|
  {
    forall i :: 0 <= i < n ==> |bins[i]| <= Pow2(i)
  }

  lemma {:induction false} StackBound<T>(bins: seq<seq<T>>, n: nat)
    requires n <= |bins| && BinsFit(bins, n)
    ensures |Stack(bins, n)| < Pow2(n)
  {
    if n > 0 {
      StackBound(bins, n - 1);
    }
  }

  /** Carrying a run into the first empty bin `i` moves what the bins below it held. */
  lemma {:induction false} StackCarry<T>(bins: seq<seq<T>>, bins': seq<seq<T>>, i: nat, n: nat, k: T, run: seq<T>, x: T,
                                         cmp: (T, T) -> int)
    requires i < n <= |bins| == |bins'| && bins[i] == [] && bins'[i] == run
    requires forall j :: 0 <= j < i ==> bins'[j] == []
    requires forall j :: i < j < n ==> bins'[j] == bins[j]
    requires Class(run, k, cmp) == Class(Stack(bins, i) + [x], k, cmp) && |run| == |Stack(bins, i)| + 1
    ensures Class(Stack(bins', n), k, cmp) == Class(Stack(bins, n) + [x], k, cmp)
    ensures |Stack(bins', n)| == |Stack(bins, n)| + 1
  {
    if n == i + 1 {
      StackEmpty(bins', i);
      assert Stack(bins', n) == run && Stack(bins, n) == Stack(bins, i);
    } else {
      StackCarry(bins, bins', i, n - 1, k, run, x, cmp);
      var top := bins[n - 1];
      ClassConcat(top, Stack(bins', n - 1), k, cmp);
      ClassConcat(top, Stack(bins, n - 1) + [x], k, cmp);
      assert top + (Stack(bins, n - 1) + [x]) == Stack(bins, n) + [x];
    }
  }

  lemma Pow2OfLastBin(top: nat)
    requires top == LISTSIZE - 1
    ensures Pow2(top) == LAST_BIN
  {
    assert Pow2(10) == 1024;
    assert Pow2(20) == 0x10_0000;
    assert Pow2(29) == LAST_BIN;
  }

  /** What the bins hold after `n` elements of `list`: the low bins hold the last n mod 2^29 of
      them, and the last bin the 2^29 before those, once there are that many. */
  ghost predicate Holds<T(!new)>(bins: seq<seq<T>>, list: seq<T>, n: nat, cmp: (T, T) -> int)
    requires |bins| == LISTSIZE && n <= |list|
  {
    var low := n % LAST_BIN;
    var top := |bins| - 1;
    && |Stack(bins, top)| == low <= n
    && SameClasses(Stack(bins, top), list[n - low..n], cmp)
    && (n < LAST_BIN ==> bins[top] == [])
    && (n >= LAST_BIN ==> Kept(n) <= n && SameClasses(bins[top], list[n - Kept(n)..n - low], cmp))
  }

  lemma KeptAtMost(n: nat)
    ensures Kept(n) <= n
    ensures Kept(n) == n <==> n < 2 * LAST_BIN
  {
  }

  /** The run `ep` sorts bins below `i` of `was` followed by `x`. */
  ghost predicate Carries<T(!new)>(ep: seq<T>, was: seq<seq<T>>, i: nat, x: T, cmp: (T, T) -> int)
    requires i <= |was|
  {
    && Sorted(ep, cmp)
    && |ep| == |Stack(was, i)| + 1
    && SameClasses(ep, Stack(was, i) + [x], cmp)
  }

  lemma CarryStart<T(!new)>(was: seq<seq<T>>, x: T, cmp: (T, T) -> int)
    ensures Carries([x], was, 0, x, cmp)
  {
    assert Stack(was, 0) + [x] == [x];
  }

  lemma CarryOnClasses<T(!new)>(ep: seq<T>, was: seq<seq<T>>, i: nat, x: T, cmp: (T, T) -> int, k: T)
    requires Comparison(cmp) && i < |was| && Carries(ep, was, i, x, cmp) && Sorted(was[i], cmp)
    ensures Class(Merged(ep, was[i], cmp), k, cmp) == Class(Stack(was, i + 1) + [x], k, cmp)
  {
    MergedClass(ep, was[i], k, cmp);
    var below := Stack(was, i) + [x];
    ClassConcat(was[i], below, k, cmp);
    assert was[i] + below == Stack(was, i + 1) + [x];
  }

  lemma CarryOn<T(!new)>(ep: seq<T>, was: seq<seq<T>>, i: nat, x: T, cmp: (T, T) -> int)
    requires Comparison(cmp) && i < |was| && Carries(ep, was, i, x, cmp) && Sorted(was[i], cmp)
    ensures Carries(Merged(ep, was[i], cmp), was, i + 1, x, cmp)
  {
    MergedSorted(ep, was[i], cmp);
    MergedLength(ep, was[i], cmp);
    var run := Merged(ep, was[i], cmp);
    forall k ensures Class(run, k, cmp) == Class(Stack(was, i + 1) + [x], k, cmp) {
      CarryOnClasses(ep, was, i, x, cmp, k);
    }
  }

  /** `now` is `was` with the run carried into bin `i`. */
  ghost predicate Stored<T(!new)>(was: seq<seq<T>>, now: seq<seq<T>>, i: nat, x: T, cmp: (T, T) -> int)
  {
    && i < |was| == |now|
    && (forall j :: 0 <= j < i ==> now[j] == [] && |was[j]| == Pow2(j))
    && (forall j :: i < j < |was| ==> now[j] == was[j])
    && Carries(now[i], was, i, x, cmp)
    && |now[i]| == Pow2(i)
  }

  /** What one element does to the bins: `run` is merged with the full low bins from `i` on and
      stored in the bin after them. */
  function Carried<T>(bins: seq<seq<T>>, i: nat, run: seq<T>, cmp: (T, T) -> int): (r: seq<seq<T>>)
    requires i < |bins|
    ensures |r| == |bins|
    decreases |bins| - i
  {
    if i == |bins| - 1 || bins[i] == [] then bins[i := run]
    else Carried(bins[i := []], i + 1, Merged(run, bins[i], cmp), cmp)
  }

  lemma StoredHere<T(!new)>(was: seq<seq<T>>, bins: seq<seq<T>>, i: nat, run: seq<T>, x: T, cmp: (T, T) -> int)
    requires |bins| == |was| && i < |was|
    requires forall j :: 0 <= j < i ==> bins[j] == [] && |was[j]| == Pow2(j)
    requires forall j :: i <= j < |was| ==> bins[j] == was[j]
    requires Carries(run, was, i, x, cmp)
    ensures Stored(was, bins[i := run], i, x, cmp)
  {
    StackFull(was, i);
  }

  lemma {:induction false} CarriedStores<T(!new)>(was: seq<seq<T>>, bins: seq<seq<T>>, i: nat, run: seq<T>, x: T,
                                                  cmp: (T, T) -> int) returns (at: nat)
    requires Comparison(cmp) && BinsOk(was, cmp) && |bins| == |was| && i < |was|
    requires forall j :: 0 <= j < i ==> bins[j] == [] && |was[j]| == Pow2(j)
    requires forall j :: i <= j < |was| ==> bins[j] == was[j]
    requires Carries(run, was, i, x, cmp)
    ensures Stored(was, Carried(bins, i, run, cmp), at, x, cmp)
    ensures at == |was| - 1 || was[at] == []
    decreases |bins| - i
  {
    if i == |bins| - 1 || bins[i] == [] {
      StoredHere(was, bins, i, run, x, cmp);
      at := i;
    } else {
      CarryOn(run, was, i, x, cmp);
      at := CarriedStores(was, bins[i := []], i + 1, Merged(run, bins[i], cmp), x, cmp);
    }
  }

  lemma StoreRun<T(!new)>(was: seq<seq<T>>, now: seq<seq<T>>, i: nat, x: T, cmp: (T, T) -> int)
    requires Stored(was, now, i, x, cmp) && BinsOk(was, cmp)
    ensures BinsOk(now, cmp)
  {
    forall j | 0 <= j < LISTSIZE ensures Sorted(now[j], cmp) && (now[j] == [] || |now[j]| == Pow2(j)) {
      if j > i {
        assert now[j] == was[j];
      }
    }
  }

  lemma LowPart<T(!new)>(s: seq<T>, list: seq<T>, n: nat, low: nat, x: T, cmp: (T, T) -> int)
    requires low <= n < |list| && list[n] == x && SameClasses(s, list[n - low..n], cmp)
    ensures SameClasses(s + [x], list[n - low..n + 1], cmp)
  {
    var part := list[n - low..n];
    assert part + [x] == list[n - low..n + 1];
    forall k ensures Class(s + [x], k, cmp) == Class(part + [x], k, cmp) {
      ClassConcat(s, [x], k, cmp);
      ClassConcat(part, [x], k, cmp);
    }
  }

  lemma StoreLow<T(!new)>(was: seq<seq<T>>, now: seq<seq<T>>, i: nat, x: T, cmp: (T, T) -> int, list: seq<T>, n: nat)
    requires |was| == LISTSIZE && i < LISTSIZE - 1 && Stored(was, now, i, x, cmp) && BinsOk(now, cmp) && was[i] == []
    requires n < |list| && list[n] == x && Holds(was, list, n, cmp)
    ensures Holds(now, list, n + 1, cmp)
  {
    var top := |was| - 1;
    var low := n % LAST_BIN;
    LowPart(Stack(was, top), list, n, low, x, cmp);
    forall k ensures Class(Stack(now, top), k, cmp) == Class(list[n - low..n + 1], k, cmp) {
      StackCarry(was, now, i, top, k, now[i], x, cmp);
    }
    StackCarry(was, now, i, top, x, now[i], x, cmp);
    forall j | 0 <= j < top ensures |now[j]| <= Pow2(j) {
      assert now[j] == [] || |now[j]| == Pow2(j);
    }
    StackBound(now, top);
    Pow2OfLastBin(top);
    assert (n + 1) % LAST_BIN == low + 1;
  }

  lemma StoreLast<T(!new)>(was: seq<seq<T>>, now: seq<seq<T>>, x: T, cmp: (T, T) -> int, list: seq<T>, n: nat)
    requires |was| == LISTSIZE && Stored(was, now, |was| - 1, x, cmp)
    requires n < |list| && list[n] == x && Holds(was, list, n, cmp)
    ensures Holds(now, list, n + 1, cmp)
  {
    var top := |was| - 1;
    StackFull(was, top);
    StackEmpty(now, top);
    Pow2OfLastBin(top);
    assert (n + 1) % LAST_BIN == 0;
    LowPart(Stack(was, top), list, n, LAST_BIN - 1, x, cmp);
    assert list[n + 1..n + 1] == [];
  }

  lemma Store<T(!new)>(was: seq<seq<T>>, now: seq<seq<T>>, i: nat, x: T, cmp: (T, T) -> int, list: seq<T>, n: nat)
    requires |was| == LISTSIZE && Stored(was, now, i, x, cmp) && BinsOk(was, cmp)
    requires i == LISTSIZE - 1 || was[i] == []
    requires n < |list| && list[n] == x && Holds(was, list, n, cmp)
    ensures BinsOk(now, cmp) && Holds(now, list, n + 1, cmp)
  {
    StoreRun(was, now, i, x, cmp);
    if i < LISTSIZE - 1 {
      StoreLow(was, now, i, x, cmp, list, n);
    } else {
      StoreLast(was, now, x, cmp, list, n);
    }
  }

  /** The bins after the first `n` elements of `list`. */
  function BinsAfter<T>(list: seq<T>, n: nat, cmp: (T, T) -> int): (bins: seq<seq<T>>)
    requires n <= |list|
    ensures |bins| == LISTSIZE
  {
    if n == 0 then seq(LISTSIZE, _ => []) else Carried(BinsAfter(list, n - 1, cmp), 0, [list[n - 1]], cmp)
  }

  /** Bins `n-1` down to 0 merged into one list. */
  function Drained<T>(bins: seq<seq<T>>, n: nat, cmp: (T, T) -> int): seq<T>
    requires n <= |bins|
  {
    if n == 0 then [] else Merged(Drained(bins, n - 1, cmp), bins[n - 1], cmp)
  }

  function MsortResult<T>(list: seq<T>, cmp: (T, T) -> int): seq<T> {
    var bins := BinsAfter(list, |list|, cmp);
    Drained(bins, |bins|, cmp)
  }

  method Msort<T>(list: seq<T>, cmp: (T, T) -> int) returns (ep: seq<T>)
    ensures ep == MsortResult(list, cmp)
  {
    var bins := new seq<T>[LISTSIZE](_ => []);
    assert bins[..] == BinsAfter(list, 0, cmp);
    for n := 0 to |list|
      invariant bins[..] == BinsAfter(list, n, cmp)
    {
      ep := [list[n]];
      var i := 0;
      while i < bins.Length - 1 && bins[i] != []
        invariant i <= bins.Length - 1
        invariant Carried(bins[..], i, ep, cmp) == BinsAfter(list, n + 1, cmp)
      {
        ghost var was := bins[..];
        ep := Merge(ep, bins[i], cmp);
        bins[i] := [];
        assert bins[..] == was[i := []];
        i := i + 1;
      }
      ghost var was := bins[..];
      bins[i] := ep;
      assert bins[..] == was[i := ep];
    }
    ghost var full := bins[..];
    ep := [];
    for i := 0 to bins.Length
      invariant bins[..] == full && ep == Drained(full, i, cmp)
    {
      if bins[i] != [] {
        ep := Merge(ep, bins[i], cmp);
      }
    }
  }

  lemma {:induction false} BinsHold<T(!new)>(list: seq<T>, n: nat, cmp: (T, T) -> int)
    requires Comparison(cmp) && n <= |list|
    ensures BinsOk(BinsAfter(list, n, cmp), cmp) && Holds(BinsAfter(list, n, cmp), list, n, cmp)
  {
    if n == 0 {
      var bins := BinsAfter(list, 0, cmp);
      StackEmpty(bins, |bins| - 1);
      assert list[0..0] == [];
    } else {
      BinsHold(list, n - 1, cmp);
      var was, x := BinsAfter(list, n - 1, cmp), list[n - 1];
      CarryStart(was, x, cmp);
      var at := CarriedStores(was, was, 0, [x], x, cmp);
      Store(was, BinsAfter(list, n, cmp), at, x, cmp, list, n - 1);
    }
  }

  lemma {:induction false} DrainedOk<T(!new)>(bins: seq<seq<T>>, n: nat, cmp: (T, T) -> int, k: T)
    requires Comparison(cmp) && BinsOk(bins, cmp) && n <= |bins|
    ensures Sorted(Drained(bins, n, cmp), cmp)
    ensures Class(Drained(bins, n, cmp), k, cmp) == Class(Stack(bins, n), k, cmp)
  {
    if n > 0 {
      DrainedOk(bins, n - 1, cmp, k);
      MergedSorted(Drained(bins, n - 1, cmp), bins[n - 1], cmp);
      MergedClass(Drained(bins, n - 1, cmp), bins[n - 1], k, cmp);
      ClassConcat(bins[n - 1], Stack(bins, n - 1), k, cmp);
    }
  }

  /** msort returns the last Kept(|list|) elements sorted, tied elements in their original order;
      with StableSortUnique this determines the result. */
  lemma MsortSortsStably<T(!new)>(list: seq<T>, cmp: (T, T) -> int)
    requires Comparison(cmp)
    ensures Kept(|list|) <= |list|
    ensures Sorted(MsortResult(list, cmp), cmp)
    ensures SameClasses(MsortResult(list, cmp), list[|list| - Kept(|list|)..], cmp)
  {
    KeptAtMost(|list|);
    BinsHold(list, |list|, cmp);
    var bins := BinsAfter(list, |list|, cmp);
    KeptClasses(bins, list, cmp);
    forall k ensures Class(MsortResult(list, cmp), k, cmp) == Class(list[|list| - Kept(|list|)..], k, cmp) {
      DrainedOk(bins, |bins|, cmp, k);
      assert Class(Stack(bins, |bins|), k, cmp) == Class(list[|list| - Kept(|list|)..], k, cmp);
    }
    if MsortResult(list, cmp) != [] {
      DrainedOk(bins, |bins|, cmp, MsortResult(list, cmp)[0]);
    }
  }

  lemma KeptClasses<T(!new)>(bins: seq<seq<T>>, list: seq<T>, cmp: (T, T) -> int)
    requires |bins| == LISTSIZE && Holds(bins, list, |list|, cmp) && Kept(|list|) <= |list|
    ensures SameClasses(Stack(bins, |bins|), list[|list| - Kept(|list|)..], cmp)
  {
    var n := |list|;
    var top, low := |bins| - 1, n % LAST_BIN;
    var early, late := list[n - Kept(n)..n - low], list[n - low..n];
    assert early + late == list[n - Kept(n)..];
    forall k ensures Class(Stack(bins, |bins|), k, cmp) == Class(early + late, k, cmp) {
      assert Stack(bins, |bins|) == bins[top] + Stack(bins, top);
      ClassConcat(bins[top], Stack(bins, top), k, cmp);
      ClassConcat(early, late, k, cmp);
      if n < LAST_BIN {
        assert early == [];
      }
    }
  }

  /** The bound is exact: the result is a permutation of the list if and only if the list is
      shorter than 2^30. */
  lemma MsortPermutes<T(!new)>(list: seq<T>, cmp: (T, T) -> int)
    requires Comparison(cmp)
    ensures multiset(MsortResult(list, cmp)) == multiset(list) <==> |list| < 0x4000_0000
    ensures |list| < 0x4000_0000 ==> SameClasses(MsortResult(list, cmp), list, cmp)
  {
    var ep := MsortResult(list, cmp);
    MsortSortsStably(list, cmp);
    SameClassesPermutes(ep, list[|list| - Kept(|list|)..], cmp);
    KeptAtMost(|list|);
    assert |multiset(ep)| == |ep| && |multiset(list)| == |list|;
    if |list| < 0x4000_0000 {
      assert list[|list| - Kept(|list|)..] == list;
    }
  }
}
