/** http_dirls_sort: comb sort of a directory listing by name. */
module CombSort {
  import opened Dictionary
  import opened Octets

  /** A directory entry; `id` stands for all but its name. */
  datatype Entry = Entry(name: Bytes, id: nat)

  // ----- the order

  /** strcmp */
  function StrCmp(a: Bytes, b: Bytes): int {
    if a == [] || b == [] then |a| - |b|
    else if a[0] != b[0] then a[0] as int - b[0] as int
    else StrCmp(a[1..], b[1..])
  }

  /** strcmp is dictionary order, by unsigned bytes. */
  lemma {:induction false} StrCmpIsDictionary(a: Bytes, b: Bytes)
    ensures StrCmp(a, b) < 0 <==> FirstSmaller(a, b)
    ensures StrCmp(a, b) == 0 <==> a == b
    decreases |a|
  {
    if a == [] || b == [] {
      assert a[..0] == b[..0];
      assert a == [] && b != [] ==> SmallerAt(a, b, 0);
    } else {
      StrCmpIsDictionary(a[1..], b[1..]);
      SmallerTail(a, b);
      assert a == [a[0]] + a[1..] && b == [b[0]] + b[1..];
    }
  }

  predicate Above(x: Entry, y: Entry) {
    StrCmp(x.name, y.name) > 0
  }

  lemma {:induction false} StrCmpTrans(a: Bytes, b: Bytes, c: Bytes)
    requires StrCmp(a, b) <= 0 && StrCmp(b, c) <= 0
    ensures StrCmp(a, c) <= 0
    decreases |a|
  {
    if a != [] && b != [] && c != [] && a[0] == b[0] == c[0] {
      StrCmpTrans(a[1..], b[1..], c[1..]);
    }
  }

  lemma {:induction false} StrCmpSym(a: Bytes, b: Bytes)
    ensures StrCmp(a, b) > 0 <==> StrCmp(b, a) < 0
    decreases |a|
  {
    if a != [] && b != [] {
      StrCmpSym(a[1..], b[1..]);
    }
  }

  ghost predicate Sorted(s: seq<Entry>) {
    forall i, j :: 0 <= i < j < |s| ==> !Above(s[i], s[j])
  }

  /** No entry before place `n` is above the one `gap` places on. */
  ghost predicate CombedUpTo(s: seq<Entry>, gap: nat, n: nat) {
    forall i, j :: 0 <= i < n && i < j < |s| && j == i + gap ==> !Above(s[i], s[j])
  }

  lemma CombedOneSorted(s: seq<Entry>)
    requires CombedUpTo(s, 1, |s|)
    ensures Sorted(s)
  {
    forall i, j | 0 <= i < j < |s| ensures !Above(s[i], s[j]) {
      Climb(s, i, j);
    }
  }

  lemma {:induction false} Climb(s: seq<Entry>, i: nat, j: nat)
    requires CombedUpTo(s, 1, |s|) && i < j < |s|
    ensures !Above(s[i], s[j])
    decreases j - i
  {
    if j > i + 1 {
      Climb(s, i, j - 1);
      StrCmpTrans(s[i].name, s[j - 1].name, s[j].name);
    }
  }

  // ----- inversions

  /** How many entries of `s` are above `x`. */
  function CountAbove(s: seq<Entry>, x: Entry): nat {
    if s == [] then 0 else CountAbove(s[..|s| - 1], x) + if Above(s[|s| - 1], x) then 1 else 0
  }

  /** How many pairs are in the wrong order. */
  function Inversions(s: seq<Entry>): nat {
    if s == [] then 0 else Inversions(s[..|s| - 1]) + CountAbove(s[..|s| - 1], s[|s| - 1])
  }

  function Swapped(s: seq<Entry>, i: nat, j: nat): (t: seq<Entry>)
    requires i < |s| && j < |s|
    ensures |t| == |s|
  {
    s[i := s[j]][j := s[i]]
  }

  lemma {:induction false} CountAboveSwapped(s: seq<Entry>, i: nat, x: Entry)
    requires i + 1 < |s|
    ensures CountAbove(Swapped(s, i, i + 1), x) == CountAbove(s, x)
  {
    hide StrCmp;
    var n := |s| - 1;
    var t := Swapped(s, i, i + 1);
    if n > i + 1 {
      assert t[..n] == Swapped(s[..n], i, i + 1);
      CountAboveSwapped(s[..n], i, x);
    } else {
      assert t[..n][..i] == s[..n][..i] && t[..n][i] == s[n] && s[..n][i] == s[i] && t[n] == s[i];
      assert CountAbove(t[..n], x) == CountAbove(t[..n][..i], x) + if Above(s[n], x) then 1 else 0;
      assert CountAbove(s[..n], x) == CountAbove(s[..n][..i], x) + if Above(s[i], x) then 1 else 0;
    }
  }

  /** Exchanging two neighbours in the wrong order removes one inversion. */
  lemma {:induction false} SwapReduces(s: seq<Entry>, i: nat)
    requires i + 1 < |s| && Above(s[i], s[i + 1])
    ensures Inversions(Swapped(s, i, i + 1)) == Inversions(s) - 1
  {
    hide StrCmp;
    var n := |s| - 1;
    var t := Swapped(s, i, i + 1);
    if n > i + 1 {
      assert t[..n] == Swapped(s[..n], i, i + 1);
      SwapReduces(s[..n], i);
      CountAboveSwapped(s[..n], i, s[n]);
    } else {
      StrCmpSym(s[i].name, s[n].name);
      var p := s[..i];
      assert t[..n][..i] == p && s[..n][..i] == p && t[..n][i] == s[n] && s[..n][i] == s[i] && t[n] == s[i];
      assert CountAbove(s[..n], s[n]) == CountAbove(p, s[n]) + 1;
      assert CountAbove(t[..n], s[i]) == CountAbove(p, s[i]);
      assert Inversions(s[..n]) == Inversions(p) + CountAbove(p, s[i]);
      assert Inversions(t[..n]) == Inversions(p) + CountAbove(p, s[n]);
    }
  }

  // ----- the sort

  /** The gap of the next pass. */
  function NextGap(gap: nat): (g: nat)
    ensures g >= 1 && (gap > 1 ==> g < gap)
  {
    var g := gap * 10 / 13;
    var h := if g == 9 || g == 10 then 11 else g;
    if h < 1 then 1 else h
  }

  lemma SwappedPermutes(s: seq<Entry>, i: nat, j: nat)
    requires i < |s| && j < |s|
    ensures multiset(Swapped(s, i, j)) == multiset(s)
  {
  }

  method Exchange(ent: array<Entry>, i: nat, j: nat)
    requires i < ent.Length && j < ent.Length
    modifies ent
    ensures ent[..] == Swapped(old(ent[..]), i, j)
  {
    var tmp := ent[i];
    ent[i] := ent[j];
    ent[j] := tmp;
  }

  /** One pass of the inner loop. */
  method Pass(ent: array<Entry>, gap: nat) returns (swapped: bool)
    requires gap >= 1
    modifies ent
    ensures multiset(ent[..]) == multiset(old(ent[..]))
    ensures !swapped ==> ent[..] == old(ent[..]) && CombedUpTo(ent[..], gap, ent.Length)
    ensures swapped && gap == 1 ==> Inversions(ent[..]) < Inversions(old(ent[..]))
  {
    hide Inversions, StrCmp, Swapped;
    swapped := false;
    ghost var was := ent[..];
    var num := ent.Length;
    var i := 0;
    while i < num - gap
      invariant 0 <= i && multiset(ent[..]) == multiset(was)
      invariant !swapped ==> ent[..] == was && CombedUpTo(was, gap, i)
      invariant swapped && gap == 1 ==> Inversions(ent[..]) < Inversions(was)
    {
      var j := i + gap;
      if StrCmp(ent[i].name, ent[j].name) > 0 {
        if gap == 1 {
          SwapReduces(ent[..], i);
        }
        SwappedPermutes(ent[..], i, j);
        Exchange(ent, i, j);
        swapped := true;
      }
      i := i + 1;
    }
  }

  const INT_MAX := 0x7FFF_FFFF

  /** http_dirls_sort: for every length whose tenfold fits in an int, the loop ends and leaves the
      entries in order. */
  method Sort(ent: array<Entry>)
    requires ent.Length * 10 <= INT_MAX
    modifies ent
    ensures Sorted(ent[..]) && multiset(ent[..]) == multiset(old(ent[..]))
  {
    var gap := ent.Length;
    var swapped := true;
    while gap > 1 || swapped
      invariant 0 <= gap <= INT_MAX / 10 && multiset(ent[..]) == multiset(old(ent[..]))
      invariant gap <= 1 && !swapped ==> CombedUpTo(ent[..], 1, ent.Length)
      decreases if gap > 1 then gap else 1, Inversions(ent[..]), swapped
    {
      gap := NextGap(gap);
      swapped := Pass(ent, gap);
    }
    CombedOneSorted(ent[..]);
  }
}
