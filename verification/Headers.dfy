/** How lighttpd finds the end of a request header in a stream that arrives in arbitrary pieces. */
module Headers {
  import opened Octets
  import opened Options

  /** The empty line that ends a header. */
  const END: Bytes := [13, 10, 13, 10]

  predicate Occurs(s: Bytes, j: nat) {
    j + 4 <= |s| && s[j..j + 4] == END
  }

  /** The piece after the first. */
  function Second(vs: seq<Bytes>): Bytes {
    if |vs| > 1 then vs[1] else []
  }

  /** The first place from `i` on in piece `b` where the end of the header begins; the search looks
      one piece ahead. */
  function FirstIn(b: Bytes, next: Bytes, i: nat): (r: Option<nat>)
    requires i <= |b|
    ensures r.Some? ==> i <= r.value < |b| && Occurs(b + next, r.value)
    ensures forall j :: i <= j < |b| && Occurs(b + next, j) ==> r.Some? && r.value <= j
    decreases |b| - i
  {
    if i == |b| then None else if Occurs(b + next, i) then Some(i) else FirstIn(b, next, i + 1)
  }

  /** Where the header ends in the concatenation of the pieces, as the search sees it. */
  function Find(vs: seq<Bytes>): Option<nat> {
    if vs == [] then None
    else match FirstIn(vs[0], Second(vs), 0)
      case Some(i) => Some(i + 4)
      case None => match Find(vs[1..])
        case None => None
        case Some(n) => Some(|vs[0]| + n)
  }

  /** The four bytes at place `j` lie in one piece or in two that follow each other. */
  predicate InTwo(vs: seq<Bytes>, j: nat) {
    vs != [] && if j < |vs[0]| then j + 4 <= |vs[0]| + |Second(vs)| else InTwo(vs[1..], j - |vs[0]|)
  }

  /** An occurrence the search can see. */
  predicate Visible(vs: seq<Bytes>, j: nat) {
    Occurs(Concat(vs), j) && InTwo(vs, j)
  }

  lemma VisibleHere(vs: seq<Bytes>, j: nat)
    requires vs != [] && j < |vs[0]|
    ensures Visible(vs, j) <==> Occurs(vs[0] + Second(vs), j)
  {
    var two := vs[0] + Second(vs);
    assert |two| <= |Concat(vs)| && Concat(vs)[..|two|] == two by {
      if |vs| > 1 {
        assert Concat(vs) == vs[0] + (vs[1] + Concat(vs[2..])) by {
          assert vs[1..][1..] == vs[2..];
        }
      }
    }
    if j + 4 <= |two| {
      assert two[j..j + 4] == Concat(vs)[..|two|][j..j + 4] == Concat(vs)[j..j + 4];
    }
  }

  lemma VisibleLater(vs: seq<Bytes>, j: nat)
    requires vs != [] && j >= |vs[0]|
    ensures Visible(vs, j) <==> Visible(vs[1..], j - |vs[0]|)
  {
    var n := |vs[0]|;
    if j + 4 <= |Concat(vs)| {
      assert Concat(vs)[j..j + 4] == Concat(vs[1..])[j - n..j - n + 4];
    }
  }

  /** A visible occurrence is not passed over. */
  lemma NotPassed(vs: seq<Bytes>, j: nat)
    requires vs != [] && Visible(vs, j)
    requires j >= |vs[0]| && Visible(vs[1..], j - |vs[0]|) ==>
      Find(vs[1..]).Some? && Find(vs[1..]).value <= j - |vs[0]| + 4
    ensures Find(vs).Some? && Find(vs).value <= j + 4
  {
    hide Visible, Occurs, InTwo, Second;
    if j < |vs[0]| {
      VisibleHere(vs, j);
    } else {
      VisibleLater(vs, j);
    }
  }

  /** The search finds the first occurrence that does not stretch over three pieces. */
  lemma {:induction false} FindIsFirstVisible(vs: seq<Bytes>)
    ensures Find(vs).Some? ==> Find(vs).value >= 4 && Visible(vs, Find(vs).value - 4)
    ensures forall j: nat :: Visible(vs, j) ==> Find(vs).Some? && Find(vs).value <= j + 4
  {
    if vs != [] {
      hide Visible, Occurs, InTwo, Second;
      FindIsFirstVisible(vs[1..]);
      var here := FirstIn(vs[0], Second(vs), 0);
      if here.Some? {
        VisibleHere(vs, here.value);
      } else if Find(vs[1..]).Some? {
        VisibleLater(vs, |vs[0]| + Find(vs[1..]).value - 4);
      }
      forall j: nat | Visible(vs, j) ensures Find(vs).Some? && Find(vs).value <= j + 4 {
        hide Find;
        NotPassed(vs, j);
      }
    }
  }

  /** `f` is the first occurrence of all. */
  ghost predicate First(s: Bytes, f: nat) {
    Occurs(s, f) && forall j: nat :: Occurs(s, j) ==> f <= j
  }

  /** The header found is the shortest possible exactly if the first empty line does not stretch over
      three pieces or more. */
  lemma ShortestExactly(vs: seq<Bytes>, f: nat)
    requires First(Concat(vs), f)
    ensures Find(vs) == Some(f + 4) <==> InTwo(vs, f)
  {
    FindIsFirstVisible(vs);
    if InTwo(vs, f) {
      assert Visible(vs, f);
    }
    if Find(vs) == Some(f + 4) {
      assert Visible(vs, f);
    }
  }

  lemma {:induction false} FirstInGrows(b: Bytes, next: Bytes, i: nat)
    requires i <= |b| && FirstIn(b, [], i).Some?
    ensures FirstIn(b, next, i) == FirstIn(b, [], i)
    decreases |b| - i
  {
    assert b + [] == b;
    if i + 4 <= |b| {
      assert (b + next)[i..i + 4] == b[i..i + 4];
    }
    if i < |b| && !Occurs(b, i) {
      FirstInGrows(b, next, i + 1);
    }
  }

  /** What has been found stays where it is, whatever arrives later. */
  lemma {:induction false} FindGrows(vs: seq<Bytes>, more: seq<Bytes>)
    requires Find(vs).Some?
    ensures Find(vs + more) == Find(vs)
  {
    var all := vs + more;
    assert all[0] == vs[0] && all[1..] == vs[1..] + more;
    hide FirstIn;
    if |vs| == 1 {
      assert Find(vs[1..]).None?;
      FirstInGrows(vs[0], Second(all), 0);
    } else if Find(vs[1..]).Some? {
      FindGrows(vs[1..], more);
    }
  }

  /** If every piece has three bytes or more, every occurrence is in one or two of them. */
  lemma {:induction false} LongPieces(vs: seq<Bytes>, j: nat)
    requires (forall k :: 0 <= k < |vs| ==> |vs[k]| >= 3) && j + 4 <= |Concat(vs)|
    ensures InTwo(vs, j)
  {
    if j < |vs[0]| {
      if |vs| == 1 {
        assert Concat(vs) == vs[0] + Concat([]);
      }
    } else {
      LongPieces(vs[1..], j - |vs[0]|);
    }
  }

  /** An empty line that arrives in three pieces is missed. */
  lemma ThreePieces()
    ensures var vs: seq<Bytes> := [[13], [10], [13, 10]]; Occurs(Concat(vs), 0) && Find(vs) == None
  {
    var vs: seq<Bytes> := [[13], [10], [13, 10]];
    assert vs[1..] == [vs[1], vs[2]] && vs[1..][1..] == [vs[2]] && vs[1..][1..][1..] == [];
    assert Concat([vs[2]]) == vs[2] && Concat([vs[1], vs[2]]) == vs[1] + vs[2];
    assert Concat(vs) == END && END[0..4] == END;
    assert !InTwo(vs, 0);
    FindIsFirstVisible(vs);
  }
}
