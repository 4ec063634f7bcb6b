/** What path simplification does with each kind of segment, said of the paths themselves. */
module PathLaws {
  import opened Octets
  import opened Paths

  lemma {:induction false} WalkOn(a: seq<Path>, b: seq<Path>, more: seq<Path>)
    requires Walk(a) == Walk(b)
    ensures Walk(a + more) == Walk(b + more)
    decreases |more|
  {
    if more == [] {
      assert a + more == a && b + more == b;
    } else {
      var m := |more| - 1;
      WalkOn(a, b, more[..m]);
      assert (a + more)[..|a| + m] == a + more[..m] && (b + more)[..|b| + m] == b + more[..m];
    }
  }

  lemma {:induction false} WalkOne(segs: seq<Path>, seg: Path)
    ensures Walk(segs + [seg]) == Enter(Walk(segs), seg)
  {
    assert (segs + [seg])[..|segs|] == segs;
  }

  /** A slash in the middle separates the segments before it from those behind it. */
  lemma SplitAtSlash(s: Path, t: Path)
    ensures Split(s + [SLASH] + t) == Split(s) + Split(t)
  {
    SplitConcat(s, [SLASH] + t);
    assert s + ([SLASH] + t) == s + [SLASH] + t;
    SplitBody([SLASH] + t);
    assert ([SLASH] + t)[1..] == t;
    JoinEmpty(Split(s), [[]] + Split(t));
    assert ([[]] + Split(t))[1..] == Split(t);
  }

  /** Two paths that differ in the segments before the last slash only, and these lead to one place. */
  lemma SameFront(a: Path, b: Path, t: Path)
    requires Walk(Split(a)) == Walk(Split(b))
    ensures Simplify(a + [SLASH] + t) == Simplify(b + [SLASH] + t)
  {
    SimplifySegments(a + [SLASH] + t);
    SimplifySegments(b + [SLASH] + t);
    SplitAtSlash(a, t);
    SplitAtSlash(b, t);
    WalkOn(Split(a), Split(b), Split(t));
  }

  /** A slash in front makes no difference to the segments. */
  lemma SimplifySegments(s: Path)
    ensures Simplify(s) == Render(Walk(Split(s))) + if Special(Open(s)) then [SLASH] else []
  {
    if s != [] && s[0] == SLASH {
      SplitBody(s);
      WalkEmptyFirst(Split(s[1..]));
    }
  }

  /** A segment goes away together with a `..` behind it. */
  lemma ParentTakesBack(s: Path, seg: Path, t: Path)
    requires seg != [] && seg != [DOT] && seg != [DOT, DOT] && SLASH !in seg
    ensures Simplify(s + [SLASH] + seg + [SLASH, DOT, DOT, SLASH] + t) == Simplify(s + [SLASH] + t)
  {
    var a := s + [SLASH] + seg + [SLASH] + [DOT, DOT];
    assert s + [SLASH] + seg + [SLASH, DOT, DOT, SLASH] + t == a + [SLASH] + t;
    SplitAtSlash(s, seg);
    SplitAtSlash(s + [SLASH] + seg, [DOT, DOT]);
    SplitPlain(seg);
    SplitPlain([DOT, DOT]);
    WalkOne(Split(s), seg);
    WalkOne(Split(s) + [seg], [DOT, DOT]);
    assert (Walk(Split(s)) + [seg])[..|Walk(Split(s))|] == Walk(Split(s));
    SameFront(a, s, t);
  }

  /** A `.` goes away. */
  lemma DotGoesAway(s: Path, t: Path)
    ensures Simplify(s + [SLASH, DOT, SLASH] + t) == Simplify(s + [SLASH] + t)
  {
    var a := s + [SLASH] + [DOT];
    assert s + [SLASH, DOT, SLASH] + t == a + [SLASH] + t;
    SplitAtSlash(s, [DOT]);
    SplitPlain([DOT]);
    WalkOne(Split(s), [DOT]);
    SameFront(a, s, t);
  }

  /** Of two slashes one goes away. */
  lemma SlashGoesAway(s: Path, t: Path)
    ensures Simplify(s + [SLASH, SLASH] + t) == Simplify(s + [SLASH] + t)
  {
    var a := s + [SLASH] + [];
    assert s + [SLASH, SLASH] + t == a + [SLASH] + t;
    SplitAtSlash(s, []);
    WalkOne(Split(s), []);
    SameFront(a, s, t);
  }

  lemma RootsParent()
    ensures Walk(Split([SLASH, DOT, DOT])) == Walk(Split([]))
  {
    SplitSlash([DOT, DOT]);
    assert [SLASH] + [DOT, DOT] == [SLASH, DOT, DOT];
    WalkOne([], []);
    WalkOne([[]], [DOT, DOT]);
  }

  /** The root has no parent. */
  lemma RootHasNoParent(t: Path)
    ensures Simplify([SLASH, DOT, DOT, SLASH] + t) == Simplify([SLASH] + t)
  {
    assert [SLASH, DOT, DOT, SLASH] + t == [SLASH, DOT, DOT] + [SLASH] + t && [SLASH] + t == [] + [SLASH] + t;
    hide Simplify, Walk, Split;
    RootsParent();
    SameFront([SLASH, DOT, DOT], [], t);
  }

  lemma EndSlash(s: Path, seg: Path)
    requires seg == [DOT] || seg == [DOT, DOT]
    ensures Simplify(s + [SLASH] + seg) == Simplify(s + [SLASH] + seg + [SLASH])
  {
    var a := s + [SLASH] + seg;
    assert a + [SLASH] + [] == a + [SLASH];
    SplitPlain(seg);
    SplitAtSlash(s, seg);
    SplitAtSlash(a, []);
    WalkOne(Split(a), []);
    SimplifySegments(a);
    SimplifySegments(a + [SLASH]);
  }

  /** A special segment at the end counts as if a slash stood behind it. */
  lemma EndsInSlash(s: Path)
    ensures Simplify(s + [SLASH, DOT]) == Simplify(s + [SLASH, DOT, SLASH])
    ensures Simplify(s + [SLASH, DOT, DOT]) == Simplify(s + [SLASH, DOT, DOT, SLASH])
  {
    assert s + [SLASH] + [DOT] == s + [SLASH, DOT] && s + [SLASH] + [DOT] + [SLASH] == s + [SLASH, DOT, SLASH];
    assert s + [SLASH] + [DOT, DOT] == s + [SLASH, DOT, DOT]
      && s + [SLASH] + [DOT, DOT] + [SLASH] == s + [SLASH, DOT, DOT, SLASH];
    hide Simplify;
    EndSlash(s, [DOT]);
    EndSlash(s, [DOT, DOT]);
  }

  /** The segments, with their slashes, are the path. */
  lemma {:induction false} RenderSplit(s: Path)
    ensures Split(s)[0] + Render(Split(s)[1..]) == s
  {
    if s != [] {
      var segs, c := Split(s[..|s| - 1]), s[|s| - 1];
      var m := |segs| - 1;
      RenderSplit(s[..|s| - 1]);
      if c == SLASH {
        assert Split(s)[1..] == segs[1..] + [[]] && (segs[1..] + [[]])[..m] == segs[1..];
      } else if m > 0 {
        assert Split(s)[1..] == segs[1..m] + [segs[m] + [c]] && (segs[1..m] + [segs[m] + [c]])[..m - 1] == segs[1..m];
        assert segs[1..][..m - 1] == segs[1..m];
      } else {
        assert Split(s)[1..] == [] && segs[1..] == [];
      }
      assert s == s[..|s| - 1] + [c];
    }
  }

  /** An absolute path of ordinary segments, with or without a slash at the end, is left as it is. */
  lemma OrdinaryStays(s: Path)
    requires s != [] && s[0] == SLASH
    requires forall i :: 1 <= i < |Split(s)| ==> Entry(Split(s)[i]) || (i == |Split(s)| - 1 && Split(s)[i] == [])
    ensures Simplify(s) == s
  {
    SplitBody(s);
    RenderSplit(s);
    var segs := Split(s);
    assert segs[0] == [] && s == Render(segs[1..]);
    hide Split, Simplify, Entry;
    SegmentsStay(segs[1..], s);
  }

  lemma SegmentsStay(stack: seq<Path>, s: Path)
    requires stack != [] && s == Render(stack)
    requires forall i :: 0 <= i < |stack| ==> Entry(stack[i]) || (i == |stack| - 1 && stack[i] == [])
    ensures Simplify(s) == s
  {
    hide Simplify;
    var m := |stack| - 1;
    if stack[m] == [] {
      assert Render(stack) == Render(stack[..m]) + [SLASH];
      SimplifyAgain(stack[..m], true);
    } else {
      assert s == Render(stack) + [];
      SimplifyAgain(stack, false);
    }
  }

  /** A path without a leading slash gets one. */
  lemma GetsSlash(s: Path)
    requires s == [] || s[0] != SLASH
    ensures Simplify(s) == Simplify([SLASH] + s)
  {
    assert ([SLASH] + s)[1..] == s;
  }
}
