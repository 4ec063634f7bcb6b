/** Dictionary order of strings of bytes. */
module Dictionary {
  import opened Octets

  /** The first of the two strings that ends, or has the smaller byte where they first differ. */
  ghost predicate FirstSmaller(f: Bytes, g: Bytes) {
    exists i: nat :: i <= |f| && i <= |g| && f[..i] == g[..i] && SmallerAt(f, g, i)
  }

  predicate SmallerAt(f: Bytes, g: Bytes, i: nat)
    requires i <= |f| && i <= |g|
  {
    i < |g| && (i < |f| ==> f[i] < g[i])
  }

  lemma TailTake(f: Bytes, i: nat)
    requires 1 <= i <= |f|
    ensures f[..i] == [f[0]] + f[1..][..i - 1]
  {
  }

  lemma SmallerTail(f: Bytes, g: Bytes)
    requires f != [] && g != []
    ensures FirstSmaller(f, g) <==> f[0] < g[0] || (f[0] == g[0] && FirstSmaller(f[1..], g[1..]))
  {
    if FirstSmaller(f, g) {
      var i: nat :| i <= |f| && i <= |g| && f[..i] == g[..i] && SmallerAt(f, g, i);
      if i > 0 {
        TailTake(f, i);
        TailTake(g, i);
        assert f[0] == f[..i][0] == g[..i][0] == g[0];
        assert f[1..][..i - 1] == f[..i][1..] == g[..i][1..] == g[1..][..i - 1];
        assert SmallerAt(f[1..], g[1..], i - 1);
      }
    }
    if f[0] < g[0] {
      assert f[..0] == g[..0] && SmallerAt(f, g, 0);
    }
    if f[0] == g[0] && FirstSmaller(f[1..], g[1..]) {
      var j: nat :| j <= |f[1..]| && j <= |g[1..]| && f[1..][..j] == g[1..][..j] && SmallerAt(f[1..], g[1..], j);
      TailTake(f, j + 1);
      TailTake(g, j + 1);
      assert SmallerAt(f, g, j + 1);
    }
  }
}
