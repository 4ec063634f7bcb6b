/** lemon's set package: a family of sets of small numbers, one row of flags per set. */
module SymbolSets {
  class SymbolSets {
    const cells: array2<bool>

    /** `count` empty sets over the elements below `size`. */
    constructor (count: nat, size: nat)
      ensures fresh(cells) && cells.Length0 == count && cells.Length1 == size
      ensures forall i: nat :: i < count ==> Value()[i] == {}
    {
      cells := new bool[count, size]((_, _) => false);
    }

    /** The sets of `v`. */
    constructor From(v: seq<set<nat>>, size: nat)
      requires forall i :: 0 <= i < |v| ==> forall x :: x in v[i] ==> x < size
      ensures fresh(cells) && cells.Length0 == |v| && cells.Length1 == size
      ensures Value() == v
    {
      cells := new bool[|v|, size]((i, x) requires 0 <= i < |v| => x in v[i]);
      new;
      assert forall i: nat :: i < |v| ==> Elems(i) == v[i];
    }

    ghost function Elems(i: nat): set<nat>
      requires i < cells.Length0
      reads cells
    {
      set x: nat | x < cells.Length1 && cells[i, x]
    }

    /** The whole family as a value. */
    ghost function Value(): (v: seq<set<nat>>)
      reads cells
      ensures |v| == cells.Length0
      ensures forall i :: 0 <= i < |v| ==> v[i] == Elems(i)
    {
      seq(cells.Length0, i requires 0 <= i < cells.Length0 reads cells => Elems(i))
    }

    /** The whole family, read out. */
    method Sets() returns (v: seq<set<nat>>)
      ensures v == Value()
    {
      v := [];
      for i := 0 to cells.Length0
        invariant |v| == i && forall k :: 0 <= k < i ==> v[k] == Elems(k)
      {
        v := v + [set x: nat | x < cells.Length1 && cells[i, x]];
      }
    }

    method Add(i: nat, e: nat) returns (added: bool)
      requires i < cells.Length0 && e < cells.Length1
      modifies cells
      ensures Value() == old(Value())[i := old(Value())[i] + {e}]
      ensures added <==> e !in old(Value())[i]
    {
      added := !cells[i, e];
      cells[i, e] := true;
      assert Elems(i) == old(Elems(i)) + {e};
      assert forall k: nat :: k < cells.Length0 && k != i ==> Elems(k) == old(Elems(k));
    }

    /** Adds every element of set `j` to set `i`. */
    method Union(i: nat, j: nat) returns (progress: bool)
      requires i < cells.Length0 && j < cells.Length0
      modifies cells
      ensures Value() == old(Value())[i := old(Value())[i] + old(Value())[j]]
      ensures progress <==> !(old(Value())[j] <= old(Value())[i])
    {
      progress := false;
      ghost var w: nat := 0;
      for x := 0 to cells.Length1
        invariant forall k: nat, y: nat :: k < cells.Length0 && y < cells.Length1 && (k != i || x <= y) ==>
          cells[k, y] == old(cells[k, y])
        invariant forall y: nat :: y < x ==> cells[i, y] == (old(cells[i, y]) || old(cells[j, y]))
        invariant progress ==> w < x && old(cells[j, w]) && !old(cells[i, w])
        invariant !progress ==> forall y: nat :: y < x && old(cells[j, y]) ==> old(cells[i, y])
      {
        if cells[j, x] && !cells[i, x] {
          progress, w := true, x;
          cells[i, x] := true;
        }
      }
      assert Elems(i) == old(Elems(i)) + old(Elems(j));
      assert forall k: nat :: k < cells.Length0 && k != i ==> Elems(k) == old(Elems(k));
      assert progress ==> w in old(Elems(j)) && w !in old(Elems(i));
    }
  }

  /** The flags still clear: every productive pass over the family shrinks this set. */
  ghost function Clear(v: seq<set<nat>>, size: nat): set<(nat, nat)> {
    set i: nat, x: nat | i < |v| && x < size && x !in v[i] :: (i, x)
  }

  ghost predicate Below(v: seq<set<nat>>, w: seq<set<nat>>) {
    |v| == |w| && forall i :: 0 <= i < |v| ==> v[i] <= w[i]
  }

  /** Every element of every set of the family is below `size`. */
  ghost predicate Bounded(v: seq<set<nat>>, size: nat) {
    forall i :: 0 <= i < |v| ==> forall x :: x in v[i] ==> x < size
  }

  /** A family that has grown stays different from where it started. */
  lemma GrowthLasts(u: seq<set<nat>>, v: seq<set<nat>>, w: seq<set<nat>>)
    requires Below(u, v) && Below(v, w)
    ensures Below(u, w)
    ensures u == w ==> u == v && v == w
  {
    if u == w {
      assert forall i :: 0 <= i < |u| ==> u[i] == v[i];
    }
  }

  lemma ClearShrinks(v: seq<set<nat>>, w: seq<set<nat>>, size: nat)
    requires Below(v, w) && v != w && Bounded(w, size)
    ensures Clear(w, size) < Clear(v, size)
  {
    var i: nat :| i < |v| && v[i] != w[i];
    var x :| x in w[i] && x !in v[i];
    assert (i, x) in Clear(v, size) && (i, x) !in Clear(w, size);
  }
}
