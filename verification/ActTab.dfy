/** lemon's acttab: many small lookahead-to-action maps overlaid in one array.  A map is found
    again through the offset that `Insert` returned for it: lookahead x lives in slot offset + x,
    and only if the slot says so. */
module ActTab {
  import opened Options

  /** A slot of the table; an empty slot has a negative lookahead. */
  datatype Entry = Entry(lookahead: int, action: int)

  /** Looking `x` up at offset `ofst`. */
  function Find(t: seq<Entry>, ofst: int, x: nat): Option<int> {
    if 0 <= ofst + x < |t| && t[ofst + x].lookahead == x then Some(t[ofst + x].action) else None
  }

  /** The action a transaction set gives to `x`. */
  ghost function FindIn(s: set<Entry>, x: nat): Option<int> {
    if exists e :: e in s && e.lookahead == x then
      var e :| e in s && e.lookahead == x;
      Some(e.action)
    else None
  }

  /** The map stored at offset `ofst` is exactly the set `s`. */
  ghost predicate RowIs(t: seq<Entry>, ofst: int, s: set<Entry>) {
    forall x: nat :: Find(t, ofst, x) == FindIn(s, x)
  }

  /** No lookahead occurs twice. */
  ghost predicate Distinct(s: set<Entry>) {
    && (forall e :: e in s ==> 0 <= e.lookahead)
    && (forall e, f :: e in s && f in s && e.lookahead == f.lookahead ==> e == f)
  }

  ghost function Elems(s: seq<Entry>): set<Entry> {
    set e | e in s
  }

  /** Slot `k` is where the entry `e` goes at offset `ofst`. */
  ghost predicate SlotOf(e: Entry, ofst: int, k: int) {
    k == ofst + e.lookahead
  }

  ghost predicate AllEmpty(t: seq<Entry>, s: set<Entry>, ofst: int) {
    forall e, k {:trigger SlotOf(e, ofst, k)} :: e in s && SlotOf(e, ofst, k) ==> 0 <= k < |t| && t[k].lookahead < 0
  }

  ghost predicate AllThere(t: seq<Entry>, s: set<Entry>, ofst: int) {
    forall e, k {:trigger SlotOf(e, ofst, k)} :: e in s && SlotOf(e, ofst, k) ==> 0 <= k < |t| && t[k] == e
  }

  /** Slots that differ between the two tables hold entries of `s`, each in its place. */
  ghost predicate OnlyAdds(was: seq<Entry>, now: seq<Entry>, s: set<Entry>, ofst: int) {
    && |was| == |now|
    && (forall k :: 0 <= k < |now| && now[k] != was[k] ==> now[k] in s && SlotOf(now[k], ofst, k))
  }

  /** `now` is `was` with the set `s` written at offset `ofst`. */
  ghost predicate Written(was: seq<Entry>, now: seq<Entry>, s: set<Entry>, ofst: int) {
    AllThere(now, s, ofst) && OnlyAdds(was, now, s, ofst)
  }

  /** Offset `ofst` may take the set `s`: its slots are empty and no entry claims the offset, or
      the very same set is already there. */
  ghost predicate Fits(t: seq<Entry>, s: set<Entry>, ofst: int) {
    || (AllEmpty(t, s, ofst) && RowIs(t, ofst, {}))
    || (AllThere(t, s, ofst) && RowIs(t, ofst, s))
  }

  /** After a write, the offset answers for the new set. */
  lemma WrittenRow(was: seq<Entry>, now: seq<Entry>, s: set<Entry>, ofst: int, x: nat)
    requires Distinct(s) && Fits(was, s, ofst) && Written(was, now, s, ofst)
    ensures Find(now, ofst, x) == FindIn(s, x)
  {
    if e :| e in s && e.lookahead == x {
      assert SlotOf(e, ofst, ofst + x);
    } else {
      assert FindIn({}, x) == None && FindIn(s, x) == None;
      assert Find(was, ofst, x) == None;
    }
  }

  /** After a write, every other offset answers as before. */
  lemma OtherRow(was: seq<Entry>, now: seq<Entry>, s: set<Entry>, ofst: int, o: int, x: nat)
    requires Fits(was, s, ofst) && Written(was, now, s, ofst) && o != ofst
    ensures Find(now, o, x) == Find(was, o, x)
  {
    if 0 <= o + x < |now| && now[o + x] != was[o + x] {
      assert SlotOf(now[o + x], ofst, o + x);
      assert was[o + x].lookahead < 0;
    }
  }

  ghost predicate RowsKept(was: seq<Entry>, now: seq<Entry>, except: int) {
    forall o: int, x: nat :: o != except ==> Find(now, o, x) == Find(was, o, x)
  }

  lemma WrittenRows(was: seq<Entry>, now: seq<Entry>, s: set<Entry>, ofst: int)
    requires Distinct(s) && Fits(was, s, ofst) && Written(was, now, s, ofst)
    ensures RowIs(now, ofst, s) && RowsKept(was, now, ofst)
  {
    forall x: nat ensures Find(now, ofst, x) == FindIn(s, x) {
      WrittenRow(was, now, s, ofst, x);
    }
    forall o: int, x: nat | o != ofst ensures Find(now, o, x) == Find(was, o, x) {
      OtherRow(was, now, s, ofst, o, x);
    }
  }

  /** `u` is `t` followed by empty slots. */
  ghost predicate Padded(t: seq<Entry>, u: seq<Entry>) {
    && |t| <= |u| && u[..|t|] == t
    && (forall k :: |t| <= k < |u| ==> u[k].lookahead < 0)
  }

  lemma PaddedFind(t: seq<Entry>, u: seq<Entry>, o: int, x: nat)
    requires Padded(t, u)
    ensures Find(u, o, x) == Find(t, o, x)
  {
    if 0 <= o + x < |t| {
      assert u[..|t|][o + x] == u[o + x];
    }
  }

  /** The slots occupied on behalf of offset `ofst`. */
  ghost function Claimed(t: seq<Entry>, ofst: int): set<int> {
    set k | 0 <= k < |t| && 0 <= t[k].lookahead == k - ofst
  }

  /** If every entry of `s` has its slot in `c`, and `c` is no larger, then `c` holds nothing else. */
  lemma {:induction false} Pigeonhole(s: set<Entry>, ofst: int, c: set<int>, k: int)
    requires Distinct(s) && |c| <= |s| && k in c
    requires forall e :: e in s ==> ofst + e.lookahead in c
    ensures exists e :: e in s && SlotOf(e, ofst, k)
  {
    var e :| e in s;
    if SlotOf(e, ofst, k) {
    } else {
      var s', c' := s - {e}, c - {ofst + e.lookahead};
      assert forall f :: f in s' ==> ofst + f.lookahead in c';
      Pigeonhole(s', ofst, c', k);
    }
  }

  /** A set that is all there, at an offset with no more entries than the set has, is the row. */
  lemma SameSet(t: seq<Entry>, s: set<Entry>, ofst: int)
    requires Distinct(s) && AllThere(t, s, ofst) && |Claimed(t, ofst)| == |s|
    ensures RowIs(t, ofst, s)
  {
    forall x: nat ensures Find(t, ofst, x) == FindIn(s, x) {
      SameSetAt(t, s, ofst, x);
    }
  }

  lemma SameSetAt(t: seq<Entry>, s: set<Entry>, ofst: int, x: nat)
    requires Distinct(s) && AllThere(t, s, ofst) && |Claimed(t, ofst)| == |s|
    ensures Find(t, ofst, x) == FindIn(s, x)
  {
    if e :| e in s && e.lookahead == x {
      assert SlotOf(e, ofst, ofst + x);
    } else if ofst + x in Claimed(t, ofst) {
      forall e | e in s ensures ofst + e.lookahead in Claimed(t, ofst) {
        assert SlotOf(e, ofst, ofst + e.lookahead);
      }
      Pigeonhole(s, ofst, Claimed(t, ofst), ofst + x);
    }
  }

  /** Appending always fits. */
  lemma AppendFits(t0: seq<Entry>, t: seq<Entry>, s: set<Entry>, mx: int)
    requires Padded(t0, t) && Distinct(s) && |t0| + mx < |t|
    requires forall e :: e in s ==> e.lookahead <= mx
    ensures Fits(t, s, |t0|)
  {
    forall x: nat ensures Find(t, |t0|, x) == FindIn({}, x) {
    }
  }

  class ActTab {
    var aAction: array<Entry>     // its length is nActionAlloc
    var nAction: nat
    var aLookahead: array<Entry>  // the transaction set being built
    var nLookahead: nat
    var mnLookahead: int
    var mnAction: int
    var mxLookahead: int

    ghost predicate Valid()
      reads this, aAction, aLookahead
    {
      && aAction != aLookahead
      && nAction <= aAction.Length
      && (forall k :: nAction <= k < aAction.Length ==> aAction[k].lookahead < 0)
      && nLookahead <= aLookahead.Length
      && (forall j :: 0 <= j < nLookahead ==> 0 <= mnLookahead <= aLookahead[j].lookahead <= mxLookahead)
      && (nLookahead > 0 ==> Entry(mnLookahead, mnAction) in aLookahead[..nLookahead])
    }

    /** The action table built so far. */
    ghost function Table(): seq<Entry>
      reads this, aAction
      requires nAction <= aAction.Length
    {
      aAction[..nAction]
    }

    ghost function Pending(): seq<Entry>
      reads this, aLookahead
      requires nLookahead <= aLookahead.Length
    {
      aLookahead[..nLookahead]
    }

    constructor ()
      ensures Valid() && Table() == [] && Pending() == []
      ensures fresh(aAction) && fresh(aLookahead)
    {
      aAction := new Entry[0];
      aLookahead := new Entry[0];
      nAction, nLookahead := 0, 0;
      mnLookahead, mnAction, mxLookahead := 0, 0, 0;
    }

    method GrowLookahead()
      requires Valid()
      modifies this`aLookahead
      ensures Valid() && (aLookahead == old(aLookahead) || fresh(aLookahead))
      ensures Pending() == old(Pending()) && nLookahead < aLookahead.Length
    {
      if nLookahead >= aLookahead.Length {
        var grown := new Entry[aLookahead.Length + 25](_ => Entry(-1, -1));
        for j := 0 to nLookahead
          invariant grown[..j] == aLookahead[..j]
          modifies grown
        {
          grown[j] := aLookahead[j];
          assert grown[..j + 1] == grown[..j] + [aLookahead[j]];
        }
        aLookahead := grown;
      }
    }

    /** Keep the smallest lookahead, its action, and the largest lookahead up to date. */
    method Widen(lookahead: nat, action: int)
      requires Valid()
      modifies this`mnLookahead, this`mnAction, this`mxLookahead
      ensures mnLookahead <= lookahead <= mxLookahead
      ensures nLookahead > 0 ==> mnLookahead <= old(mnLookahead) && old(mxLookahead) <= mxLookahead
      ensures (mnLookahead == lookahead && mnAction == action)
           || (nLookahead > 0 && mnLookahead == old(mnLookahead) && mnAction == old(mnAction))
    {
      if nLookahead == 0 {
        mxLookahead, mnLookahead, mnAction := lookahead, lookahead, action;
      } else {
        if mxLookahead < lookahead {
          mxLookahead := lookahead;
        }
        if mnLookahead > lookahead {
          mnLookahead, mnAction := lookahead, action;
        }
      }
    }

    /** acttab_action: add one pair to the transaction set. */
    method Action(lookahead: nat, action: int)
      requires Valid()
      modifies this, aLookahead
      ensures Valid() && aAction == old(aAction) && (aLookahead == old(aLookahead) || fresh(aLookahead))
      ensures Pending() == old(Pending()) + [Entry(lookahead, action)]
      ensures Table() == old(Table())
    {
      ghost var was, e := Pending(), Entry(lookahead, action);
      GrowLookahead();
      assert aLookahead[..nLookahead] == was;
      Widen(lookahead, action);
      aLookahead[nLookahead] := Entry(lookahead, action);
      nLookahead := nLookahead + 1;
      assert aLookahead[..nLookahead] == was + [e];
      assert forall j :: 0 <= j < nLookahead - 1 ==> aLookahead[j] == was[j];
    }

    /** Room for the worst case, in which the set is appended. */
    method Reserve()
      requires Valid()
      modifies this`aAction
      ensures Valid() && (aAction == old(aAction) || fresh(aAction))
      ensures Table() == old(Table())
      ensures nAction + mxLookahead + 1 < aAction.Length
    {
      var n := mxLookahead + 1;
      if nAction + n >= aAction.Length {
        var grown := new Entry[nAction + (if n > 0 then n else 0) + aAction.Length + 20](_ => Entry(-1, -1));
        for i := 0 to aAction.Length
          invariant forall k :: 0 <= k < i ==> grown[k] == aAction[k]
          invariant forall k :: i <= k < grown.Length ==> grown[k].lookahead < 0
          modifies grown
        {
          grown[i] := aAction[i];
        }
        aAction := grown;
        assert Table() == old(Table());
      }
    }

    /** First test of the scan: are all slots of the set empty when its minimum goes to slot `i`,
        and is there no entry that already claims the resulting offset? */
    method FitsInEmptySlots(i: nat, ofst: int, ghost t: seq<Entry>, ghost s: set<Entry>) returns (ok: bool)
      requires Valid() && nLookahead > 0 && i < nAction + mnLookahead && nAction + mxLookahead + 1 < aAction.Length
      requires t == aAction[..] && s == Elems(Pending()) && Distinct(s) && |s| == nLookahead && ofst == i - mnLookahead
      ensures ok ==> Fits(t, s, ofst)
    {
      for j := 0 to nLookahead
        invariant forall m, k {:trigger SlotOf(aLookahead[m], ofst, k)}  ::
          0 <= m < j && SlotOf(aLookahead[m], ofst, k) ==> 0 <= k < aAction.Length && aAction[k].lookahead < 0
      {
        var k := aLookahead[j].lookahead - mnLookahead + i;
        if k < 0 || aAction[k].lookahead >= 0 {
          return false;
        }
      }
      for j := 0 to nAction
        invariant forall m :: 0 <= m < j ==> aAction[m].lookahead != m + mnLookahead - i
      {
        if aAction[j].lookahead == j + mnLookahead - i {
          return false;
        }
      }
      forall x: nat ensures Find(aAction[..], ofst, x) == FindIn({}, x) {
        assert ofst + x < nAction && 0 <= ofst + x ==> aAction[ofst + x].lookahead != (ofst + x) + mnLookahead - i;
      }
      return true;
    }

    /** Second test: is the whole set already there, and nothing else at its offset? */
    method SameAsPrior(i: nat, ofst: int, ghost t: seq<Entry>, ghost s: set<Entry>) returns (ok: bool)
      requires Valid() && nLookahead > 0 && i < nAction + mnLookahead && nAction + mxLookahead + 1 < aAction.Length
      requires t == aAction[..] && s == Elems(Pending()) && Distinct(s) && |s| == nLookahead && ofst == i - mnLookahead
      ensures ok ==> Fits(t, s, ofst)
    {
      for j := 0 to nLookahead
        invariant forall m, k {:trigger SlotOf(aLookahead[m], ofst, k)}  ::
          0 <= m < j && SlotOf(aLookahead[m], ofst, k) ==> 0 <= k < aAction.Length && aAction[k] == aLookahead[m]
      {
        var k := aLookahead[j].lookahead - mnLookahead + i;
        if k < 0 || k >= nAction || aLookahead[j].lookahead != aAction[k].lookahead
          || aLookahead[j].action != aAction[k].action {
          return false;
        }
      }
      var n := CountClaimed(i);
      if n != nLookahead {
        return false;
      }
      assert AllThere(aAction[..], Elems(Pending()), ofst);
      SameSet(aAction[..], Elems(Pending()), ofst);
      return true;
    }

    method CountClaimed(i: nat) returns (n: nat)
      requires Valid()
      ensures n == |Claimed(aAction[..], i - mnLookahead)|
    {
      ghost var ofst := i - mnLookahead;
      n := 0;
      ghost var t := aAction[..];
      for j := 0 to nAction
        invariant aAction[..] == t
        invariant n == |Claimed(t[..j], ofst)|
      {
        assert Claimed(t[..j + 1], ofst) == Claimed(t[..j], ofst) + if 0 <= t[j].lookahead == j - ofst then {j} else {};
        if aAction[j].lookahead >= 0 && aAction[j].lookahead == j + mnLookahead - i {
          n := n + 1;
        }
      }
      assert Claimed(t, ofst) == Claimed(t[..nAction], ofst);
    }

    /** One turn of the scan. */
    method TryAt(i: nat, ofst: int, ghost t: seq<Entry>, ghost s: set<Entry>) returns (found: bool)
      requires Valid() && nLookahead > 0 && i < nAction + mnLookahead && nAction + mxLookahead + 1 < aAction.Length
      requires t == aAction[..] && s == Elems(Pending()) && Distinct(s) && |s| == nLookahead && ofst == i - mnLookahead
      ensures found ==> Fits(t, s, ofst)
    {
      found := false;
      if aAction[i].lookahead < 0 {
        found := FitsInEmptySlots(i, ofst, t, s);
      } else if aAction[i].lookahead == mnLookahead && aAction[i].action == mnAction {
        found := SameAsPrior(i, ofst, t, s);
      }
    }

    /** Scan for an offset that takes the pending set; in the worst case it is appended. */
    method Search(ghost t: seq<Entry>, ghost s: set<Entry>) returns (ofst: int)
      requires Valid() && nLookahead > 0 && nAction + mxLookahead + 1 < aAction.Length
      requires t == aAction[..] && s == Elems(Pending()) && Distinct(s) && |s| == nLookahead
      ensures -mnLookahead <= ofst <= nAction && Fits(t, s, ofst)
    {
      ghost var p := Pending();
      var i := 0;
      ofst := -mnLookahead;
      while i < nAction + mnLookahead
        invariant 0 <= i <= nAction + mnLookahead && ofst == i - mnLookahead
        invariant aAction[..] == t && Pending() == p
      {
        var found := TryAt(i, ofst, t, s);
        if found { return; }
        i := i + 1;
        ofst := i - mnLookahead;
      }
      AppendedFits(ofst, t, s);
    }

    lemma AppendedFits(ofst: int, t: seq<Entry>, s: set<Entry>)
      requires Valid() && nAction + mxLookahead + 1 < aAction.Length
      requires t == aAction[..] && s == Elems(Pending()) && Distinct(s)
      requires ofst == nAction
      ensures Fits(t, s, ofst)
    {
      assert Padded(Table(), t);
      AppendFits(Table(), t, s, mxLookahead);
    }

    /** Copy the set `s[..n]` into the table at offset `ofst`; the used part of the table grows
        from `used` to `top`. */
    static method Place(a: array<Entry>, s: array<Entry>, n: nat, ofst: int, used: nat) returns (top: nat)
      requires a != s && n <= s.Length && used <= a.Length
      requires Distinct(Elems(s[..n])) && |Elems(s[..n])| == n
      requires forall j :: 0 <= j < n ==> 0 <= ofst + s[j].lookahead < a.Length
      requires forall k :: used <= k < a.Length ==> a[k].lookahead < 0
      modifies a
      ensures Written(old(a[..]), a[..], Elems(s[..n]), ofst)
      ensures used <= top <= a.Length && forall k :: top <= k < a.Length ==> a[k].lookahead < 0
    {
      top := used;
      for j := 0 to n
        invariant used <= top <= a.Length && forall k :: top <= k < a.Length ==> a[k].lookahead < 0
        invariant OnlyAdds(old(a[..]), a[..], Elems(s[..n]), ofst)
        invariant AllThere(a[..], Elems(s[..j]), ofst)
      {
        var k := ofst + s[j].lookahead;
        a[k] := s[j];
        if k >= top {
          top := k + 1;
        }
        assert s[j] in Elems(s[..n]) && SlotOf(s[j], ofst, k);
        NewEntry(s[..n], j);
      }
    }

    /** Write the pending set at offset `ofst`. */
    method InsertAt(ofst: int, ghost t: seq<Entry>, ghost s: set<Entry>)
      requires Valid() && -mnLookahead <= ofst <= nAction && nAction + mxLookahead + 1 < aAction.Length
      requires t == aAction[..] && s == Elems(Pending()) && Distinct(s) && |s| == nLookahead
      modifies this`nAction, aAction
      ensures Valid() && Written(t, aAction[..], s, ofst)
    {
      nAction := Place(aAction, aLookahead, nLookahead, ofst, nAction);
    }

    /** The scan and the write, in terms of all allocated slots `t`. */
    method InsertReserved(ghost t: seq<Entry>, ghost s: set<Entry>) returns (ofst: int)
      requires Valid() && nLookahead > 0 && nAction + mxLookahead + 1 < aAction.Length
      requires t == aAction[..] && s == Elems(Pending()) && Distinct(s) && |s| == nLookahead
      modifies this`nAction, aAction
      ensures Valid()
      ensures RowIs(aAction[..], ofst, s) && RowsKept(t, aAction[..], ofst)
      ensures RowIs(t, ofst, {}) || RowIs(t, ofst, s)
    {
      ofst := Search(t, s);
      InsertAt(ofst, t, s);
      WrittenRows(t, aAction[..], s, ofst);
    }

    /** acttab_insert: the pending set gets an offset at which the driver finds exactly that set,
        and no earlier offset answers differently. */
    method Insert() returns (ofst: int)
      requires Valid() && nLookahead > 0
      requires Distinct(Elems(Pending())) && |Elems(Pending())| == nLookahead
      modifies this, aAction
      ensures Valid() && nLookahead == 0 && aLookahead == old(aLookahead) && (aAction == old(aAction) || fresh(aAction))
      ensures RowIs(Table(), ofst, Elems(old(Pending()))) && RowsKept(old(Table()), Table(), ofst)
      ensures RowIs(old(Table()), ofst, {}) || RowIs(old(Table()), ofst, Elems(old(Pending())))
    {
      ghost var t0, s := Table(), Elems(Pending());
      Reserve();
      ghost var t := aAction[..];
      assert t[..|t0|] == t0;
      assert Elems(Pending()) == s;
      ofst := InsertReserved(t, s);
      UsedRows(t0, t, Table(), aAction[..], s, ofst);
      nLookahead := 0;
    }
  }

  lemma NewEntry(s: seq<Entry>, j: nat)
    requires j < |s| && Distinct(Elems(s)) && |Elems(s)| == |s|
    ensures Elems(s[..j + 1]) == Elems(s[..j]) + {s[j]}
    ensures forall e :: e in Elems(s[..j]) ==> e in Elems(s) && e.lookahead != s[j].lookahead
  {
    DistinctPrefix(s, j);
    assert s[..j + 1] == s[..j] + [s[j]];
  }

  /** A sequence with as many elements as entries repeats none. */
  lemma {:induction false} DistinctPrefix(s: seq<Entry>, j: nat)
    requires j < |s| && |Elems(s)| == |s|
    ensures s[j] !in s[..j]
    decreases |s|
  {
    var n := |s| - 1;
    assert s == s[..n] + [s[n]];
    assert Elems(s) == Elems(s[..n]) + {s[n]};
    ElemsBound(s[..n]);
    if j < n {
      DistinctPrefix(s[..n], j);
      assert s[..n][..j] == s[..j];
    }
  }

  lemma {:induction false} ElemsBound(s: seq<Entry>)
    ensures |Elems(s)| <= |s|
    decreases |s|
  {
    if s != [] {
      var n := |s| - 1;
      assert s == s[..n] + [s[n]];
      assert Elems(s) == Elems(s[..n]) + {s[n]};
      ElemsBound(s[..n]);
    }
  }

  /** The rows after an insertion, seen through the used parts `t0` and `u0` of the table. */
  lemma UsedRows(t0: seq<Entry>, t: seq<Entry>, u0: seq<Entry>, u: seq<Entry>, s: set<Entry>, ofst: int)
    requires Padded(t0, t) && Padded(u0, u) && RowIs(u, ofst, s) && RowsKept(t, u, ofst)
    requires RowIs(t, ofst, {}) || RowIs(t, ofst, s)
    ensures RowIs(u0, ofst, s) && RowsKept(t0, u0, ofst)
    ensures RowIs(t0, ofst, {}) || RowIs(t0, ofst, s)
  {
    forall o: int, x: nat ensures Find(t, o, x) == Find(t0, o, x) && Find(u, o, x) == Find(u0, o, x) {
      PaddedFind(t0, t, o, x);
      PaddedFind(u0, u, o, x);
    }
  }
}
