/** What insertion and replacement do to the entries, without the index: the first entry whose key is the same
    but for case is the one that matters. */
module ArrayLaws {
  import opened Octets
  import opened Options
  import opened Caseless
  import opened ArrayIndex

  /** The first entry with this key, the case of letters aside. */
  ghost predicate FirstWith(items: seq<Item>, key: Key, j: nat) {
    && j < |items| && Folded(items[j].key) == Folded(key)
    && forall i :: 0 <= i < j ==> Folded(items[i].key) != Folded(key)
  }

  ghost predicate NoneWith(items: seq<Item>, key: Key) {
    forall i :: 0 <= i < |items| ==> Folded(items[i].key) != Folded(key)
  }

  /** All but entry `j` are as they were. */
  ghost predicate OnlyAt(was: seq<Item>, now: seq<Item>, j: nat) {
    |was| == |now| && forall i :: 0 <= i < |was| && i != j ==> now[i] == was[i]
  }

  lemma {:induction false} ScanIsFirst(items: seq<Item>, key: Key)
    ensures match Scan(items, key) case Some(j) => FirstWith(items, key, j) case None => NoneWith(items, key)
  {
    hide Folded, Compare;
    if items != [] {
      EqualIgnoringCase(key, items[0].key);
      ScanIsFirst(items[1..], key);
    }
  }

  lemma FirstUnique(items: seq<Item>, key: Key, i: nat, j: nat)
    requires FirstWith(items, key, i) && FirstWith(items, key, j)
    ensures i == j
  {
    hide Folded;
  }

  /** An entry that has its own key, inserted.  If the key is there already, only the first entry with it
      changes, and only if it is of the same kind: its value becomes what insert_dup makes of both.
      Otherwise the entry comes last. */
  lemma InsertMeans(bytes: set<Byte>, x: Index, item: Item, dup: (int, int) -> int, j: nat)
    requires InOrder(bytes, x) && Over(bytes, item.key) && item.key != [] && !item.isIndexKey
    ensures var now := AfterInsert(x, item, dup).items;
      && (NoneWith(x.items, item.key) && |x.items| < 0x7FFF_FFFF ==> now == x.items + [item])
      && (NoneWith(x.items, item.key) && |x.items| >= 0x7FFF_FFFF ==> now == x.items)
      && (FirstWith(x.items, item.key, j) ==>
            && OnlyAt(x.items, now, j) && now[j].key == x.items[j].key && now[j].kind == x.items[j].kind
            && now[j].isIndexKey == x.items[j].isIndexKey
            && now[j].value ==
                 if item.kind == x.items[j].kind then dup(x.items[j].value, item.value) else x.items[j].value)
    ensures AfterInsert(x, item, dup).nextKey == x.nextKey
  {
    InsertInOrder(bytes, x, item, dup);
    ScanIsFirst(x.items, item.key);
    NumberKept(x, item, dup);
    hide Folded, InOrder, Over, AfterInsert, Scan;
    match Scan(x.items, item.key) {
      case Some(i) =>
        if FirstWith(x.items, item.key, j) {
          FirstUnique(x.items, item.key, i, j);
        }
      case None =>
    }
  }

  lemma NumberKept(x: Index, item: Item, dup: (int, int) -> int)
    requires Shaped(x) && item.key != [] && !item.isIndexKey
    ensures AfterInsert(x, item, dup).nextKey == x.nextKey
  {
    hide Shaped, Find, Spot;
  }

  /** An entry replaced: the first one with its key becomes the new entry, whatever its kind; if there is none,
      the new one is inserted. */
  lemma ReplaceMeans(bytes: set<Byte>, x: Index, item: Item, dup: (int, int) -> int, j: nat)
    requires InOrder(bytes, x) && Over(bytes, item.key)
    ensures var now := AfterReplace(x, item, dup);
      && (FirstWith(x.items, item.key, j) ==> OnlyAt(x.items, now.items, j) && now.items[j] == item)
      && (NoneWith(x.items, item.key) ==> now == AfterInsert(x, item, dup))
  {
    FindIsScan(bytes, x, item.key);
    ScanIsFirst(x.items, item.key);
    hide Folded, InOrder, Over, AfterInsert, Scan, Find;
    match Scan(x.items, item.key) {
      case Some(i) =>
        if FirstWith(x.items, item.key, j) {
          FirstUnique(x.items, item.key, i, j);
        }
      case None =>
    }
  }
}
