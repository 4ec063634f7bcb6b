/** lighttpd's array: entries in order of arrival, with an index that is searched by halving
    steps and is in key order as long as the comparison is an order. */
module ArrayIndex {
  import opened Octets
  import opened Options
  import opened Caseless

  // ----- the search

  /** Keys in strictly increasing order. */
  ghost predicate Sorted(ks: seq<Key>) {
    forall i, j :: 0 <= i < j < |ks| ==> Compare(ks[i], ks[j]) < 0
  }

  ghost predicate AllOver(bytes: set<Byte>, ks: seq<Key>) {
    forall i :: 0 <= i < |ks| ==> Over(bytes, ks[i])
  }

  /** `t` is where `key` is, or where it belongs. */
  ghost predicate RankIs(ks: seq<Key>, key: Key, t: nat) {
    && t <= |ks| && (forall i :: 0 <= i < t ==> Compare(key, ks[i]) > 0)
    && (t < |ks| ==> Compare(key, ks[t]) <= 0) && (forall i :: t < i < |ks| ==> Compare(key, ks[i]) < 0)
  }

  ghost predicate Present(ks: seq<Key>, key: Key, t: nat) {
    t < |ks| && Compare(key, ks[t]) == 0
  }

  lemma {:induction false} RankExists(bytes: set<Byte>, ks: seq<Key>, key: Key) returns (t: nat)
    requires !Clash(bytes) && Sorted(ks) && AllOver(bytes, ks) && Over(bytes, key)
    ensures RankIs(ks, key, t)
  {
    if ks == [] {
      t := 0;
    } else if Compare(key, ks[0]) <= 0 {
      t := 0;
      forall i | 0 < i < |ks| ensures Compare(key, ks[i]) < 0 {
        CompareTrans(bytes, key, ks[0], ks[i]);
      }
    } else {
      t := RankExists(bytes, ks[1..], key);
      t := t + 1;
      assert forall i :: 1 <= i < |ks| ==> ks[i] == ks[1..][i - 1];
    }
  }

  predicate PowerOfTwo(n: nat) {
    n == 1 || (n > 0 && n % 2 == 0 && PowerOfTwo(n / 2))
  }

  /** Where the loop looks next. */
  function Next(ks: seq<Key>, key: Key, pos: int, i: nat): int {
    if pos < 0 then pos + i else if pos >= |ks| || Compare(key, ks[pos]) < 0 then pos - i else pos + i
  }

  /** array_get_index from one turn of its loop on: the place where the key was found, and the last
      position. */
  function Search(ks: seq<Key>, key: Key, pos: int, i: nat): (r: (Option<nat>, int))
    ensures r.0.Some? ==> r.0.value < |ks| && Compare(key, ks[r.0.value]) == 0
    decreases i
  {
    if 0 <= pos < |ks| && Compare(key, ks[pos]) == 0 then (Some(pos), pos)
    else if i == 0 then (None, Next(ks, key, pos, 0))
    else Search(ks, key, Next(ks, key, pos, i), i / 2)
  }

  /** How far outside of the index a turn with step `i` may start. */
  predicate Within(n: nat, pos: int, i: nat) {
    if i == 0 then -1 <= pos <= n else -2 * i <= pos < n + 2 * i
  }

  /** Whatever the keys and their order, a search that fails ends at most one place outside. */
  lemma {:induction false} SearchBounded(ks: seq<Key>, key: Key, pos: int, i: nat)
    requires (i == 0 || PowerOfTwo(i)) && Within(|ks|, pos, i)
    ensures var (found, last) := Search(ks, key, pos, i); found.None? ==> -1 <= last <= |ks|
    decreases i
  {
    hide Compare;
    if i > 0 && !(0 <= pos < |ks| && Compare(key, ks[pos]) == 0) {
      assert i == 1 || i % 2 == 0;
      SearchBounded(ks, key, Next(ks, key, pos, i), i / 2);
    }
  }

  /** How far from the goal a turn with step `i` may start: in units of half a place, because a
      missing key belongs between two places. */
  predicate Near(goal: int, pos: int, i: nat) {
    var reach := if i == 0 then 1 else 4 * i - 1;
    -reach <= 2 * pos - goal <= reach
  }

  function Goal(t: nat, present: bool): int {
    if present then 2 * t else 2 * t - 1
  }

  /** A search that starts near enough finds the key exactly if it is there, and otherwise ends
      within one place of where it belongs. */
  lemma {:induction false} SearchFinds(ks: seq<Key>, key: Key, t: nat, pos: int, i: nat)
    requires RankIs(ks, key, t) && (i == 0 || PowerOfTwo(i))
    requires Near(Goal(t, Present(ks, key, t)), pos, i) && (Present(ks, key, t) && i == 0 ==> pos == t)
    ensures var (found, last) := Search(ks, key, pos, i);
      && found == (if Present(ks, key, t) then Some(t) else None)
      && (found.None? ==> last == t || last == t - 1)
    decreases i
  {
    hide Compare;
    if i > 0 && !(0 <= pos < |ks| && Compare(key, ks[pos]) == 0) {
      assert i == 1 || i % 2 == 0;
      SearchFinds(ks, key, t, Next(ks, key, pos, i), i / 2);
    }
  }

  /** The first turn. */
  function Lookup(ks: seq<Key>, key: Key, power: nat): (r: (Option<nat>, int))
    requires PowerOfTwo(power)
    ensures r.0.Some? ==> r.0.value < |ks| && Compare(key, ks[r.0.value]) == 0
    ensures r.0.None? ==> -1 <= r.1 <= |ks|
  {
    SearchBounded(ks, key, power / 2, power / 2);
    Search(ks, key, power / 2, power / 2)
  }

  lemma LookupFinds(bytes: set<Byte>, ks: seq<Key>, key: Key, power: nat) returns (t: nat)
    requires !Clash(bytes) && Sorted(ks) && AllOver(bytes, ks) && Over(bytes, key)
    requires PowerOfTwo(power) && |ks| <= power
    ensures RankIs(ks, key, t)
    ensures var (found, last) := Lookup(ks, key, power);
      && found == (if Present(ks, key, t) then Some(t) else None)
      && (found.None? ==> last == t || last == t - 1)
  {
    hide Compare, Sorted, Clash, Search, Over, AllOver;
    t := RankExists(bytes, ks, key);
    assert power == 1 || power % 2 == 0;
    SearchFinds(ks, key, t, power / 2, power / 2);
  }

  // ----- the array as a value

  /** An entry; the value stands for whatever its type holds. */
  datatype Item = Item(key: Key, isIndexKey: bool, kind: nat, value: int)

  /** The reference: the first entry with an equal key, in order of arrival. */
  function Scan(items: seq<Item>, key: Key): (r: Option<nat>)
    ensures r.Some? ==> r.value < |items| && Compare(key, items[r.value].key) == 0
    ensures r.None? ==> forall j :: 0 <= j < |items| ==> Compare(key, items[j].key) != 0
  {
    if items == [] then None
    else if Compare(key, items[0].key) == 0 then Some(0)
    else match Scan(items[1..], key)
      case None => None
      case Some(j) => Some(j + 1)
  }

  function KeysOf(items: seq<Item>, order: seq<nat>): (ks: seq<Key>)
    requires forall i :: 0 <= i < |order| ==> order[i] < |items|
    ensures |ks| == |order| && forall i :: 0 <= i < |ks| ==> ks[i] == items[order[i]].key
  {
    seq(|order|, i requires 0 <= i < |order| => items[order[i]].key)
  }

  /** Every slot below `n` occurs once. */
  ghost predicate AllSlots(order: seq<nat>, n: nat) {
    && |order| == n && (forall i :: 0 <= i < |order| ==> order[i] < n)
    && (forall i, j :: 0 <= i < j < |order| ==> order[i] != order[j])
    && (forall s :: 0 <= s < n ==> s in order)
  }

  /** memmove and store: slot `n` goes to position `pos` of the index. */
  function Placed(order: seq<nat>, pos: nat, n: nat): seq<nat>
    requires pos <= |order|
  {
    order[..pos] + [n] + order[pos..]
  }

  /** The keys in their new order. */
  lemma PlacedSorted(ks: seq<Key>, t: nat, key: Key)
    requires Sorted(ks) && RankIs(ks, key, t) && !Present(ks, key, t)
    ensures Sorted(ks[..t] + [key] + ks[t..])
  {
    hide Compare;
    assert t < |ks| ==> Compare(key, ks[t]) < 0;
    var now := ks[..t] + [key] + ks[t..];
    forall i, j | 0 <= i < j < |now| ensures Compare(now[i], now[j]) < 0 {
      if j == t {
        CompareSym(key, ks[i]);
        assert Compare(key, ks[i]) > 0 && now[j] == key;
      } else if i == t {
        assert now[j] == ks[j - 1] && Compare(key, ks[j - 1]) < 0;
      } else {
        assert now[i] == ks[if i < t then i else i - 1] && now[j] == ks[if j < t then j else j - 1];
      }
    }
  }

  lemma PlacedSlots(order: seq<nat>, t: nat, n: nat)
    requires AllSlots(order, n) && t <= |order|
    ensures AllSlots(Placed(order, t, n), n + 1)
  {
    var now := Placed(order, t, n);
    forall s | 0 <= s < n + 1 ensures s in now {
      if s < n {
        assert s in order;
        var i :| 0 <= i < |order| && order[i] == s;
        assert now[if i < t then i else i + 1] == s;
      } else {
        assert now[t] == n;
      }
    }
  }

  lemma PlacedKeys(items: seq<Item>, order: seq<nat>, t: nat, item: Item)
    requires (forall i :: 0 <= i < |order| ==> order[i] < |items|) && t <= |order|
    requires forall i :: 0 <= i < |order| + 1 ==> Placed(order, t, |items|)[i] < |items| + 1
    ensures KeysOf(items + [item], Placed(order, t, |items|)) == KeysOf(items, order)[..t] + [item.key]
      + KeysOf(items, order)[t..]
  {
  }

  /** The slot and the generated key of an entry without one. */
  function Digits(n: nat): (k: Key)
    ensures Over(GENERATED, k)
  {
    (if n < 10 then [] else Digits(n / 10)) + [48 + n % 10]
  }

  /** The bytes of generated keys: digits and the terminator. */
  const GENERATED: set<Byte> := {0, 48, 49, 50, 51, 52, 53, 54, 55, 56, 57}

  /** buffer_copy_long, with its terminator. */
  function IndexKey(n: nat): (k: Key)
    ensures Over(GENERATED, k) && k != []
  {
    Digits(n) + [0]
  }

  predicate NeedsKey(item: Item) {
    item.key == [] || item.isIndexKey
  }

  function Keyed(item: Item, n: nat): Item {
    if NeedsKey(item) then item.(key := IndexKey(n), isIndexKey := true) else item
  }

  const INT_MAX := 0x7FFF_FFFF

  /** The entries, the slots in the order of the index, next_power_of_2, and unique_ndx. */
  datatype Index = Index(items: seq<Item>, order: seq<nat>, power: nat, nextKey: nat)

  const EMPTY := Index([], [], 1, 0)

  /** What holds with keys of any kind: the index lists every slot once. */
  ghost predicate Shaped(x: Index) {
    AllSlots(x.order, |x.items|) && PowerOfTwo(x.power) && |x.items| <= x.power
  }

  ghost function Names(x: Index): (ks: seq<Key>)
    requires Shaped(x)
    ensures |ks| == |x.items|
  {
    KeysOf(x.items, x.order)
  }

  /** array_get_index: the slot, and the last position. */
  ghost function Find(x: Index, key: Key): (r: (Option<nat>, int))
    requires Shaped(x)
    ensures r.0.Some? ==> r.0.value < |x.items| && Compare(key, x.items[r.0.value].key) == 0
    ensures r.0.None? ==> -1 <= r.1 <= |x.items|
  {
    var (found, last) := Lookup(Names(x), key, x.power);
    (match found case None => None case Some(p) => Some(x.order[p]), last)
  }

  /** The last position of a failed search, moved to behind a smaller key. */
  ghost function Spot(x: Index, key: Key, last: int): (at: nat)
    requires Shaped(x) && -1 <= last <= |x.items|
    ensures at <= |x.items|
  {
    if last != |x.items| && (last < 0 || Compare(key, Names(x)[last]) > 0) then last + 1 else last
  }

  ghost function Added(x: Index, item: Item, at: nat): (y: Index)
    requires Shaped(x) && at <= |x.items|
    ensures Shaped(y)
  {
    PlacedSlots(x.order, at, |x.items|);
    Index(x.items + [item], Placed(x.order, at, |x.items|),
          if x.power == |x.items| then 2 * x.power else x.power, x.nextKey)
  }

  ghost function Stored(x: Index, slot: nat, item: Item): (y: Index)
    requires Shaped(x) && slot < |x.items|
    ensures Shaped(y)
  {
    x.(items := x.items[slot := item])
  }

  lemma StoredSame(x: Index, slot: nat)
    requires Shaped(x) && slot < |x.items|
    ensures Stored(x, slot, x.items[slot]) == x
  {
    assert x.items[slot := x.items[slot]] == x.items;
  }

  /** The entry that stays when another one with its key comes. */
  function Merged(was: Item, item: Item, dup: (int, int) -> int): Item {
    if was.kind == item.kind then was.(value := dup(was.value, item.value)) else was
  }

  ghost function WithItem(x: Index, item: Item, dup: (int, int) -> int): (y: Index)
    requires Shaped(x)
    ensures Shaped(y)
  {
    match Find(x, item.key)
    case (Some(j), _) => Stored(x, j, Merged(x.items[j], item, dup))
    case (None, last) => if |x.items| + 1 > INT_MAX then x else Added(x, item, Spot(x, item.key, last))
  }

  ghost function Numbered(x: Index, str: Item): (y: Index)
    requires Shaped(x)
    ensures Shaped(y)
  {
    x.(nextKey := if NeedsKey(str) then x.nextKey + 1 else x.nextKey)
  }

  /** array_insert_unique */
  ghost function AfterInsert(x: Index, str: Item, dup: (int, int) -> int): (y: Index)
    requires Shaped(x)
    ensures Shaped(y)
  {
    WithItem(Numbered(x, str), Keyed(str, x.nextKey), dup)
  }

  /** array_replace */
  ghost function AfterReplace(x: Index, du: Item, dup: (int, int) -> int): (y: Index)
    requires Shaped(x)
    ensures Shaped(y)
  {
    match Find(x, du.key).0
    case None => AfterInsert(x, du, dup)
    case Some(j) => Stored(x, j, du)
  }

  /** array_reset */
  function AfterReset(x: Index): Index {
    x.(items := [], order := [])
  }

  // ----- what the index is for: the entries as a plain list

  /** What inserting means for the entries. */
  function Inserted(items: seq<Item>, item: Item, dup: (int, int) -> int): seq<Item> {
    match Scan(items, item.key)
    case Some(j) => items[j := Merged(items[j], item, dup)]
    case None => if |items| + 1 > INT_MAX then items else items + [item]
  }

  /** What replacing means for them; `n` is the number for the next generated key. */
  function Replaced(items: seq<Item>, du: Item, n: nat, dup: (int, int) -> int): seq<Item> {
    match Scan(items, du.key)
    case Some(j) => items[j := du]
    case None => Inserted(items, Keyed(du, n), dup)
  }

  /** An alphabet without a clash, with the bytes of generated keys. */
  ghost predicate Orderly(bytes: set<Byte>) {
    !Clash(bytes) && GENERATED <= bytes
  }

  ghost predicate ItemsOver(bytes: set<Byte>, items: seq<Item>) {
    forall i :: 0 <= i < |items| ==> Over(bytes, items[i].key)
  }

  /** The keys are over an alphabet without a clash, and the index is in key order. */
  ghost predicate InOrder(bytes: set<Byte>, x: Index) {
    Orderly(bytes) && Shaped(x) && ItemsOver(bytes, x.items) && Sorted(Names(x))
  }

  lemma InOrderFacts(bytes: set<Byte>, x: Index)
    requires InOrder(bytes, x)
    ensures Shaped(x) && ItemsOver(bytes, x.items)
  {
  }

  lemma NamesOver(bytes: set<Byte>, x: Index)
    requires Shaped(x) && ItemsOver(bytes, x.items)
    ensures AllOver(bytes, Names(x))
  {
    hide Over;
  }

  /** Equal keys stand at one place only. */
  lemma RankUnique(ks: seq<Key>, key: Key, t: nat, p: nat)
    requires RankIs(ks, key, t) && p < |ks| && Compare(key, ks[p]) == 0
    ensures p == t && Present(ks, key, t)
  {
    hide Compare;
  }

  /** The indexed search gives what a linear scan gives. */
  lemma FindIsScan(bytes: set<Byte>, x: Index, key: Key)
    requires InOrder(bytes, x) && Over(bytes, key)
    ensures Find(x, key).0 == Scan(x.items, key)
  {
    hide Lookup, Compare, Sorted, Clash, Over, PowerOfTwo;
    NamesOver(bytes, x);
    var ks := Names(x);
    var t := LookupFinds(bytes, ks, key, x.power);
    match Scan(x.items, key) {
      case Some(j) =>
        assert j in x.order;
        var p :| 0 <= p < |x.order| && x.order[p] == j;
        RankUnique(ks, key, t, p);
      case None =>
        assert t < |ks| ==> ks[t] == x.items[x.order[t]].key;
    }
  }

  /** The correction by one place gives the place where a missing key belongs. */
  lemma SpotIsRank(bytes: set<Byte>, x: Index, key: Key)
    requires InOrder(bytes, x) && Over(bytes, key) && Find(x, key).0 == None
    ensures var at := Spot(x, key, Find(x, key).1); RankIs(Names(x), key, at) && !Present(Names(x), key, at)
  {
    hide Lookup, Compare, Sorted, Clash, Over, PowerOfTwo;
    NamesOver(bytes, x);
    var t := LookupFinds(bytes, Names(x), key, x.power);
  }

  /** A new entry at its place keeps the index in order. */
  lemma AddedInOrder(bytes: set<Byte>, x: Index, item: Item, at: nat)
    requires InOrder(bytes, x) && Over(bytes, item.key) && at <= |x.items|
    requires RankIs(Names(x), item.key, at) && !Present(Names(x), item.key, at)
    ensures InOrder(bytes, Added(x, item, at))
  {
    hide Compare, Sorted, Clash, Over, RankIs, Present, PowerOfTwo;
    var y := Added(x, item, at);
    PlacedKeys(x.items, x.order, at, item);
    PlacedSorted(Names(x), at, item.key);
  }

  /** So does an entry that takes the slot of one with an equal key. */
  lemma StoredInOrder(bytes: set<Byte>, x: Index, slot: nat, item: Item)
    requires InOrder(bytes, x) && Over(bytes, item.key) && slot < |x.items|
    requires Compare(item.key, x.items[slot].key) == 0
    ensures InOrder(bytes, Stored(x, slot, item))
  {
    hide Compare, Clash, Over, PowerOfTwo;
    NamesOver(bytes, x);
    var y := Stored(x, slot, item);
    var ks, ks' := Names(x), Names(y);
    CompareSym(item.key, x.items[slot].key);
    forall i, j | 0 <= i < j < |ks'| ensures Compare(ks'[i], ks'[j]) < 0 {
      assert Compare(ks[i], ks[j]) < 0;
      if x.order[i] == slot {
        CompareTrans(bytes, item.key, ks[i], ks[j]);
      } else if x.order[j] == slot {
        CompareTrans(bytes, ks[i], ks[j], item.key);
      }
    }
  }

  lemma WithItemInOrder(bytes: set<Byte>, x: Index, item: Item, dup: (int, int) -> int)
    requires InOrder(bytes, x) && Over(bytes, item.key)
    ensures InOrder(bytes, WithItem(x, item, dup)) && WithItem(x, item, dup).items == Inserted(x.items, item, dup)
  {
    hide InOrder, Shaped, Lookup, Compare, Over, RankIs, Present, Find, Spot, Scan;
    InOrderFacts(bytes, x);
    FindIsScan(bytes, x, item.key);
    match Find(x, item.key) {
      case (Some(j), _) =>
        CompareSelf(x.items[j].key);
        StoredInOrder(bytes, x, j, Merged(x.items[j], item, dup));
      case (None, last) =>
        SpotIsRank(bytes, x, item.key);
        if |x.items| + 1 <= INT_MAX {
          AddedInOrder(bytes, x, item, Spot(x, item.key, last));
        }
    }
  }

  lemma KeyedOver(bytes: set<Byte>, str: Item, n: nat)
    requires Orderly(bytes) && Over(bytes, str.key)
    ensures Over(bytes, Keyed(str, n).key)
  {
    var k := IndexKey(n);
    assert forall i :: 0 <= i < |k| ==> k[i] in GENERATED;
  }

  /** Over an alphabet without a clash inserting does to the entries what it means, and the index
      stays in order. */
  lemma InsertInOrder(bytes: set<Byte>, x: Index, str: Item, dup: (int, int) -> int)
    requires InOrder(bytes, x) && Over(bytes, str.key)
    ensures var y := AfterInsert(x, str, dup);
      InOrder(bytes, y) && y.items == Inserted(x.items, Keyed(str, x.nextKey), dup)
  {
    hide Compare, Clash, Over, Sorted, Keyed, WithItem, Inserted;
    KeyedOver(bytes, str, x.nextKey);
    assert Names(Numbered(x, str)) == Names(x);
    WithItemInOrder(bytes, Numbered(x, str), Keyed(str, x.nextKey), dup);
  }

  lemma ReplaceInOrder(bytes: set<Byte>, x: Index, du: Item, dup: (int, int) -> int)
    requires InOrder(bytes, x) && Over(bytes, du.key)
    ensures var y := AfterReplace(x, du, dup);
      InOrder(bytes, y) && y.items == Replaced(x.items, du, x.nextKey, dup)
  {
    hide Compare, Clash, Over, Sorted, Keyed, AfterInsert, Inserted, Find, Scan;
    FindIsScan(bytes, x, du.key);
    match Find(x, du.key).0 {
      case Some(j) => StoredInOrder(bytes, x, j, du);
      case None => InsertInOrder(bytes, x, du, dup);
    }
  }

  lemma ResetInOrder(bytes: set<Byte>, x: Index)
    requires InOrder(bytes, x)
    ensures InOrder(bytes, AfterReset(x))
  {
    hide Compare, Clash, Over;
  }

  // ----- runs

  datatype Call = Insert(item: Item) | Replace(item: Item) | Reset

  /** A terminated string over some bytes, or none. */
  ghost predicate Text(bytes: set<Byte>, key: Key) {
    key == [] || (key[|key| - 1] == 0 && Over(bytes, key[..|key| - 1]))
  }

  ghost predicate Written(bytes: set<Byte>, calls: seq<Call>) {
    forall i :: 0 <= i < |calls| ==> !calls[i].Reset? ==> Text(bytes, calls[i].item.key)
  }

  ghost function Step(x: Index, call: Call, dup: (int, int) -> int): (y: Index)
    requires Shaped(x)
    ensures Shaped(y)
  {
    match call
    case Insert(item) => AfterInsert(x, item, dup)
    case Replace(item) => AfterReplace(x, item, dup)
    case Reset => AfterReset(x)
  }

  ghost function Run(x: Index, calls: seq<Call>, dup: (int, int) -> int): (y: Index)
    requires Shaped(x)
    ensures Shaped(y)
    decreases |calls|
  {
    if calls == [] then x else Run(Step(x, calls[0], dup), calls[1..], dup)
  }

  lemma TextOver(bytes: set<Byte>, key: Key)
    requires Text(bytes, key)
    ensures Over(bytes + GENERATED, key)
  {
    if key != [] {
      assert forall i :: 0 <= i < |key| - 1 ==> key[i] == key[..|key| - 1][i];
    }
  }

  lemma {:induction false} RunInOrder(bytes: set<Byte>, x: Index, calls: seq<Call>, dup: (int, int) -> int)
    requires InOrder(bytes + GENERATED, x) && Written(bytes, calls)
    ensures InOrder(bytes + GENERATED, Run(x, calls, dup))
    decreases |calls|
  {
    hide InOrder, Shaped, AfterInsert, AfterReplace, AfterReset, Text;
    if calls != [] {
      InOrderFacts(bytes + GENERATED, x);
      var all := bytes + GENERATED;
      match calls[0] {
        case Insert(item) =>
          TextOver(bytes, item.key);
          InsertInOrder(all, x, item, dup);
        case Replace(item) =>
          TextOver(bytes, item.key);
          ReplaceInOrder(all, x, item, dup);
        case Reset => ResetInOrder(all, x);
      }
      RunInOrder(bytes, Step(x, calls[0], dup), calls[1..], dup);
    }
  }

  /** After some calls a lookup finds what a linear scan finds. */
  ghost predicate AgreesAfter(calls: seq<Call>, key: Key, dup: (int, int) -> int) {
    Shaped(EMPTY) && var x := Run(EMPTY, calls, dup); Find(x, key).0 == Scan(x.items, key)
  }

  /** For every alphabet: the index agrees with a scan in every run of calls with keys over it
      exactly if the alphabet has no clash. */
  lemma AgreesExactly(bytes: set<Byte>, dup: (int, int) -> int)
    ensures (forall calls, key :: Written(bytes, calls) && Text(bytes, key) ==> AgreesAfter(calls, key, dup)) <==>
      !Clash(bytes)
  {
    hide Run, Find, Scan, Text, Clash, InOrder;
    if !Clash(bytes) {
      forall calls, key | Written(bytes, calls) && Text(bytes, key) ensures AgreesAfter(calls, key, dup) {
        NoClashAgrees(bytes, calls, key, dup);
      }
    } else {
      var calls, key := ClashMisses(bytes, dup);
    }
  }

  lemma NoClashAgrees(bytes: set<Byte>, calls: seq<Call>, key: Key, dup: (int, int) -> int)
    requires !Clash(bytes) && Written(bytes, calls) && Text(bytes, key)
    ensures AgreesAfter(calls, key, dup)
  {
    hide Run, Find, Scan, Text, Clash;
    ClashOfLetters(bytes, GENERATED);
    RunInOrder(bytes, EMPTY, calls, dup);
    TextOver(bytes, key);
    FindIsScan(bytes + GENERATED, Run(EMPTY, calls, dup), key);
  }

  function ByName(k: Key): Item {
    Item(k, false, 0, 0)
  }

  function Letter(b: Byte): Key {
    [b, 0]
  }

  lemma LetterCompare(a: Byte, b: Byte)
    ensures Compare(Letter(a), Letter(b)) == ByteCmp(a, b)
  {
    assert Letter(a)[1..] == [0] && Letter(b)[1..] == [0];
    assert Compare([0], [0]) == Compare([], []);
  }

  /** The index after inserting the first letters in the order in which they are compared. */
  function Letters(bs: seq<Byte>): Index
    requires |bs| <= 3
  {
    Index(seq(|bs|, i requires 0 <= i < |bs| => ByName(Letter(bs[i]))), seq(|bs|, i => i), [1, 1, 2, 4][|bs|], 0)
  }

  lemma LettersFacts(bs: seq<Byte>)
    requires |bs| <= 3
    ensures var x := Letters(bs);
      && Shaped(x) && x.power == [1, 1, 2, 4][|bs|]
      && (forall i :: 0 <= i < |bs| ==> Names(x)[i] == x.items[i].key == Letter(bs[i]))
  {
    assert PowerOfTwo(2) && PowerOfTwo(4);
    assert |bs| == 0 || |bs| == 1 || |bs| == 2 || |bs| == 3;
    forall s | 0 <= s < |bs| ensures s in Letters(bs).order {
      assert Letters(bs).order[s] == s;
    }
  }

  /** A letter after the last one so far, seen from the place where the search looks first, goes
      last. */
  lemma LetterGoesLast(bs: seq<Byte>, b: Byte, dup: (int, int) -> int)
    requires |bs| <= 2 && (bs != [] ==> ByteCmp(b, bs[|bs| - 1]) > 0)
    ensures Shaped(Letters(bs)) && AfterInsert(Letters(bs), ByName(Letter(b)), dup) == Letters(bs + [b])
  {
    LettersFacts(bs);
    var x, key := Letters(bs), Letter(b);
    var ks := Names(x);
    if bs != [] {
      LetterCompare(b, bs[|bs| - 1]);
    }
    hide Compare, ByteCmp, Shaped, AllSlots, PowerOfTwo;
    var last := if |bs| == 1 then 0 else |bs|;
    assert Lookup(ks, key, x.power) == (None, last) by {
      if |bs| == 2 {
        assert Search(ks, key, 1, 1) == Search(ks, key, 2, 0);
      }
    }
    assert Spot(x, key, last) == |bs|;
    var y, z := AfterInsert(x, ByName(key), dup), Letters(bs + [b]);
    assert y.items == z.items;
    assert y.order == z.order;
  }

  function Arrivals(bs: seq<Byte>): seq<Call> {
    seq(|bs|, i requires 0 <= i < |bs| => Insert(ByName(Letter(bs[i]))))
  }

  lemma ArrivalsWritten(bytes: set<Byte>, bs: seq<Byte>)
    requires Over(bytes, bs)
    ensures Written(bytes, Arrivals(bs)) && forall i :: 0 <= i < |bs| ==> Text(bytes, Letter(bs[i]))
  {
    forall i | 0 <= i < |bs| ensures Text(bytes, Letter(bs[i])) {
      assert Letter(bs[i])[..1] == [bs[i]];
    }
  }

  ghost predicate Ascending(bs: seq<Byte>) {
    forall i :: 1 <= i < |bs| ==> ByteCmp(bs[i], bs[i - 1]) > 0
  }

  /** The letters arrive one after the other. */
  lemma {:induction false} LettersRun(bs: seq<Byte>, n: nat, dup: (int, int) -> int)
    requires n <= |bs| <= 3 && Ascending(bs)
    ensures Shaped(Letters(bs[..n])) && Run(Letters(bs[..n]), Arrivals(bs)[n..], dup) == Letters(bs)
    decreases |bs| - n
  {
    LettersFacts(bs[..n]);
    hide Letters, AfterInsert, Shaped, ByteCmp;
    if n == |bs| {
      assert bs[..n] == bs;
    } else {
      assert bs[..n] + [bs[n]] == bs[..n + 1];
      LetterGoesLast(bs[..n], bs[n], dup);
      LettersRun(bs, n + 1, dup);
      assert Arrivals(bs)[n..][0] == Insert(ByName(Letter(bs[n]))) && Arrivals(bs)[n..][1..] == Arrivals(bs)[n + 1..];
    }
  }

  /** The search looks at a place it should not pass. */
  lemma LettersMiss(u: Byte, x: Byte, l: Byte)
    requires Clashing(u, x, l)
    ensures Shaped(Letters([u, x])) && (u + 32 == l ==> Find(Letters([u, x]), Letter(l)).0 == None)
    ensures Shaped(Letters([u, x, l])) && (u + 32 > l ==> Find(Letters([u, x, l]), Letter(u)).0 == None)
  {
    LettersFacts([u, x]);
    LettersFacts([u, x, l]);
    LetterCompare(l, x);
    LetterCompare(u, l);
    hide Compare, Letters;
    var two, three := Names(Letters([u, x])), Names(Letters([u, x, l]));
    assert u + 32 == l ==> Search(two, Letter(l), 1, 1) == Search(two, Letter(l), 2, 0) == (None, 2);
    assert u + 32 > l ==>
      Search(three, Letter(u), 2, 2) == Search(three, Letter(u), 4, 1) == Search(three, Letter(u), 3, 0);
  }

  /** The run that shows a clash: the letters and the byte between arrive, and the index misses
      the first letter, or the second where it counts as equal to the first. */
  lemma ClashMisses(bytes: set<Byte>, dup: (int, int) -> int) returns (calls: seq<Call>, key: Key)
    requires Clash(bytes)
    ensures Written(bytes, calls) && Text(bytes, key) && !AgreesAfter(calls, key, dup)
  {
    var u, x, l :| u in bytes && x in bytes && l in bytes && Clashing(u, x, l);
    var bs := if u + 32 == l then [u, x] else [u, x, l];
    calls, key := Arrivals(bs), if u + 32 == l then Letter(l) else Letter(u);
    assert Over(bytes, bs) && Ascending(bs) && bs[0] == u && (u + 32 == l || bs[2] == l);
    LettersMiss(u, x, l);
    ArrivalsWritten(bytes, [u, x, l]);
    assert [u, x, l][0] == u && [u, x, l][2] == l;
    ByteCmpSelf(u, l);
    hide *;
    ArrivalsWritten(bytes, bs);
    LettersEnd(bs, dup);
    LettersScan(bs, if u + 32 == l then l else u);
  }

  lemma ByteCmpSelf(u: Byte, l: Byte)
    ensures ByteCmp(u, u) == 0 && (Upper(u) && Lower(l) && u + 32 == l ==> ByteCmp(l, u) == 0)
  {
  }

  lemma LettersEnd(bs: seq<Byte>, dup: (int, int) -> int)
    requires |bs| <= 3 && Ascending(bs)
    ensures Shaped(EMPTY) && Shaped(Letters(bs)) && Run(EMPTY, Arrivals(bs), dup) == Letters(bs)
  {
    LettersFacts(bs);
    LettersRun(bs, 0, dup);
    assert bs[..0] == [] && Arrivals(bs)[0..] == Arrivals(bs);
    assert EMPTY == Letters([]);
  }

  /** A scan finds what equals the first letter. */
  lemma LettersScan(bs: seq<Byte>, b: Byte)
    requires 0 < |bs| <= 3 && ByteCmp(b, bs[0]) == 0
    ensures Scan(Letters(bs).items, Letter(b)) == Some(0)
  {
    LetterCompare(b, bs[0]);
  }

  // ----- the object

  function Values(slots: seq<Option<Item>>): (items: seq<Item>)
    requires forall i :: 0 <= i < |slots| ==> slots[i].Some?
    ensures |items| == |slots| && forall i :: 0 <= i < |items| ==> items[i] == slots[i].value
  {
    seq(|slots|, i requires 0 <= i < |slots| => slots[i].value)
  }

  class Array {
    const dup: (int, int) -> int
    var data: seq<Option<Item>>
    var sorted: seq<nat>
    var used: nat
    var nextPowerOf2: nat
    var uniqueNdx: nat

    ghost predicate Valid()
      reads this
    {
      && |data| == |sorted| && used <= |data| && (forall i :: 0 <= i < used ==> data[i].Some?)
      && Shaped(Value())
    }

    /** The array as a value. */
    ghost function Value(): (x: Index)
      requires used <= |data| && used <= |sorted| && forall i :: 0 <= i < used ==> data[i].Some?
      reads this
    {
      Index(Values(data[..used]), sorted[..used], nextPowerOf2, uniqueNdx)
    }

    constructor (dup: (int, int) -> int)
      ensures Valid() && Value() == EMPTY && this.dup == dup
    {
      this.dup := dup;
      data, sorted, used, nextPowerOf2, uniqueNdx := [], [], 0, 1, 0;
    }

    /** array_reset; the entries stay in their slots for reuse. */
    method Reset()
      requires Valid()
      modifies this
      ensures Valid() && Value() == AfterReset(old(Value()))
      ensures forall bytes :: InOrder(bytes, old(Value())) ==> InOrder(bytes, Value())
    {
      ghost var x := Value();
      used := 0;
      assert Value() == AfterReset(x);
      forall bytes | InOrder(bytes, x) ensures InOrder(bytes, Value()) {
        ResetInOrder(bytes, x);
      }
    }

    /** What the fields say about the value. */
    lemma ValueFacts()
      requires Valid()
      ensures var x := Value();
        && |x.items| == used && Names(x) == KeysOf(x.items, x.order)
        && (forall i :: 0 <= i < used ==> x.order[i] == sorted[i] < used && x.items[i] == data[i].value)
        && (forall i :: 0 <= i < used ==> Names(x)[i] == data[sorted[i]].value.key)
    {
    }

    lemma FindFacts(key: Key) returns (ks: seq<Key>)
      requires Valid()
      ensures
        && |ks| == used <= |sorted| && (forall i :: 0 <= i < used ==> sorted[i] < |data| && data[sorted[i]].Some?)
        && (forall i :: 0 <= i < used ==> ks[i] == data[sorted[i]].value.key) && PowerOfTwo(nextPowerOf2)
        && Find(Value(), key).1 == Lookup(ks, key, nextPowerOf2).1
        && Find(Value(), key).0 == match Lookup(ks, key, nextPowerOf2).0 case None => None
          case Some(p) => Some(sorted[p])
    {
      ValueFacts();
      ks := Names(Value());
    }

    /** array_get_index */
    method GetIndex(key: Key) returns (ndx: int, pos: int)
      requires Valid()
      ensures var (found, last) := Find(Value(), key);
        pos == last && ndx == match found case None => -1 case Some(slot) => slot
    {
      hide Compare, PowerOfTwo, Find, Value, Valid;
      ghost var ks := FindFacts(key);
      var i: nat := nextPowerOf2 / 2;
      pos := i;
      ndx := -1;
      while true
        invariant Search(ks, key, pos, i) == Lookup(ks, key, nextPowerOf2) && ndx == -1
        decreases i
      {
        if pos < 0 {
          pos := pos + i;
        } else if pos >= used {
          pos := pos - i;
        } else {
          var cmp := CaselessCompare(key, data[sorted[pos]].value.key, false);
          if cmp == 0 {
            ndx := sorted[pos];
            return;
          } else if cmp < 0 {
            pos := pos - i;
          } else {
            pos := pos + i;
          }
        }
        if i == 0 {
          break;
        }
        i := i / 2;
      }
    }

    /** array_get_element: over an alphabet without a clash, the entry a linear scan would find. */
    method GetElement(key: Key) returns (item: Option<Item>)
      requires Valid()
      ensures item == match Find(Value(), key).0 case None => None case Some(slot) => Some(Value().items[slot])
      ensures forall bytes :: InOrder(bytes, Value()) && Over(bytes, key) ==>
        item == match Scan(Value().items, key) case None => None case Some(j) => Some(Value().items[j])
    {
      var ndx, pos := GetIndex(key);
      ValueFacts();
      hide *;
      item := if ndx != -1 then data[ndx] else None;
      forall bytes | InOrder(bytes, Value()) && Over(bytes, key)
        ensures Find(Value(), key).0 == Scan(Value().items, key)
      {
        FindIsScan(bytes, Value(), key);
      }
    }

    /** The position a failed search ends at, moved to behind a smaller key. */
    method InsertPosition(key: Key, pos: int) returns (at: nat)
      requires Valid() && -1 <= pos <= used
      ensures at == Spot(Value(), key, pos)
      ensures forall bytes :: InOrder(bytes, Value()) && Over(bytes, key) && Find(Value(), key) == (None, pos) ==>
        RankIs(Names(Value()), key, at) && !Present(Names(Value()), key, at)
    {
      ValueFacts();
      forall bytes | InOrder(bytes, Value()) && Over(bytes, key) && Find(Value(), key) == (None, pos)
        ensures RankIs(Names(Value()), key, Spot(Value(), key, pos))
          && !Present(Names(Value()), key, Spot(Value(), key, pos))
      {
        SpotIsRank(bytes, Value(), key);
      }
      hide Shaped, Compare, InOrder, Find, RankIs, Present, Names, Over;
      var p := pos;
      if p != used {
        if p < 0 {
          p := p + 1;
        } else {
          var cmp := CaselessCompare(key, data[sorted[p]].value.key, false);
          if cmp > 0 {
            p := p + 1;
          }
        }
      }
      at := p;
    }

    /** Room for one more slot. */
    method Grow()
      requires Valid()
      modifies this`data, this`sorted
      ensures Valid() && Value() == old(Value()) && used < |data|
    {
      if |data| == used {
        data := data + seq(16, _ => None);
        sorted := sorted + seq(16, _ => 0);
      }
      assert data[..used] == old(data[..used]) && sorted[..used] == old(sorted[..used]);
    }

    /** Exchange the entry in a slot. */
    method Store(ndx: nat, item: Item)
      requires Valid() && ndx < used
      modifies this`data
      ensures Valid() && Value() == Stored(old(Value()), ndx, item)
    {
      ghost var x := Value();
      hide Shaped;
      data := data[ndx := Some(item)];
      assert Value().items == x.items[ndx := item];
      assert Value() == Stored(x, ndx, item);
    }

    /** Store a new entry, and its slot at its place in the index. */
    method Place(item: Item, at: nat)
      requires Valid() && used < |data| && at <= used
      modifies this`data, this`sorted, this`used, this`nextPowerOf2
      ensures Valid() && Value() == Added(old(Value()), item, at)
    {
      ghost var x := Value();
      ghost var y := Added(x, item, at);
      hide Shaped, AllSlots;
      var ndx := used;
      data := data[ndx := Some(item)];
      used := used + 1;
      sorted := sorted[..at] + [ndx] + sorted[at..ndx] + sorted[ndx + 1..];
      assert data[..used] == old(data[..used]) + [Some(item)];
      if nextPowerOf2 == ndx {
        nextPowerOf2 := nextPowerOf2 * 2;
      }
      assert Value().items == y.items;
      assert Value().order == y.order;
      assert Value() == y;
    }

    /** array_insert_unique, once the entry has its key. */
    method Put(item: Item) returns (r: int)
      requires Valid()
      modifies this`data, this`sorted, this`used, this`nextPowerOf2
      ensures Valid() && Value() == WithItem(old(Value()), item, dup)
      ensures r == if old(used) + 1 > INT_MAX && Find(old(Value()), item.key).0 == None then -1 else 0
    {
      ghost var x := Value();
      ValueFacts();
      hide Shaped, Lookup, Compare, Names, Find, Spot, Added, Stored;
      var ndx, pos := GetIndex(item.key);
      if ndx != -1 {
        var was := data[ndx].value;
        if was.kind == item.kind {
          Store(ndx, was.(value := dup(was.value, item.value)));
        } else {
          StoredSame(x, ndx);
        }
        r := 0;
      } else if used + 1 > INT_MAX {
        r := -1;
      } else {
        var at := InsertPosition(item.key, pos);
        Grow();
        Place(item, at);
        r := 0;
      }
    }

    /** array_insert_unique: over an alphabet without a clash it does to the entries what
        inserting means. */
    method InsertUnique(str: Item) returns (r: int)
      requires Valid()
      modifies this
      ensures Valid() && Value() == AfterInsert(old(Value()), str, dup)
      ensures var key := Keyed(str, old(uniqueNdx)).key;
        r == if old(used) + 1 > INT_MAX && Find(old(Value()), key).0 == None then -1 else 0
      ensures forall bytes :: InOrder(bytes, old(Value())) && Over(bytes, str.key) ==>
        && InOrder(bytes, Value())
        && Value().items == Inserted(old(Value()).items, Keyed(str, old(uniqueNdx)), dup)
    {
      ghost var x := Value();
      var item := Keyed(str, uniqueNdx);
      if str.key == [] || str.isIndexKey {
        uniqueNdx := uniqueNdx + 1;
      }
      assert Value() == Numbered(x, str);
      assert Names(Numbered(x, str)) == Names(x) && Find(Numbered(x, str), item.key) == Find(x, item.key);
      hide Shaped, Keyed, Find, InOrder, Over, Numbered, WithItem;
      r := Put(item);
      forall bytes | InOrder(bytes, x) && Over(bytes, str.key)
        ensures InOrder(bytes, Value()) && Value().items == Inserted(x.items, item, dup)
      {
        InsertInOrder(bytes, x, str, dup);
      }
    }

    /** array_replace: the entry with this key, if there was one, is given back. */
    method Replace(du: Item) returns (was: Option<Item>)
      requires Valid()
      modifies this
      ensures Valid() && Value() == AfterReplace(old(Value()), du, dup)
      ensures was == match Find(old(Value()), du.key).0 case None => None case Some(j) => Some(old(Value()).items[j])
      ensures forall bytes :: InOrder(bytes, old(Value())) && Over(bytes, du.key) ==>
        && InOrder(bytes, Value()) && Value().items == Replaced(old(Value()).items, du, old(uniqueNdx), dup)
        && was == match Scan(old(Value()).items, du.key) case None => None case Some(j) => Some(old(Value()).items[j])
    {
      ghost var x := Value();
      ValueFacts();
      hide Shaped, Find, AfterInsert, InOrder, Over, Replaced, Scan, Stored;
      var ndx, pos := GetIndex(du.key);
      if ndx == -1 {
        var r := InsertUnique(du);
        was := None;
      } else {
        was := data[ndx];
        Store(ndx, du);
      }
      forall bytes | InOrder(bytes, x) && Over(bytes, du.key)
        ensures InOrder(bytes, Value()) && Value().items == Replaced(x.items, du, x.nextKey, dup)
          && Find(x, du.key).0 == Scan(x.items, du.key)
      {
        FindIsScan(bytes, x, du.key);
        ReplaceInOrder(bytes, x, du, dup);
      }
    }
  }
}
