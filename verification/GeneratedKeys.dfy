/** The keys that lighttpd's array makes up: decimal numerals, one after the other, so that entries
    without a key of their own do not get in each other's way. */
module GeneratedKeys {
  import opened Arithmetic
  import opened Octets
  import opened Options
  import opened Caseless
  import opened ArrayIndex

  // ----- numerals

  predicate Digit(b: Byte) {
    48 <= b <= 57
  }

  /** Digits, and no zero in front of others. */
  ghost predicate IsNumeral(k: Key) {
    && k != [] && (forall i :: 0 <= i < |k| ==> Digit(k[i]))
    && (|k| > 1 ==> k[0] != 48)
  }

  /** The number that digits stand for. */
  function NumberOf(k: Key): int {
    if k == [] then 0 else 10 * NumberOf(k[..|k| - 1]) + k[|k| - 1] as int - 48
  }

  lemma {:induction false} DigitsRead(n: nat)
    ensures IsNumeral(Digits(n)) && NumberOf(Digits(n)) == n && (Digits(n)[0] == 48 ==> n == 0)
  {
    var k := Digits(n);
    if n < 10 {
      assert k == [48 + n] && k[..0] == [];
    } else {
      DigitsRead(n / 10);
      assert k[..|k| - 1] == Digits(n / 10) && k[0] == Digits(n / 10)[0];
    }
  }

  lemma {:induction false} NumeralRead(k: Key)
    requires IsNumeral(k)
    ensures NumberOf(k) >= 0 && Digits(NumberOf(k)) == k && (k != [48] ==> NumberOf(k) > 0)
    decreases |k|
  {
    var front := k[..|k| - 1];
    if front == [] {
      assert k == [k[0]] && NumberOf(front) == 0;
    } else {
      assert IsNumeral(front) && front[0] == k[0];
      NumeralRead(front);
      var n, last := NumberOf(front), k[|k| - 1] as int - 48;
      assert NumberOf(k) == 10 * n + last && 0 <= last < 10;
      Quotient(NumberOf(k), 10, n, last);
      assert k == front + [k[|k| - 1]];
    }
  }

  /** The generated key for a number is its decimal numeral with a terminator, and nothing else is. */
  lemma IndexKeyIsNumeral(n: nat, k: Key)
    ensures IndexKey(n) == k + [0] <==> IsNumeral(k) && NumberOf(k) == n
  {
    DigitsRead(n);
    if IsNumeral(k) && NumberOf(k) == n {
      NumeralRead(k);
    }
    if IndexKey(n) == k + [0] {
      assert Digits(n) == (k + [0])[..|k|] == k;
    }
  }

  // ----- no two of them are equal

  /** A generated key is equal only to itself: digits have no case. */
  lemma {:induction false} EqualToDigits(k: Key, d: Key)
    requires Compare(d, k) == 0 && Over(GENERATED, d)
    ensures k == d
    decreases |k|
  {
    if d != [] && k != [] {
      assert d[0] in GENERATED && d[0] == k[0];
      EqualToDigits(k[1..], d[1..]);
      assert k == [k[0]] + k[1..] && d == [d[0]] + d[1..];
    }
  }

  /** Different numbers have keys that compare as different. */
  lemma IndexKeysDiffer(m: nat, n: nat)
    ensures Compare(IndexKey(m), IndexKey(n)) == 0 <==> m == n
  {
    if Compare(IndexKey(m), IndexKey(n)) == 0 {
      EqualToDigits(IndexKey(n), IndexKey(m));
      var k := Digits(m);
      assert k == IndexKey(m)[..|k|] && IndexKey(n)[..|k|] == k;
      DigitsRead(m);
      DigitsRead(n);
      assert Digits(n) == IndexKey(n)[..|IndexKey(n)| - 1] == k;
    }
    CompareSelf(IndexKey(m));
  }

  // ----- entries without a key are appended

  /** The key is not one that is still to be generated. */
  ghost predicate NotToCome(x: Index, key: Key) {
    forall m: nat :: m >= x.nextKey ==> IndexKey(m) != key
  }

  /** No entry has such a key. */
  ghost predicate Clear(x: Index) {
    forall i :: 0 <= i < |x.items| ==> NotToCome(x, x.items[i].key)
  }

  /** The call gives no entry such a key. */
  ghost predicate GivesNone(x: Index, call: Call) {
    !call.Reset? && !NeedsKey(call.item) ==> NotToCome(x, call.item.key)
  }

  ghost predicate AllGiveNone(x: Index, calls: seq<Call>, dup: (int, int) -> int)
    requires Shaped(x)
    decreases |calls|
  {
    calls == [] || (GivesNone(x, calls[0]) && AllGiveNone(Step(x, calls[0], dup), calls[1..], dup))
  }

  /** What is found has the key. */
  lemma FoundEqual(x: Index, key: Key)
    requires Shaped(x)
    ensures Find(x, key).0.Some? ==> Compare(key, x.items[Find(x, key).0.value].key) == 0
  {
  }

  lemma FoundToCome(x: Index, m: nat)
    requires Shaped(x) && Clear(x) && m >= x.nextKey
    ensures Find(x, IndexKey(m)).0 == None
  {
    FoundEqual(x, IndexKey(m));
    hide Find, Compare, IndexKey, Shaped;
    if Find(x, IndexKey(m)).0.Some? {
      EqualToDigits(x.items[Find(x, IndexKey(m)).0.value].key, IndexKey(m));
    }
  }

  /** In such a state an entry without a key becomes a new one, with the next numeral for its key. */
  lemma AppendsKeyless(x: Index, item: Item, dup: (int, int) -> int)
    requires Shaped(x) && Clear(x) && NeedsKey(item) && |x.items| < INT_MAX
    ensures AfterInsert(x, item, dup).items == x.items + [item.(key := IndexKey(x.nextKey), isIndexKey := true)]
    ensures AfterInsert(x, item, dup).nextKey == x.nextKey + 1
  {
    FoundToCome(x, x.nextKey);
    assert Names(Numbered(x, item)) == Names(x);
  }

  lemma WithItemClear(x: Index, item: Item, dup: (int, int) -> int)
    requires Shaped(x) && Clear(x) && NotToCome(x, item.key)
    ensures Clear(WithItem(x, item, dup)) && WithItem(x, item, dup).nextKey == x.nextKey
  {
    hide Shaped, Find, Spot, IndexKey;
  }

  lemma KeyedClear(x: Index, item: Item)
    requires Shaped(x) && Clear(x) && GivesNone(x, Insert(item))
    ensures Clear(Numbered(x, item)) && NotToCome(Numbered(x, item), Keyed(item, x.nextKey).key)
  {
    hide IndexKey, Shaped;
    forall m: nat | m >= x.nextKey + 1 ensures IndexKey(m) != IndexKey(x.nextKey) {
      IndexKeysDiffer(m, x.nextKey);
      CompareSelf(IndexKey(m));
    }
  }

  /** A given key that equals one in the array is not to come either. */
  lemma StoredClear(x: Index, slot: nat, item: Item)
    requires Shaped(x) && Clear(x) && slot < |x.items| && Compare(item.key, x.items[slot].key) == 0
    ensures Clear(Stored(x, slot, item))
  {
    hide IndexKey, Shaped, Compare;
    forall m: nat | m >= x.nextKey ensures IndexKey(m) != item.key {
      if IndexKey(m) == item.key {
        EqualToDigits(x.items[slot].key, IndexKey(m));
      }
    }
  }

  lemma StepClear(x: Index, call: Call, dup: (int, int) -> int)
    requires Shaped(x) && Clear(x) && GivesNone(x, call)
    ensures Clear(Step(x, call, dup))
  {
    hide Shaped, Find, Clear, Keyed, WithItem, Compare, NotToCome;
    match call {
      case Reset => NoneClear(x);
      case Insert(item) =>
        KeyedClear(x, item);
        WithItemClear(Numbered(x, item), Keyed(item, x.nextKey), dup);
      case Replace(item) =>
        FoundEqual(x, item.key);
        match Find(x, item.key).0 {
          case Some(j) => StoredClear(x, j, item);
          case None =>
            KeyedClear(x, item);
            WithItemClear(Numbered(x, item), Keyed(item, x.nextKey), dup);
        }
    }
  }

  lemma NoneClear(x: Index)
    ensures Clear(AfterReset(x)) && Clear(EMPTY)
  {
  }

  lemma {:induction false} RunClear(x: Index, calls: seq<Call>, dup: (int, int) -> int)
    requires Shaped(x) && Clear(x) && AllGiveNone(x, calls, dup)
    ensures Clear(Run(x, calls, dup))
    decreases |calls|
  {
    hide Shaped, Clear, GivesNone, Step;
    if calls != [] {
      StepClear(x, calls[0], dup);
      RunClear(Step(x, calls[0], dup), calls[1..], dup);
    }
  }

  /** In every run that gives no entry a numeral before its turn, and whatever the order of the keys, an
      entry without a key is appended, under the next numeral. */
  lemma KeylessAppended(calls: seq<Call>, item: Item, dup: (int, int) -> int)
    requires Shaped(EMPTY) && AllGiveNone(EMPTY, calls, dup) && NeedsKey(item)
    requires |Run(EMPTY, calls, dup).items| < INT_MAX
    ensures var x := Run(EMPTY, calls, dup);
      AfterInsert(x, item, dup).items == x.items + [item.(key := IndexKey(x.nextKey), isIndexKey := true)]
  {
    hide Shaped, Clear, AllGiveNone, Run, AfterInsert, IndexKey;
    NoneClear(EMPTY);
    RunClear(EMPTY, calls, dup);
    AppendsKeyless(Run(EMPTY, calls, dup), item, dup);
  }

  /** Exactly when it is: over an alphabet without a clash, if no entry has the next numeral for its key. */
  lemma AppendedExactly(bytes: set<Byte>, x: Index, item: Item, dup: (int, int) -> int)
    requires InOrder(bytes, x) && NeedsKey(item) && |x.items| < INT_MAX
    ensures
      AfterInsert(x, item, dup).items == x.items + [item.(key := IndexKey(x.nextKey), isIndexKey := true)] <==>
      forall i :: 0 <= i < |x.items| ==> x.items[i].key != IndexKey(x.nextKey)
  {
    var key := IndexKey(x.nextKey);
    assert GENERATED <= bytes && Over(bytes, key) by {
      assert forall i :: 0 <= i < |key| ==> key[i] in GENERATED;
    }
    FindIsScan(bytes, x, key);
    InOrderFacts(bytes, x);
    assert Names(Numbered(x, item)) == Names(x);
    assert Find(Numbered(x, item), key) == Find(x, key);
    hide InOrder, Shaped, Find, Spot, Over, IndexKey;
    match Scan(x.items, key) {
      case Some(j) => EqualToDigits(x.items[j].key, key);
      case None =>
        CompareSelf(key);
    }
  }
}
