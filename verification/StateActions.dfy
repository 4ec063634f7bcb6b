/** lemon's FindActions and CompressTables for one state: from its transitions and follow sets to
    the action list that goes into the tables. */
module StateActions {
  import opened Arithmetic
  import opened Grammars
  import opened Closures
  import opened Lr0
  import opened Actions
  import MSort
  import opened Driver
  import opened ParserCompleteness

  /** The action is called for in state `s`: a transition, a complete rule on a token that may follow
      it, or acceptance of the start symbol in state 0. */
  ghost predicate Called(g: Grammar, states: seq<State>, v: Follows, s: nat, act: Action)
    requires s < |states|
  {
    match act.kind
    case SHIFT => act.sp in states[s].shifts && act.arg == states[s].shifts[act.sp]
    case REDUCE => act.arg < |g.rules| && g.Terminal(act.sp)
      && MayFollow(states, v, s, Item(act.arg, |g.rules[act.arg].rhs|), act.sp)
    case ACCEPT => s == 0 && act.sp == g.start && act.arg == 0
    case _ => false
  }

  /** Something is called for on `x`. */
  ghost predicate CalledOn(g: Grammar, states: seq<State>, v: Follows, s: nat, x: nat)
    requires s < |states|
  {
    exists act :: Called(g, states, v, s, act) && act.sp == x
  }

  ghost predicate NoRepeats(list: seq<Action>) {
    forall i, j :: 0 <= i < j < |list| ==> list[i] != list[j]
  }

  /** A list of exactly the actions called for. */
  ghost predicate Lists(g: Grammar, states: seq<State>, v: Follows, s: nat, list: seq<Action>)
    requires s < |states|
  {
    NoRepeats(list) && forall act :: act in list <==> Called(g, states, v, s, act)
  }

  /** The actions called for by the configurations before number `n`. */
  ghost predicate CalledBefore(g: Grammar, st: State, v: Follows, n: nat, act: Action)
    requires n <= |st.cl.items| && ListOk(g, st.cl) && st.base + |st.cl.items| <= |v|
  {
    match act.kind
    case SHIFT =>
      && act.sp in st.shifts && act.arg == st.shifts[act.sp]
      && exists i: nat :: i < n && NextIs(g, st.cl.items, i, act.sp)
    case REDUCE => g.Terminal(act.sp) && exists i: nat :: i < n && EndsAt(g, st, v, i, act)
    case _ => false
  }

  /** Configuration `i` is rule `act.arg` complete, and may be followed by `act.sp`. */
  ghost predicate EndsAt(g: Grammar, st: State, v: Follows, i: nat, act: Action) {
    act.arg < |g.rules| && FollowedAt(st, v, i, Item(act.arg, |g.rules[act.arg].rhs|), act.sp)
  }

  ghost predicate ListsBefore(g: Grammar, st: State, v: Follows, n: nat, list: seq<Action>)
    requires n <= |st.cl.items| && ListOk(g, st.cl) && st.base + |st.cl.items| <= |v|
  {
    NoRepeats(list) && forall act :: act in list <==> CalledBefore(g, st, v, n, act)
  }

  /** The reductions of one complete configuration. */
  method AddReductions(g: Grammar, st: State, v: Follows, n: nat, list: seq<Action>) returns (now: seq<Action>)
    requires ListOk(g, st.cl) && st.base + |st.cl.items| <= |v| && n < |st.cl.items| && st.cl.items[n].AtEnd(g)
    requires ListsBefore(g, st, v, n, list)
    ensures ListsBefore(g, st, v, n + 1, now)
  {
    var rule := st.cl.items[n].rule;
    now := list;
    for j := 0 to g.nterminal
      invariant NoRepeats(now)
      invariant forall act :: act in now <==>
        act in list || (act.kind.REDUCE? && act.sp < j && EndsAt(g, st, v, n, act))
    {
      var act := Action(j, REDUCE, rule);
      if j in v[st.Id(n)] {
        assert act !in list;
        now := now + [act];
      }
    }
    forall act ensures act in now <==> CalledBefore(g, st, v, n + 1, act) {
      if act in list {
        assert CalledBefore(g, st, v, n, act);
      }
      if act.kind.SHIFT? && CalledBefore(g, st, v, n + 1, act) {
        var i: nat :| i < n + 1 && NextIs(g, st.cl.items, i, act.sp);
        assert i < n;
      }
    }
  }

  /** The transition of one configuration that is not complete, unless it is there already. */
  method AddShift(g: Grammar, st: State, v: Follows, n: nat, list: seq<Action>) returns (now: seq<Action>)
    requires ListOk(g, st.cl) && st.base + |st.cl.items| <= |v| && n < |st.cl.items| && !st.cl.items[n].AtEnd(g)
    requires st.cl.items[n].Next(g) in st.shifts && ListsBefore(g, st, v, n, list)
    ensures ListsBefore(g, st, v, n + 1, now)
  {
    var x := st.cl.items[n].Next(g);
    var shift := Action(x, SHIFT, st.shifts[x]);
    now := if shift in list then list else list + [shift];
    assert NextIs(g, st.cl.items, n, x);
    forall act ensures act in now <==> CalledBefore(g, st, v, n + 1, act) {
      if act in list {
        assert CalledBefore(g, st, v, n, act);
      }
      if act.kind.REDUCE? && CalledBefore(g, st, v, n + 1, act) {
        var i: nat :| i < n + 1 && EndsAt(g, st, v, i, act);
        assert i < n;
      }
    }
  }

  /** All actions of a state, before sorting. */
  method CollectActions(g: Grammar, states: seq<State>, v: Follows, s: nat) returns (list: seq<Action>)
    requires s < |states| && ListOk(g, states[s].cl) && states[s].base + |states[s].cl.items| <= |v|
    requires forall i: nat :: i < |states[s].cl.items| && !states[s].cl.items[i].AtEnd(g) ==>
      states[s].cl.items[i].Next(g) in states[s].shifts
    requires ShiftsOk(g, states, s)
    ensures Lists(g, states, v, s, list)
  {
    var st := states[s];
    list := [];
    for n := 0 to |st.cl.items|
      invariant ListsBefore(g, st, v, n, list)
    {
      if st.cl.items[n].AtEnd(g) {
        list := AddReductions(g, st, v, n, list);
      } else {
        list := AddShift(g, st, v, n, list);
      }
    }
    ghost var before := list;
    if s == 0 {
      var accept := Action(g.start, ACCEPT, 0);
      assert !CalledBefore(g, st, v, |st.cl.items|, accept);
      list := list + [accept];
    }
    forall act ensures act in list <==> Called(g, states, v, s, act) {
      assert act in before <==> CalledBefore(g, st, v, |st.cl.items|, act);
      AllBefore(g, states, v, s, act);
    }
  }

  lemma AllBefore(g: Grammar, states: seq<State>, v: Follows, s: nat, act: Action)
    requires s < |states| && ListOk(g, states[s].cl) && states[s].base + |states[s].cl.items| <= |v|
      && ShiftsOk(g, states, s)
    ensures !act.kind.ACCEPT? ==>
      (Called(g, states, v, s, act) <==> CalledBefore(g, states[s], v, |states[s].cl.items|, act))
  {
    var st := states[s];
    match act.kind
    case SHIFT =>
      if act.sp in st.shifts {
        var i: nat :| NextIs(g, st.cl.items, i, act.sp);
      }
    case REDUCE =>
      if Called(g, states, v, s, act) {
        var n: nat :| FollowedAt(st, v, n, Item(act.arg, |g.rules[act.arg].rhs|), act.sp);
        assert EndsAt(g, st, v, n, act);
      }
      if CalledBefore(g, st, v, |st.cl.items|, act) {
        var i: nat :| i < |st.cl.items| && EndsAt(g, st, v, i, act);
      }
    case _ =>
  }

  // ----- from the collected list to the final one

  lemma {:induction false} NoRepeatsOnce(list: seq<Action>, a: Action)
    requires NoRepeats(list)
    ensures multiset(list)[a] <= 1
  {
    if multiset(list)[a] >= 2 {
      var k, l := TwoPlaces(list, a);
      assert false;
    }
  }

  lemma NoRepeatsPermuted(list: seq<Action>, a: seq<Action>)
    requires NoRepeats(list) && multiset(a) == multiset(list)
    ensures NoRepeats(a)
  {
    forall i, j | 0 <= i < j < |a| ensures a[i] != a[j] {
      if a[i] == a[j] {
        TwiceInMultiset(a, i, j);
        NoRepeatsOnce(list, a[i]);
        assert false;
      }
    }
  }

  /** The sorted list of a finished automaton is as the conflict loops expect it. */
  lemma SortedIsRaw(g: Grammar, lambda: seq<bool>, first: seq<set<nat>>, states: seq<State>, bplp: BackLinks,
                    v: Follows, s: nat, a: seq<Action>)
    requires Built(g, lambda, first, states, bplp) && s < |states|
    requires Lists(g, states, v, s, a) && MSort.Sorted(a, ActionCmp)
    ensures Raw(a)
  {
    forall i | 0 <= i < |a| ensures a[i].Live() {
      assert a[i] in a;
    }
    forall i, j | 0 <= i < j < |a|
      ensures a[i].sp <= a[j].sp && (a[i].sp == a[j].sp ==> a[j].kind.REDUCE? && !a[i].kind.ACCEPT?)
    {
      assert a[i] in a && a[j] in a && ActionCmp(a[i], a[j]) <= 0;
      assert Called(g, states, v, s, a[i]) && Called(g, states, v, s, a[j]);
      assert a[i] != a[j];
    }
  }

  /** What the whole treatment of a state's list keeps: `raw` is what the state calls for, `mid` what
      is left when conflicts are resolved, and `final` the list with its default. */
  ghost predicate Finished(g: Grammar, states: seq<State>, v: Follows, s: nat, raw: seq<Action>, mid: seq<Action>,
                           final: seq<Action>)
    requires s < |states|
  {
    && Lists(g, states, v, s, raw) && Resolving(raw, mid) && OneLive(mid) && OneLive(final)
    && (final == mid || exists rule :: Count(mid, rule) >= 2 && Defaulted(mid, final, rule, g.nsymbol))
  }

  /** Everything in the lists concerns a symbol of the grammar. */
  lemma CalledSymbols(g: Grammar, lambda: seq<bool>, first: seq<set<nat>>, states: seq<State>, bplp: BackLinks,
                      v: Follows, s: nat, act: Action)
    requires Built(g, lambda, first, states, bplp) && s < |states| && Called(g, states, v, s, act)
    ensures act.sp < g.nsymbol && (act.kind.REDUCE? ==> act.arg < |g.rules|)
  {
    if act.kind.SHIFT? {
      assert StateOk(g, lambda, first, states[s], s) && ShiftsOk(g, states, s);
      var i: nat :| NextIs(g, states[s].cl.items, i, act.sp);
    }
  }

  // ----- how many actions a state can have

  /** The grammar is small enough for lemon's merge sort, which holds fewer than 2^30 actions. */
  predicate Small(g: Grammar) {
    g.nsymbol + |g.rules| * g.nterminal + 1 < 0x4000_0000
  }

  /** A number for every action a state can call for. */
  function Number(g: Grammar, act: Action): nat {
    match act.kind
    case SHIFT => act.sp
    case REDUCE => g.nsymbol + act.arg * g.nterminal + act.sp
    case _ => g.nsymbol + |g.rules| * g.nterminal
  }

  lemma RowsApart(a: nat, b: nat, x: nat, y: nat, n: nat)
    requires x < n && y < n && a < b
    ensures a * n + x < b * n <= b * n + y
  {
    assert b * n == a * n + (b - a) * n;
    assert (b - a) * n >= n by {
      MulAtLeast(b - a, n);
    }
  }

  lemma NumberBounded(g: Grammar, act: Action)
    requires act.kind.SHIFT? ==> act.sp < g.nsymbol
    requires act.kind.REDUCE? ==> act.arg < |g.rules| && act.sp < g.nterminal
    ensures Number(g, act) < g.nsymbol + |g.rules| * g.nterminal + 1
    ensures act.kind.REDUCE? ==> g.nsymbol <= Number(g, act) < g.nsymbol + |g.rules| * g.nterminal
  {
    if act.kind.REDUCE? {
      RowsApart(act.arg, |g.rules|, act.sp, 0, g.nterminal);
    }
  }

  lemma NumberIdentifies(g: Grammar, states: seq<State>, v: Follows, s: nat, a: Action, b: Action)
    requires s < |states| && Called(g, states, v, s, a) && Called(g, states, v, s, b)
    requires a.sp < g.nsymbol && b.sp < g.nsymbol && Number(g, a) == Number(g, b)
    ensures a == b
  {
    NumberBounded(g, a);
    NumberBounded(g, b);
    if a.kind.REDUCE? && b.kind.REDUCE? {
      if a.arg < b.arg {
        RowsApart(a.arg, b.arg, a.sp, b.sp, g.nterminal);
      } else if b.arg < a.arg {
        RowsApart(b.arg, a.arg, b.sp, a.sp, g.nterminal);
      }
    }
  }

  /** Different numbers below `n` are at most `n`. */
  lemma {:induction false} Pigeonhole(s: seq<nat>, n: nat)
    requires forall i, j :: 0 <= i < j < |s| ==> s[i] != s[j]
    requires forall i :: 0 <= i < |s| ==> s[i] < n
    ensures |s| <= n
    decreases n
  {
    if |s| > 0 {
      assert s[0] < n;
      if k :| 0 <= k < |s| && s[k] == n - 1 {
        Pigeonhole(s[..k] + s[k + 1..], n - 1);
      } else {
        Pigeonhole(s, n - 1);
      }
    }
  }

  lemma FewActions(g: Grammar, lambda: seq<bool>, first: seq<set<nat>>, states: seq<State>, bplp: BackLinks,
                   v: Follows, s: nat, list: seq<Action>)
    requires Built(g, lambda, first, states, bplp) && s < |states| && Lists(g, states, v, s, list) && Small(g)
    ensures |list| < 0x4000_0000
  {
    forall act | act in list ensures act.sp < g.nsymbol && Number(g, act) < g.nsymbol + |g.rules| * g.nterminal + 1 {
      CalledSymbols(g, lambda, first, states, bplp, v, s, act);
      NumberBounded(g, act);
    }
    var numbers := seq(|list|, i requires 0 <= i < |list| => Number(g, list[i]));
    forall i, j | 0 <= i < j < |list| ensures numbers[i] != numbers[j] {
      if numbers[i] == numbers[j] {
        assert list[i] in list && list[j] in list;
        NumberIdentifies(g, states, v, s, list[i], list[j]);
      }
    }
    Pigeonhole(numbers, g.nsymbol + |g.rules| * g.nterminal + 1);
  }

  lemma RawFits(g: Grammar, lambda: seq<bool>, first: seq<set<nat>>, states: seq<State>, bplp: BackLinks, v: Follows,
                s: nat, p: Precedence, raw: seq<Action>)
    requires Built(g, lambda, first, states, bplp) && s < |states| && p.Ok(g.nsymbol, |g.rules|)
      && Lists(g, states, v, s, raw)
    ensures ListFits(p, raw) && forall i :: 0 <= i < |raw| ==> raw[i].sp < g.nsymbol
  {
    forall i | 0 <= i < |raw| ensures raw[i].sp < g.nsymbol && (raw[i].kind.REDUCE? ==> raw[i].arg < |g.rules|) {
      assert raw[i] in raw;
      CalledSymbols(g, lambda, first, states, bplp, v, s, raw[i]);
    }
  }

  /** What the state calls for, sorted: by symbol, shifts first, then rules in their order. */
  ghost predicate InOrder(g: Grammar, states: seq<State>, v: Follows, s: nat, raw: seq<Action>)
    requires s < |states|
  {
    Lists(g, states, v, s, raw) && Raw(raw) && MSort.Sorted(raw, ActionCmp)
  }

  /** What the conflict loops make of the sorted list. */
  ghost predicate Resolved(p: Precedence, raw: seq<Action>, mid: seq<Action>) {
    ListFits(p, raw) && mid == RowsFrom(p, raw, 0)
  }

  /** The sorted list of a state. */
  method SortedActions(g: Grammar, ghost lambda: seq<bool>, ghost first: seq<set<nat>>, states: seq<State>,
                       ghost bplp: BackLinks, v: Follows, s: nat) returns (raw: seq<Action>)
    requires Built(g, lambda, first, states, bplp) && s < |states| && |bplp| <= |v| && Small(g)
    ensures InOrder(g, states, v, s, raw) && |raw| < 0x4000_0000
  {
    StateReady(g, lambda, first, states, bplp, s);
    var list := CollectActions(g, states, v, s);
    FewActions(g, lambda, first, states, bplp, v, s, list);
    raw := Sort(list);
    NoRepeatsPermuted(list, raw);
    SortedIsRaw(g, lambda, first, states, bplp, v, s, raw);
  }

  lemma StateReady(g: Grammar, lambda: seq<bool>, first: seq<set<nat>>, states: seq<State>, bplp: BackLinks, s: nat)
    requires Built(g, lambda, first, states, bplp) && s < |states|
    ensures ListOk(g, states[s].cl) && states[s].base + |states[s].cl.items| <= |bplp| && ShiftsOk(g, states, s)
    ensures forall i: nat :: i < |states[s].cl.items| && !states[s].cl.items[i].AtEnd(g) ==>
      states[s].cl.items[i].Next(g) in states[s].shifts
  {
    assert StateOk(g, lambda, first, states[s], s) && ShiftsOk(g, states, s) && Complete(g, states, bplp, s);
    forall i: nat | i < |states[s].cl.items| && !states[s].cl.items[i].AtEnd(g)
      ensures states[s].cl.items[i].Next(g) in states[s].shifts
    {
      assert Shifted(g, states, bplp, s, i);
    }
  }

  lemma DemotedSymbols(raw: seq<Action>, mid: seq<Action>, n: nat)
    requires Demoted(raw, mid) && forall i :: 0 <= i < |raw| ==> raw[i].sp < n
    ensures forall act :: act in mid ==> act.sp < n
  {
    forall act | act in mid ensures act.sp < n {
      var i :| 0 <= i < |mid| && mid[i] == act;
      assert raw[i].sp < n;
    }
  }

  /** FindActions and CompressTables for one state. */
  method FinishState(g: Grammar, ghost lambda: seq<bool>, ghost first: seq<set<nat>>, states: seq<State>,
                     ghost bplp: BackLinks, v: Follows, s: nat, p: Precedence)
                       returns (final: seq<Action>, nconflict: nat, ghost raw: seq<Action>, ghost mid: seq<Action>)
    requires Built(g, lambda, first, states, bplp) && s < |states| && |bplp| <= |v| && Small(g)
    requires p.Ok(g.nsymbol, |g.rules|)
    ensures Finished(g, states, v, s, raw, mid, final)
    ensures ConflictFree(raw) ==> nconflict == 0
    ensures nconflict == 0 && NoPrecedence(p) ==> ConflictFree(raw)
    ensures InOrder(g, states, v, s, raw) && Resolved(p, raw, mid) && nconflict == RowsCount(p, raw, 0)
  {
    var sorted := SortedActions(g, lambda, first, states, bplp, v, s);
    RawFits(g, lambda, first, states, bplp, v, s, p, sorted);
    var a := new Action[|sorted|](i requires 0 <= i < |sorted| => sorted[i]);
    assert a[..] == sorted;
    hide Built, Lists, Raw, ListFits, NoPrecedence, ConflictFree;
    nconflict := ResolveConflicts(p, a);
    raw, mid := sorted, a[..];
    DemotedSymbols(raw, mid, g.nsymbol);
    final := Compress(a[..], g.nsymbol);
  }
}
