/** lemon's FindStates, getstate and buildshifts: the LR(0) automaton with its propagation links. */
module Lr0 {
  import opened Grammars
  import opened Closures

  /** A state: its basis, the closure of the basis, the number of its first configuration (each
      configuration of the automaton has a number of its own), and its shift actions. */
  datatype State = State(basis: seq<Item>, cl: Closure, base: nat, shifts: map<nat, nat>) {
    function Id(i: nat): nat {
      base + i
    }
  }

  type BackLinks = seq<seq<nat>>

  /** Every item of `items` with `x` after its dot, advanced over it. */
  ghost function Advances(g: Grammar, items: seq<Item>, x: nat): set<Item>
    requires forall i :: 0 <= i < |items| ==> items[i].Ok(g)
  {
    set i | 0 <= i < |items| && !items[i].AtEnd(g) && items[i].Next(g) == x :: items[i].Advance()
  }

  ghost predicate NextIs(g: Grammar, items: seq<Item>, i: nat, x: nat)
    requires forall i :: 0 <= i < |items| ==> items[i].Ok(g)
  {
    i < |items| && !items[i].AtEnd(g) && items[i].Next(g) == x
  }

  ghost predicate StartBasis(g: Grammar, basis: seq<Item>) {
    forall it :: it in basis <==> it.rule < |g.rules| && it.dot == 0 && g.rules[it.rule].lhs == g.start
  }

  ghost predicate PastStart(basis: seq<Item>) {
    forall it :: it in basis ==> it.dot > 0
  }

  function Seed(s: nat): set<nat> {
    if s == 0 then {0} else {}
  }

  /** One state on its own: a closed list over its basis; the first state starts the start
      symbol's rules with end-of-input as their follow set, no other state starts anything. */
  ghost predicate StateOk(g: Grammar, lambda: seq<bool>, first: seq<set<nat>>, st: State, s: nat) {
    && ClosureOk(g, lambda, first, st.basis, Seed(s), st.cl)
    && (if s == 0 then StartBasis(g, st.basis) else PastStart(st.basis))
  }

  /** The shift actions recorded so far lead where they should. */
  ghost predicate ShiftsOk(g: Grammar, states: seq<State>, s: nat)
    requires s < |states| && ListOk(g, states[s].cl)
  {
    forall x :: x in states[s].shifts ==>
      && states[s].shifts[x] < |states|
      && ItemSet(states[states[s].shifts[x]].basis) == Advances(g, states[s].cl.items, x)
      && exists i: nat :: NextIs(g, states[s].cl.items, i, x)
  }

  ghost predicate AutomatonOk(g: Grammar, lambda: seq<bool>, first: seq<set<nat>>, states: seq<State>,
                              bplp: BackLinks)
  {
    && (forall s :: 0 <= s < |states| ==> StateOk(g, lambda, first, states[s], s))
    && (forall s :: 0 <= s < |states| ==> ShiftsOk(g, states, s))
    && Laid(states, bplp)
  }

  /** No basis occurs twice; configuration numbers do not overlap; back links name configurations. */
  ghost predicate Laid(states: seq<State>, bplp: BackLinks) {
    && (forall s, t :: 0 <= s < t < |states| ==> ItemSet(states[s].basis) != ItemSet(states[t].basis))
    && (forall s, t :: 0 <= s < t < |states| ==> states[s].base + |states[s].cl.items| <= states[t].base)
    && (forall s :: 0 <= s < |states| ==> states[s].base + |states[s].cl.items| <= |bplp|)
    && (forall c, d :: 0 <= c < |bplp| && d in bplp[c] ==> d < |bplp|)
  }

  /** Configuration `id` is a back link of the configuration for `it` in the basis of `t`. */
  ghost predicate LinkedBack(states: seq<State>, bplp: BackLinks, t: nat, it: Item, id: nat) {
    && t < |states| && states[t].base + |states[t].basis| <= |bplp|
    && exists j :: 0 <= j < |states[t].basis| && states[t].basis[j] == it && id in bplp[states[t].Id(j)]
  }

  // ----- where states and back links come from

  /** `basis` is what state `s` turns into when `x` is shifted. */
  ghost predicate ComesFrom(g: Grammar, states: seq<State>, s: nat, x: nat, basis: set<Item>) {
    && s < |states| && ListOk(g, states[s].cl)
    && (exists i: nat :: NextIs(g, states[s].cl.items, i, x)) && basis == Advances(g, states[s].cl.items, x)
  }

  /** `id` is configuration `i` of state `s`, and shifting its next symbol makes it item `it` of `basis`. */
  ghost predicate LinkSource(g: Grammar, states: seq<State>, s: nat, i: nat, it: Item, basis: set<Item>, id: nat) {
    && s < |states| && ListOk(g, states[s].cl) && i < |states[s].cl.items| && id == states[s].Id(i)
    && !states[s].cl.items[i].AtEnd(g) && states[s].cl.items[i].Advance() == it
    && basis == Advances(g, states[s].cl.items, states[s].cl.items[i].Next(g))
  }

  ghost predicate LinkFrom(g: Grammar, states: seq<State>, it: Item, basis: set<Item>, id: nat) {
    exists s: nat, i: nat :: LinkSource(g, states, s, i, it, basis, id)
  }

  /** Configuration `c` is number `j` of the basis of state `t`, and `d` is shifted to it. */
  ghost predicate LinkTarget(g: Grammar, states: seq<State>, t: nat, j: nat, c: nat, d: nat) {
    && t < |states| && j < |states[t].basis| && c == states[t].Id(j)
    && LinkFrom(g, states, states[t].basis[j], ItemSet(states[t].basis), d)
  }

  /** An earlier state turns into state `t`. */
  ghost predicate FoundedAt(g: Grammar, states: seq<State>, t: nat) {
    t < |states| && exists s: nat, x: nat :: s < t && ComesFrom(g, states, s, x, ItemSet(states[t].basis))
  }

  ghost predicate Founded(g: Grammar, states: seq<State>) {
    forall t: nat :: 0 < t < |states| ==> FoundedAt(g, states, t)
  }

  ghost predicate ExactAt(g: Grammar, states: seq<State>, c: nat, d: nat) {
    exists t: nat, j: nat :: LinkTarget(g, states, t, j, c, d)
  }

  /** Every back link leads from a configuration to one that is shifted to it. */
  ghost predicate BackExact(g: Grammar, states: seq<State>, bplp: BackLinks) {
    forall c: nat, d: nat :: c < |bplp| && d in bplp[c] ==> ExactAt(g, states, c, d)
  }

  ghost predicate Traced(g: Grammar, states: seq<State>, bplp: BackLinks) {
    Founded(g, states) && BackExact(g, states, bplp)
  }

  /** `basis` and its back links may become a state: the first, or one that an earlier state turns into. */
  ghost predicate Origin(g: Grammar, states: seq<State>, basis: seq<Item>, back: BackLinks)
    requires |back| == |basis|
  {
    && (|states| > 0 ==> exists s: nat, x: nat :: ComesFrom(g, states, s, x, ItemSet(basis)))
    && forall k, d :: 0 <= k < |back| && d in back[k] ==> LinkFrom(g, states, basis[k], ItemSet(basis), d)
  }

  /** States have been added, and nothing but shifts has changed in the others. */
  ghost predicate MoreStates(a: seq<State>, b: seq<State>) {
    |a| <= |b| && forall s :: 0 <= s < |a| ==> b[s] == a[s].(shifts := b[s].shifts)
  }

  lemma ComesFromLasts(g: Grammar, a: seq<State>, b: seq<State>, s: nat, x: nat, basis: set<Item>)
    requires MoreStates(a, b) && ComesFrom(g, a, s, x, basis)
    ensures ComesFrom(g, b, s, x, basis)
  {
    var i: nat :| NextIs(g, a[s].cl.items, i, x);
    assert NextIs(g, b[s].cl.items, i, x);
  }

  lemma LinkFromLasts(g: Grammar, a: seq<State>, b: seq<State>, it: Item, basis: set<Item>, id: nat)
    requires MoreStates(a, b) && LinkFrom(g, a, it, basis, id)
    ensures LinkFrom(g, b, it, basis, id)
  {
    var s: nat, i: nat :| LinkSource(g, a, s, i, it, basis, id);
    assert LinkSource(g, b, s, i, it, basis, id);
  }

  lemma LinkTargetLasts(g: Grammar, a: seq<State>, b: seq<State>, t: nat, j: nat, c: nat, d: nat)
    requires MoreStates(a, b) && LinkTarget(g, a, t, j, c, d)
    ensures LinkTarget(g, b, t, j, c, d)
  {
    LinkFromLasts(g, a, b, a[t].basis[j], ItemSet(a[t].basis), d);
  }

  lemma BackExactLasts(g: Grammar, a: seq<State>, b: seq<State>, bplp: BackLinks)
    requires MoreStates(a, b) && BackExact(g, a, bplp)
    ensures BackExact(g, b, bplp)
  {
    hide LinkTarget;
    forall c: nat, d: nat | c < |bplp| && d in bplp[c] ensures ExactAt(g, b, c, d) {
      assert ExactAt(g, a, c, d);
      var t: nat, j: nat :| LinkTarget(g, a, t, j, c, d);
      LinkTargetLasts(g, a, b, t, j, c, d);
    }
  }

  lemma FoundedLasts(g: Grammar, a: seq<State>, b: seq<State>)
    requires MoreStates(a, b) && Founded(g, a)
    ensures forall t: nat :: 0 < t < |a| ==> FoundedAt(g, b, t)
  {
    hide ComesFrom;
    forall t: nat | 0 < t < |a| ensures FoundedAt(g, b, t) {
      assert FoundedAt(g, a, t);
      var s: nat, x: nat :| s < t && ComesFrom(g, a, s, x, ItemSet(a[t].basis));
      ComesFromLasts(g, a, b, s, x, ItemSet(a[t].basis));
      assert b[t].basis == a[t].basis;
    }
  }

  lemma TracedSame(g: Grammar, a: seq<State>, b: seq<State>, bplp: BackLinks)
    requires MoreStates(a, b) && |a| == |b| && Traced(g, a, bplp)
    ensures Traced(g, b, bplp)
  {
    BackExactLasts(g, a, b, bplp);
    FoundedLasts(g, a, b);
  }

  lemma TracedAdded(g: Grammar, states: seq<State>, bplp: BackLinks, st: State, back: BackLinks, links: BackLinks)
    requires Traced(g, states, bplp) && |back| == |st.basis| && Origin(g, states, st.basis, back) && st.base == |bplp|
    requires |links| >= |bplp| + |back| && links == bplp + back + seq(|links| - |bplp| - |back|, _ => [])
    ensures Traced(g, states + [st], links)
  {
    hide ComesFrom, LinkFrom, LinkTarget;
    var now := states + [st];
    BackExactLasts(g, states, now, bplp);
    FoundedLasts(g, states, now);
    if |states| > 0 {
      var s: nat, x: nat :| ComesFrom(g, states, s, x, ItemSet(st.basis));
      StateOfOrigin(g, states, s, x, ItemSet(st.basis));
      ComesFromLasts(g, states, now, s, x, ItemSet(st.basis));
      assert now[|states|] == st;
      assert FoundedAt(g, now, |states|);
    }
    forall c: nat, d: nat | c < |links| && d in links[c] ensures ExactAt(g, now, c, d) {
      if c < |bplp| {
        assert links[c] == bplp[c];
      } else if c < |bplp| + |back| {
        AddedTarget(g, states, st, back, c - |bplp|, d);
      }
    }
  }

  lemma AddedTarget(g: Grammar, states: seq<State>, st: State, back: BackLinks, k: nat, d: nat)
    requires |back| == |st.basis| && Origin(g, states, st.basis, back) && k < |back| && d in back[k]
    ensures ExactAt(g, states + [st], st.Id(k), d)
  {
    hide LinkFrom;
    var now := states + [st];
    LinkFromLasts(g, states, now, st.basis[k], ItemSet(st.basis), d);
    assert now[|states|] == st;
    assert LinkTarget(g, now, |states|, k, st.Id(k), d);
  }

  lemma StateOfOrigin(g: Grammar, states: seq<State>, s: nat, x: nat, basis: set<Item>)
    requires ComesFrom(g, states, s, x, basis)
    ensures s < |states|
  {
  }

  /** Links to a state that exists already. */
  lemma TracedCopied(g: Grammar, states: seq<State>, bplp: BackLinks, t: nat, j: nat, more: seq<nat>)
    requires Traced(g, states, bplp) && t < |states| && j < |states[t].basis| && states[t].Id(j) < |bplp|
    requires forall d :: d in more ==> LinkFrom(g, states, states[t].basis[j], ItemSet(states[t].basis), d)
    ensures Traced(g, states, bplp[states[t].Id(j) := more + bplp[states[t].Id(j)]])
  {
    hide LinkFrom;
    var at := states[t].Id(j);
    var now := bplp[at := more + bplp[at]];
    forall c: nat, d: nat | c < |now| && d in now[c] ensures ExactAt(g, states, c, d) {
      if d !in bplp[c] {
        assert LinkTarget(g, states, t, j, c, d);
      }
    }
  }

  /** What a state receives was meant for its basis. */
  lemma OriginAt(g: Grammar, states: seq<State>, basis: seq<Item>, back: BackLinks, k: nat, t: nat, j: nat)
    requires |back| == |basis| && Origin(g, states, basis, back) && k < |back| && t < |states| && j < |states[t].basis|
    requires states[t].basis[j] == basis[k] && ItemSet(states[t].basis) == ItemSet(basis)
    ensures forall d :: d in back[k] ==> LinkFrom(g, states, states[t].basis[j], ItemSet(states[t].basis), d)
  {
    hide LinkFrom;
  }

  lemma NoOrigin(g: Grammar, basis: seq<Item>, back: BackLinks)
    requires |back| == |basis| && forall k :: 0 <= k < |back| ==> back[k] == []
    ensures Origin(g, [], basis, back)
  {
  }

  /** Configuration `i` of state `s` has contributed to the state its next symbol leads to. */
  ghost predicate Shifted(g: Grammar, states: seq<State>, bplp: BackLinks, s: nat, i: nat)
    requires s < |states| && ListOk(g, states[s].cl) && i < |states[s].cl.items|
  {
    var it := states[s].cl.items[i];
    !it.AtEnd(g) ==>
      && it.Next(g) in states[s].shifts
      && LinkedBack(states, bplp, states[s].shifts[it.Next(g)], it.Advance(), states[s].Id(i))
  }

  /** All shifts out of state `s` are in place. */
  ghost predicate Complete(g: Grammar, states: seq<State>, bplp: BackLinks, s: nat)
    requires s < |states| && ListOk(g, states[s].cl)
  {
    forall i: nat :: i < |states[s].cl.items| ==> Shifted(g, states, bplp, s, i)
  }

  /** The automaton has grown: old states are as they were (those below `n` entirely, the rest up
      to their shifts), and back links have only been added. */
  ghost predicate Grown(was: seq<State>, wasLinks: BackLinks, states: seq<State>, bplp: BackLinks) {
    && |was| <= |states| && states[..|was|] == was
    && |wasLinks| <= |bplp| && forall c, d :: 0 <= c < |wasLinks| && d in wasLinks[c] ==> d in bplp[c]
  }

  lemma GrownTrans(a: seq<State>, al: BackLinks, b: seq<State>, bl: BackLinks, c: seq<State>, cl: BackLinks)
    requires Grown(a, al, b, bl) && Grown(b, bl, c, cl)
    ensures Grown(a, al, c, cl)
  {
    assert c[..|a|] == b[..|a|];
  }

  lemma GrownState(a: seq<State>, al: BackLinks, b: seq<State>, bl: BackLinks, s: nat)
    requires Grown(a, al, b, bl) && s < |a|
    ensures b[s] == a[s]
  {
    assert b[..|a|][s] == b[s];
  }

  lemma LinkedBackLasts(a: seq<State>, al: BackLinks, b: seq<State>, bl: BackLinks, t: nat, it: Item, id: nat)
    requires Grown(a, al, b, bl) && LinkedBack(a, al, t, it, id)
    ensures LinkedBack(b, bl, t, it, id)
  {
    GrownState(a, al, b, bl, t);
    var j :| 0 <= j < |a[t].basis| && a[t].basis[j] == it && id in al[a[t].Id(j)];
    assert id in bl[b[t].Id(j)];
  }

  lemma CompleteLasts(g: Grammar, a: seq<State>, al: BackLinks, b: seq<State>, bl: BackLinks, s: nat)
    requires Grown(a, al, b, bl) && s < |a| && ListOk(g, a[s].cl) && Complete(g, a, al, s)
    ensures b[s] == a[s] && Complete(g, b, bl, s)
  {
    GrownState(a, al, b, bl, s);
    forall i: nat | i < |b[s].cl.items| ensures Shifted(g, b, bl, s, i) {
      assert Shifted(g, a, al, s, i);
      var it := a[s].cl.items[i];
      if !it.AtEnd(g) {
        LinkedBackLasts(a, al, b, bl, a[s].shifts[it.Next(g)], it.Advance(), a[s].Id(i));
      }
    }
  }

  ghost function UsedBases(states: seq<State>): set<set<Item>> {
    set s | 0 <= s < |states| :: ItemSet(states[s].basis)
  }

  /** The bases that have no state yet: every new state shrinks this set. */
  ghost function FreeBases(g: Grammar, states: seq<State>): set<set<Item>> {
    (set b: set<Item> | b <= AllItems(g)) - UsedBases(states)
  }

  lemma FreeBasesShrink(g: Grammar, was: seq<State>, states: seq<State>)
    requires |was| <= |states| && forall s :: 0 <= s < |was| ==> states[s].basis == was[s].basis
    ensures FreeBases(g, states) <= FreeBases(g, was)
    ensures (|was| < |states| && ItemSet(states[|was|].basis) <= AllItems(g)
             && ItemSet(states[|was|].basis) !in UsedBases(was)) ==>
      FreeBases(g, states) < FreeBases(g, was)
  {
    forall b | b in UsedBases(was) ensures b in UsedBases(states) {
      var s :| 0 <= s < |was| && ItemSet(was[s].basis) == b;
      assert ItemSet(states[s].basis) == b;
    }
    if |was| < |states| {
      assert ItemSet(states[|was|].basis) in UsedBases(states);
    }
  }

  // ----- one new state

  /** Basis `basis` may become state number `n`. */
  ghost predicate BasisOk(g: Grammar, basis: seq<Item>, n: nat) {
    && DistinctItems(basis)
    && (forall i :: 0 <= i < |basis| ==> basis[i].Ok(g))
    && (if n == 0 then StartBasis(g, basis) else PastStart(basis))
  }

  ghost predicate LinksBelow(links: BackLinks, n: nat) {
    forall c, d :: 0 <= c < |links| && d in links[c] ==> d < n
  }

  /** Every back link of `back` has arrived in state `t`. */
  ghost predicate AllLinked(states: seq<State>, bplp: BackLinks, t: nat, basis: seq<Item>, back: BackLinks)
    requires |back| == |basis|
  {
    forall k, d :: 0 <= k < |basis| && d in back[k] ==> LinkedBack(states, bplp, t, basis[k], d)
  }

  lemma StateAdded(g: Grammar, lambda: seq<bool>, first: seq<set<nat>>, states: seq<State>, bplp: BackLinks,
                   st: State, back: BackLinks, links: BackLinks)
    requires AutomatonOk(g, lambda, first, states, bplp)
    requires BasisOk(g, st.basis, |states|) && ItemSet(st.basis) !in UsedBases(states)
    requires ClosureOk(g, lambda, first, st.basis, Seed(|states|), st.cl) && st.base == |bplp| && st.shifts == map[]
    requires |back| == |st.basis| && LinksBelow(back, |bplp|)
    requires links == bplp + back + seq(|st.cl.items| - |st.basis|, _ => [])
    ensures AutomatonOk(g, lambda, first, states + [st], links)
    ensures Grown(states, bplp, states + [st], links)
    ensures AllLinked(states + [st], links, |states|, st.basis, back)
  {
    var now := states + [st];
    forall s | 0 <= s < |now| ensures StateOk(g, lambda, first, now[s], s) && ShiftsOk(g, now, s) {
      if s < |states| {
        assert now[s] == states[s];
        assert ShiftsOk(g, states, s);
      }
    }
    forall s, t | 0 <= s < t < |now| ensures ItemSet(now[s].basis) != ItemSet(now[t].basis) {
      if t == |states| {
        assert ItemSet(states[s].basis) in UsedBases(states);
      }
    }
    forall k, d | 0 <= k < |st.basis| && d in back[k] ensures LinkedBack(now, links, |states|, st.basis[k], d) {
      assert now[|states|].basis[k] == st.basis[k] && links[st.Id(k)] == back[k];
    }
    forall c, d | 0 <= c < |links| && d in links[c] ensures d < |links| {
      if c >= |bplp| && c < |bplp| + |back| {
        assert links[c] == back[c - |bplp|];
      }
    }
  }

  /** Two automata with the same states except for shifts. */
  ghost predicate SameButShifts(a: seq<State>, b: seq<State>) {
    |a| == |b| && forall s :: 0 <= s < |a| ==> b[s] == a[s].(shifts := b[s].shifts)
  }

  lemma LaidSame(a: seq<State>, b: seq<State>, bplp: BackLinks)
    requires SameButShifts(a, b) && Laid(a, bplp)
    ensures Laid(b, bplp)
  {
  }

  lemma ShiftsOkSame(g: Grammar, a: seq<State>, b: seq<State>, r: nat)
    requires |a| == |b| && r < |a| && b[r] == a[r] && ListOk(g, a[r].cl) && ShiftsOk(g, a, r)
    requires forall t :: 0 <= t < |a| ==> b[t].basis == a[t].basis
    ensures ShiftsOk(g, b, r)
  {
  }

  lemma ShiftsOkMore(g: Grammar, a: seq<State>, b: seq<State>, s: nat, x: nat, t: nat, i: nat)
    requires |a| == |b| && s < |a| && t < |a| && ListOk(g, a[s].cl) && ShiftsOk(g, a, s)
    requires forall t :: 0 <= t < |a| ==> b[t].basis == a[t].basis
    requires NextIs(g, a[s].cl.items, i, x) && ItemSet(a[t].basis) == Advances(g, a[s].cl.items, x)
    requires b[s] == a[s].(shifts := a[s].shifts[x := t])
    ensures ShiftsOk(g, b, s)
  {
    assert NextIs(g, b[s].cl.items, i, x);
  }

  /** Recording one shift changes nothing but that shift. */
  lemma ShiftAdded(g: Grammar, lambda: seq<bool>, first: seq<set<nat>>, states: seq<State>, bplp: BackLinks,
                   now: seq<State>, s: nat, x: nat, t: nat, i: nat)
    requires AutomatonOk(g, lambda, first, states, bplp) && s < |states| && t < |states|
    requires NextIs(g, states[s].cl.items, i, x)
    requires ItemSet(states[t].basis) == Advances(g, states[s].cl.items, x)
    requires now == states[s := states[s].(shifts := states[s].shifts[x := t])]
    ensures AutomatonOk(g, lambda, first, now, bplp)
  {
    assert forall r :: 0 <= r < |states| ==> StateOk(g, lambda, first, states[r], r) && ListOk(g, states[r].cl);
    assert forall r :: 0 <= r < |states| ==> ShiftsOk(g, states, r);
    LaidSame(states, now, bplp);
    hide ClosureOk, ListOk, ShiftsOk, Advances, NextIs, Laid;
    forall r | 0 <= r < |now| ensures StateOk(g, lambda, first, now[r], r) && ShiftsOk(g, now, r) {
      if r == s {
        ShiftsOkMore(g, states, now, s, x, t, i);
      } else {
        ShiftsOkSame(g, states, now, r);
      }
    }
  }

  lemma LinkedBackSame(a: seq<State>, b: seq<State>, bplp: BackLinks, t: nat, it: Item, id: nat)
    requires SameButShifts(a, b) && LinkedBack(a, bplp, t, it, id)
    ensures LinkedBack(b, bplp, t, it, id)
  {
    var j :| 0 <= j < |a[t].basis| && a[t].basis[j] == it && id in bplp[a[t].Id(j)];
    assert b[t].basis[j] == it && id in bplp[b[t].Id(j)];
  }

  lemma ShiftedSame(g: Grammar, a: seq<State>, b: seq<State>, bplp: BackLinks, s: nat, i: nat)
    requires SameButShifts(a, b) && s < |a| && ListOk(g, a[s].cl) && i < |a[s].cl.items| && Shifted(g, a, bplp, s, i)
    requires forall x :: x in a[s].shifts ==> x in b[s].shifts && b[s].shifts[x] == a[s].shifts[x]
    ensures Shifted(g, b, bplp, s, i)
  {
    var it := a[s].cl.items[i];
    if !it.AtEnd(g) {
      LinkedBackSame(a, b, bplp, a[s].shifts[it.Next(g)], it.Advance(), a[s].Id(i));
    }
  }

  // ----- the inner loop of buildshifts

  /** What the inner loop collects for the symbol `x`. */
  ghost predicate Gathered(g: Grammar, items: seq<Item>, base: nat, x: nat, basis: seq<Item>, back: BackLinks)
    requires forall i :: 0 <= i < |items| ==> items[i].Ok(g)
  {
    && |basis| == |back| && BasisOk(g, basis, 1) && ItemSet(basis) == Advances(g, items, x)
    && LinksBelow(back, base + |items|)
    && (forall i: nat :: NextIs(g, items, i, x) ==> Collected(basis, back, items[i].Advance(), base + i))
    && BackFrom(g, items, base, x, basis, back)
  }

  /** Every link is to a configuration that was collected. */
  ghost predicate BackFrom(g: Grammar, items: seq<Item>, base: nat, x: nat, basis: seq<Item>, back: BackLinks)
    requires (forall i :: 0 <= i < |items| ==> items[i].Ok(g)) && |basis| == |back|
  {
    forall k, d :: 0 <= k < |back| && d in back[k] ==>
      base <= d && NextIs(g, items, d - base, x) && items[d - base].Advance() == basis[k]
  }

  lemma BackFromNone(g: Grammar, items: seq<Item>, base: nat, x: nat)
    requires forall i :: 0 <= i < |items| ==> items[i].Ok(g)
    ensures BackFrom(g, items, base, x, [], [])
  {
  }

  lemma BackFromMore(g: Grammar, items: seq<Item>, base: nat, x: nat, basis: seq<Item>, back: BackLinks, b: nat)
    requires (forall i :: 0 <= i < |items| ==> items[i].Ok(g)) && |basis| == |back|
    requires BackFrom(g, items, base, x, basis, back) && NextIs(g, items, b, x)
    ensures BackFrom(g, items, base, x, basis + [items[b].Advance()], back + [[base + b]])
  {
  }

  lemma GatheredOrigin(g: Grammar, states: seq<State>, s: nat, x: nat, c: nat, basis: seq<Item>, back: BackLinks)
    requires s < |states| && ListOk(g, states[s].cl) && Gathered(g, states[s].cl.items, states[s].base, x, basis, back)
    requires NextIs(g, states[s].cl.items, c, x)
    ensures Origin(g, states, basis, back)
  {
    assert ComesFrom(g, states, s, x, ItemSet(basis));
    forall k, d | 0 <= k < |back| && d in back[k] ensures LinkFrom(g, states, basis[k], ItemSet(basis), d) {
      assert LinkSource(g, states, s, d - states[s].base, basis[k], ItemSet(basis), d);
    }
  }

  ghost predicate Collected(basis: seq<Item>, back: BackLinks, it: Item, id: nat)
    requires |basis| == |back|
  {
    exists k :: 0 <= k < |basis| && basis[k] == it && id in back[k]
  }

  lemma CollectedMore(g: Grammar, items: seq<Item>, base: nat, x: nat, basis: seq<Item>, back: BackLinks, b: nat)
    requires (forall i :: 0 <= i < |items| ==> items[i].Ok(g)) && |basis| == |back| && NextIs(g, items, b, x)
    requires forall i: nat :: i < b && NextIs(g, items, i, x) ==> Collected(basis, back, items[i].Advance(), base + i)
    ensures forall i: nat :: i < b + 1 && NextIs(g, items, i, x) ==>
      Collected(basis + [items[b].Advance()], back + [[base + b]], items[i].Advance(), base + i)
  {
    var it := items[b].Advance();
    var now, links := basis + [it], back + [[base + b]];
    forall i: nat | i < b + 1 && NextIs(g, items, i, x) ensures Collected(now, links, items[i].Advance(), base + i) {
      if i < b {
        assert Collected(basis, back, items[i].Advance(), base + i);
        var k :| 0 <= k < |basis| && basis[k] == items[i].Advance() && base + i in back[k];
        assert now[k] == items[i].Advance() && base + i in links[k];
      } else {
        assert now[|basis|] == it && base + i in links[|basis|];
      }
    }
  }

  method Gather(g: Grammar, items: seq<Item>, base: nat, x: nat, c: nat, complete: seq<bool>)
    returns (now: seq<bool>, basis: seq<Item>, back: BackLinks)
    requires (forall i :: 0 <= i < |items| ==> items[i].Ok(g)) && DistinctItems(items) && |complete| == |items|
    requires forall i: nat :: NextIs(g, items, i, x) ==> c <= i && !complete[i]
    requires NextIs(g, items, c, x)
    ensures |now| == |items| && forall i: nat :: i < |items| ==> (now[i] <==> complete[i] || NextIs(g, items, i, x))
    ensures Gathered(g, items, base, x, basis, back)
  {
    hide BackFrom, Collected;
    now, basis, back := complete, [], [];
    BackFromNone(g, items, base, x);
    for b := c to |items|
      invariant |now| == |items| && |basis| == |back|
      invariant forall i: nat :: i < |items| ==> (now[i] <==> complete[i] || (i < b && NextIs(g, items, i, x)))
      invariant forall it :: it in basis ==> it.dot > 0 && it.Ok(g)
      invariant forall it :: it in basis <==>
        exists i: nat :: i < b && NextIs(g, items, i, x) && it == items[i].Advance()
      invariant DistinctItems(basis) && LinksBelow(back, base + b)
      invariant forall i: nat :: i < b && NextIs(g, items, i, x) ==>
        Collected(basis, back, items[i].Advance(), base + i)
      invariant BackFrom(g, items, base, x, basis, back)
    {
      if !now[b] && !items[b].AtEnd(g) && items[b].Next(g) == x {
        var it := items[b].Advance();
        ghost var basis0, back0 := basis, back;
        assert it !in basis;
        BackFromMore(g, items, base, x, basis, back, b);
        now, basis, back := now[b := true], basis + [it], back + [[base + b]];
        CollectedMore(g, items, base, x, basis0, back0, b);
      }
    }
    assert ItemSet(basis) == Advances(g, items, x) by {
      forall it ensures it in ItemSet(basis) <==> it in Advances(g, items, x) {
        if it in basis {
          var i: nat :| i < |items| && NextIs(g, items, i, x) && it == items[i].Advance();
        }
        if it in Advances(g, items, x) {
          var i :| 0 <= i < |items| && !items[i].AtEnd(g) && items[i].Next(g) == x && it == items[i].Advance();
          assert NextIs(g, items, i, x);
        }
      }
    }
  }

  /** The symbols whose shifts are done: all configurations with such a symbol are marked, and
      nothing else is. */
  ghost predicate Progress(g: Grammar, states: seq<State>, bplp: BackLinks, s: nat, complete: seq<bool>, c: nat)
    requires s < |states| && ListOk(g, states[s].cl)
  {
    var items := states[s].cl.items;
    && |complete| == |items|
    && (forall i: nat :: i < |items| && complete[i] ==> !items[i].AtEnd(g) && Shifted(g, states, bplp, s, i))
    && (forall i: nat :: i < |items| && i < c && !items[i].AtEnd(g) ==> complete[i])
    && (forall i: nat, x :: NextIs(g, items, i, x) ==> (complete[i] <==> x in states[s].shifts))
  }

  /** The next symbol to be shifted: none of its configurations is marked, and none comes earlier. */
  lemma ProgressNext(g: Grammar, states: seq<State>, bplp: BackLinks, s: nat, complete: seq<bool>, c: nat)
    requires s < |states| && ListOk(g, states[s].cl) && Progress(g, states, bplp, s, complete, c)
    requires c < |states[s].cl.items| && !complete[c] && !states[s].cl.items[c].AtEnd(g)
    ensures |complete| == |states[s].cl.items|
    ensures var x := states[s].cl.items[c].Next(g);
      && x !in states[s].shifts && NextIs(g, states[s].cl.items, c, x)
      && forall i: nat :: NextIs(g, states[s].cl.items, i, x) ==> c <= i && !complete[i]
  {
    var x := states[s].cl.items[c].Next(g);
    assert NextIs(g, states[s].cl.items, c, x);
  }

  lemma ProgressEnds(g: Grammar, states: seq<State>, bplp: BackLinks, s: nat, complete: seq<bool>, c: nat)
    requires s < |states| && ListOk(g, states[s].cl) && Progress(g, states, bplp, s, complete, c)
    ensures |complete| == |states[s].cl.items| && forall i :: 0 <= i < |complete| ==> states[s].cl.items[i].Ok(g)
    ensures c == |complete| ==> Complete(g, states, bplp, s)
    ensures c < |complete| && (complete[c] || states[s].cl.items[c].AtEnd(g)) ==>
      Progress(g, states, bplp, s, complete, c + 1)
  {
  }

  lemma StateList(g: Grammar, lambda: seq<bool>, first: seq<set<nat>>, states: seq<State>, bplp: BackLinks, s: nat)
    requires AutomatonOk(g, lambda, first, states, bplp) && s < |states|
    ensures ListOk(g, states[s].cl)
  {
  }

  lemma ProgressLasts(g: Grammar, a: seq<State>, al: BackLinks, b: seq<State>, bl: BackLinks, s: nat,
                      complete: seq<bool>, c: nat)
    requires Grown(a, al, b, bl) && s < |a| && ListOk(g, a[s].cl) && Progress(g, a, al, s, complete, c)
    ensures b[s] == a[s] && Progress(g, b, bl, s, complete, c)
  {
    GrownState(a, al, b, bl, s);
    forall i: nat | i < |b[s].cl.items| && complete[i] ensures Shifted(g, b, bl, s, i) {
      assert Shifted(g, a, al, s, i);
      var it := a[s].cl.items[i];
      LinkedBackLasts(a, al, b, bl, a[s].shifts[it.Next(g)], it.Advance(), a[s].Id(i));
    }
  }

  /** One more symbol `x` shifted to state `t`. */
  lemma ProgressMade(g: Grammar, a: seq<State>, bplp: BackLinks, s: nat, complete: seq<bool>, c: nat,
                     b: seq<State>, now: seq<bool>, x: nat, t: nat, basis: seq<Item>, back: BackLinks)
    requires s < |a| && t < |a| && ListOk(g, a[s].cl) && Progress(g, a, bplp, s, complete, c) && x !in a[s].shifts
    requires b == a[s := a[s].(shifts := a[s].shifts[x := t])]
    requires |now| == |complete|
    requires forall i: nat :: i < |now| ==> (now[i] <==> complete[i] || NextIs(g, a[s].cl.items, i, x))
    requires c < |now| && NextIs(g, a[s].cl.items, c, x)
    requires Gathered(g, a[s].cl.items, a[s].base, x, basis, back) && AllLinked(a, bplp, t, basis, back)
    ensures Progress(g, b, bplp, s, now, c + 1)
  {
    hide BackFrom, BasisOk, LinksBelow, Advances;
    var items := a[s].cl.items;
    forall i: nat | i < |items| && now[i] ensures !items[i].AtEnd(g) && Shifted(g, b, bplp, s, i) {
      if complete[i] {
        ShiftedSame(g, a, b, bplp, s, i);
      } else {
        assert Collected(basis, back, items[i].Advance(), a[s].base + i);
        var k :| 0 <= k < |basis| && basis[k] == items[i].Advance() && a[s].base + i in back[k];
        assert LinkedBack(a, bplp, t, basis[k], a[s].Id(i));
        LinkedBackSame(a, b, bplp, t, basis[k], a[s].Id(i));
      }
    }
  }

  lemma BasisBounded(g: Grammar, basis: seq<Item>)
    requires forall i :: 0 <= i < |basis| ==> basis[i].Ok(g)
    ensures ItemSet(basis) <= AllItems(g)
  {
  }

  lemma LinksCopied(g: Grammar, lambda: seq<bool>, first: seq<set<nat>>, states: seq<State>, bplp: BackLinks, c: nat,
                    more: seq<nat>)
    requires AutomatonOk(g, lambda, first, states, bplp) && c < |bplp| && forall d :: d in more ==> d < |bplp|
    ensures AutomatonOk(g, lambda, first, states, bplp[c := more + bplp[c]])
    ensures Grown(states, bplp, states, bplp[c := more + bplp[c]])
  {
    assert states[..|states|] == states;
  }

  /** A new state `t` has its shifts, and everything that was there before is unchanged. */
  lemma StateBuilt(was: seq<State>, wasLinks: BackLinks, added: seq<State>, links: BackLinks,
                   states: seq<State>, bplp: BackLinks, t: nat, basis: seq<Item>, back: BackLinks)
    requires |back| == |basis| && t == |was| && |added| == t + 1 && t < |states|
    requires Grown(was, wasLinks, added, links) && AllLinked(added, links, t, basis, back)
    requires states[t].(shifts := map[]) == added[t].(shifts := map[])
    requires Grown(added[t := states[t]], links, states, bplp)
    ensures Grown(was, wasLinks, states, bplp) && AllLinked(states, bplp, t, basis, back)
  {
    var mid := added[t := states[t]];
    assert states[..t] == mid[..t] == added[..t];
    forall k, d | 0 <= k < |basis| && d in back[k] ensures LinkedBack(states, bplp, t, basis[k], d) {
      LinkedBackSame(added, mid, links, t, basis[k], d);
      LinkedBackLasts(mid, links, states, bplp, t, basis[k], d);
    }
  }

  /** While the shifts of state `s` are being built: older states are untouched, newer ones are
      complete. */
  ghost predicate Building(g: Grammar, was: seq<State>, wasLinks: BackLinks, states: seq<State>, bplp: BackLinks,
                           s: nat)
  {
    && s < |was| <= |states| && was[s].basis == states[s].basis
    && Grown(was[s := states[s]], wasLinks, states, bplp)
    && forall r :: |was| <= r < |states| ==> ListOk(g, states[r].cl) && Complete(g, states, bplp, r)
  }

  lemma BuildingStart(g: Grammar, lambda: seq<bool>, first: seq<set<nat>>, states: seq<State>, bplp: BackLinks, s: nat)
    requires AutomatonOk(g, lambda, first, states, bplp) && s < |states| && states[s].shifts == map[]
    ensures Building(g, states, bplp, states, bplp, s)
    ensures Progress(g, states, bplp, s, seq(|states[s].cl.items|, _ => false), 0)
  {
    assert states[s := states[s]] == states == states[..|states|];
  }

  lemma BuildingState(g: Grammar, was: seq<State>, wasLinks: BackLinks, states: seq<State>, bplp: BackLinks, s: nat)
    requires Building(g, was, wasLinks, states, bplp, s)
    ensures s < |was| <= |states|
  {
  }

  lemma BuildingBases(g: Grammar, was: seq<State>, wasLinks: BackLinks, states: seq<State>, bplp: BackLinks, s: nat)
    requires Building(g, was, wasLinks, states, bplp, s)
    ensures FreeBases(g, states) <= FreeBases(g, was)
  {
    forall r | 0 <= r < |was| ensures states[r].basis == was[r].basis {
      GrownState(was[s := states[s]], wasLinks, states, bplp, r);
    }
    FreeBasesShrink(g, was, states);
  }

  /** One turn of buildshifts, seen from its start: `old` grew to `was`, a successor state was found
      or built (`mid`), and the shift of state `s` was recorded (`now`). */
  lemma ShiftStep(g: Grammar, old': seq<State>, oldLinks: BackLinks, was: seq<State>, wasLinks: BackLinks,
                  mid: seq<State>, links: BackLinks, now: seq<State>, s: nat)
    requires Building(g, old', oldLinks, was, wasLinks, s) && Grown(was, wasLinks, mid, links)
    requires SameButShifts(mid, now) && forall r :: 0 <= r < |mid| && r != s ==> now[r] == mid[r]
    requires forall r :: |old'| <= r < |mid| ==> ListOk(g, mid[r].cl)
    requires forall r :: |was| <= r < |mid| ==> Complete(g, mid, links, r)
    ensures Building(g, old', oldLinks, now, links, s)
  {
    GrownState(was, wasLinks, mid, links, s);
    forall r | 0 <= r < |old'| && r != s ensures now[r] == old'[r] {
      GrownState(old'[s := was[s]], oldLinks, was, wasLinks, r);
      GrownState(was, wasLinks, mid, links, r);
    }
    forall r | |old'| <= r < |now| ensures ListOk(g, now[r].cl) && Complete(g, now, links, r) {
      if r < |was| {
        CompleteLasts(g, was, wasLinks, mid, links, r);
      }
      assert Complete(g, mid, links, r);
      forall i: nat | i < |now[r].cl.items| ensures Shifted(g, now, links, r, i) {
        assert Shifted(g, mid, links, r, i);
        ShiftedSame(g, mid, now, links, r, i);
      }
    }
  }

  class Builder {
    const g: Grammar
    const lambda: seq<bool>
    const first: seq<set<nat>>
    var states: seq<State>
    var bplp: BackLinks

    ghost predicate Valid()
      reads this
    {
      FirstsOk(g, lambda, first) && AutomatonOk(g, lambda, first, states, bplp) && Traced(g, states, bplp)
    }

    constructor (g: Grammar, lambda: seq<bool>, first: seq<set<nat>>)
      requires FirstsOk(g, lambda, first)
      ensures Valid() && states == [] && this.g == g && this.lambda == lambda && this.first == first
    {
      this.g, this.lambda, this.first := g, lambda, first;
      states, bplp := [], [];
    }

    /** State_find: the state with the given basis.  The source compares basis lists that its
        sort has put in order; equal sorted lists without repetition are equal sets. */
    method Find(basis: seq<Item>) returns (t: nat)
      ensures t <= |states|
      ensures t < |states| ==> ItemSet(states[t].basis) == ItemSet(basis)
      ensures t == |states| ==> ItemSet(basis) !in UsedBases(states)
    {
      t := 0;
      while t < |states|
        invariant t <= |states|
        invariant forall s :: 0 <= s < t ==> ItemSet(states[s].basis) != ItemSet(basis)
      {
        if ItemSet(states[t].basis) == ItemSet(basis) {
          return;
        }
        t := t + 1;
      }
    }

    /** Plink_copy for a state that exists already: each basis configuration receives the back
        links of the configuration it stands for. */
    method CopyLinks(t: nat, basis: seq<Item>, back: BackLinks)
      requires Valid() && t < |states| && ItemSet(states[t].basis) == ItemSet(basis)
      requires |back| == |basis| && LinksBelow(back, |bplp|) && Origin(g, states, basis, back)
      modifies this`bplp
      ensures Valid() && Grown(states, old(bplp), states, bplp) && |bplp| == |old(bplp)|
      ensures AllLinked(states, bplp, t, basis, back)
    {
      hide Traced, Founded, BackExact, Origin, ExactAt, FoundedAt, LinkTarget, LinkFrom, LinkSource, ComesFrom,
        BackFrom;
      assert states[..|states|] == states;
      for k := 0 to |basis|
        invariant Valid() && Grown(states, old(bplp), states, bplp) && |bplp| == |old(bplp)|
        invariant forall m, d :: 0 <= m < k && d in back[m] ==> LinkedBack(states, bplp, t, basis[m], d)
      {
        assert basis[k] in ItemSet(states[t].basis);
        var j := 0;
        while states[t].basis[j] != basis[k]
          invariant j < |states[t].basis| && basis[k] in states[t].basis[j..]
          decreases |states[t].basis| - j
        {
          j := j + 1;
        }
        ghost var was := bplp;
        var id := states[t].Id(j);
        assert states[t].base + |states[t].cl.items| <= |bplp|;
        LinksCopied(g, lambda, first, states, bplp, id, back[k]);
        OriginAt(g, states, basis, back, k, t, j);
        TracedCopied(g, states, bplp, t, j, back[k]);
        bplp := bplp[id := back[k] + bplp[id]];
        forall m, d | 0 <= m < k + 1 && d in back[m] ensures LinkedBack(states, bplp, t, basis[m], d) {
          if m < k {
            LinkedBackLasts(states, was, states, bplp, t, basis[m], d);
          } else {
            assert states[t].basis[j] == basis[m] && d in bplp[states[t].Id(j)];
          }
        }
      }
    }

    /** getstate: the state with the given basis, built along with everything it leads to if it
        does not exist yet. */
    method GetState(basis: seq<Item>, back: BackLinks) returns (t: nat)
      requires Valid() && BasisOk(g, basis, |states|)
      requires |back| == |basis| && LinksBelow(back, |bplp|) && Origin(g, states, basis, back)
      modifies this
      ensures Valid() && Grown(old(states), old(bplp), states, bplp)
      ensures t < |states| && ItemSet(states[t].basis) == ItemSet(basis) && AllLinked(states, bplp, t, basis, back)
      ensures forall s :: |old(states)| <= s < |states| ==> Complete(g, states, bplp, s)
      decreases FreeBases(g, states), 0
    {
      hide Traced, Founded, BackExact, Origin, ExactAt, FoundedAt, LinkTarget, LinkFrom, LinkSource, ComesFrom,
        BackFrom;
      t := Find(basis);
      if t < |states| {
        CopyLinks(t, basis, back);
      } else {
        var cl := Close(g, lambda, first, basis, Seed(t));
        var st := State(basis, cl, |bplp|, map[]);
        var links := bplp + back + seq(|cl.items| - |basis|, _ => []);
        StateAdded(g, lambda, first, states, bplp, st, back, links);
        TracedAdded(g, states, bplp, st, back, links);
        BasisBounded(g, basis);
        FreeBasesShrink(g, states, states + [st]);
        var added := states + [st];
        states, bplp := added, links;
        BuildShifts(t);
        StateBuilt(old(states), old(bplp), added, links, states, bplp, t, basis, back);
      }
    }

    /** One turn of buildshifts: the successor of state `s` on the symbol after configuration `c`. */
    method ShiftSymbol(s: nat, c: nat, complete: seq<bool>, ghost was: seq<State>, ghost wasLinks: BackLinks)
      returns (now: seq<bool>)
      requires Valid() && Building(g, was, wasLinks, states, bplp, s)
      requires c < |states[s].cl.items| && Progress(g, states, bplp, s, complete, c)
      requires !complete[c] && !states[s].cl.items[c].AtEnd(g)
      modifies this
      ensures Valid() && Building(g, was, wasLinks, states, bplp, s)
      ensures Progress(g, states, bplp, s, now, c + 1)
      ensures states[s].(shifts := map[]) == old(states)[s].(shifts := map[])
      decreases FreeBases(g, states), 1
    {
      hide Traced, Founded, BackExact, Origin, ExactAt, FoundedAt, LinkTarget, LinkFrom, LinkSource, ComesFrom,
        BackFrom, Progress, NextIs, Shifted, LinkedBack;
      var items, x := states[s].cl.items, states[s].cl.items[c].Next(g);
      ProgressNext(g, states, bplp, s, complete, c);
      ghost var st0, bl0 := states, bplp;
      var basis, back;
      now, basis, back := Gather(g, items, states[s].base, x, c, complete);
      GatheredOrigin(g, states, s, x, c, basis, back);
      var t := GetState(basis, back);
      ghost var st1, bl1 := states, bplp;
      ProgressLasts(g, st0, bl0, st1, bl1, s, complete, c);
      ghost var st2 := st1[s := st1[s].(shifts := st1[s].shifts[x := t])];
      ShiftAdded(g, lambda, first, st1, bl1, st2, s, x, t, c);
      TracedSame(g, st1, st2, bl1);
      ProgressMade(g, st1, bl1, s, complete, c, st2, now, x, t, basis, back);
      ShiftStep(g, was, wasLinks, st0, bl0, st1, bl1, st2, s);
      states := states[s := states[s].(shifts := states[s].shifts[x := t])];
    }

    /** buildshifts: all successors of state `s`. */
    method BuildShifts(s: nat)
      requires Valid() && s < |states| && states[s].shifts == map[]
      modifies this
      ensures Valid() && Building(g, old(states), old(bplp), states, bplp, s)
      ensures states[s].(shifts := map[]) == old(states)[s]
      ensures Complete(g, states, bplp, s)
      decreases FreeBases(g, states), 2
    {
      hide Traced, AutomatonOk, Building, Progress, Complete, Shifted, ListOk, FirstsOk, FreeBases;
      ghost var st0, bl0 := states, bplp;
      BuildingStart(g, lambda, first, states, bplp, s);
      StateList(g, lambda, first, states, bplp, s);
      var items := states[s].cl.items;
      var complete := seq(|items|, _ => false);
      for c := 0 to |items|
        invariant Valid() && Building(g, st0, bl0, states, bplp, s)
        invariant s < |states| && states[s].(shifts := map[]) == st0[s] && ListOk(g, states[s].cl)
        invariant Progress(g, states, bplp, s, complete, c)
      {
        ProgressEnds(g, states, bplp, s, complete, c);
        if !complete[c] && !items[c].AtEnd(g) {
          BuildingBases(g, st0, bl0, states, bplp, s);
          complete := ShiftSymbol(s, c, complete, st0, bl0);
          BuildingState(g, st0, bl0, states, bplp, s);
          StateList(g, lambda, first, states, bplp, s);
        }
      }
      ProgressEnds(g, states, bplp, s, complete, |items|);
    }

    /** FindStates: the whole automaton.  State 0 starts the start symbol's rules. */
    method FindStates()
      requires Valid() && states == []
      modifies this
      ensures Valid() && |states| > 0
      ensures forall s :: 0 <= s < |states| ==> Complete(g, states, bplp, s)
    {
      hide Traced, Founded, BackExact, Origin, ExactAt, FoundedAt, LinkTarget, LinkFrom, LinkSource, ComesFrom,
        BackFrom;
      var basis: seq<Item> := [];
      for r := 0 to |g.rules|
        invariant DistinctItems(basis)
        invariant forall it :: it in basis <==> it.rule < r && it.dot == 0 && g.rules[it.rule].lhs == g.start
        invariant states == [] && Valid()
      {
        if g.rules[r].lhs == g.start {
          basis := basis + [Item(r, 0)];
        }
      }
      NoOrigin(g, basis, seq(|basis|, _ => []));
      var t := GetState(basis, seq(|basis|, _ => []));
    }

    /** FindLinks: every back link becomes a forward link beside those of the closures. */
    method FindLinks() returns (fplp: seq<seq<nat>>)
      requires Valid()
      ensures |fplp| == |bplp|
      ensures forall c, d: nat :: 0 <= c < |bplp| ==>
        (d in fplp[c] <==> ClosureLink(states, c, d) || (d < |bplp| && c in bplp[d]))
    {
      hide Traced, Founded, BackExact, Origin, ExactAt, FoundedAt, LinkTarget, LinkFrom, LinkSource, ComesFrom,
        BackFrom;
      fplp := ClosureLinks();
      for d := 0 to |bplp|
        invariant |fplp| == |bplp|
        invariant forall c, e: nat :: 0 <= c < |bplp| ==>
          (e in fplp[c] <==> ClosureLink(states, c, e) || (e < d && c in bplp[e]))
      {
        for k := 0 to |bplp[d]|
          invariant |fplp| == |bplp|
          invariant forall c, e: nat :: 0 <= c < |bplp| ==>
            (e in fplp[c] <==> ClosureLink(states, c, e) || (e < d && c in bplp[e]) || (e == d && c in bplp[d][..k]))
        {
          var other := bplp[d][k];
          assert other in bplp[d];
          fplp := fplp[other := [d] + fplp[other]];
          assert bplp[d][..k + 1] == bplp[d][..k] + [other];
        }
        assert bplp[d][..|bplp[d]|] == bplp[d];
      }
    }

    /** The links made by the closures, in terms of configuration numbers. */
    method ClosureLinks() returns (fplp: seq<seq<nat>>)
      requires Valid()
      ensures |fplp| == |bplp|
      ensures forall c, d: nat :: 0 <= c < |bplp| ==> (d in fplp[c] <==> ClosureLink(states, c, d))
    {
      hide Traced, Founded, BackExact, Origin, ExactAt, FoundedAt, LinkTarget, LinkFrom, LinkSource, ComesFrom,
        BackFrom;
      fplp := seq(|bplp|, _ => []);
      for s := 0 to |states|
        invariant |fplp| == |bplp|
        invariant forall c, d: nat :: 0 <= c < |bplp| ==> (d in fplp[c] <==> ClosureLink(states[..s], c, d))
      {
        ghost var was := fplp;
        assert StateOk(g, lambda, first, states[s], s);
        fplp := StateLinks(states[s], fplp);
        forall c, d: nat | 0 <= c < |bplp| ensures d in fplp[c] <==> ClosureLink(states[..s + 1], c, d) {
          LinksOneMore(states, s, c, d);
          if states[s].base <= c {
            NoEarlierLink(g, lambda, first, states, bplp, s, c, d);
          }
        }
      }
      assert states[..|states|] == states;
    }
  }

  /** The links of one closure, written over the entries of its configurations. */
  method StateLinks(st: State, fplp: seq<seq<nat>>) returns (now: seq<seq<nat>>)
    requires |st.cl.fplp| == |st.cl.items| && st.base + |st.cl.items| <= |fplp|
    ensures |now| == |fplp|
    ensures forall c :: 0 <= c < |fplp| ==>
      now[c] == if st.base <= c < st.base + |st.cl.items| then Raised(st.cl.fplp[c - st.base], st.base) else fplp[c]
  {
    now := fplp;
    for i := 0 to |st.cl.items|
      invariant |now| == |fplp|
      invariant forall c :: 0 <= c < |fplp| ==>
        now[c] == if st.base <= c < st.base + i then Raised(st.cl.fplp[c - st.base], st.base) else fplp[c]
    {
      now := now[st.Id(i) := Raised(st.cl.fplp[i], st.base)];
    }
  }

  lemma LinksOneMore(states: seq<State>, s: nat, c: nat, d: nat)
    requires s < |states|
    ensures ClosureLink(states[..s + 1], c, d) <==> ClosureLink(states[..s], c, d) || LinkOfState(states[s], c, d)
  {
    if ClosureLink(states[..s + 1], c, d) {
      var r: nat :| r < s + 1 && LinkOfState(states[..s + 1][r], c, d);
      assert r < s ==> states[..s][r] == states[..s + 1][r];
    }
    if ClosureLink(states[..s], c, d) {
      var r: nat :| r < s && LinkOfState(states[..s][r], c, d);
      assert LinkOfState(states[..s + 1][r], c, d);
    }
    if LinkOfState(states[s], c, d) {
      assert LinkOfState(states[..s + 1][s], c, d);
    }
  }

  function Raised(links: seq<nat>, base: nat): seq<nat> {
    seq(|links|, k requires 0 <= k < |links| => base + links[k])
  }

  /** The closure of `st` links its configuration number `c` to number `d`. */
  ghost predicate LinkOfState(st: State, c: nat, d: nat) {
    && st.base <= c < st.base + |st.cl.items| && |st.cl.fplp| == |st.cl.items|
    && d in Raised(st.cl.fplp[c - st.base], st.base)
  }

  ghost predicate ClosureLink(states: seq<State>, c: nat, d: nat) {
    exists s: nat :: s < |states| && LinkOfState(states[s], c, d)
  }

  lemma NoEarlierLink(g: Grammar, lambda: seq<bool>, first: seq<set<nat>>, states: seq<State>, bplp: BackLinks, s: nat,
                      c: nat, d: nat)
    requires AutomatonOk(g, lambda, first, states, bplp) && s < |states| && states[s].base <= c
    ensures !ClosureLink(states[..s], c, d)
  {
    forall r: nat | r < |states[..s]| ensures !LinkOfState(states[..s][r], c, d) {
      assert states[..s][r] == states[r];
    }
  }
}
