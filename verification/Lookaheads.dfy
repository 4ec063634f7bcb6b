/** From the links of the automaton to lookaheads: the follow sets that lemon computes are exactly the
    LALR(1) lookaheads of the grammar, and the states are exactly the sets of valid items. */
module Lookaheads {
  import opened Grammars
  import opened SymbolSets
  import opened FirstSets
  import opened Closures
  import opened Lr0
  import F = FollowSets
  import opened Options
  import opened Driver
  import opened ParserCompleteness
  import opened Lalr

  // ----- follow sets of the whole automaton

  /** The follow sets the closures gave to their configurations, by configuration number. */
  ghost predicate Initial(states: seq<State>, v: Follows) {
    && (forall s, i ::
          0 <= s < |states| && 0 <= i < |states[s].cl.items| && |states[s].cl.fws| == |states[s].cl.items| ==>
          states[s].Id(i) < |v| && v[states[s].Id(i)] == states[s].cl.fws[i])
  }

  lemma FwsAreTerminals(g: Grammar, lambda: seq<bool>, first: seq<set<nat>>, st: State, s: nat, n: nat, t: nat)
    requires StateOk(g, lambda, first, st, s) && n < |st.cl.items| && t in st.cl.fws[n]
    ensures g.Terminal(t)
  {
    if !(n < |st.basis| && t in Seed(s)) {
      assert Heard(g, lambda, first, st.cl, n, t) && FirstsOk(g, lambda, first);
      hide Exact, ClosureOk, StateOk, FirstClosed, LambdaClosed, LambdaSound, FirstSound, FormBegins;
      var i :| 0 <= i < |st.cl.items| && st.cl.items[i].Expands(g, st.cl.items[n].rule)
        && FormBegins(g, lambda, first, st.cl.items[i].Rest(g), t);
      BeginsTerminal(g, lambda, first, st.cl.items[i].Rest(g), t);
    }
  }

  /** One state's share of the initial follow sets. */
  method PlaceFollows(st: State, v: Follows) returns (now: Follows)
    requires |st.cl.fws| == |st.cl.items| && st.base + |st.cl.items| <= |v|
    ensures |now| == |v|
    ensures forall c :: 0 <= c < |v| ==>
      now[c] == if st.base <= c < st.base + |st.cl.items| then st.cl.fws[c - st.base] else v[c]
  {
    now := v;
    for i := 0 to |st.cl.items|
      invariant |now| == |v|
      invariant forall c :: 0 <= c < |v| ==> now[c] == if st.base <= c < st.base + i then st.cl.fws[c - st.base]
        else v[c]
    {
      now := now[st.Id(i) := st.cl.fws[i]];
    }
  }

  method InitialFollows(g: Grammar, ghost lambda: seq<bool>, ghost first: seq<set<nat>>, states: seq<State>,
                        bplp: BackLinks) returns (v: Follows)
    requires AutomatonOk(g, lambda, first, states, bplp) && g.Valid()
    ensures |v| == |bplp| && Initial(states, v)
    ensures forall c :: 0 <= c < |v| ==> forall t :: t in v[c] ==> g.Terminal(t)
  {
    v := seq(|bplp|, _ => {});
    for s := 0 to |states|
      invariant |v| == |bplp| && Initial(states[..s], v)
      invariant forall c :: 0 <= c < |v| ==> forall t :: t in v[c] ==> g.Terminal(t)
    {
      assert StateOk(g, lambda, first, states[s], s);
      forall i, t | 0 <= i < |states[s].cl.items| && t in states[s].cl.fws[i] ensures g.Terminal(t) {
        FwsAreTerminals(g, lambda, first, states[s], s, i, t);
      }
      ghost var was := v;
      v := PlaceFollows(states[s], v);
      InitialOneMore(states, s, was, v, bplp);
    }
    assert states[..|states|] == states;
  }

  lemma InitialOneMore(states: seq<State>, s: nat, was: Follows, v: Follows, bplp: BackLinks)
    requires Laid(states, bplp) && s < |states| && |was| == |v| == |bplp| && Initial(states[..s], was)
    requires |states[s].cl.fws| == |states[s].cl.items|
    requires forall c :: 0 <= c < |v| ==>
      v[c] == if states[s].base <= c < states[s].base + |states[s].cl.items| then states[s].cl.fws[c - states[s].base]
        else was[c]
    ensures Initial(states[..s + 1], v)
  {
    var now := states[..s + 1];
    forall r, i | 0 <= r < |now| && 0 <= i < |now[r].cl.items| && |now[r].cl.fws| == |now[r].cl.items|
      ensures now[r].Id(i) < |v| && v[now[r].Id(i)] == now[r].cl.fws[i]
    {
      if r < s {
        assert states[..s][r] == now[r];
      }
    }
  }

  // ----- what the closed follow sets mean

  /** The links of the automaton, as FindLinks delivers them. */
  ghost predicate Linked(states: seq<State>, bplp: BackLinks, fplp: F.Links) {
    |fplp| == |bplp| && forall c, d: nat :: 0 <= c < |bplp| ==>
      (d in fplp[c] <==> ClosureLink(states, c, d) || (d < |bplp| && c in bplp[d]))
  }

  ghost predicate Flowed(states: seq<State>, bplp: BackLinks, fplp: F.Links, start: Follows, v: Follows) {
    Linked(states, bplp, fplp) && Initial(states, start) && Below(start, v) && F.Closed(fplp, v) && |v| == |bplp|
  }

  lemma StartFollows(g: Grammar, lambda: seq<bool>, first: seq<set<nat>>, states: seq<State>, bplp: BackLinks,
                     fplp: F.Links, start: Follows, v: Follows, r: nat)
    requires Built(g, lambda, first, states, bplp) && Flowed(states, bplp, fplp, start, v)
    requires r < |g.rules| && g.rules[r].lhs == g.start
    ensures MayFollow(states, v, 0, Item(r, 0), 0)
  {
    var st := states[0];
    assert StateOk(g, lambda, first, st, 0);
    assert Item(r, 0) in st.basis;
    var n: nat :| n < |st.basis| && st.basis[n] == Item(r, 0);
    assert st.cl.items[..|st.basis|][n] == st.cl.items[n];
    assert 0 in st.cl.fws[n] && st.cl.fws[n] == start[st.Id(n)];
    assert FollowedAt(st, v, n, Item(r, 0), 0);
  }

  /** A configuration is linked to the one it becomes when its next symbol is shifted. */
  lemma ShiftLink(g: Grammar, lambda: seq<bool>, first: seq<set<nat>>, states: seq<State>, bplp: BackLinks,
                  fplp: F.Links, s: nat, n: nat)
    returns (to: nat, j: nat)
    requires Built(g, lambda, first, states, bplp) && Linked(states, bplp, fplp)
    requires s < |states| && ListOk(g, states[s].cl) && n < |states[s].cl.items| && !states[s].cl.items[n].AtEnd(g)
    ensures var it := states[s].cl.items[n];
      && it.Next(g) in states[s].shifts && states[s].shifts[it.Next(g)] == to < |states|
      && j < |states[to].cl.items| && states[to].cl.items[j] == it.Advance()
      && states[s].Id(n) < |fplp| && states[to].Id(j) < |fplp| && states[to].Id(j) in fplp[states[s].Id(n)]
  {
    var it, id := states[s].cl.items[n], states[s].Id(n);
    assert Complete(g, states, bplp, s);
    assert Shifted(g, states, bplp, s, n);
    to := states[s].shifts[it.Next(g)];
    assert LinkedBack(states, bplp, to, it.Advance(), id);
    j :| 0 <= j < |states[to].basis| && states[to].basis[j] == it.Advance() && id in bplp[states[to].Id(j)];
    assert StateOk(g, lambda, first, states[to], to);
    assert states[to].cl.items[..|states[to].basis|][j] == states[to].cl.items[j];
    assert id < |bplp| && states[to].Id(j) < |bplp|;
    hide *;
    LinkForward(states, bplp, fplp, id, states[to].Id(j));
  }

  /** A back link is a forward link. */
  lemma LinkForward(states: seq<State>, bplp: BackLinks, fplp: F.Links, c: nat, d: nat)
    requires Linked(states, bplp, fplp) && c < |bplp| && d < |bplp| && c in bplp[d]
    ensures c < |fplp| && d < |fplp| && d in fplp[c]
  {
  }

  lemma ShiftFollows(g: Grammar, lambda: seq<bool>, first: seq<set<nat>>, states: seq<State>, bplp: BackLinks,
                     fplp: F.Links, start: Follows, v: Follows, s: nat, it: Item, t: nat)
    requires Built(g, lambda, first, states, bplp) && Flowed(states, bplp, fplp, start, v)
    requires MayFollow(states, v, s, it, t) && it.Ok(g) && !it.AtEnd(g)
    ensures it.Next(g) in states[s].shifts && MayFollow(states, v, states[s].shifts[it.Next(g)], it.Advance(), t)
  {
    var n: nat :| FollowedAt(states[s], v, n, it, t);
    assert StateOk(g, lambda, first, states[s], s);
    var to, j := ShiftLink(g, lambda, first, states, bplp, fplp, s, n);
    hide Built, StateOk, ClosureOk, Initial, Linked;
    assert F.Satisfied(fplp, v, states[s].Id(n));
    assert FollowedAt(states[to], v, j, it.Advance(), t);
  }

  /** A link that the closure made is a forward link. */
  lemma VanishingLink(states: seq<State>, bplp: BackLinks, fplp: F.Links, s: nat, n: nat, m: nat)
    requires Linked(states, bplp, fplp) && s < |states| && |states[s].cl.fplp| == |states[s].cl.items|
    requires n < |states[s].cl.items| && m in states[s].cl.fplp[n] && states[s].base + |states[s].cl.items| <= |bplp|
    ensures states[s].Id(n) < |fplp| && states[s].Id(m) in fplp[states[s].Id(n)]
  {
    var st := states[s];
    var k :| 0 <= k < |st.cl.fplp[n]| && st.cl.fplp[n][k] == m;
    assert Raised(st.cl.fplp[n], st.base)[k] == st.Id(m);
    assert LinkOfState(st, st.Id(n), st.Id(m));
    assert ClosureLink(states, st.Id(n), st.Id(m));
  }

  lemma ExpansionFollows(g: Grammar, lambda: seq<bool>, first: seq<set<nat>>, states: seq<State>, bplp: BackLinks,
                         fplp: F.Links, start: Follows, v: Follows, s: nat, it: Item, t: nat, r: nat)
    requires Built(g, lambda, first, states, bplp) && Flowed(states, bplp, fplp, start, v)
    requires MayFollow(states, v, s, it, t) && it.Ok(g) && r < |g.rules| && it.Expands(g, r)
    ensures FollowsExpansion(g, lambda, first, states, v, s, it, t, r)
  {
    var st := states[s];
    var n: nat :| FollowedAt(st, v, n, it, t);
    assert StateOk(g, lambda, first, st, s) && Expanded(g, lambda, first, st.cl, n, r);
    var m: nat :| Hears(g, lambda, first, st.cl, n, r, m);
    hide Built, StateOk, ClosureOk, Complete, AllLambda, FormBegins, FirstsOk, LinkOfState, ClosureLink, Raised, Linked;
    forall u: nat | FormBegins(g, lambda, first, it.Rest(g), u) ensures MayFollow(states, v, s, Item(r, 0), u) {
      assert u in st.cl.fws[m] && st.cl.fws[m] == start[st.Id(m)];
      assert FollowedAt(st, v, m, Item(r, 0), u);
    }
    if AllLambda(lambda, it.Rest(g)) {
      VanishingLink(states, bplp, fplp, s, n, m);
      assert F.Satisfied(fplp, v, st.Id(n));
      assert FollowedAt(st, v, m, Item(r, 0), t);
    }
  }

  /** Sets closed along the links of a finished automaton have every symbol a parse can need. */
  lemma FlowedFollowsOk(g: Grammar, lambda: seq<bool>, first: seq<set<nat>>, states: seq<State>, bplp: BackLinks,
                        fplp: F.Links, start: Follows, v: Follows)
    requires Built(g, lambda, first, states, bplp) && Flowed(states, bplp, fplp, start, v)
    ensures FollowsOk(g, lambda, first, states, v)
  {
    hide Built, Flowed, MayFollow, FollowsExpansion;
    forall r | 0 <= r < |g.rules| && g.rules[r].lhs == g.start ensures MayFollow(states, v, 0, Item(r, 0), 0) {
      StartFollows(g, lambda, first, states, bplp, fplp, start, v, r);
    }
    forall s: nat, it: Item, t: nat | MayFollow(states, v, s, it, t) && it.Ok(g) && !it.AtEnd(g)
      ensures s < |states| && it.Next(g) in states[s].shifts
        && MayFollow(states, v, states[s].shifts[it.Next(g)], it.Advance(), t)
    {
      MayFollowState(states, v, s, it, t);
      ShiftFollows(g, lambda, first, states, bplp, fplp, start, v, s, it, t);
    }
    forall s: nat, it: Item, t: nat, r: nat | MayFollow(states, v, s, it, t) && it.Ok(g) && r < |g.rules|
      && it.Expands(g, r)
      ensures FollowsExpansion(g, lambda, first, states, v, s, it, t, r)
    {
      ExpansionFollows(g, lambda, first, states, bplp, fplp, start, v, s, it, t, r);
    }
  }

  lemma MayFollowState(states: seq<State>, v: Follows, s: nat, it: Item, t: nat)
    requires MayFollow(states, v, s, it, t)
    ensures s < |states|
  {
  }

  lemma LinkInside(g: Grammar, st: State, c: nat, d: nat)
    requires ListOk(g, st.cl) && LinkOfState(st, c, d)
    ensures d < st.base + |st.cl.items|
  {
    var links := st.cl.fplp[c - st.base];
    var k :| 0 <= k < |links| && Raised(links, st.base)[k] == d;
    assert links[k] in links;
  }

  /** Forward links lead to configurations. */
  lemma LinkedInside(g: Grammar, lambda: seq<bool>, first: seq<set<nat>>, states: seq<State>, bplp: BackLinks,
                     fplp: F.Links)
    requires AutomatonOk(g, lambda, first, states, bplp) && Linked(states, bplp, fplp)
    ensures F.LinksOk(fplp)
  {
    forall c, d | 0 <= c < |fplp| && d in fplp[c] ensures d < |fplp| {
      if ClosureLink(states, c, d) {
        var s: nat :| s < |states| && LinkOfState(states[s], c, d);
        assert StateOk(g, lambda, first, states[s], s);
        LinkInside(g, states[s], c, d);
      }
    }
  }

  // ----- states are sets of valid items

  /** The state that the prefix `w` leads to. */
  function At(states: seq<State>, w: Form): Option<nat>
    decreases |w|
  {
    if w == [] then Some(0)
    else match At(states, w[..|w| - 1])
      case None => None
      case Some(s) => if s < |states| && w[|w| - 1] in states[s].shifts then Some(states[s].shifts[w[|w| - 1]])
        else None
  }

  lemma AtMore(states: seq<State>, w: Form, s: nat, x: nat)
    requires At(states, w) == Some(s) && s < |states| && x in states[s].shifts
    ensures At(states, w + [x]) == Some(states[s].shifts[x])
  {
    var u := w + [x];
    assert u[..|u| - 1] == w;
  }

  lemma {:induction false} AtState(g: Grammar, lambda: seq<bool>, first: seq<set<nat>>, states: seq<State>,
                                   bplp: BackLinks, w: Form)
    requires AutomatonOk(g, lambda, first, states, bplp) && |states| > 0 && At(states, w).Some?
    ensures At(states, w).value < |states| && (At(states, w).value == 0 <==> w == [])
    decreases |w|
  {
    if w != [] {
      var u := w[..|w| - 1];
      AtState(g, lambda, first, states, bplp, u);
      NeverBackToStart(g, lambda, first, states, bplp, At(states, u).value, w[|w| - 1]);
    }
  }

  lemma StartItem(g: Grammar, lambda: seq<bool>, first: seq<set<nat>>, st: State, r: nat)
    requires StateOk(g, lambda, first, st, 0) && r < |g.rules| && g.rules[r].lhs == g.start
    ensures Item(r, 0) in st.cl.items
  {
    var n: nat :| n < |st.basis| && st.basis[n] == Item(r, 0);
    assert st.cl.items[..|st.basis|][n] == st.cl.items[n];
  }

  lemma ExpandedItem(g: Grammar, lambda: seq<bool>, first: seq<set<nat>>, st: State, s: nat, c: Item, r: nat)
    requires StateOk(g, lambda, first, st, s) && c in st.cl.items && Calls(g, c, r)
    ensures Item(r, 0) in st.cl.items
  {
    var i: nat :| i < |st.cl.items| && st.cl.items[i] == c;
    assert Expanded(g, lambda, first, st.cl, i, r);
    var n: nat :| Hears(g, lambda, first, st.cl, i, r, n);
  }

  lemma ShiftedItem(g: Grammar, lambda: seq<bool>, first: seq<set<nat>>, states: seq<State>, bplp: BackLinks, s: nat,
                    it: Item)
    requires Built(g, lambda, first, states, bplp) && s < |states| && it in states[s].cl.items && it.Ok(g)
      && !it.AtEnd(g)
    ensures it.Next(g) in states[s].shifts && states[s].shifts[it.Next(g)] < |states|
    ensures it.Advance() in states[states[s].shifts[it.Next(g)]].cl.items
  {
    assert StateOk(g, lambda, first, states[s], s) && ShiftsOk(g, states, s);
    var n: nat :| n < |states[s].cl.items| && states[s].cl.items[n] == it;
    assert Complete(g, states, bplp, s) && Shifted(g, states, bplp, s, n);
    var to := states[s].shifts[it.Next(g)];
    assert StateOk(g, lambda, first, states[to], to);
    assert it.Advance() in states[to].basis;
    hide Built, Complete, ShiftsOk, Shifted;
    BasisInList(g, lambda, first, states[to], to, it.Advance());
  }

  lemma BasisInList(g: Grammar, lambda: seq<bool>, first: seq<set<nat>>, st: State, s: nat, it: Item)
    requires StateOk(g, lambda, first, st, s) && it in st.basis
    ensures it in st.cl.items
  {
    var j :| 0 <= j < |st.basis| && st.basis[j] == it;
    assert st.cl.items[..|st.basis|][j] == st.cl.items[j];
  }

  /** Every prefix with a valid item leads to a state that has the item. */
  lemma {:induction false} ValidReached(g: Grammar, lambda: seq<bool>, first: seq<set<nat>>, states: seq<State>,
                                        bplp: BackLinks, w: Form, it: Item, n: nat) returns (s: nat)
    requires Built(g, lambda, first, states, bplp) && ValidIn(g, w, it, n)
    ensures At(states, w) == Some(s) && s < |states| && it in states[s].cl.items
    decreases n
  {
    hide AutomatonOk, Complete, StateOk;
    if it.dot > 0 {
      var was := Item(it.rule, it.dot - 1);
      var p := ValidReached(g, lambda, first, states, bplp, w[..|w| - 1], was, n - 1);
      ShiftedItem(g, lambda, first, states, bplp, p, was);
      s := states[p].shifts[was.Next(g)];
      assert was.Advance() == it;
    } else if w == [] && g.rules[it.rule].lhs == g.start {
      s := 0;
      BuiltState(g, lambda, first, states, bplp, 0);
      StartItem(g, lambda, first, states[0], it.rule);
    } else {
      var c: Item :| Calls(g, c, it.rule) && ValidIn(g, w, c, n - 1);
      s := ValidReached(g, lambda, first, states, bplp, w, c, n - 1);
      BuiltState(g, lambda, first, states, bplp, s);
      ExpandedItem(g, lambda, first, states[s], s, c, it.rule);
    }
  }

  lemma BuiltState(g: Grammar, lambda: seq<bool>, first: seq<set<nat>>, states: seq<State>, bplp: BackLinks, s: nat)
    requires Built(g, lambda, first, states, bplp) && s < |states|
    ensures StateOk(g, lambda, first, states[s], s) && ListOk(g, states[s].cl) && ShiftsOk(g, states, s)
      && Complete(g, states, bplp, s)
  {
  }

  /** Where configuration `n` of a state comes from: the start, an earlier configuration that calls for
      it, or a configuration of the state before. */
  lemma ItemOrigin(g: Grammar, lambda: seq<bool>, first: seq<set<nat>>, st: State, s: nat, n: nat)
    requires StateOk(g, lambda, first, st, s) && n < |st.cl.items|
    ensures var it := st.cl.items[n];
      && it.Ok(g)
      && (n < |st.basis| ==> it in st.basis && if s == 0 then it.dot == 0 && g.rules[it.rule].lhs == g.start
        else it.dot > 0)
      && (n >= |st.basis| ==>
            it.dot == 0 && exists i :: 0 <= i < n && st.cl.items[i].Ok(g) && st.cl.items[i].Expands(g, it.rule))
  {
    if n < |st.basis| {
      assert st.cl.items[..|st.basis|][n] == st.basis[n];
    }
  }

  lemma AdvancedItem(g: Grammar, lambda: seq<bool>, first: seq<set<nat>>, states: seq<State>, bplp: BackLinks, p: nat,
                     x: nat, it: Item)
    requires Built(g, lambda, first, states, bplp) && p < |states| && x in states[p].shifts
    requires states[p].shifts[x] < |states| && it in states[states[p].shifts[x]].basis
    ensures it.dot > 0 && it.Ok(g) && g.rules[it.rule].rhs[it.dot - 1] == x
      && Item(it.rule, it.dot - 1) in states[p].cl.items
  {
    BuiltState(g, lambda, first, states, bplp, p);
    hide Built;
    AdvancedFrom(g, states[p].cl, states[states[p].shifts[x]].basis, x, it);
  }

  /** Every item of a state is valid for every prefix that leads there. */
  lemma {:induction false} ReachedValid(g: Grammar, lambda: seq<bool>, first: seq<set<nat>>, states: seq<State>,
                                        bplp: BackLinks, w: Form, s: nat, n: nat)
    requires Built(g, lambda, first, states, bplp) && At(states, w) == Some(s) && s < |states|
      && n < |states[s].cl.items|
    ensures Valid(g, w, states[s].cl.items[n])
    decreases |w|, n
  {
    hide AutomatonOk, Complete, StateOk;
    var it := states[s].cl.items[n];
    BuiltState(g, lambda, first, states, bplp, s);
    ItemOrigin(g, lambda, first, states[s], s, n);
    BuiltAt(g, lambda, first, states, bplp, w);
    if n >= |states[s].basis| {
      var i :| 0 <= i < n && states[s].cl.items[i].Ok(g) && states[s].cl.items[i].Expands(g, it.rule);
      ReachedValid(g, lambda, first, states, bplp, w, s, i);
      ValidExpands(g, w, states[s].cl.items[i], it.rule);
      assert it == Item(it.rule, 0);
    } else if s == 0 {
      ValidStart(g, it.rule);
      assert it == Item(it.rule, 0);
    } else {
      var u, x := w[..|w| - 1], w[|w| - 1];
      var p := At(states, u).value;
      AdvancedItem(g, lambda, first, states, bplp, p, x, it);
      var was := Item(it.rule, it.dot - 1);
      var m: nat :| m < |states[p].cl.items| && states[p].cl.items[m] == was;
      ReachedValid(g, lambda, first, states, bplp, u, p, m);
      ValidShifts(g, u, was);
      assert u + [x] == w && was.Next(g) == x && was.Advance() == it;
    }
  }

  lemma BuiltAt(g: Grammar, lambda: seq<bool>, first: seq<set<nat>>, states: seq<State>, bplp: BackLinks, w: Form)
    requires Built(g, lambda, first, states, bplp) && At(states, w).Some?
    ensures At(states, w).value < |states| && (At(states, w).value == 0 <==> w == [])
  {
    hide Complete;
    AtState(g, lambda, first, states, bplp, w);
  }

  /** The valid items of a prefix are the items of the state it leads to. */
  lemma StateIsValidItems(g: Grammar, lambda: seq<bool>, first: seq<set<nat>>, states: seq<State>, bplp: BackLinks,
                          w: Form, it: Item)
    requires Built(g, lambda, first, states, bplp)
    ensures Valid(g, w, it) <==>
      At(states, w).Some? && At(states, w).value < |states| && it in states[At(states, w).value].cl.items
  {
    hide Built, ValidIn;
    if Valid(g, w, it) {
      var n: nat :| ValidIn(g, w, it, n);
      var s := ValidReached(g, lambda, first, states, bplp, w, it, n);
    }
    if At(states, w).Some? && At(states, w).value < |states| && it in states[At(states, w).value].cl.items {
      var s := At(states, w).value;
      var n: nat :| n < |states[s].cl.items| && states[s].cl.items[n] == it;
      ReachedValid(g, lambda, first, states, bplp, w, s, n);
    }
  }

  /** The shift that founded a state leads to it. */
  lemma FoundingShift(g: Grammar, lambda: seq<bool>, first: seq<set<nat>>, states: seq<State>, bplp: BackLinks, p: nat,
                      x: nat, s: nat)
    requires Built(g, lambda, first, states, bplp) && s < |states|
      && ComesFrom(g, states, p, x, ItemSet(states[s].basis))
    ensures p < |states| && x in states[p].shifts && states[p].shifts[x] == s
  {
    BuiltState(g, lambda, first, states, bplp, p);
    var i: nat :| NextIs(g, states[p].cl.items, i, x);
    assert Shifted(g, states, bplp, p, i);
    assert Laid(states, bplp);
  }

  /** Every state is reached. */
  lemma {:induction false} StateReached(g: Grammar, lambda: seq<bool>, first: seq<set<nat>>, states: seq<State>,
                                        bplp: BackLinks, s: nat)
    returns (w: Form)
    requires Built(g, lambda, first, states, bplp) && Traced(g, states, bplp) && s < |states|
    ensures At(states, w) == Some(s)
    decreases s
  {
    hide Built, BackExact, ComesFrom;
    if s == 0 {
      w := [];
    } else {
      assert FoundedAt(g, states, s);
      var p: nat, x: nat :| p < s && ComesFrom(g, states, p, x, ItemSet(states[s].basis));
      FoundingShift(g, lambda, first, states, bplp, p, x, s);
      var u := StateReached(g, lambda, first, states, bplp, p);
      AtMore(states, u, p, x);
      w := u + [x];
    }
  }

  /** No two states have the same items. */
  lemma SameItemsSameState(g: Grammar, lambda: seq<bool>, first: seq<set<nat>>, states: seq<State>, bplp: BackLinks,
                           s: nat, t: nat)
    requires Built(g, lambda, first, states, bplp) && 0 < s < |states| && 0 < t < |states|
    requires forall it :: it in states[s].cl.items <==> it in states[t].cl.items
    ensures s == t
  {
    BuiltState(g, lambda, first, states, bplp, s);
    BuiltState(g, lambda, first, states, bplp, t);
    BasisIsPast(g, lambda, first, states[s], s);
    BasisIsPast(g, lambda, first, states[t], t);
    assert ItemSet(states[s].basis) == ItemSet(states[t].basis);
    assert Laid(states, bplp);
  }

  lemma BasisIsPast(g: Grammar, lambda: seq<bool>, first: seq<set<nat>>, st: State, s: nat)
    requires StateOk(g, lambda, first, st, s) && s > 0
    ensures forall it :: it in st.basis <==> it in st.cl.items && it.dot > 0
  {
    forall it ensures it in st.basis <==> it in st.cl.items && it.dot > 0 {
      if it in st.basis {
        var j :| 0 <= j < |st.basis| && st.basis[j] == it;
        assert st.cl.items[..|st.basis|][j] == st.cl.items[j];
      }
      if it in st.cl.items && it.dot > 0 {
        InBasis(g, lambda, first, st, s, it);
      }
    }
  }

  /** Prefixes with the same valid items lead to the same state. */
  lemma SamePrefixState(g: Grammar, lambda: seq<bool>, first: seq<set<nat>>, states: seq<State>, bplp: BackLinks,
                        w: Form, u: Form)
    requires Built(g, lambda, first, states, bplp) && SameItems(g, w, u) && At(states, w).Some? && At(states, u).Some?
    ensures At(states, w) == At(states, u)
  {
    hide Built, Valid;
    BuiltAt(g, lambda, first, states, bplp, w);
    BuiltAt(g, lambda, first, states, bplp, u);
    var s, t := At(states, w).value, At(states, u).value;
    forall it ensures it in states[s].cl.items <==> it in states[t].cl.items {
      StateIsValidItems(g, lambda, first, states, bplp, w, it);
      StateIsValidItems(g, lambda, first, states, bplp, u, it);
    }
    if s > 0 && t > 0 {
      SameItemsSameState(g, lambda, first, states, bplp, s, t);
    } else if s > 0 {
      LaterHasDot(g, lambda, first, states, bplp, w);
    } else if t > 0 {
      LaterHasDot(g, lambda, first, states, bplp, u);
    }
  }

  /** A state after the first has an item past its start; the first has none. */
  lemma LaterHasDot(g: Grammar, lambda: seq<bool>, first: seq<set<nat>>, states: seq<State>, bplp: BackLinks, w: Form)
    requires Built(g, lambda, first, states, bplp) && w != [] && At(states, w).Some? && At(states, w).value < |states|
    ensures exists it :: it in states[At(states, w).value].cl.items && it.dot > 0
    ensures forall it :: it in states[0].cl.items ==> it.dot == 0
  {
    hide Built, StateOk, Complete, ShiftsOk, ListOk;
    var u, x := w[..|w| - 1], w[|w| - 1];
    BuiltAt(g, lambda, first, states, bplp, u);
    BuiltAt(g, lambda, first, states, bplp, w);
    ShiftHasDot(g, lambda, first, states, bplp, At(states, u).value, x);
    BuiltState(g, lambda, first, states, bplp, 0);
    forall it | it in states[0].cl.items ensures it.dot == 0 {
      var n: nat :| n < |states[0].cl.items| && states[0].cl.items[n] == it;
      ItemOrigin(g, lambda, first, states[0], 0, n);
    }
  }

  lemma ShiftHasDot(g: Grammar, lambda: seq<bool>, first: seq<set<nat>>, states: seq<State>, bplp: BackLinks, p: nat,
                    x: nat)
    requires Built(g, lambda, first, states, bplp) && p < |states| && x in states[p].shifts
    ensures states[p].shifts[x] < |states| && exists it :: it in states[states[p].shifts[x]].cl.items && it.dot > 0
  {
    BuiltState(g, lambda, first, states, bplp, p);
    hide Built, StateOk, Complete;
    var i: nat :| NextIs(g, states[p].cl.items, i, x);
    ShiftedItem(g, lambda, first, states, bplp, p, states[p].cl.items[i]);
  }

  // ----- follow sets are lookaheads

  /** Configuration number `c` is number `i` of state `s`. */
  ghost predicate IsConfig(states: seq<State>, s: nat, i: nat, c: nat) {
    s < |states| && i < |states[s].cl.items| && c == states[s].Id(i)
  }

  lemma ConfigUnique(states: seq<State>, bplp: BackLinks, s: nat, i: nat, t: nat, j: nat, c: nat)
    requires Laid(states, bplp) && IsConfig(states, s, i, c) && IsConfig(states, t, j, c)
    ensures s == t && i == j
  {
  }

  /** Some prefix that leads to state `s` may have `t` after the item. */
  ghost predicate Looked(g: Grammar, states: seq<State>, s: nat, it: Item, t: nat) {
    exists w :: At(states, w) == Some(s) && Look(g, w, it, t)
  }

  /** What follows an item in a state is what may follow it after some prefix that leads there. */
  ghost predicate FollowsExact(g: Grammar, states: seq<State>, v: Follows) {
    forall s: nat, it: Item, t: nat :: MayFollow(states, v, s, it, t) <==> s < |states| && Looked(g, states, s, it, t)
  }

  /** `v` is below every family that is closed along the links and above `start`. */
  ghost predicate Least(fplp: F.Links, start: Follows, v: Follows) {
    forall w :: Below(start, w) && F.Closed(fplp, w) ==> Below(v, w)
  }

  lemma BeginsLooked(g: Grammar, lambda: seq<bool>, first: seq<set<nat>>, states: seq<State>, bplp: BackLinks,
                     s: nat, i: nat, j: nat, t: nat)
    requires Built(g, lambda, first, states, bplp) && Traced(g, states, bplp) && s < |states|
    requires i < |states[s].cl.items| && states[s].cl.items[i].dot == 0 && j < |states[s].cl.items|
    requires Calls(g, states[s].cl.items[j], states[s].cl.items[i].rule)
    requires g.nsymbol <= |first| && FormBegins(g, lambda, first, states[s].cl.items[j].Rest(g), t)
    ensures Looked(g, states, s, states[s].cl.items[i], t)
  {
    var it, c := states[s].cl.items[i], states[s].cl.items[j];
    BuiltState(g, lambda, first, states, bplp, s);
    assert LambdaSound(g, lambda) && FirstSound(g, first);
    hide Built, StateOk, ShiftsOk, Complete, Traced, LambdaSound, FirstSound, ListOk;
    var k: nat :| BeginsAt(g, lambda, first, c.Rest(g), k, t);
    var rest := FormBeginsDerives(g, lambda, first, c.Rest(g), k, t);
    assert CanStart(g, c.Rest(g), t);
    var w := StateReached(g, lambda, first, states, bplp, s);
    ReachedValid(g, lambda, first, states, bplp, w, s, j);
    LookBegins(g, w, c, it.rule, t);
    assert it == Item(it.rule, 0);
  }

  /** What a closure gives its configurations may follow them. */
  lemma FwsLooked(g: Grammar, lambda: seq<bool>, first: seq<set<nat>>, states: seq<State>, bplp: BackLinks, s: nat,
                  i: nat, t: nat)
    requires Built(g, lambda, first, states, bplp) && Traced(g, states, bplp) && s < |states|
    requires i < |states[s].cl.items| && i < |states[s].cl.fws| && t in states[s].cl.fws[i]
    ensures Looked(g, states, s, states[s].cl.items[i], t)
  {
    var st := states[s];
    BuiltState(g, lambda, first, states, bplp, s);
    if i < |st.basis| && t in Seed(s) {
      ItemOrigin(g, lambda, first, st, s, i);
      LookStart(g, st.cl.items[i].rule);
      assert st.cl.items[i] == Item(st.cl.items[i].rule, 0) && At(states, []) == Some(0);
    } else {
      assert Heard(g, lambda, first, st.cl, i, t);
      var j :| 0 <= j < |st.cl.items| && st.cl.items[j].Expands(g, st.cl.items[i].rule)
        && FormBegins(g, lambda, first, st.cl.items[j].Rest(g), t);
      BeginsLooked(g, lambda, first, states, bplp, s, i, j, t);
    }
  }

  lemma StateLinkEnds(g: Grammar, st: State, c: nat, d: nat) returns (i: nat, k: nat)
    requires ListOk(g, st.cl) && LinkOfState(st, c, d)
    ensures i < |st.cl.items| == |st.cl.fplp| && k < |st.cl.items| && c == st.Id(i) && d == st.Id(k)
      && k in st.cl.fplp[i]
  {
    i := c - st.base;
    var links := st.cl.fplp[i];
    var m :| 0 <= m < |links| && Raised(links, st.base)[m] == d;
    k := links[m];
    assert k in links;
  }

  /** The two ends of a link made by a closure. */
  lemma ClosureLinkEnds(g: Grammar, lambda: seq<bool>, first: seq<set<nat>>, states: seq<State>, bplp: BackLinks,
                        c: nat, d: nat)
    returns (s: nat, i: nat, k: nat)
    requires Built(g, lambda, first, states, bplp) && ClosureLink(states, c, d)
    ensures IsConfig(states, s, i, c) && IsConfig(states, s, k, d) && |states[s].cl.fplp| == |states[s].cl.items|
      && k in states[s].cl.fplp[i]
  {
    hide Built, LinkOfState, ListOk, StateOk, Complete, ShiftsOk;
    s :| s < |states| && LinkOfState(states[s], c, d);
    BuiltState(g, lambda, first, states, bplp, s);
    i, k := StateLinkEnds(g, states[s], c, d);
  }

  /** A link made by a closure passes lookaheads on. */
  lemma ClosurePasses(g: Grammar, lambda: seq<bool>, first: seq<set<nat>>, states: seq<State>, bplp: BackLinks,
                      w: Form, s: nat, i: nat, k: nat, t: nat)
    requires Built(g, lambda, first, states, bplp) && At(states, w) == Some(s) && s < |states|
    requires i < |states[s].cl.items| && k < |states[s].cl.items| && |states[s].cl.fplp| == |states[s].cl.items|
      && k in states[s].cl.fplp[i]
    requires Look(g, w, states[s].cl.items[i], t)
    ensures Look(g, w, states[s].cl.items[k], t)
  {
    var c, it := states[s].cl.items[i], states[s].cl.items[k];
    BuiltState(g, lambda, first, states, bplp, s);
    assert it.dot == 0 && c.Expands(g, it.rule) && AllLambda(lambda, c.Rest(g)) && LambdaSound(g, lambda);
    hide Built, StateOk, ShiftsOk, Complete, Look, ListOk;
    LambdaPrefixDerivesEmpty(g, lambda, c.Rest(g), |c.Rest(g)|);
    assert c.Rest(g)[..|c.Rest(g)|] == c.Rest(g);
    ReachedValid(g, lambda, first, states, bplp, w, s, i);
    LookPasses(g, w, c, it.rule, t);
    assert it == Item(it.rule, 0);
  }

  /** A back link passes lookaheads on, along the shift it stands for. */
  lemma ShiftPasses(g: Grammar, lambda: seq<bool>, first: seq<set<nat>>, states: seq<State>, bplp: BackLinks,
                    w: Form, p: nat, i: nat, s: nat, j: nat, c: nat, t: nat)
    requires Built(g, lambda, first, states, bplp) && At(states, w) == Some(p) && s < |states| && j < |states[s].basis|
    requires LinkSource(g, states, p, i, states[s].basis[j], ItemSet(states[s].basis), c)
      && Look(g, w, states[p].cl.items[i], t)
    ensures Looked(g, states, s, states[s].basis[j], t)
  {
    var it := states[p].cl.items[i];
    BuiltState(g, lambda, first, states, bplp, p);
    hide StateOk, ClosureOk, ShiftsOk, Look;
    assert NextIs(g, states[p].cl.items, i, it.Next(g));
    assert ComesFrom(g, states, p, it.Next(g), ItemSet(states[s].basis));
    FoundingShift(g, lambda, first, states, bplp, p, it.Next(g), s);
    AtMore(states, w, p, it.Next(g));
    LookShifts(g, w, it, t);
  }

  /** Whatever flows along links may follow the configuration where it arrives. */
  lemma {:induction false} FlowLooked(g: Grammar, lambda: seq<bool>, first: seq<set<nat>>, states: seq<State>,
                                      bplp: BackLinks, fplp: F.Links, start: Follows, t: nat, d: nat, path: seq<nat>,
                                      s: nat, i: nat)
    requires Built(g, lambda, first, states, bplp) && Traced(g, states, bplp) && Linked(states, bplp, fplp)
      && Initial(states, start)
    requires F.FlowsTo(fplp, start, t, d, path) && IsConfig(states, s, i, d)
    ensures Looked(g, states, s, states[s].cl.items[i], t)
    decreases |path|
  {
    hide Built, Traced, Look, ListOk, StateOk, ClosureOk, Complete, ShiftsOk, At;
    BuiltState(g, lambda, first, states, bplp, s);
    BuiltFws(g, lambda, first, states, bplp, s);
    var n := |path| - 1;
    if n == 0 {
      FwsLooked(g, lambda, first, states, bplp, s, i, t);
    } else {
      var c := path[n - 1];
      assert F.FlowsTo(fplp, start, t, c, path[..n]);
      assert d in fplp[c];
      if ClosureLink(states, c, d) {
        var p, m, k := ClosureLinkEnds(g, lambda, first, states, bplp, c, d);
        BuiltLaid(g, lambda, first, states, bplp);
        ConfigUnique(states, bplp, p, k, s, i, d);
        FlowLooked(g, lambda, first, states, bplp, fplp, start, t, c, path[..n], s, m);
        var w :| At(states, w) == Some(s) && Look(g, w, states[s].cl.items[m], t);
        ClosurePasses(g, lambda, first, states, bplp, w, s, m, i, t);
      } else {
        BackFlows(g, lambda, first, states, bplp, c, d, s, i);
        var p: nat, m: nat :| i < |states[s].basis|
          && LinkSource(g, states, p, m, states[s].basis[i], ItemSet(states[s].basis), c);
        assert states[s].basis[i] == states[s].cl.items[i] by {
          BuiltBasis(g, lambda, first, states, bplp, s, i);
        }
        FlowLooked(g, lambda, first, states, bplp, fplp, start, t, c, path[..n], p, m);
        var w :| At(states, w) == Some(p) && Look(g, w, states[p].cl.items[m], t);
        ShiftPasses(g, lambda, first, states, bplp, w, p, m, s, i, c, t);
      }
    }
  }

  lemma BuiltLaid(g: Grammar, lambda: seq<bool>, first: seq<set<nat>>, states: seq<State>, bplp: BackLinks)
    requires Built(g, lambda, first, states, bplp)
    ensures Laid(states, bplp)
  {
  }

  lemma BuiltFws(g: Grammar, lambda: seq<bool>, first: seq<set<nat>>, states: seq<State>, bplp: BackLinks, s: nat)
    requires Built(g, lambda, first, states, bplp) && s < |states|
    ensures |states[s].cl.fws| == |states[s].cl.items|
  {
    BuiltState(g, lambda, first, states, bplp, s);
  }

  lemma BuiltBasis(g: Grammar, lambda: seq<bool>, first: seq<set<nat>>, states: seq<State>, bplp: BackLinks, s: nat,
                   i: nat)
    requires Built(g, lambda, first, states, bplp) && s < |states| && i < |states[s].basis|
    ensures i < |states[s].cl.items| && states[s].cl.items[i] == states[s].basis[i]
  {
    BuiltState(g, lambda, first, states, bplp, s);
    assert states[s].cl.items[..|states[s].basis|][i] == states[s].cl.items[i];
  }

  /** A back link of configuration `d`, seen from the configuration. */
  lemma BackFlows(g: Grammar, lambda: seq<bool>, first: seq<set<nat>>, states: seq<State>, bplp: BackLinks, c: nat,
                  d: nat, s: nat, i: nat)
    requires Built(g, lambda, first, states, bplp) && Traced(g, states, bplp) && d < |bplp| && c in bplp[d]
      && IsConfig(states, s, i, d)
    ensures i < |states[s].basis|
    ensures exists p: nat, m: nat :: LinkSource(g, states, p, m, states[s].basis[i], ItemSet(states[s].basis), c)
  {
    hide LinkSource;
    assert ExactAt(g, states, d, c);
    var t: nat, j: nat :| LinkTarget(g, states, t, j, d, c);
    BuiltBasis(g, lambda, first, states, bplp, t, j);
    BuiltLaid(g, lambda, first, states, bplp);
    ConfigUnique(states, bplp, t, j, s, i, d);
  }

  /** Whatever may follow an item after a prefix has been computed for the state it leads to. */
  lemma {:induction false} LookFollows(g: Grammar, lambda: seq<bool>, first: seq<set<nat>>, states: seq<State>,
                                       bplp: BackLinks, fplp: F.Links, start: Follows, v: Follows, w: Form, it: Item,
                                       t: nat, n: nat) returns (s: nat)
    requires Built(g, lambda, first, states, bplp) && Flowed(states, bplp, fplp, start, v) && LookIn(g, w, it, t, n)
    ensures At(states, w) == Some(s) && s < |states| && MayFollow(states, v, s, it, t)
    decreases n
  {
    hide Built, Flowed, MayFollow, Valid, Derives;
    if it.dot > 0 {
      var was := Item(it.rule, it.dot - 1);
      var p := LookFollows(g, lambda, first, states, bplp, fplp, start, v, w[..|w| - 1], was, t, n - 1);
      ShiftFollows(g, lambda, first, states, bplp, fplp, start, v, p, was, t);
      s := states[p].shifts[was.Next(g)];
      assert was.Advance() == it;
      MayFollowState(states, v, s, it, t);
    } else if w == [] && g.rules[it.rule].lhs == g.start && t == 0 {
      s := 0;
      StartFollows(g, lambda, first, states, bplp, fplp, start, v, it.rule);
      MayFollowState(states, v, s, Item(it.rule, 0), t);
    } else {
      var c: Item :| Calls(g, c, it.rule) && Valid(g, w, c)
        && (CanStart(g, c.Rest(g), t) || (Derives(g, c.Rest(g), []) && LookIn(g, w, c, t, n - 1)));
      assert it == Item(it.rule, 0);
      if CanStart(g, c.Rest(g), t) {
        StateIsValidItems(g, lambda, first, states, bplp, w, c);
        s := At(states, w).value;
        BeginFollows(g, lambda, first, states, bplp, fplp, start, v, s, c, it.rule, t);
      } else {
        s := LookFollows(g, lambda, first, states, bplp, fplp, start, v, w, c, t, n - 1);
        PassFollows(g, lambda, first, states, bplp, fplp, start, v, s, c, it.rule, t);
      }
    }
  }

  lemma BeginFollows(g: Grammar, lambda: seq<bool>, first: seq<set<nat>>, states: seq<State>, bplp: BackLinks,
                     fplp: F.Links, start: Follows, v: Follows, s: nat, c: Item, r: nat, t: nat)
    requires Built(g, lambda, first, states, bplp) && Flowed(states, bplp, fplp, start, v)
    requires s < |states| && c in states[s].cl.items && Calls(g, c, r) && CanStart(g, c.Rest(g), t)
    ensures MayFollow(states, v, s, Item(r, 0), t)
  {
    var st := states[s];
    BuiltState(g, lambda, first, states, bplp, s);
    var rest :| Derives(g, c.Rest(g), [t] + rest);
    var m: nat :| DerivesIn(g, c.Rest(g), [t] + rest, m);
    FirstComplete(g, lambda, first, c.Rest(g), t, rest, m);
    var i: nat :| i < |st.cl.items| && st.cl.items[i] == c;
    assert Expanded(g, lambda, first, st.cl, i, r);
    var n: nat :| Hears(g, lambda, first, st.cl, i, r, n);
    hide Built, StateOk, ClosureOk, Complete, FormBegins, FirstsOk, Linked;
    assert t in st.cl.fws[n] && st.cl.fws[n] == start[st.Id(n)];
    assert FollowedAt(st, v, n, Item(r, 0), t);
  }

  lemma PassFollows(g: Grammar, lambda: seq<bool>, first: seq<set<nat>>, states: seq<State>, bplp: BackLinks,
                    fplp: F.Links, start: Follows, v: Follows, s: nat, c: Item, r: nat, t: nat)
    requires Built(g, lambda, first, states, bplp) && Flowed(states, bplp, fplp, start, v)
    requires MayFollow(states, v, s, c, t) && Calls(g, c, r) && Derives(g, c.Rest(g), [])
    ensures MayFollow(states, v, s, Item(r, 0), t)
  {
    ExpansionFollows(g, lambda, first, states, bplp, fplp, start, v, s, c, t, r);
    MayFollowState(states, v, s, c, t);
    BuiltState(g, lambda, first, states, bplp, s);
    assert LambdaClosed(g, lambda);
    hide Built, Flowed, MayFollow, StateOk, Complete, ShiftsOk;
    var n: nat :| DerivesIn(g, c.Rest(g), [], n);
    EmptyFormIsLambda(g, lambda, c.Rest(g), n);
  }

  lemma FlowedConfig(states: seq<State>, bplp: BackLinks, fplp: F.Links, start: Follows, v: Follows, s: nat, i: nat)
    requires Laid(states, bplp) && Flowed(states, bplp, fplp, start, v) && s < |states| && i < |states[s].cl.items|
    ensures states[s].Id(i) < |v| == |fplp| == |start|
  {
  }

  /** The least closed follow sets are exactly the lookaheads. */
  lemma LeastIsExact(g: Grammar, lambda: seq<bool>, first: seq<set<nat>>, states: seq<State>, bplp: BackLinks,
                     fplp: F.Links, start: Follows, v: Follows)
    requires Built(g, lambda, first, states, bplp) && Traced(g, states, bplp) && Flowed(states, bplp, fplp, start, v)
      && Least(fplp, start, v)
    ensures FollowsExact(g, states, v)
  {
    hide Built, Traced, Look, LookIn, At;
    forall s: nat, it: Item, t: nat
      ensures MayFollow(states, v, s, it, t) <==> s < |states| && Looked(g, states, s, it, t)
    {
      if MayFollow(states, v, s, it, t) {
        var n: nat :| FollowedAt(states[s], v, n, it, t);
        BuiltLaid(g, lambda, first, states, bplp);
        FlowedConfig(states, bplp, fplp, start, v, s, n);
        F.LeastMeansFlow(fplp, start, v, t, states[s].Id(n));
        var path :| F.FlowsTo(fplp, start, t, states[s].Id(n), path);
        FlowLooked(g, lambda, first, states, bplp, fplp, start, t, states[s].Id(n), path, s, n);
      }
      if s < |states| && Looked(g, states, s, it, t) {
        var w :| At(states, w) == Some(s) && Look(g, w, it, t);
        LookedFollows(g, lambda, first, states, bplp, fplp, start, v, w, it, t, s);
      }
    }
  }

  lemma LookedFollows(g: Grammar, lambda: seq<bool>, first: seq<set<nat>>, states: seq<State>, bplp: BackLinks,
                      fplp: F.Links, start: Follows, v: Follows, w: Form, it: Item, t: nat, s: nat)
    requires Built(g, lambda, first, states, bplp) && Flowed(states, bplp, fplp, start, v) && At(states, w) == Some(s)
      && Look(g, w, it, t)
    ensures MayFollow(states, v, s, it, t)
  {
    hide Built, Flowed, MayFollow, LookIn;
    var n: nat :| LookIn(g, w, it, t, n);
    var r := LookFollows(g, lambda, first, states, bplp, fplp, start, v, w, it, t, n);
  }

  /** What lemon's follow sets are: the least ones above the closures' that are closed along all links. */
  ghost predicate LeastFollows(states: seq<State>, bplp: BackLinks, v: Follows) {
    exists fplp, start :: Flowed(states, bplp, fplp, start, v) && Least(fplp, start, v)
  }

  /** Follow sets of a finished automaton: FindLinks and FindFollowSets. */
  method FollowsOf(b: Builder) returns (v: Follows)
    requires b.Valid() && Built(b.g, b.lambda, b.first, b.states, b.bplp)
    ensures |v| == |b.bplp| && FollowsOk(b.g, b.lambda, b.first, b.states, v)
    ensures LeastFollows(b.states, b.bplp, v) && FollowsExact(b.g, b.states, v)
  {
    var fplp := b.FindLinks();
    assert Linked(b.states, b.bplp, fplp);
    LinkedInside(b.g, b.lambda, b.first, b.states, b.bplp, fplp);
    var start := InitialFollows(b.g, b.lambda, b.first, b.states, b.bplp);
    var fws := new SymbolSets.From(start, b.g.nterminal);
    F.FindFollowSets(fws, fplp);
    v := fws.Sets();
    FlowedFollowsOk(b.g, b.lambda, b.first, b.states, b.bplp, fplp, start, v);
    assert Least(fplp, start, v);
    LeastIsExact(b.g, b.lambda, b.first, b.states, b.bplp, fplp, start, v);
  }

}
