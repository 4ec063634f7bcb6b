/** A grammar whose start symbol is on a right-hand side, and a string that is no sentence and yet accepted. */
module EarlyAccept {
  import opened Grammars
  import opened Closures
  import opened Lr0
  import opened Lalr
  import opened Lookaheads
  import opened Actions
  import opened Options
  import opened Tables
  import opened Driver
  import opened ParserSoundness
  import opened ParserCompleteness
  import opened LalrTermination
  import opened StateActions
  import opened Preferences
  import opened Generator
  import opened ParserErrors

  /** Terminals `$`, 1, 2 and 3; the start symbol 4 ::= 1 and 4 ::= 2 4 3. */
  const NEST := Grammar(4, 5, [Rule(4, [1]), Rule(4, [2, 4, 3])], 4)

  /** After a 1, or a 3, there is nothing but the rule that ends with it. */
  lemma {:induction false} ValidAfter(w: Form, it: Item, n: nat)
    requires w != [] && (w[|w| - 1] == 1 || w[|w| - 1] == 3) && ValidIn(NEST, w, it, n)
    ensures it == if w[|w| - 1] == 1 then Item(0, 1) else Item(1, 3)
    decreases n
  {
    if it.dot == 0 {
      var c: Item :| Calls(NEST, c, it.rule) && ValidIn(NEST, w, c, n - 1);
      ValidAfter(w, c, n - 1);
      assert false;
    } else {
      assert it.rule == 0 || it.rule == 1;
    }
  }

  lemma OnlyItem(w: Form, it: Item)
    requires w != [] && (w[|w| - 1] == 1 || w[|w| - 1] == 3) && Valid(NEST, w, it)
    ensures it == if w[|w| - 1] == 1 then Item(0, 1) else Item(1, 3)
  {
    var n: nat :| ValidIn(NEST, w, it, n);
    ValidAfter(w, it, n);
  }

  /** A prefix after which a rule can be reduced ends with a 1 or a 3. */
  lemma ReducedAfter(w: Form, r: nat, t: nat)
    requires ReducesOn(NEST, w, r, t)
    ensures w != [] && w[|w| - 1] == (if r == 0 then 1 else 3) && (r == 0 || r == 1)
  {
    var u :| ReducesAfter(NEST, w, u, r, t);
    var it := Item(r, |NEST.rules[r].rhs|);
    var n: nat :| LookIn(NEST, u, it, t, n);
    assert NEST.Valid();
    LookValid(NEST, u, it, t, n);
    var m: nat :| ValidIn(NEST, w, it, m);
  }

  lemma NestLalr1()
    ensures Lalr1(NEST)
  {
    hide ReducesOn, Valid;
    forall w, r: nat, t: nat | ReducesOn(NEST, w, r, t) ensures !ShiftsOn(NEST, w, t) {
      ReducedAfter(w, r, t);
      if it: Item :| NextAfter(NEST, w, it, t) {
        OnlyItem(w, it);
      }
    }
    forall w, r: nat, q: nat, t: nat | ReducesOn(NEST, w, r, t) && ReducesOn(NEST, w, q, t) ensures r == q {
      ReducedAfter(w, r, t);
      ReducedAfter(w, q, t);
    }
  }

  lemma NestStart()
    ensures NEST.Valid() && StartNotFirst(NEST) && Small(NEST)
  {
    if it: Item :| NextAfter(NEST, [], it, NEST.start) {
      FirstItem(it);
    }
  }

  lemma FirstItem(it: Item)
    requires Valid(NEST, [], it)
    ensures it == Item(0, 0) || it == Item(1, 0)
  {
    var n: nat :| ValidIn(NEST, [], it, n);
  }

  /** Inside a pair of 2 and 3 the rule 4 ::= 1 is followed by the 3. */
  lemma NestLooks()
    ensures Valid(NEST, [1], Item(0, 1)) && Valid(NEST, [2, 1], Item(0, 1)) && Look(NEST, [2, 1], Item(0, 1), 3)
  {
    hide Valid, Look;
    ValidStart(NEST, 0);
    ValidStart(NEST, 1);
    ValidShifts(NEST, [], Item(0, 0));
    ValidShifts(NEST, [], Item(1, 0));
    assert [] + [1] == [1] && [] + [2] == [2] && [2] + [1] == [2, 1];
    assert Calls(NEST, Item(1, 1), 0) && Item(1, 1).Rest(NEST) == [3];
    DerivesRefl(NEST, [3]);
    assert [3] + [] == [3];
    assert CanStart(NEST, [3], 3);
    LookBegins(NEST, [2], Item(1, 1), 0, 3);
    ValidExpands(NEST, [2], Item(1, 1), 0);
    ValidShifts(NEST, [2], Item(0, 0));
    LookShifts(NEST, [2], Item(0, 0), 3);
  }

  /** What lemon makes of the grammar. */
  ghost predicate Made(p: Generated) {
    p.g == NEST && p.Complete() && Faithful(p) && p.k.depth >= 2
  }

  /** The 1 leads to one state, whether it is inside a pair or not. */
  lemma OneState(p: Generated)
    requires Made(p)
    ensures At(p.states, [1]).Some? && At(p.states, [1]) == At(p.states, [2, 1])
      && At(p.states, [1]).value < |p.states|
  {
    NestLooks();
    hide Valid, At, Generated.Complete, Generated.Sound, FollowsExact;
    forall it: Item ensures Valid(NEST, [1], it) <==> Valid(NEST, [2, 1], it) {
      if Valid(NEST, [1], it) {
        OnlyItem([1], it);
      }
      if Valid(NEST, [2, 1], it) {
        OnlyItem([2, 1], it);
      }
    }
    SoundIsBuilt(p);
    StateIsValidItems(p.g, p.lambda, p.first, p.states, p.bplp, [1], Item(0, 1));
    StateIsValidItems(p.g, p.lambda, p.first, p.states, p.bplp, [2, 1], Item(0, 1));
    SamePrefixState(p.g, p.lambda, p.first, p.states, p.bplp, [1], [2, 1]);
  }

  lemma SoundIsBuilt(p: Generated)
    requires p.Sound()
    ensures Built(p.g, p.lambda, p.first, p.states, p.bplp)
  {
  }

  /** The tables shift the 1, and then reduce it before a 3, no pair being open. */
  lemma TablesSay(p: Generated)
    requires Made(p)
    ensures p.k.Ok() && p.k.rules == NEST.rules && StackOk(p.k, [BOTTOM]) && |p.states| == p.k.sz.nstate
      && p.k.sz.nrule == 2 && 1 in p.states[0].shifts
    ensures var s := p.states[0].shifts[1];
      && s < |p.states| && p.k.tables.FindShiftAction(0, 1) == s && p.k.tables.FindShiftAction(s, 3) == |p.states|
      && p.k.tables.FindReduceAction(0, 4) == |p.states| + 3
  {
    OneState(p);
    NestLooks();
    var s := At(p.states, [1]).value;
    StateOfOne(p);
    assert At(p.states, [2, 1]) == Some(s) && Look(NEST, [2, 1], Item(0, 1), 3);
    hide Built, At, Look, MayFollow, Faithful;
    MadeTables(p, s);
  }

  lemma StateOfOne(p: Generated)
    requires Made(p) && At(p.states, [1]).Some?
    ensures |p.states| > 0 && 1 in p.states[0].shifts && At(p.states, [1]) == Some(p.states[0].shifts[1])
  {
    assert [1][..0] == [];
    assert At(p.states, []) == Some(0);
  }

  lemma MadeTables(p: Generated, s: nat)
    requires Made(p) && |p.states| > 0 && 1 in p.states[0].shifts && s == p.states[0].shifts[1] < |p.states|
    requires At(p.states, [2, 1]) == Some(s) && Look(NEST, [2, 1], Item(0, 1), 3)
    ensures p.k.Ok() && p.k.rules == NEST.rules && StackOk(p.k, [BOTTOM]) && |p.states| == p.k.sz.nstate
      && p.k.sz.nrule == 2
    ensures p.k.tables.FindShiftAction(0, 1) == s && p.k.tables.FindShiftAction(s, 3) == |p.states|
      && p.k.tables.FindReduceAction(0, 4) == |p.states| + 3
  {
    assert FollowsExact(NEST, p.states, p.v);
    hide Built, At, Look, MayFollow, Faithful, FirstsOk, FollowsOk;
    assert Looked(NEST, p.states, s, Item(0, 1), 3);
    assert MayFollow(p.states, p.v, s, Item(0, 1), 3);
    assert NEST.Terminal(1) && NEST.Terminal(3) && |NEST.rules[0].rhs| == 1 && |NEST.rules| == 2;
  }

  /** Given a 1 and a 3, the parser accepts after the 1. */
  lemma AcceptsEarly(p: Generated)
    requires Made(p)
    ensures p.k.Ok() && StackOk(p.k, [BOTTOM]) && Run(p.k, Start([1, 3, 0]), 2) == Accepted([3, 0])
  {
    TablesSay(p);
    hide Made;
    var one := [BOTTOM, StackEntry(p.states[0].shifts[1], 1)];
    assert [1, 3, 0][1..] == [3, 0];
    assert Turn(p.k, [BOTTOM], [1, 3, 0]) == Running(one, [3, 0]);
    assert one[..1] == [BOTTOM];
    assert Turn(p.k, one, [3, 0]) == Accepted([3, 0]);
    OneTurn(p.k, [BOTTOM], [1, 3, 0]);
    OneTurn(p.k, one, [3, 0]);
    RunAdd(p.k, Start([1, 3, 0]), 1, 1);
  }

  /** Sentences have as many 2s as 3s. */
  ghost function Balance(w: Form): int {
    if w == [] then 0 else (if w[0] == 2 then 1 else if w[0] == 3 then -1 else 0) + Balance(w[1..])
  }

  lemma {:induction false} BalanceAdds(a: Form, b: Form)
    ensures Balance(a + b) == Balance(a) + Balance(b)
  {
    if a == [] {
      assert a + b == b;
    } else {
      assert (a + b)[1..] == a[1..] + b;
      BalanceAdds(a[1..], b);
    }
  }

  lemma {:induction false} DerivedBalance(a: Form, b: Form, n: nat)
    requires DerivesIn(NEST, a, b, n)
    ensures Balance(b) == Balance(a)
    decreases n
  {
    if n > 0 {
      var c :| Step(NEST, a, c) && DerivesIn(NEST, c, b, n - 1);
      DerivedBalance(c, b, n - 1);
      var i: nat, r: nat :| StepAt(NEST, a, c, i, r);
      assert a == a[..i] + [4] + a[i + 1..];
      BalanceAdds(a[..i] + [4], a[i + 1..]);
      BalanceAdds(a[..i], [4]);
      BalanceAdds(a[..i] + NEST.rules[r].rhs, a[i + 1..]);
      BalanceAdds(a[..i], NEST.rules[r].rhs);
      RuleBalance(r);
    }
  }

  lemma RuleBalance(r: nat)
    requires r < |NEST.rules|
    ensures Balance(NEST.rules[r].rhs) == 0 && Balance([4]) == 0
  {
    var three: Form := [2, 4, 3];
    assert three[1..] == [4, 3] && [4, 3][1..] == [3] && [3][1..] == [];
    assert r == 0 || r == 1;
  }

  /** A 3 without its 2 is in no sentence. */
  lemma NoSentence()
    ensures !Derives(NEST, [NEST.start], [1, 3])
  {
    if n: nat :| DerivesIn(NEST, [4], [1, 3], n) {
      DerivedBalance([4], [1, 3], n);
      assert [1, 3][1..] == [3];
    }
  }

  /** lemon itself, run on this grammar, which is LALR(1): it counts no conflict, and the parser accepts a
      string that is no sentence. */
  method MakeEarly(qsort: (seq<seq<Action>>, Sizes) -> seq<AxSet>, depth: nat)
    returns (k: Constants, nconflict: nat, ghost made: Generated)
    requires Orders(qsort) && depth >= 2
    ensures made.Complete() && Settled(made) && made.k == k && nconflict == 0
    ensures made.g == NEST && Lalr1(NEST) && !StartApart(NEST) && !Derives(NEST, [NEST.start], [1, 3])
    ensures k.Ok() && StackOk(k, [BOTTOM]) && Run(k, Start([1, 3, 0]), 2) == Accepted([3, 0])
  {
    NestStart();
    NestLalr1();
    NoSentence();
    var p := Precedence([-1, -1, -1, -1, -1], [UNK, UNK, UNK, UNK, UNK], [None, None]);
    assert p.Ok(NEST.nsymbol, |NEST.rules|);
    assert NEST.start in NEST.rules[1].rhs;
    hide Faithful, Chooses, Orders, Derives, Run, StartNotFirst, Generated.Complete, Settled;
    k, nconflict, made := Generate(NEST, p, qsort, depth);
    AcceptsEarly(made);
  }
}
