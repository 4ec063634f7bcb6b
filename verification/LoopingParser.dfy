/** A grammar with a rule like `a ::= a`, and a sentence on which the parser that lemon makes of it
    never ends. */
module LoopingParser {
  import opened Grammars
  import opened FirstSets
  import opened Closures
  import opened Lr0
  import opened Lalr
  import opened Lookaheads
  import opened Actions
  import opened Options
  import opened Tables
  import opened Driver
  import opened ParserCompleteness
  import opened ParserTermination
  import opened StateActions
  import opened Preferences
  import opened Generator

  /** Terminals `$` and 1, nonterminals 2 (the start symbol) and 3: 3 ::= 3, 2 ::= 3, 3 ::= 1. */
  const LOOP := Grammar(2, 4, [Rule(3, [3]), Rule(2, [3]), Rule(3, [1])], 2)

  lemma LoopGrammar()
    ensures LOOP.Valid() && StartNotFirst(LOOP) && Small(LOOP) && Cyclic(LOOP) && Derives(LOOP, [LOOP.start], [1])
  {
    forall it: Item | it.Ok(LOOP) && !it.AtEnd(LOOP) ensures it.Next(LOOP) != LOOP.start {
      assert it.rule == 0 || it.rule == 1 || it.rule == 2;
    }
    var a: Form := [3];
    assert a[..0] + LOOP.rules[0].rhs + a[1..] == a;
    assert StepAt(LOOP, a, a, 0, 0) && DerivesIn(LOOP, a, a, 0);
    StepThen(LOOP, a, a, a, 0);
    RuleDerives(LOOP, 1);
    RuleDerives(LOOP, 2);
    DerivesTrans(LOOP, [2], [3], [1]);
  }

  /** What lemon makes of the grammar, if no precedence is declared. */
  ghost predicate Made(p: Generated, prec: Precedence) {
    p.g == LOOP && Faithful(p) && Chooses(p.g, p.states, p.v, p.k, prec) && NoPrecedence(prec) && p.k.depth >= 2
  }

  /** Both rules for 3, and the rule for the start symbol, may be followed by the end marker. */
  lemma Follow(p: Generated, prec: Precedence)
    requires Made(p, prec)
    ensures p.k.Ok() && |p.states| > 0 && 1 in p.states[0].shifts && 3 in p.states[0].shifts
    ensures MayFollow(p.states, p.v, p.states[0].shifts[3], Item(0, 1), 0)
    ensures MayFollow(p.states, p.v, p.states[0].shifts[1], Item(2, 1), 0)
  {
    var fplp, start :| Flowed(p.states, p.bplp, fplp, start, p.v) && Least(fplp, start, p.v);
    FlowedFollowsOk(LOOP, p.lambda, p.first, p.states, p.bplp, fplp, start, p.v);
    hide Built, TablesSound, Flowed, Least, Responsive, StatesExact, FollowsExact, Chooses, MayFollow;
    assert MayFollow(p.states, p.v, 0, Item(1, 0), 0);
    Expands(p, 0);
    Expands(p, 2);
    assert Item(0, 0).Next(LOOP) == 3 && Item(2, 0).Next(LOOP) == 1;
    assert Item(0, 0).Advance() == Item(0, 1) && Item(2, 0).Advance() == Item(2, 1);
  }

  lemma Expands(p: Generated, r: nat)
    requires FollowsOk(LOOP, p.lambda, p.first, p.states, p.v) && (r == 0 || r == 2)
    requires MayFollow(p.states, p.v, 0, Item(1, 0), 0)
    ensures MayFollow(p.states, p.v, 0, Item(r, 0), 0)
  {
    hide MayFollow;
    assert Item(1, 0).Expands(LOOP, r) && Item(1, 0).Rest(LOOP) == [];
    assert FollowsExpansion(LOOP, p.lambda, p.first, p.states, p.v, 0, Item(1, 0), 0, r);
    assert AllLambda(p.lambda, []);
  }

  /** Behind the token 1 there is only its own rule. */
  lemma BehindToken(p: Generated, q: nat)
    requires Built(LOOP, p.lambda, p.first, p.states, p.bplp) && q < 2 && 1 in p.states[0].shifts
    ensures p.states[0].shifts[1] < |p.states|
      && Item(q, 1) !in p.states[p.states[0].shifts[1]].cl.items
  {
    TokenShifts(p);
    hide Built, StateOk;
    var s := p.states[0].shifts[1];
    if Item(q, 1) in p.states[s].cl.items {
      InBasis(LOOP, p.lambda, p.first, p.states[s], s, Item(q, 1));
      AdvancedFrom(LOOP, p.states[0].cl, p.states[s].basis, 1, Item(q, 1));
    }
  }

  lemma TokenShifts(p: Generated)
    requires Built(LOOP, p.lambda, p.first, p.states, p.bplp) && 1 in p.states[0].shifts
    ensures var s := p.states[0].shifts[1];
      && s < |p.states| && StateOk(LOOP, p.lambda, p.first, p.states[s], s) && ListOk(LOOP, p.states[0].cl)
      && ItemSet(p.states[s].basis) == Advances(LOOP, p.states[0].cl.items, 1)
  {
    StateReady(LOOP, p.lambda, p.first, p.states, p.bplp, 0);
    hide StateOk, Complete, Laid, ListOk, Advances, ItemSet;
  }

  lemma AfterToken(p: Generated, prec: Precedence)
    requires Made(p, prec)
    ensures 1 in p.states[0].shifts && p.states[0].shifts[1] < |p.states|
    ensures forall q :: 0 <= q < 2 ==> !MayFollow(p.states, p.v, p.states[0].shifts[1], Item(q, 1), 0)
  {
    Follow(p, prec);
    BehindToken(p, 0);
    BehindToken(p, 1);
    hide Built, Chooses, Responsive, StatesExact, FollowsExact, LeastFollows, TablesSound;
  }

  /** The end marker is never shifted. */
  lemma EndNotShifted(p: Generated, s: nat)
    requires p.Sound() && s < |p.states|
    ensures 0 !in p.states[s].shifts
  {
    if 0 in p.states[s].shifts {
      NeverBackToStart(p.g, p.lambda, p.first, p.states, p.bplp, s, 0);
    }
  }

  /** The token 1 is shifted, and reduced to a 3 before the end marker. */
  lemma TokenReduced(p: Generated, prec: Precedence)
    requires Made(p, prec)
    ensures p.k.Ok() && 1 in p.states[0].shifts
    ensures var s := p.states[0].shifts[1];
      s < |p.states| && p.k.tables.FindShiftAction(0, 1) == s && p.k.tables.FindShiftAction(s, 0) == |p.states| + 2
  {
    hide Generated.Sound, Responsive, StatesExact, FollowsExact, LeastFollows, Chooses, NoPrecedence, MayFollow;
    Follow(p, prec);
    AfterToken(p, prec);
    MadeTables(p, prec);
    var s := p.states[0].shifts[1];
    EndNotShifted(p, s);
    assert LOOP.Valid() && LOOP.Terminal(0) && LOOP.Terminal(1);
    assert p.g == LOOP && Chooses(LOOP, p.states, p.v, p.k, prec) && NoPrecedence(prec);
    forall q | 0 <= q < 2 ensures !MayFollow(p.states, p.v, s, Item(q, |LOOP.rules[q].rhs|), 0) {
      assert |LOOP.rules[q].rhs| == 1;
    }
    assert |LOOP.rules| == 3 && |LOOP.rules[2].rhs| == 1;
    hide *;
    ShiftIsTaken(LOOP, p.states, p.v, p.k, prec, 0, 1);
    LeastRuleIsTaken(LOOP, p.states, p.v, p.k, prec, s, 0, 2);
  }

  /** Of 3 ::= 3 and 2 ::= 3 the rule is reduced that comes first. */
  lemma FirstReduced(p: Generated, prec: Precedence)
    requires Made(p, prec)
    ensures p.k.Ok() && 3 in p.states[0].shifts
    ensures var s := p.states[0].shifts[3]; s < |p.states| && p.k.tables.FindShiftAction(s, 0) == |p.states|
  {
    hide Generated.Sound, Responsive, StatesExact, FollowsExact, LeastFollows, Chooses, NoPrecedence, MayFollow;
    Follow(p, prec);
    MadeTables(p, prec);
    EndNotShifted(p, p.states[0].shifts[3]);
    LeastRuleIsTaken(LOOP, p.states, p.v, p.k, prec, p.states[0].shifts[3], 0, 0);
  }

  /** What the tables say: shift the 1, reduce it to a 3 before the end marker, and then, of 3 ::= 3 and
      2 ::= 3, reduce by the rule that comes first. */
  lemma TablesSay(p: Generated, prec: Precedence)
    requires Made(p, prec)
    ensures p.k.Ok() && p.k.rules == LOOP.rules && |p.states| == p.k.sz.nstate && p.k.sz.nrule == 3
    ensures 1 in p.states[0].shifts && 3 in p.states[0].shifts
    ensures var s1, s3 := p.states[0].shifts[1], p.states[0].shifts[3];
      && s1 < |p.states| && s3 < |p.states| && p.k.tables.FindShiftAction(0, 1) == s1
      && p.k.tables.FindShiftAction(s1, 0) == |p.states| + 2 && p.k.tables.FindShiftAction(s3, 0) == |p.states|
      && p.k.tables.FindReduceAction(0, 3) == s3
  {
    TokenReduced(p, prec);
    FirstReduced(p, prec);
    hide *;
    MadeTables(p, prec);
  }

  lemma MadeTables(p: Generated, prec: Precedence)
    requires Made(p, prec) && |p.states| > 0 && 3 in p.states[0].shifts
    ensures p.Sound() && p.k.Ok() && p.k.rules == LOOP.rules && |p.states| == p.k.sz.nstate && p.k.sz.nrule == 3
    ensures p.states[0].shifts[3] < |p.states|
      && p.k.tables.FindReduceAction(0, 3) == p.states[0].shifts[3]
  {
    hide Chooses, Responsive, StatesExact, FollowsExact, LeastFollows, NoPrecedence;
    assert LOOP.Nonterminal(3);
    NeverBackToStart(p.g, p.lambda, p.first, p.states, p.bplp, 0, 3);
  }

  lemma {:induction false} Loops(p: Generated, prec: Precedence, n: nat)
    requires Made(p, prec)
    ensures p.k.Ok() && 3 in p.states[0].shifts
    ensures var stack := [BOTTOM, StackEntry(p.states[0].shifts[3], 3)];
      StackOk(p.k, stack) && Run(p.k, Running(stack, [0]), n) == Running(stack, [0])
    decreases n
  {
    TablesSay(p, prec);
    hide Faithful, Chooses, NoPrecedence;
    var stack := [BOTTOM, StackEntry(p.states[0].shifts[3], 3)];
    if n > 0 {
      assert stack[..1] == [BOTTOM];
      assert Turn(p.k, stack, [0]) == Running(stack, [0]);
      Loops(p, prec, n - 1);
    }
  }

  /** The grammar is cyclic, and on its sentence 1 the parser never ends: having read the token and met the
      end marker it reduces by the rule 3 ::= 3 for ever. */
  lemma CyclicRuleLoops(p: Generated, prec: Precedence, n: nat)
    requires Made(p, prec)
    ensures p.k.Ok() && StackOk(p.k, [BOTTOM]) && !Ended(Run(p.k, Start([1, 0]), n))
  {
    TablesSay(p, prec);
    Loops(p, prec, 0);
    var s1, s3 := p.states[0].shifts[1], p.states[0].shifts[3];
    hide Faithful, Chooses, NoPrecedence;
    var one := [BOTTOM, StackEntry(s1, 1)];
    assert Turn(p.k, [BOTTOM], [1, 0]) == Running(one, [0]);
    assert one[..1] == [BOTTOM];
    assert Turn(p.k, one, [0]) == Running([BOTTOM, StackEntry(s3, 3)], [0]);
    OneTurn(p.k, [BOTTOM], [1, 0]);
    OneTurn(p.k, one, [0]);
    RunAdd(p.k, Start([1, 0]), 1, 1);
    if n >= 2 {
      Loops(p, prec, n - 2);
      RunAdd(p.k, Start([1, 0]), 2, n - 2);
    }
  }

  /** lemon itself, run on this grammar. */
  method MakeLooping(qsort: (seq<seq<Action>>, Sizes) -> seq<AxSet>, depth: nat)
    returns (k: Constants, ghost made: Generated)
    requires Orders(qsort) && depth >= 2
    ensures made.Sound() && made.k == k && k.Ok() && StackOk(k, [BOTTOM])
    ensures Cyclic(LOOP) && made.g == LOOP && Derives(LOOP, [LOOP.start], [1])
    ensures forall n: nat :: !Ended(Run(k, Start([1, 0]), n))
  {
    LoopGrammar();
    var p := Precedence([-1, -1, -1, -1], [UNK, UNK, UNK, UNK], [None, None, None]);
    assert p.Ok(LOOP.nsymbol, |LOOP.rules|) && NoPrecedence(p);
    hide Faithful, Chooses, Orders, Cyclic, Derives, Run, StartNotFirst;
    var nconflict;
    k, nconflict, made := Generate(LOOP, p, qsort, depth);
    CyclicRuleLoops(made, p, 0);
    forall n: nat ensures !Ended(Run(k, Start([1, 0]), n)) {
      CyclicRuleLoops(made, p, n);
    }
  }
}
