/** When a call of the generated parser ends: the stack is bounded, so a call that goes on for ever
    undoes derivation steps in a circle. */
module ParserTermination {
  import opened Grammars
  import opened Closures
  import opened Lr0
  import opened Driver
  import opened ParserSoundness
  import opened ParserCompleteness

  /** Some form derives itself in one step or more. */
  ghost predicate Cyclic(g: Grammar) {
    exists a: Form, n: nat :: n > 0 && DerivesIn(g, a, a, n)
  }

  /** All forms of at most `len` symbols below `n`. */
  ghost function Forms(n: nat, len: nat): set<Form>
    decreases len
  {
    if len == 0 then {[]} else {[]} + set f, x: nat | f in Forms(n, len - 1) && x < n :: f + [x]
  }

  lemma {:induction false} InForms(f: Form, n: nat, len: nat)
    requires |f| <= len && forall i :: 0 <= i < |f| ==> f[i] < n
    ensures f in Forms(n, len)
    decreases len
  {
    if f != [] {
      var m := |f| - 1;
      InForms(f[..m], n, len - 1);
      assert f == f[..m] + [f[m]];
    }
  }

  /** What the stack can spell. */
  ghost function Spellings(p: Generated): set<Form> {
    Forms(p.g.nsymbol, p.k.depth)
  }

  /** As many turns as there are spellings. */
  ghost function TurnBound(p: Generated): nat {
    |Spellings(p)|
  }

  lemma MajorsSpelled(p: Generated, stack: seq<StackEntry>)
    requires p.Sound() && ValidStack(p.states, stack) && StackOk(p.k, stack)
    ensures Majors(stack) in Spellings(p)
  {
    forall i | 0 <= i < |stack| - 1 ensures Majors(stack)[i] < p.g.nsymbol {
      var s, x := stack[i].stateno, stack[i + 1].major;
      ShiftedSymbol(p.g, p.lambda, p.first, p.states, p.bplp, s, x);
    }
    InForms(Majors(stack), p.g.nsymbol, p.k.depth);
  }

  lemma ShiftedSymbol(g: Grammar, lambda: seq<bool>, first: seq<set<nat>>, states: seq<State>, bplp: BackLinks, s: nat,
                      x: nat)
    requires Built(g, lambda, first, states, bplp) && s < |states| && x in states[s].shifts
    ensures 0 < x < g.nsymbol
  {
    assert StateOk(g, lambda, first, states[s], s) && ShiftsOk(g, states, s);
    var i: nat :| NextIs(g, states[s].cl.items, i, x);
    var it := states[s].cl.items[i];
    assert g.rules[it.rule].rhs[it.dot] == x;
  }

  /** What the tables may say about a token: a transition, a rule that is complete, or nothing. */
  ghost predicate Allowed(p: Generated, s: nat, x: nat, act: int) {
    && s < |p.states|
    && (|| (x in p.states[s].shifts && act == p.states[s].shifts[x] < |p.states|)
        || (|p.states| <= act < |p.states| + |p.g.rules|
          && Item(act - |p.states|, |p.g.rules[act - |p.states|].rhs|) in p.states[s].cl.items)
        || act == |p.states| + |p.g.rules|)
  }

  lemma TokenAction(p: Generated, stack: seq<StackEntry>, x: nat)
    requires p.Sound() && ValidStack(p.states, stack) && p.g.Terminal(x)
    ensures p.k.Ok() && p.k.sz.nstate == |p.states| && p.k.sz.nrule == |p.g.rules|
    ensures Allowed(p, Top(stack), x, p.k.tables.FindShiftAction(Top(stack), x))
  {
    hide Built;
    assert TokenActionOk(p.g, p.states, p.k, Top(stack), x);
  }

  /** Shifting a token takes it away and follows the automaton. */
  lemma ShiftKeeps(p: Generated, stack: seq<StackEntry>, x: nat)
    requires p.Sound() && p.k.Ok() && ValidStack(p.states, stack) && StackOk(p.k, stack)
    requires Top(stack) < |p.states| && x in p.states[Top(stack)].shifts
    ensures 0 < x && p.states[Top(stack)].shifts[x] < |p.states|
    ensures var c := Push(p.k, stack, p.states[Top(stack)].shifts[x], x, []);
      c.Running? ==> ValidStack(p.states, c.stack) && StackOk(p.k, c.stack)
  {
    NeverBackToStart(p.g, p.lambda, p.first, p.states, p.bplp, Top(stack), x);
    hide Built;
    ValidPush(p.states, stack, x);
  }

  /** A turn keeps the stack a path of the automaton; if it leaves the token where it is, it has undone
      one derivation step. */
  lemma TurnUndoesStep(p: Generated, stack: seq<StackEntry>, x: nat)
    requires p.Sound() && ValidStack(p.states, stack) && StackOk(p.k, stack) && p.g.Terminal(x)
    ensures p.k.Ok()
    ensures var c := Turn(p.k, stack, [x]);
      && (c.Running? ==> ValidStack(p.states, c.stack) && StackOk(p.k, c.stack) && (c.input == [] ==> x != 0))
      && (c.Running? && c.input != [] ==> c.input == [x] && Step(p.g, Majors(c.stack), Majors(stack)))
  {
    TokenAction(p, stack, x);
    var act := p.k.tables.FindShiftAction(Top(stack), x);
    assert Turn(p.k, stack, [x]) == Act(p.k, stack, [x], act);
    hide *;
    ActUndoesStep(p, stack, x, act);
  }

  lemma ActUndoesStep(p: Generated, stack: seq<StackEntry>, x: nat, act: int)
    requires p.Sound() && ValidStack(p.states, stack) && StackOk(p.k, stack) && p.k.Ok() && p.k.sz.nstate == |p.states|
    requires p.k.sz.nrule == |p.g.rules| && Allowed(p, Top(stack), x, act)
    ensures var c := Act(p.k, stack, [x], act);
      && (c.Running? ==> ValidStack(p.states, c.stack) && StackOk(p.k, c.stack) && (c.input == [] ==> x != 0))
      && (c.Running? && c.input != [] ==> c.input == [x] && Step(p.g, Majors(c.stack), Majors(stack)))
  {
    hide Generated.Sound, ValidStack, StackOk, Step, Reduce;
    if act < |p.states| {
      ShiftKeeps(p, stack, x);
    } else if act < |p.states| + |p.g.rules| {
      ReduceUndoesStep(p, stack, act - |p.states|, [x]);
    }
  }

  lemma ReduceUndoesStep(p: Generated, stack: seq<StackEntry>, r: nat, input: Form)
    requires p.Sound() && ValidStack(p.states, stack) && StackOk(p.k, stack)
    requires r < |p.g.rules| && Item(r, |p.g.rules[r].rhs|) in p.states[Top(stack)].cl.items
    ensures p.k.Ok() && r < |p.k.rules|
    ensures var c := Reduce(p.k, stack, r, input);
      c.Running? ==> c.input == input && ValidStack(p.states, c.stack) && Step(p.g, Majors(c.stack), Majors(stack))
  {
    var g := p.g;
    ReducePops(g, p.lambda, p.first, p.states, p.bplp, stack, r);
    var popped, x := stack[..|stack| - |g.rules[r].rhs|], g.rules[r].lhs;
    var c := Reduce(p.k, stack, r, input);
    if x in p.states[Top(popped)].shifts {
      assert p.k.tables.FindReduceAction(Top(popped), x) == p.states[Top(popped)].shifts[x];
      NeverBackToStart(g, p.lambda, p.first, p.states, p.bplp, Top(popped), x);
      hide Built, TablesSound, StackOk;
      ValidPush(p.states, popped, x);
      var a, b := Majors(popped) + [x], Majors(stack);
      assert a[..|a| - 1] + g.rules[r].rhs + a[|a|..] == b;
      assert StepAt(g, a, b, |a| - 1, r);
    } else {
      assert p.k.tables.FindReduceAction(0, g.start) == |p.states| + |g.rules| + 1 && p.k.sz.nrule == |g.rules|;
    }
  }

  lemma StepThen(g: Grammar, a: Form, b: Form, f: Form, n: nat)
    requires Step(g, a, b) && DerivesIn(g, b, f, n)
    ensures DerivesIn(g, a, f, n + 1)
  {
  }

  /** The token has been dealt with, or the run is over. */
  predicate Ended(c: Conf) {
    !c.Running? || c.input == []
  }

  lemma EndedStays(k: Constants, c: Conf, n: nat)
    requires k.Ok() && (c.Running? ==> StackOk(k, c.stack))
    ensures Ended(c) ==> Run(k, c, n) == c
  {
  }

  /** Whatever the run, the stack stays a path of the automaton, and the end marker is never shifted. */
  lemma {:induction false} RunKeepsPath(p: Generated, stack: seq<StackEntry>, x: nat, n: nat)
    requires p.Sound() && ValidStack(p.states, stack) && StackOk(p.k, stack) && p.g.Terminal(x)
    ensures p.k.Ok()
    ensures var c := Run(p.k, Running(stack, [x]), n);
      c.Running? ==>
        && ValidStack(p.states, c.stack) && StackOk(p.k, c.stack) && |c.stack| > 0
        && (c.input == [x] || (c.input == [] && x != 0))
    decreases n
  {
    hide Generated.Sound, ValidStack, StackOk, Turn, Step;
    TurnUndoesStep(p, stack, x);
    PathFacts(p.states, stack);
    var c := Turn(p.k, stack, [x]);
    if n > 0 && !Ended(c) {
      RunKeepsPath(p, c.stack, x, n - 1);
    } else if n > 0 {
      EndedStays(p.k, c, n - 1);
      if c.Running? {
        PathFacts(p.states, c.stack);
      }
    }
  }

  lemma PathFacts(states: seq<State>, stack: seq<StackEntry>)
    requires ValidStack(states, stack)
    ensures |stack| > 0
  {
  }

  // ----- a call ends soon or never

  /** A path of the automaton is known by what it spells. */
  lemma SameStack(states: seq<State>, a: seq<StackEntry>, b: seq<StackEntry>)
    requires ValidStack(states, a) && ValidStack(states, b) && Majors(a) == Majors(b)
    ensures a == b
  {
    SameUpTo(states, a, b, |a|);
  }

  lemma {:induction false} SameUpTo(states: seq<State>, a: seq<StackEntry>, b: seq<StackEntry>, n: nat)
    requires ValidStack(states, a) && ValidStack(states, b) && Majors(a) == Majors(b) && n <= |a|
    ensures |a| == |b| && a[..n] == b[..n]
  {
    assert |a| - 1 == |Majors(a)| == |b| - 1;
    if n > 1 {
      SameUpTo(states, a, b, n - 1);
      assert a[n - 2] == a[..n - 1][n - 2] == b[..n - 1][n - 2] == b[n - 2];
      assert a[n - 1].major == Majors(a)[n - 2] == Majors(b)[n - 2] == b[n - 1].major;
    }
  }

  /** More forms than there are different ones: two are the same. */
  lemma {:induction false} TwoAlike(fs: seq<Form>, all: set<Form>) returns (i: nat, j: nat)
    requires |fs| > |all| && forall n :: 0 <= n < |fs| ==> fs[n] in all
    ensures i < j < |fs| && fs[i] == fs[j]
    decreases |fs|
  {
    var m := |fs| - 1;
    if fs[m] in fs[..m] {
      i :| 0 <= i < m && fs[..m][i] == fs[m];
      j := m;
    } else {
      assert forall n :: 0 <= n < m ==> fs[..m][n] in all - {fs[m]};
      i, j := TwoAlike(fs[..m], all - {fs[m]});
    }
  }

  /** What the stack spells after `n` turns. */
  ghost function Spelling(k: Constants, stack: seq<StackEntry>, x: nat, n: nat): Form
    requires k.Ok() && StackOk(k, stack)
  {
    var c := Run(k, Running(stack, [x]), n);
    if c.Running? && |c.stack| > 0 then Majors(c.stack) else []
  }

  /** After `j` turns the run is where it was after `i`, with the token still to be dealt with. */
  ghost predicate Circles(k: Constants, stack: seq<StackEntry>, x: nat, i: nat, j: nat)
    requires k.Ok() && StackOk(k, stack)
  {
    var c := Run(k, Running(stack, [x]), i);
    i < j && c == Run(k, Running(stack, [x]), j) && !Ended(c)
  }

  lemma NotEndedBefore(k: Constants, stack: seq<StackEntry>, x: nat, n: nat, m: nat)
    requires k.Ok() && StackOk(k, stack) && n <= m && !Ended(Run(k, Running(stack, [x]), m))
    ensures !Ended(Run(k, Running(stack, [x]), n))
  {
    RunAdd(k, Running(stack, [x]), n, m - n);
    EndedStays(k, Run(k, Running(stack, [x]), n), m - n);
  }

  lemma SpelledSoFar(p: Generated, stack: seq<StackEntry>, x: nat, n: nat)
    requires p.Sound() && ValidStack(p.states, stack) && StackOk(p.k, stack) && p.g.Terminal(x)
    requires p.k.Ok() && !Ended(Run(p.k, Running(stack, [x]), n))
    ensures Spelling(p.k, stack, x, n) in Spellings(p)
  {
    RunKeepsPath(p, stack, x, n);
    MajorsSpelled(p, Run(p.k, Running(stack, [x]), n).stack);
  }

  /** There are only so many stacks: a call has ended after that many turns, or goes round in a circle. */
  lemma EndsOrCircles(p: Generated, stack: seq<StackEntry>, x: nat) returns (i: nat, j: nat)
    requires p.Sound() && ValidStack(p.states, stack) && StackOk(p.k, stack) && p.g.Terminal(x)
    ensures p.k.Ok()
    ensures Ended(Run(p.k, Running(stack, [x]), TurnBound(p))) || Circles(p.k, stack, x, i, j)
  {
    RunKeepsPath(p, stack, x, 0);
    hide Generated.Sound, ValidStack, StackOk, Run, Spellings, Ended;
    i, j := 0, 0;
    var n := TurnBound(p);
    if !Ended(Run(p.k, Running(stack, [x]), n)) {
      var fs := seq(n + 1, m requires 0 <= m <= n => Spelling(p.k, stack, x, m));
      forall m | 0 <= m < |fs| ensures fs[m] in Spellings(p) {
        NotEndedBefore(p.k, stack, x, m, n);
        SpelledSoFar(p, stack, x, m);
      }
      i, j := TwoAlike(fs, Spellings(p));
      NotEndedBefore(p.k, stack, x, i, n);
      NotEndedBefore(p.k, stack, x, j, n);
      SameSpelling(p, stack, x, i, j);
    }
  }

  lemma SameSpelling(p: Generated, stack: seq<StackEntry>, x: nat, i: nat, j: nat)
    requires p.Sound() && ValidStack(p.states, stack) && StackOk(p.k, stack) && p.g.Terminal(x) && p.k.Ok() && i < j
    requires !Ended(Run(p.k, Running(stack, [x]), i)) && !Ended(Run(p.k, Running(stack, [x]), j))
    requires Spelling(p.k, stack, x, i) == Spelling(p.k, stack, x, j)
    ensures Circles(p.k, stack, x, i, j)
  {
    hide Generated.Sound, ValidStack, StackOk, Run;
    RunKeepsPath(p, stack, x, i);
    RunKeepsPath(p, stack, x, j);
    SameStack(p.states, Run(p.k, Running(stack, [x]), i).stack, Run(p.k, Running(stack, [x]), j).stack);
  }

  /** Going round in a circle has no end. */
  lemma {:induction false} CirclesForEver(k: Constants, stack: seq<StackEntry>, x: nat, i: nat, j: nat, n: nat)
    requires k.Ok() && StackOk(k, stack) && Circles(k, stack, x, i, j)
    ensures !Ended(Run(k, Running(stack, [x]), n))
    decreases n
  {
    if n < j {
      NotEndedBefore(k, stack, x, n, j);
    } else {
      RunAdd(k, Running(stack, [x]), i, n - j);
      RunAdd(k, Running(stack, [x]), j, n - j);
      CirclesForEver(k, stack, x, i, j, i + (n - j));
    }
  }

  /** The loop of the source ends, given all the turns it wants. */
  ghost predicate EverEnds(k: Constants, stack: seq<StackEntry>, x: nat)
    requires k.Ok() && StackOk(k, stack)
  {
    exists m: nat :: Ended(Run(k, Running(stack, [x]), m))
  }

  /** Whatever the grammar: every token is dealt with after a number of turns that depends on the grammar
      and the depth of the stack only, or never. */
  lemma EndsSoon(p: Generated, stack: seq<StackEntry>, x: nat, n: nat)
    requires p.Sound() && ValidStack(p.states, stack) && StackOk(p.k, stack) && p.g.Terminal(x) && n >= TurnBound(p)
    ensures p.k.Ok()
    ensures Ended(Run(p.k, Running(stack, [x]), n)) <==> EverEnds(p.k, stack, x)
  {
    hide Generated.Sound, ValidStack, StackOk, Run, TurnBound, Ended, Circles;
    var i, j := EndsOrCircles(p, stack, x);
    if Circles(p.k, stack, x, i, j) {
      forall m: nat ensures !Ended(Run(p.k, Running(stack, [x]), m)) {
        CirclesForEver(p.k, stack, x, i, j, m);
      }
    } else {
      RunAdd(p.k, Running(stack, [x]), TurnBound(p), n - TurnBound(p));
      EndedStays(p.k, Run(p.k, Running(stack, [x]), TurnBound(p)), n - TurnBound(p));
    }
  }

  // ----- what a circle means for the grammar

  /** Turns that leave the token where it is undo as many derivation steps. */
  lemma {:induction false} TurnsUndoSteps(p: Generated, stack: seq<StackEntry>, x: nat, n: nat)
    requires p.Sound() && ValidStack(p.states, stack) && StackOk(p.k, stack) && p.g.Terminal(x)
    requires p.k.Ok() && !Ended(Run(p.k, Running(stack, [x]), n))
    ensures var c := Run(p.k, Running(stack, [x]), n);
      c.Running? && |c.stack| > 0 && DerivesIn(p.g, Majors(c.stack), Majors(stack), n)
    decreases n
  {
    hide Generated.Sound, ValidStack, StackOk, Turn, Step;
    RunKeepsPath(p, stack, x, n);
    PathFacts(p.states, stack);
    if n > 0 {
      TurnUndoesStep(p, stack, x);
      var c := Turn(p.k, stack, [x]);
      EndedStays(p.k, c, n - 1);
      if !Ended(c) {
        PathFacts(p.states, c.stack);
        TurnsUndoSteps(p, c.stack, x, n - 1);
        var now := Run(p.k, c, n - 1);
        assert DerivesIn(p.g, Majors(c.stack), Majors(stack), 1) by {
          assert DerivesIn(p.g, Majors(stack), Majors(stack), 0);
        }
        DerivesInTrans(p.g, Majors(now.stack), Majors(c.stack), Majors(stack), n - 1, 1);
      }
    }
  }

  /** A circle is a form that derives itself, in as many steps as it has turns. */
  lemma CircleDerives(p: Generated, stack: seq<StackEntry>, x: nat, i: nat, j: nat)
    requires p.Sound() && ValidStack(p.states, stack) && StackOk(p.k, stack) && p.g.Terminal(x)
    requires p.k.Ok() && Circles(p.k, stack, x, i, j)
    ensures var c := Run(p.k, Running(stack, [x]), i);
      && c.Running? && ValidStack(p.states, c.stack) && |c.stack| > 0
      && DerivesIn(p.g, Majors(c.stack), Majors(c.stack), j - i)
  {
    hide Generated.Sound, ValidStack, StackOk, Run;
    RunKeepsPath(p, stack, x, i);
    var c := Run(p.k, Running(stack, [x]), i);
    RunAdd(p.k, Running(stack, [x]), i, j - i);
    TurnsUndoSteps(p, c.stack, x, j - i);
  }

  /** In a grammar where no form derives itself, every token is dealt with. */
  lemma TokenEnds(p: Generated, stack: seq<StackEntry>, x: nat, n: nat)
    requires p.Sound() && !Cyclic(p.g) && ValidStack(p.states, stack) && StackOk(p.k, stack) && p.g.Terminal(x)
      && n >= TurnBound(p)
    ensures p.k.Ok() && Ended(Run(p.k, Running(stack, [x]), n))
  {
    hide Generated.Sound, ValidStack, StackOk, Run, TurnBound, Ended;
    var i, j := EndsOrCircles(p, stack, x);
    EndsSoon(p, stack, x, n);
    if Circles(p.k, stack, x, i, j) {
      CircleDerives(p, stack, x, i, j);
    }
  }
}
