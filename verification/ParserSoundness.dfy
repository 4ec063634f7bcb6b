/** Whatever the generated parser does is justified by the grammar. */
module ParserSoundness {
  import opened Grammars
  import opened Closures
  import opened Lr0
  import opened Driver

  /** The stack is a path of the automaton and spells a form that derives the tokens shifted. */
  ghost predicate Inv(g: Grammar, states: seq<State>, k: Constants, stack: seq<StackEntry>, shifted: Form) {
    ValidStack(states, stack) && |stack| <= k.depth && Derives(g, Majors(stack), shifted)
  }

  /** The rule reduced is on top of the stack, symbol by symbol, and uncovers a state that knows
      its left-hand side. */
  lemma ReducePops(g: Grammar, lambda: seq<bool>, first: seq<set<nat>>, states: seq<State>, bplp: BackLinks,
                   stack: seq<StackEntry>, r: nat)
    requires Built(g, lambda, first, states, bplp) && ValidStack(states, stack)
    requires r < |g.rules| && Item(r, |g.rules[r].rhs|) in states[Top(stack)].cl.items
    ensures |g.rules[r].rhs| < |stack|
    ensures var popped := stack[..|stack| - |g.rules[r].rhs|];
      && ValidStack(states, popped) && Majors(stack) == Majors(popped) + g.rules[r].rhs
      && (g.rules[r].lhs in states[Top(popped)].shifts || (Top(popped) == 0 && g.rules[r].lhs == g.start))
  {
    hide AutomatonOk, Complete;
    var it := Item(r, |g.rules[r].rhs|);
    ItemOnStack(g, lambda, first, states, bplp, stack, it);
    SpelledPops(g, states, stack, r);
    BegunHasGoto(g, lambda, first, states, bplp, Top(stack[..|stack| - it.dot]), r);
  }

  lemma SpelledPops(g: Grammar, states: seq<State>, stack: seq<StackEntry>, r: nat)
    requires ValidStack(states, stack) && r < |g.rules| && Spelled(g, states, stack, Item(r, |g.rules[r].rhs|))
    ensures var popped := stack[..|stack| - |g.rules[r].rhs|];
      && ValidStack(states, popped) && Majors(stack) == Majors(popped) + g.rules[r].rhs
      && Item(r, 0) in states[Top(popped)].cl.items
  {
    var rhs := g.rules[r].rhs;
    var n := |stack| - |rhs|;
    assert rhs[..|rhs|] == rhs;
    ValidPrefix(states, stack, n);
    assert Majors(stack) == Majors(stack)[..n - 1] + Majors(stack)[n - 1..];
  }

  /** State 0 is only ever at the bottom. */
  lemma StartOnlyAtBottom(g: Grammar, lambda: seq<bool>, first: seq<set<nat>>, states: seq<State>, bplp: BackLinks,
                          stack: seq<StackEntry>)
    requires AutomatonOk(g, lambda, first, states, bplp) && ValidStack(states, stack) && Top(stack) == 0
    ensures |stack| == 1
  {
    var n := |stack| - 1;
    if n > 0 {
      NeverBackToStart(g, lambda, first, states, bplp, stack[n - 1].stateno, stack[n].major);
    }
  }

  /** A reduction keeps the derivation; if it ends the run, it has found a sentence. */
  lemma ReduceSound(g: Grammar, lambda: seq<bool>, first: seq<set<nat>>, states: seq<State>, bplp: BackLinks,
                    k: Constants, stack: seq<StackEntry>, r: nat, input: Form, shifted: Form)
    requires Built(g, lambda, first, states, bplp) && TablesSound(g, states, k)
    requires Inv(g, states, k, stack, shifted) && StackOk(k, stack)
    requires r < |g.rules| && Item(r, |g.rules[r].rhs|) in states[Top(stack)].cl.items
    ensures match Reduce(k, stack, r, input)
      case Running(now, rest) => rest == input && Inv(g, states, k, now, shifted)
      case Accepted(rest) => rest == input && Derives(g, [g.start], shifted)
      case Overflow => true
      case _ => false
  {
    hide AutomatonOk, Complete, Derives;
    ReducePops(g, lambda, first, states, bplp, stack, r);
    var popped := stack[..|stack| - |g.rules[r].rhs|];
    var lhs := g.rules[r].lhs;
    RuleDerivesInContext(g, Majors(popped), r, []);
    assert Majors(popped) + [lhs] + [] == Majors(popped) + [lhs];
    assert Majors(popped) + g.rules[r].rhs + [] == Majors(stack);
    DerivesTrans(g, Majors(popped) + [lhs], Majors(stack), shifted);
    if lhs in states[Top(popped)].shifts {
      NeverBackToStart(g, lambda, first, states, bplp, Top(popped), lhs);
      ValidPush(states, popped, lhs);
    } else {
      StartOnlyAtBottom(g, lambda, first, states, bplp, popped);
      assert Majors(popped) + [lhs] == [g.start];
    }
  }

  /** What may be said of the driver at any point of a run over the tokens `all`, of which it has
      shifted `done`: no token is lost or reordered; a running driver's stack derives the tokens
      shifted; acceptance means the start symbol derives exactly those; it is never broken. */
  ghost predicate Justified(g: Grammar, states: seq<State>, k: Constants, c: Conf, all: Form, done: Form) {
    match c
    case Running(stack, rest) => done + rest == all && Inv(g, states, k, stack, done) && StackOk(k, stack)
    case Accepted(rest) => done + rest == all && Derives(g, [g.start], done)
    case Broken => false
    case _ => true
  }

  ghost predicate Tokens(g: Grammar, input: Form) {
    forall i :: 0 <= i < |input| ==> g.Terminal(input[i])
  }

  /** One turn: a shift adds the token to the derivation, a reduction keeps it. */
  lemma TurnSound(g: Grammar, lambda: seq<bool>, first: seq<set<nat>>, states: seq<State>, bplp: BackLinks,
                  k: Constants, stack: seq<StackEntry>, input: Form, all: Form, done: Form) returns (now: Form)
    requires Built(g, lambda, first, states, bplp) && TablesSound(g, states, k)
    requires Justified(g, states, k, Running(stack, input), all, done) && input != [] && Tokens(g, all)
    ensures Justified(g, states, k, Turn(k, stack, input), all, now)
  {
    hide AutomatonOk, Complete, Derives, Reduce;
    var s, x := Top(stack), input[0];
    assert all[|done|] == x;
    var act := k.tables.FindShiftAction(s, x);
    assert TokenActionOk(g, states, k, s, x);
    now := done;
    if act < |states| {
      NeverBackToStart(g, lambda, first, states, bplp, s, x);
      ValidPush(states, stack, x);
      DerivesSuffix(g, Majors(stack), done, [x]);
      now := done + [x];
      assert done + input == now + input[1..];
    } else if act < |states| + |g.rules| {
      ReduceSound(g, lambda, first, states, bplp, k, stack, act - |states|, input, done);
    }
  }

  /** Runs of any length are justified. */
  lemma {:induction false} RunSound(g: Grammar, lambda: seq<bool>, first: seq<set<nat>>, states: seq<State>,
                                    bplp: BackLinks, k: Constants, c: Conf, all: Form, done: Form, n: nat)
                                      returns (now: Form)
    requires Built(g, lambda, first, states, bplp) && TablesSound(g, states, k)
    requires Justified(g, states, k, c, all, done) && Tokens(g, all)
    ensures Justified(g, states, k, Run(k, c, n), all, now)
    decreases n
  {
    assert k.Ok() && (c.Running? ==> StackOk(k, c.stack));
    hide Built, TablesSound, Justified, Turn;
    if n == 0 || !c.Running? || c.input == [] {
      now := done;
    } else {
      now := TurnSound(g, lambda, first, states, bplp, k, c.stack, c.input, all, done);
      now := RunSound(g, lambda, first, states, bplp, k, Turn(k, c.stack, c.input), all, now, n - 1);
    }
  }

  lemma StartJustified(g: Grammar, states: seq<State>, k: Constants, input: Form)
    requires |states| > 0 && k.depth > 0 && k.sz.nstate == |states|
    ensures Justified(g, states, k, Start(input), input, [])
  {
    assert Majors([BOTTOM]) == [] && [] + input == input;
    DerivesRefl(g, []);
  }

  /** Parser soundness: a run over any tokens never breaks, and if it ends in acceptance the tokens
      it shifted are a sentence of the grammar and an initial part of the input. */
  lemma AcceptsOnlySentences(g: Grammar, lambda: seq<bool>, first: seq<set<nat>>, states: seq<State>, bplp: BackLinks,
                             k: Constants, input: Form, n: nat)
    requires Built(g, lambda, first, states, bplp) && TablesSound(g, states, k) && Tokens(g, input)
    ensures StackOk(k, [BOTTOM]) && Run(k, Start(input), n) != Broken
    ensures Run(k, Start(input), n).Accepted? ==>
      exists done :: done + Run(k, Start(input), n).input == input && Derives(g, [g.start], done)
  {
    StartJustified(g, states, k, input);
    var done := RunSound(g, lambda, first, states, bplp, k, Start(input), input, [], n);
  }

  // ----- no token is shifted in error

  /** The stack, completed by the rest of the item and `after`, is a form of the start symbol. */
  ghost predicate Completes(g: Grammar, stack: seq<StackEntry>, it: Item, after: Form)
    requires |stack| > 0 && it.Ok(g)
  {
    Derives(g, [g.start], Majors(stack) + g.rules[it.rule].rhs[it.dot..] + after)
  }

  /** An item that begins a rule completes the stack if the item that calls for it does. */
  lemma ExpandedCompletes(g: Grammar, stack: seq<StackEntry>, caller: Item, after: Form, r: nat)
    requires |stack| > 0 && caller.Ok(g) && r < |g.rules| && caller.Expands(g, r) && Completes(g, stack, caller, after)
    ensures Completes(g, stack, Item(r, 0), caller.Rest(g) + after)
  {
    var lhs, rhs, rest := g.rules[r].lhs, g.rules[r].rhs, caller.Rest(g);
    assert g.rules[caller.rule].rhs[caller.dot..] == [lhs] + rest;
    RuleDerivesInContext(g, Majors(stack), r, rest + after);
    assert Majors(stack) + ([lhs] + rest) + after == Majors(stack) + [lhs] + (rest + after);
    assert rhs[0..] == rhs;
    DerivesTrans(g, [g.start], Majors(stack) + [lhs] + (rest + after), Majors(stack) + rhs + (rest + after));
  }

  /** An advanced item completes the stack if it did before the advance. */
  lemma AdvancedCompletes(g: Grammar, states: seq<State>, stack: seq<StackEntry>, it: Item, after: Form)
    requires ValidStack(states, stack) && |stack| > 1 && it.Ok(g) && it.dot > 0
    requires g.rules[it.rule].rhs[it.dot - 1] == stack[|stack| - 1].major
    requires Completes(g, stack[..|stack| - 1], Item(it.rule, it.dot - 1), after)
    ensures Completes(g, stack, it, after)
  {
    var below, x, rhs := stack[..|stack| - 1], stack[|stack| - 1].major, g.rules[it.rule].rhs;
    assert Majors(stack) == Majors(below) + [x];
    assert rhs[it.dot - 1..] == [x] + rhs[it.dot..];
    assert Majors(below) + rhs[it.dot - 1..] + after == Majors(stack) + rhs[it.dot..] + after;
  }

  /** The start symbol's own rules complete the empty stack. */
  lemma StartCompletes(g: Grammar, stack: seq<StackEntry>, r: nat)
    requires |stack| == 1 && r < |g.rules| && g.rules[r].lhs == g.start
    ensures Completes(g, stack, Item(r, 0), [])
  {
    RuleDerives(g, r);
    assert Majors(stack) + g.rules[r].rhs[0..] + [] == g.rules[r].rhs;
  }

  /** Every item of the top state can be completed to a form of the start symbol. */
  lemma {:induction false} ItemCompletes(g: Grammar, lambda: seq<bool>, first: seq<set<nat>>, states: seq<State>,
                                         bplp: BackLinks, stack: seq<StackEntry>, n: nat) returns (after: Form)
    requires AutomatonOk(g, lambda, first, states, bplp) && ValidStack(states, stack)
    requires n < |states[Top(stack)].cl.items|
    ensures states[Top(stack)].cl.items[n].Ok(g) && Completes(g, stack, states[Top(stack)].cl.items[n], after)
    decreases |stack|, n
  {
    var st := states[Top(stack)];
    assert StateOk(g, lambda, first, st, Top(stack));
    var it := st.cl.items[n];
    if it.dot > 0 {
      ItemBelow(g, lambda, first, states, bplp, stack, it);
      var below := stack[..|stack| - 1];
      var prev := Item(it.rule, it.dot - 1);
      var m :| 0 <= m < |states[Top(below)].cl.items| && states[Top(below)].cl.items[m] == prev;
      after := ItemCompletes(g, lambda, first, states, bplp, below, m);
      AdvancedCompletes(g, states, stack, it, after);
    } else if n >= |st.basis| {
      var i :| 0 <= i < n && st.cl.items[i].Expands(g, it.rule);
      var later := ItemCompletes(g, lambda, first, states, bplp, stack, i);
      ExpandedCompletes(g, stack, st.cl.items[i], later, it.rule);
      after := st.cl.items[i].Rest(g) + later;
    } else {
      BasisAtDotZero(g, lambda, first, st, Top(stack), n);
      StartOnlyAtBottom(g, lambda, first, states, bplp, stack);
      StartCompletes(g, stack, it.rule);
      after := [];
    }
  }

  lemma BasisAtDotZero(g: Grammar, lambda: seq<bool>, first: seq<set<nat>>, st: State, s: nat, n: nat)
    requires StateOk(g, lambda, first, st, s) && n < |st.basis| && st.cl.items[n].dot == 0
    ensures s == 0 && st.cl.items[n].rule < |g.rules| && g.rules[st.cl.items[n].rule].lhs == g.start
  {
    assert st.cl.items[..|st.basis|][n] == st.cl.items[n] && st.cl.items[n] in st.basis;
  }

  lemma TopHasItem(g: Grammar, lambda: seq<bool>, first: seq<set<nat>>, states: seq<State>, bplp: BackLinks,
                   stack: seq<StackEntry>)
    requires AutomatonOk(g, lambda, first, states, bplp) && ValidStack(states, stack) && |stack| > 1
    ensures |states[Top(stack)].cl.items| > 0
  {
    var n := |stack| - 1;
    var s, x := stack[n - 1].stateno, stack[n].major;
    assert StateOk(g, lambda, first, states[s], s) && ShiftsOk(g, states, s);
    var i: nat :| NextIs(g, states[s].cl.items, i, x);
    assert states[s].cl.items[i].Advance() in Advances(g, states[s].cl.items, x);
    assert states[s].cl.items[i].Advance() in ItemSet(states[Top(stack)].basis);
    assert StateOk(g, lambda, first, states[Top(stack)], Top(stack));
  }

  /** What the stack spells begins a form that the start symbol derives. */
  lemma StackBegins(g: Grammar, lambda: seq<bool>, first: seq<set<nat>>, states: seq<State>, bplp: BackLinks,
                    stack: seq<StackEntry>) returns (rest: Form)
    requires AutomatonOk(g, lambda, first, states, bplp) && ValidStack(states, stack) && |stack| > 1
    ensures Derives(g, [g.start], Majors(stack) + rest)
  {
    TopHasItem(g, lambda, first, states, bplp, stack);
    var it := states[Top(stack)].cl.items[0];
    var after := ItemCompletes(g, lambda, first, states, bplp, stack, 0);
    rest := g.rules[it.rule].rhs[it.dot..] + after;
    assert Majors(stack) + g.rules[it.rule].rhs[it.dot..] + after == Majors(stack) + rest;
  }

  /** The tokens behind a stack begin a form that the start symbol derives. */
  lemma StackIsViable(g: Grammar, lambda: seq<bool>, first: seq<set<nat>>, states: seq<State>, bplp: BackLinks,
                      k: Constants, stack: seq<StackEntry>, shifted: Form)
    returns (rest: Form)
    requires AutomatonOk(g, lambda, first, states, bplp) && Inv(g, states, k, stack, shifted) && |stack| > 1
    ensures Derives(g, [g.start], shifted + rest)
  {
    rest := StackBegins(g, lambda, first, states, bplp, stack);
    DerivesSuffix(g, Majors(stack), shifted, rest);
    DerivesTrans(g, [g.start], Majors(stack) + rest, shifted + rest);
  }

  lemma {:induction false} NothingFromNothing(g: Grammar, w: Form, n: nat)
    requires DerivesIn(g, [], w, n)
    ensures w == []
  {
  }

  /** Correct prefixes: at every point of every run, with default reductions or without, the tokens
      shifted so far begin a form that the start symbol derives.  An erroneous token may be met by
      reductions, but is never shifted. */
  lemma ShiftedIsViable(g: Grammar, lambda: seq<bool>, first: seq<set<nat>>, states: seq<State>, bplp: BackLinks,
                        k: Constants, input: Form, n: nat) returns (shifted: Form, rest: Form)
    requires Built(g, lambda, first, states, bplp) && TablesSound(g, states, k) && Tokens(g, input)
    ensures StackOk(k, [BOTTOM])
    ensures Run(k, Start(input), n).Running? ==>
      shifted + Run(k, Start(input), n).input == input && Derives(g, [g.start], shifted + rest)
  {
    StartJustified(g, states, k, input);
    shifted := RunSound(g, lambda, first, states, bplp, k, Start(input), input, [], n);
    var c := Run(k, Start(input), n);
    hide AutomatonOk, TablesSound, Run;
    rest := [g.start];
    if c.Running? && |c.stack| > 1 {
      rest := StackIsViable(g, lambda, first, states, bplp, k, c.stack, shifted);
    } else if c.Running? {
      assert Majors(c.stack) == [];
      var m: nat :| DerivesIn(g, [], shifted, m);
      NothingFromNothing(g, shifted, m);
      DerivesRefl(g, [g.start]);
      assert shifted + rest == [g.start];
    }
  }
}
