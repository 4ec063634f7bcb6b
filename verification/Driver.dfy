/** The generated parser (lempar.c): a stack of states driven by the packed tables. */
module Driver {
  import opened Grammars
  import opened Closures
  import opened Lr0
  import opened Tables

  datatype StackEntry = StackEntry(stateno: nat, major: nat)

  /** What the generated file fixes: the tables, YYNSTATE and YYNRULE, yyRuleInfo (the rules), and
      YYSTACKDEPTH. */
  datatype Constants = Constants(tables: Tables, sz: Sizes, rules: seq<Rule>, depth: nat) {
    predicate Ok() {
      tables.Ok() && tables.nstate == sz.nstate > 0 && sz.nrule == |rules| && depth > 0
    }
  }

  /** The driver between two turns of its loop, with the tokens still to be read; or how it ended.
      Broken stands for a pop below the bottom of the stack, or a reduction that pushes nothing. */
  datatype Conf = Running(stack: seq<StackEntry>, input: Form)
                | Accepted(input: Form) | SyntaxError | Overflow | Broken

  const BOTTOM := StackEntry(0, 0)

  ghost predicate StackOk(k: Constants, stack: seq<StackEntry>) {
    0 < |stack| <= k.depth && forall i :: 0 <= i < |stack| ==> stack[i].stateno < k.sz.nstate
  }

  function Top(stack: seq<StackEntry>): nat
    requires |stack| > 0
  {
    stack[|stack| - 1].stateno
  }

  /** yy_shift */
  function Push(k: Constants, stack: seq<StackEntry>, stateno: nat, major: nat, input: Form): Conf {
    if |stack| >= k.depth then Overflow else Running(stack + [StackEntry(stateno, major)], input)
  }

  /** yy_reduce */
  function Reduce(k: Constants, stack: seq<StackEntry>, rule: nat, input: Form): (c: Conf)
    requires k.Ok() && StackOk(k, stack) && rule < |k.rules|
    ensures c.Running? ==> StackOk(k, c.stack)
  {
    var n := |k.rules[rule].rhs|;
    if |stack| <= n then Broken
    else
      var popped := stack[..|stack| - n];
      var act := k.tables.FindReduceAction(Top(popped), k.rules[rule].lhs);
      if 0 <= act < k.sz.nstate then Push(k, popped, act, k.rules[rule].lhs, input)
      else if act == k.sz.nstate + k.sz.nrule + 1 then Accepted(input)
      else Broken
  }

  /** What the loop does with an action, on the token at the head of the input.  The end marker stays
      the current token even when it is shifted. */
  function Act(k: Constants, stack: seq<StackEntry>, input: Form, act: int): (c: Conf)
    requires k.Ok() && StackOk(k, stack) && input != []
    ensures c.Running? ==> StackOk(k, c.stack)
  {
    if act < 0 then Broken
    else if act < k.sz.nstate then Push(k, stack, act, input[0], if input[0] == 0 then input else input[1..])
    else if act < k.sz.nstate + k.sz.nrule then Reduce(k, stack, act - k.sz.nstate, input)
    else if act == k.sz.nstate + k.sz.nrule then SyntaxError
    else Accepted(input)
  }

  /** One turn of Parse's loop. */
  function Turn(k: Constants, stack: seq<StackEntry>, input: Form): (c: Conf)
    requires k.Ok() && StackOk(k, stack) && input != []
    ensures c.Running? ==> StackOk(k, c.stack)
  {
    Act(k, stack, input, k.tables.FindShiftAction(Top(stack), input[0]))
  }

  /** `n` turns, or fewer if the run ends or the input runs out. */
  function Run(k: Constants, c: Conf, n: nat): Conf
    requires k.Ok() && (c.Running? ==> StackOk(k, c.stack))
    decreases n
  {
    if n == 0 || !c.Running? || c.input == [] then c else Run(k, Turn(k, c.stack, c.input), n - 1)
  }

  /** The driver before its first token. */
  function Start(input: Form): Conf {
    Running([BOTTOM], input)
  }

  // ----- what the tables have to do with the grammar

  /** A finished automaton whose first state does not shift the start symbol, which it accepts instead. */
  ghost predicate Built(g: Grammar, lambda: seq<bool>, first: seq<set<nat>>, states: seq<State>, bplp: BackLinks) {
    && AutomatonOk(g, lambda, first, states, bplp) && g.Valid() && |states| > 0
    && (forall s :: 0 <= s < |states| ==> Complete(g, states, bplp, s))
    && g.start !in states[0].shifts
  }

  /** The tables never do anything the automaton does not allow: a token is shifted along a
      transition and a rule reduced where it is complete; after a reduction the transition on the
      left-hand side is taken, and state 0 accepts the start symbol. */
  ghost predicate TablesSound(g: Grammar, states: seq<State>, k: Constants) {
    && k.Ok() && k.rules == g.rules && k.sz.nstate == |states|
    && k.sz.nterminal == g.nterminal && k.sz.nsymbol == g.nsymbol
    && (forall s: nat, x: nat :: s < |states| && g.Terminal(x) ==> TokenActionOk(g, states, k, s, x))
    && (forall s: nat, x: nat :: s < |states| && x in states[s].shifts && g.Nonterminal(x) ==>
          k.tables.FindReduceAction(s, x) == states[s].shifts[x])
    && k.tables.FindReduceAction(0, g.start) == |states| + |g.rules| + 1
  }

  ghost predicate TokenActionOk(g: Grammar, states: seq<State>, k: Constants, s: nat, x: nat)
    requires k.Ok() && s < |states| == k.sz.nstate && k.rules == g.rules
  {
    var act := k.tables.FindShiftAction(s, x);
    || (x in states[s].shifts && act == states[s].shifts[x] && 0 <= act < |states|)
    || (|states| <= act < |states| + |g.rules|
      && Item(act - |states|, |g.rules[act - |states|].rhs|) in states[s].cl.items)
    || act == |states| + |g.rules|
  }

  // ----- the stack is a path of the automaton

  ghost predicate ValidStack(states: seq<State>, stack: seq<StackEntry>) {
    && |stack| > 0 && stack[0] == BOTTOM
    && (forall i :: 0 <= i < |stack| ==> stack[i].stateno < |states|)
    && (forall i :: 0 < i < |stack| ==>
          stack[i].major in states[stack[i - 1].stateno].shifts
          && states[stack[i - 1].stateno].shifts[stack[i].major] == stack[i].stateno)
  }

  /** The symbols on the stack, above its bottom entry. */
  function Majors(stack: seq<StackEntry>): Form
    requires |stack| > 0
  {
    seq(|stack| - 1, i requires 0 <= i < |stack| - 1 => stack[i + 1].major)
  }

  lemma ValidPrefix(states: seq<State>, stack: seq<StackEntry>, n: nat)
    requires ValidStack(states, stack) && 0 < n <= |stack|
    ensures ValidStack(states, stack[..n]) && Majors(stack[..n]) == Majors(stack)[..n - 1]
  {
  }

  lemma ValidPush(states: seq<State>, stack: seq<StackEntry>, x: nat)
    requires ValidStack(states, stack) && x in states[Top(stack)].shifts && states[Top(stack)].shifts[x] < |states|
    ensures var now := stack + [StackEntry(states[Top(stack)].shifts[x], x)];
      ValidStack(states, now) && Majors(now) == Majors(stack) + [x]
  {
  }

  /** An item of a basis was advanced over the symbol that leads there. */
  lemma AdvancedFrom(g: Grammar, from: Closure, basis: seq<Item>, x: nat, it: Item)
    requires ListOk(g, from) && ItemSet(basis) == Advances(g, from.items, x) && it in basis
    ensures it.Ok(g) && it.dot > 0 && g.rules[it.rule].rhs[it.dot - 1] == x && Item(it.rule, it.dot - 1) in from.items
  {
    assert it in ItemSet(basis);
    var i :| 0 <= i < |from.items| && !from.items[i].AtEnd(g) && from.items[i].Next(g) == x
      && it == from.items[i].Advance();
    assert from.items[i] == Item(it.rule, it.dot - 1);
  }

  lemma InBasis(g: Grammar, lambda: seq<bool>, first: seq<set<nat>>, st: State, s: nat, it: Item)
    requires StateOk(g, lambda, first, st, s) && it in st.cl.items && it.dot > 0
    ensures it in st.basis && it.Ok(g)
  {
    var n :| 0 <= n < |st.cl.items| && st.cl.items[n] == it;
    assert n < |st.basis|;
    assert st.cl.items[..|st.basis|][n] == it;
  }

  lemma NeverBackToStart(g: Grammar, lambda: seq<bool>, first: seq<set<nat>>, states: seq<State>, bplp: BackLinks,
                         s: nat, x: nat)
    requires AutomatonOk(g, lambda, first, states, bplp) && s < |states| && x in states[s].shifts
    ensures 0 < states[s].shifts[x] < |states| && 0 < x
  {
    assert StateOk(g, lambda, first, states[s], s) && ShiftsOk(g, states, s);
    var i: nat :| NextIs(g, states[s].cl.items, i, x);
    var it := states[s].cl.items[i].Advance();
    assert it in Advances(g, states[s].cl.items, x);
    assert it in ItemSet(states[states[s].shifts[x]].basis);
    assert StateOk(g, lambda, first, states[0], 0);
  }

  /** An item past its start was advanced over the top symbol, out of the state underneath. */
  lemma ItemBelow(g: Grammar, lambda: seq<bool>, first: seq<set<nat>>, states: seq<State>, bplp: BackLinks,
                  stack: seq<StackEntry>, it: Item)
    requires AutomatonOk(g, lambda, first, states, bplp) && ValidStack(states, stack)
    requires it in states[Top(stack)].cl.items && it.dot > 0
    ensures |stack| > 1 && it.Ok(g) && g.rules[it.rule].rhs[it.dot - 1] == stack[|stack| - 1].major
    ensures ValidStack(states, stack[..|stack| - 1])
    ensures Item(it.rule, it.dot - 1) in states[Top(stack[..|stack| - 1])].cl.items
  {
    var n := |stack| - 1;
    assert StateOk(g, lambda, first, states[Top(stack)], Top(stack));
    InBasis(g, lambda, first, states[Top(stack)], Top(stack), it);
    assert StateOk(g, lambda, first, states[0], 0);
    assert n > 0;
    var s := stack[n - 1].stateno;
    assert StateOk(g, lambda, first, states[s], s) && ShiftsOk(g, states, s);
    AdvancedFrom(g, states[s].cl, states[Top(stack)].basis, stack[n].major, it);
    ValidPrefix(states, stack, n);
  }

  /** The stack has the first `dot` symbols of the item on top, and the item began in the state
      underneath them. */
  ghost predicate Spelled(g: Grammar, states: seq<State>, stack: seq<StackEntry>, it: Item)
    requires ValidStack(states, stack)
  {
    && it.Ok(g) && it.dot < |stack|
    && Majors(stack)[|stack| - 1 - it.dot..] == g.rules[it.rule].rhs[..it.dot]
    && Item(it.rule, 0) in states[stack[|stack| - 1 - it.dot].stateno].cl.items
  }

  lemma SpelledUp(g: Grammar, states: seq<State>, stack: seq<StackEntry>, it: Item)
    requires ValidStack(states, stack) && |stack| > 1 && it.Ok(g) && it.dot > 0
    requires g.rules[it.rule].rhs[it.dot - 1] == stack[|stack| - 1].major
    requires ValidStack(states, stack[..|stack| - 1])
      && Spelled(g, states, stack[..|stack| - 1], Item(it.rule, it.dot - 1))
    ensures Spelled(g, states, stack, it)
  {
    var n := |stack| - 1;
    ValidPrefix(states, stack, n);
    assert Majors(stack) == Majors(stack[..n]) + [stack[n].major];
    assert Majors(stack)[n - it.dot..] == Majors(stack[..n])[n - it.dot..] + [stack[n].major];
    assert g.rules[it.rule].rhs[..it.dot] == g.rules[it.rule].rhs[..it.dot - 1] + [stack[n].major];
  }

  lemma SpelledAtStart(g: Grammar, states: seq<State>, stack: seq<StackEntry>, it: Item)
    requires ValidStack(states, stack) && it in states[Top(stack)].cl.items && it.Ok(g) && it.dot == 0
    ensures Spelled(g, states, stack, it)
  {
    assert Majors(stack)[|stack| - 1..] == g.rules[it.rule].rhs[..0];
  }

  lemma {:induction false} ItemOnStack(g: Grammar, lambda: seq<bool>, first: seq<set<nat>>, states: seq<State>,
                                       bplp: BackLinks, stack: seq<StackEntry>, it: Item)
    requires AutomatonOk(g, lambda, first, states, bplp) && ValidStack(states, stack)
    requires it in states[Top(stack)].cl.items && it.Ok(g)
    ensures Spelled(g, states, stack, it)
    decreases it.dot
  {
    if it.dot > 0 {
      var n := |stack| - 1;
      ItemBelow(g, lambda, first, states, bplp, stack, it);
      ItemOnStack(g, lambda, first, states, bplp, stack[..n], Item(it.rule, it.dot - 1));
      SpelledUp(g, states, stack, it);
    } else {
      SpelledAtStart(g, states, stack, it);
    }
  }

  /** A state in which a rule begins either has a transition on its left-hand side, or is the
      first state and the rule is one of the start symbol's. */
  lemma BegunHasGoto(g: Grammar, lambda: seq<bool>, first: seq<set<nat>>, states: seq<State>, bplp: BackLinks, s: nat,
                     r: nat)
    requires Built(g, lambda, first, states, bplp) && s < |states| && Item(r, 0) in states[s].cl.items
    ensures r < |g.rules|
    ensures g.rules[r].lhs in states[s].shifts || (s == 0 && g.rules[r].lhs == g.start)
  {
    var st := states[s];
    assert StateOk(g, lambda, first, st, s) && Complete(g, states, bplp, s);
    var n :| 0 <= n < |st.cl.items| && st.cl.items[n] == Item(r, 0);
    if n < |st.basis| {
      assert st.cl.items[..|st.basis|][n] == Item(r, 0);
      assert Item(r, 0) in st.basis;
    } else {
      var i :| 0 <= i < n && st.cl.items[i].Expands(g, r);
      assert Shifted(g, states, bplp, s, i);
    }
  }
}
