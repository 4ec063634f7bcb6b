/** How a parse fails: what a syntax error and a stack overflow of the generated parser mean. */
module ParserErrors {
  import opened Grammars
  import opened Closures
  import opened Lr0
  import opened Driver
  import opened Forests
  import opened ParserSoundness
  import opened ParserCompleteness
  import opened ParserTermination
  import opened Lalr
  import opened Lookaheads
  import opened LalrTermination
  import opened Options

  // ----- one turn

  /** The action pushes an entry and pops none: it shifts, or reduces by an empty rule. */
  ghost predicate Pushes(p: Generated, s: nat, act: int) {
    0 <= act < |p.states| || (act >= |p.states| && PushesRule(p, s, act - |p.states|))
  }

  ghost predicate PushesRule(p: Generated, s: nat, r: nat) {
    r < |p.g.rules| && p.g.rules[r].rhs == [] && s < |p.states| && p.g.rules[r].lhs in p.states[s].shifts
  }

  /** The stack is full, and the next turn would push one more. */
  ghost predicate Full(p: Generated, stack: seq<StackEntry>, x: nat)
    requires p.k.Ok() && StackOk(p.k, stack)
  {
    |stack| == p.k.depth && Pushes(p, Top(stack), p.k.tables.FindShiftAction(Top(stack), x))
  }

  /** A turn overflows exactly if the stack is full and one more is to be pushed. */
  lemma TurnOverflows(p: Generated, stack: seq<StackEntry>, x: nat)
    requires p.Sound() && ValidStack(p.states, stack) && p.k.Ok() && StackOk(p.k, stack) && p.g.Terminal(x)
    ensures Turn(p.k, stack, [x]) == Overflow <==> Full(p, stack, x)
  {
    TokenAction(p, stack, x);
    var act := p.k.tables.FindShiftAction(Top(stack), x);
    assert Turn(p.k, stack, [x]) == Act(p.k, stack, [x], act) && p.k.rules == p.g.rules;
    hide Turn, Act, ValidStack, Generated.Sound, Allowed;
    ActOverflows(p, stack, x, act);
  }

  lemma ActOverflows(p: Generated, stack: seq<StackEntry>, x: nat, act: int)
    requires p.Sound() && ValidStack(p.states, stack) && p.k.Ok() && StackOk(p.k, stack)
    requires p.k.sz.nstate == |p.states| && p.k.sz.nrule == |p.g.rules| && p.k.rules == p.g.rules
    requires Allowed(p, Top(stack), x, act)
    ensures Act(p.k, stack, [x], act) == Overflow <==> |stack| == p.k.depth && Pushes(p, Top(stack), act)
  {
    hide Generated.Sound, ValidStack, Reduce;
    if |p.states| <= act < |p.states| + |p.g.rules| {
      ReduceOverflows(p, stack, x, act - |p.states|);
    }
  }

  lemma ReduceOverflows(p: Generated, stack: seq<StackEntry>, x: nat, r: nat)
    requires p.Sound() && ValidStack(p.states, stack) && p.k.Ok() && StackOk(p.k, stack)
    requires r < |p.g.rules| == |p.k.rules| && Item(r, |p.g.rules[r].rhs|) in p.states[Top(stack)].cl.items
    ensures Reduce(p.k, stack, r, [x]) == Overflow <==>
      |stack| == p.k.depth && PushesRule(p, Top(stack), r)
  {
    assert p.g.Valid() && p.g.Nonterminal(p.g.rules[r].lhs);
    assert p.k.rules == p.g.rules && p.k.sz.nstate == |p.states| && Top(stack) < |p.states|;
    hide Generated.Sound, ValidStack, StackOk, Reduce;
    var g := p.g;
    ReducePops(g, p.lambda, p.first, p.states, p.bplp, stack, r);
    var popped := stack[..|stack| - |g.rules[r].rhs|];
    assert g.rules[r].rhs == [] ==> popped == stack;
    ReduceTarget(p, popped, g.rules[r].lhs);
    ReducePushes(p.k, stack, r, x);
  }

  /** A reduction overflows exactly if it is to push an entry on a full stack. */
  lemma ReducePushes(k: Constants, stack: seq<StackEntry>, r: nat, x: nat)
    requires k.Ok() && StackOk(k, stack) && r < |k.rules| && |k.rules[r].rhs| < |stack|
    ensures var popped := stack[..|stack| - |k.rules[r].rhs|];
      Reduce(k, stack, r, [x]) == Overflow <==>
        && 0 <= k.tables.FindReduceAction(Top(popped), k.rules[r].lhs) < k.sz.nstate
        && |stack| == k.depth && k.rules[r].rhs == []
  {
  }

  /** Where a reduction goes. */
  lemma ReduceTarget(p: Generated, popped: seq<StackEntry>, lhs: nat)
    requires p.Sound() && p.k.Ok() && ValidStack(p.states, popped) && p.g.Nonterminal(lhs)
    requires lhs in p.states[Top(popped)].shifts || (Top(popped) == 0 && lhs == p.g.start)
    ensures var s := Top(popped);
      if lhs in p.states[s].shifts
      then 0 <= p.k.tables.FindReduceAction(s, lhs) < p.k.sz.nstate
      else p.k.tables.FindReduceAction(s, lhs) == p.k.sz.nstate + p.k.sz.nrule + 1
  {
    if lhs in p.states[Top(popped)].shifts {
      NeverBackToStart(p.g, p.lambda, p.first, p.states, p.bplp, Top(popped), lhs);
      assert p.k.tables.FindReduceAction(Top(popped), lhs) == p.states[Top(popped)].shifts[lhs];
    } else {
      assert p.k.tables.FindReduceAction(0, p.g.start) == |p.states| + |p.g.rules| + 1;
    }
    hide Built, ValidStack;
  }

  /** The tables have nothing for the token. */
  ghost predicate Erroneous(p: Generated, stack: seq<StackEntry>, x: nat)
    requires p.k.Ok() && StackOk(p.k, stack)
  {
    p.k.tables.FindShiftAction(Top(stack), x) == |p.states| + |p.g.rules|
  }

  /** A turn fails exactly if the token is in error. */
  lemma TurnFails(p: Generated, stack: seq<StackEntry>, x: nat)
    requires p.Sound() && ValidStack(p.states, stack) && p.k.Ok() && StackOk(p.k, stack) && p.g.Terminal(x)
    ensures Turn(p.k, stack, [x]) == SyntaxError <==> Erroneous(p, stack, x)
  {
    TokenAction(p, stack, x);
  }

  // ----- whole runs

  /** The same configuration with more input to come. */
  function More(c: Conf, rest: Form): Conf {
    match c
    case Running(stack, input) => Running(stack, input + rest)
    case Accepted(input) => Accepted(input + rest)
    case _ => c
  }

  lemma TurnKeepsRest(k: Constants, stack: seq<StackEntry>, x: nat, rest: Form)
    requires k.Ok() && StackOk(k, stack)
    ensures Turn(k, stack, [x] + rest) == More(Turn(k, stack, [x]), rest)
    ensures var c := Turn(k, stack, [x]); c.Running? ==> c.input == [] || c.input == [x]
  {
    assert [x] + [] == [x] && ([x] + rest)[1..] == [] + rest;
  }

  /** The turn that ended a run. */
  lemma {:induction false} LastTurn(k: Constants, c: Conf, n: nat) returns (m: nat)
    requires k.Ok() && (c.Running? ==> StackOk(k, c.stack)) && c.Running? && !Run(k, c, n).Running?
    ensures m < n && var last := Run(k, c, m);
      last.Running? && last.input != [] && StackOk(k, last.stack) && Turn(k, last.stack, last.input) == Run(k, c, n)
    decreases n
  {
    var next := Turn(k, c.stack, c.input);
    if next.Running? {
      m := LastTurn(k, next, n - 1);
      m := m + 1;
    } else {
      m := 0;
      assert Run(k, next, n - 1) == next;
    }
  }

  /** A run that is over stays as it is when more input follows. */
  lemma {:induction false} RunMore(k: Constants, stack: seq<StackEntry>, input: Form, rest: Form, n: nat)
    requires k.Ok() && StackOk(k, stack) && !Run(k, Running(stack, input), n).Running?
    ensures Run(k, Running(stack, input + rest), n) == More(Run(k, Running(stack, input), n), rest)
    decreases n
  {
    var x, later := input[0], input[1..];
    assert [x] + later == input && [x] + (later + rest) == input + rest;
    TurnKeepsRest(k, stack, x, later);
    TurnKeepsRest(k, stack, x, later + rest);
    var c, d := Turn(k, stack, input), Turn(k, stack, input + rest);
    assert d == More(c, rest) by {
      MoreMore(Turn(k, stack, [x]), later, rest);
    }
    if c.Running? {
      RunMore(k, c.stack, c.input, rest, n - 1);
    } else {
      assert Run(k, c, n - 1) == c && Run(k, d, n - 1) == d;
    }
  }

  lemma MoreMore(c: Conf, a: Form, b: Form)
    ensures More(More(c, a), b) == More(c, a + b)
  {
    if c.Running? || c.Accepted? {
      assert c.input + a + b == c.input + (a + b);
    }
  }

  /** At every point of a run from the start. */
  lemma OnTheRun(p: Generated, all: Form, m: nat) returns (done: Form)
    requires p.Sound() && Tokens(p.g, all)
    ensures p.k.Ok() && StackOk(p.k, [BOTTOM])
    ensures var c := Run(p.k, Start(all), m);
      && (c.Running? ==> ValidStack(p.states, c.stack) && StackOk(p.k, c.stack) && done + c.input == all)
      && (c.Accepted? ==> done + c.input == all && Derives(p.g, [p.g.start], done))
      && c != Broken
  {
    StartJustified(p.g, p.states, p.k, all);
    done := RunSound(p.g, p.lambda, p.first, p.states, p.bplp, p.k, Start(all), all, [], m);
  }

  /** A run overflows only where the stack was full and one more was to be pushed. */
  lemma OverflowIsFull(p: Generated, all: Form, n: nat) returns (m: nat)
    requires p.Sound() && Tokens(p.g, all) && p.k.Ok() && StackOk(p.k, [BOTTOM]) && Run(p.k, Start(all), n) == Overflow
    ensures m < n && var c := Run(p.k, Start(all), m);
      c.Running? && c.input != [] && StackOk(p.k, c.stack) && Full(p, c.stack, c.input[0])
  {
    m := LastTurn(p.k, Start(all), n);
    var c := Run(p.k, Start(all), m);
    var done := OnTheRun(p, all, m);
    hide Generated.Sound, Run, ValidStack, StackOk, Turn, Full;
    NextToken(p, all, done, c.input);
    TurnKeepsRest(p.k, c.stack, c.input[0], c.input[1..]);
    TurnOverflows(p, c.stack, c.input[0]);
  }

  lemma NextToken(p: Generated, all: Form, done: Form, rest: Form)
    requires Tokens(p.g, all) && done + rest == all && rest != []
    ensures p.g.Terminal(rest[0]) && [rest[0]] + rest[1..] == rest
  {
    assert all[|done|] == rest[0];
  }

  /** A run fails only where the tables have nothing for the next token; the tokens before it begin a form
      that the start symbol derives. */
  lemma FailureIsError(p: Generated, all: Form, n: nat) returns (m: nat, done: Form, rest: Form)
    requires p.Sound() && Tokens(p.g, all) && p.k.Ok() && StackOk(p.k, [BOTTOM])
    requires Run(p.k, Start(all), n) == SyntaxError
    ensures m < n && var c := Run(p.k, Start(all), m);
      && c.Running? && c.input != [] && StackOk(p.k, c.stack) && done + c.input == all
      && Erroneous(p, c.stack, c.input[0])
    ensures Derives(p.g, [p.g.start], done + rest)
  {
    m := LastTurn(p.k, Start(all), n);
    var c := Run(p.k, Start(all), m);
    done := OnTheRun(p, all, m);
    var shifted;
    shifted, rest := ShiftedIsViable(p.g, p.lambda, p.first, p.states, p.bplp, p.k, all, m);
    assert |shifted| == |done| && shifted == (shifted + c.input)[..|done|] == (done + c.input)[..|done|] == done;
    hide Generated.Sound, Run, ValidStack, StackOk, Turn, Derives;
    NextToken(p, all, done, c.input);
    TurnKeepsRest(p.k, c.stack, c.input[0], c.input[1..]);
    TurnFails(p, c.stack, c.input[0]);
  }

  /** Without conflicts a token is in error only if no sentence goes on with it; the end marker, if what
      came before it is no sentence. */
  lemma ErrorIsWrong(p: Generated, w: Form, x: nat, n: nat)
    requires p.Complete() && AllTerminal(p.g, w) && p.g.Terminal(x)
    requires p.k.Ok() && StackOk(p.k, [BOTTOM]) && Run(p.k, Start(w + [x]), n) == SyntaxError
    ensures forall y :: AllTerminal(p.g, y) ==> !Derives(p.g, [p.g.start], w + [x] + y)
    ensures x == 0 ==> !Derives(p.g, [p.g.start], w)
  {
    hide Generated.Complete, Run, Derives, StackOk, FitsIn;
    forall y | AllTerminal(p.g, y) ensures !Derives(p.g, [p.g.start], w + [x] + y) {
      var u := w + [x] + y;
      AcceptsExactlySentences(p, u);
      assert u + [0] == w + [x] + (y + [0]);
      RunMore(p.k, [BOTTOM], w + [x], y + [0], n);
      if Derives(p.g, [p.g.start], u) {
        var m :| Run(p.k, Start(u + [0]), m) in {Accepted([0]), Overflow};
        OneEnd(p.k, Start(u + [0]), m, n);
      }
    }
    if x == 0 {
      AcceptsExactlySentences(p, w);
      if Derives(p.g, [p.g.start], w) {
        var m :| Run(p.k, Start(w + [0]), m) in {Accepted([0]), Overflow};
        OneEnd(p.k, Start(w + [0]), m, n);
      }
    }
  }

  // ----- acceptance before the end

  /** The state that a stack ends in is the one its symbols lead to. */
  lemma {:induction false} StackAt(states: seq<State>, stack: seq<StackEntry>)
    requires ValidStack(states, stack)
    ensures At(states, Majors(stack)) == Some(Top(stack))
    decreases |stack|
  {
    var n := |stack| - 1;
    if n > 0 {
      ValidPrefix(states, stack, n);
      StackAt(states, stack[..n]);
      assert Majors(stack)[..n - 1] == Majors(stack[..n]) && Majors(stack)[n - 1] == stack[n].major;
    }
  }

  /** On the token `x` the rule of the start symbol is reduced where its right-hand side has led from the
      first state; the stack has room for it. */
  ghost predicate Finishes(p: Generated, r: nat, x: nat)
    requires p.k.Ok()
  {
    && r < |p.g.rules| && p.g.rules[r].lhs == p.g.start && |p.g.rules[r].rhs| < p.k.depth
    && var at := At(p.states, p.g.rules[r].rhs);
    at.Some? && at.value < p.k.sz.nstate && p.k.tables.FindShiftAction(at.value, x) == |p.states| + r
  }

  /** A turn accepts exactly if the stack spells a rule of the start symbol that is reduced there. */
  lemma TurnAccepts(p: Generated, stack: seq<StackEntry>, x: nat)
    requires p.Sound() && ValidStack(p.states, stack) && p.k.Ok() && StackOk(p.k, stack) && p.g.Terminal(x)
    ensures Turn(p.k, stack, [x]).Accepted? <==> exists r: nat :: Finishes(p, r, x) && Majors(stack) == p.g.rules[r].rhs
  {
    hide Turn, ValidStack, Generated.Sound, At, StackOk, Majors, Top;
    StackFacts(p, stack);
    TurnReduces(p, stack, x);
    StackAt(p.states, stack);
    var act := p.k.tables.FindShiftAction(Top(stack), x);
    if Turn(p.k, stack, [x]).Accepted? {
      assert Finishes(p, act - |p.states|, x);
    }
  }

  lemma StackFacts(p: Generated, stack: seq<StackEntry>)
    requires p.Sound() && ValidStack(p.states, stack) && p.k.Ok() && StackOk(p.k, stack)
    ensures p.k.sz.nstate == |p.states| && p.k.rules == p.g.rules && stack != [] && Top(stack) < |p.states|
    ensures |Majors(stack)| == |stack| - 1 < p.k.depth
  {
  }

  lemma TurnReduces(p: Generated, stack: seq<StackEntry>, x: nat)
    requires p.Sound() && ValidStack(p.states, stack) && p.k.Ok() && StackOk(p.k, stack) && p.g.Terminal(x)
    ensures var act := p.k.tables.FindShiftAction(Top(stack), x);
      Turn(p.k, stack, [x]).Accepted? <==>
        && |p.states| <= act < |p.states| + |p.g.rules|
        && p.g.rules[act - |p.states|].lhs == p.g.start && Majors(stack) == p.g.rules[act - |p.states|].rhs
  {
    hide Generated.Sound, ValidStack, StackOk, Reduce, Majors;
    StackFacts(p, stack);
    TokenAction(p, stack, x);
    var act := p.k.tables.FindShiftAction(Top(stack), x);
    if |p.states| <= act < |p.states| + |p.g.rules| {
      ReduceAccepts(p, stack, x, act - |p.states|);
    }
  }

  lemma ReduceAccepts(p: Generated, stack: seq<StackEntry>, x: nat, r: nat)
    requires p.Sound() && ValidStack(p.states, stack) && p.k.Ok() && StackOk(p.k, stack)
    requires r < |p.g.rules| == |p.k.rules| && Item(r, |p.g.rules[r].rhs|) in p.states[Top(stack)].cl.items
    ensures Reduce(p.k, stack, r, [x]).Accepted? <==> p.g.rules[r].lhs == p.g.start && Majors(stack) == p.g.rules[r].rhs
  {
    var g, lhs := p.g, p.g.rules[r].lhs;
    ReducePops(g, p.lambda, p.first, p.states, p.bplp, stack, r);
    var popped := stack[..|stack| - |g.rules[r].rhs|];
    if lhs in p.states[Top(popped)].shifts {
      NeverBackToStart(g, p.lambda, p.first, p.states, p.bplp, Top(popped), lhs);
      assert p.k.tables.FindReduceAction(Top(popped), lhs) == p.states[Top(popped)].shifts[lhs];
      assert lhs == g.start ==> Top(popped) != 0;
      assert |Majors(popped)| == 0 ==> popped == [BOTTOM];
    } else {
      StartOnlyAtBottom(g, p.lambda, p.first, p.states, p.bplp, popped);
      assert Majors(popped) == [];
      assert p.k.tables.FindReduceAction(0, g.start) == |p.states| + |g.rules| + 1;
    }
    hide Built, ValidStack, TablesSound;
  }

  /** The parser accepts at the end marker only. */
  ghost predicate AtEndOnly(p: Generated)
    requires p.k.Ok()
  {
    forall r: nat, x: nat :: p.g.Terminal(x) && Finishes(p, r, x) ==> x == 0
  }

  /** The stack that spells a form. */
  lemma {:induction false} StackOf(p: Generated, w: Form) returns (stack: seq<StackEntry>)
    requires p.Sound() && p.k.Ok() && At(p.states, w).Some? && |w| < p.k.depth
    ensures ValidStack(p.states, stack) && StackOk(p.k, stack) && Majors(stack) == w
    decreases |w|
  {
    hide Generated.Sound, ValidStack, StackOk, At, Majors;
    if w == [] {
      stack := [BOTTOM];
      BottomStack(p);
    } else {
      var n := |w| - 1;
      AtBefore(p, w);
      stack := StackOf(p, w[..n]);
      StackAt(p.states, stack);
      StackFacts(p, stack);
      stack := PushOn(p, stack, w[n]);
      assert w == w[..n] + [w[n]];
    }
  }

  lemma BottomStack(p: Generated)
    requires p.Sound() && p.k.Ok()
    ensures ValidStack(p.states, [BOTTOM]) && StackOk(p.k, [BOTTOM]) && Majors([BOTTOM]) == []
  {
  }

  lemma AtBefore(p: Generated, w: Form)
    requires At(p.states, w).Some? && w != []
    ensures var at := At(p.states, w[..|w| - 1]);
      at.Some? && at.value < |p.states| && w[|w| - 1] in p.states[at.value].shifts
  {
  }

  lemma PushOn(p: Generated, stack: seq<StackEntry>, x: nat) returns (now: seq<StackEntry>)
    requires p.Sound() && p.k.Ok() && ValidStack(p.states, stack) && StackOk(p.k, stack) && |stack| < p.k.depth
    requires x in p.states[Top(stack)].shifts
    ensures ValidStack(p.states, now) && StackOk(p.k, now) && Majors(now) == Majors(stack) + [x]
  {
    NeverBackToStart(p.g, p.lambda, p.first, p.states, p.bplp, Top(stack), x);
    ValidPush(p.states, stack, x);
    now := stack + [StackEntry(p.states[Top(stack)].shifts[x], x)];
    hide Built, AutomatonOk;
  }

  /** On this stack, whether a run can reach it or not, the next turn accepts before the token `x`. */
  ghost predicate Acceptable(p: Generated, stack: seq<StackEntry>, x: nat)
    requires p.k.Ok()
  {
    ValidStack(p.states, stack) && StackOk(p.k, stack) && p.g.Terminal(x) && Turn(p.k, stack, [x]).Accepted?
  }

  /** No stack, whether reached or not, is accepted before the end exactly if no rule of the start symbol
      is finished there. */
  lemma AtEndOnlyExactly(p: Generated)
    requires p.Sound() && p.k.Ok()
    ensures AtEndOnly(p) <==>
      forall stack, x: nat :: Acceptable(p, stack, x) ==> x == 0
  {
    hide Generated.Sound, ValidStack, StackOk, Turn, Finishes;
    if AtEndOnly(p) {
      forall stack, x: nat | Acceptable(p, stack, x) ensures x == 0 {
        TurnAccepts(p, stack, x);
      }
    } else {
      var r: nat, x: nat :| p.g.Terminal(x) && Finishes(p, r, x) && x != 0;
      var stack := FinishedStack(p, r, x);
      TurnAccepts(p, stack, x);
      assert Acceptable(p, stack, x);
    }
  }

  lemma FinishedStack(p: Generated, r: nat, x: nat) returns (stack: seq<StackEntry>)
    requires p.Sound() && p.k.Ok() && Finishes(p, r, x)
    ensures r < |p.g.rules| && ValidStack(p.states, stack) && StackOk(p.k, stack) && Majors(stack) == p.g.rules[r].rhs
  {
    stack := StackOf(p, p.g.rules[r].rhs);
  }

  // ----- a start symbol on no right-hand side

  /** What lemon asks for: the start symbol is on no right-hand side. */
  predicate StartApart(g: Grammar) {
    forall r :: 0 <= r < |g.rules| ==> g.start !in g.rules[r].rhs
  }

  /** Then only the end marker follows its rules. */
  lemma {:induction false} OnlyEndFollows(g: Grammar, w: Form, it: Item, t: nat, n: nat)
    requires StartApart(g) && LookIn(g, w, it, t, n) && g.rules[it.rule].lhs == g.start
    ensures t == 0
    decreases n
  {
    if it.dot > 0 {
      OnlyEndFollows(g, w[..|w| - 1], Item(it.rule, it.dot - 1), t, n - 1);
    }
  }

  /** If the start symbol is on no right-hand side, the parser that lemon makes accepts at the end marker
      only. */
  lemma ApartAtEndOnly(p: Generated)
    requires p.Sound() && p.k.Ok() && p.k.sz.nstate == |p.states| && FollowsExact(p.g, p.states, p.v)
      && Warranted(p.g, p.states, p.v, p.k)
    requires StartApart(p.g)
    ensures AtEndOnly(p)
  {
    hide Generated.Sound, MayFollow, Looked;
    forall r: nat, x: nat | p.g.Terminal(x) && Finishes(p, r, x) ensures x == 0 {
      var s := At(p.states, p.g.rules[r].rhs).value;
      assert WarrantedOn(p.g, p.states, p.v, s, r, x);
      forall t: nat | MayFollow(p.states, p.v, s, Item(r, |p.g.rules[r].rhs|), t) ensures t == 0 {
        EndFollows(p, s, r, t);
      }
    }
  }

  lemma EndFollows(p: Generated, s: nat, r: nat, t: nat)
    requires FollowsExact(p.g, p.states, p.v) && StartApart(p.g) && r < |p.g.rules| && p.g.rules[r].lhs == p.g.start
    requires MayFollow(p.states, p.v, s, Item(r, |p.g.rules[r].rhs|), t)
    ensures t == 0
  {
    hide MayFollow, At, LookIn;
    var it := Item(r, |p.g.rules[r].rhs|);
    assert Looked(p.g, p.states, s, it, t);
    var w :| At(p.states, w) == Some(s) && Look(p.g, w, it, t);
    var n: nat :| LookIn(p.g, w, it, t, n);
    OnlyEndFollows(p.g, w, it, t, n);
  }

  // ----- what becomes of a token stream

  /** At some point of the run the stack was full and one more entry was to be pushed. */
  ghost predicate FullMet(p: Generated, all: Form)
    requires p.k.Ok() && StackOk(p.k, [BOTTOM])
  {
    exists m :: FullAt(p, all, m)
  }

  ghost predicate FullAt(p: Generated, all: Form, m: nat)
    requires p.k.Ok() && StackOk(p.k, [BOTTOM])
  {
    var c := Run(p.k, Start(all), m);
    c.Running? && c.input != [] && StackOk(p.k, c.stack) && Full(p, c.stack, c.input[0])
  }

  /** Having read `done` the parser accepts, although `rest` is still to come. */
  ghost predicate Early(p: Generated, done: Form, rest: Form)
    requires p.k.Ok()
  {
    rest != [] && Derives(p.g, [p.g.start], done) && exists r: nat :: Finishes(p, r, rest[0])
  }

  /** A run that is over has overflowed exactly if it met a full stack. */
  lemma OverflowExactly(p: Generated, all: Form, n: nat)
    requires p.Sound() && Tokens(p.g, all) && p.k.Ok() && StackOk(p.k, [BOTTOM]) && !Run(p.k, Start(all), n).Running?
    ensures Run(p.k, Start(all), n) == Overflow <==> FullMet(p, all)
  {
    hide Generated.Sound, Run, ValidStack, StackOk, Turn, Full;
    if Run(p.k, Start(all), n) == Overflow {
      var m := OverflowIsFull(p, all, n);
      assert FullAt(p, all, m);
    }
    if m: nat :| FullAt(p, all, m) {
      FullOverflows(p, all, m);
      OneEnd(p.k, Start(all), m + 1, n);
    }
  }

  lemma FullOverflows(p: Generated, all: Form, m: nat)
    requires p.Sound() && Tokens(p.g, all) && p.k.Ok() && StackOk(p.k, [BOTTOM]) && FullAt(p, all, m)
    ensures Run(p.k, Start(all), m + 1) == Overflow
  {
    var c := Run(p.k, Start(all), m);
    var done := OnTheRun(p, all, m);
    hide Generated.Sound, Run, ValidStack, StackOk, Turn, Full;
    NextToken(p, all, done, c.input);
    TurnKeepsRest(p.k, c.stack, c.input[0], c.input[1..]);
    TurnOverflows(p, c.stack, c.input[0]);
    RunAdd(p.k, Start(all), m, 1);
    OneTurn(p.k, c.stack, c.input);
  }

  /** A run that accepts has finished a rule of the start symbol on the next token. */
  lemma AcceptanceIsFinish(p: Generated, all: Form, n: nat) returns (done: Form, r: nat)
    requires p.Sound() && Tokens(p.g, all) && p.k.Ok() && StackOk(p.k, [BOTTOM]) && Run(p.k, Start(all), n).Accepted?
    ensures var rest := Run(p.k, Start(all), n).input;
      rest != [] && done + rest == all && Derives(p.g, [p.g.start], done) && Finishes(p, r, rest[0])
  {
    var m := LastTurn(p.k, Start(all), n);
    var c := Run(p.k, Start(all), m);
    var shifted := OnTheRun(p, all, m);
    done := OnTheRun(p, all, n);
    hide Generated.Sound, Run, ValidStack, StackOk, Turn, Finishes, Derives;
    NextToken(p, all, shifted, c.input);
    TurnKeepsRest(p.k, c.stack, c.input[0], c.input[1..]);
    AcceptedInput(p.k, c.stack, c.input[0]);
    TurnAccepts(p, c.stack, c.input[0]);
    r :| Finishes(p, r, c.input[0]) && Majors(c.stack) == p.g.rules[r].rhs;
  }

  lemma AcceptedInput(k: Constants, stack: seq<StackEntry>, x: nat)
    requires k.Ok() && StackOk(k, stack) && Turn(k, stack, [x]).Accepted?
    ensures Turn(k, stack, [x]).input == [x]
  {
  }

  lemma TokensEnd(p: Generated, w: Form)
    requires p.Sound() && AllTerminal(p.g, w)
    ensures Tokens(p.g, w + [0])
  {
    assert p.g.Valid();
    hide Built, TablesSound;
  }

  lemma SplitEnd(w: Form, done: Form, rest: Form)
    requires done + rest == w + [0] && rest != []
    ensures var before := rest[..|rest| - 1]; done + before == w && rest == before + [0]
  {
    assert (done + rest)[|w|] == 0;
    assert done + rest[..|rest| - 1] == (done + rest)[..|w|];
  }

  lemma TokenAt(p: Generated, w: Form, done: Form, rest: Form)
    requires done + rest == w && AllTerminal(p.g, w) && rest != [] && 0 !in w
    ensures p.g.Terminal(rest[0]) && rest[0] != 0
  {
    assert w[|done|] == rest[0];
  }

  /** The parser accepts with some of the string still to come. */
  ghost predicate EndsEarly(p: Generated, w: Form, c: Conf)
    requires p.k.Ok()
  {
    exists done, rest :: done + rest == w && Early(p, done, rest) && c == Accepted(rest + [0])
  }

  /** A string that is accepted without being a sentence is accepted early. */
  lemma AcceptedEarly(p: Generated, w: Form, n: nat)
    requires p.Sound() && p.k.Ok() && StackOk(p.k, [BOTTOM]) && AllTerminal(p.g, w) && 0 !in w
      && !Derives(p.g, [p.g.start], w)
    requires Run(p.k, Start(w + [0]), n).Accepted?
    ensures EndsEarly(p, w, Run(p.k, Start(w + [0]), n)) && !AtEndOnly(p)
  {
    hide Generated.Sound, Run, StackOk, Derives, Finishes, AllTerminal, Tokens;
    TokensEnd(p, w);
    var done, r := AcceptanceIsFinish(p, w + [0], n);
    var late := Run(p.k, Start(w + [0]), n).input;
    var rest := late[..|late| - 1];
    SplitEnd(w, done, late);
    assert rest == [] ==> done + rest == done;
    assert Early(p, done, rest);
    TokenAt(p, w, done, rest);
  }

  /** A string that is no sentence ends in a syntax error, unless a full stack was met or the parser accepts
      early. */
  lemma WrongEnds(p: Generated, w: Form, n: nat)
    requires p.Sound() && p.k.Ok() && StackOk(p.k, [BOTTOM]) && AllTerminal(p.g, w) && 0 !in w
      && !Derives(p.g, [p.g.start], w)
    requires !Run(p.k, Start(w + [0]), n).Running?
    ensures var c := Run(p.k, Start(w + [0]), n);
      || c == SyntaxError
      || (c == Overflow && FullMet(p, w + [0]))
      || (EndsEarly(p, w, c) && !AtEndOnly(p))
  {
    hide Generated.Sound, Run, StackOk, Derives, FullMet, AtEndOnly, EndsEarly, AllTerminal, Tokens;
    TokensEnd(p, w);
    var gone := OnTheRun(p, w + [0], n);
    OverflowExactly(p, w + [0], n);
    if Run(p.k, Start(w + [0]), n).Accepted? {
      AcceptedEarly(p, w, n);
    }
  }

  /** The outcomes of a parser without conflicts that accepts at the end marker only, once a run is over:
      overflow exactly if a full stack was met, and otherwise acceptance exactly of the sentences and a
      syntax error exactly for the rest. */
  lemma Outcomes(p: Generated, w: Form, n: nat)
    requires p.Complete() && AllTerminal(p.g, w) && 0 !in w && p.k.Ok() && StackOk(p.k, [BOTTOM])
    requires !Run(p.k, Start(w + [0]), n).Running?
    ensures var c := Run(p.k, Start(w + [0]), n);
      && (c == Overflow <==> FullMet(p, w + [0]))
      && (c == Accepted([0]) <==> FitsIn(p.g, w, p.k.depth))
      && (c == SyntaxError ==> !Derives(p.g, [p.g.start], w))
      && (AtEndOnly(p) && !FullMet(p, w + [0]) ==>
            (c == Accepted([0]) <==> Derives(p.g, [p.g.start], w))
            && (c == SyntaxError <==> !Derives(p.g, [p.g.start], w)))
  {
    CompleteIsSound(p);
    assert Tokens(p.g, w + [0]) && p.g.Valid();
    hide Generated.Complete, Generated.Sound, Run, StackOk, Derives, FullMet, AtEndOnly, FitsIn, Tokens, AllTerminal;
    var c := Run(p.k, Start(w + [0]), n);
    OverflowExactly(p, w + [0], n);
    AcceptsExactlySentences(p, w);
    if m: nat :| Run(p.k, Start(w + [0]), m) == Accepted([0]) {
      OneEnd(p.k, Start(w + [0]), m, n);
    }
    if Derives(p.g, [p.g.start], w) {
      var m: nat :| Run(p.k, Start(w + [0]), m) in {Accepted([0]), Overflow};
      OneEnd(p.k, Start(w + [0]), m, n);
    } else {
      WrongEnds(p, w, n);
    }
  }
}
