/** Every sentence of a grammar without conflicts is accepted by the generated parser. */
module ParserCompleteness {
  import opened Grammars
  import opened FirstSets
  import opened Closures
  import opened Lr0
  import opened Driver
  import opened ParserSoundness
  import opened Forests

  /** Follow sets by configuration number. */
  type Follows = seq<set<nat>>

  ghost predicate FollowedAt(st: State, v: Follows, n: nat, it: Item, t: nat) {
    n < |st.cl.items| && st.cl.items[n] == it && st.Id(n) < |v| && t in v[st.Id(n)]
  }

  /** Item `it` of state `s` may be followed by `t`. */
  ghost predicate MayFollow(states: seq<State>, v: Follows, s: nat, it: Item, t: nat) {
    s < |states| && exists n :: FollowedAt(states[s], v, n, it, t)
  }

  /** What follow sets closed along all links amount to. */
  ghost predicate FollowsOk(g: Grammar, lambda: seq<bool>, first: seq<set<nat>>, states: seq<State>, v: Follows) {
    && (forall r :: 0 <= r < |g.rules| && g.rules[r].lhs == g.start ==> MayFollow(states, v, 0, Item(r, 0), 0))
    && (forall s: nat, it: Item, t: nat :: MayFollow(states, v, s, it, t) && it.Ok(g) && !it.AtEnd(g) ==>
          it.Next(g) in states[s].shifts && MayFollow(states, v, states[s].shifts[it.Next(g)], it.Advance(), t))
    && (forall s: nat, it: Item, t: nat, r: nat ::
          MayFollow(states, v, s, it, t) && it.Ok(g) && r < |g.rules| && it.Expands(g, r) ==>
          FollowsExpansion(g, lambda, first, states, v, s, it, t, r))
  }

  /** A rule begun on behalf of `it` may be followed by whatever can begin the rest of `it`, and by
      what follows `it` if that rest can vanish. */
  ghost predicate FollowsExpansion(g: Grammar, lambda: seq<bool>, first: seq<set<nat>>, states: seq<State>, v: Follows,
                                   s: nat, it: Item, t: nat, r: nat)
    requires it.Ok(g) && !it.AtEnd(g)
  {
    && g.nsymbol <= |first|
    && (forall u: nat :: FormBegins(g, lambda, first, it.Rest(g), u) ==> MayFollow(states, v, s, Item(r, 0), u))
    && (AllLambda(lambda, it.Rest(g)) ==> MayFollow(states, v, s, Item(r, 0), t))
  }

  /** The tables do everything the automaton and its follow sets call for. */
  ghost predicate TablesComplete(g: Grammar, states: seq<State>, v: Follows, k: Constants)
    requires k.Ok() && k.sz.nstate == |states| && k.rules == g.rules
  {
    && (forall s: nat, x: nat :: s < |states| && x in states[s].shifts && g.Terminal(x) ==>
          k.tables.FindShiftAction(s, x) == states[s].shifts[x])
    && (forall s: nat, r: nat, t: nat ::
          r < |g.rules| && g.Terminal(t) && MayFollow(states, v, s, Item(r, |g.rules[r].rhs|), t) ==>
          k.tables.FindShiftAction(s, t) == |states| + r)
  }

  /** Everything known about one generated parser. */
  datatype Generated = Generated(g: Grammar, lambda: seq<bool>, first: seq<set<nat>>, states: seq<State>,
    bplp: BackLinks, v: Follows, k: Constants) {
    ghost predicate Sound() {
      Built(g, lambda, first, states, bplp) && TablesSound(g, states, k)
    }

    ghost predicate Complete() {
      Sound() && FirstsOk(g, lambda, first) && FollowsOk(g, lambda, first, states, v) && TablesComplete(g, states, v, k)
    }
  }

  lemma {:induction false} RunAdd(k: Constants, c: Conf, m: nat, n: nat)
    requires k.Ok() && (c.Running? ==> StackOk(k, c.stack))
    ensures var d := Run(k, c, m); (d.Running? ==> StackOk(k, d.stack)) && Run(k, c, m + n) == Run(k, d, n)
    decreases m
  {
    if m > 0 && c.Running? && c.input != [] {
      RunAdd(k, Turn(k, c.stack, c.input), m - 1, n);
    }
  }

  /** The rule that the next turn reduces by, if any. */
  function Reduced(k: Constants, stack: seq<StackEntry>, x: nat): seq<nat>
    requires k.Ok() && StackOk(k, stack)
  {
    var act := k.tables.FindShiftAction(Top(stack), x);
    if k.sz.nstate <= act < k.sz.nstate + k.sz.nrule then [act - k.sz.nstate] else []
  }

  /** The rules that `n` turns reduce by, in their order. */
  function Reductions(k: Constants, c: Conf, n: nat): seq<nat>
    requires k.Ok() && (c.Running? ==> StackOk(k, c.stack))
    decreases n
  {
    if n == 0 || !c.Running? || c.input == [] then []
    else Reduced(k, c.stack, c.input[0]) + Reductions(k, Turn(k, c.stack, c.input), n - 1)
  }

  lemma {:induction false} ReductionsAdd(k: Constants, c: Conf, m: nat, n: nat)
    requires k.Ok() && (c.Running? ==> StackOk(k, c.stack))
    ensures var d := Run(k, c, m);
      && (d.Running? ==> StackOk(k, d.stack))
      && Reductions(k, c, m + n) == Reductions(k, c, m) + Reductions(k, d, n)
    decreases m
  {
    if m > 0 && c.Running? && c.input != [] {
      ReductionsAdd(k, Turn(k, c.stack, c.input), m - 1, n);
    }
  }

  /** The next token after what a forest yields: the first of `rest`, or else `t`. */
  function Lookahead(rest: Form, t: nat): nat {
    if rest == [] then t else rest[0]
  }

  function AfterLookahead(rest: Form, t: nat, tail: Form): Form {
    if rest == [] then tail else rest[1..] + [t] + tail
  }

  /** Item `it` of state `s` is well formed and may be followed by the token `t`. */
  ghost predicate Awaits(p: Generated, s: nat, it: Item, t: nat) {
    MayFollow(p.states, p.v, s, it, t) && it.Ok(p.g) && p.g.Terminal(t)
  }

  /** A form that yields nothing can vanish; a form that yields something can begin with its first
      token. */
  lemma YieldBegins(g: Grammar, lambda: seq<bool>, first: seq<set<nat>>, f: Forest)
    requires FirstsOk(g, lambda, first) && ForestOk(g, f)
    ensures Yield(f) == [] ==> AllLambda(lambda, Roots(g, f))
    ensures Yield(f) != [] ==> g.Terminal(Yield(f)[0]) && FormBegins(g, lambda, first, Roots(g, f), Yield(f)[0])
  {
    ForestDerives(g, f);
    var w := Yield(f);
    var n: nat :| DerivesIn(g, Roots(g, f), w, n);
    if w == [] {
      EmptyFormIsLambda(g, lambda, Roots(g, f), n);
    } else {
      assert w == [w[0]] + w[1..];
      FirstComplete(g, lambda, first, Roots(g, f), w[0], w[1..], n);
    }
  }

  /** The token that follows a rule's yield is in the rule's follow set. */
  lemma LookaheadFollows(p: Generated, s: nat, it: Item, t: nat, r: nat, rest: Forest)
    requires p.Complete() && Awaits(p, s, it, t) && r < |p.g.rules| && it.Expands(p.g, r)
    requires ForestOk(p.g, rest) && Roots(p.g, rest) == it.Rest(p.g)
    ensures Awaits(p, s, Item(r, 0), Lookahead(Yield(rest), t))
  {
    assert FirstsOk(p.g, p.lambda, p.first) && FollowsExpansion(p.g, p.lambda, p.first, p.states, p.v, s, it, t, r);
    hide Built, TablesSound, FollowsOk, TablesComplete, MayFollow, ForestOk, FirstsOk;
    YieldBegins(p.g, p.lambda, p.first, rest);
  }

  /** A driver about to read `input` on this stack. */
  ghost predicate Ready(p: Generated, stack: seq<StackEntry>)
    requires p.k.Ok()
  {
    ValidStack(p.states, stack) && StackOk(p.k, stack)
  }

  /** `now` is `stack` with `m` more entries. */
  ghost predicate Above(stack: seq<StackEntry>, now: seq<StackEntry>, m: nat) {
    |now| == |stack| + m && now[..|stack|] == stack
  }

  /** The driver has `now`, one entry above `stack`, and the item has moved past one symbol. */
  ghost predicate Moved(p: Generated, stack: seq<StackEntry>, it: Item, t: nat, c: Conf, now: seq<StackEntry>,
                        input: Form)
    requires p.k.Ok()
  {
    c == Running(now, input) && Ready(p, now) && Above(stack, now, 1) && Awaits(p, Top(now), it.Advance(), t)
  }

  /** The turn that shifts the symbol after the dot; it overflows exactly if the stack is full. */
  lemma ShiftTurn(p: Generated, stack: seq<StackEntry>, it: Item, t: nat, x: nat, input: Form)
    requires p.Complete() && Ready(p, stack) && Awaits(p, Top(stack), it, t)
    requires !it.AtEnd(p.g) && it.Next(p.g) == x && p.g.Terminal(x)
    ensures |stack| >= p.k.depth ==> Turn(p.k, stack, [x] + input) == Overflow
    ensures |stack| < p.k.depth ==> exists now :: Moved(p, stack, it, t, Turn(p.k, stack, [x] + input), now, input)
    ensures Reduced(p.k, stack, x) == []
  {
    var s := Top(stack);
    assert ([x] + input)[1..] == input;
    NeverBackToStart(p.g, p.lambda, p.first, p.states, p.bplp, s, x);
    ValidPush(p.states, stack, x);
    var now := stack + [StackEntry(p.states[s].shifts[x], x)];
    assert now[..|stack|] == stack;
    assert |stack| < p.k.depth ==> Moved(p, stack, it, t, Turn(p.k, stack, [x] + input), now, input);
  }

  /** The turn that reduces a complete rule whose entries lie on `stack`; it overflows exactly if
      `stack` is full. */
  lemma ReduceTurn(p: Generated, stack: seq<StackEntry>, it: Item, t: nat, r: nat, full: seq<StackEntry>, u: nat,
                   input: Form)
    requires p.Complete() && Ready(p, stack) && Awaits(p, Top(stack), it, t) && r < |p.g.rules| && it.Expands(p.g, r)
    requires Ready(p, full) && Above(stack, full, |p.g.rules[r].rhs|)
      && Awaits(p, Top(full), Item(r, |p.g.rules[r].rhs|), u)
    ensures |stack| >= p.k.depth ==> Turn(p.k, full, [u] + input) == Overflow
    ensures |stack| < p.k.depth ==> exists now :: Moved(p, stack, it, t, Turn(p.k, full, [u] + input), now, [u] + input)
    ensures Reduced(p.k, full, u) == [r]
  {
    hide *;
    ReadyFacts(p, stack, it, t);
    ReduceCalled(p, full, r, u);
    TurnReduces(p.k, stack, full, r, u, input);
    GotoMoves(p, stack, it, t, r, [u] + input);
  }

  /** The tables call for the reduction. */
  lemma ReduceCalled(p: Generated, full: seq<StackEntry>, r: nat, u: nat)
    requires p.Complete() && Ready(p, full) && r < |p.g.rules| && Awaits(p, Top(full), Item(r, |p.g.rules[r].rhs|), u)
    ensures p.k.Ok() && p.k.rules == p.g.rules && StackOk(p.k, full)
      && p.k.tables.FindShiftAction(Top(full), u) == p.k.sz.nstate + r
    ensures p.k.sz.nstate == |p.states| && Reduced(p.k, full, u) == [r]
  {
  }

  /** A reduction uncovers the stack under its right-hand side and goes on from there. */
  lemma TurnReduces(k: Constants, stack: seq<StackEntry>, full: seq<StackEntry>, r: nat, u: nat, input: Form)
    requires k.Ok() && StackOk(k, full) && r < |k.rules| && |stack| > 0 && Above(stack, full, |k.rules[r].rhs|)
    requires k.tables.FindShiftAction(Top(full), u) == k.sz.nstate + r
    ensures StackOk(k, stack)
    ensures Turn(k, full, [u] + input) ==
      var act := k.tables.FindReduceAction(Top(stack), k.rules[r].lhs);
      if 0 <= act < k.sz.nstate then Push(k, stack, act, k.rules[r].lhs, [u] + input)
      else if act == k.sz.nstate + k.sz.nrule + 1 then Accepted([u] + input)
      else Broken
  {
    assert ([u] + input)[0] == u;
    assert full[..|full| - |k.rules[r].rhs|] == stack;
    forall i | 0 <= i < |stack| ensures stack[i].stateno < k.sz.nstate {
      assert full[..|stack|][i] == full[i];
    }
  }

  /** Taking the transition on the left-hand side of a rule that `it` calls for. */
  lemma GotoMoves(p: Generated, stack: seq<StackEntry>, it: Item, t: nat, r: nat, input: Form)
    requires p.Complete() && Ready(p, stack) && Awaits(p, Top(stack), it, t) && r < |p.g.rules| && it.Expands(p.g, r)
    ensures var act := p.k.tables.FindReduceAction(Top(stack), p.g.rules[r].lhs);
      && 0 <= act < p.k.sz.nstate
      && (|stack| >= p.k.depth ==> Push(p.k, stack, act, p.g.rules[r].lhs, input) == Overflow)
      && (|stack| < p.k.depth ==>
            exists now :: Moved(p, stack, it, t, Push(p.k, stack, act, p.g.rules[r].lhs, input), now, input))
  {
    var s, x := Top(stack), p.g.rules[r].lhs;
    assert it.Next(p.g) == x && x in p.states[s].shifts
      && MayFollow(p.states, p.v, p.states[s].shifts[x], it.Advance(), t);
    hide FirstsOk, FollowsOk, TablesComplete, MayFollow, AutomatonOk, Complete;
    NeverBackToStart(p.g, p.lambda, p.first, p.states, p.bplp, s, x);
    ValidPush(p.states, stack, x);
    var act := p.k.tables.FindReduceAction(s, x);
    var now := stack + [StackEntry(p.states[s].shifts[x], x)];
    assert now[..|stack|] == stack;
    assert |stack| < p.k.depth ==> Moved(p, stack, it, t, Push(p.k, stack, act, x, input), now, input);
  }

  /** Reading what a forest yields, the driver comes to stand after it: it has reduced by the forest's
      rules, its roots lie on the stack, and the item has moved past them; the stack overflows on the way
      exactly if it has not the room that the forest needs. */
  ghost predicate ReadsForest(p: Generated, stack: seq<StackEntry>, f: Forest, it: Item, t: nat, tail: Form, n: nat)
    requires p.k.Ok() && StackOk(p.k, stack)
  {
    var c := Run(p.k, Running(stack, Yield(f) + [t] + tail), n);
    if |stack| + Need(f) > p.k.depth then c == Overflow
    else
      && Reductions(p.k, Running(stack, Yield(f) + [t] + tail), n) == Post(f)
      && exists now :: ReadTo(p, stack, f, it, t, tail, c, now)
  }

  ghost predicate ReadTo(p: Generated, stack: seq<StackEntry>, f: Forest, it: Item, t: nat, tail: Form, c: Conf,
                         now: seq<StackEntry>)
    requires p.k.Ok()
  {
    && c == Running(now, [t] + tail) && Ready(p, now) && Above(stack, now, |Roots(p.g, f)|)
    && Awaits(p, Top(now), Item(it.rule, it.dot + |Roots(p.g, f)|), t)
  }

  /** One entry more, then the rest of the forest. */
  lemma ReadOn(p: Generated, stack: seq<StackEntry>, f: Forest, rest: Forest, it: Item, t: nat, tail: Form, m: nat,
               mid: seq<StackEntry>, n: nat)
    requires p.k.Ok() && Ready(p, stack) && Ready(p, mid) && Above(stack, mid, 1)
    requires |Roots(p.g, f)| == |Roots(p.g, rest)| + 1
    requires |stack| + Need(f) > p.k.depth <==> |mid| + Need(rest) > p.k.depth
    requires Run(p.k, Running(stack, Yield(f) + [t] + tail), m) == Running(mid, Yield(rest) + [t] + tail)
    requires Reductions(p.k, Running(stack, Yield(f) + [t] + tail), m) + Post(rest) == Post(f)
    requires ReadsForest(p, mid, rest, it.Advance(), t, tail, n)
    ensures ReadsForest(p, stack, f, it, t, tail, m + n)
  {
    hide MayFollow, ValidStack, Run, Reductions, Need, Yield, Roots, Post;
    ReductionsAdd(p.k, Running(stack, Yield(f) + [t] + tail), m, n);
    RunAdd(p.k, Running(stack, Yield(f) + [t] + tail), m, n);
    var c := Run(p.k, Running(mid, Yield(rest) + [t] + tail), n);
    if |stack| + Need(f) <= p.k.depth {
      var now :| ReadTo(p, mid, rest, it.Advance(), t, tail, c, now);
      assert now[..|stack|] == now[..|mid|][..|stack|];
      assert ReadTo(p, stack, f, it, t, tail, c, now);
    }
  }

  lemma OverflowOn(p: Generated, stack: seq<StackEntry>, f: Forest, it: Item, t: nat, tail: Form, n: nat)
    requires p.k.Ok() && StackOk(p.k, stack) && Run(p.k, Running(stack, Yield(f) + [t] + tail), n) == Overflow
    requires |stack| + Need(f) > p.k.depth
    ensures ReadsForest(p, stack, f, it, t, tail, n)
  {
  }

  lemma OneTurn(k: Constants, stack: seq<StackEntry>, input: Form)
    requires k.Ok() && StackOk(k, stack) && input != []
    ensures Run(k, Running(stack, input), 1) == Turn(k, stack, input)
    ensures Reductions(k, Running(stack, input), 1) == Reduced(k, stack, input[0])
  {
    assert Run(k, Turn(k, stack, input), 0) == Turn(k, stack, input);
    assert Reductions(k, Turn(k, stack, input), 0) == [];
  }

  lemma {:induction false} ParseForest(p: Generated, stack: seq<StackEntry>, f: Forest, it: Item, t: nat, tail: Form)
    returns (n: nat)
    requires p.Complete() && Ready(p, stack) && Awaits(p, Top(stack), it, t)
    requires ForestOk(p.g, f) && Roots(p.g, f) == p.g.rules[it.rule].rhs[it.dot..]
    ensures ReadsForest(p, stack, f, it, t, tail, n)
    decreases f
  {
    match f
    case Empty =>
      n := 0;
      ReadNothing(p, stack, it, t, tail);
    case Leaf(x, rest) =>
      n := ParseLeaf(p, stack, f, x, rest, it, t, tail);
    case Node(r, kids, rest) =>
      n := ParseNode(p, stack, f, r, kids, rest, it, t, tail);
  }

  lemma ReadNothing(p: Generated, stack: seq<StackEntry>, it: Item, t: nat, tail: Form)
    requires p.k.Ok() && Ready(p, stack) && Awaits(p, Top(stack), it, t)
    ensures ReadsForest(p, stack, Empty, it, t, tail, 0)
  {
    var input := [t] + tail;
    assert Yield(Empty) + [t] + tail == input;
    assert Run(p.k, Running(stack, input), 0) == Running(stack, input) && |stack| + Need(Empty) <= p.k.depth;
    assert ReadTo(p, stack, Empty, it, t, tail, Running(stack, input), stack);
  }

  lemma ReadyFacts(p: Generated, stack: seq<StackEntry>, it: Item, t: nat)
    requires p.Complete() && Ready(p, stack) && Awaits(p, Top(stack), it, t)
    ensures p.k.Ok() && StackOk(p.k, stack) && |stack| > 0 && it.Ok(p.g) && p.g.Terminal(t)
  {
    hide Built, FirstsOk, FollowsOk, TablesComplete, MayFollow;
  }

  lemma MovedFacts(p: Generated, stack: seq<StackEntry>, it: Item, t: nat, c: Conf, now: seq<StackEntry>, input: Form)
    requires p.k.Ok() && Moved(p, stack, it, t, c, now, input)
    ensures c == Running(now, input) && Ready(p, now) && StackOk(p.k, now) && |now| > 0 && Above(stack, now, 1)
    ensures it.Advance().Ok(p.g) && it.Advance().rule == it.rule && it.Advance().dot == it.dot + 1
      && Awaits(p, Top(now), it.Advance(), t)
  {
    hide MayFollow, ValidStack;
  }

  /** The stack on which the right-hand side of rule `r` has been read. */
  lemma ReadOut(p: Generated, stack: seq<StackEntry>, kids: Forest, r: nat, u: nat, after: Form, m: nat)
    returns (full: seq<StackEntry>)
    requires p.k.Ok() && StackOk(p.k, stack) && r < |p.g.rules| && Roots(p.g, kids) == p.g.rules[r].rhs
    requires ReadsForest(p, stack, kids, Item(r, 0), u, after, m) && |stack| + Need(kids) <= p.k.depth
    ensures Run(p.k, Running(stack, Yield(kids) + [u] + after), m) == Running(full, [u] + after)
    ensures Reductions(p.k, Running(stack, Yield(kids) + [u] + after), m) == Post(kids)
    ensures Ready(p, full) && StackOk(p.k, full) && |full| > 0
    ensures Above(stack, full, |p.g.rules[r].rhs|) && Awaits(p, Top(full), Item(r, |p.g.rules[r].rhs|), u)
  {
    hide MayFollow, ValidStack, Run;
    var c := Run(p.k, Running(stack, Yield(kids) + [u] + after), m);
    full :| ReadTo(p, stack, kids, Item(r, 0), u, after, c, full);
  }

  lemma LeafShape(g: Grammar, f: Forest, x: nat, rest: Forest, it: Item, t: nat, tail: Form)
    requires f == Leaf(x, rest) && ForestOk(g, f) && it.Ok(g) && Roots(g, f) == g.rules[it.rule].rhs[it.dot..]
    ensures !it.AtEnd(g) && it.Next(g) == x && g.Terminal(x) && ForestOk(g, rest)
    ensures Roots(g, rest) == g.rules[it.rule].rhs[it.dot + 1..] && |Roots(g, f)| == |Roots(g, rest)| + 1
    ensures Yield(f) + [t] + tail == [x] + (Yield(rest) + [t] + tail)
  {
    var rhs := g.rules[it.rule].rhs;
    assert rhs[it.dot..][0] == x && rhs[it.dot..][1..] == rhs[it.dot + 1..] && Roots(g, f)[1..] == Roots(g, rest);
  }

  lemma LookaheadShape(w: Form, rest: Form, t: nat, tail: Form)
    ensures [Lookahead(rest, t)] + AfterLookahead(rest, t, tail) == rest + [t] + tail
    ensures w + rest + [t] + tail == w + [Lookahead(rest, t)] + AfterLookahead(rest, t, tail)
  {
    assert [Lookahead(rest, t)] + AfterLookahead(rest, t, tail) == rest + [t] + tail;
    assert w + rest + [t] + tail == w + (rest + [t] + tail);
    assert w + ([Lookahead(rest, t)] + AfterLookahead(rest, t, tail)) == w + [Lookahead(rest, t)]
      + AfterLookahead(rest, t, tail);
  }

  lemma NodeShape(g: Grammar, f: Forest, r: nat, kids: Forest, rest: Forest, it: Item, t: nat, tail: Form)
    requires f == Node(r, kids, rest) && ForestOk(g, f) && it.Ok(g) && Roots(g, f) == g.rules[it.rule].rhs[it.dot..]
    ensures r < |g.rules| && it.Expands(g, r) && ForestOk(g, kids) && ForestOk(g, rest)
    ensures Roots(g, kids) == g.rules[r].rhs
    ensures Roots(g, rest) == it.Rest(g) == g.rules[it.rule].rhs[it.dot + 1..] && |Roots(g, f)| == |Roots(g, rest)| + 1
    ensures var u, after := Lookahead(Yield(rest), t), AfterLookahead(Yield(rest), t, tail);
      && [u] + after == Yield(rest) + [t] + tail
      && Yield(f) + [t] + tail == Yield(kids) + [u] + after
  {
    var rhs := g.rules[it.rule].rhs;
    assert rhs[it.dot..][0] == g.rules[r].lhs && rhs[it.dot..][1..] == rhs[it.dot + 1..]
      && Roots(g, f)[1..] == Roots(g, rest);
    assert Yield(f) == Yield(kids) + Yield(rest);
    hide *;
    LookaheadShape(Yield(kids), Yield(rest), t, tail);
  }

  lemma LeafNeed(x: nat, rest: Forest)
    ensures Need(Leaf(x, rest)) == 1 + Need(rest) && [] + Post(rest) == Post(Leaf(x, rest))
  {
  }

  lemma NodeNeed(r: nat, kids: Forest, rest: Forest)
    ensures Need(Node(r, kids, rest)) == if Need(kids) > 1 + Need(rest) then Need(kids) else 1 + Need(rest)
    ensures Post(kids) + [r] + Post(rest) == Post(Node(r, kids, rest))
  {
  }

  lemma AboveLength(stack: seq<StackEntry>, now: seq<StackEntry>, m: nat)
    ensures Above(stack, now, m) ==> |now| == |stack| + m
  {
  }

  lemma ReadsOver(p: Generated, stack: seq<StackEntry>, f: Forest, it: Item, t: nat, tail: Form, n: nat)
    requires p.k.Ok() && StackOk(p.k, stack) && ReadsForest(p, stack, f, it, t, tail, n)
      && |stack| + Need(f) > p.k.depth
    ensures Run(p.k, Running(stack, Yield(f) + [t] + tail), n) == Overflow
  {
  }

  /** A token of the forest. */
  lemma {:induction false} ParseLeaf(p: Generated, stack: seq<StackEntry>, f: Forest, x: nat, rest: Forest, it: Item,
                                     t: nat, tail: Form)
    returns (n: nat)
    requires p.Complete() && Ready(p, stack) && Awaits(p, Top(stack), it, t) && f == Leaf(x, rest)
    requires ForestOk(p.g, f) && Roots(p.g, f) == p.g.rules[it.rule].rhs[it.dot..]
    ensures ReadsForest(p, stack, f, it, t, tail, n)
    decreases f, 0
  {
    hide *;
    ReadyFacts(p, stack, it, t);
    LeafShape(p.g, f, x, rest, it, t, tail);
    var after := Yield(rest) + [t] + tail;
    ShiftTurn(p, stack, it, t, x, after);
    OneTurn(p.k, stack, [x] + after);
    LeafNeed(x, rest);
    if |stack| >= p.k.depth {
      n := 1;
      OverflowOn(p, stack, f, it, t, tail, n);
    } else {
      var mid :| Moved(p, stack, it, t, Turn(p.k, stack, [x] + after), mid, after);
      AboveLength(stack, mid, 1);
      MovedFacts(p, stack, it, t, Turn(p.k, stack, [x] + after), mid, after);
      n := ParseForest(p, mid, rest, it.Advance(), t, tail);
      ReadOn(p, stack, f, rest, it, t, tail, 1, mid, n);
      n := 1 + n;
    }
  }

  /** A rule of the forest: first what is below it, then its reduction. */
  lemma {:induction false} ParseNode(p: Generated, stack: seq<StackEntry>, f: Forest, r: nat, kids: Forest,
                                     rest: Forest, it: Item, t: nat, tail: Form)
    returns (n: nat)
    requires p.Complete() && Ready(p, stack) && Awaits(p, Top(stack), it, t) && f == Node(r, kids, rest)
    requires ForestOk(p.g, f) && Roots(p.g, f) == p.g.rules[it.rule].rhs[it.dot..]
    ensures ReadsForest(p, stack, f, it, t, tail, n)
    decreases f, 0
  {
    hide *;
    ReadyFacts(p, stack, it, t);
    NodeShape(p.g, f, r, kids, rest, it, t, tail);
    var u, after := Lookahead(Yield(rest), t), AfterLookahead(Yield(rest), t, tail);
    assert p.g.rules[r].rhs[0..] == p.g.rules[r].rhs;
    LookaheadFollows(p, Top(stack), it, t, r, rest);
    var m := ParseForest(p, stack, kids, Item(r, 0), u, after);
    NodeNeed(r, kids, rest);
    if |stack| + Need(kids) > p.k.depth {
      n := m;
      ReadsOver(p, stack, kids, Item(r, 0), u, after, m);
      OverflowOn(p, stack, f, it, t, tail, n);
    } else {
      var full := ReadOut(p, stack, kids, r, u, after, m);
      ReduceTurn(p, stack, it, t, r, full, u, after);
      OneTurn(p.k, full, [u] + after);
      RunAdd(p.k, Running(stack, Yield(kids) + [u] + after), m, 1);
      ReductionsAdd(p.k, Running(stack, Yield(kids) + [u] + after), m, 1);
      if |stack| >= p.k.depth {
        n := m + 1;
        OverflowOn(p, stack, f, it, t, tail, n);
      } else {
        var mid :| Moved(p, stack, it, t, Turn(p.k, full, [u] + after), mid, [u] + after);
        AboveLength(stack, mid, 1);
        MovedFacts(p, stack, it, t, Turn(p.k, full, [u] + after), mid, [u] + after);
        n := ParseForest(p, mid, rest, it.Advance(), t, tail);
        ReadOn(p, stack, f, rest, it, t, tail, m + 1, mid, n);
        n := m + 1 + n;
      }
    }
  }

  /** The driver starts with an empty stack, awaiting any rule of the start symbol. */
  lemma StartReady(p: Generated, r: nat)
    requires p.Complete() && r < |p.g.rules| && p.g.rules[r].lhs == p.g.start
    ensures p.k.Ok() && Ready(p, [BOTTOM]) && StackOk(p.k, [BOTTOM]) && Awaits(p, Top([BOTTOM]), Item(r, 0), 0)
  {
  }

  /** Reducing one of the start symbol's rules down to the empty stack accepts. */
  lemma StartReduces(p: Generated, r: nat, full: seq<StackEntry>, input: Form)
    requires p.Complete() && r < |p.g.rules| && p.g.rules[r].lhs == p.g.start
    requires Ready(p, full) && Above([BOTTOM], full, |p.g.rules[r].rhs|)
      && Awaits(p, Top(full), Item(r, |p.g.rules[r].rhs|), 0)
    ensures Turn(p.k, full, [0] + input) == Accepted([0] + input) && Reduced(p.k, full, 0) == [r]
  {
    assert p.k.tables.FindReduceAction(0, p.g.start) == |p.states| + |p.g.rules| + 1 && p.k.sz.nrule == |p.g.rules|;
    hide Built, TablesSound, FirstsOk, FollowsOk, TablesComplete, MayFollow, ValidStack, StackOk, Above, Turn;
    ReduceCalled(p, full, r, 0);
    TurnReduces(p.k, [BOTTOM], full, r, 0, input);
  }

  /** A sentence with this tree, followed by the end marker, is accepted if the stack is deep enough for
      the tree, its rules having been reduced one after the other, and makes it overflow otherwise. */
  lemma SentenceAccepted(p: Generated, w: Form, r: nat, kids: Forest) returns (n: nat)
    requires p.Complete() && SentenceTree(p.g, r, kids, w)
    ensures p.k.Ok() && StackOk(p.k, [BOTTOM])
    ensures Run(p.k, Start(w + [0]), n) == if 1 + Need(kids) <= p.k.depth then Accepted([0]) else Overflow
    ensures 1 + Need(kids) <= p.k.depth ==> Reductions(p.k, Start(w + [0]), n) == Post(kids) + [r]
  {
    assert Yield(kids) == w && r < |p.g.rules| && p.g.rules[r].lhs == p.g.start && Roots(p.g, kids) == p.g.rules[r].rhs
      && ForestOk(p.g, kids);
    hide *;
    n := StartAccepts(p, r, kids);
    assert Yield(kids) + [0] + [] == w + [0];
    StartIs(w + [0]);
  }

  lemma StartIs(input: Form)
    ensures Start(input) == Running([BOTTOM], input) && |[BOTTOM]| == 1
  {
  }

  lemma StartAccepts(p: Generated, r: nat, kids: Forest) returns (n: nat)
    requires p.Complete() && r < |p.g.rules| && p.g.rules[r].lhs == p.g.start
    requires ForestOk(p.g, kids) && Roots(p.g, kids) == p.g.rules[r].rhs
    ensures p.k.Ok() && StackOk(p.k, [BOTTOM])
    ensures Run(p.k, Running([BOTTOM], Yield(kids) + [0] + []), n) == if 1 + Need(kids) <= p.k.depth then Accepted([0])
      else Overflow
    ensures 1 + Need(kids) <= p.k.depth ==>
      Reductions(p.k, Running([BOTTOM], Yield(kids) + [0] + []), n) == Post(kids) + [r]
  {
    hide *;
    StartReady(p, r);
    StartIs([]);
    assert p.g.rules[r].rhs[0..] == p.g.rules[r].rhs;
    n := ParseForest(p, [BOTTOM], kids, Item(r, 0), 0, []);
    if 1 + Need(kids) <= p.k.depth {
      var full := ReadOut(p, [BOTTOM], kids, r, 0, [], n);
      StartReduces(p, r, full, []);
      OneTurn(p.k, full, [0] + []);
      RunAdd(p.k, Running([BOTTOM], Yield(kids) + [0] + []), n, 1);
      ReductionsAdd(p.k, Running([BOTTOM], Yield(kids) + [0] + []), n, 1);
      assert [0] + [] == [0];
      n := n + 1;
    } else {
      ReadsOver(p, [BOTTOM], kids, Item(r, 0), 0, [], n);
    }
  }

  /** A run ends in one way only. */
  lemma OneEnd(k: Constants, c: Conf, m: nat, n: nat)
    requires k.Ok() && (c.Running? ==> StackOk(k, c.stack)) && !Run(k, c, m).Running? && !Run(k, c, n).Running?
    ensures Run(k, c, m) == Run(k, c, n)
  {
    RunAdd(k, c, m, n);
    RunAdd(k, c, n, m);
    assert m + n == n + m;
  }

  lemma AcceptedDerives(p: Generated, w: Form, n: nat)
    requires p.Sound() && AllTerminal(p.g, w) && 0 < p.g.nterminal
    ensures p.k.Ok() && StackOk(p.k, [BOTTOM])
    ensures Run(p.k, Start(w + [0]), n) == Accepted([0]) ==> Derives(p.g, [p.g.start], w)
  {
    assert Tokens(p.g, w + [0]);
    AcceptsOnlySentences(p.g, p.lambda, p.first, p.states, p.bplp, p.k, w + [0], n);
    if Run(p.k, Start(w + [0]), n) == Accepted([0]) {
      var done :| done + [0] == w + [0] && Derives(p.g, [p.g.start], done);
      assert done == (done + [0])[..|done|] == (w + [0])[..|w|] == w;
    }
  }

  /** For a grammar without conflicts the generated parser accepts exactly the sentences that its stack
      is deep enough for: having read a string of tokens and the end marker it accepts if and only if
      the start symbol derives the string through a tree that fits. */
  lemma AcceptsExactlySentences(p: Generated, w: Form)
    requires p.Complete() && AllTerminal(p.g, w)
    ensures p.k.Ok() && StackOk(p.k, [BOTTOM])
    ensures (exists n :: Run(p.k, Start(w + [0]), n) == Accepted([0])) <==> FitsIn(p.g, w, p.k.depth)
    ensures Derives(p.g, [p.g.start], w) ==> exists n :: Run(p.k, Start(w + [0]), n) in {Accepted([0]), Overflow}
    ensures FitsIn(p.g, w, p.k.depth) ==> Derives(p.g, [p.g.start], w)
  {
    var g := p.g;
    assert g.Valid();
    hide Generated.Complete, Generated.Sound, Run, Derives, AllTerminal, SentenceTree;
    CompleteIsSound(p);
    AcceptedDerives(p, w, 0);
    if n: nat :| Run(p.k, Start(w + [0]), n) == Accepted([0]) {
      AcceptedDerives(p, w, n);
      var r, kids := SentenceForest(g, w);
      var m := SentenceAccepted(p, w, r, kids);
      OneEnd(p.k, Start(w + [0]), m, n);
      assert TreeFits(g, r, kids, w, p.k.depth);
    }
    if FitsIn(g, w, p.k.depth) {
      var r: nat, kids :| TreeFits(g, r, kids, w, p.k.depth);
      TreeDerives(g, r, kids, w);
      var n := SentenceAccepted(p, w, r, kids);
    }
    if Derives(g, [g.start], w) {
      var r, kids := SentenceForest(g, w);
      var n := SentenceAccepted(p, w, r, kids);
    }
  }

  lemma CompleteIsSound(p: Generated)
    requires p.Complete()
    ensures p.Sound()
  {
  }
}
