/** Every call of the parser that lemon makes of an LALR(1) grammar ends: a run that goes round in a circle
    reduces by rules that go round in a circle. */
module LalrTermination {
  import opened Grammars
  import opened Closures
  import opened Lr0
  import opened Driver
  import opened ParserSoundness
  import opened ParserCompleteness
  import opened ParserTermination
  import opened Lalr
  import opened Lookaheads
  import opened Vanishing

  /** The rule is complete in some state where some token may follow it. */
  ghost predicate Reducible(g: Grammar, states: seq<State>, v: Follows, r: nat) {
    r < |g.rules| && exists s: nat, t: nat :: MayFollow(states, v, s, Item(r, |g.rules[r].rhs|), t)
  }

  /** In state `s` the rule may be followed by `x`, or by two tokens, enough for a default reduction. */
  ghost predicate WarrantedOn(g: Grammar, states: seq<State>, v: Follows, s: nat, r: nat, x: nat)
    requires r < |g.rules|
  {
    var it := Item(r, |g.rules[r].rhs|);
    || MayFollow(states, v, s, it, x)
    || exists y: nat, z: nat :: y != z && MayFollow(states, v, s, it, y) && MayFollow(states, v, s, it, z)
  }

  /** On whatever token, the tables reduce only by rules that this token or two others may follow. */
  ghost predicate Warranted(g: Grammar, states: seq<State>, v: Follows, k: Constants)
    requires k.Ok() && k.sz.nstate == |states|
  {
    forall s: nat, x: nat, r: nat ::
      s < |states| && g.Terminal(x) && r < |g.rules| && k.tables.FindShiftAction(s, x) == |states| + r ==>
        WarrantedOn(g, states, v, s, r, x)
  }

  lemma WarrantedReducible(g: Grammar, states: seq<State>, v: Follows, s: nat, r: nat, x: nat)
    requires r < |g.rules| && WarrantedOn(g, states, v, s, r, x)
    ensures Reducible(g, states, v, r)
  {
    hide MayFollow;
  }

  /** What is known about the tables of an LALR(1) grammar. */
  ghost predicate Settled(p: Generated) {
    && p.Sound() && p.k.Ok() && p.k.sz.nstate == |p.states|
    && Lalr1(p.g) && FollowsExact(p.g, p.states, p.v) && Warranted(p.g, p.states, p.v, p.k)
  }

  // ----- rules of a circle are never reducible

  /** From `x` up to `y`, one rule on top of the other. */
  ghost predicate Climbs(g: Grammar, x: nat, rs: seq<nat>, y: nat)
    decreases |rs|
  {
    if rs == [] then x == y else OnTopOf(g, rs[0], x) && Climbs(g, g.rules[rs[0]].lhs, rs[1..], y)
  }

  lemma {:induction false} ClimbsAt(g: Grammar, x: nat, rs: seq<nat>, y: nat, i: nat)
    requires Climbs(g, x, rs, y) && i < |rs|
    ensures rs[|rs| - 1] < |g.rules| && g.rules[rs[|rs| - 1]].lhs == y
    ensures i > 0 ==> rs[i - 1] < |g.rules|
    ensures OnTopOf(g, rs[i], if i == 0 then x else g.rules[rs[i - 1]].lhs)
    decreases |rs|
  {
    if |rs| > 1 {
      ClimbsAt(g, g.rules[rs[0]].lhs, rs[1..], y, if i == 0 then 0 else i - 1);
    }
  }

  lemma ClimbsRound(g: Grammar, x: nat, rs: seq<nat>)
    requires Climbs(g, x, rs, x)
    ensures Circle(g, rs)
  {
    hide Climbs, Derives;
    forall i: nat | i < |rs|
      ensures RoundAt(g, rs, i)
    {
      ClimbsAt(g, x, rs, x, i);
    }
  }

  /** What may follow a rule where it is complete may follow it where it begins. */
  lemma {:induction false} LookBack(g: Grammar, w: Form, it: Item, t: nat) returns (u: Form)
    requires Look(g, w, it, t)
    ensures Look(g, u, Item(it.rule, 0), t)
    decreases it.dot
  {
    if it.dot == 0 {
      u := w;
    } else {
      var n: nat :| LookIn(g, w, it, t, n);
      assert LookIn(g, w[..|w| - 1], Item(it.rule, it.dot - 1), t, n - 1);
      u := LookBack(g, w[..|w| - 1], Item(it.rule, it.dot - 1), t);
    }
  }

  lemma StartFirstNowhere(g: Grammar, lambda: seq<bool>, first: seq<set<nat>>, states: seq<State>, bplp: BackLinks)
    requires Built(g, lambda, first, states, bplp)
    ensures StartNotFirst(g)
  {
    if ShiftsOn(g, [], g.start) {
      var it: Item :| NextAfter(g, [], it, g.start);
      StateIsValidItems(g, lambda, first, states, bplp, [], it);
      ShiftedItem(g, lambda, first, states, bplp, 0, it);
    }
  }

  /** An LALR(1) grammar has no reducible rules that go round in a circle. */
  lemma NoReducibleCircle(p: Generated, rs: seq<nat>, i: nat)
    requires Settled(p) && Circle(p.g, rs) && i < |rs|
    ensures !Reducible(p.g, p.states, p.v, rs[i])
  {
    assert p.g.Valid();
    StartFirstNowhere(p.g, p.lambda, p.first, p.states, p.bplp);
    hide Generated.Sound, Look, Circle, Lalr1, StartNotFirst, At, MayFollow, Warranted;
    if Reducible(p.g, p.states, p.v, rs[i]) {
      var it := Item(rs[i], |p.g.rules[rs[i]].rhs|);
      var s: nat, t: nat :| MayFollow(p.states, p.v, s, it, t);
      assert Looked(p.g, p.states, s, it, t);
      var w :| Look(p.g, w, it, t);
      var u := LookBack(p.g, w, it, t);
      CircleNotLooked(p.g, rs, u, i, t);
    }
  }

  // ----- a run above the lowest entry it uncovers

  /** A turn that leaves the token where it is reduces by a rule, which lay on top of the stack. */
  lemma TurnReplaces(p: Generated, stack: seq<StackEntry>, x: nat) returns (r: nat)
    requires p.Sound() && ValidStack(p.states, stack) && StackOk(p.k, stack) && p.g.Terminal(x) && p.k.Ok()
    requires !Ended(Turn(p.k, stack, [x]))
    ensures p.k.sz.nstate == |p.states| && Top(stack) < |p.states| && r < |p.g.rules|
      && p.k.tables.FindShiftAction(Top(stack), x) == |p.states| + r
    ensures Replaces(p.g, stack, Turn(p.k, stack, [x]), r)
  {
    TokenAction(p, stack, x);
    var act := p.k.tables.FindShiftAction(Top(stack), x);
    r := if act < |p.states| then 0 else act - |p.states|;
    assert Turn(p.k, stack, [x]) == Act(p.k, stack, [x], act);
    hide *;
    ActReplaces(p, stack, x, act);
  }

  /** The driver's stack has the left-hand side of the rule where it had the right-hand side. */
  ghost predicate Replaces(g: Grammar, stack: seq<StackEntry>, c: Conf, r: nat) {
    && c.Running? && r < |g.rules| && |g.rules[r].rhs| < |stack|
    && var n := |stack| - |g.rules[r].rhs|;
      && |c.stack| == n + 1 && c.stack[..n] == stack[..n] && c.stack[n].major == g.rules[r].lhs
      && Majors(stack) == Majors(stack[..n]) + g.rules[r].rhs
  }

  lemma ActReplaces(p: Generated, stack: seq<StackEntry>, x: nat, act: int)
    requires p.Sound() && ValidStack(p.states, stack) && StackOk(p.k, stack) && p.k.Ok() && p.k.sz.nstate == |p.states|
    requires p.k.sz.nrule == |p.g.rules| && Allowed(p, Top(stack), x, act)
    requires !Ended(Act(p.k, stack, [x], act))
    ensures |p.states| <= act < |p.states| + |p.g.rules|
    ensures Replaces(p.g, stack, Act(p.k, stack, [x], act), act - |p.states|)
  {
    hide Generated.Sound, ValidStack, StackOk, Reduce, Replaces;
    if act < |p.states| {
      ShiftKeeps(p, stack, x);
    } else if act < |p.states| + |p.g.rules| {
      ReduceReplaces(p, stack, act - |p.states|, [x]);
    }
  }

  lemma ReduceReplaces(p: Generated, stack: seq<StackEntry>, r: nat, input: Form)
    requires p.Sound() && ValidStack(p.states, stack) && StackOk(p.k, stack)
    requires r < |p.g.rules| && Item(r, |p.g.rules[r].rhs|) in p.states[Top(stack)].cl.items
    ensures p.k.Ok() && p.k.rules == p.g.rules && |p.g.rules[r].rhs| < |stack|
    ensures var c := Reduce(p.k, stack, r, input); c.Running? ==> Replaces(p.g, stack, c, r)
  {
    ReducePops(p.g, p.lambda, p.first, p.states, p.bplp, stack, r);
    hide Built, ValidStack, StackOk, TokenActionOk;
  }

  /** For `n` turns the token is not dealt with, and the stack keeps at least `b` entries. */
  ghost predicate StaysAbove(k: Constants, stack: seq<StackEntry>, x: nat, n: nat, b: nat)
    requires k.Ok() && StackOk(k, stack)
  {
    forall m: nat :: m <= n ==>
      var c := Run(k, Running(stack, [x]), m); !Ended(c) && |c.stack| >= b
  }

  lemma StaysNext(k: Constants, stack: seq<StackEntry>, x: nat, n: nat, b: nat)
    requires k.Ok() && StackOk(k, stack) && StaysAbove(k, stack, x, n, b) && n > 0
    ensures var c := Turn(k, stack, [x]);
      && !Ended(c) && |c.stack| >= b
      && (c.input == [x] ==> StaysAbove(k, c.stack, x, n - 1, b))
      && (c.input == [x] ==> Run(k, Running(stack, [x]), n) == Run(k, Running(c.stack, [x]), n - 1))
  {
    var c := Turn(k, stack, [x]);
    assert Run(k, Running(stack, [x]), 1) == Run(k, c, 0) == c;
    if c.input == [x] {
      forall m: nat | m <= n - 1
        ensures var d := Run(k, Running(c.stack, [x]), m); !Ended(d) && |d.stack| >= b
      {
        assert Run(k, Running(stack, [x]), m + 1) == Run(k, Running(c.stack, [x]), m);
      }
    }
  }

  /** Above the lowest entry that is replaced everything can vanish; and the rules by which that entry is
      replaced lie one on top of the other. */
  lemma {:induction false} RunClimbs(p: Generated, stack: seq<StackEntry>, x: nat, n: nat, b: nat)
    returns (rs: seq<nat>)
    requires Settled(p) && ValidStack(p.states, stack) && StackOk(p.k, stack) && p.g.Terminal(x)
    requires 2 <= b <= |stack| && StaysAbove(p.k, stack, x, n, b) && Derives(p.g, Majors(stack)[b - 1..], [])
    ensures var c := Run(p.k, Running(stack, [x]), n);
      && c.Running? && |c.stack| >= b && Climbs(p.g, stack[b - 1].major, rs, c.stack[b - 1].major)
      && (rs == [] && n > 0 ==> |c.stack| > b)
    ensures forall i :: 0 <= i < |rs| ==> Reducible(p.g, p.states, p.v, rs[i])
    decreases n
  {
    hide Generated.Sound, Lalr1, FollowsExact, ValidStack, StackOk, Run, Turn, Reducible, WarrantedOn, Derives;
    if n == 0 {
      rs := [];
      RunNothing(p.k, stack, x);
    } else {
      StaysNext(p.k, stack, x, n, b);
      var r := TurnReplaces(p, stack, x);
      WarrantedReducible(p.g, p.states, p.v, Top(stack), r, x);
      TurnUndoesStep(p, stack, x);
      var now := Turn(p.k, stack, [x]).stack;
      Replaced(p.g, stack, now, r, b);
      RunNothing(p.k, now, x);
      var more := RunClimbs(p, now, x, n - 1, b);
      rs := if |now| > b then more else [r] + more;
    }
  }

  lemma RunNothing(k: Constants, stack: seq<StackEntry>, x: nat)
    requires k.Ok() && StackOk(k, stack)
    ensures Run(k, Running(stack, [x]), 0) == Running(stack, [x])
  {
  }

  /** One reduction: either it stays above the lowest entry, or it replaces that entry. */
  lemma Replaced(g: Grammar, stack: seq<StackEntry>, now: seq<StackEntry>, r: nat, b: nat)
    requires 2 <= b <= |stack| && b <= |now| && Derives(g, Majors(stack)[b - 1..], []) && r < |g.rules|
    requires |g.rules[r].rhs| < |stack|
    requires var n := |stack| - |g.rules[r].rhs|;
      && |now| == n + 1 && now[..n] == stack[..n] && now[n].major == g.rules[r].lhs
      && Majors(stack) == Majors(stack[..n]) + g.rules[r].rhs
    ensures Derives(g, Majors(now)[b - 1..], [])
    ensures |now| > b ==> now[b - 1] == stack[b - 1]
    ensures |now| == b ==> OnTopOf(g, r, stack[b - 1].major) && now[b - 1].major == g.rules[r].lhs
  {
    var rule := g.rules[r];
    var n := |stack| - |rule.rhs|;
    var above := Majors(stack)[b - 1..];
    if |now| > b {
      assert now[b - 1] == now[..n][b - 1] == stack[..n][b - 1];
      assert Majors(now) == Majors(stack[..n]) + [rule.lhs];
      var kept := Majors(stack[..n])[b - 1..];
      assert above == kept + rule.rhs && Majors(now)[b - 1..] == kept + [rule.lhs];
      RuleDerives(g, r);
      DerivesPrefix(g, kept, [rule.lhs], rule.rhs);
      DerivesTrans(g, kept + [rule.lhs], above, []);
    } else {
      assert Majors(now)[b - 1..] == [];
      DerivesRefl(g, []);
      assert Majors(stack)[b - 2..] == rule.rhs;
      assert rule.rhs[0] == Majors(stack)[b - 2] == stack[b - 1].major && rule.rhs[1..] == above;
    }
  }

  // ----- a circle has a lowest point

  /** How many entries the stack has after `n` turns. */
  ghost function Height(k: Constants, stack: seq<StackEntry>, x: nat, n: nat): nat
    requires k.Ok() && StackOk(k, stack)
  {
    var c := Run(k, Running(stack, [x]), n);
    if c.Running? then |c.stack| else 0
  }

  /** One of the first `n` turns leaves the fewest entries. */
  lemma {:induction false} LowestTurn(k: Constants, stack: seq<StackEntry>, x: nat, n: nat) returns (low: nat)
    requires k.Ok() && StackOk(k, stack) && n > 0
    ensures 1 <= low <= n
    ensures forall m: nat :: 1 <= m <= n ==> Height(k, stack, x, m) >= Height(k, stack, x, low)
    decreases n
  {
    hide Height;
    low := n;
    if n > 1 {
      low := LowestTurn(k, stack, x, n - 1);
      if Height(k, stack, x, n) < Height(k, stack, x, low) {
        low := n;
      }
    }
  }

  /** A run that comes back to its first stack, without dealing with the token. */
  ghost predicate Returns(p: Generated, stack: seq<StackEntry>, x: nat, n: nat) {
    && ValidStack(p.states, stack) && p.k.Ok() && StackOk(p.k, stack) && n > 0
    && Run(p.k, Running(stack, [x]), n) == Running(stack, [x])
  }

  lemma CirclesReturn(p: Generated, stack: seq<StackEntry>, x: nat, i: nat, j: nat) returns (now: seq<StackEntry>)
    requires p.Sound() && ValidStack(p.states, stack) && StackOk(p.k, stack) && p.g.Terminal(x)
    requires p.k.Ok() && Circles(p.k, stack, x, i, j)
    ensures Returns(p, now, x, j - i)
  {
    hide Generated.Sound, ValidStack, StackOk, Run;
    RunKeepsPath(p, stack, x, i);
    now := Run(p.k, Running(stack, [x]), i).stack;
    RunAdd(p.k, Running(stack, [x]), i, j - i);
  }

  /** On the way round the token is never dealt with. */
  lemma OnTheRound(p: Generated, stack: seq<StackEntry>, x: nat, n: nat, m: nat)
    requires p.Sound() && p.g.Terminal(x) && Returns(p, stack, x, n) && m <= n
    ensures var c := Run(p.k, Running(stack, [x]), m);
      && c.Running? && c.input == [x] && ValidStack(p.states, c.stack) && StackOk(p.k, c.stack)
      && |c.stack| == Height(p.k, stack, x, m) && (m > 0 ==> |c.stack| >= 2)
  {
    hide Generated.Sound, ValidStack, StackOk, Run;
    NotEndedBefore(p.k, stack, x, m, n);
    RunKeepsPath(p, stack, x, m);
    if m > 0 {
      NotEndedBefore(p.k, stack, x, m - 1, n);
      RunKeepsPath(p, stack, x, m - 1);
      RunAdd(p.k, Running(stack, [x]), m - 1, 1);
      var c := Run(p.k, Running(stack, [x]), m - 1);
      OneTurn(p.k, c.stack, [x]);
      var r := TurnReplaces(p, c.stack, x);
    }
  }

  /** From its lowest point on the run goes round in the same way, and never below. */
  lemma RoundFromLowest(p: Generated, stack: seq<StackEntry>, x: nat, n: nat) returns (low: seq<StackEntry>)
    requires p.Sound() && p.g.Terminal(x) && Returns(p, stack, x, n)
    ensures Returns(p, low, x, n) && |low| >= 2 && StaysAbove(p.k, low, x, n, |low|)
  {
    hide Generated.Sound, ValidStack, StackOk, Run, Height;
    var start := Running(stack, [x]);
    var i := LowestTurn(p.k, stack, x, n);
    OnTheRound(p, stack, x, n, i);
    low := Run(p.k, start, i).stack;
    forall m: nat | m <= n
      ensures var c := Run(p.k, Running(low, [x]), m);
        !Ended(c) && |c.stack| >= |low| && (m == n ==> c == Running(low, [x]))
    {
      RunAdd(p.k, start, i, m);
      if i + m > n {
        RunAdd(p.k, start, n, i + m - n);
        OnTheRound(p, stack, x, n, i + m - n);
      } else {
        OnTheRound(p, stack, x, n, i + m);
      }
    }
  }

  /** The parser of an LALR(1) grammar does not go round in a circle. */
  lemma NeverReturns(p: Generated, stack: seq<StackEntry>, x: nat, n: nat)
    requires Settled(p) && p.g.Terminal(x)
    ensures !Returns(p, stack, x, n)
  {
    hide Generated.Sound, ValidStack, StackOk, Run, Lalr1, FollowsExact, Warranted, Derives, Climbs, Reducible,
      StaysAbove;
    if Returns(p, stack, x, n) {
      var low := RoundFromLowest(p, stack, x, n);
      DerivesRefl(p.g, []);
      assert Majors(low)[|low| - 1..] == [];
      var rs := RunClimbs(p, low, x, n, |low|);
      ClimbsRound(p.g, low[|low| - 1].major, rs);
      NoReducibleCircle(p, rs, 0);
    }
  }

  /** Every token is dealt with by the parser that lemon makes of an LALR(1) grammar. */
  lemma SettledEnds(p: Generated, stack: seq<StackEntry>, x: nat, n: nat)
    requires Settled(p) && ValidStack(p.states, stack) && StackOk(p.k, stack) && p.g.Terminal(x) && n >= TurnBound(p)
    ensures p.k.Ok() && Ended(Run(p.k, Running(stack, [x]), n))
  {
    hide Generated.Sound, ValidStack, StackOk, Run, TurnBound, Ended, Circles, Returns, Lalr1, FollowsExact, Warranted;
    var i, j := EndsOrCircles(p, stack, x);
    EndsSoon(p, stack, x, n);
    if Circles(p.k, stack, x, i, j) {
      CirclesGoOn(p.k, stack, x, i, j);
      var now := CirclesReturn(p, stack, x, i, j);
      NeverReturns(p, now, x, j - i);
    }
    assert EverEnds(p.k, stack, x);
  }

  /** Every token that comes to a path of the automaton is dealt with, within the known number of turns. */
  ghost predicate EveryCallEnds(p: Generated) {
    p.k.Ok() && forall stack, x: nat, n: nat | Comes(p, stack, x) && n >= TurnBound(p) ::
      Ended(Run(p.k, Running(stack, [x]), n))
  }

  ghost predicate Comes(p: Generated, stack: seq<StackEntry>, x: nat)
    requires p.k.Ok()
  {
    ValidStack(p.states, stack) && StackOk(p.k, stack) && p.g.Terminal(x)
  }

  lemma SettledDeals(p: Generated)
    requires Settled(p)
    ensures EveryCallEnds(p)
  {
    assert p.k.Ok();
    hide Settled, ValidStack, StackOk, Run, TurnBound, Ended;
    forall stack, x: nat, n: nat | Comes(p, stack, x) && n >= TurnBound(p)
      ensures Ended(Run(p.k, Running(stack, [x]), n))
    {
      SettledEnds(p, stack, x, n);
    }
  }

  lemma CirclesGoOn(k: Constants, stack: seq<StackEntry>, x: nat, i: nat, j: nat)
    requires k.Ok() && StackOk(k, stack) && Circles(k, stack, x, i, j)
    ensures i < j
  {
  }
}
