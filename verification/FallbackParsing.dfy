/** The driver with fallback tokens: what it accepts is a sentence once some of its tokens are read as
    tokens that they may stand in for. */
module FallbackParsing {
  import opened Grammars
  import opened Options
  import opened Driver
  import opened ParserSoundness
  import opened ParserCompleteness
  import opened Fallbacks

  /** One turn of Parse's loop; None if the search for the action does not end.  The token itself goes
      on the stack, not the one it stands in for. */
  function TurnWith(k: Constants, fallback: seq<nat>, stack: seq<StackEntry>, input: Form): (r: Option<Conf>)
    requires k.Ok() && StackOk(k, stack) && input != []
    ensures r.Some? && r.value.Running? ==> StackOk(k, r.value.stack)
  {
    match k.tables.FindWithFallback(fallback, Top(stack), input[0], |fallback|)
    case None => None
    case Some(act) => Some(Act(k, stack, input, act))
  }

  function RunWith(k: Constants, fallback: seq<nat>, c: Conf, n: nat): Option<Conf>
    requires k.Ok() && (c.Running? ==> StackOk(k, c.stack))
    decreases n
  {
    if n == 0 || !c.Running? || c.input == [] then Some(c)
    else match TurnWith(k, fallback, c.stack, c.input)
      case None => None
      case Some(d) => RunWith(k, fallback, d, n - 1)
  }

  /** `y` is `x` or a token that `x` may stand in for. */
  ghost predicate ReadAs(fallback: seq<nat>, x: nat, y: nat) {
    exists m: nat :: y in Chain(fallback, x, m)
  }

  ghost predicate AllReadAs(fallback: seq<nat>, w: Form, u: Form) {
    |w| == |u| && forall i :: 0 <= i < |w| ==> ReadAs(fallback, w[i], u[i])
  }

  ghost predicate SameStates(a: seq<StackEntry>, b: seq<StackEntry>) {
    |a| == |b| && forall i :: 0 <= i < |a| ==> a[i].stateno == b[i].stateno
  }

  /** Fallbacks as lemon declares them: between tokens of the grammar, and none for the end marker. */
  predicate FallbackOk(k: Constants, fallback: seq<nat>) {
    BetweenTokens(fallback, k.sz) && (fallback != [] ==> fallback[0] == 0)
  }

  /** The action found is that of some token the given one can be read as. */
  lemma {:induction false} FoundReadAs(k: Constants, fallback: seq<nat>, s: nat, x: nat, fuel: nat) returns (y: nat)
    requires k.Ok() && FallbackOk(k, fallback) && s < k.tables.nstate && x < k.sz.nterminal
    requires k.tables.FindWithFallback(fallback, s, x, fuel).Some?
    ensures ReadAs(fallback, x, y) && y < k.sz.nterminal && (x == 0 ==> y == 0)
    ensures k.tables.FindWithFallback(fallback, s, x, fuel) == Some(k.tables.FindShiftAction(s, y))
    decreases fuel
  {
    y := x;
    assert x in Chain(fallback, x, 0);
    if k.tables.yy_shift_ofst[s] != k.tables.shift_use_dflt && k.tables.At(k.tables.yy_shift_ofst[s], x).None?
      && fallback[x] != 0 {
      y := FoundReadAs(k, fallback, s, fallback[x], fuel - 1);
      var m: nat :| y in Chain(fallback, fallback[x], m);
      assert y in Chain(fallback, x, m + 1);
    }
  }

  /** The same action on stacks with the same states. */
  ghost predicate Alike(c: Conf, d: Conf, x: nat, y: nat, rest: Form) {
    match c
    case Running(stack, input) => d.Running? && SameStates(stack, d.stack) &&
      ((input == [x] + rest && d.input == [y] + rest) || (input == rest && d.input == rest && x != 0))
    case Accepted(input) => input == [x] + rest && d == Accepted([y] + rest)
    case _ => c == d
  }

  lemma SameReduce(k: Constants, a: seq<StackEntry>, b: seq<StackEntry>, r: nat, x: nat, y: nat, rest: Form)
    requires k.Ok() && StackOk(k, a) && StackOk(k, b) && SameStates(a, b) && r < |k.rules|
    ensures Alike(Reduce(k, a, r, [x] + rest), Reduce(k, b, r, [y] + rest), x, y, rest)
  {
    var n := |k.rules[r].rhs|;
    if n < |a| {
      assert SameStates(a[..|a| - n], b[..|b| - n]);
    }
  }

  lemma SameAct(k: Constants, a: seq<StackEntry>, b: seq<StackEntry>, x: nat, y: nat, rest: Form, act: int)
    requires k.Ok() && StackOk(k, a) && StackOk(k, b) && SameStates(a, b) && (x == 0 ==> y == 0)
    requires 0 <= act < k.sz.nstate && y == 0 ==> x == 0
    ensures Alike(Act(k, a, [x] + rest, act), Act(k, b, [y] + rest, act), x, y, rest)
  {
    assert ([x] + rest)[1..] == rest && ([y] + rest)[1..] == rest;
    if k.sz.nstate <= act < k.sz.nstate + k.sz.nrule {
      SameReduce(k, a, b, act - k.sz.nstate, x, y, rest);
    }
  }

  /** The stack is, state by state, one on which tokens that the shifted ones can be read as have been
      shifted. */
  ghost predicate InvAs(p: Generated, fallback: seq<nat>, stack: seq<StackEntry>, shifted: Form, b: seq<StackEntry>,
                        read: Form)
  {
    SameStates(stack, b) && AllReadAs(fallback, shifted, read) && Inv(p.g, p.states, p.k, b, read) && Tokens(p.g, read)
  }

  ghost predicate InvWith(p: Generated, fallback: seq<nat>, stack: seq<StackEntry>, shifted: Form) {
    exists b, read :: InvAs(p, fallback, stack, shifted, b, read)
  }

  ghost predicate ReadSentence(p: Generated, fallback: seq<nat>, w: Form) {
    exists u :: AllReadAs(fallback, w, u) && Derives(p.g, [p.g.start], u)
  }

  /** As Justified, with tokens read as others. */
  ghost predicate JustifiedWith(p: Generated, fallback: seq<nat>, c: Conf, all: Form, done: Form) {
    match c
    case Running(stack, rest) => done + rest == all && InvWith(p, fallback, stack, done) && StackOk(p.k, stack)
    case Accepted(rest) => done + rest == all && ReadSentence(p, fallback, done)
    case Broken => false
    case _ => true
  }

  lemma ReadMore(fallback: seq<nat>, w: Form, u: Form, x: nat, y: nat)
    requires AllReadAs(fallback, w, u) && ReadAs(fallback, x, y)
    ensures AllReadAs(fallback, w + [x], u + [y])
  {
  }

  lemma InvStack(p: Generated, b: seq<StackEntry>, read: Form)
    requires p.Sound() && Inv(p.g, p.states, p.k, b, read)
    ensures StackOk(p.k, b)
  {
  }

  /** A shifted token is not the end marker. */
  lemma ShiftedNotEnd(p: Generated, b: seq<StackEntry>, y: nat)
    requires p.Sound() && ValidStack(p.states, b) && StackOk(p.k, b) && p.g.Terminal(y)
    ensures p.k.Ok() && (0 <= p.k.tables.FindShiftAction(Top(b), y) < p.k.sz.nstate ==> y != 0)
  {
    assert TokenActionOk(p.g, p.states, p.k, Top(b), y);
    if y in p.states[Top(b)].shifts {
      NeverBackToStart(p.g, p.lambda, p.first, p.states, p.bplp, Top(b), y);
    }
  }

  lemma TurnWithSound(p: Generated, fallback: seq<nat>, stack: seq<StackEntry>, x: nat, rest: Form, done: Form)
    returns (now: Form)
    requires p.Sound() && p.k.Ok() && FallbackOk(p.k, fallback) && Tokens(p.g, [x] + rest)
    requires InvWith(p, fallback, stack, done) && StackOk(p.k, stack)
    ensures TurnWith(p.k, fallback, stack, [x] + rest).Some? ==>
      JustifiedWith(p, fallback, TurnWith(p.k, fallback, stack, [x] + rest).value, done + ([x] + rest), now)
  {
    now := done;
    var b, read :| InvAs(p, fallback, stack, done, b, read);
    InvStack(p, b, read);
    if TurnWith(p.k, fallback, stack, [x] + rest).Some? {
      assert ([x] + rest)[0] == x;
      SoundSizes(p);
      var y := FoundReadAs(p.k, fallback, Top(stack), x, |fallback|);
      var act := p.k.tables.FindShiftAction(Top(b), y);
      ShiftedNotEnd(p, b, y);
      SameAct(p.k, stack, b, x, y, rest, act);
      assert ([y] + rest)[0] == y;
      now := JustifyAs(p, fallback, stack, b, x, y, rest, done, read);
    }
  }

  lemma SoundSizes(p: Generated)
    requires p.Sound()
    ensures p.k.sz.nterminal == p.g.nterminal && p.k.tables.nstate == p.k.sz.nstate
  {
  }

  /** The turn that reads `x` as `y` is as good as the turn on `y`. */
  lemma JustifyAs(p: Generated, fallback: seq<nat>, stack: seq<StackEntry>, b: seq<StackEntry>, x: nat, y: nat,
                  rest: Form, done: Form, read: Form) returns (now: Form)
    requires p.Sound() && p.k.Ok() && StackOk(p.k, stack) && StackOk(p.k, b) && InvAs(p, fallback, stack, done, b, read)
    requires Tokens(p.g, [x] + rest) && p.g.Terminal(y) && ReadAs(fallback, x, y)
    requires Alike(Act(p.k, stack, [x] + rest, p.k.tables.FindShiftAction(Top(b), y)), Turn(p.k, b, [y] + rest), x, y,
      rest)
    ensures JustifiedWith(p, fallback, Act(p.k, stack, [x] + rest, p.k.tables.FindShiftAction(Top(b), y)),
      done + ([x] + rest), now)
  {
    TokensAs(p.g, read, x, y, rest);
    hide Generated.Sound, Inv, Act, Turn, ReadAs, AllReadAs, SameStates, Tokens, StackOk, Justified, JustifiedWith,
      Alike;
    var u := JustifiedTurn(p, b, [y] + rest, read + ([y] + rest), read);
    now := JustifyConf(p, fallback, Act(p.k, stack, [x] + rest, p.k.tables.FindShiftAction(Top(b), y)),
      Turn(p.k, b, [y] + rest),
      x, y, rest, done, read, u);
  }

  lemma JustifyConf(p: Generated, fallback: seq<nat>, c: Conf, d: Conf, x: nat, y: nat, rest: Form, done: Form,
                    read: Form, u: Form)
    returns (now: Form)
    requires Alike(c, d, x, y, rest) && p.k.Ok() && (c.Running? ==> StackOk(p.k, c.stack)) && ReadAs(fallback, x, y)
    requires AllReadAs(fallback, done, read) && Tokens(p.g, read + ([y] + rest))
      && Justified(p.g, p.states, p.k, d, read + ([y] + rest), u)
    ensures JustifiedWith(p, fallback, c, done + ([x] + rest), now)
  {
    hide Inv, ReadAs, AllReadAs, SameStates, Tokens, StackOk, Derives, InvWith, ReadSentence;
    now := done;
    match c
    case Running(stack, input) =>
      if input == rest && x != 0 && d.input == rest {
        now := done + [x];
        JustifyShift(p, fallback, stack, d.stack, x, y, rest, done, read, u);
        assert done + [x] + rest == done + ([x] + rest);
      } else {
        SameTail(u, read, [y] + rest, read + ([y] + rest));
        JustifyStay(p, fallback, stack, d.stack, done, read, [y] + rest);
      }
    case Accepted(input) =>
      SameTail(u, read, [y] + rest, read + ([y] + rest));
      JustifySentence(p, fallback, done, read);
    case _ =>
  }

  lemma JustifySentence(p: Generated, fallback: seq<nat>, done: Form, read: Form)
    requires AllReadAs(fallback, done, read) && Derives(p.g, [p.g.start], read)
    ensures ReadSentence(p, fallback, done)
  {
  }

  lemma JustifyStay(p: Generated, fallback: seq<nat>, stack: seq<StackEntry>, b: seq<StackEntry>, done: Form,
                    read: Form, more: Form)
    requires SameStates(stack, b) && AllReadAs(fallback, done, read) && Inv(p.g, p.states, p.k, b, read)
      && Tokens(p.g, read + more)
    ensures InvWith(p, fallback, stack, done)
  {
    hide Inv, AllReadAs, SameStates;
    forall i | 0 <= i < |read| ensures p.g.Terminal(read[i]) {
      assert (read + more)[i] == read[i];
    }
    assert InvAs(p, fallback, stack, done, b, read);
  }

  lemma JustifyShift(p: Generated, fallback: seq<nat>, stack: seq<StackEntry>, b: seq<StackEntry>, x: nat, y: nat,
                     rest: Form, done: Form, read: Form, u: Form)
    requires SameStates(stack, b) && AllReadAs(fallback, done, read) && ReadAs(fallback, x, y)
    requires Inv(p.g, p.states, p.k, b, u) && u + rest == read + ([y] + rest) && Tokens(p.g, read + ([y] + rest))
    ensures InvWith(p, fallback, stack, done + [x])
  {
    hide Inv, AllReadAs, ReadAs, SameStates, Tokens, InvWith;
    assert read + [y] + rest == read + ([y] + rest);
    SameTail(u, read + [y], rest, read + ([y] + rest));
    ReadMore(fallback, done, read, x, y);
    JustifyStay(p, fallback, stack, b, done + [x], u, rest);
  }

  lemma TokensAs(g: Grammar, read: Form, x: nat, y: nat, rest: Form)
    requires Tokens(g, read) && Tokens(g, [x] + rest) && g.Terminal(y)
    ensures Tokens(g, read + ([y] + rest))
  {
    forall i | 0 <= i < |rest| ensures g.Terminal(rest[i]) {
      assert ([x] + rest)[i + 1] == rest[i];
    }
  }

  lemma SameTail(a: Form, b: Form, rest: Form, all: Form)
    requires a + rest == all && b + rest == all
    ensures a == b
  {
    assert a == all[..|all| - |rest|] == b;
  }

  lemma JustifiedTurn(p: Generated, b: seq<StackEntry>, input: Form, all: Form, read: Form) returns (now: Form)
    requires p.Sound() && p.k.Ok() && StackOk(p.k, b) && Inv(p.g, p.states, p.k, b, read) && all == read + input
      && input != [] && Tokens(p.g, all)
    ensures Justified(p.g, p.states, p.k, Turn(p.k, b, input), all, now)
  {
    now := TurnSound(p.g, p.lambda, p.first, p.states, p.bplp, p.k, b, input, all, read);
  }

  lemma {:induction false} RunWithSound(p: Generated, fallback: seq<nat>, c: Conf, all: Form, done: Form, n: nat)
    returns (now: Form)
    requires p.Sound() && p.k.Ok() && FallbackOk(p.k, fallback) && Tokens(p.g, all)
      && JustifiedWith(p, fallback, c, all, done)
    ensures RunWith(p.k, fallback, c, n).Some? ==>
      JustifiedWith(p, fallback, RunWith(p.k, fallback, c, n).value, all, now)
    decreases n
  {
    hide Generated.Sound, InvWith, ReadSentence, StackOk;
    now := done;
    if n > 0 && c.Running? && c.input != [] {
      var x, rest := c.input[0], c.input[1..];
      assert c.input == [x] + rest;
      TokensLast(p.g, done, c.input);
      var u := TurnWithSound(p, fallback, c.stack, x, rest, done);
      if TurnWith(p.k, fallback, c.stack, c.input).Some? {
        now := RunWithSound(p, fallback, TurnWith(p.k, fallback, c.stack, c.input).value, all, u, n - 1);
      }
    }
  }

  lemma TokensLast(g: Grammar, done: Form, input: Form)
    requires Tokens(g, done + input)
    ensures Tokens(g, input)
  {
    forall i | 0 <= i < |input| ensures g.Terminal(input[i]) {
      assert (done + input)[|done| + i] == input[i];
    }
  }

  /** With fallback tokens, too, a run never breaks, and acceptance means that the tokens shifted, each
      read as itself or as a token it may stand in for, are a sentence and an initial part of the input. */
  lemma AcceptsReadSentences(p: Generated, fallback: seq<nat>, input: Form, n: nat)
    requires p.Sound() && p.k.Ok() && FallbackOk(p.k, fallback) && Tokens(p.g, input)
    ensures StackOk(p.k, [BOTTOM]) && RunWith(p.k, fallback, Start(input), n) != Some(Broken)
    ensures RunWith(p.k, fallback, Start(input), n).Some? && RunWith(p.k, fallback, Start(input), n).value.Accepted? ==>
      exists done :: done + RunWith(p.k, fallback, Start(input), n).value.input == input
        && ReadSentence(p, fallback, done)
  {
    StartJustified(p.g, p.states, p.k, input);
    assert InvAs(p, fallback, [BOTTOM], [], [BOTTOM], []);
    assert [] + input == input;
    var now := RunWithSound(p, fallback, Start(input), input, [], n);
  }
}
