/** The generated parser as its callers see it: an object that is handed one token at a time. */
module Parsers {
  import opened Grammars
  import opened Closures
  import opened Driver
  import opened ParserSoundness
  import opened Forests
  import opened ParserCompleteness
  import opened ParserTermination
  import opened LalrTermination
  import opened ParserErrors

  /** What one call of Parse does on the token `x`, in at most `n` turns: with an empty stack the
      end marker is ignored, and any other token starts a new parse. */
  function Call(k: Constants, stack: seq<StackEntry>, x: nat, n: nat): Conf
    requires k.Ok() && (stack != [] ==> StackOk(k, stack))
  {
    if stack != [] then Run(k, Running(stack, [x]), n)
    else if x == 0 then Running([], [])
    else Run(k, Start([x]), n)
  }

  /** The call ends, given all the turns it wants. */
  ghost predicate CallEverEnds(k: Constants, stack: seq<StackEntry>, x: nat)
    requires k.Ok() && (stack != [] ==> StackOk(k, stack))
  {
    exists m: nat :: Ended(Call(k, stack, x, m))
  }

  /** What the parser's owner gets to see: the %parse_accept, %syntax_error and %stack_overflow code
      run on these. */
  datatype Event = Proceeds | Accepts | Fails | Overflows

  function EventOf(c: Conf): Event {
    match c
    case Running(_, _) => Proceeds
    case Accepted(_) => Accepts
    case SyntaxError => Fails
    case Overflow => Overflows
    case Broken => Fails
  }

  /** What is left on the stack: accepting and overflowing both empty it. */
  function StackIn(c: Conf): seq<StackEntry> {
    if c.Running? then c.stack else []
  }

  /** What a parser with this stack and this last event is doing: `c` is over, or still running. */
  predicate Shows(e: Event, c: Conf, stack: seq<StackEntry>) {
    e == EventOf(c) && c != Broken && (e != Fails ==> stack == StackIn(c))
  }

  ghost predicate ConfOk(k: Constants, c: Conf) {
    k.Ok() && (c.Running? ==> StackOk(k, c.stack))
  }

  /** The stack of a running parser whose tokens so far are `shifted`. */
  ghost predicate Live(p: Generated, stack: seq<StackEntry>, shifted: Form)
    requires p.k.Ok()
  {
    Inv(p.g, p.states, p.k, stack, shifted) && StackOk(p.k, stack) && Tokens(p.g, shifted)
  }

  /** A turn on the token `x` keeps the parser live or ends its run. */
  lemma LiveTurn(p: Generated, stack: seq<StackEntry>, shifted: Form, x: nat) returns (now: Form)
    requires p.Sound() && Live(p, stack, shifted) && p.g.Terminal(x)
    ensures var c := Turn(p.k, stack, [x]);
      && c != Broken
      && (c.Running? ==> Live(p, c.stack, now) && (c.input == [] || c.input == [x]))
      && (c.Running? && c.input == [] ==> now == shifted + [x])
      && (c.Running? && c.input == [x] ==> now == shifted)
      && (c.Accepted? ==> Derives(p.g, [p.g.start], now))
  {
    assert StackOk(p.k, stack) && p.k.Ok();
    hide Built, TablesSound, Inv, Turn, Derives;
    now := TurnSound(p.g, p.lambda, p.first, p.states, p.bplp, p.k, stack, [x], shifted + [x], shifted);
    var c := Turn(p.k, stack, [x]);
    if c.Running? {
      TurnKeepsRest(p.k, stack, x, []);
      assert |now| + |c.input| == |shifted| + 1;
      assert now == (now + c.input)[..|now|] == (shifted + [x])[..|now|];
    }
  }

  lemma LiveStack(p: Generated, stack: seq<StackEntry>, shifted: Form)
    requires p.Sound()
    ensures p.k.Ok() && (stack != [] && Live(p, stack, shifted) ==> StackOk(p.k, stack))
  {
  }

  lemma StartLive(p: Generated)
    requires p.Sound()
    ensures p.k.Ok() && Live(p, [BOTTOM], []) && StackOk(p.k, [BOTTOM])
  {
    assert Majors([BOTTOM]) == [];
    DerivesRefl(p.g, []);
  }

  lemma LiveFacts(p: Generated, stack: seq<StackEntry>, shifted: Form)
    requires p.Sound() && Live(p, stack, shifted)
    ensures p.k.Ok() && StackOk(p.k, stack)
  {
  }

  /** `left` more turns from `c` complete `n` turns from `start`. */
  ghost predicate OnTheWay(k: Constants, start: Conf, n: nat, c: Conf, left: nat) {
    ConfOk(k, start) && ConfOk(k, c) && Run(k, start, n) == Run(k, c, left)
  }

  lemma WayStarts(k: Constants, stack: seq<StackEntry>, x: nat, n: nat)
    requires k.Ok() && StackOk(k, stack)
    ensures OnTheWay(k, Running(stack, [x]), n, Running(stack, [x]), n) && Shows(Proceeds, Running(stack, [x]), stack)
  {
  }

  lemma WayTurns(k: Constants, start: Conf, n: nat, stack: seq<StackEntry>, x: nat, left: nat)
    requires OnTheWay(k, start, n, Running(stack, [x]), left) && left > 0
    ensures k.Ok() && StackOk(k, stack) && OnTheWay(k, start, n, Turn(k, stack, [x]), left - 1)
  {
  }

  lemma WayEnds(k: Constants, start: Conf, n: nat, c: Conf, left: nat)
    requires OnTheWay(k, start, n, c, left) && (left == 0 || Ended(c))
    ensures ConfOk(k, start) && c == Run(k, start, n)
  {
  }

  /** No form derives itself, or lemon made the parser of an LALR(1) grammar: two reasons why every call
      ends. */
  ghost predicate Deals(p: Generated) {
    !Cyclic(p.g) || Settled(p)
  }

  lemma DealsEnds(p: Generated, stack: seq<StackEntry>, x: nat, n: nat)
    requires p.Sound() && Deals(p) && ValidStack(p.states, stack) && StackOk(p.k, stack) && p.g.Terminal(x)
      && n >= TurnBound(p)
    ensures p.k.Ok() && Ended(Run(p.k, Running(stack, [x]), n))
  {
    hide Generated.Sound, Settled, ValidStack, StackOk, Run, TurnBound, Cyclic, Ended;
    if !Cyclic(p.g) {
      TokenEnds(p, stack, x, n);
    } else {
      SettledEnds(p, stack, x, n);
    }
  }

  /** Whatever the grammar, a call deals with its token in a number of turns that depends on the grammar
      and the depth of the stack only, or never. */
  lemma CallEnds(p: Generated, stack: seq<StackEntry>, shifted: Form, x: nat, n: nat)
    requires p.Sound() && (p.k.Ok() && stack != [] ==> Live(p, stack, shifted)) && p.g.Terminal(x)
    ensures p.k.Ok() && (stack != [] ==> StackOk(p.k, stack))
    ensures n >= TurnBound(p) ==>
      (Ended(Call(p.k, stack, x, n)) <==> CallEverEnds(p.k, stack, x))
    ensures n >= TurnBound(p) && Deals(p) ==> Ended(Call(p.k, stack, x, n))
  {
    hide Generated.Sound, Deals, TurnBound, Run, ValidStack, Ended, Call, CallEverEnds, EverEnds;
    var from := CallIsRun(p, stack, shifted, x, n);
    if n >= TurnBound(p) {
      EndsSoon(p, from, x, n);
      if Deals(p) {
        DealsEnds(p, from, x, n);
      }
    }
  }

  /** A call is a run, or ends at once: an end marker that comes first is ignored. */
  lemma CallIsRun(p: Generated, stack: seq<StackEntry>, shifted: Form, x: nat, n: nat) returns (from: seq<StackEntry>)
    requires p.Sound() && (p.k.Ok() && stack != [] ==> Live(p, stack, shifted))
    ensures p.k.Ok() && (stack != [] ==> StackOk(p.k, stack)) && ValidStack(p.states, from) && StackOk(p.k, from)
    ensures Call(p.k, stack, x, n) == Run(p.k, Running(from, [x]), n)
      || (Ended(Call(p.k, stack, x, n)) && CallEverEnds(p.k, stack, x))
    ensures (CallEverEnds(p.k, stack, x) <==> EverEnds(p.k, from, x))
      || (Ended(Call(p.k, stack, x, n)) && CallEverEnds(p.k, stack, x))
  {
    StartLive(p);
    LivePath(p, [BOTTOM], []);
    if stack != [] {
      LivePath(p, stack, shifted);
    }
    from := if stack != [] then stack else [BOTTOM];
    hide Generated.Sound, ValidStack, Run;
    if stack == [] && x == 0 {
      assert Ended(Call(p.k, stack, x, n));
    } else {
      if m: nat :| Ended(Call(p.k, stack, x, m)) {
        assert Ended(Run(p.k, Running(from, [x]), m));
      }
      if m: nat :| Ended(Run(p.k, Running(from, [x]), m)) {
        assert Ended(Call(p.k, stack, x, m));
      }
    }
  }

  lemma LivePath(p: Generated, stack: seq<StackEntry>, shifted: Form)
    requires p.Sound() && p.k.Ok() && Live(p, stack, shifted)
    ensures ValidStack(p.states, stack) && StackOk(p.k, stack)
  {
  }

  // ----- why a call fails

  /** The stack that a call starts from. */
  function From(stack: seq<StackEntry>): seq<StackEntry> {
    if stack == [] then [BOTTOM] else stack
  }

  /** On the token `x`, reductions lead from one stack to the other. */
  ghost predicate Reaches(k: Constants, from: seq<StackEntry>, x: nat, stack: seq<StackEntry>)
    requires k.Ok()
  {
    StackOk(k, from) && exists m :: Run(k, Running(from, [x]), m) == Running(stack, [x])
  }

  /** The token is in error on this stack, which reductions have led to. */
  ghost predicate FailsOn(p: Generated, from: seq<StackEntry>, x: nat, stack: seq<StackEntry>)
    requires p.k.Ok()
  {
    Reaches(p.k, from, x, stack) && StackOk(p.k, stack) && Erroneous(p, stack, x)
  }

  /** The call has failed on the token `x`: reductions have led to a stack on which it is in error, and this
      stack is kept, or emptied if `x` is the end marker. */
  ghost predicate Failed(p: Generated, from: seq<StackEntry>, x: nat, stack: seq<StackEntry>)
    requires p.k.Ok()
  {
    if x == 0 then stack == [] && exists last :: FailsOn(p, from, x, last) else FailsOn(p, from, x, stack)
  }

  /** Reductions lead to a stack that is full, and one more entry is to be pushed. */
  ghost predicate OverflowsOn(p: Generated, from: seq<StackEntry>, x: nat)
    requires p.k.Ok()
  {
    exists stack :: Reaches(p.k, from, x, stack) && StackOk(p.k, stack) && Full(p, stack, x)
  }

  lemma ReachesItself(k: Constants, from: seq<StackEntry>, x: nat)
    requires k.Ok() && StackOk(k, from)
    ensures Reaches(k, from, x, from)
  {
    assert Run(k, Running(from, [x]), 0) == Running(from, [x]);
  }

  lemma ReachesNext(k: Constants, from: seq<StackEntry>, x: nat, stack: seq<StackEntry>)
    requires k.Ok() && StackOk(k, stack) && Reaches(k, from, x, stack)
    ensures var c := Turn(k, stack, [x]); c.Running? && c.input == [x] ==> Reaches(k, from, x, c.stack)
  {
    hide StackOk, Turn, Run;
    var m :| Run(k, Running(from, [x]), m) == Running(stack, [x]);
    RunAdd(k, Running(from, [x]), m, 1);
    OneTurn(k, stack, [x]);
  }

  /** What the next turn says of the whole call. */
  lemma LoopFacts(p: Generated, from: seq<StackEntry>, x: nat, stack: seq<StackEntry>)
    requires p.k.Ok() && StackOk(p.k, stack) && Reaches(p.k, from, x, stack)
    ensures Erroneous(p, stack, x) ==> Failed(p, from, x, if x == 0 then [] else stack)
    ensures Full(p, stack, x) ==> OverflowsOn(p, from, x)
    ensures var c := Turn(p.k, stack, [x]); c.Running? && c.input == [x] ==> Reaches(p.k, from, x, c.stack)
  {
    hide StackOk, Turn, Reaches, Erroneous, Full;
    assert Erroneous(p, stack, x) ==> FailsOn(p, from, x, stack);
    ReachesNext(p.k, from, x, stack);
  }

  /** A turn of a live parser fails exactly on a token in error, and overflows exactly if the stack is full
      and one more entry is to be pushed. */
  lemma LiveTurnEnds(p: Generated, stack: seq<StackEntry>, shifted: Form, x: nat)
    requires p.Sound() && p.k.Ok() && Live(p, stack, shifted) && StackOk(p.k, stack) && p.g.Terminal(x)
    ensures Turn(p.k, stack, [x]) == SyntaxError <==> Erroneous(p, stack, x)
    ensures Turn(p.k, stack, [x]) == Overflow <==> Full(p, stack, x)
  {
    hide Generated.Sound, Turn, StackOk, Full, Erroneous;
    LivePath(p, stack, shifted);
    TurnFails(p, stack, x);
    TurnOverflows(p, stack, x);
  }

  class Parser {
    const k: Constants
    ghost const p: Generated
    var yyidx: int
    const yystack: array<StackEntry>
    /** The tokens shifted since the stack was last empty. */
    ghost var shifted: Form

    ghost predicate Valid()
      reads this, yystack
    {
      && p.Sound() && p.k == k && yystack.Length == k.depth && -1 <= yyidx < yystack.Length
      && (yyidx >= 0 ==> Live(p, Stack(), shifted))
    }

    ghost function Stack(): seq<StackEntry>
      reads this, yystack
    {
      if -1 <= yyidx < yystack.Length then yystack[..yyidx + 1] else []
    }

    lemma ValidFacts()
      requires Valid()
      ensures p.Sound() && p.k == k && k.Ok() && -1 <= yyidx < yystack.Length == k.depth
      ensures yyidx >= 0 ==> |Stack()| == yyidx + 1 && StackOk(k, Stack()) && Live(p, Stack(), shifted)
      ensures yyidx < 0 ==> Stack() == []
    {
      LiveStack(p, Stack(), shifted);
    }

    constructor (ghost p: Generated, k: Constants)
      requires p.Sound() && p.k == k
      ensures Valid() && Stack() == [] && this.p == p && this.k == k && fresh(yystack)
    {
      this.k, this.p := k, p;
      yyidx := -1;
      yystack := new StackEntry[k.depth](_ => BOTTOM);
      shifted := [];
    }

    /** yy_shift; on overflow the stack is popped to nothing. */
    method Shift(stateno: nat, major: nat) returns (overflow: bool)
      requires -1 <= yyidx < yystack.Length
      modifies this`yyidx, yystack
      ensures -1 <= yyidx < yystack.Length
      ensures overflow <==> |old(Stack())| >= yystack.Length
      ensures Stack() == if overflow then [] else old(Stack()) + [StackEntry(stateno, major)]
    {
      yyidx := yyidx + 1;
      overflow := yyidx >= yystack.Length;
      if overflow {
        yyidx := yyidx - 1;
        while yyidx >= 0
          invariant -1 <= yyidx < yystack.Length
        {
          yyidx := yyidx - 1;
        }
      } else {
        yystack[yyidx] := StackEntry(stateno, major);
      }
    }

    /** yy_reduce: `c` is what the driver's reduction comes to. */
    method Reduce(rule: nat, ghost input: Form) returns (e: Event, ghost c: Conf)
      requires k.Ok() && k.depth == yystack.Length && 0 <= yyidx < yystack.Length && StackOk(k, Stack())
        && rule < |k.rules|
      requires Driver.Reduce(k, Stack(), rule, input) != Broken
      modifies this`yyidx, yystack
      ensures -1 <= yyidx < yystack.Length
      ensures c == Driver.Reduce(k, old(Stack()), rule, input) && e == EventOf(c)
      ensures Stack() == StackIn(c)
    {
      c := Driver.Reduce(k, Stack(), rule, input);
      ghost var n := |k.rules[rule].rhs|;
      ghost var popped := Stack()[..|Stack()| - n];
      yyidx := yyidx - |k.rules[rule].rhs|;
      assert Stack() == popped;
      var act := k.tables.FindReduceAction(yystack[yyidx].stateno, k.rules[rule].lhs);
      if act < k.sz.nstate {
        var overflow := Shift(act, k.rules[rule].lhs);
        e := if overflow then Overflows else Proceeds;
      } else {
        Accept();
        e := Accepts;
      }
    }

    /** yy_accept */
    method Accept()
      requires -1 <= yyidx < yystack.Length
      modifies this`yyidx
      ensures yyidx == -1 && Stack() == []
    {
      while yyidx >= 0
        invariant -1 <= yyidx < yystack.Length
      {
        yyidx := yyidx - 1;
      }
    }

    /** yy_parse_failed */
    method ParseFailed()
      requires -1 <= yyidx < yystack.Length
      modifies this`yyidx
      ensures yyidx == -1 && Stack() == []
    {
      while yyidx >= 0
        invariant -1 <= yyidx < yystack.Length
      {
        yyidx := yyidx - 1;
      }
    }

    /** The branches of Parse's loop; the token stays `pending` until it is shifted, or the run ends.  A token
        in error is thrown away; the end marker in error empties the stack. */
    method Step(yymajor: nat) returns (e: Event, pending: bool, ghost c: Conf)
      requires k.Ok() && k.depth == yystack.Length && 0 <= yyidx < yystack.Length && StackOk(k, Stack())
      requires Driver.Turn(k, Stack(), [yymajor]) != Broken
      modifies this`yyidx, yystack
      ensures -1 <= yyidx < yystack.Length
      ensures c == Driver.Turn(k, old(Stack()), [yymajor]) && e == EventOf(c)
      ensures pending <==> c.Running? && c.input != []
      ensures pending ==> yyidx >= 0
      ensures e != Fails ==> Stack() == StackIn(c)
      ensures e == Fails ==> Stack() == if yymajor == 0 then [] else old(Stack())
    {
      c := Driver.Turn(k, Stack(), [yymajor]);
      var act := k.tables.FindShiftAction(yystack[yyidx].stateno, yymajor);
      assert Top(Stack()) == yystack[yyidx].stateno;
      pending := false;
      if act < k.sz.nstate {
        var overflow := Shift(act, yymajor);
        e := if overflow then Overflows else Proceeds;
        pending := yymajor == 0 && !overflow;
      } else if act < k.sz.nstate + k.sz.nrule {
        e, c := Reduce(act - k.sz.nstate, [yymajor]);
        pending := e == Proceeds;
      } else if act == k.sz.nstate + k.sz.nrule {
        e := Fails;
        if yymajor == 0 {
          ParseFailed();
        }
      } else {
        Accept();
        e := Accepts;
      }
    }

    /** One turn of Parse's loop, and what it keeps. */
    method Turn(yymajor: nat) returns (e: Event, pending: bool, ghost c: Conf)
      requires Valid() && yyidx >= 0 && p.g.Terminal(yymajor)
      modifies this, yystack
      ensures Valid() && c == Driver.Turn(k, old(Stack()), [yymajor]) && Shows(e, c, Stack()) && ConfOk(k, c)
      ensures pending ==> yyidx >= 0 && c == Running(Stack(), [yymajor]) && shifted == old(shifted)
      ensures !pending ==> Ended(c) && (e == Proceeds ==> shifted == old(shifted) + [yymajor])
      ensures e == Accepts ==> Derives(p.g, [p.g.start], shifted)
      ensures p.k.Ok() && StackOk(p.k, old(Stack()))
      ensures e == Fails <==> Erroneous(p, old(Stack()), yymajor)
      ensures e == Fails ==> Stack() == if yymajor == 0 then [] else old(Stack())
      ensures e == Overflows <==> Full(p, old(Stack()), yymajor)
    {
      hide Sound, Inv, Derives, Tokens, Driver.Turn, StackOk, Full, Erroneous;
      LiveFacts(p, Stack(), shifted);
      LiveTurnEnds(p, Stack(), shifted, yymajor);
      ghost var now := LiveTurn(p, Stack(), shifted, yymajor);
      e, pending, c := Step(yymajor);
      if e != Fails {
        shifted := now;
      }
      LiveStack(p, Stack(), shifted);
    }

    /** Parse's loop, in at most `fuel` turns. */
    method Loop(yymajor: nat, fuel: nat) returns (e: Event, ghost c: Conf)
      requires Valid() && yyidx >= 0 && p.g.Terminal(yymajor)
      modifies this, yystack
      ensures Valid() && ConfOk(k, Running(old(Stack()), [yymajor]))
      ensures c == Run(k, Running(old(Stack()), [yymajor]), fuel) && Shows(e, c, Stack())
      ensures e == Accepts ==> Derives(p.g, [p.g.start], shifted)
      ensures k.Ok() && p.k == k
      ensures e == Fails ==> Failed(p, old(Stack()), yymajor, Stack())
      ensures e == Overflows ==> OverflowsOn(p, old(Stack()), yymajor)
    {
      hide *;
      ghost var start := Running(Stack(), [yymajor]);
      e, c := Proceeds, start;
      ValidFacts();
      WayStarts(k, Stack(), yymajor, fuel);
      ReachesItself(k, Stack(), yymajor);
      var left: nat := fuel;
      var pending := true;
      while pending && left > 0
        invariant Valid() && Shows(e, c, Stack()) && OnTheWay(k, start, fuel, c, left)
        invariant pending ==> yyidx >= 0 && c == Running(Stack(), [yymajor])
        invariant !pending ==> Ended(c)
        invariant e == Accepts ==> Derives(p.g, [p.g.start], shifted)
        invariant pending ==> Reaches(k, start.stack, yymajor, Stack())
        invariant e == Fails ==> Failed(p, start.stack, yymajor, Stack())
        invariant e == Overflows ==> OverflowsOn(p, start.stack, yymajor)
        decreases left
      {
        ValidFacts();
        LoopFacts(p, start.stack, yymajor, Stack());
        WayTurns(k, start, fuel, Stack(), yymajor, left);
        e, pending, c := Turn(yymajor);
        left := left - 1;
      }
      WayEnds(k, start, fuel, c, left);
    }

    /** Parse: one token.  `e` is Proceeds when the token has been dealt with, and also when the
        turns have run out (then `c` still has the token to read). */
    method Parse(yymajor: nat, fuel: nat) returns (e: Event, ghost c: Conf)
      requires Valid() && p.g.Terminal(yymajor)
      modifies this, yystack
      ensures Valid() && k.Ok() && (old(Stack()) != [] ==> StackOk(k, old(Stack())))
      ensures c == Call(k, old(Stack()), yymajor, fuel) && Shows(e, c, Stack())
      ensures e == Accepts ==> Derives(p.g, [p.g.start], shifted)
      ensures p.k == k && (e == Fails ==> Failed(p, From(old(Stack())), yymajor, Stack()))
      ensures e == Overflows ==> OverflowsOn(p, From(old(Stack())), yymajor)
      ensures fuel >= TurnBound(p) ==>
        (Ended(c) <==> CallEverEnds(k, old(Stack()), yymajor))
      ensures fuel >= TurnBound(p) && Deals(p) ==> Ended(c)
    {
      CallEnds(p, Stack(), shifted, yymajor, fuel);
      LiveStack(p, Stack(), shifted);
      hide Sound, Inv, Derives, Tokens, Run, StackOk, Deals, TurnBound, CallEverEnds, Failed, OverflowsOn;
      if yyidx < 0 {
        if yymajor == 0 {
          return Proceeds, Running([], []);
        }
        yyidx := 0;
        yystack[0] := BOTTOM;
        shifted := [];
        StartLive(p);
        assert Stack() == [BOTTOM];
      }
      e, c := Loop(yymajor, fuel);
    }
  }

  // ----- whole token streams

  /** Handing over `tokens` one call at a time, each call with `n` turns, until the run ends. */
  function Calls(k: Constants, c: Conf, tokens: Form, n: nat): Conf
    requires k.Ok() && (c.Running? && c.stack != [] ==> StackOk(k, c.stack))
    decreases |tokens|
  {
    if tokens == [] || !c.Running? || c.input != [] then More(c, tokens)
    else CallKeeps(k, c.stack, tokens[0], n); Calls(k, Call(k, c.stack, tokens[0], n), tokens[1..], n)
  }

  lemma {:induction false} RunKeeps(k: Constants, c: Conf, n: nat)
    requires ConfOk(k, c)
    ensures ConfOk(k, Run(k, c, n))
    decreases n
  {
    if n > 0 && !Ended(c) {
      RunKeeps(k, Turn(k, c.stack, c.input), n - 1);
    }
  }

  lemma CallKeeps(k: Constants, stack: seq<StackEntry>, x: nat, n: nat)
    requires k.Ok() && (stack != [] ==> StackOk(k, stack))
    ensures var c := Call(k, stack, x, n); c.Running? && c.stack != [] ==> StackOk(k, c.stack)
  {
    RunKeeps(k, Running([BOTTOM], [x]), n);
    if stack != [] {
      RunKeeps(k, Running(stack, [x]), n);
    }
  }

  /** A call goes through the turns of a run over the whole input. */
  lemma {:induction false} RunLocal(k: Constants, stack: seq<StackEntry>, x: nat, rest: Form, n: nat) returns (m: nat)
    requires k.Ok() && StackOk(k, stack)
    ensures var c := Run(k, Running(stack, [x]), n);
      && Run(k, Running(stack, [x] + rest), m) == More(c, rest)
      && (c.Running? ==> StackOk(k, c.stack) && (c.input == [] || m == n))
    decreases n
  {
    if n == 0 {
      m := 0;
    } else {
      TurnKeepsRest(k, stack, x, rest);
      var c := Turn(k, stack, [x]);
      assert ConfOk(k, c);
      if c.Running? && c.input == [x] {
        m := RunLocal(k, c.stack, x, rest, n - 1);
        m := m + 1;
      } else {
        m := 1;
        assert Run(k, c, n - 1) == c;
        assert Run(k, More(c, rest), 0) == More(c, rest);
      }
    }
  }

  /** The calls on a token stream are the turns of one run; if they have not ended it, either the
      stream or some call's turns have run out. */
  lemma {:induction false} CallsRun(k: Constants, stack: seq<StackEntry>, tokens: Form, n: nat) returns (m: nat)
    requires k.Ok() && StackOk(k, stack)
    ensures var c := Calls(k, Running(stack, []), tokens, n);
      && Run(k, Running(stack, tokens), m) == c
      && (c.Running? ==> c.input == [] || m >= n)
    decreases |tokens|
  {
    if tokens == [] {
      m := 0;
    } else {
      var x, rest := tokens[0], tokens[1..];
      assert [x] + rest == tokens;
      m := RunLocal(k, stack, x, rest, n);
      var c := Run(k, Running(stack, [x]), n);
      assert c == Call(k, stack, x, n);
      if c.Running? && c.input == [] {
        assert [] + rest == rest;
        var m' := CallsRun(k, c.stack, rest, n);
        RunAdd(k, Running(stack, tokens), m, m');
        m := m + m';
      }
    }
  }

  lemma FirstCall(k: Constants, tokens: Form, n: nat) returns (m: nat)
    requires k.Ok() && StackOk(k, [BOTTOM]) && tokens != [] && tokens[0] != 0
    ensures Calls(k, Running([], []), tokens, n) == Calls(k, Running([BOTTOM], []), tokens, n)
      == Run(k, Start(tokens), m)
  {
    m := CallsRun(k, [BOTTOM], tokens, n);
  }

  /** A run that ends within `n` turns ends the same way when every call has `n` turns. */
  lemma CallsEnd(k: Constants, tokens: Form, n: nat)
    requires k.Ok() && StackOk(k, [BOTTOM]) && !Run(k, Start(tokens), n).Running?
    ensures Calls(k, Running([BOTTOM], []), tokens, n) == Run(k, Start(tokens), n)
  {
    var m := CallsRun(k, [BOTTOM], tokens, n);
    var c := Run(k, Start(tokens), n);
    if m >= n {
      RunAdd(k, Start(tokens), n, m - n);
    } else {
      RunAdd(k, Start(tokens), m, n - m);
    }
  }

  /** A parser for a grammar without conflicts, fed token by token: a non-empty string followed by
      the end marker is accepted if and only if it is a sentence that the stack is deep enough for. */
  lemma CallsAcceptSentences(p: Generated, w: Form)
    requires p.Complete() && AllTerminal(p.g, w) && w != [] && w[0] != 0
    ensures p.k.Ok()
    ensures (exists n :: Calls(p.k, Running([], []), w + [0], n) == Accepted([0])) <==> FitsIn(p.g, w, p.k.depth)
    ensures Derives(p.g, [p.g.start], w) ==>
      exists n :: Calls(p.k, Running([], []), w + [0], n) in {Accepted([0]), Overflow}
  {
    hide Generated.Complete, Derives, AllTerminal, Run, Calls, StackOk, FitsIn;
    AcceptsExactlySentences(p, w);
    if n: nat :| Calls(p.k, Running([], []), w + [0], n) == Accepted([0]) {
      var m := FirstCall(p.k, w + [0], n);
    }
    if FitsIn(p.g, w, p.k.depth) {
      var n: nat :| Run(p.k, Start(w + [0]), n) == Accepted([0]);
      var m := FirstCall(p.k, w + [0], n);
      CallsEnd(p.k, w + [0], n);
    }
    if Derives(p.g, [p.g.start], w) {
      var n: nat :| Run(p.k, Start(w + [0]), n) in {Accepted([0]), Overflow};
      var m := FirstCall(p.k, w + [0], n);
      CallsEnd(p.k, w + [0], n);
    }
  }

  /** The calls on a token stream all end. */
  lemma {:induction false} CallsFinish(p: Generated, stack: seq<StackEntry>, tokens: Form, n: nat)
    requires p.Sound() && Deals(p) && n >= TurnBound(p) && Tokens(p.g, tokens)
    requires ValidStack(p.states, stack) && p.k.Ok() && StackOk(p.k, stack)
    ensures var c := Calls(p.k, Running(stack, []), tokens, n);
      Ended(c) && (tokens != [] && tokens[|tokens| - 1] == 0 ==> !c.Running?)
    decreases |tokens|
  {
    hide Generated.Sound, Deals, TurnBound, Run, ValidStack, StackOk;
    if tokens != [] {
      var x := tokens[0];
      DealsEnds(p, stack, x, n);
      RunKeepsPath(p, stack, x, n);
      CallKeeps(p.k, stack, x, n);
      StackNotEmpty(p.k, stack);
      var c := Call(p.k, stack, x, n);
      assert c == Run(p.k, Running(stack, [x]), n);
      if c.Running? {
        CallsFinish(p, c.stack, tokens[1..], n);
      }
    }
  }

  lemma StackNotEmpty(k: Constants, stack: seq<StackEntry>)
    ensures StackOk(k, stack) ==> stack != []
  {
  }

  /** Calls that come to an end with some number of turns come to the same one with enough of them. */
  lemma {:induction false} CallsSame(p: Generated, stack: seq<StackEntry>, tokens: Form, m: nat, n: nat)
    requires p.Sound() && n >= TurnBound(p) && Tokens(p.g, tokens)
    requires ValidStack(p.states, stack) && p.k.Ok() && StackOk(p.k, stack)
    requires !Calls(p.k, Running(stack, []), tokens, m).Running?
    ensures Calls(p.k, Running(stack, []), tokens, n) == Calls(p.k, Running(stack, []), tokens, m)
    decreases |tokens|
  {
    hide Generated.Sound, TurnBound, Run, ValidStack, StackOk;
    if tokens != [] {
      var x := tokens[0];
      StackNotEmpty(p.k, stack);
      CallKeeps(p.k, stack, x, m);
      RunKeepsPath(p, stack, x, m);
      var c := Call(p.k, stack, x, m);
      assert c == Run(p.k, Running(stack, [x]), m) && Ended(c);
      assert EverEnds(p.k, stack, x);
      EndsSoon(p, stack, x, n);
      SameEnd(p.k, stack, x, m, n);
      assert Call(p.k, stack, x, n) == c;
      if c.Running? {
        CallsSame(p, c.stack, tokens[1..], m, n);
      }
    }
  }

  lemma SameEnd(k: Constants, stack: seq<StackEntry>, x: nat, m: nat, n: nat)
    requires k.Ok() && StackOk(k, stack)
    requires Ended(Run(k, Running(stack, [x]), m)) && Ended(Run(k, Running(stack, [x]), n))
    ensures Run(k, Running(stack, [x]), m) == Run(k, Running(stack, [x]), n)
  {
    RunAdd(k, Running(stack, [x]), m, n);
    RunAdd(k, Running(stack, [x]), n, m);
    EndedStays(k, Run(k, Running(stack, [x]), m), n);
    EndedStays(k, Run(k, Running(stack, [x]), n), m);
    assert m + n == n + m;
  }

  /** Without conflicts the parser recognises: with a number of turns a call that depends on the grammar and
      the depth of the stack only, those strings are accepted that are sentences that fit; and, if the
      grammar is LALR(1), every string comes to an end: it overflows exactly if a full stack was met, and
      otherwise, if the parser accepts at the end marker only, it is in error exactly if it is no sentence. */
  lemma CallsDecide(p: Generated, w: Form, n: nat)
    requires p.Complete() && n >= TurnBound(p) && AllTerminal(p.g, w) && w != [] && 0 !in w
    ensures p.k.Ok() && StackOk(p.k, [BOTTOM])
    ensures var c := Calls(p.k, Running([], []), w + [0], n);
      && (c == Accepted([0]) <==> FitsIn(p.g, w, p.k.depth))
      && (Settled(p) || !Cyclic(p.g) ==> !c.Running?)
      && (!c.Running? ==> (c == Overflow <==> FullMet(p, w + [0])))
      && (c == SyntaxError ==> !Derives(p.g, [p.g.start], w))
      && (!c.Running? && AtEndOnly(p) && !FullMet(p, w + [0]) ==>
            (c == SyntaxError <==> !Derives(p.g, [p.g.start], w)))
  {
    CompleteIsSound(p);
    assert Tokens(p.g, w + [0]) && p.g.Valid();
    hide Generated.Complete, Generated.Sound, Cyclic, Settled, TurnBound, Run, Calls, Tokens, FitsIn, StackOk, Derives,
      FullMet, AtEndOnly, AllTerminal;
    CallsAcceptSentences(p, w);
    StartLive(p);
    LivePath(p, [BOTTOM], []);
    var i := FirstCall(p.k, w + [0], n);
    if Settled(p) || !Cyclic(p.g) {
      CallsFinish(p, [BOTTOM], w + [0], n);
    }
    if FitsIn(p.g, w, p.k.depth) {
      var m: nat :| Calls(p.k, Running([], []), w + [0], m) == Accepted([0]);
      var j := FirstCall(p.k, w + [0], m);
      CallsSame(p, [BOTTOM], w + [0], m, n);
    }
    if !Run(p.k, Start(w + [0]), i).Running? {
      Outcomes(p, w, i);
    }
  }

  /** The empty string is never accepted, whether it is a sentence or not: Parse returns before its
      loop when its first token is the end marker. */
  lemma EmptyNeverAccepted(p: Generated, n: nat)
    requires p.Complete() && Derives(p.g, [p.g.start], [])
    ensures p.k.Ok() && StackOk(p.k, [BOTTOM])
    ensures Calls(p.k, Running([], []), [0], n) == Running([], [])
    ensures exists m :: Run(p.k, Start([0]), m) in {Accepted([0]), Overflow}
  {
    hide Generated.Complete, Derives, Run;
    AcceptsExactlySentences(p, []);
    assert [] + [0] == [0];
    assert Calls(p.k, Running([], []), [0], n) == Calls(p.k, Call(p.k, [], 0, n), [], n);
  }
}
