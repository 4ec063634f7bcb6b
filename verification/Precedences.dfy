/** What declared precedences make of the actions of a state: said of the declarations and of the emitted
    tables. */
module Precedences {
  import opened Grammars
  import opened Closures
  import opened Lr0
  import opened Actions
  import opened Options
  import opened Tables
  import opened Driver
  import opened ParserCompleteness
  import opened StateActions
  import opened Preferences

  /** The precedence of a rule is that of its precedence symbol; negative if there is none. */
  function RulePrec(p: Precedence, r: nat): int {
    if r < |p.precsym| && p.precsym[r].Some? && p.precsym[r].value < |p.prec| then p.prec[p.precsym[r].value] else -1
  }

  function TokenPrec(p: Precedence, x: nat): int {
    if x < |p.prec| then p.prec[x] else -1
  }

  predicate Left(p: Precedence, x: nat) {
    x < |p.assoc| && p.assoc[x] == LEFT
  }

  predicate Right(p: Precedence, x: nat) {
    x < |p.assoc| && p.assoc[x] == RIGHT
  }

  /** Both have a precedence, and the rule's is higher, or the same with a token that associates to the
      left. */
  predicate RuleWins(p: Precedence, x: nat, r: nat) {
    && TokenPrec(p, x) >= 0 && RulePrec(p, r) >= 0
    && (TokenPrec(p, x) < RulePrec(p, r) || (TokenPrec(p, x) == RulePrec(p, r) && Left(p, x)))
  }

  /** The declarations say nothing: one of them has no precedence, or they have the same and the token does
      not associate. */
  predicate Silent(p: Precedence, x: nat, r: nat) {
    || TokenPrec(p, x) < 0 || RulePrec(p, r) < 0
    || (TokenPrec(p, x) == RulePrec(p, r) && !Left(p, x) && !Right(p, x))
  }

  /** Both rules have a precedence, and that of the second is higher. */
  predicate SecondWins(p: Precedence, r: nat, q: nat) {
    0 <= RulePrec(p, r) < RulePrec(p, q)
  }

  predicate RulesSilent(p: Precedence, r: nat, q: nat) {
    RulePrec(p, r) < 0 || RulePrec(p, q) < 0 || RulePrec(p, r) == RulePrec(p, q)
  }

  lemma ShiftMeets(p: Precedence, a: Action, b: Action)
    requires ListFits(p, [a, b]) && a.sp == b.sp && a.kind.SHIFT? && b.kind.REDUCE?
    ensures Beats(p, a, b) <==> !RuleWins(p, a.sp, b.arg)
    ensures Counted(p, a, b) == if Silent(p, a.sp, b.arg) then 1 else 0
  {
    assert [a, b][0] == a && [a, b][1] == b;
  }

  lemma RulesMeet(p: Precedence, a: Action, b: Action)
    requires ListFits(p, [a, b]) && a.sp == b.sp && a.kind.REDUCE? && b.kind.REDUCE?
    ensures Beats(p, a, b) <==> !SecondWins(p, a.arg, b.arg)
    ensures Counted(p, a, b) == if RulesSilent(p, a.arg, b.arg) then 1 else 0
  {
    assert [a, b][0] == a && [a, b][1] == b;
  }

  // ----- the champion of a sorted list

  /** In the list of a state all actions on a symbol but the first are reductions. */
  lemma LaterReduces(raw: seq<Action>, f: nat, n: nat)
    requires Raw(raw) && f < n < |raw| && raw[n].sp == raw[f].sp
    ensures raw[n].kind.REDUCE?
  {
  }

  /** No rule on `x` among those before `n` wins against the token. */
  ghost predicate NoneWins(p: Precedence, raw: seq<Action>, n: nat, x: nat) {
    forall m: nat :: m < n && m < |raw| && raw[m].sp == x && raw[m].kind.REDUCE? ==> !RuleWins(p, x, raw[m].arg)
  }

  /** The winner among the first `n`. */
  function Winner(p: Precedence, raw: seq<Action>, n: nat, x: nat): (c: Option<Action>)
    requires ListFits(p, raw) && n <= |raw|
    ensures c.Some? ==> c.value in raw[..n] && c.value.sp == x
    ensures c.None? ==> forall m :: 0 <= m < n ==> raw[m].sp != x
  {
    var front := raw[..n];
    assert forall m :: 0 <= m < n ==> front[m] == raw[m];
    Champion(p, front, x)
  }

  lemma WinnerNext(p: Precedence, raw: seq<Action>, n: nat, x: nat)
    requires ListFits(p, raw) && n < |raw|
    ensures var was, now := Winner(p, raw, n, x), Winner(p, raw, n + 1, x);
      && (raw[n].sp != x ==> now == was)
      && (raw[n].sp == x && was.None? ==> now == Some(raw[n]))
      && (raw[n].sp == x && was.Some? ==>
        ListFits(p, [was.value, raw[n]]) && now == Some(if Beats(p, was.value, raw[n]) then was.value else raw[n]))
  {
    ChampionNext(p, raw, n, x);
    hide Champion;
  }

  /** A shift is the winner as long as no rule wins against its token; after that it is a rule. */
  lemma {:induction false} ShiftStays(p: Precedence, raw: seq<Action>, f: nat, n: nat)
    requires Raw(raw) && ListFits(p, raw) && f < n <= |raw| && raw[f].kind.SHIFT?
    requires forall m :: 0 <= m < f ==> raw[m].sp != raw[f].sp
    ensures var c := Winner(p, raw, n, raw[f].sp);
      c.Some? && (if NoneWins(p, raw, n, raw[f].sp) then c == Some(raw[f]) else c.value.kind.REDUCE?)
    decreases n
  {
    var x := raw[f].sp;
    var last := n - 1;
    if n > f + 1 {
      ShiftStays(p, raw, f, last);
    }
    WinnerNext(p, raw, last, x);
    hide Winner, ListFits, RuleWins, Beats;
    if n > f + 1 && raw[last].sp == x {
      LaterReduces(raw, f, last);
      var c := Winner(p, raw, last, x).value;
      if c.kind.SHIFT? {
        ShiftMeets(p, c, raw[last]);
      }
    }
  }

  /** All rules on `x` have a precedence, and there is nothing else on it. */
  ghost predicate RulesOnly(p: Precedence, raw: seq<Action>, x: nat) {
    forall m: nat :: m < |raw| && raw[m].sp == x ==> raw[m].kind.REDUCE? && RulePrec(p, raw[m].arg) >= 0
  }

  /** The action has the highest precedence of those on its symbol before `n`, and is the first that has. */
  ghost predicate FirstHighest(p: Precedence, raw: seq<Action>, n: nat, c: Action) {
    forall m: nat :: m < n && m < |raw| && raw[m].sp == c.sp ==>
      && RulePrec(p, raw[m].arg) <= RulePrec(p, c.arg)
      && (RulePrec(p, raw[m].arg) == RulePrec(p, c.arg) ==> c.arg <= raw[m].arg)
  }

  lemma {:induction false} HighestStays(p: Precedence, raw: seq<Action>, x: nat, n: nat)
    requires ListFits(p, raw) && RulesOnly(p, raw, x) && Rising(raw, x) && n <= |raw|
    ensures var c := Winner(p, raw, n, x); c.Some? ==> FirstHighest(p, raw, n, c.value)
    decreases n
  {
    if n > 0 {
      var last := n - 1;
      HighestStays(p, raw, x, last);
      WinnerNext(p, raw, last, x);
      hide Winner, ListFits, Beats, RulesOnly, Rising, FirstHighest;
      HigherOf(p, raw, x, last, Winner(p, raw, last, x));
    } else {
      assert Winner(p, raw, 0, x) == None;
    }
  }

  /** The rules on `x` stand in their order. */
  ghost predicate Rising(raw: seq<Action>, x: nat) {
    forall i, j :: 0 <= i < j < |raw| && raw[i].sp == x && raw[j].sp == x ==> raw[i].arg <= raw[j].arg
  }

  /** The next rule takes the place of the highest so far only if it is higher. */
  lemma HigherOf(p: Precedence, raw: seq<Action>, x: nat, n: nat, was: Option<Action>)
    requires n < |raw| && RulesOnly(p, raw, x) && Rising(raw, x)
    requires if was.Some? then was.value in raw[..n] && was.value.sp == x && FirstHighest(p, raw, n, was.value)
      else forall m :: 0 <= m < n ==> raw[m].sp != x
    ensures raw[n].sp != x && was.Some? ==> FirstHighest(p, raw, n + 1, was.value)
    ensures raw[n].sp == x && was.None? ==> FirstHighest(p, raw, n + 1, raw[n])
    ensures raw[n].sp == x && was.Some? && ListFits(p, [was.value, raw[n]]) ==>
      FirstHighest(p, raw, n + 1, if Beats(p, was.value, raw[n]) then was.value else raw[n])
  {
    hide ListFits, RulePrec, Beats;
    if raw[n].sp == x && was.Some? && ListFits(p, [was.value, raw[n]]) {
      var i :| 0 <= i < n && raw[..n][i] == was.value;
      assert raw[i] == was.value;
      RulesMeet(p, was.value, raw[n]);
    }
  }

  // ----- the emitted tables

  /** What Generate ensures of the tables that it makes with these precedences. */
  ghost predicate Outcome(q: Generated, p: Precedence) {
    && q.Sound() && q.k.Ok() && q.k.sz.nstate == |q.states| && q.k.sz.nrule == |q.g.rules| && q.g.Valid()
    && Chooses(q.g, q.states, q.v, q.k, p)
  }

  /** State `s` calls for a reduction by rule `r` on the token. */
  ghost predicate RuleCalled(q: Generated, s: nat, x: nat, r: nat) {
    r < |q.g.rules| && MayFollow(q.states, q.v, s, Item(r, |q.g.rules[r].rhs|), x)
  }

  lemma OutcomeFacts(q: Generated, p: Precedence, s: nat, x: nat)
    requires Outcome(q, p) && s < |q.states|
    ensures q.k.Ok() && q.k.sz.nstate == |q.states| && q.k.sz.nrule == |q.g.rules| && q.g.Valid()
      && Chooses(q.g, q.states, q.v, q.k, p)
    ensures x in q.states[s].shifts ==> 0 < x && q.states[s].shifts[x] < |q.states|
  {
    if x in q.states[s].shifts {
      NeverBackToStart(q.g, q.lambda, q.first, q.states, q.bplp, s, x);
    }
  }

  /** The list that decides on a token, and its winner. */
  lemma Decides(q: Generated, p: Precedence, s: nat, x: nat, act: Action) returns (raw: seq<Action>, c: Action)
    requires q.k.Ok() && q.k.sz.nstate == |q.states| && s < |q.states| && Chooses(q.g, q.states, q.v, q.k, p)
    requires q.g.Terminal(x) && Called(q.g, q.states, q.v, s, act) && act.sp == x
    ensures InOrder(q.g, q.states, q.v, s, raw) && ListFits(p, raw) && Winner(p, raw, |raw|, x) == Some(c)
    ensures q.k.tables.FindShiftAction(s, x) == Code(c.kind, c.arg, q.k.sz)
  {
    hide Called, InOrder, Champion, ListFits;
    assert CalledOn(q.g, q.states, q.v, s, x);
    raw :| ChosenFrom(q.g, q.states, q.v, q.k, p, s, x, raw);
    c := Champion(p, raw, x).value;
    assert raw[..|raw|] == raw;
  }

  lemma RuleIsListed(q: Generated, s: nat, x: nat, r: nat, raw: seq<Action>)
    requires s < |q.states| && q.g.Terminal(x) && InOrder(q.g, q.states, q.v, s, raw)
    ensures RuleCalled(q, s, x, r) <==> Action(x, REDUCE, r) in raw
  {
    assert Called(q.g, q.states, q.v, s, Action(x, REDUCE, r)) <==> RuleCalled(q, s, x, r);
  }

  /** A token that can be shifted is shifted exactly if no rule that is called for wins against it;
      otherwise one of these rules is reduced. */
  lemma ShiftUnlessWon(q: Generated, p: Precedence, s: nat, x: nat) returns (r: nat)
    requires Outcome(q, p) && s < |q.states| && q.g.Terminal(x) && x in q.states[s].shifts
    ensures q.k.Ok()
    ensures if forall r :: RuleCalled(q, s, x, r) ==> !RuleWins(p, x, r)
      then q.k.tables.FindShiftAction(s, x) == q.states[s].shifts[x] < |q.states|
      else q.k.tables.FindShiftAction(s, x) == |q.states| + r && RuleCalled(q, s, x, r)
  {
    OutcomeFacts(q, p, s, x);
    var shift := Action(x, SHIFT, q.states[s].shifts[x]);
    assert Called(q.g, q.states, q.v, s, shift);
    hide Outcome, Chooses;
    var raw, c := Decides(q, p, s, x, shift);
    var f := FirstOf(q.g, q.states, q.v, s, raw, shift);
    ShiftStays(p, raw, f, |raw|);
    WinnersAre(q, p, s, x, raw);
    r := c.arg;
    assert c in raw[..|raw|] && raw[..|raw|] == raw;
    hide Winner, InOrder, Called;
    if c.kind.REDUCE? {
      assert c == Action(x, REDUCE, r);
      RuleIsListed(q, s, x, r, raw);
    }
  }

  lemma WinnersAre(q: Generated, p: Precedence, s: nat, x: nat, raw: seq<Action>)
    requires s < |q.states| && q.g.Terminal(x) && InOrder(q.g, q.states, q.v, s, raw)
    ensures NoneWins(p, raw, |raw|, x) <==> forall r :: RuleCalled(q, s, x, r) ==> !RuleWins(p, x, r)
  {
    hide RuleWins, InOrder, RuleCalled;
    if NoneWins(p, raw, |raw|, x) {
      forall r | RuleCalled(q, s, x, r) ensures !RuleWins(p, x, r) {
        RuleIsListed(q, s, x, r, raw);
        var m :| 0 <= m < |raw| && raw[m] == Action(x, REDUCE, r);
      }
    }
    if forall r :: RuleCalled(q, s, x, r) ==> !RuleWins(p, x, r) {
      forall m: nat | m < |raw| && raw[m].sp == x && raw[m].kind.REDUCE? ensures !RuleWins(p, x, raw[m].arg) {
        assert raw[m] == Action(x, REDUCE, raw[m].arg) && raw[m] in raw;
        RuleIsListed(q, s, x, raw[m].arg, raw);
      }
    }
  }

  /** A shift and one rule: the higher precedence wins; with the same, a token that associates to the left
      has the rule reduced; in all other cases it is shifted. */
  lemma ShiftOrReduce(q: Generated, p: Precedence, s: nat, x: nat, r: nat)
    requires Outcome(q, p) && s < |q.states| && q.g.Terminal(x) && x in q.states[s].shifts
    requires forall t :: RuleCalled(q, s, x, t) <==> t == r
    ensures q.k.Ok()
    ensures var t, u := TokenPrec(p, x), RulePrec(p, r);
      var act := q.k.tables.FindShiftAction(s, x);
      && (t < 0 || u < 0 ==> act == q.states[s].shifts[x])
      && (0 <= u < t ==> act == q.states[s].shifts[x])
      && (0 <= t < u ==> act == |q.states| + r)
      && (0 <= t == u ==> act == if Left(p, x) then |q.states| + r else q.states[s].shifts[x])
  {
    hide Outcome, RuleCalled;
    var t := ShiftUnlessWon(q, p, s, x);
    assert RuleCalled(q, s, x, r);
  }

  /** Rules only, all with a precedence: the highest is reduced, and of several the one declared first. */
  lemma HighestIsTaken(q: Generated, p: Precedence, s: nat, x: nat, r: nat)
    requires Outcome(q, p) && s < |q.states| && q.g.Terminal(x) && x !in q.states[s].shifts
    requires RuleCalled(q, s, x, r) && forall t :: RuleCalled(q, s, x, t) ==> RulePrec(p, t) >= 0
    requires forall t :: RuleCalled(q, s, x, t) && t != r ==>
      RulePrec(p, t) < RulePrec(p, r) || (RulePrec(p, t) == RulePrec(p, r) && r < t)
    ensures q.k.Ok() && q.k.tables.FindShiftAction(s, x) == |q.states| + r
  {
    OutcomeFacts(q, p, s, x);
    var act := Action(x, REDUCE, r);
    assert Called(q.g, q.states, q.v, s, act);
    hide Outcome, Chooses;
    var raw, c := Decides(q, p, s, x, act);
    RulesListed(q, p, s, x, raw);
    HighestStays(p, raw, x, |raw|);
    RuleIsListed(q, s, x, r, raw);
    assert raw[..|raw|] == raw && c in raw;
    hide Winner, InOrder, Called, RulePrec, Rising;
    var m :| 0 <= m < |raw| && raw[m] == act;
    var n :| 0 <= n < |raw| && raw[n] == c;
    assert c == Action(x, REDUCE, c.arg);
    RuleIsListed(q, s, x, c.arg, raw);
  }

  lemma RulesListed(q: Generated, p: Precedence, s: nat, x: nat, raw: seq<Action>)
    requires q.g.Valid() && s < |q.states| && q.g.Terminal(x) && x !in q.states[s].shifts
    requires InOrder(q.g, q.states, q.v, s, raw)
    requires forall t :: RuleCalled(q, s, x, t) ==> RulePrec(p, t) >= 0
    ensures RulesOnly(p, raw, x) && Rising(raw, x)
  {
    hide RulePrec;
    forall m: nat | m < |raw| && raw[m].sp == x ensures raw[m].kind.REDUCE? && RulePrec(p, raw[m].arg) >= 0 {
      assert raw[m] in raw && Called(q.g, q.states, q.v, s, raw[m]);
      assert raw[m] == Action(x, REDUCE, raw[m].arg);
      RuleIsListed(q, s, x, raw[m].arg, raw);
    }
    forall i, j | 0 <= i < j < |raw| && raw[i].sp == x && raw[j].sp == x ensures raw[i].arg <= raw[j].arg {
      SortedAt(raw, i, j);
    }
  }

  /** Two rules: the second one is reduced only if both have a precedence and its is higher. */
  lemma TwoRules(q: Generated, p: Precedence, s: nat, x: nat, r: nat, t: nat)
    requires Outcome(q, p) && s < |q.states| && q.g.Terminal(x) && x !in q.states[s].shifts && r < t
    requires forall u :: RuleCalled(q, s, x, u) <==> u == r || u == t
    ensures q.k.Ok()
    ensures q.k.tables.FindShiftAction(s, x) ==
      |q.states| + if 0 <= RulePrec(p, r) < RulePrec(p, t) then t else r
  {
    OutcomeFacts(q, p, s, x);
    assert RuleCalled(q, s, x, r) && RuleCalled(q, s, x, t);
    var a, b := Action(x, REDUCE, r), Action(x, REDUCE, t);
    forall other | Called(q.g, q.states, q.v, s, other) && other.sp == x ensures other == a || other == b {
      OnlyRules(q, s, x, other);
    }
    assert Called(q.g, q.states, q.v, s, a) && Called(q.g, q.states, q.v, s, b);
    hide Outcome, Called, RuleCalled, Chooses, RulePrec, Beats;
    TwoAreCompared(q.g, q.states, q.v, q.k, p, s, a, b);
    RulesMeet(p, a, b);
  }

  lemma OnlyRules(q: Generated, s: nat, x: nat, act: Action)
    requires q.g.Valid() && s < |q.states| && q.g.Terminal(x) && x !in q.states[s].shifts
    requires Called(q.g, q.states, q.v, s, act) && act.sp == x
    ensures act == Action(x, REDUCE, act.arg) && RuleCalled(q, s, x, act.arg)
  {
  }

  // ----- what is counted as a conflict

  /** The meeting of no two actions of a state is counted. */
  ghost predicate Decided(g: Grammar, states: seq<State>, v: Follows, p: Precedence, s: nat, raw: seq<Action>)
    requires s < |states|
  {
    InOrder(g, states, v, s, raw) && ListFits(p, raw) ==> NoneMeets(p, raw)
  }

  ghost predicate AllDecided(g: Grammar, states: seq<State>, v: Follows, p: Precedence) {
    forall s: nat, raw :: s < |states| ==> Decided(g, states, v, p, s, raw)
  }

  lemma FirstWinner(p: Precedence, raw: seq<Action>, i: nat, j: nat, x: nat)
    requires ListFits(p, raw) && i < j <= |raw| && raw[i].sp == x
    requires forall m :: 0 <= m < j && m != i ==> raw[m].sp != x
    ensures Champion(p, raw[..i], x) == None && Champion(p, raw[..j], x) == Some(raw[i])
  {
    ChampionUpTo(p, raw[..i], 0, x);
    assert raw[..i][..0] == [];
    ChampionNext(p, raw, i, x);
    ChampionUpTo(p, raw[..j], i + 1, x);
    assert raw[..j][..i + 1] == raw[..i + 1];
  }

  /** Two actions on a symbol have one meeting. */
  lemma TwoClash(p: Precedence, raw: seq<Action>, i: nat, j: nat)
    requires ListFits(p, raw) && i < j < |raw| && raw[i].sp == raw[j].sp
    requires forall m :: 0 <= m < |raw| && m != i && m != j ==> raw[m].sp != raw[i].sp
    ensures ListFits(p, [raw[i], raw[j]]) && Clashes(p, raw, |raw|, raw[i].sp) == Counted(p, raw[i], raw[j])
  {
    hide Champion, Counted;
    var x := raw[i].sp;
    FirstWinner(p, raw, i, j, x);
    assert ListFits(p, [raw[i], raw[j]]);
    hide ListFits;
    ClashesUpTo(p, raw, 0, i, x);
    ClashesUpTo(p, raw, i + 1, j, x);
    ClashesUpTo(p, raw, j + 1, |raw|, x);
  }

  /** The list of a state with just two actions on a symbol. */
  lemma TwoListed(q: Generated, p: Precedence, s: nat, raw: seq<Action>, a: Action, b: Action)
    requires s < |q.states| && InOrder(q.g, q.states, q.v, s, raw) && ListFits(p, raw)
    requires Called(q.g, q.states, q.v, s, a) && Called(q.g, q.states, q.v, s, b) && a.sp == b.sp
      && ActionCmp(a, b) < 0
    requires forall other :: Called(q.g, q.states, q.v, s, other) && other.sp == a.sp ==> other == a || other == b
    ensures ListFits(p, [a, b]) && Clashes(p, raw, |raw|, a.sp) == Counted(p, a, b)
  {
    hide Called;
    var i :| 0 <= i < |raw| && raw[i] == a;
    var j :| 0 <= j < |raw| && raw[j] == b;
    SortedAt(raw, j, i);
    forall m | 0 <= m < |raw| && m != i && m != j ensures raw[m].sp != a.sp {
      assert raw[m] in raw && raw[m] != raw[i] && raw[m] != raw[j];
    }
    hide InOrder, Clashes, Counted;
    TwoClash(p, raw, i, j);
  }

  /** A shift and one rule between which the declarations do not decide are counted. */
  lemma SilenceIsCounted(q: Generated, p: Precedence, s: nat, x: nat, r: nat, raw: seq<Action>)
    requires s < |q.states| && q.g.Terminal(x) && q.g.Valid() && x in q.states[s].shifts
    requires forall t :: RuleCalled(q, s, x, t) <==> t == r
    requires InOrder(q.g, q.states, q.v, s, raw) && ListFits(p, raw)
    ensures Clashes(p, raw, |raw|, x) == if Silent(p, x, r) then 1 else 0
  {
    var a, b := Action(x, SHIFT, q.states[s].shifts[x]), Action(x, REDUCE, r);
    assert RuleCalled(q, s, x, r);
    assert Called(q.g, q.states, q.v, s, a) && Called(q.g, q.states, q.v, s, b);
    forall other | Called(q.g, q.states, q.v, s, other) && other.sp == x ensures other == a || other == b {
      assert other.kind.REDUCE? ==> RuleCalled(q, s, x, other.arg);
      assert other == Action(x, other.kind, other.arg);
    }
    hide Called, InOrder, Clashes, Counted, Silent, RuleCalled, ListFits;
    TwoListed(q, p, s, raw, a, b);
    ShiftMeets(p, a, b);
  }

  /** So are two rules. */
  lemma RulesSilenceIsCounted(q: Generated, p: Precedence, s: nat, x: nat, r: nat, t: nat, raw: seq<Action>)
    requires s < |q.states| && q.g.Terminal(x) && q.g.Valid() && x !in q.states[s].shifts && r < t
    requires forall u :: RuleCalled(q, s, x, u) <==> u == r || u == t
    requires InOrder(q.g, q.states, q.v, s, raw) && ListFits(p, raw)
    ensures Clashes(p, raw, |raw|, x) == if RulesSilent(p, r, t) then 1 else 0
  {
    var a, b := Action(x, REDUCE, r), Action(x, REDUCE, t);
    assert RuleCalled(q, s, x, r) && RuleCalled(q, s, x, t);
    assert Called(q.g, q.states, q.v, s, a) && Called(q.g, q.states, q.v, s, b);
    forall other | Called(q.g, q.states, q.v, s, other) && other.sp == x ensures other == a || other == b {
      OnlyRules(q, s, x, other);
    }
    hide Called, InOrder, Clashes, Counted, RulesSilent, RuleCalled, ListFits;
    TwoListed(q, p, s, raw, a, b);
    RulesMeet(p, a, b);
  }

  /** Where the declarations are silent between a shift and the only rule, or between the only two rules,
      lemon reports a conflict. */
  lemma SilentIsConflict(q: Generated, p: Precedence, s: nat, x: nat, r: nat, t: nat)
    requires Outcome(q, p) && s < |q.states| && q.g.Terminal(x) && r <= t
    requires forall u :: RuleCalled(q, s, x, u) <==> u == r || u == t
    requires if x in q.states[s].shifts then r == t && Silent(p, x, r) else r < t && RulesSilent(p, r, t)
    ensures !AllDecided(q.g, q.states, q.v, p)
  {
    OutcomeFacts(q, p, s, x);
    assert RuleCalled(q, s, x, r);
    var act := Action(x, REDUCE, r);
    assert Called(q.g, q.states, q.v, s, act);
    hide Outcome, Chooses, RuleCalled, Called, InOrder, ListFits, Silent, RulesSilent, Winner, Clashes;
    var raw, c := Decides(q, p, s, x, act);
    if x in q.states[s].shifts {
      SilenceIsCounted(q, p, s, x, r, raw);
    } else {
      RulesSilenceIsCounted(q, p, s, x, r, t, raw);
    }
    ClashUndecides(q.g, q.states, q.v, p, s, raw, x);
  }

  lemma ClashUndecides(g: Grammar, states: seq<State>, v: Follows, p: Precedence, s: nat, raw: seq<Action>, x: nat)
    requires s < |states| && InOrder(g, states, v, s, raw) && ListFits(p, raw) && Clashes(p, raw, |raw|, x) > 0
    ensures !AllDecided(g, states, v, p)
  {
    assert !NoneMeets(p, raw) && !Decided(g, states, v, p, s, raw);
  }

  /** The declarations decide between everything that a state calls for on one token. */
  ghost predicate DeclarationsDecide(q: Generated, p: Precedence, s: nat, x: nat)
    requires s < |q.states|
  {
    && (x in q.states[s].shifts ==> forall r :: RuleCalled(q, s, x, r) ==> !Silent(p, x, r))
    && (forall r, t :: RuleCalled(q, s, x, r) && RuleCalled(q, s, x, t) && r < t ==> !RulesSilent(p, r, t))
  }

  /** Then nothing is counted. */
  lemma NothingSilent(q: Generated, p: Precedence)
    requires forall s: nat, x: nat :: s < |q.states| && q.g.Terminal(x) ==> DeclarationsDecide(q, p, s, x)
    ensures AllDecided(q.g, q.states, q.v, p)
  {
    forall s: nat, raw | s < |q.states| ensures Decided(q.g, q.states, q.v, p, s, raw) {
      if InOrder(q.g, q.states, q.v, s, raw) && ListFits(p, raw) {
        forall x: nat ensures Clashes(p, raw, |raw|, x) == 0 {
          NoneClash(q, p, s, raw, |raw|, x);
        }
      }
    }
  }

  lemma {:induction false} NoneClash(q: Generated, p: Precedence, s: nat, raw: seq<Action>, n: nat, x: nat)
    requires s < |q.states| && InOrder(q.g, q.states, q.v, s, raw) && ListFits(p, raw) && n <= |raw|
    requires q.g.Terminal(x) ==> DeclarationsDecide(q, p, s, x)
    ensures Clashes(p, raw, n, x) == 0
    decreases n
  {
    hide DeclarationsDecide, InOrder, ListFits, CountedAt;
    if n > 0 {
      NoneClash(q, p, s, raw, n - 1, x);
      NoClashAt(q, p, s, raw, n - 1, x);
    }
  }

  lemma NoClashAt(q: Generated, p: Precedence, s: nat, raw: seq<Action>, n: nat, x: nat)
    requires s < |q.states| && InOrder(q.g, q.states, q.v, s, raw) && ListFits(p, raw) && n < |raw|
    requires q.g.Terminal(x) ==> DeclarationsDecide(q, p, s, x)
    ensures CountedAt(p, raw, n, x) == 0
  {
    hide DeclarationsDecide, InOrder, Counted, Champion;
    if raw[n].sp == x && Champion(p, raw[..n], x).Some? {
      var c := Champion(p, raw[..n], x).value;
      var i :| 0 <= i < n && raw[..n][i] == c;
      assert raw[i] == c;
      NotCounted(q, p, s, raw, i, n);
    }
  }

  lemma NotCounted(q: Generated, p: Precedence, s: nat, raw: seq<Action>, i: nat, j: nat)
    requires s < |q.states| && InOrder(q.g, q.states, q.v, s, raw) && ListFits(p, raw) && i < j < |raw|
    requires raw[i].sp == raw[j].sp && (q.g.Terminal(raw[i].sp) ==> DeclarationsDecide(q, p, s, raw[i].sp))
    ensures ListFits(p, [raw[i], raw[j]]) && Counted(p, raw[i], raw[j]) == 0
  {
    var a, b := raw[i], raw[j];
    assert a in raw && b in raw && a != b && Called(q.g, q.states, q.v, s, a) && Called(q.g, q.states, q.v, s, b);
    assert b.kind.REDUCE? && (a.kind.SHIFT? || a.kind.REDUCE?) && RuleCalled(q, s, a.sp, b.arg);
    SortedAt(raw, i, j);
    assert a.kind.REDUCE? ==> RuleCalled(q, s, a.sp, a.arg) && a.arg < b.arg;
    hide Counted, Silent, RulesSilent, RuleCalled, InOrder, Called;
    if a.kind.SHIFT? {
      ShiftMeets(p, a, b);
    } else {
      RulesMeet(p, a, b);
    }
  }

  // ----- the number that lemon reports

  /** The loops counted nothing in the lists of the states so far. */
  ghost predicate Uncounted(p: Precedence, raws: seq<seq<Action>>) {
    forall s: nat :: s < |raws| && ListFits(p, raws[s]) ==> RowsCount(p, raws[s], 0) == 0
  }

  lemma NoneListed(p: Precedence)
    ensures Uncounted(p, [])
  {
  }

  lemma UncountedNext(p: Precedence, raws: seq<seq<Action>>, raw: seq<Action>)
    requires ListFits(p, raw)
    ensures Uncounted(p, raws + [raw]) <==> Uncounted(p, raws) && RowsCount(p, raw, 0) == 0
  {
    var now := raws + [raw];
    assert now[|raws|] == raw && forall s :: 0 <= s < |raws| ==> now[s] == raws[s];
    hide ListFits, RowsCount;
    if Uncounted(p, now) {
      forall s: nat | s < |raws| && ListFits(p, raws[s]) ensures RowsCount(p, raws[s], 0) == 0 {
        assert ListFits(p, now[s]);
      }
    }
  }

  /** No conflict is counted exactly if the meeting of no two actions is one. */
  lemma UncountedIsDecided(g: Grammar, states: seq<State>, v: Follows, p: Precedence, raws: seq<seq<Action>>,
                           mids: seq<seq<Action>>)
    requires AllResolved(g, states, v, p, raws, mids) && |raws| == |states|
    ensures Uncounted(p, raws) <==> AllDecided(g, states, v, p)
  {
    forall s: nat | s < |raws| ensures StateAgrees(g, states, v, p, s, raws[s]) {
      StateDecided(g, states, v, p, s, raws, mids);
    }
    hide ListFits, RowsCount, Decided, AllResolved;
    if Uncounted(p, raws) {
      forall s: nat, raw | s < |states| ensures Decided(g, states, v, p, s, raw) {
        assert StateAgrees(g, states, v, p, s, raws[s]);
      }
    }
    if AllDecided(g, states, v, p) {
      forall s: nat | s < |raws| ensures RowsCount(p, raws[s], 0) == 0 {
        assert StateAgrees(g, states, v, p, s, raws[s]) && Decided(g, states, v, p, s, raws[s]);
      }
    }
  }

  ghost predicate StateAgrees(g: Grammar, states: seq<State>, v: Follows, p: Precedence, s: nat, raw: seq<Action>)
    requires s < |states|
  {
    && ListFits(p, raw) && (RowsCount(p, raw, 0) == 0 <==> Decided(g, states, v, p, s, raw))
    && forall other :: Decided(g, states, v, p, s, raw) ==> Decided(g, states, v, p, s, other)
  }

  lemma StateDecided(g: Grammar, states: seq<State>, v: Follows, p: Precedence, s: nat, raws: seq<seq<Action>>,
                     mids: seq<seq<Action>>)
    requires AllResolved(g, states, v, p, raws, mids) && |raws| == |states| && s < |raws|
    ensures StateAgrees(g, states, v, p, s, raws[s])
  {
    assert InOrder(g, states, v, s, raws[s]) && Resolved(p, raws[s], mids[s]);
    CountsMeetings(p, raws[s]);
    hide RowsCount, NoneMeets, ListFits, AllResolved, Resolved, Lists;
    forall raw | Decided(g, states, v, p, s, raws[s]) ensures Decided(g, states, v, p, s, raw) {
      if InOrder(g, states, v, s, raw) {
        OrderIsUnique(g, states, v, s, raw, raws[s]);
      }
    }
  }
}
