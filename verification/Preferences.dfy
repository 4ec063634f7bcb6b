/** Which of several actions on one token the generated parser takes. */
module Preferences {
  import opened Grammars
  import opened Closures
  import opened Lr0
  import MSort
  import opened Actions
  import opened Options
  import opened Tables
  import opened Driver
  import opened ParserCompleteness
  import opened StateActions

  /** The lists of the states so far, before and after the conflict loops. */
  ghost predicate AllResolved(g: Grammar, states: seq<State>, v: Follows, p: Precedence, raws: seq<seq<Action>>,
                              mids: seq<seq<Action>>)
  {
    |raws| == |mids| <= |states| && forall s: nat :: s < |raws| ==>
      InOrder(g, states, v, s, raws[s]) && Resolved(p, raws[s], mids[s])
  }

  lemma NoneResolved(g: Grammar, states: seq<State>, v: Follows, p: Precedence)
    ensures AllResolved(g, states, v, p, [], [])
  {
  }

  lemma ResolvedNext(g: Grammar, states: seq<State>, v: Follows, p: Precedence, raws: seq<seq<Action>>,
                     mids: seq<seq<Action>>, raw: seq<Action>, mid: seq<Action>)
    requires AllResolved(g, states, v, p, raws, mids) && |raws| < |states|
    requires InOrder(g, states, v, |raws|, raw) && Resolved(p, raw, mid)
    ensures AllResolved(g, states, v, p, raws + [raw], mids + [mid])
  {
    hide InOrder, Resolved;
  }

  /** The tables do what the champion of the list `raw` on `x` says. */
  ghost predicate ChosenFrom(g: Grammar, states: seq<State>, v: Follows, k: Constants, p: Precedence, s: nat, x: nat,
                             raw: seq<Action>)
    requires k.Ok() && k.sz.nstate == |states| && s < |states|
  {
    && InOrder(g, states, v, s, raw) && ListFits(p, raw) && Champion(p, raw, x).Some?
    && var c := Champion(p, raw, x).value; k.tables.FindShiftAction(s, x) == Code(c.kind, c.arg, k.sz)
  }

  ghost predicate Chosen(g: Grammar, states: seq<State>, v: Follows, k: Constants, p: Precedence, s: nat, x: nat)
    requires k.Ok() && k.sz.nstate == |states| && s < |states|
  {
    exists raw :: ChosenFrom(g, states, v, k, p, s, x, raw)
  }

  /** Of everything that a state calls for on a token, the tables do what is left when the shift and then
      the rules, in their order, meet under resolve_conflict. */
  ghost predicate Chooses(g: Grammar, states: seq<State>, v: Follows, k: Constants, p: Precedence)
    requires k.Ok() && k.sz.nstate == |states|
  {
    forall s: nat, x: nat :: s < |states| && g.Terminal(x) && CalledOn(g, states, v, s, x) ==>
      Chosen(g, states, v, k, p, s, x)
  }

  /** The champion is what the finished list says. */
  lemma FinalChosen(g: Grammar, states: seq<State>, v: Follows, s: nat, p: Precedence, raw: seq<Action>,
                    mid: seq<Action>, final: seq<Action>, x: nat)
    requires s < |states| && Finished(g, states, v, s, raw, mid, final) && InOrder(g, states, v, s, raw)
      && Resolved(p, raw, mid) && CalledOn(g, states, v, s, x) && x < g.nsymbol
    requires forall a :: a in mid ==> a.sp < g.nsymbol
    ensures ListFits(p, raw) && Champion(p, raw, x).Some?
    ensures var c := Champion(p, raw, x).value; Effective(final, x, g.nsymbol) == Some((c.kind, c.arg))
  {
    var one :| Called(g, states, v, s, one) && one.sp == x;
    assert one in raw && one.Live();
    var j :| 0 <= j < |raw| && raw[j] == one;
    assert HasLive(raw, x);
    hide Called, Champion, RowsFrom, Raw, ListFits;
    ChampionSurvives(p, raw, x);
    if final != mid {
      var rule :| Count(mid, rule) >= 2 && Defaulted(mid, final, rule, g.nsymbol);
      CompressKeepsActions(mid, final, rule, g.nsymbol, x);
    }
  }

  /** There is only one such list. */
  lemma OrderIsUnique(g: Grammar, states: seq<State>, v: Follows, s: nat, a: seq<Action>, b: seq<Action>)
    requires s < |states| && InOrder(g, states, v, s, a) && InOrder(g, states, v, s, b)
    ensures a == b
  {
    assert forall act :: act in a <==> act in b;
    hide Called, Raw;
    SortedIsUnique(a, b);
  }

  lemma {:induction false} SortedIsUnique(a: seq<Action>, b: seq<Action>)
    requires NoRepeats(a) && NoRepeats(b) && MSort.Sorted(a, ActionCmp) && MSort.Sorted(b, ActionCmp)
    requires forall act :: act in a <==> act in b
    ensures a == b
    decreases |a|
  {
    if a == [] {
      HeadIn(b);
    } else {
      assert a[0] in b && b[0] in a;
      assert a[0] == b[0];
      forall act ensures act in a[1..] <==> act in b[1..] {
        TailHas(a, act);
        TailHas(b, act);
      }
      SortedIsUnique(a[1..], b[1..]);
      assert a == [a[0]] + a[1..] && b == [b[0]] + b[1..];
    }
  }

  lemma HeadIn(a: seq<Action>)
    ensures a != [] ==> a[0] in a
  {
  }

  lemma SortedAt(a: seq<Action>, i: nat, j: nat)
    requires MSort.Sorted(a, ActionCmp) && i < |a| && j < |a|
    ensures i < j ==> ActionCmp(a[i], a[j]) <= 0
  {
  }

  lemma TailHas(a: seq<Action>, act: Action)
    requires NoRepeats(a) && a != []
    ensures act in a[1..] <==> act in a && act != a[0]
  {
    if act in a && act != a[0] {
      var i :| 0 <= i < |a| && a[i] == act;
      assert a[1..][i - 1] == act;
    }
  }

  // ----- what that means

  lemma FirstOf(g: Grammar, states: seq<State>, v: Follows, s: nat, raw: seq<Action>, act: Action) returns (f: nat)
    requires s < |states| && InOrder(g, states, v, s, raw) && Called(g, states, v, s, act)
    requires forall other :: Called(g, states, v, s, other) && other.sp == act.sp && other != act ==>
      ActionCmp(act, other) < 0
    ensures f < |raw| && raw[f] == act && forall m :: 0 <= m < f ==> raw[m].sp != act.sp
  {
    f :| 0 <= f < |raw| && raw[f] == act;
    forall m | 0 <= m < f ensures raw[m].sp != act.sp {
      assert raw[m] in raw && ActionCmp(raw[m], raw[f]) <= 0;
    }
  }

  /** Without precedences the tables do what comes first: the shift, or else the rule that is declared
      first. */
  lemma FirstIsTaken(g: Grammar, states: seq<State>, v: Follows, k: Constants, p: Precedence, s: nat, act: Action)
    requires k.Ok() && k.sz.nstate == |states| && s < |states| && Chooses(g, states, v, k, p) && NoPrecedence(p)
    requires Called(g, states, v, s, act) && g.Terminal(act.sp)
    requires forall other :: Called(g, states, v, s, other) && other.sp == act.sp && other != act ==>
      ActionCmp(act, other) < 0
    ensures k.tables.FindShiftAction(s, act.sp) == Code(act.kind, act.arg, k.sz)
  {
    hide Called, InOrder;
    assert CalledOn(g, states, v, s, act.sp);
    var raw: seq<Action> :| ChosenFrom(g, states, v, k, p, s, act.sp, raw);
    var f := FirstOf(g, states, v, s, raw, act);
    FirstSurvives(p, raw, act.sp, f);
  }

  lemma ShiftIsTaken(g: Grammar, states: seq<State>, v: Follows, k: Constants, p: Precedence, s: nat, x: nat)
    requires k.Ok() && k.sz.nstate == |states| && s < |states| && Chooses(g, states, v, k, p) && NoPrecedence(p)
    requires g.Terminal(x) && g.Valid() && x in states[s].shifts
    ensures k.tables.FindShiftAction(s, x) == states[s].shifts[x]
  {
    FirstIsTaken(g, states, v, k, p, s, Action(x, SHIFT, states[s].shifts[x]));
  }

  lemma LeastRuleIsTaken(g: Grammar, states: seq<State>, v: Follows, k: Constants, p: Precedence, s: nat, x: nat,
                         r: nat)
    requires k.Ok() && k.sz.nstate == |states| && s < |states| && Chooses(g, states, v, k, p) && NoPrecedence(p)
    requires g.Terminal(x) && g.Valid() && x !in states[s].shifts
    requires r < |g.rules| && MayFollow(states, v, s, Item(r, |g.rules[r].rhs|), x)
    requires forall q :: 0 <= q < r ==> !MayFollow(states, v, s, Item(q, |g.rules[q].rhs|), x)
    ensures k.tables.FindShiftAction(s, x) == |states| + r
  {
    hide MayFollow;
    FirstIsTaken(g, states, v, k, p, s, Action(x, REDUCE, r));
  }

  /** Of two actions called for on a token, the tables do the one that resolve_conflict spares. */
  lemma TwoAreCompared(g: Grammar, states: seq<State>, v: Follows, k: Constants, p: Precedence, s: nat, a: Action,
                       b: Action)
    requires k.Ok() && k.sz.nstate == |states| && s < |states| && Chooses(g, states, v, k, p)
    requires Called(g, states, v, s, a) && Called(g, states, v, s, b) && a.sp == b.sp && g.Terminal(a.sp)
    requires ActionCmp(a, b) < 0
    requires forall other :: Called(g, states, v, s, other) && other.sp == a.sp ==> other == a || other == b
    ensures ListFits(p, [a, b])
    ensures var c := if Beats(p, a, b) then a else b; k.tables.FindShiftAction(s, a.sp) == Code(c.kind, c.arg, k.sz)
  {
    hide Called;
    assert CalledOn(g, states, v, s, a.sp);
    var raw: seq<Action> :| ChosenFrom(g, states, v, k, p, s, a.sp, raw);
    var i :| 0 <= i < |raw| && raw[i] == a;
    var j :| 0 <= j < |raw| && raw[j] == b;
    SortedAt(raw, j, i);
    forall m | 0 <= m < |raw| && m != i && m != j ensures raw[m].sp != a.sp {
      assert raw[m] in raw && raw[m] != raw[i] && raw[m] != raw[j];
    }
    hide InOrder;
    TwoMeet(p, raw, i, j);
  }

  lemma TwoMeet(p: Precedence, raw: seq<Action>, i: nat, j: nat)
    requires ListFits(p, raw) && i < j < |raw| && raw[i].sp == raw[j].sp
    requires forall m :: 0 <= m < |raw| && m != i && m != j ==> raw[m].sp != raw[i].sp
    ensures ListFits(p, [raw[i], raw[j]])
    ensures Champion(p, raw, raw[i].sp) == Some(if Beats(p, raw[i], raw[j]) then raw[i] else raw[j])
  {
    var x := raw[i].sp;
    ChampionUpTo(p, raw[..i], 0, x);
    ChampionNext(p, raw, i, x);
    var front := raw[..j];
    ChampionUpTo(p, front, i + 1, x);
    assert front[..i + 1] == raw[..i + 1];
    ChampionNext(p, raw, j, x);
    ChampionUpTo(p, raw, j + 1, x);
    assert raw[..i][..0] == [];
  }
}
