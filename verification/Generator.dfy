/** lemon from end to end: a grammar goes in, the tables of its parser come out. */
module Generator {
  import opened Grammars
  import opened FirstSets
  import opened Closures
  import opened Lr0
  import opened Lalr
  import opened Lookaheads
  import opened Actions
  import opened Options
  import opened Tables
  import opened Driver
  import opened ParserCompleteness
  import opened StateActions
  import opened Preferences
  import opened Precedences
  import opened Unambiguous
  import opened LalrTermination
  import ParserErrors

  // ----- what the finished lists mean

  /** A live action of the resolved list is one the state calls for. */
  lemma MidCalled(g: Grammar, states: seq<State>, v: Follows, s: nat, raw: seq<Action>, mid: seq<Action>, act: Action)
    requires s < |states| && Lists(g, states, v, s, raw) && Demoted(raw, mid) && act in mid && act.Live()
    ensures Called(g, states, v, s, act)
  {
    var i :| 0 <= i < |mid| && mid[i] == act;
    assert mid[i] == raw[i] && raw[i] in raw;
  }

  /** The action is called for on `x`, or it is a reduction called for on two tokens. */
  ghost predicate CalledFor(g: Grammar, states: seq<State>, v: Follows, s: nat, x: nat, kind: Kind, arg: nat)
    requires s < |states|
  {
    Called(g, states, v, s, Action(x, kind, arg)) || (kind == REDUCE && CalledTwice(g, states, v, s, arg))
  }

  ghost predicate CalledTwice(g: Grammar, states: seq<State>, v: Follows, s: nat, rule: nat)
    requires s < |states|
  {
    exists y, z :: y != z && Called(g, states, v, s, Action(y, REDUCE, rule))
      && Called(g, states, v, s, Action(z, REDUCE, rule))
  }

  /** A rule that a resolved list reduces by twice is called for on two tokens. */
  lemma TwiceCalled(g: Grammar, states: seq<State>, v: Follows, s: nat, raw: seq<Action>, mid: seq<Action>, rule: nat)
    requires s < |states| && Lists(g, states, v, s, raw) && Demoted(raw, mid) && OneLive(mid) && Count(mid, rule) >= 2
    ensures CalledTwice(g, states, v, s, rule)
  {
    var i, j := TwoReduce(mid, rule);
    hide Called, Lists;
    MidCalled(g, states, v, s, raw, mid, mid[i]);
    MidCalled(g, states, v, s, raw, mid, mid[j]);
    assert mid[i] == Action(mid[i].sp, REDUCE, rule) && mid[j] == Action(mid[j].sp, REDUCE, rule);
  }

  lemma {:induction false} TwoReduce(a: seq<Action>, rule: nat) returns (i: nat, j: nat)
    requires Count(a, rule) >= 2
    ensures i < j < |a| && Reduces(a[i], rule) && Reduces(a[j], rule)
  {
    if Reduces(a[0], rule) {
      CountPositive(a[1..], rule);
      var act :| act in a[1..] && Reduces(act, rule);
      var n :| 0 <= n < |a[1..]| && a[1..][n] == act;
      i, j := 0, n + 1;
    } else {
      i, j := TwoReduce(a[1..], rule);
      i, j := i + 1, j + 1;
    }
  }

  /** What the driver can be told to do on a symbol: something the state calls for, or a default
      reduction that the state calls for on some token, or nothing. */
  lemma EffectiveCalled(g: Grammar, states: seq<State>, v: Follows, s: nat, raw: seq<Action>, mid: seq<Action>,
                        final: seq<Action>, x: nat)
    requires s < |states| && Finished(g, states, v, s, raw, mid, final) && x < g.nsymbol
    requires forall act :: act in mid ==> act.sp < g.nsymbol
    ensures Effective(final, x, g.nsymbol).Some? ==>
      var (kind, arg) := Effective(final, x, g.nsymbol).value; CalledFor(g, states, v, s, x, kind, arg)
  {
    LiveOnIn(final, x);
    LiveOnIn(final, g.nsymbol);
    if final == mid {
      if LiveOn(final, x).Some? {
        MidCalled(g, states, v, s, raw, mid, LiveOn(final, x).value);
      }
    } else {
      var rule :| Count(mid, rule) >= 2 && Defaulted(mid, final, rule, g.nsymbol);
      TwiceCalled(g, states, v, s, raw, mid, rule);
      if LiveOn(final, x).Some? {
        MidCalled(g, states, v, s, raw, mid, LiveOn(final, x).value);
      }
    }
  }

  /** Wherever the state calls for something, the driver is told to do one of the things called for. */
  lemma CalledEffective(g: Grammar, states: seq<State>, v: Follows, s: nat, raw: seq<Action>, mid: seq<Action>,
                        final: seq<Action>, x: nat)
    returns (act: Action)
    requires s < |states| && Finished(g, states, v, s, raw, mid, final) && CalledOn(g, states, v, s, x) && x < g.nsymbol
    requires forall a :: a in mid ==> a.sp < g.nsymbol
    ensures Called(g, states, v, s, act) && act.sp == x && Effective(final, x, g.nsymbol) == Some((act.kind, act.arg))
  {
    var one :| Called(g, states, v, s, one) && one.sp == x;
    assert one in raw && one.Live();
    var k :| 0 <= k < |raw| && raw[k] == one;
    assert HasLive(raw, x) && HasLive(mid, x);
    var j :| 0 <= j < |mid| && mid[j].Live() && mid[j].sp == x;
    act := mid[j];
    assert act in mid;
    MidCalled(g, states, v, s, raw, mid, act);
    LiveOnSome(mid, act);
    if final != mid {
      var rule :| Count(mid, rule) >= 2 && Defaulted(mid, final, rule, g.nsymbol);
      CompressKeepsActions(mid, final, rule, g.nsymbol, x);
    }
  }

  /** If everything called for on a symbol is the same action, that is what the driver is told to do. */
  lemma OnlyCallEffective(g: Grammar, states: seq<State>, v: Follows, s: nat, raw: seq<Action>, mid: seq<Action>,
                          final: seq<Action>, act: Action)
    requires s < |states| && Finished(g, states, v, s, raw, mid, final) && Called(g, states, v, s, act)
      && act.sp < g.nsymbol
    requires forall other :: Called(g, states, v, s, other) && other.sp == act.sp ==> other == act
    requires forall a :: a in mid ==> a.sp < g.nsymbol
    ensures Effective(final, act.sp, g.nsymbol) == Some((act.kind, act.arg))
  {
    var done := CalledEffective(g, states, v, s, raw, mid, final, act.sp);
  }

  // ----- the whole generator

  /** As Finished, for symbols of the grammar. */
  ghost predicate FinishedIn(g: Grammar, states: seq<State>, v: Follows, s: nat, raw: seq<Action>, mid: seq<Action>,
                             final: seq<Action>)
    requires s < |states|
  {
    Finished(g, states, v, s, raw, mid, final) && forall act :: act in mid ==> act.sp < g.nsymbol
  }

  /** The lists of all states, with their histories. */
  ghost predicate AllFinished(g: Grammar, states: seq<State>, v: Follows, raws: seq<seq<Action>>,
                              mids: seq<seq<Action>>, lists: seq<seq<Action>>)
  {
    && |raws| == |mids| == |lists| == |states|
    && forall s: nat :: s < |states| ==> FinishedIn(g, states, v, s, raws[s], mids[s], lists[s])
  }

  /** The driver's tables answer as the lists do. */
  ghost predicate TablesAnswer(g: Grammar, k: Constants, lists: seq<seq<Action>>) {
    && k.Ok() && |lists| == k.sz.nstate && k.sz == Sizes(g.nterminal, g.nsymbol, |lists|, |g.rules|)
      && k.rules == g.rules
    && (forall s: nat, x: nat :: s < k.sz.nstate && x < g.nterminal ==>
          k.tables.FindShiftAction(s, x) == CodeOf(Effective(lists[s], x, g.nsymbol), k.sz))
    && (forall s: nat, x: nat :: s < k.sz.nstate && g.nterminal <= x < g.nsymbol ==>
          k.tables.FindReduceAction(s, x) == CodeOf(Effective(lists[s], x, g.nsymbol), k.sz))
  }

  lemma FollowedItem(states: seq<State>, v: Follows, s: nat, it: Item)
    requires exists t :: MayFollow(states, v, s, it, t)
    ensures s < |states| && it in states[s].cl.items
  {
    var t :| MayFollow(states, v, s, it, t);
    var n :| FollowedAt(states[s], v, n, it, t);
  }

  /** A reduction that is called for is by a complete rule of the state. */
  lemma CalledReduction(g: Grammar, states: seq<State>, v: Follows, s: nat, x: nat, arg: nat)
    requires s < |states| && CalledFor(g, states, v, s, x, REDUCE, arg)
    ensures arg < |g.rules| && Item(arg, |g.rules[arg].rhs|) in states[s].cl.items
  {
    CalledWarranted(g, states, v, s, x, arg);
    FollowedItem(states, v, s, Item(arg, |g.rules[arg].rhs|));
  }

  /** A shift that is called for is along a transition. */
  lemma CalledShift(g: Grammar, lambda: seq<bool>, first: seq<set<nat>>, states: seq<State>, bplp: BackLinks,
                    v: Follows, s: nat, x: nat, arg: nat)
    requires Built(g, lambda, first, states, bplp) && s < |states| && CalledFor(g, states, v, s, x, SHIFT, arg)
    ensures x in states[s].shifts && states[s].shifts[x] == arg < |states|
  {
    assert StateOk(g, lambda, first, states[s], s) && ShiftsOk(g, states, s);
  }

  lemma TokenSound(g: Grammar, lambda: seq<bool>, first: seq<set<nat>>, states: seq<State>, bplp: BackLinks,
                   v: Follows, k: Constants, raws: seq<seq<Action>>, mids: seq<seq<Action>>, lists: seq<seq<Action>>,
                   s: nat, x: nat)
    requires Built(g, lambda, first, states, bplp) && AllFinished(g, states, v, raws, mids, lists)
      && TablesAnswer(g, k, lists)
    requires s < |states| && g.Terminal(x)
    ensures TokenActionOk(g, states, k, s, x)
  {
    assert g.Nonterminal(g.start);
    EffectiveCalled(g, states, v, s, raws[s], mids[s], lists[s], x);
    assert k.tables.FindShiftAction(s, x) == CodeOf(Effective(lists[s], x, g.nsymbol), k.sz);
    hide Built, Finished, CalledFor, Effective, Complete;
    var e := Effective(lists[s], x, g.nsymbol);
    if e.Some? {
      var (kind, arg) := e.value;
      match kind
      case SHIFT => CalledShift(g, lambda, first, states, bplp, v, s, x, arg);
      case REDUCE => CalledReduction(g, states, v, s, x, arg);
      case _ => NotCalled(g, states, v, s, x, kind, arg);
    }
  }

  lemma NotCalled(g: Grammar, states: seq<State>, v: Follows, s: nat, x: nat, kind: Kind, arg: nat)
    requires s < |states| && kind != SHIFT && kind != REDUCE && x != g.start
    ensures !CalledFor(g, states, v, s, x, kind, arg)
  {
  }

  lemma GotoSound(g: Grammar, lambda: seq<bool>, first: seq<set<nat>>, states: seq<State>, bplp: BackLinks, v: Follows,
                  k: Constants, raws: seq<seq<Action>>, mids: seq<seq<Action>>, lists: seq<seq<Action>>, s: nat, x: nat)
    requires Built(g, lambda, first, states, bplp) && AllFinished(g, states, v, raws, mids, lists)
      && TablesAnswer(g, k, lists)
    requires s < |states| && g.Nonterminal(x)
    ensures x in states[s].shifts ==> k.tables.FindReduceAction(s, x) == states[s].shifts[x]
    ensures s == 0 && x == g.start ==> k.tables.FindReduceAction(s, x) == |states| + |g.rules| + 1
  {
    hide AutomatonOk, Finished, StateOk, Complete;
    assert k.tables.FindReduceAction(s, x) == CodeOf(Effective(lists[s], x, g.nsymbol), k.sz);
    if x in states[s].shifts {
      OnlyCallEffective(g, states, v, s, raws[s], mids[s], lists[s], Action(x, SHIFT, states[s].shifts[x]));
    } else if s == 0 && x == g.start {
      OnlyCallEffective(g, states, v, s, raws[s], mids[s], lists[s], Action(x, ACCEPT, 0));
    }
  }

  /** The tables never go beyond the automaton. */
  lemma GeneratedSound(g: Grammar, lambda: seq<bool>, first: seq<set<nat>>, states: seq<State>, bplp: BackLinks,
                       v: Follows, k: Constants, raws: seq<seq<Action>>, mids: seq<seq<Action>>,
                       lists: seq<seq<Action>>)
    requires Built(g, lambda, first, states, bplp) && AllFinished(g, states, v, raws, mids, lists)
      && TablesAnswer(g, k, lists)
    ensures TablesSound(g, states, k)
  {
    assert g.Valid();
    hide Built, Finished;
    forall s: nat, x: nat | s < |states| && g.Terminal(x) ensures TokenActionOk(g, states, k, s, x) {
      TokenSound(g, lambda, first, states, bplp, v, k, raws, mids, lists, s, x);
    }
    forall s: nat, x: nat | s < |states| && x in states[s].shifts && g.Nonterminal(x)
      ensures k.tables.FindReduceAction(s, x) == states[s].shifts[x]
    {
      GotoSound(g, lambda, first, states, bplp, v, k, raws, mids, lists, s, x);
    }
    GotoSound(g, lambda, first, states, bplp, v, k, raws, mids, lists, 0, g.start);
  }

  /** Wherever a state calls for something on a token, the tables do one of the things called for. */
  ghost predicate Responsive(g: Grammar, states: seq<State>, v: Follows, k: Constants)
    requires k.Ok() && k.sz.nstate == |states|
  {
    forall s: nat, x: nat :: s < |states| && g.Terminal(x) && CalledOn(g, states, v, s, x) ==>
      Responds(g, states, v, k, s, x)
  }

  ghost predicate Responds(g: Grammar, states: seq<State>, v: Follows, k: Constants, s: nat, x: nat)
    requires k.Ok() && k.sz.nstate == |states| && s < |states|
  {
    exists act :: Called(g, states, v, s, act) && act.sp == x
      && k.tables.FindShiftAction(s, x) == Code(act.kind, act.arg, k.sz)
  }

  lemma GeneratedResponsive(g: Grammar, states: seq<State>, v: Follows, k: Constants,
                            raws: seq<seq<Action>>, mids: seq<seq<Action>>, lists: seq<seq<Action>>)
    requires g.Valid() && AllFinished(g, states, v, raws, mids, lists) && TablesAnswer(g, k, lists)
    ensures k.Ok() && k.sz.nstate == |states| && Responsive(g, states, v, k)
  {
    hide Finished, Called, Effective;
    forall s: nat, x: nat | s < |states| && g.Terminal(x) && CalledOn(g, states, v, s, x)
      ensures Responds(g, states, v, k, s, x)
    {
      var act := CalledEffective(g, states, v, s, raws[s], mids[s], lists[s], x);
    }
  }

  /** No state calls for two actions on one token. */
  ghost predicate NoConflicts(g: Grammar, states: seq<State>, v: Follows) {
    forall s: nat, a, b :: s < |states| && Called(g, states, v, s, a) && Called(g, states, v, s, b) && a.sp == b.sp ==>
      a == b
  }

  /** Without conflicts the tables do everything the automaton calls for. */
  lemma GeneratedComplete(g: Grammar, lambda: seq<bool>, first: seq<set<nat>>, states: seq<State>, bplp: BackLinks,
                          v: Follows, k: Constants, raws: seq<seq<Action>>, mids: seq<seq<Action>>,
                          lists: seq<seq<Action>>)
    requires Built(g, lambda, first, states, bplp) && AllFinished(g, states, v, raws, mids, lists)
      && TablesAnswer(g, k, lists)
    requires NoConflicts(g, states, v)
    ensures TablesComplete(g, states, v, k)
  {
    assert g.Valid();
    hide Built, Finished, MayFollow;
    forall s: nat, x: nat | s < |states| && x in states[s].shifts && g.Terminal(x)
      ensures k.tables.FindShiftAction(s, x) == states[s].shifts[x]
    {
      var act := Action(x, SHIFT, states[s].shifts[x]);
      assert Called(g, states, v, s, act);
      OnlyCallEffective(g, states, v, s, raws[s], mids[s], lists[s], act);
    }
    forall s: nat, r: nat, t: nat | r < |g.rules| && g.Terminal(t)
      && MayFollow(states, v, s, Item(r, |g.rules[r].rhs|), t)
      ensures k.tables.FindShiftAction(s, t) == |states| + r
    {
      MayFollowState(states, v, s, Item(r, |g.rules[r].rhs|), t);
      var act := Action(t, REDUCE, r);
      assert Called(g, states, v, s, act);
      OnlyCallEffective(g, states, v, s, raws[s], mids[s], lists[s], act);
    }
  }

  /** Where the tables reduce, the token calls for it, or two others do. */
  lemma TokenWarranted(g: Grammar, lambda: seq<bool>, first: seq<set<nat>>, states: seq<State>, bplp: BackLinks,
                       v: Follows, k: Constants, raws: seq<seq<Action>>, mids: seq<seq<Action>>,
                       lists: seq<seq<Action>>, s: nat, x: nat, r: nat)
    requires Built(g, lambda, first, states, bplp) && AllFinished(g, states, v, raws, mids, lists)
      && TablesAnswer(g, k, lists)
    requires s < |states| && g.Terminal(x) && r < |g.rules|
    ensures k.tables.FindShiftAction(s, x) == |states| + r ==> WarrantedOn(g, states, v, s, r, x)
  {
    EffectiveCalled(g, states, v, s, raws[s], mids[s], lists[s], x);
    var e := Effective(lists[s], x, g.nsymbol);
    assert k.tables.FindShiftAction(s, x) == CodeOf(e, k.sz);
    hide *;
    if e.Some? {
      var (kind, arg) := e.value;
      CodeReduces(g, lambda, first, states, bplp, v, s, x, kind, arg, k.sz, r);
    }
  }

  lemma CodeReduces(g: Grammar, lambda: seq<bool>, first: seq<set<nat>>, states: seq<State>, bplp: BackLinks,
                    v: Follows, s: nat, x: nat, kind: Kind, arg: nat, sz: Sizes, r: nat)
    requires Built(g, lambda, first, states, bplp) && s < |states| && CalledFor(g, states, v, s, x, kind, arg)
    requires r < |g.rules| && sz.nstate == |states| && sz.nrule == |g.rules|
    ensures Code(kind, arg, sz) == |states| + r ==> WarrantedOn(g, states, v, s, r, x)
  {
    hide Built, CalledFor, WarrantedOn;
    match kind
    case SHIFT => CalledShift(g, lambda, first, states, bplp, v, s, x, arg);
    case REDUCE => CalledWarranted(g, states, v, s, x, arg);
    case _ =>
  }

  lemma CalledWarranted(g: Grammar, states: seq<State>, v: Follows, s: nat, x: nat, arg: nat)
    requires s < |states| && CalledFor(g, states, v, s, x, REDUCE, arg)
    ensures arg < |g.rules| && WarrantedOn(g, states, v, s, arg, x)
  {
    hide MayFollow;
    if !Called(g, states, v, s, Action(x, REDUCE, arg)) {
      var y: nat, z: nat :| y != z && Called(g, states, v, s, Action(y, REDUCE, arg))
        && Called(g, states, v, s, Action(z, REDUCE, arg));
    }
  }

  lemma GeneratedWarranted(g: Grammar, lambda: seq<bool>, first: seq<set<nat>>, states: seq<State>, bplp: BackLinks,
                           v: Follows, k: Constants, raws: seq<seq<Action>>, mids: seq<seq<Action>>,
                           lists: seq<seq<Action>>)
    requires Built(g, lambda, first, states, bplp) && AllFinished(g, states, v, raws, mids, lists)
      && TablesAnswer(g, k, lists)
    ensures k.Ok() && k.sz.nstate == |states| && Warranted(g, states, v, k)
  {
    hide Built, Finished, WarrantedOn;
    forall s: nat, x: nat, r: nat |
      s < |states| && g.Terminal(x) && r < |g.rules| && k.tables.FindShiftAction(s, x) == |states| + r
      ensures WarrantedOn(g, states, v, s, r, x)
    {
      TokenWarranted(g, lambda, first, states, bplp, v, k, raws, mids, lists, s, x, r);
    }
  }

  // ----- lemon as a whole

  lemma {:induction false} StartStateValid(g: Grammar, lambda: seq<bool>, first: seq<set<nat>>, st: State, n: nat)
    requires StateOk(g, lambda, first, st, 0) && n < |st.cl.items|
    ensures Valid(g, [], st.cl.items[n])
    decreases n
  {
    var it := st.cl.items[n];
    ItemOrigin(g, lambda, first, st, 0, n);
    assert it == Item(it.rule, 0);
    if n >= |st.basis| {
      var i :| 0 <= i < n && st.cl.items[i].Ok(g) && st.cl.items[i].Expands(g, it.rule);
      StartStateValid(g, lambda, first, st, i);
      ValidExpands(g, [], st.cl.items[i], it.rule);
    } else {
      ValidStart(g, it.rule);
    }
  }

  /** The start symbol is not shifted out of the first state. */
  lemma StartNotShifted(g: Grammar, lambda: seq<bool>, first: seq<set<nat>>, states: seq<State>, bplp: BackLinks)
    requires AutomatonOk(g, lambda, first, states, bplp) && |states| > 0 && StartNotFirst(g)
    ensures g.start !in states[0].shifts
  {
    assert StateOk(g, lambda, first, states[0], 0) && ShiftsOk(g, states, 0);
    if g.start in states[0].shifts {
      var i: nat :| NextIs(g, states[0].cl.items, i, g.start);
      StartStateValid(g, lambda, first, states[0], i);
      assert NextAfter(g, [], states[0].cl.items[i], g.start);
    }
  }

  // ----- conflicts are a matter of the grammar

  /** Two reductions called for in one state on one token are possible after one prefix. */
  lemma CalledReduces(g: Grammar, lambda: seq<bool>, first: seq<set<nat>>, states: seq<State>, bplp: BackLinks,
                      v: Follows, w: Form, s: nat, r: nat, t: nat)
    requires Built(g, lambda, first, states, bplp) && FollowsExact(g, states, v) && At(states, w) == Some(s)
      && s < |states|
    requires Called(g, states, v, s, Action(t, REDUCE, r))
    ensures ReducesOn(g, w, r, t)
  {
    hide Built, Look, Valid, At;
    var it := Item(r, |g.rules[r].rhs|);
    assert Looked(g, states, s, it, t);
    var u :| At(states, u) == Some(s) && Look(g, u, it, t);
    forall c: Item ensures Valid(g, w, c) <==> Valid(g, u, c) {
      StateIsValidItems(g, lambda, first, states, bplp, w, c);
      StateIsValidItems(g, lambda, first, states, bplp, u, c);
    }
    assert ReducesAfter(g, w, u, r, t);
  }

  lemma CalledShifts(g: Grammar, lambda: seq<bool>, first: seq<set<nat>>, states: seq<State>, bplp: BackLinks, w: Form,
                     s: nat, x: nat)
    requires Built(g, lambda, first, states, bplp) && At(states, w) == Some(s) && s < |states| && x in states[s].shifts
    ensures ShiftsOn(g, w, x)
  {
    BuiltState(g, lambda, first, states, bplp, s);
    var i: nat :| NextIs(g, states[s].cl.items, i, x);
    ReachedValid(g, lambda, first, states, bplp, w, s, i);
    assert NextAfter(g, w, states[s].cl.items[i], x);
  }

  /** The prefixes of a reduction lead to one state. */
  lemma ReducesAt(g: Grammar, lambda: seq<bool>, first: seq<set<nat>>, states: seq<State>, bplp: BackLinks, w: Form,
                  u: Form, r: nat, t: nat) returns (s: nat)
    requires Built(g, lambda, first, states, bplp) && ReducesAfter(g, w, u, r, t)
    ensures At(states, w) == At(states, u) == Some(s) && s < |states| && g.Terminal(t)
  {
    var it := Item(r, |g.rules[r].rhs|);
    assert g.Valid() && Valid(g, w, it) == Valid(g, u, it);
    hide Built, Valid, At, LookIn;
    var n: nat :| LookIn(g, u, it, t, n);
    LookValid(g, u, it, t, n);
    StateIsValidItems(g, lambda, first, states, bplp, u, it);
    StateIsValidItems(g, lambda, first, states, bplp, w, it);
    SamePrefixState(g, lambda, first, states, bplp, w, u);
    s := At(states, w).value;
  }

  /** What a prefix can reduce, its state calls for. */
  lemma ReducesCalled(g: Grammar, lambda: seq<bool>, first: seq<set<nat>>, states: seq<State>, bplp: BackLinks,
                      v: Follows, w: Form, r: nat, t: nat) returns (s: nat)
    requires Built(g, lambda, first, states, bplp) && FollowsExact(g, states, v) && ReducesOn(g, w, r, t)
    ensures At(states, w) == Some(s) && s < |states| && Called(g, states, v, s, Action(t, REDUCE, r))
  {
    hide Built, SameItems, At, Look, MayFollow;
    var u :| ReducesAfter(g, w, u, r, t);
    s := ReducesAt(g, lambda, first, states, bplp, w, u, r, t);
    assert Looked(g, states, s, Item(r, |g.rules[r].rhs|), t);
  }

  lemma ShiftsCalled(g: Grammar, lambda: seq<bool>, first: seq<set<nat>>, states: seq<State>, bplp: BackLinks,
                     v: Follows, w: Form, s: nat, x: nat)
    requires Built(g, lambda, first, states, bplp) && At(states, w) == Some(s) && s < |states| && ShiftsOn(g, w, x)
    ensures x in states[s].shifts && Called(g, states, v, s, Action(x, SHIFT, states[s].shifts[x]))
  {
    var it: Item :| NextAfter(g, w, it, x);
    StateIsValidItems(g, lambda, first, states, bplp, w, it);
    ShiftedItem(g, lambda, first, states, bplp, s, it);
  }

  /** The automaton is free of conflicts exactly if the grammar is LALR(1). */
  lemma ConflictFreeIsLalr1(g: Grammar, lambda: seq<bool>, first: seq<set<nat>>, states: seq<State>, bplp: BackLinks,
                            v: Follows)
    requires Built(g, lambda, first, states, bplp) && Traced(g, states, bplp) && FollowsExact(g, states, v)
    ensures NoConflicts(g, states, v) <==> Lalr1(g)
  {
    hide ReducesOn, ShiftsOn, At, Built, Traced, FollowsExact, MayFollow;
    if Lalr1(g) {
      forall s: nat, a, b | s < |states| && Called(g, states, v, s, a) && Called(g, states, v, s, b) && a.sp == b.sp
        ensures a == b
      {
        var w := StateReached(g, lambda, first, states, bplp, s);
        ConflictOnPrefix(g, lambda, first, states, bplp, v, w, s, a, b);
      }
    }
    if NoConflicts(g, states, v) {
      forall w, r: nat, t: nat | ReducesOn(g, w, r, t) ensures !ShiftsOn(g, w, t) {
        var s := ReducesCalled(g, lambda, first, states, bplp, v, w, r, t);
        if ShiftsOn(g, w, t) {
          ShiftsCalled(g, lambda, first, states, bplp, v, w, s, t);
        }
      }
      forall w, r: nat, q: nat, t: nat | ReducesOn(g, w, r, t) && ReducesOn(g, w, q, t) ensures r == q {
        var s := ReducesCalled(g, lambda, first, states, bplp, v, w, r, t);
        var s' := ReducesCalled(g, lambda, first, states, bplp, v, w, q, t);
      }
    }
  }

  lemma ConflictOnPrefix(g: Grammar, lambda: seq<bool>, first: seq<set<nat>>, states: seq<State>, bplp: BackLinks,
                         v: Follows, w: Form, s: nat, a: Action, b: Action)
    requires Built(g, lambda, first, states, bplp) && FollowsExact(g, states, v) && Lalr1(g)
      && At(states, w) == Some(s) && s < |states|
    requires Called(g, states, v, s, a) && Called(g, states, v, s, b) && a.sp == b.sp
    ensures a == b
  {
    assert g.Nonterminal(g.start) && g.start !in states[0].shifts;
    hide ReducesOn, ShiftsOn, At, Built, FollowsExact, MayFollow;
    if a.kind.REDUCE? {
      assert a == Action(a.sp, REDUCE, a.arg);
      CalledReduces(g, lambda, first, states, bplp, v, w, s, a.arg, a.sp);
    }
    if b.kind.REDUCE? {
      assert b == Action(b.sp, REDUCE, b.arg);
      CalledReduces(g, lambda, first, states, bplp, v, w, s, b.arg, b.sp);
    }
    if a.kind.SHIFT? {
      CalledShifts(g, lambda, first, states, bplp, w, s, a.sp);
    }
    if b.kind.SHIFT? {
      CalledShifts(g, lambda, first, states, bplp, w, s, b.sp);
    }
  }

  /** No state's list has a conflict. */
  ghost predicate AllFree(raws: seq<seq<Action>>) {
    forall s :: 0 <= s < |raws| ==> ConflictFree(raws[s])
  }

  lemma AllFreeMore(raws: seq<seq<Action>>, raw: seq<Action>)
    ensures AllFree(raws + [raw]) <==> AllFree(raws) && ConflictFree(raw)
  {
    var now := raws + [raw];
    assert now[|raws|] == raw && forall s :: 0 <= s < |raws| ==> raws[s] == now[s];
  }

  /** The lists of the first `n` states are finished. */
  ghost predicate FinishedUpTo(g: Grammar, states: seq<State>, v: Follows, raws: seq<seq<Action>>,
                               mids: seq<seq<Action>>, lists: seq<seq<Action>>, n: nat)
  {
    && |raws| == |mids| == |lists| == n <= |states|
    && forall s: nat :: s < n ==> FinishedIn(g, states, v, s, raws[s], mids[s], lists[s])
  }

  lemma FinishedNext(g: Grammar, states: seq<State>, v: Follows, raws: seq<seq<Action>>, mids: seq<seq<Action>>,
                     lists: seq<seq<Action>>, s: nat, raw: seq<Action>, mid: seq<Action>, final: seq<Action>)
    requires FinishedUpTo(g, states, v, raws, mids, lists, s) && s < |states|
      && FinishedIn(g, states, v, s, raw, mid, final)
    ensures FinishedUpTo(g, states, v, raws + [raw], mids + [mid], lists + [final], s + 1)
  {
    hide FinishedIn;
  }

  lemma FinishedStartEnd(g: Grammar, states: seq<State>, v: Follows, raws: seq<seq<Action>>, mids: seq<seq<Action>>,
                         lists: seq<seq<Action>>)
    ensures FinishedUpTo(g, states, v, [], [], [], 0) && AllFree([])
    ensures FinishedUpTo(g, states, v, raws, mids, lists, |states|) ==> AllFinished(g, states, v, raws, mids, lists)
  {
    hide FinishedIn;
  }

  /** FindActions and CompressTables for all states. */
  method AllLists(g: Grammar, ghost lambda: seq<bool>, ghost first: seq<set<nat>>, states: seq<State>,
                  ghost bplp: BackLinks, v: Follows, p: Precedence)
    returns (lists: seq<seq<Action>>, nconflict: nat, ghost raws: seq<seq<Action>>, ghost mids: seq<seq<Action>>)
    requires Built(g, lambda, first, states, bplp) && |bplp| <= |v| && Small(g) && p.Ok(g.nsymbol, |g.rules|)
    ensures AllFinished(g, states, v, raws, mids, lists)
    ensures AllFree(raws) ==> nconflict == 0
    ensures nconflict == 0 && NoPrecedence(p) ==> AllFree(raws)
    ensures |raws| == |mids| == |states| && AllResolved(g, states, v, p, raws, mids)
    ensures nconflict == 0 <==> Uncounted(p, raws)
  {
    hide *;
    lists, nconflict, raws, mids := [], 0, [], [];
    NoneResolved(g, states, v, p);
    NoneListed(p);
    FinishedStartEnd(g, states, v, raws, mids, lists);
    for s := 0 to |states|
      invariant FinishedUpTo(g, states, v, raws, mids, lists, s)
      invariant AllFree(raws) ==> nconflict == 0
      invariant nconflict == 0 && NoPrecedence(p) ==> AllFree(raws)
      invariant |raws| == |mids| == s && AllResolved(g, states, v, p, raws, mids)
      invariant nconflict == 0 <==> Uncounted(p, raws)
    {
      var final, n;
      ghost var raw, mid;
      final, n, raw, mid := FinishState(g, lambda, first, states, bplp, v, s, p);
      MidSymbols(g, lambda, first, states, bplp, v, s, raw, mid, final);
      AllFreeMore(raws, raw);
      FinishedNext(g, states, v, raws, mids, lists, s, raw, mid, final);
      ResolvedNext(g, states, v, p, raws, mids, raw, mid);
      ResolvedFits(p, raw, mid);
      UncountedNext(p, raws, raw);
      lists, nconflict, raws, mids := lists + [final], nconflict + n, raws + [raw], mids + [mid];
    }
    FinishedStartEnd(g, states, v, raws, mids, lists);
  }

  lemma ResolvedFits(p: Precedence, raw: seq<Action>, mid: seq<Action>)
    requires Resolved(p, raw, mid)
    ensures ListFits(p, raw)
  {
  }

  lemma MidSymbols(g: Grammar, lambda: seq<bool>, first: seq<set<nat>>, states: seq<State>, bplp: BackLinks,
                   v: Follows, s: nat, raw: seq<Action>, mid: seq<Action>, final: seq<Action>)
    requires Built(g, lambda, first, states, bplp) && s < |states| && Finished(g, states, v, s, raw, mid, final)
    ensures FinishedIn(g, states, v, s, raw, mid, final)
  {
    forall i | 0 <= i < |raw| ensures raw[i].sp < g.nsymbol {
      assert raw[i] in raw;
      CalledSymbols(g, lambda, first, states, bplp, v, s, raw[i]);
    }
    DemotedSymbols(raw, mid, g.nsymbol);
  }

  /** Lists without conflicts are those of an automaton without conflicts. */
  lemma ConflictFreeLists(g: Grammar, states: seq<State>, v: Follows, raws: seq<seq<Action>>, mids: seq<seq<Action>>,
                          lists: seq<seq<Action>>)
    requires AllFinished(g, states, v, raws, mids, lists)
    ensures NoConflicts(g, states, v) <==> AllFree(raws)
  {
    if NoConflicts(g, states, v) {
      forall s, i, j | 0 <= s < |raws| && 0 <= i < j < |raws[s]| ensures raws[s][i].sp != raws[s][j].sp {
        assert Lists(g, states, v, s, raws[s]);
        assert raws[s][i] in raws[s] && raws[s][j] in raws[s];
      }
    }
    if AllFree(raws) {
      forall s: nat, a, b | s < |states| && Called(g, states, v, s, a) && Called(g, states, v, s, b) && a.sp == b.sp
        ensures a == b
      {
        assert Lists(g, states, v, s, raws[s]) && ConflictFree(raws[s]);
        assert a in raws[s] && b in raws[s];
      }
    }
  }

  /** What qsort may deliver for ReportTable: the sets in order of size, ties in any order. */
  ghost predicate Orders(qsort: (seq<seq<Action>>, Sizes) -> seq<AxSet>) {
    forall lists, sz :: OrderOk(lists, qsort(lists, sz), sz)
  }

  lemma OneLiveLists(g: Grammar, states: seq<State>, v: Follows, raws: seq<seq<Action>>, mids: seq<seq<Action>>,
                     lists: seq<seq<Action>>)
    requires AllFinished(g, states, v, raws, mids, lists)
    ensures forall l :: l in lists ==> OneLive(l)
  {
  }

  /** The states are the sets of valid items. */
  ghost predicate StatesExact(g: Grammar, states: seq<State>) {
    forall w, it: Item :: Valid(g, w, it) <==>
      At(states, w).Some? && At(states, w).value < |states| && it in states[At(states, w).value].cl.items
  }

  lemma BuiltExact(g: Grammar, lambda: seq<bool>, first: seq<set<nat>>, states: seq<State>, bplp: BackLinks)
    requires Built(g, lambda, first, states, bplp)
    ensures StatesExact(g, states)
  {
    hide Built, Valid, At;
    forall w, it: Item
      ensures Valid(g, w, it) <==>
        At(states, w).Some? && At(states, w).value < |states| && it in states[At(states, w).value].cl.items
    {
      StateIsValidItems(g, lambda, first, states, bplp, w, it);
    }
  }

  /** What one run of lemon makes of the grammar: an automaton of valid items, follow sets that are its
      lookaheads, and tables that stay within both, do something wherever they call for something, and
      reduce by nothing that they never call for. */
  ghost predicate Faithful(p: Generated) {
    && p.Sound() && p.k.Ok() && p.k.sz.nstate == |p.states|
    && StatesExact(p.g, p.states) && LeastFollows(p.states, p.bplp, p.v) && FollowsExact(p.g, p.states, p.v)
    && Responsive(p.g, p.states, p.v, p.k) && Warranted(p.g, p.states, p.v, p.k)
  }

  /** Wherever a state calls for something, its tables do what the conflict loops leave over. */
  lemma GeneratedChooses(g: Grammar, states: seq<State>, v: Follows, k: Constants, p: Precedence,
                         raws: seq<seq<Action>>, mids: seq<seq<Action>>, lists: seq<seq<Action>>)
    requires g.Valid() && AllFinished(g, states, v, raws, mids, lists) && TablesAnswer(g, k, lists)
      && AllResolved(g, states, v, p, raws, mids)
    ensures k.Ok() && k.sz.nstate == |states| && Chooses(g, states, v, k, p)
  {
    hide Finished, CalledOn, Effective, InOrder, Resolved, Chosen, TablesAnswer;
    SizesAnswer(g, k, lists);
    forall s: nat, x: nat | s < |states| && g.Terminal(x) && CalledOn(g, states, v, s, x)
      ensures Chosen(g, states, v, k, p, s, x)
    {
      FinalChosen(g, states, v, s, p, raws[s], mids[s], lists[s], x);
      ChosenCode(g, states, v, k, p, s, x, raws[s], lists);
    }
  }

  lemma SizesAnswer(g: Grammar, k: Constants, lists: seq<seq<Action>>)
    requires TablesAnswer(g, k, lists)
    ensures k.Ok() && k.sz.nstate == |lists| && forall x: nat :: g.Terminal(x) && g.Valid() ==> x < g.nsymbol
  {
  }

  lemma ChosenCode(g: Grammar, states: seq<State>, v: Follows, k: Constants, p: Precedence, s: nat, x: nat,
                   raw: seq<Action>, lists: seq<seq<Action>>)
    requires TablesAnswer(g, k, lists) && |lists| == |states| && s < |states| && g.Terminal(x)
    requires InOrder(g, states, v, s, raw) && ListFits(p, raw) && Champion(p, raw, x).Some?
    requires var c := Champion(p, raw, x).value; Effective(lists[s], x, g.nsymbol) == Some((c.kind, c.arg))
    ensures k.Ok() && k.sz.nstate == |states| && Chosen(g, states, v, k, p, s, x)
  {
    assert ChosenFrom(g, states, v, k, p, s, x, raw);
  }

  lemma ResolvedAll(g: Grammar, states: seq<State>, v: Follows, raws: seq<seq<Action>>, mids: seq<seq<Action>>,
                    lists: seq<seq<Action>>)
    requires AllFinished(g, states, v, raws, mids, lists)
    ensures |raws| == |states|
  {
  }

  /** The conclusion for one run of lemon. */
  lemma Concludes(p: Generated, prec: Precedence, nconflict: nat, raws: seq<seq<Action>>, mids: seq<seq<Action>>,
                  lists: seq<seq<Action>>)
    requires Built(p.g, p.lambda, p.first, p.states, p.bplp) && Traced(p.g, p.states, p.bplp)
    requires AllFinished(p.g, p.states, p.v, raws, mids, lists) && TablesAnswer(p.g, p.k, lists)
    requires FollowsOk(p.g, p.lambda, p.first, p.states, p.v) && FollowsExact(p.g, p.states, p.v)
      && LeastFollows(p.states, p.bplp, p.v)
    requires AllFree(raws) ==> nconflict == 0
    requires nconflict == 0 && NoPrecedence(prec) ==> AllFree(raws)
    requires nconflict == 0 <==> Uncounted(prec, raws)
    requires FirstsOk(p.g, p.lambda, p.first) && p.g.Valid() && AllResolved(p.g, p.states, p.v, prec, raws, mids)
    ensures Faithful(p) && Chooses(p.g, p.states, p.v, p.k, prec)
    ensures Lalr1(p.g) ==> p.Complete() && nconflict == 0 && OneTreeEach(p.g)
    ensures Lalr1(p.g) ==> Settled(p) && EveryCallEnds(p)
    ensures NoPrecedence(prec) ==> (nconflict == 0 <==> Lalr1(p.g))
    ensures Outcome(p, prec) && (nconflict == 0 <==> AllDecided(p.g, p.states, p.v, prec))
    ensures ParserErrors.StartApart(p.g) ==> ParserErrors.AtEndOnly(p)
  {
    hide Built, Traced, AllFinished, TablesAnswer, FollowsOk, FollowsExact, LeastFollows, FirstsOk, AllFree,
      NoConflicts, NoPrecedence, Lalr1, StatesExact, Responsive, AllResolved, Chooses, OneTreeEach, Warranted,
      EveryCallEnds, AllDecided, Uncounted, ParserErrors.StartApart, ParserErrors.AtEndOnly;
    ResolvedAll(p.g, p.states, p.v, raws, mids, lists);
    UncountedIsDecided(p.g, p.states, p.v, prec, raws, mids);
    GeneratedSound(p.g, p.lambda, p.first, p.states, p.bplp, p.v, p.k, raws, mids, lists);
    GeneratedResponsive(p.g, p.states, p.v, p.k, raws, mids, lists);
    GeneratedWarranted(p.g, p.lambda, p.first, p.states, p.bplp, p.v, p.k, raws, mids, lists);
    GeneratedChooses(p.g, p.states, p.v, p.k, prec, raws, mids, lists);
    BuiltExact(p.g, p.lambda, p.first, p.states, p.bplp);
    if ParserErrors.StartApart(p.g) {
      ParserErrors.ApartAtEndOnly(p);
    }
    ConflictFreeLists(p.g, p.states, p.v, raws, mids, lists);
    ConflictFreeIsLalr1(p.g, p.lambda, p.first, p.states, p.bplp, p.v);
    if NoConflicts(p.g, p.states, p.v) {
      GeneratedComplete(p.g, p.lambda, p.first, p.states, p.bplp, p.v, p.k, raws, mids, lists);
      CompleteIsUnambiguous(p);
      SettledDeals(p);
    }
  }

  /** lemon: from a grammar to its parser.  Whatever the grammar, the states, lookaheads and tables are
      those of the grammar, conflicts are decided as the precedences say, and the parser is sound.  For
      an LALR(1) grammar it is complete, lemon counts no conflicts, no sentence has two trees, and every call
      ends; if no precedence is declared, it counts none for no other grammar.  If the start symbol is on no
      right-hand side, as lemon asks, the parser accepts at the end marker only. */
  method Generate(g: Grammar, p: Precedence, qsort: (seq<seq<Action>>, Sizes) -> seq<AxSet>, depth: nat)
    returns (k: Constants, nconflict: nat, ghost made: Generated)
    requires g.Valid() && StartNotFirst(g) && Small(g) && p.Ok(g.nsymbol, |g.rules|) && Orders(qsort) && depth > 0
    ensures made.g == g && made.k == k && k.depth == depth && Faithful(made)
    ensures Chooses(g, made.states, made.v, k, p)
    ensures Lalr1(g) ==> made.Complete() && nconflict == 0 && OneTreeEach(g) && Settled(made) && EveryCallEnds(made)
    ensures NoPrecedence(p) ==> (nconflict == 0 <==> Lalr1(g))
    ensures Outcome(made, p) && (nconflict == 0 <==> AllDecided(g, made.states, made.v, p))
    ensures ParserErrors.StartApart(g) ==> ParserErrors.AtEndOnly(made)
  {
    hide FirstsOk, FollowsOk, Orders, TablesAnswer, AllFinished, NoConflicts, NoPrecedence, AllFree, Traced,
      FollowsExact, LeastFollows, Lalr1, StartNotFirst, Complete, AutomatonOk, AllResolved, Chooses, OneTreeEach,
      Settled, EveryCallEnds, Outcome, AllDecided, Uncounted, ParserErrors.StartApart, ParserErrors.AtEndOnly;
    var lambdas, firsts := FindFirstSets(g);
    var first := firsts.Sets();
    var lambda := lambdas[..];
    FirstsReady(g, lambda, first);
    var b := new Builder(g, lambda, first);
    b.FindStates();
    var states := b.states;
    StartNotShifted(g, lambda, first, states, b.bplp);
    assert Built(g, lambda, first, states, b.bplp);
    var v := FollowsOf(b);
    var lists;
    ghost var raws, mids;
    lists, nconflict, raws, mids := AllLists(g, lambda, first, states, b.bplp, v, p);
    k := Tabulate(g, lists, qsort, depth, states, v, raws, mids);
    made := Generated(g, lambda, first, states, b.bplp, v, k);
    Concludes(made, p, nconflict, raws, mids, lists);
  }

  lemma FirstsReady(g: Grammar, lambda: seq<bool>, first: seq<set<nat>>)
    requires g.Valid() && |lambda| == g.nsymbol && |first| == g.nsymbol
    requires LambdaSound(g, lambda) && LambdaClosed(g, lambda) && FirstSound(g, first) && FirstClosed(g, lambda, first)
    ensures FirstsOk(g, lambda, first)
  {
  }

  /** The emitted constants. */
  method Tabulate(g: Grammar, lists: seq<seq<Action>>, qsort: (seq<seq<Action>>, Sizes) -> seq<AxSet>, depth: nat,
                  ghost states: seq<State>, ghost v: Follows, ghost raws: seq<seq<Action>>,
                  ghost mids: seq<seq<Action>>)
    returns (k: Constants)
    requires g.Valid() && Orders(qsort) && depth > 0 && |states| > 0 && AllFinished(g, states, v, raws, mids, lists)
    ensures TablesAnswer(g, k, lists) && k.depth == depth
  {
    OneLiveLists(g, states, v, raws, mids, lists);
    var sz := Sizes(g.nterminal, g.nsymbol, |lists|, |g.rules|);
    var tables := ReportTable(lists, qsort(lists, sz), sz);
    k := Constants(tables, sz, g.rules, depth);
  }
}
