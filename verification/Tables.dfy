/** The generated parser's tables: how ReportTable lays the action lists of all states out in one
    packed array, and how the driver looks an action up again. */
module Tables {
  import opened Actions
  import ActTab
  import opened Options

  datatype Sizes = Sizes(nterminal: nat, nsymbol: nat, nstate: nat, nrule: nat) {
    /** Tokens are looked up through one offset of a state, nonterminals through the other. */
    predicate InClass(isTkn: bool, x: nat) {
      if isTkn then x < nterminal else nterminal <= x < nsymbol
    }
  }

  /** Action numbers: shifts below nstate, then reductions, then error and accept. */
  function Code(kind: Kind, arg: nat, sz: Sizes): int {
    match kind
    case SHIFT => arg
    case REDUCE => arg + sz.nstate
    case ERROR => sz.nstate + sz.nrule
    case ACCEPT => sz.nstate + sz.nrule + 1
    case _ => -1
  }

  function CodeOf(e: Option<(Kind, nat)>, sz: Sizes): int {
    match e
    case None => sz.nstate + sz.nrule
    case Some((kind, arg)) => Code(kind, arg, sz)
  }

  datatype Tables = Tables(
    nstate: nat,
    yy_action: seq<int>, yy_lookahead: seq<int>,
    yy_shift_ofst: seq<int>, shift_use_dflt: int,
    yy_reduce_ofst: seq<int>, reduce_use_dflt: int,
    yy_default: seq<int>)
  {
    predicate Ok() {
      |yy_lookahead| == |yy_action| && |yy_shift_ofst| == |yy_reduce_ofst| == |yy_default| == nstate
    }

    /** The entry for `x` at an offset, if the slot confirms it. */
    function At(ofst: int, x: nat): Option<int>
      requires Ok()
    {
      var i := ofst + x;
      if i < 0 || i >= |yy_action| || yy_lookahead[i] != x then None else Some(yy_action[i])
    }

    /** yy_find_shift_action for a real token, without fallback tokens. */
    function FindShiftAction(stateno: nat, x: nat): int
      requires Ok() && stateno < nstate
    {
      if yy_shift_ofst[stateno] == shift_use_dflt then yy_default[stateno]
      else match At(yy_shift_ofst[stateno], x)
        case None => yy_default[stateno]
        case Some(action) => action
    }

    /** yy_find_shift_action when fallback tokens are declared (0: no fallback).  The recursion of
        the source ends only if the fallbacks do not run in a circle; None stands for a search
        that has followed `fuel` of them. */
    function FindWithFallback(fallback: seq<nat>, stateno: nat, x: nat, fuel: nat): Option<int>
      requires Ok() && stateno < nstate
      decreases fuel
    {
      if yy_shift_ofst[stateno] == shift_use_dflt then Some(yy_default[stateno])
      else match At(yy_shift_ofst[stateno], x)
        case Some(action) => Some(action)
        case None =>
          if x < |fallback| && fallback[x] != 0 then
            if fuel == 0 then None else FindWithFallback(fallback, stateno, fallback[x], fuel - 1)
          else Some(yy_default[stateno])
    }

    /** yy_find_reduce_action */
    function FindReduceAction(stateno: nat, x: nat): int
      requires Ok() && stateno < nstate
    {
      if yy_reduce_ofst[stateno] == reduce_use_dflt then yy_default[stateno]
      else match At(yy_reduce_ofst[stateno], x)
        case None => yy_default[stateno]
        case Some(action) => action
    }
  }

  // ----- the two transaction sets of a state

  /** The action belongs to the token set (or to the nonterminal set) of its state. */
  predicate InSet(act: Action, isTkn: bool, sz: Sizes) {
    act.Live() && sz.InClass(isTkn, act.sp)
  }

  function EntryOf(act: Action, sz: Sizes): ActTab.Entry {
    ActTab.Entry(act.sp, Code(act.kind, act.arg, sz))
  }

  function Entries(list: seq<Action>, isTkn: bool, sz: Sizes): seq<ActTab.Entry> {
    if list == [] then []
    else if InSet(list[0], isTkn, sz) then [EntryOf(list[0], sz)] + Entries(list[1..], isTkn, sz)
    else Entries(list[1..], isTkn, sz)
  }

  ghost predicate Comes(list: seq<Action>, isTkn: bool, sz: Sizes, e: ActTab.Entry) {
    exists act :: act in list && InSet(act, isTkn, sz) && e == EntryOf(act, sz)
  }

  lemma {:induction false} EntriesMembers(list: seq<Action>, isTkn: bool, sz: Sizes,
                                          e: ActTab.Entry)
    ensures e in Entries(list, isTkn, sz) <==> Comes(list, isTkn, sz, e)
  {
    if list != [] {
      EntriesMembers(list[1..], isTkn, sz, e);
      assert forall act :: act in list <==> act == list[0] || act in list[1..];
    }
  }

  /** With one live action per symbol, a transaction set mentions each lookahead once. */
  lemma {:induction false} EntriesDistinct(list: seq<Action>, isTkn: bool, sz: Sizes)
    requires OneLive(list)
    ensures ActTab.Distinct(ActTab.Elems(Entries(list, isTkn, sz)))
    ensures |ActTab.Elems(Entries(list, isTkn, sz))| == |Entries(list, isTkn, sz)|
  {
    if list != [] {
      var rest := Entries(list[1..], isTkn, sz);
      EntriesDistinct(list[1..], isTkn, sz);
      if InSet(list[0], isTkn, sz) {
        var e := EntryOf(list[0], sz);
        var all := Entries(list, isTkn, sz);
        forall f | f in rest ensures f.lookahead != e.lookahead {
          EntriesMembers(list[1..], isTkn, sz, f);
          var act :| act in list[1..] && InSet(act, isTkn, sz) && f == EntryOf(act, sz);
          var k :| 0 <= k < |list[1..]| && list[1..][k] == act;
          assert list[k + 1] == act;
        }
        assert all == [e] + rest;
        assert ActTab.Elems(all) == ActTab.Elems(rest) + {e};
      }
    }
  }

  /** The set of a state answers for a symbol of its class as the list does. */
  lemma SetAnswers(list: seq<Action>, isTkn: bool, sz: Sizes, x: nat)
    requires OneLive(list) && sz.InClass(isTkn, x)
    ensures var s := ActTab.Elems(Entries(list, isTkn, sz));
      ActTab.FindIn(s, x) == match LiveOn(list, x) case None => None case Some(act) => Some(Code(act.kind, act.arg, sz))
  {
    var s := ActTab.Elems(Entries(list, isTkn, sz));
    EntriesDistinct(list, isTkn, sz);
    LiveOnIn(list, x);
    match LiveOn(list, x) {
      case Some(act) =>
        var e := EntryOf(act, sz);
        assert Comes(list, isTkn, sz, e);
        EntriesMembers(list, isTkn, sz, e);
        assert e in s && e.lookahead == x;
      case None =>
        forall e | e in s ensures e.lookahead != x {
          EntriesMembers(list, isTkn, sz, e);
          var act :| act in list && InSet(act, isTkn, sz) && e == EntryOf(act, sz);
          LiveOnSome(list, act);
        }
    }
  }

  // ----- packing

  /** One of the two transaction sets of a state. */
  datatype AxSet = AxSet(stateno: nat, isTkn: bool)

  function SetOf(lists: seq<seq<Action>>, ax: AxSet, sz: Sizes): seq<ActTab.Entry>
    requires ax.stateno < |lists|
  {
    Entries(lists[ax.stateno], ax.isTkn, sz)
  }

  /** `order` is a result qsort may deliver: all sets, those with more actions first. */
  ghost predicate OrderOk(lists: seq<seq<Action>>, order: seq<AxSet>, sz: Sizes) {
    && (forall ax :: ax in order <==> ax.stateno < |lists|)
    && (forall i, j :: 0 <= i < j < |order| ==> |SetOf(lists, order[i], sz)| >= |SetOf(lists, order[j], sz)|)
  }

  /** Every set packed so far is found again at its offset. */
  ghost predicate Packed(lists: seq<seq<Action>>, t: seq<ActTab.Entry>, ofst: map<AxSet, int>, sz: Sizes) {
    forall ax :: ax in ofst ==> ax.stateno < |lists| && RowHolds(t, ofst[ax], SetOf(lists, ax, sz))
  }

  ghost predicate RowHolds(t: seq<ActTab.Entry>, ofst: int, set': seq<ActTab.Entry>) {
    set' != [] && ActTab.RowIs(t, ofst, ActTab.Elems(set'))
  }

  /** Packing one more set disturbs none of the earlier ones, even if it shares an offset. */
  lemma PackedOneMore(lists: seq<seq<Action>>, t: seq<ActTab.Entry>, u: seq<ActTab.Entry>, ofst: map<AxSet, int>,
                      sz: Sizes, ax: AxSet, o: int)
    requires Packed(lists, t, ofst, sz) && ax.stateno < |lists| && SetOf(lists, ax, sz) != []
    requires var s := ActTab.Elems(SetOf(lists, ax, sz));
      ActTab.RowIs(u, o, s) && ActTab.RowsKept(t, u, o) && (ActTab.RowIs(t, o, {}) || ActTab.RowIs(t, o, s))
    requires forall l :: l in lists ==> OneLive(l)
    ensures Packed(lists, u, ofst[ax := o], sz)
  {
    forall bx | bx in ofst && bx != ax ensures RowHolds(u, ofst[bx], SetOf(lists, bx, sz)) {
      var set' := SetOf(lists, bx, sz);
      assert RowHolds(t, ofst[bx], set');
      assert lists[bx.stateno] in lists;
      EntriesDistinct(lists[bx.stateno], bx.isTkn, sz);
      RowSurvives(t, u, ofst[bx], o, ActTab.Elems(set'), ActTab.Elems(SetOf(lists, ax, sz)), set'[0]);
    }
  }

  lemma RowSurvives(t: seq<ActTab.Entry>, u: seq<ActTab.Entry>, p: int, o: int, r: set<ActTab.Entry>,
                    s: set<ActTab.Entry>, e: ActTab.Entry)
    requires ActTab.RowIs(t, p, r) && e in r && 0 <= e.lookahead
    requires ActTab.RowIs(u, o, s) && ActTab.RowsKept(t, u, o) && (ActTab.RowIs(t, o, {}) || ActTab.RowIs(t, o, s))
    ensures ActTab.RowIs(u, p, r)
  {
    if p == o {
      assert ActTab.Find(t, p, e.lookahead) == ActTab.FindIn(r, e.lookahead);
      assert ActTab.FindIn({}, e.lookahead) == None;
      forall x: nat ensures ActTab.Find(u, p, x) == ActTab.FindIn(r, x) {
        assert ActTab.Find(t, p, x) == ActTab.FindIn(r, x) && ActTab.Find(t, p, x) == ActTab.FindIn(s, x);
      }
    } else {
      forall x: nat ensures ActTab.Find(u, p, x) == ActTab.FindIn(r, x) {
        assert ActTab.Find(u, p, x) == ActTab.Find(t, p, x);
      }
    }
  }

  /** Hand the actions of one set to the table builder. */
  method FillSet(tab: ActTab.ActTab, list: seq<Action>, isTkn: bool, sz: Sizes)
    requires tab.Valid() && tab.Pending() == []
    modifies tab, tab.aLookahead
    ensures tab.Valid() && tab.Pending() == Entries(list, isTkn, sz)
    ensures tab.aAction == old(tab.aAction) && tab.Table() == old(tab.Table())
    ensures tab.aLookahead == old(tab.aLookahead) || fresh(tab.aLookahead)
  {
    ghost var t0 := tab.Table();
    for j := 0 to |list|
      invariant tab.Valid() && tab.aAction == old(tab.aAction) && tab.Table() == t0
      invariant tab.aLookahead == old(tab.aLookahead) || fresh(tab.aLookahead)
      invariant tab.Pending() + Entries(list[j..], isTkn, sz) == Entries(list, isTkn, sz)
    {
      assert list[j..][0] == list[j] && list[j..][1..] == list[j + 1..];
      if InSet(list[j], isTkn, sz) {
        tab.Action(list[j].sp, Code(list[j].kind, list[j].arg, sz));
      }
    }
  }

  /** One turn of the packing loop. */
  method PackOne(tab: ActTab.ActTab, lists: seq<seq<Action>>, ax: AxSet, sz: Sizes, ghost ofst: map<AxSet, int>)
    returns (o: int, ghost t: seq<ActTab.Entry>)
    requires tab.Valid() && tab.Pending() == [] && Packed(lists, tab.Table(), ofst, sz)
    requires ax.stateno < |lists| && SetOf(lists, ax, sz) != [] && forall l :: l in lists ==> OneLive(l)
    modifies tab, tab.aAction, tab.aLookahead
    ensures tab.Valid() && tab.Pending() == [] && t == tab.Table() && Packed(lists, t, ofst[ax := o], sz)
    ensures tab.aAction == old(tab.aAction) || fresh(tab.aAction)
    ensures tab.aLookahead == old(tab.aLookahead) || fresh(tab.aLookahead)
  {
    ghost var t0 := tab.Table();
    assert lists[ax.stateno] in lists;
    EntriesDistinct(lists[ax.stateno], ax.isTkn, sz);
    FillSet(tab, lists[ax.stateno], ax.isTkn, sz);
    o := tab.Insert();
    t := tab.Table();
    PackedOneMore(lists, t0, t, ofst, sz, ax, o);
  }

  /** The offsets handed out, and the least of them for each class (at most 0). */
  datatype Layout = Layout(ofst: map<AxSet, int>, mnTkn: int, mnNt: int) {
    function Least(isTkn: bool): int {
      if isTkn then mnTkn else mnNt
    }

    function Note(ax: AxSet, o: int): Layout {
      Layout(ofst[ax := o], if ax.isTkn && o < mnTkn then o else mnTkn, if !ax.isTkn && o < mnNt then o else mnNt)
    }

    /** The layout knows exactly the sets in `done`, and its minima are below their offsets. */
    ghost predicate Covers(done: seq<AxSet>) {
      && (forall ax :: ax in ofst <==> ax in done)
      && (forall ax :: ax in ofst ==> Least(ax.isTkn) <= ofst[ax])
    }
  }

  lemma NoteCovers(l: Layout, order: seq<AxSet>, i: nat, o: int)
    requires i < |order| && l.Covers(order[..i])
    ensures l.Note(order[i], o).Covers(order[..i + 1])
  {
    assert order[..i + 1] == order[..i] + [order[i]];
  }

  /** The packing loop of ReportTable, up to the first set without actions. */
  method Pack(lists: seq<seq<Action>>, order: seq<AxSet>, sz: Sizes)
    returns (t: seq<ActTab.Entry>, l: Layout, ghost n: nat)
    requires OrderOk(lists, order, sz) && forall l :: l in lists ==> OneLive(l)
    ensures Packed(lists, t, l.ofst, sz)
    ensures n <= |order| && l.Covers(order[..n]) && (n < |order| ==> SetOf(lists, order[n], sz) == [])
  {
    var tab := new ActTab.ActTab();
    l := Layout(map[], 0, 0);
    ghost var u := tab.Table();
    var i := 0;
    while i < |order| && |SetOf(lists, order[i], sz)| > 0
      invariant i <= |order|
      invariant fresh(tab) && fresh(tab.aAction) && fresh(tab.aLookahead) && tab.Valid() && tab.Pending() == []
      invariant u == tab.Table() && Packed(lists, u, l.ofst, sz)
      invariant l.Covers(order[..i])
    {
      var o;
      o, u := PackOne(tab, lists, order[i], sz, l.ofst);
      NoteCovers(l, order, i, o);
      l := l.Note(order[i], o);
      i := i + 1;
    }
    t := tab.aAction[..tab.nAction];
    n := i;
  }

  /** The sets that got an offset are those with actions: the order is by size. */
  lemma PackedAll(lists: seq<seq<Action>>, order: seq<AxSet>, sz: Sizes, t: seq<ActTab.Entry>, l: Layout, n: nat,
                  ax: AxSet)
    requires OrderOk(lists, order, sz) && Packed(lists, t, l.ofst, sz)
    requires n <= |order| && l.Covers(order[..n]) && (n < |order| ==> SetOf(lists, order[n], sz) == [])
    requires ax.stateno < |lists|
    ensures ax in l.ofst <==> SetOf(lists, ax, sz) != []
  {
    assert ax in l.ofst ==> RowHolds(t, l.ofst[ax], SetOf(lists, ax, sz));
    var k :| 0 <= k < |order| && order[k] == ax;
    if k < n {
      assert order[..n][k] == ax;
    }
  }

  // ----- the emitted tables

  function OffsetOf(l: Layout, ax: AxSet): int {
    if ax in l.ofst then l.ofst[ax] else l.Least(ax.isTkn) - 1
  }

  function DefaultOf(list: seq<Action>, sz: Sizes): int {
    CodeOf(match LiveOn(list, sz.nsymbol) case None => None case Some(act) => Some((act.kind, act.arg)), sz)
  }

  /** Unused slots get a lookahead no symbol has; a state without a set gets the offset that means
      "use the default". */
  function Emitted(lists: seq<seq<Action>>, sz: Sizes, t: seq<ActTab.Entry>, l: Layout): (tables: Tables)
    requires |lists| == sz.nstate
    ensures tables.Ok() && tables.nstate == sz.nstate
  {
    Tables(sz.nstate,
           seq(|t|, i requires 0 <= i < |t| => if t[i].action < 0 then sz.nsymbol + sz.nrule + 2 else t[i].action),
           seq(|t|, i requires 0 <= i < |t| => if t[i].lookahead < 0 then sz.nsymbol else t[i].lookahead),
           seq(sz.nstate, s requires 0 <= s => OffsetOf(l, AxSet(s, true))), l.mnTkn - 1,
           seq(sz.nstate, s requires 0 <= s => OffsetOf(l, AxSet(s, false))), l.mnNt - 1,
           seq(sz.nstate, s requires 0 <= s < |lists| => DefaultOf(lists[s], sz)))
  }

  /** The driver's probe of the emitted arrays finds what the packed table holds. */
  lemma ProbeFinds(lists: seq<seq<Action>>, sz: Sizes, t: seq<ActTab.Entry>, l: Layout, o: int, x: nat)
    requires |lists| == sz.nstate && x < sz.nsymbol
    requires ActTab.Find(t, o, x).Some? ==> ActTab.Find(t, o, x).value >= 0
    ensures Emitted(lists, sz, t, l).At(o, x) == match ActTab.Find(t, o, x) case None => None case Some(a) => Some(a)
  {
  }

  /** What the driver meets when it looks a token up in state `s`: the entries of the state's list,
      or the mark that there are none. */
  ghost predicate Probes(tables: Tables, list: seq<Action>, s: nat, sz: Sizes)
    requires tables.Ok() && s < tables.nstate
  {
    && tables.yy_default[s] == DefaultOf(list, sz)
    && if tables.yy_shift_ofst[s] == tables.shift_use_dflt then forall x: nat :: x < sz.nterminal ==>
      LiveOn(list, x).None?
       else forall x: nat :: x < sz.nterminal ==> tables.At(tables.yy_shift_ofst[s], x) == EntryOn(list, x, sz)
  }

  function EntryOn(list: seq<Action>, x: nat, sz: Sizes): Option<int> {
    match LiveOn(list, x)
    case None => None
    case Some(act) => Some(Code(act.kind, act.arg, sz))
  }

  lemma StateProbes(lists: seq<seq<Action>>, sz: Sizes, t: seq<ActTab.Entry>, l: Layout, s: nat)
    requires |lists| == sz.nstate && s < sz.nstate && OneLive(lists[s]) && sz.nterminal <= sz.nsymbol
    requires Packed(lists, t, l.ofst, sz)
    requires AxSet(s, true) in l.ofst <==> SetOf(lists, AxSet(s, true), sz) != []
    requires AxSet(s, true) in l.ofst ==> l.mnTkn <= l.ofst[AxSet(s, true)]
    ensures Probes(Emitted(lists, sz, t, l), lists[s], s, sz)
  {
    var ax := AxSet(s, true);
    var tables := Emitted(lists, sz, t, l);
    forall x: nat | x < sz.nterminal
      ensures if ax in l.ofst then tables.At(l.ofst[ax], x) == EntryOn(lists[s], x, sz) else LiveOn(lists[s], x).None?
    {
      SetAnswers(lists[s], true, sz, x);
      LiveOnIn(lists[s], x);
      if ax in l.ofst {
        assert RowHolds(t, l.ofst[ax], SetOf(lists, ax, sz));
        assert ActTab.Find(t, l.ofst[ax], x) == ActTab.FindIn(ActTab.Elems(SetOf(lists, ax, sz)), x);
        ProbeFinds(lists, sz, t, l, l.ofst[ax], x);
      } else {
        assert ActTab.Elems(SetOf(lists, ax, sz)) == {};
        assert ActTab.FindIn({}, x) == None;
      }
    }
  }

  /** One probe with its default answers as the action list does. */
  lemma StateAnswers(lists: seq<seq<Action>>, sz: Sizes, t: seq<ActTab.Entry>, l: Layout, s: nat, isTkn: bool, x: nat)
    requires |lists| == sz.nstate && s < sz.nstate && OneLive(lists[s]) && sz.InClass(isTkn, x)
      && sz.nterminal <= sz.nsymbol
    requires Packed(lists, t, l.ofst, sz)
    requires AxSet(s, isTkn) in l.ofst <==> SetOf(lists, AxSet(s, isTkn), sz) != []
    requires AxSet(s, isTkn) in l.ofst ==> l.Least(isTkn) <= l.ofst[AxSet(s, isTkn)]
    ensures var tables := Emitted(lists, sz, t, l);
      (if isTkn then tables.FindShiftAction(s, x) else tables.FindReduceAction(s, x))
        == CodeOf(Effective(lists[s], x, sz.nsymbol), sz)
  {
    var ax := AxSet(s, isTkn);
    SetAnswers(lists[s], isTkn, sz, x);
    LiveOnIn(lists[s], x);
    if ax in l.ofst {
      assert RowHolds(t, l.ofst[ax], SetOf(lists, ax, sz));
      assert ActTab.Find(t, l.ofst[ax], x) == ActTab.FindIn(ActTab.Elems(SetOf(lists, ax, sz)), x);
      ProbeFinds(lists, sz, t, l, l.ofst[ax], x);
    } else {
      assert ActTab.Elems(SetOf(lists, ax, sz)) == {};
      assert ActTab.FindIn({}, x) == None;
    }
  }

  /** ReportTable: for every state and symbol the driver's lookup gives the effective action of
      the state's list. */
  method ReportTable(lists: seq<seq<Action>>, order: seq<AxSet>, sz: Sizes) returns (tables: Tables)
    requires |lists| == sz.nstate && sz.nterminal <= sz.nsymbol && OrderOk(lists, order, sz) && forall l ::
      l in lists ==> OneLive(l)
    ensures tables.Ok() && tables.nstate == sz.nstate
    ensures forall s: nat, x: nat :: s < sz.nstate && x < sz.nterminal ==>
      tables.FindShiftAction(s, x) == CodeOf(Effective(lists[s], x, sz.nsymbol), sz)
    ensures forall s: nat, x: nat :: s < sz.nstate && sz.nterminal <= x < sz.nsymbol ==>
      tables.FindReduceAction(s, x) == CodeOf(Effective(lists[s], x, sz.nsymbol), sz)
    ensures forall s: nat :: s < sz.nstate ==> Probes(tables, lists[s], s, sz)
  {
    var t, l, n := Pack(lists, order, sz);
    tables := Emitted(lists, sz, t, l);
    forall s: nat | s < sz.nstate ensures Probes(tables, lists[s], s, sz) {
      PackedAll(lists, order, sz, t, l, n, AxSet(s, true));
      assert lists[s] in lists;
      StateProbes(lists, sz, t, l, s);
    }
    forall s: nat, x: nat | s < sz.nstate && x < sz.nterminal
      ensures tables.FindShiftAction(s, x) == CodeOf(Effective(lists[s], x, sz.nsymbol), sz)
    {
      PackedAll(lists, order, sz, t, l, n, AxSet(s, true));
      assert lists[s] in lists;
      StateAnswers(lists, sz, t, l, s, true, x);
    }
    forall s: nat, x: nat | s < sz.nstate && sz.nterminal <= x < sz.nsymbol
      ensures tables.FindReduceAction(s, x) == CodeOf(Effective(lists[s], x, sz.nsymbol), sz)
    {
      PackedAll(lists, order, sz, t, l, n, AxSet(s, false));
      assert lists[s] in lists;
      StateAnswers(lists, sz, t, l, s, false, x);
    }
  }
}
