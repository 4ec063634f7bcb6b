/** lemon's parser actions: conflict resolution and default-reduction compression of the action
    list of one state. */
module Actions {
  import MSort
  import opened Options

  datatype Kind = SHIFT | ACCEPT | REDUCE | ERROR | CONFLICT | SH_RESOLVED | RD_RESOLVED | NOT_USED

  /** An action on the lookahead `sp`; `arg` is the state of a shift or the rule of a reduction. */
  datatype Action = Action(sp: nat, kind: Kind, arg: nat) {
    /** The action reaches the generated tables. */
    predicate Live() {
      kind.SHIFT? || kind.ACCEPT? || kind.REDUCE?
    }
  }

  datatype Assoc = LEFT | RIGHT | NONE | UNK

  /** Declared precedence (-1: none) and associativity of symbols, and the precedence symbol of
      each rule. */
  datatype Precedence = Precedence(prec: seq<int>, assoc: seq<Assoc>, precsym: seq<Option<nat>>) {
    /** Precedence and associativity are declared together. */
    predicate Ok(nsymbol: nat, nrule: nat) {
      && |prec| == |assoc| == nsymbol && |precsym| == nrule
      && (forall x :: 0 <= x < nsymbol && 0 <= prec[x] ==> !assoc[x].UNK?)
      && (forall r :: 0 <= r < nrule && precsym[r].Some? ==> precsym[r].value < nsymbol)
    }
  }

  // ----- sorting

  function Rank(k: Kind): nat {
    match k
    case SHIFT => 0
    case ACCEPT => 1
    case REDUCE => 2
    case ERROR => 3
    case CONFLICT => 4
    case SH_RESOLVED => 5
    case RD_RESOLVED => 6
    case NOT_USED => 7
  }

  /** actioncmp */
  function ActionCmp(a: Action, b: Action): int {
    if a.sp != b.sp then a.sp - b.sp
    else if a.kind != b.kind then Rank(a.kind) - Rank(b.kind)
    else a.arg - b.arg
  }

  lemma ActionCmpIsComparison()
    ensures MSort.Comparison(ActionCmp)
  {
  }

  /** Action_sort, for lists that msort can hold. */
  method Sort(list: seq<Action>) returns (a: seq<Action>)
    requires |list| < 0x4000_0000
    ensures MSort.Sorted(a, ActionCmp) && multiset(a) == multiset(list) && |a| == |list|
    ensures forall x :: x in a <==> x in list
  {
    a := MSort.Msort(list, ActionCmp);
    ActionCmpIsComparison();
    MSort.MsortSortsStably(list, ActionCmp);
    MSort.MsortPermutes(list, ActionCmp);
    assert |multiset(a)| == |a| && |multiset(list)| == |list|;
    forall x ensures x in a <==> x in list {
      assert x in a <==> x in multiset(a);
      assert x in list <==> x in multiset(list);
    }
  }

  // ----- conflicts

  /** The list as it comes out of the sort, before any conflict is resolved: only live actions;
      actions on one symbol stand together, shifts first; one shift per symbol; accept alone. */
  ghost predicate Raw(a: seq<Action>) {
    && (forall i :: 0 <= i < |a| ==> a[i].Live())
    && Grouped(a)
    && (forall i, j :: 0 <= i < j < |a| && a[i].sp == a[j].sp ==> a[j].kind.REDUCE? && !a[i].kind.ACCEPT?)
  }

  ghost predicate Grouped(a: seq<Action>) {
    forall i, j :: 0 <= i < j < |a| ==> a[i].sp <= a[j].sp
  }

  /** resolve_conflict: the kinds of the two actions afterwards, and whether an error is counted. */
  function Resolve(p: Precedence, apx: Action, apy: Action): (Kind, Kind, nat)
    requires apx.sp == apy.sp && apx.sp < |p.prec| == |p.assoc|
    requires apx.kind.REDUCE? ==> apx.arg < |p.precsym|
    requires apy.kind.REDUCE? ==> apy.arg < |p.precsym|
    requires forall r :: 0 <= r < |p.precsym| && p.precsym[r].Some? ==> p.precsym[r].value < |p.prec|
  {
    if apx.kind.SHIFT? && apy.kind.REDUCE? then
      var spx, spy := apx.sp, p.precsym[apy.arg];
      if spy.None? || p.prec[spx] < 0 || p.prec[spy.value] < 0 then (apx.kind, CONFLICT, 1)
      else if p.prec[spx] > p.prec[spy.value] then (apx.kind, RD_RESOLVED, 0)
      else if p.prec[spx] < p.prec[spy.value] then (SH_RESOLVED, apy.kind, 0)
      else if p.assoc[spx].RIGHT? then (apx.kind, RD_RESOLVED, 0)
      else if p.assoc[spx].LEFT? then (SH_RESOLVED, apy.kind, 0)
      else (apx.kind, CONFLICT, 1)
    else if apx.kind.REDUCE? && apy.kind.REDUCE? then
      var spx, spy := p.precsym[apx.arg], p.precsym[apy.arg];
      if spx.None? || spy.None? || p.prec[spx.value] < 0 || p.prec[spy.value] < 0
        || p.prec[spx.value] == p.prec[spy.value]
      then (apx.kind, CONFLICT, 1)
      else if p.prec[spx.value] > p.prec[spy.value] then (apx.kind, RD_RESOLVED, 0)
      else (RD_RESOLVED, apy.kind, 0)
    else (apx.kind, apy.kind, 0)
  }

  /** Two live actions on one symbol never both survive, and never both die; any other pair is
      left alone. */
  lemma ResolveKillsOne(p: Precedence, x: Action, y: Action)
    requires x.sp == y.sp && x.sp < |p.prec| == |p.assoc|
    requires x.kind.REDUCE? ==> x.arg < |p.precsym|
    requires y.kind.REDUCE? ==> y.arg < |p.precsym|
    requires forall r :: 0 <= r < |p.precsym| && p.precsym[r].Some? ==> p.precsym[r].value < |p.prec|
    requires x.Live() && y.Live() ==> y.kind.REDUCE? && !x.kind.ACCEPT?
    ensures var (kx, ky, e) := Resolve(p, x, y);
      if x.Live() && y.Live()
      then (kx == x.kind && ky in {CONFLICT, RD_RESOLVED}) || (kx in {SH_RESOLVED, RD_RESOLVED} && ky == y.kind)
      else kx == x.kind && ky == y.kind && e == 0
  {
  }

  ghost predicate HasLive(a: seq<Action>, x: nat) {
    exists j :: 0 <= j < |a| && a[j].Live() && a[j].sp == x
  }

  /** At most one action per symbol is live. */
  ghost predicate OneLive(a: seq<Action>) {
    forall i, j :: 0 <= i < j < |a| && a[i].Live() && a[j].Live() ==> a[i].sp != a[j].sp
  }

  /** Only kinds have changed, and only by demoting live actions. */
  ghost predicate Demoted(was: seq<Action>, now: seq<Action>) {
    && |was| == |now|
    && forall i :: 0 <= i < |was| ==>
      now[i] == was[i] || (was[i].Live() && !now[i].Live() && now[i] == was[i].(kind := now[i].kind))
  }

  ghost predicate ListFits(p: Precedence, a: seq<Action>) {
    && |p.prec| == |p.assoc|
    && (forall i :: 0 <= i < |a| ==> a[i].sp < |p.prec| && (a[i].kind.REDUCE? ==> a[i].arg < |p.precsym|))
    && (forall r :: 0 <= r < |p.precsym| && p.precsym[r].Some? ==> p.precsym[r].value < |p.prec|)
  }

  /** No two actions share a symbol. */
  ghost predicate ConflictFree(a: seq<Action>) {
    forall i, j :: 0 <= i < j < |a| ==> a[i].sp != a[j].sp
  }

  /** What the loops of FindActions make of a list. */
  ghost predicate Resolving(was: seq<Action>, now: seq<Action>) {
    && Demoted(was, now)
    && (forall x :: HasLive(was, x) ==> HasLive(now, x))
    && (ConflictFree(was) ==> now == was)
  }

  /** No later action shares the symbol of action `m`. */
  ghost predicate Alone(a: seq<Action>, m: nat) {
    m < |a| && forall n :: m < n < |a| ==> a[m].sp != a[n].sp
  }

  /** No rule has a precedence symbol, so that nothing resolves a conflict silently. */
  ghost predicate NoPrecedence(p: Precedence) {
    forall r :: 0 <= r < |p.precsym| ==> p.precsym[r].None?
  }

  /** Row `i` is done: if it is live, nothing below it on the same symbol is. */
  ghost predicate RowDone(a: seq<Action>, i: nat, n: nat) {
    i < |a| && (a[i].Live() ==> forall j :: i < j < n && j < |a| && a[j].Live() ==> a[j].sp != a[i].sp)
  }

  /** What one comparison makes of the list. */
  function Duel(p: Precedence, a: seq<Action>, i: nat, j: nat): (b: seq<Action>)
    requires ListFits(p, a) && i < j < |a| && a[i].sp == a[j].sp
    ensures |b| == |a| && ListFits(p, b) && forall m :: 0 <= m < |a| ==> b[m].sp == a[m].sp
    ensures forall m :: 0 <= m < |a| && m != i && m != j ==> b[m] == a[m]
  {
    var (kx, ky, _) := Resolve(p, a[i], a[j]);
    a[i := a[i].(kind := kx)][j := a[j].(kind := ky)]
  }

  /** The inner loop for row `i`, from `j` on. */
  function RowFrom(p: Precedence, a: seq<Action>, i: nat, j: nat): (b: seq<Action>)
    requires ListFits(p, a) && i < j <= |a|
    ensures |b| == |a| && ListFits(p, b) && forall m :: 0 <= m < |a| ==> b[m].sp == a[m].sp
    ensures forall m :: 0 <= m < |a| && a[m].sp != a[i].sp ==> b[m] == a[m]
    decreases |a| - j
  {
    if j == |a| || a[j].sp != a[i].sp then a else RowFrom(p, Duel(p, a, i, j), i, j + 1)
  }

  /** Both loops, from row `i` on. */
  function RowsFrom(p: Precedence, a: seq<Action>, i: nat): (b: seq<Action>)
    requires ListFits(p, a) && i <= |a|
    ensures |b| == |a|
    decreases |a| - i
  {
    if i == |a| then a else RowsFrom(p, RowFrom(p, a, i, i + 1), i + 1)
  }

  /** How many conflicts the inner loop counts for row `i`, from `j` on. */
  function RowCount(p: Precedence, a: seq<Action>, i: nat, j: nat): nat
    requires ListFits(p, a) && i < j <= |a|
    decreases |a| - j
  {
    if j == |a| || a[j].sp != a[i].sp then 0 else Resolve(p, a[i], a[j]).2 + RowCount(p, Duel(p, a, i, j), i, j + 1)
  }

  /** How many both loops count, from row `i` on. */
  function RowsCount(p: Precedence, a: seq<Action>, i: nat): nat
    requires ListFits(p, a) && i <= |a|
    decreases |a| - i
  {
    if i == |a| then 0 else RowCount(p, a, i, i + 1) + RowsCount(p, RowFrom(p, a, i, i + 1), i + 1)
  }

  lemma PairResolved(p: Precedence, raw: seq<Action>, a: seq<Action>, b: seq<Action>, i: nat, j: nat)
    requires Raw(raw) && Resolving(raw, a) && ListFits(p, raw)
    requires i < j < |a| && a[i].sp == a[j].sp
    requires b == a[i := a[i].(kind := Resolve(p, a[i], a[j]).0)][j := a[j].(kind := Resolve(p, a[i], a[j]).1)]
    ensures Resolving(raw, b)
    ensures forall m, n :: RowDone(a, m, n) ==> RowDone(b, m, n)
    ensures !(b[i].Live() && b[j].Live())
  {
    ResolveKillsOne(p, a[i], a[j]);
    forall x | HasLive(raw, x) ensures HasLive(b, x) {
      assert HasLive(a, x);
      var m :| 0 <= m < |a| && a[m].Live() && a[m].sp == x;
      if a[i].Live() && a[j].Live() && x == a[i].sp {
        assert b[i].Live() || b[j].Live();
      } else {
        assert b[m] == a[m];
      }
    }
    assert forall m :: 0 <= m < |a| ==> b[m].sp == a[m].sp && (b[m].Live() ==> a[m].Live());
  }

  lemma FitsStill(p: Precedence, raw: seq<Action>, a: seq<Action>)
    requires ListFits(p, raw) && Demoted(raw, a)
    ensures ListFits(p, a)
  {
    assert forall i :: 0 <= i < |a| ==> a[i].sp == raw[i].sp && a[i].arg == raw[i].arg;
  }

  lemma RowFromStep(p: Precedence, a: seq<Action>, i: nat, j: nat)
    requires ListFits(p, a) && i < j < |a| && a[i].sp == a[j].sp
    ensures RowFrom(p, a, i, j) == RowFrom(p, Duel(p, a, i, j), i, j + 1)
    ensures RowCount(p, a, i, j) == Resolve(p, a[i], a[j]).2 + RowCount(p, Duel(p, a, i, j), i, j + 1)
  {
  }

  /** What meeting says about the counting of conflicts. */
  lemma PairCounts(p: Precedence, raw: seq<Action>, a: seq<Action>, i: nat, j: nat)
    requires Raw(raw) && Resolving(raw, a) && ListFits(p, raw) && ListFits(p, a)
    requires i < j < |a| && a[i].sp == a[j].sp
    ensures !ConflictFree(raw) && (NoPrecedence(p) && a == raw ==> Resolve(p, a[i], a[j]).2 > 0)
  {
    assert raw[i].sp == a[i].sp && raw[j].sp == a[j].sp;
  }

  lemma RowStarts(p: Precedence, raw: seq<Action>, a: seq<Action>, i: nat)
    requires Resolving(raw, a) && ListFits(p, raw) && i < |a|
    ensures ListFits(p, a) && RowDone(a, i, i + 1) && Demoted(raw, a) && (Raw(raw) ==> Grouped(raw))
  {
    FitsStill(p, raw, a);
  }

  lemma RowDoneNext(b: seq<Action>, i: nat, j: nat)
    requires RowDone(b, i, j) && j < |b| && !(b[i].Live() && b[j].Live())
    ensures RowDone(b, i, j + 1)
  {
  }

  lemma RowEntry(p: Precedence, a: seq<Action>, i: nat)
    requires ListFits(p, a) && i < |a|
    ensures a[i].sp < |p.prec| == |p.assoc| && (a[i].kind.REDUCE? ==> a[i].arg < |p.precsym|)
    ensures forall r :: 0 <= r < |p.precsym| && p.precsym[r].Some? ==> p.precsym[r].value < |p.prec|
  {
  }

  /** The inner loop, for row `i`. */
  method ResolveRow(p: Precedence, a: array<Action>, i: nat, ghost raw: seq<Action>) returns (nconflict: nat)
    requires Raw(raw) && ListFits(p, raw) && Resolving(raw, a[..]) && i < a.Length
    requires forall m: nat :: m < i ==> RowDone(a[..], m, a.Length)
    modifies a
    ensures Resolving(raw, a[..])
    ensures forall m: nat :: m <= i ==> RowDone(a[..], m, a.Length)
    ensures ConflictFree(raw) ==> nconflict == 0
    ensures nconflict == 0 && NoPrecedence(p) && old(a[..]) == raw ==> a[..] == raw && Alone(raw, i)
    ensures ListFits(p, old(a[..])) && a[..] == RowFrom(p, old(a[..]), i, i + 1)
    ensures nconflict == RowCount(p, old(a[..]), i, i + 1)
  {
    hide Raw, ListFits, Resolving, RowDone, ConflictFree, NoPrecedence, Alone, Demoted, Grouped, Resolve, RowFrom,
      RowCount;
    nconflict := 0;
    var j := i + 1;
    ghost var was := a[..];
    RowStarts(p, raw, was, i);
    ghost var goal, count, now := RowFrom(p, was, i, j), RowCount(p, was, i, j), was;
    while j < a.Length && a[j].sp == a[i].sp
      invariant i < j <= a.Length && now == a[..] && ListFits(p, now) && Resolving(raw, now)
      invariant RowFrom(p, now, i, j) == goal && RowDone(now, i, j)
      invariant nconflict + RowCount(p, now, i, j) == count
      invariant forall m: nat :: m < i ==> RowDone(now, m, a.Length)
      invariant ConflictFree(raw) ==> nconflict == 0
      invariant nconflict == 0 && NoPrecedence(p) && was == raw ==> j == i + 1 && now == raw
    {
      ghost var before := now;
      RowFromStep(p, now, i, j);
      PairCounts(p, raw, now, i, j);
      RowEntry(p, now, i);
      RowEntry(p, now, j);
      var (kx, ky, e) := Resolve(p, a[i], a[j]);
      a[i] := a[i].(kind := kx);
      a[j] := a[j].(kind := ky);
      nconflict := nconflict + e;
      now := a[..];
      assert now == Duel(p, before, i, j);
      PairResolved(p, raw, before, now, i, j);
      RowDoneNext(now, i, j);
      j := j + 1;
    }
    RowFromEnds(p, now, i, j);
    RowStarts(p, raw, now, i);
    RowResolved(raw, now, i, j);
  }

  lemma RowFromEnds(p: Precedence, a: seq<Action>, i: nat, j: nat)
    requires ListFits(p, a) && i < j <= |a| && (j < |a| ==> a[j].sp != a[i].sp)
    ensures RowFrom(p, a, i, j) == a && RowCount(p, a, i, j) == 0
  {
  }

  /** Actions on one symbol stand together, so a row is done when its symbol changes. */
  lemma RowResolved(raw: seq<Action>, a: seq<Action>, i: nat, j: nat)
    requires Grouped(raw) && Demoted(raw, a) && i < j <= |a| && RowDone(a, i, j) && (j < |a| ==> a[j].sp != a[i].sp)
    ensures RowDone(a, i, |a|) && (j == i + 1 ==> Alone(raw, i))
  {
    forall m | j <= m < |a| ensures a[m].sp != a[i].sp {
      assert raw[i].sp <= raw[j].sp <= raw[m].sp;
    }
  }

  /** The conflict loops of FindActions: wherever the state had an action on a symbol, exactly one
      stays live; a list without conflicts is left as it is.  The number counted is zero for a list
      without conflicts, and only for one if no precedence is declared. */
  method ResolveConflicts(p: Precedence, a: array<Action>) returns (nconflict: nat)
    requires Raw(a[..]) && ListFits(p, a[..])
    modifies a
    ensures Resolving(old(a[..]), a[..]) && OneLive(a[..])
    ensures ConflictFree(old(a[..])) ==> nconflict == 0
    ensures nconflict == 0 && NoPrecedence(p) ==> ConflictFree(old(a[..]))
    ensures a[..] == RowsFrom(p, old(a[..]), 0) && nconflict == RowsCount(p, old(a[..]), 0)
  {
    hide Resolving, RowDone, Raw, ListFits, ConflictFree, Alone, RowFrom, RowsFrom, NoPrecedence, OneLive, RowCount,
      RowsCount;
    nconflict := 0;
    ghost var raw := a[..];
    ghost var goal, now := RowsFrom(p, raw, 0), raw;
    NothingResolved(raw);
    for i := 0 to a.Length
      invariant now == a[..] && Resolving(raw, now)
      invariant forall m: nat :: m < i ==> RowDone(now, m, a.Length)
      invariant ConflictFree(raw) ==> nconflict == 0
      invariant nconflict == 0 && NoPrecedence(p) ==> now == raw && forall m: nat :: m < i ==> Alone(raw, m)
      invariant ListFits(p, now) && RowsFrom(p, now, i) == goal
      invariant nconflict + RowsCount(p, now, i) == RowsCount(p, raw, 0)
    {
      RowsFromStep(p, now, i);
      var e := ResolveRow(p, a, i, raw);
      nconflict := nconflict + e;
      now := a[..];
    }
    RowsDone(p, raw, now);
  }

  lemma NothingResolved(raw: seq<Action>)
    ensures Resolving(raw, raw)
  {
  }

  lemma RowsFromStep(p: Precedence, a: seq<Action>, i: nat)
    requires ListFits(p, a) && i < |a|
    ensures RowsFrom(p, a, i) == RowsFrom(p, RowFrom(p, a, i, i + 1), i + 1)
    ensures RowsCount(p, a, i) == RowCount(p, a, i, i + 1) + RowsCount(p, RowFrom(p, a, i, i + 1), i + 1)
  {
  }

  lemma RowsDone(p: Precedence, raw: seq<Action>, a: seq<Action>)
    requires |a| == |raw| && ListFits(p, a) && forall m: nat :: m < |a| ==> RowDone(a, m, |a|)
    ensures OneLive(a) && RowsFrom(p, a, |a|) == a && RowsCount(p, a, |a|) == 0
    ensures (forall m: nat :: m < |raw| ==> Alone(raw, m)) ==> ConflictFree(raw)
  {
    forall m, n | 0 <= m < n < |a| && a[m].Live() && a[n].Live() ensures a[m].sp != a[n].sp {
      assert RowDone(a, m, |a|);
    }
    if forall m: nat :: m < |raw| ==> Alone(raw, m) {
      forall m, n | 0 <= m < n < |raw| ensures raw[m].sp != raw[n].sp {
        assert Alone(raw, m);
      }
    }
  }

  // ----- looking an action up in a list

  /** The live action on symbol `x`. */
  function LiveOn(a: seq<Action>, x: nat): Option<Action> {
    if a == [] then None
    else if a[0].Live() && a[0].sp == x then Some(a[0])
    else LiveOn(a[1..], x)
  }

  lemma {:induction false} LiveOnSome(a: seq<Action>, act: Action)
    requires OneLive(a) && act in a && act.Live()
    ensures LiveOn(a, act.sp) == Some(act)
  {
    if a[0] != act {
      assert act in a[1..];
      var k :| 0 <= k < |a[1..]| && a[1..][k] == act;
      assert a[k + 1] == act;
      LiveOnSome(a[1..], act);
    }
  }

  lemma {:induction false} LiveOnIn(a: seq<Action>, x: nat)
    ensures LiveOn(a, x).Some? ==> LiveOn(a, x).value in a && LiveOn(a, x).value.Live() && LiveOn(a, x).value.sp == x
    ensures LiveOn(a, x).None? ==> !HasLive(a, x)
  {
    if a != [] {
      LiveOnIn(a[1..], x);
    }
  }

  lemma LiveOnCharacterised(a: seq<Action>, x: nat, act: Action)
    requires OneLive(a)
    ensures LiveOn(a, x) == Some(act) <==> act in a && act.Live() && act.sp == x
    ensures LiveOn(a, x) == None <==> !HasLive(a, x)
  {
    LiveOnIn(a, x);
    if act in a && act.Live() && act.sp == x {
      LiveOnSome(a, act);
    }
  }

  lemma TwiceInMultiset(a: seq<Action>, i: nat, j: nat)
    requires i < j < |a| && a[i] == a[j]
    ensures multiset(a)[a[i]] >= 2
  {
    assert a == a[..i] + [a[i]] + a[i + 1..j] + [a[j]] + a[j + 1..];
  }

  lemma {:induction false} TwoPlaces(a: seq<Action>, v: Action) returns (k: nat, l: nat)
    requires multiset(a)[v] >= 2
    ensures k < l < |a| && a[k] == v == a[l]
  {
    assert a == [a[0]] + a[1..];
    if a[0] == v {
      assert v in multiset(a[1..]);
      l :| 0 <= l < |a[1..]| && a[1..][l] == v;
      k, l := 0, l + 1;
    } else {
      k, l := TwoPlaces(a[1..], v);
      k, l := k + 1, l + 1;
    }
  }

  /** Reordering a list keeps its live actions apart. */
  lemma OneLivePermuted(a: seq<Action>, b: seq<Action>)
    requires OneLive(a) && multiset(a) == multiset(b)
    ensures OneLive(b)
  {
    forall i, j | 0 <= i < j < |b| && b[i].Live() && b[j].Live() ensures b[i].sp != b[j].sp {
      if b[i].sp == b[j].sp {
        assert b[i] in multiset(a) && b[j] in multiset(a);
        LiveOnCharacterised(a, b[i].sp, b[i]);
        LiveOnCharacterised(a, b[i].sp, b[j]);
        TwiceInMultiset(b, i, j);
        var k, l := TwoPlaces(a, b[i]);
        assert false;
      }
    }
  }

  // ----- which action survives

  predicate Beats(p: Precedence, x: Action, y: Action)
    requires ListFits(p, [x, y]) && x.sp == y.sp
  {
    assert [x, y][0] == x && [x, y][1] == y;
    Resolve(p, x, y).0 == x.kind
  }

  /** The action on `x` that is left when each in turn meets the winner so far. */
  function Champion(p: Precedence, a: seq<Action>, x: nat): (c: Option<Action>)
    requires ListFits(p, a)
    ensures c.Some? ==> c.value in a && c.value.sp == x
    ensures c.None? ==> forall m :: 0 <= m < |a| ==> a[m].sp != x
  {
    if a == [] then None
    else
      var n := |a| - 1;
      var was := Champion(p, a[..n], x);
      if a[n].sp != x then was
      else if was.None? || !Beats(p, was.value, a[n]) then Some(a[n])
      else was
  }

  lemma ChampionNext(p: Precedence, a: seq<Action>, n: nat, x: nat)
    requires ListFits(p, a) && n < |a|
    ensures var was, now := Champion(p, a[..n], x), Champion(p, a[..n + 1], x);
      && (a[n].sp != x ==> now == was)
      && (a[n].sp == x && was.None? ==> now == Some(a[n]))
      && (a[n].sp == x && was.Some? ==> now == if Beats(p, was.value, a[n]) then was else Some(a[n]))
  {
    assert a[..n + 1][..n] == a[..n] && a[..n + 1][n] == a[n];
  }

  /** Whether a meeting of the two is counted as a conflict. */
  function Counted(p: Precedence, x: Action, y: Action): nat
    requires ListFits(p, [x, y]) && x.sp == y.sp
  {
    assert [x, y][0] == x && [x, y][1] == y;
    Resolve(p, x, y).2
  }

  /** Whether number `n` of the list is counted as a conflict on `x` when it meets the winner so far. */
  function CountedAt(p: Precedence, a: seq<Action>, n: nat, x: nat): nat
    requires ListFits(p, a) && n < |a|
  {
    var was := Champion(p, a[..n], x);
    if a[n].sp == x && was.Some? then Counted(p, was.value, a[n]) else 0
  }

  /** How many of the first `n` are. */
  function Clashes(p: Precedence, a: seq<Action>, n: nat, x: nat): nat
    requires ListFits(p, a) && n <= |a|
  {
    if n == 0 then 0 else Clashes(p, a, n - 1, x) + CountedAt(p, a, n - 1, x)
  }

  /** Symbols beyond `n` are not counted. */
  lemma {:induction false} ClashesUpTo(p: Precedence, a: seq<Action>, n: nat, m: nat, x: nat)
    requires ListFits(p, a) && n <= m <= |a| && forall k :: n <= k < m ==> a[k].sp != x
    ensures Clashes(p, a, m, x) == Clashes(p, a, n, x)
    decreases m
  {
    if n < m {
      ClashesUpTo(p, a, n, m - 1, x);
    }
  }

  /** Symbols beyond `n` do not matter. */
  lemma {:induction false} ChampionUpTo(p: Precedence, a: seq<Action>, n: nat, x: nat)
    requires ListFits(p, a) && n <= |a| && forall m :: n <= m < |a| ==> a[m].sp != x
    ensures Champion(p, a, x) == Champion(p, a[..n], x)
    decreases |a| - n
  {
    if n < |a| {
      ChampionNext(p, a, n, x);
      ChampionUpTo(p, a, n + 1, x);
    } else {
      assert a[..n] == a;
    }
  }

  /** Before row `i`, action `f` is the winner so far on its symbol: it is live, those before it are
      not, and those behind it have either all met it or none of them has met anyone. */
  ghost predicate Stands(p: Precedence, raw: seq<Action>, a: seq<Action>, i: nat, x: nat, f: nat) {
    && ListFits(p, raw) && |a| == |raw| && f < |a| && raw[f].sp == x && a[f] == raw[f] && raw[f].Live()
    && (forall m :: 0 <= m < |a| ==> a[m].sp == raw[m].sp && a[m].arg == raw[m].arg)
    && (forall m :: 0 <= m < f && raw[m].sp == x ==> !a[m].Live())
    && Champion(p, raw[..f + 1], x) == Some(raw[f])
    && (f < i ==> Champion(p, raw, x) == Some(raw[f]) && forall m :: f < m < |a| && raw[m].sp == x ==> !a[m].Live())
    && (f >= i ==> forall m :: f < m < |a| && raw[m].sp == x ==> a[m] == raw[m])
  }

  /** A dead action meets nobody. */
  lemma {:induction false} DeadRow(p: Precedence, a: seq<Action>, i: nat, j: nat)
    requires ListFits(p, a) && i < j <= |a| && !a[i].Live()
    ensures RowFrom(p, a, i, j) == a && RowCount(p, a, i, j) == 0
    decreases |a| - j
  {
    if j < |a| && a[j].sp == a[i].sp {
      assert Duel(p, a, i, j) == a;
      DeadRow(p, a, i, j + 1);
    }
  }

  /** In row `i`, its action is the winner so far and has met those before `j`, which are out; those from
      there on have met nobody. */
  ghost predicate Fighting(p: Precedence, raw: seq<Action>, a: seq<Action>, i: nat, j: nat) {
    && ListFits(p, raw) && Grouped(raw) && |a| == |raw| && i < j <= |a| && a[i] == raw[i]
    && (forall m :: 0 <= m < |a| ==> a[m].sp == raw[m].sp && a[m].arg == raw[m].arg)
    && (forall m :: 0 <= m < j && m != i && raw[m].sp == raw[i].sp ==> !a[m].Live())
    && (forall m :: j <= m < |a| && raw[m].sp == raw[i].sp ==> a[m] == raw[m])
    && Champion(p, raw[..j], raw[i].sp) == Some(raw[i]) == Champion(p, raw[..i + 1], raw[i].sp)
  }

  /** What comes of row `i` from `j` on. */
  ghost predicate Fought(p: Precedence, raw: seq<Action>, a: seq<Action>, i: nat, j: nat, f: nat)
    requires ListFits(p, raw) && ListFits(p, a) && i < j <= |a| == |raw|
  {
    && i <= f < |raw| && Stands(p, raw, RowFrom(p, a, i, j), i + 1, raw[i].sp, f)
    && RowCount(p, a, i, j) + Clashes(p, raw, j, raw[i].sp)
      == Clashes(p, raw, if f == i then |raw| else f + 1, raw[i].sp)
  }

  /** The winner so far meets those behind it, one after the other. */
  lemma {:induction false} RowFight(p: Precedence, raw: seq<Action>, a: seq<Action>, i: nat, j: nat) returns (f: nat)
    requires Raw(raw) && ListFits(p, raw) && ListFits(p, a) && i < j <= |a| == |raw| && Fighting(p, raw, a, i, j)
    ensures Fought(p, raw, a, i, j, f)
    decreases |a| - j
  {
    FightFacts(p, raw, a, i, j);
    hide *;
    if j == |a| || a[j].sp != raw[i].sp {
      RowWon(p, raw, a, i, j);
      f := i;
    } else {
      var b := FightOn(p, raw, a, i, j);
      if Fighting(p, raw, b, i, j + 1) {
        f := RowFight(p, raw, b, i, j + 1);
        FoughtBefore(p, raw, a, b, i, j, f);
      } else {
        f := j;
      }
    }
  }

  lemma FoughtBefore(p: Precedence, raw: seq<Action>, a: seq<Action>, b: seq<Action>, i: nat, j: nat, f: nat)
    requires ListFits(p, raw) && ListFits(p, a) && ListFits(p, b) && i < j < |a| == |raw| == |b|
    requires a[j].sp == a[i].sp && b == Duel(p, a, i, j) && Fought(p, raw, b, i, j + 1, f)
    requires RowCount(p, a, i, j) + Clashes(p, raw, j, raw[i].sp)
      == RowCount(p, b, i, j + 1) + Clashes(p, raw, j + 1, raw[i].sp)
    ensures Fought(p, raw, a, i, j, f)
  {
    RowFromStep(p, a, i, j);
    hide Stands, RowFrom, RowCount, Clashes, Duel, ListFits;
  }

  lemma FightFacts(p: Precedence, raw: seq<Action>, a: seq<Action>, i: nat, j: nat)
    requires Fighting(p, raw, a, i, j)
    ensures |a| == |raw| && i < j <= |a| && a[i] == raw[i] && (j < |a| ==> a[j].sp == raw[j].sp)
  {
  }

  /** Nobody is left to meet. */
  lemma RowWon(p: Precedence, raw: seq<Action>, a: seq<Action>, i: nat, j: nat)
    requires Raw(raw) && ListFits(p, raw) && ListFits(p, a) && i < j <= |a| == |raw| && Fighting(p, raw, a, i, j)
    requires j < |a| ==> a[j].sp != raw[i].sp
    ensures Fought(p, raw, a, i, j, i)
  {
    var x := raw[i].sp;
    forall m | j <= m < |a| ensures raw[m].sp != x {
      assert raw[i].sp <= raw[j].sp <= raw[m].sp;
    }
    ChampionUpTo(p, raw, j, x);
    RowFromEnds(p, a, i, j);
    hide Champion, RowFrom, RowCount, Clashes;
    ClashesUpTo(p, raw, j, |raw|, x);
  }

  /** One meeting: the winner goes on, or the other one takes its place. */
  lemma FightOn(p: Precedence, raw: seq<Action>, a: seq<Action>, i: nat, j: nat) returns (b: seq<Action>)
    requires Raw(raw) && ListFits(p, raw) && ListFits(p, a) && i < j < |a| == |raw| && Fighting(p, raw, a, i, j)
    requires a[j].sp == raw[i].sp && a[i] == raw[i]
    ensures a[j].sp == a[i].sp && b == Duel(p, a, i, j) && |b| == |a| && ListFits(p, b)
    ensures Fighting(p, raw, b, i, j + 1) || Fought(p, raw, a, i, j, j)
    ensures RowCount(p, a, i, j) + Clashes(p, raw, j, raw[i].sp)
      == RowCount(p, b, i, j + 1) + Clashes(p, raw, j + 1, raw[i].sp)
  {
    FightMeets(p, raw, a, i, j);
    FightCounts(p, raw, a, i, j);
    RowFromStep(p, a, i, j);
    b := Duel(p, a, i, j);
    if !Fighting(p, raw, b, i, j + 1) {
      DeadRow(p, b, i, j + 1);
      hide Stands, RowCount, Clashes, RowFrom, Duel, Fighting, ListFits;
    }
  }

  /** What a duel of live actions makes of the list. */
  lemma DuelOutcome(p: Precedence, raw: seq<Action>, a: seq<Action>, i: nat, j: nat)
    requires Raw(raw) && ListFits(p, raw) && ListFits(p, a) && i < j < |a| == |raw| && a[i] == raw[i] && a[j] == raw[j]
    requires a[j].sp == a[i].sp
    ensures var b := Duel(p, a, i, j);
      && b[i].arg == a[i].arg && b[j].arg == a[j].arg
      && (if Beats(p, raw[i], raw[j]) then b[i] == raw[i] && !b[j].Live() else !b[i].Live() && b[j] == raw[j])
  {
    ResolveKillsOne(p, a[i], a[j]);
  }

  lemma FightMeets(p: Precedence, raw: seq<Action>, a: seq<Action>, i: nat, j: nat)
    requires Raw(raw) && ListFits(p, raw) && ListFits(p, a) && i < j < |a| == |raw| && Fighting(p, raw, a, i, j)
    requires a[j].sp == raw[i].sp && a[i] == raw[i]
    ensures var b := Duel(p, a, i, j);
      && (b[i].Live() ==> Fighting(p, raw, b, i, j + 1))
      && (!b[i].Live() ==> Stands(p, raw, b, i + 1, raw[i].sp, j))
  {
    assert a[j] == raw[j] && raw[i].Live() && raw[j].Live();
    DuelOutcome(p, raw, a, i, j);
    ChampionNext(p, raw, j, raw[i].sp);
    hide Champion, Beats, ListFits, Duel;
  }

  lemma FightCounts(p: Precedence, raw: seq<Action>, a: seq<Action>, i: nat, j: nat)
    requires ListFits(p, raw) && ListFits(p, a) && i < j < |a| == |raw| && Fighting(p, raw, a, i, j)
    requires a[j].sp == raw[i].sp && a[i] == raw[i]
    ensures RowCount(p, a, i, j) + Clashes(p, raw, j, raw[i].sp)
      == RowCount(p, Duel(p, a, i, j), i, j + 1) + Clashes(p, raw, j + 1, raw[i].sp)
  {
    RowFromStep(p, a, i, j);
    assert a[j] == raw[j];
    hide RowCount, Champion, Duel, RowFrom;
    assert CountedAt(p, raw, j, raw[i].sp) == Resolve(p, a[i], a[j]).2;
  }

  /** The conflicts counted in row `i`, if it concerns `x`. */
  function CountOn(p: Precedence, a: seq<Action>, i: nat, x: nat): nat
    requires ListFits(p, a) && i < |a|
  {
    if a[i].sp == x then RowCount(p, a, i, i + 1) else 0
  }

  /** Those counted on `x` from row `i` on. */
  function RowsCountOn(p: Precedence, a: seq<Action>, i: nat, x: nat): nat
    requires ListFits(p, a) && i <= |a|
    decreases |a| - i
  {
    if i == |a| then 0 else CountOn(p, a, i, x) + RowsCountOn(p, RowFrom(p, a, i, i + 1), i + 1, x)
  }

  ghost predicate NoneFrom(p: Precedence, a: seq<Action>, i: nat)
    requires ListFits(p, a) && i <= |a|
  {
    forall x: nat :: RowsCountOn(p, a, i, x) == 0
  }

  /** Nothing is counted exactly if nothing is counted on any symbol. */
  lemma {:induction false} NoneCounted(p: Precedence, a: seq<Action>, i: nat)
    requires ListFits(p, a) && i <= |a|
    ensures RowsCount(p, a, i) == 0 <==> NoneFrom(p, a, i)
    decreases |a| - i
  {
    if i < |a| {
      var b := RowFrom(p, a, i, i + 1);
      NoneCounted(p, b, i + 1);
      NoneNext(p, a, b, i, i + 1);
    }
  }

  lemma NoneNext(p: Precedence, a: seq<Action>, b: seq<Action>, i: nat, next: nat)
    requires ListFits(p, a) && i < |a| && next == i + 1 && b == RowFrom(p, a, i, next)
    ensures NoneFrom(p, a, i) <==> RowCount(p, a, i, next) == 0 && NoneFrom(p, b, next)
  {
    forall x: nat ensures RowsCountOn(p, a, i, x) == CountOn(p, a, i, x) + RowsCountOn(p, b, next, x) {
      CountsOn(p, a, i, x);
    }
    hide RowFrom, RowCount, RowsCountOn;
    assert NoneFrom(p, a, i) ==> RowsCountOn(p, a, i, a[i].sp) == 0;
  }

  /** What row `i` makes of the winner so far `f`: another one, with the conflicts between them counted. */
  ghost predicate Passed(p: Precedence, raw: seq<Action>, a: seq<Action>, i: nat, x: nat, f: nat, now: nat)
    requires ListFits(p, raw) && ListFits(p, a) && i < |a|
  {
    && now < |raw| && f < |raw| && Stands(p, raw, RowFrom(p, a, i, i + 1), i + 1, x, now)
    && (f < i ==> now == f && CountOn(p, a, i, x) == 0)
    && (f >= i ==> now >= i)
    && (f >= i ==>
      CountOn(p, a, i, x) + Clashes(p, raw, f + 1, x) == Clashes(p, raw, if now == i then |raw| else now + 1, x))
  }

  lemma RowStands(p: Precedence, raw: seq<Action>, a: seq<Action>, i: nat, x: nat, f: nat) returns (now: nat)
    requires Raw(raw) && ListFits(p, raw) && ListFits(p, a) && i < |a| == |raw| && Stands(p, raw, a, i, x, f)
    ensures Passed(p, raw, a, i, x, f, now)
  {
    hide *;
    if raw[i].sp == x && f == i {
      now := WinnersRow(p, raw, a, i, x);
    } else {
      now := f;
      RowPasses(p, raw, a, i, x, f);
    }
  }

  lemma WinnersRow(p: Precedence, raw: seq<Action>, a: seq<Action>, i: nat, x: nat) returns (now: nat)
    requires Raw(raw) && ListFits(p, raw) && ListFits(p, a) && i < |a| == |raw| && Stands(p, raw, a, i, x, i)
    ensures Passed(p, raw, a, i, x, i, now)
  {
    RowMeets(p, raw, a, i, x);
    hide Stands, Champion, Raw, RowCount, Clashes, RowFrom, ListFits, Fighting;
    now := RowFight(p, raw, a, i, i + 1);
  }

  /** A row of another symbol, or of an action that has lost already. */
  lemma RowPasses(p: Precedence, raw: seq<Action>, a: seq<Action>, i: nat, x: nat, f: nat)
    requires ListFits(p, a) && i < |a| && Stands(p, raw, a, i, x, f) && i < |raw| && (raw[i].sp != x || f != i)
    requires ListFits(p, raw)
    ensures Passed(p, raw, a, i, x, f, f)
  {
    SameArgs(p, a, i, i + 1);
    if raw[i].sp == x {
      assert !a[i].Live();
      DeadRow(p, a, i, i + 1);
    }
    hide Champion, RowFrom, RowCount, Clashes;
    StillStands(p, raw, a, RowFrom(p, a, i, i + 1), i, x, f);
  }

  lemma StillStands(p: Precedence, raw: seq<Action>, a: seq<Action>, b: seq<Action>, i: nat, x: nat, f: nat)
    requires Stands(p, raw, a, i, x, f) && |b| == |a| && i < |raw| && (raw[i].sp != x || f != i)
    requires forall m :: 0 <= m < |a| ==> b[m].sp == a[m].sp && b[m].arg == a[m].arg && (a[m].sp == x ==> b[m] == a[m])
    ensures Stands(p, raw, b, i + 1, x, f)
  {
    hide Champion;
  }

  lemma RowMeets(p: Precedence, raw: seq<Action>, a: seq<Action>, i: nat, x: nat)
    requires Grouped(raw) && Stands(p, raw, a, i, x, i)
    ensures i < |a| == |raw| && raw[i].sp == x && a[i].sp == x && Fighting(p, raw, a, i, i + 1)
  {
    hide Champion, Grouped;
  }

  lemma {:induction false} SameArgs(p: Precedence, a: seq<Action>, i: nat, j: nat)
    requires ListFits(p, a) && i < j <= |a|
    ensures forall m :: 0 <= m < |a| ==> RowFrom(p, a, i, j)[m].arg == a[m].arg
    decreases |a| - j
  {
    if j < |a| && a[j].sp == a[i].sp {
      SameArgs(p, Duel(p, a, i, j), i, j + 1);
    }
  }

  lemma {:induction false} RowsStand(p: Precedence, raw: seq<Action>, a: seq<Action>, i: nat, x: nat, f: nat)
    returns (now: nat)
    requires Raw(raw) && ListFits(p, a) && i <= |a| && Stands(p, raw, a, i, x, f)
    ensures Stands(p, raw, RowsFrom(p, a, i), |a|, x, now)
    ensures f < i ==> RowsCountOn(p, a, i, x) == 0
    ensures f >= i ==> RowsCountOn(p, a, i, x) + Clashes(p, raw, f + 1, x) == Clashes(p, raw, |raw|, x)
    decreases |a| - i
  {
    hide *;
    StandsInside(p, raw, a, i, x, f);
    now := f;
    if i < |a| {
      now := RowStands(p, raw, a, i, x, f);
      PassedFacts(p, raw, a, i, x, f, now);
      RowsFromStep(p, a, i);
      CountsOn(p, a, i, x);
      now := RowsStand(p, raw, RowFrom(p, a, i, i + 1), i + 1, x, now);
    } else {
      RowsEnd(p, a, x);
    }
  }

  lemma PassedFacts(p: Precedence, raw: seq<Action>, a: seq<Action>, i: nat, x: nat, f: nat, now: nat)
    requires ListFits(p, raw) && ListFits(p, a) && i < |a| && Passed(p, raw, a, i, x, f, now)
    ensures now < |raw| && f < |raw| && Stands(p, raw, RowFrom(p, a, i, i + 1), i + 1, x, now)
    ensures f < i ==> now == f && CountOn(p, a, i, x) == 0
    ensures f >= i && now == i ==> CountOn(p, a, i, x) + Clashes(p, raw, f + 1, x) == Clashes(p, raw, |raw|, x)
    ensures f >= i && now != i ==> now > i
    ensures f >= i && now != i ==> CountOn(p, a, i, x) + Clashes(p, raw, f + 1, x) == Clashes(p, raw, now + 1, x)
  {
    hide Stands, CountOn, Clashes, RowFrom;
  }

  lemma RowsEnd(p: Precedence, a: seq<Action>, x: nat)
    requires ListFits(p, a)
    ensures RowsFrom(p, a, |a|) == a && RowsCountOn(p, a, |a|, x) == 0
  {
  }

  lemma CountsOn(p: Precedence, a: seq<Action>, i: nat, x: nat)
    requires ListFits(p, a) && i < |a|
    ensures RowsCountOn(p, a, i, x) == CountOn(p, a, i, x) + RowsCountOn(p, RowFrom(p, a, i, i + 1), i + 1, x)
  {
    hide RowFrom, CountOn;
  }

  lemma StandsInside(p: Precedence, raw: seq<Action>, a: seq<Action>, i: nat, x: nat, f: nat)
    requires Stands(p, raw, a, i, x, f)
    ensures f < |a| == |raw| && ListFits(p, raw)
  {
  }

  /** The action that survives the conflict loops is the champion, and the conflicts counted are those of
      its meetings. */
  lemma ChampionSurvives(p: Precedence, raw: seq<Action>, x: nat)
    requires Raw(raw) && ListFits(p, raw) && HasLive(raw, x)
    ensures OneLive(RowsFrom(p, raw, 0)) ==> LiveOn(RowsFrom(p, raw, 0), x) == Champion(p, raw, x) != None
    ensures RowsCountOn(p, raw, 0, x) == Clashes(p, raw, |raw|, x)
  {
    var f := FirstOn(raw, x);
    FirstStands(p, raw, x, f);
    hide Stands, Raw, ListFits, Champion, Clashes, RowsCountOn;
    var now := RowsStand(p, raw, raw, 0, x, f);
    Standing(p, raw, RowsFrom(p, raw, 0), x, now);
    if OneLive(RowsFrom(p, raw, 0)) {
      LiveOnSome(RowsFrom(p, raw, 0), raw[now]);
    }
  }

  /** At first the first action on the symbol is the winner. */
  lemma FirstStands(p: Precedence, raw: seq<Action>, x: nat, f: nat)
    requires Raw(raw) && ListFits(p, raw) && f < |raw| && raw[f].sp == x && forall m :: 0 <= m < f ==> raw[m].sp != x
    ensures Stands(p, raw, raw, 0, x, f) && Clashes(p, raw, f + 1, x) == 0
  {
    var front := raw[..f];
    assert forall i :: 0 <= i < f ==> front[i] == raw[i];
    assert Champion(p, front, x) == None;
    ChampionNext(p, raw, f, x);
    ClashesUpTo(p, raw, 0, f, x);
    hide Champion;
  }

  lemma Standing(p: Precedence, raw: seq<Action>, a: seq<Action>, x: nat, f: nat)
    requires Stands(p, raw, a, |a|, x, f)
    ensures f < |a| == |raw| && a[f] == raw[f] && raw[f].Live() && raw[f].sp == x && ListFits(p, raw)
      && Champion(p, raw, x) == Some(raw[f])
  {
    hide Champion;
  }

  lemma {:induction false} NothingThere(p: Precedence, a: seq<Action>, i: nat, x: nat)
    requires ListFits(p, a) && i <= |a| && forall m :: 0 <= m < |a| ==> a[m].sp != x
    ensures RowsCountOn(p, a, i, x) == 0
    decreases |a| - i
  {
    if i < |a| {
      CountsOn(p, a, i, x);
      NothingThere(p, RowFrom(p, a, i, i + 1), i + 1, x);
    }
  }

  /** No meeting is a conflict. */
  ghost predicate NoneMeets(p: Precedence, raw: seq<Action>)
    requires ListFits(p, raw)
  {
    forall x: nat :: Clashes(p, raw, |raw|, x) == 0
  }

  /** The loops count no conflict exactly if no meeting is one. */
  lemma CountsMeetings(p: Precedence, raw: seq<Action>)
    requires Raw(raw) && ListFits(p, raw)
    ensures RowsCount(p, raw, 0) == 0 <==> NoneMeets(p, raw)
  {
    NoneCounted(p, raw, 0);
    forall x: nat ensures RowsCountOn(p, raw, 0, x) == Clashes(p, raw, |raw|, x) {
      CountsMeetingsOn(p, raw, x);
    }
    hide RowsCount, RowsCountOn, Clashes, ListFits;
    if NoneMeets(p, raw) {
      forall x: nat ensures RowsCountOn(p, raw, 0, x) == 0 {
        assert Clashes(p, raw, |raw|, x) == 0;
      }
    }
    if NoneFrom(p, raw, 0) {
      forall x: nat ensures Clashes(p, raw, |raw|, x) == 0 {
        assert RowsCountOn(p, raw, 0, x) == 0;
      }
    }
  }

  lemma CountsMeetingsOn(p: Precedence, raw: seq<Action>, x: nat)
    requires Raw(raw) && ListFits(p, raw)
    ensures RowsCountOn(p, raw, 0, x) == Clashes(p, raw, |raw|, x)
  {
    if HasLive(raw, x) {
      hide *;
      ChampionSurvives(p, raw, x);
    } else {
      assert forall m :: 0 <= m < |raw| ==> raw[m].sp != x;
      hide ListFits, RowsCountOn, Clashes, Raw;
      NothingThere(p, raw, 0, x);
      ClashesUpTo(p, raw, 0, |raw|, x);
    }
  }

  lemma FirstOn(raw: seq<Action>, x: nat) returns (f: nat)
    requires HasLive(raw, x)
    ensures f < |raw| && raw[f].sp == x && forall m :: 0 <= m < f ==> raw[m].sp != x
  {
    f := 0;
    while raw[f].sp != x
      invariant f < |raw| && forall m :: 0 <= m < f ==> raw[m].sp != x
      decreases |raw| - f
    {
      f := f + 1;
    }
  }

  /** Where no precedence is declared the first action on a symbol survives: the shift, or else the rule
      that comes first. */
  lemma {:induction false} FirstSurvives(p: Precedence, a: seq<Action>, x: nat, f: nat)
    requires ListFits(p, a) && NoPrecedence(p) && f < |a| && a[f].sp == x && forall m :: 0 <= m < f ==> a[m].sp != x
    ensures Champion(p, a, x) == Some(a[f])
    decreases |a|
  {
    var n := |a| - 1;
    if f < n {
      FirstSurvives(p, a[..n], x, f);
    }
  }

  // ----- default reductions

  predicate Reduces(act: Action, rule: nat) {
    act.kind.REDUCE? && act.arg == rule
  }

  /** How many reductions by `rule` stand in a list. */
  function Count(a: seq<Action>, rule: nat): nat {
    if a == [] then 0 else (if Reduces(a[0], rule) then 1 else 0) + Count(a[1..], rule)
  }

  lemma {:induction false} CountSplit(a: seq<Action>, b: seq<Action>, rule: nat)
    ensures Count(a + b, rule) == Count(a, rule) + Count(b, rule)
  {
    if a == [] {
      assert a + b == b;
    } else {
      assert (a + b)[0] == a[0] && (a + b)[1..] == a[1..] + b;
      CountSplit(a[1..], b, rule);
    }
  }

  lemma {:induction false} CountPositive(a: seq<Action>, rule: nat)
    ensures Count(a, rule) > 0 <==> exists act :: act in a && Reduces(act, rule)
  {
    if a != [] {
      CountPositive(a[1..], rule);
      assert a[0] in a;
      assert forall act :: act in a <==> act == a[0] || act in a[1..];
    }
  }

  /** Rule `x` is reduced somewhere in front of every reduction by rule `y`. */
  ghost predicate Earlier(a: seq<Action>, x: nat, y: nat) {
    exists i :: 0 <= i < |a| && Reduces(a[i], x) && Count(a[..i], y) == 0
  }

  /** The most frequent rule among the reductions of a list, the earliest in case of a tie. */
  method MostFrequent(a: seq<Action>) returns (nbest: nat, rbest: nat)
    ensures forall r :: Count(a, r) <= nbest
    ensures nbest > 0 ==> Count(a, rbest) == nbest
    ensures forall r :: nbest > 0 && Count(a, r) == nbest ==> Earlier(a, rbest, r)
  {
    nbest, rbest := 0, 0;
    var i := 0;
    while i < |a|
      invariant i <= |a|
      invariant nbest > 0 ==> Count(a, rbest) == nbest && Count(a[..i], rbest) > 0
      invariant forall r :: Count(a[..i], r) > 0 ==> Count(a, r) <= nbest
      invariant forall r :: nbest > 0 && Count(a, r) == nbest ==> Earlier(a, rbest, r)
    {
      ghost var nbest0 := nbest;
      if a[i].kind.REDUCE? && !(nbest > 0 && a[i].arg == rbest) {
        var rp := a[i].arg;
        var n := 1;
        for j := i + 1 to |a|
          invariant n == Count(a[i..j], rp)
        {
          assert a[i..j + 1] == a[i..j] + [a[j]];
          CountSplit(a[i..j], [a[j]], rp);
          if a[j].kind.REDUCE? && a[j].arg == rp {
            n := n + 1;
          }
        }
        assert a[i..|a|] == a[i..] && a == a[..i] + a[i..];
        CountSplit(a[..i], a[i..], rp);
        if n > nbest {
          nbest, rbest := n, rp;
        }
      }
      assert a[..i + 1] == a[..i] + [a[i]];
      CountSplit(a[..i], [a[i]], rbest);
      forall r | Count(a[..i + 1], r) > 0 ensures Count(a, r) <= nbest {
        CountSplit(a[..i], [a[i]], r);
      }
      i := i + 1;
    }
    assert a[..i] == a;
  }

  /** `now` is `was` with every reduction by `rule` taken out, except that one of them has become
      the action on the symbol `dflt`. */
  ghost predicate Defaulted(was: seq<Action>, now: seq<Action>, rule: nat, dflt: nat) {
    && (forall act: Action :: act.Live() && act.sp != dflt ==> (act in now <==> act in was && !Reduces(act, rule)))
    && (forall act: Action :: act.Live() && act.sp == dflt ==> (act in now <==> act == Action(dflt, REDUCE, rule)))
  }

  /** Mark the reductions by `rule`: the first moves to `dflt`, the others become NOT_USED. */
  method UseDefault(a: seq<Action>, rule: nat, dflt: nat) returns (now: seq<Action>)
    requires OneLive(a) && Count(a, rule) > 0 && forall act :: act in a ==> act.sp != dflt
    ensures |now| == |a| && OneLive(now) && Defaulted(a, now, rule, dflt)
  {
    CountPositive(a, rule);
    var k := 0;
    while !Reduces(a[k], rule)
      invariant k < |a| && (forall i :: 0 <= i < k ==> !Reduces(a[i], rule))
      invariant exists act :: act in a[k..] && Reduces(act, rule)
      decreases |a| - k
    {
      k := k + 1;
    }
    now := a[k := a[k].(sp := dflt)];
    for i := k + 1 to |a|
      invariant |now| == |a| && now[k] == Action(dflt, REDUCE, rule)
      invariant forall m :: 0 <= m < |a| && m != k ==>
        now[m] == if m < i && Reduces(a[m], rule) then a[m].(kind := NOT_USED) else a[m]
    {
      if Reduces(now[i], rule) {
        now := now[i := now[i].(kind := NOT_USED)];
      }
    }
    MarkedIsDefaulted(a, now, k, rule, dflt);
  }

  lemma MarkedIsDefaulted(a: seq<Action>, now: seq<Action>, k: nat, rule: nat, dflt: nat)
    requires OneLive(a) && |now| == |a| && k < |a| && Reduces(a[k], rule) && forall act :: act in a ==> act.sp != dflt
    requires forall m :: 0 <= m < k ==> !Reduces(a[m], rule)
    requires now[k] == Action(dflt, REDUCE, rule)
    requires forall m :: 0 <= m < |a| && m != k ==> now[m] == if Reduces(a[m], rule) then a[m].(kind := NOT_USED)
      else a[m]
    ensures OneLive(now) && Defaulted(a, now, rule, dflt)
  {
    forall act: Action | act.Live() && act.sp != dflt && act in a && !Reduces(act, rule) ensures act in now {
      var m :| 0 <= m < |a| && a[m] == act;
      assert now[m] == act;
    }
    forall act: Action | act.Live() && act.sp != dflt && act in now ensures act in a && !Reduces(act, rule) {
      var m :| 0 <= m < |now| && now[m] == act;
      assert a[m] == act;
    }
    assert now[k] in now;
    forall m | 0 <= m < |now| && now[m].sp == dflt ensures m == k {
      assert a[m] in a;
    }
  }

  /** No rule is reduced more often, and those reduced as often come later. */
  ghost predicate MostReduced(a: seq<Action>, rule: nat) {
    forall r :: Count(a, r) < Count(a, rule) || (Count(a, r) == Count(a, rule) && Earlier(a, rule, r))
  }

  /** CompressTables for one state: if some rule is reduced on two lookaheads or more, the rule
      reduced on most, the earliest of several, becomes the default and loses its lookaheads; nothing else
      changes. */
  method Compress(a: seq<Action>, dflt: nat) returns (now: seq<Action>)
    requires OneLive(a) && |a| < 0x4000_0000 && forall act :: act in a ==> act.sp != dflt
    ensures |now| == |a| && OneLive(now)
    ensures (now == a && forall r :: Count(a, r) < 2)
         || exists rule ::
           Count(a, rule) >= 2 && MostReduced(a, rule) && Defaulted(a, now, rule, dflt)
  {
    var nbest, rbest := MostFrequent(a);
    if nbest < 2 {
      return a;
    }
    var marked := UseDefault(a, rbest, dflt);
    now := Sort(marked);
    OneLivePermuted(marked, now);
    assert Defaulted(a, now, rbest, dflt);
  }

  /** What the list makes the parser do on `x`: the action on `x`, or else the default. */
  function Effective(a: seq<Action>, x: nat, dflt: nat): Option<(Kind, nat)> {
    match LiveOn(a, x)
    case Some(act) => Some((act.kind, act.arg))
    case None => match LiveOn(a, dflt)
      case Some(act) => Some((act.kind, act.arg))
      case None => None
  }

  /** Compression keeps what the parser does wherever it had something to do, and otherwise
      replaces an error by the default reduction. */
  lemma CompressKeepsActions(a: seq<Action>, now: seq<Action>, rule: nat, dflt: nat, x: nat)
    requires OneLive(a) && OneLive(now) && Defaulted(a, now, rule, dflt) && x != dflt
    requires forall act :: act in a ==> act.sp != dflt
    ensures Effective(a, x, dflt).Some? ==> Effective(now, x, dflt) == Effective(a, x, dflt)
    ensures Effective(a, x, dflt).None? ==> Effective(now, x, dflt) == Some((REDUCE, rule))
  {
    var d := Action(dflt, REDUCE, rule);
    LiveOnIn(a, x);
    LiveOnIn(now, x);
    LiveOnIn(a, dflt);
    LiveOnIn(now, dflt);
    assert d in now;
    LiveOnSome(now, d);
    if LiveOn(now, x).Some? {
      var k :| 0 <= k < |a| && a[k] == LiveOn(now, x).value;
      assert HasLive(a, x);
    }
    if LiveOn(a, x).Some? {
      var act := LiveOn(a, x).value;
      if !Reduces(act, rule) {
        assert act in now;
        LiveOnSome(now, act);
      } else if LiveOn(now, x).Some? {
        var other := LiveOn(now, x).value;
        assert other in a;
        LiveOnSome(a, other);
      }
    }
  }
}
