/** Fallback tokens: a token without an action in a state may stand in for another one.  How that
    works together with the default reductions that lemon puts into the tables. */
module Fallbacks {
  import opened Actions
  import opened Options
  import opened Tables

  /** The token and what it can stand in for (0: nothing), in order, `n` steps far. */
  function Chain(fallback: seq<nat>, x: nat, n: nat): (chain: seq<nat>)
    ensures chain != [] && chain[0] == x
    decreases n
  {
    if x < |fallback| && fallback[x] != 0 && n > 0 then [x] + Chain(fallback, fallback[x], n - 1) else [x]
  }

  /** The first token of a chain with an action of its own supplies it; if there is none, the
      default does. */
  function Supplied(list: seq<Action>, chain: seq<nat>, dflt: nat): Option<(Kind, nat)> {
    if chain == [] then match LiveOn(list, dflt) case None => None case Some(act) => Some((act.kind, act.arg))
    else match LiveOn(list, chain[0])
      case Some(act) => Some((act.kind, act.arg))
      case None => Supplied(list, chain[1..], dflt)
  }

  lemma {:induction false} NothingSupplied(list: seq<Action>, chain: seq<nat>, dflt: nat)
    requires forall i :: 0 <= i < |chain| ==> LiveOn(list, chain[i]).None?
    ensures Supplied(list, chain, dflt) == Supplied(list, [], dflt)
  {
    if chain != [] {
      NothingSupplied(list, chain[1..], dflt);
    }
  }

  /** Fallbacks are declared between tokens. */
  predicate BetweenTokens(fallback: seq<nat>, sz: Sizes) {
    |fallback| == sz.nterminal && forall i :: 0 <= i < |fallback| ==> fallback[i] < sz.nterminal
  }

  /** Whenever it ends, the driver's search through the packed tables is the search along the chain. */
  lemma {:induction false} DriverFollowsChain(tables: Tables, list: seq<Action>, s: nat, sz: Sizes, fallback: seq<nat>,
                                              x: nat, fuel: nat)
    requires tables.Ok() && s < tables.nstate && Probes(tables, list, s, sz)
    requires BetweenTokens(fallback, sz) && x < sz.nterminal && tables.FindWithFallback(fallback, s, x, fuel).Some?
    ensures tables.FindWithFallback(fallback, s, x, fuel)
      == Some(CodeOf(Supplied(list, Chain(fallback, x, fuel), sz.nsymbol), sz))
    decreases fuel
  {
    var chain := Chain(fallback, x, fuel);
    if tables.yy_shift_ofst[s] == tables.shift_use_dflt {
      ChainTokens(fallback, sz, x, fuel);
      NothingSupplied(list, chain, sz.nsymbol);
    } else {
      assert tables.At(tables.yy_shift_ofst[s], x) == EntryOn(list, x, sz);
      if fallback[x] == 0 || fuel == 0 {
        assert chain[1..] == [];
      } else {
        if LiveOn(list, x).None? {
          DriverFollowsChain(tables, list, s, sz, fallback, fallback[x], fuel - 1);
        }
        assert chain[1..] == Chain(fallback, fallback[x], fuel - 1);
      }
    }
  }

  lemma {:induction false} ChainTokens(fallback: seq<nat>, sz: Sizes, x: nat, n: nat)
    requires BetweenTokens(fallback, sz) && x < sz.nterminal
    ensures forall i :: 0 <= i < |Chain(fallback, x, n)| ==> Chain(fallback, x, n)[i] < sz.nterminal
    decreases n
  {
    if fallback[x] != 0 && n > 0 {
      ChainTokens(fallback, sz, fallback[x], n - 1);
    }
  }

  /** The first action along the chain is a reduction by `rule`, and a later one is not. */
  ghost predicate Overtaken(a: seq<Action>, chain: seq<nat>, rule: nat) {
    exists i, j :: OvertakenAt(a, chain, rule, i, j)
  }

  ghost predicate OvertakenAt(a: seq<Action>, chain: seq<nat>, rule: nat, i: int, j: int) {
    && 0 <= i < j < |chain| && (forall h :: 0 <= h < i ==> LiveOn(a, chain[h]).None?)
    && LiveOn(a, chain[i]).Some? && Reduces(LiveOn(a, chain[i]).value, rule)
    && LiveOn(a, chain[j]).Some? && !Reduces(LiveOn(a, chain[j]).value, rule)
  }

  /** What a compressed list says of one token. */
  lemma CompressedOn(a: seq<Action>, now: seq<Action>, rule: nat, dflt: nat, x: nat)
    requires OneLive(a) && OneLive(now) && Defaulted(a, now, rule, dflt) && x != dflt
    ensures LiveOn(now, x) == if LiveOn(a, x).Some? && !Reduces(LiveOn(a, x).value, rule) then LiveOn(a, x) else None
  {
    LiveOnIn(a, x);
    LiveOnIn(now, x);
    if LiveOn(now, x).Some? {
      LiveOnSome(a, LiveOn(now, x).value);
    }
    if LiveOn(a, x).Some? && !Reduces(LiveOn(a, x).value, rule) {
      LiveOnSome(now, LiveOn(a, x).value);
    }
  }

  lemma DefaultSupplied(a: seq<Action>, now: seq<Action>, rule: nat, dflt: nat)
    requires OneLive(a) && OneLive(now) && Defaulted(a, now, rule, dflt) && forall act :: act in a ==> act.sp != dflt
    ensures Supplied(now, [], dflt) == Some((REDUCE, rule)) && Supplied(a, [], dflt) == None
  {
    LiveOnSome(now, Action(dflt, REDUCE, rule));
    LiveOnIn(a, dflt);
  }

  /** Once compressed, a chain supplies its first action that is not by the default rule. */
  lemma {:induction false} CompressedSupplies(a: seq<Action>, now: seq<Action>, rule: nat, dflt: nat, chain: seq<nat>)
    requires OneLive(a) && OneLive(now) && Defaulted(a, now, rule, dflt) && forall act :: act in a ==> act.sp != dflt
    requires dflt !in chain
    ensures Supplied(now, chain, dflt) == Some((REDUCE, rule)) <==>
      forall j :: 0 <= j < |chain| && LiveOn(a, chain[j]).Some? ==> Reduces(LiveOn(a, chain[j]).value, rule)
  {
    DefaultSupplied(a, now, rule, dflt);
    if chain != [] {
      CompressedOn(a, now, rule, dflt, chain[0]);
      CompressedSupplies(a, now, rule, dflt, chain[1..]);
      forall j | 1 <= j < |chain| ensures chain[j] == chain[1..][j - 1] {
      }
    }
  }

  /** With fallback tokens a default reduction keeps what the parser does unless it is overtaken:
      a token that used to reduce by the default rule now finds the action of a later fallback.
      Where there was nothing to do, there is the default. */
  lemma {:induction false} CompressWithFallback(a: seq<Action>, now: seq<Action>, rule: nat, dflt: nat, chain: seq<nat>)
    requires OneLive(a) && OneLive(now) && Defaulted(a, now, rule, dflt) && forall act :: act in a ==> act.sp != dflt
    requires dflt !in chain
    ensures Supplied(a, chain, dflt).None? ==> Supplied(now, chain, dflt) == Some((REDUCE, rule))
    ensures Supplied(a, chain, dflt).Some? ==>
      (Supplied(now, chain, dflt) == Supplied(a, chain, dflt) <==> !Overtaken(a, chain, rule))
  {
    DefaultSupplied(a, now, rule, dflt);
    if chain != [] {
      CompressedOn(a, now, rule, dflt, chain[0]);
      var rest := chain[1..];
      forall j | 1 <= j < |chain| ensures chain[j] == rest[j - 1] {
      }
      if LiveOn(a, chain[0]).None? {
        CompressWithFallback(a, now, rule, dflt, rest);
        OvertakenLater(a, chain, rule);
      } else {
        CompressedSupplies(a, now, rule, dflt, rest);
        OvertakenNow(a, chain, rule);
      }
    }
  }

  lemma OvertakenLater(a: seq<Action>, chain: seq<nat>, rule: nat)
    requires chain != [] && LiveOn(a, chain[0]).None?
    ensures Overtaken(a, chain, rule) <==> Overtaken(a, chain[1..], rule)
  {
    if i, j :| OvertakenAt(a, chain, rule, i, j) {
      assert i > 0;
      assert OvertakenAt(a, chain[1..], rule, i - 1, j - 1);
    }
    if i, j :| OvertakenAt(a, chain[1..], rule, i, j) {
      assert OvertakenAt(a, chain, rule, i + 1, j + 1);
    }
  }

  lemma OvertakenNow(a: seq<Action>, chain: seq<nat>, rule: nat)
    requires chain != [] && LiveOn(a, chain[0]).Some?
    ensures Overtaken(a, chain, rule) <==>
      (Reduces(LiveOn(a, chain[0]).value, rule)
       && exists j :: 1 <= j < |chain| && LiveOn(a, chain[j]).Some? && !Reduces(LiveOn(a, chain[j]).value, rule))
  {
    if i, j :| OvertakenAt(a, chain, rule, i, j) {
      assert i == 0;
    }
    if Reduces(LiveOn(a, chain[0]).value, rule) {
      if j :| 1 <= j < |chain| && LiveOn(a, chain[j]).Some? && !Reduces(LiveOn(a, chain[j]).value, rule) {
        assert OvertakenAt(a, chain, rule, 0, j);
      }
    }
  }

  /** A grammar state in which compression changes what the parser does: tokens 1 and 3 reduce by
      rule 0, token 2 is shifted, and token 1 falls back to token 2.  Afterwards token 1 is shifted
      as if it were token 2. */
  lemma FallbackOvertakes(now: seq<Action>)
    requires var a := [Action(1, REDUCE, 0), Action(2, SHIFT, 5), Action(3, REDUCE, 0)];
      OneLive(now) && Defaulted(a, now, 0, 9)
    ensures var a := [Action(1, REDUCE, 0), Action(2, SHIFT, 5), Action(3, REDUCE, 0)];
      && Count(a, 0) == 2
      && Supplied(a, Chain([0, 2, 0, 0], 1, 1), 9) == Some((REDUCE, 0))
      && Supplied(now, Chain([0, 2, 0, 0], 1, 1), 9) == Some((SHIFT, 5))
  {
    var a := [Action(1, REDUCE, 0), Action(2, SHIFT, 5), Action(3, REDUCE, 0)];
    assert a[1..] == [a[1], a[2]] && a[1..][1..] == [a[2]] && a[1..][1..][1..] == [];
    var chain := Chain([0, 2, 0, 0], 1, 1);
    assert Chain([0, 2, 0, 0], 2, 0) == [2];
    assert chain == [1, 2] && chain[1..] == [2];
    LiveOnSome(a, a[0]);
    LiveOnSome(a, a[1]);
    CompressedOn(a, now, 0, 9, 1);
    CompressedOn(a, now, 0, 9, 2);
  }

  // ----- when the search ends

  /** Every token of the circle has a fallback in the circle and no action of its own in state `s`. */
  ghost predicate Circle(tables: Tables, fallback: seq<nat>, s: nat, circle: set<nat>)
    requires tables.Ok() && s < tables.nstate
  {
    forall y :: y in circle ==>
      y < |fallback| && fallback[y] != 0 && fallback[y] in circle && tables.At(tables.yy_shift_ofst[s], y).None?
  }

  ghost predicate InCircle(tables: Tables, fallback: seq<nat>, s: nat, x: nat)
    requires tables.Ok() && s < tables.nstate
  {
    exists circle: set<nat> :: x in circle && Circle(tables, fallback, s, circle)
  }

  /** The search ends after some number of steps. */
  ghost predicate SearchEnds(tables: Tables, fallback: seq<nat>, s: nat, x: nat)
    requires tables.Ok() && s < tables.nstate
  {
    exists fuel: nat :: tables.FindWithFallback(fallback, s, x, fuel).Some?
  }

  /** Fallbacks in a circle, none of which has an action: the driver's search does not end. */
  lemma {:induction false} CircleNeverEnds(tables: Tables, s: nat, fallback: seq<nat>, circle: set<nat>, x: nat,
                                           fuel: nat)
    requires tables.Ok() && s < tables.nstate && tables.yy_shift_ofst[s] != tables.shift_use_dflt
    requires Circle(tables, fallback, s, circle) && x in circle
    ensures tables.FindWithFallback(fallback, s, x, fuel) == None
    decreases fuel
  {
    if fuel > 0 {
      CircleNeverEnds(tables, s, fallback, circle, fallback[x], fuel - 1);
    }
  }

  /** The driver's search ends exactly if the state has no actions of its own on tokens, or the token
      is not in a circle of fallbacks without actions. */
  lemma EndsExactly(tables: Tables, s: nat, fallback: seq<nat>, x: nat)
    requires tables.Ok() && s < tables.nstate
    ensures SearchEnds(tables, fallback, s, x) <==>
      tables.yy_shift_ofst[s] == tables.shift_use_dflt || !InCircle(tables, fallback, s, x)
  {
    if tables.yy_shift_ofst[s] == tables.shift_use_dflt {
      assert tables.FindWithFallback(fallback, s, x, 0).Some?;
    } else {
      if InCircle(tables, fallback, s, x) && SearchEnds(tables, fallback, s, x) {
        var circle: set<nat> :| x in circle && Circle(tables, fallback, s, circle);
        var fuel: nat :| tables.FindWithFallback(fallback, s, x, fuel).Some?;
        CircleNeverEnds(tables, s, fallback, circle, x, fuel);
      }
      if !SearchEnds(tables, fallback, s, x) {
        var circle := set y: nat | y < |fallback| && !SearchEnds(tables, fallback, s, y);
        forall y: nat | !SearchEnds(tables, fallback, s, y)
          ensures y in circle && fallback[y] != 0 && fallback[y] in circle
            && tables.At(tables.yy_shift_ofst[s], y).None?
        {
          EndlessStep(tables, s, fallback, y);
          EndlessStep(tables, s, fallback, fallback[y]);
        }
        assert Circle(tables, fallback, s, circle);
      }
    }
  }

  lemma EndlessStep(tables: Tables, s: nat, fallback: seq<nat>, y: nat)
    requires tables.Ok() && s < tables.nstate && !SearchEnds(tables, fallback, s, y)
    ensures y < |fallback| && fallback[y] != 0 && tables.At(tables.yy_shift_ofst[s], y).None?
      && !SearchEnds(tables, fallback, s, fallback[y])
  {
    assert tables.FindWithFallback(fallback, s, y, 0).None?;
    forall fuel: nat ensures tables.FindWithFallback(fallback, s, fallback[y], fuel).None? {
      assert tables.FindWithFallback(fallback, s, y, fuel + 1).None?;
    }
  }

  lemma {:induction false} MoreFuel(tables: Tables, s: nat, fallback: seq<nat>, x: nat, fuel: nat, more: nat)
    requires tables.Ok() && s < tables.nstate && tables.FindWithFallback(fallback, s, x, fuel).Some? && fuel <= more
    ensures tables.FindWithFallback(fallback, s, x, more) == tables.FindWithFallback(fallback, s, x, fuel)
    decreases fuel
  {
    if fuel > 0 && x < |fallback| && fallback[x] != 0
      && tables.FindWithFallback(fallback, s, fallback[x], fuel - 1).Some? {
      MoreFuel(tables, s, fallback, fallback[x], fuel - 1, more - 1);
    }
  }

  /** The search ends within as many steps as there are tokens, or never. */
  lemma EndsSoon(tables: Tables, s: nat, fallback: seq<nat>, x: nat)
    requires tables.Ok() && s < tables.nstate
    ensures SearchEnds(tables, fallback, s, x) <==> tables.FindWithFallback(fallback, s, x, |fallback|).Some?
  {
    if SearchEnds(tables, fallback, s, x) {
      var fuel: nat :| tables.FindWithFallback(fallback, s, x, fuel).Some?;
      var m := LeastFuel(tables, s, fallback, x, fuel);
      DistinctSteps(tables, s, fallback, x, m, {});
      MoreFuel(tables, s, fallback, x, m, |fallback|);
    }
  }

  lemma {:induction false} LeastFuel(tables: Tables, s: nat, fallback: seq<nat>, x: nat, fuel: nat) returns (m: nat)
    requires tables.Ok() && s < tables.nstate && tables.FindWithFallback(fallback, s, x, fuel).Some?
    ensures tables.FindWithFallback(fallback, s, x, m).Some?
      && (m > 0 ==> tables.FindWithFallback(fallback, s, x, m - 1).None?)
    decreases fuel
  {
    m := fuel;
    if fuel > 0 && tables.FindWithFallback(fallback, s, x, fuel - 1).Some? {
      m := LeastFuel(tables, s, fallback, x, fuel - 1);
    }
  }

  /** The tokens on the way are all different: each is one step nearer to the end. */
  lemma {:induction false} DistinctSteps(tables: Tables, s: nat, fallback: seq<nat>, x: nat, m: nat, seen: set<nat>)
    requires tables.Ok() && s < tables.nstate && tables.FindWithFallback(fallback, s, x, m).Some?
    requires m > 0 ==> tables.FindWithFallback(fallback, s, x, m - 1).None?
    requires forall y :: y in seen ==> y < |fallback| && tables.FindWithFallback(fallback, s, y, m).None?
    ensures m + |seen| <= |fallback|
    decreases m
  {
    if m == 0 {
      CountBelow(seen, |fallback|);
    } else {
      forall y | y in seen ensures tables.FindWithFallback(fallback, s, y, m - 1).None? {
        if tables.FindWithFallback(fallback, s, y, m - 1).Some? {
          MoreFuel(tables, s, fallback, y, m - 1, m);
        }
      }
      DistinctSteps(tables, s, fallback, fallback[x], m - 1, seen + {x});
    }
  }

  lemma {:induction false} CountBelow(s: set<nat>, n: nat)
    requires forall x :: x in s ==> x < n
    ensures |s| <= n
    decreases n
  {
    if n > 0 {
      CountBelow(s - {n - 1}, n - 1);
    }
  }

  /** Tokens 1 and 2 stand in for each other, and the only state has an action on token 0 alone. */
  lemma TwoTokenCircle(fuel: nat)
    ensures var tables := Tables(1, [1], [0], [0], -1, [0], -1, [2]);
      tables.Ok() && tables.FindWithFallback([0, 2, 1], 0, 1, fuel) == None
  {
    var tables := Tables(1, [1], [0], [0], -1, [0], -1, [2]);
    CircleNeverEnds(tables, 0, [0, 2, 1], {1, 2}, 1, fuel);
  }
}
