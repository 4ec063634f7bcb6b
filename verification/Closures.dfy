/** lemon's configurations and Configlist_closure: the LR(0) closure of a basis, together with the
    follow-set contents and propagation links that the closure creates. */
module Closures {
  import opened Grammars
  import opened FirstSets

  /** A rule with a dot. */
  datatype Item = Item(rule: nat, dot: nat) {
    predicate Ok(g: Grammar) {
      rule < |g.rules| && dot <= |g.rules[rule].rhs|
    }

    predicate AtEnd(g: Grammar)
      requires Ok(g)
    {
      dot == |g.rules[rule].rhs|
    }

    /** The symbol after the dot. */
    function Next(g: Grammar): nat
      requires Ok(g) && !AtEnd(g)
    {
      g.rules[rule].rhs[dot]
    }

    /** What follows the symbol after the dot. */
    function Rest(g: Grammar): Form
      requires Ok(g) && !AtEnd(g)
    {
      g.rules[rule].rhs[dot + 1..]
    }

    function Advance(): Item {
      Item(rule, dot + 1)
    }

    /** The configuration calls for an occurrence of rule `r`'s left-hand side. */
    predicate Expands(g: Grammar, r: nat)
      requires Ok(g) && r < |g.rules|
    {
      !AtEnd(g) && Next(g) == g.rules[r].lhs
    }
  }

  ghost function AllItems(g: Grammar): set<Item> {
    set r: nat, d: nat | r < |g.rules| && d <= |g.rules[r].rhs| :: Item(r, d)
  }

  /** A configuration list: items, follow sets and forward links, in step. */
  datatype Closure = Closure(items: seq<Item>, fws: seq<set<nat>>, fplp: seq<seq<nat>>)

  function ItemSet(items: seq<Item>): set<Item> {
    set it | it in items
  }

  ghost predicate DistinctItems(items: seq<Item>) {
    forall i, j :: 0 <= i < j < |items| ==> items[i] != items[j]
  }

  /** Lists of equal length; items well formed and without repetition; links inside the list. */
  ghost predicate ListOk(g: Grammar, c: Closure) {
    && |c.items| == |c.fws| == |c.fplp|
    && (forall i :: 0 <= i < |c.items| ==> c.items[i].Ok(g))
    && DistinctItems(c.items)
    && (forall i, n :: 0 <= i < |c.items| && n in c.fplp[i] ==> n < |c.items|)
  }

  /** The tools computed by FindFirstSets. */
  ghost predicate FirstsOk(g: Grammar, lambda: seq<bool>, first: seq<set<nat>>) {
    && g.Valid() && |lambda| == g.nsymbol && |first| == g.nsymbol
    && LambdaSound(g, lambda) && LambdaClosed(g, lambda)
    && FirstSound(g, first) && FirstClosed(g, lambda, first)
  }

  /** Configuration `n` starts rule `r`, and hears from configuration `i`, which expands it:
      it has every terminal that can begin the rest of `i`, and a link when that rest can vanish. */
  ghost predicate Hears(g: Grammar, lambda: seq<bool>, first: seq<set<nat>>, c: Closure, i: nat, r: nat, n: nat)
    requires FirstsOk(g, lambda, first) && ListOk(g, c) && i < |c.items| && r < |g.rules| && c.items[i].Expands(g, r)
  {
    && n < |c.items| && c.items[n] == Item(r, 0)
    && (forall t: nat :: FormBegins(g, lambda, first, c.items[i].Rest(g), t) ==> t in c.fws[n])
    && (AllLambda(lambda, c.items[i].Rest(g)) ==> n in c.fplp[i])
  }

  /** Rule `r` has been added on behalf of configuration `i`. */
  ghost predicate Expanded(g: Grammar, lambda: seq<bool>, first: seq<set<nat>>, c: Closure, i: nat, r: nat)
    requires FirstsOk(g, lambda, first) && ListOk(g, c) && i < |c.items| && r < |g.rules|
  {
    c.items[i].Expands(g, r) ==> exists n: nat :: Hears(g, lambda, first, c, i, r, n)
  }

  /** Nothing is in the list without a reason: configurations beyond the basis start a rule that
      an earlier one expands. */
  ghost predicate Justified(g: Grammar, nbasis: nat, c: Closure)
    requires ListOk(g, c)
  {
    forall n :: nbasis <= n < |c.items| ==>
      c.items[n].dot == 0 && exists i :: 0 <= i < n && c.items[i].Expands(g, c.items[n].rule)
  }

  /** Follow sets and links are exactly what the rules for them call for. */
  ghost predicate Exact(g: Grammar, lambda: seq<bool>, first: seq<set<nat>>, nbasis: nat, seed: set<nat>, c: Closure)
    requires FirstsOk(g, lambda, first) && ListOk(g, c)
  {
    ExactFollows(g, lambda, first, nbasis, seed, c) && ExactLinks(g, lambda, c)
  }

  ghost predicate ExactFollows(g: Grammar, lambda: seq<bool>, first: seq<set<nat>>, nbasis: nat, seed: set<nat>,
                               c: Closure)
    requires FirstsOk(g, lambda, first) && ListOk(g, c)
  {
    forall n, t :: 0 <= n < |c.items| && t in c.fws[n] ==>
      (n < nbasis && t in seed) || Heard(g, lambda, first, c, n, t)
  }

  ghost predicate ExactLinks(g: Grammar, lambda: seq<bool>, c: Closure)
    requires g.nsymbol <= |lambda| && ListOk(g, c)
  {
    forall i: nat, n: nat :: i < |c.items| && n in c.fplp[i] ==> LinkMeant(g, lambda, c.items[i], c.items[n])
  }

  /** The second configuration starts a rule that the first calls for with all its rest vanishing. */
  ghost predicate LinkMeant(g: Grammar, lambda: seq<bool>, it: Item, to: Item)
    requires g.nsymbol <= |lambda| && it.Ok(g) && to.Ok(g)
  {
    to.dot == 0 && it.Expands(g, to.rule) && AllLambda(lambda, it.Rest(g))
  }

  /** Some configuration that expands `n` can be followed by `t`. */
  ghost predicate Heard(g: Grammar, lambda: seq<bool>, first: seq<set<nat>>, c: Closure, n: nat, t: nat)
    requires FirstsOk(g, lambda, first) && ListOk(g, c) && n < |c.items|
  {
    && c.items[n].dot == 0
    && exists i ::
      && 0 <= i < |c.items| && c.items[i].Expands(g, c.items[n].rule)
      && FormBegins(g, lambda, first, c.items[i].Rest(g), t)
  }

  /** What Configlist_closure delivers. */
  ghost predicate ClosureOk(g: Grammar, lambda: seq<bool>, first: seq<set<nat>>, basis: seq<Item>, seed: set<nat>,
                            c: Closure)
  {
    && FirstsOk(g, lambda, first) && ListOk(g, c)
    && |basis| <= |c.items| && c.items[..|basis|] == basis
    && (forall n :: 0 <= n < |basis| ==> seed <= c.fws[n])
    && (forall i: nat, r: nat :: i < |c.items| && r < |g.rules| ==> Expanded(g, lambda, first, c, i, r))
    && Justified(g, |basis|, c)
    && Exact(g, lambda, first, |basis|, seed, c)
  }

  /** `d` is `c` with more configurations, follow symbols and links. */
  ghost predicate Extends(c: Closure, d: Closure) {
    && |c.items| == |c.fws| == |c.fplp| && |d.items| == |d.fws| == |d.fplp|
    && |c.items| <= |d.items| && d.items[..|c.items|] == c.items
    && (forall i :: 0 <= i < |c.items| ==> c.fws[i] <= d.fws[i])
    && (forall i, n :: 0 <= i < |c.items| && n in c.fplp[i] ==> n in d.fplp[i])
  }

  lemma ExtendsTrans(b: Closure, c: Closure, d: Closure)
    requires Extends(b, c) && Extends(c, d)
    ensures Extends(b, d)
  {
    assert d.items[..|b.items|] == c.items[..|b.items|];
  }

  lemma ExtendsItem(c: Closure, d: Closure, i: nat)
    requires Extends(c, d) && i < |c.items|
    ensures d.items[i] == c.items[i]
  {
    assert d.items[..|c.items|][i] == d.items[i];
  }

  lemma ExpandedLasts(g: Grammar, lambda: seq<bool>, first: seq<set<nat>>, c: Closure, d: Closure, i: nat, r: nat)
    requires FirstsOk(g, lambda, first) && ListOk(g, c) && ListOk(g, d) && Extends(c, d)
    requires i < |c.items| && r < |g.rules| && Expanded(g, lambda, first, c, i, r)
    ensures Expanded(g, lambda, first, d, i, r)
  {
    ExtendsItem(c, d, i);
    if d.items[i].Expands(g, r) {
      var n: nat :| Hears(g, lambda, first, c, i, r, n);
      ExtendsItem(c, d, n);
      assert Hears(g, lambda, first, d, i, r, n);
    }
  }

  /** Configlist_add: the position of a configuration, appended if it is new. */
  method Add(g: Grammar, c: Closure, it: Item) returns (d: Closure, n: nat)
    requires ListOk(g, c) && it.Ok(g)
    ensures ListOk(g, d) && Extends(c, d) && n < |d.items| && d.items[n] == it
    ensures it in c.items ==> d == c
    ensures it !in c.items ==> n == |c.items| && d == Closure(c.items + [it], c.fws + [{}], c.fplp + [[]])
  {
    n := 0;
    while n < |c.items|
      invariant n <= |c.items| && it !in c.items[..n]
    {
      if c.items[n] == it {
        return c, n;
      }
      n := n + 1;
    }
    assert c.items[..n] == c.items;
    d := Closure(c.items + [it], c.fws + [{}], c.fplp + [[]]);
  }

  /** The terminals that can begin `form`, and whether all of it can vanish. */
  method FollowOf(g: Grammar, lambda: seq<bool>, first: seq<set<nat>>, form: Form)
    returns (fws: set<nat>, vanishes: bool)
    requires FirstsOk(g, lambda, first) && forall i :: 0 <= i < |form| ==> form[i] < g.nsymbol
    ensures forall t: nat :: t in fws <==> FormBegins(g, lambda, first, form, t)
    ensures vanishes <==> AllLambda(lambda, form)
  {
    fws := {};
    var i := 0;
    while i < |form|
      invariant i <= |form| && LambdaUpTo(lambda, form, i)
      invariant forall t: nat :: t in fws <==> exists k: nat :: k < i && BeginsAt(g, lambda, first, form, k, t)
    {
      var xsp := form[i];
      ghost var was := fws;
      fws := fws + if g.Terminal(xsp) then {xsp} else first[xsp];
      forall t: nat ensures t in fws <==> exists k: nat :: k < i + 1 && BeginsAt(g, lambda, first, form, k, t) {
        if t in Begins(g, first, xsp) {
          assert BeginsAt(g, lambda, first, form, i, t);
        }
      }
      if g.Terminal(xsp) {
        TerminalIsNotLambda(g, lambda, xsp);
      }
      if g.Terminal(xsp) || !lambda[xsp] {
        assert forall k: nat :: i < k ==> !LambdaUpTo(lambda, form, k);
        return fws, false;
      }
      i := i + 1;
    }
    return fws, true;
  }

  /** Everything Configlist_closure keeps true of the list while it works. */
  ghost predicate Sound(g: Grammar, lambda: seq<bool>, first: seq<set<nat>>, nbasis: nat, seed: set<nat>, c: Closure) {
    FirstsOk(g, lambda, first) && ListOk(g, c) && nbasis <= |c.items| && Justified(g, nbasis, c)
      && Exact(g, lambda, first, nbasis, seed, c)
  }

  lemma HeardLasts(g: Grammar, lambda: seq<bool>, first: seq<set<nat>>, c: Closure, d: Closure, n: nat, t: nat)
    requires FirstsOk(g, lambda, first) && ListOk(g, c) && ListOk(g, d) && Extends(c, d)
    requires n < |c.items| && Heard(g, lambda, first, c, n, t)
    ensures Heard(g, lambda, first, d, n, t)
  {
    var i :| 0 <= i < |c.items| && c.items[i].Expands(g, c.items[n].rule)
      && FormBegins(g, lambda, first, c.items[i].Rest(g), t);
    ExtendsItem(c, d, i);
    ExtendsItem(c, d, n);
  }

  /** A new configuration for rule `r`, expanded by configuration `i`. */
  lemma AddedSound(g: Grammar, lambda: seq<bool>, first: seq<set<nat>>, nbasis: nat, seed: set<nat>, c: Closure,
                   d: Closure, i: nat, r: nat)
    requires Sound(g, lambda, first, nbasis, seed, c) && ListOk(g, d) && Extends(c, d)
    requires i < |c.items| && r < |g.rules| && c.items[i].Expands(g, r)
    requires d == c || d == Closure(c.items + [Item(r, 0)], c.fws + [{}], c.fplp + [[]])
    ensures Sound(g, lambda, first, nbasis, seed, d)
  {
    if d != c {
      AddedJustified(g, nbasis, c, d, i, r);
      AddedFollows(g, lambda, first, nbasis, seed, c, d);
      AddedLinks(g, lambda, c, d);
      hide ListOk, Extends, Justified, ExactFollows, ExactLinks;
    }
  }

  lemma AddedJustified(g: Grammar, nbasis: nat, c: Closure, d: Closure, i: nat, r: nat)
    requires ListOk(g, c) && ListOk(g, d) && nbasis <= |c.items| && Justified(g, nbasis, c) && Extends(c, d)
    requires i < |c.items| && r < |g.rules| && c.items[i].Expands(g, r) && d.items == c.items + [Item(r, 0)]
    ensures Justified(g, nbasis, d)
  {
    forall n | nbasis <= n < |d.items|
      ensures d.items[n].dot == 0 && exists k :: 0 <= k < n && d.items[k].Expands(g, d.items[n].rule)
    {
      if n < |c.items| {
        var k :| 0 <= k < n && c.items[k].Expands(g, c.items[n].rule);
        ExtendsItem(c, d, n);
        ExtendsItem(c, d, k);
      } else {
        ExtendsItem(c, d, i);
      }
    }
  }

  lemma AddedFollows(g: Grammar, lambda: seq<bool>, first: seq<set<nat>>, nbasis: nat, seed: set<nat>, c: Closure,
                     d: Closure)
    requires FirstsOk(g, lambda, first) && ListOk(g, c) && ListOk(g, d) && Extends(c, d) && d.fws == c.fws + [{}]
    requires ExactFollows(g, lambda, first, nbasis, seed, c)
    ensures ExactFollows(g, lambda, first, nbasis, seed, d)
  {
    forall n, t | 0 <= n < |d.items| && t in d.fws[n]
      ensures (n < nbasis && t in seed) || Heard(g, lambda, first, d, n, t)
    {
      if !(n < nbasis && t in seed) {
        assert t in c.fws[n];
        HeardLasts(g, lambda, first, c, d, n, t);
      }
    }
  }

  lemma AddedLinks(g: Grammar, lambda: seq<bool>, c: Closure, d: Closure)
    requires g.nsymbol <= |lambda| && ListOk(g, c) && ListOk(g, d) && Extends(c, d) && d.fplp == c.fplp + [[]]
    requires ExactLinks(g, lambda, c)
    ensures ExactLinks(g, lambda, d)
  {
    forall j: nat, m: nat | j < |d.items| && m in d.fplp[j] ensures LinkMeant(g, lambda, d.items[j], d.items[m]) {
      assert m in c.fplp[j];
      ExtendsItem(c, d, j);
      ExtendsItem(c, d, m);
    }
  }

  /** The same list after configuration `n` has heard from configuration `i`. */
  function Informed(c: Closure, i: nat, n: nat, fws: set<nat>, vanishes: bool): Closure
    requires |c.items| == |c.fws| == |c.fplp| && i < |c.items| && n < |c.items|
  {
    Closure(c.items, c.fws[n := c.fws[n] + fws], if vanishes then c.fplp[i := [n] + c.fplp[i]] else c.fplp)
  }

  lemma InformedSound(g: Grammar, lambda: seq<bool>, first: seq<set<nat>>, nbasis: nat, seed: set<nat>, c: Closure,
                      i: nat, n: nat, fws: set<nat>, vanishes: bool)
    requires Sound(g, lambda, first, nbasis, seed, c)
    requires i < |c.items| && n < |c.items| && c.items[n].dot == 0 && c.items[i].Expands(g, c.items[n].rule)
    requires forall t: nat :: t in fws <==> FormBegins(g, lambda, first, c.items[i].Rest(g), t)
    requires vanishes <==> AllLambda(lambda, c.items[i].Rest(g))
    ensures Sound(g, lambda, first, nbasis, seed, Informed(c, i, n, fws, vanishes))
    ensures Extends(c, Informed(c, i, n, fws, vanishes))
    ensures Hears(g, lambda, first, Informed(c, i, n, fws, vanishes), i, c.items[n].rule, n)
  {
    var d := Informed(c, i, n, fws, vanishes);
    InformedLists(g, nbasis, c, i, n, fws, vanishes);
    InformedFollows(g, lambda, first, nbasis, seed, c, i, n, fws, vanishes);
    InformedLinks(g, lambda, c, i, n, fws, vanishes);
    hide Heard, ListOk, Extends, Justified, ExactFollows, ExactLinks;
  }

  lemma InformedFollows(g: Grammar, lambda: seq<bool>, first: seq<set<nat>>, nbasis: nat, seed: set<nat>, c: Closure,
                        i: nat, n: nat, fws: set<nat>, vanishes: bool)
    requires Sound(g, lambda, first, nbasis, seed, c)
    requires i < |c.items| && n < |c.items| && c.items[n].dot == 0 && c.items[i].Expands(g, c.items[n].rule)
    requires forall t: nat :: t in fws <==> FormBegins(g, lambda, first, c.items[i].Rest(g), t)
    requires vanishes <==> AllLambda(lambda, c.items[i].Rest(g))
    ensures var d := Informed(c, i, n, fws, vanishes);
      ListOk(g, d) && ExactFollows(g, lambda, first, nbasis, seed, d)
  {
    InformedLists(g, nbasis, c, i, n, fws, vanishes);
    var d := Informed(c, i, n, fws, vanishes);
    forall m, t | 0 <= m < |d.items| && t in d.fws[m]
      ensures (m < nbasis && t in seed) || Heard(g, lambda, first, d, m, t)
    {
      if !(m < nbasis && t in seed) {
        hide *;
        InformedHeard(g, lambda, first, nbasis, seed, c, i, n, fws, vanishes, m, t);
      }
    }
  }

  lemma InformedLinks(g: Grammar, lambda: seq<bool>, c: Closure, i: nat, n: nat, fws: set<nat>, vanishes: bool)
    requires g.nsymbol <= |lambda| && ListOk(g, c) && ExactLinks(g, lambda, c)
    requires i < |c.items| && n < |c.items| && c.items[n].dot == 0 && c.items[i].Expands(g, c.items[n].rule)
    requires vanishes ==> AllLambda(lambda, c.items[i].Rest(g))
    requires ListOk(g, Informed(c, i, n, fws, vanishes))
    ensures ExactLinks(g, lambda, Informed(c, i, n, fws, vanishes))
  {
    var d := Informed(c, i, n, fws, vanishes);
    assert vanishes ==> LinkMeant(g, lambda, c.items[i], c.items[n]);
    hide LinkMeant;
    forall j: nat, m: nat | j < |d.items| && m in d.fplp[j] ensures LinkMeant(g, lambda, d.items[j], d.items[m]) {
      InformedLink(c, i, n, fws, vanishes, j, m);
    }
  }

  lemma InformedLink(c: Closure, i: nat, n: nat, fws: set<nat>, vanishes: bool, j: nat, m: nat)
    requires |c.items| == |c.fws| == |c.fplp| && i < |c.items| && n < |c.items| && j < |c.fplp|
    requires m in Informed(c, i, n, fws, vanishes).fplp[j]
    ensures m in c.fplp[j] || (j == i && m == n && vanishes)
  {
  }

  lemma InformedLists(g: Grammar, nbasis: nat, c: Closure, i: nat, n: nat, fws: set<nat>, vanishes: bool)
    requires ListOk(g, c) && i < |c.items| && n < |c.items| && nbasis <= |c.items| && Justified(g, nbasis, c)
    ensures var d := Informed(c, i, n, fws, vanishes); ListOk(g, d) && Extends(c, d) && Justified(g, nbasis, d)
  {
  }

  lemma InformedHeard(g: Grammar, lambda: seq<bool>, first: seq<set<nat>>, nbasis: nat, seed: set<nat>, c: Closure,
                      i: nat, n: nat, fws: set<nat>, vanishes: bool, m: nat, t: nat)
    requires Sound(g, lambda, first, nbasis, seed, c)
    requires i < |c.items| && n < |c.items| && c.items[n].dot == 0 && c.items[i].Expands(g, c.items[n].rule)
    requires forall t: nat :: t in fws <==> FormBegins(g, lambda, first, c.items[i].Rest(g), t)
    requires ListOk(g, Informed(c, i, n, fws, vanishes)) && Extends(c, Informed(c, i, n, fws, vanishes))
    requires m < |c.items| && t in Informed(c, i, n, fws, vanishes).fws[m] && !(m < nbasis && t in seed)
    ensures Heard(g, lambda, first, Informed(c, i, n, fws, vanishes), m, t)
  {
    if t in c.fws[m] {
      assert Heard(g, lambda, first, c, m, t);
      HeardLasts(g, lambda, first, c, Informed(c, i, n, fws, vanishes), m, t);
    }
  }

  /** One rule for one configuration. */
  method Expand(g: Grammar, lambda: seq<bool>, first: seq<set<nat>>, ghost nbasis: nat, ghost seed: set<nat>,
                c: Closure, i: nat, r: nat)
    returns (d: Closure)
    requires Sound(g, lambda, first, nbasis, seed, c)
    requires i < |c.items| && r < |g.rules| && c.items[i].Expands(g, r)
    ensures Sound(g, lambda, first, nbasis, seed, d) && Extends(c, d)
    ensures Expanded(g, lambda, first, d, i, r)
  {
    var added, n := Add(g, c, Item(r, 0));
    AddedSound(g, lambda, first, nbasis, seed, c, added, i, r);
    ExtendsItem(c, added, i);
    var fws, vanishes := FollowOf(g, lambda, first, c.items[i].Rest(g));
    d := Informed(added, i, n, fws, vanishes);
    InformedSound(g, lambda, first, nbasis, seed, added, i, n, fws, vanishes);
    ExtendsTrans(c, added, d);
  }

  /** All rules for one configuration. */
  method ExpandAll(g: Grammar, lambda: seq<bool>, first: seq<set<nat>>, ghost nbasis: nat, ghost seed: set<nat>,
                   c: Closure, i: nat)
    returns (d: Closure)
    requires Sound(g, lambda, first, nbasis, seed, c) && i < |c.items|
    ensures Sound(g, lambda, first, nbasis, seed, d) && Extends(c, d)
    ensures forall r: nat :: r < |g.rules| ==> Expanded(g, lambda, first, d, i, r)
  {
    d := c;
    for r := 0 to |g.rules|
      invariant Sound(g, lambda, first, nbasis, seed, d) && Extends(c, d)
      invariant forall r': nat :: r' < r ==> Expanded(g, lambda, first, d, i, r')
    {
      ExtendsItem(c, d, i);
      ghost var was := d;
      if !d.items[i].AtEnd(g) && d.items[i].Next(g) == g.rules[r].lhs {
        d := Expand(g, lambda, first, nbasis, seed, d, i, r);
        ExtendsTrans(c, was, d);
        forall r': nat | r' < r ensures Expanded(g, lambda, first, d, i, r') {
          ExpandedLasts(g, lambda, first, was, d, i, r');
        }
      }
    }
  }

  lemma ItemsBounded(g: Grammar, c: Closure)
    requires ListOk(g, c)
    ensures ItemSet(c.items) <= AllItems(g)
  {
  }

  /** Growing the list uses up items. */
  lemma ItemsUsed(g: Grammar, c: Closure, d: Closure)
    requires ListOk(g, c) && ListOk(g, d) && Extends(c, d)
    ensures |c.items| == |d.items| || AllItems(g) - ItemSet(d.items) < AllItems(g) - ItemSet(c.items)
  {
    ItemsBounded(g, d);
    assert forall it :: it in c.items ==> it in d.items[..|c.items|];
    if |c.items| < |d.items| {
      var it := d.items[|c.items|];
      assert it in ItemSet(d.items);
      assert it !in c.items;
    }
  }

  /** The first `n` configurations have been dealt with. */
  ghost predicate ExpandedUpTo(g: Grammar, lambda: seq<bool>, first: seq<set<nat>>, c: Closure, n: nat)
    requires FirstsOk(g, lambda, first) && ListOk(g, c)
  {
    n <= |c.items| && forall k: nat, r: nat :: k < n && r < |g.rules| ==> Expanded(g, lambda, first, c, k, r)
  }

  lemma ExpandedUpToLasts(g: Grammar, lambda: seq<bool>, first: seq<set<nat>>, c: Closure, d: Closure, i: nat)
    requires FirstsOk(g, lambda, first) && ListOk(g, c) && ListOk(g, d) && Extends(c, d) && i < |c.items|
    requires ExpandedUpTo(g, lambda, first, c, i)
    requires forall r: nat :: r < |g.rules| ==> Expanded(g, lambda, first, d, i, r)
    ensures ExpandedUpTo(g, lambda, first, d, i + 1)
  {
    forall k: nat, r: nat | k < i + 1 && r < |g.rules| ensures Expanded(g, lambda, first, d, k, r) {
      if k < i {
        ExpandedLasts(g, lambda, first, c, d, k, r);
      }
    }
  }

  lemma StartSound(g: Grammar, lambda: seq<bool>, first: seq<set<nat>>, basis: seq<Item>, seed: set<nat>)
    requires FirstsOk(g, lambda, first)
    requires DistinctItems(basis) && forall i :: 0 <= i < |basis| ==> basis[i].Ok(g)
    ensures Sound(g, lambda, first, |basis|, seed, Closure(basis, seq(|basis|, _ => seed), seq(|basis|, _ => [])))
  {
  }

  /** Configlist_closure. */
  method Close(g: Grammar, lambda: seq<bool>, first: seq<set<nat>>, basis: seq<Item>, seed: set<nat>)
    returns (c: Closure)
    requires FirstsOk(g, lambda, first)
    requires DistinctItems(basis) && forall i :: 0 <= i < |basis| ==> basis[i].Ok(g)
    ensures ClosureOk(g, lambda, first, basis, seed, c)
  {
    c := Closure(basis, seq(|basis|, _ => seed), seq(|basis|, _ => []));
    StartSound(g, lambda, first, basis, seed);
    ghost var start := c;
    var i := 0;
    while i < |c.items|
      invariant Sound(g, lambda, first, |basis|, seed, c) && Extends(start, c)
      invariant ExpandedUpTo(g, lambda, first, c, i)
      decreases AllItems(g) - ItemSet(c.items), |c.items| - i
    {
      ghost var was := c;
      c := ExpandAll(g, lambda, first, |basis|, seed, c, i);
      ExtendsTrans(start, was, c);
      ItemsUsed(g, was, c);
      ExpandedUpToLasts(g, lambda, first, was, c, i);
      i := i + 1;
    }
  }
}
