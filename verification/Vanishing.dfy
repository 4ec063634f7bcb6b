/** Why an LALR(1) grammar has no rules that go round in a circle: whatever vanishes before a token, by
    different rules or beside something that begins with the token, is a conflict in the end. */
module Vanishing {
  import opened Grammars
  import opened Closures
  import opened Lalr
  import opened Forests

  /** After the prefix `u` the rest of the item can vanish, in the way of the forest, before the token. */
  ghost predicate Vanishes(g: Grammar, u: Form, it: Item, f: Forest, t: nat) {
    && it.Ok(g) && Look(g, u, it, t)
    && ForestOk(g, f) && Roots(g, f) == g.rules[it.rule].rhs[it.dot..] && Yield(f) == []
  }

  // ----- the left edge of a forest

  /** Item `c` and forest `h` lie on the left edge of what is below `it`. */
  ghost predicate Edge(it: Item, f: Forest, c: Item, h: Forest)
    decreases f
  {
    (c == it && h == f) || (f.Node? && Edge(Item(f.rule, 0), f.kids, c, h))
  }

  /** The item at the lower end of the left edge. */
  ghost function Bottom(it: Item, f: Forest): Item
    decreases f
  {
    if f.Node? then Bottom(Item(f.rule, 0), f.kids) else it
  }

  lemma {:induction false} BottomOnEdge(it: Item, f: Forest) returns (h: Forest)
    ensures Edge(it, f, Bottom(it, f), h) && !h.Node?
    ensures f.Node? ==> Bottom(it, f).dot == 0
    decreases f
  {
    h := f;
    if f.Node? {
      h := BottomOnEdge(Item(f.rule, 0), f.kids);
    }
  }

  /** Below the top, everything on the left edge has been called for by something on it. */
  lemma {:induction false} Caller(it: Item, f: Forest, c: Item, h: Forest) returns (d: Item, k: Forest)
    requires f.Node? && Edge(Item(f.rule, 0), f.kids, c, h)
    ensures Edge(it, f, d, k) && k.Node? && k.rule == c.rule
    decreases f
  {
    if c == Item(f.rule, 0) && h == f.kids {
      d, k := it, f;
    } else {
      d, k := Caller(Item(f.rule, 0), f.kids, c, h);
    }
  }

  /** Two edges with one lower end, followed upwards: the same rules, up to different items or to the top
      of one of the edges. */
  lemma {:induction false} Fork(it: Item, f: Forest, other: Item, e: Forest)
    returns (c: Item, h: Forest, d: Item, k: Forest)
    requires f.Node? && e.Node? && Bottom(it, f) == Bottom(other, e)
    ensures Edge(it, f, c, h) && Edge(other, e, d, k) && h.Node? && k.Node? && h.rule == k.rule
    ensures c != d || (c == it && h == f) || (d == other && k == e)
    decreases f
  {
    var a, b := Item(f.rule, 0), Item(e.rule, 0);
    c, h, d, k := it, f, other, e;
    if !f.kids.Node? {
      var low := BottomOnEdge(b, e.kids);
      d, k := Caller(other, e, a, low);
    } else if !e.kids.Node? {
      var low := BottomOnEdge(a, f.kids);
      c, h := Caller(it, f, b, low);
    } else {
      c, h, d, k := Fork(a, f.kids, b, e.kids);
      if c == d && c == a && h == f.kids {
        d, k := Caller(other, e, d, k);
        c, h := it, f;
      } else if c == d {
        c, h := Caller(it, f, c, h);
        d, k := other, e;
      }
    }
  }

  // ----- items that vanish

  /** What vanishes calls for rules that vanish, and goes on vanishing after each of them. */
  lemma VanishesOn(g: Grammar, u: Form, it: Item, f: Forest, t: nat)
    requires g.Valid() && Vanishes(g, u, it, f, t)
    ensures !f.Leaf? && (f.Empty? ==> it.AtEnd(g))
    ensures f.Node? ==>
      && f.rule < |g.rules| && !it.AtEnd(g) && it.Next(g) == g.rules[f.rule].lhs
      && Vanishes(g, u, Item(f.rule, 0), f.kids, t)
      && Vanishes(g, u + [it.Next(g)], it.Advance(), f.rest, t)
  {
    if f.Node? {
      var rhs := g.rules[it.rule].rhs;
      assert rhs[it.dot..][1..] == rhs[it.dot + 1..] && Roots(g, f)[1..] == Roots(g, f.rest)
        && rhs[it.dot..][0] == rhs[it.dot];
      assert g.rules[f.rule].rhs[0..] == g.rules[f.rule].rhs;
      ForestDerives(g, f.rest);
      hide Look, LookIn, Valid, Derives;
      LooksValid(g, u, it, t);
      LookShifts(g, u, it, t);
      LookPasses(g, u, it, f.rule, t);
    }
  }

  lemma LooksValid(g: Grammar, u: Form, it: Item, t: nat)
    requires g.Valid() && Look(g, u, it, t)
    ensures Valid(g, u, it) && g.Terminal(t)
  {
    var n: nat :| LookIn(g, u, it, t, n);
    LookValid(g, u, it, t, n);
  }

  lemma {:induction false} EdgeVanishes(g: Grammar, u: Form, it: Item, f: Forest, t: nat, c: Item, h: Forest)
    requires g.Valid() && Vanishes(g, u, it, f, t) && Edge(it, f, c, h)
    ensures Vanishes(g, u, c, h, t) && |Post(h)| <= |Post(f)| && (c == it || c.dot == 0)
    decreases f
  {
    hide Vanishes;
    VanishesOn(g, u, it, f, t);
    if !(c == it && h == f) {
      EdgeVanishes(g, u, Item(f.rule, 0), f.kids, t, c, h);
    }
  }

  /** What vanishes begins with a reduction before the token. */
  lemma BottomReduces(g: Grammar, u: Form, it: Item, f: Forest, t: nat)
    requires g.Valid() && Vanishes(g, u, it, f, t)
    ensures var c := Bottom(it, f); c.Ok(g) && c.AtEnd(g) && ReducesOn(g, u, c.rule, t)
  {
    var c := Bottom(it, f);
    var h := BottomOnEdge(it, f);
    EdgeVanishes(g, u, it, f, t, c, h);
    VanishesOn(g, u, c, h, t);
    assert c == Item(c.rule, |g.rules[c.rule].rhs|);
    assert ReducesAfter(g, u, u, c.rule, t);
  }

  /** Without conflicts only one item past its start vanishes before a token. */
  lemma {:induction false} VanishesOnce(g: Grammar, u: Form, it: Item, f: Forest, other: Item, e: Forest, t: nat)
    requires g.Valid() && Lalr1(g) && it.dot > 0 && other.dot > 0
    requires Vanishes(g, u, it, f, t) && Vanishes(g, u, other, e, t)
    ensures it == other
    decreases |Post(f)| + |Post(e)|
  {
    BottomReduces(g, u, it, f, t);
    BottomReduces(g, u, other, e, t);
    assert Bottom(it, f) == Bottom(other, e);
    hide Vanishes, ReducesOn, Lalr1;
    var low := BottomOnEdge(it, f);
    low := BottomOnEdge(other, e);
    if it != other {
      var c, h, d, k := Fork(it, f, other, e);
      EdgeVanishes(g, u, it, f, t, c, h);
      EdgeVanishes(g, u, other, e, t, d, k);
      if c != d {
        VanishesOn(g, u, c, h, t);
        VanishesOn(g, u, d, k, t);
        VanishesOnce(g, u + [g.rules[h.rule].lhs], c.Advance(), h.rest, d.Advance(), k.rest, t);
      }
    }
  }

  /** A forest for a form that vanishes. */
  lemma VanishingForest(g: Grammar, form: Form) returns (f: Forest)
    requires Derives(g, form, [])
    ensures ForestOk(g, f) && Roots(g, f) == form && Yield(f) == []
  {
    var n: nat :| DerivesIn(g, form, [], n);
    f := DerivationForest(g, form, [], n);
  }

  // ----- forms that begin with a token

  /** The form begins with the token, or its first symbol does, or that symbol vanishes and the rest
      begins with it. */
  ghost predicate BeginsIn(g: Grammar, form: Form, t: nat, n: nat)
    decreases n
  {
    && n > 0 && form != []
    && (|| form[0] == t
        || (exists r: nat :: r < |g.rules| && g.rules[r].lhs == form[0] && BeginsIn(g, g.rules[r].rhs, t, n - 1))
        || (Derives(g, [form[0]], []) && BeginsIn(g, form[1..], t, n - 1)))
  }

  ghost predicate Begins(g: Grammar, form: Form, t: nat) {
    exists n: nat :: BeginsIn(g, form, t, n)
  }

  lemma BeginsAt(g: Grammar, form: Form, t: nat)
    requires form != [] && form[0] == t
    ensures Begins(g, form, t)
  {
    assert BeginsIn(g, form, t, 1);
  }

  lemma BeginsByRule(g: Grammar, form: Form, t: nat, r: nat)
    requires form != [] && r < |g.rules| && g.rules[r].lhs == form[0] && Begins(g, g.rules[r].rhs, t)
    ensures Begins(g, form, t)
  {
    var n: nat :| BeginsIn(g, g.rules[r].rhs, t, n);
    assert BeginsIn(g, form, t, n + 1);
  }

  lemma BeginsLater(g: Grammar, form: Form, t: nat)
    requires form != [] && Derives(g, [form[0]], []) && Begins(g, form[1..], t)
    ensures Begins(g, form, t)
  {
    var n: nat :| BeginsIn(g, form[1..], t, n);
    assert BeginsIn(g, form, t, n + 1);
  }

  lemma {:induction false} BeginsSplit(g: Grammar, a: Form, b: Form, t: nat, n: nat)
    requires BeginsIn(g, a + b, t, n)
    ensures Begins(g, a, t) || (Derives(g, a, []) && Begins(g, b, t))
    decreases n
  {
    var form := a + b;
    if a == [] {
      assert form == b;
      DerivesRefl(g, []);
    } else if form[0] == t {
      BeginsAt(g, a, t);
    } else if r: nat :| r < |g.rules| && g.rules[r].lhs == form[0] && BeginsIn(g, g.rules[r].rhs, t, n - 1) {
      BeginsByRule(g, a, t, r);
    } else {
      assert form[1..] == a[1..] + b;
      BeginsSplit(g, a[1..], b, t, n - 1);
      if Begins(g, a[1..], t) {
        BeginsLater(g, a, t);
      } else {
        var none: Form := [];
        DerivesConcat(g, [a[0]], none, a[1..], none);
        assert [a[0]] + a[1..] == a && none + none == none;
      }
    }
  }

  /** Undoing one derivation step. */
  lemma {:induction false} BeginsBefore(g: Grammar, form: Form, i: nat, r: nat, t: nat, n: nat)
    requires i < |form| && r < |g.rules| && form[i] == g.rules[r].lhs
    requires BeginsIn(g, form[..i] + g.rules[r].rhs + form[i + 1..], t, n)
    ensures Begins(g, form, t)
    decreases i
  {
    var c := form[..i] + g.rules[r].rhs + form[i + 1..];
    if i == 0 {
      assert c == g.rules[r].rhs + form[1..];
      BeginsSplit(g, g.rules[r].rhs, form[1..], t, n);
      if Begins(g, g.rules[r].rhs, t) {
        BeginsByRule(g, form, t, r);
      } else {
        RuleDerives(g, r);
        DerivesTrans(g, [form[0]], g.rules[r].rhs, []);
        BeginsLater(g, form, t);
      }
    } else if c[0] == t {
      BeginsAt(g, form, t);
    } else if q: nat :| q < |g.rules| && g.rules[q].lhs == c[0] && BeginsIn(g, g.rules[q].rhs, t, n - 1) {
      BeginsByRule(g, form, t, q);
    } else {
      assert c[1..] == form[1..][..i - 1] + g.rules[r].rhs + form[1..][i..];
      BeginsBefore(g, form[1..], i - 1, r, t, n - 1);
      BeginsLater(g, form, t);
    }
  }

  lemma {:induction false} DerivedBegins(g: Grammar, form: Form, t: nat, rest: Form, n: nat)
    requires DerivesIn(g, form, [t] + rest, n)
    ensures Begins(g, form, t)
    decreases n
  {
    if n == 0 {
      BeginsAt(g, form, t);
    } else {
      var c :| Step(g, form, c) && DerivesIn(g, c, [t] + rest, n - 1);
      var i: nat, r: nat :| StepAt(g, form, c, i, r);
      DerivedBegins(g, c, t, rest, n - 1);
      var m: nat :| BeginsIn(g, c, t, m);
      BeginsBefore(g, form, i, r, t, m);
    }
  }

  lemma {:induction false} BeginsDerives(g: Grammar, form: Form, t: nat, n: nat) returns (rest: Form)
    requires BeginsIn(g, form, t, n)
    ensures Derives(g, form, [t] + rest)
    decreases n
  {
    var tail := form[1..];
    assert form == [form[0]] + tail;
    if form[0] == t {
      rest := tail;
      DerivesRefl(g, form);
    } else if r: nat :| r < |g.rules| && g.rules[r].lhs == form[0] && BeginsIn(g, g.rules[r].rhs, t, n - 1) {
      var more := BeginsDerives(g, g.rules[r].rhs, t, n - 1);
      RuleDerives(g, r);
      DerivesTrans(g, [form[0]], g.rules[r].rhs, [t] + more);
      DerivesSuffix(g, [form[0]], [t] + more, tail);
      rest := more + tail;
      assert [t] + more + tail == [t] + rest;
    } else {
      rest := BeginsDerives(g, tail, t, n - 1);
      DerivesConcat(g, [form[0]], [], tail, [t] + rest);
      assert [] + ([t] + rest) == [t] + rest;
    }
  }

  /** The symbol after the dot vanishes before the token that the rest begins with. */
  lemma VanishesFirst(g: Grammar, u: Form, it: Item, t: nat) returns (f: Forest)
    requires g.Valid() && Valid(g, u, it) && it.Ok(g) && !it.AtEnd(g)
    requires Derives(g, [it.Next(g)], []) && CanStart(g, it.Rest(g), t)
    ensures f.Node? && f.rule < |g.rules| && g.rules[f.rule].lhs == it.Next(g)
    ensures Vanishes(g, u, Item(f.rule, 0), f.kids, t)
  {
    f := VanishingForest(g, [it.Next(g)]);
    assert Roots(g, f)[0] == it.Next(g) && Yield(f) == Yield(f.kids) + Yield(f.rest);
    LookBegins(g, u, it, f.rule, t);
    assert g.rules[f.rule].rhs[0..] == g.rules[f.rule].rhs;
  }

  /** Something that vanishes is where `it` is when its next symbol has vanished. */
  lemma MeetsVanishing(g: Grammar, u: Form, it: Item, f: Forest, other: Item, e: Forest, t: nat)
    returns (d: Item, k: Forest)
    requires g.Valid() && Lalr1(g) && it.Ok(g) && !it.AtEnd(g) && other.dot > 0 && Vanishes(g, u, other, e, t)
    requires f.Node? && f.rule < |g.rules| && g.rules[f.rule].lhs == it.Next(g)
    requires Vanishes(g, u, Item(f.rule, 0), f.kids, t)
    ensures k.Node? && Vanishes(g, u + [it.Next(g)], d.Advance(), k.rest, t)
  {
    BottomReduces(g, u, Item(f.rule, 0), f.kids, t);
    BottomReduces(g, u, other, e, t);
    var low := BottomOnEdge(it, f);
    assert Bottom(it, f) == Bottom(other, e);
    hide Vanishes, ReducesOn, Lalr1;
    var c, h;
    c, h, d, k := Fork(it, f, other, e);
    EdgeVanishes(g, u, other, e, t, d, k);
    VanishesOn(g, u, d, k, t);
    if !(c == it && h == f) {
      EdgeVanishes(g, u, Item(f.rule, 0), f.kids, t, c, h);
      VanishesOn(g, u, c, h, t);
      VanishesOnce(g, u + [g.rules[h.rule].lhs], c.Advance(), h.rest, d.Advance(), k.rest, t);
    }
  }

  /** Without conflicts nothing vanishes before a token that something else could begin with. */
  lemma {:induction false} BeginsNotVanishes(g: Grammar, u: Form, it: Item, n: nat, other: Item, e: Forest, t: nat)
    requires g.Valid() && Lalr1(g) && Valid(g, u, it) && it.Ok(g) && other.dot > 0 && g.Terminal(t)
    requires BeginsIn(g, g.rules[it.rule].rhs[it.dot..], t, n)
    ensures !Vanishes(g, u, other, e, t)
    decreases n
  {
    var form := g.rules[it.rule].rhs[it.dot..];
    assert form[0] == it.Next(g) && form[1..] == it.Rest(g) == g.rules[it.rule].rhs[it.Advance().dot..];
    if Vanishes(g, u, other, e, t) {
      if form[0] == t {
        BottomReduces(g, u, other, e, t);
        assert NextAfter(g, u, it, t);
      } else if r: nat :| r < |g.rules| && g.rules[r].lhs == form[0] && BeginsIn(g, g.rules[r].rhs, t, n - 1) {
        ValidExpands(g, u, it, r);
        assert g.rules[r].rhs[0..] == g.rules[r].rhs;
        BeginsNotVanishes(g, u, Item(r, 0), n - 1, other, e, t);
      } else {
        var rest := BeginsDerives(g, it.Rest(g), t, n - 1);
        var f := VanishesFirst(g, u, it, t);
        var d, k := MeetsVanishing(g, u, it, f, other, e, t);
        ValidShifts(g, u, it);
        BeginsNotVanishes(g, u + [it.Next(g)], it.Advance(), n - 1, d.Advance(), k.rest, t);
      }
    }
  }

  // ----- rules that go round in a circle

  function Before(rs: seq<nat>, i: nat): (j: nat)
    requires i < |rs|
    ensures j < |rs|
  {
    if i == 0 then |rs| - 1 else i - 1
  }

  /** The rule begins with the symbol, and the rest of it can vanish. */
  ghost predicate OnTopOf(g: Grammar, r: nat, x: nat) {
    r < |g.rules| && g.rules[r].rhs != [] && g.rules[r].rhs[0] == x && Derives(g, g.rules[r].rhs[1..], [])
  }

  /** Each rule lies on top of the one before it, and the first on top of the last. */
  ghost predicate Circle(g: Grammar, rs: seq<nat>) {
    forall i: nat :: i < |rs| ==> RoundAt(g, rs, i)
  }

  ghost predicate RoundAt(g: Grammar, rs: seq<nat>, i: nat)
    requires i < |rs|
  {
    rs[Before(rs, i)] < |g.rules| && OnTopOf(g, rs[i], g.rules[rs[Before(rs, i)]].lhs)
  }

  /** What may follow a rule of the circle may follow the one before it. */
  lemma LookBefore(g: Grammar, rs: seq<nat>, w: Form, i: nat, t: nat)
    requires g.Valid() && Circle(g, rs) && i < |rs| && Look(g, w, Item(rs[i], 0), t)
    ensures Look(g, w, Item(rs[Before(rs, i)], 0), t)
  {
    assert RoundAt(g, rs, i);
    LooksValid(g, w, Item(rs[i], 0), t);
    LookPasses(g, w, Item(rs[i], 0), rs[Before(rs, i)], t);
  }

  lemma {:induction false} LookDown(g: Grammar, rs: seq<nat>, w: Form, i: nat, j: nat, t: nat)
    requires g.Valid() && Circle(g, rs) && j <= i < |rs| && Look(g, w, Item(rs[i], 0), t)
    ensures Look(g, w, Item(rs[j], 0), t)
    decreases i
  {
    hide Circle, Look;
    if j < i {
      LookBefore(g, rs, w, i, t);
      LookDown(g, rs, w, i - 1, j, t);
    }
  }

  /** What may follow one rule of the circle may follow each. */
  lemma LookAround(g: Grammar, rs: seq<nat>, w: Form, i: nat, j: nat, t: nat)
    requires g.Valid() && Circle(g, rs) && i < |rs| && j < |rs| && Look(g, w, Item(rs[i], 0), t)
    ensures Look(g, w, Item(rs[j], 0), t)
  {
    hide Circle, Look;
    LookDown(g, rs, w, i, 0, t);
    LookBefore(g, rs, w, 0, t);
    LookDown(g, rs, w, |rs| - 1, j, t);
  }

  /** Without conflicts no token may ever follow a rule of a circle: what calls for it from outside the
      circle is in conflict with the circle. */
  lemma {:induction false} CircleCalled(g: Grammar, rs: seq<nat>, w: Form, i: nat, t: nat, n: nat)
    requires g.Valid() && Lalr1(g) && StartNotFirst(g) && Circle(g, rs) && i < |rs|
    ensures !LookIn(g, w, Item(rs[i], 0), t, n)
    decreases n
  {
    if LookIn(g, w, Item(rs[i], 0), t, n) {
      var j := if i == |rs| - 1 then 0 else i + 1;
      var it, d := Item(rs[i], 0), Item(rs[j], 0);
      assert Before(rs, j) == i && RoundAt(g, rs, j) && RoundAt(g, rs, i);
      LookAround(g, rs, w, i, j, t);
      LooksValid(g, w, d, t);
      if w == [] && g.rules[rs[i]].lhs == g.start && t == 0 {
        assert NextAfter(g, [], d, g.start);
      } else {
        var c: Item :| Calls(g, c, rs[i]) && Valid(g, w, c)
          && (CanStart(g, c.Rest(g), t) || (Derives(g, c.Rest(g), []) && LookIn(g, w, c, t, n - 1)));
        if c == d && !CanStart(g, c.Rest(g), t) {
          CircleCalled(g, rs, w, j, t, n - 1);
        } else {
          TwoCallers(g, w, c, d, rs[i], t);
        }
      }
    }
  }

  /** If what comes after rule `r` in the caller `d` vanishes before the token, then it does in no other
      caller, and it begins with the token in none. */
  lemma TwoCallers(g: Grammar, w: Form, c: Item, d: Item, r: nat, t: nat)
    requires g.Valid() && Lalr1(g) && Calls(g, c, r) && Valid(g, w, c)
    requires Calls(g, d, r) && Look(g, w, d, t) && Derives(g, d.Rest(g), [])
    ensures !CanStart(g, c.Rest(g), t) && (Derives(g, c.Rest(g), []) && Look(g, w, c, t) ==> c == d)
  {
    hide Look, LookIn, Lalr1, Valid, Derives;
    var x := g.rules[r].lhs;
    var e := VanishingForest(g, d.Rest(g));
    LookShifts(g, w, d, t);
    LooksValid(g, w, d, t);
    assert Vanishes(g, w + [x], d.Advance(), e, t);
    if CanStart(g, c.Rest(g), t) {
      var rest :| Derives(g, c.Rest(g), [t] + rest);
      var n := StartBegins(g, c.Rest(g), t, rest);
      ValidShifts(g, w, c);
      BeginsNotVanishes(g, w + [x], c.Advance(), n, d.Advance(), e, t);
    }
    if Derives(g, c.Rest(g), []) && Look(g, w, c, t) {
      var f := VanishingForest(g, c.Rest(g));
      LookShifts(g, w, c, t);
      VanishesOnce(g, w + [x], c.Advance(), f, d.Advance(), e, t);
    }
  }

  lemma StartBegins(g: Grammar, form: Form, t: nat, rest: Form) returns (n: nat)
    requires Derives(g, form, [t] + rest)
    ensures BeginsIn(g, form, t, n)
  {
    var m: nat :| DerivesIn(g, form, [t] + rest, m);
    DerivedBegins(g, form, t, rest, m);
    n :| BeginsIn(g, form, t, n);
  }

  lemma CircleNotLooked(g: Grammar, rs: seq<nat>, w: Form, i: nat, t: nat)
    requires g.Valid() && Lalr1(g) && StartNotFirst(g) && Circle(g, rs) && i < |rs|
    ensures !Look(g, w, Item(rs[i], 0), t)
  {
    forall n: nat ensures !LookIn(g, w, Item(rs[i], 0), t, n) {
      CircleCalled(g, rs, w, i, t, n);
    }
  }
}
