/** What a state, a lookahead and a conflict are, in terms of the grammar alone: the valid items of a
    prefix, the tokens that may follow them, and prefixes with the same items taken as one. */
module Lalr {
  import opened Grammars
  import opened Closures

  /** The item calls for an occurrence of rule `r`. */
  ghost predicate Calls(g: Grammar, c: Item, r: nat) {
    c.Ok(g) && r < |g.rules| && c.Expands(g, r)
  }

  /** The item is valid for the prefix `w`: it starts the start symbol, is called for by a valid item,
      or is a valid item of a shorter prefix moved over the last symbol. */
  ghost predicate ValidIn(g: Grammar, w: Form, it: Item, n: nat)
    decreases n
  {
    && n > 0 && it.Ok(g)
    && if it.dot == 0 then
         || (w == [] && g.rules[it.rule].lhs == g.start)
         || exists c: Item :: Calls(g, c, it.rule) && ValidIn(g, w, c, n - 1)
       else
         && w != [] && w[|w| - 1] == g.rules[it.rule].rhs[it.dot - 1]
         && ValidIn(g, w[..|w| - 1], Item(it.rule, it.dot - 1), n - 1)
  }

  ghost predicate Valid(g: Grammar, w: Form, it: Item) {
    exists n: nat :: ValidIn(g, w, it, n)
  }

  /** `form` derives something that begins with the token `t`. */
  ghost predicate CanStart(g: Grammar, form: Form, t: nat) {
    g.Terminal(t) && exists rest :: Derives(g, form, [t] + rest)
  }

  /** `t` may follow the item after the prefix `w`: the lookaheads of LR(1).  What comes after a rule
      that is called for begins the rest of the caller, or follows the caller if that rest vanishes. */
  ghost predicate LookIn(g: Grammar, w: Form, it: Item, t: nat, n: nat)
    decreases n
  {
    && n > 0 && it.Ok(g)
    && if it.dot == 0 then
         || (w == [] && g.rules[it.rule].lhs == g.start && t == 0)
         || exists c: Item :: Calls(g, c, it.rule) && Valid(g, w, c)
              && (CanStart(g, c.Rest(g), t) || (Derives(g, c.Rest(g), []) && LookIn(g, w, c, t, n - 1)))
       else
         && w != [] && w[|w| - 1] == g.rules[it.rule].rhs[it.dot - 1]
         && LookIn(g, w[..|w| - 1], Item(it.rule, it.dot - 1), t, n - 1)
  }

  ghost predicate Look(g: Grammar, w: Form, it: Item, t: nat) {
    exists n: nat :: LookIn(g, w, it, t, n)
  }

  /** The prefixes have the same valid items; in an LALR parser they lead to one state. */
  ghost predicate SameItems(g: Grammar, w: Form, u: Form) {
    forall it: Item :: Valid(g, w, it) <==> Valid(g, u, it)
  }

  ghost predicate NextAfter(g: Grammar, w: Form, it: Item, x: nat) {
    Valid(g, w, it) && it.Ok(g) && !it.AtEnd(g) && it.Next(g) == x
  }

  /** After `w` the symbol `x` can be shifted. */
  ghost predicate ShiftsOn(g: Grammar, w: Form, x: nat) {
    exists it: Item :: NextAfter(g, w, it, x)
  }

  ghost predicate ReducesAfter(g: Grammar, w: Form, u: Form, r: nat, t: nat) {
    r < |g.rules| && SameItems(g, w, u) && Look(g, u, Item(r, |g.rules[r].rhs|), t)
  }

  /** After `w`, or another prefix with the same items, rule `r` can be reduced before the token `t`. */
  ghost predicate ReducesOn(g: Grammar, w: Form, r: nat, t: nat) {
    exists u :: ReducesAfter(g, w, u, r, t)
  }

  /** The grammar is LALR(1): no prefix has two things to do on one token. */
  ghost predicate Lalr1(g: Grammar) {
    && (forall w, r: nat, t: nat :: ReducesOn(g, w, r, t) ==> !ShiftsOn(g, w, t))
    && (forall w, r: nat, q: nat, t: nat :: ReducesOn(g, w, r, t) && ReducesOn(g, w, q, t) ==> r == q)
  }

  /** The start symbol is not the first thing one of its own rules calls for. */
  ghost predicate StartNotFirst(g: Grammar) {
    !ShiftsOn(g, [], g.start)
  }

  // ----- steps

  lemma ValidStart(g: Grammar, r: nat)
    requires r < |g.rules| && g.rules[r].lhs == g.start
    ensures Valid(g, [], Item(r, 0))
  {
    assert ValidIn(g, [], Item(r, 0), 1);
  }

  lemma ValidExpands(g: Grammar, w: Form, c: Item, r: nat)
    requires Valid(g, w, c) && Calls(g, c, r)
    ensures Valid(g, w, Item(r, 0))
  {
    var n: nat :| ValidIn(g, w, c, n);
    assert ValidIn(g, w, Item(r, 0), n + 1);
  }

  lemma ValidShifts(g: Grammar, w: Form, it: Item)
    requires Valid(g, w, it) && it.Ok(g) && !it.AtEnd(g)
    ensures Valid(g, w + [it.Next(g)], it.Advance())
  {
    var n: nat :| ValidIn(g, w, it, n);
    var u := w + [it.Next(g)];
    assert u[..|u| - 1] == w;
    assert ValidIn(g, u, it.Advance(), n + 1);
  }

  lemma LookStart(g: Grammar, r: nat)
    requires r < |g.rules| && g.rules[r].lhs == g.start
    ensures Look(g, [], Item(r, 0), 0)
  {
    assert LookIn(g, [], Item(r, 0), 0, 1);
  }

  lemma LookBegins(g: Grammar, w: Form, c: Item, r: nat, t: nat)
    requires Valid(g, w, c) && Calls(g, c, r) && CanStart(g, c.Rest(g), t)
    ensures Look(g, w, Item(r, 0), t)
  {
    assert LookIn(g, w, Item(r, 0), t, 1);
  }

  lemma LookPasses(g: Grammar, w: Form, c: Item, r: nat, t: nat)
    requires Valid(g, w, c) && Calls(g, c, r) && Derives(g, c.Rest(g), []) && Look(g, w, c, t)
    ensures Look(g, w, Item(r, 0), t)
  {
    var n: nat :| LookIn(g, w, c, t, n);
    assert LookIn(g, w, Item(r, 0), t, n + 1);
  }

  lemma LookShifts(g: Grammar, w: Form, it: Item, t: nat)
    requires Look(g, w, it, t) && it.Ok(g) && !it.AtEnd(g)
    ensures Look(g, w + [it.Next(g)], it.Advance(), t)
  {
    var n: nat :| LookIn(g, w, it, t, n);
    var u := w + [it.Next(g)];
    assert u[..|u| - 1] == w;
    assert LookIn(g, u, it.Advance(), t, n + 1);
  }

  /** Only valid items have lookaheads, and lookaheads are tokens. */
  lemma {:induction false} LookValid(g: Grammar, w: Form, it: Item, t: nat, n: nat)
    requires g.Valid() && LookIn(g, w, it, t, n)
    ensures Valid(g, w, it) && g.Terminal(t)
    decreases n
  {
    if it.dot > 0 {
      var was := Item(it.rule, it.dot - 1);
      LookValid(g, w[..|w| - 1], was, t, n - 1);
      ValidShifts(g, w[..|w| - 1], was);
      assert w[..|w| - 1] + [was.Next(g)] == w && was.Advance() == it;
    } else if w == [] && g.rules[it.rule].lhs == g.start && t == 0 {
      ValidStart(g, it.rule);
    } else {
      var c: Item :| Calls(g, c, it.rule) && Valid(g, w, c)
        && (CanStart(g, c.Rest(g), t) || (Derives(g, c.Rest(g), []) && LookIn(g, w, c, t, n - 1)));
      ValidExpands(g, w, c, it.rule);
      if !CanStart(g, c.Rest(g), t) {
        LookValid(g, w, c, t, n - 1);
      }
    }
  }
}
