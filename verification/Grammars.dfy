/** The grammar a lemon input file describes, and what it means for one sentential form
    to derive another.  Symbols are their indexes: terminals come first, symbol 0 is the
    end-of-input marker `$`, and nonterminals occupy [nterminal, nsymbol). */
module Grammars {
  type Form = seq<nat>

  datatype Rule = Rule(lhs: nat, rhs: Form)

  datatype Grammar = Grammar(nterminal: nat, nsymbol: nat, rules: seq<Rule>, start: nat) {
    predicate Terminal(x: nat) {
      x < nterminal
    }

    predicate Nonterminal(x: nat) {
      nterminal <= x < nsymbol
    }

    /** What lemon's grammar scanner guarantees: left-hand sides are nonterminals and no
        rule mentions `$`. */
    predicate Valid() {
      && 0 < nterminal
      && Nonterminal(start)
      && (forall r :: 0 <= r < |rules| ==> Nonterminal(rules[r].lhs))
      && (forall r :: 0 <= r < |rules| ==> forall i :: 0 <= i < |rules[r].rhs| ==> 0 < rules[r].rhs[i] < nsymbol)
    }
  }

  // ----- one-step and many-step derivation

  ghost predicate StepAt(g: Grammar, a: Form, b: Form, i: nat, r: nat) {
    && i < |a| && r < |g.rules|
    && a[i] == g.rules[r].lhs
    && b == a[..i] + g.rules[r].rhs + a[i + 1..]
  }

  ghost predicate Step(g: Grammar, a: Form, b: Form) {
    exists i: nat, r: nat :: StepAt(g, a, b, i, r)
  }

  ghost predicate DerivesIn(g: Grammar, a: Form, b: Form, n: nat)
    decreases n
  {
    if n == 0 then a == b else exists c :: Step(g, a, c) && DerivesIn(g, c, b, n - 1)
  }

  /** Form `a` derives form `b` in any number of steps. */
  ghost predicate Derives(g: Grammar, a: Form, b: Form) {
    exists n: nat :: DerivesIn(g, a, b, n)
  }

  lemma DerivesRefl(g: Grammar, a: Form)
    ensures Derives(g, a, a)
  {
    assert DerivesIn(g, a, a, 0);
  }

  lemma {:induction false} DerivesInTrans(g: Grammar, a: Form, b: Form, c: Form, m: nat, n: nat)
    requires DerivesIn(g, a, b, m) && DerivesIn(g, b, c, n)
    ensures DerivesIn(g, a, c, m + n)
    decreases m
  {
    if m > 0 {
      var d :| Step(g, a, d) && DerivesIn(g, d, b, m - 1);
      DerivesInTrans(g, d, b, c, m - 1, n);
    }
  }

  lemma DerivesTrans(g: Grammar, a: Form, b: Form, c: Form)
    requires Derives(g, a, b) && Derives(g, b, c)
    ensures Derives(g, a, c)
  {
    var m: nat :| DerivesIn(g, a, b, m);
    var n: nat :| DerivesIn(g, b, c, n);
    DerivesInTrans(g, a, b, c, m, n);
  }

  lemma StepInContext(g: Grammar, p: Form, a: Form, b: Form, s: Form)
    requires Step(g, a, b)
    ensures Step(g, p + a + s, p + b + s)
  {
    var i: nat, r: nat :| StepAt(g, a, b, i, r);
    var rhs := g.rules[r].rhs;
    assert (p + a + s)[..|p| + i] == p + a[..i];
    assert (p + a + s)[|p| + i + 1..] == a[i + 1..] + s;
    assert p + b + s == (p + a[..i]) + rhs + (a[i + 1..] + s);
    assert StepAt(g, p + a + s, p + b + s, |p| + i, r);
  }

  lemma {:induction false} DerivesInContext(g: Grammar, p: Form, a: Form, b: Form, s: Form, n: nat)
    requires DerivesIn(g, a, b, n)
    ensures DerivesIn(g, p + a + s, p + b + s, n)
    decreases n
  {
    if n > 0 {
      var c :| Step(g, a, c) && DerivesIn(g, c, b, n - 1);
      StepInContext(g, p, a, c, s);
      DerivesInContext(g, p, c, b, s, n - 1);
    }
  }

  lemma DerivesContext(g: Grammar, p: Form, a: Form, b: Form, s: Form)
    requires Derives(g, a, b)
    ensures Derives(g, p + a + s, p + b + s)
  {
    var n: nat :| DerivesIn(g, a, b, n);
    DerivesInContext(g, p, a, b, s, n);
  }

  lemma DerivesSuffix(g: Grammar, a: Form, b: Form, s: Form)
    requires Derives(g, a, b)
    ensures Derives(g, a + s, b + s)
  {
    DerivesContext(g, [], a, b, s);
    assert [] + a + s == a + s && [] + b + s == b + s;
  }

  lemma DerivesPrefix(g: Grammar, p: Form, a: Form, b: Form)
    requires Derives(g, a, b)
    ensures Derives(g, p + a, p + b)
  {
    DerivesContext(g, p, a, b, []);
    assert p + a + [] == p + a && p + b + [] == p + b;
  }

  /** Two derivations run side by side. */
  lemma DerivesConcat(g: Grammar, a: Form, a': Form, b: Form, b': Form)
    requires Derives(g, a, a') && Derives(g, b, b')
    ensures Derives(g, a + b, a' + b')
  {
    DerivesSuffix(g, a, a', b);
    DerivesPrefix(g, a', b, b');
    DerivesTrans(g, a + b, a' + b, a' + b');
  }

  lemma RuleDerives(g: Grammar, r: nat)
    requires r < |g.rules|
    ensures Derives(g, [g.rules[r].lhs], g.rules[r].rhs)
  {
    var a, b := [g.rules[r].lhs], g.rules[r].rhs;
    assert b == a[..0] + b + a[1..];
    assert StepAt(g, a, b, 0, r);
    assert Step(g, a, b) && DerivesIn(g, b, b, 0);
    assert DerivesIn(g, a, b, 1);
  }

  /** Replacing one occurrence of a rule's left-hand side by its right-hand side. */
  lemma RuleDerivesInContext(g: Grammar, p: Form, r: nat, s: Form)
    requires r < |g.rules|
    ensures Derives(g, p + [g.rules[r].lhs] + s, p + g.rules[r].rhs + s)
  {
    RuleDerives(g, r);
    DerivesContext(g, p, [g.rules[r].lhs], g.rules[r].rhs, s);
  }
}
