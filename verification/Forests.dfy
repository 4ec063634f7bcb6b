/** Derivation forests: a form, what it finally yields, and how. */
module Forests {
  import opened Grammars

  /** A row of parse trees: tokens, and rules with the forests below them. */
  datatype Forest = Empty | Leaf(x: nat, rest: Forest) | Node(rule: nat, kids: Forest, rest: Forest)

  function Roots(g: Grammar, f: Forest): Form {
    match f
    case Empty => []
    case Leaf(x, rest) => [x] + Roots(g, rest)
    case Node(r, _, rest) => [if r < |g.rules| then g.rules[r].lhs else 0] + Roots(g, rest)
  }

  function Yield(f: Forest): Form {
    match f
    case Empty => []
    case Leaf(x, rest) => [x] + Yield(rest)
    case Node(_, kids, rest) => Yield(kids) + Yield(rest)
  }

  /** The rules of the forest, those below a rule before it: the order in which the driver reduces. */
  function Post(f: Forest): seq<nat> {
    match f
    case Empty => []
    case Leaf(_, rest) => Post(rest)
    case Node(r, kids, rest) => Post(kids) + [r] + Post(rest)
  }

  /** How many entries the driver's stack gains at most while it reads the forest: what is below a rule
      is there before the rule's left-hand side, a token or a left-hand side stays. */
  function Need(f: Forest): nat {
    match f
    case Empty => 0
    case Leaf(_, rest) => 1 + Need(rest)
    case Node(_, kids, rest) => if Need(kids) > 1 + Need(rest) then Need(kids) else 1 + Need(rest)
  }

  ghost predicate ForestOk(g: Grammar, f: Forest) {
    match f
    case Empty => true
    case Leaf(x, rest) => g.Terminal(x) && ForestOk(g, rest)
    case Node(r, kids, rest) =>
      r < |g.rules| && Roots(g, kids) == g.rules[r].rhs && ForestOk(g, kids) && ForestOk(g, rest)
  }

  ghost predicate AllTerminal(g: Grammar, w: Form) {
    forall i :: 0 <= i < |w| ==> g.Terminal(w[i])
  }

  lemma {:induction false} ForestDerives(g: Grammar, f: Forest)
    requires ForestOk(g, f)
    ensures Derives(g, Roots(g, f), Yield(f)) && AllTerminal(g, Yield(f))
  {
    match f
    case Empty => DerivesRefl(g, []);
    case Leaf(x, rest) =>
      ForestDerives(g, rest);
      DerivesPrefix(g, [x], Roots(g, rest), Yield(rest));
    case Node(r, kids, rest) =>
      ForestDerives(g, kids);
      ForestDerives(g, rest);
      RuleDerives(g, r);
      DerivesTrans(g, [g.rules[r].lhs], Roots(g, kids), Yield(kids));
      DerivesConcat(g, [g.rules[r].lhs], Yield(kids), Roots(g, rest), Yield(rest));
  }

  lemma {:induction false} Leaves(g: Grammar, w: Form) returns (f: Forest)
    requires AllTerminal(g, w)
    ensures ForestOk(g, f) && Roots(g, f) == w && Yield(f) == w && Post(f) == []
  {
    if w == [] {
      f := Empty;
    } else {
      f := Leaves(g, w[1..]);
      f := Leaf(w[0], f);
      assert [w[0]] + w[1..] == w;
    }
  }

  /** A forest over `a + b` falls into one over `a` and one over `b`. */
  lemma {:induction false} SplitForest(g: Grammar, f: Forest, a: Form, b: Form) returns (left: Forest, right: Forest)
    requires ForestOk(g, f) && Roots(g, f) == a + b
    ensures ForestOk(g, left) && Roots(g, left) == a && ForestOk(g, right) && Roots(g, right) == b
    ensures Yield(left) + Yield(right) == Yield(f) && |Post(left)| + |Post(right)| == |Post(f)|
    decreases |a|
  {
    if a == [] {
      left, right := Empty, f;
      assert a + b == b;
    } else {
      assert (a + b)[1..] == a[1..] + b && (a + b)[0] == a[0];
      match f
      case Leaf(x, rest) =>
        assert Roots(g, f)[1..] == Roots(g, rest);
        left, right := SplitForest(g, rest, a[1..], b);
        assert [x] + a[1..] == a;
        assert [x] + Yield(left) + Yield(right) == [x] + (Yield(left) + Yield(right));
        left := Leaf(x, left);
      case Node(r, kids, rest) =>
        assert Roots(g, f)[1..] == Roots(g, rest);
        left, right := SplitForest(g, rest, a[1..], b);
        assert [g.rules[r].lhs] + a[1..] == a;
        assert Yield(kids) + Yield(left) + Yield(right) == Yield(kids) + (Yield(left) + Yield(right));
        left := Node(r, kids, left);
    }
  }

  lemma {:induction false} JoinForests(g: Grammar, left: Forest, right: Forest) returns (f: Forest)
    requires ForestOk(g, left) && ForestOk(g, right)
    ensures ForestOk(g, f) && Roots(g, f) == Roots(g, left) + Roots(g, right) && Yield(f) == Yield(left) + Yield(right)
    ensures |Post(f)| == |Post(left)| + |Post(right)|
  {
    match left
    case Empty => f := right;
    case Leaf(x, rest) =>
      f := JoinForests(g, rest, right);
      f := Leaf(x, f);
    case Node(r, kids, rest) =>
      f := JoinForests(g, rest, right);
      assert Yield(kids) + (Yield(rest) + Yield(right)) == Yield(kids) + Yield(rest) + Yield(right);
      f := Node(r, kids, f);
  }

  /** Undoing one derivation step: the right-hand side goes below a new node. */
  lemma Unsplice(g: Grammar, whole: Forest, p: Form, r: nat, q: Form) returns (f: Forest)
    requires r < |g.rules| && ForestOk(g, whole) && Roots(g, whole) == p + g.rules[r].rhs + q
    ensures ForestOk(g, f) && Roots(g, f) == p + [g.rules[r].lhs] + q && Yield(f) == Yield(whole)
    ensures |Post(f)| == |Post(whole)| + 1
  {
    assert p + g.rules[r].rhs + q == p + (g.rules[r].rhs + q);
    var left, others := SplitForest(g, whole, p, g.rules[r].rhs + q);
    var kids, right := SplitForest(g, others, g.rules[r].rhs, q);
    f := JoinForests(g, left, Node(r, kids, right));
    assert p + ([g.rules[r].lhs] + q) == p + [g.rules[r].lhs] + q;
  }

  /** Every derivation of a string of tokens has a forest, with a rule for every step. */
  lemma {:induction false} DerivationForest(g: Grammar, a: Form, w: Form, n: nat) returns (f: Forest)
    requires DerivesIn(g, a, w, n) && AllTerminal(g, w)
    ensures ForestOk(g, f) && Roots(g, f) == a && Yield(f) == w && |Post(f)| == n
    decreases n
  {
    if n == 0 {
      f := Leaves(g, w);
    } else {
      var c :| Step(g, a, c) && DerivesIn(g, c, w, n - 1);
      var i: nat, r: nat :| StepAt(g, a, c, i, r);
      f := DerivationForest(g, c, w, n - 1);
      f := Unsplice(g, f, a[..i], r, a[i + 1..]);
      assert a[..i] + [a[i]] + a[i + 1..] == a;
    }
  }

  /** `kids` is a forest for `w` below rule `r` of the start symbol. */
  ghost predicate SentenceTree(g: Grammar, r: nat, kids: Forest, w: Form) {
    r < |g.rules| && g.rules[r].lhs == g.start && ForestOk(g, kids) && Roots(g, kids) == g.rules[r].rhs
      && Yield(kids) == w
  }

  ghost predicate TreeFits(g: Grammar, r: nat, kids: Forest, w: Form, depth: nat) {
    SentenceTree(g, r, kids, w) && 1 + Need(kids) <= depth
  }

  /** `w` is a sentence with a parse tree for which a stack of this depth is enough. */
  ghost predicate FitsIn(g: Grammar, w: Form, depth: nat) {
    exists r: nat, kids :: TreeFits(g, r, kids, w, depth)
  }

  lemma TreeDerives(g: Grammar, r: nat, kids: Forest, w: Form)
    requires SentenceTree(g, r, kids, w)
    ensures Derives(g, [g.start], w)
  {
    ForestDerives(g, kids);
    RuleDerives(g, r);
    DerivesTrans(g, [g.start], g.rules[r].rhs, w);
  }

  /** A sentence has a rule of the start symbol at its root. */
  lemma SentenceForest(g: Grammar, w: Form) returns (r: nat, kids: Forest)
    requires g.Valid() && AllTerminal(g, w) && Derives(g, [g.start], w)
    ensures SentenceTree(g, r, kids, w)
  {
    var m: nat :| DerivesIn(g, [g.start], w, m);
    r, kids := DerivationTree(g, w, m);
  }

  /** Every derivation of a sentence has a tree, with a rule for every step. */
  lemma DerivationTree(g: Grammar, w: Form, n: nat) returns (r: nat, kids: Forest)
    requires g.Valid() && AllTerminal(g, w) && DerivesIn(g, [g.start], w, n)
    ensures SentenceTree(g, r, kids, w) && |Post(kids)| + 1 == n
  {
    var f := DerivationForest(g, [g.start], w, n);
    assert Roots(g, f)[0] == g.start && Roots(g, f)[1..] == [];
    assert f.Node? && Roots(g, f.rest) == Roots(g, f)[1..];
    assert f.rest == Empty && Yield(f) == Yield(f.kids) + [];
    r, kids := f.rule, f.kids;
  }

  /** Roots and rules, in this order, determine a forest. */
  lemma {:induction false} PostDetermines(g: Grammar, a: seq<nat>, f: Forest, b: seq<nat>, h: Forest)
    requires ForestOk(g, f) && ForestOk(g, h) && Roots(g, f) == Roots(g, h) && a + Post(f) == b + Post(h) && g.Valid()
    ensures a == b && f == h
    decreases f
  {
    match f
    case Empty =>
      assert h == Empty && a + [] == a && b + [] == b;
    case Leaf(x, rest) =>
      assert Roots(g, f)[0] == x && Roots(g, f)[1..] == Roots(g, rest);
      assert h.Leaf? && Roots(g, h)[0] == h.x && Roots(g, h)[1..] == Roots(g, h.rest);
      PostDetermines(g, a, rest, b, h.rest);
    case Node(r, kids, rest) =>
      assert Roots(g, f)[0] == g.rules[r].lhs && Roots(g, f)[1..] == Roots(g, rest);
      assert h.Node? && Roots(g, h)[1..] == Roots(g, h.rest);
      var a', b' := a + Post(kids), b + Post(h.kids);
      assert a + Post(f) == (a' + [r]) + Post(rest) && b + Post(h) == (b' + [h.rule]) + Post(h.rest);
      PostDetermines(g, a' + [r], rest, b' + [h.rule], h.rest);
      assert (a' + [r])[|a'|] == r && |a'| == |b'| && (b' + [h.rule])[|b'|] == h.rule;
      assert a' == (a' + [r])[..|a'|] == (b' + [h.rule])[..|b'|] == b';
      PostDetermines(g, a, kids, b, h.kids);
  }
}
