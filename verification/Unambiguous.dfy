/** What it means for a grammar that its parser has no conflicts: every sentence has one tree. */
module Unambiguous {
  import opened Grammars
  import opened Closures
  import opened Driver
  import opened Forests
  import opened ParserCompleteness

  /** The same parser with another stack. */
  function WithDepth(p: Generated, depth: nat): Generated {
    p.(k := p.k.(depth := depth))
  }

  lemma WithDepthComplete(p: Generated, depth: nat)
    requires p.Complete() && depth > 0
    ensures WithDepth(p, depth).Complete()
  {
    hide Built, FirstsOk, FollowsOk, MayFollow;
    var q := WithDepth(p, depth);
    forall s: nat, x: nat | s < |p.states| && p.g.Terminal(x) ensures TokenActionOk(p.g, p.states, q.k, s, x) {
      assert TokenActionOk(p.g, p.states, p.k, s, x);
    }
  }

  /** A run that is over reduces no more. */
  lemma SameReductions(k: Constants, c: Conf, m: nat, n: nat)
    requires k.Ok() && (c.Running? ==> StackOk(k, c.stack)) && !Run(k, c, m).Running? && !Run(k, c, n).Running?
    ensures Reductions(k, c, m) == Reductions(k, c, n)
  {
    ReductionsAdd(k, c, m, n);
    ReductionsAdd(k, c, n, m);
    assert m + n == n + m;
    OverReduces(k, Run(k, c, m), n);
    OverReduces(k, Run(k, c, n), m);
    hide Reductions, Run;
    var a, b := Reductions(k, c, m), Reductions(k, c, n);
    assert a + [] == a && b + [] == b;
  }

  lemma OverReduces(k: Constants, c: Conf, n: nat)
    requires k.Ok() && (c.Running? ==> StackOk(k, c.stack))
    ensures !c.Running? ==> Reductions(k, c, n) == []
  {
  }

  lemma SameEnds(a: seq<nat>, r: nat, b: seq<nat>, q: nat)
    requires a + [r] == b + [q]
    ensures a == b && r == q && [] + a == [] + b
  {
    assert (a + [r])[|a|] == r && |a + [r]| == |a| + 1 && |b + [q]| == |b| + 1 && (b + [q])[|b|] == q;
    assert a == (a + [r])[..|a|] == (b + [q])[..|b|] == b;
  }

  /** In a grammar without conflicts a sentence has one tree, because the parser reduces by its rules one
      after the other. */
  lemma OneTree(p: Generated, w: Form, r: nat, kids: Forest, q: nat, others: Forest)
    requires p.Complete() && SentenceTree(p.g, r, kids, w) && SentenceTree(p.g, q, others, w)
    ensures r == q && kids == others
  {
    TreeFacts(p.g, w, r, kids);
    TreeFacts(p.g, w, q, others);
    CompleteIsSound(p);
    assert p.g.Valid();
    var depth := 1 + Need(kids) + Need(others);
    var deep := WithDepth(p, depth);
    WithDepthComplete(p, depth);
    assert deep.g == p.g && deep.k.depth == depth;
    hide *;
    var m := SentenceAccepted(deep, w, r, kids);
    var n := SentenceAccepted(deep, w, q, others);
    SameReductions(deep.k, Start(w + [0]), m, n);
    SameEnds(Post(kids), r, Post(others), q);
    PostDetermines(p.g, [], kids, [], others);
  }

  lemma TreeFacts(g: Grammar, w: Form, r: nat, kids: Forest)
    requires SentenceTree(g, r, kids, w)
    ensures r < |g.rules| && ForestOk(g, kids) && Roots(g, kids) == g.rules[r].rhs
  {
  }

  /** No sentence has two trees. */
  ghost predicate OneTreeEach(g: Grammar) {
    forall w, r: nat, kids, q: nat, others | SentenceTree(g, r, kids, w) && SentenceTree(g, q, others, w) ::
      r == q && kids == others
  }

  lemma CompleteIsUnambiguous(p: Generated)
    requires p.Complete()
    ensures OneTreeEach(p.g)
  {
    hide Generated.Complete, SentenceTree;
    forall w, r: nat, kids, q: nat, others | SentenceTree(p.g, r, kids, w) && SentenceTree(p.g, q, others, w)
      ensures r == q && kids == others
    {
      OneTree(p, w, r, kids, q, others);
    }
  }
}
