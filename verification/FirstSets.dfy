/** lemon's FindFirstSets: which nonterminals derive the empty string, and which terminals
    can begin what a nonterminal derives. */
module FirstSets {
  import opened Grammars
  import opened SymbolSets

  // ----- nullable symbols

  /** The first `n` symbols of `form` are all flagged. */
  ghost predicate LambdaUpTo(lambda: seq<bool>, form: Form, n: nat) {
    n <= |form| && forall i :: 0 <= i < n ==> form[i] < |lambda| && lambda[form[i]]
  }

  ghost predicate AllLambda(lambda: seq<bool>, form: Form) {
    LambdaUpTo(lambda, form, |form|)
  }

  ghost predicate LambdaSound(g: Grammar, lambda: seq<bool>) {
    forall x: nat :: x < |lambda| && lambda[x] ==> Derives(g, [x], [])
  }

  ghost predicate LambdaClosed(g: Grammar, lambda: seq<bool>) {
    forall r :: 0 <= r < |g.rules| && AllLambda(lambda, g.rules[r].rhs) ==>
      g.rules[r].lhs < |lambda| && lambda[g.rules[r].lhs]
  }

  lemma {:induction false} LambdaPrefixDerivesEmpty(g: Grammar, lambda: seq<bool>, form: Form, n: nat)
    requires LambdaSound(g, lambda) && LambdaUpTo(lambda, form, n)
    ensures Derives(g, form[..n], [])
  {
    if n == 0 {
      DerivesRefl(g, []);
    } else {
      LambdaPrefixDerivesEmpty(g, lambda, form, n - 1);
      DerivesConcat(g, form[..n - 1], [], [form[n - 1]], []);
      assert form[..n - 1] + [form[n - 1]] == form[..n];
      var empty: Form := [];
      assert empty + empty == empty;
    }
  }

  /** Where the symbols of `a` go when the one at position `i` is rewritten to `rhs`. */
  ghost predicate Rewritten(a: Form, b: Form, i: nat, rhs: Form) {
    && i < |a| && |b| == |a| + |rhs| - 1
    && (forall k :: 0 <= k < i ==> a[k] == b[k])
    && (forall k :: 0 <= k < |rhs| ==> rhs[k] == b[i + k])
    && (forall k :: i < k < |a| ==> a[k] == b[k + |rhs| - 1])
  }

  lemma StepRewrites(g: Grammar, a: Form, b: Form) returns (i: nat, r: nat)
    requires Step(g, a, b)
    ensures r < |g.rules| && i < |a| && a[i] == g.rules[r].lhs && Rewritten(a, b, i, g.rules[r].rhs)
  {
    i, r :| StepAt(g, a, b, i, r);
  }

  /** A flag vector closed under the rules flags every symbol of every form that derives
      the empty string. */
  lemma {:induction false} EmptyFormIsLambda(g: Grammar, lambda: seq<bool>, form: Form, n: nat)
    requires LambdaClosed(g, lambda) && DerivesIn(g, form, [], n)
    ensures AllLambda(lambda, form)
    decreases n
  {
    if n > 0 {
      var c :| Step(g, form, c) && DerivesIn(g, c, [], n - 1);
      EmptyFormIsLambda(g, lambda, c, n - 1);
      var i, r := StepRewrites(g, form, c);
      LambdaUndoStep(g, lambda, form, c, i, r, |form|);
    }
  }

  /** If everything up to the image of position `k` is flagged, so is everything up to `k`. */
  lemma LambdaUndoStep(g: Grammar, lambda: seq<bool>, a: Form, b: Form, i: nat, r: nat, k: nat)
    requires LambdaClosed(g, lambda) && r < |g.rules|
    requires Rewritten(a, b, i, g.rules[r].rhs) && a[i] == g.rules[r].lhs
    requires i < k <= |a| && LambdaUpTo(lambda, b, k + |g.rules[r].rhs| - 1)
    ensures LambdaUpTo(lambda, a, k)
  {
    var rhs := g.rules[r].rhs;
    assert AllLambda(lambda, rhs);
  }

  // ----- first sets

  function Begins(g: Grammar, first: seq<set<nat>>, x: nat): set<nat>
    requires g.nsymbol <= |first|
  {
    if g.Terminal(x) then {x} else if x < g.nsymbol then first[x] else {}
  }

  /** Position `i` of `form` can supply the first terminal. */
  ghost predicate BeginsAt(g: Grammar, lambda: seq<bool>, first: seq<set<nat>>, form: Form, i: nat, t: nat)
    requires g.nsymbol <= |first|
  {
    i < |form| && LambdaUpTo(lambda, form, i) && t in Begins(g, first, form[i])
  }

  ghost predicate FormBegins(g: Grammar, lambda: seq<bool>, first: seq<set<nat>>, form: Form, t: nat)
    requires g.nsymbol <= |first|
  {
    exists i: nat :: BeginsAt(g, lambda, first, form, i, t)
  }

  /** `x` derives a form that begins with the terminal `t`. */
  ghost predicate CanBegin(g: Grammar, x: nat, t: nat) {
    g.Terminal(t) && exists rest :: Derives(g, [x], [t] + rest)
  }

  ghost predicate FirstSound(g: Grammar, first: seq<set<nat>>) {
    forall x: nat, t: nat :: x < |first| && t in first[x] ==> CanBegin(g, x, t)
  }

  /** The first `n` positions of rule `r` contribute nothing new. */
  ghost predicate RuleClosed(g: Grammar, lambda: seq<bool>, first: seq<set<nat>>, r: nat, n: nat)
    requires g.Valid() && g.nsymbol <= |first| && r < |g.rules|
  {
    forall i: nat :: i < n && LambdaUpTo(lambda, g.rules[r].rhs, i) && i < |g.rules[r].rhs| ==>
      Begins(g, first, g.rules[r].rhs[i]) <= first[g.rules[r].lhs]
  }

  ghost predicate FirstClosed(g: Grammar, lambda: seq<bool>, first: seq<set<nat>>)
    requires g.Valid() && g.nsymbol <= |first|
  {
    forall r: nat :: r < |g.rules| ==> RuleClosed(g, lambda, first, r, |g.rules[r].rhs|)
  }

  /** What a form begins with does not depend on undoing one derivation step. */
  lemma FirstUndoStep(g: Grammar, lambda: seq<bool>, first: seq<set<nat>>,
                      a: Form, b: Form, i: nat, r: nat, j: nat, t: nat)
    requires g.Valid() && g.nsymbol <= |first| && LambdaClosed(g, lambda) && r < |g.rules|
    requires RuleClosed(g, lambda, first, r, |g.rules[r].rhs|)
    requires Rewritten(a, b, i, g.rules[r].rhs) && a[i] == g.rules[r].lhs
    requires BeginsAt(g, lambda, first, b, j, t)
    ensures FormBegins(g, lambda, first, a, t)
  {
    var rhs := g.rules[r].rhs;
    if j < i {
      assert BeginsAt(g, lambda, first, a, j, t);
    } else if j < i + |rhs| {
      var k := j - i;
      assert LambdaUpTo(lambda, rhs, k) && t in Begins(g, first, rhs[k]);
      assert BeginsAt(g, lambda, first, a, i, t);
    } else {
      LambdaUndoStep(g, lambda, a, b, i, r, j - |rhs| + 1);
      assert BeginsAt(g, lambda, first, a, j - |rhs| + 1, t);
    }
  }

  lemma BeginsTerminal(g: Grammar, lambda: seq<bool>, first: seq<set<nat>>, form: Form, t: nat)
    requires g.nsymbol <= |first| && FirstSound(g, first) && FormBegins(g, lambda, first, form, t)
    ensures g.Terminal(t)
  {
    var i: nat :| BeginsAt(g, lambda, first, form, i, t);
    assert g.Terminal(form[i]) || CanBegin(g, form[i], t);
  }

  /** Closed flags and sets miss no terminal that can begin a derived form. */
  lemma {:induction false} FirstComplete(g: Grammar, lambda: seq<bool>, first: seq<set<nat>>,
                                         a: Form, t: nat, rest: Form, n: nat)
    requires g.Valid() && g.nsymbol <= |first| && LambdaClosed(g, lambda) && FirstClosed(g, lambda, first)
    requires g.Terminal(t) && DerivesIn(g, a, [t] + rest, n)
    ensures FormBegins(g, lambda, first, a, t)
    decreases n
  {
    if n == 0 {
      assert BeginsAt(g, lambda, first, a, 0, t);
    } else {
      var c :| Step(g, a, c) && DerivesIn(g, c, [t] + rest, n - 1);
      FirstComplete(g, lambda, first, c, t, rest, n - 1);
      var i, r := StepRewrites(g, a, c);
      var j: nat :| BeginsAt(g, lambda, first, c, j, t);
      FirstUndoStep(g, lambda, first, a, c, i, r, j, t);
    }
  }

  /** If everything before position `i` of a form vanishes, the form can begin with whatever position
      `i` begins with. */
  lemma FormBeginsWith(g: Grammar, form: Form, i: nat, t: nat, rest: Form)
    requires i < |form| && Derives(g, form[..i], []) && Derives(g, [form[i]], [t] + rest)
    ensures Derives(g, form, [t] + (rest + form[i + 1..]))
  {
    hide *;
    var x, tail := form[i], form[i + 1..];
    DerivesConcat(g, form[..i], [], [x], [t] + rest);
    assert [] + ([t] + rest) == [t] + rest;
    DerivesSuffix(g, form[..i] + [x], [t] + rest, tail);
    assert form[..i] + [x] + tail == form && [t] + rest + tail == [t] + (rest + tail);
  }

  /** A terminal found at position `i` of a form begins something that the form derives. */
  lemma FormBeginsDerives(g: Grammar, lambda: seq<bool>, first: seq<set<nat>>, form: Form, i: nat, t: nat)
    returns (rest: Form)
    requires g.nsymbol <= |first| && LambdaSound(g, lambda) && FirstSound(g, first)
    requires BeginsAt(g, lambda, first, form, i, t)
    ensures g.Terminal(t) && Derives(g, form, [t] + rest)
  {
    var x := form[i];
    if g.Terminal(x) {
      assert [t] + [] == [x];
      DerivesRefl(g, [x]);
    }
    assert CanBegin(g, x, t);
    var more :| Derives(g, [x], [t] + more);
    LambdaPrefixDerivesEmpty(g, lambda, form, i);
    FormBeginsWith(g, form, i, t, more);
    rest := more + form[i + 1..];
  }

  /** A terminal found at position `i` of a rule begins something its left-hand side derives. */
  lemma RuleBegins(g: Grammar, lambda: seq<bool>, first: seq<set<nat>>, r: nat, i: nat, t: nat)
    requires g.Valid() && |first| == g.nsymbol && LambdaSound(g, lambda) && FirstSound(g, first)
    requires r < |g.rules| && BeginsAt(g, lambda, first, g.rules[r].rhs, i, t)
    ensures CanBegin(g, g.rules[r].lhs, t)
  {
    var rest := FormBeginsDerives(g, lambda, first, g.rules[r].rhs, i, t);
    RuleDerives(g, r);
    DerivesTrans(g, [g.rules[r].lhs], g.rules[r].rhs, [t] + rest);
  }

  lemma EmptyNeedsNonterminal(g: Grammar, x: nat)
    requires g.Valid() && Derives(g, [x], [])
    ensures g.Nonterminal(x)
  {
    var n: nat :| DerivesIn(g, [x], [], n);
    assert n > 0;
    var c :| Step(g, [x], c) && DerivesIn(g, c, [], n - 1);
    var i, r := StepRewrites(g, [x], c);
  }

  lemma TerminalIsNotLambda(g: Grammar, lambda: seq<bool>, x: nat)
    requires g.Valid() && LambdaSound(g, lambda) && g.Terminal(x) && x < |lambda|
    ensures !lambda[x]
  {
    if lambda[x] {
      EmptyNeedsNonterminal(g, x);
    }
  }

  // ----- the two fixpoint loops

  ghost function Unflagged(lambda: seq<bool>): set<nat> {
    set x: nat | x < |lambda| && !lambda[x]
  }

  /** First loop: all lambdas. */
  method FindLambdas(g: Grammar, lambda: array<bool>)
    requires g.Valid() && lambda.Length == g.nsymbol
    modifies lambda
    ensures forall x: nat :: x < g.nsymbol ==> (lambda[x] <==> Derives(g, [x], []))
    ensures LambdaSound(g, lambda[..]) && LambdaClosed(g, lambda[..])
  {
    for i := 0 to g.nsymbol
      invariant forall x :: 0 <= x < i ==> !lambda[x]
    {
      lambda[i] := false;
    }
    var progress := true;
    while progress
      invariant LambdaSound(g, lambda[..])
      invariant !progress ==> LambdaClosed(g, lambda[..])
      decreases Unflagged(lambda[..]), progress
    {
      progress := false;
      ghost var before := Unflagged(lambda[..]);
      for r := 0 to |g.rules|
        invariant LambdaSound(g, lambda[..])
        invariant !progress ==> before == Unflagged(lambda[..])
        invariant progress ==> Unflagged(lambda[..]) < before
        invariant !progress ==> forall r' :: 0 <= r' < r && AllLambda(lambda[..], g.rules[r'].rhs) ==>
          lambda[g.rules[r'].lhs]
      {
        var lhs, rhs := g.rules[r].lhs, g.rules[r].rhs;
        if lambda[lhs] { continue; }
        var i := 0;
        while i < |rhs| && lambda[rhs[i]]
          invariant 0 <= i <= |rhs| && LambdaUpTo(lambda[..], rhs, i)
        {
          i := i + 1;
        }
        if i == |rhs| {
          LambdaPrefixDerivesEmpty(g, lambda[..], rhs, |rhs|);
          assert rhs[..|rhs|] == rhs;
          RuleDerives(g, r);
          DerivesTrans(g, [lhs], rhs, []);
          ghost var was := Unflagged(lambda[..]);
          assert lhs in was;
          lambda[lhs] := true;
          progress := true;
          assert lhs !in Unflagged(lambda[..]);
          assert forall x: nat :: x < lambda.Length && !lambda[x] ==> x in was;
        } else {
          assert !AllLambda(lambda[..], rhs);
        }
      }
    }
    forall x: nat | x < g.nsymbol && Derives(g, [x], []) ensures lambda[x] {
      var n: nat :| DerivesIn(g, [x], [], n);
      EmptyFormIsLambda(g, lambda[..], [x], n);
      assert [x][0] == x;
    }
  }

  /** Second loop, one rule: add what can begin the rule to the set of its left-hand side. */
  method AddRuleFirsts(g: Grammar, lambda: array<bool>, first: SymbolSets, r: nat) returns (progress: bool)
    requires g.Valid() && lambda.Length == g.nsymbol && r < |g.rules|
    requires first.cells.Length0 == g.nsymbol && first.cells.Length1 == g.nterminal + 1
    requires LambdaSound(g, lambda[..]) && FirstSound(g, first.Value())
    modifies first.cells
    ensures FirstSound(g, first.Value())
    ensures Below(old(first.Value()), first.Value())
    ensures progress <==> first.Value() != old(first.Value())
    ensures !progress ==> RuleClosed(g, lambda[..], first.Value(), r, |g.rules[r].rhs|)
  {
    hide CanBegin, LambdaSound;
    progress := false;
    var s1, rhs := g.rules[r].lhs, g.rules[r].rhs;
    var i := 0;
    var stop := false;
    while i < |rhs| && !stop
      invariant 0 <= i <= |rhs|
      invariant lambda[..] == old(lambda[..])
      invariant FirstSound(g, first.Value()) && Below(old(first.Value()), first.Value())
      invariant progress ==> first.Value() != old(first.Value())
      invariant !progress ==> first.Value() == old(first.Value())
      invariant !progress ==> RuleClosed(g, lambda[..], first.Value(), r, i)
      invariant !stop ==> LambdaUpTo(lambda[..], rhs, i)
      invariant stop ==> !LambdaUpTo(lambda[..], rhs, i)
      decreases |rhs| - i
    {
      var s2 := rhs[i];
      ghost var v := first.Value();
      forall t | t in Begins(g, v, s2) ensures CanBegin(g, s1, t) {
        assert BeginsAt(g, lambda[..], v, rhs, i, t);
        RuleBegins(g, lambda[..], v, r, i, t);
      }
      if g.Terminal(s2) {
        var added := first.Add(s1, s2);
        assert !added ==> v[s1] + {s2} == v[s1];
        progress := progress || added;
        stop := true;
        TerminalIsNotLambda(g, lambda[..], s2);
      } else if s1 == s2 {
        stop := !lambda[s1];
      } else {
        var added := first.Union(s1, s2);
        assert !added ==> v[s1] + v[s2] == v[s1];
        progress := progress || added;
        stop := !lambda[s2];
      }
      assert first.Value()[s1] == v[s1] + Begins(g, v, s2);
      GrowthLasts(old(first.Value()), v, first.Value());
      i := i + 1;
    }
  }

  /** Second loop: repeat over all rules until nothing changes. */
  method CloseFirsts(g: Grammar, lambda: array<bool>, first: SymbolSets)
    requires g.Valid() && lambda.Length == g.nsymbol
    requires first.cells.Length0 == g.nsymbol && first.cells.Length1 == g.nterminal + 1
    requires LambdaSound(g, lambda[..]) && FirstSound(g, first.Value())
    modifies first.cells
    ensures FirstSound(g, first.Value()) && FirstClosed(g, lambda[..], first.Value())
  {
    var progress := true;
    while progress
      invariant lambda[..] == old(lambda[..])
      invariant FirstSound(g, first.Value())
      invariant !progress ==> FirstClosed(g, lambda[..], first.Value())
      decreases Clear(first.Value(), g.nterminal + 1), progress
    {
      progress := false;
      ghost var before := first.Value();
      for r := 0 to |g.rules|
        invariant lambda[..] == old(lambda[..])
        invariant FirstSound(g, first.Value()) && Below(before, first.Value())
        invariant progress ==> first.Value() != before
        invariant !progress ==> first.Value() == before
        invariant !progress ==> forall r': nat :: r' < r ==> RuleClosed(g, lambda[..], before, r', |g.rules[r'].rhs|)
      {
        ghost var v := first.Value();
        var p := AddRuleFirsts(g, lambda, first, r);
        progress := progress || p;
        GrowthLasts(before, v, first.Value());
      }
      if progress {
        ClearShrinks(before, first.Value(), g.nterminal + 1);
      }
    }
  }

  lemma FirstExact(g: Grammar, lambda: seq<bool>, first: seq<set<nat>>, x: nat, t: nat)
    requires g.Valid() && |first| == g.nsymbol && LambdaClosed(g, lambda)
    requires FirstSound(g, first) && FirstClosed(g, lambda, first) && g.Nonterminal(x)
    ensures t in first[x] <==> CanBegin(g, x, t)
  {
    if CanBegin(g, x, t) {
      var rest :| Derives(g, [x], [t] + rest);
      var n: nat :| DerivesIn(g, [x], [t] + rest, n);
      FirstComplete(g, lambda, first, [x], t, rest, n);
      var i: nat :| BeginsAt(g, lambda, first, [x], i, t);
    }
  }

  /** FindFirstSets: `lambda` marks exactly the symbols that derive the empty string, and each
      first set holds exactly the terminals that can begin a form its nonterminal derives. */
  method FindFirstSets(g: Grammar) returns (lambda: array<bool>, first: SymbolSets)
    requires g.Valid()
    ensures lambda.Length == g.nsymbol
    ensures forall x: nat :: x < g.nsymbol ==> (lambda[x] <==> Derives(g, [x], []))
    ensures first.cells.Length0 == g.nsymbol
    ensures forall x: nat, t: nat :: g.Nonterminal(x) ==> (t in first.Value()[x] <==> CanBegin(g, x, t))
    ensures LambdaSound(g, lambda[..]) && LambdaClosed(g, lambda[..])
    ensures FirstSound(g, first.Value()) && FirstClosed(g, lambda[..], first.Value())
  {
    lambda := new bool[g.nsymbol];
    FindLambdas(g, lambda);
    first := new SymbolSets(g.nsymbol, g.nterminal + 1);
    CloseFirsts(g, lambda, first);
    forall x: nat, t: nat | g.Nonterminal(x) ensures t in first.Value()[x] <==> CanBegin(g, x, t) {
      FirstExact(g, lambda[..], first.Value(), x, t);
    }
  }
}
