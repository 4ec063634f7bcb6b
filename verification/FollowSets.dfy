/** lemon's FindFollowSets: follow symbols flow along the forward links until nothing changes. */
module FollowSets {
  import opened SymbolSets

  type Links = seq<seq<nat>>

  ghost predicate LinksOk(fplp: Links) {
    forall c, d :: 0 <= c < |fplp| && d in fplp[c] ==> d < |fplp|
  }

  /** Everything configuration `c` may be followed by has reached the configurations it links to. */
  ghost predicate Satisfied(fplp: Links, v: seq<set<nat>>, c: nat)
    requires LinksOk(fplp) && |v| == |fplp| && c < |v|
  {
    forall d :: d in fplp[c] ==> v[c] <= v[d]
  }

  ghost predicate Closed(fplp: Links, v: seq<set<nat>>) {
    LinksOk(fplp) && |v| == |fplp| && forall c :: 0 <= c < |v| ==> Satisfied(fplp, v, c)
  }

  /** `v` is below every closed family above `start`. */
  ghost predicate Within(fplp: Links, start: seq<set<nat>>, v: seq<set<nat>>) {
    forall w :: Below(start, w) && Closed(fplp, w) ==> Below(v, w)
  }

  lemma WithinGrows(fplp: Links, start: seq<set<nat>>, v: seq<set<nat>>, c: nat, d: nat)
    requires LinksOk(fplp) && |v| == |fplp| && c < |v| && d in fplp[c] && Within(fplp, start, v)
    ensures Within(fplp, start, v[d := v[d] + v[c]])
  {
    forall w | Below(start, w) && Closed(fplp, w) ensures Below(v[d := v[d] + v[c]], w) {
      assert Below(v, w) && Satisfied(fplp, w, c);
    }
  }

  /** The links of one configuration; whatever a receiver gains makes the receiver INCOMPLETE. */
  method Propagate(fws: SymbolSets, fplp: Links, complete: array<bool>, c: nat, ghost start: seq<set<nat>>)
    returns (progress: bool)
    requires LinksOk(fplp) && fws.cells.Length0 == |fplp| == complete.Length && c < |fplp|
    requires Below(start, fws.Value()) && Within(fplp, start, fws.Value())
    requires forall i :: 0 <= i < |fplp| && complete[i] ==> Satisfied(fplp, fws.Value(), i)
    modifies fws.cells, complete
    ensures Below(start, fws.Value()) && Within(fplp, start, fws.Value()) && Below(old(fws.Value()), fws.Value())
    ensures complete[c] && forall i :: 0 <= i < |fplp| && complete[i] ==> Satisfied(fplp, fws.Value(), i)
    ensures progress ==> fws.Value() != old(fws.Value())
    ensures !progress ==> fws.Value() == old(fws.Value()) && forall i :: 0 <= i < |fplp| && i != c ==>
      complete[i] == old(complete[i])
  {
    progress := false;
    ghost var v0 := fws.Value();
    for k := 0 to |fplp[c]|
      invariant Below(start, fws.Value()) && Within(fplp, start, fws.Value()) && Below(v0, fws.Value())
      invariant fws.Value()[c] == v0[c]
      invariant forall d :: d in fplp[c][..k] ==> d < |fplp| && v0[c] <= fws.Value()[d]
      invariant forall i :: 0 <= i < |fplp| && i != c && complete[i] ==> Satisfied(fplp, fws.Value(), i)
      invariant progress ==> fws.Value() != v0
      invariant !progress ==> fws.Value() == v0 && forall i :: 0 <= i < |fplp| ==> complete[i] == old(complete[i])
    {
      var d := fplp[c][k];
      assert d in fplp[c];
      ghost var v := fws.Value();
      WithinGrows(fplp, start, v, c, d);
      var change := fws.Union(d, c);
      GrowthLasts(v0, v, fws.Value());
      if change {
        complete[d] := false;
        progress := true;
      } else {
        assert v[d] + v[c] == v[d];
      }
      assert fplp[c][..k + 1] == fplp[c][..k] + [d];
    }
    assert fplp[c][..|fplp[c]|] == fplp[c];
    assert Satisfied(fplp, fws.Value(), c);
    complete[c] := true;
  }

  /** FindFollowSets: the least sets that contain the initial ones and are closed along every
      forward link, whatever the shape of the link graph. */
  method FindFollowSets(fws: SymbolSets, fplp: Links)
    requires LinksOk(fplp) && fws.cells.Length0 == |fplp|
    modifies fws.cells
    ensures Below(old(fws.Value()), fws.Value()) && Closed(fplp, fws.Value())
    ensures forall w :: Below(old(fws.Value()), w) && Closed(fplp, w) ==> Below(fws.Value(), w)
  {
    var n := |fplp|;
    var complete := new bool[n](_ => false);
    ghost var start := fws.Value();
    var progress := true;
    while progress
      invariant Below(start, fws.Value()) && Within(fplp, start, fws.Value())
      invariant forall i :: 0 <= i < n && complete[i] ==> Satisfied(fplp, fws.Value(), i)
      invariant !progress ==> forall i :: 0 <= i < n ==> complete[i]
      decreases Clear(fws.Value(), fws.cells.Length1), progress
    {
      progress := false;
      ghost var before := fws.Value();
      for c := 0 to n
        invariant Below(start, fws.Value()) && Within(fplp, start, fws.Value()) && Below(before, fws.Value())
        invariant forall i :: 0 <= i < n && complete[i] ==> Satisfied(fplp, fws.Value(), i)
        invariant progress ==> fws.Value() != before
        invariant !progress ==> fws.Value() == before && forall i :: 0 <= i < c ==> complete[i]
      {
        if !complete[c] {
          ghost var v := fws.Value();
          var changed := Propagate(fws, fplp, complete, c, start);
          progress := progress || changed;
          GrowthLasts(before, v, fws.Value());
        }
      }
      if progress {
        ClearShrinks(before, fws.Value(), fws.cells.Length1);
      }
    }
  }

  // ----- least closed sets, read along paths

  /** `path` follows forward links. */
  ghost predicate LinkPath(fplp: Links, path: seq<nat>) {
    && |path| > 0
    && (forall k :: 0 <= k < |path| ==> path[k] < |fplp|)
    && (forall k :: 0 < k < |path| ==> path[k] in fplp[path[k - 1]])
  }

  ghost predicate FlowsTo(fplp: Links, start: seq<set<nat>>, x: nat, d: nat, path: seq<nat>) {
    LinkPath(fplp, path) && |start| == |fplp| && path[|path| - 1] == d && x in start[path[0]]
  }

  /** A chain of links carries `x` to configuration `d`. */
  ghost predicate Reaches(fplp: Links, start: seq<set<nat>>, x: nat, d: nat) {
    exists path :: FlowsTo(fplp, start, x, d, path)
  }

  /** The part of `v` that chains of links account for. */
  ghost function Flow(fplp: Links, start: seq<set<nat>>, v: seq<set<nat>>): (w: seq<set<nat>>)
    ensures |w| == |v|
    ensures forall d :: 0 <= d < |w| ==> w[d] == set x | x in v[d] && Reaches(fplp, start, x, d)
  {
    seq(|v|, d requires 0 <= d < |v| => set x | x in v[d] && Reaches(fplp, start, x, d))
  }

  lemma {:induction false} ClosedAlongPath(fplp: Links, start: seq<set<nat>>, v: seq<set<nat>>, x: nat, d: nat,
                                           path: seq<nat>)
    requires Closed(fplp, v) && Below(start, v) && FlowsTo(fplp, start, x, d, path)
    ensures x in v[d]
    decreases |path|
  {
    var n := |path| - 1;
    if n > 0 {
      var e := path[n - 1];
      assert FlowsTo(fplp, start, x, e, path[..n]);
      ClosedAlongPath(fplp, start, v, x, e, path[..n]);
      assert Satisfied(fplp, v, e);
    }
  }

  lemma ReachesOn(fplp: Links, start: seq<set<nat>>, x: nat, c: nat, e: nat)
    requires LinksOk(fplp) && c < |fplp| && e in fplp[c] && Reaches(fplp, start, x, c)
    ensures Reaches(fplp, start, x, e)
  {
    var path :| FlowsTo(fplp, start, x, c, path);
    var longer := path + [e];
    forall k | 0 < k < |longer| ensures longer[k] in fplp[longer[k - 1]] {
    }
    assert FlowsTo(fplp, start, x, e, longer);
  }

  lemma FlowClosed(fplp: Links, start: seq<set<nat>>, v: seq<set<nat>>)
    requires Closed(fplp, v) && Below(start, v)
    ensures Below(start, Flow(fplp, start, v)) && Closed(fplp, Flow(fplp, start, v))
  {
    var w := Flow(fplp, start, v);
    forall c | 0 <= c < |w| ensures start[c] <= w[c] && Satisfied(fplp, w, c) {
      forall y | y in start[c] ensures y in w[c] {
        assert FlowsTo(fplp, start, y, c, [c]);
      }
      forall e | e in fplp[c] ensures w[c] <= w[e] {
        forall y | y in w[c] ensures y in w[e] {
          ReachesOn(fplp, start, y, c, e);
          assert Satisfied(fplp, v, c);
        }
      }
    }
  }

  /** A symbol is in the computed set of `d` exactly when a chain of links carries it there. */
  lemma LeastMeansFlow(fplp: Links, start: seq<set<nat>>, v: seq<set<nat>>, x: nat, d: nat)
    requires Closed(fplp, v) && Below(start, v) && d < |v|
    requires forall w :: Below(start, w) && Closed(fplp, w) ==> Below(v, w)
    ensures x in v[d] <==> Reaches(fplp, start, x, d)
  {
    if Reaches(fplp, start, x, d) {
      var path :| FlowsTo(fplp, start, x, d, path);
      ClosedAlongPath(fplp, start, v, x, d, path);
    }
    FlowClosed(fplp, start, v);
    assert Below(v, Flow(fplp, start, v));
  }
}
