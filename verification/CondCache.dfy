/** lighttpd's cache of condition results: nested if/else blocks of the configuration, evaluated on
    demand while a request becomes known. */
module CondCache {
  datatype Result = UNSET | FALSE | TRUE

  /** A configuration block.  Block 0 is the global context, which is in no chain and has no
      condition; as a link 0 means that there is none.  `comp` is the request field the condition
      looks at. */
  datatype Block = Block(parent: nat, prev: nat, next: nat, comp: nat)

  type Config = seq<Block>

  /** What the configuration parser asserts: links lead from a block to an earlier parent, an earlier
      brother and a later brother, and brothers have one parent. */
  predicate ConfigOk(cfg: Config) {
    forall c :: 0 < c < |cfg| ==>
      && cfg[c].parent < c
      && (cfg[c].prev != 0 ==> cfg[c].prev < c && cfg[cfg[c].prev].parent == cfg[c].parent)
      && (cfg[c].next != 0 ==> c < cfg[c].next < |cfg| && cfg[cfg[c].next].parent == cfg[c].parent)
  }

  /** The field of each block is known. */
  type Fields = set<nat>

  // ----- the evaluation

  /** The loop that sets the remaining blocks of a chain to false. */
  function Mark(cfg: Config, cache: seq<Result>, c: nat): (now: seq<Result>)
    requires ConfigOk(cfg) && |cache| == |cfg| && c < |cfg|
    ensures |now| == |cache|
    decreases |cfg| - c
  {
    var now := cache[c := FALSE];
    if c == 0 || cfg[c].next == 0 then now else Mark(cfg, now, cfg[c].next)
  }

  /** config_check_cond_nocache: the cache afterwards, and the result. */
  function NoCache(cfg: Config, raw: seq<bool>, valid: Fields, cache: seq<Result>, c: nat): (r: (seq<Result>, Result))
    requires ConfigOk(cfg) && |raw| == |cfg| == |cache| && 0 < c < |cfg|
    ensures |r.0| == |cache|
    decreases c, 0
  {
    var b := cfg[c];
    var one := if b.parent == 0 then cache else Cached(cfg, raw, valid, cache, b.parent);
    if b.parent != 0 && one[b.parent] != TRUE then (one, one[b.parent])
    else
      var two := if b.prev == 0 then one else Cached(cfg, raw, valid, one, b.prev);
      if b.prev != 0 && two[c] == FALSE then (two, FALSE)
      else if b.comp !in valid then (two, UNSET)
      else (two, if raw[c] then TRUE else FALSE)
  }

  /** config_check_cond_cached: the cache afterwards; the result is the block's entry in it. */
  function Cached(cfg: Config, raw: seq<bool>, valid: Fields, cache: seq<Result>, c: nat): (now: seq<Result>)
    requires ConfigOk(cfg) && |raw| == |cfg| == |cache| && 0 < c < |cfg|
    ensures |now| == |cache|
    decreases c, 1
  {
    if cache[c] != UNSET then cache
    else
      var (k, r) := NoCache(cfg, raw, valid, cache, c);
      var now := k[c := r];
      if r == TRUE && cfg[c].next != 0 then Mark(cfg, now, cfg[c].next) else now
  }

  /** The cache of one connection. */
  class Connection {
    const cfg: Config
    const raw: seq<bool>
    var valid: Fields
    const cache: array<Result>

    ghost predicate Valid()
      reads this
    {
      ConfigOk(cfg) && |raw| == |cfg| == cache.Length
    }

    constructor (cfg: Config, raw: seq<bool>)
      requires ConfigOk(cfg) && |raw| == |cfg|
      ensures Valid() && this.cfg == cfg && this.raw == raw && valid == {} && fresh(cache)
      ensures cache[..] == Fresh(cfg)
    {
      this.cfg, this.raw, this.valid := cfg, raw, {};
      cache := new Result[|cfg|](_ => UNSET);
    }

    /** config_cond_cache_reset: everything is unknown again. */
    method ResetAll()
      requires Valid()
      modifies this, cache
      ensures Valid() && cache[..] == Fresh(cfg) && valid == {}
    {
      for i := 0 to cache.Length
        invariant Valid() && forall j :: 0 <= j < i ==> cache[j] == UNSET
      {
        cache[i] := UNSET;
      }
      valid := {};
    }

    method CheckNoCache(c: nat) returns (r: Result)
      requires Valid() && 0 < c < |cfg|
      modifies cache
      ensures (cache[..], r) == NoCache(cfg, raw, valid, old(cache[..]), c)
      decreases c, 0
    {
      var b := cfg[c];
      if b.parent != 0 {
        r := CheckCached(b.parent);
        if r == FALSE || r == UNSET {
          return;
        }
      }
      if b.prev != 0 {
        r := CheckCached(b.prev);
        if cache[c] == FALSE {
          return FALSE;
        }
      }
      if b.comp !in valid {
        return UNSET;
      }
      r := if raw[c] then TRUE else FALSE;
    }

    method CheckCached(c: nat) returns (r: Result)
      requires Valid() && 0 < c < |cfg|
      modifies cache
      ensures cache[..] == Cached(cfg, raw, valid, old(cache[..]), c) && r == cache[c]
      decreases c, 1
    {
      if cache[c] == UNSET {
        r := CheckNoCache(c);
        cache[c] := r;
        if r == TRUE {
          ghost var now := cache[..];
          var d := cfg[c].next;
          while d != 0
            invariant d < |cfg|
            invariant if cfg[c].next == 0 then cache[..] == now
                      else if d == 0 then cache[..] == Mark(cfg, now, cfg[c].next)
                      else Mark(cfg, cache[..], d) == Mark(cfg, now, cfg[c].next)
            decreases if d == 0 then 0 else |cfg| - d
          {
            ghost var was := cache[..];
            cache[d] := FALSE;
            assert cache[..] == was[d := FALSE];
            d := cfg[d].next;
          }
        }
      }
      r := cache[c];
    }
  }

  function Fresh(cfg: Config): (cache: seq<Result>)
    ensures |cache| == |cfg| && forall c :: 0 <= c < |cfg| ==> cache[c] == UNSET
  {
    seq(|cfg|, _ => UNSET)
  }

  // ----- the plain meaning of nested if/else

  /** Every condition from `p` back to the head of its chain is false. */
  predicate AllFalse(cfg: Config, raw: seq<bool>, p: nat)
    requires ConfigOk(cfg) && |raw| == |cfg| && p < |cfg|
    decreases p
  {
    p == 0 || (!raw[p] && AllFalse(cfg, raw, cfg[p].prev))
  }

  /** Block `c` applies: its parent does, its condition is true, and those before it in its chain
      are false. */
  predicate Taken(cfg: Config, raw: seq<bool>, c: nat)
    requires ConfigOk(cfg) && |raw| == |cfg| && c < |cfg|
    decreases c
  {
    c == 0 || (Taken(cfg, raw, cfg[c].parent) && raw[c] && AllFalse(cfg, raw, cfg[c].prev))
  }

  /** Whatever the cache has decided is right. */
  ghost predicate Agrees(cfg: Config, raw: seq<bool>, cache: seq<Result>)
    requires ConfigOk(cfg) && |raw| == |cfg|
  {
    |cache| == |cfg| && forall c :: 0 < c < |cfg| ==>
      (cache[c] == TRUE ==> Taken(cfg, raw, c)) && (cache[c] == FALSE ==> !Taken(cfg, raw, c))
  }

  /** `x` stands somewhere before `b` in the chain that `b` looks back on. */
  predicate Before(cfg: Config, x: nat, b: nat)
    requires ConfigOk(cfg) && b < |cfg|
    decreases b
  {
    b != 0 && cfg[b].prev != 0 && (cfg[b].prev == x || Before(cfg, x, cfg[b].prev))
  }

  /** `b` stands somewhere after `x` in the chain that `x` looks ahead to. */
  predicate After(cfg: Config, b: nat, x: nat)
    requires ConfigOk(cfg) && x < |cfg|
    decreases |cfg| - x
  {
    x != 0 && cfg[x].next != 0 && (cfg[x].next == b || After(cfg, b, cfg[x].next))
  }

  /** Looking back and looking ahead show the same chains. */
  ghost predicate Matched(cfg: Config)
    requires ConfigOk(cfg)
  {
    forall x: nat, b: nat :: x < |cfg| && b < |cfg| ==> (After(cfg, b, x) <==> Before(cfg, x, b))
  }

  lemma {:induction false} BeforeFacts(cfg: Config, x: nat, b: nat)
    requires ConfigOk(cfg) && b < |cfg| && Before(cfg, x, b)
    ensures 0 < x < b && cfg[x].parent == cfg[b].parent
    decreases b
  {
    if cfg[b].prev != x {
      BeforeFacts(cfg, x, cfg[b].prev);
    }
  }

  lemma {:induction false} AfterFacts(cfg: Config, b: nat, x: nat)
    requires ConfigOk(cfg) && x < |cfg| && After(cfg, b, x)
    ensures 0 < x < b < |cfg| && cfg[x].parent == cfg[b].parent
    decreases |cfg| - x
  {
    if cfg[x].next != b {
      AfterFacts(cfg, b, cfg[x].next);
    }
  }

  lemma {:induction false} BeforeTrans(cfg: Config, x: nat, y: nat, b: nat)
    requires ConfigOk(cfg) && y < |cfg| && b < |cfg| && Before(cfg, x, y) && Before(cfg, y, b)
    ensures Before(cfg, x, b)
    decreases b
  {
    if cfg[b].prev != y {
      BeforeTrans(cfg, x, y, cfg[b].prev);
    }
  }

  lemma {:induction false} AfterTrans(cfg: Config, b: nat, y: nat, x: nat)
    requires ConfigOk(cfg) && y < |cfg| && x < |cfg| && After(cfg, b, y) && After(cfg, y, x)
    ensures After(cfg, b, x)
    decreases |cfg| - x
  {
    if cfg[x].next != y {
      AfterTrans(cfg, b, y, cfg[x].next);
    }
  }

  /** Links that are mutual inverses match. */
  lemma InverseLinksMatch(cfg: Config)
    requires ConfigOk(cfg)
    requires forall c :: 0 < c < |cfg| && cfg[c].next != 0 ==> cfg[cfg[c].next].prev == c
    requires forall c :: 0 < c < |cfg| && cfg[c].prev != 0 ==> cfg[cfg[c].prev].next == c
    ensures Matched(cfg)
  {
    forall x: nat, b: nat | x < |cfg| && b < |cfg| ensures After(cfg, b, x) <==> Before(cfg, x, b) {
      if After(cfg, b, x) {
        AheadIsBack(cfg, b, x);
      }
      if Before(cfg, x, b) {
        BackIsAhead(cfg, x, b);
      }
    }
  }

  lemma {:induction false} AheadIsBack(cfg: Config, b: nat, x: nat)
    requires ConfigOk(cfg) && x < |cfg| && After(cfg, b, x)
    requires forall c :: 0 < c < |cfg| && cfg[c].next != 0 ==> cfg[cfg[c].next].prev == c
    ensures b < |cfg| && Before(cfg, x, b)
    decreases |cfg| - x
  {
    var n := cfg[x].next;
    if n != b {
      AheadIsBack(cfg, b, n);
      BeforeTrans(cfg, x, n, b);
    }
  }

  lemma {:induction false} BackIsAhead(cfg: Config, x: nat, b: nat)
    requires ConfigOk(cfg) && b < |cfg| && Before(cfg, x, b)
    requires forall c :: 0 < c < |cfg| && cfg[c].prev != 0 ==> cfg[cfg[c].prev].next == c
    ensures x < |cfg| && After(cfg, b, x)
    decreases b
  {
    BeforeFacts(cfg, x, b);
    var p := cfg[b].prev;
    if p != x {
      BackIsAhead(cfg, x, p);
      AfterTrans(cfg, b, p, x);
    }
  }

  // ----- the cache agrees with the meaning

  /** The fields of a block and of all its ancestors are known. */
  predicate AllKnown(cfg: Config, valid: Fields, c: nat)
    requires ConfigOk(cfg) && c < |cfg|
    decreases c
  {
    c == 0 || (cfg[c].comp in valid && AllKnown(cfg, valid, cfg[c].parent))
  }

  /** Where a block can be decided, its earlier brothers can. */
  ghost predicate Ordered(cfg: Config, valid: Fields)
    requires ConfigOk(cfg)
  {
    forall c :: 0 < c < |cfg| && AllKnown(cfg, valid, c) && cfg[c].prev != 0 ==> cfg[cfg[c].prev].comp in valid
  }

  ghost predicate TrueBefore(cfg: Config, cache: seq<Result>, p: nat)
    requires ConfigOk(cfg) && |cache| == |cfg| && p < |cfg|
  {
    exists x: nat :: x < |cfg| && Before(cfg, x, p) && cache[x] == TRUE
  }

  /** A block that is false although its parent applies has a reason: its condition and all before
      it are false, or one before it is true. */
  ghost predicate Reason(cfg: Config, raw: seq<bool>, cache: seq<Result>, p: nat)
    requires ConfigOk(cfg) && |cache| == |cfg| == |raw| && 0 < p < |cfg|
  {
    Taken(cfg, raw, cfg[p].parent) ==> AllFalse(cfg, raw, p) || TrueBefore(cfg, cache, p)
  }

  /** A true block has all later brothers false. */
  ghost predicate LaterFalse(cfg: Config, cache: seq<Result>)
    requires ConfigOk(cfg) && |cache| == |cfg|
  {
    forall c: nat, d: nat :: c < |cfg| && d < |cfg| && cache[c] == TRUE && After(cfg, d, c) ==> cache[d] == FALSE
  }

  ghost predicate Inv(cfg: Config, raw: seq<bool>, valid: Fields, cache: seq<Result>)
    requires ConfigOk(cfg) && |raw| == |cfg|
  {
    && Agrees(cfg, raw, cache) && LaterFalse(cfg, cache)
    && (forall p :: 0 < p < |cfg| && cache[p] == FALSE ==> Reason(cfg, raw, cache, p))
    && (forall c :: 0 < c < |cfg| && cache[c] == TRUE ==> AllKnown(cfg, valid, c))
  }

  /** What checking block `c` may do to the cache: nothing decided changes, only blocks of outer
      levels are touched, and later ones only become false. */
  ghost predicate Grown(cfg: Config, was: seq<Result>, now: seq<Result>, c: nat)
    requires ConfigOk(cfg)
  {
    && |was| == |now| == |cfg|
    && (forall d :: 0 <= d < |cfg| && now[d] != was[d] ==> was[d] == UNSET && 0 < d && cfg[d].parent < c)
    && (forall d :: c < d < |cfg| && now[d] != was[d] ==> now[d] == FALSE)
  }

  lemma GrownTrans(cfg: Config, a: seq<Result>, b: seq<Result>, c: seq<Result>, m: nat, n: nat, top: nat)
    requires ConfigOk(cfg) && Grown(cfg, a, b, m) && Grown(cfg, b, c, n) && m <= top && n <= top
    ensures Grown(cfg, a, c, top)
  {
  }

  lemma {:induction false} MarkIs(cfg: Config, cache: seq<Result>, c: nat, d: nat)
    requires ConfigOk(cfg) && |cache| == |cfg| && 0 < c < |cfg| && d < |cfg|
    ensures Mark(cfg, cache, c)[d] == if d == c || After(cfg, d, c) then FALSE else cache[d]
    decreases |cfg| - c
  {
    if cfg[c].next != 0 {
      MarkIs(cfg, cache[c := FALSE], cfg[c].next, d);
    }
  }

  lemma {:induction false} AllFalseBefore(cfg: Config, raw: seq<bool>, x: nat, b: nat)
    requires ConfigOk(cfg) && |raw| == |cfg| && b < |cfg| && Before(cfg, x, b) && x < |cfg| && raw[x]
    ensures !AllFalse(cfg, raw, cfg[b].prev)
    decreases b
  {
    if cfg[b].prev != x {
      AllFalseBefore(cfg, raw, x, cfg[b].prev);
    }
  }

  /** What a fresh evaluation of block `c` finds out. */
  ghost predicate Found(cfg: Config, raw: seq<bool>, valid: Fields, k: seq<Result>, c: nat, r: Result)
    requires ConfigOk(cfg) && |raw| == |cfg| == |k| && 0 < c < |cfg|
  {
    && (r == TRUE ==> Taken(cfg, raw, c) && AllKnown(cfg, valid, c) && k[c] == UNSET)
    && (r == FALSE ==> !Taken(cfg, raw, c) && Reason(cfg, raw, k, c) && k[c] != TRUE)
    && (r == UNSET ==> k[c] == UNSET)
  }

  ghost predicate Decides(cfg: Config, valid: Fields, k: seq<Result>, c: nat, r: Result)
    requires ConfigOk(cfg) && |k| == |cfg| && 0 < c < |cfg|
  {
    cfg[c].comp in valid && (cfg[c].parent == 0 || k[cfg[c].parent] == TRUE) ==> r != UNSET
  }

  lemma {:induction false} NoCacheKeeps(cfg: Config, raw: seq<bool>, valid: Fields, k: seq<Result>, c: nat)
    requires ConfigOk(cfg) && Matched(cfg) && Ordered(cfg, valid) && |raw| == |cfg| && Inv(cfg, raw, valid, k)
    requires 0 < c < |cfg| && k[c] == UNSET
    ensures var (now, r) := NoCache(cfg, raw, valid, k, c);
      Inv(cfg, raw, valid, now) && Grown(cfg, k, now, c) && Found(cfg, raw, valid, now, c, r)
        && Decides(cfg, valid, k, c, r)
    decreases c, 0
  {
    var b := cfg[c];
    var one := if b.parent == 0 then k else Cached(cfg, raw, valid, k, b.parent);
    if b.parent != 0 {
      CachedKeeps(cfg, raw, valid, k, b.parent);
    }
    assert one[c] == UNSET && Grown(cfg, k, one, c) && Inv(cfg, raw, valid, one);
    if b.parent == 0 || one[b.parent] == TRUE {
      assert Taken(cfg, raw, b.parent) && AllKnown(cfg, valid, b.parent);
      if b.prev != 0 {
        var two := Cached(cfg, raw, valid, one, b.prev);
        CachedKeeps(cfg, raw, valid, one, b.prev);
        GrownTrans(cfg, k, one, two, c, b.prev, c);
        assert two[c] == UNSET || two[c] == FALSE;
        if two[c] != FALSE && b.comp in valid {
          PrevAllFalse(cfg, raw, valid, two, c);
        }
      }
      assert AllFalse(cfg, raw, 0);
    }
  }

  /** If the brother before `c` is decided and `c` is not false yet, everything before `c` is false. */
  lemma PrevAllFalse(cfg: Config, raw: seq<bool>, valid: Fields, k: seq<Result>, c: nat)
    requires ConfigOk(cfg) && Matched(cfg) && |raw| == |cfg| && Inv(cfg, raw, valid, k)
    requires 0 < c < |cfg| && cfg[c].prev != 0 && k[cfg[c].prev] != UNSET && k[c] != FALSE
      && Taken(cfg, raw, cfg[c].parent)
    ensures AllFalse(cfg, raw, cfg[c].prev)
  {
    var p := cfg[c].prev;
    assert Before(cfg, p, c);
    assert After(cfg, c, p);
    forall x: nat | x < |cfg| && Before(cfg, x, p) ensures k[x] != TRUE {
      BeforeTrans(cfg, x, p, c);
      assert After(cfg, c, x);
    }
    assert k[p] == FALSE ==> Reason(cfg, raw, k, p);
  }

  lemma {:induction false} CachedKeeps(cfg: Config, raw: seq<bool>, valid: Fields, k: seq<Result>, c: nat)
    requires ConfigOk(cfg) && Matched(cfg) && Ordered(cfg, valid) && |raw| == |cfg| && Inv(cfg, raw, valid, k)
      && 0 < c < |cfg|
    ensures var now := Cached(cfg, raw, valid, k, c);
      Inv(cfg, raw, valid, now) && Grown(cfg, k, now, c) && Decides(cfg, valid, k, c, now[c])
    decreases c, 1
  {
    if k[c] == UNSET {
      NoCacheKeeps(cfg, raw, valid, k, c);
      var (two, r) := NoCache(cfg, raw, valid, k, c);
      var now := two[c := r];
      if r == TRUE {
        TrueKeeps(cfg, raw, valid, two, c);
        MarkGrown(cfg, raw, two, c);
        SettledIs(cfg, two, c, c);
        var all := if cfg[c].next == 0 then now else Mark(cfg, now, cfg[c].next);
        GrownTrans(cfg, k, two, all, c, c, c);
      } else {
        NotTrueKeeps(cfg, raw, valid, two, c, r);
        GrownTrans(cfg, k, two, now, c, c, c);
      }
    }
  }

  lemma NotTrueKeeps(cfg: Config, raw: seq<bool>, valid: Fields, k: seq<Result>, c: nat, r: Result)
    requires ConfigOk(cfg) && |raw| == |cfg| && Inv(cfg, raw, valid, k) && 0 < c < |cfg| && r != TRUE
      && Found(cfg, raw, valid, k, c, r)
    ensures Inv(cfg, raw, valid, k[c := r]) && Grown(cfg, k, k[c := r], c)
  {
    hide Taken, AllFalse, Before, After, AllKnown;
    var now := k[c := r];
    forall p | 0 < p < |cfg| && now[p] == FALSE ensures Reason(cfg, raw, now, p) {
      assert Reason(cfg, raw, k, p);
      if TrueBefore(cfg, k, p) {
        var x: nat :| x < |cfg| && Before(cfg, x, p) && k[x] == TRUE;
        assert now[x] == TRUE;
      }
    }
  }

  /** The cache once block `c` is true and the rest of its chain is marked. */
  function Settled(cfg: Config, k: seq<Result>, c: nat): (now: seq<Result>)
    requires ConfigOk(cfg) && |k| == |cfg| && 0 < c < |cfg|
    ensures |now| == |k|
  {
    if cfg[c].next == 0 then k[c := TRUE] else Mark(cfg, k[c := TRUE], cfg[c].next)
  }

  lemma SettledIs(cfg: Config, k: seq<Result>, c: nat, d: nat)
    requires ConfigOk(cfg) && |k| == |cfg| && 0 < c < |cfg| && d < |cfg|
    ensures Settled(cfg, k, c)[d] == if After(cfg, d, c) then FALSE else if d == c then TRUE else k[d]
    ensures After(cfg, d, c) ==> c < d && cfg[d].parent == cfg[c].parent
  {
    if cfg[c].next != 0 {
      MarkIs(cfg, k[c := TRUE], cfg[c].next, d);
    }
    if After(cfg, d, c) {
      AfterFacts(cfg, d, c);
    }
  }

  /** Blocks after a taken one are not taken. */
  lemma LaterNotTaken(cfg: Config, raw: seq<bool>, c: nat, d: nat)
    requires ConfigOk(cfg) && Matched(cfg) && |raw| == |cfg| && 0 < c < |cfg| && d < |cfg| && After(cfg, d, c)
      && Taken(cfg, raw, c)
    ensures d > 0 && !Taken(cfg, raw, d) && Before(cfg, c, d)
  {
    assert Before(cfg, c, d);
    AllFalseBefore(cfg, raw, c, d);
    AfterFacts(cfg, d, c);
  }

  lemma MarkGrown(cfg: Config, raw: seq<bool>, k: seq<Result>, c: nat)
    requires ConfigOk(cfg) && Matched(cfg) && |raw| == |cfg| && Agrees(cfg, raw, k)
    requires 0 < c < |cfg| && k[c] == UNSET && Taken(cfg, raw, c)
    ensures Grown(cfg, k, Settled(cfg, k, c), c)
  {
    var now := Settled(cfg, k, c);
    forall d: nat | d < |cfg| && now[d] != k[d] ensures k[d] == UNSET && 0 < d && cfg[d].parent < c
      && (c < d ==> now[d] == FALSE) {
      SettledIs(cfg, k, c, d);
      if After(cfg, d, c) {
        LaterNotTaken(cfg, raw, c, d);
      }
    }
  }

  lemma TrueKeeps(cfg: Config, raw: seq<bool>, valid: Fields, k: seq<Result>, c: nat)
    requires ConfigOk(cfg) && Matched(cfg) && |raw| == |cfg| && Inv(cfg, raw, valid, k)
    requires 0 < c < |cfg| && k[c] == UNSET && Taken(cfg, raw, c) && AllKnown(cfg, valid, c)
    ensures Inv(cfg, raw, valid, Settled(cfg, k, c))
  {
    var now := Settled(cfg, k, c);
    MarkGrown(cfg, raw, k, c);
    forall d | 0 < d < |cfg|
      ensures (now[d] == TRUE ==> Taken(cfg, raw, d) && AllKnown(cfg, valid, d))
        && (now[d] == FALSE ==> !Taken(cfg, raw, d))
      ensures now[d] == FALSE ==> Reason(cfg, raw, now, d)
    {
      SettledIs(cfg, k, c, d);
      SettledIs(cfg, k, c, c);
      if After(cfg, d, c) {
        LaterNotTaken(cfg, raw, c, d);
        assert now[c] == TRUE;
      } else if now[d] == FALSE {
        assert Reason(cfg, raw, k, d);
        if TrueBefore(cfg, k, d) {
          var x: nat :| x < |cfg| && Before(cfg, x, d) && k[x] == TRUE;
          assert now[x] == TRUE;
        }
      }
    }
    forall e: nat, d: nat | e < |cfg| && d < |cfg| && now[e] == TRUE && After(cfg, d, e) ensures now[d] == FALSE {
      SettledIs(cfg, k, c, d);
      SettledIs(cfg, k, c, e);
    }
  }

  // ----- whole runs

  /** What happens to a connection between two full resets: a block is checked, or a request field
      becomes known. */
  datatype Event = Check(c: nat) | Know(comp: nat)

  ghost predicate EventOk(cfg: Config, e: Event) {
    e.Check? ==> 0 < e.c < |cfg|
  }

  function After1(cfg: Config, raw: seq<bool>, valid: Fields, k: seq<Result>, e: Event): (r: (Fields, seq<Result>))
    requires ConfigOk(cfg) && |raw| == |cfg| == |k| && EventOk(cfg, e)
    ensures |r.1| == |k|
  {
    match e
    case Check(c) => (valid, Cached(cfg, raw, valid, k, c))
    case Know(comp) => (valid + {comp}, k)
  }

  /** The fields known and the cache after a run that starts with these. */
  function Run(cfg: Config, raw: seq<bool>, valid: Fields, k: seq<Result>,
               events: seq<Event>): (r: (Fields, seq<Result>))
    requires ConfigOk(cfg) && |raw| == |cfg| == |k| && forall i :: 0 <= i < |events| ==> EventOk(cfg, events[i])
    ensures |r.1| == |k|
    decreases |events|
  {
    if events == [] then (valid, k)
    else
      var (v, now) := After1(cfg, raw, valid, k, events[0]);
      Run(cfg, raw, v, now, events[1..])
  }

  /** Whenever a block is checked in the run, the fields known then are in order. */
  ghost predicate CheckedInOrder(cfg: Config, valid: Fields, events: seq<Event>)
    requires ConfigOk(cfg)
    decreases |events|
  {
    events == [] || match events[0]
      case Check(_) => Ordered(cfg, valid) && CheckedInOrder(cfg, valid, events[1..])
      case Know(comp) => CheckedInOrder(cfg, valid + {comp}, events[1..])
  }

  lemma {:induction false} KnownLasts(cfg: Config, valid: Fields, more: Fields, c: nat)
    requires ConfigOk(cfg) && c < |cfg| && valid <= more && AllKnown(cfg, valid, c)
    ensures AllKnown(cfg, more, c)
    decreases c
  {
    if c > 0 {
      KnownLasts(cfg, valid, more, cfg[c].parent);
    }
  }

  /** Nothing that is decided changes. */
  ghost predicate Kept(was: seq<Result>, now: seq<Result>) {
    |was| == |now| && forall c :: 0 <= c < |was| && was[c] != UNSET ==> now[c] == was[c]
  }

  /** Over every run in which brothers become known in order, the cache says what nested if/else
      says, a true block has all later brothers false, and no decision is ever revised. */
  lemma {:induction false} RunAgrees(cfg: Config, raw: seq<bool>, valid: Fields, k: seq<Result>, events: seq<Event>)
    requires ConfigOk(cfg) && Matched(cfg) && |raw| == |cfg| && Inv(cfg, raw, valid, k)
    requires (forall i :: 0 <= i < |events| ==> EventOk(cfg, events[i])) && CheckedInOrder(cfg, valid, events)
    ensures var (v, now) := Run(cfg, raw, valid, k, events);
      Inv(cfg, raw, v, now) && Agrees(cfg, raw, now) && LaterFalse(cfg, now) && Kept(k, now)
    decreases |events|
  {
    if events != [] {
      assert EventOk(cfg, events[0]);
      var (v, now) := After1(cfg, raw, valid, k, events[0]);
      match events[0] {
        case Check(c) => CachedKeeps(cfg, raw, valid, k, c);
        case Know(comp) =>
          forall c | 0 < c < |cfg| && now[c] == TRUE ensures AllKnown(cfg, v, c) {
            KnownLasts(cfg, valid, v, c);
          }
      }
      RunAgrees(cfg, raw, v, now, events[1..]);
    }
  }

  lemma FreshInv(cfg: Config, raw: seq<bool>, valid: Fields)
    requires ConfigOk(cfg) && |raw| == |cfg|
    ensures Inv(cfg, raw, valid, Fresh(cfg))
  {
  }

  /** The cache agrees with the meaning of the configuration after every run of checks with these
      fields known, whatever the conditions are. */
  ghost predicate AlwaysAgrees(cfg: Config, valid: Fields)
    requires ConfigOk(cfg)
  {
    forall raw: seq<bool>, checks: seq<nat> :: |raw| == |cfg| && ChecksOk(cfg, checks) ==>
      Agrees(cfg, raw, Run(cfg, raw, valid, Fresh(cfg), Checks(checks)).1)
  }

  predicate ChecksOk(cfg: Config, checks: seq<nat>) {
    forall i :: 0 <= i < |checks| ==> 0 < checks[i] < |cfg|
  }

  function Checks(checks: seq<nat>): (events: seq<Event>)
    ensures |events| == |checks| && forall i :: 0 <= i < |events| ==> events[i] == Check(checks[i])
  {
    seq(|checks|, i requires 0 <= i < |checks| => Check(checks[i]))
  }

  lemma {:induction false} ChecksInOrder(cfg: Config, valid: Fields, checks: seq<nat>)
    requires ConfigOk(cfg) && Ordered(cfg, valid)
    ensures CheckedInOrder(cfg, valid, Checks(checks))
    decreases |checks|
  {
    if checks != [] {
      ChecksInOrder(cfg, valid, checks[1..]);
      assert Checks(checks)[1..] == Checks(checks[1..]);
    }
  }

  lemma OrderedAgrees(cfg: Config, valid: Fields)
    requires ConfigOk(cfg) && Matched(cfg) && Ordered(cfg, valid)
    ensures AlwaysAgrees(cfg, valid)
  {
    forall raw: seq<bool>, checks: seq<nat> | |raw| == |cfg| && ChecksOk(cfg, checks)
      ensures Agrees(cfg, raw, Run(cfg, raw, valid, Fresh(cfg), Checks(checks)).1)
    {
      FreshInv(cfg, raw, valid);
      ChecksInOrder(cfg, valid, checks);
      RunAgrees(cfg, raw, valid, Fresh(cfg), Checks(checks));
    }
  }

  // ----- and it agrees in no other case

  /** `p` is `c` or one of the blocks around it. */
  predicate Around(cfg: Config, p: nat, c: nat)
    requires ConfigOk(cfg) && c < |cfg|
    decreases c
  {
    c != 0 && (p == c || Around(cfg, p, cfg[c].parent))
  }

  lemma {:induction false} AroundFacts(cfg: Config, p: nat, c: nat)
    requires ConfigOk(cfg) && c < |cfg| && Around(cfg, p, c)
    ensures 0 < p <= c && (cfg[p].parent == 0 || Around(cfg, cfg[p].parent, c))
    ensures p != c ==> Around(cfg, p, cfg[c].parent) && p <= cfg[c].parent
    decreases c
  {
    if p != c {
      AroundFacts(cfg, p, cfg[c].parent);
    }
  }

  /** Blocks around a block are on different levels. */
  lemma {:induction false} AroundDiffer(cfg: Config, p: nat, q: nat, c: nat)
    requires ConfigOk(cfg) && c < |cfg| && p < |cfg| && q < |cfg|
    requires Around(cfg, p, c) && Around(cfg, q, c) && cfg[p].parent == cfg[q].parent
    ensures p == q
    decreases c
  {
    AroundFacts(cfg, p, c);
    AroundFacts(cfg, q, c);
    if p != c && q != c {
      AroundDiffer(cfg, p, q, cfg[c].parent);
    }
  }

  /** The conditions that hold in the runs below: those around block `x`, and that of a later
      brother `b`. */
  predicate Chosen(cfg: Config, x: nat, b: nat, c: nat)
    requires ConfigOk(cfg) && x < |cfg|
  {
    Around(cfg, c, x) || c == b
  }

  function Choice(cfg: Config, x: nat, b: nat): (raw: seq<bool>)
    requires ConfigOk(cfg) && x < |cfg|
    ensures |raw| == |cfg|
  {
    seq(|cfg|, c requires 0 <= c < |cfg| => Chosen(cfg, x, b, c))
  }

  predicate Pair(cfg: Config, x: nat, b: nat) {
    ConfigOk(cfg) && 0 < x < b < |cfg| && cfg[x].parent == cfg[b].parent
  }

  /** Nothing makes `b` false: it does not come after `x`, or `x` cannot be decided. */
  predicate Spared(cfg: Config, x: nat, b: nat, valid: Fields)
    requires Pair(cfg, x, b)
  {
    !After(cfg, b, x) || cfg[x].comp !in valid
  }

  /** Only a chosen block is true; none around `x` is false; and `b` is not if it is spared. */
  ghost predicate ChoiceInv(cfg: Config, x: nat, b: nat, valid: Fields, k: seq<Result>)
    requires Pair(cfg, x, b)
  {
    && |k| == |cfg|
    && (forall c: nat :: 0 < c < |cfg| && k[c] == TRUE ==> Chosen(cfg, x, b, c) && cfg[c].comp in valid)
    && (forall c: nat :: 0 < c < |cfg| && Around(cfg, c, x) ==> k[c] != FALSE)
    && (Spared(cfg, x, b, valid) ==> k[b] != FALSE)
  }

  /** A chosen block does not stand after another one in a chain, except `b` after `x`. */
  lemma ChosenApart(cfg: Config, x: nat, b: nat, c: nat, d: nat)
    requires Pair(cfg, x, b) && c < |cfg| && d < |cfg| && Chosen(cfg, x, b, c) && Chosen(cfg, x, b, d)
    requires 0 < c < d && cfg[c].parent == cfg[d].parent
    ensures d == b && c == x
  {
    if Around(cfg, c, x) && Around(cfg, d, x) {
      AroundDiffer(cfg, c, d, x);
    } else if Around(cfg, c, x) {
      AroundDiffer(cfg, c, x, x);
    } else if Around(cfg, d, x) {
      AroundFacts(cfg, d, x);
    }
  }

  /** In such a run everything around `x` is true as soon as it is checked. */
  lemma {:induction false} ChoiceKeeps(cfg: Config, x: nat, b: nat, valid: Fields, k: seq<Result>, c: nat)
    requires Pair(cfg, x, b) && ChoiceInv(cfg, x, b, valid, k) && 0 < c < |cfg|
    requires forall p: nat :: 0 < p < |cfg| && Around(cfg, p, cfg[x].parent) ==> cfg[p].comp in valid
    ensures var now := Cached(cfg, Choice(cfg, x, b), valid, k, c);
      && ChoiceInv(cfg, x, b, valid, now)
      && (Around(cfg, c, x) && cfg[c].comp in valid ==> now[c] == TRUE)
      && (c == b && Spared(cfg, x, b, valid) && cfg[b].comp in valid ==> now[b] == TRUE)
    decreases c
  {
    if k[c] == UNSET {
      var raw := Choice(cfg, x, b);
      var blk := cfg[c];
      var one := if blk.parent == 0 then k else Cached(cfg, raw, valid, k, blk.parent);
      if blk.parent != 0 {
        ChoiceKeeps(cfg, x, b, valid, k, blk.parent);
      }
      var two := if blk.prev == 0 then one else Cached(cfg, raw, valid, one, blk.prev);
      if blk.prev != 0 {
        ChoiceKeeps(cfg, x, b, valid, one, blk.prev);
      }
      ChoiceParent(cfg, x, b, c);
      var (last, r) := NoCache(cfg, raw, valid, k, c);
      assert ChoiceInv(cfg, x, b, valid, last);
      assert r == TRUE ==> Chosen(cfg, x, b, c) && cfg[c].comp in valid;
      ChoiceStores(cfg, x, b, valid, last, c, r);
    }
  }

  /** The parent of a chosen block is around `x`, or there is none. */
  lemma ChoiceParent(cfg: Config, x: nat, b: nat, c: nat)
    requires Pair(cfg, x, b) && 0 < c < |cfg|
    ensures Chosen(cfg, x, b, c) && cfg[c].parent != 0 ==>
      Around(cfg, cfg[c].parent, x) && Around(cfg, cfg[c].parent, cfg[x].parent)
  {
    if Around(cfg, c, x) {
      AroundFacts(cfg, c, x);
    }
    if cfg[x].parent != 0 {
      assert Around(cfg, cfg[x].parent, x) && Around(cfg, cfg[x].parent, cfg[x].parent);
    }
    if Chosen(cfg, x, b, c) && cfg[c].parent != 0 {
      AroundFacts(cfg, cfg[c].parent, x);
    }
  }

  lemma ChoiceStores(cfg: Config, x: nat, b: nat, valid: Fields, k: seq<Result>, c: nat, r: Result)
    requires Pair(cfg, x, b) && ChoiceInv(cfg, x, b, valid, k) && 0 < c < |cfg|
    requires r == TRUE ==> Chosen(cfg, x, b, c) && cfg[c].comp in valid
    requires r == FALSE ==> !Around(cfg, c, x) && (c == b ==> !Spared(cfg, x, b, valid))
    ensures var now := if r == TRUE then Settled(cfg, k, c) else k[c := r];
      ChoiceInv(cfg, x, b, valid, now) && now[c] == r
  {
    if r == TRUE {
      var now := Settled(cfg, k, c);
      forall d: nat | 0 < d < |cfg|
        ensures now[d] == TRUE ==> Chosen(cfg, x, b, d) && cfg[d].comp in valid
        ensures Around(cfg, d, x) ==> now[d] != FALSE
        ensures d == b && Spared(cfg, x, b, valid) ==> now[d] != FALSE
      {
        SettledIs(cfg, k, c, d);
        if After(cfg, d, c) && Chosen(cfg, x, b, d) {
          ChosenApart(cfg, x, b, c, d);
          if Around(cfg, d, x) {
            AroundFacts(cfg, d, x);
          }
        }
      }
      SettledIs(cfg, k, c, c);
    }
  }

  lemma {:induction false} AllFalseIf(cfg: Config, raw: seq<bool>, p: nat)
    requires ConfigOk(cfg) && |raw| == |cfg| && p < |cfg|
    requires forall y: nat :: 0 < y < |cfg| && (y == p || Before(cfg, y, p)) ==> !raw[y]
    ensures AllFalse(cfg, raw, p)
    decreases p
  {
    if p > 0 {
      AllFalseIf(cfg, raw, cfg[p].prev);
    }
  }

  /** What the choice means: everything around `x` applies, and `b` does if `x` is not before it. */
  lemma {:induction false} ChoiceTaken(cfg: Config, x: nat, b: nat, c: nat)
    requires Pair(cfg, x, b) && c < |cfg| && (c == 0 || Around(cfg, c, x) || (c == b && !Before(cfg, x, b)))
    ensures Taken(cfg, Choice(cfg, x, b), c)
    decreases c
  {
    if c > 0 {
      var raw := Choice(cfg, x, b);
      ChoiceParent(cfg, x, b, c);
      ChoiceTaken(cfg, x, b, cfg[c].parent);
      forall y: nat | 0 < y < |cfg| && (y == cfg[c].prev || Before(cfg, y, cfg[c].prev)) ensures !raw[y] {
        assert Before(cfg, y, c);
        BeforeFacts(cfg, y, c);
        if Chosen(cfg, x, b, y) {
          ChosenApart(cfg, x, b, y, c);
          if Around(cfg, c, x) {
            AroundFacts(cfg, c, x);
          }
        }
      }
      AllFalseIf(cfg, raw, cfg[c].prev);
    }
  }

  lemma ChoiceNotTaken(cfg: Config, x: nat, b: nat)
    requires Pair(cfg, x, b) && Before(cfg, x, b)
    ensures !Taken(cfg, Choice(cfg, x, b), b)
  {
    assert Around(cfg, x, x);
    AllFalseBefore(cfg, Choice(cfg, x, b), x, b);
  }

  /** The run that checks one block. */
  lemma OneCheck(cfg: Config, raw: seq<bool>, valid: Fields, c: nat)
    requires ConfigOk(cfg) && |raw| == |cfg| && 0 < c < |cfg| && AlwaysAgrees(cfg, valid)
    ensures Agrees(cfg, raw, Cached(cfg, raw, valid, Fresh(cfg), c))
  {
    var events := Checks([c]);
    assert ChecksOk(cfg, [c]) && events[0] == Check(c) && events[1..] == [];
    var r := Run(cfg, raw, valid, Fresh(cfg), events);
    assert r == Run(cfg, raw, valid, Cached(cfg, raw, valid, Fresh(cfg), c), events[1..]);
  }

  lemma {:induction false} KnownAround(cfg: Config, valid: Fields, c: nat, p: nat)
    requires ConfigOk(cfg) && c < |cfg| && AllKnown(cfg, valid, c) && Around(cfg, p, c)
    ensures p < |cfg| && cfg[p].comp in valid
    decreases c
  {
    if p != c {
      KnownAround(cfg, valid, cfg[c].parent, p);
    }
  }

  /** If `x` is before `b` but nothing makes `b` false, checking `b` goes wrong. */
  lemma UnmarkedDisagrees(cfg: Config, x: nat, b: nat, valid: Fields)
    requires Pair(cfg, x, b) && Before(cfg, x, b) && Spared(cfg, x, b, valid) && AllKnown(cfg, valid, b)
    ensures !AlwaysAgrees(cfg, valid)
  {
    var raw := Choice(cfg, x, b);
    forall p: nat | 0 < p < |cfg| && Around(cfg, p, cfg[x].parent) ensures cfg[p].comp in valid {
      KnownAround(cfg, valid, cfg[b].parent, p);
    }
    ChoiceKeeps(cfg, x, b, valid, Fresh(cfg), b);
    ChoiceNotTaken(cfg, x, b);
    if AlwaysAgrees(cfg, valid) {
      OneCheck(cfg, raw, valid, b);
    }
  }

  /** If `b` comes after `x` without looking back on it, checking `x` goes wrong. */
  lemma MarkedDisagrees(cfg: Config, x: nat, b: nat, valid: Fields)
    requires Pair(cfg, x, b) && After(cfg, b, x) && !Before(cfg, x, b) && AllKnown(cfg, valid, x)
    ensures !AlwaysAgrees(cfg, valid)
  {
    var raw := Choice(cfg, x, b);
    forall p: nat | 0 < p < |cfg| && Around(cfg, p, cfg[x].parent) ensures cfg[p].comp in valid {
      KnownAround(cfg, valid, cfg[x].parent, p);
    }
    assert Around(cfg, x, x);
    ChoiceKeeps(cfg, x, b, valid, Fresh(cfg), x);
    var (two, r) := NoCache(cfg, raw, valid, Fresh(cfg), x);
    SettledIs(cfg, two, x, x);
    SettledIs(cfg, two, x, b);
    ChoiceTaken(cfg, x, b, b);
    if AlwaysAgrees(cfg, valid) {
      OneCheck(cfg, raw, valid, x);
    }
  }

  /** All request fields that the configuration asks for. */
  function AllFields(cfg: Config): Fields {
    set c | 0 <= c < |cfg| :: cfg[c].comp
  }

  lemma {:induction false} AllFieldsKnown(cfg: Config, c: nat)
    requires ConfigOk(cfg) && c < |cfg|
    ensures AllKnown(cfg, AllFields(cfg), c)
    decreases c
  {
    if c > 0 {
      AllFieldsKnown(cfg, cfg[c].parent);
    }
  }

  /** With the whole request known, the cache is right in every run exactly if looking back and
      looking ahead show the same chains. */
  lemma AgreesIffMatched(cfg: Config)
    requires ConfigOk(cfg)
    ensures AlwaysAgrees(cfg, AllFields(cfg)) <==> Matched(cfg)
  {
    var valid := AllFields(cfg);
    if Matched(cfg) {
      OrderedAgrees(cfg, valid);
    }
    forall x: nat, b: nat | x < |cfg| && b < |cfg| && AlwaysAgrees(cfg, valid) ensures After(cfg, b, x) <==>
      Before(cfg, x, b) {
      AllFieldsKnown(cfg, b);
      AllFieldsKnown(cfg, x);
      if After(cfg, b, x) {
        AfterFacts(cfg, b, x);
        if !Before(cfg, x, b) {
          MarkedDisagrees(cfg, x, b, valid);
        }
      } else if Before(cfg, x, b) {
        BeforeFacts(cfg, x, b);
        UnmarkedDisagrees(cfg, x, b, valid);
      }
    }
  }

  /** With part of the request known, the cache is right in every run exactly if no block can be
      decided before its earlier brother. */
  lemma AgreesIffOrdered(cfg: Config, valid: Fields)
    requires ConfigOk(cfg) && Matched(cfg)
    ensures AlwaysAgrees(cfg, valid) <==> Ordered(cfg, valid)
  {
    if Ordered(cfg, valid) {
      OrderedAgrees(cfg, valid);
    }
    forall c: nat | 0 < c < |cfg| && AllKnown(cfg, valid, c) && cfg[c].prev != 0 && AlwaysAgrees(cfg, valid)
      ensures cfg[cfg[c].prev].comp in valid
    {
      var x := cfg[c].prev;
      assert Before(cfg, x, c);
      if cfg[x].comp !in valid {
        UnmarkedDisagrees(cfg, x, c, valid);
      }
    }
  }

  /** How links come apart: block 1 is followed by `else` block 2, and elsewhere, opened again, by
      `else` block 3.  Block 1 now looks ahead to block 3 only, and blocks 1 and 2 can both be true. */
  lemma ReopenedBlock()
    ensures var cfg := [Block(0, 0, 0, 0), Block(0, 0, 3, 0), Block(0, 1, 0, 0), Block(0, 1, 0, 0)];
      ConfigOk(cfg) && !Matched(cfg) && !AlwaysAgrees(cfg, AllFields(cfg))
  {
    var cfg := [Block(0, 0, 0, 0), Block(0, 0, 3, 0), Block(0, 1, 0, 0), Block(0, 1, 0, 0)];
    assert Before(cfg, 1, 2) && !After(cfg, 2, 1);
    AgreesIffMatched(cfg);
  }
}
