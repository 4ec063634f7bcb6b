/** buffer_path_simplify: one pass over a path, possibly in place, that resolves `.` and `..`. */
module Paths {
  import opened Octets
  import opened Buffers

  type Path = Bytes

  const SLASH: Byte := 47
  const DOT: Byte := 46
  const SPACE: Byte := 32

  // ----- what simplification means

  /** The segments between slashes: always at least one. */
  function Split(s: Path): (segs: seq<Path>)
    ensures |segs| > 0
  {
    if s == [] then [[]]
    else
      var segs := Split(s[..|s| - 1]);
      var c := s[|s| - 1];
      if c == SLASH then segs + [[]] else Extend(segs, c)
  }

  /** One more byte in the last segment. */
  function Extend(segs: seq<Path>, c: Byte): (now: seq<Path>)
    requires |segs| > 0
    ensures |now| == |segs|
  {
    segs[..|segs| - 1] + [segs[|segs| - 1] + [c]]
  }

  /** The segment names no entry of its own. */
  predicate Special(seg: Path) {
    seg == [] || seg == [DOT] || seg == [DOT, DOT]
  }

  /** The directory stack after one more segment; the root has no parent. */
  function Enter(stack: seq<Path>, seg: Path): seq<Path> {
    if seg == [] || seg == [DOT] then stack
    else if seg == [DOT, DOT] then (if stack == [] then [] else stack[..|stack| - 1])
    else stack + [seg]
  }

  function Walk(segs: seq<Path>): seq<Path> {
    if segs == [] then [] else Enter(Walk(segs[..|segs| - 1]), segs[|segs| - 1])
  }

  function Render(stack: seq<Path>): Path {
    if stack == [] then [] else Render(stack[..|stack| - 1]) + [SLASH] + stack[|stack| - 1]
  }

  /** The path without its leading slash, if it has one. */
  function Body(s: Path): Path {
    if s != [] && s[0] == SLASH then s[1..] else s
  }

  /** The simplified path: the entries on the stack, and a slash at the end if the last segment
      named no entry. */
  function Simplify(s: Path): Path {
    var segs := Split(Body(s));
    Render(Walk(segs)) + if Special(segs[|segs| - 1]) then [SLASH] else []
  }

  function Stripped(s: Path): Path {
    if s != [] && s[0] == SPACE then Stripped(s[1..]) else s
  }

  // ----- simplified paths stay as they are

  /** A segment that has been kept: not special, and without slashes. */
  predicate Entry(seg: Path) {
    !Special(seg) && SLASH !in seg
  }

  ghost predicate Entries(stack: seq<Path>) {
    forall i :: 0 <= i < |stack| ==> Entry(stack[i])
  }

  lemma {:induction false} SplitNoSlash(s: Path)
    ensures forall i :: 0 <= i < |Split(s)| ==> SLASH !in Split(s)[i]
  {
    if s != [] {
      SplitNoSlash(s[..|s| - 1]);
    }
  }

  lemma {:induction false} WalkEntries(segs: seq<Path>)
    requires forall i :: 0 <= i < |segs| ==> SLASH !in segs[i]
    ensures Entries(Walk(segs))
  {
    if segs != [] {
      WalkEntries(segs[..|segs| - 1]);
    }
  }

  /** The segments of two strings written one after the other. */
  function Join(x: seq<Path>, y: seq<Path>): (z: seq<Path>)
    requires |x| > 0 && |y| > 0
    ensures |z| == |x| + |y| - 1
  {
    x[..|x| - 1] + [x[|x| - 1] + y[0]] + y[1..]
  }

  lemma JoinMore(x: seq<Path>, y: seq<Path>, seg: Path)
    requires |x| > 0 && |y| > 0
    ensures Join(x, y + [seg]) == Join(x, y) + [seg]
  {
    assert (y + [seg])[1..] == y[1..] + [seg];
  }

  lemma JoinExtend(x: seq<Path>, y: seq<Path>, c: Byte)
    requires |x| > 0 && |y| > 0
    ensures Join(x, Extend(y, c)) == Extend(Join(x, y), c)
  {
    if |y| == 1 {
      assert x[|x| - 1] + (y[0] + [c]) == x[|x| - 1] + y[0] + [c];
    } else {
      assert Extend(y, c)[1..] == Extend(y[1..], c);
    }
  }

  lemma JoinEmpty(x: seq<Path>, y: seq<Path>)
    requires |x| > 0 && |y| > 0
    ensures y[0] == [] ==> Join(x, y) == x + y[1..]
    ensures x[|x| - 1] == [] ==> Join(x, y) == x[..|x| - 1] + y
  {
    assert x[|x| - 1] + [] == x[|x| - 1] && [] + y[0] == y[0];
    assert x[..|x| - 1] + [x[|x| - 1]] == x && [y[0]] + y[1..] == y;
  }

  lemma {:induction false} SplitConcat(a: Path, b: Path)
    ensures Split(a + b) == Join(Split(a), Split(b))
  {
    if b == [] {
      assert a + b == a;
      JoinEmpty(Split(a), Split(b));
    } else {
      var c, b' := b[|b| - 1], b[..|b| - 1];
      assert (a + b)[..|a + b| - 1] == a + b' && (a + b)[|a + b| - 1] == c;
      SplitConcat(a, b');
      JoinMore(Split(a), Split(b'), []);
      JoinExtend(Split(a), Split(b'), c);
    }
  }

  lemma SplitOneSlash()
    ensures Split([SLASH]) == [[], []]
  {
    assert [SLASH][..0] == [];
  }

  lemma {:induction false} SplitPlain(s: Path)
    requires SLASH !in s
    ensures Split(s) == [s]
  {
    if s != [] {
      SplitPlain(s[..|s| - 1]);
      assert s == s[..|s| - 1] + [s[|s| - 1]];
    }
  }

  lemma SplitSlash(seg: Path)
    requires SLASH !in seg
    ensures Split([SLASH] + seg) == [[], seg]
  {
    SplitPlain(seg);
    SplitOneSlash();
    SplitConcat([SLASH], seg);
    JoinEmpty([[], []], [seg]);
  }

  lemma SplitMore(s: Path, seg: Path)
    requires SLASH !in seg
    ensures Split(s + ([SLASH] + seg)) == Split(s) + [seg]
  {
    SplitConcat(s, [SLASH] + seg);
    SplitSlash(seg);
    JoinEmpty(Split(s), [[], seg]);
    assert [[], seg][1..] == [seg];
  }

  /** Rendering and splitting are inverse. */
  lemma {:induction false} SplitRender(stack: seq<Path>)
    requires Entries(stack)
    ensures Split(Render(stack)) == [[]] + stack
  {
    if stack != [] {
      var below, seg := stack[..|stack| - 1], stack[|stack| - 1];
      assert Entries(below) && SLASH !in seg;
      assert Render(stack) == Render(below) + ([SLASH] + seg);
      assert stack == below + [seg];
      SplitRender(below);
      hide *;
      SplitMore(Render(below), seg);
      assert [[]] + stack == [[]] + below + [seg];
    }
  }

  lemma {:induction false} WalkKeeps(stack: seq<Path>)
    requires Entries(stack)
    ensures Walk([[]] + stack) == stack
  {
    if stack == [] {
      assert Walk([[]]) == Enter(Walk([[]][..0]), []);
    } else {
      WalkKeeps(stack[..|stack| - 1]);
      assert ([[]] + stack)[..|stack|] == [[]] + stack[..|stack| - 1];
    }
  }

  lemma {:induction false} RenderBegins(stack: seq<Path>)
    ensures stack != [] ==> Render(stack) != [] && Render(stack)[0] == SLASH
  {
    if stack != [] {
      RenderBegins(stack[..|stack| - 1]);
    }
  }

  /** A body without its leading slash has the same segments, but for an empty first one. */
  lemma SplitBody(r: Path)
    requires r != [] && r[0] == SLASH
    ensures Split(r) == [[]] + Split(r[1..])
  {
    SplitConcat([SLASH], r[1..]);
    SplitOneSlash();
    assert [SLASH] + r[1..] == r;
    JoinEmpty([[], []], Split(r[1..]));
  }

  lemma {:induction false} WalkEmptyFirst(segs: seq<Path>)
    ensures Walk([[]] + segs) == Walk(segs)
  {
    if segs == [] {
      assert Walk([[]]) == Enter(Walk([[]][..0]), []);
    } else {
      WalkEmptyFirst(segs[..|segs| - 1]);
      assert ([[]] + segs)[..|segs|] == [[]] + segs[..|segs| - 1];
    }
  }

  /** What a simplified path looks like: entries, and perhaps a slash at the end. */
  lemma SimplifyAgain(stack: seq<Path>, slash: bool)
    requires Entries(stack) && (stack == [] ==> slash)
    ensures var r := Render(stack) + if slash then [SLASH] else []; r != [] && r[0] == SLASH && Simplify(r) == r
  {
    var r := Render(stack) + if slash then [SLASH] else [];
    RenderBegins(stack);
    SplitRender(stack);
    WalkKeeps(stack);
    if slash {
      assert (Render(stack) + [SLASH])[..|Render(stack)|] == Render(stack);
      assert Split(r) == [[]] + stack + [[]];
      assert Walk(Split(r)) == stack by {
        assert ([[]] + stack + [[]])[..|stack| + 1] == [[]] + stack;
      }
    } else {
      assert r == Render(stack);
    }
    SplitBody(r);
    WalkEmptyFirst(Split(r[1..]));
    assert Body(r) == r[1..];
  }

  /** Nothing is left to resolve: behind the leading slash come only entries, and an empty segment
      at most at the end. */
  lemma SimplifyClean(s: Path)
    ensures var segs := Split(Simplify(s));
      && segs[0] == [] && (forall i :: 1 <= i < |segs| - 1 ==> Entry(segs[i]))
      && |segs| > 1 && (segs[|segs| - 1] == [] || Entry(segs[|segs| - 1]))
  {
    var segs := Split(Body(s));
    var stack := Walk(segs);
    SplitNoSlash(Body(s));
    WalkEntries(segs);
    SplitRender(stack);
    if Special(segs[|segs| - 1]) {
      assert (Render(stack) + [SLASH])[..|Render(stack)|] == Render(stack);
    } else {
      assert Simplify(s) == Render(stack);
      assert stack[|stack| - 1] == segs[|segs| - 1];
    }
  }

  /** Simplifying is idempotent, and a simplified path is absolute. */
  lemma SimplifyIdempotent(s: Path)
    ensures Simplify(Simplify(s)) == Simplify(s) && Simplify(s) != [] && Simplify(s)[0] == SLASH
  {
    var segs := Split(Body(s));
    SplitNoSlash(Body(s));
    WalkEntries(segs);
    SimplifyAgain(Walk(segs), Special(segs[|segs| - 1]));
  }

  // ----- the one-pass rewriter

  /** `pre << 8 | b` in 16 bits, where `b` is a signed char: a byte above 127 sets the whole upper half. */
  function Shifted(pre: int, b: Byte): int {
    if b < 128 then pre % 256 * 256 + b else 0xFF00 + b
  }

  /** `pre` tells the last two bytes of the token `t`. */
  predicate Tells(pre: int, t: Path) {
    && |t| > 0 && pre % 256 == t[|t| - 1]
    && (|t| > 1 && t[|t| - 1] < 128 ==> pre == 256 * (t[|t| - 2] as int) + t[|t| - 1])
    && (|t| > 1 && t[|t| - 1] >= 128 ==> pre == 0xFF00 + (t[|t| - 1] as int))
  }

  /** The segments completed in `p`, as a directory stack. */
  function Completed(p: Path): seq<Path> {
    Walk(Split(p)[..|Split(p)| - 1])
  }

  /** The segment that `p` leaves open. */
  function Open(p: Path): Path {
    Split(p)[|Split(p)| - 1]
  }

  lemma OpenFacts(p: Path)
    ensures SLASH !in Open(p) && Entries(Completed(p))
    ensures Walk(Split(p)) == Enter(Completed(p), Open(p))
  {
    SplitNoSlash(p);
    WalkEntries(Split(p)[..|Split(p)| - 1]);
  }

  lemma OpenMore(p: Path, c: Byte)
    ensures c == SLASH ==> Open(p + [c]) == [] && Completed(p + [c]) == Enter(Completed(p), Open(p))
    ensures c != SLASH ==> Open(p + [c]) == Open(p) + [c] && Completed(p + [c]) == Completed(p)
  {
    assert (p + [c])[..|p|] == p;
    var segs := Split(p);
    if c == SLASH {
      assert (segs + [[]])[..|segs|] == segs;
    } else {
      assert Extend(segs, c)[..|segs| - 1] == segs[..|segs| - 1];
    }
  }

  lemma RenderTop(stack: seq<Path>)
    requires stack != []
    ensures Render(stack) == Render(stack[..|stack| - 1]) + ([SLASH] + stack[|stack| - 1])
  {
  }

  /** The tests of the source recognise the special segments. */
  lemma TokenKinds(pre: int, seg: Path)
    requires SLASH !in seg && Tells(pre, [SLASH] + seg)
    ensures |seg| + 1 == 3 && pre == 0x2E2E <==> seg == [DOT, DOT]
    ensures |seg| + 1 == 1 || pre == 0x2F2E <==> seg == [] || seg == [DOT]
  {
    var t := [SLASH] + seg;
    if |seg| > 1 {
      assert seg[|seg| - 2] in seg && t[|t| - 2] == seg[|seg| - 2];
    }
  }

  /** From a slash back to the one before it. */
  method StepBack(d: array<Byte>, slash: nat, ghost stack: seq<Path>) returns (now: nat)
    requires Entries(stack) && slash == |Render(stack)| <= d.Length && d[..slash] == Render(stack)
    ensures now <= slash && d[..now] == Render(Enter(stack, [DOT, DOT]))
    ensures now < d.Length && stack != [] ==> d[now] == SLASH
  {
    now := slash;
    if now > 0 {
      now := now - 1;
      RenderTop(stack);
      ghost var below, top := Render(stack[..|stack| - 1]), stack[|stack| - 1];
      assert SLASH !in top;
      ghost var all := d[..slash];
      assert |all| == |below| + 1 + |top| && all[..|below|] == below && all[|below|] == SLASH
        && all[|below| + 1..] == top;
      forall j | |below| < j < slash ensures d[j] != SLASH {
        assert all[j] == top[j - |below| - 1];
      }
      assert d[|below|] == SLASH;
      while now > 0 && d[now] != SLASH
        invariant |below| <= now < slash
      {
        now := now - 1;
      }
      assert d[..now] == all[..now];
    }
  }

  /** What comes of the token between `slash` and `out` when a slash or the end has been read: the
      open segment enters the stack. */
  method CloseToken(d: array<Byte>, slash: nat, out: nat, c: Byte, pre: int, ghost stack: seq<Path>, ghost seg: Path)
    returns (now: nat)
    requires Entries(stack) && SLASH !in seg && slash <= out <= d.Length && d.Length > 0
    requires slash == |Render(stack)| && d[..out] == Render(stack) + ([SLASH] + seg) && Tells(pre, [SLASH] + seg)
    ensures now <= out
    ensures d[..now] == Render(Enter(stack, seg)) + if c == 0 && Special(seg) then [SLASH] else []
  {
    now := out;
    var toklen := out - slash;
    assert toklen == |seg| + 1 && d[..slash] == Render(stack) && d[slash] == SLASH && d[0] == SLASH by {
      assert d[..out][slash] == SLASH;
      RenderBegins(stack);
      assert stack == [] || d[..out][0] == Render(stack)[0];
    }
    TokenKinds(pre, seg);
    if toklen == 3 && pre == 0x2E2E {
      now := StepBack(d, slash, stack);
      if c == 0 {
        assert d[now] == SLASH;
        now := now + 1;
      }
    } else if toklen == 1 || pre == 0x2F2E {
      now := slash;
      if c == 0 {
        now := now + 1;
      }
    } else {
      RenderTop(stack + [seg]);
      assert (stack + [seg])[..|stack|] == stack;
    }
  }

  /** The bytes before `out` are those of the path read so far: the completed segments, simplified,
      and the open one as it is. */
  ghost predicate Written(d: array<Byte>, slash: nat, out: nat, pre: int, p: Path)
    reads d
  {
    && slash <= out <= d.Length && slash == |Render(Completed(p))|
    && d[..out] == Render(Completed(p)) + ([SLASH] + Open(p)) && Tells(pre, [SLASH] + Open(p))
  }

  /** A slash or another byte goes into the output. */
  lemma WrittenMore(slash: nat, was: Path, pre: int, p: Path, c: Byte)
    requires if c == SLASH then was == Render(Enter(Completed(p), Open(p)))
             else was == Render(Completed(p)) + ([SLASH] + Open(p)) && Tells(pre, [SLASH] + Open(p))
    ensures was + [c] == Render(Completed(p + [c])) + ([SLASH] + Open(p + [c]))
    ensures Tells(Shifted(pre, c), [SLASH] + Open(p + [c]))
  {
    OpenMore(p, c);
    var t, u := [SLASH] + Open(p), [SLASH] + Open(p + [c]);
    if c != SLASH {
      assert u == t + [c];
    }
  }

  /** The loop of buffer_path_simplify, over the C string `orig` of length `n`; `d` may be `s`. */
  method Rewrite(d: array<Byte>, s: array<Byte>, ghost orig: Path, start: nat, c0: Byte, out0: nat, pre0: int,
                 ghost from: nat)
    returns (out: nat)
    requires |orig| < s.Length && |orig| + 2 <= d.Length && 0 !in orig
    requires from <= start <= |orig| && out0 <= start + 1 && c0 == (orig + [0])[start]
    requires forall i :: start < i <= |orig| ==> s[i] == (orig + [0])[i]
    requires Written(d, 0, out0, pre0, orig[from..start])
    modifies d
    ensures out <= |orig| + 1
      && d[..out] == Render(Walk(Split(orig[from..]))) + if Special(Open(orig[from..])) then [SLASH] else []
    ensures s != d ==> s[..] == old(s[..])
  {
    hide Render, Walk, Split, Enter, Tells, Entries, Completed, Open, Special, Shifted;
    var walk, slash, pre, c := start + 1, 0, pre0, c0;
    out := out0;
    while true
      invariant start < walk <= |orig| + 1 && out <= walk && c == (orig + [0])[walk - 1]
      invariant forall i :: walk <= i <= |orig| ==> s[i] == (orig + [0])[i]
      invariant Written(d, slash, out, pre, orig[from..walk - 1])
      invariant s != d ==> s[..] == old(s[..])
      decreases |orig| + 1 - walk
    {
      ghost var p := orig[from..walk - 1];
      OpenFacts(p);
      if c == SLASH || c == 0 {
        out := CloseToken(d, slash, out, c, pre, Completed(p), Open(p));
        slash := out;
      }
      if c == 0 {
        assert p == orig[from..];
        break;
      }
      assert walk <= |orig| && orig[from..walk] == p + [c];
      ghost var was := d[..out];
      WrittenMore(slash, was, pre, p, c);
      OpenMore(p, c);
      var pre1 := c;
      pre := Shifted(pre, pre1);
      c := s[walk];
      d[out] := pre1;
      out := out + 1;
      walk := walk + 1;
      assert d[..out] == was + [pre1];
    }
  }

  lemma {:induction false} StrippedIs(s: Path, k: nat)
    requires k <= |s| && (forall i :: 0 <= i < k ==> s[i] == SPACE) && (k < |s| ==> s[k] != SPACE)
    ensures Stripped(s) == s[k..]
  {
    if k > 0 {
      StrippedIs(s[1..], k - 1);
    }
  }

  lemma NothingRead()
    ensures Completed([]) == [] && Open([]) == [] && Render([]) == []
  {
    assert Split([])[..0] == [];
  }

  /** After the first byte: a slash opens an empty segment, any other byte begins one. */
  lemma FirstByte(b: Byte, p: Path, pre: int)
    requires b != 0 && p == (if b == SLASH then [] else [b]) && pre == Shifted(if b == SLASH then 0 else SLASH, b)
    ensures Render(Completed(p)) == [] && Tells(pre, [SLASH] + Open(p))
    ensures Render(Completed(p)) + ([SLASH] + Open(p)) == if b == SLASH then [SLASH] else [SLASH, b]
  {
    hide Split, Walk, Completed, Open, Render;
    NothingRead();
    var empty: Path := [];
    if b != SLASH {
      OpenMore(empty, b);
      assert empty + [b] == [b];
      assert [SLASH] + [b] == [SLASH, b];
    }
  }

  lemma SimplifyNothing()
    ensures Simplify([]) == [SLASH]
  {
  }

  /** The segments of a path with one known first byte. */
  lemma SimplifyIs(s: Path, body: Path)
    requires s != [] && body == if s[0] == SLASH then s[1..] else s
    ensures Simplify(s) == Render(Walk(Split(body))) + if Special(Open(body)) then [SLASH] else []
  {
  }

  /** The body of buffer_path_simplify, from the C string `orig` in `s` to its simplified form in
      `d`; the arrays may be the same. */
  method Simplified(d: array<Byte>, s: array<Byte>, ghost orig: Path) returns (used: nat)
    requires |orig| < s.Length && |orig| + 2 <= d.Length && 0 !in orig && s[..|orig| + 1] == orig + [0]
    modifies d
    ensures s != d ==> s[..] == old(s[..])
    ensures var result := Simplify(Stripped(orig));
      && |result| + 1 <= d.Length && d[..|result| + 1] == result + [0] && |result| <= |orig| + 1
      && used == if Stripped(orig) == [] then 3 else |result| + 1
  {
    hide Simplify, Stripped, Render, Walk, Split, Completed, Open, Tells, Special, Shifted;
    assert forall i :: 0 <= i <= |orig| ==> s[i] == s[..|orig| + 1][i] == (orig + [0])[i];
    var walk := 0;
    while s[walk] == SPACE
      invariant walk <= |orig| && forall i :: 0 <= i < walk ==> orig[i] == SPACE
      decreases |orig| - walk
    {
      walk := walk + 1;
    }
    StrippedIs(orig, walk);
    ghost var from := walk;
    var pre1 := s[walk];
    walk := walk + 1;
    // The source reads the byte after the terminator of an empty string here, but does not use it.
    var c := if pre1 == 0 then 0 else s[walk];
    var pre := Shifted(0, pre1);
    var out := 0;
    if pre1 != SLASH {
      pre := Shifted(SLASH, pre1);
      d[out] := SLASH;
      out := out + 1;
    } else {
      from := walk;
    }
    d[out] := pre1;
    out := out + 1;
    if pre1 == 0 {
      used := out + 1;
      SimplifyNothing();
      assert d[..2] == [SLASH, 0];
      return;
    }
    ghost var p := orig[from..walk];
    FirstByte(pre1, p, pre);
    SimplifyIs(orig[walk - 1..], orig[from..]);
    assert d[..out] == if pre1 == SLASH then [SLASH] else [SLASH, pre1];
    out := Rewrite(d, s, orig, walk, c, out, pre, from);
    d[out] := 0;
    assert d[..out + 1] == d[..out] + [0];
    used := out + 1;
  }

  /** Space for the result, which may be one byte longer than the source. */
  method MakeRoom(dest: Buffer, src: Buffer) returns (ghost orig: Path)
    requires dest.Valid() && src.Terminated() && (dest != src ==> dest.ptr != src.ptr)
    modifies dest
    ensures dest.Valid() && (dest.ptr == old(dest.ptr) || fresh(dest.ptr))
    ensures dest != src ==> src.ptr == old(src.ptr) && dest.ptr != src.ptr && src.ptr[..] == old(src.ptr[..])
    ensures old(0 in src.Bytes()) && orig == old(CString(src.Bytes())) && 0 !in orig
    ensures |orig| < src.ptr.Length && src.ptr[..|orig| + 1] == orig + [0] && |orig| + 2 <= dest.ptr.Length
      && 3 <= dest.ptr.Length
  {
    ghost var bytes := src.Bytes();
    assert bytes[src.used - 1] == 0;
    orig := CString(bytes);
    hide CString;
    if src == dest {
      dest.PrepareAppend(1);
    } else {
      dest.PrepareCopy(src.used + 1);
    }
    assert src.ptr[..|orig| + 1] == bytes[..|orig| + 1] by {
      assert src == dest ==> src.Bytes() == bytes;
    }
  }

  /** buffer_path_simplify */
  method PathSimplify(dest: Buffer, src: Buffer) returns (r: int)
    requires dest.Valid() && src.Valid() && (src.ptr.Length > 0 ==> src.Terminated())
    requires dest != src ==> dest.ptr != src.ptr
    modifies dest, dest.ptr
    ensures dest.ptr == old(dest.ptr) || fresh(dest.ptr)
    ensures old(src.ptr.Length) == 0 ==>
      r == -1 && dest.ptr == old(dest.ptr) && dest.used == old(dest.used) && dest.ptr[..] == old(dest.ptr[..])
    ensures dest != src ==> src.ptr == old(src.ptr) && src.used == old(src.used) && src.ptr[..] == old(src.ptr[..])
    ensures old(src.ptr.Length) > 0 ==>
      r == 0 && dest.Valid() && old(0 in src.Bytes()) && IsResult(dest.ptr[..], dest.used, old(CString(src.Bytes())))
  {
    if src.ptr.Length == 0 {
      return -1;
    }
    ghost var orig := MakeRoom(dest, src);
    hide CString, Simplify, Stripped, IsResult;
    var used := Simplified(dest.ptr, src.ptr, orig);
    dest.used := used;
    ghost var result := Simplify(Stripped(orig));
    assert dest.ptr[..][..|result| + 1] == dest.ptr[..|result| + 1];
    StrippedBytes(orig);
    ResultClean(result, dest.ptr[..], orig, used);
    r := 0;
  }

  /** The buffer holds the simplified form of `orig` as a C string, at most one byte longer than
      `orig`; `used` counts its bytes and the terminator exactly if `orig` is not all spaces. */
  ghost predicate IsResult(a: Path, used: nat, orig: Path) {
    && 0 in a && CString(a) == Simplify(Stripped(orig)) && |CString(a)| <= |orig| + 1
    && (used == |CString(a)| + 1 <==> Stripped(orig) != [])
  }

  lemma {:induction false} StrippedBytes(s: Path)
    ensures forall b :: b in Stripped(s) ==> b in s
  {
    if s != [] && s[0] == SPACE {
      StrippedBytes(s[1..]);
    }
  }

  lemma {:induction false} SplitBytes(s: Path, b: Byte)
    requires b !in s
    ensures forall i :: 0 <= i < |Split(s)| ==> b !in Split(s)[i]
  {
    if s != [] {
      SplitBytes(s[..|s| - 1], b);
    }
  }

  lemma {:induction false} WalkBytes(segs: seq<Path>, b: Byte)
    requires (forall i :: 0 <= i < |segs| ==> b !in segs[i]) && b != SLASH
    ensures forall i :: 0 <= i < |Walk(segs)| ==> b !in Walk(segs)[i]
  {
    if segs != [] {
      WalkBytes(segs[..|segs| - 1], b);
    }
  }

  lemma {:induction false} RenderBytes(stack: seq<Path>, b: Byte)
    requires (forall i :: 0 <= i < |stack| ==> b !in stack[i]) && b != SLASH
    ensures b !in Render(stack)
  {
    if stack != [] {
      RenderBytes(stack[..|stack| - 1], b);
    }
  }

  lemma SimplifyBytes(s: Path, b: Byte)
    requires b !in s && b != SLASH
    ensures b !in Simplify(s)
  {
    SplitBytes(Body(s), b);
    WalkBytes(Split(Body(s)), b);
    RenderBytes(Walk(Split(Body(s))), b);
  }

  /** No terminator gets into a simplified path, so it is the C string of its buffer. */
  lemma ResultClean(result: Path, a: Path, orig: Path, used: nat)
    requires result == Simplify(Stripped(orig)) && 0 !in Stripped(orig) && |result| < |a|
      && a[..|result| + 1] == result + [0]
    requires |result| <= |orig| + 1 && used == if Stripped(orig) == [] then 3 else |result| + 1
    ensures IsResult(a, used, orig)
  {
    hide Simplify, Stripped, CString, Body, Render, Walk, Split;
    SimplifyBytes(Stripped(orig), 0);
    SimplifyNothing();
    assert a[|result|] == a[..|result| + 1][|result|] == 0;
    forall i | 0 <= i < |result| ensures a[i] != 0 {
      assert a[i] == a[..|result| + 1][i] == result[i];
    }
    CStringIs(a, |result|);
    assert a[..|result|] == a[..|result| + 1][..|result|];
  }
}
