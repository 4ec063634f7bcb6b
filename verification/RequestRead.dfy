/** Reading one request: the header and the body are taken out of the queue of what has arrived. */
module RequestRead {
  import opened Octets
  import opened Options
  import opened Chunks
  import H = Headers

  /** What reading from the network brings: nothing to read, some bytes (none if it would block), the
      end of the connection, or an error. */
  datatype Arrival = Nothing | Data(bytes: Bytes) | Closed | Failed

  datatype State = READ | REQUEST_END | READ_POST | HANDLE_REQUEST | ERROR

  const MAX_HEADER := 64 * 1024
  const UPLOAD_USING_TEMPFILE_THRESHOLD := 1024 * 1024
  const UPLOAD_TEMPFILE_MAXLENGTH := 16 * 1024 * 1024

  // ----- empty chunks

  predicate Empty(p: Piece) {
    p.content.data == []
  }

  /** The cleaning loop: leading empty chunks go, and then every empty chunk that follows one that
      has been looked at. */
  function Cleaned(ps: seq<Piece>): seq<Piece> {
    if ps == [] then [] else if Empty(ps[0]) then Cleaned(ps[1..]) else CleanedAfter(ps)
  }

  function CleanedAfter(ps: seq<Piece>): seq<Piece> {
    if ps == [] then []
    else if |ps| > 1 && Empty(ps[1]) then [ps[0]] + CleanedAfter(ps[2..])
    else [ps[0]] + CleanedAfter(ps[1..])
  }

  lemma {:induction false} CleanedAfterKeeps(ps: seq<Piece>)
    requires PiecesOk(ps)
    ensures PiecesOk(CleanedAfter(ps)) && Pending(CleanedAfter(ps)) == Pending(ps)
    ensures forall i :: 0 < i < |CleanedAfter(ps)| ==> exists j :: 0 < j < |ps| && CleanedAfter(ps)[i] == ps[j]
    ensures ps != [] ==> CleanedAfter(ps) != [] && CleanedAfter(ps)[0] == ps[0]
    decreases |ps|
  {
    if ps != [] {
      var rest := if |ps| > 1 && Empty(ps[1]) then ps[2..] else ps[1..];
      CleanedAfterKeeps(rest);
      if |ps| > 1 && Empty(ps[1]) {
        assert ps[1..][1..] == ps[2..];
        assert ps[1].Rest() == [];
      }
      var now := CleanedAfter(ps);
      forall i | 0 < i < |now| ensures exists j :: 0 < j < |ps| && now[i] == ps[j] {
        if i == 1 {
          assert now[1] == rest[0];
          assert rest[0] == ps[if |ps| > 1 && Empty(ps[1]) then 2 else 1];
        } else {
          assert now[i] == CleanedAfter(rest)[i - 1];
          var j :| 0 < j < |rest| && CleanedAfter(rest)[i - 1] == rest[j];
          assert rest[j] == ps[if |ps| > 1 && Empty(ps[1]) then j + 2 else j + 1];
        }
      }
    }
  }

  /** Cleaning loses nothing. */
  lemma {:induction false} CleanedKeeps(ps: seq<Piece>)
    requires PiecesOk(ps)
    ensures PiecesOk(Cleaned(ps)) && Pending(Cleaned(ps)) == Pending(ps)
    decreases |ps|
  {
    if ps != [] {
      if Empty(ps[0]) {
        CleanedKeeps(ps[1..]);
      } else {
        CleanedAfterKeeps(ps);
      }
    }
  }

  // ----- what the header search sees

  /** Only the first chunk of a read queue is partly read, and all are memory. */
  ghost predicate Fresh(ps: seq<Piece>) {
    forall i :: 0 <= i < |ps| ==> ps[i].content.MEM? && (i > 0 ==> ps[i].offset == 0)
  }

  ghost function Rests(ps: seq<Piece>): (vs: seq<Bytes>)
    requires PiecesOk(ps)
    ensures |vs| == |ps| && forall i :: 0 <= i < |vs| ==> vs[i] == ps[i].Rest()
  {
    seq(|ps|, i requires 0 <= i < |ps| => ps[i].Rest())
  }

  lemma {:induction false} RestsFlat(ps: seq<Piece>)
    requires PiecesOk(ps)
    ensures Concat(Rests(ps)) == Pending(ps)
  {
    if ps != [] {
      RestsFlat(ps[1..]);
      assert Rests(ps)[1..] == Rests(ps[1..]);
    }
  }

  /** What the cleaning loop has still to make of the queue from place `k` on. */
  function CleanedFrom(ps: seq<Piece>, k: nat): seq<Piece>
    requires k <= |ps|
  {
    if k == 0 then Cleaned(ps) else ps[..k] + CleanedAfter(ps[k..])
  }

  lemma CleanedStep(ps: seq<Piece>, k: nat)
    requires k < |ps|
    ensures k == 0 && Empty(ps[0]) ==> CleanedFrom(ps, 0) == CleanedFrom(ps[1..], 0)
    ensures (k > 0 || !Empty(ps[0])) && k + 1 < |ps| && Empty(ps[k + 1]) ==>
      CleanedFrom(ps, k) == CleanedFrom(Removed(ps, k + 1), k + 1)
    ensures (k > 0 || !Empty(ps[0])) && !(k + 1 < |ps| && Empty(ps[k + 1])) ==>
      CleanedFrom(ps, k) == CleanedFrom(ps, k + 1)
  {
    if k > 0 || !Empty(ps[0]) {
      CleanedAt(ps, k);
      if k + 1 < |ps| && Empty(ps[k + 1]) {
        RemovedNext(ps, k);
      }
    }
  }

  lemma CleanedAt(ps: seq<Piece>, k: nat)
    requires k < |ps| && (k > 0 || !Empty(ps[0]))
    ensures CleanedFrom(ps, k) ==
      ps[..k + 1] + CleanedAfter(if k + 1 < |ps| && Empty(ps[k + 1]) then ps[k + 2..] else ps[k + 1..])
  {
    var rest := ps[k..];
    assert ps[..k + 1] == ps[..k] + [ps[k]] && rest[1..] == ps[k + 1..];
    if k + 1 < |ps| {
      assert rest[2..] == ps[k + 2..];
    }
    assert CleanedAfter(rest) ==
      [ps[k]] + CleanedAfter(if k + 1 < |ps| && Empty(ps[k + 1]) then ps[k + 2..] else ps[k + 1..]);
    hide CleanedAfter;
    if k == 0 {
      assert rest == ps;
    }
  }

  lemma RemovedNext(ps: seq<Piece>, k: nat)
    requires k + 1 < |ps|
    ensures var now := Removed(ps, k + 1); now[..k + 1] == ps[..k + 1] && now[k + 1..] == ps[k + 2..]
  {
  }

  /** The cleaning loop is at chunk `c`, at place `k`, and has `goal` in mind. */
  ghost predicate Cleaning(cq: ChunkQueue, c: Chunk?, k: nat, goal: seq<Piece>)
    reads cq, cq.nodes, cq.spare
  {
    cq.Valid() && k <= |cq.nodes| && c == At(cq.nodes, k) && CleanedFrom(cq.Pieces(), k) == goal
  }

  /** One turn of the cleaning loop. */
  method CleanTurn(cq: ChunkQueue, c: Chunk, ghost k: nat, ghost goal: seq<Piece>) returns (d: Chunk?, ghost m: nat)
    requires Cleaning(cq, c, k, goal)
    modifies cq`first, cq`last, cq`unused, cq`unusedChunks, cq`nodes, cq`spare, cq.nodes`next
    ensures Cleaning(cq, d, m, goal) && cq.Repr() <= old(cq.Repr())
    ensures 0 <= |cq.nodes| - m < |old(cq.nodes)| - k
  {
    hide ChunkQueue.Valid, ChunkQueue.ListOk, ChunkQueue.SpareOk, PiecesOf, PiecesOk, ChunkQueue.Pieces, CleanedFrom,
      Cleaned, CleanedAfter, Removed;
    cq.Places(k);
    CleanedStep(cq.Pieces(), k);
    if cq.first == c && c.content.data == [] {
      cq.RetireFirst();
      cq.Parts();
      d, m := cq.first, 0;
    } else if c.next != null && c.next.content.data == [] {
      cq.RetireNext(c, k);
      cq.Places(k);
      d, m := c.next, k + 1;
    } else {
      d, m := c.next, k + 1;
    }
  }

  /** The cleaning loop at the head of connection_handle_read_state. */
  method CleanUp(cq: ChunkQueue)
    requires cq.Valid()
    modifies cq`first, cq`last, cq`unused, cq`unusedChunks, cq`nodes, cq`spare, cq.Repr()
    ensures cq.Valid() && cq.Pieces() == Cleaned(old(cq.Pieces())) && cq.Repr() <= old(cq.Repr())
  {
    cq.Parts();
    var c := cq.first;
    ghost var k: nat, goal := 0, Cleaned(cq.Pieces());
    assert Cleaning(cq, c, k, goal);
    hide Cleaning, CleanedFrom, Cleaned;
    while c != null
      invariant Cleaning(cq, c, k, goal) && k <= |cq.nodes| && cq.Repr() <= old(cq.Repr())
      decreases |cq.nodes| - k
    {
      c, k := CleanTurn(cq, c, k, goal);
    }
    CleanedEnd(cq, k, goal);
  }

  lemma CleanedEnd(cq: ChunkQueue, k: nat, goal: seq<Piece>)
    requires Cleaning(cq, null, k, goal)
    ensures cq.Valid() && cq.Pieces() == goal
  {
    CleanedDone(cq.Pieces(), k);
  }

  lemma CleanedDone(ps: seq<Piece>, k: nat)
    requires k == |ps|
    ensures CleanedFrom(ps, k) == ps
  {
  }

  // ----- the header

  /** The scan of one chunk for the beginning of an empty line.  `rest` is what the chunk holds, and
      `next` what the chunk behind it holds; the loop also looks at the terminator behind `rest`. */
  method ScanChunk(rest: Bytes, next: Bytes) returns (place: Option<nat>)
    ensures place == H.FirstIn(rest, next, 0)
  {
    var i := 0;
    while i < |rest|
      invariant i <= |rest| && H.FirstIn(rest, next, 0) == H.FirstIn(rest, next, i)
    {
      if rest[i] == 13 {
        var haveChars := |rest| - i;
        if haveChars >= 4 {
          AllHere(rest, next, i);
          if rest[i..i + 4] == H.END {
            return Some(i);
          }
        } else {
          var missingChars := 4 - haveChars;
          PartlyHere(rest, next, i);
          if |next| >= missingChars && rest[i..] == H.END[..haveChars] && next[..missingChars] == H.END[haveChars..] {
            return Some(i);
          }
        }
      } else {
        NotHere(rest, next, i);
      }
      i := i + 1;
    }
    place := None;
  }

  lemma AllHere(rest: Bytes, next: Bytes, i: nat)
    requires i + 4 <= |rest|
    ensures H.Occurs(rest + next, i) <==> rest[i..i + 4] == H.END
  {
    assert (rest + next)[i..i + 4] == rest[i..i + 4];
  }

  lemma PartlyHere(rest: Bytes, next: Bytes, i: nat)
    requires i < |rest| < i + 4
    ensures var have := |rest| - i;
      H.Occurs(rest + next, i) <==>
        |next| >= 4 - have && rest[i..] == H.END[..have] && next[..4 - have] == H.END[have..]
  {
    var have := |rest| - i;
    if |next| >= 4 - have {
      var s := (rest + next)[i..i + 4];
      assert s == rest[i..] + next[..4 - have];
      assert H.END == H.END[..have] + H.END[have..];
      assert s[..have] == rest[i..] && s[have..] == next[..4 - have];
    }
  }

  lemma NotHere(rest: Bytes, next: Bytes, i: nat)
    requires i < |rest| && rest[i] != 13
    ensures !H.Occurs(rest + next, i)
  {
    if i + 4 <= |rest + next| {
      assert (rest + next)[i..i + 4][0] == rest[i];
    }
  }

  /** The header ends at offset `lastOffset` into the rest of chunk number `at`. */
  ghost predicate EndsAt(ps: seq<Piece>, at: nat, lastOffset: nat, n: nat)
    requires PiecesOk(ps)
  {
    at < |ps| && lastOffset <= |ps[at].Rest()| && |Pending(ps[..at])| + lastOffset == n
  }

  lemma FindUnfolds(vs: seq<Bytes>)
    requires vs != []
    ensures H.Find(vs) == match H.FirstIn(vs[0], H.Second(vs), 0) case Some(i) => Some(i + 4) case None =>
      match H.Find(vs[1..]) case None => None case Some(n) => Some(|vs[0]| + n)
  {
    hide H.FirstIn, H.Second;
  }

  /** Where the empty line begins in what chunk `k` holds. */
  ghost function Here(ps: seq<Piece>, k: nat): Option<nat>
    requires PiecesOk(ps) && k < |ps|
  {
    H.FirstIn(ps[k].Rest(), H.Second(Rests(ps)[k..]), 0)
  }

  /** What one chunk contributes to the search. */
  lemma FindStep(ps: seq<Piece>, k: nat)
    requires PiecesOk(ps) && k < |ps|
    ensures H.Find(Rests(ps)[k..]) == match Here(ps, k) case Some(i) => Some(i + 4) case None =>
      match H.Find(Rests(ps)[k + 1..]) case None => None case Some(n) => Some(|ps[k].Rest()| + n)
  {
    hide H.FirstIn, H.Second, H.Find, Rests, PiecesOk;
    var vs := Rests(ps)[k..];
    FindUnfolds(vs);
    assert vs[1..] == Rests(ps)[k + 1..];
  }

  lemma PendingTake(ps: seq<Piece>, k: nat)
    requires PiecesOk(ps) && k < |ps|
    ensures Pending(ps[..k + 1]) == Pending(ps[..k]) + ps[k].Rest()
  {
    assert ps[..k + 1] == ps[..k] + [ps[k]];
    assert [ps[k]][1..] == [];
    PendingConcat(ps[..k], [ps[k]]);
  }

  /** One chunk of the first scan. */
  method LookAt(cq: ChunkQueue, c: Chunk, ghost k: nat) returns (lastChunk: Chunk?, lastOffset: nat, ghost at: nat)
    requires cq.Valid() && Fresh(cq.Pieces()) && k < |cq.nodes| && c == cq.nodes[k]
    ensures match Here(cq.Pieces(), k)
      case None => lastChunk == null
      case Some(i) =>
        && at < |cq.nodes| && lastChunk == cq.nodes[at]
        && EndsAt(cq.Pieces(), at, lastOffset, |Pending(cq.Pieces()[..k])| + i + 4)
  {
    hide ChunkQueue.Valid, ChunkQueue.ListOk, ChunkQueue.SpareOk, PiecesOf, ChunkQueue.Pieces, H.FirstIn, Pending,
      H.Second, Rests;
    ghost var ps := cq.Pieces();
    cq.Parts();
    cq.Places(k);
    NextRest(ps, k);
    var rest := c.content.data[c.offset..];
    var next: Bytes := if c.next != null then c.next.content.data else [];
    var place := ScanChunk(rest, next);
    lastChunk, lastOffset, at := null, 0, 0;
    if place.Some? {
      if place.value + 4 <= |rest| {
        lastChunk, lastOffset, at := c, place.value + 4, k;
      } else {
        lastChunk, lastOffset, at := c.next, place.value + 4 - |rest|, k + 1;
        PendingTake(ps, k);
      }
    }
  }

  /** `k` chunks have been scanned in vain. */
  ghost predicate Scanned(ps: seq<Piece>, k: nat) {
    && PiecesOk(ps) && k <= |ps|
    && H.Find(Rests(ps)) == match H.Find(Rests(ps)[k..]) case None => None case Some(n) => Some(|Pending(ps[..k])| + n)
  }

  lemma ScannedNone(ps: seq<Piece>)
    requires PiecesOk(ps)
    ensures Scanned(ps, 0)
  {
    assert ps[..0] == [] && Rests(ps)[0..] == Rests(ps);
  }

  lemma ScannedAll(ps: seq<Piece>)
    requires Scanned(ps, |ps|)
    ensures H.Find(Rests(ps)) == None
  {
    assert Rests(ps)[|ps|..] == [];
  }

  lemma ScannedMore(ps: seq<Piece>, k: nat)
    requires Scanned(ps, k) && k < |ps|
    ensures Here(ps, k).None? ==> Scanned(ps, k + 1)
    ensures Here(ps, k).Some? ==> H.Find(Rests(ps)) == Some(|Pending(ps[..k])| + Here(ps, k).value + 4)
  {
    hide H.Find, Here, Pending, Rests;
    FindStep(ps, k);
    PendingTake(ps, k);
  }

  /** The first scan over the queue: where the header ends, if it does. */
  method FindEnd(cq: ChunkQueue) returns (lastChunk: Chunk?, lastOffset: nat, ghost at: nat)
    requires cq.Valid() && Fresh(cq.Pieces())
    ensures match H.Find(Rests(cq.Pieces()))
      case None => lastChunk == null
      case Some(n) => at < |cq.nodes| && lastChunk == cq.nodes[at] && EndsAt(cq.Pieces(), at, lastOffset, n)
  {
    hide ChunkQueue.Valid, ChunkQueue.ListOk, ChunkQueue.SpareOk, PiecesOf, PiecesOk, ChunkQueue.Pieces, Scanned, Here,
      EndsAt, H.Find, Fresh, Rests, Pending;
    ghost var ps := cq.Pieces();
    cq.Parts();
    ScannedNone(ps);
    var c := cq.first;
    ghost var k: nat := 0;
    lastChunk, lastOffset, at := null, 0, 0;
    while c != null
      invariant k <= |cq.nodes| && c == At(cq.nodes, k) && Scanned(ps, k) && lastChunk == null
      decreases |cq.nodes| - k
    {
      lastChunk, lastOffset, at := LookAt(cq, c, k);
      ScannedMore(ps, k);
      if lastChunk != null {
        return;
      }
      cq.Places(k);
      c := c.next;
      k := k + 1;
    }
    ScannedAll(ps);
  }

  /** The chunk behind place `k` has not been read from. */
  lemma NextRest(ps: seq<Piece>, k: nat)
    requires PiecesOk(ps) && Fresh(ps) && k < |ps|
    ensures H.Second(Rests(ps)[k..]) == if k + 1 < |ps| then ps[k + 1].content.data else []
  {
    if k + 1 < |ps| {
      assert Rests(ps)[k..][1] == ps[k + 1].Rest();
    }
  }

  /** Chunks before place `m` have been read, those behind it have not. */
  ghost predicate ReadUpTo(ps: seq<Piece>, m: nat) {
    && PiecesOk(ps) && (forall i :: 0 <= i < |ps| ==> ps[i].content.MEM?)
    && (forall i :: 0 <= i < |ps| && i < m ==> ps[i].offset == |ps[i].content.data|)
    && (forall i :: m < i < |ps| ==> ps[i].offset == 0)
  }

  ghost predicate AllButOne(ps: seq<Piece>) {
    exists m: nat :: ReadUpTo(ps, m)
  }

  lemma OneLeft(ps: seq<Piece>, m: nat)
    requires ReadUpTo(ps, m)
    ensures AllButOne(ps)
  {
  }

  /** Read `n` octets of chunk number `k`. */
  function Advance(ps: seq<Piece>, k: nat, n: nat): (now: seq<Piece>)
    requires k < |ps|
    ensures |now| == |ps|
  {
    ps[k := ps[k].(offset := ps[k].offset + n)]
  }

  lemma {:induction false} ReadNothing(ps: seq<Piece>)
    requires PiecesOk(ps) && forall i :: 0 <= i < |ps| ==> ps[i].offset == |ps[i].content.data|
    ensures Pending(ps) == []
  {
    if ps != [] {
      ReadNothing(ps[1..]);
    }
  }

  /** Where reading takes place, the queue holds the rest of that chunk and all behind it. */
  lemma PendingAt(ps: seq<Piece>, k: nat)
    requires ReadUpTo(ps, k) && k < |ps|
    ensures Pending(ps) == ps[k].Rest() + Pending(ps[k + 1..])
  {
    hide *;
    PrefixOk(ps, k);
    PendingConcat(ps[..k + 1], ps[k + 1..]);
    assert ps[..k + 1] + ps[k + 1..] == ps;
    PendingTake(ps, k);
    ReadNothing(ps[..k]);
  }

  lemma PrefixOk(ps: seq<Piece>, k: nat)
    requires ReadUpTo(ps, k) && k < |ps|
    ensures PiecesOk(ps[..k + 1]) && PiecesOk(ps[k + 1..]) && PiecesOk(ps[..k]) && ps[k].Ok() && PiecesOk(ps)
    ensures forall i :: 0 <= i < k ==> ps[..k][i].offset == |ps[..k][i].content.data|
  {
  }

  /** Reading from the chunk at hand takes octets off the front of the queue. */
  lemma PendingAdvance(ps: seq<Piece>, k: nat, n: nat)
    requires ReadUpTo(ps, k) && k < |ps| && n <= |ps[k].Rest()|
    ensures ReadUpTo(Advance(ps, k, n), k) && n <= |Pending(ps)| && Pending(Advance(ps, k, n)) == Pending(ps)[n..]
    ensures ps[k].Rest()[..n] == Pending(ps)[..n]
    ensures n == |ps[k].Rest()| ==> ReadUpTo(Advance(ps, k, n), k + 1)
  {
    hide Pending;
    var now := Advance(ps, k, n);
    PendingAt(ps, k);
    PendingAt(now, k);
    assert now[k + 1..] == ps[k + 1..];
    assert now[k].Rest() == ps[k].Rest()[n..];
  }

  lemma PendingRead(ps: seq<Piece>)
    requires ReadUpTo(ps, |ps|)
    ensures Pending(ps) == []
  {
    ReadNothing(ps);
  }

  /** Once finished chunks are gone, only the first chunk can be partly read. */
  lemma {:induction false} UnfinishedFresh(ps: seq<Piece>, m: nat)
    requires ReadUpTo(ps, m)
    ensures Fresh(Unfinished(ps))
    decreases |ps|
  {
    if ps != [] && ps[0].offset == |ps[0].content.data| {
      UnfinishedFresh(ps[1..], if m > 0 then m - 1 else 0);
    }
  }

  /** `c->offset += n` */
  method Read(cq: ChunkQueue, c: Chunk, ghost k: nat, n: nat)
    requires cq.Valid() && k < |cq.nodes| && c == cq.nodes[k] && ReadUpTo(cq.Pieces(), k)
      && n <= |cq.Pieces()[k].Rest()|
    modifies c`offset
    ensures cq.Valid() && ReadUpTo(cq.Pieces(), k) && n <= |old(Pending(cq.Pieces()))|
    ensures Pending(cq.Pieces()) == old(Pending(cq.Pieces()))[n..]
    ensures n == |old(cq.Pieces())[k].Rest()| ==> ReadUpTo(cq.Pieces(), k + 1)
    ensures |cq.Pieces()| == |old(cq.Pieces())| && forall i :: 0 <= i < |cq.Pieces()| && i != k ==>
      cq.Pieces()[i] == old(cq.Pieces())[i]
  {
    hide ChunkQueue.Valid, ChunkQueue.ListOk, ChunkQueue.SpareOk, PiecesOf, ChunkQueue.Pieces, Pending;
    ghost var ps := cq.Pieces();
    cq.Parts();
    cq.Places(k);
    PendingAdvance(ps, k, n);
    c.offset := c.offset + n;
    cq.SamePieces(Advance(ps, k, n));
    cq.Whole();
  }

  /** The copying loop has come to chunk `k`. */
  ghost predicate Copying(cq: ChunkQueue, ps: seq<Piece>, k: nat, request: Bytes)
    reads cq, cq.nodes, cq.spare
  {
    && cq.Valid() && PiecesOk(ps) && k < |ps| == |cq.nodes| == |cq.Pieces()| && ReadUpTo(cq.Pieces(), k)
    && (forall i :: k <= i < |ps| ==> cq.Pieces()[i] == ps[i])
    && request + Pending(cq.Pieces()) == Pending(ps) && |request| == |Pending(ps[..k])|
  }

  /** One chunk of the copying loop: `n` octets of it are copied. */
  method CopyFrom(cq: ChunkQueue, c: Chunk, ghost k: nat, n: nat, ghost ps: seq<Piece>, request: Bytes)
    returns (now: Bytes)
    requires Copying(cq, ps, k, request) && c == cq.nodes[k] && n <= |ps[k].Rest()|
    modifies c`offset
    ensures cq.Valid() && ReadUpTo(cq.Pieces(), k) && now + Pending(cq.Pieces()) == Pending(ps)
      && |now| == |Pending(ps[..k])| + n
    ensures n == |ps[k].Rest()| && k + 1 < |ps| ==> Copying(cq, ps, k + 1, now)
  {
    hide ChunkQueue.Valid, ChunkQueue.ListOk, ChunkQueue.SpareOk, PiecesOf, ChunkQueue.Pieces, Pending;
    ghost var left := Pending(cq.Pieces());
    cq.Places(k);
    PendingAdvance(cq.Pieces(), k, n);
    PendingTake(ps, k);
    now := request + c.content.data[c.offset..c.offset + n];
    assert c.content.data[c.offset..c.offset + n] == ps[k].Rest()[..n] == left[..n];
    Read(cq, c, k, n);
    assert request + left == request + (left[..n] + left[n..]);
  }

  /** The second scan: copy the header, and read the queue as far as the header goes. */
  method CopyHeader(cq: ChunkQueue, lastChunk: Chunk, lastOffset: nat, ghost at: nat) returns (request: Bytes)
    requires cq.Valid() && Fresh(cq.Pieces()) && at < |cq.nodes| && lastChunk == cq.nodes[at]
      && lastOffset <= |cq.Pieces()[at].Rest()|
    modifies cq.nodes`offset
    ensures cq.Valid() && ReadUpTo(cq.Pieces(), at)
    ensures request + Pending(cq.Pieces()) == old(Pending(cq.Pieces()))
    ensures |request| == |old(Pending(cq.Pieces()[..at]))| + lastOffset
  {
    ghost var ps := cq.Pieces();
    cq.Parts();
    StartReading(ps);
    request := [];
    var c := cq.first;
    ghost var k: nat := 0;
    assert Copying(cq, ps, k, request);
    hide *;
    while c != lastChunk
      invariant k <= at && c == At(cq.nodes, k) && Copying(cq, ps, k, request)
      decreases at - k
    {
      CopyingFacts(cq, ps, k, request, c, at);
      request := CopyFrom(cq, c, k, |c.content.data| - c.offset, ps, request);
      c := c.next;
      k := k + 1;
    }
    CopyingFacts(cq, ps, k, request, c, at);
    request := CopyFrom(cq, c, k, lastOffset, ps, request);
  }

  lemma CopyingFacts(cq: ChunkQueue, ps: seq<Piece>, k: nat, request: Bytes, c: Chunk?, at: nat)
    requires Copying(cq, ps, k, request) && c == At(cq.nodes, k) && k <= at < |cq.nodes|
    ensures k < |cq.nodes| && c == cq.nodes[k] && cq.nodes[k].next == At(cq.nodes, k + 1)
      && (c == cq.nodes[at] <==> k == at)
    ensures ps[k].Ok() && |ps[k].Rest()| == |cq.nodes[k].content.data| - cq.nodes[k].offset
      && cq.nodes[k].offset <= |cq.nodes[k].content.data|
  {
    cq.Places(k);
    cq.Parts();
  }

  lemma StartReading(ps: seq<Piece>)
    requires PiecesOk(ps) && Fresh(ps)
    ensures ReadUpTo(ps, 0) && |Pending(ps[..0])| == 0
  {
  }

  // ----- the body

  lemma {:induction false} PendingExtend(ps: seq<Piece>, data: Bytes)
    requires PiecesOk(ps) && ps != [] && ps[|ps| - 1].content.FILE?
    ensures var n := |ps| - 1;
      var now := ps[n := Piece(FILE(ps[n].content.isTemp, ps[n].content.data + data), ps[n].offset)];
      PiecesOk(now) && Pending(now) == Pending(ps) + data
  {
    var n := |ps| - 1;
    var last := ps[n];
    var more := Piece(FILE(last.content.isTemp, last.content.data + data), last.offset);
    assert ps == ps[..n] + [last] && ps[n := more] == ps[..n] + [more];
    PendingConcat(ps[..n], [last]);
    PendingConcat(ps[..n], [more]);
    PendingSingle(last);
    PendingSingle(more);
    assert more.Rest() == last.Rest() + data;
  }

  lemma PendingSingle(p: Piece)
    requires p.Ok()
    ensures PiecesOk([p]) && Pending([p]) == p.Rest()
  {
    assert [p][1..] == [];
  }

  /** A new chunk at the end of the body. */
  method AppendTo(dst: ChunkQueue, content: Content)
    requires dst.Valid()
    modifies dst`first, dst`last, dst`nodes, dst`unused, dst`unusedChunks, dst`spare, dst.Repr()
    ensures dst.Valid() && Pending(dst.Pieces()) == old(Pending(dst.Pieces())) + content.data
    ensures dst.Pieces() == old(dst.Pieces()) + [Piece(content, 0)] && fresh(dst.Repr() - old(dst.Repr()))
  {
    hide ChunkQueue.Valid, ChunkQueue.Pieces, Pending, ChunkQueue.Repr;
    ghost var ps := dst.Pieces();
    dst.Parts();
    dst.Append(content);
    PendingSingle(Piece(content, 0));
    PendingConcat(ps, [Piece(content, 0)]);
  }

  /** `data` is written to the file of the last chunk. */
  method WriteLast(dst: ChunkQueue, data: Bytes)
    requires dst.Valid() && dst.last != null && dst.last.content.FILE?
    modifies dst.Repr()
    ensures dst.Valid() && Pending(dst.Pieces()) == old(Pending(dst.Pieces())) + data && dst.Repr() == old(dst.Repr())
  {
    ghost var ps := dst.Pieces();
    dst.LastIsNode();
    hide ChunkQueue.Valid, ChunkQueue.ListOk, ChunkQueue.SpareOk, PiecesOf, ChunkQueue.Pieces, Pending;
    dst.Parts();
    ghost var n := |dst.nodes| - 1;
    dst.Places(n);
    PendingExtend(ps, data);
    dst.last.content := FILE(dst.last.content.isTemp, dst.last.content.data + data);
    dst.SamePieces(ps[n := Piece(FILE(ps[n].content.isTemp, ps[n].content.data + data), ps[n].offset)]);
    dst.Whole();
  }

  /** What happens to a piece of the body: a small body goes into memory, a large one into temporary
      files of limited size.  Opening or writing such a file may fail. */
  method Store(dst: ChunkQueue, data: Bytes, large: bool, opens: bool, writes: bool) returns (ok: bool)
    requires dst.Valid()
    modifies dst`first, dst`last, dst`nodes, dst`unused, dst`unusedChunks, dst`spare, dst.Repr()
    ensures dst.Valid() && fresh(dst.Repr() - old(dst.Repr()))
    ensures ok <==> !large || (opens && writes)
    ensures Pending(dst.Pieces()) == old(Pending(dst.Pieces())) + if ok then data else []
  {
    hide ChunkQueue.Valid, ChunkQueue.Pieces, Pending, ChunkQueue.ListOk;
    if !large {
      AppendTo(dst, MEM(data));
      return true;
    }
    var last := dst.last;
    if last != null && last.content.FILE? && last.content.isTemp && last.offset == 0
      && |last.content.data| < UPLOAD_TEMPFILE_MAXLENGTH {
    } else {
      AppendTo(dst, FILE(opens, []));
      dst.LastIsNode();
    }
    if !opens || !writes {
      return false;
    }
    WriteLast(dst, data);
    ok := true;
  }

  /** The queues of a connection share nothing. */
  ghost predicate Apart(rq: ChunkQueue, dst: ChunkQueue)
    reads rq`nodes, rq`spare, dst`nodes, dst`spare
  {
    rq != dst && rq.Repr() !! dst.Repr()
  }

  lemma NodesApart(rq: ChunkQueue, dst: ChunkQueue)
    requires Apart(rq, dst)
    ensures forall i :: 0 <= i < |rq.nodes| ==> rq.nodes[i] !in dst.nodes && rq.nodes[i] !in dst.spare
  {
    forall i | 0 <= i < |rq.nodes| ensures rq.nodes[i] !in dst.nodes && rq.nodes[i] !in dst.spare {
      assert rq.nodes[i] in rq.Repr();
    }
  }

  /** Both queues while the body is copied: `t` octets of `all` have gone from one to the other. */
  ghost predicate Moving(rq: ChunkQueue, dst: ChunkQueue, all: Bytes, body: Bytes, t: nat)
    reads rq`first, rq`last, rq`unused, rq`unusedChunks, rq`nodes, rq`spare, rq.nodes, rq.spare
    reads dst`first, dst`last, dst`unused, dst`unusedChunks, dst`nodes, dst`spare, dst.nodes, dst.spare
  {
    && rq.Valid() && dst.Valid() && Apart(rq, dst) && t <= |all|
    && Pending(rq.Pieces()) == all[t..] && Pending(dst.Pieces()) == body + all[..t]
  }

  /** One chunk of the body-copying loop. */
  method MoveChunk(rq: ChunkQueue, dst: ChunkQueue, c: Chunk, ghost k: nat, n: nat, large: bool, opens: bool,
                   writes: bool, ghost all: Bytes, ghost body: Bytes, ghost t: nat) returns (ok: bool)
    requires Moving(rq, dst, all, body, t) && k < |rq.nodes| && c == rq.nodes[k] && ReadUpTo(rq.Pieces(), k)
      && n <= |rq.Pieces()[k].Rest()|
    modifies dst`first, dst`last, dst`nodes, dst`unused, dst`unusedChunks, dst`spare, dst.Repr(), c`offset
    ensures Moving(rq, dst, all, body, if ok then t + n else t) && ReadUpTo(rq.Pieces(), k)
      && fresh(dst.Repr() - old(dst.Repr()))
    ensures ok <==> !large || (opens && writes)
    ensures ok && n == |old(rq.Pieces())[k].Rest()| ==> ReadUpTo(rq.Pieces(), k + 1)
  {
    hide ChunkQueue.Valid, ChunkQueue.Pieces, Pending, ChunkQueue.ListOk, ChunkQueue.SpareOk, PiecesOf, ReadUpTo;
    ghost var ps := rq.Pieces();
    rq.Parts();
    rq.Places(k);
    ChunkRest(ps, k, n);
    assert c in rq.Repr();
    var data := c.content.data[c.offset..c.offset + n];
    ok := Store(dst, data, large, opens, writes);
    if ok {
      Read(rq, c, k, n);
      MovePart(all, body, t, n);
    }
  }

  lemma MovePart(all: Bytes, body: Bytes, t: nat, n: nat)
    requires t + n <= |all|
    ensures all[t..][n..] == all[t + n..] && body + all[..t] + all[t..][..n] == body + all[..t + n]
  {
    assert all[t..][..n] == all[t..t + n] && all[..t] + all[t..t + n] == all[..t + n];
  }

  /** What a chunk has to give is at the front of the queue. */
  lemma ChunkRest(ps: seq<Piece>, k: nat, n: nat)
    requires PiecesOk(ps) && ReadUpTo(ps, k) && k < |ps| && n <= |ps[k].Rest()|
    ensures n <= |Pending(ps)| && ps[k].content.data[ps[k].offset..ps[k].offset + n] == Pending(ps)[..n]
  {
    hide Pending;
    PendingAdvance(ps, k, n);
  }

  function Contents(ps: seq<Piece>): (cs: seq<Content>)
    ensures |cs| == |ps| && forall i :: 0 <= i < |ps| ==> cs[i] == ps[i].content
  {
    seq(|ps|, i requires 0 <= i < |ps| => ps[i].content)
  }

  ghost predicate NoneEmpty(ps: seq<Piece>) {
    forall i :: 0 <= i < |ps| ==> !Empty(ps[i])
  }

  lemma SameContents(ps: seq<Piece>, qs: seq<Piece>)
    requires Contents(ps) == Contents(qs)
    ensures NoneEmpty(ps) ==> NoneEmpty(qs)
  {
    assert forall i :: 0 <= i < |qs| ==> qs[i].content == Contents(qs)[i] == Contents(ps)[i] == ps[i].content;
  }

  /** Some chunk meets a temporary file that cannot be opened or written. */
  ghost predicate Unwritten(disk: nat -> (bool, bool)) {
    exists k: nat :: !disk(k).0 || !disk(k).1
  }

  class Connection {
    const readQueue: ChunkQueue
    const content: ChunkQueue
    var state: State
    var request: Bytes
    var contentLength: nat
    var httpStatus: nat
    var keepAlive: bool
    /** The bytes received since this request began, and whether its header has been found. */
    ghost var received: Bytes
    ghost var parsed: bool

    ghost predicate Valid()
      reads readQueue, readQueue.nodes, readQueue.spare, content, content.nodes, content.spare
    {
      readQueue.Valid() && content.Valid() && Apart(readQueue, content)
    }

    /** Nothing is lost: the bytes received since the request began are the header, if it has been
        found, then the body so far, then what is still in the queue. */
    ghost predicate Conserved()
      reads this`request, this`received, this`parsed, readQueue, readQueue.nodes, readQueue.spare, content,
        content.nodes, content.spare
    {
      && Valid() && Fresh(readQueue.Pieces())
      && received == (if parsed then request else []) + Pending(content.Pieces()) + Pending(readQueue.Pieces())
      && content.bytesIn == |Pending(content.Pieces())| && (!parsed ==> content.bytesIn == 0)
    }

    /** How long the header is, if it has been found. */
    ghost function Header(): Option<nat>
      reads this`parsed, this`request
    {
      if parsed then Some(|request|) else None
    }

    constructor ()
      ensures Conserved() && state == READ && !parsed && received == [] && fresh(readQueue) && fresh(content)
      ensures readQueue.Repr() == {} && content.Repr() == {} && readQueue.Pieces() == []
    {
      readQueue := new ChunkQueue();
      content := new ChunkQueue();
      state, request, contentLength, httpStatus, keepAlive := READ, [], 0, 0, true;
      received, parsed := [], false;
    }

    /** connection_handle_read and the cleaning loop. */
    method Receive(a: Arrival) returns (isClosed: bool)
      requires Valid()
      modifies this`state, readQueue`first, readQueue`last, readQueue`unused, readQueue`unusedChunks, readQueue`nodes,
        readQueue`spare
      modifies readQueue.Repr()
      ensures Valid() && readQueue.Pieces() == Received(old(readQueue.Pieces()), a)
        && content.Pieces() == old(content.Pieces())
      ensures isClosed == a.Closed? && state == if a.Failed? then ERROR else old(state)
      ensures fresh(readQueue.Repr() - old(readQueue.Repr()))
    {
      hide ChunkQueue.Valid, ChunkQueue.Pieces, Cleaned;
      isClosed := false;
      if !a.Nothing? {
        readQueue.Append(MEM(Arrived(a)));
        if a.Failed? {
          state := ERROR;
          return;
        }
        isClosed := a.Closed?;
      }
      CleanUp(readQueue);
    }

    /** The header has been found. */
    method TakeHeader(lastChunk: Chunk, lastOffset: nat, ghost at: nat)
      requires Valid() && Fresh(readQueue.Pieces()) && PiecesOk(readQueue.Pieces()) && at < |readQueue.nodes|
        && lastChunk == readQueue.nodes[at]
      requires at < |readQueue.Pieces()| && lastOffset <= |readQueue.Pieces()[at].Rest()|
      modifies this`state, this`request, readQueue.nodes`offset
      ensures Valid() && AllButOne(readQueue.Pieces()) && state == REQUEST_END
        && content.Pieces() == old(content.Pieces())
      ensures request + Pending(readQueue.Pieces()) == old(Pending(readQueue.Pieces()))
      ensures |request| == |old(Pending(readQueue.Pieces()[..at]))| + lastOffset
    {
      hide ChunkQueue.Valid, ChunkQueue.Pieces, Pending, ReadUpTo, AllButOne, Fresh, PiecesOk, PiecesOf;
      NodesApart(readQueue, content);
      request := CopyHeader(readQueue, lastChunk, lastOffset, at);
      OneLeft(readQueue.Pieces(), at);
      state := REQUEST_END;
    }

    /** The READ part of connection_handle_read_state. */
    method ReadHeader()
      requires Valid() && Fresh(readQueue.Pieces()) && PiecesOk(readQueue.Pieces()) && state == READ
      modifies this`state, this`request, this`httpStatus, this`keepAlive, readQueue.nodes`offset
      ensures Valid() && AllButOne(readQueue.Pieces()) && content.Pieces() == old(content.Pieces())
      ensures match H.Find(Rests(old(readQueue.Pieces())))
        case Some(n) =>
          && |request| == n && state == REQUEST_END
          && request + Pending(readQueue.Pieces()) == old(Pending(readQueue.Pieces()))
        case None =>
          && request == old(request) && readQueue.Pieces() == old(readQueue.Pieces())
          && state == Unfound(old(readQueue.Pieces()))
      ensures httpStatus == if state == HANDLE_REQUEST then 414 else old(httpStatus)
    {
      hide *;
      ReadHeaderStarts();
      HeaderEnds(readQueue.Pieces());
      var lastChunk, lastOffset, at := FindEnd(readQueue);
      if lastChunk != null {
        TakeHeader(lastChunk, lastOffset, at);
      } else {
        var len := readQueue.Length();
        UnfoundIs(readQueue.Pieces());
        if len > MAX_HEADER {
          httpStatus := 414;
          keepAlive := false;
          state := HANDLE_REQUEST;
        }
      }
    }

    lemma ReadHeaderStarts()
      requires Valid() && Fresh(readQueue.Pieces()) && PiecesOk(readQueue.Pieces())
      ensures AllButOne(readQueue.Pieces()) && ReadUpTo(readQueue.Pieces(), 0) && readQueue.Valid()
    {
      StartReading(readQueue.Pieces());
      OneLeft(readQueue.Pieces(), 0);
    }

    /** chunkqueue_remove_finished_chunks on the read queue. */
    method DropRead()
      requires Valid() && AllButOne(readQueue.Pieces())
      modifies readQueue, readQueue.Repr()
      ensures Valid() && Fresh(readQueue.Pieces()) && PiecesOk(readQueue.Pieces())
      ensures Pending(readQueue.Pieces()) == old(Pending(readQueue.Pieces()))
      ensures readQueue.Pieces() == Unfinished(old(readQueue.Pieces()))
      ensures content.Pieces() == old(content.Pieces()) && readQueue.Repr() <= old(readQueue.Repr())
    {
      hide ChunkQueue.Valid, ChunkQueue.Pieces, Pending, PiecesOk, PiecesOf, Fresh, AllButOne, Unfinished;
      DropsWell(readQueue.Pieces());
      readQueue.RemoveFinished();
    }

    /** The body-copying loop: `t` octets have been copied, and it is at chunk `c`, the `k`th. */
    ghost predicate Posting(all: Bytes, body: Bytes, before: nat, t: nat, c: Chunk?, k: nat)
      reads this`contentLength, readQueue, readQueue.nodes, readQueue.spare, content, content.nodes, content.spare
    {
      && Moving(readQueue, content, all, body, t) && content.bytesIn == before + t <= contentLength
      && k <= |readQueue.nodes| && c == At(readQueue.nodes, k)
      && AllButOne(readQueue.Pieces()) && (content.bytesIn != contentLength ==> ReadUpTo(readQueue.Pieces(), k))
    }

    /** One turn of the loop. */
    method PostChunk(c: Chunk, ghost k: nat, opens: bool, writes: bool, ghost all: Bytes, ghost body: Bytes,
                     ghost before: nat, ghost t: nat)
      returns (ok: bool, ghost u: nat)
      requires Posting(all, body, before, t, c, k) && content.bytesIn < contentLength
      modifies c`offset, content, content.Repr()
      ensures Posting(all, body, before, u, if ok then c.next else c, if ok then k + 1 else k)
        && fresh(content.Repr() - old(content.Repr()))
      ensures ok <==> contentLength <= UPLOAD_USING_TEMPFILE_THRESHOLD || (opens && writes)
      ensures c.next == old(c.next)
    {
      hide *;
      PostingOpens(all, body, before, t, c, k);
      var weWant := contentLength - content.bytesIn;
      var weHave := |c.content.data| - c.offset;
      var toRead := if weHave > weWant then weWant else weHave;
      ok := MoveChunk(readQueue, content, c, k, toRead, contentLength > UPLOAD_USING_TEMPFILE_THRESHOLD, opens, writes,
        all, body, t);
      u := t;
      if ok {
        content.bytesIn := content.bytesIn + toRead;
        u := t + toRead;
        PostingGoesOn(all, body, before, u, c.next, k + 1, k);
      } else {
        PostingGoesOn(all, body, before, u, c, k, k);
      }
    }

    lemma PostingOpens(all: Bytes, body: Bytes, before: nat, t: nat, c: Chunk, k: nat)
      requires Posting(all, body, before, t, c, k) && content.bytesIn < contentLength
      ensures Moving(readQueue, content, all, body, t) && content.bytesIn == before + t && PiecesOk(readQueue.Pieces())
      ensures k < |readQueue.nodes| == |readQueue.Pieces()| && c == readQueue.nodes[k] == At(readQueue.nodes, k)
        && c.next == At(readQueue.nodes, k + 1)
      ensures ReadUpTo(readQueue.Pieces(), k) && c.offset <= |c.content.data|
      ensures readQueue.Pieces()[k].Ok() && |readQueue.Pieces()[k].Rest()| == |c.content.data| - c.offset
      ensures c !in content.Repr() && readQueue != content
    {
      readQueue.Places(k);
      readQueue.Parts();
      assert c in readQueue.Repr();
    }

    lemma PostingGoesOn(all: Bytes, body: Bytes, before: nat, t: nat, c: Chunk?, k: nat, m: nat)
      requires Moving(readQueue, content, all, body, t) && content.bytesIn == before + t <= contentLength
      requires k <= |readQueue.nodes| && c == At(readQueue.nodes, k) && ReadUpTo(readQueue.Pieces(), m)
      requires content.bytesIn != contentLength ==> ReadUpTo(readQueue.Pieces(), k)
      ensures Posting(all, body, before, t, c, k)
    {
    }

    /** The loop; `disk` says of each chunk whether its temporary file can be opened and written, and
        the first that cannot ends it. */
    method PostLoop(disk: nat -> (bool, bool), ghost all: Bytes, ghost body: Bytes, ghost before: nat)
      returns (failed: bool, ghost t: nat)
      requires Posting(all, body, before, 0, readQueue.first, 0)
      modifies readQueue.nodes`offset, content, content.Repr()
      ensures Moving(readQueue, content, all, body, t) && AllButOne(readQueue.Pieces()) && t <= |all|
      ensures content.bytesIn == before + t <= contentLength && fresh(content.Repr() - old(content.Repr()))
      ensures !failed ==> t == Least(contentLength - before, |all|)
      ensures failed ==> contentLength > UPLOAD_USING_TEMPFILE_THRESHOLD && Unwritten(disk)
    {
      hide Posting, Moving, ReadUpTo, AllButOne, Pending, PiecesOk, ChunkQueue.Valid, ChunkQueue.Pieces, PiecesOf, At,
        Valid;
      var c := readQueue.first;
      ghost var k: nat := 0;
      t := 0;
      failed := false;
      var i := 0;
      PostingFacts(all, body, before, t, c, k);
      while c != null && content.bytesIn != contentLength && !failed
        invariant Posting(all, body, before, t, c, k) && k <= |readQueue.nodes| && content.bytesIn <= contentLength
        invariant fresh(content.Repr() - old(content.Repr())) && (c != null ==> c in readQueue.nodes)
        invariant readQueue.nodes == old(readQueue.nodes)
          && (failed ==> contentLength > UPLOAD_USING_TEMPFILE_THRESHOLD && Unwritten(disk))
        decreases |readQueue.nodes| - k, !failed
      {
        var (opens, writes) := disk(i);
        i := i + 1;
        var ok;
        ok, t := PostChunk(c, k, opens, writes, all, body, before, t);
        if ok {
          c := c.next;
          k := k + 1;
        } else {
          failed := true;
          assert !disk(i - 1).0 || !disk(i - 1).1;
        }
        PostingFacts(all, body, before, t, c, k);
      }
      PostingFacts(all, body, before, t, c, k);
    }

    /** The READ_POST part of connection_handle_read_state. */
    method ReadPost(disk: nat -> (bool, bool)) returns (failed: bool, ghost t: nat)
      requires Valid() && ReadUpTo(readQueue.Pieces(), 0) && content.bytesIn <= contentLength
      modifies this`state, this`httpStatus, this`keepAlive, readQueue.nodes`offset, content, content.Repr()
      ensures Moving(readQueue, content, old(Pending(readQueue.Pieces())), old(Pending(content.Pieces())), t)
      ensures AllButOne(readQueue.Pieces()) && content.bytesIn == old(content.bytesIn) + t <= contentLength
      ensures !failed ==>
        && t == Least(contentLength - old(content.bytesIn), |old(Pending(readQueue.Pieces()))|)
        && httpStatus == old(httpStatus)
      ensures failed ==> httpStatus == 413 && contentLength > UPLOAD_USING_TEMPFILE_THRESHOLD && Unwritten(disk)
      ensures state == if content.bytesIn == contentLength || failed then HANDLE_REQUEST else old(state)
      ensures fresh(content.Repr() - old(content.Repr()))
    {
      hide *;
      PostingStarts();
      failed, t := PostLoop(disk, Pending(readQueue.Pieces()), Pending(content.Pieces()), content.bytesIn);
      if failed {
        httpStatus := 413;
        keepAlive := false;
        state := HANDLE_REQUEST;
      }
      if content.bytesIn == contentLength {
        state := HANDLE_REQUEST;
      }
    }

    /** Reading for the header: `all` is everything in the queue. */
    method HeaderTurn(ghost all: Bytes)
      requires Valid() && Fresh(readQueue.Pieces()) && PiecesOk(readQueue.Pieces()) && state == READ && !parsed
      requires received == all == Pending(readQueue.Pieces()) && PiecesOk(content.Pieces())
        && Pending(content.Pieces()) == [] && content.bytesIn == 0
      modifies this`state, this`request, this`httpStatus, this`keepAlive, this`parsed, readQueue.nodes`offset
      ensures Valid() && AllButOne(readQueue.Pieces())
      ensures PiecesOk(content.Pieces()) && PiecesOk(readQueue.Pieces()) && Pending(content.Pieces()) == []
      ensures received == (if parsed then request else []) + Pending(readQueue.Pieces())
      ensures match H.Find(Rests(old(readQueue.Pieces())))
        case Some(n) => parsed && |request| == n && state == REQUEST_END
        case None =>
          && !parsed && request == old(request) && state == Unfound(old(readQueue.Pieces()))
          && readQueue.Pieces() == old(readQueue.Pieces())
      ensures httpStatus == if state == HANDLE_REQUEST then 414 else old(httpStatus)
      ensures Contents(readQueue.Pieces()) == old(Contents(readQueue.Pieces()))
    {
      hide *;
      ReadHeader();
      SameQueue();
      AllButOneOk(readQueue.Pieces());
      assert [] + Pending(readQueue.Pieces()) == Pending(readQueue.Pieces());
      if state == REQUEST_END {
        parsed := true;
      }
    }

    /** Reading for the body. */
    method PostTurn(disk: nat -> (bool, bool), ghost all: Bytes, ghost body: Bytes) returns (failed: bool, ghost t: nat)
      requires Valid() && ReadUpTo(readQueue.Pieces(), 0) && PiecesOk(readQueue.Pieces()) && PiecesOk(content.Pieces())
      requires all == Pending(readQueue.Pieces()) && body == Pending(content.Pieces()) && content.bytesIn == |body|
        && content.bytesIn <= contentLength
      modifies this`state, this`httpStatus, this`keepAlive, readQueue.nodes`offset, content, content.Repr()
      ensures Valid() && AllButOne(readQueue.Pieces()) && PiecesOk(readQueue.Pieces()) && PiecesOk(content.Pieces())
      ensures Pending(content.Pieces()) + Pending(readQueue.Pieces()) == body + all && body <= Pending(content.Pieces())
      ensures content.bytesIn == |Pending(content.Pieces())| <= contentLength
      ensures !failed ==> content.bytesIn == Least(contentLength, |body| + |all|) && httpStatus == old(httpStatus)
      ensures failed ==> httpStatus == 413 && contentLength > UPLOAD_USING_TEMPFILE_THRESHOLD && Unwritten(disk)
      ensures state == if content.bytesIn == contentLength || failed then HANDLE_REQUEST else old(state)
      ensures fresh(content.Repr() - old(content.Repr()))
      ensures Contents(readQueue.Pieces()) == old(Contents(readQueue.Pieces()))
    {
      hide *;
      Separate();
      failed, t := ReadPost(disk);
      MovedFacts(readQueue, content, all, body, t);
      LeastShift(contentLength, |body|, |all|);
      Whole();
      SameQueue();
    }

    lemma Whole()
      requires readQueue.Valid() && content.Valid() && Apart(readQueue, content)
      ensures Valid()
    {
    }

    /** connection_handle_read_state, while the header or the body is being read.  However the bytes
        are cut into reads, none is lost: header, body and queue together are what has been received. */
    method HandleReadState(a: Arrival, disk: nat -> (bool, bool)) returns (failed: bool)
      requires Conserved()
      requires (state == READ && !parsed) || (state == READ_POST && parsed && content.bytesIn <= contentLength)
      modifies this, readQueue, readQueue.Repr(), content, content.Repr()
      ensures Conserved() && received == old(received) + Arrived(a) && contentLength == old(contentLength)
      ensures a.Failed? ==> state == ERROR && parsed == old(parsed) && request == old(request) && !failed
      ensures !a.Failed? && old(state) == READ ==> HeaderOutcome(Received(old(readQueue.Pieces()), a), a.Closed?)
      ensures !a.Failed? && Tidy(old(readQueue.Pieces())) ==> Tidy(readQueue.Pieces())
      ensures old(state) == READ ==> content.bytesIn == 0 && !failed
      ensures old(state) == READ_POST ==> parsed && request == old(request) && content.bytesIn <= contentLength
      ensures old(state) == READ_POST && !a.Failed? ==> BodyOutcome(a.Closed?, failed)
      ensures failed ==> httpStatus == 413 && contentLength > UPLOAD_USING_TEMPFILE_THRESHOLD && Unwritten(disk)
      ensures fresh(readQueue.Repr() - old(readQueue.Repr())) && fresh(content.Repr() - old(content.Repr()))
    {
      hide Valid, Conserved, Fresh, PiecesOk, PiecesOf, Pending, ReadUpTo, AllButOne, Received, Rests, H.Find, Unfound,
        ChunkQueue.Valid, ChunkQueue.Pieces, Unfinished, ChunkQueue.ListOk, ChunkQueue.SpareOk, Tidy, Unwritten,
        NoneEmpty;
      Opens();
      ghost var q, body := readQueue.Pieces(), Pending(content.Pieces());
      var ostate := state;
      failed := false;
      ReceivedAdds(q, a);
      ReceivedNoneEmpty(q, a);
      var isClosed := Receive(a);
      received := received + Arrived(a);
      if a.Failed? {
        Closes();
        return;
      }
      if ostate == READ {
        assert [] + body + Pending(q) == Pending(q);
        HeaderPart(isClosed);
      } else {
        Reassociate(request, body, Pending(q), Arrived(a), body, Pending(readQueue.Pieces()));
        failed := BodyPart(isClosed, disk, body);
      }
    }

    /** From here on, for a header. */
    method HeaderPart(isClosed: bool)
      requires Valid() && Fresh(readQueue.Pieces()) && PiecesOk(readQueue.Pieces()) && state == READ && !parsed
      requires received == Pending(readQueue.Pieces()) && PiecesOk(content.Pieces()) && Pending(content.Pieces()) == []
        && content.bytesIn == 0
      requires readQueue != content
      modifies this`state, this`request, this`httpStatus, this`keepAlive, this`parsed, readQueue, readQueue.Repr()
      ensures Conserved() && HeaderOutcome(old(readQueue.Pieces()), isClosed)
        && readQueue.Repr() <= old(readQueue.Repr())
      ensures NoneEmpty(old(readQueue.Pieces())) ==> Tidy(readQueue.Pieces())
    {
      hide Valid, Conserved, Fresh, PiecesOk, PiecesOf, Pending, ReadUpTo, AllButOne, Rests, H.Find, Unfound,
        ChunkQueue.Valid, ChunkQueue.Pieces, Unfinished, ChunkQueue.ListOk, ChunkQueue.SpareOk, Tidy, NoneEmpty;
      RestsFlat(readQueue.Pieces());
      ghost var before := readQueue.Pieces();
      HeaderTurn(received);
      SameContents(before, readQueue.Pieces());
      TidyRest(readQueue.Pieces());
      assert (if parsed then request else []) + [] == if parsed then request else [];
      if isClosed && state == READ {
        state := ERROR;
      }
      DropRead();
      Closes();
    }

    /** From here on, for a body. */
    method BodyPart(isClosed: bool, disk: nat -> (bool, bool), ghost body: Bytes) returns (failed: bool)
      requires Valid() && ReadUpTo(readQueue.Pieces(), 0) && PiecesOk(readQueue.Pieces()) && PiecesOk(content.Pieces())
        && parsed
      requires body == Pending(content.Pieces()) && content.bytesIn == |body| && content.bytesIn <= contentLength
        && state == READ_POST
      requires received == request + body + Pending(readQueue.Pieces()) && readQueue != content
      modifies this`state, this`httpStatus, this`keepAlive, readQueue, readQueue.Repr(), content, content.Repr()
      ensures Conserved() && content.bytesIn <= contentLength && BodyOutcome(isClosed, failed)
      ensures failed ==> httpStatus == 413 && contentLength > UPLOAD_USING_TEMPFILE_THRESHOLD && Unwritten(disk)
      ensures NoneEmpty(old(readQueue.Pieces())) ==> Tidy(readQueue.Pieces())
      ensures readQueue.Repr() <= old(readQueue.Repr()) && fresh(content.Repr() - old(content.Repr()))
    {
      hide Valid, Conserved, Fresh, PiecesOk, PiecesOf, Pending, ReadUpTo, AllButOne, ChunkQueue.Valid,
        ChunkQueue.Pieces, Unfinished, ChunkQueue.ListOk, ChunkQueue.SpareOk, Tidy, NoneEmpty, Unwritten;
      ghost var all := Pending(readQueue.Pieces());
      ghost var t, before := 0, readQueue.Pieces();
      failed, t := PostTurn(disk, all, body);
      SameContents(before, readQueue.Pieces());
      TidyRest(readQueue.Pieces());
      Reassociate(request, body, all, [], Pending(content.Pieces()), Pending(readQueue.Pieces()));
      assert all + [] == all && received + [] == received;
      if isClosed && state == READ_POST {
        state := ERROR;
      }
      DropRead();
      Closes();
    }

    /** The header has been parsed: a body of `length` bytes follows, or none. */
    method BeginBody(hasBody: bool, length: nat)
      requires Conserved() && state == REQUEST_END && parsed
      modifies this`state, this`contentLength
      ensures Conserved() && state == (if hasBody then READ_POST else HANDLE_REQUEST) && contentLength == length
    {
      contentLength := length;
      state := if hasBody then READ_POST else HANDLE_REQUEST;
    }

    /** How far the reading of one request has come: the body never exceeds its length, and once the
        request can be handled its body is complete, unless it could not be stored. */
    ghost predicate Under(hasBody: bool, length: nat, failed: bool)
      reads this, content
    {
      && (state == READ ==> !parsed)
      && (parsed ==> content.bytesIn <= BodyLength(hasBody, length))
      && (state == READ_POST ==> parsed && hasBody && contentLength == length)
      && (state == HANDLE_REQUEST && parsed && !failed ==> content.bytesIn == BodyLength(hasBody, length))
      && state != REQUEST_END
    }

    /** What one read does to the queue `q`; `reading` says that the header has still been looked for,
        and `was` how long it is if not. */
    ghost predicate ReadOutcome(q: seq<Piece>, reading: bool, was: Option<nat>, a: Arrival)
      reads this`parsed, this`request, this`state, readQueue, readQueue.nodes
    {
      && PiecesOk(q) && Fresh(q) && PiecesOk(Received(q, a))
      && (a.Failed? ==> state == ERROR && Header() == was)
      && (!a.Failed? && reading ==> Header() == H.Find(Rests(Received(q, a))))
      && (!a.Failed? && !parsed ==>
            && readQueue.Pieces() == Left(q, a)
            && state == if a.Closed? && Unfound(Received(q, a)) == READ then ERROR else Unfound(Received(q, a)))
      && (!reading ==> parsed && Header() == was)
      && (parsed ==> state != READ && (state == ERROR ==> a.Failed? || a.Closed?))
      && (!a.Failed? && Tidy(q) ==> Tidy(readQueue.Pieces()))
    }

    /** One read, and the parsing of the header if that is now complete. */
    method ReadOnce(a: Arrival, disk: nat -> (bool, bool), hasBody: bool, length: nat) returns (failed: bool)
      requires Conserved() && Under(hasBody, length, false) && (state == READ || state == READ_POST)
      modifies this, readQueue, readQueue.Repr(), content, content.Repr()
      ensures Conserved() && Under(hasBody, length, failed) && received == old(received) + Arrived(a)
      ensures ReadOutcome(old(readQueue.Pieces()), old(state) == READ, old(Header()), a)
      ensures !a.Failed? && !failed ==>
        content.bytesIn == if old(state) == READ then 0 else Least(length, |received| - |request|)
      ensures failed ==>
        state == HANDLE_REQUEST && httpStatus == 413 && length > UPLOAD_USING_TEMPFILE_THRESHOLD && Unwritten(disk)
      ensures fresh(readQueue.Repr() - old(readQueue.Repr())) && fresh(content.Repr() - old(content.Repr()))
    {
      hide Valid, Received, H.Find, Rests, Unfound, PiecesOk, Fresh, Tidy, Unwritten, Pending, Unfinished,
        ChunkQueue.Valid, ChunkQueue.Pieces, Conserved, Left;
      Opens();
      ghost var q := readQueue.Pieces();
      LeftOk(q, a);
      LeftIs(q, a);
      failed := HandleReadState(a, disk);
      if state == REQUEST_END {
        BeginBody(hasBody, length);
      }
    }

    /** How far the reads have come: the header is what the reads so far bring, or they have brought
        none. */
    ghost predicate Came(ps: seq<Piece>, arrivals: seq<Arrival>)
      requires PiecesOk(ps) && Fresh(ps)
      reads this`parsed, this`request, this`state, readQueue, readQueue.nodes
    {
      && Header() == HeaderLength(ps, arrivals)
      && (!parsed ==> state == StateAfter(ps, arrivals))
      && (state == READ ==> !parsed && readQueue.Pieces() == QueueAfter(ps, arrivals))
      && (state != ERROR ==> NoneFailed(arrivals))
      && (parsed && state == ERROR ==>
            arrivals != [] && var a := arrivals[|arrivals| - 1]; a.Failed? || a.Closed?)
      && (Tidy(ps) && state != ERROR ==> Tidy(readQueue.Pieces()))
    }

    lemma CameStarts(ps: seq<Piece>, arrivals: seq<Arrival>)
      requires PiecesOk(ps) && Fresh(ps) && ps == readQueue.Pieces() && state == READ && !parsed
      ensures Came(ps, arrivals[..0])
    {
    }

    lemma CameOn(ps: seq<Piece>, arrivals: seq<Arrival>, n: nat, q: seq<Piece>, reading: bool, was: Option<nat>)
      requires PiecesOk(ps) && Fresh(ps) && n < |arrivals| && HeaderLength(ps, arrivals[..n]) == was
      requires (reading ==> was.None? && q == QueueAfter(ps, arrivals[..n])) && (!reading ==> was.Some?)
      requires NoneFailed(arrivals[..n]) && (Tidy(ps) ==> Tidy(q)) && ReadOutcome(q, reading, was, arrivals[n])
      ensures Came(ps, arrivals[..n + 1])
    {
      hide Tidy, Received, Left, H.Find, Unfound, Rests, QueueAfter, HeaderLength, StateAfter, Searched, PiecesOk,
        Fresh;
      RunNext(ps, arrivals, n);
      assert arrivals[..n + 1] == arrivals[..n] + [arrivals[n]];
    }

    /** Reading one request: however its bytes are cut into `arrivals`, those read so far are the
        header, the body and the leftover, in this order; the header is what the first successful
        search finds; the body is never longer than announced, and of that length when the request is
        handed on, unless storing it has failed.  From a queue without empty or finished chunks the
        header is the shortest one if its empty line does not stretch over three of the reads, and
        every empty line that lies in one read or in two neighbours ends a header. */
    method ReadRequest(arrivals: seq<Arrival>, disks: nat -> nat -> (bool, bool), hasBody: bool, length: nat)
      returns (n: nat, failed: bool)
      requires Conserved() && state == READ && !parsed
      modifies this, readQueue, readQueue.Repr(), content, content.Repr()
      ensures Conserved() && n <= |arrivals| && received == ArrivedUpTo(old(received), arrivals, n)
      ensures n < |arrivals| ==> state == HANDLE_REQUEST || state == ERROR
      ensures Under(hasBody, length, failed) && Came(old(readQueue.Pieces()), arrivals[..n])
      ensures OnlyWhileReading(old(readQueue.Pieces()), arrivals, n)
      ensures parsed ==> |request| >= 4 && request[|request| - 4..] == H.END && request <= received
      ensures Tidy(old(readQueue.Pieces())) && n > 0 && !arrivals[0].Failed? ==>
        ShortestHeader(Rests(old(readQueue.Pieces())) + Reads(arrivals[..n]), received,
                       if parsed then Some(request) else None)
      ensures parsed && !failed && !arrivals[n - 1].Failed? ==>
        content.bytesIn == if HeaderLength(old(readQueue.Pieces()), arrivals[..n - 1]).None? then 0
          else Least(length, |received| - |request|)
      ensures failed ==>
        && state == HANDLE_REQUEST && httpStatus == 413 && length > UPLOAD_USING_TEMPFILE_THRESHOLD
        && n > 0 && Unwritten(disks(n - 1))
    {
      hide Conserved, Valid, Under, ArrivedUpTo, ChunkQueue.Valid, ChunkQueue.Pieces, Came, HeaderLength, Tidy, Fresh,
        PiecesOk, Unwritten, Rests, Reads, ShortestHeader, SoFar, OnlyWhileReading;
      ghost var ps, was := readQueue.Pieces(), received;
      n, failed := 0, false;
      SoFarStarts(ps, arrivals, hasBody, length);
      while n < |arrivals| && (state == READ || state == READ_POST)
        invariant n <= |arrivals| && SoFar(ps, was, arrivals, n, failed, hasBody, length)
        invariant failed ==> state == HANDLE_REQUEST && n > 0 && Unwritten(disks(n - 1))
        invariant fresh(readQueue.Repr() - old(readQueue.Repr())) && fresh(content.Repr() - old(content.Repr()))
      {
        NotFailed(ps, was, arrivals, n, failed, hasBody, length);
        failed := ReadNext(arrivals, n, disks(n), hasBody, length, ps, was);
        n := n + 1;
      }
      SoFarEnds(ps, was, arrivals, n, failed, hasBody, length);
    }

    /** Everything that holds after `n` reads. */
    ghost predicate SoFar(ps: seq<Piece>, was: Bytes, arrivals: seq<Arrival>, n: nat, failed: bool, hasBody: bool,
                          length: nat)
      reads this, readQueue, readQueue.nodes, readQueue.spare, content, content.nodes, content.spare
    {
      && PiecesOk(ps) && Fresh(ps) && n <= |arrivals| && Conserved() && was == Pending(ps)
      && received == ArrivedUpTo(was, arrivals, n) && Under(hasBody, length, failed) && Came(ps, arrivals[..n])
      && OnlyWhileReading(ps, arrivals, n) && BodyCame(ps, arrivals, n, failed, length)
      && (n > 0 ==> NoneFailed(arrivals[..n - 1]))
      && (failed ==> state == HANDLE_REQUEST && httpStatus == 413 && length > UPLOAD_USING_TEMPFILE_THRESHOLD)
    }

    lemma SoFarStarts(ps: seq<Piece>, arrivals: seq<Arrival>, hasBody: bool, length: nat)
      requires Conserved() && state == READ && !parsed && ps == readQueue.Pieces()
      ensures PiecesOk(ps) && Fresh(ps) && SoFar(ps, received, arrivals, 0, false, hasBody, length)
    {
      Opens();
      hide Conserved, Tidy;
      CameStarts(ps, arrivals);
      ArrivedNone(received, arrivals);
      assert [] + [] + Pending(ps) == Pending(ps);
    }

    lemma NotFailed(ps: seq<Piece>, was: Bytes, arrivals: seq<Arrival>, n: nat, failed: bool, hasBody: bool,
                    length: nat)
      requires SoFar(ps, was, arrivals, n, failed, hasBody, length) && (state == READ || state == READ_POST)
      ensures !failed
    {
    }

    /** The next read. */
    method ReadNext(arrivals: seq<Arrival>, n: nat, disk: nat -> (bool, bool), hasBody: bool, length: nat,
                    ghost ps: seq<Piece>, ghost was: Bytes) returns (failed: bool)
      requires n < |arrivals| && SoFar(ps, was, arrivals, n, false, hasBody, length)
        && (state == READ || state == READ_POST)
      modifies this, readQueue, readQueue.Repr(), content, content.Repr()
      ensures SoFar(ps, was, arrivals, n + 1, failed, hasBody, length)
      ensures failed ==> state == HANDLE_REQUEST && Unwritten(disk)
      ensures fresh(readQueue.Repr() - old(readQueue.Repr())) && fresh(content.Repr() - old(content.Repr()))
    {
      ghost var q, reading, header := readQueue.Pieces(), state == READ, Header();
      CameFacts(ps, arrivals, n);
      ReadingOn(ps, arrivals, n);
      hide OnlyWhileReading, StateAfter;
      hide Conserved, Came, HeaderLength, ReadOutcome, Tidy, Fresh, PiecesOk, Unwritten, Arrived, ArrivedUpTo, Under,
        Pending, Header, QueueAfter, ChunkQueue.Pieces;
      failed := ReadOnce(arrivals[n], disk, hasBody, length);
      ArrivedNext(was, arrivals, n);
      CameOn(ps, arrivals, n, q, reading, header);
    }

    lemma SoFarEnds(ps: seq<Piece>, was: Bytes, arrivals: seq<Arrival>, n: nat, failed: bool, hasBody: bool,
                    length: nat)
      requires SoFar(ps, was, arrivals, n, failed, hasBody, length)
      ensures PiecesOk(ps) && Fresh(ps) && n <= |arrivals|
      ensures Conserved() && received == ArrivedUpTo(was, arrivals, n)
      ensures Under(hasBody, length, failed) && state != REQUEST_END && Came(ps, arrivals[..n])
      ensures OnlyWhileReading(ps, arrivals, n)
      ensures parsed ==> n > 0 && |request| >= 4 && request[|request| - 4..] == H.END && request <= received
      ensures Tidy(ps) && n > 0 && !arrivals[0].Failed? ==>
        ShortestHeader(Rests(ps) + Reads(arrivals[..n]), received, if parsed then Some(request) else None)
      ensures parsed && !failed && !arrivals[n - 1].Failed? ==>
        content.bytesIn == if HeaderLength(ps, arrivals[..n - 1]).None? then 0
          else Least(length, |received| - |request|)
      ensures failed ==> httpStatus == 413 && length > UPLOAD_USING_TEMPFILE_THRESHOLD
    {
      HeaderFirst();
      hide Conserved, Came, HeaderLength, Tidy, Fresh, PiecesOk, Pending, Rests, Reads, ShortestHeader;
      CameShortest(ps, arrivals, n);
    }

    lemma HeaderFirst()
      requires Conserved()
      ensures parsed ==> request <= received
    {
    }

    /** The body, as far as the last read has brought it. */
    ghost predicate BodyCame(ps: seq<Piece>, arrivals: seq<Arrival>, n: nat, failed: bool, length: nat)
      requires PiecesOk(ps) && Fresh(ps) && n <= |arrivals|
      reads this, content
    {
      parsed && !failed && n > 0 && !arrivals[n - 1].Failed? ==>
        content.bytesIn == if HeaderLength(ps, arrivals[..n - 1]).None? then 0
          else Least(length, |received| - |request|)
    }

    lemma CameFacts(ps: seq<Piece>, arrivals: seq<Arrival>, n: nat)
      requires PiecesOk(ps) && Fresh(ps) && n <= |arrivals| && Came(ps, arrivals[..n])
      ensures Header() == HeaderLength(ps, arrivals[..n])
      ensures state == READ ==>
        !parsed && readQueue.Pieces() == QueueAfter(ps, arrivals[..n]) && StateAfter(ps, arrivals[..n]) == READ
      ensures state != ERROR ==> NoneFailed(arrivals[..n]) && (Tidy(ps) ==> Tidy(readQueue.Pieces()))
    {
    }

    /** What the reads say of the header. */
    lemma CameShortest(ps: seq<Piece>, arrivals: seq<Arrival>, n: nat)
      requires PiecesOk(ps) && Fresh(ps) && n <= |arrivals| && Came(ps, arrivals[..n])
      requires n > 0 ==> NoneFailed(arrivals[..n - 1])
      requires received == Pending(ps) + ArrivedAll(arrivals[..n]) && (parsed ==> request <= received)
      ensures parsed ==> n > 0 && |request| >= 4 && request[|request| - 4..] == H.END
      ensures Tidy(ps) && n > 0 && !arrivals[0].Failed? ==>
        ShortestHeader(Rests(ps) + Reads(arrivals[..n]), received, if parsed then Some(request) else None)
    {
      CameFacts(ps, arrivals, n);
      HeaderFacts();
      hide *;
      if parsed {
        RunEnds(ps, arrivals, n, received, request);
      }
      if Tidy(ps) && n > 0 && !arrivals[0].Failed? {
        RunShortest(ps, arrivals, n, received, if parsed then Some(request) else None);
      }
    }

    lemma HeaderFacts()
      ensures Header() == if parsed then Some(|request|) else None
    {
    }

    /** connection_reset, for the next request on the same connection: the leftover of this one is
        what has been received of it. */
    method NextRequest()
      requires Conserved()
      modifies this`state, this`httpStatus, this`received, this`parsed, content, content.Repr()
      ensures Conserved() && state == READ && !parsed && received == old(Leftover())
      ensures readQueue.Pieces() == old(readQueue.Pieces())
    {
      hide Conserved, Fresh, PiecesOk, PiecesOf, Pending, ChunkQueue.Valid, ChunkQueue.Pieces, ChunkQueue.ListOk,
        ChunkQueue.SpareOk;
      Opens();
      content.Reset();
      received := Pending(readQueue.Pieces());
      parsed := false;
      state, httpStatus := READ, 0;
      EmptyQueue();
      assert [] + [] + received == received;
      Closes();
    }

    lemma EmptyQueue()
      ensures PiecesOk([]) && Pending([]) == []
    {
    }

    /** What is in the queue beyond this request. */
    ghost function Leftover(): Bytes
      requires Conserved()
      reads this, readQueue, readQueue.nodes, readQueue.spare, content, content.nodes, content.spare
    {
      Pending(readQueue.Pieces())
    }

    /** The outcome of looking for a header in what has arrived, `ps`. */
    ghost predicate HeaderOutcome(ps: seq<Piece>, closed: bool)
      reads this, readQueue, readQueue.nodes
    {
      PiecesOk(ps) && Concat(Rests(ps)) == received && match H.Find(Rests(ps))
        case Some(n) => parsed && |request| == n && state == REQUEST_END
        case None =>
          && !parsed && state == (if closed && Unfound(ps) == READ then ERROR else Unfound(ps))
          && readQueue.Pieces() == Unfinished(ps)
    }

    /** The outcome of reading for the body: all that is there, up to the length announced. */
    ghost predicate BodyOutcome(closed: bool, failed: bool)
      reads this, content
    {
      && (!failed ==> content.bytesIn == Least(contentLength, |received| - |request|))
      && state == (if content.bytesIn == contentLength || failed then HANDLE_REQUEST else if closed then ERROR
        else READ_POST)
    }

    lemma Separate()
      requires Valid()
      ensures readQueue != content && forall c :: c in readQueue.nodes ==> c !in content.Repr()
    {
      assert forall c :: c in readQueue.nodes ==> c in readQueue.Repr();
    }

    /** Reading from chunks changes how far they have been read only. */
    twostate lemma SameQueue()
      requires old(Valid()) && Valid() && readQueue.nodes == old(readQueue.nodes)
      requires forall c :: c in readQueue.nodes ==> c.content == old(c.content)
      ensures Contents(readQueue.Pieces()) == old(Contents(readQueue.Pieces()))
    {
    }

    lemma Opens()
      requires Conserved()
      ensures Valid() && Fresh(readQueue.Pieces()) && PiecesOk(readQueue.Pieces()) && PiecesOk(content.Pieces())
        && readQueue != content
      ensures received == (if parsed then request else []) + Pending(content.Pieces()) + Pending(readQueue.Pieces())
      ensures content.bytesIn == |Pending(content.Pieces())| && (!parsed ==> content.bytesIn == 0)
    {
    }

    lemma Closes()
      requires Valid() && Fresh(readQueue.Pieces()) && PiecesOk(readQueue.Pieces()) && PiecesOk(content.Pieces())
      requires received == (if parsed then request else []) + Pending(content.Pieces()) + Pending(readQueue.Pieces())
      requires content.bytesIn == |Pending(content.Pieces())| && (!parsed ==> content.bytesIn == 0)
      ensures Conserved()
    {
    }

    lemma PostingStarts()
      requires Valid() && ReadUpTo(readQueue.Pieces(), 0) && content.bytesIn <= contentLength
      ensures PiecesOk(readQueue.Pieces()) && PiecesOk(content.Pieces())
      ensures Posting(Pending(readQueue.Pieces()), Pending(content.Pieces()), content.bytesIn, 0, readQueue.first, 0)
      ensures (readQueue.first != null ==> readQueue.first in readQueue.nodes) && readQueue != content
    {
    }

    lemma PostingFacts(all: Bytes, body: Bytes, before: nat, t: nat, c: Chunk?, k: nat)
      requires Posting(all, body, before, t, c, k)
      ensures k <= |readQueue.nodes| && (c != null ==> c in readQueue.nodes)
        && content.bytesIn == before + t <= contentLength && readQueue != content
      ensures Moving(readQueue, content, all, body, t) && t <= |all| && AllButOne(readQueue.Pieces())
      ensures c == null || content.bytesIn == contentLength ==> t == Least(contentLength - before, |all|)
    {
      if c == null && content.bytesIn != contentLength {
        PendingRead(readQueue.Pieces());
      }
    }
  }

  /** The state after a search in vain. */
  function Unfound(ps: seq<Piece>): (state: State)
    ensures state.READ? || state.HANDLE_REQUEST?
  {
    if TotalLength(ps) > MAX_HEADER then HANDLE_REQUEST else READ
  }

  lemma UnfoundIs(ps: seq<Piece>)
    ensures Unfound(ps) == if TotalLength(ps) > MAX_HEADER then HANDLE_REQUEST else READ
  {
  }

  lemma HeaderEnds(ps: seq<Piece>)
    requires PiecesOk(ps)
    ensures forall at: nat, lastOffset: nat, n: nat :: EndsAt(ps, at, lastOffset, n) ==>
      PiecesOk(ps[..at]) && lastOffset <= |ps[at].Rest()| && |Pending(ps[..at])| + lastOffset == n
  {
  }

  lemma MovedFacts(rq: ChunkQueue, dst: ChunkQueue, all: Bytes, body: Bytes, t: nat)
    requires Moving(rq, dst, all, body, t)
    ensures rq.Valid() && dst.Valid() && Apart(rq, dst) && PiecesOk(rq.Pieces()) && PiecesOk(dst.Pieces()) && t <= |all|
    ensures Pending(dst.Pieces()) + Pending(rq.Pieces()) == body + all && body <= Pending(dst.Pieces())
    ensures |Pending(dst.Pieces())| == |body| + t
  {
    hide ChunkQueue.Valid, Pending, PiecesOk, PiecesOf, ChunkQueue.Pieces, ChunkQueue.ListOk, ChunkQueue.SpareOk;
    rq.Parts();
    dst.Parts();
    assert all[..t] + all[t..] == all;
  }

  lemma Reassociate(r: Bytes, b: Bytes, p: Bytes, a: Bytes, c: Bytes, q: Bytes)
    requires c + q == b + (p + a)
    ensures (r + b + p) + a == r + c + q
  {
    assert (r + b + p) + a == r + (b + (p + a)) == r + (c + q) == r + c + q;
  }

  lemma LeastShift(a: int, b: int, c: int)
    ensures b + Least(a - b, c) == Least(a, b + c)
  {
  }

  lemma AllButOneOk(ps: seq<Piece>)
    requires AllButOne(ps)
    ensures PiecesOk(ps)
  {
  }

  lemma DropsWell(ps: seq<Piece>)
    requires AllButOne(ps)
    ensures PiecesOk(ps) && PiecesOk(Unfinished(ps)) && Fresh(Unfinished(ps)) && Pending(Unfinished(ps)) == Pending(ps)
  {
    var m: nat :| ReadUpTo(ps, m);
    UnfinishedPending(ps);
    UnfinishedFresh(ps, m);
  }

  /** What has arrived is at the end of the queue, which is then cleaned. */
  function Received(ps: seq<Piece>, a: Arrival): seq<Piece> {
    match a
    case Nothing => Cleaned(ps)
    case Data(bytes) => Cleaned(ps + [Piece(MEM(bytes), 0)])
    case Closed => Cleaned(ps + [Piece(MEM([]), 0)])
    case Failed => ps + [Piece(MEM([]), 0)]
  }

  function Arrived(a: Arrival): Bytes {
    if a.Data? then a.bytes else []
  }

  function ArrivedAll(arrivals: seq<Arrival>): Bytes {
    if arrivals == [] then [] else ArrivedAll(arrivals[..|arrivals| - 1]) + Arrived(arrivals[|arrivals| - 1])
  }

  /** What has been received after the first `n` of the arrivals. */
  function ArrivedUpTo(was: Bytes, arrivals: seq<Arrival>, n: nat): Bytes
    requires n <= |arrivals|
  {
    was + ArrivedAll(arrivals[..n])
  }

  lemma ArrivedNone(was: Bytes, arrivals: seq<Arrival>)
    ensures ArrivedUpTo(was, arrivals, 0) == was
  {
  }

  lemma ArrivedNext(was: Bytes, arrivals: seq<Arrival>, n: nat)
    requires n < |arrivals|
    ensures ArrivedUpTo(was, arrivals, n + 1) == ArrivedUpTo(was, arrivals, n) + Arrived(arrivals[n])
  {
    assert arrivals[..n + 1] == arrivals[..n] + [arrivals[n]];
  }

  function BodyLength(hasBody: bool, length: nat): nat {
    if hasBody then length else 0
  }

  lemma {:induction false} CleanedFresh(ps: seq<Piece>)
    requires PiecesOk(ps) && Fresh(ps)
    ensures Fresh(Cleaned(ps))
    decreases |ps|
  {
    if ps != [] {
      if Empty(ps[0]) {
        CleanedFresh(ps[1..]);
      } else {
        CleanedAfterKeeps(ps);
        forall i | 0 < i < |CleanedAfter(ps)| ensures CleanedAfter(ps)[i].content.MEM?
          && CleanedAfter(ps)[i].offset == 0 {
          var j :| 0 < j < |ps| && CleanedAfter(ps)[i] == ps[j];
        }
      }
    }
  }

  /** Receiving adds exactly what has arrived. */
  lemma ReceivedAdds(ps: seq<Piece>, a: Arrival)
    requires PiecesOk(ps) && Fresh(ps)
    ensures var now := Received(ps, a);
      PiecesOk(now) && Fresh(now) && ReadUpTo(now, 0) && Pending(now) == Pending(ps) + Arrived(a)
  {
    var more := if a.Nothing? then ps else ps + [Piece(MEM(Arrived(a)), 0)];
    if !a.Nothing? {
      PendingSingle(Piece(MEM(Arrived(a)), 0));
      PendingConcat(ps, [Piece(MEM(Arrived(a)), 0)]);
    }
    assert Fresh(more);
    hide Pending, Cleaned;
    CleanedKeeps(more);
    CleanedFresh(more);
    assert Pending(ps) + [] == Pending(ps);
  }

  function Least(a: int, b: int): int {
    if a < b then a else b
  }

  // ----- a whole run

  /** What a read in which no header is found leaves in the queue. */
  function Left(ps: seq<Piece>, a: Arrival): seq<Piece> {
    Unfinished(Received(ps, a))
  }

  lemma LeftIs(ps: seq<Piece>, a: Arrival)
    ensures Left(ps, a) == Unfinished(Received(ps, a))
  {
  }

  lemma LeftOk(ps: seq<Piece>, a: Arrival)
    requires PiecesOk(ps) && Fresh(ps)
    ensures PiecesOk(Received(ps, a)) && PiecesOk(Left(ps, a)) && Fresh(Left(ps, a))
    ensures Pending(Received(ps, a)) == Pending(ps) + Arrived(a) == Pending(Left(ps, a))
  {
    hide Received, Pending, Unfinished, Fresh, PiecesOk;
    ReceivedAdds(ps, a);
    OneLeft(Received(ps, a), 0);
    DropsWell(Received(ps, a));
  }

  /** The queue after reads that have brought no header. */
  ghost function QueueAfter(ps: seq<Piece>, arrivals: seq<Arrival>): (now: seq<Piece>)
    requires PiecesOk(ps) && Fresh(ps)
    ensures PiecesOk(now) && Fresh(now)
    decreases |arrivals|
  {
    if arrivals == [] then ps
    else
      var n := |arrivals| - 1;
      var was := QueueAfter(ps, arrivals[..n]);
      LeftOk(was, arrivals[n]);
      Left(was, arrivals[n])
  }

  /** The chunks that the last of these reads leaves to be searched. */
  ghost function Searched(ps: seq<Piece>, arrivals: seq<Arrival>): (now: seq<Piece>)
    requires PiecesOk(ps) && Fresh(ps) && arrivals != []
    ensures PiecesOk(now)
  {
    var n := |arrivals| - 1;
    LeftOk(QueueAfter(ps, arrivals[..n]), arrivals[n]);
    Received(QueueAfter(ps, arrivals[..n]), arrivals[n])
  }

  /** The header that the first successful search of these reads finds; a read that fails is not
      followed by a search. */
  ghost function HeaderLength(ps: seq<Piece>, arrivals: seq<Arrival>): (length: Option<nat>)
    requires PiecesOk(ps) && Fresh(ps)
    decreases |arrivals|
  {
    if arrivals == [] then None
    else
      var before := HeaderLength(ps, arrivals[..|arrivals| - 1]);
      if before.Some? || arrivals[|arrivals| - 1].Failed? then before else H.Find(Rests(Searched(ps, arrivals)))
  }

  /** The state after reads that have brought no header. */
  ghost function StateAfter(ps: seq<Piece>, arrivals: seq<Arrival>): (state: State)
    requires PiecesOk(ps) && Fresh(ps)
  {
    if arrivals == [] then READ
    else
      var a := arrivals[|arrivals| - 1];
      if a.Failed? || (a.Closed? && Unfound(Searched(ps, arrivals)) == READ) then ERROR
      else Unfound(Searched(ps, arrivals))
  }

  /** As long as no header had been found, there was reason to read on. */
  ghost predicate OnlyWhileReading(ps: seq<Piece>, arrivals: seq<Arrival>, n: nat)
    requires PiecesOk(ps) && Fresh(ps) && n <= |arrivals|
  {
    forall m: nat :: m < n && HeaderLength(ps, arrivals[..m]).None? ==> StateAfter(ps, arrivals[..m]) == READ
  }

  lemma ReadingOn(ps: seq<Piece>, arrivals: seq<Arrival>, n: nat)
    requires PiecesOk(ps) && Fresh(ps) && n < |arrivals| && OnlyWhileReading(ps, arrivals, n)
    requires HeaderLength(ps, arrivals[..n]).Some? || StateAfter(ps, arrivals[..n]) == READ
    ensures OnlyWhileReading(ps, arrivals, n + 1)
  {
  }

  lemma RunNext(ps: seq<Piece>, arrivals: seq<Arrival>, n: nat)
    requires PiecesOk(ps) && Fresh(ps) && n < |arrivals|
    ensures var was, now, a := arrivals[..n], arrivals[..n + 1], arrivals[n];
      && Searched(ps, now) == Received(QueueAfter(ps, was), a) && QueueAfter(ps, now) == Left(QueueAfter(ps, was), a)
      && (HeaderLength(ps, was).Some? || a.Failed? ==> HeaderLength(ps, now) == HeaderLength(ps, was))
      && (HeaderLength(ps, was).None? && !a.Failed? ==> HeaderLength(ps, now) == H.Find(Rests(Searched(ps, now))))
      && StateAfter(ps, now) == if a.Failed? || (a.Closed? && Unfound(Searched(ps, now)) == READ) then ERROR
         else Unfound(Searched(ps, now))
  {
    assert arrivals[..n + 1][..n] == arrivals[..n];
    hide Received, H.Find, Unfound, Left, Rests, PiecesOk, Fresh;
  }

  lemma {:induction false} QueuePending(ps: seq<Piece>, arrivals: seq<Arrival>)
    requires PiecesOk(ps) && Fresh(ps)
    ensures Pending(QueueAfter(ps, arrivals)) == Pending(ps) + ArrivedAll(arrivals)
    decreases |arrivals|
  {
    hide Pending, Left, Arrived, Fresh, PiecesOk;
    if arrivals == [] {
      assert Pending(ps) + [] == Pending(ps);
    } else {
      var n := |arrivals| - 1;
      QueuePending(ps, arrivals[..n]);
      LeftOk(QueueAfter(ps, arrivals[..n]), arrivals[n]);
      var was, a := Pending(ps) + ArrivedAll(arrivals[..n]), Arrived(arrivals[n]);
      assert was + a == Pending(ps) + (ArrivedAll(arrivals[..n]) + a);
    }
  }

  lemma StillOccurs(s: Bytes, more: Bytes, j: nat)
    requires H.Occurs(s, j)
    ensures H.Occurs(s + more, j)
  {
    assert (s + more)[j..j + 4] == s[j..j + 4];
  }

  /** What a search finds ends with an empty line. */
  lemma FoundIsEnded(ps: seq<Piece>, n: nat)
    requires PiecesOk(ps) && H.Find(Rests(ps)) == Some(n)
    ensures n >= 4 && H.Occurs(Pending(ps), n - 4)
  {
    hide Pending, H.Find, H.Occurs, Rests, PiecesOk;
    RestsFlat(ps);
    H.FindIsFirstVisible(Rests(ps));
  }

  /** Whatever the queue and the reads, the header ends with an empty line. */
  lemma {:induction false} HeaderIsEnded(ps: seq<Piece>, arrivals: seq<Arrival>)
    requires PiecesOk(ps) && Fresh(ps) && HeaderLength(ps, arrivals).Some?
    ensures var n := HeaderLength(ps, arrivals).value; n >= 4 && H.Occurs(Pending(ps) + ArrivedAll(arrivals), n - 4)
    decreases |arrivals|
  {
    hide Pending, Received, H.Find, H.Occurs, Rests, Fresh, PiecesOk, Left, Arrived;
    var m := |arrivals| - 1;
    var was := Pending(ps) + ArrivedAll(arrivals[..m]);
    assert was + Arrived(arrivals[m]) == Pending(ps) + ArrivedAll(arrivals);
    if HeaderLength(ps, arrivals[..m]).Some? {
      HeaderIsEnded(ps, arrivals[..m]);
      StillOccurs(was, Arrived(arrivals[m]), HeaderLength(ps, arrivals).value - 4);
    } else {
      QueuePending(ps, arrivals[..m]);
      LeftOk(QueueAfter(ps, arrivals[..m]), arrivals[m]);
      FoundIsEnded(Searched(ps, arrivals), HeaderLength(ps, arrivals).value);
    }
  }

  lemma NothingYet(ps: seq<Piece>, arrivals: seq<Arrival>, n: nat)
    requires PiecesOk(ps) && Fresh(ps) && n <= |arrivals|
    ensures n == 0 ==> HeaderLength(ps, arrivals[..n]) == None
  {
  }

  // ----- a queue without empty or finished chunks

  /** Every chunk has something left to read. */
  ghost predicate Tidy(ps: seq<Piece>) {
    PiecesOk(ps) && Fresh(ps) && forall i :: 0 <= i < |ps| ==> ps[i].Rest() != []
  }

  ghost predicate NoneFailed(arrivals: seq<Arrival>) {
    forall i :: 0 <= i < |arrivals| ==> !arrivals[i].Failed?
  }

  /** The reads that brought something. */
  function Reads(arrivals: seq<Arrival>): seq<Bytes> {
    if arrivals == [] then []
    else
      var n := |arrivals| - 1;
      Reads(arrivals[..n]) + if Arrived(arrivals[n]) == [] then [] else [Arrived(arrivals[n])]
  }

  /** Dropping the finished chunks of a queue that has been read from leaves a tidy one. */
  lemma {:induction false} TidyRest(ps: seq<Piece>)
    ensures AllButOne(ps) && NoneEmpty(ps) ==> Tidy(Unfinished(ps))
  {
    if AllButOne(ps) && NoneEmpty(ps) {
      var m: nat :| ReadUpTo(ps, m);
      TidyRestFrom(ps, m);
    }
  }

  lemma {:induction false} TidyRestFrom(ps: seq<Piece>, m: nat)
    requires ReadUpTo(ps, m) && NoneEmpty(ps)
    ensures Tidy(Unfinished(ps))
    decreases |ps|
  {
    if ps != [] && ps[0].offset == |ps[0].content.data| {
      TidyRestFrom(ps[1..], if m > 0 then m - 1 else 0);
    }
  }

  lemma {:induction false} TidyCleaned(ps: seq<Piece>)
    requires forall i :: 0 <= i < |ps| ==> !Empty(ps[i])
    ensures CleanedAfter(ps) == ps && Cleaned(ps) == ps
  {
    if ps != [] {
      TidyCleaned(ps[1..]);
    }
  }

  /** The cleaning loop takes away an empty chunk at the end. */
  lemma {:induction false} LastCleaned(ps: seq<Piece>, last: Piece)
    requires (forall i :: 0 <= i < |ps| ==> !Empty(ps[i])) && Empty(last)
    ensures (ps != [] ==> CleanedAfter(ps + [last]) == ps) && Cleaned(ps + [last]) == ps
  {
    var now := ps + [last];
    if ps == [] {
      assert now[1..] == [];
    } else if |ps| == 1 {
      assert now[2..] == [];
      assert [now[0]] + [] == ps;
    } else {
      LastCleaned(ps[1..], last);
      assert now[1..] == ps[1..] + [last] && !Empty(now[1]);
      assert [ps[0]] + ps[1..] == ps;
    }
  }

  /** A read that does not fail adds itself as a chunk, if it brought something. */
  lemma TidyLeft(ps: seq<Piece>, a: Arrival)
    requires Tidy(ps) && !a.Failed?
    ensures var now := Received(ps, a);
      && now == (if Arrived(a) == [] then ps else ps + [Piece(MEM(Arrived(a)), 0)])
      && Tidy(now) && Left(ps, a) == now
      && Rests(now) == Rests(ps) + if Arrived(a) == [] then [] else [Arrived(a)]
  {
    assert forall i :: 0 <= i < |ps| ==> !Empty(ps[i]);
    var p := Piece(MEM(Arrived(a)), 0);
    if a.Nothing? {
      TidyCleaned(ps);
    } else if Arrived(a) == [] {
      LastCleaned(ps, p);
    } else {
      TidyCleaned(ps + [p]);
      assert p.Rest() == Arrived(a);
    }
  }

  lemma ReceivedNoneEmpty(ps: seq<Piece>, a: Arrival)
    ensures Tidy(ps) && !a.Failed? ==> NoneEmpty(Received(ps, a))
  {
    if Tidy(ps) && !a.Failed? {
      TidyLeft(ps, a);
    }
  }

  lemma {:induction false} TidyQueue(ps: seq<Piece>, arrivals: seq<Arrival>)
    requires Tidy(ps) && NoneFailed(arrivals)
    ensures Tidy(QueueAfter(ps, arrivals)) && Rests(QueueAfter(ps, arrivals)) == Rests(ps) + Reads(arrivals)
    decreases |arrivals|
  {
    if arrivals != [] {
      var n := |arrivals| - 1;
      hide Tidy, Left, Received, Rests;
      TidyQueue(ps, arrivals[..n]);
      TidyLeft(QueueAfter(ps, arrivals[..n]), arrivals[n]);
    }
  }

  /** From a tidy queue on, the header is what the search finds in the list of all reads, of those
      before and of those after it. */
  lemma {:induction false} HeaderInReads(ps: seq<Piece>, arrivals: seq<Arrival>)
    requires Tidy(ps) && arrivals != [] && !arrivals[0].Failed? && NoneFailed(arrivals[..|arrivals| - 1])
    ensures HeaderLength(ps, arrivals) == H.Find(Rests(ps) + Reads(arrivals))
    decreases |arrivals|
  {
    var n := |arrivals| - 1;
    var was, more := arrivals[..n], if Arrived(arrivals[n]) == [] then [] else [Arrived(arrivals[n])];
    assert Rests(ps) + Reads(arrivals) == (Rests(ps) + Reads(was)) + more;
    hide Tidy, Left, Received, Rests, H.Find;
    if n > 0 {
      assert NoneFailed(was[..n - 1]) && was[0] == arrivals[0];
      HeaderInReads(ps, was);
    }
    if HeaderLength(ps, was).Some? {
      H.FindGrows(Rests(ps) + Reads(was), more);
    } else if !arrivals[n].Failed? {
      assert arrivals[..n + 1] == arrivals;
      RunNext(ps, arrivals, n);
      TidyQueue(ps, was);
      TidyLeft(QueueAfter(ps, was), arrivals[n]);
    } else {
      assert more == [] && (Rests(ps) + Reads(was)) + [] == Rests(ps) + Reads(was);
    }
  }

  lemma {:induction false} ReadsConcat(ps: seq<Piece>, arrivals: seq<Arrival>)
    requires PiecesOk(ps)
    ensures Concat(Rests(ps) + Reads(arrivals)) == Pending(ps) + ArrivedAll(arrivals)
    decreases |arrivals|
  {
    hide Rests, Pending;
    if arrivals == [] {
      RestsFlat(ps);
      assert Rests(ps) + [] == Rests(ps) && Pending(ps) + [] == Pending(ps);
    } else {
      var n := |arrivals| - 1;
      ReadsConcat(ps, arrivals[..n]);
      var was, a := Rests(ps) + Reads(arrivals[..n]), Arrived(arrivals[n]);
      var now := Rests(ps) + Reads(arrivals);
      if a == [] {
        assert now == was;
      } else {
        assert now == was + [a];
        ConcatNext(now, |was|);
        assert now[..|was| + 1] == now && now[..|was|] == was;
      }
    }
  }

  /** Of what has been received in these chunks the header is the shortest part that ends with an empty
      line, exactly if the first empty line does not stretch over three chunks; without a header there
      is no empty line in one chunk or in two neighbours. */
  ghost predicate ShortestHeader(vs: seq<Bytes>, received: Bytes, header: Option<Bytes>) {
    Concat(vs) == received && match header
      case Some(request) =>
        && |request| >= 4 && request <= received && request[|request| - 4..] == H.END
        && forall f: nat :: H.First(received, f) ==> (|request| == f + 4 <==> H.InTwo(vs, f))
      case None => forall j: nat :: !H.Visible(vs, j)
  }

  lemma FoundIsShortest(vs: seq<Bytes>, received: Bytes, header: Option<Bytes>)
    requires Concat(vs) == received && (header.Some? ==> header.value <= received)
    requires H.Find(vs) == match header case Some(request) => Some(|request|) case None => None
    ensures ShortestHeader(vs, received, header)
  {
    H.FindIsFirstVisible(vs);
    if header.Some? {
      EndsSo(header.value, received);
      forall f: nat | H.First(received, f) ensures |header.value| == f + 4 <==> H.InTwo(vs, f) {
        H.ShortestExactly(vs, f);
      }
    }
  }

  lemma EndsSo(request: Bytes, received: Bytes)
    requires request <= received && |request| >= 4 && H.Occurs(received, |request| - 4)
    ensures request[|request| - 4..] == H.END
  {
    assert received[|request| - 4..|request|] == received[..|request|][|request| - 4..];
  }

  lemma RunEnds(ps: seq<Piece>, arrivals: seq<Arrival>, n: nat, received: Bytes, request: Bytes)
    requires PiecesOk(ps) && Fresh(ps) && n <= |arrivals| && request <= received
    requires HeaderLength(ps, arrivals[..n]) == Some(|request|) && received == Pending(ps) + ArrivedAll(arrivals[..n])
    ensures n > 0 && |request| >= 4 && request[|request| - 4..] == H.END
  {
    NothingYet(ps, arrivals, n);
    HeaderIsEnded(ps, arrivals[..n]);
    EndsSo(request, received);
  }

  lemma RunShortest(ps: seq<Piece>, arrivals: seq<Arrival>, n: nat, received: Bytes, header: Option<Bytes>)
    requires Tidy(ps) && 0 < n <= |arrivals| && !arrivals[0].Failed? && NoneFailed(arrivals[..n - 1])
    requires HeaderLength(ps, arrivals[..n]) == match header case Some(request) => Some(|request|) case None => None
    requires received == Pending(ps) + ArrivedAll(arrivals[..n]) && (header.Some? ==> header.value <= received)
    ensures ShortestHeader(Rests(ps) + Reads(arrivals[..n]), received, header)
  {
    var came := arrivals[..n];
    assert came[..|came| - 1] == arrivals[..n - 1] && came[0] == arrivals[0];
    hide HeaderLength, Pending, Rests, Reads, Tidy, ArrivedAll, ShortestHeader, NoneFailed;
    HeaderInReads(ps, came);
    ReadsConcat(ps, came);
    FoundIsShortest(Rests(ps) + Reads(came), received, header);
  }
}
