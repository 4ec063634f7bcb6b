/** lighttpd's chunk queue: a linked list of pieces of memory and of files, with a stack of chunks
    kept for reuse. */
module Chunks {
  import opened Octets

  /** What a chunk stands for; `data` are the octets of the memory or of the stretch of the file.
      An empty buffer and a buffer with an empty string are both MEM([]). */
  datatype Content = MEM(data: Bytes) | FILE(isTemp: bool, data: Bytes)

  class Chunk {
    var content: Content
    var offset: nat
    var next: Chunk?

    /** chunk_init */
    constructor ()
      ensures content == MEM([]) && offset == 0 && next == null
    {
      content, offset, next := MEM([]), 0, null;
    }
  }

  /** A chunk as a value. */
  datatype Piece = Piece(content: Content, offset: nat) {
    predicate Ok() {
      offset <= |content.data|
    }

    /** What has not been read or written yet. */
    function Rest(): Bytes
      requires Ok()
    {
      content.data[offset..]
    }
  }

  ghost predicate PiecesOk(pieces: seq<Piece>) {
    forall i :: 0 <= i < |pieces| ==> pieces[i].Ok()
  }

  /** The octets still to come, in order. */
  ghost function Pending(pieces: seq<Piece>): Bytes
    requires PiecesOk(pieces)
  {
    if pieces == [] then [] else pieces[0].Rest() + Pending(pieces[1..])
  }

  lemma {:induction false} PendingConcat(a: seq<Piece>, b: seq<Piece>)
    requires PiecesOk(a) && PiecesOk(b)
    ensures PiecesOk(a + b) && Pending(a + b) == Pending(a) + Pending(b)
  {
    if a == [] {
      assert a + b == b;
    } else {
      PendingConcat(a[1..], b);
      assert (a + b)[0] == a[0] && (a + b)[1..] == a[1..] + b;
    }
  }

  function At(list: seq<Chunk>, i: nat): Chunk? {
    if i < |list| then list[i] else null
  }

  /** `head` is the first of a linked list of exactly the chunks in `list`. */
  ghost predicate Linked(head: Chunk?, list: seq<Chunk>)
    reads list`next
  {
    head == At(list, 0) && forall i: nat :: i < |list| ==> list[i].next == At(list, i + 1)
  }

  ghost predicate Distinct(list: seq<Chunk>) {
    forall i, j :: 0 <= i < j < |list| ==> list[i] != list[j]
  }

  ghost function PieceOf(c: Chunk): Piece
    reads c`content, c`offset
  {
    Piece(c.content, c.offset)
  }

  ghost function PiecesOf(list: seq<Chunk>): (pieces: seq<Piece>)
    reads list`content, list`offset
    ensures |pieces| == |list| && forall i :: 0 <= i < |list| ==> pieces[i] == PieceOf(list[i])
  {
    if list == [] then [] else PiecesOf(list[..|list| - 1]) + [PieceOf(list[|list| - 1])]
  }

  /** The pieces left when finished ones are taken from the front. */
  function Unfinished(pieces: seq<Piece>): seq<Piece> {
    if pieces != [] && pieces[0].offset == |pieces[0].content.data| then Unfinished(pieces[1..]) else pieces
  }

  lemma {:induction false} UnfinishedPending(pieces: seq<Piece>)
    requires PiecesOk(pieces)
    ensures PiecesOk(Unfinished(pieces)) && Pending(Unfinished(pieces)) == Pending(pieces)
    ensures Unfinished(pieces) != [] ==> Unfinished(pieces)[0].Rest() != []
  {
    if pieces != [] && pieces[0].offset == |pieces[0].content.data| {
      UnfinishedPending(pieces[1..]);
    }
  }

  function TotalLength(pieces: seq<Piece>): nat {
    if pieces == [] then 0 else TotalLength(pieces[..|pieces| - 1]) + |pieces[|pieces| - 1].content.data|
  }

  /** The list without the element at place `m`. */
  function Removed<T>(s: seq<T>, m: nat): (r: seq<T>)
    requires m < |s|
    ensures |r| == |s| - 1 && forall i :: 0 <= i < |r| ==> r[i] == s[if i < m then i else i + 1]
  {
    s[..m] + s[m + 1..]
  }

  lemma OkAppended(pieces: seq<Piece>, piece: Piece)
    requires PiecesOk(pieces) && piece.Ok()
    ensures PiecesOk(pieces + [piece]) && PiecesOk([piece] + pieces) && (pieces != [] ==> PiecesOk(pieces[1..]))
  {
  }

  lemma RemovedSubset<T>(s: seq<T>, m: nat)
    requires m < |s|
    ensures forall x :: x in Removed(s, m) ==> x in s
  {
  }

  lemma RemovedOk(pieces: seq<Piece>, m: nat)
    requires PiecesOk(pieces) && m < |pieces|
    ensures PiecesOk(Removed(pieces, m))
  {
  }

  class ChunkQueue {
    var first: Chunk?
    var last: Chunk?
    var unused: Chunk?
    var unusedChunks: nat
    var bytesIn: nat
    var bytesOut: nat
    ghost var nodes: seq<Chunk>
    ghost var spare: seq<Chunk>

    ghost function Repr(): set<Chunk>
      reads this`nodes, this`spare
    {
      (set c | c in nodes) + (set c | c in spare)
    }

    ghost predicate Valid()
      reads this`first, this`last, this`unused, this`unusedChunks, this`nodes, this`spare, nodes, spare
    {
      ListOk() && SpareOk() && PiecesOk(Pieces()) && forall i :: 0 <= i < |nodes| ==> nodes[i] !in spare
    }

    /** The queue proper. */
    ghost predicate ListOk()
      reads this`first, this`last, this`nodes, nodes`next
    {
      Linked(first, nodes) && last == (if nodes == [] then null else nodes[|nodes| - 1]) && Distinct(nodes)
    }

    /** The stack of unused chunks. */
    ghost predicate SpareOk()
      reads this`unused, this`unusedChunks, this`spare, spare`next
    {
      Linked(unused, spare) && unusedChunks == |spare| && Distinct(spare)
    }

    ghost function Pieces(): (pieces: seq<Piece>)
      reads this`nodes, nodes`content, nodes`offset
      ensures |pieces| == |nodes|
    {
      PiecesOf(nodes)
    }

    /** chunkqueue_init */
    constructor ()
      ensures Valid() && Pieces() == [] && bytesIn == 0 && bytesOut == 0 && Repr() == {}
    {
      first, last, unused := null, null, null;
      unusedChunks, bytesIn, bytesOut := 0, 0, 0;
      nodes, spare := [], [];
    }

    /** The top of the stack. */
    method PopUnused() returns (c: Chunk)
      requires SpareOk() && unused != null
      modifies this`unused, this`unusedChunks, this`spare, {unused}`next
      ensures SpareOk() && c == old(spare)[0] && spare == old(spare)[1..] && c !in spare && c.next == null
    {
      c := unused;
      unused := c.next;
      c.next := null;
      ghost var was := spare;
      spare := spare[1..];
      unusedChunks := unusedChunks - 1;
      assert forall i: nat :: i < |spare| ==> spare[i] == was[i + 1];
    }

    /** chunkqueue_get_unused_chunk: the top of the stack, or a new chunk. */
    method GetUnused() returns (c: Chunk)
      requires Valid()
      modifies this`unused, this`unusedChunks, this`spare, spare
      ensures Valid() && nodes == old(nodes) && Pieces() == old(Pieces())
      ensures c !in nodes && c !in spare && c.next == null && (fresh(c) || c in old(spare))
      ensures Repr() <= old(Repr())
    {
      if unused == null {
        c := new Chunk();
      } else {
        assert unused == spare[0] && unused in spare && unused !in nodes;
        hide ListOk;
        c := PopUnused();
      }
      SamePieces(old(Pieces()));
    }

    lemma SamePieces(was: seq<Piece>)
      requires |nodes| == |was| && forall i :: 0 <= i < |nodes| ==> PieceOf(nodes[i]) == was[i]
      ensures Pieces() == was
    {
    }

    /** chunkqueue_append_chunk */
    method AppendChunk(c: Chunk)
      requires Valid() && c !in nodes && c !in spare && c.next == null && PieceOf(c).Ok()
      modifies this`first, this`last, this`nodes, nodes
      ensures Valid() && nodes == old(nodes) + [c] && Pieces() == old(Pieces()) + [old(PieceOf(c))]
    {
      hide *;
      Parts();
      LastIsNode();
      OkAppended(Pieces(), PieceOf(c));
      ghost var pieces, piece := Pieces(), PieceOf(c);
      LinkLast(c);
      SamePieces(pieces + [piece]);
      Whole();
    }

    method LinkLast(c: Chunk)
      requires ListOk() && c !in nodes && c.next == null
      modifies this`first, this`last, this`nodes, if last == null then {} else {last}`next
      ensures ListOk() && nodes == old(nodes) + [c]
    {
      if last != null {
        last.next := c;
      }
      last := c;
      if first == null {
        first := c;
      }
      ghost var was := nodes;
      nodes := nodes + [c];
      forall i: nat | i < |nodes| ensures nodes[i].next == At(nodes, i + 1) {
        assert i < |was| ==> nodes[i] == was[i];
      }
    }

    /** chunkqueue_prepend_chunk */
    method PrependChunk(c: Chunk)
      requires Valid() && c !in nodes && c !in spare && PieceOf(c).Ok()
      modifies this`first, this`last, this`nodes, c`next
      ensures Valid() && nodes == [c] + old(nodes) && Pieces() == [old(PieceOf(c))] + old(Pieces())
    {
      hide SpareOk, ListOk, PiecesOf;
      ghost var pieces, piece := Pieces(), PieceOf(c);
      LinkFirst(c);
      SamePieces([piece] + pieces);
    }

    method LinkFirst(c: Chunk)
      requires ListOk() && c !in nodes
      modifies this`first, this`last, this`nodes, c`next
      ensures ListOk() && nodes == [c] + old(nodes)
    {
      c.next := first;
      first := c;
      if last == null {
        last := c;
      }
      ghost var was := nodes;
      nodes := [c] + nodes;
      forall i: nat | i < |nodes| ensures nodes[i].next == At(nodes, i + 1) {
        assert i > 0 ==> nodes[i] == was[i - 1];
      }
    }

    /** A new chunk at the end. */
    method Append(content: Content)
      requires Valid()
      modifies this`first, this`last, this`nodes, this`unused, this`unusedChunks, this`spare, Repr()
      ensures Valid() && Pieces() == old(Pieces()) + [Piece(content, 0)]
      ensures fresh(Repr() - old(Repr())) && |nodes| == |old(nodes)| + 1
    {
      hide ListOk, SpareOk, PiecesOf;
      var c := GetUnused();
      c.content := content;
      c.offset := 0;
      AppendChunk(c);
    }

    /** A new chunk at the front. */
    method Prepend(content: Content)
      requires Valid()
      modifies this`first, this`last, this`nodes, this`unused, this`unusedChunks, this`spare, Repr()
      ensures Valid() && Pieces() == [Piece(content, 0)] + old(Pieces())
      ensures fresh(Repr() - old(Repr()))
    {
      hide ListOk, SpareOk, PiecesOf;
      var c := GetUnused();
      c.content := content;
      c.offset := 0;
      PrependChunk(c);
    }

    /** chunkqueue_remove_finished_chunks: finished chunks go back to the stack while it has at most
        four, and are freed otherwise. */
    method RemoveFinished()
      requires Valid()
      modifies this, Repr()
      ensures Valid() && Pieces() == Unfinished(old(Pieces())) && Repr() <= old(Repr())
      ensures unusedChunks <= if old(unusedChunks) > 5 then old(unusedChunks) else 5
      ensures bytesIn == old(bytesIn) && bytesOut == old(bytesOut)
    {
      while first != null
        invariant Valid() && Unfinished(Pieces()) == Unfinished(old(Pieces())) && Repr() <= old(Repr())
        invariant unusedChunks <= if old(unusedChunks) > 5 then old(unusedChunks) else 5
        invariant bytesIn == old(bytesIn) && bytesOut == old(bytesOut)
        decreases |nodes|
      {
        var c := first;
        if c.offset != |c.content.data| {
          break;
        }
        DropFirst();
      }
    }

    /** The first chunk leaves the list. */
    method UnlinkFirst() returns (c: Chunk)
      requires ListOk() && first != null
      modifies this`first, this`last, this`nodes
      ensures ListOk() && c == old(nodes)[0] && nodes == old(nodes)[1..] && c !in nodes
    {
      c := first;
      first := c.next;
      if c == last {
        last := null;
      }
      ghost var was := nodes;
      nodes := nodes[1..];
      assert forall i: nat :: i < |nodes| ==> nodes[i] == was[i + 1];
    }

    /** A chunk goes on the stack. */
    method PushUnused(c: Chunk)
      requires SpareOk() && c !in spare
      modifies this`unused, this`unusedChunks, this`spare, c`next
      ensures SpareOk() && spare == [c] + old(spare) && unusedChunks == old(unusedChunks) + 1
    {
      c.next := unused;
      unused := c;
      unusedChunks := unusedChunks + 1;
      ghost var was := spare;
      spare := [c] + spare;
      forall i: nat | i < |spare| ensures spare[i].next == At(spare, i + 1) {
        assert i > 0 ==> spare[i] == was[i - 1];
      }
    }

    /** The first chunk leaves the list for the stack, if that has room, and is forgotten otherwise. */
    method DropFirst()
      requires Valid() && first != null
      modifies this`first, this`last, this`unused, this`unusedChunks, this`nodes, this`spare, Repr()
      ensures Valid() && Pieces() == old(Pieces())[1..] && nodes == old(nodes)[1..] && Repr() <= old(Repr())
      ensures unusedChunks <= if old(unusedChunks) > 5 then old(unusedChunks) else 5
    {
      hide SpareOk, ListOk;
      assert |nodes| > 0 by {
        FirstIsNode();
      }
      var c := UnlinkFirst();
      c.content := MEM([]);
      assert Pieces() == old(Pieces())[1..];
      if unusedChunks <= 4 {
        PushUnused(c);
      }
      SpareCount();
    }

    /** Take an empty chunk from the front. */
    method RetireFirst()
      requires Valid() && first != null
      modifies this`first, this`last, this`unused, this`unusedChunks, this`nodes, this`spare, nodes`next
      ensures Valid() && nodes == old(nodes)[1..] && Pieces() == old(Pieces())[1..] && Repr() <= old(Repr())
    {
      hide Valid, ListOk, SpareOk, PiecesOf, PiecesOk, PieceOf, Linked, Distinct, Pieces;
      Parts();
      FirstIsNode();
      OkAppended(Pieces(), Pieces()[0]);
      ghost var pieces := Pieces();
      var c := UnlinkFirst();
      PushUnused(c);
      SamePieces(pieces[1..]);
      Whole();
    }

    /** Take the chunk after the one at place `k`, which is `c`, out of the list. */
    method UnlinkNext(c: Chunk, ghost k: nat) returns (fc: Chunk)
      requires ListOk() && k + 1 < |nodes| && c == nodes[k]
      modifies this`last, this`nodes, c`next
      ensures ListOk() && fc == old(nodes)[k + 1] && nodes == Removed(old(nodes), k + 1) && fc !in nodes
    {
      fc := c.next;
      c.next := fc.next;
      if c.next == null {
        last := c;
      }
      hide Removed;
      nodes := Removed(nodes, k + 1);
    }

    /** A chunk that is in no list goes on the stack. */
    method Retire(c: Chunk)
      requires Valid() && c !in nodes && c !in spare
      modifies this`unused, this`unusedChunks, this`spare, c`next
      ensures Valid() && nodes == old(nodes) && Pieces() == old(Pieces()) && spare == [c] + old(spare)
    {
      hide SpareOk, ListOk, PiecesOf;
      PushUnused(c);
    }

    method DetachNext(c: Chunk, ghost k: nat) returns (fc: Chunk)
      requires Valid() && k + 1 < |nodes| && c == nodes[k]
      modifies this`last, this`nodes, c`next
      ensures Valid() && fc == old(nodes)[k + 1] && nodes == Removed(old(nodes), k + 1) && fc !in nodes && fc !in spare
      ensures Pieces() == Removed(old(Pieces()), k + 1) && spare == old(spare)
    {
      hide *;
      Parts();
      RemovedOk(Pieces(), k + 1);
      assert c in nodes && nodes[k + 1] in nodes;
      ghost var pieces := Pieces();
      fc := UnlinkNext(c, k);
      SamePieces(Removed(pieces, k + 1));
      Whole();
    }

    /** Take an empty chunk out of the list. */
    method RetireNext(c: Chunk, ghost k: nat)
      requires Valid() && k + 1 < |nodes| && c == nodes[k]
      modifies this`last, this`unused, this`unusedChunks, this`nodes, this`spare, nodes`next
      ensures Valid() && nodes == Removed(old(nodes), k + 1) && Pieces() == Removed(old(Pieces()), k + 1)
        && Repr() <= old(Repr())
    {
      assert c in nodes && nodes[k + 1] in nodes;
      hide Valid, Pieces, Removed;
      RemovedSubset(nodes, k + 1);
      var fc := DetachNext(c, k);
      Retire(fc);
    }

    lemma Parts()
      requires Valid()
      ensures ListOk() && SpareOk() && PiecesOk(Pieces()) && forall i :: 0 <= i < |nodes| ==> nodes[i] !in spare
      ensures forall i :: 0 <= i < |nodes| ==> Pieces()[i] == PieceOf(nodes[i])
      ensures first == At(nodes, 0)
    {
    }

    /** The neighbourhood of place `k`. */
    lemma Places(k: nat)
      requires Valid() && k < |nodes|
      ensures nodes[k].next == At(nodes, k + 1) && (first == nodes[k] <==> k == 0)
      ensures |Pieces()| == |nodes| && forall i :: 0 <= i < |nodes| ==>
        Pieces()[i] == PieceOf(nodes[i]) && (i != k ==> nodes[i] != nodes[k])
    {
    }

    lemma LastIsNode()
      requires Valid()
      ensures last == null <==> nodes == []
      ensures nodes != [] ==> last == nodes[|nodes| - 1] && PieceOf(last) == Pieces()[|nodes| - 1] && last in Repr()
      ensures nodes != [] ==> last in nodes && last !in spare
      ensures |Pieces()| == |nodes|
    {
    }

    lemma Follow(k: nat)
      requires ListOk() && k < |nodes|
      ensures nodes[k].next == At(nodes, k + 1)
    {
    }

    lemma Whole()
      requires ListOk() && SpareOk() && PiecesOk(Pieces()) && forall i :: 0 <= i < |nodes| ==> nodes[i] !in spare
      ensures Valid()
    {
    }

    lemma FirstIsNode()
      requires ListOk()
      ensures first == null <==> nodes == []
      ensures nodes != [] ==> first == nodes[0]
    {
    }

    lemma SpareCount()
      requires SpareOk()
      ensures unusedChunks == |spare|
    {
    }

    /** Mark everything as read. */
    method MarkRead()
      requires Valid()
      modifies nodes`offset
      ensures Valid() && forall i :: 0 <= i < |nodes| ==> Pieces()[i].offset == |Pieces()[i].content.data|
    {
      hide Valid, ListOk, SpareOk, Pieces, PiecesOf, PiecesOk, Linked, Distinct;
      Parts();
      var c := first;
      ghost var k: nat := 0;
      while c != null
        invariant ListOk() && SpareOk() && k <= |nodes| && c == At(nodes, k)
        invariant forall i :: 0 <= i < k ==> nodes[i].offset == |nodes[i].content.data|
        decreases |nodes| - k
      {
        Follow(k);
        c.offset := |c.content.data|;
        c := c.next;
        k := k + 1;
      }
      AllRead();
    }

    lemma AllRead()
      requires ListOk() && SpareOk() && forall i :: 0 <= i < |nodes| ==> nodes[i] !in spare
      requires forall i :: 0 <= i < |nodes| ==> nodes[i].offset == |nodes[i].content.data|
      ensures Valid() && forall i :: 0 <= i < |nodes| ==> Pieces()[i].offset == |Pieces()[i].content.data|
    {
      assert forall i :: 0 <= i < |nodes| ==> Pieces()[i] == PieceOf(nodes[i]);
    }

    /** chunkqueue_reset */
    method Reset()
      requires Valid()
      modifies this, Repr()
      ensures Valid() && Pieces() == [] && bytesIn == 0 && bytesOut == 0 && Repr() <= old(Repr())
    {
      hide ListOk, SpareOk, PiecesOf, PiecesOk;
      MarkRead();
      AllFinished(Pieces());
      RemoveFinished();
      bytesIn, bytesOut := 0, 0;
    }

    /** chunkqueue_length: everything in the queue, read or not. */
    method Length() returns (len: nat)
      requires Valid()
      ensures len == TotalLength(Pieces())
    {
      len := 0;
      var c := first;
      ghost var k: nat := 0;
      while c != null
        invariant k <= |nodes| && c == At(nodes, k) && len == TotalLength(Pieces()[..k])
        decreases |nodes| - k
      {
        len := len + |c.content.data|;
        assert Pieces()[..k + 1][..k] == Pieces()[..k];
        c := c.next;
        k := k + 1;
      }
      assert Pieces()[..k] == Pieces();
    }
  }

  lemma {:induction false} AllFinished(pieces: seq<Piece>)
    requires forall i :: 0 <= i < |pieces| ==> pieces[i].offset == |pieces[i].content.data|
    ensures Unfinished(pieces) == []
  {
    if pieces != [] {
      AllFinished(pieces[1..]);
    }
  }
}
