/** What lengths and cleaning mean for the chunks of a queue. */
module QueueLaws {
  import opened Octets
  import opened Chunks
  import opened RequestRead

  /** The data of all chunks. */
  function AllData(pieces: seq<Piece>): Bytes {
    if pieces == [] then [] else AllData(pieces[..|pieces| - 1]) + pieces[|pieces| - 1].content.data
  }

  /** The length of a queue counts every octet of its chunks, whether it has been read or not. */
  lemma {:induction false} LengthIsAll(pieces: seq<Piece>)
    ensures TotalLength(pieces) == |AllData(pieces)|
  {
    if pieces != [] {
      LengthIsAll(pieces[..|pieces| - 1]);
    }
  }

  /** The chunks that hold something. */
  function Full(pieces: seq<Piece>): seq<Piece> {
    if pieces == [] then [] else (if pieces[0].content.data == [] then [] else [pieces[0]]) + Full(pieces[1..])
  }

  /** No two neighbours are empty. */
  predicate SingleEmpties(pieces: seq<Piece>) {
    forall i :: 0 < i < |pieces| ==> pieces[i - 1].content.data != [] || pieces[i].content.data != []
  }

  /** Cleaning takes away empty chunks only; the first that is left is not empty; and where no two of them were
      neighbours, none is left. */
  lemma {:induction false} CleanedIs(pieces: seq<Piece>)
    ensures Full(Cleaned(pieces)) == Full(pieces)
    ensures Cleaned(pieces) != [] ==> Cleaned(pieces)[0].content.data != []
    ensures SingleEmpties(pieces) ==> Cleaned(pieces) == Full(pieces)
  {
    if pieces != [] {
      if Empty(pieces[0]) {
        CleanedIs(pieces[1..]);
      } else {
        CleanedAfterIs(pieces);
      }
    }
  }

  lemma {:induction false} CleanedAfterIs(pieces: seq<Piece>)
    requires pieces != [] && !Empty(pieces[0])
    ensures Full(CleanedAfter(pieces)) == Full(pieces) && CleanedAfter(pieces)[0] == pieces[0]
    ensures SingleEmpties(pieces) ==> CleanedAfter(pieces) == Full(pieces)
  {
    AfterKeepsFull(pieces);
    var rest := if |pieces| > 1 && Empty(pieces[1]) then pieces[2..] else pieces[1..];
    if rest != [] && SingleEmpties(pieces) {
      assert SingleEmpties(rest) && !Empty(rest[0]);
      CleanedAfterIs(rest);
      SkipOne(pieces);
    } else if rest == [] {
      SkipOne(pieces);
    }
  }

  /** A chunk that holds something, and an empty one behind it. */
  lemma SkipOne(pieces: seq<Piece>)
    requires pieces != []
    ensures |pieces| > 1 && Empty(pieces[1]) ==> Full(pieces[1..]) == Full(pieces[2..])
  {
    if |pieces| > 1 {
      assert pieces[1..][1..] == pieces[2..];
    }
  }

  lemma {:induction false} AfterKeepsFull(pieces: seq<Piece>)
    ensures Full(CleanedAfter(pieces)) == Full(pieces)
    decreases |pieces|
  {
    if pieces != [] {
      SkipOne(pieces);
      var rest := if |pieces| > 1 && Empty(pieces[1]) then pieces[2..] else pieces[1..];
      AfterKeepsFull(rest);
      assert CleanedAfter(pieces)[1..] == CleanedAfter(rest);
    }
  }
}
