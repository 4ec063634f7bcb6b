/** lighttpd's chunked transfer coding: pieces of a response go into the write queue, each with its
    size before it. */
module HttpChunk {
  import opened Arithmetic
  import opened Octets
  import opened Options
  import opened Chunks

  const CRLF: Bytes := [13, 10]

  // ----- sizes in hexadecimal

  /** The last `i` hexadecimal digits of `len`. */
  function Digits(len: nat, i: nat): (s: Bytes)
    ensures |s| == i
  {
    if i == 0 then [] else Digits(len / 16, i - 1) + [HexChar(len % 16)]
  }

  /** How many digits the size needs, but at most `max`. */
  function DigitCount(len: nat, max: nat): (i: nat)
    ensures i <= max
  {
    if len == 0 || max == 0 then 0 else 1 + DigitCount(len / 16, max - 1)
  }

  /** What http_chunk_append_len appends. */
  function SizeLine(len: nat): Bytes {
    (if len == 0 then [48] else Digits(len, DigitCount(len, 8))) + CRLF
  }

  /** What becomes of one piece. */
  function Frame(data: Bytes): Bytes {
    SizeLine(|data|) + data + CRLF
  }

  const LAST: Bytes := [48] + CRLF + CRLF

  // ----- the response

  /** The digits of a size: count them, then fill them in from the last to the first. */
  method SizeDigits(len: nat) returns (b: Bytes)
    ensures b + CRLF == SizeLine(len)
  {
    if len == 0 {
      return [48];
    }
    var i := 0;
    var rest := len;
    while i < 8 && rest != 0
      invariant i <= 8 && i + DigitCount(rest, 8 - i) == DigitCount(len, 8)
      decreases 8 - i
    {
      rest := rest / 16;
      i := i + 1;
    }
    b := [];
    var j := i;
    rest := len;
    while j > 0
      invariant 0 <= j <= i && Digits(rest, j) + b == Digits(len, i)
    {
      j := j - 1;
      b := [HexChar(rest % 16)] + b;
      rest := rest / 16;
    }
    assert b == Digits(len, i);
  }

  lemma FrameIs(was: Bytes, data: Bytes)
    ensures was + SizeLine(|data|) + data + CRLF == was + Frame(data)
  {
  }

  // ----- a response in parts

  /** What one call adds: a piece from memory, or a stretch of a file. */
  datatype Part = Mem(data: Bytes) | Stretch(data: Bytes)

  function Wire(part: Part): Bytes {
    if part.Stretch? && part.data == [] then SizeLine(0) else Frame(part.data)
  }

  function Wires(parts: seq<Part>): Bytes {
    if parts == [] then [] else Wire(parts[0]) + Wires(parts[1..])
  }

  function Body(parts: seq<Part>): Bytes {
    if parts == [] then [] else parts[0].data + Body(parts[1..])
  }

  predicate AllShort(parts: seq<Part>) {
    forall i :: 0 <= i < |parts| ==> |parts[i].data| < 0x1_0000_0000
  }

  predicate NoneEmpty(parts: seq<Part>) {
    forall i :: 0 <= i < |parts| ==> parts[i].data != []
  }

  class Response {
    const writeQueue: ChunkQueue
    var chunked: bool

    constructor (chunked: bool)
      ensures writeQueue.Valid() && fresh(writeQueue) && writeQueue.Pieces() == [] && writeQueue.Repr() == {}
        && this.chunked == chunked
    {
      writeQueue := new ChunkQueue();
      this.chunked := chunked;
    }

    ghost function Queued(): Bytes
      requires writeQueue.Valid()
      reads this, writeQueue, writeQueue.nodes, writeQueue.spare
    {
      Pending(writeQueue.Pieces())
    }

    /** Everything goes to the end of the queue. */
    method Put(content: Content)
      requires writeQueue.Valid()
      modifies writeQueue, writeQueue.Repr()
      ensures writeQueue.Valid() && Queued() == old(Queued()) + content.data && chunked == old(chunked)
      ensures fresh(writeQueue.Repr() - old(writeQueue.Repr()))
    {
      ghost var was := writeQueue.Pieces();
      writeQueue.Append(content);
      PendingConcat(was, [Piece(content, 0)]);
      PendingOne(content);
    }

    /** http_chunk_append_len */
    method AppendLen(len: nat)
      requires writeQueue.Valid()
      modifies writeQueue, writeQueue.Repr()
      ensures writeQueue.Valid() && Queued() == old(Queued()) + SizeLine(len) && chunked == old(chunked)
      ensures fresh(writeQueue.Repr() - old(writeQueue.Repr()))
    {
      var b := SizeDigits(len);
      b := b + CRLF;
      hide SizeLine, Frame, Queued, ChunkQueue.Valid, ChunkQueue.Pieces;
      Put(MEM(b));
    }

    /** http_chunk_append_mem and http_chunk_append_buffer, with a string of one byte or more; an
        empty string gives a size of zero, which ends the body. */
    method AppendMem(data: Bytes)
      requires writeQueue.Valid()
      modifies writeQueue, writeQueue.Repr()
      ensures writeQueue.Valid() && Queued() == old(Queued()) + if chunked then Frame(data) else data
      ensures chunked == old(chunked) && fresh(writeQueue.Repr() - old(writeQueue.Repr()))
    {
      hide SizeLine, Frame, Queued, ChunkQueue.Valid, ChunkQueue.Pieces;
      ghost var was := Queued();
      FrameIs(was, data);
      if chunked {
        AppendLen(|data|);
      }
      Put(MEM(data));
      if chunked {
        Put(MEM(CRLF));
      }
    }

    /** http_chunk_append_file, for the stretch `data` of a file.  An empty stretch adds the size line
        only. */
    method AppendFile(data: Bytes)
      requires writeQueue.Valid()
      modifies writeQueue, writeQueue.Repr()
      ensures writeQueue.Valid()
      ensures Queued() == old(Queued()) + if !chunked then data else if data == [] then SizeLine(0) else Frame(data)
      ensures chunked == old(chunked) && fresh(writeQueue.Repr() - old(writeQueue.Repr()))
    {
      hide SizeLine, Frame, Queued, ChunkQueue.Valid, ChunkQueue.Pieces;
      ghost var was := Queued();
      FrameIs(was, data);
      if chunked {
        AppendLen(|data|);
      }
      if |data| != 0 {
        Put(FILE(false, data));
      }
      if chunked && |data| > 0 {
        Put(MEM(CRLF));
      }
    }

    /** http_chunk_append_mem without data: the end of the body. */
    method AppendEnd()
      requires writeQueue.Valid()
      modifies writeQueue, writeQueue.Repr()
      ensures writeQueue.Valid() && Queued() == old(Queued()) + if chunked then LAST else []
      ensures chunked == old(chunked) && fresh(writeQueue.Repr() - old(writeQueue.Repr()))
    {
      if chunked {
        Put(MEM(LAST));
      } else {
        Put(MEM([]));
      }
    }
  }

  ghost function Bare(parts: seq<Part>, chunked: bool): Bytes {
    if chunked then Wires(parts) else Body(parts)
  }

  /** One call. */
  method SendPart(response: Response, part: Part)
    requires response.writeQueue.Valid()
    modifies response.writeQueue, response.writeQueue.Repr()
    ensures response.writeQueue.Valid() && response.chunked == old(response.chunked)
    ensures response.Queued() == old(response.Queued()) + if response.chunked then Wire(part) else part.data
    ensures fresh(response.writeQueue.Repr() - old(response.writeQueue.Repr()))
  {
    hide Frame, SizeLine, ChunkQueue.Valid, Response.Queued;
    match part {
      case Mem(data) => response.AppendMem(data);
      case Stretch(data) => response.AppendFile(data);
    }
  }

  /** The calls for the body. */
  method SendParts(response: Response, parts: seq<Part>)
    requires response.writeQueue.Valid()
    modifies response.writeQueue, response.writeQueue.Repr()
    ensures response.writeQueue.Valid() && response.chunked == old(response.chunked)
    ensures response.Queued() == old(response.Queued()) + Bare(parts, response.chunked)
    ensures fresh(response.writeQueue.Repr() - old(response.writeQueue.Repr()))
  {
    hide Wire, Bare, ChunkQueue.Valid, Response.Queued;
    ghost var was, whole := response.Queued(), Bare(parts, response.chunked);
    BareEnds(parts, response.chunked);
    for i := 0 to |parts|
      invariant response.writeQueue.Valid() && response.chunked == old(response.chunked)
      invariant response.Queued() + Bare(parts[i..], response.chunked) == was + whole
      invariant fresh(response.writeQueue.Repr() - old(response.writeQueue.Repr()))
    {
      ghost var before, left := response.Queued(), Bare(parts[i + 1..], response.chunked);
      ghost var now := if response.chunked then Wire(parts[i]) else parts[i].data;
      BareNext(parts, i, response.chunked);
      SendPart(response, parts[i]);
      assert (before + now) + left == before + (now + left);
    }
    assert response.Queued() + [] == response.Queued();
  }

  /** A response in parts: what is queued decodes to them exactly if none is empty. */
  method Send(response: Response, parts: seq<Part>)
    requires response.writeQueue.Valid()
    modifies response.writeQueue, response.writeQueue.Repr()
    ensures response.writeQueue.Valid() && response.chunked == old(response.chunked)
    ensures response.Queued() == old(response.Queued()) + if response.chunked then Wires(parts) + LAST else Body(parts)
    ensures response.chunked && old(response.Queued()) == [] && AllShort(parts) ==>
      (Decode(response.Queued()) == Some((Body(parts), [])) <==> NoneEmpty(parts))
  {
    hide *;
    ghost var was := response.Queued();
    BareIs(was, parts);
    SendParts(response, parts);
    response.AppendEnd();
    if AllShort(parts) {
      SentDecodes(parts);
    }
  }

  lemma BareIs(was: Bytes, parts: seq<Part>)
    ensures was + Bare(parts, true) + LAST == was + (Wires(parts) + LAST)
    ensures was + Bare(parts, false) + [] == was + Body(parts)
  {
    hide Wires, Body;
  }

  lemma SentDecodes(parts: seq<Part>)
    requires AllShort(parts)
    ensures Decode([] + (Wires(parts) + LAST)) == Some((Body(parts), [])) <==> NoneEmpty(parts)
  {
    hide Wires, Body, Decode, AllShort, NoneEmpty;
    assert [] + (Wires(parts) + LAST) == Wires(parts) + LAST == Wires(parts) + LAST + [];
    DecodesExactly(parts, []);
  }

  lemma BareNext(parts: seq<Part>, i: nat, chunked: bool)
    requires i < |parts|
    ensures Bare(parts[i..], chunked) == (if chunked then Wire(parts[i]) else parts[i].data)
      + Bare(parts[i + 1..], chunked)
  {
    assert parts[i..][1..] == parts[i + 1..];
  }

  lemma BareEnds(parts: seq<Part>, chunked: bool)
    ensures parts[0..] == parts && Bare(parts[|parts|..], chunked) == []
  {
  }

  lemma PendingOne(content: Content)
    ensures PiecesOk([Piece(content, 0)]) && Pending([Piece(content, 0)]) == content.data
  {
    assert [Piece(content, 0)][1..] == [];
    assert Pending([Piece(content, 0)][1..]) == [];
  }

  // ----- a decoder, after section 3.6.1 of RFC 2616 (without extensions and trailers)

  function HexValue(c: Byte): Option<nat> {
    if 48 <= c <= 57 then Some(c - 48)
    else if 65 <= c <= 70 then Some(c - 55)
    else if 97 <= c <= 102 then Some(c - 87)
    else None
  }

  /** The number that the hexadecimal digits at the front of `s` spell, and what follows them. */
  function ReadHex(s: Bytes, value: nat): (r: (nat, Bytes))
    ensures |r.1| <= |s|
  {
    if s != [] && HexValue(s[0]).Some? then ReadHex(s[1..], value * 16 + HexValue(s[0]).value) else (value, s)
  }

  predicate Begins(s: Bytes, prefix: Bytes) {
    |s| >= |prefix| && s[..|prefix|] == prefix
  }

  /** The body at the front of `s`, and what follows it; None if there is no well-formed body. */
  function Decode(s: Bytes): Option<(Bytes, Bytes)>
    decreases |s|
  {
    if s == [] || HexValue(s[0]).None? then None
    else
      var (size, rest) := ReadHex(s, 0);
      if !Begins(rest, CRLF) then None
      else
        var t := rest[2..];
        if size == 0 then (if Begins(t, CRLF) then Some(([], t[2..])) else None)
        else if |t| < size || !Begins(t[size..], CRLF) then None
        else match Decode(t[size + 2..])
          case None => None
          case Some((body, after)) => Some((t[..size] + body, after))
  }

  // ----- framing and decoding

  lemma HexCharValue(n: nat)
    requires n < 16
    ensures HexValue(HexChar(n)) == Some(n)
  {
  }

  lemma {:induction false} ReadMore(s: Bytes, t: Bytes, value: nat)
    requires forall i :: 0 <= i < |s| ==> HexValue(s[i]).Some?
    ensures ReadHex(s + t, value) == ReadHex(t, ReadHex(s, value).0)
  {
    if s == [] {
      assert s + t == t;
    } else {
      assert (s + t)[1..] == s[1..] + t;
      ReadMore(s[1..], t, value * 16 + HexValue(s[0]).value);
    }
  }

  function Pow16(i: nat): (p: nat)
    ensures p > 0
  {
    if i == 0 then 1 else 16 * Pow16(i - 1)
  }

  /** Digits are read back as the number they were made from. */
  lemma {:induction false} ReadDigits(len: nat, i: nat, value: nat)
    requires len < Pow16(i)
    ensures forall k :: 0 <= k < i ==> HexValue(Digits(len, i)[k]).Some?
    ensures ReadHex(Digits(len, i), value) == (value * Pow16(i) + len, [])
  {
    if i > 0 {
      var p := Pow16(i - 1);
      assert Pow16(i) == 16 * p;
      ReadDigits(len / 16, i - 1, value);
      var front, digit := Digits(len / 16, i - 1), [HexChar(len % 16)];
      assert Digits(len, i) == front + digit;
      hide *;
      ReadMore(front, digit, value);
      HexCharValue(len % 16);
      ReadOne(len % 16, value * p + len / 16);
      assert value * (16 * p) == 16 * (value * p);
    }
  }

  lemma ReadOne(n: nat, value: nat)
    requires n < 16
    ensures ReadHex([HexChar(n)], value) == (value * 16 + n, [])
  {
    HexCharValue(n);
    var s: Bytes := [HexChar(n)];
    assert s[1..] == [];
  }

  lemma {:induction false} CountEnough(len: nat, max: nat)
    requires len < Pow16(max)
    ensures len < Pow16(DigitCount(len, max)) && (len > 0 ==> DigitCount(len, max) > 0)
  {
    if len > 0 {
      CountEnough(len / 16, max - 1);
    }
  }

  lemma Pow16Eight()
    ensures Pow16(8) == 0x1_0000_0000
  {
    assert Pow16(4) == 0x1_0000;
  }

  /** A size below 2^32 is read back from its line. */
  lemma ReadSizeLine(len: nat, t: Bytes)
    requires len < 0x1_0000_0000
    ensures var s := SizeLine(len) + t; s != [] && HexValue(s[0]).Some? && ReadHex(s, 0) == (len, CRLF + t)
  {
    Pow16Eight();
    CountEnough(len, 8);
    var i := if len == 0 then 1 else DigitCount(len, 8);
    var digits := Digits(len, i);
    assert len == 0 ==> digits == [48] by {
      assert Digits(0, 0) == [];
    }
    ReadDigits(len, i, 0);
    assert SizeLine(len) + t == digits + (CRLF + t);
    ReadMore(digits, CRLF + t, 0);
  }

  /** One framed piece. */
  lemma DecodeFrame(data: Bytes, t: Bytes)
    requires 0 < |data| < 0x1_0000_0000
    ensures Decode(Frame(data) + t) == match Decode(t) case None => None
      case Some((body, after)) => Some((data + body, after))
  {
    var s := Frame(data) + t;
    assert s == SizeLine(|data|) + (data + CRLF + t);
    ReadSizeLine(|data|, data + CRLF + t);
    var rest := CRLF + (data + CRLF + t);
    assert rest[2..] == data + CRLF + t && rest[..2] == CRLF;
    var u := data + CRLF + t;
    assert u[|data|..] == CRLF + t && u[|data| + 2..] == t && u[..|data|] == data;
    assert (CRLF + t)[..2] == CRLF;
  }

  lemma DecodeLast(t: Bytes)
    ensures Decode(LAST + t) == Some(([], t))
  {
    ReadSizeLine(0, CRLF + t);
    assert LAST + t == SizeLine(0) + (CRLF + t);
    var rest := CRLF + (CRLF + t);
    assert rest[2..] == CRLF + t && rest[..2] == CRLF && (CRLF + t)[..2] == CRLF && (CRLF + t)[2..] == t;
  }

  /** An empty piece from memory ends the body: what comes after it is not part of it. */
  lemma EmptyPieceEnds(t: Bytes)
    ensures Decode(Frame([]) + t) == Some(([], t))
  {
    assert Frame([]) + t == LAST + t;
    DecodeLast(t);
  }

  /** An empty stretch of a file spoils the body: its size line is not followed by a line end. */
  lemma EmptyStretchSpoils(t: Bytes)
    requires t != [] && HexValue(t[0]).Some?
    ensures Decode(SizeLine(0) + t) == None
  {
    ReadSizeLine(0, t);
    assert (CRLF + t)[2..] == t;
  }

  lemma WiresBegin(parts: seq<Part>, t: Bytes)
    requires AllShort(parts)
    ensures var s := Wires(parts) + LAST + t; |s| > |t| && HexValue(s[0]).Some?
  {
    var s := Wires(parts) + LAST + t;
    if parts == [] {
      assert s[0] == LAST[0] == 48;
    } else {
      var n := |parts[0].data|;
      var rest := s[|SizeLine(n)|..];
      assert s == SizeLine(n) + rest;
      ReadSizeLine(n, rest);
    }
  }

  /** Whatever a response is made of, decoding what is queued gives its parts and leaves exactly
      what was queued after the end, if no part is empty. */
  lemma {:induction false} PartsDecode(parts: seq<Part>, t: Bytes)
    requires AllShort(parts) && NoneEmpty(parts)
    ensures Decode(Wires(parts) + LAST + t) == Some((Body(parts), t))
  {
    if parts == [] {
      assert Wires(parts) + LAST + t == LAST + t;
      DecodeLast(t);
    } else {
      PartsDecode(parts[1..], t);
      assert Wires(parts) + LAST + t == Frame(parts[0].data) + (Wires(parts[1..]) + LAST + t);
      DecodeFrame(parts[0].data, Wires(parts[1..]) + LAST + t);
    }
  }

  /** With an empty part the decoder fails or stops too early. */
  lemma {:induction false} EmptyPartShows(parts: seq<Part>, t: Bytes)
    requires AllShort(parts) && !NoneEmpty(parts)
    ensures var r := Decode(Wires(parts) + LAST + t); r.None? || |r.value.1| > |t|
  {
    var rest := Wires(parts[1..]) + LAST + t;
    assert Wires(parts) + LAST + t == Wire(parts[0]) + rest;
    hide Decode, Frame, SizeLine;
    WiresBegin(parts[1..], t);
    if parts[0].data != [] {
      EmptyPartShows(parts[1..], t);
      DecodeFrame(parts[0].data, rest);
    } else if parts[0].Mem? {
      EmptyPieceEnds(rest);
    } else {
      EmptyStretchSpoils(rest);
    }
  }

  /** A response whose parts are below 2^32 bytes reads as its parts exactly if none is empty. */
  lemma DecodesExactly(parts: seq<Part>, t: Bytes)
    requires AllShort(parts)
    ensures Decode(Wires(parts) + LAST + t) == Some((Body(parts), t)) <==> NoneEmpty(parts)
  {
    hide Decode, Wires, Body;
    if NoneEmpty(parts) {
      PartsDecode(parts, t);
    } else {
      EmptyPartShows(parts, t);
    }
  }

  /** A piece of 2^32 bytes or more is announced with the low 32 bits of its size. */
  lemma {:induction false} DigitsTruncate(len: nat, i: nat)
    ensures Digits(len, i) == Digits(len % Pow16(i), i)
  {
    if i > 0 {
      var p := Pow16(i - 1);
      TruncateSplit(len, p);
      DigitsTruncate(len / 16, i - 1);
    }
  }

  lemma TruncateSplit(len: nat, p: nat)
    requires p > 0
    ensures len % (16 * p) % 16 == len % 16 && len % (16 * p) / 16 == len / 16 % p
  {
    var q, r := len / 16 / p, len / 16 % p;
    assert len / 16 == p * q + r;
    var m := 16 * r + len % 16;
    assert len == (16 * p) * q + m by {
      assert 16 * (p * q) == (16 * p) * q;
    }
    assert m < 16 * p;
    Quotient(len, 16 * p, q, m);
  }

  /** The size that a decoder reads is the size of the piece modulo 2^32, so it is the right one
      exactly for pieces below 2^32 bytes. */
  lemma AnnouncedSize(len: nat, t: Bytes)
    ensures ReadHex(SizeLine(len) + t, 0) == (len % 0x1_0000_0000, CRLF + t)
  {
    if len < 0x1_0000_0000 {
      ReadSizeLine(len, t);
    } else {
      Pow16Eight();
      LongCount(len, 8);
      DigitsTruncate(len, 8);
      var n := len % 0x1_0000_0000;
      ReadDigits(n, 8, 0);
      assert SizeLine(len) + t == Digits(n, 8) + (CRLF + t);
      ReadMore(Digits(n, 8), CRLF + t, 0);
    }
  }

  lemma {:induction false} LongCount(len: nat, max: nat)
    requires len >= Pow16(max)
    ensures DigitCount(len, max) == max
  {
    if max > 0 {
      assert len / 16 >= Pow16(max - 1);
      LongCount(len / 16, max - 1);
    }
  }
}
