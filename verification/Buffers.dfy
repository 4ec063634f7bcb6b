/** lighttpd's growable byte buffer. */
module Buffers {
  import opened Octets

  const BUFFER_PIECE_SIZE := 64

  /** The next multiple of the piece size above `size`. */
  function Pieces(size: nat): (n: nat)
    ensures n > size && n % BUFFER_PIECE_SIZE == 0 && n <= size + BUFFER_PIECE_SIZE
  {
    size + BUFFER_PIECE_SIZE - size % BUFFER_PIECE_SIZE
  }

  /** The C string at the start of `a`. */
  function CString(a: Bytes): (s: Bytes)
    requires 0 in a
    ensures |s| < |a| && s == a[..|s|] && a[|s|] == 0 && 0 !in s
  {
    if a[0] == 0 then []
    else
      assert a == [a[0]] + a[1..];
      [a[0]] + CString(a[1..])
  }

  /** A prefix without a terminator, followed by one, is the C string. */
  lemma {:induction false} CStringIs(a: Bytes, n: nat)
    requires n < |a| && a[n] == 0 && forall i :: 0 <= i < n ==> a[i] != 0
    ensures 0 in a && CString(a) == a[..n]
  {
    if n > 0 {
      CStringIs(a[1..], n - 1);
      assert a[..n] == [a[0]] + a[1..][..n - 1];
    }
  }

  class Buffer {
    /** An array of length 0 stands for NULL. */
    var ptr: array<Byte>
    var used: nat

    ghost predicate Valid()
      reads this, ptr
    {
      used <= ptr.Length && ptr.Length % BUFFER_PIECE_SIZE == 0
    }

    ghost function Bytes(): Bytes
      requires Valid()
      reads this, ptr
    {
      ptr[..used]
    }

    /** The buffer holds a terminated string. */
    ghost predicate Terminated()
      reads this, ptr
    {
      Valid() && 0 < used && ptr[used - 1] == 0
    }

    constructor ()
      ensures Valid() && fresh(ptr) && ptr.Length == 0 && used == 0
    {
      ptr := new Byte[0];
      used := 0;
    }

    /** buffer_prepare_copy: room for `size` bytes; the contents are given up. */
    method PrepareCopy(size: nat)
      requires Valid()
      modifies this
      ensures Valid() && used == 0 && size <= ptr.Length && 0 < ptr.Length
      ensures ptr == old(ptr) || fresh(ptr)
    {
      if ptr.Length == 0 || size > ptr.Length {
        ptr := new Byte[Pieces(size)];
      }
      used := 0;
    }

    /** buffer_prepare_append: room for `size` more bytes; the contents stay. */
    method PrepareAppend(size: nat)
      requires Valid()
      modifies this
      ensures Valid() && used == old(used) && used + size <= ptr.Length && 0 < ptr.Length
      ensures ptr == old(ptr) || fresh(ptr)
      ensures Bytes() == old(Bytes())
    {
      if ptr.Length == 0 {
        ptr := new Byte[Pieces(size)];
        used := 0;
      } else if used + size > ptr.Length {
        var was, p := ptr, new Byte[Pieces(ptr.Length + size)];
        for i := 0 to was.Length
          invariant ptr == was && used == old(used) && was[..] == old(ptr[..])
          invariant p[..i] == was[..i]
        {
          p[i] := was[i];
        }
        ptr := p;
        assert ptr[..used] == ptr[..was.Length][..used];
      }
    }
  }
}
