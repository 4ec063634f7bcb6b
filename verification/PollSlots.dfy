/** fdevent_poll: registrations for poll() live in slots of one array; free slots are kept on a stack. */
module PollSlots {
  datatype Slot = Slot(fd: int, events: int)

  /** The slots in use so far, and the stack of those that are free (top last). */
  datatype Poll = Poll(slots: seq<Slot>, free: seq<nat>)

  const FREE := -1

  const EMPTY := Poll([], [])

  // ----- the operations as functions

  /** fdevent_poll_event_add without an index: the slot of the new registration. */
  function NewSlot(p: Poll): nat {
    if p.free != [] then p.free[|p.free| - 1] else |p.slots|
  }

  function Added(p: Poll, fd: int, events: int): Poll
    requires p.free != [] ==> NewSlot(p) < |p.slots|
  {
    if p.free != [] then Poll(p.slots[NewSlot(p) := Slot(fd, events)], p.free[..|p.free| - 1])
    else Poll(p.slots + [Slot(fd, events)], [])
  }

  function Deleted(p: Poll, ndx: nat): Poll
    requires ndx < |p.slots|
  {
    Poll(p.slots[ndx := p.slots[ndx].(fd := FREE)], p.free + [ndx])
  }

  /** Calls that do not stop the server: a new descriptor is added, a registration is changed or
      deleted through its own slot. */
  datatype Op = Add(fd: int, events: int) | Change(ndx: nat, fd: int, newEvents: int) | Del(ndx: nat, fd: int)

  ghost predicate CallOk(p: Poll, op: Op) {
    match op
    case Add(fd, _) => fd >= 0 && forall k :: 0 <= k < |p.slots| ==> p.slots[k].fd != fd
    case Change(ndx, fd, _) => ndx < |p.slots| && fd >= 0 && p.slots[ndx].fd == fd
    case Del(ndx, fd) => ndx < |p.slots| && fd >= 0 && p.slots[ndx].fd == fd
  }

  function Apply(p: Poll, op: Op): Poll
    requires PollOk(p) && CallOk(p, op)
  {
    match op
    case Add(fd, events) => assert p.free != [] ==> NewSlot(p) in p.free; Added(p, fd, events)
    case Change(ndx, _, events) => p.(slots := p.slots[ndx := p.slots[ndx].(events := events)])
    case Del(ndx, _) => Deleted(p, ndx)
  }

  /** The stack holds each free slot exactly once, and no two live slots have the same descriptor. */
  ghost predicate PollOk(p: Poll) {
    && (forall i, j :: 0 <= i < j < |p.free| ==> p.free[i] != p.free[j])
    && (forall k :: k in p.free ==> k < |p.slots| && p.slots[k].fd == FREE)
    && (forall k :: 0 <= k < |p.slots| && p.slots[k].fd == FREE ==> k in p.free)
    && (forall k, l :: 0 <= k < l < |p.slots| && p.slots[k].fd != FREE ==> p.slots[k].fd != p.slots[l].fd)
  }

  /** The live registrations: descriptor, slot, events. */
  ghost function Live(p: Poll): set<(int, nat, int)> {
    set k: nat | k < |p.slots| && p.slots[k].fd != FREE :: (p.slots[k].fd, k, p.slots[k].events)
  }

  lemma LiveIs(p: Poll, fd: int, k: nat, events: int)
    ensures (fd, k, events) in Live(p) <==> k < |p.slots| && p.slots[k] == Slot(fd, events) && fd != FREE
  {
  }

  lemma LiveSlots(p: Poll)
    requires PollOk(p)
    ensures forall r :: r in Live(p) ==> r.1 < |p.slots| && r.1 !in p.free
  {
  }

  // ----- what an operation does to the registrations

  lemma AddedKeeps(p: Poll, fd: int, events: int)
    requires PollOk(p) && CallOk(p, Add(fd, events))
    ensures PollOk(Apply(p, Add(fd, events)))
  {
    var now := Apply(p, Add(fd, events));
    if p.free != [] {
      var k := NewSlot(p);
      assert k in p.free;
      assert forall l :: l in now.free <==> l in p.free && l != k by {
        assert p.free == now.free + [k];
      }
    }
  }

  /** The new registration takes a slot no live registration has, and the others stay as they were. */
  lemma AddedOk(p: Poll, fd: int, events: int)
    requires PollOk(p) && CallOk(p, Add(fd, events))
    ensures var now := Apply(p, Add(fd, events));
      PollOk(now) && Live(now) == Live(p) + {(fd, NewSlot(p), events)} && forall r :: r in Live(p) ==> r.1 != NewSlot(p)
  {
    AddedKeeps(p, fd, events);
    AddedLive(p, fd, events);
    LiveSlots(p);
  }

  lemma AddedLive(p: Poll, fd: int, events: int)
    requires PollOk(p) && CallOk(p, Add(fd, events))
    ensures Live(Apply(p, Add(fd, events))) == Live(p) + {(fd, NewSlot(p), events)}
  {
    var now := Apply(p, Add(fd, events));
    assert p.free != [] ==> NewSlot(p) in p.free;
    forall r: (int, nat, int) ensures r in Live(now) <==> r in Live(p) || r == (fd, NewSlot(p), events) {
      LiveIs(p, r.0, r.1, r.2);
      LiveIs(now, r.0, r.1, r.2);
    }
  }

  lemma ChangedOk(p: Poll, ndx: nat, fd: int, events: int)
    requires PollOk(p) && CallOk(p, Change(ndx, fd, events))
    ensures var now := Apply(p, Change(ndx, fd, events));
      PollOk(now) && Live(now) == Live(p) - {(fd, ndx, p.slots[ndx].events)} + {(fd, ndx, events)}
  {
  }

  lemma DeletedOk(p: Poll, ndx: nat, fd: int)
    requires PollOk(p) && CallOk(p, Del(ndx, fd))
    ensures var now := Apply(p, Del(ndx, fd));
      PollOk(now) && (fd, ndx, p.slots[ndx].events) in Live(p)
        && Live(now) == Live(p) - {(fd, ndx, p.slots[ndx].events)}
  {
    var now := Apply(p, Del(ndx, fd));
    assert ndx !in p.free && now.free[|p.free|] == ndx;
    assert forall l :: l in now.free <==> l in p.free || l == ndx;
  }

  lemma OpKeeps(p: Poll, op: Op)
    requires PollOk(p) && CallOk(p, op)
    ensures PollOk(Apply(p, op))
  {
    match op
    case Add(fd, events) => AddedOk(p, fd, events);
    case Change(ndx, fd, events) => ChangedOk(p, ndx, fd, events);
    case Del(ndx, fd) => DeletedOk(p, ndx, fd);
  }

  // ----- how many slots are used

  /** Every slot is live or on the stack. */
  ghost predicate Balanced(p: Poll) {
    PollOk(p) && |Live(p)| + |p.free| == |p.slots|
  }

  lemma AddedLengths(p: Poll, fd: int, events: int)
    requires PollOk(p) && CallOk(p, Add(fd, events))
    ensures var now := Apply(p, Add(fd, events));
      if p.free == [] then |now.slots| == |p.slots| + 1 && now.free == []
      else |now.slots| == |p.slots| && |now.free| == |p.free| - 1
  {
    assert p.free != [] ==> NewSlot(p) in p.free;
  }

  lemma AddBalances(p: Poll, fd: int, events: int)
    requires Balanced(p) && CallOk(p, Add(fd, events))
    ensures var now := Apply(p, Add(fd, events));
      Balanced(now) && |p.slots| <= |now.slots| && (|now.slots| > |p.slots| ==> |now.slots| == |Live(now)|)
  {
    hide Live, PollOk;
    AddedOk(p, fd, events);
    var r := (fd, NewSlot(p), events);
    assert r !in Live(p);
    AddedCount(Live(p), r);
    AddedLengths(p, fd, events);
  }

  lemma ChangeBalances(p: Poll, ndx: nat, fd: int, events: int)
    requires Balanced(p) && CallOk(p, Change(ndx, fd, events))
    ensures var now := Apply(p, Change(ndx, fd, events)); Balanced(now) && |now.slots| == |p.slots|
  {
    hide Live, PollOk;
    var was, now := (fd, ndx, p.slots[ndx].events), (fd, ndx, events);
    ChangedOk(p, ndx, fd, events);
    LiveIs(p, was.0, was.1, was.2);
    LiveIs(p, now.0, now.1, now.2);
    ReplacedCount(Live(p), was, now);
  }

  lemma DelBalances(p: Poll, ndx: nat, fd: int)
    requires Balanced(p) && CallOk(p, Del(ndx, fd))
    ensures var now := Apply(p, Del(ndx, fd)); Balanced(now) && |now.slots| == |p.slots|
  {
    hide Live, PollOk;
    DeletedOk(p, ndx, fd);
    RemovedCount(Live(p), (fd, ndx, p.slots[ndx].events));
  }

  /** Valid calls keep the balance, and a slot is opened only when all are live. */
  lemma OpBalances(p: Poll, op: Op)
    requires Balanced(p) && CallOk(p, op)
    ensures Balanced(Apply(p, op)) && |p.slots| <= |Apply(p, op).slots|
    ensures |Apply(p, op).slots| > |p.slots| ==> |Apply(p, op).slots| == |Live(Apply(p, op))|
  {
    hide Live, PollOk;
    match op
    case Add(fd, events) => AddBalances(p, fd, events);
    case Change(ndx, fd, events) => ChangeBalances(p, ndx, fd, events);
    case Del(ndx, fd) => DelBalances(p, ndx, fd);
  }

  lemma AddedCount<T>(s: set<T>, x: T)
    ensures x !in s ==> |s + {x}| == |s| + 1
  {
  }

  lemma RemovedCount<T>(s: set<T>, x: T)
    ensures x in s ==> |s - {x}| == |s| - 1
  {
  }

  lemma ReplacedCount<T>(s: set<T>, x: T, y: T)
    ensures x in s && (y == x || y !in s) ==> |s - {x} + {y}| == |s|
  {
  }

  // ----- runs

  /** Every call of the run is valid where it is made. */
  ghost predicate RunOk(p: Poll, ops: seq<Op>)
    decreases |ops|
  {
    ops == [] || (PollOk(p) && CallOk(p, ops[0]) && RunOk(Apply(p, ops[0]), ops[1..]))
  }

  ghost function Run(p: Poll, ops: seq<Op>): Poll
    requires RunOk(p, ops)
    decreases |ops|
  {
    if ops == [] then p else Run(Apply(p, ops[0]), ops[1..])
  }

  /** The largest number of registrations live together in the run. */
  ghost function Peak(p: Poll, ops: seq<Op>): nat
    requires RunOk(p, ops)
    decreases |ops|
  {
    if ops == [] then |Live(p)|
    else
      var later := Peak(Apply(p, ops[0]), ops[1..]);
      if later > |Live(p)| then later else |Live(p)|
  }

  /** Whatever the run, the stack stays in order, and the array is as long as the peak of the run, or
      as it was at the start if that is longer. */
  lemma {:induction false} RunSlots(p: Poll, ops: seq<Op>)
    requires Balanced(p) && RunOk(p, ops)
    ensures var now := Run(p, ops);
      Balanced(now) && |now.slots| == if Peak(p, ops) > |p.slots| then Peak(p, ops) else |p.slots|
    decreases |ops|
  {
    if ops != [] {
      OpBalances(p, ops[0]);
      RunSlots(Apply(p, ops[0]), ops[1..]);
      PeakAtLeast(Apply(p, ops[0]), ops[1..]);
    }
  }

  lemma PeakAtLeast(p: Poll, ops: seq<Op>)
    requires RunOk(p, ops)
    ensures Peak(p, ops) >= |Live(p)|
  {
  }

  /** From an empty array, the number of slots used is the largest number of registrations ever live
      together. */
  lemma UsedIsPeak(ops: seq<Op>)
    requires RunOk(EMPTY, ops)
    ensures Balanced(Run(EMPTY, ops)) && |Run(EMPTY, ops).slots| == Peak(EMPTY, ops)
  {
    assert Live(EMPTY) == {};
    RunSlots(EMPTY, ops);
  }

  // ----- the object

  class Events {
    var pollfds: seq<Slot>
    var used: nat
    var unusedPtr: seq<nat>
    var unusedUsed: nat

    ghost predicate Ok()
      reads this
    {
      used <= |pollfds| && unusedUsed <= |unusedPtr| && PollOk(Value())
    }

    ghost function Value(): Poll
      requires used <= |pollfds| && unusedUsed <= |unusedPtr|
      reads this
    {
      Poll(pollfds[..used], unusedPtr[..unusedUsed])
    }

    constructor ()
      ensures Ok() && Value() == EMPTY
    {
      pollfds, used, unusedPtr, unusedUsed := [], 0, [], 0;
    }

    /** fdevent_poll_event_del; the source stops the server if the slot does not hold `fd`. */
    method EventDel(fdeNdx: int, fd: int) returns (r: int)
      requires Ok() && (fdeNdx < 0 || CallOk(Value(), Del(fdeNdx, fd)))
      modifies this
      ensures Ok() && r == -1 && Value() == if fdeNdx < 0 then old(Value()) else Apply(old(Value()), Del(fdeNdx, fd))
    {
      r := -1;
      if fdeNdx < 0 {
        return;
      }
      ghost var p := Value();
      OpKeeps(p, Del(fdeNdx, fd));
      var k := fdeNdx;
      pollfds := pollfds[k := pollfds[k].(fd := FREE)];
      if |unusedPtr| == unusedUsed {
        unusedPtr := unusedPtr + seq(16, _ => 0);
      }
      unusedPtr := unusedPtr[unusedUsed := k];
      unusedUsed := unusedUsed + 1;
      assert Value() == Deleted(p, k);
    }

    /** fdevent_poll_event_add */
    method EventAdd(fdeNdx: int, fd: int, events: int) returns (ndx: int)
      requires Ok() && (fdeNdx == -1 || fdeNdx >= 0)
      requires CallOk(Value(), if fdeNdx == -1 then Add(fd, events) else Change(fdeNdx, fd, events))
      modifies this
      ensures Ok() && Value() == Apply(old(Value()), if fdeNdx == -1 then Add(fd, events)
        else Change(fdeNdx, fd, events))
      ensures (fd, ndx, events) in Live(Value()) && ndx == if fdeNdx == -1 then old(NewSlot(Value())) else fdeNdx
    {
      ghost var p := Value();
      if fdeNdx != -1 {
        ChangedOk(p, fdeNdx, fd, events);
        pollfds := pollfds[fdeNdx := pollfds[fdeNdx].(events := events)];
        assert Value() == Apply(p, Change(fdeNdx, fd, events));
        return fdeNdx;
      }
      AddedOk(p, fd, events);
      if unusedUsed > 0 {
        assert NewSlot(p) in p.free;
        unusedUsed := unusedUsed - 1;
        var k := unusedPtr[unusedUsed];
        pollfds := pollfds[k := Slot(fd, events)];
        assert Value() == Added(p, fd, events);
        ndx := k;
      } else {
        if |pollfds| == used {
          pollfds := pollfds + seq(16, _ => Slot(0, 0));
        }
        pollfds := pollfds[used := Slot(fd, events)];
        used := used + 1;
        assert Value() == Added(p, fd, events);
        ndx := used - 1;
      }
    }
  }
}
