/** The allocator used before the buddy system: a sorted set of free page ranges,
    filled with the memory that no reserved range covers. */
module EarlyPageAllocator {
  import opened Pages

  const UINT64: nat := 0x1_0000_0000_0000_0000

  /** Nid None stands for Nid::Any(). */
  datatype Nid = Any | Node(id: nat)

  datatype PageRange = PageRange(start: nat, npages: nat, nid: Nid) {
    function End(): nat { start + npages }
  }

  /** A right-open interval of addresses. */
  datatype Interval = Interval(lower: nat, upper: nat)

  /** begin + length of unsigned 64-bit addresses: a sum that wraps gives an empty
      interval. */
  function Addresses(begin: nat, length: nat): (i: Interval)
    requires begin < UINT64 && length < UINT64
    ensures if begin + length < UINT64 then i.upper == begin + length else Empty(i)
  {
    Interval(begin, if begin + length < UINT64 then begin + length else begin + length - UINT64)
  }

  predicate Empty(i: Interval) {
    i.upper <= i.lower
  }

  predicate Intersects(a: Interval, b: Interval) {
    !Empty(a) && !Empty(b) && a.lower < b.upper && b.lower < a.upper
  }

  /** boost::icl::left_subtract: the part of i above r. */
  function LeftSubtract(i: Interval, r: Interval): Interval {
    if r.upper <= i.lower then i else Interval(r.upper, i.upper)
  }

  /** boost::icl::right_subtract: the part of i below r. */
  function RightSubtract(i: Interval, r: Interval): Interval {
    if i.upper <= r.lower then i else Interval(i.lower, r.lower)
  }

  function PfnUp(addr: nat): nat {
    (addr + PAGE_SIZE - 1) / PAGE_SIZE
  }

  function PfnDown(addr: nat): nat {
    addr / PAGE_SIZE
  }

  function PageOf(frame: nat): Interval {
    Interval(frame * PAGE_SIZE, (frame + 1) * PAGE_SIZE)
  }

  /** A frame that may be freed: its page lies wholly inside the interval and
      touches no reserved range. */
  predicate Usable(frame: nat, i: Interval, reserved: seq<Interval>) {
    i.lower <= PageOf(frame).lower && PageOf(frame).upper <= i.upper
    && forall k | 0 <= k < |reserved| :: !Intersects(PageOf(frame), reserved[k])
  }

  predicate InRange(r: PageRange, frame: nat) {
    r.start <= frame < r.End()
  }

  predicate Free(ranges: seq<PageRange>, frame: nat) {
    exists k | 0 <= k < |ranges| :: InRange(ranges[k], frame)
  }

  /** Sorted, no range empty, no two overlapping or even touching. */
  predicate Normal(ranges: seq<PageRange>) {
    (forall k | 0 <= k < |ranges| :: ranges[k].npages > 0)
    && forall j, k | 0 <= j < k < |ranges| :: ranges[j].End() < ranges[k].start
  }

  /** Sorted and disjoint, but ranges k and k + 1 may touch where allowed. */
  predicate NormalBut(ranges: seq<PageRange>, a: int, b: int) {
    (forall k | 0 <= k < |ranges| :: ranges[k].npages > 0)
    && forall j, k | 0 <= j < k < |ranges| ::
         if k == j + 1 && (j == a || j == b) then ranges[j].End() <= ranges[k].start
         else ranges[j].End() < ranges[k].start
  }

  function Inserted(ranges: seq<PageRange>, i: nat, r: PageRange): seq<PageRange>
    requires i <= |ranges|
  {
    ranges[..i] + [r] + ranges[i..]
  }

  lemma InsertedFree(ranges: seq<PageRange>, i: nat, r: PageRange, f: nat)
    requires i <= |ranges|
    ensures Free(Inserted(ranges, i, r), f) <==> Free(ranges, f) || InRange(r, f)
  {
    var s := Inserted(ranges, i, r);
    assert s[i] == r;
    if Free(ranges, f) {
      var k :| 0 <= k < |ranges| && InRange(ranges[k], f);
      assert s[if k < i then k else k + 1] == ranges[k];
    }
    if Free(s, f) {
      var k :| 0 <= k < |s| && InRange(s[k], f);
      if k != i { assert s[k] == ranges[if k < i then k else k - 1]; }
    }
  }

  /** Ranges a and a + 1 become one. */
  function Joined(ranges: seq<PageRange>, a: nat): seq<PageRange>
    requires a + 1 < |ranges|
  {
    ranges[..a] + [ranges[a].(npages := ranges[a].npages + ranges[a + 1].npages)] + ranges[a + 2..]
  }

  lemma JoinedFree(ranges: seq<PageRange>, a: nat, f: nat)
    requires a + 1 < |ranges| && ranges[a].End() == ranges[a + 1].start
    ensures Free(Joined(ranges, a), f) <==> Free(ranges, f)
  {
    var s := Joined(ranges, a);
    if Free(ranges, f) {
      var k :| 0 <= k < |ranges| && InRange(ranges[k], f);
      assert InRange(s[if k <= a then k else k - 1], f);
    }
    if Free(s, f) {
      var k :| 0 <= k < |s| && InRange(s[k], f);
      if k == a {
        assert InRange(ranges[a], f) || InRange(ranges[a + 1], f);
      } else {
        assert InRange(ranges[if k < a then k else k + 1], f);
      }
    }
  }

  /** Range i replaced by two ranges. */
  function Split(ranges: seq<PageRange>, i: nat, a: PageRange, b: PageRange): seq<PageRange>
    requires i < |ranges|
  {
    ranges[..i] + [a, b] + ranges[i + 1..]
  }

  predicate Ordered(ranges: seq<PageRange>) {
    (forall k | 0 <= k < |ranges| :: ranges[k].npages > 0)
    && forall j, k | 0 <= j < k < |ranges| :: ranges[j].End() <= ranges[k].start
  }

  /** A free range that begins below `start` and ends above `end`. */
  predicate Straddles(r: PageRange, start: nat, end: nat) {
    r.start < start && end < r.End()
  }

  /** The frames SetNidRange keeps: all but those at or above `end` in a range
      that straddles both ends. */
  predicate Kept(ranges: seq<PageRange>, start: nat, end: nat, f: nat) {
    Free(ranges, f)
    && forall k | 0 <= k < |ranges| && Straddles(ranges[k], start, end) && InRange(ranges[k], f) :: f < end
  }

  /** What becomes of one free range when a node gets [start, end). */
  function Pieces(r: PageRange, start: nat, end: nat, nid: Nid): seq<PageRange>
    requires start < end
  {
    if r.End() <= start || r.start >= end then [r]
    else if r.start < start then
      [r.(npages := start - r.start), PageRange(start, (if end < r.End() then end else r.End()) - start, nid)]
    else if end < r.End() then [r.(npages := end - r.start, nid := nid), PageRange(end, r.End() - end, Any)]
    else [r.(nid := nid)]
  }

  function Assigned(ranges: seq<PageRange>, start: nat, end: nat, nid: Nid): seq<PageRange>
    requires start < end
  {
    if ranges == [] then [] else Pieces(ranges[0], start, end, nid) + Assigned(ranges[1..], start, end, nid)
  }

  /** One range in its pieces, among the others. */
  function Broken(ranges: seq<PageRange>, i: nat, start: nat, end: nat, nid: Nid): seq<PageRange>
    requires i < |ranges| && start < end
  {
    var p := Pieces(ranges[i], start, end, nid);
    if |p| == 1 then ranges[i := p[0]] else Split(ranges, i, p[0], p[1])
  }

  lemma {:induction false} BrokenIs(done: seq<PageRange>, rest: seq<PageRange>, start: nat, end: nat, nid: Nid)
    requires rest != [] && start < end
    ensures (done + rest)[|done|] == rest[0]
    ensures var p := Pieces(rest[0], start, end, nid);
      Broken(done + rest, |done|, start, end, nid) == (done + [p[0]]) + (p[1..] + rest[1..])
  {
    assert (done + rest)[..|done|] == done && (done + rest)[|done| + 1..] == rest[1..];
  }

  /** The first piece is done with; the second, if any, stays as it is. */
  lemma {:induction false} FirstPiece(rest: seq<PageRange>, start: nat, end: nat, nid: Nid)
    requires rest != [] && start < end
    ensures var p := Pieces(rest[0], start, end, nid);
      [p[0]] + Assigned(p[1..] + rest[1..], start, end, nid) == Assigned(rest, start, end, nid)
  {
    var p := Pieces(rest[0], start, end, nid);
    if |p| == 1 {
      assert p[1..] + rest[1..] == rest[1..] && p == [p[0]];
    } else {
      var tail := p[1..] + rest[1..];
      assert tail[0] == p[1] && tail[1..] == rest[1..];
      assert [p[0]] + ([p[1]] + Assigned(rest[1..], start, end, nid)) == p + Assigned(rest[1..], start, end, nid);
    }
  }

  /** What is done and what is not make up the free ranges, on the way from `was`. */
  ghost predicate Halfway(done: seq<PageRange>, rest: seq<PageRange>, start: nat, end: nat, nid: Nid,
                          was: seq<PageRange>) {
    start < end && done + Assigned(rest, start, end, nid) == Assigned(was, start, end, nid)
  }

  lemma {:induction false} HalfwayOn(done: seq<PageRange>, rest: seq<PageRange>, start: nat, end: nat, nid: Nid,
                                     was: seq<PageRange>)
    requires rest != [] && Halfway(done, rest, start, end, nid, was)
    ensures var p := Pieces(rest[0], start, end, nid);
      Halfway(done + [p[0]], p[1..] + rest[1..], start, end, nid, was)
  {
    var p := Pieces(rest[0], start, end, nid);
    FirstPiece(rest, start, end, nid);
    var more := Assigned(p[1..] + rest[1..], start, end, nid);
    assert (done + [p[0]]) + more == done + ([p[0]] + more);
  }

  lemma {:induction false} AllBeyond(rest: seq<PageRange>, start: nat, end: nat, nid: Nid)
    requires start < end && Ordered(rest) && (rest != [] ==> rest[0].start >= end)
    ensures Assigned(rest, start, end, nid) == rest
  {
    if rest != [] {
      assert |rest| > 1 ==> rest[0].End() <= rest[1].start;
      AllBeyond(rest[1..], start, end, nid);
    }
  }

  predicate Labelled(r: PageRange, start: nat, end: nat, nid: Nid) {
    r.End() <= start || r.start >= end || r.nid == nid
  }

  lemma FreeConcat(x: seq<PageRange>, y: seq<PageRange>, f: nat)
    ensures Free(x + y, f) <==> Free(x, f) || Free(y, f)
  {
    var s := x + y;
    if Free(x, f) {
      var k :| 0 <= k < |x| && InRange(x[k], f);
      assert s[k] == x[k];
    }
    if Free(y, f) {
      var k :| 0 <= k < |y| && InRange(y[k], f);
      assert s[|x| + k] == y[k];
    }
    if Free(s, f) {
      var k :| 0 <= k < |s| && InRange(s[k], f);
      if k < |x| { assert InRange(x[k], f); } else { assert InRange(y[k - |x|], f); }
    }
  }

  lemma PiecesFree(r: PageRange, start: nat, end: nat, nid: Nid, f: nat)
    requires start < end
    ensures Free(Pieces(r, start, end, nid), f) <==> InRange(r, f) && (Straddles(r, start, end) ==> f < end)
  {
    var p := Pieces(r, start, end, nid);
    assert Free(p, f) <==> InRange(p[0], f) || (|p| == 2 && InRange(p[1], f));
  }

  lemma KeptFirst(ranges: seq<PageRange>, start: nat, end: nat, f: nat)
    requires ranges != [] && Ordered(ranges)
    ensures Kept(ranges, start, end, f) <==>
      (InRange(ranges[0], f) && (Straddles(ranges[0], start, end) ==> f < end)) || Kept(ranges[1..], start, end, f)
  {
    var tail := ranges[1..];
    assert forall k | 0 <= k < |tail| :: tail[k] == ranges[k + 1];
    FreeConcat([ranges[0]], tail, f);
    assert [ranges[0]] + tail == ranges;
    assert Free([ranges[0]], f) <==> InRange([ranges[0]][0], f);
    forall k | 0 < k < |ranges|
      ensures ranges[k] == tail[k - 1] && !(InRange(ranges[0], f) && InRange(ranges[k], f))
    {
    }
  }

  /** SetNidRange keeps exactly those frames. */
  lemma {:induction false} AssignedFree(ranges: seq<PageRange>, start: nat, end: nat, nid: Nid, f: nat)
    requires Ordered(ranges) && start < end
    ensures Free(Assigned(ranges, start, end, nid), f) <==> Kept(ranges, start, end, f)
  {
    if ranges != [] {
      AssignedFree(ranges[1..], start, end, nid, f);
      FreeConcat(Pieces(ranges[0], start, end, nid), Assigned(ranges[1..], start, end, nid), f);
      PiecesFree(ranges[0], start, end, nid, f);
      KeptFirst(ranges, start, end, f);
    }
  }

  ghost predicate OnTheWay(ranges: seq<PageRange>, it: nat, done: seq<PageRange>, rest: seq<PageRange>, left: nat,
                           start: nat, end: nat, nid: Nid, was: seq<PageRange>) {
    ranges == done + rest && |done| == it && Ordered(rest) && Halfway(done, rest, start, end, nid, was)
    && left == |Assigned(rest, start, end, nid)|
  }

  lemma {:induction false} Departed(was: seq<PageRange>, start: nat, end: nat, nid: Nid)
    requires Ordered(was) && start < end
    ensures OnTheWay(was, 0, [], was, |Assigned(was, start, end, nid)|, start, end, nid, was)
  {
    assert [] + was == was;
  }

  lemma FirstOfRest(done: seq<PageRange>, rest: seq<PageRange>)
    requires rest != []
    ensures (done + rest)[|done|] == rest[0]
  {
  }

  lemma {:induction false} Arrived(done: seq<PageRange>, rest: seq<PageRange>, start: nat, end: nat, nid: Nid,
                                   was: seq<PageRange>)
    requires Ordered(rest) && Halfway(done, rest, start, end, nid, was) && (rest != [] ==> rest[0].start >= end)
    ensures done + rest == Assigned(was, start, end, nid)
  {
    AllBeyond(rest, start, end, nid);
  }

  predicate From(ranges: seq<PageRange>, lo: nat) {
    forall k | 0 <= k < |ranges| :: ranges[k].start >= lo
  }

  lemma OrderedConcat(x: seq<PageRange>, y: seq<PageRange>, mid: nat)
    requires Ordered(x) && Ordered(y) && From(y, mid) && forall k | 0 <= k < |x| :: x[k].End() <= mid
    ensures Ordered(x + y)
  {
    var s := x + y;
    forall j, k | 0 <= j < k < |s|
      ensures s[j].End() <= s[k].start
    {
      assert s[j] == (if j < |x| then x[j] else y[j - |x|]) && s[k] == (if k < |x| then x[k] else y[k - |x|]);
    }
  }

  lemma RestOrdered(rest: seq<PageRange>, start: nat, end: nat, nid: Nid)
    requires rest != [] && Ordered(rest) && start < end
    ensures Ordered(Pieces(rest[0], start, end, nid)[1..] + rest[1..])
  {
    OrderedConcat(Pieces(rest[0], start, end, nid)[1..], rest[1..], rest[0].End());
  }

  lemma PiecesOrdered(r: PageRange, start: nat, end: nat, nid: Nid)
    requires r.npages > 0 && start < end
    ensures var p := Pieces(r, start, end, nid);
      Ordered(p) && From(p, r.start) && forall k | 0 <= k < |p| :: p[k].End() <= r.End()
  {
  }

  /** and leaves the ranges in order. */
  lemma {:induction false} AssignedOrdered(ranges: seq<PageRange>, start: nat, end: nat, nid: Nid, lo: nat)
    requires Ordered(ranges) && start < end && From(ranges, lo)
    ensures Ordered(Assigned(ranges, start, end, nid)) && From(Assigned(ranges, start, end, nid), lo)
  {
    if ranges != [] {
      var r := ranges[0];
      AssignedOrdered(ranges[1..], start, end, nid, r.End());
      PiecesOrdered(r, start, end, nid);
      OrderedConcat(Pieces(r, start, end, nid), Assigned(ranges[1..], start, end, nid), r.End());
    }
  }

  lemma {:induction false} AssignedLabelled(ranges: seq<PageRange>, start: nat, end: nat, nid: Nid)
    requires start < end
    ensures forall k | 0 <= k < |Assigned(ranges, start, end, nid)| ::
              Labelled(Assigned(ranges, start, end, nid)[k], start, end, nid)
  {
    if ranges != [] {
      AssignedLabelled(ranges[1..], start, end, nid);
      var p := Pieces(ranges[0], start, end, nid);
      assert forall k | 0 <= k < |p| :: Labelled(p[k], start, end, nid);
    }
  }

  lemma AssignedFacts(ranges: seq<PageRange>, start: nat, end: nat, nid: Nid)
    requires Ordered(ranges) && start < end
    ensures Ordered(Assigned(ranges, start, end, nid))
    ensures forall f: nat :: Free(Assigned(ranges, start, end, nid), f) <==> Kept(ranges, start, end, f)
    ensures forall k | 0 <= k < |Assigned(ranges, start, end, nid)| ::
              Labelled(Assigned(ranges, start, end, nid)[k], start, end, nid)
  {
    AssignedOrdered(ranges, start, end, nid, 0);
    AssignedLabelled(ranges, start, end, nid);
    forall f: nat ensures Free(Assigned(ranges, start, end, nid), f) <==> Kept(ranges, start, end, f) {
      AssignedFree(ranges, start, end, nid, f);
    }
  }

  /** No frame is lost exactly when no free range straddles both ends. */
  lemma NothingLostIff(ranges: seq<PageRange>, start: nat, end: nat)
    requires Ordered(ranges) && start < end
    ensures (forall f: nat :: Kept(ranges, start, end, f) <==> Free(ranges, f))
            <==> forall k | 0 <= k < |ranges| :: !Straddles(ranges[k], start, end)
  {
    forall k | 0 <= k < |ranges| && Straddles(ranges[k], start, end)
      ensures Free(ranges, end) && !Kept(ranges, start, end, end)
    {
      assert InRange(ranges[k], end);
    }
  }

  /** end() - npages of an unsigned 64-bit frame number. */
  function WrappingSub(a: nat, b: nat): int {
    if a >= b then a - b else a - b + UINT64
  }

  predicate Matches(r: PageRange, nid: Nid) {
    nid == Any || r.nid == nid
  }

  /** What AllocatePage tests: the wrapped difference is not below the start. */
  predicate Taken(r: PageRange, npages: nat, nid: Nid) {
    Matches(r, nid) && WrappingSub(r.End(), npages) >= r.start
  }

  /** The test is right for a range that has the pages; it is also passed by one
      that ends before frame number npages. */
  lemma TakenIff(r: PageRange, npages: nat, nid: Nid)
    requires r.End() < UINT64 && npages < UINT64
    ensures Taken(r, npages, nid) <==> Matches(r, nid) && (npages <= r.npages || r.End() < npages)
  {
  }

  lemma PageBounds(frame: nat, lower: nat, upper: nat)
    ensures lower <= PageOf(frame).lower <==> PfnUp(lower) <= frame
    ensures PageOf(frame).upper <= upper <==> frame < PfnDown(upper)
  {
  }

  /** Around a reserved range that cuts the interval, a usable frame is usable in
      exactly one of the two parts left over. */
  lemma CutUsable(frame: nat, i: Interval, reserved: seq<Interval>, k: nat)
    requires k < |reserved| && Intersects(i, reserved[k])
    ensures var above, below := LeftSubtract(i, reserved[k]), RightSubtract(i, reserved[k]);
            (Usable(frame, i, reserved) <==> Usable(frame, above, reserved) || Usable(frame, below, reserved))
            && !(Usable(frame, above, reserved) && Usable(frame, below, reserved))
  {
    var r := reserved[k];
    assert Usable(frame, i, reserved) ==> !Intersects(PageOf(frame), r);
  }

  /** An interval clear of every reserved range frees all its whole pages. */
  lemma ClearUsable(frame: nat, i: Interval, reserved: seq<Interval>)
    requires forall k | 0 <= k < |reserved| :: !Intersects(i, reserved[k])
    ensures Usable(frame, i, reserved) <==> PfnUp(i.lower) <= frame < PfnDown(i.upper)
  {
    PageBounds(frame, i.lower, i.upper);
    if PfnUp(i.lower) <= frame < PfnDown(i.upper) {
      forall k | 0 <= k < |reserved|
        ensures !Intersects(PageOf(frame), reserved[k])
      {
        assert !Intersects(i, reserved[k]);
      }
    }
  }

  class EarlyPageAllocator {
    var freePages: seq<PageRange>
    var reserved: seq<Interval>

    ghost predicate Valid()
      reads this
    {
      Normal(freePages)
    }

    constructor ()
      ensures Valid() && freePages == [] && reserved == []
    {
      freePages, reserved := [], [];
    }

    /** A frame is usable afterwards exactly when it was and its page is clear of the new
        range. */
    method ReserveRange(begin: nat, end: nat)
      modifies this`reserved
      ensures reserved == old(reserved) + [Interval(begin, end)]
      ensures forall f: nat, i: Interval :: Usable(f, i, reserved) <==>
                Usable(f, i, old(reserved)) && !Intersects(PageOf(f), Interval(begin, end))
    {
      ghost var n := |reserved|;
      reserved := reserved + [Interval(begin, end)];
      assert reserved[n] == Interval(begin, end) && forall k | 0 <= k < n :: reserved[k] == old(reserved)[k];
    }

    /** Joins ranges a and a + 1 if they touch; returns the index of the range
        that now holds the second one's frames. */
    method Coalesce(a: nat, ghost other: int) returns (at: nat)
      requires a + 1 < |freePages| && NormalBut(freePages, a, other) && other != a
      modifies this`freePages
      ensures NormalBut(freePages, -1, if other > a then other - (a + 1 - at) else other)
      ensures at == a || (at == a + 1 && freePages == old(freePages))
      ensures at < |freePages| && |freePages| == |old(freePages)| - (a + 1 - at)
      ensures forall f :: Free(freePages, f) <==> Free(old(freePages), f)
    {
      if freePages[a].End() != freePages[a + 1].start {
        return a + 1;
      }
      forall f: nat
        ensures Free(Joined(freePages, a), f) <==> Free(freePages, f)
      {
        JoinedFree(freePages, a, f);
      }
      freePages := Joined(freePages, a);
      at := a;
    }

    method FreePageRange(start: nat, end: nat, nid: Nid)
      requires Valid() && start < end && forall f | start <= f < end :: !Free(freePages, f)
      modifies this`freePages
      ensures Valid()
      ensures forall f: nat :: Free(freePages, f) <==> Free(old(freePages), f) || start <= f < end
    {
      var range := PageRange(start, end - start, nid);
      var it := 0;
      while it < |freePages| && freePages[it].start < start
        invariant it <= |freePages| && forall k | 0 <= k < it :: freePages[k].start < start
      {
        it := it + 1;
      }
      InsertKeepsOrder(freePages, it, range);
      forall f: nat
        ensures Free(Inserted(freePages, it, range), f) <==> Free(freePages, f) || InRange(range, f)
      {
        InsertedFree(freePages, it, range, f);
      }
      freePages := Inserted(freePages, it, range);
      if it != 0 {
        it := Coalesce(it - 1, it);
      }
      if it + 1 != |freePages| {
        it := Coalesce(it, -1);
      }
    }

    /** Frees exactly the whole pages of a memory range that touch no reserved
        range, for any list of reserved ranges, overlapping or not. */
    method FreeMemoryRange(begin: nat, length: nat, nid: Nid)
      requires Valid() && begin < UINT64 && length < UINT64
      requires forall f: nat | Usable(f, Addresses(begin, length), reserved) :: !Free(freePages, f)
      modifies this`freePages
      ensures Valid()
      ensures forall f: nat :: Free(freePages, f) <==>
                Free(old(freePages), f) || Usable(f, Addresses(begin, length), reserved)
      ensures begin + length >= UINT64 ==> forall f: nat :: Free(freePages, f) <==> Free(old(freePages), f)
      decreases length
    {
      ghost var whole := Addresses(begin, length);
      var interval := Addresses(begin, length);
      var it := 0;
      while it < |reserved|
        invariant it <= |reserved| && Valid()
        invariant whole.lower <= interval.lower && interval.upper <= whole.upper
        invariant forall k | 0 <= k < it :: !Intersects(interval, reserved[k])
        invariant forall f: nat | Usable(f, interval, reserved) :: Usable(f, whole, reserved) && !Free(freePages, f)
        invariant forall f: nat :: Free(freePages, f) || Usable(f, interval, reserved)
                                   <==> Free(old(freePages), f) || Usable(f, whole, reserved)
      {
        if Intersects(interval, reserved[it]) {
          var above := LeftSubtract(interval, reserved[it]);
          var below := RightSubtract(interval, reserved[it]);
          forall f: nat
            ensures (Usable(f, interval, reserved) <==> Usable(f, above, reserved) || Usable(f, below, reserved))
                    && !(Usable(f, above, reserved) && Usable(f, below, reserved))
          {
            CutUsable(f, interval, reserved, it);
          }
          if Empty(above) && Empty(below) {
            return;
          }
          if Empty(above) {
            interval := below;
          } else if Empty(below) {
            interval := above;
          } else {
            interval := above;
            FreeMemoryRange(below.lower, below.upper - below.lower, nid);
          }
        }
        it := it + 1;
      }
      FreeWholePages(interval, nid);
    }

    method FreeWholePages(interval: Interval, nid: Nid)
      requires Valid() && forall k | 0 <= k < |reserved| :: !Intersects(interval, reserved[k])
      requires forall f: nat | Usable(f, interval, reserved) :: !Free(freePages, f)
      modifies this`freePages
      ensures Valid()
      ensures forall f: nat :: Free(freePages, f) <==> Free(old(freePages), f) || Usable(f, interval, reserved)
    {
      forall f: nat
        ensures Usable(f, interval, reserved) <==> PfnUp(interval.lower) <= f < PfnDown(interval.upper)
      {
        ClearUsable(f, interval, reserved);
      }
      if interval.upper < interval.lower + PAGE_SIZE {
        return;
      }
      var start, end := PfnUp(interval.lower), PfnDown(interval.upper);
      if end <= start {
        return;
      }
      FreePageRange(start, end, nid);
    }

    /** Takes pages from the end of the first range that passes the test. The
        frames returned were free exactly when that range had enough pages. */
    method AllocatePage(npages: nat, nid: Nid) returns (chosen: nat, ret: int)
      requires Valid() && npages < 0x1_0000_0000
      requires forall k | 0 <= k < |freePages| :: freePages[k].End() < UINT64 / PAGE_SIZE
      modifies this`freePages
      ensures chosen <= |old(freePages)|
      ensures forall k | 0 <= k < chosen :: !Taken(old(freePages)[k], npages, nid)
      ensures chosen == |old(freePages)| ==> freePages == old(freePages)
      ensures chosen < |old(freePages)| ==>
                Taken(old(freePages)[chosen], npages, nid)
                && ret == WrappingSub(old(freePages)[chosen].End(), npages) >= 0
      ensures chosen < |old(freePages)| ==>
                ((forall f: nat | ret <= f < ret + npages :: Free(old(freePages), f))
                 <==> npages <= old(freePages)[chosen].npages)
      ensures chosen < |old(freePages)| && npages <= old(freePages)[chosen].npages ==>
                Valid() && forall f: nat :: Free(freePages, f) <==>
                             Free(old(freePages), f) && !(ret <= f < ret + npages)
    {
      chosen, ret := 0, 0;
      while chosen < |freePages|
        invariant chosen <= |freePages| && forall k | 0 <= k < chosen :: !Taken(freePages[k], npages, nid)
      {
        if Matches(freePages[chosen], nid) {
          ret := WrappingSub(freePages[chosen].End(), npages);
          if ret >= freePages[chosen].start {
            TakeFromEnd(chosen, npages, nid, ret);
            return;
          }
        }
        chosen := chosen + 1;
      }
    }

    method TakeFromEnd(i: nat, npages: nat, ghost nid: Nid, ret: int)
      requires Valid() && npages < 0x1_0000_0000 && i < |freePages| && Taken(freePages[i], npages, nid)
      requires forall k | 0 <= k < |freePages| :: freePages[k].End() < UINT64 / PAGE_SIZE
      requires ret == WrappingSub(freePages[i].End(), npages)
      modifies this`freePages
      ensures (forall f: nat | ret <= f < ret + npages :: Free(old(freePages), f))
              <==> npages <= old(freePages)[i].npages
      ensures npages <= old(freePages)[i].npages ==>
                Valid() && forall f: nat :: Free(freePages, f) <==>
                             Free(old(freePages), f) && !(ret <= f < ret + npages)
    {
      TakenIff(freePages[i], npages, nid);
      ghost var was := freePages;
      if ret == freePages[i].start {
        freePages := freePages[..i] + freePages[i + 1..];
        forall f: nat
          ensures Free(freePages, f) <==> Free(was, f) && !InRange(was[i], f)
        {
          RemovedFree(was, i, f);
        }
      } else {
        freePages := freePages[i := freePages[i].(npages := WrappingSub(freePages[i].npages, npages))];
        if npages <= was[i].npages {
          forall f: nat
            ensures Free(freePages, f) <==> Free(was, f) && !(ret <= f < ret + npages)
          {
            ShortenedFree(was, i, was[i].npages - npages, f);
          }
        }
      }
      if npages <= was[i].npages {
        assert forall f: nat | ret <= f < ret + npages :: InRange(was[i], f);
      } else {
        assert !Free(was, ret);
      }
    }

    /** Gives the free frames of [start, end) to a node, splitting ranges at the
        two ends. A range that straddles both ends loses what lies above. */
    method SetNidRange(start: nat, end: nat, nid: Nid)
      requires Ordered(freePages) && start < end
      modifies this`freePages
      ensures Ordered(freePages) && freePages == Assigned(old(freePages), start, end, nid)
      ensures forall f: nat :: Free(freePages, f) <==> Kept(old(freePages), start, end, f)
      ensures forall k | 0 <= k < |freePages| :: Labelled(freePages[k], start, end, nid)
    {
      AssignedFacts(freePages, start, end, nid);
      AssignAll(start, end, nid);
    }

    method AssignAll(start: nat, end: nat, nid: Nid)
      requires Ordered(freePages) && start < end
      modifies this`freePages
      ensures freePages == Assigned(old(freePages), start, end, nid)
    {
      ghost var was := freePages;
      var it := 0;
      ghost var done, rest, left: nat := [], was, |Assigned(was, start, end, nid)|;
      Departed(was, start, end, nid);
      while it < |freePages|
        invariant OnTheWay(freePages, it, done, rest, left, start, end, nid, was)
        decreases left
      {
        FirstOfRest(done, rest);
        if freePages[it].End() > start && freePages[it].start >= end {
          break;
        }
        done, rest, left := AssignNext(it, start, end, nid, was, done, rest, left);
        it := it + 1;
      }
      Arrived(done, rest, start, end, nid, was);
    }

    method AssignNext(it: nat, start: nat, end: nat, nid: Nid,
                      ghost was: seq<PageRange>, ghost done: seq<PageRange>, ghost rest: seq<PageRange>, ghost left: nat)
      returns (ghost done': seq<PageRange>, ghost rest': seq<PageRange>, ghost left': nat)
      requires OnTheWay(freePages, it, done, rest, left, start, end, nid, was) && rest != [] && rest[0].start < end
      modifies this`freePages
      ensures OnTheWay(freePages, it + 1, done', rest', left', start, end, nid, was) && left' < left
    {
      ghost var p := Pieces(rest[0], start, end, nid);
      BrokenIs(done, rest, start, end, nid);
      FirstPiece(rest, start, end, nid);
      HalfwayOn(done, rest, start, end, nid, was);
      RestOrdered(rest, start, end, nid);
      AssignRange(it, start, end, nid);
      done', rest' := done + [p[0]], p[1..] + rest[1..];
      left' := |Assigned(rest', start, end, nid)|;
    }

    /** One turn of the loop. */
    method AssignRange(it: nat, start: nat, end: nat, nid: Nid)
      requires it < |freePages| && start < end && freePages[it].start < end
      modifies this`freePages
      ensures freePages == Broken(old(freePages), it, start, end, nid)
    {
      var r := freePages[it];
      if r.End() <= start {
        return;
      }
      if r.start < start {
        var newEnd := if end < r.End() then end else r.End();
        freePages := Split(freePages, it, r.(npages := start - r.start), PageRange(start, newEnd - start, nid));
        return;
      }
      if end < r.End() {
        freePages := Split(freePages, it, r.(npages := end - r.start), PageRange(end, r.End() - end, Any));
      }
      freePages := freePages[it := freePages[it].(nid := nid)];
    }
  }

  lemma FreeAround(ranges: seq<PageRange>, i: nat, f: nat)
    requires i < |ranges|
    ensures Free(ranges, f) <==> Free(ranges[..i], f) || InRange(ranges[i], f) || Free(ranges[i + 1..], f)
  {
    var a, r, b := ranges[..i], ranges[i], ranges[i + 1..];
    assert ranges == a + ([r] + b);
    FreeConcat(a, [r] + b, f);
    FreeConcat([r], b, f);
    assert Free([r], f) <==> InRange([r][0], f);
  }

  lemma FreeOnce(ranges: seq<PageRange>, i: nat, f: nat)
    requires Ordered(ranges) && i < |ranges| && InRange(ranges[i], f)
    ensures !Free(ranges[..i], f) && !Free(ranges[i + 1..], f)
  {
    assert forall k | 0 <= k < i :: ranges[k].End() <= ranges[i].start;
    assert forall k | i < k < |ranges| :: ranges[i].End() <= ranges[k].start;
  }

  lemma RemovedFree(ranges: seq<PageRange>, i: nat, f: nat)
    requires Ordered(ranges) && i < |ranges|
    ensures Free(ranges[..i] + ranges[i + 1..], f) <==> Free(ranges, f) && !InRange(ranges[i], f)
  {
    FreeAround(ranges, i, f);
    FreeConcat(ranges[..i], ranges[i + 1..], f);
    if InRange(ranges[i], f) { FreeOnce(ranges, i, f); }
  }

  lemma ShortenedFree(ranges: seq<PageRange>, i: nat, npages: nat, f: nat)
    requires Ordered(ranges) && i < |ranges| && npages <= ranges[i].npages
    ensures Free(ranges[i := ranges[i].(npages := npages)], f)
            <==> Free(ranges, f) && !(ranges[i].start + npages <= f < ranges[i].End())
  {
    var s := ranges[i := ranges[i].(npages := npages)];
    if Free(ranges, f) && !(ranges[i].start + npages <= f < ranges[i].End()) {
      var k :| 0 <= k < |ranges| && InRange(ranges[k], f);
      assert InRange(s[k], f);
    }
    if Free(s, f) {
      var k :| 0 <= k < |s| && InRange(s[k], f);
      assert InRange(ranges[k], f);
    }
  }

  /** A range that overlaps nothing can only touch its two neighbours. */
  lemma InsertKeepsOrder(ranges: seq<PageRange>, i: nat, r: PageRange)
    requires Normal(ranges) && i <= |ranges| && r.npages > 0
    requires forall f | InRange(r, f) :: !Free(ranges, f)
    requires forall k | 0 <= k < i :: ranges[k].start < r.start
    requires i < |ranges| ==> r.start <= ranges[i].start
    ensures NormalBut(Inserted(ranges, i, r), i - 1, i)
  {
    var s := Inserted(ranges, i, r);
    if i < |ranges| {
      assert InRange(ranges[i], ranges[i].start) && Free(ranges, ranges[i].start);
      assert !InRange(r, ranges[i].start);
    }
    if i > 0 {
      assert InRange(r, r.start) && !InRange(ranges[i - 1], r.start);
    }
    forall j, k | 0 <= j < k < |s|
      ensures if k == j + 1 && (j == i - 1 || j == i) then s[j].End() <= s[k].start else s[j].End() < s[k].start
    {
      assert s[j] == if j < i then ranges[j] else if j == i then r else ranges[j - 1];
      assert s[k] == if k < i then ranges[k] else if k == i then r else ranges[k - 1];
    }
  }

  // ------------------------------------------------------------ two witnesses

  /** Sixteen free frames in one range, of which a node gets the second four: the upper
      eight are lost. */
  lemma UpperHalfLost(f: nat)
    requires 8 <= f < 16
    ensures var ranges := [PageRange(0, 16, Any)];
            Ordered(ranges) && Free(ranges, f) && !Kept(ranges, 4, 8, f)
  {
    var ranges := [PageRange(0, 16, Any)];
    assert InRange(ranges[0], f) && Straddles(ranges[0], 4, 8);
  }

  method SetNidRangeLoses(a: EarlyPageAllocator)
    requires a.freePages == [PageRange(0, 16, Any)]
    modifies a
    ensures forall f: nat | 8 <= f < 16 :: Free(old(a.freePages), f) && !Free(a.freePages, f)
  {
    forall f: nat | 8 <= f < 16
      ensures Free(a.freePages, f) && !Kept(a.freePages, 4, 8, f)
    {
      UpperHalfLost(f);
    }
    a.SetNidRange(4, 8, Node(1));
  }

  /** Five pages asked of the two at frames 1 and 2: the difference wraps and passes. */
  lemma FivePassForTwo()
    ensures var r := PageRange(1, 2, Any);
            Taken(r, 5, Any) && WrappingSub(r.End(), 5) == UINT64 - 2 && !InRange(r, UINT64 - 2)
  {
  }

  method AllocateTooMany(a: EarlyPageAllocator) returns (ret: int)
    requires a.freePages == [PageRange(1, 2, Any)]
    modifies a
    ensures ret == UINT64 - 2 && forall f: nat | ret <= f < ret + 5 :: !Free(old(a.freePages), f)
  {
    var chosen;
    chosen, ret := a.AllocatePage(5, Any);
    FivePassForTwo();
    assert Taken(old(a.freePages)[0], 5, Any);
    assert chosen == 0;
  }
}
