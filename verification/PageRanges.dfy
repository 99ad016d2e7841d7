/** Ranges of page frames, the blocks that fill them, and when the blocks of ranges side
    by side are in canonical form. */
module PageRanges {
  import opened Buddy
  import opened Division

  /** Init computes with 32-bit int shifts, so it is given frames below 2^31. */
  const FRAME_LIMIT: nat := 0x8000_0000

  /** A range of free page frames handed over by the early allocator. */
  datatype Range = Range(start: nat, end: nat)

  predicate Within(start: nat, end: nat, f: nat) {
    start <= f < end
  }

  ghost function RangeFrames(start: nat, end: nat): iset<nat> {
    iset f: nat | Within(start, end, f)
  }

  lemma RangesJoin(before: iset<nat>, start: nat, mid: nat, end: nat)
    requires start <= mid <= end
    ensures RangeFrames(start, mid) + RangeFrames(mid, end) == RangeFrames(start, end)
    ensures before + RangeFrames(start, mid) + RangeFrames(mid, end) == before + RangeFrames(start, end)
  {
  }

  ghost function AllFrames(ranges: seq<Range>): iset<nat> {
    if ranges == [] then iset{}
    else AllFrames(ranges[..|ranges| - 1]) + RangeFrames(ranges[|ranges| - 1].start, ranges[|ranges| - 1].end)
  }

  /** Ranges in ascending order, none empty, no two with a common frame. */
  predicate Sorted(ranges: seq<Range>) {
    (forall i | 0 <= i < |ranges| :: ranges[i].start < ranges[i].end < FRAME_LIMIT)
    && forall i, j | 0 <= i < j < |ranges| :: ranges[i].end <= ranges[j].start
  }

  lemma {:induction false} AllFramesIn(ranges: seq<Range>, f: nat)
    ensures f in AllFrames(ranges) <==> exists i | 0 <= i < |ranges| :: Within(ranges[i].start, ranges[i].end, f)
    decreases |ranges|
  {
    if ranges != [] {
      var n := |ranges| - 1;
      AllFramesIn(ranges[..n], f);
      if i :| 0 <= i < n && Within(ranges[..n][i].start, ranges[..n][i].end, f) {
        assert Within(ranges[i].start, ranges[i].end, f);
      }
      if i :| 0 <= i < n && Within(ranges[i].start, ranges[i].end, f) {
        assert ranges[..n][i] == ranges[i];
      }
    }
  }

  // ------------------------------------------------------------ the ends of a range

  /** The order of the largest block that can start or end at this frame and is no
      longer than the range. */
  function EdgeOrder(frame: nat, length: nat): nat
    requires length > 0
  {
    var log := HighestBit(length);
    Min(MAX_ORDER, if frame == 0 then log else Min(TrailingZeros(frame), log))
  }

  lemma EdgeOrderIsLargest(frame: nat, length: nat, order: nat)
    requires length > 0 && order <= MAX_ORDER && Aligned(Block(frame, order)) && Pow2(order) <= length
    ensures order <= EdgeOrder(frame, length)
  {
    Pow2Less(order, HighestBit(length) + 1);
    if frame > 0 { AlignedBits(frame, order); }
  }

  lemma EdgeOrderFits(frame: nat, length: nat)
    requires length > 0
    ensures Aligned(Block(frame, EdgeOrder(frame, length))) && Pow2(EdgeOrder(frame, length)) <= length
  {
    var o := EdgeOrder(frame, length);
    Pow2Monotone(o, HighestBit(length));
    if frame > 0 {
      TrailingZerosOdd(frame);
      AlignedDown(Block(frame, TrailingZeros(frame)), o);
    }
  }

  /** A block of a partition lies inside the frames. */
  lemma BlockInside(s: set<Block>, start: nat, end: nat, b: Block)
    requires Partition(s, RangeFrames(start, end)) && b in s
    ensures start <= b.pfn && End(b) <= end && Fits(b)
  {
    assert Fits(b) && Contains(b, b.pfn) && Contains(b, End(b) - 1);
    assert Covered(s, b.pfn) && Covered(s, End(b) - 1);
  }

  /** In canonical form some block holds the whole of an aligned run. */
  lemma RunInside(s: set<Block>, start: nat, end: nat, run: Block) returns (b: Block)
    requires Partition(s, RangeFrames(start, end)) && Canonical(s) && Fits(run)
    requires start <= run.pfn && End(run) <= end
    ensures b in s && b.order <= MAX_ORDER && Aligned(b) && start <= b.pfn && End(b) <= end
    ensures b.order >= run.order && b.pfn <= run.pfn && End(run) <= End(b)
  {
    forall f: nat | Contains(run, f)
      ensures Covered(s, f)
    {
      assert f in RangeFrames(start, end);
    }
    b := RunHasBlock(s, run);
    BlockInside(s, start, end, b);
    assert Contains(run, run.pfn);
    Nested(run, b, run.pfn);
  }

  /** The first block of a range in canonical form, */
  lemma FirstBlock(s: set<Block>, start: nat, end: nat)
    requires start < end && Partition(s, RangeFrames(start, end)) && Canonical(s)
    ensures Block(start, EdgeOrder(start, end - start)) in s
  {
    EdgeOrderFits(start, end - start);
    var b := RunInside(s, start, end, Block(start, EdgeOrder(start, end - start)));
    EdgeOrderIsLargest(start, end - start, b.order);
  }

  /** and the last. */
  lemma LastBlock(s: set<Block>, start: nat, end: nat)
    requires start < end && Partition(s, RangeFrames(start, end)) && Canonical(s)
    ensures Pow2(EdgeOrder(end, end - start)) <= end
    ensures Block(end - Pow2(EdgeOrder(end, end - start)), EdgeOrder(end, end - start)) in s
  {
    var o := EdgeOrder(end, end - start);
    EdgeOrderFits(end, end - start);
    var b := EndBlock(s, start, end, o);
    assert b.order == o by { EdgeOrderIsLargest(end, end - start, b.order); }
    assert b == Block(end - Pow2(o), o);
  }

  lemma EndBlock(s: set<Block>, start: nat, end: nat, o: nat) returns (b: Block)
    requires start < end && Partition(s, RangeFrames(start, end)) && Canonical(s)
    requires o <= MAX_ORDER && Aligned(Block(end, o)) && Pow2(o) <= end - start
    ensures b in s && End(b) == end && o <= b.order <= MAX_ORDER
    ensures Aligned(Block(end, b.order)) && Pow2(b.order) <= end - start
  {
    PreviousMultiple(end, Pow2(o));
    b := RunInside(s, start, end, Block(end - Pow2(o), o));
    NextMultiple(b.pfn, Pow2(b.order));
  }

  lemma PreviousMultiple(a: nat, n: nat)
    requires 1 <= n <= a && a % n == 0
    ensures (a - n) % n == 0
  {
    assert a - n == (a / n - 1) * n;
    MultipleMod(a / n - 1, n);
  }

  // ------------------------------------------------------------- ranges side by side

  /** The blocks that start in a range. */
  ghost function Part(s: set<Block>, r: Range): set<Block> {
    set b | b in s && Within(r.start, r.end, b.pfn)
  }

  /** The blocks of one range are its own canonical form. */
  ghost predicate Filled(s: set<Block>, r: Range) {
    Partition(Part(s, r), RangeFrames(r.start, r.end)) && Canonical(Part(s, r))
  }

  /** Every range was filled by itself. */
  ghost predicate BuiltFrom(s: set<Block>, ranges: seq<Range>) {
    forall i | 0 <= i < |ranges| :: Filled(s, ranges[i])
  }

  /** Two ranges touch, and the last block of the lower and the first of the upper are
      buddies that were never joined. */
  predicate Unjoined(lower: Range, upper: Range)
    requires lower.start < lower.end && upper.start < upper.end
  {
    lower.end == upper.start && var o := EdgeOrder(upper.start, upper.end - upper.start);
      o == EdgeOrder(lower.end, lower.end - lower.start) && o < MAX_ORDER && upper.start / Pow2(o) % 2 == 1
  }

  /** That is, where they touch, both have room for a block of the largest order aligned
      there, and that order is not the largest of all. */
  lemma UnjoinedIff(lower: Range, upper: Range)
    requires lower.start < lower.end == upper.start < upper.end
    ensures Unjoined(lower, upper) <==>
      var n := Pow2(TrailingZeros(upper.start));
      TrailingZeros(upper.start) < MAX_ORDER && n <= lower.end - lower.start && n <= upper.end - upper.start
  {
    EdgeAt(lower.end, lower.end - lower.start);
    EdgeAt(upper.start, upper.end - upper.start);
  }

  /** The bit of the edge order is set exactly when nothing but the alignment bounds it. */
  lemma EdgeAt(b: nat, length: nat)
    requires b > 0 && length > 0
    ensures var o, k := EdgeOrder(b, length), TrailingZeros(b);
      o <= k && (o == k <==> k <= MAX_ORDER && Pow2(k) <= length) && (b / Pow2(o) % 2 == 1 <==> o == k)
  {
    var o, k := EdgeOrder(b, length), TrailingZeros(b);
    TrailingZerosOdd(b);
    AlignedDown(Block(b, k), o);
    EdgeOrderFits(b, length);
    if k <= MAX_ORDER && Pow2(k) <= length {
      EdgeOrderIsLargest(b, length, k);
    }
  }

  ghost predicate AnyUnjoined(ranges: seq<Range>)
    requires Sorted(ranges)
  {
    exists i, j | 0 <= i < j < |ranges| :: Unjoined(ranges[i], ranges[j])
  }

  /** Buddies on both sides of the boundary. */
  lemma UnjoinedBuddies(s: set<Block>, lower: Range, upper: Range)
    requires lower.start < lower.end && upper.start < upper.end && Filled(s, lower) && Filled(s, upper)
    requires Unjoined(lower, upper)
    ensures !Canonical(s)
  {
    var b, o := upper.start, EdgeOrder(upper.start, upper.end - upper.start);
    FirstBlock(Part(s, upper), upper.start, upper.end);
    LastBlock(Part(s, lower), lower.start, lower.end);
    assert BuddyOf(Block(b, o)) == Block(b - Pow2(o), o);
  }

  /** Two blocks of one partition that share a frame are the same. */
  lemma SameBlock(s: set<Block>, a: Block, b: Block, f: nat)
    requires Separate(s) && a in s && b in s && Contains(a, f) && Contains(b, f)
    ensures a == b
  {
    assert a != b ==> Disjoint(a, b);
  }

  lemma FirstOrder(s: set<Block>, start: nat, end: nat, b: Block)
    requires start < end && Partition(s, RangeFrames(start, end)) && Canonical(s) && b in s && b.pfn == start
    ensures b.order == EdgeOrder(start, end - start)
  {
    FirstBlock(s, start, end);
    SameBlock(s, b, Block(start, EdgeOrder(start, end - start)), start);
  }

  lemma LastOrder(s: set<Block>, start: nat, end: nat, b: Block)
    requires start < end && Partition(s, RangeFrames(start, end)) && Canonical(s) && b in s && End(b) == end
    ensures b.order == EdgeOrder(end, end - start)
  {
    var o := EdgeOrder(end, end - start);
    LastBlock(s, start, end);
    SameBlock(s, b, Block(end - Pow2(o), o), end - 1);
  }

  /** If a block ends and its buddy begins where two ranges touch, the ranges are unjoined. */
  lemma BuddiesUnjoined(s: set<Block>, lower: Range, upper: Range, l: Block, u: Block)
    requires lower.start < lower.end == upper.start < upper.end && Filled(s, lower) && Filled(s, upper)
    requires l in Part(s, lower) && u in Part(s, upper) && End(l) == lower.end && u.pfn == upper.start
    requires l.order == u.order < MAX_ORDER && u.pfn / Pow2(u.order) % 2 == 1
    ensures Unjoined(lower, upper)
  {
    FirstOrder(Part(s, upper), upper.start, upper.end, u);
    LastOrder(Part(s, lower), lower.start, lower.end, l);
  }

  lemma PartOf(s: set<Block>, ranges: seq<Range>, b: Block) returns (i: nat)
    requires Partition(s, AllFrames(ranges)) && b in s && BuiltFrom(s, ranges)
    ensures i < |ranges| && b in Part(s, ranges[i]) && ranges[i].start <= b.pfn && End(b) <= ranges[i].end
  {
    assert Contains(b, b.pfn) && Covered(s, b.pfn);
    AllFramesIn(ranges, b.pfn);
    i :| 0 <= i < |ranges| && Within(ranges[i].start, ranges[i].end, b.pfn);
    assert Filled(s, ranges[i]);
    BlockInside(Part(s, ranges[i]), ranges[i].start, ranges[i].end, b);
  }

  /** A block and its buddy in order. */
  lemma InOrder(b: Block) returns (l: Block, u: Block)
    requires Aligned(b)
    ensures {l, u} == {b, BuddyOf(b)} && l.order == u.order == b.order && End(l) == u.pfn && Aligned(u)
    ensures u.pfn / Pow2(u.order) % 2 == 1 && BuddyOf(l) == u
  {
    BuddyFacts(b);
    if b.pfn / Pow2(b.order) % 2 == 0 {
      EvenThenOdd(b.pfn, Pow2(b.order));
      l, u := b, BuddyOf(b);
    } else {
      l, u := BuddyOf(b), b;
    }
  }

  /** Free buddies lie on both sides of a boundary. */
  lemma PairMeets(s: set<Block>, ranges: seq<Range>, b: Block)
    requires Sorted(ranges) && Partition(s, AllFrames(ranges)) && BuiltFrom(s, ranges)
    requires b in s && b.order < MAX_ORDER && BuddyOf(b) in s
    ensures AnyUnjoined(ranges)
  {
    assert Fits(b);
    var l, u := InOrder(b);
    assert l in {l, u} && u in {l, u};
    var i := PartOf(s, ranges, l);
    var j := PartOf(s, ranges, u);
    assert Filled(s, ranges[i]) && Filled(s, ranges[j]);
    assert BuddyOf(l) == u && u !in Part(s, ranges[i]);
    BuddiesUnjoined(s, ranges[i], ranges[j], l, u);
  }

  /** Blocks that fill each range by itself are in canonical form as a whole exactly when
      no two ranges are unjoined. */
  lemma CanonicalIff(s: set<Block>, ranges: seq<Range>)
    requires Sorted(ranges) && Partition(s, AllFrames(ranges)) && BuiltFrom(s, ranges)
    ensures Canonical(s) <==> !AnyUnjoined(ranges)
  {
    if i, j :| 0 <= i < j < |ranges| && Unjoined(ranges[i], ranges[j]) {
      assert Filled(s, ranges[i]) && Filled(s, ranges[j]);
      UnjoinedBuddies(s, ranges[i], ranges[j]);
    }
    if !Canonical(s) {
      var b :| b in s && b.order < MAX_ORDER && BuddyOf(b) in s;
      PairMeets(s, ranges, b);
    }
  }

  /** One more range, filled by itself. */
  lemma BuiltOn(s: set<Block>, more: set<Block>, ranges: seq<Range>, r: Range)
    requires Sorted(ranges + [r]) && Partition(s, AllFrames(ranges)) && BuiltFrom(s, ranges)
    requires Partition(more, RangeFrames(r.start, r.end)) && Canonical(more)
    ensures BuiltFrom(s + more, ranges + [r])
  {
    forall b | b in s
      ensures !Within(r.start, r.end, b.pfn)
    {
      var i := PartOf(s, ranges, b);
      assert (ranges + [r])[i] == ranges[i] && (ranges + [r])[|ranges|] == r;
    }
    forall b | b in more ensures Within(r.start, r.end, b.pfn) { BlockInside(more, r.start, r.end, b); }
    assert Part(s + more, r) == more;
    forall i | 0 <= i < |ranges|
      ensures Filled(s + more, (ranges + [r])[i])
    {
      assert (ranges + [r])[i] == ranges[i] && (ranges + [r])[|ranges|] == r;
      assert Part(s + more, ranges[i]) == Part(s, ranges[i]);
      assert Filled(s, ranges[i]);
    }
  }
}
