/** The hand-over at boot: what the early allocator holds for a node is what the page
    allocator of that node starts from. */
module PageBoot {
  import opened Buddy
  import opened Options
  import opened PageRanges
  import E = EarlyPageAllocator
  import P = PageAllocator

  function Released(ranges: seq<E.PageRange>): (r: seq<Range>)
    ensures |r| == |ranges| && forall k | 0 <= k < |r| :: r[k] == Range(ranges[k].start, ranges[k].End())
  {
    seq(|ranges|, k requires 0 <= k < |ranges| => Range(ranges[k].start, ranges[k].End()))
  }

  lemma ReleasedFrames(ranges: seq<E.PageRange>, f: nat)
    ensures f in AllFrames(Released(ranges)) <==> E.Free(ranges, f)
  {
    var q := Released(ranges);
    AllFramesIn(q, f);
    assert forall k | 0 <= k < |q| :: Within(q[k].start, q[k].end, f) <==> E.InRange(ranges[k], f);
  }

  /** The ranges that go to one node. */
  function OfNode(ranges: seq<E.PageRange>, nid: E.Nid): seq<E.PageRange> {
    if ranges == [] then []
    else (if ranges[0].nid == nid then [ranges[0]] else []) + OfNode(ranges[1..], nid)
  }

  predicate Below(ranges: seq<E.PageRange>) {
    forall k | 0 <= k < |ranges| :: ranges[k].End() < FRAME_LIMIT
  }

  lemma {:induction false} OfNodeHas(ranges: seq<E.PageRange>, nid: E.Nid, r: E.PageRange)
    ensures r in OfNode(ranges, nid) <==> r in ranges && r.nid == nid
  {
    if ranges != [] {
      OfNodeHas(ranges[1..], nid, r);
    }
  }

  lemma NodeFrames(ranges: seq<E.PageRange>, nid: E.Nid, f: nat)
    ensures E.Free(OfNode(ranges, nid), f) <==> OfNodeHolds(ranges, nid, f)
  {
    var own := OfNode(ranges, nid);
    if E.Free(own, f) {
      var i :| 0 <= i < |own| && E.InRange(own[i], f);
      OfNodeHas(ranges, nid, own[i]);
    }
    forall k | 0 <= k < |ranges| && ranges[k].nid == nid && E.InRange(ranges[k], f)
      ensures E.Free(own, f)
    {
      OfNodeHas(ranges, nid, ranges[k]);
    }
  }

  lemma PrependOrdered(r: E.PageRange, own: seq<E.PageRange>)
    requires E.Ordered(own) && Below(own) && r.npages > 0 && r.End() < FRAME_LIMIT
    requires forall k | 0 <= k < |own| :: r.End() <= own[k].start
    ensures E.Ordered([r] + own) && Below([r] + own)
  {
    var all := [r] + own;
    assert forall k | 0 < k < |all| :: all[k] == own[k - 1];
  }

  lemma TailOrdered(ranges: seq<E.PageRange>)
    requires ranges != [] && E.Ordered(ranges) && Below(ranges)
    ensures E.Ordered(ranges[1..]) && Below(ranges[1..])
    ensures forall x | x in ranges[1..] :: ranges[0].End() <= x.start
  {
  }

  lemma {:induction false} OfNodeOrdered(ranges: seq<E.PageRange>, nid: E.Nid)
    requires E.Ordered(ranges) && Below(ranges)
    ensures E.Ordered(OfNode(ranges, nid)) && Below(OfNode(ranges, nid))
  {
    if ranges != [] {
      var own := OfNode(ranges[1..], nid);
      TailOrdered(ranges);
      OfNodeOrdered(ranges[1..], nid);
      forall k | 0 <= k < |own|
        ensures ranges[0].End() <= own[k].start
      {
        OfNodeHas(ranges[1..], nid, own[k]);
      }
      PrependOrdered(ranges[0], own);
      assert [] + own == own;
    }
  }

  predicate OfNodeHolds(ranges: seq<E.PageRange>, nid: E.Nid, f: nat) {
    exists k | 0 <= k < |ranges| :: ranges[k].nid == nid && E.InRange(ranges[k], f)
  }

  /** The hand-over to one node. Whatever SetNidRange left, the ranges of the node are in
      order and hold exactly the free frames labelled with it. */
  lemma HandOver(ranges: seq<E.PageRange>, nid: E.Nid)
    requires E.Ordered(ranges) && Below(ranges)
    ensures Sorted(Released(OfNode(ranges, nid)))
    ensures AllFrames(Released(OfNode(ranges, nid))) == iset f: nat | OfNodeHolds(ranges, nid, f)
  {
    OfNodeOrdered(ranges, nid);
    var own := OfNode(ranges, nid);
    forall f: nat
      ensures f in AllFrames(Released(own)) <==> OfNodeHolds(ranges, nid, f)
    {
      ReleasedFrames(own, f);
      NodeFrames(ranges, nid, f);
    }
  }

  /** Ranges in the normal form that every operation of the early allocator but
      SetNidRange keeps do not touch, so none of them are unjoined. */
  lemma NormalJoined(ranges: seq<E.PageRange>)
    requires E.Normal(ranges) && Below(ranges)
    ensures Sorted(Released(ranges)) && !AnyUnjoined(Released(ranges))
  {
    var q := Released(ranges);
    assert forall i, j | 0 <= i < j < |q| :: q[i].end < q[j].start;
  }

  /** The page allocator of one node as Init leaves it: it manages exactly the free frames
      of the node, and is in canonical form exactly when nowhere two of its ranges touch
      with room on both sides for the largest block aligned there. */
  method InitNode(e: E.EarlyPageAllocator, nid: E.Nid, tags: map<nat, Page>) returns (a: P.PageAllocator)
    requires E.Ordered(e.freePages) && Below(e.freePages)
    requires forall f | f in tags :: tags[f].usage != Usage.PageAllocator
    requires forall f: nat | OfNodeHolds(e.freePages, nid, f) :: f in tags
    ensures fresh(a) && a.Valid() && a.held == {}
    ensures a.frames == iset f: nat | OfNodeHolds(e.freePages, nid, f)
    ensures var ranges := Released(OfNode(e.freePages, nid));
      Sorted(ranges) && BuiltFrom(a.free, ranges) && (Canonical(a.free) <==> !AnyUnjoined(ranges))
  {
    var ranges := Released(OfNode(e.freePages, nid));
    HandOver(e.freePages, nid);
    forall i, f: nat | 0 <= i < |ranges| && Within(ranges[i].start, ranges[i].end, f)
      ensures f in tags
    {
      AllFramesIn(ranges, f);
    }
    a := new P.PageAllocator(ranges, tags);
  }

  // ---------------------------------------------------------- two blocks of memory

  lemma SingleBlock(b: Block)
    requires Fits(b)
    ensures Partition({b}, RangeFrames(b.pfn, End(b))) && Canonical({b})
  {
    BuddyFacts(b);
    forall f: nat
      ensures Covered({b}, f) <==> Contains(b, f)
    {
      if Contains(b, f) { assert b in {b}; }
    }
  }

  /** A range that is one block is filled with it. */
  lemma FilledWith(s: set<Block>, b: Block)
    requires Fits(b) && Filled(s, Range(b.pfn, End(b)))
    ensures Part(s, Range(b.pfn, End(b))) == {b}
  {
    SingleBlock(b);
    CanonicalUnique(Part(s, Range(b.pfn, End(b))), {b}, RangeFrames(b.pfn, End(b)));
  }

  const LOWER := Block(0, 2)
  const UPPER := Block(4, 2)
  const WHOLE := Block(0, 3)

  lemma Sizes()
    ensures Pow2(2) == 4 && Pow2(3) == 8 && Fits(LOWER) && Fits(UPPER) && Fits(WHOLE)
    ensures BuddyOf(LOWER) == UPPER && BuddyOf(UPPER) == LOWER
  {
    assert Pow2(0) == 1 && Pow2(1) == 2;
  }

  lemma TwoBlocks(s: set<Block>)
    requires BuiltFrom(s, [Range(0, 4), Range(4, 8)]) && Partition(s, AllFrames([Range(0, 4), Range(4, 8)]))
    ensures s == {LOWER, UPPER}
  {
    var ranges := [Range(0, 4), Range(4, 8)];
    Sizes();
    assert Filled(s, ranges[0]) && Filled(s, ranges[1]);
    FilledWith(s, LOWER);
    FilledWith(s, UPPER);
    forall b | b in s
      ensures b == LOWER || b == UPPER
    {
      var i := PartOf(s, ranges, b);
    }
    assert LOWER in Part(s, ranges[0]) && UPPER in Part(s, ranges[1]);
  }

  lemma TwoBlocksFacts()
    ensures !Canonical({LOWER, UPPER}) && FreeRun({LOWER, UPPER}, WHOLE)
  {
    Sizes();
    forall f: nat | Contains(WHOLE, f)
      ensures Covered({LOWER, UPPER}, f)
    {
      assert Contains(LOWER, f) || Contains(UPPER, f);
    }
  }

  lemma {:induction false} AssignedPair(x: E.PageRange, y: E.PageRange, start: nat, end: nat, nid: E.Nid)
    requires start < end
    ensures E.Assigned([x], start, end, nid) == E.Pieces(x, start, end, nid)
    ensures E.Assigned([x, y], start, end, nid) == E.Pieces(x, start, end, nid) + E.Pieces(y, start, end, nid)
  {
    assert [x][1..] == [] && [y][1..] == [] && [x, y][1..] == [y];
    assert E.Assigned([y], start, end, nid) == E.Pieces(y, start, end, nid);
  }

  lemma {:induction false} OfNodePair(x: E.PageRange, y: E.PageRange, nid: E.Nid)
    requires x.nid == y.nid == nid
    ensures OfNode([x, y], nid) == [x, y]
  {
    assert [x, y][1..] == [y] && [y][1..] == [];
    assert OfNode([y], nid) == [y];
  }

  /** Both halves of a free range, assigned one after the other. */
  lemma AssignedTwice(n: E.Nid)
    ensures E.Assigned([E.PageRange(0, 8, E.Any)], 0, 4, n) == [E.PageRange(0, 4, n), E.PageRange(4, 4, E.Any)]
    ensures E.Assigned([E.PageRange(0, 4, n), E.PageRange(4, 4, E.Any)], 4, 8, n)
      == [E.PageRange(0, 4, n), E.PageRange(4, 4, n)]
  {
    var x, y := E.PageRange(0, 4, n), E.PageRange(4, 4, E.Any);
    AssignedPair(E.PageRange(0, 8, E.Any), y, 0, 4, n);
    AssignedPair(x, y, 4, 8, n);
    assert E.Pieces(x, 4, 8, n) == [x] && E.Pieces(y, 4, 8, n) == [E.PageRange(4, 4, n)];
  }

  method AssignHalves(e: E.EarlyPageAllocator, n: E.Nid)
    requires e.freePages == [E.PageRange(0, 8, E.Any)]
    modifies e
    ensures e.freePages == [E.PageRange(0, 4, n), E.PageRange(4, 4, n)]
  {
    e.SetNidRange(0, 4, n);
    assert e.freePages == [E.PageRange(0, 4, n), E.PageRange(4, 4, E.Any)] by { AssignedTwice(n); }
    e.SetNidRange(4, 8, n);
    AssignedTwice(n);
  }

  lemma SideBySide(ranges: seq<E.PageRange>, n: E.Nid)
    requires ranges == [E.PageRange(0, 4, n), E.PageRange(4, 4, n)]
    ensures E.Ordered(ranges) && Below(ranges) && Released(OfNode(ranges, n)) == [Range(0, 4), Range(4, 8)]
    ensures (iset f: nat | OfNodeHolds(ranges, n, f)) == RangeFrames(0, 8) == AllFrames([Range(0, 4), Range(4, 8)])
  {
    OfNodePair(ranges[0], ranges[1], n);
    assert Released(ranges) == [Range(0, 4), Range(4, 8)];
    HandOver(ranges, n);
    assert forall f: nat :: OfNodeHolds(ranges, n, f) <==> E.InRange(ranges[0], f) || E.InRange(ranges[1], f);
  }

  /** A node with two blocks of memory side by side. */
  method InitSideBySide(e: E.EarlyPageAllocator, tags: map<nat, Page>) returns (a: P.PageAllocator)
    requires e.freePages == [E.PageRange(0, 8, E.Any)]
    requires forall f | f in tags :: tags[f].usage != Usage.PageAllocator
    requires forall f | f in RangeFrames(0, 8) :: f in tags
    modifies e
    ensures fresh(a) && a.Valid() && a.held == {} && a.free == {LOWER, UPPER} && a.frames == RangeFrames(0, 8)
  {
    var n := E.Node(1);
    AssignHalves(e, n);
    SideBySide(e.freePages, n);
    assert forall f: nat | OfNodeHolds(e.freePages, n, f) :: f in RangeFrames(0, 8);
    a := InitNode(e, n, tags);
    assert a.free + a.held + {} == a.free;
    TwoBlocks(a.free);
  }

  /** One block is out and comes back. */
  method AllocateAndFree(a: P.PageAllocator)
    requires a.Valid() && a.held == {} && a.free == {LOWER, UPPER} && a.frames == RangeFrames(0, 8)
    modifies a
    ensures a.Valid() && a.held == {} && a.free == {WHOLE}
  {
    Sizes();
    assert P.Suits(LOWER, 2, P.UINT64_MAX);
    var r := a.AllocLocal(2, P.UINT64_MAX);
    ghost var k :| P.BestFit({LOWER, UPPER}, Block(r.value, k), 2, P.UINT64_MAX)
      && a.free == {LOWER, UPPER} - {Block(r.value, k)} + P.SplitOff(r.value, 2, k);
    assert k == 2 && P.SplitOff(r.value, 2, k) == {};
    assert Canonical(a.free);
    a.Free(r.value, 2);
    assert a.free + a.held + {} == a.free;
    SingleBlock(WHOLE);
    CanonicalUnique(a.free, {WHOLE}, RangeFrames(0, 8));
  }

  /** Init leaves buddies unjoined: a run of eight free frames is not found, and after one
      block was allocated and freed, with nothing held before or after, the free blocks are
      not those of Init. */
  method SideBySideIsNotFound(e: E.EarlyPageAllocator, tags: map<nat, Page>)
    returns (a: P.PageAllocator, r: Option<nat>, ghost initial: set<Block>)
    requires e.freePages == [E.PageRange(0, 8, E.Any)]
    requires forall f | f in tags :: tags[f].usage != Usage.PageAllocator
    requires forall f | f in RangeFrames(0, 8) :: f in tags
    modifies e
    ensures r == None && FreeRun(initial, Block(0, 3)) && !Canonical(initial)
    ensures fresh(a) && a.Valid() && a.held == {} && a.free != initial
  {
    a := InitSideBySide(e, tags);
    initial := a.free;
    Sizes();
    TwoBlocksFacts();
    r := a.Alloc(3);
    AllocateAndFree(a);
    assert LOWER in initial && LOWER !in a.free;
  }
}
