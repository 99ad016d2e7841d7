/** The buddy page allocator of one NUMA node: free lists per order and one tag
    per page frame, changed in place by Alloc and Free. */
module PageAllocator {
  import opened Buddy
  import opened Division
  import opened Options
  import opened PageRanges
  import opened Pages
  import opened Sequences

  const UINT64_MAX: nat := 0xffff_ffff_ffff_ffff

  /** lists[o] holds exactly the first frames of the free blocks of order o. */
  ghost predicate Represents(lists: seq<seq<nat>>, free: set<Block>) {
    |lists| == MAX_ORDER + 1
    && (forall o | 0 <= o <= MAX_ORDER :: Distinct(lists[o]))
    && (forall o, p: nat | 0 <= o <= MAX_ORDER && p in lists[o] :: Block(p, o) in free)
    && (forall b | b in free :: b.order <= MAX_ORDER && b.pfn in lists[b.order])
  }

  /** The blocks that splitting a block of order hi down to order lo gives back. */
  ghost function SplitOff(pfn: nat, lo: nat, hi: nat): set<Block> {
    set j: nat | lo <= j < hi :: Block(pfn + Pow2(j), j)
  }

  ghost predicate Suits(b: Block, order: nat, maxAddr: nat) {
    b.order >= order && b.pfn * PAGE_SIZE < maxAddr
  }

  /** A smallest free block that is large enough and starts below the limit. */
  ghost predicate BestFit(free: set<Block>, b: Block, order: nat, maxAddr: nat) {
    b in free && Suits(b, order, maxAddr)
    && forall c | c in free && Suits(c, order, maxAddr) :: b.order <= c.order
  }

  lemma RepresentsPush(lists: seq<seq<nat>>, free: set<Block>, b: Block)
    requires Represents(lists, free) && b !in free && b.order <= MAX_ORDER
    ensures Represents(lists[b.order := [b.pfn] + lists[b.order]], free + {b})
  {
  }

  lemma RepresentsErase(lists: seq<seq<nat>>, free: set<Block>, o: nat, i: nat)
    requires Represents(lists, free) && o <= MAX_ORDER && i < |lists[o]|
    ensures Represents(lists[o := lists[o][..i] + lists[o][i + 1..]], free - {Block(lists[o][i], o)})
  {
    var list := lists[o];
    var list' := list[..i] + list[i + 1..];
    assert forall k | 0 <= k < |list'| :: list'[k] == list[if k < i then k else k + 1];
    forall p: nat | p in list && p != list[i]
      ensures p in list'
    {
      var k :| 0 <= k < |list| && list[k] == p;
      assert list'[if k < i then k else k - 1] == p;
    }
  }

  lemma HeadsDiffer(s: set<Block>, a: Block, b: Block)
    requires Separate(s) && a in s && b in s && a != b
    ensures a.pfn != b.pfn
  {
    assert Disjoint(a, b) && Contains(a, a.pfn) && Contains(b, b.pfn);
  }

  lemma TaggedAdd(free: set<Block>, held: set<Block>, b: Block, s: set<Block>, frames: iset<nat>, pages: map<nat, Page>)
    requires Tagged(free, held, frames, pages) && free + held + {b} <= s && b !in free + held
    requires Partition(s, frames)
    ensures b.pfn in pages
    ensures Tagged(free + {b}, held, frames, pages[b.pfn := Page(PageAllocator, b.order)])
    ensures forall page: Page | page.usage != PageAllocator ::
              Tagged(free, held + {b}, frames, pages[b.pfn := page])
  {
    assert Contains(b, b.pfn) && Covered(s, b.pfn);
    forall x | x in free + held
      ensures x.pfn != b.pfn
    {
      HeadsDiffer(s, x, b);
    }
  }

  /** No frame of the range to be added is managed. */
  ghost predicate Apart(frames: iset<nat>, start: nat, end: nat) {
    forall f: nat | f in frames :: !Within(start, end, f)
  }

  /** Where the blocks of a range stop growing and start shrinking. */
  function AlignUp(n: nat, alignment: nat): (r: nat)
    requires alignment > 0
    ensures r % alignment == 0 && n <= r < n + alignment
  {
    var r := (n + alignment - 1) / alignment * alignment;
    MultipleMod((n + alignment - 1) / alignment, alignment);
    r
  }

  lemma AddPartition(s: set<Block>, b: Block, frames: iset<nat>)
    requires Partition(s, frames) && Fits(b) && forall f: nat | Contains(b, f) :: f !in frames
    ensures b !in s && Partition(s + {b}, frames + RangeFrames(b.pfn, End(b)))
  {
    assert Contains(b, b.pfn) && (b in s ==> Covered(s, b.pfn));
    forall x | x in s
      ensures Disjoint(x, b) && Disjoint(b, x)
    {
      forall f | Contains(x, f) && Contains(b, f)
        ensures false
      {
        assert Covered(s, f);
      }
    }
    forall f: nat
      ensures Covered(s + {b}, f) <==> Covered(s, f) || Contains(b, f)
    {
      if Covered(s, f) {
        var x :| x in s && Contains(x, f);
        assert x in s + {b};
      }
      if Contains(b, f) {
        assert b in s + {b};
      }
    }
  }

  // ------------------------------------------------- filling one range, block by block

  /** A block more at the end of what has been filled. */
  lemma OwnAdd(own: set<Block>, start: nat, pfn: nat, order: nat)
    requires Partition(own, RangeFrames(start, pfn)) && Canonical(own) && start <= pfn && Fits(Block(pfn, order))
    requires order < MAX_ORDER ==> BuddyOf(Block(pfn, order)) !in own
    ensures Partition(own + {Block(pfn, order)}, RangeFrames(start, pfn + Pow2(order)))
    ensures Canonical(own + {Block(pfn, order)})
  {
    RangesJoin(iset{}, start, pfn, pfn + Pow2(order));
    AddPartition(own, Block(pfn, order), RangeFrames(start, pfn));
    PairAdd(own, Block(pfn, order));
    PairsCanonical(own, own + {Block(pfn, order)});
  }

  /** What adding that block to the free ones means for the range. */
  lemma BlockAdded(was: set<Block>, blocks: set<Block>, before: iset<nat>, start: nat, pfn: nat, order: nat)
    requires Partition(was - blocks, RangeFrames(start, pfn)) && Canonical(was - blocks) && blocks <= was
    requires start <= pfn && Fits(Block(pfn, order)) && Block(pfn, order) !in was
    requires order < MAX_ORDER ==> BuddyOf(Block(pfn, order)) !in was - blocks
    ensures var own := was + {Block(pfn, order)} - blocks;
      own == was - blocks + {Block(pfn, order)}
      && Partition(own, RangeFrames(start, pfn + Pow2(order))) && Canonical(own)
    ensures before + RangeFrames(start, pfn) + RangeFrames(pfn, pfn + Pow2(order))
      == before + RangeFrames(start, pfn + Pow2(order))
  {
    assert was + {Block(pfn, order)} - blocks == was - blocks + {Block(pfn, order)};
    OwnAdd(was - blocks, start, pfn, order);
    RangesJoin(before, start, pfn, pfn + Pow2(order));
  }

  /** At a frame with this order's bit set the buddy lies just below, where only
      a block of another order, or nothing, ends. */
  lemma NoBuddyBelow(own: set<Block>, start: nat, pfn: nat, order: nat, last: Block)
    requires Partition(own, RangeFrames(start, pfn)) && Aligned(Block(pfn, order)) && pfn / Pow2(order) % 2 == 1
    requires start < pfn ==> last in own && End(last) == pfn && last.order != order
    ensures BuddyOf(Block(pfn, order)) !in own
  {
    var c := BuddyOf(Block(pfn, order));
    OddThenEven(pfn, Pow2(order));
    if c in own {
      BlockInside(own, start, pfn, c);
      SameBlock(own, c, last, pfn - 1);
    }
  }

  lemma NoBuddyAround(own: set<Block>, start: nat, pfn: nat, order: nat)
    requires Partition(own, RangeFrames(start, pfn)) && Aligned(Block(pfn, order))
    requires pfn / Pow2(order) % 2 == 0 || pfn < start + Pow2(order)
    ensures BuddyOf(Block(pfn, order)) !in own
  {
    var c := BuddyOf(Block(pfn, order));
    if c in own {
      BlockInside(own, start, pfn, c);
    }
  }

  /** While climbing, the block that ends at pfn is smaller than the next one. */
  ghost predicate Climbing(own: set<Block>, start: nat, pfn: nat, last: Block) {
    start < pfn ==> last in own && End(last) == pfn && Smaller(last.order, pfn)
  }

  lemma ClimbsOn(own: set<Block>, start: nat, next: nat, grown: Block)
    requires grown in own && End(grown) == next && Smaller(grown.order, next)
    ensures Climbing(own, start, next, grown)
  {
  }

  ghost predicate Smaller(order: nat, pfn: nat) {
    order == MAX_ORDER || (pfn > 0 && order < TrailingZeros(pfn))
  }

  /** The largest block that is aligned at pfn. */
  method GrowingOrder(ghost own: set<Block>, ghost start: nat, pfn: nat, ghost divide: nat, ghost log: nat,
                      ghost last: Block)
    returns (order: nat)
    requires Partition(own, RangeFrames(start, pfn)) && start <= pfn && 0 < pfn < divide
    requires Climbing(own, start, pfn, last) && Aligned(Block(divide, log)) && divide < start + Pow2(log)
    ensures order <= MAX_ORDER && Aligned(Block(pfn, order)) && pfn + Pow2(order) <= divide
    ensures order < MAX_ORDER ==> BuddyOf(Block(pfn, order)) !in own
    ensures Smaller(order, pfn + Pow2(order))
  {
    order := TrailingZeros(pfn);
    order := if order > MAX_ORDER then MAX_ORDER else order;
    TrailingZerosOdd(pfn);
    AlignedDown(Block(pfn, TrailingZeros(pfn)), order);
    Climb(pfn, divide, log);
    if order < MAX_ORDER {
      NoBuddyBelow(own, start, pfn, order, last);
    }
  }

  /** Once past the divide: pfn is aligned to the last order used, and less than
      a block of that order is left unless that order was the largest. At the
      divide itself at most one block of its alignment fits. */
  ghost predicate Shrinking(start: nat, divide: nat, pfn: nat, end: nat, log: nat, bound: nat) {
    Aligned(Block(pfn, bound)) && bound <= MAX_ORDER
    && (bound == MAX_ORDER || end < pfn + Pow2(bound)
        || (pfn == divide && bound == log && end < pfn + 2 * Pow2(log) && pfn < start + Pow2(log)))
  }

  lemma ShrinkOrder(start: nat, divide: nat, pfn: nat, end: nat, log: nat, bound: nat, order: nat)
    requires pfn < end && Shrinking(start, divide, pfn, end, log, bound)
    requires order == if HighestBit(end - pfn) > MAX_ORDER then MAX_ORDER else HighestBit(end - pfn)
    ensures order <= bound && Aligned(Block(pfn, order)) && pfn + Pow2(order) <= end
    ensures order == MAX_ORDER || end < pfn + 2 * Pow2(order)
    ensures order < bound ==> pfn / Pow2(order) % 2 == 0
    ensures order == bound < MAX_ORDER ==> pfn == divide && bound == log && pfn < start + Pow2(log)
  {
    var k := HighestBit(end - pfn);
    Pow2Monotone(order, k);
    if bound != MAX_ORDER && end < pfn + Pow2(bound) {
      Pow2Less(k, bound);
    } else if bound != MAX_ORDER {
      Pow2Less(k, log + 1);
    }
    AlignedDown(Block(pfn, bound), order);
  }

  lemma ShrinkNext(start: nat, divide: nat, pfn: nat, end: nat, log: nat, order: nat)
    requires order <= MAX_ORDER && Aligned(Block(pfn, order)) && (order == MAX_ORDER || end < pfn + 2 * Pow2(order))
    ensures Shrinking(start, divide, pfn + Pow2(order), end, log, order)
  {
    NextMultiple(pfn, Pow2(order));
  }

  /** The largest block that starts at pfn and fits. */
  method ShrinkingOrder(ghost own: set<Block>, ghost start: nat, ghost divide: nat, pfn: nat, end: nat,
                        ghost log: nat, ghost bound: nat)
    returns (order: nat)
    requires Partition(own, RangeFrames(start, pfn)) && pfn < end && Shrinking(start, divide, pfn, end, log, bound)
    ensures order <= MAX_ORDER && Aligned(Block(pfn, order)) && pfn + Pow2(order) <= end
    ensures order < MAX_ORDER ==> BuddyOf(Block(pfn, order)) !in own
    ensures Shrinking(start, divide, pfn + Pow2(order), end, log, order)
  {
    order := HighestBit(end - pfn);
    order := if order > MAX_ORDER then MAX_ORDER else order;
    ShrinkOrder(start, divide, pfn, end, log, bound, order);
    if order < MAX_ORDER {
      NoBuddyAround(own, start, pfn, order);
    }
    ShrinkNext(start, divide, pfn, end, log, order);
  }

  lemma ParentHolds(b: Block, f: nat)
    requires Fits(b) && Contains(b, f)
    ensures Contains(Parent(b), f)
  {
    BuddyFacts(b);
  }

  class PageAllocator {
    var lists: seq<seq<nat>>
    var pages: map<nat, Page>
    ghost var free: set<Block>
    ghost var held: set<Block>
    ghost var frames: iset<nat>

    /** Everything but the block in hand, if any, is accounted for. */
    ghost predicate Steady(inHand: set<Block>)
      reads this
    {
      Represents(lists, free) && free !! held && inHand !! free + held
      && Partition(free + held + inHand, frames)
      && Tagged(free, held, frames, pages)
    }

    ghost predicate Valid()
      reads this
    {
      Steady({})
    }

    method FreePageNoCoalesce(pfn: nat, order: nat)
      requires order <= MAX_ORDER && Represents(lists, free) && Block(pfn, order) !in free
      modifies this`lists, this`pages, this`free
      ensures Represents(lists, free) && free == old(free) + {Block(pfn, order)}
      ensures pages == old(pages)[pfn := Page(PageAllocator, order)]
      ensures lists == old(lists)[order := [pfn] + old(lists)[order]]
    {
      RepresentsPush(lists, free, Block(pfn, order));
      lists := lists[order := [pfn] + lists[order]];
      pages := pages[pfn := Page(PageAllocator, order)];
      free := free + {Block(pfn, order)};
    }

    /** std::find_if over one free list. */
    method FindBelow(list: seq<nat>, maxAddr: nat) returns (i: nat)
      ensures i <= |list| && forall k | 0 <= k < i :: list[k] * PAGE_SIZE >= maxAddr
      ensures i < |list| ==> list[i] * PAGE_SIZE < maxAddr
    {
      i := 0;
      while i < |list| && list[i] * PAGE_SIZE >= maxAddr
        invariant i <= |list| && forall k | 0 <= k < i :: list[k] * PAGE_SIZE >= maxAddr
      {
        i := i + 1;
      }
    }

    method Search(order: nat, maxAddr: nat) returns (thisOrder: nat, i: nat)
      requires Represents(lists, free)
      ensures thisOrder <= MAX_ORDER ==> i < |lists[thisOrder]|
      ensures thisOrder <= MAX_ORDER ==> BestFit(free, Block(lists[thisOrder][i], thisOrder), order, maxAddr)
      ensures thisOrder > MAX_ORDER ==> forall b | b in free :: !Suits(b, order, maxAddr)
    {
      thisOrder, i := order, 0;
      while thisOrder <= MAX_ORDER
        invariant forall b | b in free && Suits(b, order, maxAddr) :: b.order >= thisOrder
        invariant thisOrder >= order
      {
        i := FindBelow(lists[thisOrder], maxAddr);
        if i < |lists[thisOrder]| {
          return;
        }
        thisOrder := thisOrder + 1;
      }
    }

    /** list.erase: the block leaves its free list and is in hand. */
    method Take(order: nat, i: nat) returns (pfn: nat)
      requires Valid() && order <= MAX_ORDER && i < |lists[order]|
      modifies this`lists, this`free
      ensures pfn == old(lists)[order][i] && free == old(free) - {Block(pfn, order)}
      ensures Steady({Block(pfn, order)})
    {
      pfn := lists[order][i];
      RepresentsErase(lists, free, order, i);
      lists := lists[order := lists[order][..i] + lists[order][i + 1..]];
      free := free - {Block(pfn, order)};
      assert free + held + {Block(pfn, order)} == old(free) + held + {};
    }

    /** The upper half of the block in hand can go to the free list. */
    lemma SplitHand(pfn: nat, order: nat)
      requires order < MAX_ORDER && Steady({Block(pfn, order + 1)})
      ensures var l := Block(pfn, order); var u := BuddyOf(l);
              u == Block(pfn + Pow2(order), order) && u !in free && l !in free + held + {u} && u !in held
              && Partition(free + held + {l} + {u}, frames) && NoNewPair(free, free + {u})
              && Tagged(free + {u}, held, frames, pages[u.pfn := Page(PageAllocator, order)])
    {
      var b, l := Block(pfn, order + 1), Block(pfn, order);
      var u := BuddyOf(l);
      assert Fits(b);
      Halves(b);
      BuddyFacts(l);
      SplitPartition(free + held, b, frames);
      assert BuddyOf(u) == l;
      forall x | x in free
        ensures Fits(x)
      {
        assert x in free + held + {b};
      }
      PairAdd(free, u);
      TaggedAdd(free, held, u, free + held + {l} + {u}, frames, pages);
    }

    method SplitOnce(pfn: nat, order: nat)
      requires order < MAX_ORDER && Steady({Block(pfn, order + 1)})
      modifies this`lists, this`pages, this`free
      ensures Steady({Block(pfn, order)}) && free == old(free) + {Block(pfn + Pow2(order), order)}
      ensures NoNewPair(old(free), free)
    {
      SplitHand(pfn, order);
      FreePageNoCoalesce(BuddyOf(Block(pfn, order)).pfn, order);
      assert free + held + {Block(pfn, order)}
          == old(free) + held + {Block(pfn, order)} + {BuddyOf(Block(pfn, order))};
    }

    lemma SplitOffNext(pfn: nat, order: nat, from: nat)
      requires order < from
      ensures SplitOff(pfn, order, from) == SplitOff(pfn, order + 1, from) + {Block(pfn + Pow2(order), order)}
    {
    }

    /** The loop that gives upper halves back until the block in hand is small enough. */
    method Split(pfn: nat, from: nat, order: nat)
      requires order <= from <= MAX_ORDER && Steady({Block(pfn, from)})
      modifies this`lists, this`pages, this`free
      ensures Steady({Block(pfn, order)}) && free == old(free) + SplitOff(pfn, order, from)
      ensures NoNewPair(old(free), free)
    {
      var thisOrder := from;
      assert SplitOff(pfn, from, from) == {};
      while thisOrder != order
        invariant order <= thisOrder <= from && Steady({Block(pfn, thisOrder)})
        invariant free == old(free) + SplitOff(pfn, thisOrder, from) && NoNewPair(old(free), free)
      {
        thisOrder := thisOrder - 1;
        SplitOnce(pfn, thisOrder);
        SplitOffNext(pfn, thisOrder, from);
      }
    }

    /** The block in hand becomes the caller's. */
    method Hand(pfn: nat, order: nat)
      requires Steady({Block(pfn, order)})
      modifies this`pages, this`held
      ensures Valid() && held == old(held) + {Block(pfn, order)}
    {
      TaggedAdd(free, held, Block(pfn, order), free + held + {Block(pfn, order)}, frames, pages);
      pages := pages[pfn := pages[pfn].(usage := InUse)];
      held := held + {Block(pfn, order)};
      assert free + held + {} == free + old(held) + {Block(pfn, order)};
    }

    method AllocLocal(order: nat, maxAddr: nat) returns (r: Option<nat>)
      requires Valid()
      modifies this
      ensures Valid() && frames == old(frames)
      ensures NoNewPair(old(free), free) && (old(Canonical(free)) ==> Canonical(free))
      ensures r.None? <==> forall b | b in old(free) :: !Suits(b, order, maxAddr)
      ensures r.None? ==> lists == old(lists) && pages == old(pages) && free == old(free) && held == old(held)
      ensures r.Some? ==> Block(r.value, order) !in old(held) && held == old(held) + {Block(r.value, order)}
      ensures r.Some? ==> exists k :: BestFit(old(free), Block(r.value, k), order, maxAddr)
                            && free == old(free) - {Block(r.value, k)} + SplitOff(r.value, order, k)
    {
      var thisOrder, i := Search(order, maxAddr);
      if thisOrder > MAX_ORDER {
        return None;
      }
      var pfn := Take(thisOrder, i);
      Split(pfn, thisOrder, order);
      Hand(pfn, order);
      PairsCanonical(old(free), free);
      r := Some(pfn);
    }

    lemma MergeHand(pfn: nat, order: nat)
      requires order < MAX_ORDER && Steady({Block(pfn, order)}) && BuddyOf(Block(pfn, order)) in free
      ensures var c, p := BuddyOf(Block(pfn, order)), Parent(Block(pfn, order));
              p !in free + held && Partition(free - {c} + held + {p}, frames)
              && Tagged(free - {c}, held, frames, pages)
    {
      var b := Block(pfn, order);
      var c, p := BuddyOf(b), Parent(b);
      MergePartition(free + held, b, frames);
      assert free + held - {c} + {p} == free - {c} + held + {p};
    }

    /** One turn of the coalescing loop: the free buddy joins the block in hand. */
    method MergeOnce(pfn: nat, order: nat) returns (merged: nat)
      requires order < MAX_ORDER && Steady({Block(pfn, order)}) && BuddyOf(Block(pfn, order)) in free
      modifies this`lists, this`free
      ensures Steady({Block(merged, order + 1)}) && Block(merged, order + 1) == Parent(Block(pfn, order))
      ensures free == old(free) - {BuddyOf(Block(pfn, order))}
    {
      var buddy := BuddyOf(Block(pfn, order));
      MergeHand(pfn, order);
      var i := 0;
      while lists[order][i] != buddy.pfn
        invariant i < |lists[order]| && buddy.pfn in lists[order][i..]
        decreases |lists[order]| - i
      {
        i := i + 1;
      }
      RepresentsErase(lists, free, order, i);
      lists := lists[order := lists[order][..i] + lists[order][i + 1..]];
      free := free - {buddy};
      merged := Min(pfn, buddy.pfn);
    }

    /** The block in hand goes on its list. */
    method Settle(pfn: nat, order: nat)
      requires order <= MAX_ORDER && Steady({Block(pfn, order)})
      modifies this`lists, this`pages, this`free
      ensures Valid() && free == old(free) + {Block(pfn, order)}
      ensures order == MAX_ORDER || BuddyOf(Block(pfn, order)) !in old(free) ==> NoNewPair(old(free), free)
      ensures pages == old(pages)[pfn := Page(PageAllocator, order)]
    {
      ghost var b := Block(pfn, order);
      forall x | x in free + {b}
        ensures Fits(x)
      {
        assert x in free + held + {b};
      }
      if order == MAX_ORDER || BuddyOf(b) !in free {
        PairAdd(free, b);
      }
      TaggedAdd(free, held, b, free + held + {b}, frames, pages);
      FreePageNoCoalesce(pfn, order);
      assert free + held + {} == old(free) + held + {b};
    }

    /** All free blocks but one were free before, and that one holds the block given back. */
    method Free(pfn: nat, order: nat)
      requires Valid() && Block(pfn, order) in held
      modifies this
      ensures Valid() && frames == old(frames)
      ensures exists b :: b in free && free - {b} <= old(free) && Contains(b, pfn)
      ensures held == old(held) - {Block(pfn, order)}
      ensures NoNewPair(old(free), free) && (old(Canonical(free)) ==> Canonical(free))
    {
      var p, o := pfn, order;
      held := held - {Block(pfn, order)};
      assert free + held + {Block(p, o)} == old(free) + old(held) + {};
      assert Fits(Block(p, o));
      while o < MAX_ORDER
        invariant o <= MAX_ORDER && Steady({Block(p, o)})
        invariant frames == old(frames) && held == old(held) - {Block(pfn, order)} && free <= old(free)
        invariant Contains(Block(p, o), pfn)
        decreases MAX_ORDER - o
      {
        TagSound(free, held, Block(p, o), frames, pages);
        if !LooksFree(pages, BuddyOf(Block(p, o))) {
          break;
        }
        ParentHolds(Block(p, o), pfn);
        p := MergeOnce(p, o);
        o := o + 1;
      }
      Settle(p, o);
      assert Block(p, o) in free && free - {Block(p, o)} <= old(free);
      PairsCanonical(old(free), free);
    }

    /** A client may overwrite the tag of a block it holds, as the slab allocator
        does, but not with the allocator's own mark. */
    method SetPage(b: Block, page: Page)
      requires Valid() && b in held && page.usage != PageAllocator
      modifies this`pages
      ensures Valid() && pages == old(pages)[b.pfn := page]
    {
      assert free + held + {} == free + held;
      TaggedAdd(free, held - {b}, b, free + held, frames, pages);
      assert held - {b} + {b} == held;
      pages := pages[b.pfn := page];
    }

    method EarlyFreePage(pfn: nat, order: nat)
      requires Valid() && held == {} && order <= MAX_ORDER && Aligned(Block(pfn, order))
      requires forall f: nat | Contains(Block(pfn, order), f) :: f !in frames && f in pages
      modifies this
      ensures Valid() && held == {} && Block(pfn, order) !in old(free) && free == old(free) + {Block(pfn, order)}
      ensures frames == old(frames) + RangeFrames(pfn, pfn + Pow2(order))
      ensures pages.Keys == old(pages).Keys
    {
      ghost var b := Block(pfn, order);
      assert free + held + {} == free;
      AddPartition(free, b, frames);
      assert Contains(b, pfn);
      frames := frames + RangeFrames(pfn, End(b));
      assert free + {} + {b} == free + held + {b};
      assert Tagged(free, held, frames, pages);
      Settle(pfn, order);
    }

    /** The part of the range below pfn has been added to what was managed before, and
        its blocks are in canonical form among themselves. */
    ghost predicate Filling(before: iset<nat>, blocks: set<Block>, start: nat, pfn: nat, end: nat)
      reads this
    {
      Valid() && held == {} && start <= pfn <= end && Apart(before, start, end)
      && frames == before + RangeFrames(start, pfn) && blocks <= free
      && Partition(free - blocks, RangeFrames(start, pfn)) && Canonical(free - blocks)
      && forall f: nat | Within(start, end, f) :: f in pages
    }

    method AddBlock(ghost before: iset<nat>, ghost blocks: set<Block>, ghost start: nat, pfn: nat, order: nat,
                    ghost end: nat)
      requires Filling(before, blocks, start, pfn, end) && pfn + Pow2(order) <= end
      requires order <= MAX_ORDER && Aligned(Block(pfn, order))
      requires order < MAX_ORDER ==> BuddyOf(Block(pfn, order)) !in free - blocks
      modifies this
      ensures Filling(before, blocks, start, pfn + Pow2(order), end)
      ensures free - blocks == old(free) - blocks + {Block(pfn, order)}
      ensures pages.Keys == old(pages).Keys
    {
      NotManaged(before, blocks, start, pfn, order, end);
      EarlyFreePage(pfn, order);
      BlockAdded(old(free), blocks, before, start, pfn, order);
    }

    lemma NotManaged(before: iset<nat>, blocks: set<Block>, start: nat, pfn: nat, order: nat, end: nat)
      requires Filling(before, blocks, start, pfn, end) && pfn + Pow2(order) <= end
      ensures forall f: nat | Contains(Block(pfn, order), f) :: f !in frames && f in pages
    {
      assert forall f: nat | Contains(Block(pfn, order), f) :: Within(start, end, f) && !Within(start, pfn, f);
    }

    method Grow(ghost before: iset<nat>, ghost blocks: set<Block>, ghost start: nat, pfn: nat, ghost divide: nat,
                ghost end: nat, ghost log: nat, ghost last: Block)
      returns (next: nat, ghost grown: Block)
      requires Filling(before, blocks, start, pfn, end) && 0 < pfn < divide < end
      requires Climbing(free - blocks, start, pfn, last)
      requires Aligned(Block(divide, log)) && divide < start + Pow2(log)
      modifies this
      ensures pfn < next <= divide && Filling(before, blocks, start, next, end)
      ensures Climbing(free - blocks, start, next, grown) && pages.Keys == old(pages).Keys
    {
      var order := GrowingOrder(free - blocks, start, pfn, divide, log, last);
      AddBlock(before, blocks, start, pfn, order, end);
      next, grown := pfn + Pow2(order), Block(pfn, order);
      ClimbsOn(free - blocks, start, next, grown);
    }

    /** The blocks grow while they climb to the dividing frame. */
    method AddGrowing(ghost before: iset<nat>, ghost blocks: set<Block>, start: nat, divide: nat, ghost end: nat,
                      ghost log: nat)
      requires Filling(before, blocks, start, start, end) && start <= divide < end
      requires Aligned(Block(divide, log)) && divide < start + Pow2(log)
      modifies this
      ensures Filling(before, blocks, start, divide, end) && pages.Keys == old(pages).Keys
    {
      var pfn := start;
      ghost var last := Block(0, 0);
      assert start == 0 ==> divide == 0 by {
        if start == 0 { SameMultiple(0, divide, Pow2(log)); }
      }
      while pfn != divide
        invariant Filling(before, blocks, start, pfn, end) && Climbing(free - blocks, start, pfn, last)
        invariant start <= pfn <= divide && pages.Keys == old(pages).Keys
        decreases divide - pfn
      {
        pfn, last := Grow(before, blocks, start, pfn, divide, end, log, last);
      }
    }

    method Shrink(ghost before: iset<nat>, ghost blocks: set<Block>, ghost start: nat, ghost divide: nat, pfn: nat,
                  end: nat, ghost log: nat, ghost bound: nat)
      returns (next: nat, ghost shrunk: nat)
      requires Filling(before, blocks, start, pfn, end) && pfn < end
      requires Shrinking(start, divide, pfn, end, log, bound)
      modifies this
      ensures pfn < next <= end && Filling(before, blocks, start, next, end)
      ensures Shrinking(start, divide, next, end, log, shrunk)
      ensures pages.Keys == old(pages).Keys
    {
      var order := ShrinkingOrder(free - blocks, start, divide, pfn, end, log, bound);
      next, shrunk := pfn + Pow2(order), order;
      AddBlock(before, blocks, start, pfn, order, end);
    }

    /** The blocks shrink towards the end of the range. */
    method AddShrinking(ghost before: iset<nat>, ghost blocks: set<Block>, ghost start: nat, divide: nat, end: nat,
                        ghost log: nat, ghost bound: nat)
      requires Filling(before, blocks, start, divide, end) && Shrinking(start, divide, divide, end, log, bound)
      modifies this
      ensures Filling(before, blocks, start, end, end) && pages.Keys == old(pages).Keys
    {
      var pfn := divide;
      ghost var limit := bound;
      while pfn != end
        invariant Filling(before, blocks, start, pfn, end) && Shrinking(start, divide, pfn, end, log, limit)
        invariant pages.Keys == old(pages).Keys
        decreases end - pfn
      {
        pfn, limit := Shrink(before, blocks, start, divide, pfn, end, log, limit);
      }
    }

    /** What Init does with one range of the early allocator: the range is filled with
        its own canonical form, whatever is managed next to it. */
    method AddRange(start: nat, end: nat)
      requires Valid() && held == {} && start < end < FRAME_LIMIT && Apart(frames, start, end)
      requires forall f: nat | Within(start, end, f) :: f in pages
      modifies this
      ensures Valid() && held == {} && frames == old(frames) + RangeFrames(start, end)
      ensures old(free) <= free && Partition(free - old(free), RangeFrames(start, end)) && Canonical(free - old(free))
      ensures pages.Keys == old(pages).Keys
    {
      ghost var before, blocks, log := frames, free, HighestBit(end - start);
      var largestPow2 := Pow2(HighestBit(end - start));
      var divide := AlignUp(start, largestPow2);
      assert RangeFrames(start, start) == iset{} && free - blocks == {};
      AddGrowing(before, blocks, start, divide, end, log);
      ghost var bound := if log > MAX_ORDER then MAX_ORDER else log;
      AlignedDown(Block(divide, log), bound);
      AddShrinking(before, blocks, start, divide, end, log, bound);
    }

    /** From ranges in order, touching or not: the free blocks partition exactly their
        frames, every tag is right, and the blocks are in canonical form exactly when no
        two ranges that touch have buddies on both sides. */
    constructor (ranges: seq<Range>, tags: map<nat, Page>)
      requires Sorted(ranges)
      requires forall f | f in tags :: tags[f].usage != PageAllocator
      requires forall i, f: nat | 0 <= i < |ranges| && Within(ranges[i].start, ranges[i].end, f) :: f in tags
      ensures Valid() && held == {} && frames == AllFrames(ranges) && BuiltFrom(free, ranges)
      ensures Canonical(free) <==> !AnyUnjoined(ranges)
    {
      lists := seq(MAX_ORDER + 1, _ => []);
      pages, free, held, frames := tags, {}, {}, iset{};
      new;
      assert free + held + {} == {};
      for i := 0 to |ranges|
        invariant Valid() && held == {} && frames == AllFrames(ranges[..i]) && pages.Keys == tags.Keys
        invariant BuiltFrom(free, ranges[..i])
      {
        forall f: nat | f in frames
          ensures !Within(ranges[i].start, ranges[i].end, f)
        {
          AllFramesIn(ranges[..i], f);
        }
        ghost var was := free;
        assert free + held + {} == free;
        AddRange(ranges[i].start, ranges[i].end);
        assert ranges[..i + 1] == ranges[..i] + [ranges[i]];
        BuiltOn(was, free - was, ranges[..i], ranges[i]);
        assert was + (free - was) == free;
      }
      assert ranges[..|ranges|] == ranges && free + held + {} == free;
      CanonicalIff(free, ranges);
    }

    /** Alloc with the default address limit fails exactly when no free block is large
        enough, which in canonical form means that no aligned run of 2^order free frames
        exists. */
    method Alloc(order: nat) returns (r: Option<nat>)
      requires Valid() && order <= MAX_ORDER
      requires forall f: nat | f in frames :: f * PAGE_SIZE < UINT64_MAX
      modifies this
      ensures Valid() && frames == old(frames)
      ensures NoNewPair(old(free), free) && (old(Canonical(free)) ==> Canonical(free))
      ensures r.None? <==> forall b | b in old(free) :: b.order < order
      ensures old(Canonical(free)) ==> (r.None? <==> !exists pfn: nat :: FreeRun(old(free), Block(pfn, order)))
      ensures r.Some? ==> FreeRun(old(free), Block(r.value, order))
      ensures r.Some? ==> Block(r.value, order) !in old(held) && held == old(held) + {Block(r.value, order)}
      ensures r.None? ==> held == old(held) && free == old(free)
    {
      Reachable();
      FreeSeparate();
      if Canonical(free) {
        BlockIffRun(free, order);
      }
      r := AllocLocal(order, UINT64_MAX);
      if r.Some? {
        ghost var k :| BestFit(old(free), Block(r.value, k), order, UINT64_MAX);
        RunOf(old(free), Block(r.value, k), order);
      }
    }

    /** Every free block starts below the limit. */
    lemma Reachable()
      requires Valid() && forall f: nat | f in frames :: f * PAGE_SIZE < UINT64_MAX
      ensures forall b | b in free :: b.pfn * PAGE_SIZE < UINT64_MAX
    {
      forall b | b in free
        ensures b.pfn * PAGE_SIZE < UINT64_MAX
      {
        assert Contains(b, b.pfn) && b in free + held + {};
        assert Covered(free + held + {}, b.pfn);
      }
    }

    lemma FreeSeparate()
      requires Valid()
      ensures Separate(free)
    {
      forall a | a in free
        ensures Fits(a)
      {
        assert a in free + held + {};
      }
      forall a, b | a in free && b in free && a != b
        ensures Disjoint(a, b)
      {
        assert a in free + held + {} && b in free + held + {};
      }
    }
  }

  /** The front of a free block is a free run. */
  lemma RunOf(s: set<Block>, b: Block, order: nat)
    requires Separate(s) && b in s && order <= b.order
    ensures FreeRun(s, Block(b.pfn, order))
  {
    assert Fits(b);
    AlignedDown(b, order);
  }

  /** From canonical form on, which every operation keeps: when everything has been freed
      the free blocks are exactly those of any other canonical arrangement of the frames,
      such as Init's. */
  lemma FreeingAllRestores(a: PageAllocator, initial: set<Block>)
    requires a.Valid() && Canonical(a.free) && a.held == {}
    requires Partition(initial, a.frames) && Canonical(initial)
    ensures a.free == initial
  {
    assert a.free + a.held + {} == a.free;
    CanonicalUnique(a.free, initial, a.frames);
  }

  /** Validate of the page checker: each listed block is tagged with its order and
      overlaps no other listed block. */
  predicate Validates(lists: seq<seq<nat>>, pages: map<nat, Page>)
    requires |lists| == MAX_ORDER + 1
  {
    forall i, p | 0 <= i <= MAX_ORDER && p in lists[i] ::
      p in pages && pages[p] == Page(PageAllocator, i)
      && forall j, q | 0 <= j <= MAX_ORDER && q in lists[j] && !(p == q && i == j) ::
           !(p <= q < p + Pow2(i)) && !(q <= p < q + Pow2(j))
  }

  lemma ValidatesAlways(a: PageAllocator)
    requires a.Valid()
    ensures |a.lists| == MAX_ORDER + 1 && Validates(a.lists, a.pages)
  {
    forall i, p | 0 <= i <= MAX_ORDER && p in a.lists[i]
      ensures p in a.pages && a.pages[p] == Page(PageAllocator, i)
    {
      assert Block(p, i) in a.free;
    }
    forall i, p, j, q | 0 <= i <= MAX_ORDER && p in a.lists[i]
                        && 0 <= j <= MAX_ORDER && q in a.lists[j] && !(p == q && i == j)
      ensures !(p <= q < p + Pow2(i)) && !(q <= p < q + Pow2(j))
    {
      var b, c := Block(p, i), Block(q, j);
      assert b in a.free && c in a.free;
      assert b in a.free + a.held + {} && c in a.free + a.held + {};
      assert Disjoint(b, c) && Contains(b, p) && Contains(c, q);
      assert !Contains(b, q) && !Contains(c, p);
    }
  }
}
