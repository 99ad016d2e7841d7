/** Aligned power-of-two blocks of page frames, and the sets of them that the
    buddy system keeps. */
module Buddy {
  import opened Division

  const MAX_ORDER: nat := 11

  datatype Block = Block(pfn: nat, order: nat)

  function Pow2(n: nat): (r: nat)
    ensures r >= 1
  {
    if n == 0 then 1 else 2 * Pow2(n - 1)
  }

  function End(b: Block): nat {
    b.pfn + Pow2(b.order)
  }

  predicate Aligned(b: Block) {
    b.pfn % Pow2(b.order) == 0
  }

  predicate Contains(b: Block, frame: nat) {
    b.pfn <= frame < End(b)
  }

  /** pfn ^ (1 << order): the bit `order` of the frame number flipped. */
  function BuddyOf(b: Block): Block {
    if b.pfn / Pow2(b.order) % 2 == 0 then Block(b.pfn + Pow2(b.order), b.order)
    else Block(b.pfn - Pow2(b.order), b.order)
  }

  function Min(a: nat, b: nat): nat {
    if a <= b then a else b
  }

  /** The block that a block and its buddy make up together. */
  function Parent(b: Block): Block {
    Block(Min(b.pfn, BuddyOf(b).pfn), b.order + 1)
  }

  // -------------------------------------------------------------- arithmetic

  /** Multiples of n less than n apart are equal. */
  lemma SameMultiple(a: nat, b: nat, n: nat)
    requires n >= 1 && a % n == 0 && b % n == 0 && a <= b < a + n
    ensures a == b
  {
    assert a == a / n * n && b == b / n * n;
    assert (a / n + 1) * n == a / n * n + n;
    ScaleLess(b / n, a / n + 1, n);
    ScaleAtMost(b / n, a / n, n);
  }

  /** A multiple of 2n is an even multiple of n. */
  lemma EvenMultiple(a: nat, n: nat)
    requires n >= 1 && a % (2 * n) == 0
    ensures a % n == 0 && a / n % 2 == 0
  {
    var k := a / (2 * n);
    assert a == k * (2 * n) == (2 * k) * n;
    MultipleMod(2 * k, n);
  }

  /** An even multiple of n is a multiple of 2n, and the next multiple is odd. */
  lemma EvenThenOdd(a: nat, n: nat)
    requires n >= 1 && a % n == 0 && a / n % 2 == 0
    ensures a % (2 * n) == 0 && (a + n) % n == 0 && (a + n) / n % 2 == 1
  {
    var k := a / n;
    assert a == k * n && k == 2 * (k / 2);
    assert a == k / 2 * (2 * n);
    MultipleMod(k / 2, 2 * n);
    assert a + n == (k + 1) * n;
    MultipleMod(k + 1, n);
  }

  lemma OddThenEven(a: nat, n: nat)
    requires n >= 1 && a % n == 0 && a / n % 2 == 1
    ensures a >= n && (a - n) % n == 0 && (a - n) / n % 2 == 0
  {
    var k := a / n;
    assert a == k * n && k >= 1;
    assert a - n == (k - 1) * n;
    ScaleAtMost(1, k, n);
    MultipleMod(k - 1, n);
  }

  /** The buddy is aligned, its own buddy is the block, and the two halves are
      exactly the parent. */
  lemma BuddyFacts(b: Block)
    requires Aligned(b)
    ensures var c := BuddyOf(b);
            c.order == b.order && Aligned(c) && BuddyOf(c) == b && c != b
            && Aligned(Parent(b)) && Parent(c) == Parent(b)
            && (forall f :: Contains(Parent(b), f) <==> Contains(b, f) || Contains(c, f))
            && (forall f :: !(Contains(b, f) && Contains(c, f)))
  {
    var n := Pow2(b.order);
    if b.pfn / n % 2 == 0 {
      EvenThenOdd(b.pfn, n);
    } else {
      OddThenEven(b.pfn, n);
      EvenThenOdd(b.pfn - n, n);
    }
  }

  /** The lower half of a block; the upper half is its buddy. */
  function LowerHalf(b: Block): Block
    requires b.order > 0
  {
    Block(b.pfn, b.order - 1)
  }

  lemma Halves(b: Block)
    requires Aligned(b) && b.order > 0
    ensures var l := LowerHalf(b);
            Aligned(l) && BuddyOf(l) == Block(b.pfn + Pow2(b.order - 1), b.order - 1) && Parent(l) == b
  {
    EvenMultiple(b.pfn, Pow2(b.order - 1));
  }

  /** Two aligned blocks that share a frame are nested. */
  lemma {:induction false} Nested(a: Block, b: Block, frame: nat)
    requires Aligned(a) && Aligned(b) && a.order <= b.order
    requires Contains(a, frame) && Contains(b, frame)
    ensures b.pfn <= a.pfn && End(a) <= End(b)
    ensures a.order == b.order ==> a == b
    decreases b.order - a.order
  {
    if a.order == b.order {
      if a.pfn <= b.pfn {
        SameMultiple(a.pfn, b.pfn, Pow2(a.order));
      } else {
        SameMultiple(b.pfn, a.pfn, Pow2(a.order));
      }
    } else {
      Halves(b);
      var l := LowerHalf(b);
      BuddyFacts(l);
      if Contains(l, frame) {
        Nested(a, l, frame);
      } else {
        Nested(a, BuddyOf(l), frame);
      }
    }
  }

  lemma {:induction false} AlignedDown(b: Block, order: nat)
    requires Aligned(b) && order <= b.order
    ensures Aligned(Block(b.pfn, order)) && Pow2(order) <= Pow2(b.order)
    ensures order < b.order ==> b.pfn / Pow2(order) % 2 == 0
    decreases b.order
  {
    if order < b.order {
      Halves(b);
      if order + 1 == b.order {
        EvenMultiple(b.pfn, Pow2(order));
      } else {
        AlignedDown(LowerHalf(b), order);
      }
    }
  }

  lemma {:induction false} Pow2Monotone(a: nat, b: nat)
    requires a <= b
    ensures Pow2(a) <= Pow2(b)
    ensures a < b ==> 2 * Pow2(a) <= Pow2(b)
    decreases b
  {
    if a < b {
      Pow2Monotone(a, b - 1);
    }
  }

  lemma Pow2Less(a: nat, b: nat)
    requires Pow2(a) < Pow2(b)
    ensures a < b
  {
    if b <= a {
      Pow2Monotone(b, a);
    }
  }

  /** __builtin_ctz */
  function TrailingZeros(n: nat): nat
    requires n > 0
  {
    if n % 2 == 1 then 0 else 1 + TrailingZeros(n / 2)
  }

  lemma DivDiv(a: nat, n: nat)
    requires n >= 1
    ensures a / 2 / n == a / (2 * n)
    ensures a % 2 == 0 && a / 2 % n == 0 ==> a % (2 * n) == 0
  {
    var q, r := a / 2 / n, a / 2 % n;
    assert a / 2 == q * n + r;
    assert a == q * (2 * n) + (2 * r + a % 2) by {
      assert a == 2 * (a / 2) + a % 2;
      assert 2 * (q * n + r) == q * (2 * n) + 2 * r;
    }
    DivUnique(a, 2 * n, q, 2 * r + a % 2);
  }

  /** The largest aligned block that can start at a frame has that bit set. */
  lemma {:induction false} TrailingZerosOdd(n: nat)
    requires n > 0
    ensures Aligned(Block(n, TrailingZeros(n))) && n / Pow2(TrailingZeros(n)) % 2 == 1
    decreases n
  {
    if n % 2 == 0 {
      TrailingZerosOdd(n / 2);
      DivDiv(n, Pow2(TrailingZeros(n / 2)));
    }
  }

  /** Bits of n minus one: the position of the highest bit set, from __builtin_clz. */
  function HighestBit(n: nat): (k: nat)
    requires n > 0
    ensures Pow2(k) <= n < 2 * Pow2(k)
  {
    if n == 1 then 0 else 1 + HighestBit(n / 2)
  }

  lemma AlignedBits(n: nat, k: nat)
    requires n > 0 && Aligned(Block(n, k))
    ensures TrailingZeros(n) >= k
  {
    TrailingZerosOdd(n);
    if TrailingZeros(n) < k {
      AlignedDown(Block(n, k), TrailingZeros(n));
    }
  }

  /** Climbing to an aligned frame by the largest block at each step never
      oversteps it, and each step at least doubles the alignment. */
  lemma Climb(pfn: nat, divide: nat, log: nat)
    requires 0 < pfn < divide < pfn + Pow2(log) && Aligned(Block(divide, log))
    ensures pfn + Pow2(TrailingZeros(pfn)) <= divide
    ensures TrailingZeros(pfn + Pow2(TrailingZeros(pfn))) > TrailingZeros(pfn)
  {
    var k := TrailingZeros(pfn);
    TrailingZerosOdd(pfn);
    if k >= log {
      AlignedDown(Block(pfn, k), log);
      SameMultiple(pfn, divide, Pow2(log));
    }
    AlignedDown(Block(divide, log), k);
    if divide < pfn + Pow2(k) {
      SameMultiple(pfn, divide, Pow2(k));
    }
    OddThenEven(pfn, Pow2(k));
    BuddyFacts(Block(pfn, k));
    assert Parent(Block(pfn, k)) == Block(pfn - Pow2(k), k + 1);
    NextMultiple(pfn - Pow2(k), Pow2(k + 1));
    AlignedBits(pfn + Pow2(k), k + 1);
  }

  lemma NextMultiple(a: nat, n: nat)
    requires n >= 1 && a % n == 0
    ensures (a + n) % n == 0
  {
    assert a + n == (a / n + 1) * n;
    MultipleMod(a / n + 1, n);
  }

  // ------------------------------------------------------------ sets of blocks

  predicate Fits(b: Block) {
    b.order <= MAX_ORDER && Aligned(b)
  }

  ghost predicate Disjoint(a: Block, b: Block) {
    forall f :: !(Contains(a, f) && Contains(b, f))
  }

  ghost predicate Separate(s: set<Block>) {
    (forall b {:trigger Fits(b)} | b in s :: Fits(b))
    && forall a, b {:trigger Disjoint(a, b)} | a in s && b in s && a != b :: Disjoint(a, b)
  }

  ghost predicate Covered(s: set<Block>, frame: nat) {
    exists b :: b in s && Contains(b, frame)
  }

  /** The blocks of s are aligned, disjoint and make up exactly `frames`. */
  ghost predicate Partition(s: set<Block>, frames: iset<nat>) {
    Separate(s) && forall f: nat {:trigger Covered(s, f)} :: f in frames <==> Covered(s, f)
  }

  /** No two free blocks are buddies, except at the largest order. */
  ghost predicate Canonical(s: set<Block>) {
    forall b {:trigger BuddyOf(b)} | b in s && b.order < MAX_ORDER :: BuddyOf(b) !in s
  }

  /** Replacing a block by its two halves, or the halves by the block. */
  lemma SplitPartition(s: set<Block>, b: Block, frames: iset<nat>)
    requires b !in s && b.order > 0 && Partition(s + {b}, frames)
    ensures LowerHalf(b) !in s && BuddyOf(LowerHalf(b)) !in s
    ensures Partition(s + {LowerHalf(b)} + {BuddyOf(LowerHalf(b))}, frames)
  {
    var l := LowerHalf(b);
    var u := BuddyOf(l);
    var s' := s + {l} + {u};
    assert Fits(b);
    Halves(b);
    BuddyFacts(l);
    assert Contains(l, l.pfn) && Contains(u, u.pfn);
    assert Contains(b, l.pfn) && Contains(b, u.pfn);
    forall a | a in s
      ensures Disjoint(a, l) && Disjoint(a, u)
    {
      assert Disjoint(a, b);
    }
    forall f: nat
      ensures Covered(s', f) <==> Covered(s + {b}, f)
    {
      if Covered(s + {b}, f) {
        var x :| x in s + {b} && Contains(x, f);
        assert x in s' || Contains(l, f) || Contains(u, f);
      }
    }
  }

  lemma MergePartition(s: set<Block>, b: Block, frames: iset<nat>)
    requires b !in s && BuddyOf(b) in s && b.order < MAX_ORDER && Partition(s + {b}, frames)
    ensures Parent(b) !in s && Partition(s - {BuddyOf(b)} + {Parent(b)}, frames)
  {
    var c, p := BuddyOf(b), Parent(b);
    assert Fits(b);
    BuddyFacts(b);
    var r := s - {c};
    assert Contains(b, b.pfn) && Contains(p, b.pfn);
    assert p in s ==> Disjoint(p, b);
    forall a | a in r
      ensures Disjoint(a, p)
    {
      assert Disjoint(a, b) && Disjoint(a, c);
    }
    forall f: nat
      ensures Covered(r + {p}, f) <==> Covered(s + {b}, f)
    {
      if Covered(s + {b}, f) {
        var x :| x in s + {b} && Contains(x, f);
        assert x in r || Contains(p, f);
      }
    }
  }

  // ------------------------------------------------------- the canonical form

  /** If every frame of an aligned run is free, canonical form has a free block
      at least as large as the run that contains it. */
  lemma {:induction false} RunHasBlock(s: set<Block>, run: Block) returns (b: Block)
    requires Separate(s) && Canonical(s) && Fits(run)
    requires forall f: nat | Contains(run, f) :: Covered(s, f)
    ensures b in s && b.order >= run.order && Contains(b, run.pfn)
    decreases run.order
  {
    assert Contains(run, run.pfn) && Covered(s, run.pfn);
    if run.order == 0 {
      b :| b in s && Contains(b, run.pfn);
    } else {
      Halves(run);
      var l := LowerHalf(run);
      var u := BuddyOf(l);
      BuddyFacts(l);
      b := RunHasBlock(s, l);
      var c := RunHasBlock(s, u);
      assert Fits(b) && Fits(c);
      if b.order < run.order {
        Nested(l, b, l.pfn);
        assert b == l;
        Nested(u, c, u.pfn);
        assert c.order != u.order;
        assert Contains(run, u.pfn);
        Nested(run, c, u.pfn);
        b := c;
      }
    }
  }

  /** An aligned run of 2^order frames, all of them free. */
  ghost predicate FreeRun(s: set<Block>, run: Block) {
    Aligned(run) && forall f: nat | Contains(run, f) :: Covered(s, f)
  }

  /** In canonical form a free block of at least the wanted order exists exactly
      when some aligned run of that many free frames does. */
  lemma BlockIffRun(s: set<Block>, order: nat)
    requires Separate(s) && Canonical(s) && order <= MAX_ORDER
    ensures (exists b :: b in s && b.order >= order) <==> (exists pfn: nat :: FreeRun(s, Block(pfn, order)))
  {
    if b :| b in s && b.order >= order {
      assert Fits(b);
      AlignedDown(b, order);
      assert FreeRun(s, Block(b.pfn, order));
    }
    if pfn: nat :| FreeRun(s, Block(pfn, order)) {
      var b := RunHasBlock(s, Block(pfn, order));
    }
  }

  /** Two canonical sets of blocks over the same frames are equal. */
  lemma CanonicalUnique(s: set<Block>, t: set<Block>, frames: iset<nat>)
    requires Partition(s, frames) && Partition(t, frames) && Canonical(s) && Canonical(t)
    ensures s == t
  {
    forall b | b in s
      ensures b in t
    {
      CanonicalIncluded(s, t, frames, b);
    }
    forall b | b in t
      ensures b in s
    {
      CanonicalIncluded(t, s, frames, b);
    }
  }

  lemma CanonicalIncluded(s: set<Block>, t: set<Block>, frames: iset<nat>, b: Block)
    requires Partition(s, frames) && Partition(t, frames) && Canonical(s) && Canonical(t) && b in s
    ensures b in t
  {
    forall f: nat | Contains(b, f)
      ensures Covered(t, f)
    {
      assert Covered(s, f);
    }
    assert Fits(b);
    var c := RunHasBlock(t, b);
    assert Fits(c);
    forall f: nat | Contains(c, f)
      ensures Covered(s, f)
    {
      assert Covered(t, f);
    }
    var d := RunHasBlock(s, c);
    assert Fits(d);
    Nested(b, c, b.pfn);
    Nested(c, d, c.pfn);
    assert Contains(b, b.pfn) && Contains(d, b.pfn);
    assert d != b ==> Disjoint(d, b);
  }

  /** Every two buddies in t were there in s already. */
  ghost predicate NoNewPair(s: set<Block>, t: set<Block>) {
    forall b {:trigger BuddyOf(b)} | b in t && b.order < MAX_ORDER && BuddyOf(b) in t :: b in s && BuddyOf(b) in s
  }

  /** So canonical form is kept. */
  lemma PairsCanonical(s: set<Block>, t: set<Block>)
    requires NoNewPair(s, t)
    ensures Canonical(s) ==> Canonical(t)
  {
  }

  /** Adding a block whose buddy is not there. */
  lemma PairAdd(s: set<Block>, b: Block)
    requires (forall x | x in s :: Fits(x)) && Fits(b)
    requires b.order < MAX_ORDER ==> BuddyOf(b) !in s
    ensures NoNewPair(s, s + {b})
  {
    BuddyFacts(b);
    forall x | x in s + {b} && x.order < MAX_ORDER && BuddyOf(x) in s + {b}
      ensures x in s && BuddyOf(x) in s
    {
      BuddyFacts(x);
    }
  }

  // ---------------------------------------------------------------- page tags

  datatype Usage = Reserved | PageAllocator | SlabAllocator | InUse

  datatype Page = Page(usage: Usage, order: nat)

  /** Tags are right at the first frame of every block and, outside the managed
      frames, never claim to be the allocator's. Inside blocks they may be stale. */
  ghost predicate Tagged(free: set<Block>, held: set<Block>, frames: iset<nat>, pages: map<nat, Page>) {
    (forall f: nat | f in frames :: f in pages)
    && (forall b | b in free :: b.pfn in pages && pages[b.pfn] == Page(PageAllocator, b.order))
    && (forall b | b in held :: b.pfn in pages && pages[b.pfn].usage != PageAllocator)
    && (forall f | f in pages && f !in frames :: pages[f].usage != PageAllocator)
  }

  /** What Free asks of a buddy's page. */
  predicate LooksFree(pages: map<nat, Page>, b: Block) {
    b.pfn in pages && pages[b.pfn].usage == PageAllocator && pages[b.pfn].order == b.order
  }

  /** Whatever block covers the first frame of the buddy lies inside the buddy. */
  lemma CoveredByBuddy(all: set<Block>, b: Block, frames: iset<nat>, x: Block)
    requires Partition(all, frames) && b in all && x in all && Contains(x, BuddyOf(b).pfn)
    ensures x.order <= b.order && x.pfn == BuddyOf(b).pfn
  {
    var c := BuddyOf(b);
    assert Fits(b) && Fits(x);
    BuddyFacts(b);
    assert Contains(c, c.pfn) && Contains(b, b.pfn);
    assert x != b && Disjoint(x, b);
    if x.order > b.order {
      Nested(Parent(b), x, c.pfn);
      assert false;
    }
    Nested(x, c, c.pfn);
  }

  /** Tag soundness: although tags inside blocks go stale, the test on the buddy
      of a block in hand holds exactly when that very block is free. */
  lemma TagSound(free: set<Block>, held: set<Block>, b: Block, frames: iset<nat>, pages: map<nat, Page>)
    requires Partition(free + held + {b}, frames) && b !in free + held
    requires Tagged(free, held, frames, pages)
    ensures LooksFree(pages, BuddyOf(b)) <==> BuddyOf(b) in free
  {
    var c := BuddyOf(b);
    var all := free + held + {b};
    assert Fits(b);
    BuddyFacts(b);
    if LooksFree(pages, c) && c !in free {
      assert c.pfn in frames && Covered(all, c.pfn);
      var x :| x in all && Contains(x, c.pfn);
      CoveredByBuddy(all, b, frames, x);
      assert false;
    }
  }
}
