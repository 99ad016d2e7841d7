/** Chains of buffers: circular doubly linked rings of IOBufs, each a view of
    some bytes, and cursors over them. */
module IOBuf {
  import opened Sequences


  const SIZE_T: nat := 0x1_0000_0000_0000_0000

  class IOBuf {
    var next: IOBuf
    var prev: IOBuf
    const buffer: seq<nat>
    var start: nat
    var length: nat

    ghost predicate InBounds()
      reads this`start, this`length
    {
      start + length <= |buffer|
    }

    ghost function Data(): seq<nat>
      requires InBounds()
      reads this`start, this`length
    {
      buffer[start..start + length]
    }

    constructor (bytes: seq<nat>)
      ensures Ring([this]) && InBounds() && Data() == bytes && buffer == bytes
    {
      next, prev := this, this;
      buffer, start, length := bytes, 0, |bytes|;
    }

    method Advance(amount: nat)
      requires InBounds() && amount <= length
      modifies this`start, this`length
      ensures InBounds() && Data() == old(Data())[amount..]
      ensures start == old(start) + amount
    {
      start, length := start + amount, length - amount;
    }

    method Retreat(amount: nat)
      requires InBounds() && amount <= start
      modifies this`start, this`length
      ensures InBounds() && Data() == buffer[old(start) - amount..old(start)] + old(Data())
      ensures start == old(start) - amount
    {
      start, length := start - amount, length + amount;
    }

    /** The length is unsigned and not looked at: the view stays one exactly when there
        was as much to trim. */
    method TrimEnd(amount: nat)
      requires InBounds() && |buffer| < SIZE_T / 2 && amount < SIZE_T / 2
      modifies this`length
      ensures InBounds() <==> amount <= old(length)
      ensures amount <= old(length) ==> Data() == old(Data())[..old(length) - amount]
    {
      length := if amount <= length then length - amount else length - amount + SIZE_T;
    }

    // ------------------------------------------------------------ rewiring

    /** Puts the other chain before this one in the ring, that is, at the end of
        the chain this is the head of. */
    method PrependChain(other: IOBuf, ghost a: seq<IOBuf>, ghost b: seq<IOBuf>)
      requires Ring(a) && a[0] == this && Ring(b) && b[0] == other && Apart(a, b)
      modifies a`next, a`prev, b`next, b`prev
      ensures Ring(a + b)
    {
      var otherTail := other.prev;
      assert otherTail == b[|b| - 1] && prev == a[|a| - 1];
      prev.next := other;
      other.prev := prev;
      otherTail.next := this;
      prev := otherTail;
    }

    /** Inserts the other chain right after this buffer; `a` is the chain read from
        the buffer that follows, so that this is its last one. */
    method AppendChain(other: IOBuf, ghost a: seq<IOBuf>, ghost b: seq<IOBuf>)
      requires Ring(a) && a[|a| - 1] == this && Ring(b) && b[0] == other && Apart(a, b)
      modifies a`next, a`prev, b`next, b`prev
      ensures Ring(a + b)
    {
      next.PrependChain(other, a, b);
    }

    /** Takes this buffer out of the ring; it must not be the owned head. */
    method Unlink(ghost a: seq<IOBuf>, ghost i: nat)
      requires Ring(a) && 0 < i < |a| && a[i] == this
      modifies a`next, a`prev
      ensures Ring(a[..i] + a[i + 1..]) && Ring([this])
    {
      next.prev := prev;
      prev.next := next;
      prev := this;
      next := this;
    }

    /** The destructor: unlinks the next buffer as long as there is one. It ends, and this
        buffer and every other one of the chain is then a ring by itself. */
    method UnlinkAll(ghost a: seq<IOBuf>)
      requires Ring(a) && a[0] == this
      modifies a`next, a`prev
      ensures forall i | 0 <= i < |a| :: Ring([a[i]])
    {
      ghost var n: nat := 0;
      assert a == [a[0]] + a[0 + 1..];
      while next != this
        invariant n < |a| && Ring([a[0]] + a[n + 1..])
        invariant forall i | 0 < i <= n :: Alone(a[i])
        decreases |a| - n
      {
        UnlinkNext(a, n);
        n := n + 1;
      }
      AllAlone(a, n);
    }

    method UnlinkNext(ghost a: seq<IOBuf>, ghost n: nat)
      requires Distinct(a) && n < |a| && a[0] == this && Ring([a[0]] + a[n + 1..]) && next != this
      modifies this`next, this`prev, a[n + 1..]`next, a[n + 1..]`prev
      ensures n + 1 < |a| && Ring([a[0]] + a[n + 2..]) && Alone(a[n + 1])
      ensures forall i | 0 < i <= n :: a[i].next == old(a[i].next) && a[i].prev == old(a[i].prev)
    {
      ghost var rest := [a[0]] + a[n + 1..];
      NextInRing(rest, 0);
      assert rest[1] == a[n + 1] && rest[..1] + rest[2..] == [a[0]] + a[n + 2..];
      next.Unlink(rest, 1);
      AloneIff(a[n + 1]);
    }

    /** Splits the chain this is the head of before `end`. */
    method UnlinkEnd(end: IOBuf, ghost a: seq<IOBuf>, ghost k: nat)
      requires Ring(a) && a[0] == this && 0 < k < |a| && a[k] == end
      modifies a`next, a`prev
      ensures Ring(a[..k]) && Ring(a[k..])
    {
      var newEnd := end.prev;
      end.prev := prev;
      if end.next == this {
        end.next := end;
      }
      prev.next := end;
      prev := newEnd;
      newEnd.next := this;
      SplitIsRing(a, k);
    }

    /** Takes the head off; the result heads the rest, if there is one. */
    method Pop(ghost a: seq<IOBuf>) returns (rest: IOBuf?)
      requires Ring(a) && a[0] == this
      modifies a`next, a`prev
      ensures Ring([this])
      ensures rest == null <==> |a| == 1
      ensures |a| > 1 ==> rest == a[1] && Ring(a[1..])
    {
      var n := next;
      next.prev := prev;
      prev.next := next;
      prev := this;
      next := this;
      rest := if n == this then null else n;
    }

    method CountChainElements(ghost a: seq<IOBuf>) returns (elements: nat)
      requires Ring(a) && a[0] == this
      ensures elements == |a|
    {
      elements := 1;
      var current := next;
      while current != this
        invariant 0 < elements <= |a| && current == (if elements < |a| then a[elements] else this)
        decreases |a| - elements
      {
        current := current.next;
        elements := elements + 1;
      }
    }

    method ComputeChainDataLength(ghost a: seq<IOBuf>) returns (len: nat)
      requires Chain(a) && a[0] == this
      ensures len == |Flat(a)|
    {
      len := length;
      var current := next;
      ghost var i, v := 1, Views(a);
      JoinOne(v, 0);
      while current != this
        invariant 0 < i <= |a| && current == (if i < |a| then a[i] else this)
        invariant len == |Join(v[..i])|
        decreases |a| - i
      {
        JoinOne(v, i);
        len := len + current.length;
        current := current.next;
        i := i + 1;
      }
      assert v[..i] == v;
    }

    /** Advance on the i-th buffer of a chain with these views. */
    method AdvanceAt(amount: nat, ghost a: seq<IOBuf>, ghost i: nat, ghost v: seq<seq<nat>>)
      requires Chain(a) && i < |a| && a[i] == this && amount <= length && Views(a) == v
      modifies this`start, this`length
      ensures Chain(a) && Views(a) == v[i := v[i][amount..]]
    {
      Advance(amount);
      assert forall k | 0 <= k < |a| && k != i :: a[k] != this;
      assert forall k | 0 <= k < |a| :: a[k].InBounds();
      assert forall k | 0 <= k < |a| && k != i :: a[k].Data() == v[k];
    }

    /** The loop body of AdvanceChain, at the i-th buffer: v are the views before the
        whole operation. */
    method AdvanceTurn(left: nat, ghost a: seq<IOBuf>, ghost i: nat, ghost v: seq<seq<nat>>, ghost amount: nat)
      returns (rest: nat)
      requires Chain(a) && i < |a| == |v| && a[i] == this && left == LeftAt(v, amount, i)
      requires Views(a) == Spliced(v, amount, i)
      modifies this`start, this`length
      ensures Chain(a) && Views(a) == Spliced(v, amount, i + 1)
      ensures rest == LeftAt(v, amount, i + 1)
    {
      assert Views(a)[i] == v[i];
      var n := if length < left then length else left;
      AdvanceAt(n, a, i, Spliced(v, amount, i));
      rest := left - n;
    }

    /** Drops bytes from the front of the chain; the buffers stay in the ring. */
    method AdvanceChain(amount: nat, ghost a: seq<IOBuf>)
      requires Chain(a) && a[0] == this && amount <= |Flat(a)|
      modifies a`start, a`length
      ensures Chain(a) && Views(a) == DropFront(old(Views(a)), amount)
      ensures Flat(a) == old(Flat(a))[amount..]
    {
      ghost var v := Views(a);
      AdvanceBuffers(amount, a, v);
      JoinDropFront(v, amount);
    }

    /** Buffer after buffer, until nothing is left to drop or the ring closes. */
    method AdvanceBuffers(amount: nat, ghost a: seq<IOBuf>, ghost v: seq<seq<nat>>)
      requires Chain(a) && a[0] == this && v == Views(a)
      modifies a`start, a`length
      ensures Chain(a) && Views(a) == DropFront(v, amount)
    {
      var buf, left := this, amount;
      ghost var i := 0;
      NothingSpliced(v, amount);
      while true
        invariant 0 <= i < |a| == |v| && buf == a[i] && left == LeftAt(v, amount, i)
        invariant Chain(a) && Views(a) == Spliced(v, amount, i)
        decreases |a| - i
      {
        left := buf.AdvanceTurn(left, a, i, v, amount);
        if left == 0 {
          break;
        }
        NextInRing(a, i);
        if buf.next == this {
          break;
        }
        buf, i := buf.next, i + 1;
      }
      AllDropped(v, amount, i + 1);
    }
  }

  ghost function After(a: seq<IOBuf>, i: nat): IOBuf
    requires i < |a|
  {
    if i + 1 < |a| then a[i + 1] else a[0]
  }

  ghost function Before(a: seq<IOBuf>, i: nat): IOBuf
    requires i < |a|
  {
    if i > 0 then a[i - 1] else a[|a| - 1]
  }

  /** The buffers of a, in order, form one ring. */
  ghost predicate Ring(a: seq<IOBuf>)
    reads a`next, a`prev
  {
    |a| > 0 && Distinct(a)
    && (forall i {:trigger a[i].next} {:trigger After(a, i)} | 0 <= i < |a| :: a[i].next == After(a, i))
    && (forall i {:trigger a[i].prev} {:trigger Before(a, i)} | 0 <= i < |a| :: a[i].prev == Before(a, i))
  }

  ghost predicate Alone(x: IOBuf)
    reads x`next, x`prev
  {
    x.next == x && x.prev == x
  }

  lemma AloneIff(x: IOBuf)
    ensures Alone(x) <==> Ring([x])
  {
    assert After([x], 0) == x && Before([x], 0) == x;
  }

  lemma AllAlone(a: seq<IOBuf>, n: nat)
    requires n < |a| && Ring([a[0]] + a[n + 1..]) && a[0].next == a[0] && forall i | 0 < i <= n :: Alone(a[i])
    ensures forall i | 0 <= i < |a| :: Ring([a[i]])
  {
    NextInRing([a[0]] + a[n + 1..], 0);
    assert n + 1 == |a| && [a[0]] + a[n + 1..] == [a[0]];
    forall i | 0 <= i < |a| ensures Ring([a[i]]) { AloneIff(a[i]); }
  }

  /** Following next comes back to the first buffer after the last, and not before. */
  lemma NextInRing(a: seq<IOBuf>, i: nat)
    requires Ring(a) && i < |a|
    ensures a[i].next == (if i + 1 < |a| then a[i + 1] else a[0]) && (a[i].next == a[0] <==> i + 1 == |a|)
  {
    assert a[i].next == After(a, i);
  }

  ghost predicate Apart(a: seq<IOBuf>, b: seq<IOBuf>) {
    forall i, j | 0 <= i < |a| && 0 <= j < |b| :: a[i] != b[j]
  }

  /** All links inside a are as in a ring, except across the cut and the ends. */
  ghost predicate Cut(a: seq<IOBuf>, k: nat)
    reads a`next, a`prev
  {
    0 < k < |a| && Distinct(a)
    && (forall i {:trigger a[i].next} {:trigger After(a, i)} | 0 <= i < |a| && i != k - 1 && i != |a| - 1 ::
          a[i].next == After(a, i))
    && (forall i {:trigger a[i].prev} {:trigger Before(a, i)} | 0 < i < |a| && i != k :: a[i].prev == Before(a, i))
  }

  /** Once the four pointers at a cut agree, both sides are rings. */
  lemma SplitIsRing(a: seq<IOBuf>, k: nat)
    requires Cut(a, k)
    requires a[k - 1].next == a[0] && a[0].prev == a[k - 1]
    requires a[|a| - 1].next == a[k] && a[k].prev == a[|a| - 1]
    ensures Ring(a[..k]) && Ring(a[k..])
  {
    var l, r := a[..k], a[k..];
    forall i | 0 <= i < |l|
      ensures l[i].next == After(l, i) && l[i].prev == Before(l, i)
    {
      assert l[i] == a[i] && l[0] == a[0] && l[|l| - 1] == a[k - 1];
      if i + 1 < |l| { assert After(a, i) == l[i + 1]; }
      if i > 0 { assert Before(a, i) == l[i - 1]; }
    }
    forall i | 0 <= i < |r|
      ensures r[i].next == After(r, i) && r[i].prev == Before(r, i)
    {
      assert r[i] == a[k + i] && r[0] == a[k] && r[|r| - 1] == a[|a| - 1];
      if i + 1 < |r| { assert After(a, k + i) == r[i + 1]; }
      if i > 0 { assert Before(a, k + i) == r[i - 1]; }
    }
  }

  // ------------------------------------------------------------- flat bytes

  ghost predicate AllInBounds(a: seq<IOBuf>)
    reads a`start, a`length
  {
    forall i | 0 <= i < |a| :: a[i].InBounds()
  }

  /** A ring whose buffers are all proper views. */
  ghost predicate Chain(a: seq<IOBuf>)
    reads a
  {
    Ring(a) && AllInBounds(a)
  }

  ghost function Views(a: seq<IOBuf>): seq<seq<nat>>
    requires AllInBounds(a)
    reads a
  {
    seq(|a|, i requires 0 <= i < |a| && AllInBounds(a) reads a => a[i].Data())
  }

  function Join(v: seq<seq<nat>>): seq<nat> {
    if v == [] then [] else v[0] + Join(v[1..])
  }

  /** The bytes of the whole chain. */
  ghost function Flat(a: seq<IOBuf>): seq<nat>
    requires AllInBounds(a)
    reads a
  {
    Join(Views(a))
  }

  lemma {:induction false} JoinConcat(u: seq<seq<nat>>, v: seq<seq<nat>>)
    ensures Join(u + v) == Join(u) + Join(v)
  {
    if u == [] {
      assert u + v == v;
    } else {
      assert (u + v)[1..] == u[1..] + v;
      JoinConcat(u[1..], v);
    }
  }

  lemma JoinOne(v: seq<seq<nat>>, i: nat)
    requires i < |v|
    ensures Join(v[..i + 1]) == Join(v[..i]) + v[i]
  {
    assert v[..i + 1] == v[..i] + [v[i]];
    JoinConcat(v[..i], [v[i]]);
    assert Join([v[i]]) == v[i] + Join([v[i]][1..]);
  }

  /** How many bytes are still to be dropped on arriving at the k-th buffer. */
  function LeftAt(v: seq<seq<nat>>, amount: nat, k: nat): nat
    requires k <= |v|
  {
    if k == 0 then amount
    else var l := LeftAt(v, amount, k - 1); if |v[k - 1]| < l then l - |v[k - 1]| else 0
  }

  function DropAt(v: seq<seq<nat>>, amount: nat, k: nat): seq<nat>
    requires k < |v|
  {
    var l := LeftAt(v, amount, k);
    if |v[k]| < l then [] else v[k][l..]
  }

  /** The views when the first i buffers have been dealt with. */
  function Spliced(v: seq<seq<nat>>, amount: nat, i: nat): seq<seq<nat>>
    requires i <= |v|
  {
    seq(|v|, k requires 0 <= k < |v| => if k < i then DropAt(v, amount, k) else v[k])
  }

  /** What AdvanceChain leaves in each buffer. */
  lemma {:induction false} NothingSpliced(v: seq<seq<nat>>, amount: nat)
    ensures Spliced(v, amount, 0) == v && LeftAt(v, amount, 0) == amount
  {
  }

  function DropFront(v: seq<seq<nat>>, amount: nat): seq<seq<nat>> {
    Spliced(v, amount, |v|)
  }

  lemma {:induction false} NothingLeft(v: seq<seq<nat>>, amount: nat, i: nat, k: nat)
    requires i <= k <= |v| && LeftAt(v, amount, i) == 0
    ensures LeftAt(v, amount, k) == 0
  {
    if i < k {
      NothingLeft(v, amount, i, k - 1);
    }
  }

  /** Once nothing is left to drop the rest of the chain stays as it is. */
  lemma {:induction false} AllDropped(v: seq<seq<nat>>, amount: nat, i: nat)
    requires i <= |v| && (i < |v| ==> LeftAt(v, amount, i) == 0)
    ensures Spliced(v, amount, i) == DropFront(v, amount)
  {
    forall k | i <= k < |v|
      ensures DropAt(v, amount, k) == v[k]
    {
      NothingLeft(v, amount, i, k);
    }
  }

  lemma {:induction false} LeftShift(v: seq<seq<nat>>, amount: nat, k: nat)
    requires k < |v|
    ensures LeftAt(v, amount, k + 1) == LeftAt(v[1..], LeftAt(v, amount, 1), k)
  {
    if k > 0 {
      LeftShift(v, amount, k - 1);
      assert v[1..][k - 1] == v[k];
    }
  }

  lemma DropShift(v: seq<seq<nat>>, amount: nat)
    requires v != []
    ensures DropFront(v, amount) == [DropAt(v, amount, 0)] + DropFront(v[1..], LeftAt(v, amount, 1))
  {
    forall k | 0 <= k < |v| - 1
      ensures DropAt(v, amount, k + 1) == DropAt(v[1..], LeftAt(v, amount, 1), k)
    {
      LeftShift(v, amount, k);
      assert v[1..][k] == v[k + 1];
    }
  }

  lemma DropConcat(x: seq<nat>, y: seq<nat>, n: nat)
    requires n <= |x| + |y|
    ensures (x + y)[n..] == if |x| < n then y[n - |x|..] else x[n..] + y
  {
  }

  lemma {:induction false} JoinDropFront(v: seq<seq<nat>>, amount: nat)
    requires amount <= |Join(v)|
    ensures Join(DropFront(v, amount)) == Join(v)[amount..]
  {
    if v != [] {
      var l := LeftAt(v, amount, 1);
      assert LeftAt(v, amount, 0) == amount;
      assert l == if |v[0]| < amount then amount - |v[0]| else 0;
      DropShift(v, amount);
      JoinDropFront(v[1..], l);
      var d := DropFront(v, amount);
      assert d[1..] == DropFront(v[1..], l);
      DropConcat(v[0], Join(v[1..]), amount);
    }
  }

  // ---------------------------------------------------------------- cursors

  /** The bytes from offset `at` of the k-th buffer to the end of the chain. */
  function From(v: seq<seq<nat>>, k: nat, at: nat): seq<nat>
    requires k < |v| && at <= |v[k]|
    decreases |v| - k
  {
    v[k][at..] + Behind(v, k)
  }

  function Behind(v: seq<seq<nat>>, k: nat): seq<nat>
    requires k < |v|
    decreases |v| - k, 0
  {
    if k + 1 < |v| then From(v, k + 1, 0) else []
  }

  /** The buffer after the k-th; after the last one it is the first. */
  function Next(v: seq<seq<nat>>, k: nat): (n: nat)
    requires k < |v|
    ensures n < |v|
  {
    if k + 1 < |v| then k + 1 else 0
  }

  lemma {:induction false} FromIsJoin(v: seq<seq<nat>>, k: nat)
    requires k < |v|
    ensures From(v, k, 0) == Join(v[k..])
    decreases |v| - k
  {
    assert v[k..][1..] == v[k + 1..];
    assert v[k][0..] == v[k];
    if k + 1 < |v| {
      FromIsJoin(v, k + 1);
    }
  }

  lemma FromStart(v: seq<seq<nat>>)
    requires |v| > 0
    ensures From(v, 0, 0) == Join(v)
  {
    FromIsJoin(v, 0);
    assert v[0..] == v;
  }

  /** The next n bytes when `rest` is what this lap has left and every lap after it
      is `flat`. */
  function Take(rest: seq<nat>, flat: seq<nat>, n: nat): (r: seq<nat>)
    requires flat != []
    ensures |r| == n
    decreases n, if rest == [] then 1 else 0
  {
    if n <= |rest| then rest[..n] else rest + Take(flat, flat, n - |rest|)
  }

  /** What is left of the lap after n bytes; never nothing. */
  function Skip(rest: seq<nat>, flat: seq<nat>, n: nat): (r: seq<nat>)
    requires flat != []
    ensures r != []
    decreases n, if rest == [] then 1 else 0
  {
    if n < |rest| then rest[n..] else Skip(flat, flat, n - |rest|)
  }

  lemma TakePart(x: seq<nat>, y: seq<nat>, flat: seq<nat>, n: nat)
    requires flat != [] && |x| <= n
    ensures Take(x + y, flat, n) == x + Take(y, flat, n - |x|)
    ensures Skip(x + y, flat, n) == Skip(y, flat, n - |x|)
  {
    if n <= |x + y| {
      assert (x + y)[..n] == x + y[..n - |x|];
    } else {
      assert n - |x + y| == n - |x| - |y|;
      assert (x + y) + Take(flat, flat, n - |x + y|) == x + (y + Take(flat, flat, n - |x + y|));
    }
    if n < |x + y| {
      assert (x + y)[n..] == y[n - |x|..];
    }
  }

  lemma SkipCases(rest: seq<nat>, flat: seq<nat>, n: nat)
    requires flat != []
    ensures Skip(rest, flat, 0) == if rest == [] then flat else rest
    ensures n < |rest| ==> Skip(rest, flat, n) == rest[n..]
    ensures n == |rest| ==> Skip(rest, flat, n) == flat
  {
    assert flat[0..] == flat && rest[0..] == rest;
  }

  /** Buffers to the next byte at most. */
  function Distance(v: seq<seq<nat>>, k: nat, at: nat): nat
    requires k < |v| && at <= |v[k]|
  {
    if From(v, k, at) != [] then |v| - k else 2 * |v| - k
  }

  /** The cursor moves on from the k-th buffer with all or part of its bytes used. */
  lemma Turn(v: seq<seq<nat>>, flat: seq<nat>, k: nat, at: nat, n: nat)
    requires k < |v| && at <= |v[k]| && flat == Join(v) != []
    ensures var x, here, there := v[k][at..], From(v, k, at), From(v, Next(v, k), 0);
      && (n < |x| ==> Take(here, flat, n) == x[..n] && Skip(here, flat, n) == From(v, k, at + n))
      && (n >= |x| ==> Take(here, flat, n) == x + Take(there, flat, n - |x|))
      && (n >= |x| ==> Skip(here, flat, n) == Skip(there, flat, n - |x|))
      && (x == [] ==> Distance(v, Next(v, k), 0) < Distance(v, k, at))
  {
    var x, y := v[k][at..], Behind(v, k);
    FromStart(v);
    if n >= |x| {
      TakePart(x, y, flat, n);
    } else {
      assert (x + y)[..n] == x[..n];
      assert (x + y)[n..] == v[k][at + n..] + y;
    }
  }

  lemma StopTurn(v: seq<seq<nat>>, flat: seq<nat>, k: nat, at: nat, n: nat)
    requires k < |v| && at + n < |v[k]| && flat == Join(v) != []
    ensures Skip(From(v, k, at + n), flat, 0) == Skip(From(v, k, at), flat, n)
  {
    Turn(v, flat, k, at, n);
    SkipCases(From(v, k, at + n), flat, 0);
  }

  /** One turn of the copying loop. */
  lemma CopyTurn(v: seq<seq<nat>>, flat: seq<nat>, k: nat, at: nat, n: nat, m: nat)
    requires k < |v| && at <= |v[k]| && m == (if |v[k]| - at < n then |v[k]| - at else n) && flat == Join(v) != []
    ensures Take(From(v, k, at), flat, n) == v[k][at..][..m] + Take(From(v, Next(v, k), 0), flat, n - m)
    ensures m == 0 < n ==> Distance(v, Next(v, k), 0) < Distance(v, k, at)
  {
    Turn(v, flat, k, at, n);
    if m == |v[k]| - at {
      assert v[k][at..][..m] == v[k][at..];
    } else {
      assert Take(From(v, Next(v, k), 0), flat, 0) == [];
    }
  }

  lemma SliceOfSlice(b: seq<nat>, start: nat, length: nat, at: nat, n: nat)
    requires start + length <= |b| && at + n <= length
    ensures b[start..start + length][at..][..n] == b[start + at..start + at + n]
  {
  }

  /** A cursor over a chain. The ring has no end of its own: when the last byte has
      been passed the cursor stands at the first byte again. */
  class DataPointer {
    var p: IOBuf
    var offset: nat
    ghost const a: seq<IOBuf>
    ghost const views: seq<seq<nat>>
    ghost const flat: seq<nat>
    ghost var k: nat

    /** The chain is as it was when the cursor was made. */
    ghost predicate Steady()
      reads a
    {
      Chain(a) && Views(a) == views && flat == Join(views) != []
    }

    ghost predicate At()
      reads this
    {
      k < |a| == |views| && p == a[k] && offset <= |views[k]|
    }

    ghost predicate Valid()
      reads this, a
    {
      Steady() && At() && offset < |views[k]|
    }

    /** What is still to come before the cursor is at the front again. */
    ghost function Rest(): seq<nat>
      requires At()
      reads this
    {
      From(views, k, offset)
    }

    constructor (head: IOBuf, ghost chain: seq<IOBuf>)
      requires Chain(chain) && chain[0] == head && Flat(chain) != []
      ensures Valid() && a == chain && Rest() == flat == Flat(chain)
    {
      p, offset, a, views, flat, k := head, 0, chain, Views(chain), Flat(chain), 0;
      new;
      FromStart(views);
      SkipCases(Rest(), flat, 0);
      SkipEmpty();
    }

    /** On to the buffer that holds the next byte, which after the last byte of the
        chain is the first one again. */
    method SkipEmpty()
      requires Steady() && At() && (offset == 0 || offset < |views[k]|)
      modifies this`p, this`k
      ensures Valid() && Rest() == Skip(old(Rest()), flat, 0)
    {
      while p.length == 0
        invariant At() && (offset == 0 || offset < |views[k]|)
        invariant Skip(Rest(), flat, 0) == Skip(old(Rest()), flat, 0)
        decreases Distance(views, k, offset)
      {
        assert |views[k]| == p.length;
        Turn(views, flat, k, offset, 0);
        p, k := p.next, Next(views, k);
      }
      assert |views[k]| == p.length;
      SkipCases(Rest(), flat, 0);
    }

    /** Copies without moving: the next `size` bytes, going round the ring as often as
        it takes. */
    method GetNoAdvance(size: nat) returns (bytes: seq<nat>)
      requires Valid()
      ensures bytes == Take(Rest(), flat, size)
      ensures size <= |Rest()| ==> bytes == Rest()[..size]
    {
      assert views[k] == p.Data();
      Turn(views, flat, k, offset, size);
      if p.length - offset < size {
        bytes := Copy(size);
      } else {
        bytes := p.buffer[p.start + offset..p.start + offset + size];
        SliceOfSlice(p.buffer, p.start, p.length, offset, size);
      }
    }

    /** At most len bytes from offset `at` of one buffer, the i-th, and the buffer
        after it. */
    method Piece(q: IOBuf, at: nat, len: nat, ghost i: nat)
      returns (piece: seq<nat>, next: IOBuf)
      requires Steady() && i < |a| && q == a[i] && at <= |views[i]|
      ensures next == a[Next(views, i)]
      ensures |piece| == if |views[i]| - at < len then |views[i]| - at else len
      ensures Take(From(views, i, at), flat, len) == piece + Take(From(views, Next(views, i), 0), flat, len - |piece|)
      ensures |piece| == 0 < len ==> Distance(views, Next(views, i), 0) < Distance(views, i, at)
    {
      assert views[i] == q.Data();
      var remainder := if q.length - at < len then q.length - at else len;
      piece := q.buffer[q.start + at..q.start + at + remainder];
      next := q.next;
      SliceOfSlice(q.buffer, q.start, q.length, at, remainder);
      CopyTurn(views, flat, i, at, len, remainder);
    }

    method Copy(size: nat) returns (chunk: seq<nat>)
      requires Valid()
      ensures chunk == Take(Rest(), flat, size)
    {
      chunk := [];
      var q, len, at := p, size, offset;
      ghost var i: nat, all := k, Take(Rest(), flat, size);
      ghost var more := all;
      while len > 0
        invariant 0 <= i < |a| && q == a[i] && 0 <= at <= |views[i]| && len >= 0
        invariant more == Take(From(views, i, at), flat, len) && chunk + more == all
        decreases len, Distance(views, i, at)
      {
        var piece, next := Piece(q, at, len, i);
        chunk, more := chunk + piece, more[|piece|..];
        q, i := next, Next(views, i);
        at, len := 0, len - |piece|;
      }
    }

    /** Moves on by `size` bytes, round the ring as often as it takes. */
    method Advance(size: nat)
      requires Valid()
      modifies this`p, this`k, this`offset
      ensures Valid() && Rest() == Skip(old(Rest()), flat, size)
      ensures size < |old(Rest())| ==> Rest() == old(Rest())[size..]
      ensures size == |old(Rest())| ==> Rest() == flat
    {
      SkipCases(Rest(), flat, size);
      var settled := Move(size);
      if !settled {
        SkipEmpty();
      } else {
        SkipCases(Rest(), flat, 0);
      }
    }

    /** The loop of Advance; settled when it stops inside a buffer. */
    method Move(size: nat) returns (settled: bool)
      requires Valid()
      modifies this`p, this`k, this`offset
      ensures At() && (offset < |views[k]| || (offset == 0 && !settled))
      ensures Skip(Rest(), flat, 0) == Skip(old(Rest()), flat, size)
    {
      var left := size;
      while left > 0
        invariant At() && (offset == 0 || offset < |views[k]|) && left >= 0
        invariant Skip(Rest(), flat, left) == Skip(old(Rest()), flat, size)
        decreases left, Distance(views, k, offset)
      {
        assert |views[k]| == p.length;
        var remainder := p.length - offset;
        if remainder > left {
          Stop(left);
          return true;
        }
        Cross(left);
        left := left - remainder;
      }
      return false;
    }

    /** Inside the buffer. */
    method Stop(left: nat)
      requires Steady() && At() && left < |views[k]| - offset
      modifies this`offset
      ensures At() && offset == old(offset) + left < |views[k]|
      ensures Skip(Rest(), flat, 0) == Skip(old(Rest()), flat, left)
    {
      StopTurn(views, flat, k, offset, left);
      offset := offset + left;
    }

    /** On to the next buffer, with what this one still had used up. */
    method Cross(ghost left: nat)
      requires Steady() && At() && |views[k]| - offset <= left
      modifies this`p, this`k, this`offset
      ensures At() && offset == 0
      ensures Skip(Rest(), flat, left - old(|views[k]| - offset)) == Skip(old(Rest()), flat, left)
      ensures old(|views[k]| - offset) == 0 ==> Distance(views, k, offset) < old(Distance(views, k, offset))
    {
      Turn(views, flat, k, offset, left);
      p, k, offset := p.next, Next(views, k), 0;
    }

    /** Reads and moves on. */
    method Get(size: nat) returns (bytes: seq<nat>)
      requires Valid()
      modifies this`p, this`k, this`offset
      ensures Valid() && bytes == Take(old(Rest()), flat, size)
      ensures Rest() == Skip(old(Rest()), flat, size)
      ensures size < |old(Rest())| ==> old(Rest()) == bytes + Rest()
      ensures size == |old(Rest())| ==> bytes == old(Rest()) && Rest() == flat
    {
      bytes := GetNoAdvance(size);
      Advance(size);
    }
  }
}
