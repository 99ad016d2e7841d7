/** Comparisons of 32-bit sequence numbers, and what they mean for the unbounded
    positions the numbers stand for. */
module TcpSeq {

  const M := 0x1_0000_0000
  const H := 0x8000_0000

  function Wrap(x: int): (r: nat)
    ensures r < M
  {
    x % M
  }

  /** uint32_t subtraction. */
  function Sub(a: nat, b: nat): (r: nat)
    ensures r < M
  {
    Wrap(a - b)
  }

  predicate Between(x: nat, left: nat, right: nat) {
    Sub(right, left) >= Sub(x, left)
  }

  // A difference is negative as an int32_t when it is at least H.

  predicate LT(first: nat, second: nat) {
    Sub(first, second) >= H
  }

  predicate GT(first: nat, second: nat) {
    0 < Sub(first, second) < H
  }

  predicate LEQ(first: nat, second: nat) {
    Sub(first, second) == 0 || Sub(first, second) >= H
  }

  predicate GEQ(first: nat, second: nat) {
    Sub(first, second) < H
  }

  lemma WrapCase(x: int, q: int)
    requires q * M <= x < (q + 1) * M
    ensures Wrap(x) == x - q * M
  {
  }

  lemma SubWrap(x: int, y: int)
    ensures Sub(Wrap(x), Wrap(y)) == Wrap(x - y)
    ensures Wrap(Wrap(x) + y) == Wrap(x + y)
  {
    var p, q := x / M, y / M;
    assert x == p * M + Wrap(x) && y == q * M + Wrap(y);
    var d := Wrap(x) - Wrap(y);
    assert x - y == (p - q) * M + d;
    MultipleWrap(p - q, d);
    MultipleWrap(p, Wrap(x) + y);
    assert x + y == p * M + (Wrap(x) + y);
  }

  lemma MultipleWrap(k: int, d: int)
    ensures Wrap(k * M + d) == Wrap(d)
  {
    var q := d / M;
    assert d == q * M + Wrap(d);
    WrapCase(k * M + d, k + q);
  }

  lemma SubRight(w: nat, y: int)
    ensures Sub(w, Wrap(y)) == Wrap(w - y)
  {
    MultipleWrap(y / M, w - y);
    assert w - Wrap(y) == y / M * M + (w - y);
  }

  /** On positions less than 2^31 apart the comparisons are the comparisons of the
      positions, also where the numbers have wrapped between them. */
  lemma CompareMeaning(x: int, y: int)
    requires -H < x - y < H
    ensures LT(Wrap(x), Wrap(y)) <==> x < y
    ensures GT(Wrap(x), Wrap(y)) <==> x > y
    ensures LEQ(Wrap(x), Wrap(y)) <==> x <= y
    ensures GEQ(Wrap(x), Wrap(y)) <==> x >= y
  {
    SubWrap(x, y);
    WrapCase(x - y, if x < y then -1 else 0);
  }

  /** A number lies between two others exactly when it stands for a position between
      theirs; that position is unique. */
  lemma BetweenMeaning(n: nat, left: int, right: int)
    requires n < M && 0 <= right - left < M
    ensures var x := left + Sub(n, Wrap(left));
      Wrap(x) == n && left <= x && (Between(n, Wrap(left), Wrap(right)) <==> x <= right)
  {
    var x := left + Sub(n, Wrap(left));
    SubWrap(right, left);
    WrapCase(right - left, 0);
    SubWrap(left, Sub(n, Wrap(left)));
    SubWrap(n - Wrap(left), Wrap(left));
    WrapCase(n, 0);
    assert Wrap(Wrap(left) + Sub(n, Wrap(left))) == Wrap(x);
    assert Wrap(Sub(n, Wrap(left)) + Wrap(left)) == Wrap(n - Wrap(left) + Wrap(left)) == n;
  }

  lemma PositionUnique(x: int, y: int)
    requires -M < x - y < M && Wrap(x) == Wrap(y)
    ensures x == y
  {
    SubWrap(x, y);
    WrapCase(0, 0);
    WrapCase(x - y, if x < y then -1 else 0);
  }
}
