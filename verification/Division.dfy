/** Facts about quotients and remainders that other modules use. */
module Division {

  lemma ScaleAtMost(a: nat, b: nat, n: nat)
    requires a <= b
    ensures a * n <= b * n
  {
    assert (b - a) * n >= 0;
  }

  lemma ScaleLess(a: nat, b: nat, n: nat)
    requires a * n < b * n
    ensures a < b
  {
    assert b <= a ==> b * n <= a * n by {
      if b <= a { ScaleAtMost(b, a, n); }
    }
  }

  lemma DivUnique(a: nat, n: nat, q: nat, r: nat)
    requires n >= 1 && a == q * n + r && r < n
    ensures a / n == q && a % n == r
  {
    var q' := a / n;
    assert a == q' * n + a % n;
    assert (q' + 1) * n == q' * n + n && (q + 1) * n == q * n + n;
    ScaleLess(q, q' + 1, n);
    ScaleLess(q', q + 1, n);
  }

  lemma MultipleMod(k: nat, n: nat)
    requires n >= 1
    ensures k * n % n == 0 && k * n / n == k
  {
    DivUnique(k * n, n, k, 0);
  }

  /** A sum below twice the modulus, with what runs over added back. */
  lemma CarryBack(s: nat, w: nat)
    requires w > 1 && s < 2 * w - 1
    ensures s / w <= 1 && s % w + s / w == (if s < w then s else s - w + 1) < w
    ensures (s % w + s / w) % w == s % w + s / w
  {
    var c := if s < w then 0 else 1;
    assert s == c * w + (s - c * w);
    DivUnique(s, w, c, s - c * w);
    var r := s - c * w + c;
    assert r == 0 * w + r;
    DivUnique(r, w, 0, r);
  }
}
