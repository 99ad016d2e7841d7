/** Cutting a chain of buffers in two after a number of bytes. */
module ChainSplit {
  import B = IOBuf

  /** The first n bytes of a chain, the rest of it, and what is left of n at the buffer
      where the cut is. */
  method CutChain(chain: seq<seq<nat>>, n: nat) returns (front: seq<seq<nat>>, back: seq<seq<nat>>, left: nat)
    requires n < |B.Join(chain)|
    ensures B.Join(front) == B.Join(chain)[..n] && B.Join(back) == B.Join(chain)[n..]
    ensures front == [] <==> n == 0
    ensures left <= n
  {
    left := n;
    var i := 0;
    assert chain[..0] == [] && chain[0..] == chain;
    while i < |chain| && |chain[i]| < left
      invariant 0 <= i <= |chain| && 0 <= left <= n
      invariant |B.Join(chain[..i])| + left == n
      invariant left > 0 || i == 0
    {
      B.JoinOne(chain, i);
      left := left - |chain[i]|;
      i := i + 1;
    }
    CutPoint(chain, i, left, n);
    back := chain[i..];
    front := chain[..i];
    if left > 0 {
      front := front + [back[0][..left]];
      back := [back[0][left..]] + back[1..];
    }
  }

  /** The cut falls into the buffer where the loop stops, there is one, and the two
      sides are the bytes before and after it. */
  lemma CutPoint(chain: seq<seq<nat>>, i: nat, left: nat, n: nat)
    requires i <= |chain| && |B.Join(chain[..i])| + left == n < |B.Join(chain)|
    requires i < |chain| ==> |chain[i]| >= left
    ensures i < |chain|
    ensures B.Join(chain[..i] + [chain[i][..left]]) == B.Join(chain)[..n]
    ensures B.Join([chain[i][left..]] + chain[i + 1..]) == B.Join(chain)[n..]
    ensures left == 0 ==> B.Join(chain[..i]) == B.Join(chain)[..n] && B.Join(chain[i..]) == B.Join(chain)[n..]
  {
    B.JoinConcat(chain[..i], chain[i..]);
    assert chain[..i] + chain[i..] == chain;
    assert chain[..|chain|] == chain;
    var b, rest := chain[i], chain[i + 1..];
    assert chain[i..] == [b] + rest;
    B.JoinConcat(chain[..i], [b[..left]]);
    JoinSingle(b[..left]);
    JoinFirst(b, rest);
    JoinFirst(b[left..], rest);
    CutBytes(B.Join(chain[..i]), b, B.Join(rest), left);
  }

  lemma JoinSingle(b: seq<nat>)
    ensures B.Join([b]) == b
  {
    assert [b][1..] == [];
  }

  lemma JoinFirst(b: seq<nat>, rest: seq<seq<nat>>)
    ensures B.Join([b] + rest) == b + B.Join(rest)
  {
    assert ([b] + rest)[1..] == rest;
  }

  lemma CutBytes(x: seq<nat>, b: seq<nat>, y: seq<nat>, left: nat)
    requires left <= |b|
    ensures (x + (b + y))[..|x| + left] == x + b[..left]
    ensures (x + (b + y))[|x| + left..] == b[left..] + y
  {
  }

  /** The first n bytes and the rest when there are more: the buffer across the cut is
      shared by two views, one trimmed at its end and one advanced. */
  method SplitChain(chain: seq<seq<nat>>, n: nat) returns (front: seq<seq<nat>>, back: seq<seq<nat>>)
    requires 0 < n < |B.Join(chain)|
    ensures B.Join(front) == B.Join(chain)[..n] && B.Join(back) == B.Join(chain)[n..]
    ensures front != [] && back != []
  {
    var i, length := 0, |chain[0]|;
    B.JoinOne(chain, 0);
    assert chain[..0] == [];
    if |chain[0]| < n {
      while length < n
        invariant 0 <= i < |chain| && length == |B.Join(chain[..i])| + |chain[i]| == |B.Join(chain[..i + 1])|
        invariant |B.Join(chain[..i])| < n
        decreases |chain| - i
      {
        assert chain[..|chain|] == chain;
        i := i + 1;
        B.JoinOne(chain, i);
        length := length + |chain[i]|;
      }
    }
    var leftShard := |chain[i]| - (length - n);
    CutPoint(chain, i, leftShard, n);
    front := chain[..i] + [chain[i][..leftShard]];
    back := [chain[i][leftShard..]] + chain[i + 1..];
  }
}
