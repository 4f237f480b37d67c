/** Byte strings, 32-byte words, big-endian numbers and nibbles. */
module ByteStrings {
  type Byte = x: int | 0 <= x < 256
  type Bytes = seq<Byte>
  type Nibble = x: int | 0 <= x < 16
  type Nibbles = seq<Nibble>

  const ZEROS32: Bytes := seq(32, (i: int) => 0)

  type Word = b: Bytes | |b| == 32 ghost witness ZEROS32

  /** A hash function with 32-byte digests; nothing else is known about it. */
  type HashFn = Bytes -> Word

  /** No two different strings of `s` have the same digest. */
  ghost predicate CollisionFree(H: HashFn, s: set<Bytes>) {
    forall a, b | a in s && b in s && H(a) == H(b) :: a == b
  }

  /** `Bytes.equal` of the contracts compares digests, not contents. */
  predicate Equal(H: HashFn, a: Bytes, b: Bytes) {
    H(a) == H(b)
  }

  // ---------- concatenation ----------

  function Concat(parts: seq<Bytes>): Bytes {
    if parts == [] then [] else parts[0] + Concat(parts[1..])
  }

  lemma {:induction false} ConcatAppend(a: seq<Bytes>, b: seq<Bytes>)
    ensures Concat(a + b) == Concat(a) + Concat(b)
  {
    if a == [] {
      assert a + b == b;
    } else {
      ConcatAppend(a[1..], b);
      assert (a + b)[1..] == a[1..] + b && (a + b)[0] == a[0];
    }
  }

  // ---------- big-endian numbers ----------

  function Pow256(k: nat): nat {
    if k == 0 then 1 else 256 * Pow256(k - 1)
  }

  function FromBE(b: Bytes): nat {
    if b == [] then 0 else FromBE(b[..|b| - 1]) * 256 + b[|b| - 1]
  }

  function ToBE(n: nat): Bytes {
    if n == 0 then [] else ToBE(n / 256) + [n % 256]
  }

  lemma {:induction false} FromToBE(n: nat)
    ensures FromBE(ToBE(n)) == n
    ensures n > 0 ==> |ToBE(n)| > 0 && ToBE(n)[0] != 0
  {
    if n > 0 {
      FromToBE(n / 256);
      var b := ToBE(n);
      assert b[..|b| - 1] == ToBE(n / 256);
    }
  }

  lemma {:induction false} ToFromBE(b: Bytes)
    requires b == [] || b[0] != 0
    ensures ToBE(FromBE(b)) == b
    ensures b != [] ==> FromBE(b) > 0
  {
    if b != [] {
      ToFromBE(b[..|b| - 1]);
      assert b == b[..|b| - 1] + [b[|b| - 1]];
    }
  }

  lemma {:induction false} FromBEBound(b: Bytes)
    ensures FromBE(b) < Pow256(|b|)
  {
    if b != [] {
      FromBEBound(b[..|b| - 1]);
    }
  }

  lemma {:induction false} ToBELength(n: nat, k: nat)
    requires n < Pow256(k)
    ensures |ToBE(n)| <= k
  {
    if n > 0 {
      ToBELength(n / 256, k - 1);
    }
  }

  // ---------- nibbles ----------

  function ToNibbles(b: Bytes): (r: Nibbles)
    ensures |r| == 2 * |b|
  {
    if b == [] then [] else [b[0] / 16, b[0] % 16] + ToNibbles(b[1..])
  }

  lemma {:induction false} ToNibblesAt(b: Bytes, i: nat)
    requires i < |b|
    ensures ToNibbles(b)[2 * i] == b[i] / 16 && ToNibbles(b)[2 * i + 1] == b[i] % 16
  {
    if i > 0 {
      ToNibblesAt(b[1..], i - 1);
    }
  }

  /** The loop of `Bytes.toNibbles`: it fills a fresh array two nibbles at a time. */
  method SplitNibbles(b: Bytes) returns (r: Nibbles)
    ensures r == ToNibbles(b)
  {
    var nibbles := new Nibble[2 * |b|];
    var i := 0;
    while i < |b|
      invariant 0 <= i <= |b|
      invariant forall k :: 0 <= k < 2 * i ==> nibbles[k] == ToNibbles(b)[k]
    {
      ToNibblesAt(b, i);
      nibbles[i * 2] := b[i] / 16;
      nibbles[i * 2 + 1] := b[i] % 16;
      i := i + 1;
    }
    r := nibbles[..];
  }

  /** Length of the longest common prefix. */
  function SharedLength(a: Nibbles, b: Nibbles): (n: nat)
    ensures n <= |a| && n <= |b| && a[..n] == b[..n]
    ensures n < |a| && n < |b| ==> a[n] != b[n]
  {
    if a == [] || b == [] || a[0] != b[0] then 0
    else
      var n := SharedLength(a[1..], b[1..]);
      assert a[..n + 1] == [a[0]] + a[1..][..n];
      assert b[..n + 1] == [b[0]] + b[1..][..n];
      n + 1
  }

  lemma {:induction false} SharedLengthUnique(a: Nibbles, b: Nibbles, n: nat)
    requires n <= |a| && n <= |b| && a[..n] == b[..n]
    requires n < |a| && n < |b| ==> a[n] != b[n]
    ensures SharedLength(a, b) == n
  {
    var m := SharedLength(a, b);
    assert forall k :: 0 <= k < n ==> a[..n][k] == b[..n][k];
    assert forall k :: 0 <= k < m ==> a[..m][k] == b[..m][k];
  }

  /** The loop of `_getSharedNibbleLength`. */
  method CountSharedNibbles(a: Nibbles, b: Nibbles) returns (shared: nat)
    ensures shared == SharedLength(a, b)
  {
    shared := 0;
    var max := if |a| < |b| then |a| else |b|;
    while shared < max && a[shared] == b[shared]
      invariant shared <= max
      invariant a[..shared] == b[..shared]
    {
      shared := shared + 1;
    }
    SharedLengthUnique(a, b, shared);
  }
}
