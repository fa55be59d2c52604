/** Unbiased integers in [min, max] by rejection sampling over an entropy oracle.

    The cryptographic byte source is an oracle: a finite sequence of bytes handed in
    by the caller; every draw takes bytes from its front and the rest is handed back. */
module Entropy {
  import opened Wrappers
  import opened Arith

  type Byte = bv8

  function Pow256(n: nat): (p: nat)
    ensures p >= 1
  {
    if n == 0 then 1 else 256 * Pow256(n - 1)
  }

  /** The number a run of bytes spells when written out in hex and parsed in base 16:
      the first byte is the most significant. */
  function BigEndian(bytes: seq<Byte>): (v: nat)
    ensures v < Pow256(|bytes|)
  {
    if bytes == [] then 0
    else
      var init := bytes[..|bytes| - 1];
      var v0 := BigEndian(init);
      assert v0 <= Pow256(|init|) - 1;
      v0 * 256 + bytes[|bytes| - 1] as nat
  }

  /** `ceil(log2(range) / 8)`: the fewest bytes whose value space holds `range` values. */
  function BytesNeeded(range: nat): (b: nat)
    ensures range <= Pow256(b)
    ensures b > 0 ==> Pow256(b - 1) < range
    decreases range
  {
    if range <= 1 then 0
    else
      var b0 := BytesNeeded((range + 255) / 256);
      assert b0 > 0 ==> Pow256(b0 - 1) * 256 < range;
      1 + b0
  }

  /** The largest multiple of `range` that fits in the value space of `BytesNeeded(range)` bytes;
      draws at or above it are rejected. */
  function Cutoff(range: nat): (cutoff: int)
    requires range >= 2
  {
    var maxValue := Pow256(BytesNeeded(range));
    maxValue - maxValue % range
  }

  /** The cutoff is a multiple of `range`, and no larger multiple fits below 256^bytesNeeded. */
  lemma CutoffIsLargestMultiple(range: nat)
    requires range >= 2
    ensures 0 < Cutoff(range) <= Pow256(BytesNeeded(range))
    ensures Cutoff(range) % range == 0
    ensures Pow256(BytesNeeded(range)) - range < Cutoff(range)
  {
    MultipleOfRange(Pow256(BytesNeeded(range)), range);
  }

  lemma MultipleOfRange(m: nat, range: nat)
    requires range > 0
    ensures (m - m % range) % range == 0
  {
    var q := m / range;
    assert m - m % range == q * range;
    DivModOfBlock(q, range, 0, q * range);
  }

  /** One accepted draw and the bytes the oracle still holds after it. */
  datatype Draw = Draw(value: int, rest: seq<Byte>)

  /** What secureRandom(min, max) draws from the oracle: read `BytesNeeded` bytes, retry
      while their value reaches the cutoff, and answer `min + value % range`; `None` when the
      oracle runs dry first. */
  function Sample(min: int, max: int, entropy: seq<Byte>): (r: Option<Draw>)
    requires max - min + 1 >= 2
    ensures r.Some? ==> min <= r.value.value <= max
    ensures r.Some? ==> |r.value.rest| < |entropy|
    decreases |entropy|
  {
    var range := max - min + 1;
    var n := BytesNeeded(range);
    if |entropy| < n then None
    else
      var value := BigEndian(entropy[..n]);
      if value >= Cutoff(range) then Sample(min, max, entropy[n..])
      else Some(Draw(min + value % range, entropy[n..]))
  }

  /** secureRandom: draws until a value falls below the cutoff. */
  method SecureRandom(min: int, max: int, entropy: seq<Byte>) returns (r: Option<Draw>)
    requires max - min + 1 >= 2
    ensures r == Sample(min, max, entropy)
    ensures r.Some? ==> min <= r.value.value <= max
  {
    var range := max - min + 1;
    var bytesNeeded := BytesNeeded(range);
    var maxValue := Pow256(bytesNeeded);
    var cutoff := maxValue - maxValue % range;
    var pending := entropy;
    var value := 0;
    while true
      invariant Sample(min, max, pending) == Sample(min, max, entropy)
      decreases |pending|
    {
      if |pending| < bytesNeeded {
        return None;
      }
      value := BigEndian(pending[..bytesNeeded]);
      pending := pending[bytesNeeded..];
      if value < cutoff {
        break;
      }
    }
    r := Some(Draw(min + value % range, pending));
  }

  /** The draw values in [0, n) that land on residue k. */
  ghost function Preimages(n: int, range: nat, k: nat): (vs: set<nat>)
    requires range > 0
  {
    set v: nat | v < n && v % range == k
  }

  /** Among the first q * range draw values, every residue is hit exactly q times. */
  lemma {:induction false} PreimagesCount(q: nat, range: nat, k: nat)
    requires k < range
    ensures |Preimages(q * range, range, k)| == q
  {
    if q == 0 {
      assert Preimages(0, range, k) == {};
    } else {
      PreimagesCount(q - 1, range, k);
      var base := (q - 1) * range;
      var x := base + k;
      DivModOfBlock(q - 1, range, k, x);
      forall v: nat | base <= v < base + range && v % range == k
        ensures v == x
      {
        DivModOfBlock(q - 1, range, v - base, v);
      }
      assert q * range == base + range;
      assert Preimages(q * range, range, k) == Preimages(base, range, k) + {x};
    }
  }

  /** The draw values the loop accepts that come out as x. */
  ghost function AcceptedDraws(min: int, max: int, x: int): (vs: set<nat>)
    requires max - min + 1 >= 2
  {
    var range := max - min + 1;
    set v: nat | v < Cutoff(range) && min + v % range == x
  }

  /** No modulo bias: every value of [min, max] is produced by exactly the same number of
      accepted draw values, Cutoff / range of them. */
  lemma EachOutcomeEquallyLikely(min: int, max: int, x: int)
    requires max - min + 1 >= 2
    requires min <= x <= max
    ensures |AcceptedDraws(min, max, x)| == Cutoff(max - min + 1) / (max - min + 1)
  {
    var range := max - min + 1;
    var c := Cutoff(range);
    CutoffIsLargestMultiple(range);
    var q := c / range;
    ExactQuotient(c, range);
    AcceptedArePreimages(min, max, x);
    PreimagesCount(q, range, x - min);
  }

  lemma AcceptedArePreimages(min: int, max: int, x: int)
    requires max - min + 1 >= 2
    requires min <= x <= max
    ensures AcceptedDraws(min, max, x) == Preimages(Cutoff(max - min + 1), max - min + 1, x - min)
  {
    var range := max - min + 1;
    var accepted, preimages := AcceptedDraws(min, max, x), Preimages(Cutoff(range), range, x - min);
    forall v: nat
      ensures v in accepted <==> v in preimages
    {
    }
  }
}
