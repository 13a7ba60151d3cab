/** Constants, the physical block record and the rounding helper (include/common.h). */
module Common {

  /** kMinBlockAlign: every small range starts and ends on this boundary. */
  const ALIGN: nat := 512

  /** kSmallBlockSize: the size of a small physical block and of a small page. */
  const PAGE: nat := 2097152

  /** kMinLargeBlock: the smallest large size class. */
  const UNIT: nat := 16777216

  /** The range of size_t on the platforms the allocator runs on. */
  const WORD: nat := 0x1_0000_0000_0000_0000

  datatype Option<+T> = None | Some(value: T)

  /** The outcome of auditing a state against its invariant. */
  datatype Verdict = Sound | Broken

  /** Invariants are kept under a seal: their parts hold for whoever opens it. A proof that needs
      the parts says assert Open(Seal); all others pass the invariant on whole. */
  datatype Seal = Seal

  ghost predicate Open(s: Seal) {
    true
  }

  /** The seal of an invariant that contains another one, to be opened on its own. */
  ghost predicate Lift(s: Seal) {
    true
  }

  datatype PhysicalBlock = PhysicalBlock(handle: nat, size: nat, device: int)

  /** The bytes of a list of blocks. */
  ghost function Total(blocks: seq<PhysicalBlock>): nat {
    if blocks == [] then 0 else blocks[0].size + Total(blocks[1..])
  }

  /** kLargeBlockSizes: 256, 128, 64, 32 and 16 MB. */
  predicate LegalClass(c: nat) {
    c == 16 * UNIT || c == 8 * UNIT || c == 4 * UNIT || c == 2 * UNIT || c == UNIT
  }

  /** roundUp on unbounded integers: the least multiple of align that is at least n. */
  function RoundUp(n: nat, align: nat): (r: nat)
    requires align > 0
    ensures n <= r < n + align && r % align == 0
  {
    var up := n + align - 1;
    MultipleMod(up / align, align);
    assert up - up % align == (up / align) * align;
    up - up % align
  }

  /** roundUp(max(size, 1), kMinBlockAlign) */
  function AlignedSize(size: nat): (sz: nat)
    ensures IsAligned(size, sz)
  {
    RoundUp(if size > 1 then size else 1, ALIGN)
  }

  /** sz is the least positive multiple of 512 that is at least size. */
  predicate IsAligned(size: nat, sz: nat) {
    sz % ALIGN == 0 && size <= sz && 0 < sz && (sz < size + ALIGN || (size == 0 && sz == ALIGN))
  }

  lemma MulAtLeast(z: int, d: nat)
    requires z >= 1
    ensures z * d >= d
  {
    assert z * d == (z - 1) * d + d;
  }

  lemma MultipleMod(q: nat, d: nat)
    requires d > 0
    ensures (q * d) % d == 0
  {
    var x := q * d;
    var z := x / d - q;
    assert x == d * (x / d) + x % d;
    assert z * d == -(x % d) by {
      assert z * d == (x / d) * d - q * d;
    }
    if z >= 1 {
      MulAtLeast(z, d);
    } else if z <= -1 {
      MulAtLeast(-z, d);
    }
  }

  lemma BetweenMultiples(a: nat, s: nat, d: nat)
    requires d > 0 && a % d == 0 && (a + s) % d == 0
    ensures s % d == 0
  {
    assert a == d * (a / d) && a + s == d * ((a + s) / d);
    assert s == ((a + s) / d - a / d) * d;
    MultipleMod((a + s) / d - a / d, d);
  }

  lemma SmallMod(x: nat, d: nat)
    requires x < d
    ensures x % d == x
  {
  }

  lemma MulBounds(q: int, d: nat)
    ensures q >= 2 ==> q * d >= 2 * d
    ensures q <= 0 ==> q * d <= 0
  {
    if q >= 2 {
      MulAtLeast(q - 1, d);
      assert q * d == (q - 1) * d + d;
    } else if q <= 0 {
      MulAtLeast(1 - q, d);
      assert q * d == d - (1 - q) * d;
    }
  }

  lemma QuotientOne(q: int, rest: int, x: nat, d: nat)
    requires x == q * d + rest && 0 <= rest < d <= x < 2 * d
    ensures rest == x - d
  {
    MulBounds(q, d);
  }

  lemma WrappedMod(x: nat, d: nat)
    requires d <= x < 2 * d
    ensures x % d == x - d
  {
    assert x == (x / d) * d + x % d;
    QuotientOne(x / d, x % d, x, d);
  }

  /** roundUp in words of the given range: the addition wraps, the mask clears the low bits. */
  function RoundUpIn(n: nat, align: nat, word: nat): nat
    requires align > 0 && n < word
  {
    var up := (n + align - 1) % word;
    up - up % align
  }

  /** roundUp as the machine computes it. */
  function RoundUpWord(n: nat, align: nat): nat
    requires align > 0 && n < WORD
  {
    RoundUpIn(n, align, WORD)
  }

  lemma RoundUpInExact(n: nat, align: nat, word: nat)
    requires 0 < align <= word && n < word
    ensures RoundUpIn(n, align, word) == RoundUp(n, align) <==> n + align - 1 < word
    ensures n + align - 1 >= word ==> RoundUpIn(n, align, word) == 0
  {
    var up := n + align - 1;
    if up < word {
      SmallMod(up, word);
    } else {
      WrappedMod(up, word);
      SmallMod(up - word, align);
    }
  }

  /** The wrapping roundUp agrees with the ideal one exactly when the addition does not
      wrap; when it wraps the result is 0. */
  lemma RoundUpWordExact(n: nat, align: nat)
    requires 0 < align <= WORD && n < WORD
    ensures RoundUpWord(n, align) == RoundUp(n, align) <==> n + align - 1 < WORD
    ensures n + align - 1 >= WORD ==> RoundUpWord(n, align) == 0
  {
    RoundUpInExact(n, align, WORD);
  }
}
