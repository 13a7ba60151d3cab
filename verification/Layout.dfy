/** Greedy packing of a large request into size classes (csrc/large_allocator.cc:164-190).
    A class is UNIT * 2^i for i = 0 .. 4; a request is counted in units of 16 MB. */
module Layout {
  import opened Common

  /** kNumLargeClasses - 1: the exponent of the largest class. */
  const TOP: nat := 4

  function Pow2(i: nat): (r: nat)
    ensures r >= 1
  {
    if i == 0 then 1 else 2 * Pow2(i - 1)
  }

  ghost function SumOf(s: seq<nat>): nat {
    if s == [] then 0 else SumOf(s[..|s| - 1]) + s[|s| - 1]
  }

  ghost predicate LegalList(s: seq<nat>) {
    forall i :: 0 <= i < |s| ==> LegalClass(s[i])
  }

  ghost predicate NonIncreasing(s: seq<nat>) {
    forall i, j :: 0 <= i < j < |s| ==> s[i] >= s[j]
  }

  /** The fewest blocks of 1, 2, 4, .., 2^top units that add up to n units. */
  ghost function Fewest(n: nat, top: nat): nat
    decreases top, n
  {
    if top == 0 then n else n % 2 + Fewest(n / 2, top - 1)
  }

  /** One more block can save at most itself. */
  lemma {:induction false} OneBlockStep(n: nat, i: nat, top: nat)
    requires i <= top
    ensures Fewest(n + Pow2(i), top) <= Fewest(n, top) + 1
    decreases top
  {
    if top > 0 {
      if i > 0 {
        assert (n + Pow2(i)) / 2 == n / 2 + Pow2(i - 1);
        OneBlockStep(n / 2, i - 1, top - 1);
      } else if n % 2 == 1 {
        assert (n + 1) / 2 == n / 2 + 1;
        OneBlockStep(n / 2, 0, top - 1);
      }
    }
  }

  lemma {:induction false} FewestOfNothing(top: nat)
    ensures Fewest(0, top) == 0
  {
    if top > 0 {
      FewestOfNothing(top - 1);
    }
  }

  lemma {:induction false} SingleUnit(top: nat)
    ensures Fewest(1, top) == 1
  {
    FewestOfNothing(if top == 0 then 0 else top - 1);
  }

  /** Taking the largest block that fits is a best choice. */
  lemma {:induction false} GreedyStep(n: nat, i: nat, top: nat)
    requires i <= top && Pow2(i) <= n && (i == top || n < 2 * Pow2(i))
    ensures Fewest(n, top) == Fewest(n - Pow2(i), top) + 1
    decreases top
  {
    if i > 0 {
      assert (n - Pow2(i)) / 2 == n / 2 - Pow2(i - 1) && (n - Pow2(i)) % 2 == n % 2;
      GreedyStep(n / 2, i - 1, top - 1);
    } else if top > 0 {
      FewestOfNothing(top);
      SingleUnit(top);
    }
  }

  /** How many trailing binary ones n has among its top lowest digits. */
  ghost function TrailingOnes(n: nat, top: nat): nat
    decreases top, n
  {
    if top == 0 || n % 2 == 0 then 0 else 1 + TrailingOnes(n / 2, top - 1)
  }

  lemma {:induction false} OneUnitMore(n: nat, top: nat)
    ensures Fewest(n, top) + 1 == Fewest(n + 1, top) + TrailingOnes(n, top)
    ensures TrailingOnes(n, top) <= top
    decreases top
  {
    if top > 0 && n % 2 == 1 {
      assert (n + 1) / 2 == n / 2 + 1;
      OneUnitMore(n / 2, top - 1);
    }
  }

  // ---- optimality of the packing ------------------------------------------------------

  /** The number of blocks the greedy packing uses for a request of size bytes. */
  ghost function GreedyCount(size: nat): nat {
    Fewest(size / UNIT, TOP) + if size % UNIT == 0 then 0 else 1
  }

  lemma ClassExponent(c: nat) returns (i: nat)
    requires LegalClass(c)
    ensures i <= TOP && c == Pow2(i) * UNIT
    ensures i == TOP || c <= 8 * UNIT
  {
    assert Pow2(1) == 2 && Pow2(2) == 4 && Pow2(3) == 8 && Pow2(4) == 16;
    i := if c == UNIT then 0 else if c == 2 * UNIT then 1 else if c == 4 * UNIT then 2
         else if c == 8 * UNIT then 3 else 4;
  }

  /** No list of legal blocks with the same sum is shorter than Fewest says. */
  lemma {:induction false} FewestIsLowerBound(s: seq<nat>, n: nat)
    requires LegalList(s) && SumOf(s) == n * UNIT
    ensures |s| >= Fewest(n, TOP)
  {
    if s == [] {
      FewestOfNothing(TOP);
    } else {
      var rest, c := s[..|s| - 1], s[|s| - 1];
      assert LegalClass(c);
      var i := ClassExponent(c);
      FewestIsLowerBound(rest, n - Pow2(i));
      OneBlockStep(n - Pow2(i), i, TOP);
    }
  }

  lemma AppendBlock(s: seq<nat>, c: nat)
    ensures SumOf(s + [c]) == SumOf(s) + c
  {
    assert (s + [c])[..|s|] == s;
  }

  lemma AppendLast(s: seq<nat>, c: nat)
    requires LegalList(s) && NonIncreasing(s) && LegalClass(c) && forall j :: 0 <= j < |s| ==> s[j] >= c
    ensures LegalList(s + [c]) && NonIncreasing(s + [c])
    ensures SumOf(s + [c]) == SumOf(s) + c
  {
    AppendBlock(s, c);
    AppendLegal(s, c);
    AppendNonIncreasing(s, c);
  }

  lemma AppendLegal(s: seq<nat>, c: nat)
    requires LegalList(s) && LegalClass(c)
    ensures LegalList(s + [c])
  {
    var t := s + [c];
    forall i | 0 <= i < |t|
      ensures LegalClass(t[i])
    {
      if i < |s| {
        assert t[i] == s[i];
      }
    }
  }

  lemma AppendNonIncreasing(s: seq<nat>, c: nat)
    requires NonIncreasing(s) && forall j :: 0 <= j < |s| ==> s[j] >= c
    ensures NonIncreasing(s + [c]) && forall j :: 0 <= j < |s + [c]| ==> (s + [c])[j] >= c
  {
    var t := s + [c];
    forall i, j | 0 <= i < j < |t|
      ensures t[i] >= t[j]
    {
      assert t[i] == s[i] && (j < |s| ==> t[j] == s[j]);
    }
  }

  /** The minimum is reached. */
  lemma {:induction false} ShortestList(n: nat) returns (s: seq<nat>)
    ensures LegalList(s) && SumOf(s) == n * UNIT && |s| == Fewest(n, TOP)
  {
    if n == 0 {
      s := [];
      FewestOfNothing(TOP);
    } else {
      var c := if n >= 16 then 16 * UNIT else if n >= 8 then 8 * UNIT else if n >= 4 then 4 * UNIT
               else if n >= 2 then 2 * UNIT else UNIT;
      var i := ClassExponent(c);
      GreedyStep(n, i, TOP);
      var rest := ShortestList(n - Pow2(i));
      s := rest + [c];
      AppendBlock(rest, c);
    }
  }

  /** The size of the packing, in units. */
  function RoundedUnits(size: nat): nat {
    if size % UNIT == 0 then size / UNIT else size / UNIT + 1
  }

  lemma RoundUpUnits(size: nat)
    ensures RoundUp(size, UNIT) == RoundedUnits(size) * UNIT
  {
  }

  /** A request that is no multiple of 16 MB costs one block more than its whole part; that is
      above the minimum for the packed size by exactly the trailing ones of the whole part. */
  lemma GreedyExcess(size: nat)
    ensures GreedyCount(size) == Fewest(RoundedUnits(size), TOP)
                                 + if size % UNIT == 0 then 0 else TrailingOnes(size / UNIT, TOP)
  {
    OneUnitMore(size / UNIT, TOP);
  }

  /** The packing of a request is minimal among all legal lists with its sum exactly when the
      request is a multiple of 16 MB or its whole number of units is even; it is never more than
      four blocks above the minimum. */
  lemma GreedyMinimal(size: nat, layout: seq<nat>)
    requires LegalList(layout) && SumOf(layout) == RoundUp(size, UNIT) && |layout| == GreedyCount(size)
    ensures forall s :: LegalList(s) && SumOf(s) == SumOf(layout) ==> |layout| <= |s| + 4
    ensures size % UNIT == 0 || size / UNIT % 2 == 0
            <==> forall s :: LegalList(s) && SumOf(s) == SumOf(layout) ==> |layout| <= |s|
  {
    var n := RoundedUnits(size);
    RoundUpUnits(size);
    GreedyExcess(size);
    OneUnitMore(size / UNIT, TOP);
    forall s | LegalList(s) && SumOf(s) == SumOf(layout)
      ensures Fewest(n, TOP) <= |s|
    {
      FewestIsLowerBound(s, n);
    }
    var best := ShortestList(n);
    assert LegalList(best) && SumOf(best) == SumOf(layout) && |best| == Fewest(n, TOP);
  }

  lemma OneBlock(c: nat)
    requires LegalClass(c)
    ensures LegalList([c]) && SumOf([c]) == c
  {
    assert [c] == [] + [c];
    AppendBlock([], c);
  }

  /** 17 MB: two blocks of 16 MB, where one of 32 MB has the same total. */
  lemma NotAlwaysMinimal()
    ensures GreedyCount(17 * 1048576) == 2
    ensures LegalList([2 * UNIT]) && SumOf([2 * UNIT]) == RoundUp(17 * 1048576, UNIT)
  {
    SingleUnit(TOP);
    RoundUpUnits(17 * 1048576);
    OneBlock(2 * UNIT);
  }

  lemma FewestOfFifteen()
    ensures Fewest(15, TOP) == 4
  {
    SingleUnit(1);
    assert Fewest(3, 2) == 2;
    assert Fewest(7, 3) == 3;
  }

  /** One byte above 240 MB: five blocks, where one of 256 MB has the same total. */
  lemma FourAboveMinimal()
    ensures GreedyCount(15 * UNIT + 1) == 5
    ensures LegalList([16 * UNIT]) && SumOf([16 * UNIT]) == RoundUp(15 * UNIT + 1, UNIT)
  {
    FewestOfFifteen();
    RoundUpUnits(15 * UNIT + 1);
    OneBlock(16 * UNIT);
  }

  // ---- the packing as a function --------------------------------------------------------

  ghost function Largest(n: nat): nat
    requires n >= UNIT
  {
    if n >= 16 * UNIT then 16 * UNIT else if n >= 8 * UNIT then 8 * UNIT else if n >= 4 * UNIT then 4 * UNIT
    else if n >= 2 * UNIT then 2 * UNIT else UNIT
  }

  /** The blocks for n bytes, one after the other. */
  ghost function Pack(n: nat): seq<nat> {
    if n == 0 then [] else if n < UNIT then [UNIT] else [Largest(n)] + Pack(n - Largest(n))
  }

  /** Block i is the largest class that fits in what the blocks before it leave; 16 MB covers a rest
      that no class fits in. */
  ghost predicate GreedyAt(layout: seq<nat>, size: nat, i: nat)
    requires i < |layout|
  {
    var left := size - SumOf(layout[..i]);
    && left > 0 && LegalClass(layout[i])
    && (if left < UNIT then layout[i] == UNIT
        else layout[i] <= left && forall c: nat :: LegalClass(c) && c <= left ==> c <= layout[i])
  }

  lemma {:induction false} SumOfCons(c: nat, s: seq<nat>)
    ensures SumOf([c] + s) == c + SumOf(s)
  {
    if s == [] {
      assert [c] + s == [c];
      OneSum(c);
    } else {
      var n := |s| - 1;
      assert ([c] + s)[..|s|] == [c] + s[..n];
      SumOfCons(c, s[..n]);
    }
  }

  lemma OneSum(c: nat)
    ensures SumOf([c]) == c
  {
    AppendBlock([], c);
    assert [] + [c] == [c];
  }

  lemma {:induction false} PackIsGreedy(size: nat, i: nat)
    requires i < |Pack(size)|
    ensures GreedyAt(Pack(size), size, i)
  {
    var layout := Pack(size);
    if i == 0 {
      assert layout[..0] == [];
    } else {
      var c := Largest(size);
      var rest := Pack(size - c);
      PackIsGreedy(size - c, i - 1);
      assert layout[..i] == [c] + rest[..i - 1];
      SumOfCons(c, rest[..i - 1]);
    }
  }

  lemma PackAllGreedy(size: nat)
    ensures forall i :: 0 <= i < |Pack(size)| ==> GreedyAt(Pack(size), size, i)
  {
    forall i | 0 <= i < |Pack(size)|
      ensures GreedyAt(Pack(size), size, i)
    {
      PackIsGreedy(size, i);
    }
  }

  lemma PackDone(layout: seq<nat>, remaining: nat, size: nat)
    requires layout + Pack(remaining) == Pack(size) && remaining < UNIT
    ensures (if remaining > 0 then layout + [UNIT] else layout) == Pack(size)
  {
  }

  // ---- the algorithm ------------------------------------------------------------------

  /** kLargeBlockSizes[i], largest first. */
  function ClassSize(i: nat): nat
    requires i <= TOP
  {
    if i == 0 then 16 * UNIT else if i == 1 then 8 * UNIT else if i == 2 then 4 * UNIT
    else if i == 3 then 2 * UNIT else UNIT
  }

  /** The loop state: of total units, all but n are packed, and as tightly as possible. */
  ghost predicate Packing(total: nat, layout: seq<nat>, n: nat) {
    && SumOf(layout) + n * UNIT == total * UNIT
    && |layout| + Fewest(n, TOP) == Fewest(total, TOP)
  }

  lemma ClassUnits(i: nat)
    requires i <= TOP
    ensures ClassSize(i) == Pow2(TOP - i) * UNIT
  {
    assert Pow2(1) == 2 && Pow2(2) == 4 && Pow2(3) == 8 && Pow2(4) == 16;
  }

  lemma PackOne(total: nat, layout: seq<nat>, n: nat, i: nat)
    requires Packing(total, layout, n) && i <= TOP
    requires Pow2(TOP - i) <= n && (i == 0 || n < 2 * Pow2(TOP - i))
    ensures Packing(total, layout + [ClassSize(i)], n - Pow2(TOP - i))
  {
    var k := Pow2(TOP - i);
    ClassUnits(i);
    GreedyStep(n, TOP - i, TOP);
    assert (n - k) * UNIT == n * UNIT - k * UNIT;
    AppendBlock(layout, ClassSize(i));
  }

  lemma ClassFits(remaining: nat, n: nat, rest: nat, i: nat)
    requires remaining == n * UNIT + rest && rest < UNIT && i <= TOP
    ensures ClassSize(i) <= remaining ==> Pow2(TOP - i) <= n
    ensures remaining < 2 * ClassSize(i) ==> n < 2 * Pow2(TOP - i)
    ensures ClassSize(i) <= remaining ==> remaining - ClassSize(i) == (n - Pow2(TOP - i)) * UNIT + rest
  {
    ClassUnits(i);
  }

  /** A packing in progress: its blocks, none smaller than floor, and the bytes that remain. */
  ghost predicate Partial(total: nat, rest: nat, layout: seq<nat>, remaining: nat, n: nat, floor: nat) {
    && LegalList(layout) && NonIncreasing(layout)
    && (forall j :: 0 <= j < |layout| ==> layout[j] >= floor)
    && Packing(total, layout, n)
    && remaining == n * UNIT + rest
  }

  /** The inner loop of the packing: take blocks of one class as long as they fit. */
  method PackClass(start: seq<nat>, bytes: nat, i: nat, ghost total: nat, ghost rest: nat, ghost units: nat)
      returns (layout: seq<nat>, remaining: nat, ghost n: nat)
    requires i <= TOP && rest < UNIT
    requires Partial(total, rest, start, bytes, units, ClassSize(i))
    requires i > 0 ==> bytes < 2 * ClassSize(i)
    ensures Partial(total, rest, layout, remaining, n, ClassSize(i))
    ensures layout + Pack(remaining) == start + Pack(bytes) && remaining < ClassSize(i)
  {
    layout, remaining, n := start, bytes, units;
    var cls := ClassSize(i);
    while remaining >= cls
      invariant Partial(total, rest, layout, remaining, n, cls) && layout + Pack(remaining) == start + Pack(bytes)
      invariant i > 0 ==> remaining < 2 * cls
    {
      PackNext(layout, remaining, cls, i);
      PartialNext(total, rest, layout, remaining, n, i);
      layout := layout + [cls];
      remaining := remaining - cls;
      n := n - Pow2(TOP - i);
    }
  }

  lemma PartialNext(total: nat, rest: nat, layout: seq<nat>, remaining: nat, n: nat, i: nat)
    requires i <= TOP && rest < UNIT && Partial(total, rest, layout, remaining, n, ClassSize(i))
    requires ClassSize(i) <= remaining && (i > 0 ==> remaining < 2 * ClassSize(i))
    ensures Pow2(TOP - i) <= n
    ensures Partial(total, rest, layout + [ClassSize(i)], remaining - ClassSize(i), n - Pow2(TOP - i), ClassSize(i))
  {
    ClassFits(remaining, n, rest, i);
    PackOne(total, layout, n, i);
    AppendLast(layout, ClassSize(i));
  }

  lemma PackNext(layout: seq<nat>, remaining: nat, cls: nat, i: nat)
    requires i <= TOP && cls == ClassSize(i) <= remaining && (i > 0 ==> remaining < 2 * cls)
    ensures layout + [cls] + Pack(remaining - cls) == layout + Pack(remaining)
  {
    assert Largest(remaining) == cls;
    assert layout + [cls] + Pack(remaining - cls) == layout + ([cls] + Pack(remaining - cls));
  }

  /** The outer loop of the packing: every class in turn, largest first. */
  method PackClasses(size: nat) returns (layout: seq<nat>, remaining: nat, ghost n: nat)
    ensures Partial(size / UNIT, size % UNIT, layout, remaining, n, UNIT)
    ensures layout + Pack(remaining) == Pack(size) && remaining < UNIT
  {
    layout, remaining, n := [], size, size / UNIT;
    for i := 0 to TOP + 1
      invariant Partial(size / UNIT, size % UNIT, layout, remaining, n, if i == 0 then 0 else ClassSize(i - 1))
      invariant i == 0 ==> layout == []
      invariant i > 0 ==> remaining < ClassSize(i - 1)
      invariant layout + Pack(remaining) == Pack(size)
    {
      layout, remaining, n := PackClass(layout, remaining, i, size / UNIT, size % UNIT, n);
    }
  }

  method ComputeLayout(size: nat) returns (layout: seq<nat>)
    ensures layout == Pack(size)
    ensures forall i :: 0 <= i < |layout| ==> GreedyAt(layout, size, i)
    ensures LegalList(layout) && NonIncreasing(layout)
    ensures SumOf(layout) == RoundUp(size, UNIT)
    ensures |layout| == GreedyCount(size)
  {
    var remaining;
    ghost var n;
    layout, remaining, n := PackClasses(size);
    FinishPacking(size, layout, n, size % UNIT);
    PackDone(layout, remaining, size);
    PackAllGreedy(size);
    if remaining > 0 {
      var best := SmallestCover(remaining);
      assert LegalClass(UNIT) && best == UNIT;
      AppendLast(layout, best);
      layout := layout + [best];
    }
  }

  lemma FinishPacking(size: nat, layout: seq<nat>, n: nat, rest: nat)
    requires Packing(size / UNIT, layout, n) && rest == size % UNIT && n * UNIT + rest < UNIT
    ensures n == 0 && GreedyCount(size) == |layout| + if rest > 0 then 1 else 0
    ensures RoundUp(size, UNIT) == SumOf(layout) + if rest > 0 then UNIT else 0
  {
    assert n == 0;
    FewestOfNothing(TOP);
    RoundUpUnits(size);
  }

  lemma NoSmallerCover(remaining: nat, i: nat)
    requires i <= TOP && forall j :: i < j <= TOP ==> ClassSize(j) < remaining
    ensures forall c :: LegalClass(c) && remaining <= c ==> ClassSize(i) <= c
    ensures i == 0 ==> forall c :: LegalClass(c) && remaining <= c ==> c == 16 * UNIT
  {
    assert i < 4 ==> ClassSize(4) < remaining;
    assert i < 3 ==> ClassSize(3) < remaining;
    assert i < 2 ==> ClassSize(2) < remaining;
    assert i < 1 ==> ClassSize(1) < remaining;
  }

  /** The smallest class that covers what is left over. */
  method SmallestCover(remaining: nat) returns (best: nat)
    ensures LegalClass(best)
    ensures remaining <= 16 * UNIT ==> remaining <= best
    ensures forall c :: LegalClass(c) && remaining <= c ==> best <= c
  {
    best := UNIT;
    var i: int := TOP;
    while i >= 0
      invariant -1 <= i <= TOP && best == UNIT
      invariant forall j: nat :: i < j <= TOP ==> ClassSize(j) < remaining
    {
      NoSmallerCover(remaining, i);
      if ClassSize(i) >= remaining {
        best := ClassSize(i);
        break;
      }
      i := i - 1;
    }
    assert i < 0 ==> ClassSize(0) < remaining;
  }
}
