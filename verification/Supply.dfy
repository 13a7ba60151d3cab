/** How much of a packing the cached blocks can supply (csrc/physical_memory.cc:73-86 and
    csrc/large_allocator.cc:68-76). */
module Supply {
  import opened Common
  import opened Layout
  import opened Pools

  /** The number of cached blocks of a class. */
  ghost function Cached(large: Buckets, c: nat): nat {
    if c in large then |large[c]| else 0
  }

  /** One cached block of class c less, if there is one. */
  ghost predicate OneDrawn(large: Buckets, c: nat, large': Buckets) {
    forall k: nat {:trigger Cached(large', k)} ::
      Cached(large', k) == Cached(large, k) - if k == c && Cached(large, c) > 0 then 1 else 0
  }

  /** The blocks of the list have been drawn from the buckets, as far as they went. */
  ghost predicate Drawn(large: Buckets, list: seq<nat>, large': Buckets) {
    forall k: nat {:trigger Cached(large', k)} ::
      Cached(large', k) == if multiset(list)[k] <= Cached(large, k) then Cached(large, k) - multiset(list)[k] else 0
  }

  /** Blocks of the sizes in the list have been added to the buckets. */
  ghost predicate Added(large: Buckets, list: seq<nat>, large': Buckets) {
    forall k: nat {:trigger Cached(large', k)} :: Cached(large', k) == Cached(large, k) + multiset(list)[k]
  }

  /** The bytes of the blocks in the list that the buckets cannot supply. */
  ghost function Shortfall(list: seq<nat>, large: Buckets): nat {
    if list == [] then 0
    else
      var c, rest := list[|list| - 1], list[..|list| - 1];
      Shortfall(rest, large) + if multiset(rest)[c] < Cached(large, c) then 0 else c
  }

  lemma Prefix(list: seq<nat>, i: nat)
    requires i < |list|
    ensures list[..i + 1][..i] == list[..i] && multiset(list[..i + 1]) == multiset(list[..i]) + multiset{list[i]}
  {
    assert list[..i + 1] == list[..i] + [list[i]];
  }

  /** One round of the mapping loop draws one block, or is short of one. */
  lemma DrawNext(large: Buckets, list: seq<nat>, i: nat, now: Buckets, next: Buckets)
    requires i < |list| && Drawn(large, list[..i], now) && OneDrawn(now, list[i], next)
    ensures Drawn(large, list[..i + 1], next)
    ensures Shortfall(list[..i + 1], large) == Shortfall(list[..i], large) + if Cached(now, list[i]) > 0 then 0 else list[i]
  {
    Prefix(list, i);
    assert Cached(now, list[i]) > 0 <==> multiset(list[..i])[list[i]] < Cached(large, list[i]);
    forall k: nat
      ensures Cached(next, k) == if multiset(list[..i + 1])[k] <= Cached(large, k)
                                 then Cached(large, k) - multiset(list[..i + 1])[k] else 0
    {
      assert Cached(next, k) == Cached(now, k) - if k == list[i] && Cached(now, list[i]) > 0 then 1 else 0;
    }
  }

  lemma DrawNone(large: Buckets)
    ensures Drawn(large, [], large) && Shortfall([], large) == 0
  {
  }

  lemma {:induction false} ShortfallGrows(list: seq<nat>, i: nat, large: Buckets)
    requires i <= |list|
    ensures Shortfall(list[..i], large) <= Shortfall(list, large)
    decreases |list| - i
  {
    if i < |list| {
      Prefix(list, i);
      ShortfallGrows(list, i + 1, large);
    } else {
      assert list[..i] == list;
    }
  }

  /** More cached blocks never make the shortfall larger. */
  lemma {:induction false} MoreSupply(list: seq<nat>, large: Buckets, more: Buckets)
    requires forall k: nat :: Cached(large, k) <= Cached(more, k)
    ensures Shortfall(list, more) <= Shortfall(list, large)
  {
    if list != [] {
      MoreSupply(list[..|list| - 1], large, more);
    }
  }

  ghost predicate Supplied(list: seq<nat>, large: Buckets) {
    forall k: nat {:trigger Cached(large, k)} :: multiset(list)[k] <= Cached(large, k)
  }

  lemma SuppliedLast(rest: seq<nat>, c: nat, list: seq<nat>, large: Buckets)
    requires list == rest + [c]
    ensures Supplied(list, large) <==> Supplied(rest, large) && multiset(rest)[c] < Cached(large, c)
  {
    assert multiset(list) == multiset(rest) + multiset{c};
    if Supplied(list, large) {
      forall k: nat {:trigger Cached(large, k)}
        ensures multiset(rest)[k] <= Cached(large, k)
      {
        assert multiset(list)[k] <= Cached(large, k);
      }
      assert multiset(list)[c] <= Cached(large, c);
    }
  }

  /** There is no shortfall exactly when every class is cached often enough. */
  lemma {:induction false} FullSupply(list: seq<nat>, large: Buckets)
    requires forall i :: 0 <= i < |list| ==> list[i] > 0
    ensures Shortfall(list, large) == 0 <==> Supplied(list, large)
  {
    if list != [] {
      var n := |list| - 1;
      FullSupply(list[..n], large);
      SuppliedLast(list[..n], list[n], list, large);
    }
  }

  /** At worst nothing is cached. */
  lemma {:induction false} ShortfallAtMost(list: seq<nat>, large: Buckets)
    ensures Shortfall(list, large) <= SumOf(list)
  {
    if list != [] {
      ShortfallAtMost(list[..|list| - 1], large);
    }
  }

  ghost function Sizes(blocks: seq<PhysicalBlock>): seq<nat> {
    seq(|blocks|, i requires 0 <= i < |blocks| => blocks[i].size)
  }

  lemma AddMore(large: Buckets, a: seq<nat>, now: Buckets, b: seq<nat>, next: Buckets)
    requires Added(large, a, now) && Added(now, b, next)
    ensures Added(large, a + b, next)
  {
    assert multiset(a + b) == multiset(a) + multiset(b);
  }

  lemma AddNext(large: Buckets, list: seq<nat>, i: nat, now: Buckets, next: Buckets)
    requires i < |list| && Added(large, list[..i], now) && Added(now, [list[i]], next)
    ensures Added(large, list[..i + 1], next)
  {
    AddMore(large, list[..i], now, [list[i]], next);
    assert list[..i + 1] == list[..i] + [list[i]];
  }

  lemma AnySupply(large: Buckets, added: seq<nat>, now: Buckets, list: seq<nat>)
    requires Added(large, added, now)
    ensures forall other {:trigger Added(large, added, other)} :: Added(large, added, other) ==> Shortfall(list, other) == Shortfall(list, now)
  {
    forall other {:trigger Added(large, added, other)} | Added(large, added, other)
      ensures Shortfall(list, other) == Shortfall(list, now)
    {
      SameSupply(large, added, other, now, list);
    }
  }

  /** Only the number of blocks in each bucket matters. */
  lemma {:induction false} SameSupply(large: Buckets, added: seq<nat>, a: Buckets, b: Buckets, list: seq<nat>)
    requires Added(large, added, a) && Added(large, added, b)
    ensures Shortfall(list, a) == Shortfall(list, b)
  {
    forall k: nat
      ensures Cached(a, k) == Cached(b, k)
    {
    }
    MoreSupply(list, a, b);
    MoreSupply(list, b, a);
  }

}
