/** The pool over whole runs of allocations and frees. */
module PoolRuns {
  import opened PoolList
  import opened Pool

  /** The free list, and the areas handed out and not yet returned. */
  datatype PoolState = PoolState(free: seq<Area>, live: seq<Area>)

  /** Every byte of the pool is free or belongs to exactly one live area. */
  ghost predicate Partition(s: PoolState, lo: nat, hi: nat)
  {
    && Coalesced(s.free, lo, hi)
    && (forall k: nat :: k < |s.live| ==> AreaOk(s.live[k], lo, hi))
    && (forall a: nat {:trigger Covers(s.free, a)} :: lo <= a < hi ==> (Covers(s.free, a) <==> !Covers(s.live, a)))
    && (forall j: nat, k: nat, a: nat {:trigger In(s.live[j], a), In(s.live[k], a)} ::
          j < k < |s.live| ==> !(In(s.live[j], a) && In(s.live[k], a)))
    && Total(s.free) + Total(s.live) == hi - lo
  }

  /** What a successful pool_alloc establishes. */
  ghost predicate AllocStep(s: PoolState, b: Area, t: PoolState, lo: nat, hi: nat)
  {
    && AreaOk(b, lo, hi) && (forall a: nat :: In(b, a) ==> Covers(s.free, a))
    && Coalesced(t.free, lo, hi) && Total(t.free) + b.size == Total(s.free)
    && (forall a: nat :: Covers(t.free, a) <==> Covers(s.free, a) && !In(b, a))
    && t.live == s.live + [b]
  }

  /** What pool_free of live area k establishes. */
  ghost predicate FreeStep(s: PoolState, k: nat, t: PoolState, lo: nat, hi: nat)
  {
    && k < |s.live|
    && Coalesced(t.free, lo, hi) && Total(t.free) == Total(s.free) + s.live[k].size
    && (forall a: nat :: Covers(t.free, a) <==> Covers(s.free, a) || In(s.live[k], a))
    && t.live == s.live[..k] + s.live[k + 1..]
  }

  lemma LiveWith(live: seq<Area>, b: Area, a: nat)
    ensures Covers(live + [b], a) <==> Covers(live, a) || In(b, a)
  {
    var r := live + [b];
    if Covers(r, a) {
      var k: nat :| k < |r| && In(r[k], a);
      assert k < |live| ==> In(live[k], a);
    }
    if Covers(live, a) {
      var k: nat :| k < |live| && In(live[k], a);
      assert In(r[k], a);
    }
    if In(b, a) { assert In(r[|live|], a); }
  }

  lemma AllocKeepsPartition(s: PoolState, b: Area, t: PoolState, lo: nat, hi: nat)
    requires Partition(s, lo, hi) && AllocStep(s, b, t, lo, hi)
    ensures Partition(t, lo, hi)
  {
    TotalAppend(s.live, [b]);
    forall a: nat | lo <= a < hi ensures Covers(t.free, a) <==> !Covers(t.live, a) {
      LiveWith(s.live, b, a);
      assert Covers(s.free, a) <==> !Covers(s.live, a);
    }
    forall j: nat, k: nat, a: nat | j < k < |t.live| ensures !(In(t.live[j], a) && In(t.live[k], a)) {
      if In(b, a) { assert Covers(s.free, a); }
      if In(s.live[j], a) { assert Covers(s.live, a); }
    }
  }

  lemma WithoutLive(live: seq<Area>, k: nat, a: nat)
    requires k < |live| && forall j: nat :: j < |live| && j != k ==> !(In(live[j], a) && In(live[k], a))
    ensures Covers(live[..k] + live[k + 1..], a) <==> Covers(live, a) && !In(live[k], a)
  {
    var r := live[..k] + live[k + 1..];
    if Covers(r, a) {
      var j: nat :| j < |r| && In(r[j], a);
      assert In(live[if j < k then j else j + 1], a);
    }
    if Covers(live, a) && !In(live[k], a) {
      var j: nat :| j < |live| && In(live[j], a);
      assert In(r[if j < k then j else j - 1], a);
    }
  }

  lemma FreeKeepsPartition(s: PoolState, k: nat, t: PoolState, lo: nat, hi: nat)
    requires Partition(s, lo, hi) && FreeStep(s, k, t, lo, hi)
    ensures Partition(t, lo, hi)
  {
    var b := s.live[k];
    TotalAppend(s.live[..k] + [b], s.live[k + 1..]);
    TotalAppend(s.live[..k], [b]);
    TotalAppend(s.live[..k], s.live[k + 1..]);
    assert s.live == s.live[..k] + [b] + s.live[k + 1..];
    forall a: nat | lo <= a < hi ensures Covers(t.free, a) <==> !Covers(t.live, a) {
      WithoutLive(s.live, k, a);
      assert Covers(s.free, a) <==> !Covers(s.live, a);
      if In(b, a) { assert Covers(s.live, a); }
    }
    StillApart(s.live, k);
  }

  lemma StillApart(live: seq<Area>, k: nat)
    requires k < |live|
    requires forall i: nat, j: nat, a: nat {:trigger In(live[i], a), In(live[j], a)} :: i < j < |live| ==> !(In(live[i], a) && In(live[j], a))
    ensures var r := live[..k] + live[k + 1..];
      forall i: nat, j: nat, a: nat {:trigger In(r[i], a), In(r[j], a)} :: i < j < |r| ==> !(In(r[i], a) && In(r[j], a))
  {
    var r := live[..k] + live[k + 1..];
    forall i: nat, j: nat, a: nat | i < j < |r| ensures !(In(r[i], a) && In(r[j], a)) {
      var i', j' := if i < k then i else i + 1, if j < k then j else j + 1;
      assert r[i] == live[i'] && r[j] == live[j'];
      assert !(In(live[i'], a) && In(live[j'], a));
    }
  }

  /** No area is live twice. */
  lemma OneLive(s: PoolState, lo: nat, hi: nat, j: nat, k: nat)
    requires Partition(s, lo, hi) && j < |s.live| && k < |s.live| && s.live[j] == s.live[k]
    ensures j == k
  {
    var a := s.live[j].addr;
    assert AreaOk(s.live[j], lo, hi);
    assert In(s.live[j], a) && In(s.live[k], a);
  }

  /** A live area may be freed: none of its bytes is free. */
  lemma LiveIsNotFree(s: PoolState, k: nat, lo: nat, hi: nat)
    requires Partition(s, lo, hi) && k < |s.live|
    ensures AreaOk(s.live[k], lo, hi) && forall a: nat :: In(s.live[k], a) ==> !Covers(s.free, a)
  {
    forall a: nat | In(s.live[k], a) ensures !Covers(s.free, a) {
      assert Covers(s.live, a);
      assert lo <= a < hi ==> (Covers(s.free, a) <==> !Covers(s.live, a));
    }
  }

  // ---------------------------------------------------------------
  // Runs
  // ---------------------------------------------------------------

  datatype PoolEvent = Alloc(area: Area) | Free(index: nat)

  ghost predicate Step(s: PoolState, e: PoolEvent, t: PoolState, lo: nat, hi: nat)
  {
    match e
    case Alloc(b) => AllocStep(s, b, t, lo, hi)
    case Free(k) => FreeStep(s, k, t, lo, hi)
  }

  ghost predicate Run(s: seq<PoolState>, e: seq<PoolEvent>, lo: nat, hi: nat)
  {
    |s| == |e| + 1 && forall k: nat :: k < |e| ==> Step(s[k], e[k], s[k + 1], lo, hi)
  }

  /** The state that pool_init leaves. */
  lemma FreshPartition(lo: nat, hi: nat)
    requires lo < hi && lo % 4 == 0 && hi % 4 == 0
    ensures Partition(PoolState([Area(lo, hi - lo)], []), lo, hi)
  {
    var s := PoolState([Area(lo, hi - lo)], []);
    forall a: nat | lo <= a < hi ensures Covers(s.free, a) <==> !Covers(s.live, a) {
      assert In(s.free[0], a);
    }
    assert Total(s.free[1..]) == 0;
  }

  /** In every state of every run, free and live areas tile the pool, and the sizes add up. */
  lemma {:induction false} RunIsPartition(s: seq<PoolState>, e: seq<PoolEvent>, k: nat, lo: nat, hi: nat)
    requires Run(s, e, lo, hi) && Partition(s[0], lo, hi) && k < |s|
    ensures Partition(s[k], lo, hi)
  {
    if k > 0 {
      RunIsPartition(s, e, k - 1, lo, hi);
      assert Step(s[k - 1], e[k - 1], s[k], lo, hi);
      match e[k - 1]
      case Alloc(b) => AllocKeepsPartition(s[k - 1], b, s[k], lo, hi);
      case Free(i) => FreeKeepsPartition(s[k - 1], i, s[k], lo, hi);
    }
  }

  /** The free list does not depend on history: it is a function of the bytes that are live. */
  lemma HistoryIndependent(s: PoolState, t: PoolState, lo: nat, hi: nat)
    requires Partition(s, lo, hi) && Partition(t, lo, hi)
    requires forall a: nat :: Covers(s.live, a) <==> Covers(t.live, a)
    ensures s.free == t.free
  {
    forall a: nat ensures Covers(s.free, a) <==> Covers(t.free, a) {
      FreeInPool(s, lo, hi, a);
      FreeInPool(t, lo, hi, a);
      assert Covers(s.live, a) <==> Covers(t.live, a);
    }
    CanonicalForm(s.free, t.free, lo, hi);
  }

  lemma FreeInPool(s: PoolState, lo: nat, hi: nat, a: nat)
    requires Partition(s, lo, hi)
    ensures Covers(s.free, a) <==> lo <= a < hi && !Covers(s.live, a)
  {
    if Covers(s.free, a) {
      var k: nat :| k < |s.free| && In(s.free[k], a);
      assert AreaOk(s.free[k], lo, hi);
    }
  }

  /** Freeing what was just allocated restores the very same list. */
  lemma FreeUndoesAlloc(s: PoolState, b: Area, t: PoolState, u: PoolState, lo: nat, hi: nat)
    requires Partition(s, lo, hi) && AllocStep(s, b, t, lo, hi) && FreeStep(t, |s.live|, u, lo, hi)
    ensures u == s
  {
    AllocKeepsPartition(s, b, t, lo, hi);
    FreeKeepsPartition(t, |s.live|, u, lo, hi);
    assert u.live == s.live;
    HistoryIndependent(s, u, lo, hi);
  }

  /** The order of two frees does not matter. */
  lemma FreesCommute(s: PoolState, j: nat, k: nat, t: PoolState, u: PoolState, t': PoolState, u': PoolState, lo: nat, hi: nat)
    requires Partition(s, lo, hi) && j < k
    requires FreeStep(s, j, t, lo, hi) && FreeStep(t, k - 1, u, lo, hi)
    requires FreeStep(s, k, t', lo, hi) && FreeStep(t', j, u', lo, hi)
    ensures u == u'
  {
    FreeKeepsPartition(s, j, t, lo, hi);
    FreeKeepsPartition(t, k - 1, u, lo, hi);
    FreeKeepsPartition(s, k, t', lo, hi);
    FreeKeepsPartition(t', j, u', lo, hi);
    assert u.live == u'.live;
    HistoryIndependent(u, u', lo, hi);
  }

  // ---------------------------------------------------------------
  // The operations as steps
  // ---------------------------------------------------------------

  /** The bytes of a live area are neither in the list head nor free, before or after. */
  lemma LiveIsOutside(s: PoolState, head: nat, lo: nat, hi: nat, k: nat)
    requires Partition(s, lo, hi) && k < |s.live| && Placed(head, lo, hi)
    ensures forall a: nat :: In(s.live[k], a) ==> a < IMAGE_SIZE && Outside(head, s.free, a)
  {
    LiveIsNotFree(s, k, lo, hi);
  }

  lemma TidyIsCoalesced(list: seq<Area>, lo: nat, hi: nat)
    ensures Tidy(list, lo, hi) <==> Coalesced(list, lo, hi)
  {
    assert StoreKey(0);
  }

  /** pool_alloc as a step: no byte of a live area is touched. */
  method AllocLive(p: SystemImage, size: nat, ghost live: seq<Area>) returns (addr: nat, ghost live': seq<Area>)
    requires p.Valid() && size < 0x1_0000 && Partition(PoolState(p.list, live), p.lo, p.hi)
    modifies p.image, p`list
    ensures p.Valid() && Partition(PoolState(p.list, live'), p.lo, p.hi)
    ensures if addr > 0 then
        Step(PoolState(old(p.list), live), Alloc(Area(addr, Round(size))), PoolState(p.list, live'), p.lo, p.hi)
      else
        p.list == old(p.list) && live' == live && p.image[..] == old(p.image[..])
    ensures addr > 0 ==> live' == live + [Area(addr, Round(size))]
    ensures addr == 0 <==> Round(size) == 0 || forall b :: b in old(p.list) ==> b.size < Round(size)
    ensures forall k: nat, a: nat {:trigger In(live[k], a)} :: k < |live| && In(live[k], a) ==> a < IMAGE_SIZE && p.image[a] == old(p.image[a])
    ensures forall a: nat :: a < IMAGE_SIZE && Outside(p.head, old(p.list), a) ==> p.image[a] == old(p.image[a])
  {
    ghost var s := PoolState(p.list, live);
    forall k: nat, a: nat | k < |live| && In(live[k], a) ensures a < IMAGE_SIZE && Outside(p.head, p.list, a) {
      LiveIsOutside(s, p.head, p.lo, p.hi, k);
    }
    addr := p.PoolAlloc(size);
    live' := live;
    if addr > 0 {
      live' := live + [Area(addr, Round(size))];
      TidyIsCoalesced(p.list, p.lo, p.hi);
      AllocKeepsPartition(s, Area(addr, Round(size)), PoolState(p.list, live'), p.lo, p.hi);
    }
  }

  /** pool_free of a live area as a step: no byte of another live area is touched. */
  method FreeLive(p: SystemImage, addr: nat, size: nat, ghost k: nat, ghost live: seq<Area>) returns (ghost live': seq<Area>)
    requires p.Valid() && size < 0x1_0000 && Partition(PoolState(p.list, live), p.lo, p.hi)
    requires k < |live| && live[k] == Area(addr, Round(size))
    modifies p.image, p`list
    ensures p.Valid() && Partition(PoolState(p.list, live'), p.lo, p.hi)
    ensures Step(PoolState(old(p.list), live), Free(k), PoolState(p.list, live'), p.lo, p.hi)
    ensures live' == live[..k] + live[k + 1..]
    ensures forall j: nat, a: nat {:trigger In(live'[j], a)} :: j < |live'| && In(live'[j], a) ==> a < IMAGE_SIZE && p.image[a] == old(p.image[a])
    ensures forall a: nat :: a < IMAGE_SIZE && Outside(p.head, p.list, a) ==> p.image[a] == old(p.image[a])
  {
    ghost var s := PoolState(p.list, live);
    LiveIsNotFree(s, k, p.lo, p.hi);
    p.PoolFree(addr, size);
    live' := live[..k] + live[k + 1..];
    ghost var t := PoolState(p.list, live');
    TidyIsCoalesced(p.list, p.lo, p.hi);
    FreeKeepsPartition(s, k, t, p.lo, p.hi);
    forall j: nat, a: nat | j < |live'| && In(live'[j], a) ensures a < IMAGE_SIZE && Outside(p.head, p.list, a) {
      LiveIsOutside(t, p.head, p.lo, p.hi, j);
    }
  }
}
