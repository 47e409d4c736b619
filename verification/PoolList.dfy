/** Free lists of the memory pool (vmr.c): address-sorted, coalescing areas whose links and
    sizes are 16-bit words inside one flat byte array. */
module PoolList {
  import opened Bytes

  /** An area of the pool. */
  datatype Area = Area(addr: nat, size: nat)

  predicate In(b: Area, a: nat)
  {
    b.addr <= a < b.addr + b.size
  }

  /** Address a belongs to an area of the list. */
  predicate Covers(list: seq<Area>, a: nat)
  {
    exists k: nat :: k < |list| && In(list[k], a)
  }

  predicate AreaOk(b: Area, lo: nat, hi: nat)
  {
    b.size > 0 && b.addr % 4 == 0 && b.size % 4 == 0 && lo <= b.addr && b.addr + b.size <= hi
  }

  /** Sorted by address and disjoint. */
  predicate Ordered(list: seq<Area>, lo: nat, hi: nat)
  {
    && (forall k: nat :: k < |list| ==> AreaOk(list[k], lo, hi))
    && forall j: nat, k: nat :: j < k < |list| ==> list[j].addr + list[j].size <= list[k].addr
  }

  /** ... and no area touches the next one. */
  predicate Coalesced(list: seq<Area>, lo: nat, hi: nat)
  {
    && Ordered(list, lo, hi)
    && forall j: nat, k: nat :: j < k < |list| ==> list[j].addr + list[j].size < list[k].addr
  }

  function Total(list: seq<Area>): nat
  {
    if list == [] then 0 else list[0].size + Total(list[1..])
  }

  lemma {:induction false} TotalAppend(a: seq<Area>, b: seq<Area>)
    ensures Total(a + b) == Total(a) + Total(b)
  {
    if a == [] {
      assert a + b == b;
    } else {
      assert (a + b)[1..] == a[1..] + b;
      TotalAppend(a[1..], b);
    }
  }

  // ---------------------------------------------------------------
  // Canonical form
  // ---------------------------------------------------------------

  lemma FirstCovered(list: seq<Area>, lo: nat, hi: nat, a: nat)
    requires Ordered(list, lo, hi) && Covers(list, a)
    ensures list != [] && list[0].addr <= a
  {
    var k: nat :| k < |list| && In(list[k], a);
    assert k > 0 ==> list[0].addr + list[0].size <= list[k].addr;
  }

  lemma TailCovers(list: seq<Area>, lo: nat, hi: nat, a: nat)
    requires Ordered(list, lo, hi) && list != []
    ensures Covers(list[1..], a) <==> Covers(list, a) && a >= list[0].addr + list[0].size
  {
    if Covers(list[1..], a) {
      var k: nat :| k < |list[1..]| && In(list[1..][k], a);
      assert In(list[k + 1], a);
    }
    if Covers(list, a) && a >= list[0].addr + list[0].size {
      var k: nat :| k < |list| && In(list[k], a);
      assert In(list[1..][k - 1], a);
    }
  }

  /** A coalesced list ends its first area where the first gap begins. */
  lemma FirstGap(list: seq<Area>, lo: nat, hi: nat)
    requires Coalesced(list, lo, hi) && list != []
    ensures !Covers(list, list[0].addr + list[0].size)
    ensures forall a: nat :: In(list[0], a) ==> Covers(list, a)
  {
    forall k: nat | k < |list| ensures !In(list[k], list[0].addr + list[0].size) {
    }
  }

  /** A coalesced list is determined by the addresses that it covers. */
  lemma {:induction false} CanonicalForm(p: seq<Area>, q: seq<Area>, lo: nat, hi: nat)
    requires Coalesced(p, lo, hi) && Coalesced(q, lo, hi)
    requires forall a: nat :: Covers(p, a) <==> Covers(q, a)
    ensures p == q
  {
    if p == [] || q == [] {
      if p != [] { FirstGap(p, lo, hi); assert In(p[0], p[0].addr); FirstCovered(q, lo, hi, p[0].addr); }
      if q != [] { FirstGap(q, lo, hi); assert In(q[0], q[0].addr); FirstCovered(p, lo, hi, q[0].addr); }
    } else {
      FirstGap(p, lo, hi);
      FirstGap(q, lo, hi);
      assert In(p[0], p[0].addr) && In(q[0], q[0].addr);
      FirstCovered(q, lo, hi, p[0].addr);
      FirstCovered(p, lo, hi, q[0].addr);
      var e, f := p[0].addr + p[0].size, q[0].addr + q[0].size;
      assert !Covers(p, e) && !Covers(q, f);
      assert !In(q[0], e) && !In(p[0], f);
      forall a: nat ensures Covers(p[1..], a) <==> Covers(q[1..], a) {
        TailCovers(p, lo, hi, a);
        TailCovers(q, lo, hi, a);
      }
      CanonicalForm(p[1..], q[1..], lo, hi);
    }
  }

  // ---------------------------------------------------------------
  // Taking, inserting and merging areas
  // ---------------------------------------------------------------

  ghost predicate SpliceKey(k: int)
  {
    true
  }

  /** r is list with area k replaced by the areas of mid, of which there are at most two, and
      gone areas dropped: areas before k stay, those from k + gone on follow mid. */
  ghost predicate Spliced(list: seq<Area>, k: nat, gone: nat, mid: seq<Area>, r: seq<Area>)
  {
    && k + gone <= |list| && |r| + gone == |list| + |mid|
    && forall key {:trigger SpliceKey(key)} :: Folded(key) ==>
    && (forall j: nat :: j < k ==> r[j] == list[j])
    && (forall j: nat :: j < |mid| ==> r[k + j] == mid[j])
    && (forall j: nat :: k + |mid| <= j < |r| ==> r[j] == list[j + gone - |mid|])
  }

  function Splice(list: seq<Area>, k: nat, gone: nat, mid: seq<Area>): seq<Area>
    requires k + gone <= |list|
  {
    list[..k] + mid + list[k + gone..]
  }

  lemma {:induction false} SpliceIsSpliced(list: seq<Area>, k: nat, gone: nat, mid: seq<Area>)
    requires k + gone <= |list|
    ensures Spliced(list, k, gone, mid, Splice(list, k, gone, mid))
    ensures Total(Splice(list, k, gone, mid)) + Total(list[k..k + gone]) == Total(list) + Total(mid)
  {
    TotalAppend(list[..k] + mid, list[k + gone..]);
    TotalAppend(list[..k], mid);
    TotalAppend(list[..k] + list[k..k + gone], list[k + gone..]);
    TotalAppend(list[..k], list[k..k + gone]);
    assert list[..k] + list[k..k + gone] == list[..k + gone];
    assert list == list[..k + gone] + list[k + gone..];
  }

  /** The addresses of the areas that were dropped give way to those of mid. */
  lemma SplicedCovers(list: seq<Area>, k: nat, gone: nat, mid: seq<Area>, r: seq<Area>, a: nat)
    requires Spliced(list, k, gone, mid, r)
    ensures Covers(r, a) ==> Covers(list, a) || Covers(mid, a)
    ensures Covers(mid, a) ==> Covers(r, a)
    ensures Covers(list, a) && (forall j: nat :: k <= j < k + gone ==> !In(list[j], a)) ==> Covers(r, a)
  {
    assert SpliceKey(0);
    if Covers(r, a) {
      var j: nat :| j < |r| && In(r[j], a);
      if j < k { assert In(list[j], a); }
      else if j < k + |mid| { assert r[k + (j - k)] == mid[j - k]; assert In(mid[j - k], a); }
      else { assert In(list[j + gone - |mid|], a); }
    }
    if Covers(mid, a) {
      var j: nat :| j < |mid| && In(mid[j], a);
      assert In(r[k + j], a);
    }
    if Covers(list, a) && forall j: nat :: k <= j < k + gone ==> !In(list[j], a) {
      var j: nat :| j < |list| && In(list[j], a);
      if j < k { assert In(r[j], a); } else { assert In(r[j + |mid| - gone], a); }
    }
  }

  /** Order is kept when mid is in order and lies between its neighbours. */
  lemma SplicedOrdered(list: seq<Area>, lo: nat, hi: nat, k: nat, gone: nat, mid: seq<Area>, r: seq<Area>)
    requires Ordered(list, lo, hi) && Ordered(mid, lo, hi) && Spliced(list, k, gone, mid, r)
    requires forall i: nat, j: nat :: i < k && j < |mid| ==> list[i].addr + list[i].size <= mid[j].addr
    requires forall i: nat, j: nat :: k + gone <= i < |list| && j < |mid| ==> mid[j].addr + mid[j].size <= list[i].addr
    ensures Ordered(r, lo, hi)
  {
    assert SpliceKey(0);
    forall j: nat | k <= j < k + |mid| ensures r[j] == mid[j - k] {
      assert r[k + (j - k)] == mid[j - k];
    }
  }

  lemma SplicedCoalesced(list: seq<Area>, lo: nat, hi: nat, k: nat, gone: nat, mid: seq<Area>, r: seq<Area>)
    requires Coalesced(list, lo, hi) && Coalesced(mid, lo, hi) && Spliced(list, k, gone, mid, r)
    requires forall i: nat, j: nat :: i < k && j < |mid| ==> list[i].addr + list[i].size < mid[j].addr
    requires forall i: nat, j: nat :: k + gone <= i < |list| && j < |mid| ==> mid[j].addr + mid[j].size < list[i].addr
    ensures Coalesced(r, lo, hi)
  {
    assert SpliceKey(0);
    forall j: nat | k <= j < k + |mid| ensures r[j] == mid[j - k] {
      assert r[k + (j - k)] == mid[j - k];
    }
  }

  /** What remains of area b without its first n bytes. */
  function Rest(b: Area, n: nat): seq<Area>
    requires n <= b.size
  {
    if n == b.size then [] else [Area(b.addr + n, b.size - n)]
  }

  lemma RestCovers(b: Area, n: nat, a: nat)
    requires n <= b.size
    ensures Covers(Rest(b, n), a) <==> In(b, a) && !In(Area(b.addr, n), a)
  {
    if n < b.size { assert In(Rest(b, n)[0], a) <==> In(b, a) && !In(Area(b.addr, n), a); }
  }

  /** An address of area k belongs to no other area. */
  lemma OneArea(list: seq<Area>, lo: nat, hi: nat, k: nat, r: seq<Area>, mid: seq<Area>, a: nat)
    requires Ordered(list, lo, hi) && k < |list| && In(list[k], a) && Spliced(list, k, 1, mid, r)
    requires Covers(r, a)
    ensures Covers(mid, a)
  {
    assert SpliceKey(0);
    var j: nat :| j < |r| && In(r[j], a);
    assert r[k + (j - k)] == mid[j - k];
  }

  lemma TakenOrdered(list: seq<Area>, lo: nat, hi: nat, k: nat, n: nat, r: seq<Area>)
    requires Coalesced(list, lo, hi) && k < |list| && 0 < n <= list[k].size && n % 4 == 0
    requires Spliced(list, k, 1, Rest(list[k], n), r)
    ensures Coalesced(r, lo, hi)
  {
    SplicedCoalesced(list, lo, hi, k, 1, Rest(list[k], n), r);
  }

  /** Taking n bytes from the front of area k removes exactly these addresses. */
  lemma TakenCovers(list: seq<Area>, lo: nat, hi: nat, k: nat, n: nat, r: seq<Area>)
    requires Coalesced(list, lo, hi) && k < |list| && 0 < n <= list[k].size
    requires Spliced(list, k, 1, Rest(list[k], n), r)
    ensures forall a: nat :: Covers(r, a) <==> Covers(list, a) && !In(Area(list[k].addr, n), a)
  {
    forall a: nat ensures Covers(r, a) <==> Covers(list, a) && !In(Area(list[k].addr, n), a) {
      SplicedCovers(list, k, 1, Rest(list[k], n), r, a);
      RestCovers(list[k], n, a);
      if In(list[k], a) && Covers(r, a) { OneArea(list, lo, hi, k, r, Rest(list[k], n), a); }
    }
  }

  lemma InsertedOrdered(list: seq<Area>, lo: nat, hi: nat, k: nat, b: Area, r: seq<Area>)
    requires Ordered(list, lo, hi) && AreaOk(b, lo, hi) && Spliced(list, k, 0, [b], r)
    requires k > 0 ==> list[k - 1].addr + list[k - 1].size <= b.addr
    requires k < |list| ==> b.addr + b.size <= list[k].addr
    ensures Ordered(r, lo, hi) && r[k] == b
  {
    SplicedOrdered(list, lo, hi, k, 0, [b], r);
    assert SpliceKey(0);
    assert r[k + 0] == [b][0];
  }

  lemma InsertedCovers(list: seq<Area>, k: nat, b: Area, r: seq<Area>)
    requires Spliced(list, k, 0, [b], r)
    ensures forall a: nat :: Covers(r, a) <==> Covers(list, a) || In(b, a)
  {
    forall a: nat ensures Covers(r, a) <==> Covers(list, a) || In(b, a) {
      SplicedCovers(list, k, 0, [b], r, a);
      assert Covers([b], a) <==> In([b][0], a);
    }
  }

  predicate Touches(list: seq<Area>, k: nat)
  {
    k + 1 < |list| && list[k].addr + list[k].size == list[k + 1].addr
  }

  function Joined(list: seq<Area>, k: nat): seq<Area>
    requires k + 1 < |list|
  {
    [Area(list[k].addr, list[k].size + list[k + 1].size)]
  }

  lemma MergedOrdered(list: seq<Area>, lo: nat, hi: nat, k: nat, r: seq<Area>)
    requires Ordered(list, lo, hi) && Touches(list, k) && Spliced(list, k, 2, Joined(list, k), r)
    ensures Ordered(r, lo, hi) && r[k] == Joined(list, k)[0]
  {
    SplicedOrdered(list, lo, hi, k, 2, Joined(list, k), r);
    assert SpliceKey(0);
    assert r[k + 0] == Joined(list, k)[0];
  }

  lemma MergedCovers(list: seq<Area>, k: nat, r: seq<Area>)
    requires Touches(list, k) && Spliced(list, k, 2, Joined(list, k), r)
    ensures forall a: nat :: Covers(r, a) <==> Covers(list, a)
  {
    forall a: nat ensures Covers(r, a) <==> Covers(list, a) {
      SplicedCovers(list, k, 2, Joined(list, k), r, a);
      assert Covers(Joined(list, k), a) <==> In(Joined(list, k)[0], a);
      assert In(list[k], a) || In(list[k + 1], a) ==> Covers(list, a);
    }
  }

  // ---------------------------------------------------------------
  // Gaps
  // ---------------------------------------------------------------

  /** Area p, if there is a next one, does not touch it. */
  predicate Gap(list: seq<Area>, p: nat)
  {
    p + 1 < |list| ==> list[p].addr + list[p].size < list[p + 1].addr
  }

  lemma AllGaps(list: seq<Area>, lo: nat, hi: nat)
    requires Ordered(list, lo, hi) && forall p: nat :: Gap(list, p)
    ensures Coalesced(list, lo, hi)
  {
    forall j: nat, k: nat | j < k < |list| ensures list[j].addr + list[j].size < list[k].addr {
      assert Gap(list, j);
      assert j + 1 < k ==> list[j + 1].addr + list[j + 1].size <= list[k].addr;
    }
  }

  lemma InsertedGap(list: seq<Area>, k: nat, b: Area, r: seq<Area>, p: nat)
    requires Spliced(list, k, 0, [b], r) && p != k && p + 1 != k
    requires if p < k then Gap(list, p) else Gap(list, p - 1)
    ensures Gap(r, p)
  {
    assert SpliceKey(0);
  }

  lemma MergedGap(list: seq<Area>, k: nat, r: seq<Area>, p: nat)
    requires Touches(list, k) && Spliced(list, k, 2, Joined(list, k), r)
    requires if p < k then Gap(list, p) else Gap(list, p + 1)
    ensures Gap(r, p)
  {
    assert SpliceKey(0);
    assert r[k + 0] == Joined(list, k)[0];
  }
}
