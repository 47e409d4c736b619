/** pool_init, pool_alloc, pool_free and pool_avail of vmr.c on the system image. */
module Pool {
  import opened Bytes
  import opened PoolList

  const IMAGE_SIZE: nat := 131072
  /** The end of the pool: 0xf000. */
  const POOL_END: nat := 0xF000

  // ---------------------------------------------------------------
  // The list in the image
  // ---------------------------------------------------------------

  /** The address of area k, or 0 behind the last area. */
  function AddrAt(list: seq<Area>, k: nat): nat
  {
    if k < |list| then list[k].addr else 0
  }

  /** Where the pointer to area k is kept: at the list head, or in the area before. */
  function LinkAt(head: nat, list: seq<Area>, k: nat): nat
  {
    if 0 < k <= |list| then list[k - 1].addr else head
  }

  /** The pool [lo, hi) and the list head lie apart, within the first 64K of the image. */
  predicate Placed(head: nat, lo: nat, hi: nat)
  {
    0 < lo <= hi < 0x1_0000 && lo % 4 == 0 && hi % 4 == 0 && head + 2 <= 0x1_0000 && (head + 2 <= lo || hi <= head)
  }

  /** Two words do not overlap. */
  predicate Apart(a: nat, b: nat)
  {
    a + 2 <= b || b + 2 <= a
  }

  ghost predicate StoreKey(k: int)
  {
    true
  }

  /** The links and sizes in the image form the list. */
  ghost predicate Stores(img: seq<byte>, head: nat, lo: nat, hi: nat, list: seq<Area>)
  {
    && |img| == IMAGE_SIZE && Placed(head, lo, hi)
    && Listed(list, lo, hi)
    && forall key {:trigger StoreKey(key)} :: Folded(key) ==>
    && (forall k: nat :: k <= |list| ==> LinkAt(head, list, k) < 0x1_0000 && Get16(img, LinkAt(head, list, k)) == AddrAt(list, k))
    && (forall k: nat :: k < |list| ==> list[k].addr < 0x1_0000 && Get16(img, list[k].addr + 2) == list[k].size)
  }

  /** The list is in order. */
  ghost predicate Listed(list: seq<Area>, lo: nat, hi: nat)
  {
    forall key {:trigger StoreKey(key)} :: Folded(key) ==> Ordered(list, lo, hi)
  }

  /** The list is in canonical form. */
  ghost predicate Tidy(list: seq<Area>, lo: nat, hi: nat)
  {
    forall key {:trigger StoreKey(key)} :: Folded(key) ==> Coalesced(list, lo, hi)
  }

  /** Only the word at p and the headers of the areas in mid were written. */
  ghost predicate Rewrote(img: seq<byte>, img': seq<byte>, p: nat, mid: seq<Area>)
  {
    && |img'| == |img|
    && forall key {:trigger StoreKey(key)} :: Folded(key) ==>
    forall a: nat :: a < |img| && !(p <= a < p + 2) && (forall j: nat :: j < |mid| ==> !(mid[j].addr <= a < mid[j].addr + 4)) ==> img'[a] == img[a]
  }

  /** After the pointer to area k and the headers of new areas have been written, the image
      holds the spliced list. */
  lemma StoredSplice(img: seq<byte>, img': seq<byte>, head: nat, lo: nat, hi: nat, list: seq<Area>, k: nat, gone: nat, mid: seq<Area>, r: seq<Area>)
    requires Stores(img, head, lo, hi, list) && Spliced(list, k, gone, mid, r) && Listed(r, lo, hi)
    requires Rewrote(img, img', LinkAt(head, list, k), mid) && LinkAt(head, list, k) < 0x1_0000
    requires Get16(img', LinkAt(head, list, k)) == AddrAt(r, k)
    requires forall j: nat :: j < |mid| ==> mid[j].addr < 0x1_0000 && Get16(img', mid[j].addr) == AddrAt(r, k + j + 1) && Get16(img', mid[j].addr + 2) == mid[j].size
    ensures Stores(img', head, lo, hi, r)
  {
    assert StoreKey(0);
    forall j: nat | j <= |r| ensures LinkAt(head, r, j) < 0x1_0000 && Get16(img', LinkAt(head, r, j)) == AddrAt(r, j) {
      SplicedLink(img, img', head, lo, hi, list, k, gone, mid, r, j);
    }
    forall j: nat | j < |r| ensures r[j].addr < 0x1_0000 && Get16(img', r[j].addr + 2) == r[j].size {
      SplicedSize(img, img', head, lo, hi, list, k, gone, mid, r, j);
    }
  }

  lemma KeptWord(img: seq<byte>, img': seq<byte>, p: nat, mid: seq<Area>, w: nat)
    requires Rewrote(img, img', p, mid) && w + 2 <= |img| && (w + 2 <= p || p + 2 <= w)
    requires forall m: nat :: m < |mid| ==> w + 2 <= mid[m].addr || mid[m].addr + 4 <= w
    ensures Get16(img', w) == Get16(img, w)
  {
    assert StoreKey(0);
  }

  lemma LinksApart(head: nat, lo: nat, hi: nat, list: seq<Area>, j: nat, k: nat)
    requires Placed(head, lo, hi) && Ordered(list, lo, hi) && j <= |list| && k <= |list| && j != k
    ensures var a, b := LinkAt(head, list, j), LinkAt(head, list, k);
      a + 2 <= b || b + 2 <= a
    ensures k > 0 ==> LinkAt(head, list, j) + 2 <= list[k - 1].addr || list[k - 1].addr + 4 <= LinkAt(head, list, j)
  {
  }

  /** Which link of the old list an untouched link of the new one is. */
  lemma SameLink(head: nat, list: seq<Area>, k: nat, gone: nat, mid: seq<Area>, r: seq<Area>, j: nat)
    requires Spliced(list, k, gone, mid, r) && j <= |r| && (j < k || j > k + |mid|)
    ensures var i := if j < k then j else j + gone - |mid|;
      LinkAt(head, r, j) == LinkAt(head, list, i) && AddrAt(r, j) == AddrAt(list, i)
  {
    assert SpliceKey(0);
  }

  lemma SplicedAt(list: seq<Area>, k: nat, gone: nat, mid: seq<Area>, r: seq<Area>)
    requires Spliced(list, k, gone, mid, r)
    ensures forall m: nat :: m < |mid| ==> r[k + m] == mid[m]
    ensures forall head: nat {:trigger LinkAt(head, r, k)} :: LinkAt(head, r, k) == LinkAt(head, list, k)
  {
    assert SpliceKey(0);
  }

  lemma OtherLink(img: seq<byte>, img': seq<byte>, head: nat, lo: nat, hi: nat, list: seq<Area>, k: nat, gone: nat, mid: seq<Area>, r: seq<Area>, j: nat)
    requires Stores(img, head, lo, hi, list) && Spliced(list, k, gone, mid, r) && Listed(r, lo, hi)
    requires Rewrote(img, img', LinkAt(head, list, k), mid)
    requires j <= |r| && (j < k || j > k + |mid|)
    ensures LinkAt(head, r, j) < 0x1_0000 && Get16(img', LinkAt(head, r, j)) == AddrAt(r, j)
  {
    assert Ordered(r, lo, hi) by { assert StoreKey(0); }
    var i, w := if j < k then j else j + gone - |mid|, LinkAt(head, r, j);
    SameLink(head, list, k, gone, mid, r, j);
    assert w < 0x1_0000 && Get16(img, w) == AddrAt(r, j) by {
      assert StoreKey(0);
      assert w == LinkAt(head, list, i);
    }
    SplicedAt(list, k, gone, mid, r);
    assert LinkAt(head, r, k) == LinkAt(head, list, k);
    LinksApart(head, lo, hi, r, j, k);
    forall m: nat | m < |mid| ensures w + 2 <= mid[m].addr || mid[m].addr + 4 <= w {
      LinksApart(head, lo, hi, r, j, k + m + 1);
    }
    KeptWord(img, img', LinkAt(head, list, k), mid, w);
  }

  lemma SplicedLink(img: seq<byte>, img': seq<byte>, head: nat, lo: nat, hi: nat, list: seq<Area>, k: nat, gone: nat, mid: seq<Area>, r: seq<Area>, j: nat)
    requires Stores(img, head, lo, hi, list) && Spliced(list, k, gone, mid, r) && Listed(r, lo, hi)
    requires Rewrote(img, img', LinkAt(head, list, k), mid) && LinkAt(head, list, k) < 0x1_0000
    requires Get16(img', LinkAt(head, list, k)) == AddrAt(r, k)
    requires forall j: nat :: j < |mid| ==> mid[j].addr < 0x1_0000 && Get16(img', mid[j].addr) == AddrAt(r, k + j + 1)
    requires j <= |r|
    ensures LinkAt(head, r, j) < 0x1_0000 && Get16(img', LinkAt(head, r, j)) == AddrAt(r, j)
  {
    if j < k || j > k + |mid| {
      OtherLink(img, img', head, lo, hi, list, k, gone, mid, r, j);
    } else {
      SplicedAt(list, k, gone, mid, r);
      if j == k {
        assert LinkAt(head, r, k) == LinkAt(head, list, k);
      } else {
        var m := j - 1 - k;
        assert r[k + m] == mid[m];
      }
    }
  }

  lemma SameArea(list: seq<Area>, k: nat, gone: nat, mid: seq<Area>, r: seq<Area>, j: nat)
    requires Spliced(list, k, gone, mid, r) && j < |r| && (j < k || j >= k + |mid|)
    ensures var i := if j < k then j else j + gone - |mid|;
      i < |list| && r[j] == list[i]
  {
    assert SpliceKey(0);
  }

  lemma SizeFact(img: seq<byte>, head: nat, lo: nat, hi: nat, list: seq<Area>, i: nat)
    requires Stores(img, head, lo, hi, list) && i < |list|
    ensures list[i].addr < 0x1_0000 && Get16(img, list[i].addr + 2) == list[i].size
  {
    assert StoreKey(0);
  }

  /** The header of an untouched area lies apart from what was written. */
  lemma OtherSize(img: seq<byte>, img': seq<byte>, head: nat, lo: nat, hi: nat, list: seq<Area>, k: nat, gone: nat, mid: seq<Area>, r: seq<Area>, j: nat)
    requires Stores(img, head, lo, hi, list) && Spliced(list, k, gone, mid, r) && Listed(r, lo, hi)
    requires Rewrote(img, img', LinkAt(head, list, k), mid)
    requires j < |r| && (j < k || j >= k + |mid|)
    ensures r[j].addr < 0x1_0000 && Get16(img', r[j].addr + 2) == r[j].size
  {
    var w := r[j].addr + 2;
    var i := if j < k then j else j + gone - |mid|;
    SameArea(list, k, gone, mid, r, j);
    SizeFact(img, head, lo, hi, list, i);
    SplicedAt(list, k, gone, mid, r);
    assert LinkAt(head, r, k) == LinkAt(head, list, k);
    SizesApart(head, lo, hi, r, j, k);
    forall m: nat | m < |mid| ensures w + 2 <= mid[m].addr || mid[m].addr + 4 <= w {
      assert r[k + m] == mid[m];
      SizesApart(head, lo, hi, r, j, k + m);
    }
    KeptWord(img, img', LinkAt(head, list, k), mid, w);
  }

  lemma SizesApart(head: nat, lo: nat, hi: nat, list: seq<Area>, j: nat, k: nat)
    requires Placed(head, lo, hi) && Listed(list, lo, hi) && j < |list| && k <= |list|
    ensures Apart(LinkAt(head, list, k), list[j].addr + 2)
    ensures k < |list| && j != k ==> list[j].addr + 4 <= list[k].addr || list[k].addr + 4 <= list[j].addr
  {
    assert StoreKey(0);
  }

  lemma SplicedSize(img: seq<byte>, img': seq<byte>, head: nat, lo: nat, hi: nat, list: seq<Area>, k: nat, gone: nat, mid: seq<Area>, r: seq<Area>, j: nat)
    requires Stores(img, head, lo, hi, list) && Spliced(list, k, gone, mid, r) && Listed(r, lo, hi)
    requires Rewrote(img, img', LinkAt(head, list, k), mid) && LinkAt(head, list, k) < 0x1_0000
    requires forall j: nat :: j < |mid| ==> mid[j].addr < 0x1_0000 && Get16(img', mid[j].addr + 2) == mid[j].size
    requires j < |r|
    ensures r[j].addr < 0x1_0000 && Get16(img', r[j].addr + 2) == r[j].size
  {
    if j < k || j >= k + |mid| {
      OtherSize(img, img', head, lo, hi, list, k, gone, mid, r, j);
    } else {
      SplicedAt(list, k, gone, mid, r);
      assert r[k + (j - k)] == mid[j - k];
    }
  }

  lemma LinkFacts(img: seq<byte>, head: nat, lo: nat, hi: nat, list: seq<Area>, k: nat)
    requires Stores(img, head, lo, hi, list) && k <= |list|
    ensures LinkAt(head, list, k) < 0x1_0000 && Get16(img, LinkAt(head, list, k)) == AddrAt(list, k)
    ensures k < |list| ==> list[k].addr < 0x1_0000 && Get16(img, list[k].addr) == AddrAt(list, k + 1) && Get16(img, list[k].addr + 2) == list[k].size
    ensures k < |list| ==> LinkAt(head, list, k) + 2 <= list[k].addr || list[k].addr + list[k].size <= LinkAt(head, list, k)
    ensures k < |list| ==> AreaOk(list[k], lo, hi)
    ensures AddrAt(list, k) <= hi && AddrAt(list, k + 1) <= hi && AddrAt(list, k + 2) <= hi
    ensures k > 0 ==> LinkAt(head, list, k) == list[k - 1].addr >= lo
  {
    assert StoreKey(0);
    if k < |list| { assert LinkAt(head, list, k + 1) == list[k].addr; }
  }

  lemma OneWord(img: seq<byte>, p: nat, w: nat)
    requires p + 2 <= |img|
    ensures Rewrote(img, Set16(img, p, w), p, [])
  {
  }

  lemma ThreeWords(img: seq<byte>, p: nat, w: nat, q: nat, l: nat, s: nat)
    requires p + 2 <= |img| && q + 4 <= |img| && w < 0x1_0000 && l < 0x1_0000 && s < 0x1_0000
    requires p + 2 <= q || q + 4 <= p
    ensures var img' := Set16(Set16(Set16(img, p, w), q, l), q + 2, s);
      && Get16(img', p) == w && Get16(img', q) == l && Get16(img', q + 2) == s && Rewrote(img, img', p, [Area(q, s)])
  {
    Get16AfterSet16(img, p, w);
    Get16AfterSet16(Set16(img, p, w), q, l);
    Get16AfterSet16(Set16(Set16(img, p, w), q, l), q + 2, s);
    forall a: nat | a < |img| && !(p <= a < p + 2) && (forall j: nat :: j < 1 ==> !([Area(q, s)][j].addr <= a < [Area(q, s)][j].addr + 4))
      ensures Set16(Set16(Set16(img, p, w), q, l), q + 2, s)[a] == img[a] {
      assert !([Area(q, s)][0].addr <= a < q + 4);
    }
  }

  lemma TakenLinks(list: seq<Area>, k: nat, n: nat, r: seq<Area>)
    requires k < |list| && n <= list[k].size && Spliced(list, k, 1, Rest(list[k], n), r)
    ensures if n == list[k].size then AddrAt(r, k) == AddrAt(list, k + 1)
      else AddrAt(r, k) == list[k].addr + n && AddrAt(r, k + 1) == AddrAt(list, k + 1)
  {
    assert SpliceKey(0);
    if n < list[k].size { assert r[k + 0] == Rest(list[k], n)[0]; }
  }

  /** The pointer to area k and the area itself are not outside. */
  lemma LinkInside(head: nat, lo: nat, hi: nat, list: seq<Area>, k: nat, a: nat)
    requires Ordered(list, lo, hi) && k <= |list| && Outside(head, list, a)
    ensures !(LinkAt(head, list, k) <= a < LinkAt(head, list, k) + 2)
    ensures k < |list| ==> !In(list[k], a)
  {
    assert k > 0 && In(list[k - 1], a) ==> Covers(list, a);
    assert k < |list| && In(list[k], a) ==> Covers(list, a);
  }

  lemma TakenFrame(img: seq<byte>, img': seq<byte>, head: nat, lo: nat, hi: nat, list: seq<Area>, k: nat, n: nat)
    requires Listed(list, lo, hi) && k < |list| && n <= list[k].size && n % 4 == 0
    requires Rewrote(img, img', LinkAt(head, list, k), Rest(list[k], n))
    ensures forall a: nat :: a < |img| && Outside(head, list, a) ==> img'[a] == img[a]
  {
    assert StoreKey(0);
    forall a: nat | a < |img| && Outside(head, list, a) ensures img'[a] == img[a] {
      LinkInside(head, lo, hi, list, k, a);
    }
  }

  lemma NewList(list: seq<Area>, k: nat, gone: nat, mid: seq<Area>) returns (r: seq<Area>)
    requires k + gone <= |list|
    ensures Spliced(list, k, gone, mid, r) && Total(r) + Total(list[k..k + gone]) == Total(list) + Total(mid)
  {
    r := Splice(list, k, gone, mid);
    SpliceIsSpliced(list, k, gone, mid);
  }

  lemma TakenIsTidy(list: seq<Area>, lo: nat, hi: nat, k: nat, n: nat, r: seq<Area>)
    requires Tidy(list, lo, hi) && k < |list| && 0 < n <= list[k].size && n % 4 == 0
    requires Spliced(list, k, 1, Rest(list[k], n), r)
    ensures Tidy(r, lo, hi) && Listed(r, lo, hi)
    ensures forall a: nat :: Covers(r, a) <==> Covers(list, a) && !In(Area(list[k].addr, n), a)
  {
    assert StoreKey(0);
    TakenOrdered(list, lo, hi, k, n, r);
    TakenCovers(list, lo, hi, k, n, r);
  }

  lemma InsertedIsListed(list: seq<Area>, lo: nat, hi: nat, k: nat, b: Area, r: seq<Area>)
    requires Listed(list, lo, hi) && AreaOk(b, lo, hi) && Spliced(list, k, 0, [b], r)
    requires k > 0 ==> list[k - 1].addr + list[k - 1].size <= b.addr
    requires k < |list| ==> b.addr + b.size <= list[k].addr
    ensures Listed(r, lo, hi) && AddrAt(r, k) == b.addr && AddrAt(r, k + 1) == AddrAt(list, k)
    ensures forall a: nat :: Covers(r, a) <==> Covers(list, a) || In(b, a)
  {
    assert StoreKey(0);
    InsertedOrdered(list, lo, hi, k, b, r);
    InsertedCovers(list, k, b, r);
    assert SpliceKey(0);
  }

  lemma MergedIsListed(list: seq<Area>, lo: nat, hi: nat, k: nat, r: seq<Area>)
    requires Listed(list, lo, hi) && Touches(list, k) && Spliced(list, k, 2, Joined(list, k), r)
    ensures Listed(r, lo, hi) && AddrAt(r, k) == list[k].addr && AddrAt(r, k + 1) == AddrAt(list, k + 2)
    ensures forall a: nat :: Covers(r, a) <==> Covers(list, a)
  {
    assert StoreKey(0);
    MergedOrdered(list, lo, hi, k, r);
    MergedCovers(list, k, r);
    assert SpliceKey(0);
  }

  lemma TotalOfTwo(list: seq<Area>, k: nat)
    requires k + 1 < |list|
    ensures Total(list[k..k + 2]) == list[k].size + list[k + 1].size
  {
    assert list[k..k + 2] == [list[k]] + [list[k + 1]];
    TotalAppend([list[k]], [list[k + 1]]);
  }

  /** Everything about taking the first n bytes of area k. */
  lemma TakenStores(img: seq<byte>, img': seq<byte>, head: nat, lo: nat, hi: nat, list: seq<Area>, k: nat, n: nat) returns (r: seq<Area>)
    requires Stores(img, head, lo, hi, list) && Tidy(list, lo, hi) && k < |list| && AreaOk(list[k], lo, hi) && 0 < n <= list[k].size && n % 4 == 0
    requires LinkAt(head, list, k) < 0x1_0000
    requires Rewrote(img, img', LinkAt(head, list, k), Rest(list[k], n))
    requires Get16(img', LinkAt(head, list, k)) == if n == list[k].size then AddrAt(list, k + 1) else list[k].addr + n
    requires n < list[k].size ==> Get16(img', list[k].addr + n) == AddrAt(list, k + 1) && Get16(img', list[k].addr + n + 2) == list[k].size - n
    ensures Stores(img', head, lo, hi, r) && Tidy(r, lo, hi) && Total(r) + n == Total(list)
    ensures forall a: nat :: Covers(r, a) <==> Covers(list, a) && !In(Area(list[k].addr, n), a)
    ensures forall a: nat :: a < |img| && Outside(head, list, a) ==> img'[a] == img[a]
  {
    var mid := Rest(list[k], n);
    r := NewList(list, k, 1, mid);
    assert Total(list[k..k + 1]) == list[k].size;
    TakenIsTidy(list, lo, hi, k, n, r);
    TakenLinks(list, k, n, r);
    LinkFacts(img, head, lo, hi, list, k);
    StoredSplice(img, img', head, lo, hi, list, k, 1, mid, r);
    TakenFrame(img, img', head, lo, hi, list, k, n);
  }

  /** Everything about putting area b before area k. */
  lemma InsertedStores(img: seq<byte>, img': seq<byte>, head: nat, lo: nat, hi: nat, list: seq<Area>, k: nat, b: Area) returns (r: seq<Area>)
    requires Stores(img, head, lo, hi, list) && k <= |list| && AreaOk(b, lo, hi) && b.addr < 0x1_0000
    requires k > 0 ==> list[k - 1].addr + list[k - 1].size <= b.addr
    requires k < |list| ==> b.addr + b.size <= list[k].addr
    requires LinkAt(head, list, k) < 0x1_0000
    requires Rewrote(img, img', LinkAt(head, list, k), [b])
    requires Get16(img', LinkAt(head, list, k)) == b.addr && Get16(img', b.addr) == AddrAt(list, k) && Get16(img', b.addr + 2) == b.size
    ensures Stores(img', head, lo, hi, r) && Spliced(list, k, 0, [b], r) && Total(r) == Total(list) + b.size
    ensures forall a: nat :: Covers(r, a) <==> Covers(list, a) || In(b, a)
  {
    r := NewList(list, k, 0, [b]);
    InsertedIsListed(list, lo, hi, k, b, r);
    LinkFacts(img, head, lo, hi, list, k);
    StoredSplice(img, img', head, lo, hi, list, k, 0, [b], r);
  }

  /** Everything about merging areas k and k + 1. */
  lemma MergedStores(img: seq<byte>, img': seq<byte>, head: nat, lo: nat, hi: nat, list: seq<Area>, k: nat) returns (r: seq<Area>)
    requires Stores(img, head, lo, hi, list) && Touches(list, k) && AreaOk(list[k], lo, hi)
    requires LinkAt(head, list, k) < 0x1_0000
    requires Rewrote(img, img', LinkAt(head, list, k), Joined(list, k)) && Get16(img', LinkAt(head, list, k)) == list[k].addr
    requires Get16(img', list[k].addr) == AddrAt(list, k + 2) && Get16(img', list[k].addr + 2) == list[k].size + list[k + 1].size
    ensures Stores(img', head, lo, hi, r) && Spliced(list, k, 2, Joined(list, k), r) && Total(r) == Total(list)
    ensures forall a: nat :: Covers(r, a) <==> Covers(list, a)
  {
    r := NewList(list, k, 2, Joined(list, k));
    TotalOfTwo(list, k);
    MergedIsListed(list, lo, hi, k, r);
    LinkFacts(img, head, lo, hi, list, k);
    StoredSplice(img, img', head, lo, hi, list, k, 2, Joined(list, k), r);
  }

  lemma TwoWords(img: seq<byte>, p: nat, q: nat, l: nat, s: nat)
    requires p + 2 <= |img| && q + 4 <= |img| && l < 0x1_0000 && s < 0x1_0000 && (p + 2 <= q || q + 4 <= p)
    ensures var img' := Set16(Set16(img, q, l), q + 2, s);
      && Get16(img', p) == Get16(img, p) && Get16(img', q) == l && Get16(img', q + 2) == s && Rewrote(img, img', p, [Area(q, s)])
  {
    Get16AfterSet16(img, q, l);
    Get16AfterSet16(Set16(img, q, l), q + 2, s);
    forall a: nat | a < |img| && !(p <= a < p + 2) && (forall j: nat :: j < 1 ==> !([Area(q, s)][j].addr <= a < [Area(q, s)][j].addr + 4))
      ensures Set16(Set16(img, q, l), q + 2, s)[a] == img[a] {
      assert !([Area(q, s)][0].addr <= a < q + 4);
    }
  }

  lemma JoinFits(list: seq<Area>, lo: nat, hi: nat, k: nat)
    requires Listed(list, lo, hi) && Touches(list, k) && hi < 0x1_0000
    ensures list[k].size + list[k + 1].size < 0x1_0000 && list[k].size >= 4 && list[k].addr + 4 <= hi
  {
    assert StoreKey(0);
  }

  lemma JoinedFrame(img: seq<byte>, img': seq<byte>, head: nat, lo: nat, hi: nat, list: seq<Area>, k: nat)
    requires Listed(list, lo, hi) && Touches(list, k)
    requires Rewrote(img, img', LinkAt(head, list, k), Joined(list, k))
    ensures forall a: nat :: a < |img| && Outside(head, list, a) ==> img'[a] == img[a]
  {
    assert StoreKey(0);
    forall a: nat | a < |img| && Outside(head, list, a) ensures img'[a] == img[a] {
      LinkInside(head, lo, hi, list, k, a);
    }
  }

  /** The front of area k fits, is free, and is the lowest place if the areas before do not fit. */
  lemma FrontFacts(list: seq<Area>, lo: nat, hi: nat, k: nat, n: nat)
    requires Listed(list, lo, hi) && k < |list| && 0 < n <= list[k].size && n % 4 == 0
    requires forall j: nat :: j < k ==> list[j].size < n
    ensures AreaOk(Area(list[k].addr, n), lo, hi)
    ensures forall a: nat :: In(Area(list[k].addr, n), a) ==> Covers(list, a)
    ensures forall b :: b in list && b.size >= n ==> list[k].addr <= b.addr
  {
    assert StoreKey(0);
    assert forall a: nat :: In(Area(list[k].addr, n), a) ==> In(list[k], a);
  }

  lemma PlaceIsFree(list: seq<Area>, lo: nat, hi: nat, b: Area, k: nat)
    requires Listed(list, lo, hi) && b.size > 0 && k <= |list| && forall a: nat :: In(b, a) ==> !Covers(list, a)
    requires k > 0 ==> list[k - 1].addr <= b.addr
    requires k < |list| ==> b.addr < list[k].addr
    ensures k > 0 ==> list[k - 1].addr + list[k - 1].size <= b.addr
    ensures k < |list| ==> b.addr + b.size <= list[k].addr
  {
    assert StoreKey(0);
    assert In(b, b.addr);
    assert k > 0 ==> !In(list[k - 1], b.addr);
    if k < |list| {
      assert In(list[k], list[k].addr);
      assert !In(b, list[k].addr);
    }
  }

  lemma NoWrap(n: nat)
    ensures n < 0x1_0000 ==> n % 0x1_0000 == n
  {
  }

  lemma {:induction false} SumUpTo(list: seq<Area>, lo: nat, hi: nat, k: nat)
    requires Listed(list, lo, hi) && k < |list|
    ensures Total(list[..k + 1]) == Total(list[..k]) + list[k].size && Total(list[..k]) <= list[k].addr - lo
    ensures list[k].addr + list[k].size <= hi
  {
    assert Ordered(list, lo, hi) by { assert StoreKey(0); }
    assert list[..k + 1] == list[..k] + [list[k]];
    TotalAppend(list[..k], [list[k]]);
    if k > 0 { SumUpTo(list, lo, hi, k - 1); }
  }

  lemma WordKept(img: seq<byte>, a: nat, w: nat, b: nat)
    requires a + 2 <= |img| && b + 2 <= |img| && Apart(a, b)
    ensures Get16(Set16(img, a, w), b) == Get16(img, b)
  {
  }

  datatype Cell = Cell(addr: nat, word: nat)

  /** Every cell holds its word. */
  ghost predicate Hold(img: seq<byte>, cells: seq<Cell>)
  {
    forall i: nat :: i < |cells| ==> cells[i].addr + 2 <= |img| && Get16(img, cells[i].addr) == cells[i].word
  }

  lemma HoldMore(img: seq<byte>, cells: seq<Cell>, a: nat, w: nat)
    requires Hold(img, cells) && a + 2 <= |img| && w < 0x1_0000
    requires forall i: nat :: i < |cells| ==> Apart(cells[i].addr, a)
    ensures Hold(Set16(img, a, w), cells + [Cell(a, w)])
  {
    Get16AfterSet16(img, a, w);
    forall i: nat | i < |cells| ensures Get16(Set16(img, a, w), cells[i].addr) == cells[i].word {
      WordKept(img, a, w, cells[i].addr);
    }
  }

  /** The cells that pool_init writes. */
  function InitialCells(head: nat, systop: nat, polsz: nat, start: nat): seq<Cell>
    requires start <= POOL_END
  {
    [Cell(head, start), Cell(systop, POOL_END), Cell(polsz, POOL_END - start), Cell(start, 0), Cell(start + 2, POOL_END - start)]
  }

  /** Byte a is in one of the words that pool_init writes. */
  predicate IsInitial(head: nat, systop: nat, polsz: nat, start: nat, a: nat)
  {
    head <= a < head + 2 || systop <= a < systop + 2 || polsz <= a < polsz + 2 || start <= a < start + 4
  }

  lemma InitialPool(img: seq<byte>, head: nat, systop: nat, polsz: nat, start: nat)
    requires |img| == IMAGE_SIZE && Placed(head, start, POOL_END) && start < POOL_END
    requires Hold(img, InitialCells(head, systop, polsz, start))
    ensures systop + 2 <= |img| && Get16(img, systop) == POOL_END
    ensures polsz + 2 <= |img| && Get16(img, polsz) == POOL_END - start
    ensures Stores(img, head, start, POOL_END, [Area(start, POOL_END - start)]) && Tidy([Area(start, POOL_END - start)], start, POOL_END)
  {
    var cells := InitialCells(head, systop, polsz, start);
    assert cells[0] == Cell(head, start) && cells[1] == Cell(systop, POOL_END) && cells[2] == Cell(polsz, POOL_END - start);
    assert cells[3] == Cell(start, 0) && cells[4] == Cell(start + 2, POOL_END - start);
    var list := [Area(start, POOL_END - start)];
    assert Coalesced(list, start, POOL_END);
    forall k: nat | k <= |list| ensures LinkAt(head, list, k) < 0x1_0000 && Get16(img, LinkAt(head, list, k)) == AddrAt(list, k) {
      assert k == 0 || k == 1;
    }
  }

  /** No areas touch, except perhaps areas i and i + 1, or j and j + 1. */
  ghost predicate GapsBut(list: seq<Area>, i: int, j: int)
  {
    forall key {:trigger StoreKey(key)} :: Folded(key) ==> forall p: nat :: p != i && p != j ==> Gap(list, p)
  }

  lemma NewApart(head: nat, lo: nat, hi: nat, list: seq<Area>, k: nat, addr: nat, size: nat)
    requires Placed(head, lo, hi) && Listed(list, lo, hi) && k <= |list| && AreaOk(Area(addr, size), lo, hi)
    requires k > 0 ==> list[k - 1].addr + list[k - 1].size <= addr
    ensures size >= 4 && (LinkAt(head, list, k) + 2 <= addr || addr + 4 <= LinkAt(head, list, k))
  {
    assert StoreKey(0);
  }

  lemma InsertedRest(img: seq<byte>, img': seq<byte>, head: nat, lo: nat, hi: nat, list: seq<Area>, k: nat, b: Area, r: seq<Area>)
    requires Tidy(list, lo, hi) && Listed(r, lo, hi) && Spliced(list, k, 0, [b], r)
    requires Rewrote(img, img', LinkAt(head, list, k), [b])
    ensures GapsBut(r, k - 1, k) && k < |r| && r[k] == b && LinkAt(head, r, k) == LinkAt(head, list, k) && AddrAt(r, k + 1) == AddrAt(list, k)
    ensures forall a: nat :: a < |img| && Outside(head, r, a) ==> img'[a] == img[a]
  {
    assert StoreKey(0);
    assert r[k] == b && LinkAt(head, r, k) == LinkAt(head, list, k) && AddrAt(r, k + 1) == AddrAt(list, k) by {
      assert SpliceKey(0);
      assert r[k + 0] == [b][0];
    }
    forall p: nat | p != k - 1 && p != k ensures Gap(r, p) {
      InsertedGap(list, k, b, r, p);
    }
    forall a: nat | a < |img| && Outside(head, r, a) ensures img'[a] == img[a] {
      LinkInside(head, lo, hi, r, k, a);
    }
  }

  lemma GapBefore(list: seq<Area>, lo: nat, hi: nat, k: nat)
    requires Listed(list, lo, hi) && k < |list| && GapsBut(list, k - 1, k)
    ensures k == 0 || !Touches(list, k - 1) ==> GapsBut(list, k, k)
  {
    assert StoreKey(0);
  }

  lemma GapBehind(list: seq<Area>, lo: nat, hi: nat, k: nat)
    requires Listed(list, lo, hi) && GapsBut(list, k, k) && !Touches(list, k)
    ensures Tidy(list, lo, hi)
  {
    assert StoreKey(0);
    assert Gap(list, k);
    AllGaps(list, lo, hi);
  }

  lemma JoinedGaps(list: seq<Area>, k: nat, r: seq<Area>)
    requires GapsBut(list, k, k + 1) && Touches(list, k) && Spliced(list, k, 2, Joined(list, k), r)
    ensures GapsBut(r, k, k) && k < |r| && r[k] == Joined(list, k)[0] && AddrAt(r, k + 1) == AddrAt(list, k + 2)
  {
    assert StoreKey(0);
    assert r[k] == Joined(list, k)[0] && AddrAt(r, k + 1) == AddrAt(list, k + 2) by {
      assert SpliceKey(0);
      assert r[k + 0] == Joined(list, k)[0];
    }
    forall p: nat | p != k ensures Gap(r, p) {
      MergedGap(list, k, r, p);
    }
  }

  lemma LastGaps(list: seq<Area>, k: nat, r: seq<Area>, lo: nat, hi: nat)
    requires GapsBut(list, k, k) && Touches(list, k) && Spliced(list, k, 2, Joined(list, k), r) && Listed(r, lo, hi)
    ensures Tidy(r, lo, hi)
  {
    assert StoreKey(0);
    forall p: nat ensures Gap(r, p) {
      MergedGap(list, k, r, p);
    }
    AllGaps(r, lo, hi);
  }

  /** Address a is neither in the list head nor free. */
  predicate Outside(head: nat, list: seq<Area>, a: nat)
  {
    !(head <= a < head + 2) && !Covers(list, a)
  }

  /** (size + 3) & 0xfffc, in 16 bits */
  function Round(size: nat): (n: nat)
    ensures n % 4 == 0 && n < 0x1_0000
    ensures size <= 0xFFFC ==> size <= n < size + 4
    ensures 0xFFFC < size < 0x1_0000 ==> n == 0
  {
    4 * ((size + 3) / 4 % 0x4000)
  }

  class SystemImage {
    const image: array<byte>
    /** The value of the symbol $POOL: where the pointer to the first free area is. */
    const head: nat
    ghost var lo: nat
    ghost var hi: nat
    ghost var list: seq<Area>

    constructor (image: array<byte>, head: nat)
      ensures this.image == image && this.head == head
    {
      this.image, this.head := image, head;
    }

    ghost predicate Linked()
      reads this, image
    {
      image.Length == IMAGE_SIZE && Stores(image[..], head, lo, hi, list)
    }

    ghost predicate Valid()
      reads this, image
    {
      Linked() && Tidy(list, lo, hi)
    }

    method GetW(a: nat) returns (w: nat)
      requires a + 2 <= image.Length
      ensures w == Get16(image[..], a) < 0x1_0000
    {
      var lo: int, hi: int := image[a], image[a + 1];
      w := lo + 256 * hi;
    }

    method PutW(a: nat, w: nat)
      requires a + 2 <= image.Length && w < 0x1_0000
      modifies image
      ensures image[..] == Set16(old(image[..]), a, w)
      ensures Get16(image[..], a) == w
    {
      image[a] := w % 256;
      image[a + 1] := (w / 256) % 256;
      Get16AfterSet16(old(image[..]), a, w);
    }

    /** Point p to area q, and give q a link and a size. */
    method PutArea(p: nat, q: nat, link: nat, size: nat)
      requires p + 2 <= image.Length && q + 4 <= image.Length && q < 0x1_0000 && link < 0x1_0000 && size < 0x1_0000
      requires p + 2 <= q || q + 4 <= p
      modifies image
      ensures Get16(image[..], p) == q && Get16(image[..], q) == link && Get16(image[..], q + 2) == size
      ensures Rewrote(old(image[..]), image[..], p, [Area(q, size)])
    {
      ghost var img := image[..];
      PutW(p, q);
      PutW(q, link);
      PutW(q + 2, size);
      ThreeWords(img, p, q, q, link, size);
    }

    /** The area at next loses its first n bytes. */
    method Shorten(prev: nat, next: nat, link: nat, blksz: nat, n: nat)
      requires prev + 2 <= image.Length && next + blksz <= image.Length && next + blksz < 0x1_0000 && link < 0x1_0000
      requires 0 < n <= blksz && (n < blksz ==> n + 4 <= blksz) && (prev + 2 <= next || next + blksz <= prev)
      modifies image
      ensures Rewrote(old(image[..]), image[..], prev, Rest(Area(next, blksz), n))
      ensures Get16(image[..], prev) == if n == blksz then link else next + n
      ensures n < blksz ==> Get16(image[..], next + n) == link && Get16(image[..], next + n + 2) == blksz - n
    {
      ghost var img := image[..];
      if blksz == n {
        PutW(prev, link);
        OneWord(img, prev, link);
      } else {
        PutArea(prev, next + n, link, blksz - n);
      }
    }

    /** Unlink the first n bytes of area k. */
    method TakeFront(prev: nat, next: nat, link: nat, blksz: nat, n: nat, ghost k: nat)
      requires Valid() && k < |list| && prev == LinkAt(head, list, k) && next == list[k].addr && blksz == list[k].size
      requires link == AddrAt(list, k + 1) && 0 < n <= blksz && n % 4 == 0
      modifies image, this`list
      ensures Valid() && Total(list) + n == Total(old(list))
      ensures forall a: nat :: Covers(list, a) <==> Covers(old(list), a) && !In(Area(next, n), a)
      ensures forall a: nat :: a < IMAGE_SIZE && Outside(head, old(list), a) ==> image[a] == old(image[a])
    {
      ghost var img, list0 := image[..], list;
      LinkFacts(img, head, lo, hi, list, k);
      assert list[k] == Area(next, blksz);
      Shorten(prev, next, link, blksz, n);
      list := TakenStores(img, image[..], head, lo, hi, list0, k, n);
    }

    /** The search for the first area of at least n bytes. */
    method FindFit(n: nat) returns (found: bool, prev: nat, next: nat, link: nat, blksz: nat, ghost k: nat)
      requires Valid() && n > 0
      ensures if found then
          && k < |list| && prev == LinkAt(head, list, k) && next == list[k].addr > 0
          && link == AddrAt(list, k + 1) && blksz == list[k].size >= n
          && forall j: nat :: j < k ==> list[j].size < n
        else
          forall b :: b in list ==> b.size < n
    {
      prev, found, k, link, blksz := head, false, 0, 0, 0;
      LinkFacts(image[..], head, lo, hi, list, 0);
      next := GetW(prev);
      while !found && next != 0
        invariant k <= |list| && prev == LinkAt(head, list, k) && next == AddrAt(list, k)
        invariant forall j: nat :: j < k ==> list[j].size < n
        invariant found ==> k < |list| && link == AddrAt(list, k + 1) && blksz == list[k].size >= n
        decreases !found, |list| - k
      {
        LinkFacts(image[..], head, lo, hi, list, k);
        link := GetW(next);
        blksz := GetW(next + 2);
        if blksz >= n {
          found := true;
        } else {
          prev, next, k := next, link, k + 1;
        }
      }
      LinkFacts(image[..], head, lo, hi, list, k);
    }

    /** First fit: the lowest free address at which size bytes, rounded up to a multiple of 4,
        fit; 0, and no change, when there is none. */
    method PoolAlloc(size: nat) returns (addr: nat)
      requires Valid() && size < 0x1_0000
      modifies image, this`list
      ensures Valid()
      ensures addr == 0 <==> Round(size) == 0 || forall b :: b in old(list) ==> b.size < Round(size)
      ensures addr == 0 ==> image[..] == old(image[..]) && list == old(list)
      ensures addr > 0 ==> AreaOk(Area(addr, Round(size)), lo, hi) && Total(list) + Round(size) == Total(old(list))
      ensures addr > 0 ==> forall b :: b in old(list) && b.size >= Round(size) ==> addr <= b.addr
      ensures addr > 0 ==> forall a: nat :: In(Area(addr, Round(size)), a) ==> Covers(old(list), a)
      ensures addr > 0 ==> forall a: nat :: Covers(list, a) <==> Covers(old(list), a) && !In(Area(addr, Round(size)), a)
      ensures forall a: nat :: a < IMAGE_SIZE && Outside(head, old(list), a) ==> image[a] == old(image[a])
    {
      var n := Round(size);
      if n == 0 { return 0; }
      var found, prev, next, link, blksz;
      ghost var k;
      found, prev, next, link, blksz, k := FindFit(n);
      if !found { return 0; }
      FrontFacts(list, lo, hi, k, n);
      TakeFront(prev, next, link, blksz, n, k);
      return next;
    }

    /** Where the chain continues with an area behind addr. */
    method FindPlace(b: Area) returns (prev: nat, next: nat, ghost k: nat)
      requires Valid() && b.size > 0 && forall a: nat :: In(b, a) ==> !Covers(list, a)
      ensures k <= |list| && prev == LinkAt(head, list, k) && next == AddrAt(list, k)
      ensures k > 0 ==> list[k - 1].addr + list[k - 1].size <= b.addr
      ensures k < |list| ==> b.addr + b.size <= list[k].addr
    {
      prev, k := head, 0;
      LinkFacts(image[..], head, lo, hi, list, 0);
      next := GetW(prev);
      while next != 0 && next <= b.addr
        invariant k <= |list| && prev == LinkAt(head, list, k) && next == AddrAt(list, k)
        invariant k > 0 ==> list[k - 1].addr <= b.addr
        decreases |list| - k
      {
        LinkFacts(image[..], head, lo, hi, list, k);
        prev, k := next, k + 1;
        next := GetW(prev);
      }
      LinkFacts(image[..], head, lo, hi, list, k);
      PlaceIsFree(list, lo, hi, b, k);
    }

    /** Areas k and k + 1 touch: give the first one the link and the space of the second. */
    method Join(q: nat, link: nat, size: nat, ghost k: nat)
      requires Linked() && Touches(list, k) && q == list[k].addr && link == AddrAt(list, k + 2) && size == list[k].size + list[k + 1].size
      modifies image, this`list
      ensures Linked() && Spliced(old(list), k, 2, Joined(old(list), k), list) && Total(list) == Total(old(list))
      ensures forall a: nat :: Covers(list, a) <==> Covers(old(list), a)
      ensures forall a: nat :: a < IMAGE_SIZE && Outside(head, old(list), a) ==> image[a] == old(image[a])
    {
      ghost var img := image[..];
      LinkFacts(img, head, lo, hi, list, k);
      JoinFits(list, lo, hi, k);
      PutW(q, link);
      PutW(q + 2, size);
      TwoWords(img, LinkAt(head, list, k), q, link, size);
      JoinedFrame(img, image[..], head, lo, hi, list, k);
      list := MergedStores(img, image[..], head, lo, hi, list, k);
    }
  
    /** The three words that put the area between prev and next. */
    method Insert(prev: nat, next: nat, addr: nat, size: nat, ghost k: nat)
      requires Valid() && k <= |list| && prev == LinkAt(head, list, k) && next == AddrAt(list, k) && AreaOk(Area(addr, size), lo, hi)
      requires k > 0 ==> list[k - 1].addr + list[k - 1].size <= addr
      requires k < |list| ==> addr + size <= list[k].addr
      modifies image, this`list
      ensures Linked() && GapsBut(list, k - 1, k) && Total(list) == Total(old(list)) + size
      ensures k < |list| && list[k] == Area(addr, size) && prev == LinkAt(head, list, k) && next == AddrAt(list, k + 1)
      ensures forall a: nat :: Covers(list, a) <==> Covers(old(list), a) || In(Area(addr, size), a)
      ensures forall a: nat :: a < IMAGE_SIZE && Outside(head, list, a) ==> image[a] == old(image[a])
    {
      ghost var img, list0 := image[..], list;
      LinkFacts(img, head, lo, hi, list, k);
      NewApart(head, lo, hi, list, k, addr, size);
      PutArea(prev, addr, next, size);
      list := InsertedStores(img, image[..], head, lo, hi, list0, k, Area(addr, size));
      InsertedRest(img, image[..], head, lo, hi, list0, k, Area(addr, size), list);
    }

    /** Merge with the area before, if they touch. */
    method MergePrev(prev: nat, next: nat, addr0: nat, size0: nat, ghost k0: nat) returns (addr: nat, size: nat, ghost k: nat)
      requires Linked() && k0 < |list| && list[k0] == Area(addr0, size0) && prev == LinkAt(head, list, k0) && next == AddrAt(list, k0 + 1)
      requires GapsBut(list, k0 - 1, k0)
      modifies image, this`list
      ensures Linked() && GapsBut(list, k, k) && Total(list) == Total(old(list))
      ensures k < |list| && list[k] == Area(addr, size) && next == AddrAt(list, k + 1)
      ensures forall a: nat :: Covers(list, a) <==> Covers(old(list), a)
      ensures forall a: nat :: a < IMAGE_SIZE && Outside(head, old(list), a) ==> image[a] == old(image[a])
    {
      addr, size, k := addr0, size0, k0;
      LinkFacts(image[..], head, lo, hi, list, k0);
      GapBefore(list, lo, hi, k0);
      if prev != head {
        LinkFacts(image[..], head, lo, hi, list, k0 - 1);
        var blksz := GetW(prev + 2);
        if prev + blksz == addr {
          ghost var list0 := list;
          size := size + blksz;
          Join(prev, next, size, k0 - 1);
          addr, k := prev, k0 - 1;
          JoinedGaps(list0, k, list);
        }
      }
    }

    /** Merge with the area behind, if they touch. */
    method MergeNext(next: nat, addr: nat, size: nat, ghost k: nat)
      requires Linked() && k < |list| && list[k] == Area(addr, size) && next == AddrAt(list, k + 1) && GapsBut(list, k, k)
      modifies image, this`list
      ensures Valid() && Total(list) == Total(old(list))
      ensures forall a: nat :: Covers(list, a) <==> Covers(old(list), a)
      ensures forall a: nat :: a < IMAGE_SIZE && Outside(head, old(list), a) ==> image[a] == old(image[a])
    {
      LinkFacts(image[..], head, lo, hi, list, k);
      if addr + size == next {
        LinkFacts(image[..], head, lo, hi, list, k + 1);
        var link := GetW(next);
        var blksz := GetW(next + 2);
        ghost var list0 := list;
        Join(addr, link, size + blksz, k);
        LastGaps(list0, k, list, lo, hi);
      } else {
        GapBehind(list, lo, hi, k);
      }
    }

    /** Return an area: its addresses, and no others, become free, and the list is again in the
        canonical form. */
    method PoolFree(addr: nat, size: nat)
      requires Valid() && size < 0x1_0000
      requires Round(size) > 0 ==> AreaOk(Area(addr, Round(size)), lo, hi) && forall a: nat :: In(Area(addr, Round(size)), a) ==> !Covers(list, a)
      modifies image, this`list
      ensures Valid()
      ensures Round(size) == 0 ==> image[..] == old(image[..]) && list == old(list)
      ensures Total(list) == Total(old(list)) + Round(size)
      ensures forall a: nat :: Covers(list, a) <==> Covers(old(list), a) || In(Area(addr, Round(size)), a)
      ensures forall a: nat :: a < IMAGE_SIZE && Outside(head, list, a) ==> image[a] == old(image[a])
    {
      var n := Round(size);
      if n == 0 { return; }
      var prev, next;
      ghost var k;
      prev, next, k := FindPlace(Area(addr, n));
      Insert(prev, next, addr, n, k);
      ghost var list1 := list;
      var addr', n';
      addr', n', k := MergePrev(prev, next, addr, n, k);
      assert forall a: nat :: Outside(head, list1, a) <==> Outside(head, list, a);
      MergeNext(next, addr', n', k);
    }
  
    /** The sum of the free areas; it never exceeds the 16 bits of the counter. */
    method PoolAvail() returns (total: nat)
      requires Valid()
      ensures total == Total(list) <= hi - lo
    {
      total := 0;
      LinkFacts(image[..], head, lo, hi, list, 0);
      var pool := GetW(head);
      ghost var k := 0;
      while pool != 0
        invariant k <= |list| && pool == AddrAt(list, k) && total == Total(list[..k]) <= hi - lo
        decreases |list| - k
      {
        LinkFacts(image[..], head, lo, hi, list, k);
        SumUpTo(list, lo, hi, k);
        var size := GetW(pool + 2);
        NoWrap(total + size);
        total := (total + size) % 0x1_0000;
        pool := GetW(pool);
        k := k + 1;
      }
      LinkFacts(image[..], head, lo, hi, list, k);
      assert list[..k] == list;
    }

    /** sys_putw into a further cell. */
    method PutCell(a: nat, w: nat, ghost cells: seq<Cell>) returns (ghost cells': seq<Cell>)
      requires a + 2 <= image.Length && w < 0x1_0000 && Hold(image[..], cells)
      requires forall i: nat :: i < |cells| ==> Apart(cells[i].addr, a)
      modifies image
      ensures cells' == cells + [Cell(a, w)] && Hold(image[..], cells')
      ensures forall b: nat :: b < image.Length && !(a <= b < a + 2) ==> image[b] == old(image[b])
    {
      HoldMore(image[..], cells, a, w);
      PutW(a, w);
      cells' := cells + [Cell(a, w)];
    }

    /** A pool that was not set up yet becomes one free area from the end of the system, rounded
        up, to 0xf000.  systop and polsz are the addresses of $SYSTOP and $POLSZ. */
    method PoolInit(sysend: nat, systop: nat, polsz: nat)
      requires image.Length == IMAGE_SIZE && 0 < sysend && Round(sysend) < POOL_END && sysend < POOL_END
      requires systop + 2 <= 0x1_0000 && polsz + 2 <= 0x1_0000 && Placed(head, Round(sysend), POOL_END)
      requires systop + 2 <= Round(sysend) || POOL_END <= systop
      requires polsz + 2 <= Round(sysend) || POOL_END <= polsz
      requires Apart(head, systop) && Apart(head, polsz) && Apart(systop, polsz)
      modifies image, this`list, this`lo, this`hi
      ensures old(Get16(image[..], polsz)) != 0 ==> image[..] == old(image[..]) && list == old(list) && lo == old(lo) && hi == old(hi)
      ensures old(Get16(image[..], polsz)) == 0 ==>
        && Valid() && lo == Round(sysend) && hi == POOL_END && list == [Area(lo, hi - lo)]
        && Get16(image[..], systop) == hi && Get16(image[..], polsz) == hi - lo
      ensures forall a: nat :: a < IMAGE_SIZE && !IsInitial(head, systop, polsz, Round(sysend), a) ==> image[a] == old(image[a])
    {
      var poolsize := GetW(polsz);
      if poolsize != 0 { return; }
      var start := Round(sysend);
      WriteInitial(systop, polsz, start);
      InitialPool(image[..], head, systop, polsz, start);
      list, lo, hi := [Area(start, POOL_END - start)], start, POOL_END;
    }

    /** The five words. */
    method WriteInitial(systop: nat, polsz: nat, start: nat)
      requires image.Length == IMAGE_SIZE && start < POOL_END && Placed(head, start, POOL_END)
      requires systop + 2 <= 0x1_0000 && polsz + 2 <= 0x1_0000 && (systop + 2 <= start || POOL_END <= systop) && (polsz + 2 <= start || POOL_END <= polsz)
      requires Apart(head, systop) && Apart(head, polsz) && Apart(systop, polsz)
      modifies image
      ensures Hold(image[..], InitialCells(head, systop, polsz, start))
      ensures forall a: nat :: a < IMAGE_SIZE && !IsInitial(head, systop, polsz, start, a) ==> image[a] == old(image[a])
    {
      ghost var cells := PutCell(head, start, []);
      cells := PutCell(systop, POOL_END, cells);
      cells := PutCell(polsz, POOL_END - start, cells);
      cells := PutCell(start, 0, cells);
      cells := PutCell(start + 2, POOL_END - start, cells);
      assert cells == InitialCells(head, systop, polsz, start);
    }
  }
}
