/** The lists of control blocks against the pool: blocks are allocated, linked, unlinked and freed,
    and what one list or the pool does leaves every other list alone. */
module SystemLists {
  import opened Bytes
  import opened PoolList
  import opened Pool
  import opened PoolRuns
  import opened Chains

  /** A list of blocks of kind c, all of them live, beside an orderly pool. */
  ghost predicate ListOk(p: SystemImage, live: seq<Area>, c: Kind, nodes: seq<nat>)
    reads p, p.image
  {
    && p.Valid() && PoolRuns.Partition(PoolState(p.list, live), p.lo, p.hi)
    && c.Ok() && HeadApart(c, p.head, p.lo, p.hi) && Registered(c, live, nodes)
    && Chain(p.image[..], c, nodes)
  }

  /** The pool's own list depends on its head and the free areas only. */
  lemma StoresKept(img: seq<byte>, img': seq<byte>, head: nat, lo: nat, hi: nat, list: seq<Area>)
    requires Stores(img, head, lo, hi, list) && |img'| == |img|
    requires forall a: nat :: a < |img| && !Outside(head, list, a) ==> img'[a] == img[a]
    ensures Stores(img', head, lo, hi, list)
  {
    forall k: nat | k <= |list| ensures LinkAt(head, list, k) < 0x1_0000 && Get16(img', LinkAt(head, list, k)) == AddrAt(list, k) {
      HeaderKept(img, img', head, lo, hi, list, k);
    }
    forall k: nat | k < |list| ensures list[k].addr < 0x1_0000 && Get16(img', list[k].addr + 2) == list[k].size {
      HeaderKept(img, img', head, lo, hi, list, k);
    }
    assert Listed(list, lo, hi);
  }

  lemma HeaderKept(img: seq<byte>, img': seq<byte>, head: nat, lo: nat, hi: nat, list: seq<Area>, k: nat)
    requires Stores(img, head, lo, hi, list) && |img'| == |img| && k <= |list|
    requires forall a: nat :: a < |img| && !Outside(head, list, a) ==> img'[a] == img[a]
    ensures LinkAt(head, list, k) < 0x1_0000 && Get16(img', LinkAt(head, list, k)) == AddrAt(list, k)
    ensures k < |list| ==> list[k].addr < 0x1_0000 && Get16(img', list[k].addr + 2) == list[k].size
  {
    LinkFacts(img, head, lo, hi, list, k);
    if k > 0 {
      LinkFacts(img, head, lo, hi, list, k - 1);
      assert In(list[k - 1], list[k - 1].addr) && In(list[k - 1], list[k - 1].addr + 1);
    }
    if k < |list| {
      assert In(list[k], list[k].addr + 2) && In(list[k], list[k].addr + 3);
    }
  }

  /** Head cell and blocks lie outside the free areas and the list head of the pool. */
  lemma ListOutside(s: PoolState, c: Kind, head: nat, lo: nat, hi: nat, nodes: seq<nat>)
    requires PoolRuns.Partition(s, lo, hi) && Pool.Placed(head, lo, hi) && c.Ok() && HeadApart(c, head, lo, hi) && Registered(c, s.live, nodes)
    ensures forall a: nat :: c.head <= a < c.head + 2 ==> Outside(head, s.free, a)
    ensures forall i: nat, a: nat {:trigger nodes[i], Outside(head, s.free, a)} :: i < |nodes| && nodes[i] <= a < nodes[i] + c.size ==> a < IMAGE_SIZE && Outside(head, s.free, a)
  {
    forall a: nat | c.head <= a < c.head + 2 ensures Outside(head, s.free, a) {
      if c.owner > 0 {
        var k: nat :| k < |s.live| && s.live[k] == Area(c.owner, Round(c.size));
        LiveIsOutside(s, head, lo, hi, k);
        assert In(s.live[k], a);
      } else {
        FreeInPool(s, lo, hi, a);
      }
    }
    forall i: nat, a: nat | i < |nodes| && nodes[i] <= a < nodes[i] + c.size ensures a < IMAGE_SIZE && Outside(head, s.free, a) {
      var b := Area(nodes[i], Round(c.size));
      var k: nat :| k < |s.live| && s.live[k] == b;
      LiveIsOutside(s, head, lo, hi, k);
      assert In(s.live[k], a);
    }
  }

  lemma CellOutside(s: PoolState, c: Kind, head: nat, lo: nat, hi: nat, nodes: seq<nat>, i: nat)
    requires PoolRuns.Partition(s, lo, hi) && Pool.Placed(head, lo, hi) && c.Ok() && HeadApart(c, head, lo, hi) && Registered(c, s.live, nodes) && i <= |nodes|
    ensures Outside(head, s.free, CellOf(c, nodes, i)) && Outside(head, s.free, CellOf(c, nodes, i) + 1)
  {
    ListOutside(s, c, head, lo, hi, nodes);
  }

  /** What the pool does to itself leaves the list alone. */
  lemma ListKept(s: PoolState, c: Kind, head: nat, lo: nat, hi: nat, nodes: seq<nat>, img: seq<byte>, img': seq<byte>)
    requires PoolRuns.Partition(s, lo, hi) && Pool.Placed(head, lo, hi) && c.Ok() && HeadApart(c, head, lo, hi) && Registered(c, s.live, nodes)
    requires Chain(img, c, nodes) && |img'| == |img|
    requires forall a: nat :: a < IMAGE_SIZE && Outside(head, s.free, a) ==> img'[a] == img[a]
    ensures Chain(img', c, nodes)
  {
    forall i: nat | i <= |nodes| && CellOf(c, nodes, i) + 2 <= |img| ensures Get16(img', CellOf(c, nodes, i)) == Get16(img, CellOf(c, nodes, i)) {
      CellOutside(s, c, head, lo, hi, nodes, i);
    }
    ChainKept(img, img', c, nodes);
  }

  /** Byte a belongs to a cell of the list. */
  ghost predicate IsCell(c: Kind, nodes: seq<nat>, a: nat)
  {
    exists i: nat :: i <= |nodes| && CellOf(c, nodes, i) <= a < CellOf(c, nodes, i) + 2
  }

  // ---------------------------------------------------------------
  // The other fields of the blocks
  // ---------------------------------------------------------------

  function Field(img: seq<byte>, n: nat, o: nat): byte
  {
    if n + o < |img| then img[n + o] else 0
  }

  /** The word at offset o of block n. */
  function Word(img: seq<byte>, n: nat, o: nat): (w: nat)
    ensures w < 0x1_0000
  {
    var lo: int, hi: int := Field(img, n, o), Field(img, n, o + 1);
    lo + 256 * hi
  }

  lemma WordIs(img: seq<byte>, n: nat, o: nat)
    requires n + o + 2 <= |img|
    ensures Word(img, n, o) == Get16(img, n + o)
  {
  }

  /** All bytes of the blocks but the links are the same. */
  ghost predicate FieldsKept(img: seq<byte>, img': seq<byte>, c: Kind, nodes: seq<nat>)
  {
    && |img'| == |img| == IMAGE_SIZE
    && (forall i: nat :: i < |nodes| ==> nodes[i] + c.size <= IMAGE_SIZE)
    && forall i: nat, o: nat :: i < |nodes| && o < c.size && !(c.link <= o < c.link + 2) ==> Field(img', nodes[i], o) == Field(img, nodes[i], o)
  }

  lemma FieldsTransitive(a: seq<byte>, b: seq<byte>, d: seq<byte>, c: Kind, nodes: seq<nat>)
    requires FieldsKept(a, b, c, nodes) && FieldsKept(b, d, c, nodes)
    ensures FieldsKept(a, d, c, nodes)
  {
  }

  /** The pool touches no block. */
  lemma PoolKeepsFields(s: PoolState, c: Kind, head: nat, lo: nat, hi: nat, nodes: seq<nat>, img: seq<byte>, img': seq<byte>)
    requires PoolRuns.Partition(s, lo, hi) && Pool.Placed(head, lo, hi) && c.Ok() && HeadApart(c, head, lo, hi) && Registered(c, s.live, nodes)
    requires |img'| == |img| == IMAGE_SIZE && forall a: nat :: a < IMAGE_SIZE && Outside(head, s.free, a) ==> img'[a] == img[a]
    ensures FieldsKept(img, img', c, nodes)
  {
    ListOutside(s, c, head, lo, hi, nodes);
    RegisteredSpread(c, s, head, lo, hi, nodes);
  }

  /** A cell of the list is no other field of a block. */
  lemma CellNoField(c: Kind, nodes: seq<nat>, k: nat, i: nat, o: nat)
    requires c.Ok() && Spread(c, nodes) && k <= |nodes| && i < |nodes| && o < c.size && !(c.link <= o < c.link + 2)
    ensures !(CellOf(c, nodes, k) <= nodes[i] + o < CellOf(c, nodes, k) + 2)
  {
  }

  /** Writes to cells of the list change no other fields. */
  lemma LinksKeepFields(c: Kind, nodes: seq<nat>, k: nat, j: nat, img: seq<byte>, img': seq<byte>)
    requires c.Ok() && Spread(c, nodes) && k <= |nodes| && j <= |nodes| && |img'| == |img| == IMAGE_SIZE
    requires forall i: nat :: i < |nodes| ==> nodes[i] + c.size <= IMAGE_SIZE
    requires forall a: nat :: a < IMAGE_SIZE && !(CellOf(c, nodes, k) <= a < CellOf(c, nodes, k) + 2) && !(CellOf(c, nodes, j) <= a < CellOf(c, nodes, j) + 2) ==> img'[a] == img[a]
    ensures FieldsKept(img, img', c, nodes)
  {
    forall i: nat, o: nat | i < |nodes| && o < c.size && !(c.link <= o < c.link + 2) ensures Field(img', nodes[i], o) == Field(img, nodes[i], o) {
      CellNoField(c, nodes, k, i, o);
      CellNoField(c, nodes, j, i, o);
    }
  }

  // ---------------------------------------------------------------
  // Operations
  // ---------------------------------------------------------------

  /** pool_alloc of a block; it is not in the list yet. */
  method NewBlock(p: SystemImage, c: Kind, ghost live: seq<Area>, ghost nodes: seq<nat>) returns (n: nat, ghost live': seq<Area>)
    requires ListOk(p, live, c, nodes)
    modifies p.image, p`list
    ensures ListOk(p, live', c, nodes)
    ensures n == 0 <==> forall b :: b in old(p.list) ==> b.size < Round(c.size)
    ensures n == 0 ==> live' == live && p.list == old(p.list) && p.image[..] == old(p.image[..])
    ensures n > 0 ==> live' == live + [Area(n, Round(c.size))] && n !in nodes && n != c.owner && p.lo <= n && n + c.size <= p.hi
    ensures n > 0 ==> AllocStep(PoolState(old(p.list), live), Area(n, Round(c.size)), PoolState(p.list, live'), p.lo, p.hi)
    ensures forall a: nat :: a < IMAGE_SIZE && Outside(p.head, old(p.list), a) ==> p.image[a] == old(p.image[a])
    ensures FieldsKept(old(p.image[..]), p.image[..], c, nodes)
  {
    ghost var s, img := PoolState(p.list, live), p.image[..];
    PlacedHead(img, p.head, p.lo, p.hi, p.list);
    n, live' := AllocLive(p, c.size, live);
    PoolKeepsFields(s, c, p.head, p.lo, p.hi, nodes, img, p.image[..]);
    ListKept(s, c, p.head, p.lo, p.hi, nodes, img, p.image[..]);
    if n > 0 { NewIsNew(s, c, p.lo, p.hi, nodes, Area(n, Round(c.size))); }
  }

  /** The bytes of a new block were free. */
  lemma BlockWasFree(s: PoolState, b: Area, t: PoolState, head: nat, lo: nat, hi: nat)
    requires AllocStep(s, b, t, lo, hi)
    ensures forall a: nat :: Outside(head, s.free, a) ==> !(b.addr <= a < b.addr + b.size)
  {
    forall a: nat | Outside(head, s.free, a) ensures !(b.addr <= a < b.addr + b.size) {
      assert In(b, a) ==> Covers(s.free, a);
    }
  }

  lemma NewIsNew(s: PoolState, c: Kind, lo: nat, hi: nat, nodes: seq<nat>, b: Area)
    requires PoolRuns.Partition(s, lo, hi) && Registered(c, s.live, nodes) && c.Ok() && b.size == Round(c.size) && AreaOk(b, lo, hi)
    requires b.addr > 0 && forall a: nat :: In(b, a) ==> Covers(s.free, a)
    ensures b.addr !in nodes && b.addr != c.owner && Registered(c, s.live + [b], nodes)
  {
    if b.addr in nodes || b.addr == c.owner > 0 {
      var k: nat :| k < |s.live| && s.live[k] == b;
      LiveIsNotFree(s, k, lo, hi);
      assert In(s.live[k], b.addr) && In(b, b.addr);
    }
  }

  /** The two words that put block n in front of block i. */
  method LinkBlock(p: SystemImage, c: Kind, prev: nat, next: nat, n: nat, ghost live: seq<Area>, ghost nodes: seq<nat>, ghost i: nat)
    requires ListOk(p, live, c, nodes) && i <= |nodes| && prev == CellOf(c, nodes, i) && next == NodeAt(nodes, i)
    requires n !in nodes && n != c.owner && Area(n, Round(c.size)) in live
    modifies p.image
    ensures ListOk(p, live, c, WithNode(nodes, i, n))
    ensures forall a: nat :: a < IMAGE_SIZE && !(prev <= a < prev + 2) && !(n + c.link <= a < n + c.link + 2) ==> p.image[a] == old(p.image[a])
    ensures FieldsKept(old(p.image[..]), p.image[..], c, WithNode(nodes, i, n))
  {
    ghost var img := p.image[..];
    PlacedHead(img, p.head, p.lo, p.hi, p.list);
    BlockLinked(PoolState(p.list, live), c, p.head, p.lo, p.hi, img, nodes, i, n);
    LinkedFields(PoolState(p.list, live), c, p.head, p.lo, p.hi, img, nodes, i, n);
    p.PutW(prev, n);
    p.PutW(n + c.link, next);
  }

  /** The same two words in the other order. */
  method LinkBlockBack(p: SystemImage, c: Kind, prev: nat, next: nat, n: nat, ghost live: seq<Area>, ghost nodes: seq<nat>, ghost i: nat)
    requires ListOk(p, live, c, nodes) && i <= |nodes| && prev == CellOf(c, nodes, i) && next == NodeAt(nodes, i)
    requires n !in nodes && n != c.owner && Area(n, Round(c.size)) in live
    modifies p.image
    ensures ListOk(p, live, c, WithNode(nodes, i, n))
    ensures forall a: nat :: a < IMAGE_SIZE && !(prev <= a < prev + 2) && !(n + c.link <= a < n + c.link + 2) ==> p.image[a] == old(p.image[a])
    ensures FieldsKept(old(p.image[..]), p.image[..], c, WithNode(nodes, i, n))
  {
    ghost var img := p.image[..];
    PlacedHead(img, p.head, p.lo, p.hi, p.list);
    BlockLinked(PoolState(p.list, live), c, p.head, p.lo, p.hi, img, nodes, i, n);
    LinkedFields(PoolState(p.list, live), c, p.head, p.lo, p.hi, img, nodes, i, n);
    EitherOrder(PoolState(p.list, live), c, p.head, p.lo, p.hi, img, nodes, i, n);
    PutTwo(p, n + c.link, next, prev, n);
    assert p.image[..] == Set16(Set16(img, prev, n), n + c.link, next);
  }

  method PutTwo(p: SystemImage, a: nat, x: nat, b: nat, y: nat)
    requires p.image.Length == IMAGE_SIZE && a + 2 <= IMAGE_SIZE && b + 2 <= IMAGE_SIZE && x < 0x1_0000 && y < 0x1_0000
    modifies p.image
    ensures p.image[..] == Set16(Set16(old(p.image[..]), a, x), b, y)
  {
    p.PutW(a, x);
    p.PutW(b, y);
  }

  lemma EitherOrder(s: PoolState, c: Kind, head: nat, lo: nat, hi: nat, img: seq<byte>, nodes: seq<nat>, i: nat, n: nat)
    requires Pool.Placed(head, lo, hi) && PoolRuns.Partition(s, lo, hi) && c.Ok() && HeadApart(c, head, lo, hi)
    requires i <= |nodes| && Registered(c, s.live, WithNode(nodes, i, n)) && CellOf(c, nodes, i) + 2 <= |img| && n + c.link + 2 <= |img|
    ensures var prev, next := CellOf(c, nodes, i), NodeAt(nodes, i);
      Set16(Set16(img, n + c.link, next), prev, n) == Set16(Set16(img, prev, n), n + c.link, next)
  {
    RegisteredSpread(c, s, head, lo, hi, WithNode(nodes, i, n));
    CellsWith(c, nodes, i, n, i);
    CellsApart(c, WithNode(nodes, i, n), i, i + 1);
  }

  lemma LinkedFields(s: PoolState, c: Kind, head: nat, lo: nat, hi: nat, img: seq<byte>, nodes: seq<nat>, i: nat, n: nat)
    requires Pool.Placed(head, lo, hi) && PoolRuns.Partition(s, lo, hi) && |img| == IMAGE_SIZE
    requires c.Ok() && HeadApart(c, head, lo, hi) && i <= |nodes| && Registered(c, s.live, WithNode(nodes, i, n))
    requires CellOf(c, nodes, i) + 2 <= |img| && n + c.link + 2 <= |img|
    ensures FieldsKept(img, Set16(Set16(img, CellOf(c, nodes, i), n), n + c.link, NodeAt(nodes, i)), c, WithNode(nodes, i, n))
  {
    var r := WithNode(nodes, i, n);
    RegisteredSpread(c, s, head, lo, hi, r);
    CellsWith(c, nodes, i, n, i);
    LinksKeepFields(c, r, i, i + 1, img, Set16(Set16(img, CellOf(c, nodes, i), n), n + c.link, NodeAt(nodes, i)));
  }

  /** The two words, on the image. */
  lemma BlockLinked(s: PoolState, c: Kind, head: nat, lo: nat, hi: nat, img: seq<byte>, nodes: seq<nat>, i: nat, n: nat)
    requires Stores(img, head, lo, hi, s.free) && Pool.Placed(head, lo, hi) && PoolRuns.Partition(s, lo, hi)
    requires c.Ok() && HeadApart(c, head, lo, hi) && Registered(c, s.live, nodes) && Chain(img, c, nodes)
    requires i <= |nodes| && n !in nodes && n != c.owner && Area(n, Round(c.size)) in s.live
    ensures var prev, next := CellOf(c, nodes, i), NodeAt(nodes, i);
      && prev + 2 <= |img| && next < 0x1_0000 && n + c.link + 2 <= |img| && n < 0x1_0000 && Registered(c, s.live, WithNode(nodes, i, n))
      && var img2 := Set16(Set16(img, prev, n), n + c.link, next);
         Chain(img2, c, WithNode(nodes, i, n)) && Stores(img2, head, lo, hi, s.free)
  {
    WithRegistered(c, s.live, nodes, i, n);
    BlockBounds(s, c, head, lo, hi, img, nodes, i, n);
    Linked(img, c, nodes, i, n);
    WordsOutside(img, head, lo, hi, s.free, CellOf(c, nodes, i), n, n + c.link, NodeAt(nodes, i));
  }

  /** The two cells lie inside the image, apart from all other cells and from what the pool uses. */
  lemma BlockBounds(s: PoolState, c: Kind, head: nat, lo: nat, hi: nat, img: seq<byte>, nodes: seq<nat>, i: nat, n: nat)
    requires PoolRuns.Partition(s, lo, hi) && Pool.Placed(head, lo, hi) && c.Ok() && HeadApart(c, head, lo, hi) && Chain(img, c, nodes)
    requires i <= |nodes| && Registered(c, s.live, nodes) && Registered(c, s.live, WithNode(nodes, i, n))
    ensures var prev, q := CellOf(c, nodes, i), n + c.link;
      && 0 < n && n + c.size <= 0x1_0000 && Spread(c, WithNode(nodes, i, n)) && prev + 2 <= |img| && NodeAt(nodes, i) < 0x1_0000
      && Outside(head, s.free, prev) && Outside(head, s.free, prev + 1) && Outside(head, s.free, q) && Outside(head, s.free, q + 1)
  {
    var r := WithNode(nodes, i, n);
    RegisteredSpread(c, s, head, lo, hi, r);
    assert lo <= r[i] && r[i] + c.size <= hi;
    CellFacts(img, c, nodes, i);
    NextFits(img, c, nodes, i);
    CellsWith(c, nodes, i, n, i);
    CellOutside(s, c, head, lo, hi, nodes, i);
    CellOutside(s, c, head, lo, hi, r, i + 1);
  }

  lemma WordsOutside(img: seq<byte>, head: nat, lo: nat, hi: nat, list: seq<Area>, p: nat, x: nat, q: nat, y: nat)
    requires Stores(img, head, lo, hi, list) && p + 2 <= |img| && q + 2 <= |img|
    requires Outside(head, list, p) && Outside(head, list, p + 1) && Outside(head, list, q) && Outside(head, list, q + 1)
    ensures Stores(Set16(Set16(img, p, x), q, y), head, lo, hi, list)
  {
    StoresKept(img, Set16(Set16(img, p, x), q, y), head, lo, hi, list);
  }

  lemma NextFits(img: seq<byte>, c: Kind, nodes: seq<nat>, i: nat)
    requires Chain(img, c, nodes)
    ensures NodeAt(nodes, i) < 0x1_0000
  {
  }

  lemma PlacedHead(img: seq<byte>, head: nat, lo: nat, hi: nat, list: seq<Area>)
    requires Stores(img, head, lo, hi, list)
    ensures Pool.Placed(head, lo, hi)
  {
  }

  lemma WithRegistered(c: Kind, live: seq<Area>, nodes: seq<nat>, i: nat, n: nat)
    requires Registered(c, live, nodes) && i <= |nodes| && n !in nodes && n != c.owner && Area(n, Round(c.size)) in live
    ensures Registered(c, live, WithNode(nodes, i, n))
  {
  }

  /** The word that takes block i out of the list; it stays allocated. */
  method UnlinkBlock(p: SystemImage, c: Kind, prev: nat, next: nat, ghost live: seq<Area>, ghost nodes: seq<nat>, ghost i: nat)
    requires ListOk(p, live, c, nodes) && i < |nodes| && prev == CellOf(c, nodes, i) && next == NodeAt(nodes, i + 1)
    modifies p.image
    ensures ListOk(p, live, c, WithoutNode(nodes, i))
    ensures forall a: nat :: a < IMAGE_SIZE && !(prev <= a < prev + 2) ==> p.image[a] == old(p.image[a])
    ensures FieldsKept(old(p.image[..]), p.image[..], c, nodes)
  {
    ghost var img, s := p.image[..], PoolState(p.list, live);
    PlacedHead(img, p.head, p.lo, p.hi, p.list);
    RegisteredSpread(c, s, p.head, p.lo, p.hi, nodes);
    CellFacts(img, c, nodes, i);
    CellOutside(s, c, p.head, p.lo, p.hi, nodes, i);
    NextFits(img, c, nodes, i + 1);
    p.PutW(prev, next);
    Unlinked(img, c, nodes, i);
    StoresKept(img, p.image[..], p.head, p.lo, p.hi, p.list);
    LinksKeepFields(c, nodes, i, i, img, p.image[..]);
  }

  /** pool_free of a block that is not in the list any more. */
  method FreeBlock(p: SystemImage, c: Kind, n: nat, ghost live: seq<Area>, ghost nodes: seq<nat>, ghost k: nat) returns (ghost live': seq<Area>)
    requires ListOk(p, live, c, nodes) && k < |live| && live[k] == Area(n, Round(c.size)) && n !in nodes && n != c.owner
    modifies p.image, p`list
    ensures ListOk(p, live', c, nodes) && live' == live[..k] + live[k + 1..]
    ensures FreeStep(PoolState(old(p.list), live), k, PoolState(p.list, live'), p.lo, p.hi)
    ensures forall a: nat :: a < IMAGE_SIZE && Outside(p.head, p.list, a) ==> p.image[a] == old(p.image[a])
    ensures FieldsKept(old(p.image[..]), p.image[..], c, nodes)
  {
    ghost var img := p.image[..];
    PlacedHead(img, p.head, p.lo, p.hi, p.list);
    live' := FreeLive(p, n, c.size, k, live);
    StillRegistered(c, live, nodes, k);
    ListKept(PoolState(p.list, live'), c, p.head, p.lo, p.hi, nodes, img, p.image[..]);
    PoolKeepsFields(PoolState(p.list, live'), c, p.head, p.lo, p.hi, nodes, img, p.image[..]);
  }

  lemma FewerFields(img: seq<byte>, img': seq<byte>, c: Kind, nodes: seq<nat>, i: nat)
    requires FieldsKept(img, img', c, nodes) && i < |nodes|
    ensures FieldsKept(img, img', c, WithoutNode(nodes, i))
  {
    var r := WithoutNode(nodes, i);
    forall j: nat, o: nat | j < |r| && o < c.size && !(c.link <= o < c.link + 2) ensures Field(img', r[j], o) == Field(img, r[j], o) {
      assert r[j] == nodes[if j < i then j else j + 1];
    }
  }

  /** Block i leaves the list and the pool. */
  method DropBlock(p: SystemImage, c: Kind, prev: nat, n: nat, next: nat, ghost live: seq<Area>, ghost nodes: seq<nat>, ghost i: nat)
    returns (ghost live': seq<Area>, ghost k: nat)
    requires ListOk(p, live, c, nodes) && i < |nodes| && prev == CellOf(c, nodes, i) && n == nodes[i] && next == NodeAt(nodes, i + 1)
    modifies p.image, p`list
    ensures ListOk(p, live', c, WithoutNode(nodes, i)) && FieldsKept(old(p.image[..]), p.image[..], c, WithoutNode(nodes, i))
    ensures k < |live| && live[k] == Area(n, Round(c.size)) && live' == live[..k] + live[k + 1..]
    ensures FreeStep(PoolState(old(p.list), live), k, PoolState(p.list, live'), p.lo, p.hi)
    ensures forall a: nat :: a < IMAGE_SIZE && Outside(p.head, p.list, a) && !IsCell(c, nodes, a) ==> p.image[a] == old(p.image[a])
  {
    ghost var img := p.image[..];
    k :| k < |live| && live[k] == Area(nodes[i], Round(c.size));
    UnlinkBlock(p, c, prev, next, live, nodes, i);
    ghost var img1, r := p.image[..], WithoutNode(nodes, i);
    live' := FreeBlock(p, c, n, live, r, k);
    FewerFields(img, img1, c, nodes, i);
    FieldsTransitive(img, img1, p.image[..], c, r);
    assert forall a: nat :: prev <= a < prev + 2 ==> IsCell(c, nodes, a);
  }

  lemma StillRegistered(c: Kind, live: seq<Area>, nodes: seq<nat>, k: nat)
    requires Registered(c, live, nodes) && k < |live| && live[k].addr !in nodes && live[k].addr != c.owner
    ensures Registered(c, live[..k] + live[k + 1..], nodes)
  {
    var r := live[..k] + live[k + 1..];
    forall b | b in live && b.addr != live[k].addr ensures b in r {
      var j: nat :| j < |live| && live[j] == b;
      assert r[if j < k then j else j - 1] == live[j];
    }
  }

  /** sys_putb into a field of a block that is not linked yet. */
  method PutField(p: SystemImage, c: Kind, n: nat, o: nat, b: byte, ghost live: seq<Area>, ghost nodes: seq<nat>)
    requires ListOk(p, live, c, nodes) && n !in nodes && n != c.owner && Area(n, Round(c.size)) in live && o < c.size
    modifies p.image
    ensures ListOk(p, live, c, nodes) && FieldsKept(old(p.image[..]), p.image[..], c, nodes)
    ensures n + o < p.image.Length && p.image[..] == old(p.image[..])[n + o := b]
  {
    ghost var img, s := p.image[..], PoolState(p.list, live);
    PlacedHead(img, p.head, p.lo, p.hi, p.list);
    FieldOutside(s, c, p.head, p.lo, p.hi, nodes, n, o);
    p.image[n + o] := b;
    assert p.image[..] == img[n + o := b];
    StoresKept(img, p.image[..], p.head, p.lo, p.hi, p.list);
    ChainKept(img, p.image[..], c, nodes);
  }

  lemma FieldOutside(s: PoolState, c: Kind, head: nat, lo: nat, hi: nat, nodes: seq<nat>, n: nat, o: nat)
    requires PoolRuns.Partition(s, lo, hi) && Pool.Placed(head, lo, hi) && c.Ok() && HeadApart(c, head, lo, hi) && Registered(c, s.live, nodes)
    requires n !in nodes && n != c.owner && Area(n, Round(c.size)) in s.live && o < c.size
    ensures n + o < 0x1_0000 && Outside(head, s.free, n + o)
    ensures forall i: nat :: i <= |nodes| ==> !(CellOf(c, nodes, i) <= n + o < CellOf(c, nodes, i) + 2)
    ensures forall i: nat :: i < |nodes| ==> nodes[i] + c.size <= IMAGE_SIZE && !(nodes[i] <= n + o < nodes[i] + c.size)
  {
    var r := WithNode(nodes, 0, n);
    WithRegistered(c, s.live, nodes, 0, n);
    RegisteredSpread(c, s, head, lo, hi, r);
    ListOutside(s, c, head, lo, hi, r);
    assert r[0] == n;
    forall i: nat | i < |nodes| ensures nodes[i] + c.size <= IMAGE_SIZE && !(nodes[i] <= n + o < nodes[i] + c.size) {
      assert r[i + 1] == nodes[i];
    }
  }

  /** sys_putw into a field of a block that is not linked yet. */
  method PutWord(p: SystemImage, c: Kind, n: nat, o: nat, w: nat, ghost live: seq<Area>, ghost nodes: seq<nat>)
    requires ListOk(p, live, c, nodes) && n !in nodes && n != c.owner && Area(n, Round(c.size)) in live && o + 1 < c.size && w < 0x1_0000
    modifies p.image
    ensures ListOk(p, live, c, nodes) && n + o + 1 < p.image.Length
    ensures p.image[..] == old(p.image[..])[n + o := w % 256][n + o + 1 := w / 256]
    ensures Word(p.image[..], n, o) == w
  {
    PutField(p, c, n, o, w % 256, live, nodes);
    PutField(p, c, n, o + 1, w / 256, live, nodes);
  }

  /** sys_getw of a field of block i. */
  method GetWord(p: SystemImage, c: Kind, o: nat, n: nat, ghost live: seq<Area>, ghost nodes: seq<nat>, ghost i: nat) returns (w: nat)
    requires ListOk(p, live, c, nodes) && i < |nodes| && n == nodes[i] && o + 1 < c.size
    ensures w == Word(p.image[..], n, o)
  {
    w := p.GetW(n + o);
    WordIs(p.image[..], n, o);
  }

  // ---------------------------------------------------------------
  // Other lists
  // ---------------------------------------------------------------

  /** Byte a belongs to the head cell of the list or to one of its blocks. */
  ghost predicate IsListByte(c: Kind, nodes: seq<nat>, a: nat)
  {
    c.head <= a < c.head + 2 || exists i: nat :: i < |nodes| && nodes[i] <= a < nodes[i] + c.size
  }

  /** The list's own fields, too. */
  lemma OwnFieldsKept(s: PoolState, head: nat, lo: nat, hi: nat, c: Kind, nodes: seq<nat>, img: seq<byte>, img': seq<byte>)
    requires PoolRuns.Partition(s, lo, hi) && Pool.Placed(head, lo, hi) && |img'| == |img| == IMAGE_SIZE
    requires c.Ok() && HeadApart(c, head, lo, hi) && Registered(c, s.live, nodes)
    requires forall a: nat :: a < IMAGE_SIZE && Outside(head, s.free, a) && !IsCell(c, nodes, a) ==> img'[a] == img[a]
    ensures FieldsKept(img, img', c, nodes)
  {
    RegisteredSpread(c, s, head, lo, hi, nodes);
    ListOutside(s, c, head, lo, hi, nodes);
    forall i: nat, o: nat | i < |nodes| && o < c.size && !(c.link <= o < c.link + 2) ensures Field(img', nodes[i], o) == Field(img, nodes[i], o) {
      forall k: nat | k <= |nodes| ensures !(CellOf(c, nodes, k) <= nodes[i] + o < CellOf(c, nodes, k) + 2) {
        CellNoField(c, nodes, k, i, o);
      }
      assert Outside(head, s.free, nodes[i] + o);
    }
  }
}
