/** All lists of vmr.c together: tasks, partitions, and the sub-partitions of each partition.  No
    operation on one of them disturbs the pool or another list. */
module SystemState {
  import opened Bytes
  import opened PoolList
  import opened Pool
  import opened PoolRuns
  import opened Chains
  import opened SystemLists

  datatype BlockList = BlockList(kind: Kind, nodes: seq<nat>)

  /** A list as in ListOk, on values. */
  ghost predicate ListIn(img: seq<byte>, head: nat, lo: nat, hi: nat, s: PoolState, l: BlockList)
  {
    l.kind.Ok() && HeadApart(l.kind, head, lo, hi) && Registered(l.kind, s.live, l.nodes) && Chain(img, l.kind, l.nodes)
  }

  /** No block in common, and no cell in common. */
  ghost predicate ApartLists(a: BlockList, b: BlockList)
  {
    && (forall i: nat, j: nat :: i < |a.nodes| && j < |b.nodes| ==> a.nodes[i] != b.nodes[j])
    && forall i: nat, j: nat :: i <= |a.nodes| && j <= |b.nodes| ==> Apart(CellOf(a.kind, a.nodes, i), CellOf(b.kind, b.nodes, j))
  }

  ghost predicate AllOk(img: seq<byte>, head: nat, lo: nat, hi: nat, s: PoolState, ls: seq<BlockList>)
  {
    && |img| == IMAGE_SIZE && Pool.Placed(head, lo, hi) && PoolRuns.Partition(s, lo, hi)
    && (forall k: nat :: k < |ls| ==> ListIn(img, head, lo, hi, s, ls[k]))
    && forall j: nat, k: nat :: j < |ls| && k < |ls| && j != k ==> ApartLists(ls[j], ls[k])
  }

  /** Only bytes of the pool's own and cells of list l were written. */
  ghost predicate Wrote(img: seq<byte>, img': seq<byte>, head: nat, s: PoolState, t: PoolState, l: BlockList)
  {
    && |img'| == |img| == IMAGE_SIZE
    && forall a: nat :: a < IMAGE_SIZE && Outside(head, s.free, a) && Outside(head, t.free, a) && !IsCell(l.kind, l.nodes, a) ==> img'[a] == img[a]
  }

  /** All bytes of a list but the head cell of another one. */
  ghost predicate BytesKept(img: seq<byte>, img': seq<byte>, o: BlockList, head: nat)
  {
    && |img'| == |img| == IMAGE_SIZE
    && forall a: nat :: IsListByte(o.kind, o.nodes, a) && !(head <= a < head + 2) ==> a < IMAGE_SIZE && img'[a] == img[a]
  }

  // ---------------------------------------------------------------
  // One list against another
  // ---------------------------------------------------------------

  /** A byte of list o is a cell of list l only if it is in the head cell of l. */
  lemma NoForeignCell(img: seq<byte>, head: nat, lo: nat, hi: nat, s: PoolState, l: BlockList, o: BlockList, a: nat)
    requires PoolRuns.Partition(s, lo, hi) && Pool.Placed(head, lo, hi) && ListIn(img, head, lo, hi, s, l) && ListIn(img, head, lo, hi, s, o) && ApartLists(l, o)
    requires IsListByte(o.kind, o.nodes, a) && !(l.kind.head <= a < l.kind.head + 2)
    ensures !IsCell(l.kind, l.nodes, a)
  {
    forall i: nat | i <= |l.nodes| ensures !(CellOf(l.kind, l.nodes, i) <= a < CellOf(l.kind, l.nodes, i) + 2) {
      if o.kind.head <= a < o.kind.head + 2 {
        assert Apart(CellOf(l.kind, l.nodes, i), CellOf(o.kind, o.nodes, 0));
      } else if i > 0 {
        var j: nat :| j < |o.nodes| && o.nodes[j] <= a < o.nodes[j] + o.kind.size;
        LiveApart(s, lo, hi, Area(l.nodes[i - 1], Round(l.kind.size)), Area(o.nodes[j], Round(o.kind.size)));
      }
    }
  }

  /** What an operation on list l leaves of list o. */
  lemma OtherKept(img: seq<byte>, img': seq<byte>, head: nat, lo: nat, hi: nat, s: PoolState, t: PoolState, l: BlockList, o: BlockList)
    requires PoolRuns.Partition(s, lo, hi) && PoolRuns.Partition(t, lo, hi) && Pool.Placed(head, lo, hi)
    requires ListIn(img, head, lo, hi, s, l) && ListIn(img, head, lo, hi, s, o) && ApartLists(l, o) && Registered(o.kind, t.live, o.nodes)
    requires Wrote(img, img', head, s, t, l)
    ensures ListIn(img', head, lo, hi, t, o) && BytesKept(img, img', o, l.kind.head)
  {
    forall a: nat | IsListByte(o.kind, o.nodes, a) && !(l.kind.head <= a < l.kind.head + 2) ensures a < IMAGE_SIZE && img'[a] == img[a] {
      NoForeignCell(img, head, lo, hi, s, l, o, a);
      ListOutside(s, o.kind, head, lo, hi, o.nodes);
      ListOutside(t, o.kind, head, lo, hi, o.nodes);
    }
    CellsKept(img, img', l, o);
  }

  lemma CellsKept(img: seq<byte>, img': seq<byte>, l: BlockList, o: BlockList)
    requires Chain(img, o.kind, o.nodes) && o.kind.Ok() && ApartLists(l, o) && BytesKept(img, img', o, l.kind.head)
    ensures Chain(img', o.kind, o.nodes)
  {
    forall j: nat | j <= |o.nodes| && CellOf(o.kind, o.nodes, j) + 2 <= |img| ensures Get16(img', CellOf(o.kind, o.nodes, j)) == Get16(img, CellOf(o.kind, o.nodes, j)) {
      assert Apart(CellOf(l.kind, l.nodes, 0), CellOf(o.kind, o.nodes, j));
      assert j > 0 ==> o.nodes[j - 1] <= CellOf(o.kind, o.nodes, j) < o.nodes[j - 1] + o.kind.size - 1;
      assert IsListByte(o.kind, o.nodes, CellOf(o.kind, o.nodes, j)) && IsListByte(o.kind, o.nodes, CellOf(o.kind, o.nodes, j) + 1);
    }
    ChainKept(img, img', o.kind, o.nodes);
  }

  /** A new block of one list is no block of another, nor does its cell touch one of theirs. */
  lemma NewApart(img: seq<byte>, head: nat, lo: nat, hi: nat, s: PoolState, t: PoolState, l: BlockList, i: nat, n: nat, o: BlockList)
    requires PoolRuns.Partition(s, lo, hi) && Pool.Placed(head, lo, hi) && ListIn(img, head, lo, hi, s, l) && ListIn(img, head, lo, hi, s, o) && ApartLists(l, o)
    requires i <= |l.nodes| && AllocStep(s, Area(n, Round(l.kind.size)), t, lo, hi)
    ensures ApartLists(BlockList(l.kind, WithNode(l.nodes, i, n)), o) && ApartLists(o, BlockList(l.kind, WithNode(l.nodes, i, n)))
  {
    var b := Area(n, Round(l.kind.size));
    var r := WithNode(l.nodes, i, n);
    BlockWasFree(s, b, t, head, lo, hi);
    forall j: nat, k: nat | j < |r| && k < |o.nodes| ensures r[j] != o.nodes[k] {
      ListOutside(s, o.kind, head, lo, hi, o.nodes);
      assert Outside(head, s.free, o.nodes[k]);
      if j != i { assert l.nodes[if j < i then j else j - 1] != o.nodes[k]; }
    }
    forall j: nat, k: nat | j <= |r| && k <= |o.nodes| ensures Apart(CellOf(l.kind, r, j), CellOf(o.kind, o.nodes, k)) {
      CellsWith(l.kind, l.nodes, i, n, j);
      CellOutside(s, o.kind, head, lo, hi, o.nodes, k);
      if j <= i {
        assert Apart(CellOf(l.kind, l.nodes, j), CellOf(o.kind, o.nodes, k));
      } else if j > i + 1 {
        assert Apart(CellOf(l.kind, l.nodes, j - 1), CellOf(o.kind, o.nodes, k));
      }
    }
    ApartSymmetric(BlockList(l.kind, r), o);
  }

  lemma ApartSymmetric(a: BlockList, b: BlockList)
    requires ApartLists(a, b)
    ensures ApartLists(b, a)
  {
    forall i: nat, j: nat | i <= |b.nodes| && j <= |a.nodes| ensures Apart(CellOf(b.kind, b.nodes, i), CellOf(a.kind, a.nodes, j)) {
      assert Apart(CellOf(a.kind, a.nodes, j), CellOf(b.kind, b.nodes, i));
    }
  }

  lemma FewerApart(l: BlockList, i: nat, o: BlockList)
    requires i < |l.nodes| && ApartLists(l, o)
    ensures ApartLists(BlockList(l.kind, WithoutNode(l.nodes, i)), o) && ApartLists(o, BlockList(l.kind, WithoutNode(l.nodes, i)))
  {
    var r := WithoutNode(l.nodes, i);
    forall j: nat, k: nat | j < |r| && k < |o.nodes| ensures r[j] != o.nodes[k] {
      assert l.nodes[if j < i then j else j + 1] != o.nodes[k];
    }
    forall j: nat, k: nat | j <= |r| && k <= |o.nodes| ensures Apart(CellOf(l.kind, r, j), CellOf(o.kind, o.nodes, k)) {
      CellsWithout(l.kind, l.nodes, i, j);
      assert Apart(CellOf(l.kind, l.nodes, if j <= i then j else j + 1), CellOf(o.kind, o.nodes, k));
    }
    ApartSymmetric(BlockList(l.kind, r), o);
  }

  // ---------------------------------------------------------------
  // All lists
  // ---------------------------------------------------------------

  /** All lists but list j are as before, up to the head cell of list j. */
  ghost predicate OthersKept(img: seq<byte>, img': seq<byte>, ls: seq<BlockList>, j: nat)
    requires j < |ls|
  {
    forall k: nat :: k < |ls| && k != j ==> BytesKept(img, img', ls[k], ls[j].kind.head)
  }

  /** An operation on list j that makes it l. */
  lemma StepKeepsAll(img: seq<byte>, img': seq<byte>, head: nat, lo: nat, hi: nat, s: PoolState, t: PoolState, ls: seq<BlockList>, j: nat, l: BlockList)
    requires AllOk(img, head, lo, hi, s, ls) && j < |ls| && PoolRuns.Partition(t, lo, hi) && Wrote(img, img', head, s, t, ls[j]) && ListIn(img', head, lo, hi, t, l)
    requires forall k: nat :: k < |ls| && k != j ==> Registered(ls[k].kind, t.live, ls[k].nodes) && ApartLists(l, ls[k]) && ApartLists(ls[k], l)
    ensures AllOk(img', head, lo, hi, t, ls[j := l]) && OthersKept(img, img', ls, j)
  {
    var r := ls[j := l];
    forall k: nat | k < |ls| && k != j ensures ListIn(img', head, lo, hi, t, ls[k]) && BytesKept(img, img', ls[k], ls[j].kind.head) {
      OtherKept(img, img', head, lo, hi, s, t, ls[j], ls[k]);
    }
    forall i: nat, k: nat | i < |r| && k < |r| && i != k ensures ApartLists(r[i], r[k]) {
      if i != j && k != j { assert ApartLists(ls[i], ls[k]); }
    }
  }

  /** A block put into list j. */
  lemma InsertKeepsAll(img: seq<byte>, img': seq<byte>, head: nat, lo: nat, hi: nat, s: PoolState, t: PoolState, ls: seq<BlockList>, j: nat, i: nat, n: nat)
    requires AllOk(img, head, lo, hi, s, ls) && j < |ls| && i <= |ls[j].nodes| && AllocStep(s, Area(n, Round(ls[j].kind.size)), t, lo, hi)
    requires Wrote(img, img', head, s, t, ls[j]) && ListIn(img', head, lo, hi, t, BlockList(ls[j].kind, WithNode(ls[j].nodes, i, n)))
    ensures AllOk(img', head, lo, hi, t, ls[j := BlockList(ls[j].kind, WithNode(ls[j].nodes, i, n))]) && OthersKept(img, img', ls, j)
  {
    AllocKeepsPartition(s, Area(n, Round(ls[j].kind.size)), t, lo, hi);
    forall k: nat | k < |ls| && k != j
      ensures Registered(ls[k].kind, t.live, ls[k].nodes) && ApartLists(BlockList(ls[j].kind, WithNode(ls[j].nodes, i, n)), ls[k])
      ensures ApartLists(ls[k], BlockList(ls[j].kind, WithNode(ls[j].nodes, i, n)))
    {
      NewApart(img, head, lo, hi, s, t, ls[j], i, n, ls[k]);
    }
    StepKeepsAll(img, img', head, lo, hi, s, t, ls, j, BlockList(ls[j].kind, WithNode(ls[j].nodes, i, n)));
  }

  /** Block i taken out of list j; it must not carry the head of another list. */
  lemma RemoveKeepsAll(img: seq<byte>, img': seq<byte>, head: nat, lo: nat, hi: nat, s: PoolState, x: nat, t: PoolState, ls: seq<BlockList>, j: nat, i: nat)
    requires AllOk(img, head, lo, hi, s, ls) && j < |ls| && i < |ls[j].nodes| && FreeStep(s, x, t, lo, hi) && s.live[x].addr == ls[j].nodes[i]
    requires forall k: nat :: k < |ls| ==> ls[k].kind.owner != ls[j].nodes[i]
    requires Wrote(img, img', head, s, t, ls[j]) && ListIn(img', head, lo, hi, t, BlockList(ls[j].kind, WithoutNode(ls[j].nodes, i)))
    ensures AllOk(img', head, lo, hi, t, ls[j := BlockList(ls[j].kind, WithoutNode(ls[j].nodes, i))]) && OthersKept(img, img', ls, j)
  {
    FreeKeepsPartition(s, x, t, lo, hi);
    forall k: nat | k < |ls| && k != j
      ensures Registered(ls[k].kind, t.live, ls[k].nodes) && ApartLists(BlockList(ls[j].kind, WithoutNode(ls[j].nodes, i)), ls[k])
      ensures ApartLists(ls[k], BlockList(ls[j].kind, WithoutNode(ls[j].nodes, i)))
    {
      assert s.live[x].addr !in ls[k].nodes;
      StillRegistered(ls[k].kind, s.live, ls[k].nodes, x);
      FewerApart(ls[j], i, ls[k]);
    }
    StepKeepsAll(img, img', head, lo, hi, s, t, ls, j, BlockList(ls[j].kind, WithoutNode(ls[j].nodes, i)));
  }

  lemma EmptyChain(img: seq<byte>, c: Kind)
    requires |img| == IMAGE_SIZE && c.Ok() && Get16(img, c.head) == 0
    ensures Chain(img, c, [])
  {
    forall i: nat | i <= 0 ensures Get16(img, CellOf(c, [], i)) == NodeAt([], i) {
    }
  }

  /** A new, empty list with its head in block n of list j. */
  lemma AddEmptyList(img: seq<byte>, head: nat, lo: nat, hi: nat, s: PoolState, ls: seq<BlockList>, j: nat, i: nat, c: Kind)
    requires AllOk(img, head, lo, hi, s, ls) && j < |ls| && i < |ls[j].nodes| && c.Ok() && c.size == ls[j].kind.size && c.owner == ls[j].nodes[i] > 0
    requires c.owner <= c.head && c.head + 2 <= c.owner + c.size && Apart(c.head, c.owner + ls[j].kind.link) && Get16(img, c.head) == 0
    requires forall k: nat :: k < |ls| ==> ls[k].kind.owner != c.owner
    ensures AllOk(img, head, lo, hi, s, ls + [BlockList(c, [])])
  {
    var e := BlockList(c, []);
    assert Area(c.owner, Round(c.size)) in s.live;
    EmptyChain(img, c);
    forall k: nat | k < |ls| ensures ApartLists(e, ls[k]) && ApartLists(ls[k], e) {
      forall x: nat | x <= |ls[k].nodes| ensures Apart(c.head, CellOf(ls[k].kind, ls[k].nodes, x)) {
        HeadInBlock(img, head, lo, hi, s, ls, j, i, c, k, x);
      }
      ApartSymmetric(e, ls[k]);
    }
    var r := ls + [e];
    forall x: nat, y: nat | x < |r| && y < |r| && x != y ensures ApartLists(r[x], r[y]) {
      if x < |ls| && y < |ls| { assert ApartLists(ls[x], ls[y]); }
    }
  }

  /** A head cell in block i of list j is apart from cell x of list k. */
  lemma HeadInBlock(img: seq<byte>, head: nat, lo: nat, hi: nat, s: PoolState, ls: seq<BlockList>, j: nat, i: nat, c: Kind, k: nat, x: nat)
    requires AllOk(img, head, lo, hi, s, ls) && j < |ls| && i < |ls[j].nodes| && c.Ok() && c.size == ls[j].kind.size && c.owner == ls[j].nodes[i] > 0
    requires c.owner <= c.head && c.head + 2 <= c.owner + c.size && Apart(c.head, c.owner + ls[j].kind.link) && k < |ls| && ls[k].kind.owner != c.owner && x <= |ls[k].nodes|
    ensures Apart(c.head, CellOf(ls[k].kind, ls[k].nodes, x))
  {
    var b, l := Area(c.owner, Round(c.size)), ls[k];
    assert b in s.live;
    if x == 0 {
      if l.kind.owner > 0 {
        LiveApart(s, lo, hi, b, Area(l.kind.owner, Round(l.kind.size)));
      } else {
        LiveInside(s, lo, hi, b);
      }
    } else if l.nodes[x - 1] != c.owner {
      LiveApart(s, lo, hi, b, Area(l.nodes[x - 1], Round(l.kind.size)));
    } else {
      assert k == j;
    }
  }

  lemma LiveInside(s: PoolState, lo: nat, hi: nat, b: Area)
    requires PoolRuns.Partition(s, lo, hi) && b in s.live
    ensures lo <= b.addr && b.addr + b.size <= hi
  {
    var k: nat :| k < |s.live| && s.live[k] == b;
    assert AreaOk(s.live[k], lo, hi);
  }

  /** Leaving a list out of consideration. */
  lemma FewerLists(img: seq<byte>, head: nat, lo: nat, hi: nat, s: PoolState, ls: seq<BlockList>, x: nat)
    requires AllOk(img, head, lo, hi, s, ls) && x < |ls|
    ensures AllOk(img, head, lo, hi, s, ls[..x] + ls[x + 1..])
  {
    var r := ls[..x] + ls[x + 1..];
    forall k: nat | k < |r| ensures r[k] == ls[if k < x then k else k + 1] {
    }
    forall j: nat, k: nat | j < |r| && k < |r| && j != k ensures ApartLists(r[j], r[k]) {
      assert ApartLists(ls[if j < x then j else j + 1], ls[if k < x then k else k + 1]);
    }
  }
}
