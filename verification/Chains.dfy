/** Linked lists of control blocks in the system image (vmr.c): a cell with the address of the first
    block, and in each block, at a fixed offset, the address of the next one.  The blocks are live
    areas of the pool. */
module Chains {
  import opened Bytes
  import opened PoolList
  import opened Pool
  import opened PoolRuns

  /** What kind of list: its head cell, the offset of the link, and the size of a block.  The head
      cell lies outside the pool, or inside a block, the owner, of the same size. */
  datatype Kind = Kind(head: nat, link: nat, size: nat, owner: nat)
  {
    predicate Ok() { head + 2 <= 0x1_0000 && link + 2 <= size < 0xFFF0 }
  }

  /** The cell that holds the address of block i; the last one holds 0. */
  function CellOf(c: Kind, nodes: seq<nat>, i: nat): nat
  {
    if 0 < i <= |nodes| then nodes[i - 1] + c.link else c.head
  }

  function NodeAt(nodes: seq<nat>, i: nat): nat
  {
    if i < |nodes| then nodes[i] else 0
  }

  ghost predicate ChainKey(k: int)
  {
    true
  }

  /** The cells in the image link exactly these blocks. */
  ghost predicate Chain(img: seq<byte>, c: Kind, nodes: seq<nat>)
  {
    && |img| == IMAGE_SIZE && c.Ok()
    && (forall i: nat :: i < |nodes| ==> 0 < nodes[i] && nodes[i] + c.size <= 0x1_0000)
    && forall key {:trigger ChainKey(key)} :: Folded(key) ==>
    forall i: nat :: i <= |nodes| ==> CellOf(c, nodes, i) + 2 <= 0x1_0000 && Get16(img, CellOf(c, nodes, i)) == NodeAt(nodes, i)
  }

  /** The blocks and the head cell lie apart. */
  ghost predicate Spread(c: Kind, nodes: seq<nat>)
  {
    && (forall i: nat :: i < |nodes| ==> c.head + 2 <= nodes[i] || nodes[i] + c.size <= c.head)
    && forall i: nat, j: nat :: i < j < |nodes| ==> nodes[i] + c.size <= nodes[j] || nodes[j] + c.size <= nodes[i]
  }

  lemma CellsApart(c: Kind, nodes: seq<nat>, i: nat, j: nat)
    requires c.Ok() && Spread(c, nodes) && i <= |nodes| && j <= |nodes| && i != j
    ensures Apart(CellOf(c, nodes, i), CellOf(c, nodes, j))
  {
  }

  lemma CellFacts(img: seq<byte>, c: Kind, nodes: seq<nat>, i: nat)
    requires Chain(img, c, nodes) && i <= |nodes|
    ensures CellOf(c, nodes, i) + 2 <= 0x1_0000 && Get16(img, CellOf(c, nodes, i)) == NodeAt(nodes, i)
    ensures NodeAt(nodes, i) == 0 <==> i == |nodes|
  {
    assert ChainKey(0);
  }

  /** A block n put in front of block i. */
  function WithNode(nodes: seq<nat>, i: nat, n: nat): (r: seq<nat>)
    requires i <= |nodes|
    ensures |r| == |nodes| + 1 && r[i] == n && (forall j: nat :: j < i ==> r[j] == nodes[j]) && forall j: nat :: i < j < |r| ==> r[j] == nodes[j - 1]
  {
    nodes[..i] + [n] + nodes[i..]
  }

  function WithoutNode(nodes: seq<nat>, i: nat): (r: seq<nat>)
    requires i < |nodes|
    ensures |r| == |nodes| - 1 && (forall j: nat :: j < i ==> r[j] == nodes[j]) && forall j: nat :: i <= j < |r| ==> r[j] == nodes[j + 1]
  {
    nodes[..i] + nodes[i + 1..]
  }

  lemma WithoutWith(nodes: seq<nat>, i: nat, n: nat)
    requires i <= |nodes|
    ensures WithoutNode(WithNode(nodes, i, n), i) == nodes
  {
  }

  /** A chain depends on its cells only. */
  lemma ChainKept(img: seq<byte>, img': seq<byte>, c: Kind, nodes: seq<nat>)
    requires Chain(img, c, nodes) && |img'| == |img|
    requires forall i: nat :: i <= |nodes| && CellOf(c, nodes, i) + 2 <= |img| ==> Get16(img', CellOf(c, nodes, i)) == Get16(img, CellOf(c, nodes, i))
    ensures Chain(img', c, nodes)
  {
    assert ChainKey(0);
  }

  /** Two words written apart from each other. */
  lemma TwoWrites(img: seq<byte>, p: nat, x: nat, q: nat, y: nat, b: nat)
    requires p + 2 <= |img| && q + 2 <= |img| && b + 2 <= |img| && Apart(p, q) && x < 0x1_0000 && y < 0x1_0000
    ensures var r := Set16(Set16(img, p, x), q, y);
      Get16(r, p) == x && Get16(r, q) == y && (Apart(p, b) && Apart(q, b) ==> Get16(r, b) == Get16(img, b))
  {
    var img1 := Set16(img, p, x);
    Get16AfterSet16(img, p, x);
    Get16AfterSet16(img1, q, y);
    WordKept(img1, q, y, p);
    if Apart(p, b) && Apart(q, b) {
      WordKept(img, p, x, b);
      WordKept(img1, q, y, b);
    }
  }

  /** The cells of the longer chain: two of them are new, the others are old ones. */
  lemma CellsWith(c: Kind, nodes: seq<nat>, i: nat, n: nat, j: nat)
    requires i <= |nodes| && j <= |nodes| + 1
    ensures var r := WithNode(nodes, i, n);
      && CellOf(c, r, i) == CellOf(c, nodes, i) && CellOf(c, r, i + 1) == n + c.link && NodeAt(r, i) == n && NodeAt(r, i + 1) == NodeAt(nodes, i)
      && (j < i ==> CellOf(c, r, j) == CellOf(c, nodes, j) && NodeAt(r, j) == NodeAt(nodes, j))
      && (j > i + 1 ==> CellOf(c, r, j) == CellOf(c, nodes, j - 1) && NodeAt(r, j) == NodeAt(nodes, j - 1))
  {
  }

  /** An old cell in the longer chain. */
  lemma OldCell(img: seq<byte>, c: Kind, nodes: seq<nat>, i: nat, n: nat, j: nat)
    requires Chain(img, c, nodes) && i <= |nodes| && Spread(c, WithNode(nodes, i, n)) && j <= |nodes| + 1 && j != i && j != i + 1
    ensures var r := WithNode(nodes, i, n);
      var b := CellOf(c, r, j);
      b + 2 <= 0x1_0000 && Get16(img, b) == NodeAt(r, j) && Apart(CellOf(c, nodes, i), b) && Apart(n + c.link, b)
  {
    var r := WithNode(nodes, i, n);
    CellsWith(c, nodes, i, n, j);
    CellsApart(c, r, i, j);
    CellsApart(c, r, i + 1, j);
    CellFacts(img, c, nodes, if j < i then j else j - 1);
  }

  lemma LinkedCell(img: seq<byte>, c: Kind, nodes: seq<nat>, i: nat, n: nat, j: nat)
    requires Chain(img, c, nodes) && i <= |nodes| && 0 < n && n + c.size <= 0x1_0000 && Spread(c, WithNode(nodes, i, n))
    requires CellOf(c, nodes, i) + 2 <= |img| && j <= |nodes| + 1
    ensures var r := WithNode(nodes, i, n);
      CellOf(c, r, j) + 2 <= 0x1_0000 && Get16(Set16(Set16(img, CellOf(c, nodes, i), n), n + c.link, NodeAt(nodes, i)), CellOf(c, r, j)) == NodeAt(r, j)
  {
    var r, p, q := WithNode(nodes, i, n), CellOf(c, nodes, i), n + c.link;
    CellFacts(img, c, nodes, i);
    assert Apart(p, q) by {
      CellsWith(c, nodes, i, n, i);
      CellsApart(c, r, i, i + 1);
    }
    if j == i || j == i + 1 {
      CellsWith(c, nodes, i, n, j);
      TwoWrites(img, p, n, q, NodeAt(nodes, i), p);
    } else {
      OldCell(img, c, nodes, i, n, j);
      TwoWrites(img, p, n, q, NodeAt(nodes, i), CellOf(c, r, j));
    }
  }

  /** Both words written, the new block is in the chain. */
  lemma Linked(img: seq<byte>, c: Kind, nodes: seq<nat>, i: nat, n: nat)
    requires Chain(img, c, nodes) && i <= |nodes| && 0 < n && n + c.size <= 0x1_0000 && Spread(c, WithNode(nodes, i, n))
    requires CellOf(c, nodes, i) + 2 <= |img|
    ensures Chain(Set16(Set16(img, CellOf(c, nodes, i), n), n + c.link, NodeAt(nodes, i)), c, WithNode(nodes, i, n))
  {
    var r := WithNode(nodes, i, n);
    var img2 := Set16(Set16(img, CellOf(c, nodes, i), n), n + c.link, NodeAt(nodes, i));
    forall j: nat | j <= |r| ensures CellOf(c, r, j) + 2 <= 0x1_0000 && Get16(img2, CellOf(c, r, j)) == NodeAt(r, j) {
      LinkedCell(img, c, nodes, i, n, j);
    }
    assert forall k: nat :: k < |r| ==> 0 < r[k] && r[k] + c.size <= 0x1_0000;
  }

  lemma CellsWithout(c: Kind, nodes: seq<nat>, i: nat, j: nat)
    requires i < |nodes| && j <= |nodes| - 1
    ensures var r := WithoutNode(nodes, i);
      && CellOf(c, r, i) == CellOf(c, nodes, i) && NodeAt(r, i) == NodeAt(nodes, i + 1)
      && (j < i ==> CellOf(c, r, j) == CellOf(c, nodes, j) && NodeAt(r, j) == NodeAt(nodes, j))
      && (j > i ==> CellOf(c, r, j) == CellOf(c, nodes, j + 1) && NodeAt(r, j) == NodeAt(nodes, j + 1))
  {
  }

  /** The pointer to block i led past it: the block is out of the chain. */
  lemma Unlinked(img: seq<byte>, c: Kind, nodes: seq<nat>, i: nat)
    requires Chain(img, c, nodes) && i < |nodes| && Spread(c, nodes) && CellOf(c, nodes, i) + 2 <= |img|
    ensures Chain(Set16(img, CellOf(c, nodes, i), NodeAt(nodes, i + 1)), c, WithoutNode(nodes, i))
  {
    var r, p := WithoutNode(nodes, i), CellOf(c, nodes, i);
    var img1 := Set16(img, p, NodeAt(nodes, i + 1));
    CellFacts(img, c, nodes, i + 1);
    Get16AfterSet16(img, p, NodeAt(nodes, i + 1));
    forall j: nat | j <= |r| ensures CellOf(c, r, j) + 2 <= 0x1_0000 && Get16(img1, CellOf(c, r, j)) == NodeAt(r, j) {
      CellsWithout(c, nodes, i, j);
      CellFacts(img, c, nodes, i);
      if j != i {
        var k := if j < i then j else j + 1;
        CellFacts(img, c, nodes, k);
        CellsApart(c, nodes, i, k);
        WordKept(img, p, NodeAt(nodes, i + 1), CellOf(c, r, j));
      }
    }
  }

  // ---------------------------------------------------------------
  // Blocks in the pool
  // ---------------------------------------------------------------

  /** Every block is a live area, and so is the owner. */
  ghost predicate Registered(c: Kind, live: seq<Area>, nodes: seq<nat>)
  {
    && (forall i: nat :: i < |nodes| ==> Area(nodes[i], Round(c.size)) in live)
    && (forall i: nat, j: nat :: i < j < |nodes| ==> nodes[i] != nodes[j])
    && (c.owner > 0 ==> Area(c.owner, Round(c.size)) in live && c.owner !in nodes && c.owner <= c.head && c.head + 2 <= c.owner + c.size)
  }

  /** The head cell of a list without owner lies outside the pool and its list head. */
  predicate HeadApart(c: Kind, head: nat, lo: nat, hi: nat)
  {
    c.owner == 0 ==> (c.head + 2 <= lo || hi <= c.head) && Apart(c.head, head)
  }

  lemma LiveApart(s: PoolState, lo: nat, hi: nat, a: Area, b: Area)
    requires PoolRuns.Partition(s, lo, hi) && a in s.live && b in s.live && a.addr != b.addr
    ensures a.addr + a.size <= b.addr || b.addr + b.size <= a.addr
    ensures AreaOk(a, lo, hi)
  {
    var i: nat :| i < |s.live| && s.live[i] == a;
    var j: nat :| j < |s.live| && s.live[j] == b;
    var x := if a.addr < b.addr then b.addr else a.addr;
    assert !(In(s.live[i], x) && In(s.live[j], x)) by {
      if i < j { assert !(In(s.live[i], x) && In(s.live[j], x)); } else { assert !(In(s.live[j], x) && In(s.live[i], x)); }
    }
  }

  lemma RegisteredSpread(c: Kind, s: PoolState, head: nat, lo: nat, hi: nat, nodes: seq<nat>)
    requires c.Ok() && PoolRuns.Partition(s, lo, hi) && Registered(c, s.live, nodes) && HeadApart(c, head, lo, hi) && lo > 0 && hi < 0x1_0000
    ensures Spread(c, nodes) && forall i: nat :: i < |nodes| ==> lo <= nodes[i] && nodes[i] + c.size <= hi
  {
    forall i: nat | i < |nodes| ensures lo <= nodes[i] && nodes[i] + c.size <= hi {
      var a := Area(nodes[i], Round(c.size));
      var k: nat :| k < |s.live| && s.live[k] == a;
      assert AreaOk(s.live[k], lo, hi);
    }
    forall i: nat | i < |nodes| ensures c.head + 2 <= nodes[i] || nodes[i] + c.size <= c.head {
      if c.owner > 0 { LiveApart(s, lo, hi, Area(nodes[i], Round(c.size)), Area(c.owner, Round(c.size))); }
    }
    forall i: nat, j: nat | i < j < |nodes| ensures nodes[i] + c.size <= nodes[j] || nodes[j] + c.size <= nodes[i] {
      LiveApart(s, lo, hi, Area(nodes[i], Round(c.size)), Area(nodes[j], Round(c.size)));
    }
  }
}
