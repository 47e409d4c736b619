/** The partition list of vmr.c in the system image: add_partition, remove_partition and
    alloc_sub_partition. */
module PartitionLists {
  import opened Bytes
  import opened PoolList
  import opened Pool
  import opened PoolRuns
  import opened Chains
  import opened SystemLists
  import opened NamedBlocks
  import opened PartitionPlan

  const P_LNK: nat := 0
  const P_MAIN: nat := 2
  const P_SUB: nat := 4
  const P_SIZE: nat := 6
  const P_BASE: nat := 8
  const P_ATTR: nat := 10
  const P_STAT: nat := 11
  const P_WAIT: nat := 18
  const P_TCB: nat := 20
  const PCBSZ: nat := 24
  /** 1 << PA_SUB */
  const SUB: nat := 1
  /** 1 << PA_SYS */
  const SYSTEM: nat := 2
  /** 1 << PS_BSY */
  const BUSY: nat := 8

  /** The main partitions; head is the value of the symbol $PLIST. */
  function Mains(head: nat): Kind
  {
    Kind(head, P_LNK, PCBSZ, 0)
  }

  /** The sub-partitions of one of them. */
  function Subs(main: nat): Kind
  {
    Kind(main + P_SUB, P_LNK, PCBSZ, main)
  }

  predicate IsPartKind(c: Kind)
  {
    c.link == P_LNK && c.size == PCBSZ
  }

  /** Base and size of a main partition. */
  function PartAt(img: seq<byte>, n: nat): Part
  {
    Part(Word(img, n, P_BASE), Word(img, n, P_SIZE))
  }

  function Parts(img: seq<byte>, nodes: seq<nat>): (r: seq<Part>)
    ensures |r| == |nodes| && forall i: nat :: i < |nodes| ==> r[i] == PartAt(img, nodes[i])
  {
    seq(|nodes|, i requires 0 <= i < |nodes| => PartAt(img, nodes[i]))
  }

  lemma SameParts(img: seq<byte>, img': seq<byte>, c: Kind, nodes: seq<nat>)
    requires FieldsKept(img, img', c, nodes) && IsPartKind(c)
    ensures Parts(img', nodes) == Parts(img, nodes)
  {
    forall i: nat | i < |nodes| ensures Parts(img', nodes)[i] == Parts(img, nodes)[i] {
      assert Field(img', nodes[i], P_BASE) == Field(img, nodes[i], P_BASE) && Field(img', nodes[i], P_BASE + 1) == Field(img, nodes[i], P_BASE + 1);
      assert Field(img', nodes[i], P_SIZE) == Field(img, nodes[i], P_SIZE) && Field(img', nodes[i], P_SIZE + 1) == Field(img, nodes[i], P_SIZE + 1);
    }
  }

  lemma InsertedPart(img: seq<byte>, img': seq<byte>, c: Kind, nodes: seq<nat>, i: nat, n: nat)
    requires i <= |nodes| && FieldsKept(img, img', c, WithNode(nodes, i, n)) && IsPartKind(c)
    ensures Parts(img', WithNode(nodes, i, n)) == Insert(Parts(img, nodes), i, PartAt(img, n))
  {
    var r := WithNode(nodes, i, n);
    SameParts(img, img', c, r);
    assert Parts(img, r) == Insert(Parts(img, nodes), i, PartAt(img, n));
  }

  /** The fields of a new main partition, besides its place: it is not busy, names itself, and has no
      sub-partitions, no waiting tasks and no owner. */
  predicate FreshPart(img: seq<byte>, n: nat, name: seq<byte>, attr: byte)
  {
    && NameOf(img, n) == name && Field(img, n, P_ATTR) == attr && Field(img, n, P_STAT) == 0
    && Word(img, n, P_MAIN) == n && Word(img, n, P_SUB) == 0 && Word(img, n, P_WAIT) == 0 && Word(img, n, P_TCB) == 0
  }

  /** Two images agree on a block behind its link. */
  ghost predicate SameFields(img: seq<byte>, img': seq<byte>, n: nat)
  {
    forall o: nat :: P_MAIN <= o < PCBSZ ==> Field(img', n, o) == Field(img, n, o)
  }

  lemma StillFresh(img: seq<byte>, img': seq<byte>, n: nat, name: seq<byte>, attr: byte)
    requires SameFields(img, img', n) && FreshPart(img, n, name, attr)
    ensures FreshPart(img', n, name, attr)
  {
    assert NameOf(img', n) == NameOf(img, n);
  }

  /** The fields of a new partition; the others do not concern the lists. */
  method FillPart(p: SystemImage, c: Kind, pcb: nat, base: nat, size: nat, attr: byte, name: seq<byte>, ghost live: seq<Area>, ghost nodes: seq<nat>)
    requires ListOk(p, live, c, nodes) && pcb !in nodes && pcb != c.owner && Area(pcb, Round(c.size)) in live && IsPartKind(c) && |name| == 6
    requires base < 0x1_0000 && size < 0x1_0000
    modifies p.image
    ensures ListOk(p, live, c, nodes)
    ensures PartAt(p.image[..], pcb) == Part(base, size) && FreshPart(p.image[..], pcb, name, attr)
    ensures forall a: nat :: a < p.image.Length && !(pcb <= a < pcb + PCBSZ) ==> p.image[a] == old(p.image[a])
  {
    BlockInside(p, c, pcb, live, nodes);
    FillWords(p, c, pcb, base, size, live, nodes);
    PutField(p, c, pcb, P_ATTR, attr, live, nodes);
    PutField(p, c, pcb, P_STAT, 0, live, nodes);
    ghost var img := p.image[..];
    FillName(p, c, pcb, name, live, nodes);
    FrontKept(img, p.image[..], pcb);
  }

  predicate FreshWords(img: seq<byte>, n: nat)
  {
    Word(img, n, P_MAIN) == n && Word(img, n, P_SUB) == 0 && Word(img, n, P_WAIT) == 0 && Word(img, n, P_TCB) == 0
  }

  method FillWords(p: SystemImage, c: Kind, pcb: nat, base: nat, size: nat, ghost live: seq<Area>, ghost nodes: seq<nat>)
    requires ListOk(p, live, c, nodes) && pcb !in nodes && pcb != c.owner && Area(pcb, Round(c.size)) in live && IsPartKind(c)
    requires base < 0x1_0000 && size < 0x1_0000
    modifies p.image
    ensures ListOk(p, live, c, nodes)
    ensures PartAt(p.image[..], pcb) == Part(base, size) && FreshWords(p.image[..], pcb)
    ensures forall a: nat :: a < p.image.Length && !(pcb <= a < pcb + PCBSZ) ==> p.image[a] == old(p.image[a])
  {
    PutWord(p, c, pcb, P_BASE, base, live, nodes);
    PutWord(p, c, pcb, P_SIZE, size, live, nodes);
    FillLinks(p, c, pcb, live, nodes);
  }

  /** A main partition names itself, and its lists are empty. */
  method FillLinks(p: SystemImage, c: Kind, pcb: nat, ghost live: seq<Area>, ghost nodes: seq<nat>)
    requires ListOk(p, live, c, nodes) && pcb !in nodes && pcb != c.owner && Area(pcb, Round(c.size)) in live && IsPartKind(c)
    modifies p.image
    ensures ListOk(p, live, c, nodes)
    ensures FreshWords(p.image[..], pcb)
    ensures forall a: nat :: a < p.image.Length && !(pcb <= a < pcb + PCBSZ) ==> p.image[a] == old(p.image[a])
    ensures PartAt(p.image[..], pcb) == old(PartAt(p.image[..], pcb))
  {
    PutWord(p, c, pcb, P_MAIN, pcb, live, nodes);
    PutWord(p, c, pcb, P_SUB, 0, live, nodes);
    PutWord(p, c, pcb, P_WAIT, 0, live, nodes);
    PutWord(p, c, pcb, P_TCB, 0, live, nodes);
  }

  lemma FrontKept(img: seq<byte>, img': seq<byte>, n: nat)
    requires |img'| == |img| && n + PCBSZ <= |img| && forall a: nat :: a < |img| && !(n + NAME <= a < n + NAME + 6) ==> img'[a] == img[a]
    ensures PartAt(img', n) == PartAt(img, n) && (FreshWords(img, n) ==> FreshWords(img', n))
    ensures Field(img', n, P_ATTR) == Field(img, n, P_ATTR) && Field(img', n, P_STAT) == Field(img, n, P_STAT)
  {
    assert forall o: nat :: o < NAME || P_WAIT <= o < PCBSZ ==> Field(img', n, o) == Field(img, n, o);
  }

  // ---------------------------------------------------------------
  // add_partition
  // ---------------------------------------------------------------

  /** One turn of the search: what to do about partition i. */
  method SearchTurn(pbase: nat, psize: nat, base: nat, size: nat, wb: bool, ws: bool, ghost parts: seq<Part>, ghost i: nat, ghost size0: nat)
    returns (failed: bool, stop: bool, base': nat, size': nat)
    requires i < |parts| && parts[i] == Part(pbase, psize) && pbase < 0x1_0000 && psize < 0x1_0000 && (!ws ==> size == size0) && (ws ==> size == TOP)
    ensures var r := Search(parts, i, base, size0, wb, ws);
      if failed then r.Nowhere?
      else if stop then base' == base && (if ws then base <= size' < 0x1_0000 else size' == size0) && r == At(i, Part(base, if ws then size' - base else size'))
      else size' == size && (base' < 0x1_0000 || base' == base) && r == Search(parts, i + 1, base', size0, wb, ws)
  {
    failed, stop, base', size' := false, false, base, size;
    if wb {
      if pbase > base {
        if ws {
          size', stop := pbase, true;
          return;
        } else if pbase - base >= size {
          stop := true;
          return;
        }
      }
      base' := (pbase + psize) % 0x1_0000;
      if base' >= 256 { failed := true; }
    } else {
      if pbase > base {
        if ws {
          size', stop := pbase, true;
        } else if pbase - base >= size {
          stop := true;
        } else {
          failed := true;
        }
        return;
      }
      if pbase + psize > base { failed := true; }
    }
  }

  /** The variables of the search in front of partition i, or where it has stopped. */
  ghost predicate Searching(parts: seq<Part>, i: nat, base: nat, size: nat, stop: bool, base0: nat, size0: nat, wb: bool, ws: bool)
  {
    && i <= |parts| && base < 0x1_0000
    && if stop then
         (if ws then base <= size < 0x1_0000 else size == size0) && PlaceMain(parts, base0, size0, wb, ws) == At(i, Part(base, if ws then size - base else size))
       else
         size == (if ws then 256 else size0) && PlaceMain(parts, base0, size0, wb, ws) == Search(parts, i, base, size0, wb, ws)
  }

  /** One turn, with what the image says about partition i. */
  method PartTurn(p: SystemImage, c: Kind, n: nat, base: nat, size: nat, wb: bool, ws: bool,
                  ghost live: seq<Area>, ghost nodes: seq<nat>, ghost i: nat, ghost base0: nat, ghost size0: nat)
    returns (failed: bool, stop: bool, base': nat, size': nat)
    requires ListOk(p, live, c, nodes) && IsPartKind(c) && i < |nodes| && n == nodes[i]
    requires Searching(Parts(p.image[..], nodes), i, base, size, false, base0, size0, wb, ws)
    ensures if failed then PlaceMain(Parts(p.image[..], nodes), base0, size0, wb, ws).Nowhere?
      else Searching(Parts(p.image[..], nodes), if stop then i else i + 1, base', size', stop, base0, size0, wb, ws)
  {
    ghost var parts := Parts(p.image[..], nodes);
    var pbase := GetWord(p, c, P_BASE, n, live, nodes, i);
    var psize := GetWord(p, c, P_SIZE, n, live, nodes, i);
    assert parts[i] == Part(pbase, psize);
    failed, stop, base', size' := SearchTurn(pbase, psize, base, size, wb, ws, parts, i, size0);
  }

  /** The head cell and what it points to. */
  method FirstBlock(p: SystemImage, c: Kind, ghost live: seq<Area>, ghost nodes: seq<nat>) returns (prev: nat, next: nat)
    requires ListOk(p, live, c, nodes)
    ensures prev == CellOf(c, nodes, 0) && next == NodeAt(nodes, 0) && (next == 0 <==> |nodes| == 0)
  {
    CellFacts(p.image[..], c, nodes, 0);
    prev := c.head;
    next := p.GetW(prev);
  }

  /** From block i to the next one. */
  method NextBlock(p: SystemImage, c: Kind, n: nat, ghost live: seq<Area>, ghost nodes: seq<nat>, ghost i: nat) returns (prev: nat, next: nat)
    requires ListOk(p, live, c, nodes) && i < |nodes| && n == nodes[i]
    ensures prev == CellOf(c, nodes, i + 1) && next == NodeAt(nodes, i + 1) && (next == 0 <==> i + 1 == |nodes|)
  {
    CellFacts(p.image[..], c, nodes, i + 1);
    prev := n + c.link;
    next := p.GetW(prev);
  }

  /** The loop of add_partition. */
  method SearchLoop(p: SystemImage, c: Kind, base0: nat, size0: nat, wb: bool, ws: bool, ghost live: seq<Area>, ghost nodes: seq<nat>)
    returns (failed: bool, stop: bool, prev: nat, plist: nat, base: nat, size: nat, ghost i: nat)
    requires ListOk(p, live, c, nodes) && IsPartKind(c) && base0 < 0x1_0000 && size0 < 0x1_0000
    ensures if failed then PlaceMain(Parts(p.image[..], nodes), base0, size0, wb, ws).Nowhere?
      else Searching(Parts(p.image[..], nodes), i, base, size, stop, base0, size0, wb, ws) && (stop || i == |nodes|)
    ensures !failed ==> prev == CellOf(c, nodes, i) && plist == NodeAt(nodes, i)
  {
    base, size := if wb then 16 else base0, if ws then 256 else size0;
    failed, stop, i := false, false, 0;
    prev, plist := FirstBlock(p, c, live, nodes);
    while plist != 0 && !stop
      invariant prev == CellOf(c, nodes, i) && plist == NodeAt(nodes, i) && (plist == 0 <==> i == |nodes|)
      invariant !failed && Searching(Parts(p.image[..], nodes), i, base, size, stop, base0, size0, wb, ws)
      decreases !stop, |nodes| - i
    {
      failed, stop, base, size := PartTurn(p, c, plist, base, size, wb, ws, live, nodes, i, base0, size0);
      if failed { return; }
      if !stop {
        prev, plist := NextBlock(p, c, plist, live, nodes, i);
        i := i + 1;
      }
    }
  }

  /** The search of add_partition, and the base and size that it comes to. */
  method FindPartPlace(p: SystemImage, c: Kind, base0: nat, size0: nat, wb: bool, ws: bool, ghost live: seq<Area>, ghost nodes: seq<nat>)
    returns (failed: bool, prev: nat, plist: nat, base: nat, size: nat, ghost i: nat)
    requires ListOk(p, live, c, nodes) && IsPartKind(c) && base0 < 0x1_0000 && size0 < 0x1_0000
    ensures PlaceMain(Parts(p.image[..], nodes), base0, size0, wb, ws) == if failed then Nowhere else At(i, Part(base, size))
    ensures !failed ==> i <= |nodes| && prev == CellOf(c, nodes, i) && plist == NodeAt(nodes, i) && base < 0x1_0000 && size < 0x1_0000
  {
    var stop;
    failed, stop, prev, plist, base, size, i := SearchLoop(p, c, base0, size0, wb, ws, live, nodes);
    if !failed && ws { size := WildSize(size, base); }
  }

  /** size -= base, in 16 bits */
  method WildSize(size: nat, base: nat) returns (r: nat)
    requires size < 0x1_0000 && base < 0x1_0000
    ensures r == (size - base) % 0x1_0000 && (size >= base ==> r == size - base)
  {
    r := (size - base) % 0x1_0000;
  }

  /** No size, the name in use, no place, or no room in the pool. */
  ghost predicate Refused(img: seq<byte>, list: seq<Area>, nodes: seq<nat>, name: seq<byte>, base: nat, size: nat, wb: bool, ws: bool)
  {
    || (size == 0 && !ws)
    || Named(img, nodes, name, |nodes|) < |nodes|
    || PlaceMain(Parts(img, nodes), base, size, wb, ws).Nowhere?
    || forall b :: b in list ==> b.size < Round(PCBSZ)
  }

  /** add_partition: the new partition is what the plan says, at the place in the list that keeps it
      sorted by base; nothing happens when there is no place, no room in the pool, the name is in
      use, or the size is 0. */
  method AddPartition(p: SystemImage, c: Kind, name: seq<byte>, base0: nat, size0: nat, wb: bool, ws: bool, attr: byte, ghost live: seq<Area>, ghost nodes: seq<nat>)
    returns (pcb: nat, ghost live': seq<Area>, ghost nodes': seq<nat>)
    requires ListOk(p, live, c, nodes) && IsPartKind(c) && base0 < 0x1_0000 && size0 < 0x1_0000 && |name| == 6
    modifies p.image, p`list
    ensures ListOk(p, live', c, nodes') && FieldsKept(old(p.image[..]), p.image[..], c, nodes)
    ensures pcb == 0 <==> Refused(old(p.image[..]), old(p.list), nodes, name, base0, size0, wb, ws)
    ensures pcb == 0 ==> live' == live && nodes' == nodes && p.list == old(p.list) && p.image[..] == old(p.image[..])
    ensures pcb > 0 ==> live' == live + [Area(pcb, Round(PCBSZ))] && AllocStep(PoolState(old(p.list), live), Area(pcb, Round(PCBSZ)), PoolState(p.list, live'), p.lo, p.hi)
    ensures pcb > 0 ==>
      var parts := Parts(old(p.image[..]), nodes);
      var r := PlaceMain(parts, base0, size0, wb, ws);
      && r.At? && r.index <= |nodes| && pcb !in nodes && nodes' == WithNode(nodes, r.index, pcb)
      && Parts(p.image[..], nodes') == Insert(parts, r.index, r.part) && FreshPart(p.image[..], pcb, name, attr)
    ensures forall a: nat :: a < IMAGE_SIZE && Outside(p.head, old(p.list), a) && !IsCell(c, nodes, a) ==> p.image[a] == old(p.image[a])
  {
    pcb, live', nodes' := 0, live, nodes;
    if size0 == 0 && !ws { return; }
    var prev, plist;
    ghost var at;
    prev, plist, at := FindNamed(p, c, name, live, nodes);
    CellFacts(p.image[..], c, nodes, at);
    if plist != 0 { return; }
    var failed, base, size;
    failed, prev, plist, base, size, at := FindPartPlace(p, c, base0, size0, wb, ws, live, nodes);
    if failed { return; }
    pcb, live', nodes' := EnterPartition(p, c, name, base, size, attr, prev, plist, live, nodes, at);
  }

  /** The second half of add_partition: the block and its links. */
  method EnterPartition(p: SystemImage, c: Kind, name: seq<byte>, base: nat, size: nat, attr: byte, prev: nat, plist: nat, ghost live: seq<Area>, ghost nodes: seq<nat>, ghost i: nat)
    returns (pcb: nat, ghost live': seq<Area>, ghost nodes': seq<nat>)
    requires ListOk(p, live, c, nodes) && IsPartKind(c) && base < 0x1_0000 && size < 0x1_0000 && |name| == 6
    requires i <= |nodes| && prev == CellOf(c, nodes, i) && plist == NodeAt(nodes, i)
    modifies p.image, p`list
    ensures ListOk(p, live', c, nodes') && FieldsKept(old(p.image[..]), p.image[..], c, nodes)
    ensures pcb == 0 <==> forall b :: b in old(p.list) ==> b.size < Round(PCBSZ)
    ensures pcb == 0 ==> live' == live && nodes' == nodes && p.list == old(p.list) && p.image[..] == old(p.image[..])
    ensures pcb > 0 ==> live' == live + [Area(pcb, Round(PCBSZ))] && AllocStep(PoolState(old(p.list), live), Area(pcb, Round(PCBSZ)), PoolState(p.list, live'), p.lo, p.hi)
    ensures pcb > 0 ==> pcb !in nodes && nodes' == WithNode(nodes, i, pcb) && Parts(p.image[..], nodes') == Insert(Parts(old(p.image[..]), nodes), i, Part(base, size))
    ensures pcb > 0 ==> FreshPart(p.image[..], pcb, name, attr)
    ensures forall a: nat :: a < IMAGE_SIZE && Outside(p.head, old(p.list), a) && !IsCell(c, nodes, a) ==> p.image[a] == old(p.image[a])
  {
    ghost var img, s := p.image[..], PoolState(p.list, live);
    PlacedHead(img, p.head, p.lo, p.hi, p.list);
    nodes' := nodes;
    pcb, live' := NewBlock(p, c, live, nodes);
    if pcb == 0 { return; }
    assert live'[|live|] == Area(pcb, Round(c.size));
    FillPart(p, c, pcb, base, size, attr, name, live', nodes);
    BlockWasFree(s, Area(pcb, Round(PCBSZ)), PoolState(p.list, live'), p.head, p.lo, p.hi);
    OwnFieldsKept(s, p.head, p.lo, p.hi, c, nodes, img, p.image[..]);
    SameParts(img, p.image[..], c, nodes);
    ghost var img1 := p.image[..];
    nodes' := LinkPart(p, c, prev, plist, pcb, live', nodes, i);
    StillFresh(img1, p.image[..], pcb, name, attr);
    OwnFieldsKept(s, p.head, p.lo, p.hi, c, nodes, img, p.image[..]);
  }

  method LinkPart(p: SystemImage, c: Kind, prev: nat, plist: nat, pcb: nat, ghost live: seq<Area>, ghost nodes: seq<nat>, ghost i: nat) returns (ghost nodes': seq<nat>)
    requires ListOk(p, live, c, nodes) && IsPartKind(c) && i <= |nodes| && prev == CellOf(c, nodes, i) && plist == NodeAt(nodes, i)
    requires pcb !in nodes && pcb != c.owner && Area(pcb, Round(c.size)) in live
    modifies p.image
    ensures ListOk(p, live, c, nodes') && nodes' == WithNode(nodes, i, pcb)
    ensures Parts(p.image[..], nodes') == Insert(Parts(old(p.image[..]), nodes), i, PartAt(old(p.image[..]), pcb))
    ensures SameFields(old(p.image[..]), p.image[..], pcb)
    ensures forall a: nat :: a < IMAGE_SIZE && !IsCell(c, nodes, a) && !(pcb <= a < pcb + PCBSZ) ==> p.image[a] == old(p.image[a])
  {
    ghost var img := p.image[..];
    LinkBlock(p, c, prev, plist, pcb, live, nodes, i);
    nodes' := WithNode(nodes, i, pcb);
    InsertedPart(img, p.image[..], c, nodes, i, pcb);
    BlockKept(img, p.image[..], c, nodes', i);
    assert forall a: nat :: prev <= a < prev + 2 ==> IsCell(c, nodes, a);
  }

  lemma BlockKept(img: seq<byte>, img': seq<byte>, c: Kind, nodes: seq<nat>, i: nat)
    requires FieldsKept(img, img', c, nodes) && IsPartKind(c) && i < |nodes|
    ensures SameFields(img, img', nodes[i])
  {
  }

  // ---------------------------------------------------------------
  // remove_partition
  // ---------------------------------------------------------------

  /** remove_partition: the partition leaves the list, and its block the pool, unless it has
      sub-partitions or a wait list. */
  method RemovePartition(p: SystemImage, c: Kind, name: seq<byte>, ghost live: seq<Area>, ghost nodes: seq<nat>)
    returns (done: bool, ghost live': seq<Area>, ghost nodes': seq<nat>, ghost i: nat, ghost k: nat)
    requires ListOk(p, live, c, nodes) && IsPartKind(c)
    modifies p.image, p`list
    ensures ListOk(p, live', c, nodes') && FieldsKept(old(p.image[..]), p.image[..], c, nodes')
    ensures i == Named(old(p.image[..]), nodes, name, |nodes|)
    ensures done <==> i < |nodes| && Word(old(p.image[..]), nodes[i], P_SUB) == 0 && Word(old(p.image[..]), nodes[i], P_WAIT) == 0
    ensures !done ==> live' == live && nodes' == nodes && p.list == old(p.list) && p.image[..] == old(p.image[..])
    ensures done ==> nodes' == WithoutNode(nodes, i) && k < |live| && live[k] == Area(nodes[i], Round(PCBSZ)) && live' == live[..k] + live[k + 1..]
    ensures done ==> FreeStep(PoolState(old(p.list), live), k, PoolState(p.list, live'), p.lo, p.hi)
    ensures forall a: nat :: a < IMAGE_SIZE && Outside(p.head, p.list, a) && !IsCell(c, nodes, a) ==> p.image[a] == old(p.image[a])
  {
    done, live', nodes', k := false, live, nodes, 0;
    var prev, pcb;
    prev, pcb, i := FindNamed(p, c, name, live, nodes);
    CellFacts(p.image[..], c, nodes, i);
    if pcb == 0 { return; }
    done := IsEmpty(p, c, pcb, live, nodes, i);
    if !done { return; }
    CellFacts(p.image[..], c, nodes, i + 1);
    var next := p.GetW(pcb + P_LNK);
    live', k := DropBlock(p, c, prev, pcb, next, live, nodes, i);
    nodes' := WithoutNode(nodes, i);
  }

  /** No sub-partitions, and no waiting tasks. */
  method IsEmpty(p: SystemImage, c: Kind, pcb: nat, ghost live: seq<Area>, ghost nodes: seq<nat>, ghost i: nat) returns (empty: bool)
    requires ListOk(p, live, c, nodes) && IsPartKind(c) && i < |nodes| && pcb == nodes[i]
    ensures empty <==> Word(p.image[..], pcb, P_SUB) == 0 && Word(p.image[..], pcb, P_WAIT) == 0
  {
    empty := false;
    var w := GetWord(p, c, P_SUB, pcb, live, nodes, i);
    if w != 0 { return; }
    w := GetWord(p, c, P_WAIT, pcb, live, nodes, i);
    empty := w == 0;
  }

  /** A partition added and removed again leaves the partition list and the free list as they
      were. */
  method AddThenRemove(p: SystemImage, c: Kind, name: seq<byte>, base: nat, size: nat, wb: bool, ws: bool, attr: byte, ghost live: seq<Area>, ghost nodes: seq<nat>)
    returns (added: bool, removed: bool)
    requires ListOk(p, live, c, nodes) && IsPartKind(c) && base < 0x1_0000 && size < 0x1_0000 && |name| == 6
    modifies p.image, p`list
    ensures ListOk(p, live, c, nodes) && p.list == old(p.list) && FieldsKept(old(p.image[..]), p.image[..], c, nodes)
    ensures removed == added && (!added <==> Refused(old(p.image[..]), old(p.list), nodes, name, base, size, wb, ws))
  {
    ghost var img, s := p.image[..], PoolState(p.list, live);
    var pcb;
    ghost var live1, nodes1;
    pcb, live1, nodes1 := AddPartition(p, c, name, base, size, wb, ws, attr, live, nodes);
    added, removed := pcb > 0, false;
    if !added { return; }
    ghost var img1, s1, at := p.image[..], PoolState(p.list, live1), PlaceMain(Parts(img, nodes), base, size, wb, ws).index;
    NewNameFound(img, img1, c, nodes, at, pcb, name);
    ghost var live2, nodes2, i, k;
    removed, live2, nodes2, i, k := RemovePartition(p, c, name, live1, nodes1);
    OneLive(s1, p.lo, p.hi, |live|, k);
    FreeUndoesAlloc(s, Area(pcb, Round(PCBSZ)), s1, PoolState(p.list, live2), p.lo, p.hi);
    WithoutWith(nodes, at, pcb);
    FieldsTransitive(img, img1, p.image[..], c, nodes);
  }

  // ---------------------------------------------------------------
  // alloc_sub_partition
  // ---------------------------------------------------------------

  /** Base and size of a sub-partition, and of its main partition as seen from there: bytes. */
  function SubAt(img: seq<byte>, n: nat): Part
  {
    Part(Field(img, n, P_BASE), Field(img, n, P_SIZE))
  }

  function SubParts(img: seq<byte>, nodes: seq<nat>): (r: seq<Part>)
    ensures |r| == |nodes| && forall i: nat :: i < |nodes| ==> r[i] == SubAt(img, nodes[i])
  {
    seq(|nodes|, i requires 0 <= i < |nodes| => SubAt(img, nodes[i]))
  }

  /** The variables of find_gap in front of sub-partition i. */
  ghost predicate Gapping(img: seq<byte>, main: nat, nodes: seq<nat>, i: nat, prvlnk: nat, next: nat, base: byte, size: byte)
  {
    && i <= |nodes| && prvlnk == CellOf(Subs(main), nodes, i) && next == NodeAt(nodes, i) && (next == 0 <==> i == |nodes|)
    && PlaceSub(SubAt(img, main), SubParts(img, nodes), size) == PartitionPlan.Gap(SubAt(img, main), SubParts(img, nodes), i, base, size)
  }

  /** One turn of the loop of find_gap: the gap in front of sub-partition i is big enough, or the
      search moves on. */
  method GapTurn(p: SystemImage, main: nat, prvlnk: nat, next: nat, base: byte, size: byte, ghost live: seq<Area>, ghost nodes: seq<nat>, ghost i: nat)
    returns (found: bool, prvlnk': nat, next': nat, base': byte)
    requires ListOk(p, live, Subs(main), nodes) && i < |nodes| && Gapping(p.image[..], main, nodes, i, prvlnk, next, base, size)
    ensures found ==> prvlnk' == prvlnk && next' == next && base' == base
    ensures found ==> PlaceSub(SubAt(p.image[..], main), SubParts(p.image[..], nodes), size) == At(i, Part(base, size))
    ensures !found ==> Gapping(p.image[..], main, nodes, i + 1, prvlnk', next', base', size)
  {
    ghost var img, c := p.image[..], Subs(main);
    CellFacts(img, c, nodes, i + 1);
    assert nodes[i] + c.size <= IMAGE_SIZE;
    var q, s: int := p.image[next + P_BASE], p.image[next + P_SIZE];
    assert SubParts(img, nodes)[i] == Part(q, s);
    var hsize := (q - base) % 256;
    if hsize >= size { return true, prvlnk, next, base; }
    found, prvlnk', base' := false, next + P_LNK, (q + s) % 256;
    next' := p.GetW(prvlnk');
  }

  /** find_gap: the search for room in a system-controlled partition. */
  method FindGap(p: SystemImage, main: nat, size: byte, ghost live: seq<Area>, ghost nodes: seq<nat>)
    returns (found: bool, prvlnk: nat, next: nat, base: byte, ghost i: nat)
    requires ListOk(p, live, Subs(main), nodes) && main > 0
    ensures found <==> And(Field(p.image[..], main, P_ATTR), SYSTEM) != 0 && PlaceSub(SubAt(p.image[..], main), SubParts(p.image[..], nodes), size).At?
    ensures found ==> i <= |nodes| && prvlnk == CellOf(Subs(main), nodes, i) && next == NodeAt(nodes, i)
    ensures found ==> PlaceSub(SubAt(p.image[..], main), SubParts(p.image[..], nodes), size) == At(i, Part(base, size))
  {
    ghost var img, c := p.image[..], Subs(main);
    OwnerInside(p, c, live, nodes);
    found, prvlnk, next, base, i := false, main + P_SUB, 0, p.image[main + P_BASE], 0;
    if And(p.image[main + P_ATTR], SYSTEM) == 0 { return; }
    CellFacts(img, c, nodes, 0);
    next := p.GetW(prvlnk);
    if next == 0 {
      found := p.image[main + P_SIZE] >= size;
      NoSubs(SubAt(img, main), size);
      return;
    }
    while next != 0
      invariant Gapping(img, main, nodes, i, prvlnk, next, base, size)
      decreases |nodes| - i
    {
      found, prvlnk, next, base := GapTurn(p, main, prvlnk, next, base, size, live, nodes, i);
      if found { return; }
      i := i + 1;
    }
    found := GapAtEnd(p.image[main + P_SIZE], p.image[main + P_BASE], base, size);
  }

  /** The test behind the last sub-partition, in bytes. */
  method GapAtEnd(z: byte, b: byte, base: byte, size: byte) returns (fits: bool)
    ensures fits <==> (z + b - base) % 256 >= size
  {
    fits := (z + b - base) % 256 >= size;
  }

  lemma NoSubs(main: Part, size: nat)
    requires main.base < 256 && main.size < 256
    ensures PlaceSub(main, [], size) == if main.size >= size then At(0, Part(main.base, size)) else Nowhere
  {
    assert (main.size + main.base - main.base) % 256 == main.size;
  }

  lemma OwnerInside(p: SystemImage, c: Kind, live: seq<Area>, nodes: seq<nat>)
    requires ListOk(p, live, c, nodes) && c.owner > 0
    ensures c.owner + c.size <= p.image.Length
  {
    PlacedHead(p.image[..], p.head, p.lo, p.hi, p.list);
    var k: nat :| k < |live| && live[k] == Area(c.owner, Round(c.size));
    LiveIsNotFree(PoolState(p.list, live), k, p.lo, p.hi);
  }

  lemma SameSubs(img: seq<byte>, img': seq<byte>, c: Kind, nodes: seq<nat>)
    requires FieldsKept(img, img', c, nodes) && IsPartKind(c)
    ensures SubParts(img', nodes) == SubParts(img, nodes)
  {
    forall i: nat | i < |nodes| ensures SubParts(img', nodes)[i] == SubParts(img, nodes)[i] {
      assert Field(img', nodes[i], P_BASE) == Field(img, nodes[i], P_BASE) && Field(img', nodes[i], P_SIZE) == Field(img, nodes[i], P_SIZE);
    }
  }

  lemma InsertedSub(img: seq<byte>, img': seq<byte>, c: Kind, nodes: seq<nat>, i: nat, n: nat)
    requires i <= |nodes| && FieldsKept(img, img', c, WithNode(nodes, i, n)) && IsPartKind(c)
    ensures SubParts(img', WithNode(nodes, i, n)) == Insert(SubParts(img, nodes), i, SubAt(img, n))
    ensures SameFields(img, img', n)
  {
    var r := WithNode(nodes, i, n);
    SameSubs(img, img', c, r);
    assert SubParts(img, r) == Insert(SubParts(img, nodes), i, SubAt(img, n));
    BlockKept(img, img', c, r, i);
  }

  /** The fields of a new sub-partition, besides its place: it has no name, and is busy from the start. */
  predicate FreshSub(img: seq<byte>, n: nat, main: nat)
  {
    NameOf(img, n) == [32, 32, 32, 32, 32, 32] && Field(img, n, P_ATTR) == SUB && Field(img, n, P_STAT) == BUSY && Word(img, n, P_MAIN) == main
  }

  lemma StillFreshSub(img: seq<byte>, img': seq<byte>, n: nat, main: nat)
    requires SameFields(img, img', n) && FreshSub(img, n, main)
    ensures FreshSub(img', n, main)
  {
    assert NameOf(img', n) == NameOf(img, n);
  }

  /** The fields of a new sub-partition. */
  method FillSub(p: SystemImage, main: nat, pcb: nat, base: byte, size: byte, ghost live: seq<Area>, ghost nodes: seq<nat>)
    requires ListOk(p, live, Subs(main), nodes) && pcb !in nodes && pcb != main && Area(pcb, Round(PCBSZ)) in live && main < 0x1_0000
    modifies p.image
    ensures ListOk(p, live, Subs(main), nodes)
    ensures SubAt(p.image[..], pcb) == Part(base, size) && FreshSub(p.image[..], pcb, main)
    ensures forall a: nat :: a < p.image.Length && !(pcb <= a < pcb + PCBSZ) ==> p.image[a] == old(p.image[a])
  {
    var c := Subs(main);
    FillName(p, c, pcb, [32, 32, 32, 32, 32, 32], live, nodes);
    PutField(p, c, pcb, P_ATTR, SUB, live, nodes);
    FillPlace(p, c, pcb, base, size, live, nodes);
    PutWord(p, c, pcb, P_MAIN, main, live, nodes);
  }

  /** The place of a sub-partition, which is in use from the start. */
  method FillPlace(p: SystemImage, c: Kind, pcb: nat, base: byte, size: byte, ghost live: seq<Area>, ghost nodes: seq<nat>)
    requires ListOk(p, live, c, nodes) && IsPartKind(c) && pcb !in nodes && pcb != c.owner && Area(pcb, Round(PCBSZ)) in live
    modifies p.image
    ensures ListOk(p, live, c, nodes) && SubAt(p.image[..], pcb) == Part(base, size) && Field(p.image[..], pcb, P_STAT) == BUSY
    ensures forall a: nat :: a < p.image.Length && a != pcb + P_STAT && a != pcb + P_BASE && a != pcb + P_SIZE ==> p.image[a] == old(p.image[a])
  {
    PutField(p, c, pcb, P_STAT, BUSY, live, nodes);
    PutField(p, c, pcb, P_BASE, base, live, nodes);
    PutField(p, c, pcb, P_SIZE, size, live, nodes);
  }

  /** alloc_sub_partition: the sub-partition goes where find_gap has found room, and into the list
      at that place; nothing happens when there is no room, no block in the pool, or the main
      partition is not system-controlled. */
  method AllocSub(p: SystemImage, main: nat, size: byte, ghost live: seq<Area>, ghost nodes: seq<nat>)
    returns (pcb: nat, ghost live': seq<Area>, ghost nodes': seq<nat>)
    requires ListOk(p, live, Subs(main), nodes) && main > 0
    modifies p.image, p`list
    ensures ListOk(p, live', Subs(main), nodes') && FieldsKept(old(p.image[..]), p.image[..], Subs(main), nodes)
    ensures pcb == 0 <==>
      var img := old(p.image[..]);
      || And(Field(img, main, P_ATTR), SYSTEM) == 0 || PlaceSub(SubAt(img, main), SubParts(img, nodes), size).Nowhere?
      || forall b :: b in old(p.list) ==> b.size < Round(PCBSZ)
    ensures pcb == 0 ==> live' == live && nodes' == nodes && p.list == old(p.list) && p.image[..] == old(p.image[..])
    ensures pcb > 0 ==> live' == live + [Area(pcb, Round(PCBSZ))] && AllocStep(PoolState(old(p.list), live), Area(pcb, Round(PCBSZ)), PoolState(p.list, live'), p.lo, p.hi)
    ensures pcb > 0 ==>
      var m, subs := SubAt(old(p.image[..]), main), SubParts(old(p.image[..]), nodes);
      var r := PlaceSub(m, subs, size);
      && r.At? && r.index <= |nodes| && pcb !in nodes && pcb != main && nodes' == WithNode(nodes, r.index, pcb)
      && SubParts(p.image[..], nodes') == Insert(subs, r.index, r.part) && FreshSub(p.image[..], pcb, main)
    ensures forall a: nat :: a < IMAGE_SIZE && Outside(p.head, old(p.list), a) && !IsCell(Subs(main), nodes, a) ==> p.image[a] == old(p.image[a])
  {
    pcb, live', nodes' := 0, live, nodes;
    var found, prvlnk, next, base;
    ghost var i;
    found, prvlnk, next, base, i := FindGap(p, main, size, live, nodes);
    if !found { return; }
    pcb, live', nodes' := EnterSub(p, main, base, size, prvlnk, next, live, nodes, i);
  }

  /** The second half of alloc_sub_partition: the block and its links. */
  method EnterSub(p: SystemImage, main: nat, base: byte, size: byte, prvlnk: nat, next: nat, ghost live: seq<Area>, ghost nodes: seq<nat>, ghost i: nat)
    returns (pcb: nat, ghost live': seq<Area>, ghost nodes': seq<nat>)
    requires ListOk(p, live, Subs(main), nodes) && main > 0 && i <= |nodes| && prvlnk == CellOf(Subs(main), nodes, i) && next == NodeAt(nodes, i)
    modifies p.image, p`list
    ensures ListOk(p, live', Subs(main), nodes') && FieldsKept(old(p.image[..]), p.image[..], Subs(main), nodes)
    ensures pcb == 0 <==> forall b :: b in old(p.list) ==> b.size < Round(PCBSZ)
    ensures pcb == 0 ==> live' == live && nodes' == nodes && p.list == old(p.list) && p.image[..] == old(p.image[..])
    ensures pcb > 0 ==> live' == live + [Area(pcb, Round(PCBSZ))] && AllocStep(PoolState(old(p.list), live), Area(pcb, Round(PCBSZ)), PoolState(p.list, live'), p.lo, p.hi)
    ensures pcb > 0 ==> pcb !in nodes && pcb != main && nodes' == WithNode(nodes, i, pcb)
    ensures pcb > 0 ==> SubParts(p.image[..], nodes') == Insert(SubParts(old(p.image[..]), nodes), i, Part(base, size))
    ensures pcb > 0 ==> FreshSub(p.image[..], pcb, main)
    ensures forall a: nat :: a < IMAGE_SIZE && Outside(p.head, old(p.list), a) && !IsCell(Subs(main), nodes, a) ==> p.image[a] == old(p.image[a])
  {
    ghost var img, s := p.image[..], PoolState(p.list, live);
    var c := Subs(main);
    PlacedHead(img, p.head, p.lo, p.hi, p.list);
    OwnerInside(p, c, live, nodes);
    nodes' := nodes;
    pcb, live' := NewBlock(p, c, live, nodes);
    if pcb == 0 { return; }
    assert live'[|live|] == Area(pcb, Round(c.size));
    FillSub(p, main, pcb, base, size, live', nodes);
    BlockWasFree(s, Area(pcb, Round(PCBSZ)), PoolState(p.list, live'), p.head, p.lo, p.hi);
    OwnFieldsKept(s, p.head, p.lo, p.hi, c, nodes, img, p.image[..]);
    SameSubs(img, p.image[..], c, nodes);
    ghost var img1 := p.image[..];
    nodes' := LinkSub(p, c, prvlnk, next, pcb, live', nodes, i);
    StillFreshSub(img1, p.image[..], pcb, main);
    OwnFieldsKept(s, p.head, p.lo, p.hi, c, nodes, img, p.image[..]);
  }

  method LinkSub(p: SystemImage, c: Kind, prev: nat, next: nat, pcb: nat, ghost live: seq<Area>, ghost nodes: seq<nat>, ghost i: nat) returns (ghost nodes': seq<nat>)
    requires ListOk(p, live, c, nodes) && IsPartKind(c) && i <= |nodes| && prev == CellOf(c, nodes, i) && next == NodeAt(nodes, i)
    requires pcb !in nodes && pcb != c.owner && Area(pcb, Round(c.size)) in live
    modifies p.image
    ensures ListOk(p, live, c, nodes') && nodes' == WithNode(nodes, i, pcb)
    ensures SubParts(p.image[..], nodes') == Insert(SubParts(old(p.image[..]), nodes), i, SubAt(old(p.image[..]), pcb))
    ensures SameFields(old(p.image[..]), p.image[..], pcb)
    ensures forall a: nat :: a < IMAGE_SIZE && !IsCell(c, nodes, a) && !(pcb <= a < pcb + PCBSZ) ==> p.image[a] == old(p.image[a])
  {
    ghost var img := p.image[..];
    LinkBlockBack(p, c, prev, next, pcb, live, nodes, i);
    nodes' := WithNode(nodes, i, pcb);
    InsertedSub(img, p.image[..], c, nodes, i, pcb);
    assert forall a: nat :: prev <= a < prev + 2 ==> IsCell(c, nodes, a);
  }
}
