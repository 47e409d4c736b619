/** The task list of vmr.c: install_task and remove_task on the system image. */
module TaskLists {
  import opened Bytes
  import opened PoolList
  import opened Pool
  import opened PoolRuns
  import opened Chains
  import opened SystemLists
  import opened NamedBlocks

  const T_TCBL: nat := 2
  const T_ATTR: nat := 6
  const T_PRI: nat := 10
  const T_CTX: nat := 45
  const T_NBLK: nat := 55
  const T_PCB: nat := 57
  const T_END: nat := 65
  const TCBSZ: nat := 71
  /** 1 << TA_FIX */
  const FIXED: nat := 8

  /** The directory list of task control blocks; head is the value of the symbol $TLIST. */
  function Tasks(head: nat): Kind
  {
    Kind(head, T_TCBL, TCBSZ, 0)
  }

  function Priorities(img: seq<byte>, nodes: seq<nat>): (r: seq<byte>)
    ensures |r| == |nodes| && forall i: nat :: i < |nodes| ==> r[i] == Field(img, nodes[i], T_PRI)
  {
    seq(|nodes|, i requires 0 <= i < |nodes| => Field(img, nodes[i], T_PRI))
  }

  lemma SameFields(img: seq<byte>, img': seq<byte>, c: Kind, nodes: seq<nat>, i: nat)
    requires FieldsKept(img, img', c, nodes) && i < |nodes| && c.link == T_TCBL && c.size == TCBSZ
    ensures Field(img', nodes[i], T_PRI) == Field(img, nodes[i], T_PRI) && Field(img', nodes[i], T_ATTR) == Field(img, nodes[i], T_ATTR)
    ensures NameOf(img', nodes[i]) == NameOf(img, nodes[i])
  {
    SameName(img, img', c, nodes, i);
  }

  // ---------------------------------------------------------------
  // Order
  // ---------------------------------------------------------------

  /** The first position behind which all priorities up to n are at least x: where the search
      among the first n blocks stops. */
  function InsertPoint(pris: seq<byte>, x: byte, n: nat): (i: nat)
    requires n <= |pris|
    ensures i <= n && (forall j: nat :: j < i ==> pris[j] >= x) && (i < n ==> pris[i] < x)
  {
    if n == 0 then 0
    else
      var i := InsertPoint(pris, x, n - 1);
      if i < n - 1 || pris[n - 1] < x then i else n
  }

  predicate NonIncreasing(pris: seq<byte>)
  {
    forall i: nat, j: nat :: i < j < |pris| ==> pris[i] >= pris[j]
  }

  function Inserted(pris: seq<byte>, i: nat, q: byte): (r: seq<byte>)
    requires i <= |pris|
    ensures |r| == |pris| + 1 && r[i] == q && (forall j: nat :: j < i ==> r[j] == pris[j]) && forall j: nat :: i < j < |r| ==> r[j] == pris[j - 1]
  {
    pris[..i] + [q] + pris[i..]
  }

  /** A block with the priority that was searched for keeps the list in order, and comes behind all
      others of that priority. */
  lemma InstalledInOrder(pris: seq<byte>, x: byte)
    requires NonIncreasing(pris)
    ensures var i := InsertPoint(pris, x, |pris|);
      && NonIncreasing(Inserted(pris, i, x))
      && forall j: nat :: j < |pris| ==> (j < i <==> pris[j] >= x)
  {
    var i := InsertPoint(pris, x, |pris|);
    forall j: nat | j < |pris| ensures j < i <==> pris[j] >= x {
      assert i < j ==> pris[i] >= pris[j];
    }
  }

  /** With a priority q given on installation, the search still uses the x of the task header: the list
      stays in order if and only if every priority that is at least x is at least q as well, and every one
      that is less than x is at most q. */
  lemma OverrideOrder(pris: seq<byte>, x: byte, q: byte)
    requires NonIncreasing(pris)
    ensures NonIncreasing(Inserted(pris, InsertPoint(pris, x, |pris|), q))
      <==> forall j: nat :: j < |pris| ==> if pris[j] >= x then pris[j] >= q else pris[j] <= q
  {
    InstalledInOrder(pris, x);
    var i := InsertPoint(pris, x, |pris|);
    var r := Inserted(pris, i, q);
    if NonIncreasing(r) {
      forall j: nat | j < |pris| ensures if pris[j] >= x then pris[j] >= q else pris[j] <= q {
        if j < i { assert r[j] >= r[i]; } else { assert r[i] >= r[j + 1]; }
      }
    }
  }

  /** A task with priority 1 installed from a header that says 10 is put in front of one with
      priority 5. */
  lemma OverrideExample()
    ensures InsertPoint([5], 10, 1) == 0 && Inserted([5], 0, 1) == [1, 5] && !NonIncreasing([1, 5])
  {
    assert [1, 5][0] < [1, 5][1];
  }

  lemma {:induction false} InsertPointIs(pris: seq<byte>, x: byte, n: nat, i: nat)
    requires i <= n <= |pris| && (forall j: nat :: j < i ==> pris[j] >= x) && (i < n ==> pris[i] < x)
    ensures InsertPoint(pris, x, n) == i
  {
  }

  // ---------------------------------------------------------------
  // install_task
  // ---------------------------------------------------------------

  /** What install_task writes into the block of a task, as far as other commands look at it: its
      attributes and priority, its partition, its size in blocks, its end address, and its name. */
  datatype Entry = Entry(attr: byte, pri: byte, name: seq<byte>, pcb: nat, blocks: nat, end: nat)
  {
    predicate Ok() { |name| == 6 && pcb < 0x1_0000 && blocks < 0x1_0000 }
  }

  /** The block holds all of that; the end address is kept in 16 bits. */
  ghost predicate Says(img: seq<byte>, n: nat, e: Entry)
  {
    && Field(img, n, T_ATTR) == e.attr && Field(img, n, T_PRI) == e.pri && NameOf(img, n) == e.name
    && Word(img, n, T_PCB) == e.pcb && Word(img, n, T_NBLK) == e.blocks && Word(img, n, T_END) == e.end % 0x1_0000
  }

  /** Two images agree on the fields of a block. */
  ghost predicate SameBlock(img: seq<byte>, img': seq<byte>, n: nat)
  {
    forall o: nat :: T_ATTR <= o < TCBSZ ==> Field(img', n, o) == Field(img, n, o)
  }

  lemma StillSays(img: seq<byte>, img': seq<byte>, n: nat, e: Entry)
    requires SameBlock(img, img', n) && Says(img, n, e)
    ensures Says(img', n, e)
  {
    assert NameOf(img', n) == NameOf(img, n);
  }

  /** The words of a new block. */
  method FillWords(p: SystemImage, c: Kind, tcb: nat, e: Entry, ghost live: seq<Area>, ghost nodes: seq<nat>)
    requires ListOk(p, live, c, nodes) && tcb !in nodes && tcb != c.owner && Area(tcb, Round(c.size)) in live && c.size == TCBSZ && c.link == T_TCBL && e.Ok()
    modifies p.image
    ensures ListOk(p, live, c, nodes)
    ensures Word(p.image[..], tcb, T_PCB) == e.pcb && Word(p.image[..], tcb, T_NBLK) == e.blocks && Word(p.image[..], tcb, T_END) == e.end % 0x1_0000
    ensures forall a: nat :: a < p.image.Length && !(tcb + T_NBLK <= a < tcb + TCBSZ) ==> p.image[a] == old(p.image[a])
  {
    PutWord(p, c, tcb, T_NBLK, e.blocks, live, nodes);
    PutWord(p, c, tcb, T_PCB, e.pcb, live, nodes);
    PutWord(p, c, tcb, T_END, e.end % 0x1_0000, live, nodes);
  }

  lemma FrontSays(img: seq<byte>, img': seq<byte>, n: nat)
    requires |img'| == |img| && n + TCBSZ <= |img| && forall a: nat :: a < |img| && !(n + T_NBLK <= a < n + TCBSZ) ==> img'[a] == img[a]
    ensures NameOf(img', n) == NameOf(img, n) && Field(img', n, T_ATTR) == Field(img, n, T_ATTR) && Field(img', n, T_PRI) == Field(img, n, T_PRI)
  {
    assert forall o: nat :: o < T_NBLK ==> Field(img', n, o) == Field(img, n, o);
  }

  /** The fields of a new block; the name has six characters. */
  method FillBlock(p: SystemImage, c: Kind, tcb: nat, e: Entry, ghost live: seq<Area>, ghost nodes: seq<nat>)
    requires ListOk(p, live, c, nodes) && tcb !in nodes && tcb != c.owner && Area(tcb, Round(c.size)) in live && c.size == TCBSZ && c.link == T_TCBL && e.Ok()
    modifies p.image
    ensures ListOk(p, live, c, nodes) && Says(p.image[..], tcb, e)
    ensures forall a: nat :: a < p.image.Length && !(tcb <= a < tcb + TCBSZ) ==> p.image[a] == old(p.image[a])
  {
    BlockInside(p, c, tcb, live, nodes);
    PutField(p, c, tcb, T_ATTR, e.attr, live, nodes);
    PutField(p, c, tcb, T_PRI, e.pri, live, nodes);
    ghost var img := p.image[..];
    FillName(p, c, tcb, e.name, live, nodes);
    ghost var img1 := p.image[..];
    assert Field(img1, tcb, T_ATTR) == Field(img, tcb, T_ATTR) && Field(img1, tcb, T_PRI) == Field(img, tcb, T_PRI);
    FillWords(p, c, tcb, e, live, nodes);
    FrontSays(img1, p.image[..], tcb);
  }

  /** The search for the place of a task. */
  method FindTaskPlace(p: SystemImage, c: Kind, x: byte, ghost live: seq<Area>, ghost nodes: seq<nat>) returns (prev: nat, tlist: nat, ghost i: nat)
    requires ListOk(p, live, c, nodes) && c.link == T_TCBL && c.size == TCBSZ
    ensures i == InsertPoint(Priorities(p.image[..], nodes), x, |nodes|) && prev == CellOf(c, nodes, i) && tlist == NodeAt(nodes, i)
  {
    ghost var pris := Priorities(p.image[..], nodes);
    prev, i := c.head, 0;
    CellFacts(p.image[..], c, nodes, 0);
    tlist := p.GetW(prev);
    while tlist != 0
      invariant i <= |nodes| && prev == CellOf(c, nodes, i) && tlist == NodeAt(nodes, i)
      invariant forall j: nat :: j < i ==> pris[j] >= x
      decreases |nodes| - i
    {
      assert i < |nodes|;
      if p.image[tlist + T_PRI] < x { break; }
      prev, i := tlist + c.link, i + 1;
      CellFacts(p.image[..], c, nodes, i);
      tlist := p.GetW(prev);
    }
    CellFacts(p.image[..], c, nodes, i);
    InsertPointIs(pris, x, |nodes|, i);
  }

  lemma SamePriorities(img: seq<byte>, img': seq<byte>, c: Kind, nodes: seq<nat>)
    requires FieldsKept(img, img', c, nodes) && c.link == T_TCBL && c.size == TCBSZ
    ensures Priorities(img', nodes) == Priorities(img, nodes)
  {
    forall i: nat | i < |nodes| ensures Priorities(img', nodes)[i] == Priorities(img, nodes)[i] {
      SameFields(img, img', c, nodes, i);
    }
  }

  lemma InstalledFields(img: seq<byte>, img': seq<byte>, c: Kind, nodes: seq<nat>, i: nat, n: nat)
    requires i <= |nodes| && FieldsKept(img, img', c, WithNode(nodes, i, n)) && c.link == T_TCBL && c.size == TCBSZ
    ensures Priorities(img', WithNode(nodes, i, n)) == Inserted(Priorities(img, nodes), i, Field(img, n, T_PRI))
    ensures SameBlock(img, img', n)
  {
    var r := WithNode(nodes, i, n);
    SamePriorities(img, img', c, r);
    forall o: nat | T_ATTR <= o < TCBSZ ensures Field(img', n, o) == Field(img, n, o) {
      assert r[i] == n;
    }
    assert Priorities(img, r) == Inserted(Priorities(img, nodes), i, Field(img, n, T_PRI));
  }

  /** The search for the place, and the two links. */
  method LinkTask(p: SystemImage, c: Kind, tcb: nat, thpri: byte, ghost live: seq<Area>, ghost nodes: seq<nat>) returns (ghost nodes': seq<nat>)
    requires ListOk(p, live, c, nodes) && c.link == T_TCBL && c.size == TCBSZ
    requires tcb !in nodes && tcb != c.owner && Area(tcb, Round(c.size)) in live
    modifies p.image
    ensures ListOk(p, live, c, nodes')
    ensures var pris := old(Priorities(p.image[..], nodes));
      var i := InsertPoint(pris, thpri, |nodes|);
      nodes' == WithNode(nodes, i, tcb) && Priorities(p.image[..], nodes') == Inserted(pris, i, old(Field(p.image[..], tcb, T_PRI)))
    ensures SameBlock(old(p.image[..]), p.image[..], tcb)
    ensures forall a: nat :: a < IMAGE_SIZE && !IsCell(c, nodes, a) && !(tcb <= a < tcb + TCBSZ) ==> p.image[a] == old(p.image[a])
  {
    ghost var img := p.image[..];
    var prev, tlist;
    ghost var i;
    prev, tlist, i := FindTaskPlace(p, c, thpri, live, nodes);
    LinkBlock(p, c, prev, tlist, tcb, live, nodes, i);
    nodes' := WithNode(nodes, i, tcb);
    InstalledFields(img, p.image[..], c, nodes, i, tcb);
    assert forall a: nat :: prev <= a < prev + 2 ==> IsCell(c, nodes, a);
  }

  /** The end of the address space of a task: RSX280 or RSX180. */
  function Limit(z280: bool): nat
  {
    if z280 then 0x1_0000 else 0xF000
  }

  /** install_task from the allocation of the block on: the block goes behind all tasks with at least
      the priority of the header.  A program that is too big is not linked, and its block stays
      allocated. */
  method InstallTask(p: SystemImage, c: Kind, e: Entry, thpri: byte, z280: bool, ghost live: seq<Area>, ghost nodes: seq<nat>)
    returns (tcb: nat, ghost live': seq<Area>, ghost nodes': seq<nat>)
    requires ListOk(p, live, c, nodes) && c.link == T_TCBL && c.size == TCBSZ && e.Ok()
    modifies p.image, p`list
    ensures ListOk(p, live', c, nodes')
    ensures FieldsKept(old(p.image[..]), p.image[..], c, nodes)
    ensures tcb == 0 <==> forall b :: b in old(p.list) ==> b.size < Round(TCBSZ)
    ensures tcb == 0 ==> live' == live && nodes' == nodes && p.list == old(p.list) && p.image[..] == old(p.image[..])
    ensures tcb > 0 ==> live' == live + [Area(tcb, Round(TCBSZ))] && AllocStep(PoolState(old(p.list), live), Area(tcb, Round(TCBSZ)), PoolState(p.list, live'), p.lo, p.hi)
    ensures tcb > 0 ==> tcb !in nodes && (nodes' == nodes <==> e.end > Limit(z280))
    ensures tcb > 0 && e.end <= Limit(z280) ==>
      var pris := old(Priorities(p.image[..], nodes));
      var i := InsertPoint(pris, thpri, |nodes|);
      && nodes' == WithNode(nodes, i, tcb) && Priorities(p.image[..], nodes') == Inserted(pris, i, e.pri)
      && Says(p.image[..], tcb, e)
    ensures forall a: nat :: a < IMAGE_SIZE && Outside(p.head, old(p.list), a) && !IsCell(c, nodes, a) ==> p.image[a] == old(p.image[a])
  {
    ghost var img, s := p.image[..], PoolState(p.list, live);
    PlacedHead(img, p.head, p.lo, p.hi, p.list);
    nodes' := nodes;
    tcb, live' := NewBlock(p, c, live, nodes);
    if tcb == 0 { return; }
    assert live'[|live|] == Area(tcb, Round(c.size));
    FillBlock(p, c, tcb, e, live', nodes);
    BlockWasFree(s, Area(tcb, Round(TCBSZ)), PoolState(p.list, live'), p.head, p.lo, p.hi);
    OwnFieldsKept(s, p.head, p.lo, p.hi, c, nodes, img, p.image[..]);
    if e.end > Limit(z280) { return; }
    ghost var img1 := p.image[..];
    SamePriorities(img, img1, c, nodes);
    nodes' := LinkTask(p, c, tcb, thpri, live', nodes);
    StillSays(img1, p.image[..], tcb, e);
    OwnFieldsKept(s, p.head, p.lo, p.hi, c, nodes, img, p.image[..]);
  }

  // ---------------------------------------------------------------
  // remove_task
  // ---------------------------------------------------------------

  /** remove_task: the first task of the name leaves the list, and its block the pool, unless it is
      fixed in memory. */
  method RemoveTask(p: SystemImage, c: Kind, name: seq<byte>, ghost live: seq<Area>, ghost nodes: seq<nat>)
    returns (done: bool, ghost live': seq<Area>, ghost nodes': seq<nat>, ghost i: nat, ghost k: nat)
    requires ListOk(p, live, c, nodes) && c.link == T_TCBL && c.size == TCBSZ
    modifies p.image, p`list
    ensures ListOk(p, live', c, nodes') && FieldsKept(old(p.image[..]), p.image[..], c, nodes')
    ensures i == Named(old(p.image[..]), nodes, name, |nodes|)
    ensures done <==> i < |nodes| && And(Field(old(p.image[..]), nodes[i], T_ATTR), FIXED) == 0
    ensures !done ==> live' == live && nodes' == nodes && p.list == old(p.list) && p.image[..] == old(p.image[..])
    ensures done ==> nodes' == WithoutNode(nodes, i) && k < |live| && live[k] == Area(nodes[i], Round(TCBSZ)) && live' == live[..k] + live[k + 1..]
    ensures done ==> FreeStep(PoolState(old(p.list), live), k, PoolState(p.list, live'), p.lo, p.hi)
    ensures forall a: nat :: a < IMAGE_SIZE && Outside(p.head, p.list, a) && !IsCell(c, nodes, a) ==> p.image[a] == old(p.image[a])
  {
    ghost var img := p.image[..];
    done, live', nodes', k := false, live, nodes, 0;
    var prev, tlist;
    prev, tlist, i := FindNamed(p, c, name, live, nodes);
    CellFacts(img, c, nodes, i);
    if tlist == 0 { return; }
    var attr := p.image[tlist + T_ATTR];
    if And(attr, FIXED) != 0 { return; }
    CellFacts(img, c, nodes, i + 1);
    var next := p.GetW(tlist + T_TCBL);
    live', k := DropBlock(p, c, prev, tlist, next, live, nodes, i);
    nodes' := WithoutNode(nodes, i);
    done := true;
  }

  /** A task installed and removed again leaves the task list and the free list as they were. */
  method InstallThenRemove(p: SystemImage, c: Kind, e: Entry, thpri: byte, z280: bool, ghost live: seq<Area>, ghost nodes: seq<nat>)
    returns (installed: bool, removed: bool)
    requires ListOk(p, live, c, nodes) && c.link == T_TCBL && c.size == TCBSZ && e.Ok()
    requires And(e.attr, FIXED) == 0 && Named(p.image[..], nodes, e.name, |nodes|) == |nodes| && e.end <= Limit(z280)
    modifies p.image, p`list
    ensures ListOk(p, live, c, nodes) && p.list == old(p.list) && FieldsKept(old(p.image[..]), p.image[..], c, nodes)
    ensures removed == installed && (!installed <==> forall b :: b in p.list ==> b.size < Round(TCBSZ))
  {
    ghost var img, s := p.image[..], PoolState(p.list, live);
    var tcb;
    ghost var live1, nodes1;
    tcb, live1, nodes1 := InstallTask(p, c, e, thpri, z280, live, nodes);
    installed, removed := tcb > 0, false;
    if !installed { return; }
    ghost var img1, s1, at := p.image[..], PoolState(p.list, live1), InsertPoint(Priorities(img, nodes), thpri, |nodes|);
    NewNameFound(img, img1, c, nodes, at, tcb, e.name);
    ghost var live2, nodes2, i, k;
    removed, live2, nodes2, i, k := RemoveTask(p, c, e.name, live1, nodes1);
    OneLive(s1, p.lo, p.hi, |live|, k);
    FreeUndoesAlloc(s, Area(tcb, Round(TCBSZ)), s1, PoolState(p.list, live2), p.lo, p.hi);
    WithoutWith(nodes, at, tcb);
    FieldsTransitive(img, img1, p.image[..], c, nodes);
  }
}
