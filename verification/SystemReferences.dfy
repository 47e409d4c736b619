/** What control blocks of the system image say about each other: a task names the partition that it
    was installed in, and a main partition names itself. */
module SystemReferences {
  import opened Bytes
  import opened PoolList
  import opened Pool
  import opened PoolRuns
  import opened Chains
  import opened SystemLists
  import opened NamedBlocks
  import opened PartitionLists
  import opened SystemState
  import opened SystemPlan
  import TaskLists

  // ---------------------------------------------------------------
  // References
  // ---------------------------------------------------------------

  /** Every main partition names itself as its main partition, and no two have the same name. */
  ghost predicate MainsOk(img: seq<byte>, nodes: seq<nat>)
  {
    && (forall i: nat :: i < |nodes| ==> Word(img, nodes[i], P_MAIN) == nodes[i])
    && forall i: nat, j: nat :: i < j < |nodes| ==> NameOf(img, nodes[i]) != NameOf(img, nodes[j])
  }

  /** The partition of a task. */
  function PartOf(img: seq<byte>, t: nat): nat
  {
    Word(img, t, TaskLists.T_PCB)
  }

  predicate Fixed(img: seq<byte>, t: nat)
  {
    And(Field(img, t, TaskLists.T_ATTR), TaskLists.FIXED) != 0
  }

  ghost predicate InSub(ls: seq<BlockList>, n: nat)
  {
    exists k: nat :: 2 <= k < |ls| && n in ls[k].nodes
  }

  /** A task leads to a main partition that is listed, or, once it is fixed, to a sub-partition that is. */
  ghost predicate Leads(img: seq<byte>, ls: seq<BlockList>, t: nat)
    requires |ls| >= 2
  {
    PartOf(img, t) in ls[1].nodes || (Fixed(img, t) && InSub(ls, PartOf(img, t)))
  }

  ghost predicate AllLead(img: seq<byte>, ls: seq<BlockList>)
    requires |ls| >= 2
  {
    forall i: nat :: i < |ls[0].nodes| ==> Leads(img, ls, ls[0].nodes[i])
  }

  // ---------------------------------------------------------------
  // Fields that stay
  // ---------------------------------------------------------------

  /** All fields of the blocks of list l, except those of block n, the links, and where a list of
      sub-partitions starts. */
  ghost predicate Stay(img: seq<byte>, img': seq<byte>, l: BlockList, n: nat)
  {
    forall i: nat, o: nat :: i < |l.nodes| && l.nodes[i] != n && o < l.kind.size && !(l.kind.link <= o < l.kind.link + 2) && !(P_SUB <= o < P_SUB + 2)
      ==> Field(img', l.nodes[i], o) == Field(img, l.nodes[i], o)
  }

  /** The same partition, name, mark and size of a task. */
  ghost predicate SameTask(img: seq<byte>, img': seq<byte>, t: nat)
  {
    && PartOf(img', t) == PartOf(img, t) && NameOf(img', t) == NameOf(img, t) && (Fixed(img', t) <==> Fixed(img, t))
    && Word(img', t, TaskLists.T_NBLK) == Word(img, t, TaskLists.T_NBLK) && Word(img', t, TaskLists.T_END) == Word(img, t, TaskLists.T_END)
  }

  lemma TaskStays(img: seq<byte>, img': seq<byte>, l: BlockList, n: nat, i: nat)
    requires Stay(img, img', l, n) && i < |l.nodes| && l.nodes[i] != n && l.kind.link == TaskLists.T_TCBL && l.kind.size == TaskLists.TCBSZ
    ensures SameTask(img, img', l.nodes[i])
  {
    forall o: nat | TaskLists.T_ATTR <= o < TaskLists.TCBSZ ensures Field(img', l.nodes[i], o) == Field(img, l.nodes[i], o) {
    }
    assert NameOf(img', l.nodes[i]) == NameOf(img, l.nodes[i]);
  }

  lemma PartStays(img: seq<byte>, img': seq<byte>, l: BlockList, n: nat, i: nat)
    requires Stay(img, img', l, n) && i < |l.nodes| && l.nodes[i] != n && IsPartKind(l.kind)
    ensures Word(img', l.nodes[i], P_MAIN) == Word(img, l.nodes[i], P_MAIN) && NameOf(img', l.nodes[i]) == NameOf(img, l.nodes[i])
    ensures PartAt(img', l.nodes[i]) == PartAt(img, l.nodes[i]) && SubAt(img', l.nodes[i]) == SubAt(img, l.nodes[i])
  {
    forall o: nat | o == P_MAIN || o == P_MAIN + 1 || P_SIZE <= o < PCBSZ ensures Field(img', l.nodes[i], o) == Field(img, l.nodes[i], o) {
    }
    assert NameOf(img', l.nodes[i]) == NameOf(img, l.nodes[i]);
  }

  /** An operation on list j leaves the fields of list k. */
  lemma OthersStay(img: seq<byte>, img': seq<byte>, at: PoolAt, s: PoolState, ls: seq<BlockList>, tlist: nat, plist: nat, j: nat, k: nat)
    requires Holds(img, at, s, ls, tlist, plist) && j < |ls| && k < |ls| && j != k && BytesKept(img, img', ls[k], ls[j].kind.head)
    ensures Stay(img, img', ls[k], 0)
  {
    var h, l := ls[j].kind.head, ls[k];
    forall i: nat, o: nat | i < |l.nodes| && o < l.kind.size && !(P_SUB <= o < P_SUB + 2) ensures Field(img', l.nodes[i], o) == Field(img, l.nodes[i], o) {
      NotInHead(img, at, s, ls, tlist, plist, j, k, i, o);
      assert IsListByte(l.kind, l.nodes, l.nodes[i] + o);
    }
  }

  lemma NotInHead(img: seq<byte>, at: PoolAt, s: PoolState, ls: seq<BlockList>, tlist: nat, plist: nat, j: nat, k: nat, i: nat, o: nat)
    requires Holds(img, at, s, ls, tlist, plist) && j < |ls| && k < |ls| && i < |ls[k].nodes| && o < ls[k].kind.size && !(P_SUB <= o < P_SUB + 2)
    ensures !(ls[j].kind.head <= ls[k].nodes[i] + o < ls[j].kind.head + 2)
  {
    var c, b := ls[j].kind, Area(ls[k].nodes[i], Round(ls[k].kind.size));
    assert ListIn(img, at.head, at.lo, at.hi, s, ls[k]) && b in s.live;
    LiveInside(s, at.lo, at.hi, b);
    if c.owner > 0 && c.owner != b.addr {
      LiveApart(s, at.lo, at.hi, b, Area(c.owner, Round(c.size)));
    }
  }

  lemma OwnStay(img: seq<byte>, img': seq<byte>, l: BlockList)
    requires FieldsKept(img, img', l.kind, l.nodes)
    ensures Stay(img, img', l, 0)
  {
  }

  /** The same in all lists, for blocks that are not among these. */
  ghost predicate RestStays(img: seq<byte>, img': seq<byte>, ls: seq<BlockList>, but: set<nat>)
  {
    forall m: nat, i: nat, o: nat :: m < |ls| && i < |ls[m].nodes| && ls[m].nodes[i] !in but && o < ls[m].kind.size
      && !(ls[m].kind.link <= o < ls[m].kind.link + 2) && !(P_SUB <= o < P_SUB + 2)
      ==> Field(img', ls[m].nodes[i], o) == Field(img, ls[m].nodes[i], o)
  }

  lemma RestOn(a: seq<byte>, b: seq<byte>, c: seq<byte>, ls: seq<BlockList>, x: set<nat>, y: set<nat>)
    requires RestStays(a, b, ls, x) && RestStays(b, c, ls, y)
    ensures RestStays(a, c, ls, x + y)
  {
  }

  /** Blocks of these lists that are in other lists as well. */
  lemma RestAmong(img: seq<byte>, img': seq<byte>, ls: seq<BlockList>, ls': seq<BlockList>, but: set<nat>)
    requires RestStays(img, img', ls', but) && |ls| <= |ls'|
    requires forall m: nat :: m < |ls| ==> ls'[m].kind == ls[m].kind && forall i: nat :: i < |ls[m].nodes| ==> ls[m].nodes[i] in ls'[m].nodes
    ensures RestStays(img, img', ls, but)
  {
    forall m: nat, i: nat, o: nat | m < |ls| && i < |ls[m].nodes| && ls[m].nodes[i] !in but && o < ls[m].kind.size
      && !(ls[m].kind.link <= o < ls[m].kind.link + 2) && !(P_SUB <= o < P_SUB + 2)
      ensures Field(img', ls[m].nodes[i], o) == Field(img, ls[m].nodes[i], o)
    {
      var j: nat :| j < |ls'[m].nodes| && ls'[m].nodes[j] == ls[m].nodes[i];
      assert Field(img', ls'[m].nodes[j], o) == Field(img, ls'[m].nodes[j], o);
    }
  }

  /** An operation on list j that leaves the fields of its own blocks, but for these. */
  lemma RestAfter(img: seq<byte>, img': seq<byte>, at: PoolAt, s: PoolState, ls: seq<BlockList>, tlist: nat, plist: nat, j: nat, rest: seq<nat>, but: set<nat>)
    requires Holds(img, at, s, ls, tlist, plist) && j < |ls| && FieldsKept(img, img', ls[j].kind, rest)
    requires forall i: nat :: i < |ls[j].nodes| && ls[j].nodes[i] !in but ==> ls[j].nodes[i] in rest
    requires forall m: nat :: m < |ls| && m != j && ls[m].nodes != [] ==> BytesKept(img, img', ls[m], ls[j].kind.head)
    ensures RestStays(img, img', ls, but)
  {
    forall m: nat, i: nat, o: nat | m < |ls| && i < |ls[m].nodes| && ls[m].nodes[i] !in but && o < ls[m].kind.size
      && !(ls[m].kind.link <= o < ls[m].kind.link + 2) && !(P_SUB <= o < P_SUB + 2)
      ensures Field(img', ls[m].nodes[i], o) == Field(img, ls[m].nodes[i], o)
    {
      if m == j {
        var k: nat :| k < |rest| && rest[k] == ls[j].nodes[i];
        assert Field(img', rest[k], o) == Field(img, rest[k], o);
      } else {
        BlockNotZero(img, at, s, ls[m], i);
        OthersStay(img, img', at, s, ls, tlist, plist, j, m);
      }
    }
  }

  lemma LeftInWithout(nodes: seq<nat>, i: nat)
    requires i < |nodes|
    ensures forall k: nat :: k < |nodes| && nodes[k] !in {nodes[i]} ==> nodes[k] in WithoutNode(nodes, i)
  {
    forall k: nat | k < |nodes| && nodes[k] !in {nodes[i]} ensures nodes[k] in WithoutNode(nodes, i) {
      assert WithoutNode(nodes, i)[if k < i then k else k - 1] == nodes[k];
    }
  }

  // ---------------------------------------------------------------
  // What commands mean for the references
  // ---------------------------------------------------------------

  lemma MainsStay(img: seq<byte>, img': seq<byte>, l: BlockList, n: nat)
    requires Stay(img, img', l, n) && IsPartKind(l.kind) && n !in l.nodes && MainsOk(img, l.nodes)
    ensures MainsOk(img', l.nodes)
  {
    forall i: nat | i < |l.nodes| ensures Word(img', l.nodes[i], P_MAIN) == l.nodes[i] && NameOf(img', l.nodes[i]) == NameOf(img, l.nodes[i]) {
      PartStays(img, img', l, n, i);
    }
  }

  /** A new main partition under a name that was not in use. */
  lemma MainsWith(img: seq<byte>, img': seq<byte>, l: BlockList, i: nat, n: nat, name: seq<byte>)
    requires Stay(img, img', l, 0) && (forall j: nat :: j < |l.nodes| ==> l.nodes[j] > 0) && IsPartKind(l.kind) && MainsOk(img, l.nodes) && i <= |l.nodes|
    requires Named(img, l.nodes, name, |l.nodes|) == |l.nodes| && NameOf(img', n) == name && Word(img', n, P_MAIN) == n
    ensures MainsOk(img', WithNode(l.nodes, i, n))
  {
    var r := WithNode(l.nodes, i, n);
    MainsStay(img, img', l, 0);
    forall j: nat | j < |l.nodes| ensures NameOf(img', l.nodes[j]) == NameOf(img, l.nodes[j]) != name {
      PartStays(img, img', l, 0, j);
    }
    forall j: nat | j < |r| && j != i ensures r[j] == l.nodes[if j < i then j else j - 1] {
    }
  }

  lemma MainsWithout(img: seq<byte>, img': seq<byte>, l: BlockList, i: nat)
    requires i < |l.nodes| && FieldsKept(img, img', l.kind, WithoutNode(l.nodes, i)) && IsPartKind(l.kind) && MainsOk(img, l.nodes)
    requires forall j: nat :: j < |l.nodes| ==> l.nodes[j] > 0
    ensures MainsOk(img', WithoutNode(l.nodes, i))
  {
    var r := BlockList(l.kind, WithoutNode(l.nodes, i));
    assert forall j: nat :: j < |r.nodes| ==> r.nodes[j] == l.nodes[if j < i then j else j + 1];
    OwnStay(img, img', r);
    MainsStay(img, img', r, 0);
  }

  lemma {:induction false} InWith(nodes: seq<nat>, i: nat, n: nat, x: nat)
    requires i <= |nodes|
    ensures x in WithNode(nodes, i, n) <==> x in nodes || x == n
  {
    var r := WithNode(nodes, i, n);
    assert r[i] == n;
    if x in nodes {
      var j: nat :| j < |nodes| && nodes[j] == x;
      assert r[if j < i then j else j + 1] == x;
    }
  }

  /** Blocks are listed once. */
  lemma InWithout(c: Kind, live: seq<Area>, nodes: seq<nat>, i: nat, x: nat)
    requires Registered(c, live, nodes) && i < |nodes|
    ensures x in WithoutNode(nodes, i) <==> x in nodes && x != nodes[i]
  {
    if x in nodes && x != nodes[i] { OwnerStays(nodes, i, x); }
  }

  /** A new partition: exactly the tasks lead that did before, or that name its block. */
  lemma LeadsWith(img: seq<byte>, img': seq<byte>, ls: seq<BlockList>, i: nat, n: nat, t: nat)
    requires |ls| >= 2 && i <= |ls[1].nodes| && SameTask(img, img', t)
    ensures Leads(img', WithPart(ls, i, n), t) <==> Leads(img, ls, t) || PartOf(img, t) == n
  {
    var r, c := WithPart(ls, i, n), PartOf(img, t);
    InWith(ls[1].nodes, i, n, c);
    if InSub(ls, c) {
      var k: nat :| 2 <= k < |ls| && c in ls[k].nodes;
      assert c in r[k].nodes;
    }
    if InSub(r, c) {
      var k: nat :| 2 <= k < |r| && c in r[k].nodes;
      assert k < |ls| && c in ls[k].nodes;
    }
  }

  /** A partition gone: exactly the tasks lead that did before, and do not name its block. */
  lemma LeadsWithout(img: seq<byte>, img': seq<byte>, at: PoolAt, s: PoolState, ls: seq<BlockList>, tlist: nat, plist: nat, i: nat, x: nat, t: nat)
    requires Holds(img, at, s, ls, tlist, plist) && i < |ls[1].nodes| && 2 <= x < |ls| && ls[x].nodes == [] && SameTask(img, img', t)
    ensures Leads(img', WithoutPart(ls, i, x), t) <==> Leads(img, ls, t) && PartOf(img, t) != ls[1].nodes[i]
  {
    var c := PartOf(img, t);
    assert ListIn(img, at.head, at.lo, at.hi, s, ls[1]);
    InWithout(ls[1].kind, s.live, ls[1].nodes, i, c);
    SubsWithout(ls, i, x, c);
    if InSub(ls, c) {
      var k: nat :| 2 <= k < |ls| && c in ls[k].nodes;
      assert ApartLists(ls[1], ls[k]);
    }
  }

  /** An empty list gone, all sub-partitions are still there. */
  lemma SubsWithout(ls: seq<BlockList>, i: nat, x: nat, c: nat)
    requires |ls| >= 2 && i < |ls[1].nodes| && 2 <= x < |ls| && ls[x].nodes == []
    ensures InSub(WithoutPart(ls, i, x), c) <==> InSub(ls, c)
  {
    var r := WithoutPart(ls, i, x);
    if InSub(ls, c) {
      var k: nat :| 2 <= k < |ls| && c in ls[k].nodes;
      assert r[if k < x then k else k - 1] == ls[k];
    }
    if InSub(r, c) {
      var k: nat :| 2 <= k < |r| && c in r[k].nodes;
      assert r[k] == ls[if k < x then k else k + 1];
    }
  }

  /** A new sub-partition. */
  lemma LeadsWithSub(img: seq<byte>, img': seq<byte>, ls: seq<BlockList>, k: nat, i: nat, n: nat, t: nat)
    requires 2 <= k < |ls| && i <= |ls[k].nodes| && SameTask(img, img', t)
    ensures Leads(img, ls, t) ==> Leads(img', ls[k := BlockList(ls[k].kind, WithNode(ls[k].nodes, i, n))], t)
  {
    var r, c := ls[k := BlockList(ls[k].kind, WithNode(ls[k].nodes, i, n))], PartOf(img, t);
    InWith(ls[k].nodes, i, n, c);
    if InSub(ls, c) {
      var m: nat :| 2 <= m < |ls| && c in ls[m].nodes;
      assert c in r[m].nodes;
    }
  }

  /** A change of the task list alone. */
  lemma LeadsAsBefore(img: seq<byte>, img': seq<byte>, ls: seq<BlockList>, nodes: seq<nat>, t: nat)
    requires |ls| >= 2 && SameTask(img, img', t)
    ensures Leads(img', ls[0 := BlockList(ls[0].kind, nodes)], t) <==> Leads(img, ls, t)
  {
    var r, c := ls[0 := BlockList(ls[0].kind, nodes)], PartOf(img, t);
    if InSub(ls, c) {
      var k: nat :| 2 <= k < |ls| && c in ls[k].nodes;
      assert c in r[k].nodes;
    }
    if InSub(r, c) {
      var k: nat :| 2 <= k < |r| && c in r[k].nodes;
      assert c in ls[k].nodes;
    }
  }

  // ---------------------------------------------------------------
  // Writing into a block that is in a list
  // ---------------------------------------------------------------

  /** Only bytes at these offsets of block n were written. */
  ghost predicate Scribbled(img: seq<byte>, img': seq<byte>, n: nat, offs: set<nat>)
  {
    && |img'| == |img|
    && forall a: nat :: a < |img| && !(n <= a && a - n in offs) ==> img'[a] == img[a]
  }

  /** No link, and no start of a list of sub-partitions. */
  predicate Fields(l: BlockList, offs: set<nat>)
  {
    forall o: nat :: o in offs ==> P_SIZE <= o < l.kind.size
  }

  lemma ScribbleList(img: seq<byte>, img': seq<byte>, at: PoolAt, s: PoolState, ls: seq<BlockList>, tlist: nat, plist: nat, k: nat, i: nat, offs: set<nat>, m: nat)
    requires Holds(img, at, s, ls, tlist, plist) && k < |ls| && i < |ls[k].nodes| && m < |ls|
    requires Scribbled(img, img', ls[k].nodes[i], offs) && Fields(ls[k], offs)
    ensures ListIn(img', at.head, at.lo, at.hi, s, ls[m])
  {
    var l, n := ls[m], ls[k].nodes[i];
    assert ListIn(img, at.head, at.lo, at.hi, s, l);
    forall x: nat | x <= |l.nodes| && CellOf(l.kind, l.nodes, x) + 2 <= |img| ensures Get16(img', CellOf(l.kind, l.nodes, x)) == Get16(img, CellOf(l.kind, l.nodes, x)) {
      CellNotIn(img, at, s, ls, tlist, plist, k, i, m, x);
    }
    ChainKept(img, img', l.kind, l.nodes);
  }

  /** Cell x of list m lies outside block i of list k, or in its first bytes. */
  lemma CellNotIn(img: seq<byte>, at: PoolAt, s: PoolState, ls: seq<BlockList>, tlist: nat, plist: nat, k: nat, i: nat, m: nat, x: nat)
    requires Holds(img, at, s, ls, tlist, plist) && k < |ls| && i < |ls[k].nodes| && m < |ls| && x <= |ls[m].nodes|
    ensures var c, n := CellOf(ls[m].kind, ls[m].nodes, x), ls[k].nodes[i]; c + 2 <= n + P_SIZE || n + ls[k].kind.size <= c
  {
    var l, b := ls[m], Area(ls[k].nodes[i], Round(ls[k].kind.size));
    assert ListIn(img, at.head, at.lo, at.hi, s, ls[k]) && b in s.live && ListIn(img, at.head, at.lo, at.hi, s, l);
    LiveInside(s, at.lo, at.hi, b);
    if x > 0 {
      if l.nodes[x - 1] != b.addr { LiveApart(s, at.lo, at.hi, b, Area(l.nodes[x - 1], Round(l.kind.size))); }
    } else if l.kind.owner > 0 && l.kind.owner != b.addr {
      LiveApart(s, at.lo, at.hi, b, Area(l.kind.owner, Round(l.kind.size)));
    }
  }

  /** The pool and all lists stay as they are, and so do all other fields. */
  lemma ScribbleKeeps(img: seq<byte>, img': seq<byte>, at: PoolAt, s: PoolState, ls: seq<BlockList>, tlist: nat, plist: nat, k: nat, i: nat, offs: set<nat>)
    requires Holds(img, at, s, ls, tlist, plist) && Stores(img, at.head, at.lo, at.hi, s.free) && k < |ls| && i < |ls[k].nodes|
    requires Scribbled(img, img', ls[k].nodes[i], offs) && Fields(ls[k], offs)
    ensures Holds(img', at, s, ls, tlist, plist) && Stores(img', at.head, at.lo, at.hi, s.free)
    ensures forall m: nat :: m < |ls| ==> Stay(img, img', ls[m], ls[k].nodes[i])
  {
    forall m: nat | m < |ls| ensures ListIn(img', at.head, at.lo, at.hi, s, ls[m]) && Stay(img, img', ls[m], ls[k].nodes[i]) {
      ScribbleList(img, img', at, s, ls, tlist, plist, k, i, offs, m);
      ScribbleStay(img, img', at, s, ls, tlist, plist, k, i, offs, m);
    }
    assert ListIn(img, at.head, at.lo, at.hi, s, ls[k]);
    ListOutside(s, ls[k].kind, at.head, at.lo, at.hi, ls[k].nodes);
    StoresKept(img, img', at.head, at.lo, at.hi, s.free);
  }

  lemma ScribbleStay(img: seq<byte>, img': seq<byte>, at: PoolAt, s: PoolState, ls: seq<BlockList>, tlist: nat, plist: nat, k: nat, i: nat, offs: set<nat>, m: nat)
    requires Holds(img, at, s, ls, tlist, plist) && k < |ls| && i < |ls[k].nodes| && m < |ls|
    requires Scribbled(img, img', ls[k].nodes[i], offs) && Fields(ls[k], offs)
    ensures Stay(img, img', ls[m], ls[k].nodes[i])
  {
    var l, n := ls[m], ls[k].nodes[i];
    assert ListIn(img, at.head, at.lo, at.hi, s, ls[k]) && ListIn(img, at.head, at.lo, at.hi, s, l);
    forall j: nat, o: nat | j < |l.nodes| && l.nodes[j] != n && o < l.kind.size ensures Field(img', l.nodes[j], o) == Field(img, l.nodes[j], o) {
      LiveApart(s, at.lo, at.hi, Area(n, Round(ls[k].kind.size)), Area(l.nodes[j], Round(l.kind.size)));
    }
  }

  /** The same base and size. */
  predicate SamePlace(img: seq<byte>, img': seq<byte>, n: nat)
  {
    PartAt(img', n) == PartAt(img, n) && SubAt(img', n) == SubAt(img, n)
  }

  /** The plan depends on bases and sizes only. */
  lemma PlanSame(img: seq<byte>, img': seq<byte>, ls: seq<BlockList>, tlist: nat, plist: nat)
    requires Shape(ls, tlist, plist) && forall m: nat, i: nat :: 1 <= m < |ls| && i < |ls[m].nodes| ==> SamePlace(img, img', ls[m].nodes[i])
    ensures PlanOk(img, ls) ==> PlanOk(img', ls)
  {
    assert Parts(img', ls[1].nodes) == Parts(img, ls[1].nodes);
    forall m: nat | 2 <= m < |ls| ensures SubParts(img', ls[m].nodes) == SubParts(img, ls[m].nodes) && SubAt(img', ls[m].kind.owner) == SubAt(img, ls[m].kind.owner) {
      var j: nat :| j < |ls[1].nodes| && ls[1].nodes[j] == ls[m].kind.owner;
      assert SamePlace(img, img', ls[1].nodes[j]);
    }
  }

  /** ... so it stays when the fields of all partitions do. */
  lemma PlanStays(img: seq<byte>, img': seq<byte>, ls: seq<BlockList>, tlist: nat, plist: nat, n: nat)
    requires Shape(ls, tlist, plist) && forall m: nat :: 1 <= m < |ls| ==> Stay(img, img', ls[m], n) && (n in ls[m].nodes ==> SamePlace(img, img', n))
    ensures PlanOk(img, ls) ==> PlanOk(img', ls)
  {
    forall m: nat, i: nat | 1 <= m < |ls| && i < |ls[m].nodes| ensures SamePlace(img, img', ls[m].nodes[i]) {
      if ls[m].nodes[i] != n { PartStays(img, img', ls[m], n, i); }
    }
    PlanSame(img, img', ls, tlist, plist);
  }
}
