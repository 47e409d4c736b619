/** Tasks, partitions and sub-partitions of vmr.c in one image: what adding or taking away a block
    means for all lists, and for the partitions' places in memory. */
module SystemPlan {
  import opened Bytes
  import opened PoolList
  import opened Pool
  import opened PoolRuns
  import opened Chains
  import opened SystemLists
  import opened PartitionPlan
  import opened PartitionLists
  import opened SystemState
  import TaskLists

  /** The pool: its list head and bounds. */
  datatype PoolAt = PoolAt(head: nat, lo: nat, hi: nat)

  /** The task list, the partition list, and one list of sub-partitions for each partition. */
  ghost predicate Shape(ls: seq<BlockList>, tlist: nat, plist: nat)
  {
    && |ls| >= 2 && ls[0].kind == TaskLists.Tasks(tlist) && ls[1].kind == Mains(plist)
    && (forall k: nat :: 2 <= k < |ls| ==> ls[k].kind == Subs(ls[k].kind.owner) && ls[k].kind.owner in ls[1].nodes && ls[k].kind.owner > 0)
    && forall n :: n in ls[1].nodes ==> exists k: nat :: 2 <= k < |ls| && ls[k].kind.owner == n
  }

  ghost predicate Holds(img: seq<byte>, at: PoolAt, s: PoolState, ls: seq<BlockList>, tlist: nat, plist: nat)
  {
    AllOk(img, at.head, at.lo, at.hi, s, ls) && Shape(ls, tlist, plist)
  }

  /** The partitions are in order and disjoint, and so are the sub-partitions inside each one. */
  ghost predicate PlanOk(img: seq<byte>, ls: seq<BlockList>)
  {
    && |ls| >= 2
    && Sorted(Parts(img, ls[1].nodes)) && Within(Parts(img, ls[1].nodes), TOP)
    && forall k: nat :: 2 <= k < |ls| ==> Inside(SubAt(img, ls[k].kind.owner), SubParts(img, ls[k].nodes))
  }

  // ---------------------------------------------------------------
  // What the plan depends on
  // ---------------------------------------------------------------

  /** The head cell of a list is neither base nor size of a partition in another list. */
  lemma HeadClear(img: seq<byte>, at: PoolAt, s: PoolState, ls: seq<BlockList>, tlist: nat, plist: nat, j: nat, k: nat, i: nat)
    requires Holds(img, at, s, ls, tlist, plist) && j < |ls| && 1 <= k < |ls| && i < |ls[k].nodes|
    ensures var h, n := ls[j].kind.head, ls[k].nodes[i]; h + 2 <= n + P_SIZE || n + P_SIZE + 4 <= h
    ensures ls[k].nodes[i] + PCBSZ <= IMAGE_SIZE
  {
    var h, n := ls[j].kind.head, ls[k].nodes[i];
    assert Area(n, Round(PCBSZ)) in s.live;
    LiveInside(s, at.lo, at.hi, Area(n, Round(PCBSZ)));
    if j >= 2 && ls[j].kind.owner != n {
      LiveApart(s, at.lo, at.hi, Area(n, Round(PCBSZ)), Area(ls[j].kind.owner, Round(PCBSZ)));
    }
  }

  /** Base and size of a partition in a list that is left alone. */
  lemma PartKept(img: seq<byte>, img': seq<byte>, o: BlockList, h: nat, i: nat)
    requires BytesKept(img, img', o, h) && IsPartKind(o.kind) && i < |o.nodes|
    requires var n := o.nodes[i]; (h + 2 <= n + P_SIZE || n + P_SIZE + 4 <= h) && n + PCBSZ <= IMAGE_SIZE
    ensures PartAt(img', o.nodes[i]) == PartAt(img, o.nodes[i]) && SubAt(img', o.nodes[i]) == SubAt(img, o.nodes[i])
  {
    forall a: nat | P_SIZE <= a < P_SIZE + 4 ensures Field(img', o.nodes[i], a) == Field(img, o.nodes[i], a) {
      assert IsListByte(o.kind, o.nodes, o.nodes[i] + a);
    }
  }

  /** All of list k, after an operation on list j. */
  lemma ListPartsKept(img: seq<byte>, img': seq<byte>, at: PoolAt, s: PoolState, ls: seq<BlockList>, tlist: nat, plist: nat, j: nat, k: nat)
    requires Holds(img, at, s, ls, tlist, plist) && j < |ls| && 1 <= k < |ls| && k != j && OthersKept(img, img', ls, j)
    ensures Parts(img', ls[k].nodes) == Parts(img, ls[k].nodes) && SubParts(img', ls[k].nodes) == SubParts(img, ls[k].nodes)
    ensures forall n :: n in ls[k].nodes ==> SubAt(img', n) == SubAt(img, n)
  {
    forall i: nat | i < |ls[k].nodes|
      ensures Parts(img', ls[k].nodes)[i] == Parts(img, ls[k].nodes)[i] && SubParts(img', ls[k].nodes)[i] == SubParts(img, ls[k].nodes)[i]
      ensures SubAt(img', ls[k].nodes[i]) == SubAt(img, ls[k].nodes[i])
    {
      HeadClear(img, at, s, ls, tlist, plist, j, k, i);
      PartKept(img, img', ls[k], ls[j].kind.head, i);
    }
  }

  /** An operation on the tasks leaves the plan alone. */
  lemma PlanKept(img: seq<byte>, img': seq<byte>, at: PoolAt, s: PoolState, ls: seq<BlockList>, tlist: nat, plist: nat, l: BlockList)
    requires Holds(img, at, s, ls, tlist, plist) && OthersKept(img, img', ls, 0)
    ensures PlanOk(img, ls) ==> PlanOk(img', ls[0 := l])
  {
    if PlanOk(img, ls) {
      ListPartsKept(img, img', at, s, ls, tlist, plist, 0, 1);
      forall k: nat | 2 <= k < |ls| ensures Inside(SubAt(img', ls[k].kind.owner), SubParts(img', ls[k].nodes)) {
        ListPartsKept(img, img', at, s, ls, tlist, plist, 0, k);
      }
    }
  }

  // ---------------------------------------------------------------
  // Tasks
  // ---------------------------------------------------------------

  /** A list other than that of the partitions may change its blocks. */
  lemma ShapeKept(ls: seq<BlockList>, tlist: nat, plist: nat, j: nat, nodes: seq<nat>)
    requires Shape(ls, tlist, plist) && j < |ls| && j != 1
    ensures Shape(ls[j := BlockList(ls[j].kind, nodes)], tlist, plist)
  {
    var r := ls[j := BlockList(ls[j].kind, nodes)];
    forall n | n in r[1].nodes ensures exists k: nat :: 2 <= k < |r| && r[k].kind.owner == n {
      var k: nat :| 2 <= k < |ls| && ls[k].kind.owner == n;
      assert r[k].kind.owner == n;
    }
  }

  /** Block n of the pool, written to but in no list: an installation that fails late. */
  lemma OnlyAllocated(img: seq<byte>, img': seq<byte>, at: PoolAt, s: PoolState, b: Area, t: PoolState, ls: seq<BlockList>, tlist: nat, plist: nat)
    requires Holds(img, at, s, ls, tlist, plist) && AllocStep(s, b, t, at.lo, at.hi)
    requires Wrote(img, img', at.head, s, t, ls[0]) && ListIn(img', at.head, at.lo, at.hi, t, ls[0])
    ensures Holds(img', at, t, ls, tlist, plist) && OthersKept(img, img', ls, 0) && (PlanOk(img, ls) ==> PlanOk(img', ls))
  {
    AllocKeepsPartition(s, b, t, at.lo, at.hi);
    StepKeepsAll(img, img', at.head, at.lo, at.hi, s, t, ls, 0, ls[0]);
    assert ls[0 := ls[0]] == ls;
    PlanKept(img, img', at, s, ls, tlist, plist, ls[0]);
  }

  /** Task block n put into the task list. */
  lemma TaskAdded(img: seq<byte>, img': seq<byte>, at: PoolAt, s: PoolState, t: PoolState, ls: seq<BlockList>, tlist: nat, plist: nat, i: nat, n: nat)
    requires Holds(img, at, s, ls, tlist, plist) && i <= |ls[0].nodes| && AllocStep(s, Area(n, Round(TaskLists.TCBSZ)), t, at.lo, at.hi)
    requires Wrote(img, img', at.head, s, t, ls[0]) && ListIn(img', at.head, at.lo, at.hi, t, BlockList(ls[0].kind, WithNode(ls[0].nodes, i, n)))
    ensures var ls' := ls[0 := BlockList(ls[0].kind, WithNode(ls[0].nodes, i, n))];
      Holds(img', at, t, ls', tlist, plist) && (PlanOk(img, ls) ==> PlanOk(img', ls'))
    ensures OthersKept(img, img', ls, 0)
  {
    InsertKeepsAll(img, img', at.head, at.lo, at.hi, s, t, ls, 0, i, n);
    ShapeKept(ls, tlist, plist, 0, WithNode(ls[0].nodes, i, n));
    PlanKept(img, img', at, s, ls, tlist, plist, BlockList(ls[0].kind, WithNode(ls[0].nodes, i, n)));
  }

  /** Only blocks of the partition list carry heads. */
  lemma NoOwner(img: seq<byte>, at: PoolAt, s: PoolState, ls: seq<BlockList>, tlist: nat, plist: nat, i: nat)
    requires Holds(img, at, s, ls, tlist, plist) && i < |ls[0].nodes|
    ensures forall k: nat :: k < |ls| ==> ls[k].kind.owner != ls[0].nodes[i]
  {
    assert Area(ls[0].nodes[i], Round(TaskLists.TCBSZ)) in s.live;
    LiveInside(s, at.lo, at.hi, Area(ls[0].nodes[i], Round(TaskLists.TCBSZ)));
    assert ApartLists(ls[0], ls[1]);
  }

  /** Task block i taken out and freed. */
  lemma TaskRemoved(img: seq<byte>, img': seq<byte>, at: PoolAt, s: PoolState, x: nat, t: PoolState, ls: seq<BlockList>, tlist: nat, plist: nat, i: nat)
    requires Holds(img, at, s, ls, tlist, plist) && i < |ls[0].nodes| && FreeStep(s, x, t, at.lo, at.hi) && s.live[x].addr == ls[0].nodes[i]
    requires Wrote(img, img', at.head, s, t, ls[0]) && ListIn(img', at.head, at.lo, at.hi, t, BlockList(ls[0].kind, WithoutNode(ls[0].nodes, i)))
    ensures var ls' := ls[0 := BlockList(ls[0].kind, WithoutNode(ls[0].nodes, i))];
      Holds(img', at, t, ls', tlist, plist) && (PlanOk(img, ls) ==> PlanOk(img', ls'))
    ensures OthersKept(img, img', ls, 0)
  {
    NoOwner(img, at, s, ls, tlist, plist, i);
    RemoveKeepsAll(img, img', at.head, at.lo, at.hi, s, x, t, ls, 0, i);
    ShapeKept(ls, tlist, plist, 0, WithoutNode(ls[0].nodes, i));
    PlanKept(img, img', at, s, ls, tlist, plist, BlockList(ls[0].kind, WithoutNode(ls[0].nodes, i)));
  }

  // ---------------------------------------------------------------
  // Partitions
  // ---------------------------------------------------------------

  /** The lists once partition n is in front of partition i. */
  function WithPart(ls: seq<BlockList>, i: nat, n: nat): (r: seq<BlockList>)
    requires |ls| >= 2 && i <= |ls[1].nodes|
    ensures |r| == |ls| + 1 && r[1] == BlockList(ls[1].kind, WithNode(ls[1].nodes, i, n)) && r[|ls|] == BlockList(Subs(n), [])
    ensures forall k: nat :: k < |ls| && k != 1 ==> r[k] == ls[k]
  {
    ls[1 := BlockList(ls[1].kind, WithNode(ls[1].nodes, i, n))] + [BlockList(Subs(n), [])]
  }

  lemma ShapeWith(ls: seq<BlockList>, tlist: nat, plist: nat, i: nat, n: nat)
    requires Shape(ls, tlist, plist) && i <= |ls[1].nodes| && n > 0
    ensures Shape(WithPart(ls, i, n), tlist, plist)
  {
    var r := WithPart(ls, i, n);
    assert r[1].nodes[i] == n;
    forall m | m in r[1].nodes ensures exists k: nat :: 2 <= k < |r| && r[k].kind.owner == m {
      if m == n {
        assert r[|ls|].kind.owner == n;
      } else {
        assert m in ls[1].nodes;
        var k: nat :| 2 <= k < |ls| && ls[k].kind.owner == m;
        assert r[k].kind.owner == m;
      }
    }
    forall k: nat | 2 <= k < |ls| ensures r[k].kind.owner in r[1].nodes {
      var j: nat :| j < |ls[1].nodes| && ls[1].nodes[j] == ls[k].kind.owner;
      assert r[1].nodes[if j < i then j else j + 1] == ls[k].kind.owner;
    }
  }

  /** Partition block n put into the partition list, with no sub-partitions. */
  lemma PartAdded(img: seq<byte>, img': seq<byte>, at: PoolAt, s: PoolState, t: PoolState, ls: seq<BlockList>, tlist: nat, plist: nat, i: nat, n: nat)
    requires Holds(img, at, s, ls, tlist, plist) && i <= |ls[1].nodes| && AllocStep(s, Area(n, Round(PCBSZ)), t, at.lo, at.hi)
    requires Wrote(img, img', at.head, s, t, ls[1]) && ListIn(img', at.head, at.lo, at.hi, t, BlockList(ls[1].kind, WithNode(ls[1].nodes, i, n)))
    requires n > 0 && n !in ls[1].nodes && Get16(img', n + P_SUB) == 0
    ensures Holds(img', at, t, WithPart(ls, i, n), tlist, plist) && OthersKept(img, img', ls, 1)
  {
    var r := ls[1 := BlockList(ls[1].kind, WithNode(ls[1].nodes, i, n))];
    InsertKeepsAll(img, img', at.head, at.lo, at.hi, s, t, ls, 1, i, n);
    assert n + PCBSZ < 0x1_0000;
    AddEmptyList(img', at.head, at.lo, at.hi, t, r, 1, i, Subs(n));
    ShapeWith(ls, tlist, plist, i, n);
  }

  /** The plan with a new partition. */
  lemma PlanWith(img: seq<byte>, img': seq<byte>, at: PoolAt, s: PoolState, ls: seq<BlockList>, tlist: nat, plist: nat, i: nat, n: nat, part: Part)
    requires Holds(img, at, s, ls, tlist, plist) && i <= |ls[1].nodes| && OthersKept(img, img', ls, 1) && FieldsKept(img, img', ls[1].kind, ls[1].nodes)
    requires Parts(img', WithNode(ls[1].nodes, i, n)) == Insert(Parts(img, ls[1].nodes), i, part)
    requires PlanOk(img, ls) && Sorted(Insert(Parts(img, ls[1].nodes), i, part)) && part.size > 0 && part.End() <= TOP
    ensures PlanOk(img', WithPart(ls, i, n))
  {
    var r := WithPart(ls, i, n);
    forall k: nat | 2 <= k < |r| ensures Inside(SubAt(img', r[k].kind.owner), SubParts(img', r[k].nodes)) {
      if k < |ls| {
        ListPartsKept(img, img', at, s, ls, tlist, plist, 1, k);
        MainKept(img, img', ls, ls[k].kind.owner);
      }
    }
  }

  lemma MainKept(img: seq<byte>, img': seq<byte>, ls: seq<BlockList>, n: nat)
    requires |ls| >= 2 && IsPartKind(ls[1].kind) && FieldsKept(img, img', ls[1].kind, ls[1].nodes) && n in ls[1].nodes
    ensures SubAt(img', n) == SubAt(img, n)
  {
    var i: nat :| i < |ls[1].nodes| && ls[1].nodes[i] == n;
    assert Field(img', ls[1].nodes[i], P_BASE) == Field(img, n, P_BASE) && Field(img', ls[1].nodes[i], P_SIZE) == Field(img, n, P_SIZE);
  }

  /** The lists once partition i is gone, and with it its empty list x. */
  function WithoutPart(ls: seq<BlockList>, i: nat, x: nat): (r: seq<BlockList>)
    requires 2 <= x < |ls| && i < |ls[1].nodes|
    ensures |r| == |ls| - 1 && r[0] == ls[0] && r[1] == BlockList(ls[1].kind, WithoutNode(ls[1].nodes, i))
    ensures forall k: nat :: 2 <= k < |r| ==> r[k] == ls[if k < x then k else k + 1]
  {
    (ls[..x] + ls[x + 1..])[1 := BlockList(ls[1].kind, WithoutNode(ls[1].nodes, i))]
  }

  /** Two lists cannot have the same owner. */
  lemma OneOwner(img: seq<byte>, at: PoolAt, s: PoolState, ls: seq<BlockList>, tlist: nat, plist: nat, j: nat, k: nat)
    requires Holds(img, at, s, ls, tlist, plist) && 2 <= j < |ls| && 2 <= k < |ls| && j != k
    ensures ls[j].kind.owner != ls[k].kind.owner
  {
    assert ApartLists(ls[j], ls[k]);
    assert Apart(CellOf(ls[j].kind, ls[j].nodes, 0), CellOf(ls[k].kind, ls[k].nodes, 0));
  }

  /** The owner of another list stays in the partition list. */
  lemma OwnerStays(nodes: seq<nat>, i: nat, n: nat)
    requires i < |nodes| && n in nodes && n != nodes[i]
    ensures n in WithoutNode(nodes, i)
  {
    var j: nat :| j < |nodes| && nodes[j] == n;
    assert WithoutNode(nodes, i)[if j < i then j else j - 1] == n;
  }

  /** What stays in the partition list keeps its list. */
  lemma ListStays(ls: seq<BlockList>, tlist: nat, plist: nat, i: nat, x: nat, n: nat)
    requires Shape(ls, tlist, plist) && i < |ls[1].nodes| && 2 <= x < |ls| && ls[x].kind.owner == ls[1].nodes[i]
    requires n in ls[1].nodes && n != ls[1].nodes[i]
    ensures exists k: nat :: 2 <= k < |WithoutPart(ls, i, x)| && WithoutPart(ls, i, x)[k].kind.owner == n
  {
    var r := WithoutPart(ls, i, x);
    var k: nat :| 2 <= k < |ls| && ls[k].kind.owner == n;
    assert r[if k < x then k else k - 1].kind.owner == n;
  }

  lemma ShapeWithout(img: seq<byte>, at: PoolAt, s: PoolState, ls: seq<BlockList>, tlist: nat, plist: nat, i: nat, x: nat)
    requires Holds(img, at, s, ls, tlist, plist) && i < |ls[1].nodes| && 2 <= x < |ls| && ls[x].kind.owner == ls[1].nodes[i]
    ensures Shape(WithoutPart(ls, i, x), tlist, plist)
  {
    var r := WithoutPart(ls, i, x);
    forall k: nat | 2 <= k < |r| ensures r[k].kind == Subs(r[k].kind.owner) && r[k].kind.owner in r[1].nodes && r[k].kind.owner > 0 {
      OneOwner(img, at, s, ls, tlist, plist, if k < x then k else k + 1, x);
      OwnerStays(ls[1].nodes, i, r[k].kind.owner);
    }
    forall n | n in r[1].nodes ensures exists k: nat :: 2 <= k < |r| && r[k].kind.owner == n {
      var j: nat :| j < |r[1].nodes| && r[1].nodes[j] == n;
      assert n == ls[1].nodes[if j < i then j else j + 1] != ls[1].nodes[i];
      ListStays(ls, tlist, plist, i, x, n);
    }
  }

  /** Partition block i without sub-partitions, taken out and freed. */
  lemma PartRemoved(img: seq<byte>, img': seq<byte>, at: PoolAt, s: PoolState, y: nat, t: PoolState, ls: seq<BlockList>, tlist: nat, plist: nat, i: nat, x: nat)
    requires Holds(img, at, s, ls, tlist, plist) && i < |ls[1].nodes| && FreeStep(s, y, t, at.lo, at.hi) && s.live[y].addr == ls[1].nodes[i]
    requires 2 <= x < |ls| && ls[x].kind.owner == ls[1].nodes[i]
    requires Wrote(img, img', at.head, s, t, ls[1]) && ListIn(img', at.head, at.lo, at.hi, t, BlockList(ls[1].kind, WithoutNode(ls[1].nodes, i)))
    ensures Holds(img', at, t, WithoutPart(ls, i, x), tlist, plist) && OthersKept(img, img', ls[..x] + ls[x + 1..], 1)
  {
    var r := ls[..x] + ls[x + 1..];
    FewerLists(img, at.head, at.lo, at.hi, s, ls, x);
    assert r[1] == ls[1];
    OthersOwned(img, at, s, ls, tlist, plist, i, x);
    RemoveKeepsAll(img, img', at.head, at.lo, at.hi, s, y, t, r, 1, i);
    ShapeWithout(img, at, s, ls, tlist, plist, i, x);
  }

  lemma OthersOwned(img: seq<byte>, at: PoolAt, s: PoolState, ls: seq<BlockList>, tlist: nat, plist: nat, i: nat, x: nat)
    requires Holds(img, at, s, ls, tlist, plist) && i < |ls[1].nodes| && 2 <= x < |ls| && ls[x].kind.owner == ls[1].nodes[i]
    ensures var r := ls[..x] + ls[x + 1..]; forall k: nat :: k < |r| ==> r[k].kind.owner != ls[1].nodes[i]
  {
    forall k: nat | 2 <= k < |ls| && k != x ensures ls[k].kind.owner != ls[1].nodes[i] {
      OneOwner(img, at, s, ls, tlist, plist, k, x);
    }
    BlockNotZero(img, at, s, ls[1], i);
    OwnersLeft(ls, ls[1].nodes[i], x);
  }

  lemma BlockNotZero(img: seq<byte>, at: PoolAt, s: PoolState, l: BlockList, i: nat)
    requires ListIn(img, at.head, at.lo, at.hi, s, l) && i < |l.nodes|
    ensures l.nodes[i] > 0
  {
  }

  lemma OwnersLeft(ls: seq<BlockList>, n: nat, x: nat)
    requires 2 <= x < |ls| && n > 0 && ls[0].kind.owner == ls[1].kind.owner == 0
    requires forall k: nat :: 2 <= k < |ls| && k != x ==> ls[k].kind.owner != n
    ensures var r := ls[..x] + ls[x + 1..]; forall k: nat :: k < |r| ==> r[k].kind.owner != n
  {
    var r := ls[..x] + ls[x + 1..];
    assert forall k: nat :: k < |r| ==> r[k] == ls[if k < x then k else k + 1];
  }

  /** The plan without partition i. */
  lemma PlanWithout(img: seq<byte>, img': seq<byte>, at: PoolAt, s: PoolState, ls: seq<BlockList>, tlist: nat, plist: nat, i: nat, x: nat)
    requires Holds(img, at, s, ls, tlist, plist) && i < |ls[1].nodes| && 2 <= x < |ls| && ls[x].kind.owner == ls[1].nodes[i]
    requires OthersKept(img, img', ls[..x] + ls[x + 1..], 1) && FieldsKept(img, img', ls[1].kind, WithoutNode(ls[1].nodes, i)) && PlanOk(img, ls)
    ensures PlanOk(img', WithoutPart(ls, i, x))
  {
    var r := WithoutPart(ls, i, x);
    ShapeWithout(img, at, s, ls, tlist, plist, i, x);
    SameParts(img, img', ls[1].kind, r[1].nodes);
    assert forall j: nat :: j < |r[1].nodes| ==> Parts(img, r[1].nodes)[j] == Parts(img, ls[1].nodes)[if j < i then j else j + 1];
    forall k: nat | 2 <= k < |r| ensures Inside(SubAt(img', r[k].kind.owner), SubParts(img', r[k].nodes)) {
      MainKept(img, img', r, r[k].kind.owner);
      SubsKept(img, img', at, s, ls, tlist, plist, x, if k < x then k else k + 1);
    }
  }

  /** The sub-partitions of another partition than that of list x. */
  lemma SubsKept(img: seq<byte>, img': seq<byte>, at: PoolAt, s: PoolState, ls: seq<BlockList>, tlist: nat, plist: nat, x: nat, k: nat)
    requires Holds(img, at, s, ls, tlist, plist) && 2 <= x < |ls| && 2 <= k < |ls| && k != x && OthersKept(img, img', ls[..x] + ls[x + 1..], 1)
    ensures SubParts(img', ls[k].nodes) == SubParts(img, ls[k].nodes)
  {
    var r := ls[..x] + ls[x + 1..];
    assert r[if k < x then k else k - 1] == ls[k] && r[1] == ls[1];
    forall i: nat | i < |ls[k].nodes| ensures SubParts(img', ls[k].nodes)[i] == SubParts(img, ls[k].nodes)[i] {
      HeadClear(img, at, s, ls, tlist, plist, 1, k, i);
      PartKept(img, img', ls[k], ls[1].kind.head, i);
    }
  }

  // ---------------------------------------------------------------
  // Sub-partitions
  // ---------------------------------------------------------------

  /** Sub-partition block n put into list k. */
  lemma SubAdded(img: seq<byte>, img': seq<byte>, at: PoolAt, s: PoolState, t: PoolState, ls: seq<BlockList>, tlist: nat, plist: nat, k: nat, i: nat, n: nat)
    requires Holds(img, at, s, ls, tlist, plist) && 2 <= k < |ls| && i <= |ls[k].nodes| && AllocStep(s, Area(n, Round(PCBSZ)), t, at.lo, at.hi)
    requires Wrote(img, img', at.head, s, t, ls[k]) && ListIn(img', at.head, at.lo, at.hi, t, BlockList(ls[k].kind, WithNode(ls[k].nodes, i, n)))
    ensures Holds(img', at, t, ls[k := BlockList(ls[k].kind, WithNode(ls[k].nodes, i, n))], tlist, plist) && OthersKept(img, img', ls, k)
  {
    InsertKeepsAll(img, img', at.head, at.lo, at.hi, s, t, ls, k, i, n);
    ShapeKept(ls, tlist, plist, k, WithNode(ls[k].nodes, i, n));
  }

  /** The plan with a new sub-partition. */
  lemma PlanWithSub(img: seq<byte>, img': seq<byte>, at: PoolAt, s: PoolState, ls: seq<BlockList>, tlist: nat, plist: nat, k: nat, i: nat, n: nat, part: Part)
    requires Holds(img, at, s, ls, tlist, plist) && 2 <= k < |ls| && i <= |ls[k].nodes| && OthersKept(img, img', ls, k)
    requires SubParts(img', WithNode(ls[k].nodes, i, n)) == Insert(SubParts(img, ls[k].nodes), i, part)
    requires PlanOk(img, ls) && Inside(SubAt(img, ls[k].kind.owner), Insert(SubParts(img, ls[k].nodes), i, part))
    ensures PlanOk(img', ls[k := BlockList(ls[k].kind, WithNode(ls[k].nodes, i, n))])
  {
    var r := ls[k := BlockList(ls[k].kind, WithNode(ls[k].nodes, i, n))];
    ListPartsKept(img, img', at, s, ls, tlist, plist, k, 1);
    forall j: nat | 2 <= j < |r| ensures Inside(SubAt(img', r[j].kind.owner), SubParts(img', r[j].nodes)) {
      assert SubAt(img', ls[j].kind.owner) == SubAt(img, ls[j].kind.owner);
      if j != k { ListPartsKept(img, img', at, s, ls, tlist, plist, k, j); }
    }
  }
}
