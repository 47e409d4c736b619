/** Who owns the pages of memory in a run of commands of vmr.c: every fixed task has pages of its own, enough
    for it, and every block that stands for pages in use belongs to a fixed task.  SET /NOPAR does not look at
    the busy bit, and that is where this ends. */
module SystemPages {
  import opened Bytes
  import opened PoolList
  import opened Pool
  import opened PoolRuns
  import opened Chains
  import opened SystemLists
  import opened NamedBlocks
  import opened PartitionPlan
  import opened PartitionLists
  import opened SystemState
  import opened SystemPlan
  import opened SystemReferences
  import opened SystemOperations
  import opened TaskFixing
  import opened SystemRuns
  import TaskLists

  ghost predicate IsFixed(img: seq<byte>, ls: seq<BlockList>, t: nat)
    requires |ls| >= 2
  {
    t in ls[0].nodes && Fixed(img, t)
  }

  predicate Busy(img: seq<byte>, n: nat)
  {
    And(Field(img, n, P_STAT), BUSY) != 0
  }

  /** The block stands for pages in use: a busy partition, or a sub-partition. */
  ghost predicate Taken(img: seq<byte>, ls: seq<BlockList>, n: nat)
    requires |ls| >= 2
  {
    (n in ls[1].nodes && Busy(img, n)) || InSub(ls, n)
  }

  /** The task has a size, and its block at least as many pages. */
  predicate Fits(img: seq<byte>, t: nat, z280: bool)
  {
    0 < SizeOf(img, t, z280) <= Field(img, PartOf(img, t), P_SIZE)
  }

  /** System-controlled partitions are divided, and never busy; all others are used as a whole. */
  ghost predicate Modes(img: seq<byte>, ls: seq<BlockList>)
    requires |ls| >= 2
  {
    && (forall n: nat :: n in ls[1].nodes && Busy(img, n) ==> !IsSystem(img, n))
    && forall k: nat :: 2 <= k < |ls| && ls[k].nodes != [] ==> IsSystem(img, ls[k].kind.owner)
  }

  /** The fixed tasks and the blocks in use belong together one to one. */
  ghost predicate PagesOwned(img: seq<byte>, ls: seq<BlockList>, z280: bool)
    requires |ls| >= 2
  {
    && (forall t: nat :: IsFixed(img, ls, t) ==> Taken(img, ls, PartOf(img, t)) && Fits(img, t, z280))
    && (forall t: nat, u: nat :: IsFixed(img, ls, t) && IsFixed(img, ls, u) && PartOf(img, t) == PartOf(img, u) ==> t == u)
    && (forall n: nat :: Taken(img, ls, n) ==> exists t: nat :: IsFixed(img, ls, t) && PartOf(img, t) == n)
    && Modes(img, ls)
  }

  // ---------------------------------------------------------------
  // No page belongs to two
  // ---------------------------------------------------------------

  /** The pages that a block stands for. */
  ghost function PagesOf(img: seq<byte>, ls: seq<BlockList>, n: nat): Part
    requires |ls| >= 2
  {
    if n in ls[1].nodes then PartAt(img, n) else SubAt(img, n)
  }

  lemma MainsApart(img: seq<byte>, ls: seq<BlockList>, m: nat, n: nat)
    requires PlanOk(img, ls) && m in ls[1].nodes && n in ls[1].nodes && m != n
    ensures Disjoint(PartAt(img, m), PartAt(img, n))
  {
    var nodes := ls[1].nodes;
    var i: nat :| i < |nodes| && nodes[i] == m;
    var j: nat :| j < |nodes| && nodes[j] == n;
    assert Parts(img, nodes)[i] == PartAt(img, m) && Parts(img, nodes)[j] == PartAt(img, n);
    assert i < j || j < i;
  }

  /** A sub-partition lies in the pages of its owner. */
  lemma SubInMain(img: seq<byte>, ls: seq<BlockList>, tlist: nat, plist: nat, k: nat, n: nat)
    requires PlanOk(img, ls) && Shape(ls, tlist, plist) && 2 <= k < |ls| && n in ls[k].nodes
    ensures var m := ls[k].kind.owner; m in ls[1].nodes && PartAt(img, m).base <= SubAt(img, n).base && SubAt(img, n).End() <= PartAt(img, m).End() <= TOP
  {
    var m := ls[k].kind.owner;
    var i: nat :| i < |ls[1].nodes| && ls[1].nodes[i] == m;
    var j: nat :| j < |ls[k].nodes| && ls[k].nodes[j] == n;
    assert Parts(img, ls[1].nodes)[i] == PartAt(img, m);
    assert Inside(SubAt(img, m), SubParts(img, ls[k].nodes)) && SubParts(img, ls[k].nodes)[j] == SubAt(img, n);
  }

  lemma SubsApart(img: seq<byte>, at: PoolAt, s: PoolState, ls: seq<BlockList>, tlist: nat, plist: nat, k: nat, m: nat, l: nat, n: nat)
    requires PlanOk(img, ls) && Holds(img, at, s, ls, tlist, plist) && 2 <= k < |ls| && m in ls[k].nodes && 2 <= l < |ls| && n in ls[l].nodes && m != n
    ensures Disjoint(SubAt(img, m), SubAt(img, n))
  {
    if k == l {
      var nodes := ls[k].nodes;
      var i: nat :| i < |nodes| && nodes[i] == m;
      var j: nat :| j < |nodes| && nodes[j] == n;
      assert SubParts(img, nodes)[i] == SubAt(img, m) && SubParts(img, nodes)[j] == SubAt(img, n);
      assert i < j || j < i;
    } else {
      OneOwner(img, at, s, ls, tlist, plist, k, l);
      SubInMain(img, ls, tlist, plist, k, m);
      SubInMain(img, ls, tlist, plist, l, n);
      MainsApart(img, ls, ls[k].kind.owner, ls[l].kind.owner);
    }
  }

  /** A block of a sub-partition is no main partition. */
  lemma SubNoMain(img: seq<byte>, at: PoolAt, s: PoolState, ls: seq<BlockList>, tlist: nat, plist: nat, n: nat)
    requires Holds(img, at, s, ls, tlist, plist)
    ensures InSub(ls, n) ==> n !in ls[1].nodes
  {
    if InSub(ls, n) {
      var k: nat :| 2 <= k < |ls| && n in ls[k].nodes;
      assert ApartLists(ls[k], ls[1]);
    }
  }

  lemma MainSubApart(img: seq<byte>, at: PoolAt, s: PoolState, ls: seq<BlockList>, tlist: nat, plist: nat, m: nat, n: nat)
    requires PlanOk(img, ls) && Holds(img, at, s, ls, tlist, plist) && Modes(img, ls) && m in ls[1].nodes && Busy(img, m) && InSub(ls, n)
    ensures Disjoint(PartAt(img, m), SubAt(img, n))
  {
    var k: nat :| 2 <= k < |ls| && n in ls[k].nodes;
    SubInMain(img, ls, tlist, plist, k, n);
    MainsApart(img, ls, m, ls[k].kind.owner);
  }

  /** Blocks in use share no page. */
  lemma TakenApart(img: seq<byte>, at: PoolAt, s: PoolState, ls: seq<BlockList>, tlist: nat, plist: nat, m: nat, n: nat)
    requires PlanOk(img, ls) && Holds(img, at, s, ls, tlist, plist) && Modes(img, ls) && Taken(img, ls, m) && Taken(img, ls, n) && m != n
    ensures Disjoint(PagesOf(img, ls, m), PagesOf(img, ls, n))
  {
    SubNoMain(img, at, s, ls, tlist, plist, m);
    SubNoMain(img, at, s, ls, tlist, plist, n);
    if InSub(ls, m) && InSub(ls, n) {
      var k: nat :| 2 <= k < |ls| && m in ls[k].nodes;
      var l: nat :| 2 <= l < |ls| && n in ls[l].nodes;
      SubsApart(img, at, s, ls, tlist, plist, k, m, l, n);
    } else if InSub(ls, n) {
      MainSubApart(img, at, s, ls, tlist, plist, m, n);
    } else if InSub(ls, m) {
      MainSubApart(img, at, s, ls, tlist, plist, n, m);
    } else {
      MainsApart(img, ls, m, n);
    }
  }

  /** The pages of a block in use are inside the memory, and as many as its size says. */
  lemma TakenInside(img: seq<byte>, ls: seq<BlockList>, tlist: nat, plist: nat, n: nat)
    requires PlanOk(img, ls) && Shape(ls, tlist, plist) && Taken(img, ls, n)
    ensures PagesOf(img, ls, n).End() <= TOP && PagesOf(img, ls, n).size >= Field(img, n, P_SIZE)
  {
    if n in ls[1].nodes {
      var i: nat :| i < |ls[1].nodes| && ls[1].nodes[i] == n;
      assert Parts(img, ls[1].nodes)[i] == PartAt(img, n);
    } else {
      var k: nat :| 2 <= k < |ls| && n in ls[k].nodes;
      SubInMain(img, ls, tlist, plist, k, n);
    }
  }

  /** A fixed task has pages inside the memory, and enough of them for its blocks and addresses. */
  lemma PagesEnough(img: seq<byte>, ls: seq<BlockList>, tlist: nat, plist: nat, z280: bool, t: nat)
    requires PlanOk(img, ls) && Shape(ls, tlist, plist) && PagesOwned(img, ls, z280) && IsFixed(img, ls, t)
    ensures var a := PagesOf(img, ls, PartOf(img, t)); a.End() <= TOP && RoomIn(Word(img, t, TaskLists.T_NBLK), Word(img, t, TaskLists.T_END), a.size)
  {
    TakenInside(img, ls, tlist, plist, PartOf(img, t));
    SizeIs(Word(img, t, TaskLists.T_NBLK), Word(img, t, TaskLists.T_END), z280, SizeOf(img, t, z280));
  }

  /** Every fixed task has pages inside the memory, enough for it, and shares none of them with another one. */
  ghost predicate OwnPages(img: seq<byte>, ls: seq<BlockList>)
    requires |ls| >= 2
  {
    && (forall t: nat :: IsFixed(img, ls, t) ==>
          var a := PagesOf(img, ls, PartOf(img, t)); a.End() <= TOP && RoomIn(Word(img, t, TaskLists.T_NBLK), Word(img, t, TaskLists.T_END), a.size))
    && forall t: nat, u: nat :: IsFixed(img, ls, t) && IsFixed(img, ls, u) && t != u ==> Disjoint(PagesOf(img, ls, PartOf(img, t)), PagesOf(img, ls, PartOf(img, u)))
  }

  lemma PagesApart(img: seq<byte>, at: PoolAt, s: PoolState, ls: seq<BlockList>, tlist: nat, plist: nat, z280: bool)
    requires PlanOk(img, ls) && Holds(img, at, s, ls, tlist, plist) && PagesOwned(img, ls, z280)
    ensures OwnPages(img, ls)
  {
    forall t: nat | IsFixed(img, ls, t)
      ensures var a := PagesOf(img, ls, PartOf(img, t)); a.End() <= TOP && RoomIn(Word(img, t, TaskLists.T_NBLK), Word(img, t, TaskLists.T_END), a.size)
    {
      PagesEnough(img, ls, tlist, plist, z280, t);
    }
    forall t: nat, u: nat | IsFixed(img, ls, t) && IsFixed(img, ls, u) && t != u ensures Disjoint(PagesOf(img, ls, PartOf(img, t)), PagesOf(img, ls, PartOf(img, u))) {
      TakenApart(img, at, s, ls, tlist, plist, PartOf(img, t), PartOf(img, u));
    }
  }

  // ---------------------------------------------------------------
  // Commands that leave all pages where they are
  // ---------------------------------------------------------------

  lemma TaskRest(img: seq<byte>, img': seq<byte>, ls: seq<BlockList>, tlist: nat, plist: nat, but: set<nat>, t: nat)
    requires Shape(ls, tlist, plist) && RestStays(img, img', ls, but) && t in ls[0].nodes && t !in but
    ensures SameTask(img, img', t)
  {
    var i: nat :| i < |ls[0].nodes| && ls[0].nodes[i] == t;
    forall o: nat | TaskLists.T_ATTR <= o < TaskLists.TCBSZ ensures Field(img', t, o) == Field(img, t, o) {
      assert Field(img', ls[0].nodes[i], o) == Field(img, ls[0].nodes[i], o);
    }
  }

  lemma PartRest(img: seq<byte>, img': seq<byte>, ls: seq<BlockList>, tlist: nat, plist: nat, but: set<nat>, k: nat, n: nat)
    requires Shape(ls, tlist, plist) && RestStays(img, img', ls, but) && 1 <= k < |ls| && n in ls[k].nodes && n !in but
    ensures Field(img', n, P_SIZE) == Field(img, n, P_SIZE) && (Busy(img', n) <==> Busy(img, n)) && (IsSystem(img', n) <==> IsSystem(img, n))
  {
    var i: nat :| i < |ls[k].nodes| && ls[k].nodes[i] == n;
    forall o: nat | P_SIZE <= o < PCBSZ ensures Field(img', n, o) == Field(img, n, o) {
      assert Field(img', ls[k].nodes[i], o) == Field(img, ls[k].nodes[i], o);
    }
  }

  /** The same tasks are fixed, in the same blocks, and the same blocks are in use. */
  ghost predicate SameOwners(img: seq<byte>, ls: seq<BlockList>, img': seq<byte>, ls': seq<BlockList>)
    requires |ls| >= 2 && |ls'| >= 2
  {
    && (forall t: nat :: IsFixed(img', ls', t) <==> IsFixed(img, ls, t))
    && (forall t: nat :: IsFixed(img, ls, t) ==> SameTask(img, img', t))
    && (forall n: nat :: Taken(img', ls', n) <==> Taken(img, ls, n))
    && (forall n: nat :: Taken(img, ls, n) ==> Field(img', n, P_SIZE) == Field(img, n, P_SIZE))
    && (Modes(img, ls) ==> Modes(img', ls'))
  }

  lemma OwnersStay(img: seq<byte>, ls: seq<BlockList>, img': seq<byte>, ls': seq<BlockList>, z280: bool)
    requires |ls| >= 2 && |ls'| >= 2 && SameOwners(img, ls, img', ls') && PagesOwned(img, ls, z280)
    ensures PagesOwned(img', ls', z280)
  {
    forall n: nat | Taken(img', ls', n) ensures exists t: nat :: IsFixed(img', ls', t) && PartOf(img', t) == n {
      assert Taken(img, ls, n);
      var t: nat :| IsFixed(img, ls, t) && PartOf(img, t) == n;
      assert IsFixed(img', ls', t);
    }
  }

  /** The lists of partitions stay, and their fields. */
  lemma TakenStays(img: seq<byte>, ls: seq<BlockList>, img': seq<byte>, ls': seq<BlockList>, tlist: nat, plist: nat, but: set<nat>)
    requires Shape(ls, tlist, plist) && RestStays(img, img', ls, but) && |ls'| == |ls| && ls'[1..] == ls[1..]
    requires forall k: nat, n: nat :: 1 <= k < |ls| && n in ls[k].nodes ==> n !in but
    ensures forall n: nat :: Taken(img', ls', n) <==> Taken(img, ls, n)
    ensures forall n: nat :: Taken(img, ls, n) ==> Field(img', n, P_SIZE) == Field(img, n, P_SIZE)
    ensures Modes(img, ls) ==> Modes(img', ls')
  {
    assert forall k: nat :: 1 <= k < |ls| ==> ls'[k] == ls'[1..][k - 1] == ls[k];
    forall k: nat, n: nat | 1 <= k < |ls| && n in ls[k].nodes
      ensures Field(img', n, P_SIZE) == Field(img, n, P_SIZE) && (Busy(img', n) <==> Busy(img, n)) && (IsSystem(img', n) <==> IsSystem(img, n))
    {
      PartRest(img, img', ls, tlist, plist, but, k, n);
    }
    forall n: nat ensures InSub(ls', n) <==> InSub(ls, n) {
      if InSub(ls', n) { var k: nat :| 2 <= k < |ls'| && n in ls'[k].nodes; assert n in ls[k].nodes; }
      if InSub(ls, n) { var k: nat :| 2 <= k < |ls| && n in ls[k].nodes; assert n in ls'[k].nodes; }
    }
  }

  /** REM takes no fixed task. */
  lemma RemPages(at: PoolAt, m: Moment, name: seq<byte>, m': Moment, tlist: nat, plist: nat)
    requires Holds(m.img, at, m.s, m.ls, tlist, plist) && |m'.ls| >= 2 && RemEffect(at, m, name, m')
    ensures SameOwners(m.img, m.ls, m'.img, m'.ls)
  {
    var nodes := m.ls[0].nodes;
    var i := Named(m.img, nodes, name, |nodes|);
    if i < |nodes| && !Fixed(m.img, nodes[i]) {
      TaskNoPart(m.img, at, m.s, m.ls, tlist, plist, i);
      TakenStays(m.img, m.ls, m'.img, m'.ls, tlist, plist, {nodes[i]});
      LeftInWithout(nodes, i);
      forall t: nat | t in nodes && t != nodes[i] ensures t in m'.ls[0].nodes && SameTask(m.img, m'.img, t)
      {
        TaskRest(m.img, m'.img, m.ls, tlist, plist, {nodes[i]}, t);
      }
      NotInWithout(m.img, at, m.s, m.ls, tlist, plist, 0, i);
    }
  }

  /** A block that was taken out is not in the list any more, and the others are. */
  lemma NotInWithout(img: seq<byte>, at: PoolAt, s: PoolState, ls: seq<BlockList>, tlist: nat, plist: nat, k: nat, i: nat)
    requires Holds(img, at, s, ls, tlist, plist) && k < |ls| && i < |ls[k].nodes|
    ensures forall n: nat :: n in WithoutNode(ls[k].nodes, i) <==> n in ls[k].nodes && n != ls[k].nodes[i]
  {
    assert ListIn(img, at.head, at.lo, at.hi, s, ls[k]);
    forall n: nat ensures n in WithoutNode(ls[k].nodes, i) <==> n in ls[k].nodes && n != ls[k].nodes[i] {
      InWithout(ls[k].kind, s.live, ls[k].nodes, i, n);
    }
  }

  /** SET /PAR: the new partition is not busy. */
  lemma ParPages(at: PoolAt, m: Moment, c: Command, pcb: nat, m': Moment, tlist: nat, plist: nat)
    requires Holds(m.img, at, m.s, m.ls, tlist, plist) && |m'.ls| >= 2 && c.SetPartition? && ParEffect(at, m, c.name, c.base, c.size, c.wb, c.ws, c.attr, pcb, m')
    ensures SameOwners(m.img, m.ls, m'.img, m'.ls)
  {
    if pcb > 0 {
      var i := PlaceMain(Parts(m.img, m.ls[1].nodes), c.base, c.size, c.wb, c.ws).index;
      forall t: nat | t in m.ls[0].nodes ensures SameTask(m.img, m'.img, t)
      {
        TaskRest(m.img, m'.img, m.ls, tlist, plist, {}, t);
      }
      TakenWith(m.img, m'.img, m.ls, tlist, plist, i, pcb);
    }
  }

  lemma TakenWith(img: seq<byte>, img': seq<byte>, ls: seq<BlockList>, tlist: nat, plist: nat, i: nat, pcb: nat)
    requires Shape(ls, tlist, plist) && RestStays(img, img', ls, {}) && i <= |ls[1].nodes| && Field(img', pcb, P_STAT) == 0 && pcb !in ls[1].nodes
    ensures var ls' := WithPart(ls, i, pcb);
      && (forall n: nat :: Taken(img', ls', n) <==> Taken(img, ls, n))
      && (forall n: nat :: Taken(img, ls, n) ==> Field(img', n, P_SIZE) == Field(img, n, P_SIZE))
      && (Modes(img, ls) ==> Modes(img', ls'))
  {
    var ls' := WithPart(ls, i, pcb);
    forall k: nat, n: nat | 1 <= k < |ls| && n in ls[k].nodes
      ensures Field(img', n, P_SIZE) == Field(img, n, P_SIZE) && (Busy(img', n) <==> Busy(img, n)) && (IsSystem(img', n) <==> IsSystem(img, n))
    {
      PartRest(img, img', ls, tlist, plist, {}, k, n);
    }
    assert !Busy(img', pcb) by { assert And(0, BUSY) == 0; }
    forall n: nat ensures n in ls'[1].nodes <==> n in ls[1].nodes || n == pcb { InWith(ls[1].nodes, i, pcb, n); }
    forall n: nat ensures InSub(ls', n) <==> InSub(ls, n) {
      if InSub(ls', n) { var k: nat :| 2 <= k < |ls'| && n in ls'[k].nodes; assert k < |ls| && n in ls[k].nodes; }
      if InSub(ls, n) { var k: nat :| 2 <= k < |ls| && n in ls[k].nodes; assert n in ls'[k].nodes; }
    }
  }

  // ---------------------------------------------------------------
  // Where ownership ends
  // ---------------------------------------------------------------

  /** SET /NOPAR of a partition that a fixed task is in: busy, without sub-partitions and waiting tasks. */
  ghost predicate Evicts(m: Moment, c: Command)
    requires |m.ls| >= 2
  {
    c.NoPartition? &&
    var i := Named(m.img, m.ls[1].nodes, c.name, |m.ls[1].nodes|);
    i < |m.ls[1].nodes| && Word(m.img, m.ls[1].nodes[i], P_SUB) == 0 && Word(m.img, m.ls[1].nodes[i], P_WAIT) == 0 && Busy(m.img, m.ls[1].nodes[i])
  }

  /** SET /NOPAR keeps the order of things if and only if the partition is not busy. */
  lemma NoParPages(at: PoolAt, m: Moment, name: seq<byte>, m': Moment, tlist: nat, plist: nat, z280: bool)
    requires Holds(m.img, at, m.s, m.ls, tlist, plist) && |m'.ls| >= 2 && NoParEffect(at, m, name, m') && PagesOwned(m.img, m.ls, z280)
    ensures PagesOwned(m'.img, m'.ls, z280) <==> !Evicts(m, NoPartition(name))
  {
    var nodes := m.ls[1].nodes;
    var i := Named(m.img, nodes, name, |nodes|);
    if i < |nodes| && Word(m.img, nodes[i], P_SUB) == 0 && Word(m.img, nodes[i], P_WAIT) == 0 {
      var x: nat :| ParGone(m.img, m'.img, m.ls, name, x, m'.ls);
      GonePages(m.img, m'.img, at, m.s, m.ls, tlist, plist, i, x, z280);
    }
  }

  lemma GonePages(img: seq<byte>, img': seq<byte>, at: PoolAt, s: PoolState, ls: seq<BlockList>, tlist: nat, plist: nat, i: nat, x: nat, z280: bool)
    requires Holds(img, at, s, ls, tlist, plist) && i < |ls[1].nodes| && 2 <= x < |ls| && ls[x] == BlockList(Subs(ls[1].nodes[i]), [])
    requires RestStays(img, img', ls, {ls[1].nodes[i]}) && PagesOwned(img, ls, z280)
    ensures PagesOwned(img', WithoutPart(ls, i, x), z280) <==> !Busy(img, ls[1].nodes[i])
  {
    var n, ls' := ls[1].nodes[i], WithoutPart(ls, i, x);
    assert n !in ls[0].nodes by { assert ApartLists(ls[1], ls[0]); }
    assert !InSub(ls, n) by { SubNoMain(img, at, s, ls, tlist, plist, n); }
    forall t: nat | t in ls[0].nodes ensures SameTask(img, img', t)
    {
      TaskRest(img, img', ls, tlist, plist, {n}, t);
    }
    TakenWithout(img, img', at, s, ls, tlist, plist, i, x);
    if Busy(img, n) {
      assert Taken(img, ls, n);
      var t: nat :| IsFixed(img, ls, t) && PartOf(img, t) == n;
      assert IsFixed(img', ls', t) && !Taken(img', ls', n);
    } else {
      assert SameOwners(img, ls, img', ls');
      OwnersStay(img, ls, img', ls', z280);
    }
  }

  /** Exactly the partition that was removed is not in use any more. */
  lemma TakenWithout(img: seq<byte>, img': seq<byte>, at: PoolAt, s: PoolState, ls: seq<BlockList>, tlist: nat, plist: nat, i: nat, x: nat)
    requires Holds(img, at, s, ls, tlist, plist) && i < |ls[1].nodes| && 2 <= x < |ls| && ls[x] == BlockList(Subs(ls[1].nodes[i]), [])
    requires RestStays(img, img', ls, {ls[1].nodes[i]})
    ensures var n, ls' := ls[1].nodes[i], WithoutPart(ls, i, x);
      && (forall m: nat :: Taken(img', ls', m) <==> Taken(img, ls, m) && m != n)
      && (forall m: nat :: Taken(img, ls, m) && m != n ==> Field(img', m, P_SIZE) == Field(img, m, P_SIZE))
      && (Modes(img, ls) ==> Modes(img', ls'))
  {
    var n, ls' := ls[1].nodes[i], WithoutPart(ls, i, x);
    forall k: nat, m: nat | 1 <= k < |ls| && m in ls[k].nodes && m != n
      ensures Field(img', m, P_SIZE) == Field(img, m, P_SIZE) && (Busy(img', m) <==> Busy(img, m)) && (IsSystem(img', m) <==> IsSystem(img, m))
    {
      PartRest(img, img', ls, tlist, plist, {n}, k, m);
    }
    NotInWithout(img, at, s, ls, tlist, plist, 1, i);
    SubNoMain(img, at, s, ls, tlist, plist, n);
    forall k: nat | 2 <= k < |ls'| ensures ls'[k] == ls[if k < x then k else k + 1] && ls'[k].kind.owner != n && ls'[k].kind.owner in ls[1].nodes {
      OneOwner(img, at, s, ls, tlist, plist, if k < x then k else k + 1, x);
    }
    SubsWithout(ls, i, x);
  }

  lemma SubsWithout(ls: seq<BlockList>, i: nat, x: nat)
    requires 2 <= x < |ls| && i < |ls[1].nodes| && ls[x].nodes == []
    ensures forall m: nat :: InSub(WithoutPart(ls, i, x), m) <==> InSub(ls, m)
  {
    var ls' := WithoutPart(ls, i, x);
    forall m: nat ensures InSub(ls', m) <==> InSub(ls, m) {
      if InSub(ls', m) { var k: nat :| 2 <= k < |ls'| && m in ls'[k].nodes; assert m in ls[if k < x then k else k + 1].nodes; }
      if InSub(ls, m) { var k: nat :| 2 <= k < |ls| && m in ls[k].nodes; assert m in ls'[if k < x then k else k - 1].nodes; }
    }
  }

  /** INS of a program whose header says that it is fixed already. */
  ghost predicate Feigns(c: Command)
  {
    c.InsTask? && And(c.h.attr, TaskLists.FIXED) != 0
  }

  /** INS keeps the order of things if and only if the header does not say that the task is fixed, or there is
      no new task. */
  lemma InsPages(at: PoolAt, m: Moment, h: Header, o: Options, tcb: nat, m': Moment, tlist: nat, plist: nat, z280: bool)
    requires Holds(m.img, at, m.s, m.ls, tlist, plist) && |m'.ls| >= 2 && InsEffect(at, z280, m, h, o, tcb, m') && PagesOwned(m.img, m.ls, z280)
    ensures PagesOwned(m'.img, m'.ls, z280) <==> !Feigns(InsTask(h, o)) || m'.ls == m.ls
  {
    if tcb > 0 {
      TakenStays(m.img, m.ls, m'.img, m'.ls, tlist, plist, {});
      forall t: nat | t in m.ls[0].nodes ensures SameTask(m.img, m'.img, t)
      {
        TaskRest(m.img, m'.img, m.ls, tlist, plist, {}, t);
      }
      if TooBig(h, o, z280) {
        assert SameOwners(m.img, m.ls, m'.img, m'.ls);
        OwnersStay(m.img, m.ls, m'.img, m'.ls, z280);
      } else {
        NewTaskPages(m, h, o, tcb, m', z280);
        if Feigns(InsTask(h, o)) { FeignedPages(at, m, h, o, tcb, m', tlist, plist, z280); }
      }
    }
  }

  lemma NewTaskPages(m: Moment, h: Header, o: Options, tcb: nat, m': Moment, z280: bool)
    requires |m.ls| >= 2 && |m'.ls| >= 2 && Installed(m.img, m'.img, m.ls, h, o, tcb, m'.ls) && PagesOwned(m.img, m.ls, z280)
    requires forall t: nat :: t in m.ls[0].nodes ==> SameTask(m.img, m'.img, t)
    requires forall n: nat :: Taken(m'.img, m'.ls, n) <==> Taken(m.img, m.ls, n)
    requires forall n: nat :: Taken(m.img, m.ls, n) ==> Field(m'.img, n, P_SIZE) == Field(m.img, n, P_SIZE)
    requires Modes(m'.img, m'.ls)
    ensures forall t: nat :: t in m'.ls[0].nodes <==> t == tcb || t in m.ls[0].nodes
    ensures Fixed(m'.img, tcb) <==> Feigns(InsTask(h, o))
    ensures !Feigns(InsTask(h, o)) ==> PagesOwned(m'.img, m'.ls, z280)
  {
    var i := TaskLists.InsertPoint(TaskLists.Priorities(m.img, m.ls[0].nodes), h.pri, |m.ls[0].nodes|);
    forall t: nat ensures t in m'.ls[0].nodes <==> t == tcb || t in m.ls[0].nodes { InWith(m.ls[0].nodes, i, tcb, t); }
    if !Feigns(InsTask(h, o)) {
      assert SameOwners(m.img, m.ls, m'.img, m'.ls);
      OwnersStay(m.img, m.ls, m'.img, m'.ls, z280);
    }
  }

  /** The new task names a main partition, where it has no pages. */
  lemma FeignedPages(at: PoolAt, m: Moment, h: Header, o: Options, tcb: nat, m': Moment, tlist: nat, plist: nat, z280: bool)
    requires Holds(m.img, at, m.s, m.ls, tlist, plist) && |m'.ls| >= 2 && Installed(m.img, m'.img, m.ls, h, o, tcb, m'.ls) && PagesOwned(m.img, m.ls, z280)
    requires forall t: nat :: t in m.ls[0].nodes ==> t in m'.ls[0].nodes && SameTask(m.img, m'.img, t)
    requires forall n: nat :: Taken(m'.img, m'.ls, n) <==> Taken(m.img, m.ls, n)
    requires tcb in m'.ls[0].nodes && Fixed(m'.img, tcb)
    ensures !PagesOwned(m'.img, m'.ls, z280)
  {
    var n := PartOf(m'.img, tcb);
    SubNoMain(m.img, at, m.s, m.ls, tlist, plist, n);
    assert IsFixed(m'.img, m'.ls, tcb);
    if Taken(m'.img, m'.ls, n) {
      assert Taken(m.img, m.ls, n);
      var u: nat :| IsFixed(m.img, m.ls, u) && PartOf(m.img, u) == n;
      assert IsFixed(m'.img, m'.ls, u) && u != tcb;
    }
  }

  // ---------------------------------------------------------------
  // FIX
  // ---------------------------------------------------------------

  /** Block n is in use now, and was not before. */
  ghost predicate NowTaken(img: seq<byte>, ls: seq<BlockList>, img': seq<byte>, ls': seq<BlockList>, n: nat)
    requires |ls| >= 2 && |ls'| >= 2
  {
    && !Taken(img, ls, n) && (forall m: nat :: Taken(img', ls', m) <==> Taken(img, ls, m) || m == n)
    && (forall m: nat :: Taken(img, ls, m) ==> Field(img', m, P_SIZE) == Field(img, m, P_SIZE)) && (Modes(img, ls) ==> Modes(img', ls'))
  }

  /** Task t is fixed now, in block n, and was not before. */
  ghost predicate NowIn(img: seq<byte>, ls: seq<BlockList>, img': seq<byte>, ls': seq<BlockList>, t: nat, n: nat)
    requires |ls| >= 2 && |ls'| >= 2
  {
    && ls'[0] == ls[0] && t in ls[0].nodes && !Fixed(img, t) && Fixed(img', t) && PartOf(img', t) == n
    && forall u: nat :: u in ls[0].nodes && u != t ==> SameTask(img, img', u)
  }

  /** One more task and one more block belong together. */
  lemma OneMore(img: seq<byte>, ls: seq<BlockList>, img': seq<byte>, ls': seq<BlockList>, t: nat, n: nat, z280: bool)
    requires |ls| >= 2 && |ls'| >= 2 && NowTaken(img, ls, img', ls', n) && NowIn(img, ls, img', ls', t, n) && PagesOwned(img, ls, z280) && Fits(img', t, z280)
    ensures PagesOwned(img', ls', z280)
  {
    forall m: nat | Taken(img', ls', m) ensures exists u: nat :: IsFixed(img', ls', u) && PartOf(img', u) == m {
      if m == n {
        assert IsFixed(img', ls', t);
      } else {
        var u: nat :| IsFixed(img, ls, u) && PartOf(img, u) == m;
        assert IsFixed(img', ls', u);
      }
    }
    forall u: nat | IsFixed(img', ls', u) ensures Taken(img', ls', PartOf(img', u)) && Fits(img', u, z280) && (u != t ==> PartOf(img', u) == PartOf(img, u) != n) {
      if u != t { assert IsFixed(img, ls, u); }
    }
    forall u: nat, w: nat | IsFixed(img', ls', u) && IsFixed(img', ls', w) && PartOf(img', u) == PartOf(img', w) ensures u == w {
      if u != t && w != t { assert IsFixed(img, ls, u) && IsFixed(img, ls, w); }
    }
  }

  /** A gap of that size. */
  lemma {:induction false} GapSize(main: Part, subs: seq<Part>, i: nat, base: nat, size: nat)
    requires i <= |subs|
    ensures var r := PartitionPlan.Gap(main, subs, i, base, size); r.At? ==> r.part.size == size && i <= r.index
    decreases |subs| - i
  {
    if i < |subs| { GapSize(main, subs, i + 1, subs[i].End() % 256, size); }
  }

  /** FIX: the task and its pages belong together. */
  lemma FixPages(at: PoolAt, m: Moment, name: seq<byte>, k: nat, done: bool, pcb: nat, ctx: nat, m': Moment, tlist: nat, plist: nat, z280: bool)
    requires Holds(m.img, at, m.s, m.ls, tlist, plist) && Holds(m'.img, at, m'.s, m'.ls, tlist, plist)
    requires FixEffect(z280, m, name, k, done, pcb, ctx, m') && PagesOwned(m.img, m.ls, z280)
    ensures PagesOwned(m'.img, m'.ls, z280)
  {
    if done {
      var t := TaskNamed(m.img, m.ls, name);
      assert t in m.ls[0].nodes && ListedOnce(m.ls, t) by { TaskOnce(m.img, at, m.s, m.ls, tlist, plist, t); }
      PagesClaimed(at, m, name, k, pcb, m', tlist, plist, z280);
      TakenNoTask(m'.img, at, m'.s, m'.ls, tlist, plist, pcb);
      FixedIn(m.img, m'.img, m.ls, m'.ls, tlist, plist, t, pcb, z280);
      OneMore(m.img, m.ls, m'.img, m'.ls, t, pcb, z280);
    }
  }

  /** The block is no partition. */
  ghost predicate ListedOnce(ls: seq<BlockList>, t: nat)
  {
    forall k: nat :: 1 <= k < |ls| ==> t !in ls[k].nodes
  }

  lemma TaskOnce(img: seq<byte>, at: PoolAt, s: PoolState, ls: seq<BlockList>, tlist: nat, plist: nat, t: nat)
    requires Holds(img, at, s, ls, tlist, plist) && t in ls[0].nodes
    ensures ListedOnce(ls, t)
  {
    var j: nat :| j < |ls[0].nodes| && ls[0].nodes[j] == t;
    TaskNoPart(img, at, s, ls, tlist, plist, j);
  }

  lemma TakenNoTask(img: seq<byte>, at: PoolAt, s: PoolState, ls: seq<BlockList>, tlist: nat, plist: nat, n: nat)
    requires Holds(img, at, s, ls, tlist, plist) && Taken(img, ls, n)
    ensures n !in ls[0].nodes
  {
    forall k: nat | 1 <= k < |ls| && n in ls[k].nodes ensures n !in ls[0].nodes { assert ApartLists(ls[k], ls[0]); }
  }

  lemma FixedIn(img: seq<byte>, img': seq<byte>, ls: seq<BlockList>, ls': seq<BlockList>, tlist: nat, plist: nat, t: nat, pcb: nat, z280: bool)
    requires Shape(ls, tlist, plist) && |ls'| >= 2 && ls'[0] == ls[0] && t in ls[0].nodes && pcb !in ls[0].nodes && PartOf(img', t) == pcb
    requires !Fixed(img, t) && Fixed(img', t) && RestStays(img, img', ls, {t, pcb}) && 0 < SizeOf(img, t, z280) <= Field(img', pcb, P_SIZE)
    requires TaskOnly(img, img', ls[0], t, {TaskLists.T_PCB, TaskLists.T_PCB + 1} + {TaskLists.T_CTX, TaskLists.T_CTX + 1} + {TaskLists.T_ATTR})
    ensures NowIn(img, ls, img', ls', t, pcb) && Fits(img', t, z280)
  {
    forall u: nat | u in ls[0].nodes && u != t ensures SameTask(img, img', u) {
      TaskRest(img, img', ls, tlist, plist, {t, pcb}, u);
    }
  }

  /** The pages for it. */
  lemma PagesClaimed(at: PoolAt, m: Moment, name: seq<byte>, k: nat, pcb: nat, m': Moment, tlist: nat, plist: nat, z280: bool)
    requires Holds(m.img, at, m.s, m.ls, tlist, plist) && Holds(m'.img, at, m'.s, m'.ls, tlist, plist)
    requires NowFixed(m.img, m'.img, m.ls, name, z280, k, pcb, m'.ls) && HasRoom(m.img, m.s.free, m.ls, name, z280, k) && ListedOnce(m.ls, TaskNamed(m.img, m.ls, name))
    ensures NowTaken(m.img, m.ls, m'.img, m'.ls, pcb) && Field(m'.img, pcb, P_SIZE) >= SizeOf(m.img, TaskNamed(m.img, m.ls, name), z280)
  {
    var t := TaskNamed(m.img, m.ls, name);
    var main := PartOf(m.img, t);
    assert main in m.ls[1].nodes && main == m.ls[k].kind.owner;
    if IsSystem(m.img, main) {
      NewSub(m.img, m'.img, at, m'.s, m.ls, m'.ls, tlist, plist, k, SizeOf(m.img, t, z280), pcb);
      SubTaken(m.img, m'.img, m.ls, tlist, plist, k, PlaceSub(SubAt(m.img, main), SubParts(m.img, m.ls[k].nodes), SizeOf(m.img, t, z280)).index, pcb, t);
    } else {
      SubNoMain(m.img, at, m.s, m.ls, tlist, plist, pcb);
      MainTaken(m.img, m'.img, m.ls, tlist, plist, pcb, t);
    }
  }

  /** A partition that is used as a whole. */
  lemma MainTaken(img: seq<byte>, img': seq<byte>, ls: seq<BlockList>, tlist: nat, plist: nat, n: nat, t: nat)
    requires Shape(ls, tlist, plist) && RestStays(img, img', ls, {t, n}) && ListedOnce(ls, t) && n in ls[1].nodes && !InSub(ls, n)
    requires !IsSystem(img, n) && !Busy(img, n) && Field(img', n, P_STAT) == BUSY && PartOnly(img, img', n, {P_STAT, P_TCB, P_TCB + 1})
    ensures NowTaken(img, ls, img', ls, n) && Field(img', n, P_SIZE) == Field(img, n, P_SIZE)
  {
    forall l: nat, m: nat | 1 <= l < |ls| && m in ls[l].nodes && m != n
      ensures Field(img', m, P_SIZE) == Field(img, m, P_SIZE) && (Busy(img', m) <==> Busy(img, m)) && (IsSystem(img', m) <==> IsSystem(img, m))
    {
      PartRest(img, img', ls, tlist, plist, {t, n}, l, m);
    }
    assert Field(img', n, P_SIZE) == Field(img, n, P_SIZE) && Field(img', n, P_ATTR) == Field(img, n, P_ATTR);
    assert Busy(img', n) by { assert And(BUSY, BUSY) != 0; }
  }

  /** The block of a new sub-partition was in no list, and its size is the one asked for. */
  lemma NewSub(img: seq<byte>, img': seq<byte>, at: PoolAt, s': PoolState, ls: seq<BlockList>, ls': seq<BlockList>, tlist: nat, plist: nat, k: nat, size: nat, pcb: nat)
    requires 2 <= k < |ls| && Holds(img', at, s', ls', tlist, plist) && SubNew(img, img', ls, k, size, pcb, ls')
    ensures ListedOnce(ls, pcb) && Field(img', pcb, P_SIZE) == size
  {
    var main, subs := SubAt(img, ls[k].kind.owner), SubParts(img, ls[k].nodes);
    var r := PlaceSub(main, subs, size);
    GapSize(main, subs, 0, main.base, size);
    assert ls'[k].nodes[r.index] == pcb && SubParts(img', ls'[k].nodes)[r.index] == SubAt(img', pcb);
    forall l: nat | 1 <= l < |ls| ensures pcb !in ls[l].nodes {
      if l != k { assert ApartLists(ls'[k], ls'[l]) && ls'[l] == ls[l]; }
    }
  }

  lemma SubTaken(img: seq<byte>, img': seq<byte>, ls: seq<BlockList>, tlist: nat, plist: nat, k: nat, i: nat, n: nat, t: nat)
    requires Shape(ls, tlist, plist) && RestStays(img, img', ls, {t, n}) && ListedOnce(ls, t) && ListedOnce(ls, n)
    requires 2 <= k < |ls| && i <= |ls[k].nodes| && IsSystem(img, ls[k].kind.owner)
    ensures NowTaken(img, ls, img', ls[k := BlockList(ls[k].kind, WithNode(ls[k].nodes, i, n))], n)
  {
    forall l: nat, m: nat | 1 <= l < |ls| && m in ls[l].nodes
      ensures Field(img', m, P_SIZE) == Field(img, m, P_SIZE) && (Busy(img', m) <==> Busy(img, m)) && (IsSystem(img', m) <==> IsSystem(img, m))
    {
      PartRest(img, img', ls, tlist, plist, {t, n}, l, m);
    }
    OneSubMore(ls, k, i, n);
    var ls' := ls[k := BlockList(ls[k].kind, WithNode(ls[k].nodes, i, n))];
    assert ls'[1] == ls[1] && forall l: nat :: 2 <= l < |ls| && l != k ==> ls'[l] == ls[l];
    assert forall m: nat :: Taken(img', ls', m) <==> Taken(img, ls, m) || m == n;
  }

  lemma OneSubMore(ls: seq<BlockList>, k: nat, i: nat, n: nat)
    requires 2 <= k < |ls| && i <= |ls[k].nodes|
    ensures forall m: nat :: InSub(ls[k := BlockList(ls[k].kind, WithNode(ls[k].nodes, i, n))], m) <==> InSub(ls, m) || m == n
  {
    var ls' := ls[k := BlockList(ls[k].kind, WithNode(ls[k].nodes, i, n))];
    forall m: nat ensures m in ls'[k].nodes <==> m in ls[k].nodes || m == n { InWith(ls[k].nodes, i, n, m); }
    forall m: nat ensures InSub(ls', m) <==> InSub(ls, m) || m == n {
      if InSub(ls', m) { var l: nat :| 2 <= l < |ls'| && m in ls'[l].nodes; assert l != k ==> m in ls[l].nodes; }
      if InSub(ls, m) { var l: nat :| 2 <= l < |ls| && m in ls[l].nodes; assert m in ls'[l].nodes; }
      assert n in ls'[k].nodes;
    }
  }

  // ---------------------------------------------------------------
  // One command, and runs
  // ---------------------------------------------------------------

  /** The command makes a task that was never given pages, and claims to have them. */
  ghost predicate Pretends(m: Moment, c: Command, m': Moment)
  {
    Feigns(c) && m'.ls != m.ls
  }

  /** Exactly two commands end it: the removal of a busy partition, and the installation of a task that claims
      to be fixed. */
  lemma CommandPages(at: PoolAt, z280: bool, m: Moment, c: Command, m': Moment, tlist: nat, plist: nat)
    requires Holds(m.img, at, m.s, m.ls, tlist, plist) && Holds(m'.img, at, m'.s, m'.ls, tlist, plist)
    requires Effect(at, z280, m, c, m') && PagesOwned(m.img, m.ls, z280)
    ensures PagesOwned(m'.img, m'.ls, z280) <==> !Evicts(m, c) && !Pretends(m, c, m')
  {
    match c
    case InsTask(h, o) =>
      var tcb: nat :| InsEffect(at, z280, m, h, o, tcb, m');
      InsPages(at, m, h, o, tcb, m', tlist, plist, z280);
    case RemTask(name) =>
      RemPages(at, m, name, m', tlist, plist);
      OwnersStay(m.img, m.ls, m'.img, m'.ls, z280);
    case SetPartition(name, base, size, wb, ws, attr) =>
      var pcb: nat :| ParEffect(at, m, name, base, size, wb, ws, attr, pcb, m');
      ParPages(at, m, c, pcb, m', tlist, plist);
      OwnersStay(m.img, m.ls, m'.img, m'.ls, z280);
    case NoPartition(name) => NoParPages(at, m, name, m', tlist, plist, z280);
    case FixedTask(name) =>
      var k: nat, done: bool, pcb: nat, ctx: nat :| FixEffect(z280, m, name, k, done, pcb, ctx, m');
      FixPages(at, m, name, k, done, pcb, ctx, m', tlist, plist, z280);
  }

  ghost predicate OrderlyAt(run: seq<Moment>, cs: seq<Command>, k: nat)
    requires k + 1 < |run| && k < |cs|
  {
    |run[k].ls| >= 2 && !Evicts(run[k], cs[k]) && !Pretends(run[k], cs[k], run[k + 1])
  }

  /** None of the first k commands does. */
  ghost predicate Orderly(run: seq<Moment>, cs: seq<Command>, k: nat)
    requires k < |run| && k <= |cs|
  {
    forall j: nat :: j < k ==> OrderlyAt(run, cs, j)
  }

  ghost predicate OwnedAt(run: seq<Moment>, z280: bool, k: nat)
    requires k < |run|
  {
    |run[k].ls| >= 2 && PagesOwned(run[k].img, run[k].ls, z280)
  }

  /** In the first k + 1 moments of a run, fixed tasks and blocks in use belong together. */
  ghost predicate OwnedThrough(run: seq<Moment>, z280: bool, k: nat)
    requires k < |run|
  {
    forall j: nat :: j <= k ==> OwnedAt(run, z280, j)
  }

  /** ... if and only if none of the commands before ends it. */
  lemma {:induction false} OwnedIffOrderly(at: PoolAt, z280: bool, run: seq<Moment>, cs: seq<Command>, k: nat, tlist: nat, plist: nat)
    requires k < |run| && k <= |cs| && RunOk(at, run, cs, k + 1, tlist, plist) && Effects(at, z280, run, cs, k)
    requires OwnedAt(run, z280, 0)
    ensures OwnedThrough(run, z280, k) <==> Orderly(run, cs, k)
  {
    if k > 0 {
      OwnedIffOrderly(at, z280, run, cs, k - 1, tlist, plist);
      OneMomentMore(run, cs, z280, k - 1);
      if OwnedThrough(run, z280, k - 1) { OwnedNext(at, z280, run, cs, k - 1, tlist, plist); }
    }
  }

  lemma OneMomentMore(run: seq<Moment>, cs: seq<Command>, z280: bool, k: nat)
    requires k + 1 < |run| && k < |cs|
    ensures OwnedThrough(run, z280, k + 1) <==> OwnedThrough(run, z280, k) && OwnedAt(run, z280, k + 1)
    ensures Orderly(run, cs, k + 1) <==> Orderly(run, cs, k) && OrderlyAt(run, cs, k)
  {
  }

  lemma OwnedNext(at: PoolAt, z280: bool, run: seq<Moment>, cs: seq<Command>, k: nat, tlist: nat, plist: nat)
    requires k + 1 < |run| && k < |cs| && RunOk(at, run, cs, k + 2, tlist, plist) && EffectAt(at, z280, run, cs, k) && OwnedAt(run, z280, k)
    ensures OwnedAt(run, z280, k + 1) <==> OrderlyAt(run, cs, k)
  {
    assert MomentOk(at, run, cs, k, tlist, plist) && MomentOk(at, run, cs, k + 1, tlist, plist);
    CommandPages(at, z280, run[k], cs[k], run[k + 1], tlist, plist);
  }

  /** Runs from a pool that was just set up: in every moment every fixed task has pages of its own, as long as requests
      are sane, no busy partition is removed, and no program claims to be fixed before it is. */
  lemma NoSharedPages(at: PoolAt, z280: bool, run: seq<Moment>, cs: seq<Command>, k: nat, tlist: nat, plist: nat)
    requires k < |run| && k <= |cs| && RunOk(at, run, cs, k + 1, tlist, plist) && Effects(at, z280, run, cs, k)
    requires run[0].ls == [BlockList(TaskLists.Tasks(tlist), []), BlockList(Mains(plist), [])]
    requires AllCareful(run, cs, k) && Orderly(run, cs, k)
    ensures |run[k].ls| >= 2 && OwnPages(run[k].img, run[k].ls)
  {
    assert OwnedAt(run, z280, 0);
    OwnedIffOrderly(at, z280, run, cs, k, tlist, plist);
    assert MomentOk(at, run, cs, k, tlist, plist) && OwnedAt(run, z280, k);
    PagesApart(run[k].img, at, run[k].s, run[k].ls, tlist, plist, z280);
  }

  // ---------------------------------------------------------------
  // A busy partition is removed
  // ---------------------------------------------------------------

  /** The task PROG has the pages 16 to 31, the partition PAR, for itself; fixed or not yet. */
  ghost predicate ProgAlone(img: seq<byte>, ls: seq<BlockList>, pcb: nat, tcb: nat, fixed: bool)
  {
    && |ls| == 3 && ls[0].nodes == [tcb] && ls[1].nodes == [pcb] && ls[2] == BlockList(Subs(pcb), []) && tcb > 0 && NameOf(img, tcb) == PROG && PartOf(img, tcb) == pcb
    && NameOf(img, pcb) == PAR && !IsSystem(img, pcb) && Word(img, pcb, P_WAIT) == 0 && PartAt(img, pcb) == Part(16, 16)
    && (Busy(img, pcb) <==> fixed) && (Fixed(img, tcb) <==> fixed) && (!fixed ==> forall z280: bool :: SizeOf(img, tcb, z280) == 1)
  }

  lemma ProgSize(z280: bool)
    ensures TaskSize(8, 4096, z280) == 1 && And(0, SYSTEM) == 0 && And(0, BUSY) == 0 && And(0, TaskLists.FIXED) == 0 && And(BUSY, BUSY) != 0
  {
  }

  /** SET /PAR=PAR:16:16:TASK and INS PROG. */
  method WholePartition(p: SystemImage, tlist: nat, plist: nat, z280: bool) returns (pcb: nat, tcb: nat, ghost live: seq<Area>, ghost ls: seq<BlockList>)
    requires Empty(p, tlist, plist)
    modifies p.image, p`list
    ensures SystemOk(p, tlist, plist, live, ls) && ProgAlone(p.image[..], ls, pcb, tcb, false)
  {
    pcb, live, ls := FirstPartition(p, tlist, plist, 0);
    ghost var img1, ls1 := p.image[..], ls;
    tcb, live, ls := InstallIn(p, tlist, plist, z280, PROG, Options([], [], 0, 0), pcb, live, ls, 180);
    ProgEntered(img1, p.image[..], ls1, tlist, plist, pcb, tcb, ls);
  }

  lemma ProgEntered(img: seq<byte>, img': seq<byte>, ls: seq<BlockList>, tlist: nat, plist: nat, pcb: nat, tcb: nat, ls': seq<BlockList>)
    requires Shape(ls, tlist, plist) && |ls| == 3 && ls[0].nodes == [] && ls[1].nodes == [pcb] && ls[2] == BlockList(Subs(pcb), []) && tcb > 0
    requires FreshPart(img, pcb, PAR, 0) && PartAt(img, pcb) == Part(16, 16) && RestStays(img, img', ls, {})
    requires Installed(img, img', ls, Program(PROG), Options([], [], 0, 0), tcb, ls') && PartOf(img', tcb) == pcb
    ensures ProgAlone(img', ls', pcb, tcb, false)
  {
    WholeRest(img, img', ls, tlist, plist, {}, pcb);
    ProgSize(true);
    ProgSize(false);
  }

  lemma WholeRest(img: seq<byte>, img': seq<byte>, ls: seq<BlockList>, tlist: nat, plist: nat, but: set<nat>, n: nat)
    requires Shape(ls, tlist, plist) && RestStays(img, img', ls, but) && ls[1].nodes == [n] && n !in but
    ensures NameOf(img', n) == NameOf(img, n) && PartAt(img', n) == PartAt(img, n) && Word(img', n, P_WAIT) == Word(img, n, P_WAIT)
    ensures (Busy(img', n) <==> Busy(img, n)) && (IsSystem(img', n) <==> IsSystem(img, n))
  {
    assert ls[1].nodes[0] == n;
    forall o: nat | P_SIZE <= o < PCBSZ ensures Field(img', n, o) == Field(img, n, o) {
      assert Field(img', ls[1].nodes[0], o) == Field(img, ls[1].nodes[0], o);
    }
    assert NameOf(img', n) == NameOf(img, n);
  }

  /** FIX PROG. */
  lemma ProgFixed(img: seq<byte>, list: seq<Area>, img': seq<byte>, ls: seq<BlockList>, z280: bool, k: nat, done: bool, n: nat, ctx: nat, pcb: nat, tcb: nat, ls': seq<BlockList>)
    requires ProgAlone(img, ls, pcb, tcb, false) && FixOutcome(img, list, img', ls, PROG, z280, k, done, n, ctx, ls')
    ensures done && ProgAlone(img', ls', pcb, tcb, true)
  {
    NamedFirst(img, tcb, PROG);
    assert ls[0].nodes[0] == tcb && TaskNamed(img, ls, PROG) == tcb;
    assert HasRoom(img, list, ls, PROG, z280, k) by { PageFree(img, list, pcb, ls[k].nodes); }
    FixedNow(img, img', ls, z280, k, n, pcb, tcb, ls');
  }

  lemma PageFree(img: seq<byte>, list: seq<Area>, pcb: nat, subs: seq<nat>)
    requires !IsSystem(img, pcb) && !Busy(img, pcb) && PartAt(img, pcb) == Part(16, 16)
    ensures !NoRoomFor(img, list, pcb, subs, 1)
  {
  }

  lemma FixedNow(img: seq<byte>, img': seq<byte>, ls: seq<BlockList>, z280: bool, k: nat, n: nat, pcb: nat, tcb: nat, ls': seq<BlockList>)
    requires ProgAlone(img, ls, pcb, tcb, false) && NowFixed(img, img', ls, PROG, z280, k, n, ls') && TaskNamed(img, ls, PROG) == tcb
    ensures ProgAlone(img', ls', pcb, tcb, true)
  {
    var offs := {TaskLists.T_PCB, TaskLists.T_PCB + 1} + {TaskLists.T_CTX, TaskLists.T_CTX + 1} + {TaskLists.T_ATTR};
    assert ls' == ls && n == pcb && TaskOnly(img, img', ls[0], tcb, offs) && PartOnly(img, img', pcb, {P_STAT, P_TCB, P_TCB + 1});
    SameName(img, img', ls[0], tcb, offs);
    SamePart(img, img', pcb);
    ProgSize(z280);
  }

  lemma SameName(img: seq<byte>, img': seq<byte>, l: BlockList, t: nat, offs: set<nat>)
    requires TaskOnly(img, img', l, t, offs) && forall o: nat :: o in offs ==> !(NAME <= o < NAME + 6)
    ensures NameOf(img', t) == NameOf(img, t)
  {
  }

  lemma SamePart(img: seq<byte>, img': seq<byte>, n: nat)
    requires PartOnly(img, img', n, {P_STAT, P_TCB, P_TCB + 1})
    ensures NameOf(img', n) == NameOf(img, n) && PartAt(img', n) == PartAt(img, n) && Word(img', n, P_WAIT) == Word(img, n, P_WAIT)
    ensures IsSystem(img', n) <==> IsSystem(img, n)
  {
    assert forall o: nat :: P_SIZE <= o < P_STAT || P_STAT < o < P_TCB ==> Field(img', n, o) == Field(img, n, o);
  }

  /** SET /PAR, INS and FIX. */
  method FixedAlone(p: SystemImage, tlist: nat, plist: nat, z280: bool) returns (pcb: nat, tcb: nat, ghost live: seq<Area>, ghost ls: seq<BlockList>)
    requires Empty(p, tlist, plist) && Low(PoolOf(p), tlist, plist, ContextSize(z280))
    modifies p.image, p`list
    ensures SystemOk(p, tlist, plist, live, ls) && ProgAlone(p.image[..], ls, pcb, tcb, true) && Word(p.image[..], pcb, P_SUB) == 0 && tcb != pcb
  {
    pcb, tcb, live, ls := WholePartition(p, tlist, plist, z280);
    ghost var ls1, img1, list1 := ls, p.image[..], p.list;
    assert Follows(img1, ls1, PROG, z280) by { NamedFirst(img1, tcb, PROG); }
    var done, n, ctx;
    ghost var k;
    done, n, ctx, live, ls, k := FixTask(p, tlist, plist, PROG, z280, live, ls);
    ProgFixed(img1, list1, p.image[..], ls1, z280, k, done, n, ctx, pcb, tcb, ls);
    StillNoSubs(p, tlist, plist, live, ls, pcb);
    TaskOnce(p.image[..], PoolOf(p), PoolState(p.list, live), ls, tlist, plist, tcb);
  }

  /** SET /PAR, INS, FIX, SET /NOPAR, SET /PAR: PROG has been loaded into the pages 16 to 31, and stays fixed; its
      partition can be removed all the same, and the pages become another partition that is not busy. */
  method BusyRemoved(p: SystemImage, tlist: nat, plist: nat, z280: bool) returns (done: bool, tcb: nat, pcb: nat, ghost fixed: Moment, ghost live: seq<Area>, ghost ls: seq<BlockList>)
    requires Empty(p, tlist, plist) && Low(PoolOf(p), tlist, plist, ContextSize(z280))
    modifies p.image, p`list
    ensures |fixed.ls| >= 2 && IsFixed(fixed.img, fixed.ls, tcb) && PagesOf(fixed.img, fixed.ls, PartOf(fixed.img, tcb)) == Part(16, 16)
    ensures SystemOk(p, tlist, plist, live, ls) && done && IsFixed(p.image[..], ls, tcb)
    ensures ls[1].nodes == [pcb] && PartAt(p.image[..], pcb) == Part(16, 16) && !Busy(p.image[..], pcb)
  {
    pcb, tcb, live, ls := FixedAlone(p, tlist, plist, z280);
    fixed := Now(p, live, ls);
    NamedFirst(p.image[..], pcb, PAR);
    ghost var x;
    done, live, ls, x := NoPar(p, plist, PAR, tlist, live, ls);
    ghost var img3, ls3, list3 := p.image[..], ls, p.list;
    NothingLeft(fixed, img3, tlist, plist, tcb, pcb, x, ls3);
    FreedArea(fixed.s, Area(pcb, Round(PCBSZ)), PoolState(list3, live), PoolOf(p));
    pcb, live, ls := SetPar(p, plist, PAR, 16, 16, false, false, 0, tlist, live, ls);
    OnlyPartition(img3, list3, p.image[..], ls3, 0, pcb, ls);
    TaskRest(img3, p.image[..], ls3, tlist, plist, {}, tcb);
    ProgSize(z280);
  }

  lemma StillNoSubs(p: SystemImage, tlist: nat, plist: nat, live: seq<Area>, ls: seq<BlockList>, pcb: nat)
    requires SystemOk(p, tlist, plist, live, ls) && |ls| == 3 && ls[1].nodes == [pcb] && ls[2] == BlockList(Subs(pcb), [])
    ensures Word(p.image[..], pcb, P_SUB) == 0
  {
    assert ListIn(p.image[..], p.head, p.lo, p.hi, PoolState(p.list, live), ls[2]);
    CellFacts(p.image[..], ls[2].kind, [], 0);
    PartWord(p.image[..], pcb);
  }

  lemma NothingLeft(m: Moment, img': seq<byte>, tlist: nat, plist: nat, tcb: nat, pcb: nat, x: nat, ls': seq<BlockList>)
    requires Shape(m.ls, tlist, plist) && ProgAlone(m.img, m.ls, pcb, tcb, true) && tcb != pcb && ParGone(m.img, img', m.ls, PAR, x, ls')
    ensures |ls'| == 2 && ls'[0] == m.ls[0] && ls'[1].nodes == [] && Fixed(img', tcb) && PlanOk(img', ls')
  {
    NamedFirst(m.img, pcb, PAR);
    assert ls'[1].nodes == WithoutNode([pcb], 0) == [];
    TaskRest(m.img, img', m.ls, tlist, plist, {pcb}, tcb);
  }

  /** A block that has been freed leaves room for another one. */
  lemma FreedArea(s: PoolState, b: Area, t: PoolState, at: PoolAt)
    requires Freed(s, b, t, at) && b.size > 0
    ensures HasArea(t.free, b.size)
  {
    WholeArea(t.free, at.lo, at.hi, b.addr, b.size);
  }
}
