/** Commands of vmr.c on the whole system image: INS, REM, SET /PAR= and SET /NOPAR=.  Each one leaves all
    lists and the pool in order; what it means for the partitions' places in memory, and for the tasks
    that name them, is said exactly. */
module SystemOperations {
  import opened Bytes
  import opened PoolList
  import opened Pool
  import opened PoolRuns
  import opened Chains
  import opened SystemLists
  import opened NamedBlocks
  import opened PartitionPlan
  import opened PartitionLists
  import opened SystemState
  import opened SystemPlan
  import opened SystemReferences
  import TaskLists

  ghost function PoolOf(p: SystemImage): PoolAt
    reads p
  {
    PoolAt(p.head, p.lo, p.hi)
  }

  ghost predicate SystemOk(p: SystemImage, tlist: nat, plist: nat, live: seq<Area>, ls: seq<BlockList>)
    reads p, p.image
  {
    p.Valid() && Holds(p.image[..], PoolOf(p), PoolState(p.list, live), ls, tlist, plist) && MainsOk(p.image[..], ls[1].nodes)
  }

  lemma ToListOk(p: SystemImage, tlist: nat, plist: nat, live: seq<Area>, ls: seq<BlockList>, j: nat)
    requires SystemOk(p, tlist, plist, live, ls) && j < |ls|
    ensures ListOk(p, live, ls[j].kind, ls[j].nodes)
  {
    assert ListIn(p.image[..], p.head, p.lo, p.hi, PoolState(p.list, live), ls[j]);
  }

  lemma FromListOk(p: SystemImage, live: seq<Area>, c: Kind, nodes: seq<nat>)
    requires ListOk(p, live, c, nodes)
    ensures p.Valid() && ListIn(p.image[..], p.head, p.lo, p.hi, PoolState(p.list, live), BlockList(c, nodes))
  {
  }

  lemma CellHead(img: seq<byte>, c: Kind)
    requires |img| == IMAGE_SIZE && c.Ok() && c.owner == 0 && Get16(img, c.head) == 0
    ensures forall head: nat, lo: nat, hi: nat, s: PoolState :: HeadApart(c, head, lo, hi) ==> ListIn(img, head, lo, hi, s, BlockList(c, []))
  {
    EmptyChain(img, c);
  }

  /** The image behind pool_init: an empty pool, and no tasks or partitions. */
  lemma FirstState(p: SystemImage, tlist: nat, plist: nat)
    requires p.Valid() && p.list == [Area(p.lo, p.hi - p.lo)] && p.lo < p.hi
    requires tlist + 2 <= 0x1_0000 && plist + 2 <= 0x1_0000 && Apart(tlist, plist) && Get16(p.image[..], tlist) == 0 == Get16(p.image[..], plist)
    requires (tlist + 2 <= p.lo || p.hi <= tlist) && Apart(tlist, p.head)
    requires (plist + 2 <= p.lo || p.hi <= plist) && Apart(plist, p.head)
    ensures var ls := [BlockList(TaskLists.Tasks(tlist), []), BlockList(Mains(plist), [])];
      SystemOk(p, tlist, plist, [], ls) && PlanOk(p.image[..], ls)
  {
    var ls := [BlockList(TaskLists.Tasks(tlist), []), BlockList(Mains(plist), [])];
    PlacedHead(p.image[..], p.head, p.lo, p.hi, p.list);
    FreshPartition(p.lo, p.hi);
    CellHead(p.image[..], TaskLists.Tasks(tlist));
    CellHead(p.image[..], Mains(plist));
    assert ApartLists(ls[0], ls[1]) && ApartLists(ls[1], ls[0]);
  }

  // ---------------------------------------------------------------
  // Tasks
  // ---------------------------------------------------------------

  /** What install_task takes from the header of a task file, and the size of the file in blocks; attr
      has the bits already set and cleared that options ask for. */
  datatype Header = Header(name: seq<byte>, par: seq<byte>, pri: byte, attr: byte, end: nat, inc: nat, blocks: nat)
  {
    predicate Ok() { |name| == |par| == 6 && end < 0x1_0000 && inc < 0x1_0000 && blocks < 0x1_0000 }
  }

  /** TASK=, PAR=, PRI=, INC=: empty or 0 where an option is not given. */
  datatype Options = Options(task: seq<byte>, par: seq<byte>, pri: byte, inc: nat)
  {
    predicate Ok() { (task == [] || |task| == 6) && (par == [] || |par| == 6) }
  }

  function ParName(h: Header, o: Options): seq<byte>
  {
    if o.par == [] then h.par else o.par
  }

  /** What the block of the task will say. */
  function EntryOf(h: Header, o: Options, pcb: nat): TaskLists.Entry
  {
    TaskLists.Entry(h.attr, if o.pri == 0 then h.pri else o.pri, if o.task == [] then h.name else o.task, pcb, h.blocks,
                    h.end + if o.inc == 0 then h.inc else o.inc)
  }

  /** A task of the header's name is installed, or there is no such partition. */
  ghost predicate NotFound(img: seq<byte>, ls: seq<BlockList>, h: Header, o: Options)
    requires |ls| >= 2
  {
    || Named(img, ls[0].nodes, h.name, |ls[0].nodes|) < |ls[0].nodes|
    || forall i: nat :: i < |ls[1].nodes| ==> !IsAskedPar(img, ls[1].nodes[i], h, o)
  }

  /** ... or there is no room in the pool. */
  ghost predicate NotInstalled(img: seq<byte>, list: seq<Area>, ls: seq<BlockList>, h: Header, o: Options)
    requires |ls| >= 2
  {
    NotFound(img, ls, h, o) || forall b :: b in list ==> b.size < Round(TaskLists.TCBSZ)
  }

  /** The block of the partition for a new task. */
  ghost function ParBlock(img: seq<byte>, ls: seq<BlockList>, h: Header, o: Options): nat
    requires |ls| >= 2
  {
    NodeAt(ls[1].nodes, Named(img, ls[1].nodes, ParName(h, o), |ls[1].nodes|))
  }

  /** The block of the task says what was asked for: each option goes before the header, where it is given. */
  ghost predicate SaysAsked(img: seq<byte>, n: nat, h: Header, o: Options)
  {
    && Field(img, n, TaskLists.T_ATTR) == h.attr && Word(img, n, TaskLists.T_NBLK) == h.blocks
    && (o.pri > 0 ==> Field(img, n, TaskLists.T_PRI) == o.pri) && (o.pri == 0 ==> Field(img, n, TaskLists.T_PRI) == h.pri)
    && (o.task != [] ==> NameOf(img, n) == o.task) && (o.task == [] ==> NameOf(img, n) == h.name)
    && (o.inc > 0 ==> Word(img, n, TaskLists.T_END) == (h.end + o.inc) % 0x1_0000)
    && (o.inc == 0 ==> Word(img, n, TaskLists.T_END) == (h.end + h.inc) % 0x1_0000)
  }

  /** The name of a partition is the one asked for. */
  ghost predicate IsAskedPar(img: seq<byte>, n: nat, h: Header, o: Options)
  {
    if o.par != [] then NameOf(img, n) == o.par else NameOf(img, n) == h.par
  }

  /** The end address and the increment, that of the option or else of the header, are beyond the limit. */
  predicate TooBig(h: Header, o: Options, z280: bool)
  {
    (if o.inc > 0 then h.end + o.inc else h.end + h.inc) > (if z280 then 0x1_0000 else 0xF000)
  }

  lemma EntryAsked(img: seq<byte>, n: nat, h: Header, o: Options, pcb: nat, z280: bool)
    ensures TaskLists.Says(img, n, EntryOf(h, o, pcb)) ==> SaysAsked(img, n, h, o) && PartOf(img, n) == pcb
    ensures EntryOf(h, o, pcb).end > TaskLists.Limit(z280) <==> TooBig(h, o, z280)
  {
  }

  /** Task tcb is in its list, behind all of at least the priority of the header, its block says what
      header and options ask for, and leads to the partition of the name asked for. */
  ghost predicate Installed(img: seq<byte>, img': seq<byte>, ls: seq<BlockList>, h: Header, o: Options, tcb: nat, ls': seq<BlockList>)
    requires |ls| >= 2
  {
    var i := TaskLists.InsertPoint(TaskLists.Priorities(img, ls[0].nodes), h.pri, |ls[0].nodes|);
    && ls' == ls[0 := BlockList(ls[0].kind, WithNode(ls[0].nodes, i, tcb))] && tcb !in ls[0].nodes
    && SaysAsked(img', tcb, h, o) && PartOf(img', tcb) in ls[1].nodes && IsAskedPar(img, PartOf(img', tcb), h, o)
  }

  /** The same tasks among these lead to a listed partition. */
  ghost predicate SameLead(img: seq<byte>, ls: seq<BlockList>, img': seq<byte>, ls': seq<BlockList>, nodes: seq<nat>)
    requires |ls| >= 2 && |ls'| >= 2
  {
    forall i: nat :: i < |nodes| ==> SameTask(img, img', nodes[i]) && (Leads(img', ls', nodes[i]) <==> Leads(img, ls, nodes[i]))
  }

  /** What a new block means: a program that is too big is not linked.  All other tasks lead where they did,
      and no other field of a listed block changes. */
  ghost predicate InsOutcome(img: seq<byte>, img': seq<byte>, ls: seq<BlockList>, h: Header, o: Options, z280: bool, tcb: nat, ls': seq<BlockList>)
    requires |ls| >= 2
  {
    && |ls'| >= 2 && SameLead(img, ls, img', ls', ls[0].nodes)
    && (tcb > 0 ==> RestStays(img, img', ls, {}) && OthersKept(img, img', ls, 0))
    && (tcb > 0 && TooBig(h, o, z280) ==> ls' == ls)
    && (tcb > 0 && !TooBig(h, o, z280) ==> Installed(img, img', ls, h, o, tcb, ls'))
  }

  /** The two searches of install_task: 0, or the block of the partition. */
  method FindParBlock(p: SystemImage, tlist: nat, plist: nat, h: Header, o: Options, ghost live: seq<Area>, ghost ls: seq<BlockList>) returns (block: nat)
    requires SystemOk(p, tlist, plist, live, ls) && h.Ok() && o.Ok()
    ensures block < 0x1_0000 && (block > 0 ==> block == ParBlock(p.image[..], ls, h, o) && block in ls[1].nodes && IsAskedPar(p.image[..], block, h, o))
    ensures block == 0 <==> NotFound(p.image[..], ls, h, o)
  {
    ToListOk(p, tlist, plist, live, ls, 0);
    ToListOk(p, tlist, plist, live, ls, 1);
    var prev;
    ghost var i;
    prev, block, i := FindNamed(p, TaskLists.Tasks(tlist), h.name, live, ls[0].nodes);
    CellFacts(p.image[..], TaskLists.Tasks(tlist), ls[0].nodes, i);
    if block != 0 { return 0; }
    prev, block, i := FindNamed(p, Mains(plist), ParName(h, o), live, ls[1].nodes);
    CellFacts(p.image[..], Mains(plist), ls[1].nodes, i);
    NextFits(p.image[..], Mains(plist), ls[1].nodes, i);
  }

  /** INS: the task list gets the new block, which leads to the partition of that name; nothing happens
      when the name in the header is in use, or there is no such partition; a program that is too big only
      loses its block.  All other tasks lead where they did, and the plan stays. */
  method Install(p: SystemImage, tlist: nat, plist: nat, h: Header, o: Options, z280: bool, ghost live: seq<Area>, ghost ls: seq<BlockList>)
    returns (tcb: nat, ghost live': seq<Area>, ghost ls': seq<BlockList>)
    requires SystemOk(p, tlist, plist, live, ls) && h.Ok() && o.Ok()
    modifies p.image, p`list
    ensures SystemOk(p, tlist, plist, live', ls')
    ensures tcb > 0 ==> AllocStep(PoolState(old(p.list), live), Area(tcb, Round(TaskLists.TCBSZ)), PoolState(p.list, live'), p.lo, p.hi)
    ensures PlanOk(old(p.image[..]), ls) ==> PlanOk(p.image[..], ls')
    ensures tcb == 0 <==> NotInstalled(old(p.image[..]), old(p.list), ls, h, o)
    ensures tcb == 0 ==> p.image[..] == old(p.image[..]) && ls' == ls && live' == live && p.list == old(p.list)
    ensures InsOutcome(old(p.image[..]), p.image[..], ls, h, o, z280, tcb, ls')
  {
    tcb, live', ls' := 0, live, ls;
    var block := FindParBlock(p, tlist, plist, h, o, live, ls);
    if block == 0 {
      Unchanged(p.image[..], ls);
      return;
    }
    tcb, live', ls' := EnterTask(p, tlist, plist, h, o, z280, block, live, ls);
  }

  /** The rest of install_task, for a partition that was found. */
  method EnterTask(p: SystemImage, tlist: nat, plist: nat, h: Header, o: Options, z280: bool, block: nat, ghost live: seq<Area>, ghost ls: seq<BlockList>)
    returns (tcb: nat, ghost live': seq<Area>, ghost ls': seq<BlockList>)
    requires SystemOk(p, tlist, plist, live, ls) && h.Ok() && o.Ok() && block < 0x1_0000
    requires block == ParBlock(p.image[..], ls, h, o) && block in ls[1].nodes && IsAskedPar(p.image[..], block, h, o)
    modifies p.image, p`list
    ensures SystemOk(p, tlist, plist, live', ls')
    ensures tcb > 0 ==> AllocStep(PoolState(old(p.list), live), Area(tcb, Round(TaskLists.TCBSZ)), PoolState(p.list, live'), p.lo, p.hi)
    ensures PlanOk(old(p.image[..]), ls) ==> PlanOk(p.image[..], ls')
    ensures tcb == 0 <==> forall b :: b in old(p.list) ==> b.size < Round(TaskLists.TCBSZ)
    ensures tcb == 0 ==> p.image[..] == old(p.image[..]) && ls' == ls && live' == live && p.list == old(p.list)
    ensures InsOutcome(old(p.image[..]), p.image[..], ls, h, o, z280, tcb, ls')
  {
    ghost var img, s := p.image[..], PoolState(p.list, live);
    ToListOk(p, tlist, plist, live, ls, 0);
    Unchanged(img, ls);
    ls' := ls;
    ghost var nodes';
    tcb, live', nodes' := TaskLists.InstallTask(p, TaskLists.Tasks(tlist), EntryOf(h, o, block), h.pri, z280, live, ls[0].nodes);
    if tcb > 0 { ls' := TaskEntered(p, tlist, plist, img, s, live', ls, h, o, z280, tcb, nodes'); }
  }

  lemma Unchanged(img: seq<byte>, ls: seq<BlockList>)
    requires |ls| >= 2
    ensures SameLead(img, ls, img, ls, ls[0].nodes)
  {
  }

  /** What the change of the task list means for all lists. */
  lemma TaskEntered(p: SystemImage, tlist: nat, plist: nat, img: seq<byte>, s: PoolState, live': seq<Area>, ls: seq<BlockList>, h: Header, o: Options, z280: bool, tcb: nat, nodes': seq<nat>)
    returns (ls': seq<BlockList>)
    requires Holds(img, PoolOf(p), s, ls, tlist, plist) && MainsOk(img, ls[1].nodes) && ListOk(p, live', TaskLists.Tasks(tlist), nodes') && tcb !in ls[0].nodes
    requires AllocStep(s, Area(tcb, Round(TaskLists.TCBSZ)), PoolState(p.list, live'), p.lo, p.hi) && Wrote(img, p.image[..], p.head, s, PoolState(p.list, live'), ls[0])
    requires FieldsKept(img, p.image[..], ls[0].kind, ls[0].nodes) && ParBlock(img, ls, h, o) in ls[1].nodes && IsAskedPar(img, ParBlock(img, ls, h, o), h, o)
    requires
      var e := EntryOf(h, o, ParBlock(img, ls, h, o));
      var i := TaskLists.InsertPoint(TaskLists.Priorities(img, ls[0].nodes), h.pri, |ls[0].nodes|);
      if e.end > TaskLists.Limit(z280) then nodes' == ls[0].nodes else nodes' == WithNode(ls[0].nodes, i, tcb) && TaskLists.Says(p.image[..], tcb, e)
    ensures SystemOk(p, tlist, plist, live', ls')
    ensures PlanOk(img, ls) ==> PlanOk(p.image[..], ls')
    ensures InsOutcome(img, p.image[..], ls, h, o, z280, tcb, ls')
  {
    var t, b := PoolState(p.list, live'), Area(tcb, Round(TaskLists.TCBSZ));
    FromListOk(p, live', TaskLists.Tasks(tlist), nodes');
    ls' := ls[0 := BlockList(ls[0].kind, nodes')];
    if nodes' == ls[0].nodes {
      assert ls' == ls;
      OnlyAllocated(img, p.image[..], PoolOf(p), s, b, t, ls, tlist, plist);
    } else {
      TaskAdded(img, p.image[..], PoolOf(p), s, t, ls, tlist, plist, TaskLists.InsertPoint(TaskLists.Priorities(img, ls[0].nodes), h.pri, |ls[0].nodes|), tcb);
    }
    OwnStay(img, p.image[..], ls[0]);
    EntryAsked(p.image[..], tcb, h, o, ParBlock(img, ls, h, o), z280);
    RestAfter(img, p.image[..], PoolOf(p), s, ls, tlist, plist, 0, ls[0].nodes, {});
    AfterTasks(img, p.image[..], PoolOf(p), s, ls, tlist, plist, nodes', ls[0].nodes);
  }

  /** A change of the task list leaves the partitions, and the partitions of the tasks that stay. */
  lemma AfterTasks(img: seq<byte>, img': seq<byte>, at: PoolAt, s: PoolState, ls: seq<BlockList>, tlist: nat, plist: nat, nodes': seq<nat>, rest: seq<nat>)
    requires Holds(img, at, s, ls, tlist, plist) && MainsOk(img, ls[1].nodes) && OthersKept(img, img', ls, 0)
    requires Stay(img, img', BlockList(ls[0].kind, rest), 0) && forall i: nat :: i < |rest| ==> rest[i] > 0
    ensures MainsOk(img', ls[1].nodes) && SameLead(img, ls, img', ls[0 := BlockList(ls[0].kind, nodes')], rest)
  {
    assert BytesKept(img, img', ls[1], ls[0].kind.head);
    OthersStay(img, img', at, s, ls, tlist, plist, 0, 1);
    PartsPositive(img, at, s, ls, tlist, plist);
    MainsStay(img, img', ls[1], 0);
    forall i: nat | i < |rest| ensures SameTask(img, img', rest[i]) && (Leads(img', ls[0 := BlockList(ls[0].kind, nodes')], rest[i]) <==> Leads(img, ls, rest[i])) {
      TaskStays(img, img', BlockList(ls[0].kind, rest), 0, i);
      LeadsAsBefore(img, img', ls, nodes', rest[i]);
    }
  }

  lemma PartsPositive(img: seq<byte>, at: PoolAt, s: PoolState, ls: seq<BlockList>, tlist: nat, plist: nat)
    requires Holds(img, at, s, ls, tlist, plist)
    ensures forall k: nat, i: nat :: k < |ls| && i < |ls[k].nodes| ==> ls[k].nodes[i] > 0
  {
    forall k: nat, i: nat | k < |ls| && i < |ls[k].nodes| ensures ls[k].nodes[i] > 0 {
      BlockNotZero(img, at, s, ls[k], i);
    }
  }

  /** The live area of a block goes back to the pool. */
  ghost predicate Freed(s: PoolState, b: Area, t: PoolState, at: PoolAt)
  {
    exists x: nat :: x < |s.live| && s.live[x] == b && FreeStep(s, x, t, at.lo, at.hi)
  }

  /** REM: the task list loses the block of that name; all other tasks lead where they did. */
  method Remove(p: SystemImage, tlist: nat, name: seq<byte>, ghost plist: nat, ghost live: seq<Area>, ghost ls: seq<BlockList>)
    returns (done: bool, ghost live': seq<Area>, ghost ls': seq<BlockList>)
    requires SystemOk(p, tlist, plist, live, ls)
    modifies p.image, p`list
    ensures SystemOk(p, tlist, plist, live', ls') && (done ==> OthersKept(old(p.image[..]), p.image[..], ls, 0))
    ensures PlanOk(old(p.image[..]), ls) ==> PlanOk(p.image[..], ls')
    ensures !done ==> ls' == ls && p.image[..] == old(p.image[..]) && live' == live && p.list == old(p.list)
    ensures
      var i := Named(old(p.image[..]), ls[0].nodes, name, |ls[0].nodes|);
      && (done <==> i < |ls[0].nodes| && !Fixed(old(p.image[..]), ls[0].nodes[i]))
      && (done ==> ls' == ls[0 := BlockList(ls[0].kind, WithoutNode(ls[0].nodes, i))])
      && (done ==> Freed(PoolState(old(p.list), live), Area(ls[0].nodes[i], Round(TaskLists.TCBSZ)), PoolState(p.list, live'), PoolOf(p)))
      && (done ==> RestStays(old(p.image[..]), p.image[..], ls, {ls[0].nodes[i]}))
    ensures SameLead(old(p.image[..]), ls, p.image[..], ls', ls'[0].nodes)
  {
    ghost var img, s := p.image[..], PoolState(p.list, live);
    ToListOk(p, tlist, plist, live, ls, 0);
    ghost var nodes', i, x;
    done, live', nodes', i, x := TaskLists.RemoveTask(p, TaskLists.Tasks(tlist), name, live, ls[0].nodes);
    ls' := ls;
    if !done {
      Unchanged(img, ls);
      return;
    }
    FromListOk(p, live', TaskLists.Tasks(tlist), nodes');
    ls' := ls[0 := BlockList(ls[0].kind, nodes')];
    TaskRemoved(img, p.image[..], PoolOf(p), s, x, PoolState(p.list, live'), ls, tlist, plist, i);
    PartsPositive(img, PoolOf(p), s, ls, tlist, plist);
    OwnStay(img, p.image[..], ls'[0]);
    assert forall j: nat :: j < |nodes'| ==> nodes'[j] == ls[0].nodes[if j < i then j else j + 1];
    LeftInWithout(ls[0].nodes, i);
    RestAfter(img, p.image[..], PoolOf(p), s, ls, tlist, plist, 0, nodes', {ls[0].nodes[i]});
    AfterTasks(img, p.image[..], PoolOf(p), s, ls, tlist, plist, nodes', nodes');
  }

  // ---------------------------------------------------------------
  // Partitions
  // ---------------------------------------------------------------

  /** The chosen place is in order; it is inside the memory exactly if the request was sane. */
  lemma PlaceOk(parts: seq<Part>, base: nat, size: nat, wb: bool, ws: bool)
    requires Sorted(parts) && Within(parts, TOP) && base < 0x1_0000 && (ws || size > 0)
    ensures var r := PlaceMain(parts, base, size, wb, ws);
      r.At? ==> r.index <= |parts| && Sorted(Insert(parts, r.index, r.part)) && (r.part.size > 0 && r.part.End() <= TOP <==> Sane(parts, base, size, wb, ws))
  {
    WordsWithin(parts);
    assert parts == [] || parts[|parts| - 1].End() <= TOP;
    StaysSortedIff(parts, base, size, wb, ws);
    WithinIff(parts, base, size, wb, ws);
  }

  lemma PartWord(img: seq<byte>, n: nat)
    requires n + P_SUB + 2 <= |img|
    ensures Get16(img, n + P_SUB) == Word(img, n, P_SUB)
  {
    WordIs(img, n, P_SUB);
  }

  /** The block of the new partition is at the place that the plan says, with an empty list of its own, and
      with the name and the attributes asked for; nothing else about it is left over from before. */
  ghost predicate ParNew(img: seq<byte>, img': seq<byte>, ls: seq<BlockList>, name: seq<byte>, attr: byte, r: Place, pcb: nat, ls': seq<BlockList>)
    requires |ls| >= 2
  {
    && r.At? && r.index <= |ls[1].nodes| && pcb > 0 && pcb !in ls[1].nodes && ls' == WithPart(ls, r.index, pcb)
    && Parts(img', ls'[1].nodes) == Insert(Parts(img, ls[1].nodes), r.index, r.part)
    && FreshPart(img', pcb, name, attr) && RestStays(img, img', ls, {})
  }

  /** Exactly the tasks lead that did before, or that name block n. */
  ghost predicate LeadToNew(img: seq<byte>, ls: seq<BlockList>, img': seq<byte>, ls': seq<BlockList>, n: nat)
    requires |ls| >= 2 && |ls'| >= 2
  {
    forall i: nat :: i < |ls[0].nodes| ==>
      var t := ls[0].nodes[i]; SameTask(img, img', t) && (Leads(img', ls', t) <==> Leads(img, ls, t) || PartOf(img, t) == n)
  }

  /** What SET /PAR= does, or why it does nothing.  Partitions that did not overlap and were inside the
      memory still are, if and only if the request was sane; a given base and size are accepted only if the
      pages are free. */
  ghost predicate ParOutcome(img: seq<byte>, list: seq<Area>, img': seq<byte>, ls: seq<BlockList>, name: seq<byte>, base: nat, size: nat, wb: bool, ws: bool, attr: byte, pcb: nat, ls': seq<BlockList>)
    requires |ls| >= 2 && |ls'| >= 2
  {
    && (pcb == 0 <==> Refused(img, list, ls[1].nodes, name, base, size, wb, ws))
    && (pcb == 0 ==> ls' == ls && img' == img)
    && (pcb > 0 ==> OthersKept(img, img', ls, 1) && ParNew(img, img', ls, name, attr, PlaceMain(Parts(img, ls[1].nodes), base, size, wb, ws), pcb, ls') && LeadToNew(img, ls, img', ls', pcb))
    && (PlanOk(img, ls) ==> (PlanOk(img', ls') <==> pcb == 0 || Sane(Parts(img, ls[1].nodes), base, size, wb, ws)))
    && (PlanOk(img, ls) && !wb && !ws && size > 0 && !PartitionPlan.Free(Parts(img, ls[1].nodes), Part(base, size)) ==> pcb == 0)
  }

  /** A given base and size are accepted only if the pages are free. */
  lemma GivenTaken(img: seq<byte>, list: seq<Area>, ls: seq<BlockList>, name: seq<byte>, base: nat, size: nat)
    requires |ls| >= 2
    ensures PlanOk(img, ls) && size > 0 && !PartitionPlan.Free(Parts(img, ls[1].nodes), Part(base, size)) ==> Refused(img, list, ls[1].nodes, name, base, size, false, false)
  {
    if PlanOk(img, ls) && size > 0 { AcceptedIffFree(Parts(img, ls[1].nodes), base, size); }
  }

  /** SET /PAR=: the partition list gets the new block, with an empty list of its own; all other
      lists stay.  A task whose partition was removed leads again if the new one got the same block. */
  method SetPar(p: SystemImage, plist: nat, name: seq<byte>, base: nat, size: nat, wb: bool, ws: bool, attr: byte, ghost tlist: nat, ghost live: seq<Area>, ghost ls: seq<BlockList>)
    returns (pcb: nat, ghost live': seq<Area>, ghost ls': seq<BlockList>)
    requires SystemOk(p, tlist, plist, live, ls) && |name| == 6 && base < 0x1_0000 && size < 0x1_0000
    modifies p.image, p`list
    ensures SystemOk(p, tlist, plist, live', ls')
    ensures ParOutcome(old(p.image[..]), old(p.list), p.image[..], ls, name, base, size, wb, ws, attr, pcb, ls')
    ensures pcb == 0 ==> live' == live && p.list == old(p.list)
    ensures pcb > 0 ==> AllocStep(PoolState(old(p.list), live), Area(pcb, Round(PCBSZ)), PoolState(p.list, live'), p.lo, p.hi)
  {
    ghost var img, s := p.image[..], PoolState(p.list, live);
    ToListOk(p, tlist, plist, live, ls, 1);
    ghost var nodes';
    pcb, live', nodes' := AddPartition(p, Mains(plist), name, base, size, wb, ws, attr, live, ls[1].nodes);
    GivenTaken(img, s.free, ls, name, base, size);
    ls' := ls;
    if pcb == 0 { return; }
    ls' := ParEntered(p, tlist, plist, img, s, live', ls, name, base, size, wb, ws, attr, pcb, nodes');
  }

  lemma ParEntered(p: SystemImage, tlist: nat, plist: nat, img: seq<byte>, s: PoolState, live': seq<Area>, ls: seq<BlockList>, name: seq<byte>, base: nat, size: nat, wb: bool, ws: bool, attr: byte, pcb: nat, nodes': seq<nat>)
    returns (ls': seq<BlockList>)
    requires Holds(img, PoolOf(p), s, ls, tlist, plist) && MainsOk(img, ls[1].nodes) && ListOk(p, live', Mains(plist), nodes') && base < 0x1_0000 && (ws || size > 0)
    requires var r := PlaceMain(Parts(img, ls[1].nodes), base, size, wb, ws);
      && r.At? && r.index <= |ls[1].nodes| && pcb !in ls[1].nodes && pcb > 0 && nodes' == WithNode(ls[1].nodes, r.index, pcb)
      && Parts(p.image[..], nodes') == Insert(Parts(img, ls[1].nodes), r.index, r.part)
    requires FreshPart(p.image[..], pcb, name, attr) && Named(img, ls[1].nodes, name, |ls[1].nodes|) == |ls[1].nodes|
    requires AllocStep(s, Area(pcb, Round(PCBSZ)), PoolState(p.list, live'), p.lo, p.hi) && Wrote(img, p.image[..], p.head, s, PoolState(p.list, live'), ls[1])
    requires FieldsKept(img, p.image[..], ls[1].kind, ls[1].nodes)
    ensures SystemOk(p, tlist, plist, live', ls') && OthersKept(img, p.image[..], ls, 1)
    ensures ParNew(img, p.image[..], ls, name, attr, PlaceMain(Parts(img, ls[1].nodes), base, size, wb, ws), pcb, ls')
    ensures PlanOk(img, ls) ==> (PlanOk(p.image[..], ls') <==> Sane(Parts(img, ls[1].nodes), base, size, wb, ws))
    ensures LeadToNew(img, ls, p.image[..], ls', pcb)
  {
    var r := PlaceMain(Parts(img, ls[1].nodes), base, size, wb, ws);
    FromListOk(p, live', Mains(plist), nodes');
    ls' := WithPart(ls, r.index, pcb);
    PartWord(p.image[..], pcb);
    PartAdded(img, p.image[..], PoolOf(p), s, PoolState(p.list, live'), ls, tlist, plist, r.index, pcb);
    if PlanOk(img, ls) {
      PlanEntered(img, p.image[..], PoolOf(p), s, ls, tlist, plist, base, size, wb, ws, pcb);
    }
    ParFields(img, p.image[..], PoolOf(p), s, ls, tlist, plist, name, r.index, pcb);
  }

  /** The other blocks keep their fields, and the tasks their partitions. */
  lemma ParFields(img: seq<byte>, img': seq<byte>, at: PoolAt, s: PoolState, ls: seq<BlockList>, tlist: nat, plist: nat, name: seq<byte>, i: nat, pcb: nat)
    requires Holds(img, at, s, ls, tlist, plist) && MainsOk(img, ls[1].nodes) && OthersKept(img, img', ls, 1) && FieldsKept(img, img', ls[1].kind, ls[1].nodes)
    requires i <= |ls[1].nodes| && NameOf(img', pcb) == name && Word(img', pcb, P_MAIN) == pcb && Named(img, ls[1].nodes, name, |ls[1].nodes|) == |ls[1].nodes|
    ensures MainsOk(img', WithNode(ls[1].nodes, i, pcb)) && RestStays(img, img', ls, {}) && LeadToNew(img, ls, img', WithPart(ls, i, pcb), pcb)
  {
    PartsPositive(img, at, s, ls, tlist, plist);
    OwnStay(img, img', ls[1]);
    MainsWith(img, img', ls[1], i, pcb, name);
    RestAfter(img, img', at, s, ls, tlist, plist, 1, ls[1].nodes, {});
    AfterNew(img, img', at, s, ls, tlist, plist, i, pcb);
  }

  /** The plan with the new partition is in order exactly if the request was sane. */
  lemma PlanEntered(img: seq<byte>, img': seq<byte>, at: PoolAt, s: PoolState, ls: seq<BlockList>, tlist: nat, plist: nat, base: nat, size: nat, wb: bool, ws: bool, pcb: nat)
    requires Holds(img, at, s, ls, tlist, plist) && OthersKept(img, img', ls, 1) && FieldsKept(img, img', ls[1].kind, ls[1].nodes) && PlanOk(img, ls)
    requires base < 0x1_0000 && (ws || size > 0)
    requires var r := PlaceMain(Parts(img, ls[1].nodes), base, size, wb, ws);
      r.At? && r.index <= |ls[1].nodes| && Parts(img', WithNode(ls[1].nodes, r.index, pcb)) == Insert(Parts(img, ls[1].nodes), r.index, r.part)
    ensures PlanOk(img', WithPart(ls, PlaceMain(Parts(img, ls[1].nodes), base, size, wb, ws).index, pcb)) <==> Sane(Parts(img, ls[1].nodes), base, size, wb, ws)
  {
    var parts := Parts(img, ls[1].nodes);
    var r := PlaceMain(parts, base, size, wb, ws);
    PlaceOk(parts, base, size, wb, ws);
    if Sane(parts, base, size, wb, ws) {
      PlanWith(img, img', at, s, ls, tlist, plist, r.index, pcb, r.part);
    } else {
      var q := Insert(parts, r.index, r.part);
      assert q[r.index] == r.part && !Within(q, TOP);
    }
  }

  lemma AfterNew(img: seq<byte>, img': seq<byte>, at: PoolAt, s: PoolState, ls: seq<BlockList>, tlist: nat, plist: nat, i: nat, n: nat)
    requires Holds(img, at, s, ls, tlist, plist) && OthersKept(img, img', ls, 1) && i <= |ls[1].nodes|
    ensures LeadToNew(img, ls, img', WithPart(ls, i, n), n)
  {
    assert BytesKept(img, img', ls[0], ls[1].kind.head);
    OthersStay(img, img', at, s, ls, tlist, plist, 1, 0);
    PartsPositive(img, at, s, ls, tlist, plist);
    forall j: nat | j < |ls[0].nodes|
      ensures SameTask(img, img', ls[0].nodes[j])
      ensures Leads(img', WithPart(ls, i, n), ls[0].nodes[j]) <==> Leads(img, ls, ls[0].nodes[j]) || PartOf(img, ls[0].nodes[j]) == n
    {
      TaskStays(img, img', ls[0], 0, j);
      LeadsWith(img, img', ls, i, n, ls[0].nodes[j]);
    }
  }

  /** The list of sub-partitions of a partition is empty if its P_SUB says so. */
  lemma EmptySubs(img: seq<byte>, at: PoolAt, s: PoolState, ls: seq<BlockList>, tlist: nat, plist: nat, i: nat) returns (x: nat)
    requires Holds(img, at, s, ls, tlist, plist) && i < |ls[1].nodes|
    ensures 2 <= x < |ls| && ls[x].kind.owner == ls[1].nodes[i] && (Word(img, ls[1].nodes[i], P_SUB) == 0 ==> ls[x].nodes == [])
  {
    assert ls[1].nodes[i] in ls[1].nodes;
    x :| 2 <= x < |ls| && ls[x].kind.owner == ls[1].nodes[i];
    CellFacts(img, ls[x].kind, ls[x].nodes, 0);
    PartWord(img, ls[1].nodes[i]);
  }

  /** The partition of that name is out of its list, its own empty list x is gone, and all other
      lists are as they were. */
  ghost predicate ParGone(img: seq<byte>, img': seq<byte>, ls: seq<BlockList>, name: seq<byte>, x: nat, ls': seq<BlockList>)
  {
    2 <= x < |ls| && var i := Named(img, ls[1].nodes, name, |ls[1].nodes|);
    && i < |ls[1].nodes| && ls[x] == BlockList(Subs(ls[1].nodes[i]), []) && ls' == WithoutPart(ls, i, x)
    && OthersKept(img, img', ls[..x] + ls[x + 1..], 1) && RestStays(img, img', ls, {ls[1].nodes[i]})
  }

  /** Exactly the tasks lead that did before, and do not name block n. */
  ghost predicate LeadElsewhere(img: seq<byte>, ls: seq<BlockList>, img': seq<byte>, ls': seq<BlockList>, n: nat)
    requires |ls| >= 2 && |ls'| >= 2
  {
    forall i: nat :: i < |ls[0].nodes| ==>
      var t := ls[0].nodes[i]; SameTask(img, img', t) && (Leads(img', ls', t) <==> Leads(img, ls, t) && PartOf(img, t) != n)
  }

  /** SET /NOPAR=: the partition of that name goes, and with it its empty list.  The tasks that name it
      are exactly those that do not lead to a listed partition any more: the command does not look for
      them. */
  method NoPar(p: SystemImage, plist: nat, name: seq<byte>, ghost tlist: nat, ghost live: seq<Area>, ghost ls: seq<BlockList>)
    returns (done: bool, ghost live': seq<Area>, ghost ls': seq<BlockList>, ghost x: nat)
    requires SystemOk(p, tlist, plist, live, ls)
    modifies p.image, p`list
    ensures SystemOk(p, tlist, plist, live', ls')
    ensures PlanOk(old(p.image[..]), ls) ==> PlanOk(p.image[..], ls')
    ensures !done ==> ls' == ls && p.image[..] == old(p.image[..]) && live' == live && p.list == old(p.list)
    ensures
      var img := old(p.image[..]);
      var i := Named(img, ls[1].nodes, name, |ls[1].nodes|);
      && (done <==> i < |ls[1].nodes| && Word(img, ls[1].nodes[i], P_SUB) == 0 && Word(img, ls[1].nodes[i], P_WAIT) == 0)
      && (done ==> ParGone(img, p.image[..], ls, name, x, ls') && LeadElsewhere(img, ls, p.image[..], ls', ls[1].nodes[i]))
      && (done ==> Freed(PoolState(old(p.list), live), Area(ls[1].nodes[i], Round(PCBSZ)), PoolState(p.list, live'), PoolOf(p)))
  {
    ghost var img, s := p.image[..], PoolState(p.list, live);
    ToListOk(p, tlist, plist, live, ls, 1);
    ghost var nodes', i, y;
    done, live', nodes', i, y := RemovePartition(p, Mains(plist), name, live, ls[1].nodes);
    ls', x := ls, 0;
    if !done { return; }
    x := EmptySubs(img, PoolOf(p), s, ls, tlist, plist, i);
    ls' := ParLeft(p, tlist, plist, img, s, y, live', ls, name, i, x, nodes');
  }

  lemma ParLeft(p: SystemImage, tlist: nat, plist: nat, img: seq<byte>, s: PoolState, y: nat, live': seq<Area>, ls: seq<BlockList>, name: seq<byte>, i: nat, x: nat, nodes': seq<nat>)
    returns (ls': seq<BlockList>)
    requires Holds(img, PoolOf(p), s, ls, tlist, plist) && MainsOk(img, ls[1].nodes) && ListOk(p, live', Mains(plist), nodes') && i < |ls[1].nodes| && nodes' == WithoutNode(ls[1].nodes, i)
    requires i == Named(img, ls[1].nodes, name, |ls[1].nodes|) && Word(img, ls[1].nodes[i], P_SUB) == 0
    requires 2 <= x < |ls| && ls[x].kind.owner == ls[1].nodes[i] && ls[x].nodes == [] && FieldsKept(img, p.image[..], ls[1].kind, nodes')
    requires FreeStep(s, y, PoolState(p.list, live'), p.lo, p.hi) && s.live[y].addr == ls[1].nodes[i] && Wrote(img, p.image[..], p.head, s, PoolState(p.list, live'), ls[1])
    ensures SystemOk(p, tlist, plist, live', ls') && ParGone(img, p.image[..], ls, name, x, ls')
    ensures PlanOk(img, ls) ==> PlanOk(p.image[..], ls')
    ensures LeadElsewhere(img, ls, p.image[..], ls', ls[1].nodes[i])
  {
    FromListOk(p, live', Mains(plist), nodes');
    ls' := WithoutPart(ls, i, x);
    PartRemoved(img, p.image[..], PoolOf(p), s, y, PoolState(p.list, live'), ls, tlist, plist, i, x);
    if PlanOk(img, ls) { PlanWithout(img, p.image[..], PoolOf(p), s, ls, tlist, plist, i, x); }
    PartsPositive(img, PoolOf(p), s, ls, tlist, plist);
    MainsWithout(img, p.image[..], ls[1], i);
    RestAfterGone(img, p.image[..], PoolOf(p), s, ls, tlist, plist, i, x);
    AfterGone(img, p.image[..], PoolOf(p), s, ls, tlist, plist, i, x);
  }

  lemma RestAfterGone(img: seq<byte>, img': seq<byte>, at: PoolAt, s: PoolState, ls: seq<BlockList>, tlist: nat, plist: nat, i: nat, x: nat)
    requires Holds(img, at, s, ls, tlist, plist) && i < |ls[1].nodes| && 2 <= x < |ls| && ls[x].nodes == [] && OthersKept(img, img', ls[..x] + ls[x + 1..], 1)
    requires FieldsKept(img, img', ls[1].kind, WithoutNode(ls[1].nodes, i))
    ensures RestStays(img, img', ls, {ls[1].nodes[i]})
  {
    var r := ls[..x] + ls[x + 1..];
    forall m: nat | m < |ls| && m != 1 && ls[m].nodes != [] ensures BytesKept(img, img', ls[m], ls[1].kind.head) {
      assert r[if m < x then m else m - 1] == ls[m] && r[1] == ls[1];
    }
    LeftInWithout(ls[1].nodes, i);
    RestAfter(img, img', at, s, ls, tlist, plist, 1, WithoutNode(ls[1].nodes, i), {ls[1].nodes[i]});
  }

  lemma AfterGone(img: seq<byte>, img': seq<byte>, at: PoolAt, s: PoolState, ls: seq<BlockList>, tlist: nat, plist: nat, i: nat, x: nat)
    requires Holds(img, at, s, ls, tlist, plist) && i < |ls[1].nodes| && 2 <= x < |ls| && ls[x].nodes == [] && OthersKept(img, img', ls[..x] + ls[x + 1..], 1)
    ensures LeadElsewhere(img, ls, img', WithoutPart(ls, i, x), ls[1].nodes[i])
  {
    var r := ls[..x] + ls[x + 1..];
    assert r[0] == ls[0] && r[1] == ls[1];
    OthersStay(img, img', at, s, ls, tlist, plist, 1, 0);
    PartsPositive(img, at, s, ls, tlist, plist);
    forall j: nat | j < |ls[0].nodes|
      ensures SameTask(img, img', ls[0].nodes[j])
      ensures Leads(img', WithoutPart(ls, i, x), ls[0].nodes[j]) <==> Leads(img, ls, ls[0].nodes[j]) && PartOf(img, ls[0].nodes[j]) != ls[1].nodes[i]
    {
      TaskStays(img, img', ls[0], 0, j);
      LeadsWithout(img, img', at, s, ls, tlist, plist, i, x, ls[0].nodes[j]);
    }
  }
}
