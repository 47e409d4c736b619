/** FIX of vmr.c on the whole system image: a task is given pages of the partition that it names, and a
    context block.  What it writes into those pages is not looked at. */
module TaskFixing {
  import opened Bytes
  import opened PoolList
  import opened Pool
  import opened PoolRuns
  import opened Chains
  import opened SystemLists
  import opened NamedBlocks
  import opened PartitionPlan
  import opened PartitionLists
  import opened SystemState
  import opened SystemPlan
  import opened SystemReferences
  import opened SystemOperations
  import TaskLists

  // ---------------------------------------------------------------
  // Single fields
  // ---------------------------------------------------------------

  /** The fields of a partition that the plan and the references depend on are left alone. */
  predicate Harmless(k: nat, offs: set<nat>)
  {
    k > 0 ==> forall o: nat :: o in offs ==> !(P_SIZE <= o < P_ATTR) && !(NAME <= o < NAME + 6)
  }

  ghost predicate StayKey(k: int)
  {
    true
  }

  /** All fields of all lists but those of block n. */
  ghost predicate AllStay(img: seq<byte>, img': seq<byte>, ls: seq<BlockList>, n: nat)
  {
    forall key {:trigger StayKey(key)} :: Folded(key) ==> forall m: nat :: m < |ls| ==> Stay(img, img', ls[m], n)
  }

  lemma NothingMoved(img: seq<byte>, ls: seq<BlockList>, n: nat)
    ensures AllStay(img, img, ls, n)
  {
    assert forall m: nat :: m < |ls| ==> Stay(img, img, ls[m], n);
  }

  lemma StayAt(img: seq<byte>, img': seq<byte>, ls: seq<BlockList>, n: nat, m: nat)
    requires AllStay(img, img', ls, n) && m < |ls|
    ensures Stay(img, img', ls[m], n)
  {
    assert StayKey(0);
  }

  /** The same places, and the same main partitions. */
  ghost predicate PartsSame(img: seq<byte>, img': seq<byte>, ls: seq<BlockList>)
  {
    forall key {:trigger StayKey(key)} :: Folded(key) ==>
    forall m: nat, i: nat :: 1 <= m < |ls| && i < |ls[m].nodes| ==> SamePlace(img, img', ls[m].nodes[i]) && Word(img', ls[m].nodes[i], P_MAIN) == Word(img, ls[m].nodes[i], P_MAIN)
  }

  lemma PartsSameOn(a: seq<byte>, b: seq<byte>, c: seq<byte>, ls: seq<BlockList>)
    requires PartsSame(a, b, ls) && PartsSame(b, c, ls)
    ensures PartsSame(a, c, ls)
  {
    assert StayKey(0);
    forall m: nat, i: nat | 1 <= m < |ls| && i < |ls[m].nodes| ensures SamePlace(a, c, ls[m].nodes[i]) && Word(c, ls[m].nodes[i], P_MAIN) == Word(a, ls[m].nodes[i], P_MAIN) {
      assert SamePlace(a, b, ls[m].nodes[i]) && SamePlace(b, c, ls[m].nodes[i]);
    }
  }

  /** ... because all fields stay but those of block n. */
  lemma StayPartsSame(img: seq<byte>, img': seq<byte>, ls: seq<BlockList>, tlist: nat, plist: nat, n: nat)
    requires Shape(ls, tlist, plist) && AllStay(img, img', ls, n)
    requires forall m: nat :: 1 <= m < |ls| && n in ls[m].nodes ==> SamePlace(img, img', n) && Word(img', n, P_MAIN) == Word(img, n, P_MAIN)
    ensures PartsSame(img, img', ls) && (PlanOk(img, ls) ==> PlanOk(img', ls))
  {
    forall m: nat, i: nat | 1 <= m < |ls| && i < |ls[m].nodes| ensures SamePlace(img, img', ls[m].nodes[i]) && Word(img', ls[m].nodes[i], P_MAIN) == Word(img, ls[m].nodes[i], P_MAIN) {
      StayAt(img, img', ls, n, m);
      if ls[m].nodes[i] != n { PartStays(img, img', ls[m], n, i); }
    }
    PlanSame(img, img', ls, tlist, plist);
  }

  lemma PokeKeeps(img: seq<byte>, img': seq<byte>, at: PoolAt, s: PoolState, ls: seq<BlockList>, tlist: nat, plist: nat, k: nat, i: nat, offs: set<nat>)
    requires Holds(img, at, s, ls, tlist, plist) && Stores(img, at.head, at.lo, at.hi, s.free) && MainsOk(img, ls[1].nodes) && k < |ls| && i < |ls[k].nodes|
    requires Scribbled(img, img', ls[k].nodes[i], offs) && Fields(ls[k], offs) && Harmless(k, offs)
    ensures Holds(img', at, s, ls, tlist, plist) && Stores(img', at.head, at.lo, at.hi, s.free) && MainsOk(img', ls[1].nodes)
    ensures AllStay(img, img', ls, ls[k].nodes[i]) && PartsSame(img, img', ls) && (PlanOk(img, ls) ==> PlanOk(img', ls))
  {
    var n := ls[k].nodes[i];
    ScribbleKeeps(img, img', at, s, ls, tlist, plist, k, i, offs);
    if k > 0 {
      OwnPart(img, img', n, offs);
      forall j: nat | j < |ls[1].nodes| ensures Word(img', ls[1].nodes[j], P_MAIN) == Word(img, ls[1].nodes[j], P_MAIN) && NameOf(img', ls[1].nodes[j]) == NameOf(img, ls[1].nodes[j]) {
        if ls[1].nodes[j] != n { PartStays(img, img', ls[1], n, j); }
      }
    } else {
      TaskNoPart(img, at, s, ls, tlist, plist, i);
      MainsStay(img, img', ls[1], n);
    }
    StayPartsSame(img, img', ls, tlist, plist, n);
  }

  lemma OwnPart(img: seq<byte>, img': seq<byte>, n: nat, offs: set<nat>)
    requires Scribbled(img, img', n, offs) && Harmless(1, offs) && forall o: nat :: o in offs ==> P_SIZE <= o
    ensures PartAt(img', n) == PartAt(img, n) && SubAt(img', n) == SubAt(img, n) && Word(img', n, P_MAIN) == Word(img, n, P_MAIN) && NameOf(img', n) == NameOf(img, n)
  {
    assert forall o: nat :: o !in offs ==> Field(img', n, o) == Field(img, n, o);
  }

  /** A task is no partition. */
  lemma TaskNoPart(img: seq<byte>, at: PoolAt, s: PoolState, ls: seq<BlockList>, tlist: nat, plist: nat, i: nat)
    requires Holds(img, at, s, ls, tlist, plist) && i < |ls[0].nodes|
    ensures forall m: nat :: 1 <= m < |ls| ==> ls[0].nodes[i] !in ls[m].nodes
  {
    forall m: nat | 1 <= m < |ls| ensures ls[0].nodes[i] !in ls[m].nodes {
      assert ApartLists(ls[0], ls[m]);
    }
  }

  // ---------------------------------------------------------------
  // sys_putb and sys_putw into a block that is in a list
  // ---------------------------------------------------------------

  /** Everything but fields of block n is as it was. */
  ghost predicate Poked(img: seq<byte>, img': seq<byte>, ls: seq<BlockList>, n: nat, offs: set<nat>)
  {
    Scribbled(img, img', n, offs) && AllStay(img, img', ls, n) && PartsSame(img, img', ls) && (PlanOk(img, ls) ==> PlanOk(img', ls))
  }

  method PokeByte(p: SystemImage, n: nat, o: nat, b: byte, ghost tlist: nat, ghost plist: nat, ghost live: seq<Area>, ghost ls: seq<BlockList>, ghost k: nat, ghost i: nat)
    requires SystemOk(p, tlist, plist, live, ls) && k < |ls| && i < |ls[k].nodes| && n == ls[k].nodes[i]
    requires P_SIZE <= o < ls[k].kind.size && Harmless(k, {o})
    modifies p.image
    ensures SystemOk(p, tlist, plist, live, ls) && Poked(old(p.image[..]), p.image[..], ls, n, {o}) && Field(p.image[..], n, o) == b
  {
    ghost var img := p.image[..];
    ListedInside(p, tlist, plist, live, ls, k, i);
    p.image[n + o] := b;
    PokeKeeps(img, p.image[..], PoolOf(p), PoolState(p.list, live), ls, tlist, plist, k, i, {o});
  }

  method PokeWord(p: SystemImage, n: nat, o: nat, w: nat, ghost tlist: nat, ghost plist: nat, ghost live: seq<Area>, ghost ls: seq<BlockList>, ghost k: nat, ghost i: nat)
    requires SystemOk(p, tlist, plist, live, ls) && k < |ls| && i < |ls[k].nodes| && n == ls[k].nodes[i] && w < 0x1_0000
    requires P_SIZE <= o && o + 1 < ls[k].kind.size && Harmless(k, {o, o + 1})
    modifies p.image
    ensures SystemOk(p, tlist, plist, live, ls) && Poked(old(p.image[..]), p.image[..], ls, n, {o, o + 1}) && Word(p.image[..], n, o) == w
  {
    ghost var img := p.image[..];
    ListedInside(p, tlist, plist, live, ls, k, i);
    p.PutW(n + o, w);
    WordScribbled(img, n, o, w);
    PokeKeeps(img, p.image[..], PoolOf(p), PoolState(p.list, live), ls, tlist, plist, k, i, {o, o + 1});
  }

  lemma WordScribbled(img: seq<byte>, n: nat, o: nat, w: nat)
    requires n + o + 2 <= |img| && w < 0x1_0000
    ensures Scribbled(img, Set16(img, n + o, w), n, {o, o + 1}) && Word(Set16(img, n + o, w), n, o) == w
  {
    Get16AfterSet16(img, n + o, w);
    WordIs(Set16(img, n + o, w), n, o);
  }

  lemma ListedInside(p: SystemImage, tlist: nat, plist: nat, live: seq<Area>, ls: seq<BlockList>, k: nat, i: nat)
    requires SystemOk(p, tlist, plist, live, ls) && k < |ls| && i < |ls[k].nodes|
    ensures 0 < ls[k].nodes[i] && ls[k].nodes[i] + ls[k].kind.size <= 0x1_0000
  {
    assert ListIn(p.image[..], p.head, p.lo, p.hi, PoolState(p.list, live), ls[k]);
  }

  // ---------------------------------------------------------------
  // Other tasks
  // ---------------------------------------------------------------

  /** The tasks other than t lead where they did. */
  ghost predicate OthersLead(img: seq<byte>, ls: seq<BlockList>, img': seq<byte>, ls': seq<BlockList>, t: nat)
    requires |ls| >= 2 && |ls'| >= 2
  {
    && ls'[0] == ls[0]
    && forall i: nat :: i < |ls[0].nodes| && ls[0].nodes[i] != t ==> SameTask(img, img', ls[0].nodes[i]) && (Leads(img, ls, ls[0].nodes[i]) ==> Leads(img', ls', ls[0].nodes[i]))
  }

  lemma OthersLeadOn(a: seq<byte>, la: seq<BlockList>, b: seq<byte>, lb: seq<BlockList>, c: seq<byte>, lc: seq<BlockList>, t: nat)
    requires |la| >= 2 && |lb| >= 2 && |lc| >= 2 && OthersLead(a, la, b, lb, t) && OthersLead(b, lb, c, lc, t)
    ensures OthersLead(a, la, c, lc, t)
  {
  }

  /** Where only block n was written to, a task or not. */
  lemma PokeLeads(img: seq<byte>, img': seq<byte>, ls: seq<BlockList>, tlist: nat, plist: nat, n: nat, t: nat)
    requires Shape(ls, tlist, plist) && Stay(img, img', ls[0], n) && (n in ls[0].nodes ==> n == t)
    ensures OthersLead(img, ls, img', ls, t)
  {
    forall i: nat | i < |ls[0].nodes| && ls[0].nodes[i] != t ensures SameTask(img, img', ls[0].nodes[i]) && (Leads(img, ls, ls[0].nodes[i]) ==> Leads(img', ls, ls[0].nodes[i])) {
      TaskStays(img, img', ls[0], n, i);
    }
  }

  // ---------------------------------------------------------------
  // The pages
  // ---------------------------------------------------------------

  predicate IsSystem(img: seq<byte>, main: nat)
  {
    And(Field(img, main, P_ATTR), SYSTEM) != 0
  }

  /** There is no room for a task of that many pages: no gap in a system-controlled partition, or no block
      for a sub-partition; or a partition of its own that is busy or too small. */
  ghost predicate NoRoomFor(img: seq<byte>, list: seq<Area>, main: nat, subs: seq<nat>, size: nat)
  {
    if IsSystem(img, main) then
      PlaceSub(SubAt(img, main), SubParts(img, subs), size).Nowhere? || forall b :: b in list ==> b.size < Round(PCBSZ)
    else
      And(Field(img, main, P_STAT), BUSY) != 0 || Field(img, main, P_SIZE) < size
  }

  /** The list of sub-partitions of main partition m. */
  lemma SubsOf(img: seq<byte>, at: PoolAt, s: PoolState, ls: seq<BlockList>, tlist: nat, plist: nat, m: nat) returns (k: nat)
    requires Holds(img, at, s, ls, tlist, plist) && m < |ls[1].nodes|
    ensures 2 <= k < |ls| && ls[k].kind == Subs(ls[1].nodes[m])
  {
    assert ls[1].nodes[m] in ls[1].nodes;
    k :| 2 <= k < |ls| && ls[k].kind.owner == ls[1].nodes[m];
  }

  /** Sub-partition pcb has been put into list k where the plan says. */
  ghost predicate SubNew(img: seq<byte>, img': seq<byte>, ls: seq<BlockList>, k: nat, size: nat, pcb: nat, ls': seq<BlockList>)
    requires 2 <= k < |ls|
  {
    var r := PlaceSub(SubAt(img, ls[k].kind.owner), SubParts(img, ls[k].nodes), size);
    && r.At? && r.index <= |ls[k].nodes| && pcb !in ls[k].nodes && ls' == ls[k := BlockList(ls[k].kind, WithNode(ls[k].nodes, r.index, pcb))]
    && SubParts(img', ls'[k].nodes) == Insert(SubParts(img, ls[k].nodes), r.index, r.part)
    && FreshSub(img', pcb, ls[k].kind.owner)
  }

  /** What find_gap sees of a partition inside the memory. */
  lemma MainInBytes(img: seq<byte>, nodes: seq<nat>, n: nat)
    requires n in nodes && Within(Parts(img, nodes), TOP)
    ensures SubAt(img, n).base < 256 && SubAt(img, n).size <= 255 && SubAt(img, n).End() <= 256
  {
    var i: nat :| i < |nodes| && nodes[i] == n;
    assert Parts(img, nodes)[i] == PartAt(img, n);
  }

  lemma SubEntered(p: SystemImage, tlist: nat, plist: nat, img: seq<byte>, s: PoolState, live': seq<Area>, ls: seq<BlockList>, k: nat, main: nat, size: byte, pcb: nat, nodes': seq<nat>)
    returns (ls': seq<BlockList>)
    requires Holds(img, PoolOf(p), s, ls, tlist, plist) && MainsOk(img, ls[1].nodes) && 2 <= k < |ls| && ls[k].kind == Subs(main) && main in ls[1].nodes
    requires ListOk(p, live', Subs(main), nodes') && FreshSub(p.image[..], pcb, main) && size > 0 && FieldsKept(img, p.image[..], ls[k].kind, ls[k].nodes)
    requires var r := PlaceSub(SubAt(img, main), SubParts(img, ls[k].nodes), size);
      && r.At? && r.index <= |ls[k].nodes| && pcb !in ls[k].nodes && nodes' == WithNode(ls[k].nodes, r.index, pcb)
      && SubParts(p.image[..], nodes') == Insert(SubParts(img, ls[k].nodes), r.index, r.part)
    requires AllocStep(s, Area(pcb, Round(PCBSZ)), PoolState(p.list, live'), p.lo, p.hi) && Wrote(img, p.image[..], p.head, s, PoolState(p.list, live'), ls[k])
    ensures SystemOk(p, tlist, plist, live', ls') && SubOutcome(img, p.image[..], ls, k, size, pcb, ls')
  {
    var r := PlaceSub(SubAt(img, main), SubParts(img, ls[k].nodes), size);
    ls' := ls[k := BlockList(ls[k].kind, nodes')];
    FromListOk(p, live', Subs(main), nodes');
    SubAdded(img, p.image[..], PoolOf(p), s, PoolState(p.list, live'), ls, tlist, plist, k, r.index, pcb);
    if PlanOk(img, ls) { PlanFixed(img, p.image[..], PoolOf(p), s, ls, tlist, plist, k, size, pcb); }
    AfterSub(img, p.image[..], PoolOf(p), s, ls, tlist, plist, k, r.index, pcb);
    RestAfter(img, p.image[..], PoolOf(p), s, ls, tlist, plist, k, ls[k].nodes, {});
  }

  lemma PlanFixed(img: seq<byte>, img': seq<byte>, at: PoolAt, s: PoolState, ls: seq<BlockList>, tlist: nat, plist: nat, k: nat, size: byte, pcb: nat)
    requires Holds(img, at, s, ls, tlist, plist) && 2 <= k < |ls| && OthersKept(img, img', ls, k) && PlanOk(img, ls) && size > 0
    requires var r := PlaceSub(SubAt(img, ls[k].kind.owner), SubParts(img, ls[k].nodes), size);
      r.At? && r.index <= |ls[k].nodes| && SubParts(img', WithNode(ls[k].nodes, r.index, pcb)) == Insert(SubParts(img, ls[k].nodes), r.index, r.part)
    ensures var r := PlaceSub(SubAt(img, ls[k].kind.owner), SubParts(img, ls[k].nodes), size);
      PlanOk(img', ls[k := BlockList(ls[k].kind, WithNode(ls[k].nodes, r.index, pcb))])
  {
    var m, subs := SubAt(img, ls[k].kind.owner), SubParts(img, ls[k].nodes);
    var r := PlaceSub(m, subs, size);
    MainInBytes(img, ls[1].nodes, ls[k].kind.owner);
    assert Inside(m, subs);
    SubIffRoom(m, subs, size);
    PlanWithSub(img, img', at, s, ls, tlist, plist, k, r.index, pcb, r.part);
  }

  lemma AfterSub(img: seq<byte>, img': seq<byte>, at: PoolAt, s: PoolState, ls: seq<BlockList>, tlist: nat, plist: nat, k: nat, i: nat, n: nat)
    requires Holds(img, at, s, ls, tlist, plist) && MainsOk(img, ls[1].nodes) && 2 <= k < |ls| && i <= |ls[k].nodes| && OthersKept(img, img', ls, k)
    ensures MainsOk(img', ls[1].nodes) && Stay(img, img', ls[0], 0)
    ensures OthersLead(img, ls, img', ls[k := BlockList(ls[k].kind, WithNode(ls[k].nodes, i, n))], 0)
  {
    assert BytesKept(img, img', ls[0], ls[k].kind.head) && BytesKept(img, img', ls[1], ls[k].kind.head);
    OthersStay(img, img', at, s, ls, tlist, plist, k, 0);
    OthersStay(img, img', at, s, ls, tlist, plist, k, 1);
    PartsPositive(img, at, s, ls, tlist, plist);
    MainsStay(img, img', ls[1], 0);
    forall j: nat | j < |ls[0].nodes|
      ensures SameTask(img, img', ls[0].nodes[j])
      ensures Leads(img, ls, ls[0].nodes[j]) ==> Leads(img', ls[k := BlockList(ls[k].kind, WithNode(ls[k].nodes, i, n))], ls[0].nodes[j])
    {
      TaskStays(img, img', ls[0], 0, j);
      LeadsWithSub(img, img', ls, k, i, n, ls[0].nodes[j]);
    }
  }

  /** What a new sub-partition, or none, means for all lists. */
  ghost predicate SubOutcome(img: seq<byte>, img': seq<byte>, ls: seq<BlockList>, k: nat, size: nat, pcb: nat, ls': seq<BlockList>)
    requires 2 <= k < |ls|
  {
    && |ls'| >= 2 && (PlanOk(img, ls) ==> PlanOk(img', ls')) && OthersLead(img, ls, img', ls', 0) && Stay(img, img', ls[0], 0)
    && (pcb > 0 ==> SubNew(img, img', ls, k, size, pcb, ls') && RestStays(img, img', ls, {}))
  }

  lemma NoSubOutcome(img: seq<byte>, ls: seq<BlockList>, k: nat, size: nat)
    requires 2 <= k < |ls|
    ensures SubOutcome(img, img, ls, k, size, 0, ls)
  {
  }

  /** A sub-partition for the task. */
  method ClaimSub(p: SystemImage, tlist: nat, plist: nat, main: nat, size: byte, ghost live: seq<Area>, ghost ls: seq<BlockList>, ghost k: nat)
    returns (pcb: nat, ghost live': seq<Area>, ghost ls': seq<BlockList>)
    requires SystemOk(p, tlist, plist, live, ls) && 2 <= k < |ls| && ls[k].kind == Subs(main) && main in ls[1].nodes && size > 0 && IsSystem(p.image[..], main)
    modifies p.image, p`list
    ensures SystemOk(p, tlist, plist, live', ls') && SubOutcome(old(p.image[..]), p.image[..], ls, k, size, pcb, ls')
    ensures pcb == 0 <==> NoRoomFor(old(p.image[..]), old(p.list), main, ls[k].nodes, size)
    ensures pcb == 0 ==> ls' == ls && live' == live && p.list == old(p.list) && p.image[..] == old(p.image[..])
    ensures pcb > 0 ==> live' == live + [Area(pcb, Round(PCBSZ))]
  {
    ghost var img, s := p.image[..], PoolState(p.list, live);
    ToListOk(p, tlist, plist, live, ls, k);
    ghost var nodes';
    pcb, live', nodes' := AllocSub(p, main, size, live, ls[k].nodes);
    ls' := ls;
    if pcb > 0 {
      ls' := SubEntered(p, tlist, plist, img, s, live', ls, k, main, size, pcb, nodes');
    } else {
      NoSubOutcome(img, ls, k, size);
    }
  }

  /** Of block n only fields at these offsets have changed, or its links. */
  ghost predicate PartOnly(img: seq<byte>, img': seq<byte>, n: nat, offs: set<nat>)
  {
    forall o: nat :: P_MAIN <= o < PCBSZ && !(P_SUB <= o < P_SUB + 2) && o !in offs ==> Field(img', n, o) == Field(img, n, o)
  }

  lemma PartOnlyOn(a: seq<byte>, b: seq<byte>, c: seq<byte>, n: nat, x: set<nat>, y: set<nat>)
    requires PartOnly(a, b, n, x) && PartOnly(b, c, n, y)
    ensures PartOnly(a, c, n, x + y)
  {
  }

  /** A partition that is not shared. */
  method ClaimMain(p: SystemImage, tlist: nat, plist: nat, main: nat, size: byte, ghost live: seq<Area>, ghost ls: seq<BlockList>, ghost m: nat) returns (ok: bool)
    requires SystemOk(p, tlist, plist, live, ls) && m < |ls[1].nodes| && main == ls[1].nodes[m] && !IsSystem(p.image[..], main)
    modifies p.image
    ensures SystemOk(p, tlist, plist, live, ls) && (PlanOk(old(p.image[..]), ls) ==> PlanOk(p.image[..], ls))
    ensures ok <==> !NoRoomFor(old(p.image[..]), p.list, main, [], size)
    ensures if ok then PartOnly(old(p.image[..]), p.image[..], main, {P_STAT}) && Field(p.image[..], main, P_STAT) == BUSY else p.image[..] == old(p.image[..])
    ensures RestStays(old(p.image[..]), p.image[..], ls, {main})
    ensures OthersLead(old(p.image[..]), ls, p.image[..], ls, 0) && Stay(old(p.image[..]), p.image[..], ls[0], 0)
  {
    ghost var img := p.image[..];
    ok := MainFits(p, main, size, tlist, plist, live, ls, m);
    MainPoked(img, img, PoolOf(p), PoolState(p.list, live), ls, tlist, plist, m);
    if !ok { return; }
    PokeByte(p, main, P_STAT, BUSY, tlist, plist, live, ls, 1, m);
    AllStayRest(img, p.image[..], ls, main);
    StayAt(img, p.image[..], ls, main, 0);
    MainPoked(img, p.image[..], PoolOf(p), PoolState(p.list, live), ls, tlist, plist, m);
  }

  method MainFits(p: SystemImage, main: nat, size: byte, ghost tlist: nat, ghost plist: nat, ghost live: seq<Area>, ghost ls: seq<BlockList>, ghost m: nat) returns (ok: bool)
    requires SystemOk(p, tlist, plist, live, ls) && m < |ls[1].nodes| && main == ls[1].nodes[m] && !IsSystem(p.image[..], main)
    ensures ok <==> !NoRoomFor(p.image[..], p.list, main, [], size)
  {
    ListedInside(p, tlist, plist, live, ls, 1, m);
    var stat := p.image[main + P_STAT];
    ok := And(stat, BUSY) == 0 && p.image[main + P_SIZE] >= size;
  }

  lemma MainPoked(img: seq<byte>, img': seq<byte>, at: PoolAt, s: PoolState, ls: seq<BlockList>, tlist: nat, plist: nat, m: nat)
    requires Holds(img, at, s, ls, tlist, plist) && m < |ls[1].nodes| && Stay(img, img', ls[0], ls[1].nodes[m])
    ensures OthersLead(img, ls, img', ls, 0) && Stay(img, img', ls[0], 0)
  {
    MainNoTask(img, at, s, ls, tlist, plist, m);
    PokeLeads(img, img', ls, tlist, plist, ls[1].nodes[m], 0);
  }

  /** A partition is no task. */
  lemma MainNoTask(img: seq<byte>, at: PoolAt, s: PoolState, ls: seq<BlockList>, tlist: nat, plist: nat, m: nat)
    requires Holds(img, at, s, ls, tlist, plist) && m < |ls[1].nodes|
    ensures ls[1].nodes[m] !in ls[0].nodes
  {
    assert ApartLists(ls[1], ls[0]);
  }

  // ---------------------------------------------------------------
  // The context block
  // ---------------------------------------------------------------

  /** CTX280SZ or CTX180SZ */
  function ContextSize(z280: bool): nat
  {
    if z280 then 111 else 83
  }

  /** What the pool writes when it allocates something else. */
  lemma OnlyPool(img: seq<byte>, img': seq<byte>, at: PoolAt, s: PoolState, b: Area, t: PoolState, ls: seq<BlockList>, tlist: nat, plist: nat)
    requires Holds(img, at, s, ls, tlist, plist) && AllocStep(s, b, t, at.lo, at.hi) && |img'| == |img|
    requires forall a: nat :: a < IMAGE_SIZE && Outside(at.head, s.free, a) ==> img'[a] == img[a]
    ensures Holds(img', at, t, ls, tlist, plist) && AllStay(img, img', ls, 0)
  {
    AllocKeepsPartition(s, b, t, at.lo, at.hi);
    forall k: nat | k < |ls| ensures ListIn(img', at.head, at.lo, at.hi, t, ls[k]) && Stay(img, img', ls[k], 0) {
      assert ListIn(img, at.head, at.lo, at.hi, s, ls[k]);
      ListKept(s, ls[k].kind, at.head, at.lo, at.hi, ls[k].nodes, img, img');
      PoolKeepsFields(s, ls[k].kind, at.head, at.lo, at.hi, ls[k].nodes, img, img');
      OwnStay(img, img', ls[k]);
    }
  }

  /** No list and no part of the pool's own list is among these bytes. */
  ghost predicate Unused(at: PoolAt, free: seq<Area>, ls: seq<BlockList>, a: nat, n: nat)
  {
    forall x: nat :: a <= x < a + n ==> Outside(at.head, free, x) && forall k: nat :: k < |ls| ==> !IsListByte(ls[k].kind, ls[k].nodes, x)
  }

  lemma UnusedWritten(img: seq<byte>, img': seq<byte>, at: PoolAt, s: PoolState, ls: seq<BlockList>, tlist: nat, plist: nat, a: nat, n: nat)
    requires Holds(img, at, s, ls, tlist, plist) && Stores(img, at.head, at.lo, at.hi, s.free) && Unused(at, s.free, ls, a, n)
    requires |img'| == |img| && forall x: nat :: x < |img| && !(a <= x < a + n) ==> img'[x] == img[x]
    ensures Holds(img', at, s, ls, tlist, plist) && Stores(img', at.head, at.lo, at.hi, s.free) && AllStay(img, img', ls, 0)
  {
    forall k: nat | k < |ls| ensures ListIn(img', at.head, at.lo, at.hi, s, ls[k]) && Stay(img, img', ls[k], 0) {
      assert ListIn(img, at.head, at.lo, at.hi, s, ls[k]);
      forall x: nat | a <= x < a + n ensures !IsListByte(ls[k].kind, ls[k].nodes, x) {
        assert Outside(at.head, s.free, x);
      }
      UnusedList(img, img', ls[k], a, n);
    }
    StoresKept(img, img', at.head, at.lo, at.hi, s.free);
  }

  lemma UnusedList(img: seq<byte>, img': seq<byte>, l: BlockList, a: nat, n: nat)
    requires Chain(img, l.kind, l.nodes) && l.kind.Ok() && |img'| == |img| && forall x: nat :: x < |img| && !(a <= x < a + n) ==> img'[x] == img[x]
    requires forall x: nat :: a <= x < a + n ==> !IsListByte(l.kind, l.nodes, x)
    ensures Chain(img', l.kind, l.nodes) && Stay(img, img', l, 0)
  {
    forall x: nat | IsListByte(l.kind, l.nodes, x) && x < |img| ensures img'[x] == img[x] {
    }
    forall i: nat, o: nat | i < |l.nodes| && o < l.kind.size ensures Field(img', l.nodes[i], o) == Field(img, l.nodes[i], o) {
      assert IsListByte(l.kind, l.nodes, l.nodes[i] + o);
    }
    forall i: nat | i <= |l.nodes| && CellOf(l.kind, l.nodes, i) + 2 <= |img| ensures Get16(img', CellOf(l.kind, l.nodes, i)) == Get16(img, CellOf(l.kind, l.nodes, i)) {
      if i > 0 { assert IsListByte(l.kind, l.nodes, l.nodes[i - 1] + l.kind.link) && IsListByte(l.kind, l.nodes, l.nodes[i - 1] + (l.kind.link + 1)); }
    }
    ChainKept(img, img', l.kind, l.nodes);
  }

  /** A live area that is no block of a list. */
  lemma AreaUnused(img: seq<byte>, at: PoolAt, s: PoolState, b: Area, t: PoolState, ls: seq<BlockList>, tlist: nat, plist: nat)
    requires Holds(img, at, s, ls, tlist, plist) && AllocStep(s, b, t, at.lo, at.hi)
    ensures Unused(at, t.free, ls, b.addr, b.size)
  {
    AllocKeepsPartition(s, b, t, at.lo, at.hi);
    BlockWasFree(s, b, t, at.head, at.lo, at.hi);
    assert t.live[|s.live|] == b;
    LiveIsOutside(t, at.head, at.lo, at.hi, |s.live|);
    forall x: nat, k: nat | b.addr <= x < b.addr + b.size && k < |ls| ensures In(b, x) && !IsListByte(ls[k].kind, ls[k].nodes, x) {
      assert ListIn(img, at.head, at.lo, at.hi, s, ls[k]);
      if IsListByte(ls[k].kind, ls[k].nodes, x) { ListByteOutside(s, ls[k].kind, at.head, at.lo, at.hi, ls[k].nodes, x); }
    }
    forall x: nat | b.addr <= x < b.addr + b.size ensures Outside(at.head, t.free, x) {
      assert In(b, x);
    }
  }

  lemma ListByteOutside(s: PoolState, c: Kind, head: nat, lo: nat, hi: nat, nodes: seq<nat>, x: nat)
    requires PoolRuns.Partition(s, lo, hi) && Pool.Placed(head, lo, hi) && c.Ok() && HeadApart(c, head, lo, hi) && Registered(c, s.live, nodes)
    requires IsListByte(c, nodes, x)
    ensures Outside(head, s.free, x)
  {
    ListOutside(s, c, head, lo, hi, nodes);
    if !(c.head <= x < c.head + 2) {
      var i: nat :| i < |nodes| && nodes[i] <= x < nodes[i] + c.size;
      assert Outside(head, s.free, x);
    }
  }

  /** The cells that the lists start from, and the pool, lie behind the first bytes of the image. */
  predicate Low(at: PoolAt, tlist: nat, plist: nat, n: nat)
  {
    n <= at.head && n <= at.lo && n <= tlist && n <= plist
  }

  lemma LowUnused(img: seq<byte>, at: PoolAt, s: PoolState, ls: seq<BlockList>, tlist: nat, plist: nat, n: nat)
    requires Holds(img, at, s, ls, tlist, plist) && Low(at, tlist, plist, n)
    ensures Unused(at, s.free, ls, 0, n)
  {
    forall x: nat, k: nat | x < n && k < |ls| ensures !IsListByte(ls[k].kind, ls[k].nodes, x) {
      assert ListIn(img, at.head, at.lo, at.hi, s, ls[k]);
      RegisteredSpread(ls[k].kind, s, at.head, at.lo, at.hi, ls[k].nodes);
      if k >= 2 { LiveInside(s, at.lo, at.hi, Area(ls[k].kind.owner, Round(PCBSZ))); }
    }
    forall x: nat | x < n ensures Outside(at.head, s.free, x) {
      FreeInPool(s, at.lo, at.hi, x);
    }
  }

  method ZeroFill(p: SystemImage, a: nat, n: nat)
    requires a + n <= p.image.Length
    modifies p.image
    ensures forall x: nat :: x < p.image.Length ==> p.image[x] == if a <= x < a + n then 0 else old(p.image[x])
  {
    var i := 0;
    while i < n
      invariant i <= n
      invariant forall x: nat :: x < p.image.Length ==> p.image[x] == if a <= x < a + i then 0 else old(p.image[x])
    {
      p.image[a + i] := 0;
      i := i + 1;
    }
  }

  // ---------------------------------------------------------------
  // fix_task
  // ---------------------------------------------------------------

  /** In the task list only fields of task t were written, and of these only the ones at offs. */
  ghost predicate TaskOnly(img: seq<byte>, img': seq<byte>, l: BlockList, t: nat, offs: set<nat>)
  {
    && Stay(img, img', l, t)
    && forall o: nat :: TaskLists.T_ATTR <= o < TaskLists.TCBSZ && o !in offs ==> Field(img', t, o) == Field(img, t, o)
  }

  lemma TaskOnlyOn(a: seq<byte>, b: seq<byte>, c: seq<byte>, l: BlockList, t: nat, x: set<nat>, y: set<nat>)
    requires TaskOnly(a, b, l, t, x) && TaskOnly(b, c, l, t, y)
    ensures TaskOnly(a, c, l, t, x + y)
  {
  }

  /** A write to something else. */
  lemma ElsewhereOnly(img: seq<byte>, img': seq<byte>, l: BlockList, n: nat, i: nat)
    requires Stay(img, img', l, n) && n !in l.nodes && i < |l.nodes| && l.kind.link == TaskLists.T_TCBL && l.kind.size == TaskLists.TCBSZ
    ensures TaskOnly(img, img', l, l.nodes[i], {})
  {
  }

  /** What stays of a task, in terms of its partition. */
  lemma OnlyTask(img: seq<byte>, img': seq<byte>, ls: seq<BlockList>, tlist: nat, plist: nat, t: nat, offs: set<nat>)
    requires Shape(ls, tlist, plist) && TaskOnly(img, img', ls[0], t, offs) && offs !! {TaskLists.T_PCB, TaskLists.T_PCB + 1}
    ensures PartOf(img', t) == PartOf(img, t) && OthersLead(img, ls, img', ls, t)
  {
    assert forall o: nat :: TaskLists.T_PCB <= o < TaskLists.T_PCB + 2 ==> o !in offs;
    PokeLeads(img, img', ls, tlist, plist, t, t);
  }

  /** Pages of a task: of its file, or of its address space. */
  function TaskPages(blocks: nat, end: nat): nat
  {
    var dsz, bsz := (blocks + 7) / 8, (end + 4095) / 4096;
    if dsz > bsz then dsz else bsz
  }

  /** task_size: 0 for a task without pages or with too many. */
  function TaskSize(blocks: nat, end: nat, z280: bool): (size: byte)
    ensures size <= 16
  {
    var n := TaskPages(blocks, end);
    if n > (if z280 then 16 else 15) then 0 else n
  }

  /** A task of that many blocks, which ends at that address, has room in n pages of 8 blocks. */
  predicate RoomIn(blocks: nat, end: nat, n: nat)
  {
    blocks <= 8 * n && end <= 4096 * n
  }

  /** Size n is the least number of pages that the task has room in; 0 for a task without pages, or one that
      has no room in the most pages that a task can have. */
  ghost predicate IsSize(blocks: nat, end: nat, z280: bool, n: nat)
  {
    var most := if z280 then 16 else 15;
    if n > 0 then n <= most && RoomIn(blocks, end, n) && forall m: nat :: m < n ==> !RoomIn(blocks, end, m)
    else RoomIn(blocks, end, 0) || !RoomIn(blocks, end, most)
  }

  /** It is what task_size yields, and nothing else is. */
  lemma SizeIs(blocks: nat, end: nat, z280: bool, n: nat)
    ensures IsSize(blocks, end, z280, n) <==> n == TaskSize(blocks, end, z280)
  {
    var pages := TaskPages(blocks, end);
    forall m: nat ensures RoomIn(blocks, end, m) <==> pages <= m {
      PagesOfBlocks(blocks, m);
      PagesOfBytes(end, m);
    }
    assert RoomIn(blocks, end, pages);
  }

  lemma PagesOfBlocks(blocks: nat, m: nat)
    ensures blocks <= 8 * m <==> (blocks + 7) / 8 <= m
  {
  }

  lemma PagesOfBytes(end: nat, m: nat)
    ensures end <= 4096 * m <==> (end + 4095) / 4096 <= m
  {
  }

  function SizeOf(img: seq<byte>, t: nat, z280: bool): byte
  {
    TaskSize(Word(img, t, TaskLists.T_NBLK), Word(img, t, TaskLists.T_END), z280)
  }

  /** The context block of task tcb, filled with zeros.  When the pool has no room for it, the zeros go to
      the first bytes of the image. */
  method MakeContext(p: SystemImage, tlist: nat, plist: nat, z280: bool, tcb: nat, ghost live: seq<Area>, ghost ls: seq<BlockList>, ghost i: nat)
    returns (ctx: nat, ghost live': seq<Area>)
    requires SystemOk(p, tlist, plist, live, ls) && i < |ls[0].nodes| && tcb == ls[0].nodes[i] && Low(PoolOf(p), tlist, plist, ContextSize(z280))
    modifies p.image, p`list
    ensures SystemOk(p, tlist, plist, live', ls) && AllStay(old(p.image[..]), p.image[..], ls, tcb) && PartsSame(old(p.image[..]), p.image[..], ls)
    ensures TaskOnly(old(p.image[..]), p.image[..], ls[0], tcb, {TaskLists.T_CTX, TaskLists.T_CTX + 1}) && Word(p.image[..], tcb, TaskLists.T_CTX) == ctx
    ensures ctx == 0 <==> forall b :: b in old(p.list) ==> b.size < Round(ContextSize(z280))
    ensures ctx == 0 ==> live' == live && p.list == old(p.list)
    ensures ctx > 0 ==> live' == live + [Area(ctx, Round(ContextSize(z280)))]
    ensures forall a: nat :: ctx <= a < ctx + ContextSize(z280) ==> a < p.image.Length && p.image[a] == 0
    ensures ctx == 0 ==> OnlyZeros(old(p.image[..]), p.image[..], tcb, if z280 then 111 else 83)
  {
    ghost var img := p.image[..];
    PartsPositive(img, PoolOf(p), PoolState(p.list, live), ls, tlist, plist);
    ctx, live' := AllocContext(p, tlist, plist, z280, live, ls);
    ghost var img1 := p.image[..];
    PokeWord(p, tcb, TaskLists.T_CTX, ctx, tlist, plist, live', ls, 0, i);
    ghost var img2 := p.image[..];
    FillContext(p, tlist, plist, z280, ctx, live', ls);
    ContextSteps(img, img1, img2, p.image[..], ls, tlist, plist, tcb, i);
    if ctx == 0 { ZerosInFront(img, img2, p.image[..], tcb, ContextSize(z280)); }
  }

  /** Besides the pointer of the task, only the first n bytes of the image have changed. */
  ghost predicate OnlyZeros(img: seq<byte>, img': seq<byte>, t: nat, n: nat)
  {
    |img'| == |img| && forall a: nat :: n <= a < |img| && !(t + TaskLists.T_CTX <= a < t + TaskLists.T_CTX + 2) ==> img'[a] == img[a]
  }

  lemma ZerosInFront(img: seq<byte>, img1: seq<byte>, img2: seq<byte>, t: nat, n: nat)
    requires Scribbled(img, img1, t, {TaskLists.T_CTX, TaskLists.T_CTX + 1}) && |img2| == |img1| && forall a: nat :: n <= a < |img1| ==> img2[a] == img1[a]
    ensures OnlyZeros(img, img2, t, n)
  {
  }

  lemma ContextSteps(img: seq<byte>, img1: seq<byte>, img2: seq<byte>, img3: seq<byte>, ls: seq<BlockList>, tlist: nat, plist: nat, tcb: nat, i: nat)
    requires Shape(ls, tlist, plist) && i < |ls[0].nodes| && ls[0].nodes[i] == tcb && forall m: nat, j: nat :: m < |ls| && j < |ls[m].nodes| ==> ls[m].nodes[j] > 0
    requires AllStay(img, img1, ls, 0) && AllStay(img2, img3, ls, 0) && Poked(img1, img2, ls, tcb, {TaskLists.T_CTX, TaskLists.T_CTX + 1})
    ensures AllStay(img, img3, ls, tcb) && PartsSame(img, img3, ls)
    ensures TaskOnly(img, img3, ls[0], tcb, {TaskLists.T_CTX, TaskLists.T_CTX + 1}) && Word(img3, tcb, TaskLists.T_CTX) == Word(img2, tcb, TaskLists.T_CTX)
  {
    StayPartsSame(img, img1, ls, tlist, plist, 0);
    StayPartsSame(img2, img3, ls, tlist, plist, 0);
    PartsSameOn(img, img1, img2, ls);
    PartsSameOn(img, img2, img3, ls);
    forall m: nat | m < |ls| ensures Stay(img, img3, ls[m], tcb) {
      StayAt(img, img1, ls, 0, m);
      StayAt(img1, img2, ls, tcb, m);
      StayAt(img2, img3, ls, 0, m);
    }
    StayAt(img, img1, ls, 0, 0);
    StayAt(img2, img3, ls, 0, 0);
    ElsewhereOnly(img, img1, ls[0], 0, i);
    ElsewhereOnly(img2, img3, ls[0], 0, i);
  }

  lemma AreaTaken(img: seq<byte>, img': seq<byte>, at: PoolAt, s: PoolState, b: Area, t: PoolState, ls: seq<BlockList>, tlist: nat, plist: nat)
    requires Holds(img, at, s, ls, tlist, plist) && MainsOk(img, ls[1].nodes) && AllocStep(s, b, t, at.lo, at.hi) && |img'| == |img|
    requires forall a: nat :: a < IMAGE_SIZE && Outside(at.head, s.free, a) ==> img'[a] == img[a]
    ensures Holds(img', at, t, ls, tlist, plist) && AllStay(img, img', ls, 0) && MainsOk(img', ls[1].nodes) && Unused(at, t.free, ls, b.addr, b.size)
  {
    OnlyPool(img, img', at, s, b, t, ls, tlist, plist);
    AreaUnused(img, at, s, b, t, ls, tlist, plist);
    PartsPositive(img, at, s, ls, tlist, plist);
    StayAt(img, img', ls, 0, 1);
    MainsStay(img, img', ls[1], 0);
  }

  /** pool_alloc of the context block. */
  method AllocContext(p: SystemImage, tlist: nat, plist: nat, z280: bool, ghost live: seq<Area>, ghost ls: seq<BlockList>) returns (ctx: nat, ghost live': seq<Area>)
    requires SystemOk(p, tlist, plist, live, ls) && Low(PoolOf(p), tlist, plist, ContextSize(z280))
    modifies p.image, p`list
    ensures SystemOk(p, tlist, plist, live', ls) && AllStay(old(p.image[..]), p.image[..], ls, 0) && ctx < 0x1_0000
    ensures ctx == 0 <==> forall b :: b in old(p.list) ==> b.size < Round(ContextSize(z280))
    ensures ctx == 0 ==> live' == live && p.list == old(p.list) && p.image[..] == old(p.image[..])
    ensures ctx > 0 ==> live' == live + [Area(ctx, Round(ContextSize(z280)))]
    ensures Unused(PoolOf(p), p.list, ls, ctx, ContextSize(z280))
  {
    ghost var img, s := p.image[..], PoolState(p.list, live);
    ctx, live' := AllocLive(p, ContextSize(z280), live);
    if ctx > 0 {
      ghost var b, t := Area(ctx, Round(ContextSize(z280))), PoolState(p.list, live');
      AreaTaken(img, p.image[..], PoolOf(p), s, b, t, ls, tlist, plist);
      LiveInside(t, p.lo, p.hi, b);
    } else {
      NothingMoved(img, ls, 0);
      LowUnused(img, PoolOf(p), s, ls, tlist, plist, ContextSize(z280));
    }
  }

  method FillContext(p: SystemImage, tlist: nat, plist: nat, z280: bool, ctx: nat, ghost live: seq<Area>, ghost ls: seq<BlockList>)
    requires SystemOk(p, tlist, plist, live, ls) && Unused(PoolOf(p), p.list, ls, ctx, ContextSize(z280)) && ctx < 0x1_0000
    modifies p.image
    ensures SystemOk(p, tlist, plist, live, ls) && AllStay(old(p.image[..]), p.image[..], ls, 0)
    ensures forall a: nat :: ctx <= a < ctx + ContextSize(z280) ==> a < p.image.Length && p.image[a] == 0
    ensures forall a: nat :: ctx + ContextSize(z280) <= a < p.image.Length ==> p.image[a] == old(p.image[a])
  {
    ghost var img, s := p.image[..], PoolState(p.list, live);
    ZeroFill(p, ctx, ContextSize(z280));
    UnusedWritten(img, p.image[..], PoolOf(p), s, ls, tlist, plist, ctx, ContextSize(z280));
    PartsPositive(img, PoolOf(p), s, ls, tlist, plist);
    StayAt(img, p.image[..], ls, 0, 1);
    MainsStay(img, p.image[..], ls[1], 0);
  }

  /** attr | (1 << TA_FIX) */
  lemma WithFixed(a: byte)
    ensures Or(a, TaskLists.FIXED) < 256 && And(Or(a, TaskLists.FIXED), TaskLists.FIXED) != 0
  {
    Pow2Is8();
    MaskOperators(a, 3);
    WithDigitBound(a, 3, true, 8);
    MaskOperators(WithDigit(a, 3, true), 3);
    WithDigitDigit(a, 3, true, 3);
  }

  lemma Pow2Is8()
    ensures Pow2(3) == TaskLists.FIXED && Pow2(8) == 256
  {
    Pow2Of8();
    assert Pow2(1) == 2;
  }

  /** The only change of its attributes is the mark of a fixed task. */
  ghost predicate Marked(img: seq<byte>, img': seq<byte>, t: nat)
  {
    Field(img', t, TaskLists.T_ATTR) == Or(Field(img, t, TaskLists.T_ATTR), TaskLists.FIXED) && Fixed(img', t)
  }

  /** Of the task, its partition, its context block and its attributes have changed; of the partition, the
      owner; and of all other blocks nothing. */
  ghost predicate SettledOnly(img: seq<byte>, img': seq<byte>, ls: seq<BlockList>, t: nat, pcb: nat)
    requires |ls| > 0
  {
    && TaskOnly(img, img', ls[0], t, {TaskLists.T_PCB, TaskLists.T_PCB + 1} + {TaskLists.T_CTX, TaskLists.T_CTX + 1} + {TaskLists.T_ATTR})
    && PartOnly(img, img', pcb, {P_TCB, P_TCB + 1}) && RestStays(img, img', ls, {t, pcb})
  }

  /** Task and block belong together, and all other tasks lead where they did. */
  ghost predicate SettledAs(img: seq<byte>, img': seq<byte>, ls: seq<BlockList>, t: nat, pcb: nat, ctx: nat)
    requires |ls| >= 2
  {
    && PartsSame(img, img', ls) && OthersLead(img, ls, img', ls, t) && SettledOnly(img, img', ls, t, pcb)
    && PartOf(img', t) == pcb && Word(img', pcb, P_TCB) == t && Word(img', t, TaskLists.T_CTX) == ctx && Marked(img, img', t)
  }

  /** What the task gets: its new partition, its owner, a context block, and the mark. */
  method Settle(p: SystemImage, tlist: nat, plist: nat, z280: bool, tcb: nat, pcb: nat, ghost live: seq<Area>, ghost ls: seq<BlockList>, ghost i: nat, ghost k: nat, ghost j: nat)
    returns (ctx: nat, ghost live': seq<Area>)
    requires SystemOk(p, tlist, plist, live, ls) && i < |ls[0].nodes| && tcb == ls[0].nodes[i] && Low(PoolOf(p), tlist, plist, ContextSize(z280))
    requires 1 <= k < |ls| && j < |ls[k].nodes| && pcb == ls[k].nodes[j]
    modifies p.image, p`list
    ensures SystemOk(p, tlist, plist, live', ls) && SettledAs(old(p.image[..]), p.image[..], ls, tcb, pcb, ctx)
    ensures live' == if ctx > 0 then live + [Area(ctx, Round(ContextSize(z280)))] else live
    ensures ctx == 0 <==> forall b :: b in old(p.list) ==> b.size < Round(ContextSize(z280))
    ensures ctx == 0 ==> p.list == old(p.list)
  {
    ghost var img := p.image[..];
    PairUp(p, tlist, plist, tcb, pcb, live, ls, i, k, j);
    ghost var img1 := p.image[..];
    ctx, live' := MakeContext(p, tlist, plist, z280, tcb, live, ls, i);
    ghost var img2 := p.image[..];
    ListedInside(p, tlist, plist, live', ls, 0, i);
    var attr := p.image[tcb + TaskLists.T_ATTR];
    WithFixed(attr);
    PokeByte(p, tcb, TaskLists.T_ATTR, Or(attr, TaskLists.FIXED), tlist, plist, live', ls, 0, i);
    SettleSteps(img, img1, img2, p.image[..], ls, tlist, plist, tcb, pcb, i, k, j, ctx);
  }

  /** The task names the block, the block the task, and nothing else has changed. */
  ghost predicate Paired(img: seq<byte>, img': seq<byte>, ls: seq<BlockList>, tcb: nat, pcb: nat)
    requires |ls| > 0
  {
    && PartsSame(img, img', ls) && pcb !in ls[0].nodes && pcb != tcb && PartOf(img', tcb) == pcb && Word(img', pcb, P_TCB) == tcb
    && TaskOnly(img, img', ls[0], tcb, {TaskLists.T_PCB, TaskLists.T_PCB + 1}) && PartOnly(img, img', pcb, {P_TCB, P_TCB + 1})
    && RestStays(img, img', ls, {tcb, pcb})
  }

  method PairUp(p: SystemImage, tlist: nat, plist: nat, tcb: nat, pcb: nat, ghost live: seq<Area>, ghost ls: seq<BlockList>, ghost i: nat, ghost k: nat, ghost j: nat)
    requires SystemOk(p, tlist, plist, live, ls) && i < |ls[0].nodes| && tcb == ls[0].nodes[i]
    requires 1 <= k < |ls| && j < |ls[k].nodes| && pcb == ls[k].nodes[j]
    modifies p.image
    ensures SystemOk(p, tlist, plist, live, ls) && Paired(old(p.image[..]), p.image[..], ls, tcb, pcb)
  {
    ghost var img := p.image[..];
    ListedInside(p, tlist, plist, live, ls, 0, i);
    ListedInside(p, tlist, plist, live, ls, k, j);
    BlockNoTask(img, PoolOf(p), PoolState(p.list, live), ls, tlist, plist, k, j);
    PokeWord(p, tcb, TaskLists.T_PCB, pcb, tlist, plist, live, ls, 0, i);
    ghost var img1 := p.image[..];
    assert ls[0].nodes[i] == tcb;
    OwnerField(ls, tlist, plist, k);
    PokeWord(p, pcb, P_TCB, tcb, tlist, plist, live, ls, k, j);
    PairSteps(img, img1, p.image[..], ls, tlist, plist, tcb, pcb, i, k, j);
  }

  /** The owner of a partition is one of its fields, and no plan depends on it. */
  lemma OwnerField(ls: seq<BlockList>, tlist: nat, plist: nat, k: nat)
    requires Shape(ls, tlist, plist) && 1 <= k < |ls|
    ensures P_TCB + 1 < ls[k].kind.size && Harmless(k, {P_TCB, P_TCB + 1})
  {
  }

  lemma BlockNoTask(img: seq<byte>, at: PoolAt, s: PoolState, ls: seq<BlockList>, tlist: nat, plist: nat, k: nat, j: nat)
    requires Holds(img, at, s, ls, tlist, plist) && 1 <= k < |ls| && j < |ls[k].nodes|
    ensures ls[k].nodes[j] !in ls[0].nodes
  {
    assert ApartLists(ls[k], ls[0]);
  }

  lemma PairSteps(img: seq<byte>, img1: seq<byte>, img2: seq<byte>, ls: seq<BlockList>, tlist: nat, plist: nat, tcb: nat, pcb: nat, i: nat, k: nat, j: nat)
    requires Shape(ls, tlist, plist) && i < |ls[0].nodes| && tcb == ls[0].nodes[i] && 1 <= k < |ls| && j < |ls[k].nodes| && pcb == ls[k].nodes[j] && pcb !in ls[0].nodes
    requires Poked(img, img1, ls, tcb, {TaskLists.T_PCB, TaskLists.T_PCB + 1}) && Poked(img1, img2, ls, pcb, {P_TCB, P_TCB + 1}) && PartOf(img1, tcb) == pcb
    requires Word(img2, pcb, P_TCB) == tcb
    ensures Paired(img, img2, ls, tcb, pcb)
  {
    assert StayKey(0);
    PartsSameOn(img, img1, img2, ls);
    TaskNamesBlock(img, img1, img2, ls, tcb, pcb, i);
    StayPartOnly(img, img1, ls[k], tcb, j);
    assert PartOnly(img1, img2, pcb, {P_TCB, P_TCB + 1});
    PartOnlyOn(img, img1, img2, pcb, {}, {P_TCB, P_TCB + 1});
    AllStayRest(img, img1, ls, tcb);
    AllStayRest(img1, img2, ls, pcb);
    RestOn(img, img1, img2, ls, {tcb}, {pcb});
  }

  /** The fields of a partition when another block was written to. */
  lemma StayPartOnly(img: seq<byte>, img': seq<byte>, l: BlockList, n: nat, j: nat)
    requires Stay(img, img', l, n) && IsPartKind(l.kind) && j < |l.nodes| && l.nodes[j] != n
    ensures PartOnly(img, img', l.nodes[j], {})
  {
  }

  lemma AllStayRest(img: seq<byte>, img': seq<byte>, ls: seq<BlockList>, n: nat)
    requires AllStay(img, img', ls, n)
    ensures RestStays(img, img', ls, {n})
  {
    assert StayKey(0);
    forall m: nat, i: nat, o: nat | m < |ls| && i < |ls[m].nodes| && ls[m].nodes[i] != n && o < ls[m].kind.size
      && !(ls[m].kind.link <= o < ls[m].kind.link + 2) && !(P_SUB <= o < P_SUB + 2)
      ensures Field(img', ls[m].nodes[i], o) == Field(img, ls[m].nodes[i], o)
    {
      assert Stay(img, img', ls[m], n);
    }
  }

  lemma TaskNamesBlock(img: seq<byte>, img1: seq<byte>, img2: seq<byte>, ls: seq<BlockList>, tcb: nat, pcb: nat, i: nat)
    requires |ls| > 0 && i < |ls[0].nodes| && tcb == ls[0].nodes[i] && pcb !in ls[0].nodes && ls[0].kind.link == TaskLists.T_TCBL && ls[0].kind.size == TaskLists.TCBSZ
    requires Poked(img, img1, ls, tcb, {TaskLists.T_PCB, TaskLists.T_PCB + 1}) && Stay(img1, img2, ls[0], pcb) && PartOf(img1, tcb) == pcb
    ensures TaskOnly(img, img2, ls[0], tcb, {TaskLists.T_PCB, TaskLists.T_PCB + 1}) && PartOf(img2, tcb) == pcb
  {
    assert StayKey(0);
    ElsewhereOnly(img1, img2, ls[0], pcb, i);
    assert Stay(img, img1, ls[0], tcb);
    assert TaskOnly(img, img1, ls[0], tcb, {TaskLists.T_PCB, TaskLists.T_PCB + 1});
    assert Field(img2, tcb, TaskLists.T_PCB) == Field(img1, tcb, TaskLists.T_PCB) && Field(img2, tcb, TaskLists.T_PCB + 1) == Field(img1, tcb, TaskLists.T_PCB + 1);
  }

  lemma SettleSteps(img: seq<byte>, img1: seq<byte>, img2: seq<byte>, img3: seq<byte>, ls: seq<BlockList>, tlist: nat, plist: nat, tcb: nat, pcb: nat, i: nat, k: nat, j: nat, ctx: nat)
    requires Shape(ls, tlist, plist) && i < |ls[0].nodes| && tcb == ls[0].nodes[i] && 1 <= k < |ls| && j < |ls[k].nodes| && pcb == ls[k].nodes[j]
    requires Paired(img, img1, ls, tcb, pcb) && Poked(img2, img3, ls, tcb, {TaskLists.T_ATTR}) && Marked(img2, img3, tcb) && Word(img2, tcb, TaskLists.T_CTX) == ctx
    requires PartsSame(img1, img2, ls) && AllStay(img1, img2, ls, tcb) && TaskOnly(img1, img2, ls[0], tcb, {TaskLists.T_CTX, TaskLists.T_CTX + 1})
    ensures SettledAs(img, img3, ls, tcb, pcb, ctx)
  {
    assert StayKey(0);
    PartsSameOn(img, img1, img2, ls);
    PartsSameOn(img, img2, img3, ls);
    assert Stay(img2, img3, ls[0], tcb) && TaskOnly(img2, img3, ls[0], tcb, {TaskLists.T_ATTR});
    LeadSteps(img, img1, img2, img3, ls, tlist, plist, tcb);
    assert Stay(img1, img2, ls[k], tcb) && Stay(img2, img3, ls[k], tcb);
    StillOwner(img1, img2, img3, ls[k], tcb, pcb, j);
    PartOnlyOn(img, img1, img3, pcb, {P_TCB, P_TCB + 1}, {});
    AllStayRest(img1, img2, ls, tcb);
    AllStayRest(img2, img3, ls, tcb);
    RestOn(img, img1, img2, ls, {tcb, pcb}, {tcb});
    RestOn(img, img2, img3, ls, {tcb, pcb} + {tcb}, {tcb});
    assert {tcb, pcb} + {tcb} + {tcb} == {tcb, pcb};
    TaskSteps(img, img1, img2, img3, ls[0], tcb);
    assert forall o: nat :: TaskLists.T_CTX <= o < TaskLists.T_CTX + 2 ==> Field(img3, tcb, o) == Field(img2, tcb, o);
  }

  lemma TaskSteps(img: seq<byte>, img1: seq<byte>, img2: seq<byte>, img3: seq<byte>, l: BlockList, tcb: nat)
    requires TaskOnly(img, img1, l, tcb, {TaskLists.T_PCB, TaskLists.T_PCB + 1})
    requires TaskOnly(img1, img2, l, tcb, {TaskLists.T_CTX, TaskLists.T_CTX + 1}) && TaskOnly(img2, img3, l, tcb, {TaskLists.T_ATTR})
    ensures TaskOnly(img, img3, l, tcb, {TaskLists.T_PCB, TaskLists.T_PCB + 1} + {TaskLists.T_CTX, TaskLists.T_CTX + 1} + {TaskLists.T_ATTR})
    ensures Field(img2, tcb, TaskLists.T_ATTR) == Field(img, tcb, TaskLists.T_ATTR)
  {
    TaskOnlyOn(img, img1, img2, l, tcb, {TaskLists.T_PCB, TaskLists.T_PCB + 1}, {TaskLists.T_CTX, TaskLists.T_CTX + 1});
    TaskOnlyOn(img, img2, img3, l, tcb, {TaskLists.T_PCB, TaskLists.T_PCB + 1} + {TaskLists.T_CTX, TaskLists.T_CTX + 1}, {TaskLists.T_ATTR});
  }

  lemma LeadSteps(img: seq<byte>, img1: seq<byte>, img2: seq<byte>, img3: seq<byte>, ls: seq<BlockList>, tlist: nat, plist: nat, tcb: nat)
    requires Shape(ls, tlist, plist) && TaskOnly(img, img1, ls[0], tcb, {TaskLists.T_PCB, TaskLists.T_PCB + 1})
    requires TaskOnly(img1, img2, ls[0], tcb, {TaskLists.T_CTX, TaskLists.T_CTX + 1}) && TaskOnly(img2, img3, ls[0], tcb, {TaskLists.T_ATTR})
    ensures OthersLead(img, ls, img3, ls, tcb) && PartOf(img3, tcb) == PartOf(img1, tcb)
  {
    PokeLeads(img, img1, ls, tlist, plist, tcb, tcb);
    OnlyTask(img1, img2, ls, tlist, plist, tcb, {TaskLists.T_CTX, TaskLists.T_CTX + 1});
    OnlyTask(img2, img3, ls, tlist, plist, tcb, {TaskLists.T_ATTR});
    OthersLeadOn(img, ls, img1, ls, img2, ls, tcb);
    OthersLeadOn(img, ls, img2, ls, img3, ls, tcb);
  }

  /** Owner and status of the block when only the task was written to. */
  lemma StillOwner(img1: seq<byte>, img2: seq<byte>, img3: seq<byte>, l: BlockList, tcb: nat, pcb: nat, j: nat)
    requires j < |l.nodes| && pcb == l.nodes[j] && pcb != tcb && IsPartKind(l.kind) && Stay(img1, img2, l, tcb) && Stay(img2, img3, l, tcb)
    ensures Word(img3, pcb, P_TCB) == Word(img1, pcb, P_TCB) && PartOnly(img1, img3, pcb, {})
  {
    StayPartOnly(img1, img2, l, tcb, j);
    StayPartOnly(img2, img3, l, tcb, j);
  }

  // ---------------------------------------------------------------
  // The command
  // ---------------------------------------------------------------

  /** The size of a task is what its fields ask for. */
  ghost predicate HasSize(img: seq<byte>, t: nat, z280: bool)
  {
    IsSize(Word(img, t, TaskLists.T_NBLK), Word(img, t, TaskLists.T_END), z280, SizeOf(img, t, z280))
  }

  /** What has been allocated for the task: a block for its sub-partition, if it has one of its own, and a
      context block, unless there is no room left for it. */
  ghost predicate Allocated(s: PoolState, t: PoolState, sub: bool, pcb: nat, ctx: nat, z280: bool)
  {
    && t.live == s.live + (if sub then [Area(pcb, Round(PCBSZ))] else []) + (if ctx > 0 then [Area(ctx, if z280 then 112 else 84)] else [])
    && (ctx == 0 ==> forall b :: b in t.free ==> b.size < if z280 then 112 else 84)
  }

  /** The task of that name, or 0. */
  ghost function TaskNamed(img: seq<byte>, ls: seq<BlockList>, name: seq<byte>): nat
    requires |ls| >= 2
  {
    NodeAt(ls[0].nodes, Named(img, ls[0].nodes, name, |ls[0].nodes|))
  }

  /** FIX goes as far as looking for the task's partition. */
  ghost predicate Looks(img: seq<byte>, ls: seq<BlockList>, name: seq<byte>, z280: bool)
    requires |ls| >= 2
  {
    var t := TaskNamed(img, ls, name); t != 0 && !Fixed(img, t) && SizeOf(img, t, z280) > 0
  }

  /** What FIX relies on: the task that it is to fix names a main partition that is listed. */
  ghost predicate Follows(img: seq<byte>, ls: seq<BlockList>, name: seq<byte>, z280: bool)
    requires |ls| >= 2
  {
    Looks(img, ls, name, z280) ==> PartOf(img, TaskNamed(img, ls, name)) in ls[1].nodes
  }

  /** A new sub-partition in list k, or the partition itself, which is busy now. */
  ghost predicate Claimed(img: seq<byte>, img': seq<byte>, ls: seq<BlockList>, main: nat, size: nat, k: nat, pcb: nat, ls': seq<BlockList>)
    requires 2 <= k < |ls|
  {
    if IsSystem(img, main) then SubNew(img, img', ls, k, size, pcb, ls')
    else pcb == main && ls' == ls && Field(img', main, P_STAT) == BUSY && PartOnly(img, img', main, {P_STAT, P_TCB, P_TCB + 1})
  }

  /** The task has the pages and is marked, and the other tasks lead where they did. */
  ghost predicate NowFixed(img: seq<byte>, img': seq<byte>, ls: seq<BlockList>, name: seq<byte>, z280: bool, k: nat, pcb: nat, ls': seq<BlockList>)
    requires |ls| >= 2
  {
    2 <= k < |ls| && |ls'| >= 2 && var t := TaskNamed(img, ls, name);
    var main := PartOf(img, t);
    && ls[k].kind == Subs(main) && Claimed(img, img', ls, main, SizeOf(img, t, z280), k, pcb, ls')
    && PartOf(img', t) == pcb && Marked(img, img', t) && Word(img', pcb, P_TCB) == t
    && TaskOnly(img, img', ls[0], t, {TaskLists.T_PCB, TaskLists.T_PCB + 1} + {TaskLists.T_CTX, TaskLists.T_CTX + 1} + {TaskLists.T_ATTR})
    && OthersLead(img, ls, img', ls', t) && Leads(img', ls', t) && RestStays(img, img', ls, {t, pcb})
  }

  /** There is room for the task in its partition; list k is that of the partition's sub-partitions. */
  ghost predicate HasRoom(img: seq<byte>, list: seq<Area>, ls: seq<BlockList>, name: seq<byte>, z280: bool, k: nat)
    requires |ls| >= 2 && k < |ls|
  {
    var t := TaskNamed(img, ls, name); !NoRoomFor(img, list, PartOf(img, t), ls[k].nodes, SizeOf(img, t, z280))
  }

  /** The pages, and the block that stands for them. */
  method ClaimPages(p: SystemImage, tlist: nat, plist: nat, main: nat, size: byte, ghost live: seq<Area>, ghost ls: seq<BlockList>, ghost m: nat, ghost k: nat)
    returns (pcb: nat, ghost live': seq<Area>, ghost ls': seq<BlockList>)
    requires SystemOk(p, tlist, plist, live, ls) && m < |ls[1].nodes| && main == ls[1].nodes[m] && 2 <= k < |ls| && ls[k].kind == Subs(main) && size > 0
    modifies p.image, p`list
    ensures SystemOk(p, tlist, plist, live', ls') && (PlanOk(old(p.image[..]), ls) ==> PlanOk(p.image[..], ls'))
    ensures pcb == 0 <==> NoRoomFor(old(p.image[..]), old(p.list), main, ls[k].nodes, size)
    ensures pcb == 0 ==> ls' == ls && live' == live && p.list == old(p.list) && p.image[..] == old(p.image[..])
    ensures pcb > 0 ==> Claimed(old(p.image[..]), p.image[..], ls, main, size, k, pcb, ls') && RestStays(old(p.image[..]), p.image[..], ls, {pcb})
    ensures pcb > 0 ==> live' == if IsSystem(old(p.image[..]), main) then live + [Area(pcb, Round(PCBSZ))] else live
    ensures OthersLead(old(p.image[..]), ls, p.image[..], ls', 0) && Stay(old(p.image[..]), p.image[..], ls[0], 0)
  {
    var sys := SystemControlled(p, main, tlist, plist, live, ls, m);
    if sys {
      pcb, live', ls' := ClaimSub(p, tlist, plist, main, size, live, ls, k);
    } else {
      live', ls' := live, ls;
      var ok := ClaimMain(p, tlist, plist, main, size, live, ls, m);
      pcb := if ok then main else 0;
    }
  }

  method SystemControlled(p: SystemImage, main: nat, ghost tlist: nat, ghost plist: nat, ghost live: seq<Area>, ghost ls: seq<BlockList>, ghost m: nat) returns (sys: bool)
    requires SystemOk(p, tlist, plist, live, ls) && m < |ls[1].nodes| && main == ls[1].nodes[m]
    ensures sys == IsSystem(p.image[..], main) && main > 0
  {
    ListedInside(p, tlist, plist, live, ls, 1, m);
    sys := And(p.image[main + P_ATTR], SYSTEM) != 0;
  }

  /** Where the block is listed. */
  lemma ClaimedAt(img: seq<byte>, img': seq<byte>, ls: seq<BlockList>, main: nat, size: nat, m: nat, k: nat, pcb: nat, ls': seq<BlockList>) returns (y: nat, j: nat)
    requires 2 <= k < |ls| && m < |ls[1].nodes| && main == ls[1].nodes[m] && Claimed(img, img', ls, main, size, k, pcb, ls')
    ensures 1 <= y < |ls'| && j < |ls'[y].nodes| && ls'[y].nodes[j] == pcb && (y == 1 <==> !IsSystem(img, main))
  {
    y, j := 1, m;
    if IsSystem(img, main) { y, j := k, PlaceSub(SubAt(img, ls[k].kind.owner), SubParts(img, ls[k].nodes), size).index; }
  }

  /** find_task */
  method FindTaskBlock(p: SystemImage, tlist: nat, name: seq<byte>, ghost plist: nat, ghost live: seq<Area>, ghost ls: seq<BlockList>) returns (tcb: nat, ghost i: nat)
    requires SystemOk(p, tlist, plist, live, ls)
    ensures tcb == TaskNamed(p.image[..], ls, name) && (tcb > 0 ==> i < |ls[0].nodes| && tcb == ls[0].nodes[i])
  {
    ToListOk(p, tlist, plist, live, ls, 0);
    var prev;
    prev, tcb, i := FindNamed(p, TaskLists.Tasks(tlist), name, live, ls[0].nodes);
    CellFacts(p.image[..], TaskLists.Tasks(tlist), ls[0].nodes, i);
  }

  /** The mark, and task_size; 0 for a task that cannot be fixed. */
  method ReadSize(p: SystemImage, tlist: nat, tcb: nat, z280: bool, ghost plist: nat, ghost live: seq<Area>, ghost ls: seq<BlockList>, ghost i: nat) returns (size: byte)
    requires SystemOk(p, tlist, plist, live, ls) && i < |ls[0].nodes| && tcb == ls[0].nodes[i]
    ensures size == if Fixed(p.image[..], tcb) then 0 else SizeOf(p.image[..], tcb, z280)
  {
    var c := TaskLists.Tasks(tlist);
    ToListOk(p, tlist, plist, live, ls, 0);
    ListedInside(p, tlist, plist, live, ls, 0, i);
    if And(p.image[tcb + TaskLists.T_ATTR], TaskLists.FIXED) != 0 { return 0; }
    var blocks := GetWord(p, c, TaskLists.T_NBLK, tcb, live, ls[0].nodes, i);
    var end := GetWord(p, c, TaskLists.T_END, tcb, live, ls[0].nodes, i);
    size := TaskSize(blocks, end, z280);
  }

  /** The main partition of a task. */
  method ReadMain(p: SystemImage, tlist: nat, plist: nat, tcb: nat, ghost live: seq<Area>, ghost ls: seq<BlockList>, ghost i: nat) returns (main: nat, ghost m: nat)
    requires SystemOk(p, tlist, plist, live, ls) && i < |ls[0].nodes| && tcb == ls[0].nodes[i] && PartOf(p.image[..], tcb) in ls[1].nodes
    ensures m < |ls[1].nodes| && main == ls[1].nodes[m] == PartOf(p.image[..], tcb)
  {
    ToListOk(p, tlist, plist, live, ls, 0);
    var pcb := GetWord(p, TaskLists.Tasks(tlist), TaskLists.T_PCB, tcb, live, ls[0].nodes, i);
    m :| m < |ls[1].nodes| && ls[1].nodes[m] == PartOf(p.image[..], tcb);
    ToListOk(p, tlist, plist, live, ls, 1);
    main := GetWord(p, Mains(plist), P_MAIN, pcb, live, ls[1].nodes, m);
  }

  /** What FIX does, or why it does nothing; list k is that of the sub-partitions of the task's partition. */
  ghost predicate FixOutcome(img: seq<byte>, list: seq<Area>, img': seq<byte>, ls: seq<BlockList>, name: seq<byte>, z280: bool, k: nat, done: bool, pcb: nat, ctx: nat, ls': seq<BlockList>)
    requires |ls| >= 2
  {
    && (done ==> Looks(img, ls, name, z280))
    && (TaskNamed(img, ls, name) > 0 ==> HasSize(img, TaskNamed(img, ls, name), z280))
    && (Looks(img, ls, name, z280) ==> 2 <= k < |ls| && ls[k].kind == Subs(PartOf(img, TaskNamed(img, ls, name))) && (done <==> HasRoom(img, list, ls, name, z280, k)))
    && (done ==> NowFixed(img, img', ls, name, z280, k, pcb, ls') && Word(img', TaskNamed(img, ls, name), TaskLists.T_CTX) == ctx)
  }

  /** FIX: exactly if the task exists, is not fixed, has a possible size, and its partition has room, it gets
      the pages, the mark and a context block.  That the task names a listed partition is not checked. */
  method FixTask(p: SystemImage, tlist: nat, plist: nat, name: seq<byte>, z280: bool, ghost live: seq<Area>, ghost ls: seq<BlockList>)
    returns (done: bool, pcb: nat, ctx: nat, ghost live': seq<Area>, ghost ls': seq<BlockList>, ghost k: nat)
    requires SystemOk(p, tlist, plist, live, ls) && Follows(p.image[..], ls, name, z280) && Low(PoolOf(p), tlist, plist, ContextSize(z280))
    modifies p.image, p`list
    ensures SystemOk(p, tlist, plist, live', ls') && (PlanOk(old(p.image[..]), ls) ==> PlanOk(p.image[..], ls'))
    ensures !done ==> ls' == ls && live' == live && p.list == old(p.list) && p.image[..] == old(p.image[..])
    ensures FixOutcome(old(p.image[..]), old(p.list), p.image[..], ls, name, z280, k, done, pcb, ctx, ls')
    ensures done ==> Allocated(PoolState(old(p.list), live), PoolState(p.list, live'), IsSystem(old(p.image[..]), PartOf(old(p.image[..]), TaskNamed(old(p.image[..]), ls, name))), pcb, ctx, z280)
  {
    done, pcb, ctx, live', ls', k := false, 0, 0, live, ls, 0;
    var tcb;
    ghost var i;
    tcb, i := FindTaskBlock(p, tlist, name, plist, live, ls);
    if tcb == 0 { return; }
    SizeIs(Word(p.image[..], tcb, TaskLists.T_NBLK), Word(p.image[..], tcb, TaskLists.T_END), z280, SizeOf(p.image[..], tcb, z280));
    var size := ReadSize(p, tlist, tcb, z280, plist, live, ls, i);
    if size == 0 { return; }
    done, pcb, ctx, live', ls', k := FixFound(p, tlist, plist, name, z280, tcb, size, live, ls, i);
  }

  /** The rest of fix_task. */
  method FixFound(p: SystemImage, tlist: nat, plist: nat, ghost name: seq<byte>, z280: bool, tcb: nat, size: byte, ghost live: seq<Area>, ghost ls: seq<BlockList>, ghost i: nat)
    returns (done: bool, pcb: nat, ctx: nat, ghost live': seq<Area>, ghost ls': seq<BlockList>, ghost k: nat)
    requires SystemOk(p, tlist, plist, live, ls) && Follows(p.image[..], ls, name, z280) && Low(PoolOf(p), tlist, plist, ContextSize(z280))
    requires Looks(p.image[..], ls, name, z280) && i < |ls[0].nodes| && tcb == ls[0].nodes[i] == TaskNamed(p.image[..], ls, name) && size == SizeOf(p.image[..], tcb, z280) && HasSize(p.image[..], tcb, z280)
    modifies p.image, p`list
    ensures SystemOk(p, tlist, plist, live', ls') && (PlanOk(old(p.image[..]), ls) ==> PlanOk(p.image[..], ls'))
    ensures !done ==> ls' == ls && live' == live && p.list == old(p.list) && p.image[..] == old(p.image[..])
    ensures FixOutcome(old(p.image[..]), old(p.list), p.image[..], ls, name, z280, k, done, pcb, ctx, ls')
    ensures done ==> Allocated(PoolState(old(p.list), live), PoolState(p.list, live'), IsSystem(old(p.image[..]), PartOf(old(p.image[..]), TaskNamed(old(p.image[..]), ls, name))), pcb, ctx, z280)
  {
    var main;
    ghost var m;
    main, m := ReadMain(p, tlist, plist, tcb, live, ls, i);
    k := SubsOf(p.image[..], PoolOf(p), PoolState(p.list, live), ls, tlist, plist, m);
    done, pcb, ctx, live', ls' := FixPages(p, tlist, plist, name, z280, tcb, size, main, live, ls, i, m, k);
  }

  method FixPages(p: SystemImage, tlist: nat, plist: nat, ghost name: seq<byte>, z280: bool, tcb: nat, size: byte, main: nat, ghost live: seq<Area>, ghost ls: seq<BlockList>, ghost i: nat, ghost m: nat, ghost k: nat)
    returns (done: bool, pcb: nat, ctx: nat, ghost live': seq<Area>, ghost ls': seq<BlockList>)
    requires SystemOk(p, tlist, plist, live, ls) && Low(PoolOf(p), tlist, plist, ContextSize(z280))
    requires Looks(p.image[..], ls, name, z280) && i < |ls[0].nodes| && tcb == ls[0].nodes[i] == TaskNamed(p.image[..], ls, name) && size == SizeOf(p.image[..], tcb, z280) && HasSize(p.image[..], tcb, z280)
    requires m < |ls[1].nodes| && main == ls[1].nodes[m] == PartOf(p.image[..], tcb) && 2 <= k < |ls| && ls[k].kind == Subs(main)
    modifies p.image, p`list
    ensures SystemOk(p, tlist, plist, live', ls') && (PlanOk(old(p.image[..]), ls) ==> PlanOk(p.image[..], ls'))
    ensures !done ==> ls' == ls && live' == live && p.list == old(p.list) && p.image[..] == old(p.image[..])
    ensures FixOutcome(old(p.image[..]), old(p.list), p.image[..], ls, name, z280, k, done, pcb, ctx, ls')
    ensures done ==> Allocated(PoolState(old(p.list), live), PoolState(p.list, live'), IsSystem(old(p.image[..]), PartOf(old(p.image[..]), TaskNamed(old(p.image[..]), ls, name))), pcb, ctx, z280)
  {
    ghost var img, s := p.image[..], PoolState(p.list, live);
    done, ctx := false, 0;
    pcb, live', ls' := ClaimPages(p, tlist, plist, main, size, live, ls, m, k);
    if pcb == 0 {
      NotFixed(img, s.free, ls, name, z280, k, ls');
      return;
    }
    done := true;
    ghost var img1, s1 := p.image[..], PoolState(p.list, live');
    ghost var y, j := ClaimedAt(img, img1, ls, main, size, m, k, pcb, ls');
    ctx, live' := Settle(p, tlist, plist, z280, tcb, pcb, live', ls', i, y, j);
    FixedSteps(img, img1, p.image[..], ls, ls', tlist, plist, name, z280, k, pcb, y, j, ctx);
    NowOutcome(img, s.free, p.image[..], ls, name, z280, k, pcb, ctx, ls');
    BothAllocated(s, s1, PoolState(p.list, live'), IsSystem(img, PartOf(img, tcb)), pcb, ctx, z280);
  }

  lemma NotFixed(img: seq<byte>, list: seq<Area>, ls: seq<BlockList>, name: seq<byte>, z280: bool, k: nat, ls': seq<BlockList>)
    requires |ls| >= 2 && Looks(img, ls, name, z280) && HasSize(img, TaskNamed(img, ls, name), z280) && 2 <= k < |ls| && ls[k].kind == Subs(PartOf(img, TaskNamed(img, ls, name)))
    requires !HasRoom(img, list, ls, name, z280, k)
    ensures FixOutcome(img, list, img, ls, name, z280, k, false, 0, 0, ls')
  {
  }

  lemma NowOutcome(img: seq<byte>, list: seq<Area>, img': seq<byte>, ls: seq<BlockList>, name: seq<byte>, z280: bool, k: nat, pcb: nat, ctx: nat, ls': seq<BlockList>)
    requires |ls| >= 2 && Looks(img, ls, name, z280) && HasSize(img, TaskNamed(img, ls, name), z280) && 2 <= k < |ls| && ls[k].kind == Subs(PartOf(img, TaskNamed(img, ls, name)))
    requires HasRoom(img, list, ls, name, z280, k) && NowFixed(img, img', ls, name, z280, k, pcb, ls') && Word(img', TaskNamed(img, ls, name), TaskLists.T_CTX) == ctx
    ensures FixOutcome(img, list, img', ls, name, z280, k, true, pcb, ctx, ls')
  {
  }

  lemma BothAllocated(s: PoolState, s1: PoolState, t: PoolState, sub: bool, pcb: nat, ctx: nat, z280: bool)
    requires s1.live == if sub then s.live + [Area(pcb, Round(PCBSZ))] else s.live
    requires t.live == if ctx > 0 then s1.live + [Area(ctx, Round(ContextSize(z280)))] else s1.live
    requires ctx == 0 ==> forall b :: b in t.free ==> b.size < Round(ContextSize(z280))
    ensures Allocated(s, t, sub, pcb, ctx, z280)
  {
  }

  lemma PartsSamePlan(img: seq<byte>, img': seq<byte>, ls: seq<BlockList>, tlist: nat, plist: nat)
    requires Shape(ls, tlist, plist) && PartsSame(img, img', ls)
    ensures PlanOk(img, ls) ==> PlanOk(img', ls)
  {
    assert StayKey(0);
    PlanSame(img, img', ls, tlist, plist);
  }

  lemma FixedSteps(img: seq<byte>, img1: seq<byte>, img2: seq<byte>, ls: seq<BlockList>, ls': seq<BlockList>, tlist: nat, plist: nat, name: seq<byte>, z280: bool, k: nat, pcb: nat, y: nat, j: nat, ctx: nat)
    requires Shape(ls, tlist, plist) && Shape(ls', tlist, plist) && Looks(img, ls, name, z280) && 2 <= k < |ls| && ls[k].kind == Subs(PartOf(img, TaskNamed(img, ls, name)))
    requires Claimed(img, img1, ls, PartOf(img, TaskNamed(img, ls, name)), SizeOf(img, TaskNamed(img, ls, name), z280), k, pcb, ls')
    requires 1 <= y < |ls'| && j < |ls'[y].nodes| && ls'[y].nodes[j] == pcb && (y == 1 <==> !IsSystem(img, PartOf(img, TaskNamed(img, ls, name))))
    requires OthersLead(img, ls, img1, ls', 0) && SettledAs(img1, img2, ls', TaskNamed(img, ls, name), pcb, ctx) && RestStays(img, img1, ls, {pcb}) && Stay(img, img1, ls[0], 0)
    requires forall i: nat :: i < |ls[0].nodes| ==> ls[0].nodes[i] > 0
    ensures NowFixed(img, img2, ls, name, z280, k, pcb, ls') && (PlanOk(img1, ls') ==> PlanOk(img2, ls'))
  {
    var t := TaskNamed(img, ls, name);
    PartsSamePlan(img1, img2, ls', tlist, plist);
    OthersLeadOn(img, ls, img1, ls', img2, ls', t);
    assert pcb in ls'[y].nodes;
    assert y > 1 ==> InSub(ls', pcb);
    ClaimedOn(img, img1, img2, ls, k, SizeOf(img, t, z280), pcb, ls', y, j, t);
    RestFixed(img, img1, img2, ls, PartOf(img, t), SizeOf(img, t, z280), k, pcb, ls', t);
    TaskFixedOnly(img, img1, img2, ls, name, t);
  }

  /** The task's own fields. */
  lemma TaskFixedOnly(img: seq<byte>, img1: seq<byte>, img2: seq<byte>, ls: seq<BlockList>, name: seq<byte>, t: nat)
    requires |ls| >= 2 && ls[0].kind.link == TaskLists.T_TCBL && ls[0].kind.size == TaskLists.TCBSZ && t == TaskNamed(img, ls, name) && t > 0
    requires Stay(img, img1, ls[0], 0) && Marked(img1, img2, t) && forall i: nat :: i < |ls[0].nodes| ==> ls[0].nodes[i] > 0
    requires TaskOnly(img1, img2, ls[0], t, {TaskLists.T_PCB, TaskLists.T_PCB + 1} + {TaskLists.T_CTX, TaskLists.T_CTX + 1} + {TaskLists.T_ATTR})
    ensures TaskOnly(img, img2, ls[0], t, {TaskLists.T_PCB, TaskLists.T_PCB + 1} + {TaskLists.T_CTX, TaskLists.T_CTX + 1} + {TaskLists.T_ATTR}) && Marked(img, img2, t)
  {
    var i := Named(img, ls[0].nodes, name, |ls[0].nodes|);
    assert ls[0].nodes[i] == t;
    var offs := {TaskLists.T_PCB, TaskLists.T_PCB + 1} + {TaskLists.T_CTX, TaskLists.T_CTX + 1} + {TaskLists.T_ATTR};
    ElsewhereOnly(img, img1, ls[0], 0, i);
    TaskOnlyOn(img, img1, img2, ls[0], t, {}, offs);
    assert {} + offs == offs;
    assert Field(img1, ls[0].nodes[i], TaskLists.T_ATTR) == Field(img, t, TaskLists.T_ATTR);
  }

  lemma RestFixed(img: seq<byte>, img1: seq<byte>, img2: seq<byte>, ls: seq<BlockList>, main: nat, size: nat, k: nat, pcb: nat, ls': seq<BlockList>, t: nat)
    requires 2 <= k < |ls| && Claimed(img, img1, ls, main, size, k, pcb, ls') && RestStays(img, img1, ls, {pcb}) && RestStays(img1, img2, ls', {t, pcb})
    ensures RestStays(img, img2, ls, {t, pcb})
  {
    forall m: nat, i: nat | m < |ls| && i < |ls[m].nodes| ensures ls'[m].kind == ls[m].kind && ls[m].nodes[i] in ls'[m].nodes {
      if IsSystem(img, main) && m == k {
        InWith(ls[k].nodes, PlaceSub(SubAt(img, ls[k].kind.owner), SubParts(img, ls[k].nodes), size).index, pcb, ls[m].nodes[i]);
      }
    }
    assert forall m: nat :: m < |ls| ==> ls'[m].kind == ls[m].kind;
    RestAmong(img1, img2, ls, ls', {t, pcb});
    RestOn(img, img1, img2, ls, {pcb}, {t, pcb});
    assert {pcb} + {t, pcb} == {t, pcb};
  }

  lemma ClaimedOn(img: seq<byte>, img1: seq<byte>, img2: seq<byte>, ls: seq<BlockList>, k: nat, size: nat, pcb: nat, ls': seq<BlockList>, y: nat, j: nat, t: nat)
    requires 2 <= k < |ls| && Claimed(img, img1, ls, PartOf(img, t), size, k, pcb, ls') && PartsSame(img1, img2, ls') && PartOnly(img1, img2, pcb, {P_TCB, P_TCB + 1})
    requires 1 <= y < |ls'| && j < |ls'[y].nodes| && ls'[y].nodes[j] == pcb
    ensures Claimed(img, img2, ls, PartOf(img, t), size, k, pcb, ls')
  {
    if IsSystem(img, PartOf(img, t)) {
      SubNewOn(img, img1, img2, ls, k, size, pcb, ls', y, j);
    } else {
      PartOnlyOn(img, img1, img2, pcb, {P_STAT, P_TCB, P_TCB + 1}, {P_TCB, P_TCB + 1});
      assert {P_STAT, P_TCB, P_TCB + 1} + {P_TCB, P_TCB + 1} == {P_STAT, P_TCB, P_TCB + 1};
    }
  }

  lemma SubNewOn(img: seq<byte>, img1: seq<byte>, img2: seq<byte>, ls: seq<BlockList>, k: nat, size: nat, pcb: nat, ls': seq<BlockList>, y: nat, j: nat)
    requires 2 <= k < |ls| && SubNew(img, img1, ls, k, size, pcb, ls') && PartsSame(img1, img2, ls') && PartOnly(img1, img2, pcb, {P_TCB, P_TCB + 1})
    requires 1 <= y < |ls'| && j < |ls'[y].nodes| && ls'[y].nodes[j] == pcb
    ensures SubNew(img, img2, ls, k, size, pcb, ls')
  {
    assert StayKey(0);
    forall i: nat | i < |ls'[k].nodes| ensures SubParts(img2, ls'[k].nodes)[i] == SubParts(img1, ls'[k].nodes)[i] {
      assert SamePlace(img1, img2, ls'[k].nodes[i]);
    }
    assert Word(img2, ls'[y].nodes[j], P_MAIN) == Word(img1, ls'[y].nodes[j], P_MAIN);
    assert NameOf(img2, pcb) == NameOf(img1, pcb);
  }
}
