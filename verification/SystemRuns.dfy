/** Runs of commands of vmr.c: every command has its effect; in every moment pool and lists are in order, no
    two partitions have the same name, and as long as requests are sane and no partition is removed that a
    task names, no partitions overlap and every task leads to a listed partition. */
module SystemRuns {
  import opened Bytes
  import opened PoolList
  import opened Pool
  import opened PoolRuns
  import opened Chains
  import opened SystemLists
  import opened NamedBlocks
  import opened PartitionPlan
  import opened PartitionLists
  import opened SystemState
  import opened SystemPlan
  import opened SystemReferences
  import opened SystemOperations
  import opened TaskFixing
  import TaskLists

  datatype Command =
    | InsTask(h: Header, o: Options)
    | RemTask(name: seq<byte>)
    | SetPartition(name: seq<byte>, base: nat, size: nat, wb: bool, ws: bool, attr: byte)
    | NoPartition(name: seq<byte>)
    | FixedTask(name: seq<byte>)
  {
    predicate Ok()
    {
      match this
      case InsTask(h, o) => h.Ok() && o.Ok()
      case SetPartition(name, base, size, _, _, _) => |name| == 6 && base < 0x1_0000 && size < 0x1_0000
      case _ => true
    }
  }

  /** An image, the pool, and what lists are in it. */
  datatype Moment = Moment(img: seq<byte>, s: PoolState, ls: seq<BlockList>)

  ghost function Now(p: SystemImage, live: seq<Area>, ls: seq<BlockList>): Moment
    reads p, p.image
  {
    Moment(p.image[..], PoolState(p.list, live), ls)
  }

  /** The command asks for nothing outside the memory. */
  ghost predicate Careful(m: Moment, c: Command)
    requires |m.ls| >= 2
  {
    match c
    case SetPartition(_, base, size, wb, ws, _) => Sane(Parts(m.img, m.ls[1].nodes), base, size, wb, ws)
    case _ => true
  }

  /** The command removes a partition that a task names. */
  ghost predicate Orphans(m: Moment, c: Command)
    requires |m.ls| >= 2
  {
    match c
    case NoPartition(name) =>
      var i := Named(m.img, m.ls[1].nodes, name, |m.ls[1].nodes|);
      && i < |m.ls[1].nodes| && Word(m.img, m.ls[1].nodes[i], P_SUB) == 0 && Word(m.img, m.ls[1].nodes[i], P_WAIT) == 0
      && exists j: nat :: j < |m.ls[0].nodes| && PartOf(m.img, m.ls[0].nodes[j]) == m.ls[1].nodes[i]
    case _ => false
  }

  /** What the command relies on, and does not check. */
  ghost predicate Relies(m: Moment, c: Command, z280: bool)
    requires |m.ls| >= 2
  {
    match c
    case FixedTask(name) => Follows(m.img, m.ls, name, z280)
    case _ => true
  }

  // ---------------------------------------------------------------
  // One command
  // ---------------------------------------------------------------

  /** From one moment to the next: the plan and the tasks stay in order. */
  ghost predicate GoesOn(m: Moment, c: Command, m': Moment)
    requires |m.ls| >= 2 && |m'.ls| >= 2
  {
    && (PlanOk(m.img, m.ls) && Careful(m, c) ==> PlanOk(m'.img, m'.ls))
    && (AllLead(m.img, m.ls) ==> (AllLead(m'.img, m'.ls) <==> !Orphans(m, c)))
  }

  /** INS: a block from the pool, in the task list unless the program is too big; or nothing. */
  ghost predicate InsEffect(at: PoolAt, z280: bool, m: Moment, h: Header, o: Options, tcb: nat, m': Moment)
    requires |m.ls| >= 2
  {
    && (tcb == 0 <==> NotInstalled(m.img, m.s.free, m.ls, h, o))
    && (tcb == 0 ==> m' == m)
    && (tcb > 0 ==> AllocStep(m.s, Area(tcb, Round(TaskLists.TCBSZ)), m'.s, at.lo, at.hi))
    && InsOutcome(m.img, m'.img, m.ls, h, o, z280, tcb, m'.ls)
  }

  /** REM: the first task of the name is gone, and its block is free, if there is one and it is not fixed. */
  ghost predicate RemEffect(at: PoolAt, m: Moment, name: seq<byte>, m': Moment)
    requires |m.ls| >= 2
  {
    var nodes := m.ls[0].nodes;
    var i := Named(m.img, nodes, name, |nodes|);
    if i < |nodes| && !Fixed(m.img, nodes[i]) then
      && m'.ls == m.ls[0 := BlockList(m.ls[0].kind, WithoutNode(nodes, i))] && Freed(m.s, Area(nodes[i], Round(TaskLists.TCBSZ)), m'.s, at)
      && RestStays(m.img, m'.img, m.ls, {nodes[i]})
    else
      m' == m
  }

  /** SET /PAR: a block from the pool for the new partition, or nothing. */
  ghost predicate ParEffect(at: PoolAt, m: Moment, name: seq<byte>, base: nat, size: nat, wb: bool, ws: bool, attr: byte, pcb: nat, m': Moment)
    requires |m.ls| >= 2 && |m'.ls| >= 2
  {
    && ParOutcome(m.img, m.s.free, m'.img, m.ls, name, base, size, wb, ws, attr, pcb, m'.ls)
    && (pcb == 0 ==> m' == m)
    && (pcb > 0 ==> AllocStep(m.s, Area(pcb, Round(PCBSZ)), m'.s, at.lo, at.hi))
  }

  /** SET /NOPAR: the partition of the name is gone, and its block is free, if there is one without
      sub-partitions and waiting tasks. */
  ghost predicate NoParEffect(at: PoolAt, m: Moment, name: seq<byte>, m': Moment)
    requires |m.ls| >= 2
  {
    var nodes := m.ls[1].nodes;
    var i := Named(m.img, nodes, name, |nodes|);
    if i < |nodes| && Word(m.img, nodes[i], P_SUB) == 0 && Word(m.img, nodes[i], P_WAIT) == 0 then
      Freed(m.s, Area(nodes[i], Round(PCBSZ)), m'.s, at) && exists x: nat :: ParGone(m.img, m'.img, m.ls, name, x, m'.ls)
    else
      m' == m
  }

  /** FIX: pages and a context block for the task, or nothing. */
  ghost predicate FixEffect(z280: bool, m: Moment, name: seq<byte>, k: nat, done: bool, pcb: nat, ctx: nat, m': Moment)
    requires |m.ls| >= 2
  {
    && FixOutcome(m.img, m.s.free, m'.img, m.ls, name, z280, k, done, pcb, ctx, m'.ls)
    && (!done ==> m' == m)
    && (done ==> Allocated(m.s, m'.s, IsSystem(m.img, PartOf(m.img, TaskNamed(m.img, m.ls, name))), pcb, ctx, z280))
  }

  /** What a command does. */
  ghost predicate Effect(at: PoolAt, z280: bool, m: Moment, c: Command, m': Moment)
    requires |m.ls| >= 2 && |m'.ls| >= 2
  {
    match c
    case InsTask(h, o) => exists tcb: nat :: InsEffect(at, z280, m, h, o, tcb, m')
    case RemTask(name) => RemEffect(at, m, name, m')
    case SetPartition(name, base, size, wb, ws, attr) => exists pcb: nat :: ParEffect(at, m, name, base, size, wb, ws, attr, pcb, m')
    case NoPartition(name) => NoParEffect(at, m, name, m')
    case FixedTask(name) => exists k: nat, done: bool, pcb: nat, ctx: nat :: FixEffect(z280, m, name, k, done, pcb, ctx, m')
  }

  /** vmr_command, for the commands modelled here. */
  method Execute(p: SystemImage, tlist: nat, plist: nat, z280: bool, c: Command, ghost live: seq<Area>, ghost ls: seq<BlockList>)
    returns (ghost live': seq<Area>, ghost ls': seq<BlockList>)
    requires SystemOk(p, tlist, plist, live, ls) && c.Ok() && Low(PoolOf(p), tlist, plist, ContextSize(z280)) && Relies(Now(p, live, ls), c, z280)
    modifies p.image, p`list
    ensures SystemOk(p, tlist, plist, live', ls') && GoesOn(old(Now(p, live, ls)), c, Now(p, live', ls'))
    ensures Effect(PoolOf(p), z280, old(Now(p, live, ls)), c, Now(p, live', ls'))
  {
    match c
    case InsTask(h, o) => live', ls' := DoInstall(p, tlist, plist, z280, h, o, live, ls);
    case RemTask(name) => live', ls' := DoRemove(p, tlist, plist, name, live, ls);
    case SetPartition(name, base, size, wb, ws, attr) => live', ls' := DoSetPar(p, tlist, plist, name, base, size, wb, ws, attr, live, ls);
    case NoPartition(name) => live', ls' := DoNoPar(p, tlist, plist, name, live, ls);
    case FixedTask(name) => live', ls' := DoFix(p, tlist, plist, z280, name, live, ls);
  }

  method DoInstall(p: SystemImage, tlist: nat, plist: nat, z280: bool, h: Header, o: Options, ghost live: seq<Area>, ghost ls: seq<BlockList>)
    returns (ghost live': seq<Area>, ghost ls': seq<BlockList>)
    requires SystemOk(p, tlist, plist, live, ls) && h.Ok() && o.Ok()
    modifies p.image, p`list
    ensures SystemOk(p, tlist, plist, live', ls') && GoesOn(old(Now(p, live, ls)), InsTask(h, o), Now(p, live', ls'))
    ensures exists tcb: nat :: InsEffect(PoolOf(p), z280, old(Now(p, live, ls)), h, o, tcb, Now(p, live', ls'))
  {
    ghost var m := Now(p, live, ls);
    var tcb;
    tcb, live', ls' := Install(p, tlist, plist, h, o, z280, live, ls);
    if AllLead(m.img, ls) { LeadAfterInstall(m.img, p.image[..], ls, h, o, tcb, ls'); }
    assert InsEffect(PoolOf(p), z280, m, h, o, tcb, Now(p, live', ls'));
  }

  lemma LeadAfterInstall(img: seq<byte>, img': seq<byte>, ls: seq<BlockList>, h: Header, o: Options, tcb: nat, ls': seq<BlockList>)
    requires |ls| >= 2 && |ls'| >= 2 && SameLead(img, ls, img', ls', ls[0].nodes) && AllLead(img, ls)
    requires ls' == ls || Installed(img, img', ls, h, o, tcb, ls')
    ensures AllLead(img', ls')
  {
    if ls' != ls {
      var i := TaskLists.InsertPoint(TaskLists.Priorities(img, ls[0].nodes), h.pri, |ls[0].nodes|);
      forall j: nat | j < |ls'[0].nodes| ensures Leads(img', ls', ls'[0].nodes[j]) {
        if j != i { assert ls'[0].nodes[j] == ls[0].nodes[if j < i then j else j - 1]; }
      }
    }
  }

  method DoRemove(p: SystemImage, tlist: nat, plist: nat, name: seq<byte>, ghost live: seq<Area>, ghost ls: seq<BlockList>)
    returns (ghost live': seq<Area>, ghost ls': seq<BlockList>)
    requires SystemOk(p, tlist, plist, live, ls)
    modifies p.image, p`list
    ensures SystemOk(p, tlist, plist, live', ls') && GoesOn(old(Now(p, live, ls)), RemTask(name), Now(p, live', ls'))
    ensures RemEffect(PoolOf(p), old(Now(p, live, ls)), name, Now(p, live', ls'))
  {
    ghost var m := Now(p, live, ls);
    var done;
    done, live', ls' := Remove(p, tlist, name, plist, live, ls);
    if AllLead(m.img, ls) && done { LeadAfterRemove(m.img, p.image[..], ls, Named(m.img, ls[0].nodes, name, |ls[0].nodes|), ls'); }
  }

  lemma LeadAfterRemove(img: seq<byte>, img': seq<byte>, ls: seq<BlockList>, i: nat, ls': seq<BlockList>)
    requires |ls| >= 2 && i < |ls[0].nodes| && ls' == ls[0 := BlockList(ls[0].kind, WithoutNode(ls[0].nodes, i))] && SameLead(img, ls, img', ls', ls'[0].nodes) && AllLead(img, ls)
    ensures AllLead(img', ls')
  {
    forall j: nat | j < |ls'[0].nodes| ensures Leads(img', ls', ls'[0].nodes[j]) {
      assert ls'[0].nodes[j] == ls[0].nodes[if j < i then j else j + 1];
    }
  }

  method DoSetPar(p: SystemImage, tlist: nat, plist: nat, name: seq<byte>, base: nat, size: nat, wb: bool, ws: bool, attr: byte, ghost live: seq<Area>, ghost ls: seq<BlockList>)
    returns (ghost live': seq<Area>, ghost ls': seq<BlockList>)
    requires SystemOk(p, tlist, plist, live, ls) && |name| == 6 && base < 0x1_0000 && size < 0x1_0000
    modifies p.image, p`list
    ensures SystemOk(p, tlist, plist, live', ls') && GoesOn(old(Now(p, live, ls)), SetPartition(name, base, size, wb, ws, attr), Now(p, live', ls'))
    ensures exists pcb: nat :: ParEffect(PoolOf(p), old(Now(p, live, ls)), name, base, size, wb, ws, attr, pcb, Now(p, live', ls'))
  {
    ghost var m := Now(p, live, ls);
    var pcb;
    pcb, live', ls' := SetPar(p, plist, name, base, size, wb, ws, attr, tlist, live, ls);
    NewGoesOn(m, Now(p, live', ls'), name, base, size, wb, ws, attr, pcb);
    assert ParEffect(PoolOf(p), m, name, base, size, wb, ws, attr, pcb, Now(p, live', ls'));
  }

  lemma NewGoesOn(m: Moment, m': Moment, name: seq<byte>, base: nat, size: nat, wb: bool, ws: bool, attr: byte, pcb: nat)
    requires |m.ls| >= 2 && |m'.ls| >= 2 && ParOutcome(m.img, m.s.free, m'.img, m.ls, name, base, size, wb, ws, attr, pcb, m'.ls)
    ensures GoesOn(m, SetPartition(name, base, size, wb, ws, attr), m')
  {
    if pcb > 0 { LeadAfterNew(m.img, m'.img, m.ls, pcb, m'.ls); }
  }

  lemma LeadAfterNew(img: seq<byte>, img': seq<byte>, ls: seq<BlockList>, n: nat, ls': seq<BlockList>)
    requires |ls| >= 2 && |ls'| >= 2 && ls'[0] == ls[0] && LeadToNew(img, ls, img', ls', n)
    ensures AllLead(img, ls) ==> AllLead(img', ls')
  {
  }

  method DoNoPar(p: SystemImage, tlist: nat, plist: nat, name: seq<byte>, ghost live: seq<Area>, ghost ls: seq<BlockList>)
    returns (ghost live': seq<Area>, ghost ls': seq<BlockList>)
    requires SystemOk(p, tlist, plist, live, ls)
    modifies p.image, p`list
    ensures SystemOk(p, tlist, plist, live', ls') && GoesOn(old(Now(p, live, ls)), NoPartition(name), Now(p, live', ls'))
    ensures NoParEffect(PoolOf(p), old(Now(p, live, ls)), name, Now(p, live', ls'))
  {
    ghost var m := Now(p, live, ls);
    var done;
    ghost var x;
    done, live', ls', x := NoPar(p, plist, name, tlist, live, ls);
    if done { LeadAfterGone(m, p.image[..], name, ls'); }
  }

  /** After a removal all tasks lead if they did before and none was orphaned. */
  lemma LeadAfterGone(m: Moment, img': seq<byte>, name: seq<byte>, ls': seq<BlockList>)
    requires |m.ls| >= 2 && |ls'| >= 2 && ls'[0] == m.ls[0] && Named(m.img, m.ls[1].nodes, name, |m.ls[1].nodes|) < |m.ls[1].nodes|
    requires var n := m.ls[1].nodes[Named(m.img, m.ls[1].nodes, name, |m.ls[1].nodes|)];
      Word(m.img, n, P_SUB) == 0 && Word(m.img, n, P_WAIT) == 0 && LeadElsewhere(m.img, m.ls, img', ls', n)
    ensures AllLead(m.img, m.ls) ==> (AllLead(img', ls') <==> !Orphans(m, NoPartition(name)))
  {
    var n := m.ls[1].nodes[Named(m.img, m.ls[1].nodes, name, |m.ls[1].nodes|)];
    if Orphans(m, NoPartition(name)) {
      var j: nat :| j < |m.ls[0].nodes| && PartOf(m.img, m.ls[0].nodes[j]) == n;
      assert !Leads(img', ls', ls'[0].nodes[j]);
    }
  }

  method DoFix(p: SystemImage, tlist: nat, plist: nat, z280: bool, name: seq<byte>, ghost live: seq<Area>, ghost ls: seq<BlockList>)
    returns (ghost live': seq<Area>, ghost ls': seq<BlockList>)
    requires SystemOk(p, tlist, plist, live, ls) && Low(PoolOf(p), tlist, plist, ContextSize(z280)) && Follows(p.image[..], ls, name, z280)
    modifies p.image, p`list
    ensures SystemOk(p, tlist, plist, live', ls') && GoesOn(old(Now(p, live, ls)), FixedTask(name), Now(p, live', ls'))
    ensures exists k: nat, done: bool, pcb: nat, ctx: nat :: FixEffect(z280, old(Now(p, live, ls)), name, k, done, pcb, ctx, Now(p, live', ls'))
  {
    ghost var m := Now(p, live, ls);
    var done, pcb, ctx;
    ghost var k;
    done, pcb, ctx, live', ls', k := FixTask(p, tlist, plist, name, z280, live, ls);
    if done { LeadAfterFix(m.img, p.image[..], ls, name, z280, k, pcb, ls'); }
    assert FixEffect(z280, m, name, k, done, pcb, ctx, Now(p, live', ls'));
  }

  lemma LeadAfterFix(img: seq<byte>, img': seq<byte>, ls: seq<BlockList>, name: seq<byte>, z280: bool, k: nat, pcb: nat, ls': seq<BlockList>)
    requires |ls| >= 2 && NowFixed(img, img', ls, name, z280, k, pcb, ls')
    ensures AllLead(img, ls) ==> AllLead(img', ls')
  {
  }

  // ---------------------------------------------------------------
  // Runs
  // ---------------------------------------------------------------

  /** The first k commands ask for nothing outside the memory. */
  ghost predicate AllCareful(run: seq<Moment>, cs: seq<Command>, k: nat)
    requires k <= |run| && k <= |cs|
  {
    forall j: nat :: j < k ==> |run[j].ls| >= 2 && Careful(run[j], cs[j])
  }

  /** None of the first k commands orphans a task. */
  ghost predicate NoOrphans(run: seq<Moment>, cs: seq<Command>, k: nat)
    requires k <= |run| && k <= |cs|
  {
    forall j: nat :: j < k ==> |run[j].ls| >= 2 && !Orphans(run[j], cs[j])
  }

  /** In moment k pool and lists are in order, and names are unique; if all commands before it were careful,
      no partitions overlap; if none before it orphaned a task, all tasks lead. */
  ghost predicate MomentOk(at: PoolAt, run: seq<Moment>, cs: seq<Command>, k: nat, tlist: nat, plist: nat)
    requires k < |run| && k <= |cs|
  {
    && Holds(run[k].img, at, run[k].s, run[k].ls, tlist, plist) && MainsOk(run[k].img, run[k].ls[1].nodes)
    && (AllCareful(run, cs, k) ==> PlanOk(run[k].img, run[k].ls))
    && (NoOrphans(run, cs, k) ==> AllLead(run[k].img, run[k].ls))
  }

  ghost predicate RunOk(at: PoolAt, run: seq<Moment>, cs: seq<Command>, n: nat, tlist: nat, plist: nat)
    requires n <= |run| && n <= |cs| + 1
  {
    forall k: nat :: k < n ==> MomentOk(at, run, cs, k, tlist, plist)
  }

  /** Command k of a run has its effect. */
  ghost predicate EffectAt(at: PoolAt, z280: bool, run: seq<Moment>, cs: seq<Command>, k: nat)
    requires k + 1 < |run| && k < |cs|
  {
    |run[k].ls| >= 2 && |run[k + 1].ls| >= 2 && Effect(at, z280, run[k], cs[k], run[k + 1])
  }

  /** So do the first n commands. */
  ghost predicate Effects(at: PoolAt, z280: bool, run: seq<Moment>, cs: seq<Command>, n: nat)
    requires n < |run| && n <= |cs|
  {
    forall k: nat :: k < n ==> EffectAt(at, z280, run, cs, k)
  }

  lemma EffectsGoOn(at: PoolAt, z280: bool, run: seq<Moment>, cs: seq<Command>, i: nat, next: Moment)
    requires i < |cs| && |run| == i + 1 && Effects(at, z280, run, cs, i)
    requires |run[i].ls| >= 2 && |next.ls| >= 2 && Effect(at, z280, run[i], cs[i], next)
    ensures Effects(at, z280, run + [next], cs, i + 1)
  {
    var r := run + [next];
    forall k: nat | k < i + 1 ensures EffectAt(at, z280, r, cs, k) {
      if k < i { assert EffectAt(at, z280, run, cs, k) && r[k] == run[k] && r[k + 1] == run[k + 1]; }
    }
  }

  lemma RunGoesOn(at: PoolAt, run: seq<Moment>, cs: seq<Command>, i: nat, m: Moment, next: Moment, tlist: nat, plist: nat)
    requires i < |cs| && |run| == i + 1 && run[i] == m && RunOk(at, run, cs, i + 1, tlist, plist)
    requires Holds(next.img, at, next.s, next.ls, tlist, plist) && MainsOk(next.img, next.ls[1].nodes) && |m.ls| >= 2 && GoesOn(m, cs[i], next)
    ensures RunOk(at, run + [next], cs, i + 2, tlist, plist)
  {
    var r := run + [next];
    forall k: nat | k < i + 2 ensures MomentOk(at, r, cs, k, tlist, plist) {
      var x := if k <= i then k else i;
      assert MomentOk(at, run, cs, x, tlist, plist);
      assert forall j: nat :: j < x ==> r[j] == run[j];
      assert r[x] == run[x];
      if k == i + 1 {
        assert AllCareful(r, cs, k) ==> AllCareful(run, cs, i) && Careful(r[i], cs[i]);
        assert NoOrphans(r, cs, k) ==> NoOrphans(run, cs, i) && !Orphans(r[i], cs[i]);
      } else {
        assert AllCareful(r, cs, k) ==> AllCareful(run, cs, k);
        assert NoOrphans(r, cs, k) ==> NoOrphans(run, cs, k);
      }
    }
  }

  /** Whether n is the block of a main partition: the look that fix_task does not take. */
  method IsListed(p: SystemImage, plist: nat, n: nat, ghost tlist: nat, ghost live: seq<Area>, ghost ls: seq<BlockList>) returns (found: bool)
    requires SystemOk(p, tlist, plist, live, ls)
    ensures found <==> n in ls[1].nodes
  {
    ghost var nodes := ls[1].nodes;
    ToListOk(p, tlist, plist, live, ls, 1);
    found := false;
    var prev, block := FirstBlock(p, Mains(plist), live, nodes);
    ghost var i := 0;
    while block != 0 && !found
      invariant i <= |nodes| && (block == 0 <==> i == |nodes|) && (i < |nodes| ==> block == nodes[i])
      invariant if found then i < |nodes| && nodes[i] == n else n !in nodes[..i]
      decreases !found, |nodes| - i
    {
      if block == n {
        found := true;
      } else {
        prev, block := NextBlock(p, Mains(plist), block, live, nodes, i);
        assert nodes[..i + 1] == nodes[..i] + [nodes[i]];
        i := i + 1;
      }
    }
    assert nodes[..|nodes|] == nodes;
  }

  /** Whether the command may rely on what it does not check. */
  method MayRun(p: SystemImage, tlist: nat, plist: nat, z280: bool, c: Command, ghost live: seq<Area>, ghost ls: seq<BlockList>) returns (ok: bool)
    requires SystemOk(p, tlist, plist, live, ls)
    ensures ok <==> Relies(Now(p, live, ls), c, z280)
  {
    ok := true;
    if c.FixedTask? {
      var tcb;
      ghost var i;
      tcb, i := FindTaskBlock(p, tlist, c.name, plist, live, ls);
      if tcb != 0 {
        var size := ReadSize(p, tlist, tcb, z280, plist, live, ls, i);
        ToListOk(p, tlist, plist, live, ls, 0);
        var n := GetWord(p, TaskLists.Tasks(tlist), TaskLists.T_PCB, tcb, live, ls[0].nodes, i);
        var found := IsListed(p, plist, n, tlist, live, ls);
        ok := size == 0 || found;
      }
    }
  }

  /** A run stops only behind a command that orphaned a task. */
  lemma StopsAt(at: PoolAt, run: seq<Moment>, cs: seq<Command>, n: nat, z280: bool, tlist: nat, plist: nat)
    requires n < |cs| && |run| == n + 1 && RunOk(at, run, cs, n + 1, tlist, plist) && |run[n].ls| >= 2 && !Relies(run[n], cs[n], z280)
    ensures !NoOrphans(run, cs, n)
  {
    assert MomentOk(at, run, cs, n, tlist, plist);
  }

  /** Any commands, up to a FIX of a task whose partition is gone.  Each has its effect; in every moment all blocks are live areas of
      the pool, in lists apart from each other, and the rest of RunOk holds; and all commands are carried
      out if none removes a partition that a task names. */
  method Commands(p: SystemImage, tlist: nat, plist: nat, z280: bool, cs: seq<Command>, ghost live: seq<Area>, ghost ls: seq<BlockList>)
    returns (n: nat, ghost live': seq<Area>, ghost ls': seq<BlockList>, ghost run: seq<Moment>)
    requires SystemOk(p, tlist, plist, live, ls) && PlanOk(p.image[..], ls) && AllLead(p.image[..], ls)
    requires Low(PoolOf(p), tlist, plist, ContextSize(z280)) && forall k: nat :: k < |cs| ==> cs[k].Ok()
    modifies p.image, p`list
    ensures SystemOk(p, tlist, plist, live', ls')
    ensures n <= |cs| && |run| == n + 1 && run[0] == old(Now(p, live, ls)) && run[n] == Now(p, live', ls')
    ensures RunOk(PoolOf(p), run, cs, n + 1, tlist, plist) && Effects(PoolOf(p), z280, run, cs, n)
    ensures n < |cs| ==> |run[n].ls| >= 2 && !Relies(run[n], cs[n], z280)
    ensures NoOrphans(run, cs, n) ==> n == |cs|
  {
    live', ls', run := live, ls, [Now(p, live, ls)];
    n := 0;
    while n < |cs|
      invariant n <= |cs| && SystemOk(p, tlist, plist, live', ls') && |run| == n + 1
      invariant run[0] == old(Now(p, live, ls)) && run[n] == Now(p, live', ls')
      invariant RunOk(PoolOf(p), run, cs, n + 1, tlist, plist) && Effects(PoolOf(p), z280, run, cs, n)
    {
      ghost var m := Now(p, live', ls');
      assert |m.ls| >= 2;
      var ok := MayRun(p, tlist, plist, z280, cs[n], live', ls');
      if !ok {
        StopsAt(PoolOf(p), run, cs, n, z280, tlist, plist);
        return;
      }
      live', ls' := Execute(p, tlist, plist, z280, cs[n], live', ls');
      RunGoesOn(PoolOf(p), run, cs, n, m, Now(p, live', ls'), tlist, plist);
      EffectsGoOn(PoolOf(p), z280, run, cs, n, Now(p, live', ls'));
      run := run + [Now(p, live', ls')];
      n := n + 1;
    }
  }

  // ---------------------------------------------------------------
  // From pool_init on
  // ---------------------------------------------------------------

  /** The cells of the image that pool_init and the lists use lie apart, and outside the pool. */
  predicate CellsPlaced(head: nat, systop: nat, polsz: nat, tlist: nat, plist: nat, start: nat)
  {
    && Clear(head, start) && Clear(systop, start) && Clear(polsz, start) && Clear(tlist, start) && Clear(plist, start)
    && Apart(head, systop) && Apart(head, polsz) && Apart(head, tlist) && Apart(head, plist) && Apart(systop, polsz)
    && Apart(systop, tlist) && Apart(systop, plist) && Apart(polsz, tlist) && Apart(polsz, plist) && Apart(tlist, plist)
  }

  predicate Clear(a: nat, start: nat)
  {
    a + 2 <= 0x1_0000 && (a + 2 <= start || POOL_END <= a)
  }

  /** pool_init on an image without tasks and partitions. */
  method SetUp(p: SystemImage, sysend: nat, systop: nat, polsz: nat, tlist: nat, plist: nat) returns (ghost ls: seq<BlockList>)
    requires p.image.Length == IMAGE_SIZE && 0 < sysend && Round(sysend) < POOL_END && sysend < POOL_END && CellsPlaced(p.head, systop, polsz, tlist, plist, Round(sysend))
    requires Get16(p.image[..], polsz) == 0 == Get16(p.image[..], tlist) && Get16(p.image[..], plist) == 0
    modifies p.image, p`list, p`lo, p`hi
    ensures ls == [BlockList(TaskLists.Tasks(tlist), []), BlockList(Mains(plist), [])] && PoolOf(p) == PoolAt(p.head, Round(sysend), POOL_END)
    ensures SystemOk(p, tlist, plist, [], ls) && PlanOk(p.image[..], ls) && p.list == [Area(Round(sysend), POOL_END - Round(sysend))]
  {
    p.PoolInit(sysend, systop, polsz);
    FirstState(p, tlist, plist);
    ls := [BlockList(TaskLists.Tasks(tlist), []), BlockList(Mains(plist), [])];
  }

  /** pool_init on an image without tasks and partitions, and then any commands. */
  method FromTheStart(p: SystemImage, sysend: nat, systop: nat, polsz: nat, tlist: nat, plist: nat, z280: bool, cs: seq<Command>)
    returns (n: nat, ghost live: seq<Area>, ghost ls: seq<BlockList>, ghost run: seq<Moment>)
    requires p.image.Length == IMAGE_SIZE && 0 < sysend && Round(sysend) < POOL_END && sysend < POOL_END && CellsPlaced(p.head, systop, polsz, tlist, plist, Round(sysend))
    requires Get16(p.image[..], polsz) == 0 == Get16(p.image[..], tlist) && Get16(p.image[..], plist) == 0 && forall k: nat :: k < |cs| ==> cs[k].Ok()
    requires Low(PoolAt(p.head, Round(sysend), POOL_END), tlist, plist, ContextSize(z280))
    modifies p.image, p`list, p`lo, p`hi
    ensures SystemOk(p, tlist, plist, live, ls) && n <= |cs| && |run| == n + 1 && run[n] == Now(p, live, ls)
    ensures run[0].s == PoolState([Area(Round(sysend), POOL_END - Round(sysend))], []) && run[0].ls == [BlockList(TaskLists.Tasks(tlist), []), BlockList(Mains(plist), [])]
    ensures Effects(PoolOf(p), z280, run, cs, n)
    ensures RunOk(PoolOf(p), run, cs, n + 1, tlist, plist) && (NoOrphans(run, cs, n) ==> n == |cs|)
    ensures n < |cs| ==> |run[n].ls| >= 2 && !Relies(run[n], cs[n], z280)
  {
    ls := SetUp(p, sysend, systop, polsz, tlist, plist);
    n, live, ls, run := Commands(p, tlist, plist, z280, cs, [], ls);
  }

  // ---------------------------------------------------------------
  // A task whose partition is gone, and two tasks of one name
  // ---------------------------------------------------------------

  ghost predicate HasArea(list: seq<Area>, n: nat)
  {
    exists k: nat :: k < |list| && list[k].size >= n
  }

  /** Consecutive free addresses are in one area. */
  lemma WholeArea(list: seq<Area>, lo: nat, hi: nat, a: nat, n: nat)
    requires Coalesced(list, lo, hi) && n > 0 && forall x: nat :: a <= x < a + n ==> Covers(list, x)
    ensures HasArea(list, n)
  {
    assert Covers(list, a);
    var k: nat :| k < |list| && In(list[k], a);
    EndNotCovered(list, lo, hi, k);
    assert a + n <= list[k].addr + list[k].size by {
      assert Covers(list, a);
    }
  }

  lemma EndNotCovered(list: seq<Area>, lo: nat, hi: nat, k: nat)
    requires Coalesced(list, lo, hi) && k < |list|
    ensures !Covers(list, list[k].addr + list[k].size)
  {
    forall j: nat | j < |list| ensures !In(list[j], list[k].addr + list[k].size) {
      if j < k { assert list[j].addr + list[j].size < list[k].addr; }
    }
  }

  /** After an allocation, one of the two parts of what was free is still free. */
  lemma RoomLeft(s: PoolState, b: Area, t: PoolState, lo: nat, hi: nat, n: nat)
    requires AllocStep(s, b, t, lo, hi) && HasArea(s.free, 2 * n + b.size) && n > 0
    ensures HasArea(t.free, n)
  {
    var k: nat :| k < |s.free| && s.free[k].size >= 2 * n + b.size;
    var a := s.free[k];
    var at := if a.addr + n <= b.addr || b.addr + b.size <= a.addr then a.addr else b.addr + b.size;
    forall x: nat | at <= x < at + n ensures Covers(t.free, x) {
      assert In(s.free[k], x);
    }
    WholeArea(t.free, lo, hi, at, n);
  }

  /** The name of a program, padded. */
  const PROG: seq<byte> := [80, 82, 79, 71, 32, 32]
  const PROG2: seq<byte> := [80, 82, 79, 71, 50, 32]
  /** The name of a partition, padded. */
  const PAR: seq<byte> := [80, 65, 82, 32, 32, 32]

  function Program(name: seq<byte>): Header
  {
    Header(name, PAR, 50, 0, 4096, 0, 8)
  }

  lemma NamedFirst(img: seq<byte>, n: nat, name: seq<byte>)
    requires NameOf(img, n) == name
    ensures Named(img, [n], name, 1) == 0
  {
  }

  /** A pool of some size, no tasks and no partitions. */
  ghost predicate Empty(p: SystemImage, tlist: nat, plist: nat)
    reads p, p.image
  {
    && p.Valid() && p.list == [Area(p.lo, p.hi - p.lo)] && p.lo + 1000 <= p.hi
    && tlist + 2 <= 0x1_0000 && plist + 2 <= 0x1_0000 && Apart(tlist, plist) && Get16(p.image[..], tlist) == 0 == Get16(p.image[..], plist)
    && (tlist + 2 <= p.lo || p.hi <= tlist) && Apart(tlist, p.head)
    && (plist + 2 <= p.lo || p.hi <= plist) && Apart(plist, p.head)
  }

  /** SET /PAR=PAR:16:16, pages 16 to 31, on an image without tasks and partitions. */
  method FirstPartition(p: SystemImage, tlist: nat, plist: nat, attr: byte) returns (pcb: nat, ghost live: seq<Area>, ghost ls: seq<BlockList>)
    requires Empty(p, tlist, plist)
    modifies p.image, p`list
    ensures SystemOk(p, tlist, plist, live, ls) && PlanOk(p.image[..], ls) && HasArea(p.list, 2 * 180 + Round(TaskLists.TCBSZ))
    ensures |ls| == 3 && ls[0].nodes == [] && ls[1].nodes == [pcb] && ls[2] == BlockList(Subs(pcb), []) && FreshPart(p.image[..], pcb, PAR, attr) && PartAt(p.image[..], pcb) == Part(16, 16)
  {
    FirstState(p, tlist, plist);
    ghost var ls0 := [BlockList(TaskLists.Tasks(tlist), []), BlockList(Mains(plist), [])];
    ghost var img, s := p.image[..], PoolState(p.list, []);
    assert HasArea(s.free, 2 * (2 * 180 + Round(TaskLists.TCBSZ)) + Round(PCBSZ)) by { assert p.list[0].size >= 1000; }
    pcb, live, ls := SetPar(p, plist, PAR, 16, 16, false, false, attr, tlist, [], ls0);
    OnlyPartition(img, s.free, p.image[..], ls0, attr, pcb, ls);
    RoomLeft(s, Area(pcb, Round(PCBSZ)), PoolState(p.list, live), p.lo, p.hi, 2 * 180 + Round(TaskLists.TCBSZ));
  }

  /** The first partition is accepted. */
  lemma OnlyPartition(img: seq<byte>, list: seq<Area>, img': seq<byte>, ls: seq<BlockList>, attr: byte, pcb: nat, ls': seq<BlockList>)
    requires |ls| == 2 && ls[1].nodes == [] && |ls'| >= 2 && PlanOk(img, ls) && HasArea(list, Round(PCBSZ))
    requires ParOutcome(img, list, img', ls, PAR, 16, 16, false, false, attr, pcb, ls')
    ensures pcb > 0 && PlanOk(img', ls') && |ls'| == 3 && ls'[0] == ls[0] && ls'[1].nodes == [pcb] && ls'[2] == BlockList(Subs(pcb), [])
    ensures FreshPart(img', pcb, PAR, attr) && PartAt(img', pcb) == Part(16, 16)
  {
    assert Parts(img, []) == [];
    assert PlaceMain([], 16, 16, false, false) == At(0, Part(16, 16));
    assert Sane([], 16, 16, false, false);
    assert Parts(img', ls'[1].nodes)[0] == PartAt(img', pcb);
  }

  /** INS on a list of partitions with just PAR. */
  method InstallIn(p: SystemImage, tlist: nat, plist: nat, z280: bool, name: seq<byte>, o: Options, ghost pcb: nat, ghost live: seq<Area>, ghost ls: seq<BlockList>, ghost n: nat)
    returns (tcb: nat, ghost live': seq<Area>, ghost ls': seq<BlockList>)
    requires SystemOk(p, tlist, plist, live, ls) && |name| == 6 && o.Ok() && o.par == [] && o.inc == 0
    requires Named(p.image[..], ls[0].nodes, name, |ls[0].nodes|) == |ls[0].nodes| && ls[1].nodes == [pcb] && NameOf(p.image[..], pcb) == PAR
    requires HasArea(p.list, 2 * n + Round(TaskLists.TCBSZ)) && n > 0
    modifies p.image, p`list
    ensures SystemOk(p, tlist, plist, live', ls') && HasArea(p.list, n) && OthersKept(old(p.image[..]), p.image[..], ls, 0)
    ensures Installed(old(p.image[..]), p.image[..], ls, Program(name), o, tcb, ls') && PartOf(p.image[..], tcb) == pcb && tcb !in ls[0].nodes && tcb > 0
    ensures SameLead(old(p.image[..]), ls, p.image[..], ls', ls[0].nodes) && RestStays(old(p.image[..]), p.image[..], ls, {})
  {
    ghost var s := PoolState(p.list, live);
    NamedFirst(p.image[..], pcb, PAR);
    tcb, live', ls' := Install(p, tlist, plist, Program(name), o, z280, live, ls);
    RoomLeft(s, Area(tcb, Round(TaskLists.TCBSZ)), PoolState(p.list, live'), p.lo, p.hi, n);
  }

  /** The task PROG alone, in the partition PAR alone. */
  ghost predicate ProgInPar(img: seq<byte>, ls: seq<BlockList>, pcb: nat, tcb: nat)
  {
    && |ls| == 3 && ls[0].nodes == [tcb] && ls[1].nodes == [pcb] && tcb > 0
    && SaysAsked(img, tcb, Program(PROG), Options([], [], 0, 0)) && PartOf(img, tcb) == pcb
    && Word(img, pcb, P_WAIT) == 0 && NameOf(img, pcb) == PAR && Word(img, pcb, P_SUB) == 0
  }

  /** SET /PAR=PAR:16:16:SYS and INS PROG. */
  method OneTask(p: SystemImage, tlist: nat, plist: nat, z280: bool) returns (pcb: nat, tcb: nat, ghost live: seq<Area>, ghost ls: seq<BlockList>)
    requires Empty(p, tlist, plist)
    modifies p.image, p`list
    ensures SystemOk(p, tlist, plist, live, ls) && ProgInPar(p.image[..], ls, pcb, tcb) && HasArea(p.list, 180)
  {
    pcb, live, ls := FirstPartition(p, tlist, plist, SYSTEM);
    ghost var ls1, img1, s := ls, p.image[..], PoolState(p.list, live);
    tcb, live, ls := InstallIn(p, tlist, plist, z280, PROG, Options([], [], 0, 0), pcb, live, ls, 180);
    OnlyTaskInstalled(img1, p.image[..], PoolOf(p), s, PoolState(p.list, live), ls1, tlist, plist, pcb, tcb, ls);
  }

  lemma OnlyTaskInstalled(img: seq<byte>, img': seq<byte>, at: PoolAt, s: PoolState, t: PoolState, ls: seq<BlockList>, tlist: nat, plist: nat, pcb: nat, tcb: nat, ls': seq<BlockList>)
    requires |ls| == 3 && ls[0].nodes == [] && ls[1].nodes == [pcb] && ls[2] == BlockList(Subs(pcb), []) && Word(img, pcb, P_WAIT) == 0 && NameOf(img, pcb) == PAR && tcb > 0
    requires Holds(img, at, s, ls, tlist, plist) && OthersKept(img, img', ls, 0) && Holds(img', at, t, ls', tlist, plist)
    requires Installed(img, img', ls, Program(PROG), Options([], [], 0, 0), tcb, ls') && PartOf(img', tcb) == pcb
    ensures ProgInPar(img', ls', pcb, tcb)
  {
    StillRemovable(img, img', at, s, t, ls, ls', tlist, plist, pcb);
    NamedFirst(img, pcb, PAR);
  }

  /** SET /PAR=PAR:16:16:SYS, INS PROG, SET /NOPAR=PAR: the task stays, its partition does not, and FIX PROG
      would follow its pointer out of a freed block. */
  method OrphanedTask(p: SystemImage, tlist: nat, plist: nat, z280: bool) returns (done: bool, tcb: nat, ghost live: seq<Area>, ghost ls: seq<BlockList>)
    requires Empty(p, tlist, plist)
    modifies p.image, p`list
    ensures done && SystemOk(p, tlist, plist, live, ls) && ls[0].nodes == [tcb] && ls[1].nodes == [] && NameOf(p.image[..], tcb) == PROG
    ensures !Leads(p.image[..], ls, tcb) && !Relies(Now(p, live, ls), FixedTask(PROG), z280)
  {
    var pcb;
    pcb, tcb, live, ls := OneTask(p, tlist, plist, z280);
    ghost var ls2, img2 := ls, p.image[..];
    assert |ls2| == 3;
    ghost var x;
    done, live, ls, x := NoPar(p, plist, PAR, tlist, live, ls);
    OrphanLooks(img2, p.image[..], ls2, ls, PoolState(p.list, live), x, done, tcb, pcb, z280);
  }

  /** The partition still has no sub-partitions and no waiting tasks. */
  lemma StillRemovable(img: seq<byte>, img': seq<byte>, at: PoolAt, s: PoolState, t: PoolState, ls: seq<BlockList>, ls': seq<BlockList>, tlist: nat, plist: nat, pcb: nat)
    requires |ls| == 3 && ls[1].nodes == [pcb] && ls[2] == BlockList(Subs(pcb), []) && Word(img, pcb, P_WAIT) == 0 && NameOf(img, pcb) == PAR
    requires Holds(img, at, s, ls, tlist, plist) && OthersKept(img, img', ls, 0)
    requires Holds(img', at, t, ls', tlist, plist) && |ls'| == 3 && ls'[1] == ls[1] && ls'[2] == ls[2]
    ensures Word(img', pcb, P_WAIT) == 0 && NameOf(img', pcb) == PAR && Word(img', pcb, P_SUB) == 0
  {
    assert BytesKept(img, img', ls[1], ls[0].kind.head);
    OthersStay(img, img', at, s, ls, tlist, plist, 0, 1);
    assert ListIn(img', at.head, at.lo, at.hi, t, ls'[2]) && ListIn(img', at.head, at.lo, at.hi, t, ls'[1]);
    CellFacts(img', ls'[2].kind, [], 0);
    assert ls[1].nodes[0] == pcb;
    PartWord(img', pcb);
    PartStays(img, img', ls[1], 0, 0);
    assert Field(img', pcb, P_WAIT) == Field(img, pcb, P_WAIT) && Field(img', pcb, P_WAIT + 1) == Field(img, pcb, P_WAIT + 1);
  }

  lemma OrphanLooks(img: seq<byte>, img': seq<byte>, ls: seq<BlockList>, ls': seq<BlockList>, s: PoolState, x: nat, done: bool, tcb: nat, pcb: nat, z280: bool)
    requires ProgInPar(img, ls, pcb, tcb)
    requires
      var i := Named(img, ls[1].nodes, PAR, |ls[1].nodes|);
      && (done <==> i < |ls[1].nodes| && Word(img, ls[1].nodes[i], P_SUB) == 0 && Word(img, ls[1].nodes[i], P_WAIT) == 0)
      && (done ==> |ls'| >= 2 && ParGone(img, img', ls, PAR, x, ls') && LeadElsewhere(img, ls, img', ls', ls[1].nodes[i]))
    ensures done && |ls'| >= 2 && ls'[0].nodes == [tcb] && ls'[1].nodes == [] && NameOf(img', tcb) == PROG
    ensures !Leads(img', ls', tcb) && !Relies(Moment(img', s, ls'), FixedTask(PROG), z280)
  {
    NamedFirst(img, pcb, PAR);
    assert ls[0].nodes[0] == tcb;
    assert ls'[1].nodes == WithoutNode([pcb], 0) == [];
    assert NameOf(img', tcb) == PROG;
    NamedFirst(img', tcb, PROG);
    assert And(0, TaskLists.FIXED) == 0;
  }

  /** The name in the header is looked for, and the name of the option is entered: with TASK=PROG, two
      programs become tasks of one name. */
  method TwoOfOneName(p: SystemImage, tlist: nat, plist: nat, z280: bool) returns (tcb: nat, tcb2: nat, ghost live: seq<Area>, ghost ls: seq<BlockList>)
    requires Empty(p, tlist, plist)
    modifies p.image, p`list
    ensures SystemOk(p, tlist, plist, live, ls) && tcb != tcb2 && tcb in ls[0].nodes && tcb2 in ls[0].nodes
    ensures NameOf(p.image[..], tcb) == PROG == NameOf(p.image[..], tcb2)
  {
    var pcb;
    pcb, tcb, live, ls := OneTask(p, tlist, plist, z280);
    ghost var img, ls1 := p.image[..], ls;
    assert NameOf(img, tcb) == PROG;
    NamedOther(img, tcb, PROG, PROG2);
    tcb2, live, ls := InstallIn(p, tlist, plist, z280, PROG2, Options(PROG, [], 0, 0), pcb, live, ls, 20);
    BothOfOneName(img, p.image[..], ls1, tcb, tcb2, ls);
  }

  lemma BothOfOneName(img: seq<byte>, img': seq<byte>, ls: seq<BlockList>, tcb: nat, tcb2: nat, ls': seq<BlockList>)
    requires |ls| >= 2 && ls[0].nodes == [tcb] && NameOf(img, tcb) == PROG && tcb2 !in ls[0].nodes
    requires Installed(img, img', ls, Program(PROG2), Options(PROG, [], 0, 0), tcb2, ls') && SameLead(img, ls, img', ls', ls[0].nodes)
    ensures tcb != tcb2 && tcb in ls'[0].nodes && tcb2 in ls'[0].nodes && NameOf(img', tcb) == PROG == NameOf(img', tcb2)
  {
    assert ls[0].nodes[0] == tcb;
    var i := TaskLists.InsertPoint(TaskLists.Priorities(img, ls[0].nodes), 50, 1);
    InWith(ls[0].nodes, i, tcb2, tcb);
    InWith(ls[0].nodes, i, tcb2, tcb2);
  }

  lemma NamedOther(img: seq<byte>, n: nat, name: seq<byte>, other: seq<byte>)
    requires NameOf(img, n) == name != other
    ensures Named(img, [n], other, 1) == 1
  {
  }
}
