/** Sessions: import, delete and export commands in any order and number.  In every moment between two of
    them the volume is in order, and each has the effect that it should have. */
module SessionRuns {
  import opened Bytes
  import opened BufferCache
  import opened Volumes
  import opened Allocation
  import opened VolumeSteps
  import opened Footprint
  import opened FileExtension
  import opened VolumeRuns
  import opened IndexArea
  import opened Directory
  import opened DirectoryFiles
  import opened FileCreation
  import opened FileLife
  import opened VolumeSession

  datatype Command =
    | Import(q: Request, host: seq<byte>)
    | Delete(fname: seq<byte>, ext: seq<byte>, vers: int)
    | Export(fname: seq<byte>, ext: seq<byte>, vers: int)
  {
    /** The names are what parse_name yields, and what is deleted or exported is not one of the volume's own
        files. */
    ghost predicate Sane(own: set<DirEntry>)
    {
      match this
      case Import(q, _) => q.Ok()
      case Delete(fname, ext, vers) => |fname| <= 9 && |ext| <= 3 && forall e :: e in own ==> !Hit(e, fname, ext, vers)
      case Export(fname, ext, vers) => |fname| <= 9 && |ext| <= 3 && forall e :: e in own ==> !Hit(e, fname, ext, vers)
    }

    /** Clusters that are sure to suffice. */
    function Price(cf: nat): nat
    {
      if Import? then 2 + NewCost(|host|, cf) else 0
    }
  }

  function Budget(commands: seq<Command>, cf: nat): nat
  {
    if commands == [] then 0 else commands[0].Price(cf) + Budget(commands[1..], cf)
  }

  /** None of them asks for a contiguous file. */
  predicate NoContiguous(commands: seq<Command>)
  {
    forall k: nat :: k < |commands| && commands[k].Import? ==> !commands[k].q.contiguous
  }

  /** With clusters of more than one block, enough of them are free for all commands, and none asks for a
      contiguous file. */
  ghost predicate Funded(v: Volume, vol: Image, commands: seq<Command>)
  {
    v.clfactor == 0 || (HasFree(v, vol, Budget(commands, v.clfactor)) && NoContiguous(commands))
  }

  lemma {:induction false} FundedNext(v: Volume, vol: Image, commands: seq<Command>, vol': Image)
    requires Funded(v, vol, commands) && commands != []
    requires v.clfactor == 0 || |Used(v, vol')| <= |Used(v, vol)| + commands[0].Price(v.clfactor)
    ensures Funded(v, vol', commands[1..])
  {
    assert forall k: nat :: k < |commands[1..]| ==> commands[1..][k] == commands[k + 1];
  }

  /** Nothing will go unnoticed. */
  lemma FundedImport(v: Volume, vol: Image, x: Extent, es: seq<DirEntry>, q: Request, n: nat)
    requires IndexAreaOk(v, vol) && q.Ok() && (v.clfactor == 0 || (!q.contiguous && HasFree(v, vol, 2 + NewCost(n, v.clfactor))))
    ensures AllNoticed(v, vol, x, es, q, n)
    ensures v.clfactor > 0 ==> DataFits(v, vol, x, es, q, n) && !CreateOutcome(v, vol, x, es, q).NotEntered? && ImportCost(v.clfactor, x, es, q, n) <= 2 + NewCost(n, v.clfactor)
  {
    NoClusters(v.clfactor);
  }

  // ---------------------------------------------------------------
  // One command
  // ---------------------------------------------------------------

  ghost predicate ExportEffect(fname: seq<byte>, ext: seq<byte>, vers: int, p: Report, s: Session, s': Session)
    requires |fname| <= 9 && |ext| <= 3
  {
    var r := Chosen(s.Entries(), |s.Entries()|, fname, ext, vers);
    && s' == s && (p.ok <==> r >= 0)
    && (p.ok ==> Ino(s.Entries()[r]) in s.contents && p.host == s.contents[Ino(s.Entries()[r])])
  }

  ghost predicate Effect(c: Command, p: Report, own: set<DirEntry>, s: Session, s': Session)
    requires c.Sane(own)
  {
    match c
    case Import(q, host) => exists ino: nat :: ImportEffect(q, host, p, ino, s, s')
    case Delete(fname, ext, vers) => !p.made.Made? && DeleteEffect(fname, ext, vers, p.ok, s, s')
    case Export(fname, ext, vers) => !p.made.Made? && ExportEffect(fname, ext, vers, p, s, s')
  }

  /** The bytes of every file are known. */
  ghost predicate AllKnown(s: Session)
  {
    forall m :: m in s.files ==> m <= OWN_INODES || m in s.contents
  }

  /** An import that has made a file without completing it: its bytes are not known. */
  predicate Partial(p: Report)
  {
    p.made.Made? && !p.ok
  }

  lemma StillKnown(c: Command, p: Report, own: set<DirEntry>, s: Session, s': Session)
    requires c.Sane(own) && Effect(c, p, own, s, s') && AllKnown(s) && !Partial(p)
    ensures AllKnown(s')
  {
    if c.Import? {
      var ino: nat :| ImportEffect(c.q, c.host, p, ino, s, s');
      forall m | m in s'.files ensures m <= OWN_INODES || m in s'.contents {
        assert m in s'.files.Keys;
      }
    } else if c.Delete? && p.ok {
      forall m | m in s'.files ensures m <= OWN_INODES || m in s'.contents {
        assert m in s'.files.Keys;
      }
    }
  }

  /** What export relies on. */
  lemma ExportKnown(v: Volume, vol: Image, s: Session, fname: seq<byte>, ext: seq<byte>, vers: int)
    requires IndexAreaOk(v, vol) && Consistent(v, vol, s) && AllKnown(s) && |fname| <= 9 && |ext| <= 3 && forall e :: e in s.own ==> !Hit(e, fname, ext, vers)
    ensures var r := Chosen(s.Entries(), |s.Entries()|, fname, ext, vers); r >= 0 ==> Ino(s.Entries()[r]) in s.contents
  {
    var es := s.Entries();
    var r := Chosen(es, |es|, fname, ext, vers);
    FoundIsHit(es, |es|, fname, ext, vers);
    if r >= 0 {
      ConsistentLinks(v, vol, s);
      ChosenIsLinked(v, vol, s, fname, ext, vers);
      assert LinkOk(v, vol, s.own, es[r]);
      ConsistentEntry(v, vol, s, Ino(es[r]));
    }
  }

  ghost predicate AllSane(commands: seq<Command>, own: set<DirEntry>)
  {
    forall k: nat :: k < |commands| ==> commands[k].Sane(own)
  }

  /** One command. */
  method Execute(v: Volume, dir: Fcb, c: Command, date: seq<byte>, ghost s: Session, ghost commands: seq<Command>) returns (p: Report, ghost s': Session)
    requires v.Valid() && SessionOk(v, dir, s) && |v.cache.pins| + 4 <= NBUFFERS && |date| == 7 && c.Sane(s.own)
    requires commands != [] && commands[0] == c && Funded(v, v.cache.logical, commands) && (c.Export? ==> AllKnown(s))
    modifies v.cache, v.cache.buffer, dir, dir.header
    ensures v.Valid() && SessionOk(v, dir, s') && Effect(c, p, s.own, s, s') && s'.own == s.own
    ensures !p.full ==> v.cache.pins == old(v.cache.pins) && Funded(v, v.cache.logical, commands[1..])
  {
    ghost var vol := v.cache.logical;
    match c
    case Import(q, host) =>
      FundedImport(v, vol, HeaderExtent(v, dir.header), s.Entries(), q, |host|);
      ghost var ino;
      p, ino, s' := ImportCommand(v, dir, q, host, date, s);
      if !p.full { FundedNext(v, vol, commands, v.cache.logical); }
    case Delete(fname, ext, vers) =>
      var ok;
      ok, s' := DeleteCommand(v, dir, fname, ext, vers, s);
      p := Report(ok, IndexFull, false, []);
      FundedNext(v, vol, commands, v.cache.logical);
    case Export(fname, ext, vers) =>
      var found, host;
      ExportKnown(v, vol, s, fname, ext, vers);
      found, host := ExportCommand(v, dir, fname, ext, vers, date, s);
      s' := s;
      p := Report(found, IndexFull, false, host);
      FundedNext(v, vol, commands, v.cache.logical);
  }

  // ---------------------------------------------------------------
  // Any number of commands
  // ---------------------------------------------------------------

  /** The volume between two commands, and what a user knows about it. */
  datatype Instant = Instant(vol: Image, s: Session)

  /** Files, bitmap, index, directory entries and contents agree. */
  ghost predicate InOrder(v: Volume, i: Instant)
  {
    VolumeOk(v, i.vol, i.s.files) && IndexAreaOk(v, i.vol) && Consistent(v, i.vol, i.s)
  }

  lemma NowInOrder(v: Volume, dir: Fcb, s: Session)
    requires SessionOk(v, dir, s)
    ensures InOrder(v, Instant(v.cache.logical, s))
  {
  }

  /** The instants before and after each command: all of them in order, and each command with its effect. */
  ghost predicate Traced(v: Volume, commands: seq<Command>, reports: seq<Report>, own: set<DirEntry>, trace: seq<Instant>)
    requires AllSane(commands, own)
  {
    && |reports| <= |commands| && |trace| == |reports| + 1
    && (forall k: nat :: k < |trace| ==> InOrder(v, trace[k]))
    && forall k: nat :: k < |reports| ==> Effect(commands[k], reports[k], own, trace[k].s, trace[k + 1].s)
  }

  lemma TraceGoesOn(v: Volume, commands: seq<Command>, reports: seq<Report>, own: set<DirEntry>, trace: seq<Instant>, p: Report, next: Instant)
    requires AllSane(commands, own) && Traced(v, commands, reports, own, trace) && |reports| < |commands| && InOrder(v, next)
    requires Effect(commands[|reports|], p, own, trace[|reports|].s, next.s)
    ensures Traced(v, commands, reports + [p], own, trace + [next])
  {
    var rs, t := reports + [p], trace + [next];
    forall k: nat | k < |rs| ensures Effect(commands[k], rs[k], own, t[k].s, t[k + 1].s) {
      if k < |reports| { assert rs[k] == reports[k] && t[k] == trace[k] && t[k + 1] == trace[k + 1]; }
    }
  }

  /** How far a run has come: it ends early only at a full disk or index, or in front of an export when some
      import was not completed. */
  ghost predicate Ended(commands: seq<Command>, reports: seq<Report>)
    requires |reports| <= |commands|
  {
    || |reports| == |commands|
    || (reports != [] && reports[|reports| - 1].full)
    || (commands[|reports|].Export? && exists k: nat :: k < |reports| && Partial(reports[k]))
  }

  /** Whether the bytes of all files are known. */
  ghost predicate Knowing(reports: seq<Report>, partial: bool, s: Session)
  {
    (partial ==> exists k: nat :: k < |reports| && Partial(reports[k])) && (!partial ==> AllKnown(s))
  }

  lemma KnowingNext(c: Command, p: Report, own: set<DirEntry>, s: Session, s': Session, reports: seq<Report>, partial: bool)
    requires c.Sane(own) && Effect(c, p, own, s, s') && Knowing(reports, partial, s)
    ensures Knowing(reports + [p], partial || Partial(p), s')
  {
    var rs := reports + [p];
    if partial {
      var k: nat :| k < |reports| && Partial(reports[k]);
      assert Partial(rs[k]);
    } else if Partial(p) {
      assert Partial(rs[|reports|]);
    } else {
      StillKnown(c, p, own, s, s');
    }
  }

  /** What a run knows in front of the next command. */
  ghost predicate Going(v: Volume, commands: seq<Command>, reports: seq<Report>, s: Session, trace: seq<Instant>, now: Session, full: bool, partial: bool)
    requires AllSane(commands, s.own)
  {
    && Traced(v, commands, reports, s.own, trace) && trace[0].s == s && trace[|reports|].s == now && now.own == s.own
    && Knowing(reports, partial, now)
    && (forall k: nat :: k < |reports| ==> (reports[k].full <==> full && k == |reports| - 1)) && (full ==> reports != [])
  }

  lemma GoesOn(v: Volume, commands: seq<Command>, reports: seq<Report>, s: Session, trace: seq<Instant>, now: Session, partial: bool, p: Report, next: Instant)
    requires AllSane(commands, s.own) && Going(v, commands, reports, s, trace, now, false, partial) && |reports| < |commands| && InOrder(v, next) && next.s.own == s.own
    requires Effect(commands[|reports|], p, s.own, now, next.s)
    ensures Going(v, commands, reports + [p], s, trace + [next], next.s, p.full, partial || Partial(p)) && (trace + [next])[0] == trace[0]
  {
    TraceGoesOn(v, commands, reports, s.own, trace, p, next);
    KnowingNext(commands[|reports|], p, s.own, now, next.s, reports, partial);
    var rs := reports + [p];
    forall k: nat | k < |rs| ensures rs[k].full <==> p.full && k == |rs| - 1 {
      if k < |reports| { assert rs[k] == reports[k]; }
    }
  }

  /** The next command of a run. */
  method Turn(v: Volume, dir: Fcb, commands: seq<Command>, date: seq<byte>, reports: seq<Report>, partial: bool, ghost s: Session, ghost trace: seq<Instant>, ghost now: Session)
    returns (p: Report, reports': seq<Report>, ghost trace': seq<Instant>, ghost next: Session)
    requires v.Valid() && SessionOk(v, dir, now) && |v.cache.pins| + 4 <= NBUFFERS && |date| == 7 && AllSane(commands, s.own)
    requires Going(v, commands, reports, s, trace, now, false, partial) && |reports| < |commands| && !(partial && commands[|reports|].Export?)
    requires Funded(v, v.cache.logical, commands[|reports|..])
    modifies v.cache, v.cache.buffer, dir, dir.header
    ensures v.Valid() && SessionOk(v, dir, next) && |reports'| == |reports| + 1
    ensures Going(v, commands, reports', s, trace', next, p.full, partial || Partial(p)) && trace'[0] == trace[0] && trace'[|reports'|].vol == v.cache.logical
    ensures !p.full ==> v.cache.pins == old(v.cache.pins) && Funded(v, v.cache.logical, commands[|reports'|..])
  {
    var n := |reports|;
    p, next := Execute(v, dir, commands[n], date, now, commands[n..]);
    assert commands[n..][1..] == commands[n + 1..];
    NowInOrder(v, dir, next);
    GoesOn(v, commands, reports, s, trace, now, partial, p, Instant(v.cache.logical, next));
    reports', trace' := reports + [p], trace + [Instant(v.cache.logical, next)];
  }

  /** Commands in any order and number: in every moment between two of them all is in order, and each has the
      effect that it should have. */
  method Run(v: Volume, dir: Fcb, commands: seq<Command>, date: seq<byte>, ghost s: Session) returns (reports: seq<Report>, ghost trace: seq<Instant>)
    requires v.Valid() && SessionOk(v, dir, s) && |v.cache.pins| + 4 <= NBUFFERS && |date| == 7 && AllKnown(s)
    requires AllSane(commands, s.own) && Funded(v, v.cache.logical, commands)
    modifies v.cache, v.cache.buffer, dir, dir.header
    ensures v.Valid() && Traced(v, commands, reports, s.own, trace) && trace[0] == Instant(old(v.cache.logical), s)
    ensures trace[|reports|].vol == v.cache.logical && SessionOk(v, dir, trace[|reports|].s)
    ensures Ended(commands, reports) && forall k: nat :: k + 1 < |reports| ==> !reports[k].full
    ensures reports == [] || !reports[|reports| - 1].full ==> v.cache.pins == old(v.cache.pins)
  {
    reports, trace := [], [Instant(v.cache.logical, s)];
    ghost var now := s;
    var full, partial := false, false;
    NowInOrder(v, dir, s);
    while !full && |reports| < |commands|
      invariant v.Valid() && SessionOk(v, dir, now) && Going(v, commands, reports, s, trace, now, full, partial)
      invariant trace[0].vol == old(v.cache.logical) && trace[|reports|].vol == v.cache.logical
      invariant !full ==> v.cache.pins == old(v.cache.pins) && Funded(v, v.cache.logical, commands[|reports|..])
      decreases !full, |commands| - |reports|
    {
      if partial && commands[|reports|].Export? { return; }
      var p;
      p, reports, trace, now := Turn(v, dir, commands, date, reports, partial, s, trace, now);
      full, partial := p.full, partial || Partial(p);
    }
  }

  /** The file of inode i is deleted by this command. */
  ghost predicate Deletes(c: Command, p: Report, own: set<DirEntry>, s: Session, i: nat)
    requires c.Sane(own)
  {
    c.Delete? && p.ok &&
    var k := FirstHit(s.Entries(), |s.Entries()|, c.fname, c.ext, c.vers);
    k < |s.Entries()| && Ino(s.Entries()[k]) == i
  }

  lemma {:induction false} StillThere(v: Volume, commands: seq<Command>, reports: seq<Report>, own: set<DirEntry>, trace: seq<Instant>, k: nat, i: nat)
    requires AllSane(commands, own) && Traced(v, commands, reports, own, trace) && k <= |reports| && i in trace[0].s.contents
    requires forall j: nat :: j < k ==> !Deletes(commands[j], reports[j], own, trace[j].s, i)
    ensures i in trace[k].s.contents && trace[k].s.contents[i] == trace[0].s.contents[i]
  {
    if k > 0 {
      StillThere(v, commands, reports, own, trace, k - 1, i);
      assert Effect(commands[k - 1], reports[k - 1], own, trace[k - 1].s, trace[k].s);
      assert !Deletes(commands[k - 1], reports[k - 1], own, trace[k - 1].s, i);
    }
  }

  /** What was imported is there until it is deleted, whatever else is imported, deleted or exported: in every
      moment the volume holds these bytes as the file of that inode. */
  lemma BytesStay(v: Volume, commands: seq<Command>, reports: seq<Report>, own: set<DirEntry>, trace: seq<Instant>, k: nat, i: nat)
    requires AllSane(commands, own) && Traced(v, commands, reports, own, trace) && k <= |reports| && i in trace[0].s.contents
    requires forall j: nat :: j < k ==> !Deletes(commands[j], reports[j], own, trace[j].s, i)
    ensures i in trace[k].s.contents && trace[k].s.contents[i] == trace[0].s.contents[i] && i in trace[k].s.files && IndexAreaOk(v, trace[k].vol)
    ensures FileHolds(v, trace[k].vol, trace[k].s.files[i], InodeIn(v, trace[k].vol, i), trace[0].s.contents[i])
  {
    StillThere(v, commands, reports, own, trace, k, i);
    assert InOrder(v, trace[k]);
    ConsistentLinks(v, trace[k].vol, trace[k].s);
    ConsistentEntry(v, trace[k].vol, trace[k].s, i);
  }
}
