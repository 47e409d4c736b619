/** The first session on a new volume: after formatting and mounting, commands can begin. */
module FirstSession {
  import opened Bytes
  import opened Volumes
  import opened Allocation
  import opened FileExtension
  import opened IndexArea
  import opened Directory
  import opened DiskLayout
  import opened Formatter
  import opened FormatLaws
  import opened FormatIndex
  import opened Mounting
  import opened VolumeSession
  import opened SessionRuns
  import MasterDirectory

  /** The directory entries of the system files. */
  ghost function OwnEntries(): set<DirEntry>
  {
    set k: nat | k < OWN_INODES :: MasterDirectory.MasterEntry(k)
  }

  ghost function NewSession(disk: Image, l: Layout): Session
    requires l.mdstblk < |disk|
  {
    Session(MasterFile(l), 5, MasterBytes(disk, l), map[], OwnEntries())
  }

  lemma NewEntryOk(v: Volume, disk: Image, l: Layout, r: Recipe, m: nat)
    requires NewDisk(disk, l, r) && IsMounted(v, l) && IndexAreaOk(v, disk) && 1 <= m <= Files(v, disk) && l.mdstblk < |disk|
    ensures EntryOk(v, disk, NewSession(disk, l), m)
  {
    assert m <= 8 * l.ixblocks && m < 0x1_0000 by { NewIndexHeaders(v, disk, l, r); }
    assert Bit(disk, IxBitmap(v, disk), m - 1) <==> m <= 7 by { NewIndexOk(v, disk, l, r); }
    InodeInIndex(v, disk, m);
    InodeOnDisk(v, disk, l, r, m - 1);
  }

  lemma NewLinksOk(v: Volume, disk: Image, l: Layout, r: Recipe)
    requires NewDisk(disk, l, r) && IsMounted(v, l) && IndexAreaOk(v, disk) && l.mdstblk < |disk| && OWN_INODES <= Files(v, disk)
    requires forall m: nat :: 1 <= m <= Files(v, disk) ==> EntryOk(v, disk, NewSession(disk, l), m)
    ensures LinksOk(v, disk, OwnEntries(), NewSession(disk, l).Entries())
  {
    assert MasterDirectory.IsMaster(disk[l.mdstblk]) by { assert FormatKey(0); }
    MasterDirectory.MasterEntries(disk[l.mdstblk]);
    var es := NewSession(disk, l).Entries();
    forall k: nat | k < |es| ensures LinkOk(v, disk, OwnEntries(), es[k]) {
      assert es[k] == MasterDirectory.MasterEntry(k);
      if k < OWN_INODES { assert EntryOk(v, disk, NewSession(disk, l), k + 1); }
    }
  }

  /** A new volume is in order, and nothing has been imported yet. */
  lemma NewIsConsistent(v: Volume, disk: Image, l: Layout, r: Recipe)
    requires NewDisk(disk, l, r) && IsMounted(v, l) && IndexAreaOk(v, disk) && l.mdstblk < |disk| && r.nfiles < 65536
    ensures Consistent(v, disk, NewSession(disk, l))
  {
    NewIndexHeaders(v, disk, l, r);
    assert r.nfiles >= 32 by { assert PlanKey(0); }
    forall m: nat | 1 <= m <= Files(v, disk) ensures EntryOk(v, disk, NewSession(disk, l), m) {
      NewEntryOk(v, disk, l, r, m);
    }
    NewLinksOk(v, disk, l, r);
    ConsistentIntro(v, disk, NewSession(disk, l));
  }

  /** A disk is made and mounted, and the first session begins: the master directory is the current one. */
  method BeginSession(image: Image, ghost l: Layout, ghost r: Recipe) returns (v: Volume, dir: Fcb)
    requires NewDisk(image, l, r) && r.nfiles < 65536
    ensures fresh(v) && fresh(v.cache) && fresh(v.cache.buffer) && fresh(dir) && fresh(dir.header) && v.Valid() && v.cache.pins == multiset{}
    ensures IsMounted(v, l) && l.mdstblk < |image| && SessionOk(v, dir, NewSession(image, l)) && v.cache.logical == image
  {
    var h;
    v, h := MountNew(image, l, r);
    dir := new Fcb(h);
    assert l.mdstblk < |image|;
    NewIsConsistent(v, image, l, r);
  }

  /** Enough of the new volume's clusters are free for all commands; with clusters of single blocks, nothing
      needs to be known beforehand. */
  predicate Affordable(l: Layout, commands: seq<Command>)
  {
    l.clfactor == 0 || (SystemClusters(l) + Budget(commands, l.clfactor) <= Shr(l.nblocks, l.clfactor) && NoContiguous(commands))
  }

  lemma AffordableIsFunded(v: Volume, disk: Image, l: Layout, r: Recipe, commands: seq<Command>)
    requires NewDisk(disk, l, r) && IsMounted(v, l)
    ensures Affordable(l, commands) <==> Funded(v, disk, commands)
  {
    NewVolumeOk(v, disk, l, r);
    BoundedSize(Used(v, disk), SystemClusters(l));
    InitialSegmentSize(Used(v, disk), SystemClusters(l));
  }

  /** From formatting through any number of commands.  What the byte that create_disk stores behind its
      buffer for very many system clusters hits is not looked at. */
  method FormatAndRun(nblocks: nat, nfiles: nat, date: seq<byte>, text: Block, mounted: byte, commands: seq<Command>)
    returns (o: Outcome, v: Volume?, dir: Fcb?, reports: seq<Report>, ghost trace: seq<Instant>)
    requires |date| == 7 && nfiles < 65536 && AllSane(commands, OwnEntries())
    ensures o.Refused? <==> !Accepted(nblocks, nfiles)
    ensures o.Planned? && Affordable(o.layout, commands) ==>
      && v != null && dir != null && v.Valid()
      && Traced(v, commands, reports, OwnEntries(), trace) && trace[0].s.contents == map[]
      && Ended(commands, reports) && trace[|reports|].vol == v.cache.logical && SessionOk(v, dir, trace[|reports|].s)
  {
    var image, overrun;
    o, image, overrun := CreateDisk(nblocks, nfiles, date, text, mounted);
    v, dir, reports, trace := null, null, [], [];
    if o.Planned? && Affordable(o.layout, commands) {
      v, dir := BeginSession(image, o.layout, Recipe(nblocks, nfiles, text));
      AffordableIsFunded(v, image, o.layout, Recipe(nblocks, nfiles, text), commands);
      reports, trace := Run(v, dir, commands, date, NewSession(image, o.layout));
    }
  }
}
