/** All files of a volume together: no cluster is used twice or lost by any creation, growth, write or
    deletion. */
module VolumeRuns {
  import opened Bytes
  import opened Volumes
  import opened Allocation
  import opened FileMap
  import opened FileGrowth
  import opened FileContent
  import opened FileExtension
  import opened StreamIo

  /** What the inode or header of a live file says, and the clusters and map blocks it leads to. */
  datatype File = File(contiguous: bool, nalloc: nat, nused: nat, bmap: seq<nat>, slots: seq<nat>, maps: seq<nat>)

  ghost function Clus(v: Volume, f: File): set<nat>
  {
    Owned(v, f.slots, f.maps)
  }

  /** The pointers of the file are in order.  A contiguous file that failed to grow claims more
      used blocks than it has, so its count is left aside. */
  ghost predicate Sound(v: Volume, vol: Image, f: File)
  {
    FileState(v, vol, f.contiguous, f.nalloc, if f.contiguous then 0 else f.nused, f.bmap, f.slots, f.maps)
  }

  /** Clusters of any live file. */
  ghost function AllClus(v: Volume, files: map<nat, File>): set<nat>
  {
    set i, c | i in files && c in Clus(v, files[i]) :: c
  }

  ghost predicate RunKey(k: int)
  {
    true
  }

  /** No cluster belongs to two files, and the bitmap marks the system area and the clusters of
      live files, and nothing else: nothing is shared and nothing is lost. */
  ghost predicate VolumeOk(v: Volume, vol: Image, files: map<nat, File>)
  {
    && |vol| == v.NBlocks()
    && SystemArea(v, vol)
    && forall key {:trigger RunKey(key)} :: Folded(key) ==>
    && (forall i :: i in files ==> Sound(v, vol, files[i]))
    && (forall i, j :: i in files && j in files && i != j ==> Clus(v, files[i]) !! Clus(v, files[j]))
    && (forall c: nat :: c < v.NClusters() ==> (c in Used(v, vol) <==> c < v.fileArea || c in AllClus(v, files)))
  }

  lemma SoundFacts(v: Volume, vol: Image, f: File)
    requires Sound(v, vol, f)
    ensures SystemArea(v, vol) && Placed(v, f.slots, f.maps) && Clus(v, f) <= Used(v, vol)
    ensures forall c :: c in Clus(v, f) ==> v.fileArea <= c < v.NClusters()
  {
    StateFacts(v, vol, f.contiguous, f.nalloc, if f.contiguous then 0 else f.nused, f.bmap, f.slots, f.maps);
    assert PlaceKey(0);
  }

  lemma AllClusWith(v: Volume, files: map<nat, File>, i: nat, f: File)
    ensures AllClus(v, files[i := f]) == AllClus(v, files - {i}) + Clus(v, f)
  {
    var files' := files[i := f];
    forall c ensures c in AllClus(v, files') <==> c in AllClus(v, files - {i}) + Clus(v, f) {
      if c in Clus(v, f) { assert i in files' && c in Clus(v, files'[i]); }
      if c in AllClus(v, files - {i}) {
        var j :| j in files - {i} && c in Clus(v, (files - {i})[j]);
        assert j in files' && c in Clus(v, files'[j]);
      }
      if c in AllClus(v, files') {
        var j :| j in files' && c in Clus(v, files'[j]);
        if j != i { assert j in files - {i} && c in Clus(v, (files - {i})[j]); }
      }
    }
  }

  // ---------------------------------------------------------------
  // Steps
  // ---------------------------------------------------------------

  /** What the file of inode i holds before the step. */
  ghost function Before(files: map<nat, File>, i: nat): File
  {
    if i in files then files[i] else File(false, 0, 0, [0, 0, 0, 0, 0, 0], [], [])
  }

  /** A file is created, written to or extended, with or without success: this is what the
      operations on open files and the first fit for contiguous files establish. */
  ghost predicate GrowStep(v: Volume, vol: Image, files: map<nat, File>, i: nat, f: File, vol': Image)
  {
    var g := Before(files, i);
    Wrote(v, vol, g.slots, g.maps, vol', f.slots, f.maps) && Sound(v, vol', f)
  }

  /** A file is deleted. */
  ghost predicate DeleteStep(v: Volume, vol: Image, files: map<nat, File>, i: nat, vol': Image)
  {
    && i in files && OnlyClusterBits(v, vol, vol') && SystemArea(v, vol')
    && Used(v, vol') == Used(v, vol) - Clus(v, files[i])
  }

  /** Another file stays sound while a file grows ... */
  lemma SoundAfterGrowth(v: Volume, vol: Image, g: File, f: File, vol': Image, h: File)
    requires Wrote(v, vol, g.slots, g.maps, vol', f.slots, f.maps) && |vol| == v.NBlocks()
    requires Sound(v, vol, h) && Clus(v, h) !! Clus(v, g)
    ensures Sound(v, vol', h) && Clus(v, h) !! Clus(v, f)
  {
    var n := if h.contiguous then 0 else h.nused;
    StateFacts(v, vol, h.contiguous, h.nalloc, n, h.bmap, h.slots, h.maps);
    OtherFileKept(v, vol, vol', g.slots, g.maps, f.slots, f.maps, h.bmap, h.slots, h.maps, n);
    assert FileKey(0);
    if !h.contiguous { assert ChainKey(0); }
  }

  /** ... and while one is deleted. */
  lemma SoundAfterDeletion(v: Volume, vol: Image, own: set<nat>, vol': Image, h: File)
    requires OnlyClusterBits(v, vol, vol') && SystemArea(v, vol') && Used(v, vol') == Used(v, vol) - own
    requires Sound(v, vol, h) && Clus(v, h) !! own
    ensures Sound(v, vol', h)
  {
    SoundFacts(v, vol, h);
    assert FileKey(0);
    if !h.contiguous {
      assert ChainKey(0);
      MappedAfterBits(v, vol, vol', h.bmap, h.slots, h.maps);
    }
  }

  lemma GrowKeepsVolume(v: Volume, vol: Image, files: map<nat, File>, i: nat, f: File, vol': Image)
    requires VolumeOk(v, vol, files) && GrowStep(v, vol, files, i, f, vol')
    ensures VolumeOk(v, vol', files[i := f])
  {
    assert RunKey(0);
    assert WroteKey(0);
    var g, files' := Before(files, i), files[i := f];
    assert i !in files ==> Clus(v, g) == {};
    forall j | j in files && j != i ensures Sound(v, vol', files[j]) && Clus(v, files[j]) !! Clus(v, f) {
      SoundAfterGrowth(v, vol, g, f, vol', files[j]);
    }
    SoundFacts(v, vol', f);
    AllClusWith(v, files, i, f);
    AllClusWith(v, files, i, g);
    assert AllClus(v, files[i := g]) == AllClus(v, files) + Clus(v, g) by {
      if i in files { assert files[i := g] == files; } else { assert files - {i} == files; }
    }
    forall c: nat | c < v.NClusters() ensures c in Used(v, vol') <==> c < v.fileArea || c in AllClus(v, files') {
    }
  }

  lemma DeleteKeepsVolume(v: Volume, vol: Image, files: map<nat, File>, i: nat, vol': Image)
    requires VolumeOk(v, vol, files) && DeleteStep(v, vol, files, i, vol')
    ensures VolumeOk(v, vol', files - {i})
  {
    assert RunKey(0);
    var files' := files - {i};
    forall j | j in files' ensures Sound(v, vol', files'[j]) {
      SoundAfterDeletion(v, vol, Clus(v, files[i]), vol', files[j]);
    }
    SoundFacts(v, vol, files[i]);
    AllClusWith(v, files, i, files[i]);
    assert files[i := files[i]] == files;
    forall c: nat | c < v.NClusters() && c in AllClus(v, files') ensures c !in Clus(v, files[i]) {
      var j :| j in files' && c in Clus(v, files'[j]);
    }
  }

  // ---------------------------------------------------------------
  // Events
  // ---------------------------------------------------------------

  datatype Event = Grow(inode: nat, file: File) | Delete(inode: nat)

  datatype State = State(vol: Image, files: map<nat, File>)

  ghost predicate Step(v: Volume, s: State, e: Event, t: State)
  {
    match e
    case Grow(i, f) => GrowStep(v, s.vol, s.files, i, f, t.vol) && t.files == s.files[i := f]
    case Delete(i) => DeleteStep(v, s.vol, s.files, i, t.vol) && t.files == s.files - {i}
  }

  lemma StepKeepsVolume(v: Volume, s: State, e: Event, t: State)
    requires VolumeOk(v, s.vol, s.files) && Step(v, s, e, t)
    ensures VolumeOk(v, t.vol, t.files)
  {
    match e
    case Grow(i, f) => GrowKeepsVolume(v, s.vol, s.files, i, f, t.vol);
    case Delete(i) => DeleteKeepsVolume(v, s.vol, s.files, i, t.vol);
  }

  /** One step does not change the record or the bytes of another file. */
  lemma {:induction false} StepKeepsFile(v: Volume, s: State, e: Event, t: State, i: nat, n: nat)
    requires VolumeOk(v, s.vol, s.files) && Step(v, s, e, t) && i in s.files && i != e.inode
    requires forall b: nat :: b < n ==> Shr(b, v.clfactor) < |s.files[i].slots|
    ensures i in t.files && t.files[i] == s.files[i]
    ensures Flat(v, t.vol, s.files[i].slots, n) == Flat(v, s.vol, s.files[i].slots, n)
  {
    assert RunKey(0);
    var h := s.files[i];
    SoundFacts(v, s.vol, h);
    match e
    case Grow(j, f) =>
      var g := Before(s.files, j);
      assert j !in s.files ==> Clus(v, g) == {};
      OtherFileKept(v, s.vol, t.vol, g.slots, g.maps, f.slots, f.maps, h.bmap, h.slots, h.maps, n);
    case Delete(j) =>
      BitsKeepFlat(v, s.vol, t.vol, h.slots, h.maps, n);
  }

  lemma {:induction false} BitsKeepFlat(v: Volume, vol: Image, vol': Image, slots: seq<nat>, maps: seq<nat>, n: nat)
    requires OnlyClusterBits(v, vol, vol') && SystemArea(v, vol) && Placed(v, slots, maps)
    requires forall b: nat :: b < n ==> Shr(b, v.clfactor) < |slots|
    ensures Flat(v, vol', slots, n) == Flat(v, vol, slots, n)
  {
    assert BitsKey(0);
    forall b: nat | b < n ensures FileBlock(v, vol, slots, b) == FileBlock(v, vol', slots, b) {
      LbnInFileArea(v, slots, maps, b);
      FileBlockOutsideBitmap(v, vol, Lbn(v, slots, b));
    }
    FlatSame(v, vol, slots, vol', slots, n);
  }

  /** In the system area nothing but bits of clusters changed. */
  ghost predicate SystemKept(v: Volume, vol: Image, vol': Image)
  {
    && |vol'| == |vol|
    && forall key {:trigger RunKey(key)} :: Folded(key) ==>
    && (forall b: nat :: b < |vol| && !InBitmap(v, b) && Shr(b, v.clfactor) < v.fileArea ==> vol'[b] == vol[b])
    && (v.bmblock < |vol| ==> forall o: nat :: o < BMHDRSZ ==> vol'[v.bmblock][o] == vol[v.bmblock][o])
    && (forall i: nat :: i >= v.NClusters() && InBitmap(v, v.bmblock + BitBlock(i)) ==> Bit(vol', v.bmblock, i) == Bit(vol, v.bmblock, i))
  }

  lemma StepKeepsSystem(v: Volume, s: State, e: Event, t: State)
    requires VolumeOk(v, s.vol, s.files) && Step(v, s, e, t)
    ensures SystemKept(v, s.vol, t.vol)
  {
    match e
    case Grow(i, f) =>
      assert WroteKey(0);
      SoundFacts(v, t.vol, f);
    case Delete(i) =>
      assert BitsKey(0);
  }
}
