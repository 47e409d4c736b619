/** Runs of the checker: how many messages the first one prints, and that a second one has nothing to
    correct. */
module CheckerRuns {
  import opened Bytes
  import opened BufferCache
  import opened Volumes
  import opened Allocation
  import opened FileMap
  import opened VolumeRuns
  import opened Inodes
  import opened CheckerClaims
  import opened Checker
  import opened CheckerCompare
  import opened CheckerLaws

  // ---------------------------------------------------------------
  // What is reported
  // ---------------------------------------------------------------

  /** The bit of c on disk is not the rebuilt one. */
  ghost predicate Differs(v: Volume, was: Image, bm: seq<byte>, c: nat)
  {
    c < 8 * |bm| && Bit(was, v.bmblock, c) != (c in Marked(bm))
  }

  /** Such bits below m. */
  ghost function Differing(v: Volume, was: Image, bm: seq<byte>, m: nat): set<nat>
  {
    set c: nat | c < m && Differs(v, was, bm, c)
  }

  lemma {:induction false} DifferingNext(v: Volume, was: Image, bm: seq<byte>, m: nat)
    ensures |Differing(v, was, bm, m + 1)| == |Differing(v, was, bm, m)| + if Differs(v, was, bm, m) then 1 else 0
  {
    var a, b := Differing(v, was, bm, m), Differing(v, was, bm, m + 1);
    forall c | c != m ensures c in a <==> c in b {
    }
    if m in b { assert b == a + {m}; } else { assert b == a; }
  }

  lemma {:induction false} DifferingBits(v: Volume, was: Image, bm: seq<byte>, i: nat, o: nat, k: nat, n: nat)
    requires k == 512 * i + o - BMHDRSZ && o < 512 && v.bmblock + i < |was| && n <= 8
    ensures |Differing(v, was, bm, 8 * k + n)| == |Differing(v, was, bm, 8 * k)| + if k < |bm| then DiffBits(bm[k], was[v.bmblock + i][o], n) else 0
  {
    if n > 0 {
      DifferingBits(v, was, bm, i, o, k, n - 1);
      var c := 8 * k + n - 1;
      DifferingNext(v, was, bm, c);
      CursorClosedForm(c);
      assert c / 8 == k && c % 8 == n - 1;
      assert BitBlock(c) == i && BitOffset(c) == o;
    }
  }

  /** The bits of the bytes up to o of block i. */
  lemma {:induction false} DifferingBytes(v: Volume, was: Image, d: Block, bm: seq<byte>, i: nat, o: nat)
    requires FirstByte(i) <= o <= 512 && v.bmblock + i < |was| && CorrectUpTo(v, was[v.bmblock + i], d, bm, i, 512)
    ensures |Differing(v, was, bm, 8 * (512 * i + o - BMHDRSZ))|
      == |Differing(v, was, bm, 8 * (512 * i + FirstByte(i) - BMHDRSZ))| + BlockDiffs(was[v.bmblock + i], d, FirstByte(i), o)
  {
    if o > FirstByte(i) {
      DifferingBytes(v, was, d, bm, i, o - 1);
      var k: nat := 512 * i + (o - 1) - BMHDRSZ;
      DifferingBits(v, was, bm, i, o - 1, k, 8);
      assert d[o - 1] == CorrectByte(v, was[v.bmblock + i][o - 1], bm, i, o - 1);
      if k >= |bm| { SameByte(d[o - 1], was[v.bmblock + i][o - 1]); }
    }
  }

  /** The number of messages about differences is the number of bits that differ. */
  lemma {:induction false} DiffsCounted(v: Volume, was: Image, vol: Image, bm: seq<byte>, n: nat, m: nat)
    requires Corrected(v, was, vol, bm, m) && n <= m
    ensures TotalDiffs(v, was, vol, n) == |Differing(v, was, bm, if n == 0 then 0 else 8 * (512 * n - BMHDRSZ))|
  {
    if n == 0 {
      assert Differing(v, was, bm, 0) == {};
    } else {
      DiffsCounted(v, was, vol, bm, n - 1, m);
      var i := n - 1;
      assert CorrectUpTo(v, was[v.bmblock + i], vol[v.bmblock + i], bm, i, 512) by { assert CompareKey(0); }
      DifferingBytes(v, was, vol[v.bmblock + i], bm, i, 512);
    }
  }

  // ---------------------------------------------------------------
  // The same bitmap again
  // ---------------------------------------------------------------

  /** The marked clusters determine the bitmap in memory. */
  lemma {:induction false} MarkedDetermines(a: seq<byte>, b: seq<byte>)
    requires |a| == |b| && Marked(a) == Marked(b)
    ensures a == b
  {
    forall k: nat | k < |a| ensures a[k] == b[k] {
      forall l: nat | l < 8 ensures BitOf(a[k], l) == BitOf(b[k], l) {
        var c := 8 * k + l;
        assert c / 8 == k && c % 8 == l;
        assert c in Marked(a) <==> c in Marked(b);
      }
      ByteExtensional(a[k], b[k]);
    }
  }

  /** The first n inodes and the map blocks of files lie outside the bitmap. */
  ghost predicate OutsideBitmap(v: Volume, files: map<nat, File>, n: nat, bmblks: nat)
  {
    && (n > 0 ==> n < 0x1_0000 && InodeBlock(v, n) < v.bmblock)
    && forall key {:trigger MarkKey(key)} :: Folded(key) ==>
    forall i: nat, k: nat :: i in files && k < |files[i].maps| ==> !(v.bmblock <= files[i].maps[k] < v.bmblock + bmblks)
  }

  lemma StaysReadable(v: Volume, was: Image, vol: Image, bm: seq<byte>, bmblks: nat, f: File)
    requires Corrected(v, was, vol, bm, bmblks) && Readable(v, was, f)
    requires forall k: nat :: k < |f.maps| ==> !(v.bmblock <= f.maps[k] < v.bmblock + bmblks)
    ensures Readable(v, vol, f)
  {
    assert CompareKey(0);
    assert ReadKey(0);
    if !f.contiguous { MappedFrame(v, was, vol, f.bmap, f.slots, f.maps); }
  }

  /** The correction of the bitmap does not touch what the rebuilding reads. */
  lemma IndexStays(v: Volume, was: Image, vol: Image, bm: seq<byte>, bmblks: nat, files: map<nat, File>, n: nat)
    requires Corrected(v, was, vol, bm, bmblks) && IndexIs(v, was, files, n) && OutsideBitmap(v, files, n, bmblks)
    ensures IndexIs(v, vol, files, n)
  {
    forall i: nat {:trigger i in files} | 1 <= i <= n && InodeBlock(v, i) < |vol|
      ensures (i in files <==> LinkCount(InodeAt(v, vol, i)) > 0)
      ensures i in files ==> Agrees(files[i], InodeAt(v, vol, i)) && Readable(v, vol, files[i])
    {
      IndexEntry(v, was, files, n, i);
      assert Slot(i) <= Slot(n);
      assert vol[InodeBlock(v, i)] == was[InodeBlock(v, i)] by { assert CompareKey(0); }
      if i in files {
        assert MarkKey(0);
        StaysReadable(v, was, vol, bm, bmblks, files[i]);
      }
    }
  }

  /** A second run of the checker right after the first one: it rebuilds the same bitmap, finds no bit
      that differs, changes nothing, and reports only the clusters that are claimed twice. */
  method CheckTwice(v: Volume, inodes: nat, bmsize: nat, bmblks: nat, ghost files: map<nat, File>) returns (first: nat, second: nat, ghost between: Image, ghost bm: seq<byte>)
    requires v.Valid() && |v.cache.pins| + 1 < NBUFFERS && v.clfactor < 256 && IndexIs(v, v.cache.logical, files, inodes)
    requires bmsize == (v.NClusters() + 7) / 8 + BMHDRSZ && bmblks == (bmsize + 511) / 512 && v.bmblock + bmblks <= v.NBlocks()
    requires OutsideBitmap(v, files, inodes, bmblks)
    modifies v.cache, v.cache.buffer
    ensures v.Valid() && v.cache.Kept(old(v.cache.pins)) && v.cache.pins == old(v.cache.pins)
    ensures |bm| == bmsize && Corrected(v, old(v.cache.logical), between, bm, bmblks) && Marked(bm) == Elems(IndexClaims(v, files, inodes))
    ensures first == Repeats({}, IndexClaims(v, files, inodes)) + TotalDiffs(v, old(v.cache.logical), between, bmblks)
    ensures v.cache.logical == between && second == Repeats({}, IndexClaims(v, files, inodes))
    ensures forall c: nat :: c in Used(v, between) <==> c < v.NClusters() && c in Elems(IndexClaims(v, files, inodes))
  {
    ghost var was := v.cache.logical;
    ghost var bm';
    first, bm := CheckAllocMap(v, inodes, bmsize, bmblks, files);
    between := v.cache.logical;
    IndexStays(v, was, between, bm, bmblks, files, inodes);
    assert v.cache.Kept(old(v.cache.pins));
    second, bm' := CheckAllocMap(v, inodes, bmsize, bmblks, files);
    MarkedDetermines(bm, bm');
    SecondPass(v, was, between, v.cache.logical, bm, bmblks);
  }

  // ---------------------------------------------------------------
  // A volume in order
  // ---------------------------------------------------------------

  /** The inodes in use are those of the volume's own files and of the live files, and say what the files
      are; the checker can follow the pointers of the volume's own. */
  ghost predicate Recorded(v: Volume, vol: Image, sys: map<nat, File>, files: map<nat, File>, n: nat)
  {
    && n < 0x1_0000 && (n > 0 ==> InodeBlock(v, n) < |vol|)
    && forall key {:trigger MarkKey(key)} :: Folded(key) ==>
    forall i: nat {:trigger InodeBlock(v, i)} :: 1 <= i <= n && InodeBlock(v, i) < |vol| ==>
      && (i in sys || i in files <==> LinkCount(InodeAt(v, vol, i)) > 0)
      && (i in files ==> Agrees(files[i], InodeAt(v, vol, i)))
      && (i in sys ==> Agrees(sys[i], InodeAt(v, vol, i)) && Readable(v, vol, sys[i]))
  }

  /** The checker can follow the pointers of all files. */
  lemma RecordedIsIndex(v: Volume, vol: Image, sys: map<nat, File>, files: map<nat, File>, n: nat)
    requires VolumeOk(v, vol, files) && Recorded(v, vol, sys, files, n) && sys.Keys !! files.Keys
    ensures IndexIs(v, vol, sys + files, n)
  {
    var all := sys + files;
    forall i: nat {:trigger i in all} | 1 <= i <= n && InodeBlock(v, i) < |vol|
      ensures (i in all <==> LinkCount(InodeAt(v, vol, i)) > 0)
      ensures i in all ==> Agrees(all[i], InodeAt(v, vol, i)) && Readable(v, vol, all[i])
    {
      assert MarkKey(0);
      if i in files {
        assert Sound(v, vol, files[i]) by { assert RunKey(0); }
        SoundIsReadable(v, vol, files[i]);
      }
    }
  }

  /** Files whose last map block the checker misses. */
  ghost function MissedFiles(v: Volume, files: map<nat, File>): set<nat>
  {
    set i | i in files && LastMapMissed(v, files[i])
  }

  ghost function MissedCluster(v: Volume, f: File): nat
  {
    if f.maps == [] then 0 else Shr(f.maps[|f.maps| - 1], v.clfactor)
  }

  /** Bits behind the last cluster that are set on disk. */
  ghost function Padding(v: Volume, vol: Image, m: nat): set<nat>
  {
    set c: nat | v.NClusters() <= c < m && Bit(vol, v.bmblock, c)
  }

  ghost function ClustersOf(v: Volume, files: map<nat, File>, s: set<nat>): set<nat>
    requires forall i :: i in s ==> i in files
  {
    set i | i in s :: MissedCluster(v, files[i])
  }

  /** Different files, different missed clusters. */
  lemma {:induction false} AsManyClusters(v: Volume, vol: Image, files: map<nat, File>, s: set<nat>)
    requires VolumeOk(v, vol, files) && s <= MissedFiles(v, files)
    ensures |ClustersOf(v, files, s)| == |s|
    decreases |s|
  {
    if s == {} {
      assert ClustersOf(v, files, s) == {};
    } else {
      var i :| i in s;
      var t := s - {i};
      AsManyClusters(v, vol, files, t);
      var c := MissedCluster(v, files[i]);
      assert ClustersOf(v, files, s) == ClustersOf(v, files, t) + {c};
      forall j | j in t ensures MissedCluster(v, files[j]) != c {
        MissedApart(v, vol, files, i, j);
      }
    }
  }

  lemma MissedApart(v: Volume, vol: Image, files: map<nat, File>, i: nat, j: nat)
    requires VolumeOk(v, vol, files) && i in MissedFiles(v, files) && j in MissedFiles(v, files) && i != j
    ensures MissedCluster(v, files[i]) != MissedCluster(v, files[j])
  {
    assert Sound(v, vol, files[i]) && Sound(v, vol, files[j]) && Clus(v, files[i]) !! Clus(v, files[j]) by { assert RunKey(0); }
    ClaimsAreClusters(v, vol, files[i]);
    ClaimsAreClusters(v, vol, files[j]);
  }

  lemma MissedAre(v: Volume, files: map<nat, File>, c: nat)
    ensures Missed(v, files, c) <==> c in ClustersOf(v, files, MissedFiles(v, files))
  {
  }

  /** On a volume in order the bits that differ are those of missed clusters, and set padding bits. */
  lemma DifferingOnSound(v: Volume, vol: Image, sys: map<nat, File>, files: map<nat, File>, n: nat, bm: seq<byte>, m: nat)
    requires VolumeOk(v, vol, files) && SystemFiles(v, sys) && sys.Keys !! files.Keys && forall i :: i in sys || i in files ==> 1 <= i <= n
    requires Marked(bm) == Elems(IndexClaims(v, sys + files, n)) && v.NClusters() <= m <= 8 * |bm|
    ensures Differing(v, vol, bm, m) == ClustersOf(v, files, MissedFiles(v, files)) + Padding(v, vol, m)
    ensures ClustersOf(v, files, MissedFiles(v, files)) !! Padding(v, vol, m)
  {
    ConsistentVolume(v, vol, sys, files, n);
    forall c: nat ensures c in ClustersOf(v, files, MissedFiles(v, files)) ==> c < v.NClusters() && c in Used(v, vol) {
      MissedAre(v, files, c);
      if Missed(v, files, c) { MissedIsUsed(v, vol, files, c); }
    }
    forall c: nat | c < m ensures Differs(v, vol, bm, c) <==> c in ClustersOf(v, files, MissedFiles(v, files)) + Padding(v, vol, m) {
      MissedAre(v, files, c);
      if c >= v.NClusters() { BeyondUnclaimed(v, vol, sys, files, n, c); }
    }
  }

  lemma MissedIsUsed(v: Volume, vol: Image, files: map<nat, File>, c: nat)
    requires VolumeOk(v, vol, files) && Missed(v, files, c)
    ensures c < v.NClusters() && c in Used(v, vol)
  {
    var i :| i in files && LastMapMissed(v, files[i]) && c == Shr(files[i].maps[|files[i].maps| - 1], v.clfactor);
    assert Sound(v, vol, files[i]) by { assert RunKey(0); }
    ClaimsAreClusters(v, vol, files[i]);
    SoundFacts(v, vol, files[i]);
  }

  lemma BeyondUnclaimed(v: Volume, vol: Image, sys: map<nat, File>, files: map<nat, File>, n: nat, c: nat)
    requires VolumeOk(v, vol, files) && SystemFiles(v, sys) && c >= v.NClusters()
    ensures c !in IndexClaims(v, sys + files, n)
  {
    IndexElems(v, sys + files, n, c);
    assert v.fileArea <= v.NClusters() by { assert BitsKey(0); }
    assert !ClaimedBy(v, sys, c);
    forall i | i in files ensures c !in FileClaims(v, files[i]) {
      if c in FileClaims(v, files[i]) { ClaimOwner(v, vol, files, i, c); }
    }
  }

  /** Bits of the bitmap blocks that the checker compares. */
  ghost function Compared(bmsize: nat, bmblks: nat): nat
  {
    if bmblks == 0 then 0 else if 512 * bmblks - BMHDRSZ < bmsize then 8 * (512 * bmblks - BMHDRSZ) else 8 * bmsize
  }

  lemma DifferingBeyond(v: Volume, was: Image, bm: seq<byte>, m: nat)
    requires m >= 8 * |bm|
    ensures Differing(v, was, bm, m) == Differing(v, was, bm, 8 * |bm|)
  {
  }

  /** The map blocks of live files lie behind the system area. */
  lemma FilesOutside(v: Volume, vol: Image, sys: map<nat, File>, files: map<nat, File>, n: nat, bmblks: nat)
    requires VolumeOk(v, vol, files) && OutsideBitmap(v, sys, n, bmblks) && bmblks == ((v.NClusters() + 7) / 8 + BMHDRSZ + 511) / 512
    ensures OutsideBitmap(v, sys + files, n, bmblks)
  {
    var all := sys + files;
    forall i: nat, k: nat | i in all && k < |all[i].maps| ensures !(v.bmblock <= all[i].maps[k] < v.bmblock + bmblks) {
      if i in files {
        assert Sound(v, vol, files[i]) by { assert RunKey(0); }
        SoundFacts(v, vol, files[i]);
        BehindBitmap(v, vol, files[i], k, bmblks);
      } else {
        assert MarkKey(0);
      }
    }
  }

  lemma BehindBitmap(v: Volume, vol: Image, f: File, k: nat, bmblks: nat)
    requires SystemArea(v, vol) && Placed(v, f.slots, f.maps) && k < |f.maps| && bmblks == ((v.NClusters() + 7) / 8 + BMHDRSZ + 511) / 512
    ensures v.bmblock + bmblks <= f.maps[k]
  {
    assert BitsKey(0);
    CursorClosedForm(v.NClusters() - 1);
    assert bmblks == BitBlock(v.NClusters() - 1) + 1;
    assert Shr(f.maps[k], v.clfactor) >= v.fileArea by { assert PlaceKey(0); }
    ShrOrder(f.maps[k], v.fileArea, v.clfactor);
  }

  /** The checker, run twice on a volume in order whose inodes are recorded: the first run prints one
      message for each file whose last map block it misses, and one for each padding bit that is set, and
      unmarks the clusters of those map blocks; the second one prints nothing and changes nothing. */
  method CheckSound(v: Volume, inodes: nat, bmsize: nat, bmblks: nat, ghost sys: map<nat, File>, ghost files: map<nat, File>) returns (first: nat, second: nat)
    requires v.Valid() && |v.cache.pins| + 1 < NBUFFERS && v.clfactor < 256 && VolumeOk(v, v.cache.logical, files)
    requires SystemFiles(v, sys) && sys.Keys !! files.Keys && Recorded(v, v.cache.logical, sys, files, inodes) && OutsideBitmap(v, sys, inodes, bmblks)
    requires forall i :: i in sys || i in files ==> 1 <= i <= inodes
    requires bmsize == (v.NClusters() + 7) / 8 + BMHDRSZ && bmblks == (bmsize + 511) / 512 && v.bmblock + bmblks <= v.NBlocks()
    modifies v.cache, v.cache.buffer
    ensures v.Valid() && v.cache.Kept(old(v.cache.pins)) && v.cache.pins == old(v.cache.pins)
    ensures first == |MissedFiles(v, files)| + |Padding(v, old(v.cache.logical), Compared(bmsize, bmblks))| && second == 0
    ensures Used(v, v.cache.logical) == Used(v, old(v.cache.logical)) - ClustersOf(v, files, MissedFiles(v, files))
  {
    ghost var was := v.cache.logical;
    ghost var between, bm;
    RecordedIsIndex(v, was, sys, files, inodes);
    FilesOutside(v, was, sys, files, inodes, bmblks);
    ConsistentVolume(v, was, sys, files, inodes);
    first, second, between, bm := CheckTwice(v, inodes, bmsize, bmblks, sys + files);
    CountOnSound(v, was, sys, files, inodes, bm, bmsize, bmblks, between);
    forall c: nat ensures c in Used(v, between) <==> c in Used(v, was) - ClustersOf(v, files, MissedFiles(v, files)) {
      MissedAre(v, files, c);
    }
  }

  /** The messages are about the bits compared. */
  lemma ComparedDiffs(v: Volume, was: Image, bm: seq<byte>, bmsize: nat, bmblks: nat, vol: Image)
    requires |bm| == bmsize && Corrected(v, was, vol, bm, bmblks)
    ensures TotalDiffs(v, was, vol, bmblks) == |Differing(v, was, bm, Compared(bmsize, bmblks))|
  {
    DiffsCounted(v, was, vol, bm, bmblks, bmblks);
    if 512 * bmblks - BMHDRSZ >= bmsize { DifferingBeyond(v, was, bm, 8 * (512 * bmblks - BMHDRSZ)); }
  }

  lemma CountOnSound(v: Volume, was: Image, sys: map<nat, File>, files: map<nat, File>, n: nat, bm: seq<byte>, bmsize: nat, bmblks: nat, vol: Image)
    requires VolumeOk(v, was, files) && SystemFiles(v, sys) && sys.Keys !! files.Keys && forall i :: i in sys || i in files ==> 1 <= i <= n
    requires bmsize == (v.NClusters() + 7) / 8 + BMHDRSZ && bmblks == (bmsize + 511) / 512 && |bm| == bmsize
    requires Marked(bm) == Elems(IndexClaims(v, sys + files, n)) && Corrected(v, was, vol, bm, bmblks)
    ensures TotalDiffs(v, was, vol, bmblks) == |MissedFiles(v, files)| + |Padding(v, was, Compared(bmsize, bmblks))|
  {
    var m := Compared(bmsize, bmblks);
    ComparedDiffs(v, was, bm, bmsize, bmblks, vol);
    DifferingOnSound(v, was, sys, files, n, bm, m);
    AsManyClusters(v, was, files, MissedFiles(v, files));
    var a, b := ClustersOf(v, files, MissedFiles(v, files)), Padding(v, was, m);
    assert (a + b) - a == b;
  }
}
