/** The operations on files as steps of a run of the whole volume. */
module VolumeSteps {
  import opened Bytes
  import opened BufferCache
  import opened Volumes
  import opened Bitmap
  import opened Allocation
  import opened FileMap
  import opened FileGrowth
  import opened Footprint
  import opened FileContent
  import opened FileExtension
  import opened StreamIo
  import opened StreamWrite
  import opened Deletion
  import opened VolumeRuns

  ghost function FileOf(h: FcbHeader): File
    reads h
  {
    File(h.contiguous, h.nalloc, h.nused, h.bmap, h.slots, h.maps)
  }

  /** h is the header of live file i. */
  ghost predicate IsOpen(v: Volume, h: FcbHeader, files: map<nat, File>, i: nat)
    reads h, v.cache
  {
    VolumeOk(v, v.cache.logical, files) && i in files && files[i] == FileOf(h)
  }

  lemma FileOkIsSound(v: Volume, h: FcbHeader)
    requires FileOk(v, h)
    ensures Sound(v, v.cache.logical, FileOf(h))
  {
    assert FileKey(0);
  }

  /** A contiguous file that claims a block too many still owns its run. */
  lemma RunIsSound(v: Volume, vol: Image, f: File, vol': Image, n: nat)
    requires Sound(v, vol, f) && f.contiguous && Wrote(v, vol, f.slots, f.maps, vol', f.slots, f.maps)
    ensures Sound(v, vol', f.(nused := n))
  {
    assert FileKey(0);
    assert WroteKey(0);
    assert BitsKey(0);
  }

  /** file_write, complete or not. */
  method WriteStep(v: Volume, fcb: Fcb, data: seq<byte>, ghost files: map<nat, File>, ghost i: nat)
    returns (nwritten: nat, ghost files': map<nat, File>)
    requires v.Valid() && FileOk(v, fcb.header) && PosOk(fcb) && |v.cache.pins| + 2 <= NBUFFERS && IsOpen(v, fcb.header, files, i)
    requires RoomFor(v, fcb.header, BlocksAfter(fcb.curblk, fcb.byteptr, |data|))
    modifies v.cache, v.cache.buffer, fcb, fcb.header
    ensures v.Valid() && files' == files[i := FileOf(fcb.header)]
    ensures Step(v, State(old(v.cache.logical), files), Grow(i, FileOf(fcb.header)), State(v.cache.logical, files'))
    ensures VolumeOk(v, v.cache.logical, files')
  {
    ghost var vol, f := v.cache.logical, FileOf(fcb.header);
    FileOkIsSound(v, fcb.header);
    ghost var failed;
    nwritten, failed := FileWrite(v, fcb, data);
    if failed && fcb.header.contiguous {
      RunIsSound(v, vol, f, v.cache.logical, fcb.header.nused);
    } else {
      FileOkIsSound(v, fcb.header);
    }
    files' := files[i := FileOf(fcb.header)];
    GrowKeepsVolume(v, vol, files, i, FileOf(fcb.header), v.cache.logical);
  }

  /** file_extend by the next block, with success or a full disk. */
  method ExtendStep(v: Volume, fcb: Fcb, vbn: nat, ghost files: map<nat, File>, ghost i: nat)
    returns (err: bool, ghost files': map<nat, File>)
    requires v.Valid() && FileOk(v, fcb.header) && |v.cache.pins| + 2 <= NBUFFERS && IsOpen(v, fcb.header, files, i)
    requires vbn <= fcb.header.nused
    requires fcb.header.contiguous || v.clfactor == 0 || vbn < fcb.header.nused || HasFree(v, v.cache.logical, StepCost(HeaderExtent(v, fcb.header), v.clfactor))
    modifies v.cache, v.cache.buffer, fcb`curalloc, fcb.header
    ensures v.Valid() && files' == files[i := FileOf(fcb.header)]
    ensures Step(v, State(old(v.cache.logical), files), Grow(i, FileOf(fcb.header)), State(v.cache.logical, files'))
    ensures VolumeOk(v, v.cache.logical, files')
  {
    ghost var vol, f := v.cache.logical, FileOf(fcb.header);
    FileOkIsSound(v, fcb.header);
    WroteNothing(v, vol, f.slots, f.maps);
    err := FileExtend(v, fcb, vbn);
    if !fcb.header.contiguous { GrewIsWrote(v, vol, f.slots, f.maps, v.cache.logical, fcb.header.slots, fcb.header.maps); }
    if err && fcb.header.contiguous {
      RunIsSound(v, vol, f, v.cache.logical, fcb.header.nused);
    } else {
      FileOkIsSound(v, fcb.header);
    }
    files' := files[i := FileOf(fcb.header)];
    GrowKeepsVolume(v, vol, files, i, FileOf(fcb.header), v.cache.logical);
  }

  /** The clusters of a deleted file. */
  method DeleteStepOf(v: Volume, contiguous: bool, nalloc: nat, bmap: seq<nat>, ghost files: map<nat, File>, ghost i: nat)
    returns (ghost files': map<nat, File>)
    requires v.Valid() && |v.cache.pins| + 1 < NBUFFERS && VolumeOk(v, v.cache.logical, files)
    requires i in files && files[i].contiguous == contiguous && files[i].nalloc == nalloc && files[i].bmap == bmap
    modifies v.cache, v.cache.buffer
    ensures v.Valid() && v.cache.Kept(old(v.cache.pins)) && v.cache.pins == old(v.cache.pins) && files' == files - {i}
    ensures Step(v, State(old(v.cache.logical), files), Delete(i), State(v.cache.logical, files'))
    ensures VolumeOk(v, v.cache.logical, files')
  {
    ghost var vol, f := v.cache.logical, files[i];
    assert RunKey(0);
    FreeFile(v, contiguous, nalloc, bmap, if f.contiguous then 0 else f.nused, f.slots, f.maps);
    files' := files - {i};
    DeleteKeepsVolume(v, vol, files, i, v.cache.logical);
  }

  // ---------------------------------------------------------------
  // Creation
  // ---------------------------------------------------------------

  /** num clusters from s on. */
  ghost function Consecutive(s: nat, num: nat): (r: seq<nat>)
    ensures |r| == num && forall n: nat :: n < num ==> r[n] == s + n
  {
    if num == 0 then [] else Consecutive(s, num - 1) + [s + num - 1]
  }

  /** num free clusters in a row exist on the volume. */
  ghost predicate RunExists(v: Volume, vol: Image, num: nat)
  {
    exists s: nat :: s + num <= v.NClusters() && ClearRun(vol, v.bmblock, s, num)
  }

  /** alloc_clusters stays inside the volume if and only if the run that it looks for exists
      there; otherwise, with clusters of more than one block, it goes on among the padding bits. */
  lemma {:induction false} RunInRange(v: Volume, vol: Image, num: nat)
    requires num > 0
    ensures var s := FirstRun(vol, v.bmblock, num, 0, v.NBlocks());
      (s + num <= v.NClusters() <==> RunExists(v, vol, num)) && (v.clfactor == 0 ==> (s < v.NBlocks() <==> RunExists(v, vol, num)))
  {
    var s := FirstRun(vol, v.bmblock, num, 0, v.NBlocks());
    FirstRunIsLeast(vol, v.bmblock, num, 0, v.NBlocks());
    ShrBound(v.NBlocks(), v.clfactor);
    assert s + num <= v.NClusters() ==> ClearRun(vol, v.bmblock, s, num);
  }

  lemma {:induction false} RunUsed(v: Volume, vol: Image, s: nat, num: nat)
    requires s + num <= v.NClusters() && v.bmblock + BitBlock(v.NBlocks()) < |vol|
    ensures var vol' := WithRun(vol, v.bmblock, s, num);
      OnlyClusterBits(v, vol, vol') && Used(v, vol') == Used(v, vol) + Owned(v, Consecutive(s, num), [])
  {
    if num == 0 {
      assert BitsKey(0);
      assert Owned(v, [], []) == {};
    } else {
      RunUsed(v, vol, s, num - 1);
      var vol1 := WithRun(vol, v.bmblock, s, num - 1);
      ShrBound(v.NBlocks(), v.clfactor);
      AddressMonotone(s + num - 1, v.NBlocks());
      var vol2 := WithRun(vol, v.bmblock, s, num);
      assert Used(v, vol2) == Used(v, vol1) + {s + num - 1} && OnlyClusterBits(v, vol1, vol2) by { WithBitUsed(v, vol1, s + num - 1, true); }
      OnlyClusterBitsTransitive(v, vol, vol1, vol2);
      assert Owned(v, Consecutive(s, num), []) == Owned(v, Consecutive(s, num - 1), []) + {s + num - 1} by { OwnedWithSlot(v, Consecutive(s, num - 1), [], s + num - 1); }
    }
  }

  lemma {:induction false} ConsecutiveOwned(v: Volume, s: nat, num: nat)
    ensures forall c: nat :: c in Owned(v, Consecutive(s, num), []) <==> s <= c < s + num
  {
    if num == 0 {
      assert Owned(v, [], []) == {};
    } else {
      ConsecutiveOwned(v, s, num - 1);
      OwnedWithSlot(v, Consecutive(s, num - 1), [], s + num - 1);
    }
  }

  /** Marking free clusters for a new file is a step of growth from nothing. */
  lemma MarkedIsWrote(v: Volume, vol: Image, vol': Image, slots: seq<nat>)
    requires OnlyClusterBits(v, vol, vol') && Used(v, vol') == Used(v, vol) + Owned(v, slots, [])
    requires Owned(v, slots, []) !! Used(v, vol)
    ensures Wrote(v, vol, [], [], vol', slots, [])
  {
    assert BitsKey(0);
    var own := Owned(v, slots, []);
    assert Owned(v, [], []) == {};
    assert own - {} == own;
    assert GrewClusters(Used(v, vol), {}, Used(v, vol'), own);
  }

  /** A free run lies in the file area, and the new file owns it. */
  lemma {:induction false} RunTaken(v: Volume, vol: Image, s: nat, csize: nat)
    requires SystemArea(v, vol) && |vol| == v.NBlocks() && v.bmblock + BitBlock(v.NBlocks()) < |vol|
    requires var num := Clusters(csize, v.clfactor);
      num > 0 && s + num <= v.NClusters() && ClearRun(vol, v.bmblock, s, num)
    ensures var num := Clusters(csize, v.clfactor);
      var f := File(true, csize, 0, [Shl(s, v.clfactor), 0, 0, 0, 0, 0], Consecutive(s, num), []);
      GrowStep(v, vol, map[], 0, f, WithRun(vol, v.bmblock, s, num)) && Shl(s, v.clfactor) > 0
  {
    var num := Clusters(csize, v.clfactor);
    var vol' := WithRun(vol, v.bmblock, s, num);
    RunUsed(v, vol, s, num);
    ConsecutiveOwned(v, s, num);
    assert s >= v.fileArea > 0 && SystemArea(v, vol') by {
      assert BitsKey(0);
      assert !Bit(vol, v.bmblock, s);
      assert s !in Used(v, vol);
    }
    assert Owned(v, Consecutive(s, num), []) !! Used(v, vol) by {
      assert forall c :: c in Used(v, vol) ==> !(s <= c < s + num);
    }
    MarkedIsWrote(v, vol, vol', Consecutive(s, num));
    RunSound(v, vol', s, csize);
  }

  lemma {:induction false} RunSound(v: Volume, vol: Image, s: nat, csize: nat)
    requires SystemArea(v, vol) && v.fileArea <= s && s > 0
    requires s + Clusters(csize, v.clfactor) <= v.NClusters()
    requires Owned(v, Consecutive(s, Clusters(csize, v.clfactor)), []) <= Used(v, vol)
    ensures Sound(v, vol, File(true, csize, 0, [Shl(s, v.clfactor), 0, 0, 0, 0, 0], Consecutive(s, Clusters(csize, v.clfactor)), []))
    ensures Shl(s, v.clfactor) > 0
  {
    JoinBlock(s, 0, v.clfactor);
    ShlBounds(s, v.clfactor);
    var slots := Consecutive(s, Clusters(csize, v.clfactor));
    forall n: nat | n < |slots| ensures InFileArea(v, slots[n]) {
    }
    forall n: nat, m: nat | n < m < |slots| ensures slots[n] != slots[m] {
    }
    assert OneRun(v, vol, csize, [Shl(s, v.clfactor), 0, 0, 0, 0, 0], Consecutive(s, Clusters(csize, v.clfactor)), []);
  }

  lemma {:induction false} NoClusters(cf: nat)
    ensures Clusters(0, cf) == 0 && Shl(0, cf) == 0
  {
    SplitBlock(0, cf);
    ShlBounds(Shr(0, cf), cf);
    ShlBounds(0, cf);
  }

  lemma EmptyIsSound(v: Volume, vol: Image, contiguous: bool, bmap: seq<nat>)
    requires SystemArea(v, vol) && |bmap| == 6 && (!contiguous ==> bmap == [0, 0, 0, 0, 0, 0])
    ensures GrowStep(v, vol, map[], 0, File(contiguous, 0, 0, bmap, [], []), vol)
  {
    WroteNothing(v, vol, [], []);
    assert Owned(v, [], []) == {};
    NoClusters(v.clfactor);
    if contiguous {
      assert OneRun(v, vol, 0, bmap, [], []);
    } else {
      MappedIntro(v, vol, bmap, [], []);
      assert Mapped(v, vol, bmap, [], []) && Placed(v, [], []);
      assert Chained(v, vol, bmap, [], []) && Counts(v, 0, 0, 0);
    }
  }

  lemma {:induction false} RunFound(v: Volume, vol: Image, csize: nat)
    requires SystemArea(v, vol) && |vol| == v.NBlocks() && v.bmblock + BitBlock(v.NBlocks()) < |vol| && csize > 0
    requires v.clfactor == 0 || RunExists(v, vol, Clusters(csize, v.clfactor))
    ensures Clusters(csize, v.clfactor) > 0
    ensures var num := Clusters(csize, v.clfactor);
      var s := FirstRun(vol, v.bmblock, num, 0, v.NBlocks());
      var f := File(true, csize, 0, [Shl(s, v.clfactor), 0, 0, 0, 0, 0], Consecutive(s, num), []);
      if RunExists(v, vol, num) then
        s < v.NBlocks() && GrowStep(v, vol, map[], 0, f, WithRun(vol, v.bmblock, s, num)) && Shl(s, v.clfactor) > 0 && Shr(Shl(s, v.clfactor), v.clfactor) == s
      else
        s >= v.NBlocks()
  {
    var num := Clusters(csize, v.clfactor);
    SplitBlock(csize, v.clfactor);
    ShlBounds(Shr(csize, v.clfactor), v.clfactor);
    RunInRange(v, vol, num);
    FirstRunIsLeast(vol, v.bmblock, num, 0, v.NBlocks());
    var s := FirstRun(vol, v.bmblock, num, 0, v.NBlocks());
    ShrBound(v.NBlocks(), v.clfactor);
    if RunExists(v, vol, num) {
      RunTaken(v, vol, s, csize);
      JoinBlock(s, 0, v.clfactor);
    }
  }

  /** First fit for a new contiguous file of csize blocks. */
  method CreateRun(v: Volume, csize: nat, ghost files: map<nat, File>, ghost i: nat)
    returns (blkno: nat, ghost files': map<nat, File>)
    requires v.Valid() && |v.cache.pins| < NBUFFERS && VolumeOk(v, v.cache.logical, files) && i !in files && csize > 0
    requires v.clfactor == 0 || RunExists(v, v.cache.logical, Clusters(csize, v.clfactor))
    modifies v.cache, v.cache.buffer
    ensures v.Valid() && v.cache.Kept(old(v.cache.pins)) && v.cache.pins == old(v.cache.pins)
    ensures VolumeOk(v, v.cache.logical, files')
    ensures blkno > 0 <==> old(RunExists(v, v.cache.logical, Clusters(csize, v.clfactor)))
    ensures blkno == 0 ==> files' == files && v.cache.logical == old(v.cache.logical)
    ensures blkno > 0 ==> i in files' && Step(v, State(old(v.cache.logical), files), Grow(i, files'[i]), State(v.cache.logical, files'))
    ensures blkno > 0 ==> files'[i] == File(true, csize, 0, [blkno, 0, 0, 0, 0, 0], Consecutive(Shr(blkno, v.clfactor), Clusters(csize, v.clfactor)), [])
  {
    ghost var vol := v.cache.logical;
    var num := Shr(csize, v.clfactor);
    if Low(csize, v.clfactor) != 0 { num := num + 1; }
    RunFound(v, vol, csize);
    ghost var s := FirstRun(vol, v.bmblock, num, 0, v.NBlocks());
    files' := files;
    blkno := AllocClusters(v, num);
    if s < v.NBlocks() {
      ghost var f := File(true, csize, 0, [blkno, 0, 0, 0, 0, 0], Consecutive(s, num), []);
      files' := files[i := f];
      GrowKeepsVolume(v, vol, files, i, f, v.cache.logical);
    }
  }

  /** A new non-contiguous file owns nothing yet. */
  lemma CreateEmpty(v: Volume, vol: Image, files: map<nat, File>, i: nat)
    requires VolumeOk(v, vol, files) && i !in files
    ensures var f := File(false, 0, 0, [0, 0, 0, 0, 0, 0], [], []);
      Step(v, State(vol, files), Grow(i, f), State(vol, files[i := f])) && VolumeOk(v, vol, files[i := f])
  {
    var f := File(false, 0, 0, [0, 0, 0, 0, 0, 0], [], []);
    EmptyIsSound(v, vol, false, f.bmap);
    GrowKeepsVolume(v, vol, files, i, f, vol);
  }
}
