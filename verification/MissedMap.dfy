/** A volume in order on which the checker misses a cluster: its only file has 173 blocks, so that its
    first map block is full and the second one is linked, but empty. */
module MissedMap {
  import opened Bytes
  import opened Volumes
  import opened Allocation
  import opened FileMap
  import opened FileGrowth
  import opened FileExtension
  import opened VolumeRuns
  import opened CheckerClaims
  import opened CheckerLaws

  /** 184 clusters of one block each, 9 of them for the system. */
  ghost predicate Small(v: Volume)
  {
    v.clfactor == 0 && v.NBlocks() == 184 && v.bmblock == 1 && v.fileArea == 9
  }

  function DataSlots(): (s: seq<nat>)
    ensures |s| == 173 && forall n: nat :: n < 173 ==> s[n] == 9 + n
  {
    seq(173, n requires 0 <= n < 173 => 9 + n)
  }

  function FirstMap(): Block
  {
    seq(512, o requires 0 <= o < 512 => if o == 3 then 183 else if 6 <= o < 510 && o % 3 == 0 then 14 + (o - 6) / 3 else 0)
  }

  function SecondMap(): Block
  {
    seq(512, o requires 0 <= o < 512 => if o == 0 then 182 else 0)
  }

  function FullBlock(): Block
  {
    seq(512, o requires 0 <= o < 512 => 255)
  }

  function BlockAt(b: nat): Block
  {
    if b == 182 then FirstMap() else if b == 183 then SecondMap() else FullBlock()
  }

  /** Every cluster is marked. */
  function SmallVolume(): (vol: Image)
    ensures |vol| == 184 && forall b: nat :: b < 184 ==> vol[b] == BlockAt(b)
  {
    seq(184, b requires 0 <= b < 184 => BlockAt(b))
  }

  function LongFile(): File
  {
    File(false, 173, 173, [9, 10, 11, 12, 13, 182], DataSlots(), [182, 183])
  }

  lemma {:induction false} AllOnes(k: nat)
    requires k < 8
    ensures BitOf(255, 7 - k)
  {
    assert Digit(255, 0) && Digit(127, 0) && Digit(63, 0) && Digit(31, 0) && Digit(15, 0) && Digit(7, 0) && Digit(3, 0) && Digit(1, 0);
    OnesShift(k);
  }

  lemma {:induction false} OnesShift(k: nat)
    requires k < 8
    ensures Digit(255, k)
  {
    assert Digit(255, k) == if k == 0 then true else Digit(127, k - 1);
    if k > 0 {
      assert Digit(127, k - 1) == if k == 1 then true else Digit(63, k - 2);
      if k > 1 {
        assert Digit(63, k - 2) == if k == 2 then true else Digit(31, k - 3);
        if k > 2 {
          assert Digit(31, k - 3) == if k == 3 then true else Digit(15, k - 4);
          if k > 3 {
            assert Digit(15, k - 4) == if k == 4 then true else Digit(7, k - 5);
            if k > 4 { assert Digit(7, k - 5) == if k == 5 then true else Digit(3, k - 6); }
          }
        }
      }
    }
  }

  lemma Marks(v: Volume, c: nat)
    requires Small(v)
    ensures v.NClusters() == 184 && (c < 184 ==> c in Used(v, SmallVolume())) && BitBlock(183) == 0
  {
    SmallClusters(v);
    CursorClosedForm(183);
    if c < 184 { OneMarked(v, c); }
  }

  lemma SmallClusters(v: Volume)
    requires Small(v)
    ensures v.NClusters() == 184
  {
  }

  lemma OneMarked(v: Volume, c: nat)
    requires Small(v) && c < 184
    ensures Bit(SmallVolume(), v.bmblock, c)
  {
    CursorClosedForm(c);
    AllOnes(7 - c % 8);
    assert SmallVolume()[1] == FullBlock();
  }

  lemma {:induction false} FirstMapIs(v: Volume)
    requires Small(v)
    ensures MapBlockOk(v, FirstMap(), DataSlots(), [182, 183], 0)
  {
    forall s: nat | s < PER_MAP ensures Get24(FirstMap(), EntryPos(s)) == Entry(v, DataSlots(), EntryIndex(0, s)) {
      var o := 6 + 3 * s;
      assert o % 3 == 0 && (o - 6) / 3 == s && (o + 1) % 3 == 1 && (o + 2) % 3 == 2;
    }
  }

  lemma {:induction false} SecondMapIs(v: Volume)
    requires Small(v)
    ensures MapBlockOk(v, SecondMap(), DataSlots(), [182, 183], 1)
  {
    forall s: nat | s < PER_MAP ensures Get24(SecondMap(), EntryPos(s)) == Entry(v, DataSlots(), EntryIndex(1, s)) {
    }
  }

  lemma {:induction false} LongFileMapped(v: Volume)
    requires Small(v)
    ensures Mapped(v, SmallVolume(), LongFile().bmap, DataSlots(), [182, 183])
  {
    FirstMapIs(v);
    SecondMapIs(v);
    var vol := SmallVolume();
    assert vol[182] == FirstMap() && vol[183] == SecondMap();
    MappedIntro(v, vol, LongFile().bmap, DataSlots(), [182, 183]);
  }

  lemma {:induction false} LongFileSound(v: Volume)
    requires Small(v)
    ensures SystemArea(v, SmallVolume()) && Sound(v, SmallVolume(), LongFile())
  {
    var vol, slots, maps := SmallVolume(), DataSlots(), [182, 183];
    Marks(v, 0);
    forall c: nat | c < 184 ensures c in Used(v, vol) {
      Marks(v, c);
    }
    LongFileMapped(v);
    LongFilePlaced(v);
    assert Shl(9, 0) == 9 && Clusters(173, 0) == 173;
    assert SystemArea(v, vol);
    assert Chained(v, vol, LongFile().bmap, slots, maps);
    assert Counts(v, 173, 173, 2);
  }

  lemma {:induction false} LongFilePlaced(v: Volume)
    requires Small(v)
    ensures Placed(v, DataSlots(), [182, 183])
    ensures forall c: nat :: c in Owned(v, DataSlots(), [182, 183]) <==> 9 <= c < 184
  {
    var slots, maps := DataSlots(), [182, 183];
    assert Shr(182, 0) == 182 && Shr(183, 0) == 183 && Low(182, 0) == 0 && Low(183, 0) == 0;
    assert v.NClusters() == 184;
    assert forall k: nat :: k < 2 ==> maps[k] == 182 + k && Shr(maps[k], 0) == 182 + k && Low(maps[k], 0) == 0;
    assert forall n: nat :: n < 173 ==> InFileArea(v, slots[n]);
    assert forall k: nat :: k < 2 ==> InFileArea(v, Shr(maps[k], v.clfactor));
    assert forall n: nat, k: nat :: n < 173 && k < 2 ==> slots[n] != Shr(maps[k], v.clfactor);
    assert forall m :: m in maps <==> m == 182 || m == 183;
    forall c: nat | 9 <= c < 182 ensures c in slots {
      assert slots[c - 9] == c;
    }
    assert 182 in maps && 183 in maps;
  }

  /** The volume is in order, and the checker misses a cluster of its file: the inode and the bitmap are
      right, but the bit of the second map block will be cleared. */
  lemma MissedOnSoundVolume(v: Volume)
    requires Small(v)
    ensures VolumeOk(v, SmallVolume(), map[8 := LongFile()]) && LastMapMissed(v, LongFile())
    ensures 183 in Used(v, SmallVolume()) && Missed(v, map[8 := LongFile()], 183)
  {
    var files := map[8 := LongFile()];
    LongFileSound(v);
    LongFilePlaced(v);
    forall c: nat | c < v.NClusters() ensures c in Used(v, SmallVolume()) <==> c < v.fileArea || c in AllClus(v, files) {
      Marks(v, c);
      if 9 <= c { assert 8 in files && c in Clus(v, files[8]); }
    }
    Marks(v, 183);
    assert 8 in files && LastMapMissed(v, files[8]);
  }

  /** Which files it misses a cluster of, on volumes whose clusters are single blocks: those whose blocks just
      fill the direct pointers and some map blocks, unless the disk was full when the last one was made. */
  lemma MissedBySize(v: Volume, vol: Image, f: File)
    requires Sound(v, vol, f) && !f.contiguous && v.clfactor == 0 && |f.slots| == f.nused
    ensures LastMapMissed(v, f) <==> f.nused > DIRECT && (f.nused - DIRECT) % PER_MAP == 0
  {
    assert Counts(v, f.nused, |f.slots|, |f.maps|) by { assert FileKey(0); }
    assert Clusters(f.nused, 0) == f.nused;
  }
}
