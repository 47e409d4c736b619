/** The index file and its bitmap against everything else on a volume: what is written to the one
    does not change the other. */
module IndexArea {
  import opened Bytes
  import opened Volumes
  import opened Bitmap
  import opened Allocation
  import opened FileMap
  import opened FileGrowth
  import opened FileContent
  import opened FileExtension
  import opened StreamIo
  import opened VolumeRuns
  import opened Inodes

  function IxBitmap(v: Volume, vol: Image): nat
    requires v.bmblock < |vol|
  {
    IndexBitmap(vol, v.bmblock)
  }

  function Files(v: Volume, vol: Image): (n: nat)
    requires v.bmblock < |vol| && IxBitmap(v, vol) < |vol|
    ensures n < 0x1_0000
  {
    NFiles(vol, v.bmblock)
  }

  /** The last block of the index bitmap that holds a bit of an inode. */
  function IxEnd(v: Volume, vol: Image): nat
    requires v.bmblock < |vol| && IxBitmap(v, vol) < |vol|
  {
    IxBitmap(v, vol) + LastOf(Files(v, vol))
  }

  /** Index file, cluster bitmap, index bitmap: one behind the other inside the system area. */
  ghost predicate IndexAreaOk(v: Volume, vol: Image)
  {
    && IndexPlaced(v, vol)
    && v.NClusters() > 0 && v.bmblock + BitBlock(v.NClusters() - 1) < IxBitmap(v, vol)
    && IxEnd(v, vol) < Shl(v.fileArea, v.clfactor)
  }

  /** Block b belongs to the index file or to the index bitmap. */
  ghost predicate InIndex(v: Volume, vol: Image, b: nat)
    requires IndexAreaOk(v, vol)
  {
    || v.ixblock <= b < v.bmblock
    || IxBitmap(v, vol) <= b <= IxEnd(v, vol)
  }

  ghost predicate IndexKey(k: int)
  {
    true
  }

  ghost predicate FrameKey(k: int)
  {
    true
  }

  /** In the cluster bitmap, the header and the bits beyond the last cluster did not change. */
  ghost predicate BitmapFrame(v: Volume, vol: Image, vol': Image)
  {
    && |vol'| == |vol|
    && forall key {:trigger FrameKey(key)} :: Folded(key) ==>
    && (v.bmblock < |vol| ==> forall o: nat :: o < BMHDRSZ ==> vol'[v.bmblock][o] == vol[v.bmblock][o])
    && (forall i: nat :: i >= v.NClusters() && InBitmap(v, v.bmblock + BitBlock(i)) ==> Bit(vol', v.bmblock, i) == Bit(vol, v.bmblock, i))
  }

  lemma FrameTransitive(v: Volume, a: Image, b: Image, c: Image)
    requires BitmapFrame(v, a, b) && BitmapFrame(v, b, c)
    ensures BitmapFrame(v, a, c)
  {
    assert FrameKey(0);
  }

  /** Header, padding and the set of marked clusters determine the bitmap. */
  lemma {:induction false} BitmapRestored(v: Volume, vol: Image, vol': Image)
    requires BitmapFrame(v, vol, vol') && Used(v, vol') == Used(v, vol) && |vol| == v.NBlocks()
    ensures forall b: nat :: b < |vol| && InBitmap(v, b) ==> vol'[b] == vol[b]
  {
    assert FrameKey(0);
    assert BitsKey(0);
    var mix := seq(|vol|, b requires 0 <= b < |vol| => if InBitmap(v, b) then vol'[b] else vol[b]);
    forall i: nat | InBitmap(v, v.bmblock + BitBlock(i)) ensures Bit(mix, v.bmblock, i) == Bit(vol', v.bmblock, i) {
    }
    forall c: nat | c < v.NClusters() ensures c in Used(v, mix) <==> c in Used(v, vol) {
      BitBlockOfCluster(v, c);
      assert c in Used(v, vol') <==> c in Used(v, vol);
    }
    assert v.bmblock < |vol| && InBitmap(v, v.bmblock) ==> mix[v.bmblock] == vol'[v.bmblock];
    BitmapDetermined(v, vol, mix);
    forall b: nat | b < |vol| && InBitmap(v, b) ensures vol'[b] == vol[b] {
      assert mix[b] == vol'[b];
    }
  }

  /** Only the index changed, and not the header of its bitmap. */
  ghost predicate IndexWritten(v: Volume, vol: Image, vol': Image)
    requires IndexAreaOk(v, vol)
  {
    && |vol'| == |vol|
    && forall key {:trigger IndexKey(key)} :: Folded(key) ==>
    && (forall b: nat :: b < |vol| && !InIndex(v, vol, b) ==> vol'[b] == vol[b])
    && forall o: nat :: o < BMHDRSZ ==> vol'[IxBitmap(v, vol)][o] == vol[IxBitmap(v, vol)][o]
  }

  /** The index did not change, and of the cluster bitmap at most bits of clusters. */
  ghost predicate IndexKept(v: Volume, vol: Image, vol': Image)
    requires IndexAreaOk(v, vol)
  {
    && |vol'| == |vol| && BitmapFrame(v, vol, vol')
    && forall key {:trigger IndexKey(key)} :: Folded(key) ==>
    && (forall o: nat :: o < BMHDRSZ ==> vol'[v.bmblock][o] == vol[v.bmblock][o])
    && forall b: nat :: b < |vol| && InIndex(v, vol, b) ==> vol'[b] == vol[b]
  }

  /** An inode of the index file. */
  ghost function InodeIn(v: Volume, vol: Image, m: nat): Inode
    requires IndexAreaOk(v, vol)
  {
    if 1 <= m <= Files(v, vol) && InodeBlock(v, m) < |vol| then InodeAt(v, vol, m) else ZeroEntry()
  }

  /** Marks and inodes agree: what is linked is marked. */
  ghost predicate MarkedIfLinked(v: Volume, vol: Image)
    requires IndexAreaOk(v, vol)
  {
    forall m: nat {:trigger InodeIn(v, vol, m)} :: 1 <= m <= Files(v, vol) && LinkCount(InodeIn(v, vol, m)) > 0 ==> Bit(vol, IxBitmap(v, vol), m - 1)
  }

  /** The first index entry that is neither marked nor linked. */
  ghost predicate FreshInode(v: Volume, vol: Image, ino: nat)
    requires IndexAreaOk(v, vol)
  {
    && 1 <= ino <= Files(v, vol) && InodeBlock(v, ino) < |vol|
    && !Bit(vol, IxBitmap(v, vol), ino - 1) && LinkCount(InodeAt(v, vol, ino)) == 0 && NoneFree(v, vol, IxBitmap(v, vol), 0, ino - 1)
  }

  lemma {:induction false} InIndexIsSystem(v: Volume, vol: Image, b: nat)
    requires IndexAreaOk(v, vol) && InIndex(v, vol, b)
    ensures !InBitmap(v, b) && Shr(b, v.clfactor) < v.fileArea && b != v.bmblock
  {
    ShrOrder(b, v.fileArea, v.clfactor);
  }

  lemma SameHeaders(v: Volume, vol: Image, vol': Image)
    requires IndexAreaOk(v, vol) && |vol'| == |vol|
    requires forall o: nat :: o < BMHDRSZ ==> vol'[v.bmblock][o] == vol[v.bmblock][o]
    requires forall o: nat :: o < BMHDRSZ ==> vol'[IxBitmap(v, vol)][o] == vol[IxBitmap(v, vol)][o]
    ensures IndexAreaOk(v, vol') && IxBitmap(v, vol') == IxBitmap(v, vol) && Files(v, vol') == Files(v, vol)
  {
    assert vol'[v.bmblock][8] == vol[v.bmblock][8] && vol'[v.bmblock][9] == vol[v.bmblock][9] && vol'[v.bmblock][10] == vol[v.bmblock][10];
    var ix := IxBitmap(v, vol);
    assert vol'[ix][0] == vol[ix][0] && vol'[ix][1] == vol[ix][1];
  }

  lemma WrittenKeepsPlaces(v: Volume, vol: Image, vol': Image)
    requires IndexAreaOk(v, vol) && IndexWritten(v, vol, vol')
    ensures IndexAreaOk(v, vol') && IxBitmap(v, vol') == IxBitmap(v, vol) && Files(v, vol') == Files(v, vol)
  {
    assert vol'[v.bmblock] == vol[v.bmblock] by { assert IndexKey(0); }
    assert forall o: nat :: o < BMHDRSZ ==> vol'[IxBitmap(v, vol)][o] == vol[IxBitmap(v, vol)][o] by { assert IndexKey(0); }
    SameHeaders(v, vol, vol');
  }

  lemma KeptKeepsPlaces(v: Volume, vol: Image, vol': Image)
    requires IndexAreaOk(v, vol) && IndexKept(v, vol, vol')
    ensures IndexAreaOk(v, vol') && IxBitmap(v, vol') == IxBitmap(v, vol) && Files(v, vol') == Files(v, vol)
  {
    assert forall o: nat :: o < BMHDRSZ ==> vol'[v.bmblock][o] == vol[v.bmblock][o] by { assert IndexKey(0); }
    assert vol'[IxBitmap(v, vol)] == vol[IxBitmap(v, vol)] by { assert IndexKey(0); }
    SameHeaders(v, vol, vol');
  }

  lemma KeptTransitive(v: Volume, a: Image, b: Image, c: Image)
    requires IndexAreaOk(v, a) && IndexKept(v, a, b) && IndexAreaOk(v, b) && IndexKept(v, b, c)
    ensures IndexKept(v, a, c)
  {
    KeptKeepsPlaces(v, a, b);
    FrameTransitive(v, a, b, c);
    assert IndexKey(0);
  }

  lemma KeptNothing(v: Volume, vol: Image)
    requires IndexAreaOk(v, vol)
    ensures IndexKept(v, vol, vol)
  {
  }

  /** Inodes and bits of an index that did not change. */
  lemma {:induction false} KeptInodes(v: Volume, vol: Image, vol': Image, m: nat)
    requires IndexAreaOk(v, vol) && IndexKept(v, vol, vol') && 1 <= m <= Files(v, vol)
    ensures InodeBlock(v, m) < |vol'| == |vol| && InodeAt(v, vol', m) == InodeAt(v, vol, m)
    ensures Bit(vol', IxBitmap(v, vol), m - 1) == Bit(vol, IxBitmap(v, vol), m - 1)
  {
    assert IndexKey(0);
    assert InodeBlock(v, m) == v.ixblock + (m - 1) / 8 < v.bmblock;
    AddressMonotone(m - 1, Files(v, vol) - 1);
  }

  // ---------------------------------------------------------------
  // Steps of files keep the index
  // ---------------------------------------------------------------

  lemma SystemKeptIndex(v: Volume, vol: Image, vol': Image)
    requires IndexAreaOk(v, vol) && SystemKept(v, vol, vol')
    ensures IndexKept(v, vol, vol')
  {
    assert RunKey(0);
    assert BitmapFrame(v, vol, vol');
    forall b: nat | b < |vol| && InIndex(v, vol, b) ensures vol'[b] == vol[b] {
      InIndexIsSystem(v, vol, b);
    }
  }

  lemma StepKeepsIndex(v: Volume, s: State, e: Event, t: State)
    requires VolumeOk(v, s.vol, s.files) && Step(v, s, e, t) && IndexAreaOk(v, s.vol)
    ensures IndexKept(v, s.vol, t.vol)
  {
    StepKeepsSystem(v, s, e, t);
    SystemKeptIndex(v, s.vol, t.vol);
  }

  // ---------------------------------------------------------------
  // Writing the index keeps the files
  // ---------------------------------------------------------------

  lemma WrittenKeepsUsed(v: Volume, vol: Image, vol': Image)
    requires IndexAreaOk(v, vol) && IndexWritten(v, vol, vol') && SystemArea(v, vol)
    ensures SystemArea(v, vol') && Used(v, vol') == Used(v, vol)
  {
    assert BitsKey(0);
    forall c: nat | c < v.NClusters() ensures Bit(vol', v.bmblock, c) == Bit(vol, v.bmblock, c) {
      BitBlockOfCluster(v, c);
      WrittenOutside(v, vol, vol', v.bmblock + BitBlock(c));
    }
    assert Used(v, vol') == Used(v, vol);
  }

  lemma {:induction false} WrittenOutside(v: Volume, vol: Image, vol': Image, b: nat)
    requires IndexAreaOk(v, vol) && IndexWritten(v, vol, vol') && (InBitmap(v, b) || Shr(b, v.clfactor) >= v.fileArea)
    ensures b < |vol| ==> vol'[b] == vol[b]
  {
    assert IndexKey(0);
    if InIndex(v, vol, b) { InIndexIsSystem(v, vol, b); }
  }

  lemma {:induction false} WrittenKeepsFrame(v: Volume, vol: Image, vol': Image)
    requires IndexAreaOk(v, vol) && IndexWritten(v, vol, vol')
    ensures BitmapFrame(v, vol, vol')
  {
    forall i: nat | i >= v.NClusters() && InBitmap(v, v.bmblock + BitBlock(i)) ensures Bit(vol', v.bmblock, i) == Bit(vol, v.bmblock, i) {
      WrittenOutside(v, vol, vol', v.bmblock + BitBlock(i));
    }
    WrittenOutside(v, vol, vol', v.bmblock);
  }

  lemma {:induction false} WrittenKeepsMap(v: Volume, vol: Image, vol': Image, bmap: seq<nat>, slots: seq<nat>, maps: seq<nat>)
    requires IndexAreaOk(v, vol) && IndexWritten(v, vol, vol') && SystemArea(v, vol) && Placed(v, slots, maps)
    requires Mapped(v, vol, bmap, slots, maps)
    ensures Mapped(v, vol', bmap, slots, maps)
  {
    forall k: nat | k < |maps| && maps[k] < |vol| ensures vol'[maps[k]] == vol[maps[k]] {
      assert PlaceKey(0);
      WrittenOutside(v, vol, vol', maps[k]);
    }
    MappedFrame(v, vol, vol', bmap, slots, maps);
  }

  lemma WrittenKeepsState(v: Volume, vol: Image, vol': Image, contiguous: bool, nalloc: nat, nused: nat, bmap: seq<nat>, slots: seq<nat>, maps: seq<nat>)
    requires IndexAreaOk(v, vol) && IndexWritten(v, vol, vol') && FileState(v, vol, contiguous, nalloc, nused, bmap, slots, maps)
    ensures FileState(v, vol', contiguous, nalloc, nused, bmap, slots, maps)
  {
    StateFacts(v, vol, contiguous, nalloc, nused, bmap, slots, maps);
    WrittenKeepsUsed(v, vol, vol');
    assert FileKey(0);
    if !contiguous {
      assert ChainKey(0);
      WrittenKeepsMap(v, vol, vol', bmap, slots, maps);
    }
  }

  lemma {:induction false} WrittenKeepsBytes(v: Volume, vol: Image, vol': Image, slots: seq<nat>, maps: seq<nat>, n: nat)
    requires IndexAreaOk(v, vol) && IndexWritten(v, vol, vol') && Placed(v, slots, maps)
    requires forall b: nat :: b < n ==> Shr(b, v.clfactor) < |slots|
    ensures Flat(v, vol', slots, n) == Flat(v, vol, slots, n)
  {
    forall b: nat | b < n ensures FileBlock(v, vol, slots, b) == FileBlock(v, vol', slots, b) {
      LbnInFileArea(v, slots, maps, b);
      WrittenOutside(v, vol, vol', Lbn(v, slots, b));
    }
    FlatSame(v, vol, slots, vol', slots, n);
  }

  /** No file is touched by what is written to the index. */
  lemma WrittenKeepsVolume(v: Volume, vol: Image, vol': Image, files: map<nat, File>)
    requires VolumeOk(v, vol, files) && IndexAreaOk(v, vol) && IndexWritten(v, vol, vol')
    ensures VolumeOk(v, vol', files)
  {
    WrittenKeepsUsed(v, vol, vol');
    assert RunKey(0);
    forall i | i in files ensures Sound(v, vol', files[i]) {
      var f := files[i];
      WrittenKeepsState(v, vol, vol', f.contiguous, f.nalloc, if f.contiguous then 0 else f.nused, f.bmap, f.slots, f.maps);
    }
  }

  // ---------------------------------------------------------------
  // Writes to the index
  // ---------------------------------------------------------------

  lemma {:induction false} InodeInIndex(v: Volume, vol: Image, num: nat)
    requires IndexAreaOk(v, vol) && 1 <= num <= Files(v, vol)
    ensures v.ixblock <= InodeBlock(v, num) < v.bmblock < |vol| && InIndex(v, vol, InodeBlock(v, num))
  {
  }

  lemma {:induction false} InodeWritten(v: Volume, vol: Image, num: nat, e: Inode)
    requires IndexAreaOk(v, vol) && 1 <= num <= Files(v, vol)
    ensures InodeBlock(v, num) < |vol| && IndexWritten(v, vol, WithInode(v, vol, num, e))
  {
    InodeInIndex(v, vol, num);
    var b := InodeBlock(v, num);
    BlockWritten(v, vol, b, Patch(vol[b], InodeOffset(num), e));
  }

  lemma BlockWritten(v: Volume, vol: Image, b: nat, d: Block)
    requires IndexAreaOk(v, vol) && b < |vol| && InIndex(v, vol, b)
    requires b == IxBitmap(v, vol) ==> forall o: nat :: o < BMHDRSZ ==> d[o] == vol[b][o]
    ensures IndexWritten(v, vol, vol[b := d])
  {
  }

  lemma {:induction false} BitWritten(v: Volume, vol: Image, num: nat, on: bool)
    requires IndexAreaOk(v, vol) && 1 <= num <= Files(v, vol)
    ensures IndexWritten(v, vol, WithBit(vol, IxBitmap(v, vol), num - 1, on))
  {
    AddressMonotone(num - 1, Files(v, vol) - 1);
    CursorClosedForm(num - 1);
    var b, o := IxBitmap(v, vol) + BitBlock(num - 1), BitOffset(num - 1);
    BlockWritten(v, vol, b, vol[b][o := WithBitOf(vol[b][o], BitPos(num - 1), on)]);
  }

  lemma {:induction false} SearchWritten(v: Volume, vol: Image, vol': Image, k: nat)
    requires IndexAreaOk(v, vol) && k <= Files(v, vol) && MarkedUpTo(vol, vol', IxBitmap(v, vol), k)
    ensures IndexWritten(v, vol, vol')
  {
    if k > 0 { AddressMonotone(k - 1, Files(v, vol) - 1); }
    forall b: nat | b < |vol| && !InIndex(v, vol, b) ensures vol'[b] == vol[b] {
      assert InodeKey(0);
    }
    forall o: nat | o < BMHDRSZ ensures vol'[IxBitmap(v, vol)][o] == vol[IxBitmap(v, vol)][o] {
      assert InodeKey(0);
    }
  }

  /** The search changes no inode, and marks the first k. */
  lemma {:induction false} SearchedEntry(v: Volume, vol0: Image, vol: Image, k: nat, m: nat)
    requires IndexAreaOk(v, vol0) && k <= Files(v, vol0) && MarkedUpTo(vol0, vol, IxBitmap(v, vol0), k) && 1 <= m <= Files(v, vol0)
    ensures InodeBlock(v, m) < |vol| && InodeAt(v, vol, m) == InodeAt(v, vol0, m)
    ensures Bit(vol, IxBitmap(v, vol0), m - 1) == (m <= k || Bit(vol0, IxBitmap(v, vol0), m - 1))
  {
    InodeInIndex(v, vol0, m);
    AddressMonotone(m - 1, Files(v, vol0) - 1);
    assert InodeKey(0);
  }

  /** Writing one inode changes no other inode and no bit. */
  lemma {:induction false} WrittenInode(v: Volume, vol: Image, num: nat, e: Inode, m: nat)
    requires IndexAreaOk(v, vol) && 1 <= num <= Files(v, vol) && 1 <= m <= Files(v, vol)
    ensures InodeBlock(v, num) < |vol| && InodeBlock(v, m) < |vol|
    ensures var vol' := WithInode(v, vol, num, e);
      && InodeAt(v, vol', m) == (if m == num then e else InodeAt(v, vol, m))
      && Bit(vol', IxBitmap(v, vol), m - 1) == Bit(vol, IxBitmap(v, vol), m - 1)
  {
    InodeWritten(v, vol, num, e);
    InodeWritten(v, vol, m, e);
    OtherInodesKept(v, vol, num, e, m);
    AddressMonotone(0, m - 1);
  }

  /** Writing one bit of the index bitmap changes no other bit and no inode. */
  lemma {:induction false} WrittenBit(v: Volume, vol: Image, num: nat, on: bool, m: nat)
    requires IndexAreaOk(v, vol) && 1 <= num <= Files(v, vol) && 1 <= m <= Files(v, vol)
    ensures InodeBlock(v, m) < |vol|
    ensures var vol' := WithBit(vol, IxBitmap(v, vol), num - 1, on);
      && InodeAt(v, vol', m) == InodeAt(v, vol, m)
      && Bit(vol', IxBitmap(v, vol), m - 1) == if m == num then on else Bit(vol, IxBitmap(v, vol), m - 1)
  {
    AddressMonotone(num - 1, Files(v, vol) - 1);
    WithBitBit(vol, IxBitmap(v, vol), num - 1, on, m - 1);
    assert InodeBlock(v, m) == v.ixblock + (m - 1) / 8 < v.bmblock;
  }
}
