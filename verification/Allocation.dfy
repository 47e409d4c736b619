/** The cluster bitmap as a set of used clusters, for the code that allocates and frees. */
module Allocation {
  import opened Bytes
  import opened BufferCache
  import opened Volumes
  import opened Bitmap

  /** The clusters marked in the bitmap. */
  ghost function Used(v: Volume, vol: Image): set<nat>
  {
    set c: nat | c < v.NClusters() && Bit(vol, v.bmblock, c)
  }

  /** Block b holds bits of clusters. */
  ghost predicate InBitmap(v: Volume, b: nat)
  {
    v.NClusters() > 0 && v.bmblock <= b <= v.bmblock + BitBlock(v.NClusters() - 1)
  }

  ghost predicate BitsKey(k: int)
  {
    true
  }

  /** The system area: its clusters are marked, and the cluster bitmap lies inside it. */
  ghost predicate SystemArea(v: Volume, vol: Image)
  {
    forall key {:trigger BitsKey(key)} :: Folded(key) ==>
    && 0 < v.fileArea <= v.NClusters()
    && v.bmblock + BitBlock(v.NClusters() - 1) < Shl(v.fileArea, v.clfactor)
    && forall c: nat :: c < v.fileArea ==> c in Used(v, vol)
  }

  /** Nothing but bits of clusters changed. */
  ghost predicate OnlyClusterBits(v: Volume, vol: Image, vol': Image)
  {
    && |vol'| == |vol|
    && forall key {:trigger BitsKey(key)} :: Folded(key) ==>
    && (forall b: nat :: b < |vol| && !InBitmap(v, b) ==> vol'[b] == vol[b])
    && (v.bmblock < |vol| ==> forall o: nat :: o < BMHDRSZ ==> vol'[v.bmblock][o] == vol[v.bmblock][o])
    && (forall i: nat :: i >= v.NClusters() && InBitmap(v, v.bmblock + BitBlock(i)) ==> Bit(vol', v.bmblock, i) == Bit(vol, v.bmblock, i))
  }

  lemma {:induction false} BitBlockOfCluster(v: Volume, c: nat)
    requires c < v.NClusters()
    ensures InBitmap(v, v.bmblock + BitBlock(c))
    ensures BitBlock(c) == 0 ==> BitOffset(c) >= BMHDRSZ
  {
    AddressMonotone(c, v.NClusters() - 1);
    CursorClosedForm(c);
  }

  /** Writing the bit of one cluster adds or removes exactly that cluster. */
  lemma {:induction false} WithBitUsed(v: Volume, vol: Image, c: nat, on: bool)
    requires c < v.NClusters() && v.bmblock + BitBlock(c) < |vol|
    ensures var vol' := WithBit(vol, v.bmblock, c, on);
      OnlyClusterBits(v, vol, vol') && Used(v, vol') == if on then Used(v, vol) + {c} else Used(v, vol) - {c}
  {
    assert BitsKey(0);
    var vol' := WithBit(vol, v.bmblock, c, on);
    BitBlockOfCluster(v, c);
    forall i: nat ensures Bit(vol', v.bmblock, i) == if i == c then on else Bit(vol, v.bmblock, i) {
      WithBitBit(vol, v.bmblock, c, on, i);
    }
  }

  lemma OnlyClusterBitsTransitive(v: Volume, a: Image, b: Image, c: Image)
    requires OnlyClusterBits(v, a, b) && OnlyClusterBits(v, b, c)
    ensures OnlyClusterBits(v, a, c)
  {
    assert BitsKey(0);
  }

  /** A used-cluster set, the padding and the header determine the bitmap byte for byte. */
  lemma BitmapDetermined(v: Volume, vol: Image, vol': Image)
    requires OnlyClusterBits(v, vol, vol') && Used(v, vol) == Used(v, vol')
    ensures vol' == vol
  {
    assert BitsKey(0);
    forall b: nat, o: nat | b < |vol| && o < 512 ensures vol'[b][o] == vol[b][o] {
      if InBitmap(v, b) && !(b == v.bmblock && o < BMHDRSZ) {
        var first := 8 * (512 * (b - v.bmblock) + o - BMHDRSZ);
        forall k: nat | k < 8 ensures BitOf(vol'[b][o], k) == BitOf(vol[b][o], k) {
          CursorClosedForm(first + k);
          assert (first + k) / 8 == 512 * (b - v.bmblock) + o - BMHDRSZ;
          assert BitBlock(first + k) == b - v.bmblock && BitOffset(first + k) == o && BitPos(first + k) == k;
          assert Bit(vol', v.bmblock, first + k) == Bit(vol, v.bmblock, first + k) by {
            if first + k < v.NClusters() { assert first + k in Used(v, vol) <==> first + k in Used(v, vol'); }
          }
        }
        ByteExtensional(vol'[b][o], vol[b][o]);
      }
    }
    forall b: nat | b < |vol| ensures vol'[b] == vol[b] {
      assert forall o: nat :: o < 512 ==> vol'[b][o] == vol[b][o];
    }
  }

  // ---------------------------------------------------------------
  // alloc_cluster and free_cluster on the set
  // ---------------------------------------------------------------

  lemma {:induction false} InitialSegmentSize(s: set<nat>, n: nat)
    requires forall c: nat :: c < n ==> c in s
    ensures |s| >= n
  {
    if n > 0 {
      assert s == (s - {n - 1}) + {n - 1};
      InitialSegmentSize(s - {n - 1}, n - 1);
    }
  }

  /** At least k clusters are free. */
  ghost predicate HasFree(v: Volume, vol: Image, k: nat)
  {
    |Used(v, vol)| + k <= v.NClusters()
  }

  /** The disk is full. */
  ghost predicate Full(v: Volume, vol: Image)
  {
    forall c: nat :: c < v.NClusters() ==> c in Used(v, vol)
  }

  /** alloc_cluster stays inside the volume, or reports a full disk, if and only if a free
      cluster exists or clusters are single blocks: with larger clusters it goes on to scan
      the padding bits beyond the last cluster. */
  lemma {:induction false} FirstClearInRange(v: Volume, vol: Image)
    ensures var i := FirstClear(vol, v.bmblock, 0, v.NBlocks());
      (i < v.NClusters() <==> !Full(v, vol)) && (v.clfactor == 0 ==> (i == v.NBlocks() <==> Full(v, vol)))
  {
    var i := FirstClear(vol, v.bmblock, 0, v.NBlocks());
    FirstClearIsLeast(vol, v.bmblock, 0, v.NBlocks());
    ShrBound(v.NBlocks(), v.clfactor);
    assert i < v.NClusters() ==> i !in Used(v, vol);
  }

  lemma {:induction false} BoundedSize(s: set<nat>, n: nat)
    requires forall c :: c in s ==> c < n
    ensures |s| <= n
  {
    if n == 0 {
      assert s == {};
    } else {
      BoundedSize(s - {n - 1}, n - 1);
      assert s <= (s - {n - 1}) + {n - 1};
    }
  }

  /** Marked clusters exist. */
  lemma UsedFits(v: Volume, vol: Image)
    ensures |Used(v, vol)| <= v.NClusters()
  {
    BoundedSize(Used(v, vol), v.NClusters());
  }

  lemma FreeMeansNotFull(v: Volume, vol: Image)
    requires HasFree(v, vol, 1)
    ensures !Full(v, vol)
  {
    if Full(v, vol) { InitialSegmentSize(Used(v, vol), v.NClusters()); }
  }

  /** alloc_cluster where a free cluster exists or clusters are single blocks: a cluster of the
      file area that was free is marked, or the disk is full. */
  method TakeCluster(v: Volume) returns (lbn: nat)
    requires v.Valid() && |v.cache.pins| < NBUFFERS && SystemArea(v, v.cache.logical)
    requires v.clfactor == 0 || HasFree(v, v.cache.logical, 1)
    modifies v.cache, v.cache.buffer
    ensures v.Valid() && v.cache.Kept(old(v.cache.pins))
    ensures lbn == 0 ==> Full(v, v.cache.logical) && v.clfactor == 0
    ensures lbn == 0 ==> v.cache.logical == old(v.cache.logical)
    ensures lbn == 0 ==> v.cache.pins == old(v.cache.pins) + multiset{v.bmblock + BitBlock(v.NBlocks())}
    ensures lbn > 0 ==> v.cache.pins == old(v.cache.pins)
    ensures lbn > 0 ==> TookCluster(v, old(v.cache.logical), v.cache.logical, lbn)
    ensures |Used(v, v.cache.logical)| <= |Used(v, old(v.cache.logical))| + 1
  {
    ghost var vol := v.cache.logical;
    FirstClearInRange(v, vol);
    ShrBound(v.NBlocks(), v.clfactor);
    if v.clfactor != 0 { FreeMeansNotFull(v, vol); }
    lbn := AllocCluster(v);
    ghost var i := FirstClear(vol, v.bmblock, 0, v.NBlocks());
    FirstClearIsLeast(vol, v.bmblock, 0, v.NBlocks());
    if i < v.NBlocks() {
      TookFirstClear(v, vol, i);
      TookOne(v, vol, v.cache.logical, lbn);
    }
  }

  /** A free cluster of the file area was marked; lbn is its first block. */
  ghost predicate TookCluster(v: Volume, vol: Image, vol': Image, lbn: nat)
  {
    && |vol'| == |vol|
    && forall key {:trigger BitsKey(key)} :: Folded(key) ==>
    var c := Shr(lbn, v.clfactor);
    && lbn == Shl(c, v.clfactor)
    && v.fileArea <= c < v.NClusters()
    && c !in Used(v, vol)
    && Used(v, vol') == Used(v, vol) + {c}
    && OnlyClusterBits(v, vol, vol')
  }

  lemma {:induction false} TookFirstClear(v: Volume, vol: Image, i: nat)
    requires SystemArea(v, vol)
    requires i < v.NClusters() && !Bit(vol, v.bmblock, i) && |vol| == v.NBlocks()
    requires v.bmblock + BitBlock(v.NBlocks()) < v.NBlocks()
    ensures Shl(i, v.clfactor) > 0 && TookCluster(v, vol, WithBit(vol, v.bmblock, i, true), Shl(i, v.clfactor))
  {
    assert BitsKey(0);
    JoinBlock(i, 0, v.clfactor);
    ShlBounds(i, v.clfactor);
    ShrBound(v.NBlocks(), v.clfactor);
    AddressMonotone(i, v.NBlocks());
    assert i !in Used(v, vol);
    BitBlockOfCluster(v, i);
    WithBitUsed(v, vol, i, true);
  }

  lemma TookOne(v: Volume, vol: Image, vol': Image, lbn: nat)
    requires TookCluster(v, vol, vol', lbn)
    ensures |Used(v, vol')| == |Used(v, vol)| + 1
  {
    assert BitsKey(0);
  }

  /** free_cluster on the set. */
  method DropCluster(v: Volume, c: nat)
    requires v.Valid() && |v.cache.pins| < NBUFFERS && SystemArea(v, v.cache.logical)
    requires c < v.NClusters()
    modifies v.cache, v.cache.buffer
    ensures v.Valid() && v.cache.Kept(old(v.cache.pins))
    ensures v.cache.pins == old(v.cache.pins)
    ensures Used(v, v.cache.logical) == Used(v, old(v.cache.logical)) - {c}
    ensures OnlyClusterBits(v, old(v.cache.logical), v.cache.logical)
  {
    BitBlockOfCluster(v, c);
    ShrBound(v.NBlocks(), v.clfactor);
    AddressMonotone(c, v.NBlocks());
    WithBitUsed(v, v.cache.logical, c, false);
    FreeCluster(v, c);
  }
}
