/** The bytes of a file, and what writing and growing do to them and to other files. */
module FileContent {
  import opened Bytes
  import opened Volumes
  import opened Allocation
  import opened FileMap

  // ---------------------------------------------------------------
  // Translation of virtual blocks
  // ---------------------------------------------------------------

  /** The block that holds virtual block b. */
  function Lbn(v: Volume, slots: seq<nat>, b: nat): nat
    requires Shr(b, v.clfactor) < |slots|
  {
    Shl(slots[Shr(b, v.clfactor)], v.clfactor) + Low(b, v.clfactor)
  }

  /** Every virtual block of the file has a place in the file area, none is a map block, and
      distinct virtual blocks have distinct places. */
  lemma {:induction false} LbnInFileArea(v: Volume, slots: seq<nat>, maps: seq<nat>, b: nat)
    requires Placed(v, slots, maps) && Shr(b, v.clfactor) < |slots|
    ensures InFileArea(v, Shr(Lbn(v, slots, b), v.clfactor))
    ensures Shr(Lbn(v, slots, b), v.clfactor) == slots[Shr(b, v.clfactor)] && slots[Shr(b, v.clfactor)] in Owned(v, slots, maps)
    ensures Lbn(v, slots, b) < v.NBlocks() && Lbn(v, slots, b) !in maps
  {
    assert PlaceKey(0);
    var c := slots[Shr(b, v.clfactor)];
    assert c in slots;
    JoinBlock(c, Low(b, v.clfactor), v.clfactor);
    BlockInVolume(v, c, Low(b, v.clfactor));
  }

  lemma {:induction false} LbnInjective(v: Volume, slots: seq<nat>, maps: seq<nat>, b: nat, c: nat)
    requires Placed(v, slots, maps) && Shr(b, v.clfactor) < |slots| && Shr(c, v.clfactor) < |slots|
    ensures Lbn(v, slots, b) == Lbn(v, slots, c) <==> b == c
  {
    assert PlaceKey(0);
    JoinBlock(slots[Shr(b, v.clfactor)], Low(b, v.clfactor), v.clfactor);
    JoinBlock(slots[Shr(c, v.clfactor)], Low(c, v.clfactor), v.clfactor);
    SplitBlock(b, v.clfactor);
    SplitBlock(c, v.clfactor);
  }

  // ---------------------------------------------------------------
  // The bytes in the first n blocks
  // ---------------------------------------------------------------

  ghost function FileBlock(v: Volume, vol: Image, slots: seq<nat>, b: nat): Block
  {
    if Shr(b, v.clfactor) < |slots| && Lbn(v, slots, b) < |vol| then vol[Lbn(v, slots, b)] else ZeroBlock()
  }

  ghost function Flat(v: Volume, vol: Image, slots: seq<nat>, n: nat): (f: seq<byte>)
    ensures |f| == 512 * n
  {
    if n == 0 then [] else Flat(v, vol, slots, n - 1) + FileBlock(v, vol, slots, n - 1)
  }

  lemma {:induction false} FlatPrefix(v: Volume, vol: Image, slots: seq<nat>, m: nat, n: nat)
    requires m <= n
    ensures Flat(v, vol, slots, n)[..512 * m] == Flat(v, vol, slots, m)
  {
    if m < n {
      FlatPrefix(v, vol, slots, m, n - 1);
      assert Flat(v, vol, slots, n)[..512 * m] == Flat(v, vol, slots, n - 1)[..512 * m];
    }
  }

  /** Block b occupies bytes 512 b to 512 b + 511. */
  lemma {:induction false} FlatBlock(v: Volume, vol: Image, slots: seq<nat>, n: nat, b: nat)
    requires b < n
    ensures Flat(v, vol, slots, n)[512 * b..512 * (b + 1)] == FileBlock(v, vol, slots, b)
  {
    FlatPrefix(v, vol, slots, b + 1, n);
    var f := Flat(v, vol, slots, b + 1);
    assert Flat(v, vol, slots, n)[512 * b..512 * (b + 1)] == f[512 * b..];
  }

  lemma {:induction false} FlatSlice(v: Volume, vol: Image, slots: seq<nat>, n: nat, b: nat, i: nat, j: nat)
    requires b < n && i <= j <= 512
    ensures Flat(v, vol, slots, n)[512 * b + i..512 * b + j] == FileBlock(v, vol, slots, b)[i..j]
  {
    FlatBlock(v, vol, slots, n, b);
    var f := Flat(v, vol, slots, n);
    assert f[512 * b + i..512 * b + j] == f[512 * b..512 * (b + 1)][i..j];
  }

  /** Equal blocks, equal bytes. */
  lemma {:induction false} FlatSame(v: Volume, vol: Image, slots: seq<nat>, vol': Image, slots': seq<nat>, n: nat)
    requires forall b: nat :: b < n ==> FileBlock(v, vol, slots, b) == FileBlock(v, vol', slots', b)
    ensures Flat(v, vol, slots, n) == Flat(v, vol', slots', n)
  {
    if n > 0 { FlatSame(v, vol, slots, vol', slots', n - 1); }
  }

  /** d replaces the bytes of s from p on. */
  function Patch(s: seq<byte>, p: nat, d: seq<byte>): (r: seq<byte>)
    requires p + |d| <= |s|
    ensures |r| == |s|
  {
    s[..p] + d + s[p + |d|..]
  }

  lemma PatchLeft(f: seq<byte>, g: seq<byte>, p: nat, d: seq<byte>)
    requires p + |d| <= |f|
    ensures Patch(f + g, p, d) == Patch(f, p, d) + g
  {
  }

  lemma PatchRight(f: seq<byte>, g: seq<byte>, i: nat, d: seq<byte>)
    requires i + |d| <= |g|
    ensures Patch(f + g, |f| + i, d) == f + Patch(g, i, d)
  {
  }

  lemma PatchedBehind(t': seq<byte>, t: seq<byte>, f: seq<byte>, g: Block, p: nat, i: nat, d: seq<byte>)
    requires t == f + g && |f| == p && i + |d| <= 512 && t' == f + Patch(g, i, d)
    ensures t' == Patch(t, p + i, d)
  {
    PatchRight(f, g, i, d);
  }

  lemma PatchedBefore(t': seq<byte>, t: seq<byte>, f: seq<byte>, g: Block, p: nat, d: seq<byte>)
    requires t == f + g && p + |d| <= |f| && t' == Patch(f, p, d) + g
    ensures t' == Patch(t, p, d)
  {
    PatchLeft(f, g, p, d);
  }

  /** A file whose last block has changed ... */
  lemma {:induction false} LastPatched(v: Volume, vol: Image, vol': Image, slots: seq<nat>, n: nat, b: nat, i: nat, d: seq<byte>)
    requires n == b + 1 && i + |d| <= 512 && FileBlock(v, vol', slots, b) == Patch(FileBlock(v, vol, slots, b), i, d)
    requires Flat(v, vol, slots, b) == Flat(v, vol', slots, b)
    ensures Flat(v, vol', slots, n) == Patch(Flat(v, vol, slots, n), 512 * b + i, d)
  {
    FlatNext(v, vol', slots, b);
    FlatNext(v, vol, slots, b);
    PatchedBehind(Flat(v, vol', slots, n), Flat(v, vol, slots, n), Flat(v, vol, slots, b), FileBlock(v, vol, slots, b), 512 * b, i, d);
  }

  /** ... or one before the last. */
  lemma {:induction false} EarlierPatched(v: Volume, vol: Image, vol': Image, slots: seq<nat>, n: nat, p: nat, d: seq<byte>)
    requires n > 0 && p + |d| <= 512 * (n - 1) && FileBlock(v, vol, slots, n - 1) == FileBlock(v, vol', slots, n - 1)
    requires Flat(v, vol', slots, n - 1) == Patch(Flat(v, vol, slots, n - 1), p, d)
    ensures Flat(v, vol', slots, n) == Patch(Flat(v, vol, slots, n), p, d)
  {
    FlatNext(v, vol', slots, n - 1);
    FlatNext(v, vol, slots, n - 1);
    PatchedBefore(Flat(v, vol', slots, n), Flat(v, vol, slots, n), Flat(v, vol, slots, n - 1), FileBlock(v, vol, slots, n - 1), p, d);
  }

  /** A file whose block b alone has changed. */
  lemma {:induction false} FlatPatched(v: Volume, vol: Image, vol': Image, slots: seq<nat>, n: nat, b: nat, i: nat, d: seq<byte>)
    requires b < n && i + |d| <= 512 && FileBlock(v, vol', slots, b) == Patch(FileBlock(v, vol, slots, b), i, d)
    requires forall c: nat :: c < n && c != b ==> FileBlock(v, vol, slots, c) == FileBlock(v, vol', slots, c)
    ensures 512 * b + i + |d| <= 512 * n && Flat(v, vol', slots, n) == Patch(Flat(v, vol, slots, n), 512 * b + i, d)
  {
    if n == b + 1 {
      FlatSame(v, vol, slots, vol', slots, b);
      LastPatched(v, vol, vol', slots, n, b, i, d);
    } else {
      FlatPatched(v, vol, vol', slots, n - 1, b, i, d);
      EarlierPatched(v, vol, vol', slots, n, 512 * b + i, d);
    }
  }

  /** Writing into block b replaces exactly those bytes of the file. */
  lemma {:induction false} FlatAfterWrite(v: Volume, vol: Image, slots: seq<nat>, maps: seq<nat>, n: nat, b: nat, i: nat, d: seq<byte>)
    requires Placed(v, slots, maps) && |vol| == v.NBlocks() && b < n && i + |d| <= 512
    requires forall c: nat :: c < n ==> Shr(c, v.clfactor) < |slots|
    ensures Lbn(v, slots, b) < |vol|
    ensures var vol' := vol[Lbn(v, slots, b) := Patch(vol[Lbn(v, slots, b)], i, d)];
      512 * b + i + |d| <= 512 * n && Flat(v, vol', slots, n) == Patch(Flat(v, vol, slots, n), 512 * b + i, d)
  {
    LbnInFileArea(v, slots, maps, b);
    var l := Lbn(v, slots, b);
    var vol' := vol[l := Patch(vol[l], i, d)];
    OtherBlocksSame(v, vol, slots, maps, n, b, vol'[l]);
    FlatPatched(v, vol, vol', slots, n, b, i, d);
  }

  lemma {:induction false} FlatNext(v: Volume, vol: Image, slots: seq<nat>, n: nat)
    ensures Flat(v, vol, slots, n + 1) == Flat(v, vol, slots, n) + FileBlock(v, vol, slots, n)
  {
  }

  lemma OtherBlocksSame(v: Volume, vol: Image, slots: seq<nat>, maps: seq<nat>, n: nat, b: nat, data: Block)
    requires Placed(v, slots, maps) && |vol| == v.NBlocks() && b < n
    requires forall c: nat :: c < n ==> Shr(c, v.clfactor) < |slots|
    requires Lbn(v, slots, b) < |vol|
    ensures forall c: nat :: c < n && c != b ==> FileBlock(v, vol, slots, c) == FileBlock(v, vol[Lbn(v, slots, b) := data], slots, c)
  {
    forall c: nat | c < n && c != b ensures FileBlock(v, vol, slots, c) == FileBlock(v, vol[Lbn(v, slots, b) := data], slots, c) {
      LbnInjective(v, slots, maps, b, c);
    }
  }

  // ---------------------------------------------------------------
  // Writing and growing as seen from the whole volume
  // ---------------------------------------------------------------

  ghost predicate WroteKey(k: int)
  {
    true
  }

  /** Blocks outside the bitmap and outside the given clusters are untouched. */
  ghost predicate OnlyBitsAndClusters(v: Volume, vol: Image, vol': Image, own: set<nat>)
  {
    && |vol'| == |vol|
    && forall key {:trigger WroteKey(key)} :: Folded(key) ==>
    && (forall b: nat :: b < |vol| && !InBitmap(v, b) && Shr(b, v.clfactor) !in own ==> vol'[b] == vol[b])
    && (v.bmblock < |vol| ==> forall o: nat :: o < BMHDRSZ ==> vol'[v.bmblock][o] == vol[v.bmblock][o])
    && (forall i: nat :: i >= v.NClusters() && InBitmap(v, v.bmblock + BitBlock(i)) ==> Bit(vol', v.bmblock, i) == Bit(vol, v.bmblock, i))
  }

  /** A file was written to and possibly grew: added clusters were free and are marked now, and
      nothing but bitmap bits and the file's own clusters was written. */
  ghost predicate Wrote(v: Volume, vol: Image, slots: seq<nat>, maps: seq<nat>, vol': Image, slots': seq<nat>, maps': seq<nat>)
  {
    && OnlyBitsAndClusters(v, vol, vol', Owned(v, slots', maps'))
    && forall key {:trigger WroteKey(key)} :: Folded(key) ==>
    && slots <= slots' && maps <= maps'
    && GrewClusters(Used(v, vol), Owned(v, slots, maps), Used(v, vol'), Owned(v, slots', maps'))
  }

  lemma WroteNothing(v: Volume, vol: Image, slots: seq<nat>, maps: seq<nat>)
    ensures Wrote(v, vol, slots, maps, vol, slots, maps)
  {
    GrewNoClusters(Used(v, vol), Owned(v, slots, maps));
  }

  lemma GrewNoClusters(used: set<nat>, own: set<nat>)
    ensures GrewClusters(used, own, used, own)
  {
    assert own - own == {};
  }

  lemma GrewIsWrote(v: Volume, vol: Image, slots: seq<nat>, maps: seq<nat>, vol': Image, slots': seq<nat>, maps': seq<nat>)
    requires Grew(v, vol, slots, maps, vol', slots', maps')
    ensures Wrote(v, vol, slots, maps, vol', slots', maps')
  {
    assert GrowKey(0);
    assert forall b :: b in maps' ==> Shr(b, v.clfactor) in Owned(v, slots', maps');
  }

  lemma WroteTransitive(v: Volume, v0: Image, s0: seq<nat>, m0: seq<nat>, v1: Image, s1: seq<nat>, m1: seq<nat>, v2: Image, s2: seq<nat>, m2: seq<nat>)
    requires Wrote(v, v0, s0, m0, v1, s1, m1) && Wrote(v, v1, s1, m1, v2, s2, m2)
    requires Owned(v, s1, m1) <= Used(v, v1)
    ensures Wrote(v, v0, s0, m0, v2, s2, m2)
  {
    assert WroteKey(0);
  }

  /** A write to one of the file's data blocks. */
  lemma {:induction false} WroteBlock(v: Volume, vol: Image, slots: seq<nat>, maps: seq<nat>, b: nat, data: Block)
    requires SystemArea(v, vol) && Placed(v, slots, maps) && |vol| == v.NBlocks() && Shr(b, v.clfactor) < |slots|
    ensures Lbn(v, slots, b) < |vol|
    ensures var vol' := vol[Lbn(v, slots, b) := data];
      Wrote(v, vol, slots, maps, vol', slots, maps) && Used(v, vol') == Used(v, vol) && SystemArea(v, vol')
  {
    LbnInFileArea(v, slots, maps, b);
    var l := Lbn(v, slots, b);
    WriteKeepsBits(v, vol, l, data);
    assert GrowKey(0);
    assert BitsKey(0);
    GrewNoClusters(Used(v, vol), Owned(v, slots, maps));
  }

  /** The bytes of a file survive its own growth. */
  lemma {:induction false} FlatAfterGrowth(v: Volume, vol: Image, slots: seq<nat>, maps: seq<nat>, vol': Image, slots': seq<nat>, maps': seq<nat>, n: nat)
    requires Grew(v, vol, slots, maps, vol', slots', maps') && Placed(v, slots', maps') && SystemArea(v, vol)
    requires forall b: nat :: b < n ==> Shr(b, v.clfactor) < |slots|
    ensures Flat(v, vol', slots', n) == Flat(v, vol, slots, n)
  {
    assert GrowKey(0);
    forall b: nat | b < n ensures FileBlock(v, vol, slots, b) == FileBlock(v, vol', slots', b) {
      LbnInFileArea(v, slots', maps', b);
      FileBlockOutsideBitmap(v, vol, Lbn(v, slots', b));
      assert slots[Shr(b, v.clfactor)] == slots'[Shr(b, v.clfactor)];
    }
    FlatSame(v, vol, slots, vol', slots', n);
  }

  /** Another file keeps its map, its clusters and its bytes. */
  lemma {:induction false} OtherFileKept(v: Volume, vol: Image, vol': Image, slots: seq<nat>, maps: seq<nat>, slots': seq<nat>, maps': seq<nat>,
                      bmap: seq<nat>, gslots: seq<nat>, gmaps: seq<nat>, n: nat)
    requires Wrote(v, vol, slots, maps, vol', slots', maps') && SystemArea(v, vol)
    requires Placed(v, gslots, gmaps) && Owned(v, gslots, gmaps) <= Used(v, vol)
    requires Owned(v, gslots, gmaps) !! Owned(v, slots, maps)
    requires forall b: nat :: b < n ==> Shr(b, v.clfactor) < |gslots|
    ensures SystemArea(v, vol')
    ensures Owned(v, gslots, gmaps) <= Used(v, vol') && Owned(v, gslots, gmaps) !! Owned(v, slots', maps')
    ensures Mapped(v, vol, bmap, gslots, gmaps) ==> Mapped(v, vol', bmap, gslots, gmaps)
    ensures Flat(v, vol', gslots, n) == Flat(v, vol, gslots, n)
  {
    assert WroteKey(0);
    assert BitsKey(0);
    forall b: nat | b < n ensures FileBlock(v, vol, gslots, b) == FileBlock(v, vol', gslots, b) {
      LbnInFileArea(v, gslots, gmaps, b);
      FileBlockOutsideBitmap(v, vol, Lbn(v, gslots, b));
    }
    FlatSame(v, vol, gslots, vol', gslots, n);
    if Mapped(v, vol, bmap, gslots, gmaps) {
      forall k: nat | k < |gmaps| && gmaps[k] < |vol| ensures vol'[gmaps[k]] == vol[gmaps[k]] {
        OwnedHasMap(v, gslots, gmaps, k);
        assert PlaceKey(0);
        FileBlockOutsideBitmap(v, vol, gmaps[k]);
      }
      MappedFrame(v, vol, vol', bmap, gslots, gmaps);
    }
  }
}
