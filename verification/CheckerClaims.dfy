/** What check_alloc_map of check.c computes, as sequences of claims: the clusters that the inodes
    lay claim to, in the order in which the checker marks them. */
module CheckerClaims {
  import opened Bytes
  import opened Volumes
  import opened Allocation
  import opened FileMap
  import opened FileGrowth
  import opened FileExtension
  import opened Deletion
  import opened VolumeRuns

  // ---------------------------------------------------------------
  // Sequences of claims
  // ---------------------------------------------------------------

  ghost function Elems(s: seq<nat>): set<nat>
  {
    set x | x in s
  }

  lemma ElemsAppend(a: seq<nat>, b: seq<nat>)
    ensures Elems(a + b) == Elems(a) + Elems(b)
  {
  }

  /** How many claims meet a cluster that is already marked, starting with "seen". */
  ghost function Repeats(seen: set<nat>, claims: seq<nat>): nat
    decreases |claims|
  {
    if claims == [] then 0
    else (if claims[0] in seen then 1 else 0) + Repeats(seen + {claims[0]}, claims[1..])
  }

  lemma {:induction false} RepeatsAppend(seen: set<nat>, a: seq<nat>, b: seq<nat>)
    ensures Repeats(seen, a + b) == Repeats(seen, a) + Repeats(seen + Elems(a), b)
    decreases |a|
  {
    if a == [] {
      assert a + b == b && seen + Elems(a) == seen;
    } else {
      assert (a + b)[1..] == a[1..] + b;
      RepeatsAppend(seen + {a[0]}, a[1..], b);
      assert seen + {a[0]} + Elems(a[1..]) == seen + Elems(a);
    }
  }

  ghost predicate Distinct(s: seq<nat>)
  {
    forall i: nat, j: nat :: i < j < |s| ==> s[i] != s[j]
  }

  /** Nothing is reported as allocated twice if and only if all claims differ. */
  lemma {:induction false} NoRepeats(seen: set<nat>, claims: seq<nat>)
    ensures Repeats(seen, claims) == 0 <==> Distinct(claims) && Elems(claims) !! seen
    decreases |claims|
  {
    if claims != [] {
      var c, rest := claims[0], claims[1..];
      NoRepeats(seen + {c}, rest);
      assert Elems(claims) == {c} + Elems(rest);
      if Distinct(rest) && c !in Elems(rest) {
        forall i: nat, j: nat | i < j < |claims| ensures claims[i] != claims[j] {
          assert claims[j] == rest[j - 1];
          assert i > 0 ==> claims[i] == rest[i - 1];
        }
      }
      if Distinct(claims) {
        forall i: nat, j: nat | i < j < |rest| ensures rest[i] != rest[j] {
          assert claims[i + 1] != claims[j + 1];
        }
        forall i: nat | i < |rest| ensures rest[i] != c {
          assert claims[i + 1] != claims[0];
        }
      }
    }
  }

  lemma DistinctAppend(a: seq<nat>, b: seq<nat>)
    ensures Distinct(a + b) <==> Distinct(a) && Distinct(b) && Elems(a) !! Elems(b)
  {
    NoRepeats({}, a + b);
    NoRepeats({}, a);
    NoRepeats({} + Elems(a), b);
    RepeatsAppend({}, a, b);
    assert {} + Elems(a) == Elems(a);
    NoRepeats({}, b);
    ElemsAppend(a, b);
  }

  // ---------------------------------------------------------------
  // The claims of one inode
  // ---------------------------------------------------------------

  /** The map block that holds the entry of cluster n is entered at this entry, is not the first,
      and starts its own cluster. */
  predicate EntersNewMap(v: Volume, maps: seq<nat>, n: nat)
  {
    n > DIRECT && (n - DIRECT) % PER_MAP == 0 && (n - DIRECT) / PER_MAP < |maps| && Low(maps[(n - DIRECT) / PER_MAP], v.clfactor) == 0
  }

  /** Entry n >= 5: the cluster of the map block when it is entered, then the data cluster. */
  function EntryClaims(v: Volume, slots: seq<nat>, maps: seq<nat>, n: nat): seq<nat>
    requires n < |slots|
  {
    (if EntersNewMap(v, maps, n) then [Shr(maps[(n - DIRECT) / PER_MAP], v.clfactor)] else []) + [slots[n]]
  }

  /** Entries 5 to n - 1. */
  function ChainClaims(v: Volume, slots: seq<nat>, maps: seq<nat>, n: nat): seq<nat>
    requires n <= |slots|
  {
    if n <= DIRECT then [] else ChainClaims(v, slots, maps, n - 1) + EntryClaims(v, slots, maps, n - 1)
  }

  function FirstMapClaim(v: Volume, maps: seq<nat>): seq<nat>
  {
    if maps == [] then [] else [Shr(maps[0], v.clfactor)]
  }

  function FileClaims(v: Volume, f: File): seq<nat>
  {
    if f.contiguous then f.slots
    else Front(f.slots, DIRECT) + FirstMapClaim(v, f.maps) + ChainClaims(v, f.slots, f.maps, |f.slots|)
  }

  ghost predicate ReadKey(k: int)
  {
    true
  }

  /** The checker can follow the file's pointers. */
  ghost predicate Readable(v: Volume, vol: Image, f: File)
  {
    && |f.bmap| == 6 && |f.slots| == Clusters(f.nalloc, v.clfactor)
    && forall key {:trigger ReadKey(key)} :: Folded(key) ==>
    && (forall n: nat :: n < |f.slots| ==> f.slots[n] < v.NClusters())
    && if f.contiguous then
         f.maps == [] && forall n: nat :: n < |f.slots| ==> f.slots[n] == Shr(f.bmap[0], v.clfactor) + n
       else
         && Mapped(v, vol, f.bmap, f.slots, f.maps) && AllRecorded(f.slots, f.maps)
         && (forall n: nat :: n < |f.slots| ==> f.slots[n] > 0)
         && forall k: nat :: k < |f.maps| ==> 0 < Shr(f.maps[k], v.clfactor) < v.NClusters()
  }

  /** A sound file is readable. */
  lemma SoundIsReadable(v: Volume, vol: Image, f: File)
    requires Sound(v, vol, f)
    ensures Readable(v, vol, f)
  {
    SoundFacts(v, vol, f);
    assert FileKey(0);
    assert PlaceKey(0);
    assert v.fileArea > 0 by { assert BitsKey(0); }
    if !f.contiguous {
      assert ChainKey(0);
      CountsRecorded(v, f.nused, f.slots, f.maps);
    }
  }

  /** The last map block is linked already, holds no entry yet, and starts its own cluster: the
      checker does not see it. */
  ghost predicate LastMapMissed(v: Volume, f: File)
  {
    && !f.contiguous && |f.slots| > DIRECT && (|f.slots| - DIRECT) % PER_MAP == 0
    && |f.maps| == (|f.slots| - DIRECT) / PER_MAP + 1
    && Low(f.maps[|f.maps| - 1], v.clfactor) == 0
  }

  // ---------------------------------------------------------------
  // Claims and clusters
  // ---------------------------------------------------------------

  /** Map block k starts its own cluster and is entered for an entry below n. */
  predicate MapSeen(v: Volume, maps: seq<nat>, k: nat, n: nat)
  {
    0 < k < |maps| && Low(maps[k], v.clfactor) == 0 && EntryIndex(k, 0) < n
  }

  ghost predicate InChain(v: Volume, slots: seq<nat>, maps: seq<nat>, n: nat, c: nat)
  {
    || (exists j: nat :: DIRECT <= j < n && j < |slots| && slots[j] == c)
    || (exists k: nat :: MapSeen(v, maps, k, n) && Shr(maps[k], v.clfactor) == c)
  }

  lemma InChainNext(v: Volume, slots: seq<nat>, maps: seq<nat>, n: nat, c: nat)
    requires DIRECT <= n < |slots|
    ensures InChain(v, slots, maps, n + 1, c) <==> InChain(v, slots, maps, n, c) || c in EntryClaims(v, slots, maps, n)
  {
    if c in EntryClaims(v, slots, maps, n) {
      if c == slots[n] { assert DIRECT <= n < n + 1; } else { assert MapSeen(v, maps, (n - DIRECT) / PER_MAP, n + 1); }
    }
    if InChain(v, slots, maps, n + 1, c) && !InChain(v, slots, maps, n, c) {
      if k: nat :| MapSeen(v, maps, k, n + 1) && Shr(maps[k], v.clfactor) == c {
        assert !MapSeen(v, maps, k, n);
        assert EntryIndex(k, 0) == n;
      } else {
        assert c == slots[n];
      }
    }
  }

  /** The claims of the chain are exactly the data clusters 5 to n - 1 and the clusters of the map
      blocks seen on the way, each of them once. */
  lemma {:induction false} ChainClaimsAre(v: Volume, slots: seq<nat>, maps: seq<nat>, n: nat)
    requires Placed(v, slots, maps) && n <= |slots|
    ensures forall c: nat :: c in ChainClaims(v, slots, maps, n) <==> InChain(v, slots, maps, n, c)
    ensures Distinct(ChainClaims(v, slots, maps, n))
  {
    if n > DIRECT {
      ChainClaimsAre(v, slots, maps, n - 1);
      forall c: nat ensures c in ChainClaims(v, slots, maps, n) <==> InChain(v, slots, maps, n, c) {
        InChainNext(v, slots, maps, n - 1, c);
      }
      EntryIsNew(v, slots, maps, n - 1);
      DistinctAppend(ChainClaims(v, slots, maps, n - 1), EntryClaims(v, slots, maps, n - 1));
    } else {
      forall c: nat ensures !InChain(v, slots, maps, n, c) {
      }
    }
  }

  lemma EntryIsNew(v: Volume, slots: seq<nat>, maps: seq<nat>, n: nat)
    requires Placed(v, slots, maps) && DIRECT <= n < |slots|
    ensures Distinct(EntryClaims(v, slots, maps, n))
    ensures forall c: nat :: c in EntryClaims(v, slots, maps, n) ==> !InChain(v, slots, maps, n, c)
  {
    assert PlaceKey(0);
    forall c: nat | c in EntryClaims(v, slots, maps, n) ensures !InChain(v, slots, maps, n, c) {
      if EntersNewMap(v, maps, n) && c == Shr(maps[(n - DIRECT) / PER_MAP], v.clfactor) {
        forall k: nat | MapSeen(v, maps, k, n) ensures Shr(maps[k], v.clfactor) != c {
          OwnClusters(v, slots, maps, k, (n - DIRECT) / PER_MAP);
        }
      }
    }
  }

  /** Map blocks that start their clusters lie in different ones. */
  lemma OwnClusters(v: Volume, slots: seq<nat>, maps: seq<nat>, j: nat, k: nat)
    requires Placed(v, slots, maps) && j < |maps| && k < |maps| && j != k
    requires Low(maps[j], v.clfactor) == 0 && Low(maps[k], v.clfactor) == 0
    ensures Shr(maps[j], v.clfactor) != Shr(maps[k], v.clfactor)
  {
    assert PlaceKey(0);
    SplitBlock(maps[j], v.clfactor);
    SplitBlock(maps[k], v.clfactor);
  }

  /** A chained file claims every cluster at most once. */
  lemma ClaimsDistinct(v: Volume, f: File)
    requires Placed(v, f.slots, f.maps)
    ensures Distinct(FileClaims(v, f))
  {
    assert PlaceKey(0);
    if !f.contiguous {
      var a, b, c := Front(f.slots, DIRECT), FirstMapClaim(v, f.maps), ChainClaims(v, f.slots, f.maps, |f.slots|);
      ChainClaimsAre(v, f.slots, f.maps, |f.slots|);
      assert Elems(a) !! Elems(b);
      DistinctAppend(a, b);
      assert Distinct(a + b);
      forall x | x in a + b ensures !InChain(v, f.slots, f.maps, |f.slots|, x) {
        FrontNotInChain(v, f, x);
      }
      DistinctAppend(a + b, c);
    }
  }

  lemma FirstMapAligned(v: Volume, slots: seq<nat>, maps: seq<nat>)
    requires Placed(v, slots, maps) && maps != []
    ensures Low(maps[0], v.clfactor) == 0
  {
    assert PlaceKey(0);
  }

  lemma FrontNotInChain(v: Volume, f: File, x: nat)
    requires Placed(v, f.slots, f.maps) && x in Front(f.slots, DIRECT) + FirstMapClaim(v, f.maps)
    ensures !InChain(v, f.slots, f.maps, |f.slots|, x)
  {
    assert PlaceKey(0);
    if f.maps != [] && x == Shr(f.maps[0], v.clfactor) {
      forall k: nat | MapSeen(v, f.maps, k, |f.slots|) ensures Shr(f.maps[k], v.clfactor) != x {
        FirstMapAligned(v, f.slots, f.maps);
        OwnClusters(v, f.slots, f.maps, 0, k);
      }
    }
  }

  /** How many map blocks a sound file has: the chain reaches at most one block beyond its
      entries. */
  lemma MapCount(v: Volume, vol: Image, f: File)
    requires Sound(v, vol, f) && !f.contiguous
    ensures Placed(v, f.slots, f.maps)
    ensures forall k: nat :: k + 1 < |f.maps| ==> EntryIndex(k, 0) < |f.slots|
    ensures |f.maps| > 1 && EntryIndex(|f.maps| - 1, 0) >= |f.slots| ==>
      |f.slots| > DIRECT && (|f.slots| - DIRECT) % PER_MAP == 0 && |f.maps| == (|f.slots| - DIRECT) / PER_MAP + 1
    ensures LastMapMissed(v, f) ==> |f.maps| > 1 && EntryIndex(|f.maps| - 1, 0) >= |f.slots|
  {
    SoundFacts(v, vol, f);
    assert FileKey(0);
    assert Counts(v, f.nused, |f.slots|, |f.maps|);
  }

  lemma {:induction false} MapIsClaimed(v: Volume, f: File, k: nat)
    requires Placed(v, f.slots, f.maps) && !f.contiguous && k < |f.maps|
    requires forall j: nat :: j < k ==> EntryIndex(j, 0) < |f.slots|
    requires k == 0 || EntryIndex(k, 0) < |f.slots| || Low(f.maps[k], v.clfactor) != 0
    ensures Shr(f.maps[k], v.clfactor) in FileClaims(v, f)
  {
    if k > 0 {
      if Low(f.maps[k], v.clfactor) == 0 {
        ChainClaimsAre(v, f.slots, f.maps, |f.slots|);
        assert MapSeen(v, f.maps, k, |f.slots|);
        assert InChain(v, f.slots, f.maps, |f.slots|, Shr(f.maps[k], v.clfactor));
      } else {
        assert PlaceKey(0);
        var m := f.maps[k - 1];
        SplitBlock(m + 1, v.clfactor);
        JoinBlock(Shr(m + 1, v.clfactor), Low(m + 1, v.clfactor) - 1, v.clfactor);
        MapIsClaimed(v, f, k - 1);
      }
    }
  }

  /** What the checker marks for a sound file: its clusters, all of them if and only if the last
      map block is not one that it misses. */
  lemma ClaimsAreClusters(v: Volume, vol: Image, f: File)
    requires Sound(v, vol, f)
    ensures Elems(FileClaims(v, f)) == if LastMapMissed(v, f) then Clus(v, f) - {Shr(f.maps[|f.maps| - 1], v.clfactor)} else Clus(v, f)
    ensures LastMapMissed(v, f) ==> Shr(f.maps[|f.maps| - 1], v.clfactor) in Clus(v, f)
    ensures Distinct(FileClaims(v, f))
  {
    SoundFacts(v, vol, f);
    ClaimsDistinct(v, f);
    if f.contiguous {
      assert FileKey(0);
      assert Owned(v, f.slots, []) == Elems(f.slots);
    } else {
      MapCount(v, vol, f);
      forall c: nat | c in FileClaims(v, f) ensures c in Clus(v, f) {
        ClaimIsCluster(v, f, c);
      }
      var missed := LastMapMissed(v, f);
      forall c: nat | c in Clus(v, f) && !(missed && c == Shr(f.maps[|f.maps| - 1], v.clfactor)) ensures c in FileClaims(v, f) {
        ClusterIsClaimed(v, f, c);
      }
      if missed { MissedIsUnclaimed(v, f); }
    }
  }

  lemma ClaimIsCluster(v: Volume, f: File, c: nat)
    requires Placed(v, f.slots, f.maps) && !f.contiguous && c in FileClaims(v, f)
    ensures c in Clus(v, f)
  {
    ChainClaimsAre(v, f.slots, f.maps, |f.slots|);
    if c in ChainClaims(v, f.slots, f.maps, |f.slots|) {
      assert InChain(v, f.slots, f.maps, |f.slots|, c);
      if k: nat :| MapSeen(v, f.maps, k, |f.slots|) && Shr(f.maps[k], v.clfactor) == c { OwnedHasMap(v, f.slots, f.maps, k); }
    } else if c in FirstMapClaim(v, f.maps) {
      OwnedHasMap(v, f.slots, f.maps, 0);
    }
  }

  lemma ClusterIsClaimed(v: Volume, f: File, c: nat)
    requires Placed(v, f.slots, f.maps) && !f.contiguous && c in Clus(v, f)
    requires forall k: nat :: k + 1 < |f.maps| ==> EntryIndex(k, 0) < |f.slots|
    requires |f.maps| > 1 && EntryIndex(|f.maps| - 1, 0) >= |f.slots| ==>
      |f.slots| > DIRECT && (|f.slots| - DIRECT) % PER_MAP == 0 && |f.maps| == (|f.slots| - DIRECT) / PER_MAP + 1
    requires !(LastMapMissed(v, f) && c == Shr(f.maps[|f.maps| - 1], v.clfactor))
    ensures c in FileClaims(v, f)
  {
    if c in f.slots {
      var j: nat :| j < |f.slots| && f.slots[j] == c;
      if j < DIRECT {
        assert Front(f.slots, DIRECT)[j] == c;
      } else {
        ChainClaimsAre(v, f.slots, f.maps, |f.slots|);
        assert InChain(v, f.slots, f.maps, |f.slots|, c);
      }
    } else {
      var m :| m in f.maps && Shr(m, v.clfactor) == c;
      var k: nat :| k < |f.maps| && f.maps[k] == m;
      MapIsClaimed(v, f, k);
    }
  }

  lemma MissedIsUnclaimed(v: Volume, f: File)
    requires Placed(v, f.slots, f.maps) && LastMapMissed(v, f) && |f.maps| > 1
    ensures Shr(f.maps[|f.maps| - 1], v.clfactor) in Clus(v, f) && Shr(f.maps[|f.maps| - 1], v.clfactor) !in FileClaims(v, f)
  {
    assert PlaceKey(0);
    var k := |f.maps| - 1;
    OwnedHasMap(v, f.slots, f.maps, k);
    ChainClaimsAre(v, f.slots, f.maps, |f.slots|);
    forall j: nat | MapSeen(v, f.maps, j, |f.slots|) ensures Shr(f.maps[j], v.clfactor) != Shr(f.maps[k], v.clfactor) {
      OwnClusters(v, f.slots, f.maps, j, k);
    }
    FirstMapAligned(v, f.slots, f.maps);
    OwnClusters(v, f.slots, f.maps, 0, k);
  }
}
