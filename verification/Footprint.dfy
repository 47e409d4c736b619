/** How many clusters a file takes, and how many it will take when it grows. */
module Footprint {
  import opened Volumes
  import opened FileMap

  // ---------------------------------------------------------------
  // What a file owns
  // ---------------------------------------------------------------

  /** Map blocks that start a cluster. */
  function Starts(maps: seq<nat>, cf: nat): (n: nat)
    ensures n <= |maps|
  {
    if maps == [] then 0
    else Starts(maps[..|maps| - 1], cf) + if Low(maps[|maps| - 1], cf) == 0 then 1 else 0
  }

  lemma PlacedShorter(v: Volume, slots: seq<nat>, maps: seq<nat>)
    requires Placed(v, slots, maps)
    ensures slots != [] ==> Placed(v, slots[..|slots| - 1], maps)
    ensures maps != [] ==> Placed(v, slots, maps[..|maps| - 1])
  {
    assert PlaceKey(0);
  }

  /** The last map block lies in a cluster of its own, or in that of the block before. */
  lemma LastMapCluster(v: Volume, slots: seq<nat>, maps: seq<nat>)
    requires Placed(v, slots, maps) && maps != []
    ensures var c, r := Shr(maps[|maps| - 1], v.clfactor), maps[..|maps| - 1];
      if Low(maps[|maps| - 1], v.clfactor) == 0 then c !in Owned(v, slots, r) else r != [] && c == Shr(r[|r| - 1], v.clfactor)
  {
    assert PlaceKey(0);
    var n, r := |maps| - 1, maps[..|maps| - 1];
    SplitBlock(maps[n], v.clfactor);
    if Low(maps[n], v.clfactor) == 0 {
      forall k: nat | k < n ensures Shr(maps[k], v.clfactor) != Shr(maps[n], v.clfactor) {
        SplitBlock(maps[k], v.clfactor);
      }
    } else {
      SplitBlock(maps[n - 1], v.clfactor);
      JoinBlock(Shr(maps[n], v.clfactor), Low(maps[n], v.clfactor) - 1, v.clfactor);
    }
  }

  lemma LastMapSize(v: Volume, slots: seq<nat>, maps: seq<nat>)
    requires Placed(v, slots, maps) && maps != []
    ensures |Owned(v, slots, maps)| == |Owned(v, slots, maps[..|maps| - 1])| + if Low(maps[|maps| - 1], v.clfactor) == 0 then 1 else 0
  {
    var r, m := maps[..|maps| - 1], maps[|maps| - 1];
    LastMapCluster(v, slots, maps);
    assert maps == r + [m];
    OwnedWithMap(v, slots, r, m);
    var own, c := Owned(v, slots, r), Shr(m, v.clfactor);
    if Low(m, v.clfactor) != 0 {
      OwnedHasMap(v, slots, r, |r| - 1);
      assert own + {c} == own;
    }
  }

  lemma LastSlotSize(v: Volume, slots: seq<nat>)
    requires Placed(v, slots, []) && slots != []
    ensures |Owned(v, slots, [])| == |Owned(v, slots[..|slots| - 1], [])| + 1
  {
    var r, c := slots[..|slots| - 1], slots[|slots| - 1];
    assert slots == r + [c];
    OwnedWithSlot(v, r, [], c);
    assert c !in Owned(v, r, []) by { assert PlaceKey(0); }
  }

  /** Every slot is a cluster, and so is every map block that starts one. */
  lemma {:induction false} OwnedSize(v: Volume, slots: seq<nat>, maps: seq<nat>)
    requires Placed(v, slots, maps)
    ensures |Owned(v, slots, maps)| == |slots| + Starts(maps, v.clfactor)
    decreases |slots| + |maps|
  {
    PlacedShorter(v, slots, maps);
    if maps != [] {
      LastMapSize(v, slots, maps);
      OwnedSize(v, slots, maps[..|maps| - 1]);
    } else if slots != [] {
      LastSlotSize(v, slots);
      OwnedSize(v, slots[..|slots| - 1], maps);
    } else {
      assert Owned(v, [], []) == {};
    }
  }

  /** What a file takes is what the bitmap gets. */
  lemma UsedGrows(used: set<nat>, own: set<nat>, used': set<nat>, own': set<nat>)
    requires GrewClusters(used, own, used', own')
    ensures |used'| == |used| + |own'| - |own|
  {
    assert own' == own + (own' - own);
  }

  // ---------------------------------------------------------------
  // Growth
  // ---------------------------------------------------------------

  /** Where the next map block goes: into the last one's cluster while there is room in it. */
  predicate NextMap(maps: seq<nat>, m: nat, cf: nat)
  {
    if maps != [] && Low(maps[|maps| - 1], cf) != Size(cf) - 1 then m == maps[|maps| - 1] + 1 else Low(m, cf) == 0
  }

  /** At most one map block more. */
  predicate MapsGrown(maps: seq<nat>, maps': seq<nat>, cf: nat)
  {
    maps' == maps || (|maps'| == |maps| + 1 && maps' == maps + [maps'[|maps|]] && NextMap(maps, maps'[|maps|], cf))
  }

  /** The size of a file that is not contiguous: blocks used, clusters, map blocks, and the place of
      the last map block within its cluster. */
  datatype Extent = Extent(nused: nat, e: nat, m: nat, low: nat)

  function LowOf(maps: seq<nat>, cf: nat): nat
  {
    if maps == [] then 0 else Low(maps[|maps| - 1], cf)
  }

  function ExtentOf(nused: nat, slots: seq<nat>, maps: seq<nat>, cf: nat): Extent
  {
    Extent(nused, |slots|, |maps|, LowOf(maps, cf))
  }

  /** A further map block takes a further cluster. */
  predicate MapTakes(x: Extent, cf: nat)
  {
    x.m == 0 || x.low == Size(cf) - 1
  }

  /** One more block brings a further map block. */
  predicate AddsMap(x: Extent, cf: nat)
  {
    var w := Clusters(x.nused, cf);
    w >= DIRECT && x.m < MapsFor(w + 1)
  }

  /** Clusters that one more block takes. */
  function StepCost(x: Extent, cf: nat): nat
  {
    (if x.e <= Clusters(x.nused, cf) then 1 else 0) + if AddsMap(x, cf) && MapTakes(x, cf) then 1 else 0
  }

  /** The file after one more block: it is one cluster ahead. */
  function Next(x: Extent, cf: nat): Extent
  {
    var e := Clusters(x.nused, cf) + 1;
    if AddsMap(x, cf) then Extent(x.nused + 1, e, x.m + 1, if MapTakes(x, cf) then 0 else x.low + 1)
    else Extent(x.nused + 1, e, x.m, x.low)
  }

  /** Clusters that growing to n blocks takes. */
  function Cost(x: Extent, n: nat, cf: nat): nat
    decreases n - x.nused
  {
    if n <= x.nused then 0 else StepCost(x, cf) + Cost(Next(x, cf), n, cf)
  }

  /** Map blocks within one cluster. */
  lemma NextLow(maps: seq<nat>, m: nat, cf: nat)
    requires NextMap(maps, m, cf)
    ensures Low(m, cf) == if maps != [] && Low(maps[|maps| - 1], cf) != Size(cf) - 1 then Low(maps[|maps| - 1], cf) + 1 else 0
  {
    if maps != [] && Low(maps[|maps| - 1], cf) != Size(cf) - 1 { NextInCluster(maps[|maps| - 1], cf); }
  }

  /** What the file has taken after growing by one block, or less. */
  lemma GrownSize(nused: nat, slots: seq<nat>, maps: seq<nat>, nused': nat, slots': seq<nat>, maps': seq<nat>, cf: nat)
    requires MapsGrown(maps, maps', cf)
    ensures var x := ExtentOf(nused, slots, maps, cf);
      && Starts(maps', cf) == Starts(maps, cf) + (if maps' != maps && MapTakes(x, cf) then 1 else 0)
      && LowOf(maps', cf) == if maps' == maps then x.low else if MapTakes(x, cf) then 0 else x.low + 1
  {
    if maps' != maps {
      var m := maps'[|maps|];
      NextLow(maps, m, cf);
      assert maps'[..|maps'| - 1] == maps;
    }
  }

  /** A complete step. */
  lemma StepTaken(nused: nat, slots: seq<nat>, maps: seq<nat>, slots': seq<nat>, maps': seq<nat>, cf: nat)
    requires var w := Clusters(nused, cf); w <= |slots| <= w + 1 && |slots'| == w + 1
    requires MapsGrown(maps, maps', cf) && (maps' != maps <==> AddsMap(ExtentOf(nused, slots, maps, cf), cf))
    ensures var x := ExtentOf(nused, slots, maps, cf);
      && ExtentOf(nused + 1, slots', maps', cf) == Next(x, cf)
      && |slots'| + Starts(maps', cf) == |slots| + Starts(maps, cf) + StepCost(x, cf)
  {
    GrownSize(nused, slots, maps, nused + 1, slots', maps', cf);
  }

  /** The file after growing to n blocks. */
  function After(x: Extent, n: nat, cf: nat): Extent
    decreases n - x.nused
  {
    if n <= x.nused then x else After(Next(x, cf), n, cf)
  }

  /** Growing in two steps. */
  lemma {:induction false} CostSplit(x: Extent, m: nat, n: nat, cf: nat)
    requires m <= n
    ensures Cost(x, n, cf) == Cost(x, m, cf) + Cost(After(x, m, cf), n, cf)
    ensures After(x, n, cf) == After(After(x, m, cf), n, cf)
    decreases m - x.nused
  {
    if x.nused < m { CostSplit(Next(x, cf), m, n, cf); }
  }

  lemma CostMonotone(x: Extent, m: nat, n: nat, cf: nat)
    requires m <= n
    ensures Cost(x, m, cf) <= Cost(x, n, cf)
  {
    CostSplit(x, m, n, cf);
  }
}
