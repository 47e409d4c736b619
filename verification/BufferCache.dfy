/** The write-back block cache of buffer.c over the disk image of blockio.c. */
module BufferCache {
  import opened Bytes

  const NBUFFERS: nat := 30

  /** struct BUFFER.  The access count is an unsigned char. */
  datatype Buffer = Buffer(blkno: nat, accessCnt: byte, modified: bool, valid: bool, data: Block)

  // ---------------------------------------------------------------
  // The meaning of a cache state
  // ---------------------------------------------------------------

  ghost predicate Holds(bufs: seq<Buffer>, i: int, b: nat)
  {
    0 <= i < |bufs| && bufs[i].valid && bufs[i].blkno == b
  }

  ghost predicate Cached(bufs: seq<Buffer>, b: nat)
  {
    exists i :: Holds(bufs, i, b)
  }

  /** Slot i agrees with the logical volume, the pin counts and (when clean) the disk. */
  ghost predicate SlotOk(u: Buffer, disk: Image, logical: Image, pins: multiset<nat>)
  {
    if u.valid then
      && u.blkno < |disk| == |logical|
      && logical[u.blkno] == u.data
      && pins[u.blkno] == u.accessCnt
      && (!u.modified ==> disk[u.blkno] == u.data)
    else
      u.accessCnt == 0 && !u.modified
  }

  /** "logical" is the volume seen through the cache: cached data where a block is cached,
      disk data everywhere else; "pins" counts the outstanding accesses; no block is cached
      twice. */
  ghost predicate Pointwise(bufs: seq<Buffer>, disk: Image, logical: Image, pins: multiset<nat>)
  {
    && |logical| == |disk|
    && (forall i :: 0 <= i < |bufs| ==> SlotOk(bufs[i], disk, logical, pins))
    && (forall i, j :: 0 <= i < j < |bufs| && bufs[i].valid && bufs[j].valid ==> bufs[i].blkno != bufs[j].blkno)
    && (forall b: nat :: b < |disk| && !Cached(bufs, b) ==> logical[b] == disk[b])
    && (forall b: nat :: !Cached(bufs, b) ==> pins[b] == 0)
  }

  ghost predicate CacheKey(k: int)
  {
    true
  }

  /** The state invariant of the cache, folded so that code above the cache need not see it. */
  ghost predicate Coherent(bufs: seq<Buffer>, disk: Image, logical: Image, pins: multiset<nat>)
  {
    forall k {:trigger CacheKey(k)} :: Folded(k) ==> Pointwise(bufs, disk, logical, pins)
  }

  lemma CoherentIffPointwise(bufs: seq<Buffer>, disk: Image, logical: Image, pins: multiset<nat>)
    ensures Coherent(bufs, disk, logical, pins) <==> Pointwise(bufs, disk, logical, pins)
  {
    assert CacheKey(0);
  }

  /** The logical volume and the pin counts are functions of the cache state. */
  lemma PointwiseUnique(bufs: seq<Buffer>, disk: Image, l1: Image, p1: multiset<nat>, l2: Image, p2: multiset<nat>)
    requires Pointwise(bufs, disk, l1, p1) && Pointwise(bufs, disk, l2, p2)
    ensures l1 == l2 && p1 == p2
  {
    forall b: nat ensures p1[b] == p2[b] && (b < |disk| ==> l1[b] == l2[b]) {
      if Cached(bufs, b) {
        var i :| Holds(bufs, i, b);
        assert SlotOk(bufs[i], disk, l1, p1) && SlotOk(bufs[i], disk, l2, p2);
      }
    }
  }

  /** What the invariant says of one buffer. */
  lemma SlotOf(bufs: seq<Buffer>, disk: Image, logical: Image, pins: multiset<nat>, i: nat)
    requires Coherent(bufs, disk, logical, pins) && i < |bufs|
    ensures SlotOk(bufs[i], disk, logical, pins)
  {
    CoherentIffPointwise(bufs, disk, logical, pins);
  }

  ghost predicate AllPinned(bufs: seq<Buffer>)
  {
    forall i :: 0 <= i < |bufs| ==> bufs[i].accessCnt > 0
  }

  /** Pigeonhole: with fewer outstanding accesses than buffers, some buffer is free. */
  lemma FewPinsLeaveRoom(bufs: seq<Buffer>, disk: Image, logical: Image, pins: multiset<nat>)
    requires Coherent(bufs, disk, logical, pins)
    requires |pins| < |bufs|
    ensures !AllPinned(bufs)
  {
    CoherentIffPointwise(bufs, disk, logical, pins);
    if AllPinned(bufs) {
      var rest := PinsCoverPrefix(bufs, disk, logical, pins, |bufs|);
    }
  }

  /** If the first n buffers are pinned, the pin multiset has at least n elements. */
  lemma {:induction false} PinsCoverPrefix(bufs: seq<Buffer>, disk: Image, logical: Image, pins: multiset<nat>, n: nat)
    returns (rest: multiset<nat>)
    requires Pointwise(bufs, disk, logical, pins) && AllPinned(bufs) && n <= |bufs|
    ensures rest <= pins && |rest| + n <= |pins|
    ensures forall i :: n <= i < |bufs| ==> rest[bufs[i].blkno] == pins[bufs[i].blkno]
  {
    if n == 0 {
      rest := pins;
    } else {
      var prior := PinsCoverPrefix(bufs, disk, logical, pins, n - 1);
      var b := bufs[n - 1].blkno;
      assert SlotOk(bufs[n - 1], disk, logical, pins);
      assert prior[b] > 0;
      rest := prior - multiset{b};
      forall i | n <= i < |bufs| ensures rest[bufs[i].blkno] == pins[bufs[i].blkno] {
        assert SlotOk(bufs[i], disk, logical, pins);
      }
    }
  }

  // ---------------------------------------------------------------
  // The steps a cache state can take
  // ---------------------------------------------------------------

  /** write_block of a buffer followed by clearing its modified flag. */
  lemma FlushStep(bufs: seq<Buffer>, disk: Image, logical: Image, pins: multiset<nat>, i: nat)
    requires Coherent(bufs, disk, logical, pins) && i < |bufs| && bufs[i].valid
    ensures bufs[i].blkno < |disk|
    ensures Coherent(bufs[i := bufs[i].(modified := false)], disk[bufs[i].blkno := bufs[i].data], logical, pins)
  {
    CoherentIffPointwise(bufs, disk, logical, pins);
    assert SlotOk(bufs[i], disk, logical, pins);
    var bufs' := bufs[i := bufs[i].(modified := false)];
    var disk' := disk[bufs[i].blkno := bufs[i].data];
    CoherentIffPointwise(bufs', disk', logical, pins);
    CachedSame(bufs, bufs');
    forall k | 0 <= k < |bufs'| ensures SlotOk(bufs'[k], disk', logical, pins) {
      assert SlotOk(bufs[k], disk, logical, pins);
      if k != i && bufs[k].valid { assert bufs[k].blkno != bufs[i].blkno; }
    }
    forall b: nat | b < |disk| && !Cached(bufs', b) ensures logical[b] == disk'[b] {
      assert Holds(bufs, i, bufs[i].blkno);
    }
  }

  lemma CachedSame(bufs: seq<Buffer>, bufs': seq<Buffer>)
    requires |bufs| == |bufs'|
    requires forall i :: 0 <= i < |bufs| ==> bufs[i].valid == bufs'[i].valid && bufs[i].blkno == bufs'[i].blkno
    ensures forall b: nat :: Cached(bufs, b) <==> Cached(bufs', b)
  {
    forall b: nat ensures Cached(bufs, b) <==> Cached(bufs', b) {
      if Cached(bufs, b) {
        var i :| Holds(bufs, i, b);
        assert Holds(bufs', i, b);
      }
      if Cached(bufs', b) {
        var i :| Holds(bufs', i, b);
        assert Holds(bufs, i, b);
      }
    }
  }

  /** ++access_cnt on an unsigned char. */
  function Incremented(u: Buffer): Buffer
  {
    u.(accessCnt := (u.accessCnt + 1) % 256)
  }

  /** One more access is recorded if and only if the count does not wrap around: the
      256th simultaneous access to a block makes its buffer look unused. */
  lemma PinStep(bufs: seq<Buffer>, disk: Image, logical: Image, pins: multiset<nat>, i: nat)
    requires Coherent(bufs, disk, logical, pins) && i < |bufs| && bufs[i].valid
    ensures Coherent(bufs[i := Incremented(bufs[i])], disk, logical, pins + multiset{bufs[i].blkno}) <==> bufs[i].accessCnt < 255
  {
    var bufs' := bufs[i := Incremented(bufs[i])];
    var pins' := pins + multiset{bufs[i].blkno};
    CoherentIffPointwise(bufs, disk, logical, pins);
    CoherentIffPointwise(bufs', disk, logical, pins');
    assert SlotOk(bufs[i], disk, logical, pins);
    if bufs[i].accessCnt < 255 {
      CachedSame(bufs, bufs');
      forall k | 0 <= k < |bufs'| ensures SlotOk(bufs'[k], disk, logical, pins') {
        assert SlotOk(bufs[k], disk, logical, pins);
        if k != i && bufs[k].valid { assert bufs[k].blkno != bufs[i].blkno; }
      }
      assert Holds(bufs, i, bufs[i].blkno);
    } else {
      assert !SlotOk(bufs'[i], disk, logical, pins');
    }
  }

  lemma UnpinStep(bufs: seq<Buffer>, disk: Image, logical: Image, pins: multiset<nat>, i: nat)
    requires Coherent(bufs, disk, logical, pins) && i < |bufs| && bufs[i].valid && bufs[i].accessCnt > 0
    ensures Coherent(bufs[i := bufs[i].(accessCnt := bufs[i].accessCnt - 1)], disk, logical, pins - multiset{bufs[i].blkno})
  {
    var bufs' := bufs[i := bufs[i].(accessCnt := bufs[i].accessCnt - 1)];
    var pins' := pins - multiset{bufs[i].blkno};
    CoherentIffPointwise(bufs, disk, logical, pins);
    CoherentIffPointwise(bufs', disk, logical, pins');
    CachedSame(bufs, bufs');
    forall k | 0 <= k < |bufs'| ensures SlotOk(bufs'[k], disk, logical, pins') {
      assert SlotOk(bufs[k], disk, logical, pins);
      if k != i && bufs[k].valid { assert bufs[k].blkno != bufs[i].blkno; }
    }
  }

  /** A clean, unpinned buffer is reassigned to an uncached block. */
  lemma ReplaceStep(bufs: seq<Buffer>, disk: Image, logical: Image, pins: multiset<nat>, j: nat, b: nat, modified: bool, data: Block)
    requires Coherent(bufs, disk, logical, pins)
    requires j < |bufs| && bufs[j].accessCnt == 0 && !bufs[j].modified
    requires b < |disk| == |logical| && !Cached(bufs, b)
    requires modified || data == disk[b]
    ensures Coherent(bufs[j := Buffer(b, 1, modified, true, data)], disk, logical[b := data], pins + multiset{b})
  {
    var bufs' := bufs[j := Buffer(b, 1, modified, true, data)];
    var logical' := logical[b := data];
    var pins' := pins + multiset{b};
    CoherentIffPointwise(bufs, disk, logical, pins);
    CoherentIffPointwise(bufs', disk, logical', pins');
    assert SlotOk(bufs[j], disk, logical, pins);
    forall k | 0 <= k < |bufs'| ensures SlotOk(bufs'[k], disk, logical', pins') {
      assert SlotOk(bufs[k], disk, logical, pins);
      if k != j && bufs[k].valid { assert Holds(bufs, k, bufs[k].blkno); }
    }
    forall c: nat | !Cached(bufs', c)
      ensures pins'[c] == 0 && (c < |disk| ==> logical'[c] == disk[c])
    {
      assert Holds(bufs', j, b);
      assert c != b;
      if Cached(bufs, c) {
        var k :| Holds(bufs, k, c);
        if k != j { assert Holds(bufs', k, c); }
      }
    }
    forall i, k | 0 <= i < k < |bufs'| && bufs'[i].valid && bufs'[k].valid ensures bufs'[i].blkno != bufs'[k].blkno {
      if i == j { assert Holds(bufs, k, bufs[k].blkno); }
      if k == j { assert Holds(bufs, i, bufs[i].blkno); }
    }
  }

  /** New data in a buffer, with its modified flag raised. */
  lemma StoreStep(bufs: seq<Buffer>, disk: Image, logical: Image, pins: multiset<nat>, i: nat, data: Block)
    requires Coherent(bufs, disk, logical, pins) && i < |bufs| && bufs[i].valid
    ensures bufs[i].blkno < |logical|
    ensures Coherent(bufs[i := bufs[i].(data := data, modified := true)], disk, logical[bufs[i].blkno := data], pins)
  {
    CoherentIffPointwise(bufs, disk, logical, pins);
    assert SlotOk(bufs[i], disk, logical, pins);
    var bufs' := bufs[i := bufs[i].(data := data, modified := true)];
    var logical' := logical[bufs[i].blkno := data];
    CoherentIffPointwise(bufs', disk, logical', pins);
    CachedSame(bufs, bufs');
    forall k | 0 <= k < |bufs'| ensures SlotOk(bufs'[k], disk, logical', pins) {
      assert SlotOk(bufs[k], disk, logical, pins);
      if k != i && bufs[k].valid { assert bufs[k].blkno != bufs[i].blkno; }
    }
    forall b: nat | b < |disk| && !Cached(bufs', b) ensures logical'[b] == disk[b] {
      assert Holds(bufs, i, bufs[i].blkno);
    }
  }

  // ---------------------------------------------------------------
  // The cache
  // ---------------------------------------------------------------

  class Cache {
    const nblocks: nat
    const buffer: array<Buffer>
    var disk: Image
    var lastAlloc: nat
    ghost var logical: Image
    ghost var pins: multiset<nat>

    ghost predicate Valid()
      reads this, buffer
    {
      && buffer.Length == NBUFFERS
      && lastAlloc < NBUFFERS
      && |disk| == |logical| == nblocks
      && Coherent(buffer[..], disk, logical, pins)
    }

    /** Buffer i caches block b. */
    ghost predicate Has(i: int, b: nat)
      reads buffer
    {
      0 <= i < buffer.Length && buffer[i].valid && buffer[i].blkno == b
    }

    /** Somebody holds buffer i, which caches block b. */
    ghost predicate Owns(i: int, b: nat)
      reads this, buffer
    {
      Has(i, b) && pins[b] > 0
    }

    /** No buffer of a block in "held" was reassigned. */
    twostate predicate Kept(held: multiset<nat>)
      reads this, buffer
    {
      forall i, b {:trigger old(Has(i, b))} :: old(Has(i, b)) && held[b] > 0 ==> Has(i, b)
    }

    /** No buffer was reassigned. */
    twostate predicate Undisturbed()
      reads this, buffer
    {
      forall i, b {:trigger old(Has(i, b))} :: old(Has(i, b)) ==> Has(i, b)
    }

    /** buf->data */
    function Data(i: nat): (d: Block)
      requires Valid() && i < NBUFFERS && buffer[i].valid
      reads this, buffer
      ensures forall b: nat {:trigger Has(i, b)} {:trigger Owns(i, b)} :: Has(i, b) ==> b < nblocks && d == logical[b]
    {
      SlotOf(buffer[..], disk, logical, pins, i);
      buffer[i].data
    }

    /** init_bufs */
    constructor (image: Image)
      ensures Valid() && nblocks == |image|
      ensures fresh(buffer)
      ensures disk == logical == image && pins == multiset{}
    {
      nblocks := |image|;
      disk := image;
      lastAlloc := 0;
      buffer := new Buffer[NBUFFERS](_ => Buffer(0, 0, false, false, ZeroBlock()));
      logical := image;
      pins := multiset{};
      new;
      CoherentIffPointwise(buffer[..], disk, logical, pins);
    }

    /** release_block */
    method ReleaseBlock(i: nat, ghost b: nat)
      requires Valid() && Owns(i, b)
      modifies this, buffer
      ensures Valid() && Undisturbed()
      ensures logical == old(logical) && disk == old(disk)
      ensures pins == old(pins) - multiset{b}
    {
      SlotOf(buffer[..], disk, logical, pins, i);
      UnpinStep(buffer[..], disk, logical, pins, i);
      buffer[i] := buffer[i].(accessCnt := buffer[i].accessCnt - 1);
      pins := pins - multiset{b};
    }

    /** Assignment to bytes of buf->data together with buf->modified = 1. */
    method Store(i: nat, ghost b: nat, data: Block)
      requires Valid() && Has(i, b)
      modifies this, buffer
      ensures Valid() && Undisturbed()
      ensures b < nblocks && logical == old(logical)[b := data]
      ensures disk == old(disk) && pins == old(pins) && lastAlloc == old(lastAlloc)
      ensures buffer[..] == old(buffer[..])[i := old(buffer[i].(data := data, modified := true))]
    {
      StoreStep(buffer[..], disk, logical, pins, i, data);
      logical := logical[b := data];
      buffer[i] := buffer[i].(data := data, modified := true);
    }

    /** Writing a buffer back never changes what the volume means. */
    method FlushBlock(i: nat)
      requires Valid() && i < NBUFFERS
      modifies this, buffer
      ensures Valid()
      ensures logical == old(logical) && pins == old(pins) && lastAlloc == old(lastAlloc)
      ensures buffer[..] == old(buffer[..])[i := old(buffer[i].(modified := false))]
      ensures forall b :: 0 <= b < nblocks && old(disk[b]) == logical[b] ==> disk[b] == logical[b]
    {
      SlotOf(buffer[..], disk, logical, pins, i);
      if buffer[i].modified {
        FlushStep(buffer[..], disk, logical, pins, i);
        disk := disk[buffer[i].blkno := buffer[i].data];
        buffer[i] := buffer[i].(modified := false);
      } else {
        assert buffer[..] == buffer[..][i := buffer[i].(modified := false)];
      }
    }

    /** After flush_buffers the disk is the volume. */
    method FlushBuffers()
      requires Valid()
      modifies this, buffer
      ensures Valid()
      ensures logical == old(logical) && pins == old(pins)
      ensures disk == logical
    {
      for i := 0 to NBUFFERS
        invariant Valid()
        invariant logical == old(logical) && pins == old(pins)
        invariant forall k :: 0 <= k < i ==> !buffer[k].modified
      {
        FlushBlock(i);
      }
      CoherentIffPointwise(buffer[..], disk, logical, pins);
      forall b: nat | b < nblocks ensures disk[b] == logical[b] {
        if Cached(buffer[..], b) {
          var i :| Holds(buffer[..], i, b);
          assert SlotOk(buffer[i], disk, logical, pins);
        }
      }
    }

    /** The buffer that caches block b, or NBUFFERS. */
    method FindBuffer(b: nat) returns (i: nat)
      requires Valid()
      ensures i <= NBUFFERS
      ensures if i < NBUFFERS then Holds(buffer[..], i, b) else !Cached(buffer[..], b)
    {
      i := 0;
      while i < NBUFFERS
        invariant i <= NBUFFERS
        invariant forall k :: 0 <= k < i ==> !Holds(buffer[..], k, b)
      {
        if buffer[i].valid && buffer[i].blkno == b { return; }
        i := i + 1;
      }
    }

    /** The number of steps from one buffer on to another, cyclically; all of them back to itself. */
    static function Steps(from: nat, k: nat): int
    {
      if k > from then k - from else k - from + NBUFFERS
    }

    /** Buffer j is the first one behind buffer "from", cyclically, that is not held. */
    static ghost predicate IsNext(bufs: seq<Buffer>, from: nat, j: nat)
      requires |bufs| == NBUFFERS && j < NBUFFERS
    {
      bufs[j].accessCnt == 0 && forall k: nat :: k < NBUFFERS && Steps(from, k) < Steps(from, j) ==> bufs[k].accessCnt > 0
    }

    /** Round-robin search for an unpinned buffer, which is flushed; -1 if all are pinned. */
    method EvictBuffer() returns (j: int)
      requires Valid()
      modifies this, buffer
      ensures Valid()
      ensures logical == old(logical) && pins == old(pins)
      ensures -1 <= j < NBUFFERS
      ensures j == -1 <==> AllPinned(old(buffer[..]))
      ensures j == -1 ==> buffer[..] == old(buffer[..])
      ensures j >= 0 ==> old(buffer[j].accessCnt) == 0 && buffer[..] == old(buffer[..])[j := old(buffer[j].(modified := false))]
      ensures lastAlloc == old(lastAlloc) && (j >= 0 ==> IsNext(old(buffer[..]), lastAlloc, j))
    {
      j := lastAlloc;
      for i := 0 to NBUFFERS
        invariant Valid() && lastAlloc == old(lastAlloc)
        invariant buffer[..] == old(buffer[..])
        invariant logical == old(logical) && pins == old(pins)
        invariant 0 <= j < NBUFFERS && (j == lastAlloc + i || j == lastAlloc + i - NBUFFERS)
        invariant forall k :: 0 <= k < NBUFFERS && Visited(lastAlloc, i, k) ==> buffer[k].accessCnt > 0
      {
        j := j + 1;
        if j == NBUFFERS { j := 0; }
        if buffer[j].accessCnt == 0 {
          FlushBlock(j);
          return;
        }
      }
      assert forall k :: 0 <= k < NBUFFERS ==> Visited(lastAlloc, NBUFFERS, k);
      j := -1;
    }

    /** Buffer k lies among the i buffers cyclically after buffer "from". */
    static predicate Visited(from: nat, i: nat, k: nat)
    {
      from < k <= from + i || from < k + NBUFFERS <= from + i
    }

    /** ++buffer[i].access_cnt for a count that does not wrap around. */
    method Pin(i: nat)
      requires Valid() && i < NBUFFERS && buffer[i].valid && pins[buffer[i].blkno] < 255
      modifies this, buffer
      ensures Valid()
      ensures logical == old(logical) && disk == old(disk) && lastAlloc == old(lastAlloc)
      ensures pins == old(pins) + multiset{old(buffer[i].blkno)}
      ensures old(buffer[i].accessCnt) < 255
      ensures buffer[..] == old(buffer[..])[i := Incremented(old(buffer[i]))]
      ensures buffer[i].blkno < nblocks && buffer[i].data == logical[buffer[i].blkno]
    {
      SlotOf(buffer[..], disk, logical, pins, i);
      PinStep(buffer[..], disk, logical, pins, i);
      buffer[i] := Incremented(buffer[i]);
      pins := pins + multiset{buffer[i].blkno};
    }

    /** A clean unpinned buffer is reassigned to block b, with the given contents. */
    method Reassign(j: nat, b: nat, modified: bool, data: Block)
      requires Valid() && j < NBUFFERS && buffer[j].accessCnt == 0 && !buffer[j].modified
      requires b < nblocks && !Cached(buffer[..], b)
      requires modified || data == disk[b]
      modifies this, buffer
      ensures Valid()
      ensures pins == old(pins) + multiset{b}
      ensures buffer[..] == old(buffer[..])[j := Buffer(b, 1, modified, true, data)]
      ensures logical == old(logical)[b := data] && lastAlloc == j
    {
      ReplaceStep(buffer[..], disk, logical, pins, j, b, modified, data);
      buffer[j] := Buffer(b, 1, modified, true, data);
      pins := pins + multiset{b};
      logical := logical[b := data];
      lastAlloc := j;
    }

    /** Take over an unpinned buffer for an uncached block, zeroed or read from disk. */
    method TakeOver(b: nat, zero: bool) returns (j: int)
      requires Valid() && b < nblocks && !Cached(buffer[..], b)
      modifies this, buffer
      ensures Valid()
      ensures -1 <= j < NBUFFERS
      ensures j == -1 <==> AllPinned(old(buffer[..]))
      ensures j == -1 ==> buffer[..] == old(buffer[..]) && logical == old(logical) && pins == old(pins)
      ensures j >= 0 ==> old(buffer[j].accessCnt == 0 && (buffer[j].valid ==> pins[buffer[j].blkno] == 0))
      ensures j >= 0 ==> logical == (if zero then old(logical)[b := ZeroBlock()] else old(logical)) && pins == old(pins) + multiset{b}
      ensures j >= 0 ==> buffer[..] == old(buffer[..])[j := Buffer(b, 1, zero, true, logical[b])]
      ensures if j >= 0 then lastAlloc == j && IsNext(old(buffer[..]), old(lastAlloc), j) else lastAlloc == old(lastAlloc)
    {
      j := EvictBuffer();
      if j >= 0 {
        SlotOf(buffer[..], disk, logical, pins, j);
        CachedSame(old(buffer[..]), buffer[..]);
        var data := if zero then ZeroBlock() else disk[b];
        UncachedOnDisk(b);
        Reassign(j, b, zero, data);
      }
    }

    /** Block b was cached and its buffer is the one returned, or the next free one in turn was taken for it; the
        other buffers are as they were. */
    twostate predicate TookTurn(b: nat, i: nat)
      requires i < NBUFFERS
      reads this, buffer
    {
      && buffer.Length == NBUFFERS
      && (forall k: nat :: k < NBUFFERS && k != i ==> buffer[k] == old(buffer[k]))
      && if Cached(old(buffer[..]), b) then old(Has(i, b)) && lastAlloc == old(lastAlloc)
         else IsNext(old(buffer[..]), old(lastAlloc), i) && lastAlloc == i
    }

    /** get_block: -1 stands for NULL. */
    method GetBlock(b: nat) returns (i: int)
      requires Valid() && pins[b] < 255
      modifies this, buffer
      ensures Valid() && Kept(old(pins))
      ensures logical == old(logical)
      ensures -1 <= i < NBUFFERS
      ensures i == -1 <==> b >= nblocks || (!Cached(old(buffer[..]), b) && AllPinned(old(buffer[..])))
      ensures |old(pins)| < NBUFFERS && b < nblocks ==> i >= 0
      ensures pins == if i == -1 then old(pins) else old(pins) + multiset{b}
      ensures i >= 0 ==> b < nblocks && Owns(i, b) && buffer[i].data == logical[b]
      ensures i >= 0 ==> TookTurn(b, i)
    {
      if |pins| < NBUFFERS { FewPinsLeaveRoom(buffer[..], disk, logical, pins); }
      if b >= nblocks { return -1; }
      i := FindBuffer(b);
      if i < NBUFFERS {
        Pin(i);
      } else {
        i := TakeOver(b, false);
      }
    }

    lemma UncachedOnDisk(b: nat)
      requires Valid() && b < nblocks && !Cached(buffer[..], b)
      ensures logical == logical[b := disk[b]]
    {
      CoherentIffPointwise(buffer[..], disk, logical, pins);
    }

    /** new_block: like get_block, but the block's contents become zero without being read. */
    method NewBlock(b: nat) returns (i: int)
      requires Valid() && pins[b] < 255
      modifies this, buffer
      ensures Valid() && Kept(old(pins))
      ensures -1 <= i < NBUFFERS
      ensures i == -1 <==> b >= nblocks || (!Cached(old(buffer[..]), b) && AllPinned(old(buffer[..])))
      ensures |old(pins)| < NBUFFERS && b < nblocks ==> i >= 0
      ensures pins == if i == -1 then old(pins) else old(pins) + multiset{b}
      ensures i == -1 ==> logical == old(logical)
      ensures i >= 0 ==> b < nblocks && Owns(i, b) && buffer[i].data == ZeroBlock() && logical == old(logical)[b := ZeroBlock()]
      ensures i >= 0 ==> TookTurn(b, i)
    {
      if |pins| < NBUFFERS { FewPinsLeaveRoom(buffer[..], disk, logical, pins); }
      if b >= nblocks { return -1; }
      i := FindBuffer(b);
      if i < NBUFFERS {
        label Hit:
        Store(i, b, ZeroBlock());
        Pin(i);
        assert forall k :: 0 <= k < NBUFFERS && k != i ==> buffer[k] == old@Hit(buffer[k]);
        assert Cached(old(buffer[..]), b);
      } else {
        i := TakeOver(b, true);
      }
    }
  }
}
