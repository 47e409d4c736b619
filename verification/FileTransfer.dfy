/** The transfer loops of main.c: import from, export to and copy within a volume. */
module FileTransfer {
  import opened Bytes
  import opened BufferCache
  import opened Volumes
  import opened Allocation
  import opened FileMap
  import opened FileGrowth
  import opened Footprint
  import opened FileContent
  import opened FileExtension
  import opened StreamIo
  import opened StreamWrite
  import opened StreamLaws

  /** The position is the end of the file, inside its last block. */
  ghost predicate AtTail(h: FcbHeader, fcb: Fcb)
    reads h, fcb
  {
    if h.nused == 0 then fcb.curblk == 0 && fcb.byteptr == 0 && h.lbcount == 0
    else fcb.curblk == h.nused - 1 && fcb.byteptr == h.lbcount
  }

  // ---------------------------------------------------------------
  // Writing in pieces
  // ---------------------------------------------------------------

  /** A transfer to the end of a file: its bytes at the start, the blocks that it will have, and the
      accesses held, the volume, the clusters and the size of the file at the start. */
  datatype Transfer = Transfer(content: seq<byte>, n: nat, held: multiset<nat>, vol: Image, slots: seq<nat>, maps: seq<nat>, x: Extent)

  /** There is room for n more bytes, or that there is not will be noticed. */
  ghost predicate TailRoom(v: Volume, fcb: Fcb, n: nat)
    reads fcb, fcb.header, v.cache
  {
    RoomFor(v, fcb.header, BlocksAfter(fcb.curblk, fcb.byteptr, n))
  }

  /** The file has got the bytes "done"; if there is more to come, it is these bytes. */
  ghost predicate Reached(v: Volume, fcb: Fcb, t: Transfer, done: seq<byte>, more: bool, left: nat)
    reads fcb, fcb.header, v.cache
  {
    && FileOk(v, fcb.header) && AtTail(fcb.header, fcb) && ContentIs(v, fcb.header, t.content + done)
    && (!fcb.header.contiguous ==> Paid(v, t.vol, t.x, v.cache.logical, HeaderExtent(v, fcb.header), t.n))
    && (more ==> BlocksAfter(fcb.curblk, fcb.byteptr, left) == t.n && RoomFor(v, fcb.header, t.n) && (left == 0 ==> fcb.header.nused > 0))
  }

  /** A write was cut short: the bytes up to here are too many for a contiguous file, or the clusters
      for all of them were not free. */
  ghost predicate Stuck(v: Volume, fcb: Fcb, t: Transfer, len: nat)
    reads fcb, fcb.header, v.cache
  {
    && OutOfRoom(v, fcb, t.held) && fcb.header.lbcount <= 512
    && if fcb.header.contiguous then 512 * fcb.header.nalloc < |t.content| + len
       else FileOk(v, fcb.header) && !Affordable(v, t.vol, t.x, t.n)
  }

  /** What the volume has become. */
  ghost predicate Moved(v: Volume, h: FcbHeader, t: Transfer)
    reads h, v.cache
  {
    Wrote(v, t.vol, t.slots, t.maps, v.cache.logical, h.slots, h.maps)
  }

  /** A complete write at the tail leaves the position at the tail and adds its length. */
  lemma AppendEnds(nused: nat, lbcount: nat, c: nat, b: nat, len: nat, nused': nat, lbcount': nat, c': nat, b': nat)
    requires lbcount <= 512 && if nused == 0 then c == 0 && b == 0 && lbcount == 0 else c == nused - 1 && b == lbcount
    requires WriteEnded(nused, lbcount, c, b, len, nused', lbcount', c', b')
    ensures nused' > 0 && c' == nused' - 1 && b' == lbcount' && ByteSize(nused', lbcount') == ByteSize(nused, lbcount) + len
  {
  }

  /** The blocks for a piece are no more than those for all. */
  lemma BlocksAfterPart(c: nat, b: nat, len: nat, rest: nat, c': nat, b': nat)
    requires 512 * c' + b' == 512 * c + b + len && c' >= c && b' <= 512
    ensures BlocksAfter(c, b, len) <= BlocksAfter(c, b, len + rest)
  {
  }

  lemma BlocksAfterRest(c: nat, b: nat, len: nat, rest: nat, c': nat, b': nat)
    requires 512 * c' + b' == 512 * c + b + len && b' <= 512 && (if b + len <= 512 then c' == c else c' > c && b' > 0)
    ensures BlocksAfter(c', b', rest) == BlocksAfter(c, b, len + rest)
  {
    if b + len > 512 {
      assert b' + rest - 1 == (b + len + rest - 1) - 512 * (c' - c);
      assert (b' + rest - 1) / 512 == (b + len + rest - 1) / 512 - (c' - c);
    }
  }

  /** What one complete write takes, on the way to n blocks. */
  lemma PaidOn(v: Volume, vol: Image, x: Extent, vol1: Image, x1: Extent, vol2: Image, x2: Extent, m: nat, n: nat)
    requires Paid(v, vol, x, vol1, x1, n) && m <= n
    requires x2 == After(x1, m, v.clfactor) && |Used(v, vol2)| == |Used(v, vol1)| + Cost(x1, m, v.clfactor)
    ensures Paid(v, vol, x, vol2, x2, n) && (Affordable(v, vol1, x1, n) ==> Affordable(v, vol2, x2, n))
  {
    CostSplit(x1, m, n, v.clfactor);
  }

  lemma NotPaid(v: Volume, vol: Image, x: Extent, vol1: Image, x1: Extent, m: nat, n: nat)
    requires Paid(v, vol, x, vol1, x1, n) && m <= n && !Affordable(v, vol1, x1, m)
    ensures !Affordable(v, vol, x, n)
  {
    CostMonotone(x1, m, n, v.clfactor);
    PaidAffordable(v, vol, x, vol1, x1, n);
  }

  lemma RoomForFewer(v: Volume, h: FcbHeader, m: nat, n: nat)
    requires RoomFor(v, h, n) && m <= n
    ensures RoomFor(v, h, m)
  {
    CostMonotone(HeaderExtent(v, h), m, n, v.clfactor);
  }

  /** The content after a complete write at the tail. */
  lemma Appended(v: Volume, fcb: Fcb, part: seq<byte>, content: seq<byte>, f: seq<byte>, nused: nat, lbcount: nat, c: nat, b: nat)
    requires FileOk(v, fcb.header) && lbcount <= 512
    requires if nused == 0 then c == 0 && b == 0 && lbcount == 0 else c == nused - 1 && b == lbcount
    requires WriteEnded(nused, lbcount, c, b, |part|, fcb.header.nused, fcb.header.lbcount, fcb.curblk, fcb.byteptr)
    requires |content| == ByteSize(nused, lbcount) <= |f| && content == f[..|content|]
    requires Written(f, |content|, part, Blocks(v, fcb.header))
    ensures AtTail(fcb.header, fcb) && ContentIs(v, fcb.header, content + part)
  {
    var h := fcb.header;
    AppendEnds(nused, lbcount, c, b, |part|, h.nused, h.lbcount, fcb.curblk, fcb.byteptr);
    ContentAfterWrite(f, |content|, part, Blocks(v, h), |content|, SizeOf(h));
    ContentIsContent(v, h, content + part);
  }

  lemma {:induction false} JoinThree(a: seq<byte>, b: seq<byte>, c: seq<byte>)
    ensures a + b + c == a + (b + c)
  {
  }

  /** What a complete write means for the transfer. */
  lemma PartReached(v: Volume, fcb: Fcb, t: Transfer, done: seq<byte>, part: seq<byte>, rest: nat, f: seq<byte>,
                    vol1: Image, x1: Extent, lbcount: nat, c: nat, b: nat)
    requires FileOk(v, fcb.header) && lbcount <= 512
    requires if x1.nused == 0 then c == 0 && b == 0 && lbcount == 0 else c == x1.nused - 1 && b == lbcount
    requires WriteEnded(x1.nused, lbcount, c, b, |part|, fcb.header.nused, fcb.header.lbcount, fcb.curblk, fcb.byteptr)
    requires |t.content + done| == ByteSize(x1.nused, lbcount) <= |f| && t.content + done == f[..|t.content + done|]
    requires Written(f, |t.content + done|, part, Blocks(v, fcb.header))
    requires BlocksAfter(c, b, |part| + rest) == t.n && (fcb.header.contiguous || v.clfactor == 0 || Affordable(v, vol1, x1, t.n))
    requires !fcb.header.contiguous ==>
      && Paid(v, t.vol, t.x, vol1, x1, t.n) && HeaderExtent(v, fcb.header) == After(x1, BlocksAfter(c, b, |part|), v.clfactor)
      && |Used(v, v.cache.logical)| == |Used(v, vol1)| + Cost(x1, BlocksAfter(c, b, |part|), v.clfactor)
    ensures Reached(v, fcb, t, done + part, true, rest)
  {
    Appended(v, fcb, part, t.content + done, f, x1.nused, lbcount, c, b);
    JoinThree(t.content, done, part);
    BlocksAfterPart(c, b, |part|, rest, fcb.curblk, fcb.byteptr);
    BlocksAfterRest(c, b, |part|, rest, fcb.curblk, fcb.byteptr);
    if !fcb.header.contiguous {
      PaidOn(v, t.vol, t.x, vol1, x1, v.cache.logical, HeaderExtent(v, fcb.header), BlocksAfter(c, b, |part|), t.n);
    }
  }

  /** Why a write is cut short. */
  lemma PartStuck(v: Volume, fcb: Fcb, t: Transfer, len: nat, vol1: Image, x1: Extent, c: nat, b: nat, n: nat, m: nat)
    requires 512 * c + b + n == |t.content| + len && n > 0 && m == BlocksAfter(c, b, n)
    requires OutOfRoom(v, fcb, t.held) && fcb.header.lbcount <= 512
    requires fcb.header.contiguous ==> fcb.header.nalloc < m
    requires !fcb.header.contiguous ==>
      FileOk(v, fcb.header) && Paid(v, t.vol, t.x, vol1, x1, t.n) && m <= t.n && !Affordable(v, vol1, x1, m)
    ensures Stuck(v, fcb, t, len)
  {
    if !fcb.header.contiguous { NotPaid(v, t.vol, t.x, vol1, x1, m, t.n); }
  }

  /** file_write with the callers' check for a short count, at the end of the file: a complete write
      appends. */
  method WriteTail(v: Volume, fcb: Fcb, part: seq<byte>, ghost t: Transfer, ghost done: seq<byte>, ghost rest: nat) returns (ok: bool)
    requires v.Valid() && |v.cache.pins| + 2 <= NBUFFERS && v.cache.pins == t.held && Reached(v, fcb, t, done, true, |part| + rest)
    requires |part| > 0 || fcb.header.nused > 0
    modifies v.cache, v.cache.buffer, fcb, fcb.header
    ensures v.Valid() && v.cache.Kept(t.held) && RunKept(v, fcb.header) && FileWrote(v, fcb.header)
    ensures ok ==> v.cache.pins == t.held && Reached(v, fcb, t, done + part, true, rest) && fcb.header.nused > 0
    ensures !ok ==> Stuck(v, fcb, t, |done| + |part|)
  {
    var h := fcb.header;
    ghost var f, vol1, x1 := Blocks(v, h), v.cache.logical, HeaderExtent(v, h);
    ghost var lbcount, c, b := h.lbcount, fcb.curblk, fcb.byteptr;
    TailPart(v, fcb, t, done, |part|, rest);
    var n;
    ghost var failed;
    n, failed := FileWrite(v, fcb, part);
    ok := n == |part|;
    if ok {
      assert part[..n] == part;
      PartReached(v, fcb, t, done, part, rest, f, vol1, x1, lbcount, c, b);
    } else {
      PartStuck(v, fcb, t, |done| + |part|, vol1, x1, c, b, |part|, BlocksAfter(c, b, |part|));
    }
  }

  /** Before a piece of a transfer is written. */
  lemma TailPart(v: Volume, fcb: Fcb, t: Transfer, done: seq<byte>, len: nat, rest: nat)
    requires Reached(v, fcb, t, done, true, len + rest)
    ensures RoomFor(v, fcb.header, BlocksAfter(fcb.curblk, fcb.byteptr, len)) && BlocksAfter(fcb.curblk, fcb.byteptr, len) <= t.n
    ensures PosOk(fcb) && |t.content + done| == Pos(fcb) == SizeOf(fcb.header) <= |Blocks(v, fcb.header)|
    ensures t.content + done == Blocks(v, fcb.header)[..|t.content + done|]
  {
    ContentIsContent(v, fcb.header, t.content + done);
    FileOkFacts(v, fcb.header);
    MorePieces(fcb.curblk, fcb.byteptr, len, rest);
    RoomForFewer(v, fcb.header, BlocksAfter(fcb.curblk, fcb.byteptr, len), t.n);
  }

  /** The same, and what has become of the volume since the start. */
  method AppendPart(v: Volume, fcb: Fcb, part: seq<byte>, ghost t: Transfer, ghost done: seq<byte>, ghost rest: nat) returns (ok: bool)
    requires v.Valid() && |v.cache.pins| + 2 <= NBUFFERS && v.cache.pins == t.held && Reached(v, fcb, t, done, true, |part| + rest) && Moved(v, fcb.header, t)
    requires |part| > 0 || fcb.header.nused > 0
    modifies v.cache, v.cache.buffer, fcb, fcb.header
    ensures v.Valid() && v.cache.Kept(t.held) && RunKept(v, fcb.header) && Moved(v, fcb.header, t) && FileWrote(v, fcb.header)
    ensures ok ==> v.cache.pins == t.held && Reached(v, fcb, t, done + part, true, rest) && fcb.header.nused > 0
    ensures !ok ==> Stuck(v, fcb, t, |done| + |part|)
  {
    ghost var vol1, slots1, maps1 := v.cache.logical, fcb.header.slots, fcb.header.maps;
    FileOkFacts(v, fcb.header);
    ok := WriteTail(v, fcb, part, t, done, rest);
    WroteTransitive(v, t.vol, t.slots, t.maps, vol1, slots1, maps1, v.cache.logical, fcb.header.slots, fcb.header.maps);
  }

  lemma MorePieces(c: nat, b: nat, len: nat, rest: nat)
    ensures BlocksAfter(c, b, len) <= BlocksAfter(c, b, len + rest)
  {
  }

  /** At the start of a transfer of len bytes. */
  lemma TransferStarts(v: Volume, fcb: Fcb, t: Transfer, more: bool, len: nat)
    requires FileOk(v, fcb.header) && AtTail(fcb.header, fcb) && t.content == Content(v, fcb.header) && t.vol == v.cache.logical
    requires t.slots == fcb.header.slots && t.maps == fcb.header.maps && t.x == HeaderExtent(v, fcb.header)
    requires t.n == BlocksAfter(fcb.curblk, fcb.byteptr, len) && (more ==> TailRoom(v, fcb, len) && (len > 0 || fcb.header.nused > 0))
    ensures Reached(v, fcb, t, [], more, len) && Moved(v, fcb.header, t)
  {
    ContentIsContent(v, fcb.header, t.content);
    assert t.content + [] == t.content;
    WroteNothing(v, v.cache.logical, fcb.header.slots, fcb.header.maps);
  }

  /** At the end of one. */
  lemma TransferEnds(v: Volume, fcb: Fcb, t: Transfer, done: seq<byte>)
    requires Reached(v, fcb, t, done, true, 0)
    ensures Content(v, fcb.header) == t.content + done
    ensures if fcb.header.contiguous then |t.content| + |done| <= 512 * fcb.header.nalloc else Affordable(v, t.vol, t.x, t.n)
    ensures !fcb.header.contiguous ==> |Used(v, v.cache.logical)| == |Used(v, t.vol)| + Cost(t.x, t.n, v.clfactor)
  {
    ContentIsContent(v, fcb.header, t.content + done);
    assert FileKey(0);
    UsedFits(v, v.cache.logical);
  }

  /** One turn of the import loop. */
  method ImportTurn(v: Volume, fcb: Fcb, host: seq<byte>, rest: seq<byte>, chunk: nat, ghost t: Transfer) returns (ok: bool, rest': seq<byte>)
    requires v.Valid() && |v.cache.pins| + 2 <= NBUFFERS && v.cache.pins == t.held && chunk > 0
    requires 0 < |rest| <= |host| && rest == host[|host| - |rest|..]
    requires Reached(v, fcb, t, host[..|host| - |rest|], true, |rest|) && Moved(v, fcb.header, t)
    modifies v.cache, v.cache.buffer, fcb, fcb.header
    ensures v.Valid() && v.cache.Kept(t.held) && RunKept(v, fcb.header) && Moved(v, fcb.header, t)
    ensures |rest'| < |rest| && rest' == host[|host| - |rest'|..]
    ensures ok ==> v.cache.pins == t.held && Reached(v, fcb, t, host[..|host| - |rest'|], true, |rest'|)
    ensures !ok ==> Stuck(v, fcb, t, |host|)
  {
    var n := if |rest| < chunk then |rest| else chunk;
    ghost var done := |host| - |rest|;
    ok := AppendPart(v, fcb, rest[..n], t, host[..done], |rest| - n);
    assert host[..done] + rest[..n] == host[..done + n];
    rest' := rest[n..];
  }

  /** Clusters that n bytes more take. */
  ghost function DataCost(v: Volume, fcb: Fcb, n: nat): nat
    reads fcb, fcb.header
  {
    if n == 0 then 0 else Cost(HeaderExtent(v, fcb.header), BlocksAfter(fcb.curblk, fcb.byteptr, n), v.clfactor)
  }

  /** cmd_import: write the bytes of a host file in pieces of at most chunk bytes.  A contiguous file
      takes them all if and only if they fit into its blocks, any other file if and only if the
      clusters for them are free. */
  method Import(v: Volume, fcb: Fcb, host: seq<byte>, chunk: nat) returns (ok: bool)
    requires v.Valid() && FileOk(v, fcb.header) && AtTail(fcb.header, fcb) && |v.cache.pins| + 2 <= NBUFFERS
    requires chunk > 0 && (host == [] || TailRoom(v, fcb, |host|))
    modifies v.cache, v.cache.buffer, fcb, fcb.header
    ensures v.Valid() && v.cache.Kept(old(v.cache.pins)) && FileWrote(v, fcb.header) && RunKept(v, fcb.header)
    ensures ok ==> v.cache.pins == old(v.cache.pins) && FileOk(v, fcb.header) && AtTail(fcb.header, fcb)
    ensures ok ==> Content(v, fcb.header) == old(Content(v, fcb.header)) + host
    ensures ok && !fcb.header.contiguous ==> |Used(v, v.cache.logical)| == |Used(v, old(v.cache.logical))| + old(DataCost(v, fcb, |host|))
    ensures !ok ==> OutOfRoom(v, fcb, old(v.cache.pins)) && fcb.header.lbcount <= 512 && (!fcb.header.contiguous ==> FileOk(v, fcb.header))
    ensures ok <==> host == [] || old(Fits(v, fcb, |host|))
  {
    ghost var h := fcb.header;
    ghost var t := Transfer(Content(v, h), BlocksAfter(fcb.curblk, fcb.byteptr, |host|), v.cache.pins, v.cache.logical, h.slots, h.maps, HeaderExtent(v, h));
    TransferStarts(v, fcb, t, host != [], |host|);
    ok := true;
    if host == [] {
      assert Content(v, h) + [] == Content(v, h);
      return;
    }
    FitsIs(v, fcb, |host|);
    ok := ImportLoop(v, fcb, host, chunk, t);
  }

  /** The loop. */
  method ImportLoop(v: Volume, fcb: Fcb, host: seq<byte>, chunk: nat, ghost t: Transfer) returns (ok: bool)
    requires v.Valid() && |v.cache.pins| + 2 <= NBUFFERS && v.cache.pins == t.held && Moved(v, fcb.header, t) && chunk > 0
    requires host != [] && Reached(v, fcb, t, [], true, |host|)
    modifies v.cache, v.cache.buffer, fcb, fcb.header
    ensures v.Valid() && v.cache.Kept(t.held) && RunKept(v, fcb.header) && Moved(v, fcb.header, t)
    ensures ok ==> v.cache.pins == t.held && Reached(v, fcb, t, host, true, 0) && Content(v, fcb.header) == t.content + host
    ensures ok ==> if fcb.header.contiguous then |t.content| + |host| <= 512 * fcb.header.nalloc else Affordable(v, t.vol, t.x, t.n)
    ensures ok && !fcb.header.contiguous ==> |Used(v, v.cache.logical)| == |Used(v, t.vol)| + Cost(t.x, t.n, v.clfactor)
    ensures !ok ==> Stuck(v, fcb, t, |host|)
  {
    ok := true;
    var rest := host;
    while ok && rest != []
      invariant v.Valid() && v.cache.Kept(old(v.cache.pins)) && RunKept(v, fcb.header) && Moved(v, fcb.header, t)
      invariant |rest| <= |host| && rest == host[|host| - |rest|..]
      invariant ok ==> v.cache.pins == t.held && Reached(v, fcb, t, host[..|host| - |rest|], true, |rest|)
      invariant !ok ==> Stuck(v, fcb, t, |host|)
      decreases ok, |rest|
    {
      ok, rest := ImportTurn(v, fcb, host, rest, chunk, t);
    }
    if ok {
      assert host[..|host|] == host;
      TransferEnds(v, fcb, t, host);
    }
  }

  /** n > 0 bytes more fit into the file. */
  ghost predicate Fits(v: Volume, fcb: Fcb, n: nat)
    reads fcb, fcb.header, v.cache
  {
    if fcb.header.contiguous then SizeOf(fcb.header) + n <= 512 * fcb.header.nalloc
    else Affordable(v, v.cache.logical, HeaderExtent(v, fcb.header), BlocksAfter(fcb.curblk, fcb.byteptr, n))
  }

  lemma FitsIs(v: Volume, fcb: Fcb, n: nat)
    requires FileOk(v, fcb.header)
    ensures |Content(v, fcb.header)| == SizeOf(fcb.header)
  {
    ContentIsContent(v, fcb.header, Content(v, fcb.header));
  }

  // ---------------------------------------------------------------
  // Any pieces
  // ---------------------------------------------------------------

  function Joined(pieces: seq<seq<byte>>): seq<byte>
  {
    if pieces == [] then [] else pieces[0] + Joined(pieces[1..])
  }

  /** Pieces of any sizes, one file_write each; the first one is not empty unless the file has a block
      already.  All of them are written completely if and only if all bytes fit. */
  method WritePieces(v: Volume, fcb: Fcb, pieces: seq<seq<byte>>) returns (ok: bool)
    requires v.Valid() && FileOk(v, fcb.header) && AtTail(fcb.header, fcb) && |v.cache.pins| + 2 <= NBUFFERS
    requires pieces != [] ==> TailRoom(v, fcb, |Joined(pieces)|) && (pieces[0] != [] || fcb.header.nused > 0)
    modifies v.cache, v.cache.buffer, fcb, fcb.header
    ensures v.Valid() && v.cache.Kept(old(v.cache.pins)) && FileWrote(v, fcb.header) && RunKept(v, fcb.header)
    ensures ok ==> v.cache.pins == old(v.cache.pins) && FileOk(v, fcb.header) && AtTail(fcb.header, fcb)
    ensures ok ==> Content(v, fcb.header) == old(Content(v, fcb.header)) + Joined(pieces)
    ensures !ok && !fcb.header.contiguous ==> FileOk(v, fcb.header) && Full(v, v.cache.logical) && v.clfactor == 0
    ensures ok <==> pieces == [] || old(Fits(v, fcb, |Joined(pieces)|))
  {
    ghost var h, all := fcb.header, Joined(pieces);
    ghost var t := Transfer(Content(v, h), BlocksAfter(fcb.curblk, fcb.byteptr, |all|), v.cache.pins, v.cache.logical, h.slots, h.maps, HeaderExtent(v, h));
    TransferStarts(v, fcb, t, pieces != [], |all|);
    FitsIs(v, fcb, |all|);
    ok := PiecesLoop(v, fcb, pieces, t);
  }

  /** The loop. */
  method PiecesLoop(v: Volume, fcb: Fcb, pieces: seq<seq<byte>>, ghost t: Transfer) returns (ok: bool)
    requires v.Valid() && |v.cache.pins| + 2 <= NBUFFERS && v.cache.pins == t.held && Moved(v, fcb.header, t)
    requires Reached(v, fcb, t, [], pieces != [], |Joined(pieces)|) && (pieces != [] ==> pieces[0] != [] || fcb.header.nused > 0)
    modifies v.cache, v.cache.buffer, fcb, fcb.header
    ensures v.Valid() && v.cache.Kept(t.held) && RunKept(v, fcb.header) && Moved(v, fcb.header, t)
    ensures ok ==> v.cache.pins == t.held && FileOk(v, fcb.header) && AtTail(fcb.header, fcb) && Content(v, fcb.header) == t.content + Joined(pieces)
    ensures ok && pieces != [] ==>
      if fcb.header.contiguous then |t.content| + |Joined(pieces)| <= 512 * fcb.header.nalloc else Affordable(v, t.vol, t.x, t.n)
    ensures !ok ==> pieces != [] && Stuck(v, fcb, t, |Joined(pieces)|)
  {
    ok := true;
    var i := 0;
    PiecesStart(pieces);
    while ok && i < |pieces|
      invariant i <= |pieces| && v.Valid() && v.cache.Kept(old(v.cache.pins)) && RunKept(v, fcb.header) && Moved(v, fcb.header, t)
      invariant ok ==> v.cache.pins == t.held && Reached(v, fcb, t, Joined(pieces[..i]), pieces != [], |Joined(pieces[i..])|)
      invariant ok && i < |pieces| ==> (i == 0 && pieces[0] != []) || fcb.header.nused > 0
      invariant !ok ==> pieces != [] && Stuck(v, fcb, t, |Joined(pieces)|)
      decreases ok, |pieces| - i
    {
      ok := PieceTurn(v, fcb, pieces, i, t);
      i := i + 1;
    }
    if ok { PiecesEnd(v, fcb, t, pieces); }
  }

  lemma PiecesStart(pieces: seq<seq<byte>>)
    ensures Joined(pieces[..0]) == [] && pieces[0..] == pieces
  {
  }

  lemma PiecesEnd(v: Volume, fcb: Fcb, t: Transfer, pieces: seq<seq<byte>>)
    requires Reached(v, fcb, t, Joined(pieces[..|pieces|]), pieces != [], |Joined(pieces[|pieces|..])|)
    ensures Content(v, fcb.header) == t.content + Joined(pieces)
    ensures pieces != [] ==> if fcb.header.contiguous then |t.content| + |Joined(pieces)| <= 512 * fcb.header.nalloc else Affordable(v, t.vol, t.x, t.n)
  {
    assert pieces[..|pieces|] == pieces && pieces[|pieces|..] == [];
    ContentIsContent(v, fcb.header, t.content + Joined(pieces));
    if pieces != [] { TransferEnds(v, fcb, t, Joined(pieces)); }
  }

  /** One of the pieces. */
  method PieceTurn(v: Volume, fcb: Fcb, pieces: seq<seq<byte>>, i: nat, ghost t: Transfer) returns (ok: bool)
    requires v.Valid() && |v.cache.pins| + 2 <= NBUFFERS && v.cache.pins == t.held && i < |pieces| && Moved(v, fcb.header, t)
    requires Reached(v, fcb, t, Joined(pieces[..i]), true, |Joined(pieces[i..])|) && (pieces[i] != [] || fcb.header.nused > 0)
    modifies v.cache, v.cache.buffer, fcb, fcb.header
    ensures v.Valid() && v.cache.Kept(t.held) && RunKept(v, fcb.header) && Moved(v, fcb.header, t)
    ensures ok ==> v.cache.pins == t.held && Reached(v, fcb, t, Joined(pieces[..i + 1]), true, |Joined(pieces[i + 1..])|) && fcb.header.nused > 0
    ensures !ok ==> Stuck(v, fcb, t, |Joined(pieces)|)
  {
    JoinedNext(pieces, i);
    JoinedSplit(pieces, i);
    ok := AppendPart(v, fcb, pieces[i], t, Joined(pieces[..i]), |Joined(pieces[i + 1..])|);
  }

  lemma {:induction false} JoinedSplit(pieces: seq<seq<byte>>, i: nat)
    requires i <= |pieces|
    ensures |Joined(pieces[..i])| + |Joined(pieces[i..])| == |Joined(pieces)|
  {
    if i == 0 {
      PiecesStart(pieces);
    } else {
      JoinedSplit(pieces, i - 1);
      JoinedNext(pieces, i - 1);
    }
  }

  lemma JoinedNext(pieces: seq<seq<byte>>, i: nat)
    requires i < |pieces|
    ensures Joined(pieces[i..]) == pieces[i] + Joined(pieces[i + 1..])
    ensures Joined(pieces[..i + 1]) == Joined(pieces[..i]) + pieces[i]
  {
    assert pieces[i..][1..] == pieces[i + 1..];
    JoinedLast(pieces[..i + 1]);
    assert pieces[..i + 1][..i] == pieces[..i];
  }

  lemma {:induction false} JoinedLast(pieces: seq<seq<byte>>)
    requires pieces != []
    ensures Joined(pieces) == Joined(pieces[..|pieces| - 1]) + pieces[|pieces| - 1]
  {
    if |pieces| > 1 {
      JoinedLast(pieces[1..]);
      assert pieces[1..][..|pieces| - 2] == pieces[..|pieces| - 1][1..];
    }
  }

  /** A file that is not written keeps its state and its bytes. */
  lemma OtherStateKept(v: Volume, vol: Image, slots: seq<nat>, maps: seq<nat>, vol': Image, slots': seq<nat>, maps': seq<nat>,
                       contiguous: bool, nalloc: nat, nused: nat, bmap: seq<nat>, gslots: seq<nat>, gmaps: seq<nat>, size: nat, content: seq<byte>)
    requires Wrote(v, vol, slots, maps, vol', slots', maps') && |vol| == v.NBlocks()
    requires FileState(v, vol, contiguous, nalloc, nused, bmap, gslots, gmaps)
    requires Owned(v, gslots, gmaps) !! Owned(v, slots, maps)
    requires FirstBytes(v, vol, gslots, nused, size, content)
    ensures FileState(v, vol', contiguous, nalloc, nused, bmap, gslots, gmaps)
    ensures Owned(v, gslots, gmaps) !! Owned(v, slots', maps')
    ensures FirstBytes(v, vol', gslots, nused, size, content)
  {
    StateFacts(v, vol, contiguous, nalloc, nused, bmap, gslots, gmaps);
    OtherFileKept(v, vol, vol', slots, maps, slots', maps', bmap, gslots, gmaps, nused);
    assert FileKey(0);
    assert ContentKey(0);
    if !contiguous { assert ChainKey(0); }
  }

  /** file_read into a buffer of chunk bytes, kept behind what was read before. */
  method ReadMore(v: Volume, fcb: Fcb, chunk: nat, ghost host: seq<byte>, ghost p: nat, ghost content: seq<byte>) returns (part: seq<byte>)
    requires v.Valid() && FileOk(v, fcb.header) && PosOk(fcb) && |v.cache.pins| < NBUFFERS
    requires ContentIs(v, fcb.header, content) && p <= Pos(fcb) <= |content| && host == Slice(content, p, Pos(fcb))
    modifies v.cache, v.cache.buffer, fcb
    ensures v.Valid() && v.cache.Kept(old(v.cache.pins))
    ensures v.cache.logical == old(v.cache.logical) && v.cache.pins == old(v.cache.pins)
    ensures PosOk(fcb) && Pos(fcb) == old(Pos(fcb)) + |part| <= |content| && host + part == Slice(content, p, Pos(fcb))
    ensures |part| == if old(Pos(fcb)) + chunk < |content| then chunk else |content| - old(Pos(fcb))
  {
    ContentIsContent(v, fcb.header, content);
    part := FileRead(v, fcb, chunk);
    SliceJoin(content, p, Pos(fcb) - |part|, Pos(fcb));
  }

  /** cmd_export: read in pieces of at most chunk bytes until the end of the file. */
  method Export(v: Volume, fcb: Fcb, chunk: nat) returns (host: seq<byte>)
    requires v.Valid() && FileOk(v, fcb.header) && PosOk(fcb) && |v.cache.pins| < NBUFFERS && chunk > 0
    requires Pos(fcb) <= SizeOf(fcb.header)
    modifies v.cache, v.cache.buffer, fcb
    ensures v.Valid() && v.cache.Kept(old(v.cache.pins))
    ensures v.cache.logical == old(v.cache.logical) && v.cache.pins == old(v.cache.pins)
    ensures host == Content(v, fcb.header)[old(Pos(fcb))..]
    ensures PosOk(fcb) && Pos(fcb) == SizeOf(fcb.header)
  {
    ghost var content, p := Content(v, fcb.header), Pos(fcb);
    ContentIsContent(v, fcb.header, content);
    host := [];
    var part := ReadMore(v, fcb, chunk, host, p, content);
    while part != []
      invariant v.Valid() && v.cache.Kept(old(v.cache.pins))
      invariant v.cache.logical == old(v.cache.logical) && v.cache.pins == old(v.cache.pins)
      invariant PosOk(fcb) && p <= Pos(fcb) <= |content| && host + part == Slice(content, p, Pos(fcb))
      invariant part == [] ==> Pos(fcb) == |content|
      decreases |content| - Pos(fcb), |part|
    {
      host := host + part;
      part := ReadMore(v, fcb, chunk, host, p, content);
    }
    assert host + [] == host;
    SliceIs(content, p, |content|);
  }

  /** The two files of a copy. */
  ghost predicate Apart(v: Volume, src: Fcb, dst: Fcb)
    reads src.header, dst.header
  {
    src.header != dst.header && Owned(v, src.header.slots, src.header.maps) !! Owned(v, dst.header.slots, dst.header.maps)
  }

  /** The source of a copy is in order, with these bytes. */
  ghost predicate Readable(v: Volume, src: Fcb, from: seq<byte>)
    reads src, src.header, v.cache
  {
    FileOk(v, src.header) && PosOk(src) && ContentIs(v, src.header, from) && Pos(src) <= |from|
  }

  /** Append what was read from another file, which stays as it is. */
  method CopyPart(v: Volume, src: Fcb, dst: Fcb, part: seq<byte>, ghost from: seq<byte>, ghost t: Transfer, ghost done: seq<byte>, ghost rest: nat) returns (ok: bool)
    requires v.Valid() && |v.cache.pins| + 2 <= NBUFFERS && v.cache.pins == t.held && |part| > 0 && src != dst
    requires Readable(v, src, from) && Apart(v, src, dst) && Reached(v, dst, t, done, true, |part| + rest) && Moved(v, dst.header, t)
    modifies v.cache, v.cache.buffer, dst, dst.header
    ensures v.Valid() && v.cache.Kept(t.held) && RunKept(v, dst.header) && Moved(v, dst.header, t)
    ensures Readable(v, src, from) && Apart(v, src, dst)
    ensures ok ==> v.cache.pins == t.held && Reached(v, dst, t, done + part, true, rest)
    ensures !ok ==> Stuck(v, dst, t, |done| + |part|)
  {
    var g := src.header;
    ghost var vol, slots, maps := v.cache.logical, dst.header.slots, dst.header.maps;
    ok := AppendPart(v, dst, part, t, done, rest);
    OtherStateKept(v, vol, slots, maps, v.cache.logical, dst.header.slots, dst.header.maps,
                   g.contiguous, g.nalloc, g.nused, g.bmap, g.slots, g.maps, SizeOf(g), from);
  }

  lemma {:induction false} CopiedPart(from: seq<byte>, p: nat, q: nat, done: seq<byte>, part: seq<byte>)
    requires p <= q <= |from| && done + part == Slice(from, p, q)
    ensures |done| + |part| == q - p
  {
    SliceIs(from, p, q);
    assert |done + part| == q - p;
  }

  /** One turn of the copy loop: write what was read, and read on. */
  method CopyTurn(v: Volume, src: Fcb, dst: Fcb, part: seq<byte>, ghost p: nat, ghost done: seq<byte>, ghost from: seq<byte>, ghost t: Transfer)
    returns (ok: bool, part': seq<byte>, ghost done': seq<byte>)
    requires v.Valid() && |v.cache.pins| + 2 <= NBUFFERS && v.cache.pins == t.held && |part| > 0 && src != dst
    requires Readable(v, src, from) && Apart(v, src, dst) && p <= Pos(src) && done + part == Slice(from, p, Pos(src))
    requires Reached(v, dst, t, done, true, |part| + |from| - Pos(src)) && Moved(v, dst.header, t)
    modifies v.cache, v.cache.buffer, src, dst, dst.header
    ensures v.Valid() && v.cache.Kept(t.held) && RunKept(v, dst.header) && Moved(v, dst.header, t)
    ensures Readable(v, src, from) && Apart(v, src, dst) && old(Pos(src)) <= Pos(src) && done' + part' == Slice(from, p, Pos(src))
    ensures ok ==> v.cache.pins == t.held && Reached(v, dst, t, done', true, |part'| + |from| - Pos(src))
    ensures ok ==> if part' == [] then Pos(src) == |from| else Pos(src) > old(Pos(src))
    ensures !ok ==> Stuck(v, dst, t, |from| - p)
  {
    CopiedPart(from, p, Pos(src), done, part);
    ok := CopyPart(v, src, dst, part, from, t, done, |from| - Pos(src));
    part', done' := part, done;
    if ok {
      done' := done + part;
      part' := ReadMore(v, src, 512, done', p, from);
    }
  }

  /** The copy loop of cmd_copy, from the current position of the source.  A contiguous target takes
      everything if and only if it fits into its blocks, any other one if and only if the clusters
      for it are free. */
  method Copy(v: Volume, src: Fcb, dst: Fcb) returns (ok: bool)
    requires v.Valid() && |v.cache.pins| + 2 <= NBUFFERS && src != dst
    requires FileOk(v, src.header) && PosOk(src) && Pos(src) <= SizeOf(src.header)
    requires FileOk(v, dst.header) && AtTail(dst.header, dst) && Apart(v, src, dst)
    requires Pos(src) == SizeOf(src.header) || TailRoom(v, dst, SizeOf(src.header) - Pos(src))
    modifies v.cache, v.cache.buffer, src, dst, dst.header
    ensures v.Valid() && v.cache.Kept(old(v.cache.pins)) && FileWrote(v, dst.header)
    ensures FileOk(v, src.header) && Content(v, src.header) == old(Content(v, src.header)) && Apart(v, src, dst)
    ensures ok ==> v.cache.pins == old(v.cache.pins) && FileOk(v, dst.header) && AtTail(dst.header, dst)
    ensures ok ==> Content(v, dst.header) == old(Content(v, dst.header)) + old(Content(v, src.header))[old(Pos(src))..]
    ensures !ok && !dst.header.contiguous ==> FileOk(v, dst.header) && Full(v, v.cache.logical) && v.clfactor == 0
    ensures ok <==> old(Pos(src)) == SizeOf(src.header) || old(Fits(v, dst, SizeOf(src.header) - Pos(src)))
  {
    ghost var from, h, p := Content(v, src.header), dst.header, Pos(src);
    ghost var t := Transfer(Content(v, h), BlocksAfter(dst.curblk, dst.byteptr, SizeOf(src.header) - p), v.cache.pins, v.cache.logical, h.slots, h.maps, HeaderExtent(v, h));
    ContentIsContent(v, src.header, from);
    TransferStarts(v, dst, t, p < |from|, |from| - p);
    FitsIs(v, dst, |from| - p);
    ok := CopyLoop(v, src, dst, from, p, t);
    ContentIsContent(v, src.header, from);
  }

  /** The loop. */
  method CopyLoop(v: Volume, src: Fcb, dst: Fcb, ghost from: seq<byte>, ghost p: nat, ghost t: Transfer) returns (ok: bool)
    requires v.Valid() && |v.cache.pins| + 2 <= NBUFFERS && v.cache.pins == t.held && src != dst && Readable(v, src, from) && Apart(v, src, dst) && p == Pos(src)
    requires Reached(v, dst, t, [], p < |from|, |from| - p) && Moved(v, dst.header, t)
    modifies v.cache, v.cache.buffer, src, dst, dst.header
    ensures v.Valid() && v.cache.Kept(t.held) && RunKept(v, dst.header) && Moved(v, dst.header, t)
    ensures Readable(v, src, from) && Apart(v, src, dst)
    ensures ok ==> v.cache.pins == t.held && FileOk(v, dst.header) && AtTail(dst.header, dst) && Content(v, dst.header) == t.content + from[p..]
    ensures ok && p < |from| ==>
      if dst.header.contiguous then |t.content| + |from| - p <= 512 * dst.header.nalloc else Affordable(v, t.vol, t.x, t.n)
    ensures !ok ==> p < |from| && Stuck(v, dst, t, |from| - p)
  {
    ghost var done := [];
    var part := ReadMore(v, src, 512, done, p, from);
    ok := true;
    while ok && part != []
      invariant v.Valid() && v.cache.Kept(old(v.cache.pins)) && RunKept(v, dst.header) && Moved(v, dst.header, t)
      invariant Readable(v, src, from) && Apart(v, src, dst) && p <= Pos(src) && done + part == Slice(from, p, Pos(src))
      invariant ok ==> v.cache.pins == t.held && Reached(v, dst, t, done, p < |from|, |part| + |from| - Pos(src))
      invariant ok && part == [] ==> Pos(src) == |from|
      invariant !ok ==> p < |from| && Stuck(v, dst, t, |from| - p)
      decreases ok, |from| - Pos(src), |part|
    {
      ok, part, done := CopyTurn(v, src, dst, part, p, done, from, t);
    }
    if ok { CopiedAll(v, dst, t, from, p, done); }
  }

  lemma {:induction false} CopiedAll(v: Volume, dst: Fcb, t: Transfer, from: seq<byte>, p: nat, done: seq<byte>)
    requires p <= |from| && done + [] == Slice(from, p, |from|) && Reached(v, dst, t, done, p < |from|, 0)
    ensures Content(v, dst.header) == t.content + from[p..]
    ensures p < |from| ==> if dst.header.contiguous then |t.content| + |from| - p <= 512 * dst.header.nalloc else Affordable(v, t.vol, t.x, t.n)
  {
    assert done + [] == done;
    SliceIs(from, p, |from|);
    ContentIsContent(v, dst.header, t.content + done);
    if p < |from| { TransferEnds(v, dst, t, done); }
  }

  // ---------------------------------------------------------------
  // There and back
  // ---------------------------------------------------------------

  function Sum(lens: seq<nat>): nat
  {
    if lens == [] then 0 else Sum(lens[..|lens| - 1]) + lens[|lens| - 1]
  }

  lemma SumNext(lens: seq<nat>, i: nat)
    requires i < |lens|
    ensures Sum(lens[..i + 1]) == Sum(lens[..i]) + lens[i]
  {
    assert lens[..i + 1][..i] == lens[..i];
  }

  /** Reads of any sizes, one file_read each: together they yield the bytes from the position on, as
      far as they go. */
  method ReadPieces(v: Volume, fcb: Fcb, lens: seq<nat>) returns (host: seq<byte>)
    requires v.Valid() && FileOk(v, fcb.header) && PosOk(fcb) && |v.cache.pins| < NBUFFERS && Pos(fcb) <= SizeOf(fcb.header)
    modifies v.cache, v.cache.buffer, fcb
    ensures v.Valid() && v.cache.Kept(old(v.cache.pins))
    ensures v.cache.logical == old(v.cache.logical) && v.cache.pins == old(v.cache.pins)
    ensures var content, p, q := Content(v, fcb.header), old(Pos(fcb)), old(Pos(fcb)) + Sum(lens);
      host == content[p..if q < |content| then q else |content|]
  {
    ghost var content, p := Content(v, fcb.header), Pos(fcb);
    ContentIsContent(v, fcb.header, content);
    host := [];
    var i := 0;
    while i < |lens|
      invariant i <= |lens| && v.Valid() && v.cache.Kept(old(v.cache.pins))
      invariant v.cache.logical == old(v.cache.logical) && v.cache.pins == old(v.cache.pins)
      invariant PosOk(fcb) && Pos(fcb) == (if p + Sum(lens[..i]) < |content| then p + Sum(lens[..i]) else |content|) >= p
      invariant host == Slice(content, p, Pos(fcb))
    {
      var part := ReadMore(v, fcb, lens[i], host, p, content);
      host := host + part;
      SumNext(lens, i);
      i := i + 1;
    }
    assert lens[..|lens|] == lens;
    SliceIs(content, p, Pos(fcb));
  }

  /** The stream round trip: what is written to a new file in pieces of any sizes comes back, from
      position 0 on, in reads of any sizes, across direct pointers and map blocks. */
  method WriteThenRead(v: Volume, fcb: Fcb, pieces: seq<seq<byte>>, lens: seq<nat>) returns (ok: bool, back: seq<byte>)
    requires v.Valid() && FileOk(v, fcb.header) && AtTail(fcb.header, fcb) && |v.cache.pins| + 2 <= NBUFFERS
    requires fcb.header.nused == 0 && (pieces != [] ==> pieces[0] != [] && TailRoom(v, fcb, |Joined(pieces)|))
    modifies v.cache, v.cache.buffer, fcb, fcb.header
    ensures v.Valid() && v.cache.Kept(old(v.cache.pins)) && FileWrote(v, fcb.header)
    ensures ok <==> pieces == [] || old(Fits(v, fcb, |Joined(pieces)|))
    ensures ok ==> SizeOf(fcb.header) == |Joined(pieces)|
    ensures ok ==> back == if Sum(lens) < |Joined(pieces)| then Joined(pieces)[..Sum(lens)] else Joined(pieces)
    ensures !ok && !fcb.header.contiguous ==> Full(v, v.cache.logical) && v.clfactor == 0
  {
    ghost var all := Joined(pieces);
    ok := WritePieces(v, fcb, pieces);
    back := [];
    if ok {
      assert Content(v, fcb.header) == all;
      ContentIsContent(v, fcb.header, all);
      assert v.cache.Kept(old(v.cache.pins));
      var err := FileSeek(v, fcb, 0);
      back := ReadPieces(v, fcb, lens);
    }
  }

  /** The same for the loops of import and export. */
  method ImportThenExport(v: Volume, fcb: Fcb, host: seq<byte>, wchunk: nat, rchunk: nat) returns (ok: bool, back: seq<byte>)
    requires v.Valid() && FileOk(v, fcb.header) && AtTail(fcb.header, fcb) && |v.cache.pins| + 2 <= NBUFFERS
    requires fcb.header.nused == 0 && wchunk > 0 && rchunk > 0 && (host == [] || TailRoom(v, fcb, |host|))
    modifies v.cache, v.cache.buffer, fcb, fcb.header
    ensures v.Valid() && v.cache.Kept(old(v.cache.pins)) && FileWrote(v, fcb.header)
    ensures ok ==> back == host && SizeOf(fcb.header) == |host|
    ensures ok <==> host == [] || old(Fits(v, fcb, |host|))
  {
    ok := Import(v, fcb, host, wchunk);
    back := [];
    if ok {
      assert v.cache.Kept(old(v.cache.pins));
      var err := FileSeek(v, fcb, 0);
      back := Export(v, fcb, rchunk);
    }
  }
}
