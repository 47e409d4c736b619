/** What file_write means for the bytes of a file. */
module StreamLaws {
  import opened Bytes
  import opened BufferCache
  import opened Volumes
  import opened FileContent
  import opened FileExtension
  import opened StreamIo
  import opened StreamWrite

  function ByteSize(nused: nat, lbcount: nat): nat
  {
    if nused == 0 then 0 else 512 * (nused - 1) + lbcount
  }

  function Max(a: nat, b: nat): nat
  {
    if a < b then b else a
  }

  /** When the size bookkeeping of a write of len bytes at byte b of block c is right, for a
      file of nused blocks with lbcount bytes in the last one.  Inside the file: the data stays
      within one block, or reaches the end of the file, or the last block is empty.  On the
      block after the last one: the data crosses into a further block, or is not shorter than
      the old last block's byte count, which the new last block inherits. */
  predicate KeepsSize(nused: nat, lbcount: nat, c: nat, b: nat, len: nat)
  {
    if c < nused then
      b + len <= 512 || 512 * c + b + len >= ByteSize(nused, lbcount) || lbcount == 0
    else
      b + len > 512 || lbcount <= len
  }

  /** A complete write ended at byte b' of block c'. */
  predicate WriteEnded(nused: nat, lbcount: nat, c: nat, b: nat, len: nat, nused': nat, lbcount': nat, c': nat, b': nat)
  {
    && 512 * c' + b' == 512 * c + b + len && b' <= 512
    && (if b + len <= 512 then c' == c else c' > c && b' > 0)
    && c' < nused' && nused' == (if c' < nused then nused else c' + 1)
    && lbcount' == LastCount(lbcount, b, len, nused', c', b')
  }

  /** The size after a complete write is that of the file with the data in place, if and only
      if one of the conditions above holds.  Otherwise the file loses its tail, or gains bytes
      that nobody wrote. */
  lemma SizeAfterWrite(nused: nat, lbcount: nat, c: nat, b: nat, len: nat, nused': nat, lbcount': nat, c': nat, b': nat)
    requires lbcount <= 512 && c <= nused && b <= 512 && (c == nused ==> b == 0)
    requires WriteEnded(nused, lbcount, c, b, len, nused', lbcount', c', b')
    ensures ByteSize(nused', lbcount') == Max(ByteSize(nused, lbcount), 512 * c + b + len) <==> KeepsSize(nused, lbcount, c, b, len)
  {
    var crossed := b + len > 512;
    var base := if crossed then 0 else lbcount;
    if c' + 1 < nused' {
      assert nused' == nused && lbcount' == base;
      assert 512 * c' + b' <= 512 * (nused - 1);
    } else {
      assert lbcount' == if b' > base then b' else base;
    }
  }

  /** A file of three blocks with ten bytes in the last one: a write of 600 bytes at the start
      crosses a block boundary and truncates the file by those ten bytes. */
  lemma OverwriteLosesTail()
    ensures !KeepsSize(3, 10, 0, 0, 600)
    ensures WriteEnded(3, 10, 0, 0, 600, 3, 0, 1, 88) && ByteSize(3, 0) == ByteSize(3, 10) - 10
  {
  }

  /** A file of one full block, read to its end: ten appended bytes make it 502 bytes too long. */
  lemma AppendGainsGarbage()
    ensures !KeepsSize(1, 512, 1, 0, 10)
    ensures WriteEnded(1, 512, 1, 0, 10, 2, 512, 1, 10) && ByteSize(2, 512) == ByteSize(1, 512) + 10 + 502
  {
  }

  /** d in place of, or after, the bytes of c from position p on. */
  function Overwritten(c: seq<byte>, p: nat, d: seq<byte>): (r: seq<byte>)
    requires p <= |c|
    ensures |r| == Max(|c|, p + |d|)
  {
    if p + |d| <= |c| then Patch(c, p, d) else c[..p] + d
  }

  /** With the right size, the file's bytes are the old ones with the data in place. */
  lemma ContentAfterWrite(f: seq<byte>, p: nat, d: seq<byte>, g: seq<byte>, size: nat, size': nat)
    requires Written(f, p, d, g) && p <= size <= |f| && size' <= |g|
    requires size' == Max(size, p + |d|)
    ensures g[..size'] == Overwritten(f[..size], p, d)
  {
    assert WrittenKey(0);
    var c, r := f[..size], g[..size'];
    forall i: nat | i < size' ensures r[i] == Overwritten(c, p, d)[i] {
      if i < p {
        assert g[i] == g[..p][i] == f[..p][i];
      } else if i < p + |d| {
        assert g[i] == g[p..p + |d|][i - p];
      } else {
        assert i < size <= |f|;
        assert g[i] == g[p + |d|..|f|][i - p - |d|] == f[p + |d|..][i - p - |d|] == f[i];
      }
    }
  }

  /** The bytes of a file of that many blocks, and a position inside it or at its end. */
  predicate Bounded(f: seq<byte>, content: seq<byte>, nused: nat, lbcount: nat, c: nat, b: nat, p: nat)
  {
    && lbcount <= 512 && c <= nused && b <= 512 && (c == nused ==> b == 0) && p == 512 * c + b <= ByteSize(nused, lbcount)
    && IsContent(f, content, nused, lbcount)
  }

  predicate IsContent(f: seq<byte>, content: seq<byte>, nused: nat, lbcount: nat)
  {
    lbcount <= 512 && ByteSize(nused, lbcount) <= |f| && content == f[..ByteSize(nused, lbcount)]
  }

  lemma FileContentIs(v: Volume, h: FcbHeader)
    requires FileOk(v, h)
    ensures IsContent(Blocks(v, h), Content(v, h), h.nused, h.lbcount)
  {
  }

  lemma PositionBounded(v: Volume, fcb: Fcb)
    requires FileOk(v, fcb.header) && PosOk(fcb) && Pos(fcb) <= SizeOf(fcb.header)
    ensures Bounded(Blocks(v, fcb.header), Content(v, fcb.header), fcb.header.nused, fcb.header.lbcount, fcb.curblk, fcb.byteptr, Pos(fcb))
  {
  }

  /** A complete write yields the old bytes with the data in place if and only if the size bookkeeping
      is right. */
  lemma ContentIff(f: seq<byte>, content: seq<byte>, d: seq<byte>, g: seq<byte>, content': seq<byte>, nused: nat, lbcount: nat, c: nat, b: nat, p: nat, nused': nat, lbcount': nat, c': nat, b': nat)
    requires Bounded(f, content, nused, lbcount, c, b, p) && IsContent(g, content', nused', lbcount')
    requires WriteEnded(nused, lbcount, c, b, |d|, nused', lbcount', c', b') && Written(f, p, d, g)
    ensures p <= |content| && (content' == Overwritten(content, p, d) <==> KeepsSize(nused, lbcount, c, b, |d|))
  {
    SizeAfterWrite(nused, lbcount, c, b, |d|, nused', lbcount', c', b');
    if KeepsSize(nused, lbcount, c, b, |d|) {
      ContentAfterWrite(f, p, d, g, ByteSize(nused, lbcount), ByteSize(nused', lbcount'));
    }
  }

  /** What a call says of the bytes, when all of the data has been written. */
  method WriteAll(v: Volume, fcb: Fcb, data: seq<byte>) returns (nwritten: nat)
    requires v.Valid() && FileOk(v, fcb.header) && PosOk(fcb) && |v.cache.pins| + 2 <= NBUFFERS && data != []
    requires RoomFor(v, fcb.header, BlocksAfter(fcb.curblk, fcb.byteptr, |data|))
    modifies v.cache, v.cache.buffer, fcb, fcb.header
    ensures v.Valid() && v.cache.Kept(old(v.cache.pins)) && FileWrote(v, fcb.header)
    ensures nwritten <= |data| && Settled(v, fcb.header, old(BlocksAfter(fcb.curblk, fcb.byteptr, |data|)), nwritten < |data|)
    ensures nwritten == |data| ==> FileOk(v, fcb.header) && PosOk(fcb) && Pos(fcb) == old(Pos(fcb)) + |data|
    ensures nwritten == |data| ==>
      && WriteEnded(old(fcb.header.nused), old(fcb.header.lbcount), old(fcb.curblk), old(fcb.byteptr), |data|, fcb.header.nused, fcb.header.lbcount, fcb.curblk, fcb.byteptr)
      && Written(old(Blocks(v, fcb.header)), old(Pos(fcb)), data, Blocks(v, fcb.header))
  {
    ghost var failed;
    nwritten, failed := FileWrite(v, fcb, data);
    assert data[..|data|] == data;
  }

  /** file_write at a position inside the file or at its end: when all of the data has been written, the
      file has its old bytes with the data in place of, or after, those from the position on, if and
      only if KeepsSize holds. */
  method WriteInside(v: Volume, fcb: Fcb, data: seq<byte>) returns (nwritten: nat)
    requires v.Valid() && FileOk(v, fcb.header) && PosOk(fcb) && |v.cache.pins| + 2 <= NBUFFERS && Pos(fcb) <= SizeOf(fcb.header) && data != []
    requires RoomFor(v, fcb.header, BlocksAfter(fcb.curblk, fcb.byteptr, |data|))
    modifies v.cache, v.cache.buffer, fcb, fcb.header
    ensures v.Valid() && v.cache.Kept(old(v.cache.pins)) && FileWrote(v, fcb.header)
    ensures nwritten <= |data| && Settled(v, fcb.header, old(BlocksAfter(fcb.curblk, fcb.byteptr, |data|)), nwritten < |data|)
    ensures nwritten == |data| ==> FileOk(v, fcb.header) && PosOk(fcb) && Pos(fcb) == old(Pos(fcb)) + |data|
    ensures nwritten == |data| ==>
      (Content(v, fcb.header) == Overwritten(old(Content(v, fcb.header)), old(Pos(fcb)), data)
       <==> old(KeepsSize(fcb.header.nused, fcb.header.lbcount, fcb.curblk, fcb.byteptr, |data|)))
  {
    PositionBounded(v, fcb);
    ghost var h, c, b, p := fcb.header, fcb.curblk, fcb.byteptr, Pos(fcb);
    ghost var f, content, nused, lbcount := Blocks(v, h), Content(v, h), h.nused, h.lbcount;
    nwritten := WriteAll(v, fcb, data);
    if nwritten == |data| {
      FileContentIs(v, h);
      ContentIff(f, content, data, Blocks(v, h), Content(v, h), nused, lbcount, c, b, p, h.nused, h.lbcount, fcb.curblk, fcb.byteptr);
    }
  }
}
