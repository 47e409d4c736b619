/** Writing the two bitmaps of a new volume: the loops of create_disk of mkdisk.c. */
module FormatBits {
  import opened Bytes
  import opened Volumes

  ghost predicate FillKey(k: int)
  {
    true
  }

  /** From byte j0 on, the first "count" bits of a block are set and the others clear. */
  ghost predicate Filled(b: seq<byte>, j0: nat, count: nat)
  {
    && |b| == 512
    && forall key {:trigger FillKey(key)} :: Folded(key) ==>
    forall p: nat, k: nat :: j0 <= p < 512 && k < 8 ==> (BitOf(b[p], k) <==> 8 * (p - j0) + k < count)
  }

  lemma {:induction false} ZeroBits(k: nat)
    requires k < 8
    ensures !BitOf(0, k)
  {
    DigitOfZero(7 - k);
  }

  lemma {:induction false} FilledNothing(b: seq<byte>, j0: nat)
    requires |b| == 512 && forall p: nat :: j0 <= p < 512 ==> b[p] == 0
    ensures Filled(b, j0, 0)
  {
    forall p: nat, k: nat | j0 <= p < 512 && k < 8 ensures !BitOf(b[p], k) {
      ZeroBits(k);
    }
  }

  /** The accumulated byte: its first m bits are set. */
  ghost predicate TopBits(b: byte, m: nat)
  {
    forall k: nat :: k < 8 ==> (BitOf(b, k) <==> k < m)
  }

  lemma NoTopBits()
    ensures TopBits(0, 0)
  {
    forall k: nat | k < 8 ensures !BitOf(0, k) {
      ZeroBits(k);
    }
  }

  lemma OneMoreTopBit(b: byte, m: nat)
    requires TopBits(b, m) && m < 8
    ensures Or(b, Mask(m)) < 256 && TopBits(Or(b, Mask(m)), m + 1)
  {
    MaskBits(b, m);
  }

  /** The byte that the bits end in is stored. */
  lemma ByteStored(b: seq<byte>, j0: nat, j: nat, m: nat, top: byte)
    requires j0 <= j < 512 && m <= 8 && Filled(b, j0, 8 * (j - j0)) && TopBits(top, m)
    ensures Filled(b[j := top], j0, 8 * (j - j0) + m)
  {
    assert FillKey(0);
    var r := b[j := top];
    forall p: nat, k: nat | j0 <= p < 512 && k < 8 ensures BitOf(r[p], k) <==> 8 * (p - j0) + k < 8 * (j - j0) + m {
      assert p != j ==> BitOf(r[p], k) == BitOf(b[p], k);
    }
  }

  function Min(a: nat, b: nat): nat
  {
    if a < b then a else b
  }

  /** Set up to n0 bits from byte j0 on.  The byte in which the bits end is stored behind the
      loop; when the block is full, that store would go to the byte behind the block, which is
      reported here instead of done. */
  method FillBlock(block: array<byte>, j0: nat, n0: nat) returns (n: nat, overrun: bool)
    requires block.Length == 512 && j0 < 512 && forall p: nat :: j0 <= p < 512 ==> block[p] == 0
    modifies block
    ensures forall p: nat :: p < j0 ==> block[p] == old(block[p])
    ensures n == n0 - Min(n0, 8 * (512 - j0)) && Filled(block[..], j0, Min(n0, 8 * (512 - j0)))
    ensures overrun <==> n0 >= 8 * (512 - j0)
  {
    var j, mask, bmask := j0, 0x80, 0;
    ghost var m: nat := 0;
    n := n0;
    FilledNothing(block[..], j0);
    NoTopBits();
    while j < 512 && n > 0
      invariant j0 <= j <= 512 && m < 8 && mask == Mask(m) && n + 8 * (j - j0) + m == n0 && (j == 512 ==> m == 0)
      invariant 0 <= bmask < 256 && TopBits(bmask, m)
      invariant Filled(block[..], j0, 8 * (j - j0))
      invariant forall p: nat :: p < j0 ==> block[p] == old(block[p])
    {
      OneMoreTopBit(bmask, m);
      bmask := Or(bmask, mask);
      mask, m := mask / 2, m + 1;
      if mask == 0 {
        ByteStored(block[..], j0, j, 8, bmask);
        ghost var b := block[..];
        block[j] := bmask;
        assert block[..] == b[j := bmask];
        NoTopBits();
        j, bmask, mask, m := j + 1, 0, 0x80, 0;
      }
      n := n - 1;
    }
    overrun := j == 512;
    if !overrun {
      ByteStored(block[..], j0, j, m, bmask);
      ghost var b := block[..];
      block[j] := bmask;
      assert block[..] == b[j := bmask];
    }
  }

  // ---------------------------------------------------------------
  // A section: header and bits, over several blocks
  // ---------------------------------------------------------------

  /** Block i of a section with n bits set. */
  ghost predicate SectionBlock(b: Block, header: seq<byte>, i: nat, n: nat)
    requires |header| == BMHDRSZ
  {
    && (i == 0 ==> b[..BMHDRSZ] == header)
    && forall key {:trigger FillKey(key)} :: Folded(key) ==>
    forall p: nat, k: nat :: (if i == 0 then BMHDRSZ else 0) <= p < 512 && k < 8 ==>
      (BitOf(b[p], k) <==> 4096 * i + 8 * p + k < n + 128)
  }

  /** Bits still to be set before block i. */
  function Remaining(n: nat, i: nat): nat
  {
    if i == 0 then n else if n + 128 > 4096 * i then n + 128 - 4096 * i else 0
  }

  /** One block of a section. */
  method SectionStep(header: seq<byte>, i: nat, n: nat, ghost n0: nat) returns (b: Block, n': nat, overrun: bool)
    requires |header| == BMHDRSZ && n == Remaining(n0, i)
    ensures SectionBlock(b, header, i, n0) && n' == Remaining(n0, i + 1)
    ensures overrun <==> n0 + 128 >= 4096 * (i + 1) && n > 0
  {
    var block := new byte[512](_ => 0);
    var j := 0;
    if i == 0 {
      forall o | 0 <= o < 16 { block[o] := header[o]; }
      j := 16;
    }
    FilledNothing(block[..], j);
    n', overrun := n, false;
    if n > 0 { n', overrun := FillBlock(block, j, n); }
    b := block[..];
    assert FillKey(0);
    assert i == 0 ==> b[..BMHDRSZ] == header;
  }

  /** A whole section of nb blocks. */
  method EmitSection(header: seq<byte>, n: nat, nb: nat) returns (blocks: seq<Block>, overrun: bool)
    requires |header| == BMHDRSZ
    ensures |blocks| == nb && forall i: nat :: i < nb ==> SectionBlock(blocks[i], header, i, n)
    ensures overrun <==> nb > 0 && n >= 3968
  {
    blocks, overrun := [], false;
    var i, rest := 0, n;
    while i < nb
      invariant i <= nb && |blocks| == i && rest == Remaining(n, i)
      invariant forall k: nat :: k < i ==> SectionBlock(blocks[k], header, k, n)
      invariant overrun <==> i > 0 && n >= 3968
    {
      var b, over;
      b, rest, over := SectionStep(header, i, rest, n);
      blocks, overrun := blocks + [b], overrun || over;
      i := i + 1;
    }
  }

  /** The bits of a section on the volume. */
  lemma {:induction false} SectionBits(vol: Image, bm: nat, header: seq<byte>, n: nat, nb: nat, c: nat)
    requires |header| == BMHDRSZ && bm + nb <= |vol| && BitBlock(c) < nb
    requires forall b: nat :: bm <= b < bm + nb ==> SectionBlock(vol[b], header, b - bm, n)
    ensures Bit(vol, bm, c) <==> c < n
  {
    CursorClosedForm(c);
    assert SectionBlock(vol[bm + BitBlock(c)], header, BitBlock(c), n);
    assert FillKey(0);
    assert 4096 * BitBlock(c) + 8 * BitOffset(c) + BitPos(c) == c + 128;
  }
}
