/** Where add_partition and alloc_sub_partition of vmr.c put a partition. */
module PartitionPlan {

  /** Base and size in pages of 4K. */
  datatype Part = Part(base: nat, size: nat)
  {
    function End(): nat { base + size }
  }

  datatype Place = Nowhere | At(index: nat, part: Part)

  const KERNEL_END: nat := 16
  const TOP: nat := 256

  /** Sorted by base and disjoint. */
  predicate Sorted(parts: seq<Part>)
  {
    forall i: nat, j: nat :: i < j < |parts| ==> parts[i].End() <= parts[j].base
  }

  predicate Within(parts: seq<Part>, top: nat)
  {
    forall i: nat :: i < |parts| ==> parts[i].size > 0 && parts[i].End() <= top
  }

  predicate Disjoint(a: Part, b: Part)
  {
    a.End() <= b.base || b.End() <= a.base
  }

  predicate Free(parts: seq<Part>, a: Part)
  {
    forall i: nat :: i < |parts| ==> Disjoint(parts[i], a)
  }

  function Insert(parts: seq<Part>, i: nat, a: Part): (r: seq<Part>)
    requires i <= |parts|
    ensures |r| == |parts| + 1 && r[i] == a && (forall j: nat :: j < i ==> r[j] == parts[j]) && forall j: nat :: i < j < |r| ==> r[j] == parts[j - 1]
  {
    parts[..i] + [a] + parts[i..]
  }

  // ---------------------------------------------------------------
  // Main partitions
  // ---------------------------------------------------------------

  /** The loop of add_partition from partition i on; wb and ws stand for wildcards.  Sums and
      differences are kept in 16 bits. */
  function Search(parts: seq<Part>, i: nat, base: nat, size: nat, wb: bool, ws: bool): Place
    requires i <= |parts|
    decreases |parts| - i
  {
    if i == |parts| then
      At(i, Part(base, if ws then (TOP - base) % 0x1_0000 else size))
    else
      var q := parts[i];
      if wb then
        if q.base > base && (ws || q.base - base >= size) then At(i, Part(base, if ws then q.base - base else size))
        else if q.End() % 0x1_0000 >= TOP then Nowhere
        else Search(parts, i + 1, q.End() % 0x1_0000, size, wb, ws)
      else
        if q.base > base then
          if ws then At(i, Part(base, q.base - base)) else if q.base - base >= size then At(i, Part(base, size)) else Nowhere
        else if q.End() > base then Nowhere
        else Search(parts, i + 1, base, size, wb, ws)
  }

  /** add_partition's choice. */
  function PlaceMain(parts: seq<Part>, base: nat, size: nat, wb: bool, ws: bool): Place
  {
    Search(parts, 0, if wb then KERNEL_END else base, size, wb, ws)
  }

  /** All partitions before i end at or before base. */
  predicate Behind(parts: seq<Part>, i: nat, base: nat)
    requires i <= |parts|
  {
    forall j: nat :: j < i ==> parts[j].End() <= base
  }

  lemma SortedWith(parts: seq<Part>, i: nat, a: Part)
    requires i <= |parts| && Sorted(parts) && Behind(parts, i, a.base) && (i < |parts| ==> a.End() <= parts[i].base)
    ensures Sorted(Insert(parts, i, a))
  {
    assert i < |parts| ==> forall j: nat :: i < j < |parts| ==> parts[i].base <= parts[j].base;
  }

  lemma BehindNext(parts: seq<Part>, i: nat)
    requires i < |parts| && Sorted(parts)
    ensures Behind(parts, i + 1, parts[i].End())
  {
    assert forall j: nat :: j < i ==> parts[j].End() <= parts[i].base;
  }

  lemma FreeOfOthers(parts: seq<Part>, i: nat, a: Part)
    requires i <= |parts| && Sorted(Insert(parts, i, a))
    ensures Free(parts, a)
  {
    forall j: nat | j < |parts| ensures Disjoint(parts[j], a) {
      DisjointOther(parts, i, a, j);
    }
  }

  lemma DisjointOther(parts: seq<Part>, i: nat, a: Part, j: nat)
    requires i <= |parts| && Sorted(Insert(parts, i, a)) && j < |parts|
    ensures Disjoint(parts[j], a)
  {
    var s, k := Insert(parts, i, a), if j < i then j else j + 1;
    assert s[k] == parts[j] && s[i] == a;
  }

  // A given base

  /** With a given base, the place lies between its neighbours, and its size is the given one, what is
      left up to the next partition, or up to page 256. */
  ghost predicate AtGiven(parts: seq<Part>, r: Place, base: nat, size: nat, ws: bool)
  {
    r.At? ==>
      && r.index <= |parts| && r.part.base == base && Behind(parts, r.index, base)
      && (r.index < |parts| ==> base < parts[r.index].base && r.part.End() <= parts[r.index].base)
      && r.part.size == if !ws then size else if r.index < |parts| then parts[r.index].base - base else (TOP - base) % 0x1_0000
  }

  lemma {:induction false} GivenBase(parts: seq<Part>, i: nat, base: nat, size: nat, ws: bool)
    requires i <= |parts| && Behind(parts, i, base)
    ensures AtGiven(parts, Search(parts, i, base, size, false, ws), base, size, ws)
    decreases |parts| - i
  {
    if i < |parts| {
      var q := parts[i];
      if q.base <= base && q.End() <= base { GivenBase(parts, i + 1, base, size, ws); }
    }
  }

  lemma {:induction false} ExplicitFree(parts: seq<Part>, i: nat, base: nat, size: nat)
    requires i <= |parts| && Sorted(parts) && Behind(parts, i, base) && size > 0
    ensures Search(parts, i, base, size, false, false).At? <==> Free(parts, Part(base, size))
    decreases |parts| - i
  {
    var a := Part(base, size);
    if i < |parts| {
      var q := parts[i];
      if q.base > base {
        if q.base - base < size {
          assert !Disjoint(q, a);
        } else {
          assert forall j: nat :: j < |parts| ==> Disjoint(parts[j], a);
        }
      } else if q.End() > base {
        assert !Disjoint(q, a);
      } else {
        ExplicitFree(parts, i + 1, base, size);
      }
    }
  }

  /** A partition with given base and size is accepted if and only if it overlaps no other one. */
  lemma AcceptedIffFree(parts: seq<Part>, base: nat, size: nat)
    requires Sorted(parts) && size > 0
    ensures PlaceMain(parts, base, size, false, false).At? <==> Free(parts, Part(base, size))
  {
    ExplicitFree(parts, 0, base, size);
  }

  // A wildcard for the base

  /** Bases and sizes as they are kept, in 16 bits. */
  predicate Words(parts: seq<Part>)
  {
    forall i: nat :: i < |parts| ==> parts[i].base < 0x1_0000 && parts[i].size < 0x1_0000
  }

  /** Where the search tries to put a partition in front of partition i. */
  function Start(parts: seq<Part>, i: nat): nat
    requires i <= |parts|
  {
    if i == 0 then KERNEL_END else parts[i - 1].End()
  }

  /** There is room from there to partition i. */
  predicate RoomBefore(parts: seq<Part>, i: nat, size: nat, ws: bool)
    requires i < |parts|
  {
    parts[i].base > Start(parts, i) && (ws || parts[i].base - Start(parts, i) >= size)
  }

  predicate NoRoom(parts: seq<Part>, n: nat, size: nat, ws: bool)
    requires n <= |parts|
  {
    forall i: nat :: i < n ==> !RoomBefore(parts, i, size, ws)
  }

  /** The size that the partition gets. */
  function SizeAt(parts: seq<Part>, i: nat, size: nat, ws: bool): nat
    requires i <= |parts| && (i < |parts| ==> Start(parts, i) <= parts[i].base)
  {
    if !ws then size else if i < |parts| then parts[i].base - Start(parts, i) else (TOP - Start(parts, i) % 0x1_0000) % 0x1_0000
  }

  /** First fit, up to the partition behind which memory ends. */
  ghost predicate FirstFit(parts: seq<Part>, r: Place, size: nat, ws: bool)
  {
    match r
    case At(i, a) =>
      && i <= |parts| && NoRoom(parts, i, size, ws) && (i < |parts| ==> RoomBefore(parts, i, size, ws))
      && (i > 0 ==> Start(parts, i) % 0x1_0000 < TOP)
      && a == Part(if i < |parts| then Start(parts, i) else Start(parts, i) % 0x1_0000, SizeAt(parts, i, size, ws))
    case Nowhere =>
      exists i: nat :: 0 < i <= |parts| && NoRoom(parts, i, size, ws) && Start(parts, i) % 0x1_0000 >= TOP
  }

  lemma StartIsWord(parts: seq<Part>, i: nat)
    requires i < |parts| && Sorted(parts) && Words(parts)
    ensures Start(parts, i) % 0x1_0000 == Start(parts, i)
  {
    if i > 0 { assert parts[i - 1].End() <= parts[i].base; }
  }

  lemma {:induction false} Walk(parts: seq<Part>, i: nat, size: nat, ws: bool)
    requires i <= |parts| && Sorted(parts) && Words(parts) && NoRoom(parts, i, size, ws) && (i > 0 ==> Start(parts, i) % 0x1_0000 < TOP)
    ensures FirstFit(parts, Search(parts, i, Start(parts, i) % 0x1_0000, size, true, ws), size, ws)
    decreases |parts| - i
  {
    if i < |parts| {
      StartIsWord(parts, i);
      if !RoomBefore(parts, i, size, ws) && Start(parts, i + 1) % 0x1_0000 < TOP {
        Walk(parts, i + 1, size, ws);
      }
    }
  }

  /** What a wildcard base comes to. */
  lemma WildBase(parts: seq<Part>, base: nat, size: nat, ws: bool)
    requires Sorted(parts) && Words(parts)
    ensures FirstFit(parts, PlaceMain(parts, base, size, true, ws), size, ws)
  {
    Walk(parts, 0, size, ws);
  }

  /** A free page behind the kernel lies behind one of the places that the search tries. */
  lemma {:induction false} FreeHasRoom(parts: seq<Part>, i: nat, b: nat, size: nat) returns (k: nat)
    requires i <= |parts| && Sorted(parts) && size > 0 && Start(parts, i) <= b && Free(parts, Part(b, size))
    ensures i <= k <= |parts| && Start(parts, k) <= b && (k < |parts| ==> RoomBefore(parts, k, size, false))
    decreases |parts| - i
  {
    k := i;
    if i < |parts| {
      assert Disjoint(parts[i], Part(b, size));
      if parts[i].End() <= b { k := FreeHasRoom(parts, i + 1, b, size); }
    }
  }

  /** With a wildcard base, no lower page behind the kernel would have done. */
  lemma WildcardIsLowest(parts: seq<Part>, size: nat, b: nat)
    requires Sorted(parts) && Words(parts) && size > 0
    ensures var r := PlaceMain(parts, 0, size, true, false);
      r.At? && KERNEL_END <= b < r.part.base ==> !Free(parts, Part(b, size))
  {
    WildBase(parts, 0, size, false);
    var r := PlaceMain(parts, 0, size, true, false);
    if r.At? && KERNEL_END <= b && Free(parts, Part(b, size)) { LowestAtLast(parts, r, b, size); }
  }

  lemma LowestAtLast(parts: seq<Part>, r: Place, b: nat, size: nat)
    requires Sorted(parts) && size > 0 && r.At? && FirstFit(parts, r, size, false) && KERNEL_END <= b && Free(parts, Part(b, size))
    ensures r.part.base <= b
  {
    var k := FreeHasRoom(parts, 0, b, size);
    StartsAscend(parts, r.index, k);
  }

  lemma StartsAscend(parts: seq<Part>, i: nat, k: nat)
    requires i <= k <= |parts| && Sorted(parts)
    ensures i > 0 ==> Start(parts, i) <= Start(parts, k)
  {
    if 0 < i < k { assert parts[i - 1].End() <= parts[k - 1].base; }
  }

  /** ... and nothing is found only if nothing would have done. */
  lemma WildcardFinds(parts: seq<Part>, size: nat, b: nat)
    requires Sorted(parts) && Within(parts, TOP) && size > 0
    ensures PlaceMain(parts, 0, size, true, false).Nowhere? && KERNEL_END <= b && b + size <= TOP ==> !Free(parts, Part(b, size))
  {
    WordsWithin(parts);
    WildBase(parts, 0, size, false);
    if PlaceMain(parts, 0, size, true, false).Nowhere? && KERNEL_END <= b && b + size <= TOP && Free(parts, Part(b, size)) {
      var i: nat :| 0 < i <= |parts| && NoRoom(parts, i, size, false) && Start(parts, i) % 0x1_0000 >= TOP;
      var k := FreeHasRoom(parts, 0, b, size);
      StartsAscend(parts, i, k);
    }
  }

  lemma WordsWithin(parts: seq<Part>)
    requires Within(parts, TOP)
    ensures Words(parts) && forall i: nat :: 0 < i <= |parts| ==> Start(parts, i) % 0x1_0000 == Start(parts, i) <= TOP
  {
    forall i: nat | i < |parts| ensures parts[i].base < 0x1_0000 && parts[i].size < 0x1_0000 && parts[i].End() % 0x1_0000 == parts[i].End() <= TOP {
    }
  }

  // In order, inside the memory, behind the kernel

  /** What decides whether the list stays sorted: with a wildcard base, either there is room in front of
      some partition, or the last one ends within 16 bits. */
  ghost predicate InOrder(parts: seq<Part>, size: nat, wb: bool, ws: bool)
  {
    !wb || parts == [] || parts[|parts| - 1].End() <= 0xFFFF || exists i: nat :: i < |parts| && RoomBefore(parts, i, size, ws)
  }

  /** For all four combinations of wildcards, the partitions stay sorted and disjoint if and only if
      that holds. */
  lemma StaysSortedIff(parts: seq<Part>, base: nat, size: nat, wb: bool, ws: bool)
    requires Sorted(parts) && Words(parts)
    ensures var r := PlaceMain(parts, base, size, wb, ws);
      r.At? ==> r.index <= |parts| && (Sorted(Insert(parts, r.index, r.part)) <==> InOrder(parts, size, wb, ws))
  {
    var r := PlaceMain(parts, base, size, wb, ws);
    if !wb {
      GivenBase(parts, 0, base, size, ws);
      if r.At? { SortedWith(parts, r.index, r.part); }
    } else {
      WildBase(parts, base, size, ws);
      if r.At? { WildSorted(parts, r, size, ws); }
    }
  }

  lemma WildSorted(parts: seq<Part>, r: Place, size: nat, ws: bool)
    requires Sorted(parts) && Words(parts) && r.At? && FirstFit(parts, r, size, ws)
    ensures Sorted(Insert(parts, r.index, r.part)) <==> InOrder(parts, size, true, ws)
  {
    var s := Insert(parts, r.index, r.part);
    if r.index < |parts| || parts == [] || parts[|parts| - 1].End() <= 0xFFFF {
      if r.index > 0 { BehindNext(parts, r.index - 1); }
      SortedWith(parts, r.index, r.part);
    } else {
      assert s[|parts| - 1] == parts[|parts| - 1] && s[|parts|] == r.part;
      assert r.part.base < parts[|parts| - 1].End();
    }
  }

  /** A page where a wildcard base can come to lie: behind the kernel, or behind a partition. */
  ghost predicate Page(parts: seq<Part>, b: nat)
  {
    b >= KERNEL_END || exists i: nat :: i < |parts| && parts[i].End() == b
  }

  /** What a caller has to see to: with a wildcard size, a given base is a page of memory; a given
      size fits at the given base, or at some free page. */
  ghost predicate Sane(parts: seq<Part>, base: nat, size: nat, wb: bool, ws: bool)
  {
    if ws then wb || base < TOP
    else if wb then exists b: nat :: Page(parts, b) && b + size <= TOP && Free(parts, Part(b, size))
    else base + size <= TOP
  }

  /** The new partition is not empty and ends at page 256 or before if and only if the caller has seen
      to that. */
  lemma WithinIff(parts: seq<Part>, base: nat, size: nat, wb: bool, ws: bool)
    requires Sorted(parts) && Within(parts, TOP) && base < 0x1_0000 && (ws || size > 0)
    ensures var r := PlaceMain(parts, base, size, wb, ws);
      r.At? ==> (0 < r.part.size && r.part.End() <= TOP <==> Sane(parts, base, size, wb, ws))
  {
    var r := PlaceMain(parts, base, size, wb, ws);
    WordsWithin(parts);
    if !wb {
      GivenBase(parts, 0, base, size, ws);
      if r.At? && ws { LeftOver(parts, r, base); }
    } else {
      WildBase(parts, base, size, ws);
      if r.At? {
        if ws { WildLeftOver(parts, r, size); } else { WildWithin(parts, r, size); }
      }
    }
  }

  /** What is left from a given base on. */
  lemma LeftOver(parts: seq<Part>, r: Place, base: nat)
    requires Within(parts, TOP) && base < 0x1_0000 && r.At? && r.index <= |parts| && r.part.base == base
    requires r.index < |parts| ==> base < parts[r.index].base && r.part.size == parts[r.index].base - base
    requires r.index == |parts| ==> r.part.size == (TOP - base) % 0x1_0000
    ensures 0 < r.part.size && r.part.End() <= TOP <==> base < TOP
  {
  }

  /** What is left behind all partitions, or between two of them. */
  lemma WildLeftOver(parts: seq<Part>, r: Place, size: nat)
    requires Sorted(parts) && Within(parts, TOP) && r.At? && FirstFit(parts, r, size, true)
    ensures 0 < r.part.size && r.part.End() <= TOP
  {
    WordsWithin(parts);
  }

  lemma WildWithin(parts: seq<Part>, r: Place, size: nat)
    requires Sorted(parts) && Within(parts, TOP) && size > 0 && r.At? && FirstFit(parts, r, size, false)
    ensures r.part.End() <= TOP <==> Sane(parts, 0, size, true, false)
  {
    WordsWithin(parts);
    if r.part.End() <= TOP {
      if r.index > 0 {
        BehindNext(parts, r.index - 1);
        assert parts[r.index - 1].End() == r.part.base;
      }
      SortedWith(parts, r.index, r.part);
      FreeOfOthers(parts, r.index, r.part);
      assert Page(parts, r.part.base) && Free(parts, Part(r.part.base, size));
    }
    if r.index == |parts| {
      forall b: nat | Page(parts, b) && b + size <= TOP && Free(parts, Part(b, size)) ensures Start(parts, |parts|) <= b {
        LastPage(parts, b, size);
      }
    }
  }

  /** When there is no room in front of any partition, a free page lies behind all of them. */
  lemma LastPage(parts: seq<Part>, b: nat, size: nat)
    requires Sorted(parts) && Within(parts, TOP) && size > 0 && NoRoom(parts, |parts|, size, false)
    requires Page(parts, b) && Free(parts, Part(b, size))
    ensures Start(parts, |parts|) <= b
  {
    if b >= KERNEL_END {
      var k := FreeHasRoom(parts, 0, b, size);
    } else {
      var i: nat :| i < |parts| && parts[i].End() == b;
      var k := FreeHasRoom(parts, i + 1, b, size);
    }
  }

  /** A place below the kernel's end that the search accepts. */
  predicate LowStart(parts: seq<Part>, i: nat, size: nat, ws: bool)
  {
    0 < i <= |parts| && parts[i - 1].End() < KERNEL_END && (i == |parts| || RoomBefore(parts, i, size, ws))
  }

  /** The comment in the code wants a wildcard base to start behind the kernel.  It does not exactly when
      some partition ends below page 16, and is the last one or has room behind it. */
  lemma BelowKernelIff(parts: seq<Part>, size: nat, ws: bool)
    requires Sorted(parts) && Within(parts, TOP)
    ensures var r := PlaceMain(parts, 0, size, true, ws);
      r.At? ==> (r.part.base < KERNEL_END <==> exists i: nat :: LowStart(parts, i, size, ws))
  {
    var r := PlaceMain(parts, 0, size, true, ws);
    WordsWithin(parts);
    WildBase(parts, 0, size, ws);
    if r.At? {
      if r.part.base < KERNEL_END { assert LowStart(parts, r.index, size, ws); }
      forall i: nat | LowStart(parts, i, size, ws) ensures r.part.base < KERNEL_END {
        BelowAt(parts, r, i, size, ws);
      }
    }
  }

  lemma BelowAt(parts: seq<Part>, r: Place, i: nat, size: nat, ws: bool)
    requires Sorted(parts) && Within(parts, TOP) && r.At? && FirstFit(parts, r, size, ws)
    requires LowStart(parts, i, size, ws)
    ensures r.part.base < KERNEL_END
  {
    WordsWithin(parts);
    assert r.index <= i;
    StartsAscend(parts, r.index, i);
    assert i > 1 ==> parts[0].End() <= parts[i - 1].base;
  }

  // Inputs

  /** Page 300 to the top of memory, a page that does not exist. */
  lemma BeyondTop()
    ensures PlaceMain([], 300, 0, false, true) == At(0, Part(300, 65492))
    ensures PlaceMain([], 250, 100, false, false) == At(0, Part(250, 100))
  {
  }

  /** Once a partition ends beyond 16 bits, the next one may come behind it in the list and overlap
      it. */
  lemma OutOfOrder()
    ensures var parts := [Part(17, 65535)];
      PlaceMain(parts, 0, 2, true, false) == At(1, Part(16, 2)) && !Sorted(Insert(parts, 1, Part(16, 2)))
  {
    var parts := [Part(17, 65535)];
    assert Search(parts, 1, 16, 2, true, false) == At(1, Part(16, 2));
    var r := Insert(parts, 1, Part(16, 2));
    assert r[0].End() > r[1].base;
  }

  /** A wildcard base can come to lie inside the kernel's pages when these are not a partition. */
  lemma BelowKernelEnd()
    ensures PlaceMain([Part(0, 4)], 0, 8, true, false) == At(1, Part(4, 8))
  {
    assert Search([Part(0, 4)], 1, 4, 8, true, false) == At(1, Part(4, 8));
  }

  // ---------------------------------------------------------------
  // Sub-partitions
  // ---------------------------------------------------------------

  /** The loop of find_gap from sub-partition i on; everything is kept in bytes. */
  function Gap(main: Part, subs: seq<Part>, i: nat, base: nat, size: nat): Place
    requires i <= |subs|
    decreases |subs| - i
  {
    if i == |subs| then
      if (main.size + main.base - base) % 256 >= size then At(i, Part(base, size)) else Nowhere
    else if (subs[i].base - base) % 256 >= size then At(i, Part(base, size))
    else Gap(main, subs, i + 1, (subs[i].base + subs[i].size) % 256, size)
  }

  /** The choice of alloc_sub_partition in a system-controlled partition. */
  function PlaceSub(main: Part, subs: seq<Part>, size: nat): Place
  {
    Gap(main, subs, 0, main.base, size)
  }

  /** Sub-partitions in order, inside their main partition. */
  predicate Inside(main: Part, subs: seq<Part>)
  {
    && Sorted(subs)
    && forall i: nat :: i < |subs| ==> subs[i].size > 0 && main.base <= subs[i].base && subs[i].End() <= main.End()
  }

  /** The end of what lies before sub-partition i. */
  function EndBefore(main: Part, subs: seq<Part>, i: nat): nat
    requires i <= |subs|
  {
    if i == 0 then main.base else subs[i - 1].End()
  }

  /** A difference of bytes. */
  lemma ByteDifference(a: nat, b: nat)
    requires b <= a <= 256 && a - b <= 255
    ensures (a - b % 256) % 256 == a - b
  {
    if b == 256 {
      assert b % 256 == 0;
    } else {
      assert b % 256 == b;
    }
  }

  lemma InsideStep(main: Part, subs: seq<Part>, i: nat)
    requires i <= |subs| && Inside(main, subs)
    ensures main.base <= EndBefore(main, subs, i) <= main.End()
    ensures i < |subs| ==> EndBefore(main, subs, i) <= subs[i].base < subs[i].End() <= main.End() && EndBefore(main, subs, i + 1) == subs[i].End()
  {
  }

  lemma InsideWith(main: Part, subs: seq<Part>, i: nat, size: nat)
    requires i <= |subs| && Inside(main, subs) && size > 0
    requires var e := EndBefore(main, subs, i); e + size <= if i < |subs| then subs[i].base else main.End()
    ensures Inside(main, Insert(subs, i, Part(EndBefore(main, subs, i), size)))
  {
    InsideStep(main, subs, i);
    var a := Part(EndBefore(main, subs, i), size);
    var r := Insert(subs, i, a);
    assert Behind(subs, i, a.base) by {
      if i > 0 { BehindNext(subs, i - 1); }
    }
    SortedWith(subs, i, a);
    forall j: nat | j < |r| ensures r[j].size > 0 && main.base <= r[j].base && r[j].End() <= main.End() {
      if j != i { assert r[j] == subs[if j < i then j else j - 1]; }
    }
  }

  /** One step of the search, without the bytes. */
  lemma {:induction false} GapStep(main: Part, subs: seq<Part>, i: nat, size: nat)
    requires i <= |subs| && Inside(main, subs) && main.End() <= 256 && main.size <= 255 && 0 < size < 256
    ensures var e := EndBefore(main, subs, i);
      Gap(main, subs, i, e % 256, size) ==
      if (if i < |subs| then subs[i].base else main.End()) - e >= size then At(i, Part(e, size))
      else if i < |subs| then Gap(main, subs, i + 1, EndBefore(main, subs, i + 1) % 256, size) else Nowhere
  {
    var e := EndBefore(main, subs, i);
    var next := if i < |subs| then subs[i].base else main.End();
    InsideStep(main, subs, i);
    ByteDifference(next, e);
    assert next - e >= size ==> e < 256;
  }

  lemma {:induction false} GapFits(main: Part, subs: seq<Part>, i: nat, size: nat)
    requires i <= |subs| && Inside(main, subs) && main.End() <= 256 && main.size <= 255 && 0 < size < 256
    ensures var r := Gap(main, subs, i, EndBefore(main, subs, i) % 256, size);
      r.At? ==> i <= r.index <= |subs| && Inside(main, Insert(subs, r.index, r.part)) && r.part == Part(EndBefore(main, subs, r.index), size)
    decreases |subs| - i
  {
    var e := EndBefore(main, subs, i);
    GapStep(main, subs, i, size);
    if i < |subs| && subs[i].base - e < size {
      GapFits(main, subs, i + 1, size);
    } else if i < |subs| || main.End() - e >= size {
      InsideWith(main, subs, i, size);
    }
  }

  lemma {:induction false} NoGap(main: Part, subs: seq<Part>, i: nat, size: nat, a: Part)
    requires i <= |subs| && Inside(main, subs) && main.End() <= 256 && main.size <= 255 && 0 < size < 256
    requires Gap(main, subs, i, EndBefore(main, subs, i) % 256, size).Nowhere?
    requires a.size == size && EndBefore(main, subs, i) <= a.base && a.End() <= main.End()
    ensures !Free(subs, a)
    decreases |subs| - i
  {
    var e := EndBefore(main, subs, i);
    InsideStep(main, subs, i);
    GapStep(main, subs, i, size);
    if i < |subs| {
      if a.base < subs[i].End() {
        assert !Disjoint(subs[i], a);
      } else {
        NoGap(main, subs, i + 1, size, a);
      }
    }
  }

  /** Where the main partition ends at page 256 or before and has fewer than 256 pages, the bytes do
      no harm: a sub-partition is found exactly if there is room, and stays inside and in order. */
  lemma SubIffRoom(main: Part, subs: seq<Part>, size: nat)
    requires Inside(main, subs) && main.End() <= 256 && main.size <= 255 && main.base < 256 && 0 < size < 256
    ensures var r := PlaceSub(main, subs, size);
      && (r.At? ==> r.index <= |subs| && Inside(main, Insert(subs, r.index, r.part)))
      && (r.At? <==> exists b: nat :: main.base <= b && b + size <= main.End() && Free(subs, Part(b, size)))
  {
    var r := PlaceSub(main, subs, size);
    assert main.base % 256 == main.base;
    if r.At? {
      SubFound(main, subs, size);
      assert Free(subs, Part(r.part.base, size));
    } else {
      forall b: nat | main.base <= b && b + size <= main.End() ensures !Free(subs, Part(b, size)) {
        NoGap(main, subs, 0, size, Part(b, size));
      }
    }
  }

  lemma SubFound(main: Part, subs: seq<Part>, size: nat)
    requires Inside(main, subs) && main.End() <= 256 && main.size <= 255 && main.base < 256 && 0 < size < 256 && PlaceSub(main, subs, size).At?
    ensures var r := PlaceSub(main, subs, size);
      && r.index <= |subs| && Inside(main, Insert(subs, r.index, r.part)) && r.part.size == size
      && main.base <= r.part.base && r.part.End() <= main.End() && Free(subs, r.part)
  {
    var r := PlaceSub(main, subs, size);
    assert main.base % 256 == main.base;
    GapFits(main, subs, 0, size);
    FreeOfOthers(subs, r.index, r.part);
    var s := Insert(subs, r.index, r.part);
    assert s[r.index] == r.part;
  }

  /** Without sub-partitions there is room if the low byte of the main partition's size says so: in one
      of 256 pages there is none for any size. */
  lemma EmptyIff(main: Part, size: nat)
    ensures PlaceSub(main, [], size).At? <==> main.size % 256 >= size
    ensures main.size == 256 && size > 0 ==> PlaceSub(main, [], size).Nowhere?
  {
    assert main.size + main.base - main.base == main.size;
  }

  /** A sub-partition of no pages fits even into a full partition, and behind its last sub-partition at
      page 0. */
  lemma ByteLimits()
    ensures PlaceSub(Part(128, 128), [Part(128, 128)], 0) == At(0, Part(128, 0))
    ensures Gap(Part(128, 128), [Part(128, 128)], 1, 0, 0) == At(1, Part(0, 0))
  {
  }
}
