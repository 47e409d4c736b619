/** Directory entries of dirio.c, and what the searches of open_file and create_file in fileio.c
    find among them. */
module Directory {
  import opened Bytes
  import opened StreamLaws

  const ENTRY: nat := 16
  const BLANK: byte := 0x20

  /** A C string: no terminator inside. */
  predicate IsString(s: seq<byte>)
  {
    0 !in s
  }

  /** Conversion to a 16-bit short. */
  function Short(x: int): (r: int)
    ensures -0x8000 <= r < 0x8000
    ensures -0x8000 <= x < 0x8000 ==> r == x
  {
    (x + 0x8000) % 0x1_0000 - 0x8000
  }

  // ---------------------------------------------------------------
  // One entry: inode number, name, extension, version
  // ---------------------------------------------------------------

  type DirEntry = e: seq<byte> | |e| == ENTRY witness seq(ENTRY, _ => 0)

  function Ino(e: DirEntry): nat { Get16(e, 0) }

  function Version(e: DirEntry): int { Short(Get16(e, 14)) }

  /** Bytes o to o + w - 1 hold s, padded with blanks as far as match looks: up to the first one
      behind s. */
  predicate Holds(e: DirEntry, o: nat, w: nat, s: seq<byte>)
    requires o + w <= ENTRY
  {
    |s| <= w && e[o..o + |s|] == s && (|s| < w ==> e[o + |s|] == BLANK)
  }

  predicate SameName(e: DirEntry, fname: seq<byte>, ext: seq<byte>)
  {
    Holds(e, 2, 9, fname) && Holds(e, 11, 3, ext)
  }

  /** No terminators in the name field of an entry in use. */
  predicate Named(e: DirEntry)
  {
    Ino(e) != 0 ==> forall o :: 2 <= o < 14 ==> e[o] != 0
  }

  /** One of the two loops of match. */
  method MatchField(e: DirEntry, o: nat, w: nat, s: seq<byte>) returns (same: bool)
    requires o + w <= ENTRY && |s| <= w && forall p :: o <= p < o + w ==> e[p] != 0
    ensures same == Holds(e, o, w, s)
  {
    var i, p := 0, 0;
    while i < w
      invariant i <= w && p == i <= |s| && forall q :: 0 <= q < i ==> e[o + q] == s[q]
    {
      if p == |s| && e[o + i] == BLANK { break; }
      if p == |s| || e[o + i] != s[p] {
        assert p < |s| ==> e[o..o + |s|][i] == e[o + i];
        return false;
      }
      i, p := i + 1, p + 1;
    }
    assert e[o..o + |s|] == s;
    return true;
  }

  /** match: name and extension, and the version if one is given. */
  method Match(e: DirEntry, fname: seq<byte>, ext: seq<byte>, vers: int) returns (m: bool)
    requires |fname| <= 9 && |ext| <= 3 && forall o :: 2 <= o < 14 ==> e[o] != 0
    ensures m == (SameName(e, fname, ext) && (vers > 0 ==> Get16(e, 14) == vers))
  {
    var same := MatchField(e, 2, 9, fname);
    if !same { return false; }
    same := MatchField(e, 11, 3, ext);
    if !same { return false; }
    if vers > 0 { return Get16(e, 14) == vers; }
    return true;
  }

  /** s, padded with blanks to w bytes. */
  function Padded(s: seq<byte>, w: nat): (r: seq<byte>)
    requires |s| <= w
    ensures |r| == w && forall i :: 0 <= i < w ==> r[i] == if i < |s| then s[i] else BLANK
  {
    s + seq(w - |s|, _ => BLANK)
  }

  /** The 16 bits of a short. */
  function Unsigned(x: int): (r: nat)
    ensures r < 0x1_0000
  {
    x % 0x1_0000
  }

  function MakeEntry(ino: nat, fname: seq<byte>, ext: seq<byte>, vers: int): DirEntry
    requires |fname| <= 9 && |ext| <= 3
  {
    [ino % 256, ino / 256 % 256] + Padded(fname, 9) + Padded(ext, 3) + [Unsigned(vers) % 256, Unsigned(vers) / 256]
  }

  /** One of the two loops of set_dir_entry. */
  method SetField(entry: array<byte>, o: nat, w: nat, s: seq<byte>)
    requires entry.Length == ENTRY && o + w <= ENTRY && |s| <= w
    modifies entry
    ensures entry[o..o + w] == Padded(s, w)
    ensures forall p :: 0 <= p < ENTRY && !(o <= p < o + w) ==> entry[p] == old(entry[p])
  {
    var i, p := 0, 0;
    while i < w
      invariant i <= w && p == (if i < |s| then i else |s|)
      invariant forall k :: 0 <= k < i ==> entry[o + k] == Padded(s, w)[k]
      invariant forall k :: 0 <= k < ENTRY && !(o <= k < o + w) ==> entry[k] == old(entry[k])
    {
      if p < |s| {
        entry[o + i] := s[p];
        p := p + 1;
      } else {
        entry[o + i] := BLANK;
      }
      i := i + 1;
    }
  }

  /** set_dir_entry fills all 16 bytes in place. */
  method SetDirEntry(entry: array<byte>, ino: nat, fname: seq<byte>, ext: seq<byte>, vers: int)
    requires entry.Length == ENTRY && |fname| <= 9 && |ext| <= 3
    modifies entry
    ensures entry[..] == MakeEntry(ino, fname, ext, vers)
  {
    entry[0], entry[1] := ino % 256, ino / 256 % 256;
    SetField(entry, 2, 9, fname);
    assert entry[2..11] == Padded(fname, 9);
    ghost var name := entry[2..11];
    SetField(entry, 11, 3, ext);
    assert entry[2..11] == name;
    assert entry[11..14] == Padded(ext, 3);
    var u := Unsigned(vers);
    entry[14], entry[15] := u % 256, u / 256;
    assert entry[2..11] == name && entry[11..14] == Padded(ext, 3);
    assert entry[..] == entry[0..2] + entry[2..11] + entry[11..14] + entry[14..16];
  }

  /** What an entry says is what was entered. */
  lemma MadeEntry(ino: nat, fname: seq<byte>, ext: seq<byte>, vers: int)
    requires |fname| <= 9 && |ext| <= 3 && ino < 0x1_0000 && IsString(fname) && IsString(ext)
    ensures var e := MakeEntry(ino, fname, ext, vers);
      Ino(e) == ino && Version(e) == Short(vers) && Get16(e, 14) == Unsigned(vers) && SameName(e, fname, ext) && Named(e)
  {
    var e := MakeEntry(ino, fname, ext, vers);
    assert e[2..11] == Padded(fname, 9) && e[11..14] == Padded(ext, 3);
    assert forall o :: 2 <= o < 11 ==> e[o] == Padded(fname, 9)[o - 2];
    assert forall o :: 11 <= o < 14 ==> e[o] == Padded(ext, 3)[o - 11];
    assert e[2..2 + |fname|] == fname && e[11..11 + |ext|] == ext;
    assert e[14] == Unsigned(vers) % 256 && e[15] == Unsigned(vers) / 256;
  }

  predicate NoBlanks(s: seq<byte>)
  {
    BLANK !in s
  }

  /** An entry is found by its own name only, as long as that name has no blank inside. */
  lemma FoundByNameOnly(ino: nat, fname: seq<byte>, ext: seq<byte>, vers: int, f: seq<byte>, x: seq<byte>)
    requires |fname| <= 9 && |ext| <= 3 && NoBlanks(fname) && NoBlanks(ext) && NoBlanks(f) && NoBlanks(x)
    ensures SameName(MakeEntry(ino, fname, ext, vers), f, x) <==> f == fname && x == ext
  {
    var e := MakeEntry(ino, fname, ext, vers);
    assert e[2..11] == Padded(fname, 9) && e[11..14] == Padded(ext, 3);
    FieldName(e, 2, 9, fname, f);
    FieldName(e, 11, 3, ext, x);
  }

  lemma FieldName(e: DirEntry, o: nat, w: nat, s: seq<byte>, t: seq<byte>)
    requires o + w <= ENTRY && |s| <= w && e[o..o + w] == Padded(s, w) && NoBlanks(s) && NoBlanks(t)
    ensures Holds(e, o, w, t) <==> t == s
  {
    assert forall i :: 0 <= i < w ==> e[o + i] == e[o..o + w][i] == Padded(s, w)[i];
    assert e[o..o + |s|] == s;
    if Holds(e, o, w, t) {
      assert forall i :: 0 <= i < |t| ==> t[i] == e[o..o + |t|][i] == e[o + i];
      var i := if |t| < |s| then |t| else |s|;
      assert i < w ==> (e[o + i] == BLANK <==> i == |s|);
      assert s == t;
    }
  }

  /** The file "A B" is found under the name "A". */
  lemma BlankInName()
    ensures SameName(MakeEntry(1, [65, BLANK, 66], [], 1), [65], [])
  {
    var e := MakeEntry(1, [65, BLANK, 66], [], 1);
    assert e[2] == 65 && e[3] == BLANK;
    assert e[11..14] == Padded([], 3);
  }

  // ---------------------------------------------------------------
  // A directory: the bytes of a file as entries
  // ---------------------------------------------------------------

  /** The first n entries. */
  function Entries(d: seq<byte>, n: nat): (es: seq<DirEntry>)
    requires ENTRY * n <= |d|
    ensures |es| == n
  {
    if n == 0 then [] else Entries(d, n - 1) + [d[ENTRY * (n - 1)..ENTRY * n]]
  }

  function AllEntries(d: seq<byte>): (es: seq<DirEntry>)
    ensures |es| == |d| / ENTRY
  {
    Entries(d, |d| / ENTRY)
  }

  lemma {:induction false} EntryBytes(d: seq<byte>, n: nat, k: nat)
    requires k < n && ENTRY * n <= |d|
    ensures Entries(d, n)[k] == d[ENTRY * k..ENTRY * k + ENTRY]
  {
    if k < n - 1 { EntryBytes(d, n - 1, k); }
  }

  /** One entry replaced, or one added. */
  function Put(es: seq<DirEntry>, k: nat, e: DirEntry): (r: seq<DirEntry>)
    requires k <= |es|
    ensures |r| == Max(|es|, k + 1) && r[k] == e && forall j: nat :: j < |r| && j != k ==> j < |es| && r[j] == es[j]
  {
    if k < |es| then es[k := e] else es + [e]
  }

  /** What writing 16 bytes at a multiple of 16 does to the entries. */
  lemma {:induction false} PutBytes(d: seq<byte>, k: nat, e: DirEntry)
    requires |d| % ENTRY == 0 && ENTRY * k <= |d|
    ensures AllEntries(Overwritten(d, ENTRY * k, e)) == Put(AllEntries(d), k, e)
  {
    var r := Overwritten(d, ENTRY * k, e);
    assert |r| / ENTRY == Max(|d| / ENTRY, k + 1);
    forall j: nat | j < |r| / ENTRY ensures AllEntries(r)[j] == Put(AllEntries(d), k, e)[j] {
      EntryBytes(r, |r| / ENTRY, j);
      if j == k {
        assert r[ENTRY * k..ENTRY * k + ENTRY] == e;
      } else {
        EntryBytes(d, |d| / ENTRY, j);
        OtherEntry(d, k, e, j);
      }
    }
  }

  lemma OtherEntry(d: seq<byte>, k: nat, e: DirEntry, j: nat)
    requires ENTRY * k <= |d| && ENTRY * j + ENTRY <= |d| && j != k
    ensures Overwritten(d, ENTRY * k, e)[ENTRY * j..ENTRY * j + ENTRY] == d[ENTRY * j..ENTRY * j + ENTRY]
  {
    var r, p, q := Overwritten(d, ENTRY * k, e), ENTRY * j, ENTRY * k;
    assert p + ENTRY <= q || q + ENTRY <= p;
    assert forall o: nat :: p <= o < p + ENTRY ==> r[o] == d[o];
  }

  predicate AllNamed(es: seq<DirEntry>)
  {
    forall k: nat :: k < |es| ==> Named(es[k])
  }

  // ---------------------------------------------------------------
  // Searches
  // ---------------------------------------------------------------

  /** The entry is in use and is what open_file and delete_file look for. */
  predicate Hit(e: DirEntry, fname: seq<byte>, ext: seq<byte>, vers: int)
  {
    Ino(e) != 0 && SameName(e, fname, ext) && (vers > 0 ==> Get16(e, 14) == vers)
  }

  /** The entry that open_file has chosen after n entries, or -1. */
  function Chosen(es: seq<DirEntry>, n: nat, fname: seq<byte>, ext: seq<byte>, vers: int): (r: int)
    requires n <= |es|
    ensures -1 <= r < n
  {
    if n == 0 then -1
    else
      var r := Chosen(es, n - 1, fname, ext, vers);
      if Hit(es[n - 1], fname, ext, vers) && (vers > 0 || Version(es[n - 1]) > VersionAt(es, r)) then n - 1 else r
  }

  /** hivers: the version of the chosen entry. */
  function VersionAt(es: seq<DirEntry>, r: int): int
    requires r < |es|
  {
    if r < 0 then 0 else Version(es[r])
  }

  /** Without a version, the highest positive one is chosen, the first of several equal ones. */
  lemma {:induction false} ChosenIsHighest(es: seq<DirEntry>, n: nat, fname: seq<byte>, ext: seq<byte>)
    requires n <= |es|
    ensures var r := Chosen(es, n, fname, ext, 0);
      && (r >= 0 ==> Hit(es[r], fname, ext, 0) && Version(es[r]) > 0)
      && forall k: nat :: k < n && Hit(es[k], fname, ext, 0) ==> Version(es[k]) <= VersionAt(es, r) && (k < r ==> Version(es[k]) < VersionAt(es, r))
  {
    if n > 0 { ChosenIsHighest(es, n - 1, fname, ext); }
  }

  /** With a version, the last entry with exactly that version is chosen. */
  lemma {:induction false} ChosenIsExact(es: seq<DirEntry>, n: nat, fname: seq<byte>, ext: seq<byte>, vers: int)
    requires n <= |es| && vers > 0
    ensures var r := Chosen(es, n, fname, ext, vers);
      && (r >= 0 ==> Hit(es[r], fname, ext, vers))
      && forall k: nat :: k < n && Hit(es[k], fname, ext, vers) ==> k <= r
  {
    if n > 0 { ChosenIsExact(es, n - 1, fname, ext, vers); }
  }

  /** hivers of create_file: the highest version of the name among the first n entries, or 0. */
  function Highest(es: seq<DirEntry>, n: nat, fname: seq<byte>, ext: seq<byte>): (h: int)
    requires n <= |es|
    ensures 0 <= h < 0x8000
  {
    if n == 0 then 0
    else
      var h := Highest(es, n - 1, fname, ext);
      if Hit(es[n - 1], fname, ext, 0) && Version(es[n - 1]) > h then Version(es[n - 1]) else h
  }

  /** create_file and open_file agree about the highest version. */
  lemma {:induction false} HighestIsChosen(es: seq<DirEntry>, n: nat, fname: seq<byte>, ext: seq<byte>)
    requires n <= |es|
    ensures Highest(es, n, fname, ext) == VersionAt(es, Chosen(es, n, fname, ext, 0))
  {
    if n > 0 { HighestIsChosen(es, n - 1, fname, ext); }
  }

  /** The first free entry among the first n, or n. */
  function FreeSlot(es: seq<DirEntry>, n: nat): (k: nat)
    requires n <= |es|
    ensures k <= n && (k < n ==> Ino(es[k]) == 0) && forall j: nat :: j < k ==> Ino(es[j]) != 0
  {
    if n == 0 then 0
    else
      var k := FreeSlot(es, n - 1);
      if k < n - 1 || Ino(es[n - 1]) == 0 then k else n
  }

  /** "File exists": the name is there with the version asked for. */
  predicate Exists(es: seq<DirEntry>, fname: seq<byte>, ext: seq<byte>, vers: int)
  {
    vers > 0 && exists k: nat :: k < |es| && Hit(es[k], fname, ext, 0) && Version(es[k]) == vers
  }

  /** What is found among the first n entries does not depend on the others. */
  lemma {:induction false} SearchBefore(es: seq<DirEntry>, k: nat, e: DirEntry, n: nat, fname: seq<byte>, ext: seq<byte>, vers: int)
    requires n <= k <= |es|
    ensures Chosen(Put(es, k, e), n, fname, ext, vers) == Chosen(es, n, fname, ext, vers)
  {
    if n > 0 { SearchBefore(es, k, e, n - 1, fname, ext, vers); }
  }

  /** An entry that is never chosen, in the place of a free one or behind the last one, does not
      change what is found. */
  lemma {:induction false} SearchWithout(es: seq<DirEntry>, k: nat, e: DirEntry, n: nat, fname: seq<byte>, ext: seq<byte>, vers: int)
    requires k <= |es| && n <= |Put(es, k, e)| && (k < |es| ==> Ino(es[k]) == 0)
    requires !Hit(e, fname, ext, vers) || (vers <= 0 && Version(e) <= 0)
    ensures Chosen(Put(es, k, e), n, fname, ext, vers) == Chosen(es, if n <= |es| then n else n - 1, fname, ext, vers)
    ensures Chosen(Put(es, k, e), n, fname, ext, vers) != k
  {
    if n > 0 {
      SearchWithout(es, k, e, n - 1, fname, ext, vers);
      if n - 1 == k && vers <= 0 { ChosenIsPositive(Put(es, k, e), k, fname, ext, vers); }
    }
  }

  lemma {:induction false} ChosenIsPositive(es: seq<DirEntry>, n: nat, fname: seq<byte>, ext: seq<byte>, vers: int)
    requires n <= |es| && vers <= 0
    ensures VersionAt(es, Chosen(es, n, fname, ext, vers)) >= 0
  {
    if n > 0 { ChosenIsPositive(es, n - 1, fname, ext, vers); }
  }

  // ---------------------------------------------------------------
  // Versions
  // ---------------------------------------------------------------

  /** The new entry of create_file: the next version of the name. */
  function NewEntry(es: seq<DirEntry>, ino: nat, fname: seq<byte>, ext: seq<byte>): DirEntry
    requires |fname| <= 9 && |ext| <= 3
  {
    MakeEntry(ino, fname, ext, Highest(es, |es|, fname, ext) + 1)
  }

  /** It goes to the first free place. */
  function Created(es: seq<DirEntry>, ino: nat, fname: seq<byte>, ext: seq<byte>): seq<DirEntry>
    requires |fname| <= 9 && |ext| <= 3
  {
    Put(es, FreeSlot(es, |es|), NewEntry(es, ino, fname, ext))
  }

  /** An entry with a version above all others of the name is what is found from then on. */
  lemma {:induction false} NewestIsChosen(es: seq<DirEntry>, k: nat, e: DirEntry, n: nat, fname: seq<byte>, ext: seq<byte>, h: int)
    requires k <= |es| && k < n <= |Put(es, k, e)| && h == Highest(es, |es|, fname, ext)
    requires Hit(e, fname, ext, 0) && Version(e) == h + 1
    ensures Chosen(Put(es, k, e), n, fname, ext, 0) == k
  {
    HighestIsChosen(es, |es|, fname, ext);
    ChosenIsHighest(es, |es|, fname, ext);
    if n == k + 1 {
      SearchBefore(es, k, e, k, fname, ext, 0);
      ChosenIsHighest(es, k, fname, ext);
    } else {
      NewestIsChosen(es, k, e, n - 1, fname, ext, h);
    }
  }

  /** A file just created is the one that is opened without a version if and only if the version
      number has not overflowed; when it has, the old file is opened. */
  lemma CreatedIsOpened(es: seq<DirEntry>, ino: nat, fname: seq<byte>, ext: seq<byte>)
    requires |fname| <= 9 && |ext| <= 3 && IsString(fname) && IsString(ext) && 0 < ino < 0x1_0000
    ensures var r := Created(es, ino, fname, ext);
      && (Chosen(r, |r|, fname, ext, 0) == FreeSlot(es, |es|) <==> Highest(es, |es|, fname, ext) < 0x7FFF)
      && (Highest(es, |es|, fname, ext) == 0x7FFF ==> Chosen(r, |r|, fname, ext, 0) == Chosen(es, |es|, fname, ext, 0))
  {
    var r, k, h := Created(es, ino, fname, ext), FreeSlot(es, |es|), Highest(es, |es|, fname, ext);
    var e := NewEntry(es, ino, fname, ext);
    MadeEntry(ino, fname, ext, h + 1);
    if h < 0x7FFF {
      NewestIsChosen(es, k, e, |r|, fname, ext, h);
    } else {
      SearchWithout(es, k, e, |r|, fname, ext, 0);
    }
  }

  /** A version that is not positive counts as none. */
  lemma {:induction false} NoVersion(es: seq<DirEntry>, n: nat, fname: seq<byte>, ext: seq<byte>, vers: int)
    requires n <= |es| && vers <= 0
    ensures Chosen(es, n, fname, ext, vers) == Chosen(es, n, fname, ext, 0)
  {
    if n > 0 { NoVersion(es, n - 1, fname, ext, vers); }
  }

  /** Creating a file changes exactly one entry, which was free or beyond the end, and every other
      entry of that name has a lower version than the new one. */
  lemma CreatedVersion(es: seq<DirEntry>, ino: nat, fname: seq<byte>, ext: seq<byte>, j: nat)
    requires AllNamed(es) && |fname| <= 9 && |ext| <= 3 && IsString(fname) && IsString(ext) && 0 < ino < 0x1_0000
    ensures var r, k := Created(es, ino, fname, ext), FreeSlot(es, |es|);
      && AllNamed(r) && Ino(r[k]) == ino && SameName(r[k], fname, ext)
      && (j < |es| && j != k ==> r[j] == es[j])
      && (j < |es| && Hit(es[j], fname, ext, 0) ==> j != k && Version(es[j]) < Highest(es, |es|, fname, ext) + 1)
  {
    MadeEntry(ino, fname, ext, Highest(es, |es|, fname, ext) + 1);
    HighestIsChosen(es, |es|, fname, ext);
    ChosenIsHighest(es, |es|, fname, ext);
  }

  /** After a file has been created and deleted again, every search finds what it found before. */
  lemma CreatedAndRemoved(es: seq<DirEntry>, ino: nat, fname: seq<byte>, ext: seq<byte>, f: seq<byte>, x: seq<byte>, vers: int)
    requires |fname| <= 9 && |ext| <= 3
    ensures var r, k := Created(es, ino, fname, ext), FreeSlot(es, |es|);
      var r' := Put(r, k, Set16(r[k], 0, 0));
      Chosen(r', |r'|, f, x, vers) == Chosen(es, |es|, f, x, vers)
  {
    var r, k := Created(es, ino, fname, ext), FreeSlot(es, |es|);
    var e := Set16(r[k], 0, 0);
    assert Ino(e) == 0;
    assert Put(r, k, e) == Put(es, k, e);
    SearchWithout(es, k, e, |r|, f, x, vers);
  }

  /** create_file opens the new file by its full name, and finds the new entry, unless the version
      number has overflowed: then it finds the old file. */
  lemma CreatedIsFound(es: seq<DirEntry>, ino: nat, fname: seq<byte>, ext: seq<byte>)
    requires |fname| <= 9 && |ext| <= 3 && IsString(fname) && IsString(ext) && 0 < ino < 0x1_0000
    ensures var r, h := Created(es, ino, fname, ext), Highest(es, |es|, fname, ext);
      && (h < 0x7FFF ==> Chosen(r, |r|, fname, ext, Short(h + 1)) == FreeSlot(es, |es|))
      && (h == 0x7FFF ==> Chosen(r, |r|, fname, ext, Short(h + 1)) == Chosen(es, |es|, fname, ext, 0))
  {
    var r, k, h := Created(es, ino, fname, ext), FreeSlot(es, |es|), Highest(es, |es|, fname, ext);
    MadeEntry(ino, fname, ext, h + 1);
    if h < 0x7FFF {
      ChosenIsExact(r, |r|, fname, ext, h + 1);
      HighestIsChosen(es, |es|, fname, ext);
      ChosenIsHighest(es, |es|, fname, ext);
      assert Hit(r[k], fname, ext, h + 1);
      var j := Chosen(r, |r|, fname, ext, h + 1);
      assert j != k ==> Hit(es[j], fname, ext, 0) && Version(es[j]) == h + 1;
    } else {
      NoVersion(r, |r|, fname, ext, Short(h + 1));
      CreatedIsOpened(es, ino, fname, ext);
    }
  }
}
