/** The directory that create_disk puts onto a new volume: entries for the seven system files. */
module MasterDirectory {
  import opened Bytes
  import opened FileContent
  import opened Directory

  const SYSTEM_FILES: nat := 7
  const SYS: seq<byte> := [83, 89, 83]
  const DIR: seq<byte> := [68, 73, 82]

  /** The names of the system files. */
  function NameOf(i: nat): (s: seq<byte>)
    ensures |s| <= 9
  {
    if i == 0 then [73, 78, 68, 69, 88, 70]
    else if i == 1 then [66, 73, 84, 77, 65, 80]
    else if i == 2 then [66, 65, 68, 66, 76, 75]
    else if i == 3 then [66, 79, 79, 84]
    else if i == 4 then [77, 65, 83, 84, 69, 82]
    else if i == 5 then [67, 79, 82, 73, 77, 71]
    else [83, 89, 83, 84, 69, 77]
  }

  function ExtOf(i: nat): (s: seq<byte>)
    ensures |s| <= 3
  {
    if i == 4 then DIR else SYS
  }

  const NAMES: seq<string> := ["INDEXF", "BITMAP", "BADBLK", "BOOT", "MASTER", "CORIMG", "SYSTEM"]

  /** The characters of a text. */
  predicate Reads(s: seq<byte>, t: string)
  {
    |s| == |t| && forall i: nat :: i < |s| ==> s[i] == t[i] as int
  }

  function MasterEntry(i: nat): DirEntry
  {
    if i < SYSTEM_FILES then MakeEntry(i + 1, NameOf(i), ExtOf(i), 1) else seq(ENTRY, _ => 0)
  }

  /** The first block of the directory. */
  ghost predicate IsMaster(b: Block)
  {
    forall i: nat :: i < 32 ==> EntryIn(b, i) == MasterEntry(i)
  }

  function EntryIn(b: Block, i: nat): DirEntry
    requires i < 32
  {
    b[ENTRY * i..ENTRY * i + ENTRY]
  }

  lemma EntryPut(b: Block, i: nat, e: DirEntry, k: nat)
    requires i < 32 && k < 32
    ensures EntryIn(Patch(b, ENTRY * i, e), k) == if k == i then e else EntryIn(b, k)
  {
    var r := Patch(b, ENTRY * i, e);
    assert k < i ==> ENTRY * k + ENTRY <= ENTRY * i;
    assert k > i ==> ENTRY * i + ENTRY <= ENTRY * k;
    assert forall o: nat :: ENTRY * k <= o < ENTRY * k + ENTRY && k != i ==> r[o] == b[o];
  }

  /** The entries, one after the other. */
  method MasterBlock() returns (b: Block)
    ensures IsMaster(b)
  {
    b := ZeroBlock();
    var entry := new byte[ENTRY];
    var i := 0;
    while i < SYSTEM_FILES
      invariant i <= SYSTEM_FILES && forall k: nat :: k < 32 ==> EntryIn(b, k) == if k < i then MasterEntry(k) else seq(ENTRY, _ => 0)
    {
      ghost var b0 := b;
      SetDirEntry(entry, i + 1, NameOf(i), ExtOf(i), 1);
      b := Patch(b, ENTRY * i, entry[..]);
      forall k: nat | k < 32 ensures EntryIn(b, k) == if k == i then MasterEntry(i) else EntryIn(b0, k) {
        EntryPut(b0, i, MasterEntry(i), k);
      }
      i := i + 1;
    }
  }

  lemma MasterName(i: nat)
    requires i < SYSTEM_FILES
    ensures IsString(NameOf(i)) && IsString(ExtOf(i)) && Ino(MasterEntry(i)) == i + 1 && Named(MasterEntry(i))
    ensures SameName(MasterEntry(i), NameOf(i), ExtOf(i)) && Version(MasterEntry(i)) == 1
    ensures Reads(NameOf(i), NAMES[i]) && Reads(ExtOf(i), if i == 4 then "DIR" else "SYS")
  {
    MadeEntry(i + 1, NameOf(i), ExtOf(i), 1);
  }

  /** The directory as a file: seven entries in use, the first free one behind them, and no entry
      that leads elsewhere. */
  lemma MasterEntries(b: Block)
    requires IsMaster(b)
    ensures var es := AllEntries(b + ZeroBlock());
      && |es| == 64 && AllNamed(es) && FreeSlot(es, |es|) == SYSTEM_FILES
      && (forall k: nat :: k < 64 ==> es[k] == MasterEntry(k) && Ino(es[k]) == if k < SYSTEM_FILES then k + 1 else 0)
      && forall k: nat :: k < SYSTEM_FILES ==> SameName(es[k], NameOf(k), ExtOf(k)) && Reads(NameOf(k), NAMES[k]) && Reads(ExtOf(k), if k == 4 then "DIR" else "SYS") && Version(es[k]) == 1
  {
    var d := b + ZeroBlock();
    var es := AllEntries(d);
    forall k: nat | k < 64
      ensures es[k] == MasterEntry(k) && Named(es[k]) && Ino(es[k]) == if k < SYSTEM_FILES then k + 1 else 0
      ensures k < SYSTEM_FILES ==> SameName(es[k], NameOf(k), ExtOf(k)) && Reads(NameOf(k), NAMES[k]) && Reads(ExtOf(k), if k == 4 then "DIR" else "SYS") && Version(es[k]) == 1
    {
      EntryBytes(d, 64, k);
      if k < 32 {
        assert d[ENTRY * k..ENTRY * k + ENTRY] == EntryIn(b, k);
      } else {
        assert d[ENTRY * k..ENTRY * k + ENTRY] == seq(ENTRY, _ => 0);
      }
      if k < SYSTEM_FILES { MasterName(k); }
    }
    FirstFreeIs(es, 64, SYSTEM_FILES);
  }

  lemma {:induction false} FirstFreeIs(es: seq<DirEntry>, n: nat, k: nat)
    requires k < n <= |es| && Ino(es[k]) == 0 && forall j: nat :: j < k ==> Ino(es[j]) != 0
    ensures FreeSlot(es, n) == k
  {
  }
}
