/** Everything that happens on a volume: changes of files and of the index, in any order and number. */
module VolumeHistory {
  import opened Bytes
  import opened Volumes
  import opened Allocation
  import opened FileContent
  import opened VolumeRuns
  import opened Inodes
  import opened IndexArea

  // ---------------------------------------------------------------
  // One change
  // ---------------------------------------------------------------

  /** A file is created, grows, is written or is deleted; new_inode marks the entries up to the one
      that it takes; write_inode; free_inode. */
  datatype Change = OfFile(event: Event) | Search(k: nat) | Enter(inode: nat, entry: Inode) | Free(inode: nat)
  {
    /** Files or inodes concerned are among these. */
    predicate Within(who: set<nat>)
    {
      match this
      case OfFile(e) => e.inode in who
      case Search(_) => true
      case Enter(m, _) => m in who
      case Free(m) => m in who
    }

    /** Whether entry m of the index bitmap is marked afterwards. */
    predicate Marks(m: nat, was: bool)
    {
      match this
      case Search(k) => m <= k || was
      case Free(n) => m != n && was
      case _ => was
    }
  }

  ghost predicate Changes(v: Volume, s: State, c: Change, t: State)
  {
    && IndexAreaOk(v, s.vol)
    && match c
       case OfFile(e) => Step(v, s, e, t)
       case Search(k) => t.files == s.files && k <= Files(v, s.vol) && MarkedUpTo(s.vol, t.vol, IxBitmap(v, s.vol), k)
       case Enter(m, e) =>
         t.files == s.files && 1 <= m <= Files(v, s.vol) && InodeBlock(v, m) < |s.vol| && t.vol == WithInode(v, s.vol, m, e)
       case Free(m) => t.files == s.files && 1 <= m <= Files(v, s.vol) && t.vol == WithBit(s.vol, IxBitmap(v, s.vol), m - 1, false)
  }

  /** A change of the index is one of the index only. */
  lemma ChangeOfIndex(v: Volume, s: State, c: Change, t: State)
    requires Changes(v, s, c, t) && !c.OfFile?
    ensures IndexWritten(v, s.vol, t.vol) && t.files == s.files
  {
    match c
    case Search(k) => SearchWritten(v, s.vol, t.vol, k);
    case Enter(m, e) => InodeWritten(v, s.vol, m, e);
    case Free(m) => BitWritten(v, s.vol, m, false);
  }

  /** The same places, and of the cluster bitmap at most bits of clusters. */
  ghost predicate SamePlaces(v: Volume, vol: Image, vol': Image)
    requires IndexAreaOk(v, vol)
  {
    IndexAreaOk(v, vol') && IxBitmap(v, vol') == IxBitmap(v, vol) && Files(v, vol') == Files(v, vol) && BitmapFrame(v, vol, vol')
  }

  lemma ChangeIsSafe(v: Volume, s: State, c: Change, t: State)
    requires VolumeOk(v, s.vol, s.files) && Changes(v, s, c, t)
    ensures VolumeOk(v, t.vol, t.files) && SamePlaces(v, s.vol, t.vol)
  {
    if c.OfFile? {
      StepKeepsVolume(v, s, c.event, t);
      StepKeepsIndex(v, s, c.event, t);
      KeptKeepsPlaces(v, s.vol, t.vol);
    } else {
      ChangeOfIndex(v, s, c, t);
      WrittenKeepsVolume(v, s.vol, t.vol, s.files);
      WrittenKeepsPlaces(v, s.vol, t.vol);
      WrittenKeepsFrame(v, s.vol, t.vol);
    }
  }

  /** n blocks of live file i are in their place. */
  ghost predicate HasBlocks(v: Volume, s: State, i: nat, n: nat)
  {
    i in s.files && forall b: nat :: b < n ==> Shr(b, v.clfactor) < |s.files[i].slots|
  }

  /** The record and the first n blocks of file i are the same in both states. */
  ghost predicate SameFile(v: Volume, s: State, t: State, i: nat, n: nat)
    requires HasBlocks(v, s, i, n)
  {
    i in t.files && t.files[i] == s.files[i] && Flat(v, t.vol, s.files[i].slots, n) == Flat(v, s.vol, s.files[i].slots, n)
  }

  lemma ChangeKeepsFile(v: Volume, s: State, c: Change, t: State, who: set<nat>, i: nat, n: nat)
    requires VolumeOk(v, s.vol, s.files) && Changes(v, s, c, t) && c.Within(who) && i !in who && HasBlocks(v, s, i, n)
    ensures SameFile(v, s, t, i, n)
  {
    if c.OfFile? {
      StepKeepsFile(v, s, c.event, t, i, n);
    } else {
      ChangeOfIndex(v, s, c, t);
      assert Sound(v, s.vol, s.files[i]) by { assert RunKey(0); }
      SoundFacts(v, s.vol, s.files[i]);
      WrittenKeepsBytes(v, s.vol, t.vol, s.files[i].slots, s.files[i].maps, n);
    }
  }

  /** What a change means for one inode and its bit. */
  lemma ChangeOfEntry(v: Volume, s: State, c: Change, t: State, who: set<nat>, m: nat)
    requires VolumeOk(v, s.vol, s.files) && Changes(v, s, c, t) && c.Within(who) && 1 <= m <= Files(v, s.vol)
    ensures InodeBlock(v, m) < |s.vol| == |t.vol| && (m !in who ==> InodeAt(v, t.vol, m) == InodeAt(v, s.vol, m))
    ensures Bit(t.vol, IxBitmap(v, s.vol), m - 1) == c.Marks(m, Bit(s.vol, IxBitmap(v, s.vol), m - 1))
  {
    InodeInIndex(v, s.vol, m);
    match c
    case OfFile(e) =>
      StepKeepsIndex(v, s, e, t);
      KeptInodes(v, s.vol, t.vol, m);
    case Search(k) => SearchedEntry(v, s.vol, t.vol, k, m);
    case Enter(n, e) => WrittenInode(v, s.vol, n, e, m);
    case Free(n) => WrittenBit(v, s.vol, n, false, m);
  }

  // ---------------------------------------------------------------
  // Any number of changes
  // ---------------------------------------------------------------

  ghost predicate HistoryKey(k: int)
  {
    true
  }

  ghost predicate History(v: Volume, s: seq<State>, c: seq<Change>, who: set<nat>)
  {
    && |s| == |c| + 1
    && forall k: nat :: k < |c| ==> Changes(v, s[k], c[k], s[k + 1]) && c[k].Within(who)
  }

  /** In every moment of every history: no cluster has two owners, the bitmap marks exactly the system
      area and what the live files own, and the index lies where it did. */
  lemma {:induction false} HistoryIsSafe(v: Volume, s: seq<State>, c: seq<Change>, who: set<nat>, k: nat)
    requires History(v, s, c, who) && VolumeOk(v, s[0].vol, s[0].files) && IndexAreaOk(v, s[0].vol) && k < |s|
    ensures VolumeOk(v, s[k].vol, s[k].files) && SamePlaces(v, s[0].vol, s[k].vol)
  {
    if k > 0 {
      HistoryIsSafe(v, s, c, who, k - 1);
      ChangeIsSafe(v, s[k - 1], c[k - 1], s[k]);
      FrameTransitive(v, s[0].vol, s[k - 1].vol, s[k].vol);
    }
  }

  /** A file that no change concerns has the same record and the same bytes in every moment. */
  lemma {:induction false} HistoryKeepsFile(v: Volume, s: seq<State>, c: seq<Change>, who: set<nat>, k: nat, i: nat, n: nat)
    requires History(v, s, c, who) && VolumeOk(v, s[0].vol, s[0].files) && IndexAreaOk(v, s[0].vol) && k < |s| && i !in who && HasBlocks(v, s[0], i, n)
    ensures SameFile(v, s[0], s[k], i, n)
  {
    if k > 0 {
      HistoryKeepsFile(v, s, c, who, k - 1, i, n);
      HistoryIsSafe(v, s, c, who, k - 1);
      ChangeKeepsFile(v, s[k - 1], c[k - 1], s[k], who, i, n);
    }
  }

  /** The mark of an entry after the first k changes. */
  ghost predicate MarkedAfter(c: seq<Change>, k: nat, m: nat, was: bool)
    requires k <= |c|
  {
    if k == 0 then was else c[k - 1].Marks(m, MarkedAfter(c, k - 1, m, was))
  }

  /** An inode that no change concerns is the same in every moment, and its mark depends only on the
      searches and the deletions. */
  lemma {:induction false} HistoryOfEntry(v: Volume, s: seq<State>, c: seq<Change>, who: set<nat>, k: nat, m: nat)
    requires History(v, s, c, who) && VolumeOk(v, s[0].vol, s[0].files) && IndexAreaOk(v, s[0].vol) && k < |s| && 1 <= m <= Files(v, s[0].vol)
    ensures InodeBlock(v, m) < |s[0].vol| == |s[k].vol| && (m !in who ==> InodeAt(v, s[k].vol, m) == InodeAt(v, s[0].vol, m))
    ensures Bit(s[k].vol, IxBitmap(v, s[0].vol), m - 1) == MarkedAfter(c, k, m, Bit(s[0].vol, IxBitmap(v, s[0].vol), m - 1))
  {
    if k == 0 {
      InodeInIndex(v, s[0].vol, m);
    } else {
      HistoryOfEntry(v, s, c, who, k - 1, m);
      HistoryIsSafe(v, s, c, who, k - 1);
      ChangeOfEntry(v, s[k - 1], c[k - 1], s[k], who, m);
    }
  }

  /** Conservation: when the live files of a later moment own the same clusters, for example because
      all that was created has been deleted, the cluster bitmap is bit for bit what it was, with its
      header and its padding; and so is the index bitmap if what was marked by searches was freed.
      The inodes are not: a deleted one keeps its fields. */
  lemma HistoryRestores(v: Volume, s: seq<State>, c: seq<Change>, who: set<nat>, k: nat)
    requires History(v, s, c, who) && VolumeOk(v, s[0].vol, s[0].files) && IndexAreaOk(v, s[0].vol) && k < |s|
    requires AllClus(v, s[k].files) == AllClus(v, s[0].files)
    requires forall j: nat :: j < Files(v, s[0].vol) ==>
      MarkedAfter(c, k, j + 1, Bit(s[0].vol, IxBitmap(v, s[0].vol), j)) == Bit(s[0].vol, IxBitmap(v, s[0].vol), j)
    ensures |s[k].vol| == |s[0].vol| && forall b: nat :: b < |s[0].vol| && InBitmap(v, b) ==> s[k].vol[b] == s[0].vol[b]
    ensures forall j: nat :: j < Files(v, s[0].vol) ==> Bit(s[k].vol, IxBitmap(v, s[0].vol), j) == Bit(s[0].vol, IxBitmap(v, s[0].vol), j)
  {
    HistoryIsSafe(v, s, c, who, k);
    SameOwners(v, s[0], s[k]);
    BitmapRestored(v, s[0].vol, s[k].vol);
    HistoryOfMarks(v, s, c, who, k);
    forall j: nat | j < Files(v, s[0].vol) ensures Bit(s[k].vol, IxBitmap(v, s[0].vol), j) == Bit(s[0].vol, IxBitmap(v, s[0].vol), j) {
      assert MarkFollows(v, s[0].vol, s[k].vol, c, k, j);
    }
  }

  /** The mark of entry j in a later volume. */
  ghost predicate MarkFollows(v: Volume, vol: Image, later: Image, c: seq<Change>, k: nat, j: nat)
    requires IndexAreaOk(v, vol) && k <= |c|
  {
    Bit(later, IxBitmap(v, vol), j) == MarkedAfter(c, k, j + 1, Bit(vol, IxBitmap(v, vol), j))
  }

  lemma HistoryOfMarks(v: Volume, s: seq<State>, c: seq<Change>, who: set<nat>, k: nat)
    requires History(v, s, c, who) && VolumeOk(v, s[0].vol, s[0].files) && IndexAreaOk(v, s[0].vol) && k < |s|
    ensures k <= |c| && forall j: nat :: j < Files(v, s[0].vol) ==> MarkFollows(v, s[0].vol, s[k].vol, c, k, j)
  {
    forall j: nat | j < Files(v, s[0].vol) ensures MarkFollows(v, s[0].vol, s[k].vol, c, k, j) {
      HistoryOfEntry(v, s, c, who, k, j + 1);
    }
  }

  /** Equal ownership, equal marks. */
  lemma SameOwners(v: Volume, s: State, t: State)
    requires VolumeOk(v, s.vol, s.files) && VolumeOk(v, t.vol, t.files) && AllClus(v, t.files) == AllClus(v, s.files)
    ensures Used(v, t.vol) == Used(v, s.vol)
  {
    assert RunKey(0);
    forall c: nat | c < v.NClusters() ensures c in Used(v, t.vol) <==> c in Used(v, s.vol) {
    }
  }

  // ---------------------------------------------------------------
  // What operations do
  // ---------------------------------------------------------------

  /** Some history that concerns only the files and inodes in "who" leads from s to t. */
  ghost predicate Reaches(v: Volume, s: State, t: State, who: set<nat>)
  {
    forall key {:trigger HistoryKey(key)} :: Folded(key) ==>
    exists ss: seq<State>, cs: seq<Change> :: History(v, ss, cs, who) && ss[0] == s && ss[|cs|] == t
  }

  lemma ReachesSame(v: Volume, s: State, who: set<nat>)
    ensures Reaches(v, s, s, who)
  {
    assert History(v, [s], [], who);
  }

  lemma ReachesOne(v: Volume, s: State, c: Change, t: State, who: set<nat>)
    requires Changes(v, s, c, t) && c.Within(who)
    ensures Reaches(v, s, t, who)
  {
    assert History(v, [s, t], [c], who);
  }

  lemma JoinedAt(s: seq<State>, c: seq<Change>, s': seq<State>, c': seq<Change>, k: nat)
    requires |s| == |c| + 1 && |s'| == |c'| + 1 && s[|c|] == s'[0] && k < |c + c'|
    ensures |s + s'[1..]| == |c + c'| + 1
    ensures var t, d, i := s + s'[1..], c + c', k - |c|;
      if k < |c| then t[k] == s[k] && t[k + 1] == s[k + 1] && d[k] == c[k]
      else t[k] == s'[i] && t[k + 1] == s'[i + 1] && d[k] == c'[i]
  {
  }

  lemma {:induction false} HistoriesJoined(v: Volume, s: seq<State>, c: seq<Change>, a: set<nat>, s': seq<State>, c': seq<Change>, b: set<nat>, who: set<nat>)
    requires History(v, s, c, a) && History(v, s', c', b) && s[|c|] == s'[0] && a <= who && b <= who
    ensures History(v, s + s'[1..], c + c', who) && (s + s'[1..])[|c + c'|] == s'[|c'|]
  {
    var t, d := s + s'[1..], c + c';
    forall k: nat | k < |d| ensures Changes(v, t[k], d[k], t[k + 1]) && d[k].Within(who) {
      JoinedAt(s, c, s', c', k);
      if k < |c| { Widened(c[k], a, who); } else { Widened(c'[k - |c|], b, who); }
    }
  }

  lemma Widened(c: Change, a: set<nat>, b: set<nat>)
    requires c.Within(a) && a <= b
    ensures c.Within(b)
  {
  }

  lemma ReachesOn(v: Volume, s: State, t: State, u: State, a: set<nat>, b: set<nat>, who: set<nat>)
    requires Reaches(v, s, t, a) && Reaches(v, t, u, b) && a <= who && b <= who
    ensures Reaches(v, s, u, who)
  {
    assert HistoryKey(0);
    var ss, cs :| History(v, ss, cs, a) && ss[0] == s && ss[|cs|] == t;
    var ts, ds :| History(v, ts, ds, b) && ts[0] == t && ts[|ds|] == u;
    HistoriesJoined(v, ss, cs, a, ts, ds, b, who);
  }

  /** What such operations keep. */
  lemma ReachesIsSafe(v: Volume, s: State, t: State, who: set<nat>)
    requires Reaches(v, s, t, who) && VolumeOk(v, s.vol, s.files) && IndexAreaOk(v, s.vol)
    ensures VolumeOk(v, t.vol, t.files) && SamePlaces(v, s.vol, t.vol)
  {
    assert HistoryKey(0);
    var ss, cs :| History(v, ss, cs, who) && ss[0] == s && ss[|cs|] == t;
    HistoryIsSafe(v, ss, cs, who, |cs|);
  }

  lemma ReachesKeepsFile(v: Volume, s: State, t: State, who: set<nat>, i: nat, n: nat)
    requires Reaches(v, s, t, who) && VolumeOk(v, s.vol, s.files) && IndexAreaOk(v, s.vol) && i !in who && HasBlocks(v, s, i, n)
    ensures SameFile(v, s, t, i, n)
  {
    assert HistoryKey(0);
    var ss, cs :| History(v, ss, cs, who) && ss[0] == s && ss[|cs|] == t;
    HistoryKeepsFile(v, ss, cs, who, |cs|, i, n);
  }

  lemma ReachesKeepsInode(v: Volume, s: State, t: State, who: set<nat>, m: nat)
    requires Reaches(v, s, t, who) && VolumeOk(v, s.vol, s.files) && IndexAreaOk(v, s.vol) && 1 <= m <= Files(v, s.vol) && m !in who
    ensures InodeBlock(v, m) < |s.vol| == |t.vol| && InodeAt(v, t.vol, m) == InodeAt(v, s.vol, m)
  {
    assert HistoryKey(0);
    var ss, cs :| History(v, ss, cs, who) && ss[0] == s && ss[|cs|] == t;
    HistoryOfEntry(v, ss, cs, who, |cs|, m);
  }
}
