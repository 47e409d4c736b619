/** What the checker says about a consistent volume. */
module CheckerLaws {
  import opened Bytes
  import opened Volumes
  import opened Allocation
  import opened VolumeRuns
  import opened CheckerClaims
  import opened Checker

  lemma {:induction false} IndexElems(v: Volume, files: map<nat, File>, n: nat, c: nat)
    ensures c in IndexClaims(v, files, n) <==> exists i: nat :: 1 <= i <= n && i in files && c in FileClaims(v, files[i])
  {
    if n > 0 {
      IndexElems(v, files, n - 1, c);
      if c in InodeClaims(v, files, n) { assert n in files && c in FileClaims(v, files[n]); }
    }
  }

  /** No file claims a cluster twice, and no two files claim the same one. */
  ghost predicate Apart(v: Volume, files: map<nat, File>)
  {
    && (forall i :: i in files ==> Distinct(FileClaims(v, files[i])))
    && forall i, j, c {:trigger c in FileClaims(v, files[i]), c in FileClaims(v, files[j])} ::
         i in files && j in files && i != j ==> !(c in FileClaims(v, files[i]) && c in FileClaims(v, files[j]))
  }

  lemma {:induction false} IndexDistinct(v: Volume, files: map<nat, File>, n: nat)
    requires Apart(v, files)
    ensures Distinct(IndexClaims(v, files, n))
  {
    if n > 0 {
      IndexDistinct(v, files, n - 1);
      forall c | c in IndexClaims(v, files, n - 1) ensures c !in InodeClaims(v, files, n) {
        IndexElems(v, files, n - 1, c);
      }
      DistinctAppend(IndexClaims(v, files, n - 1), InodeClaims(v, files, n));
    }
  }

  ghost predicate ClaimedBy(v: Volume, files: map<nat, File>, c: nat)
  {
    exists i :: i in files && c in FileClaims(v, files[i])
  }

  /** The system's own files are apart and take exactly the clusters below the file area. */
  ghost predicate SystemFiles(v: Volume, sys: map<nat, File>)
  {
    && Apart(v, sys)
    && forall c: nat {:trigger ClaimedBy(v, sys, c)} :: c < v.fileArea <==> ClaimedBy(v, sys, c)
  }

  /** Cluster c holds only a map block that the checker does not see. */
  ghost predicate Missed(v: Volume, files: map<nat, File>, c: nat)
  {
    exists i :: i in files && LastMapMissed(v, files[i]) && c == Shr(files[i].maps[|files[i].maps| - 1], v.clfactor)
  }

  lemma ClaimOfSound(v: Volume, vol: Image, f: File, c: nat)
    requires Sound(v, vol, f) && c in FileClaims(v, f)
    ensures c in Clus(v, f) && v.fileArea <= c < v.NClusters()
    ensures LastMapMissed(v, f) ==> c != Shr(f.maps[|f.maps| - 1], v.clfactor)
  {
    SoundFacts(v, vol, f);
    ClaimsAreClusters(v, vol, f);
    assert c in Elems(FileClaims(v, f));
  }

  lemma ClaimOwner(v: Volume, vol: Image, files: map<nat, File>, i: nat, c: nat)
    requires VolumeOk(v, vol, files) && i in files && c in FileClaims(v, files[i])
    ensures c in Clus(v, files[i]) && c in AllClus(v, files) && v.fileArea <= c < v.NClusters()
    ensures forall j :: j in files && j != i ==> c !in FileClaims(v, files[j])
  {
    assert Sound(v, vol, files[i]) by { assert RunKey(0); }
    ClaimOfSound(v, vol, files[i], c);
    forall j | j in files && j != i ensures c !in FileClaims(v, files[j]) {
      OtherDoesNotOwn(v, vol, files, i, j, c);
    }
  }

  lemma ClaimedNotMissed(v: Volume, vol: Image, files: map<nat, File>, i: nat, c: nat)
    requires VolumeOk(v, vol, files) && i in files && c in FileClaims(v, files[i])
    ensures !Missed(v, files, c)
  {
    assert Sound(v, vol, files[i]) by { assert RunKey(0); }
    ClaimOfSound(v, vol, files[i], c);
    forall j | j in files && LastMapMissed(v, files[j]) ensures c != Shr(files[j].maps[|files[j].maps| - 1], v.clfactor) {
      if j != i { OtherDoesNotOwn(v, vol, files, i, j, c); }
    }
  }

  lemma OtherDoesNotOwn(v: Volume, vol: Image, files: map<nat, File>, i: nat, j: nat, c: nat)
    requires VolumeOk(v, vol, files) && i in files && j in files && i != j && c in Clus(v, files[i])
    ensures c !in FileClaims(v, files[j])
    ensures LastMapMissed(v, files[j]) ==> c != Shr(files[j].maps[|files[j].maps| - 1], v.clfactor)
  {
    assert Sound(v, vol, files[j]) && c !in Clus(v, files[j]) by { assert RunKey(0); }
    ClaimsAreClusters(v, vol, files[j]);
    assert c !in Elems(FileClaims(v, files[j]));
  }

  lemma FilesApart(v: Volume, vol: Image, files: map<nat, File>)
    requires VolumeOk(v, vol, files)
    ensures Apart(v, files)
  {
    forall i | i in files ensures Distinct(FileClaims(v, files[i])) {
      assert RunKey(0);
      ClaimsAreClusters(v, vol, files[i]);
    }
    forall i, j, c | i in files && j in files && i != j && c in FileClaims(v, files[i]) ensures c !in FileClaims(v, files[j]) {
      ClaimOwner(v, vol, files, i, c);
    }
  }

  /** Every cluster of a live file is claimed unless it is missed. */
  lemma ClusterClaimed(v: Volume, vol: Image, files: map<nat, File>, c: nat)
    requires VolumeOk(v, vol, files) && c in AllClus(v, files) && !Missed(v, files, c)
    ensures ClaimedBy(v, files, c)
  {
    assert RunKey(0);
    var i :| i in files && c in Clus(v, files[i]);
    ClaimsAreClusters(v, vol, files[i]);
    assert c in Elems(FileClaims(v, files[i]));
  }

  /** On a volume in order, whose index holds the system's files and the live files, the checker
      finds no cluster allocated twice, and rebuilds the bitmap, up to the clusters it misses. */
  lemma ConsistentVolume(v: Volume, vol: Image, sys: map<nat, File>, files: map<nat, File>, n: nat)
    requires VolumeOk(v, vol, files) && SystemFiles(v, sys) && sys.Keys !! files.Keys
    requires forall i :: i in sys || i in files ==> 1 <= i <= n
    ensures Repeats({}, IndexClaims(v, sys + files, n)) == 0
    ensures forall c: nat :: c < v.NClusters() ==> (c in IndexClaims(v, sys + files, n) <==> c in Used(v, vol) && !Missed(v, files, c))
  {
    var all := sys + files;
    FilesApart(v, vol, files);
    AllApart(v, vol, sys, files);
    IndexDistinct(v, all, n);
    NoRepeats({}, IndexClaims(v, all, n));
    forall c: nat | c < v.NClusters() ensures c in IndexClaims(v, all, n) <==> c in Used(v, vol) && !Missed(v, files, c) {
      IndexElems(v, all, n, c);
      ClaimedIsUsed(v, vol, sys, files, c);
      assert ClaimedBy(v, all, c) <==> c in IndexClaims(v, all, n);
    }
  }

  lemma AllApart(v: Volume, vol: Image, sys: map<nat, File>, files: map<nat, File>)
    requires VolumeOk(v, vol, files) && SystemFiles(v, sys) && sys.Keys !! files.Keys && Apart(v, files)
    ensures Apart(v, sys + files)
  {
    var all := sys + files;
    forall i, j, c | i in all && j in all && i != j && c in FileClaims(v, all[i]) ensures c !in FileClaims(v, all[j]) {
      if i in files && j in sys {
        FileNotSystem(v, vol, sys, files, i, j, c);
      } else if i in sys && j in files {
        if c in FileClaims(v, files[j]) { FileNotSystem(v, vol, sys, files, j, i, c); }
      }
    }
  }

  lemma FileNotSystem(v: Volume, vol: Image, sys: map<nat, File>, files: map<nat, File>, i: nat, j: nat, c: nat)
    requires VolumeOk(v, vol, files) && SystemFiles(v, sys) && i in files && j in sys && c in FileClaims(v, files[i])
    ensures c !in FileClaims(v, sys[j])
  {
    ClaimOwner(v, vol, files, i, c);
    assert !ClaimedBy(v, sys, c);
  }

  lemma ClaimedIsUsed(v: Volume, vol: Image, sys: map<nat, File>, files: map<nat, File>, c: nat)
    requires VolumeOk(v, vol, files) && SystemFiles(v, sys) && sys.Keys !! files.Keys && c < v.NClusters()
    ensures ClaimedBy(v, sys + files, c) <==> c in Used(v, vol) && !Missed(v, files, c)
  {
    assert RunKey(0);
    var all := sys + files;
    if i :| i in all && c in FileClaims(v, all[i]) {
      if i in files {
        ClaimOwner(v, vol, files, i, c);
        ClaimedNotMissed(v, vol, files, i, c);
      } else {
        assert ClaimedBy(v, sys, c);
        SystemNotMissed(v, vol, files, c);
      }
    }
    if c in Used(v, vol) && !Missed(v, files, c) {
      if c < v.fileArea {
        assert ClaimedBy(v, sys, c);
        var i :| i in sys && c in FileClaims(v, sys[i]);
        assert i in all && all[i] == sys[i];
      } else {
        ClusterClaimed(v, vol, files, c);
        var i :| i in files && c in FileClaims(v, files[i]);
        assert i in all && all[i] == files[i];
      }
    }
  }

  lemma SystemNotMissed(v: Volume, vol: Image, files: map<nat, File>, c: nat)
    requires VolumeOk(v, vol, files) && c < v.fileArea
    ensures !Missed(v, files, c)
  {
    assert RunKey(0);
    forall i | i in files && LastMapMissed(v, files[i]) ensures c != Shr(files[i].maps[|files[i].maps| - 1], v.clfactor) {
      SoundFacts(v, vol, files[i]);
      ClaimsAreClusters(v, vol, files[i]);
    }
  }

  /** The rebuilt bitmap equals the one on disk if and only if no file has just filled its last
      map block. */
  lemma RebuiltIffNoneMissed(v: Volume, vol: Image, sys: map<nat, File>, files: map<nat, File>, n: nat)
    requires VolumeOk(v, vol, files) && SystemFiles(v, sys) && sys.Keys !! files.Keys
    requires forall i :: i in sys || i in files ==> 1 <= i <= n
    ensures (forall c: nat :: c < v.NClusters() ==> (c in IndexClaims(v, sys + files, n) <==> c in Used(v, vol)))
      <==> (forall i :: i in files ==> !LastMapMissed(v, files[i]))
  {
    ConsistentVolume(v, vol, sys, files, n);
    if i :| i in files && LastMapMissed(v, files[i]) {
      MissedFile(v, vol, files, i);
    } else {
      assert forall c: nat :: !Missed(v, files, c);
    }
  }

  lemma MissedFile(v: Volume, vol: Image, files: map<nat, File>, i: nat)
    requires VolumeOk(v, vol, files) && i in files && LastMapMissed(v, files[i])
    ensures exists c: nat :: c < v.NClusters() && c in Used(v, vol) && Missed(v, files, c)
  {
    assert RunKey(0);
    var c := Shr(files[i].maps[|files[i].maps| - 1], v.clfactor);
    ClaimsAreClusters(v, vol, files[i]);
    SoundFacts(v, vol, files[i]);
    assert Missed(v, files, c) && c in AllClus(v, files);
  }

  /** inodes = ixblks * 8, in 16 bits */
  function InodeCount(ixblks: nat): nat
  {
    ixblks * 8 % 0x1_0000
  }

  /** Every inode is looked at if and only if the index file has at most 8191 blocks; with 8192 of
      them the checker looks at none, and takes every cluster for free. */
  lemma AllInodesChecked(v: Volume, files: map<nat, File>, ixblks: nat)
    requires ixblks <= 8192
    ensures InodeCount(ixblks) == 8 * ixblks <==> ixblks <= 8191
    ensures ixblks == 8192 ==> IndexClaims(v, files, InodeCount(ixblks)) == []
  {
  }
}
