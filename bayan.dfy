/** The bayan scanner: its configuration, the minimum-size filter, the grouping of
    candidate files by size and the incremental block-by-block matcher. */
module BayanCore {
  import opened Reader
  import opened HashCalculators
  import opened FileStructs

  /** Groups are ranges of at least two positions inside [lo, hi), left to right and
      pairwise disjoint. */
  ghost predicate GroupsWithin(gs: seq<FileInfoGroup>, lo: int, hi: int) {
    (forall n :: 0 <= n < |gs| ==> lo <= gs[n].first && gs[n].first + 2 <= gs[n].second <= hi) &&
    (forall m, n :: 0 <= m < n < |gs| ==> gs[m].second <= gs[n].first)
  }

  /** Groups of [lo, hi) appended after groups of [0, lo) keep the groups left to right;
      the earlier ones are the prefix and the new ones the rest. */
  lemma GroupsAppend(gs: seq<FileInfoGroup>, hs: seq<FileInfoGroup>, lo: nat, hi: nat)
    requires lo <= hi
    requires GroupsWithin(gs, 0, lo) && GroupsWithin(hs, lo, hi)
    ensures GroupsWithin(gs + hs, 0, hi)
    ensures (gs + hs)[..|gs|] == gs && (gs + hs)[|gs|..] == hs
  {
    var js := gs + hs;
    forall n | 0 <= n < |js|
      ensures 0 <= js[n].first && js[n].first + 2 <= js[n].second <= hi
    {
      if n < |gs| {
        assert js[n] == gs[n];
      } else {
        assert js[n] == hs[n - |gs|];
      }
    }
    forall m, n | 0 <= m < n < |js|
      ensures js[m].second <= js[n].first
    {
      if n < |gs| {
        assert js[m] == gs[m] && js[n] == gs[n];
      } else if m < |gs| {
        assert js[m] == gs[m] && js[n] == hs[n - |gs|];
      } else {
        assert js[m] == hs[m - |gs|] && js[n] == hs[n - |gs|];
      }
    }
  }

  /** The stack of range ends: b at the bottom, strictly decreasing towards the top, and
      the current position l no further than the top. */
  ghost predicate StackShape(rstack: seq<nat>, b: nat, l: nat) {
    1 <= |rstack| && rstack[0] == b && l <= rstack[|rstack| - 1] &&
    (forall m :: 0 <= m < |rstack| ==> rstack[m] <= b) &&
    (forall m :: 0 < m < |rstack| ==> rstack[m] < rstack[m - 1])
  }

  /** Popping the top boundary leaves a shape in which any position up to the old top is
      a valid cursor. */
  lemma StackPop(rstack: seq<nat>, b: nat, l: nat, l': nat)
    requires StackShape(rstack, b, l) && |rstack| >= 2 && l' <= rstack[|rstack| - 1]
    ensures StackShape(rstack[..|rstack| - 1], b, l')
  {
  }

  /** Pushing a boundary strictly below the top keeps the shape. */
  lemma StackPush(rstack: seq<nat>, b: nat, l: nat, it: nat)
    requires StackShape(rstack, b, l) && l <= it < rstack[|rstack| - 1]
    ensures StackShape(rstack + [it], b, l)
  {
  }

  /** The record's calculator reads the record's own file and hashes with `hashers`. */
  ghost predicate Linked(f: FileStruct, disk: Disk, hashers: Hashers) {
    f.hasCalc != null && f.hasCalc.file == FileBytes(disk, f.path) && f.hasCalc.hashers == hashers
  }

  /** The record's calculator is a calculator of kind h and block size s on the record's
      file that has made its first call: its stream has read the first block and its
      stored hash is the hash of that block. */
  ghost predicate FirstBlockRead(f: FileStruct, disk: Disk, hashers: Hashers, h: HashAlg, s: nat)
    reads if f.hasCalc != null then {f.hasCalc} else {}
  {
    Linked(f, disk, hashers) && f.hasCalc.kind == h && f.hasCalc.blockSize == s &&
    f.hasCalc.ReadFrom(Initial(f.path in disk))
  }

  /** The record is linked, and its calculator is in `openCalcs` exactly when its file could
      be opened. */
  ghost predicate LinkedOpen(f: FileStruct, disk: Disk, hashers: Hashers, openCalcs: set<HashCalculator>) {
    Linked(f, disk, hashers) && (f.hasCalc in openCalcs <==> f.path in disk)
  }

  /** Every calculator of calcs has made at least one call on a stream that started open
      exactly when the calculator is in `openCalcs`, and stores the hash of the block its last
      call read. */
  ghost predicate AllHashed(calcs: set<HashCalculator>, openCalcs: set<HashCalculator>)
    reads calcs
  {
    forall c {:trigger CalcHashed(c, openCalcs)} :: c in calcs ==> CalcHashed(c, openCalcs)
  }

  /** The calculator stores the hash of the block its last call read, counting its calls
      from a stream that started open exactly when it is in openCalcs. */
  ghost predicate CalcHashed(c: HashCalculator, openCalcs: set<HashCalculator>)
    reads c
  {
    c.Hashed(c in openCalcs)
  }

  /** The record's calculator is of kind h and block size s on the record's own file, with
      the given hash functions; it has made at least one call and stores the hash of the
      block its last call read. */
  ghost predicate HashesOwnFile(f: FileStruct, disk: Disk, hashers: Hashers, h: HashAlg, s: int)
    reads if f.hasCalc != null then {f.hasCalc} else {}
  {
    Linked(f, disk, hashers) && f.hasCalc.kind == h && f.hasCalc.blockSize == s &&
    f.hasCalc.Hashed(f.path in disk)
  }

  /** Linked records whose calculators are all hashed and of kind h and block size s each
      hash their own file. */
  lemma OwnFileHashes(files: seq<FileStruct>, a: nat, b: nat, calcs: set<HashCalculator>,
                      openCalcs: set<HashCalculator>, disk: Disk, hashers: Hashers, h: HashAlg, s: int)
    requires a <= b <= |files|
    requires forall k :: a <= k < b ==> files[k].hasCalc in calcs
    requires forall k :: a <= k < b ==> LinkedOpen(files[k], disk, hashers, openCalcs)
    requires forall c :: c in calcs ==> c.kind == h && c.blockSize == s
    requires AllHashed(calcs, openCalcs)
    ensures forall k :: a <= k < b ==> HashesOwnFile(files[k], disk, hashers, h, s)
  {
    forall k | a <= k < b
      ensures HashesOwnFile(files[k], disk, hashers, h, s)
    {
      assert CalcHashed(files[k].hasCalc, openCalcs);
    }
  }

  /** Rearranging linked records keeps them linked, each to its own open flag. */
  lemma LinkedPermutation(s: seq<FileStruct>, t: seq<FileStruct>, disk: Disk, hashers: Hashers,
                          openCalcs: set<HashCalculator>)
    requires multiset(s) == multiset(t)
    requires forall k :: 0 <= k < |t| ==> LinkedOpen(t[k], disk, hashers, openCalcs)
    ensures forall k :: 0 <= k < |s| ==> LinkedOpen(s[k], disk, hashers, openCalcs)
  {
    forall k | 0 <= k < |s|
      ensures LinkedOpen(s[k], disk, hashers, openCalcs)
    {
      assert s[k] in multiset(t);
      var j :| 0 <= j < |t| && t[j] == s[k];
    }
  }

  /** Rearranging [a, b) of linked records keeps every record of [a, b) linked. */
  lemma LinkedRange(files: seq<FileStruct>, attached: seq<FileStruct>, a: nat, b: nat, disk: Disk, hashers: Hashers,
                    openCalcs: set<HashCalculator>)
    requires a <= b <= |files|
    requires multiset(files[a..b]) == multiset(attached)
    requires forall k :: 0 <= k < |attached| ==> LinkedOpen(attached[k], disk, hashers, openCalcs)
    ensures forall k :: a <= k < b ==> LinkedOpen(files[k], disk, hashers, openCalcs)
  {
    LinkedPermutation(files[a..b], attached, disk, hashers, openCalcs);
    assert forall k :: a <= k < b ==> files[k] == files[a..b][k - a];
  }

  /** Every record of [a, b) has its own calculator from `calcs`, all of one kind and one
      block size. */
  ghost predicate Attached(files: array<FileStruct>, a: nat, b: nat, calcs: set<HashCalculator>,
                           h: HashAlg, s: int)
    reads files
  {
    a <= b <= files.Length &&
    (forall k :: a <= k < b ==> files[k].hasCalc in calcs) &&
    (forall c :: c in calcs ==> c.kind == h && c.blockSize == s) &&
    DistinctCalcs(files[..], a, b)
  }

  /** The groups recorded so far lie in [a, l); each starts with a finished calculator
      that compares equal to every calculator of its group; MD5 records none. */
  ghost predicate Recorded(files: array<FileStruct>, a: nat, b: nat, l: nat, res: seq<FileInfoGroup>,
                           calcs: set<HashCalculator>, h: HashAlg, s: int)
    requires Attached(files, a, b, calcs, h, s)
    reads files, calcs
  {
    l <= b && GroupsWithin(res, a, l) &&
    (forall n :: 0 <= n < |res| ==> files[res[n].first].hasCalc.finish) &&
    (forall n, k :: 0 <= n < |res| && res[n].first <= k < res[n].second ==>
      files[res[n].first].hasCalc.IsEqual(files[k].hasCalc)) &&
    (h == Md5 ==> res == [])
  }

  /** The passes of the size loop so far: consecutive non-empty ranges that tile [0, hi). */
  ghost predicate Tiles(runs: seq<FileInfoGroup>, hi: nat) {
    (|runs| == 0 ==> hi == 0) &&
    (|runs| > 0 ==> runs[0].first == 0 && runs[|runs| - 1].second == hi) &&
    (forall i :: 0 <= i < |runs| ==> runs[i].first < runs[i].second <= hi) &&
    (forall i :: 0 < i < |runs| ==> runs[i - 1].second == runs[i].first)
  }

  /** Every run holds records of one size, and no record after a run has that size. */
  ghost predicate SizeRuns(files: seq<FileStruct>, runs: seq<FileInfoGroup>) {
    (forall i :: 0 <= i < |runs| ==> runs[i].first < runs[i].second <= |files|) &&
    (forall i, k :: 0 <= i < |runs| && runs[i].first <= k < runs[i].second ==>
      files[k].fileSize == files[runs[i].first].fileSize) &&
    (forall i, k :: 0 <= i < |runs| && runs[i].second <= k < |files| ==>
      files[k].fileSize != files[runs[i].first].fileSize)
  }

  /** A group lies inside one of the runs. */
  ghost predicate InSomeRun(g: FileInfoGroup, runs: seq<FileInfoGroup>) {
    exists i :: 0 <= i < |runs| && runs[i].first <= g.first && g.second <= runs[i].second
  }

  /** The groups of the runs joined in pass order. */
  ghost function Joined(perRun: seq<seq<FileInfoGroup>>): seq<FileInfoGroup>
    decreases |perRun|
  {
    if perRun == [] then [] else Joined(perRun[..|perRun| - 1]) + perRun[|perRun| - 1]
  }

  /** perRun[i] holds the groups found in the i-th run: they lie inside it, and a run of
      one record has none. */
  ghost predicate RunGroups(perRun: seq<seq<FileInfoGroup>>, runs: seq<FileInfoGroup>) {
    |perRun| == |runs| &&
    (forall i :: 0 <= i < |runs| ==> GroupsWithin(perRun[i], runs[i].first, runs[i].second)) &&
    (forall i :: 0 <= i < |runs| && runs[i].first + 1 == runs[i].second ==> perRun[i] == [])
  }

  /** One more pass adds its groups after those of the earlier passes. */
  lemma RunGroupsExtend(perRun: seq<seq<FileInfoGroup>>, runs: seq<FileInfoGroup>,
                        gs: seq<FileInfoGroup>, r: FileInfoGroup)
    requires RunGroups(perRun, runs)
    requires GroupsWithin(gs, r.first, r.second)
    requires r.first + 1 == r.second ==> gs == []
    ensures RunGroups(perRun + [gs], runs + [r])
    ensures Joined(perRun + [gs]) == Joined(perRun) + gs
  {
    assert (perRun + [gs])[..|perRun|] == perRun;
  }

  /** Every group of the joined per-run lists lies in some run. */
  lemma {:induction false} JoinedInRuns(perRun: seq<seq<FileInfoGroup>>, runs: seq<FileInfoGroup>)
    requires RunGroups(perRun, runs)
    ensures forall n :: 0 <= n < |Joined(perRun)| ==> InSomeRun(Joined(perRun)[n], runs)
    decreases |perRun|
  {
    if perRun != [] {
      var p, rs, last := perRun[..|perRun| - 1], runs[..|runs| - 1], runs[|runs| - 1];
      assert RunGroups(p, rs);
      JoinedInRuns(p, rs);
      assert runs == rs + [last];
      InSomeRunExtend(Joined(p), rs, last);
      forall n | 0 <= n < |Joined(perRun)|
        ensures InSomeRun(Joined(perRun)[n], runs)
      {
        if n < |Joined(p)| {
          assert Joined(perRun)[n] == Joined(p)[n];
        } else {
          var g := perRun[|perRun| - 1][n - |Joined(p)|];
          assert Joined(perRun)[n] == g;
          assert last.first <= g.first && g.second <= last.second;
        }
      }
    }
  }

  /** `gs` is the groups of the runs in pass order: its tail is the groups of the last run,
      which lie inside that run (none for a run of one), and what comes before splits the
      same way over the earlier runs. */
  ghost predicate SplitsInto(gs: seq<FileInfoGroup>, perRun: seq<seq<FileInfoGroup>>, runs: seq<FileInfoGroup>)
    decreases |perRun|
  {
    if perRun == [] then gs == [] && runs == []
    else
      var n := |perRun| - 1;
      |runs| == |perRun| && |perRun[n]| <= |gs| &&
      gs[|gs| - |perRun[n]|..] == perRun[n] &&
      GroupsWithin(perRun[n], runs[n].first, runs[n].second) &&
      (runs[n].first + 1 == runs[n].second ==> perRun[n] == []) &&
      SplitsInto(gs[..|gs| - |perRun[n]|], perRun[..n], runs[..n])
  }

  /** The split is the per-run lists of RunGroups, joined. */
  lemma {:induction false} SplitsIntoJoined(gs: seq<FileInfoGroup>, perRun: seq<seq<FileInfoGroup>>,
                                            runs: seq<FileInfoGroup>)
    requires SplitsInto(gs, perRun, runs)
    ensures RunGroups(perRun, runs) && gs == Joined(perRun)
    decreases |perRun|
  {
    if perRun != [] {
      var n := |perRun| - 1;
      var front := gs[..|gs| - |perRun[n]|];
      SplitsIntoJoined(front, perRun[..n], runs[..n]);
      assert perRun == perRun[..n] + [perRun[n]];
      assert runs == runs[..n] + [runs[n]];
      RunGroupsExtend(perRun[..n], runs[..n], perRun[n], runs[n]);
      assert gs == front + perRun[n];
    }
  }

  /** A pass that keeps the earlier groups as a prefix and adds groups inside its run
      (none for a run of one) extends the split by what it added. */
  lemma SplitsIntoPass(gs: seq<FileInfoGroup>, gs': seq<FileInfoGroup>, perRun: seq<seq<FileInfoGroup>>,
                       runs: seq<FileInfoGroup>, r: FileInfoGroup)
    requires SplitsInto(gs, perRun, runs)
    requires |gs| <= |gs'| && gs'[..|gs|] == gs
    requires GroupsWithin(gs'[|gs|..], r.first, r.second)
    requires r.first + 1 == r.second ==> gs' == gs
    ensures SplitsInto(gs', perRun + [gs'[|gs|..]], runs + [r])
  {
    var p', rs' := perRun + [gs'[|gs|..]], runs + [r];
    assert p'[..|perRun|] == perRun && rs'[..|runs|] == runs;
  }

  /** The groups of a size loop lie in its runs. */
  lemma GroupsInRuns(gs: seq<FileInfoGroup>, perRun: seq<seq<FileInfoGroup>>, runs: seq<FileInfoGroup>)
    requires RunGroups(perRun, runs) && gs == Joined(perRun)
    ensures forall n :: 0 <= n < |gs| ==> InSomeRun(gs[n], runs)
  {
    JoinedInRuns(perRun, runs);
  }

  /** Rearranging the records after the runs keeps the runs as they are. */
  lemma RunsKeepSuffixOut(before: seq<FileStruct>, after: seq<FileStruct>, lo: nat, runs: seq<FileInfoGroup>)
    requires lo <= |before| == |after|
    requires forall k :: 0 <= k < lo ==> after[k] == before[k]
    requires multiset(Infos(after[lo..])) == multiset(Infos(before[lo..]))
    requires Tiles(runs, lo) && SizeRuns(before, runs)
    ensures SizeRuns(after, runs)
  {
    forall i | 0 <= i < |runs|
      ensures forall k :: lo <= k < |after| ==> after[k].fileSize != after[runs[i].first].fileSize
    {
      var z := before[runs[i].first].fileSize;
      assert forall k :: 0 <= k < |before[lo..]| ==> before[lo..][k].fileSize != z;
      SameSizes(after[lo..], before[lo..], z);
      forall k | lo <= k < |after|
        ensures after[k].fileSize != z
      {
        assert after[k] == after[lo..][k - lo];
      }
    }
  }

  /** A pass that puts the records of one size at [lo, mid) and none of that size after
      mid adds a run. */
  lemma ExtendRuns(files: seq<FileStruct>, runs: seq<FileInfoGroup>, lo: nat, mid: nat)
    requires lo < mid <= |files|
    requires Tiles(runs, lo) && SizeRuns(files, runs)
    requires forall k :: lo <= k < mid ==> files[k].fileSize == files[lo].fileSize
    requires forall k :: mid <= k < |files| ==> files[k].fileSize != files[lo].fileSize
    ensures Tiles(runs + [FileInfoGroup(lo, mid)], mid)
    ensures SizeRuns(files, runs + [FileInfoGroup(lo, mid)])
  {
  }

  /** Rearranging the last run keeps every run as it is. */
  lemma RunKeepsSize(before: seq<FileStruct>, after: seq<FileStruct>, runs: seq<FileInfoGroup>, lo: nat, hi: nat)
    requires lo < hi <= |before| == |after|
    requires forall k :: 0 <= k < |before| && !(lo <= k < hi) ==> after[k] == before[k]
    requires multiset(Infos(after[lo..hi])) == multiset(Infos(before[lo..hi]))
    requires Tiles(runs, hi) && SizeRuns(before, runs)
    requires |runs| > 0 && runs[|runs| - 1] == FileInfoGroup(lo, hi)
    ensures SizeRuns(after, runs)
  {
    var z := before[lo].fileSize;
    assert forall k :: 0 <= k < |before[lo..hi]| ==> before[lo..hi][k].fileSize == z;
    SameSizes(after[lo..hi], before[lo..hi], z);
    assert forall k :: lo <= k < hi ==> after[k] == after[lo..hi][k - lo];
    forall i | 0 <= i < |runs| - 1
      ensures runs[i].second <= lo
    {
      RunsOrdered(runs, i, |runs| - 1);
    }
  }

  lemma {:induction false} RunsOrdered(runs: seq<FileInfoGroup>, i: nat, j: nat)
    requires i < j < |runs|
    requires forall n :: 0 <= n < |runs| ==> runs[n].first < runs[n].second
    requires forall n :: 0 < n < |runs| ==> runs[n - 1].second == runs[n].first
    ensures runs[i].second <= runs[j].first
    decreases j - i
  {
    if i + 1 < j {
      RunsOrdered(runs, i + 1, j);
    }
  }

  /** What the size loop keeps after `it` records: its passes tile [0, it) in runs of one
      size each, the groups of each run lie inside it, and the groups so far are those of
      the runs in pass order, none under MD5. */
  ghost predicate SizeLoopInv(s: seq<FileStruct>, it: nat, runs: seq<FileInfoGroup>,
                              fileGroups: seq<FileInfoGroup>, perRun: seq<seq<FileInfoGroup>>, md5: bool)
  {
    it <= |s| && |runs| <= it && Tiles(runs, it) && SizeRuns(s, runs) &&
    GroupsWithin(fileGroups, 0, it) && SplitsInto(fileGroups, perRun, runs) &&
    (md5 ==> fileGroups == [])
  }

  /** The calculators attached to the records. */
  ghost function CalcsOf(s: seq<FileStruct>): set<object> {
    set k | 0 <= k < |s| && s[k].hasCalc != null :: s[k].hasCalc as object
  }

  /** A reported group: every record of it has a calculator of kind h and block size bs
      that hashes the record's own file, the first one is finished and compares equal to
      all of them. */
  ghost predicate GroupOk(s: seq<FileStruct>, g: FileInfoGroup, disk: Disk, hashers: Hashers, h: HashAlg, bs: int)
    reads CalcsOf(s)
  {
    g.first < g.second <= |s| &&
    (forall k :: g.first <= k < g.second ==> s[k].hasCalc != null) &&
    (forall k :: g.first <= k < g.second ==> HashesOwnFile(s[k], disk, hashers, h, bs)) &&
    s[g.first].hasCalc.finish &&
    (forall k :: g.first <= k < g.second ==> s[g.first].hasCalc.IsEqual(s[k].hasCalc))
  }

  ghost predicate Found(s: seq<FileStruct>, gs: seq<FileInfoGroup>, disk: Disk, hashers: Hashers, h: HashAlg, bs: int)
    reads CalcsOf(s)
  {
    forall n :: 0 <= n < |gs| ==> GroupOk(s, gs[n], disk, hashers, h, bs)
  }

  lemma FoundConcat(s: seq<FileStruct>, gs: seq<FileInfoGroup>, hs: seq<FileInfoGroup>,
                    disk: Disk, hashers: Hashers, h: HashAlg, bs: int)
    requires Found(s, gs, disk, hashers, h, bs) && Found(s, hs, disk, hashers, h, bs)
    ensures Found(s, gs + hs, disk, hashers, h, bs)
  {
    forall n | 0 <= n < |gs + hs|
      ensures GroupOk(s, (gs + hs)[n], disk, hashers, h, bs)
    {
      if n < |gs| {
        assert (gs + hs)[n] == gs[n];
      } else {
        assert (gs + hs)[n] == hs[n - |gs|];
      }
    }
  }

  /** Groups found in a prefix are found in any longer list that starts with it. */
  lemma FoundPrefix(s: seq<FileStruct>, t: seq<FileStruct>, gs: seq<FileInfoGroup>,
                    disk: Disk, hashers: Hashers, h: HashAlg, bs: int)
    requires |s| <= |t| && t[..|s|] == s
    requires Found(s, gs, disk, hashers, h, bs)
    ensures Found(t, gs, disk, hashers, h, bs)
  {
    forall n | 0 <= n < |gs|
      ensures GroupOk(t, gs[n], disk, hashers, h, bs)
    {
      assert GroupOk(s, gs[n], disk, hashers, h, bs);
      forall k | gs[n].first <= k < gs[n].second
        ensures t[k] == s[k]
      {
        assert t[..|s|][k] == s[k];
      }
    }
  }

  /** The groups makeHashGroups returns on [lo, hi) are reported groups. */
  lemma FoundRecorded(files: array<FileStruct>, lo: nat, hi: nat, res: seq<FileInfoGroup>,
                      disk: Disk, hashers: Hashers, h: HashAlg, bs: int)
    requires lo <= hi <= files.Length
    requires forall k :: lo <= k < hi ==> files[k].hasCalc != null
    requires forall k :: lo <= k < hi ==> HashesOwnFile(files[k], disk, hashers, h, bs)
    requires GroupsWithin(res, lo, hi)
    requires forall n :: 0 <= n < |res| ==> files[res[n].first].hasCalc.finish
    requires forall n, k :: 0 <= n < |res| && res[n].first <= k < res[n].second ==>
      files[res[n].first].hasCalc.IsEqual(files[k].hasCalc)
    ensures Found(files[..hi], res, disk, hashers, h, bs)
  {
    forall n | 0 <= n < |res|
      ensures GroupOk(files[..hi], res[n], disk, hashers, h, bs)
    {
      assert files[..hi][res[n].first] == files[res[n].first];
      forall k | res[n].first <= k < res[n].second
        ensures files[..hi][k] == files[k]
      {
      }
    }
  }


  lemma InSomeRunExtend(gs: seq<FileInfoGroup>, runs: seq<FileInfoGroup>, r: FileInfoGroup)
    requires forall n :: 0 <= n < |gs| ==> InSomeRun(gs[n], runs)
    ensures forall n :: 0 <= n < |gs| ==> InSomeRun(gs[n], runs + [r])
  {
    forall n | 0 <= n < |gs|
      ensures InSomeRun(gs[n], runs + [r])
    {
      var i :| 0 <= i < |runs| && runs[i].first <= gs[n].first && gs[n].second <= runs[i].second;
      assert (runs + [r])[i] == runs[i];
    }
  }

  /** Moving the cursor right keeps the recorded groups recorded. */
  lemma RecordedAdvance(files: array<FileStruct>, a: nat, b: nat, l: nat, l': nat, res: seq<FileInfoGroup>,
                        calcs: set<HashCalculator>, h: HashAlg, s: int)
    requires Attached(files, a, b, calcs, h, s)
    requires Recorded(files, a, b, l, res, calcs, h, s)
    requires l <= l' <= b
    ensures Recorded(files, a, b, l', res, calcs, h, s)
  {
  }

  /** Recording [l, it) when the calculator at l is finished and all of [l, it) compare
      equal to it. */
  lemma RecordedAdd(files: array<FileStruct>, a: nat, b: nat, l: nat, it: nat, res: seq<FileInfoGroup>,
                    calcs: set<HashCalculator>, h: HashAlg, s: int)
    requires Attached(files, a, b, calcs, h, s)
    requires Recorded(files, a, b, l, res, calcs, h, s)
    requires a <= l && l + 2 <= it <= b
    requires files[l].hasCalc.finish
    requires forall i :: l <= i < it ==> files[l].hasCalc.IsEqual(files[i].hasCalc)
    ensures Recorded(files, a, b, it, res + [FileInfoGroup(l, it)], calcs, h, s)
  {
    var res' := res + [FileInfoGroup(l, it)];
    assert files[l].hasCalc.IsEqual(files[l + 1].hasCalc);
    assert forall n :: 0 <= n < |res| ==> res'[n] == res[n];
  }

  /** The records of a group all have one size: a group lies inside a run. */
  lemma GroupSameSize(files: seq<FileStruct>, runs: seq<FileInfoGroup>, g: FileInfoGroup, k: nat)
    requires SizeRuns(files, runs) && InSomeRun(g, runs)
    requires g.first <= k < g.second
    ensures files[k].fileSize == files[g.first].fileSize
  {
    var i :| 0 <= i < |runs| && runs[i].first <= g.first && g.second <= runs[i].second;
    assert files[k].fileSize == files[runs[i].first].fileSize;
  }

  /** Two different passes of the size loop collect two different sizes. */
  lemma RunsDistinctSizes(files: seq<FileStruct>, runs: seq<FileInfoGroup>, hi: nat, i: nat, j: nat)
    requires Tiles(runs, hi) && SizeRuns(files, runs)
    requires i < j < |runs|
    ensures files[runs[i].first].fileSize != files[runs[j].first].fileSize
  {
    RunsOrdered(runs, i, j);
  }

  /** One file the directory walk hands to checkSize (a regular file that is not a symbolic
      link and whose name matches the mask), paired with the size that checkSize asks the
      file system for. */
  datatype Candidate = Candidate(path: Path, size: nat)

  /** What checkSize keeps of the walk, in walk order, for the minimum size m. */
  function Kept(walk: seq<Candidate>, m: int): (r: seq<FileInfo>)
    ensures |r| <= |walk|
    ensures forall i :: 0 <= i < |r| ==> m <= 0 || r[i].fileSize > m
    decreases |walk|
  {
    if walk == [] then []
    else
      var c := walk[|walk| - 1];
      Kept(walk[..|walk| - 1], m) + (if m <= 0 || c.size > m then [FileInfo(c.path, c.size)] else [])
  }

  /** One more record of the walk adds at most that record. */
  lemma KeptStep(walk: seq<Candidate>, i: nat, m: int)
    requires i < |walk|
    ensures Kept(walk[..i + 1], m) ==
      Kept(walk[..i], m) + if m <= 0 || walk[i].size > m then [FileInfo(walk[i].path, walk[i].size)] else []
  {
    assert walk[..i + 1][..i] == walk[..i];
  }

  /** No record has a calculator attached yet. */
  ghost predicate NoCalcs(s: seq<FileStruct>) {
    forall k :: 0 <= k < |s| ==> s[k].hasCalc == null
  }

  /** What a list extended by checkSize says: what it said before, then the new record if
      it passed the filter. */
  lemma CheckedInfos(checkFiles: seq<FileStruct>, r: seq<FileStruct>, file: Path, fSize: nat, m: int)
    requires |checkFiles| <= |r| <= |checkFiles| + 1 && r[..|checkFiles|] == checkFiles
    requires |r| == |checkFiles| + 1 <==> m <= 0 || fSize > m
    requires |r| == |checkFiles| + 1 ==> r[|checkFiles|] == FileStruct(file, fSize, null)
    requires NoCalcs(checkFiles)
    ensures Infos(r) == Infos(checkFiles) + if m <= 0 || fSize > m then [FileInfo(file, fSize)] else []
    ensures NoCalcs(r)
  {
    if |r| == |checkFiles| + 1 {
      assert r == checkFiles + [r[|checkFiles|]];
      InfosConcat(checkFiles, [r[|checkFiles|]]);
    } else {
      assert r == checkFiles;
    }
  }

  /** A record is kept iff the walk found it and it passes the size filter. */
  lemma {:induction false} KeptIff(walk: seq<Candidate>, m: int, x: FileInfo)
    ensures x in Kept(walk, m) <==> Candidate(x.path, x.fileSize) in walk && (m <= 0 || x.fileSize > m)
    decreases |walk|
  {
    if walk != [] {
      var init := walk[..|walk| - 1];
      KeptIff(init, m, x);
      assert walk == init + [walk[|walk| - 1]];
    }
  }

  class Bayan {
    var includeDirs: seq<Path>
    var excludeDirs: seq<Path>
    /** m_scan_level */
    var scanLevel: int
    /** m_minimum_size */
    var minimumSize: int
    var mask: string
    /** m_size_block */
    var sizeBlock: int
    /** m_hash */
    var hash: HashAlg

    /** bayan(): the vectors and the mask start empty; the numbers and the algorithm are
        left unset until their setters run. */
    constructor ()
      ensures includeDirs == [] && excludeDirs == [] && mask == ""
    {
      includeDirs := [];
      excludeDirs := [];
      mask := "";
    }

    method SetIncludeDirs(dirs: seq<Path>) returns (ok: bool)
      modifies this`includeDirs
      ensures ok && includeDirs == dirs
    {
      includeDirs := dirs;
      ok := true;
    }

    method SetExcludeDirs(dirs: seq<Path>) returns (ok: bool)
      modifies this`excludeDirs
      ensures ok && excludeDirs == dirs
    {
      excludeDirs := dirs;
      ok := true;
    }

    /** A negative level becomes 0. */
    method SetLevel(lvl: int) returns (ok: bool)
      modifies this`scanLevel
      ensures ok && scanLevel >= 0
      ensures scanLevel == if lvl >= 0 then lvl else 0
    {
      if lvl >= 0 {
        scanLevel := lvl;
      } else {
        scanLevel := 0;
      }
      ok := true;
    }

    /** A minimum size of 0 or less becomes 1. */
    method SetFileSize(fsize: int) returns (ok: bool)
      modifies this`minimumSize
      ensures ok && minimumSize >= 1
      ensures minimumSize == if fsize > 0 then fsize else 1
    {
      if fsize > 0 {
        minimumSize := fsize;
      } else {
        minimumSize := 1;
      }
      ok := true;
    }

    /** A block size of 0 or less becomes 1. */
    method SetBlockSize(bsize: int) returns (ok: bool)
      modifies this`sizeBlock
      ensures ok && sizeBlock >= 1
      ensures sizeBlock == if bsize > 0 then bsize else 1
    {
      if bsize > 0 {
        sizeBlock := bsize;
      } else {
        sizeBlock := 1;
      }
      ok := true;
    }

    method SetMask(m: string) returns (ok: bool)
      modifies this`mask
      ensures ok && mask == m
    {
      mask := m;
      ok := true;
    }

    /** "md5" selects MD5; "crc32" and every other string select CRC-32. */
    method SetHash(h: string) returns (ok: bool)
      modifies this`hash
      ensures ok
      ensures hash == Md5 <==> h == "md5"
    {
      if h == "crc32" {
        hash := Crc32;
      } else if h == "md5" {
        hash := Md5;
      } else {
        hash := Crc32;
      }
      ok := true;
    }

    /** checkSize: appends the file if its size is above a positive minimum (any file when
        the minimum is not positive); the list is otherwise unchanged. */
    method CheckSize(file: Path, fSize: nat, checkFiles: seq<FileStruct>) returns (r: seq<FileStruct>)
      ensures |checkFiles| <= |r| <= |checkFiles| + 1 && r[..|checkFiles|] == checkFiles
      ensures |r| == |checkFiles| + 1 <==> minimumSize <= 0 || fSize > minimumSize
      ensures |r| == |checkFiles| + 1 ==> r[|checkFiles|] == FileStruct(file, fSize, null)
    {
      if minimumSize > 0 {
        if fSize > minimumSize {
          r := checkFiles + [FileStruct(file, fSize, null)];
        } else {
          r := checkFiles;
        }
      } else {
        r := checkFiles + [FileStruct(file, fSize, null)];
      }
    }

    /** makeHashCalculator: a fresh calculator of the requested kind on the file. */
    method MakeHashCalculator(path: Path, h: HashAlg, blockSize: nat, disk: Disk, hashers: Hashers)
      returns (c: HashCalculator)
      ensures fresh(c)
      ensures c.kind == h && c.blockSize == blockSize && c.hashers == hashers
      ensures c.file == FileBytes(disk, path)
      ensures c.State() == Initial(path in disk)
    {
      if h == Crc32 {
        c := new HashCalculator.Crc32Calculator(path, disk, hashers, blockSize);
      } else {
        c := new HashCalculator.Md5Calculator(path, disk, hashers, blockSize);
      }
    }

    /** The body of the for_each at bayan.cpp:254-258 for the record at i: a fresh
        calculator on the record's file is attached to it and hashes its first block. */
    method AttachOne(files: array<FileStruct>, i: nat, disk: Disk, hashers: Hashers,
                     ghost a: nat, ghost calcs: set<HashCalculator>, ghost openCalcs: set<HashCalculator>)
      returns (ghost c: HashCalculator, ghost openCalcs': set<HashCalculator>)
      requires a <= i < files.Length && sizeBlock >= 1
      requires AllHashed(calcs, openCalcs)
      requires forall k :: a <= k < i ==> files[k].hasCalc in calcs
      requires forall k :: a <= k < i ==> (files[k].hasCalc in openCalcs <==> files[k].path in disk)
      modifies files
      ensures fresh(c) && files[i] == old(files[i]).(hasCalc := c)
      ensures FirstBlockRead(files[i], disk, hashers, hash, sizeBlock)
      ensures forall k :: 0 <= k < files.Length && k != i ==> files[k] == old(files[k])
      ensures openCalcs' == if files[i].path in disk then openCalcs + {c} else openCalcs
      ensures AllHashed(calcs + {c}, openCalcs')
      ensures forall k :: a <= k <= i ==> (files[k].hasCalc in openCalcs' <==> files[k].path in disk)
    {
      var made := MakeHashCalculator(files[i].path, hash, sizeBlock, disk, hashers);
      files[i] := files[i].(hasCalc := made);
      made.GetCurrentHash();
      c := made;
      openCalcs' := if files[i].path in disk then openCalcs + {c} else openCalcs;
      forall x | x in calcs + {c}
        ensures CalcHashed(x, openCalcs')
      {
        if x == c {
          assert c.HashedAfter(c in openCalcs', 1);
        } else {
          assert CalcHashed(x, openCalcs) && (x in openCalcs' <==> x in openCalcs);
        }
      }
    }

    /** The for_each at bayan.cpp:254-258: a fresh calculator on its own file for every
        record of [a, b), each of which then hashes its first block. */
    method AttachCalculators(files: array<FileStruct>, a: nat, b: nat, disk: Disk, hashers: Hashers)
      returns (ghost calcs: set<HashCalculator>, ghost openCalcs: set<HashCalculator>)
      requires a <= b <= files.Length
      requires sizeBlock >= 1
      modifies files
      ensures fresh(calcs)
      ensures AllHashed(calcs, openCalcs)
      ensures forall k :: a <= k < b ==> (files[k].hasCalc in openCalcs <==> files[k].path in disk)
      ensures forall c :: c in calcs ==> c.kind == hash && c.blockSize == sizeBlock
      ensures forall k :: a <= k < b ==> files[k].hasCalc in calcs
      ensures forall k :: a <= k < b ==>
        Info(files[k]) == Info(old(files[k])) && FirstBlockRead(files[k], disk, hashers, hash, sizeBlock)
      ensures DistinctCalcs(files[..], a, b)
      ensures forall k :: 0 <= k < files.Length && !(a <= k < b) ==> files[k] == old(files[k])
    {
      calcs, openCalcs := {}, {};
      var i := a;
      while i < b
        invariant a <= i <= b
        invariant fresh(calcs)
        invariant AllHashed(calcs, openCalcs)
        invariant forall k :: a <= k < i ==> (files[k].hasCalc in openCalcs <==> files[k].path in disk)
        invariant forall c :: c in calcs ==> c.kind == hash && c.blockSize == sizeBlock
        invariant forall k :: a <= k < i ==> files[k].hasCalc in calcs
        invariant forall k :: a <= k < i ==>
          Info(files[k]) == Info(old(files[k])) && FirstBlockRead(files[k], disk, hashers, hash, sizeBlock)
        invariant DistinctCalcs(files[..], a, i)
        invariant forall k :: 0 <= k < files.Length && !(a <= k < i) ==> files[k] == old(files[k])
      {
        ghost var c;
        c, openCalcs := AttachOne(files, i, disk, hashers, a, calcs, openCalcs);
        calcs := calcs + {c};
        i := i + 1;
      }
    }

    /** getCurrentHash on one calculator of calcs: it reads its next block, and every
        calculator of calcs still stores the hash of the block its last call read. */
    method HashNext(c: HashCalculator, ghost calcs: set<HashCalculator>, ghost openCalcs: set<HashCalculator>)
      requires c in calcs && AllHashed(calcs, openCalcs)
      modifies c
      ensures c.ReadFrom(old(c.State()))
      ensures AllHashed(calcs, openCalcs)
    {
      assert CalcHashed(c, openCalcs);
      ghost var j: nat :| c.HashedAfter(c in openCalcs, j);
      c.GetCurrentHash();
      assert c.HashedAfter(c in openCalcs, j + 1);
    }

    /** The for_each at bayan.cpp:295-298: every calculator of [lo, hi) reads its next block
        and stores the hash of that block; the calculators elsewhere in [a, b) are untouched. */
    method AdvanceWindow(files: array<FileStruct>, lo: nat, hi: nat,
                         ghost a: nat, ghost b: nat, ghost calcs: set<HashCalculator>,
                         ghost openCalcs: set<HashCalculator>)
      requires a <= lo <= hi <= b <= files.Length
      requires forall k :: a <= k < b ==> files[k].hasCalc in calcs
      requires DistinctCalcs(files[..], a, b)
      requires AllHashed(calcs, openCalcs)
      modifies calcs
      ensures AllHashed(calcs, openCalcs)
      ensures forall k :: a <= k < b && !(lo <= k < hi) ==> unchanged(files[k].hasCalc)
      ensures forall k :: lo <= k < hi ==> files[k].hasCalc.ReadFrom(old(files[k].hasCalc.State()))
      ensures forall k :: lo <= k < hi ==> files[k].hasCalc.Unread() <= old(files[k].hasCalc.Unread())
      ensures forall k :: lo <= k < hi && files[k].hasCalc.blockSize > 0 && !old(files[k].hasCalc.finish) ==>
        files[k].hasCalc.Unread() < old(files[k].hasCalc.Unread())
    {
      var k := lo;
      while k < hi
        invariant lo <= k <= hi
        invariant forall p :: a <= p < b && !(lo <= p < k) ==> unchanged(files[p].hasCalc)
        invariant forall p :: lo <= p < k ==> files[p].hasCalc.ReadFrom(old(files[p].hasCalc.State()))
        invariant AllHashed(calcs, openCalcs)
      {
        HashNext(files[k].hasCalc, calcs, openCalcs);
        k := k + 1;
      }
      forall p | lo <= p < hi
        ensures files[p].hasCalc.Unread() <= old(files[p].hasCalc.Unread())
        ensures files[p].hasCalc.blockSize > 0 && !old(files[p].hasCalc.finish) ==>
          files[p].hasCalc.Unread() < old(files[p].hasCalc.Unread())
      {
        var c := files[p].hasCalc;
        AdvanceDecreases(c.file, c.blockSize, old(c.State()));
      }
    }

    /** The std::partition at bayan.cpp:265-268 inside [a, b): only [l, top) is
        rearranged, so the groups recorded in [a, l) keep their calculators. */
    method PartitionRange(files: array<FileStruct>, a: nat, b: nat, l: nat, top: nat,
                          res: seq<FileInfoGroup>, ghost calcs: set<HashCalculator>)
      returns (it: nat)
      requires a <= l <= top <= b
      requires Attached(files, a, b, calcs, hash, sizeBlock)
      requires Recorded(files, a, b, l, res, calcs, hash, sizeBlock)
      modifies files
      ensures Attached(files, a, b, calcs, hash, sizeBlock)
      ensures Recorded(files, a, b, l, res, calcs, hash, sizeBlock)
      ensures l <= it <= top
      ensures l < top ==> files[l] == old(files[l]) && l < it
      ensures forall i :: l <= i < it ==> files[l].hasCalc.IsEqual(files[i].hasCalc)
      ensures forall k :: 0 <= k < files.Length && !(l <= k < top) ==> files[k] == old(files[k])
      ensures multiset(files[a..b]) == multiset(old(files[a..b]))
    {
      ghost var before := files[..];
      it := PartitionByHash(files, l, top, a, b, calcs);
      MultisetSplice(before, files[..], a, l, top, b);
    }

    /** The for_each at bayan.cpp:295-298 as the matcher uses it: the range [l, hi) that
        starts with an unfinished calculator reads its next block; the groups recorded in
        [a, l) are untouched and the calculator at l gets closer to finishing. */
    method ReadNextBlock(files: array<FileStruct>, a: nat, b: nat, l: nat, hi: nat,
                         res: seq<FileInfoGroup>, ghost calcs: set<HashCalculator>,
                         ghost openCalcs: set<HashCalculator>)
      requires a <= l < hi <= b && sizeBlock >= 1
      requires Attached(files, a, b, calcs, hash, sizeBlock)
      requires Recorded(files, a, b, l, res, calcs, hash, sizeBlock)
      requires !files[l].hasCalc.finish
      requires AllHashed(calcs, openCalcs)
      modifies calcs
      ensures Recorded(files, a, b, l, res, calcs, hash, sizeBlock)
      ensures AllHashed(calcs, openCalcs)
      ensures files[l].hasCalc.Unread() < old(files[l].hasCalc.Unread())
    {
      AdvanceWindow(files, l, hi, a, b, calcs, openCalcs);
    }

    /** One pass of the while loop at bayan.cpp:263-299: partition [l, top) by the
        calculator at l, then move on by one record, drop an exhausted range, record a
        finished group, or push the new boundary and read the next block of the range. */
    method MatchStep(files: array<FileStruct>, a: nat, b: nat, l: nat, rstack: seq<nat>,
                     res: seq<FileInfoGroup>, ghost calcs: set<HashCalculator>,
                     ghost openCalcs: set<HashCalculator>)
      returns (l': nat, rstack': seq<nat>, res': seq<FileInfoGroup>)
      requires sizeBlock >= 1 && a <= l < b
      requires Attached(files, a, b, calcs, hash, sizeBlock)
      requires AllHashed(calcs, openCalcs)
      requires StackShape(rstack, b, l)
      requires Recorded(files, a, b, l, res, calcs, hash, sizeBlock)
      modifies files, calcs
      ensures Attached(files, a, b, calcs, hash, sizeBlock)
      ensures AllHashed(calcs, openCalcs)
      ensures a <= l' <= b && StackShape(rstack', b, l')
      ensures Recorded(files, a, b, l', res', calcs, hash, sizeBlock)
      ensures forall k :: 0 <= k < files.Length && !(a <= k < b) ==> files[k] == old(files[k])
      ensures multiset(files[a..b]) == multiset(old(files[a..b]))
      ensures l < l' || (l' == l && files[l] == old(files[l]) && files[l].hasCalc != null &&
        (files[l].hasCalc.Unread() < old(files[l].hasCalc.Unread()) ||
         (files[l].hasCalc.Unread() == old(files[l].hasCalc.Unread()) && |rstack'| < |rstack|)))
    {
      var top := rstack[|rstack| - 1];
      assert top <= b;
      var it := PartitionRange(files, a, b, l, top, res, calcs);
      var d := it - l;
      if d == 1 {
        l', rstack', res' := l + 1, rstack, res;
        RecordedAdvance(files, a, b, l, l', res, calcs, hash, sizeBlock);
      } else if d == 0 {
        l', rstack', res' := top, rstack[..|rstack| - 1], res;
        StackPop(rstack, b, l, l');
        RecordedAdvance(files, a, b, l, l', res, calcs, hash, sizeBlock);
      } else if files[l].hasCalc.IsFinish() {
        res' := res + [FileInfoGroup(l, it)];
        l' := it;
        RecordedAdd(files, a, b, l, it, res, calcs, hash, sizeBlock);
        if top != b {
          rstack' := rstack[..|rstack| - 1];
          StackPop(rstack, b, l, l');
        } else {
          rstack' := rstack;
        }
      } else {
        l', res' := l, res;
        if top != it {
          rstack' := rstack + [it];
          StackPush(rstack, b, l, it);
        } else {
          rstack' := rstack;
        }
        ReadNextBlock(files, a, b, l, rstack'[|rstack'| - 1], res, calcs, openCalcs);
      }
    }

    /** The while loop at bayan.cpp:260-299 over [a, b), whose records all have their
        calculators: the cursor starts at a with b alone on the stack, and when it reaches b
        the groups recorded lie in [a, b) and [a, b) has only been rearranged. */
    method MatchLoop(files: array<FileStruct>, a: nat, b: nat, ghost calcs: set<HashCalculator>,
                     ghost openCalcs: set<HashCalculator>)
      returns (res: seq<FileInfoGroup>)
      requires sizeBlock >= 1
      requires Attached(files, a, b, calcs, hash, sizeBlock)
      requires AllHashed(calcs, openCalcs)
      modifies files, calcs
      ensures Attached(files, a, b, calcs, hash, sizeBlock)
      ensures AllHashed(calcs, openCalcs)
      ensures Recorded(files, a, b, b, res, calcs, hash, sizeBlock)
      ensures forall k :: 0 <= k < files.Length && !(a <= k < b) ==> files[k] == old(files[k])
      ensures multiset(files[a..b]) == multiset(old(files[a..b]))
    {
      res := [];
      var l := a;
      var rstack: seq<nat> := [b];
      while l != b
        invariant a <= l <= b
        invariant Attached(files, a, b, calcs, hash, sizeBlock)
        invariant AllHashed(calcs, openCalcs)
        invariant StackShape(rstack, b, l)
        invariant Recorded(files, a, b, l, res, calcs, hash, sizeBlock)
        invariant forall k :: 0 <= k < files.Length && !(a <= k < b) ==> files[k] == old(files[k])
        invariant multiset(files[a..b]) == multiset(old(files[a..b]))
        decreases b - l, if l < b then files[l].hasCalc.Unread() else 0, |rstack|
      {
        l, rstack, res := MatchStep(files, a, b, l, rstack, res, calcs, openCalcs);
      }
    }

    /** makeHashGroups: refines [a, b) block by block and returns the duplicate groups it
        finds, as ranges of positions. [a, b) is only rearranged; when a group [x, y) is
        recorded, the calculator at x is finished and every calculator of [x, y) compares
        equal to it. Under MD5 no group is ever recorded. */
    method MakeHashGroups(files: array<FileStruct>, a: nat, b: nat, disk: Disk, hashers: Hashers)
      returns (res: seq<FileInfoGroup>)
      requires a <= b <= files.Length
      requires sizeBlock >= 1
      modifies files
      ensures forall k :: 0 <= k < files.Length && !(a <= k < b) ==> files[k] == old(files[k])
      ensures multiset(Infos(files[a..b])) == multiset(Infos(old(files[a..b])))
      ensures forall k :: a <= k < b ==> files[k].hasCalc != null
      ensures forall k :: a <= k < b ==> HashesOwnFile(files[k], disk, hashers, hash, sizeBlock)
      ensures a == b ==> res == []
      ensures GroupsWithin(res, a, b)
      ensures forall n :: 0 <= n < |res| ==> files[res[n].first].hasCalc.finish
      ensures forall n, k :: 0 <= n < |res| && res[n].first <= k < res[n].second ==>
        files[res[n].first].hasCalc.IsEqual(files[k].hasCalc)
      ensures hash == Md5 ==> res == []
    {
      if a == b {
        return [];
      }
      ghost var calcs, openCalcs := AttachCalculators(files, a, b, disk, hashers);
      ghost var attached := files[a..b];
      InfosPermutation(files[a..b], attached);
      assert forall k :: 0 <= k < |attached| ==> LinkedOpen(attached[k], disk, hashers, openCalcs);
      assert Infos(attached) == Infos(old(files[a..b]));

      res := MatchLoop(files, a, b, calcs, openCalcs);
      InfosPermutation(files[a..b], attached);
      LinkedRange(files[..], attached, a, b, disk, hashers, openCalcs);
      OwnFileHashes(files[..], a, b, calcs, openCalcs, disk, hashers, hash, sizeBlock);
    }

    /** The std::partition at bayan.cpp:219-222: the records of [lo, N) whose size is that
        of the record at lo move to the front; the runs already made keep their records. */
    method SizePass(files: array<FileStruct>, lo: nat, ghost runs: seq<FileInfoGroup>) returns (mid: nat)
      requires lo < files.Length
      requires Tiles(runs, lo) && SizeRuns(files[..], runs)
      modifies files
      ensures lo < mid <= files.Length
      ensures Tiles(runs + [FileInfoGroup(lo, mid)], mid)
      ensures SizeRuns(files[..], runs + [FileInfoGroup(lo, mid)])
      ensures multiset(Infos(files[..])) == multiset(Infos(old(files[..])))
      ensures forall k :: 0 <= k < lo ==> files[k] == old(files[k])
    {
      ghost var before := files[..];
      var z := files[lo].fileSize;
      mid := PartitionBySize(files, lo, files.Length, z);
      assert files[lo..files.Length] == files[lo..] && before[lo..files.Length] == before[lo..];
      InfosPermutation(files[lo..], before[lo..]);
      InfosSplice(before, files[..], lo, files.Length);
      RunsKeepSuffixOut(before, files[..], lo, runs);
      ExtendRuns(files[..], runs, lo, mid);
    }

    /** makeHashGroups keeps the groups found so far before a, whose records and
        calculators it does not touch. This is MakeHashGroups with one more frame fact;
        it is a separate method so that the fact is proved once, away from the matcher's
        own proof. */
    method MakeHashGroupsKeeping(files: array<FileStruct>, a: nat, b: nat, disk: Disk, hashers: Hashers,
                                 ghost fileGroups: seq<FileInfoGroup>)
      returns (res: seq<FileInfoGroup>)
      requires a <= b <= files.Length
      requires sizeBlock >= 1
      requires Found(files[..a], fileGroups, disk, hashers, hash, sizeBlock)
      modifies files
      ensures forall k :: 0 <= k < files.Length && !(a <= k < b) ==> files[k] == old(files[k])
      ensures multiset(Infos(files[a..b])) == multiset(Infos(old(files[a..b])))
      ensures forall k :: a <= k < b ==> files[k].hasCalc != null
      ensures forall k :: a <= k < b ==> HashesOwnFile(files[k], disk, hashers, hash, sizeBlock)
      ensures GroupsWithin(res, a, b)
      ensures forall n :: 0 <= n < |res| ==> files[res[n].first].hasCalc.finish
      ensures forall n, k :: 0 <= n < |res| && res[n].first <= k < res[n].second ==>
        files[res[n].first].hasCalc.IsEqual(files[k].hasCalc)
      ensures hash == Md5 ==> res == []
      ensures Found(files[..a], fileGroups, disk, hashers, hash, sizeBlock)
    {
      ghost var done := files[..a];
      res := MakeHashGroups(files, a, b, disk, hashers);
      assert files[..a] == done;
    }

    /** bayan.cpp:228-231: a run of two or more records of one size goes to makeHashGroups
        and its groups are appended to those of the earlier runs, which stay as they were. */
    method MatchRun(files: array<FileStruct>, lo: nat, hi: nat, ghost runs: seq<FileInfoGroup>,
                    fileGroups: seq<FileInfoGroup>, disk: Disk, hashers: Hashers)
      returns (fileGroups': seq<FileInfoGroup>)
      requires sizeBlock >= 1 && lo + 2 <= hi <= files.Length
      requires Tiles(runs, hi) && SizeRuns(files[..], runs)
      requires |runs| > 0 && runs[|runs| - 1] == FileInfoGroup(lo, hi)
      requires GroupsWithin(fileGroups, 0, lo)
      requires Found(files[..lo], fileGroups, disk, hashers, hash, sizeBlock)
      requires hash == Md5 ==> fileGroups == []
      modifies files
      ensures SizeRuns(files[..], runs)
      ensures multiset(Infos(files[..])) == multiset(Infos(old(files[..])))
      ensures |fileGroups| <= |fileGroups'| && fileGroups'[..|fileGroups|] == fileGroups
      ensures GroupsWithin(fileGroups'[|fileGroups|..], lo, hi)
      ensures GroupsWithin(fileGroups', 0, hi)
      ensures Found(files[..hi], fileGroups', disk, hashers, hash, sizeBlock)
      ensures hash == Md5 ==> fileGroups' == []
    {
      ghost var before := files[..];
      var sizeGroups := MakeHashGroupsKeeping(files, lo, hi, disk, hashers, fileGroups);
      FoundPrefix(files[..lo], files[..hi], fileGroups, disk, hashers, hash, sizeBlock);
      FoundRecorded(files, lo, hi, sizeGroups, disk, hashers, hash, sizeBlock);
      FoundConcat(files[..hi], fileGroups, sizeGroups, disk, hashers, hash, sizeBlock);
      InfosSplice(before, files[..], lo, hi);
      RunKeepsSize(before, files[..], runs, lo, hi);
      GroupsAppend(fileGroups, sizeGroups, lo, hi);
      fileGroups' := fileGroups + sizeGroups;
    }

    /** One pass of the for loop at bayan.cpp:215-232. */
    method SizeStep(files: array<FileStruct>, prevIt: nat, fileGroups: seq<FileInfoGroup>,
                    ghost runs: seq<FileInfoGroup>, disk: Disk, hashers: Hashers)
      returns (it: nat, fileGroups': seq<FileInfoGroup>, ghost runs': seq<FileInfoGroup>)
      requires sizeBlock >= 1 && prevIt < files.Length
      requires Tiles(runs, prevIt) && SizeRuns(files[..], runs)
      requires GroupsWithin(fileGroups, 0, prevIt)
      requires Found(files[..prevIt], fileGroups, disk, hashers, hash, sizeBlock)
      requires hash == Md5 ==> fileGroups == []
      modifies files
      ensures prevIt < it <= files.Length && runs' == runs + [FileInfoGroup(prevIt, it)]
      ensures Tiles(runs', it) && SizeRuns(files[..], runs')
      ensures multiset(Infos(files[..])) == multiset(Infos(old(files[..])))
      ensures |fileGroups| <= |fileGroups'| && fileGroups'[..|fileGroups|] == fileGroups
      ensures GroupsWithin(fileGroups'[|fileGroups|..], prevIt, it)
      ensures it - prevIt == 1 ==> fileGroups' == fileGroups
      ensures GroupsWithin(fileGroups', 0, it)
      ensures Found(files[..it], fileGroups', disk, hashers, hash, sizeBlock)
      ensures hash == Md5 ==> fileGroups' == []
    {
      it := SizePassKeeping(files, prevIt, runs, fileGroups, disk, hashers);
      runs' := runs + [FileInfoGroup(prevIt, it)];
      if it - prevIt != 1 {
        fileGroups' := MatchRun(files, prevIt, it, runs', fileGroups, disk, hashers);
      } else {
        fileGroups' := fileGroups;
        FoundPrefix(files[..prevIt], files[..it], fileGroups, disk, hashers, hash, sizeBlock);
      }
    }

    /** SizeStep seen from the size loop: one pass keeps the loop's invariant. */
    method SizeLoopStep(files: array<FileStruct>, prevIt: nat, fileGroups: seq<FileInfoGroup>,
                        ghost runs: seq<FileInfoGroup>, ghost perRun: seq<seq<FileInfoGroup>>,
                        disk: Disk, hashers: Hashers)
      returns (it: nat, fileGroups': seq<FileInfoGroup>, ghost runs': seq<FileInfoGroup>,
               ghost perRun': seq<seq<FileInfoGroup>>)
      requires sizeBlock >= 1 && prevIt < files.Length
      requires SizeLoopInv(files[..], prevIt, runs, fileGroups, perRun, hash == Md5)
      requires Found(files[..prevIt], fileGroups, disk, hashers, hash, sizeBlock)
      modifies files
      ensures prevIt < it && |runs'| == |runs| + 1
      ensures SizeLoopInv(files[..], it, runs', fileGroups', perRun', hash == Md5)
      ensures multiset(Infos(files[..])) == multiset(Infos(old(files[..])))
      ensures Found(files[..it], fileGroups', disk, hashers, hash, sizeBlock)
    {
      it, fileGroups', runs' := SizeStep(files, prevIt, fileGroups, runs, disk, hashers);
      SplitsIntoPass(fileGroups, fileGroups', perRun, runs, FileInfoGroup(prevIt, it));
      perRun' := perRun + [fileGroups'[|fileGroups|..]];
    }

    /** SizePass keeps the groups found so far in the records it does not move. This is
        SizePass with one more frame fact, proved here once rather than inside the pass. */
    method SizePassKeeping(files: array<FileStruct>, lo: nat, ghost runs: seq<FileInfoGroup>,
                           ghost fileGroups: seq<FileInfoGroup>, ghost disk: Disk,
                           ghost hashers: Hashers) returns (mid: nat)
      requires lo < files.Length
      requires Tiles(runs, lo) && SizeRuns(files[..], runs)
      requires Found(files[..lo], fileGroups, disk, hashers, hash, sizeBlock)
      modifies files
      ensures lo < mid <= files.Length
      ensures Tiles(runs + [FileInfoGroup(lo, mid)], mid)
      ensures SizeRuns(files[..], runs + [FileInfoGroup(lo, mid)])
      ensures multiset(Infos(files[..])) == multiset(Infos(old(files[..])))
      ensures Found(files[..lo], fileGroups, disk, hashers, hash, sizeBlock)
    {
      ghost var done := files[..lo];
      mid := SizePass(files, lo, runs);
      assert files[..lo] == done;
    }

    /** The grouping half of scan (bayan.cpp:210-233): an empty list gives no groups;
        otherwise the size loop runs. The ghost `runs` are the passes in order and
        `perRun[i]` the groups of the i-th run. */
    method GroupBySize(files: array<FileStruct>, disk: Disk, hashers: Hashers)
      returns (fileGroups: seq<FileInfoGroup>, ghost runs: seq<FileInfoGroup>, ghost passes: nat,
               ghost perRun: seq<seq<FileInfoGroup>>)
      requires sizeBlock >= 1
      modifies files
      ensures multiset(Infos(files[..])) == multiset(Infos(old(files[..])))
      ensures passes == |runs| <= files.Length
      ensures Tiles(runs, files.Length)
      ensures SizeRuns(files[..], runs)
      ensures GroupsWithin(fileGroups, 0, files.Length)
      ensures RunGroups(perRun, runs) && fileGroups == Joined(perRun)
      ensures Found(files[..], fileGroups, disk, hashers, hash, sizeBlock)
      ensures hash == Md5 ==> fileGroups == []
    {
      if files.Length == 0 {
        return [], [], 0, [];
      }
      fileGroups, runs, passes, perRun := SizeLoop(files, disk, hashers);
      SplitsIntoJoined(fileGroups, perRun, runs);
    }

    /** The for loop at bayan.cpp:215-232: each pass moves the records of the first
        remaining record's size to the front of the rest, skips a run of one and hands a
        longer run to makeHashGroups, appending its groups. */
    method SizeLoop(files: array<FileStruct>, disk: Disk, hashers: Hashers)
      returns (fileGroups: seq<FileInfoGroup>, ghost runs: seq<FileInfoGroup>, ghost passes: nat,
               ghost perRun: seq<seq<FileInfoGroup>>)
      requires sizeBlock >= 1
      modifies files
      ensures multiset(Infos(files[..])) == multiset(Infos(old(files[..])))
      ensures passes == |runs|
      ensures SizeLoopInv(files[..], files.Length, runs, fileGroups, perRun, hash == Md5)
      ensures Found(files[..], fileGroups, disk, hashers, hash, sizeBlock)
    {
      fileGroups, runs, passes, perRun := [], [], 0, [];
      var it := 0;
      while it != files.Length
        invariant passes == |runs|
        invariant SizeLoopInv(files[..], it, runs, fileGroups, perRun, hash == Md5)
        invariant multiset(Infos(files[..])) == multiset(Infos(old(files[..])))
        invariant Found(files[..it], fileGroups, disk, hashers, hash, sizeBlock)
        decreases files.Length - it
      {
        it, fileGroups, runs, perRun := SizeLoopStep(files, it, fileGroups, runs, perRun, disk, hashers);
        passes := passes + 1;
      }
      assert files[..it] == files[..];
    }

    /** The checkSize calls of the directory walk at bayan.cpp:182-191, in walk order: the
        records kept are exactly those above the minimum size, none with a calculator yet. */
    method CheckAll(walk: seq<Candidate>) returns (filesInfo: seq<FileStruct>)
      ensures Infos(filesInfo) == Kept(walk, minimumSize)
      ensures NoCalcs(filesInfo)
    {
      filesInfo := [];
      var i := 0;
      while i < |walk|
        invariant 0 <= i <= |walk|
        invariant Infos(filesInfo) == Kept(walk[..i], minimumSize)
        invariant NoCalcs(filesInfo)
      {
        var next := CheckSize(walk[i].path, walk[i].size, filesInfo);
        KeptStep(walk, i, minimumSize);
        CheckedInfos(filesInfo, next, walk[i].path, walk[i].size, minimumSize);
        filesInfo := next;
        i := i + 1;
      }
      assert walk[..i] == walk;
    }

    /** scan (bayan.cpp:172-234) after the directory walk: `walk` is the files the walk
        hands to checkSize, in order, each with its size. The kept records become the
        fileStruct vector; an empty one gives no groups, otherwise it is grouped by size and
        then by content. Every group holds records of one size. The vector is returned with
        the groups, which stay ranges of it; in the source the vector is local to scan. */
    method Scan(walk: seq<Candidate>, disk: Disk, hashers: Hashers)
      returns (files: array<FileStruct>, fileGroups: seq<FileInfoGroup>)
      requires sizeBlock >= 1
      ensures fresh(files)
      ensures multiset(Infos(files[..])) == multiset(Kept(walk, minimumSize))
      ensures Kept(walk, minimumSize) == [] ==> fileGroups == []
      ensures GroupsWithin(fileGroups, 0, files.Length)
      ensures forall n, k :: 0 <= n < |fileGroups| && fileGroups[n].first <= k < fileGroups[n].second ==>
        files[k].fileSize == files[fileGroups[n].first].fileSize
      ensures Found(files[..], fileGroups, disk, hashers, hash, sizeBlock)
      ensures hash == Md5 ==> fileGroups == []
    {
      var filesInfo := CheckAll(walk);
      files := new FileStruct[|filesInfo|](k requires 0 <= k < |filesInfo| => filesInfo[k]);
      assert files[..] == filesInfo;
      if |filesInfo| == 0 {
        return files, [];
      }
      ghost var runs, passes, perRun;
      fileGroups, runs, passes, perRun := GroupBySize(files, disk, hashers);
      GroupsInRuns(fileGroups, perRun, runs);
      forall n, k | 0 <= n < |fileGroups| && fileGroups[n].first <= k < fileGroups[n].second
        ensures files[k].fileSize == files[fileGroups[n].first].fileSize
      {
        GroupSameSize(files[..], runs, fileGroups[n], k);
      }
    }
  }
}
