/** fileStruct records, the ranges that name groups of them, and the two std::partition
    calls that rearrange them in place. */
module FileStructs {
  import opened HashCalculators

  /** fileStruct: a path and a size, with a calculator that is attached only when matching
      starts (null until then). */
  datatype FileStruct = FileStruct(path: Path, fileSize: nat, hasCalc: HashCalculator?)

  /** FileInfoGroup: a half-open range [first, second) of positions in the one fileStruct
      vector, never a copy of the records. */
  datatype FileInfoGroup = FileInfoGroup(first: nat, second: nat)

  /** What a record says about its file, without the calculator. */
  datatype FileInfo = FileInfo(path: Path, fileSize: nat)

  function Info(f: FileStruct): FileInfo {
    FileInfo(f.path, f.fileSize)
  }

  function Infos(s: seq<FileStruct>): (r: seq<FileInfo>)
    ensures |r| == |s|
    ensures forall i :: 0 <= i < |s| ==> r[i] == Info(s[i])
  {
    seq(|s|, i requires 0 <= i < |s| => Info(s[i]))
  }

  lemma RemoveAt<T>(t: seq<T>, j: nat)
    requires j < |t|
    ensures multiset(t[..j] + t[j + 1..]) == multiset(t) - multiset{t[j]}
  {
    assert t == t[..j] + [t[j]] + t[j + 1..];
  }

  lemma InfosRemoveAt(t: seq<FileStruct>, j: nat)
    requires j < |t|
    ensures multiset(Infos(t)) == multiset(Infos(t[..j] + t[j + 1..])) + multiset{Info(t[j])}
  {
    var it := Infos(t);
    var rest := t[..j] + t[j + 1..];
    assert Infos(rest) == it[..j] + it[j + 1..];
    RemoveAt(it, j);
    assert it[j] in multiset(it);
  }

  /** Taking away the first record of s and an equal record of t keeps them permutations
      of each other. */
  lemma DropMatched<T>(s: seq<T>, t: seq<T>, j: nat)
    requires s != [] && j < |t| && t[j] == s[0]
    requires multiset(s) == multiset(t)
    ensures multiset(s[1..]) == multiset(t[..j] + t[j + 1..])
  {
    RemoveAt(t, j);
    assert s == [s[0]] + s[1..];
  }

  lemma InfosCons(s: seq<FileStruct>)
    requires s != []
    ensures multiset(Infos(s)) == multiset{Info(s[0])} + multiset(Infos(s[1..]))
  {
    assert Infos(s) == [Info(s[0])] + Infos(s[1..]);
  }

  /** Rearranging records rearranges what they say: a permutation of records is a
      permutation of their (path, size) pairs. */
  lemma {:induction false} InfosPermutation(s: seq<FileStruct>, t: seq<FileStruct>)
    requires multiset(s) == multiset(t)
    ensures multiset(Infos(s)) == multiset(Infos(t))
    decreases |s|
  {
    if s != [] {
      assert s[0] in multiset(t);
      var j :| 0 <= j < |t| && t[j] == s[0];
      DropMatched(s, t, j);
      InfosPermutation(s[1..], t[..j] + t[j + 1..]);
      InfosRemoveAt(t, j);
      InfosCons(s);
    }
  }

  /** Rearranging [lo, hi) inside [a, b) rearranges [a, b). */
  lemma MultisetSplice<T>(s0: seq<T>, s1: seq<T>, a: nat, lo: nat, hi: nat, b: nat)
    requires a <= lo <= hi <= b <= |s0| == |s1|
    requires forall k :: a <= k < b && !(lo <= k < hi) ==> s1[k] == s0[k]
    requires multiset(s1[lo..hi]) == multiset(s0[lo..hi])
    ensures multiset(s1[a..b]) == multiset(s0[a..b])
  {
    assert s1[a..b] == s1[a..lo] + s1[lo..hi] + s1[hi..b];
    assert s0[a..b] == s0[a..lo] + s0[lo..hi] + s0[hi..b];
    assert s1[a..lo] == s0[a..lo];
    assert s1[hi..b] == s0[hi..b];
  }

  lemma InfosConcat(s: seq<FileStruct>, t: seq<FileStruct>)
    ensures Infos(s + t) == Infos(s) + Infos(t)
  {
  }

  /** Rearranging what [lo, hi) says, and changing nothing else, keeps what the whole
      sequence says. */
  lemma InfosSplice(s0: seq<FileStruct>, s1: seq<FileStruct>, lo: nat, hi: nat)
    requires lo <= hi <= |s0| == |s1|
    requires forall k :: 0 <= k < |s0| && !(lo <= k < hi) ==> s1[k] == s0[k]
    requires multiset(Infos(s1[lo..hi])) == multiset(Infos(s0[lo..hi]))
    ensures multiset(Infos(s1)) == multiset(Infos(s0))
  {
    assert s0 == s0[..lo] + s0[lo..hi] + s0[hi..];
    assert s1 == s1[..lo] + s1[lo..hi] + s1[hi..];
    assert s1[..lo] == s0[..lo];
    assert s1[hi..] == s0[hi..];
    InfosConcat(s0[..lo] + s0[lo..hi], s0[hi..]);
    InfosConcat(s0[..lo], s0[lo..hi]);
    InfosConcat(s1[..lo] + s1[lo..hi], s1[hi..]);
    InfosConcat(s1[..lo], s1[lo..hi]);
  }

  /** If two lists of records say the same things, a size that all (or none) of one has,
      all (or none) of the other has. */
  lemma SameSizes(s: seq<FileStruct>, t: seq<FileStruct>, z: nat)
    requires multiset(Infos(s)) == multiset(Infos(t))
    ensures (forall k :: 0 <= k < |t| ==> t[k].fileSize == z) ==> forall k :: 0 <= k < |s| ==> s[k].fileSize == z
    ensures (forall k :: 0 <= k < |t| ==> t[k].fileSize != z) ==> forall k :: 0 <= k < |s| ==> s[k].fileSize != z
  {
    forall k | 0 <= k < |s|
      ensures exists j :: 0 <= j < |t| && t[j].fileSize == s[k].fileSize
    {
      assert Infos(s)[k] in multiset(Infos(t));
      var j :| 0 <= j < |t| && Infos(t)[j] == Infos(s)[k];
    }
  }

  /** No two positions of [lo, hi) share a calculator object. */
  ghost predicate DistinctCalcs(s: seq<FileStruct>, lo: int, hi: int) {
    0 <= lo <= hi <= |s| &&
    forall i, j :: lo <= i < j < hi ==> s[i].hasCalc != s[j].hasCalc
  }

  /** Under MD5, with one calculator per record, the partition at bayan.cpp:265 puts only
      the record at l itself in front: every non-empty partition has d == 1. */
  lemma Md5SingleMatch(files: seq<FileStruct>, a: nat, b: nat, l: nat, it: nat)
    requires DistinctCalcs(files, a, b) && a <= l < it <= b
    requires forall k :: a <= k < b ==> files[k].hasCalc != null
    requires files[l].hasCalc.kind == Md5
    requires forall i :: l <= i < it ==> files[l].hasCalc.IsEqual(files[i].hasCalc)
    ensures it == l + 1
  {
    if l + 1 < b {
      assert !files[l].hasCalc.IsEqual(files[l + 1].hasCalc);
    }
  }

  /** Exchanges two records of [lo, hi), which therefore stays a permutation of itself. */
  method Swap(files: array<FileStruct>, i: nat, j: nat, ghost lo: nat, ghost hi: nat)
    requires lo <= i < j < hi <= files.Length
    modifies files
    ensures files[i] == old(files[j]) && files[j] == old(files[i])
    ensures forall k :: 0 <= k < files.Length && k != i && k != j ==> files[k] == old(files[k])
    ensures multiset(files[lo..hi]) == multiset(old(files[lo..hi]))
  {
    ghost var s := files[lo..hi];
    files[i], files[j] := files[j], files[i];
    assert files[lo..hi] == s[i - lo := s[j - lo]][j - lo := s[i - lo]];
  }

  /** The std::partition at bayan.cpp:219: records of size `size` first. */
  method PartitionBySize(files: array<FileStruct>, lo: nat, hi: nat, size: nat) returns (mid: nat)
    requires lo <= hi <= files.Length
    modifies files
    ensures lo <= mid <= hi
    ensures lo < hi && old(files[lo]).fileSize == size ==> lo < mid
    ensures forall i :: lo <= i < mid ==> files[i].fileSize == size
    ensures forall i :: mid <= i < hi ==> files[i].fileSize != size
    ensures multiset(files[lo..hi]) == multiset(old(files[lo..hi]))
    ensures forall i :: 0 <= i < files.Length && !(lo <= i < hi) ==> files[i] == old(files[i])
  {
    var i, j := lo, hi;
    while i < j
      invariant lo <= i <= j <= hi
      invariant lo < hi && old(files[lo]).fileSize == size ==> files[lo] == old(files[lo])
      invariant forall k :: lo <= k < i ==> files[k].fileSize == size
      invariant forall k :: j <= k < hi ==> files[k].fileSize != size
      invariant multiset(files[lo..hi]) == multiset(old(files[lo..hi]))
      invariant forall k :: 0 <= k < files.Length && !(lo <= k < hi) ==> files[k] == old(files[k])
    {
      if files[i].fileSize == size {
        i := i + 1;
      } else if files[j - 1].fileSize != size {
        j := j - 1;
      } else {
        Swap(files, i, j - 1, lo, hi);
        i, j := i + 1, j - 1;
      }
    }
    mid := i;
  }

  /** One step of the partition at bayan.cpp:265: the record at i is settled as equal to
      the one at lo, or the record at j - 1 as unequal, or the two are exchanged. */
  method PartitionByHashStep(files: array<FileStruct>, lo: nat, hi: nat, i: nat, j: nat,
                             ghost a: nat, ghost b: nat, ghost calcs: set<HashCalculator>)
    returns (i': nat, j': nat)
    requires a <= lo <= i < j <= hi <= b <= files.Length
    requires forall k :: lo <= k < hi ==> files[k].hasCalc in calcs
    requires DistinctCalcs(files[..], a, b)
    requires forall k :: lo <= k < i ==> files[lo].hasCalc.IsEqual(files[k].hasCalc)
    requires forall k :: j <= k < hi ==> !files[lo].hasCalc.IsEqual(files[k].hasCalc)
    modifies files
    ensures i <= i' <= j' <= j && j' - i' < j - i
    ensures files[lo] == old(files[lo])
    ensures forall k :: lo <= k < hi ==> files[k].hasCalc in calcs
    ensures DistinctCalcs(files[..], a, b)
    ensures forall k :: lo <= k < i' ==> files[lo].hasCalc.IsEqual(files[k].hasCalc)
    ensures forall k :: j' <= k < hi ==> !files[lo].hasCalc.IsEqual(files[k].hasCalc)
    ensures multiset(files[lo..hi]) == multiset(old(files[lo..hi]))
    ensures forall k :: 0 <= k < files.Length && !(lo <= k < hi) ==> files[k] == old(files[k])
  {
    if files[lo].hasCalc.IsEqual(files[i].hasCalc) {
      i', j' := i + 1, j;
    } else if !files[lo].hasCalc.IsEqual(files[j - 1].hasCalc) {
      i', j' := i, j - 1;
    } else {
      Swap(files, i, j - 1, lo, hi);
      i', j' := i + 1, j - 1;
    }
  }

  /** The std::partition at bayan.cpp:265: the records whose calculator compares equal to
      the one at `lo` first. The predicate reads the record at `lo` on every call, so `lo`
      is never moved (it compares equal to itself and so stays in the first part). The
      ghost range [a, b) and set `calcs` carry the caller's facts about the calculators
      across the rearrangement. */
  method PartitionByHash(files: array<FileStruct>, lo: nat, hi: nat,
                         ghost a: nat, ghost b: nat, ghost calcs: set<HashCalculator>)
    returns (mid: nat)
    requires a <= lo <= hi <= b <= files.Length
    requires forall i :: lo <= i < hi ==> files[i].hasCalc in calcs
    requires DistinctCalcs(files[..], a, b)
    modifies files
    ensures lo <= mid <= hi
    ensures forall i :: lo <= i < hi ==> files[i].hasCalc in calcs
    ensures DistinctCalcs(files[..], a, b)
    ensures lo < hi ==> files[lo] == old(files[lo]) && lo < mid
    ensures forall i :: lo <= i < mid ==> files[lo].hasCalc.IsEqual(files[i].hasCalc)
    ensures forall i :: mid <= i < hi ==> !files[lo].hasCalc.IsEqual(files[i].hasCalc)
    ensures multiset(files[lo..hi]) == multiset(old(files[lo..hi]))
    ensures forall i :: 0 <= i < files.Length && !(lo <= i < hi) ==> files[i] == old(files[i])
  {
    var i, j := lo, hi;
    while i < j
      invariant lo <= i <= j <= hi
      invariant forall k :: lo <= k < hi ==> files[k].hasCalc in calcs
      invariant DistinctCalcs(files[..], a, b)
      invariant lo < hi ==> files[lo] == old(files[lo])
      invariant forall k :: lo <= k < i ==> files[lo].hasCalc.IsEqual(files[k].hasCalc)
      invariant forall k :: j <= k < hi ==> !files[lo].hasCalc.IsEqual(files[k].hasCalc)
      invariant multiset(files[lo..hi]) == multiset(old(files[lo..hi]))
      invariant forall k :: 0 <= k < files.Length && !(lo <= k < hi) ==> files[k] == old(files[k])
      decreases j - i
    {
      i, j := PartitionByHashStep(files, lo, hi, i, j, a, b, calcs);
    }
    mid := i;
  }
}
