# bayan: a verified model of the duplicate-file matcher

bayan finds duplicate files. It walks directories and keeps every regular file larger
than a minimum size. It then groups the files by size. Inside each size group it compares
the files block by block, using a CRC-32 checksum or an MD5 digest of each block. Groups
are half-open ranges of positions in the one `fileStruct` vector, never copies.

This project models that core in Dafny:

- `reader.dfy` (module `Reader`) is the block reader behind `getCurrentHash`. It consists
  of pure functions of the file's bytes and the stream state (read offset, open or closed,
  `m_finish`), with lemmas on when the reader finishes and which bytes each call hashes.
- `hash_calculator.dfy` (module `HashCalculators`) holds the `hashCalculator` class. The
  CRC-32 and MD5 variants are one class with a constant algorithm kind. CRC-32 and MD5 are
  uninterpreted functions of the block bytes. The MD5 `isEqual` compares object identity,
  as the source compares digest addresses.
- `file_struct.dfy` (module `FileStructs`) holds the `fileStruct` record, the
  `FileInfoGroup` range, and the two in-place `std::partition` calls on an `array`.
- `bayan.dfy` (module `BayanCore`) holds the `bayan` class: the setters, `checkSize`,
  `makeHashCalculator`, `makeHashGroups` (with its boundary stack and cursor), and the
  grouping half of `scan`.

The file system is a parameter: a map from path to bytes, where a path not in the map
cannot be opened. The directory walk is a parameter too: the sequence of paths it hands to
`checkSize`, in walk order, each paired with the size that `checkSize` reads with
`boost::filesystem::file_size` (bayan.cpp:238).

## Model

| member | source | states |
|---|---|---|
| Reader.Block | bayan.cpp:11-20 | One call hashes exactly `m_block_size` bytes: the unread bytes of the file, then the character '0' where the file (or a closed stream) has none |
| Reader.Advance | bayan.cpp:11-18 | `m_finish` becomes true exactly when the read is short; it is never cleared; a short read closes the stream |
| Reader.AdvanceDecreases | bayan.cpp:11-18 | Every call brings an unfinished reader closer to finishing, which is why the matcher's loop ends |
| Reader.RunReadable | bayan.cpp:4-18 | After k calls on a readable file of n bytes with block size s: offset k*s and still open while k <= n div s; afterwards closed and finished |
| Reader.FinishedAfter | bayan.cpp:11-18 | A readable file is finished after k calls iff k > n div s; a 0-byte file is finished after the first call |
| Reader.ExactMultipleNeedsExtraRead | bayan.cpp:13-18 | A size divisible by the block size needs one extra empty read before the reader is finished |
| Reader.BlockOfCall | bayan.cpp:13-20 | The (k+1)-th call hashes bytes k*s to k*s+s-1, padded with '0'; once finished every call hashes s '0' characters |
| Reader.RunUnreadable | bayan.cpp:4-18 | A file that cannot be opened is finished after the first call and every call hashes s '0' characters |
| Reader.FinishedIsFinal | bayan.cpp:14-18 | A finished, closed reader stays exactly as it is whatever is called next |
| Reader.RemainingIsCallsLeft | bayan.cpp:11-18 | The termination measure of a fresh reader is the exact number of calls after which it is finished |
| Reader.BlocksAgree | bayan.cpp:11-20 | On two readable files of one size, the (k+1)-th call hashes the same buffer whenever the k-th blocks agree, whatever bytes lie before them |
| HashCalculators.Ordinal | bayan.h:9-13 | `hashAlg` has exactly two kinds, crc32 = 0 and md5 = 1 |
| HashCalculators.HashCalculator.Crc32Calculator | bayan.cpp:33-36 | A CRC calculator opens the file at offset 0, unfinished, with checksum 0; the block size defaults to 1 |
| HashCalculators.HashCalculator.Md5Calculator | bayan.cpp:58-61 | An MD5 calculator opens the file at offset 0, unfinished; the block size defaults to 1 |
| HashCalculators.HashCalculator.CalculateHash | bayan.cpp:37-42 | The stored hash is the CRC-32 (or MD5) of the given buffer alone, with a fresh seed, not a running hash |
| HashCalculators.HashCalculator.GetCurrentHash | bayan.cpp:11-21 | The stream advances by one block, and the stored hash becomes the hash of that padded block; the algorithm kind and block size stay fixed |
| HashCalculators.HashCalculator.IsFinish | bayan.cpp:28-31 | `isFinish` is true exactly when no call is left to make |
| HashCalculators.IsEqualEquivalence | bayan.cpp:43-56 | Among calculators of one kind, `isEqual` is reflexive, symmetric and transitive |
| HashCalculators.Md5IsIdentity | bayan.cpp:68-84 | MD5 `isEqual` is true only for the same calculator, even when two digests are equal |
| HashCalculators.GetIsEqualProperties | bayan.cpp:22-27 | `getIsEqual` is false when kind, block size or finished flag differ, otherwise it is `isEqual`; it is an equivalence |
| HashCalculators.CrcOfEqualBlocks | bayan.cpp:11-48 | The CRC is not cumulative: two CRC calculators on files of one size whose checksums come from their (k+1)-th call compare equal both ways once the k-th blocks agree, whatever the files hold before that block |
| FileStructs.InfosPermutation | bayan.h:51-60 | Rearranging `fileStruct` records rearranges their (path, size) pairs: no record is lost or duplicated |
| FileStructs.Md5SingleMatch | bayan.cpp:265-275 | Under MD5, with one calculator per record, every non-empty partition holds only the record at `l` (d == 1) |
| FileStructs.PartitionBySize | bayan.cpp:219-222 | The records of the pivot size come first and none of that size is left after them; the range is permuted and nothing outside changes |
| FileStructs.PartitionByHash | bayan.cpp:265-268 | The records comparing equal to the one at `l` come first and the rest after; `l` stays in place; the range is permuted and nothing outside changes |
| BayanCore.StackPop | bayan.cpp:276-281 | Popping a boundary when the cursor reaches it keeps `b` at the bottom and the stack strictly decreasing upward |
| BayanCore.StackPush | bayan.cpp:292-293 | Pushing the end of the matching range keeps the stack strictly decreasing and the cursor below the top |
| BayanCore.RecordedAdd | bayan.cpp:283-286 | Recording `[l, it)` when the calculator at `l` is finished keeps every recorded group ordered, disjoint, of length >= 2 and equal to its head |
| BayanCore.GroupSameSize | bayan.cpp:219-230 | Every record of a reported group has the size of the group's first record |
| BayanCore.RunsDistinctSizes | bayan.cpp:216-232 | Two different passes of the size loop collect two different sizes |
| BayanCore.GroupsAppend | bayan.cpp:228-230 | Groups of a run appended after the groups of the earlier records stay ordered and disjoint, with the earlier groups as the prefix and the run's groups as the rest |
| BayanCore.SplitsIntoPass | bayan.cpp:224-230 | A pass that keeps the earlier groups as a prefix and appends groups inside its run (none for a run of one) extends the per-run split by exactly what it appended |
| BayanCore.SplitsIntoJoined | bayan.cpp:215-232 | The per-run split of the size loop's groups is: one list per run, each inside its run, empty for a run of one, and joined in pass order they give the groups |
| BayanCore.JoinedInRuns | bayan.cpp:215-232 | Every group of the per-run lists joined in pass order lies inside one of the runs |
| BayanCore.GroupsInRuns | bayan.cpp:215-232 | Every group the size loop collects lies inside one of its runs |
| BayanCore.LinkedRange | bayan.cpp:254-268 | Rearranging `[a, b)` keeps every record linked to a calculator over its own file's bytes, and keeps whether that file exists |
| BayanCore.OwnFileHashes | bayan.cpp:247-301 | If every record of `[a, b)` is linked to its own file and its calculator is one of a set whose members all have one kind and block size and store the hash of the last block they read, then each record of `[a, b)` holds a calculator of that kind and block size hashing its own file |
| BayanCore.Kept | bayan.cpp:236-246 | The records kept by `checkSize` are at most the walk's records and each has a size above a positive minimum |
| BayanCore.KeptIff | bayan.cpp:236-246 | A record is kept iff the walk found it and its size is above the minimum (any size when the minimum is not positive) |
| BayanCore.Bayan.constructor | bayan.cpp:86-89 | The directory lists and the mask start empty |
| BayanCore.Bayan.SetIncludeDirs | bayan.cpp:90-94 | Stores the list and returns true |
| BayanCore.Bayan.SetExcludeDirs | bayan.cpp:95-99 | Stores the list and returns true |
| BayanCore.Bayan.SetLevel | bayan.cpp:100-107 | A negative level becomes 0; returns true |
| BayanCore.Bayan.SetFileSize | bayan.cpp:108-115 | A minimum size of 0 or less becomes 1; returns true |
| BayanCore.Bayan.SetBlockSize | bayan.cpp:116-123 | A block size of 0 or less becomes 1; returns true |
| BayanCore.Bayan.SetMask | bayan.cpp:124-128 | Stores the mask and returns true |
| BayanCore.Bayan.SetHash | bayan.cpp:129-138 | "md5" selects MD5 and every other string selects CRC-32; returns true |
| BayanCore.Bayan.CheckSize | bayan.cpp:236-246 | Appends the file exactly when its size is above a positive minimum (always when the minimum is not positive), with no calculator; the list is otherwise unchanged |
| BayanCore.Bayan.CheckAll | bayan.cpp:182-191 | The records collected by the walk's `checkSize` calls are exactly the kept ones, in walk order, none with a calculator |
| BayanCore.Bayan.MakeHashCalculator | bayan.cpp:147-158 | A fresh calculator of the requested kind and block size, opened on the file |
| BayanCore.Bayan.AttachOne | bayan.cpp:256-257 | The record gets a fresh calculator over its own file's bytes, of the configured kind, block size and hash functions, whose stored hash is that of the file's first block; nothing else changes |
| BayanCore.Bayan.AttachCalculators | bayan.cpp:254-258 | Every record of `[a, b)` gets its own fresh calculator over its own file's bytes, with the configured kind, block size and hash functions, which has read its first block and stores that block's hash; paths and sizes are kept and nothing outside changes |
| BayanCore.Bayan.HashNext | bayan.cpp:295-298 | One `getCurrentHash` on a calculator reads its next block from where it stood, and every calculator still stores the hash of the last block it read from its own file |
| BayanCore.Bayan.AdvanceWindow | bayan.cpp:295-298 | Every calculator of the window reads its next block from where it stood and stores that block's hash; the others in `[a, b)` are untouched; every calculator still stores the hash of the last block it read from its own file |
| BayanCore.Bayan.PartitionRange | bayan.cpp:265-268 | Only `[l, top)` is rearranged, so the groups recorded before `l` stay valid |
| BayanCore.Bayan.ReadNextBlock | bayan.cpp:292-298 | Reading the next block brings the calculator at `l` closer to finishing, keeps the recorded groups, and leaves every calculator storing the hash of the last block it read |
| BayanCore.Bayan.MatchStep | bayan.cpp:263-299 | One loop pass keeps `a <= l <= top`, the stack shape, the recorded groups and every calculator's hash of its own last block, and decreases (b - l, blocks left at `l`, stack height) |
| BayanCore.Bayan.MatchLoop | bayan.cpp:260-299 | The matching loop ends with groups that lie in `[a, b)`, are ordered, disjoint and of length >= 2, each with a finished head equal to all members; every calculator has read its file from the start and stores the hash of its last block; `[a, b)` is only permuted and nothing outside changes |
| BayanCore.Bayan.MakeHashGroups | bayan.cpp:247-301 | An empty range gives no groups; groups lie in `[a, b)`, are ordered, disjoint and of length >= 2; each head is finished and equal to all members; every record of `[a, b)` holds a calculator of the configured kind and block size over its own file's bytes, which has read that file block by block from the start and stores the hash of the last block read; `[a, b)` is only permuted; none under MD5 |
| BayanCore.Bayan.SizePass | bayan.cpp:218-222 | A pass adds one run of equal-size records and leaves none of that size after it; the earlier runs keep their records |
| BayanCore.Bayan.MatchRun | bayan.cpp:228-230 | For a run of two or more, the earlier groups are kept as the prefix and the run's own groups, all inside the run, are appended after them; every group, old and new, has a finished head that compares equal to every member, and each member hashes its own file |
| BayanCore.Bayan.SizeStep | bayan.cpp:216-232 | One pass adds a run of one size; the earlier groups stay the prefix and the groups appended lie inside the run; a run of one appends nothing |
| BayanCore.Bayan.SizeLoopStep | bayan.cpp:216-232 | One pass of the size loop keeps its invariant: runs tile the records seen, the groups split per run in pass order, and every group has a finished head equal to all members, each member hashing its own file |
| BayanCore.Bayan.SizeLoop | bayan.cpp:215-232 | The size loop ends with runs tiling the vector and the groups split per run in pass order; the records are only permuted |
| BayanCore.Bayan.GroupBySize | bayan.cpp:210-233 | An empty vector gives no groups; at most N passes tile the vector in runs of one size each; `perRun[i]` lies inside run i, is empty for a run of one, and the groups are the `perRun` lists joined in pass order; the records are only permuted; none under MD5 |
| BayanCore.Bayan.Scan | bayan.cpp:172-234 | An empty list gives no groups; otherwise the vector holds exactly the kept records and every group is a run of records of one size whose finished head compares equal to every member, each member holding a calculator of the configured kind and block size that has read its own file from the start |

## Left out

- The directory walk (bayan.cpp:176-208): recursion depth, symbolic links, exclusion by canonical path and the case-insensitive regular-expression mask. The walk's output is a parameter of `Scan`.
- `run` and `printDublicates`, which only print. `scan` prints each run's groups as soon as `makeHashGroups` returns them (bayan.cpp:229); the model does not print.
- BayanCore.Bayan.Scan: returns the vector together with the groups. In the source the vector is local to `scan` (bayan.cpp:174), so the iterator pairs it returns (bayan.cpp:233) dangle once it returns; `run` discards them (bayan.cpp:143), and the print inside `scan` is the only valid view of the groups.
- `boost::filesystem::file_size` (bayan.cpp:238): the size comes with each walked path as an input, and the exception it throws on an unreadable file is not modelled.
- The internals of CRC-32 and MD5: they are uninterpreted functions of the block bytes.
- `std::ifstream` beyond "next bytes from the offset; a short read fails and the stream is closed; a closed stream reads nothing". A file that cannot be opened is a path missing from the file-system map.
- The `bad_cast` handlers of both `isEqual` methods (bayan.cpp:50-54, 78-82), which cannot run because `static_cast` never throws. The null `default` branch of `makeHashCalculator` (bayan.cpp:155-156) cannot be reached because `HashAlg` has only two values.
- HashCalculators.HashCalculator: the two subclasses are one class with a constant kind. It holds both a checksum and a digest field, and only the field of its kind is ever used.
- HashCalculators.HashCalculator.Md5Calculator: the digest is left uninitialised, as in the source, so the constructor states nothing about it.
- FileStructs.PartitionBySize: states what any `std::partition` promises, not the exact order libstdc++ produces.
- FileStructs.PartitionByHash: states what any `std::partition` promises, plus that the leading record, which satisfies the predicate, is never moved; libstdc++'s partition guarantees this, the C++ standard does not. The exact order libstdc++ produces for the other records is not stated. The matcher needs the fixed leading record because its predicate re-reads `*l` (bayan.cpp:265-267).
- BayanCore.Bayan.constructor: the integer fields and the algorithm are uninitialised in the source, so the constructor states nothing about them.
- BayanCore.Bayan.MakeHashGroups: requires a block size of at least 1. This is what `setBlockSize` establishes; with a block size of 0 every read would succeed and the loop would not end.
- BayanCore.Bayan.MakeHashGroups: does not state that a group holds byte-identical files or that every set of duplicates is found. The source does not promise either: CRC-32 can collide, MD5 never groups, and the pop at bayan.cpp:287-288 can leave files that have read different numbers of blocks in one window.
- Ownership: `unique_ptr` replacement and destruction of calculators are not modelled. A record's calculator is a reference, and the model shows that no two records share one.
- Integer widths: sizes and offsets are unbounded. `uintmax_t` sizes and `int` settings do not overflow in any case the source can meet, and the settings are only compared and stored.
