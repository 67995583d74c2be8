/** hashCalculator and its two variants. The variants differ only in which hash of the
    block they store and in how two calculators are compared, so they are one class here
    with a constant algorithm kind; CRC-32 and MD5 themselves are library code and come in
    as functions of the block bytes. */
module HashCalculators {
  import opened Reader

  /** hashAlg: exactly two kinds. */
  datatype HashAlg = Crc32 | Md5

  /** The enumerator values: crc32 = 0, md5 = 1. */
  function Ordinal(h: HashAlg): (n: nat)
    ensures n < 2
    ensures n == 0 <==> h == Crc32
  {
    match h
    case Crc32 => 0
    case Md5 => 1
  }

  type Path = string

  /** The file system as seen by a calculator: the bytes of every file that can be
      opened; opening any other path fails. */
  type Disk = map<Path, seq<Byte>>

  /** The bytes a calculator on `path` reads: the file, or nothing when it cannot be opened. */
  function FileBytes(disk: Disk, path: Path): seq<Byte> {
    if path in disk then disk[path] else []
  }

  /** An MD5 digest: four 32-bit words, 128 bits. */
  type Digest = d: seq<bv32> | |d| == 4 witness [0, 0, 0, 0]

  /** The CRC-32 checksum and the MD5 digest of a byte buffer. */
  datatype Hashers = Hashers(crc32: seq<Byte> -> bv32, md5: seq<Byte> -> Digest)

  class HashCalculator {
    /** The bytes of the file the stream was opened on (empty if it could not be opened). */
    const file: seq<Byte>
    /** m_block_size: never assigned after construction. */
    const blockSize: nat
    /** m_hash of the base class: fixed at construction. */
    const kind: HashAlg
    const hashers: Hashers

    /** m_fs: read offset and whether the stream is open. */
    var offset: nat
    var isOpen: bool
    /** m_finish */
    var finish: bool
    /** m_hash of crc32_hashCalculator */
    var checksum: bv32
    /** m_hash of md5_hashCalculator */
    var digest: Digest

    function State(): Stream
      reads this
    {
      Stream(offset, isOpen, finish)
    }

    /** The stored hash of the calculator's kind is that of the block read from state `st`. */
    ghost predicate HashIsOf(st: Stream)
      reads this
    {
      (kind == Crc32 ==> checksum == hashers.crc32(Block(file, blockSize, st))) &&
      (kind == Md5 ==> digest == hashers.md5(Block(file, blockSize, st)))
    }

    /** The calculator has made one call from state `st`: its stream moved on from `st` and
        its stored hash is that of the block read from `st`. */
    ghost predicate ReadFrom(st: Stream)
      reads this
    {
      State() == Advance(file, blockSize, st) && HashIsOf(st)
    }

    /** The calculator has made j >= 1 calls on a stream that started as Initial(wasOpen):
        its stream is where those calls leave it, and its stored hash is that of the block
        the j-th call read. */
    ghost predicate HashedAfter(wasOpen: bool, j: nat)
      reads this
    {
      0 < j && State() == Run(file, blockSize, Initial(wasOpen), j) &&
      HashIsOf(Run(file, blockSize, Initial(wasOpen), j - 1))
    }

    /** After some number of calls from Initial(wasOpen), the stored hash is that of the
        block the last call read. */
    ghost predicate Hashed(wasOpen: bool)
      reads this
    {
      exists j :: HashedAfter(wasOpen, j)
    }

    /** How many more calls of getCurrentHash this calculator takes before it is finished. */
    function Unread(): nat
      reads this
    {
      Remaining(file, blockSize, State())
    }

    /** crc32_hashCalculator(path, blockSize = 1): opens the file, checksum 0. */
    constructor Crc32Calculator(path: Path, disk: Disk, hashers: Hashers, blockSize: nat := 1)
      ensures kind == Crc32 && this.blockSize == blockSize && this.hashers == hashers
      ensures file == FileBytes(disk, path)
      ensures State() == Initial(path in disk)
      ensures checksum == 0
    {
      file := FileBytes(disk, path);
      this.blockSize := blockSize;
      kind := Crc32;
      this.hashers := hashers;
      offset := 0;
      isOpen := path in disk;
      finish := false;
      checksum := 0;
    }

    /** md5_hashCalculator(path, blockSize = 1): opens the file; the digest is not
        initialised. */
    constructor Md5Calculator(path: Path, disk: Disk, hashers: Hashers, blockSize: nat := 1)
      ensures kind == Md5 && this.blockSize == blockSize && this.hashers == hashers
      ensures file == FileBytes(disk, path)
      ensures State() == Initial(path in disk)
    {
      file := FileBytes(disk, path);
      this.blockSize := blockSize;
      kind := Md5;
      this.hashers := hashers;
      offset := 0;
      isOpen := path in disk;
      finish := false;
    }

    /** calculateHash: a fresh CRC or MD5 over `data` alone replaces the stored hash. */
    method CalculateHash(data: seq<Byte>)
      modifies this`checksum, this`digest
      ensures kind == Crc32 ==> checksum == hashers.crc32(data) && digest == old(digest)
      ensures kind == Md5 ==> digest == hashers.md5(data) && checksum == old(checksum)
    {
      match kind
      case Crc32 => checksum := hashers.crc32(data);
      case Md5 => digest := hashers.md5(data);
    }

    /** getCurrentHash: fill a buffer of blockSize '0' characters, read into it, on a short
        read set m_finish and close the stream, then hash the whole buffer. */
    method GetCurrentHash()
      modifies this`offset, this`isOpen, this`finish, this`checksum, this`digest
      ensures State() == Advance(file, blockSize, old(State()))
      ensures kind == Crc32 ==>
        checksum == hashers.crc32(Block(file, blockSize, old(State()))) && digest == old(digest)
      ensures kind == Md5 ==>
        digest == hashers.md5(Block(file, blockSize, old(State()))) && checksum == old(checksum)
      ensures ReadFrom(old(State()))
      ensures Unread() <= old(Unread())
      ensures blockSize > 0 && !old(finish) ==> Unread() < old(Unread())
    {
      ghost var before := State();
      var buf := seq(blockSize, _ => Pad);
      var ok := isOpen && offset + blockSize <= |file|;
      if ok {
        buf := file[offset .. offset + blockSize];
        offset := offset + blockSize;
      } else if isOpen && offset <= |file| {
        buf := file[offset..] + buf[|file| - offset..];
        offset := |file|;
      }
      if !ok {
        finish := true;
        isOpen := false;
      }
      assert buf == Block(file, blockSize, before);
      AdvanceDecreases(file, blockSize, before);
      CalculateHash(buf);
    }

    /** isEqual of the two variants: CRC compares the stored checksums; MD5 compares the
        addresses of the two digest members, that is, whether both are one object. */
    predicate IsEqual(other: HashCalculator)
      reads this, other
    {
      match kind
      case Crc32 => checksum == other.checksum
      case Md5 => this == other
    }

    /** getIsEqual: only calculators of the same kind, block size and finished state are
        compared by isEqual. */
    predicate GetIsEqual(other: HashCalculator)
      reads this, other
    {
      kind == other.kind && blockSize == other.blockSize && finish == other.finish && IsEqual(other)
    }

    /** isFinish: the flag is set exactly when no further call can read anything. */
    function IsFinish(): (r: bool)
      reads this
      ensures r <==> Unread() == 0
    {
      finish
    }
  }

  /** Among calculators of one kind isEqual is an equivalence relation. */
  lemma IsEqualEquivalence(x: HashCalculator, y: HashCalculator, z: HashCalculator)
    requires x.kind == y.kind == z.kind
    ensures x.IsEqual(x)
    ensures x.IsEqual(y) ==> y.IsEqual(x)
    ensures x.IsEqual(y) && y.IsEqual(z) ==> x.IsEqual(z)
  {
  }

  /** The MD5 comparison is identity: two distinct calculators never compare equal,
      even when their digests are equal. */
  lemma Md5IsIdentity(x: HashCalculator, y: HashCalculator)
    requires x.kind == Md5
    ensures x.IsEqual(y) <==> x == y
    ensures x != y && x.digest == y.digest ==> !x.IsEqual(y)
  {
  }

  /** getIsEqual is false as soon as kind, block size or finished flag differ, and
      otherwise agrees with isEqual; over all calculators it is an equivalence relation. */
  lemma GetIsEqualProperties(x: HashCalculator, y: HashCalculator, z: HashCalculator)
    ensures x.kind != y.kind || x.blockSize != y.blockSize || x.finish != y.finish ==> !x.GetIsEqual(y)
    ensures x.kind == y.kind && x.blockSize == y.blockSize && x.finish == y.finish ==>
      (x.GetIsEqual(y) <==> x.IsEqual(y))
    ensures x.GetIsEqual(x)
    ensures x.GetIsEqual(y) ==> y.GetIsEqual(x)
    ensures x.GetIsEqual(y) && y.GetIsEqual(z) ==> x.GetIsEqual(z)
  {
  }

  /** The CRC is not cumulative: two CRC calculators on files of one size whose stored
      checksums come from their (k+1)-th call compare equal as soon as the k-th blocks of
      the two files agree, whatever bytes the files hold before that block. */
  lemma CrcOfEqualBlocks(x: HashCalculator, y: HashCalculator, k: nat)
    requires x.kind == y.kind == Crc32 && x.hashers == y.hashers
    requires x.blockSize == y.blockSize > 0 && |x.file| == |y.file|
    requires x.HashIsOf(Run(x.file, x.blockSize, Initial(true), k))
    requires y.HashIsOf(Run(y.file, y.blockSize, Initial(true), k))
    requires forall i :: k * x.blockSize <= i < k * x.blockSize + x.blockSize && i < |x.file| ==>
      x.file[i] == y.file[i]
    ensures x.IsEqual(y) && y.IsEqual(x)
  {
    BlocksAgree(x.file, y.file, x.blockSize, k);
  }
}
