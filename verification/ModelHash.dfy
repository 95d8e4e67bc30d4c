/** The Merkle hash of a model file: chunked reading, leaf hashing, level loop. */
module ModelHash {
  import opened Types
  import opened MerkleTree

  const CHUNK_SIZE: nat := 4 * 1024 * 1024

  datatype IoError = IoError(code: int)

  /** SHA-256 over two digests, one after the other. */
  function PairHash(sha: Bytes -> Digest): (Digest, Digest) -> Digest {
    (a: Digest, b: Digest) => sha(Join(a, b))
  }

  function Join(a: Digest, b: Digest): (joined: Bytes)
    ensures |joined| == 64 && joined[..32] == a && joined[32..] == b
  {
    var left: Bytes, right: Bytes := a, b;
    left + right
  }

  // ---------------------------------------------------------------------
  // Chunks
  // ---------------------------------------------------------------------

  function Chunks(data: Bytes): seq<Bytes>
    decreases |data|
  {
    if data == [] then []
    else if |data| <= CHUNK_SIZE then [data]
    else [data[..CHUNK_SIZE]] + Chunks(data[CHUNK_SIZE..])
  }

  function Concat(chunks: seq<Bytes>): Bytes {
    if chunks == [] then [] else chunks[0] + Concat(chunks[1..])
  }

  /** Full chunks, then one that may be short but is not empty. */
  ghost predicate IsChunking(chunks: seq<Bytes>) {
    && (forall i | 0 <= i < |chunks| :: 0 < |chunks[i]| <= CHUNK_SIZE)
    && (forall i | 0 <= i < |chunks| - 1 :: |chunks[i]| == CHUNK_SIZE)
  }

  /** The chunks give the file back, and only the last may be short. */
  lemma {:induction false} ChunksAreAChunking(data: Bytes)
    ensures Concat(Chunks(data)) == data && IsChunking(Chunks(data))
    decreases |data|
  {
    if |data| > CHUNK_SIZE {
      ChunksAreAChunking(data[CHUNK_SIZE..]);
      assert Chunks(data)[1..] == Chunks(data[CHUNK_SIZE..]);
    } else if data != [] {
      assert Concat([data]) == data + Concat([]);
    }
  }

  /** There is only one such division of a file. */
  lemma {:induction false} ChunkingIsUnique(chunks: seq<Bytes>)
    requires IsChunking(chunks)
    ensures Chunks(Concat(chunks)) == chunks
    decreases |chunks|
  {
    if chunks != [] {
      var rest := Concat(chunks[1..]);
      ChunkingIsUnique(chunks[1..]);
      if |chunks| == 1 {
        assert Concat(chunks) == chunks[0];
      } else {
        assert rest != [] by {
          assert chunks[1..][0] == chunks[1];
        }
        assert Concat(chunks)[..CHUNK_SIZE] == chunks[0];
        assert Concat(chunks)[CHUNK_SIZE..] == rest;
      }
    }
  }

  function HashAll(sha: Bytes -> Digest, chunks: seq<Bytes>): (leaves: seq<Digest>)
    ensures |leaves| == |chunks|
    ensures forall i | 0 <= i < |chunks| :: leaves[i] == sha(chunks[i])
  {
    if chunks == [] then [] else [sha(chunks[0])] + HashAll(sha, chunks[1..])
  }

  function Leaves(sha: Bytes -> Digest, data: Bytes): seq<Digest> {
    HashAll(sha, Chunks(data))
  }

  /** The hash of a model file, from its contents. */
  function FileRoot(sha: Bytes -> Digest, data: Bytes): Digest {
    if Chunks(data) == [] then sha([]) else Root(PairHash(sha), Leaves(sha, data))
  }

  /** Piece i of the file: 4 MiB from there, or what is left. */
  function PieceAt(data: Bytes, i: nat): Bytes
    requires 4194304 * i <= |data|
  {
    if 4194304 * i + 4194304 <= |data| then data[4194304 * i..4194304 * i + 4194304] else data[4194304 * i..]
  }

  /** Where each chunk lies in the file, and how many there are. */
  lemma {:induction false} ChunksAt(data: Bytes)
    ensures 4194304 * |Chunks(data)| >= |data| && (data != [] ==> 4194304 * (|Chunks(data)| - 1) < |data|)
    ensures data == [] ==> Chunks(data) == []
    ensures forall i | 0 <= i < |Chunks(data)| :: 4194304 * i <= |data| && Chunks(data)[i] == PieceAt(data, i)
    decreases |data|
  {
    if |data| > 4194304 {
      var rest := data[4194304..];
      ChunksAt(rest);
      assert CHUNK_SIZE == 4194304 && Chunks(data) == [data[..4194304]] + Chunks(rest);
      forall i | 0 <= i < |Chunks(data)|
        ensures 4194304 * i <= |data| && Chunks(data)[i] == PieceAt(data, i)
      {
        if i > 0 {
          assert Chunks(data)[i] == Chunks(rest)[i - 1] && 4194304 * (i - 1) <= |rest|;
          PieceOfRest(data, i);
        }
      }
    }
  }

  lemma PieceOfRest(data: Bytes, i: nat)
    requires i > 0 && |data| > 4194304 && 4194304 * (i - 1) <= |data[4194304..]|
    ensures 4194304 * i <= |data| && PieceAt(data[4194304..], i - 1) == PieceAt(data, i)
  {
    var rest, from := data[4194304..], 4194304 * (i - 1);
    assert 4194304 * i == from + 4194304;
    assert rest[from..] == data[from + 4194304..];
    if from + 4194304 <= |rest| {
      assert rest[from..from + 4194304] == data[from + 4194304..from + 8388608];
    }
  }

  /** A file of up to 4 MiB is hashed as it is, the empty one too. */
  lemma RootOfOneChunk(sha: Bytes -> Digest, data: Bytes)
    requires |data| <= 4194304
    ensures FileRoot(sha, data) == sha(data)
  {
    if data != [] {
      assert Chunks(data) == [data] && Leaves(sha, data) == [sha(data)];
    }
  }

  /** A file of up to 8 MiB is the hash of its two hashes. */
  lemma RootOfTwoChunks(sha: Bytes -> Digest, data: Bytes)
    requires 4194304 < |data| <= 8388608
    ensures FileRoot(sha, data) == sha(Join(sha(data[..4194304]), sha(data[4194304..])))
  {
    ChunksAt(data);
    assert |Chunks(data)| == 2;
    assert Chunks(data)[0] == data[..4194304] && Chunks(data)[1] == data[4194304..];
    RootOfTwo(PairHash(sha), Leaves(sha, data));
  }

  /** A file of up to 12 MiB has its last hash paired with itself. */
  lemma RootOfThreeChunks(sha: Bytes -> Digest, data: Bytes)
    requires 8388608 < |data| <= 12582912
    ensures var (a, b, c) := (sha(data[..4194304]), sha(data[4194304..8388608]), sha(data[8388608..]));
      FileRoot(sha, data) == sha(Join(sha(Join(a, b)), sha(Join(c, c))))
  {
    ChunksAt(data);
    assert |Chunks(data)| == 3;
    assert Chunks(data)[0] == data[..4194304] && Chunks(data)[1] == data[4194304..8388608];
    assert Chunks(data)[2] == data[8388608..];
    RootOfThree(PairHash(sha), Leaves(sha, data));
  }

  // ---------------------------------------------------------------------
  // Reading
  // ---------------------------------------------------------------------

  /** An open file.  A read may fail, and may return less than was asked for. */
  class FileReader {
    const data: Bytes
    const healthy: bool  // no read fails
    var pos: nat

    ghost predicate Valid()
      reads this
    {
      pos <= |data|
    }

    constructor (data: Bytes, healthy: bool)
      ensures Valid() && pos == 0 && this.data == data && this.healthy == healthy
    {
      this.data, this.healthy := data, healthy;
      pos := 0;
    }

    /** Reads into `buffer[from..]`; any split is possible, and zero means the end of the file. */
    method Read(buffer: array<byte>, from: nat) returns (r: Result<nat, IoError>)
      requires Valid() && from < buffer.Length
      modifies this`pos, buffer
      ensures Valid()
      ensures healthy ==> r.Ok?
      ensures r.Err? ==> pos == old(pos)
      ensures r.Ok? ==> r.value <= buffer.Length - from && pos == old(pos) + r.value
      ensures r.Ok? ==> (r.value == 0 <==> old(pos) == |data|)
      ensures buffer[..from] == old(buffer[..from])
      ensures r.Ok? ==> buffer[from..from + r.value] == data[old(pos)..pos]
    {
      var fails: bool := *;
      if fails && !healthy {
        var code: int := *;
        return Err(IoError(code));
      }
      var most := if buffer.Length - from <= |data| - pos then buffer.Length - from else |data| - pos;
      var n: nat := 0;
      if most > 0 {
        n :| 1 <= n <= most;
      }
      forall i | 0 <= i < n {
        buffer[from + i] := data[pos + i];
      }
      pos := pos + n;
      r := Ok(n);
    }
  }

  /** The inner read loop: fills the buffer, whatever the sizes of the single reads. */
  method FillBuffer(file: FileReader, buffer: array<byte>) returns (r: Result<nat, IoError>)
    requires file.Valid() && buffer.Length == CHUNK_SIZE
    modifies file`pos, buffer
    ensures file.Valid()
    ensures file.healthy ==> r.Ok?
    ensures r.Ok? ==> r.value <= CHUNK_SIZE && file.pos == old(file.pos) + r.value
    ensures r.Ok? ==> buffer[..r.value] == file.data[old(file.pos)..file.pos]
    ensures r.Ok? ==> r.value == CHUNK_SIZE || file.pos == |file.data|
  {
    var bytesRead := 0;
    while bytesRead < CHUNK_SIZE
      invariant bytesRead <= CHUNK_SIZE && file.Valid()
      invariant file.pos == old(file.pos) + bytesRead
      invariant buffer[..bytesRead] == file.data[old(file.pos)..file.pos]
    {
      ghost var before := file.pos;
      var read := file.Read(buffer, bytesRead);
      if read.Err? {
        return Err(read.error);
      }
      var n := read.value;
      if n == 0 {
        break;
      }
      assert buffer[..bytesRead + n] == buffer[..bytesRead] + buffer[bytesRead..bytesRead + n];
      assert file.data[old(file.pos)..file.pos] == file.data[old(file.pos)..before] + file.data[before..file.pos];
      bytesRead := bytesRead + n;
    }
    r := Ok(bytesRead);
  }

  lemma LeavesFrom(sha: Bytes -> Digest, data: Bytes, n: nat)
    requires 0 < n <= CHUNK_SIZE && n <= |data| && (n == CHUNK_SIZE || n == |data|)
    ensures Leaves(sha, data) == [sha(data[..n])] + Leaves(sha, data[n..])
  {
    if n == |data| {
      assert data[..n] == data && data[n..] == [];
      assert Chunks(data) == [data];
      assert HashAll(sha, [data]) == [sha(data)] + HashAll(sha, []);
    } else {
      assert Chunks(data) == [data[..n]] + Chunks(data[n..]);
      assert Chunks(data)[1..] == Chunks(data[n..]);
    }
  }

  lemma OneMore(done: seq<Digest>, leaf: Digest, rest: seq<Digest>)
    ensures done + ([leaf] + rest) == done + [leaf] + rest
  {
  }

  /** The read loop: the leaves do not depend on how the reads were split. */
  method ReadLeaves(file: FileReader, sha: Bytes -> Digest) returns (r: Result<seq<Digest>, IoError>)
    requires file.Valid() && file.pos == 0
    modifies file`pos
    ensures r.Ok? ==> r.value == Leaves(sha, file.data)
    ensures file.healthy ==> r.Ok?
  {
    var buffer := new byte[CHUNK_SIZE];
    var leaves: seq<Digest> := [];
    while true
      invariant file.Valid() && fresh(buffer)
      invariant Leaves(sha, file.data) == leaves + Leaves(sha, file.data[file.pos..])
      decreases |file.data| - file.pos
    {
      ghost var rest := file.data[file.pos..];
      var filled := FillBuffer(file, buffer);
      if filled.Err? {
        return Err(filled.error);
      }
      var bytesRead := filled.value;
      if bytesRead == 0 {
        break;
      }
      LeavesFrom(sha, rest, bytesRead);
      assert rest[..bytesRead] == buffer[..bytesRead] && rest[bytesRead..] == file.data[file.pos..];
      OneMore(leaves, sha(buffer[..bytesRead]), Leaves(sha, file.data[file.pos..]));
      leaves := leaves + [sha(buffer[..bytesRead])];
      if bytesRead < CHUNK_SIZE {
        break;
      }
    }
    assert file.data[file.pos..] == [];
    r := Ok(leaves);
  }

  // ---------------------------------------------------------------------
  // The level loop
  // ---------------------------------------------------------------------

  /** One pass of the level loop: full pairs first, then the odd remainder. */
  method HashLevel(sha: Bytes -> Digest, level: seq<Digest>) returns (next: seq<Digest>)
    ensures next == NextLevel(PairHash(sha), level)
  {
    next := [];
    var i := 0;
    while 2 * i + 1 < |level|
      invariant 2 * i <= |level| && |next| == i
      invariant forall k | 0 <= k < i :: next[k] == sha(Join(level[2 * k], level[2 * k + 1]))
    {
      next := next + [sha(Join(level[2 * i], level[2 * i + 1]))];
      i := i + 1;
    }
    if 2 * i < |level| {
      next := next + [sha(Join(level[2 * i], level[2 * i]))];
    }
    forall k | 0 <= k < |next|
      ensures next[k] == NextLevel(PairHash(sha), level)[k]
    {
      NextLevelAt(PairHash(sha), level, k);
    }
  }

  /** The level loop ends at the Merkle root, after as many levels as the tree is high. */
  method HashLevels(sha: Bytes -> Digest, leaves: seq<Digest>)
    returns (root: Digest, ghost levels: nat, ghost hashes: nat)
    requires |leaves| > 0
    ensures root == PerfectRoot(PairHash(sha), Height(|leaves|), Padded(leaves))
    ensures root == Root(PairHash(sha), leaves)
    ensures levels == Height(|leaves|) && |leaves| - 1 <= hashes <= |leaves| - 1 + levels
  {
    var currentLevel := leaves;
    levels, hashes := 0, 0;
    while |currentLevel| > 1
      invariant |currentLevel| > 0
      invariant Root(PairHash(sha), currentLevel) == Root(PairHash(sha), leaves)
      invariant levels + Height(|currentLevel|) == Height(|leaves|)
      invariant hashes + PairHashes(|currentLevel|) == PairHashes(|leaves|)
      decreases |currentLevel|
    {
      currentLevel := HashLevel(sha, currentLevel);
      levels, hashes := levels + 1, hashes + |currentLevel|;
    }
    RootIsPerfect(PairHash(sha), leaves);
    PairHashBounds(|leaves|);
    root := currentLevel[0];
  }

  /** The whole function: for every way the reads may be split, the root of the file's chunks. */
  method HashFileMerkle(file: FileReader, sha: Bytes -> Digest) returns (r: Result<Digest, IoError>)
    requires file.Valid() && file.pos == 0
    modifies file`pos
    ensures r.Ok? ==> r.value == FileRoot(sha, file.data)
    ensures file.healthy ==> r.Ok?
  {
    var read := ReadLeaves(file, sha);
    if read.Err? {
      return Err(read.error);
    }
    var leaves := read.value;
    if leaves == [] {
      return Ok(sha([]));
    }
    var root, _, _ := HashLevels(sha, leaves);
    r := Ok(root);
  }

  // ---------------------------------------------------------------------
  // Collisions
  // ---------------------------------------------------------------------

  lemma SomeDifference<T>(a: seq<T>, b: seq<T>)
    requires |a| == |b|
    ensures a == b || exists i :: 0 <= i < |a| && a[i] != b[i]
  {
  }

  lemma DifferentChunks(a: Bytes, b: Bytes)
    ensures a == b || Chunks(a) != Chunks(b)
  {
    ChunksAreAChunking(a);
    ChunksAreAChunking(b);
  }

  /** The pair of digests hashed for position j of the next level. */
  function PairAt(level: seq<Digest>, j: nat): (pair: Bytes)
    requires j < CeilHalf(|level|)
    ensures |pair| == 64
  {
    Join(level[2 * j], if 2 * j + 1 < |level| then level[2 * j + 1] else level[2 * j])
  }

  lemma PairAtDiffers(a: seq<Digest>, b: seq<Digest>, i: nat)
    requires |a| == |b| && i < |a| && a[i] != b[i]
    ensures PairAt(a, i / 2) != PairAt(b, i / 2)
  {
    var x, y := PairAt(a, i / 2), PairAt(b, i / 2);
    if i % 2 == 0 {
      assert x[..32] == a[i] && y[..32] == b[i];
    } else {
      assert x[32..] == a[i] && y[32..] == b[i];
    }
  }

  lemma LoneDigests(a: seq<Digest>, b: seq<Digest>)
    requires |a| == |b| == 1 && a[0] == b[0]
    ensures a == b
  {
  }

  /** Different levels whose next levels agree hash two different pairs to one digest. */
  method CollidingPair(sha: Bytes -> Digest, left: seq<Digest>, right: seq<Digest>) returns (x: Bytes, y: Bytes)
    requires |left| == |right| && left != right
    requires NextLevel(PairHash(sha), left) == NextLevel(PairHash(sha), right)
    ensures x != y && sha(x) == sha(y)
  {
    SomeDifference(left, right);
    var i :| 0 <= i < |left| && left[i] != right[i];
    PairAtDiffers(left, right, i);
    NextLevelAt(PairHash(sha), left, i / 2);
    NextLevelAt(PairHash(sha), right, i / 2);
    return PairAt(left, i / 2), PairAt(right, i / 2);
  }

  /** Walks two levels of equal size up to the first level on which they agree. */
  method WalkLevels(sha: Bytes -> Digest, a: seq<Digest>, b: seq<Digest>) returns (x: Bytes, y: Bytes)
    requires |a| == |b| > 0 && a != b && Root(PairHash(sha), a) == Root(PairHash(sha), b)
    ensures x != y && sha(x) == sha(y)
  {
    var left, right := a, b;
    var nextLeft := HashLevel(sha, left);
    var nextRight := HashLevel(sha, right);
    while nextLeft != nextRight
      invariant |left| == |right| > 0 && left != right
      invariant Root(PairHash(sha), left) == Root(PairHash(sha), right)
      invariant nextLeft == NextLevel(PairHash(sha), left) && nextRight == NextLevel(PairHash(sha), right)
      decreases |left|
    {
      StillApart(sha, left, right);
      left, right := nextLeft, nextRight;
      nextLeft := HashLevel(sha, left);
      nextRight := HashLevel(sha, right);
    }
    x, y := CollidingPair(sha, left, right);
  }

  lemma StillApart(sha: Bytes -> Digest, left: seq<Digest>, right: seq<Digest>)
    requires |left| == |right| > 0 && Root(PairHash(sha), left) == Root(PairHash(sha), right)
    ensures left == right || |left| > 1
  {
    if |left| == 1 {
      LoneDigests(left, right);
    }
  }

  /** Two different files of the same chunk count with equal roots yield two different inputs
      with the same SHA-256: nothing is assumed about the hash. */
  method ExtractCollision(sha: Bytes -> Digest, a: Bytes, b: Bytes) returns (x: Bytes, y: Bytes)
    requires a != b && |Chunks(a)| == |Chunks(b)| && FileRoot(sha, a) == FileRoot(sha, b)
    ensures x != y && sha(x) == sha(y)
  {
    var left, right := Leaves(sha, a), Leaves(sha, b);
    if left == right {
      DifferentChunks(a, b);
      SomeDifference(Chunks(a), Chunks(b));
      var i :| 0 <= i < |Chunks(a)| && Chunks(a)[i] != Chunks(b)[i];
      assert left[i] == sha(Chunks(a)[i]) && right[i] == sha(Chunks(b)[i]);
      return Chunks(a)[i], Chunks(b)[i];
    }
    x, y := WalkLevels(sha, left, right);
  }

  /** Padding does not change the root. */
  lemma {:induction false} RootOfPadded(sha: Bytes -> Digest, leaves: seq<Digest>)
    requires |leaves| > 0
    ensures Root(PairHash(sha), Padded(leaves)) == Root(PairHash(sha), leaves)
    decreases |leaves|
  {
    var node := PairHash(sha);
    if |leaves| == 1 {
      assert Padded(leaves) == leaves;
    } else {
      PaddedSizes(|leaves|);
      PaddedNextLevel(node, leaves);
      RootOfPadded(sha, NextLevel(node, leaves));
    }
  }

  // ---------------------------------------------------------------------
  // All files with equal roots
  // ---------------------------------------------------------------------

  /** What is hashed into the leaves: the chunks, or one empty piece. */
  function Pieces(data: Bytes): (pieces: seq<Bytes>)
    ensures |pieces| > 0
  {
    if Chunks(data) == [] then [[]] else Chunks(data)
  }

  function TreeLeaves(sha: Bytes -> Digest, data: Bytes): (leaves: seq<Digest>)
    ensures |leaves| == |Pieces(data)|
  {
    HashAll(sha, Pieces(data))
  }

  lemma RootOfTreeLeaves(sha: Bytes -> Digest, data: Bytes)
    ensures FileRoot(sha, data) == Root(PairHash(sha), TreeLeaves(sha, data))
  {
  }

  /** The pieces are the same once they are padded. */
  predicate SamePieces(a: Bytes, b: Bytes) {
    Height(|Pieces(a)|) == Height(|Pieces(b)|) && Padded(Pieces(a)) == Padded(Pieces(b))
  }

  /** Among files of one chunk count only a file itself has its pieces. */
  lemma SamePiecesOfEqualCount(a: Bytes, b: Bytes)
    requires |Pieces(a)| == |Pieces(b)|
    ensures SamePieces(a, b) <==> a == b
  {
    PaddedInjective(Pieces(a), Pieces(b));
    ChunksAreAChunking(a);
    ChunksAreAChunking(b);
    assert Concat([[]]) == [];
  }

  /** The digests right below the root. */
  function BelowRoot(sha: Bytes -> Digest, leaves: seq<Digest>): (below: seq<Digest>)
    requires |leaves| > 0 && Height(|leaves|) > 0
    ensures |below| > 0 && Height(|below|) == 1
  {
    AtHeight(PairHash(sha), 1, leaves)
  }

  /** The second file consists of the digests right below the root of the first. */
  predicate IsTopPair(sha: Bytes -> Digest, a: Bytes, b: Bytes) {
    Height(|Pieces(a)|) > 0 && b == PairAt(BelowRoot(sha, TreeLeaves(sha, a)), 0)
  }

  /** No root tells the two files apart, whatever the hash function. */
  predicate Indistinct(sha: Bytes -> Digest, a: Bytes, b: Bytes) {
    SamePieces(a, b) || IsTopPair(sha, a, b) || IsTopPair(sha, b, a)
  }

  lemma PaddedLeaves(sha: Bytes -> Digest, pieces: seq<Bytes>)
    requires |pieces| > 0
    ensures Padded(HashAll(sha, pieces)) == HashAll(sha, Padded(pieces))
  {
    var left, right := Padded(HashAll(sha, pieces)), HashAll(sha, Padded(pieces));
    forall i | 0 <= i < |left|
      ensures left[i] == right[i]
    {
      PaddedAt(HashAll(sha, pieces), i);
      PaddedAt(pieces, i);
    }
  }

  /** There are two of them, and the root is the hash of the pair. */
  lemma TwoBelowRoot(sha: Bytes -> Digest, leaves: seq<Digest>)
    requires |leaves| > 0 && Height(|leaves|) > 0
    ensures |BelowRoot(sha, leaves)| == 2
    ensures Root(PairHash(sha), leaves) == sha(PairAt(BelowRoot(sha, leaves), 0))
  {
    RootAtHeight(PairHash(sha), 1, leaves);
    OneLevelUp(PairHash(sha), BelowRoot(sha, leaves));
  }

  lemma OneLevelUp<D>(node: (D, D) -> D, level: seq<D>)
    requires |level| > 0 && Height(|level|) == 1
    ensures |level| == 2 && Root(node, level) == node(level[0], level[1])
  {
    HeightBounds(|level|);
    assert Pow2(1) == 2;
    NextLevelAt(node, level, 0);
  }

  lemma OnePiece(data: Bytes)
    requires |data| <= CHUNK_SIZE
    ensures Pieces(data) == [data]
  {
  }

  lemma RootOfOnePiece(sha: Bytes -> Digest, data: Bytes)
    requires |data| <= CHUNK_SIZE
    ensures FileRoot(sha, data) == sha(data)
  {
    OnePiece(data);
    RootOfTreeLeaves(sha, data);
    assert TreeLeaves(sha, data) == [sha(data)];
  }

  lemma TopPairRoot(sha: Bytes -> Digest, a: Bytes, b: Bytes)
    requires IsTopPair(sha, a, b)
    ensures FileRoot(sha, a) == FileRoot(sha, b)
  {
    TwoBelowRoot(sha, TreeLeaves(sha, a));
    RootOfTreeLeaves(sha, a);
    RootOfOnePiece(sha, b);
  }

  /** Indistinct files have equal roots. */
  lemma IndistinctRoots(sha: Bytes -> Digest, a: Bytes, b: Bytes)
    requires Indistinct(sha, a, b)
    ensures FileRoot(sha, a) == FileRoot(sha, b)
  {
    if SamePieces(a, b) {
      PaddedLeaves(sha, Pieces(a));
      PaddedLeaves(sha, Pieces(b));
      RootOfPadded(sha, TreeLeaves(sha, a));
      RootOfPadded(sha, TreeLeaves(sha, b));
      RootOfTreeLeaves(sha, a);
      RootOfTreeLeaves(sha, b);
    } else if IsTopPair(sha, a, b) {
      TopPairRoot(sha, a, b);
    } else {
      TopPairRoot(sha, b, a);
    }
  }

  /** And all other files with equal roots yield two different inputs with the same SHA-256 value. */
  method FindCollision(sha: Bytes -> Digest, a: Bytes, b: Bytes) returns (x: Bytes, y: Bytes)
    requires FileRoot(sha, a) == FileRoot(sha, b) && !Indistinct(sha, a, b)
    ensures x != y && sha(x) == sha(y)
  {
    RootOfTreeLeaves(sha, a);
    RootOfTreeLeaves(sha, b);
    if Height(|Pieces(a)|) == Height(|Pieces(b)|) {
      x, y := CollisionAtHeight(sha, a, b);
    } else if Height(|Pieces(a)|) > Height(|Pieces(b)|) {
      x, y := CollisionAcrossHeights(sha, a, b);
    } else {
      x, y := CollisionAcrossHeights(sha, b, a);
    }
  }

  method CollisionAtHeight(sha: Bytes -> Digest, a: Bytes, b: Bytes) returns (x: Bytes, y: Bytes)
    requires Height(|Pieces(a)|) == Height(|Pieces(b)|) && Padded(Pieces(a)) != Padded(Pieces(b))
    requires Root(PairHash(sha), TreeLeaves(sha, a)) == Root(PairHash(sha), TreeLeaves(sha, b))
    ensures x != y && sha(x) == sha(y)
  {
    var left, right := Padded(Pieces(a)), Padded(Pieces(b));
    PaddedLeaves(sha, Pieces(a));
    PaddedLeaves(sha, Pieces(b));
    if HashAll(sha, left) == HashAll(sha, right) {
      SomeDifference(left, right);
      var i :| 0 <= i < |left| && left[i] != right[i];
      assert HashAll(sha, left)[i] == sha(left[i]) && HashAll(sha, right)[i] == sha(right[i]);
      return left[i], right[i];
    }
    x, y := WalkPadded(sha, TreeLeaves(sha, a), TreeLeaves(sha, b));
  }

  /** Two leaf lists of equal height and root whose paddings differ. */
  method WalkPadded(sha: Bytes -> Digest, a: seq<Digest>, b: seq<Digest>) returns (x: Bytes, y: Bytes)
    requires |a| > 0 && |b| > 0 && Height(|a|) == Height(|b|) && Padded(a) != Padded(b)
    requires Root(PairHash(sha), a) == Root(PairHash(sha), b)
    ensures x != y && sha(x) == sha(y)
  {
    RootOfPadded(sha, a);
    RootOfPadded(sha, b);
    x, y := WalkLevels(sha, Padded(a), Padded(b));
  }

  lemma PadIndexOfFirst(n: nat, h: nat)
    requires n > 0 && h == Height(n)
    ensures PadIndex(n, h, 0) == 0
    decreases h
  {
    if h > 0 {
      PadIndexOfFirst(CeilHalf(n), h - 1);
    }
  }

  lemma FirstOfPadded<T>(list: seq<T>)
    requires |list| > 0
    ensures Padded(list)[0] == list[0]
  {
    PadIndexOfFirst(|list|, Height(|list|));
    PaddedAt(list, 0);
  }

  /** The first piece of the lower tree against the first pair of the higher one on the level below. */
  method CollisionAcrossHeights(sha: Bytes -> Digest, a: Bytes, b: Bytes) returns (x: Bytes, y: Bytes)
    requires Height(|Pieces(a)|) > Height(|Pieces(b)|) && !IsTopPair(sha, a, b)
    requires Root(PairHash(sha), TreeLeaves(sha, a)) == Root(PairHash(sha), TreeLeaves(sha, b))
    ensures x != y && sha(x) == sha(y)
  {
    var leaves, h := TreeLeaves(sha, a), Height(|Pieces(b)|);
    NotTopPair(sha, a, b, leaves, h);
    x, y := CollisionBelow(sha, leaves, TreeLeaves(sha, b), h, Pieces(b)[0]);
  }

  lemma NotTopPair(sha: Bytes -> Digest, a: Bytes, b: Bytes, leaves: seq<Digest>, h: nat)
    requires leaves == TreeLeaves(sha, a) && h == Height(|Pieces(b)|) < Height(|leaves|) && !IsTopPair(sha, a, b)
    ensures PairAt(AtHeight(PairHash(sha), h + 1, leaves), 0) != Pieces(b)[0]
  {
    if PairAt(AtHeight(PairHash(sha), h + 1, leaves), 0) == Pieces(b)[0] {
      OnlyShortPiece(b, Pieces(b)[0]);
    }
  }

  /** A leaf list of height h and a higher one: their levels of height h differ once padded, or the first leaf of
      the one is the first node of the other there. */
  method CollisionBelow(sha: Bytes -> Digest, leaves: seq<Digest>, lower: seq<Digest>, h: nat, first: Bytes)
    returns (x: Bytes, y: Bytes)
    requires |leaves| > 0 && |lower| > 0 && h == Height(|lower|) < Height(|leaves|)
    requires Root(PairHash(sha), leaves) == Root(PairHash(sha), lower)
    requires lower[0] == sha(first) && PairAt(AtHeight(PairHash(sha), h + 1, leaves), 0) != first
    ensures x != y && sha(x) == sha(y)
  {
    var level := AtHeight(PairHash(sha), h, leaves);
    RootAtHeight(PairHash(sha), h, leaves);
    if Padded(level) != Padded(lower) {
      x, y := WalkPadded(sha, level, lower);
    } else {
      SameFirst(level, lower);
      FirstPair(sha, leaves, h);
      x, y := PairAt(AtHeight(PairHash(sha), h + 1, leaves), 0), first;
    }
  }

  lemma SameFirst<T>(a: seq<T>, b: seq<T>)
    requires |a| > 0 && |b| > 0 && Padded(a) == Padded(b)
    ensures a[0] == b[0]
  {
    FirstOfPadded(a);
    FirstOfPadded(b);
  }

  lemma FirstPair(sha: Bytes -> Digest, leaves: seq<Digest>, h: nat)
    requires |leaves| > 0 && h < Height(|leaves|)
    ensures AtHeight(PairHash(sha), h, leaves)[0] == sha(PairAt(AtHeight(PairHash(sha), h + 1, leaves), 0))
  {
    OneLevelFurther(PairHash(sha), h, leaves);
    FirstOfNext(sha, AtHeight(PairHash(sha), h + 1, leaves));
  }

  lemma FirstOfNext(sha: Bytes -> Digest, level: seq<Digest>)
    requires |level| > 0
    ensures NextLevel(PairHash(sha), level)[0] == sha(PairAt(level, 0))
  {
    NextLevelAt(PairHash(sha), level, 0);
  }

  /** A file whose first piece is shorter than a chunk is that piece. */
  lemma OnlyShortPiece(data: Bytes, first: Bytes)
    requires Pieces(data)[0] == first && |first| < CHUNK_SIZE
    ensures data == first && |Pieces(data)| == 1 && Height(|Pieces(data)|) == 0
  {
    ChunksAreAChunking(data);
  }

  // ---------------------------------------------------------------------
  // Where equal roots are no collision
  // ---------------------------------------------------------------------

  lemma {:induction false} ChunksAppend(data: Bytes, last: Bytes)
    requires |data| % CHUNK_SIZE == 0 && 0 < |last| <= CHUNK_SIZE
    ensures Chunks(data + last) == Chunks(data) + [last]
    decreases |data|
  {
    if data == [] {
      assert data + last == last;
    } else if |data| == CHUNK_SIZE {
      assert (data + last)[..CHUNK_SIZE] == data && (data + last)[CHUNK_SIZE..] == last;
    } else {
      assert (data + last)[..CHUNK_SIZE] == data[..CHUNK_SIZE];
      assert (data + last)[CHUNK_SIZE..] == data[CHUNK_SIZE..] + last;
      ChunksAppend(data[CHUNK_SIZE..], last);
    }
  }

  /** A file of an odd number (three or more) of full chunks keeps its root when its last chunk is repeated. */
  lemma RepeatedLastChunk(sha: Bytes -> Digest, data: Bytes, last: Bytes)
    requires |data| % CHUNK_SIZE == 0 && |last| == CHUNK_SIZE
    requires |Chunks(data)| % 2 == 0 && |Chunks(data)| >= 2
    ensures FileRoot(sha, data + last + last) == FileRoot(sha, data + last)
  {
    LeavesAppend(sha, data, last);
    assert |data + last| % CHUNK_SIZE == 0;
    LeavesAppend(sha, data + last, last);
    RepeatedLeaf(sha, Leaves(sha, data), sha(last));
  }

  lemma RepeatedLeaf(sha: Bytes -> Digest, before: seq<Digest>, leaf: Digest)
    requires |before| % 2 == 0 && |before| >= 2
    ensures Root(PairHash(sha), before + [leaf] + [leaf]) == Root(PairHash(sha), before + [leaf])
  {
    DuplicatedLastLeaf(PairHash(sha), before + [leaf]);
  }

  lemma LeavesAppend(sha: Bytes -> Digest, data: Bytes, last: Bytes)
    requires |data| % CHUNK_SIZE == 0 && 0 < |last| <= CHUNK_SIZE
    ensures Leaves(sha, data + last) == Leaves(sha, data) + [sha(last)]
  {
    ChunksAppend(data, last);
    AppendLeaf(sha, Chunks(data), last);
  }

  lemma AppendLeaf(sha: Bytes -> Digest, chunks: seq<Bytes>, last: Bytes)
    ensures HashAll(sha, chunks + [last]) == HashAll(sha, chunks) + [sha(last)]
  {
  }

  /** Files of different heights may share a root: leaf and pair hashes have one domain. */
  lemma HeightsMayNotBeMixed(sha: Bytes -> Digest, first: Bytes, second: Bytes)
    requires |first| == CHUNK_SIZE && 0 < |second| <= CHUNK_SIZE
    ensures first + second != Join(sha(first), sha(second))
    ensures FileRoot(sha, first + second) == FileRoot(sha, Join(sha(first), sha(second)))
  {
    var short := Join(sha(first), sha(second));
    assert Chunks(short) == [short];
    assert Chunks(first) == [first];
    ChunksAppend(first, second);
    assert Leaves(sha, first + second) == [sha(first), sha(second)];
    assert Leaves(sha, short) == [sha(short)];
    PairAndItsNode(PairHash(sha), sha(first), sha(second));
  }
}
