/** Chunk allocation: a row goes to the newest chunk of its partition; a chunk is
    created only when there is none or the newest is full. */
module Allocator {
  import opened Bitmap
  import Sets
  import opened Schema
  import opened Metadata
  import opened Store
  import opened MapModel

  /** SQL equality of partition values: NULL equals nothing. */
  predicate PartitionMatches(stored: seq<SqlValue>, key: seq<SqlValue>) {
    |stored| == |key| && forall i | 0 <= i < |key| :: stored[i] == key[i] && !key[i].Null?
  }

  /** The chunks that `partition = key` selects. */
  ghost function ChunksOf(chunks: map<int, ChunkRow>, key: seq<SqlValue>): set<int> {
    set c | c in chunks && PartitionMatches(chunks[c].partition, key)
  }

  /** c is what `SELECT max(rowid)` returns. */
  ghost predicate IsLatest(chunks: map<int, ChunkRow>, key: seq<SqlValue>, c: int) {
    c in ChunksOf(chunks, key) && forall d | d in ChunksOf(chunks, key) :: d <= c
  }

  function Count(bits: seq<bool>): nat {
    if bits == [] then 0 else Count(bits[..|bits| - 1]) + if bits[|bits| - 1] then 1 else 0
  }

  /** Setting a clear bit adds one, clearing a set bit takes one away. */
  lemma {:induction false} CountUpdate(bits: seq<bool>, i: nat, v: bool)
    requires i < |bits|
    ensures Count(bits[i := v]) == Count(bits) - (if bits[i] then 1 else 0) + (if v then 1 else 0)
  {
    var n := |bits| - 1;
    if i == n {
      assert bits[i := v][..n] == bits[..n];
    } else {
      CountUpdate(bits[..n], i, v);
      assert bits[i := v][..n] == bits[..n][i := v];
    }
  }

  lemma {:induction false} CountAll(bits: seq<bool>, v: bool)
    requires forall i | 0 <= i < |bits| :: bits[i] == v
    ensures Count(bits) == if v then |bits| else 0
  {
    if bits != [] { CountAll(bits[..|bits| - 1], v); }
  }

  /** Every partition with chunks has had enough inserts to fill all of them but
      the newest, and the rows now in the newest on top. */
  ghost predicate AllocInv(s: TableSchema, chunks: map<int, ChunkRow>, inserted: map<seq<SqlValue>, nat>)
    requires forall c | c in chunks :: ChunkOk(s, chunks[c])
  {
    forall key, c | |key| == |s.partitions| && IsLatest(chunks, key, c) ::
      key in inserted && Enough(s, chunks, key, c, inserted[key])
  }

  ghost predicate Enough(s: TableSchema, chunks: map<int, ChunkRow>, key: seq<SqlValue>, c: int, n: nat)
    requires forall c | c in chunks :: ChunkOk(s, chunks[c])
    requires |key| == |s.partitions| && c in chunks
  {
    var full := (|ChunksOf(chunks, key)| - 1) * s.chunkSize;
    full + 1 <= n && full + Count(Bits(chunks[c].validity)) <= n
  }

  /** Changing one chunk row without changing its partition. */
  lemma SameChunks(s: TableSchema, chunks: map<int, ChunkRow>, p: int, row: ChunkRow, key: seq<SqlValue>)
    requires forall c | c in chunks :: ChunkOk(s, chunks[c])
    requires |key| == |s.partitions| && p in chunks && ChunkOk(s, row) && row.partition == chunks[p].partition
    ensures ChunksOf(chunks[p := row], key) == ChunksOf(chunks, key)
  {
  }

  /** A partition key selects a chunk only if it is that chunk's own key. */
  lemma OwnKey(chunks: map<int, ChunkRow>, key: seq<SqlValue>, c: int)
    requires c in ChunksOf(chunks, key)
    ensures chunks[c].partition == key
  {
  }

  lemma InsertKeepsAlloc(s: TableSchema, chunks: map<int, ChunkRow>, inserted: map<seq<SqlValue>, nat>,
                         key: seq<SqlValue>, c: int, o: nat, r: int)
    requires forall c | c in chunks :: ChunkOk(s, chunks[c])
    requires AllocInv(s, chunks, inserted) && |key| == |s.partitions|
    requires IsLatest(chunks, key, c) && o < s.chunkSize && !Bits(chunks[c].validity)[o]
    ensures AllocInv(s, chunks[c := WithOccupant(chunks[c], o, r)], Bump(inserted, key))
  {
    var row := WithOccupant(chunks[c], o, r);
    var chunks' := chunks[c := row];
    forall k, d | |k| == |s.partitions| && IsLatest(chunks', k, d)
      ensures k in Bump(inserted, key) && Enough(s, chunks', k, d, Bump(inserted, key)[k])
    {
      SameChunks(s, chunks, c, row, k);
      assert IsLatest(chunks, k, d) && Enough(s, chunks, k, d, inserted[k]);
      if d == c {
        OwnKey(chunks, k, c);
        OwnKey(chunks, key, c);
        CountUpdate(Bits(chunks[c].validity), o, true);
      }
    }
  }

  /** The insert that makes a new chunk: the old newest chunk was full. */
  lemma NewChunkKeepsAlloc(s: TableSchema, chunks: map<int, ChunkRow>, inserted: map<seq<SqlValue>, nat>,
                           key: seq<SqlValue>, c: int, r: int)
    requires forall c | c in chunks :: ChunkOk(s, chunks[c])
    requires AllocInv(s, chunks, inserted) && |key| == |s.partitions|
    requires ValidSchema(s) && forall d | d in chunks :: d < c
    requires forall d | IsLatest(chunks, key, d) :: Full(chunks[d])
    ensures AllocInv(s, chunks[c := WithOccupant(BlankChunk(s, key), 0, r)], Bump(inserted, key))
  {
    var chunks' := chunks[c := WithOccupant(BlankChunk(s, key), 0, r)];
    forall k, d | |k| == |s.partitions| && IsLatest(chunks', k, d)
      ensures k in Bump(inserted, key) && Enough(s, chunks', k, d, Bump(inserted, key)[k])
    {
      if c in ChunksOf(chunks', k) {
        OwnKey(chunks', k, c);
        assert d == c;
        FirstInNewChunk(s, chunks, inserted, key, c, r);
      } else {
        assert ChunksOf(chunks', k) == ChunksOf(chunks, k) && IsLatest(chunks, k, d);
        assert Enough(s, chunks, k, d, inserted[k]);
      }
    }
  }

  lemma CountOne(s: TableSchema, key: seq<SqlValue>, r: int)
    requires ValidSchema(s)
    ensures Count(Bits(WithOccupant(BlankChunk(s, key), 0, r).validity)) == 1
  {
    var bits := Bits(BlankChunk(s, key).validity);
    CountAll(bits, false);
    CountUpdate(bits, 0, true);
  }

  predicate Full(c: ChunkRow) {
    forall i | 0 <= i < CHAR_BIT * |c.validity| :: Bits(c.validity)[i]
  }

  lemma FirstInNewChunk(s: TableSchema, chunks: map<int, ChunkRow>, inserted: map<seq<SqlValue>, nat>,
                        key: seq<SqlValue>, c: int, r: int)
    requires forall c | c in chunks :: ChunkOk(s, chunks[c])
    requires AllocInv(s, chunks, inserted) && |key| == |s.partitions|
    requires ValidSchema(s) && c !in chunks && PartitionMatches(key, key)
    requires forall d | IsLatest(chunks, key, d) :: Full(chunks[d])
    ensures Enough(s, chunks[c := WithOccupant(BlankChunk(s, key), 0, r)], key, c, Bump(inserted, key)[key])
  {
    var row := WithOccupant(BlankChunk(s, key), 0, r);
    var old', new' := ChunksOf(chunks, key), ChunksOf(chunks[c := row], key);
    CountOne(s, key, r);
    assert new' == old' + {c} && |new'| == |old'| + 1;
    if old' != {} { FullChunksPaid(s, chunks, inserted, key); }
  }

  /** When the newest chunk is full, inserts have paid for every slot of every chunk. */
  lemma FullChunksPaid(s: TableSchema, chunks: map<int, ChunkRow>, inserted: map<seq<SqlValue>, nat>, key: seq<SqlValue>)
    requires forall c | c in chunks :: ChunkOk(s, chunks[c])
    requires AllocInv(s, chunks, inserted) && |key| == |s.partitions| && ChunksOf(chunks, key) != {}
    requires forall d | IsLatest(chunks, key, d) :: Full(chunks[d])
    ensures key in inserted && inserted[key] >= |ChunksOf(chunks, key)| * s.chunkSize
  {
    var m := Latest(chunks, key);
    assert Full(chunks[m]) && Enough(s, chunks, key, m, inserted[key]);
    CountAll(Bits(chunks[m].validity), true);
    var n := |ChunksOf(chunks, key)|;
    assert (n - 1) * s.chunkSize + s.chunkSize == n * s.chunkSize;
  }

  lemma Latest(chunks: map<int, ChunkRow>, key: seq<SqlValue>) returns (m: int)
    requires ChunksOf(chunks, key) != {}
    ensures IsLatest(chunks, key, m)
  {
    m := Sets.MaxOf(ChunksOf(chunks, key));
  }

  /** The newest chunk of one partition after a delete. */
  lemma DeleteLeavesEnough(s: TableSchema, chunks: map<int, ChunkRow>, inserted: map<seq<SqlValue>, nat>,
                           c: int, o: nat, k: seq<SqlValue>, d: int)
    requires forall c | c in chunks :: ChunkOk(s, chunks[c])
    requires AllocInv(s, chunks, inserted) && c in chunks && o < s.chunkSize && |k| == |s.partitions|
    requires IsLatest(chunks[c := WithoutOccupant(chunks[c], o)], k, d)
    ensures k in inserted && Enough(s, chunks[c := WithoutOccupant(chunks[c], o)], k, d, inserted[k])
  {
    var row := WithoutOccupant(chunks[c], o);
    SameChunks(s, chunks, c, row, k);
    assert IsLatest(chunks, k, d) && Enough(s, chunks, k, d, inserted[k]);
    if d == c { CountUpdate(Bits(chunks[c].validity), o, false); }
  }

  lemma DeleteKeepsAlloc(s: TableSchema, chunks: map<int, ChunkRow>, inserted: map<seq<SqlValue>, nat>, c: int, o: nat)
    requires forall c | c in chunks :: ChunkOk(s, chunks[c])
    requires AllocInv(s, chunks, inserted) && c in chunks && o < s.chunkSize
    ensures AllocInv(s, chunks[c := WithoutOccupant(chunks[c], o)], inserted)
  {
    var chunks' := chunks[c := WithoutOccupant(chunks[c], o)];
    forall k, d | |k| == |s.partitions| && IsLatest(chunks', k, d)
      ensures k in inserted && Enough(s, chunks', k, d, inserted[k])
    {
      DeleteLeavesEnough(s, chunks, inserted, c, o, k, d);
    }
  }

  /** The bound over whole runs: whatever was deleted, the partition's chunks were
      paid for by inserts. */
  lemma AllocatorBound(s: TableSchema, chunks: map<int, ChunkRow>, inserted: map<seq<SqlValue>, nat>, key: seq<SqlValue>)
    requires forall c | c in chunks :: ChunkOk(s, chunks[c])
    requires AllocInv(s, chunks, inserted) && |key| == |s.partitions| && ChunksOf(chunks, key) != {}
    ensures key in inserted && inserted[key] >= (|ChunksOf(chunks, key)| - 1) * s.chunkSize + 1
  {
    var m := Latest(chunks, key);
    assert Enough(s, chunks, key, m, inserted[key]);
  }

  /** A chunk is found again under the key it was created for exactly when no part of
      the key is NULL; otherwise every insert makes a chunk of its own. */
  lemma ReusableIffNoNull(s: TableSchema, chunks: map<int, ChunkRow>, key: seq<SqlValue>, c: int)
    requires |key| == |s.partitions| && s.chunkSize % CHAR_BIT == 0
    ensures c in ChunksOf(chunks[c := BlankChunk(s, key)], key) <==> forall i | 0 <= i < |key| :: !key[i].Null?
    ensures (exists i :: 0 <= i < |key| && key[i].Null?) ==> ChunksOf(chunks, key) == {}
  {
    if i :| 0 <= i < |key| && key[i].Null? {
      assert forall d | d in chunks :: !PartitionMatches(chunks[d].partition, key);
    }
  }
}
