/** The published job list, cut into row chunks and columnar chunks
    (scripts/generate_docs_search_index.py). */
module JobChunks {
  import opened Numerals
  import opened Wrappers

  const JOB_CHUNK_SIZE: nat := 1000

  /** Row positions that the columnar projection keeps. */
  const JOB_COLUMNAR_KEEP_INDICES: seq<nat> :=
    [0, 1, 2, 3, 4, 5, 6, 7, 8, 9, 10, 11, 12, 13, 14, 17, 18, 19, 20, 21]

  type Row<T> = seq<T>

  datatype Chunk = Chunk(index: nat, file: string, count: nat)

  function ChunkFile(directory: string, index: nat): string { directory + Padded(Decimal, 4, index) + ".json" }

  /** One chunk file never overwrites another, however many there are. */
  lemma ChunkFilesDiffer(directory: string, i: nat, j: nat)
    requires i != j
    ensures ChunkFile(directory, i) != ChunkFile(directory, j)
  {
    if ChunkFile(directory, i) == ChunkFile(directory, j) {
      var a, b := Padded(Decimal, 4, i), Padded(Decimal, 4, j);
      assert directory + a + ".json" == directory + (a + ".json");
      assert directory + b + ".json" == directory + (b + ".json");
      assert a + ".json" == (directory + (a + ".json"))[|directory|..];
      assert b + ".json" == (directory + (b + ".json"))[|directory|..];
      assert |a| == |b|;
      assert a == (a + ".json")[..|a|] && b == (b + ".json")[..|b|];
      PaddedIsInjective(Decimal, 4, i, j);
    }
  }

  /** Four digits at least. */
  lemma ChunkNames()
    ensures ChunkFile("jobs/chunks/", 7) == "jobs/chunks/0007.json"
    ensures ChunkFile("jobs/columnar/", 12345) == "jobs/columnar/12345.json"
  {
    assert Numeral(Decimal, 123) == "123";
    assert Numeral(Decimal, 12345) == "12345";
    assert Padding(3) == ['0'] + (['0'] + (['0'] + ""));
  }

  function Least(a: nat, b: nat): nat { if a < b then a else b }

  /** The rows `jobs[start : start + JOB_CHUNK_SIZE]` of one chunk. */
  function Slice<T>(jobs: seq<T>, k: nat): seq<T>
    requires k * JOB_CHUNK_SIZE <= |jobs|
  {
    jobs[k * JOB_CHUNK_SIZE..Least(|jobs|, (k + 1) * JOB_CHUNK_SIZE)]
  }

  /** The chunk files of a directory, as they are written one after another. */
  function Directory<S>(directory: string, parts: seq<S>): map<string, S> {
    if parts == [] then map[]
    else
      var last := |parts| - 1;
      Directory(directory, parts[..last])[ChunkFile(directory, last) := parts[last]]
  }

  lemma {:induction false} DirectoryHolds<S>(directory: string, parts: seq<S>)
    ensures |Directory(directory, parts)| == |parts|
    ensures forall k: nat :: ChunkFile(directory, k) in Directory(directory, parts) <==> k < |parts|
    ensures forall k: nat | k < |parts| :: Directory(directory, parts)[ChunkFile(directory, k)] == parts[k]
  {
    hide ChunkFile;
    if parts != [] {
      var last := |parts| - 1;
      DirectoryHolds(directory, parts[..last]);
      forall k: nat | k != last ensures ChunkFile(directory, k) != ChunkFile(directory, last) {
        ChunkFilesDiffer(directory, k, last);
      }
    }
  }

  function Concat<T>(parts: seq<seq<T>>): seq<T> {
    if parts == [] then [] else Concat(parts[..|parts| - 1]) + parts[|parts| - 1]
  }

  /** What both kinds of chunk list say: indices from zero, and every chunk but the last full. */
  predicate Covers(chunks: seq<Chunk>, directory: string, total: nat) {
    && |chunks| == (total + JOB_CHUNK_SIZE - 1) / JOB_CHUNK_SIZE
    && forall k | 0 <= k < |chunks| ::
      && chunks[k].index == k
      && chunks[k].file == ChunkFile(directory, k)
      && chunks[k].count == if k + 1 < |chunks| then JOB_CHUNK_SIZE else total - k * JOB_CHUNK_SIZE
  }

  lemma EmptyParts<T>(directory: string)
    ensures Concat<T>([]) == [] && Directory<seq<T>>(directory, []) == map[]
  {
  }

  lemma ConcatExtends<T>(jobs: seq<T>, parts: seq<seq<T>>, k: nat)
    requires k * JOB_CHUNK_SIZE <= |jobs| && Concat(parts) == jobs[..k * JOB_CHUNK_SIZE]
    ensures Concat(parts + [Slice(jobs, k)]) == jobs[..Least((k + 1) * JOB_CHUNK_SIZE, |jobs|)]
  {
    assert (parts + [Slice(jobs, k)])[..|parts|] == parts;
  }

  lemma DirectoryExtends<S>(directory: string, parts: seq<S>, part: S)
    ensures Directory(directory, parts + [part]) == Directory(directory, parts)[ChunkFile(directory, |parts|) := part]
  {
    assert (parts + [part])[..|parts|] == parts;
  }

  /** The rows of the listed chunk files, in the order of the list. */
  function ReadBack<T>(files: map<string, seq<T>>, chunks: seq<Chunk>): seq<T>
    requires forall k | 0 <= k < |chunks| :: chunks[k].file in files
  {
    if chunks == [] then [] else ReadBack(files, chunks[..|chunks| - 1]) + files[chunks[|chunks| - 1].file]
  }

  lemma {:induction false} ReadBackIsConcat<T>(files: map<string, seq<T>>, chunks: seq<Chunk>, parts: seq<seq<T>>)
    requires |chunks| == |parts|
    requires forall k | 0 <= k < |chunks| :: chunks[k].file in files && files[chunks[k].file] == parts[k]
    ensures ReadBack(files, chunks) == Concat(parts)
  {
    if chunks != [] {
      ReadBackIsConcat(files, chunks[..|chunks| - 1], parts[..|chunks| - 1]);
    }
  }

  /** `_write_job_chunks`: the rows of the chunk files, in index order, are the job list. */
  method WriteJobChunks<T>(jobs: seq<T>) returns (files: map<string, seq<T>>, chunks: seq<Chunk>)
    ensures Covers(chunks, "jobs/chunks/", |jobs|)
    ensures |files| == |chunks|
    ensures forall k | 0 <= k < |chunks| :: chunks[k].file in files && |files[chunks[k].file]| == chunks[k].count
    ensures ReadBack(files, chunks) == jobs
  {
    var directory := "jobs/chunks/";
    hide ChunkFile, Concat, Directory, ReadBack;
    files, chunks := map[], [];
    ghost var parts: seq<seq<T>> := [];
    EmptyParts<T>(directory);
    var start, index := 0, 0;
    while start < |jobs|
      invariant start == index * JOB_CHUNK_SIZE && start < |jobs| + JOB_CHUNK_SIZE
      invariant index == |chunks| == |parts|
      invariant files == Directory(directory, parts)
      invariant Concat(parts) == jobs[..Least(start, |jobs|)]
      invariant forall k | 0 <= k < index ::
        && |parts[k]| == Least(JOB_CHUNK_SIZE, |jobs| - k * JOB_CHUNK_SIZE)
        && chunks[k] == Chunk(k, ChunkFile(directory, k), |parts[k]|)
      decreases |jobs| - start
    {
      var rows := Slice(jobs, index);
      var file := ChunkFile(directory, index);
      ConcatExtends(jobs, parts, index);
      DirectoryExtends(directory, parts, rows);
      parts := parts + [rows];
      files := files[file := rows];
      chunks := chunks + [Chunk(index, file, |rows|)];
      start, index := start + JOB_CHUNK_SIZE, index + 1;
    }
    DirectoryHolds(directory, parts);
    assert jobs[..|jobs|] == jobs;
    ReadBackIsConcat(files, chunks, parts);
  }

  /** `row[i] if i < len(row) else None`. */
  function Cell<T>(row: Row<T>, i: nat): Option<T> { if i < |row| then Some(row[i]) else None }

  /** Column lists and rows say the same. */
  predicate Transposed<T(==)>(values: seq<seq<Option<T>>>, rows: seq<Row<T>>) {
    && |values| == |JOB_COLUMNAR_KEEP_INDICES|
    && forall c | 0 <= c < |values| ::
      && |values[c]| == |rows|
      && forall r | 0 <= r < |rows| :: values[c][r] == Cell(rows[r], JOB_COLUMNAR_KEEP_INDICES[c])
  }

  /** `_columnar_values`. */
  method ColumnarValues<T(==)>(rows: seq<Row<T>>) returns (values: seq<seq<Option<T>>>)
    ensures Transposed(values, rows)
  {
    var keep := JOB_COLUMNAR_KEEP_INDICES;
    values := seq(|keep|, _ => []);
    for r := 0 to |rows|
      invariant Transposed(values, rows[..r])
    {
      var before := values;
      for c := 0 to |keep|
        invariant |values| == |keep|
        invariant forall d | 0 <= d < c :: values[d] == before[d] + [Cell(rows[r], keep[d])]
        invariant forall d | c <= d < |keep| :: values[d] == before[d]
      {
        values := values[c := values[c] + [Cell(rows[r], keep[c])]];
      }
    }
    assert rows[..|rows|] == rows;
  }

  /** `_write_columnar_job_chunks`.  Its guard against payload version 7 never fires: the version is 6. */
  method WriteColumnarJobChunks<T(==)>(jobs: seq<Row<T>>)
    returns (files: map<string, seq<seq<Option<T>>>>, chunks: seq<Chunk>)
    ensures Covers(chunks, "jobs/columnar/", |jobs|)
    ensures forall k | 0 <= k < |chunks| ::
      chunks[k].file in files && Transposed(files[chunks[k].file], Slice(jobs, k))
  {
    var directory := "jobs/columnar/";
    hide ChunkFile, Transposed;
    files, chunks := map[], [];
    ghost var parts: seq<seq<seq<Option<T>>>> := [];
    var start, index := 0, 0;
    while start < |jobs|
      invariant start == index * JOB_CHUNK_SIZE && start < |jobs| + JOB_CHUNK_SIZE
      invariant index == |chunks| == |parts|
      invariant files == Directory(directory, parts)
      invariant forall k | 0 <= k < index ::
        && chunks[k] == Chunk(k, ChunkFile(directory, k), Least(JOB_CHUNK_SIZE, |jobs| - k * JOB_CHUNK_SIZE))
        && Transposed(parts[k], Slice(jobs, k))
      decreases |jobs| - start
    {
      var rows := Slice(jobs, index);
      var file := ChunkFile(directory, index);
      var values := ColumnarValues(rows);
      DirectoryExtends(directory, parts, values);
      parts := parts + [values];
      files := files[file := values];
      chunks := chunks + [Chunk(index, file, |rows|)];
      start, index := start + JOB_CHUNK_SIZE, index + 1;
    }
    DirectoryHolds(directory, parts);
  }

  /** Where a job of the list is found: kept column `c` of row `n` is entry `n % 1000` of column
      `c` in chunk `n / 1000`.  Of the columns of a row, 15, 16 and all from 22 on are dropped. */
  lemma CellOfJob<T>(jobs: seq<Row<T>>, files: map<string, seq<seq<Option<T>>>>, chunks: seq<Chunk>, n: nat, c: nat)
    requires n < |jobs| && c < 20
    requires Covers(chunks, "jobs/columnar/", |jobs|)
    requires forall k | 0 <= k < |chunks| ::
      chunks[k].file in files && Transposed(files[chunks[k].file], Slice(jobs, k))
    ensures var k := n / 1000;
      && k < |chunks| && n % 1000 < chunks[k].count
      && |files[chunks[k].file]| == 20 && |files[chunks[k].file][c]| == chunks[k].count
      && var column := if c < 15 then c else c + 2;
      && files[chunks[k].file][c][n % 1000] == if column < |jobs[n]| then Some(jobs[n][column]) else None
  {
    hide ChunkFile;
    var k, r := n / JOB_CHUNK_SIZE, n % JOB_CHUNK_SIZE;
    assert n == k * JOB_CHUNK_SIZE + r;
    assert Transposed(files[chunks[k].file], Slice(jobs, k));
    assert Slice(jobs, k)[r] == jobs[n];
  }
}
