# graphgen, modelled in Dafny

graphgen writes a random property graph as two pipe-separated tables:

- `nodes.csv`, with header `NodeID|data` and one `<id>|<url-encoded random bytes>` row per node;
- `edges.csv`, with header `SrcID|DstID` and one `<src>|<dst>` row per edge.

`p` worker threads each generate a contiguous chunk of node ids into their own
files `nodes_<i>.csv`, `edges_<i>.csv` and `stats_<i>.txt`. The main thread
then joins the workers in order and appends each worker's node and edge files
to the tables, line by line. It deletes the per-worker node and edge files and
leaves the stats files behind.

The project models the logic under that plumbing, all of it from
`src/main.rs`, in five modules:

- `Text` covers decimal rendering of ids, `\n` framing of rows, and the line reader the merge uses. The reader splits at `\n` and drops a `\r` before it.
- `Partition` is the chunk arithmetic `start = (n/p)*id`, `end = min(start + n/p, n)`. It shows which ids the run as a whole generates.
- `Sampler` holds the fraction each distribution yields, the normal draw's clamp, Rust's saturating `f64 as usize` cast, the property-buffer length `min + (f*range) as usize`, and the edge count `(f*10000) as usize`.
- `Chunk` models `generate_chunk` as a pure function from the run's parameters and an environment of random draws to the node, stats and edge rows a worker writes. It also models the three files those rows make.
- `Merge` models `generate`: the headers, the workers' files landing on a disk of named files, and the in-order merge loop with its deletions.

Randomness and foreign code are parameters of the `Chunk.Env` datatype:

- the sampler draw behind each node's property length and edge count;
- `gen_range` for each edge's destination;
- each worker's `/dev/urandom` byte stream;
- the URL encoder.

Their promises enter only as explicit requirements of the lemmas that need them:

- `Sampler.Drawable`: a uniform draw lies in `[0, 1)` and an exponential draw is non-negative;
- `Chunk.DstInRange`: `gen_range(0..n)` returns a value below `n`;
- `Chunk.EncoderPlain`: the encoder emits neither `\n` nor `\r`.

Arithmetic follows Rust's checked (debug-build) semantics. Two operations can overflow: the `usize` subtraction `max - min` and the addition `min + (f*range) as usize`. An overflow in either is a panic of the worker thread. The rows written before the panic stay in the worker's files, and the worker's output is marked unfinished. `generate` ignores the result of `join`, so those files are merged like any other.

Threads are modelled by the sequential run they amount to. Each worker writes only its own three files. The merge reads worker `i`'s files only after joining worker `i`.

Two behaviours of the code matter for the model:

- Each worker takes exactly `n/p` ids. The last worker does not absorb the remainder, so when `p` does not divide `n` the ids `(n/p)*p .. n-1` never appear in the output (`Partition.EmittedIff`, `Partition.EmitsAllIff`).
- `--nprocs 0` spawns no worker and writes only the headers (`Merge.HeadersOnly`).

## Model

| member | source | states |
|---|---|---|
| Partition.ChunkSize | src/main.rs:125 | definition of the ids per worker, `n/p`; its facts are in `ChunkFits`, `ChunkIdsSpan` and `EmittedIff` |
| Partition.ChunkStart | src/main.rs:125-126 | definition of a chunk's first id, `(n/p)*id`; its facts are in `ChunkFits`, `ChunksContiguous` and `ChunkIdsSpan` |
| Partition.ChunkEnd | src/main.rs:125-127 | definition of the chunk's end, `min(start + n/p, n)`; its facts are in `ChunkFits` and `ChunksContiguous` |
| Partition.ChunkIds | src/main.rs:125-129 | definition of the ids the loop visits, `start .. end-1`; its facts are in `ChunkIdsSpan`, `ChunksDisjoint` and `EmittedIff` |
| Partition.ChunkFits | src/main.rs:125-127 | for every worker `id < p`, `start + n/p <= n`: the `min` never clamps and every chunk holds exactly `n/p` ids inside `[0, n)` |
| Partition.ChunksContiguous | src/main.rs:125-127 | worker `id`'s chunk ends exactly where worker `id+1`'s begins |
| Partition.ChunksDisjoint | src/main.rs:125-127 | no id belongs to the chunks of two different workers |
| Partition.ChunkIdsSpan | src/main.rs:125-127 | worker `id` takes the ids `(n/p)*id .. (n/p)*(id+1) - 1`, and that range lies below `(n/p)*p` |
| Partition.ChunkThenRest | src/main.rs:125-127 | worker `id`'s ids followed by the ids of the later workers form the range from its start up to `(n/p)*p` |
| Partition.IdsUpTo | src/main.rs:181-187 | definition of the ids workers `0 .. k-1` generate, concatenated in spawn order; its facts are in `IdsUpToIsPrefix` |
| Partition.EmittedIds | src/main.rs:181-187 | definition of every id the run generates (none when `p = 0`); its facts are in `EmittedIdsExact`, `EmittedIff` and `EmitsAllIff` |
| Partition.IdsUpToIsPrefix | src/main.rs:181-187 | workers `0 .. k-1`, concatenated in spawn order, generate exactly the ids `0 .. (n/p)*k - 1`, in increasing order |
| Partition.EmittedIdsExact | src/main.rs:181-187 | the whole run generates exactly `0 .. (n/p)*p - 1`, each once and in increasing order, and `(n/p)*p <= n` |
| Partition.EmittedIff | src/main.rs:125-127 | an id `x < n` is generated iff `p > 0` and `x < n - n % p` |
| Partition.EmitsAllIff | src/main.rs:125-127 | every id of `[0, n)` is generated iff `p` divides `n` (for `p = 0`, iff `n = 0`) |
| Partition.MoreWorkersThanIds | src/main.rs:125-127 | with more workers than nodes every chunk is empty and no id is generated |
| Sampler.PropFraction | src/main.rs:68-81 | definition of the fraction `get_prop` draws for each distribution; its facts are in `FractionInUnit` and `ExpFractionUnbounded` |
| Sampler.EdgeFraction | src/main.rs:92-108 | definition of the fraction `get_n_edges` draws, squaring the exponential draw; its facts are in `FractionInUnit` and `ExpFractionUnbounded` |
| Sampler.CastToUsize | src/main.rs:82 | definition of `f64 as usize`; its facts are in `CastBounds`, `CastMonotone` and `CastBelow` |
| Sampler.PropLength | src/main.rs:82 | definition of the buffer length `min + (f*range) as usize`, `None` on overflow; its facts are in `PropLengthBounded`, `PropLengthBelowMax`, `PropLengthMonotone` and `ExpPropLengthExceedsMax` |
| Sampler.EdgeCount | src/main.rs:110 | definition of `(f*10000) as usize`; its facts are in `EdgeCountBounded` and `ExpEdgeCountExample` |
| Sampler.Clamp | src/main.rs:72-78 | the clamped normal draw lies in `[0, 1]` and a draw already in that range is unchanged |
| Sampler.ClampIdempotent | src/main.rs:72-78 | clamping twice is clamping once |
| Sampler.ClampMonotone | src/main.rs:72-78 | the clamp preserves the order of draws |
| Sampler.FractionInUnit | src/main.rs:68-108 | for the uniform and normal samplers both fractions lie in `[0, 1]`, and below 1 for the uniform one |
| Sampler.ExpFractionUnbounded | src/main.rs:80-107 | exponential fractions are non-negative but exceed 1 for any draw above 1; the squared edge fraction even exceeds the draw |
| Sampler.CastBounds | src/main.rs:82 | `f64 as usize` sends non-positive values to 0, saturates at the 64-bit maximum and truncates in between |
| Sampler.CastMonotone | src/main.rs:82 | the cast preserves order |
| Sampler.CastBelow | src/main.rs:82 | a value in `[0, r]` casts to at most `r`, and to below `r` when it is below `r` |
| Sampler.PropRange | src/main.rs:121 | `max - min` is defined iff `min <= max`, and then adds back to `max` |
| Sampler.ScaledBounds | src/main.rs:82 | `f * range` lies in `[0, range]` for `f` in `[0, 1]`, below `range` for `f < 1`, and is non-negative for `f >= 0` |
| Sampler.ScaledMonotone | src/main.rs:82 | a larger fraction scales to a larger value |
| Sampler.PropLengthBounded | src/main.rs:82 | for a fraction in `[0, 1]` the buffer length does not overflow and lies in `[min, max]` |
| Sampler.PropLengthBelowMax | src/main.rs:69-82 | a uniform fraction below 1 gives a length below `max` whenever `min < max` |
| Sampler.PropLengthMonotone | src/main.rs:82 | a larger fraction never gives a shorter buffer, nor an overflow the smaller one escapes |
| Sampler.ExpPropLengthExceedsMax | src/main.rs:80-82 | the exponential sampler has no upper bound: a draw of 2 gives a length above `max` or an overflow |
| Sampler.EdgeCountBounded | src/main.rs:92-110 | uniform and normal samplers draw at most 10000 edges per node, the uniform one fewer than 10000 |
| Sampler.ExpEdgeCountExample | src/main.rs:104-110 | the exponential sampler has no such bound: a draw of 2 gives 40000 edges |
| Text.Dec | src/main.rs:136 | an id renders as a non-empty digit string without leading zeros |
| Text.ParseDecOfDec | src/main.rs:136 | reading a rendered id back gives the id |
| Text.DecInjective | src/main.rs:192 | distinct ids render differently, so distinct workers get distinct file names |
| Text.Frame | src/main.rs:136-148 | a non-empty run of written rows ends in `\n` |
| Text.FrameAppend | src/main.rs:129-152 | writing two runs of rows one after the other gives the two texts concatenated |
| Text.BreakAt | src/main.rs:156-162 | finds the first `\n`, with no `\n` before it |
| Text.Lines | src/main.rs:156-162 | the reader's lines contain no `\n`, and a file yields no line iff it is empty |
| Text.PlainIsClean | src/main.rs:195-203 | a row with neither `\n` nor `\r` is a line the reader hands back unchanged |
| Text.Reframe | src/main.rs:195-203 | re-writing a file's lines with one `\n` each yields nothing iff the file is empty |
| Text.LinesOfFrame | src/main.rs:195-203 | reading back rows written one per line gives exactly those rows, when none holds a line break or ends in `\r` |
| Text.ReframeOfFrame | src/main.rs:195-203 | copying such a file line by line reproduces it byte for byte |
| Text.ReframeTerminates | src/main.rs:195-203 | a last line without a terminator gains exactly one `\n` in the copy |
| Text.ReframeDropsCr | src/main.rs:195-203 | a `\r\n`-terminated line is copied with a bare `\n` |
| Chunk.NodePropLength | src/main.rs:60-82 | definition of the buffer length `get_prop` computes for node `nid`, `None` on overflow; its facts are in `WrittenWithin`, `ChunkPropLengths` and `ChunkFinished` |
| Chunk.NodeDegree | src/main.rs:89-111 | definition of node `nid`'s edge count from `get_n_edges`; its facts are in `GenRows` (each stats row holds it), `EdgeBlockCounts` and `Sampler.EdgeCountBounded` |
| Chunk.ReadBytes | src/main.rs:82-85 | `read_exact` fills a buffer of exactly the requested length |
| Chunk.EdgesOf | src/main.rs:146-148 | a node drawing `count` edges writes exactly `count` edge rows, each with that node as source |
| Chunk.EdgeBlock | src/main.rs:146-152 | definition of the edge rows the inner loop writes for nodes `lo .. hi-1`, in node order; its facts are in `EdgeBlockWithin`, `EdgeBlockSorted`, `EdgeBlockCounts`, `EdgeBlockDst` and `GenRows` |
| Chunk.EdgeBlockWithin | src/main.rs:146-148 | every edge written for nodes `lo .. hi-1` has its source among them |
| Chunk.EdgeBlockSorted | src/main.rs:129-152 | the edge rows come grouped by source, in increasing source order |
| Chunk.EdgeBlockCounts | src/main.rs:141-152 | each node has exactly as many edge rows as the edge count it drew |
| Chunk.EdgeBlockDst | src/main.rs:147 | every destination lies below `n` when `gen_range(0..n)` keeps its promise |
| Chunk.Offset | src/main.rs:122-135 | definition of where node `nid+i`'s buffer starts in the worker's one `/dev/urandom` stream: past the buffers of the nodes before it; its facts are in `OffsetStep` |
| Chunk.OffsetStep | src/main.rs:82-85 | each node's buffer starts exactly where the previous node's buffer ends, so the buffers tile the stream without gaps or overlap |
| Chunk.GenRows | src/main.rs:129-152 | the loop writes one node row and one stats row per node, with ids `nid, nid+1, ...`; each stats row holds the node's edge count; the edge rows are the nodes' edge blocks in node order; an unfinished loop stopped at a node whose length overflowed (what each property holds is in `GenRowsProps`) |
| Chunk.GenRowsFinished | src/main.rs:129-152 | the loop reaches `end` iff no property length from `nid` on overflows |
| Chunk.ReadAt | src/main.rs:82-136 | definition of a row the loop wrote from the stream: the node's length did not overflow and its property encodes that many bytes read at `Offset`; its facts are in `GenRowsProps` |
| Chunk.GenRowsProps | src/main.rs:129-136 | every node the loop writes had a length that did not overflow, so an unfinished loop stopped at the first overflow; node `nid+i`'s property is the encoding of the `len` bytes read at `Offset(..., i)`, where `len` is that node's own sampled length |
| Chunk.PrependProps | src/main.rs:129-136 | one pass of the loop keeps that fact: node `nid`'s row read at `pos`, put in front of rows read from `pos + len` on, is read at the offsets `Offset` gives |
| Chunk.GenerateChunk | src/main.rs:113-153 | a worker writes nothing when `max - min` underflows; otherwise node and stats rows follow its chunk's ids in order, a finished worker covers the whole chunk, every edge source is one of its nodes, and each stats row's count equals the number of edge rows with that source (what each property holds is in `ChunkProps`) |
| Chunk.StreamPos | src/main.rs:122-135 | definition of the stream position where worker `id`'s `i`-th node buffer starts, `Offset` from its chunk's first id and position 0 |
| Chunk.PropWritten | src/main.rs:82-86 | definition of a correctly written property: the node's length fits and the property encodes that many bytes read at `StreamPos` |
| Chunk.ChunkProps | src/main.rs:121-153 | every node row of a worker satisfies `PropWritten`, and an unfinished worker stopped at the node right after its last row, whose length does not fit |
| Chunk.RowsEncoded | src/main.rs:129-136 | the rows of the loop over a worker's chunk satisfy `PropWritten` |
| Chunk.RowsStopped | src/main.rs:129-136 | the loop over a worker's chunk stops early only at a node whose length does not fit |
| Chunk.RowsWritten | src/main.rs:82-86 | rows read at the worker's own offsets, with the chunk's consecutive ids, satisfy `PropWritten` |
| Chunk.ReadAtWritten | src/main.rs:82-86 | the same for one row |
| Chunk.ChunkPropLengths | src/main.rs:68-86 | with `min <= max`, the uniform or normal sampler and exact fractions, every property encodes a buffer read at the worker's stream position whose length lies in `[min, max]` |
| Chunk.WrittenWithin | src/main.rs:68-82 | under the same conditions a node's length fits and lies in `[min, max]` |
| Chunk.RowsShape | src/main.rs:129-152 | rows laid out by the loop have consecutive node ids, edges whose sources are among those ids, and stats counts equal to each node's number of edge rows |
| Chunk.ChunkEdgesSorted | src/main.rs:129-152 | a worker's edge rows never decrease in source |
| Chunk.RowsSorted | src/main.rs:129-152 | the loop's edge rows never decrease in source, for any samples |
| Chunk.ChunkEdgesInRange | src/main.rs:146-148 | every edge row of a worker has a source in its chunk and below `n`, and a destination below `n` |
| Chunk.ChunkEdgeTargets | src/main.rs:147 | every destination a worker writes lies below `n` |
| Chunk.RowsDst | src/main.rs:147 | every destination the loop writes lies below `n`, for any samples |
| Chunk.ChunkFinished | src/main.rs:121-152 | a worker finishes iff `min <= max` and no property length in its chunk overflows |
| Chunk.SamplesFinished | src/main.rs:129-152 | the loop over `[lo, hi)` finishes iff every node there computes its length without overflow |
| Chunk.ChunkRows | src/main.rs:121-129 | with `min <= max` a worker's rows are exactly those of the loop over `start .. end-1` |
| Chunk.ChunkCompletes | src/main.rs:68-82 | with `min <= max`, the uniform or normal sampler and exact fractions, a worker never panics and writes a node row for every id of its chunk |
| Chunk.GenRowsPlain | src/main.rs:86 | every property written is an encoder output, so it holds no line break when the encoder emits none |
| Chunk.ChunkPlain | src/main.rs:130-136 | a worker's property strings hold no line break when the encoder emits none |
| Chunk.ChunkLinesClean | src/main.rs:136-148 | node rows (given such an encoder) and edge rows contain neither `\n` nor `\r` |
| Chunk.NodeText | src/main.rs:136 | definition of the node line body `<id>\|<prop>`; its facts are in `ChunkLinesClean` and `ChunkFilesReadBack` |
| Chunk.StatText | src/main.rs:142 | definition of the stats line body `<id> <count>`; its facts are in `Merge.MergedFiles` |
| Chunk.EdgeText | src/main.rs:148 | definition of the edge line body `<src>\|<dst>`; its facts are in `ChunkLinesClean` and `ChunkFilesReadBack` |
| Chunk.NodesFile | src/main.rs:114-139 | definition of the contents of `nodes_<id>.csv`, one framed line per node row; its facts are in `ChunkFilesReadBack` |
| Chunk.EdgesFile | src/main.rs:116-151 | definition of the contents of `edges_<id>.csv`; its facts are in `ChunkFilesReadBack` |
| Chunk.StatsFile | src/main.rs:118-145 | definition of the contents of `stats_<id>.txt`; its facts are in `Merge.MergedFiles` |
| Chunk.ChunkFilesReadBack | src/main.rs:136-148 | reading a worker's node and edge files back yields exactly its rows, and copying them line by line reproduces them byte for byte |
| Merge.Path | src/main.rs:114-119 | definition of the names `nodes_<i>.csv`, `edges_<i>.csv` and `stats_<i>.txt`, also formatted at lines 192 and 210; its facts are in `PathsDistinct` |
| Merge.PathsDistinct | src/main.rs:114-119 | two per-worker files share a name iff they are the same file, and none is named `nodes.csv` or `edges.csv` |
| Merge.SameMiddle | src/main.rs:192 | two names with the same prefix and suffix have the same middle |
| Merge.Copied | src/main.rs:193-204 | definition of what a line-by-line copy of a worker file appends: its lines, each with one `\n`, or nothing when the file is absent; its facts are in `Text.ReframeOfFrame` and `SpawnCopies` |
| Merge.MergeStep | src/main.rs:192-226 | definition of one pass of the merge loop over worker `i`; its facts are in `MergeStepNodes` and `MergeStepEdges` |
| Merge.Collected | src/main.rs:189-222 | definition of the text the merge loop appends to a table for workers `i .. p-1`: each one's re-read lines, in worker order; its facts are in `MergeFrom`, `CollectedIsJoined` and `CollectedOfBlank` |
| Merge.MergeFrom | src/main.rs:189-228 | the merge loop appends, to each table, the collected copies of workers `i .. p-1` in order; it removes exactly their node and edge files and keeps everything else |
| Merge.MergeStepNodes | src/main.rs:192-209 | one pass moves worker `i`'s node file copy into the node table, and deleting it leaves later workers' copies unchanged |
| Merge.MergeStepEdges | src/main.rs:210-226 | the same for the edge file and the edge table |
| Merge.CollectedIgnoresEarlier | src/main.rs:205-226 | deleting an earlier worker's files does not change what later workers contribute |
| Merge.RemainingStep | src/main.rs:205-227 | deleting worker `i`'s node and edge files, then merging from `i+1`, leaves what merging from `i` leaves |
| Merge.WrittenNames | src/main.rs:114-119 | workers `0 .. k-1` create exactly the files numbered below `k` |
| Merge.Spawn | src/main.rs:179-187 | after the workers run, each of their three files holds what that worker wrote, and files with other numbers are as before |
| Merge.FilesAppend | src/main.rs:195-203 | the file of two runs of rows is the concatenation of their files |
| Merge.CollectedIsJoined | src/main.rs:189-222 | when each worker's file copies as itself, the merge appends exactly the concatenation of the workers' files, in worker order |
| Merge.SpawnCopies | src/main.rs:189-222 | files that read back unchanged are copied into the tables as written |
| Merge.Run | src/main.rs:164-228 | definition of a whole run of `generate` on a disk; its facts are in `RunTables`, `RunFiles`, `RunNodeIds` and `HeadersOnly` |
| Merge.RunTables | src/main.rs:168-222 | with an encoder that emits no line break, each table is its header followed by one line per node row (edge row) the workers wrote, in worker order, byte for byte |
| Merge.MergedFiles | src/main.rs:189-228 | after the merge no worker node or edge file remains, every worker's stats file holds its stats rows, and files of other numbers are untouched |
| Merge.RunFiles | src/main.rs:189-228 | the same for a whole run: node and edge files deleted, stats files kept with their rows |
| Merge.JoinedFinished | src/main.rs:189-191 | the joined rows are complete iff every worker finished |
| Merge.JoinedIds | src/main.rs:189-204 | workers `i ..` that cover their chunks contribute the node ids `(n/p)*i .. (n/p)*p - 1` in order |
| Merge.RunFinished | src/main.rs:189-191 | the run is complete iff no worker panicked |
| Merge.RunIds | src/main.rs:181-204 | a complete run writes exactly the ids every chunk generates, in increasing order |
| Merge.RunNodeIds | src/main.rs:164-229 | with `min <= max`, the uniform or normal sampler, exact fractions and a line-break-free encoder, the node table is its header plus one row per id `0 .. (n/p)*p - 1` in increasing order |
| Merge.ChunkEmpty | src/main.rs:121-127 | with more workers than nodes, or `min > max`, a worker writes no node or edge row |
| Merge.CollectedOfBlank | src/main.rs:193-222 | workers whose files copy as nothing add nothing to the tables |
| Merge.SpawnBlank | src/main.rs:181-187 | a worker that wrote no rows leaves node and edge files that copy as nothing |
| Merge.HeadersOnly | src/main.rs:168-187 | with no workers, more workers than nodes, or `min > max`, each table holds only its header |

## Left out

- Argument parsing with `clap`, and the mapping of `--edge-dist`/`--prop-dist` onto `Dist`, are left out: this is library configuration. `Chunk.Config` holds the parsed values.
- `create_dir` (which shells out to `mkdir -p`) and `set_current_dir` are left out as filesystem effects. File names are modelled relative to the output directory.
- Each `rm` is modelled only as the removal of a name from the disk map. The spawned process is not modelled.
- The `/dev/urandom` stream, the `rand`/`rand_distr` samplers, `gen_range` and `urlencoding::encode_binary` are oracles in `Chunk.Env`.
  - Their distributions are not modelled, only the ranges in `Sampler.Drawable` and `Chunk.DstInRange`.
  - The encoder's freedom from line breaks is the stated assumption `Chunk.EncoderPlain`.
- Fractions are exact reals, not IEEE doubles, so `f * range` is computed without rounding.
- Sampler.PropLengthBounded: the bounds are stated for the exact product `f * range`. In IEEE doubles, `range as f64` is exact only up to 2^53. Up to there, the rounded product can move the truncated length by at most one unit. Above 2^53, `range` itself rounds, by up to half the spacing between doubles near `range`. With `f = 1` and `range = 2^60 + 129`, the cast gives `range + 127`. With `min = 1` and `max = 2^64 - 1`, the range `2^64 - 2` rounds to 2^64, the cast saturates to `2^64 - 1`, and `min + len` overflows.
- Chunk.ChunkCompletes: "no worker panics" holds for exact fractions only. With doubles, a range above 2^53 can round up far enough that `min + len` at line 82 of `src/main.rs` overflows, as in the example above. It also needs `max <= 2^63 - 1`, because a larger buffer makes the allocation at line 82 panic (see the allocation line below).
- Chunk.ChunkFinished: the iff counts only the overflow of `min + len` as a panic. A buffer length above `2^63 - 1` also panics, in the allocation at line 82, but the model does not count that. So the iff holds only while no length in the chunk exceeds `2^63 - 1`. For the uniform and normal samplers with exact fractions, `max <= 2^63 - 1` guarantees that.
- Chunk.ChunkPropLengths: the `[min, max]` bound on each buffer holds for exact fractions only. With doubles and a range above 2^53, a length can exceed `max`, or overflow.
- Merge.RunNodeIds: the run writing a row for every generated id rests on `Chunk.ChunkCompletes`, so it too assumes exact arithmetic and `max <= 2^63 - 1`.
- Threads, `join` and `tqdm` are left out; the run is the sequential composition described above.
- Release builds wrap `max - min` and `min + len` instead of panicking. Only the checked (debug) semantics are modelled.
- I/O failures are not modelled: each `expect` on `File::create`, `write_all` or `read_exact` would panic on them. Files are always created and writes always succeed.
- The buffer allocation `vec![0u8; len]` at line 82 of `src/main.rs` is left out. It panics with a capacity overflow whenever `len > 2^63 - 1`, even with exact fractions (`min = 2^63`, `max = 2^63 + 1`). `Chunk.ChunkFinished` and `Chunk.ChunkCompletes` above say what this costs them. A failed allocation of a merely huge buffer aborts the whole process, and then no merge happens at all.
- `Text.Lines` works on strings of characters. It does not model `lines().flatten()` skipping a line that is not valid UTF-8, nor looping forever on a persistent read error (a name that is a directory, say), where `Lines::next` keeps returning an error. The worker files hold ASCII only, so this cannot arise for them.
- A worker that panics mid-row cannot leave a partial line in the model. Every row is written with a single `write_all`, and a panic falls between rows.
