/**
 * `generate_chunk`: worker `id` walks its ids in increasing order and, for
 * each, writes one node row `<id>|<prop>`, one stats row `<id> <count>` and
 * `count` edge rows `<id>|<dst>`. Random draws, the `/dev/urandom` stream and
 * the URL encoder come in through `Env`. Arithmetic overflow is a panic of
 * the worker thread (Rust's checked arithmetic): the rows written before it
 * stay in the files and the worker is marked unfinished.
 */
module Chunk {
  import opened Text
  import opened Partition
  import opened Sampler

  type byte = bv8

  /** The run's parameters, as parsed from the command line. */
  datatype Config = Config(
    nNodes: usize,
    minPropSize: usize,
    maxPropSize: usize,
    edgeDist: Dist,
    propDist: Dist,
    nProcs: usize)

  /** Everything random or foreign the generator consults. */
  datatype Env = Env(
    /** the sampler draw behind node `nid`'s property length */
    propDraw: nat -> real,
    /** the sampler draw behind node `nid`'s edge count */
    edgeDraw: nat -> real,
    /** `gen_range(0..n)` for the `j`-th edge of node `nid` */
    dstDraw: (nat, nat) -> nat,
    /** byte `k` of the `/dev/urandom` stream opened by worker `id` */
    urandom: (nat, nat) -> byte,
    /** the byte-to-text encoder applied to each property buffer */
    encode: seq<byte> -> string)

  datatype NodeRow = NodeRow(id: nat, prop: string)
  datatype StatRow = StatRow(id: nat, degree: nat)
  datatype EdgeRow = EdgeRow(src: nat, dst: nat)

  /** The rows a worker wrote; `finished` is false when it panicked part-way. */
  datatype ChunkOutput = ChunkOutput(
    nodes: seq<NodeRow>,
    stats: seq<StatRow>,
    edges: seq<EdgeRow>,
    finished: bool)

  /** `gen_range(0..n)` keeps its promise for every node the generator can reach. */
  ghost predicate DstInRange(e: Env, n: nat) {
    forall nid: nat, j: nat :: nid < n ==> e.dstDraw(nid, j) < n
  }

  /** The encoder never emits a line-break character. */
  ghost predicate EncoderPlain(e: Env) {
    forall b :: Plain(e.encode(b))
  }

  /** `read_exact` of `len` bytes at position `pos` of worker `id`'s stream. */
  function ReadBytes(e: Env, id: nat, pos: nat, len: nat): (b: seq<byte>)
    ensures |b| == len
  {
    seq(len, k requires 0 <= k < len => e.urandom(id, pos + k))
  }

  /** The property length `get_prop` derives for node `nid`. */
  function NodePropLength(c: Config, e: Env, range: usize, nid: nat): Option<usize> {
    PropLength(c.minPropSize, range, PropFraction(c.propDist, e.propDraw(nid)))
  }

  /** Node `nid`'s edge count, from `get_n_edges`. */
  function NodeDegree(c: Config, e: Env, nid: nat): usize {
    EdgeCount(c.edgeDist, e.edgeDraw(nid))
  }

  /**
   * What the samplers yield per node, as the loop consumes it: the property
   * length (`None` when it overflows) and the edge count.
   */
  datatype Samples = Samples(propLen: nat -> Option<usize>, degree: nat -> nat)

  /** The samples of a run whose property range is `range`. */
  function SamplesOf(c: Config, e: Env, range: usize): Samples {
    Samples((k: nat) => NodePropLength(c, e, range, k), (k: nat) => NodeDegree(c, e, k))
  }

  /** The edge rows written for node `nid` when it draws `count` edges. */
  function EdgesOf(e: Env, nid: nat, count: nat): (r: seq<EdgeRow>)
    ensures |r| == count
    ensures forall k :: 0 <= k < |r| ==> r[k].src == nid
  {
    seq(count, j requires 0 <= j < count => EdgeRow(nid, e.dstDraw(nid, j)))
  }

  /** Number of edge rows whose source is `x`. */
  function CountSrc(edges: seq<EdgeRow>, x: nat): nat
    decreases |edges|
  {
    if |edges| == 0 then 0
    else (if edges[0].src == x then 1 else 0) + CountSrc(edges[1..], x)
  }

  lemma {:induction false} CountSrcAllMatch(edges: seq<EdgeRow>, x: nat)
    requires forall k :: 0 <= k < |edges| ==> edges[k].src == x
    ensures CountSrc(edges, x) == |edges|
    decreases |edges|
  {
    if |edges| > 0 {
      CountSrcAllMatch(edges[1..], x);
    }
  }

  lemma {:induction false} CountSrcNoMatch(edges: seq<EdgeRow>, x: nat)
    requires forall k :: 0 <= k < |edges| ==> edges[k].src != x
    ensures CountSrc(edges, x) == 0
    decreases |edges|
  {
    if |edges| > 0 {
      CountSrcNoMatch(edges[1..], x);
    }
  }

  lemma {:induction false} CountSrcAppend(a: seq<EdgeRow>, b: seq<EdgeRow>, x: nat)
    ensures CountSrc(a + b, x) == CountSrc(a, x) + CountSrc(b, x)
    decreases |a|
  {
    if |a| == 0 {
      assert a + b == b;
    } else {
      assert (a + b)[1..] == a[1..] + b;
      CountSrcAppend(a[1..], b, x);
    }
  }

  /** Prepending one node's edges counts them for that node and leaves later nodes' counts alone. */
  lemma PrependCounts(mine: seq<EdgeRow>, rest: seq<EdgeRow>, nid: nat)
    requires forall k :: 0 <= k < |mine| ==> mine[k].src == nid
    requires forall k :: 0 <= k < |rest| ==> rest[k].src > nid
    ensures CountSrc(mine + rest, nid) == |mine|
    ensures forall x :: x > nid ==> CountSrc(mine + rest, x) == CountSrc(rest, x)
  {
    CountSrcAppend(mine, rest, nid);
    CountSrcAllMatch(mine, nid);
    CountSrcNoMatch(rest, nid);
    forall x | x > nid
      ensures CountSrc(mine + rest, x) == CountSrc(rest, x)
    {
      CountSrcAppend(mine, rest, x);
      CountSrcNoMatch(mine, x);
    }
  }

  /** The edge rows of nodes `lo .. hi-1`, node by node, each drawing its sampled edge count. */
  function EdgeBlock(e: Env, s: Samples, lo: nat, hi: nat): seq<EdgeRow>
    decreases hi - lo
  {
    if lo >= hi then [] else EdgesOf(e, lo, s.degree(lo)) + EdgeBlock(e, s, lo + 1, hi)
  }

  /** Sources in `[lo, hi)` for every edge row. */
  predicate SrcWithin(edges: seq<EdgeRow>, lo: nat, hi: nat) {
    forall k :: 0 <= k < |edges| ==> lo <= edges[k].src < hi
  }

  /** Sources never decrease along the edge rows. */
  predicate SrcSorted(edges: seq<EdgeRow>) {
    forall k, l :: 0 <= k < l < |edges| ==> edges[k].src <= edges[l].src
  }

  lemma PrependWithin(mine: seq<EdgeRow>, rest: seq<EdgeRow>, nid: nat, hi: nat)
    requires nid < hi
    requires forall k :: 0 <= k < |mine| ==> mine[k].src == nid
    requires SrcWithin(rest, nid + 1, hi)
    ensures SrcWithin(mine + rest, nid, hi)
  {
    var r := mine + rest;
    forall k | 0 <= k < |r|
      ensures nid <= r[k].src < hi
    {
      if k < |mine| {
        assert r[k] == mine[k];
      } else {
        assert r[k] == rest[k - |mine|];
      }
    }
  }

  lemma PrependSorted(mine: seq<EdgeRow>, rest: seq<EdgeRow>, nid: nat)
    requires forall k :: 0 <= k < |mine| ==> mine[k].src == nid
    requires forall k :: 0 <= k < |rest| ==> rest[k].src > nid
    requires SrcSorted(rest)
    ensures SrcSorted(mine + rest)
  {
    var r := mine + rest;
    forall k, l | 0 <= k < l < |r|
      ensures r[k].src <= r[l].src
    {
      if l < |mine| {
        assert r[k] == mine[k] && r[l] == mine[l];
      } else if k < |mine| {
        assert r[k] == mine[k] && r[l] == rest[l - |mine|];
      } else {
        assert r[k] == rest[k - |mine|] && r[l] == rest[l - |mine|];
      }
    }
  }

  /** Every edge of nodes `lo .. hi-1` has its source among them. */
  lemma {:induction false} EdgeBlockWithin(e: Env, s: Samples, lo: nat, hi: nat)
    ensures SrcWithin(EdgeBlock(e, s, lo, hi), lo, hi)
    decreases hi - lo
  {
    if lo < hi {
      EdgeBlockWithin(e, s, lo + 1, hi);
      PrependWithin(EdgesOf(e, lo, s.degree(lo)), EdgeBlock(e, s, lo + 1, hi), lo, hi);
    }
  }

  /** The edges come grouped by source, in increasing order. */
  lemma {:induction false} EdgeBlockSorted(e: Env, s: Samples, lo: nat, hi: nat)
    ensures SrcSorted(EdgeBlock(e, s, lo, hi))
    decreases hi - lo
  {
    if lo < hi {
      EdgeBlockWithin(e, s, lo + 1, hi);
      EdgeBlockSorted(e, s, lo + 1, hi);
      PrependSorted(EdgesOf(e, lo, s.degree(lo)), EdgeBlock(e, s, lo + 1, hi), lo);
    }
  }

  /** Node `x` of the block has exactly its sampled number of edge rows. */
  lemma {:induction false} EdgeBlockCounts(e: Env, s: Samples, lo: nat, hi: nat)
    ensures forall x :: lo <= x < hi ==> CountSrc(EdgeBlock(e, s, lo, hi), x) == s.degree(x)
    decreases hi - lo
  {
    if lo < hi {
      var mine, rest := EdgesOf(e, lo, s.degree(lo)), EdgeBlock(e, s, lo + 1, hi);
      EdgeBlockWithin(e, s, lo + 1, hi);
      EdgeBlockCounts(e, s, lo + 1, hi);
      PrependCounts(mine, rest, lo);
    }
  }

  /** With `gen_range` in range, every destination is a node id below `n`. */
  lemma {:induction false} EdgeBlockDst(e: Env, s: Samples, lo: nat, hi: nat, n: nat)
    requires hi <= n
    requires DstInRange(e, n)
    ensures forall k :: 0 <= k < |EdgeBlock(e, s, lo, hi)| ==> EdgeBlock(e, s, lo, hi)[k].dst < n
    decreases hi - lo
  {
    if lo < hi {
      var mine: seq<EdgeRow>, rest: seq<EdgeRow> := EdgesOf(e, lo, s.degree(lo)), EdgeBlock(e, s, lo + 1, hi);
      EdgeBlockDst(e, s, lo + 1, hi, n);
      forall k | 0 <= k < |mine + rest|
        ensures (mine + rest)[k].dst < n
      {
        if k < |mine| {
          assert (mine + rest)[k] == EdgeRow(lo, e.dstDraw(lo, k));
        } else {
          assert (mine + rest)[k] == rest[k - |mine|];
        }
      }
    }
  }

  /**
   * Where node `nid + i`'s buffer starts in the worker's stream when the loop
   * starts at node `nid` reading from position `pos`: just past the buffers
   * of the nodes before it.
   */
  function Offset(s: Samples, nid: nat, pos: nat, i: nat): nat
    decreases i
  {
    if i == 0 then pos
    else match s.propLen(nid)
      case None => pos
      case Some(len) => Offset(s, nid + 1, pos + len, i - 1)
  }

  /** Consecutive nodes read consecutive, non-overlapping stretches of the stream. */
  lemma {:induction false} OffsetStep(s: Samples, nid: nat, pos: nat, i: nat)
    requires forall k :: nid <= k <= nid + i ==> s.propLen(k).Some?
    ensures Offset(s, nid, pos, i + 1) == Offset(s, nid, pos, i) + s.propLen(nid + i).value
    decreases i
  {
    if i > 0 {
      OffsetStep(s, nid + 1, pos + s.propLen(nid).value, i - 1);
    }
  }

  /**
   * The loop of `generate_chunk` from node `nid` up to `end`, reading the
   * random stream from position `pos`. It stops early, unfinished, at the
   * first node whose property length overflows; every node it passes gets
   * its node row, its stats row and its block of edge rows.
   */
  function GenRows(e: Env, s: Samples, id: nat, nid: nat, end: nat, pos: nat): (r: ChunkOutput)
    requires nid <= end
    ensures |r.nodes| == |r.stats| <= end - nid
    ensures r.finished ==> |r.nodes| == end - nid
    ensures !r.finished ==> s.propLen(nid + |r.nodes|).None?
    ensures forall i :: 0 <= i < |r.nodes| ==>
      r.nodes[i].id == nid + i && r.stats[i] == StatRow(nid + i, s.degree(nid + i))
    ensures r.edges == EdgeBlock(e, s, nid, nid + |r.nodes|)
    decreases end - nid
  {
    if nid == end then ChunkOutput([], [], [], true)
    else if s.propLen(nid).None? then ChunkOutput([], [], [], false)
    else
      var len := s.propLen(nid).value;
      var prop := e.encode(ReadBytes(e, id, pos, len));
      var degree := s.degree(nid);
      var rest := GenRows(e, s, id, nid + 1, end, pos + len);
      ChunkOutput(
        [NodeRow(nid, prop)] + rest.nodes,
        [StatRow(nid, degree)] + rest.stats,
        EdgesOf(e, nid, degree) + rest.edges,
        rest.finished)
  }

  /**
   * One pass of the loop: node `nid`'s rows in front of the rows of the nodes
   * after it. This only unfolds `GenRows` once; it is a proof helper, not a
   * property of the source.
   */
  lemma GenRowsStep(e: Env, s: Samples, id: nat, nid: nat, end: nat, pos: nat)
    requires nid < end && s.propLen(nid).Some?
    ensures GenRows(e, s, id, nid, end, pos) == ChunkOutput(
      [NodeRow(nid, e.encode(ReadBytes(e, id, pos, s.propLen(nid).value)))] + GenRows(e, s, id, nid + 1, end, pos + s.propLen(nid).value).nodes,
      [StatRow(nid, s.degree(nid))] + GenRows(e, s, id, nid + 1, end, pos + s.propLen(nid).value).stats,
      EdgesOf(e, nid, s.degree(nid)) + GenRows(e, s, id, nid + 1, end, pos + s.propLen(nid).value).edges,
      GenRows(e, s, id, nid + 1, end, pos + s.propLen(nid).value).finished)
  {
  }

  /** The loop runs to `end` iff no property length from `nid` on overflows. */
  lemma {:induction false} GenRowsFinished(e: Env, s: Samples, id: nat, nid: nat, end: nat, pos: nat)
    requires nid <= end
    ensures GenRows(e, s, id, nid, end, pos).finished <==>
      forall k: nat :: nid <= k < end ==> s.propLen(k).Some?
    decreases end - nid
  {
    if nid < end && s.propLen(nid).Some? {
      var len := s.propLen(nid).value;
      GenRowsFinished(e, s, id, nid + 1, end, pos + len);
      GenRowsStep(e, s, id, nid, end, pos);
    }
  }

  /**
   * Row `row`, the `i`-th the loop writes when it starts at node `nid` and
   * stream position `pos`, has a length that did not overflow and holds the
   * encoding of exactly that node's bytes of the stream.
   */
  predicate ReadAt(e: Env, s: Samples, id: nat, nid: nat, pos: nat, i: nat, row: NodeRow) {
    && s.propLen(nid + i).Some?
    && row.prop == e.encode(ReadBytes(e, id, Offset(s, nid, pos, i), s.propLen(nid + i).value))
  }

  /**
   * Every node the loop writes had a length that did not overflow, so an
   * unfinished loop stopped at the first overflow; and each property is the
   * encoding of exactly that node's bytes of the stream.
   */
  lemma {:induction false} GenRowsProps(e: Env, s: Samples, id: nat, nid: nat, end: nat, pos: nat)
    requires nid <= end
    ensures forall i :: 0 <= i < |GenRows(e, s, id, nid, end, pos).nodes| ==>
      ReadAt(e, s, id, nid, pos, i, GenRows(e, s, id, nid, end, pos).nodes[i])
    decreases end - nid
  {
    if nid < end && s.propLen(nid).Some? {
      var len := s.propLen(nid).value;
      GenRowsProps(e, s, id, nid + 1, end, pos + len);
      GenRowsStep(e, s, id, nid, end, pos);
      var rest := GenRows(e, s, id, nid + 1, end, pos + len).nodes;
      PrependProps(e, s, id, nid, pos, rest);
      assert GenRows(e, s, id, nid, end, pos).nodes == [NodeRow(nid, e.encode(ReadBytes(e, id, pos, len)))] + rest;
    }
  }

  /** Node `nid`'s row, read at `pos`, in front of rows read at the offsets that follow it. */
  lemma PrependProps(e: Env, s: Samples, id: nat, nid: nat, pos: nat, rest: seq<NodeRow>)
    requires s.propLen(nid).Some?
    requires forall j :: 0 <= j < |rest| ==> ReadAt(e, s, id, nid + 1, pos + s.propLen(nid).value, j, rest[j])
    ensures forall i :: 0 <= i < 1 + |rest| ==>
      ReadAt(e, s, id, nid, pos, i, ([NodeRow(nid, e.encode(ReadBytes(e, id, pos, s.propLen(nid).value)))] + rest)[i])
  {
    var len := s.propLen(nid).value;
    var rows := [NodeRow(nid, e.encode(ReadBytes(e, id, pos, len)))] + rest;
    forall i | 0 <= i < |rows|
      ensures ReadAt(e, s, id, nid, pos, i, rows[i])
    {
      if i == 0 {
        assert Offset(s, nid, pos, 0) == pos;
      } else {
        var j := i - 1;
        assert ReadAt(e, s, id, nid + 1, pos + len, j, rest[j]);
        assert nid + 1 + j == nid + i;
        assert rows[i] == rest[j];
        assert Offset(s, nid, pos, i) == Offset(s, nid + 1, pos + len, j);
      }
    }
  }

  /**
   * Worker `id` of `p`: computes `max - min` (a panic before any row when it
   * underflows), then generates its chunk of ids.
   */
  function GenerateChunk(c: Config, e: Env, id: nat): (r: ChunkOutput)
    requires 0 < c.nProcs && id < c.nProcs
    ensures c.minPropSize > c.maxPropSize ==> r == ChunkOutput([], [], [], false)
    ensures |r.nodes| == |r.stats| <= |ChunkIds(c.nNodes, c.nProcs, id)|
    ensures forall i :: 0 <= i < |r.nodes| ==>
      r.nodes[i].id == ChunkIds(c.nNodes, c.nProcs, id)[i] && r.stats[i].id == r.nodes[i].id
    ensures r.finished ==> NodeIds(r.nodes) == ChunkIds(c.nNodes, c.nProcs, id)
    ensures forall k :: 0 <= k < |r.edges| ==> r.edges[k].src in NodeIds(r.nodes)
    ensures forall i :: 0 <= i < |r.stats| ==> CountSrc(r.edges, r.stats[i].id) == r.stats[i].degree
  {
    var n, p := c.nNodes, c.nProcs;
    ChunkFits(n, p, id);
    match PropRange(c.minPropSize, c.maxPropSize)
    case None => ChunkOutput([], [], [], false)
    case Some(range) =>
      assert range == c.maxPropSize - c.minPropSize;
      var s, lo := SamplesOf(c, e, range), ChunkStart(n, p, id);
      var r := GenRows(e, s, id, lo, ChunkEnd(n, p, id), 0);
      RowsShape(e, s, r, lo);
      r
  }

  /** Where, in worker `id`'s stream, the buffer of the `i`-th node it writes starts. */
  function StreamPos(c: Config, e: Env, id: nat, i: nat): nat
    requires 0 < c.nProcs && c.minPropSize <= c.maxPropSize
  {
    Offset(SamplesOf(c, e, c.maxPropSize - c.minPropSize), ChunkStart(c.nNodes, c.nProcs, id), 0, i)
  }

  /**
   * `row`, the `i`-th node row of worker `id`, passed `get_prop`'s length
   * computation and holds the encoding of exactly that many bytes of the
   * worker's stream, read at the node's position.
   */
  predicate PropWritten(c: Config, e: Env, id: nat, i: nat, row: NodeRow)
    requires 0 < c.nProcs
  {
    && PropFits(c, e, row.id)
    && row.prop == e.encode(ReadBytes(e, id, StreamPos(c, e, id, i),
         NodePropLength(c, e, c.maxPropSize - c.minPropSize, row.id).value))
  }

  /** The loop over a worker's chunk writes properties as `PropWritten` says and stops at the first overflow. */
  lemma RowsEncoded(c: Config, e: Env, id: nat, end: nat, r: ChunkOutput)
    requires 0 < c.nProcs && c.minPropSize <= c.maxPropSize
    requires ChunkStart(c.nNodes, c.nProcs, id) <= end
    requires r == GenRows(e, SamplesOf(c, e, c.maxPropSize - c.minPropSize), id, ChunkStart(c.nNodes, c.nProcs, id), end, 0)
    ensures forall i :: 0 <= i < |r.nodes| ==> PropWritten(c, e, id, i, r.nodes[i])
  {
    var s, lo := SamplesOf(c, e, c.maxPropSize - c.minPropSize), ChunkStart(c.nNodes, c.nProcs, id);
    GenRowsProps(e, s, id, lo, end, 0);
    RowsWritten(c, e, id, r.nodes);
  }

  /** The loop over a worker's chunk stops only at a node whose property does not fit. */
  lemma RowsStopped(c: Config, e: Env, id: nat, end: nat, r: ChunkOutput)
    requires 0 < c.nProcs && c.minPropSize <= c.maxPropSize
    requires ChunkStart(c.nNodes, c.nProcs, id) <= end
    requires r == GenRows(e, SamplesOf(c, e, c.maxPropSize - c.minPropSize), id, ChunkStart(c.nNodes, c.nProcs, id), end, 0)
    ensures !r.finished ==> !PropFits(c, e, ChunkStart(c.nNodes, c.nProcs, id) + |r.nodes|)
  {
    var s, lo := SamplesOf(c, e, c.maxPropSize - c.minPropSize), ChunkStart(c.nNodes, c.nProcs, id);
    if !r.finished {
      assert s.propLen(lo + |r.nodes|) == NodePropLength(c, e, c.maxPropSize - c.minPropSize, lo + |r.nodes|);
    }
  }

  /** `ReadAtWritten` for every row of a worker's node table. */
  lemma RowsWritten(c: Config, e: Env, id: nat, rows: seq<NodeRow>)
    requires 0 < c.nProcs && c.minPropSize <= c.maxPropSize
    requires forall i :: 0 <= i < |rows| ==> rows[i].id == ChunkStart(c.nNodes, c.nProcs, id) + i
    requires forall i :: 0 <= i < |rows| ==>
      ReadAt(e, SamplesOf(c, e, c.maxPropSize - c.minPropSize), id, ChunkStart(c.nNodes, c.nProcs, id), 0, i, rows[i])
    ensures forall i :: 0 <= i < |rows| ==> PropWritten(c, e, id, i, rows[i])
  {
    forall i | 0 <= i < |rows|
      ensures PropWritten(c, e, id, i, rows[i])
    {
      ReadAtWritten(c, e, id, i, rows[i]);
    }
  }

  /** `ReadAt` for a worker's own samples, stated in terms of the configuration. */
  lemma ReadAtWritten(c: Config, e: Env, id: nat, i: nat, row: NodeRow)
    requires 0 < c.nProcs && c.minPropSize <= c.maxPropSize
    requires row.id == ChunkStart(c.nNodes, c.nProcs, id) + i
    requires ReadAt(e, SamplesOf(c, e, c.maxPropSize - c.minPropSize), id, ChunkStart(c.nNodes, c.nProcs, id), 0, i, row)
    ensures PropWritten(c, e, id, i, row)
  {
    var s := SamplesOf(c, e, c.maxPropSize - c.minPropSize);
    assert s.propLen(row.id) == NodePropLength(c, e, c.maxPropSize - c.minPropSize, row.id);
  }

  /**
   * With `min <= max` and the uniform or normal property sampler, every
   * property a worker writes encodes its own stretch of the stream, of
   * between `min` and `max` bytes.
   */
  lemma ChunkPropLengths(c: Config, e: Env, id: nat)
    requires 0 < c.nProcs && id < c.nProcs
    requires c.minPropSize <= c.maxPropSize
    requires c.propDist != Exp
    requires forall nid: nat :: Drawable(c.propDist, e.propDraw(nid))
    ensures forall i :: 0 <= i < |GenerateChunk(c, e, id).nodes| ==>
      && PropWritten(c, e, id, i, GenerateChunk(c, e, id).nodes[i])
      && c.minPropSize <= NodePropLength(c, e, c.maxPropSize - c.minPropSize, GenerateChunk(c, e, id).nodes[i].id).value <= c.maxPropSize
  {
    var nodes := GenerateChunk(c, e, id).nodes;
    ChunkProps(c, e, id);
    forall i | 0 <= i < |nodes|
      ensures c.minPropSize <= NodePropLength(c, e, c.maxPropSize - c.minPropSize, nodes[i].id).value <= c.maxPropSize
    {
      WrittenWithin(c, e, nodes[i].id);
    }
  }

  /** For a uniform or normal run with `min <= max`, node `nid`'s length fits and lies in `[min, max]`. */
  lemma WrittenWithin(c: Config, e: Env, nid: nat)
    requires c.minPropSize <= c.maxPropSize
    requires c.propDist != Exp && Drawable(c.propDist, e.propDraw(nid))
    ensures PropFits(c, e, nid)
    ensures c.minPropSize <= NodePropLength(c, e, c.maxPropSize - c.minPropSize, nid).value <= c.maxPropSize
  {
    FractionInUnit(c.propDist, e.propDraw(nid));
    PropLengthBounded(c.minPropSize, c.maxPropSize, PropFraction(c.propDist, e.propDraw(nid)));
  }

  /**
   * Every node row a worker writes passed `get_prop`'s length computation and
   * holds the encoding of exactly that node's bytes of the stream; a worker
   * that stopped early stopped at the first node whose length overflowed (or,
   * with `min > max`, before any node).
   */
  lemma ChunkProps(c: Config, e: Env, id: nat)
    requires 0 < c.nProcs && id < c.nProcs
    ensures forall i :: 0 <= i < |GenerateChunk(c, e, id).nodes| ==> PropWritten(c, e, id, i, GenerateChunk(c, e, id).nodes[i])
    ensures !GenerateChunk(c, e, id).finished ==>
      !PropFits(c, e, ChunkStart(c.nNodes, c.nProcs, id) + |GenerateChunk(c, e, id).nodes|)
  {
    if c.minPropSize <= c.maxPropSize {
      ChunkRows(c, e, id);
      RowsEncoded(c, e, id, ChunkEnd(c.nNodes, c.nProcs, id), GenerateChunk(c, e, id));
      RowsStopped(c, e, id, ChunkEnd(c.nNodes, c.nProcs, id), GenerateChunk(c, e, id));
    }
  }

  /**
   * Rows laid out as `GenRows` lays them out: node rows `lo, lo+1, ...`, one
   * stats row per node, and the edge block of those nodes.
   */
  lemma RowsShape(e: Env, s: Samples, r: ChunkOutput, lo: nat)
    requires |r.nodes| == |r.stats|
    requires forall i :: 0 <= i < |r.nodes| ==>
      r.nodes[i].id == lo + i && r.stats[i] == StatRow(lo + i, s.degree(lo + i))
    requires r.edges == EdgeBlock(e, s, lo, lo + |r.nodes|)
    ensures NodeIds(r.nodes) == Range(lo, lo + |r.nodes|)
    ensures forall k :: 0 <= k < |r.edges| ==> r.edges[k].src in NodeIds(r.nodes)
    ensures forall i :: 0 <= i < |r.stats| ==> CountSrc(r.edges, r.stats[i].id) == r.stats[i].degree
  {
    var hi := lo + |r.nodes|;
    EdgeBlockWithin(e, s, lo, hi);
    EdgeBlockCounts(e, s, lo, hi);
    NodeIdsOfRows(r.nodes, lo);
    forall i | 0 <= i < |r.stats|
      ensures CountSrc(r.edges, r.stats[i].id) == r.stats[i].degree
    {
      assert lo <= r.stats[i].id < hi;
    }
  }

  /** The ids of a run of node rows, in order. */
  function NodeIds(nodes: seq<NodeRow>): (ids: seq<nat>)
    ensures |ids| == |nodes|
    ensures forall i :: 0 <= i < |nodes| ==> ids[i] == nodes[i].id
  {
    seq(|nodes|, i requires 0 <= i < |nodes| => nodes[i].id)
  }

  lemma NodeIdsOfRows(nodes: seq<NodeRow>, start: nat)
    requires forall i :: 0 <= i < |nodes| ==> nodes[i].id == start + i
    ensures NodeIds(nodes) == Range(start, start + |nodes|)
    ensures forall x :: x in NodeIds(nodes) <==> start <= x < start + |nodes|
  {
    forall x | start <= x < start + |nodes|
      ensures x in NodeIds(nodes)
    {
      assert NodeIds(nodes)[x - start] == x;
    }
  }

  lemma NodeIdsAppend(a: seq<NodeRow>, b: seq<NodeRow>)
    ensures NodeIds(a + b) == NodeIds(a) + NodeIds(b)
  {
  }

  /** A worker's edge rows are grouped by source, in increasing order. */
  lemma ChunkEdgesSorted(c: Config, e: Env, id: nat)
    requires 0 < c.nProcs && id < c.nProcs
    ensures SrcSorted(GenerateChunk(c, e, id).edges)
  {
    if c.minPropSize <= c.maxPropSize {
      ChunkRows(c, e, id);
      var s, lo, hi := SamplesOf(c, e, c.maxPropSize - c.minPropSize), ChunkStart(c.nNodes, c.nProcs, id), ChunkEnd(c.nNodes, c.nProcs, id);
      RowsSorted(e, s, id, lo, hi);
      assert GenerateChunk(c, e, id).edges == GenRows(e, s, id, lo, hi, 0).edges;
    } else {
      assert GenerateChunk(c, e, id).edges == [];
    }
  }

  lemma RowsSorted(e: Env, s: Samples, id: nat, lo: nat, end: nat)
    requires lo <= end
    ensures SrcSorted(GenRows(e, s, id, lo, end, 0).edges)
  {
    EdgeBlockSorted(e, s, lo, lo + |GenRows(e, s, id, lo, end, 0).nodes|);
  }

  /** Every edge of a worker's chunk has a source in the chunk and a destination in `[0, n)`. */
  lemma ChunkEdgesInRange(c: Config, e: Env, id: nat)
    requires 0 < c.nProcs && id < c.nProcs
    requires DstInRange(e, c.nNodes)
    ensures forall k :: 0 <= k < |GenerateChunk(c, e, id).edges| ==>
      && GenerateChunk(c, e, id).edges[k].src in ChunkIds(c.nNodes, c.nProcs, id)
      && GenerateChunk(c, e, id).edges[k].src < c.nNodes
      && GenerateChunk(c, e, id).edges[k].dst < c.nNodes
  {
    var n, p := c.nNodes, c.nProcs;
    ChunkFits(n, p, id);
    var r := GenerateChunk(c, e, id);
    forall k | 0 <= k < |r.edges|
      ensures r.edges[k].src in ChunkIds(n, p, id) && r.edges[k].src < n
    {
      var x := r.edges[k].src;
      var i :| 0 <= i < |r.nodes| && NodeIds(r.nodes)[i] == x;
      assert ChunkIds(n, p, id)[i] == x;
    }
    ChunkEdgeTargets(c, e, id);
  }

  lemma ChunkEdgeTargets(c: Config, e: Env, id: nat)
    requires 0 < c.nProcs && id < c.nProcs
    requires DstInRange(e, c.nNodes)
    ensures forall k :: 0 <= k < |GenerateChunk(c, e, id).edges| ==> GenerateChunk(c, e, id).edges[k].dst < c.nNodes
  {
    if c.minPropSize <= c.maxPropSize {
      ChunkRows(c, e, id);
      ChunkFits(c.nNodes, c.nProcs, id);
      RowsDst(e, SamplesOf(c, e, c.maxPropSize - c.minPropSize), id,
        ChunkStart(c.nNodes, c.nProcs, id), ChunkEnd(c.nNodes, c.nProcs, id), c.nNodes);
    }
  }

  lemma RowsDst(e: Env, s: Samples, id: nat, lo: nat, end: nat, n: nat)
    requires lo <= end <= n
    requires DstInRange(e, n)
    ensures forall k :: 0 <= k < |GenRows(e, s, id, lo, end, 0).edges| ==> GenRows(e, s, id, lo, end, 0).edges[k].dst < n
  {
    EdgeBlockDst(e, s, lo, lo + |GenRows(e, s, id, lo, end, 0).nodes|, n);
  }

  /** Node `nid`'s property length is computed without a panic. */
  predicate PropFits(c: Config, e: Env, nid: nat) {
    c.minPropSize <= c.maxPropSize && NodePropLength(c, e, c.maxPropSize - c.minPropSize, nid).Some?
  }

  /**
   * A worker finishes iff `min <= max` and no property length of its chunk
   * overflows.
   */
  lemma ChunkFinished(c: Config, e: Env, id: nat)
    requires 0 < c.nProcs && id < c.nProcs
    ensures GenerateChunk(c, e, id).finished <==>
      && c.minPropSize <= c.maxPropSize
      && forall k: nat :: ChunkStart(c.nNodes, c.nProcs, id) <= k < ChunkEnd(c.nNodes, c.nProcs, id) ==> PropFits(c, e, k)
  {
    if c.minPropSize <= c.maxPropSize {
      ChunkRows(c, e, id);
      SamplesFinished(c, e, id, ChunkStart(c.nNodes, c.nProcs, id), ChunkEnd(c.nNodes, c.nProcs, id));
    }
  }

  /** The loop over `[lo, hi)` with the run's samples finishes iff every node there fits. */
  lemma SamplesFinished(c: Config, e: Env, id: nat, lo: nat, hi: nat)
    requires c.minPropSize <= c.maxPropSize && lo <= hi
    ensures GenRows(e, SamplesOf(c, e, c.maxPropSize - c.minPropSize), id, lo, hi, 0).finished <==>
      forall k: nat :: lo <= k < hi ==> PropFits(c, e, k)
  {
    var s := SamplesOf(c, e, c.maxPropSize - c.minPropSize);
    GenRowsFinished(e, s, id, lo, hi, 0);
    assert forall k: nat :: s.propLen(k).Some? <==> PropFits(c, e, k);
  }

  /** With `min <= max`, the worker's rows are those of the loop over its chunk. */
  lemma ChunkRows(c: Config, e: Env, id: nat)
    requires 0 < c.nProcs && id < c.nProcs
    requires c.minPropSize <= c.maxPropSize
    ensures ChunkStart(c.nNodes, c.nProcs, id) <= ChunkEnd(c.nNodes, c.nProcs, id)
    ensures GenerateChunk(c, e, id) == GenRows(e, SamplesOf(c, e, c.maxPropSize - c.minPropSize), id,
      ChunkStart(c.nNodes, c.nProcs, id), ChunkEnd(c.nNodes, c.nProcs, id), 0)
  {
    ChunkFits(c.nNodes, c.nProcs, id);
  }


  /**
   * With the uniform or normal property sampler and `min <= max`, no length
   * overflows and the worker writes a row for every id of its chunk.
   */
  lemma ChunkCompletes(c: Config, e: Env, id: nat)
    requires 0 < c.nProcs && id < c.nProcs
    requires c.minPropSize <= c.maxPropSize
    requires c.propDist != Exp
    requires forall nid: nat :: Drawable(c.propDist, e.propDraw(nid))
    ensures GenerateChunk(c, e, id).finished
    ensures NodeIds(GenerateChunk(c, e, id).nodes) == ChunkIds(c.nNodes, c.nProcs, id)
  {
    forall k | ChunkStart(c.nNodes, c.nProcs, id) <= k < ChunkEnd(c.nNodes, c.nProcs, id)
      ensures PropFits(c, e, k)
    {
      FractionInUnit(c.propDist, e.propDraw(k));
      PropLengthBounded(c.minPropSize, c.maxPropSize, PropFraction(c.propDist, e.propDraw(k)));
    }
    ChunkFinished(c, e, id);
  }

  /** Every property a worker writes is an encoder output, so it holds no line break. */
  lemma {:induction false} GenRowsPlain(e: Env, s: Samples, id: nat, nid: nat, end: nat, pos: nat)
    requires nid <= end
    requires EncoderPlain(e)
    ensures forall i :: 0 <= i < |GenRows(e, s, id, nid, end, pos).nodes| ==>
      Plain(GenRows(e, s, id, nid, end, pos).nodes[i].prop)
    decreases end - nid
  {
    if nid < end {
      match s.propLen(nid)
      case None =>
      case Some(len) =>
        GenRowsPlain(e, s, id, nid + 1, end, pos + len);
    }
  }

  lemma ChunkPlain(c: Config, e: Env, id: nat)
    requires 0 < c.nProcs && id < c.nProcs
    requires EncoderPlain(e)
    ensures forall i :: 0 <= i < |GenerateChunk(c, e, id).nodes| ==> Plain(GenerateChunk(c, e, id).nodes[i].prop)
  {
    var n, p := c.nNodes, c.nProcs;
    ChunkFits(n, p, id);
    match PropRange(c.minPropSize, c.maxPropSize)
    case None =>
    case Some(range) =>
      GenRowsPlain(e, SamplesOf(c, e, range), id, ChunkStart(n, p, id), ChunkEnd(n, p, id), 0);
  }

  // Rendering of rows as the text the worker writes.

  function NodeText(r: NodeRow): string {
    Dec(r.id) + "|" + r.prop
  }

  function StatText(r: StatRow): string {
    Dec(r.id) + " " + Dec(r.degree)
  }

  function EdgeText(r: EdgeRow): string {
    Dec(r.src) + "|" + Dec(r.dst)
  }

  function NodeLines(rows: seq<NodeRow>): (ls: seq<string>)
    ensures |ls| == |rows|
    ensures forall i :: 0 <= i < |rows| ==> ls[i] == NodeText(rows[i])
  {
    seq(|rows|, i requires 0 <= i < |rows| => NodeText(rows[i]))
  }

  function StatLines(rows: seq<StatRow>): (ls: seq<string>)
    ensures |ls| == |rows|
    ensures forall i :: 0 <= i < |rows| ==> ls[i] == StatText(rows[i])
  {
    seq(|rows|, i requires 0 <= i < |rows| => StatText(rows[i]))
  }

  function EdgeLines(rows: seq<EdgeRow>): (ls: seq<string>)
    ensures |ls| == |rows|
    ensures forall i :: 0 <= i < |rows| ==> ls[i] == EdgeText(rows[i])
  {
    seq(|rows|, i requires 0 <= i < |rows| => EdgeText(rows[i]))
  }

  /** The contents of `nodes_<id>.csv`, `edges_<id>.csv` and `stats_<id>.txt`. */
  function NodesFile(out: ChunkOutput): string {
    Frame(NodeLines(out.nodes))
  }

  function EdgesFile(out: ChunkOutput): string {
    Frame(EdgeLines(out.edges))
  }

  function StatsFile(out: ChunkOutput): string {
    Frame(StatLines(out.stats))
  }

  /** Edge rows and, with a plain encoder, node rows are lines the merge reads back unchanged. */
  lemma ChunkLinesClean(c: Config, e: Env, id: nat)
    requires 0 < c.nProcs && id < c.nProcs
    requires EncoderPlain(e)
    ensures forall i :: 0 <= i < |GenerateChunk(c, e, id).nodes| ==> Clean(NodeLines(GenerateChunk(c, e, id).nodes)[i])
    ensures forall i :: 0 <= i < |GenerateChunk(c, e, id).edges| ==> Clean(EdgeLines(GenerateChunk(c, e, id).edges)[i])
  {
    var r := GenerateChunk(c, e, id);
    ChunkPlain(c, e, id);
    forall i | 0 <= i < |r.nodes|
      ensures Clean(NodeLines(r.nodes)[i])
    {
      DecIsPlain(r.nodes[i].id);
      PlainConcat(Dec(r.nodes[i].id), "|");
      PlainConcat(Dec(r.nodes[i].id) + "|", r.nodes[i].prop);
      PlainIsClean(NodeLines(r.nodes)[i]);
    }
    forall i | 0 <= i < |r.edges|
      ensures Clean(EdgeLines(r.edges)[i])
    {
      DecIsPlain(r.edges[i].src);
      DecIsPlain(r.edges[i].dst);
      PlainConcat(Dec(r.edges[i].src), "|");
      PlainConcat(Dec(r.edges[i].src) + "|", Dec(r.edges[i].dst));
      PlainIsClean(EdgeLines(r.edges)[i]);
    }
  }

  /** Each written row is `<text>\n`: reading the file back gives exactly the row texts. */
  lemma ChunkFilesReadBack(c: Config, e: Env, id: nat)
    requires 0 < c.nProcs && id < c.nProcs
    requires EncoderPlain(e)
    ensures Lines(NodesFile(GenerateChunk(c, e, id))) == NodeLines(GenerateChunk(c, e, id).nodes)
    ensures Lines(EdgesFile(GenerateChunk(c, e, id))) == EdgeLines(GenerateChunk(c, e, id).edges)
    ensures Reframe(NodesFile(GenerateChunk(c, e, id))) == NodesFile(GenerateChunk(c, e, id))
    ensures Reframe(EdgesFile(GenerateChunk(c, e, id))) == EdgesFile(GenerateChunk(c, e, id))
  {
    var r := GenerateChunk(c, e, id);
    ChunkLinesClean(c, e, id);
    LinesOfFrame(NodeLines(r.nodes));
    LinesOfFrame(EdgeLines(r.edges));
  }
}
