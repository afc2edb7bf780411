/**
 * `generate`: write the two table headers, run the workers, then — in worker
 * order — append every line of `nodes_<i>.csv` and `edges_<i>.csv` to the
 * tables, each followed by one `\n`, and remove those two files. The stats
 * files are neither read nor removed. Threads are modelled as the sequential
 * run their in-order joins make observable: worker `i`'s files are complete
 * before the merge reads them and no other worker touches them.
 */
module Merge {
  import opened Text
  import opened Partition
  import opened Sampler
  import opened Chunk

  const NodeHeader: string := "NodeID|data\n"
  const EdgeHeader: string := "SrcID|DstID\n"

  /** The per-worker files. */
  datatype ChunkFile = NodesPart(i: nat) | EdgesPart(i: nat) | StatsPart(i: nat)

  /** The file name each per-worker file is created under. */
  function Path(f: ChunkFile): string {
    match f
    case NodesPart(i) => "nodes_" + Dec(i) + ".csv"
    case EdgesPart(i) => "edges_" + Dec(i) + ".csv"
    case StatsPart(i) => "stats_" + Dec(i) + ".txt"
  }

  /** Equal strings with the same prefix and suffix have the same middle. */
  lemma SameMiddle(pre: string, a: string, b: string, suf: string)
    requires pre + a + suf == pre + b + suf
    ensures a == b
  {
    var s, t := pre + a + suf, pre + b + suf;
    assert |a| == |b|;
    assert s[|pre|..|pre| + |a|] == a;
    assert t[|pre|..|pre| + |b|] == b;
  }

  /**
   * Different per-worker files have different names, and none is named like
   * a merged table, so removing one file never touches another.
   */
  lemma PathsDistinct(f: ChunkFile, g: ChunkFile)
    ensures Path(f) == Path(g) <==> f == g
    ensures Path(f) != "nodes.csv" && Path(f) != "edges.csv"
  {
    assert |Path(f)| >= 11;
    if Path(f) == Path(g) {
      assert Path(f)[0] == Path(g)[0];
      match f {
        case NodesPart(i) => assert g.NodesPart?; SameMiddle("nodes_", Dec(i), Dec(g.i), ".csv");
        case EdgesPart(i) => assert g.EdgesPart?; SameMiddle("edges_", Dec(i), Dec(g.i), ".csv");
        case StatsPart(i) => assert g.StatsPart?; SameMiddle("stats_", Dec(i), Dec(g.i), ".txt");
      }
      DecInjective(f.i, g.i);
    }
  }

  /** What is on disk: the two merged tables and the per-worker files present. */
  datatype Disk = Disk(nodeTable: string, edgeTable: string, parts: map<ChunkFile, string>)

  datatype Table = NodeTable | EdgeTable

  function PartOf(t: Table, i: nat): ChunkFile {
    match t
    case NodeTable => NodesPart(i)
    case EdgeTable => EdgesPart(i)
  }

  /** What one chunk file adds to its table: its re-framed lines, or nothing if it cannot be opened. */
  function Copied(parts: map<ChunkFile, string>, f: ChunkFile): string {
    if f in parts then Reframe(parts[f]) else ""
  }

  /** One pass of the merge loop, for worker `i`. */
  function MergeStep(d: Disk, i: nat): Disk {
    var nodes := d.nodeTable + Copied(d.parts, NodesPart(i));
    var parts := d.parts - {NodesPart(i)};
    var edges := d.edgeTable + Copied(parts, EdgesPart(i));
    Disk(nodes, edges, parts - {EdgesPart(i)})
  }

  /** The text the merge appends to table `t` for workers `i .. p-1`, in worker order. */
  function Collected(parts: map<ChunkFile, string>, t: Table, i: nat, p: nat): string
    decreases p - i
  {
    if i >= p then "" else Copied(parts, PartOf(t, i)) + Collected(parts, t, i + 1, p)
  }

  /** Whether the merge of workers `i .. p-1` removes `f`. */
  predicate Consumed(f: ChunkFile, i: nat, p: nat) {
    (f.NodesPart? || f.EdgesPart?) && i <= f.i < p
  }

  /** Removing an earlier worker's files does not change what later workers contribute. */
  lemma {:induction false} CollectedIgnoresEarlier(parts: map<ChunkFile, string>, t: Table, x: nat, i: nat, p: nat)
    requires x < i
    ensures Collected(parts - {NodesPart(x), EdgesPart(x)}, t, i, p) == Collected(parts, t, i, p)
    decreases p - i
  {
    if i < p {
      CollectedIgnoresEarlier(parts, t, x, i + 1, p);
    }
  }

  /**
   * The merge loop from worker `i`: each table gains exactly the collected
   * text, every merged node/edge file is gone, and every other file is
   * left as it was.
   */
  function MergeFrom(d: Disk, i: nat, p: nat): (r: Disk)
    ensures r.nodeTable == d.nodeTable + Collected(d.parts, NodeTable, i, p)
    ensures r.edgeTable == d.edgeTable + Collected(d.parts, EdgeTable, i, p)
    ensures r.parts == Remaining(d.parts, i, p)
    decreases p - i
  {
    if i >= p then
      assert d.parts == Remaining(d.parts, i, p);
      d
    else
      MergeStepNodes(d, i, p);
      MergeStepEdges(d, i, p);
      RemainingStep(d.parts, i, p);
      MergeFrom(MergeStep(d, i), i + 1, p)
  }

  /** One merge step moves worker `i`'s node file from the collected text into the node table. */
  lemma MergeStepNodes(d: Disk, i: nat, p: nat)
    requires i < p
    ensures MergeStep(d, i).nodeTable + Collected(MergeStep(d, i).parts, NodeTable, i + 1, p)
         == d.nodeTable + Collected(d.parts, NodeTable, i, p)
  {
    assert MergeStep(d, i).parts == d.parts - {NodesPart(i), EdgesPart(i)};
    CollectedIgnoresEarlier(d.parts, NodeTable, i, i + 1, p);
  }

  /** The same for the edge file and the edge table. */
  lemma MergeStepEdges(d: Disk, i: nat, p: nat)
    requires i < p
    ensures MergeStep(d, i).edgeTable + Collected(MergeStep(d, i).parts, EdgeTable, i + 1, p)
         == d.edgeTable + Collected(d.parts, EdgeTable, i, p)
  {
    assert MergeStep(d, i).parts == d.parts - {NodesPart(i), EdgesPart(i)};
    assert Copied(d.parts - {NodesPart(i)}, EdgesPart(i)) == Copied(d.parts, EdgesPart(i));
    CollectedIgnoresEarlier(d.parts, EdgeTable, i, i + 1, p);
  }

  /** The files still on disk after merging workers `i .. p-1`. */
  function Remaining(parts: map<ChunkFile, string>, i: nat, p: nat): (r: map<ChunkFile, string>)
    ensures forall f :: f in r <==> f in parts && !Consumed(f, i, p)
    ensures forall f :: f in r ==> r[f] == parts[f]
  {
    map f | f in parts && !Consumed(f, i, p) :: parts[f]
  }

  lemma RemainingStep(parts: map<ChunkFile, string>, i: nat, p: nat)
    requires i < p
    ensures Remaining(parts - {NodesPart(i), EdgesPart(i)}, i + 1, p) == Remaining(parts, i, p)
  {
  }

  /** What every worker of the run writes, by worker number. */
  function Outputs(c: Config, e: Env): (outs: seq<ChunkOutput>)
    ensures |outs| == c.nProcs
    ensures forall j :: 0 <= j < c.nProcs ==> outs[j] == GenerateChunk(c, e, j)
  {
    seq(c.nProcs, j requires 0 <= j < c.nProcs => GenerateChunk(c, e, j))
  }

  /** The file worker output `out` leaves under the name of `f`. */
  function FileOf(out: ChunkOutput, f: ChunkFile): string {
    match f
    case NodesPart(_) => NodesFile(out)
    case EdgesPart(_) => EdgesFile(out)
    case StatsPart(_) => StatsFile(out)
  }

  /** The names of the files workers `0 .. k-1` create. */
  function Written(k: nat): set<ChunkFile> {
    (set j | 0 <= j < k :: NodesPart(j)) + (set j | 0 <= j < k :: EdgesPart(j)) + (set j | 0 <= j < k :: StatsPart(j))
  }

  lemma WrittenNames(k: nat)
    ensures forall f: ChunkFile :: f in Written(k) <==> f.i < k
  {
    forall f: ChunkFile | f.i < k
      ensures f in Written(k)
    {
      match f
      case NodesPart(j) =>
      case EdgesPart(j) =>
      case StatsPart(j) =>
    }
  }

  /**
   * The files the workers leave behind, over whatever was on disk before:
   * each worker creates (truncating) its three files, and nothing else changes.
   */
  function Spawn(parts: map<ChunkFile, string>, outs: seq<ChunkOutput>): (r: map<ChunkFile, string>)
    ensures forall f: ChunkFile :: f.i < |outs| ==> f in r && r[f] == FileOf(outs[f.i], f)
    ensures forall f: ChunkFile :: f.i >= |outs| ==> (f in r <==> f in parts)
    ensures forall f: ChunkFile :: f.i >= |outs| && f in r ==> r[f] == parts[f]
  {
    WrittenNames(|outs|);
    map f | f in parts.Keys + Written(|outs|) :: if f.i < |outs| then FileOf(outs[f.i], f) else parts[f]
  }

  /** A whole run of the generator, starting from the per-worker files already on disk. */
  function Run(c: Config, e: Env, parts: map<ChunkFile, string>): Disk {
    MergeFrom(Disk(NodeHeader, EdgeHeader, Spawn(parts, Outputs(c, e))), 0, c.nProcs)
  }

  /** The rows of workers `i ..` joined in worker order. */
  function Joined(outs: seq<ChunkOutput>, i: nat): ChunkOutput
    requires i <= |outs|
    decreases |outs| - i
  {
    if i == |outs| then ChunkOutput([], [], [], true)
    else
      var a, b := outs[i], Joined(outs, i + 1);
      ChunkOutput(a.nodes + b.nodes, a.stats + b.stats, a.edges + b.edges, a.finished && b.finished)
  }

  /** All rows of the run, in worker order. */
  function RunRows(c: Config, e: Env): ChunkOutput {
    Joined(Outputs(c, e), 0)
  }

  lemma FilesAppend(a: ChunkOutput, b: ChunkOutput)
    ensures NodesFile(ChunkOutput(a.nodes + b.nodes, [], [], true)) == NodesFile(a) + NodesFile(b)
    ensures EdgesFile(ChunkOutput([], [], a.edges + b.edges, true)) == EdgesFile(a) + EdgesFile(b)
  {
    assert NodeLines(a.nodes + b.nodes) == NodeLines(a.nodes) + NodeLines(b.nodes);
    assert EdgeLines(a.edges + b.edges) == EdgeLines(a.edges) + EdgeLines(b.edges);
    FrameAppend(NodeLines(a.nodes), NodeLines(b.nodes));
    FrameAppend(EdgeLines(a.edges), EdgeLines(b.edges));
  }

  /** A worker's node and edge files survive the merge's line-by-line copy unchanged. */
  predicate ReadsBack(out: ChunkOutput) {
    Reframe(NodesFile(out)) == NodesFile(out) && Reframe(EdgesFile(out)) == EdgesFile(out)
  }

  /** The text table `t` takes from worker output `out`: its node file or its edge file. */
  function TableFile(out: ChunkOutput, t: Table): string {
    match t
    case NodeTable => NodesFile(out)
    case EdgeTable => EdgesFile(out)
  }

  /**
   * Round trip of the merge: when each worker's file copies as itself, what
   * the merge appends for workers `i ..` is, byte for byte, the concatenation
   * of those workers' node (edge) files.
   */
  lemma {:induction false} CollectedIsJoined(parts: map<ChunkFile, string>, outs: seq<ChunkOutput>, t: Table, i: nat)
    requires i <= |outs|
    requires forall j :: i <= j < |outs| ==> Copied(parts, PartOf(t, j)) == TableFile(outs[j], t)
    ensures Collected(parts, t, i, |outs|) == TableFile(Joined(outs, i), t)
    decreases |outs| - i
  {
    if i < |outs| {
      var a, b := outs[i], Joined(outs, i + 1);
      CollectedIsJoined(parts, outs, t, i + 1);
      FilesAppend(a, b);
      assert NodesFile(Joined(outs, i)) == NodesFile(ChunkOutput(a.nodes + b.nodes, [], [], true));
      assert EdgesFile(Joined(outs, i)) == EdgesFile(ChunkOutput([], [], a.edges + b.edges, true));
    }
  }

  /** Worker files that read back unchanged are copied as they were written. */
  lemma SpawnCopies(parts: map<ChunkFile, string>, outs: seq<ChunkOutput>, t: Table)
    requires forall j :: 0 <= j < |outs| ==> ReadsBack(outs[j])
    ensures forall j :: 0 <= j < |outs| ==> Copied(Spawn(parts, outs), PartOf(t, j)) == TableFile(outs[j], t)
  {
    var sp := Spawn(parts, outs);
    forall j | 0 <= j < |outs|
      ensures Copied(sp, PartOf(t, j)) == TableFile(outs[j], t)
    {
      var f := PartOf(t, j);
      assert f.i == j;
      assert ReadsBack(outs[j]);
      assert sp[f] == FileOf(outs[j], f) == TableFile(outs[j], t);
    }
  }

  /**
   * The merged tables are the headers followed by every worker's node (edge)
   * file, in worker order, byte for byte: one `<id>|<prop>` (`<src>|<dst>`)
   * line per row the workers wrote.
   */
  lemma RunTables(c: Config, e: Env, parts: map<ChunkFile, string>)
    requires EncoderPlain(e)
    ensures Run(c, e, parts).nodeTable == NodeHeader + Frame(NodeLines(RunRows(c, e).nodes))
    ensures Run(c, e, parts).edgeTable == EdgeHeader + Frame(EdgeLines(RunRows(c, e).edges))
  {
    var outs := Outputs(c, e);
    forall j | 0 <= j < |outs|
      ensures ReadsBack(outs[j])
    {
      ChunkFilesReadBack(c, e, j);
    }
    SpawnCopies(parts, outs, NodeTable);
    SpawnCopies(parts, outs, EdgeTable);
    CollectedIsJoined(Spawn(parts, outs), outs, NodeTable, 0);
    CollectedIsJoined(Spawn(parts, outs), outs, EdgeTable, 0);
  }

  /**
   * The files left after merging worker outputs `outs` over an earlier disk:
   * no node or edge file of a worker, each worker's stats file, and the
   * earlier files of every other worker number.
   */
  lemma MergedFiles(parts: map<ChunkFile, string>, outs: seq<ChunkOutput>)
    ensures var r := Remaining(Spawn(parts, outs), 0, |outs|);
      && (forall j :: 0 <= j < |outs| ==>
        NodesPart(j) !in r && EdgesPart(j) !in r && StatsPart(j) in r && r[StatsPart(j)] == StatsFile(outs[j]))
      && (forall f: ChunkFile :: f.i >= |outs| ==> (f in r <==> f in parts))
      && (forall f: ChunkFile :: f.i >= |outs| && f in parts ==> r[f] == parts[f])
  {
    var r := Remaining(Spawn(parts, outs), 0, |outs|);
    forall j | 0 <= j < |outs|
      ensures StatsPart(j) in r && r[StatsPart(j)] == StatsFile(outs[j])
    {
      assert !Consumed(StatsPart(j), 0, |outs|);
    }
  }

  /**
   * After the run no node or edge file of a worker remains, every worker's
   * stats file holds its stats rows, and files of other worker numbers are
   * untouched.
   */
  lemma RunFiles(c: Config, e: Env, parts: map<ChunkFile, string>)
    ensures forall j :: 0 <= j < c.nProcs ==>
      && NodesPart(j) !in Run(c, e, parts).parts
      && EdgesPart(j) !in Run(c, e, parts).parts
      && StatsPart(j) in Run(c, e, parts).parts
      && Run(c, e, parts).parts[StatsPart(j)] == StatsFile(GenerateChunk(c, e, j))
    ensures forall f: ChunkFile :: f.i >= c.nProcs ==>
      (f in Run(c, e, parts).parts <==> f in parts)
    ensures forall f: ChunkFile :: f.i >= c.nProcs && f in parts ==> Run(c, e, parts).parts[f] == parts[f]
  {
    var outs := Outputs(c, e);
    assert Run(c, e, parts).parts == Remaining(Spawn(parts, outs), 0, |outs|);
    MergedFiles(parts, outs);
  }

  /** The joined rows are complete iff every worker from `i` on finished. */
  lemma {:induction false} JoinedFinished(outs: seq<ChunkOutput>, i: nat)
    requires i <= |outs|
    ensures Joined(outs, i).finished <==> forall j :: i <= j < |outs| ==> outs[j].finished
    decreases |outs| - i
  {
    if i < |outs| {
      JoinedFinished(outs, i + 1);
    }
  }

  /** Workers `i ..` that generate their chunks in full generate the ids `(n/p)*i .. (n/p)*p - 1`, in order. */
  lemma {:induction false} JoinedIds(outs: seq<ChunkOutput>, n: nat, p: nat, i: nat)
    requires 0 < p && |outs| == p && i <= p
    requires forall j :: i <= j < p ==> NodeIds(outs[j].nodes) == ChunkIds(n, p, j)
    ensures NodeIds(Joined(outs, i).nodes) == Range(ChunkSize(n, p) * i, Covered(n, p))
    decreases p - i
  {
    if i < p {
      JoinedIds(outs, n, p, i + 1);
      NodeIdsAppend(outs[i].nodes, Joined(outs, i + 1).nodes);
      ChunkThenRest(n, p, i);
    } else {
      assert ChunkSize(n, p) * i == Covered(n, p);
    }
  }

  /** The run is complete iff every worker finished. */
  lemma RunFinished(c: Config, e: Env)
    ensures RunRows(c, e).finished <==> forall j :: 0 <= j < c.nProcs ==> GenerateChunk(c, e, j).finished
  {
    JoinedFinished(Outputs(c, e), 0);
  }

  /** When every worker finishes, the run's node rows carry exactly the emitted ids, in order. */
  lemma RunIds(c: Config, e: Env)
    ensures RunRows(c, e).finished ==> NodeIds(RunRows(c, e).nodes) == EmittedIds(c.nNodes, c.nProcs)
  {
    var n, p := c.nNodes, c.nProcs;
    var outs := Outputs(c, e);
    EmittedIdsExact(n, p);
    RunFinished(c, e);
    if p > 0 && RunRows(c, e).finished {
      forall j | 0 <= j < p
        ensures NodeIds(outs[j].nodes) == ChunkIds(n, p, j)
      {
        assert outs[j] == GenerateChunk(c, e, j);
      }
      JoinedIds(outs, n, p, 0);
    }
  }

  /**
   * End to end, for the uniform and normal property samplers: the node table
   * is the header and one row for each id `0 .. (n/p)*p - 1`, in increasing
   * order; with `p` not dividing `n` the top `n % p` ids are missing.
   */
  lemma RunNodeIds(c: Config, e: Env, parts: map<ChunkFile, string>)
    requires EncoderPlain(e)
    requires c.minPropSize <= c.maxPropSize
    requires c.propDist != Exp
    requires forall nid: nat :: Drawable(c.propDist, e.propDraw(nid))
    ensures Run(c, e, parts).nodeTable == NodeHeader + Frame(NodeLines(RunRows(c, e).nodes))
    ensures NodeIds(RunRows(c, e).nodes) == Range(0, Covered(c.nNodes, c.nProcs))
  {
    RunTables(c, e, parts);
    forall j | 0 <= j < c.nProcs
      ensures GenerateChunk(c, e, j).finished
    {
      ChunkCompletes(c, e, j);
    }
    RunFinished(c, e);
    RunIds(c, e);
    EmittedIdsExact(c.nNodes, c.nProcs);
  }

  /** With more workers than nodes, or `min > max`, a worker writes no node or edge row. */
  lemma ChunkEmpty(c: Config, e: Env, i: nat)
    requires i < c.nProcs
    requires c.nNodes < c.nProcs || c.minPropSize > c.maxPropSize
    ensures GenerateChunk(c, e, i).nodes == [] && GenerateChunk(c, e, i).edges == []
  {
    if c.nNodes < c.nProcs {
      MoreWorkersThanIds(c.nNodes, c.nProcs);
    }
  }

  /** Workers whose files copy as nothing contribute nothing to the table. */
  lemma {:induction false} CollectedOfBlank(parts: map<ChunkFile, string>, t: Table, i: nat, p: nat)
    requires forall j :: i <= j < p ==> Copied(parts, PartOf(t, j)) == ""
    ensures Collected(parts, t, i, p) == ""
    decreases p - i
  {
    if i < p {
      CollectedOfBlank(parts, t, i + 1, p);
    }
  }

  /** Workers that wrote no node or edge row leave node and edge files that copy as nothing. */
  lemma SpawnBlank(parts: map<ChunkFile, string>, outs: seq<ChunkOutput>, t: Table)
    requires forall j :: 0 <= j < |outs| ==> outs[j].nodes == [] && outs[j].edges == []
    ensures forall j :: 0 <= j < |outs| ==> Copied(Spawn(parts, outs), PartOf(t, j)) == ""
  {
    var sp := Spawn(parts, outs);
    forall j | 0 <= j < |outs|
      ensures Copied(sp, PartOf(t, j)) == ""
    {
      var f := PartOf(t, j);
      assert f.i == j;
      assert NodeLines(outs[j].nodes) == [] && EdgeLines(outs[j].edges) == [];
      assert sp[f] == FileOf(outs[j], f) == "";
    }
  }

  /**
   * Only the headers are written when there are no workers, more workers
   * than nodes, or `min > max` (every worker panics on the subtraction before
   * writing a row, and the merge ignores the failed joins).
   */
  lemma HeadersOnly(c: Config, e: Env, parts: map<ChunkFile, string>)
    requires c.nProcs == 0 || c.nNodes < c.nProcs || c.minPropSize > c.maxPropSize
    ensures Run(c, e, parts).nodeTable == NodeHeader
    ensures Run(c, e, parts).edgeTable == EdgeHeader
  {
    var outs := Outputs(c, e);
    forall j | 0 <= j < |outs|
      ensures outs[j].nodes == [] && outs[j].edges == []
    {
      ChunkEmpty(c, e, j);
    }
    SpawnBlank(parts, outs, NodeTable);
    SpawnBlank(parts, outs, EdgeTable);
    CollectedOfBlank(Spawn(parts, outs), NodeTable, 0, |outs|);
    CollectedOfBlank(Spawn(parts, outs), EdgeTable, 0, |outs|);
  }
}
