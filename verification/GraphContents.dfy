/** What the SAVING transaction leaves in the graph tables, seen by workspace and key rather than by
    row id, and so comparable between runs. */
module GraphContents {
  import opened Wrappers
  import opened GraphBatch
  import opened GraphStore
  import opened GraphSave

  // ----- The views -----

  /** The node of workspace `w` under `k`; with `UniqueKeys`, the only one. */
  ghost function NodeAt(lower: Lower, t: Tables, w: Id, k: string): (r: Option<Id>)
    ensures r.Some? ==> NodeIs(lower, t, w, k, r.value)
    ensures r.None? ==> forall n :: !NodeIs(lower, t, w, k, n)
  {
    if n :| NodeIs(lower, t, w, k, n) then Some(n) else None
  }

  ghost function EdgeAt(lower: Lower, t: Tables, w: Id, k: EdgeKey): (r: Option<Id>)
    ensures r.Some? ==> EdgeIs(lower, t, w, k, r.value)
    ensures r.None? ==> forall e :: !EdgeIs(lower, t, w, k, e)
  {
    if e :| EdgeIs(lower, t, w, k, e) then Some(e) else None
  }

  function Row<K, V>(table: map<K, V>, k: Option<K>): Option<V> {
    if k.Some? && k.value in table then Some(table[k.value]) else None
  }

  function Of(item: Option<Id>, d: Id): Option<Source> {
    if item.Some? then Some(Source(item.value, d)) else None
  }

  ghost function NodeData(lower: Lower, t: Tables, w: Id, k: string): Option<NodeRow> {
    Row(t.nodes, NodeAt(lower, t, w, k))
  }

  /** What document `d` says of the node under `k`. */
  ghost function NodeMention(lower: Lower, t: Tables, w: Id, k: string, d: Id): Option<NodeSource> {
    Row(t.nodeSources, Of(NodeAt(lower, t, w, k), d))
  }

  /** An edge without the ids of its ends, which its key names. */
  datatype EdgeData = EdgeData(relationship: string, description: Option<string>)

  ghost function EdgeContent(lower: Lower, t: Tables, w: Id, k: EdgeKey): Option<EdgeData> {
    match Row(t.edges, EdgeAt(lower, t, w, k))
    case None => None
    case Some(row) => Some(EdgeData(row.relationship, row.description))
  }

  ghost function EdgeMention(lower: Lower, t: Tables, w: Id, k: EdgeKey, d: Id): Option<EdgeSource> {
    Row(t.edgeSources, Of(EdgeAt(lower, t, w, k), d))
  }

  ghost predicate NodeShared(lower: Lower, t: Tables, w: Id, k: string, d: Id) {
    exists x :: x != d && NodeMention(lower, t, w, k, x).Some?
  }

  ghost predicate EdgeShared(lower: Lower, t: Tables, w: Id, k: EdgeKey, d: Id) {
    exists x :: x != d && EdgeMention(lower, t, w, k, x).Some?
  }

  lemma NodeAtIs(lower: Lower, t: Tables, w: Id, k: string, n: Id)
    requires UniqueKeys(lower, t) && NodeIs(lower, t, w, k, n)
    ensures NodeAt(lower, t, w, k) == Some(n)
  {
    var m := NodeAt(lower, t, w, k).value;
    assert SameNodeKey(lower, t.nodes[m], t.nodes[n]);
  }

  lemma EdgeAtIs(lower: Lower, t: Tables, w: Id, k: EdgeKey, e: Id)
    requires UniqueKeys(lower, t) && EdgeIs(lower, t, w, k, e)
    ensures EdgeAt(lower, t, w, k) == Some(e)
  {
    KeyNamesOneEdge(lower, t, w, k, e, EdgeAt(lower, t, w, k).value);
  }

  // ----- Nodes, statement by statement -----

  ghost predicate OtherNodeSource(t: Tables, d: Id, n: Id) {
    exists x :: x != d && Source(n, x) in t.nodeSources
  }

  /** Clearing removes the nodes that only `d` mentions, and no other. */
  lemma ClearedNodes(lower: Lower, t: Tables, w: Id, d: Id, n: Id)
    requires Provenance(lower, t)
    ensures var c := OutputCleared(t, w, d);
            && (n in c.nodes <==> n in t.nodes && (t.nodes[n].workspace != w || OtherNodeSource(t, d, n)))
            && (n in c.nodes ==> c.nodes[n] == t.nodes[n])
  {
    var s := SourcesCleared(t, w, d);
    var c := OutputCleared(t, w, d);
    ClearingKeepsProvenance(lower, t, w, d);
    hide UniqueKeys;
    if n in t.nodes && t.nodes[n].workspace == w && OtherNodeSource(t, d, n) {
      var x :| x != d && Source(n, x) in t.nodeSources;
      assert Source(n, x) in s.nodeSources;
      assert NodeSourced(EdgesCollected(s, w), n);
    }
    if n in c.nodes && t.nodes[n].workspace == w {
      var x :| Source(n, x) in c.nodeSources;
      assert NodeSourceRefers(t, Source(n, x));
    }
  }

  lemma ClearedNodeAt(lower: Lower, t: Tables, w: Id, d: Id, w2: Id, k: string)
    requires Provenance(lower, t)
    ensures NodeAt(lower, OutputCleared(t, w, d), w2, k)
         == if NodeAt(lower, t, w2, k).Some? && (w2 != w || OtherNodeSource(t, d, NodeAt(lower, t, w2, k).value))
            then NodeAt(lower, t, w2, k) else None
  {
    var c := OutputCleared(t, w, d);
    ClearingKeepsProvenance(lower, t, w, d);
    forall n ensures NodeIs(lower, c, w2, k, n)
      <==> NodeIs(lower, t, w2, k, n) && (w2 != w || OtherNodeSource(t, d, n)) {
      ClearedNodes(lower, t, w, d, n);
    }
    hide OutputCleared, UniqueKeys, Referential, Sourced, NodeIs, OtherNodeSource;
    if NodeAt(lower, t, w2, k).Some? {
      var n := NodeAt(lower, t, w2, k).value;
      if w2 != w || OtherNodeSource(t, d, n) { NodeAtIs(lower, c, w2, k, n); }
    }
    if NodeAt(lower, c, w2, k).Some? { NodeAtIs(lower, t, w2, k, NodeAt(lower, c, w2, k).value); }
  }

  lemma SameRowsSameNodeAt(lower: Lower, t: Tables, u: Tables, w: Id, k: string)
    requires UniqueKeys(lower, t) && t.nodes == u.nodes
    ensures NodeAt(lower, t, w, k) == NodeAt(lower, u, w, k) && NodeData(lower, t, w, k) == NodeData(lower, u, w, k)
  {
    if NodeAt(lower, u, w, k).Some? {
      var n := NodeAt(lower, u, w, k).value;
      NodeAtIs(lower, t, w, k, n);
    }
    assert forall n :: NodeIs(lower, t, w, k, n) == NodeIs(lower, u, w, k, n);
  }

  /** The row under one key: `before` survives if another document mentions it, and the batch's
      node is merged into what survives. */
  function NodeAfter(w: Id, before: Option<NodeRow>, shared: bool, row: Option<NodeInput>): Option<NodeRow> {
    match row
    case None => if shared then before else None
    case Some(n) => Some(if shared && before.Some? then MergedNode(before.value, n) else NewNode(w, n))
  }

  lemma UpsertedNodeAt(lower: Lower, t: Tables, u: Tables, w: Id, rows: map<string, NodeInput>, ids: map<string, Id>,
          k: string)
    requires UniqueKeys(lower, t) && UniqueKeys(lower, u) && NodesUpserted(lower, t, u, w, rows, ids)
        && Named(lower, rows) && k in rows
    ensures var before := NodeAt(lower, t, w, k);
            && NodeAt(lower, u, w, k) == Some(ids[k]) && (before.Some? ==> before == Some(ids[k]))
            && NodeData(lower, u, w, k) == NodeAfter(w, NodeData(lower, t, w, k), true, Some(rows[k]))
  {
    UpsertedNodeHasKey(lower, t, u, w, rows, ids, k);
    NodeAtIs(lower, u, w, k, ids[k]);
    assert NodeUpserted(lower, t, u, w, rows[k], ids[k]);
    if NodeIs(lower, t, w, k, ids[k]) { NodeAtIs(lower, t, w, k, ids[k]); }
    hide UniqueKeys, NodesUpserted;
  }

  lemma UntouchedNodeAt(lower: Lower, t: Tables, u: Tables, w: Id, rows: map<string, NodeInput>, ids: map<string, Id>,
          w2: Id, k: string)
    requires UniqueKeys(lower, t) && UniqueKeys(lower, u) && NodesUpserted(lower, t, u, w, rows, ids)
        && Named(lower, rows)
    requires w2 != w || k !in rows
    ensures NodeAt(lower, u, w2, k) == NodeAt(lower, t, w2, k) && NodeData(lower, u, w2, k) == NodeData(lower, t, w2, k)
  {
    hide UniqueKeys;
    forall j | j in rows ensures NodeIs(lower, u, w, j, ids[j]) { UpsertedNodeHasKey(lower, t, u, w, rows, ids, j); }
    if NodeAt(lower, t, w2, k).Some? {
      var n := NodeAt(lower, t, w2, k).value;
      UpsertedNodesStay(lower, t, u, w, rows, ids, n);
      NodeAtIs(lower, u, w2, k, n);
      assert n !in ids.Values;
    } else if NodeAt(lower, u, w2, k).Some? {
      var n := NodeAt(lower, u, w2, k).value;
      var known := NodeIs(lower, t, w2, k, n);
      if n in t.nodes {
        UpsertedNodesStay(lower, t, u, w, rows, ids, n);
      } else {
        var j := AddedNode(lower, t, u, w, rows, ids, n);
      }
    }
  }

  // ----- Nodes after the transaction -----

  function MentionBy(w: Id, row: Option<NodeInput>): Option<NodeSource> {
    match row
    case None => None
    case Some(n) => Some(NodeSource(w, n.entityType, n.description, n.embedding))
  }

  lemma SharedMeansOtherSource(lower: Lower, t: Tables, w: Id, k: string, d: Id)
    ensures NodeShared(lower, t, w, k, d)
        <==> NodeAt(lower, t, w, k).Some? && OtherNodeSource(t, d, NodeAt(lower, t, w, k).value)
  {
    if NodeAt(lower, t, w, k).Some? && OtherNodeSource(t, d, NodeAt(lower, t, w, k).value) {
      var x :| x != d && Source(NodeAt(lower, t, w, k).value, x) in t.nodeSources;
      assert NodeMention(lower, t, w, k, x).Some?;
    }
  }

  lemma NodeRowsAfterSave(lower: Lower, t: Tables, v: Tables, w: Id, d: Id, rows: seq<ChunkInput>,
          batch: GraphWriteBatch, run: SaveRun, k: string)
    requires Provenance(lower, t) && Writable(lower, batch) && SavedBy(lower, t, v, w, d, rows, batch, run)
    ensures NodeData(lower, v, w, k)
        == NodeAfter(w, NodeData(lower, t, w, k), NodeShared(lower, t, w, k, d), Row(batch.nodes, Some(k)))
    ensures NodeShared(lower, t, w, k, d) ==> NodeAt(lower, v, w, k) == NodeAt(lower, t, w, k)
    ensures k in batch.nodes ==> NodeAt(lower, v, w, k) == Some(run.nodeIds[k])
  {
    hide NodeIs, SavedBy, OutputCleared, Provenance, NodesUpserted, Writable, UniqueKeys, NodeShared, Named, MergedNode,
         NewNode, NodeAt, NodeData;
    RunNodes(lower, t, v, w, d, rows, batch, run);
    var c, u := run.cleared, run.upserted;
    ClearedNodeView(lower, t, c, w, d, w, k);
    SameRowsSameNodeAt(lower, u, v, w, k);
    if k in batch.nodes {
      UpsertedNodeAt(lower, c, u, w, batch.nodes, run.nodeIds, k);
    } else {
      UntouchedNodeAt(lower, c, u, w, batch.nodes, run.nodeIds, w, k);
    }
  }

  lemma NodeRowsElsewhere(lower: Lower, t: Tables, v: Tables, w: Id, d: Id, rows: seq<ChunkInput>,
          batch: GraphWriteBatch, run: SaveRun, w2: Id, k: string)
    requires Provenance(lower, t) && Writable(lower, batch) && SavedBy(lower, t, v, w, d, rows, batch, run) && w2 != w
    ensures NodeAt(lower, v, w2, k) == NodeAt(lower, t, w2, k) && NodeData(lower, v, w2, k) == NodeData(lower, t, w2, k)
  {
    hide NodeIs, SavedBy, OutputCleared, Provenance, NodesUpserted, Writable, UniqueKeys, NodeShared, Named, NodeAt,
         NodeData;
    RunNodes(lower, t, v, w, d, rows, batch, run);
    ClearedNodeView(lower, t, run.cleared, w, d, w2, k);
    SameRowsSameNodeAt(lower, run.upserted, v, w2, k);
    UntouchedNodeAt(lower, run.cleared, run.upserted, w, batch.nodes, run.nodeIds, w2, k);
  }

  lemma ClearedNodeView(lower: Lower, t: Tables, c: Tables, w: Id, d: Id, w2: Id, k: string)
    requires Provenance(lower, t) && UniqueKeys(lower, OutputCleared(t, w, d))
        && c.nodes == OutputCleared(t, w, d).nodes
    requires forall n | n in c.nodes :: n in t.nodes && c.nodes[n] == t.nodes[n]
    ensures NodeAt(lower, c, w2, k) == if w2 != w || NodeShared(lower, t, w2, k, d) then NodeAt(lower, t, w2, k)
        else None
    ensures NodeShared(lower, t, w2, k, d) ==> NodeAt(lower, t, w2, k).Some?
    ensures NodeData(lower, c, w2, k) == if w2 != w || NodeShared(lower, t, w2, k, d) then NodeData(lower, t, w2, k)
        else None
  {
    hide OutputCleared, Provenance, UniqueKeys, NodeShared, OtherNodeSource;
    ClearedNodeAt(lower, t, w, d, w2, k);
    SameRowsSameNodeAt(lower, OutputCleared(t, w, d), c, w2, k);
    SharedMeansOtherSource(lower, t, w2, k, d);
  }

  /** The facts about nodes between the statements of a run. */
  lemma RunNodes(lower: Lower, t: Tables, v: Tables, w: Id, d: Id, rows: seq<ChunkInput>, batch: GraphWriteBatch,
          run: SaveRun)
    requires Provenance(lower, t) && Writable(lower, batch) && SavedBy(lower, t, v, w, d, rows, batch, run)
    ensures UniqueKeys(lower, OutputCleared(t, w, d)) && UniqueKeys(lower, run.cleared)
        && UniqueKeys(lower, run.upserted)
    ensures OutputCleared(t, w, d).nodes == run.cleared.nodes && run.upserted.nodes == v.nodes
    ensures forall n | n in run.cleared.nodes :: n in t.nodes && run.cleared.nodes[n] == t.nodes[n]
    ensures NodesUpserted(lower, run.cleared, run.upserted, w, batch.nodes, run.nodeIds)
    ensures run.nodeIds.Keys == batch.nodes.Keys && Named(lower, batch.nodes)
  {
    AlongTheRun(lower, t, v, w, d, rows, batch, run);
    hide NodeIs, Referential, Sourced, Resolved, ResolvedEdges, EdgeSourcesAdded, EdgeIs, UniqueKeys;
    ClearingKeepsProvenance(lower, t, w, d);
    UniqueInBetween(lower, run.upserted, v, run.mentioned);
  }

  lemma UniqueInBetween(lower: Lower, u: Tables, v: Tables, m: Tables)
    requires UniqueKeys(lower, v) && UniqueKeys(lower, m) && u.nodes == v.nodes && u.edges == m.edges
    ensures UniqueKeys(lower, u)
  {
  }

  // ----- Who mentions a node after the transaction -----

  lemma ClearedSources(lower: Lower, t: Tables, w: Id, d: Id, s: Source)
    requires Provenance(lower, t)
    ensures var c := OutputCleared(t, w, d);
            && (s in c.nodeSources <==> s in t.nodeSources && !(t.nodeSources[s].workspace == w && s.document == d))
            && (s in c.nodeSources ==> c.nodeSources[s] == t.nodeSources[s])
            && (s in c.edgeSources <==> s in t.edgeSources && !(t.edgeSources[s].workspace == w && s.document == d))
            && (s in c.edgeSources ==> c.edgeSources[s] == t.edgeSources[s])
  {
    hide Provenance;
  }

  lemma SameNodeSourcesAdded(u: Tables, v: Tables, o: Tables, w: Id, d: Id, rows: map<string, NodeInput>,
          ids: map<string, Id>)
    requires ids.Keys == rows.Keys && NodeSourcesAdded(u, v, w, d, rows, ids) && o.nodeSources == u.nodeSources
    ensures NodeSourcesAdded(o, o.(nodeSources := v.nodeSources), w, d, rows, ids)
  {
  }

  /** The facts about node sources along a run. */
  lemma RunNodeSources(lower: Lower, t: Tables, v: Tables, w: Id, d: Id, rows: seq<ChunkInput>,
          batch: GraphWriteBatch, run: SaveRun)
    requires Provenance(lower, t) && Writable(lower, batch) && SavedBy(lower, t, v, w, d, rows, batch, run)
    ensures run.nodeIds.Keys == batch.nodes.Keys
    ensures NodeSourcesAdded(OutputCleared(t, w, d), OutputCleared(t, w, d).(nodeSources := v.nodeSources), w, d,
        batch.nodes, run.nodeIds)
  {
    var o := OutputCleared(t, w, d);
    hide Provenance, Writable, EdgesWritten, NodeSourcesAdded, NodeIs, EdgeIs, OutputCleared, SavedBy;
    AlongTheRun(lower, t, v, w, d, rows, batch, run);
    OneTableEach(lower, t, v, w, d, rows, batch, run);
    assert run.cleared == o.(chunks := run.cleared.chunks);
    SameNodeSourcesAdded(run.upserted, run.mentioned, o, w, d, batch.nodes, run.nodeIds);
  }

  /** A node of the result that was there before had the same key. */
  lemma OldNodeHasKey(lower: Lower, t: Tables, v: Tables, w: Id, d: Id, rows: seq<ChunkInput>, batch: GraphWriteBatch,
          run: SaveRun, w2: Id, k: string, n: Id)
    requires Provenance(lower, t) && Writable(lower, batch) && SavedBy(lower, t, v, w, d, rows, batch, run)
    requires NodeIs(lower, v, w2, k, n) && n in OutputCleared(t, w, d).nodes
    ensures NodeIs(lower, t, w2, k, n)
  {
    hide SavedBy, OutputCleared, Provenance, Writable, NodesUpserted, UniqueKeys;
    RunNodes(lower, t, v, w, d, rows, batch, run);
    UpsertedNodesStay(lower, run.cleared, run.upserted, w, batch.nodes, run.nodeIds, n);
  }

  /** Nodes of other workspaces are old. */
  lemma NewNodesAreLocal(lower: Lower, t: Tables, v: Tables, w: Id, d: Id, rows: seq<ChunkInput>,
          batch: GraphWriteBatch, run: SaveRun, n: Id)
    requires Provenance(lower, t) && Writable(lower, batch) && SavedBy(lower, t, v, w, d, rows, batch, run)
    requires n in v.nodes && v.nodes[n].workspace != w
    ensures n in t.nodes && t.nodes[n].workspace == v.nodes[n].workspace
  {
    hide SavedBy, OutputCleared, Provenance, Writable, NodesUpserted, UniqueKeys;
    RunNodes(lower, t, v, w, d, rows, batch, run);
    if n in run.cleared.nodes {
      UpsertedNodesStay(lower, run.cleared, run.upserted, w, batch.nodes, run.nodeIds, n);
    } else {
      var k := AddedNode(lower, run.cleared, run.upserted, w, batch.nodes, run.nodeIds, n);
    }
  }

  lemma MentionedInWorkspace(lower: Lower, t: Tables, s: Source)
    requires Provenance(lower, t) && s in t.nodeSources
    ensures s.item in t.nodes && t.nodes[s.item].workspace == t.nodeSources[s].workspace
  {
    assert NodeSourceRefers(t, s);
  }

  lemma BatchNodesHaveKeys(lower: Lower, t: Tables, v: Tables, w: Id, d: Id, rows: seq<ChunkInput>,
          batch: GraphWriteBatch, run: SaveRun, k: string)
    requires Provenance(lower, t) && Writable(lower, batch) && SavedBy(lower, t, v, w, d, rows, batch, run)
        && k in batch.nodes
    ensures k in run.nodeIds && NodeIs(lower, v, w, k, run.nodeIds[k])
  {
    hide Provenance, Writable, Resolved, ResolvedEdges, EdgeSourcesAdded, EdgeIs, OutputCleared, NodeSourcesAdded;
    AlongTheRun(lower, t, v, w, d, rows, batch, run);
  }

  /** The transaction touches no source row of another document or workspace. */
  lemma OtherNodeSourcesStay(lower: Lower, t: Tables, v: Tables, w: Id, d: Id, rows: seq<ChunkInput>,
          batch: GraphWriteBatch, run: SaveRun, w2: Id, k: string, n: Id, x: Id)
    requires Provenance(lower, t) && Writable(lower, batch) && SavedBy(lower, t, v, w, d, rows, batch, run)
    requires NodeIs(lower, v, w2, k, n) && (w2 != w || x != d)
    ensures Row(v.nodeSources, Some(Source(n, x))) == Row(t.nodeSources, Some(Source(n, x)))
    ensures Source(n, x) in t.nodeSources ==> NodeIs(lower, t, w2, k, n)
  {
    hide SavedBy, OutputCleared, Provenance, Writable;
    var o, s := OutputCleared(t, w, d), Source(n, x);
    ClearedSources(lower, t, w, d, s);
    if s in t.nodeSources {
      MentionedInWorkspace(lower, t, s);
      if w2 != w { NewNodesAreLocal(lower, t, v, w, d, rows, batch, run, n); }
      assert s in o.nodeSources;
      ClearingKeepsProvenance(lower, t, w, d);
      MentionedInWorkspace(lower, o, s);
      OldNodeHasKey(lower, t, v, w, d, rows, batch, run, w2, k, n);
    }
    RunNodeSources(lower, t, v, w, d, rows, batch, run);
    forall j | j in batch.nodes ensures NodeIs(lower, v, w, j, run.nodeIds[j]) {
      BatchNodesHaveKeys(lower, t, v, w, d, rows, batch, run, j);
    }
  }

  /** What document `x` says in the end of the node under `k`. */
  lemma OtherNodeMentionsStay(lower: Lower, t: Tables, v: Tables, w: Id, d: Id, rows: seq<ChunkInput>,
          batch: GraphWriteBatch, run: SaveRun, w2: Id, k: string, x: Id)
    requires Provenance(lower, t) && Writable(lower, batch) && SavedBy(lower, t, v, w, d, rows, batch, run)
    requires w2 != w || x != d
    ensures NodeMention(lower, v, w2, k, x) == NodeMention(lower, t, w2, k, x)
  {
    hide SavedBy, OutputCleared, Provenance, Writable, NodeIs, NodeAfter;
    if w2 != w {
      NodeRowsElsewhere(lower, t, v, w, d, rows, batch, run, w2, k);
    } else {
      NodeRowsAfterSave(lower, t, v, w, d, rows, batch, run, k);
    }
    match NodeAt(lower, v, w2, k) {
      case None => assert w2 == w ==> !NodeShared(lower, t, w, k, d);
      case Some(n) =>
        OtherNodeSourcesStay(lower, t, v, w, d, rows, batch, run, w2, k, n, x);
        if Source(n, x) in t.nodeSources { KeyNamesOneNode(lower, t, w2, k, n); }
        assert w2 == w && NodeMention(lower, t, w, k, x).Some? ==> NodeShared(lower, t, w, k, d);
    }
  }

  lemma KeyNamesOneNode(lower: Lower, t: Tables, w: Id, k: string, n: Id)
    requires Provenance(lower, t) && NodeIs(lower, t, w, k, n)
    ensures NodeAt(lower, t, w, k) == Some(n)
  {
    NodeAtIs(lower, t, w, k, n);
  }

  lemma OwnNodeMentionsAreBatch(lower: Lower, t: Tables, v: Tables, w: Id, d: Id, rows: seq<ChunkInput>,
          batch: GraphWriteBatch, run: SaveRun, k: string)
    requires Provenance(lower, t) && Writable(lower, batch) && SavedBy(lower, t, v, w, d, rows, batch, run)
    ensures NodeMention(lower, v, w, k, d) == MentionBy(w, Row(batch.nodes, Some(k)))
  {
    hide SavedBy, OutputCleared, Provenance, Writable, NodeShared, NodeAfter;
    NodeRowsAfterSave(lower, t, v, w, d, rows, batch, run, k);
    RunNodeSources(lower, t, v, w, d, rows, batch, run);
    forall j | j in batch.nodes ensures NodeIs(lower, v, w, j, run.nodeIds[j]) {
      BatchNodesHaveKeys(lower, t, v, w, d, rows, batch, run, j);
    }
    if k !in batch.nodes && NodeMention(lower, v, w, k, d).Some? {
      var n := NodeAt(lower, v, w, k).value;
      var s := Source(n, d);
      ClearedSources(lower, t, w, d, s);
      assert s in OutputCleared(t, w, d).nodeSources;
      ClearingKeepsProvenance(lower, t, w, d);
      MentionedInWorkspace(lower, OutputCleared(t, w, d), s);
      OldNodeHasKey(lower, t, v, w, d, rows, batch, run, w, k, n);
      MentionedInWorkspace(lower, t, s);
    }
  }

  // ----- Edges, statement by statement -----

  ghost predicate OtherEdgeSource(t: Tables, d: Id, e: Id) {
    exists x :: x != d && Source(e, x) in t.edgeSources
  }

  /** Clearing removes the edges that only `d` mentions, and no other. */
  lemma ClearedEdges(lower: Lower, t: Tables, w: Id, d: Id, e: Id)
    requires Provenance(lower, t)
    ensures var c := OutputCleared(t, w, d);
            && (e in c.edges <==> e in t.edges && (t.edges[e].workspace != w || OtherEdgeSource(t, d, e)))
            && (e in c.edges ==> c.edges[e] == t.edges[e])
  {
    var s := SourcesCleared(t, w, d);
    hide UniqueKeys;
    if e in t.edges && t.edges[e].workspace == w && OtherEdgeSource(t, d, e) {
      var x :| x != d && Source(e, x) in t.edgeSources;
      assert Source(e, x) in s.edgeSources;
      assert EdgeSourced(s, e);
    }
    if e in EdgesCollected(s, w).edges && t.edges[e].workspace == w {
      var x :| Source(e, x) in s.edgeSources;
      assert EdgeSourceRefers(t, Source(e, x));
    }
  }

  lemma ClearedEdgeIs(lower: Lower, t: Tables, w: Id, d: Id, w2: Id, k: EdgeKey, e: Id)
    requires Provenance(lower, t)
    ensures EdgeIs(lower, OutputCleared(t, w, d), w2, k, e)
        <==> EdgeIs(lower, t, w2, k, e) && (w2 != w || OtherEdgeSource(t, d, e))
  {
    hide Provenance, OutputCleared, OtherEdgeSource;
    var c := OutputCleared(t, w, d);
    ClearingKeepsProvenance(lower, t, w, d);
    ClearedEdges(lower, t, w, d, e);
    if e in c.edges {
      EndsOf(lower, c, e);
      ClearedNodes(lower, t, w, d, c.edges[e].source);
      ClearedNodes(lower, t, w, d, c.edges[e].target);
    }
  }

  lemma EndsOf(lower: Lower, t: Tables, e: Id)
    requires Provenance(lower, t) && e in t.edges
    ensures EndsExist(t, t.edges[e])
  {
  }

  lemma SharedMeansOtherEdgeSource(lower: Lower, t: Tables, w: Id, k: EdgeKey, d: Id)
    ensures EdgeShared(lower, t, w, k, d)
        <==> EdgeAt(lower, t, w, k).Some? && OtherEdgeSource(t, d, EdgeAt(lower, t, w, k).value)
  {
    if EdgeAt(lower, t, w, k).Some? && OtherEdgeSource(t, d, EdgeAt(lower, t, w, k).value) {
      var x :| x != d && Source(EdgeAt(lower, t, w, k).value, x) in t.edgeSources;
      assert EdgeMention(lower, t, w, k, x).Some?;
    }
  }

  lemma EdgeIsRow(lower: Lower, t: Tables, w: Id, k: EdgeKey, e: Id)
    requires EdgeIs(lower, t, w, k, e)
    ensures e in t.edges && t.edges[e].workspace == w
  {
  }

  lemma ClearedEdgeView(lower: Lower, t: Tables, w: Id, d: Id, w2: Id, k: EdgeKey)
    requires Provenance(lower, t)
    ensures EdgeShared(lower, t, w2, k, d) ==> EdgeAt(lower, t, w2, k).Some?
    ensures var c := OutputCleared(t, w, d);
            && EdgeAt(lower, c, w2, k)
               == (if w2 != w || EdgeShared(lower, t, w2, k, d) then EdgeAt(lower, t, w2, k) else None)
            && EdgeContent(lower, c, w2, k)
               == (if w2 != w || EdgeShared(lower, t, w2, k, d) then EdgeContent(lower, t, w2, k) else None)
  {
    var c := OutputCleared(t, w, d);
    hide OutputCleared, Referential, Sourced, UniqueKeys, EdgeIs, OtherEdgeSource, EdgeShared;
    ClearingKeepsProvenance(lower, t, w, d);
    forall e ensures EdgeIs(lower, c, w2, k, e)
      <==> EdgeIs(lower, t, w2, k, e) && (w2 != w || OtherEdgeSource(t, d, e)) {
      ClearedEdgeIs(lower, t, w, d, w2, k, e);
    }
    SharedMeansOtherEdgeSource(lower, t, w2, k, d);
    match EdgeAt(lower, c, w2, k) {
      case Some(e) =>
        EdgeAtIs(lower, t, w2, k, e);
        ClearedEdges(lower, t, w, d, e);
        assert e in c.edges by { EdgeIsRow(lower, c, w2, k, e); }
      case None =>
    }
  }

  /** Upserting nodes moves no edge to another key. */
  lemma EdgesKeepKeys(lower: Lower, t: Tables, u: Tables, w: Id, rows: map<string, NodeInput>, ids: map<string, Id>,
          w2: Id, k: EdgeKey, e: Id)
    requires Referential(t) && NodesUpserted(lower, t, u, w, rows, ids)
    ensures EdgeIs(lower, u, w2, k, e) <==> EdgeIs(lower, t, w2, k, e)
  {
    assert u.edges == t.edges;
    if e in t.edges {
      assert EndsExist(t, t.edges[e]);
      UpsertedNodesStay(lower, t, u, w, rows, ids, t.edges[e].source);
      UpsertedNodesStay(lower, t, u, w, rows, ids, t.edges[e].target);
    }
  }

  /** Tables with the same edges under the same keys show the same edges. */
  lemma SameKeysSameEdgeAt(lower: Lower, t: Tables, u: Tables, w: Id, k: EdgeKey)
    requires UniqueKeys(lower, t) && t.edges == u.edges
    requires forall e :: EdgeIs(lower, u, w, k, e) <==> EdgeIs(lower, t, w, k, e)
    ensures EdgeAt(lower, t, w, k) == EdgeAt(lower, u, w, k)
        && EdgeContent(lower, t, w, k) == EdgeContent(lower, u, w, k)
  {
    hide EdgeIs, UniqueKeys;
    if EdgeAt(lower, u, w, k).Some? { EdgeAtIs(lower, t, w, k, EdgeAt(lower, u, w, k).value); }
  }

  // ----- Edges after the transaction -----

  function EdgeAfter(before: Option<EdgeData>, shared: bool, row: Option<EdgeInput>): Option<EdgeData> {
    match row
    case None => if shared then before else None
    case Some(r) =>
      Some(if shared && before.Some?
           then EdgeData(before.value.relationship, Or(r.description, before.value.description))
           else EdgeData(r.relationship, r.description))
  }

  function EdgeMentionBy(w: Id, row: Option<EdgeInput>): Option<EdgeSource> {
    match row
    case None => None
    case Some(r) => Some(EdgeSource(w, r.relationship, r.description))
  }

  function AsInput(row: EdgeRow): EdgeInput {
    EdgeInput("", "", row.relationship, row.description)
  }

  lemma UpsertedEdgeAt(lower: Lower, t: Tables, u: Tables, w: Id, d: Id, rows: map<EdgeKey, EdgeRow>,
          ids: map<EdgeKey, Id>, k: EdgeKey)
    requires UniqueKeys(lower, t) && UniqueKeys(lower, u) && EdgesUpserted(lower, t, u, rows, ids)
        && Resolved(lower, t, w, d, rows) && k in rows
    ensures EdgeAt(lower, u, w, k) == Some(ids[k])
        && (EdgeAt(lower, t, w, k).Some? ==> EdgeAt(lower, t, w, k) == Some(ids[k]))
    ensures EdgeContent(lower, u, w, k) == EdgeAfter(EdgeContent(lower, t, w, k), true, Some(AsInput(rows[k])))
  {
    hide UniqueKeys;
    UpsertedEdgeHasKey(lower, t, u, w, d, rows, ids, k);
    EdgeAtIs(lower, u, w, k, ids[k]);
    assert EdgeUpserted(lower, t, u, rows[k], ids[k]);
    forall e ensures EdgeMatches(lower, t, rows[k], e) <==> EdgeIs(lower, t, w, k, e) {
      ResolvedRowMatchesByKey(lower, t, w, d, rows, k, e);
    }
    hide EdgesUpserted, Resolved, EdgeIs, EdgeMatches;
    if EdgeIs(lower, t, w, k, ids[k]) { EdgeAtIs(lower, t, w, k, ids[k]); }
  }

  lemma UntouchedEdgeAt(lower: Lower, t: Tables, u: Tables, w: Id, d: Id, rows: map<EdgeKey, EdgeRow>,
          ids: map<EdgeKey, Id>, w2: Id, k: EdgeKey)
    requires UniqueKeys(lower, t) && UniqueKeys(lower, u) && EdgesUpserted(lower, t, u, rows, ids)
        && Resolved(lower, t, w, d, rows)
    requires w2 != w || k !in rows
    ensures EdgeAt(lower, u, w2, k) == EdgeAt(lower, t, w2, k)
        && EdgeContent(lower, u, w2, k) == EdgeContent(lower, t, w2, k)
  {
    hide UniqueKeys;
    forall j | j in rows ensures EdgeIs(lower, u, w, j, ids[j]) { UpsertedEdgeHasKey(lower, t, u, w, d, rows, ids, j); }
    if EdgeAt(lower, t, w2, k).Some? {
      var e := EdgeAt(lower, t, w2, k).value;
      UpsertedEdgesStay(lower, t, u, rows, ids, e);
      EdgeAtIs(lower, u, w2, k, e);
      assert e !in ids.Values;
    } else if EdgeAt(lower, u, w2, k).Some? {
      var e := EdgeAt(lower, u, w2, k).value;
      var known := EdgeIs(lower, t, w2, k, e);
      if e in t.edges {
        UpsertedEdgesStay(lower, t, u, rows, ids, e);
      } else {
        var j := AddedEdge(lower, t, u, rows, ids, e);
      }
    }
  }

  /** The facts about edges between the statements of a run. */
  lemma RunEdges(lower: Lower, t: Tables, v: Tables, w: Id, d: Id, rows: seq<ChunkInput>, batch: GraphWriteBatch,
          run: SaveRun)
    requires Provenance(lower, t) && Writable(lower, batch) && SavedBy(lower, t, v, w, d, rows, batch, run)
    ensures UniqueKeys(lower, OutputCleared(t, w, d)) && UniqueKeys(lower, run.mentioned) && UniqueKeys(lower, v)
    ensures OutputCleared(t, w, d).edges == run.mentioned.edges
    ensures var links := ResolvedEdges(lower, w, batch.edges, run.nodeIds);
            && links.Keys == batch.edges.Keys && Resolved(lower, run.mentioned, w, d, links)
            && EdgesUpserted(lower, run.mentioned, v.(edgeSources := run.mentioned.edgeSources), links, run.edgeIds)
            && (forall k | k in links ::
               links[k].relationship == batch.edges[k].relationship
                   && links[k].description == batch.edges[k].description)
  {
    hide NodeIs, EdgeIs, Referential, Sourced, Resolved, ResolvedEdges, EdgeSourcesAdded, UniqueKeys, NodesUpserted,
         NodeSourcesAdded, EdgesUpserted, OutputCleared, NodeSourcesInserted, EdgeSourcesInserted, Writable;
    AlongTheRun(lower, t, v, w, d, rows, batch, run);
    ClearingKeepsProvenance(lower, t, w, d);
    OneTableEach(lower, t, v, w, d, rows, batch, run);
    assert run.linked == v.(edgeSources := run.mentioned.edgeSources);
  }

  /** Before the edges are written, the kept edges are under their old keys. */
  lemma EdgesBeforeLinking(lower: Lower, t: Tables, v: Tables, w: Id, d: Id, rows: seq<ChunkInput>,
          batch: GraphWriteBatch, run: SaveRun, w2: Id, k: EdgeKey)
    requires Provenance(lower, t) && Writable(lower, batch) && SavedBy(lower, t, v, w, d, rows, batch, run)
    ensures forall e :: EdgeIs(lower, run.mentioned, w2, k, e) <==> EdgeIs(lower, OutputCleared(t, w, d), w2, k, e)
    ensures EdgeAt(lower, run.mentioned, w2, k) == EdgeAt(lower, OutputCleared(t, w, d), w2, k)
    ensures EdgeContent(lower, run.mentioned, w2, k) == EdgeContent(lower, OutputCleared(t, w, d), w2, k)
  {
    var o := OutputCleared(t, w, d);
    hide SavedBy, OutputCleared, Writable, NodesUpserted, UniqueKeys, EdgesUpserted, Resolved, ResolvedEdges, EdgeIs,
         Provenance, NodeSourcesAdded, EdgeSourcesAdded, Named;
    AlongTheRun(lower, t, v, w, d, rows, batch, run);
    RunNodes(lower, t, v, w, d, rows, batch, run);
    RunEdges(lower, t, v, w, d, rows, batch, run);
    OneTableEach(lower, t, v, w, d, rows, batch, run);
    assert o.nodes == run.cleared.nodes && o.edges == run.cleared.edges;
    forall e ensures EdgeIs(lower, run.mentioned, w2, k, e) <==> EdgeIs(lower, o, w2, k, e) {
      ProvenIsReferential(lower, run.cleared);
      EdgesKeepKeys(lower, run.cleared, run.upserted, w, batch.nodes, run.nodeIds, w2, k, e);
      EdgeIsDependsOnRows(lower, o, run.cleared, w2, k, e);
      EdgeIsDependsOnRows(lower, run.upserted, run.mentioned, w2, k, e);
    }
    SameKeysSameEdgeAt(lower, o, run.mentioned, w2, k);
  }

  lemma ProvenIsReferential(lower: Lower, t: Tables)
    requires Provenance(lower, t)
    ensures Referential(t) && UniqueKeys(lower, t)
  {
  }

  lemma EdgeRowsAfterSave(lower: Lower, t: Tables, v: Tables, w: Id, d: Id, rows: seq<ChunkInput>,
          batch: GraphWriteBatch, run: SaveRun, k: EdgeKey)
    requires Provenance(lower, t) && Writable(lower, batch) && SavedBy(lower, t, v, w, d, rows, batch, run)
    ensures EdgeContent(lower, v, w, k)
        == EdgeAfter(EdgeContent(lower, t, w, k), EdgeShared(lower, t, w, k, d), Row(batch.edges, Some(k)))
    ensures EdgeShared(lower, t, w, k, d) ==> EdgeAt(lower, v, w, k) == EdgeAt(lower, t, w, k)
    ensures k in batch.edges ==> k in run.edgeIds && EdgeAt(lower, v, w, k) == Some(run.edgeIds[k])
  {
    hide EdgeIs, SavedBy, OutputCleared, Provenance, EdgesUpserted, Writable, UniqueKeys, EdgeShared, EdgeAt,
         EdgeContent, Resolved, ResolvedEdges;
    RunEdges(lower, t, v, w, d, rows, batch, run);
    var u := v.(edgeSources := run.mentioned.edgeSources);
    var links := ResolvedEdges(lower, w, batch.edges, run.nodeIds);
    ClearedEdgeView(lower, t, w, d, w, k);
    EdgesBeforeLinking(lower, t, v, w, d, rows, batch, run, w, k);
    SourcesDoNotMatter(lower, v, u, w, k);
    if k in batch.edges {
      UpsertedEdgeAt(lower, run.mentioned, u, w, d, links, run.edgeIds, k);
      assert k in run.edgeIds by { EdgeKeysOfIds(lower, run.mentioned, u, links, run.edgeIds); }
    } else {
      UntouchedEdgeAt(lower, run.mentioned, u, w, d, links, run.edgeIds, w, k);
    }
  }

  lemma EdgeRowsElsewhere(lower: Lower, t: Tables, v: Tables, w: Id, d: Id, rows: seq<ChunkInput>,
          batch: GraphWriteBatch, run: SaveRun, w2: Id, k: EdgeKey)
    requires Provenance(lower, t) && Writable(lower, batch) && SavedBy(lower, t, v, w, d, rows, batch, run) && w2 != w
    ensures EdgeAt(lower, v, w2, k) == EdgeAt(lower, t, w2, k)
        && EdgeContent(lower, v, w2, k) == EdgeContent(lower, t, w2, k)
  {
    hide EdgeIs, SavedBy, OutputCleared, Provenance, EdgesUpserted, Writable, UniqueKeys, EdgeShared, EdgeAt,
         EdgeContent, Resolved, ResolvedEdges;
    RunEdges(lower, t, v, w, d, rows, batch, run);
    var u := v.(edgeSources := run.mentioned.edgeSources);
    ClearedEdgeView(lower, t, w, d, w2, k);
    EdgesBeforeLinking(lower, t, v, w, d, rows, batch, run, w2, k);
    SourcesDoNotMatter(lower, v, u, w2, k);
    var links := ResolvedEdges(lower, w, batch.edges, run.nodeIds);
    UntouchedEdgeAt(lower, run.mentioned, u, w, d, links, run.edgeIds, w2, k);
  }

  lemma SourcesDoNotMatter(lower: Lower, t: Tables, u: Tables, w: Id, k: EdgeKey)
    requires UniqueKeys(lower, t) && u == t.(edgeSources := u.edgeSources)
    ensures UniqueKeys(lower, u)
    ensures EdgeAt(lower, t, w, k) == EdgeAt(lower, u, w, k)
        && EdgeContent(lower, t, w, k) == EdgeContent(lower, u, w, k)
  {
    hide EdgeIs, UniqueKeys;
    SameRowsSameKeys(lower, t, u);
    forall e ensures EdgeIs(lower, u, w, k, e)
      <==> EdgeIs(lower, t, w, k, e) { EdgeIsDependsOnRows(lower, t, u, w, k, e); }
    SameKeysSameEdgeAt(lower, t, u, w, k);
  }

  // ----- Who mentions an edge after the transaction -----

  lemma SameEdgeSourcesAdded(u: Tables, v: Tables, o: Tables, w: Id, d: Id, rows: map<EdgeKey, EdgeRow>,
          ids: map<EdgeKey, Id>)
    requires ids.Keys == rows.Keys && EdgeSourcesAdded(u, v, w, d, rows, ids) && o.edgeSources == u.edgeSources
    ensures EdgeSourcesAdded(o, o.(edgeSources := v.edgeSources), w, d, rows, ids)
  {
  }

  lemma RunEdgeSources(lower: Lower, t: Tables, v: Tables, w: Id, d: Id, rows: seq<ChunkInput>,
          batch: GraphWriteBatch, run: SaveRun)
    requires Provenance(lower, t) && Writable(lower, batch) && SavedBy(lower, t, v, w, d, rows, batch, run)
    ensures var links := ResolvedEdges(lower, w, batch.edges, run.nodeIds);
            && links.Keys == run.edgeIds.Keys
            && EdgeSourcesAdded(OutputCleared(t, w, d), OutputCleared(t, w, d).(edgeSources := v.edgeSources), w, d,
               links, run.edgeIds)
            && (forall k | k in links :: EdgeIs(lower, v, w, k, run.edgeIds[k]))
  {
    var o := OutputCleared(t, w, d);
    hide Provenance, Writable, Resolved, ResolvedEdges, NodesWritten, NodeSourcesAdded, EdgeSourcesAdded, NodeIs,
         EdgeIs, OutputCleared, SavedBy;
    AlongTheRun(lower, t, v, w, d, rows, batch, run);
    OneTableEach(lower, t, v, w, d, rows, batch, run);
    assert run.cleared == o.(chunks := run.cleared.chunks);
    SameEdgeSourcesAdded(run.linked, v, o, w, d, ResolvedEdges(lower, w, batch.edges, run.nodeIds), run.edgeIds);
  }

  lemma OldEdgeHasKey(lower: Lower, t: Tables, v: Tables, w: Id, d: Id, rows: seq<ChunkInput>, batch: GraphWriteBatch,
          run: SaveRun, w2: Id, k: EdgeKey, e: Id)
    requires Provenance(lower, t) && Writable(lower, batch) && SavedBy(lower, t, v, w, d, rows, batch, run)
    requires EdgeIs(lower, v, w2, k, e) && e in OutputCleared(t, w, d).edges
    ensures EdgeIs(lower, t, w2, k, e)
  {
    hide SavedBy, OutputCleared, Provenance, Writable, EdgesUpserted, UniqueKeys, Resolved, ResolvedEdges;
    RunEdges(lower, t, v, w, d, rows, batch, run);
    OneTableEach(lower, t, v, w, d, rows, batch, run);
    EdgesBeforeLinking(lower, t, v, w, d, rows, batch, run, w2, k);
    UpsertedEdgesStay(lower, run.mentioned, v.(edgeSources := run.mentioned.edgeSources),
      ResolvedEdges(lower, w, batch.edges, run.nodeIds), run.edgeIds, e);
    assert EdgeIs(lower, run.mentioned, w2, k, e);
    ClearedEdgeIs(lower, t, w, d, w2, k, e);
  }

  lemma NewEdgesAreLocal(lower: Lower, t: Tables, v: Tables, w: Id, d: Id, rows: seq<ChunkInput>,
          batch: GraphWriteBatch, run: SaveRun, e: Id)
    requires Provenance(lower, t) && Writable(lower, batch) && SavedBy(lower, t, v, w, d, rows, batch, run)
    requires e in v.edges && v.edges[e].workspace != w
    ensures e in t.edges && t.edges[e].workspace == v.edges[e].workspace
  {
    hide SavedBy, OutputCleared, Provenance, Writable, EdgesUpserted, UniqueKeys, ResolvedEdges;
    RunEdges(lower, t, v, w, d, rows, batch, run);
    var m, u := run.mentioned, v.(edgeSources := run.mentioned.edgeSources);
    var links := ResolvedEdges(lower, w, batch.edges, run.nodeIds);
    if e in m.edges {
      UpsertedEdgesStay(lower, m, u, links, run.edgeIds, e);
      ClearedEdges(lower, t, w, d, e);
    } else {
      var k := AddedEdge(lower, m, u, links, run.edgeIds, e);
    }
  }

  lemma EdgeMentionedInWorkspace(lower: Lower, t: Tables, s: Source)
    requires Provenance(lower, t) && s in t.edgeSources
    ensures s.item in t.edges && t.edges[s.item].workspace == t.edgeSources[s].workspace
  {
    assert EdgeSourceRefers(t, s);
  }

  /** The transaction touches no source row of another document or workspace. */
  lemma OtherEdgeSourcesStay(lower: Lower, t: Tables, v: Tables, w: Id, d: Id, rows: seq<ChunkInput>,
          batch: GraphWriteBatch, run: SaveRun, w2: Id, k: EdgeKey, e: Id, x: Id)
    requires Provenance(lower, t) && Writable(lower, batch) && SavedBy(lower, t, v, w, d, rows, batch, run)
    requires EdgeIs(lower, v, w2, k, e) && (w2 != w || x != d)
    ensures Row(v.edgeSources, Some(Source(e, x))) == Row(t.edgeSources, Some(Source(e, x)))
    ensures Source(e, x) in t.edgeSources ==> EdgeIs(lower, t, w2, k, e)
  {
    hide SavedBy, OutputCleared, Provenance, Writable, NodeIs, ResolvedEdges;
    var o, s := OutputCleared(t, w, d), Source(e, x);
    ClearedSources(lower, t, w, d, s);
    if s in t.edgeSources {
      EdgeMentionedInWorkspace(lower, t, s);
      if w2 != w { NewEdgesAreLocal(lower, t, v, w, d, rows, batch, run, e); }
      assert s in o.edgeSources;
      ClearingKeepsProvenance(lower, t, w, d);
      EdgeMentionedInWorkspace(lower, o, s);
      OldEdgeHasKey(lower, t, v, w, d, rows, batch, run, w2, k, e);
    }
    RunEdgeSources(lower, t, v, w, d, rows, batch, run);
  }

  lemma OtherEdgeMentionsStay(lower: Lower, t: Tables, v: Tables, w: Id, d: Id, rows: seq<ChunkInput>,
          batch: GraphWriteBatch, run: SaveRun, w2: Id, k: EdgeKey, x: Id)
    requires Provenance(lower, t) && Writable(lower, batch) && SavedBy(lower, t, v, w, d, rows, batch, run)
    requires w2 != w || x != d
    ensures EdgeMention(lower, v, w2, k, x) == EdgeMention(lower, t, w2, k, x)
  {
    hide SavedBy, OutputCleared, Provenance, Writable, EdgeIs, EdgeAfter, UniqueKeys;
    if w2 != w {
      EdgeRowsElsewhere(lower, t, v, w, d, rows, batch, run, w2, k);
    } else {
      EdgeRowsAfterSave(lower, t, v, w, d, rows, batch, run, k);
    }
    ProvenIsReferential(lower, t);
    match EdgeAt(lower, v, w2, k) {
      case None => assert w2 == w ==> !EdgeShared(lower, t, w, k, d) by { ClearedEdgeView(lower, t, w, d, w, k); }
      case Some(e) =>
        OtherEdgeSourcesStay(lower, t, v, w, d, rows, batch, run, w2, k, e, x);
        if Source(e, x) in t.edgeSources { EdgeAtIs(lower, t, w2, k, e); }
        assert w2 == w && EdgeMention(lower, t, w, k, x).Some? ==> EdgeShared(lower, t, w, k, d);
    }
  }

  lemma OwnEdgeIsInBatch(lower: Lower, t: Tables, v: Tables, w: Id, d: Id, rows: seq<ChunkInput>,
          batch: GraphWriteBatch, run: SaveRun, k: EdgeKey, e: Id)
    requires Provenance(lower, t) && Writable(lower, batch) && SavedBy(lower, t, v, w, d, rows, batch, run)
    requires EdgeIs(lower, v, w, k, e) && Source(e, d) in v.edgeSources
    ensures k in batch.edges
  {
    hide SavedBy, OutputCleared, Provenance, Writable, ResolvedEdges, Resolved, EdgesUpserted;
    var o, s := OutputCleared(t, w, d), Source(e, d);
    RunEdges(lower, t, v, w, d, rows, batch, run);
    RunEdgeSources(lower, t, v, w, d, rows, batch, run);
    ClearedSources(lower, t, w, d, s);
    if s in o.edgeSources {
      ClearingKeepsProvenance(lower, t, w, d);
      EdgeMentionedInWorkspace(lower, o, s);
      EdgeMentionedInWorkspace(lower, t, s);
      OldEdgeHasKey(lower, t, v, w, d, rows, batch, run, w, k, e);
    }
  }

  lemma OwnEdgeMentionsAreBatch(lower: Lower, t: Tables, v: Tables, w: Id, d: Id, rows: seq<ChunkInput>,
          batch: GraphWriteBatch, run: SaveRun, k: EdgeKey)
    requires Provenance(lower, t) && Writable(lower, batch) && SavedBy(lower, t, v, w, d, rows, batch, run)
    ensures EdgeMention(lower, v, w, k, d) == EdgeMentionBy(w, Row(batch.edges, Some(k)))
  {
    hide SavedBy, OutputCleared, Provenance, Writable, EdgeShared, EdgeAfter, ResolvedEdges, UniqueKeys, Resolved,
         EdgesUpserted, EdgeIs;
    if k in batch.edges {
      RunEdges(lower, t, v, w, d, rows, batch, run);
      RunEdgeSources(lower, t, v, w, d, rows, batch, run);
      EdgeRowsAfterSave(lower, t, v, w, d, rows, batch, run, k);
    } else if EdgeMention(lower, v, w, k, d).Some? {
      OwnEdgeIsInBatch(lower, t, v, w, d, rows, batch, run, k, EdgeAt(lower, v, w, k).value);
    }
  }

  // ----- The transaction as a whole -----

  /** The graph of workspace `w` after saving `batch` for document `d`, key by key: whatever another
      document mentions is still there, in the same row; the document itself mentions exactly the
      batch; and nothing else is left. */
  ghost predicate GraphAfter(lower: Lower, t: Tables, v: Tables, w: Id, d: Id, batch: GraphWriteBatch) {
    && (forall k ::
          && NodeData(lower, v, w, k)
             == NodeAfter(w, NodeData(lower, t, w, k), NodeShared(lower, t, w, k, d), Row(batch.nodes, Some(k)))
          && (NodeShared(lower, t, w, k, d) ==> NodeAt(lower, v, w, k) == NodeAt(lower, t, w, k)))
    && (forall k, x :: NodeMention(lower, v, w, k, x)
                    == if x == d then MentionBy(w, Row(batch.nodes, Some(k))) else NodeMention(lower, t, w, k, x))
    && (forall k ::
          && EdgeContent(lower, v, w, k)
             == EdgeAfter(EdgeContent(lower, t, w, k), EdgeShared(lower, t, w, k, d), Row(batch.edges, Some(k)))
          && (EdgeShared(lower, t, w, k, d) ==> EdgeAt(lower, v, w, k) == EdgeAt(lower, t, w, k)))
    && (forall k, x :: EdgeMention(lower, v, w, k, x)
                    == if x == d then EdgeMentionBy(w, Row(batch.edges, Some(k))) else EdgeMention(lower, t, w, k, x))
  }

  /** Workspace `w` shows the same rows, under the same ids. */
  ghost predicate SameGraph(lower: Lower, t: Tables, v: Tables, w: Id) {
    && (forall k ::
       NodeAt(lower, v, w, k) == NodeAt(lower, t, w, k) && NodeData(lower, v, w, k) == NodeData(lower, t, w, k))
    && (forall k, x :: NodeMention(lower, v, w, k, x) == NodeMention(lower, t, w, k, x))
    && (forall k ::
       EdgeAt(lower, v, w, k) == EdgeAt(lower, t, w, k) && EdgeContent(lower, v, w, k) == EdgeContent(lower, t, w, k))
    && (forall k, x :: EdgeMention(lower, v, w, k, x) == EdgeMention(lower, t, w, k, x))
  }

  lemma SaveWritesTheBatch(lower: Lower, t: Tables, v: Tables, w: Id, d: Id, rows: seq<ChunkInput>,
          batch: GraphWriteBatch)
    requires Provenance(lower, t) && Writable(lower, batch) && Saved(lower, t, v, w, d, rows, batch)
    ensures GraphAfter(lower, t, v, w, d, batch)
  {
    hide Provenance, Writable, SavedBy, NodeData, NodeAt, EdgeAt, EdgeContent, NodeShared, EdgeShared, NodeMention,
         EdgeMention;
    var run :| SavedBy(lower, t, v, w, d, rows, batch, run);
    forall k { NodeRowsAfterSave(lower, t, v, w, d, rows, batch, run, k); }
    forall k { EdgeRowsAfterSave(lower, t, v, w, d, rows, batch, run, k); }
    forall k { OwnNodeMentionsAreBatch(lower, t, v, w, d, rows, batch, run, k); }
    forall k { OwnEdgeMentionsAreBatch(lower, t, v, w, d, rows, batch, run, k); }
    forall k, x | x != d { OtherNodeMentionsStay(lower, t, v, w, d, rows, batch, run, w, k, x); }
    forall k, x | x != d { OtherEdgeMentionsStay(lower, t, v, w, d, rows, batch, run, w, k, x); }
  }

  /** `r` is the row `b` with what the batch says of it: attributes that the batch has replace those of
      the row, absent ones erase nothing, and an embedding is replaced only by one that comes with a
      description, or where there was none. */
  predicate KeepsAndAdds(b: NodeRow, n: NodeInput, r: NodeRow) {
    && r.workspace == b.workspace && r.name == b.name
    && (n.entityType.Some? ==> r.entityType == n.entityType)
    && (n.entityType.None? ==> r.entityType == b.entityType)
    && (n.description.Some? ==> r.description == n.description)
    && (n.description.None? ==> r.description == b.description)
    && (n.embedding.None? || (b.embedding.Some? && n.description.None?) ==> r.embedding == b.embedding)
    && (n.embedding.Some? && (b.embedding.None? || n.description.Some?) ==> r.embedding == n.embedding)
  }

  /** What the rows of the workspace hold after the transaction, attribute by attribute. A node that
      another document mentions keeps what the batch does not say; a node of this document alone is
      exactly what the batch says; a node outside the batch stays as it is if another document mentions
      it, and is gone otherwise. */
  lemma SaveWritesNodes(lower: Lower, t: Tables, v: Tables, w: Id, d: Id, rows: seq<ChunkInput>,
          batch: GraphWriteBatch, k: string)
    requires Provenance(lower, t) && Writable(lower, batch) && Saved(lower, t, v, w, d, rows, batch)
    ensures var b, r := NodeData(lower, t, w, k), NodeData(lower, v, w, k);
            && (k !in batch.nodes ==> r == if NodeShared(lower, t, w, k, d) then b else None)
            && (k in batch.nodes && NodeShared(lower, t, w, k, d) ==>
                  b.Some? && r.Some? && KeepsAndAdds(b.value, batch.nodes[k], r.value))
            && (k in batch.nodes && !NodeShared(lower, t, w, k, d) ==>
                  && r.Some? && r.value.workspace == w && r.value.name == batch.nodes[k].name
                  && r.value.entityType == batch.nodes[k].entityType
                  && r.value.description == batch.nodes[k].description
                  && r.value.embedding == batch.nodes[k].embedding)
  {
    hide Provenance, Writable, Saved, NodeAt, EdgeContent, NodeShared, EdgeShared, NodeMention, EdgeMention;
    SaveWritesTheBatch(lower, t, v, w, d, rows, batch);
    SharedMeansOtherSource(lower, t, w, k, d);
  }

  /** The same of edges: the relationship stays as it was first written, and a description is replaced
      only by one that the batch has. */
  lemma SaveWritesEdges(lower: Lower, t: Tables, v: Tables, w: Id, d: Id, rows: seq<ChunkInput>,
          batch: GraphWriteBatch, k: EdgeKey)
    requires Provenance(lower, t) && Writable(lower, batch) && Saved(lower, t, v, w, d, rows, batch)
    ensures var b, r := EdgeContent(lower, t, w, k), EdgeContent(lower, v, w, k);
            && (k !in batch.edges ==> r == if EdgeShared(lower, t, w, k, d) then b else None)
            && (k in batch.edges && EdgeShared(lower, t, w, k, d) ==>
                  && b.Some? && r.Some? && r.value.relationship == b.value.relationship
                  && (batch.edges[k].description.Some? ==> r.value.description == batch.edges[k].description)
                  && (batch.edges[k].description.None? ==> r.value.description == b.value.description))
            && (k in batch.edges && !EdgeShared(lower, t, w, k, d) ==>
                  && r.Some? && r.value.relationship == batch.edges[k].relationship
                  && r.value.description == batch.edges[k].description)
  {
    hide Provenance, Writable, Saved, NodeData, NodeShared, NodeMention;
    SaveWritesTheBatch(lower, t, v, w, d, rows, batch);
    hide GraphAfter, EdgeAt;
    GraphAfterAtEdge(lower, t, v, w, d, batch, k);
  }

  lemma GraphAfterAtEdge(lower: Lower, t: Tables, v: Tables, w: Id, d: Id, batch: GraphWriteBatch, k: EdgeKey)
    requires GraphAfter(lower, t, v, w, d, batch)
    ensures EdgeContent(lower, v, w, k)
         == EdgeAfter(EdgeContent(lower, t, w, k), EdgeShared(lower, t, w, k, d), Row(batch.edges, Some(k)))
  {
    hide EdgeContent, EdgeShared, EdgeAfter, Row, NodeData, NodeShared;
  }

  /** What the document itself says afterwards is what the batch says, word for word, and what other
      documents say is what they said. */
  lemma SaveWritesMentions(lower: Lower, t: Tables, v: Tables, w: Id, d: Id, rows: seq<ChunkInput>,
          batch: GraphWriteBatch)
    requires Provenance(lower, t) && Writable(lower, batch) && Saved(lower, t, v, w, d, rows, batch)
    ensures forall k :: NodeMention(lower, v, w, k, d).Some? <==> k in batch.nodes
    ensures forall k | k in batch.nodes ::
              NodeMention(lower, v, w, k, d) == Some(NodeSource(w, batch.nodes[k].entityType,
                                                                batch.nodes[k].description, batch.nodes[k].embedding))
    ensures forall k :: EdgeMention(lower, v, w, k, d).Some? <==> k in batch.edges
    ensures forall k | k in batch.edges ::
              EdgeMention(lower, v, w, k, d)
              == Some(EdgeSource(w, batch.edges[k].relationship, batch.edges[k].description))
    ensures forall k, x | x != d :: NodeMention(lower, v, w, k, x) == NodeMention(lower, t, w, k, x)
    ensures forall k, x | x != d :: EdgeMention(lower, v, w, k, x) == EdgeMention(lower, t, w, k, x)
  {
    hide Provenance, Writable, Saved, NodeData, NodeAt, EdgeContent, NodeShared, EdgeShared, NodeMention, EdgeMention;
    SaveWritesTheBatch(lower, t, v, w, d, rows, batch);
  }

  lemma SaveLeavesOtherWorkspaces(lower: Lower, t: Tables, v: Tables, w: Id, d: Id, rows: seq<ChunkInput>,
          batch: GraphWriteBatch, w2: Id)
    requires Provenance(lower, t) && Writable(lower, batch) && Saved(lower, t, v, w, d, rows, batch) && w2 != w
    ensures SameGraph(lower, t, v, w2)
  {
    hide Provenance, Writable, SavedBy, NodeData, NodeAt, EdgeAt, EdgeContent, NodeMention, EdgeMention;
    var run :| SavedBy(lower, t, v, w, d, rows, batch, run);
    forall k { NodeRowsElsewhere(lower, t, v, w, d, rows, batch, run, w2, k); }
    forall k { EdgeRowsElsewhere(lower, t, v, w, d, rows, batch, run, w2, k); }
    forall k, x { OtherNodeMentionsStay(lower, t, v, w, d, rows, batch, run, w2, k, x); }
    forall k, x { OtherEdgeMentionsStay(lower, t, v, w, d, rows, batch, run, w2, k, x); }
  }

  /** The chunks of `d` are exactly the rows, a kept index keeps its id, and no other chunk changes. */
  ghost predicate ChunksAfter(t: Tables, v: Tables, w: Id, d: Id, rows: seq<ChunkInput>) {
    && (forall c :: c in v.chunks <==> if c.workspace == w && c.document == d then c.index < |rows| else c in t.chunks)
    && (forall c | c in v.chunks ::
          if c.workspace == w && c.document == d
          then v.chunks[c]
               == ChunkRow(if c in t.chunks then t.chunks[c].id else v.chunks[c].id,
                           rows[c.index].text, rows[c.index].embedding)
          else v.chunks[c] == t.chunks[c])
  }

  lemma ChunkAfter(t: Tables, w: Id, d: Id, rows: seq<ChunkInput>, newId: nat -> Id, c: ChunkKey)
    ensures var u := ClearedAndChunked(t, w, d, rows, newId);
            && (c in u.chunks <==> if c.workspace == w && c.document == d then c.index < |rows| else c in t.chunks)
            && (c in u.chunks ==>
                  u.chunks[c] == if c.workspace == w && c.document == d
                                 then ChunkRow(if c in t.chunks then t.chunks[c].id else newId(c.index),
                                               rows[c.index].text, rows[c.index].embedding)
                                 else t.chunks[c])
  {
    assert c == ChunkKey(c.workspace, c.document, c.index);
  }

  lemma SaveWritesTheChunks(lower: Lower, t: Tables, v: Tables, w: Id, d: Id, rows: seq<ChunkInput>,
          batch: GraphWriteBatch)
    requires Saved(lower, t, v, w, d, rows, batch)
    ensures ChunksAfter(t, v, w, d, rows)
  {
    hide SavedBy, ClearedAndChunked;
    var run :| SavedBy(lower, t, v, w, d, rows, batch, run);
    OneTableEach(lower, t, v, w, d, rows, batch, run);
    ChunksOfRun(lower, t, v, w, d, rows, batch, run);
    forall c { ChunkAfter(t, w, d, rows, run.newId, c); }
  }

  lemma ChunksOfRun(lower: Lower, t: Tables, v: Tables, w: Id, d: Id, rows: seq<ChunkInput>, batch: GraphWriteBatch,
          run: SaveRun)
    requires SavedBy(lower, t, v, w, d, rows, batch, run)
    ensures run.cleared.chunks == ClearedAndChunked(t, w, d, rows, run.newId).chunks
  {
    hide ResolvedEdges;
  }

  // ----- Saving twice -----

  lemma MergingTwiceIsMergingOnce(w: Id, before: Option<NodeRow>, shared: bool, row: Option<NodeInput>)
    ensures var once := NodeAfter(w, before, shared, row);
            NodeAfter(w, once, shared, row) == once
  {
  }

  /** Saving the same output again changes nothing but the ids of rows that only this document
      mentions. */
  lemma SaveIsIdempotent(lower: Lower, t: Tables, u: Tables, v: Tables, w: Id, d: Id, rows: seq<ChunkInput>,
          batch: GraphWriteBatch)
    requires Provenance(lower, t) && Writable(lower, batch)
    requires Saved(lower, t, u, w, d, rows, batch) && Saved(lower, u, v, w, d, rows, batch)
    ensures v.chunks == u.chunks
    ensures forall k :: NodeData(lower, v, w, k) == NodeData(lower, u, w, k)
    ensures forall k, x :: NodeMention(lower, v, w, k, x) == NodeMention(lower, u, w, k, x)
    ensures forall k :: EdgeContent(lower, v, w, k) == EdgeContent(lower, u, w, k)
    ensures forall k, x :: EdgeMention(lower, v, w, k, x) == EdgeMention(lower, u, w, k, x)
    ensures forall w2 | w2 != w :: SameGraph(lower, u, v, w2)
  {
    hide Provenance, Writable, Saved, NodeData, EdgeContent, NodeMention, EdgeMention, SameGraph, NodeAt, EdgeAt;
    SaveKeepsProvenance(lower, t, u, w, d, rows, batch);
    SaveWritesTheBatch(lower, t, u, w, d, rows, batch);
    SaveWritesTheBatch(lower, u, v, w, d, rows, batch);
    forall w2 | w2 != w { SaveLeavesOtherWorkspaces(lower, u, v, w, d, rows, batch, w2); }
    assert v.chunks == u.chunks by {
      SaveWritesTheChunks(lower, t, u, w, d, rows, batch);
      SaveWritesTheChunks(lower, u, v, w, d, rows, batch);
    }
    forall k ensures NodeShared(lower, u, w, k, d) <==> NodeShared(lower, t, w, k, d) {}
    forall k ensures EdgeShared(lower, u, w, k, d) <==> EdgeShared(lower, t, w, k, d) {}
    hide NodeShared, EdgeShared;
    forall k ensures NodeData(lower, v, w, k) == NodeData(lower, u, w, k) {
      MergingTwiceIsMergingOnce(w, NodeData(lower, t, w, k), NodeShared(lower, t, w, k, d), Row(batch.nodes, Some(k)));
    }
  }
}
