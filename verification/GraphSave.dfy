/** The SAVING transaction as a whole (gmrag_api/src/ingestion/processor.rs:319-326). */
module GraphSave {
  import opened Wrappers
  import opened GraphBatch
  import opened GraphStore

  // ----- The transaction -----

  /** What one run leaves open: the ids that the database draws or returns, and the tables between
      the statements. */
  datatype SaveRun = SaveRun(newId: nat -> Id, nodeIds: map<string, Id>, edgeIds: map<EdgeKey, Id>,
                             cleared: Tables, upserted: Tables, mentioned: Tables, linked: Tables)

  function ClearedAndChunked(t: Tables, w: Id, d: Id, rows: seq<ChunkInput>, newId: nat -> Id): Tables {
    StaleChunksDeleted(ChunksUpserted(t, w, d, rows, newId), w, d, rows)
  }

  ghost predicate SavedBy(lower: Lower, t: Tables, v: Tables, w: Id, d: Id, rows: seq<ChunkInput>,
          batch: GraphWriteBatch, run: SaveRun) {
    && run.cleared == Collected(ClearedAndChunked(OutputCleared(t, w, d), w, d, rows, run.newId), w)
    && NodesUpserted(lower, run.cleared, run.upserted, w, batch.nodes, run.nodeIds)
    && NodeSourcesInserted(lower, run.upserted, run.mentioned, w, d, batch.nodes, run.nodeIds)
    && EdgesUpserted(lower, run.mentioned, run.linked, ResolvedEdges(lower, w, batch.edges, run.nodeIds), run.edgeIds)
    && EdgeSourcesInserted(lower, run.linked, v, w, d, ResolvedEdges(lower, w, batch.edges, run.nodeIds))
  }

  /** One run of the transaction takes `t` to `v`. */
  ghost predicate Saved(lower: Lower, t: Tables, v: Tables, w: Id, d: Id, rows: seq<ChunkInput>,
          batch: GraphWriteBatch) {
    exists run :: SavedBy(lower, t, v, w, d, rows, batch, run)
  }

  // ----- The invariant -----

  lemma ChunksDoNotMatter(lower: Lower, t: Tables, u: Tables)
    requires Provenance(lower, t) && u == t.(chunks := u.chunks)
    ensures Provenance(lower, u)
  {
    hide UniqueKeys, Referential, Sourced;
    SameRowsSameKeys(lower, t, u);
    ChunksAreNoReferences(t, u);
    ChunksAreNoSources(t, u);
  }

  lemma ChunksAreNoReferences(t: Tables, u: Tables)
    requires Referential(t) && u == t.(chunks := u.chunks)
    ensures Referential(u)
  {
    forall e | e in u.edges ensures EndsExist(u, u.edges[e]) { assert EndsExist(t, t.edges[e]); }
    forall s | s in u.nodeSources ensures NodeSourceRefers(u, s) { assert NodeSourceRefers(t, s); }
    forall s | s in u.edgeSources ensures EdgeSourceRefers(u, s) { assert EdgeSourceRefers(t, s); }
  }

  lemma ChunksAreNoSources(t: Tables, u: Tables)
    requires Sourced(t) && u == t.(chunks := u.chunks)
    ensures Sourced(u)
  {
    forall n | n in u.nodes ensures NodeSourced(u, n) { assert NodeSourced(t, n); }
    forall e | e in u.edges ensures EdgeSourced(u, e) { assert EdgeSourced(t, e); }
  }

  /** The collection that `bulk_upsert_graph` runs again finds nothing to do. */
  lemma SecondCollectionIsIdle(lower: Lower, t: Tables, w: Id, d: Id, rows: seq<ChunkInput>, newId: nat -> Id)
    requires Provenance(lower, t)
    ensures var c := ClearedAndChunked(OutputCleared(t, w, d), w, d, rows, newId);
            Collected(c, w) == c && Provenance(lower, c)
  {
    var o := OutputCleared(t, w, d);
    var c := ClearedAndChunked(o, w, d, rows, newId);
    assert c == o.(chunks := c.chunks);
    hide Provenance, OutputCleared, ClearedAndChunked, Collected;
    ClearingKeepsProvenance(lower, t, w, d);
    ChunksDoNotMatter(lower, o, c);
    CollectingProvenNothing(lower, c, w);
  }

  /** No edge of the batch is dropped when the ids of its ends are looked up. */
  lemma NoEdgeIsDropped(lower: Lower, t: Tables, w: Id, d: Id, batch: GraphWriteBatch, ids: map<string, Id>)
    requires Writable(lower, batch) && ids.Keys == batch.nodes.Keys
    requires forall k | k in batch.nodes :: NodeIs(lower, t, w, k, ids[k]) && Source(ids[k], d) in t.nodeSources
    ensures var rows := ResolvedEdges(lower, w, batch.edges, ids);
            && rows.Keys == batch.edges.Keys && Resolved(lower, t, w, d, rows)
            && forall k | k in rows ::
               rows[k].relationship == batch.edges[k].relationship && rows[k].description == batch.edges[k].description
  {
    var rows := ResolvedEdges(lower, w, batch.edges, ids);
    forall k | k in batch.edges ensures k in rows {
      assert LookedUp(lower, ids, batch.edges[k].source) == Some(ids[k.source]);
      assert LookedUp(lower, ids, batch.edges[k].target) == Some(ids[k.target]);
    }
  }

  /** The batch's nodes are in place, and `d` mentions them. */
  ghost predicate NodesWritten(lower: Lower, w: Id, d: Id, batch: GraphWriteBatch, run: SaveRun) {
    && run.nodeIds.Keys == batch.nodes.Keys
    && NodeSourcesAdded(run.upserted, run.mentioned, w, d, batch.nodes, run.nodeIds)
    && forall k | k in batch.nodes :: NodeIs(lower, run.mentioned, w, k, run.nodeIds[k])
  }

  /** So are its edges, none of which was dropped. */
  ghost predicate EdgesWritten(lower: Lower, v: Tables, w: Id, d: Id, batch: GraphWriteBatch, run: SaveRun) {
    var links := ResolvedEdges(lower, w, batch.edges, run.nodeIds);
    && links.Keys == batch.edges.Keys == run.edgeIds.Keys && Resolved(lower, run.mentioned, w, d, links)
    && EdgeSourcesAdded(run.linked, v, w, d, links, run.edgeIds)
    && (forall k | k in links ::
          links[k].relationship == batch.edges[k].relationship && links[k].description == batch.edges[k].description)
    && (forall k | k in links :: EdgeIs(lower, v, w, k, run.edgeIds[k]))
  }

  /** What holds between the statements of a run that starts in a proven state. */
  lemma AlongTheRun(lower: Lower, t: Tables, v: Tables, w: Id, d: Id, rows: seq<ChunkInput>, batch: GraphWriteBatch,
          run: SaveRun)
    requires Provenance(lower, t) && Writable(lower, batch) && SavedBy(lower, t, v, w, d, rows, batch, run)
    ensures run.cleared == ClearedAndChunked(OutputCleared(t, w, d), w, d, rows, run.newId)
    ensures Provenance(lower, run.cleared) && Provenance(lower, run.mentioned) && Provenance(lower, v)
    ensures NodesWritten(lower, w, d, batch, run) && EdgesWritten(lower, v, w, d, batch, run)
  {
    hide UniqueKeys, Referential, Sourced, NodesUpserted, NodeSourcesInserted, EdgesUpserted, EdgeSourcesInserted,
         NodeSourcesAdded, OutputCleared, ClearedAndChunked, Collected, NodeIs, EdgeIs, Resolved, ResolvedEdges,
         EdgeSourcesAdded;
    SecondCollectionIsIdle(lower, t, w, d, rows, run.newId);
    assert Named(lower, batch.nodes);
    NodePhaseKeepsReferences(lower, run.cleared, run.upserted, run.mentioned, w, d, batch.nodes, run.nodeIds);
    SourcedNodesAreSourced(lower, run.cleared, run.upserted, run.mentioned, w, d, batch.nodes, run.nodeIds);
    KeysOfIds(lower, run.cleared, run.upserted, w, batch.nodes, run.nodeIds);
    hide Writable;
    NoEdgeIsDropped(lower, run.mentioned, w, d, batch, run.nodeIds);
    var links := ResolvedEdges(lower, w, batch.edges, run.nodeIds);
    EdgePhaseKeepsReferences(lower, run.mentioned, run.linked, v, w, d, links, run.edgeIds);
    EdgeKeysOfIds(lower, run.mentioned, run.linked, links, run.edgeIds);
    SourcedEdgesAreSourced(lower, run.mentioned, run.linked, v, w, d, links, run.edgeIds);
  }

  /** Each statement writes one table. */
  lemma OneTableEach(lower: Lower, t: Tables, v: Tables, w: Id, d: Id, rows: seq<ChunkInput>, batch: GraphWriteBatch,
          run: SaveRun)
    requires SavedBy(lower, t, v, w, d, rows, batch, run)
    ensures run.upserted == run.cleared.(nodes := run.upserted.nodes)
    ensures run.mentioned == run.upserted.(nodeSources := run.mentioned.nodeSources)
    ensures run.linked == run.mentioned.(edges := run.linked.edges)
    ensures v == run.linked.(edgeSources := v.edgeSources)
  {
    hide Collected, ClearedAndChunked, OutputCleared, ResolvedEdges;
  }

  lemma KeysOfIds(lower: Lower, t: Tables, u: Tables, w: Id, rows: map<string, NodeInput>, ids: map<string, Id>)
    requires NodesUpserted(lower, t, u, w, rows, ids)
    ensures ids.Keys == rows.Keys
  {
  }

  lemma EdgeKeysOfIds(lower: Lower, t: Tables, u: Tables, rows: map<EdgeKey, EdgeRow>, ids: map<EdgeKey, Id>)
    requires EdgesUpserted(lower, t, u, rows, ids)
    ensures ids.Keys == rows.Keys
  {
  }

  lemma SaveKeepsProvenance(lower: Lower, t: Tables, v: Tables, w: Id, d: Id, rows: seq<ChunkInput>,
          batch: GraphWriteBatch)
    requires Provenance(lower, t) && Writable(lower, batch) && Saved(lower, t, v, w, d, rows, batch)
    ensures Provenance(lower, v)
  {
    hide Provenance, Writable, SavedBy;
    var run :| SavedBy(lower, t, v, w, d, rows, batch, run);
    AlongTheRun(lower, t, v, w, d, rows, batch, run);
  }
}
