/** Persisting one document's output (gmrag_api/src/ingestion/processor.rs, graph.rs).

    The statements of the SAVING transaction clear what the document wrote before, collect rows that
    no document sources any more, and write the new chunks and the new graph batch; module GraphSave
    puts them together. Tables are finite maps by primary key; conflict keys are those of the
    `ON CONFLICT` clauses. */
module GraphStore {
  import opened Wrappers
  import opened GraphBatch

  type Id = nat

  datatype NodeRow = NodeRow(workspace: Id, name: string, entityType: Option<string>,
                             description: Option<string>, embedding: Option<Vector>)

  datatype EdgeRow = EdgeRow(workspace: Id, source: Id, target: Id, relationship: string, description: Option<string>)

  datatype NodeSource = NodeSource(workspace: Id, entityType: Option<string>, description: Option<string>,
                                   embedding: Option<Vector>)

  datatype EdgeSource = EdgeSource(workspace: Id, relationship: string, description: Option<string>)

  /** Primary key of a source row: the graph item and the document that mentions it. */
  datatype Source = Source(item: Id, document: Id)

  datatype ChunkKey = ChunkKey(workspace: Id, document: Id, index: nat)

  datatype ChunkRow = ChunkRow(id: Id, text: string, embedding: Vector)

  datatype ChunkInput = ChunkInput(text: string, embedding: Vector)

  datatype Tables = Tables(nodes: map<Id, NodeRow>, edges: map<Id, EdgeRow>,
                           nodeSources: map<Source, NodeSource>, edgeSources: map<Source, EdgeSource>,
                           chunks: map<ChunkKey, ChunkRow>)

  // ----- The provenance invariant -----

  /** `n` is the node of workspace `w` under the conflict key `k`. */
  predicate NodeIs(lower: Lower, t: Tables, w: Id, k: string, n: Id) {
    n in t.nodes && t.nodes[n].workspace == w && lower(t.nodes[n].name) == k
  }

  predicate SameNodeKey(lower: Lower, m: NodeRow, n: NodeRow) {
    m.workspace == n.workspace && lower(m.name) == lower(n.name)
  }

  predicate SameEdgeKey(lower: Lower, e: EdgeRow, f: EdgeRow) {
    e.source == f.source && e.target == f.target && lower(e.relationship) == lower(f.relationship)
  }

  /** The unique indexes of `graph_nodes` and `graph_edges`. */
  ghost predicate UniqueKeys(lower: Lower, t: Tables) {
    && (forall m, n | m in t.nodes && n in t.nodes && SameNodeKey(lower, t.nodes[m], t.nodes[n]) :: m == n)
    && (forall e, f | e in t.edges && f in t.edges && SameEdgeKey(lower, t.edges[e], t.edges[f]) :: e == f)
  }

  predicate EndsExist(t: Tables, e: EdgeRow) {
    && e.source in t.nodes && t.nodes[e.source].workspace == e.workspace
    && e.target in t.nodes && t.nodes[e.target].workspace == e.workspace
  }

  predicate NodeSourceRefers(t: Tables, s: Source)
    requires s in t.nodeSources
  {
    s.item in t.nodes && t.nodes[s.item].workspace == t.nodeSources[s].workspace
  }

  predicate EdgeSourceRefers(t: Tables, s: Source)
    requires s in t.edgeSources
  {
    && s.item in t.edges && t.edges[s.item].workspace == t.edgeSources[s].workspace
    && Source(t.edges[s.item].source, s.document) in t.nodeSources
    && Source(t.edges[s.item].target, s.document) in t.nodeSources
  }

  /** Rows refer to rows of their own workspace, and a document that mentions an edge also mentions
      the nodes at both ends. */
  predicate Referential(t: Tables) {
    && (forall e | e in t.edges :: EndsExist(t, t.edges[e]))
    && (forall s | s in t.nodeSources :: NodeSourceRefers(t, s))
    && (forall s | s in t.edgeSources :: EdgeSourceRefers(t, s))
  }

  ghost predicate NodeSourced(t: Tables, n: Id) {
    exists d :: Source(n, d) in t.nodeSources
  }

  ghost predicate EdgeSourced(t: Tables, e: Id) {
    exists d :: Source(e, d) in t.edgeSources
  }

  /** Nothing outlives the documents that mention it. */
  ghost predicate Sourced(t: Tables) {
    (forall n | n in t.nodes :: NodeSourced(t, n)) && (forall e | e in t.edges :: EdgeSourced(t, e))
  }

  ghost predicate Provenance(lower: Lower, t: Tables) {
    UniqueKeys(lower, t) && Referential(t) && Sourced(t)
  }

  // ----- The statements -----

  /** The first two deletions of `clear_document_output`. */
  function SourcesCleared(t: Tables, w: Id, d: Id): Tables {
    t.(edgeSources := map s | s in t.edgeSources && !(t.edgeSources[s].workspace == w && s.document == d) ::
                        t.edgeSources[s],
       nodeSources := map s | s in t.nodeSources && !(t.nodeSources[s].workspace == w && s.document == d) ::
                        t.nodeSources[s])
  }

  ghost function EdgesCollected(t: Tables, w: Id): Tables {
    t.(edges := map e | e in t.edges && (t.edges[e].workspace != w || EdgeSourced(t, e)) :: t.edges[e])
  }

  ghost predicate IsEnd(t: Tables, n: Id) {
    exists e | e in t.edges :: t.edges[e].source == n || t.edges[e].target == n
  }

  ghost function NodesCollected(t: Tables, w: Id): Tables {
    t.(nodes := map n | n in t.nodes && (t.nodes[n].workspace != w || NodeSourced(t, n) || IsEnd(t, n)) :: t.nodes[n])
  }

  /** `delete_untracked_graph_items`, and the last two deletions of `clear_document_output`: edges
      without a source, then nodes without a source or an edge. No deletion cascades, because what
      is deleted has no referring row. */
  ghost function Collected(t: Tables, w: Id): Tables {
    NodesCollected(EdgesCollected(t, w), w)
  }

  ghost function OutputCleared(t: Tables, w: Id, d: Id): Tables {
    Collected(SourcesCleared(t, w, d), w)
  }

  function NewNode(w: Id, n: NodeInput): NodeRow {
    NodeRow(w, n.name, n.entityType, n.description, n.embedding)
  }

  /** `DO UPDATE` of a node: the name stays, attributes are overridden only by present ones, and an
      embedding only by one that comes with a description or fills a gap. */
  function MergedNode(row: NodeRow, n: NodeInput): NodeRow {
    NodeRow(row.workspace, row.name, Or(n.entityType, row.entityType), Or(n.description, row.description),
            if n.embedding.None? then row.embedding
            else if row.embedding.None? then n.embedding
            else if n.description.Some? then n.embedding
            else row.embedding)
  }

  /** `bulk_upsert_graph_nodes`: every row updates the node under its conflict key or becomes a new
      node; `ids` are the returned ids by key. */
  ghost predicate NodesUpserted(lower: Lower, t: Tables, u: Tables, w: Id, rows: map<string, NodeInput>,
          ids: map<string, Id>) {
    && u == t.(nodes := u.nodes) && ids.Keys == rows.Keys
    && (forall j, k | j in ids && k in ids && ids[j] == ids[k] :: j == k)
    && (forall n :: n in u.nodes <==> n in t.nodes || n in ids.Values)
    && (forall n | n in t.nodes && n !in ids.Values :: u.nodes[n] == t.nodes[n])
    && (forall k | k in rows :: NodeUpserted(lower, t, u, w, rows[k], ids[k]))
  }

  ghost predicate NodeUpserted(lower: Lower, t: Tables, u: Tables, w: Id, row: NodeInput, id: Id) {
    && id in u.nodes
    && if exists n :: NodeIs(lower, t, w, lower(row.name), n)
       then NodeIs(lower, t, w, lower(row.name), id) && u.nodes[id] == MergedNode(t.nodes[id], row)
       else id !in t.nodes && u.nodes[id] == NewNode(w, row)
  }

  function LookedUp(lower: Lower, ids: map<string, Id>, name: string): Option<Id> {
    if NormalizeKey(lower, name) in ids then Some(ids[NormalizeKey(lower, name)]) else None
  }

  /** `insert_graph_node_sources`: a row whose node id is not found is skipped. */
  ghost predicate NodeSourcesInserted(lower: Lower, t: Tables, u: Tables, w: Id, d: Id, rows: map<string, NodeInput>,
          ids: map<string, Id>) {
    && u == t.(nodeSources := u.nodeSources)
    && (forall s | s in u.nodeSources ::
          || (s in t.nodeSources && u.nodeSources[s] == t.nodeSources[s])
          || (s.document == d && exists k :: k in rows && LookedUp(lower, ids, rows[k].name) == Some(s.item)))
    && (forall s | s in t.nodeSources :: s in u.nodeSources)
    && (forall k | k in rows && LookedUp(lower, ids, rows[k].name).Some? ::
          var s := Source(LookedUp(lower, ids, rows[k].name).value, d);
          s in u.nodeSources
              && u.nodeSources[s] == NodeSource(w, rows[k].entityType, rows[k].description, rows[k].embedding))
  }

  /** The edges whose ends are found, with the ids of their ends. */
  function ResolvedEdges(lower: Lower, w: Id, rows: map<EdgeKey, EdgeInput>,
          ids: map<string, Id>): map<EdgeKey, EdgeRow> {
    map k | k in rows && LookedUp(lower, ids, rows[k].source).Some? && LookedUp(lower, ids, rows[k].target).Some? ::
      EdgeRow(w, LookedUp(lower, ids, rows[k].source).value, LookedUp(lower, ids, rows[k].target).value,
              rows[k].relationship, rows[k].description)
  }

  /** `e` is the edge under the conflict key of `row`. */
  predicate EdgeMatches(lower: Lower, t: Tables, row: EdgeRow, e: Id) {
    && e in t.edges && t.edges[e].workspace == row.workspace && t.edges[e].source == row.source
    && t.edges[e].target == row.target && lower(t.edges[e].relationship) == lower(row.relationship)
  }

  function MergedEdge(kept: EdgeRow, row: EdgeRow): EdgeRow {
    kept.(description := Or(row.description, kept.description))
  }

  /** `bulk_upsert_graph_edges`. */
  ghost predicate EdgesUpserted(lower: Lower, t: Tables, u: Tables, rows: map<EdgeKey, EdgeRow>,
          ids: map<EdgeKey, Id>) {
    && u == t.(edges := u.edges) && ids.Keys == rows.Keys
    && (forall j, k | j in ids && k in ids && ids[j] == ids[k] :: j == k)
    && (forall e :: e in u.edges <==> e in t.edges || e in ids.Values)
    && (forall e | e in t.edges && e !in ids.Values :: u.edges[e] == t.edges[e])
    && (forall k | k in rows :: EdgeUpserted(lower, t, u, rows[k], ids[k]))
  }

  ghost predicate EdgeUpserted(lower: Lower, t: Tables, u: Tables, row: EdgeRow, id: Id) {
    && id in u.edges
    && if exists e :: EdgeMatches(lower, t, row, e)
       then EdgeMatches(lower, t, row, id) && u.edges[id] == MergedEdge(t.edges[id], row)
       else id !in t.edges && u.edges[id] == row
  }

  /** `insert_graph_edge_sources`: the edge ids come from a join on the conflict key. */
  ghost predicate EdgeSourcesInserted(lower: Lower, t: Tables, u: Tables, w: Id, d: Id, rows: map<EdgeKey, EdgeRow>) {
    && u == t.(edgeSources := u.edgeSources)
    && (forall s | s in u.edgeSources ::
          || (s in t.edgeSources && u.edgeSources[s] == t.edgeSources[s])
          || (s.document == d && exists k :: k in rows && EdgeMatches(lower, t, rows[k], s.item)))
    && (forall s | s in t.edgeSources :: s in u.edgeSources)
    && (forall k, e | k in rows && EdgeMatches(lower, t, rows[k], e) ::
          Source(e, d) in u.edgeSources
              && u.edgeSources[Source(e, d)] == EdgeSource(w, rows[k].relationship, rows[k].description))
  }

  /** `bulk_upsert_document_chunks`: row `i` carries chunk index `i`; a kept row keeps its id. */
  function ChunksUpserted(t: Tables, w: Id, d: Id, rows: seq<ChunkInput>, newId: nat -> Id): Tables {
    t.(chunks := t.chunks + map i: nat | i < |rows| ::
                   ChunkKey(w, d, i) :=
                     ChunkRow(if ChunkKey(w, d, i) in t.chunks then t.chunks[ChunkKey(w, d, i)].id else newId(i),
                              rows[i].text, rows[i].embedding))
  }

  /** `delete_stale_document_chunks`. */
  function StaleChunksDeleted(t: Tables, w: Id, d: Id, rows: seq<ChunkInput>): Tables {
    t.(chunks := map c | c in t.chunks && !(c.workspace == w && c.document == d && c.index >= |rows|) :: t.chunks[c])
  }

  // ----- Each statement and the invariant -----

  lemma ClearingKeepsReferences(lower: Lower, t: Tables, w: Id, d: Id)
    requires UniqueKeys(lower, t) && Referential(t)
    ensures UniqueKeys(lower, SourcesCleared(t, w, d)) && Referential(SourcesCleared(t, w, d))
  {
    hide UniqueKeys, EdgeSourceRefers, NodeSourceRefers, EndsExist;
    var u := SourcesCleared(t, w, d);
    SameRowsSameKeys(lower, t, u);
    forall s | s in u.edgeSources ensures EdgeSourceRefers(u, s) { KeptSourceRefers(t, w, d, s); }
    forall s | s in u.nodeSources ensures NodeSourceRefers(u, s) { KeptNodeSourceRefers(t, w, d, s); }
    forall e | e in u.edges ensures EndsExist(u, u.edges[e]) { EndsDependOnNodes(t, u, t.edges[e]); }
  }

  /** An edge source that is kept keeps the node sources at its ends, which are of the same document
      and workspace. */
  lemma KeptSourceRefers(t: Tables, w: Id, d: Id, s: Source)
    requires Referential(t) && s in SourcesCleared(t, w, d).edgeSources
    ensures EdgeSourceRefers(SourcesCleared(t, w, d), s)
  {
    assert EdgeSourceRefers(t, s) && EndsExist(t, t.edges[s.item]);
    assert NodeSourceRefers(t, Source(t.edges[s.item].source, s.document));
    assert NodeSourceRefers(t, Source(t.edges[s.item].target, s.document));
  }

  lemma KeptNodeSourceRefers(t: Tables, w: Id, d: Id, s: Source)
    requires s in SourcesCleared(t, w, d).nodeSources && NodeSourceRefers(t, s)
    ensures NodeSourceRefers(SourcesCleared(t, w, d), s)
  {
  }

  lemma CollectingEdgesKeepsReferences(lower: Lower, t: Tables, w: Id)
    requires UniqueKeys(lower, t) && Referential(t)
    ensures UniqueKeys(lower, EdgesCollected(t, w)) && Referential(EdgesCollected(t, w))
  {
    hide UniqueKeys, EdgeSourceRefers, NodeSourceRefers, EndsExist, EdgeSourced;
    var u := EdgesCollected(t, w);
    FewerRowsSameKeys(lower, t, u);
    forall s | s in u.edgeSources ensures EdgeSourceRefers(u, s) { MentionedEdgeIsKept(t, w, s); }
    forall s | s in u.nodeSources ensures NodeSourceRefers(u, s) { NodeSourceStillRefers(t, u, s); }
    forall e | e in u.edges ensures EndsExist(u, u.edges[e]) { EndsDependOnNodes(t, u, t.edges[e]); }
  }

  lemma MentionedEdgeIsKept(t: Tables, w: Id, s: Source)
    requires s in t.edgeSources && EdgeSourceRefers(t, s)
    ensures EdgeSourceRefers(EdgesCollected(t, w), s)
  {
    assert Source(s.item, s.document) == s;
    assert EdgeSourced(t, s.item);
  }

  lemma EndsDependOnNodes(t: Tables, u: Tables, e: EdgeRow)
    requires EndsExist(t, e) && u.nodes == t.nodes
    ensures EndsExist(u, e)
  {
  }

  lemma MentionedNodeIsKept(t: Tables, w: Id, s: Source)
    requires s in t.nodeSources && NodeSourceRefers(t, s)
    ensures NodeSourceRefers(NodesCollected(t, w), s)
  {
    assert Source(s.item, s.document) == s;
    assert NodeSourced(t, s.item);
  }

  lemma EndsAreKept(t: Tables, w: Id, e: Id)
    requires e in t.edges && EndsExist(t, t.edges[e])
    ensures EndsExist(NodesCollected(t, w), t.edges[e])
  {
    assert IsEnd(t, t.edges[e].source) && IsEnd(t, t.edges[e].target);
  }

  lemma CollectingNodesKeepsReferences(lower: Lower, t: Tables, w: Id)
    requires UniqueKeys(lower, t) && Referential(t)
    ensures UniqueKeys(lower, NodesCollected(t, w)) && Referential(NodesCollected(t, w))
  {
    hide UniqueKeys, NodeSourceRefers, EndsExist, NodeSourced, IsEnd;
    var u := NodesCollected(t, w);
    FewerRowsSameKeys(lower, t, u);
    forall s | s in t.nodeSources ensures NodeSourceRefers(u, s) { MentionedNodeIsKept(t, w, s); }
    forall e | e in t.edges ensures EndsExist(u, t.edges[e]) { EndsAreKept(t, w, e); }
  }

  lemma FewerRowsSameKeys(lower: Lower, t: Tables, u: Tables)
    requires UniqueKeys(lower, t)
    requires forall n | n in u.nodes :: n in t.nodes && u.nodes[n] == t.nodes[n]
    requires forall e | e in u.edges :: e in t.edges && u.edges[e] == t.edges[e]
    ensures UniqueKeys(lower, u)
  {
  }

  /** A node kept for its edge shares the edge's sources. */
  lemma EndIsSourced(t: Tables, w: Id, n: Id)
    requires Referential(t) && IsEnd(EdgesCollected(t, w), n)
    requires forall e | e in t.edges && t.edges[e].workspace != w :: EdgeSourced(t, e)
    ensures NodeSourced(t, n)
  {
    var e :| e in EdgesCollected(t, w).edges && (t.edges[e].source == n || t.edges[e].target == n);
    var d :| Source(e, d) in t.edgeSources;
    assert EdgeSourceRefers(t, Source(e, d));
    assert Source(n, d) in t.nodeSources;
  }

  lemma CollectedNodeIsSourced(t: Tables, w: Id, n: Id)
    requires Referential(t) && n in Collected(t, w).nodes
    requires t.nodes[n].workspace != w ==> NodeSourced(t, n)
    requires forall e | e in t.edges && t.edges[e].workspace != w :: EdgeSourced(t, e)
    ensures NodeSourced(Collected(t, w), n)
  {
    if IsEnd(EdgesCollected(t, w), n) { EndIsSourced(t, w, n); }
    hide Referential, IsEnd, EdgeSourced;
    assert NodeSourced(t, n);
    var d :| Source(n, d) in t.nodeSources;
    assert Source(n, d) in Collected(t, w).nodeSources;
  }

  lemma CollectingRestoresProvenance(lower: Lower, t: Tables, w: Id)
    requires UniqueKeys(lower, t) && Referential(t)
    requires forall n | n in t.nodes && t.nodes[n].workspace != w :: NodeSourced(t, n)
    requires forall e | e in t.edges && t.edges[e].workspace != w :: EdgeSourced(t, e)
    ensures Provenance(lower, Collected(t, w))
  {
    CollectingEdgesKeepsReferences(lower, t, w);
    CollectingNodesKeepsReferences(lower, EdgesCollected(t, w), w);
    hide UniqueKeys, Referential;
    var v := Collected(t, w);
    forall e | e in v.edges ensures EdgeSourced(v, e) {
      assert EdgeSourced(t, e);
      var d :| Source(e, d) in t.edgeSources;
      assert Source(e, d) in v.edgeSources;
    }
    forall n | n in v.nodes ensures NodeSourced(v, n) {
      CollectedNodeIsSourced(t, w, n);
    }
  }

  /** `OutputCleared` keeps the invariant, and so the collection that `bulk_upsert_graph` runs again
      finds nothing to do. */
  lemma ClearingKeepsProvenance(lower: Lower, t: Tables, w: Id, d: Id)
    requires Provenance(lower, t)
    ensures Provenance(lower, OutputCleared(t, w, d))
  {
    var u := SourcesCleared(t, w, d);
    ClearingKeepsReferences(lower, t, w, d);
    forall n | n in u.nodes && u.nodes[n].workspace != w ensures NodeSourced(u, n) {
      var x :| Source(n, x) in t.nodeSources;
      assert Source(n, x) in u.nodeSources;
    }
    forall e | e in u.edges && u.edges[e].workspace != w ensures EdgeSourced(u, e) {
      var x :| Source(e, x) in t.edgeSources;
      assert Source(e, x) in u.edgeSources;
    }
    CollectingRestoresProvenance(lower, u, w);
  }

  lemma CollectingProvenNothing(lower: Lower, t: Tables, w: Id)
    requires Provenance(lower, t)
    ensures Collected(t, w) == t
  {
    hide UniqueKeys, Referential, EdgeSourced, NodeSourced;
    assert EdgesCollected(t, w).edges == t.edges;
    assert NodesCollected(t, w).nodes == t.nodes;
  }

  lemma UpsertedNodesStay(lower: Lower, t: Tables, u: Tables, w: Id, rows: map<string, NodeInput>,
          ids: map<string, Id>, n: Id)
    requires NodesUpserted(lower, t, u, w, rows, ids) && n in t.nodes
    ensures n in u.nodes && u.nodes[n].workspace == t.nodes[n].workspace && u.nodes[n].name == t.nodes[n].name
  {
    if n in ids.Values {
      var k :| k in ids && ids[k] == n;
      assert NodeUpserted(lower, t, u, w, rows[k], n);
    }
  }

  lemma UpsertedNodeHasKey(lower: Lower, t: Tables, u: Tables, w: Id, rows: map<string, NodeInput>,
          ids: map<string, Id>, k: string)
    requires NodesUpserted(lower, t, u, w, rows, ids) && k in rows && lower(rows[k].name) == k
    ensures NodeIs(lower, u, w, k, ids[k])
  {
    assert NodeUpserted(lower, t, u, w, rows[k], ids[k]);
  }

  /** A node that the statement added carries the key of its row, which no node had before. */
  lemma AddedNode(lower: Lower, t: Tables, u: Tables, w: Id, rows: map<string, NodeInput>, ids: map<string, Id>, n: Id)
    returns (k: string)
    requires NodesUpserted(lower, t, u, w, rows, ids) && n in u.nodes && n !in t.nodes
    requires forall k | k in rows :: lower(rows[k].name) == k
    ensures k in rows && ids[k] == n && NodeIs(lower, u, w, k, n) && u.nodes[n] == NewNode(w, rows[k])
    ensures forall m :: !NodeIs(lower, t, w, k, m)
  {
    k :| k in ids && ids[k] == n;
    assert NodeUpserted(lower, t, u, w, rows[k], n);
  }

  lemma UpsertedNodesAreUnique(lower: Lower, t: Tables, u: Tables, w: Id, rows: map<string, NodeInput>,
          ids: map<string, Id>, m: Id, n: Id)
    requires UniqueKeys(lower, t) && NodesUpserted(lower, t, u, w, rows, ids)
    requires forall k | k in rows :: lower(rows[k].name) == k
    requires m in u.nodes && n in u.nodes && SameNodeKey(lower, u.nodes[m], u.nodes[n])
    ensures m == n
  {
    if m in t.nodes { UpsertedNodesStay(lower, t, u, w, rows, ids, m); }
    if n in t.nodes { UpsertedNodesStay(lower, t, u, w, rows, ids, n); }
    hide NodesUpserted;
    if m !in t.nodes {
      var k := AddedNode(lower, t, u, w, rows, ids, m);
      var taken := NodeIs(lower, t, w, k, n);
      if n !in t.nodes { var j := AddedNode(lower, t, u, w, rows, ids, n); }
    } else if n !in t.nodes {
      var k := AddedNode(lower, t, u, w, rows, ids, n);
      var taken := NodeIs(lower, t, w, k, m);
    }
  }

  lemma UpsertedNodesKeepKeys(lower: Lower, t: Tables, u: Tables, w: Id, rows: map<string, NodeInput>,
          ids: map<string, Id>)
    requires UniqueKeys(lower, t) && NodesUpserted(lower, t, u, w, rows, ids)
    requires forall k | k in rows :: lower(rows[k].name) == k
    ensures UniqueKeys(lower, u)
  {
    assert u == t.(nodes := u.nodes);
    forall m, n | m in u.nodes && n in u.nodes && SameNodeKey(lower, u.nodes[m], u.nodes[n]) ensures m == n {
      UpsertedNodesAreUnique(lower, t, u, w, rows, ids, m, n);
    }
    hide NodesUpserted, SameNodeKey, SameEdgeKey;
  }

  lemma UpsertedNodesKeepReferences(lower: Lower, t: Tables, u: Tables, w: Id, rows: map<string, NodeInput>,
          ids: map<string, Id>)
    requires Referential(t) && NodesUpserted(lower, t, u, w, rows, ids)
    ensures Referential(u)
  {
    assert u == t.(nodes := u.nodes);
    forall n | n in t.nodes ensures n in u.nodes && u.nodes[n].workspace == t.nodes[n].workspace {
      UpsertedNodesStay(lower, t, u, w, rows, ids, n);
    }
    hide NodesUpserted;
    forall s | s in u.edgeSources ensures EdgeSourceRefers(u, s) { assert EdgeSourceRefers(t, s); }
    forall s | s in u.nodeSources ensures NodeSourceRefers(u, s) { assert NodeSourceRefers(t, s); }
    forall e | e in u.edges ensures EndsExist(u, u.edges[e]) { assert EndsExist(t, t.edges[e]); }
    hide EdgeSourceRefers, NodeSourceRefers, EndsExist;
  }

  /** The keys of a batch's nodes are found again from the stored names. */
  predicate Named(lower: Lower, rows: map<string, NodeInput>) {
    forall k | k in rows :: lower(rows[k].name) == k && NormalizeKey(lower, rows[k].name) == k
  }

  lemma SameRowsSameKeys(lower: Lower, t: Tables, u: Tables)
    requires UniqueKeys(lower, t) && u.nodes == t.nodes && u.edges == t.edges
    ensures UniqueKeys(lower, u)
  {
  }

  /** The new node sources, by the ids of the upserted nodes. */
  ghost predicate NodeSourcesAdded(u: Tables, v: Tables, w: Id, d: Id, rows: map<string, NodeInput>,
          ids: map<string, Id>)
    requires ids.Keys == rows.Keys
  {
    && v == u.(nodeSources := v.nodeSources)
    && (forall s | s in u.nodeSources :: s in v.nodeSources)
    && (forall k | k in rows ::
          && Source(ids[k], d) in v.nodeSources
          && v.nodeSources[Source(ids[k], d)]
             == NodeSource(w, rows[k].entityType, rows[k].description, rows[k].embedding))
    && (forall s | s in v.nodeSources ::
          || (s in u.nodeSources && v.nodeSources[s] == u.nodeSources[s])
          || (exists k :: k in rows && s == Source(ids[k], d)))
  }

  lemma InsertedNodeSources(lower: Lower, u: Tables, v: Tables, w: Id, d: Id, rows: map<string, NodeInput>,
          ids: map<string, Id>)
    requires NodeSourcesInserted(lower, u, v, w, d, rows, ids) && Named(lower, rows) && ids.Keys == rows.Keys
    ensures NodeSourcesAdded(u, v, w, d, rows, ids)
  {
    assert forall k | k in rows :: LookedUp(lower, ids, rows[k].name) == Some(ids[k]);
    forall s | s in v.nodeSources && !(s in u.nodeSources && v.nodeSources[s] == u.nodeSources[s])
      ensures exists k :: k in rows && s == Source(ids[k], d)
    {
      var k :| k in rows && LookedUp(lower, ids, rows[k].name) == Some(s.item);
      assert s == Source(ids[k], d);
    }
  }

  lemma SourcedNodesKeepReferences(lower: Lower, u: Tables, v: Tables, w: Id, d: Id, rows: map<string, NodeInput>,
          ids: map<string, Id>)
    requires Referential(u) && NodeSourcesInserted(lower, u, v, w, d, rows, ids) && Named(lower, rows)
        && ids.Keys == rows.Keys
    requires forall k | k in rows :: NodeIs(lower, u, w, k, ids[k])
    ensures Referential(v)
  {
    InsertedNodeSources(lower, u, v, w, d, rows, ids);
    hide NodeSourcesInserted;
  }

  /** Once the node sources are in, every node is sourced again. */
  lemma SourcedNodesAreSourced(lower: Lower, t: Tables, u: Tables, v: Tables, w: Id, d: Id,
                               rows: map<string, NodeInput>, ids: map<string, Id>)
    requires Sourced(t) && NodesUpserted(lower, t, u, w, rows, ids)
    requires NodeSourcesInserted(lower, u, v, w, d, rows, ids) && Named(lower, rows)
    ensures Sourced(v)
  {
    InsertedNodeSources(lower, u, v, w, d, rows, ids);
    assert v == u.(nodeSources := v.nodeSources) && u == t.(nodes := u.nodes);
    assert forall s | s in t.nodeSources :: s in v.nodeSources;
    hide NodesUpserted, NodeSourcesInserted, NodeIs;
    forall n | n in v.nodes ensures NodeSourced(v, n) {
      if n in t.nodes {
        var x :| Source(n, x) in t.nodeSources;
        assert Source(n, x) in v.nodeSources;
      } else {
        var k := AddedNode(lower, t, u, w, rows, ids, n);
        assert Source(n, d) in v.nodeSources;
      }
    }
    forall e | e in v.edges ensures EdgeSourced(v, e) {
      var x :| Source(e, x) in t.edgeSources;
      assert Source(e, x) in v.edgeSources;
    }
  }

  lemma NodePhaseKeepsReferences(lower: Lower, t: Tables, u: Tables, v: Tables, w: Id, d: Id,
                                 rows: map<string, NodeInput>, ids: map<string, Id>)
    requires UniqueKeys(lower, t) && Referential(t) && NodesUpserted(lower, t, u, w, rows, ids)
    requires NodeSourcesInserted(lower, u, v, w, d, rows, ids) && Named(lower, rows)
    ensures UniqueKeys(lower, v) && Referential(v)
    ensures ids.Keys == rows.Keys && NodeSourcesAdded(u, v, w, d, rows, ids)
    ensures forall k | k in rows :: NodeIs(lower, v, w, k, ids[k]) && Source(ids[k], d) in v.nodeSources
  {
    UpsertedNodesKeepKeys(lower, t, u, w, rows, ids);
    UpsertedNodesKeepReferences(lower, t, u, w, rows, ids);
    assert v == u.(nodeSources := v.nodeSources);
    SameRowsSameKeys(lower, u, v);
    InsertedNodeSources(lower, u, v, w, d, rows, ids);
    forall k | k in rows ensures NodeIs(lower, u, w, k, ids[k]) {
      UpsertedNodeHasKey(lower, t, u, w, rows, ids, k);
    }
    hide NodesUpserted, UniqueKeys, Referential;
    SourcedNodesKeepReferences(lower, u, v, w, d, rows, ids);
    hide NodeSourcesInserted;
  }

  // ----- The edge statements -----

  /** `e` is the edge of workspace `w` under the key `k`, named by the keys of its ends. */
  predicate EdgeIs(lower: Lower, t: Tables, w: Id, k: EdgeKey, e: Id) {
    && e in t.edges && t.edges[e].workspace == w && lower(t.edges[e].relationship) == k.relationship
    && NodeIs(lower, t, w, k.source, t.edges[e].source) && NodeIs(lower, t, w, k.target, t.edges[e].target)
  }

  /** The rows of the edge statements: their ends are the nodes of their keys, which `d` mentions. */
  ghost predicate Resolved(lower: Lower, t: Tables, w: Id, d: Id, rows: map<EdgeKey, EdgeRow>) {
    forall k | k in rows ::
      && rows[k].workspace == w && lower(rows[k].relationship) == k.relationship
      && NodeIs(lower, t, w, k.source, rows[k].source) && Source(rows[k].source, d) in t.nodeSources
      && NodeIs(lower, t, w, k.target, rows[k].target) && Source(rows[k].target, d) in t.nodeSources
  }

  lemma ResolvedRowMatchesByKey(lower: Lower, t: Tables, w: Id, d: Id, rows: map<EdgeKey, EdgeRow>, k: EdgeKey, e: Id)
    requires UniqueKeys(lower, t) && Resolved(lower, t, w, d, rows) && k in rows
    ensures EdgeMatches(lower, t, rows[k], e) <==> EdgeIs(lower, t, w, k, e)
  {
  }

  lemma KeyNamesOneEdge(lower: Lower, t: Tables, w: Id, k: EdgeKey, e: Id, f: Id)
    requires UniqueKeys(lower, t) && EdgeIs(lower, t, w, k, e) && EdgeIs(lower, t, w, k, f)
    ensures e == f
  {
    assert t.edges[e].source == t.edges[f].source && t.edges[e].target == t.edges[f].target;
  }

  lemma UpsertedEdgesStay(lower: Lower, t: Tables, u: Tables, rows: map<EdgeKey, EdgeRow>, ids: map<EdgeKey, Id>, e: Id)
    requires EdgesUpserted(lower, t, u, rows, ids) && e in t.edges
    ensures e in u.edges && u.edges[e] == t.edges[e].(description := u.edges[e].description)
  {
    if e in ids.Values {
      var k :| k in ids && ids[k] == e;
      assert EdgeUpserted(lower, t, u, rows[k], e);
    }
  }

  lemma AddedEdge(lower: Lower, t: Tables, u: Tables, rows: map<EdgeKey, EdgeRow>, ids: map<EdgeKey, Id>, e: Id)
    returns (k: EdgeKey)
    requires EdgesUpserted(lower, t, u, rows, ids) && e in u.edges && e !in t.edges
    ensures k in rows && ids[k] == e && u.edges[e] == rows[k]
    ensures forall f :: !EdgeMatches(lower, t, rows[k], f)
  {
    k :| k in ids && ids[k] == e;
    assert EdgeUpserted(lower, t, u, rows[k], e);
  }

  lemma UpsertedEdgeHasKey(lower: Lower, t: Tables, u: Tables, w: Id, d: Id, rows: map<EdgeKey, EdgeRow>,
          ids: map<EdgeKey, Id>, k: EdgeKey)
    requires EdgesUpserted(lower, t, u, rows, ids) && Resolved(lower, t, w, d, rows) && k in rows
    ensures EdgeIs(lower, u, w, k, ids[k])
  {
    assert EdgeUpserted(lower, t, u, rows[k], ids[k]);
  }

  lemma UpsertedEdgesAreUnique(lower: Lower, t: Tables, u: Tables, w: Id, d: Id, rows: map<EdgeKey, EdgeRow>,
          ids: map<EdgeKey, Id>, e: Id, f: Id)
    requires UniqueKeys(lower, t) && Referential(t) && EdgesUpserted(lower, t, u, rows, ids)
        && Resolved(lower, t, w, d, rows)
    requires e in u.edges && f in u.edges && SameEdgeKey(lower, u.edges[e], u.edges[f])
    ensures e == f
  {
    if e in t.edges { UpsertedEdgesStay(lower, t, u, rows, ids, e); }
    if f in t.edges { UpsertedEdgesStay(lower, t, u, rows, ids, f); }
    hide EdgesUpserted;
    if e !in t.edges {
      var k := AddedEdge(lower, t, u, rows, ids, e);
      var taken := EdgeMatches(lower, t, rows[k], f);
      if f !in t.edges { var j := AddedEdge(lower, t, u, rows, ids, f); }
    } else if f !in t.edges {
      var k := AddedEdge(lower, t, u, rows, ids, f);
      var taken := EdgeMatches(lower, t, rows[k], e);
    }
  }

  lemma UpsertedEdgesKeepKeys(lower: Lower, t: Tables, u: Tables, w: Id, d: Id, rows: map<EdgeKey, EdgeRow>,
          ids: map<EdgeKey, Id>)
    requires UniqueKeys(lower, t) && Referential(t) && EdgesUpserted(lower, t, u, rows, ids)
        && Resolved(lower, t, w, d, rows)
    ensures UniqueKeys(lower, u)
  {
    assert u == t.(edges := u.edges);
    forall e, f | e in u.edges && f in u.edges && SameEdgeKey(lower, u.edges[e], u.edges[f]) ensures e == f {
      UpsertedEdgesAreUnique(lower, t, u, w, d, rows, ids, e, f);
    }
    hide EdgesUpserted, Referential, Resolved, SameNodeKey, SameEdgeKey;
  }

  lemma UpsertedEdgesKeepReferences(lower: Lower, t: Tables, u: Tables, w: Id, d: Id, rows: map<EdgeKey, EdgeRow>,
          ids: map<EdgeKey, Id>)
    requires Referential(t) && EdgesUpserted(lower, t, u, rows, ids) && Resolved(lower, t, w, d, rows)
    ensures Referential(u)
  {
    assert u == t.(edges := u.edges);
    forall e | e in u.edges ensures EndsExist(u, u.edges[e]) {
      if e in t.edges {
        UpsertedEdgesStay(lower, t, u, rows, ids, e);
        assert EndsExist(t, t.edges[e]);
      } else {
        var k := AddedEdge(lower, t, u, rows, ids, e);
      }
    }
    forall s | s in u.edgeSources ensures EdgeSourceRefers(u, s) {
      assert EdgeSourceRefers(t, s);
      UpsertedEdgesStay(lower, t, u, rows, ids, s.item);
    }
    hide EdgesUpserted, Resolved;
    forall s | s in u.nodeSources ensures NodeSourceRefers(u, s) { assert NodeSourceRefers(t, s); }
    hide EdgeSourceRefers, NodeSourceRefers, EndsExist;
  }

  /** The new edge sources, by the ids of the upserted edges. */
  ghost predicate EdgeSourcesAdded(u: Tables, v: Tables, w: Id, d: Id, rows: map<EdgeKey, EdgeRow>,
          ids: map<EdgeKey, Id>)
    requires ids.Keys == rows.Keys
  {
    && v == u.(edgeSources := v.edgeSources)
    && (forall s | s in u.edgeSources :: s in v.edgeSources)
    && (forall k | k in rows ::
          && Source(ids[k], d) in v.edgeSources
          && v.edgeSources[Source(ids[k], d)] == EdgeSource(w, rows[k].relationship, rows[k].description))
    && (forall s | s in v.edgeSources ::
          || (s in u.edgeSources && v.edgeSources[s] == u.edgeSources[s])
          || (exists k :: k in rows && s == Source(ids[k], d)))
  }

  lemma InsertedEdgeSources(lower: Lower, u: Tables, v: Tables, w: Id, d: Id, rows: map<EdgeKey, EdgeRow>,
          ids: map<EdgeKey, Id>)
    requires EdgeSourcesInserted(lower, u, v, w, d, rows) && UniqueKeys(lower, u) && Resolved(lower, u, w, d, rows)
    requires ids.Keys == rows.Keys && forall k | k in rows :: EdgeIs(lower, u, w, k, ids[k])
    ensures EdgeSourcesAdded(u, v, w, d, rows, ids)
  {
    hide UniqueKeys, Resolved, EdgeMatches, EdgeIs;
    MatchesAreIds(lower, u, w, d, rows, ids);
    forall s | s in v.edgeSources && !(s in u.edgeSources && v.edgeSources[s] == u.edgeSources[s])
      ensures exists k :: k in rows && s == Source(ids[k], d)
    {
      var k :| k in rows && EdgeMatches(lower, u, rows[k], s.item);
      assert s == Source(ids[k], d);
    }
  }

  lemma MatchesAreIds(lower: Lower, u: Tables, w: Id, d: Id, rows: map<EdgeKey, EdgeRow>, ids: map<EdgeKey, Id>)
    requires UniqueKeys(lower, u) && Resolved(lower, u, w, d, rows)
    requires ids.Keys == rows.Keys && forall k | k in rows :: EdgeIs(lower, u, w, k, ids[k])
    ensures forall k, e | k in rows :: EdgeMatches(lower, u, rows[k], e) <==> e == ids[k]
  {
    hide UniqueKeys, Resolved, EdgeMatches, EdgeIs;
    forall k, e | k in rows ensures EdgeMatches(lower, u, rows[k], e) <==> e == ids[k] {
      ResolvedRowMatchesByKey(lower, u, w, d, rows, k, e);
      if EdgeIs(lower, u, w, k, e) { KeyNamesOneEdge(lower, u, w, k, e, ids[k]); }
    }
  }

  /** Document `d` mentions both ends of the edge `e`. */
  predicate EndsMentioned(t: Tables, w: Id, d: Id, e: Id) {
    && e in t.edges && t.edges[e].workspace == w
    && Source(t.edges[e].source, d) in t.nodeSources && Source(t.edges[e].target, d) in t.nodeSources
  }

  lemma SourcedEdgesKeepReferences(lower: Lower, u: Tables, v: Tables, w: Id, d: Id, rows: map<EdgeKey, EdgeRow>,
          ids: map<EdgeKey, Id>)
    requires UniqueKeys(lower, u) && Referential(u) && ids.Keys == rows.Keys && EdgeSourcesAdded(u, v, w, d, rows, ids)
    requires forall k | k in rows :: EndsMentioned(u, w, d, ids[k])
    ensures UniqueKeys(lower, v) && Referential(v)
  {
    hide UniqueKeys, EdgeSourcesAdded, EdgeSourceRefers, NodeSourceRefers, EndsExist, EndsMentioned;
    OnlyEdgeSourcesChange(u, v, w, d, rows, ids);
    SameRowsSameKeys(lower, u, v);
    forall s | s in v.edgeSources ensures EdgeSourceRefers(v, s) { AddedSourceRefers(u, v, w, d, rows, ids, s); }
    forall s | s in v.nodeSources ensures NodeSourceRefers(v, s) { NodeSourceStillRefers(u, v, s); }
    forall e | e in v.edges ensures EndsExist(v, v.edges[e]) { EndsStillExist(u, v, e); }
  }

  lemma OnlyEdgeSourcesChange(u: Tables, v: Tables, w: Id, d: Id, rows: map<EdgeKey, EdgeRow>, ids: map<EdgeKey, Id>)
    requires ids.Keys == rows.Keys && EdgeSourcesAdded(u, v, w, d, rows, ids)
    ensures v == u.(edgeSources := v.edgeSources)
  {
  }

  lemma AddedSourceRefers(u: Tables, v: Tables, w: Id, d: Id, rows: map<EdgeKey, EdgeRow>, ids: map<EdgeKey, Id>,
          s: Source)
    requires ids.Keys == rows.Keys && EdgeSourcesAdded(u, v, w, d, rows, ids) && s in v.edgeSources
    requires s in u.edgeSources ==> EdgeSourceRefers(u, s)
    requires forall k | k in rows :: EndsMentioned(u, w, d, ids[k])
    ensures EdgeSourceRefers(v, s)
  {
    if !(s in u.edgeSources && v.edgeSources[s] == u.edgeSources[s]) {
      var k :| k in rows && s == Source(ids[k], d);
      assert EndsMentioned(u, w, d, ids[k]);
    }
  }

  lemma NodeSourceStillRefers(t: Tables, u: Tables, s: Source)
    requires s in t.nodeSources && NodeSourceRefers(t, s) && u.nodes == t.nodes && u.nodeSources == t.nodeSources
    ensures NodeSourceRefers(u, s)
  {
  }

  lemma EndsStillExist(t: Tables, u: Tables, e: Id)
    requires e in t.edges && EndsExist(t, t.edges[e]) && u.nodes == t.nodes && u.edges == t.edges
    ensures EndsExist(u, u.edges[e])
  {
  }

  lemma ResolvedDependsOnNodes(lower: Lower, t: Tables, u: Tables, w: Id, d: Id, rows: map<EdgeKey, EdgeRow>)
    requires Resolved(lower, t, w, d, rows) && u.nodes == t.nodes && u.nodeSources == t.nodeSources
    ensures Resolved(lower, u, w, d, rows)
  {
  }

  lemma EdgePhaseKeepsReferences(lower: Lower, t: Tables, u: Tables, v: Tables, w: Id, d: Id,
                                 rows: map<EdgeKey, EdgeRow>, ids: map<EdgeKey, Id>)
    requires UniqueKeys(lower, t) && Referential(t) && Resolved(lower, t, w, d, rows)
    requires EdgesUpserted(lower, t, u, rows, ids) && EdgeSourcesInserted(lower, u, v, w, d, rows)
    ensures UniqueKeys(lower, v) && Referential(v)
    ensures EdgeSourcesAdded(u, v, w, d, rows, ids)
    ensures forall k | k in rows :: EdgeIs(lower, v, w, k, ids[k])
  {
    assert u == t.(edges := u.edges) && v == u.(edgeSources := v.edgeSources);
    assert ids.Keys == rows.Keys;
    hide EdgesUpserted, EdgeSourcesInserted, UniqueKeys, Referential, Resolved, EndsMentioned, EdgeSourcesAdded, EdgeIs;
    UpsertedEdgesKeepKeys(lower, t, u, w, d, rows, ids);
    UpsertedEdgesKeepReferences(lower, t, u, w, d, rows, ids);
    ResolvedDependsOnNodes(lower, t, u, w, d, rows);
    forall k | k in rows
      ensures EdgeIs(lower, u, w, k, ids[k]) && EdgeIs(lower, v, w, k, ids[k]) && EndsMentioned(u, w, d, ids[k])
    {
      UpsertedEdgeHasKey(lower, t, u, w, d, rows, ids, k);
      UpsertedEdgeEnds(lower, t, u, w, d, rows, ids, k);
      EdgeIsDependsOnRows(lower, u, v, w, k, ids[k]);
    }
    InsertedEdgeSources(lower, u, v, w, d, rows, ids);
    SourcedEdgesKeepReferences(lower, u, v, w, d, rows, ids);
  }

  lemma EdgeIsDependsOnRows(lower: Lower, t: Tables, u: Tables, w: Id, k: EdgeKey, e: Id)
    requires t.nodes == u.nodes && t.edges == u.edges
    ensures EdgeIs(lower, t, w, k, e) == EdgeIs(lower, u, w, k, e)
  {
  }

  lemma UpsertedEdgeEnds(lower: Lower, t: Tables, u: Tables, w: Id, d: Id, rows: map<EdgeKey, EdgeRow>,
          ids: map<EdgeKey, Id>, k: EdgeKey)
    requires EdgesUpserted(lower, t, u, rows, ids) && Resolved(lower, t, w, d, rows) && k in rows
    ensures EndsMentioned(u, w, d, ids[k])
  {
    assert EdgeUpserted(lower, t, u, rows[k], ids[k]);
  }

  lemma SourcedEdgesAreSourced(lower: Lower, t: Tables, u: Tables, v: Tables, w: Id, d: Id,
                               rows: map<EdgeKey, EdgeRow>, ids: map<EdgeKey, Id>)
    requires Sourced(t) && EdgesUpserted(lower, t, u, rows, ids) && EdgeSourcesAdded(u, v, w, d, rows, ids)
    ensures Sourced(v)
  {
    assert u == t.(edges := u.edges);
    forall e | e in v.edges ensures EdgeSourced(v, e) {
      if e in t.edges {
        var x :| Source(e, x) in t.edgeSources;
        assert Source(e, x) in v.edgeSources;
      } else {
        var k := AddedEdge(lower, t, u, rows, ids, e);
        assert Source(e, d) in v.edgeSources;
      }
    }
    forall n | n in v.nodes ensures NodeSourced(v, n) {
      var x :| Source(n, x) in t.nodeSources;
      assert Source(n, x) in v.nodeSources;
    }
    hide EdgesUpserted, EdgeSourcesAdded, EdgeSourced, NodeSourced;
  }
}
