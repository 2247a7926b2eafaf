/** The SAVING transaction carried out, row by row (gmrag_api/src/ingestion/processor.rs:319-326,
    graph.rs:97-157, 288-548). Ids that the database draws are fresh. */
module GraphWriter {
  import opened Wrappers
  import opened GraphBatch
  import opened GraphStore
  import opened GraphSave

  /** `draw` never returns an id that is in use. */
  ghost predicate Draws(draw: set<Id> -> Id) {
    forall used :: draw(used) !in used
  }

  function Only<K, V>(m: map<K, V>, keys: set<K>): map<K, V> {
    map k | k in m && k in keys :: m[k]
  }

  /** A loop over rows: none are done, one more is done, all are done. */
  lemma OnlyAdvances<K, V>(rows: map<K, V>, todo: set<K>, k: K)
    requires todo <= rows.Keys && k in todo
    ensures var done := Only(rows, rows.Keys - todo);
            && k !in done && done[k := rows[k]] == Only(rows, rows.Keys - (todo - {k}))
            && done.Keys <= rows.Keys && forall j | j in done[k := rows[k]] ::
               j in rows && done[k := rows[k]][j] == rows[j]
  {
  }

  lemma OnlyEnds<K, V>(rows: map<K, V>)
    ensures Only(rows, rows.Keys - rows.Keys) == map[] && Only(rows, rows.Keys - {}) == rows
  {
  }

  // ----- One row of the node statement -----

  lemma NoNodesYet(lower: Lower, t: Tables, w: Id)
    ensures NodesUpserted(lower, t, t, w, map[], map[])
  {
    assert t == t.(nodes := t.nodes);
  }

  lemma NoneIs(lower: Lower, t: Tables, w: Id, k: string)
    requires forall n | n in t.nodes :: !NodeIs(lower, t, w, k, n)
    ensures forall n :: !NodeIs(lower, t, w, k, n)
  {
  }

  /** The row under a key that was not written before is the old row. */
  lemma UntouchedBefore(lower: Lower, t: Tables, u: Tables, w: Id, rows: map<string, NodeInput>, ids: map<string, Id>,
          k: string, n: Id)
    requires NodesUpserted(lower, t, u, w, rows, ids) && (forall j | j in rows :: lower(rows[j].name) == j)
    requires k !in rows && NodeIs(lower, u, w, k, n)
    ensures n !in ids.Values && n in t.nodes && u.nodes[n] == t.nodes[n] && NodeIs(lower, t, w, k, n)
  {
    forall j | j in rows ensures ids[j] != n { UpsertedNodeHasKey(lower, t, u, w, rows, ids, j); }
    if n !in t.nodes { var j := AddedNode(lower, t, u, w, rows, ids, n); }
  }

  /** Writing one more row, on a node that no other row was written to. */
  lemma OneMoreNode(lower: Lower, t: Tables, u: Tables, w: Id, rows: map<string, NodeInput>, ids: map<string, Id>,
                    k: string, row: NodeInput, n: Id, node: NodeRow)
    requires NodesUpserted(lower, t, u, w, rows, ids) && k !in rows && n !in ids.Values
    requires NodeUpserted(lower, t, u.(nodes := u.nodes[n := node]), w, row, n)
    ensures NodesUpserted(lower, t, u.(nodes := u.nodes[n := node]), w, rows[k := row], ids[k := n])
  {
    hide NodeUpserted;
    var v := u.(nodes := u.nodes[n := node]);
    var rows', ids' := rows[k := row], ids[k := n];
    forall j | j in rows ensures NodeUpserted(lower, t, v, w, rows[j], ids[j]) && ids[j] != n {
      assert ids[j] in ids.Values;
      NodeRowStillHolds(lower, t, u, v, w, rows[j], ids[j]);
    }
    ValuesWith(ids, k, n);
  }

  lemma NodeRowStillHolds(lower: Lower, t: Tables, u: Tables, v: Tables, w: Id, row: NodeInput, id: Id)
    requires NodeUpserted(lower, t, u, w, row, id) && (id in u.nodes ==> id in v.nodes && v.nodes[id] == u.nodes[id])
    ensures NodeUpserted(lower, t, v, w, row, id)
  {
  }

  lemma UpdatedNode(lower: Lower, t: Tables, u: Tables, w: Id, rows: map<string, NodeInput>, ids: map<string, Id>,
          k: string, row: NodeInput, n: Id)
    requires NodesUpserted(lower, t, u, w, rows, ids) && (forall j | j in rows :: lower(rows[j].name) == j)
    requires k !in rows && lower(row.name) == k && NodeIs(lower, u, w, k, n)
    ensures NodesUpserted(lower, t, u.(nodes := u.nodes[n := MergedNode(u.nodes[n], row)]), w, rows[k := row],
        ids[k := n])
  {
    hide NodesUpserted;
    UntouchedBefore(lower, t, u, w, rows, ids, k, n);
    OneMoreNode(lower, t, u, w, rows, ids, k, row, n, MergedNode(u.nodes[n], row));
  }

  lemma NewIdIsUnused(lower: Lower, t: Tables, u: Tables, w: Id, rows: map<string, NodeInput>, ids: map<string, Id>,
          k: string, n: Id)
    requires NodesUpserted(lower, t, u, w, rows, ids) && n !in u.nodes && forall m :: !NodeIs(lower, u, w, k, m)
    ensures n !in ids.Values && n !in t.nodes && forall m :: !NodeIs(lower, t, w, k, m)
  {
    forall m ensures !NodeIs(lower, t, w, k, m) {
      var still := NodeIs(lower, u, w, k, m);
      if m in t.nodes { UpsertedNodesStay(lower, t, u, w, rows, ids, m); }
    }
    forall j | j in rows ensures ids[j] in u.nodes { assert NodeUpserted(lower, t, u, w, rows[j], ids[j]); }
  }

  lemma InsertedNode(lower: Lower, t: Tables, u: Tables, w: Id, rows: map<string, NodeInput>, ids: map<string, Id>,
          k: string, row: NodeInput, n: Id)
    requires NodesUpserted(lower, t, u, w, rows, ids)
    requires k !in rows && lower(row.name) == k && n !in u.nodes && forall m :: !NodeIs(lower, u, w, k, m)
    ensures NodesUpserted(lower, t, u.(nodes := u.nodes[n := NewNode(w, row)]), w, rows[k := row], ids[k := n])
  {
    hide NodesUpserted;
    NewIdIsUnused(lower, t, u, w, rows, ids, k, n);
    OneMoreNode(lower, t, u, w, rows, ids, k, row, n, NewNode(w, row));
  }

  lemma ValuesWith<K>(ids: map<K, Id>, k: K, n: Id)
    requires k !in ids
    ensures ids[k := n].Values == ids.Values + {n}
  {
    var more := ids[k := n];
    forall x | x in ids.Values + {n} ensures x in more.Values {
      if x == n { assert more[k] == n; } else { var j :| j in ids && ids[j] == x; assert more[j] == x; }
    }
  }

  // ----- One row of the edge statement -----

  /** No two rows share a conflict key. */
  predicate RowsDiffer(lower: Lower, rows: map<EdgeKey, EdgeRow>) {
    forall j, k | j in rows && k in rows && SameEdgeKey(lower, rows[j], rows[k]) :: j == k
  }

  lemma ResolvedRowsDiffer(lower: Lower, t: Tables, w: Id, d: Id, rows: map<EdgeKey, EdgeRow>)
    requires Resolved(lower, t, w, d, rows)
    ensures RowsDiffer(lower, rows)
  {
    forall j, k | j in rows && k in rows && SameEdgeKey(lower, rows[j], rows[k]) ensures j == k {
      assert j == EdgeKey(k.source, k.target, k.relationship);
    }
  }

  lemma UpsertedRowHolds(lower: Lower, t: Tables, u: Tables, rows: map<EdgeKey, EdgeRow>, ids: map<EdgeKey, Id>,
          k: EdgeKey)
    requires EdgesUpserted(lower, t, u, rows, ids) && k in rows
    ensures EdgeMatches(lower, u, rows[k], ids[k])
  {
    assert EdgeUpserted(lower, t, u, rows[k], ids[k]);
  }

  lemma NoEdgesYet(lower: Lower, t: Tables)
    ensures EdgesUpserted(lower, t, t, map[], map[])
  {
    assert t == t.(edges := t.edges);
  }

  lemma NoneMatches(lower: Lower, t: Tables, row: EdgeRow)
    requires forall e | e in t.edges :: !EdgeMatches(lower, t, row, e)
    ensures forall e :: !EdgeMatches(lower, t, row, e)
  {
  }

  lemma UntouchedEdgeBefore(lower: Lower, t: Tables, u: Tables, rows: map<EdgeKey, EdgeRow>, ids: map<EdgeKey, Id>,
          k: EdgeKey, row: EdgeRow, e: Id)
    requires EdgesUpserted(lower, t, u, rows, ids) && k !in rows && RowsDiffer(lower, rows[k := row])
        && EdgeMatches(lower, u, row, e)
    ensures e !in ids.Values && e in t.edges && u.edges[e] == t.edges[e] && EdgeMatches(lower, t, row, e)
  {
    var rows' := rows[k := row];
    forall j | j in rows ensures ids[j] != e {
      UpsertedRowHolds(lower, t, u, rows, ids, j);
      assert rows'[j] == rows[j] && rows'[k] == row;
    }
    if e !in t.edges { var j := AddedEdge(lower, t, u, rows, ids, e); }
  }

  /** Writing one more row, on an edge that no other row was written to. */
  lemma OneMoreEdge(lower: Lower, t: Tables, u: Tables, rows: map<EdgeKey, EdgeRow>, ids: map<EdgeKey, Id>,
          k: EdgeKey, row: EdgeRow, e: Id, edge: EdgeRow)
    requires EdgesUpserted(lower, t, u, rows, ids) && k !in rows && e !in ids.Values
    requires EdgeUpserted(lower, t, u.(edges := u.edges[e := edge]), row, e)
    ensures EdgesUpserted(lower, t, u.(edges := u.edges[e := edge]), rows[k := row], ids[k := e])
  {
    hide EdgeUpserted;
    var v := u.(edges := u.edges[e := edge]);
    var rows', ids' := rows[k := row], ids[k := e];
    forall j | j in rows ensures EdgeUpserted(lower, t, v, rows[j], ids[j]) && ids[j] != e {
      assert ids[j] in ids.Values;
      EdgeRowStillHolds(lower, t, u, v, rows[j], ids[j]);
    }
    ValuesWith(ids, k, e);
  }

  lemma EdgeRowStillHolds(lower: Lower, t: Tables, u: Tables, v: Tables, row: EdgeRow, id: Id)
    requires EdgeUpserted(lower, t, u, row, id) && (id in u.edges ==> id in v.edges && v.edges[id] == u.edges[id])
    ensures EdgeUpserted(lower, t, v, row, id)
  {
  }

  lemma UpdatedEdge(lower: Lower, t: Tables, u: Tables, rows: map<EdgeKey, EdgeRow>, ids: map<EdgeKey, Id>,
          k: EdgeKey, row: EdgeRow, e: Id)
    requires EdgesUpserted(lower, t, u, rows, ids) && k !in rows && RowsDiffer(lower, rows[k := row])
        && EdgeMatches(lower, u, row, e)
    ensures EdgesUpserted(lower, t, u.(edges := u.edges[e := MergedEdge(u.edges[e], row)]), rows[k := row], ids[k := e])
  {
    hide EdgesUpserted, RowsDiffer;
    UntouchedEdgeBefore(lower, t, u, rows, ids, k, row, e);
    OneMoreEdge(lower, t, u, rows, ids, k, row, e, MergedEdge(u.edges[e], row));
  }

  lemma NewEdgeIdIsUnused(lower: Lower, t: Tables, u: Tables, rows: map<EdgeKey, EdgeRow>, ids: map<EdgeKey, Id>,
          row: EdgeRow, e: Id)
    requires EdgesUpserted(lower, t, u, rows, ids) && e !in u.edges && forall f :: !EdgeMatches(lower, u, row, f)
    ensures e !in ids.Values && e !in t.edges && forall f :: !EdgeMatches(lower, t, row, f)
  {
    forall f ensures !EdgeMatches(lower, t, row, f) {
      var still := EdgeMatches(lower, u, row, f);
      if f in t.edges { UpsertedEdgesStay(lower, t, u, rows, ids, f); }
    }
    forall j | j in rows ensures ids[j] in u.edges { assert EdgeUpserted(lower, t, u, rows[j], ids[j]); }
  }

  lemma InsertedEdge(lower: Lower, t: Tables, u: Tables, rows: map<EdgeKey, EdgeRow>, ids: map<EdgeKey, Id>,
          k: EdgeKey, row: EdgeRow, e: Id)
    requires EdgesUpserted(lower, t, u, rows, ids) && k !in rows
    requires e !in u.edges && forall f :: !EdgeMatches(lower, u, row, f)
    ensures EdgesUpserted(lower, t, u.(edges := u.edges[e := row]), rows[k := row], ids[k := e])
  {
    hide EdgesUpserted;
    NewEdgeIdIsUnused(lower, t, u, rows, ids, row, e);
    OneMoreEdge(lower, t, u, rows, ids, k, row, e, row);
  }

  // ----- One row of the source statements -----

  lemma NoNodeSourcesYet(lower: Lower, t: Tables, w: Id, d: Id, ids: map<string, Id>)
    ensures NodeSourcesInserted(lower, t, t, w, d, map[], ids)
  {
    assert t == t.(nodeSources := t.nodeSources);
  }

  lemma NamedRowIsFound(lower: Lower, rows: map<string, NodeInput>, ids: map<string, Id>, k: string)
    requires Named(lower, rows) && k in rows && k in ids
    ensures LookedUp(lower, ids, rows[k].name) == Some(ids[k])
  {
    assert NormalizeKey(lower, rows[k].name) == k;
  }

  /** With all rows found, the statement adds one source a row. */
  ghost predicate OneSourceEach(t: Tables, u: Tables, w: Id, d: Id, rows: map<string, NodeInput>, ids: map<string, Id>)
    requires rows.Keys <= ids.Keys
  {
    && u == t.(nodeSources := u.nodeSources)
    && (forall s | s in u.nodeSources ::
          || (s in t.nodeSources && u.nodeSources[s] == t.nodeSources[s])
          || (s.document == d && exists k :: k in rows && ids[k] == s.item))
    && (forall s | s in t.nodeSources :: s in u.nodeSources)
    && (forall k | k in rows :: Row(u.nodeSources, Source(ids[k], d)) == Some(SourceOf(w, rows[k])))
  }

  lemma FoundRowsInserted(lower: Lower, t: Tables, u: Tables, w: Id, d: Id, rows: map<string, NodeInput>,
          ids: map<string, Id>)
    requires rows.Keys <= ids.Keys && forall k | k in rows :: LookedUp(lower, ids, rows[k].name) == Some(ids[k])
    ensures NodeSourcesInserted(lower, t, u, w, d, rows, ids) <==> OneSourceEach(t, u, w, d, rows, ids)
  {
    hide LookedUp;
    if NodeSourcesInserted(lower, t, u, w, d, rows, ids) {
      forall s | s in u.nodeSources && !(s in t.nodeSources && u.nodeSources[s] == t.nodeSources[s])
        ensures s.document == d && exists k :: k in rows && ids[k] == s.item
      {
        var k :| k in rows && LookedUp(lower, ids, rows[k].name) == Some(s.item);
        assert k in rows && ids[k] == s.item;
      }
    }
    if OneSourceEach(t, u, w, d, rows, ids) {
      forall s | s in u.nodeSources && !(s in t.nodeSources && u.nodeSources[s] == t.nodeSources[s])
        ensures s.document == d && exists k :: k in rows && LookedUp(lower, ids, rows[k].name) == Some(s.item)
      {
        var k :| k in rows && ids[k] == s.item;
        assert k in rows && LookedUp(lower, ids, rows[k].name) == Some(s.item);
      }
    }
  }

  function Row(sources: map<Source, NodeSource>, s: Source): Option<NodeSource> {
    if s in sources then Some(sources[s]) else None
  }

  function SourceOf(w: Id, row: NodeInput): NodeSource {
    NodeSource(w, row.entityType, row.description, row.embedding)
  }

  lemma OneMoreSourceEach(t: Tables, u: Tables, w: Id, d: Id, done: map<string, NodeInput>, ids: map<string, Id>,
          k: string,
          row: NodeInput)
    requires done.Keys <= ids.Keys && k in ids && k !in done && OneSourceEach(t, u, w, d, done, ids)
    requires forall j | j in done :: ids[j] != ids[k]
    ensures OneSourceEach(t, u.(nodeSources := u.nodeSources[Source(ids[k], d) := SourceOf(w, row)]), w, d,
        done[k := row], ids)
  {
    hide SourceOf;
    var rows := done[k := row];
    var v := u.(nodeSources := u.nodeSources[Source(ids[k], d) := SourceOf(w, row)]);
    forall s | s in v.nodeSources && !(s in t.nodeSources && v.nodeSources[s] == t.nodeSources[s])
      ensures s.document == d && exists j :: j in rows && ids[j] == s.item
    {
      if s == Source(ids[k], d) {
        assert k in rows && ids[k] == s.item;
      } else {
        var j :| j in done && ids[j] == s.item;
        assert j in rows && ids[j] == s.item;
      }
    }
  }

  lemma OneMoreNodeSource(lower: Lower, t: Tables, u: Tables, w: Id, d: Id, done: map<string, NodeInput>,
          ids: map<string, Id>, k: string, row: NodeInput)
    requires NodeSourcesInserted(lower, t, u, w, d, done, ids) && k !in done && Named(lower, done[k := row])
    requires k in ids && done.Keys <= ids.Keys && forall i, j | i in ids && j in ids && ids[i] == ids[j] :: i == j
    ensures NodeSourcesInserted(lower, t, u.(nodeSources := u.nodeSources[Source(ids[k], d) := SourceOf(w, row)]), w, d,
                                done[k := row], ids)
  {
    hide NodeSourcesInserted, LookedUp, Named, OneSourceEach, SourceOf;
    var rows := done[k := row];
    var v := u.(nodeSources := u.nodeSources[Source(ids[k], d) := SourceOf(w, row)]);
    forall j | j in rows
      ensures LookedUp(lower, ids, rows[j].name) == Some(ids[j]) { NamedRowIsFound(lower, rows, ids, j); }
    forall j | j in done ensures LookedUp(lower, ids, done[j].name) == Some(ids[j]) { assert rows[j] == done[j]; }
    FoundRowsInserted(lower, t, u, w, d, done, ids);
    OneMoreSourceEach(t, u, w, d, done, ids, k, row);
    FoundRowsInserted(lower, t, v, w, d, rows, ids);
  }

  lemma SameEdges(lower: Lower, t: Tables, u: Tables, w: Id, d: Id, done: map<EdgeKey, EdgeRow>)
    requires EdgeSourcesInserted(lower, t, u, w, d, done)
    ensures u == t.(edgeSources := u.edgeSources)
    ensures forall row, e :: EdgeMatches(lower, u, row, e) == EdgeMatches(lower, t, row, e)
  {
  }

  lemma MatchIsUnique(lower: Lower, t: Tables, row: EdgeRow, e: Id, f: Id)
    requires UniqueKeys(lower, t) && EdgeMatches(lower, t, row, e) && EdgeMatches(lower, t, row, f)
    ensures e == f
  {
    assert SameEdgeKey(lower, t.edges[e], t.edges[f]);
  }

  lemma MatchesDiffer(lower: Lower, t: Tables, rows: map<EdgeKey, EdgeRow>, j: EdgeKey, k: EdgeKey, e: Id, f: Id)
    requires RowsDiffer(lower, rows) && j in rows && k in rows && j != k
    requires EdgeMatches(lower, t, rows[j], e) && EdgeMatches(lower, t, rows[k], f)
    ensures e != f
  {
    var same := SameEdgeKey(lower, rows[j], rows[k]);
  }

  lemma NoEdgeSourcesYet(lower: Lower, t: Tables, w: Id, d: Id)
    ensures EdgeSourcesInserted(lower, t, t, w, d, map[])
  {
    assert t == t.(edgeSources := t.edgeSources);
  }

  lemma OneMoreEdgeSource(lower: Lower, t: Tables, u: Tables, w: Id, d: Id, done: map<EdgeKey, EdgeRow>, k: EdgeKey,
          row: EdgeRow, e: Id)
    requires EdgeSourcesInserted(lower, t, u, w, d, done) && UniqueKeys(lower, t) && k !in done
        && RowsDiffer(lower, done[k := row])
    requires EdgeMatches(lower, t, row, e)
    ensures EdgeSourcesInserted(lower, t,
        u.(edgeSources := u.edgeSources[Source(e, d) := EdgeSource(w, row.relationship, row.description)]),
                                w, d, done[k := row])
  {
    hide UniqueKeys;
    var rows := done[k := row];
    var s := Source(e, d);
    var v := u.(edgeSources := u.edgeSources[s := EdgeSource(w, row.relationship, row.description)]);
    forall x | x in v.edgeSources
      ensures (x in t.edgeSources && v.edgeSources[x] == t.edgeSources[x])
              || (x.document == d && exists j :: j in rows && EdgeMatches(lower, t, rows[j], x.item))
    {
      if x == s {
        assert k in rows && EdgeMatches(lower, t, rows[k], x.item);
      } else if !(x in t.edgeSources && v.edgeSources[x] == t.edgeSources[x]) {
        var j :| j in done && EdgeMatches(lower, t, done[j], x.item);
        assert j in rows && EdgeMatches(lower, t, rows[j], x.item);
      }
    }
    forall j, f | j in rows && EdgeMatches(lower, t, rows[j], f)
      ensures Source(f, d) in v.edgeSources
          && v.edgeSources[Source(f, d)] == EdgeSource(w, rows[j].relationship, rows[j].description)
    {
      if j == k {
        MatchIsUnique(lower, t, row, e, f);
      } else {
        MatchesDiffer(lower, t, rows, j, k, f, e);
      }
    }
  }

  lemma NoEdgeSource(lower: Lower, t: Tables, u: Tables, w: Id, d: Id, done: map<EdgeKey, EdgeRow>, k: EdgeKey,
          row: EdgeRow)
    requires EdgeSourcesInserted(lower, t, u, w, d, done) && k !in done && forall e :: !EdgeMatches(lower, t, row, e)
    ensures EdgeSourcesInserted(lower, t, u, w, d, done[k := row])
  {
    var rows := done[k := row];
    forall x | x in u.edgeSources && !(x in t.edgeSources && u.edgeSources[x] == t.edgeSources[x])
      ensures x.document == d && exists j :: j in rows && EdgeMatches(lower, t, rows[j], x.item)
    {
      var j :| j in done && EdgeMatches(lower, t, done[j], x.item);
      assert j in rows && EdgeMatches(lower, t, rows[j], x.item);
    }
  }

  // ----- Between the statements -----

  lemma RowsAreNamed(lower: Lower, rows: map<string, NodeInput>)
    requires Named(lower, rows)
    ensures forall k | k in rows :: lower(rows[k].name) == k
  {
  }

  lemma FewerRowsNamed(lower: Lower, rows: map<string, NodeInput>, some: map<string, NodeInput>)
    requires Named(lower, rows) && forall k | k in some :: k in rows && some[k] == rows[k]
    ensures Named(lower, some)
  {
  }

  lemma FewerRowsDiffer(lower: Lower, rows: map<EdgeKey, EdgeRow>, some: map<EdgeKey, EdgeRow>)
    requires RowsDiffer(lower, rows) && forall k | k in some :: k in rows && some[k] == rows[k]
    ensures RowsDiffer(lower, some)
  {
  }

  lemma BatchIsNamed(lower: Lower, batch: GraphWriteBatch)
    requires Writable(lower, batch)
    ensures Named(lower, batch.nodes)
  {
  }

  lemma ProvenIsUnique(lower: Lower, t: Tables)
    requires Provenance(lower, t)
    ensures UniqueKeys(lower, t) && Referential(t)
  {
  }

  lemma IdsDiffer(lower: Lower, t: Tables, u: Tables, w: Id, rows: map<string, NodeInput>, ids: map<string, Id>)
    requires NodesUpserted(lower, t, u, w, rows, ids)
    ensures ids.Keys == rows.Keys && forall j, k | j in ids && k in ids && ids[j] == ids[k] :: j == k
  {
  }

  lemma NodePhase(lower: Lower, t: Tables, u: Tables, v: Tables, w: Id, d: Id, batch: GraphWriteBatch,
          ids: map<string, Id>)
    requires UniqueKeys(lower, t) && Referential(t) && Writable(lower, batch)
    requires NodesUpserted(lower, t, u, w, batch.nodes, ids) && NodeSourcesInserted(lower, u, v, w, d, batch.nodes, ids)
    ensures UniqueKeys(lower, v) && Referential(v)
        && Resolved(lower, v, w, d, ResolvedEdges(lower, w, batch.edges, ids))
  {
    hide UniqueKeys, Referential, NodesUpserted, NodeSourcesInserted, Writable, ResolvedEdges, Resolved,
         NodeSourcesAdded;
    BatchIsNamed(lower, batch);
    NodePhaseKeepsReferences(lower, t, u, v, w, d, batch.nodes, ids);
    NoEdgeIsDropped(lower, v, w, d, batch, ids);
  }

  // ----- The statements -----

  class Database {
    var tables: Tables

    constructor (tables: Tables)
      ensures this.tables == tables
    {
      this.tables := tables;
    }

    method DeleteUntrackedEdges(w: Id)
      modifies this
      ensures tables == EdgesCollected(old(tables), w)
    {
      ghost var t := tables;
      tables := tables.(edges := map e | e in tables.edges
                                         && (tables.edges[e].workspace != w
                                             || exists s | s in tables.edgeSources :: s.item == e)
                                     :: tables.edges[e]);
      forall e ensures EdgeSourced(t, e) <==> exists s | s in t.edgeSources :: s.item == e {
        if s :| s in t.edgeSources && s.item == e { assert s == Source(e, s.document); }
      }
    }

    method DeleteUntrackedNodes(w: Id)
      modifies this
      ensures tables == NodesCollected(old(tables), w)
    {
      ghost var t := tables;
      tables := tables.(nodes := map n | n in tables.nodes
                                         && (tables.nodes[n].workspace != w
                                             || (exists s | s in tables.nodeSources :: s.item == n)
                                             || (exists e | e in tables.edges ::
                                                tables.edges[e].source == n || tables.edges[e].target == n))
                                     :: tables.nodes[n]);
      forall n ensures NodeSourced(t, n) <==> exists s | s in t.nodeSources :: s.item == n {
        if s :| s in t.nodeSources && s.item == n { assert s == Source(n, s.document); }
      }
    }

    /** `delete_untracked_graph_items`. */
    method DeleteUntrackedGraphItems(w: Id)
      modifies this
      ensures tables == Collected(old(tables), w)
    {
      hide EdgesCollected, NodesCollected;
      DeleteUntrackedEdges(w);
      DeleteUntrackedNodes(w);
    }

    /** `clear_document_output`. */
    method ClearDocumentOutput(w: Id, d: Id)
      modifies this
      ensures tables == OutputCleared(old(tables), w, d)
    {
      tables := SourcesCleared(tables, w, d);
      DeleteUntrackedGraphItems(w);
    }

    /** `bulk_upsert_graph_nodes`: one row at a time, to the node under its conflict key or a new one. */
    method BulkUpsertGraphNodes(lower: Lower, w: Id, rows: map<string, NodeInput>, draw: set<Id> -> Id)
      returns (ids: map<string, Id>)
      requires UniqueKeys(lower, tables) && Named(lower, rows) && Draws(draw)
      modifies this
      ensures NodesUpserted(lower, old(tables), tables, w, rows, ids)
    {
      hide Only, NodesUpserted, UniqueKeys, NodeIs, Named, MergedNode, NewNode;
      ghost var t := tables;
      ids := map[];
      var todo := rows.Keys;
      NoNodesYet(lower, t, w);
      OnlyEnds(rows);
      while todo != {}
        invariant todo <= rows.Keys && NodesUpserted(lower, t, tables, w, Only(rows, rows.Keys - todo), ids)
        decreases |todo|
      {
        var k :| k in todo;
        var row := rows[k];
        ghost var done := Only(rows, rows.Keys - todo);
        RowsAreNamed(lower, rows);
        OnlyAdvances(rows, todo, k);
        var present := exists n | n in tables.nodes :: NodeIs(lower, tables, w, k, n);
        if present {
          var n :| n in tables.nodes && NodeIs(lower, tables, w, k, n);
          UpdatedNode(lower, t, tables, w, done, ids, k, row, n);
          tables := tables.(nodes := tables.nodes[n := MergedNode(tables.nodes[n], row)]);
          ids := ids[k := n];
        } else {
          var n := draw(tables.nodes.Keys);
          NoneIs(lower, tables, w, k);
          InsertedNode(lower, t, tables, w, done, ids, k, row, n);
          tables := tables.(nodes := tables.nodes[n := NewNode(w, row)]);
          ids := ids[k := n];
        }
        todo := todo - {k};
      }
    }

    /** `insert_graph_node_sources`. */
    method InsertGraphNodeSources(lower: Lower, w: Id, d: Id, rows: map<string, NodeInput>, ids: map<string, Id>)
      requires Named(lower, rows) && ids.Keys == rows.Keys && forall j, k | j in ids && k in ids && ids[j] == ids[k] ::
          j == k
      modifies this
      ensures NodeSourcesInserted(lower, old(tables), tables, w, d, rows, ids)
    {
      hide Only, NodeSourcesInserted, Named, LookedUp, SourceOf;
      ghost var t := tables;
      var todo := rows.Keys;
      NoNodeSourcesYet(lower, t, w, d, ids);
      OnlyEnds(rows);
      while todo != {}
        invariant todo <= rows.Keys && NodeSourcesInserted(lower, t, tables, w, d, Only(rows, rows.Keys - todo), ids)
        decreases |todo|
      {
        var k :| k in todo;
        var row := rows[k];
        ghost var done := Only(rows, rows.Keys - todo);
        OnlyAdvances(rows, todo, k);
        FewerRowsNamed(lower, rows, done[k := row]);
        NamedRowIsFound(lower, rows, ids, k);
        OneMoreNodeSource(lower, t, tables, w, d, done, ids, k, row);
        tables := tables.(nodeSources := tables.nodeSources[Source(ids[k], d) := SourceOf(w, row)]);
        todo := todo - {k};
      }
    }

    /** `bulk_upsert_graph_edges`, over the rows whose ends were found. */
    method BulkUpsertGraphEdges(lower: Lower, rows: map<EdgeKey, EdgeRow>, draw: set<Id> -> Id)
      returns (ids: map<EdgeKey, Id>)
      requires RowsDiffer(lower, rows) && Draws(draw)
      modifies this
      ensures EdgesUpserted(lower, old(tables), tables, rows, ids)
    {
      hide Only, EdgesUpserted, RowsDiffer, EdgeMatches;
      ghost var t := tables;
      ids := map[];
      var todo := rows.Keys;
      NoEdgesYet(lower, t);
      OnlyEnds(rows);
      while todo != {}
        invariant todo <= rows.Keys && EdgesUpserted(lower, t, tables, Only(rows, rows.Keys - todo), ids)
        decreases |todo|
      {
        var k :| k in todo;
        var row := rows[k];
        ghost var done := Only(rows, rows.Keys - todo);
        OnlyAdvances(rows, todo, k);
        FewerRowsDiffer(lower, rows, done[k := row]);
        var present := exists e | e in tables.edges :: EdgeMatches(lower, tables, row, e);
        if present {
          var e :| e in tables.edges && EdgeMatches(lower, tables, row, e);
          UpdatedEdge(lower, t, tables, done, ids, k, row, e);
          tables := tables.(edges := tables.edges[e := MergedEdge(tables.edges[e], row)]);
          ids := ids[k := e];
        } else {
          var e := draw(tables.edges.Keys);
          NoneMatches(lower, tables, row);
          InsertedEdge(lower, t, tables, done, ids, k, row, e);
          tables := tables.(edges := tables.edges[e := row]);
          ids := ids[k := e];
        }
        todo := todo - {k};
      }
    }

    /** `insert_graph_edge_sources`: each row joins the edge under its conflict key. */
    method InsertGraphEdgeSources(lower: Lower, w: Id, d: Id, rows: map<EdgeKey, EdgeRow>)
      requires UniqueKeys(lower, tables) && RowsDiffer(lower, rows)
      modifies this
      ensures EdgeSourcesInserted(lower, old(tables), tables, w, d, rows)
    {
      hide Only, EdgeSourcesInserted, UniqueKeys, RowsDiffer, EdgeMatches;
      ghost var t := tables;
      var todo := rows.Keys;
      NoEdgeSourcesYet(lower, t, w, d);
      OnlyEnds(rows);
      while todo != {}
        invariant todo <= rows.Keys && EdgeSourcesInserted(lower, t, tables, w, d, Only(rows, rows.Keys - todo))
        decreases |todo|
      {
        var k :| k in todo;
        var row := rows[k];
        ghost var done := Only(rows, rows.Keys - todo);
        OnlyAdvances(rows, todo, k);
        SameEdges(lower, t, tables, w, d, done);
        FewerRowsDiffer(lower, rows, done[k := row]);
        var present := exists e | e in tables.edges :: EdgeMatches(lower, tables, row, e);
        if present {
          var e :| e in tables.edges && EdgeMatches(lower, tables, row, e);
          OneMoreEdgeSource(lower, t, tables, w, d, done, k, row, e);
          tables := tables.(edgeSources :=
            tables.edgeSources[Source(e, d) := EdgeSource(w, row.relationship, row.description)]);
        } else {
          NoneMatches(lower, tables, row);
          NoEdgeSource(lower, t, tables, w, d, done, k, row);
        }
        todo := todo - {k};
      }
    }

    /** The SAVING transaction: it can always be carried out, and it keeps provenance. */
    method Save(lower: Lower, w: Id, d: Id, rows: seq<ChunkInput>, batch: GraphWriteBatch, newChunkId: nat -> Id,
            draw: set<Id> -> Id)
      requires Provenance(lower, tables) && Writable(lower, batch) && Draws(draw)
      modifies this
      ensures Saved(lower, old(tables), tables, w, d, rows, batch) && Provenance(lower, tables)
    {
      hide Provenance, Writable, UniqueKeys, NodesUpserted, NodeSourcesInserted, EdgesUpserted, EdgeSourcesInserted,
           Collected, OutputCleared, ResolvedEdges, Resolved;
      ghost var t := tables;
      ClearDocumentOutput(w, d);
      tables := ChunksUpserted(tables, w, d, rows, newChunkId);
      tables := StaleChunksDeleted(tables, w, d, rows);
      SecondCollectionIsIdle(lower, t, w, d, rows, newChunkId);
      DeleteUntrackedGraphItems(w);
      ghost var cleared := tables;
      BatchIsNamed(lower, batch);
      ProvenIsUnique(lower, cleared);
      var nodeIds := BulkUpsertGraphNodes(lower, w, batch.nodes, draw);
      ghost var upserted := tables;
      IdsDiffer(lower, cleared, upserted, w, batch.nodes, nodeIds);
      InsertGraphNodeSources(lower, w, d, batch.nodes, nodeIds);
      ghost var mentioned := tables;
      var links := ResolvedEdges(lower, w, batch.edges, nodeIds);
      NodePhase(lower, cleared, upserted, mentioned, w, d, batch, nodeIds);
      ResolvedRowsDiffer(lower, mentioned, w, d, links);
      var edgeIds := BulkUpsertGraphEdges(lower, links, draw);
      ghost var linked := tables;
      UpsertedEdgesKeepKeys(lower, mentioned, linked, w, d, links, edgeIds);
      InsertGraphEdgeSources(lower, w, d, links);
      ghost var run := SaveRun(newChunkId, nodeIds, edgeIds, cleared, upserted, mentioned, linked);
      assert SavedBy(lower, t, tables, w, d, rows, batch, run);
      SaveKeepsProvenance(lower, t, tables, w, d, rows, batch);
    }
  }
}
