/** Embeddings of a batch's nodes (gmrag_api/src/ingestion/graph.rs:233-274).

    The nodes are listed in one fixed order, the same when their texts are taken and when the vectors
    come back; which order that is does not matter. */
module NodeEmbeddings {
  import opened Wrappers
  import opened Collections
  import opened Text
  import opened GraphBatch

  datatype CountMismatch = CountMismatch(expected: nat, actual: nat)

  function NodeText(name: string, description: Option<string>): string {
    match NormalizeOptional(description)
    case Some(text) => Trim(name) + "\n" + text
    case None => Trim(name)
  }

  /** The text of a node is its name, and under it the description if that says something. */
  lemma NodeTextSays(name: string, description: Option<string>)
    ensures Silent(description) ==> NodeText(name, description) == Trim(name)
    ensures !Silent(description) ==> NodeText(name, description) == Trim(name) + "\n" + Trim(description.value)
  {
    hide Trim;
    NormalizedSays(description);
  }

  /** `keys` lists every node once. */
  predicate Lists(keys: seq<string>, nodes: map<string, NodeInput>) {
    && Distinct(keys)
    && (forall i | 0 <= i < |keys| :: keys[i] in nodes)
    && forall k | k in nodes :: k in keys
  }

  /** `node_texts_for_embedding`. */
  function NodeTexts(batch: GraphWriteBatch, keys: seq<string>): seq<string>
    requires Lists(keys, batch.nodes)
  {
    seq(|keys|, i requires 0 <= i < |keys| => NodeText(batch.nodes[keys[i]].name, batch.nodes[keys[i]].description))
  }

  /** `attach_node_embeddings`: one vector for each node, or nothing at all. If the vectors are those
      that `embed` gives for the texts, every node gets the vector of its own text. A batch that could
      be written still can. */
  method AttachNodeEmbeddings(batch: GraphWriteBatch, keys: seq<string>, embeddings: seq<Vector>,
                              ghost embed: string -> Vector, ghost lower: Lower)
    returns (r: Result<GraphWriteBatch, CountMismatch>)
    requires Lists(keys, batch.nodes)
    ensures r.Ok? <==> |embeddings| == |keys|
    ensures r.Err? ==> r.error == CountMismatch(|batch.nodes|, |embeddings|)
    ensures r.Ok? ==>
              && r.value.edges == batch.edges && r.value.nodes.Keys == batch.nodes.Keys
              && forall i | 0 <= i < |keys| ::
                 r.value.nodes[keys[i]] == batch.nodes[keys[i]].(embedding := Some(embeddings[i]))
    ensures r.Ok? && (forall i | 0 <= i < |keys| :: embeddings[i] == embed(NodeTexts(batch, keys)[i])) ==>
              forall k | k in batch.nodes :: r.value.nodes[k] == WithOwnVector(batch.nodes[k], embed)
    ensures r.Ok? && Writable(lower, batch) ==> Writable(lower, r.value)
  {
    ListsAll(keys, batch.nodes);
    if |embeddings| != |batch.nodes| {
      return Err(CountMismatch(|batch.nodes|, |embeddings|));
    }
    var nodes := batch.nodes;
    for i := 0 to |keys|
      invariant nodes.Keys == batch.nodes.Keys
      invariant forall j | 0 <= j < |keys| ::
                  nodes[keys[j]]
                  == if j < i then batch.nodes[keys[j]].(embedding := Some(embeddings[j])) else batch.nodes[keys[j]]
    {
      nodes := nodes[keys[i] := nodes[keys[i]].(embedding := Some(embeddings[i]))];
    }
    r := Ok(batch.(nodes := nodes));
    EveryKeyIsListed(batch, keys, r.value, embeddings, embed);
    StillWritable(lower, batch, keys, r.value, embeddings);
  }

  lemma ListsAll(keys: seq<string>, nodes: map<string, NodeInput>)
    requires Lists(keys, nodes)
    ensures |keys| == |nodes|
  {
    DistinctHasSize(keys);
    assert Elements(keys) == nodes.Keys;
  }

  function WithOwnVector(n: NodeInput, embed: string -> Vector): NodeInput {
    n.(embedding := Some(embed(NodeText(n.name, n.description))))
  }

  /** What holds at every position of the list holds for every key. */
  lemma EveryKeyIsListed(batch: GraphWriteBatch, keys: seq<string>, attached: GraphWriteBatch,
          embeddings: seq<Vector>, embed: string -> Vector)
    requires Lists(keys, batch.nodes) && attached.nodes.Keys == batch.nodes.Keys && |embeddings| == |keys|
    requires forall i | 0 <= i < |keys| ::
               attached.nodes[keys[i]] == batch.nodes[keys[i]].(embedding := Some(embeddings[i]))
    ensures (forall i | 0 <= i < |keys| :: embeddings[i] == embed(NodeTexts(batch, keys)[i])) ==>
              forall k | k in batch.nodes :: attached.nodes[k] == WithOwnVector(batch.nodes[k], embed)
  {
    hide NodeText;
    if forall i | 0 <= i < |keys| :: embeddings[i] == embed(NodeTexts(batch, keys)[i]) {
      forall k | k in batch.nodes ensures attached.nodes[k] == WithOwnVector(batch.nodes[k], embed) {
        var i :| 0 <= i < |keys| && keys[i] == k;
        assert embeddings[i] == embed(NodeTexts(batch, keys)[i]);
      }
    }
  }

  lemma StillWritable(lower: Lower, batch: GraphWriteBatch, keys: seq<string>, attached: GraphWriteBatch,
          embeddings: seq<Vector>)
    requires Lists(keys, batch.nodes) && attached.edges == batch.edges && attached.nodes.Keys == batch.nodes.Keys
    requires |embeddings| == |keys| && forall i | 0 <= i < |keys| ::
               attached.nodes[keys[i]] == batch.nodes[keys[i]].(embedding := Some(embeddings[i]))
    ensures Writable(lower, batch) ==> Writable(lower, attached)
  {
    hide NormalizeKey;
    forall k | k in batch.nodes ensures attached.nodes[k].name == batch.nodes[k].name {
      var i :| 0 <= i < |keys| && keys[i] == k;
    }
  }
}
