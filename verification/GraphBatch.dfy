/** Folding extracted graph elements into one write batch (gmrag_api/src/ingestion/graph.rs).

    Lower-casing is an uninterpreted function `lower`, shared by Rust's `to_lowercase` and SQL's
    `lower`. The batch keeps the two ordered maps of the fold; their order is not modelled. */
module GraphBatch {
  import opened Wrappers
  import opened Text

  type Lower = string -> string

  datatype GraphElement =
    | Node(name: string, entityType: Option<string>, description: Option<string>)
    | Edge(relationship: string, source: string, target: string, description: Option<string>)

  type Vector = seq<real>

  /** The embedding is attached after the fold; until then there is none. */
  datatype NodeInput = NodeInput(name: string, entityType: Option<string>, description: Option<string>,
          embedding: Option<Vector>)

  datatype EdgeInput = EdgeInput(source: string, target: string, relationship: string, description: Option<string>)

  datatype EdgeKey = EdgeKey(source: string, target: string, relationship: string)

  datatype GraphWriteBatch = GraphWriteBatch(nodes: map<string, NodeInput>, edges: map<EdgeKey, EdgeInput>)

  function NormalizeKey(lower: Lower, value: string): string {
    lower(Trim(value))
  }

  function NormalizeOptional(value: Option<string>): Option<string> {
    match value
    case None => None
    case Some(text) => if Trim(text) == "" then None else Some(Trim(text))
  }

  // ----- What a batch should be -----

  /** One occurrence of a node in the extractions: a node element, or an end of a kept edge. */
  datatype Mention = Mention(name: string, entityType: Option<string>, description: Option<string>)

  function KeyOf(lower: Lower, e: GraphElement): EdgeKey
    requires e.Edge?
  {
    EdgeKey(NormalizeKey(lower, e.source), NormalizeKey(lower, e.target), NormalizeKey(lower, e.relationship))
  }

  /** Edges with a blank end or a blank relationship are dropped. */
  predicate Kept(lower: Lower, e: GraphElement) {
    e.Edge? && KeyOf(lower, e).source != "" && KeyOf(lower, e).target != "" && KeyOf(lower, e).relationship != ""
  }

  function MentionsOf(lower: Lower, e: GraphElement): seq<Mention> {
    match e
    case Node(name, entityType, description) => [Mention(name, entityType, description)]
    case Edge(_, source, target, _) =>
      if Kept(lower, e) then [Mention(source, None, None), Mention(target, None, None)] else []
  }

  function Mentions(lower: Lower, es: seq<GraphElement>): seq<Mention> {
    if es == [] then [] else MentionsOf(lower, es[0]) + Mentions(lower, es[1..])
  }

  datatype Attribute = Name | EntityType | Description

  function Get(m: Mention, attribute: Attribute): Option<string> {
    match attribute
    case Name => Some(Trim(m.name))
    case EntityType => NormalizeOptional(m.entityType)
    case Description => NormalizeOptional(m.description)
  }

  /** The attribute of the first mention under `key` that has it. */
  function First(lower: Lower, ms: seq<Mention>, key: string, attribute: Attribute): Option<string> {
    if ms == [] then None
    else if NormalizeKey(lower, ms[0].name) == key && Get(ms[0], attribute).Some? then Get(ms[0], attribute)
    else First(lower, ms[1..], key, attribute)
  }

  /** The node a key stands for: the name of its first mention, and of each attribute the first one
      that is not blank. */
  function NodeFor(lower: Lower, ms: seq<Mention>, key: string): Option<NodeInput> {
    match First(lower, ms, key, Name)
    case None => None
    case Some(name) =>
      if key == "" then None
      else Some(NodeInput(name, First(lower, ms, key, EntityType), First(lower, ms, key, Description), None))
  }

  function EdgeFrom(e: GraphElement): EdgeInput
    requires e.Edge?
  {
    EdgeInput(Trim(e.source), Trim(e.target), Trim(e.relationship), NormalizeOptional(e.description))
  }

  /** The edge a key stands for: the first kept edge element with that key. */
  function EdgeFor(lower: Lower, es: seq<GraphElement>, key: EdgeKey): Option<EdgeInput> {
    if es == [] then None
    else if Kept(lower, es[0]) && KeyOf(lower, es[0]) == key then Some(EdgeFrom(es[0]))
    else EdgeFor(lower, es[1..], key)
  }

  ghost predicate NodesAre(lower: Lower, ms: seq<Mention>, nodes: map<string, NodeInput>) {
    forall k :: NodeFor(lower, ms, k) == if k in nodes then Some(nodes[k]) else None
  }

  ghost predicate EdgesAre(lower: Lower, es: seq<GraphElement>, edges: map<EdgeKey, EdgeInput>) {
    forall k :: EdgeFor(lower, es, k) == if k in edges then Some(edges[k]) else None
  }

  ghost predicate BatchIs(lower: Lower, es: seq<GraphElement>, batch: GraphWriteBatch) {
    NodesAre(lower, Mentions(lower, es), batch.nodes) && EdgesAre(lower, es, batch.edges)
  }

  function AllElements(extractions: seq<(int, seq<GraphElement>)>): seq<GraphElement> {
    if extractions == [] then [] else extractions[0].1 + AllElements(extractions[1..])
  }

  // ----- The fold -----

  method MergeNode(lower: Lower, nodes: map<string, NodeInput>, name: string, entityType: Option<string>,
                   description: Option<string>, ghost ms: seq<Mention>)
    returns (merged: map<string, NodeInput>)
    requires NodesAre(lower, ms, nodes)
    ensures NodesAre(lower, ms + [Mention(name, entityType, description)], merged)
  {
    hide NodeFor, NormalizeOptional, NormalizeKey;
    forall k { NodeForAppend(lower, ms, Mention(name, entityType, description), k); }
    var key := NormalizeKey(lower, name);
    if key == "" {
      return nodes;
    }
    var input := if key in nodes then nodes[key] else NodeInput(Trim(name), None, None, None);
    if input.entityType.None? {
      input := input.(entityType := NormalizeOptional(entityType));
    }
    if input.description.None? {
      input := input.(description := NormalizeOptional(description));
    }
    merged := nodes[key := input];
  }

  /** The body of the fold's loop. */
  method AddElement(lower: Lower, batch: GraphWriteBatch, element: GraphElement, ghost seen: seq<GraphElement>)
    returns (added: GraphWriteBatch)
    requires BatchIs(lower, seen, batch)
    ensures BatchIs(lower, seen + [element], added)
  {
    hide NodesAre, EdgeFor, NormalizeKey, NormalizeOptional, Mentions, Trim;
    ghost var ms := Mentions(lower, seen);
    MentionsAppend(lower, seen, element);
    forall k { EdgeForAppend(lower, seen, element, k); }
    var nodes, edges := batch.nodes, batch.edges;
    match element {
      case Node(name, entityType, description) =>
        nodes := MergeNode(lower, nodes, name, entityType, description, ms);
      case Edge(relationship, source, target, description) =>
        var key := EdgeKey(NormalizeKey(lower, source), NormalizeKey(lower, target), NormalizeKey(lower, relationship));
        if key.source == "" || key.target == "" || key.relationship == "" {
          assert ms + [] == ms;
        } else {
          nodes := MergeNode(lower, nodes, source, None, None, ms);
          nodes := MergeNode(lower, nodes, target, None, None, ms + [Mention(source, None, None)]);
          assert ms + [Mention(source, None, None)] + [Mention(target, None, None)] == ms + MentionsOf(lower, element);
          if key !in edges {
            edges := edges[key :=
              EdgeInput(Trim(source), Trim(target), Trim(relationship), NormalizeOptional(description))];
          }
        }
    }
    added := GraphWriteBatch(nodes, edges);
  }

  /** The inner loop, over the elements of one chunk. */
  method AddElements(lower: Lower, batch: GraphWriteBatch, elements: seq<GraphElement>, ghost seen: seq<GraphElement>)
    returns (added: GraphWriteBatch)
    requires BatchIs(lower, seen, batch)
    ensures BatchIs(lower, seen + elements, added)
  {
    hide BatchIs;
    added := batch;
    assert seen + elements[..0] == seen;
    for j := 0 to |elements|
      invariant BatchIs(lower, seen + elements[..j], added)
    {
      assert seen + elements[..j] + [elements[j]] == seen + elements[..j + 1];
      added := AddElement(lower, added, elements[j], seen + elements[..j]);
    }
    assert elements[..|elements|] == elements;
  }

  method FromExtractions(lower: Lower, extractions: seq<(int, seq<GraphElement>)>) returns (batch: GraphWriteBatch)
    ensures BatchIs(lower, AllElements(extractions), batch)
  {
    batch := GraphWriteBatch(map[], map[]);
    assert BatchIs(lower, AllElements(extractions[..0]), batch);
    hide BatchIs;
    for i := 0 to |extractions|
      invariant BatchIs(lower, AllElements(extractions[..i]), batch)
    {
      assert extractions[..i] + [extractions[i]] == extractions[..i + 1];
      ElementsAppend(extractions[..i], extractions[i]);
      batch := AddElements(lower, batch, extractions[i].1, AllElements(extractions[..i]));
    }
    assert extractions[..|extractions|] == extractions;
  }

  lemma {:induction false} ElementsAppend(extractions: seq<(int, seq<GraphElement>)>, more: (int, seq<GraphElement>))
    ensures AllElements(extractions + [more]) == AllElements(extractions) + more.1
  {
    if extractions == [] {
      assert [more][1..] == [] && more.1 + [] == more.1;
    } else {
      assert (extractions + [more])[1..] == extractions[1..] + [more];
      ElementsAppend(extractions[1..], more);
    }
  }

  // ----- The batch against the elements -----

  /** A key without a mention has no attribute. */
  lemma {:induction false} NoNameNoAttribute(lower: Lower, ms: seq<Mention>, key: string, attribute: Attribute)
    requires First(lower, ms, key, Name).None?
    ensures First(lower, ms, key, attribute).None?
  {
    if ms != [] { NoNameNoAttribute(lower, ms[1..], key, attribute); }
  }

  lemma NodeForAppend(lower: Lower, ms: seq<Mention>, m: Mention, key: string)
    ensures key == "" || NormalizeKey(lower, m.name) != key ==>
              NodeFor(lower, ms + [m], key) == NodeFor(lower, ms, key)
    ensures key != "" && NormalizeKey(lower, m.name) == key ==>
              var before := NodeFor(lower, ms, key);
              var n := if before.Some? then before.value else NodeInput(Trim(m.name), None, None, None);
              NodeFor(lower, ms + [m], key)
              == Some(NodeInput(n.name, Or(n.entityType, NormalizeOptional(m.entityType)),
                                Or(n.description, NormalizeOptional(m.description)), n.embedding))
  {
    FirstAppend(lower, ms, m, key, Name);
    FirstAppend(lower, ms, m, key, EntityType);
    FirstAppend(lower, ms, m, key, Description);
    if First(lower, ms, key, Name).None? {
      NoNameNoAttribute(lower, ms, key, EntityType);
      NoNameNoAttribute(lower, ms, key, Description);
    }
  }

  lemma {:induction false} FirstIsMention(lower: Lower, ms: seq<Mention>, key: string, attribute: Attribute)
    ensures First(lower, ms, key, attribute).Some? <==>
            exists i | 0 <= i < |ms| :: NormalizeKey(lower, ms[i].name) == key && Get(ms[i], attribute).Some?
  {
    hide NormalizeKey, Get;
    if ms != [] {
      FirstIsMention(lower, ms[1..], key, attribute);
      assert forall i | 1 <= i < |ms| :: ms[i] == ms[1..][i - 1];
    }
  }

  /** The node keys are the non-empty normalised names of node elements and of the ends of kept
      edges, nothing else. */
  lemma NodeKeysAreMentioned(lower: Lower, es: seq<GraphElement>, batch: GraphWriteBatch, key: string)
    requires BatchIs(lower, es, batch)
    ensures key in batch.nodes <==> key != "" && exists e | e in es :: Mentioned(lower, e, key)
  {
    var ms := Mentions(lower, es);
    FirstIsMention(lower, ms, key, Name);
    MentionedInElements(lower, es, key);
    assert NodeFor(lower, ms, key) == if key in batch.nodes then Some(batch.nodes[key]) else None;
    assert (exists m :: m in ms && NormalizeKey(lower, m.name) == key)
      <==> exists i | 0 <= i < |ms| :: NormalizeKey(lower, ms[i].name) == key && Get(ms[i], Name).Some?;
  }

  predicate Mentioned(lower: Lower, e: GraphElement, key: string) {
    match e
    case Node(name, _, _) => NormalizeKey(lower, name) == key
    case Edge(_, _, _, _) => Kept(lower, e) && (KeyOf(lower, e).source == key || KeyOf(lower, e).target == key)
  }

  lemma {:induction false} MentionedInElements(lower: Lower, es: seq<GraphElement>, key: string)
    ensures (exists m :: m in Mentions(lower, es) && NormalizeKey(lower, m.name) == key)
       <==> exists e | e in es :: Mentioned(lower, e, key)
  {
    if es != [] {
      MentionedInElements(lower, es[1..], key);
      MentionedInElement(lower, es[0], key);
      hide MentionsOf, Mentioned, NormalizeKey;
      assert es == [es[0]] + es[1..];
    }
  }

  lemma MentionedInElement(lower: Lower, e: GraphElement, key: string)
    ensures (exists m :: m in MentionsOf(lower, e) && NormalizeKey(lower, m.name) == key) <==> Mentioned(lower, e, key)
  {
    match e {
      case Node(name, entityType, description) =>
        assert Mention(name, entityType, description) in MentionsOf(lower, e);
      case Edge(_, source, target, _) =>
        if Kept(lower, e) {
          assert Mention(source, None, None) in MentionsOf(lower, e);
          assert Mention(target, None, None) in MentionsOf(lower, e);
        }
    }
  }

  lemma {:induction false} FirstNameIsTrimmed(lower: Lower, ms: seq<Mention>, key: string)
    requires First(lower, ms, key, Name).Some?
    ensures var name := First(lower, ms, key, Name).value;
            Trim(name) == name && lower(name) == key
  {
    if NormalizeKey(lower, ms[0].name) == key {
      TrimIdempotent(ms[0].name);
    } else {
      FirstNameIsTrimmed(lower, ms[1..], key);
    }
  }

  lemma {:induction false} EdgeForIsKept(lower: Lower, es: seq<GraphElement>, key: EdgeKey)
    ensures EdgeFor(lower, es, key).Some? ==>
              && (exists e :: e in es && Kept(lower, e) && KeyOf(lower, e) == key)
              && var edge := EdgeFor(lower, es, key).value;
                 && Trim(edge.source) == edge.source && lower(edge.source) == key.source
                 && Trim(edge.target) == edge.target && lower(edge.target) == key.target
                 && lower(edge.relationship) == key.relationship
    ensures EdgeFor(lower, es, key).None? ==> forall e | e in es :: !(Kept(lower, e) && KeyOf(lower, e) == key)
  {
    if es != [] {
      var e := es[0];
      if Kept(lower, e) && KeyOf(lower, e) == key {
        TrimIdempotent(e.source);
        TrimIdempotent(e.target);
        TrimIdempotent(e.relationship);
        assert e in es;
      } else {
        EdgeForIsKept(lower, es[1..], key);
        hide Kept, KeyOf, Trim;
        assert es == [e] + es[1..];
      }
    }
  }

  /** What the statements that write the batch rely on. The stored names and relationships spell
      their keys, so no two rows of one statement share a conflict key, and the normalised ends of
      every edge are node keys, so no edge is dropped when node ids are looked up. */
  ghost predicate Writable(lower: Lower, batch: GraphWriteBatch) {
    && (forall k | k in batch.nodes ::
       k != "" && lower(batch.nodes[k].name) == k && NormalizeKey(lower, batch.nodes[k].name) == k)
    && (forall k | k in batch.edges ::
          && lower(batch.edges[k].relationship) == k.relationship
          && NormalizeKey(lower, batch.edges[k].source) == k.source && k.source in batch.nodes
          && NormalizeKey(lower, batch.edges[k].target) == k.target && k.target in batch.nodes)
  }

  lemma BatchIsWritable(lower: Lower, es: seq<GraphElement>, batch: GraphWriteBatch)
    requires BatchIs(lower, es, batch)
    ensures Writable(lower, batch)
  {
    hide Trim, NodesAre, EdgesAre;
    forall k | k in batch.nodes
      ensures k != "" && lower(batch.nodes[k].name) == k && NormalizeKey(lower, batch.nodes[k].name) == k
    {
      assert NodeFor(lower, Mentions(lower, es), k)
        == Some(batch.nodes[k]) by { NodesAreAt(lower, Mentions(lower, es), batch.nodes, k); }
      FirstNameIsTrimmed(lower, Mentions(lower, es), k);
    }
    forall k | k in batch.edges
      ensures lower(batch.edges[k].relationship) == k.relationship
      ensures NormalizeKey(lower, batch.edges[k].source) == k.source && k.source in batch.nodes
      ensures NormalizeKey(lower, batch.edges[k].target) == k.target && k.target in batch.nodes
    {
      assert EdgeFor(lower, es, k) == Some(batch.edges[k]) by { EdgesAreAt(lower, es, batch.edges, k); }
      EdgeForIsKept(lower, es, k);
      var e :| e in es && Kept(lower, e) && KeyOf(lower, e) == k;
      assert Mentioned(lower, e, k.source) && Mentioned(lower, e, k.target);
      NodeKeysAreMentioned(lower, es, batch, k.source);
      NodeKeysAreMentioned(lower, es, batch, k.target);
    }
  }

  lemma NodesAreAt(lower: Lower, ms: seq<Mention>, nodes: map<string, NodeInput>, k: string)
    requires NodesAre(lower, ms, nodes)
    ensures NodeFor(lower, ms, k) == if k in nodes then Some(nodes[k]) else None
  {
  }

  lemma EdgesAreAt(lower: Lower, es: seq<GraphElement>, edges: map<EdgeKey, EdgeInput>, k: EdgeKey)
    requires EdgesAre(lower, es, edges)
    ensures EdgeFor(lower, es, k) == if k in edges then Some(edges[k]) else None
  {
  }

  lemma {:induction false} FirstAppend(lower: Lower, ms: seq<Mention>, m: Mention, key: string, attribute: Attribute)
    ensures First(lower, ms + [m], key, attribute)
         == if First(lower, ms, key, attribute).Some? then First(lower, ms, key, attribute)
            else if NormalizeKey(lower, m.name) == key then Get(m, attribute) else None
  {
    if ms == [] {
      assert [m][1..] == [];
    } else {
      assert (ms + [m])[1..] == ms[1..] + [m];
      FirstAppend(lower, ms[1..], m, key, attribute);
    }
  }

  lemma {:induction false} MentionsAppend(lower: Lower, es: seq<GraphElement>, e: GraphElement)
    ensures Mentions(lower, es + [e]) == Mentions(lower, es) + MentionsOf(lower, e)
  {
    hide MentionsOf;
    if es == [] {
      assert [e][1..] == [] && MentionsOf(lower, e) + [] == MentionsOf(lower, e);
    } else {
      assert (es + [e])[1..] == es[1..] + [e];
      MentionsAppend(lower, es[1..], e);
    }
  }

  lemma {:induction false} EdgeForAppend(lower: Lower, es: seq<GraphElement>, e: GraphElement, key: EdgeKey)
    ensures EdgeFor(lower, es + [e], key)
         == if EdgeFor(lower, es, key).Some? then EdgeFor(lower, es, key)
            else if Kept(lower, e) && KeyOf(lower, e) == key then Some(EdgeFrom(e)) else None
  {
    hide Kept, KeyOf, EdgeFrom;
    if es == [] {
      assert [e][1..] == [];
    } else {
      assert (es + [e])[1..] == es[1..] + [e];
      EdgeForAppend(lower, es[1..], e, key);
    }
  }

  // ----- The batch, said of the elements -----

  /** What is absent, or nothing but whitespace, says nothing. */
  predicate Silent(value: Option<string>) {
    value.None? || Blank(value.value)
  }

  /** An optional text is kept, trimmed, exactly if it says something. */
  lemma NormalizedSays(value: Option<string>)
    ensures NormalizeOptional(value).None? <==> Silent(value)
    ensures !Silent(value) ==> NormalizeOptional(value) == Some(Trim(value.value))
  {
    if value.Some? { BlankIff(value.value); }
  }

  /** A node element under `key`. */
  predicate NodeElement(lower: Lower, e: GraphElement, key: string) {
    e.Node? && lower(Trim(e.name)) == key
  }

  function Stated(e: GraphElement, attribute: Attribute): Option<string>
    requires e.Node?
  {
    match attribute
    case Name => Some(e.name)
    case EntityType => e.entityType
    case Description => e.description
  }

  /** The first node element under `key` that says something of an attribute. */
  predicate FirstToSay(lower: Lower, es: seq<GraphElement>, key: string, attribute: Attribute, i: nat) {
    && i < |es| && NodeElement(lower, es[i], key) && !Silent(Stated(es[i], attribute))
    && forall j | 0 <= j < i && NodeElement(lower, es[j], key) :: Silent(Stated(es[j], attribute))
  }

  lemma FirstOfElement(lower: Lower, e: GraphElement, key: string, attribute: Attribute)
    requires attribute != Name
    ensures First(lower, MentionsOf(lower, e), key, attribute)
         == if NodeElement(lower, e, key) && !Silent(Stated(e, attribute)) then Some(Trim(Stated(e, attribute).value))
            else None
  {
    hide Trim;
    var ms := MentionsOf(lower, e);
    if e.Node? {
      NormalizedSays(Stated(e, attribute));
      assert ms[1..] == [];
    } else if Kept(lower, e) {
      assert ms[1..] == [Mention(e.target, None, None)] && ms[1..][1..] == [];
      assert First(lower, ms[1..][1..], key, attribute) == None && First(lower, ms[1..], key, attribute) == None;
    }
  }

  lemma {:induction false} FirstJoins(lower: Lower, a: seq<Mention>, b: seq<Mention>, key: string, attribute: Attribute)
    ensures First(lower, a + b, key, attribute)
         == if First(lower, a, key, attribute).Some? then First(lower, a, key, attribute)
            else First(lower, b, key, attribute)
  {
    hide Get, NormalizeKey;
    if a == [] {
      assert a + b == b;
    } else {
      assert (a + b)[1..] == a[1..] + b;
      FirstJoins(lower, a[1..], b, key, attribute);
    }
  }

  /** Said of the elements: an attribute is that of the first node element that says something of it. */
  lemma {:induction false} FirstIsFirstToSay(lower: Lower, es: seq<GraphElement>, key: string, attribute: Attribute)
    requires attribute != Name
    ensures var found := First(lower, Mentions(lower, es), key, attribute);
            && (found.Some? ==>
                  exists i: nat ::
                    FirstToSay(lower, es, key, attribute, i) && found == Some(Trim(Stated(es[i], attribute).value)))
            && (found.None? ==> forall e | e in es && NodeElement(lower, e, key) :: Silent(Stated(e, attribute)))
  {
    hide First, MentionsOf, Stated, Blank, Trim;
    if es == [] {
      NothingFirst(lower, key, attribute);
    } else {
      FirstOfElement(lower, es[0], key, attribute);
      FirstJoins(lower, MentionsOf(lower, es[0]), Mentions(lower, es[1..]), key, attribute);
      FirstIsFirstToSay(lower, es[1..], key, attribute);
      hide NodeElement;
      var found := First(lower, Mentions(lower, es), key, attribute);
      if NodeElement(lower, es[0], key) && !Silent(Stated(es[0], attribute)) {
        assert FirstToSay(lower, es, key, attribute, 0);
      } else if found.Some? {
        var i: nat :| FirstToSay(lower, es[1..], key, attribute, i)
                      && found == Some(Trim(Stated(es[1..][i], attribute).value));
        assert es[i + 1] == es[1..][i];
        forall j | 0 <= j < i + 1 && NodeElement(lower, es[j], key) ensures Silent(Stated(es[j], attribute)) {
          if j > 0 { assert es[j] == es[1..][j - 1]; }
        }
        assert FirstToSay(lower, es, key, attribute, i + 1);
      } else {
        assert es == [es[0]] + es[1..];
      }
    }
  }

  lemma NothingFirst(lower: Lower, key: string, attribute: Attribute)
    ensures First(lower, Mentions(lower, []), key, attribute).None?
  {
  }

  /** The type and the description of a node are those of the first node element under its key that
      gives one that is not blank, trimmed; there is none if no element gives one. Ends of edges give a
      name only. */
  lemma AttributesAreTheFirstSaid(lower: Lower, es: seq<GraphElement>, batch: GraphWriteBatch, key: string)
    requires BatchIs(lower, es, batch) && key in batch.nodes
    ensures var n := batch.nodes[key];
            && (n.entityType.Some? ==>
                  exists i: nat ::
                    FirstToSay(lower, es, key, EntityType, i) && n.entityType == Some(Trim(es[i].entityType.value)))
            && (n.entityType.None? ==> forall e | e in es && NodeElement(lower, e, key) :: Silent(e.entityType))
            && (n.description.Some? ==>
                  exists i: nat ::
                    FirstToSay(lower, es, key, Description, i) && n.description == Some(Trim(es[i].description.value)))
            && (n.description.None? ==> forall e | e in es && NodeElement(lower, e, key) :: Silent(e.description))
            && n.embedding == None
  {
    hide First, Mentions, Trim;
    NodesAreAt(lower, Mentions(lower, es), batch.nodes, key);
    FirstIsFirstToSay(lower, es, key, EntityType);
    FirstIsFirstToSay(lower, es, key, Description);
  }

  /** The names under which an element speaks of nodes, in the order in which they count. */
  function NamesIn(lower: Lower, e: GraphElement): seq<string> {
    match e
    case Node(name, _, _) => [name]
    case Edge(_, source, target, _) => if KeptEdge(lower, e) then [source, target] else []
  }

  /** An edge with both ends and a relationship. */
  predicate KeptEdge(lower: Lower, e: GraphElement) {
    e.Edge? && lower(Trim(e.source)) != "" && lower(Trim(e.target)) != "" && lower(Trim(e.relationship)) != ""
  }

  function AllNames(lower: Lower, es: seq<GraphElement>): seq<string> {
    if es == [] then [] else NamesIn(lower, es[0]) + AllNames(lower, es[1..])
  }

  lemma {:induction false} NamesAreMentions(lower: Lower, es: seq<GraphElement>)
    ensures var ms, names := Mentions(lower, es), AllNames(lower, es);
            |ms| == |names| && forall i | 0 <= i < |ms| :: ms[i].name == names[i]
  {
    hide Trim;
    if es != [] { NamesAreMentions(lower, es[1..]); }
  }

  lemma {:induction false} FirstNameIs(lower: Lower, ms: seq<Mention>, key: string)
    ensures var found := First(lower, ms, key, Name);
            found.Some? ==>
              exists i: nat :: i < |ms| && lower(Trim(ms[i].name)) == key && found == Some(Trim(ms[i].name))
                               && forall j | 0 <= j < i :: lower(Trim(ms[j].name)) != key
  {
    hide Trim;
    if ms != [] && NormalizeKey(lower, ms[0].name) != key {
      FirstNameIs(lower, ms[1..], key);
      var found := First(lower, ms[1..], key, Name);
      if found.Some? {
        var i: nat :| i < |ms[1..]| && lower(Trim(ms[1..][i].name)) == key && found == Some(Trim(ms[1..][i].name))
                      && forall j | 0 <= j < i :: lower(Trim(ms[1..][j].name)) != key;
        assert ms[i + 1] == ms[1..][i];
        forall j | 0 <= j < i + 1 ensures lower(Trim(ms[j].name)) != key {
          if j > 0 { assert ms[j] == ms[1..][j - 1]; }
        }
      }
    }
  }

  /** A node is named as it was first spoken of, by a node element or by an end of a kept edge, source
      before target. */
  lemma NameIsTheFirstSpoken(lower: Lower, es: seq<GraphElement>, batch: GraphWriteBatch, key: string)
    requires BatchIs(lower, es, batch) && key in batch.nodes
    ensures var names := AllNames(lower, es);
            exists i: nat :: i < |names| && lower(Trim(names[i])) == key && batch.nodes[key].name == Trim(names[i])
                             && forall j | 0 <= j < i :: lower(Trim(names[j])) != key
  {
    hide First, Mentions, AllNames, Trim;
    var ms, names := Mentions(lower, es), AllNames(lower, es);
    NodesAreAt(lower, ms, batch.nodes, key);
    FirstNameIs(lower, ms, key);
    NamesAreMentions(lower, es);
    var i: nat :| i < |ms| && lower(Trim(ms[i].name)) == key && batch.nodes[key].name == Trim(ms[i].name)
                  && forall j | 0 <= j < i :: lower(Trim(ms[j].name)) != key;
    assert names[i] == ms[i].name;
    forall j | 0 <= j < i ensures lower(Trim(names[j])) != key { assert names[j] == ms[j].name; }
  }

  /** A kept edge element under `key`. */
  predicate EdgeElement(lower: Lower, e: GraphElement, key: EdgeKey) {
    && KeptEdge(lower, e) && lower(Trim(e.source)) == key.source && lower(Trim(e.target)) == key.target
    && lower(Trim(e.relationship)) == key.relationship
  }

  /** An edge is the first kept element under its key, trimmed, with its description unless that is
      blank; and every kept element has its key in the batch. */
  lemma EdgesAreTheFirstSaid(lower: Lower, es: seq<GraphElement>, batch: GraphWriteBatch, key: EdgeKey)
    requires BatchIs(lower, es, batch)
    ensures key in batch.edges <==> exists e :: e in es && EdgeElement(lower, e, key)
    ensures key in batch.edges ==>
              exists i: nat :: i < |es| && EdgeElement(lower, es[i], key) && IsEdgeOf(batch.edges[key], es[i])
                               && forall j | 0 <= j < i :: !EdgeElement(lower, es[j], key)
  {
    hide EdgeFor, Trim;
    EdgesAreAt(lower, es, batch.edges, key);
    EdgeForIsFirst(lower, es, key);
    if key in batch.edges {
      var i: nat :| i < |es| && EdgeElement(lower, es[i], key) && IsEdgeOf(batch.edges[key], es[i])
                    && forall j | 0 <= j < i :: !EdgeElement(lower, es[j], key);
      assert es[i] in es;
    }
  }

  predicate IsEdgeOf(edge: EdgeInput, e: GraphElement) {
    && e.Edge? && edge.source == Trim(e.source) && edge.target == Trim(e.target)
    && edge.relationship == Trim(e.relationship)
    && (Silent(e.description) ==> edge.description == None)
    && (!Silent(e.description) ==> edge.description == Some(Trim(e.description.value)))
  }

  lemma {:induction false} EdgeForIsFirst(lower: Lower, es: seq<GraphElement>, key: EdgeKey)
    ensures var found := EdgeFor(lower, es, key);
            && (found.None? <==> forall e | e in es :: !EdgeElement(lower, e, key))
            && (found.Some? ==>
                  exists i: nat :: i < |es| && EdgeElement(lower, es[i], key) && IsEdgeOf(found.value, es[i])
                                   && forall j | 0 <= j < i :: !EdgeElement(lower, es[j], key))
  {
    hide Trim, NormalizeOptional, Silent;
    if es != [] {
      assert EdgeElement(lower, es[0], key) <==> Kept(lower, es[0]) && KeyOf(lower, es[0]) == key;
      if EdgeElement(lower, es[0], key) {
        NormalizedSays(es[0].description);
        assert IsEdgeOf(EdgeFrom(es[0]), es[0]);
        assert es[0] in es;
      } else {
        EdgeForIsFirst(lower, es[1..], key);
        hide EdgeElement, IsEdgeOf, Kept, KeyOf;
        var found := EdgeFor(lower, es[1..], key);
        assert es == [es[0]] + es[1..];
        if found.Some? {
          var i: nat :| i < |es[1..]| && EdgeElement(lower, es[1..][i], key) && IsEdgeOf(found.value, es[1..][i])
                        && forall j | 0 <= j < i :: !EdgeElement(lower, es[1..][j], key);
          assert es[i + 1] == es[1..][i] && es[i + 1] in es;
          forall j | 0 <= j < i + 1 ensures !EdgeElement(lower, es[j], key) {
            if j > 0 { assert es[j] == es[1..][j - 1]; }
          }
        }
      }
    }
  }

  /** The elements of every chunk are all there, in the order of the chunks. */
  lemma {:induction false} ChunksAreInOrder(extractions: seq<(int, seq<GraphElement>)>, i: nat)
    requires i < |extractions|
    ensures AllElements(extractions)
         == AllElements(extractions[..i]) + extractions[i].1 + AllElements(extractions[i + 1..])
  {
    if i == 0 {
      assert extractions[..0] == [] && [] + extractions[0].1 == extractions[0].1;
    } else {
      ChunksAreInOrder(extractions[1..], i - 1);
      assert extractions[1..][..i - 1] == extractions[..i][1..] && extractions[1..][i..] == extractions[i + 1..];
      var a, b := AllElements(extractions[..i][1..]), AllElements(extractions[i + 1..]);
      assert extractions[0].1 + (a + extractions[i].1 + b) == extractions[0].1 + a + extractions[i].1 + b;
    }
  }
}
