/** The embedding backfill loop (gmrag_api/src/ingestion/backfill_node_embeddings.rs:126-288, 344-364).

    Other writers may fill embeddings before any statement, but add, remove and clear none. Ids stand
    for UUIDs in their order. */
module Backfill {
  import opened Wrappers
  import opened Collections

  type Id = nat
  type Vector = seq<real>

  datatype Node = Node(workspace: Id, text: string, embedding: Option<Vector>)

  datatype Options = Options(allowApply: bool, workspace: Option<Id>, batchSize: nat)

  /** How a statement ended; a failed one may have been applied. */
  datatype Reply = Done | Failed(applied: bool)

  type Embedder = (nat, seq<string>) -> Result<seq<Result<Vector, string>>, string>

  datatype Report = Report(found: nat, updated: nat, skipped: nat, errors: nat)

  predicate InScope(n: Node, workspace: Option<Id>) {
    workspace == None || workspace == Some(n.workspace)
  }

  /** Rows that a fetch may return. */
  function Candidates(nodes: map<Id, Node>, workspace: Option<Id>, excluded: set<Id>): set<Id> {
    set id | id in nodes && nodes[id].embedding.None? && InScope(nodes[id], workspace) && id !in excluded
  }

  /** `ORDER BY workspace_id, id`. */
  predicate Precedes(nodes: map<Id, Node>, i: Id, j: Id)
    requires i in nodes && j in nodes
  {
    nodes[i].workspace < nodes[j].workspace || (nodes[i].workspace == nodes[j].workspace && i < j)
  }

  /** `ids` are the first `limit` rows of `all`, in order. */
  predicate FirstOf(nodes: map<Id, Node>, all: set<Id>, limit: nat, ids: seq<Id>)
    requires all <= nodes.Keys
  {
    && Distinct(ids) && Elements(ids) <= all && |ids| == (if |all| <= limit then |all| else limit)
    && (forall a, b | 0 <= a < b < |ids| :: Precedes(nodes, ids[a], ids[b]))
    && forall a, j | 0 <= a < |ids| && j in all - Elements(ids) :: Precedes(nodes, ids[a], j)
  }

  /** A scope narrows the empty rows to those of its workspace. */
  lemma ScopesNarrow(nodes: map<Id, Node>, workspace: Id, excluded: set<Id>)
    ensures Candidates(nodes, Some(workspace), excluded)
         == set id | id in Candidates(nodes, None, excluded) && nodes[id].workspace == workspace
    ensures Candidates(nodes, None, excluded) + excluded >= set id | id in nodes && nodes[id].embedding.None?
    ensures forall id | id in Candidates(nodes, None, excluded) ::
        id in nodes && id !in excluded && nodes[id].embedding == None
  {
  }

  /** A batch goes through the workspaces in order and through the rows of each in order, and leaves out
      no row that belongs between two of its own. */
  lemma BatchIsOrdered(nodes: map<Id, Node>, all: set<Id>, limit: nat, ids: seq<Id>)
    requires all <= nodes.Keys && FirstOf(nodes, all, limit, ids)
    ensures forall a, b | 0 <= a < b < |ids| ::
        nodes[ids[a]].workspace < nodes[ids[b]].workspace
        || (nodes[ids[a]].workspace == nodes[ids[b]].workspace && ids[a] < ids[b])
    ensures forall a, j | 0 <= a < |ids| && j in all && j !in ids ::
        nodes[ids[a]].workspace < nodes[j].workspace || (nodes[ids[a]].workspace == nodes[j].workspace && ids[a] < j)
  {
    forall a, j | 0 <= a < |ids| && j in all && j !in ids ensures Precedes(nodes, ids[a], j) {
      assert j in all - Elements(ids);
    }
  }

  lemma {:induction false} FindFirst(nodes: map<Id, Node>, ids: set<Id>) returns (m: Id)
    requires ids != {} && ids <= nodes.Keys
    ensures m in ids && forall j | j in ids && j != m :: Precedes(nodes, m, j)
  {
    m :| m in ids;
    var rest := ids - {m};
    if rest != {} {
      var n := FindFirst(nodes, rest);
      if Precedes(nodes, n, m) { m := n; }
    }
    assert forall j | j in ids :: j in rest || j in ids - rest;
  }

  lemma CandidatesAreRows(nodes: map<Id, Node>, workspace: Option<Id>, excluded: set<Id>)
    ensures Candidates(nodes, workspace, excluded) <= nodes.Keys
  {
  }

  lemma NothingInOrder(nodes: map<Id, Node>, all: set<Id>)
    requires all <= nodes.Keys
    ensures FirstOf(nodes, all, 0, []) && Elements<Id>([]) == {}
  {
  }

  lemma WholeOrder(nodes: map<Id, Node>, all: set<Id>, ids: seq<Id>, limit: nat)
    requires all <= nodes.Keys && FirstOf(nodes, all, |ids|, ids) && |ids| <= limit
    requires all - Elements(ids) == {} || |ids| == limit
    ensures FirstOf(nodes, all, limit, ids)
  {
    DistinctHasSize(ids);
    if all - Elements(ids) == {} { assert all == Elements(ids) + (all - Elements(ids)); }
  }

  /** One more row in order. */
  lemma NextInOrder(nodes: map<Id, Node>, all: set<Id>, ids: seq<Id>, rest: set<Id>, id: Id)
    requires all <= nodes.Keys && FirstOf(nodes, all, |ids|, ids) && rest == all - Elements(ids) && id in rest
    requires forall j | j in rest && j != id :: Precedes(nodes, id, j)
    ensures FirstOf(nodes, all, |ids| + 1, ids + [id]) && rest - {id} == all - Elements(ids + [id])
  {
    hide Precedes;
    ElementsAppend(ids, [id]);
    assert Elements([id]) == {id} && Distinct([id]);
    DistinctAppend(ids, [id]);
    DistinctHasSize(ids + [id]);
    SubsetSize(Elements(ids + [id]), all);
    var more := ids + [id];
    forall a, j | 0 <= a < |more| && j in all - Elements(more) ensures Precedes(nodes, more[a], j) {
      assert j in rest && j != id;
      assert more[a] == if a < |ids| then ids[a] else id;
    }
  }

  /** Another writer's `UPDATE ... WHERE embedding IS NULL`. */
  function Filled(nodes: map<Id, Node>, vectors: map<Id, Vector>): map<Id, Node> {
    map id | id in nodes ::
      if id in vectors && nodes[id].embedding.None? then nodes[id].(embedding := Some(vectors[id])) else nodes[id]
  }

  /** The embedder gave `v` for `text`, in some round and at the text's own place. */
  ghost predicate EmbeddedBy(embed: Embedder, text: string, v: Vector) {
    exists round: nat, texts: seq<string>, k: nat ::
      && k < |texts| && texts[k] == text && embed(round, texts).Ok?
      && |embed(round, texts).value| == |texts| && embed(round, texts).value[k] == Ok(v)
  }

  /** The embedder gave nothing for `text`, in some round and at the text's own place. */
  ghost predicate RefusedBy(embed: Embedder, text: string) {
    exists round: nat, texts: seq<string>, k: nat ::
      k < |texts| && texts[k] == text
      && !(embed(round, texts).Ok? && |embed(round, texts).value| == |texts| && embed(round, texts).value[k].Ok?)
  }

  /** Every error has a cause: the embedder refused the row's text, or a statement failed. */
  ghost predicate Caused(before: map<Id, Node>, errors: set<Id>, embed: Embedder, replies: nat -> Reply) {
    forall id | id in errors ::
      id in before && (RefusedBy(embed, before[id].text) || exists call :: replies(call).Failed?)
  }

  ghost predicate Faultless(embed: Embedder) {
    forall round, texts ::
      && embed(round, texts).Ok? && |embed(round, texts).value| == |texts|
      && forall k | 0 <= k < |texts| :: embed(round, texts).value[k].Ok?
  }

  ghost predicate FilledByOther(others: nat -> map<Id, Vector>, id: Id, v: Vector) {
    exists call :: id in others(call) && others(call)[id] == v
  }

  /** How a row may have come to be what it is: unchanged, or filled for the first time. */
  ghost predicate Explained(before: Node, now: Node, id: Id, workspace: Option<Id>, embed: Embedder,
          others: nat -> map<Id, Vector>) {
    || now == before
    || (before.embedding.None? && now.embedding.Some? && now == before.(embedding := now.embedding)
        && ((InScope(before, workspace) && EmbeddedBy(embed, before.text, now.embedding.value))
            || FilledByOther(others, id, now.embedding.value)))
  }

  /** What became of the rows that were found: each is in one of these sets, or still to be done. */
  datatype Ledger = Ledger(updated: set<Id>, skipped: set<Id>, errors: set<Id>, others: set<Id>) {
    function All(): set<Id> {
      updated + skipped + errors + others
    }

    predicate Disjoint() {
      && updated !! skipped && updated !! errors && updated !! others
      && skipped !! errors && skipped !! others && errors !! others
    }
  }

  lemma LedgerSize(l: Ledger)
    requires l.Disjoint()
    ensures |l.All()| == |l.updated| + |l.skipped| + |l.errors| + |l.others|
  {
  }

  // ----- What the loop maintains -----

  ghost predicate AllExplained(before: map<Id, Node>, nodes: map<Id, Node>, workspace: Option<Id>, embed: Embedder,
          others: nat -> map<Id, Vector>) {
    nodes.Keys == before.Keys && forall id | id in nodes ::
      Explained(before[id], nodes[id], id, workspace, embed, others)
  }

  /** The books balance: a found row is settled, in the batch at hand, or still a candidate. */
  predicate Balanced(nodes: map<Id, Node>, workspace: Option<Id>, found: set<Id>, l: Ledger, pending: set<Id>) {
    && l.Disjoint() && l.All() !! pending && l.All() + pending <= found <= nodes.Keys
    && Candidates(nodes, workspace, l.errors + pending) == found - l.All() - pending
  }

  ghost predicate Quiet(others: nat -> map<Id, Vector>) {
    forall call :: others(call) == map[]
  }

  ghost predicate Honest(replies: nat -> Reply) {
    forall call :: replies(call).Failed? ==> !replies(call).applied
  }

  predicate Empty(nodes: map<Id, Node>, ids: set<Id>) {
    forall id | id in ids :: id in nodes && nodes[id].embedding.None?
  }

  /** Without other writers, pending rows are still empty, and so are failed ones unless a failed
      statement was applied. */
  ghost predicate QuietlyExact(nodes: map<Id, Node>, l: Ledger, pending: set<Id>, replies: nat -> Reply,
          others: nat -> map<Id, Vector>) {
    && (Quiet(others) ==> l.skipped == {} && l.others == {} && Empty(nodes, pending))
    && (Quiet(others) && Honest(replies) ==> Empty(nodes, l.errors))
  }

  lemma FillIsExplained(before: map<Id, Node>, nodes: map<Id, Node>, workspace: Option<Id>, embed: Embedder,
          others: nat -> map<Id, Vector>, call: nat)
    requires AllExplained(before, nodes, workspace, embed, others)
    ensures AllExplained(before, Filled(nodes, others(call)), workspace, embed, others)
  {
    hide EmbeddedBy;
    var now := Filled(nodes, others(call));
    forall id | id in now ensures Explained(before[id], now[id], id, workspace, embed, others) {
      assert Explained(before[id], nodes[id], id, workspace, embed, others);
      if now[id] != nodes[id] { assert FilledByOther(others, id, now[id].embedding.value); }
    }
  }

  /** Rows that other writers took out of the candidates. */
  function Lost(nodes: map<Id, Node>, vectors: map<Id, Vector>, workspace: Option<Id>, excluded: set<Id>): set<Id> {
    Candidates(nodes, workspace, excluded) - Candidates(Filled(nodes, vectors), workspace, excluded)
  }

  lemma FillKeepsBalance(nodes: map<Id, Node>, workspace: Option<Id>, found: set<Id>, l: Ledger, pending: set<Id>,
          vectors: map<Id, Vector>)
    requires Balanced(nodes, workspace, found, l, pending)
    ensures Balanced(Filled(nodes, vectors), workspace, found,
                     l.(others := l.others + Lost(nodes, vectors, workspace, l.errors + pending)), pending)
  {
    var now := Filled(nodes, vectors);
    var lost := Lost(nodes, vectors, workspace, l.errors + pending);
    assert Candidates(now, workspace, l.errors + pending) == Candidates(nodes, workspace, l.errors + pending) - lost;
    hide Candidates, Filled;
  }

  /** One row of the batch is settled: filled, found filled, or given up. */
  lemma SettlingKeepsBalance(nodes: map<Id, Node>, workspace: Option<Id>, found: set<Id>, l: Ledger, pending: set<Id>,
                             id: Id, row: Node, now: Ledger)
    requires Balanced(nodes, workspace, found, l, pending) && id in pending && id in nodes
    requires row == nodes[id].(embedding := row.embedding)
    requires || (now == l.(updated := l.updated + {id}) && row.embedding.Some?)
             || (now == l.(skipped := l.skipped + {id}) && row.embedding.Some?)
             || now == l.(errors := l.errors + {id})
    ensures Balanced(nodes[id := row], workspace, found, now, pending - {id})
  {
    var after := nodes[id := row];
    assert now.errors + (pending - {id}) == l.errors + pending
        || now.errors + (pending - {id}) == l.errors + pending - {id};
    assert Candidates(after, workspace, now.errors + (pending - {id}))
      == Candidates(nodes, workspace, l.errors + pending);
    hide Candidates;
  }

  /** A fetch moves candidates into the batch. */
  lemma FetchingKeepsBalance(nodes: map<Id, Node>, workspace: Option<Id>, found: set<Id>, l: Ledger, batch: set<Id>)
    requires Balanced(nodes, workspace, found, l, {}) && batch <= Candidates(nodes, workspace, l.errors)
    ensures Balanced(nodes, workspace, found, l, batch) && Empty(nodes, batch)
  {
    assert l.errors + {} == l.errors;
    assert Candidates(nodes, workspace, l.errors + batch) == Candidates(nodes, workspace, l.errors) - batch;
  }

  /** The report counts what the ledger holds. */
  ghost predicate Counted(report: Report, l: Ledger) {
    report.updated == |l.updated| && report.skipped == |l.skipped| && report.errors == |l.errors|
  }

  /** The rows of a batch from position `i` on. */
  function Rest(batch: seq<Id>, i: nat): set<Id>
    requires i <= |batch|
  {
    Elements(batch[i..])
  }

  lemma RestUnfolds(batch: seq<Id>, i: nat)
    requires i < |batch| && Distinct(batch)
    ensures batch[i] in Rest(batch, i) && Rest(batch, i + 1) == Rest(batch, i) - {batch[i]}
  {
    assert batch[i..] == [batch[i]] + batch[i + 1..];
    assert batch[i] !in batch[i + 1..];
  }

  lemma NoneLeft(batch: seq<Id>)
    ensures Rest(batch, |batch|) == {}
  {
  }

  lemma OneMoreCounted(l: Ledger, id: Id)
    requires id !in l.All()
    ensures |l.updated + {id}| == |l.updated| + 1 && |l.skipped + {id}| == |l.skipped| + 1
        && |l.errors + {id}| == |l.errors| + 1
  {
  }

  lemma SameCounts(report: Report, last: Ledger, l: Ledger)
    requires Counted(report, last) && l == last.(others := l.others)
    ensures Counted(report, l)
  {
  }

  lemma RoundShrinks(found: set<Id>, last: Ledger, mid: Ledger, l: Ledger, batch: seq<Id>)
    requires mid == last.(others := mid.others) && last.others <= mid.others && mid.All() + Rest(batch, 0) <= l.All()
    requires batch != [] && Rest(batch, 0) !! mid.All() && Rest(batch, 0) <= found
    ensures found - l.All() < found - last.All()
  {
    assert batch[0..] == batch;
    assert batch[0] in Rest(batch, 0);
  }

  lemma AllSettled(nodes: map<Id, Node>, workspace: Option<Id>, found: set<Id>, l: Ledger)
    requires Balanced(nodes, workspace, found, l, {}) && Candidates(nodes, workspace, l.errors) == {}
    ensures l.Disjoint() && l.All() == found
  {
    hide Candidates;
    assert l.errors + {} == l.errors;
  }

  lemma NothingSkipped(nodes: map<Id, Node>, l: Ledger, replies: nat -> Reply, others: nat -> map<Id, Vector>)
    requires QuietlyExact(nodes, l, {}, replies, others) && Quiet(others)
    ensures l.skipped == {} && l.others == {}
  {
  }

  lemma OnlyErrorsRemain(nodes: map<Id, Node>, workspace: Option<Id>, errors: set<Id>)
    requires Candidates(nodes, workspace, errors) == {}
    ensures Candidates(nodes, workspace, {}) <= errors
  {
    forall id | id in Candidates(nodes, workspace, {}) ensures id in errors {
      assert id !in Candidates(nodes, workspace, errors);
    }
  }

  lemma PendingIsOpen(nodes: map<Id, Node>, workspace: Option<Id>, found: set<Id>, l: Ledger, pending: set<Id>, id: Id)
    requires Balanced(nodes, workspace, found, l, pending) && id in pending
    ensures id !in l.All() && id in nodes && id in found
  {
  }

  lemma GivingUpIsExact(nodes: map<Id, Node>, l: Ledger, pending: set<Id>, id: Id, replies: nat -> Reply,
          others: nat -> map<Id, Vector>)
    requires QuietlyExact(nodes, l, pending, replies, others) && id in pending
    ensures QuietlyExact(nodes, l.(errors := l.errors + {id}), pending - {id}, replies, others)
  {
  }

  /** A row that a statement settled: written or not, counted as the statement said. */
  lemma SettlingIsExact(nodes: map<Id, Node>, l: Ledger, pending: set<Id>, id: Id, row: Node, reply: Reply,
          now: Ledger, replies: nat -> Reply, others: nat -> map<Id, Vector>)
    requires QuietlyExact(nodes, l, pending, replies, others) && id in pending && id in nodes
    requires row == nodes[id] || (nodes[id].embedding.None? && (reply.Done? || reply.applied))
    requires now == if reply.Failed? then l.(errors := l.errors + {id})
                    else if nodes[id].embedding.None? then l.(updated := l.updated + {id})
                    else l.(skipped := l.skipped + {id})
    requires (exists call :: replies(call) == reply) && l.errors !! {id}
    ensures QuietlyExact(nodes[id := row], now, pending - {id}, replies, others)
  {
    hide Quiet;
  }

  lemma WritingIsExplained(before: map<Id, Node>, nodes: map<Id, Node>, workspace: Option<Id>, embed: Embedder,
          others: nat -> map<Id, Vector>, id: Id, v: Vector)
    requires AllExplained(before, nodes, workspace, embed, others) && id in Candidates(before, workspace, {})
    requires EmbeddedBy(embed, before[id].text, v) && nodes[id].embedding.None?
    ensures AllExplained(before, nodes[id := nodes[id].(embedding := Some(v))], workspace, embed, others)
  {
    hide EmbeddedBy, FilledByOther;
    assert Explained(before[id], nodes[id], id, workspace, embed, others);
  }

  lemma EmbedderRefused(embed: Embedder, round: nat, texts: seq<string>, k: nat)
    requires k < |texts|
    requires !(embed(round, texts).Ok? && |embed(round, texts).value| == |texts| && embed(round, texts).value[k].Ok?)
    ensures RefusedBy(embed, texts[k])
  {
  }

  lemma NothingCaused(before: map<Id, Node>, embed: Embedder, replies: nat -> Reply)
    ensures Caused(before, {}, embed, replies)
  {
  }

  lemma OneMoreCause(before: map<Id, Node>, errors: set<Id>, id: Id, embed: Embedder, replies: nat -> Reply)
    requires Caused(before, errors, embed, replies) && id in before
    requires RefusedBy(embed, before[id].text) || exists call :: replies(call).Failed?
    ensures Caused(before, errors + {id}, embed, replies)
  {
    hide RefusedBy;
  }

  lemma NoCauseNoError(before: map<Id, Node>, errors: set<Id>, embed: Embedder, replies: nat -> Reply)
    requires Caused(before, errors, embed, replies) && Faultless(embed) && forall call :: replies(call).Done?
    ensures errors == {}
  {
    if id :| id in errors {
      assert RefusedBy(embed, before[id].text);
    }
  }

  lemma EmbedderGave(embed: Embedder, round: nat, texts: seq<string>, k: nat, v: Vector)
    requires k < |texts| && embed(round, texts).Ok? && |embed(round, texts).value| == |texts|
        && embed(round, texts).value[k] == Ok(v)
    ensures EmbeddedBy(embed, texts[k], v)
  {
  }

  class GraphNodes {
    var nodes: map<Id, Node>
    var calls: nat
    const replies: nat -> Reply
    const others: nat -> map<Id, Vector>
    const embed: Embedder

    constructor (nodes: map<Id, Node>, replies: nat -> Reply, others: nat -> map<Id, Vector>, embed: Embedder)
      ensures this.nodes == nodes && this.replies == replies && this.others == others && this.embed == embed
          && calls == 0
    {
      this.nodes, this.replies, this.others, this.embed, calls := nodes, replies, others, embed, 0;
    }

    ghost predicate Good(before: map<Id, Node>, workspace: Option<Id>, l: Ledger, pending: set<Id>) reads this {
      && AllExplained(before, nodes, workspace, embed, others)
      && Balanced(nodes, workspace, Candidates(before, workspace, {}), l, pending)
      && QuietlyExact(nodes, l, pending, replies, others) && Caused(before, l.errors, embed, replies)
    }

    /** A statement begins: other writers may have been first. */
    method Begin(ghost before: map<Id, Node>, workspace: Option<Id>, ghost l: Ledger, ghost pending: set<Id>)
      returns (r: Reply, ghost now: Ledger)
      requires Good(before, workspace, l, pending)
      modifies this
      ensures Good(before, workspace, now, pending) && now == l.(others := now.others) && l.others <= now.others
      ensures r == replies(old(calls)) && calls == old(calls) + 1
    {
      r := replies(calls);
      FillIsExplained(before, nodes, workspace, embed, others, calls);
      FillKeepsBalance(nodes, workspace, Candidates(before, workspace, {}), l, pending, others(calls));
      now := l.(others := l.others + Lost(nodes, others(calls), workspace, l.errors + pending));
      assert Quiet(others) ==> Filled(nodes, others(calls)) == nodes;
      nodes := Filled(nodes, others(calls));
      calls := calls + 1;
    }

    /** `update_node_embedding`: only an empty row is written. None is a database error. */
    method UpdateNodeEmbedding(id: Id, v: Vector, ghost before: map<Id, Node>, workspace: Option<Id>, ghost l: Ledger,
            ghost pending: set<Id>)
      returns (r: Option<bool>, ghost now: Ledger)
      requires Good(before, workspace, l, pending) && id in pending && id in before
          && EmbeddedBy(embed, before[id].text, v)
      modifies this
      ensures l.others <= now.others
      ensures match r
              case None => now == l.(others := now.others, errors := l.errors + {id})
              case Some(updated) =>
                if updated then now == l.(others := now.others, updated := l.updated + {id})
                else now == l.(others := now.others, skipped := l.skipped + {id})
      ensures Good(before, workspace, now, pending - {id})
    {
      hide EmbeddedBy, RefusedBy, Caused, AllExplained, Balanced, QuietlyExact, Candidates;
      ghost var found := Candidates(before, workspace, {});
      var reply;
      reply, now := Begin(before, workspace, l, pending);
      PendingIsOpen(nodes, workspace, found, now, pending, id);
      var row := nodes[id];
      var empty := row.embedding.None?;
      if empty && (reply.Done? || reply.applied) {
        WritingIsExplained(before, nodes, workspace, embed, others, id, v);
        row := row.(embedding := Some(v));
      }
      ghost var mid := now;
      if reply.Failed? {
        r := None;
        OneMoreCause(before, now.errors, id, embed, replies);
        now := now.(errors := now.errors + {id});
      } else {
        r := Some(empty);
        now := if empty then now.(updated := now.updated + {id}) else now.(skipped := now.skipped + {id});
      }
      SettlingKeepsBalance(nodes, workspace, found, mid, pending, id, row, now);
      SettlingIsExact(nodes, mid, pending, id, row, reply, now, replies, others);
      assert nodes[id := nodes[id]] == nodes;
      nodes := nodes[id := row];
    }

    lemma GivingUpIsGood(id: Id, before: map<Id, Node>, workspace: Option<Id>, l: Ledger, pending: set<Id>)
      requires Good(before, workspace, l, pending) && id in pending
      requires id in before && RefusedBy(embed, before[id].text)
      ensures id !in l.All() && Good(before, workspace, l.(errors := l.errors + {id}), pending - {id})
    {
      hide AllExplained, Balanced, QuietlyExact, Candidates, Caused, RefusedBy;
      var now := l.(errors := l.errors + {id});
      OneMoreCause(before, l.errors, id, embed, replies);
      GivingUpIsExact(nodes, l, pending, id, replies, others);
      PendingIsOpen(nodes, workspace, Candidates(before, workspace, {}), l, pending, id);
      SettlingKeepsBalance(nodes, workspace, Candidates(before, workspace, {}), l, pending, id, nodes[id], now);
      assert nodes[id := nodes[id]] == nodes;
    }

    /** `record_node_error`. */
    method RecordNodeError(id: Id, report: Report, excluded: set<Id>, ghost before: map<Id, Node>,
            workspace: Option<Id>, ghost l: Ledger, ghost pending: set<Id>)
      returns (counts: Report, exclude: set<Id>, ghost now: Ledger)
      requires Good(before, workspace, l, pending) && id in pending && Counted(report, l) && excluded == l.errors
      requires id in before && RefusedBy(embed, before[id].text)
      ensures Good(before, workspace, now, pending - {id}) && Counted(counts, now) && exclude == now.errors
      ensures now == l.(errors := l.errors + {id}) && counts.found == report.found
    {
      hide Good, RefusedBy;
      GivingUpIsGood(id, before, workspace, l, pending);
      OneMoreCounted(l, id);
      counts := report.(errors := report.errors + 1);
      exclude := excluded + {id};
      now := l.(errors := l.errors + {id});
    }

    /** `fetch_null_embedding_batch`, once its statement has begun. */
    method FetchBatch(workspace: Option<Id>, limit: nat, excluded: set<Id>) returns (batch: seq<Id>)
      ensures FirstOf(nodes, Candidates(nodes, workspace, excluded), limit, batch)
    {
      hide Precedes, Candidates, Distinct, Elements;
      batch := [];
      var all := Candidates(nodes, workspace, excluded);
      CandidatesAreRows(nodes, workspace, excluded);
      var rest := all;
      NothingInOrder(nodes, all);
      while rest != {} && |batch| < limit
        invariant FirstOf(nodes, all, |batch|, batch) && rest == all - Elements(batch) && |batch| <= limit
        decreases |rest|
      {
        ghost var first := FindFirst(nodes, rest);
        assert first in rest && forall j | j in rest && j != first :: Precedes(nodes, first, j);
        var id :| id in rest && forall j | j in rest && j != id :: Precedes(nodes, id, j);
        NextInOrder(nodes, all, batch, rest, id);
        batch, rest := batch + [id], rest - {id};
      }
      WholeOrder(nodes, all, batch, limit);
    }

    /** One row of a batch, with the vector that the embedder gave for it, if any. */
    method SettleRow(id: Id, vector: Option<Vector>, report: Report, excluded: set<Id>, ghost before: map<Id, Node>,
                     workspace: Option<Id>, ghost l: Ledger, ghost pending: set<Id>)
      returns (counts: Report, exclude: set<Id>, ghost now: Ledger)
      requires Good(before, workspace, l, pending) && id in pending && Counted(report, l) && excluded == l.errors
      requires id in before
      requires match vector
               case Some(v) => EmbeddedBy(embed, before[id].text, v)
               case None => RefusedBy(embed, before[id].text)
      modifies this
      ensures Good(before, workspace, now, pending - {id}) && Counted(counts, now) && exclude == now.errors
      ensures l.All() + {id} <= now.All() && counts.found == report.found
    {
      hide AllExplained, Balanced, QuietlyExact, EmbeddedBy, RefusedBy, Caused;
      PendingIsOpen(nodes, workspace, Candidates(before, workspace, {}), l, pending, id);
      OneMoreCounted(l, id);
      if vector.None? {
        counts, exclude, now := RecordNodeError(id, report, excluded, before, workspace, l, pending);
      } else {
        var updated;
        updated, now := UpdateNodeEmbedding(id, vector.value, before, workspace, l, pending);
        counts := if updated.None? then report.(errors := report.errors + 1)
                  else if updated.value then report.(updated := report.updated + 1)
                  else report.(skipped := report.skipped + 1);
        exclude := if updated.None? then excluded + {id} else excluded;
      }
    }

    /** The rows of a batch, one by one, with what the embedder said of each. */
    method SettleBatch(batch: seq<Id>, outcome: Result<seq<Result<Vector, string>>, string>, ghost round: nat,
            ghost texts: seq<string>,
                       report: Report, excluded: set<Id>, ghost before: map<Id, Node>, workspace: Option<Id>,
                         ghost l: Ledger)
      returns (counts: Report, exclude: set<Id>, ghost now: Ledger)
      requires Good(before, workspace, l, Rest(batch, 0)) && Counted(report, l) && excluded == l.errors
          && Distinct(batch)
      requires outcome == embed(round, texts) && |texts| == |batch|
      requires forall i | 0 <= i < |batch| :: batch[i] in before && texts[i] == before[batch[i]].text
      modifies this
      ensures Good(before, workspace, now, {}) && Counted(counts, now) && exclude == now.errors
      ensures l.All() + Rest(batch, 0) <= now.All() && counts.found == report.found
    {
      hide Good, Counted, EmbeddedBy, RefusedBy, Rest;
      counts, exclude, now := report, excluded, l;
      for i := 0 to |batch|
        invariant Good(before, workspace, now, Rest(batch, i)) && Counted(counts, now) && exclude == now.errors
        invariant l.All() + Rest(batch, 0) <= now.All() + Rest(batch, i) && counts.found == report.found
      {
        RestUnfolds(batch, i);
        var vector := None;
        if outcome.Ok? && |outcome.value| == |batch| && outcome.value[i].Ok? {
          vector := Some(outcome.value[i].value);
          EmbedderGave(embed, round, texts, i, vector.value);
        } else {
          EmbedderRefused(embed, round, texts, i);
        }
        counts, exclude, now := SettleRow(batch[i], vector, counts, exclude, before, workspace, now, Rest(batch, i));
      }
      NoneLeft(batch);
    }

    lemma GoodIsExplained(before: map<Id, Node>, workspace: Option<Id>, l: Ledger, pending: set<Id>)
      requires Good(before, workspace, l, pending)
      ensures AllExplained(before, nodes, workspace, embed, others)
    {
    }

    lemma FetchedIsPending(before: map<Id, Node>, workspace: Option<Id>, l: Ledger, batch: seq<Id>)
      requires Good(before, workspace, l, {}) && Elements(batch) <= Candidates(nodes, workspace, l.errors)
      ensures Good(before, workspace, l, Rest(batch, 0))
      ensures Rest(batch, 0) !! l.All() && Rest(batch, 0) <= Candidates(before, workspace, {})
      ensures forall i | 0 <= i < |batch| ::
          batch[i] in nodes && batch[i] in before && nodes[batch[i]].text == before[batch[i]].text
    {
      hide EmbeddedBy, FilledByOther, RefusedBy, Caused;
      assert batch[0..] == batch;
      assert Rest(batch, 0) == set id | id in batch;
      FetchingKeepsBalance(nodes, workspace, Candidates(before, workspace, {}), l, Rest(batch, 0));
      forall i | 0 <= i < |batch| ensures batch[i] in nodes && nodes[batch[i]].text == before[batch[i]].text {
        assert batch[i] in Candidates(nodes, workspace, l.errors);
        assert Explained(before[batch[i]], nodes[batch[i]], batch[i], workspace, embed, others);
      }
      hide Balanced, AllExplained;
      assert forall id | id in Rest(batch, 0) :: id in Candidates(nodes, workspace, l.errors);
    }

    lemma ErrorsAreCandidates(before: map<Id, Node>, workspace: Option<Id>, l: Ledger)
      requires Good(before, workspace, l, {}) && Quiet(others) && Honest(replies)
      ensures l.errors <= Candidates(nodes, workspace, {})
    {
      hide EmbeddedBy, FilledByOther, RefusedBy, Caused;
      forall id | id in l.errors ensures id in Candidates(nodes, workspace, {}) {
        assert id in Candidates(before, workspace, {});
        assert Explained(before[id], nodes[id], id, workspace, embed, others);
      }
    }

    /** Every row that was found is accounted for once, and what is still empty is what failed. */
    ghost predicate Accounted(before: map<Id, Node>, workspace: Option<Id>, report: Report, l: Ledger) reads this {
      && l.Disjoint() && l.All() == Candidates(before, workspace, {}) && Counted(report, l)
      && report.found == report.updated + report.skipped + report.errors + |l.others|
      && Candidates(nodes, workspace, {}) <= l.errors
      && (Quiet(others) ==> report.found == report.updated + report.errors)
      && (Quiet(others) && Honest(replies) ==> Candidates(nodes, workspace, {}) == l.errors)
      && Caused(before, l.errors, embed, replies)
    }

    lemma FinalAccount(before: map<Id, Node>, workspace: Option<Id>, l: Ledger, report: Report)
      requires Good(before, workspace, l, {}) && Counted(report, l) && Candidates(nodes, workspace, l.errors) == {}
      requires report.found == |Candidates(before, workspace, {})|
      ensures Accounted(before, workspace, report, l)
    {
      hide AllExplained, Balanced, QuietlyExact, Candidates, Quiet, Honest, Caused;
      AllSettled(nodes, workspace, Candidates(before, workspace, {}), l);
      LedgerSize(l);
      OnlyErrorsRemain(nodes, workspace, l.errors);
      if Quiet(others) {
        NothingSkipped(nodes, l, replies, others);
        if Honest(replies) { ErrorsAreCandidates(before, workspace, l); }
      }
    }

    /** The loop. */
    method RunBatches(options: Options, start: Report, ghost before: map<Id, Node>)
      returns (result: Result<Report, ()>, ghost l: Ledger)
      requires Good(before, options.workspace, Ledger({}, {}, {}, {}), {}) && Counted(start, Ledger({}, {}, {}, {}))
      requires start.found == |Candidates(before, options.workspace, {})|
      modifies this
      ensures AllExplained(before, nodes, options.workspace, embed, others)
      ensures result.Ok? ==> result.value.found == start.found && Accounted(before, options.workspace, result.value, l)
      ensures (forall call :: replies(call).Done?) ==> result.Ok?
    {
      hide Good, Counted, Candidates, AllExplained, Accounted, Rest, Precedes;
      ghost var found := Candidates(before, options.workspace, {});
      var batchSize := if options.batchSize == 0 then 1 else options.batchSize;
      var report := start;
      l := Ledger({}, {}, {}, {});
      var excludeIds: set<Id> := {};
      var rounds := 0;
      while true
        invariant Good(before, options.workspace, l, {}) && Counted(report, l) && excludeIds == l.errors
        invariant report.found == start.found
        decreases found - l.All()
      {
        ghost var last := l;
        var reply;
        reply, l := Begin(before, options.workspace, l, {});
        if reply.Failed? {
          GoodIsExplained(before, options.workspace, l, {});
          return Err(()), l;
        }
        SameCounts(report, last, l);
        var batch := FetchBatch(options.workspace, batchSize, excludeIds);
        if batch == [] {
          break;
        }
        FetchedIsPending(before, options.workspace, l, batch);
        var rows := nodes;
        var texts := seq(|batch|, i requires 0 <= i < |batch| && batch[i] in rows => rows[batch[i]].text);
        var outcome := embed(rounds, texts);
        ghost var mid := l;
        report, excludeIds, l :=
          SettleBatch(batch, outcome, rounds, texts, report, excludeIds, before, options.workspace, l);
        RoundShrinks(found, last, mid, l, batch);
        rounds := rounds + 1;
      }
      GoodIsExplained(before, options.workspace, l, {});
      FinalAccount(before, options.workspace, l, report);
      result := Ok(report);
    }

    /** `backfill_graph_node_embeddings_with_embedder`. However it ends, no embedding was overwritten
        and no row outside the workspace was touched by it. When it ends well, every row that was
        found is accounted for. */
    method BackfillGraphNodeEmbeddings(options: Options) returns (result: Result<Report, ()>, ghost l: Ledger)
      modifies this
      ensures AllExplained(old(nodes), nodes, options.workspace, embed, others)
      ensures result.Ok? ==> result.value.found == |Candidates(old(nodes), options.workspace, {})|
      ensures !options.allowApply ==>
          nodes == old(nodes) && (result.Ok? ==> result.value == Report(result.value.found, 0, 0, 0))
      ensures result.Ok? && options.allowApply ==> Accounted(old(nodes), options.workspace, result.value, l)
      ensures (forall call :: replies(call).Done?) ==> result.Ok?
      // A row is given up only for a cause: without one, all end up with an embedding.
      ensures (forall call :: replies(call).Done?) && Faultless(embed) && options.allowApply ==>
          result.value.errors == 0 && Candidates(nodes, options.workspace, {}) == {}
    {
      hide EmbeddedBy, FilledByOther, RefusedBy, Faultless, Caused;
      l := Ledger({}, {}, {}, {});
      var reply := replies(calls);
      calls := calls + 1;
      if reply.Failed? { return Err(()), l; }
      var report := Report(|Candidates(nodes, options.workspace, {})|, 0, 0, 0);
      if !options.allowApply { return Ok(report), l; }
      NothingCaused(nodes, embed, replies);
      assert Good(nodes, options.workspace, l, {}) && Counted(report, l);
      if report.found == 0 {
        assert Candidates(nodes, options.workspace, l.errors) == {};
        FinalAccount(nodes, options.workspace, l, report);
        return Ok(report), l;
      }
      result, l := RunBatches(options, report, nodes);
      if Faultless(embed) && forall call :: replies(call).Done? {
        NoCauseNoError(old(nodes), l.errors, embed, replies);
      }
    }
  }
}
