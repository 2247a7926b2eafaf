/** The drain loop of the authorization outbox (gmrag_api/src/auth/outbox.rs:305-367, 552-595).

    Each fetch is ordered by `created_at` alone, so the database may order rows that were created
    together differently every time. How one row goes is given from outside; no row is enqueued while
    the drain runs. */
module OutboxDrain {
  import opened Wrappers
  import opened Collections
  import opened Backoff

  type Id = nat

  datatype Status = Pending | Processed | Failed

  datatype Row = Row(createdAt: int, status: Status, retries: I32)

  type Rows = map<Id, Row>

  /** What `process_single_row` comes to: the row is marked one way or the other, or marking it
      fails in the database. */
  datatype Outcome = Succeeds | Fails | DbError

  datatype Config = Config(batchSize: nat, maxRetries: I32)

  datatype RunResult = RunResult(batches: nat, fetched: nat, processed: nat, failed: nat, skipped: nat)

  // ----- The statements -----

  predicate Eligible(r: Row, maxRetries: I32) {
    r.status == Pending || (r.status == Failed && r.retries < maxRetries)
  }

  /** The rows that a fetch may return. */
  function Qualifying(rows: Rows, maxRetries: I32): set<Id> {
    set id | id in rows && Eligible(rows[id], maxRetries)
  }

  predicate InOrder(rows: Rows, ids: seq<Id>)
    requires Elements(ids) <= rows.Keys
  {
    forall i, j | 0 <= i < j < |ids| :: rows[ids[i]].createdAt <= rows[ids[j]].createdAt
  }

  /** None of the rows `left` comes before one of `ids`. */
  predicate NoneBefore(rows: Rows, left: set<Id>, ids: set<Id>)
    requires left <= rows.Keys && ids <= rows.Keys
  {
    forall i, j | i in ids && j in left :: rows[i].createdAt <= rows[j].createdAt
  }

  /** The first `n` rows of `all` by creation, ties in any order. */
  predicate FirstOf(rows: Rows, all: set<Id>, n: nat, ids: seq<Id>)
    requires all <= rows.Keys
  {
    && Distinct(ids) && Elements(ids) <= all && |ids| == Min(n, |all|)
    && InOrder(rows, ids) && NoneBefore(rows, all - Elements(ids), Elements(ids))
  }

  /** `ORDER BY created_at ASC LIMIT batch`. */
  predicate Fetches(rows: Rows, c: Config, ids: seq<Id>) {
    FirstOf(rows, Qualifying(rows, c.maxRetries), c.batchSize, ids)
  }

  /** `rows.retain`: rows that this drain has not attempted yet. */
  function Fresh(ids: seq<Id>, attempted: set<Id>): seq<Id> {
    if ids == [] then []
    else (if ids[0] in attempted then [] else [ids[0]]) + Fresh(ids[1..], attempted)
  }

  function Settled(r: Row, outcome: Outcome): Row {
    match outcome
    case Succeeds => r.(status := Processed)
    case Fails => r.(status := Failed, retries := SaturatingSucc(r.retries))
    case DbError => r
  }

  function Exhausted(rows: Rows, maxRetries: I32): set<Id> {
    set id | id in rows && rows[id].status == Failed && rows[id].retries >= maxRetries
  }

  // ----- A drain -----

  /** The table after the rows `tried` were attempted. */
  function After(rows: Rows, outcome: Id -> Outcome, tried: set<Id>): Rows {
    map id | id in rows :: if id in tried then Settled(rows[id], outcome(id)) else rows[id]
  }

  /** The rows that a drain attempts, in order, when the database answers its fetches like this. */
  function Attempts(fetches: seq<seq<Id>>): seq<Id> {
    if fetches == [] then []
    else
      var before := Attempts(fetches[..|fetches| - 1]);
      before + Fresh(fetches[|fetches| - 1], Elements(before))
  }

  function Tried(fetches: seq<seq<Id>>): set<Id> {
    Elements(Attempts(fetches))
  }

  /** The new rows of round `k`. */
  function Round(fetches: seq<seq<Id>>, k: nat): seq<Id>
    requires k < |fetches|
  {
    Fresh(fetches[k], Tried(fetches[..k]))
  }

  /** Every answer obeys the statement on the table of its moment. */
  ghost predicate Answered(rows: Rows, c: Config, outcome: Id -> Outcome, fetches: seq<seq<Id>>) {
    forall k | 0 <= k < |fetches| :: Fetches(After(rows, outcome, Tried(fetches[..k])), c, fetches[k])
  }

  predicate NoDbError(outcome: Id -> Outcome, ids: set<Id>) {
    forall id | id in ids :: outcome(id) != DbError
  }

  /** A whole drain: it ends with the first fetch that brings nothing new. */
  ghost predicate Drain(rows: Rows, c: Config, outcome: Id -> Outcome, fetches: seq<seq<Id>>) {
    && fetches != [] && Answered(rows, c, outcome, fetches) && NoDbError(outcome, Tried(fetches))
    && forall k | 0 <= k < |fetches| :: Round(fetches, k) == [] <==> k == |fetches| - 1
  }

  /** Rows that fail and still qualify afterwards, so that they take a place in every later fetch. */
  function Stuck(rows: Rows, maxRetries: I32, outcome: Id -> Outcome): set<Id> {
    set id | id in Qualifying(rows, maxRetries) && outcome(id) == Fails && SaturatingSucc(rows[id].retries) < maxRetries
  }

  function Went(outcome: Id -> Outcome, ids: set<Id>, o: Outcome): set<Id> {
    set id | id in ids && outcome(id) == o
  }

  /** Those of `ids` that were created before row `i`. */
  function Before(rows: Rows, ids: set<Id>, i: Id): set<Id>
    requires i in rows && ids <= rows.Keys
  {
    set j | j in ids && rows[j].createdAt < rows[i].createdAt
  }

  /** Those of `ids` that may come before row `i` in a fetch: created earlier, or together with it. */
  function MayPrecede(rows: Rows, ids: set<Id>, i: Id): set<Id>
    requires i in rows && ids <= rows.Keys
  {
    set j | j in ids && j != i && rows[j].createdAt <= rows[i].createdAt
  }

  // ----- Lemmas on one fetch -----

  lemma {:induction false} FreshIs(ids: seq<Id>, attempted: set<Id>)
    requires Distinct(ids)
    ensures Distinct(Fresh(ids, attempted)) && Elements(Fresh(ids, attempted)) == Elements(ids) - attempted
  {
    if ids != [] {
      var first := if ids[0] in attempted then [] else [ids[0]];
      assert ids[0] !in Elements(ids[1..]) && Elements(ids) == {ids[0]} + Elements(ids[1..]) by {
        assert ids == [ids[0]] + ids[1..];
      }
      assert Distinct(first) && Elements(first) == {ids[0]} - attempted;
      FreshIs(ids[1..], attempted);
      hide Distinct, Elements;
      ElementsAppend(first, Fresh(ids[1..], attempted));
      DistinctAppend(first, Fresh(ids[1..], attempted));
    }
  }

  /** A row that is fetched leaves room for all that come before it. */
  lemma FetchedHasRoom(rows: Rows, all: set<Id>, n: nat, ids: seq<Id>, i: Id, ahead: set<Id>)
    requires all <= rows.Keys && FirstOf(rows, all, n, ids) && i in Elements(ids) && ahead <= all
    requires forall j | j in ahead :: rows[j].createdAt < rows[i].createdAt
    ensures |ahead| < n
  {
    hide Distinct, InOrder;
    DistinctHasSize(ids);
    assert ahead <= Elements(ids) - {i};
    SubsetSize(ahead, Elements(ids) - {i});
  }

  /** A row that is left out is left out for a full batch that it does not come before. */
  lemma LeftOutForOthers(rows: Rows, all: set<Id>, n: nat, ids: seq<Id>, i: Id)
    requires all <= rows.Keys && FirstOf(rows, all, n, ids) && i in all - Elements(ids)
    ensures |Elements(ids)| == n && forall j | j in Elements(ids) :: j != i && rows[j].createdAt <= rows[i].createdAt
  {
    hide Distinct, InOrder;
    DistinctHasSize(ids);
    ProperSubsetSize(Elements(ids), all);
  }

  /** What still qualifies: rows not attempted yet, and stuck ones. */
  lemma QualifyingAfter(rows: Rows, maxRetries: I32, outcome: Id -> Outcome, tried: set<Id>)
    requires tried <= Qualifying(rows, maxRetries) && NoDbError(outcome, tried)
    ensures Qualifying(After(rows, outcome, tried), maxRetries)
         == (Qualifying(rows, maxRetries) - tried) + (Stuck(rows, maxRetries, outcome) * tried)
  {
  }

  /** One fetch, whichever way it orders ties. A new row had room beside all stuck rows before it; the
      new rows are at least as many as the stuck ones leave room for; and a fetch without new rows
      leaves a row out only if stuck rows that may precede it fill the batch. */
  lemma NextRound(rows: Rows, c: Config, outcome: Id -> Outcome, tried: set<Id>, ids: seq<Id>)
    requires tried <= Qualifying(rows, c.maxRetries) && NoDbError(outcome, tried)
    requires Fetches(After(rows, outcome, tried), c, ids)
    ensures var all, stuck := Qualifying(rows, c.maxRetries), Stuck(rows, c.maxRetries, outcome);
            && Elements(ids) - tried <= all - tried
            && (forall i | i in Elements(ids) - tried :: |Before(rows, stuck, i)| < c.batchSize)
            && |Elements(ids) - tried| >= Min(|all - tried|, c.batchSize - |stuck * tried|)
            && (Elements(ids) <= tried ==>
                  forall i | i in all - tried :: |MayPrecede(rows, stuck * tried, i)| >= c.batchSize)
  {
    hide Qualifying, Stuck, After, FirstOf, Elements;
    var now := After(rows, outcome, tried);
    var all, stuck := Qualifying(rows, c.maxRetries), Stuck(rows, c.maxRetries, outcome);
    QualifyingAfter(rows, c.maxRetries, outcome, tried);
    SameTimes(rows, outcome, tried);
    StuckQualify(rows, c.maxRetries, outcome);
    var left := all - tried + stuck * tried;
    FirstOfSize(now, left, c.batchSize, ids);
    forall i | i in Elements(ids) - tried ensures |Before(rows, stuck, i)| < c.batchSize {
      FetchedHasRoom(now, left, c.batchSize, ids, i, Before(rows, stuck, i));
    }
    WindowSize(Elements(ids), tried, all - tried, stuck * tried, c.batchSize);
    if Elements(ids) <= tried {
      forall i | i in all - tried ensures |MayPrecede(rows, stuck * tried, i)| >= c.batchSize {
        LeftOutForOthers(now, left, c.batchSize, ids, i);
        assert Elements(ids) <= MayPrecede(rows, stuck * tried, i);
        SubsetSize(Elements(ids), MayPrecede(rows, stuck * tried, i));
      }
    }
  }

  lemma FirstOfSize(rows: Rows, all: set<Id>, n: nat, ids: seq<Id>)
    requires all <= rows.Keys && FirstOf(rows, all, n, ids)
    ensures Elements(ids) <= all && |Elements(ids)| == Min(n, |all|)
  {
    DistinctHasSize(ids);
  }

  lemma SameTimes(rows: Rows, outcome: Id -> Outcome, tried: set<Id>)
    ensures var now := After(rows, outcome, tried);
            now.Keys == rows.Keys && forall id | id in rows :: now[id].createdAt == rows[id].createdAt
  {
  }

  lemma StuckQualify(rows: Rows, maxRetries: I32, outcome: Id -> Outcome)
    ensures Stuck(rows, maxRetries, outcome) <= Qualifying(rows, maxRetries) <= rows.Keys
  {
  }

  lemma WindowSize(window: set<Id>, tried: set<Id>, open: set<Id>, again: set<Id>, batch: nat)
    requires window <= open + again && open !! tried && again <= tried && |window| == Min(batch, |open + again|)
    ensures |window - tried| >= Min(|open|, batch - |again|)
  {
    assert window == (window - tried) + (window * tried);
    SubsetSize(window * tried, again);
    assert |open + again| == |open| + |again|;
  }

  // ----- Lemmas on a whole drain -----

  lemma {:induction false} AttemptsAre(rows: Rows, c: Config, outcome: Id -> Outcome, fetches: seq<seq<Id>>)
    requires Answered(rows, c, outcome, fetches)
    requires fetches != [] ==> NoDbError(outcome, Tried(fetches[..|fetches| - 1]))
    ensures Distinct(Attempts(fetches)) && Tried(fetches) <= Qualifying(rows, c.maxRetries)
    ensures forall i | i in Tried(fetches) :: |Before(rows, Stuck(rows, c.maxRetries, outcome), i)| < c.batchSize
    decreases |fetches|
  {
    if fetches != [] {
      hide Fetches, Qualifying, Stuck, Before, After, Elements, Distinct, Attempts, Answered, Round;
      var init, last := fetches[..|fetches| - 1], fetches[|fetches| - 1];
      EarlierAnswers(rows, c, outcome, fetches);
      if init != [] { TriedGrows(init); }
      AttemptsAre(rows, c, outcome, init);
      FetchIsDistinct(After(rows, outcome, Tried(init)), c, last);
      NextRound(rows, c, outcome, Tried(init), last);
      TriedIs(fetches);
    }
  }

  lemma FetchIsDistinct(rows: Rows, c: Config, ids: seq<Id>)
    requires Fetches(rows, c, ids)
    ensures Distinct(ids) && Elements(ids) <= Qualifying(rows, c.maxRetries)
  {
  }

  lemma TriedIs(fetches: seq<seq<Id>>)
    requires fetches != [] && Distinct(fetches[|fetches| - 1])
    ensures Tried(fetches) == Tried(fetches[..|fetches| - 1]) + Elements(fetches[|fetches| - 1])
    ensures Attempts(fetches) == Attempts(fetches[..|fetches| - 1]) + Round(fetches, |fetches| - 1)
    ensures Distinct(Attempts(fetches[..|fetches| - 1])) ==> Distinct(Attempts(fetches))
  {
    hide Distinct, Elements, Fresh;
    var before := Attempts(fetches[..|fetches| - 1]);
    var new_ := Fresh(fetches[|fetches| - 1], Elements(before));
    FreshIs(fetches[|fetches| - 1], Elements(before));
    ElementsAppend(before, new_);
    if Distinct(before) { DistinctAppend(before, new_); }
  }

  lemma TriedGrows(fetches: seq<seq<Id>>)
    requires fetches != []
    ensures Tried(fetches[..|fetches| - 1]) <= Tried(fetches)
  {
    hide Fresh, Elements;
    ElementsAppend(Attempts(fetches[..|fetches| - 1]),
                   Fresh(fetches[|fetches| - 1], Elements(Attempts(fetches[..|fetches| - 1]))));
  }

  lemma EarlierAnswers(rows: Rows, c: Config, outcome: Id -> Outcome, fetches: seq<seq<Id>>)
    requires fetches != [] && Answered(rows, c, outcome, fetches)
    ensures Answered(rows, c, outcome, fetches[..|fetches| - 1])
    ensures Fetches(After(rows, outcome, Tried(fetches[..|fetches| - 1])), c, fetches[|fetches| - 1])
  {
    hide Fetches, After, Tried;
    var init := fetches[..|fetches| - 1];
    forall k | 0 <= k < |init| ensures Fetches(After(rows, outcome, Tried(init[..k])), c, init[k]) {
      assert init[..k] == fetches[..k] && init[k] == fetches[k];
    }
  }

  /** What a drain attempts, however ties fall: every row that it attempts had fewer than a batch of
      stuck rows before it, and every row that it leaves out has a batch of stuck rows, attempted by
      this drain, that may precede it. */
  lemma DrainReaches(rows: Rows, c: Config, outcome: Id -> Outcome, fetches: seq<seq<Id>>)
    requires Drain(rows, c, outcome, fetches)
    ensures Distinct(Attempts(fetches)) && Tried(fetches) <= Qualifying(rows, c.maxRetries)
    ensures var stuck := Stuck(rows, c.maxRetries, outcome);
            && (forall i | i in Tried(fetches) :: |Before(rows, stuck, i)| < c.batchSize)
            && (forall i | i in Qualifying(rows, c.maxRetries) - Tried(fetches) ::
                  |MayPrecede(rows, stuck * Tried(fetches), i)| >= c.batchSize)
  {
    hide Fetches, Qualifying, Stuck, Before, MayPrecede, After, Elements, Distinct, Attempts, Answered, Fresh;
    var init, last := fetches[..|fetches| - 1], fetches[|fetches| - 1];
    TriedGrows(fetches);
    AttemptsAre(rows, c, outcome, fetches);
    EarlierAnswers(rows, c, outcome, fetches);
    FetchIsDistinct(After(rows, outcome, Tried(init)), c, last);
    assert Round(fetches, |fetches| - 1) == [];
    NothingNew(last, Tried(init));
    TriedIs(fetches);
    assert Tried(fetches) == Tried(init);
    NextRound(rows, c, outcome, Tried(init), last);
  }

  lemma NothingNew(ids: seq<Id>, attempted: set<Id>)
    requires Distinct(ids)
    ensures Fresh(ids, attempted) == [] <==> Elements(ids) <= attempted
  {
    hide Fresh, Distinct;
    FreshIs(ids, attempted);
    var new_ := Fresh(ids, attempted);
    assert Elements<Id>([]) == {};
    if new_ != [] {
      assert new_[0] in Elements(new_);
    } else {
      forall id | id in Elements(ids) ensures id in attempted { assert id !in Elements(ids) - attempted; }
    }
  }

  ghost predicate AttemptsAll(rows: Rows, c: Config, fetches: seq<seq<Id>>) {
    Tried(fetches) == Qualifying(rows, c.maxRetries)
  }

  /** Fewer failures in a drain than its batch holds: then it attempted every qualifying row, however
      ties fell. */
  lemma FewFailuresReachAll(rows: Rows, c: Config, outcome: Id -> Outcome, fetches: seq<seq<Id>>)
    requires Drain(rows, c, outcome, fetches) && |Went(outcome, Tried(fetches), Fails)| < c.batchSize
    ensures AttemptsAll(rows, c, fetches)
  {
    hide Drain, Qualifying, Tried;
    DrainReaches(rows, c, outcome, fetches);
    var stuck := Stuck(rows, c.maxRetries, outcome);
    forall i | i in Qualifying(rows, c.maxRetries) ensures i in Tried(fetches) {
      StuckQualify(rows, c.maxRetries, outcome);
      SubsetSize(MayPrecede(rows, stuck * Tried(fetches), i), Went(outcome, Tried(fetches), Fails));
    }
  }

  /** No two qualifying rows were created together. */
  predicate NoTies(rows: Rows, maxRetries: I32) {
    forall i, j | i in Qualifying(rows, maxRetries) && j in Qualifying(rows, maxRetries) && i != j ::
      rows[i].createdAt != rows[j].createdAt
  }

  /** Without ties, a row is attempted exactly if fewer than a batch of stuck rows come before it. */
  lemma AttemptedIff(rows: Rows, c: Config, outcome: Id -> Outcome, fetches: seq<seq<Id>>, i: Id)
    requires NoTies(rows, c.maxRetries) && Drain(rows, c, outcome, fetches) && i in Qualifying(rows, c.maxRetries)
    ensures i in Tried(fetches) <==> |Before(rows, Stuck(rows, c.maxRetries, outcome), i)| < c.batchSize
  {
    hide Drain, Tried;
    DrainReaches(rows, c, outcome, fetches);
    var stuck := Stuck(rows, c.maxRetries, outcome);
    if i !in Tried(fetches) {
      SubsetSize(MayPrecede(rows, stuck * Tried(fetches), i), Before(rows, stuck, i));
    }
  }

  /** Without ties, a drain attempts every qualifying row exactly if the rows before the last one hold
      fewer than a batch of stuck rows. */
  lemma AllAttemptedIff(rows: Rows, c: Config, outcome: Id -> Outcome, fetches: seq<seq<Id>>, last: Id)
    requires NoTies(rows, c.maxRetries) && Drain(rows, c, outcome, fetches)
    requires last in Qualifying(rows, c.maxRetries)
    requires forall i | i in Qualifying(rows, c.maxRetries) :: rows[i].createdAt <= rows[last].createdAt
    ensures AttemptsAll(rows, c, fetches) <==> |Stuck(rows, c.maxRetries, outcome) - {last}| < c.batchSize
  {
    hide Drain, Tried;
    var stuck := Stuck(rows, c.maxRetries, outcome);
    DrainReaches(rows, c, outcome, fetches);
    assert Before(rows, stuck, last) == stuck - {last};
    forall i | i in Qualifying(rows, c.maxRetries)
      ensures i in Tried(fetches) <==> |Before(rows, stuck, i)| < c.batchSize
      ensures |Before(rows, stuck, i)| <= |Before(rows, stuck, last)|
    {
      AttemptedIff(rows, c, outcome, fetches, i);
      SubsetSize(Before(rows, stuck, i), Before(rows, stuck, last));
    }
  }

  // ----- Ties -----

  lemma {:induction false} FindEarliest(rows: Rows, ids: set<Id>) returns (m: Id)
    requires ids != {} && ids <= rows.Keys
    ensures m in ids && forall j | j in ids :: rows[m].createdAt <= rows[j].createdAt
  {
    m :| m in ids;
    var rest := ids - {m};
    if rest != {} {
      var n := FindEarliest(rows, rest);
      if rows[n].createdAt <= rows[m].createdAt { m := n; }
    }
    assert forall j | j in ids :: j in rest || j in ids - rest;
  }

  /** The database can always answer. */
  lemma {:induction false} SomeAnswer(rows: Rows, all: set<Id>, n: nat) returns (ids: seq<Id>)
    requires all <= rows.Keys
    ensures FirstOf(rows, all, n, ids)
    decreases n
  {
    ids := [];
    if n > 0 && all != {} {
      var m := FindEarliest(rows, all);
      var rest := SomeAnswer(rows, all - {m}, n - 1);
      FirstThenRest(rows, all, n, m, rest);
      ids := [m] + rest;
    }
  }

  lemma FirstThenRest(rows: Rows, all: set<Id>, n: nat, m: Id, rest: seq<Id>)
    requires n > 0 && m in all && all <= rows.Keys && FirstOf(rows, all - {m}, n - 1, rest)
    requires forall j | j in all :: rows[m].createdAt <= rows[j].createdAt
    ensures FirstOf(rows, all, n, [m] + rest)
  {
    var ids := [m] + rest;
    ElementsAppend([m], rest);
    assert Elements([m]) == {m} && Distinct([m]);
    DistinctAppend([m], rest);
    assert forall k | 0 <= k < |rest| :: rest[k] in Elements(rest);
    hide Distinct, Elements;
    assert all - Elements(ids) == all - {m} - Elements(rest);
  }

  /** When a batch of stuck rows may precede row `i`, a fetch can leave it out. */
  lemma AnswerWithout(rows: Rows, c: Config, outcome: Id -> Outcome, tried: set<Id>, i: Id) returns (ids: seq<Id>)
    requires tried <= Qualifying(rows, c.maxRetries) && NoDbError(outcome, tried)
    requires i in Qualifying(rows, c.maxRetries) - tried
    requires |MayPrecede(rows, Stuck(rows, c.maxRetries, outcome), i)| >= c.batchSize
    ensures Fetches(After(rows, outcome, tried), c, ids) && i !in Elements(ids)
  {
    hide Qualifying, Stuck, After, Elements, FirstOf;
    var now, stuck := After(rows, outcome, tried), Stuck(rows, c.maxRetries, outcome);
    QualifyingAfter(rows, c.maxRetries, outcome, tried);
    SameTimes(rows, outcome, tried);
    StuckQualify(rows, c.maxRetries, outcome);
    var all := Qualifying(now, c.maxRetries);
    ids := SomeAnswer(now, all - {i}, c.batchSize);
    StillFirst(now, all, c.batchSize, ids, i, MayPrecede(rows, stuck, i));
  }

  /** The first rows without row `i` are the first rows with it, when enough others may precede it. */
  lemma StillFirst(rows: Rows, all: set<Id>, n: nat, ids: seq<Id>, i: Id, ahead: set<Id>)
    requires all <= rows.Keys && i in all && FirstOf(rows, all - {i}, n, ids)
    requires ahead <= all - {i} && |ahead| >= n && forall j | j in ahead :: rows[j].createdAt <= rows[i].createdAt
    ensures FirstOf(rows, all, n, ids) && i !in Elements(ids)
  {
    hide Distinct, InOrder;
    DistinctHasSize(ids);
    SubsetSize(ahead, all - {i});
    forall j | j in Elements(ids) ensures rows[j].createdAt <= rows[i].createdAt {
      if rows[j].createdAt > rows[i].createdAt {
        FetchedHasRoom(rows, all - {i}, n, ids, j, ahead);
      }
    }
    assert all - Elements(ids) == (all - {i} - Elements(ids)) + {i};
    SubsetSize(all - {i}, all);
  }

  lemma OneMoreFetch(rows: Rows, c: Config, outcome: Id -> Outcome, fetches: seq<seq<Id>>, ids: seq<Id>)
    requires Answered(rows, c, outcome, fetches) && Fetches(After(rows, outcome, Tried(fetches)), c, ids)
    ensures Answered(rows, c, outcome, fetches + [ids])
    ensures Tried(fetches + [ids]) == Tried(fetches) + Elements(ids)
    ensures Attempts(fetches + [ids]) == Attempts(fetches) + Fresh(ids, Tried(fetches))
    ensures Elements(Fresh(ids, Tried(fetches))) == Elements(ids) - Tried(fetches)
    ensures Elements(ids) <= Qualifying(After(rows, outcome, Tried(fetches)), c.maxRetries) && Distinct(ids)
    ensures Round(fetches + [ids], |fetches|) == Fresh(ids, Tried(fetches))
    ensures forall k | 0 <= k < |fetches| :: Round(fetches + [ids], k) == Round(fetches, k)
  {
    FetchIsDistinct(After(rows, outcome, Tried(fetches)), c, ids);
    FreshIs(ids, Tried(fetches));
    assert (fetches + [ids])[..|fetches|] == fetches;
    TriedIs(fetches + [ids]);
    hide Fetches, After, Tried, Fresh;
    forall k | 0 <= k < |fetches| + 1
      ensures Fetches(After(rows, outcome, Tried((fetches + [ids])[..k])), c, (fetches + [ids])[k])
      ensures k < |fetches| ==> Round(fetches + [ids], k) == Round(fetches, k)
    {
      assert k < |fetches| ==> (fetches + [ids])[..k] == fetches[..k];
    }
  }

  /** A drain under way, without row `i` so far. */
  ghost predicate Without(rows: Rows, c: Config, outcome: Id -> Outcome, fetches: seq<seq<Id>>, i: Id) {
    Answered(rows, c, outcome, fetches) && Tried(fetches) <= Qualifying(rows, c.maxRetries) - {i}
  }

  lemma NextWithout(rows: Rows, c: Config, outcome: Id -> Outcome, fetches: seq<seq<Id>>, i: Id)
    returns (ids: seq<Id>)
    requires NoDbError(outcome, Qualifying(rows, c.maxRetries)) && i in Qualifying(rows, c.maxRetries)
    requires |MayPrecede(rows, Stuck(rows, c.maxRetries, outcome), i)| >= c.batchSize
    requires Without(rows, c, outcome, fetches, i)
    ensures Without(rows, c, outcome, fetches + [ids], i)
    ensures forall k | 0 <= k < |fetches| :: Round(fetches + [ids], k) == Round(fetches, k)
    ensures Round(fetches + [ids], |fetches|) != [] ==>
              |Qualifying(rows, c.maxRetries) - Tried(fetches + [ids])|
                < |Qualifying(rows, c.maxRetries) - Tried(fetches)|
  {
    hide Fetches, Qualifying, Stuck, After, Elements, Attempts, Fresh, Answered, Round, Distinct, MayPrecede;
    var tried, all := Tried(fetches), Qualifying(rows, c.maxRetries);
    ids := AnswerWithout(rows, c, outcome, tried, i);
    QualifyingAfter(rows, c.maxRetries, outcome, tried);
    StuckQualify(rows, c.maxRetries, outcome);
    OneMoreFetch(rows, c, outcome, fetches, ids);
    NothingNew(ids, tried);
    if Fresh(ids, tried) != [] {
      ProperSubsetSize(all - Tried(fetches + [ids]), all - tried);
    }
  }

  /** It can be led to its end without that row. */
  lemma {:induction false} LeaveOut(rows: Rows, c: Config, outcome: Id -> Outcome, fetches: seq<seq<Id>>, i: Id)
    returns (whole: seq<seq<Id>>)
    requires NoDbError(outcome, Qualifying(rows, c.maxRetries)) && i in Qualifying(rows, c.maxRetries)
    requires |MayPrecede(rows, Stuck(rows, c.maxRetries, outcome), i)| >= c.batchSize
    requires Without(rows, c, outcome, fetches, i) && forall k | 0 <= k < |fetches| :: Round(fetches, k) != []
    ensures Drain(rows, c, outcome, whole) && i !in Tried(whole)
    decreases |Qualifying(rows, c.maxRetries) - Tried(fetches)|
  {
    hide Qualifying, Stuck, Tried, Answered, Round, MayPrecede;
    var ids := NextWithout(rows, c, outcome, fetches, i);
    whole := fetches + [ids];
    if Round(whole, |fetches|) != [] {
      whole := LeaveOut(rows, c, outcome, whole, i);
    }
  }

  /** The exact condition when ties may fall in any way: every drain attempts every qualifying row if
      and only if no such row may be preceded by a batch of stuck rows. */
  lemma EveryDrainReachesAllIff(rows: Rows, c: Config, outcome: Id -> Outcome)
    requires NoDbError(outcome, Qualifying(rows, c.maxRetries))
    ensures (forall fetches | Drain(rows, c, outcome, fetches) :: AttemptsAll(rows, c, fetches))
       <==> forall i | i in Qualifying(rows, c.maxRetries) ::
              |MayPrecede(rows, Stuck(rows, c.maxRetries, outcome), i)| < c.batchSize
  {
    hide Drain, Qualifying, Stuck, Tried, Answered;
    var stuck := Stuck(rows, c.maxRetries, outcome);
    StuckQualify(rows, c.maxRetries, outcome);
    forall fetches, i | Drain(rows, c, outcome, fetches) && i in Qualifying(rows, c.maxRetries) - Tried(fetches)
      ensures |MayPrecede(rows, stuck, i)| >= c.batchSize
    {
      DrainReaches(rows, c, outcome, fetches);
      SubsetSize(MayPrecede(rows, stuck * Tried(fetches), i), MayPrecede(rows, stuck, i));
    }
    forall fetches | Drain(rows, c, outcome, fetches) ensures Tried(fetches) <= Qualifying(rows, c.maxRetries) {
      DrainReaches(rows, c, outcome, fetches);
    }
    forall i | i in Qualifying(rows, c.maxRetries) && |MayPrecede(rows, stuck, i)| >= c.batchSize
      ensures exists fetches :: Drain(rows, c, outcome, fetches) && !AttemptsAll(rows, c, fetches)
    {
      NothingFetched(rows, c, outcome);
      var fetches := LeaveOut(rows, c, outcome, [], i);
      assert !AttemptsAll(rows, c, fetches);
    }
  }

  lemma NothingFetched(rows: Rows, c: Config, outcome: Id -> Outcome)
    ensures Answered(rows, c, outcome, []) && Tried([]) == {} && Attempts([]) == [] && After(rows, outcome, {}) == rows
  {
  }

  /** One stuck row fills a batch of one and keeps every later row waiting. */
  lemma StuckRowBlocks(fetches: seq<seq<Id>>)
    requires var rows := map[0 := Row(1, Pending, 0), 1 := Row(2, Pending, 0)];
             Drain(rows, Config(1, 5), (i: Id) => if i == 0 then Fails else Succeeds, fetches)
    ensures 1 !in Tried(fetches)
  {
    var rows := map[0 := Row(1, Pending, 0), 1 := Row(2, Pending, 0)];
    var outcome := (i: Id) => if i == 0 then Fails else Succeeds;
    hide Drain, Elements, Attempts;
    assert Qualifying(rows, 5) == {0, 1};
    assert Stuck(rows, 5, outcome) == {0};
    assert Before(rows, {0}, 1) == {0};
    hide Qualifying, Stuck, Before;
    AttemptedIff(rows, Config(1, 5), outcome, fetches, 1);
  }

  /** Rows created together: row 1 may be passed over, although no stuck row was created before it. */
  lemma TiesCanPassOver()
    ensures var rows := map[0 := Row(1, Pending, 0), 1 := Row(1, Pending, 0), 2 := Row(1, Pending, 0)];
            var outcome := (i: Id) => if i == 2 then Fails else Succeeds;
            && Before(rows, Stuck(rows, 5, outcome), 1) == {}
            && exists fetches :: Drain(rows, Config(1, 5), outcome, fetches) && 1 !in Tried(fetches)
  {
    var rows := map[0 := Row(1, Pending, 0), 1 := Row(1, Pending, 0), 2 := Row(1, Pending, 0)];
    var outcome := (i: Id) => if i == 2 then Fails else Succeeds;
    assert Qualifying(rows, 5) == {0, 1, 2};
    assert Stuck(rows, 5, outcome) == {2};
    assert Before(rows, {2}, 1) == {} && MayPrecede(rows, {2}, 1) == {2};
    hide Qualifying, Stuck, Before, MayPrecede, Drain, Answered, Attempts, Elements;
    NothingFetched(rows, Config(1, 5), outcome);
    var fetches := LeaveOut(rows, Config(1, 5), outcome, [], 1);
  }

  // ----- The loop -----

  lemma OneMoreWent(outcome: Id -> Outcome, ids: set<Id>, id: Id)
    requires id !in ids
    ensures forall o :: |Went(outcome, ids + {id}, o)| == |Went(outcome, ids, o)| + if outcome(id) == o then 1 else 0
  {
    forall o
      ensures |Went(outcome, ids + {id}, o)| == |Went(outcome, ids, o)| + if outcome(id) == o then 1 else 0
    {
      assert Went(outcome, ids + {id}, o) == Went(outcome, ids, o) + if outcome(id) == o then {id} else {};
    }
  }

  lemma AllWent(outcome: Id -> Outcome, ids: set<Id>)
    requires NoDbError(outcome, ids)
    ensures |Went(outcome, ids, Succeeds)| + |Went(outcome, ids, Fails)| == |ids|
  {
    assert ids == Went(outcome, ids, Succeeds) + Went(outcome, ids, Fails);
  }

  /** The counters and the table agree with what was attempted. */
  ghost predicate Consistent(before: Rows, now: Rows, outcome: Id -> Outcome, ids: set<Id>, run: RunResult) {
    && now == After(before, outcome, ids) && NoDbError(outcome, ids)
    && run.processed == |Went(outcome, ids, Succeeds)| && run.failed == |Went(outcome, ids, Fails)|
  }

  lemma OneMoreAfter(before: Rows, outcome: Id -> Outcome, ids: set<Id>, id: Id)
    requires id in before && id !in ids
    ensures id in After(before, outcome, ids) && After(before, outcome, ids)[id] == before[id]
    ensures After(before, outcome, ids)[id := Settled(before[id], outcome(id))] == After(before, outcome, ids + {id})
  {
  }

  /** Only the last of the rows attempted may have met a database error. */
  predicate ErrorOnlyLast(outcome: Id -> Outcome, ids: seq<Id>) {
    forall k | 0 <= k < |ids| - 1 :: outcome(ids[k]) != DbError
  }

  lemma NextOfBatch(attempted: seq<Id>, fetched: seq<Id>, j: nat)
    requires j < |fetched| && Distinct(attempted + fetched)
    ensures fetched[j] in Elements(fetched) && fetched[j] !in Elements(attempted + fetched[..j])
    ensures attempted + fetched[..j + 1] == attempted + fetched[..j] + [fetched[j]] <= attempted + fetched
    ensures Elements(attempted + fetched[..j + 1]) == Elements(attempted + fetched[..j]) + {fetched[j]}
  {
    var all := attempted + fetched;
    assert fetched[j] == all[|attempted| + j];
    assert forall k | 0 <= k < |attempted| + j :: (attempted + fetched[..j])[k] == all[k];
    ElementsAppend(attempted + fetched[..j], [fetched[j]]);
  }

  lemma NoErrorYet(outcome: Id -> Outcome, ids: seq<Id>, id: Id)
    requires NoDbError(outcome, Elements(ids))
    ensures ErrorOnlyLast(outcome, ids) && ErrorOnlyLast(outcome, ids + [id])
  {
    assert forall k | 0 <= k < |ids| :: ids[k] in Elements(ids);
  }

  /** Rows that qualified were attempted, each once and in the order of the fetches, and nothing else
      was done to the table. */
  ghost predicate InPart(before: Rows, now: Rows, c: Config, outcome: Id -> Outcome, fetches: seq<seq<Id>>,
          attempted: seq<Id>) {
    && Answered(before, c, outcome, fetches) && attempted <= Attempts(fetches) && Distinct(attempted)
    && Elements(attempted) <= Qualifying(before, c.maxRetries)
    && now == After(before, outcome, Elements(attempted)) && ErrorOnlyLast(outcome, attempted)
  }

  /** A database error on the row that was attempted last. */
  ghost predicate EndsInError(outcome: Id -> Outcome, attempted: seq<Id>) {
    attempted != [] && outcome(attempted[|attempted| - 1]) == DbError
  }

  /** The drain is over, and the counts are those of what it attempted. */
  ghost predicate InFull(before: Rows, now: Rows, c: Config, outcome: Id -> Outcome, fetches: seq<seq<Id>>,
          attempted: seq<Id>, run: RunResult) {
    && Drain(before, c, outcome, fetches) && attempted == Attempts(fetches)
    && run.fetched == |attempted| == run.processed + run.failed
    && run.processed == |Went(outcome, Elements(attempted), Succeeds)|
    && run.failed == |Went(outcome, Elements(attempted), Fails)|
    && run.batches == |fetches| - 1 && run.skipped == |Exhausted(now, c.maxRetries)|
  }

  class AuthzOutbox {
    var rows: Rows

    /** `process_single_row`, with what became of it; the flag is its `Ok` value. */
    method ProcessSingleRow(id: Id, outcome: Id -> Outcome) returns (r: Result<bool, ()>)
      requires id in rows
      modifies this
      ensures rows == old(rows)[id := Settled(old(rows)[id], outcome(id))]
      ensures r == if outcome(id) == DbError then Err(()) else Ok(outcome(id) == Succeeds)
    {
      match outcome(id) {
        case Succeeds =>
          rows := rows[id := rows[id].(status := Processed)];
          r := Ok(true);
        case Fails =>
          rows := rows[id := rows[id].(status := Failed, retries := SaturatingSucc(rows[id].retries))];
          r := Ok(false);
        case DbError =>
          r := Err(());
      }
    }

    /** The inner loop, over the new rows of one fetch. */
    method ProcessBatch(fetched: seq<Id>, outcome: Id -> Outcome, run: RunResult, processedIds: set<Id>,
                        ghost before: Rows, ghost attempted: seq<Id>)
      returns (r: Result<RunResult, ()>, ids: set<Id>, ghost now: seq<Id>)
      requires Consistent(before, rows, outcome, processedIds, run) && Elements(attempted) == processedIds
      requires Distinct(attempted + fetched) && Elements(fetched) <= before.Keys
      modifies this
      ensures rows == After(before, outcome, Elements(now)) && ErrorOnlyLast(outcome, now)
      ensures now <= attempted + fetched
      ensures r.Ok? ==>
                && now == attempted + fetched && ids == Elements(now) && Consistent(before, rows, outcome, ids, r.value)
                && r.value.batches == run.batches && r.value.fetched == run.fetched
      ensures r.Err? ==> EndsInError(outcome, now)
    {
      var counts := run;
      ids, now := processedIds, attempted;
      for j := 0 to |fetched|
        invariant now == attempted + fetched[..j] && ids == Elements(now)
        invariant Consistent(before, rows, outcome, ids, counts)
        invariant counts.batches == run.batches && counts.fetched == run.fetched
      {
        hide After, Went, Elements, Distinct, SaturatingSucc;
        var id := fetched[j];
        NextOfBatch(attempted, fetched, j);
        NoErrorYet(outcome, now, id);
        OneMoreAfter(before, outcome, ids, id);
        OneMoreWent(outcome, ids, id);
        ids, now := ids + {id}, now + [id];
        var done := ProcessSingleRow(id, outcome);
        if done.Err? {
          return Err(()), ids, now;
        }
        counts := if done.value then counts.(processed := counts.processed + 1)
          else counts.(failed := counts.failed + 1);
      }
      assert fetched[..|fetched|] == fetched;
      r := Ok(counts);
    }

    /** `process_authz_outbox`, with the database answering the fetch of each round as it likes within
        the statement. Either it is a whole drain, which attempts each row once; or the database fails
        it, on a fetch or on the last row it attempted, and the rows before that are settled. */
    method ProcessAuthzOutbox(c: Config, outcome: Id -> Outcome, fetch: (Rows, nat) -> seq<Id>, fetchFails: nat -> bool)
      returns (result: Result<RunResult, ()>, ghost attempted: seq<Id>, ghost fetches: seq<seq<Id>>)
      requires forall t, round :: Fetches(t, c, fetch(t, round))
      modifies this
      ensures InPart(old(rows), rows, c, outcome, fetches, attempted)
      ensures result.Ok? ==> InFull(old(rows), rows, c, outcome, fetches, attempted, result.value)
      ensures result.Err? ==> EndsInError(outcome, attempted) || exists round :: fetchFails(round)
    {
      hide Fetches, Qualifying, After, Went, Exhausted, Attempts, Answered, Distinct, Fresh, Elements, NoDbError,
           ErrorOnlyLast, EndsInError, Underway, Round, Drain, InPart, InFull, Consistent;
      var run := RunResult(0, 0, 0, 0, 0);
      var processedIds: set<Id> := {};
      ghost var before := rows;
      attempted, fetches := [], [];
      NothingYet(before, c, outcome);
      while true
        invariant Underway(before, rows, c, outcome, fetches, attempted, processedIds, run)
        decreases |Qualifying(before, c.maxRetries) - processedIds|
      {
        WhereItStands(before, rows, c, outcome, fetches, attempted, processedIds, run);
        if fetchFails(run.batches) {
          return Err(()), attempted, fetches;
        }
        var window := fetch(rows, run.batches);
        var fetched := Fresh(window, processedIds);
        assert Fetches(rows, c, window);
        if fetched == [] {
          LastRound(before, rows, c, outcome, fetches, attempted, processedIds, run, window);
          fetches := fetches + [window];
          break;
        }
        RoundFetches(before, rows, c, outcome, fetches, attempted, processedIds, run, window);
        ghost var last, done := processedIds, attempted;
        run := run.(batches := run.batches + 1, fetched := run.fetched + |fetched|);
        fetches := fetches + [window];
        var r;
        r, processedIds, attempted := ProcessBatch(fetched, outcome, run, processedIds, before, attempted);
        if r.Err? {
          StopsInBatch(before, rows, c, outcome, fetches, attempted);
          return Err(()), attempted, fetches;
        }
        run := r.value;
        RoundDone(before, rows, c, outcome, fetches, done, fetched, last, run);
      }
      if fetchFails(run.batches + 1) {
        return Err(()), attempted, fetches;
      }
      result := Ok(run.(skipped := |Exhausted(rows, c.maxRetries)|));
    }
  }

  /** The drain after some rounds, each of which brought new rows. */
  ghost predicate Underway(before: Rows, now: Rows, c: Config, outcome: Id -> Outcome, fetches: seq<seq<Id>>,
          attempted: seq<Id>, ids: set<Id>, run: RunResult) {
    && Consistent(before, now, outcome, ids, run) && Answered(before, c, outcome, fetches)
    && attempted == Attempts(fetches) && Distinct(attempted) && ids == Elements(attempted)
    && ids <= Qualifying(before, c.maxRetries)
    && (forall k | 0 <= k < |fetches| :: Round(fetches, k) != [])
    && run.batches == |fetches| && run.fetched == |attempted|
  }

  lemma NothingYet(before: Rows, c: Config, outcome: Id -> Outcome)
    ensures Underway(before, before, c, outcome, [], [], {}, RunResult(0, 0, 0, 0, 0))
  {
    NothingFetched(before, c, outcome);
    assert Went(outcome, {}, Succeeds) == {} && Went(outcome, {}, Fails) == {};
  }

  lemma WhereItStands(before: Rows, now: Rows, c: Config, outcome: Id -> Outcome, fetches: seq<seq<Id>>,
          attempted: seq<Id>, ids: set<Id>, run: RunResult)
    requires Underway(before, now, c, outcome, fetches, attempted, ids, run)
    ensures InPart(before, now, c, outcome, fetches, attempted)
  {
    hide Answered, Attempts, Distinct, Elements, Went, Qualifying, After, NoDbError, ErrorOnlyLast, Round;
    NoErrorYet(outcome, attempted, 0);
  }

  /** A fetch that brings nothing new ends the drain. */
  lemma LastRound(before: Rows, now: Rows, c: Config, outcome: Id -> Outcome, fetches: seq<seq<Id>>,
          attempted: seq<Id>, ids: set<Id>, run: RunResult, window: seq<Id>)
    requires Underway(before, now, c, outcome, fetches, attempted, ids, run) && Fetches(now, c, window)
    requires Fresh(window, ids) == []
    ensures InPart(before, now, c, outcome, fetches + [window], attempted)
    ensures InFull(before, now, c, outcome, fetches + [window], attempted,
                   run.(skipped := |Exhausted(now, c.maxRetries)|))
  {
    hide Answered, Attempts, Distinct, Elements, Went, Qualifying, After, NoDbError, ErrorOnlyLast, Round, Fetches,
         Exhausted, Fresh;
    RoundFetches(before, now, c, outcome, fetches, attempted, ids, run, window);
    assert attempted + [] == attempted;
    NoErrorYet(outcome, attempted, 0);
    AllWent(outcome, ids);
    DistinctHasSize(attempted);
  }

  lemma StopsInBatch(before: Rows, now: Rows, c: Config, outcome: Id -> Outcome, fetches: seq<seq<Id>>,
          attempted: seq<Id>)
    requires Answered(before, c, outcome, fetches) && attempted <= Attempts(fetches) && Distinct(Attempts(fetches))
    requires Elements(Attempts(fetches)) <= Qualifying(before, c.maxRetries)
    requires now == After(before, outcome, Elements(attempted)) && ErrorOnlyLast(outcome, attempted)
    ensures InPart(before, now, c, outcome, fetches, attempted)
  {
    hide Answered, Attempts, Distinct, Elements, Qualifying, After, ErrorOnlyLast;
    PrefixIsDistinct(attempted, Attempts(fetches), Qualifying(before, c.maxRetries));
  }

  lemma RoundDone(before: Rows, now: Rows, c: Config, outcome: Id -> Outcome, fetches: seq<seq<Id>>,
          attempted: seq<Id>, fetched: seq<Id>, last: set<Id>, run: RunResult)
    requires Answered(before, c, outcome, fetches) && Attempts(fetches) == attempted + fetched
    requires Distinct(attempted + fetched) && last <= Qualifying(before, c.maxRetries) && fetched != []
    requires Elements(attempted + fetched) == last + Elements(fetched)
    requires Elements(fetched) <= Qualifying(before, c.maxRetries) - last
    requires forall k | 0 <= k < |fetches| :: Round(fetches, k) != []
    requires Consistent(before, now, outcome, Elements(attempted + fetched), run)
    requires run.batches == |fetches| && run.fetched == |attempted + fetched|
    ensures Underway(before, now, c, outcome, fetches, attempted + fetched, Elements(attempted + fetched), run)
    ensures |Qualifying(before, c.maxRetries) - Elements(attempted + fetched)|
        < |Qualifying(before, c.maxRetries) - last|
  {
    hide Answered, Attempts, Distinct, Went, Qualifying, After, NoDbError, Round, Consistent;
    assert fetched[0] in Elements(fetched);
    ProperSubsetSize(Qualifying(before, c.maxRetries) - Elements(attempted + fetched),
      Qualifying(before, c.maxRetries) - last);
  }

  lemma PrefixIsDistinct(a: seq<Id>, b: seq<Id>, all: set<Id>)
    requires a <= b && Distinct(b) && Elements(b) <= all
    ensures Distinct(a) && Elements(a) <= all
  {
    forall id | id in Elements(a) ensures id in Elements(b) {
      var k :| 0 <= k < |a| && a[k] == id;
      assert b[k] == id;
    }
  }

  lemma RoundFetches(before: Rows, now: Rows, c: Config, outcome: Id -> Outcome, fetches: seq<seq<Id>>,
          attempted: seq<Id>, ids: set<Id>, run: RunResult, window: seq<Id>)
    requires Underway(before, now, c, outcome, fetches, attempted, ids, run) && Fetches(now, c, window)
    ensures var fetched, more := Fresh(window, ids), fetches + [window];
            && Answered(before, c, outcome, more) && Attempts(more) == attempted + fetched
            && Distinct(attempted + fetched) && Elements(attempted + fetched) == ids + Elements(fetched)
            && Elements(fetched) <= Qualifying(before, c.maxRetries) - ids
            && Qualifying(before, c.maxRetries) <= before.Keys
            && Round(more, |fetches|) == fetched
            && (forall k | 0 <= k < |fetches| :: Round(more, k) != [])
    ensures Consistent(before, now, outcome, ids, run.(batches := run.batches + 1,
                                                       fetched := run.fetched + |Fresh(window, ids)|))
    ensures Elements(attempted) == ids
    ensures ids <= Qualifying(before, c.maxRetries) && run.batches == |fetches| && run.fetched == |attempted|
  {
    hide Fetches, Qualifying, After, Went, Attempts, Answered, Distinct, Fresh, Elements, Round, Stuck;
    var fetched := Fresh(window, ids);
    OneMoreFetch(before, c, outcome, fetches, window);
    QualifyingAfter(before, c.maxRetries, outcome, ids);
    StuckQualify(before, c.maxRetries, outcome);
    FreshIs(window, ids);
    DistinctAppend(attempted, fetched);
    ElementsAppend(attempted, fetched);
    NothingNew(window, ids);
  }

  // ----- What a drain leaves in the table -----

  /** A row that was attempted is processed, with its count as it was, or failed with its count raised by
      one (up to the column's limit), as it went; every other row is as it was. */
  lemma RowsAfterDrain(before: Rows, now: Rows, c: Config, outcome: Id -> Outcome, fetches: seq<seq<Id>>,
          attempted: seq<Id>, id: Id)
    requires InPart(before, now, c, outcome, fetches, attempted)
    ensures id in now <==> id in before
    ensures id in before ==>
              var b, r := before[id], now[id];
              && r.createdAt == b.createdAt
              && (id in attempted && outcome(id) == Succeeds ==> r.status == Processed && r.retries == b.retries)
              && (id in attempted && outcome(id) == Fails ==>
                    r.status == Failed && r.retries == (if b.retries < I32_MAX then b.retries + 1 else I32_MAX))
              && (id !in attempted || outcome(id) == DbError ==> r == b)
  {
    hide Answered, Attempts, Distinct, Qualifying, ErrorOnlyLast;
  }

  function ProcessedRows(rows: Rows): set<Id> {
    set id | id in rows && rows[id].status == Processed
  }

  /** When a drain is over, each row is processed, or will be tried again by the next drain, or is
      counted as given up: a failed row whose count has reached the limit. */
  lemma EveryRowIsAccountedFor(before: Rows, now: Rows, c: Config, outcome: Id -> Outcome, fetches: seq<seq<Id>>,
          attempted: seq<Id>, run: RunResult)
    requires InFull(before, now, c, outcome, fetches, attempted, run)
    ensures |now| == |ProcessedRows(now)| + |Qualifying(now, c.maxRetries)| + run.skipped
  {
    hide Drain, Attempts, Went, Elements;
    ThreeParts(now.Keys, ProcessedRows(now), Qualifying(now, c.maxRetries), Exhausted(now, c.maxRetries));
    assert |now.Keys| == |now|;
  }

  lemma ThreeParts(all: set<Id>, a: set<Id>, b: set<Id>, c: set<Id>)
    requires all == a + b + c && a !! b && a !! c && b !! c
    ensures |all| == |a| + |b| + |c|
  {
    assert |a + b| == |a| + |b|;
  }
}
