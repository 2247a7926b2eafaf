/** Building the retention report (gmrag_api/src/retention_report.rs:244-362, 717-725). */
module RetentionReport {
  import opened Wrappers
  import opened Collections
  import opened Residue
  import opened Retention

  datatype KeyIds = KeyIds(tenant: Option<Id>, workspace: Option<Id>, document: Option<Id>)

  /** What was read before the report is built; None is a store that was not probed. */
  datatype Inputs = Inputs(inventory: Inventory, vectors: Option<seq<Pair>>, keys: Option<seq<string>>,
          owedVectors: seq<OwedVector>,
                           owedObjects: seq<OwedObject>, events: seq<DeleteEvent>, idsOf: string -> KeyIds)

  datatype VectorResidue = VectorResidue(pair: Pair, workspaceLive: bool, class_: Class, owed: Option<string>,
          event: Option<DeleteEvent>)

  datatype ObjectResidue = ObjectResidue(key: string, ids: KeyIds, class_: Class, owed: Option<string>,
          event: Option<DeleteEvent>)

  datatype Counts = Counts(vectors: nat, objects: nat, pending: nat, dead: nat, unrecovered: nat, unexplained: nat)

  datatype Report = Report(counts: Counts, byClass: map<Class, nat>, vectors: seq<VectorResidue>,
          objects: seq<ObjectResidue>,
                           vectorsTruncated: bool, objectsTruncated: bool)

  // ----- Residue -----

  /** The first occurrences of the elements that are not live. */
  function Leftover<T(==)>(seen: seq<T>, live: T -> bool): seq<T> {
    if seen == [] then []
    else
      var front, x := seen[..|seen| - 1], seen[|seen| - 1];
      Leftover(front, live) + if live(x) || x in front then [] else [x]
  }

  lemma {:induction false} LeftoverIs<T>(seen: seq<T>, live: T -> bool)
    ensures Distinct(Leftover(seen, live)) && forall x :: x in Leftover(seen, live) <==> x in seen && !live(x)
  {
    if seen != [] {
      var front, x := seen[..|seen| - 1], seen[|seen| - 1];
      LeftoverIs(front, live);
      assert seen == front + [x];
    }
  }

  /** How the loops below extend what they have kept. */
  lemma OneMoreSeen<T>(seen: seq<T>, i: nat, live: T -> bool)
    requires i < |seen|
    ensures seen[..i + 1] == seen[..i] + [seen[i]]
    ensures Leftover(seen[..i + 1], live)
        == Leftover(seen[..i], live) + if live(seen[i]) || seen[i] in seen[..i] then [] else [seen[i]]
  {
    assert seen[..i + 1][..i] == seen[..i];
  }

  function VectorRow(inputs: Inputs, p: Pair): VectorResidue {
    var owed := PickOwedStatus(VectorStatuses(inputs.owedVectors, p));
    var event := LatestDeleteEvent(inputs.events, None, Some(p.workspace), Some(p.document));
    VectorResidue(p, p.workspace in inputs.inventory.workspaces, Classify(owed, event.Some?), owed, event)
  }

  function ObjectRow(inputs: Inputs, key: string): ObjectResidue {
    var ids := inputs.idsOf(key);
    var owed := PickOwedStatus(ObjectStatuses(inputs.owedObjects, key));
    var event := LatestDeleteEvent(inputs.events, ids.tenant, ids.workspace, ids.document);
    ObjectResidue(key, ids, Classify(owed, event.Some?), owed, event)
  }

  function Mapped<T, U>(xs: seq<T>, f: T -> U): seq<U> {
    seq(|xs|, i requires 0 <= i < |xs| => f(xs[i]))
  }

  function LivePair(inputs: Inputs): Pair -> bool {
    p => Live(inputs.inventory, p)
  }

  function LiveKey(inputs: Inputs): string -> bool {
    key => key in inputs.inventory.objectKeys
  }

  function VectorRowOf(inputs: Inputs): Pair -> VectorResidue {
    p => VectorRow(inputs, p)
  }

  function ObjectRowOf(inputs: Inputs): string -> ObjectResidue {
    key => ObjectRow(inputs, key)
  }

  function VectorRows(inputs: Inputs): seq<VectorResidue> {
    if inputs.vectors.None? then [] else Mapped(Leftover(inputs.vectors.value, LivePair(inputs)), VectorRowOf(inputs))
  }

  function ObjectRows(inputs: Inputs): seq<ObjectResidue> {
    if inputs.keys.None? then [] else Mapped(Leftover(inputs.keys.value, LiveKey(inputs)), ObjectRowOf(inputs))
  }

  /** `collect_vector_residue`. */
  method CollectVectorResidue(inputs: Inputs) returns (residue: seq<VectorResidue>)
    ensures residue == VectorRows(inputs)
  {
    residue := [];
    if inputs.vectors.None? {
      return;
    }
    var points := inputs.vectors.value;
    var seen: set<Pair> := {};
    ghost var live := LivePair(inputs);
    for i := 0 to |points|
      invariant seen == set p | p in points[..i]
      invariant |residue| == |Leftover(points[..i], live)|
      invariant forall k | 0 <= k < |residue| :: residue[k] == VectorRow(inputs, Leftover(points[..i], live)[k])
    {
      hide VectorRow, Leftover;
      var p := points[i];
      OneMoreSeen(points, i, live);
      if p !in seen && !(p.workspace in inputs.inventory.workspaces && p in inputs.inventory.documents) {
        residue := residue + [VectorRow(inputs, p)];
      }
      seen := seen + {p};
    }
    assert points[..|points|] == points;
  }

  /** `collect_object_residue`. */
  method CollectObjectResidue(inputs: Inputs) returns (residue: seq<ObjectResidue>)
    ensures residue == ObjectRows(inputs)
  {
    residue := [];
    if inputs.keys.None? {
      return;
    }
    var keys := inputs.keys.value;
    var seen: set<string> := {};
    ghost var live := LiveKey(inputs);
    for i := 0 to |keys|
      invariant seen == set k | k in keys[..i]
      invariant |residue| == |Leftover(keys[..i], live)|
      invariant forall k | 0 <= k < |residue| :: residue[k] == ObjectRow(inputs, Leftover(keys[..i], live)[k])
    {
      hide ObjectRow, Leftover;
      var key := keys[i];
      OneMoreSeen(keys, i, live);
      if key !in seen && key !in inputs.inventory.objectKeys {
        residue := residue + [ObjectRow(inputs, key)];
      }
      seen := seen + {key};
    }
    assert keys[..|keys|] == keys;
  }

  /** A row of the report, said of what was read: the owing rows that cover the pair, and the latest
      delete event that does. */
  lemma VectorRowMeans(inputs: Inputs, p: Pair)
    ensures var r, owed, events := VectorRow(inputs, p), inputs.owedVectors, inputs.events;
            && r.pair == p && (r.workspaceLive <==> p.workspace in inputs.inventory.workspaces)
            && r.class_ == VectorClass(owed, events, p)
            && (r.owed.Some? <==> exists i | 0 <= i < |owed| :: VectorOwed(owed[i], p))
            && (r.owed.Some? ==> OwedWith(owed, p, r.owed.value))
            && (r.event.Some? <==>
                  exists i | 0 <= i < |events| :: EventCovers(events[i], None, Some(p.workspace), Some(p.document)))
            && (r.event.Some? ==>
                  && r.event.value in events && EventCovers(r.event.value, None, Some(p.workspace), Some(p.document))
                  && forall i | 0 <= i < |events|
                     && EventCovers(events[i], None, Some(p.workspace), Some(p.document)) ::
                       events[i].createdAt <= r.event.value.createdAt)
  {
    hide VectorOwed, EventCovers, PickOwedStatus, LatestDeleteEvent, VectorStatuses, Classify;
    var statuses := VectorStatuses(inputs.owedVectors, p);
    VectorStatusesAre(inputs.owedVectors, p);
    PickedStatus(statuses);
    var k := LatestIsLatest(inputs.events, None, Some(p.workspace), Some(p.document));
    forall i | 0 <= i < |inputs.owedVectors| && VectorOwed(inputs.owedVectors[i], p)
      ensures inputs.owedVectors[i].status in statuses
    {
    }
    if statuses != [] { FirstIsIn(statuses); }
  }

  lemma ObjectRowMeans(inputs: Inputs, key: string)
    ensures var r, owed, events, ids := ObjectRow(inputs, key), inputs.owedObjects, inputs.events, inputs.idsOf(key);
            && r.key == key && r.ids == ids
            && r.class_ == ObjectClass(owed, events, key, ids.tenant, ids.workspace, ids.document)
            && (r.owed.Some? <==> exists i | 0 <= i < |owed| :: ObjectOwed(owed[i], key))
            && (r.owed.Some? ==> ObjectOwedWith(owed, key, r.owed.value))
            && (r.event.Some? <==>
                  exists i | 0 <= i < |events| :: EventCovers(events[i], ids.tenant, ids.workspace, ids.document))
            && (r.event.Some? ==>
                  && r.event.value in events && EventCovers(r.event.value, ids.tenant, ids.workspace, ids.document)
                  && forall i | 0 <= i < |events| && EventCovers(events[i], ids.tenant, ids.workspace, ids.document) ::
                       events[i].createdAt <= r.event.value.createdAt)
  {
    hide ObjectOwed, EventCovers, PickOwedStatus, LatestDeleteEvent, ObjectStatuses, Classify;
    var ids := inputs.idsOf(key);
    var statuses := ObjectStatuses(inputs.owedObjects, key);
    ObjectStatusesAre(inputs.owedObjects, key);
    PickedStatus(statuses);
    var k := LatestIsLatest(inputs.events, ids.tenant, ids.workspace, ids.document);
    forall i | 0 <= i < |inputs.owedObjects| && ObjectOwed(inputs.owedObjects[i], key)
      ensures inputs.owedObjects[i].status in statuses
    {
    }
    if statuses != [] { FirstIsIn(statuses); }
  }

  lemma FirstIsIn(statuses: seq<string>)
    requires statuses != []
    ensures exists s :: s in statuses && s == statuses[0]
  {
    var s := statuses[0];
    assert s in statuses;
  }

  /** Work that an outbox row owes covers a pair exactly if the deletion it stands for would. */
  lemma OwedIsCovered(owed: OwedVector, p: Pair)
    ensures VectorOwed(owed, p) <==> Covers(TargetOf(owed), p)
  {
  }

  function TargetOf(owed: OwedVector): DeleteTarget {
    match owed
    case OwedDocument(workspace, document, _) => TargetDocument(Pair(workspace, document))
    case OwedWorkspace(workspace, _) => TargetWorkspace(workspace)
    case OwedWorkspaces(workspaces, _) => TargetWorkspaces(workspaces)
  }

  // ----- Sorting -----

  function Inserted<T>(le: (T, T) -> bool, x: T, sorted: seq<T>): seq<T> {
    if sorted == [] || !le(sorted[0], x) then [x] + sorted else [sorted[0]] + Inserted(le, x, sorted[1..])
  }

  /** A stable sort. */
  function SortedBy<T>(le: (T, T) -> bool, xs: seq<T>): seq<T> {
    if xs == [] then [] else Inserted(le, xs[|xs| - 1], SortedBy(le, xs[..|xs| - 1]))
  }

  lemma {:induction false} InsertedHas<T>(le: (T, T) -> bool, x: T, sorted: seq<T>)
    ensures multiset(Inserted(le, x, sorted)) == multiset(sorted) + multiset{x}
  {
    if !(sorted == [] || !le(sorted[0], x)) {
      InsertedHas(le, x, sorted[1..]);
      assert sorted == [sorted[0]] + sorted[1..];
    }
  }

  lemma {:induction false} SortedHas<T>(le: (T, T) -> bool, xs: seq<T>)
    ensures multiset(SortedBy(le, xs)) == multiset(xs)
  {
    if xs != [] {
      SortedHas(le, xs[..|xs| - 1]);
      InsertedHas(le, xs[|xs| - 1], SortedBy(le, xs[..|xs| - 1]));
      assert xs == xs[..|xs| - 1] + [xs[|xs| - 1]];
    }
  }

  predicate PairNoLater(a: VectorResidue, b: VectorResidue) {
    a.pair.workspace < b.pair.workspace || (a.pair.workspace == b.pair.workspace && a.pair.document <= b.pair.document)
  }

  predicate KeyNoLater(a: ObjectResidue, b: ObjectResidue) {
    NoLater(a.key, b.key)
  }

  ghost predicate Ordering<T(!new)>(le: (T, T) -> bool) {
    && (forall a, b :: le(a, b) || le(b, a))
    && forall a, b, c :: le(a, b) && le(b, c) ==> le(a, c)
  }

  predicate Ordered<T>(le: (T, T) -> bool, xs: seq<T>) {
    forall i, j | 0 <= i < j < |xs| :: le(xs[i], xs[j])
  }

  lemma {:induction false} InsertedIsOrdered<T(!new)>(le: (T, T) -> bool, x: T, sorted: seq<T>)
    requires Ordering(le) && Ordered(le, sorted)
    ensures Ordered(le, Inserted(le, x, sorted))
    ensures sorted != [] && le(sorted[0], x) ==> Inserted(le, x, sorted)[0] == sorted[0]
  {
    if !(sorted == [] || !le(sorted[0], x)) {
      InsertedIsOrdered(le, x, sorted[1..]);
      var rest := Inserted(le, x, sorted[1..]);
      forall i | 0 <= i < |rest| ensures le(sorted[0], rest[i]) {
        if sorted[1..] != [] && le(sorted[1], x) {
          assert rest[0] == sorted[1] && le(sorted[0], sorted[1]);
        }
        assert le(sorted[0], rest[0]);
      }
    }
  }

  lemma {:induction false} SortedIsOrdered<T(!new)>(le: (T, T) -> bool, xs: seq<T>)
    requires Ordering(le)
    ensures Ordered(le, SortedBy(le, xs))
  {
    if xs != [] {
      SortedIsOrdered(le, xs[..|xs| - 1]);
      InsertedIsOrdered(le, xs[|xs| - 1], SortedBy(le, xs[..|xs| - 1]));
    }
  }

  // ----- The report -----

  function Classes(vectors: seq<VectorResidue>, objects: seq<ObjectResidue>): seq<Class> {
    Mapped(vectors, (r: VectorResidue) => r.class_) + Mapped(objects, (r: ObjectResidue) => r.class_)
  }

  function CountOf(classes: seq<Class>, c: Class): nat {
    if classes == [] then 0 else CountOf(classes[..|classes| - 1], c) + if classes[|classes| - 1] == c then 1 else 0
  }

  /** The counting loop. */
  method CountClasses(classes: seq<Class>, vectors: nat, objects: nat) returns (counts: Counts,
          byClass: map<Class, nat>)
    ensures counts == Counts(vectors, objects, CountOf(classes, RecoveryPending), CountOf(classes, RecoveryDead),
                             CountOf(classes, Unrecovered), CountOf(classes, Unexplained))
    ensures forall c :: CountOf(classes, c) == if c in byClass then byClass[c] else 0
  {
    counts := Counts(vectors, objects, 0, 0, 0, 0);
    byClass := map[];
    for i := 0 to |classes|
      invariant counts
          == Counts(vectors, objects, CountOf(classes[..i], RecoveryPending), CountOf(classes[..i], RecoveryDead),
                                 CountOf(classes[..i], Unrecovered), CountOf(classes[..i], Unexplained))
      invariant forall c :: CountOf(classes[..i], c) == if c in byClass then byClass[c] else 0
    {
      var c := classes[i];
      OneMoreCounted(classes, i);
      hide CountOf;
      byClass := byClass[c := (if c in byClass then byClass[c] else 0) + 1];
      match c {
        case RecoveryPending => counts := counts.(pending := counts.pending + 1);
        case RecoveryDead => counts := counts.(dead := counts.dead + 1);
        case Unrecovered => counts := counts.(unrecovered := counts.unrecovered + 1);
        case Unexplained => counts := counts.(unexplained := counts.unexplained + 1);
      }
    }
    assert classes[..|classes|] == classes;
  }

  lemma OneMoreCounted(classes: seq<Class>, i: nat)
    requires i < |classes|
    ensures forall c :: CountOf(classes[..i + 1], c) == CountOf(classes[..i], c) + if classes[i] == c then 1 else 0
  {
    assert classes[..i + 1][..i] == classes[..i];
  }

  /** `build_retention_report`. */
  method BuildRetentionReport(inputs: Inputs, sampleLimit: nat) returns (report: Report)
    ensures var vectors := SortedBy(PairNoLater, VectorRows(inputs));
            var objects := SortedBy(KeyNoLater, ObjectRows(inputs));
            && report.vectors == Take(vectors, sampleLimit) && report.vectorsTruncated == (|vectors| > sampleLimit)
            && report.objects == Take(objects, sampleLimit) && report.objectsTruncated == (|objects| > sampleLimit)
            && Counted(report, vectors, objects)
  {
    var vectors := CollectVectorResidue(inputs);
    var objects := CollectObjectResidue(inputs);
    vectors := SortedBy(PairNoLater, vectors);
    objects := SortedBy(KeyNoLater, objects);
    hide Classes, CountOf;
    var counts, byClass := CountClasses(Classes(vectors, objects), |vectors|, |objects|);
    report := Report(counts, byClass, Take(vectors, sampleLimit), Take(objects, sampleLimit),
                     |vectors| > sampleLimit, |objects| > sampleLimit);
  }

  /** The counts are those of the whole lists. */
  ghost predicate Counted(report: Report, vectors: seq<VectorResidue>, objects: seq<ObjectResidue>) {
    var classes := Classes(vectors, objects);
    && report.counts == Counts(|vectors|, |objects|, CountOf(classes, RecoveryPending), CountOf(classes, RecoveryDead),
                               CountOf(classes, Unrecovered), CountOf(classes, Unexplained))
    && forall c :: CountOf(classes, c) == if c in report.byClass then report.byClass[c] else 0
  }

  /** `retention_exit_code`: 0 is clear, 2 asks for action. */
  function ExitCode(report: Report): int {
    if report.counts.dead + report.counts.unrecovered + report.counts.unexplained > 0 then 2 else 0
  }

  // ----- The main results -----

  lemma {:induction false} ClassesAddUp(classes: seq<Class>)
    ensures CountOf(classes, RecoveryPending) + CountOf(classes, RecoveryDead)
            + CountOf(classes, Unrecovered) + CountOf(classes, Unexplained) == |classes|
  {
    if classes != [] { ClassesAddUp(classes[..|classes| - 1]); }
  }

  lemma {:induction false} AllPendingIff(classes: seq<Class>)
    ensures CountOf(classes, RecoveryPending) == |classes| <==> forall c | c in classes :: c == RecoveryPending
    ensures CountOf(classes, RecoveryPending) <= |classes|
  {
    if classes != [] {
      var front, last := classes[..|classes| - 1], classes[|classes| - 1];
      AllPendingIff(front);
      assert classes == front + [last];
      assert last in classes && forall c | c in front :: c in classes;
    }
  }

  /** The counts over the classes add up to the total residue, whatever the sample limit. */
  lemma CountsAddUp(report: Report, vectors: seq<VectorResidue>, objects: seq<ObjectResidue>)
    requires Counted(report, vectors, objects)
    ensures report.counts.pending + report.counts.dead + report.counts.unrecovered + report.counts.unexplained
         == report.counts.vectors + report.counts.objects == |vectors| + |objects|
  {
    ClassesAddUp(Classes(vectors, objects));
  }

  lemma ClassesAre(vectors: seq<VectorResidue>, objects: seq<ObjectResidue>)
    ensures (forall c | c in Classes(vectors, objects) :: c == RecoveryPending)
       <==> (forall r | r in vectors :: r.class_ == RecoveryPending)
            && (forall r | r in objects :: r.class_ == RecoveryPending)
  {
    var classes := Classes(vectors, objects);
    assert forall i | 0 <= i < |vectors| :: classes[i] == vectors[i].class_;
    assert forall i | 0 <= i < |objects| :: classes[|vectors| + i] == objects[i].class_;
    if forall c | c in classes :: c == RecoveryPending {
      forall r | r in vectors ensures r.class_ == RecoveryPending {
        var i :| 0 <= i < |vectors| && vectors[i] == r;
        assert classes[i] in classes;
      }
      forall r | r in objects ensures r.class_ == RecoveryPending {
        var i :| 0 <= i < |objects| && objects[i] == r;
        assert classes[|vectors| + i] in classes;
      }
    }
  }

  /** The report lists exactly the pairs that were seen and are not live, each with its class. */
  lemma VectorRowsAre(inputs: Inputs, scanned: seq<Pair>)
    requires inputs.vectors == Some(scanned)
    ensures var rows := VectorRows(inputs);
            && (forall p :: VectorRow(inputs, p) in rows <==> p in scanned && !Live(inputs.inventory, p))
            && (forall r | r in rows :: r == VectorRow(inputs, r.pair))
            && forall i, j | 0 <= i < j < |rows| :: rows[i].pair != rows[j].pair
  {
    hide Leftover, Mapped, VectorRow, Live;
    var pairs := Leftover(scanned, LivePair(inputs));
    LeftoverIs(scanned, LivePair(inputs));
    forall p ensures VectorRow(inputs, p).pair == p { RowsKeepNames(inputs, p, ""); }
    MappedAre(pairs, VectorRowOf(inputs));
    var rows := VectorRows(inputs);
    forall p | VectorRow(inputs, p) in rows ensures p in pairs {
      var i :| 0 <= i < |rows| && rows[i] == VectorRow(inputs, p);
      assert rows[i] == VectorRow(inputs, pairs[i]);
    }
  }

  lemma ObjectRowsAre(inputs: Inputs, keys: seq<string>)
    requires inputs.keys == Some(keys)
    ensures var rows := ObjectRows(inputs);
            && (forall k :: ObjectRow(inputs, k) in rows <==> k in keys && k !in inputs.inventory.objectKeys)
            && (forall r | r in rows :: r == ObjectRow(inputs, r.key))
            && forall i, j | 0 <= i < j < |rows| :: rows[i].key != rows[j].key
  {
    hide Leftover, Mapped, ObjectRow;
    var found := Leftover(keys, LiveKey(inputs));
    LeftoverIs(keys, LiveKey(inputs));
    forall k ensures ObjectRow(inputs, k).key == k { RowsKeepNames(inputs, Pair(0, 0), k); }
    MappedAre(found, ObjectRowOf(inputs));
    var rows := ObjectRows(inputs);
    forall k | ObjectRow(inputs, k) in rows ensures k in found {
      var i :| 0 <= i < |rows| && rows[i] == ObjectRow(inputs, k);
      assert rows[i] == ObjectRow(inputs, found[i]);
    }
  }

  lemma RowsKeepNames(inputs: Inputs, p: Pair, key: string)
    ensures VectorRow(inputs, p).pair == p && ObjectRow(inputs, key).key == key
  {
  }

  lemma MappedAre<T, U>(xs: seq<T>, f: T -> U)
    ensures |Mapped(xs, f)| == |xs| && forall i | 0 <= i < |xs| :: Mapped(xs, f)[i] == f(xs[i])
    ensures forall x | x in xs :: f(x) in Mapped(xs, f)
  {
    forall x | x in xs ensures f(x) in Mapped(xs, f) {
      var i :| 0 <= i < |xs| && xs[i] == x;
      assert Mapped(xs, f)[i] == f(x);
    }
  }

  /** On one snapshot, the targets of the orphan scan cover, among the pairs it saw, exactly those that
      the report lists before truncation. */
  lemma TargetsCoverTheReport(inputs: Inputs, points: seq<Option<Pair>>, pageSize: nat, targets: seq<DeleteTarget>,
          p: Pair)
    requires inputs.vectors == Some(Scanned(points, pageSize))
    requires TargetsAreOrphans(targets, Scanned(points, pageSize), inputs.inventory) && p in Scanned(points, pageSize)
    ensures Targeted(targets, p) <==> VectorRow(inputs, p) in SortedBy(PairNoLater, VectorRows(inputs))
  {
    hide TargetsAreOrphans, Targeted, Live, VectorRow, VectorRows, Scanned;
    var rows := VectorRows(inputs);
    TargetsCoverOrphans(targets, Scanned(points, pageSize), inputs.inventory, p);
    VectorRowsAre(inputs, Scanned(points, pageSize));
    SortedHas(PairNoLater, rows);
    SameElements(SortedBy(PairNoLater, rows), rows);
  }

  lemma SameElements<T>(a: seq<T>, b: seq<T>)
    requires multiset(a) == multiset(b)
    ensures forall x :: x in a <==> x in b
  {
    forall x ensures x in a <==> x in b {
      assert x in a <==> x in multiset(a);
      assert x in b <==> x in multiset(b);
    }
  }

  /** The exit code is clear if and only if all residue is being recovered. */
  lemma ExitIsClearIff(inputs: Inputs, report: Report)
    requires Counted(report, SortedBy(PairNoLater, VectorRows(inputs)), SortedBy(KeyNoLater, ObjectRows(inputs)))
    ensures ExitCode(report) == 0 <==>
              && (inputs.vectors.Some? ==> forall p | p in inputs.vectors.value && !Live(inputs.inventory, p) ::
                    VectorRow(inputs, p).class_ == RecoveryPending)
              && (inputs.keys.Some? ==> forall k | k in inputs.keys.value && k !in inputs.inventory.objectKeys ::
                    ObjectRow(inputs, k).class_ == RecoveryPending)
  {
    hide VectorRow, ObjectRow, Live, VectorRows, ObjectRows, SortedBy, Classes, CountOf;
    var vectors := SortedBy(PairNoLater, VectorRows(inputs));
    var objects := SortedBy(KeyNoLater, ObjectRows(inputs));
    CountsAddUp(report, vectors, objects);
    ClassesLength(vectors, objects);
    AllPendingIff(Classes(vectors, objects));
    ClassesAre(vectors, objects);
    SortedHas(PairNoLater, VectorRows(inputs));
    SortedHas(KeyNoLater, ObjectRows(inputs));
    SameElements(vectors, VectorRows(inputs));
    SameElements(objects, ObjectRows(inputs));
    if inputs.vectors.Some? { VectorRowsAre(inputs, inputs.vectors.value); } else { NoRows(inputs); }
    if inputs.keys.Some? { ObjectRowsAre(inputs, inputs.keys.value); } else { NoRows(inputs); }
  }

  /** Residue is being recovered if an owing row covers it and not all that count are dead. */
  predicate VectorRecovers(owed: seq<OwedVector>, p: Pair) {
    && (exists i | 0 <= i < |owed| :: VectorOwed(owed[i], p))
    && (OwedWith(owed, p, "DEAD") ==> OwedWith(owed, p, "PENDING") || OwedWith(owed, p, "FAILED"))
  }

  predicate ObjectRecovers(owed: seq<OwedObject>, key: string) {
    && (exists i | 0 <= i < |owed| :: ObjectOwed(owed[i], key))
    && (ObjectOwedWith(owed, key, "DEAD") ==>
          ObjectOwedWith(owed, key, "PENDING") || ObjectOwedWith(owed, key, "FAILED"))
  }

  /** Said of the outbox: the exit code is clear if and only if every dead pair that was seen, and every
      dead key, is covered by a row that will still clean it up; whatever was deleted and audited. */
  lemma ExitIsClearMeans(inputs: Inputs, report: Report)
    requires Counted(report, SortedBy(PairNoLater, VectorRows(inputs)), SortedBy(KeyNoLater, ObjectRows(inputs)))
    ensures ExitCode(report) == 0 <==>
              && (inputs.vectors.Some? ==> forall p | p in inputs.vectors.value
                    && !(p.workspace in inputs.inventory.workspaces && p in inputs.inventory.documents) ::
                    VectorRecovers(inputs.owedVectors, p))
              && (inputs.keys.Some? ==> forall k | k in inputs.keys.value && k !in inputs.inventory.objectKeys ::
                    ObjectRecovers(inputs.owedObjects, k))
  {
    hide VectorRow, ObjectRow, Counted, VectorRows, ObjectRows, SortedBy, VectorClass, ObjectClass, VectorOwed,
         ObjectOwed, EventCovers, OwedWith, ObjectOwedWith, ExitCode;
    ExitIsClearIff(inputs, report);
    forall p ensures VectorRow(inputs, p).class_ == RecoveryPending <==> VectorRecovers(inputs.owedVectors, p) {
      VectorRowMeans(inputs, p);
      VectorClassMeans(inputs.owedVectors, inputs.events, p);
    }
    forall k ensures ObjectRow(inputs, k).class_ == RecoveryPending <==> ObjectRecovers(inputs.owedObjects, k) {
      ObjectRowMeans(inputs, k);
      var ids := inputs.idsOf(k);
      ObjectClassMeans(inputs.owedObjects, inputs.events, k, ids.tenant, ids.workspace, ids.document);
    }
  }

  lemma ClassesLength(vectors: seq<VectorResidue>, objects: seq<ObjectResidue>)
    ensures |Classes(vectors, objects)| == |vectors| + |objects|
  {
  }

  lemma NoRows(inputs: Inputs)
    ensures inputs.vectors.None? ==> VectorRows(inputs) == []
    ensures inputs.keys.None? ==> ObjectRows(inputs) == []
  {
  }

  /** The lists are sorted, by workspace and then document, and by key; so a truncated one holds the
      first entries. */
  lemma ReportIsOrdered(inputs: Inputs, sampleLimit: nat)
    ensures var rows := Take(SortedBy(PairNoLater, VectorRows(inputs)), sampleLimit);
            forall i, j | 0 <= i < j < |rows| ::
              rows[i].pair.workspace < rows[j].pair.workspace
              || (rows[i].pair.workspace == rows[j].pair.workspace
                  && rows[i].pair.document <= rows[j].pair.document)
    ensures var rows := Take(SortedBy(KeyNoLater, ObjectRows(inputs)), sampleLimit);
            forall i, j | 0 <= i < j < |rows| :: NoLater(rows[i].key, rows[j].key)
    ensures Ordered(PairNoLater, Take(SortedBy(PairNoLater, VectorRows(inputs)), sampleLimit))
    ensures Ordered(KeyNoLater, Take(SortedBy(KeyNoLater, ObjectRows(inputs)), sampleLimit))
  {
    hide SortedBy, NoLater, VectorRows, ObjectRows;
    assert Ordering(PairNoLater);
    forall a: ObjectResidue, b: ObjectResidue, c: ObjectResidue
      ensures (KeyNoLater(a, b) || KeyNoLater(b, a)) && (KeyNoLater(a, b) && KeyNoLater(b, c) ==> KeyNoLater(a, c))
    {
      NoLaterOrders(a.key, b.key, c.key);
    }
    assert Ordering(KeyNoLater);
    SortedIsOrdered(PairNoLater, VectorRows(inputs));
    SortedIsOrdered(KeyNoLater, ObjectRows(inputs));
  }
}
