/** How residue is classified (gmrag_api/src/retention_report.rs:379-491). */
module Residue {
  import opened Wrappers

  type Id = nat

  datatype Pair = Pair(workspace: Id, document: Id)

  /** Work that an outbox row still owes, with the row's status. */
  datatype OwedVector =
    | OwedDocument(workspace: Id, document: Id, status: string)
    | OwedWorkspace(workspace: Id, status: string)
    | OwedWorkspaces(workspaces: seq<Id>, status: string)

  datatype OwedObject =
    | OwedKey(key: string, status: string)
    | OwedPrefix(prefix: string, status: string)

  datatype EventType = DocumentDeleted | WorkspaceDeleted | TenantDeleted | OtherEvent(name: string)

  datatype DeleteEvent = DeleteEvent(eventType: EventType, createdAt: int, tenant: Option<Id>, workspace: Option<Id>,
          document: Option<Id>)

  datatype Class = RecoveryPending | RecoveryDead | Unrecovered | Unexplained

  const PENDING := "PENDING"
  const FAILED := "FAILED"
  const DEAD := "DEAD"

  predicate VectorOwed(target: OwedVector, p: Pair) {
    match target
    case OwedDocument(workspace, document, _) => Pair(workspace, document) == p
    case OwedWorkspace(workspace, _) => workspace == p.workspace
    case OwedWorkspaces(workspaces, _) => p.workspace in workspaces
  }

  predicate ObjectOwed(target: OwedObject, key: string) {
    match target
    case OwedKey(owed, _) => owed == key
    case OwedPrefix(prefix, _) => prefix <= key
  }

  function VectorStatuses(owed: seq<OwedVector>, p: Pair): seq<string> {
    if owed == [] then []
    else (if VectorOwed(owed[0], p) then [owed[0].status] else []) + VectorStatuses(owed[1..], p)
  }

  function ObjectStatuses(owed: seq<OwedObject>, key: string): seq<string> {
    if owed == [] then []
    else (if ObjectOwed(owed[0], key) then [owed[0].status] else []) + ObjectStatuses(owed[1..], key)
  }

  /** The order of strings. */
  predicate NoLater(a: string, b: string) {
    a == "" || (b != "" && (a[0] < b[0] || (a[0] == b[0] && NoLater(a[1..], b[1..]))))
  }

  function Least(statuses: seq<string>): string
    requires statuses != []
  {
    if |statuses| == 1 then statuses[0]
    else if NoLater(statuses[0], Least(statuses[1..])) then statuses[0]
    else Least(statuses[1..])
  }

  /** `pick_owed_status`. */
  function PickOwedStatus(statuses: seq<string>): Option<string> {
    if PENDING in statuses then Some(PENDING)
    else if FAILED in statuses then Some(FAILED)
    else if DEAD in statuses then Some(DEAD)
    else if statuses == [] then None
    else Some(Least(statuses))
  }

  predicate EventCovers(e: DeleteEvent, tenant: Option<Id>, workspace: Option<Id>, document: Option<Id>) {
    match e.eventType
    case DocumentDeleted => document.Some? && e.document == document
    case WorkspaceDeleted => workspace.Some? && e.workspace == workspace
    case TenantDeleted => tenant.Some? && e.tenant == tenant
    case OtherEvent(_) => false
  }

  /** `latest_delete_event`: the last of the latest events that cover the ids. */
  function LatestDeleteEvent(events: seq<DeleteEvent>, tenant: Option<Id>, workspace: Option<Id>,
          document: Option<Id>): Option<DeleteEvent> {
    if events == [] then None
    else
      var best, e := LatestDeleteEvent(events[..|events| - 1], tenant, workspace, document), events[|events| - 1];
      if EventCovers(e, tenant, workspace, document) && (best.None? || e.createdAt >= best.value.createdAt)
      then Some(e) else best
  }

  function Classify(owed: Option<string>, hasDeleteEvent: bool): Class {
    if owed == Some(DEAD) then RecoveryDead
    else if owed.Some? then RecoveryPending
    else if hasDeleteEvent then Unrecovered
    else Unexplained
  }

  // ----- What the classes mean -----

  lemma {:induction false} NoLaterOrders(a: string, b: string, c: string)
    ensures NoLater(a, b) || NoLater(b, a)
    ensures NoLater(a, b) && NoLater(b, c) ==> NoLater(a, c)
  {
    if a != "" && b != "" { NoLaterOrders(a[1..], b[1..], if c == "" then "" else c[1..]); }
  }

  lemma {:induction false} LeastIsLeast(statuses: seq<string>)
    requires statuses != []
    ensures Least(statuses) in statuses && forall s | s in statuses :: NoLater(Least(statuses), s)
  {
    var s := statuses[0];
    NoLaterOrders(s, s, s);
    if |statuses| > 1 {
      var rest := Least(statuses[1..]);
      LeastIsLeast(statuses[1..]);
      forall x | x in statuses ensures NoLater(Least(statuses), x) {
        if x != s { assert x in statuses[1..]; }
        NoLaterOrders(s, rest, x);
      }
    }
  }

  /** A status is owed unless none covers: one in recovery before a failed one, that before a dead one,
      and only without any of these the least of the others. */
  lemma PickedStatus(statuses: seq<string>)
    ensures PickOwedStatus(statuses).Some? <==> statuses != []
    ensures PickOwedStatus(statuses).Some? ==> PickOwedStatus(statuses).value in statuses
    ensures PickOwedStatus(statuses) == Some(DEAD) <==>
              DEAD in statuses && PENDING !in statuses && FAILED !in statuses
    ensures PickOwedStatus(statuses) == Some(FAILED) <==> FAILED in statuses && PENDING !in statuses
    ensures PickOwedStatus(statuses) == Some(PENDING) <==> PENDING in statuses
    ensures statuses != [] && DEAD !in statuses && FAILED !in statuses && PENDING !in statuses ==>
              forall s | s in statuses :: NoLater(PickOwedStatus(statuses).value, s)
  {
    if statuses != [] { LeastIsLeast(statuses); }
    if PENDING in statuses || FAILED in statuses || DEAD in statuses { assert statuses != []; }
    assert PENDING[0] == 'P' && FAILED[0] == 'F' && DEAD[0] == 'D';
  }

  lemma {:induction false} VectorStatusesAre(owed: seq<OwedVector>, p: Pair)
    ensures forall s ::
              s in VectorStatuses(owed, p) <==>
              exists i | 0 <= i < |owed| :: VectorOwed(owed[i], p) && owed[i].status == s
  {
    hide VectorOwed;
    if owed != [] {
      VectorStatusesAre(owed[1..], p);
      assert forall i | 1 <= i < |owed| :: owed[i] == owed[1..][i - 1];
    }
  }

  /** The event at `k` covers the ids; none that does is later, and of those as late it is the last. */
  predicate LatestAt(events: seq<DeleteEvent>, tenant: Option<Id>, workspace: Option<Id>, document: Option<Id>,
          k: nat)
    requires k < |events|
  {
    && EventCovers(events[k], tenant, workspace, document)
    && forall i | 0 <= i < |events| && EventCovers(events[i], tenant, workspace, document) ::
      events[i].createdAt < events[k].createdAt || (events[i].createdAt == events[k].createdAt && i <= k)
  }

  /** One more event: it takes over if it covers the ids and is no earlier. */
  lemma OneMoreEvent(front: seq<DeleteEvent>, e: DeleteEvent, tenant: Option<Id>, workspace: Option<Id>,
          document: Option<Id>, k: nat)
    requires k < |front| && LatestAt(front, tenant, workspace, document, k)
    ensures LatestAt(front + [e], tenant, workspace, document,
                     if EventCovers(e, tenant, workspace, document) && e.createdAt >= front[k].createdAt then |front|
                     else k)
  {
    hide EventCovers;
  }

  lemma FirstEvent(front: seq<DeleteEvent>, e: DeleteEvent, tenant: Option<Id>, workspace: Option<Id>,
          document: Option<Id>)
    requires EventCovers(e, tenant, workspace, document)
    requires forall x | x in front :: !EventCovers(x, tenant, workspace, document)
    ensures LatestAt(front + [e], tenant, workspace, document, |front|)
  {
    hide EventCovers;
    assert forall i | 0 <= i < |front| :: (front + [e])[i] in front;
  }

  lemma {:induction false} LatestIsLatest(events: seq<DeleteEvent>, tenant: Option<Id>, workspace: Option<Id>,
          document: Option<Id>) returns (k: nat)
    ensures var best := LatestDeleteEvent(events, tenant, workspace, document);
            if best.Some? then
              k < |events| && events[k] == best.value && LatestAt(events, tenant, workspace, document, k)
            else
              forall e | e in events :: !EventCovers(e, tenant, workspace, document)
  {
    hide EventCovers, LatestAt;
    k := 0;
    if events != [] {
      var front, e := events[..|events| - 1], events[|events| - 1];
      assert events == front + [e];
      k := LatestIsLatest(front, tenant, workspace, document);
      if LatestDeleteEvent(front, tenant, workspace, document).Some? {
        OneMoreEvent(front, e, tenant, workspace, document, k);
        if EventCovers(e, tenant, workspace, document) && e.createdAt >= front[k].createdAt { k := |front|; }
      } else if EventCovers(e, tenant, workspace, document) {
        FirstEvent(front, e, tenant, workspace, document);
        k := |front|;
      }
    }
  }

  function VectorClass(owed: seq<OwedVector>, events: seq<DeleteEvent>, p: Pair): Class {
    Classify(PickOwedStatus(VectorStatuses(owed, p)),
      LatestDeleteEvent(events, None, Some(p.workspace), Some(p.document)).Some?)
  }

  function ObjectClass(owed: seq<OwedObject>, events: seq<DeleteEvent>, key: string, tenant: Option<Id>,
          workspace: Option<Id>, document: Option<Id>): Class {
    Classify(PickOwedStatus(ObjectStatuses(owed, key)),
      LatestDeleteEvent(events, tenant, workspace, document).Some?)
  }

  lemma {:induction false} ObjectStatusesAre(owed: seq<OwedObject>, key: string)
    ensures forall s ::
              s in ObjectStatuses(owed, key) <==>
              exists i | 0 <= i < |owed| :: ObjectOwed(owed[i], key) && owed[i].status == s
  {
    hide ObjectOwed;
    if owed != [] {
      ObjectStatusesAre(owed[1..], key);
      assert forall i | 1 <= i < |owed| :: owed[i] == owed[1..][i - 1];
    }
  }

  /** The class that the statuses of the covering rows, and a covering event, amount to. */
  predicate ClassMeans(c: Class, covered: bool, pending: bool, failed: bool, dead: bool, deleted: bool) {
    && (c == RecoveryDead <==> dead && !pending && !failed)
    && (c == RecoveryPending <==> covered && c != RecoveryDead)
    && (c == Unrecovered <==> !covered && deleted)
    && (c == Unexplained <==> !covered && !deleted)
  }

  lemma ClassOfStatuses(statuses: seq<string>, deleted: bool)
    ensures ClassMeans(Classify(PickOwedStatus(statuses), deleted), statuses != [], PENDING in statuses,
                       FAILED in statuses, DEAD in statuses, deleted)
  {
    PickedStatus(statuses);
  }

  predicate OwedWith(owed: seq<OwedVector>, p: Pair, status: string) {
    exists i | 0 <= i < |owed| :: VectorOwed(owed[i], p) && owed[i].status == status
  }

  predicate ObjectOwedWith(owed: seq<OwedObject>, key: string, status: string) {
    exists i | 0 <= i < |owed| :: ObjectOwed(owed[i], key) && owed[i].status == status
  }

  /** The class of vector residue, said of the owing rows and the delete events themselves: a row in
      recovery outweighs a dead one, and any owing row outweighs the events. */
  lemma VectorClassMeans(owed: seq<OwedVector>, events: seq<DeleteEvent>, p: Pair)
    ensures ClassMeans(VectorClass(owed, events, p),
                       exists i | 0 <= i < |owed| :: VectorOwed(owed[i], p),
                       OwedWith(owed, p, "PENDING"), OwedWith(owed, p, "FAILED"), OwedWith(owed, p, "DEAD"),
                       exists i | 0 <= i < |events| ::
                         EventCovers(events[i], None, Some(p.workspace), Some(p.document)))
  {
    hide VectorOwed, EventCovers, PickOwedStatus, LatestDeleteEvent, VectorStatuses;
    var statuses := VectorStatuses(owed, p);
    VectorStatusesAre(owed, p);
    var k := LatestIsLatest(events, None, Some(p.workspace), Some(p.document));
    ClassOfStatuses(statuses, LatestDeleteEvent(events, None, Some(p.workspace), Some(p.document)).Some?);
    forall i | 0 <= i < |owed| && VectorOwed(owed[i], p) ensures owed[i].status in statuses {}
    if statuses != [] {
      var s := statuses[0];
      assert s in statuses;
    }
  }

  /** The same of object residue. */
  lemma ObjectClassMeans(owed: seq<OwedObject>, events: seq<DeleteEvent>, key: string, tenant: Option<Id>,
          workspace: Option<Id>, document: Option<Id>)
    ensures ClassMeans(ObjectClass(owed, events, key, tenant, workspace, document),
                       exists i | 0 <= i < |owed| :: ObjectOwed(owed[i], key),
                       ObjectOwedWith(owed, key, "PENDING"), ObjectOwedWith(owed, key, "FAILED"),
                       ObjectOwedWith(owed, key, "DEAD"),
                       exists i | 0 <= i < |events| :: EventCovers(events[i], tenant, workspace, document))
  {
    hide ObjectOwed, EventCovers, PickOwedStatus, LatestDeleteEvent, ObjectStatuses;
    var statuses := ObjectStatuses(owed, key);
    ObjectStatusesAre(owed, key);
    var k := LatestIsLatest(events, tenant, workspace, document);
    ClassOfStatuses(statuses, LatestDeleteEvent(events, tenant, workspace, document).Some?);
    forall i | 0 <= i < |owed| && ObjectOwed(owed[i], key) ensures owed[i].status in statuses {}
    if statuses != [] {
      var s := statuses[0];
      assert s in statuses;
    }
  }

  /** An event explains residue only by the one id that its type speaks of; so no tenant deletion
      explains a vector, whose tenant is not known. */
  lemma EventSpeaksOfOneId(e: DeleteEvent, tenant: Option<Id>, workspace: Option<Id>, document: Option<Id>)
    ensures EventCovers(e, tenant, workspace, document) <==>
              || (e.eventType == DocumentDeleted && document.Some? && e.document == document)
              || (e.eventType == WorkspaceDeleted && workspace.Some? && e.workspace == workspace)
              || (e.eventType == TenantDeleted && tenant.Some? && e.tenant == tenant)
  {
  }

  /** A prefix that is owed covers exactly the keys that extend it. */
  lemma PrefixCovers(prefix: string, status: string, key: string)
    ensures ObjectOwed(OwedPrefix(prefix, status), key) <==> exists rest :: key == prefix + rest
  {
    if prefix <= key { assert key == prefix + key[|prefix|..]; }
  }

  /** Text comes before what it begins, and before text with a greater character at the first
      difference. */
  lemma {:induction false} NoLaterMeans(p: string, a: string, b: string)
    ensures NoLater(p, p + a)
    ensures a != "" && b != "" && a[0] < b[0] ==> NoLater(p + a, p + b) && !NoLater(p + b, p + a)
  {
    if p == "" {
      assert p + a == a && p + b == b;
    } else {
      assert (p + a)[1..] == p[1..] + a && (p + b)[1..] == p[1..] + b;
      NoLaterMeans(p[1..], a, b);
    }
  }
}
