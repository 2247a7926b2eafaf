/** Replacing the explicit viewers of one document (gmrag_api/src/auth/document_acl.rs:507-894).

    SQL holds the access mode and the shares, OpenFGA the explicit-viewer tuples. The stores share
    no transaction; every call may fail, and a failed call may still have been applied. No one else
    changes the document meanwhile. */
module DocumentAcl {
  import opened Wrappers
  import opened Collections

  type User = string

  datatype Mode = WorkspaceDefault | Restricted

  function ParseMode(raw: string): Option<Mode> {
    if raw == "workspace_default" then Some(WorkspaceDefault)
    else if raw == "restricted" then Some(Restricted)
    else None
  }

  function ModeText(m: Mode): string {
    match m case WorkspaceDefault => "workspace_default" case Restricted => "restricted"
  }

  /** How a call ended. Deleting a tuple that is missing counts as done. */
  datatype Reply = Done | Failed(applied: bool)

  datatype UpdateError = Database | Authz | NotAMember(user: User)

  datatype Stage = Revoke | Grant

  datatype Audit = Audit(previous: Mode, requested: Mode, applied: Mode, grantsRequested: nat, grantsApplied: nat,
                         revokesRequested: nat, revokesApplied: nat, completed: bool, failedStage: Option<Stage>)

  datatype GrantPlan = GrantPlan(user: User, insertSqlRow: bool)

  function PlanFor(shares: set<User>, u: User): GrantPlan {
    GrantPlan(u, u !in shares)
  }

  predicate Lacking(shares: set<User>, tuples: set<User>, u: User) {
    !(u in shares && u in tuples)
  }

  /** Who is to be granted: target users without a share, and, among those with one, users whose
      tuple is missing. */
  function Plans(shares: set<User>, tuples: set<User>, target: seq<User>): seq<GrantPlan> {
    if target == [] then []
    else
      var u := target[|target| - 1];
      Plans(shares, tuples, target[..|target| - 1]) + if Lacking(shares, tuples, u) then [PlanFor(shares, u)] else []
  }

  lemma {:induction false} PlansAre(shares: set<User>, tuples: set<User>, target: seq<User>)
    ensures var plans := Plans(shares, tuples, target);
            && (forall p | p in plans ::
               p.user in target && Lacking(shares, tuples, p.user) && p == PlanFor(shares, p.user))
            && (forall u | u in target && Lacking(shares, tuples, u) :: PlanFor(shares, u) in plans)
  {
    if target != [] {
      PlansAre(shares, tuples, target[..|target| - 1]);
      assert target == target[..|target| - 1] + [target[|target| - 1]];
    }
  }

  function Users(grants: seq<GrantPlan>): set<User> {
    set g | g in grants :: g.user
  }

  predicate OneGrantEach(grants: seq<GrantPlan>) {
    forall i, j | 0 <= i < j < |grants| :: grants[i].user != grants[j].user
  }

  lemma {:induction false} PlansAreOneEach(shares: set<User>, tuples: set<User>, target: seq<User>)
    requires Distinct(target)
    ensures OneGrantEach(Plans(shares, tuples, target))
  {
    if target != [] {
      var rest := target[..|target| - 1];
      PlansAreOneEach(shares, tuples, rest);
      PlansAre(shares, tuples, rest);
      assert target[|target| - 1] !in rest;
    }
  }

  /** As many grants as target users who lack a share or a tuple. */
  lemma {:induction false} PlansSize(shares: set<User>, tuples: set<User>, target: seq<User>)
    requires Distinct(target)
    ensures |Plans(shares, tuples, target)| == |Elements(target) - shares * tuples|
  {
    hide Lacking, Elements, Distinct;
    ListedOnes(target);
    if target != [] {
      var rest, u := target[..|target| - 1], target[|target| - 1];
      assert target == rest + [u];
      DistinctFront(rest, u);
      PlansSize(shares, tuples, rest);
      OneMoreOutside(Elements(rest), u, shares * tuples);
      LackingMeans(shares, tuples, u);
    }
  }

  lemma LackingMeans(shares: set<User>, tuples: set<User>, u: User)
    ensures Lacking(shares, tuples, u) <==> u !in shares * tuples
  {
  }

  lemma DistinctFront(rest: seq<User>, u: User)
    requires Distinct(rest + [u])
    ensures Distinct(rest) && u !in Elements(rest) && Elements(rest + [u]) == Elements(rest) + {u}
  {
    assert forall i | 0 <= i < |rest| :: (rest + [u])[i] == rest[i];
    assert (rest + [u])[|rest|] == u;
    ElementsAppend(rest, [u]);
  }

  lemma OneMoreOutside(all: set<User>, u: User, out: set<User>)
    requires u !in all
    ensures |(all + {u}) - out| == |all - out| + if u in out then 0 else 1
  {
    if u in out {
      assert (all + {u}) - out == all - out;
    } else {
      assert (all + {u}) - out == (all - out) + {u};
    }
  }

  /** Each user is new to the plan up to its own grant. */
  lemma NotYetGranted(grants: seq<GrantPlan>, i: nat)
    requires i < |grants| && OneGrantEach(grants)
    ensures grants[i].user !in Users(grants[..i])
  {
  }

  lemma GrantedAreWanted(grants: seq<GrantPlan>, target: seq<User>)
    requires forall g | g in grants :: g.user in target
    ensures Users(grants) <= Elements(target)
  {
  }

  lemma UsersGrow(grants: seq<GrantPlan>, i: nat)
    requires i <= |grants|
    ensures Users(grants[..i]) <= Users(grants)
  {
  }

  lemma UsersAppend(grants: seq<GrantPlan>, g: GrantPlan)
    ensures Users(grants + [g]) == Users(grants) + {g.user}
  {
    forall u | u in Users(grants) + {g.user} ensures u in Users(grants + [g]) {
      if u != g.user {
        var p :| p in grants && p.user == u;
        assert p in grants + [g];
      } else {
        assert g in grants + [g];
      }
    }
  }

  lemma NoGrantsNoUsers()
    ensures Users([]) == {}
  {
  }

  lemma NoneOutside(shares: set<User>, tuples: set<User>, target: set<User>)
    requires shares - target == {}
    ensures shares * target == shares && tuples - (shares - target) == tuples
  {
    forall u | u in shares ensures u in target { assert u !in shares - target; }
  }

  lemma ListedOnes(users: seq<User>)
    ensures forall u :: u in Elements(users) <==> u in users
    ensures Elements<User>([]) == {}
  {
  }

  /** Revoking the shares outside the target and carrying out the plan gives the target; tuples that
      had no share stay. */
  lemma PlanReachesTarget(shares: set<User>, tuples: set<User>, target: seq<User>)
    ensures var plans, ts := Plans(shares, tuples, target), Elements(target);
            && shares - (shares - ts) + Users(plans) == ts
            && tuples - (shares - ts) + Users(plans) == ts + (tuples - shares)
            && (forall p | p in plans :: p.user in target && (!p.insertSqlRow ==> p.user in shares))
  {
    var plans := Plans(shares, tuples, target);
    PlansAre(shares, tuples, target);
    forall u | u in target && Lacking(shares, tuples, u) ensures u in Users(plans) {
      assert PlanFor(shares, u) in plans;
    }
  }

  /** A plan can be carried out, every tuple in it being new, exactly if no target user is astray. */
  lemma AstrayBlocks(shares: set<User>, tuples: set<User>, target: seq<User>)
    ensures Users(Plans(shares, tuples, target)) !! tuples - (shares - Elements(target))
       <==> (tuples - shares) * Elements(target) == {}
    ensures OneGrantEach([])
  {
    hide Plans;
    var plans, ts := Plans(shares, tuples, target), Elements(target);
    PlansAre(shares, tuples, target);
    forall u | u in (tuples - shares) * ts ensures u in Users(plans) && u in tuples - (shares - ts) {
      assert PlanFor(shares, u) in plans;
    }
    forall u | u in Users(plans) && u in tuples - (shares - ts) ensures u in (tuples - shares) * ts {
      var p :| p in plans && p.user == u;
    }
  }

  /** Who is to have access of those who have it now: in restricted mode the target, else whoever is
      also in the target. */
  function Wanted(requested: Mode, present: set<User>, target: set<User>): set<User> {
    if requested.Restricted? then target else present * target
  }

  /** What revoking the shares outside `target` and granting some of `granted` leaves. */
  lemma PartlyDone(requested: Mode, shares0: set<User>, tuples0: set<User>, shares: set<User>, tuples: set<User>,
          target: set<User>, granted: set<User>)
    requires granted <= target && (requested.WorkspaceDefault? ==> granted == {})
    requires shares0 - (shares0 - target) <= shares <= shares0 + granted
    requires tuples0 - (shares0 - target) <= tuples <= tuples0 + granted && tuples - shares <= tuples0 - shares0
    ensures tuples - shares - target == tuples0 - shares0 - target
    ensures shares0 * target <= shares && tuples0 * target <= tuples
    ensures shares <= shares0 + (if requested.Restricted? then target else {})
    ensures tuples <= tuples0 + (if requested.Restricted? then target else {})
  {
  }

  /** And when everyone was granted. */
  lemma AllDone(requested: Mode, shares0: set<User>, tuples0: set<User>, target: set<User>, granted: set<User>)
    requires requested.WorkspaceDefault? ==> granted == {}
    requires requested.Restricted? ==>
               && shares0 - (shares0 - target) + granted == target
               && tuples0 - (shares0 - target) + granted == target + (tuples0 - shares0)
    ensures shares0 - (shares0 - target) + granted == Wanted(requested, shares0, target)
    ensures tuples0 - (shares0 - target) + granted
         == Wanted(requested, tuples0 * shares0, target) + (tuples0 - shares0)
  {
  }

  /** The two stores, as they stand after a call. */
  datatype Snapshot = Snapshot(shares: set<User>, tuples: set<User>)

  // ----- Lists of users -----

  /** `unique_user_ids`: first occurrences, in order. */
  method UniqueUserIds(ids: seq<User>) returns (unique: seq<User>)
    ensures Distinct(unique) && Elements(unique) == Elements(ids)
    ensures forall i, j | 0 <= i < j < |unique| :: FirstIndex(ids, unique[i]) < FirstIndex(ids, unique[j])
  {
    var seen: set<User> := {};
    unique := [];
    for k := 0 to |ids|
      invariant seen == Elements(unique) == Elements(ids[..k])
      invariant Distinct(unique)
      invariant forall i, j | 0 <= i < j < |unique| :: FirstIndex(ids, unique[i]) < FirstIndex(ids, unique[j])
      invariant forall i | 0 <= i < |unique| :: FirstIndex(ids, unique[i]) < k
    {
      if ids[k] !in seen {
        FirstIndexIs(ids, k);
        unique := unique + [ids[k]];
        seen := seen + {ids[k]};
      }
      assert ids[..k + 1] == ids[..k] + [ids[k]];
    }
    assert ids[..|ids|] == ids;
  }

  function FirstIndex(ids: seq<User>, u: User): nat {
    if ids == [] || ids[0] == u then 0 else 1 + FirstIndex(ids[1..], u)
  }

  lemma {:induction false} FirstIndexIs(ids: seq<User>, k: nat)
    requires k < |ids| && ids[k] !in ids[..k]
    ensures FirstIndex(ids, ids[k]) == k
  {
    if k > 0 {
      assert ids[0] == ids[..k][0];
      assert ids[1..][..k - 1] == ids[..k][1..];
      FirstIndexIs(ids[1..], k - 1);
    }
  }

  // ----- The document -----

  /** What a request comes to: a change of mode, users to revoke, users to grant. */
  datatype Plan = Plan(previous: Mode, changes: bool, toRevoke: seq<User>, toGrant: seq<GrantPlan>) {
    predicate Idle() {
      !changes && toRevoke == [] && toGrant == []
    }

    ghost predicate Fits(stored: Option<string>, shares: set<User>, tuples: set<User>, requested: Mode,
            target: seq<User>) {
      && stored.Some? && ParseMode(stored.value) == Some(previous) && changes == (previous != requested)
      && Elements(toRevoke) == shares - Elements(target) && Distinct(toRevoke)
      && toGrant == if requested.Restricted? then Plans(shares, tuples, target) else []
    }
  }

  /** What an audit event says: the modes, how much was to be done, and how much of it was done; if not
      all was, at which stage it stopped. */
  predicate Reports(a: Audit, previous: Mode, requested: Mode, applied: Mode, grants: nat, revokes: nat, ok: bool) {
    && a.previous == previous && a.requested == requested && a.applied == applied
    && a.grantsRequested == grants && a.revokesRequested == revokes && a.completed == ok
    && match a.failedStage
       case None => ok && a.grantsApplied == grants && a.revokesApplied == revokes
       case Some(Revoke) => !ok && a.grantsApplied == 0 && a.revokesApplied < revokes
       case Some(Grant) => !ok && a.grantsApplied < grants && a.revokesApplied == revokes
  }

  /** How many grants a request asks for: one for each target user who lacks a share or a tuple. */
  function GrantsAsked(requested: Mode, shares: set<User>, tuples: set<User>, target: set<User>): nat {
    if requested.Restricted? then |target - shares * tuples| else 0
  }

  function RevokesAsked(shares: set<User>, target: set<User>): nat {
    |shares - target|
  }

  lemma PlanIsAsked(plan: Plan, stored: Option<string>, shares: set<User>, tuples: set<User>, requested: Mode,
          target: seq<User>)
    requires Distinct(target) && plan.Fits(stored, shares, tuples, requested, target)
    ensures |plan.toGrant| == GrantsAsked(requested, shares, tuples, Elements(target))
    ensures |plan.toRevoke| == RevokesAsked(shares, Elements(target))
  {
    hide Plans, Elements, Distinct;
    PlansSize(shares, tuples, target);
    DistinctHasSize(plan.toRevoke);
  }

  predicate Within(history: seq<Snapshot>, since: nat, astray: set<User>) {
    since <= |history| && forall i | since <= i < |history| :: history[i].tuples - history[i].shares <= astray
  }

  lemma WithinFurther(before: seq<Snapshot>, history: seq<Snapshot>, since: nat, more: set<User>, astray: set<User>)
    requires Within(before, since, astray) && before <= history && Within(history, |before|, more) && more <= astray
    ensures Within(history, since, astray)
  {
  }

  class Document {
    /** The `access_mode` column, None if the document is not in the workspace. */
    var stored: Option<string>
    var shares: set<User>
    var tuples: set<User>
    var outbox: seq<User>
    var audits: seq<Audit>
    var calls: nat
    ghost var history: seq<Snapshot>

    const replies: nat -> Reply
    const sqlMembers: set<User>
    const fgaMembers: set<User>

    constructor (stored: Option<string>, shares: set<User>, tuples: set<User>, replies: nat -> Reply,
                 sqlMembers: set<User>, fgaMembers: set<User>)
      ensures this.stored == stored && this.shares == shares && this.tuples == tuples
      ensures this.replies == replies && this.sqlMembers == sqlMembers && this.fgaMembers == fgaMembers
      ensures calls == 0 && history == [] && outbox == [] && audits == []
    {
      this.stored, this.shares, this.tuples := stored, shares, tuples;
      this.replies, this.sqlMembers, this.fgaMembers := replies, sqlMembers, fgaMembers;
      calls, history, outbox, audits := 0, [], [], [];
    }

    /** Access is never wider than the shares, but for tuples that were astray from the start: any other
        tuple exists only beside its share. With nobody astray, tuples are contained in shares. */
    ghost predicate Contained(astray: set<User>) reads this {
      tuples - shares <= astray
    }

    /** So it was after every call from snapshot number `since` on. */
    ghost predicate AllSnapshotsContained(since: nat, astray: set<User>) reads this {
      Within(history, since, astray)
    }

    /** Every call from number `n` on succeeds. */
    ghost predicate AllDoneFrom(n: nat) {
      forall i | i >= n :: replies(i).Done?
    }

    /** The document is there, its mode is readable, and everyone to be listed is a member. */
    ghost predicate Admissible(stored: Option<string>, requested: Mode, target: set<User>) {
      && stored.Some? && ParseMode(stored.value).Some?
      && (requested.Restricted? ==> target <= sqlMembers && target <= fgaMembers)
    }

    /** A failed call was never applied. */
    ghost predicate Honest() {
      forall i :: replies(i).Failed? ==> !replies(i).applied
    }

    /** A call that reads, or that writes nothing of interest here. */
    method Call() returns (r: Reply)
      modifies this`calls
      ensures r == replies(old(calls)) && calls == old(calls) + 1
    {
      r := replies(calls);
      calls := calls + 1;
    }

    method DeleteTuple(u: User) returns (r: Reply)
      modifies this`calls, this`tuples, this`history
      ensures r == replies(old(calls)) && calls == old(calls) + 1
      ensures tuples == if r.Done? || r.applied then old(tuples) - {u} else old(tuples)
      ensures history == old(history) + [Snapshot(shares, tuples)]
    {
      r := Call();
      if r.Done? || r.applied { tuples := tuples - {u}; }
      history := history + [Snapshot(shares, tuples)];
    }

    /** OpenFGA refuses to write a tuple that exists, and nothing here takes that for success. */
    method WriteTuple(u: User) returns (r: Reply)
      modifies this`calls, this`tuples, this`history
      ensures r == (if u in old(tuples) then Failed(false) else replies(old(calls))) && calls == old(calls) + 1
      ensures tuples == if r.Done? || r.applied then old(tuples) + {u} else old(tuples)
      ensures history == old(history) + [Snapshot(shares, tuples)]
    {
      var exists_ := u in tuples;
      r := Call();
      if exists_ { r := Failed(false); }
      if r.Done? || r.applied { tuples := tuples + {u}; }
      history := history + [Snapshot(shares, tuples)];
    }

    method DeleteShare(u: User) returns (r: Reply)
      modifies this`calls, this`shares, this`history
      ensures r == replies(old(calls)) && calls == old(calls) + 1
      ensures shares == if r.Done? || r.applied then old(shares) - {u} else old(shares)
      ensures history == old(history) + [Snapshot(shares, tuples)]
    {
      r := Call();
      if r.Done? || r.applied { shares := shares - {u}; }
      history := history + [Snapshot(shares, tuples)];
    }

    method InsertShare(u: User) returns (r: Reply, inserted: bool)
      modifies this`calls, this`shares, this`history
      ensures r == replies(old(calls)) && calls == old(calls) + 1
      ensures shares == if r.Done? || r.applied then old(shares) + {u} else old(shares)
      ensures inserted == (r.Done? && u !in old(shares))
      ensures history == old(history) + [Snapshot(shares, tuples)]
    {
      r := Call();
      inserted := r.Done? && u !in shares;
      if r.Done? || r.applied { shares := shares + {u}; }
      history := history + [Snapshot(shares, tuples)];
    }

    method EnqueueTupleWrite(u: User)
      modifies this`calls, this`outbox
      ensures calls == old(calls) + 1
      ensures outbox
           == if replies(old(calls)).Done? || replies(old(calls)).applied then old(outbox) + [u] else old(outbox)
    {
      var r := Call();
      if r.Done? || r.applied { outbox := outbox + [u]; }
    }

    method WriteAuditIfMutated(a: Audit, mutated: bool)
      modifies this`calls, this`audits
      ensures calls == old(calls) + if mutated then 1 else 0
      ensures audits
           == if mutated && (replies(old(calls)).Done? || replies(old(calls)).applied) then old(audits) + [a]
              else old(audits)
    {
      if mutated {
        var r := Call();
        if r.Done? || r.applied { audits := audits + [a]; }
      }
    }

    /** The plan, read from both stores before anything is changed. */
    method PlanGrants(target: seq<User>) returns (r: Result<seq<GrantPlan>, UpdateError>)
      modifies this`calls
      ensures calls >= old(calls) && (AllDoneFrom(old(calls)) ==> r.Ok?)
      ensures r.Ok? ==> r.value == Plans(shares, tuples, target)
      ensures r.Err? ==> r.error == Authz
    {
      var plans := [];
      for i := 0 to |target|
        invariant calls >= old(calls)
        invariant plans == Plans(shares, tuples, target[..i])
      {
        var u := target[i];
        assert target[..i + 1][..i] == target[..i];
        if u !in shares {
          plans := plans + [GrantPlan(u, true)];
        } else {
          var reply := Call();
          if reply.Failed? { return Err(Authz); }
          if u !in tuples {
            plans := plans + [GrantPlan(u, false)];
          }
        }
      }
      assert target[..|target|] == target;
      r := Ok(plans);
    }

    /** `validate_grant_targets`: grants go to members of the workspace, in both stores. */
    method ValidateGrantTargets(grants: seq<GrantPlan>) returns (r: Result<(), UpdateError>)
      modifies this`calls
      ensures calls >= old(calls)
      ensures r.Ok? ==> forall g | g in grants :: g.user in sqlMembers && g.user in fgaMembers
      ensures r.Err? && r.error.NotAMember? ==>
                exists g | g in grants :: g.user == r.error.user && !(g.user in sqlMembers && g.user in fgaMembers)
      ensures AllDoneFrom(old(calls)) ==> r.Ok? || r.error.NotAMember?
    {
      if grants == [] { return Ok(()); }
      var reply := Call();
      if reply.Failed? { return Err(Database); }
      for i := 0 to |grants|
        invariant calls >= old(calls)
        invariant forall g | g in grants[..i] :: g.user in sqlMembers && g.user in fgaMembers
      {
        if grants[i].user !in sqlMembers { return Err(NotAMember(grants[i].user)); }
        reply := Call();
        if reply.Failed? { return Err(Authz); }
        if grants[i].user !in fgaMembers { return Err(NotAMember(grants[i].user)); }
      }
      r := Ok(());
    }

    /** The loop over revokes: the tuple goes first, so that a failure never leaves access behind a
        removed share. */
    method RevokeAll(users: seq<User>, ghost base: nat, ghost since: nat, ghost astray: set<User>)
      returns (r: Result<(), UpdateError>, applied: nat,
            mutated: bool)
      requires Contained(astray) && AllSnapshotsContained(since, astray) && base <= calls
      modifies this`calls, this`shares, this`tuples, this`history
      ensures Contained(astray) && AllSnapshotsContained(since, astray) && calls >= old(calls)
          && old(history) <= history
      ensures old(shares) - Elements(users) <= shares <= old(shares)
      ensures old(tuples) - Elements(users) <= tuples <= old(tuples)
      ensures r.Ok? ==>
          shares == old(shares) - Elements(users) && tuples == old(tuples) - Elements(users) && applied == |users|
      ensures AllDoneFrom(base) ==> r.Ok?
      ensures r.Err? ==> !r.error.NotAMember? && applied < |users|
      ensures Honest() && !mutated ==> shares == old(shares) && tuples == old(tuples)
      ensures r.Ok? && users != [] ==> mutated
    {
      applied, mutated := 0, false;
      for i := 0 to |users|
        invariant Contained(astray) && AllSnapshotsContained(since, astray) && calls >= old(calls)
        invariant old(history) <= history
        invariant shares == old(shares) - Elements(users[..i]) && tuples == old(tuples) - Elements(users[..i])
        invariant applied == i && (mutated <==> i > 0)
      {
        assert users[..i + 1] == users[..i] + [users[i]];
        assert users[i] in users;
        var reply := DeleteTuple(users[i]);
        if reply.Failed? { return Err(Authz), applied, mutated; }
        mutated := true;
        reply := DeleteShare(users[i]);
        if reply.Failed? { return Err(Database), applied, mutated; }
        applied := applied + 1;
      }
      assert users[..|users|] == users;
      r := Ok(());
    }

    /** One grant: the share goes first. A grant that OpenFGA refuses is queued for recovery. */
    method GrantOne(grant: GrantPlan, ghost since: nat, ghost astray: set<User>)
      returns (r: Result<(), UpdateError>, mutated: bool)
      requires Contained(astray) && AllSnapshotsContained(since, astray)
          && (!grant.insertSqlRow ==> grant.user in shares)
      modifies this`calls, this`shares, this`tuples, this`outbox, this`history
      ensures Contained(astray) && AllSnapshotsContained(since, astray) && calls > old(calls) && old(history) <= history
      ensures old(shares) <= shares <= old(shares) + {grant.user} && old(tuples) <= tuples <= old(tuples) + {grant.user}
      ensures r.Ok? ==>
                && shares == old(shares) + {grant.user} && tuples == old(tuples) + {grant.user}
                && grant.user !in old(tuples) && outbox == old(outbox) && mutated
      ensures AllDoneFrom(old(calls)) ==> r == if grant.user in old(tuples) then Err(Authz) else Ok(())
      ensures Honest() && !mutated ==> shares == old(shares) && tuples == old(tuples)
      ensures r.Err? ==> !r.error.NotAMember?
      ensures r == Err(Authz) ==> grant.user in shares && Recovered(old(outbox), grant.user)
      ensures r != Err(Authz) ==> outbox == old(outbox)
    {
      mutated := false;
      if grant.insertSqlRow {
        var reply, inserted := InsertShare(grant.user);
        if reply.Failed? { return Err(Database), mutated; }
        mutated := inserted;
      }
      var reply := WriteTuple(grant.user);
      if reply.Failed? {
        EnqueueTupleWrite(grant.user);
        return Err(Authz), mutated;
      }
      mutated := true;
      r := Ok(());
    }

    /** A tuple write for `u` was queued, unless that failed too. */
    ghost predicate Recovered(before: seq<User>, u: User) reads this {
      outbox == before + [u] || (outbox == before && calls > 0 && replies(calls - 1).Failed?)
    }

    /** The loop over grants. */
    method GrantAll(grants: seq<GrantPlan>, ghost base: nat, ghost since: nat, ghost astray: set<User>)
      returns (r: Result<(), UpdateError>, applied: nat,
            mutated: bool)
      requires Contained(astray) && AllSnapshotsContained(since, astray) && base <= calls
      requires forall g | g in grants && !g.insertSqlRow :: g.user in shares
      modifies this`calls, this`shares, this`tuples, this`outbox, this`history
      ensures Contained(astray) && AllSnapshotsContained(since, astray) && calls >= old(calls)
          && old(history) <= history
      ensures old(shares) <= shares <= old(shares) + Users(grants)
          && old(tuples) <= tuples <= old(tuples) + Users(grants)
      ensures r.Ok? ==>
                && shares == old(shares) + Users(grants) && tuples == old(tuples) + Users(grants)
                && applied == |grants| && outbox == old(outbox)
      ensures r.Ok? ==> Users(grants) !! old(tuples)
      ensures AllDoneFrom(base) && OneGrantEach(grants) && r.Err? ==>
                r == Err(Authz) && exists g | g in grants :: g.user in old(tuples) && g.user in shares
      ensures Honest() && !mutated ==> shares == old(shares) && tuples == old(tuples)
      ensures r.Ok? && grants != [] ==> mutated
      ensures r.Err? ==> !r.error.NotAMember? && applied < |grants|
      ensures r == Err(Authz) ==> exists g | g in grants :: g.user in shares && Recovered(old(outbox), g.user)
      ensures r != Err(Authz) ==> outbox == old(outbox)
    {
      hide Users;
      applied, mutated := 0, false;
      NoGrantsNoUsers();
      for i := 0 to |grants|
        invariant Contained(astray) && AllSnapshotsContained(since, astray) && calls >= old(calls)
        invariant old(history) <= history
        invariant shares == old(shares) + Users(grants[..i]) && tuples == old(tuples) + Users(grants[..i])
        invariant applied == i && (mutated <==> i > 0) && outbox == old(outbox)
        invariant Users(grants[..i]) !! old(tuples)
      {
        var grant := grants[i];
        if OneGrantEach(grants) { NotYetGranted(grants, i); }
        assert grants[..i + 1] == grants[..i] + [grant];
        UsersAppend(grants[..i], grant);
        UsersGrow(grants, i + 1);
        var one, touched := GrantOne(grant, since, astray);
        mutated := mutated || touched;
        if one.Err? {
          return one, applied, mutated;
        }
        applied := applied + 1;
      }
      assert grants[..|grants|] == grants;
      r := Ok(());
    }

    /** The transaction that reads the document and, if asked, changes its mode: which users to
        revoke and to grant. None if the document is not in the workspace. */
    method PlanAndSetMode(requested: Mode, target: seq<User>)
      returns (r: Result<Option<Plan>, UpdateError>)
      modifies this`calls, this`stored
      ensures calls > old(calls)
      ensures r.Ok? && r.value.None? ==> old(stored) == None
      ensures r.Ok? && r.value.Some? ==> r.value.value.Fits(old(stored), shares, tuples, requested, target)
      ensures r.Ok? && r.value.Some? ==>
          stored == if r.value.value.changes then Some(ModeText(requested)) else old(stored)
      ensures stored == old(stored) || (old(stored).Some? && stored == Some(ModeText(requested)))
      ensures r.Err? && Honest() ==> stored == old(stored)
      ensures r.Err? && r.error.NotAMember? ==>
                && stored == old(stored) && requested.Restricted? && r.error.user in target
                && Lacking(shares, tuples, r.error.user) && !(r.error.user in sqlMembers && r.error.user in fgaMembers)
      ensures AllDoneFrom(old(calls)) && Admissible(old(stored), requested, Elements(target)) ==> r.Ok? && r.value.Some?
    {
      hide Distinct;
      var reply := Call();
      if reply.Failed? { return Err(Database); }
      reply := Call();
      if reply.Failed? { return Err(Database); }
      if stored.None? { return Ok(None); }
      var parsed := ParseMode(stored.value);
      if parsed.None? { return Err(Database); }
      reply := Call();
      if reply.Failed? { return Err(Database); }
      var toRevoke := Listing(shares - Elements(target));
      var toGrant := [];
      if requested.Restricted? {
        var plans := PlanGrants(target);
        if plans.Err? { return Err(plans.error); }
        toGrant := plans.value;
      }
      PlansAre(shares, tuples, target);
      assert forall g | g in toGrant :: g.user in Elements(target);
      var valid := ValidateGrantTargets(toGrant);
      if valid.Err? { return Err(valid.error); }
      var changes := parsed.value != requested;
      var plan := Plan(parsed.value, changes, toRevoke, toGrant);
      if !changes && toRevoke == [] && toGrant == [] { return Ok(Some(plan)); }
      if changes {
        reply := Call();
        if reply.Failed? { return Err(Database); }
      }
      reply := Call();
      if changes && (reply.Done? || reply.applied) { stored := Some(ModeText(requested)); }
      if reply.Failed? { return Err(Database); }
      r := Ok(Some(plan));
    }

    /** One audit event was written, which says what was asked and how far it got; unless writing it
        failed. */
    ghost predicate Recorded(before: seq<Audit>, previous: Mode, requested: Mode, applied: Mode, grants: nat,
            revokes: nat, ok: bool)
      reads this
    {
      || (audits == before && calls > 0 && replies(calls - 1).Failed?)
      || exists a :: audits == before + [a] && Reports(a, previous, requested, applied, grants, revokes, ok)
    }

    /** The two loops, and the audit event at the end of either. */
    method CarryOut(plan: Plan, requested: Mode, ghost base: nat, ghost since: nat, ghost astray: set<User>)
      returns (r: Result<Option<()>, UpdateError>,
            ghost audited: bool)
      requires Contained(astray) && AllSnapshotsContained(since, astray) && base <= calls
      requires forall g | g in plan.toGrant && !g.insertSqlRow :: g.user in shares - Elements(plan.toRevoke)
      requires !plan.Idle()
      modifies this`calls, this`shares, this`tuples, this`outbox, this`audits, this`history
      ensures Contained(astray) && AllSnapshotsContained(since, astray) && old(history) <= history
      ensures old(shares) - Elements(plan.toRevoke) <= shares <= old(shares) + Users(plan.toGrant)
      ensures old(tuples) - Elements(plan.toRevoke) <= tuples <= old(tuples) + Users(plan.toGrant)
      ensures r.Ok? ==>
                && r == Ok(Some(())) && shares == old(shares) - Elements(plan.toRevoke) + Users(plan.toGrant)
                && tuples == old(tuples) - Elements(plan.toRevoke) + Users(plan.toGrant)
      ensures r.Err? ==> !r.error.NotAMember?
      ensures r.Ok? ==> Users(plan.toGrant) !! old(tuples) - Elements(plan.toRevoke)
      ensures AllDoneFrom(base) && OneGrantEach(plan.toGrant) && r.Err? ==>
                r == Err(Authz) && exists g | g in plan.toGrant :: g.user in old(tuples) && g.user in shares
      ensures calls >= old(calls)
      ensures plan.changes ==> audited
      ensures Honest() && !audited ==> shares == old(shares) && tuples == old(tuples)
      ensures !audited ==> audits == old(audits)
      ensures audited ==> Recorded(old(audits), plan.previous, requested,
                                   if plan.changes then requested else plan.previous,
                                   |plan.toGrant|, |plan.toRevoke|, r.Ok?)
      ensures outbox == old(outbox) || exists g | g in plan.toGrant ::
          g.user in shares && outbox == old(outbox) + [g.user]
    {
      hide Users, Plans;
      var audit := Audit(plan.previous, requested, if plan.changes then requested else plan.previous,
                         |plan.toGrant|, 0, |plan.toRevoke|, 0, false, None);
      var mutated := plan.changes;
      var revoked, revokesApplied, touched := RevokeAll(plan.toRevoke, base, since, astray);
      mutated := mutated || touched;
      audit := audit.(revokesApplied := revokesApplied);
      if revoked.Err? {
        audited := mutated;
        WriteAuditIfMutated(audit.(failedStage := Some(Revoke)), mutated);
        return Err(revoked.error), audited;
      }
      var granted, grantsApplied, wrote := GrantAll(plan.toGrant, base, since, astray);
      mutated := mutated || wrote;
      audited := mutated;
      audit := audit.(grantsApplied := grantsApplied);
      if granted.Err? {
        WriteAuditIfMutated(audit.(failedStage := Some(Grant)), mutated);
        return Err(granted.error), audited;
      }
      WriteAuditIfMutated(audit.(completed := true), mutated);
      r := Ok(Some(()));
    }

    /** `replace_document_permissions`. Tuples that had no share to begin with are astray; the request
        cleans none of them up outside the target, and fails at one that is in it. */
    method ReplaceDocumentPermissions(requested: Mode, authorized: seq<User>)
      returns (r: Result<Option<()>, UpdateError>, ghost audited: bool)
      modifies this
      // Whatever fails, and after every call, no tuple is without its share that was not before.
      ensures Contained(old(tuples - shares)) && AllSnapshotsContained(|old(history)|, old(tuples - shares))
      ensures old(history) <= history
      ensures tuples - shares - Elements(authorized) == old(tuples - shares) - Elements(authorized)
      // Success means the requested state.
      ensures r == Ok(Some(())) ==>
                && stored == Some(ModeText(requested))
                && shares == Wanted(requested, old(shares), Elements(authorized))
                && tuples == Wanted(requested, old(tuples * shares), Elements(authorized)) + old(tuples - shares)
      // A failure leaves a state between the old one and the requested one.
      ensures stored == old(stored) || (old(stored).Some? && stored == Some(ModeText(requested)))
      ensures old(shares) * Elements(authorized) <= shares && old(tuples) * Elements(authorized) <= tuples
      ensures shares <= old(shares) + (if requested.Restricted? then Elements(authorized) else {})
      ensures tuples <= old(tuples) + (if requested.Restricted? then Elements(authorized) else {})
      ensures calls > old(calls)
      // A document of another workspace, or a user who is not a member, changes nothing.
      ensures r == Ok(None) ==> old(stored) == None && shares == old(shares) && tuples == old(tuples)
      ensures r.Err? && r.error.NotAMember? ==>
                && stored == old(stored) && shares == old(shares) && tuples == old(tuples)
                && requested.Restricted? && r.error.user in authorized
                   && !(r.error.user in sqlMembers && r.error.user in fgaMembers)
      // Calls that succeed leave one reason to fail: a target user astray, who has a share from then on.
      ensures AllDoneFrom(old(calls)) && Admissible(old(stored), requested, Elements(authorized)) ==>
                && (r == Ok(Some(())) <==>
                      requested.WorkspaceDefault? || old(tuples - shares) * Elements(authorized) == {})
                && (r != Ok(Some(())) ==>
                      r == Err(Authz) && exists u | u in authorized :: u in old(tuples - shares) && u in shares)
      // Nothing changes without an audit event being written, unless a call failed and was applied.
      ensures Honest() && !audited ==> stored == old(stored) && shares == old(shares) && tuples == old(tuples)
      ensures !audited ==> audits == old(audits)
      ensures audited ==>
                && old(stored).Some? && ParseMode(old(stored).value).Some?
                && Recorded(old(audits), ParseMode(old(stored).value).value, requested, requested,
                            GrantsAsked(requested, old(shares), old(tuples), Elements(authorized)),
                            RevokesAsked(old(shares), Elements(authorized)), r.Ok?)
      // Recovery is queued for at most one user, whose share is in place.
      ensures outbox == old(outbox) || exists u | u in authorized :: u in shares && outbox == old(outbox) + [u]
    {
      hide Users, Plans, Lacking, Elements, Distinct, OneGrantEach, Wanted, Recorded, GrantsAsked, RevokesAsked;
      ListedOnes(authorized);
      ghost var base := calls;
      audited := false;
      var target := UniqueUserIds(authorized);
      ListedOnes(target);
      var planned := PlanAndSetMode(requested, target);
      if planned.Err? { return Err(planned.error), audited; }
      if planned.value.None? { return Ok(None), audited; }
      var plan := planned.value.value;
      PlanReachesTarget(shares, tuples, target);
      PlansAreOneEach(shares, tuples, target);
      PlanIsAsked(plan, old(stored), shares, tuples, requested, target);
      AstrayBlocks(shares, tuples, target);
      GrantedAreLacking(shares, tuples, target);
      NoGrantsNoUsers();
      AllDone(requested, shares, tuples, Elements(target), Users(plan.toGrant));
      GrantedAreWanted(plan.toGrant, target);
      if plan.Idle() {
        NoneOutside(shares, tuples, Elements(target));
        return Ok(Some(())), audited;
      }
      r, audited := CarryOut(plan, requested, base, |history|, tuples - shares);
      PartlyDone(requested, old(shares), old(tuples), shares, tuples, Elements(target), Users(plan.toGrant));
      if AllDoneFrom(base) && r.Err? {
        ghost var g :| g in plan.toGrant && g.user in old(tuples) && g.user in shares;
        assert g.user in old(tuples - shares) * Elements(authorized);
      }
    }

    /** The same request, repeated while it fails, reaches the requested state once the calls succeed:
        here, from call number `healthy` on. Tuples astray outside the target stay. */
    method RequestUntilDone(requested: Mode, authorized: seq<User>, healthy: nat)
      returns (r: Result<Option<()>, UpdateError>)
      requires AllDoneFrom(healthy) && Admissible(stored, requested, Elements(authorized))
      modifies this
      ensures Contained(old(tuples - shares)) && AllSnapshotsContained(|old(history)|, old(tuples - shares))
      ensures r == Ok(Some(())) && stored == Some(ModeText(requested))
      ensures shares == Wanted(requested, old(shares), Elements(authorized))
      ensures tuples == Wanted(requested, old(tuples * shares), Elements(authorized)) + old(tuples - shares)
    {
      hide Elements, Wanted, Within, OnTheWay, Admissible;
      ghost var astray, target := tuples - shares, Elements(authorized);
      ghost var audited;
      r, audited := ReplaceDocumentPermissions(requested, authorized);
      BackOnTheWay(requested, old(shares), old(tuples), shares, tuples, target);
      StillAdmissible(old(stored), stored, requested, target);
      while r != Ok(Some(()))
        invariant Within(history, |old(history)|, astray) && Contained(astray)
        invariant Admissible(stored, requested, target)
        invariant r == Ok(Some(())) ==> stored == Some(ModeText(requested))
        invariant OnTheWay(requested, old(shares), old(tuples), shares, tuples, target)
        invariant r == Ok(Some(())) ==>
                    && shares == Wanted(requested, old(shares), target)
                    && tuples == Wanted(requested, old(tuples * shares), target) + astray
        decreases r != Ok(Some(())), |(tuples - shares) * target|, healthy - calls
      {
        ghost var s, t, at, mode, h := shares, tuples, calls, stored, history;
        r, audited := ReplaceDocumentPermissions(requested, authorized);
        WithinFurther(h, history, |old(history)|, t - s, astray);
        BackOnTheWay(requested, s, t, shares, tuples, target);
        StillOnTheWay(requested, old(shares), old(tuples), s, t, shares, tuples, target);
        StillAdmissible(mode, stored, requested, target);
        if r != Ok(Some(())) && at >= healthy {
          ghost var u :| u in authorized && u in t - s && u in shares;
          ListedOnes(authorized);
          assert u in (t - s) * target && u !in (tuples - shares) * target;
        }
        if (tuples - shares) * target != (t - s) * target {
          FewerAstray(t - s, tuples - shares, target);
        }
      }
    }

    lemma StillAdmissible(before: Option<string>, now: Option<string>, requested: Mode, target: set<User>)
      requires Admissible(before, requested, target) && (now == before || now == Some(ModeText(requested)))
      ensures Admissible(now, requested, target)
    {
    }
  }

  lemma BackOnTheWay(requested: Mode, shares0: set<User>, tuples0: set<User>, shares: set<User>, tuples: set<User>,
          target: set<User>)
    requires tuples - shares - target == tuples0 - shares0 - target
    requires shares0 * target <= shares && tuples0 * target <= tuples
    requires requested.WorkspaceDefault? ==> shares <= shares0 && tuples <= tuples0
    ensures OnTheWay(requested, shares0, tuples0, shares, tuples, target)
  {
  }

  /** A request lies between the state it began with and the one it asks for. */
  ghost predicate OnTheWay(requested: Mode, shares0: set<User>, tuples0: set<User>, shares: set<User>,
          tuples: set<User>, target: set<User>) {
    && tuples - shares - target == tuples0 - shares0 - target
    && (requested.WorkspaceDefault? ==>
          shares0 * target <= shares <= shares0 && tuples0 * target <= tuples <= tuples0)
  }

  lemma StillOnTheWay(requested: Mode, shares0: set<User>, tuples0: set<User>, shares1: set<User>, tuples1: set<User>,
          shares: set<User>, tuples: set<User>, target: set<User>)
    requires OnTheWay(requested, shares0, tuples0, shares1, tuples1, target)
    requires OnTheWay(requested, shares1, tuples1, shares, tuples, target)
    ensures OnTheWay(requested, shares0, tuples0, shares, tuples, target)
    ensures Wanted(requested, shares1, target) == Wanted(requested, shares0, target)
    ensures Wanted(requested, tuples1 * shares1, target) + (tuples1 - shares1)
         == Wanted(requested, tuples0 * shares0, target) + (tuples0 - shares0)
  {
    forall u | u !in target ensures u in tuples1 - shares1 <==> u in tuples0 - shares0 {
      assert u in tuples1 - shares1 - target <==> u in tuples0 - shares0 - target;
    }
  }

  lemma FewerAstray(before: set<User>, now: set<User>, target: set<User>)
    requires now <= before && now * target != before * target
    ensures |now * target| < |before * target|
  {
    ProperSubsetSize(now * target, before * target);
  }

  /** Whoever is granted had no share or no tuple; one with a tuple had no share. */
  lemma GrantedAreLacking(shares: set<User>, tuples: set<User>, target: seq<User>)
    ensures forall p | p in Plans(shares, tuples, target) :: p.user in tuples ==> p.user !in shares
  {
    PlansAre(shares, tuples, target);
  }
}
