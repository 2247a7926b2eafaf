/** Workspace roles in two stores (gmrag_api/src/auth/outbox.rs:282-303, 433-519).

    SQL holds the role of each member; OpenFGA holds role tuples. They share no transaction: the
    transaction that changes a membership also enqueues an outbox row, and a drain later reads the
    role and rewrites the tuples, one call at a time. Membership changes may fall between any two of
    its steps, every call may fail with or without having been applied, and the drain may crash
    anywhere. One drain runs at a time. */
module RoleSync {
  import opened Wrappers
  import opened Backoff

  type Id = nat

  datatype Pair = Pair(workspace: nat, user: string)

  datatype Role = Admin | Member

  /** The `role` column; text that spells no role is kept as it is. */
  datatype SqlRole = Known(role: Role) | Unknown(text: string)

  datatype RoleTuple = RoleTuple(pair: Pair, role: Role)

  datatype Status = Pending | Processed | Failed

  /** A `workspace_role_sync` row; `pair` is None when the payload does not parse. */
  datatype Row = Row(pair: Option<Pair>, status: Status, retries: I32)

  datatype Call = Write(tuple: RoleTuple) | Delete(tuple: RoleTuple)

  /** What the drain saw of a call. OpenFGA reports a tuple as existing or missing truthfully. */
  datatype Reply = Done | AlreadyExists | DoesNotExist | Error(applied: bool)

  /** Where the drain is: before a row, with calls still to make for a row, or about to record how
      the row went. */
  datatype Drain =
    | Idle
    | Syncing(id: Id, calls: seq<Call>)
    | Marking(id: Id, ok: bool)

  datatype World = World(sql: map<Pair, SqlRole>, fga: set<RoleTuple>, rows: map<Id, Row>, drain: Drain)

  datatype Step =
    | ChangeMembership(pair: Pair, role: Option<SqlRole>, newRow: Id)
    | TakeRow(row: Id, maxRetries: I32)
    | MakeCall(reply: Reply)
    | Mark
    | Abort

  // ----- The steps -----

  predicate Eligible(r: Row, maxRetries: I32) {
    r.status == Pending || (r.status == Failed && r.retries < maxRetries)
  }

  function Opposite(role: Role): Role {
    if role == Admin then Member else Admin
  }

  function RoleIn(sql: map<Pair, SqlRole>, p: Pair): Option<SqlRole> {
    if p in sql then Some(sql[p]) else None
  }

  /** `sync_existing_workspace_role` and `delete_workspace_role_tuples`. */
  function CallsFor(p: Pair, role: Option<Role>): seq<Call> {
    match role
    case Some(r) => [Delete(RoleTuple(p, Opposite(r))), Write(RoleTuple(p, r))]
    case None => [Delete(RoleTuple(p, Admin)), Delete(RoleTuple(p, Member))]
  }

  predicate Truthful(fga: set<RoleTuple>, call: Call, reply: Reply) {
    (reply.AlreadyExists? ==> call.tuple in fga) && (reply.DoesNotExist? ==> call.tuple !in fga)
  }

  /** `is_idempotent_outcome`: a write that finds its tuple, and a delete that misses it, succeeded. */
  predicate Succeeds(call: Call, reply: Reply) {
    reply.Done? || (call.Write? && reply.AlreadyExists?) || (call.Delete? && reply.DoesNotExist?)
  }

  function Applied(fga: set<RoleTuple>, call: Call, reply: Reply): set<RoleTuple> {
    if reply.Done? || (reply.Error? && reply.applied)
    then if call.Write? then fga + {call.tuple} else fga - {call.tuple}
    else fga
  }

  predicate Enabled(w: World, s: Step) {
    match s
    case ChangeMembership(_, _, newRow) => newRow !in w.rows
    case TakeRow(row, maxRetries) => w.drain.Idle? && row in w.rows && Eligible(w.rows[row], maxRetries)
    case MakeCall(reply) => w.drain.Syncing? && w.drain.calls != [] && Truthful(w.fga, w.drain.calls[0], reply)
    case Mark => w.drain.Marking? && w.drain.id in w.rows
    case Abort => true
  }

  /** `process_workspace_role_sync_row` up to the first call. */
  function Taken(w: World, id: Id): Drain
    requires id in w.rows
  {
    match w.rows[id].pair
    case None => Marking(id, false)
    case Some(p) =>
      match RoleIn(w.sql, p)
      case None => Syncing(id, CallsFor(p, None))
      case Some(Known(r)) => Syncing(id, CallsFor(p, Some(r)))
      case Some(Unknown(_)) => Marking(id, false)
  }

  function Marked(r: Row, ok: bool): Row {
    if ok then r.(status := Processed) else r.(status := Failed, retries := SaturatingSucc(r.retries))
  }

  function After(w: World, s: Step): World
    requires Enabled(w, s)
  {
    match s
    case ChangeMembership(p, role, newRow) =>
      w.(sql := match role case None => w.sql - {p} case Some(r) => w.sql[p := r],
         rows := w.rows[newRow := Row(Some(p), Pending, 0)])
    case TakeRow(row, _) => w.(drain := Taken(w, row))
    case MakeCall(reply) =>
      var call, rest := w.drain.calls[0], w.drain.calls[1..];
      w.(fga := Applied(w.fga, call, reply),
         drain := if !Succeeds(call, reply) then Marking(w.drain.id, false)
                  else if rest == [] then Marking(w.drain.id, true)
                  else Syncing(w.drain.id, rest))
    case Mark => w.(rows := w.rows[w.drain.id := Marked(w.rows[w.drain.id], w.drain.ok)], drain := Idle)
    case Abort => w.(drain := Idle)
  }

  predicate CanRun(w: World, steps: seq<Step>)
    decreases |steps|
  {
    steps != [] ==> Enabled(w, steps[0]) && CanRun(After(w, steps[0]), steps[1..])
  }

  function Run(w: World, steps: seq<Step>): World
    requires CanRun(w, steps)
    decreases |steps|
  {
    if steps == [] then w else Run(After(w, steps[0]), steps[1..])
  }

  // ----- Agreement -----

  /** OpenFGA's role tuples of `p` are those that SQL calls for. */
  predicate Agrees(w: World, p: Pair) {
    match RoleIn(w.sql, p)
    case None => RoleTuple(p, Admin) !in w.fga && RoleTuple(p, Member) !in w.fga
    case Some(Known(r)) => RoleTuple(p, r) in w.fga && RoleTuple(p, Opposite(r)) !in w.fga
    case Some(Unknown(_)) => false
  }

  predicate OpenRow(w: World, p: Pair, id: Id) {
    id in w.rows && w.rows[id].pair == Some(p) && w.rows[id].status != Processed
  }

  predicate Open(w: World, p: Pair) {
    exists id | id in w.rows :: OpenRow(w, p, id)
  }

  predicate OpenBeside(w: World, p: Pair, id: Id) {
    exists j | j in w.rows :: j != id && OpenRow(w, p, j)
  }

  /** The calls still to make would bring `p` into agreement. */
  predicate OnTheWay(w: World, p: Pair, calls: seq<Call>) {
    match RoleIn(w.sql, p)
    case Some(Unknown(_)) => false
    case None => calls == CallsFor(p, None) || (calls == CallsFor(p, None)[1..] && RoleTuple(p, Admin) !in w.fga)
    case Some(Known(r)) =>
      calls == CallsFor(p, Some(r)) || (calls == CallsFor(p, Some(r))[1..] && RoleTuple(p, Opposite(r)) !in w.fga)
  }

  /** What the drain is about to do is still right, or another row will set it right. */
  predicate DrainSound(w: World) {
    match w.drain
    case Idle => true
    case Syncing(id, calls) =>
      && id in w.rows && w.rows[id].pair.Some? && OpenRow(w, w.rows[id].pair.value, id)
      && calls != [] && (forall c | c in calls :: c.tuple.pair == w.rows[id].pair.value)
      && (OnTheWay(w, w.rows[id].pair.value, calls) || OpenBeside(w, w.rows[id].pair.value, id))
    case Marking(id, ok) =>
      && id in w.rows && w.rows[id].status != Processed
      && (ok ==> w.rows[id].pair.Some?
                 && (Agrees(w, w.rows[id].pair.value) || OpenBeside(w, w.rows[id].pair.value, id)))
  }

  ghost predicate Inv(w: World) {
    (forall p :: Agrees(w, p) || Open(w, p)) && DrainSound(w)
  }

  lemma OtherPairsStand(w: World, v: World, p: Pair, q: Pair)
    requires q != p && RoleIn(v.sql, q) == RoleIn(w.sql, q)
    requires forall t: RoleTuple | t.pair == q :: t in v.fga <==> t in w.fga
    ensures Agrees(v, q) == Agrees(w, q)
  {
  }

  lemma OpenStays(w: World, v: World, p: Pair)
    requires Open(w, p) && forall id | OpenRow(w, p, id) :: OpenRow(v, p, id)
    ensures Open(v, p)
  {
    var id :| id in w.rows && OpenRow(w, p, id);
    assert OpenRow(v, p, id);
  }

  lemma ChangeKeepsInv(w: World, p: Pair, role: Option<SqlRole>, newRow: Id)
    requires Inv(w) && newRow !in w.rows
    ensures Inv(After(w, ChangeMembership(p, role, newRow)))
  {
    var v := After(w, ChangeMembership(p, role, newRow));
    assert OpenRow(v, p, newRow);
    forall q, id | OpenRow(w, q, id) ensures OpenRow(v, q, id) {}
    forall q ensures Agrees(v, q) || Open(v, q) {
      if q == p {
        assert Open(v, p);
      } else if Open(w, q) {
        OpenStays(w, v, q);
      } else {
        OtherPairsStand(w, v, p, q);
      }
    }
    if !w.drain.Idle? && w.rows[w.drain.id].pair.Some? {
      var q, id := w.rows[w.drain.id].pair.value, w.drain.id;
      if q == p {
        assert newRow in v.rows && newRow != id && OpenRow(v, p, newRow);
      } else if OpenBeside(w, q, id) {
        var j :| j in w.rows && j != id && OpenRow(w, q, j);
        assert OpenRow(v, q, j);
      }
    }
  }

  lemma TakingKeepsInv(w: World, id: Id, maxRetries: I32)
    requires Inv(w) && Enabled(w, TakeRow(id, maxRetries))
    ensures Inv(After(w, TakeRow(id, maxRetries)))
  {
    var v := After(w, TakeRow(id, maxRetries));
    SameStoresSameInv(w, v);
  }

  /** Moving the drain alone changes no pair. */
  lemma SameStoresSameInv(w: World, v: World)
    requires forall p :: Agrees(w, p) || Open(w, p)
    requires v == w.(drain := v.drain)
    ensures forall p :: Agrees(v, p) || Open(v, p)
  {
    forall p ensures Agrees(v, p) || Open(v, p) {
      assert Agrees(w, p) == Agrees(v, p);
      if Open(w, p) { OpenStays(w, v, p); }
    }
  }

  /** A call of the drain leaves its own row open, and the other pairs alone. */
  lemma CallingKeepsInv(w: World, reply: Reply)
    requires Inv(w) && Enabled(w, MakeCall(reply))
    ensures Inv(After(w, MakeCall(reply)))
  {
    var v := After(w, MakeCall(reply));
    var id, call := w.drain.id, w.drain.calls[0];
    var p := w.rows[id].pair.value;
    assert call in w.drain.calls;
    forall q, j | OpenRow(w, q, j) ensures OpenRow(v, q, j) {}
    forall q ensures Agrees(v, q) || Open(v, q) {
      if q == p {
        assert OpenRow(v, p, id);
      } else if Open(w, q) {
        OpenStays(w, v, q);
      } else {
        OtherPairsStand(w, v, p, q);
      }
    }
    if OpenBeside(w, p, id) {
      var j :| j in w.rows && j != id && OpenRow(w, p, j);
      assert OpenRow(v, p, j);
    }
  }

  lemma MarkingKeepsInv(w: World)
    requires Inv(w) && Enabled(w, Mark)
    ensures Inv(After(w, Mark))
  {
    var v, id := After(w, Mark), w.drain.id;
    forall q, j | OpenRow(w, q, j) && (j != id || !w.drain.ok) ensures OpenRow(v, q, j) {}
    forall q ensures Agrees(v, q) || Open(v, q) {
      assert Agrees(w, q) == Agrees(v, q);
      if Open(w, q) && !Agrees(w, q) {
        if w.drain.ok && w.rows[id].pair == Some(q) {
          var j :| j in w.rows && j != id && OpenRow(w, q, j);
          assert OpenRow(v, q, j);
        } else {
          OpenStays(w, v, q);
        }
      }
    }
  }

  /** Every step keeps: each pair agrees or has an unprocessed row. */
  lemma InvKept(w: World, s: Step)
    requires Inv(w) && Enabled(w, s)
    ensures Inv(After(w, s))
  {
    match s
    case ChangeMembership(p, role, newRow) => ChangeKeepsInv(w, p, role, newRow);
    case TakeRow(row, maxRetries) => TakingKeepsInv(w, row, maxRetries);
    case MakeCall(reply) => CallingKeepsInv(w, reply);
    case Mark => MarkingKeepsInv(w);
    case Abort => SameStoresSameInv(w, After(w, s));
  }

  lemma {:induction false} InvAlong(w: World, steps: seq<Step>)
    requires Inv(w) && CanRun(w, steps)
    ensures Inv(Run(w, steps))
    decreases |steps|
  {
    if steps != [] {
      InvKept(w, steps[0]);
      InvAlong(After(w, steps[0]), steps[1..]);
    }
  }

  // ----- The main results -----

  /** Stores that agreed, or were known to differ, when the drain was not running. */
  ghost predicate Start(w: World) {
    w.drain.Idle? && forall p :: Agrees(w, p) || Open(w, p)
  }

  /** In every reachable state, a pair whose tuples differ from its SQL role has an unprocessed row. */
  lemma EveryDifferenceIsQueued(w: World, steps: seq<Step>, p: Pair)
    requires Start(w) && CanRun(w, steps)
    ensures Agrees(Run(w, steps), p) || Open(Run(w, steps), p)
  {
    InvAlong(w, steps);
  }

  /** A drained outbox means that the two stores say the same. */
  lemma DrainedMeansEqual(w: World, steps: seq<Step>)
    requires Start(w) && CanRun(w, steps)
    requires var v := Run(w, steps); forall id | id in v.rows :: v.rows[id].status == Processed
    ensures var v := Run(w, steps);
            forall p, r :: RoleTuple(p, r) in v.fga <==> RoleIn(v.sql, p) == Some(Known(r))
  {
    var v := Run(w, steps);
    forall p, r ensures RoleTuple(p, r) in v.fga <==> RoleIn(v.sql, p) == Some(Known(r)) {
      EveryDifferenceIsQueued(w, steps, p);
      assert Agrees(v, p);
      assert r == Admin || r == Opposite(Admin);
    }
  }

  // ----- Never both roles -----

  predicate BothRoles(w: World, p: Pair) {
    RoleTuple(p, Admin) in w.fga && RoleTuple(p, Member) in w.fga
  }

  /** A write comes last, after the opposite tuple is gone. */
  predicate WritesAlone(w: World) {
    w.drain.Syncing? ==>
      && (forall i | 0 <= i < |w.drain.calls| && w.drain.calls[i].Write? :: i == |w.drain.calls| - 1)
      && (|w.drain.calls| == 1 && w.drain.calls[0].Write? ==>
            RoleTuple(w.drain.calls[0].tuple.pair, Opposite(w.drain.calls[0].tuple.role)) !in w.fga)
      && (|w.drain.calls| > 1 && w.drain.calls[|w.drain.calls| - 1].Write? ==>
            var t := w.drain.calls[|w.drain.calls| - 1].tuple;
            w.drain.calls == [Delete(RoleTuple(t.pair, Opposite(t.role))), Write(t)])
  }

  lemma NoStepMakesBothRoles(w: World, s: Step, p: Pair)
    requires WritesAlone(w) && Enabled(w, s) && !BothRoles(w, p)
    ensures WritesAlone(After(w, s)) && !BothRoles(After(w, s), p)
  {
  }

  lemma {:induction false} NeverBothRoles(w: World, steps: seq<Step>, p: Pair)
    requires WritesAlone(w) && CanRun(w, steps) && !BothRoles(w, p)
    ensures !BothRoles(Run(w, steps), p)
    decreases |steps|
  {
    if steps != [] {
      NoStepMakesBothRoles(w, steps[0], p);
      NeverBothRoles(After(w, steps[0]), steps[1..], p);
    }
  }

  /** Recording a pass: a row that went well is processed; any other is failed, with its count raised by
      one (up to the column's limit), and may be taken again exactly while the count is below the limit
      on retries; nothing else changes. */
  lemma MarkShows(w: World, maxRetries: I32)
    requires Enabled(w, Mark)
    ensures var v, id := After(w, Mark), w.drain.id;
            && v.sql == w.sql && v.fga == w.fga && v.drain == Idle && v.rows.Keys == w.rows.Keys
            && (forall i | i in w.rows && i != id :: v.rows[i] == w.rows[i])
            && v.rows[id].pair == w.rows[id].pair
            && (w.drain.ok ==> v.rows[id].status == Processed && v.rows[id].retries == w.rows[id].retries)
            && (!w.drain.ok ==>
                  && v.rows[id].status == Failed
                  && v.rows[id].retries == (if w.rows[id].retries < I32_MAX then w.rows[id].retries + 1 else I32_MAX))
            && (Enabled(v, TakeRow(id, maxRetries)) <==> !w.drain.ok && v.rows[id].retries < maxRetries)
  {
  }

  /** A change of membership takes effect in SQL at once, and its row waits to be tried. */
  lemma ChangeShows(w: World, p: Pair, role: Option<SqlRole>, newRow: Id, maxRetries: I32)
    requires Enabled(w, ChangeMembership(p, role, newRow))
    ensures var v := After(w, ChangeMembership(p, role, newRow));
            && RoleIn(v.sql, p) == role && (forall q | q != p :: RoleIn(v.sql, q) == RoleIn(w.sql, q))
            && v.fga == w.fga && v.drain == w.drain && v.rows.Keys == w.rows.Keys + {newRow}
            && (forall i | i in w.rows :: v.rows[i] == w.rows[i])
            && v.rows[newRow].pair == Some(p) && v.rows[newRow].retries == 0
            && (v.drain.Idle? ==> Enabled(v, TakeRow(newRow, maxRetries)))
  {
  }

  // ----- Progress -----

  /** An undisturbed pass over a row whose calls succeed brings its pair into agreement, whatever
      tuples were there before. */
  lemma UndisturbedPassAgrees(w: World, id: Id, maxRetries: I32, first: Reply, second: Reply)
    requires Enabled(w, TakeRow(id, maxRetries)) && w.rows[id].pair.Some?
    requires !(RoleIn(w.sql, w.rows[id].pair.value).Some? && RoleIn(w.sql, w.rows[id].pair.value).value.Unknown?)
    requires var taken := After(w, TakeRow(id, maxRetries));
             && Enabled(taken, MakeCall(first)) && Succeeds(taken.drain.calls[0], first)
             && var once := After(taken, MakeCall(first));
                Enabled(once, MakeCall(second)) && Succeeds(once.drain.calls[0], second)
    ensures var steps := [TakeRow(id, maxRetries), MakeCall(first), MakeCall(second), Mark];
            && CanRun(w, steps)
            && var v := Run(w, steps);
               v.drain.Idle? && v.sql == w.sql && v.rows == w.rows[id := w.rows[id].(status := Processed)]
               && Agrees(v, w.rows[id].pair.value)
  {
    var taken := After(w, TakeRow(id, maxRetries));
    var once := After(taken, MakeCall(first));
    var twice := After(once, MakeCall(second));
    var v := After(twice, Mark);
    assert CanRun(v, []) && Run(v, []) == v;
    assert CanRun(twice, [Mark]) && Run(twice, [Mark]) == v;
    assert [MakeCall(second), Mark][1..] == [Mark];
    assert CanRun(once, [MakeCall(second), Mark]) && Run(once, [MakeCall(second), Mark]) == v;
    assert [MakeCall(first), MakeCall(second), Mark][1..] == [MakeCall(second), Mark];
    assert CanRun(taken, [MakeCall(first), MakeCall(second), Mark]);
    assert [TakeRow(id, maxRetries), MakeCall(first), MakeCall(second), Mark][1..]
      == [MakeCall(first), MakeCall(second), Mark];
  }

  /** OpenFGA's role tuples of `p` are those of a pass that read `role`. */
  predicate TuplesAre(fga: set<RoleTuple>, p: Pair, role: Option<Role>) {
    match role
    case None => RoleTuple(p, Admin) !in fga && RoleTuple(p, Member) !in fga
    case Some(r) => RoleTuple(p, r) in fga && RoleTuple(p, Opposite(r)) !in fga
  }

  /** Where a pass over row `id` stands that read `role`, whatever SQL says by now. */
  predicate PassAt(w: World, id: Id, p: Pair, role: Option<Role>) {
    id in w.rows && match w.drain
    case Idle => false
    case Syncing(i, calls) =>
      && i == id
      && (calls == CallsFor(p, role)
          || (calls == CallsFor(p, role)[1..] && CallsFor(p, role)[0].tuple !in w.fga))
    case Marking(i, ok) => i == id && (ok ==> TuplesAre(w.fga, p, role))
  }

  /** The pass is not over: no step records its result or gives it up. */
  predicate WithinPass(steps: seq<Step>) {
    forall i | 0 <= i < |steps| :: !steps[i].Mark? && !steps[i].Abort?
  }

  lemma {:induction false} PassGoesOn(w: World, steps: seq<Step>, id: Id, p: Pair, role: Option<Role>)
    requires PassAt(w, id, p, role) && CanRun(w, steps) && WithinPass(steps)
    ensures PassAt(Run(w, steps), id, p, role)
    decreases |steps|
  {
    if steps != [] {
      assert !steps[0].Mark? && !steps[0].Abort?;
      assert PassAt(After(w, steps[0]), id, p, role);
      hide PassAt, After;
      PassGoesOn(After(w, steps[0]), steps[1..], id, p, role);
    }
  }

  lemma {:induction false} RefusedPassFails(w: World, steps: seq<Step>, id: Id)
    requires w.drain == Marking(id, false) && CanRun(w, steps) && WithinPass(steps)
    ensures Run(w, steps).drain == Marking(id, false)
    decreases |steps|
  {
    if steps != [] { RefusedPassFails(After(w, steps[0]), steps[1..], id); }
  }

  /** When a row that is marked processed means agreement: a pass that read the role of `p` at `w` and
      whose calls all succeeded, whatever changed meanwhile, leaves `p` in agreement if and only if its
      SQL role is again the one that was read. */
  lemma PassAgreesIff(w: World, id: Id, maxRetries: I32, p: Pair, steps: seq<Step>)
    requires Enabled(w, TakeRow(id, maxRetries)) && w.rows[id].pair == Some(p) && WithinPass(steps)
    requires CanRun(After(w, TakeRow(id, maxRetries)), steps)
    requires var v := Run(After(w, TakeRow(id, maxRetries)), steps);
             v.drain == Marking(id, true)
    ensures var v := Run(After(w, TakeRow(id, maxRetries)), steps);
            && (Agrees(v, p) <==> RoleIn(v.sql, p) == RoleIn(w.sql, p))
            && Enabled(v, Mark)
            && var marked := After(v, Mark);
               marked.rows[id].status == Processed && Agrees(marked, p) == Agrees(v, p)
  {
    var taken := After(w, TakeRow(id, maxRetries));
    match RoleIn(w.sql, p)
    case None => PassGoesOn(taken, steps, id, p, None);
    case Some(Known(r)) => PassGoesOn(taken, steps, id, p, Some(r));
    case Some(Unknown(_)) => RefusedPassFails(taken, steps, id);
  }

  function OpenIds(w: World): set<Id> {
    set id | id in w.rows && w.rows[id].status != Processed
  }

  /** Every unprocessed row names a pair and may still be tried, and every role is one that OpenFGA has. */
  ghost predicate Drainable(w: World, maxRetries: I32) {
    && (forall id | id in OpenIds(w) :: w.rows[id].pair.Some? && Eligible(w.rows[id], maxRetries))
    && (forall p | p in w.sql :: w.sql[p].Known?)
  }

  lemma {:induction false} RunAppends(w: World, first: seq<Step>, second: seq<Step>)
    requires CanRun(w, first) && CanRun(Run(w, first), second)
    ensures CanRun(w, first + second) && Run(w, first + second) == Run(Run(w, first), second)
    decreases |first|
  {
    if first == [] {
      assert first + second == second;
    } else {
      assert (first + second)[1..] == first[1..] + second;
      RunAppends(After(w, first[0]), first[1..], second);
    }
  }

  lemma NoOpenIds(w: World)
    requires OpenIds(w) == {}
    ensures CanRun(w, []) && Run(w, []) == w && forall id | id in w.rows :: w.rows[id].status == Processed
  {
    forall id | id in w.rows ensures w.rows[id].status == Processed {
      assert id !in OpenIds(w);
    }
  }

  /** One pass over row `id` in which every call is carried out. */
  lemma QuietPass(w: World, id: Id, maxRetries: I32) returns (steps: seq<Step>)
    requires Drainable(w, maxRetries) && w.drain.Idle? && id in OpenIds(w)
    ensures CanRun(w, steps)
        && Run(w, steps) == w.(rows := w.rows[id := w.rows[id].(status := Processed)], fga := Run(w, steps).fga)
    ensures forall s | s in steps :: !s.ChangeMembership?
  {
    var p := w.rows[id].pair.value;
    assert p in w.sql ==> w.sql[p].Known?;
    steps := [TakeRow(id, maxRetries), MakeCall(Done), MakeCall(Done), Mark];
    UndisturbedPassAgrees(w, id, maxRetries, Done, Done);
  }

  /** From any start, however far the stores have drifted apart, a drain that is left alone and whose
      calls succeed empties the outbox; both stores then agree on every pair, and SQL has not changed. */
  lemma {:induction false} QuietDrainConverges(w: World, maxRetries: I32) returns (steps: seq<Step>)
    requires Start(w) && Drainable(w, maxRetries)
    ensures CanRun(w, steps) && (forall s | s in steps :: !s.ChangeMembership?)
    ensures var v := Run(w, steps);
            && v.sql == w.sql && OpenIds(v) == {}
            && forall p, r :: RoleTuple(p, r) in v.fga <==> RoleIn(w.sql, p) == Some(Known(r))
    decreases |OpenIds(w)|
  {
    if OpenIds(w) == {} {
      steps := [];
      NoOpenIds(w);
      DrainedMeansEqual(w, []);
    } else {
      var id :| id in OpenIds(w);
      var first := QuietPass(w, id, maxRetries);
      var v := Run(w, first);
      assert OpenIds(v) == OpenIds(w) - {id};
      InvAlong(w, first);
      var rest := QuietDrainConverges(v, maxRetries);
      RunAppends(w, first, rest);
      steps := first + rest;
    }
  }

  /** Without a row there would be nothing to notice the race: a change between the read and the
      writes leaves the tuples wrong, and only its own row sets them right. */
  lemma ChangeDuringSyncLeavesOldRole(p: Pair)
    ensures var w := World(map[p := Known(Admin)], {}, map[0 := Row(Some(p), Pending, 0)], Idle);
            var steps :=
              [TakeRow(0, 5), ChangeMembership(p, Some(Known(Member)), 1), MakeCall(Done), MakeCall(Done), Mark];
            CanRun(w, steps) && !Agrees(Run(w, steps), p) && OpenRow(Run(w, steps), p, 1)
  {
    var w := World(map[p := Known(Admin)], {}, map[0 := Row(Some(p), Pending, 0)], Idle);
    var w1 := After(w, TakeRow(0, 5));
    var w2 := After(w1, ChangeMembership(p, Some(Known(Member)), 1));
    var w3 := After(w2, MakeCall(Done));
    var w4 := After(w3, MakeCall(Done));
    var w5 := After(w4, Mark);
    var s5: seq<Step> := [Mark];
    var s4 := [MakeCall(Done), Mark];
    var s3 := [MakeCall(Done), MakeCall(Done), Mark];
    var s2 := [ChangeMembership(p, Some(Known(Member)), 1), MakeCall(Done), MakeCall(Done), Mark];
    assert s2[1..] == s3 && s3[1..] == s4 && s4[1..] == s5;
    assert CanRun(w4, s5) && Run(w4, s5) == w5;
    assert CanRun(w3, s4) && Run(w3, s4) == w5;
    assert CanRun(w2, s3) && Run(w2, s3) == w5;
    assert CanRun(w1, s2) && Run(w1, s2) == w5;
    assert ([TakeRow(0, 5)] + s2)[1..] == s2;
  }
}
