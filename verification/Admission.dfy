/** Chat admission control (gmrag_api/src/admission.rs:70-193).

    A request tries for a permit, else takes a place in the queue by an atomic add, and only then
    checks whether the place was within the queue's depth. Requests interleave at every atomic
    operation, may time out, and may be cancelled while they wait. Which waiting request the
    semaphore serves first is left open. */
module Admission {
  import opened Collections

  type Id = nat

  /** Where a request is. `place` is what `fetch_add` returned to it; its guard lives from there to
      the end of `Leaving`, whose flag says whether a permit is returned to the caller. */
  datatype Phase =
    | Arrived
    | Missed
    | Counted(place: nat)
    | Parked(place: nat)
    | Granted(place: nat)
    | Leaving(place: nat, admitted: bool)
    | Holding
    | Gone

  /** `free` and `waiting` are the semaphore's and the counter's values; `guards` is history: the
      requests with a live guard, in the order of their adds. */
  datatype World = World(free: nat, waiting: int, phases: map<Id, Phase>, guards: seq<Id>)

  datatype Config = Config(concurrency: nat, queueDepth: nat)

  datatype Step =
    | Arrive(id: Id)
    | TryAcquire(id: Id)
    | FetchAdd(id: Id)
    | CheckPlace(id: Id)
    | Grant(id: Id)
    | Wake(id: Id)
    | TimeOut(id: Id)
    | Cancel(id: Id)
    | DropGuard(id: Id)
    | Release(id: Id)

  function Permits(c: Config): nat {
    if c.concurrency == 0 then 1 else c.concurrency
  }

  function Start(c: Config): World {
    World(Permits(c), 0, map[], [])
  }

  // ----- The steps -----

  predicate Enabled(w: World, s: Step) {
    match s
    case Arrive(id) => id !in w.phases
    case TryAcquire(id) => id in w.phases && w.phases[id].Arrived?
    case FetchAdd(id) => id in w.phases && w.phases[id].Missed?
    case CheckPlace(id) => id in w.phases && w.phases[id].Counted?
    case Grant(id) => id in w.phases && w.phases[id].Parked? && w.free > 0
    case Wake(id) => id in w.phases && w.phases[id].Granted?
    case TimeOut(id) => id in w.phases && w.phases[id].Parked?
    case Cancel(id) => id in w.phases && (w.phases[id].Arrived? || w.phases[id].Parked? || w.phases[id].Granted?)
    case DropGuard(id) => id in w.phases && w.phases[id].Leaving?
    case Release(id) => id in w.phases && w.phases[id].Holding?
  }

  function Without(guards: seq<Id>, id: Id): seq<Id> {
    if guards == [] then [] else if guards[0] == id then guards[1..] else [guards[0]] + Without(guards[1..], id)
  }

  function After(c: Config, w: World, s: Step): World
    requires Enabled(w, s)
  {
    match s
    case Arrive(id) => w.(phases := w.phases[id := Arrived])
    case TryAcquire(id) =>
      if w.free > 0 then w.(free := w.free - 1, phases := w.phases[id := Holding])
      else w.(phases := w.phases[id := Missed])
    case FetchAdd(id) =>
      w.(waiting := w.waiting + 1, guards := w.guards + [id],
         phases := w.phases[id := Counted(if w.waiting >= 0 then w.waiting else 0)])
    case CheckPlace(id) =>
      var place := w.phases[id].place;
      w.(phases := w.phases[id := if place >= c.queueDepth then Leaving(place, false) else Parked(place)])
    case Grant(id) => w.(free := w.free - 1, phases := w.phases[id := Granted(w.phases[id].place)])
    case Wake(id) => w.(phases := w.phases[id := Leaving(w.phases[id].place, true)])
    case TimeOut(id) => w.(phases := w.phases[id := Leaving(w.phases[id].place, false)])
    case Cancel(id) =>
      match w.phases[id] {
        case Granted(place) => w.(free := w.free + 1, phases := w.phases[id := Leaving(place, false)])
        case Parked(place) => w.(phases := w.phases[id := Leaving(place, false)])
        case _ => w.(phases := w.phases[id := Gone])
      }
    case DropGuard(id) =>
      w.(waiting := w.waiting - 1, guards := Without(w.guards, id),
         phases := w.phases[id := if w.phases[id].admitted then Holding else Gone])
    case Release(id) => w.(free := w.free + 1, phases := w.phases[id := Gone])
  }

  predicate CanRun(c: Config, w: World, steps: seq<Step>)
    decreases |steps|
  {
    steps != [] ==> Enabled(w, steps[0]) && CanRun(c, After(c, w, steps[0]), steps[1..])
  }

  function Run(c: Config, w: World, steps: seq<Step>): World
    requires CanRun(c, w, steps)
    decreases |steps|
  {
    if steps == [] then w else Run(c, After(c, w, steps[0]), steps[1..])
  }

  // ----- Invariants -----

  predicate HoldsPermit(p: Phase) {
    p.Granted? || p.Holding? || (p.Leaving? && p.admitted)
  }

  predicate HasGuard(p: Phase) {
    p.Counted? || p.Parked? || p.Granted? || p.Leaving?
  }

  /** Accepted into the queue, and on the semaphore or just granted by it. */
  predicate Queued(p: Phase) {
    p.Parked? || p.Granted?
  }

  function Holders(w: World): set<Id> {
    set id | id in w.phases && HoldsPermit(w.phases[id])
  }

  function Guarded(w: World): set<Id> {
    set id | id in w.phases && HasGuard(w.phases[id])
  }

  function InQueue(w: World): set<Id> {
    set id | id in w.phases && Queued(w.phases[id])
  }

  /** The guards in order: each one's place was at least the number of live guards before it. */
  predicate GuardsInOrder(w: World) {
    && Distinct(w.guards)
    && (forall id | id in w.phases && HasGuard(w.phases[id]) :: id in w.guards)
    && (forall i | 0 <= i < |w.guards| ::
          && w.guards[i] in w.phases && HasGuard(w.phases[w.guards[i]]) && i <= w.phases[w.guards[i]].place)
  }

  predicate QueuedWithinDepth(c: Config, w: World) {
    forall id | id in w.phases && Queued(w.phases[id]) :: w.phases[id].place < c.queueDepth
  }

  ghost predicate Inv(c: Config, w: World) {
    && w.free + |Holders(w)| == Permits(c)
    && w.waiting == |w.guards| && GuardsInOrder(w) && QueuedWithinDepth(c, w)
  }

  lemma {:induction false} WithoutIs(guards: seq<Id>, id: Id)
    requires Distinct(guards) && id in guards
    ensures var rest := Without(guards, id);
            && |rest| == |guards| - 1 && Distinct(rest)
            && (forall j :: j in rest <==> j in guards && j != id)
            && forall i | 0 <= i < |rest| :: rest[i] == guards[i] || rest[i] == guards[i + 1]
  {
    if guards[0] != id {
      WithoutIs(guards[1..], id);
      assert guards == [guards[0]] + guards[1..];
      assert guards[0] !in guards[1..];
    }
  }

  lemma HoldersWith(w: World, v: World, id: Id, p: Phase)
    requires v.phases == w.phases[id := p]
    ensures Holders(v) == if HoldsPermit(p) then Holders(w) + {id} else Holders(w) - {id}
    ensures id in Holders(w) <==> id in w.phases && HoldsPermit(w.phases[id])
  {
  }

  lemma HoldersAfter(c: Config, w: World, s: Step)
    requires Enabled(w, s)
    ensures var v := After(c, w, s); v.free + |Holders(v)| == w.free + |Holders(w)|
  {
    hide Holders, Without;
    var v := After(c, w, s);
    HoldersWith(w, v, s.id, v.phases[s.id]);
  }

  /** A request that keeps its guard and its place. */
  lemma SameGuards(w: World, v: World, id: Id, p: Phase)
    requires GuardsInOrder(w) && v.guards == w.guards && v.phases == w.phases[id := p]
    requires HasGuard(p) <==> id in w.phases && HasGuard(w.phases[id])
    requires HasGuard(p) ==> p.place == w.phases[id].place
    ensures GuardsInOrder(v)
  {
    assert id in w.guards ==> id in w.phases && HasGuard(w.phases[id]);
  }

  lemma NewGuard(w: World, v: World, id: Id)
    requires GuardsInOrder(w) && w.waiting == |w.guards| && id in w.phases && w.phases[id].Missed?
    requires v.guards == w.guards + [id] && v.phases == w.phases[id := Counted(w.waiting)]
    ensures GuardsInOrder(v)
  {
    assert id !in w.guards;
    forall i | 0 <= i < |v.guards|
      ensures v.guards[i] in v.phases && HasGuard(v.phases[v.guards[i]]) && i <= v.phases[v.guards[i]].place
    {
      if i < |w.guards| { assert v.guards[i] == w.guards[i]; }
    }
    forall j | j in v.phases && HasGuard(v.phases[j]) ensures j in v.guards {
      if j == id { assert v.guards[|w.guards|] == id; } else { assert j in w.guards; }
    }
  }

  lemma OldGuard(w: World, v: World, id: Id, p: Phase)
    requires GuardsInOrder(w) && id in w.phases && HasGuard(w.phases[id]) && !HasGuard(p)
    requires v.guards == Without(w.guards, id) && v.phases == w.phases[id := p]
    ensures GuardsInOrder(v) && |v.guards| == |w.guards| - 1
  {
    WithoutIs(w.guards, id);
    forall i | 0 <= i < |v.guards|
      ensures v.guards[i] in v.phases && HasGuard(v.phases[v.guards[i]]) && i <= v.phases[v.guards[i]].place
    {
      assert v.guards[i] in v.guards;
      var j := if v.guards[i] == w.guards[i] then i else i + 1;
      assert w.guards[j] == v.guards[i];
    }
  }

  lemma GuardsAfter(c: Config, w: World, s: Step)
    requires Enabled(w, s) && w.waiting == |w.guards| && GuardsInOrder(w)
    ensures var v := After(c, w, s); v.waiting == |v.guards| && GuardsInOrder(v)
  {
    hide GuardsInOrder;
    var v := After(c, w, s);
    if s.DropGuard? {
      OldGuard(w, v, s.id, v.phases[s.id]);
    } else if s.FetchAdd? {
      NewGuard(w, v, s.id);
    } else if s.Cancel? && w.phases[s.id].Arrived? {
      SameGuards(w, v, s.id, Gone);
    } else {
      SameGuards(w, v, s.id, v.phases[s.id]);
    }
  }

  /** Every step keeps: permits are conserved, and the counter counts the live guards. */
  lemma InvKept(c: Config, w: World, s: Step)
    requires Inv(c, w) && Enabled(w, s)
    ensures Inv(c, After(c, w, s))
  {
    hide Holders, Without, GuardsInOrder;
    HoldersAfter(c, w, s);
    GuardsAfter(c, w, s);
  }

  lemma {:induction false} InvAlong(c: Config, w: World, steps: seq<Step>)
    requires Inv(c, w) && CanRun(c, w, steps)
    ensures Inv(c, Run(c, w, steps))
    decreases |steps|
  {
    if steps != [] {
      InvKept(c, w, steps[0]);
      InvAlong(c, After(c, w, steps[0]), steps[1..]);
    }
  }

  // ----- The main results -----

  /** In every reachable state, whatever was timed out or cancelled: held and free permits add up,
      the counter equals the number of live guards and is never negative, and at most `queueDepth`
      requests wait for a permit, although the check comes after the add. */
  lemma SafeInEveryRun(c: Config, steps: seq<Step>)
    requires CanRun(c, Start(c), steps)
    ensures var w := Run(c, Start(c), steps);
            && w.free + |Holders(w)| == Permits(c)
            && w.waiting == |Guarded(w)| >= 0
            && |InQueue(w)| <= c.queueDepth
  {
    var w := Run(c, Start(c), steps);
    assert Holders(Start(c)) == {};
    InvAlong(c, Start(c), steps);
    hide Holders, Run, CanRun;
    DistinctHasSize(w.guards);
    assert Guarded(w) == Elements(w.guards);
    QueueFitsDepth(c, w);
  }

  /** A queued request stands among the first `queueDepth` guards, since its place was in range. */
  lemma QueueFitsDepth(c: Config, w: World)
    requires GuardsInOrder(w) && QueuedWithinDepth(c, w)
    ensures |InQueue(w)| <= c.queueDepth
  {
    var n := if |w.guards| <= c.queueDepth then |w.guards| else c.queueDepth;
    DistinctHasSize(w.guards[..n]);
    forall id | id in InQueue(w) ensures id in w.guards[..n] {
      var i :| 0 <= i < |w.guards| && w.guards[i] == id;
      assert w.guards[..n][i] == id;
    }
    SubsetSize(InQueue(w), Elements(w.guards[..n]));
  }

  /** Once every request is gone, the limiter is as it was. */
  lemma NothingLeaks(c: Config, steps: seq<Step>)
    requires CanRun(c, Start(c), steps)
    requires var w := Run(c, Start(c), steps); forall id | id in w.phases :: w.phases[id].Gone?
    ensures var w := Run(c, Start(c), steps); w.free == Permits(c) && w.waiting == 0
  {
    var w := Run(c, Start(c), steps);
    SafeInEveryRun(c, steps);
    assert Holders(w) == {} && Guarded(w) == {};
  }

  // ----- What each request is told -----

  /** What a step does to its own request: a free permit is taken at once, and otherwise a place in the
      queue, which is the number of requests in it; a place within the depth waits and any other is
      turned away; a waiting request gets a permit only if one is free, and with it is admitted. */
  lemma StepAnswers(c: Config, w: World, s: Step)
    requires Inv(c, w) && Enabled(w, s)
    ensures var v := After(c, w, s);
            && s.id in v.phases
            && (forall id | id in w.phases && id != s.id :: id in v.phases && v.phases[id] == w.phases[id])
            && match s
               case TryAcquire(id) => v.phases[id] == (if w.free > 0 then Holding else Missed)
               case FetchAdd(id) => v.phases[id] == Counted(|Guarded(w)|)
               case CheckPlace(id) =>
                 var place := w.phases[id].place;
                 v.phases[id] == (if place < c.queueDepth then Parked(place) else Leaving(place, false))
               case Grant(id) => w.free > 0 && v.free == w.free - 1 && v.phases[id].Granted?
               case Wake(id) => v.phases[id].Leaving? && v.phases[id].admitted
               case TimeOut(id) => v.phases[id].Leaving? && !v.phases[id].admitted
               case Cancel(id) => !HoldsPermit(v.phases[id])
               case DropGuard(id) => v.phases[id] == (if w.phases[id].admitted then Holding else Gone)
               case Release(id) => v.phases[id] == Gone && v.free == w.free + 1
               case Arrive(id) => v.phases[id] == Arrived
  {
    hide Holders, Without, QueuedWithinDepth;
    if s.FetchAdd? {
      DistinctHasSize(w.guards);
      assert Guarded(w) == Elements(w.guards);
    }
  }

  /** A request that is turned away by its place found the queue full: at least `queueDepth` requests
      had a guard when it took its place. */
  lemma TurnedAwayFromFullQueue(c: Config, steps: seq<Step>, id: Id, more: seq<Step>)
    requires CanRun(c, Start(c), steps + [FetchAdd(id)] + more)
    requires forall s | s in more :: s.id != id
    ensures CanRun(c, Start(c), steps)
    ensures var w, v := Run(c, Start(c), steps), Run(c, Start(c), steps + [FetchAdd(id)] + more);
            && Enabled(v, CheckPlace(id))
            && (After(c, v, CheckPlace(id)).phases[id] == Leaving(|Guarded(w)|, false) <==>
                  |Guarded(w)| >= c.queueDepth)
            && (After(c, v, CheckPlace(id)).phases[id] == Parked(|Guarded(w)|) <==> |Guarded(w)| < c.queueDepth)
  {
    hide Inv, Guarded, After;
    assert steps + [FetchAdd(id)] + more == steps + ([FetchAdd(id)] + more);
    RunSplits(c, Start(c), steps, [FetchAdd(id)] + more);
    var w := Run(c, Start(c), steps);
    StartIsSound(c);
    InvAlong(c, Start(c), steps);
    assert ([FetchAdd(id)] + more)[0] == FetchAdd(id) && ([FetchAdd(id)] + more)[1..] == more;
    StepAnswers(c, w, FetchAdd(id));
    var u := After(c, w, FetchAdd(id));
    InvKept(c, w, FetchAdd(id));
    OthersLeavePhase(c, u, more, id);
    var v := Run(c, u, more);
    InvAlong(c, u, more);
    StepAnswers(c, v, CheckPlace(id));
  }

  lemma StartIsSound(c: Config)
    ensures Inv(c, Start(c))
  {
    assert Holders(Start(c)) == {};
  }

  lemma {:induction false} RunSplits(c: Config, w: World, a: seq<Step>, b: seq<Step>)
    requires CanRun(c, w, a + b)
    ensures CanRun(c, w, a) && CanRun(c, Run(c, w, a), b) && Run(c, w, a + b) == Run(c, Run(c, w, a), b)
    decreases |a|
  {
    hide After, Enabled;
    if a == [] {
      assert a + b == b;
    } else {
      assert (a + b)[0] == a[0] && (a + b)[1..] == a[1..] + b;
      RunSplits(c, After(c, w, a[0]), a[1..], b);
    }
  }

  /** A request's phase changes only by its own steps. */
  lemma {:induction false} OthersLeavePhase(c: Config, w: World, steps: seq<Step>, id: Id)
    requires Inv(c, w) && CanRun(c, w, steps) && id in w.phases && forall s | s in steps :: s.id != id
    ensures id in Run(c, w, steps).phases && Run(c, w, steps).phases[id] == w.phases[id]
    decreases |steps|
  {
    hide Inv, After;
    if steps != [] {
      assert steps[0] in steps && forall s | s in steps[1..] :: s in steps;
      StepAnswers(c, w, steps[0]);
      InvKept(c, w, steps[0]);
      OthersLeavePhase(c, After(c, w, steps[0]), steps[1..], id);
    }
  }

  // ----- The operations -----

  class ChatAdmission {
    const config: Config
    var available: nat
    var waiting: nat
    ghost var world: World

    ghost predicate Valid() reads this {
      Inv(config, world) && available == world.free && waiting == world.waiting
    }

    constructor (concurrency: nat, queueDepth: nat)
      ensures Valid() && config == Config(concurrency, queueDepth) && world == Start(config)
    {
      config := Config(concurrency, queueDepth);
      available := if concurrency == 0 then 1 else concurrency;
      waiting := 0;
      world := Start(Config(concurrency, queueDepth));
      new;
      assert Holders(world) == {};
    }

    /** `try_acquire_owned`. */
    method TryAcquireOwned(ghost id: Id) returns (admitted: bool)
      requires Valid() && Enabled(world, TryAcquire(id))
      modifies this
      ensures Valid() && world == After(config, old(world), TryAcquire(id))
      ensures admitted == world.phases[id].Holding?
    {
      InvKept(config, world, TryAcquire(id));
      admitted := available > 0;
      if admitted { available := available - 1; }
      world := After(config, world, TryAcquire(id));
    }

    /** `fetch_add` and the guard it is paired with. */
    method TakePlace(ghost id: Id) returns (previous: nat)
      requires Valid() && Enabled(world, FetchAdd(id))
      modifies this
      ensures Valid() && world == After(config, old(world), FetchAdd(id))
      ensures world.phases[id] == Counted(previous)
    {
      InvKept(config, world, FetchAdd(id));
      previous := waiting;
      waiting := waiting + 1;
      world := After(config, world, FetchAdd(id));
    }

    /** The check of the place that was taken; true means rejected with `QueueFull`. */
    method QueueIsFull(previous: nat, ghost id: Id) returns (full: bool)
      requires Valid() && Enabled(world, CheckPlace(id)) && world.phases[id] == Counted(previous)
      modifies this`world
      ensures Valid() && world == After(config, old(world), CheckPlace(id))
      ensures full == world.phases[id].Leaving?
    {
      InvKept(config, world, CheckPlace(id));
      full := previous >= config.queueDepth;
      world := After(config, world, CheckPlace(id));
    }

    /** The semaphore hands a free permit to a waiting request. */
    method GrantPermit(ghost id: Id)
      requires Valid() && Enabled(world, Grant(id))
      modifies this
      ensures Valid() && world == After(config, old(world), Grant(id))
    {
      InvKept(config, world, Grant(id));
      available := available - 1;
      world := After(config, world, Grant(id));
    }

    /** `WaitingGuard::drop`: the subtraction cannot wrap. */
    method DropWaitingGuard(ghost id: Id)
      requires Valid() && Enabled(world, DropGuard(id))
      modifies this
      ensures old(waiting) > 0
      ensures Valid() && world == After(config, old(world), DropGuard(id))
    {
      assert id in world.guards;
      InvKept(config, world, DropGuard(id));
      waiting := waiting - 1;
      world := After(config, world, DropGuard(id));
    }

    /** Dropping a permit, by the caller or with a cancelled future. */
    method ReturnPermit(ghost s: Step)
      requires Valid() && Enabled(world, s) && (s.Release? || (s.Cancel? && world.phases[s.id].Granted?))
      modifies this
      ensures Valid() && world == After(config, old(world), s) && available <= Permits(config)
    {
      InvKept(config, world, s);
      available := available + 1;
      world := After(config, world, s);
    }
  }
}
