/** One claimed job in the hands of its worker: heartbeats beside the spawned task, and the outcome
    that is counted (gmrag_api/src/bin/ingestion-worker.rs).

    The task, other workers and requests act on the tables between the turns of the loop; what they
    do there is any run of the queue. A worker that crashes sees no further turn. */
module IngestionWorker {
  import opened Wrappers
  import opened JobQueue
  import opened QueueRuns

  /** How the spawned task came to an end. */
  datatype TaskResult = TaskFinished | LeaseLost | TaskFailed(failure: JobFailure) | TaskPanicked

  datatype ProcessOutcome = OutcomeSucceeded | OutcomeRetried | OutcomeDead | LeaseConflict

  const PANICKED := JobFailure("INTERNAL_INGESTION_ERROR", "Ingestion worker stopped unexpectedly", true)

  /** What `select!` sees next. A heartbeat without an answer failed with a database error, applied
      or not. */
  datatype Event = Beat(applied: bool, answered: bool) | Ends(result: TaskResult)

  /** How the failure transaction ended: with an answer, or with an error, committed or not. */
  datatype ReportReply = Answered | Errored(applied: bool)

  /** An event, and the tables at that moment. */
  datatype Turn = Turn(tables: Tables, event: Event)

  // ----- What may happen -----

  /** One of the steps is the task's completion of its job. */
  ghost predicate CompletesIn(w: World, steps: seq<Step>, c: Claim)
    requires CanRun(w, steps)
    decreases |steps|
  {
    steps != []
        && ((steps[0] == Complete(c) && Reports(w, steps[0], c.job.id))
           || CompletesIn(After(w, steps[0]), steps[1..], c))
  }

  /** `process_claimed_job` returns `Ok` only when it completed its job or the document was gone. */
  ghost predicate TaskMayEnd(w: World, c: Claim, completed: bool, result: TaskResult) {
    result.TaskFinished? ==> completed || !HasDocument(w.t, c.job.document, c.job.workspace)
  }

  ghost function Beaten(w: World, c: Claim, leaseSecs: int, applied: bool): World {
    if applied then w.(t := ExtendedLease(w.t, c.job, c.worker, leaseSecs).0) else w
  }

  /** The turns are what the loop sees when `meanwhile[i]` happens before turn `i`. */
  ghost predicate Story(w: World, c: Claim, leaseSecs: int, completed: bool, turns: seq<Turn>,
          meanwhile: seq<seq<Step>>)
    requires |turns| == |meanwhile|
    decreases |turns|
  {
    turns != [] ==>
      && CanRun(w, meanwhile[0])
      && var v, done := Run(w, meanwhile[0]), completed || CompletesIn(w, meanwhile[0], c);
         && turns[0].tables == v.t
         && match turns[0].event
            case Ends(result) => TaskMayEnd(v, c, done, result)
            case Beat(applied, answered) =>
              && (answered ==> applied)
              && Story(Beaten(v, c, leaseSecs, applied), c, leaseSecs, done, turns[1..], meanwhile[1..])
  }

  // ----- What the worker does -----

  function FailureOf(result: TaskResult): JobFailure
    requires result.TaskFailed? || result.TaskPanicked?
  {
    if result.TaskFailed? then result.failure else PANICKED
  }

  /** The end of the loop. */
  function Settled(t: Tables, c: Claim, config: WorkerConfig, result: TaskResult, report: ReportReply):
    (Tables, ProcessOutcome)
  {
    match result
    case TaskFinished => (t, OutcomeSucceeded)
    case LeaseLost => (t, LeaseConflict)
    case _ =>
      var (u, finished) := FailedJob(t, c.job, c.worker, FailureOf(result), config);
      match report
      case Errored(applied) => (if applied then u else t, LeaseConflict)
      case Answered =>
        (u, match finished
            case None => LeaseConflict
            case Some(dead) => if dead then OutcomeDead else OutcomeRetried)
  }

  /** The world and the outcome that the turns lead to; no outcome if the worker crashed before one. */
  ghost function Course(w: World, c: Claim, config: WorkerConfig, completed: bool, turns: seq<Turn>,
                        meanwhile: seq<seq<Step>>, report: ReportReply): (World, Option<ProcessOutcome>)
    requires |turns| == |meanwhile| && Story(w, c, config.leaseSecs, completed, turns, meanwhile)
    decreases |turns|
  {
    if turns == [] then (w, None)
    else
      var v, done := Run(w, meanwhile[0]), completed || CompletesIn(w, meanwhile[0], c);
      match turns[0].event
      case Ends(result) =>
        var (t, outcome) := Settled(v.t, c, config, result, report);
        (v.(t := t), Some(outcome))
      case Beat(applied, answered) =>
        var u := Beaten(v, c, config.leaseSecs, applied);
        if answered && !Owns(v.t, c.job, c.worker) then (u, Some(LeaseConflict))
        else Course(u, c, config, done, turns[1..], meanwhile[1..], report)
  }

  method SettleTask(store: JobStore, c: Claim, config: WorkerConfig, result: TaskResult, report: ReportReply)
    returns (outcome: ProcessOutcome)
    modifies store
    ensures (store.T(), outcome) == Settled(old(store.T()), c, config, result, report)
  {
    match result {
      case TaskFinished => return OutcomeSucceeded;
      case LeaseLost => return LeaseConflict;
      case _ =>
    }
    if report == Errored(false) {
      return LeaseConflict;
    }
    var failure := if result.TaskFailed? then result.failure else PANICKED;
    var finished := store.FinishJobFailure(c.job, c.worker, failure, config);
    if report.Errored? {
      return LeaseConflict;
    }
    match finished {
      case Some(dead) => outcome := if dead then OutcomeDead else OutcomeRetried;
      case None => outcome := LeaseConflict;
    }
  }

  /** `process_one`: the tables and the outcome end as the turns say. */
  method ProcessOne(store: JobStore, ghost w: World, c: Claim, config: WorkerConfig, turns: seq<Turn>,
                    ghost meanwhile: seq<seq<Step>>, report: ReportReply)
    returns (outcome: Option<ProcessOutcome>)
    requires |turns| == |meanwhile| && Story(w, c, config.leaseSecs, false, turns, meanwhile) && store.T() == w.t
    modifies store
    ensures store.T() == Course(w, c, config, false, turns, meanwhile, report).0.t
    ensures outcome == Course(w, c, config, false, turns, meanwhile, report).1
  {
    hide Settled, CompletesIn, Run, CanRun;
    ghost var course := Course(w, c, config, false, turns, meanwhile, report);
    ghost var v, done := w, false;
    var i := 0;
    assert turns[0..] == turns && meanwhile[0..] == meanwhile;
    while i < |turns|
      invariant 0 <= i <= |turns| && store.T() == v.t
      invariant Story(v, c, config.leaseSecs, done, turns[i..], meanwhile[i..])
      invariant Course(v, c, config, done, turns[i..], meanwhile[i..], report) == course
    {
      assert turns[i..][1..] == turns[i + 1..] && meanwhile[i..][1..] == meanwhile[i + 1..];
      store.now, store.jobs, store.docs := turns[i].tables.now, turns[i].tables.jobs, turns[i].tables.docs;
      ghost var before := v;
      v := Run(before, meanwhile[i]);
      assert store.T() == v.t;
      match turns[i].event {
        case Ends(result) =>
          var settled := SettleTask(store, c, config, result, report);
          return Some(settled);
        case Beat(applied, answered) =>
          var extended := true;
          if applied {
            extended := store.ExtendLease(c.job, c.worker, config.leaseSecs);
          }
          if answered && !extended {
            return Some(LeaseConflict);
          }
          done := done || CompletesIn(before, meanwhile[i], c);
          v := Beaten(v, c, config.leaseSecs, applied);
      }
      i := i + 1;
    }
    outcome := None;
  }

  // ----- What an outcome says -----

  /** Job `id` has the result `status`, unless its row was deleted. */
  predicate Ended(w: World, id: Id, status: JobStatus) {
    id in w.jobIds && (id in w.t.jobs ==> w.t.jobs[id].status == status)
  }

  lemma {:induction false} EndedForever(w: World, id: Id, status: JobStatus, steps: seq<Step>)
    requires Inv(w) && CanRun(w, steps) && Ended(w, id, status) && (status == Succeeded || status == JobDead)
    ensures Ended(Run(w, steps), id, status)
    decreases |steps|
  {
    hide Inv, After;
    if steps != [] {
      ResultIsFinal(w, steps[0], id);
      InvKept(w, steps[0]);
      EndedForever(After(w, steps[0]), id, status, steps[1..]);
    }
  }

  lemma {:induction false} CompletionDelivers(w: World, steps: seq<Step>, c: Claim)
    requires Inv(w) && CanRun(w, steps) && CompletesIn(w, steps, c)
    ensures Ended(Run(w, steps), c.job.id, Succeeded)
    decreases |steps|
  {
    var s := steps[0];
    var u := After(w, s);
    InvKept(w, s);
    if s == Complete(c) && Reports(w, s, c.job.id) {
      assert Ended(u, c.job.id, Succeeded);
      EndedForever(u, c.job.id, Succeeded, steps[1..]);
    } else {
      CompletionDelivers(u, steps[1..], c);
    }
  }

  lemma {:induction false} ClaimsStay(w: World, steps: seq<Step>, c: Claim)
    requires CanRun(w, steps) && c in w.claims
    ensures c in Run(w, steps).claims
    decreases |steps|
  {
    if steps != [] {
      assert c in After(w, steps[0]).claims;
      hide After;
      ClaimsStay(After(w, steps[0]), steps[1..], c);
    }
  }

  lemma BeatKeeps(w: World, c: Claim, leaseSecs: int, applied: bool)
    requires Inv(w) && c in w.claims
    ensures Inv(Beaten(w, c, leaseSecs, applied))
    ensures Owns(Beaten(w, c, leaseSecs, applied).t, c.job, c.worker) == Owns(w.t, c.job, c.worker)
    ensures forall status | status != Processing && Ended(w, c.job.id, status) ::
              Ended(Beaten(w, c, leaseSecs, applied), c.job.id, status)
  {
    if applied {
      InvKept(w, Heartbeat(c, leaseSecs));
    }
  }

  /** What is known when a task settles: its job is complete if it says so, unless the row is gone. */
  ghost predicate Truthful(w: World, c: Claim, outcome: Option<ProcessOutcome>) {
    && (outcome == Some(OutcomeSucceeded) ==> Ended(w, c.job.id, Succeeded))
    && (outcome == Some(OutcomeDead) ==> Ended(w, c.job.id, JobDead))
    && (outcome.Some? && outcome.value != LeaseConflict ==> !Owns(w.t, c.job, c.worker))
  }

  lemma SettlingIsTruthful(w: World, c: Claim, config: WorkerConfig, completed: bool, result: TaskResult,
          report: ReportReply)
    requires Inv(w) && c in w.claims && TaskMayEnd(w, c, completed, result)
    requires completed ==> Ended(w, c.job.id, Succeeded)
    ensures var (t, outcome) := Settled(w.t, c, config, result, report);
            Inv(w.(t := t)) && Truthful(w.(t := t), c, Some(outcome))
  {
    hide HasActiveJob, OneActive, DocumentsAgree, Leased, Sanitized, Disposition;
    if (result.TaskFailed? || result.TaskPanicked?) && report != Errored(false) {
      InvKept(w, Fail(c, FailureOf(result), config));
    }
  }

  lemma {:induction false} CourseIsTruthful(w: World, c: Claim, config: WorkerConfig, completed: bool, turns: seq<Turn>,
          meanwhile: seq<seq<Step>>, report: ReportReply)
    requires Inv(w) && c in w.claims && (completed ==> Ended(w, c.job.id, Succeeded))
    requires |turns| == |meanwhile| && Story(w, c, config.leaseSecs, completed, turns, meanwhile)
    ensures var (v, outcome) := Course(w, c, config, completed, turns, meanwhile, report);
            && Inv(v) && c in v.claims && Truthful(v, c, outcome)
            && (outcome.Some? && (forall turn | turn in turns :: turn.event.Beat?) ==>
                  outcome == Some(LeaseConflict) && !Owns(v.t, c.job, c.worker))
    decreases |turns|
  {
    hide Inv, Settled, Ended, Truthful, Owns, After;
    if turns == [] {
      assert Truthful(w, c, None) by { NoOutcomeIsTruthful(w, c); }
    } else {
      var v, done := Run(w, meanwhile[0]), completed || CompletesIn(w, meanwhile[0], c);
      ToNextTurn(w, c, completed, meanwhile[0]);
      assert turns[0] in turns;
      match turns[0].event {
        case Ends(result) =>
          SettlingIsTruthful(v, c, config, done, result, report);
        case Beat(applied, answered) =>
          BeatKeeps(v, c, config.leaseSecs, applied);
          if answered && !Owns(v.t, c.job, c.worker) {
            ConflictIsTruthful(Beaten(v, c, config.leaseSecs, applied), c);
          } else {
            CourseIsTruthful(Beaten(v, c, config.leaseSecs, applied), c, config, done, turns[1..], meanwhile[1..],
              report);
          }
      }
    }
  }

  lemma NoOutcomeIsTruthful(w: World, c: Claim)
    ensures Truthful(w, c, None)
  {
  }

  lemma ConflictIsTruthful(w: World, c: Claim)
    ensures Truthful(w, c, Some(LeaseConflict))
  {
  }

  lemma ToNextTurn(w: World, c: Claim, completed: bool, steps: seq<Step>)
    requires Inv(w) && c in w.claims && (completed ==> Ended(w, c.job.id, Succeeded)) && CanRun(w, steps)
    ensures Inv(Run(w, steps)) && c in Run(w, steps).claims
    ensures completed || CompletesIn(w, steps, c) ==> Ended(Run(w, steps), c.job.id, Succeeded)
  {
    hide Inv, After, Ended, Run, CanRun, CompletesIn;
    InvAlong(w, steps);
    ClaimsStay(w, steps, c);
    if completed {
      EndedForever(w, c.job.id, Succeeded, steps);
    } else if CompletesIn(w, steps, c) {
      CompletionDelivers(w, steps, c);
    }
  }

  /** The outcome that is counted tells for ever what became of the job: success and death are its
      final state (or its document was deleted), and after either of them, a retry, or a heartbeat
      that found the lease lost, the claim is refused whatever happens later. */
  lemma OutcomeTellsTheTruth(w: World, c: Claim, config: WorkerConfig, turns: seq<Turn>, meanwhile: seq<seq<Step>>,
          report: ReportReply, later: seq<Step>)
    requires Inv(w) && c in w.claims
    requires |turns| == |meanwhile| && Story(w, c, config.leaseSecs, false, turns, meanwhile)
    requires CanRun(Course(w, c, config, false, turns, meanwhile, report).0, later)
    ensures var (v, outcome) := Course(w, c, config, false, turns, meanwhile, report);
            var z := Run(v, later);
            && (outcome == Some(OutcomeSucceeded) ==> Ended(z, c.job.id, Succeeded))
            && (outcome == Some(OutcomeDead) ==> Ended(z, c.job.id, JobDead))
            && (outcome.Some? && (outcome.value != LeaseConflict || forall turn | turn in turns :: turn.event.Beat?) ==>
                  Refused(z.t, c))
  {
    hide Inv, Run, CanRun, Course, Story, Owns, Ended, Refused;
    var (v, outcome) := Course(w, c, config, false, turns, meanwhile, report);
    CourseIsTruthful(w, c, config, false, turns, meanwhile, report);
    if outcome == Some(OutcomeSucceeded) {
      EndedForever(v, c.job.id, Succeeded, later);
    } else if outcome == Some(OutcomeDead) {
      EndedForever(v, c.job.id, JobDead, later);
    }
    if !Owns(v.t, c.job, c.worker) {
      FencedForever(v, later, c);
    }
  }

  // ----- When each outcome is counted -----

  /** The world and the event of the turn that ends the loop: the first at which the task has ended or
      a heartbeat is answered without owning the job. */
  ghost function LastTurn(w: World, c: Claim, leaseSecs: int, completed: bool, turns: seq<Turn>,
                          meanwhile: seq<seq<Step>>): Option<(World, Event)>
    requires |turns| == |meanwhile| && Story(w, c, leaseSecs, completed, turns, meanwhile)
    decreases |turns|
  {
    if turns == [] then None
    else
      var v, done := Run(w, meanwhile[0]), completed || CompletesIn(w, meanwhile[0], c);
      match turns[0].event
      case Ends(_) => Some((v, turns[0].event))
      case Beat(applied, answered) =>
        if answered && !Owns(v.t, c.job, c.worker) then Some((v, turns[0].event))
        else LastTurn(Beaten(v, c, leaseSecs, applied), c, leaseSecs, done, turns[1..], meanwhile[1..])
  }

  predicate FailedOrPanicked(e: Event) {
    e.Ends? && (e.result.TaskFailed? || e.result.TaskPanicked?)
  }

  /** What is reported for a task that ended badly: its own failure, or one that may pass. */
  function Reported(e: Event): JobFailure
    requires FailedOrPanicked(e)
  {
    if e.result.TaskFailed? then e.result.failure
    else JobFailure("INTERNAL_INGESTION_ERROR", "Ingestion worker stopped unexpectedly", true)
  }

  /** What is counted when the loop ends at world `v` with `e`. */
  ghost predicate CountedRightly(v: World, e: Event, c: Claim, config: WorkerConfig, report: ReportReply,
          outcome: ProcessOutcome) {
    && (outcome == OutcomeSucceeded <==> e == Ends(TaskFinished))
    && (outcome == OutcomeDead <==>
          FailedOrPanicked(e) && report == Answered && Reports(v, Fail(c, Reported(e), config), c.job.id))
    && (outcome == OutcomeRetried <==>
          FailedOrPanicked(e) && report == Answered && Retries(v, Fail(c, Reported(e), config), c.job.id))
    && (outcome == LeaseConflict <==>
          || e.Beat? || e == Ends(LeaseLost)
          || (FailedOrPanicked(e)
              && (report.Errored? || !Owns(v.t, c.job, c.worker) || !LeaseLive(v.t, c.job.id))))
  }

  lemma EndIsCountedRightly(v: World, c: Claim, config: WorkerConfig, result: TaskResult, report: ReportReply)
    ensures CountedRightly(v, Ends(result), c, config, report, Settled(v.t, c, config, result, report).1)
  {
    hide Sanitized, Disposition, Owns, LeaseLive, RetriedJob, DeadJob;
  }

  /** When each outcome is counted, for every course: success exactly when the task finished; death and
      retry exactly when the task failed or panicked and its failure was recorded that way; a conflict
      exactly when a heartbeat found the lease lost, the task said so, or its failure could not be
      recorded; and nothing while no turn has ended the loop. */
  lemma {:induction false} EachOutcomeIff(w: World, c: Claim, config: WorkerConfig, completed: bool, turns: seq<Turn>,
          meanwhile: seq<seq<Step>>, report: ReportReply)
    requires |turns| == |meanwhile| && Story(w, c, config.leaseSecs, completed, turns, meanwhile)
    ensures var outcome := Course(w, c, config, completed, turns, meanwhile, report).1;
            var last := LastTurn(w, c, config.leaseSecs, completed, turns, meanwhile);
            && (outcome.Some? <==> last.Some?)
            && (last.Some? ==> CountedRightly(last.value.0, last.value.1, c, config, report, outcome.value))
    decreases |turns|
  {
    hide Settled, CountedRightly, Owns, Run, CanRun, CompletesIn, Beaten;
    if turns != [] {
      var v, done := Run(w, meanwhile[0]), completed || CompletesIn(w, meanwhile[0], c);
      match turns[0].event {
        case Ends(result) => EndIsCountedRightly(v, c, config, result, report);
        case Beat(applied, answered) =>
          if answered && !Owns(v.t, c.job, c.worker) {
            BeatIsCountedRightly(v, turns[0].event, c, config, report);
          } else {
            EachOutcomeIff(Beaten(v, c, config.leaseSecs, applied), c, config, done, turns[1..], meanwhile[1..],
                           report);
          }
      }
    }
  }

  lemma BeatIsCountedRightly(v: World, e: Event, c: Claim, config: WorkerConfig, report: ReportReply)
    requires e.Beat?
    ensures CountedRightly(v, e, c, config, report, LeaseConflict)
  {
  }

  /** A heartbeat that is applied gives the owner the full lease from now on, and changes nothing else. */
  lemma BeatExtends(w: World, c: Claim, leaseSecs: int, applied: bool)
    ensures var v := Beaten(w, c, leaseSecs, applied);
            if applied && Owns(w.t, c.job, c.worker)
            then && v.t.jobs.Keys == w.t.jobs.Keys && c.job.id in v.t.jobs
                 && v == w.(t := w.t.(jobs := v.t.jobs))
                 && v.t.jobs[c.job.id] == w.t.jobs[c.job.id].(lease := Some(w.t.now + leaseSecs))
                 && forall i | i in w.t.jobs && i != c.job.id :: v.t.jobs[i] == w.t.jobs[i]
            else v == w
  {
  }

  /** What the end of the loop writes: the failure of a task that ended badly, unless the report did not
      get through; and nothing otherwise. */
  lemma {:induction false} EndWrites(w: World, c: Claim, config: WorkerConfig, completed: bool, turns: seq<Turn>,
          meanwhile: seq<seq<Step>>, report: ReportReply)
    requires |turns| == |meanwhile| && Story(w, c, config.leaseSecs, completed, turns, meanwhile) && c in w.claims
    ensures var z := Course(w, c, config, completed, turns, meanwhile, report).0;
            var last := LastTurn(w, c, config.leaseSecs, completed, turns, meanwhile);
            last.Some? ==>
              && c in last.value.0.claims
              && z == if FailedOrPanicked(last.value.1) && report != Errored(false)
                      then After(last.value.0, Fail(c, Reported(last.value.1), config))
                      else last.value.0
    decreases |turns|
  {
    hide Owns, Run, CanRun, CompletesIn, FailedJob;
    if turns != [] {
      var v, done := Run(w, meanwhile[0]), completed || CompletesIn(w, meanwhile[0], c);
      ClaimsStay(w, meanwhile[0], c);
      match turns[0].event {
        case Ends(result) =>
        case Beat(applied, answered) =>
          BeatExtends(v, c, config.leaseSecs, applied);
          BeatKeepsClaims(v, c, config.leaseSecs, applied);
          hide Beaten;
          if !(answered && !Owns(v.t, c.job, c.worker)) {
            EndWrites(Beaten(v, c, config.leaseSecs, applied), c, config, done, turns[1..], meanwhile[1..], report);
          }
      }
    }
  }

  // ----- What a conflict hides -----

  /** The job's row says that this very claim completed it. */
  predicate DoneBy(t: Tables, c: Claim) {
    c.job.id in t.jobs && t.jobs[c.job.id].status == Succeeded && t.jobs[c.job.id].token == Some(c.job.token)
  }

  /** The claim's completion is among the steps that come before the turn that ends the loop. */
  ghost predicate CompletedBy(w: World, c: Claim, leaseSecs: int, completed: bool, turns: seq<Turn>,
                              meanwhile: seq<seq<Step>>)
    requires |turns| == |meanwhile| && Story(w, c, leaseSecs, completed, turns, meanwhile)
    decreases |turns|
  {
    if turns == [] then completed
    else
      var v, done := Run(w, meanwhile[0]), completed || CompletesIn(w, meanwhile[0], c);
      match turns[0].event
      case Ends(_) => done
      case Beat(applied, answered) =>
        if answered && !Owns(v.t, c.job, c.worker) then done
        else CompletedBy(Beaten(v, c, leaseSecs, applied), c, leaseSecs, done, turns[1..], meanwhile[1..])
  }

  /** `completed` tells what the row says, as long as there is one. */
  predicate Told(w: World, c: Claim, completed: bool) {
    c.job.id in w.t.jobs ==> (DoneBy(w.t, c) <==> completed)
  }

  lemma StepTells(w: World, s: Step, c: Claim, completed: bool)
    requires Inv(w) && Enabled(w, s) && c in w.claims && Told(w, c, completed)
    ensures Told(After(w, s), c, completed || (s == Complete(c) && Reports(w, s, c.job.id)))
  {
    hide HasActiveJob, OneActive, DocumentsAgree, Leased, Sanitized, Disposition;
    var id := c.job.id;
    if Finished(w, id) {
      ResultIsFinal(w, s, id);
      if s == Complete(c) && Reports(w, s, id) { ReportNeedsRow(w, s, id); }
    } else if id in w.t.jobs {
      ResultByLatestClaim(w, s, id);
      if s.Complete? && s.c.job.id == id && Reports(w, s, id) {
        assert s.c.job.token == c.job.token ==> s.c == c;
      }
    }
  }

  lemma {:induction false} StepsTell(w: World, steps: seq<Step>, c: Claim, completed: bool)
    requires Inv(w) && CanRun(w, steps) && c in w.claims && Told(w, c, completed)
    ensures Told(Run(w, steps), c, completed || CompletesIn(w, steps, c))
    decreases |steps|
  {
    hide Inv, After, Told, Reports;
    if steps != [] {
      var s := steps[0];
      StepTells(w, s, c, completed);
      InvKept(w, s);
      ClaimStays(w, s, c);
      StepsTell(After(w, s), steps[1..], c, completed || (s == Complete(c) && Reports(w, s, c.job.id)));
    }
  }

  lemma ClaimStays(w: World, s: Step, c: Claim)
    requires Enabled(w, s) && c in w.claims
    ensures c in After(w, s).claims
  {
  }

  lemma BeatTells(w: World, c: Claim, leaseSecs: int, applied: bool, completed: bool)
    requires Told(w, c, completed)
    ensures Told(Beaten(w, c, leaseSecs, applied), c, completed)
  {
  }

  lemma SettlingTells(w: World, c: Claim, config: WorkerConfig, result: TaskResult, report: ReportReply,
          completed: bool)
    requires Told(w, c, completed)
    ensures Told(w.(t := Settled(w.t, c, config, result, report).0), c, completed)
  {
    hide Sanitized, Disposition;
  }

  /** Whatever a worker counts, and so also when it counts a conflict: the job's row, if there still is
      one, says that this claim completed it if and only if the completion was among the steps before
      the loop ended. */
  lemma {:induction false} RowTellsIff(w: World, c: Claim, config: WorkerConfig, completed: bool, turns: seq<Turn>,
          meanwhile: seq<seq<Step>>, report: ReportReply)
    requires Inv(w) && c in w.claims && Told(w, c, completed)
    requires |turns| == |meanwhile| && Story(w, c, config.leaseSecs, completed, turns, meanwhile)
    ensures Told(Course(w, c, config, completed, turns, meanwhile, report).0, c,
                 CompletedBy(w, c, config.leaseSecs, completed, turns, meanwhile))
    decreases |turns|
  {
    hide Inv, Settled, Told, Owns, After, Beaten, Run, CanRun, CompletesIn;
    if turns != [] {
      var v, done := Run(w, meanwhile[0]), completed || CompletesIn(w, meanwhile[0], c);
      InvAlong(w, meanwhile[0]);
      ClaimsStay(w, meanwhile[0], c);
      StepsTell(w, meanwhile[0], c, completed);
      match turns[0].event {
        case Ends(result) => SettlingTells(v, c, config, result, report, done);
        case Beat(applied, answered) =>
          BeatTells(v, c, config.leaseSecs, applied, done);
          BeatKeeps(v, c, config.leaseSecs, applied);
          BeatKeepsClaims(v, c, config.leaseSecs, applied);
          if !(answered && !Owns(v.t, c.job, c.worker)) {
            RowTellsIff(Beaten(v, c, config.leaseSecs, applied), c, config, done, turns[1..], meanwhile[1..],
              report);
          }
      }
    }
  }

  lemma BeatKeepsClaims(w: World, c: Claim, leaseSecs: int, applied: bool)
    ensures Beaten(w, c, leaseSecs, applied).claims == w.claims
  {
  }

  /** When a counted conflict hides a success: for a claim that had not completed its job when the
      worker took it up, exactly if the completion came before the loop ended (unless the row was
      deleted). */
  lemma ConflictHidesSuccessIff(w: World, c: Claim, config: WorkerConfig, turns: seq<Turn>, meanwhile: seq<seq<Step>>,
          report: ReportReply)
    requires Inv(w) && c in w.claims && !DoneBy(w.t, c)
    requires |turns| == |meanwhile| && Story(w, c, config.leaseSecs, false, turns, meanwhile)
    requires Course(w, c, config, false, turns, meanwhile, report).1 == Some(LeaseConflict)
    ensures var v := Course(w, c, config, false, turns, meanwhile, report).0;
            c.job.id in v.t.jobs ==>
              (v.t.jobs[c.job.id].status == Succeeded && v.t.jobs[c.job.id].token == Some(c.job.token)
               <==> CompletedBy(w, c, config.leaseSecs, false, turns, meanwhile))
  {
    hide Inv, Course, Story, CompletedBy;
    RowTellsIff(w, c, config, false, turns, meanwhile, report);
  }

  /** The ways it happens: right after the completion comes a heartbeat, which is refused, or the task
      ends in another way than well, and reporting that is refused or fails. */
  lemma ConflictCanHideSuccess(w: World, c: Claim, config: WorkerConfig, event: Event, report: ReportReply)
    requires Inv(w) && Enabled(w, Complete(c)) && Reports(w, Complete(c), c.job.id)
    requires event == Beat(true, true) || (event.Ends? && !event.result.TaskFinished?)
    ensures var u := After(w, Complete(c));
            var turns, meanwhile := [Turn(u.t, event)], [[Complete(c)]];
            && Story(w, c, config.leaseSecs, false, turns, meanwhile)
            && Course(w, c, config, false, turns, meanwhile, report) == (u, Some(LeaseConflict))
            && Ended(u, c.job.id, Succeeded)
  {
    var u := After(w, Complete(c));
    assert CanRun(u, []);
    assert [Complete(c)][1..] == [];
    assert Run(w, [Complete(c)]) == u;
  }
}
