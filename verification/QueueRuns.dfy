/** Runs of the ingestion queue: any number of workers, uploads, re-ingestions and document
    deletions, interleaved in any order (gmrag_api/src/ingestion/jobs.rs, bin/ingestion-worker.rs).

    A worker that crashes simply takes no further step. The world remembers which UUIDs were drawn
    and which claims were handed out; that history is what "fresh" and "older claim" refer to. */
module QueueRuns {
  import opened Wrappers
  import opened Backoff
  import opened JobQueue

  datatype Claim = Claim(job: ClaimedJob, worker: string)

  datatype World = World(t: Tables, claims: set<Claim>, tokens: set<Token>, jobIds: set<Id>, docIds: set<Id>)

  datatype Step =
    | Tick(secs: nat)
    | TakeJobs(worker: string, config: WorkerConfig, wanted: Option<Id>, locked: set<Id>, grant: map<Id, Token>)
    | Heartbeat(c: Claim, leaseSecs: int)
    | SetStage(c: Claim, stage: Stage)
    | Complete(c: Claim)
    | Fail(c: Claim, failure: JobFailure, config: WorkerConfig)
    | Upload(document: Id, workspace: Id, id: Id, maxAttempts: I32)
    | Requeue(document: Id, workspace: Id, maxAttempts: I32, eligibility: Eligibility, id: Id)
    | Recover
    | Delete(document: Id)

  predicate Injective(grant: map<Id, Token>) {
    forall i, j | i in grant && j in grant && grant[i] == grant[j] :: i == j
  }

  /** A step may be taken: the database chose by its rules, UUIDs are fresh, and a worker acts only
      on claims that were handed to it. */
  predicate Enabled(w: World, s: Step) {
    match s
    case TakeJobs(_, config, wanted, locked, grant) =>
      && Selects(w.t, wanted, locked, config.batchSize, grant.Keys) && CountsFit(w.t, grant.Keys)
      && grant.Values !! w.tokens && Injective(grant)
    case Heartbeat(c, _) => c in w.claims
    case SetStage(c, _) => c in w.claims
    case Complete(c) => c in w.claims
    case Fail(c, _, _) => c in w.claims
    case Upload(document, _, id, _) => document !in w.docIds && id !in w.jobIds
    case Requeue(_, _, _, _, id) => id !in w.jobIds
    case _ => true
  }

  ghost function After(w: World, s: Step): World
    requires Enabled(w, s)
  {
    match s
    case Tick(secs) => w.(t := w.t.(now := w.t.now + secs))
    case TakeJobs(worker, config, _, _, grant) =>
      var t := ClaimRows(w.t, worker, config.leaseSecs, grant);
      w.(t := t, tokens := w.tokens + grant.Values,
         claims := w.claims + set c | c in ClaimsOf(t, grant) :: Claim(c, worker))
    case Heartbeat(c, leaseSecs) => w.(t := ExtendedLease(w.t, c.job, c.worker, leaseSecs).0)
    case SetStage(c, stage) => w.(t := StageSet(w.t, c.job, c.worker, stage).0)
    case Complete(c) => w.(t := CompletedJob(w.t, c.job, c.worker).0)
    case Fail(c, failure, config) => w.(t := FailedJob(w.t, c.job, c.worker, failure, config).0)
    case Upload(document, workspace, id, maxAttempts) =>
      w.(t := Uploaded(w.t, document, workspace, id, maxAttempts), jobIds := w.jobIds + {id},
         docIds := w.docIds + {document})
    case Requeue(document, workspace, maxAttempts, eligibility, id) =>
      w.(t := Requeued(w.t, document, workspace, maxAttempts, eligibility, id).0, jobIds := w.jobIds + {id})
    case Recover => w.(t := Recovered(w.t))
    case Delete(document) => w.(t := DocumentDeleted(w.t, document))
  }

  const EMPTY_WORLD := World(Tables(0, map[], map[]), {}, {}, {}, {})

  ghost predicate CanRun(w: World, steps: seq<Step>)
    decreases |steps|
  {
    steps != [] ==> Enabled(w, steps[0]) && CanRun(After(w, steps[0]), steps[1..])
  }

  ghost function Run(w: World, steps: seq<Step>): World
    requires CanRun(w, steps)
    decreases |steps|
  {
    if steps == [] then w else Run(After(w, steps[0]), steps[1..])
  }

  // ----- Invariants -----

  /** Rows refer to existing documents of the same workspace. */
  ghost predicate Linked(w: World) {
    && (forall id | id in w.t.jobs :: HasDocument(w.t, w.t.jobs[id].document, w.t.jobs[id].workspace))
    && w.t.jobs.Keys <= w.jobIds && w.t.docs.Keys <= w.docIds
  }

  /** Claims were handed out under distinct tokens and describe their job rightly. */
  ghost predicate ClaimsSound(w: World) {
    && (forall c | c in w.claims :: c.job.token in w.tokens && c.job.id in w.jobIds)
    && (forall c | c in w.claims && c.job.id in w.t.jobs ::
          w.t.jobs[c.job.id].document == c.job.document && w.t.jobs[c.job.id].workspace == c.job.workspace)
    && (forall c, d | c in w.claims && d in w.claims && c.job.token == d.job.token :: c == d)
  }

  /** A job in progress carries a lease, a counted attempt and the token of a claim that was handed
      out for it. */
  ghost predicate Leased(w: World) {
    forall id | id in w.t.jobs ::
      && (if w.t.jobs[id].status == Processing then 1 else 0) <= w.t.jobs[id].attempts
      && (w.t.jobs[id].token.Some? ==> w.t.jobs[id].token.value in w.tokens)
      && (w.t.jobs[id].status == Processing ==>
            && w.t.jobs[id].lease.Some?
            && exists c :: c in w.claims && c.job.id == id && Owns(w.t, c.job, c.worker))
  }

  /** At most one active job for a document. */
  ghost predicate OneActive(t: Tables) {
    forall i, j | i in t.jobs && j in t.jobs && Active(t.jobs[i]) && Active(t.jobs[j])
                  && t.jobs[i].document == t.jobs[j].document :: i == j
  }

  ghost predicate DocumentsAgree(t: Tables) {
    forall d | d in t.docs ::
      && (t.docs[d].status == InProgress <==> HasActiveJob(t, d))
      && (t.docs[d].status == Completed ==> t.docs[d].stage == Done)
      && (t.docs[d].status == Failed ==> t.docs[d].stage == StageFailed)
  }

  ghost predicate Inv(w: World) {
    Linked(w) && ClaimsSound(w) && Leased(w) && OneActive(w.t) && DocumentsAgree(w.t)
  }

  // ----- The shape of a step -----

  predicate ByOwner(s: Step) {
    s.Heartbeat? || s.SetStage? || s.Complete? || s.Fail?
  }

  /** `u` differs from `t` in the row `id`, which keeps its document, and in that document's row. */
  ghost predicate RowChanged(t: Tables, u: Tables, id: Id) {
    && id in t.jobs && u.now == t.now
    && (exists j ::
          && u.jobs == t.jobs[id := j] && j.document == t.jobs[id].document && j.workspace == t.jobs[id].workspace)
    && (u.docs == t.docs || exists d ::
          && HasDocument(t, t.jobs[id].document, t.jobs[id].workspace)
          && u.docs == t.docs[t.jobs[id].document := d] && d.workspace == t.jobs[id].workspace)
  }

  /** An owner's step that is not refused. */
  ghost predicate OwnerRowStep(t: Tables, u: Tables, c: Claim) {
    && Owns(t, c.job, c.worker) && RowChanged(t, u, c.job.id)
    && var j, k := t.jobs[c.job.id], u.jobs[c.job.id];
       && (k.status == Processing ==> k.claimedBy == j.claimedBy && k.lease.Some?)
       && (k.token == j.token || (k.token == None && k.status == Queued))
       && k.maxAttempts == j.maxAttempts && k.attempts == j.attempts
  }

  lemma OwnerStepShape(w: World, s: Step)
    requires Inv(w) && Enabled(w, s) && ByOwner(s)
    ensures After(w, s) == w.(t := After(w, s).t)
    ensures After(w, s).t == w.t || OwnerRowStep(w.t, After(w, s).t, s.c)
  {
    hide Sanitized, DispositionAfterFailure, OneActive, DocumentsAgree, HasActiveJob;
    var t, u, c := w.t, After(w, s).t, s.c.job;
    if u != t {
      assert Owns(t, c, s.c.worker);
      assert t.jobs[c.id].document == c.document && t.jobs[c.id].workspace == c.workspace;
      assert u.jobs == t.jobs[c.id := u.jobs[c.id]];
      assert u.docs == t.docs || u.docs == t.docs[c.document := u.docs[c.document]];
    }
  }

  /** A new queued job `id` for a document that is now in progress. */
  ghost predicate JobAdded(t: Tables, u: Tables, document: Id, id: Id) {
    && u.now == t.now && id !in t.jobs && id in u.jobs
    && u.jobs == t.jobs[id := u.jobs[id]] && u.jobs[id].document == document
    && u.jobs[id].status == Queued && u.jobs[id].token == None && u.jobs[id].attempts == 0
    && document in u.docs && u.docs == t.docs[document := u.docs[document]]
    && HasDocument(u, document, u.jobs[id].workspace)
    && u.docs[document].status == InProgress
    && (document in t.docs ==> t.docs[document].workspace == u.docs[document].workspace)
  }

  lemma UploadShape(w: World, s: Step)
    requires Linked(w) && Enabled(w, s) && s.Upload?
    ensures var u := After(w, s);
            && u == w.(t := u.t, jobIds := w.jobIds + {s.id}, docIds := w.docIds + {s.document})
            && JobAdded(w.t, u.t, s.document, s.id) && s.document !in w.t.docs
  {
  }

  lemma RequeueShape(w: World, s: Step)
    requires Linked(w) && Enabled(w, s) && s.Requeue?
    ensures var u := After(w, s);
            && u == w.(t := u.t, jobIds := w.jobIds + {s.id})
            && (u.t == w.t
               || (JobAdded(w.t, u.t, s.document, s.id) && s.document in w.t.docs && !HasActiveJob(w.t, s.document)))
  {
    hide HasActiveJob;
  }

  // ----- Every step keeps the invariants -----

  lemma OwnerKeepsHistory(w: World, u: Tables, c: Claim)
    requires Linked(w) && ClaimsSound(w) && Leased(w) && c in w.claims && OwnerRowStep(w.t, u, c)
    ensures Linked(w.(t := u)) && ClaimsSound(w.(t := u)) && Leased(w.(t := u))
  {
    forall id | id in u.jobs && u.jobs[id].status == Processing
      ensures exists d :: d in w.claims && d.job.id == id && Owns(u, d.job, d.worker)
    {
      if id == c.job.id {
        assert Owns(u, c.job, c.worker);
      } else {
        var d :| d in w.claims && d.job.id == id && Owns(w.t, d.job, d.worker);
        assert Owns(u, d.job, d.worker);
      }
    }
  }

  lemma TakeKeepsHistory(w: World, s: Step)
    requires Linked(w) && ClaimsSound(w) && Leased(w) && s.TakeJobs? && Enabled(w, s)
    ensures Linked(After(w, s)) && ClaimsSound(After(w, s)) && Leased(After(w, s))
  {
    hide Linked, ClaimsSound, Leased;
    TakeKeepsClaims(w, s);
    TakeKeepsLeases(w, s);
  }

  /** A claim changes no row's document. */
  lemma TakenRows(w: World, s: Step)
    requires s.TakeJobs? && Enabled(w, s)
    ensures var u := After(w, s);
            && u.t.now == w.t.now && u.t.jobs.Keys == w.t.jobs.Keys && u.t.docs == w.t.docs
            && s.grant.Keys <= w.t.jobs.Keys
            && u.jobIds == w.jobIds && u.docIds == w.docIds && u.tokens == w.tokens + s.grant.Values
            && (forall id | id in w.t.jobs ::
                  u.t.jobs[id].document == w.t.jobs[id].document && u.t.jobs[id].workspace == w.t.jobs[id].workspace)
  {
    hide NoLaterThan;
  }

  /** The new claims are those of the granted rows. */
  lemma TakenClaims(w: World, s: Step)
    requires s.TakeJobs? && Enabled(w, s)
    ensures var u := After(w, s);
            forall c | c in u.claims && c !in w.claims ::
              && c.job.id in s.grant && c.job.id in u.t.jobs
              && c == Claim(ClaimOf(c.job.id, u.t.jobs[c.job.id], s.grant[c.job.id]), s.worker)
    ensures s.grant.Values !! w.tokens && Injective(s.grant)
  {
    hide NoLaterThan, Injective;
    TakenRows(w, s);
  }

  lemma TakeKeepsClaims(w: World, s: Step)
    requires Linked(w) && ClaimsSound(w) && s.TakeJobs? && Enabled(w, s)
    ensures Linked(After(w, s)) && ClaimsSound(After(w, s))
  {
    hide After, Enabled;
    TakenRows(w, s);
    TakenClaims(w, s);
    var u := After(w, s);
    forall c | c in u.claims ensures c.job.token in u.tokens && c.job.id in u.jobIds {}
    forall c | c in u.claims && c !in w.claims ensures c.job.token in s.grant.Values && c.job.token !in w.tokens {}
    forall c, d | c in u.claims && d in u.claims && c.job.token == d.job.token ensures c == d {}
  }

  /** What a claim does to one row, and the claim that is handed out for it. */
  lemma TakenRow(w: World, s: Step, id: Id)
    requires s.TakeJobs? && Enabled(w, s) && id in w.t.jobs
    ensures var u := After(w, s);
            && id in u.t.jobs && w.claims <= u.claims && w.tokens <= u.tokens
            && (id !in s.grant ==> u.t.jobs[id] == w.t.jobs[id])
            && (id in s.grant ==>
                  && s.grant[id] in u.tokens && w.t.jobs[id].attempts < I32_MAX
                  && u.t.jobs[id]
                     == Claimed(w.t.jobs[id], s.worker, s.grant[id], w.t.now + s.config.leaseSecs)
                  && Claim(ClaimOf(id, u.t.jobs[id], s.grant[id]), s.worker) in u.claims)
  {
    hide NoLaterThan, Injective;
    TakenRows(w, s);
    if id in s.grant {
      var c := ClaimOf(id, After(w, s).t.jobs[id], s.grant[id]);
      assert c in ClaimsOf(After(w, s).t, s.grant);
      assert s.grant[id] in s.grant.Values;
    }
  }

  lemma TakeKeepsLeases(w: World, s: Step)
    requires Leased(w) && s.TakeJobs? && Enabled(w, s)
    ensures Leased(After(w, s))
  {
    hide After, Enabled;
    var u := After(w, s);
    TakenRows(w, s);
    forall id | id in u.t.jobs
      ensures u.t.jobs[id].token.Some? ==> u.t.jobs[id].token.value in u.tokens
      ensures (if u.t.jobs[id].status == Processing then 1 else 0) <= u.t.jobs[id].attempts
      ensures u.t.jobs[id].status == Processing ==>
                u.t.jobs[id].lease.Some? && exists d :: d in u.claims && d.job.id == id && Owns(u.t, d.job, d.worker)
    {
      TakenRow(w, s, id);
      if id in s.grant {
        var c := Claim(ClaimOf(id, u.t.jobs[id], s.grant[id]), s.worker);
        assert c in u.claims && Owns(u.t, c.job, c.worker);
      } else if w.t.jobs[id].status == Processing {
        var d :| d in w.claims && d.job.id == id && Owns(w.t, d.job, d.worker);
        assert d in u.claims && Owns(u.t, d.job, d.worker);
      }
    }
  }

  lemma AddKeepsHistory(w: World, u: World, document: Id, id: Id)
    requires Linked(w) && ClaimsSound(w) && Leased(w) && JobAdded(w.t, u.t, document, id)
    requires id !in w.jobIds && (document in w.docIds || document in u.docIds)
    requires u == w.(t := u.t, jobIds := w.jobIds + {id}, docIds := u.docIds) && w.docIds <= u.docIds
    ensures Linked(u) && ClaimsSound(u) && Leased(u)
  {
    forall i | i in u.t.jobs && u.t.jobs[i].status == Processing
      ensures exists d :: d in u.claims && d.job.id == i && Owns(u.t, d.job, d.worker)
    {
      var d :| d in w.claims && d.job.id == i && Owns(w.t, d.job, d.worker);
      assert Owns(u.t, d.job, d.worker);
    }
  }

  lemma OtherStepsKeepHistory(w: World, s: Step)
    requires Linked(w) && ClaimsSound(w) && Leased(w) && (s.Tick? || s.Recover? || s.Delete?)
    ensures Linked(After(w, s)) && ClaimsSound(After(w, s)) && Leased(After(w, s))
  {
    hide HasActiveJob, OneActive, DocumentsAgree;
    var u := After(w, s).t;
    forall i | i in u.jobs && u.jobs[i].status == Processing
      ensures exists d :: d in w.claims && d.job.id == i && Owns(u, d.job, d.worker)
    {
      var d :| d in w.claims && d.job.id == i && Owns(w.t, d.job, d.worker);
      assert Owns(u, d.job, d.worker);
    }
  }

  lemma HistoryKept(w: World, s: Step)
    requires Inv(w) && Enabled(w, s)
    ensures Linked(After(w, s)) && ClaimsSound(After(w, s)) && Leased(After(w, s))
  {
    hide Linked, ClaimsSound, Leased, OneActive, DocumentsAgree, HasActiveJob, OwnerRowStep, JobAdded;
    match s {
      case TakeJobs(_, _, _, _, _) => TakeKeepsHistory(w, s);
      case Upload(d, _, id, _) =>
        UploadShape(w, s);
        AddKeepsHistory(w, After(w, s), d, id);
      case Requeue(d, _, _, _, id) =>
        RequeueKeepsHistory(w, s);
      case Tick(_) => OtherStepsKeepHistory(w, s);
      case Recover => OtherStepsKeepHistory(w, s);
      case Delete(_) => OtherStepsKeepHistory(w, s);
      case _ =>
        OwnerStepShape(w, s);
        if After(w, s).t != w.t {
          OwnerKeepsHistory(w, After(w, s).t, s.c);
        }
    }
  }

  lemma RequeueKeepsHistory(w: World, s: Step)
    requires Inv(w) && Enabled(w, s) && s.Requeue?
    ensures Linked(After(w, s)) && ClaimsSound(After(w, s)) && Leased(After(w, s))
  {
    RequeueShape(w, s);
    hide After, OneActive, DocumentsAgree, HasActiveJob;
    var u := After(w, s);
    if u.t != w.t {
      AddKeepsHistory(w, u, s.document, s.id);
    }
  }

  /** What an owner's step leaves: an active job and a document in progress, or a finished job and
      a document that is finished the same way. */
  ghost predicate EndsAgree(u: Tables, id: Id) {
    && id in u.jobs && u.jobs[id].document in u.docs
    && var d := u.docs[u.jobs[id].document];
       if Active(u.jobs[id]) then d.status == InProgress
       else (d.status == Completed && d.stage == Done) || (d.status == Failed && d.stage == StageFailed)
  }

  lemma OwnerEndsAgree(w: World, s: Step)
    requires Inv(w) && Enabled(w, s) && ByOwner(s) && After(w, s).t != w.t
    ensures EndsAgree(After(w, s).t, s.c.job.id)
  {
    hide Sanitized, DispositionAfterFailure, OneActive, Leased;
    var c := s.c.job;
    assert Active(w.t.jobs[c.id]) && w.t.jobs[c.id].document == c.document;
    assert HasActiveJob(w.t, c.document);
  }

  lemma RowChangeKeepsAgreement(t: Tables, u: Tables, id: Id)
    requires OneActive(t) && DocumentsAgree(t) && RowChanged(t, u, id) && Active(t.jobs[id]) && EndsAgree(u, id)
    ensures OneActive(u) && DocumentsAgree(u)
  {
    var document := t.jobs[id].document;
    forall d | d in u.docs ensures u.docs[d].status == InProgress <==> HasActiveJob(u, d) {
      if d != document {
        if HasActiveJob(t, d) {
          var i :| i in t.jobs && Active(t.jobs[i]) && t.jobs[i].document == d;
          assert Active(u.jobs[i]) && u.jobs[i].document == d;
        }
        if HasActiveJob(u, d) {
          var i :| i in u.jobs && Active(u.jobs[i]) && u.jobs[i].document == d;
          assert Active(t.jobs[i]) && t.jobs[i].document == d;
        }
      }
    }
  }

  lemma TakeKeepsAgreement(w: World, s: Step)
    requires OneActive(w.t) && DocumentsAgree(w.t) && s.TakeJobs? && Enabled(w, s)
    ensures OneActive(After(w, s).t) && DocumentsAgree(After(w, s).t)
  {
    var t, u := w.t, After(w, s).t;
    assert forall i | i in t.jobs :: Active(t.jobs[i]) == Active(u.jobs[i]) && t.jobs[i].document == u.jobs[i].document;
    forall d | d in u.docs ensures HasActiveJob(t, d) <==> HasActiveJob(u, d) {
      if HasActiveJob(t, d) {
        var i :| i in t.jobs && Active(t.jobs[i]) && t.jobs[i].document == d;
        assert Active(u.jobs[i]);
      }
    }
  }

  lemma AddKeepsAgreement(t: Tables, u: Tables, document: Id, id: Id)
    requires OneActive(t) && DocumentsAgree(t) && JobAdded(t, u, document, id) && !HasActiveJob(t, document)
    ensures OneActive(u) && DocumentsAgree(u)
  {
    assert Active(u.jobs[id]) && HasActiveJob(u, document);
    forall d | d in u.docs && d != document ensures HasActiveJob(t, d) <==> HasActiveJob(u, d) {
      if HasActiveJob(t, d) {
        var i :| i in t.jobs && Active(t.jobs[i]) && t.jobs[i].document == d;
        assert Active(u.jobs[i]) && u.jobs[i].document == d;
      }
      if HasActiveJob(u, d) {
        var i :| i in u.jobs && Active(u.jobs[i]) && u.jobs[i].document == d;
        assert i in t.jobs && Active(t.jobs[i]);
      }
    }
  }

  lemma DeleteKeepsAgreement(t: Tables, document: Id)
    requires OneActive(t) && DocumentsAgree(t)
    ensures OneActive(DocumentDeleted(t, document)) && DocumentsAgree(DocumentDeleted(t, document))
  {
    var u := DocumentDeleted(t, document);
    forall d | d in u.docs ensures HasActiveJob(t, d) <==> HasActiveJob(u, d) {
      if HasActiveJob(t, d) {
        var i :| i in t.jobs && Active(t.jobs[i]) && t.jobs[i].document == d;
        assert Active(u.jobs[i]) && u.jobs[i].document == d;
      }
    }
  }

  /** Where documents and jobs agree, the legacy recovery finds nothing to do. */
  lemma RecoveryIsNoOp(t: Tables)
    requires DocumentsAgree(t)
    ensures Recovered(t) == t
  {
  }

  lemma AgreementKept(w: World, s: Step)
    requires Inv(w) && Enabled(w, s)
    ensures OneActive(After(w, s).t) && DocumentsAgree(After(w, s).t)
  {
    hide Linked, ClaimsSound, Leased, OneActive, DocumentsAgree, HasActiveJob, OwnerRowStep, RowChanged, JobAdded,
         EndsAgree;
    match s {
      case TakeJobs(_, _, _, _, _) => TakeKeepsAgreement(w, s);
      case Upload(d, _, id, _) =>
        UploadShape(w, s);
        NoJobWithoutDocument(w, d);
        AddKeepsAgreement(w.t, After(w, s).t, d, id);
      case Requeue(d, _, _, _, id) =>
        RequeueShape(w, s);
        if After(w, s).t != w.t {
          AddKeepsAgreement(w.t, After(w, s).t, d, id);
        }
      case Tick(secs) => TickKeepsAgreement(w.t, secs);
      case Recover => RecoveryIsNoOp(w.t);
      case Delete(d) => DeleteKeepsAgreement(w.t, d);
      case _ => OwnerKeepsAgreement(w, s);
    }
  }

  lemma OwnerKeepsAgreement(w: World, s: Step)
    requires Inv(w) && Enabled(w, s) && ByOwner(s)
    ensures OneActive(After(w, s).t) && DocumentsAgree(After(w, s).t)
  {
    OwnerStepShape(w, s);
    hide After, OneActive, DocumentsAgree, HasActiveJob, EndsAgree;
    if After(w, s).t != w.t {
      OwnerEndsAgree(w, s);
      RowChangeKeepsAgreement(w.t, After(w, s).t, s.c.job.id);
    }
  }

  lemma TickKeepsAgreement(t: Tables, secs: nat)
    requires OneActive(t) && DocumentsAgree(t)
    ensures OneActive(t.(now := t.now + secs)) && DocumentsAgree(t.(now := t.now + secs))
  {
    var u := t.(now := t.now + secs);
    assert forall d :: HasActiveJob(t, d) <==> HasActiveJob(u, d);
  }

  lemma NoJobWithoutDocument(w: World, document: Id)
    requires Linked(w) && document !in w.docIds
    ensures !HasActiveJob(w.t, document)
  {
  }

  lemma InvKept(w: World, s: Step)
    requires Inv(w) && Enabled(w, s)
    ensures Inv(After(w, s))
  {
    HistoryKept(w, s);
    AgreementKept(w, s);
  }

  lemma {:induction false} InvAlong(w: World, steps: seq<Step>)
    requires Inv(w) && CanRun(w, steps)
    ensures Inv(Run(w, steps))
    decreases |steps|
  {
    hide Inv, After;
    if steps != [] {
      InvKept(w, steps[0]);
      InvAlong(After(w, steps[0]), steps[1..]);
    }
  }

  /** In every reachable world a document is in progress exactly when it has one active job, it
      never has two, its stage matches its status, and the legacy recovery would change nothing. */
  lemma DocumentsAgreeInEveryRun(steps: seq<Step>)
    requires CanRun(EMPTY_WORLD, steps)
    ensures var t := Run(EMPTY_WORLD, steps).t;
            && OneActive(t) && DocumentsAgree(t) && Recovered(t) == t
  {
    InvAlong(EMPTY_WORLD, steps);
    RecoveryIsNoOp(Run(EMPTY_WORLD, steps).t);
  }

  // ----- Fencing -----

  /** Every guarded operation under claim `c` is refused and changes nothing. */
  ghost predicate Refused(t: Tables, c: Claim) {
    && (forall leaseSecs :: ExtendedLease(t, c.job, c.worker, leaseSecs) == (t, false))
    && (forall stage :: StageSet(t, c.job, c.worker, stage) == (t, false))
    && CompletedJob(t, c.job, c.worker) == (t, false)
    && (forall failure, config :: FailedJob(t, c.job, c.worker, failure, config) == (t, None))
  }

  lemma NotOwnedIsRefused(t: Tables, c: Claim)
    requires !Owns(t, c.job, c.worker)
    ensures Refused(t, c)
  {
  }

  /** Taking a job leaves every earlier claim of it without its token. */
  lemma ReclaimFences(w: World, s: Step, c: Claim)
    requires Inv(w) && Enabled(w, s) && s.TakeJobs? && c in w.claims && c.job.id in s.grant
    ensures !Owns(After(w, s).t, c.job, c.worker)
  {
    assert s.grant[c.job.id] in s.grant.Values;
  }

  lemma FencedStays(w: World, s: Step, c: Claim)
    requires Inv(w) && Enabled(w, s) && c in w.claims && !Owns(w.t, c.job, c.worker)
    ensures c in After(w, s).claims && !Owns(After(w, s).t, c.job, c.worker)
  {
    hide HasActiveJob, OneActive, DocumentsAgree, Leased;
    if ByOwner(s) {
      OwnerStepShape(w, s);
      hide After;
    } else if s.Upload? {
      UploadShape(w, s);
      hide After;
    } else if s.Requeue? {
      RequeueShape(w, s);
      hide After;
    } else if s.TakeJobs? && c.job.id in s.grant {
      ReclaimFences(w, s, c);
    }
  }

  /** Once a claim has lost its job it is refused for ever, whatever happens next. */
  lemma {:induction false} FencedForever(w: World, steps: seq<Step>, c: Claim)
    requires Inv(w) && CanRun(w, steps) && c in w.claims && !Owns(w.t, c.job, c.worker)
    ensures Refused(Run(w, steps).t, c)
    decreases |steps|
  {
    hide Inv, After, Refused, Owns;
    if steps == [] {
      NotOwnedIsRefused(w.t, c);
    } else {
      FencedStays(w, steps[0], c);
      InvKept(w, steps[0]);
      FencedForever(After(w, steps[0]), steps[1..], c);
    }
  }

  /** Two claims never own the same job. */
  lemma OneOwner(w: World, c: Claim, d: Claim)
    requires Inv(w) && c in w.claims && d in w.claims && c.job.id == d.job.id
    requires Owns(w.t, c.job, c.worker) && Owns(w.t, d.job, d.worker)
    ensures c == d
  {
  }

  /** While a lease has not run out, only its owner (or deleting the document) touches the job. */
  lemma LeaseProtects(w: World, s: Step, c: Claim)
    requires Inv(w) && Enabled(w, s) && c in w.claims && Owns(w.t, c.job, c.worker) && LeaseLive(w.t, c.job.id)
    requires !(ByOwner(s) && s.c == c) && s != Delete(c.job.document)
    ensures c.job.id in After(w, s).t.jobs && After(w, s).t.jobs[c.job.id] == w.t.jobs[c.job.id]
  {
    hide HasActiveJob, OneActive, DocumentsAgree, Leased;
    if ByOwner(s) {
      OwnerStepShape(w, s);
      hide After;
    } else if s.Upload? {
      UploadShape(w, s);
      hide After;
    } else if s.Requeue? {
      RequeueShape(w, s);
      hide After;
    }
  }

  ghost predicate LeaseLiveAlong(w: World, steps: seq<Step>, id: Id)
    requires CanRun(w, steps)
    decreases |steps|
  {
    LeaseLive(w.t, id) && (steps != [] ==> LeaseLiveAlong(After(w, steps[0]), steps[1..], id))
  }

  /** A worker whose heartbeats keep the lease alive still owns its job after any run in which it
      did not report a result itself and the document was not deleted. */
  lemma {:induction false} HeartbeatKeepsJob(w: World, steps: seq<Step>, c: Claim)
    requires Inv(w) && CanRun(w, steps) && c in w.claims && Owns(w.t, c.job, c.worker)
    requires LeaseLiveAlong(w, steps, c.job.id)
    requires forall s | s in steps :: s != Delete(c.job.document) && !((s.Complete? || s.Fail?) && s.c == c)
    ensures Owns(Run(w, steps).t, c.job, c.worker)
    decreases |steps|
  {
    if steps != [] {
      assert steps[0] in steps;
      OwnedStays(w, steps[0], c);
      InvKept(w, steps[0]);
      hide Inv, After, Owns;
      HeartbeatKeepsJob(After(w, steps[0]), steps[1..], c);
    }
  }

  lemma OwnedStays(w: World, s: Step, c: Claim)
    requires Inv(w) && Enabled(w, s) && c in w.claims && Owns(w.t, c.job, c.worker) && LeaseLive(w.t, c.job.id)
    requires s != Delete(c.job.document) && !((s.Complete? || s.Fail?) && s.c == c)
    ensures c in After(w, s).claims && Owns(After(w, s).t, c.job, c.worker)
  {
    hide HasActiveJob, OneActive, DocumentsAgree, Leased;
    if !(ByOwner(s) && s.c == c) {
      LeaseProtects(w, s, c);
    }
  }

  // ----- Results are final -----

  predicate Terminal(t: Tables, id: Id) {
    id in t.jobs && (t.jobs[id].status == Succeeded || t.jobs[id].status == JobDead)
  }

  /** A job that has a result, or whose row was deleted. */
  predicate Finished(w: World, id: Id) {
    id in w.jobIds && (id in w.t.jobs ==> Terminal(w.t, id))
  }

  /** A row with a result never changes again. */
  lemma ResultIsFinal(w: World, s: Step, id: Id)
    requires Inv(w) && Enabled(w, s) && Finished(w, id)
    ensures Finished(After(w, s), id)
    ensures id in After(w, s).t.jobs ==> id in w.t.jobs && After(w, s).t.jobs[id] == w.t.jobs[id]
  {
    hide HasActiveJob, OneActive, DocumentsAgree, Leased;
    if ByOwner(s) {
      OwnerStepShape(w, s);
      hide After;
    } else if s.Upload? {
      UploadShape(w, s);
      hide After;
    } else if s.Requeue? {
      RequeueShape(w, s);
      hide After;
    }
  }

  /** The step reports a final result for job `id` to its worker. */
  predicate Reports(w: World, s: Step, id: Id) {
    match s
    case Complete(c) => c.job.id == id && CompletedJob(w.t, c.job, c.worker).1
    case Fail(c, failure, config) => c.job.id == id && FailedJob(w.t, c.job, c.worker, failure, config).1 == Some(true)
    case _ => false
  }

  /** A job gets its result only through its latest claim, under a live lease. */
  lemma ResultByLatestClaim(w: World, s: Step, id: Id)
    requires Inv(w) && Enabled(w, s) && id in w.t.jobs
    ensures Terminal(After(w, s).t, id) && !Terminal(w.t, id) <==> Reports(w, s, id)
    ensures Reports(w, s, id) ==>
              && Owns(w.t, s.c.job, s.c.worker) && LeaseLive(w.t, id)
              && forall c | c in w.claims && c.job.id == id && c != s.c :: !Owns(w.t, c.job, c.worker)
  {
    hide HasActiveJob, OneActive, DocumentsAgree, Leased, Sanitized, Disposition;
    if ByOwner(s) && s.c.job.id != id {
      OwnerStepShape(w, s);
      hide After;
    } else if s.Upload? {
      UploadShape(w, s);
      hide After;
    } else if s.Requeue? {
      RequeueShape(w, s);
      hide After;
    }
  }

  ghost function ReportCount(w: World, steps: seq<Step>, id: Id): nat
    requires CanRun(w, steps)
    decreases |steps|
  {
    if steps == [] then 0
    else (if Reports(w, steps[0], id) then 1 else 0) + ReportCount(After(w, steps[0]), steps[1..], id)
  }

  lemma ReportNeedsRow(w: World, s: Step, id: Id)
    requires Reports(w, s, id)
    ensures id in w.t.jobs && w.t.jobs[id].status == Processing
  {
    hide Sanitized, Disposition;
  }

  /** In every run a job's result is reported at most once, and never after it has one. */
  lemma {:induction false} ReportedOnce(w: World, steps: seq<Step>, id: Id)
    requires Inv(w) && CanRun(w, steps)
    ensures ReportCount(w, steps, id) <= if Finished(w, id) then 0 else 1
    decreases |steps|
  {
    hide After, Reports, Terminal;
    if steps != [] {
      var s := steps[0];
      InvKept(w, s);
      ReportedOnce(After(w, s), steps[1..], id);
      if Finished(w, id) {
        ResultIsFinal(w, s, id);
      }
      if Reports(w, s, id) {
        ReportNeedsRow(w, s, id);
        ResultByLatestClaim(w, s, id);
        ReportFinishes(w, s, id);
      }
    }
  }

  lemma ReportFinishes(w: World, s: Step, id: Id)
    requires Inv(w) && Enabled(w, s) && Reports(w, s, id)
    ensures !Finished(w, id) && Finished(After(w, s), id)
  {
    ReportNeedsRow(w, s, id);
    ResultByLatestClaim(w, s, id);
    HistoryKept(w, s);
    hide After, Reports;
  }

  // ----- Retries are bounded -----

  /** The step sends job `id` back to the queue after a reported failure. */
  predicate Retries(w: World, s: Step, id: Id) {
    s.Fail? && s.c.job.id == id && FailedJob(w.t, s.c.job, s.c.worker, s.failure, s.config).1 == Some(false)
  }

  ghost function RetryCount(w: World, steps: seq<Step>, id: Id): nat
    requires CanRun(w, steps)
    decreases |steps|
  {
    if steps == [] then 0
    else (if Retries(w, steps[0], id) then 1 else 0) + RetryCount(After(w, steps[0]), steps[1..], id)
  }

  /** Retries that a job may still get when failures are judged by `configMax`. */
  function RetriesLeft(w: World, id: Id, configMax: I32): nat {
    if id !in w.t.jobs || Terminal(w.t, id) then 0
    else
      var j := w.t.jobs[id];
      Max(0, Min(j.maxAttempts, configMax) - j.attempts - if j.status == Queued then 1 else 0)
  }

  lemma RetryUsesOne(w: World, s: Step, id: Id, configMax: I32)
    requires Inv(w) && Enabled(w, s) && id in w.jobIds
    requires s.Fail? ==> s.config.maxAttempts == configMax
    ensures RetriesLeft(After(w, s), id, configMax) + (if Retries(w, s, id) then 1 else 0)
        <= RetriesLeft(w, id, configMax)
    ensures id in After(w, s).jobIds
  {
    hide HasActiveJob, OneActive, DocumentsAgree, Sanitized, ComputeBackoffSecs;
    if ByOwner(s) && !s.Fail? {
      OwnerStepShape(w, s);
    } else if s.Fail? && s.c.job.id != id {
      OwnerStepShape(w, s);
      hide After;
    } else if s.Upload? {
      UploadShape(w, s);
      hide After;
    } else if s.Requeue? {
      RequeueShape(w, s);
      hide After;
    }
  }

  /** From any world, a job is sent back to the queue no more often than its attempts allow, however
      many crashes and reclaims come between. */
  lemma {:induction false} RetriesBounded(w: World, steps: seq<Step>, id: Id, configMax: I32)
    requires Inv(w) && CanRun(w, steps) && id in w.jobIds
    requires forall s | s in steps && s.Fail? :: s.config.maxAttempts == configMax
    ensures RetryCount(w, steps, id) <= RetriesLeft(w, id, configMax)
    decreases |steps|
  {
    hide Inv, After, Retries, RetriesLeft;
    if steps != [] {
      assert steps[0] in steps;
      RetryUsesOne(w, steps[0], id, configMax);
      InvKept(w, steps[0]);
      RetriesBounded(After(w, steps[0]), steps[1..], id, configMax);
    }
  }

  /** A job just enqueued by an upload is re-queued at most `min(job max, config max) - 1` times. */
  lemma RetriesOfUpload(w: World, upload: Step, steps: seq<Step>, configMax: I32)
    requires Inv(w) && upload.Upload? && Enabled(w, upload) && CanRun(After(w, upload), steps)
    requires forall s | s in steps && s.Fail? :: s.config.maxAttempts == configMax
    ensures RetryCount(After(w, upload), steps, upload.id) <= Max(0, Min(upload.maxAttempts, configMax) - 1)
  {
    InvKept(w, upload);
    RetriesBounded(After(w, upload), steps, upload.id, configMax);
  }

  // ----- Backoff is waited out -----

  /** A re-queued job becomes available after the delay of its attempt count. */
  lemma RetrySetsDelay(w: World, s: Step, id: Id)
    requires Inv(w) && Enabled(w, s) && Retries(w, s, id)
    ensures id in After(w, s).t.jobs
    ensures var j := After(w, s).t.jobs[id];
            && j.status == Queued && j.attempts == w.t.jobs[id].attempts
            && j.availableAt
               == w.t.now + ComputeBackoffSecs(j.attempts, s.config.backoff.baseSecs, s.config.backoff.maxSecs)
  {
    hide HasActiveJob, OneActive, DocumentsAgree, Sanitized, ComputeBackoffSecs;
  }

  lemma QueuedStays(w: World, s: Step, id: Id)
    requires Inv(w) && Enabled(w, s) && id in w.t.jobs && w.t.jobs[id].status == Queued
    requires w.t.now < w.t.jobs[id].availableAt && s != Delete(w.t.jobs[id].document)
    ensures id in After(w, s).t.jobs && After(w, s).t.jobs[id] == w.t.jobs[id]
  {
    hide HasActiveJob, OneActive, DocumentsAgree, Leased;
    if ByOwner(s) {
      OwnerStepShape(w, s);
      hide After;
    } else if s.Upload? {
      UploadShape(w, s);
      hide After;
    } else if s.Requeue? {
      RequeueShape(w, s);
      hide After;
    }
  }

  lemma {:induction false} ClockOnlyAdvances(w: World, steps: seq<Step>)
    requires Inv(w) && CanRun(w, steps)
    ensures w.t.now <= Run(w, steps).t.now
    decreases |steps|
  {
    if steps != [] {
      InvKept(w, steps[0]);
      ClockAdvances(w, steps[0]);
      hide Inv, After;
      ClockOnlyAdvances(After(w, steps[0]), steps[1..]);
    }
  }

  lemma ClockAdvances(w: World, s: Step)
    requires Inv(w) && Enabled(w, s)
    ensures w.t.now <= After(w, s).t.now
  {
    hide HasActiveJob, OneActive, DocumentsAgree, Leased;
    if ByOwner(s) {
      OwnerStepShape(w, s);
      hide After;
    } else if s.Upload? {
      UploadShape(w, s);
      hide After;
    } else if s.Requeue? {
      RequeueShape(w, s);
      hide After;
    }
  }

  /** Whatever the workers do, a queued job is left alone until it is available, unless its document
      is deleted. */
  lemma {:induction false} BackoffIsWaitedOut(w: World, steps: seq<Step>, id: Id)
    requires Inv(w) && CanRun(w, steps) && id in w.t.jobs && w.t.jobs[id].status == Queued
    requires Run(w, steps).t.now < w.t.jobs[id].availableAt
    requires forall s | s in steps :: s != Delete(w.t.jobs[id].document)
    ensures id in Run(w, steps).t.jobs && Run(w, steps).t.jobs[id] == w.t.jobs[id]
    decreases |steps|
  {
    hide Inv, After;
    if steps != [] {
      ClockOnlyAdvances(w, steps);
      assert steps[0] in steps;
      QueuedStays(w, steps[0], id);
      InvKept(w, steps[0]);
      assert forall s | s in steps[1..] :: s in steps;
      BackoffIsWaitedOut(After(w, steps[0]), steps[1..], id);
    }
  }
}
