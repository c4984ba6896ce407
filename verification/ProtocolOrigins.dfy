/** Where the rows come from: over every run, a row that is no longer PENDING says what some
    call to the worker, or some run of the recovery graph, saw for its job. */
module ProtocolOrigins {
  import opened Basics
  import opened Dicts
  import opened Validation
  import opened Jobs
  import opened GatewayDecision
  import opened JobTable
  import opened RecoveryGraph
  import opened RecoveryServices
  import opened LiveSearch
  import opened Protocol
  import opened ProtocolInvariant
  import opened ProtocolTheorems

  /** The job is what the gateway makes of this call to the worker. */
  ghost predicate ByCall(call: WorkerCall, job: Job) {
    match job.status
    case Success => call.Extracted? && Covers(job.requiredFields, call.data) && job.result == Some(call.data)
    case RecoveryPending => call.Extracted? && !Covers(job.requiredFields, call.data) && job.result.None?
    case Failed => call.Unreachable? && job.result.None? && job.failureReason == Some(HttpError)
    case _ => false
  }

  /** The job is what a recovery in this world makes of it: the data of the winning attempt, or
      nothing when every attempt is rejected. */
  ghost predicate ByRecovery(world: World, maxAttempts: int, job: Job) {
    match job.status
    case Success =>
      job.result.Some? && exists k, selectors :: Wins(world, job, maxAttempts, k, selectors, job.result.value)
    case NeedsHumanReview => job.result.None? && AllRejected(world, job, maxAttempts)
    case _ => false
  }

  /** In this state, this action is what decides the job. */
  ghost predicate Decides(s: State, a: Action, job: Job) {
    match a
    case CallWorker(id, call) =>
      && Runs(s, id) && s.gateways[id].Saved? && SameIdentity(s.gateways[id].job, job)
      && id == job.id && ByCall(call, job)
    case RunGraph(t, maxAttempts, world) =>
      && t in s.consumers && s.consumers[t].Loaded? && SameIdentity(s.consumers[t].job, job)
      && ByRecovery(world, maxAttempts, job)
    case _ => false
  }

  /** A row, a request or a consumer has this job. */
  ghost predicate Carries(s: State, job: Job) {
    || (exists id :: id in s.jobs && s.jobs[id] == job)
    || (exists id :: id in s.gateways && s.gateways[id].job == job)
    || (exists t :: t in s.consumers && JobOf(s.consumers[t]) == Some(job))
  }

  function JobOf(c: Consumer): Option<Job> {
    match c
    case Loaded(_, _, job) => Some(job)
    case Decided(_, _, job) => Some(job)
    case _ => None
  }

  // ----- one step -----

  /** Wins and rejections depend on the required fields of the job only. */
  lemma {:induction false} SameFieldsSameRejections(w: World, a: Job, b: Job, n: nat)
    requires w.screenshot.Returned? && a.requiredFields == b.requiredFields
    ensures PageRejections(w, a, n) == PageRejections(w, b, n)
  {
    if n > 0 { SameFieldsSameRejections(w, a, b, n - 1); }
  }

  lemma SameFieldsSameWins(w: World, a: Job, b: Job, maxAttempts: int, k: nat, selectors: Dict, data: Data)
    requires a.requiredFields == b.requiredFields && Wins(w, a, maxAttempts, k, selectors, data)
    ensures Wins(w, b, maxAttempts, k, selectors, data)
  {
    SameFieldsSameRejections(w, a, b, k - 1);
  }

  lemma FinalJobByRecovery(world: World, maxAttempts: int, job: Job)
    requires InRecovery(job.status) && Consistent(job)
    ensures
      var final := Run(WorkerBacked(world), Start(job, maxAttempts));
      final.node.End? ==>
        SameIdentity(job, FinalJob(job, final.state)) && ByRecovery(world, maxAttempts, FinalJob(job, final.state))
  {
    var final := Run(WorkerBacked(world), Start(job, maxAttempts));
    var next := FinalJob(job, final.state);
    LiveRunExactly(world, job, maxAttempts);
    if final.node.End? {
      if final.state.finalStatus == Some(Recovered) {
        var k, selectors, data := RecoveredHasWinner(world, job, maxAttempts);
        SameFieldsSameWins(world, job, next, maxAttempts, k, selectors, data);
      } else if world.screenshot.Returned? {
        SameFieldsSameRejections(world, job, next, Max(1, maxAttempts));
      }
    }
  }

  /** A request's step may add one job: the one it now has. */
  lemma RequestCarries(s: State, s': State, id: string, g: Gateway, job: Job)
    requires s'.gateways == s.gateways[id := g] && s'.consumers == s.consumers
    requires s'.jobs == s.jobs || s'.jobs == s.jobs[id := g.job]
    requires Carries(s', job)
    ensures Carries(s, job) || job == g.job
  {
  }

  /** So may a consumer's. */
  lemma ConsumerCarries(s: State, s': State, t: nat, c: Consumer, job: Job)
    requires s'.gateways == s.gateways && s'.jobs == s.jobs && s'.consumers == s.consumers[t := c]
    requires Carries(s', job)
    ensures Carries(s, job) || JobOf(c) == Some(job)
  {
  }

  lemma RowCarries(s: State, s': State, t: nat, id: string, row: Job, job: Job)
    requires s'.gateways == s.gateways && s'.jobs == s.jobs[id := row]
    requires t in s'.consumers && s'.consumers == s.consumers[t := s'.consumers[t]] && JobOf(s'.consumers[t]).None?
    requires Carries(s', job)
    ensures Carries(s, job) || job == row
  {
  }

  /** Delivering an entry, or dropping it, hands out no job. */
  lemma DeliveryCarries(s: State, s': State, t: nat, job: Job)
    requires OnlyDelivery(s, s', t) && Carries(s', job)
    requires t in s'.consumers ==>
               JobOf(s'.consumers[t]).None? || (t in s.consumers && s'.consumers[t] == s.consumers[t])
    ensures Carries(s, job)
  {
  }

  lemma CallDecides(s: State, id: string, call: WorkerCall, job: Job)
    requires Inv(s) && Carries(DoCall(s, id, call), job)
    ensures Carries(s, job) || Decides(s, CallWorker(id, call), job)
  {
    if Runs(s, id) && s.gateways[id].Saved? {
      assert GatewayOk(s, id);
      var local := s.gateways[id].job;
      WorkerReplyDecidesJob(local, call);
      var next := ApplyExtractionResult(local, Extract(WireOf(local.requiredFields, call))).value;
      RequestCarries(s, DoCall(s, id, call), id, Applied(next), job);
    }
  }

  lemma RunEffect(s: State, t: nat, maxAttempts: int, world: World) returns (next: Option<Job>)
    requires Inv(s) && t in s.consumers && s.consumers[t].Loaded?
    ensures
      var c := s.consumers[t];
      var s' := DoRunGraph(s, t, maxAttempts, world);
      match next
      case None => s' == s.(consumers := s.consumers - {t})
      case Some(job) =>
        && s' == s.(consumers := s.consumers[t := Decided(c.entry, c.rest, job)])
        && SameIdentity(c.job, job) && ByRecovery(world, maxAttempts, job)
  {
    var c := s.consumers[t];
    var final := Run(WorkerBacked(world), Start(c.job, maxAttempts));
    assert ConsumerOk(s, c);
    FinalJobByRecovery(world, maxAttempts, c.job);
    next := if final.node.End? then Some(FinalJob(c.job, final.state)) else None;
  }

  lemma RunDecides(s: State, t: nat, maxAttempts: int, world: World, job: Job)
    requires Inv(s) && Carries(DoRunGraph(s, t, maxAttempts, world), job)
    ensures Carries(s, job) || Decides(s, RunGraph(t, maxAttempts, world), job)
  {
    if t in s.consumers && s.consumers[t].Loaded? {
      var c := s.consumers[t];
      var s' := DoRunGraph(s, t, maxAttempts, world);
      var next := RunEffect(s, t, maxAttempts, world);
      match next {
        case None => DeliveryCarries(s, s', t, job);
        case Some(decided) => ConsumerCarries(s, s', t, Decided(c.entry, c.rest, decided), job);
      }
    }
  }

  lemma SavesCarry(s: State, id: string, job: Job)
    requires Inv(s)
    ensures Carries(DoFirstSave(Columns, s, id), job) ==> Carries(s, job)
    ensures Carries(DoSecondSave(Columns, s, id), job) ==> Carries(s, job)
  {
    if Runs(s, id) && s.gateways[id].Created? {
      FirstSaveEffect(Columns, s, id);
      var s' := DoFirstSave(Columns, s, id);
      if Carries(s', job) { RequestCarries(s, s', id, Saved(s.gateways[id].job), job); }
    }
    if Runs(s, id) && s.gateways[id].Applied? {
      SecondSaveEffect(Columns, s, id);
      var s' := DoSecondSave(Columns, s, id);
      if Carries(s', job) { RequestCarries(s, s', id, Resaved(s.gateways[id].job), job); }
    }
  }

  lemma LoadCarries(s: State, t: nat, job: Job)
    requires Inv(s) && Carries(DoLoad(s, t), job)
    ensures Carries(s, job)
  {
    if t in s.consumers && s.consumers[t].Handling? {
      LoadEffect(s, t);
      ConsumerCarries(s, DoLoad(s, t), t, DoLoad(s, t).consumers[t], job);
    }
  }

  lemma UpdateCarries(s: State, t: nat, job: Job)
    requires Inv(s) && Carries(DoUpdate(Columns, s, t), job)
    ensures Carries(s, job)
  {
    if t in s.consumers && s.consumers[t].Decided? {
      var c := s.consumers[t];
      UpdateEffect(Columns, s, t);
      RowCarries(s, DoUpdate(Columns, s, t), t, s.broker.stream[c.entry], c.updated, job);
      assert JobOf(c) == Some(c.updated);
    }
  }

  lemma EndsCarry(s: State, id: string, job: Job)
    ensures Carries(DoEnqueue(s, id), job) ==> Carries(s, job)
    ensures Carries(DoCrashGateway(s, id), job) ==> Carries(s, job)
  {
    if Runs(s, id) && s.gateways[id].Resaved? && Carries(DoEnqueue(s, id), job) {
      RequestCarries(s, DoEnqueue(s, id), id, Finished(s.gateways[id].job), job);
    }
  }

  lemma StartCarries(s: State, id: string, url: string, domain: string, fields: seq<string>, job: Job)
    requires Carries(DoStart(s, id, url, domain, fields), job) && !job.status.Pending?
    ensures Carries(s, job)
  {
    var created := Job.Create(id, url, domain, fields);
    if id !in s.gateways { RequestCarries(s, DoStart(s, id, url, domain, fields), id, Created(created), job); }
  }

  lemma RequestStepDecides(s: State, a: Action, job: Job)
    requires Inv(s) && Carries(Step(Columns, s, a), job) && !job.status.Pending?
    requires a.StartRequest? || a.FirstSave? || a.CallWorker? || a.SecondSave? || a.Enqueue? || a.CrashGateway?
    ensures Carries(s, job) || Decides(s, a, job)
  {
    match a
    case StartRequest(id, url, domain, fields) => StartCarries(s, id, url, domain, fields, job);
    case FirstSave(id) => SavesCarry(s, id, job);
    case CallWorker(id, call) => CallDecides(s, id, call, job);
    case SecondSave(id) => SavesCarry(s, id, job);
    case Enqueue(id) => EndsCarry(s, id, job);
    case CrashGateway(id) => EndsCarry(s, id, job);
  }

  lemma DeliveryStepCarries(s: State, a: Action, job: Job)
    requires Inv(s) && Carries(Step(Columns, s, a), job)
    requires a.EnsureGroup? || a.ReadNew? || a.Claim? || a.Acknowledge? || a.CrashConsumer?
    ensures Carries(s, job)
  {
    match a
    case EnsureGroup => DeliveryCarries(s, DoGroup(s), 0, job);
    case ReadNew(t, name) => DeliveryCarries(s, DoRead(s, t, name), t, job);
    case Claim(t, name, page) => DeliveryCarries(s, DoClaim(s, t, name, page), t, job);
    case Acknowledge(t) => DeliveryCarries(s, DoAcknowledge(s, t), t, job);
    case CrashConsumer(t) => DeliveryCarries(s, DoCrashConsumer(s, t), t, job);
  }

  /** After any step, a job that is no longer PENDING was there before, or the step decided it. */
  lemma StepDecides(s: State, a: Action, job: Job)
    requires Inv(s) && Carries(Step(Columns, s, a), job) && !job.status.Pending?
    ensures Carries(s, job) || Decides(s, a, job)
  {
    if a.EnsureGroup? || a.ReadNew? || a.Claim? || a.Acknowledge? || a.CrashConsumer? {
      DeliveryStepCarries(s, a, job);
    } else if a.Load? {
      LoadCarries(s, a.consumer, job);
    } else if a.RunGraph? {
      RunDecides(s, a.consumer, a.maxAttempts, a.world, job);
    } else if a.UpdateRow? {
      UpdateCarries(s, a.consumer, job);
    } else {
      RequestStepDecides(s, a, job);
    }
  }

  // ----- whole runs -----

  /** Action `i` of the run, at its moment, is what decided the job. */
  ghost predicate DecidedAt(actions: seq<Action>, i: nat, job: Job) {
    i < |actions| && Decides(RunAll(Columns, INIT, actions[..i]), actions[i], job)
  }

  lemma OneStep(s: State, last: seq<Action>)
    requires |last| == 1
    ensures RunAll(Columns, s, last) == Step(Columns, s, last[0])
  {
    assert last[1..] == [];
  }

  lemma LastStep(actions: seq<Action>)
    requires actions != []
    ensures
      var n := |actions| - 1;
      RunAll(Columns, INIT, actions) == Step(Columns, RunAll(Columns, INIT, actions[..n]), actions[n])
  {
    var n := |actions| - 1;
    assert actions == actions[..n] + actions[n..];
    RunAppend(Columns, INIT, actions[..n], actions[n..]);
    OneStep(RunAll(Columns, INIT, actions[..n]), actions[n..]);
  }

  lemma {:induction false} CarriedWasDecided(actions: seq<Action>, job: Job) returns (i: nat)
    requires Carries(RunAll(Columns, INIT, actions), job) && !job.status.Pending?
    ensures DecidedAt(actions, i, job)
    decreases |actions|
  {
    if actions != [] {
      var n := |actions| - 1;
      var s := RunAll(Columns, INIT, actions[..n]);
      LastStep(actions);
      InitInv();
      RunKeepsInv(Columns, INIT, actions[..n]);
      StepDecides(s, actions[n], job);
      if Carries(s, job) {
        i := CarriedWasDecided(actions[..n], job);
        assert actions[..n][..i] == actions[..i];
      } else {
        i := n;
      }
    }
  }

  /** Over every run: a SUCCESS row has the data of a call to the worker that covered its required
      fields, or what the winning attempt of a recovery of its job read off its page; a
      NEEDS_HUMAN_REVIEW row comes from a recovery whose attempts were all rejected, a
      RECOVERY_PENDING row from a call whose data left a gap, and a FAILED row from one that failed. */
  lemma RowsSayWhatHappened(actions: seq<Action>, id: string) returns (i: nat)
    requires
      var s := RunAll(Columns, INIT, actions);
      id in s.jobs && !s.jobs[id].status.Pending?
    ensures DecidedAt(actions, i, RunAll(Columns, INIT, actions).jobs[id])
  {
    var s := RunAll(Columns, INIT, actions);
    assert Carries(s, s.jobs[id]);
    i := CarriedWasDecided(actions, s.jobs[id]);
  }
}
