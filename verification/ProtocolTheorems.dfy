/** What the recovery protocol guarantees over every interleaving, crash and reclaim. */
module ProtocolTheorems {
  import opened Basics
  import opened Validation
  import opened Jobs
  import opened GatewayDecision
  import opened JobTable
  import opened RecoveryGraph
  import opened RecoveryServices
  import opened Protocol
  import opened ProtocolInvariant

  ghost predicate Reaches(s: State, s': State) {
    exists actions :: RunAll(Columns, s, actions) == s'
  }

  ghost predicate Reachable(s: State) {
    Reaches(INIT, s)
  }

  lemma {:induction false} RunAppend(mode: WriteMode, s: State, a: seq<Action>, b: seq<Action>)
    ensures RunAll(mode, s, a + b) == RunAll(mode, RunAll(mode, s, a), b)
    decreases |a|
  {
    if a == [] {
      assert a + b == b;
    } else {
      assert (a + b)[1..] == a[1..] + b;
      RunAppend(mode, Step(mode, s, a[0]), a[1..], b);
    }
  }

  lemma StepReaches(s: State, a: Action)
    ensures Reaches(s, Step(Columns, s, a))
  {
    assert [a][1..] == [];
    assert RunAll(Columns, s, [a]) == RunAll(Columns, Step(Columns, s, a), []);
  }

  lemma ReachesItself(s: State)
    ensures Reaches(s, s)
  {
    assert RunAll(Columns, s, []) == s;
  }

  lemma ReachesTransitive(a: State, b: State, c: State)
    requires Reaches(a, b) && Reaches(b, c)
    ensures Reaches(a, c)
  {
    var p :| RunAll(Columns, a, p) == b;
    var q :| RunAll(Columns, b, q) == c;
    RunAppend(Columns, a, p, q);
  }

  lemma ReachableInv(s: State)
    requires Reachable(s)
    ensures Inv(s)
  {
    var actions :| RunAll(Columns, INIT, actions) == s;
    InitInv();
    RunKeepsInv(Columns, INIT, actions);
  }

  // ----- delivery -----

  predicate Undelivered(s: State, e: nat) {
    s.broker.cursor <= e < |s.broker.stream|
  }

  /** An enqueued entry is in exactly one place, and an acknowledged one is done. */
  lemma EveryEntryInOnePlace(s: State, e: nat)
    requires Reachable(s) && e < |s.broker.stream|
    ensures s.broker.stream[e] in s.jobs
    ensures !(Undelivered(s, e) && e in s.broker.pel)
    ensures !(Undelivered(s, e) && e in s.broker.acked)
    ensures !(e in s.broker.pel && e in s.broker.acked)
    ensures Undelivered(s, e) || e in s.broker.pel || e in s.broker.acked
    ensures e in s.broker.acked ==> Terminal(s.jobs[s.broker.stream[e]].status)
  {
    ReachableInv(s);
    assert EntryOk(s, e);
  }

  /** A job waiting for recovery has an entry still to be handled, or else its request
      stands between the second save and the enqueue; never both. */
  lemma NoJobLostExceptInWindow(s: State, id: string)
    requires Reachable(s) && id in s.jobs && s.jobs[id].status.RecoveryPending?
    ensures id in s.gateways
    ensures s.gateways[id].Resaved? <==>
            !exists e: nat :: e < |s.broker.stream| && s.broker.stream[e] == id
                && (Undelivered(s, e) || e in s.broker.pel)
  {
    ReachableInv(s);
    assert JobOk(s, id) && GatewayOk(s, id);
    if id in s.broker.stream {
      var e: nat :| e < |s.broker.stream| && s.broker.stream[e] == id;
      assert EntryOk(s, e);
    }
  }

  /** Every stored SUCCESS has text for every required field; FAILED comes from the
      transport error mapping only. */
  lemma StoredJobsTellTheTruth(s: State, id: string)
    requires Reachable(s) && id in s.jobs
    ensures s.jobs[id].status.Success? ==>
              s.jobs[id].result.Some? && Covers(s.jobs[id].requiredFields, s.jobs[id].result.value)
    ensures s.jobs[id].status.Failed? ==> s.jobs[id].failureReason == Some(HttpError)
    ensures !s.jobs[id].status.Recovering?
  {
    ReachableInv(s);
    assert JobOk(s, id);
  }

  /** The internal error paths are dead: no consumer finds its job missing or updates an
      unknown row, and no request trips over a missing failure reason. */
  lemma ErrorPathsUnreachable(s: State, t: nat, id: string, call: WorkerCall)
    requires Reachable(s)
    ensures t in s.consumers ==>
            s.consumers[t].entry < |s.broker.stream| && s.broker.stream[s.consumers[t].entry] in s.jobs
    ensures t in s.consumers && s.consumers[t].Decided? ==> s.consumers[t].updated.id in s.jobs
    ensures id in s.gateways && s.gateways[id].Saved? ==>
              var job := s.gateways[id].job;
              ApplyExtractionResult(job, Extract(WireOf(job.requiredFields, call))).Returned?
  {
    ReachableInv(s);
    if t in s.consumers {
      assert ConsumerOk(s, s.consumers[t]);
      assert EntryOk(s, s.consumers[t].entry);
    }
    if id in s.gateways && s.gateways[id].Saved? {
      assert GatewayOk(s, id);
      WorkerReplyDecidesJob(s.gateways[id].job, call);
    }
  }

  // ----- how rows move -----

  /** The moves one step may make on a row's status. */
  predicate AllowedMove(before: JobStatus, after: JobStatus) {
    || before == after
    || (before.Pending? && (after.Success? || after.RecoveryPending? || after.Failed?))
    || (before.RecoveryPending? && Terminal(after))
    || (Terminal(before) && Terminal(after))
  }

  /** The gateway has settled this job without recovery. */
  predicate SettledSynchronously(s: State, id: string) {
    && id in s.gateways && id in s.jobs
    && (s.gateways[id].Resaved? || s.gateways[id].Finished?)
    && !s.gateways[id].job.status.RecoveryPending?
  }

  /** The request stopped for good between the second save and the enqueue. */
  predicate Stranded(s: State, id: string) {
    && id in s.gateways && id in s.crashed && id in s.jobs
    && s.gateways[id].Resaved? && s.jobs[id].status.RecoveryPending?
  }

  ghost predicate Advances(s: State, s': State) {
    && s.broker.stream <= s'.broker.stream
    && s.broker.acked <= s'.broker.acked
    && s.crashed <= s'.crashed
    && (forall id :: id in s.jobs ==> id in s'.jobs && SameIdentity(s.jobs[id], s'.jobs[id]))
    && (forall id :: id in s.jobs && Terminal(s.jobs[id].status) && id in s.broker.stream ==>
        Terminal(s'.jobs[id].status))
    && (forall id :: SettledSynchronously(s, id) ==> SettledSynchronously(s', id) && s'.jobs[id] == s.jobs[id])
    && (forall id :: Stranded(s, id) ==> Stranded(s', id) && s'.jobs[id] == s.jobs[id])
  }

  /** Every row moves along the allowed edges. */
  ghost predicate Moves(s: State, s': State) {
    forall id :: id in s.jobs ==> id in s'.jobs && AllowedMove(s.jobs[id].status, s'.jobs[id].status)
  }

  lemma DeliveryAdvances(s: State, s': State, t: nat)
    requires OnlyDelivery(s, s', t)
    ensures Advances(s, s') && Moves(s, s')
  {
  }

  /** A step of a request advances when it does so for the request's own job. */
  lemma RequestAdvances(s: State, s': State, id: string)
    requires OnlyRequest(s, s', id)
    requires id in s.jobs ==>
               && id in s'.jobs && SameIdentity(s.jobs[id], s'.jobs[id])
               && AllowedMove(s.jobs[id].status, s'.jobs[id].status)
    requires SettledSynchronously(s, id) ==> SettledSynchronously(s', id) && s'.jobs[id] == s.jobs[id]
    requires Stranded(s, id) ==> Stranded(s', id) && s'.jobs[id] == s.jobs[id]
    ensures Advances(s, s') && Moves(s, s')
  {
    forall k | k in s.jobs
      ensures k in s'.jobs && SameIdentity(s.jobs[k], s'.jobs[k]) && AllowedMove(s.jobs[k].status, s'.jobs[k].status)
    {
      if k != id { assert s'.jobs[k] == s.jobs[k]; }
    }
    forall k | SettledSynchronously(s, k) ensures SettledSynchronously(s', k) && s'.jobs[k] == s.jobs[k] {
      if k != id { assert s'.jobs[k] == s.jobs[k]; }
    }
    forall k | Stranded(s, k) ensures Stranded(s', k) && s'.jobs[k] == s.jobs[k] {
      if k != id { assert s'.jobs[k] == s.jobs[k]; }
    }
  }

  lemma FirstSaveAdvances(s: State, id: string)
    requires Inv(s)
    ensures Advances(s, DoFirstSave(Columns, s, id)) && Moves(s, DoFirstSave(Columns, s, id))
  {
    if Runs(s, id) && s.gateways[id].Created? {
      assert GatewayOk(s, id);
      FirstSaveEffect(Columns, s, id);
      RequestAdvances(s, DoFirstSave(Columns, s, id), id);
    }
  }

  lemma SecondSaveAdvances(s: State, id: string)
    requires Inv(s)
    ensures Advances(s, DoSecondSave(Columns, s, id)) && Moves(s, DoSecondSave(Columns, s, id))
  {
    if Runs(s, id) && s.gateways[id].Applied? {
      assert GatewayOk(s, id);
      SecondSaveEffect(Columns, s, id);
      RequestAdvances(s, DoSecondSave(Columns, s, id), id);
    }
  }

  /** A decided job is written only to a row in recovery. */
  lemma UpdateMove(s: State, t: nat)
    requires Inv(s) && t in s.consumers && s.consumers[t].Decided?
    ensures
      var c := s.consumers[t];
      && c.entry < |s.broker.stream| && s.broker.stream[c.entry] in s.jobs
      && var id := s.broker.stream[c.entry];
         && SameIdentity(s.jobs[id], c.updated) && Terminal(c.updated.status)
         && AllowedMove(s.jobs[id].status, c.updated.status)
         && !SettledSynchronously(s, id) && !Stranded(s, id)
  {
    var c := s.consumers[t];
    assert ConsumerOk(s, c) && EntryOk(s, c.entry);
    var id := s.broker.stream[c.entry];
    assert GatewayOk(s, id) && id in s.broker.stream;
  }

  lemma RowAdvances(s: State, s': State, id: string, job: Job)
    requires id in s.jobs && s' == s.(jobs := s.jobs[id := job], consumers := s'.consumers)
    requires SameIdentity(s.jobs[id], job) && Terminal(job.status) && AllowedMove(s.jobs[id].status, job.status)
    requires !SettledSynchronously(s, id) && !Stranded(s, id)
    ensures Advances(s, s') && Moves(s, s')
  {
    assert forall k :: k in s.jobs && k != id ==> s'.jobs[k] == s.jobs[k];
  }

  lemma UpdateAdvances(s: State, t: nat)
    requires Inv(s)
    ensures Advances(s, DoUpdate(Columns, s, t)) && Moves(s, DoUpdate(Columns, s, t))
  {
    if t in s.consumers && s.consumers[t].Decided? {
      var c := s.consumers[t];
      UpdateMove(s, t);
      UpdateEffect(Columns, s, t);
      RowAdvances(s, DoUpdate(Columns, s, t), s.broker.stream[c.entry], c.updated);
    }
  }

  lemma RequestOnlyAdvances(s: State, id: string, url: string, domain: string, fields: seq<string>, call: WorkerCall)
    requires Inv(s)
    ensures Advances(s, DoStart(s, id, url, domain, fields)) && Moves(s, DoStart(s, id, url, domain, fields))
    ensures Advances(s, DoCall(s, id, call)) && Moves(s, DoCall(s, id, call))
  {
    RequestAdvances(s, DoStart(s, id, url, domain, fields), id);
    RequestAdvances(s, DoCall(s, id, call), id);
  }

  lemma EndOfRequestAdvances(s: State, id: string)
    ensures Advances(s, DoEnqueue(s, id)) && Moves(s, DoEnqueue(s, id))
    ensures Advances(s, DoCrashGateway(s, id)) && Moves(s, DoCrashGateway(s, id))
  {
    RequestAdvances(s, DoEnqueue(s, id), id);
    RequestAdvances(s, DoCrashGateway(s, id), id);
  }

  lemma GroupAdvances(s: State)
    requires Inv(s)
    ensures Advances(s, DoGroup(s)) && Moves(s, DoGroup(s))
  {
    GroupKeepsInv(s);
    DeliveryAdvances(s, DoGroup(s), 0);
  }

  lemma RequestStepAdvances(s: State, a: Action)
    requires Inv(s)
    requires a.StartRequest? || a.FirstSave? || a.CallWorker? || a.SecondSave? || a.Enqueue? || a.CrashGateway?
    ensures Advances(s, Step(Columns, s, a)) && Moves(s, Step(Columns, s, a))
  {
    match a
    case StartRequest(id, url, domain, fields) => RequestOnlyAdvances(s, id, url, domain, fields, Unreachable);
    case FirstSave(id) => FirstSaveAdvances(s, id);
    case CallWorker(id, call) => RequestOnlyAdvances(s, id, "", "", [], call);
    case SecondSave(id) => SecondSaveAdvances(s, id);
    case Enqueue(id) => EndOfRequestAdvances(s, id);
    case CrashGateway(id) => EndOfRequestAdvances(s, id);
  }

  lemma StepAdvances(s: State, a: Action)
    requires Inv(s)
    ensures Advances(s, Step(Columns, s, a)) && Moves(s, Step(Columns, s, a))
  {
    match a
    case EnsureGroup => GroupAdvances(s);
    case ReadNew(t, name) => DeliveryAdvances(s, DoRead(s, t, name), t);
    case Claim(t, name, page) => DeliveryAdvances(s, DoClaim(s, t, name, page), t);
    case Load(t) => DeliveryAdvances(s, DoLoad(s, t), t);
    case RunGraph(t, maxAttempts, world) => DeliveryAdvances(s, DoRunGraph(s, t, maxAttempts, world), t);
    case UpdateRow(t) => UpdateAdvances(s, t);
    case Acknowledge(t) => DeliveryAdvances(s, DoAcknowledge(s, t), t);
    case CrashConsumer(t) => DeliveryAdvances(s, DoCrashConsumer(s, t), t);
    case _ => RequestStepAdvances(s, a);
  }

  lemma {:induction false} RunAdvances(s: State, actions: seq<Action>)
    requires Inv(s)
    ensures Advances(s, RunAll(Columns, s, actions))
    decreases |actions|
  {
    if actions != [] {
      var s1 := Step(Columns, s, actions[0]);
      StepAdvances(s, actions[0]);
      StepKeepsInv(Columns, s, actions[0]);
      RunAdvances(s1, actions[1..]);
      AdvancesTransitive(s, s1, RunAll(Columns, s, actions));
    }
  }

  lemma AdvancesTransitive(a: State, b: State, c: State)
    requires Advances(a, b) && Advances(b, c)
    ensures Advances(a, c)
  {
    assert forall id :: id in a.broker.stream ==> id in b.broker.stream;
  }

  /** Each step moves a row's status along the allowed edges, and no other way. */
  lemma StatusesMoveForward(s: State, a: Action, id: string)
    requires Reachable(s) && id in s.jobs
    ensures id in Step(Columns, s, a).jobs
    ensures SameIdentity(s.jobs[id], Step(Columns, s, a).jobs[id])
    ensures AllowedMove(s.jobs[id].status, Step(Columns, s, a).jobs[id].status)
  {
    ReachableInv(s);
    StepAdvances(s, a);
  }

  /** Over all runs: entries are never lost or unacknowledged, an acknowledged entry's job
      is terminal from then on, what the gateway settled is never written again, and a job
      stranded in the window stays as it is for good. */
  lemma NothingGoesBack(s: State, s': State, e: nat, id: string)
    requires Reachable(s) && Reaches(s, s')
    ensures e in s.broker.acked ==>
              && e < |s.broker.stream| <= |s'.broker.stream|
              && e in s'.broker.acked && s'.broker.stream[e] == s.broker.stream[e]
              && s.broker.stream[e] in s'.jobs
              && Terminal(s'.jobs[s.broker.stream[e]].status)
    ensures SettledSynchronously(s, id) ==> id in s'.jobs && s'.jobs[id] == s.jobs[id]
    ensures Stranded(s, id) ==>
              && id in s'.jobs && s'.jobs[id] == s.jobs[id]
              && id !in s'.broker.stream
  {
    ReachableInv(s);
    ReachesTransitive(INIT, s, s');
    ReachableInv(s');
    assert Advances(s, s') by {
      var actions :| RunAll(Columns, s, actions) == s';
      RunAdvances(s, actions);
    }
    if e in s.broker.acked {
      assert EntryOk(s', e);
    }
    if Stranded(s, id) {
      assert Stranded(s', id) && GatewayOk(s', id);
    }
  }

  /** Over all runs a row is never lost, keeps its identity, and once terminal stays so. */
  lemma TerminalStaysTerminal(s: State, s': State, id: string)
    requires Reachable(s) && Reaches(s, s') && id in s.jobs
    ensures id in s'.jobs && SameIdentity(s.jobs[id], s'.jobs[id])
    ensures Terminal(s.jobs[id].status) ==> Terminal(s'.jobs[id].status)
  {
    ReachableInv(s);
    assert JobOk(s, id) && GatewayOk(s, id);
    assert Advances(s, s') by {
      var actions :| RunAll(Columns, s, actions) == s';
      RunAdvances(s, actions);
    }
    if Terminal(s.jobs[id].status) && id !in s.broker.stream {
      assert SettledSynchronously(s, id);
    }
  }

  // ----- three columns are enough -----

  lemma ModesAgreeOnSaves(s: State, id: string)
    requires Inv(s)
    ensures DoFirstSave(Columns, s, id) == DoFirstSave(WholeRow, s, id)
    ensures DoSecondSave(Columns, s, id) == DoSecondSave(WholeRow, s, id)
  {
    if Runs(s, id) && s.gateways[id].Created? {
      FirstSaveEffect(Columns, s, id);
      FirstSaveEffect(WholeRow, s, id);
    }
    if Runs(s, id) && s.gateways[id].Applied? {
      SecondSaveEffect(Columns, s, id);
      SecondSaveEffect(WholeRow, s, id);
    }
  }

  lemma ModesAgreeOnUpdate(s: State, t: nat)
    requires Inv(s)
    ensures DoUpdate(Columns, s, t) == DoUpdate(WholeRow, s, t)
  {
    if t in s.consumers && s.consumers[t].Decided? {
      UpdateEffect(Columns, s, t);
      UpdateEffect(WholeRow, s, t);
    }
  }

  lemma ModesAgreeOnStep(s: State, a: Action)
    requires Inv(s)
    ensures Step(Columns, s, a) == Step(WholeRow, s, a)
  {
    if a.FirstSave? || a.SecondSave? { ModesAgreeOnSaves(s, a.id); }
    if a.UpdateRow? { ModesAgreeOnUpdate(s, a.consumer); }
  }

  /** Writing three columns gives, over every run, the table that overwriting whole jobs
      would give. */
  lemma {:induction false} ThreeColumnsSuffice(s: State, actions: seq<Action>)
    requires Inv(s)
    ensures RunAll(Columns, s, actions) == RunAll(WholeRow, s, actions)
    decreases |actions|
  {
    if actions != [] {
      ModesAgreeOnStep(s, actions[0]);
      StepKeepsInv(Columns, s, actions[0]);
      ThreeColumnsSuffice(Step(Columns, s, actions[0]), actions[1..]);
    }
  }

  // ----- single steps as runs -----

  lemma AfterStart(s: State, id: string, url: string, domain: string, fields: seq<string>)
    requires Inv(s)
    ensures Reaches(s, DoStart(s, id, url, domain, fields)) && Inv(DoStart(s, id, url, domain, fields))
  {
    StepReaches(s, StartRequest(id, url, domain, fields));
    StartKeepsInv(s, id, url, domain, fields);
  }

  lemma AfterFirstSave(s: State, id: string)
    requires Inv(s)
    ensures Reaches(s, DoFirstSave(Columns, s, id)) && Inv(DoFirstSave(Columns, s, id))
  {
    StepReaches(s, FirstSave(id));
    FirstSaveKeepsInv(Columns, s, id);
  }

  lemma AfterCall(s: State, id: string, call: WorkerCall)
    requires Inv(s)
    ensures Reaches(s, DoCall(s, id, call)) && Inv(DoCall(s, id, call))
  {
    StepReaches(s, CallWorker(id, call));
    CallKeepsInv(s, id, call);
  }

  lemma AfterSecondSave(s: State, id: string)
    requires Inv(s)
    ensures Reaches(s, DoSecondSave(Columns, s, id)) && Inv(DoSecondSave(Columns, s, id))
  {
    StepReaches(s, SecondSave(id));
    SecondSaveKeepsInv(Columns, s, id);
  }

  lemma AfterEnqueue(s: State, id: string)
    requires Inv(s)
    ensures Reaches(s, DoEnqueue(s, id)) && Inv(DoEnqueue(s, id))
  {
    StepReaches(s, Enqueue(id));
    EnqueueKeepsInv(s, id);
  }

  lemma AfterGroup(s: State)
    requires Inv(s)
    ensures Reaches(s, DoGroup(s)) && Inv(DoGroup(s))
  {
    StepReaches(s, EnsureGroup);
    GroupKeepsInv(s);
  }

  lemma AfterRead(s: State, t: nat, name: string)
    requires Inv(s)
    ensures Reaches(s, DoRead(s, t, name)) && Inv(DoRead(s, t, name))
  {
    StepReaches(s, ReadNew(t, name));
    ReadKeepsInv(s, t, name);
  }

  lemma AfterClaim(s: State, t: nat, name: string, page: seq<nat>)
    requires Inv(s)
    ensures Reaches(s, DoClaim(s, t, name, page)) && Inv(DoClaim(s, t, name, page))
  {
    StepReaches(s, Claim(t, name, page));
    ClaimKeepsInv(s, t, name, page);
  }

  lemma AfterLoad(s: State, t: nat)
    requires Inv(s)
    ensures Reaches(s, DoLoad(s, t)) && Inv(DoLoad(s, t))
  {
    StepReaches(s, Load(t));
    LoadKeepsInv(s, t);
  }

  lemma AfterRunGraph(s: State, t: nat, maxAttempts: int, world: World)
    requires Inv(s)
    ensures Reaches(s, DoRunGraph(s, t, maxAttempts, world)) && Inv(DoRunGraph(s, t, maxAttempts, world))
  {
    StepReaches(s, RunGraph(t, maxAttempts, world));
    RunGraphKeepsInv(s, t, maxAttempts, world);
  }

  lemma AfterUpdate(s: State, t: nat)
    requires Inv(s)
    ensures Reaches(s, DoUpdate(Columns, s, t)) && Inv(DoUpdate(Columns, s, t))
  {
    StepReaches(s, UpdateRow(t));
    UpdateKeepsInv(Columns, s, t);
  }

  lemma AfterAcknowledge(s: State, t: nat)
    requires Inv(s)
    ensures Reaches(s, DoAcknowledge(s, t)) && Inv(DoAcknowledge(s, t))
  {
    StepReaches(s, Acknowledge(t));
    AcknowledgeKeepsInv(s, t);
  }

  lemma AfterCrashGateway(s: State, id: string)
    requires Inv(s)
    ensures Reaches(s, DoCrashGateway(s, id)) && Inv(DoCrashGateway(s, id))
  {
    StepReaches(s, CrashGateway(id));
    CrashGatewayKeepsInv(s, id);
  }

  lemma AfterCrashConsumer(s: State, t: nat)
    requires Inv(s)
    ensures Reaches(s, DoCrashConsumer(s, t)) && Inv(DoCrashConsumer(s, t))
  {
    StepReaches(s, CrashConsumer(t));
    CrashConsumerKeepsInv(s, t);
  }

  // ----- undisturbed processing -----

  /** What a consumer that loads, runs and updates without interruption leaves behind. */
  function Processed(s: State, t: nat, maxAttempts: int, world: World): State
    requires t in s.consumers && s.consumers[t].entry < |s.broker.stream|
    requires s.broker.stream[s.consumers[t].entry] in s.jobs
  {
    var c := s.consumers[t];
    var id := s.broker.stream[c.entry];
    var final := Run(WorkerBacked(world), Start(s.jobs[id], maxAttempts));
    if final.node.End? then
      s.(jobs := s.jobs[id := FinalJob(s.jobs[id], final.state)],
          consumers := s.consumers[t := Acking(c.entry, c.rest)])
    else s.(consumers := s.consumers - {t})
  }

  lemma LoadedReaches(s: State, t: nat)
    requires Inv(s) && t in s.consumers && s.consumers[t].Handling?
    ensures
      var c := s.consumers[t];
      && c.entry < |s.broker.stream| && s.broker.stream[c.entry] in s.jobs
      && var s1 := s.(consumers := s.consumers[t := Loaded(c.entry, c.rest, s.jobs[s.broker.stream[c.entry]])]);
         Inv(s1) && Reaches(s, s1)
  {
    LoadEffect(s, t);
    AfterLoad(s, t);
  }

  lemma RunReaches(s: State, t: nat, maxAttempts: int, world: World)
    requires Inv(s) && t in s.consumers && s.consumers[t].Loaded?
    ensures
      var c := s.consumers[t];
      var final := Run(WorkerBacked(world), Start(c.job, maxAttempts));
      var s2 := s.(consumers := if final.node.End?
          then s.consumers[t := Decided(c.entry, c.rest, FinalJob(c.job, final.state))]
                                else s.consumers - {t});
      Inv(s2) && Reaches(s, s2)
  {
    AfterRunGraph(s, t, maxAttempts, world);
  }

  lemma UpdateReaches(s: State, t: nat)
    requires Inv(s) && t in s.consumers && s.consumers[t].Decided?
    ensures
      var c := s.consumers[t];
      && c.entry < |s.broker.stream|
      && var s3 := s.(jobs := s.jobs[s.broker.stream[c.entry] := c.updated],
                      consumers := s.consumers[t := Acking(c.entry, c.rest)]);
         Inv(s3) && Reaches(s, s3)
  {
    UpdateEffect(Columns, s, t);
    AfterUpdate(s, t);
  }

  lemma DecidedReaches(s: State, t: nat, entry: nat, rest: seq<nat>, updated: Job)
    requires entry < |s.broker.stream|
    requires
      var s2 := s.(consumers := s.consumers[t := Decided(entry, rest, updated)]);
      Inv(s2) && Reaches(s, s2)
    ensures
      var s3 := s.(jobs := s.jobs[s.broker.stream[entry] := updated],
          consumers := s.consumers[t := Acking(entry, rest)]);
      Inv(s3) && Reaches(s, s3)
  {
    var s2 := s.(consumers := s.consumers[t := Decided(entry, rest, updated)]);
    UpdateReaches(s2, t);
    Overwritten(s.consumers, t, Decided(entry, rest, updated), Acking(entry, rest));
    ReachesTransitive(s, s2,
      s.(jobs := s.jobs[s.broker.stream[entry] := updated], consumers := s.consumers[t := Acking(entry, rest)]));
  }

  /** A consumer that handles an entry without interruption: load, run, update. */
  lemma ProcessingReaches(s: State, t: nat, maxAttempts: int, world: World)
    requires Inv(s) && t in s.consumers && s.consumers[t].Handling?
    ensures s.consumers[t].entry < |s.broker.stream| && s.broker.stream[s.consumers[t].entry] in s.jobs
    ensures Reaches(s, Processed(s, t, maxAttempts, world)) && Inv(Processed(s, t, maxAttempts, world))
  {
    var c := s.consumers[t];
    LoadedReaches(s, t);
    var job := s.jobs[s.broker.stream[c.entry]];
    var loaded := Loaded(c.entry, c.rest, job);
    var s1 := s.(consumers := s.consumers[t := loaded]);
    RunReaches(s1, t, maxAttempts, world);
    var final := Run(WorkerBacked(world), Start(job, maxAttempts));
    var decided := Decided(c.entry, c.rest, FinalJob(job, final.state));
    Overwritten(s.consumers, t, loaded, decided);
    if final.node.End? {
      ReachesTransitive(s, s1, s.(consumers := s.consumers[t := decided]));
      DecidedReaches(s, t, c.entry, c.rest, FinalJob(job, final.state));
    } else {
      ReachesTransitive(s, s1, s.(consumers := s.consumers - {t}));
    }
  }
}
