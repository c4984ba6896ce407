/** The inductive invariant of the recovery protocol. */
module ProtocolInvariant {
  import opened Jobs
  import opened GatewayDecision
  import opened JobTable
  import opened RecoveryStream
  import opened RecoveryGraph
  import opened RecoveryServices
  import opened Protocol

  predicate InRecovery(status: JobStatus) {
    status.RecoveryPending? || Terminal(status)
  }

  ghost predicate JobOk(s: State, id: string) {
    id in s.jobs && s.jobs[id].id == id && Consistent(s.jobs[id]) && id in s.gateways
  }

  /** What a request's progress says about its row and its entry. */
  ghost predicate GatewayOk(s: State, id: string) {
    && id in s.gateways
    && var job := s.gateways[id].job;
       && job.id == id && Consistent(job)
       && match s.gateways[id]
          case Created(_) => job.status.Pending? && id !in s.jobs && id !in s.broker.stream
          case Saved(_) => job.status.Pending? && id in s.jobs && s.jobs[id] == job && id !in s.broker.stream
          case Applied(_) =>
            && !job.status.Pending? && !job.status.NeedsHumanReview?
            && id in s.jobs && s.jobs[id].status.Pending? && SameIdentity(s.jobs[id], job) && id !in s.broker.stream
          case Resaved(_) =>
            && !job.status.Pending? && !job.status.NeedsHumanReview?
            && id in s.jobs && s.jobs[id] == job && id !in s.broker.stream
          case Finished(_) =>
            && !job.status.Pending? && !job.status.NeedsHumanReview?
            && id in s.jobs && SameIdentity(s.jobs[id], job)
            && if job.status.RecoveryPending? then id in s.broker.stream
               else s.jobs[id] == job && id !in s.broker.stream
  }

  /** What the delivery of an entry says about its row. */
  ghost predicate EntryOk(s: State, e: nat) {
    && e < |s.broker.stream|
    && var id := s.broker.stream[e];
       && id in s.jobs && InRecovery(s.jobs[id].status)
       && id in s.gateways && s.gateways[id].Finished?
       && (e in s.broker.acked ==> Terminal(s.jobs[id].status))
       && (e >= s.broker.cursor ==> s.jobs[id].status.RecoveryPending?)
  }

  ghost predicate Entries(s: State, entry: nat, rest: seq<nat>) {
    entry < s.broker.cursor && forall i :: 0 <= i < |rest| ==> rest[i] < s.broker.cursor
  }

  /** What a consumer's progress says about the row of its entry. */
  ghost predicate ConsumerOk(s: State, c: Consumer) {
    && Entries(s, c.entry, c.rest)
    && s.broker.cursor <= |s.broker.stream|
    && var id := s.broker.stream[c.entry];
       match c
       case Handling(_, _) => true
       case Loaded(_, _, job) =>
         id in s.jobs && SameIdentity(s.jobs[id], job) && job.id == id && InRecovery(job.status) && Consistent(job)
       case Decided(_, _, job) =>
         id in s.jobs && SameIdentity(s.jobs[id], job) && job.id == id && Terminal(job.status) && Consistent(job)
       case Acking(_, _) => id in s.jobs && Terminal(s.jobs[id].status)
  }

  ghost predicate DistinctEntries(stream: seq<string>) {
    forall i, j :: 0 <= i < j < |stream| ==> stream[i] != stream[j]
  }

  ghost predicate Inv(s: State) {
    && BrokerOk(s.broker)
    && DistinctEntries(s.broker.stream)
    && s.crashed <= s.gateways.Keys
    && (forall id :: id in s.jobs ==> JobOk(s, id))
    && (forall id :: id in s.gateways ==> GatewayOk(s, id))
    && (forall e: nat :: e < |s.broker.stream| ==> EntryOk(s, e))
    && (forall t :: t in s.consumers ==> ConsumerOk(s, s.consumers[t]))
  }

  lemma InitInv()
    ensures Inv(INIT)
  {
  }

  // ----- steps of a request without an entry -----

  lemma KnownIdsHaveRequests(s: State)
    requires Inv(s)
    ensures forall id :: id in s.jobs || id in s.broker.stream ==> id in s.gateways
  {
    forall id | id in s.broker.stream ensures id in s.gateways {
      var e: nat :| e < |s.broker.stream| && s.broker.stream[e] == id;
      assert EntryOk(s, e);
    }
    forall id | id in s.jobs ensures id in s.gateways {
      assert JobOk(s, id);
    }
  }

  /** What a step of one request without an entry must leave behind. */
  lemma RequestKeepsInv(s: State, s': State, id: string)
    requires Inv(s) && OnlyRequest(s, s', id) && s'.broker == s.broker && id !in s.broker.stream
    requires id in s'.gateways && GatewayOk(s', id)
    requires id in s'.jobs ==> JobOk(s', id)
    ensures Inv(s')
  {
    forall k | k in s'.jobs ensures JobOk(s', k) {
      if k != id { assert JobOk(s, k); }
    }
    forall k | k in s'.gateways ensures GatewayOk(s', k) {
      if k != id { assert GatewayOk(s, k); }
    }
    forall e: nat | e < |s'.broker.stream| ensures EntryOk(s', e) {
      assert EntryOk(s, e) && s.broker.stream[e] in s.broker.stream;
    }
    forall t | t in s'.consumers ensures ConsumerOk(s', s'.consumers[t]) {
      var c := s.consumers[t];
      assert ConsumerOk(s, c) && s.broker.stream[c.entry] in s.broker.stream;
    }
  }

  lemma StartKeepsInv(s: State, id: string, url: string, domain: string, fields: seq<string>)
    requires Inv(s)
    ensures Inv(DoStart(s, id, url, domain, fields))
  {
    if id !in s.gateways {
      KnownIdsHaveRequests(s);
      RequestKeepsInv(s, DoStart(s, id, url, domain, fields), id);
    }
  }

  lemma FirstSaveEffect(mode: WriteMode, s: State, id: string)
    requires Inv(s) && Runs(s, id) && s.gateways[id].Created?
    ensures
      var job := s.gateways[id].job;
      && DoFirstSave(mode, s, id) == s.(jobs := s.jobs[id := job], gateways := s.gateways[id := Saved(job)])
      && OnlyRequest(s, DoFirstSave(mode, s, id), id)
      && GatewayOk(DoFirstSave(mode, s, id), id)
  {
    assert GatewayOk(s, id);
  }

  lemma FirstSaveKeepsInv(mode: WriteMode, s: State, id: string)
    requires Inv(s)
    ensures Inv(DoFirstSave(mode, s, id))
  {
    if Runs(s, id) && s.gateways[id].Created? {
      assert GatewayOk(s, id);
      FirstSaveEffect(mode, s, id);
      RequestKeepsInv(s, DoFirstSave(mode, s, id), id);
    }
  }

  lemma SecondSaveEffect(mode: WriteMode, s: State, id: string)
    requires Inv(s) && Runs(s, id) && s.gateways[id].Applied?
    ensures
      var job := s.gateways[id].job;
      && DoSecondSave(mode, s, id) == s.(jobs := s.jobs[id := job], gateways := s.gateways[id := Resaved(job)])
      && OnlyRequest(s, DoSecondSave(mode, s, id), id)
      && GatewayOk(DoSecondSave(mode, s, id), id)
  {
    assert GatewayOk(s, id);
    var job, row := s.gateways[id].job, s.jobs[id];
    assert row.(status := job.status, result := job.result, failureReason := job.failureReason) == job;
  }

  lemma SecondSaveKeepsInv(mode: WriteMode, s: State, id: string)
    requires Inv(s)
    ensures Inv(DoSecondSave(mode, s, id))
  {
    if Runs(s, id) && s.gateways[id].Applied? {
      assert GatewayOk(s, id);
      SecondSaveEffect(mode, s, id);
      RequestKeepsInv(s, DoSecondSave(mode, s, id), id);
    }
  }

  lemma CallKeepsInv(s: State, id: string, call: WorkerCall)
    requires Inv(s)
    ensures Inv(DoCall(s, id, call))
  {
    if Runs(s, id) && s.gateways[id].Saved? {
      assert GatewayOk(s, id) && JobOk(s, id);
      WorkerReplyDecidesJob(s.gateways[id].job, call);
      RequestKeepsInv(s, DoCall(s, id, call), id);
    }
  }

  lemma CrashGatewayKeepsInv(s: State, id: string)
    requires Inv(s)
    ensures Inv(DoCrashGateway(s, id))
  {
    var s' := DoCrashGateway(s, id);
    forall k | k in s'.jobs ensures JobOk(s', k) { assert JobOk(s, k); }
    forall k | k in s'.gateways ensures GatewayOk(s', k) { assert GatewayOk(s, k); }
    forall e: nat | e < |s'.broker.stream| ensures EntryOk(s', e) { assert EntryOk(s, e); }
    forall t | t in s'.consumers ensures ConsumerOk(s', s'.consumers[t]) { assert ConsumerOk(s, s.consumers[t]); }
  }

  // ----- the enqueue -----

  lemma AppendedEntry(s: State, s': State, id: string)
    requires Inv(s) && id in s.gateways && s.gateways[id].Resaved? && s.gateways[id].job.status.RecoveryPending?
    requires s' == s.(broker := XAdd(s.broker, id), gateways := s.gateways[id := Finished(s.gateways[id].job)])
    ensures BrokerOk(s'.broker) && DistinctEntries(s'.broker.stream)
    ensures forall e: nat :: e < |s'.broker.stream| ==> EntryOk(s', e)
    ensures forall t :: t in s'.consumers ==> ConsumerOk(s', s'.consumers[t])
  {
    assert GatewayOk(s, id);
    CommandsKeepBrokerOk(s.broker, id, "", [], 0);
    var n := |s.broker.stream|;
    assert forall e :: 0 <= e < n ==> s.broker.stream[e] in s.broker.stream;
    forall e: nat | e < |s'.broker.stream| ensures EntryOk(s', e) {
      if e < n { assert EntryOk(s, e); }
    }
    forall t | t in s'.consumers ensures ConsumerOk(s', s'.consumers[t]) {
      assert ConsumerOk(s, s.consumers[t]);
    }
  }

  lemma AppendedRequests(s: State, s': State, id: string)
    requires Inv(s) && id in s.gateways && s.gateways[id].Resaved? && s.gateways[id].job.status.RecoveryPending?
    requires s' == s.(broker := XAdd(s.broker, id), gateways := s.gateways[id := Finished(s.gateways[id].job)])
    ensures forall k :: k in s'.gateways ==> GatewayOk(s', k)
  {
    var n := |s.broker.stream|;
    assert s'.broker.stream[n] == id && id in s'.broker.stream;
    forall k | k in s'.gateways ensures GatewayOk(s', k) {
      assert GatewayOk(s, k);
      assert k in s'.broker.stream <==> k in s.broker.stream || k == id;
    }
  }

  lemma EnqueueKeepsInv(s: State, id: string)
    requires Inv(s)
    ensures Inv(DoEnqueue(s, id))
  {
    if Runs(s, id) && s.gateways[id].Resaved? {
      var s' := DoEnqueue(s, id);
      assert GatewayOk(s, id) && JobOk(s, id);
      if s.gateways[id].job.status.RecoveryPending? {
        AppendedEntry(s, s', id);
        AppendedRequests(s, s', id);
        forall k | k in s'.jobs ensures JobOk(s', k) { assert JobOk(s, k); }
      } else {
        RequestKeepsInv(s, s', id);
      }
    }
  }

  // ----- delivery and the consumers' steps -----

  /** What a step that only delivers must leave behind. */
  lemma DeliveryKeepsInv(s: State, s': State, t: nat)
    requires Inv(s) && OnlyDelivery(s, s', t) && BrokerOk(s'.broker)
    requires forall e: nat :: e in s'.broker.acked && e !in s.broker.acked ==>
               e < |s.broker.stream| && s.broker.stream[e] in s.jobs && Terminal(s.jobs[s.broker.stream[e]].status)
    requires t in s'.consumers ==> ConsumerOk(s', s'.consumers[t])
    ensures Inv(s')
  {
    forall id | id in s'.jobs ensures JobOk(s', id) { assert JobOk(s, id); }
    forall id | id in s'.gateways ensures GatewayOk(s', id) { assert GatewayOk(s, id); }
    forall e: nat | e < |s'.broker.stream| ensures EntryOk(s', e) { assert EntryOk(s, e); }
    forall u | u in s'.consumers ensures ConsumerOk(s', s'.consumers[u]) {
      if u != t { assert ConsumerOk(s, s.consumers[u]); }
    }
  }

  lemma GroupKeepsInv(s: State)
    requires Inv(s)
    ensures Inv(DoGroup(s))
    ensures forall t :: OnlyDelivery(s, DoGroup(s), t)
  {
    CommandsKeepBrokerOk(s.broker, "", "", [], 0);
    if 0 in s.consumers { assert ConsumerOk(s, s.consumers[0]); }
    DeliveryKeepsInv(s, DoGroup(s), 0);
  }

  lemma ReadKeepsInv(s: State, t: nat, name: string)
    requires Inv(s)
    ensures Inv(DoRead(s, t, name))
  {
    CommandsKeepBrokerOk(s.broker, "", name, [], 0);
    if t !in s.consumers { DeliveryKeepsInv(s, DoRead(s, t, name), t); }
  }

  lemma ClaimKeepsInv(s: State, t: nat, name: string, page: seq<nat>)
    requires Inv(s)
    ensures Inv(DoClaim(s, t, name, page))
  {
    CommandsKeepBrokerOk(s.broker, "", name, page, 0);
    if t !in s.consumers { DeliveryKeepsInv(s, DoClaim(s, t, name, page), t); }
  }

  lemma CrashConsumerKeepsInv(s: State, t: nat)
    requires Inv(s)
    ensures Inv(DoCrashConsumer(s, t))
  {
    DeliveryKeepsInv(s, DoCrashConsumer(s, t), t);
  }

  /** A consumer's entry has its row, and loading finds it. */
  lemma LoadEffect(s: State, t: nat)
    requires Inv(s) && t in s.consumers && s.consumers[t].Handling?
    ensures
      var c := s.consumers[t];
      && c.entry < |s.broker.stream| && s.broker.stream[c.entry] in s.jobs
      && DoLoad(s, t) == s.(consumers := s.consumers[t := Loaded(c.entry, c.rest, s.jobs[s.broker.stream[c.entry]])])
      && ConsumerOk(DoLoad(s, t), DoLoad(s, t).consumers[t])
  {
    assert ConsumerOk(s, s.consumers[t]) && EntryOk(s, s.consumers[t].entry);
    assert JobOk(s, s.broker.stream[s.consumers[t].entry]);
  }

  lemma LoadKeepsInv(s: State, t: nat)
    requires Inv(s)
    ensures Inv(DoLoad(s, t))
  {
    if t in s.consumers && s.consumers[t].Handling? {
      LoadEffect(s, t);
      DeliveryKeepsInv(s, DoLoad(s, t), t);
    }
  }

  /** What a run of the graph decides for a job in recovery. */
  lemma GraphDecision(job: Job, maxAttempts: int, world: World)
    requires InRecovery(job.status) && Consistent(job)
    ensures
      var final := Run(WorkerBacked(world), Start(job, maxAttempts));
      var decided := FinalJob(job, final.state);
      final.node.End? ==> SameIdentity(job, decided) && Terminal(decided.status) && Consistent(decided)
  {
    RecoveredRunCovers(world, job, maxAttempts);
    RunOutcome(WorkerBacked(world), job, maxAttempts);
  }

  lemma RunGraphKeepsInv(s: State, t: nat, maxAttempts: int, world: World)
    requires Inv(s)
    ensures Inv(DoRunGraph(s, t, maxAttempts, world))
  {
    if t in s.consumers && s.consumers[t].Loaded? {
      assert ConsumerOk(s, s.consumers[t]);
      GraphDecision(s.consumers[t].job, maxAttempts, world);
      DeliveryKeepsInv(s, DoRunGraph(s, t, maxAttempts, world), t);
    }
  }

  lemma AcknowledgeKeepsInv(s: State, t: nat)
    requires Inv(s)
    ensures Inv(DoAcknowledge(s, t))
  {
    if t in s.consumers && s.consumers[t].Acking? {
      assert ConsumerOk(s, s.consumers[t]);
      CommandsKeepBrokerOk(s.broker, "", "", [], s.consumers[t].entry);
      DeliveryKeepsInv(s, DoAcknowledge(s, t), t);
    }
  }

  /** The decided job overwrites the row of the consumer's entry. */
  lemma UpdateEffect(mode: WriteMode, s: State, t: nat)
    requires Inv(s) && t in s.consumers && s.consumers[t].Decided?
    ensures
      var c := s.consumers[t];
      && c.entry < s.broker.cursor <= |s.broker.stream| && s.broker.stream[c.entry] in s.jobs
      && c.updated.id == s.broker.stream[c.entry]
      && DoUpdate(mode, s, t) ==
         s.(jobs := s.jobs[s.broker.stream[c.entry] := c.updated],
             consumers := s.consumers[t := Acking(c.entry, c.rest)])
  {
    var c := s.consumers[t];
    assert ConsumerOk(s, c) && JobOk(s, s.broker.stream[c.entry]);
    var row := s.jobs[c.updated.id];
    assert row.(status := c.updated.status, result := c.updated.result, failureReason := c.updated.failureReason) ==
           c.updated;
  }

  lemma WrittenRowKeepsInv(s: State, s': State, t: nat, c: Consumer)
    requires Inv(s) && t in s.consumers && s.consumers[t] == c && c.Decided? && ConsumerOk(s, c)
    requires s' == s.(jobs := s.jobs[s.broker.stream[c.entry] := c.updated],
             consumers := s.consumers[t := Acking(c.entry, c.rest)])
    ensures Inv(s')
  {
    var id := s.broker.stream[c.entry];
    assert EntryOk(s, c.entry) && id in s.broker.stream;
    forall k | k in s'.jobs ensures JobOk(s', k) { assert JobOk(s, k); }
    forall k | k in s'.gateways ensures GatewayOk(s', k) { assert GatewayOk(s, k); }
    forall e: nat | e < |s'.broker.stream| ensures EntryOk(s', e) {
      assert EntryOk(s, e);
      if s.broker.stream[e] == id { assert e == c.entry; }
    }
    forall u | u in s'.consumers ensures ConsumerOk(s', s'.consumers[u]) {
      if u != t { assert ConsumerOk(s, s.consumers[u]); }
    }
  }

  lemma UpdateKeepsInv(mode: WriteMode, s: State, t: nat)
    requires Inv(s)
    ensures Inv(DoUpdate(mode, s, t))
  {
    if t in s.consumers && s.consumers[t].Decided? {
      assert ConsumerOk(s, s.consumers[t]);
      UpdateEffect(mode, s, t);
      WrittenRowKeepsInv(s, DoUpdate(mode, s, t), t, s.consumers[t]);
    }
  }

  lemma RequestStepKeepsInv(mode: WriteMode, s: State, a: Action)
    requires Inv(s)
    requires a.StartRequest? || a.FirstSave? || a.CallWorker? || a.SecondSave? || a.Enqueue? || a.CrashGateway?
    ensures Inv(Step(mode, s, a))
  {
    match a
    case StartRequest(id, url, domain, fields) => StartKeepsInv(s, id, url, domain, fields);
    case FirstSave(id) => FirstSaveKeepsInv(mode, s, id);
    case CallWorker(id, call) => CallKeepsInv(s, id, call);
    case SecondSave(id) => SecondSaveKeepsInv(mode, s, id);
    case Enqueue(id) => EnqueueKeepsInv(s, id);
    case CrashGateway(id) => CrashGatewayKeepsInv(s, id);
  }

  lemma StepKeepsInv(mode: WriteMode, s: State, a: Action)
    requires Inv(s)
    ensures Inv(Step(mode, s, a))
  {
    match a
    case EnsureGroup => GroupKeepsInv(s);
    case ReadNew(t, name) => ReadKeepsInv(s, t, name);
    case Claim(t, name, page) => ClaimKeepsInv(s, t, name, page);
    case Load(t) => LoadKeepsInv(s, t);
    case RunGraph(t, maxAttempts, world) => RunGraphKeepsInv(s, t, maxAttempts, world);
    case UpdateRow(t) => UpdateKeepsInv(mode, s, t);
    case Acknowledge(t) => AcknowledgeKeepsInv(s, t);
    case CrashConsumer(t) => CrashConsumerKeepsInv(s, t);
    case _ => RequestStepKeepsInv(mode, s, a);
  }

  lemma {:induction false} RunKeepsInv(mode: WriteMode, s: State, actions: seq<Action>)
    requires Inv(s)
    ensures Inv(RunAll(mode, s, actions))
    decreases |actions|
  {
    if actions != [] {
      StepKeepsInv(mode, s, actions[0]);
      RunKeepsInv(mode, Step(mode, s, actions[0]), actions[1..]);
    }
  }
}
