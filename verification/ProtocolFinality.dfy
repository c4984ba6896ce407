/** When the row of a recovered job is final.  Processing has no guard on the status of the
    job it loads, so being terminal is not enough; this module finds the exact condition. */
module ProtocolFinality {
  import opened Basics
  import opened Dicts
  import opened Text
  import opened Validation
  import opened Jobs
  import opened JobTable
  import opened RecoveryStream
  import opened ExtractionWorker
  import opened RecoveryGraph
  import opened GraphSearch
  import opened RecoveryServices
  import opened Protocol
  import opened ProtocolInvariant
  import opened ProtocolTheorems

  /** The consumer can still write the row of entry `e` with something else. */
  ghost predicate MayStillWrite(s: State, e: nat, c: Consumer)
    requires e < |s.broker.stream| && s.broker.stream[e] in s.jobs
  {
    || e in c.rest
    || (c.entry == e &&
        (c.Handling? || c.Loaded? || (c.Decided? && c.updated != s.jobs[s.broker.stream[e]])))
  }

  /** The entry is acknowledged and no consumer is on its way to another write. */
  ghost predicate Quiet(s: State, e: nat)
    requires e < |s.broker.stream| && s.broker.stream[e] in s.jobs
  {
    && e in s.broker.acked
    && forall t :: t in s.consumers ==> !MayStillWrite(s, e, s.consumers[t])
  }

  // ----- quiet rows stay as they are -----

  ghost predicate QuietKept(s: State, s': State, e: nat)
    requires e < |s.broker.stream| && s.broker.stream[e] in s.jobs
  {
    && e < |s'.broker.stream| && s'.broker.stream[e] == s.broker.stream[e]
    && s.broker.stream[e] in s'.jobs && s'.jobs[s.broker.stream[e]] == s.jobs[s.broker.stream[e]]
    && Quiet(s', e)
  }

  /** Whatever happened, the row, the acknowledgement and the other consumers are the same. */
  lemma QuietFrame(s: State, s': State, e: nat, t: nat)
    requires e < |s.broker.stream| && s.broker.stream[e] in s.jobs && Quiet(s, e)
    requires s.broker.stream <= s'.broker.stream && s.broker.acked <= s'.broker.acked
    requires s.broker.stream[e] in s'.jobs && s'.jobs[s.broker.stream[e]] == s.jobs[s.broker.stream[e]]
    requires forall u :: u in s'.consumers && u != t ==> u in s.consumers && s'.consumers[u] == s.consumers[u]
    requires t in s'.consumers ==> !MayStillWrite(s', e, s'.consumers[t])
    ensures QuietKept(s, s', e)
  {
    forall u | u in s'.consumers ensures !MayStillWrite(s', e, s'.consumers[u]) {
      if u != t { assert !MayStillWrite(s, e, s.consumers[u]); }
    }
  }

  /** A step of a request that does not touch the row of entry `e`. */
  lemma QuietRequest(s: State, s': State, e: nat, id: string)
    requires e < |s.broker.stream| && s.broker.stream[e] in s.jobs && Quiet(s, e)
    requires OnlyRequest(s, s', id)
    requires id == s.broker.stream[e] ==> id in s'.jobs && s'.jobs[id] == s.jobs[id]
    ensures QuietKept(s, s', e)
  {
    var t := FreshNumber(s.consumers.Keys);
    assert t !in s.consumers.Keys;
    QuietFrame(s, s', e, t);
  }

  lemma QuietSaves(s: State, e: nat, id: string)
    requires Inv(s) && e < |s.broker.stream| && s.broker.stream[e] in s.jobs && Quiet(s, e)
    ensures QuietKept(s, DoFirstSave(Columns, s, id), e)
    ensures QuietKept(s, DoSecondSave(Columns, s, id), e)
  {
    assert EntryOk(s, e);
    if Runs(s, id) && s.gateways[id].Created? { FirstSaveEffect(Columns, s, id); }
    if Runs(s, id) && s.gateways[id].Applied? { SecondSaveEffect(Columns, s, id); }
    QuietRequest(s, DoFirstSave(Columns, s, id), e, id);
    QuietRequest(s, DoSecondSave(Columns, s, id), e, id);
  }

  lemma QuietOtherRequestSteps(s: State, e: nat, id: string)
    requires e < |s.broker.stream| && s.broker.stream[e] in s.jobs && Quiet(s, e)
    ensures QuietKept(s, DoEnqueue(s, id), e) && QuietKept(s, DoCrashGateway(s, id), e)
  {
    QuietRequest(s, DoEnqueue(s, id), e, id);
    QuietRequest(s, DoCrashGateway(s, id), e, id);
  }

  lemma QuietRequestStep(s: State, a: Action, e: nat)
    requires Inv(s) && e < |s.broker.stream| && s.broker.stream[e] in s.jobs && Quiet(s, e)
    requires a.StartRequest? || a.FirstSave? || a.CallWorker? || a.SecondSave? || a.Enqueue? || a.CrashGateway?
    ensures QuietKept(s, Step(Columns, s, a), e)
  {
    match a
    case StartRequest(id, url, domain, fields) => QuietRequest(s, DoStart(s, id, url, domain, fields), e, id);
    case FirstSave(id) => QuietSaves(s, e, id);
    case CallWorker(id, call) => QuietRequest(s, DoCall(s, id, call), e, id);
    case SecondSave(id) => QuietSaves(s, e, id);
    case Enqueue(id) => QuietOtherRequestSteps(s, e, id);
    case CrashGateway(id) => QuietOtherRequestSteps(s, e, id);
  }

  /** A step that only delivers, and gives its consumer nothing to write to the row. */
  lemma QuietDelivery(s: State, s': State, e: nat, t: nat)
    requires e < |s.broker.stream| && s.broker.stream[e] in s.jobs && Quiet(s, e)
    requires OnlyDelivery(s, s', t)
    requires t in s'.consumers ==> !MayStillWrite(s', e, s'.consumers[t])
    ensures QuietKept(s, s', e)
  {
    QuietFrame(s, s', e, t);
  }

  lemma QuietDelivered(s: State, e: nat, t: nat, name: string, page: seq<nat>)
    requires Inv(s) && e < |s.broker.stream| && s.broker.stream[e] in s.jobs && Quiet(s, e)
    ensures QuietKept(s, DoGroup(s), e)
    ensures QuietKept(s, DoRead(s, t, name), e) && QuietKept(s, DoClaim(s, t, name, page), e)
  {
    GroupKeepsInv(s);
    if t in s.consumers { assert !MayStillWrite(s, e, s.consumers[t]); }
    QuietDelivery(s, DoGroup(s), e, t);
    QuietDelivery(s, DoRead(s, t, name), e, t);
    QuietDelivery(s, DoClaim(s, t, name, page), e, t);
  }

  lemma QuietWork(s: State, e: nat, t: nat, maxAttempts: int, world: World)
    requires e < |s.broker.stream| && s.broker.stream[e] in s.jobs && Quiet(s, e)
    ensures QuietKept(s, DoLoad(s, t), e) && QuietKept(s, DoRunGraph(s, t, maxAttempts, world), e)
  {
    if t in s.consumers { assert !MayStillWrite(s, e, s.consumers[t]); }
    QuietDelivery(s, DoLoad(s, t), e, t);
    QuietDelivery(s, DoRunGraph(s, t, maxAttempts, world), e, t);
  }

  lemma QuietEnd(s: State, e: nat, t: nat)
    requires e < |s.broker.stream| && s.broker.stream[e] in s.jobs && Quiet(s, e)
    ensures QuietKept(s, DoAcknowledge(s, t), e) && QuietKept(s, DoCrashConsumer(s, t), e)
  {
    if t in s.consumers { assert !MayStillWrite(s, e, s.consumers[t]); }
    QuietDelivery(s, DoAcknowledge(s, t), e, t);
    QuietDelivery(s, DoCrashConsumer(s, t), e, t);
  }

  lemma QuietUpdate(s: State, e: nat, t: nat)
    requires Inv(s) && e < |s.broker.stream| && s.broker.stream[e] in s.jobs && Quiet(s, e)
    ensures QuietKept(s, DoUpdate(Columns, s, t), e)
  {
    if t in s.consumers && s.consumers[t].Decided? {
      var c := s.consumers[t];
      assert !MayStillWrite(s, e, c);
      UpdateEffect(Columns, s, t);
      assert s.broker.stream[c.entry] == s.broker.stream[e] ==> c.entry == e;
      QuietFrame(s, DoUpdate(Columns, s, t), e, t);
    }
  }

  lemma QuietStep(s: State, a: Action, e: nat)
    requires Inv(s) && e < |s.broker.stream| && s.broker.stream[e] in s.jobs && Quiet(s, e)
    ensures QuietKept(s, Step(Columns, s, a), e)
  {
    match a
    case EnsureGroup => QuietDelivered(s, e, 0, "", []);
    case ReadNew(t, name) => QuietDelivered(s, e, t, name, []);
    case Claim(t, name, page) => QuietDelivered(s, e, t, name, page);
    case Load(t) => QuietWork(s, e, t, 1, SilentWorld());
    case RunGraph(t, maxAttempts, world) => QuietWork(s, e, t, maxAttempts, world);
    case UpdateRow(t) => QuietUpdate(s, e, t);
    case Acknowledge(t) => QuietEnd(s, e, t);
    case CrashConsumer(t) => QuietEnd(s, e, t);
    case _ => QuietRequestStep(s, a, e);
  }

  lemma {:induction false} QuietRun(s: State, actions: seq<Action>, e: nat)
    requires Inv(s) && e < |s.broker.stream| && s.broker.stream[e] in s.jobs && Quiet(s, e)
    ensures
      var s' := RunAll(Columns, s, actions);
      s.broker.stream[e] in s'.jobs && s'.jobs[s.broker.stream[e]] == s.jobs[s.broker.stream[e]]
    decreases |actions|
  {
    if actions != [] {
      QuietStep(s, actions[0], e);
      StepKeepsInv(Columns, s, actions[0]);
      QuietRun(Step(Columns, s, actions[0]), actions[1..], e);
    }
  }

  // ----- rows that are not quiet can still change -----

  /** A proposer that never has a proposal. */
  function SilentWorld(): World {
    World(Returned(""),
          (call: nat, shot: string, schema: seq<string>, history: seq<Rejection>) => Returned(Proposal(false, [])),
          (call: nat) => Raised,
          (i: nat) => false,
          NoFault)
  }

  lemma SilentEscalates(job: Job)
    ensures
      var final := Run(WorkerBacked(SilentWorld()), Start(job, 1));
      final.node.End? && final.state.finalStatus == Some(HumanReview)
  {
    var sv := WorkerBacked(SilentWorld());
    assert Rejections(sv, job, 0) == Some([]);
    assert Try(sv, job, 1, []).Rejects?;
    assert Rejections(sv, job, 1).Some?;
    ExhaustedRun(sv, job, 1);
  }

  function ForEveryField(fields: seq<string>): seq<(string, string)> {
    seq(|fields|, i requires 0 <= i < |fields| => (fields[i], "*"))
  }

  /** A proposer with a selector for every field, and a page that has text everywhere. */
  function GenerousWorld(fields: seq<string>): World
    requires DistinctKeys(ForEveryField(fields))
  {
    var proposal := Proposal(true, ForEveryField(fields));
    World(Returned(""),
          (call: nat, shot: string, schema: seq<string>, history: seq<Rejection>) => Returned(proposal),
          (call: nat) => Returned((selector: string) => Present(Some("x"))),
          (i: nat) => false,
          NoFault)
  }

  lemma GenerousRecovers(job: Job)
    ensures DistinctKeys(ForEveryField(FromKeys(job.requiredFields)))
    ensures
      var final := Run(WorkerBacked(GenerousWorld(FromKeys(job.requiredFields))), Start(job, 1));
      final.node.End? && final.state.finalStatus == Some(Recovered)
  {
    var fields := FromKeys(job.requiredFields);
    FromKeysFacts(job.requiredFields);
    var selectors := ForEveryField(fields);
    assert DistinctKeys(selectors);
    var w := GenerousWorld(fields);
    var sv := WorkerBacked(w);
    var page := w.pages(1).value;
    var data := ExtractedFields(page, AsMap(selectors));
    forall i | 0 <= i < |fields| ensures fields[i] in data && !Blank(data[fields[i]]) {
      assert selectors[i].0 == fields[i];
      AsMapAt(selectors, i);
      assert !IsSpace("x"[0]);
      UsableExactly(page, AsMap(selectors), fields[i]);
    }
    LiveValidationMeaning(Returned(page), job.domain, fields, selectors);
    assert Rejections(sv, job, 0) == Some([]);
    assert Try(sv, job, 1, []).Accepts?;
    assert Decides(sv, job, 1);
    AcceptedRun(sv, job, 1, 1);
  }

  /** For any job in recovery some run decides differently from any terminal row. */
  lemma SomeRunDiffers(job: Job, row: Job) returns (world: World)
    requires Terminal(row.status)
    ensures
      var final := Run(WorkerBacked(world), Start(job, 1));
      final.node.End? && FinalJob(job, final.state).status != row.status
  {
    if row.status.Success? {
      world := SilentWorld();
      SilentEscalates(job);
    } else {
      GenerousRecovers(job);
      world := GenerousWorld(FromKeys(job.requiredFields));
    }
  }

  /** Entry `e` has a terminal row. */
  ghost predicate Done(s: State, e: nat) {
    && Inv(s)
    && e < |s.broker.stream| && s.broker.stream[e] in s.jobs && Terminal(s.jobs[s.broker.stream[e]].status)
  }

  lemma FlipFromDecided(s: State, e: nat, t: nat) returns (s': State)
    requires Done(s, e) && t in s.consumers && s.consumers[t].entry == e
    requires s.consumers[t].Decided? && s.consumers[t].updated != s.jobs[s.broker.stream[e]]
    ensures Reaches(s, s') && s.broker.stream[e] in s'.jobs
    ensures s'.jobs[s.broker.stream[e]] != s.jobs[s.broker.stream[e]]
  {
    UpdateEffect(Columns, s, t);
    AfterUpdate(s, t);
    s' := DoUpdate(Columns, s, t);
  }

  lemma FlipFromLoaded(s: State, e: nat, t: nat) returns (s': State)
    requires Done(s, e) && t in s.consumers && s.consumers[t].entry == e && s.consumers[t].Loaded?
    ensures Reaches(s, s') && s.broker.stream[e] in s'.jobs
    ensures s'.jobs[s.broker.stream[e]] != s.jobs[s.broker.stream[e]]
  {
    var c := s.consumers[t];
    var world := SomeRunDiffers(c.job, s.jobs[s.broker.stream[e]]);
    RunReaches(s, t, 1, world);
    var final := Run(WorkerBacked(world), Start(c.job, 1));
    var s1 := s.(consumers := s.consumers[t := Decided(e, c.rest, FinalJob(c.job, final.state))]);
    s' := FlipFromDecided(s1, e, t);
    ReachesTransitive(s, s1, s');
  }

  lemma FlipFromHandling(s: State, e: nat, t: nat) returns (s': State)
    requires Done(s, e) && t in s.consumers && s.consumers[t].entry == e && s.consumers[t].Handling?
    ensures Reaches(s, s') && s.broker.stream[e] in s'.jobs
    ensures s'.jobs[s.broker.stream[e]] != s.jobs[s.broker.stream[e]]
  {
    var c := s.consumers[t];
    LoadedReaches(s, t);
    var s1 := s.(consumers := s.consumers[t := Loaded(e, c.rest, s.jobs[s.broker.stream[e]])]);
    s' := FlipFromLoaded(s1, e, t);
    ReachesTransitive(s, s1, s');
  }

  lemma FlipFromPending(s: State, e: nat) returns (s': State)
    requires Done(s, e) && e in s.broker.pel
    ensures Reaches(s, s') && s.broker.stream[e] in s'.jobs
    ensures s'.jobs[s.broker.stream[e]] != s.jobs[s.broker.stream[e]]
  {
    var t := FreshNumber(s.consumers.Keys);
    assert t !in s.consumers.Keys;
    assert ClaimPage(s.broker, [e]);
    AfterClaim(s, t, "", [e]);
    var s1 := DoClaim(s, t, "", [e]);
    s' := FlipFromHandling(s1, e, t);
    ReachesTransitive(s, s1, s');
  }

  /** How far a consumer is from acknowledging its entry. */
  function StepsToAck(c: Consumer): nat {
    match c
    case Handling(_, _) => 3
    case Loaded(_, _, _) => 2
    case Decided(_, _, _) => 1
    case Acking(_, _) => 0
  }

  /** Working on its current entry the consumer will not change the row of `e`. */
  ghost predicate LeavesAlone(s: State, e: nat, c: Consumer)
    requires e < |s.broker.stream| && s.broker.stream[e] in s.jobs
  {
    c.entry == e ==> c.Acking? || (c.Decided? && c.updated == s.jobs[s.broker.stream[e]])
  }

  /** A later state in which the consumer is closer to its acknowledgement and the row of `e`
      is the same. */
  ghost predicate Closer(s: State, s': State, e: nat, t: nat)
    requires e < |s.broker.stream| && s.broker.stream[e] in s.jobs && t in s.consumers
  {
    && Reaches(s, s') && Done(s', e) && s'.broker.stream == s.broker.stream
    && s'.jobs[s.broker.stream[e]] == s.jobs[s.broker.stream[e]]
    && t in s'.consumers && s'.consumers[t].rest == s.consumers[t].rest
    && StepsToAck(s'.consumers[t]) < StepsToAck(s.consumers[t])
    && LeavesAlone(s', e, s'.consumers[t])
  }

  lemma FinishLoad(s: State, e: nat, t: nat) returns (s': State)
    requires Done(s, e) && t in s.consumers && s.consumers[t].Handling? && s.consumers[t].entry != e
    ensures Closer(s, s', e, t)
  {
    var c := s.consumers[t];
    LoadedReaches(s, t);
    s' := s.(consumers := s.consumers[t := Loaded(c.entry, c.rest, s.jobs[s.broker.stream[c.entry]])]);
  }

  lemma FinishRun(s: State, e: nat, t: nat) returns (s': State)
    requires Done(s, e) && t in s.consumers && s.consumers[t].Loaded? && s.consumers[t].entry != e
    ensures Closer(s, s', e, t)
  {
    var c := s.consumers[t];
    SilentEscalates(c.job);
    RunReaches(s, t, 1, SilentWorld());
    var final := Run(WorkerBacked(SilentWorld()), Start(c.job, 1));
    s' := s.(consumers := s.consumers[t := Decided(c.entry, c.rest, FinalJob(c.job, final.state))]);
  }

  lemma RowUntouched(s: State, e: nat, t: nat)
    requires Done(s, e) && t in s.consumers && s.consumers[t].Decided? && LeavesAlone(s, e, s.consumers[t])
    ensures
      var c := s.consumers[t];
      c.entry < |s.broker.stream|
          && s.jobs[s.broker.stream[c.entry] := c.updated][s.broker.stream[e]] == s.jobs[s.broker.stream[e]]
  {
    var c := s.consumers[t];
    assert ConsumerOk(s, c);
    assert s.broker.stream[c.entry] == s.broker.stream[e] ==> c.entry == e;
  }

  lemma FinishUpdate(s: State, e: nat, t: nat) returns (s': State)
    requires Done(s, e) && t in s.consumers && s.consumers[t].Decided? && LeavesAlone(s, e, s.consumers[t])
    ensures Closer(s, s', e, t)
  {
    var c := s.consumers[t];
    RowUntouched(s, e, t);
    UpdateReaches(s, t);
    s' := s.(jobs := s.jobs[s.broker.stream[c.entry] := c.updated],
        consumers := s.consumers[t := Acking(c.entry, c.rest)]);
    assert s'.jobs[s.broker.stream[e]] == s.jobs[s.broker.stream[e]];
    assert Done(s', e);
  }

  /** One step of a consumer towards its acknowledgement, leaving the row of `e` alone. */
  lemma FinishStep(s: State, e: nat, t: nat) returns (s': State)
    requires Done(s, e) && t in s.consumers && !s.consumers[t].Acking? && LeavesAlone(s, e, s.consumers[t])
    ensures Closer(s, s', e, t)
  {
    match s.consumers[t]
    case Handling(_, _) => s' := FinishLoad(s, e, t);
    case Loaded(_, _, _) => s' := FinishRun(s, e, t);
    case Decided(_, _, _) => s' := FinishUpdate(s, e, t);
  }

  /** A consumer finishes with its current entry, leaving the row of `e` alone, and turns to
      the next one it claimed. */
  lemma {:induction false} FinishCurrent(s: State, e: nat, t: nat) returns (s': State)
    requires Done(s, e) && t in s.consumers && s.consumers[t].rest != [] && LeavesAlone(s, e, s.consumers[t])
    ensures Reaches(s, s') && Done(s', e) && s'.broker.stream == s.broker.stream
    ensures s'.jobs[s.broker.stream[e]] == s.jobs[s.broker.stream[e]]
    ensures t in s'.consumers && s'.consumers[t] == Handling(s.consumers[t].rest[0], s.consumers[t].rest[1..])
    decreases StepsToAck(s.consumers[t])
  {
    if s.consumers[t].Acking? {
      AfterAcknowledge(s, t);
      s' := DoAcknowledge(s, t);
    } else {
      var s1 := FinishStep(s, e, t);
      s' := FinishCurrent(s1, e, t);
      ReachesTransitive(s, s1, s');
    }
  }

  lemma FlipFromConsumer(s: State, e: nat, t: nat) returns (s': State)
    requires Done(s, e) && t in s.consumers && MayStillWrite(s, e, s.consumers[t])
    ensures Reaches(s, s') && s.broker.stream[e] in s'.jobs
    ensures s'.jobs[s.broker.stream[e]] != s.jobs[s.broker.stream[e]]
    decreases |s.consumers[t].rest|
  {
    var c := s.consumers[t];
    if c.entry == e && c.Handling? {
      s' := FlipFromHandling(s, e, t);
    } else if c.entry == e && c.Loaded? {
      s' := FlipFromLoaded(s, e, t);
    } else if c.entry == e && c.Decided? && c.updated != s.jobs[s.broker.stream[e]] {
      s' := FlipFromDecided(s, e, t);
    } else {
      var s1 := FinishCurrent(s, e, t);
      s' := FlipFromConsumer(s1, e, t);
      ReachesTransitive(s, s1, s');
    }
  }

  /** A terminal row is final exactly when its entry is acknowledged and no consumer still
      holds it short of its last write. */
  lemma TerminalRowFinalExactly(s: State, e: nat)
    requires Reachable(s) && e < |s.broker.stream|
    ensures s.broker.stream[e] in s.jobs
    ensures
      var id := s.broker.stream[e];
      Terminal(s.jobs[id].status) ==>
        ((forall s' :: Reaches(s, s') ==> id in s'.jobs && s'.jobs[id] == s.jobs[id]) <==> Quiet(s, e))
  {
    ReachableInv(s);
    assert EntryOk(s, e);
    var id := s.broker.stream[e];
    if Terminal(s.jobs[id].status) {
      if Quiet(s, e) {
        forall s' | Reaches(s, s') ensures id in s'.jobs && s'.jobs[id] == s.jobs[id] {
          var actions :| RunAll(Columns, s, actions) == s';
          QuietRun(s, actions, e);
        }
      } else if e !in s.broker.acked {
        var s' := FlipFromPending(s, e);
      } else {
        var t :| t in s.consumers && MayStillWrite(s, e, s.consumers[t]);
        var s' := FlipFromConsumer(s, e, t);
      }
    }
  }
}
