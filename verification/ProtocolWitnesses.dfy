/** Runs that show what the protocol does not guarantee: redelivery can replace a SUCCESS,
    and a crash in the window strands a job. */
module ProtocolWitnesses {
  import opened Basics
  import opened Validation
  import opened Jobs
  import opened GatewayDecision
  import opened JobTable
  import opened RecoveryStream
  import opened Protocol
  import opened ProtocolInvariant
  import opened ProtocolTheorems
  import opened ProtocolFinality

  /** Continues a run from the start. */
  lemma Further(s: State, s': State)
    requires Reachable(s) && Reaches(s, s')
    ensures Reachable(s') && Inv(s')
  {
    ReachesTransitive(INIT, s, s');
    ReachableInv(s');
  }

  /** A request before the worker's reply. */
  lemma RequestSaved(id: string, url: string, domain: string, fields: seq<string>) returns (s: State)
    ensures Reachable(s) && Inv(s)
    ensures
      var job := Job.Create(id, url, domain, fields);
      s == State(map[id := job], NO_STREAM, map[id := Saved(job)], {}, map[])
  {
    InitInv();
    ReachesItself(INIT);
    AfterStart(INIT, id, url, domain, fields);
    var s1 := DoStart(INIT, id, url, domain, fields);
    Further(INIT, s1);
    AfterFirstSave(s1, id);
    s := DoFirstSave(Columns, s1, id);
    Further(s1, s);
  }

  /** A request whose page gives nothing, before its second save. */
  lemma RequestApplied(id: string, url: string, domain: string, fields: seq<string>) returns (s: State)
    requires fields != []
    ensures Reachable(s) && Inv(s)
    ensures
      var job := Job.Create(id, url, domain, fields);
      s == State(map[id := job], NO_STREAM, map[id := Applied(job.MarkRecoveryPending())], {}, map[])
  {
    var job := Job.Create(id, url, domain, fields);
    WorkerReplyDecidesJob(job, Extracted(map[]));
    var nothing: Data := map[];
    assert !Covers(fields, nothing) by { assert fields[0] !in nothing; }
    var s1 := RequestSaved(id, url, domain, fields);
    AfterCall(s1, id, Extracted(map[]));
    s := DoCall(s1, id, Extracted(map[]));
    Overwritten(map[], id, Saved(job), Applied(job.MarkRecoveryPending()));
    Further(s1, s);
  }

  lemma RequestInWindow(id: string, url: string, domain: string, fields: seq<string>) returns (s: State)
    requires fields != []
    ensures Reachable(s) && Inv(s)
    ensures
      var job := Job.Create(id, url, domain, fields).MarkRecoveryPending();
      s == State(map[id := job], NO_STREAM, map[id := Resaved(job)], {}, map[])
  {
    var s1 := RequestApplied(id, url, domain, fields);
    SecondSaveEffect(Columns, s1, id);
    AfterSecondSave(s1, id);
    s := DoSecondSave(Columns, s1, id);
    Further(s1, s);
  }

  /** The window is real: a crash there leaves a job that no run ever recovers. */
  lemma WindowStrands(id: string, url: string, domain: string, fields: seq<string>) returns (s: State)
    requires fields != []
    ensures Reachable(s) && Stranded(s, id)
  {
    var s1 := RequestInWindow(id, url, domain, fields);
    s := DoCrashGateway(s1, id);
    AfterCrashGateway(s1, id);
    Further(s1, s);
  }

  lemma RequestEnqueued(id: string, url: string, domain: string, fields: seq<string>) returns (s: State)
    requires fields != []
    ensures Reachable(s) && Inv(s)
    ensures
      var job := Job.Create(id, url, domain, fields).MarkRecoveryPending();
      s == State(map[id := job], Broker([id], false, 0, map[], {}), map[id := Finished(job)], {}, map[])
  {
    var s1 := RequestInWindow(id, url, domain, fields);
    AfterEnqueue(s1, id);
    s := DoEnqueue(s1, id);
    Further(s1, s);
  }

  /** The entry is enqueued and delivered to a consumer. */
  lemma DeliveredToConsumer(id: string, url: string, domain: string, fields: seq<string>) returns (s: State)
    requires fields != []
    ensures Reachable(s) && Inv(s) && s.jobs == map[id := Job.Create(id, url, domain, fields).MarkRecoveryPending()]
    ensures s.broker == Broker([id], true, 1, map[0 := "consumer-1"], {})
    ensures s.consumers == map[1 := Handling(0, [])]
  {
    var s1 := RequestEnqueued(id, url, domain, fields);
    AfterGroup(s1);
    var s2 := DoGroup(s1);
    Further(s1, s2);
    AfterRead(s2, 1, "consumer-1");
    s := DoRead(s2, 1, "consumer-1");
    Further(s2, s);
  }

  /** Handling the entry, with services that answer well: SUCCESS before the acknowledgement. */
  lemma SuccessReaches(s: State, t: nat) returns (s': State)
    requires Inv(s) && t in s.consumers && s.consumers[t].Handling?
    ensures Reaches(s, s') && Inv(s')
    ensures s'.broker == s.broker && s'.consumers == s.consumers[t := Acking(s.consumers[t].entry, s.consumers[t].rest)]
    ensures s.consumers[t].entry < |s.broker.stream| && s.broker.stream[s.consumers[t].entry] in s'.jobs
    ensures s'.jobs[s.broker.stream[s.consumers[t].entry]].status.Success?
  {
    LoadEffect(s, t);
    var job := s.jobs[s.broker.stream[s.consumers[t].entry]];
    GenerousRecovers(job);
    ProcessingReaches(s, t, 1, GenerousWorld(FromKeys(job.requiredFields)));
    s' := Processed(s, t, 1, GenerousWorld(FromKeys(job.requiredFields)));
  }

  /** The same without a proposal: NEEDS_HUMAN_REVIEW and no result. */
  lemma ReviewReaches(s: State, t: nat) returns (s': State)
    requires Inv(s) && t in s.consumers && s.consumers[t].Handling?
    ensures Reaches(s, s') && Inv(s')
    ensures s'.broker == s.broker && s'.consumers == s.consumers[t := Acking(s.consumers[t].entry, s.consumers[t].rest)]
    ensures s.consumers[t].entry < |s.broker.stream| && s.broker.stream[s.consumers[t].entry] in s'.jobs
    ensures
      var row := s'.jobs[s.broker.stream[s.consumers[t].entry]];
      row.status.NeedsHumanReview? && row.result.None?
  {
    LoadEffect(s, t);
    SilentEscalates(s.jobs[s.broker.stream[s.consumers[t].entry]]);
    ProcessingReaches(s, t, 1, SilentWorld());
    s' := Processed(s, t, 1, SilentWorld());
  }

  /** A consumer recovers the job, up to the point before the acknowledgement. */
  lemma RecoveredBeforeAck(id: string, url: string, domain: string, fields: seq<string>) returns (s: State)
    requires fields != []
    ensures Reachable(s) && Inv(s) && id in s.jobs && s.jobs[id].status.Success? && s.jobs[id].result.Some?
    ensures s.broker.stream == [id] && s.broker.pel.Keys == {0} && s.broker.grouped
    ensures s.consumers.Keys == {1}
  {
    var s0 := DeliveredToConsumer(id, url, domain, fields);
    s := SuccessReaches(s0, 1);
    Further(s0, s);
    StoredJobsTellTheTruth(s, id);
  }

  /** A consumer stops, and an idle one claims the entry left pending. */
  lemma Reclaimed(s0: State) returns (s: State)
    requires Inv(s0) && s0.broker.pel.Keys == {0} && s0.broker.grouped && s0.consumers.Keys == {1}
    ensures Reaches(s0, s) && Inv(s)
    ensures s.jobs == s0.jobs && s.broker.stream == s0.broker.stream && s.broker.pel.Keys == {0}
    ensures s.consumers == map[2 := Handling(0, [])]
  {
    var s1 := DoCrashConsumer(s0, 1);
    AfterCrashConsumer(s0, 1);
    assert s1.consumers == map[];
    s := ClaimedByTwo(s1);
    ReachesTransitive(s0, s1, s);
  }

  lemma ClaimedByTwo(s1: State) returns (s: State)
    requires Inv(s1) && s1.broker.pel.Keys == {0} && s1.broker.grouped && s1.consumers == map[]
    ensures Reaches(s1, s) && Inv(s)
    ensures s.jobs == s1.jobs && s.broker.stream == s1.broker.stream && s.broker.pel.Keys == {0}
    ensures s.consumers == map[2 := Handling(0, [])]
  {
    assert ClaimPage(s1.broker, [0]);
    AfterClaim(s1, 2, "consumer-2", [0]);
    s := DoClaim(s1, 2, "consumer-2", [0]);
    var page: seq<nat> := [0];
    assert page[1..] == [];
  }

  /** Redelivery after a crash between update and acknowledgement can turn a stored SUCCESS
      into NEEDS_HUMAN_REVIEW and drop its result for good. */
  lemma RedeliveryCanDropResult(id: string, url: string, domain: string, fields: seq<string>)
    returns (before: State, after: State)
    requires fields != []
    ensures Reachable(before) && Reaches(before, after)
    ensures id in before.jobs && before.jobs[id].status.Success? && before.jobs[id].result.Some?
    ensures id in after.jobs && after.jobs[id].status.NeedsHumanReview? && after.jobs[id].result.None?
    ensures 0 in after.broker.acked && after.consumers == map[]
  {
    before := RecoveredBeforeAck(id, url, domain, fields);
    var s1 := Reclaimed(before);
    var s2 := ReviewReaches(s1, 2);
    ReachesTransitive(before, s1, s2);
    AfterAcknowledge(s2, 2);
    after := DoAcknowledge(s2, 2);
    ReachesTransitive(before, s2, after);
  }
}
