/** The two ends of the recovery queue as the services run them: the gateway's use case and
    the queue consumer, updating the jobs table and the stream in place. */
module RecoveryQueue {
  import opened Basics
  import opened Validation
  import opened Jobs
  import opened GatewayDecision
  import opened JobTable
  import opened RecoveryStream
  import opened RecoveryGraph
  import opened RecoveryServices
  import opened LiveSearch
  import Protocol

  class RedisStream {
    var broker: Broker

    constructor ()
      ensures broker == NO_STREAM
    {
      broker := NO_STREAM;
    }

    method XAdd(jobId: string)
      modifies this
      ensures broker == RecoveryStream.XAdd(old(broker), jobId)
    {
      broker := broker.(stream := broker.stream + [jobId]);
    }

    method XGroupCreate()
      modifies this
      ensures broker == RecoveryStream.XGroupCreate(old(broker))
    {
      if !broker.grouped {
        broker := broker.(grouped := true, cursor := 0);
      }
    }

    method XReadGroup(consumer: string) returns (entry: Option<nat>)
      modifies this
      ensures (entry, broker) == RecoveryStream.XReadGroup(old(broker), consumer)
    {
      if !broker.grouped || broker.cursor >= |broker.stream| { return None; }
      entry := Some(broker.cursor);
      broker := broker.(cursor := broker.cursor + 1, pel := broker.pel[broker.cursor := consumer]);
    }

    method XAutoClaim(consumer: string, page: seq<nat>)
      modifies this
      ensures broker == RecoveryStream.XAutoClaim(old(broker), consumer, page)
    {
      broker := broker.(pel := map e | e in broker.pel :: if e in page then consumer else broker.pel[e]);
    }

    method XAck(entry: nat, raises: bool) returns (r: Answer<()>)
      modifies this
      ensures r.Raised? <==> raises
      ensures broker == if raises then old(broker) else RecoveryStream.XAck(old(broker), entry)
    {
      if raises { return Raised; }
      if entry in broker.pel {
        broker := broker.(pel := broker.pel - {entry}, acked := broker.acked + {entry});
      }
      r := Returned(());
    }
  }

  class RedisRecoveryQueue {
    const client: RedisStream

    constructor (client: RedisStream)
      ensures this.client == client
    {
      this.client := client;
    }

    method Enqueue(jobId: string, raises: bool) returns (r: Answer<()>)
      modifies client
      ensures r.Raised? <==> raises
      ensures client.broker == if raises then old(client.broker) else XAdd(old(client.broker), jobId)
    {
      if raises { return Raised; }
      client.XAdd(jobId);
      r := Returned(());
    }
  }

  /** The shared state both ends work on. */
  datatype Site = Site(jobs: map<string, Job>, broker: Broker)

  /** Which of a request's own calls raises. */
  datatype RequestFault = NoTrouble | FirstSaveRaises | SecondSaveRaises | EnqueueRaises

  /** A request on values: save, ask the worker, save again, and enqueue a job that waits for
      recovery.  Whatever raises ends it there. */
  function Request(site: Site, job: Job, wire: Wire, fault: RequestFault): (Answer<Job>, Site) {
    var jobs1 := Upsert(Columns, site.jobs, job);
    var next := Decide(job, wire);
    if fault.FirstSaveRaises? then (Raised, site)
    else if next.Raised? || fault.SecondSaveRaises? then (Raised, site.(jobs := jobs1))
    else
      var jobs2 := Upsert(Columns, jobs1, next.value);
      if !next.value.status.RecoveryPending? then (next, site.(jobs := jobs2))
      else if fault.EnqueueRaises? then (Raised, site.(jobs := jobs2))
      else (next, Site(jobs2, XAdd(site.broker, job.id)))
  }

  lemma DecisionKeepsIdentity(job: Job, wire: Wire)
    ensures Decide(job, wire).Returned? ==> SameIdentity(job, Decide(job, wire).value)
  {
  }

  /** The first save inserts the job, and saving its successor leaves the successor. */
  lemma TwoSaves(jobs: map<string, Job>, first: Job, second: Job)
    requires first.id !in jobs && SameIdentity(first, second)
    ensures Upsert(Columns, jobs, first) == jobs[first.id := first]
    ensures Upsert(Columns, Upsert(Columns, jobs, first), second) == jobs[second.id := second]
  {
  }

  /** For a fresh job: the row it leaves, and that an entry is added only for a row that
      already waits for recovery. */
  lemma RequestMeaning(site: Site, job: Job, wire: Wire, fault: RequestFault)
    requires job.id !in site.jobs
    ensures
      var next := Decide(job, wire);
      var (r, site') := Request(site, job, wire, fault);
      && (r.Raised? <==>
            || next.Raised? || fault.FirstSaveRaises? || fault.SecondSaveRaises?
            || (fault.EnqueueRaises? && next.value.status.RecoveryPending?))
      && (r.Returned? ==> r == next && site'.jobs == site.jobs[job.id := r.value])
      && (r.Raised? ==> site'.broker == site.broker)
      && (r.Raised? ==>
            || site'.jobs == site.jobs
            || site'.jobs == site.jobs[job.id := job]
            || (next.Returned? && site'.jobs == site.jobs[job.id := next.value]))
      && (site'.broker != site.broker ==>
            site'.broker == XAdd(site.broker, job.id) && job.id in site'.jobs
                && site'.jobs[job.id].status.RecoveryPending?)
      && (r.Returned? && r.value.status.RecoveryPending? ==> site'.broker == XAdd(site.broker, job.id))
  {
    DecisionKeepsIdentity(job, wire);
    var next := Decide(job, wire);
    if next.Returned? {
      TwoSaves(site.jobs, job, next.value);
    }
  }

  class ProcessScrapeRequestUseCase {
    const repository: SqlAlchemyJobRepository
    const queue: RedisRecoveryQueue

    constructor (repository: SqlAlchemyJobRepository, queue: RedisRecoveryQueue)
      ensures this.repository == repository && this.queue == queue
    {
      this.repository := repository;
      this.queue := queue;
    }

    ghost function Contents(): Site
      reads repository.table, queue.client
      requires repository.table.Valid()
    {
      Site(repository.table.Jobs(), queue.client.broker)
    }

    /** `id` is the fresh identifier, `wire` what the worker's endpoint answers, `fault` what
        raises. */
    method Execute(id: string, url: string, domain: string, required: seq<string>, wire: Wire, fault: RequestFault)
      returns (r: Answer<Job>)
      requires repository.table.Valid()
      modifies repository.table, queue.client
      ensures repository.table.Valid()
      ensures (r, Contents()) == Request(old(Contents()), Job.Create(id, url, domain, required), wire, fault)
    {
      var job := Job.Create(id, url, domain, required);
      var saved := repository.Save(job, fault.FirstSaveRaises?);
      if saved.Raised? { return Raised; }
      r := Decide(job, wire);
      if r.Raised? { return; }
      DecisionKeepsIdentity(job, wire);
      saved := repository.Save(r.value, fault.SecondSaveRaises?);
      if saved.Raised? { return Raised; }
      if r.value.status.RecoveryPending? {
        var enqueued := queue.Enqueue(r.value.id, fault.EnqueueRaises?);
        if enqueued.Raised? { return Raised; }
      }
    }
  }

  // ----- the consumer, on values -----

  /** One entry: a missing job is acknowledged and dropped; otherwise load, run, update,
      acknowledge.  Whatever raises ends it there. */
  function Process(site: Site, entry: nat, maxAttempts: int, world: World): (Answer<Option<string>>, Site)
    requires entry < |site.broker.stream|
  {
    var id := site.broker.stream[entry];
    var acked := XAck(site.broker, entry);
    if world.storage.GetRaises? then (Raised, site)
    else if id !in site.jobs then
      if world.storage.AckRaises? then (Raised, site) else (Returned(None), site.(broker := acked))
    else
      var final := Run(WorkerBacked(world), Start(site.jobs[id], maxAttempts));
      var updated := Protocol.FinalJob(site.jobs[id], final.state);
      if !final.node.End? || world.storage.UpdateRaises? || updated.id !in site.jobs then (Raised, site)
      else
        var jobs := Upsert(Columns, site.jobs, updated);
        if world.storage.AckRaises? then (Raised, site.(jobs := jobs)) else (Returned(Some(id)), Site(jobs, acked))
  }

  /** The job is loaded and its update is not what raises. */
  predicate Stores(world: World) {
    world.storage.NoFault? || world.storage.AckRaises?
  }

  /** What handling an entry leaves when its run has decided: the row with the recovered data, or
      for a human without any; the entry acknowledged, if that does not raise. */
  ghost predicate Completed(site: Site, entry: nat, world: World, recovered: Option<Data>, r: Answer<Option<string>>,
                            site': Site)
    requires entry < |site.broker.stream| && site.broker.stream[entry] in site.jobs
  {
    var id := site.broker.stream[entry];
    var row := if recovered.Some? then site.jobs[id].(status := Success, result := recovered)
               else site.jobs[id].(status := NeedsHumanReview, result := None, failureReason := None);
    && site'.jobs == site.jobs[id := row]
    && site'.broker == (if world.storage.NoFault? then XAck(site.broker, entry) else site.broker)
    && r == (if world.storage.NoFault? then Returned(Some(id)) else Raised)
  }

  lemma ProcessStores(site: Site, entry: nat, maxAttempts: int, world: World)
    requires entry < |site.broker.stream| && site.broker.stream[entry] in site.jobs
    requires site.jobs[site.broker.stream[entry]].id == site.broker.stream[entry]
    ensures
      var (r, site') := Process(site, entry, maxAttempts, world);
      var final := Run(WorkerBacked(world), Start(site.jobs[site.broker.stream[entry]], maxAttempts));
      if !final.node.End? || !Stores(world) then (r, site') == (Raised, site)
      else if final.state.finalStatus != Some(Recovered) then Completed(site, entry, world, None, r, site')
      else final.state.recoveredData.Some? ==> Completed(site, entry, world, final.state.recoveredData, r, site')
  {
  }

  /** How the handling of an entry whose job exists turns out, for any proposer, pages and storage.
      If some attempt wins and the job is loaded and updated, the row becomes SUCCESS with the data
      of that attempt; if all are rejected, it becomes NEEDS_HUMAN_REVIEW without data; the entry is
      acknowledged if that does not raise.  In every other case the handling raises, and row and
      pending list stay as they are. */
  lemma ProcessExactly(site: Site, entry: nat, maxAttempts: int, world: World)
    requires entry < |site.broker.stream| && site.broker.stream[entry] in site.jobs
    requires site.jobs[site.broker.stream[entry]].id == site.broker.stream[entry]
    ensures
      var job := site.jobs[site.broker.stream[entry]];
      var won := exists k, selectors, data :: Wins(world, job, maxAttempts, k, selectors, data);
      var (r, site') := Process(site, entry, maxAttempts, world);
      && (forall k, selectors, data :: Stores(world) && Wins(world, job, maxAttempts, k, selectors, data) ==>
            Completed(site, entry, world, Some(data), r, site'))
      && (Stores(world) && AllRejected(world, job, maxAttempts) ==> Completed(site, entry, world, None, r, site'))
      && (!Stores(world) || (!won && !AllRejected(world, job, maxAttempts)) ==> (r, site') == (Raised, site))
  {
    var job := site.jobs[site.broker.stream[entry]];
    var final := Run(WorkerBacked(world), Start(job, maxAttempts));
    ProcessStores(site, entry, maxAttempts, world);
    LiveRunExactly(world, job, maxAttempts);
    forall k, selectors, data | Wins(world, job, maxAttempts, k, selectors, data)
      ensures final.node.End? && final.state.finalStatus == Some(Recovered)
      ensures final.state.recoveredData == Some(data)
    {
    }
  }

  /** When the proposer raises at the attempt reached, or the page of its confident proposal does
      not load, handling raises, and the row and the pending list are what they were. */
  lemma ServiceDownLeavesPending(site: Site, entry: nat, maxAttempts: int, world: World, k: nat,
      answer: Answer<Proposal>)
    requires entry < |site.broker.stream| && site.broker.stream[entry] in site.jobs
    requires Proposed(world, site.jobs[site.broker.stream[entry]], maxAttempts, k, answer)
    requires answer.Raised? || (answer.value.isConfident && world.pages(k).Raised?)
    ensures Process(site, entry, maxAttempts, world) == (Raised, site)
  {
    ServiceDownStops(world, site.jobs[site.broker.stream[entry]], maxAttempts, k, answer);
  }

  /** One poll for a new entry. */
  function ProcessNext(site: Site, name: string, maxAttempts: int, world: World): (Answer<Option<string>>, Site) {
    var (entry, broker) := XReadGroup(XGroupCreate(site.broker), name);
    if entry.None? then (Returned(None), site.(broker := broker))
    else Process(site.(broker := broker), entry.value, maxAttempts, world)
  }

  /** Claimed entries in order, until one raises; `worlds` says what each of them meets. */
  function HandleAll(site: Site, entries: seq<nat>, maxAttempts: int, worlds: nat -> World)
    : (r: (Answer<seq<string>>, Site))
    requires forall i :: 0 <= i < |entries| ==> entries[i] < |site.broker.stream|
    ensures r.1.broker.stream == site.broker.stream
    decreases |entries|
  {
    if entries == [] then (Returned([]), site)
    else
      var n := |entries| - 1;
      var (ids, site1) := HandleAll(site, entries[..n], maxAttempts, worlds);
      if ids.Raised? then (Raised, site1)
      else
        var (id, site2) := Process(site1, entries[n], maxAttempts, worlds(n));
        if id.Raised? then (Raised, site2)
        else (Returned(if id.value.Some? then ids.value + [id.value.value] else ids.value), site2)
  }

  lemma HandleAllStep(site: Site, page: seq<nat>, i: nat, maxAttempts: int, worlds: nat -> World)
    requires forall j :: 0 <= j < |page| ==> page[j] < |site.broker.stream|
    requires i < |page| && HandleAll(site, page[..i], maxAttempts, worlds).0.Returned?
    ensures
      var (ids, site1) := HandleAll(site, page[..i], maxAttempts, worlds);
      var (id, site2) := Process(site1, page[i], maxAttempts, worlds(i));
      HandleAll(site, page[..i + 1], maxAttempts, worlds) ==
      (if id.Raised? then Raised else Returned(if id.value.Some? then ids.value + [id.value.value] else ids.value),
          site2)
  {
    assert page[..i + 1][..i] == page[..i];
  }

  /** The job ids of entries, in order, as far as these jobs exist. */
  function JobIds(stream: seq<string>, known: set<string>, entries: seq<nat>): seq<string>
    requires forall i :: 0 <= i < |entries| ==> entries[i] < |stream|
  {
    if entries == [] then []
    else
      var n := |entries| - 1;
      JobIds(stream, known, entries[..n]) + (if stream[entries[n]] in known then [stream[entries[n]]] else [])
  }

  lemma ProcessReturns(site: Site, entry: nat, maxAttempts: int, world: World)
    requires entry < |site.broker.stream| && (forall id :: id in site.jobs ==> site.jobs[id].id == id)
    ensures
      var id := site.broker.stream[entry];
      var (r, site') := Process(site, entry, maxAttempts, world);
      && site'.jobs.Keys == site.jobs.Keys && (forall k :: k in site'.jobs ==> site'.jobs[k].id == k)
      && (r.Returned? ==> r.value == if id in site.jobs then Some(id) else None)
  {
  }

  /** Handling a page returns the ids of its jobs, in the order of the page. */
  lemma {:induction false} HandleAllReturns(site: Site, entries: seq<nat>, maxAttempts: int, worlds: nat -> World)
    requires forall i :: 0 <= i < |entries| ==> entries[i] < |site.broker.stream|
    requires forall id :: id in site.jobs ==> site.jobs[id].id == id
    ensures
      var (r, site') := HandleAll(site, entries, maxAttempts, worlds);
      && site'.jobs.Keys == site.jobs.Keys && (forall id :: id in site'.jobs ==> site'.jobs[id].id == id)
      && (r.Returned? ==> r.value == JobIds(site.broker.stream, site.jobs.Keys, entries))
    decreases |entries|
  {
    if entries != [] {
      var n := |entries| - 1;
      HandleAllReturns(site, entries[..n], maxAttempts, worlds);
      ProcessReturns(HandleAll(site, entries[..n], maxAttempts, worlds).1, entries[n], maxAttempts, worlds(n));
    }
  }

  /** Entry by entry, when all the jobs exist. */
  lemma {:induction false} JobIdsOfKnown(stream: seq<string>, known: set<string>, entries: seq<nat>)
    requires forall i :: 0 <= i < |entries| ==> entries[i] < |stream| && stream[entries[i]] in known
    ensures |JobIds(stream, known, entries)| == |entries|
    ensures forall i :: 0 <= i < |entries| ==> JobIds(stream, known, entries)[i] == stream[entries[i]]
  {
    if entries != [] { JobIdsOfKnown(stream, known, entries[..|entries| - 1]); }
  }

  function Reclaim(site: Site, name: string, page: seq<nat>, maxAttempts: int, worlds: nat -> World)
    : (Answer<seq<string>>, Site)
    requires forall i :: 0 <= i < |page| ==> page[i] < |site.broker.stream|
  {
    HandleAll(site.(broker := XAutoClaim(XGroupCreate(site.broker), name, page)), page, maxAttempts, worlds)
  }

  // ----- the consumer, in place -----

  class RecoveryQueueConsumer {
    const redis: RedisStream
    const repository: SqlJobRepository
    const name: string
    const maxAttempts: int

    constructor (redis: RedisStream, repository: SqlJobRepository, name: string, maxAttempts: int)
      ensures this.redis == redis && this.repository == repository
      ensures this.name == name && this.maxAttempts == maxAttempts
    {
      this.redis := redis;
      this.repository := repository;
      this.name := name;
      this.maxAttempts := maxAttempts;
    }

    ghost function Contents(): Site
      reads redis, repository.table
      requires repository.table.Valid()
    {
      Site(repository.table.Jobs(), redis.broker)
    }

    method ApplyFinalState(job: Job, final: RecoveryState, raises: bool) returns (r: Answer<()>)
      requires repository.table.Valid()
      modifies repository.table
      ensures repository.table.Valid()
      ensures r.Raised? <==> raises || job.id !in old(repository.table.rows)
      ensures r.Raised? ==> repository.table.rows == old(repository.table.rows)
      ensures r.Returned? ==>
                repository.table.Jobs() == Upsert(Columns, old(repository.table.Jobs()), Protocol.FinalJob(job, final))
      ensures r.Returned? ==>
                var row := old(repository.table.Jobs())[job.id];
                repository.table.Jobs() == old(repository.table.Jobs())[job.id :=
                  if final.finalStatus == Some(Recovered)
                  then row.(status := Success, result := final.recoveredData, failureReason := job.failureReason)
                  else row.(status := NeedsHumanReview, result := None, failureReason := None)]
    {
      var updated: Job;
      if final.finalStatus == Some(Recovered) {
        updated := job.(status := Success, result := final.recoveredData);
      } else {
        updated := Job(job.id, job.url, job.domain, job.requiredFields, NeedsHumanReview, None, None);
      }
      r := repository.Update(updated, raises);
    }

    method ProcessJob(jobId: string, entry: nat, world: World) returns (r: Answer<Option<string>>)
      requires repository.table.Valid()
      requires entry < |redis.broker.stream| && redis.broker.stream[entry] == jobId
      modifies repository.table, redis
      ensures repository.table.Valid()
      ensures (r, Contents()) == Process(old(Contents()), entry, maxAttempts, world)
      ensures r == Returned(Some(jobId)) ==>
                && jobId in old(repository.table.Jobs())
                && var job, row := old(repository.table.Jobs())[jobId], repository.table.Jobs()[jobId];
                   if row.status.Success?
                   then row.result.Some? && exists k, selectors ::
                          Wins(world, job, maxAttempts, k, selectors, row.result.value)
                   else row.result.None? && AllRejected(world, job, maxAttempts)
      ensures r == Returned(None) ==>
                && jobId !in old(repository.table.Jobs()) && repository.table.Jobs() == old(repository.table.Jobs())
                && redis.broker == XAck(old(redis.broker), entry)
    {
      ghost var before := Contents();
      if jobId in before.jobs { ProcessExactly(before, entry, maxAttempts, world); }
      var found := repository.Get(jobId, world.storage.GetRaises?);
      if found.Raised? { return Raised; }
      if found.value.None? {
        var dropped := redis.XAck(entry, world.storage.AckRaises?);
        return if dropped.Raised? then Raised else Returned(None);
      }
      var job := found.value.value;
      var final := Ainvoke(WorkerBacked(world), job, maxAttempts);
      if final.node.Stopped? { return Raised; }
      var updated := ApplyFinalState(job, final.state, world.storage.UpdateRaises?);
      if updated.Raised? { return Raised; }
      var acked := redis.XAck(entry, world.storage.AckRaises?);
      r := if acked.Raised? then Raised else Returned(Some(jobId));
    }

    method ProcessNextJob(world: World) returns (r: Answer<Option<string>>)
      requires repository.table.Valid()
      modifies repository.table, redis
      ensures repository.table.Valid()
      ensures (r, Contents()) == ProcessNext(old(Contents()), name, maxAttempts, world)
      ensures (if old(redis.broker.grouped) then old(redis.broker.cursor) >= |old(redis.broker.stream)|
               else old(redis.broker.stream) == []) ==>
                && r == Returned(None) && repository.table.rows == old(repository.table.rows)
                && redis.broker.stream == old(redis.broker.stream) && redis.broker.grouped
                && redis.broker.pel == old(redis.broker.pel) && redis.broker.acked == old(redis.broker.acked)
    {
      redis.XGroupCreate();
      var entry := redis.XReadGroup(name);
      if entry.None? { return Returned(None); }
      r := ProcessJob(redis.broker.stream[entry.value], entry.value, world);
    }

    /** `page` is what XAUTOCLAIM hands over. */
    method ReclaimStaleMessages(page: seq<nat>, worlds: nat -> World) returns (r: Answer<seq<string>>)
      requires repository.table.Valid()
      requires forall i :: 0 <= i < |page| ==> page[i] < |redis.broker.stream|
      modifies repository.table, redis
      ensures repository.table.Valid()
      ensures (r, Contents()) == Reclaim(old(Contents()), name, page, maxAttempts, worlds)
      ensures r.Returned? ==>
                r.value == JobIds(old(redis.broker.stream), old(repository.table.Jobs()).Keys, page)
    {
      redis.XGroupCreate();
      redis.XAutoClaim(name, page);
      ghost var claimed := Contents();
      var reclaimed: seq<string> := [];
      for i := 0 to |page|
        invariant repository.table.Valid()
        invariant redis.broker.stream == claimed.broker.stream
        invariant (Returned(reclaimed), Contents()) == HandleAll(claimed, page[..i], maxAttempts, worlds)
      {
        HandleAllStep(claimed, page, i, maxAttempts, worlds);
        var id := ProcessJob(redis.broker.stream[page[i]], page[i], worlds(i));
        if id.Raised? {
          HandleAllRaises(claimed, page, i + 1, maxAttempts, worlds);
          return Raised;
        }
        if id.value.Some? {
          reclaimed := reclaimed + [id.value.value];
        }
      }
      assert page[..|page|] == page;
      HandleAllReturns(claimed, page, maxAttempts, worlds);
      r := Returned(reclaimed);
    }
  }

  /** Once an entry has raised, the rest of the page is not handled. */
  lemma {:induction false} HandleAllRaises(site: Site, entries: seq<nat>, i: nat, maxAttempts: int,
      worlds: nat -> World)
    requires forall j :: 0 <= j < |entries| ==> entries[j] < |site.broker.stream|
    requires i <= |entries| && HandleAll(site, entries[..i], maxAttempts, worlds).0.Raised?
    ensures HandleAll(site, entries, maxAttempts, worlds) ==
            (Raised, HandleAll(site, entries[..i], maxAttempts, worlds).1)
    decreases |entries|
  {
    if i == |entries| {
      assert entries[..i] == entries;
    } else {
      var n := |entries| - 1;
      assert entries[..n][..i] == entries[..i];
      HandleAllRaises(site, entries[..n], i, maxAttempts, worlds);
    }
  }
}
