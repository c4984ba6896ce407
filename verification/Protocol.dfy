/** The recovery protocol as a transition system: gateway requests and consumers, any
    number of each, interleaved step by step, each of which may stop between any two. */
module Protocol {
  import opened Basics
  import opened Jobs
  import opened GatewayDecision
  import JobTable
  import opened RecoveryStream
  import opened RecoveryGraph
  import opened RecoveryServices

  /** How far a gateway request has come, with its local job. */
  datatype Gateway =
    | Created(job: Job)
    | Saved(job: Job)
    | Applied(job: Job)
    | Resaved(job: Job)
    | Finished(job: Job)

  /** How far a consumer is with an entry; `rest` are claimed entries it has yet to handle.
      A consumer that is not in the state's map is idle. */
  datatype Consumer =
    | Handling(entry: nat, rest: seq<nat>)
    | Loaded(entry: nat, rest: seq<nat>, job: Job)
    | Decided(entry: nat, rest: seq<nat>, updated: Job)
    | Acking(entry: nat, rest: seq<nat>)

  /** Requests are named by the id of their job; `crashed` are those that take no more steps. */
  datatype State = State(
    jobs: map<string, Job>, broker: Broker,
    gateways: map<string, Gateway>, crashed: set<string>,
    consumers: map<nat, Consumer>)

  const INIT := State(map[], NO_STREAM, map[], {}, map[])

  datatype Action =
    | StartRequest(id: string, url: string, domain: string, requiredFields: seq<string>)
    | FirstSave(id: string)
    | CallWorker(id: string, call: WorkerCall)
    | SecondSave(id: string)
    | Enqueue(id: string)
    | CrashGateway(id: string)
    | EnsureGroup
    | ReadNew(consumer: nat, name: string)
    | Claim(consumer: nat, name: string, page: seq<nat>)
    | Load(consumer: nat)
    | RunGraph(consumer: nat, maxAttempts: int, world: World)
    | UpdateRow(consumer: nat)
    | Acknowledge(consumer: nat)
    | CrashConsumer(consumer: nat)

  /** The job a consumer writes for the final state of a run. */
  function FinalJob(job: Job, final: RecoveryState): Job {
    if final.finalStatus == Some(Recovered) then job.(status := Success, result := final.recoveredData)
    else Job(job.id, job.url, job.domain, job.requiredFields, NeedsHumanReview, None, None)
  }

  predicate Runs(s: State, id: string) {
    id in s.gateways && id !in s.crashed
  }

  // ----- steps of a gateway request -----

  /** Only what belongs to one request changed; entries may have been added. */
  ghost predicate OnlyRequest(s: State, s': State, id: string) {
    && s'.consumers == s.consumers
    && s.broker.stream <= s'.broker.stream
    && s'.broker == s.broker.(stream := s'.broker.stream)
    && s.crashed <= s'.crashed <= s.crashed + {id}
    && (forall k :: k != id ==> (k in s'.jobs <==> k in s.jobs) && (k in s.jobs ==> s'.jobs[k] == s.jobs[k]))
    && (forall k :: k != id ==>
        (k in s'.gateways <==> k in s.gateways) && (k in s.gateways ==> s'.gateways[k] == s.gateways[k]))
  }

  function DoStart(s: State, id: string, url: string, domain: string, fields: seq<string>): (s': State)
    ensures OnlyRequest(s, s', id)
  {
    if id in s.gateways then s
    else s.(gateways := s.gateways[id := Created(Job.Create(id, url, domain, fields))])
  }

  function DoFirstSave(mode: JobTable.WriteMode, s: State, id: string): State {
    if Runs(s, id) && s.gateways[id].Created? then
      var job := s.gateways[id].job;
      s.(jobs := JobTable.Upsert(mode, s.jobs, job), gateways := s.gateways[id := Saved(job)])
    else s
  }

  /** A failure reason that is missing ends the request like a crash. */
  function DoCall(s: State, id: string, call: WorkerCall): (s': State)
    ensures OnlyRequest(s, s', id)
  {
    if Runs(s, id) && s.gateways[id].Saved? then
      var job := s.gateways[id].job;
      var next := ApplyExtractionResult(job, Extract(WireOf(job.requiredFields, call)));
      if next.Raised? then s.(crashed := s.crashed + {id})
      else s.(gateways := s.gateways[id := Applied(next.value)])
    else s
  }

  function DoSecondSave(mode: JobTable.WriteMode, s: State, id: string): State {
    if Runs(s, id) && s.gateways[id].Applied? then
      var job := s.gateways[id].job;
      s.(jobs := JobTable.Upsert(mode, s.jobs, job), gateways := s.gateways[id := Resaved(job)])
    else s
  }

  function DoEnqueue(s: State, id: string): (s': State)
    ensures OnlyRequest(s, s', id)
  {
    if Runs(s, id) && s.gateways[id].Resaved? then
      var job := s.gateways[id].job;
      s.(broker := if job.status.RecoveryPending? then XAdd(s.broker, id) else s.broker,
         gateways := s.gateways[id := Finished(job)])
    else s
  }

  function DoCrashGateway(s: State, id: string): (s': State)
    ensures OnlyRequest(s, s', id)
  {
    if id in s.gateways then s.(crashed := s.crashed + {id}) else s
  }

  // ----- steps of a consumer -----

  /** Only delivery state and one consumer changed. */
  ghost predicate OnlyDelivery(s: State, s': State, t: nat) {
    && s'.jobs == s.jobs && s'.gateways == s.gateways && s'.crashed == s.crashed
    && s'.broker.stream == s.broker.stream && s.broker.cursor <= s'.broker.cursor && s.broker.acked <= s'.broker.acked
    && (forall u :: u != t ==>
          (u in s'.consumers <==> u in s.consumers) && (u in s.consumers ==> s'.consumers[u] == s.consumers[u]))
  }

  /** `XGROUP CREATE`; it touches no consumer. */
  function DoGroup(s: State): State {
    s.(broker := XGroupCreate(s.broker))
  }

  function DoRead(s: State, t: nat, name: string): (s': State)
    ensures OnlyDelivery(s, s', t)
  {
    var (entry, broker) := XReadGroup(s.broker, name);
    if t in s.consumers || entry.None? then s
    else s.(broker := broker, consumers := s.consumers[t := Handling(entry.value, [])])
  }

  ghost function DoClaim(s: State, t: nat, name: string, page: seq<nat>): (s': State)
    ensures OnlyDelivery(s, s', t)
  {
    if t in s.consumers || page == [] || !ClaimPage(s.broker, page) then s
    else s.(broker := XAutoClaim(s.broker, name, page), consumers := s.consumers[t := Handling(page[0], page[1..])])
  }

  function DoLoad(s: State, t: nat): (s': State)
    ensures OnlyDelivery(s, s', t)
  {
    if t in s.consumers && s.consumers[t].Handling? && s.consumers[t].entry < |s.broker.stream| then
      var c := s.consumers[t];
      var id := s.broker.stream[c.entry];
      s.(consumers := s.consumers[t := if id in s.jobs
          then Loaded(c.entry, c.rest, s.jobs[id]) else Acking(c.entry, c.rest)])
    else s
  }

  /** A run that raises leaves the consumer idle and the entry pending. */
  function DoRunGraph(s: State, t: nat, maxAttempts: int, world: World): (s': State)
    ensures OnlyDelivery(s, s', t)
  {
    if t in s.consumers && s.consumers[t].Loaded? then
      var c := s.consumers[t];
      var final := Run(WorkerBacked(world), Start(c.job, maxAttempts));
      if final.node.End? then
        s.(consumers := s.consumers[t := Decided(c.entry, c.rest, FinalJob(c.job, final.state))])
      else s.(consumers := s.consumers - {t})
    else s
  }

  function DoUpdate(mode: JobTable.WriteMode, s: State, t: nat): State {
    if t in s.consumers && s.consumers[t].Decided? then
      var c := s.consumers[t];
      if c.updated.id in s.jobs then
        s.(jobs := JobTable.Upsert(mode, s.jobs, c.updated), consumers := s.consumers[t := Acking(c.entry, c.rest)])
      else s.(consumers := s.consumers - {t})
    else s
  }

  /** After an acknowledgement: the next claimed entry, or idle. */
  function Proceed(consumers: map<nat, Consumer>, t: nat, rest: seq<nat>): map<nat, Consumer> {
    if rest == [] then consumers - {t} else consumers[t := Handling(rest[0], rest[1..])]
  }

  function DoAcknowledge(s: State, t: nat): (s': State)
    ensures OnlyDelivery(s, s', t)
  {
    if t in s.consumers && s.consumers[t].Acking? then
      var c := s.consumers[t];
      s.(broker := XAck(s.broker, c.entry), consumers := Proceed(s.consumers, t, c.rest))
    else s
  }

  function DoCrashConsumer(s: State, t: nat): (s': State)
    ensures OnlyDelivery(s, s', t)
  {
    s.(consumers := s.consumers - {t})
  }

  // ----- steps and runs -----

  /** One step; an action that is not enabled leaves the state as it is. */
  ghost function Step(mode: JobTable.WriteMode, s: State, a: Action): State {
    match a
    case StartRequest(id, url, domain, fields) => DoStart(s, id, url, domain, fields)
    case FirstSave(id) => DoFirstSave(mode, s, id)
    case CallWorker(id, call) => DoCall(s, id, call)
    case SecondSave(id) => DoSecondSave(mode, s, id)
    case Enqueue(id) => DoEnqueue(s, id)
    case CrashGateway(id) => DoCrashGateway(s, id)
    case EnsureGroup => DoGroup(s)
    case ReadNew(t, name) => DoRead(s, t, name)
    case Claim(t, name, page) => DoClaim(s, t, name, page)
    case Load(t) => DoLoad(s, t)
    case RunGraph(t, maxAttempts, world) => DoRunGraph(s, t, maxAttempts, world)
    case UpdateRow(t) => DoUpdate(mode, s, t)
    case Acknowledge(t) => DoAcknowledge(s, t)
    case CrashConsumer(t) => DoCrashConsumer(s, t)
  }

  ghost function RunAll(mode: JobTable.WriteMode, s: State, actions: seq<Action>): State
    decreases |actions|
  {
    if actions == [] then s else RunAll(mode, Step(mode, s, actions[0]), actions[1..])
  }
}
