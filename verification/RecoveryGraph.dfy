/** The recovery graph: its merged state, its nodes, its wiring, and running it. */
module RecoveryGraph {
  import opened Basics
  import opened Dicts
  import opened Validation
  import opened Jobs

  /** An entry of the rejection history (its text rendered from these parts). */
  datatype Rejection =
    | NoConfidentProposal(attempt: int)
    | RejectedLive(attempt: int, selectors: Dict, reason: Option<FailureReason>)

  datatype Verdict = NotValidated | Valid | Invalid

  datatype FinalStatus = Recovered | HumanReview

  datatype RecoveryState = RecoveryState(
    jobId: string, url: string, domain: string, expectedSchema: seq<string>,
    screenshot: Option<string>, attemptNumber: int, maxAttempts: int,
    proposedSelectors: Option<Dict>, recoveredData: Option<Data>,
    rejectionHistory: seq<Rejection>, validationResult: Verdict, finalStatus: Option<FinalStatus>)

  /** The partial dictionary a node returns: only the keys it mentions are merged. */
  datatype Update = Update(
    screenshot: Option<Option<string>>, proposedSelectors: Option<Option<Dict>>,
    recoveredData: Option<Option<Data>>, rejectionHistory: Option<seq<Rejection>>,
    attemptNumber: Option<int>, validationResult: Option<Verdict>, finalStatus: Option<Option<FinalStatus>>)

  const NOTHING := Update(None, None, None, None, None, None, None)

  function Or<T>(update: Option<T>, current: T): T {
    if update.Some? then update.value else current
  }

  function Merge(st: RecoveryState, u: Update): RecoveryState {
    st.(screenshot := Or(u.screenshot, st.screenshot),
        proposedSelectors := Or(u.proposedSelectors, st.proposedSelectors),
        recoveredData := Or(u.recoveredData, st.recoveredData),
        rejectionHistory := Or(u.rejectionHistory, st.rejectionHistory),
        attemptNumber := Or(u.attemptNumber, st.attemptNumber),
        validationResult := Or(u.validationResult, st.validationResult),
        finalStatus := Or(u.finalStatus, st.finalStatus))
  }

  // ----- the services behind the nodes: arbitrary, and possibly raising -----

  datatype Proposal = Proposal(isConfident: bool, selectors: Dict)

  datatype LiveResult = LiveResult(success: bool, data: Data, reason: Option<FailureReason>)

  /** The first argument of each call is its number, so answers may change over time. */
  datatype Services = Services(
    screenshot: Answer<string>,
    propose: (nat, string, seq<string>, seq<Rejection>) -> Answer<Proposal>,
    validate: (nat, string, string, seq<string>, Dict) -> Answer<LiveResult>,
    saveRaises: nat -> bool)

  // ----- nodes -----

  /** Why a node raised: a service did, or one of the two internal checks failed. */
  datatype Fault = ServiceError | NoScreenshot | NoSelectors

  datatype Effect = Updates(update: Update) | Fails(fault: Fault)

  function CaptureScreenshot(sv: Services): Effect {
    if sv.screenshot.Raised? then Fails(ServiceError)
    else Updates(NOTHING.(screenshot := Some(Some(sv.screenshot.value))))
  }

  function AnalyzeAndPropose(sv: Services, st: RecoveryState, call: nat): Effect {
    if st.screenshot.None? then Fails(NoScreenshot)
    else
      var proposal := sv.propose(call, st.screenshot.value, st.expectedSchema, st.rejectionHistory);
      if proposal.Raised? then Fails(ServiceError)
      else if !proposal.value.isConfident then Updates(NOTHING.(proposedSelectors := Some(None)))
      else Updates(NOTHING.(proposedSelectors := Some(Some(proposal.value.selectors))))
  }

  function ValidateSelectorsLive(sv: Services, st: RecoveryState, call: nat): Effect {
    if st.proposedSelectors.None? then Fails(NoSelectors)
    else
      var selectors := st.proposedSelectors.value;
      var result := sv.validate(call, st.url, st.domain, st.expectedSchema, selectors);
      if result.Raised? then Fails(ServiceError)
      else if result.value.success then
        Updates(NOTHING.(validationResult := Some(Valid), recoveredData := Some(Some(result.value.data))))
      else
        Updates(NOTHING.(
          validationResult := Some(Invalid),
          rejectionHistory := Some(st.rejectionHistory + [RejectedLive(st.attemptNumber, selectors,
              result.value.reason)]),
          proposedSelectors := Some(None),
          attemptNumber := Some(st.attemptNumber + 1)))
  }

  function HandleNoConfidentProposal(st: RecoveryState): Effect {
    Updates(NOTHING.(
      validationResult := Some(Invalid),
      rejectionHistory := Some(st.rejectionHistory + [NoConfidentProposal(st.attemptNumber)]),
      attemptNumber := Some(st.attemptNumber + 1)))
  }

  /** How many of the first `n` saves go through before one raises. */
  function SavesThrough(sv: Services, i: nat, n: nat): nat
    requires i <= n
    decreases n - i
  {
    if i == n || sv.saveRaises(i) then i else SavesThrough(sv, i + 1, n)
  }

  function PersistSelector(sv: Services, st: RecoveryState): (Effect, seq<(string, string)>) {
    if st.proposedSelectors.None? then (Fails(NoSelectors), [])
    else
      var selectors := st.proposedSelectors.value;
      var through := SavesThrough(sv, 0, |selectors|);
      SavesThroughBounds(sv, 0, |selectors|);
      if through < |selectors| then (Fails(ServiceError), selectors[..through])
      else (Updates(NOTHING.(finalStatus := Some(Some(Recovered)))), selectors)
  }

  lemma SavesThroughBounds(sv: Services, i: nat, n: nat)
    requires i <= n
    ensures i <= SavesThrough(sv, i, n) <= n
    ensures SavesThrough(sv, i, n) == n <==> forall j :: i <= j < n ==> !sv.saveRaises(j)
    ensures forall j :: i <= j < SavesThrough(sv, i, n) ==> !sv.saveRaises(j)
    ensures SavesThrough(sv, i, n) < n ==> sv.saveRaises(SavesThrough(sv, i, n))
    decreases n - i
  {
    if i < n && !sv.saveRaises(i) { SavesThroughBounds(sv, i + 1, n); }
  }

  function EscalateHuman(): Effect {
    Updates(NOTHING.(finalStatus := Some(Some(HumanReview))))
  }

  // ----- wiring -----

  datatype Node =
    | Capture | Analyze | ValidateLive | HandleUnconfident | Persist | Escalate
    | End | Stopped(fault: Fault)

  function RouteAfterProposal(st: RecoveryState): Node {
    if st.proposedSelectors.None? then HandleUnconfident else ValidateLive
  }

  function DecideNextStep(st: RecoveryState): Node {
    if st.validationResult.Valid? then Persist
    else if st.attemptNumber <= st.maxAttempts then Analyze
    else Escalate
  }

  /** The edge taken out of a node, given the merged state. */
  function Next(node: Node, st: RecoveryState): Node {
    match node
    case Capture => Analyze
    case Analyze => RouteAfterProposal(st)
    case ValidateLive => DecideNextStep(st)
    case HandleUnconfident => DecideNextStep(st)
    case Persist => End
    case Escalate => End
    case End => End
    case Stopped(fault) => Stopped(fault)
  }

  // ----- running -----

  /** A node boundary: the node to visit next and the merged state, with what happened so
      far: nodes visited, histories the proposer was shown, selectors saved. */
  datatype Boundary = Boundary(
    node: Node, state: RecoveryState, visited: seq<Node>, shown: seq<seq<Rejection>>, saved: seq<(string, string)>)
  {
    predicate Halted() {
      node.End? || node.Stopped?
    }

    function After(effect: Effect): Boundary {
      var st := if effect.Updates? then Merge(state, effect.update) else state;
      this.(node := if effect.Updates? then Next(node, st) else Stopped(effect.fault),
            state := st,
            visited := visited + [node])
    }
  }

  function Visit(sv: Services, b: Boundary): Boundary {
    match b.node
    case Capture => b.After(CaptureScreenshot(sv))
    case Analyze =>
      b.After(AnalyzeAndPropose(sv, b.state, |b.shown| + 1)).(
        shown := if b.state.screenshot.None? then b.shown else b.shown + [b.state.rejectionHistory])
    case ValidateLive => b.After(ValidateSelectorsLive(sv, b.state, |b.shown|))
    case HandleUnconfident => b.After(HandleNoConfidentProposal(b.state))
    case Persist =>
      var (effect, saved) := PersistSelector(sv, b.state);
      b.After(effect).(saved := b.saved + saved)
    case Escalate => b.After(EscalateHuman())
    case _ => b
  }

  function AttemptsLeft(st: RecoveryState): nat {
    Max(0, st.maxAttempts - st.attemptNumber + 1)
  }

  function Rank(node: Node): nat {
    match node
    case Capture => 4
    case Analyze => 3
    case ValidateLive => 2
    case HandleUnconfident => 2
    case Persist => 1
    case Escalate => 1
    case _ => 0
  }

  /** The graph run to its end: it always ends, whatever the services answer. */
  function Run(sv: Services, b: Boundary): Boundary
    decreases AttemptsLeft(b.state), Rank(b.node)
  {
    if b.Halted() then b else Run(sv, Visit(sv, b))
  }

  lemma RunGoesOn(sv: Services, b: Boundary)
    requires !b.Halted()
    ensures Run(sv, b) == Run(sv, Visit(sv, b))
    ensures (AttemptsLeft(b.state), Rank(b.node) decreases to AttemptsLeft(Visit(sv, b).state), Rank(Visit(sv, b).node))
  {
  }

  /** The boundary after `n` visits. */
  function Iterate(sv: Services, b: Boundary, n: nat): Boundary {
    if n == 0 then b else Visit(sv, Iterate(sv, b, n - 1))
  }

  function BuildInitialState(job: Job, maxAttempts: int): RecoveryState {
    RecoveryState(job.id, job.url, job.domain, FromKeys(job.requiredFields),
                  None, 1, maxAttempts, None, None, [], NotValidated, None)
  }

  function Start(job: Job, maxAttempts: int): Boundary {
    Boundary(Capture, BuildInitialState(job, maxAttempts), [], [], [])
  }

  method Ainvoke(sv: Services, job: Job, maxAttempts: int) returns (final: Boundary)
    ensures final == Run(sv, Start(job, maxAttempts))
    ensures final.Halted()
  {
    final := Start(job, maxAttempts);
    while !final.Halted()
      invariant Run(sv, final) == Run(sv, Start(job, maxAttempts))
      decreases AttemptsLeft(final.state), Rank(final.node)
    {
      RunGoesOn(sv, final);
      final := Visit(sv, final);
    }
  }

  // ----- what holds at every node boundary of every run -----

  /** The last live validation accepted the proposed selectors and gave the recovered data. */
  ghost predicate Accepted(sv: Services, b: Boundary) {
    var st := b.state;
    && st.proposedSelectors.Some? && st.recoveredData.Some?
    && var answer := sv.validate(|b.shown|, st.url, st.domain, st.expectedSchema, st.proposedSelectors.value);
       answer.Returned? && answer.value.success && answer.value.data == st.recoveredData.value
  }

  /** Nothing in a run touches the identifying keys. */
  predicate SameInputs(a: RecoveryState, b: RecoveryState) {
    a.jobId == b.jobId && a.url == b.url && a.domain == b.domain
    && a.expectedSchema == b.expectedSchema && a.maxAttempts == b.maxAttempts
  }

  /** One rejection per finished attempt, labelled with it; the k-th proposal was shown
      exactly the first k - 1 of them. */
  ghost predicate Bookkept(b: Boundary) {
    var history := b.state.rejectionHistory;
    && 1 <= b.state.attemptNumber == |history| + 1
    && (forall i :: 0 <= i < |history| ==> history[i].attempt == i + 1)
    && |history| <= |b.shown| <= |history| + 1
    && (forall k :: 0 <= k < |b.shown| ==> b.shown[k] == history[..k])
  }

  ghost predicate NodeOk(sv: Services, b: Boundary) {
    var st := b.state;
    var bound := Max(1, st.maxAttempts);
    match b.node
    case Capture => b.shown == [] && b.saved == [] && st.validationResult.NotValidated? && st.attemptNumber == 1
    case Analyze =>
      && st.screenshot.Some? && |b.shown| == st.attemptNumber - 1 && st.attemptNumber <= bound
      && b.saved == [] && !st.validationResult.Valid?
    case ValidateLive =>
      && st.proposedSelectors.Some? && |b.shown| == st.attemptNumber <= bound
      && b.saved == [] && !st.validationResult.Valid? && st.screenshot.Some?
    case HandleUnconfident =>
      && st.proposedSelectors.None? && |b.shown| == st.attemptNumber <= bound
      && b.saved == [] && !st.validationResult.Valid? && st.screenshot.Some?
    case Persist => |b.shown| == st.attemptNumber <= bound && b.saved == [] && Accepted(sv, b)
    case Escalate => |b.shown| == st.attemptNumber - 1 == bound && b.saved == []
    case End =>
      if st.finalStatus == Some(Recovered) then
        |b.shown| == st.attemptNumber <= bound && Accepted(sv, b) && b.saved == st.proposedSelectors.value
      else
        st.finalStatus == Some(HumanReview) && b.saved == [] && |b.shown| == st.attemptNumber - 1 == bound
    case Stopped(fault) => fault == ServiceError && |b.shown| <= bound
  }

  ghost predicate BoundaryOk(sv: Services, initial: RecoveryState, b: Boundary) {
    && SameInputs(initial, b.state)
    && Bookkept(b)
    && NodeOk(sv, b)
    && (!b.Halted() ==> b.state.finalStatus.None?)
  }

  lemma AnalyzeKeepsBoundaryOk(sv: Services, initial: RecoveryState, b: Boundary)
    requires BoundaryOk(sv, initial, b) && b.node.Analyze?
    ensures BoundaryOk(sv, initial, Visit(sv, b))
  {
    var h := b.state.rejectionHistory;
    var b' := Visit(sv, b);
    assert h == h[..|h|];
    assert b'.state.rejectionHistory == h;
    assert Bookkept(b');
  }

  /** A rejected attempt adds its own entry and nothing else. */
  lemma RejectionKeepsBookkept(b: Boundary, b': Boundary, r: Rejection)
    requires Bookkept(b) && |b.shown| == b.state.attemptNumber && r.attempt == b.state.attemptNumber
    requires b'.shown == b.shown && b'.state.attemptNumber == b.state.attemptNumber + 1
    requires b'.state.rejectionHistory == b.state.rejectionHistory + [r]
    ensures Bookkept(b')
  {
    var h, h' := b.state.rejectionHistory, b'.state.rejectionHistory;
    forall k | 0 <= k < |b'.shown| ensures b'.shown[k] == h'[..k] {
      assert b.shown[k] == h[..k] == h'[..k];
    }
  }

  lemma ValidateKeepsBoundaryOk(sv: Services, initial: RecoveryState, b: Boundary)
    requires BoundaryOk(sv, initial, b) && b.node.ValidateLive?
    ensures BoundaryOk(sv, initial, Visit(sv, b))
  {
    var st := b.state;
    var selectors := st.proposedSelectors.value;
    var answer := sv.validate(|b.shown|, st.url, st.domain, st.expectedSchema, selectors);
    var b' := Visit(sv, b);
    if answer.Returned? && !answer.value.success {
      RejectionKeepsBookkept(b, b', RejectedLive(st.attemptNumber, selectors, answer.value.reason));
      assert NodeOk(sv, b');
    } else {
      assert b'.state.rejectionHistory == st.rejectionHistory;
      assert Bookkept(b');
    }
  }

  lemma HandleKeepsBoundaryOk(sv: Services, initial: RecoveryState, b: Boundary)
    requires BoundaryOk(sv, initial, b) && b.node.HandleUnconfident?
    ensures BoundaryOk(sv, initial, Visit(sv, b))
  {
    RejectionKeepsBookkept(b, Visit(sv, b), NoConfidentProposal(b.state.attemptNumber));
  }

  lemma FinalNodesKeepBoundaryOk(sv: Services, initial: RecoveryState, b: Boundary)
    requires BoundaryOk(sv, initial, b) && (b.node.Persist? || b.node.Escalate? || b.node.Capture?)
    ensures BoundaryOk(sv, initial, Visit(sv, b))
  {
    var b' := Visit(sv, b);
    assert b'.state.rejectionHistory == b.state.rejectionHistory;
    assert Bookkept(b');
    if b.node.Persist? { SavesThroughBounds(sv, 0, |b.state.proposedSelectors.value|); }
  }

  lemma VisitKeepsBoundaryOk(sv: Services, initial: RecoveryState, b: Boundary)
    requires BoundaryOk(sv, initial, b)
    ensures BoundaryOk(sv, initial, Visit(sv, b))
  {
    match b.node
    case Analyze => AnalyzeKeepsBoundaryOk(sv, initial, b);
    case ValidateLive => ValidateKeepsBoundaryOk(sv, initial, b);
    case HandleUnconfident => HandleKeepsBoundaryOk(sv, initial, b);
    case End =>
    case Stopped(_) =>
    case _ => FinalNodesKeepBoundaryOk(sv, initial, b);
  }

  /** At every node boundary of every run: the bookkeeping is exact, proposals stay within
      the bound, and neither internal check can fail. */
  lemma {:induction false} EveryBoundaryOk(sv: Services, job: Job, maxAttempts: int, n: nat)
    ensures BoundaryOk(sv, BuildInitialState(job, maxAttempts), Iterate(sv, Start(job, maxAttempts), n))
  {
    if n > 0 {
      EveryBoundaryOk(sv, job, maxAttempts, n - 1);
      VisitKeepsBoundaryOk(sv, BuildInitialState(job, maxAttempts), Iterate(sv, Start(job, maxAttempts), n - 1));
    }
  }

  lemma {:induction false} RunKeepsBoundaryOk(sv: Services, initial: RecoveryState, b: Boundary)
    requires BoundaryOk(sv, initial, b)
    ensures BoundaryOk(sv, initial, Run(sv, b)) && Run(sv, b).Halted()
    decreases AttemptsLeft(b.state), Rank(b.node)
  {
    if !b.Halted() {
      VisitKeepsBoundaryOk(sv, initial, b);
      RunKeepsBoundaryOk(sv, initial, Visit(sv, b));
    }
  }

  /** A run ends recovered, for review, or stopped by a service: in the first case exactly
      the selectors the last live validation accepted are saved, in the second none. */
  lemma RunOutcome(sv: Services, job: Job, maxAttempts: int)
    ensures
      var b := Run(sv, Start(job, maxAttempts));
      && b.state.jobId == job.id && b.state.url == job.url && b.state.domain == job.domain
      && b.state.expectedSchema == FromKeys(job.requiredFields) && b.state.maxAttempts == maxAttempts
      && (b.node.End? || b.node == Stopped(ServiceError))
      && (b.node.End? ==> b.state.finalStatus.Some?)
      && (b.node.End? && b.state.finalStatus == Some(Recovered) ==>
            Accepted(sv, b) && b.saved == b.state.proposedSelectors.value)
      && (b.node.End? && b.state.finalStatus == Some(HumanReview) ==> b.saved == [])
      && |b.shown| <= Max(1, maxAttempts)
  {
    RunKeepsBoundaryOk(sv, BuildInitialState(job, maxAttempts), Start(job, maxAttempts));
  }
}
