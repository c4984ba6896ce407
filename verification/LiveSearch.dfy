/** The recovery graph with the extraction worker behind it, in terms of what the proposer and
    the pages give: which attempt decides a run, and what a recovered run hands on. */
module LiveSearch {
  import opened Basics
  import opened Dicts
  import opened Validation
  import opened Jobs
  import opened ExtractionWorker
  import opened RecoveryGraph
  import opened GraphSearch
  import opened RecoveryServices

  /** Attempt `k` on its page, given the rejections of the attempts before it. */
  function OnPage(w: World, job: Job, k: nat, history: seq<Rejection>): GraphSearch.Attempt
    requires w.screenshot.Returned?
  {
    match w.propose(k, w.screenshot.value, FromKeys(job.requiredFields), history)
    case Raised => Breaks
    case Returned(proposal) =>
      if !proposal.isConfident then Rejects(NoConfidentProposal(k))
      else if w.pages(k).Raised? then Breaks
      else
        var data := ExtractedFields(w.pages(k).value, AsMap(proposal.selectors));
        var verdict := Validate(job.requiredFields, data);
        if verdict.isSuccess then Accepts(proposal.selectors, data)
        else Rejects(RejectedLive(k, proposal.selectors, verdict.failureReason))
  }

  /** The rejections of attempts 1..n, if all of them reject. */
  function PageRejections(w: World, job: Job, n: nat): Option<seq<Rejection>>
    requires w.screenshot.Returned?
  {
    if n == 0 then Some([])
    else
      var before := PageRejections(w, job, n - 1);
      if before.None? then None
      else
        var attempt := OnPage(w, job, n, before.value);
        if attempt.Rejects? then Some(before.value + [attempt.rejection]) else None
  }

  /** Attempt `k` is reached with this history, and this is what the proposer answers. */
  ghost predicate Proposed(w: World, job: Job, maxAttempts: int, k: nat, answer: Answer<Proposal>) {
    && w.screenshot.Returned?
    && 1 <= k <= Max(1, maxAttempts)
    && PageRejections(w, job, k - 1).Some?
    && answer ==
       w.propose(k, w.screenshot.value, FromKeys(job.requiredFields), PageRejections(w, job, k - 1).value)
  }

  /** Attempt `k` is the first one not rejected: its proposal gives text for every required
      field on its page, and every selector of it can be saved. */
  ghost predicate Wins(w: World, job: Job, maxAttempts: int, k: nat, selectors: Dict, data: Data) {
    && Proposed(w, job, maxAttempts, k, Returned(Proposal(true, selectors)))
    && w.pages(k).Returned?
    && data == ExtractedFields(w.pages(k).value, AsMap(selectors))
    && Covers(job.requiredFields, data)
    && forall i :: 0 <= i < |selectors| ==> !w.saveRaises(i)
  }

  /** No attempt within the bound is accepted, and none breaks. */
  ghost predicate AllRejected(w: World, job: Job, maxAttempts: int) {
    w.screenshot.Returned? && PageRejections(w, job, Max(1, maxAttempts)).Some?
  }

  lemma TryIsOnPage(w: World, job: Job, k: nat, history: seq<Rejection>)
    requires w.screenshot.Returned?
    ensures Try(WorkerBacked(w), job, k, history) == OnPage(w, job, k, history)
  {
    var schema := FromKeys(job.requiredFields);
    var answer := w.propose(k, w.screenshot.value, schema, history);
    if answer.Returned? && answer.value.isConfident {
      var selectors := answer.value.selectors;
      LiveValidationMeaning(w.pages(k), job.domain, schema, selectors);
      if w.pages(k).Returned? {
        var data := ExtractedFields(w.pages(k).value, AsMap(selectors));
        FromKeysKeepsVerdict(job.requiredFields, data);
        ValidateMeaning(job.requiredFields, data);
      }
    }
  }

  lemma {:induction false} RejectionsAreOnPages(w: World, job: Job, n: nat)
    requires w.screenshot.Returned?
    ensures Rejections(WorkerBacked(w), job, n) == PageRejections(w, job, n)
  {
    if n > 0 {
      RejectionsAreOnPages(w, job, n - 1);
      if PageRejections(w, job, n - 1).Some? { TryIsOnPage(w, job, n, PageRejections(w, job, n - 1).value); }
    }
  }

  /** The attempt comes to nothing without anything raising: no confident proposal, or one that
      misses a required field on its page. */
  ghost predicate Misses(w: World, job: Job, k: nat, answer: Answer<Proposal>) {
    && answer.Returned?
    && (answer.value.isConfident ==>
          && w.pages(k).Returned?
          && !Covers(job.requiredFields, ExtractedFields(w.pages(k).value, AsMap(answer.value.selectors))))
  }

  lemma OnPageRejects(w: World, job: Job, k: nat, history: seq<Rejection>)
    requires w.screenshot.Returned?
    ensures OnPage(w, job, k, history).Rejects? <==>
            Misses(w, job, k, w.propose(k, w.screenshot.value, FromKeys(job.requiredFields), history))
  {
    var answer := w.propose(k, w.screenshot.value, FromKeys(job.requiredFields), history);
    if answer.Returned? && answer.value.isConfident && w.pages(k).Returned? {
      ValidateMeaning(job.requiredFields, ExtractedFields(w.pages(k).value, AsMap(answer.value.selectors)));
    }
  }

  /** Every attempt is rejected exactly when each one that is reached misses. */
  lemma AllRejectedExactly(w: World, job: Job, maxAttempts: int)
    requires w.screenshot.Returned?
    ensures AllRejected(w, job, maxAttempts) <==>
            forall k: nat, answer :: Proposed(w, job, maxAttempts, k, answer) ==> Misses(w, job, k, answer)
  {
    var sv, bound := WorkerBacked(w), Max(1, maxAttempts);
    RejectionsAreOnPages(w, job, bound);
    if AllRejected(w, job, maxAttempts) {
      forall k: nat, answer | Proposed(w, job, maxAttempts, k, answer) ensures Misses(w, job, k, answer) {
        RejectionsPrefix(sv, job, k, bound);
        RejectionsAreOnPages(w, job, k);
        OnPageRejects(w, job, k, PageRejections(w, job, k - 1).value);
      }
    } else {
      SearchDecides(sv, job, bound);
      var k :| 1 <= k <= bound && Decides(sv, job, k);
      RejectionsAreOnPages(w, job, k - 1);
      var history := PageRejections(w, job, k - 1).value;
      TryIsOnPage(w, job, k, history);
      OnPageRejects(w, job, k, history);
      var answer := w.propose(k, w.screenshot.value, FromKeys(job.requiredFields), history);
      assert Proposed(w, job, maxAttempts, k, answer) && !Misses(w, job, k, answer);
    }
  }

  /** If the proposer raises at the attempt reached, or has a confident proposal whose page
      does not load, the run stops there with nothing saved. */
  lemma ServiceDownStops(w: World, job: Job, maxAttempts: int, k: nat, answer: Answer<Proposal>)
    requires Proposed(w, job, maxAttempts, k, answer)
    requires answer.Raised? || (answer.value.isConfident && w.pages(k).Raised?)
    ensures
      var final := Run(WorkerBacked(w), Start(job, maxAttempts));
      final.node == Stopped(ServiceError) && |final.shown| == k && final.saved == []
  {
    RejectionsAreOnPages(w, job, k - 1);
    TryIsOnPage(w, job, k, PageRejections(w, job, k - 1).value);
    BrokenRun(WorkerBacked(w), job, maxAttempts, k);
  }

  /** The winning attempt decides the run: it ends recovered with that attempt's selectors
      saved and its data as the recovered data. */
  lemma WinnerRecovers(w: World, job: Job, maxAttempts: int, k: nat, selectors: Dict, data: Data)
    requires Wins(w, job, maxAttempts, k, selectors, data)
    ensures
      var final := Run(WorkerBacked(w), Start(job, maxAttempts));
      && final.node.End? && final.state.finalStatus == Some(Recovered)
      && |final.shown| == k && final.saved == selectors && final.state.recoveredData == Some(data)
  {
    RejectionsAreOnPages(w, job, k - 1);
    TryIsOnPage(w, job, k, PageRejections(w, job, k - 1).value);
    ValidateMeaning(job.requiredFields, data);
    AcceptedRun(WorkerBacked(w), job, maxAttempts, k);
  }

  lemma OnPageAccepts(w: World, job: Job, k: nat, history: seq<Rejection>)
    requires w.screenshot.Returned? && OnPage(w, job, k, history).Accepts?
    ensures
      var accepted := OnPage(w, job, k, history);
      && w.propose(k, w.screenshot.value, FromKeys(job.requiredFields), history) ==
         Returned(Proposal(true, accepted.selectors))
      && w.pages(k).Returned?
      && accepted.data == ExtractedFields(w.pages(k).value, AsMap(accepted.selectors))
      && Covers(job.requiredFields, accepted.data)
  {
    ValidateMeaning(job.requiredFields, OnPage(w, job, k, history).data);
  }

  lemma SuccessWins(w: World, job: Job, maxAttempts: int, k: nat) returns (selectors: Dict, data: Data)
    requires w.screenshot.Returned? && 1 <= k <= Max(1, maxAttempts) && Succeeds(WorkerBacked(w), job, k)
    ensures Wins(w, job, maxAttempts, k, selectors, data)
  {
    RejectionsAreOnPages(w, job, k - 1);
    var history := PageRejections(w, job, k - 1).value;
    TryIsOnPage(w, job, k, history);
    OnPageAccepts(w, job, k, history);
    var accepted := OnPage(w, job, k, history);
    selectors, data := accepted.selectors, accepted.data;
  }

  /** A recovered run has a winning attempt. */
  lemma RecoveredHasWinner(w: World, job: Job, maxAttempts: int) returns (k: nat, selectors: Dict, data: Data)
    requires
      var final := Run(WorkerBacked(w), Start(job, maxAttempts));
      final.node.End? && final.state.finalStatus == Some(Recovered)
    ensures Wins(w, job, maxAttempts, k, selectors, data)
  {
    var sv := WorkerBacked(w);
    if w.screenshot.Raised? { NoScreenshotRun(sv, job, maxAttempts); }
    GraphIsFirstSuccessSearch(sv, job, maxAttempts);
    k :| 1 <= k <= Max(1, maxAttempts) && Succeeds(sv, job, k);
    selectors, data := SuccessWins(w, job, maxAttempts, k);
  }

  /** For any proposer, pages and saves: a run ends recovered exactly when some attempt wins, and
      then hands on what that attempt read; it ends for review exactly when every attempt within
      the bound is rejected; and in every other case it stops. */
  lemma LiveRunExactly(w: World, job: Job, maxAttempts: int)
    ensures
      var final := Run(WorkerBacked(w), Start(job, maxAttempts));
      && (final.node.End? && final.state.finalStatus == Some(Recovered) <==>
            exists k, selectors, data :: Wins(w, job, maxAttempts, k, selectors, data))
      && (forall k, selectors, data :: Wins(w, job, maxAttempts, k, selectors, data) ==>
            |final.shown| == k && final.saved == selectors && final.state.recoveredData == Some(data))
      && (final.node.End? && final.state.finalStatus == Some(HumanReview) <==> AllRejected(w, job, maxAttempts))
      && (final.node.End? ==>
            final.state.finalStatus == Some(Recovered) || final.state.finalStatus == Some(HumanReview))
      && (!final.node.End? ==> final.node == Stopped(ServiceError))
  {
    var final := Run(WorkerBacked(w), Start(job, maxAttempts));
    if final.node.End? && final.state.finalStatus == Some(Recovered) {
      var k, selectors, data := RecoveredHasWinner(w, job, maxAttempts);
    }
    forall k, selectors, data | Wins(w, job, maxAttempts, k, selectors, data)
      ensures final.node.End? && final.state.finalStatus == Some(Recovered)
      ensures |final.shown| == k && final.saved == selectors && final.state.recoveredData == Some(data)
    {
      WinnerRecovers(w, job, maxAttempts, k, selectors, data);
    }
    RunOutcome(WorkerBacked(w), job, maxAttempts);
    if final.node.End? {
      var status := final.state.finalStatus.value;
      assert status == Recovered || status == HumanReview;
    }
    if w.screenshot.Raised? {
      NoScreenshotRun(WorkerBacked(w), job, maxAttempts);
    } else {
      RejectionsAreOnPages(w, job, Max(1, maxAttempts));
      GraphIsFirstSuccessSearch(WorkerBacked(w), job, maxAttempts);
    }
  }
}
