/** The recovery graph is a bounded first-success search.  The search is defined here
    without nodes, edges or merged state. */
module GraphSearch {
  import opened Basics
  import opened Dicts
  import opened Validation
  import opened Jobs
  import opened RecoveryGraph

  /** What one attempt amounts to. */
  datatype Attempt =
    | Accepts(selectors: Dict, data: Data)
    | Rejects(rejection: Rejection)
    | Breaks

  /** Attempt `k`, given the rejections of the attempts before it. */
  function Try(sv: Services, job: Job, k: nat, history: seq<Rejection>): Attempt
    requires sv.screenshot.Returned?
  {
    var schema := FromKeys(job.requiredFields);
    match sv.propose(k, sv.screenshot.value, schema, history)
    case Raised => Breaks
    case Returned(proposal) =>
      if !proposal.isConfident then Rejects(NoConfidentProposal(k))
      else
        match sv.validate(k, job.url, job.domain, schema, proposal.selectors)
        case Raised => Breaks
        case Returned(result) =>
          if result.success then Accepts(proposal.selectors, result.data)
          else Rejects(RejectedLive(k, proposal.selectors, result.reason))
  }

  /** The rejections of attempts 1..n, if all of them reject. */
  function Rejections(sv: Services, job: Job, n: nat): Option<seq<Rejection>>
    requires sv.screenshot.Returned?
  {
    if n == 0 then Some([])
    else
      var before := Rejections(sv, job, n - 1);
      if before.None? then None
      else
        var attempt := Try(sv, job, n, before.value);
        if attempt.Rejects? then Some(before.value + [attempt.rejection]) else None
  }

  /** Attempt `k` is reached and is not a rejection: the search is over there. */
  ghost predicate Decides(sv: Services, job: Job, k: nat)
    requires sv.screenshot.Returned?
  {
    && 1 <= k
    && Rejections(sv, job, k - 1).Some?
    && !Try(sv, job, k, Rejections(sv, job, k - 1).value).Rejects?
  }

  lemma {:induction false} RejectionsPrefix(sv: Services, job: Job, i: nat, n: nat)
    requires sv.screenshot.Returned? && i <= n && Rejections(sv, job, n).Some?
    ensures Rejections(sv, job, i).Some?
    ensures |Rejections(sv, job, n).value| == n
    ensures Rejections(sv, job, i).value == Rejections(sv, job, n).value[..i]
  {
    if n > 0 {
      RejectionsPrefix(sv, job, if i == n then n - 1 else i, n - 1);
    }
  }

  /** Within any bound the search is decided at one attempt only, or every attempt rejects. */
  lemma {:induction false} SearchDecides(sv: Services, job: Job, bound: nat)
    requires sv.screenshot.Returned?
    ensures Rejections(sv, job, bound).None? <==> exists k :: 1 <= k <= bound && Decides(sv, job, k)
    ensures forall j, k :: 1 <= j <= bound && 1 <= k <= bound && Decides(sv, job, j) && Decides(sv, job, k) ==> j == k
  {
    if bound > 0 {
      SearchDecides(sv, job, bound - 1);
      if Rejections(sv, job, bound).None? && Rejections(sv, job, bound - 1).Some? {
        assert Decides(sv, job, bound);
      }
      if Decides(sv, job, bound) { assert Rejections(sv, job, bound - 1).Some?; }
      if k :| 1 <= k <= bound && Decides(sv, job, k) {
        if k < bound { assert Rejections(sv, job, bound - 1).None?; }
      }
    }
  }

  /** The merged state when attempt `k` is about to be proposed. */
  ghost predicate AtAttempt(sv: Services, job: Job, maxAttempts: int, k: nat, b: Boundary)
    requires sv.screenshot.Returned?
  {
    var st := b.state;
    && b.node.Analyze? && 1 <= k
    && Rejections(sv, job, k - 1).Some?
    && st.rejectionHistory == Rejections(sv, job, k - 1).value
    && st.attemptNumber == k && st.maxAttempts == maxAttempts
    && st.screenshot == Some(sv.screenshot.value)
    && st.url == job.url && st.domain == job.domain && st.expectedSchema == FromKeys(job.requiredFields)
    && !st.validationResult.Valid? && st.proposedSelectors.None?
    && |b.visited| == 2 * k - 1 && |b.shown| == k - 1 && b.saved == []
  }

  /** The merged state after attempt `k` was rejected: at the next attempt, or to be escalated. */
  ghost predicate AfterRejection(sv: Services, job: Job, maxAttempts: int, k: nat, rejection: Rejection, b: Boundary)
    requires sv.screenshot.Returned? && 1 <= k && Rejections(sv, job, k - 1).Some?
  {
    && (k < maxAttempts ==> AtAttempt(sv, job, maxAttempts, k + 1, b))
    && (k >= maxAttempts ==> b.node.Escalate?)
    && b.state.rejectionHistory == Rejections(sv, job, k - 1).value + [rejection]
    && b.state.validationResult.Invalid? && b.state.proposedSelectors.None? && b.state.attemptNumber == k + 1
    && |b.visited| == 2 * k + 1 && |b.shown| == k && b.saved == []
  }

  lemma RejectedAttempt(sv: Services, job: Job, maxAttempts: int, k: nat, b: Boundary)
    requires sv.screenshot.Returned? && AtAttempt(sv, job, maxAttempts, k, b)
    requires Try(sv, job, k, Rejections(sv, job, k - 1).value).Rejects?
    ensures
      var attempt := Try(sv, job, k, Rejections(sv, job, k - 1).value);
      var b1 := Visit(sv, b);
      !b1.Halted() && AfterRejection(sv, job, maxAttempts, k, attempt.rejection, Visit(sv, b1))
  {
  }

  /** From attempt `k`, two visits later: after an accepted, a rejected, or a broken one. */
  lemma OneAttempt(sv: Services, job: Job, maxAttempts: int, k: nat, b: Boundary)
    requires sv.screenshot.Returned? && AtAttempt(sv, job, maxAttempts, k, b)
    ensures
      var attempt := Try(sv, job, k, Rejections(sv, job, k - 1).value);
      var b1 := Visit(sv, b);
      var b2 := Visit(sv, b1);
      match attempt
      case Rejects(_) => !b1.Halted() && AfterRejection(sv, job, maxAttempts, k, attempt.rejection, b2)
      case Accepts(selectors, data) =>
        && !b1.Halted() && b2.node.Persist?
        && b2.state.proposedSelectors == Some(selectors) && b2.state.recoveredData == Some(data)
        && |b2.visited| == 2 * k + 1 && |b2.shown| == k && b2.saved == []
      case Breaks =>
        && (b1.node == Stopped(ServiceError) || (!b1.Halted() && b2.node == Stopped(ServiceError)))
        && |b1.shown| == k && b1.saved == [] && b2.saved == [] && |b2.shown| == k
  {
    if Try(sv, job, k, Rejections(sv, job, k - 1).value).Rejects? { RejectedAttempt(sv, job, maxAttempts, k, b); }
  }

  lemma FirstAttempt(sv: Services, job: Job, maxAttempts: int)
    requires sv.screenshot.Returned?
    ensures AtAttempt(sv, job, maxAttempts, 1, Visit(sv, Start(job, maxAttempts)))
  {
  }

  lemma TwoVisits(sv: Services, b: Boundary)
    requires !b.Halted() && !Visit(sv, b).Halted()
    ensures Run(sv, b) == Run(sv, Visit(sv, Visit(sv, b)))
  {
    RunGoesOn(sv, b);
    RunGoesOn(sv, Visit(sv, b));
  }

  /** As long as attempts reject, the run arrives at the next one, up to the bound. */
  lemma {:induction false} Arrive(sv: Services, job: Job, maxAttempts: int, k: nat) returns (b: Boundary)
    requires sv.screenshot.Returned? && 1 <= k <= Max(1, maxAttempts) && Rejections(sv, job, k - 1).Some?
    ensures AtAttempt(sv, job, maxAttempts, k, b)
    ensures Run(sv, Start(job, maxAttempts)) == Run(sv, b)
  {
    if k == 1 {
      FirstAttempt(sv, job, maxAttempts);
      RunGoesOn(sv, Start(job, maxAttempts));
      b := Visit(sv, Start(job, maxAttempts));
    } else {
      var b0 := Arrive(sv, job, maxAttempts, k - 1);
      RejectedAttempt(sv, job, maxAttempts, k - 1, b0);
      TwoVisits(sv, b0);
      b := Visit(sv, Visit(sv, b0));
    }
  }

  /** The closed form of a decided search at attempt `k`, with its exact length. */
  lemma AcceptedRun(sv: Services, job: Job, maxAttempts: int, k: nat)
    requires sv.screenshot.Returned? && 1 <= k <= Max(1, maxAttempts) && Decides(sv, job, k)
    requires Try(sv, job, k, Rejections(sv, job, k - 1).value).Accepts?
    ensures
      var accepted := Try(sv, job, k, Rejections(sv, job, k - 1).value);
      var final := Run(sv, Start(job, maxAttempts));
      && |final.visited| == 2 * k + 2 && |final.shown| == k
      && final.state.recoveredData == Some(accepted.data)
      && final.saved <= accepted.selectors
      && (final.node.End? <==> forall i :: 0 <= i < |accepted.selectors| ==> !sv.saveRaises(i))
      && (final.node.End? ==> final.state.finalStatus == Some(Recovered) && final.saved == accepted.selectors)
      && (!final.node.End? ==> final.node == Stopped(ServiceError) && |final.saved| < |accepted.selectors|)
      && (!final.node.End? ==> sv.saveRaises(|final.saved|))
      && (forall i :: 0 <= i < |final.saved| ==> !sv.saveRaises(i))
  {
    var b := Arrive(sv, job, maxAttempts, k);
    OneAttempt(sv, job, maxAttempts, k, b);
    var b2 := Visit(sv, Visit(sv, b));
    var b3 := Visit(sv, b2);
    SavesThroughBounds(sv, 0, |b2.state.proposedSelectors.value|);
    assert b3.Halted();
    assert Run(sv, b3) == b3;
    assert Run(sv, b2) == b3;
  }

  lemma BrokenRun(sv: Services, job: Job, maxAttempts: int, k: nat)
    requires sv.screenshot.Returned? && 1 <= k <= Max(1, maxAttempts) && Decides(sv, job, k)
    requires Try(sv, job, k, Rejections(sv, job, k - 1).value).Breaks?
    ensures
      var final := Run(sv, Start(job, maxAttempts));
      final.node == Stopped(ServiceError) && |final.shown| == k && final.saved == []
  {
    var b := Arrive(sv, job, maxAttempts, k);
    OneAttempt(sv, job, maxAttempts, k, b);
    var b1 := Visit(sv, b);
    var b2 := Visit(sv, b1);
    assert Run(sv, b) == Run(sv, b1);
    if b1.Halted() { assert Run(sv, b1) == b1; } else { assert Run(sv, b2) == b2; }
  }

  lemma ExhaustedRun(sv: Services, job: Job, maxAttempts: int)
    requires sv.screenshot.Returned? && Rejections(sv, job, Max(1, maxAttempts)).Some?
    ensures
      var bound := Max(1, maxAttempts);
      var final := Run(sv, Start(job, maxAttempts));
      && final.node.End? && final.state.finalStatus == Some(HumanReview)
      && |final.visited| == 2 * bound + 2 && |final.shown| == bound
      && final.saved == []
      && final.state.rejectionHistory == Rejections(sv, job, bound).value
  {
    var bound := Max(1, maxAttempts);
    RejectionsPrefix(sv, job, bound - 1, bound);
    var b := Arrive(sv, job, maxAttempts, bound);
    OneAttempt(sv, job, maxAttempts, bound, b);
    var b2 := Visit(sv, Visit(sv, b));
    var b3 := Visit(sv, b2);
    assert Run(sv, b3) == b3;
    assert Run(sv, b2) == b3;
  }

  /** Attempt `k` decides the search with an acceptance all of whose selectors can be saved. */
  ghost predicate Succeeds(sv: Services, job: Job, k: nat)
    requires sv.screenshot.Returned?
  {
    && Decides(sv, job, k)
    && var attempt := Try(sv, job, k, Rejections(sv, job, k - 1).value);
       attempt.Accepts? && forall i :: 0 <= i < |attempt.selectors| ==> !sv.saveRaises(i)
  }

  /** How a run decided at attempt `k` ends. */
  lemma DecidedRun(sv: Services, job: Job, maxAttempts: int, k: nat)
    requires sv.screenshot.Returned? && 1 <= k <= Max(1, maxAttempts) && Decides(sv, job, k)
    ensures
      var final := Run(sv, Start(job, maxAttempts));
      && |final.shown| == k
      && (final.node.End? <==> Succeeds(sv, job, k))
      && (final.node.End? ==> final.state.finalStatus == Some(Recovered) && |final.visited| == 2 * k + 2)
  {
    var attempt := Try(sv, job, k, Rejections(sv, job, k - 1).value);
    if attempt.Accepts? { AcceptedRun(sv, job, maxAttempts, k); } else { BrokenRun(sv, job, maxAttempts, k); }
  }

  /** For any services, a run that captures its screenshot ends recovered exactly when some
      attempt within max(1, maxAttempts) is accepted while all earlier ones are rejected and
      no save raises; it ends for review exactly when every attempt within the bound is
      rejected.  Stopping after `k` attempts takes 2k + 2 visits. */
  lemma GraphIsFirstSuccessSearch(sv: Services, job: Job, maxAttempts: int)
    requires sv.screenshot.Returned?
    ensures
      var bound := Max(1, maxAttempts);
      var final := Run(sv, Start(job, maxAttempts));
      && (final.node.End? && final.state.finalStatus == Some(Recovered) <==>
            exists k :: 1 <= k <= bound && Succeeds(sv, job, k))
      && (final.node.End? && final.state.finalStatus == Some(HumanReview) <==> Rejections(sv, job, bound).Some?)
      && (final.node.End? ==> |final.visited| == 2 * |final.shown| + 2)
      && (final.node.End? ==> 1 <= |final.shown| <= bound)
  {
    var bound := Max(1, maxAttempts);
    SearchDecides(sv, job, bound);
    if Rejections(sv, job, bound).Some? {
      ExhaustedRun(sv, job, maxAttempts);
    } else {
      var k :| 1 <= k <= bound && Decides(sv, job, k);
      DecidedRun(sv, job, maxAttempts, k);
    }
  }

  /** Without a screenshot the run stops at once. */
  lemma NoScreenshotRun(sv: Services, job: Job, maxAttempts: int)
    requires sv.screenshot.Raised?
    ensures
      var final := Run(sv, Start(job, maxAttempts));
      final.node == Stopped(ServiceError) && final.visited == [Capture] && final.shown == [] && final.saved == []
  {
    var b := Visit(sv, Start(job, maxAttempts));
    assert Run(sv, b) == b;
  }
}
