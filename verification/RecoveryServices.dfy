/** The services behind the graph in production: the extraction worker for validating and
    saving, and the filter that makes a proposal out of an untrusted reply. */
module RecoveryServices {
  import opened Basics
  import opened Dicts
  import opened Validation
  import opened Jobs
  import GatewayDecision
  import opened SelectorStore
  import opened SelectorRepositories
  import opened ExtractionWorker
  import opened RecoveryGraph

  // ----- live validation through the worker -----

  /** An extraction with candidate selectors, through the worker's reply. */
  function LiveValidation(page: Answer<Page>, domain: string, required: seq<string>, selectors: Dict)
    : Answer<LiveResult>
  {
    match Extraction(EMPTY, page, domain, required, Some(selectors)).0
    case Raised => Raised
    case Returned(attempt) =>
      var reply := GatewayDecision.ParseResponse(GatewayDecision.FromAttempt(attempt.outcome, attempt.data));
      Returned(LiveResult(reply.success, reply.data, reply.failureReason))
  }

  /** Which of the consumer's own calls, around the graph, raises. */
  datatype StorageFault = NoFault | GetRaises | UpdateRaises | AckRaises

  /** Everything the handling of an entry meets: an arbitrary proposer, the page as each
      validation finds it, and the consumer's own storage. */
  datatype World = World(
    screenshot: Answer<string>,
    propose: (nat, string, seq<string>, seq<Rejection>) -> Answer<Proposal>,
    pages: nat -> Answer<Page>,
    saveRaises: nat -> bool,
    storage: StorageFault)

  function WorkerBacked(w: World): Services {
    Services(
      w.screenshot, w.propose,
      (call: nat, url: string, domain: string, required: seq<string>, selectors: Dict) =>
        LiveValidation(w.pages(call), domain, required, selectors),
      w.saveRaises)
  }

  /** The worker accepts a candidate exactly when the page gives text for every required
      field, and then hands back what the page gave; otherwise its reason is that of the first
      gap.  A page that does not load raises. */
  lemma LiveValidationMeaning(page: Answer<Page>, domain: string, required: seq<string>, selectors: Dict)
    ensures LiveValidation(page, domain, required, selectors).Raised? <==> page.Raised?
    ensures page.Returned? ==>
              var data := ExtractedFields(page.value, AsMap(selectors));
              var answer := LiveValidation(page, domain, required, selectors);
              && answer.value.data == data
              && (answer.value.success <==> Covers(required, data))
              && (!answer.value.success ==> answer.value.reason.Some?)
              && answer.value.reason == Validate(required, data).failureReason
  {
    if page.Returned? {
      var data := ExtractedFields(page.value, AsMap(selectors));
      GatewayDecision.WireRoundTrip(required, data);
      ValidateMeaning(required, data);
    }
  }

  /** A recovered run has text for every required field of its job, read off the page it
      validated on with the selectors it saved. */
  lemma RecoveredRunCovers(w: World, job: Job, maxAttempts: int)
    ensures
      var final := Run(WorkerBacked(w), Start(job, maxAttempts));
      final.node.End? && final.state.finalStatus == Some(Recovered) ==>
        && w.pages(|final.shown|).Returned?
        && final.state.recoveredData == Some(ExtractedFields(w.pages(|final.shown|).value, AsMap(final.saved)))
        && Covers(job.requiredFields, final.state.recoveredData.value)
        && DistinctKeys(final.saved)
        && (forall f :: f in job.requiredFields ==> f in AsMap(final.saved))
  {
    var sv := WorkerBacked(w);
    var final := Run(sv, Start(job, maxAttempts));
    RunOutcome(sv, job, maxAttempts);
    if final.node.End? && final.state.finalStatus == Some(Recovered) {
      var page := w.pages(|final.shown|);
      var schema := FromKeys(job.requiredFields);
      assert LiveValidation(page, job.domain, schema, final.saved).Returned?;
      LiveValidationMeaning(page, job.domain, schema, final.saved);
      FromKeysKeepsVerdict(job.requiredFields, final.state.recoveredData.value);
    }
  }

  // ----- the filter on the vision model's reply -----

  /** A value of the parsed reply, as far as the filter looks at it. */
  datatype JsonValue = JsonText(text: string) | JsonOther

  type JsonItems = items: seq<(string, JsonValue)> |
    forall i, j :: 0 <= i < j < |items| ==> items[i].0 != items[j].0 witness []

  /** The reply after `json.loads`: not JSON, not an object, or an object's items. */
  datatype Reply = NotJson | NotObject | JsonObject(items: JsonItems)

  predicate Usable(item: (string, JsonValue), schema: seq<string>) {
    item.0 in schema && item.1.JsonText?
  }

  function ValidSelectors(items: JsonItems, schema: seq<string>): (r: Dict)
    ensures forall k :: 0 <= k < |r| ==>
            exists i :: 0 <= i < |items| && items[i] == (r[k].0, JsonText(r[k].1)) && r[k].0 in schema
    ensures forall i :: 0 <= i < |items| && Usable(items[i], schema) ==> (items[i].0, items[i].1.text) in r
  {
    if items == [] then []
    else
      var n := |items| - 1;
      var front := ValidSelectors(items[..n], schema);
      if Usable(items[n], schema) then front + [(items[n].0, items[n].1.text)] else front
  }

  /** The filter keeps the order of the items: what it keeps of the first `n` comes first. */
  lemma {:induction false} ValidSelectorsInOrder(items: JsonItems, schema: seq<string>, n: nat)
    requires n <= |items|
    ensures ValidSelectors(items[..n], schema) <= ValidSelectors(items, schema)
    decreases |items|
  {
    if n < |items| {
      var front := items[..|items| - 1];
      assert front[..n] == items[..n];
      ValidSelectorsInOrder(front, schema, n);
    } else {
      assert items[..n] == items;
    }
  }

  function ParseReply(reply: Reply, schema: seq<string>): Proposal {
    match reply
    case NotJson => Proposal(false, [])
    case NotObject => Proposal(false, [])
    case JsonObject(items) =>
      var selectors := ValidSelectors(items, schema);
      if selectors == [] then Proposal(false, []) else Proposal(true, selectors)
  }

  /** A reply is trusted exactly when it is an object with a textual entry for some requested
      field; what is proposed is those entries and no others. */
  lemma ParseReplyMeaning(reply: Reply, schema: seq<string>)
    ensures ParseReply(reply, schema).isConfident <==>
            reply.JsonObject? && exists i :: 0 <= i < |reply.items| && Usable(reply.items[i], schema)
    ensures ParseReply(reply, schema).isConfident ==> forall f, s ::
              (f, s) in ParseReply(reply, schema).selectors <==>
              f in schema && (f, JsonText(s)) in reply.items
    ensures !ParseReply(reply, schema).isConfident ==> ParseReply(reply, schema).selectors == []
  {
    if reply.JsonObject? {
      var r := ValidSelectors(reply.items, schema);
      if r != [] {
        var i :| 0 <= i < |reply.items| && reply.items[i] == (r[0].0, JsonText(r[0].1)) && r[0].0 in schema;
        assert Usable(reply.items[i], schema);
      }
      forall f, s | f in schema && (f, JsonText(s)) in reply.items ensures (f, s) in r {
        var i :| 0 <= i < |reply.items| && reply.items[i] == (f, JsonText(s));
        assert Usable(reply.items[i], schema);
      }
    }
  }

  /** A proposer that filters arbitrary replies. */
  function FilteredProposer(replies: (nat, string, seq<Rejection>) -> Answer<Reply>)
    : (nat, string, seq<string>, seq<Rejection>) -> Answer<Proposal>
  {
    (call: nat, shot: string, schema: seq<string>, history: seq<Rejection>) =>
      match replies(call, shot, history)
      case Raised => Raised
      case Returned(reply) => Returned(ParseReply(reply, schema))
  }

  /** What is proposed at a boundary came from the filter, so its keys are requested ones. */
  ghost predicate ProposalWithinSchema(b: Boundary) {
    b.state.proposedSelectors.Some? ==>
      forall i :: 0 <= i < |b.state.proposedSelectors.value| ==>
        b.state.proposedSelectors.value[i].0 in b.state.expectedSchema
  }

  lemma ProposedWithinSchema(reply: Reply, schema: seq<string>)
    requires ParseReply(reply, schema).isConfident
    ensures forall i :: 0 <= i < |ParseReply(reply, schema).selectors| ==>
            ParseReply(reply, schema).selectors[i].0 in schema
  {
    var selectors := ParseReply(reply, schema).selectors;
    ParseReplyMeaning(reply, schema);
    forall i | 0 <= i < |selectors| ensures selectors[i].0 in schema {
      assert (selectors[i].0, selectors[i].1) in selectors;
    }
  }

  lemma VisitWithinSchema(w: World, replies: (nat, string, seq<Rejection>) -> Answer<Reply>, b: Boundary)
    requires w.propose == FilteredProposer(replies) && ProposalWithinSchema(b)
    ensures ProposalWithinSchema(Visit(WorkerBacked(w), b))
    ensures Visit(WorkerBacked(w), b).state.expectedSchema == b.state.expectedSchema
  {
    if b.node.Analyze? && b.state.screenshot.Some? {
      var answer := replies(|b.shown| + 1, b.state.screenshot.value, b.state.rejectionHistory);
      if answer.Returned? && ParseReply(answer.value, b.state.expectedSchema).isConfident {
        ProposedWithinSchema(answer.value, b.state.expectedSchema);
      }
    }
  }

  lemma {:induction false} FilteredRunWithinSchema(
      w: World, replies: (nat, string, seq<Rejection>) -> Answer<Reply>, b: Boundary)
    requires w.propose == FilteredProposer(replies) && ProposalWithinSchema(b)
    ensures ProposalWithinSchema(Run(WorkerBacked(w), b))
    ensures Run(WorkerBacked(w), b).state.expectedSchema == b.state.expectedSchema
    decreases AttemptsLeft(b.state), Rank(b.node)
  {
    if !b.Halted() {
      RunGoesOn(WorkerBacked(w), b);
      VisitWithinSchema(w, replies, b);
      FilteredRunWithinSchema(w, replies, Visit(WorkerBacked(w), b));
    }
  }

  /** With the filter in front, a recovered run saves a selector for each required field and
      for nothing else. */
  lemma FilteredRecoverySavesRequiredFields(
      w: World, replies: (nat, string, seq<Rejection>) -> Answer<Reply>, job: Job, maxAttempts: int)
    requires w.propose == FilteredProposer(replies)
    ensures
      var final := Run(WorkerBacked(w), Start(job, maxAttempts));
      final.node.End? && final.state.finalStatus == Some(Recovered) ==>
        forall f :: f in AsMap(final.saved) <==> f in job.requiredFields
  {
    var final := Run(WorkerBacked(w), Start(job, maxAttempts));
    RecoveredRunCovers(w, job, maxAttempts);
    RunOutcome(WorkerBacked(w), job, maxAttempts);
    FilteredRunWithinSchema(w, replies, Start(job, maxAttempts));
    FromKeysFacts(job.requiredFields);
    AsMapKeys(final.saved);
  }

  // ----- persisting -----

  function Approved(domain: string, item: (string, string)): Selector {
    Selector(domain, item.0, item.1, AiGenerated, 1)
  }

  /** The store after every item has been saved in order. */
  function SaveAll(store: Store, domain: string, items: seq<(string, string)>): Store {
    if items == [] then store
    else Save(SaveAll(store, domain, items[..|items| - 1]), Approved(domain, items[|items| - 1]), false).1
  }

  lemma {:induction false} SaveAllKeepsHistories(store: Store, domain: string, items: seq<(string, string)>)
    requires HistoriesOk(store.rows)
    ensures HistoriesOk(SaveAll(store, domain, items).rows)
  {
    if items != [] {
      var n := |items| - 1;
      SaveAllKeepsHistories(store, domain, items[..n]);
      SaveMeaning(SaveAll(store, domain, items[..n]), Approved(domain, items[n]), false);
    }
  }

  /** On a well-versioned table each of these saves raises exactly when its cache write does. */
  lemma SavesStopWithCache(store: Store, domain: string, items: seq<(string, string)>,
                           cacheFails: nat -> bool)
    requires HistoriesOk(store.rows)
    ensures forall i {:trigger cacheFails(i)} :: 0 <= i < |items| ==>
              (Save(SaveAll(store, domain, items[..i]), Approved(domain, items[i]), cacheFails(i)).0.Raised? <==>
               cacheFails(i))
  {
    forall i | 0 <= i < |items|
      ensures Save(SaveAll(store, domain, items[..i]), Approved(domain, items[i]), cacheFails(i)).0.Raised? <==>
              cacheFails(i)
    {
      SaveAllKeepsHistories(store, domain, items[..i]);
      SaveMeaning(SaveAll(store, domain, items[..i]), Approved(domain, items[i]), cacheFails(i));
    }
  }

  /** The persist node against the worker's repository: one save after the other, until one
      raises.  `cacheFails` says at which items the cache write raises. */
  method PersistSelectors(repository: RedisPostgresSelectorRepository, domain: string, selectors: Dict,
                          cacheFails: nat -> bool)
    returns (r: Answer<FinalStatus>, done: nat)
    modifies repository
    ensures done <= |selectors|
    ensures r == if done == |selectors| then Returned(Recovered) else Raised
    ensures forall i :: 0 <= i < done ==>
              Save(SaveAll(old(repository.Contents()), domain, selectors[..i]),
                       Approved(domain, selectors[i]), cacheFails(i)).0.Returned?
    ensures
      var store := SaveAll(old(repository.Contents()), domain, selectors[..done]);
      if done == |selectors| then repository.Contents() == SaveAll(old(repository.Contents()), domain, selectors)
      else (Raised, repository.Contents()) == Save(store, Approved(domain, selectors[done]), cacheFails(done))
    ensures HistoriesOk(old(repository.rows)) ==>
              && (forall i :: 0 <= i < done ==> !cacheFails(i))
              && (done < |selectors| ==> cacheFails(done))
  {
    if HistoriesOk(repository.rows) { SavesStopWithCache(repository.Contents(), domain, selectors, cacheFails); }
    done := 0;
    while done < |selectors|
      invariant done <= |selectors|
      invariant forall i :: 0 <= i < done ==>
                  Save(SaveAll(old(repository.Contents()), domain, selectors[..i]),
                       Approved(domain, selectors[i]), cacheFails(i)).0.Returned?
      invariant repository.Contents() == SaveAll(old(repository.Contents()), domain, selectors[..done])
    {
      var saved := repository.SaveSelector(Approved(domain, selectors[done]), cacheFails(done));
      if saved.Raised? {
        return Raised, done;
      }
      SaveAllSnoc(old(repository.Contents()), domain, selectors, done, cacheFails(done));
      done := done + 1;
    }
    assert selectors[..done] == selectors;
    r := Returned(Recovered);
  }

  lemma SaveAllSnoc(store: Store, domain: string, items: seq<(string, string)>, i: nat, cacheFails: bool)
    requires i < |items|
    requires Save(SaveAll(store, domain, items[..i]), Approved(domain, items[i]), cacheFails).0.Returned?
    ensures SaveAll(store, domain, items[..i + 1]) ==
            Save(SaveAll(store, domain, items[..i]), Approved(domain, items[i]), cacheFails).1
  {
    assert items[..i + 1][..i] == items[..i];
  }
}
