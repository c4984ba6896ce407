/** After a successful recovery the deterministic path works again, and goes on working for as
    long as the page and the domain's selectors stay as they are. */
module Healing {
  import opened Basics
  import opened Dicts
  import opened Text
  import opened Validation
  import opened Jobs
  import GatewayDecision
  import opened CacheKeys
  import opened SelectorStore
  import opened SelectorAgreement
  import opened ExtractionWorker
  import opened RecoveryGraph
  import opened RecoveryServices

  /** What is known for a name depends on its cache entry and on its active row only. */
  lemma KnownMeaning(store: Store, domain: string, f: string)
    requires HistoriesOk(store.rows)
    ensures
      var key := CacheKey(domain, f);
      var h := History(store.rows, domain, f);
      Known(store, domain, f) ==
      if key in store.cache then Some(store.cache[key].value)
      else if h == [] then None
      else Some(h[|h| - 1].value)
  {
    assert WellVersioned(History(store.rows, domain, f));
    LookupIsNewest(store.rows, domain, f);
  }

  /** The store after a save whose cache write succeeds. */
  lemma SaveEffect(store: Store, selector: Selector) returns (store': Store)
    requires HistoriesOk(store.rows)
    ensures store' == Save(store, selector, false).1 && HistoriesOk(store'.rows)
    ensures forall domain, field :: History(store'.rows, domain, field) ==
              if (domain, field) == (selector.domain, selector.field)
              then Extended(History(store.rows, domain, field), selector)
              else History(store.rows, domain, field)
    ensures
      var h := History(store.rows, selector.domain, selector.field);
      store'.cache == store.cache[CacheKey(selector.domain, selector.field) := ToEntry(selector.(version := |h| + 1))]
  {
    var rows' := SaveRowsExtendsHistory(store.rows, selector);
    store' := WriteCache(store.(rows := rows'), ToSelector(rows'[|rows'| - 1]));
  }

  /** A save makes its own selector the known one and changes no other of its domain. */
  lemma SaveSetsKnown(store: Store, domain: string, item: (string, string), f: string)
    requires HistoriesOk(store.rows)
    ensures HistoriesOk(Save(store, Approved(domain, item), false).1.rows)
    ensures Known(Save(store, Approved(domain, item), false).1, domain, f) ==
            if f == item.0 then Some(item.1) else Known(store, domain, f)
  {
    var store' := SaveEffect(store, Approved(domain, item));
    KnownMeaning(store, domain, f);
    KnownMeaning(store', domain, f);
    if f != item.0 {
      if CacheKey(domain, f) == CacheKey(domain, item.0) { KeyInjective(domain, f, domain, item.0); }
    }
  }

  /** After saving a dictionary its selectors are the known ones, whatever was cached or
      stored before, and the rest of the domain is as it was. */
  lemma {:induction false} SaveAllSetsKnown(store: Store, domain: string, items: Dict, f: string)
    requires HistoriesOk(store.rows)
    ensures HistoriesOk(SaveAll(store, domain, items).rows)
    ensures Known(SaveAll(store, domain, items), domain, f) ==
            if f in AsMap(items) then Some(AsMap(items)[f]) else Known(store, domain, f)
  {
    if items != [] {
      var n := |items| - 1;
      SaveAllSetsKnown(store, domain, items[..n], f);
      SaveSetsKnown(SaveAll(store, domain, items[..n]), domain, items[n], f);
    }
  }

  /** Saving a dictionary adds one active row to the history of each of its fields, with the next
      version and marked as proposed by the model, and touches no other history. */
  lemma {:induction false} SaveAllRecords(store: Store, domain: string, items: Dict, name: (string, string))
    requires HistoriesOk(store.rows)
    ensures HistoriesOk(SaveAll(store, domain, items).rows)
    ensures
      var before := History(store.rows, name.0, name.1);
      var after := History(SaveAll(store, domain, items).rows, name.0, name.1);
      if name.0 == domain && name.1 in AsMap(items) then
        && |after| == |before| + 1
        && after[|before|] == Row(domain, name.1, AsMap(items)[name.1], |before| + 1, AiGenerated, true)
      else after == before
  {
    if items != [] {
      var n := |items| - 1;
      var front := items[..n];
      SaveAllRecords(store, domain, front, name);
      var store' := SaveEffect(SaveAll(store, domain, front), Approved(domain, items[n]));
      if name == (domain, items[n].0) {
        AsMapKeys(front);
        assert name.1 !in AsMap(front);
      }
    }
  }

  /** The part of the data that belongs to required fields. */
  function Restrict(data: Data, required: seq<string>): Data {
    map f | f in data && f in required :: data[f]
  }

  /** Extracting with fewer selectors gives the matching part of the data. */
  lemma ExtractedRestricts(page: Page, saved: map<string, string>, required: seq<string>)
    ensures ExtractedFields(page, map f | f in required && f in saved :: saved[f]) ==
            Restrict(ExtractedFields(page, saved), required)
  {
  }

  lemma RestrictCovers(required: seq<string>, data: Data)
    requires Covers(required, data)
    ensures Covers(required, Restrict(data, required))
  {
    forall i | 0 <= i < |required|
      ensures required[i] in Restrict(data, required) && !Blank(Restrict(data, required)[required[i]])
    {
      assert required[i] in required && required[i] in data;
    }
  }

  // ----- from the saves on -----

  /** The name's newest row has this selector, and the cache does not say otherwise. */
  ghost predicate Holds(store: Store, name: (string, string), value: string) {
    var h := History(store.rows, name.0, name.1);
    h != [] && h[|h| - 1].value == value && CacheFresh(store, name)
  }

  lemma HoldsIsKnown(store: Store, domain: string, f: string, value: string)
    requires HistoriesOk(store.rows) && Holds(store, (domain, f), value)
    ensures Known(store, domain, f) == Some(value)
  {
    KnownMeaning(store, domain, f);
  }

  /** What matters is the name's history and its cache entry. */
  lemma HoldsKept(store: Store, store': Store, name: (string, string), value: string)
    requires Holds(store, name, value)
    requires History(store'.rows, name.0, name.1) == History(store.rows, name.0, name.1)
    requires
      var key := CacheKey(name.0, name.1);
      key in store'.cache ==> key in store.cache && store'.cache[key] == store.cache[key]
    ensures Holds(store', name, value)
  {
  }

  lemma HoldsSaved(store: Store, store': Store, selector: Selector)
    requires
      var h := History(store.rows, selector.domain, selector.field);
      && History(store'.rows, selector.domain, selector.field) == Extended(h, selector)
      && store'.cache == store.cache[CacheKey(selector.domain, selector.field) :=
                                       ToEntry(selector.(version := |h| + 1))]
    ensures Holds(store', (selector.domain, selector.field), selector.value)
  {
  }

  lemma SaveHolds(store: Store, domain: string, item: (string, string), f: string, value: string)
    requires HistoriesOk(store.rows)
    requires if f == item.0 then value == item.1 else Holds(store, (domain, f), value)
    ensures HistoriesOk(Save(store, Approved(domain, item), false).1.rows)
    ensures Holds(Save(store, Approved(domain, item), false).1, (domain, f), value)
  {
    var store' := SaveEffect(store, Approved(domain, item));
    if f == item.0 {
      HoldsSaved(store, store', Approved(domain, item));
    } else {
      if CacheKey(domain, f) == CacheKey(domain, item.0) { KeyInjective(domain, f, domain, item.0); }
      HoldsKept(store, store', (domain, f), value);
    }
  }

  lemma {:induction false} SaveAllHolds(store: Store, domain: string, items: Dict, f: string)
    requires HistoriesOk(store.rows)
    ensures HistoriesOk(SaveAll(store, domain, items).rows)
    ensures f in AsMap(items) ==> Holds(SaveAll(store, domain, items), (domain, f), AsMap(items)[f])
  {
    if items != [] {
      var n := |items| - 1;
      var front, last := items[..n], items[n];
      SaveAllHolds(store, domain, front, f);
      var store1 := SaveAll(store, domain, front);
      if f in AsMap(items) {
        SaveHolds(store1, domain, last, f, AsMap(items)[f]);
      } else {
        SaveHolds(store1, domain, last, last.0, last.1);
      }
    }
  }

  /** The operation does not save a selector for any of the fields. */
  predicate KeepsSelectors(op: Op, domain: string, fields: seq<string>) {
    op.SaveOp? ==> !(op.selector.domain == domain && op.selector.field in fields)
  }

  /** No other of the names has this name's cache key. */
  ghost predicate Unshared(names: iset<(string, string)>, name: (string, string)) {
    forall n :: n in names && n != name ==> CacheKey(n.0, n.1) != CacheKey(name.0, name.1)
  }

  lemma GetHolds(store: Store, d: string, g: string, name: (string, string), value: string)
    requires HistoriesOk(store.rows) && Holds(store, name, value)
    requires (d, g) != name ==> CacheKey(d, g) != CacheKey(name.0, name.1)
    ensures Holds(Get(store, d, g).1, name, value) && Get(store, d, g).1.rows == store.rows
  {
    assert WellVersioned(History(store.rows, d, g));
    LookupIsNewest(store.rows, d, g);
    NewestFacts(store.rows, d, g);
    if (d, g) != name { HoldsKept(store, Get(store, d, g).1, name, value); }
  }

  lemma StepHolds(store: Store, names: iset<(string, string)>, op: Op, name: (string, string), value: string)
    requires HistoriesOk(store.rows) && Unshared(names, name) && OpOver(op, names)
    requires op.SaveOp? ==> (op.selector.domain, op.selector.field) != name
    requires Holds(store, name, value)
    ensures Holds(RealStep(store, op).1, name, value)
  {
    match op
    case SaveOp(selector) =>
      var store' := SaveEffect(store, selector);
      assert CacheKey(selector.domain, selector.field) != CacheKey(name.0, name.1);
      HoldsKept(store, store', name, value);
    case GetOp(d, g) =>
      GetHolds(store, d, g, name, value);
    case LoseOp(key) =>
      HoldsKept(store, RealStep(store, op).1, name, value);
  }

  lemma StepKeepsHistories(store: Store, op: Op)
    requires HistoriesOk(store.rows)
    ensures HistoriesOk(RealStep(store, op).1.rows)
  {
    if op.SaveOp? { var rows' := SaveRowsExtendsHistory(store.rows, op.selector); }
  }

  lemma {:induction false} RunHolds(
      store: Store, names: iset<(string, string)>, ops: seq<Op>, domain: string, fields: seq<string>, f: string,
      value: string)
    requires HistoriesOk(store.rows) && Over(ops, names)
    requires forall i :: 0 <= i < |ops| ==> KeepsSelectors(ops[i], domain, fields)
    requires f in fields ==> Unshared(names, (domain, f)) && Holds(store, (domain, f), value)
    ensures HistoriesOk(RealRun(store, ops).rows)
    ensures f in fields ==> Holds(RealRun(store, ops), (domain, f), value)
    decreases |ops|
  {
    if ops != [] {
      assert OpOver(ops[0], names) && KeepsSelectors(ops[0], domain, fields);
      StepKeepsHistories(store, ops[0]);
      if f in fields { StepHolds(store, names, ops[0], (domain, f), value); }
      RunHolds(RealStep(store, ops[0]).1, names, ops[1..], domain, fields, f, value);
    }
  }

  /** If the required fields resolve to the saved selectors and the page gives text for them, the
      nominal extraction gives the saved extraction, cut down to the required fields. */
  lemma NominalOfKnown(store: Store, page: Page, domain: string, required: seq<string>, saved: map<string, string>)
    requires HistoriesOk(store.rows)
    requires forall f :: f in required ==> f in saved && Known(store, domain, f) == Some(saved[f])
    requires Covers(required, ExtractedFields(page, saved))
    ensures Mended(Extraction(store, Returned(page), domain, required, None).0, required, ExtractedFields(page, saved))
  {
    ResolveMeaning(store, domain, required);
    var kept := map f | f in required && f in saved :: saved[f];
    assert KnownSelectors(store, domain, required) == kept;
    KeptSelectorsMend(page, required, saved, kept);
  }

  /** The extraction succeeded with the recovered data of the required fields, which is all of it
      exactly when nothing else was recovered. */
  ghost predicate Mended(nominal: Answer<Attempt>, required: seq<string>, recovered: Data) {
    && nominal.Returned?
    && nominal.value.outcome == Validate(required, nominal.value.data)
    && nominal.value.outcome.isSuccess
    && nominal.value.data == Restrict(recovered, required)
    && (nominal.value.data == recovered <==> forall f :: f in recovered ==> f in required)
  }

  lemma KeptSelectorsMend(page: Page, required: seq<string>, saved: map<string, string>, kept: map<string, string>)
    requires kept == map f | f in required && f in saved :: saved[f]
    requires Covers(required, ExtractedFields(page, saved))
    ensures
      var data := ExtractedFields(page, kept);
      Mended(Returned(Attempt(Validate(required, data), data)), required, ExtractedFields(page, saved))
  {
    var recovered := ExtractedFields(page, saved);
    ExtractedRestricts(page, saved, required);
    RestrictCovers(required, recovered);
    ValidateMeaning(required, Restrict(recovered, required));
    RestrictIsAll(recovered, required);
  }

  lemma RestrictIsAll(data: Data, required: seq<string>)
    ensures Restrict(data, required) == data <==> forall f :: f in data ==> f in required
  {
    if Restrict(data, required) == data {
      forall f | f in data ensures f in required { assert f in Restrict(data, required); }
    }
  }

  /** If every required field was saved and the page gives text for it, the nominal
      extraction gives the saved extraction, cut down to the required fields. */
  lemma NominalFollowsSaved(store: Store, page: Page, domain: string, required: seq<string>, saved: Dict)
    requires HistoriesOk(store.rows)
    requires forall f :: f in required ==> f in AsMap(saved)
    requires Covers(required, ExtractedFields(page, AsMap(saved)))
    ensures Mended(Extraction(SaveAll(store, domain, saved), Returned(page), domain, required, None).0, required,
                   ExtractedFields(page, AsMap(saved)))
  {
    var store' := SaveAll(store, domain, saved);
    SaveAllSetsKnown(store, domain, saved, "");
    forall f | f in required ensures Known(store', domain, f) == Some(AsMap(saved)[f]) {
      SaveAllSetsKnown(store, domain, saved, f);
    }
    NominalOfKnown(store', page, domain, required, AsMap(saved));
  }

  /** Healing: once a recovery run has ended recovered and its selectors are saved, then after any
      further reads, lost keys and saves of other names the nominal extraction of the same
      required fields on an unchanged page succeeds, from any well-versioned store, provided the
      other names share no cache key with a required field; its data is the recovered data for
      those fields, and the whole recovered data exactly when nothing else was recovered. */
  lemma RecoveryHeals(w: World, job: Job, maxAttempts: int, store: Store, names: iset<(string, string)>, ops: seq<Op>)
    requires HistoriesOk(store.rows)
    requires
      var final := Run(WorkerBacked(w), Start(job, maxAttempts));
      final.node.End? && final.state.finalStatus == Some(Recovered)
    requires forall f :: f in job.requiredFields ==> Unshared(names, (job.domain, f))
    requires Over(ops, names) && forall i :: 0 <= i < |ops| ==> KeepsSelectors(ops[i], job.domain, job.requiredFields)
    ensures
      var final := Run(WorkerBacked(w), Start(job, maxAttempts));
      var later := RealRun(SaveAll(store, job.domain, final.saved), ops);
      var page := w.pages(|final.shown|);
      && final.state.recoveredData.Some?
      && Mended(Extraction(later, page, job.domain, job.requiredFields, None).0, job.requiredFields,
                final.state.recoveredData.value)
  {
    var final := Run(WorkerBacked(w), Start(job, maxAttempts));
    RecoveredRunCovers(w, job, maxAttempts);
    var healed := SaveAll(store, job.domain, final.saved);
    var later := RealRun(healed, ops);
    SaveAllHolds(store, job.domain, final.saved, "");
    HistoriesLater(healed, ops);
    forall f | f in job.requiredFields ensures Known(later, job.domain, f) == Some(AsMap(final.saved)[f]) {
      SaveAllHolds(store, job.domain, final.saved, f);
      RunHolds(healed, names, ops, job.domain, job.requiredFields, f, AsMap(final.saved)[f]);
      HoldsIsKnown(later, job.domain, f, AsMap(final.saved)[f]);
    }
    NominalOfKnown(later, w.pages(|final.shown|).value, job.domain, job.requiredFields, AsMap(final.saved));
  }

  lemma {:induction false} HistoriesLater(store: Store, ops: seq<Op>)
    requires HistoriesOk(store.rows)
    ensures HistoriesOk(RealRun(store, ops).rows)
    decreases |ops|
  {
    if ops != [] {
      StepKeepsHistories(store, ops[0]);
      HistoriesLater(RealStep(store, ops[0]).1, ops[1..]);
    }
  }

  /** A known selector stays known over all later reads, lost keys and saves of other names
      exactly when none of the names shares its cache key. */
  lemma KnownLastsExactly(store: Store, names: iset<(string, string)>, domain: string, f: string, value: string)
    requires HistoriesOk(store.rows) && Holds(store, (domain, f), value)
    ensures
      (forall ops :: Over(ops, names) && (forall i :: 0 <= i < |ops| ==> KeepsSelectors(ops[i], domain, [f])) ==>
         Known(RealRun(store, ops), domain, f) == Some(value))
      <==> Unshared(names, (domain, f))
  {
    if Unshared(names, (domain, f)) {
      forall ops | Over(ops, names) && (forall i :: 0 <= i < |ops| ==> KeepsSelectors(ops[i], domain, [f]))
        ensures Known(RealRun(store, ops), domain, f) == Some(value)
      {
        RunHolds(store, names, ops, domain, [f], f, value);
        HoldsIsKnown(RealRun(store, ops), domain, f, value);
      }
    } else {
      var n :| n in names && n != (domain, f) && CacheKey(n.0, n.1) == CacheKey(domain, f);
      var ops := SharedKeyBreaks(store, n, domain, f, value);
      assert Over(ops, names);
    }
  }

  /** A save of a name that shares the key replaces what is known. */
  lemma SharedKeyBreaks(store: Store, n: (string, string), domain: string, f: string, value: string)
      returns (ops: seq<Op>)
    requires HistoriesOk(store.rows)
    requires n != (domain, f) && CacheKey(n.0, n.1) == CacheKey(domain, f)
    ensures |ops| == 1 && ops[0].SaveOp? && (ops[0].selector.domain, ops[0].selector.field) == n
    ensures KeepsSelectors(ops[0], domain, [f])
    ensures Known(RealRun(store, ops), domain, f) != Some(value)
  {
    var other := Selector(n.0, n.1, value + "x", Manual, 1);
    ops := [SaveOp(other)];
    var store' := SaveEffect(store, other);
    assert ops[1..] == [] && RealRun(store, ops) == RealRun(store', []);
    KnownMeaning(store', domain, f);
    assert |value + "x"| == |value| + 1;
  }

  /** Right after the saves no assumption on names is needed. */
  lemma RecoveryHealsAtOnce(w: World, job: Job, maxAttempts: int, store: Store)
    requires HistoriesOk(store.rows)
    requires
      var final := Run(WorkerBacked(w), Start(job, maxAttempts));
      final.node.End? && final.state.finalStatus == Some(Recovered)
    ensures
      var final := Run(WorkerBacked(w), Start(job, maxAttempts));
      && final.state.recoveredData.Some?
      && Mended(Extraction(SaveAll(store, job.domain, final.saved), w.pages(|final.shown|), job.domain,
                           job.requiredFields, None).0,
                job.requiredFields, final.state.recoveredData.value)
  {
    RecoveryHeals(w, job, maxAttempts, store, iset{}, []);
  }

  /** End to end: after the same operations a request for the same page, domain and fields is
      answered synchronously with SUCCESS and the recovered data of its fields. */
  lemma NextRequestSucceeds(w: World, job: Job, maxAttempts: int, store: Store, names: iset<(string, string)>,
                            ops: seq<Op>, id: string)
    requires HistoriesOk(store.rows)
    requires
      var final := Run(WorkerBacked(w), Start(job, maxAttempts));
      final.node.End? && final.state.finalStatus == Some(Recovered)
    requires forall f :: f in job.requiredFields ==> Unshared(names, (job.domain, f))
    requires Over(ops, names) && forall i :: 0 <= i < |ops| ==> KeepsSelectors(ops[i], job.domain, job.requiredFields)
    ensures
      var final := Run(WorkerBacked(w), Start(job, maxAttempts));
      var later := RealRun(SaveAll(store, job.domain, final.saved), ops);
      var nominal := Extraction(later, w.pages(|final.shown|), job.domain, job.requiredFields, None).0;
      && nominal.Returned? && final.state.recoveredData.Some?
      && var next := Job.Create(id, job.url, job.domain, job.requiredFields);
         var reply := GatewayDecision.Body(GatewayDecision.FromAttempt(nominal.value.outcome, nominal.value.data));
         GatewayDecision.Decide(next, reply) ==
         Returned(next.(status := Success,
                        result := Some(Restrict(final.state.recoveredData.value, job.requiredFields))))
  {
    RecoveryHeals(w, job, maxAttempts, store, names, ops);
    var final := Run(WorkerBacked(w), Start(job, maxAttempts));
    var later := RealRun(SaveAll(store, job.domain, final.saved), ops);
    var nominal := Extraction(later, w.pages(|final.shown|), job.domain, job.requiredFields, None).0;
    GatewayDecision.WireRoundTrip(job.requiredFields, nominal.value.data);
  }
}
