/** Healing when other operations overlap with the recovery's saves: exactly when the persisted
    selectors are what later reads are told, and what extractions make of those answers. */
module HealingOverlap {
  import opened Basics
  import opened Dicts
  import opened Validation
  import opened Jobs
  import opened CacheKeys
  import opened SelectorStore
  import opened SelectorAgreement
  import opened ExtractionWorker
  import opened RecoveryGraph
  import opened RecoveryServices
  import opened Healing
  import C = CacheAside
  import F = CacheFreshness

  // ----- persisting among other operations -----

  /** The saves of a recovery, each committed and then cached. */
  function PersistActions(op: nat, domain: string, items: seq<(string, string)>): seq<C.Action> {
    if items == [] then []
    else
      var n := |items| - 1;
      PersistActions(op, domain, items[..n]) + [C.CommitSave(op, Approved(domain, items[n])), C.CacheWrite(op)]
  }

  function Persisted(s: C.State, op: nat, domain: string, items: seq<(string, string)>): C.State {
    C.Run(s, PersistActions(op, domain, items))
  }

  lemma PersistedStep(s: C.State, op: nat, domain: string, items: seq<(string, string)>)
    requires items != []
    ensures
      var n := |items| - 1;
      Persisted(s, op, domain, items) ==
      C.Step(C.Step(Persisted(s, op, domain, items[..n]), C.CommitSave(op, Approved(domain, items[n]))),
          C.CacheWrite(op))
  {
    var n := |items| - 1;
    var a, b := C.CommitSave(op, Approved(domain, items[n])), C.CacheWrite(op);
    F.RunInTurn(s, PersistActions(op, domain, items[..n]), [a, b]);
    F.RunTwo(Persisted(s, op, domain, items[..n]), a, b);
  }

  /** The name's active row has this selector, the cache does not say otherwise, and whatever is
      in flight to the cache for the name is older. */
  ghost predicate Stored(s: C.State, name: (string, string), value: string) {
    && ActiveIs(s, name, value) && C.NameFresh(s, name)
    && forall op :: op in s.inFlight && s.inFlight[op].ToWrite? && F.NameOf(s.inFlight[op]) == name ==>
         !C.Newest(s.rows, s.inFlight[op].selector)
  }

  ghost predicate ActiveIs(s: C.State, name: (string, string), value: string) {
    var active := GetFromDb(s.rows, name.0, name.1);
    active.Returned? && active.value.Some? && active.value.value.value == value
  }

  lemma StoredIsSettledExactly(s: C.State, name: (string, string), value: string)
    requires Stored(s, name, value)
    ensures F.Settled(s, name) <==> F.NoWrites(s, name)
  {
  }

  lemma OwnSaveStores(s: C.State, names: iset<(string, string)>, op: nat, save: Selector)
    requires CollisionFree(names) && C.Sound(s, names) && (save.domain, save.field) in names && op !in s.inFlight
    ensures Stored(C.Step(C.Step(s, C.CommitSave(op, save)), C.CacheWrite(op)), (save.domain, save.field), save.value)
  {
    var rows', saved := F.CompletedSaveEffect(s, op, save);
    F.SavedIsActive(s.rows, save, rows');
    F.OlderWritesAreStale(s, names, save, rows');
    F.CompletedSaveSettlesExactly(s, names, op, save);
  }

  lemma OtherSaveKeepsStored(s: C.State, names: iset<(string, string)>, op: nat, save: Selector,
                             name: (string, string), value: string)
    requires CollisionFree(names) && C.Sound(s, names) && (save.domain, save.field) in names && op !in s.inFlight
    requires name in names && name != (save.domain, save.field) && Stored(s, name, value)
    ensures Stored(C.Step(C.Step(s, C.CommitSave(op, save)), C.CacheWrite(op)), name, value)
  {
    var rows', saved := F.CompletedSaveEffect(s, op, save);
    assert History(rows', name.0, name.1) == History(s.rows, name.0, name.1);
    F.SameLookup(s.rows, rows', name);
    assert CacheKey(name.0, name.1) != CacheKey(save.domain, save.field);
    StoredElsewhere(s, C.Step(C.Step(s, C.CommitSave(op, save)), C.CacheWrite(op)), name, value);
  }

  /** What matters is the name's history, its entry and what is in flight. */
  lemma StoredElsewhere(s: C.State, s': C.State, name: (string, string), value: string)
    requires Stored(s, name, value)
    requires History(s'.rows, name.0, name.1) == History(s.rows, name.0, name.1)
    requires GetFromDb(s'.rows, name.0, name.1) == GetFromDb(s.rows, name.0, name.1)
    requires s'.inFlight == s.inFlight
    requires
      var key := CacheKey(name.0, name.1);
      key in s'.cache ==> key in s.cache && s'.cache[key] == s.cache[key]
    ensures Stored(s', name, value)
  {
  }

  lemma SaveKeepsSound(s: C.State, names: iset<(string, string)>, op: nat, save: Selector)
    requires CollisionFree(names) && C.Sound(s, names) && (save.domain, save.field) in names && op !in s.inFlight
    ensures
      var s' := C.Step(C.Step(s, C.CommitSave(op, save)), C.CacheWrite(op));
      C.Sound(s', names) && s'.inFlight == s.inFlight
  {
    C.StepSound(s, names, C.CommitSave(op, save));
    C.StepSound(C.Step(s, C.CommitSave(op, save)), names, C.CacheWrite(op));
    var rows', saved := F.CompletedSaveEffect(s, op, save);
  }

  /** Persisting stores every item, whatever was in flight. */
  lemma {:induction false} PersistedStores(
      s: C.State, names: iset<(string, string)>, op: nat, domain: string, items: Dict, f: string)
    requires CollisionFree(names) && C.Sound(s, names) && op !in s.inFlight
    requires forall i :: 0 <= i < |items| ==> (domain, items[i].0) in names
    ensures
      var s' := Persisted(s, op, domain, items);
      && C.Sound(s', names) && s'.inFlight == s.inFlight
      && (f in AsMap(items) ==> Stored(s', (domain, f), AsMap(items)[f]))
  {
    if items != [] {
      var n := |items| - 1;
      var front, last := items[..n], items[n];
      PersistedStores(s, names, op, domain, front, f);
      PersistedStep(s, op, domain, items);
      var s1 := Persisted(s, op, domain, front);
      SaveKeepsSound(s1, names, op, Approved(domain, last));
      if f == last.0 {
        OwnSaveStores(s1, names, op, Approved(domain, last));
      } else if f in AsMap(items) {
        AsMapKeys(front);
        OtherSaveKeepsStored(s1, names, op, Approved(domain, last), (domain, f), AsMap(items)[f]);
      }
    }
  }

  /** After a recovered run has persisted its selectors, whatever was in flight before: every
      later read of a required field is told the persisted selector, in every continuation that
      does not save that field, exactly when no older cache write for a required field was in
      flight. */
  lemma HealingLastsExactly(w: World, job: Job, maxAttempts: int, s: C.State, names: iset<(string, string)>, op: nat)
    requires
      var final := Run(WorkerBacked(w), Start(job, maxAttempts));
      && final.node.End? && final.state.finalStatus == Some(Recovered)
      && forall i :: 0 <= i < |final.saved| ==> (job.domain, final.saved[i].0) in names
    requires CollisionFree(names) && C.Sound(s, names) && op !in s.inFlight
    ensures
      var saved := Run(WorkerBacked(w), Start(job, maxAttempts)).saved;
      var s' := Persisted(s, op, job.domain, saved);
      && C.Sound(s', names)
      && (forall f :: f in job.requiredFields ==> f in AsMap(saved) && ActiveIs(s', (job.domain, f), AsMap(saved)[f]))
      && ((forall f :: f in job.requiredFields ==> F.AlwaysTold(s', names, (job.domain, f)))
          <==> forall f :: f in job.requiredFields ==> F.NoWrites(s, (job.domain, f)))
  {
    RecoveredRunCovers(w, job, maxAttempts);
    PersistedExactly(s, names, op, job.domain, Run(WorkerBacked(w), Start(job, maxAttempts)).saved, job.requiredFields);
  }

  lemma PersistedExactly(s: C.State, names: iset<(string, string)>, op: nat, domain: string, saved: Dict,
                         required: seq<string>)
    requires CollisionFree(names) && C.Sound(s, names) && op !in s.inFlight
    requires forall i :: 0 <= i < |saved| ==> (domain, saved[i].0) in names
    requires forall f :: f in required ==> f in AsMap(saved)
    ensures
      var s' := Persisted(s, op, domain, saved);
      && C.Sound(s', names)
      && (forall f :: f in required ==> ActiveIs(s', (domain, f), AsMap(saved)[f]))
      && ((forall f :: f in required ==> F.AlwaysTold(s', names, (domain, f)))
          <==> forall f :: f in required ==> F.NoWrites(s, (domain, f)))
  {
    PersistedStores(s, names, op, domain, saved, "");
    forall f | f in required
      ensures
        var s' := Persisted(s, op, domain, saved);
        ActiveIs(s', (domain, f), AsMap(saved)[f])
            && (F.AlwaysTold(s', names, (domain, f)) <==> F.NoWrites(s, (domain, f)))
    {
      PersistedFieldExactly(s, names, op, domain, saved, f);
    }
  }

  lemma PersistedFieldExactly(s: C.State, names: iset<(string, string)>, op: nat, domain: string, saved: Dict,
      f: string)
    requires CollisionFree(names) && C.Sound(s, names) && op !in s.inFlight
    requires forall i :: 0 <= i < |saved| ==> (domain, saved[i].0) in names
    requires f in AsMap(saved)
    ensures
      var s' := Persisted(s, op, domain, saved);
      && ActiveIs(s', (domain, f), AsMap(saved)[f])
      && (F.Settled(s', (domain, f)) <==> F.NoWrites(s, (domain, f)))
      && (F.AlwaysTold(s', names, (domain, f)) <==> F.NoWrites(s, (domain, f)))
  {
    var s' := Persisted(s, op, domain, saved);
    AsMapKeys(saved);
    PersistedStores(s, names, op, domain, saved, f);
    StoredIsSettledExactly(s', (domain, f), AsMap(saved)[f]);
    F.ToldUntilSavedExactly(s', names, (domain, f));
  }

  // ----- an extraction from answers told at any moments -----

  /** The dictionary a nominal extraction resolves when its i-th read is answered by the given
      entry of the answers told. */
  function Answered(told: seq<C.Told>, picks: seq<nat>, required: seq<string>): Dict
    requires |picks| == |required| && forall i :: 0 <= i < |picks| ==> picks[i] < |told|
  {
    if required == [] then []
    else
      var n := |required| - 1;
      var front := Answered(told, picks[..n], required[..n]);
      var found := told[picks[n]].found;
      if found.None? then front else Put(front, required[n], found.value.value)
  }

  lemma {:induction false} AnsweredMeaning(
      told: seq<C.Told>, picks: seq<nat>, required: seq<string>, saved: map<string, string>)
    requires |picks| == |required| && forall i :: 0 <= i < |picks| ==> picks[i] < |told|
    requires forall i :: 0 <= i < |picks| ==>
               && required[i] in saved && told[picks[i]].found.Some?
               && told[picks[i]].found.value.value == saved[required[i]]
    ensures AsMap(Answered(told, picks, required)) == map f | f in required && f in saved :: saved[f]
  {
    if required != [] {
      var n := |required| - 1;
      var front, last := required[..n], required[n];
      AnsweredMeaning(told, picks[..n], front, saved);
      PutIsMapUpdate(Answered(told, picks[..n], front), last, saved[last]);
      assert required == front + [last];
      KeptSnoc(front, last, saved);
    }
  }

  lemma KeptSnoc(front: seq<string>, last: string, saved: map<string, string>)
    requires last in saved
    ensures (map f | f in front + [last] && f in saved :: saved[f]) ==
            (map f | f in front && f in saved :: saved[f])[last := saved[last]]
  {
  }

  /** Each field's read was answered after `s`. */
  ghost predicate ReadsSince(s: C.State, s': C.State, picks: seq<nat>, domain: string, required: seq<string>) {
    && |picks| == |required|
    && forall i :: 0 <= i < |picks| ==>
         && |s.told| <= picks[i] < |s'.told|
         && (s'.told[picks[i]].domain, s'.told[picks[i]].field) == (domain, required[i])
  }

  /** From any state in which the required fields are settled on the saved selectors: reads made
      at any moments of any continuation without saves of these fields resolve to the saved
      selectors, and the extraction succeeds with the recovered data of the required fields. */
  lemma SettledReadsMend(s: C.State, names: iset<(string, string)>, page: Page, domain: string, required: seq<string>,
                         saved: map<string, string>, actions: seq<C.Action>, picks: seq<nat>)
    requires CollisionFree(names) && C.Sound(s, names)
    requires forall f :: f in required ==>
               && (domain, f) in names && F.Settled(s, (domain, f))
               && f in saved && ActiveIs(s, (domain, f), saved[f])
               && F.WithoutSave(actions, names, (domain, f))
    requires ReadsSince(s, C.Run(s, actions), picks, domain, required)
    requires Covers(required, ExtractedFields(page, saved))
    ensures
      var data := ExtractedFields(page, AsMap(Answered(C.Run(s, actions).told, picks, required)));
      Mended(Returned(Attempt(Validate(required, data), data)), required, ExtractedFields(page, saved))
  {
    var s' := C.Run(s, actions);
    forall i | 0 <= i < |picks|
      ensures
        && required[i] in saved && s'.told[picks[i]].found.Some?
        && s'.told[picks[i]].found.value.value == saved[required[i]]
    {
      var f := required[i];
      assert f in required;
      F.RunTellsActive(s, names, actions, (domain, f));
      assert Returned(s'.told[picks[i]].found) == GetFromDb(s.rows, domain, f);
    }
    AnsweredMeaning(s'.told, picks, required, saved);
    KeptSelectorsMend(page, required, saved, AsMap(Answered(s'.told, picks, required)));
  }

  /** Healing among overlapping operations: if no older cache write for a required field is in
      flight when a recovered run persists its selectors, then nominal reads made at any moments
      of any continuation without saves of the required fields, lost keys, failed cache writes
      and saves of other names included, mend the extraction on an unchanged page. */
  lemma RecoveryHealsAmongOthers(w: World, job: Job, maxAttempts: int, s: C.State, names: iset<(string, string)>,
                                 op: nat, actions: seq<C.Action>, picks: seq<nat>)
    requires
      var final := Run(WorkerBacked(w), Start(job, maxAttempts));
      && final.node.End? && final.state.finalStatus == Some(Recovered)
      && (forall i :: 0 <= i < |final.saved| ==> (job.domain, final.saved[i].0) in names)
      && var s' := Persisted(s, op, job.domain, final.saved);
         ReadsSince(s', C.Run(s', actions), picks, job.domain, job.requiredFields)
    requires CollisionFree(names) && C.Sound(s, names) && op !in s.inFlight
    requires forall f :: f in job.requiredFields ==>
               F.NoWrites(s, (job.domain, f)) && F.WithoutSave(actions, names, (job.domain, f))
    ensures
      var final := Run(WorkerBacked(w), Start(job, maxAttempts));
      var told := C.Run(Persisted(s, op, job.domain, final.saved), actions).told;
      && w.pages(|final.shown|).Returned? && final.state.recoveredData.Some?
      && var data := ExtractedFields(w.pages(|final.shown|).value, AsMap(Answered(told, picks, job.requiredFields)));
         Mended(Returned(Attempt(Validate(job.requiredFields, data), data)), job.requiredFields,
                final.state.recoveredData.value)
  {
    var final := Run(WorkerBacked(w), Start(job, maxAttempts));
    RecoveredRunCovers(w, job, maxAttempts);
    var saved: Dict := final.saved;
    var s' := Persisted(s, op, job.domain, saved);
    PersistedStores(s, names, op, job.domain, saved, "");
    AsMapKeys(saved);
    forall f | f in job.requiredFields
      ensures (job.domain, f) in names && F.Settled(s', (job.domain, f))
              && ActiveIs(s', (job.domain, f), AsMap(saved)[f])
    {
      PersistedFieldExactly(s, names, op, job.domain, saved, f);
    }
    var page := w.pages(|final.shown|).value;
    SettledReadsMend(s', names, page, job.domain, job.requiredFields, AsMap(saved), actions, picks);
  }

  // ----- where healing is lost -----

  /** What is known from a cached entry, and an extraction it makes fail. */
  lemma CachedIsUsed(store: Store, domain: string, f: string, page: Page)
    requires HistoriesOk(store.rows) && CacheKey(domain, f) in store.cache
    ensures Known(store, domain, f) == Some(store.cache[CacheKey(domain, f)].value)
    ensures page(store.cache[CacheKey(domain, f)].value).Absent? ==>
              var nominal := Extraction(store, Returned(page), domain, [f], None).0;
              nominal.Returned? && !nominal.value.outcome.isSuccess
  {
    NominalSuccessExactly(store, page, domain, [f]);
    assert f in [f];
  }

  lemma CacheWriteKeepsRows(s: C.State, op: nat)
    ensures C.Step(s, C.CacheWrite(op)).rows == s.rows
  {
  }

  lemma HistoriesAfterThree(s: C.State, save: Selector)
    requires HistoriesOk(s.rows) && 2 !in s.inFlight
    ensures HistoriesOk(C.Run(s, [C.CommitSave(2, save), C.CacheWrite(2), C.CacheWrite(1)]).rows)
  {
    F.RunThree(s, C.CommitSave(2, save), C.CacheWrite(2), C.CacheWrite(1));
    var rows', saved := C.CommitEffect(s, 2, save);
    var s1 := s.(rows := rows', inFlight := s.inFlight[2 := C.ToWrite(saved)]);
    CacheWriteKeepsRows(s1, 2);
    CacheWriteKeepsRows(C.Step(s1, C.CacheWrite(2)), 1);
  }

  /** A recovery of one field, and then the cache write of an older read. */
  lemma PersistThenOlderWrite(domain: string, item: (string, string))
    ensures PersistActions(2, domain, [item]) + [C.CacheWrite(1)] ==
            [C.CommitSave(2, Approved(domain, item)), C.CacheWrite(2), C.CacheWrite(1)]
  {
    assert [item][..0] == [];
    assert PersistActions(2, domain, [item][..0]) == [];
  }

  /** From the start, without a failure or a lost key: a reader of the field's first version is
      still about to cache it when the recovery persists its selector, and does so afterwards.
      The active row is the persisted one, but the first selector is used again, and a page on
      which it finds nothing is not extracted. */
  lemma PersistedSelectorOverwritten(first: Selector, domain: string, item: (string, string), page: Page)
    returns (before: seq<C.Action>)
    requires first.domain == domain && first.field == item.0
    ensures
      var s := C.Run(C.Run(C.INIT, before), PersistActions(2, domain, [item]) + [C.CacheWrite(1)]);
      var store := Store(s.rows, s.cache);
      && s.inFlight == map[] && ActiveIs(s, (domain, item.0), item.1)
      && Known(store, domain, item.0) == Some(first.value)
      && (page(first.value).Absent? ==>
            var nominal := Extraction(store, Returned(page), domain, [item.0], None).0;
            nominal.Returned? && !nominal.value.outcome.isSuccess)
  {
    before := [C.CommitSave(0, first)] + [C.BeginGet(1, domain, item.0), C.ReadTable(1), C.CacheWrite(0)];
    F.ReaderBehindFirstSave(first);
    var s0 := C.Run(C.INIT, before);
    PersistThenOlderWrite(domain, item);
    F.OvertakenByOne(s0, Approved(domain, item), first.(version := 1));
    HistoriesAfterThree(s0, Approved(domain, item));
    var s := C.Run(s0, PersistActions(2, domain, [item]) + [C.CacheWrite(1)]);
    CachedIsUsed(Store(s.rows, s.cache), domain, item.0, page);
  }
}
