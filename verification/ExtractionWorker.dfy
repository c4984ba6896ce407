/** The extraction worker: reading fields off a page, resolving known selectors, and the
    extract use case. */
module ExtractionWorker {
  import opened Basics
  import opened Text
  import opened Dicts
  import opened Validation
  import opened CacheKeys
  import opened SelectorStore
  import opened SelectorRepositories

  /** What a selector finds on a page: nothing, or a first element and its text content. */
  datatype Located = Absent | Present(text: Option<string>)

  type Page = string -> Located

  function TextOf(found: Located): string
    requires found.Present?
  {
    Strip(if found.text.Some? then found.text.value else "")
  }

  /** The text each selector finds, for the selectors that find something. */
  function ExtractedFields(page: Page, selectors: map<string, string>): Data {
    map f | f in selectors && page(selectors[f]).Present? :: TextOf(page(selectors[f]))
  }

  /** One more item adds its field, if its selector finds something. */
  lemma ExtractedStep(page: Page, selectors: Dict, i: nat)
    requires i < |selectors|
    ensures ExtractedFields(page, AsMap(selectors[..i + 1])) ==
            var before := ExtractedFields(page, AsMap(selectors[..i]));
            if page(selectors[i].1).Absent? then before
            else before[selectors[i].0 := TextOf(page(selectors[i].1))]
  {
    var before, after := AsMap(selectors[..i]), AsMap(selectors[..i + 1]);
    assert selectors[..i + 1][..i] == selectors[..i];
    assert after == before[selectors[i].0 := selectors[i].1];
    assert selectors[i].0 !in before by { AsMapKeys(selectors[..i]); }
  }

  /** The element's text, or nothing, is what is kept of it between white space. */
  ghost predicate TextKept(found: Located, kept: string) {
    found.Present? && Trims(if found.text.Some? then found.text.value else "", kept)
  }

  /** The extracted fields are those whose selector finds an element, each with the text of
      that element without the white space around it. */
  lemma ExtractedExactly(page: Page, selectors: map<string, string>, field: string)
    ensures
      var data := ExtractedFields(page, selectors);
      && (field in data <==> field in selectors && page(selectors[field]).Present?)
      && (field in data ==> TextKept(page(selectors[field]), data[field]))
      && (forall kept :: field in selectors && TextKept(page(selectors[field]), kept) ==>
            field in data && data[field] == kept)
  {
    if field in selectors && page(selectors[field]).Present? {
      var text := page(selectors[field]).text;
      var whole := if text.Some? then text.value else "";
      StripExactly(whole, Strip(whole));
      forall kept | TextKept(page(selectors[field]), kept) ensures kept == Strip(whole) {
        StripExactly(whole, kept);
      }
    }
  }

  /** The same, item by item of the dictionary the loop goes through. */
  lemma ExtractedItems(page: Page, selectors: Dict)
    ensures
      var data := ExtractedFields(page, AsMap(selectors));
      && (forall f :: f in data <==>
            exists i :: 0 <= i < |selectors| && selectors[i].0 == f && page(selectors[i].1).Present?)
      && (forall i :: 0 <= i < |selectors| && page(selectors[i].1).Present? ==>
            selectors[i].0 in data && TextKept(page(selectors[i].1), data[selectors[i].0]))
  {
    var data := ExtractedFields(page, AsMap(selectors));
    AsMapKeys(selectors);
    forall i | 0 <= i < |selectors|
      ensures selectors[i].0 in AsMap(selectors) && AsMap(selectors)[selectors[i].0] == selectors[i].1
    {
      AsMapAt(selectors, i);
    }
    forall i | 0 <= i < |selectors| && page(selectors[i].1).Present?
      ensures selectors[i].0 in data && TextKept(page(selectors[i].1), data[selectors[i].0])
    {
      ExtractedExactly(page, AsMap(selectors), selectors[i].0);
    }
  }

  method ExtractWithSelectors(page: Page, selectors: Dict) returns (extracted: Data)
    ensures extracted == ExtractedFields(page, AsMap(selectors))
    ensures forall f :: f in extracted <==>
              exists i :: 0 <= i < |selectors| && selectors[i].0 == f && page(selectors[i].1).Present?
    ensures forall i :: 0 <= i < |selectors| && page(selectors[i].1).Present? ==>
              selectors[i].0 in extracted && TextKept(page(selectors[i].1), extracted[selectors[i].0])
  {
    extracted := map[];
    for i := 0 to |selectors|
      invariant extracted == ExtractedFields(page, AsMap(selectors[..i]))
    {
      var (field, selector) := selectors[i];
      ExtractedStep(page, selectors, i);
      var found := page(selector);
      if found.Absent? { continue; }
      extracted := extracted[field := TextOf(found)];
    }
    assert selectors[..|selectors|] == selectors;
    ExtractedItems(page, selectors);
  }

  /** The selector finds an element with text that is not blank. */
  predicate FindsText(page: Page, selector: string) {
    page(selector).Present? && page(selector).text.Some? && !Blank(page(selector).text.value)
  }

  /** A field is extracted with usable text exactly when its selector finds text that is
      not blank. */
  lemma UsableExactly(page: Page, selectors: map<string, string>, field: string)
    ensures field in ExtractedFields(page, selectors) && !Blank(ExtractedFields(page, selectors)[field]) <==>
            field in selectors && FindsText(page, selectors[field])
  {
    if field in selectors && page(selectors[field]).Present? {
      var text := page(selectors[field]).text;
      StripFacts(if text.Some? then text.value else "");
    }
  }

  // ----- known selectors -----

  function Resolve(store: Store, domain: string, required: seq<string>): (Answer<Dict>, Store) {
    if required == [] then (Returned([]), store)
    else
      var n := |required| - 1;
      var (sofar, store1) := Resolve(store, domain, required[..n]);
      if sofar.Raised? then (Raised, store1)
      else
        var (known, store2) := Get(store1, domain, required[n]);
        if known.Raised? then (Raised, store2)
        else if known.value.None? then (sofar, store2)
        else (Returned(Put(sofar.value, required[n], known.value.value.value)), store2)
  }

  method ResolveKnownSelectors(repository: RedisPostgresSelectorRepository, domain: string, required: seq<string>)
    returns (r: Answer<Dict>)
    modifies repository`cache
    ensures (r, repository.Contents()) == Resolve(old(repository.Contents()), domain, required)
  {
    var resolved: Dict := [];
    for i := 0 to |required|
      invariant (Returned(resolved), repository.Contents()) ==
                Resolve(old(repository.Contents()), domain, required[..i])
    {
      assert required[..i + 1][..i] == required[..i];
      var known := repository.GetActiveSelector(domain, required[i]);
      if known.Raised? {
        ResolveRaises(old(repository.Contents()), domain, required, i + 1);
        return Raised;
      }
      if known.value.Some? {
        resolved := Put(resolved, required[i], known.value.value.value);
      }
    }
    assert required[..|required|] == required;
    r := Returned(resolved);
  }

  /** Once a read has raised, the rest of the fields are not looked at. */
  lemma {:induction false} ResolveRaises(store: Store, domain: string, required: seq<string>, i: nat)
    requires i <= |required| && Resolve(store, domain, required[..i]).0.Raised?
    ensures Resolve(store, domain, required) == (Raised, Resolve(store, domain, required[..i]).1)
    decreases |required|
  {
    if i == |required| {
      assert required[..i] == required;
    } else {
      var n := |required| - 1;
      assert required[..n][..i] == required[..i];
      ResolveRaises(store, domain, required[..n], i);
    }
  }

  /** The selector a read of this name uses now: the cached one, else the active row. */
  function Known(store: Store, domain: string, field: string): Option<string> {
    var (r, _) := Get(store, domain, field);
    if r.Returned? && r.value.Some? then Some(r.value.value.value) else None
  }

  /** A read changes no answer of its own domain: it may only warm its own key. */
  lemma ReadsKeepKnown(store: Store, domain: string, field: string, other: string)
    requires HistoriesOk(store.rows)
    ensures Get(store, domain, field).0.Returned?
    ensures Get(store, domain, field).1.rows == store.rows
    ensures Known(Get(store, domain, field).1, domain, other) == Known(store, domain, other)
  {
    assert WellVersioned(History(store.rows, domain, field));
    LookupIsNewest(store.rows, domain, field);
    SelectorStoreFacts(store.rows, domain, field);
    if CacheKey(domain, field) == CacheKey(domain, other) { KeyInjective(domain, field, domain, other); }
  }

  lemma {:induction false} ResolveKeepsKnown(store: Store, domain: string, required: seq<string>, f: string)
    requires HistoriesOk(store.rows)
    ensures Resolve(store, domain, required).0.Returned?
    ensures Resolve(store, domain, required).1.rows == store.rows
    ensures Known(Resolve(store, domain, required).1, domain, f) == Known(store, domain, f)
  {
    if required != [] {
      var n := |required| - 1;
      ResolveKeepsKnown(store, domain, required[..n], f);
      ReadsKeepKnown(Resolve(store, domain, required[..n]).1, domain, required[n], f);
    }
  }

  /** The required fields that have a known selector, with it. */
  function KnownSelectors(store: Store, domain: string, required: seq<string>): map<string, string> {
    map f | f in required && Known(store, domain, f).Some? :: Known(store, domain, f).value
  }

  /** Resolution keeps exactly the required fields with a known selector. */
  lemma {:induction false} ResolveMeaning(store: Store, domain: string, required: seq<string>)
    requires HistoriesOk(store.rows)
    ensures Resolve(store, domain, required).0.Returned?
    ensures AsMap(Resolve(store, domain, required).0.value) == KnownSelectors(store, domain, required)
  {
    if required != [] {
      var n := |required| - 1;
      var front, last := required[..n], required[n];
      ResolveMeaning(store, domain, front);
      ResolveKeepsKnown(store, domain, front, last);
      var (sofar, store1) := Resolve(store, domain, front);
      ReadsKeepKnown(store1, domain, last, last);
      var known := Get(store1, domain, last).0;
      assert Known(store1, domain, last) == Known(store, domain, last);
      assert required == front + [last];
      if known.value.Some? {
        PutIsMapUpdate(sofar.value, last, known.value.value.value);
        assert KnownSelectors(store, domain, required) ==
               KnownSelectors(store, domain, front)[last := known.value.value.value];
      } else {
        assert KnownSelectors(store, domain, required) == KnownSelectors(store, domain, front);
      }
    }
  }

  // ----- the use case -----

  datatype Attempt = Attempt(outcome: ExtractionOutcome, data: Data)

  /** One extraction, on values.  A page that does not load raises. */
  function Extraction(store: Store, page: Answer<Page>, domain: string, required: seq<string>, candidates: Option<Dict>)
    : (Answer<Attempt>, Store)
  {
    var (selectors, store') :=
      if candidates.Some? then (Returned(candidates.value), store) else Resolve(store, domain, required);
    if selectors.Raised? || page.Raised? then (Raised, store')
    else
      var data := ExtractedFields(page.value, AsMap(selectors.value));
      (Returned(Attempt(Validate(required, data), data)), store')
  }

  method Execute(repository: RedisPostgresSelectorRepository, page: Answer<Page>, domain: string,
                 required: seq<string>, candidates: Option<Dict>)
    returns (r: Answer<Attempt>)
    modifies repository`cache
    ensures (r, repository.Contents()) == Extraction(old(repository.Contents()), page, domain, required, candidates)
  {
    var selectors: Answer<Dict>;
    if candidates.Some? {
      selectors := Returned(candidates.value);
    } else {
      selectors := ResolveKnownSelectors(repository, domain, required);
    }
    if selectors.Raised? || page.Raised? { return Raised; }
    var data := ExtractWithSelectors(page.value, selectors.value);
    r := Returned(Attempt(Validate(required, data), data));
  }

  /** The page decides whether an extraction raises; candidates are used as they are, and no
      repository is touched for them. */
  lemma ExtractionMeaning(store: Store, page: Answer<Page>, domain: string, required: seq<string>,
                          candidates: Option<Dict>)
    requires HistoriesOk(store.rows)
    ensures
      var (r, store') := Extraction(store, page, domain, required, candidates);
      && (r.Raised? <==> page.Raised?)
      && store'.rows == store.rows
      && (candidates.Some? ==> store' == store)
      && (r.Returned? && candidates.Some? ==> r.value.data == ExtractedFields(page.value, AsMap(candidates.value)))
      && (r.Returned? ==> (r.value.outcome.isSuccess <==> Covers(required, r.value.data)))
  {
    if candidates.None? && required != [] { ResolveKeepsKnown(store, domain, required, required[0]); }
    var r := Extraction(store, page, domain, required, candidates).0;
    if r.Returned? { ValidateMeaning(required, r.value.data); }
  }

  /** The same for all required fields at once. */
  lemma CoveredExactly(page: Page, selectors: map<string, string>, required: seq<string>)
    ensures Covers(required, ExtractedFields(page, selectors)) <==>
            forall f :: f in required ==> f in selectors && FindsText(page, selectors[f])
  {
    var data := ExtractedFields(page, selectors);
    forall f ensures f in data && !Blank(data[f]) <==> f in selectors && FindsText(page, selectors[f]) {
      UsableExactly(page, selectors, f);
    }
    assert Covers(required, data) <==> forall f :: f in required ==> f in data && !Blank(data[f]);
  }

  /** The nominal path succeeds exactly when every required field has a known selector
      that finds text on the page. */
  lemma NominalSuccessExactly(store: Store, page: Page, domain: string, required: seq<string>)
    requires HistoriesOk(store.rows)
    ensures Extraction(store, Returned(page), domain, required, None).0.Returned?
    ensures Extraction(store, Returned(page), domain, required, None).0.value.outcome.isSuccess <==>
            forall f :: f in required ==>
              Known(store, domain, f).Some? && FindsText(page, Known(store, domain, f).value)
  {
    ResolveMeaning(store, domain, required);
    var selectors := KnownSelectors(store, domain, required);
    ValidateMeaning(required, ExtractedFields(page, selectors));
    CoveredExactly(page, selectors, required);
  }
}
