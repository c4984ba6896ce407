/** The two selector repositories, updated in place. */
module SelectorRepositories {
  import opened Basics
  import opened CacheKeys
  import opened SelectorStore

  /** What saves of one name amount to: the last of them, numbered on from the first. */
  function Latest(saves: seq<Selector>): Option<Selector> {
    if saves == [] then None else Some(saves[|saves| - 1].(version := saves[0].version + |saves| - 1))
  }

  lemma {:induction false} SavesOfSnoc(saves: seq<Selector>, save: Selector, domain: string, field: string)
    ensures SavesOf(saves + [save], domain, field) ==
            SavesOf(saves, domain, field) + (if save.domain == domain && save.field == field then [save] else [])
    decreases |saves|
  {
    var all := saves + [save];
    if saves == [] {
      assert all[1..] == [];
    } else {
      assert all[0] == saves[0] && all[1..] == saves[1..] + [save];
      SavesOfSnoc(saves[1..], save, domain, field);
      var head := if saves[0].domain == domain && saves[0].field == field then [saves[0]] else [];
      var last := if save.domain == domain && save.field == field then [save] else [];
      assert head + (SavesOf(saves[1..], domain, field) + last) == (head + SavesOf(saves[1..], domain, field)) + last;
    }
  }

  /** The map holds what the saves amount to. */
  ghost predicate Remembers(mem: Memory, saves: seq<Selector>) {
    forall domain, field :: MemGet(mem, domain, field) == Latest(SavesOf(saves, domain, field))
  }

  lemma SaveIsLatest(mem: Memory, saves: seq<Selector>, save: Selector)
    requires Remembers(mem, saves)
    ensures Remembers(MemSave(mem, save), saves + [save])
  {
    assert MemGet(mem, save.domain, save.field) == Latest(SavesOf(saves, save.domain, save.field));
    forall domain, field
      ensures MemGet(MemSave(mem, save), domain, field) == Latest(SavesOf(saves + [save], domain, field))
    {
      assert MemGet(mem, domain, field) == Latest(SavesOf(saves, domain, field));
      SavesOfSnoc(saves, save, domain, field);
    }
  }

  class InMemorySelectorRepository {
    var selectors: map<(string, string), Selector>
    /** Everything saved so far, in order. */
    ghost var saved: seq<Selector>

    constructor ()
      ensures Valid() && saved == []
    {
      selectors, saved := map[], [];
    }

    ghost predicate Valid()
      reads this
    {
      Remembers(selectors, saved)
    }

    method GetActiveSelector(domain: string, field: string) returns (r: Option<Selector>)
      requires Valid()
      ensures r == MemGet(selectors, domain, field) == Latest(SavesOf(saved, domain, field))
    {
      r := if (domain, field) in selectors then Some(selectors[(domain, field)]) else None;
      assert r == MemGet(selectors, domain, field);
    }

    method SaveSelector(selector: Selector)
      requires Valid()
      modifies this
      ensures Valid() && saved == old(saved) + [selector]
      ensures selectors == MemSave(old(selectors), selector)
    {
      SaveIsLatest(selectors, saved, selector);
      var name := (selector.domain, selector.field);
      var nextVersion := selector.version;
      if name in selectors { nextVersion := selectors[name].version + 1; }
      selectors := selectors[name := Selector(selector.domain, selector.field, selector.value, selector.source,
          nextVersion)];
      saved := saved + [selector];
    }
  }

  class RedisPostgresSelectorRepository {
    var rows: seq<Row>
    var cache: map<string, CacheEntry>

    constructor ()
      ensures Contents() == EMPTY
    {
      rows, cache := [], map[];
    }

    ghost function Contents(): Store
      reads this
    {
      Store(rows, cache)
    }

    method GetFromCache(domain: string, field: string) returns (r: Option<Selector>)
      ensures r.Some? <==> CacheKey(domain, field) in cache
      ensures r.Some? ==> r.value == FromEntry(domain, field, cache[CacheKey(domain, field)])
    {
      var key := CacheKey(domain, field);
      if key !in cache { return None; }
      r := Some(FromEntry(domain, field, cache[key]));
    }

    method WriteToCache(selector: Selector)
      modifies this`cache
      ensures Contents() == WriteCache(old(Contents()), selector)
    {
      cache := cache[CacheKey(selector.domain, selector.field) := ToEntry(selector)];
    }

    method GetFromPostgres(domain: string, field: string) returns (r: Answer<Option<Selector>>)
      ensures r == GetFromDb(rows, domain, field)
      ensures HistoriesOk(rows) ==>
                var h := History(rows, domain, field);
                r == Returned(if h == [] then None else Some(ToSelector(h[|h| - 1])))
    {
      if HistoriesOk(rows) {
        assert WellVersioned(History(rows, domain, field));
        LookupIsNewest(rows, domain, field);
      }
      var found := FindActive(rows, domain, field);
      match found
      case NoRow => r := Returned(None);
      case OneRow(i) => r := if i < |rows| then Returned(Some(ToSelector(rows[i]))) else Raised;
      case MultipleRows => r := Raised;
    }

    method GetActiveSelector(domain: string, field: string) returns (r: Answer<Option<Selector>>)
      modifies this`cache
      ensures (r, Contents()) == Get(old(Contents()), domain, field)
      ensures HistoriesOk(rows) && CacheKey(domain, field) !in old(cache) ==>
                var h := History(rows, domain, field);
                && r == Returned(if h == [] then None else Some(ToSelector(h[|h| - 1])))
                && cache == if h == [] then old(cache)
                            else old(cache)[CacheKey(domain, field) :=
                              CacheEntry(h[|h| - 1].value, h[|h| - 1].source, |h|)]
      ensures CacheKey(domain, field) in old(cache) ==>
                && cache == old(cache)
                && r == Returned(Some(FromEntry(domain, field, cache[CacheKey(domain, field)])))
    {
      var cached := GetFromCache(domain, field);
      if cached.Some? { return Returned(cached); }
      r := GetFromPostgres(domain, field);
      if r.Returned? && r.value.Some? {
        SelectorStoreFacts(rows, domain, field);
        WriteToCache(r.value.value);
      }
    }

    method SaveToPostgres(selector: Selector) returns (r: Answer<Selector>)
      modifies this`rows
      ensures r.Raised? <==> SaveRows(old(rows), selector).Raised?
      ensures r.Raised? ==> rows == old(rows)
      ensures r.Returned? ==> rows == SaveRows(old(rows), selector).value && r.value == ToSelector(rows[|rows| - 1])
    {
      var previous := FindActive(rows, selector.domain, selector.field);
      if previous.MultipleRows? || (previous.OneRow? && previous.index >= |rows|) { return Raised; }
      var nextVersion := 1;
      if previous.OneRow? {
        nextVersion := rows[previous.index].version + 1;
        rows := rows[previous.index := Deactivated(rows[previous.index])];
      }
      var added := Row(selector.domain, selector.field, selector.value, nextVersion, selector.source, true);
      rows := rows + [added];
      r := Returned(ToSelector(added));
    }

    /** `cacheFails` says whether the cache write at the end raises. */
    method SaveSelector(selector: Selector, cacheFails: bool) returns (r: Answer<()>)
      modifies this
      ensures (r, Contents()) == Save(old(Contents()), selector, cacheFails)
      ensures HistoriesOk(old(rows)) ==>
                (r.Raised? <==> cacheFails) && SavedStore(old(Contents()), selector, cacheFails, Contents())
    {
      if HistoriesOk(rows) { SaveMeaning(Contents(), selector, cacheFails); }
      var saved := SaveToPostgres(selector);
      if saved.Raised? || cacheFails { return Raised; }
      WriteToCache(saved.value);
      r := Returned(());
    }
  }

  /** A row found for a name carries that name. */
  lemma SelectorStoreFacts(rows: seq<Row>, domain: string, field: string)
    ensures GetFromDb(rows, domain, field).Returned? && GetFromDb(rows, domain, field).value.Some? ==>
              GetFromDb(rows, domain, field).value.value.domain == domain &&
              GetFromDb(rows, domain, field).value.value.field == field
  {
    FindActiveMeaning(rows, domain, field);
  }
}
