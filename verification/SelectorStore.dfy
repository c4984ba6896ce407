/** The versioned selector table with its cache, on values: what each repository operation
    does to the rows and to the cache, and what the rows look like after any run. */
module SelectorStore {
  import opened Basics
  import opened CacheKeys

  datatype Source = Manual | AiGenerated

  datatype Selector = Selector(domain: string, field: string, value: string, source: Source, version: int)

  datatype Row = Row(domain: string, field: string, value: string, version: int, source: Source, isActive: bool)

  datatype CacheEntry = CacheEntry(value: string, source: Source, version: int)

  datatype Store = Store(rows: seq<Row>, cache: map<string, CacheEntry>)

  const EMPTY := Store([], map[])

  function ToSelector(row: Row): Selector {
    Selector(row.domain, row.field, row.value, row.source, row.version)
  }

  function FromEntry(domain: string, field: string, entry: CacheEntry): Selector {
    Selector(domain, field, entry.value, entry.source, entry.version)
  }

  function ToEntry(selector: Selector): CacheEntry {
    CacheEntry(selector.value, selector.source, selector.version)
  }

  predicate Named(row: Row, domain: string, field: string) {
    row.domain == domain && row.field == field
  }

  // ----- the database queries -----

  /** `scalar_one_or_none` over the active rows of a name. */
  datatype Lookup = NoRow | OneRow(index: nat) | MultipleRows

  function FindActive(rows: seq<Row>, domain: string, field: string): Lookup {
    if rows == [] then NoRow
    else
      var n := |rows| - 1;
      var rest := FindActive(rows[..n], domain, field);
      if !(Named(rows[n], domain, field) && rows[n].isActive) then rest
      else if rest.NoRow? then OneRow(n)
      else MultipleRows
  }

  function Deactivated(row: Row): Row {
    row.(isActive := false)
  }

  function NextRow(selector: Selector, version: int): Row {
    Row(selector.domain, selector.field, selector.value, version, selector.source, true)
  }

  /** The save transaction: the new rows, or the exception of an ambiguous active row. */
  function SaveRows(rows: seq<Row>, selector: Selector): Answer<seq<Row>> {
    match FindActive(rows, selector.domain, selector.field)
    case NoRow => Returned(rows + [NextRow(selector, 1)])
    case OneRow(i) =>
      if i < |rows| then Returned(rows[i := Deactivated(rows[i])] + [NextRow(selector, rows[i].version + 1)])
      else Raised
    case MultipleRows => Raised
  }

  // ----- the repository operations -----

  function WriteCache(store: Store, selector: Selector): Store {
    store.(cache := store.cache[CacheKey(selector.domain, selector.field) := ToEntry(selector)])
  }

  function GetFromDb(rows: seq<Row>, domain: string, field: string): Answer<Option<Selector>> {
    match FindActive(rows, domain, field)
    case NoRow => Returned(None)
    case OneRow(i) => if i < |rows| then Returned(Some(ToSelector(rows[i]))) else Raised
    case MultipleRows => Raised
  }

  function Get(store: Store, domain: string, field: string): (Answer<Option<Selector>>, Store) {
    var key := CacheKey(domain, field);
    if key in store.cache then (Returned(Some(FromEntry(domain, field, store.cache[key]))), store)
    else
      var fromDb := GetFromDb(store.rows, domain, field);
      if fromDb.Returned? && fromDb.value.Some? then (fromDb, WriteCache(store, fromDb.value.value))
      else (fromDb, store)
  }

  /** Saving: the table first, then the cache.  A failing cache write raises after the
      table has already changed. */
  function Save(store: Store, selector: Selector, cacheFails: bool): (Answer<()>, Store) {
    match SaveRows(store.rows, selector)
    case Raised => (Raised, store)
    case Returned(rows) =>
      if cacheFails then (Raised, store.(rows := rows))
      else (Returned(()), WriteCache(store.(rows := rows), ToSelector(rows[|rows| - 1])))
  }

  // ----- the in-memory repository, on values -----

  type Memory = map<(string, string), Selector>

  function MemGet(mem: Memory, domain: string, field: string): Option<Selector> {
    if (domain, field) in mem then Some(mem[(domain, field)]) else None
  }

  function MemSave(mem: Memory, selector: Selector): Memory {
    var name := (selector.domain, selector.field);
    var version := if name in mem then mem[name].version + 1 else selector.version;
    mem[name := selector.(version := version)]
  }

  // ----- histories -----

  /** The rows of one name, oldest first. */
  function History(rows: seq<Row>, domain: string, field: string): seq<Row> {
    if rows == [] then []
    else
      var n := |rows| - 1;
      History(rows[..n], domain, field) + (if Named(rows[n], domain, field) then [rows[n]] else [])
  }

  /** Versions count from 1 and only the newest row is active. */
  ghost predicate WellVersioned(history: seq<Row>) {
    forall i :: 0 <= i < |history| ==> history[i].version == i + 1 && (history[i].isActive <==> i == |history| - 1)
  }

  ghost predicate HistoriesOk(rows: seq<Row>) {
    forall domain, field :: WellVersioned(History(rows, domain, field))
  }

  lemma {:induction false} HistoryNamed(rows: seq<Row>, domain: string, field: string)
    ensures forall i :: 0 <= i < |History(rows, domain, field)| ==>
            Named(History(rows, domain, field)[i], domain, field)
  {
    if rows != [] { HistoryNamed(rows[..|rows| - 1], domain, field); }
  }

  lemma HistorySnoc(rows: seq<Row>, row: Row, domain: string, field: string)
    ensures History(rows + [row], domain, field) ==
            History(rows, domain, field) + (if Named(row, domain, field) then [row] else [])
  {
    assert (rows + [row])[..|rows|] == rows;
  }

  /** Where a row of a name sits in that name's history. */
  lemma {:induction false} HistoryIndex(rows: seq<Row>, i: nat, domain: string, field: string) returns (rank: nat)
    requires i < |rows| && Named(rows[i], domain, field)
    ensures rank < |History(rows, domain, field)| && History(rows, domain, field)[rank] == rows[i]
    ensures forall row: Row :: Named(row, domain, field) ==>
              History(rows[i := row], domain, field) == History(rows, domain, field)[rank := row]
  {
    var n := |rows| - 1;
    var front := rows[..n];
    if i == n {
      rank := |History(front, domain, field)|;
      forall row: Row | Named(row, domain, field)
        ensures History(rows[i := row], domain, field) == History(rows, domain, field)[rank := row]
      {
        assert rows[i := row][..n] == front;
      }
    } else {
      rank := HistoryIndex(front, i, domain, field);
      forall row: Row | Named(row, domain, field)
        ensures History(rows[i := row], domain, field) == History(rows, domain, field)[rank := row]
      {
        assert rows[i := row][..n] == front[i := row];
      }
    }
  }

  lemma {:induction false} HistoryOfOthers(rows: seq<Row>, i: nat, row: Row, domain: string, field: string)
    requires i < |rows| && !Named(rows[i], domain, field) && !Named(row, domain, field)
    ensures History(rows[i := row], domain, field) == History(rows, domain, field)
  {
    var n := |rows| - 1;
    assert rows[i := row][..n] == if i == n then rows[..n] else rows[..n][i := row];
    if i < n { HistoryOfOthers(rows[..n], i, row, domain, field); }
  }

  /** The lookup finds the one active row of a name, if there is exactly one. */
  lemma {:induction false} FindActiveMeaning(rows: seq<Row>, domain: string, field: string)
    ensures match FindActive(rows, domain, field)
            case NoRow => forall i :: 0 <= i < |History(rows, domain, field)| ==>
                !History(rows, domain, field)[i].isActive
            case OneRow(i) =>
              && i < |rows| && Named(rows[i], domain, field) && rows[i].isActive
              && (forall j :: 0 <= j < |rows| && j != i ==> !(Named(rows[j], domain, field) && rows[j].isActive))
            case MultipleRows =>
              exists i, j :: 0 <= i < j < |History(rows, domain, field)| &&
                             History(rows, domain, field)[i].isActive && History(rows, domain, field)[j].isActive
  {
    if rows != [] {
      var n := |rows| - 1;
      var front := rows[..n];
      FindActiveMeaning(front, domain, field);
      var h, h' := History(front, domain, field), History(rows, domain, field);
      if Named(rows[n], domain, field) && rows[n].isActive {
        match FindActive(front, domain, field)
        case NoRow =>
          NoActiveRow(front, domain, field);
        case OneRow(i) =>
          var rank := HistoryIndex(front, i, domain, field);
          assert h'[rank].isActive && h'[|h|].isActive;
        case MultipleRows =>
          var i, j :| 0 <= i < j < |h| && h[i].isActive && h[j].isActive;
          assert h'[i].isActive && h'[j].isActive;
      } else {
        match FindActive(front, domain, field)
        case NoRow =>
        case OneRow(i) =>
          assert front[i] == rows[i];
          assert forall j :: 0 <= j < n ==> front[j] == rows[j];
        case MultipleRows =>
          var i, j :| 0 <= i < j < |h| && h[i].isActive && h[j].isActive;
          assert h'[i].isActive && h'[j].isActive;
      }
    }
  }

  lemma NoActiveRow(rows: seq<Row>, domain: string, field: string)
    requires forall i :: 0 <= i < |History(rows, domain, field)| ==> !History(rows, domain, field)[i].isActive
    ensures forall j :: 0 <= j < |rows| ==> !(Named(rows[j], domain, field) && rows[j].isActive)
  {
    forall j | 0 <= j < |rows| ensures !(Named(rows[j], domain, field) && rows[j].isActive) {
      if Named(rows[j], domain, field) { var rank := HistoryIndex(rows, j, domain, field); }
    }
  }

  /** On a well-versioned history the lookup returns the newest row, or nothing. */
  lemma LookupIsNewest(rows: seq<Row>, domain: string, field: string)
    requires WellVersioned(History(rows, domain, field))
    ensures
      var h := History(rows, domain, field);
      GetFromDb(rows, domain, field) == Returned(if h == [] then None else Some(ToSelector(h[|h| - 1])))
    ensures FindActive(rows, domain, field).NoRow? <==> History(rows, domain, field) == []
    ensures FindActive(rows, domain, field).OneRow? ==>
              var i := FindActive(rows, domain, field).index;
              i < |rows| && Named(rows[i], domain, field) && rows[i].isActive
    ensures !FindActive(rows, domain, field).MultipleRows?
  {
    var h := History(rows, domain, field);
    FindActiveMeaning(rows, domain, field);
    if FindActive(rows, domain, field).OneRow? {
      var rank := HistoryIndex(rows, FindActive(rows, domain, field).index, domain, field);
      assert h[rank].isActive;
    }
    if h != [] { assert h[|h| - 1].isActive; }
  }

  /** A history with one more save: the newest row retired, the new one on top. */
  function Extended(h: seq<Row>, selector: Selector): seq<Row> {
    (if h == [] then [] else h[|h| - 1 := Deactivated(h[|h| - 1])]) + [NextRow(selector, |h| + 1)]
  }

  /** Retiring the active row retires the newest one of its name's history. */
  lemma RetiredHistory(rows: seq<Row>, i: nat, domain: string, field: string)
    requires i < |rows| && Named(rows[i], domain, field) && rows[i].isActive
    requires WellVersioned(History(rows, domain, field))
    ensures
      var h := History(rows, domain, field);
      && h != [] && h[|h| - 1] == rows[i] && rows[i].version == |h|
      && History(rows[i := Deactivated(rows[i])], domain, field) == h[|h| - 1 := Deactivated(h[|h| - 1])]
  {
    var rank := HistoryIndex(rows, i, domain, field);
    var h := History(rows, domain, field);
    assert h[rank].isActive;
    assert rank == |h| - 1;
    assert Named(Deactivated(rows[i]), domain, field);
  }

  /** Retiring the active row and adding its successor extends the history. */
  lemma SuccessorExtends(rows: seq<Row>, i: nat, selector: Selector)
    requires i < |rows| && Named(rows[i], selector.domain, selector.field) && rows[i].isActive
    requires WellVersioned(History(rows, selector.domain, selector.field))
    ensures
      var h := History(rows, selector.domain, selector.field);
      && rows[i].version == |h|
      && History(rows[i := Deactivated(rows[i])] + [NextRow(selector, |h| + 1)], selector.domain, selector.field) ==
         Extended(h, selector)
  {
    var h := History(rows, selector.domain, selector.field);
    RetiredHistory(rows, i, selector.domain, selector.field);
    HistorySnoc(rows[i := Deactivated(rows[i])], NextRow(selector, |h| + 1), selector.domain, selector.field);
  }

  lemma SaveExtendsOwn(rows: seq<Row>, selector: Selector)
    requires WellVersioned(History(rows, selector.domain, selector.field))
    ensures SaveRows(rows, selector).Returned?
    ensures
      var rows' := SaveRows(rows, selector).value;
      var h := History(rows, selector.domain, selector.field);
      && History(rows', selector.domain, selector.field) == Extended(h, selector)
      && rows' != [] && rows'[|rows'| - 1] == NextRow(selector, |h| + 1)
  {
    var h := History(rows, selector.domain, selector.field);
    LookupIsNewest(rows, selector.domain, selector.field);
    match FindActive(rows, selector.domain, selector.field)
    case NoRow =>
      HistorySnoc(rows, NextRow(selector, 1), selector.domain, selector.field);
      assert SaveRows(rows, selector) == Returned(rows + [NextRow(selector, |h| + 1)]);
    case OneRow(i) =>
      SuccessorExtends(rows, i, selector);
      assert SaveRows(rows, selector) == Returned(rows[i := Deactivated(rows[i])] + [NextRow(selector, |h| + 1)]);
  }

  lemma SaveKeepsOthers(rows: seq<Row>, selector: Selector, domain: string, field: string)
    requires WellVersioned(History(rows, selector.domain, selector.field))
    requires (domain, field) != (selector.domain, selector.field)
    ensures SaveRows(rows, selector).Returned?
    ensures History(SaveRows(rows, selector).value, domain, field) == History(rows, domain, field)
  {
    LookupIsNewest(rows, selector.domain, selector.field);
    match FindActive(rows, selector.domain, selector.field)
    case NoRow =>
      HistorySnoc(rows, NextRow(selector, 1), domain, field);
    case OneRow(i) =>
      var retired := Deactivated(rows[i]);
      HistorySnoc(rows[i := retired], NextRow(selector, rows[i].version + 1), domain, field);
      HistoryOfOthers(rows, i, retired, domain, field);
  }

  lemma ExtendedWellVersioned(h: seq<Row>, selector: Selector)
    requires WellVersioned(h)
    ensures WellVersioned(Extended(h, selector))
  {
  }

  /** What one save does to every history: its own name gets a new active row on top of
      the deactivated previous one, with the next version; other names are untouched. */
  lemma SaveRowsExtendsHistory(rows: seq<Row>, selector: Selector) returns (rows': seq<Row>)
    requires HistoriesOk(rows)
    ensures SaveRows(rows, selector) == Returned(rows') && HistoriesOk(rows')
    ensures forall domain, field :: History(rows', domain, field) ==
              if (domain, field) == (selector.domain, selector.field)
              then Extended(History(rows, domain, field), selector)
              else History(rows, domain, field)
    ensures rows' != [] &&
            rows'[|rows'| - 1] == NextRow(selector, |History(rows, selector.domain, selector.field)| + 1)
  {
    assert WellVersioned(History(rows, selector.domain, selector.field));
    SaveExtendsOwn(rows, selector);
    rows' := SaveRows(rows, selector).value;
    forall domain, field
      ensures WellVersioned(History(rows', domain, field))
      ensures History(rows', domain, field) ==
                if (domain, field) == (selector.domain, selector.field)
                then Extended(History(rows, domain, field), selector)
                else History(rows, domain, field)
    {
      assert WellVersioned(History(rows, domain, field));
      if (domain, field) == (selector.domain, selector.field) {
        ExtendedWellVersioned(History(rows, domain, field), selector);
      } else {
        SaveKeepsOthers(rows, selector, domain, field);
      }
    }
  }

  /** What a save transaction leaves of a name's history. */
  ghost predicate SavedRows(rows: seq<Row>, save: Selector, rows': seq<Row>) {
    && HistoriesOk(rows) && HistoriesOk(rows')
    && forall domain, field :: History(rows', domain, field) ==
         if (domain, field) == (save.domain, save.field) then Extended(History(rows, domain, field), save)
         else History(rows, domain, field)
  }

  /** What a save leaves behind: the history of its name extended by the next active version, all
      others untouched, and the saved selector in the cache, unless writing it there raised. */
  ghost predicate SavedStore(store: Store, save: Selector, cacheFails: bool, store': Store) {
    && SavedRows(store.rows, save, store'.rows)
    && store'.cache ==
       (if cacheFails then store.cache
        else
          var version := |History(store.rows, save.domain, save.field)| + 1;
          store.cache[CacheKey(save.domain, save.field) := CacheEntry(save.value, save.source, version)])
  }

  /** On a well-versioned table a save raises exactly when its cache write does, and is stored
      either way. */
  lemma SaveMeaning(store: Store, selector: Selector, cacheFails: bool)
    requires HistoriesOk(store.rows)
    ensures Save(store, selector, cacheFails).0.Raised? <==> cacheFails
    ensures SavedStore(store, selector, cacheFails, Save(store, selector, cacheFails).1)
  {
    var rows' := SaveRowsExtendsHistory(store.rows, selector);
  }

  /** After a save, a read of the name that goes past the cache gives the saved selector with its
      new version, also when the save raised at its cache write. */
  lemma SavedIsRead(store: Store, selector: Selector, cacheFails: bool, store': Store, later: Store)
    requires HistoriesOk(store.rows) && SavedStore(store, selector, cacheFails, store')
    requires later.rows == store'.rows
    requires CacheKey(selector.domain, selector.field) in later.cache ==>
               !cacheFails && later.cache == store'.cache
    ensures
      var version := |History(store.rows, selector.domain, selector.field)| + 1;
      Get(later, selector.domain, selector.field).0 == Returned(Some(selector.(version := version)))
  {
    var h := History(store.rows, selector.domain, selector.field);
    assert History(store'.rows, selector.domain, selector.field) == Extended(h, selector);
    assert WellVersioned(History(later.rows, selector.domain, selector.field));
    LookupIsNewest(later.rows, selector.domain, selector.field);
  }

  // ----- whole runs of saves -----

  function SaveAllRows(rows: seq<Row>, saves: seq<Selector>): Answer<seq<Row>>
    decreases |saves|
  {
    if saves == [] then Returned(rows)
    else
      var first := SaveRows(rows, saves[0]);
      if first.Raised? then Raised else SaveAllRows(first.value, saves[1..])
  }

  /** The saves of one name, in order. */
  function SavesOf(saves: seq<Selector>, domain: string, field: string): seq<Selector> {
    if saves == [] then []
    else (if saves[0].domain == domain && saves[0].field == field then [saves[0]] else [])
         + SavesOf(saves[1..], domain, field)
  }

  /** Row `k` of a name's history records the k-th save of that name. */
  ghost predicate Records(row: Row, save: Selector) {
    row.domain == save.domain && row.field == save.field && row.value == save.value && row.source == save.source
  }

  /** `later` is `earlier`, changed at most in the active flags, followed by one row for
      each of the saves. */
  ghost predicate Appends(earlier: seq<Row>, later: seq<Row>, saves: seq<Selector>) {
    && |later| == |earlier| + |saves|
    && (forall i :: 0 <= i < |earlier| ==> Deactivated(later[i]) == Deactivated(earlier[i]))
    && (forall i :: |earlier| <= i < |later| ==> Records(later[i], saves[i - |earlier|]))
  }

  lemma AppendsInTurn(a: seq<Row>, b: seq<Row>, c: seq<Row>, first: seq<Selector>, second: seq<Selector>)
    requires Appends(a, b, first) && Appends(b, c, second)
    ensures Appends(a, c, first + second)
  {
    forall i | 0 <= i < |b| ensures Deactivated(c[i]) == Deactivated(b[i]) { }
    forall i | |a| <= i < |c| ensures Records(c[i], (first + second)[i - |a|]) {
      if i < |b| { assert Records(b[i], first[i - |a|]); }
    }
  }

  lemma ExtendedAppends(h: seq<Row>, save: Selector)
    ensures Appends(h, Extended(h, save), [save])
  {
  }

  lemma SavesInTurn(h: seq<Row>, next: seq<Row>, later: seq<Row>, own: bool, save: Selector, rest: seq<Selector>)
    requires next == if own then Extended(h, save) else h
    requires Appends(next, later, rest)
    ensures Appends(h, later, (if own then [save] else []) + rest)
  {
    if own {
      ExtendedAppends(h, save);
      AppendsInTurn(h, next, later, [save], rest);
    } else {
      assert [] + rest == rest;
    }
  }

  /** From any well-versioned table, any list of saves goes through and leaves, for every
      name, the old rows (changed at most in the active flag) followed by one row for each
      save of that name, in order; the table stays well-versioned. */
  lemma {:induction false} RunsOfSavesAppend(rows: seq<Row>, saves: seq<Selector>, domain: string, field: string)
    requires HistoriesOk(rows)
    ensures SaveAllRows(rows, saves).Returned? && HistoriesOk(SaveAllRows(rows, saves).value)
    ensures Appends(History(rows, domain, field), History(SaveAllRows(rows, saves).value, domain, field),
                    SavesOf(saves, domain, field))
    decreases |saves|
  {
    if saves != [] {
      var next := SaveRowsExtendsHistory(rows, saves[0]);
      RunsOfSavesAppend(next, saves[1..], domain, field);
      SavesInTurn(History(rows, domain, field), History(next, domain, field),
                  History(SaveAllRows(next, saves[1..]).value, domain, field),
                  saves[0].domain == domain && saves[0].field == field, saves[0], SavesOf(saves[1..], domain, field));
    }
  }

  /** Read off after any run from an empty table. */
  lemma VersionsCountSaves(saves: seq<Selector>, domain: string, field: string)
    ensures SaveAllRows([], saves).Returned?
    ensures
      var h := History(SaveAllRows([], saves).value, domain, field);
      var own := SavesOf(saves, domain, field);
      && |h| == |own|
      && forall k :: 0 <= k < |own| ==>
           && Records(h[k], own[k]) && h[k].version == k + 1 && (h[k].isActive <==> k == |own| - 1)
  {
    EmptyHistories();
    RunsOfSavesAppend([], saves, domain, field);
    var h := History(SaveAllRows([], saves).value, domain, field);
    var own := SavesOf(saves, domain, field);
    assert WellVersioned(h);
    assert |h| == |own|;
    forall k | 0 <= k < |own|
      ensures Records(h[k], own[k]) && h[k].version == k + 1 && (h[k].isActive <==> k == |own| - 1)
    {
      assert Records(h[k], own[k - 0]);
    }
  }

  lemma EmptyHistories()
    ensures HistoriesOk([])
  {
  }
}
