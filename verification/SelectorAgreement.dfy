/** The cached, versioned store against the plain in-memory map that specifies it, over
    whole runs of operations, and the save transaction when two of them overlap. */
module SelectorAgreement {
  import opened Basics
  import opened CacheKeys
  import opened SelectorStore

  // ----- runs -----

  datatype Op = SaveOp(selector: Selector) | GetOp(domain: string, field: string) | LoseOp(key: string)

  function RealStep(store: Store, op: Op): (Answer<Option<Selector>>, Store) {
    match op
    case SaveOp(selector) =>
      var (r, store') := Save(store, selector, false);
      (if r.Raised? then Raised else Returned(None), store')
    case GetOp(domain, field) => Get(store, domain, field)
    case LoseOp(key) => (Returned(None), store.(cache := store.cache - {key}))
  }

  function MemStep(mem: Memory, op: Op): (Answer<Option<Selector>>, Memory) {
    match op
    case SaveOp(selector) => (Returned(None), MemSave(mem, selector))
    case GetOp(domain, field) => (Returned(MemGet(mem, domain, field)), mem)
    case LoseOp(_) => (Returned(None), mem)
  }

  function RealAnswers(store: Store, ops: seq<Op>): seq<Answer<Option<Selector>>>
    decreases |ops|
  {
    if ops == [] then []
    else var (r, store') := RealStep(store, ops[0]); [r] + RealAnswers(store', ops[1..])
  }

  /** The store after a run. */
  function RealRun(store: Store, ops: seq<Op>): Store
    decreases |ops|
  {
    if ops == [] then store else RealRun(RealStep(store, ops[0]).1, ops[1..])
  }

  function MemAnswers(mem: Memory, ops: seq<Op>): seq<Answer<Option<Selector>>>
    decreases |ops|
  {
    if ops == [] then []
    else var (r, mem') := MemStep(mem, ops[0]); [r] + MemAnswers(mem', ops[1..])
  }

  /** The operation only uses the given names. */
  ghost predicate OpOver(op: Op, names: iset<(string, string)>) {
    match op
    case SaveOp(selector) => (selector.domain, selector.field) in names
    case GetOp(domain, field) => (domain, field) in names
    case LoseOp(_) => true
  }

  ghost predicate Over(ops: seq<Op>, names: iset<(string, string)>) {
    forall i :: 0 <= i < |ops| ==> OpOver(ops[i], names)
  }

  /** The version each name's first save carried.  Both repositories ignore the version of
      later saves; only the map takes over that of the first. */
  type FirstVersions = map<(string, string), int>

  function AfterOp(first: FirstVersions, op: Op): FirstVersions {
    if op.SaveOp? && (op.selector.domain, op.selector.field) !in first then
      first[(op.selector.domain, op.selector.field) := op.selector.version]
    else first
  }

  /** Every read is of a name without saves or with the default version on its first save. */
  ghost predicate DefaultReads(first: FirstVersions, ops: seq<Op>)
    decreases |ops|
  {
    ops != [] ==>
      && (ops[0].GetOp? && (ops[0].domain, ops[0].field) in first ==> first[(ops[0].domain, ops[0].field)] == 1)
      && DefaultReads(AfterOp(first, ops[0]), ops[1..])
  }

  /** The first save of every name carries the default version. */
  ghost predicate DefaultSaves(first: FirstVersions, ops: seq<Op>)
    decreases |ops|
  {
    ops != [] ==>
      && (ops[0].SaveOp? && (ops[0].selector.domain, ops[0].selector.field) !in first ==> ops[0].selector.version == 1)
      && DefaultSaves(AfterOp(first, ops[0]), ops[1..])
  }

  ghost predicate CollisionFree(names: iset<(string, string)>) {
    forall m, n :: m in names && n in names && CacheKey(m.0, m.1) == CacheKey(n.0, n.1) ==> m == n
  }

  // ----- the invariant that couples the two -----

  /** The map has the name's newest row, numbered on from the version of the first save. */
  ghost predicate NameCoupled(store: Store, mem: Memory, first: FirstVersions, name: (string, string)) {
    var h := History(store.rows, name.0, name.1);
    && (name in first <==> h != [])
    && MemGet(mem, name.0, name.1) ==
       if h == [] then None else Some(ToSelector(h[|h| - 1]).(version := first[name] + |h| - 1))
  }

  /** What the cache holds for a name is the newest row of that name. */
  ghost predicate CacheFresh(store: Store, name: (string, string)) {
    var key := CacheKey(name.0, name.1);
    var h := History(store.rows, name.0, name.1);
    key in store.cache ==> h != [] && FromEntry(name.0, name.1, store.cache[key]) == ToSelector(h[|h| - 1])
  }

  ghost predicate Coupled(store: Store, mem: Memory, first: FirstVersions, names: iset<(string, string)>) {
    && HistoriesOk(store.rows)
    && (forall name :: name in names ==> NameCoupled(store, mem, first, name) && CacheFresh(store, name))
  }

  lemma NewestFacts(rows: seq<Row>, domain: string, field: string)
    requires HistoriesOk(rows)
    ensures
      var h := History(rows, domain, field);
      h != [] ==> Named(h[|h| - 1], domain, field) && h[|h| - 1].version == |h|
  {
    HistoryNamed(rows, domain, field);
    assert WellVersioned(History(rows, domain, field));
  }

  lemma SaveStepCoupled(store: Store, mem: Memory, first: FirstVersions, names: iset<(string, string)>,
      selector: Selector)
    requires CollisionFree(names) && Coupled(store, mem, first, names) && OpOver(SaveOp(selector), names)
    ensures RealStep(store, SaveOp(selector)).0 == Returned(None)
    ensures Coupled(RealStep(store, SaveOp(selector)).1, MemSave(mem, selector), AfterOp(first, SaveOp(selector)),
            names)
  {
    var rows' := SaveRowsExtendsHistory(store.rows, selector);
    SavedCoupled(store, mem, first, names, selector, rows', RealStep(store, SaveOp(selector)).1);
  }

  /** A save leaves the coupling of every other name as it is. */
  lemma SavedOther(store: Store, store': Store, mem: Memory, first: FirstVersions, selector: Selector,
      name: (string, string))
    requires NameCoupled(store, mem, first, name) && CacheFresh(store, name)
    requires name != (selector.domain, selector.field)
    requires History(store'.rows, name.0, name.1) == History(store.rows, name.0, name.1)
    requires
      var key := CacheKey(name.0, name.1);
      key in store'.cache ==> key in store.cache && store'.cache[key] == store.cache[key]
    ensures NameCoupled(store', MemSave(mem, selector), AfterOp(first, SaveOp(selector)), name)
    ensures CacheFresh(store', name)
  {
    assert MemGet(MemSave(mem, selector), name.0, name.1) == MemGet(mem, name.0, name.1);
  }

  lemma SavedSame(store: Store, store': Store, mem: Memory, first: FirstVersions, selector: Selector)
    requires HistoriesOk(store.rows) && NameCoupled(store, mem, first, (selector.domain, selector.field))
    requires History(store'.rows, selector.domain, selector.field) ==
             Extended(History(store.rows, selector.domain, selector.field), selector)
    requires
      var version := |History(store.rows, selector.domain, selector.field)| + 1;
      store'.cache == store.cache[CacheKey(selector.domain, selector.field) := ToEntry(selector.(version := version))]
    ensures NameCoupled(store', MemSave(mem, selector), AfterOp(first, SaveOp(selector)),
            (selector.domain, selector.field))
    ensures CacheFresh(store', (selector.domain, selector.field))
  {
    SavedOwn(mem, first, selector, History(store.rows, selector.domain, selector.field));
  }

  lemma SavedCoupled(store: Store, mem: Memory, first: FirstVersions, names: iset<(string, string)>, selector: Selector,
                     rows': seq<Row>, store': Store)
    requires CollisionFree(names) && Coupled(store, mem, first, names) && OpOver(SaveOp(selector), names)
    requires HistoriesOk(rows')
    requires forall domain, field :: History(rows', domain, field) ==
               if (domain, field) == (selector.domain, selector.field)
               then Extended(History(store.rows, domain, field), selector)
               else History(store.rows, domain, field)
    requires
      var version := |History(store.rows, selector.domain, selector.field)| + 1;
      store' == WriteCache(store.(rows := rows'), ToSelector(NextRow(selector, version)))
    ensures Coupled(store', MemSave(mem, selector), AfterOp(first, SaveOp(selector)), names)
  {
    var mem', first' := MemSave(mem, selector), AfterOp(first, SaveOp(selector));
    var own := (selector.domain, selector.field);
    forall name | name in names ensures NameCoupled(store', mem', first', name) && CacheFresh(store', name) {
      assert NameCoupled(store, mem, first, name) && CacheFresh(store, name);
      if name != own {
        SavedOther(store, store', mem, first, selector, name);
      } else {
        SavedSame(store, store', mem, first, selector);
      }
    }
  }

  /** The map numbers a save as the table does, on from the first version. */
  lemma SavedOwn(mem: Memory, first: FirstVersions, selector: Selector, h: seq<Row>)
    requires
      var own := (selector.domain, selector.field);
      && (own in first <==> h != [])
      && MemGet(mem, own.0, own.1) ==
         if h == [] then None else Some(ToSelector(h[|h| - 1]).(version := first[own] + |h| - 1))
    ensures
      var own := (selector.domain, selector.field);
      var saved := ToSelector(NextRow(selector, |h| + 1));
      && own in AfterOp(first, SaveOp(selector))
      && MemGet(MemSave(mem, selector), own.0, own.1) ==
         Some(saved.(version := AfterOp(first, SaveOp(selector))[own] + |h|))
      && Extended(h, selector) != [] && |Extended(h, selector)| == |h| + 1
      && ToSelector(Extended(h, selector)[|h|]) == saved
  {
  }

  /** Filling the cache with what the table says. */
  lemma FilledCoupled(store: Store, mem: Memory, first: FirstVersions, names: iset<(string, string)>, found: Selector)
    requires CollisionFree(names) && Coupled(store, mem, first, names) && (found.domain, found.field) in names
    requires
      var h := History(store.rows, found.domain, found.field);
      h != [] && ToSelector(h[|h| - 1]) == found
    ensures Coupled(WriteCache(store, found), mem, first, names)
  {
    var store' := WriteCache(store, found);
    forall name | name in names ensures NameCoupled(store', mem, first, name) && CacheFresh(store', name) {
      assert NameCoupled(store, mem, first, name) && CacheFresh(store, name);
    }
  }

  /** A read gives the map's answer, up to the version, which is the map's exactly when the
      first save carried the default. */
  lemma GetStepCoupled(store: Store, mem: Memory, first: FirstVersions, names: iset<(string, string)>,
                       domain: string, field: string)
    requires CollisionFree(names) && Coupled(store, mem, first, names) && (domain, field) in names
    ensures RealStep(store, GetOp(domain, field)).0 == Returned(MemGet(mem, domain, field)) <==>
            ((domain, field) in first ==> first[(domain, field)] == 1)
    ensures Coupled(RealStep(store, GetOp(domain, field)).1, mem, first, names)
  {
    assert NameCoupled(store, mem, first, (domain, field)) && CacheFresh(store, (domain, field));
    assert WellVersioned(History(store.rows, domain, field));
    LookupIsNewest(store.rows, domain, field);
    NewestFacts(store.rows, domain, field);
    var found := GetFromDb(store.rows, domain, field).value;
    if found.Some? { FilledCoupled(store, mem, first, names, found.value); }
  }

  lemma LoseStepCoupled(store: Store, mem: Memory, first: FirstVersions, names: iset<(string, string)>, key: string)
    requires Coupled(store, mem, first, names)
    ensures Coupled(RealStep(store, LoseOp(key)).1, mem, first, names)
  {
    var store' := RealStep(store, LoseOp(key)).1;
    forall name | name in names ensures NameCoupled(store', mem, first, name) && CacheFresh(store', name) {
      assert NameCoupled(store, mem, first, name) && CacheFresh(store, name);
    }
  }

  /** One operation: the answers agree exactly when it is not a read of a name whose first save
      carried another version. */
  lemma StepCoupled(store: Store, mem: Memory, first: FirstVersions, names: iset<(string, string)>, op: Op)
    requires CollisionFree(names) && Coupled(store, mem, first, names) && OpOver(op, names)
    ensures RealStep(store, op).0 == MemStep(mem, op).0 <==>
            (op.GetOp? && (op.domain, op.field) in first ==> first[(op.domain, op.field)] == 1)
    ensures Coupled(RealStep(store, op).1, MemStep(mem, op).1, AfterOp(first, op), names)
  {
    match op
    case SaveOp(selector) => SaveStepCoupled(store, mem, first, names, selector);
    case GetOp(domain, field) => GetStepCoupled(store, mem, first, names, domain, field);
    case LoseOp(key) => LoseStepCoupled(store, mem, first, names, key);
  }

  /** From coupled states a run of saves, reads and lost cache entries gives the same answers as
      the in-memory map exactly when each name it reads had the default version on its first
      save. */
  lemma {:induction false} RunAgreesExactly(
      store: Store, mem: Memory, first: FirstVersions, names: iset<(string, string)>, ops: seq<Op>)
    requires CollisionFree(names) && Coupled(store, mem, first, names) && Over(ops, names)
    ensures RealAnswers(store, ops) == MemAnswers(mem, ops) <==> DefaultReads(first, ops)
    decreases |ops|
  {
    if ops != [] {
      var (r, store') := RealStep(store, ops[0]);
      var (q, mem') := MemStep(mem, ops[0]);
      assert OpOver(ops[0], names);
      StepCoupled(store, mem, first, names, ops[0]);
      RunAgreesExactly(store', mem', AfterOp(first, ops[0]), names, ops[1..]);
      HeadAndTail(r, RealAnswers(store', ops[1..]), q, MemAnswers(mem', ops[1..]));
    }
  }

  lemma HeadAndTail<T>(a: T, s: seq<T>, b: T, t: seq<T>)
    ensures [a] + s == [b] + t <==> a == b && s == t
  {
    if [a] + s == [b] + t {
      assert ([a] + s)[0] == ([b] + t)[0];
      assert s == ([a] + s)[1..] == ([b] + t)[1..] == t;
    }
  }

  ghost predicate AllDefault(first: FirstVersions) {
    forall name :: name in first ==> first[name] == 1
  }

  lemma {:induction false} DefaultSavesAreReadDefault(first: FirstVersions, ops: seq<Op>)
    requires AllDefault(first) && DefaultSaves(first, ops)
    ensures DefaultReads(first, ops)
    decreases |ops|
  {
    if ops != [] { DefaultSavesAreReadDefault(AfterOp(first, ops[0]), ops[1..]); }
  }

  /** From coupled states every run in which the first save of each new name carries the default
      version gives the same answers as the in-memory map. */
  lemma CoupledRunsAgree(store: Store, mem: Memory, first: FirstVersions, names: iset<(string, string)>, ops: seq<Op>)
    requires CollisionFree(names) && Coupled(store, mem, first, names) && Over(ops, names)
    requires AllDefault(first) && DefaultSaves(first, ops)
    ensures RealAnswers(store, ops) == MemAnswers(mem, ops)
  {
    DefaultSavesAreReadDefault(first, ops);
    RunAgreesExactly(store, mem, first, names, ops);
  }

  /** Every run over the names in which first saves carry the default version agrees. */
  ghost predicate AgreesOver(names: iset<(string, string)>) {
    forall ops :: Over(ops, names) && DefaultSaves(map[], ops) ==> RealAnswers(EMPTY, ops) == MemAnswers(map[], ops)
  }

  lemma TwoSteps(store: Store, mem: Memory, a: Op, b: Op)
    ensures RealAnswers(store, [a, b]) == [RealStep(store, a).0, RealStep(RealStep(store, a).1, b).0]
    ensures MemAnswers(mem, [a, b]) == [MemStep(mem, a).0, MemStep(MemStep(mem, a).1, b).0]
  {
    assert [a, b][1..] == [b] && [b][1..] == [];
    var (r, store1) := RealStep(store, a);
    var (q, mem1) := MemStep(mem, a);
    assert RealAnswers(store1, [b]) == [RealStep(store1, b).0] + RealAnswers(RealStep(store1, b).1, []);
    assert MemAnswers(mem1, [b]) == [MemStep(mem1, b).0] + MemAnswers(MemStep(mem1, b).1, []);
  }

  /** Saving one name and reading another that shares its key tells the two apart. */
  lemma CollisionSeparates(m: (string, string), n: (string, string), names: iset<(string, string)>)
    requires m in names && n in names && m != n && CacheKey(m.0, m.1) == CacheKey(n.0, n.1)
    ensures !AgreesOver(names)
  {
    var selector := Selector(m.0, m.1, "x", Manual, 1);
    var ops := [SaveOp(selector), GetOp(n.0, n.1)];
    assert ops[1..] == [GetOp(n.0, n.1)] && ops[1..][1..] == [];
    assert Over(ops, names) && DefaultSaves(map[], ops);
    var store1 := RealStep(EMPTY, ops[0]).1;
    assert store1.cache[CacheKey(n.0, n.1)] == CacheEntry("x", Manual, 1);
    TwoSteps(EMPTY, map[], ops[0], ops[1]);
    assert RealAnswers(EMPTY, ops)[1] != MemAnswers(map[], ops)[1];
  }

  lemma EmptyCoupled(names: iset<(string, string)>)
    ensures Coupled(EMPTY, map[], map[], names)
  {
    EmptyHistories();
  }

  /** Over a set of names, every run of saves, reads and lost cache entries in which the first
      save of each name carries the default version gives the same answers as the in-memory map
      exactly when no two of the names share a cache key. */
  lemma AgreementExactly(names: iset<(string, string)>)
    ensures AgreesOver(names) <==> CollisionFree(names)
  {
    if CollisionFree(names) {
      forall ops | Over(ops, names) && DefaultSaves(map[], ops)
        ensures RealAnswers(EMPTY, ops) == MemAnswers(map[], ops)
      {
        EmptyCoupled(names);
        CoupledRunsAgree(EMPTY, map[], map[], names, ops);
      }
    } else {
      var m, n :| m in names && n in names && CacheKey(m.0, m.1) == CacheKey(n.0, n.1) && m != n;
      CollisionSeparates(m, n, names);
    }
  }

  /** In particular for all names whose fields contain no ':'. */
  lemma AgreementWithoutColons()
    ensures AgreesOver(iset name: (string, string) | ':' !in name.1)
  {
    var names := iset name: (string, string) | ':' !in name.1;
    forall m, n | m in names && n in names && CacheKey(m.0, m.1) == CacheKey(n.0, n.1) ensures m == n {
      KeyInjective(m.0, m.1, n.0, n.1);
    }
    AgreementExactly(names);
  }

  // ----- two save transactions that overlap -----

  /** A save that commits on `rows` what it decided after reading `read`. */
  function CommitAfterRead(read: seq<Row>, rows: seq<Row>, selector: Selector): Answer<seq<Row>>
    requires |read| <= |rows|
  {
    match FindActive(read, selector.domain, selector.field)
    case NoRow => Returned(rows + [NextRow(selector, 1)])
    case OneRow(i) =>
      if i < |read| then Returned(rows[i := Deactivated(rows[i])] + [NextRow(selector, read[i].version + 1)])
      else Raised
    case MultipleRows => Raised
  }

  lemma {:induction false} FindActiveOfOthers(rows: seq<Row>, i: nat, row: Row, domain: string, field: string)
    requires i < |rows| && !Named(rows[i], domain, field) && !Named(row, domain, field)
    ensures FindActive(rows[i := row], domain, field) == FindActive(rows, domain, field)
  {
    var n := |rows| - 1;
    assert rows[i := row][..n] == if i == n then rows[..n] else rows[..n][i := row];
    if i < n { FindActiveOfOthers(rows[..n], i, row, domain, field); }
  }

  lemma FindActiveSnoc(rows: seq<Row>, row: Row, domain: string, field: string)
    ensures FindActive(rows + [row], domain, field) ==
            if !(Named(row, domain, field) && row.isActive) then FindActive(rows, domain, field)
            else if FindActive(rows, domain, field).NoRow? then OneRow(|rows|) else MultipleRows
  {
    assert (rows + [row])[..|rows|] == rows;
  }

  lemma SaveKeepsOtherLookups(rows: seq<Row>, selector: Selector, domain: string, field: string)
    requires HistoriesOk(rows) && (domain, field) != (selector.domain, selector.field)
    ensures SaveRows(rows, selector).Returned?
    ensures FindActive(SaveRows(rows, selector).value, domain, field) == FindActive(rows, domain, field)
    ensures |SaveRows(rows, selector).value| == |rows| + 1
    ensures forall j :: 0 <= j < |rows| ==> Deactivated(SaveRows(rows, selector).value[j]) == Deactivated(rows[j])
  {
    assert WellVersioned(History(rows, selector.domain, selector.field));
    LookupIsNewest(rows, selector.domain, selector.field);
    match FindActive(rows, selector.domain, selector.field)
    case NoRow => FindActiveSnoc(rows, NextRow(selector, 1), domain, field);
    case OneRow(i) =>
      FindActiveOfOthers(rows, i, Deactivated(rows[i]), domain, field);
      FindActiveSnoc(rows[i := Deactivated(rows[i])], NextRow(selector, rows[i].version + 1), domain, field);
  }

  lemma SameNameOverlapBreaks(rows: seq<Row>, first: Selector, second: Selector)
    requires HistoriesOk(rows) && first.domain == second.domain && first.field == second.field
    ensures SaveRows(rows, first).Returned? && |rows| <= |SaveRows(rows, first).value|
    ensures
      var both := CommitAfterRead(rows, SaveRows(rows, first).value, second);
      && both.Returned?
      && FindActive(both.value, first.domain, first.field).MultipleRows?
  {
    assert WellVersioned(History(rows, first.domain, first.field));
    LookupIsNewest(rows, first.domain, first.field);
    match FindActive(rows, first.domain, first.field)
    case NoRow =>
      var rows1 := rows + [NextRow(first, 1)];
      FindActiveSnoc(rows, NextRow(first, 1), first.domain, first.field);
      FindActiveSnoc(rows1, NextRow(second, 1), first.domain, first.field);
    case OneRow(i) =>
      var base, version := rows[i := Deactivated(rows[i])], rows[i].version + 1;
      var rows1 := base + [NextRow(first, version)];
      assert rows1[i := Deactivated(rows1[i])] == rows1;
      FindActiveSnoc(base, NextRow(first, version), first.domain, first.field);
      FindActiveSnoc(rows1, NextRow(second, version), first.domain, first.field);
  }

  /** For different names the second save sees nothing of the first. */
  lemma OtherNameOverlapIsSequential(rows: seq<Row>, first: Selector, second: Selector)
    requires HistoriesOk(rows) && (first.domain, first.field) != (second.domain, second.field)
    ensures SaveRows(rows, first).Returned? && |rows| <= |SaveRows(rows, first).value|
    ensures CommitAfterRead(rows, SaveRows(rows, first).value, second) == SaveRows(SaveRows(rows, first).value, second)
  {
    SaveKeepsOtherLookups(rows, first, second.domain, second.field);
    var rows1 := SaveRows(rows, first).value;
    assert WellVersioned(History(rows, second.domain, second.field));
    LookupIsNewest(rows, second.domain, second.field);
    if FindActive(rows, second.domain, second.field).OneRow? {
      var i := FindActive(rows, second.domain, second.field).index;
      assert Deactivated(rows1[i]) == Deactivated(rows[i]);
      assert rows1[i].version == rows[i].version;
    }
  }

  /** Two saves that both read before either commits keep the table well-versioned exactly
      when they save different names.  For the same name they leave two active rows, and
      from then on every read of that name past the cache raises. */
  lemma OverlappingSavesExactly(rows: seq<Row>, first: Selector, second: Selector)
    requires HistoriesOk(rows)
    ensures SaveRows(rows, first).Returned? && |rows| <= |SaveRows(rows, first).value|
    ensures
      var both := CommitAfterRead(rows, SaveRows(rows, first).value, second);
      && both.Returned?
      && (HistoriesOk(both.value) <==> (first.domain, first.field) != (second.domain, second.field))
      && (!HistoriesOk(both.value) ==> GetFromDb(both.value, first.domain, first.field).Raised?)
  {
    if (first.domain, first.field) == (second.domain, second.field) {
      SameNameOverlapBreaks(rows, first, second);
      var both := CommitAfterRead(rows, SaveRows(rows, first).value, second).value;
      if HistoriesOk(both) {
        assert WellVersioned(History(both, first.domain, first.field));
        LookupIsNewest(both, first.domain, first.field);
        assert false;
      }
    } else {
      OtherNameOverlapIsSequential(rows, first, second);
      var rows1 := SaveRowsExtendsHistory(rows, first);
      var rows2 := SaveRowsExtendsHistory(rows1, second);
    }
  }
}
