/** The cache-aside repository when operations overlap: a read is split into cache read,
    table read and cache write, a save into its (atomic) transaction and its cache write;
    cache writes may come late or fail. */
module CacheAside {
  import opened Basics
  import opened CacheKeys
  import opened SelectorStore
  import opened SelectorAgreement
  import opened SelectorRepositories

  /** Where an operation in flight stands. */
  datatype Pending = Missed(domain: string, field: string) | ToWrite(selector: Selector)

  /** What a read found for its name, and how many versions the name had at that moment (the
      code does not keep that number).  A read whose cache write raises is not told after all. */
  datatype Told = Told(domain: string, field: string, found: Option<Selector>, versions: nat)

  datatype State = State(
    rows: seq<Row>, cache: map<string, CacheEntry>, inFlight: map<nat, Pending>, told: seq<Told>)

  datatype Action =
    | BeginGet(op: nat, domain: string, field: string)
    | ReadTable(op: nat)
    | CommitSave(op: nat, selector: Selector)
    | CacheWrite(op: nat)
    | CacheWriteFails(op: nat)
    | Lose(key: string)

  const INIT := State([], map[], map[], [])

  function Tell(s: State, domain: string, field: string, found: Option<Selector>): State {
    s.(told := s.told + [Told(domain, field, found, |History(s.rows, domain, field)|)])
  }

  /** An action that is not enabled leaves the state as it is. */
  function Step(s: State, a: Action): State {
    match a
    case BeginGet(op, domain, field) =>
      var key := CacheKey(domain, field);
      if op in s.inFlight then s
      else if key in s.cache then Tell(s, domain, field, Some(FromEntry(domain, field, s.cache[key])))
      else s.(inFlight := s.inFlight[op := Missed(domain, field)])
    case ReadTable(op) =>
      if op in s.inFlight && s.inFlight[op].Missed? then
        var (domain, field) := (s.inFlight[op].domain, s.inFlight[op].field);
        var found := GetFromDb(s.rows, domain, field);
        if found.Raised? then s.(inFlight := s.inFlight - {op})
        else if found.value.None? then Tell(s, domain, field, None).(inFlight := s.inFlight - {op})
        else Tell(s, domain, field, found.value).(inFlight := s.inFlight[op := ToWrite(found.value.value)])
      else s
    case CommitSave(op, selector) =>
      if op in s.inFlight then s
      else
        var rows := SaveRows(s.rows, selector);
        if rows.Raised? then s
        else s.(rows := rows.value,
                inFlight := s.inFlight[op := ToWrite(ToSelector(rows.value[|rows.value| - 1]))])
    case CacheWrite(op) =>
      if op in s.inFlight && s.inFlight[op].ToWrite? then
        var selector := s.inFlight[op].selector;
        s.(cache := s.cache[CacheKey(selector.domain, selector.field) := ToEntry(selector)],
           inFlight := s.inFlight - {op})
      else s
    case CacheWriteFails(op) =>
      if op in s.inFlight && s.inFlight[op].ToWrite? then s.(inFlight := s.inFlight - {op}) else s
    case Lose(key) => s.(cache := s.cache - {key})
  }

  function Run(s: State, actions: seq<Action>): State
    decreases |actions|
  {
    if actions == [] then s else Run(Step(s, actions[0]), actions[1..])
  }

  ghost predicate ActionOver(a: Action, names: iset<(string, string)>) {
    match a
    case BeginGet(_, domain, field) => (domain, field) in names
    case CommitSave(_, selector) => (selector.domain, selector.field) in names
    case _ => true
  }

  ghost predicate ActionsOver(actions: seq<Action>, names: iset<(string, string)>) {
    forall i :: 0 <= i < |actions| ==> ActionOver(actions[i], names)
  }

  // ----- an undisturbed call is its steps in a row -----

  /** What the repository's calls see of a state. */
  function StoreOf(s: State): Store {
    Store(s.rows, s.cache)
  }

  /** A save by an idle operation: the transaction, then the cache write, or its failure.  It is
      what the repository's `SaveSelector` does to table and cache. */
  lemma SaveIsSteps(s: State, op: nat, selector: Selector, cacheFails: bool)
    requires op !in s.inFlight
    ensures
      var s' := Step(Step(s, CommitSave(op, selector)), if cacheFails then CacheWriteFails(op) else CacheWrite(op));
      var (r, store') := Save(StoreOf(s), selector, cacheFails);
      s' == s.(rows := store'.rows, cache := store'.cache)
  {
    var s1 := Step(s, CommitSave(op, selector));
    if op in s1.inFlight { assert s1.inFlight - {op} == s.inFlight; }
  }

  /** A read by an idle operation: the cache, the table after a miss, and the cache write after a
      hit there.  It leaves the cache, and tells the reader, what `GetActiveSelector` does. */
  lemma GetIsSteps(s: State, op: nat, domain: string, field: string)
    requires op !in s.inFlight
    ensures
      var s' := Step(Step(Step(s, BeginGet(op, domain, field)), ReadTable(op)), CacheWrite(op));
      var (r, store') := Get(StoreOf(s), domain, field);
      s' == if r.Raised? then s else Tell(s, domain, field, r.value).(cache := store'.cache)
  {
    SelectorStoreFacts(s.rows, domain, field);
    var s1 := Step(s, BeginGet(op, domain, field));
    var s2 := Step(s1, ReadTable(op));
    if op in s1.inFlight {
      assert s1.inFlight - {op} == s.inFlight;
      if op in s2.inFlight { assert s2.inFlight - {op} == s.inFlight; }
    }
  }

  // ----- safety: nothing but genuine rows is ever cached -----

  /** The selector is a row of its name's history, up to the active flag. */
  ghost predicate Genuine(rows: seq<Row>, selector: Selector) {
    var h := History(rows, selector.domain, selector.field);
    1 <= selector.version <= |h| && ToSelector(h[selector.version - 1]) == selector
  }

  ghost predicate Newest(rows: seq<Row>, selector: Selector) {
    var h := History(rows, selector.domain, selector.field);
    h != [] && ToSelector(h[|h| - 1]) == selector
  }

  ghost predicate PendingSound(rows: seq<Row>, names: iset<(string, string)>, p: Pending) {
    match p
    case Missed(domain, field) => (domain, field) in names
    case ToWrite(selector) => (selector.domain, selector.field) in names && Genuine(rows, selector)
  }

  ghost predicate Sound(s: State, names: iset<(string, string)>) {
    && HistoriesOk(s.rows)
    && (forall op :: op in s.inFlight ==> PendingSound(s.rows, names, s.inFlight[op]))
    && (forall name :: name in names && CacheKey(name.0, name.1) in s.cache ==>
          Genuine(s.rows, FromEntry(name.0, name.1, s.cache[CacheKey(name.0, name.1)])))
  }

  lemma NewestIsGenuine(rows: seq<Row>, domain: string, field: string)
    requires HistoriesOk(rows)
    ensures
      var h := History(rows, domain, field);
      h != [] ==> Genuine(rows, ToSelector(h[|h| - 1])) && Named(h[|h| - 1], domain, field)
  {
    NewestFacts(rows, domain, field);
    var h := History(rows, domain, field);
    if h != [] {
      var newest := ToSelector(h[|h| - 1]);
      assert newest.domain == domain && newest.field == field && newest.version == |h|;
      assert History(rows, newest.domain, newest.field) == h;
      assert h[newest.version - 1] == h[|h| - 1];
    }
  }

  /** The save transaction of the repository, with the selector it goes on to cache. */
  lemma CommitEffect(s: State, op: nat, save: Selector) returns (rows': seq<Row>, saved: Selector)
    requires HistoriesOk(s.rows)
    ensures SavedRows(s.rows, save, rows')
    ensures saved == save.(version := |History(s.rows, save.domain, save.field)| + 1)
    ensures op !in s.inFlight ==>
            Step(s, CommitSave(op, save)) == s.(rows := rows', inFlight := s.inFlight[op := ToWrite(saved)])
  {
    rows' := SaveRowsExtendsHistory(s.rows, save);
    saved := ToSelector(rows'[|rows'| - 1]);
  }

  lemma NewestVersion(rows: seq<Row>, selector: Selector)
    requires HistoriesOk(rows) && Newest(rows, selector)
    ensures |History(rows, selector.domain, selector.field)| == selector.version
  {
    NewestFacts(rows, selector.domain, selector.field);
  }

  lemma GenuineSurvivesSave(rows: seq<Row>, save: Selector, rows': seq<Row>, selector: Selector)
    requires SavedRows(rows, save, rows') && Genuine(rows, selector)
    ensures Genuine(rows', selector)
  {
    assert History(rows', selector.domain, selector.field) ==
           if (selector.domain, selector.field) == (save.domain, save.field)
           then Extended(History(rows, selector.domain, selector.field), save)
           else History(rows, selector.domain, selector.field);
  }

  lemma SavedIsNewest(rows: seq<Row>, save: Selector, rows': seq<Row>)
    requires SavedRows(rows, save, rows')
    ensures
      var saved := save.(version := |History(rows, save.domain, save.field)| + 1);
      Genuine(rows', saved) && Newest(rows', saved)
  {
    assert History(rows', save.domain, save.field) == Extended(History(rows, save.domain, save.field), save);
  }

  lemma CommitSound(s: State, names: iset<(string, string)>, op: nat, save: Selector)
    requires Sound(s, names) && (save.domain, save.field) in names
    ensures Sound(Step(s, CommitSave(op, save)), names)
  {
    if op !in s.inFlight {
      var rows', saved := CommitEffect(s, op, save);
      SavedIsNewest(s.rows, save, rows');
      var s' := s.(rows := rows', inFlight := s.inFlight[op := ToWrite(saved)]);
      forall o | o in s'.inFlight ensures PendingSound(rows', names, s'.inFlight[o]) {
        if o != op {
          assert PendingSound(s.rows, names, s.inFlight[o]);
          if s.inFlight[o].ToWrite? { GenuineSurvivesSave(s.rows, save, rows', s.inFlight[o].selector); }
        }
      }
      forall name | name in names && CacheKey(name.0, name.1) in s.cache
        ensures Genuine(rows', FromEntry(name.0, name.1, s.cache[CacheKey(name.0, name.1)]))
      {
        GenuineSurvivesSave(s.rows, save, rows', FromEntry(name.0, name.1, s.cache[CacheKey(name.0, name.1)]));
      }
    }
  }

  lemma StepSound(s: State, names: iset<(string, string)>, a: Action)
    requires CollisionFree(names) && Sound(s, names) && ActionOver(a, names)
    ensures Sound(Step(s, a), names)
  {
    match a {
      case CommitSave(op, save) => CommitSound(s, names, op, save);
      case ReadTable(op) =>
        if op in s.inFlight && s.inFlight[op].Missed? {
          var domain, field := s.inFlight[op].domain, s.inFlight[op].field;
          assert WellVersioned(History(s.rows, domain, field));
          LookupIsNewest(s.rows, domain, field);
          NewestIsGenuine(s.rows, domain, field);
        }
      case CacheWrite(op) =>
        if op in s.inFlight && s.inFlight[op].ToWrite? {
          var selector := s.inFlight[op].selector;
          assert FromEntry(selector.domain, selector.field, ToEntry(selector)) == selector;
          var s' := Step(s, a);
          forall name | name in names && CacheKey(name.0, name.1) in s'.cache
            ensures Genuine(s'.rows, FromEntry(name.0, name.1, s'.cache[CacheKey(name.0, name.1)]))
          {
            if CacheKey(name.0, name.1) == CacheKey(selector.domain, selector.field) {
              assert name == (selector.domain, selector.field);
            }
          }
        }
      case _ =>
    }
  }

  lemma {:induction false} RunSound(s: State, names: iset<(string, string)>, actions: seq<Action>)
    requires CollisionFree(names) && Sound(s, names) && ActionsOver(actions, names)
    ensures Sound(Run(s, actions), names)
    decreases |actions|
  {
    if actions != [] {
      assert ActionOver(actions[0], names);
      StepSound(s, names, actions[0]);
      RunSound(Step(s, actions[0]), names, actions[1..]);
    }
  }

  /** In every interleaving, whatever a name's cache entry says is a row that name really
      had, and its version is at most that of the active row. */
  lemma CachedEntriesAreGenuine(names: iset<(string, string)>, actions: seq<Action>, name: (string, string))
    requires CollisionFree(names) && ActionsOver(actions, names) && name in names
    ensures
      var s := Run(INIT, actions);
      var key := CacheKey(name.0, name.1);
      var active := GetFromDb(s.rows, name.0, name.1);
      && active.Returned?
      && (key in s.cache ==>
            && Genuine(s.rows, FromEntry(name.0, name.1, s.cache[key]))
            && active.value.Some?
            && s.cache[key].version <= active.value.value.version)
  {
    EmptyHistories();
    assert Sound(INIT, names);
    RunSound(INIT, names, actions);
    var s := Run(INIT, actions);
    assert WellVersioned(History(s.rows, name.0, name.1));
    LookupIsNewest(s.rows, name.0, name.1);
    NewestFacts(s.rows, name.0, name.1);
  }

  // ----- what readers are told -----

  /** The answer is a row its name really had, no newer than what there was to read; there is
      none only if the name had no row. */
  ghost predicate TrueAnswer(rows: seq<Row>, t: Told) {
    && t.versions <= |History(rows, t.domain, t.field)|
    && match t.found
       case None => t.versions == 0
       case Some(selector) =>
         && (selector.domain, selector.field) == (t.domain, t.field)
         && Genuine(rows, selector) && selector.version <= t.versions
  }

  ghost predicate AllTrue(s: State) {
    forall i :: 0 <= i < |s.told| ==> TrueAnswer(s.rows, s.told[i])
  }

  lemma TrueSurvivesSave(rows: seq<Row>, save: Selector, rows': seq<Row>, t: Told)
    requires SavedRows(rows, save, rows') && TrueAnswer(rows, t)
    ensures TrueAnswer(rows', t)
  {
    assert History(rows', t.domain, t.field) ==
           if (t.domain, t.field) == (save.domain, save.field) then Extended(History(rows, t.domain, t.field), save)
           else History(rows, t.domain, t.field);
    if t.found.Some? { GenuineSurvivesSave(rows, save, rows', t.found.value); }
  }

  lemma TellKeepsTrue(s: State, domain: string, field: string, found: Option<Selector>)
    requires AllTrue(s)
    requires TrueAnswer(s.rows, Told(domain, field, found, |History(s.rows, domain, field)|))
    ensures AllTrue(Tell(s, domain, field, found))
  {
  }

  lemma StepKeepsTrue(s: State, names: iset<(string, string)>, a: Action)
    requires Sound(s, names) && ActionOver(a, names) && AllTrue(s)
    ensures AllTrue(Step(s, a))
  {
    match a {
      case BeginGet(op, domain, field) =>
        var key := CacheKey(domain, field);
        if op !in s.inFlight && key in s.cache {
          assert Genuine(s.rows, FromEntry(domain, field, s.cache[key])) by {
            assert (domain, field) in names && CacheKey((domain, field).0, (domain, field).1) in s.cache;
          }
          TellKeepsTrue(s, domain, field, Some(FromEntry(domain, field, s.cache[key])));
        }
      case ReadTable(op) =>
        if op in s.inFlight && s.inFlight[op].Missed? {
          var domain, field := s.inFlight[op].domain, s.inFlight[op].field;
          assert WellVersioned(History(s.rows, domain, field));
          LookupIsNewest(s.rows, domain, field);
          NewestIsGenuine(s.rows, domain, field);
          TellKeepsTrue(s, domain, field, GetFromDb(s.rows, domain, field).value);
        }
      case CommitSave(op, save) =>
        if op !in s.inFlight {
          var rows', saved := CommitEffect(s, op, save);
          forall i | 0 <= i < |s.told| ensures TrueAnswer(rows', s.told[i]) {
            TrueSurvivesSave(s.rows, save, rows', s.told[i]);
          }
        }
      case _ =>
    }
  }

  lemma {:induction false} RunKeepsTrue(s: State, names: iset<(string, string)>, actions: seq<Action>)
    requires CollisionFree(names) && Sound(s, names) && ActionsOver(actions, names) && AllTrue(s)
    ensures AllTrue(Run(s, actions))
    decreases |actions|
  {
    if actions != [] {
      assert ActionOver(actions[0], names);
      StepSound(s, names, actions[0]);
      StepKeepsTrue(s, names, actions[0]);
      RunKeepsTrue(Step(s, actions[0]), names, actions[1..]);
    }
  }

  /** In every interleaving, whatever a reader is told is a row its name really had, and it is
      told that there is none only if the name had no row when it read. */
  lemma AnswersAreGenuine(names: iset<(string, string)>, actions: seq<Action>, i: nat)
    requires CollisionFree(names) && ActionsOver(actions, names) && i < |Run(INIT, actions).told|
    ensures
      var s := Run(INIT, actions);
      var t := s.told[i];
      && (t.found.None? <==> t.versions == 0)
      && (t.found.Some? ==>
            && Genuine(s.rows, t.found.value)
            && (t.found.value.domain, t.found.value.field) == (t.domain, t.field)
            && t.found.value.version <= t.versions)
  {
    EmptyHistories();
    assert Sound(INIT, names);
    RunKeepsTrue(INIT, names, actions);
  }

  // ----- freshness: when operations do not overlap -----

  /** Actions in sequence: an operation begins only when none is in flight, and no cache
      write fails. */
  ghost predicate OneAtATime(s: State, actions: seq<Action>)
    decreases |actions|
  {
    actions != [] ==>
      && (actions[0].BeginGet? || actions[0].CommitSave? ==> s.inFlight == map[])
      && !actions[0].CacheWriteFails?
      && OneAtATime(Step(s, actions[0]), actions[1..])
  }

  ghost predicate NameFresh(s: State, name: (string, string)) {
    var key := CacheKey(name.0, name.1);
    key in s.cache ==> Newest(s.rows, FromEntry(name.0, name.1, s.cache[key]))
  }

  /** The name is about to be overwritten in the cache. */
  ghost predicate BeingWritten(s: State, name: (string, string)) {
    exists op :: op in s.inFlight && s.inFlight[op].ToWrite? &&
                 name == (s.inFlight[op].selector.domain, s.inFlight[op].selector.field)
  }

  ghost predicate Orderly(s: State, names: iset<(string, string)>) {
    && HistoriesOk(s.rows)
    && (forall op1, op2 :: op1 in s.inFlight && op2 in s.inFlight ==> op1 == op2)
    && (forall op :: op in s.inFlight ==>
          match s.inFlight[op]
          case Missed(domain, field) => (domain, field) in names
          case ToWrite(selector) => (selector.domain, selector.field) in names && Newest(s.rows, selector))
    && (forall name :: name in names && !BeingWritten(s, name) ==> NameFresh(s, name))
  }

  lemma OrderlyCommit(s: State, names: iset<(string, string)>, op: nat, save: Selector)
    requires Orderly(s, names) && s.inFlight == map[] && (save.domain, save.field) in names
    ensures Orderly(Step(s, CommitSave(op, save)), names)
  {
    var rows', saved := CommitEffect(s, op, save);
    SavedIsNewest(s.rows, save, rows');
    var s' := s.(rows := rows', inFlight := map[op := ToWrite(saved)]);
    assert s'.inFlight[op].ToWrite?;
    forall name | name in names && !BeingWritten(s', name) ensures NameFresh(s', name) {
      assert name != (save.domain, save.field);
      assert !BeingWritten(s, name) && NameFresh(s, name);
      assert History(rows', name.0, name.1) == History(s.rows, name.0, name.1);
    }
    assert s.inFlight[op := ToWrite(saved)] == s'.inFlight;
  }

  lemma OrderlyWrite(s: State, names: iset<(string, string)>, op: nat)
    requires CollisionFree(names) && Orderly(s, names)
    requires op in s.inFlight && s.inFlight[op].ToWrite?
    ensures Orderly(Step(s, CacheWrite(op)), names)
  {
    var s' := Step(s, CacheWrite(op));
    var selector := s.inFlight[op].selector;
    assert FromEntry(selector.domain, selector.field, ToEntry(selector)) == selector;
    forall name | name in names ensures NameFresh(s', name) {
      if name != (selector.domain, selector.field) {
        assert !BeingWritten(s, name) && NameFresh(s, name);
        assert CacheKey(name.0, name.1) != CacheKey(selector.domain, selector.field);
      }
    }
  }

  lemma OrderlyRead(s: State, names: iset<(string, string)>, op: nat)
    requires Orderly(s, names) && op in s.inFlight && s.inFlight[op].Missed?
    ensures Orderly(Step(s, ReadTable(op)), names)
  {
    var s' := Step(s, ReadTable(op));
    var domain, field := s.inFlight[op].domain, s.inFlight[op].field;
    assert WellVersioned(History(s.rows, domain, field));
    LookupIsNewest(s.rows, domain, field);
    NewestFacts(s.rows, domain, field);
    forall name | name in names && !BeingWritten(s', name) ensures NameFresh(s', name) {
      assert !BeingWritten(s, name) && NameFresh(s, name);
    }
  }

  lemma OrderlyStep(s: State, names: iset<(string, string)>, a: Action)
    requires CollisionFree(names) && Orderly(s, names) && ActionOver(a, names)
    requires a.BeginGet? || a.CommitSave? ==> s.inFlight == map[]
    requires !a.CacheWriteFails?
    ensures Orderly(Step(s, a), names)
  {
    var s' := Step(s, a);
    match a {
      case CommitSave(op, save) => OrderlyCommit(s, names, op, save);
      case CacheWrite(op) => if op in s.inFlight && s.inFlight[op].ToWrite? { OrderlyWrite(s, names, op); }
      case ReadTable(op) => if op in s.inFlight && s.inFlight[op].Missed? { OrderlyRead(s, names, op); }
      case BeginGet(_, _, _) =>
        forall name | name in names && !BeingWritten(s', name) ensures NameFresh(s', name) {
          assert !BeingWritten(s, name) && NameFresh(s, name);
        }
      case Lose(_) =>
        forall name | name in names && !BeingWritten(s', name) ensures NameFresh(s', name) {
          assert BeingWritten(s, name) ==> BeingWritten(s', name);
          assert NameFresh(s, name);
        }
    }
  }

  lemma {:induction false} OrderlyRun(s: State, names: iset<(string, string)>, actions: seq<Action>)
    requires CollisionFree(names) && Orderly(s, names) && ActionsOver(actions, names) && OneAtATime(s, actions)
    ensures Orderly(Run(s, actions), names)
    decreases |actions|
  {
    if actions != [] {
      assert ActionOver(actions[0], names);
      OrderlyStep(s, names, actions[0]);
      OrderlyRun(Step(s, actions[0]), names, actions[1..]);
    }
  }

  /** When operations do not overlap and no cache write fails, between operations every
      cached entry is the active row. */
  lemma NonOverlappingCacheIsFresh(names: iset<(string, string)>, actions: seq<Action>, name: (string, string))
    requires CollisionFree(names) && ActionsOver(actions, names) && name in names
    requires OneAtATime(INIT, actions) && Run(INIT, actions).inFlight == map[]
    ensures
      var s := Run(INIT, actions);
      var key := CacheKey(name.0, name.1);
      key in s.cache ==>
        GetFromDb(s.rows, name.0, name.1) == Returned(Some(FromEntry(name.0, name.1, s.cache[key])))
  {
    EmptyHistories();
    assert Orderly(INIT, names);
    OrderlyRun(INIT, names, actions);
    var s := Run(INIT, actions);
    assert !BeingWritten(s, name);
    assert NameFresh(s, name);
    assert WellVersioned(History(s.rows, name.0, name.1));
    LookupIsNewest(s.rows, name.0, name.1);
  }
}
