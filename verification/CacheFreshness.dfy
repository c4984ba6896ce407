/** Where the interleaved cache-aside repository serves old selectors: runs that lead there, and
    exactly when a name's cache entry stays fresh, is repaired, or stays as it is. */
module CacheFreshness {
  import opened Basics
  import opened CacheKeys
  import opened SelectorStore
  import opened SelectorAgreement
  import opened CacheAside

  // ----- where freshness is lost -----

  lemma RunOne(s: State, a: Action)
    ensures Run(s, [a]) == Step(s, a)
  {
    assert [a][1..] == [];
    assert Run(s, [a]) == Run(Step(s, a), []);
  }

  lemma RunTwo(s: State, a: Action, b: Action)
    ensures Run(s, [a, b]) == Step(Step(s, a), b)
  {
    assert [a, b][1..] == [b];
    RunOne(Step(s, a), b);
  }

  lemma RunThree(s: State, a: Action, b: Action, c: Action)
    ensures Run(s, [a, b, c]) == Step(Step(Step(s, a), b), c)
  {
    var s1 := Step(s, a);
    var s2 := Step(s1, b);
    assert [a, b, c][1..] == [b, c] && [b, c][1..] == [c] && [c][1..] == [];
    assert Run(s2, [c]) == Run(Step(s2, c), []);
    assert Run(s1, [b, c]) == Run(s2, [c]);
  }

  /** A save that is committed and then cached. */
  lemma CompletedSaveEffect(s: State, op: nat, save: Selector) returns (rows': seq<Row>, saved: Selector)
    requires HistoriesOk(s.rows) && op !in s.inFlight
    ensures SavedRows(s.rows, save, rows') && Newest(rows', saved)
    ensures saved.domain == save.domain && saved.field == save.field
    ensures Step(Step(s, CommitSave(op, save)), CacheWrite(op)) ==
            s.(rows := rows', cache := s.cache[CacheKey(save.domain, save.field) := ToEntry(saved)])
  {
    rows', saved := CommitEffect(s, op, save);
    SavedIsNewest(s.rows, save, rows');
    Overwritten(s.inFlight, op, ToWrite(saved), ToWrite(saved));
  }

  /** Whatever the state, a reader that has read the active row and is overtaken by a
      complete save of the same name writes the older version over the newer one. */
  lemma OvertakenReaderLeavesStaleEntry(s: State, reader: nat, writer: nat, save: Selector)
    requires HistoriesOk(s.rows)
    requires reader in s.inFlight && s.inFlight[reader].ToWrite? && writer !in s.inFlight
    requires Newest(s.rows, s.inFlight[reader].selector)
    requires save.domain == s.inFlight[reader].selector.domain && save.field == s.inFlight[reader].selector.field
    ensures
      var s' := Run(s, [CommitSave(writer, save), CacheWrite(writer), CacheWrite(reader)]);
      var key := CacheKey(save.domain, save.field);
      var active := GetFromDb(s'.rows, save.domain, save.field);
      && key in s'.cache
      && active.Returned? && active.value.Some?
      && s'.cache[key].version + 1 == active.value.value.version
  {
    var a, b, c := CommitSave(writer, save), CacheWrite(writer), CacheWrite(reader);
    RunThree(s, a, b, c);
    var seen := s.inFlight[reader].selector;
    var rows', saved := CompletedSaveEffect(s, writer, save);
    SavedIsActive(s.rows, save, rows');
    NewestVersion(s.rows, seen);
    var s2 := s.(rows := rows', cache := s.cache[CacheKey(save.domain, save.field) := ToEntry(saved)]);
    assert Step(Step(s, a), b) == s2;
    assert Step(s2, c).rows == rows' && Step(s2, c).cache[CacheKey(save.domain, save.field)] == ToEntry(seen);
  }

  lemma SavedIsActive(rows: seq<Row>, save: Selector, rows': seq<Row>)
    requires SavedRows(rows, save, rows')
    ensures GetFromDb(rows', save.domain, save.field) ==
            Returned(Some(save.(version := |History(rows, save.domain, save.field)| + 1)))
  {
    SavedIsNewest(rows, save, rows');
    assert WellVersioned(History(rows', save.domain, save.field));
    LookupIsNewest(rows', save.domain, save.field);
  }

  /** A save whose cache write fails leaves a fresh entry one version behind. */
  lemma FailedWriteLeavesStaleEntry(s: State, writer: nat, save: Selector)
    requires HistoriesOk(s.rows) && writer !in s.inFlight
    requires CacheKey(save.domain, save.field) in s.cache && NameFresh(s, (save.domain, save.field))
    ensures
      var s' := Step(Step(s, CommitSave(writer, save)), CacheWriteFails(writer));
      var key := CacheKey(save.domain, save.field);
      var active := GetFromDb(s'.rows, save.domain, save.field);
      && key in s'.cache && writer !in s'.inFlight
      && active.Returned? && active.value.Some?
      && s'.cache[key].version + 1 == active.value.value.version
  {
    var rows', saved := CommitEffect(s, writer, save);
    var s1 := s.(rows := rows', inFlight := s.inFlight[writer := ToWrite(saved)]);
    var s2 := Step(s1, CacheWriteFails(writer));
    assert s2.rows == rows' && s2.cache == s.cache && writer !in s2.inFlight;
    SavedIsActive(s.rows, save, rows');
    NewestVersion(s.rows, FromEntry(save.domain, save.field, s.cache[CacheKey(save.domain, save.field)]));
  }

  lemma {:induction false} RunInTurn(s: State, a: seq<Action>, b: seq<Action>)
    ensures Run(s, a + b) == Run(Run(s, a), b)
    decreases |a|
  {
    if a == [] {
      assert a + b == b;
    } else {
      assert (a + b)[1..] == a[1..] + b;
      RunInTurn(Step(s, a[0]), a[1..], b);
    }
  }

  lemma FirstSaveCommits(first: Selector)
    ensures
      var (s, saved) := (Step(INIT, CommitSave(0, first)), first.(version := 1));
      && s.cache == map[] && s.inFlight == map[0 := ToWrite(saved)]
      && HistoriesOk(s.rows) && Newest(s.rows, saved)
      && GetFromDb(s.rows, first.domain, first.field) == Returned(Some(saved))
  {
    EmptyHistories();
    var rows', saved := CommitEffect(INIT, 0, first);
    assert saved == first.(version := 1);
    SavedIsNewest([], first, rows');
    SavedIsActive([], first, rows');
  }

  lemma ReaderFollows(s: State, saved: Selector)
    requires s.cache == map[] && s.inFlight == map[0 := ToWrite(saved)]
    requires GetFromDb(s.rows, saved.domain, saved.field) == Returned(Some(saved))
    ensures
      var s' := Run(s, [BeginGet(1, saved.domain, saved.field), ReadTable(1), CacheWrite(0)]);
      s'.rows == s.rows && s'.inFlight == map[1 := ToWrite(saved)]
  {
    var b, c, d := BeginGet(1, saved.domain, saved.field), ReadTable(1), CacheWrite(0);
    RunThree(s, b, c, d);
    var s1 := Step(s, b);
    assert s1.inFlight == map[0 := ToWrite(saved), 1 := Missed(saved.domain, saved.field)] && s1.rows == s.rows;
    var s2 := Step(s1, c);
    assert s2.inFlight == map[0 := ToWrite(saved), 1 := ToWrite(saved)] && s2.rows == s.rows;
  }

  /** A first save whose cache write comes after a reader missed the cache and read the table. */
  lemma ReaderBehindFirstSave(first: Selector)
    ensures
      var reader := [BeginGet(1, first.domain, first.field), ReadTable(1), CacheWrite(0)];
      var s := Run(INIT, [CommitSave(0, first)] + reader);
      && HistoriesOk(s.rows)
      && s.inFlight == map[1 := ToWrite(first.(version := 1))] && Newest(s.rows, first.(version := 1))
  {
    FirstSaveCommits(first);
    RunInTurn(INIT, [CommitSave(0, first)], [BeginGet(1, first.domain, first.field), ReadTable(1), CacheWrite(0)]);
    RunOne(INIT, CommitSave(0, first));
    ReaderFollows(Step(INIT, CommitSave(0, first)), first.(version := 1));
  }

  /** So from the start, without any failure or lost key, two saves and one read can end with
      the first version cached over the second. */
  lemma OvertakenFromStart(first: Selector, save: Selector) returns (actions: seq<Action>)
    requires first.domain == save.domain && first.field == save.field
    ensures forall i :: 0 <= i < |actions| ==> !actions[i].CacheWriteFails? && !actions[i].Lose?
    ensures
      var s := Run(INIT, actions);
      && s.inFlight == map[] && !NameFresh(s, (save.domain, save.field))
      && GetFromDb(s.rows, save.domain, save.field) == Returned(Some(save.(version := 2)))
      && CacheKey(save.domain, save.field) in s.cache
      && s.cache[CacheKey(save.domain, save.field)] == ToEntry(first.(version := 1))
  {
    ReaderBehindFirstSave(first);
    var before := [CommitSave(0, first)] + [BeginGet(1, first.domain, first.field), ReadTable(1), CacheWrite(0)];
    var after := [CommitSave(2, save), CacheWrite(2), CacheWrite(1)];
    actions := before + after;
    RunInTurn(INIT, before, after);
    OvertakenByOne(Run(INIT, before), save, first.(version := 1));
  }

  /** Two cache writes of one name, one after the other. */
  lemma WritesInTurn(s: State, first: nat, second: nat, a: Selector, b: Selector)
    requires first != second && s.inFlight == map[first := ToWrite(a), second := ToWrite(b)]
    requires a.domain == b.domain && a.field == b.field
    ensures
      var s' := Step(Step(s, CacheWrite(first)), CacheWrite(second));
      && s'.rows == s.rows && s'.inFlight == map[]
      && CacheKey(b.domain, b.field) in s'.cache && s'.cache[CacheKey(b.domain, b.field)] == ToEntry(b)
  {
    var s1 := Step(s, CacheWrite(first));
    assert s1.inFlight == map[second := ToWrite(b)];
  }

  lemma OlderIsNotNewest(rows: seq<Row>, save: Selector, rows': seq<Row>, seen: Selector)
    requires SavedRows(rows, save, rows')
    requires seen.domain == save.domain && seen.field == save.field
    requires seen.version <= |History(rows, save.domain, save.field)|
    ensures !Newest(rows', seen)
  {
    assert History(rows', save.domain, save.field) == Extended(History(rows, save.domain, save.field), save);
  }

  lemma SecondVersion(rows: seq<Row>, save: Selector, rows': seq<Row>, seen: Selector)
    requires SavedRows(rows, save, rows') && |History(rows, save.domain, save.field)| == 1
    requires seen.domain == save.domain && seen.field == save.field && seen.version == 1
    ensures GetFromDb(rows', save.domain, save.field) == Returned(Some(save.(version := 2)))
    ensures !Newest(rows', seen)
  {
    SavedIsActive(rows, save, rows');
    OlderIsNotNewest(rows, save, rows', seen);
  }

  /** A second save commits while a reader is about to cache the first version. */
  lemma SaveBehindReader(s: State, save: Selector, seen: Selector)
    requires HistoriesOk(s.rows) && s.inFlight == map[1 := ToWrite(seen)] && Newest(s.rows, seen)
    requires seen.domain == save.domain && seen.field == save.field && seen.version == 1
    ensures
      var s1 := Step(s, CommitSave(2, save));
      var saved := save.(version := 2);
      && s1.inFlight == map[2 := ToWrite(saved), 1 := ToWrite(seen)]
      && GetFromDb(s1.rows, save.domain, save.field) == Returned(Some(saved))
      && !Newest(s1.rows, seen)
  {
    NewestVersion(s.rows, seen);
    var rows', saved := CommitEffect(s, 2, save);
    assert saved == save.(version := 2);
    SecondVersion(s.rows, save, rows', seen);
    assert s.inFlight[2 := ToWrite(saved)] == map[2 := ToWrite(saved), 1 := ToWrite(seen)];
  }

  lemma OvertakenByOne(s: State, save: Selector, seen: Selector)
    requires HistoriesOk(s.rows) && s.inFlight == map[1 := ToWrite(seen)] && Newest(s.rows, seen)
    requires seen.domain == save.domain && seen.field == save.field && seen.version == 1
    ensures
      var s' := Run(s, [CommitSave(2, save), CacheWrite(2), CacheWrite(1)]);
      && s'.inFlight == map[] && !NameFresh(s', (save.domain, save.field))
      && GetFromDb(s'.rows, save.domain, save.field) == Returned(Some(save.(version := 2)))
      && CacheKey(save.domain, save.field) in s'.cache
      && s'.cache[CacheKey(save.domain, save.field)] == ToEntry(seen)
  {
    RunThree(s, CommitSave(2, save), CacheWrite(2), CacheWrite(1));
    SaveBehindReader(s, save, seen);
    WritesInTurn(Step(s, CommitSave(2, save)), 2, 1, save.(version := 2), seen);
    assert FromEntry(seen.domain, seen.field, ToEntry(seen)) == seen;
  }

  // ----- exactly when a name stays fresh -----

  function NameOf(p: Pending): (string, string) {
    match p
    case Missed(domain, field) => (domain, field)
    case ToWrite(selector) => (selector.domain, selector.field)
  }

  /** The cache entry, if any, is the active row, and so is all that is about to be written. */
  ghost predicate Settled(s: State, name: (string, string)) {
    && NameFresh(s, name)
    && forall op :: op in s.inFlight && s.inFlight[op].ToWrite? && NameOf(s.inFlight[op]) == name ==>
         Newest(s.rows, s.inFlight[op].selector)
  }

  predicate Saves(a: Action, name: (string, string)) {
    a.CommitSave? && (a.selector.domain, a.selector.field) == name
  }

  /** A continuation in which the name is not saved; all else may happen, failed writes too. */
  ghost predicate WithoutSave(actions: seq<Action>, names: iset<(string, string)>, name: (string, string)) {
    ActionsOver(actions, names) && forall i :: 0 <= i < |actions| ==> !Saves(actions[i], name)
  }

  /** Saves of other names and everything else leave a name's history alone. */
  lemma HistoryLeftAlone(s: State, a: Action, name: (string, string))
    requires HistoriesOk(s.rows) && !Saves(a, name)
    ensures History(Step(s, a).rows, name.0, name.1) == History(s.rows, name.0, name.1)
  {
    if a.CommitSave? && a.op !in s.inFlight { var rows', saved := CommitEffect(s, a.op, a.selector); }
  }

  /** What a step puts in flight is the newest of its name. */
  lemma NewWritesAreNewest(s: State, names: iset<(string, string)>, a: Action, op: nat)
    requires Sound(s, names)
    requires op in Step(s, a).inFlight && Step(s, a).inFlight[op].ToWrite?
    ensures
      var p := Step(s, a).inFlight[op];
      (op in s.inFlight && s.inFlight[op] == p) || Newest(Step(s, a).rows, p.selector)
  {
    if a.CommitSave? && a.op !in s.inFlight {
      var rows', saved := CommitEffect(s, a.op, a.selector);
      SavedIsNewest(s.rows, a.selector, rows');
    }
    if a.ReadTable? && a.op in s.inFlight && s.inFlight[a.op].Missed? {
      var domain, field := s.inFlight[a.op].domain, s.inFlight[a.op].field;
      assert WellVersioned(History(s.rows, domain, field));
      LookupIsNewest(s.rows, domain, field);
      NewestFacts(s.rows, domain, field);
    }
  }

  /** The only step that changes a name's entry, other than losing it, writes it. */
  lemma EntryAfterStep(s: State, names: iset<(string, string)>, a: Action, name: (string, string))
    requires CollisionFree(names) && Sound(s, names) && name in names
    requires CacheKey(name.0, name.1) in Step(s, a).cache
    ensures
      var (s', key) := (Step(s, a), CacheKey(name.0, name.1));
      || (key in s.cache && s'.cache[key] == s.cache[key])
      || (a.CacheWrite? && a.op in s.inFlight && s.inFlight[a.op].ToWrite? && NameOf(s.inFlight[a.op]) == name
          && FromEntry(name.0, name.1, s'.cache[key]) == s.inFlight[a.op].selector)
  {
    if a.CacheWrite? && a.op in s.inFlight && s.inFlight[a.op].ToWrite? {
      assert PendingSound(s.rows, names, s.inFlight[a.op]);
    }
  }

  lemma StepKeepsFresh(s: State, names: iset<(string, string)>, a: Action, name: (string, string))
    requires CollisionFree(names) && Sound(s, names) && name in names && !Saves(a, name)
    requires Settled(s, name)
    ensures NameFresh(Step(s, a), name)
  {
    HistoryLeftAlone(s, a, name);
    if CacheKey(name.0, name.1) in Step(s, a).cache { EntryAfterStep(s, names, a, name); }
  }

  lemma StepKeepsSettled(s: State, names: iset<(string, string)>, a: Action, name: (string, string))
    requires CollisionFree(names) && Sound(s, names) && name in names && !Saves(a, name)
    requires Settled(s, name)
    ensures Settled(Step(s, a), name)
  {
    var s' := Step(s, a);
    StepKeepsFresh(s, names, a, name);
    HistoryLeftAlone(s, a, name);
    forall op | op in s'.inFlight && s'.inFlight[op].ToWrite? && NameOf(s'.inFlight[op]) == name
      ensures Newest(s'.rows, s'.inFlight[op].selector)
    {
      NewWritesAreNewest(s, names, a, op);
    }
  }

  lemma {:induction false} RunKeepsSettled(s: State, names: iset<(string, string)>, actions: seq<Action>,
      name: (string, string))
    requires CollisionFree(names) && Sound(s, names) && name in names && WithoutSave(actions, names, name)
    requires Settled(s, name)
    ensures NameFresh(Run(s, actions), name)
    decreases |actions|
  {
    if actions != [] {
      assert ActionOver(actions[0], names) && !Saves(actions[0], name);
      StepSound(s, names, actions[0]);
      StepKeepsSettled(s, names, actions[0], name);
      RunKeepsSettled(Step(s, actions[0]), names, actions[1..], name);
    }
  }

  /** A pending write of anything but the newest row leaves the name stale. */
  lemma StaleWriteSpoils(s: State, name: (string, string), op: nat)
    requires op in s.inFlight && s.inFlight[op].ToWrite? && NameOf(s.inFlight[op]) == name
    requires !Newest(s.rows, s.inFlight[op].selector)
    ensures !NameFresh(Run(s, [CacheWrite(op)]), name)
  {
    RunOne(s, CacheWrite(op));
    var selector := s.inFlight[op].selector;
    assert FromEntry(name.0, name.1, ToEntry(selector)) == selector;
  }

  /** In any state the interleavings reach, a name's cache entry is the active row now and in
      every continuation that does not save the name, failed cache writes included, exactly when
      it is now and every cache write in flight for it is of the active row. */
  lemma FreshUntilSavedExactly(s: State, names: iset<(string, string)>, name: (string, string))
    requires CollisionFree(names) && Sound(s, names) && name in names
    ensures (forall actions :: WithoutSave(actions, names, name) ==> NameFresh(Run(s, actions), name))
            <==> Settled(s, name)
  {
    if Settled(s, name) {
      forall actions | WithoutSave(actions, names, name) ensures NameFresh(Run(s, actions), name) {
        RunKeepsSettled(s, names, actions, name);
      }
    } else if !NameFresh(s, name) {
      assert WithoutSave([], names, name) && Run(s, []) == s;
    } else {
      var op :| op in s.inFlight && s.inFlight[op].ToWrite? && NameOf(s.inFlight[op]) == name
                && !Newest(s.rows, s.inFlight[op].selector);
      StaleWriteSpoils(s, name, op);
      assert WithoutSave([CacheWrite(op)], names, name);
    }
  }

  // ----- exactly when readers are told the active row -----

  /** Since `s` every answer about the name was its active row at `s`. */
  ghost predicate ToldActive(s: State, s': State, name: (string, string)) {
    && s.told <= s'.told
    && forall i :: |s.told| <= i < |s'.told| && (s'.told[i].domain, s'.told[i].field) == name ==>
         Returned(s'.told[i].found) == GetFromDb(s.rows, name.0, name.1)
  }

  /** Every answer about the name is its active row, in every continuation that does not save it;
      all else may happen, lost keys and failed cache writes included. */
  ghost predicate AlwaysTold(s: State, names: iset<(string, string)>, name: (string, string)) {
    forall actions :: WithoutSave(actions, names, name) ==> ToldActive(s, Run(s, actions), name)
  }

  lemma SameLookup(rows: seq<Row>, rows': seq<Row>, name: (string, string))
    requires HistoriesOk(rows) && HistoriesOk(rows')
    requires History(rows', name.0, name.1) == History(rows, name.0, name.1)
    ensures GetFromDb(rows', name.0, name.1) == GetFromDb(rows, name.0, name.1)
  {
    assert WellVersioned(History(rows, name.0, name.1)) && WellVersioned(History(rows', name.0, name.1));
    LookupIsNewest(rows, name.0, name.1);
    LookupIsNewest(rows', name.0, name.1);
  }

  /** A fresh cache entry is the active row. */
  lemma FreshIsActive(s: State, name: (string, string))
    requires HistoriesOk(s.rows) && CacheKey(name.0, name.1) in s.cache
    ensures NameFresh(s, name) ==>
              GetFromDb(s.rows, name.0, name.1) ==
              Returned(Some(FromEntry(name.0, name.1, s.cache[CacheKey(name.0, name.1)])))
    ensures !NameFresh(s, name) && History(s.rows, name.0, name.1) != [] ==>
              GetFromDb(s.rows, name.0, name.1) !=
              Returned(Some(FromEntry(name.0, name.1, s.cache[CacheKey(name.0, name.1)])))
  {
    assert WellVersioned(History(s.rows, name.0, name.1));
    LookupIsNewest(s.rows, name.0, name.1);
  }

  lemma StepTellsActive(s: State, a: Action, name: (string, string))
    requires HistoriesOk(s.rows) && NameFresh(s, name)
    ensures ToldActive(s, Step(s, a), name)
  {
    match a {
      case BeginGet(op, domain, field) =>
        if op !in s.inFlight && CacheKey(domain, field) in s.cache && (domain, field) == name {
          FreshIsActive(s, name);
        }
      case ReadTable(op) =>
      case _ =>
    }
  }

  lemma {:induction false} RunTellsActive(
      s: State, names: iset<(string, string)>, actions: seq<Action>, name: (string, string))
    requires CollisionFree(names) && Sound(s, names) && name in names && WithoutSave(actions, names, name)
    requires Settled(s, name)
    ensures ToldActive(s, Run(s, actions), name)
    decreases |actions|
  {
    if actions != [] {
      var s1 := Step(s, actions[0]);
      assert ActionOver(actions[0], names) && !Saves(actions[0], name);
      StepSound(s, names, actions[0]);
      StepKeepsSettled(s, names, actions[0], name);
      StepTellsActive(s, actions[0], name);
      RunTellsActive(s1, names, actions[1..], name);
      HistoryLeftAlone(s, actions[0], name);
      SameLookup(s.rows, s1.rows, name);
      ToldInTurn(s, s1, Run(s, actions), name);
    }
  }

  lemma ToldInTurn(a: State, b: State, c: State, name: (string, string))
    requires ToldActive(a, b, name) && ToldActive(b, c, name)
    requires GetFromDb(b.rows, name.0, name.1) == GetFromDb(a.rows, name.0, name.1)
    ensures ToldActive(a, c, name)
  {
    forall i | |a.told| <= i < |c.told| && (c.told[i].domain, c.told[i].field) == name
      ensures Returned(c.told[i].found) == GetFromDb(a.rows, name.0, name.1)
    {
      if i < |b.told| { assert c.told[i] == b.told[i]; }
    }
  }

  /** A reader that begins on a stale entry is told it. */
  lemma StaleIsTold(s: State, names: iset<(string, string)>, name: (string, string)) returns (a: Action)
    requires Sound(s, names) && name in names && !NameFresh(s, name)
    ensures ActionOver(a, names) && !Saves(a, name)
    ensures |Step(s, a).told| == |s.told| + 1
    ensures
      var t := Step(s, a).told[|s.told|];
      (t.domain, t.field) == name && Returned(t.found) != GetFromDb(s.rows, name.0, name.1)
  {
    var op := FreshNumber(s.inFlight.Keys);
    assert op !in s.inFlight.Keys;
    a := BeginGet(op, name.0, name.1);
    assert Genuine(s.rows, FromEntry(name.0, name.1, s.cache[CacheKey(name.0, name.1)]));
    FreshIsActive(s, name);
  }

  /** Readers of a name are told its active row in every continuation that does not save it
      exactly when the name is settled. */
  lemma ToldUntilSavedExactly(s: State, names: iset<(string, string)>, name: (string, string))
    requires CollisionFree(names) && Sound(s, names) && name in names
    ensures AlwaysTold(s, names, name) <==> Settled(s, name)
  {
    if Settled(s, name) {
      forall actions | WithoutSave(actions, names, name) ensures ToldActive(s, Run(s, actions), name) {
        RunTellsActive(s, names, actions, name);
      }
    } else {
      var actions := UnsettledIsTold(s, names, name);
    }
  }

  lemma LastAnswerDiffers(s: State, s': State, name: (string, string))
    requires |s'.told| == |s.told| + 1
    requires
      var t := s'.told[|s.told|];
      (t.domain, t.field) == name && Returned(t.found) != GetFromDb(s.rows, name.0, name.1)
    ensures !ToldActive(s, s', name)
  {
  }

  /** After a stale cache write a reader that begins is told what was written. */
  lemma StaleWriteIsTold(s: State, names: iset<(string, string)>, name: (string, string), op: nat) returns (a: Action)
    requires CollisionFree(names) && Sound(s, names) && name in names
    requires op in s.inFlight && s.inFlight[op].ToWrite? && NameOf(s.inFlight[op]) == name
    requires !Newest(s.rows, s.inFlight[op].selector)
    ensures ActionOver(a, names) && !Saves(a, name)
    ensures !ToldActive(s, Step(Step(s, CacheWrite(op)), a), name)
  {
    var s1 := Step(s, CacheWrite(op));
    StaleWriteSpoils(s, name, op);
    RunOne(s, CacheWrite(op));
    StepSound(s, names, CacheWrite(op));
    a := StaleIsTold(s1, names, name);
    assert s1.told == s.told && s1.rows == s.rows;
    LastAnswerDiffers(s, Step(s1, a), name);
  }

  lemma TwoWithoutSave(a: Action, b: Action, names: iset<(string, string)>, name: (string, string))
    requires ActionOver(a, names) && ActionOver(b, names) && !Saves(a, name) && !Saves(b, name)
    ensures WithoutSave([a, b], names, name)
  {
  }

  lemma UnsettledIsTold(s: State, names: iset<(string, string)>, name: (string, string)) returns (actions: seq<Action>)
    requires CollisionFree(names) && Sound(s, names) && name in names && !Settled(s, name)
    ensures WithoutSave(actions, names, name) && !ToldActive(s, Run(s, actions), name)
  {
    if !NameFresh(s, name) {
      var a := StaleIsTold(s, names, name);
      actions := [a];
      RunOne(s, a);
      LastAnswerDiffers(s, Step(s, a), name);
    } else {
      var op :| op in s.inFlight && s.inFlight[op].ToWrite? && NameOf(s.inFlight[op]) == name
                && !Newest(s.rows, s.inFlight[op].selector);
      var a := StaleWriteIsTold(s, names, name, op);
      actions := [CacheWrite(op), a];
      RunTwo(s, CacheWrite(op), a);
      TwoWithoutSave(CacheWrite(op), a, names, name);
    }
  }

  // ----- what repairs a name -----

  /** No cache write for the name is in flight. */
  ghost predicate NoWrites(s: State, name: (string, string)) {
    forall op :: op in s.inFlight ==> !(s.inFlight[op].ToWrite? && NameOf(s.inFlight[op]) == name)
  }

  /** After a save no older write is of the newest row. */
  lemma OlderWritesAreStale(s: State, names: iset<(string, string)>, save: Selector, rows': seq<Row>)
    requires Sound(s, names) && SavedRows(s.rows, save, rows')
    ensures
      var own := (save.domain, save.field);
      forall op :: op in s.inFlight && s.inFlight[op].ToWrite? && NameOf(s.inFlight[op]) == own ==>
        !Newest(rows', s.inFlight[op].selector)
  {
    forall op | op in s.inFlight && s.inFlight[op].ToWrite? && NameOf(s.inFlight[op]) == (save.domain, save.field)
      ensures !Newest(rows', s.inFlight[op].selector)
    {
      assert PendingSound(s.rows, names, s.inFlight[op]);
      OlderIsNotNewest(s.rows, save, rows', s.inFlight[op].selector);
    }
  }

  /** A completed save makes its name fresh; it stays so until the next save (`Settled`) exactly
      when no older cache write for the name is still in flight. */
  lemma CompletedSaveSettlesExactly(s: State, names: iset<(string, string)>, op: nat, save: Selector)
    requires CollisionFree(names) && Sound(s, names) && (save.domain, save.field) in names && op !in s.inFlight
    ensures
      var s' := Step(Step(s, CommitSave(op, save)), CacheWrite(op));
      var name := (save.domain, save.field);
      && NameFresh(s', name)
      && (Settled(s', name) <==> NoWrites(s, name))
  {
    var rows', saved := CompletedSaveEffect(s, op, save);
    assert FromEntry(save.domain, save.field, ToEntry(saved)) == saved;
    OlderWritesAreStale(s, names, save, rows');
  }

  /** After a completed save, readers of the name are told exactly the saved selector in every
      continuation that does not save it again, failed cache writes and lost keys included,
      exactly when no older cache write for the name was in flight. */
  lemma SavedIsToldExactly(s: State, names: iset<(string, string)>, op: nat, save: Selector)
    requires CollisionFree(names) && Sound(s, names) && (save.domain, save.field) in names && op !in s.inFlight
    ensures
      var s' := Step(Step(s, CommitSave(op, save)), CacheWrite(op));
      var name := (save.domain, save.field);
      && GetFromDb(s'.rows, save.domain, save.field) ==
         Returned(Some(save.(version := |History(s.rows, save.domain, save.field)| + 1)))
      && (AlwaysTold(s', names, name) <==> NoWrites(s, name))
  {
    var s1 := Step(s, CommitSave(op, save));
    StepSound(s, names, CommitSave(op, save));
    StepSound(s1, names, CacheWrite(op));
    var rows', saved := CompletedSaveEffect(s, op, save);
    SavedIsActive(s.rows, save, rows');
    CompletedSaveSettlesExactly(s, names, op, save);
    ToldUntilSavedExactly(Step(s1, CacheWrite(op)), names, (save.domain, save.field));
  }

  /** A lost key makes the name fresh; it stays so until the next save (`Settled`) exactly when
      every cache write in flight for it is of the active row. */
  lemma LostKeySettlesExactly(s: State, name: (string, string))
    ensures
      var s' := Step(s, Lose(CacheKey(name.0, name.1)));
      && NameFresh(s', name)
      && (Settled(s', name) <==>
            forall op :: op in s.inFlight && s.inFlight[op].ToWrite? && NameOf(s.inFlight[op]) == name ==>
              Newest(s.rows, s.inFlight[op].selector))
  {
    var s' := Step(s, Lose(CacheKey(name.0, name.1)));
    assert s'.inFlight == s.inFlight && s'.rows == s.rows;
  }

  // ----- exactly when an entry stays -----

  /** The action neither saves the name nor loses its key. */
  ghost predicate Elsewhere(a: Action, name: (string, string)) {
    !Saves(a, name) && (a.Lose? ==> a.key != CacheKey(name.0, name.1))
  }

  ghost predicate AllElsewhere(actions: seq<Action>, names: iset<(string, string)>, name: (string, string)) {
    ActionsOver(actions, names) && forall i :: 0 <= i < |actions| ==> Elsewhere(actions[i], name)
  }

  /** The name has its cache entry, and its active row, as before. */
  ghost predicate EntryKept(s: State, s': State, name: (string, string)) {
    var key := CacheKey(name.0, name.1);
    && key in s.cache && key in s'.cache && s'.cache[key] == s.cache[key]
    && GetFromDb(s'.rows, name.0, name.1) == GetFromDb(s.rows, name.0, name.1)
  }

  /** The operation would write another entry of the name: a pending write of something else,
      or a reader on its way to a table that says something else. */
  ghost predicate Challenges(s: State, name: (string, string), p: Pending)
    requires CacheKey(name.0, name.1) in s.cache
  {
    match p
    case Missed(_, _) => !NameFresh(s, name)
    case ToWrite(selector) => ToEntry(selector) != s.cache[CacheKey(name.0, name.1)]
  }

  ghost predicate Unchallenged(s: State, name: (string, string)) {
    && CacheKey(name.0, name.1) in s.cache
    && forall op :: op in s.inFlight && NameOf(s.inFlight[op]) == name ==> !Challenges(s, name, s.inFlight[op])
  }

  /** What is in flight for the name after a step was so before, or was read from the table by
      a reader of the name that found the newest row. */
  lemma InFlightAfterStep(s: State, names: iset<(string, string)>, a: Action, name: (string, string), op: nat)
    requires Sound(s, names) && !Saves(a, name) && CacheKey(name.0, name.1) in s.cache
    requires op in Step(s, a).inFlight && NameOf(Step(s, a).inFlight[op]) == name
    ensures
      var p := Step(s, a).inFlight[op];
      && op in s.inFlight && NameOf(s.inFlight[op]) == name
      && (s.inFlight[op] == p || (s.inFlight[op].Missed? && p.ToWrite? && Newest(s.rows, p.selector)))
  {
    if a.ReadTable? && a.op in s.inFlight && s.inFlight[a.op].Missed? {
      var domain, field := s.inFlight[a.op].domain, s.inFlight[a.op].field;
      assert WellVersioned(History(s.rows, domain, field));
      LookupIsNewest(s.rows, domain, field);
      NewestFacts(s.rows, domain, field);
    }
    if a.CommitSave? && a.op !in s.inFlight { var rows', saved := CommitEffect(s, a.op, a.selector); }
  }

  lemma StepKeepsEntry(s: State, names: iset<(string, string)>, a: Action, name: (string, string))
    requires CollisionFree(names) && Sound(s, names) && ActionOver(a, names) && name in names && Elsewhere(a, name)
    requires Unchallenged(s, name)
    ensures EntryKept(s, Step(s, a), name)
    ensures History(Step(s, a).rows, name.0, name.1) == History(s.rows, name.0, name.1)
  {
    StepSound(s, names, a);
    HistoryLeftAlone(s, a, name);
    SameLookup(s.rows, Step(s, a).rows, name);
    assert CacheKey(name.0, name.1) in Step(s, a).cache;
    EntryAfterStep(s, names, a, name);
  }

  lemma StepKeepsUnchallenged(s: State, names: iset<(string, string)>, a: Action, name: (string, string))
    requires CollisionFree(names) && Sound(s, names) && ActionOver(a, names) && name in names && Elsewhere(a, name)
    requires Unchallenged(s, name)
    ensures Unchallenged(Step(s, a), name)
  {
    StepKeepsEntry(s, names, a, name);
    forall op | op in Step(s, a).inFlight && NameOf(Step(s, a).inFlight[op]) == name
      ensures !Challenges(Step(s, a), name, Step(s, a).inFlight[op])
    {
      InFlightAfterStep(s, names, a, name, op);
      assert !Challenges(s, name, s.inFlight[op]);
    }
  }

  lemma {:induction false} RunKeepsEntry(s: State, names: iset<(string, string)>, actions: seq<Action>,
      name: (string, string))
    requires CollisionFree(names) && Sound(s, names) && name in names && AllElsewhere(actions, names, name)
    requires Unchallenged(s, name)
    ensures EntryKept(s, Run(s, actions), name)
    decreases |actions|
  {
    if actions != [] {
      assert ActionOver(actions[0], names) && Elsewhere(actions[0], name);
      StepSound(s, names, actions[0]);
      StepKeepsEntry(s, names, actions[0], name);
      StepKeepsUnchallenged(s, names, actions[0], name);
      RunKeepsEntry(Step(s, actions[0]), names, actions[1..], name);
    }
  }

  lemma PendingWriteReplaces(s: State, name: (string, string), op: nat)
    requires op in s.inFlight && s.inFlight[op].ToWrite? && NameOf(s.inFlight[op]) == name
    requires CacheKey(name.0, name.1) in s.cache ==>
             ToEntry(s.inFlight[op].selector) != s.cache[CacheKey(name.0, name.1)]
    ensures !EntryKept(s, Run(s, [CacheWrite(op)]), name)
  {
    RunOne(s, CacheWrite(op));
  }

  lemma ReadFindsNewest(s: State, op: nat) returns (newest: Selector)
    requires HistoriesOk(s.rows) && op in s.inFlight && s.inFlight[op].Missed?
    requires History(s.rows, s.inFlight[op].domain, s.inFlight[op].field) != []
    ensures (newest.domain, newest.field) == NameOf(s.inFlight[op]) && Newest(s.rows, newest)
    ensures
      var s' := Step(s, ReadTable(op));
      s'.rows == s.rows && s'.cache == s.cache && op in s'.inFlight && s'.inFlight[op] == ToWrite(newest)
  {
    var domain, field := s.inFlight[op].domain, s.inFlight[op].field;
    assert WellVersioned(History(s.rows, domain, field));
    LookupIsNewest(s.rows, domain, field);
    NewestFacts(s.rows, domain, field);
    newest := GetFromDb(s.rows, domain, field).value.value;
  }

  /** A reader that missed before a stale entry was written repairs it. */
  lemma ReaderReplaces(s: State, names: iset<(string, string)>, name: (string, string), op: nat)
    requires Sound(s, names) && name in names && CacheKey(name.0, name.1) in s.cache
    requires op in s.inFlight && s.inFlight[op] == Missed(name.0, name.1) && !NameFresh(s, name)
    ensures !EntryKept(s, Run(s, [ReadTable(op)] + [CacheWrite(op)]), name)
    ensures NameFresh(Run(s, [ReadTable(op)] + [CacheWrite(op)]), name)
  {
    assert Genuine(s.rows, FromEntry(name.0, name.1, s.cache[CacheKey(name.0, name.1)]));
    var newest := ReadFindsNewest(s, op);
    RunInTurn(s, [ReadTable(op)], [CacheWrite(op)]);
    RunOne(s, ReadTable(op));
    RunOne(Step(s, ReadTable(op)), CacheWrite(op));
    assert FromEntry(name.0, name.1, ToEntry(newest)) == newest;
  }

  /** A cached entry, stale or not, is served in every continuation that neither saves the name
      nor loses its key exactly when nothing in flight would write another one: no traffic that
      begins later repairs it, since reads of the name stop at the cache. */
  lemma EntryStaysUntilSavedOrLost(s: State, names: iset<(string, string)>, name: (string, string))
    requires CollisionFree(names) && Sound(s, names) && name in names && CacheKey(name.0, name.1) in s.cache
    ensures (forall actions :: AllElsewhere(actions, names, name) ==> EntryKept(s, Run(s, actions), name))
            <==> Unchallenged(s, name)
  {
    if Unchallenged(s, name) {
      forall actions | AllElsewhere(actions, names, name) ensures EntryKept(s, Run(s, actions), name) {
        RunKeepsEntry(s, names, actions, name);
      }
    } else {
      var op :| op in s.inFlight && NameOf(s.inFlight[op]) == name && Challenges(s, name, s.inFlight[op]);
      if s.inFlight[op].Missed? {
        ReaderReplaces(s, names, name, op);
        assert AllElsewhere([ReadTable(op)] + [CacheWrite(op)], names, name);
      } else {
        PendingWriteReplaces(s, name, op);
        assert AllElsewhere([CacheWrite(op)], names, name);
      }
    }
  }
}
