/** The fixed-window rate limiter on Redis counters, over whole timed histories. */
module RateLimiter {
  import opened Basics

  /** A counter key: its value and, once EXPIRE has run, when it goes away.  `born` is when
      its first INCR ran; Redis does not store it. */
  datatype Counter = Counter(count: nat, deadline: Option<real>, born: real)

  type Counters = map<string, Counter>

  function KeyOf(identifier: string): string {
    "ratelimit:" + identifier
  }

  lemma KeyOfInjective(a: string, b: string)
    requires KeyOf(a) == KeyOf(b)
    ensures a == b
  {
    assert KeyOf(a)[|"ratelimit:"|..] == a && KeyOf(b)[|"ratelimit:"|..] == b;
  }

  /** A key with a deadline exists until the clock is past it. */
  predicate Alive(c: Counter, now: real) {
    c.deadline.None? || now <= c.deadline.value
  }

  function Incr(counters: Counters, key: string, now: real): (int, Counters) {
    if key in counters && Alive(counters[key], now) then
      var c := counters[key];
      (c.count + 1, counters[key := c.(count := c.count + 1)])
    else (1, counters[key := Counter(1, None, now)])
  }

  /** A non-positive time to live removes the key at once. */
  function Expire(counters: Counters, key: string, now: real, seconds: int): Counters {
    if key !in counters || !Alive(counters[key], now) then counters
    else if seconds <= 0 then counters - {key}
    else counters[key := counters[key].(deadline := Some(now + seconds as real))]
  }

  /** One undisturbed call: INCR, EXPIRE after the first one, and the comparison. */
  function CallOnce(limit: int, window: int, counters: Counters, identifier: string, now: real, later: real)
    : (bool, Counters)
  {
    var key := KeyOf(identifier);
    var (n, counters1) := Incr(counters, key, now);
    (n <= limit, if n == 1 then Expire(counters1, key, later, window) else counters1)
  }

  class RedisRateLimiter {
    var counters: Counters
    const limit: int
    const windowSeconds: int

    constructor (limit: int, windowSeconds: int)
      ensures counters == map[] && this.limit == limit && this.windowSeconds == windowSeconds
    {
      this.counters := map[];
      this.limit := limit;
      this.windowSeconds := windowSeconds;
    }

    /** `now` is when INCR runs, `later` when a following EXPIRE does. */
    method IsAllowed(identifier: string, now: real, later: real) returns (allowed: bool)
      requires now <= later
      modifies this
      ensures (allowed, counters) == CallOnce(limit, windowSeconds, old(counters), identifier, now, later)
      ensures forall key :: key != KeyOf(identifier) ==>
                (key in counters <==> key in old(counters)) &&
                (key in counters ==> counters[key] == old(counters)[key])
      ensures
        var key := KeyOf(identifier);
        if key in old(counters) && Alive(old(counters)[key], now) then
          var c := old(counters)[key];
          && (allowed <==> c.count < limit)
          && (c.count >= 1 ==> key in counters && counters[key] == c.(count := c.count + 1))
        else
          && (allowed <==> limit >= 1)
          && if windowSeconds <= 0 then key !in counters
             else key in counters && counters[key] == Counter(1, Some(later + windowSeconds as real), now)
    {
      var key := KeyOf(identifier);
      var currentCount: int;
      if key in counters && Alive(counters[key], now) {
        currentCount := counters[key].count + 1;
        counters := counters[key := counters[key].(count := currentCount)];
      } else {
        currentCount := 1;
        counters := counters[key := Counter(1, None, now)];
      }
      if currentCount == 1 {
        counters := Expire(counters, key, later, windowSeconds);
      }
      allowed := currentCount <= limit;
    }
  }

  // ----- histories of commands -----

  /** The two commands reach Redis separately: EXPIRE may come late, or never. */
  datatype Event =
    | Call(identifier: string, time: real)
    | ExpireLands(identifier: string, time: real)

  /** `owed` are the keys whose first caller has not yet sent its EXPIRE. */
  datatype State = State(counters: Counters, owed: set<string>)

  const INIT := State(map[], {})

  function Step(window: int, s: State, e: Event): State {
    var key := KeyOf(e.identifier);
    match e
    case Call(_, now) =>
      var (n, counters) := Incr(s.counters, key, now);
      State(counters, if n == 1 then s.owed + {key} else s.owed)
    case ExpireLands(_, now) =>
      if key in s.owed then State(Expire(s.counters, key, now, window), s.owed - {key}) else s
  }

  /** Whether the call of this event is let through. */
  predicate Allowed(limit: int, s: State, e: Event) {
    e.Call? && Incr(s.counters, KeyOf(e.identifier), e.time).0 <= limit
  }

  predicate Within(time: real, start: real, window: int) {
    start <= time < start + window as real
  }

  /** How many calls of `identifier` are let through in the interval of one window's length
      from `start`. */
  function AllowedIn(limit: int, window: int, s: State, events: seq<Event>, identifier: string, start: real): nat
    decreases |events|
  {
    if events == [] then 0
    else
      var e := events[0];
      (if e.identifier == identifier && Allowed(limit, s, e) && Within(e.time, start, window) then 1 else 0)
      + AllowedIn(limit, window, Step(window, s, e), events[1..], identifier, start)
  }

  /** The clock does not run backwards. */
  ghost predicate InOrder(now: real, events: seq<Event>) {
    && (forall i :: 0 <= i < |events| ==> now <= events[i].time)
    && (forall i, j :: 0 <= i < j < |events| ==> events[i].time <= events[j].time)
  }

  ghost predicate CounterOk(window: int, s: State, key: string, now: real) {
    key in s.counters ==>
      var c := s.counters[key];
      && c.count >= 1 && c.born <= now
      && (c.deadline.Some? ==> c.deadline.value >= c.born + window as real)
  }

  /** An upper bound on the calls still to be let through in the interval: before the interval
      a window already open may be used up in it, except for the call that opened it, and one
      more may open; a window that opened inside it outlasts it. */
  function Potential(limit: int, window: int, s: State, key: string, now: real, start: real): int {
    if now >= start + window as real then 0
    else if now < start then 2 * limit - 1
    else if key !in s.counters then limit
    else Max(0, limit - s.counters[key].count) + (if s.counters[key].born < start then limit else 0)
  }

  lemma StepKeepsCounterOk(window: int, s: State, e: Event, key: string, now: real)
    requires CounterOk(window, s, key, now) && now <= e.time
    ensures CounterOk(window, Step(window, s, e), key, e.time)
  {
  }

  lemma OtherKeysUntouched(window: int, s: State, e: Event, identifier: string)
    requires e.identifier != identifier
    ensures
      var key := KeyOf(identifier);
      var s' := Step(window, s, e);
      (key in s'.counters <==> key in s.counters) && (key in s.counters ==> s'.counters[key] == s.counters[key])
  {
    if KeyOf(e.identifier) == KeyOf(identifier) { KeyOfInjective(e.identifier, identifier); }
  }

  /** Each event pays for the call it lets through. */
  lemma PotentialPays(limit: int, window: int, s: State, e: Event, identifier: string, now: real, start: real)
    requires limit >= 1 && CounterOk(window, s, KeyOf(identifier), now) && now <= e.time
    ensures
      (if e.identifier == identifier && Allowed(limit, s, e) && Within(e.time, start, window) then 1 else 0)
      + Potential(limit, window, Step(window, s, e), KeyOf(identifier), e.time, start)
      <= Potential(limit, window, s, KeyOf(identifier), now, start)
  {
    if e.identifier != identifier { OtherKeysUntouched(window, s, e, identifier); }
  }

  lemma {:induction false} PotentialBounds(
      limit: int, window: int, s: State, events: seq<Event>, identifier: string, now: real, start: real)
    requires limit >= 1 && CounterOk(window, s, KeyOf(identifier), now) && InOrder(now, events)
    ensures AllowedIn(limit, window, s, events, identifier, start) <=
            Potential(limit, window, s, KeyOf(identifier), now, start)
    decreases |events|
  {
    if events != [] {
      var e := events[0];
      PotentialPays(limit, window, s, e, identifier, now, start);
      StepKeepsCounterOk(window, s, e, KeyOf(identifier), now);
      PotentialBounds(limit, window, Step(window, s, e), events[1..], identifier, e.time, start);
    }
  }

  lemma {:induction false} NothingBelowOne(limit: int, window: int, s: State, events: seq<Event>, identifier: string,
      start: real)
    requires limit <= 0
    ensures AllowedIn(limit, window, s, events, identifier, start) == 0
    decreases |events|
  {
    if events != [] {
      NothingBelowOne(limit, window, Step(window, s, events[0]), events[1..], identifier, start);
    }
  }

  /** In any interval of one window's length, over any time-ordered history of calls and late
      or missing EXPIREs of any number of identifiers, one identifier is let through at most
      2 * limit - 1 times (never, if the limit is not positive). */
  lemma SlidingBound(limit: int, window: int, events: seq<Event>, identifier: string, now: real, start: real)
    requires InOrder(now, events)
    ensures AllowedIn(limit, window, INIT, events, identifier, start) <= Max(0, 2 * limit - 1)
  {
    if limit <= 0 {
      NothingBelowOne(limit, window, INIT, events, identifier, start);
    } else {
      PotentialBounds(limit, window, INIT, events, identifier, now, start);
    }
  }

  // ----- the bound is reached -----

  function Calls(identifier: string, time: real, n: nat): seq<Event> {
    if n == 0 then [] else [Call(identifier, time)] + Calls(identifier, time, n - 1)
  }

  lemma {:induction false} CallsAt(identifier: string, time: real, n: nat)
    ensures |Calls(identifier, time, n)| == n
    ensures forall i :: 0 <= i < n ==> Calls(identifier, time, n)[i] == Call(identifier, time)
  {
    if n > 0 { CallsAt(identifier, time, n - 1); }
  }

  lemma CallInWindow(limit: int, window: int, s: State, identifier: string, time: real, rest: seq<Event>, start: real)
    requires KeyOf(identifier) in s.counters && Alive(s.counters[KeyOf(identifier)], time)
    requires 1 <= s.counters[KeyOf(identifier)].count < limit && Within(time, start, window)
    ensures
      var key := KeyOf(identifier);
      var s' := Step(window, s, Call(identifier, time));
      && AllowedIn(limit, window, s, [Call(identifier, time)] + rest, identifier, start) ==
         1 + AllowedIn(limit, window, s', rest, identifier, start)
      && key in s'.counters && s'.counters[key] == s.counters[key].(count := s.counters[key].count + 1)
  {
    var events := [Call(identifier, time)] + rest;
    assert events[1..] == rest;
  }

  /** The counter's own progress over `n` calls at a time when the key is alive. */
  lemma {:induction false} CallsInWindow(
      limit: int, window: int, s: State, identifier: string, time: real, n: nat, rest: seq<Event>, start: real)
    returns (s': State)
    requires KeyOf(identifier) in s.counters && Alive(s.counters[KeyOf(identifier)], time)
    requires 1 <= s.counters[KeyOf(identifier)].count && s.counters[KeyOf(identifier)].count + n <= limit
    requires Within(time, start, window)
    ensures AllowedIn(limit, window, s, Calls(identifier, time, n) + rest, identifier, start) ==
            n + AllowedIn(limit, window, s', rest, identifier, start)
    ensures KeyOf(identifier) in s'.counters
    ensures s'.counters[KeyOf(identifier)].deadline == s.counters[KeyOf(identifier)].deadline
    decreases n
  {
    if n == 0 {
      s' := s;
      assert [] + rest == rest;
    } else {
      var later := Calls(identifier, time, n - 1) + rest;
      assert Calls(identifier, time, n) + rest == [Call(identifier, time)] + later;
      CallInWindow(limit, window, s, identifier, time, later, start);
      s' := CallsInWindow(limit, window, Step(window, s, Call(identifier, time)), identifier, time, n - 1, rest, start);
    }
  }

  /** A whole fresh window used up at one time, after the previous one has expired. */
  lemma FreshWindow(limit: int, window: int, s: State, identifier: string, time: real, start: real)
    requires limit >= 1 && Within(time, start, window)
    requires KeyOf(identifier) in s.counters && !Alive(s.counters[KeyOf(identifier)], time)
    ensures AllowedIn(limit, window, s, Calls(identifier, time, limit), identifier, start) == limit
  {
    var events := Calls(identifier, time, limit);
    var s1 := Step(window, s, events[0]);
    assert s1.counters[KeyOf(identifier)] == Counter(1, None, time);
    var rest: seq<Event> := [];
    var s2 := CallsInWindow(limit, window, s1, identifier, time, limit - 1, rest, start);
    assert events[1..] == Calls(identifier, time, limit - 1) + rest;
  }

  lemma TwoMore(limit: int, window: int, s: State, a: Event, b: Event, rest: seq<Event>, identifier: string,
      start: real)
    requires !Within(a.time, start, window) && !Within(b.time, start, window)
    ensures AllowedIn(limit, window, s, [a, b] + rest, identifier, start) ==
            AllowedIn(limit, window, Step(window, Step(window, s, a), b), rest, identifier, start)
  {
    var events := [a, b] + rest;
    assert events[1..] == [b] + rest;
    assert ([b] + rest)[1..] == rest;
  }

  /** The history behind the lower bound: one call opens a window; its last calls come at the
      very end of it; then a new window is used up. */
  function Burst(limit: int, window: int, identifier: string): seq<Event>
    requires limit >= 1
  {
    [Call(identifier, 0.0), ExpireLands(identifier, 0.0)]
    + (Calls(identifier, window as real, limit - 1) + Calls(identifier, window as real + 0.5, limit))
  }

  lemma BurstInOrder(limit: int, window: int, identifier: string)
    requires limit >= 1 && window >= 1
    ensures InOrder(0.0, Burst(limit, window, identifier))
  {
    CallsAt(identifier, window as real, limit - 1);
    CallsAt(identifier, window as real + 0.5, limit);
    var events := Burst(limit, window, identifier);
    assert forall i :: 0 <= i < |events| ==>
      events[i].time == if i < 2 then 0.0 else if i < limit + 1 then window as real else window as real + 0.5;
  }

  /** For every positive limit and window some history lets 2 * limit - 1 calls through within
      one window's length: the last calls of one window and all of the next. */
  lemma SlidingBoundIsTight(limit: int, window: int, identifier: string)
    requires limit >= 1 && window >= 1
    ensures InOrder(0.0, Burst(limit, window, identifier))
    ensures AllowedIn(limit, window, INIT, Burst(limit, window, identifier), identifier, window as real) ==
            2 * limit - 1
  {
    BurstInOrder(limit, window, identifier);
    var w := window as real;
    var first, landed := Call(identifier, 0.0), ExpireLands(identifier, 0.0);
    var late := Calls(identifier, w + 0.5, limit);
    var s2 := Step(window, Step(window, INIT, first), landed);
    assert s2.counters[KeyOf(identifier)] == Counter(1, Some(w), 0.0);
    TwoMore(limit, window, INIT, first, landed, Calls(identifier, w, limit - 1) + late, identifier, w);
    var s3 := CallsInWindow(limit, window, s2, identifier, w, limit - 1, late, w);
    FreshWindow(limit, window, s3, identifier, w + 0.5, w);
  }

  // ----- when a window ends -----

  /** An identifier that has used up its limit is let through again exactly when its key has
      a deadline and the clock is past it. */
  lemma BlockedUntilDeadlineExactly(limit: int, s: State, identifier: string, time: real)
    requires limit >= 1 && KeyOf(identifier) in s.counters && s.counters[KeyOf(identifier)].count >= limit
    ensures
      var c := s.counters[KeyOf(identifier)];
      Allowed(limit, s, Call(identifier, time)) <==> c.deadline.Some? && c.deadline.value < time
  {
  }

  /** If EXPIRE never lands for it, such an identifier is never let through again. */
  lemma {:induction false} WithoutExpireBlockedForGood(
      limit: int, window: int, s: State, events: seq<Event>, identifier: string, start: real)
    requires limit >= 1 && KeyOf(identifier) in s.counters
    requires s.counters[KeyOf(identifier)].count >= limit && s.counters[KeyOf(identifier)].deadline.None?
    requires forall i :: 0 <= i < |events| ==> !(events[i].ExpireLands? && events[i].identifier == identifier)
    ensures AllowedIn(limit, window, s, events, identifier, start) == 0
    decreases |events|
  {
    if events != [] {
      if events[0].identifier != identifier { OtherKeysUntouched(window, s, events[0], identifier); }
      WithoutExpireBlockedForGood(limit, window, Step(window, s, events[0]), events[1..], identifier, start);
    }
  }

  // ----- which calls are let through, read off the history alone -----

  /** The state after the first `n` events. */
  function After(window: int, events: seq<Event>, n: nat): State
    requires n <= |events|
  {
    if n == 0 then INIT else Step(window, After(window, events, n - 1), events[n - 1])
  }

  predicate CallOf(e: Event, identifier: string) {
    e.Call? && e.identifier == identifier
  }

  /** Where the first EXPIRE of the identifier after event `j` lands, among the first `n` events. */
  function Landing(events: seq<Event>, identifier: string, j: nat, n: nat): (m: Option<nat>)
    requires j < n <= |events|
    ensures m.Some? ==> j < m.value < n && events[m.value] == ExpireLands(identifier, events[m.value].time)
  {
    if n == j + 1 then None
    else
      var before := Landing(events, identifier, j, n - 1);
      if before.None? && events[n - 1].ExpireLands? && events[n - 1].identifier == identifier then Some(n - 1)
      else before
  }

  /** At `time`, a window whose EXPIRE landed at `landed` has ended. */
  predicate Past(window: int, landed: real, time: real) {
    window <= 0 || time > landed + window as real
  }

  /** The call that opened the identifier's latest window: its first call, then each first call
      after the previous window has ended. */
  function Opener(window: int, events: seq<Event>, identifier: string, n: nat): (j: Option<nat>)
    requires n <= |events|
    ensures j.Some? ==> j.value < n && CallOf(events[j.value], identifier)
  {
    if n == 0 then None
    else
      var before := Opener(window, events, identifier, n - 1);
      if !CallOf(events[n - 1], identifier) then before
      else if before.None? then Some(n - 1)
      else
        var landing := Landing(events, identifier, before.value, n - 1);
        if landing.Some? && Past(window, events[landing.value].time, events[n - 1].time) then Some(n - 1) else before
  }

  /** How often the identifier calls among events `i` to `n - 1`. */
  function CallsFrom(events: seq<Event>, identifier: string, i: nat, n: nat): nat
    requires i <= n <= |events|
  {
    if n == i then 0
    else CallsFrom(events, identifier, i, n - 1) + (if CallOf(events[n - 1], identifier) then 1 else 0)
  }

  /** What the counters hold for an identifier, in terms of its history. */
  ghost predicate Tracks(window: int, s: State, events: seq<Event>, identifier: string, n: nat)
    requires n <= |events|
  {
    var key := KeyOf(identifier);
    match Opener(window, events, identifier, n)
    case None => key !in s.counters && key !in s.owed
    case Some(j) =>
      var landing := Landing(events, identifier, j, n);
      && (key in s.owed <==> landing.None?)
      && if landing.Some? && window <= 0 then key !in s.counters
         else
           && key in s.counters && s.counters[key].count == CallsFrom(events, identifier, j, n)
           && s.counters[key].deadline ==
              if landing.None? then None else Some(events[landing.value].time + window as real)
  }

  lemma OtherEventKeepsTracks(window: int, s: State, events: seq<Event>, identifier: string, n: nat)
    requires n < |events| && events[n].identifier != identifier && Tracks(window, s, events, identifier, n)
    ensures Tracks(window, Step(window, s, events[n]), events, identifier, n + 1)
  {
    OtherKeysUntouched(window, s, events[n], identifier);
    if KeyOf(events[n].identifier) == KeyOf(identifier) { KeyOfInjective(events[n].identifier, identifier); }
  }

  lemma {:induction false} OpenerCounts(events: seq<Event>, identifier: string, j: nat, n: nat)
    requires j < n <= |events| && CallOf(events[j], identifier)
    ensures CallsFrom(events, identifier, j, n) >= 1
  {
    if n > j + 1 { OpenerCounts(events, identifier, j, n - 1); }
  }

  lemma CallKeepsTracks(window: int, s: State, events: seq<Event>, identifier: string, n: nat)
    requires n < |events| && CallOf(events[n], identifier) && Tracks(window, s, events, identifier, n)
    ensures Tracks(window, Step(window, s, events[n]), events, identifier, n + 1)
  {
    var key, now := KeyOf(identifier), events[n].time;
    var (count, counters) := Incr(s.counters, key, now);
    var opener := Opener(window, events, identifier, n);
    if Opener(window, events, identifier, n + 1) == Some(n) {
      assert Landing(events, identifier, n, n + 1) == None;
      assert CallsFrom(events, identifier, n, n + 1) == 1 by { assert CallsFrom(events, identifier, n, n) == 0; }
      assert count == 1;
    } else {
      assert Landing(events, identifier, opener.value, n + 1) == Landing(events, identifier, opener.value, n);
      assert CallsFrom(events, identifier, opener.value, n + 1) == CallsFrom(events, identifier, opener.value, n) + 1;
      OpenerCounts(events, identifier, opener.value, n);
      assert counters[key].count == s.counters[key].count + 1 && count != 1;
    }
  }

  lemma LandingKeepsTracks(window: int, s: State, events: seq<Event>, identifier: string, n: nat)
    requires n < |events| && events[n] == ExpireLands(identifier, events[n].time)
    requires Tracks(window, s, events, identifier, n)
    ensures Tracks(window, Step(window, s, events[n]), events, identifier, n + 1)
  {
    var opener := Opener(window, events, identifier, n);
    assert Opener(window, events, identifier, n + 1) == opener;
    if opener.Some? {
      assert CallsFrom(events, identifier, opener.value, n + 1) == CallsFrom(events, identifier, opener.value, n);
    }
  }

  lemma {:induction false} AfterTracks(window: int, events: seq<Event>, identifier: string, n: nat)
    requires n <= |events|
    ensures Tracks(window, After(window, events, n), events, identifier, n)
  {
    if n > 0 {
      AfterTracks(window, events, identifier, n - 1);
      var s := After(window, events, n - 1);
      if events[n - 1].identifier == identifier {
        if events[n - 1].Call? {
          CallKeepsTracks(window, s, events, identifier, n - 1);
        } else {
          LandingKeepsTracks(window, s, events, identifier, n - 1);
        }
      } else {
        OtherEventKeepsTracks(window, s, events, identifier, n - 1);
      }
    }
  }

  /** Over any history of calls and late or missing EXPIREs of any identifiers: a call is let
      through exactly when fewer than `limit` calls of its identifier came before it in its window. */
  lemma AllowedExactly(limit: int, window: int, events: seq<Event>, i: nat)
    requires i < |events| && events[i].Call?
    ensures
      var opener := Opener(window, events, events[i].identifier, i + 1);
      && opener.Some?
      && (Allowed(limit, After(window, events, i), events[i]) <==>
            CallsFrom(events, events[i].identifier, opener.value, i) < limit)
  {
    var s, id := After(window, events, i), events[i].identifier;
    AfterTracks(window, events, id, i);
  }

  lemma {:induction false} FewerLater(events: seq<Event>, identifier: string, i: nat, j: nat, n: nat)
    requires i <= j <= n <= |events|
    ensures CallsFrom(events, identifier, j, n) <= CallsFrom(events, identifier, i, n)
  {
    if j < n { FewerLater(events, identifier, i, j, n - 1); }
  }

  /** The first `limit` calls of an identifier are let through, whatever else happens. */
  lemma FirstCallsAllowed(limit: int, window: int, events: seq<Event>, i: nat)
    requires i < |events| && events[i].Call?
    requires CallsFrom(events, events[i].identifier, 0, i) < limit
    ensures Allowed(limit, After(window, events, i), events[i])
  {
    AllowedExactly(limit, window, events, i);
    FewerLater(events, events[i].identifier, 0, Opener(window, events, events[i].identifier, i + 1).value, i);
  }

  /** How often the identifier calls among events `i` to `n - 1` once that window has ended. */
  function CallsPast(window: int, landed: real, events: seq<Event>, identifier: string, i: nat, n: nat): nat
    requires i <= n <= |events|
  {
    if n == i then 0
    else
      CallsPast(window, landed, events, identifier, i, n - 1)
      + (if CallOf(events[n - 1], identifier) && Past(window, landed, events[n - 1].time) then 1 else 0)
  }

  lemma {:induction false} LandingStays(events: seq<Event>, identifier: string, j: nat, m: nat, n: nat)
    requires j < m < n <= |events| && Landing(events, identifier, j, m + 1) == Some(m)
    ensures Landing(events, identifier, j, n) == Some(m)
  {
    if n > m + 1 { LandingStays(events, identifier, j, m, n - 1); }
  }

  lemma {:induction false} NoLandingBefore(events: seq<Event>, identifier: string, j: nat, m: nat, n: nat)
    requires j < n <= m < |events| && Landing(events, identifier, j, m) == None
    ensures Landing(events, identifier, j, n) == None
    decreases m
  {
    if n < m { NoLandingBefore(events, identifier, j, m - 1, n); }
  }

  /** Until its EXPIRE lands, a window does not end. */
  lemma {:induction false} OpenerStays(window: int, events: seq<Event>, identifier: string, j: nat, m: nat, n: nat)
    requires j < n <= m < |events| && Opener(window, events, identifier, j + 1) == Some(j)
    requires Landing(events, identifier, j, m) == None
    ensures Opener(window, events, identifier, n) == Some(j)
  {
    if n > j + 1 {
      OpenerStays(window, events, identifier, j, m, n - 1);
      NoLandingBefore(events, identifier, j, m, n - 1);
    }
  }

  /** Once a window has ended, only calls after its end count. */
  lemma {:induction false} OnlyPastCallsCount(window: int, events: seq<Event>, identifier: string, j: nat, m: nat,
      now: real, n: nat)
    requires j < m < n <= |events| && InOrder(now, events)
    requires Opener(window, events, identifier, j + 1) == Some(j)
    requires Landing(events, identifier, j, m + 1) == Some(m)
    ensures
      var landed := events[m].time;
      var opener := Opener(window, events, identifier, n);
      && opener.Some?
      && if opener == Some(j) then CallsPast(window, landed, events, identifier, m, n) == 0
         else
           && opener.value > m && Past(window, landed, events[opener.value].time)
           && CallsFrom(events, identifier, opener.value, n) <= CallsPast(window, landed, events, identifier, m, n)
  {
    if n == m + 1 {
      OpenerStays(window, events, identifier, j, m, m);
    } else {
      OnlyPastCallsCount(window, events, identifier, j, m, now, n - 1);
      LandingStays(events, identifier, j, m, n - 1);
    }
  }

  lemma CountAfterEnd(window: int, events: seq<Event>, identifier: string, now: real, j: nat, m: nat, i: nat)
    requires j < m < i < |events| && InOrder(now, events) && CallOf(events[i], identifier)
    requires Opener(window, events, identifier, j + 1) == Some(j)
    requires Landing(events, identifier, j, m + 1) == Some(m)
    requires Past(window, events[m].time, events[i].time)
    ensures
      var opener := Opener(window, events, identifier, i + 1);
      opener.Some? && CallsFrom(events, identifier, opener.value, i) <=
                      CallsPast(window, events[m].time, events, identifier, m, i)
  {
    OnlyPastCallsCount(window, events, identifier, j, m, now, i);
    LandingStays(events, identifier, j, m, i);
    assert CallsFrom(events, identifier, i, i) == 0;
  }

  /** A window ends `window` seconds after its EXPIRE landed: of the calls after that moment the
      first `limit` are let through, at any time and whatever happened before. */
  lemma WindowEnds(limit: int, window: int, events: seq<Event>, now: real, j: nat, m: nat, i: nat)
    requires j < m < i < |events| && InOrder(now, events) && events[i].Call?
    requires Opener(window, events, events[i].identifier, j + 1) == Some(j)
    requires Landing(events, events[i].identifier, j, m + 1) == Some(m)
    requires Past(window, events[m].time, events[i].time)
    requires CallsPast(window, events[m].time, events, events[i].identifier, m, i) < limit
    ensures Allowed(limit, After(window, events, i), events[i])
  {
    CountAfterEnd(window, events, events[i].identifier, now, j, m, i);
    AllowedExactly(limit, window, events, i);
  }

  /** Where windows open: at an identifier's first call, and at its first call after a window
      has ended. */
  lemma {:induction false} FirstCallOpens(window: int, events: seq<Event>, identifier: string, i: nat)
    requires i < |events| && CallOf(events[i], identifier)
    requires CallsFrom(events, identifier, 0, i) == 0
    ensures Opener(window, events, identifier, i + 1) == Some(i)
  {
    NoOpener(window, events, identifier, i);
  }

  lemma {:induction false} NoOpener(window: int, events: seq<Event>, identifier: string, n: nat)
    requires n <= |events| && CallsFrom(events, identifier, 0, n) == 0
    ensures Opener(window, events, identifier, n) == None
  {
    if n > 0 { NoOpener(window, events, identifier, n - 1); }
  }

  lemma NextWindowOpens(window: int, events: seq<Event>, identifier: string, now: real, j: nat, m: nat, i: nat)
    requires j < m < i < |events| && InOrder(now, events) && CallOf(events[i], identifier)
    requires Opener(window, events, identifier, j + 1) == Some(j)
    requires Landing(events, identifier, j, m + 1) == Some(m)
    requires Past(window, events[m].time, events[i].time)
    requires CallsPast(window, events[m].time, events, identifier, m, i) == 0
    ensures Opener(window, events, identifier, i + 1) == Some(i)
  {
    OnlyPastCallsCount(window, events, identifier, j, m, now, i);
    LandingStays(events, identifier, j, m, i);
    if Opener(window, events, identifier, i) != Some(j) {
      OpenerCounts(events, identifier, Opener(window, events, identifier, i).value, i);
    }
  }

  /** An undisturbed call is the two events in a row. */
  lemma CallOnceIsEvents(limit: int, window: int, s: State, identifier: string, now: real, later: real)
    requires KeyOf(identifier) !in s.owed
    ensures
      var (allowed, counters) := CallOnce(limit, window, s.counters, identifier, now, later);
      && (allowed <==> Allowed(limit, s, Call(identifier, now)))
      && Step(window, Step(window, s, Call(identifier, now)), ExpireLands(identifier, later)) == State(counters, s.owed)
  {
    var s1 := Step(window, s, Call(identifier, now));
    if Incr(s.counters, KeyOf(identifier), now).0 == 1 {
      assert s1.owed - {KeyOf(identifier)} == s.owed;
    }
  }
}
