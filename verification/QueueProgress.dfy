/** What polling and reclaiming achieve: which entries leave the pending list, how the
    backlog shrinks, and that every call is a run of the protocol. */
module QueueProgress {
  import opened Basics
  import opened Validation
  import opened Jobs
  import opened JobTable
  import opened GatewayDecision
  import opened RecoveryStream
  import opened RecoveryGraph
  import opened GraphSearch
  import opened RecoveryServices
  import opened Protocol
  import opened ProtocolInvariant
  import opened ProtocolTheorems
  import opened ProtocolFinality
  import opened RecoveryQueue

  // ----- a reclaim that raises -----

  /** How many entries of a page are handled before one raises. */
  function Handled(site: Site, entries: seq<nat>, maxAttempts: int, worlds: nat -> World): nat
    requires forall i :: 0 <= i < |entries| ==> entries[i] < |site.broker.stream|
    decreases |entries|
  {
    if entries == [] then 0
    else
      var n := |entries| - 1;
      var k := Handled(site, entries[..n], maxAttempts, worlds);
      if k < n then k
      else if Process(HandleAll(site, entries[..n], maxAttempts, worlds).1, entries[n], maxAttempts,
          worlds(n)).0.Raised? then n
      else n + 1
  }

  function SetOf(entries: seq<nat>): set<nat> {
    set i | 0 <= i < |entries| :: entries[i]
  }

  lemma SetOfSnoc(entries: seq<nat>, e: nat)
    ensures SetOf(entries + [e]) == SetOf(entries) + {e}
  {
    var all := entries + [e];
    assert forall i :: 0 <= i < |entries| ==> all[i] == entries[i];
    forall x | x in SetOf(entries) + {e} ensures x in SetOf(all) {
      if x in SetOf(entries) {
        var i :| 0 <= i < |entries| && entries[i] == x;
        assert all[i] == x;
      } else {
        assert all[|entries|] == x;
      }
    }
  }

  /** What handling some entries does to the broker. */
  ghost predicate LeftPending(before: Broker, after: Broker, done: set<nat>) {
    && after.stream == before.stream && after.cursor == before.cursor && after.grouped == before.grouped
    && after.pel == before.pel - done
    && after.acked == before.acked + (done * before.pel.Keys)
  }

  lemma ProcessLeavesPending(site: Site, entry: nat, maxAttempts: int, world: World)
    requires entry < |site.broker.stream|
    ensures
      var (r, site') := Process(site, entry, maxAttempts, world);
      LeftPending(site.broker, site'.broker, if r.Raised? then {} else {entry})
  {
  }

  lemma LeftPendingInTurn(a: Broker, b: Broker, c: Broker, first: set<nat>, second: set<nat>)
    requires LeftPending(a, b, first) && LeftPending(b, c, second)
    ensures LeftPending(a, c, first + second)
  {
    assert a.pel - first - second == a.pel - (first + second);
  }

  lemma LeftPendingSnoc(a: Broker, b: Broker, c: Broker, front: seq<nat>, e: nat, raised: bool)
    requires LeftPending(a, b, SetOf(front)) && LeftPending(b, c, if raised then {} else {e})
    ensures LeftPending(a, c, SetOf(if raised then front else front + [e]))
  {
    LeftPendingInTurn(a, b, c, SetOf(front), if raised then {} else {e});
    if raised {
      assert SetOf(front) + {} == SetOf(front);
    } else {
      SetOfSnoc(front, e);
    }
  }

  /** Exactly the handled prefix has left the pending list, and the call returned exactly
      when that is the whole page. */
  ghost predicate PrefixLeft(site: Site, entries: seq<nat>, maxAttempts: int, worlds: nat -> World)
    requires forall i :: 0 <= i < |entries| ==> entries[i] < |site.broker.stream|
  {
    var k := Handled(site, entries, maxAttempts, worlds);
    var (r, site') := HandleAll(site, entries, maxAttempts, worlds);
    && k <= |entries|
    && (r.Returned? <==> k == |entries|)
    && LeftPending(site.broker, site'.broker, SetOf(entries[..k]))
  }

  lemma StoppedBefore(site: Site, front: seq<nat>, e: nat, maxAttempts: int, worlds: nat -> World)
    requires forall i :: 0 <= i < |front| ==> front[i] < |site.broker.stream|
    requires e < |site.broker.stream|
    requires PrefixLeft(site, front, maxAttempts, worlds) && Handled(site, front, maxAttempts, worlds) < |front|
    ensures PrefixLeft(site, front + [e], maxAttempts, worlds)
  {
    assert (front + [e])[..|front|] == front;
    var k := Handled(site, front, maxAttempts, worlds);
    assert front[..k] == (front + [e])[..k];
  }

  lemma OneMoreEntry(site: Site, front: seq<nat>, e: nat, maxAttempts: int, worlds: nat -> World)
    requires forall i :: 0 <= i < |front| ==> front[i] < |site.broker.stream|
    requires e < |site.broker.stream|
    requires PrefixLeft(site, front, maxAttempts, worlds) && Handled(site, front, maxAttempts, worlds) == |front|
    ensures PrefixLeft(site, front + [e], maxAttempts, worlds)
  {
    var all := front + [e];
    assert all[..|front|] == front && front[..|front|] == front && all[..|all|] == all;
    var site0 := HandleAll(site, front, maxAttempts, worlds).1;
    var (r1, site1) := Process(site0, e, maxAttempts, worlds(|front|));
    ProcessLeavesPending(site0, e, maxAttempts, worlds(|front|));
    LeftPendingSnoc(site.broker, site0.broker, site1.broker, front, e, r1.Raised?);
  }

  lemma {:induction false} HandledPrefixLeaves(site: Site, entries: seq<nat>, maxAttempts: int, worlds: nat -> World)
    requires forall i :: 0 <= i < |entries| ==> entries[i] < |site.broker.stream|
    ensures PrefixLeft(site, entries, maxAttempts, worlds)
    decreases |entries|
  {
    if entries != [] {
      var n := |entries| - 1;
      var front := entries[..n];
      assert entries == front + [entries[n]];
      HandledPrefixLeaves(site, front, maxAttempts, worlds);
      if Handled(site, front, maxAttempts, worlds) < n {
        StoppedBefore(site, front, entries[n], maxAttempts, worlds);
      } else {
        OneMoreEntry(site, front, entries[n], maxAttempts, worlds);
      }
    }
  }

  lemma InPrefix(page: seq<nat>, k: nat, x: nat)
    requires k <= |page|
    ensures x in SetOf(page[..k]) <==> exists i :: 0 <= i < k && page[i] == x
  {
    var front := page[..k];
    if x in SetOf(front) {
      var i :| 0 <= i < |front| && front[i] == x;
      assert page[i] == x;
    }
    if i :| 0 <= i < k && page[i] == x { assert front[i] == x; }
  }

  /** After a prefix of a claimed page has left, the rest of the page is claimable again. */
  lemma RestOfPageClaimable(before: Broker, name: string, page: seq<nat>, k: nat, after: Broker)
    requires ClaimPage(before, page) && k <= |page|
    requires LeftPending(XAutoClaim(before, name, page), after, SetOf(page[..k]))
    ensures after.pel.Keys == before.pel.Keys - SetOf(page[..k])
    ensures after.acked == before.acked + SetOf(page[..k])
    ensures ClaimPage(after, page[k..])
    ensures forall i :: k <= i < |page| ==> page[i] in after.pel && after.pel[page[i]] == name
    ensures forall e :: e in after.pel && e !in page ==> e in before.pel && after.pel[e] == before.pel[e]
  {
    var claimed := XAutoClaim(before, name, page);
    assert claimed.pel.Keys == before.pel.Keys;
    assert SetOf(page[..k]) <= before.pel.Keys by {
      forall x | x in SetOf(page[..k]) ensures x in before.pel.Keys { InPrefix(page, k, x); }
    }
    forall i | k <= i < |page| ensures page[i] in after.pel && after.pel[page[i]] == name {
      InPrefix(page, k, page[i]);
      assert page[i] in page;
      assert claimed.pel[page[i]] == name;
    }
    var tail := page[k..];
    assert forall i :: 0 <= i < |tail| ==> tail[i] == page[k + i];
  }

  lemma LeftPendingKeepsBrokerOk(before: Broker, after: Broker, done: set<nat>)
    requires BrokerOk(before) && LeftPending(before, after, done)
    ensures BrokerOk(after)
  {
  }

  /** A reclaim whose k-th entry raises has acknowledged exactly the entries before it; the
      rest of the page is still pending, now under this consumer, and can be claimed again; other
      entries keep their owners. */
  lemma ReclaimStopsAtFailure(site: Site, name: string, page: seq<nat>, maxAttempts: int, worlds: nat -> World)
    requires BrokerOk(site.broker) && ClaimPage(XGroupCreate(site.broker), page)
    ensures forall i :: 0 <= i < |page| ==> page[i] < |site.broker.stream|
    ensures
      var claimed := site.(broker := XAutoClaim(XGroupCreate(site.broker), name, page));
      var k := Handled(claimed, page, maxAttempts, worlds);
      var (r, site') := Reclaim(site, name, page, maxAttempts, worlds);
      && k <= |page|
      && (r.Returned? <==> k == |page|)
      && site'.broker.pel.Keys == site.broker.pel.Keys - SetOf(page[..k])
      && site'.broker.acked == site.broker.acked + SetOf(page[..k])
      && ClaimPage(site'.broker, page[k..])
      && (forall i :: k <= i < |page| ==> page[i] in site'.broker.pel && site'.broker.pel[page[i]] == name)
      && (forall e :: e in site'.broker.pel && e !in page ==>
            e in site.broker.pel && site'.broker.pel[e] == site.broker.pel[e])
      && BrokerOk(site'.broker)
      && site'.broker.stream == site.broker.stream && site'.broker.cursor == site.broker.cursor
  {
    var grouped := XGroupCreate(site.broker);
    var claimed := site.(broker := XAutoClaim(grouped, name, page));
    CommandsKeepBrokerOk(site.broker, "", name, [], 0);
    CommandsKeepBrokerOk(grouped, "", name, page, 0);
    HandledPrefixLeaves(claimed, page, maxAttempts, worlds);
    var k := Handled(claimed, page, maxAttempts, worlds);
    var after := HandleAll(claimed, page, maxAttempts, worlds).1.broker;
    RestOfPageClaimable(grouped, name, page, k, after);
    LeftPendingKeepsBrokerOk(claimed.broker, after, SetOf(page[..k]));
  }

  // ----- a head that always raises -----

  /** What one XAUTOCLAIM hands over, and what each of its entries meets. */
  datatype Claimed = Claimed(page: seq<nat>, worlds: nat -> World)

  /** The page is empty, or handling its first entry raises. */
  ghost predicate HeadRaises(site: Site, name: string, maxAttempts: int, claim: Claimed)
    requires forall i :: 0 <= i < |claim.page| ==> claim.page[i] < |site.broker.stream|
  {
    var claimed := site.(broker := XAutoClaim(XGroupCreate(site.broker), name, claim.page));
    claim.page != [] ==> Process(claimed, claim.page[0], maxAttempts, claim.worlds(0)).0.Raised?
  }

  lemma {:induction false} HandledFromHead(site: Site, entries: seq<nat>, maxAttempts: int, worlds: nat -> World)
    requires entries != [] && forall i :: 0 <= i < |entries| ==> entries[i] < |site.broker.stream|
    ensures Handled(site, entries, maxAttempts, worlds) == 0 <==>
            Process(site, entries[0], maxAttempts, worlds(0)).0.Raised?
    decreases |entries|
  {
    var n := |entries| - 1;
    if n == 0 {
      assert HandleAll(site, entries[..n], maxAttempts, worlds).1 == site;
    } else {
      HandledFromHead(site, entries[..n], maxAttempts, worlds);
    }
  }

  /** A reclaim takes nothing off the pending list exactly when its page is empty or the first
      entry of the page raises. */
  lemma ReclaimStarvesExactly(site: Site, name: string, maxAttempts: int, claim: Claimed)
    requires BrokerOk(site.broker) && ClaimPage(XGroupCreate(site.broker), claim.page)
    ensures forall i :: 0 <= i < |claim.page| ==> claim.page[i] < |site.broker.stream|
    ensures
      var after := Reclaim(site, name, claim.page, maxAttempts, claim.worlds).1.broker;
      && BrokerOk(after) && after.stream == site.broker.stream
      && (after.pel.Keys == site.broker.pel.Keys <==> HeadRaises(site, name, maxAttempts, claim))
      && (HeadRaises(site, name, maxAttempts, claim) ==> after.acked == site.broker.acked)
  {
    var page := claim.page;
    ReclaimStopsAtFailure(site, name, page, maxAttempts, claim.worlds);
    var claimed := site.(broker := XAutoClaim(XGroupCreate(site.broker), name, page));
    var k := Handled(claimed, page, maxAttempts, claim.worlds);
    if page != [] {
      HandledFromHead(claimed, page, maxAttempts, claim.worlds);
      InPrefix(page, k, page[0]);
      assert page[0] in site.broker.pel;
    }
    if k == 0 { assert SetOf(page[..k]) == {}; }
  }

  /** Reclaims one after the other, each of whose pages, if not empty, starts with an entry
      that raises. */
  ghost predicate Starved(site: Site, name: string, maxAttempts: int, claims: seq<Claimed>, end: Site)
    decreases |claims|
  {
    if claims == [] then end == site
    else
      && ClaimPage(XGroupCreate(site.broker), claims[0].page)
      && (forall i :: 0 <= i < |claims[0].page| ==> claims[0].page[i] < |site.broker.stream|)
      && HeadRaises(site, name, maxAttempts, claims[0])
      && Starved(Reclaim(site, name, claims[0].page, maxAttempts, claims[0].worlds).1, name, maxAttempts, claims[1..],
          end)
  }

  /** Every reclaim starts from the first pending entry again, so an entry that always raises
      and heads every page starves the rest: over any number of reclaims nothing leaves the
      pending list. */
  lemma {:induction false} HeadStarvesRest(site: Site, name: string, maxAttempts: int, claims: seq<Claimed>, end: Site)
    requires BrokerOk(site.broker) && Starved(site, name, maxAttempts, claims, end)
    ensures end.broker.pel.Keys == site.broker.pel.Keys && end.broker.acked == site.broker.acked
    ensures end.broker.stream == site.broker.stream
    decreases |claims|
  {
    if claims != [] {
      ReclaimStarvesExactly(site, name, maxAttempts, claims[0]);
      HeadStarvesRest(Reclaim(site, name, claims[0].page, maxAttempts, claims[0].worlds).1, name, maxAttempts,
          claims[1..], end);
    }
  }

  // ----- the backlog -----

  /** Entries not yet acknowledged. */
  function Backlog(b: Broker): int {
    |b.stream| - b.cursor + |b.pel|
  }

  datatype Round = Poll(world: World) | Sweep(page: seq<nat>, worlds: nat -> World)

  function RoundSite(site: Site, name: string, maxAttempts: int, round: Round): Site
    requires round.Sweep? ==> forall i :: 0 <= i < |round.page| ==> round.page[i] < |site.broker.stream|
  {
    match round
    case Poll(world) => ProcessNext(site, name, maxAttempts, world).1
    case Sweep(page, worlds) => Reclaim(site, name, page, maxAttempts, worlds).1
  }

  /** The round gets at least one entry and nothing in it raises. */
  ghost predicate Effective(site: Site, name: string, maxAttempts: int, round: Round)
    requires BrokerOk(site.broker)
  {
    match round
    case Poll(world) => site.broker.cursor < |site.broker.stream|
        && ProcessNext(site, name, maxAttempts, world).0.Returned?
    case Sweep(page, worlds) =>
      && page != [] && ClaimPage(XGroupCreate(site.broker), page)
      && Reclaim(site, name, page, maxAttempts, worlds).0.Returned?
  }

  lemma PageSize(page: seq<nat>)
    requires forall i, j :: 0 <= i < j < |page| ==> page[i] < page[j]
    ensures |SetOf(page)| == |page|
  {
    if page != [] {
      var front, last := page[..|page| - 1], page[|page| - 1];
      PageSize(front);
      assert page == front + [last];
      SetOfSnoc(front, last);
      assert last !in SetOf(front);
    }
  }

  /** Delivering an entry and then acknowledging it leaves the pending list as it was. */
  lemma DeliverThenLeave(b: Broker, name: string, after: Broker)
    requires BrokerOk(b) && b.cursor < |b.stream|
    requires LeftPending(XReadGroup(XGroupCreate(b), name).1, after, {b.cursor})
    ensures BrokerOk(after) && after.pel == b.pel
    ensures Backlog(after) == Backlog(b) - 1
  {
    var b1 := XGroupCreate(b);
    CommandsKeepBrokerOk(b, "", name, [], 0);
    CommandsKeepBrokerOk(b1, "", name, [], 0);
    var b2 := XReadGroup(b1, name).1;
    LeftPendingKeepsBrokerOk(b2, after, {b.cursor});
    Overwritten(b.pel, b.cursor, name, name);
  }

  lemma PollShrinks(site: Site, name: string, maxAttempts: int, world: World)
    requires BrokerOk(site.broker) && Effective(site, name, maxAttempts, Poll(world))
    ensures
      var after := ProcessNext(site, name, maxAttempts, world).1.broker;
      BrokerOk(after) && Backlog(after) == Backlog(site.broker) - 1
  {
    var b2 := XReadGroup(XGroupCreate(site.broker), name).1;
    ProcessLeavesPending(site.(broker := b2), site.broker.cursor, maxAttempts, world);
    DeliverThenLeave(site.broker, name, ProcessNext(site, name, maxAttempts, world).1.broker);
  }

  lemma SweepShrinks(site: Site, name: string, maxAttempts: int, page: seq<nat>, worlds: nat -> World)
    requires BrokerOk(site.broker) && Effective(site, name, maxAttempts, Sweep(page, worlds))
    ensures forall i :: 0 <= i < |page| ==> page[i] < |site.broker.stream|
    ensures
      var after := Reclaim(site, name, page, maxAttempts, worlds).1.broker;
      BrokerOk(after) && Backlog(after) == Backlog(site.broker) - |page|
  {
    ReclaimStopsAtFailure(site, name, page, maxAttempts, worlds);
    var after := Reclaim(site, name, page, maxAttempts, worlds).1.broker;
    assert page[..|page|] == page;
    PageSize(page);
    assert SetOf(page) <= site.broker.pel.Keys;
    assert |after.pel.Keys| == |site.broker.pel.Keys| - |SetOf(page)|;
    assert |after.pel.Keys| == |after.pel| && |site.broker.pel.Keys| == |site.broker.pel|;
  }

  /** A poll that is not stopped shortens the backlog by its entry, a reclaim by its page. */
  lemma EffectiveRoundShrinks(site: Site, name: string, maxAttempts: int, round: Round)
    requires BrokerOk(site.broker) && Effective(site, name, maxAttempts, round)
    ensures round.Sweep? ==> forall i :: 0 <= i < |round.page| ==> round.page[i] < |site.broker.stream|
    ensures BrokerOk(RoundSite(site, name, maxAttempts, round).broker)
    ensures Backlog(RoundSite(site, name, maxAttempts, round).broker) ==
            Backlog(site.broker) - (if round.Poll? then 1 else |round.page|)
  {
    match round
    case Poll(world) => PollShrinks(site, name, maxAttempts, world);
    case Sweep(page, worlds) => SweepShrinks(site, name, maxAttempts, page, worlds);
  }

  /** Services and storage that answer, so that every run of the graph ends. */
  ghost predicate Finishing(world: World, maxAttempts: int) {
    && world.storage.NoFault?
    && forall job :: Run(WorkerBacked(world), Start(job, maxAttempts)).node.End?
  }

  ghost predicate RowsKeyed(site: Site) {
    forall id :: id in site.jobs ==> site.jobs[id].id == id
  }

  lemma ProcessFinishes(site: Site, entry: nat, maxAttempts: int, world: World)
    requires entry < |site.broker.stream| && Finishing(world, maxAttempts) && RowsKeyed(site)
    ensures Process(site, entry, maxAttempts, world).0.Returned?
    ensures RowsKeyed(Process(site, entry, maxAttempts, world).1)
  {
  }

  lemma PollIsEffective(site: Site, name: string, maxAttempts: int, world: World)
    requires BrokerOk(site.broker) && RowsKeyed(site) && Finishing(world, maxAttempts)
    requires site.broker.cursor < |site.broker.stream|
    ensures Effective(site, name, maxAttempts, Poll(world))
    ensures RowsKeyed(RoundSite(site, name, maxAttempts, Poll(world)))
  {
    var broker := XReadGroup(XGroupCreate(site.broker), name).1;
    ProcessFinishes(site.(broker := broker), site.broker.cursor, maxAttempts, world);
  }

  lemma {:induction false} HandleAllFinishes(site: Site, entries: seq<nat>, maxAttempts: int, worlds: nat -> World)
    requires forall i :: 0 <= i < |entries| ==> entries[i] < |site.broker.stream|
    requires RowsKeyed(site) && forall i: nat :: Finishing(worlds(i), maxAttempts)
    ensures HandleAll(site, entries, maxAttempts, worlds).0.Returned?
    ensures RowsKeyed(HandleAll(site, entries, maxAttempts, worlds).1)
    decreases |entries|
  {
    if entries != [] {
      var n := |entries| - 1;
      HandleAllFinishes(site, entries[..n], maxAttempts, worlds);
      assert Finishing(worlds(n), maxAttempts);
      ProcessFinishes(HandleAll(site, entries[..n], maxAttempts, worlds).1, entries[n], maxAttempts, worlds(n));
    }
  }

  /** Any page the claim may hand over is handled to its end. */
  lemma SweepFinishes(site: Site, name: string, maxAttempts: int, page: seq<nat>, worlds: nat -> World)
    requires BrokerOk(site.broker) && RowsKeyed(site) && ClaimPage(XGroupCreate(site.broker), page)
    requires forall i: nat :: Finishing(worlds(i), maxAttempts)
    ensures forall i :: 0 <= i < |page| ==> page[i] < |site.broker.stream|
    ensures Reclaim(site, name, page, maxAttempts, worlds).0.Returned?
    ensures RowsKeyed(Reclaim(site, name, page, maxAttempts, worlds).1)
  {
    HandleAllFinishes(site.(broker := XAutoClaim(XGroupCreate(site.broker), name, page)), page, maxAttempts, worlds);
  }

  /** A schedule of effective rounds. */
  ghost predicate Schedule(site: Site, name: string, maxAttempts: int, rounds: seq<Round>, end: Site)
    decreases |rounds|
  {
    if rounds == [] then end == site
    else
      && BrokerOk(site.broker)
      && Effective(site, name, maxAttempts, rounds[0])
      && (rounds[0].Sweep? ==> forall i :: 0 <= i < |rounds[0].page| ==> rounds[0].page[i] < |site.broker.stream|)
      && Schedule(RoundSite(site, name, maxAttempts, rounds[0]), name, maxAttempts, rounds[1..], end)
  }

  /** No schedule is longer than the backlog it removes. */
  lemma {:induction false} SchedulesAreBounded(site: Site, name: string, maxAttempts: int, rounds: seq<Round>,
      end: Site)
    requires BrokerOk(site.broker) && Schedule(site, name, maxAttempts, rounds, end)
    ensures BrokerOk(end.broker)
    ensures Backlog(end.broker) + |rounds| <= Backlog(site.broker)
    decreases |rounds|
  {
    if rounds != [] {
      EffectiveRoundShrinks(site, name, maxAttempts, rounds[0]);
      SchedulesAreBounded(RoundSite(site, name, maxAttempts, rounds[0]), name, maxAttempts, rounds[1..], end);
    }
  }

  lemma BacklogNonNegative(b: Broker)
    requires BrokerOk(b)
    ensures Backlog(b) >= 0
    ensures Backlog(b) == 0 ==> forall e :: 0 <= e < |b.stream| ==> e in b.acked
  {
    if Backlog(b) == 0 { assert |b.pel| == 0; assert b.pel == map[]; }
  }

  // ----- polling and reclaiming in turn -----

  /** A poll followed by a reclaim; `page` is what XAUTOCLAIM hands over. */
  datatype Cycle = Cycle(world: World, page: seq<nat>, worlds: nat -> World)

  function Polled(site: Site, name: string, maxAttempts: int, cycle: Cycle): Site {
    ProcessNext(site, name, maxAttempts, cycle.world).1
  }

  /** Services and storage answer in this cycle, and the claim hands over whatever page it may,
      but some entry if one is pending. */
  ghost predicate CycleFrom(polled: Site, maxAttempts: int, cycle: Cycle) {
    && Finishing(cycle.world, maxAttempts)
    && (forall i: nat :: Finishing(cycle.worlds(i), maxAttempts))
    && ClaimPage(XGroupCreate(polled.broker), cycle.page)
    && (forall i :: 0 <= i < |cycle.page| ==> cycle.page[i] < |polled.broker.stream|)
    && (cycle.page == [] ==> polled.broker.pel == map[])
  }

  function Reclaimed(polled: Site, name: string, maxAttempts: int, cycle: Cycle): Site
    requires forall i :: 0 <= i < |cycle.page| ==> cycle.page[i] < |polled.broker.stream|
  {
    Reclaim(polled, name, cycle.page, maxAttempts, cycle.worlds).1
  }

  ghost predicate Alternation(site: Site, name: string, maxAttempts: int, cycles: seq<Cycle>, end: Site)
    decreases |cycles|
  {
    if cycles == [] then end == site
    else
      var polled := Polled(site, name, maxAttempts, cycles[0]);
      && CycleFrom(polled, maxAttempts, cycles[0])
      && Alternation(Reclaimed(polled, name, maxAttempts, cycles[0]), name, maxAttempts, cycles[1..], end)
  }

  /** A poll takes one entry off the backlog, or finds everything delivered and changes no
      delivery. */
  lemma PollInTurn(site: Site, name: string, maxAttempts: int, cycle: Cycle)
    requires BrokerOk(site.broker) && RowsKeyed(site) && Finishing(cycle.world, maxAttempts)
    ensures
      var polled := Polled(site, name, maxAttempts, cycle);
      && BrokerOk(polled.broker) && RowsKeyed(polled) && polled.broker.stream == site.broker.stream
      && (site.broker.cursor < |site.broker.stream| ==> Backlog(polled.broker) == Backlog(site.broker) - 1)
      && (site.broker.cursor == |site.broker.stream| ==>
            polled.broker.cursor == |site.broker.stream| && polled.broker.pel == site.broker.pel)
  {
    CommandsKeepBrokerOk(site.broker, "", name, [], 0);
    if site.broker.cursor < |site.broker.stream| {
      PollIsEffective(site, name, maxAttempts, cycle.world);
      PollShrinks(site, name, maxAttempts, cycle.world);
      var b2 := XReadGroup(XGroupCreate(site.broker), name).1;
      ProcessLeavesPending(site.(broker := b2), site.broker.cursor, maxAttempts, cycle.world);
    }
  }

  /** A reclaim takes its page off the backlog. */
  lemma ReclaimInTurn(polled: Site, name: string, maxAttempts: int, cycle: Cycle)
    requires BrokerOk(polled.broker) && RowsKeyed(polled) && CycleFrom(polled, maxAttempts, cycle)
    ensures
      var after := Reclaimed(polled, name, maxAttempts, cycle);
      && BrokerOk(after.broker) && RowsKeyed(after) && after.broker.stream == polled.broker.stream
      && Backlog(after.broker) == Backlog(polled.broker) - |cycle.page|
  {
    SweepFinishes(polled, name, maxAttempts, cycle.page, cycle.worlds);
    ReclaimStopsAtFailure(polled, name, cycle.page, maxAttempts, cycle.worlds);
    if cycle.page == [] {
      EmptySweep(polled, name, maxAttempts, cycle.worlds);
    } else {
      SweepShrinks(polled, name, maxAttempts, cycle.page, cycle.worlds);
    }
  }

  lemma EmptySweep(site: Site, name: string, maxAttempts: int, worlds: nat -> World)
    requires BrokerOk(site.broker)
    ensures Backlog(Reclaim(site, name, [], maxAttempts, worlds).1.broker) == Backlog(site.broker)
  {
    assert XAutoClaim(XGroupCreate(site.broker), name, []).pel == site.broker.pel;
  }

  /** A cycle shortens the backlog, until there is none. */
  lemma CycleShrinks(site: Site, name: string, maxAttempts: int, cycle: Cycle)
    requires BrokerOk(site.broker) && RowsKeyed(site)
    requires CycleFrom(Polled(site, name, maxAttempts, cycle), maxAttempts, cycle)
    ensures
      var after := Reclaimed(Polled(site, name, maxAttempts, cycle), name, maxAttempts, cycle);
      && BrokerOk(after.broker) && RowsKeyed(after) && after.broker.stream == site.broker.stream
      && 0 <= Backlog(after.broker) <= Max(0, Backlog(site.broker) - 1)
  {
    var polled := Polled(site, name, maxAttempts, cycle);
    PollInTurn(site, name, maxAttempts, cycle);
    ReclaimInTurn(polled, name, maxAttempts, cycle);
    BacklogNonNegative(Reclaimed(polled, name, maxAttempts, cycle).broker);
    if site.broker.cursor == |site.broker.stream| && cycle.page == [] {
      assert |site.broker.pel| == 0;
    }
  }

  lemma {:induction false} AlternationShrinks(site: Site, name: string, maxAttempts: int, cycles: seq<Cycle>, end: Site)
    requires BrokerOk(site.broker) && RowsKeyed(site) && Alternation(site, name, maxAttempts, cycles, end)
    ensures BrokerOk(end.broker) && end.broker.stream == site.broker.stream
    ensures 0 <= Backlog(end.broker) <= Max(0, Backlog(site.broker) - |cycles|)
    decreases |cycles|
  {
    BacklogNonNegative(site.broker);
    if cycles != [] {
      var polled := Polled(site, name, maxAttempts, cycles[0]);
      CycleShrinks(site, name, maxAttempts, cycles[0]);
      AlternationShrinks(Reclaimed(polled, name, maxAttempts, cycles[0]), name, maxAttempts, cycles[1..], end);
    }
  }

  /** When services answer, polling and reclaiming in turn drain the stream: whatever pages the
      claims hand over, as many cycles as there is backlog acknowledge every entry. */
  lemma Drains(site: Site, name: string, maxAttempts: int, cycles: seq<Cycle>, end: Site)
    requires BrokerOk(site.broker) && RowsKeyed(site) && Alternation(site, name, maxAttempts, cycles, end)
    requires |cycles| >= Backlog(site.broker)
    ensures end.broker.stream == site.broker.stream
    ensures forall e :: 0 <= e < |end.broker.stream| ==> e in end.broker.acked
  {
    AlternationShrinks(site, name, maxAttempts, cycles, end);
    BacklogNonNegative(end.broker);
  }

  /** A page a claim may hand over: a single entry is enough. */
  lemma SomePage(b: Broker) returns (page: seq<nat>)
    requires BrokerOk(b)
    ensures ClaimPage(XGroupCreate(b), page) && forall i :: 0 <= i < |page| ==> page[i] < |b.stream|
    ensures page == [] ==> b.pel == map[]
  {
    page := [];
    if b.pel != map[] {
      var e :| e in b.pel;
      page := [e];
    }
  }

  lemma SomeCycle(site: Site, name: string, maxAttempts: int, world: World) returns (cycle: Cycle)
    requires BrokerOk(site.broker) && RowsKeyed(site) && Finishing(world, maxAttempts)
    ensures CycleFrom(Polled(site, name, maxAttempts, cycle), maxAttempts, cycle)
  {
    var idle := Cycle(world, [], (i: nat) => world);
    PollInTurn(site, name, maxAttempts, idle);
    var page := SomePage(Polled(site, name, maxAttempts, idle).broker);
    cycle := idle.(page := page);
    assert Polled(site, name, maxAttempts, cycle) == Polled(site, name, maxAttempts, idle);
  }

  /** Alternations of any length exist. */
  lemma {:induction false} AlternationsExist(site: Site, name: string, maxAttempts: int, world: World, n: nat)
    returns (cycles: seq<Cycle>, end: Site)
    requires BrokerOk(site.broker) && RowsKeyed(site) && Finishing(world, maxAttempts)
    ensures Alternation(site, name, maxAttempts, cycles, end) && |cycles| == n
    decreases n
  {
    if n == 0 {
      cycles, end := [], site;
    } else {
      var cycle := SomeCycle(site, name, maxAttempts, world);
      CycleShrinks(site, name, maxAttempts, cycle);
      var next := Reclaimed(Polled(site, name, maxAttempts, cycle), name, maxAttempts, cycle);
      var later: seq<Cycle>;
      later, end := AlternationsExist(next, name, maxAttempts, world, n - 1);
      cycles := [cycle] + later;
      assert cycles[1..] == later;
    }
  }

  // ----- every call is a run of the protocol -----

  function SiteOf(s: State): Site {
    Site(s.jobs, s.broker)
  }

  /** What `Process` does to a reachable state's site: the job is there, and the entry is
      handled unless something raises. */
  lemma ProcessOnSite(s: State, t: nat, maxAttempts: int, world: World)
    requires Inv(s) && t in s.consumers
    ensures
      var entry := s.consumers[t].entry;
      && entry < |s.broker.stream| && s.broker.stream[entry] in s.jobs
      && var id := s.broker.stream[entry];
         var final := Run(WorkerBacked(world), Start(s.jobs[id], maxAttempts));
         var jobs := s.jobs[id := FinalJob(s.jobs[id], final.state)];
         Process(SiteOf(s), entry, maxAttempts, world) ==
         if !final.node.End? || world.storage.GetRaises? || world.storage.UpdateRaises? then (Raised, SiteOf(s))
         else if world.storage.AckRaises? then (Raised, Site(jobs, s.broker))
         else (Returned(Some(id)), Site(jobs, XAck(s.broker, entry)))
  {
    assert ConsumerOk(s, s.consumers[t]);
    var entry := s.consumers[t].entry;
    assert EntryOk(s, entry) && JobOk(s, s.broker.stream[entry]);
    var job := s.jobs[s.broker.stream[entry]];
    var final := Run(WorkerBacked(world), Start(job, maxAttempts));
    if final.node.End? { GraphDecision(job, maxAttempts, world); }
  }

  lemma ProceedOverwrites(consumers: map<nat, Consumer>, t: nat, c: Consumer, rest: seq<nat>)
    ensures Proceed(consumers[t := c], t, rest) == Proceed(consumers, t, rest)
  {
    if rest == [] {
      Overwritten(consumers, t, c, c);
    } else {
      Overwritten(consumers, t, c, Handling(rest[0], rest[1..]));
    }
  }

  lemma AcknowledgeReaches(s: State, t: nat, entry: nat, rest: seq<nat>, jobs: map<string, Job>)
    requires
      var s1 := s.(jobs := jobs, consumers := s.consumers[t := Acking(entry, rest)]);
      Inv(s1) && Reaches(s, s1)
    ensures
      var s2 := s.(jobs := jobs, broker := XAck(s.broker, entry), consumers := Proceed(s.consumers, t, rest));
      Inv(s2) && Reaches(s, s2)
  {
    var s1 := s.(jobs := jobs, consumers := s.consumers[t := Acking(entry, rest)]);
    var s2 := s.(jobs := jobs, broker := XAck(s.broker, entry), consumers := Proceed(s.consumers, t, rest));
    AfterAcknowledge(s1, t);
    ProceedOverwrites(s.consumers, t, Acking(entry, rest), rest);
    assert DoAcknowledge(s1, t) == s2;
    ReachesTransitive(s, s1, s2);
  }

  lemma GivesUpReaches(s: State, t: nat, c: Consumer, jobs: map<string, Job>)
    requires
      var s1 := s.(jobs := jobs, consumers := s.consumers[t := c]);
      Inv(s1) && Reaches(s, s1)
    ensures
      var s2 := s.(jobs := jobs, consumers := s.consumers - {t});
      Inv(s2) && Reaches(s, s2)
  {
    var s1 := s.(jobs := jobs, consumers := s.consumers[t := c]);
    AfterCrashConsumer(s1, t);
    Overwritten(s.consumers, t, c, c);
    ReachesTransitive(s, s1, s.(jobs := jobs, consumers := s.consumers - {t}));
  }

  /** Handling one entry is what `Process` says, whether or not something raises; a consumer
      whose handling raises is idle afterwards. */
  lemma ProcessIsARun(s: State, t: nat, maxAttempts: int, world: World) returns (s': State)
    requires Inv(s) && t in s.consumers && s.consumers[t].Handling?
    ensures s.consumers[t].entry < |s.broker.stream|
    ensures Reaches(s, s') && Inv(s')
    ensures
      var c := s.consumers[t];
      var (r, site') := Process(SiteOf(s), c.entry, maxAttempts, world);
      && SiteOf(s') == site'
      && s'.consumers == if r.Raised? then s.consumers - {t} else Proceed(s.consumers, t, c.rest)
  {
    var c := s.consumers[t];
    ProcessOnSite(s, t, maxAttempts, world);
    var id := s.broker.stream[c.entry];
    var final := Run(WorkerBacked(world), Start(s.jobs[id], maxAttempts));
    if !final.node.End? || world.storage.GetRaises? || world.storage.UpdateRaises? {
      AfterCrashConsumer(s, t);
      s' := DoCrashConsumer(s, t);
    } else {
      ProcessingReaches(s, t, maxAttempts, world);
      var jobs := s.jobs[id := FinalJob(s.jobs[id], final.state)];
      if world.storage.AckRaises? {
        GivesUpReaches(s, t, Acking(c.entry, c.rest), jobs);
        s' := s.(jobs := jobs, consumers := s.consumers - {t});
      } else {
        AcknowledgeReaches(s, t, c.entry, c.rest, jobs);
        s' := s.(jobs := jobs, broker := XAck(s.broker, c.entry), consumers := Proceed(s.consumers, t, c.rest));
      }
    }
  }

  /** Where a consumer stands after the first `k` entries of a claimed page. */
  function AfterEntries(consumers: map<nat, Consumer>, t: nat, page: seq<nat>, k: nat): map<nat, Consumer>
    requires k <= |page|
  {
    if k == |page| then consumers - {t} else consumers[t := Handling(page[k], page[k + 1..])]
  }

  lemma NextOfPage(consumers: map<nat, Consumer>, t: nat, page: seq<nat>, k: nat)
    requires 0 < k <= |page|
    ensures Proceed(AfterEntries(consumers, t, page, k - 1), t, page[k..]) == AfterEntries(consumers, t, page, k)
    ensures AfterEntries(consumers, t, page, k - 1) - {t} == consumers - {t}
  {
    if k < |page| {
      assert page[k..][0] == page[k] && page[k..][1..] == page[k + 1..];
    }
  }

  /** A consumer works through the entries it claimed as `HandleAll` says. */
  lemma {:induction false} HandleAllIsARun(s: State, t: nat, page: seq<nat>, k: nat, maxAttempts: int,
      worlds: nat -> World)
      returns (s': State)
    requires Inv(s) && k <= |page| && page != []
    requires forall i :: 0 <= i < |page| ==> page[i] < |s.broker.stream|
    requires t in s.consumers && s.consumers[t] == Handling(page[0], page[1..])
    ensures Reaches(s, s') && Inv(s')
    ensures
      var (r, site') := HandleAll(SiteOf(s), page[..k], maxAttempts, worlds);
      && SiteOf(s') == site'
      && s'.consumers == if r.Raised? then s.consumers - {t} else AfterEntries(s.consumers, t, page, k)
  {
    if k == 0 {
      s' := s;
      ReachesItself(s);
      assert AfterEntries(s.consumers, t, page, 0) == s.consumers;
    } else {
      var s1 := HandleAllIsARun(s, t, page, k - 1, maxAttempts, worlds);
      assert page[..k][..k - 1] == page[..k - 1];
      if HandleAll(SiteOf(s), page[..k - 1], maxAttempts, worlds).0.Raised? {
        s' := s1;
      } else {
        NextOfPage(s.consumers, t, page, k);
        assert s1.consumers[t] == Handling(page[k - 1], page[k..]);
        s' := ProcessIsARun(s1, t, maxAttempts, worlds(k - 1));
        ReachesTransitive(s, s1, s');
      }
    }
  }

  /** A poll by an idle consumer. */
  lemma PollIsARun(s: State, t: nat, name: string, maxAttempts: int, world: World) returns (s': State)
    requires Reachable(s) && t !in s.consumers
    ensures Reaches(s, s') && SiteOf(s') == ProcessNext(SiteOf(s), name, maxAttempts, world).1
    ensures s'.consumers == s.consumers
  {
    ReachableInv(s);
    AfterGroup(s);
    var s1 := DoGroup(s);
    AfterRead(s1, t, name);
    var s2 := DoRead(s1, t, name);
    ReachesTransitive(s, s1, s2);
    var (entry, broker) := XReadGroup(XGroupCreate(s.broker), name);
    if entry.Some? {
      Overwritten(s.consumers, t, Handling(entry.value, []), Handling(entry.value, []));
      s' := ProcessIsARun(s2, t, maxAttempts, world);
      ReachesTransitive(s, s2, s');
    } else {
      s' := s2;
    }
  }

  /** A reclaim by an idle consumer. */
  lemma ReclaimIsARun(s: State, t: nat, name: string, page: seq<nat>, maxAttempts: int, worlds: nat -> World)
      returns (s': State)
    requires Reachable(s) && t !in s.consumers && ClaimPage(XGroupCreate(s.broker), page)
    ensures forall i :: 0 <= i < |page| ==> page[i] < |s.broker.stream|
    ensures Reaches(s, s')
    ensures SiteOf(s') == Reclaim(SiteOf(s), name, page, maxAttempts, worlds).1
    ensures s'.consumers == s.consumers
  {
    ReachableInv(s);
    AfterGroup(s);
    var s1 := DoGroup(s);
    assert s1.broker.stream == s.broker.stream;
    if page == [] {
      s' := s1;
      assert XAutoClaim(s1.broker, name, page).pel == s1.broker.pel;
    } else {
      AfterClaim(s1, t, name, page);
      var s2 := DoClaim(s1, t, name, page);
      ReachesTransitive(s, s1, s2);
      s' := HandleAllIsARun(s2, t, page, |page|, maxAttempts, worlds);
      ReachesTransitive(s, s2, s');
      assert page[..|page|] == page;
      Overwritten(s.consumers, t, Handling(page[0], page[1..]), Handling(page[0], page[1..]));
    }
  }

  /** Polls and reclaims in turn by one idle consumer. */
  lemma {:induction false} AlternationIsARun(
      s: State, t: nat, name: string, maxAttempts: int, cycles: seq<Cycle>, end: Site) returns (s': State)
    requires Reachable(s) && t !in s.consumers
    requires Alternation(SiteOf(s), name, maxAttempts, cycles, end)
    ensures Reaches(s, s') && SiteOf(s') == end
    decreases |cycles|
  {
    if cycles == [] {
      s' := s;
      ReachesItself(s);
    } else {
      var s1 := PollIsARun(s, t, name, maxAttempts, cycles[0].world);
      ReachesTransitive(INIT, s, s1);
      var s2 := ReclaimIsARun(s1, t, name, cycles[0].page, maxAttempts, cycles[0].worlds);
      ReachesTransitive(INIT, s1, s2);
      s' := AlternationIsARun(s2, t, name, maxAttempts, cycles[1..], end);
      ReachesTransitive(s, s1, s2);
      ReachesTransitive(s, s2, s');
    }
  }

  lemma ReachableSiteOk(s: State)
    requires Reachable(s)
    ensures BrokerOk(SiteOf(s).broker) && RowsKeyed(SiteOf(s))
  {
    ReachableInv(s);
    forall id | id in s.jobs ensures s.jobs[id].id == id { assert JobOk(s, id); }
  }

  /** From every reachable state, whatever others left behind: if one idle consumer polls and
      reclaims in turn, as often as there is backlog, and services answer, then every entry ends
      acknowledged and every enqueued job SUCCESS or NEEDS_HUMAN_REVIEW, whichever pages the
      claims hand over. */
  lemma RecoveryCompletes(s: State, t: nat, name: string, maxAttempts: int, cycles: seq<Cycle>, end: Site)
      returns (s': State)
    requires Reachable(s) && t !in s.consumers
    requires Alternation(SiteOf(s), name, maxAttempts, cycles, end) && |cycles| >= Backlog(s.broker)
    ensures Reaches(s, s') && SiteOf(s') == end
    ensures s'.broker.stream == s.broker.stream
    ensures forall e: nat :: e < |s'.broker.stream| ==>
              e in s'.broker.acked && s'.broker.stream[e] in s'.jobs && Terminal(s'.jobs[s'.broker.stream[e]].status)
  {
    ReachableSiteOk(s);
    Drains(SiteOf(s), name, maxAttempts, cycles, end);
    s' := AlternationIsARun(s, t, name, maxAttempts, cycles, end);
    ReachesTransitive(INIT, s, s');
    forall e: nat | e < |s'.broker.stream|
      ensures e in s'.broker.acked && s'.broker.stream[e] in s'.jobs && Terminal(s'.jobs[s'.broker.stream[e]].status)
    {
      EveryEntryInOnePlace(s', e);
    }
  }

  /** So recovery can complete from every reachable state in which some consumer is idle. */
  lemma RecoveryCanComplete(s: State, t: nat, name: string, maxAttempts: int, world: World) returns (s': State)
    requires Reachable(s) && t !in s.consumers && Finishing(world, maxAttempts)
    ensures Reaches(s, s')
    ensures forall e: nat :: e < |s'.broker.stream| ==>
              e in s'.broker.acked && s'.broker.stream[e] in s'.jobs && Terminal(s'.jobs[s'.broker.stream[e]].status)
    ensures s'.broker.stream == s.broker.stream
  {
    ReachableSiteOk(s);
    BacklogNonNegative(s.broker);
    var cycles, end := AlternationsExist(SiteOf(s), name, maxAttempts, world, Backlog(s.broker));
    s' := RecoveryCompletes(s, t, name, maxAttempts, cycles, end);
  }

  lemma {:induction false} SilentRejects(job: Job, n: nat)
    ensures Rejections(WorkerBacked(SilentWorld()), job, n).Some?
  {
    if n > 0 { SilentRejects(job, n - 1); }
  }

  /** Services that always answer exist: even a proposer without proposals lets runs end. */
  lemma SilentWorldFinishes(maxAttempts: int)
    ensures Finishing(SilentWorld(), maxAttempts)
  {
    forall job: Job ensures Run(WorkerBacked(SilentWorld()), Start(job, maxAttempts)).node.End? {
      SilentRejects(job, Max(1, maxAttempts));
      ExhaustedRun(WorkerBacked(SilentWorld()), job, maxAttempts);
    }
  }

  /** Every service call answers: no matter what is proposed or found. */
  ghost predicate Answers(world: World) {
    && world.screenshot.Returned?
    && (forall call, shot, schema, history :: world.propose(call, shot, schema, history).Returned?)
    && (forall call :: world.pages(call).Returned?)
    && (forall i :: !world.saveRaises(i))
    && world.storage.NoFault?
  }

  /** No attempt breaks off when services answer. */
  lemma NoAttemptBreaks(world: World, job: Job, k: nat, history: seq<Rejection>)
    requires Answers(world)
    ensures !Try(WorkerBacked(world), job, k, history).Breaks?
  {
    var schema := FromKeys(job.requiredFields);
    assert world.propose(k, world.screenshot.value, schema, history).Returned?;
    assert world.pages(k).Returned?;
  }

  /** Services that answer let every run end, whatever they answer. */
  lemma AnsweringWorldFinishes(world: World, maxAttempts: int)
    requires Answers(world)
    ensures Finishing(world, maxAttempts)
  {
    var sv := WorkerBacked(world);
    var bound := Max(1, maxAttempts);
    forall job: Job ensures Run(sv, Start(job, maxAttempts)).node.End? {
      SearchDecides(sv, job, bound);
      if Rejections(sv, job, bound).Some? {
        ExhaustedRun(sv, job, maxAttempts);
      } else {
        var k :| 1 <= k <= bound && Decides(sv, job, k);
        NoAttemptBreaks(world, job, k, Rejections(sv, job, k - 1).value);
        AcceptedRun(sv, job, maxAttempts, k);
      }
    }
  }

  lemma RequestReachesCreated(s: State, job: Job)
    requires Inv(s) && job.id !in s.gateways
    requires job == Job.Create(job.id, job.url, job.domain, job.requiredFields)
    ensures
      var s1 := s.(gateways := s.gateways[job.id := Created(job)]);
      Reaches(s, s1) && Inv(s1)
  {
    AfterStart(s, job.id, job.url, job.domain, job.requiredFields);
  }

  /** A request up to its first save. */
  lemma RequestReachesSaved(s: State, job: Job)
    requires Inv(s) && job.id !in s.gateways
    requires job == Job.Create(job.id, job.url, job.domain, job.requiredFields)
    ensures
      var s2 := s.(jobs := s.jobs[job.id := job], gateways := s.gateways[job.id := Saved(job)]);
      Reaches(s, s2) && Inv(s2)
  {
    RequestReachesCreated(s, job);
    var s1 := s.(gateways := s.gateways[job.id := Created(job)]);
    FirstSaveEffect(Columns, s1, job.id);
    AfterFirstSave(s1, job.id);
    Overwritten(s.gateways, job.id, Created(job), Saved(job));
    var s2 := s.(jobs := s.jobs[job.id := job], gateways := s.gateways[job.id := Saved(job)]);
    assert DoFirstSave(Columns, s1, job.id) == s2;
    ReachesTransitive(s, s1, s2);
  }

  /** The rest of a request up to its second save. */
  lemma SavedReachesResaved(s: State, id: string, next: Job, call: WorkerCall) returns (s': State)
    requires Inv(s) && Runs(s, id) && s.gateways[id].Saved?
    requires
      var job := s.gateways[id].job;
      ApplyExtractionResult(job, Extract(WireOf(job.requiredFields, call))) == Returned(next)
    ensures Reaches(s, s') && Inv(s')
    ensures s' == s.(jobs := s.jobs[id := next], gateways := s'.gateways)
    ensures id in s'.gateways && s'.gateways[id] == Resaved(next)
  {
    AfterCall(s, id, call);
    var s1 := DoCall(s, id, call);
    SecondSaveEffect(Columns, s1, id);
    AfterSecondSave(s1, id);
    s' := DoSecondSave(Columns, s1, id);
    ReachesTransitive(s, s1, s');
  }

  lemma RequestReachesResaved(s: State, job: Job, next: Job, call: WorkerCall) returns (s': State)
    requires Inv(s) && job.id !in s.gateways
    requires job == Job.Create(job.id, job.url, job.domain, job.requiredFields)
    requires ApplyExtractionResult(job, Extract(WireOf(job.requiredFields, call))) == Returned(next)
    ensures Reaches(s, s') && Inv(s')
    ensures s' == s.(jobs := s.jobs[job.id := next], gateways := s'.gateways)
    ensures job.id in s'.gateways && s'.gateways[job.id] == Resaved(next)
  {
    RequestReachesSaved(s, job);
    var s1 := s.(jobs := s.jobs[job.id := job], gateways := s.gateways[job.id := Saved(job)]);
    s' := SavedReachesResaved(s1, job.id, next, call);
    ReachesTransitive(s, s1, s');
    Overwritten(s.jobs, job.id, job, next);
  }

  /** A request that fails is a request that stops. */
  lemma FailedRequestReaches(s: State, s1: State, id: string) returns (s': State)
    requires Reaches(s, s1) && Inv(s1) && id in s1.gateways && s1.consumers == s.consumers
    ensures Reaches(s, s') && s' == s1.(crashed := s1.crashed + {id})
  {
    AfterCrashGateway(s1, id);
    s' := DoCrashGateway(s1, id);
    ReachesTransitive(s, s1, s');
  }

  /** What a request of the protocol does to a reachable state's site. */
  lemma RequestOnSite(s: State, job: Job, call: WorkerCall, fault: RequestFault) returns (next: Job)
    requires Inv(s) && job.id !in s.gateways
    requires job == Job.Create(job.id, job.url, job.domain, job.requiredFields)
    ensures ApplyExtractionResult(job, Extract(WireOf(job.requiredFields, call))) == Returned(next) && next.id == job.id
    ensures
      var jobs := s.jobs[job.id := next];
      Request(SiteOf(s), job, WireOf(job.requiredFields, call), fault) ==
      match fault
      case FirstSaveRaises => (Raised, SiteOf(s))
      case SecondSaveRaises => (Raised, Site(s.jobs[job.id := job], s.broker))
      case _ =>
        if !next.status.RecoveryPending? then (Returned(next), Site(jobs, s.broker))
        else if fault.EnqueueRaises? then (Raised, Site(jobs, s.broker))
        else (Returned(next), Site(jobs, XAdd(s.broker, job.id)))
  {
    KnownIdsHaveRequests(s);
    WorkerReplyDecidesJob(job, call);
    next := ApplyExtractionResult(job, Extract(WireOf(job.requiredFields, call))).value;
    TwoSaves(s.jobs, job, next);
  }

  /** A request that stops before its first save, or right after it. */
  lemma EarlyFaultReaches(s: State, job: Job, saved: bool) returns (s': State)
    requires Inv(s) && job.id !in s.gateways
    requires job == Job.Create(job.id, job.url, job.domain, job.requiredFields)
    ensures Reaches(s, s') && s'.consumers == s.consumers && job.id in s'.crashed
    ensures SiteOf(s') == Site(if saved then s.jobs[job.id := job] else s.jobs, s.broker)
  {
    if saved {
      RequestReachesSaved(s, job);
      s' := FailedRequestReaches(s, s.(jobs := s.jobs[job.id := job], gateways := s.gateways[job.id := Saved(job)]),
          job.id);
    } else {
      RequestReachesCreated(s, job);
      s' := FailedRequestReaches(s, s.(gateways := s.gateways[job.id := Created(job)]), job.id);
    }
  }

  /** A request at whose reply the gateway raises stops after its first save. */
  lemma BrokenReplyIsARun(s: State, job: Job, wire: Wire, fault: RequestFault) returns (s': State)
    requires Reachable(s) && job.id !in s.gateways
    requires job == Job.Create(job.id, job.url, job.domain, job.requiredFields)
    requires Decide(job, wire).Raised?
    ensures Reaches(s, s') && s'.consumers == s.consumers && job.id in s'.crashed
    ensures Request(SiteOf(s), job, wire, fault) == (Raised, SiteOf(s'))
  {
    ReachableInv(s);
    KnownIdsHaveRequests(s);
    s' := EarlyFaultReaches(s, job, !fault.FirstSaveRaises?);
  }

  /** The replies the model knows: what a worker that applies the shared rule may answer, or
      anything at which the gateway raises. */
  ghost predicate Expected(job: Job, wire: Wire) {
    || (exists call :: wire == WireOf(job.requiredFields, call))
    || Decide(job, wire).Raised?
  }

  lemma AnsweredRequestIsARun(s: State, job: Job, call: WorkerCall, fault: RequestFault) returns (s': State)
    requires Reachable(s) && job.id !in s.gateways
    requires job == Job.Create(job.id, job.url, job.domain, job.requiredFields)
    ensures Reaches(s, s') && s'.consumers == s.consumers
    ensures
      var (r, site') := Request(SiteOf(s), job, WireOf(job.requiredFields, call), fault);
      && SiteOf(s') == site'
      && (r.Raised? <==> job.id in s'.crashed)
      && (r.Raised? && fault.EnqueueRaises? ==> Stranded(s', job.id))
      && (fault.NoTrouble? ==> r.Returned?)
  {
    ReachableInv(s);
    var next := RequestOnSite(s, job, call, fault);
    if fault.FirstSaveRaises? || fault.SecondSaveRaises? {
      s' := EarlyFaultReaches(s, job, fault.SecondSaveRaises?);
    } else {
      var s1 := RequestReachesResaved(s, job, next, call);
      if next.status.RecoveryPending? && fault.EnqueueRaises? {
        s' := FailedRequestReaches(s, s1, job.id);
      } else {
        AfterEnqueue(s1, job.id);
        s' := DoEnqueue(s1, job.id);
        ReachesTransitive(s, s1, s');
      }
    }
  }

  /** A gateway request, whether or not one of its calls or the worker's reply makes it raise,
      does what the use case says; a request whose enqueue raises leaves its job stranded, and
      without a fault only a reply at which the gateway raises stops it. */
  lemma RequestIsARun(s: State, job: Job, wire: Wire, fault: RequestFault) returns (s': State)
    requires Reachable(s) && job.id !in s.gateways
    requires job == Job.Create(job.id, job.url, job.domain, job.requiredFields)
    requires Expected(job, wire)
    ensures Reaches(s, s') && s'.consumers == s.consumers
    ensures
      var (r, site') := Request(SiteOf(s), job, wire, fault);
      && SiteOf(s') == site'
      && (r.Raised? <==> job.id in s'.crashed)
      && (r.Raised? && fault.EnqueueRaises? && Decide(job, wire).Returned? ==> Stranded(s', job.id))
      && (fault.NoTrouble? ==> (r.Raised? <==> Decide(job, wire).Raised?))
  {
    if Decide(job, wire).Raised? {
      s' := BrokenReplyIsARun(s, job, wire, fault);
    } else {
      var call :| wire == WireOf(job.requiredFields, call);
      s' := AnsweredRequestIsARun(s, job, call, fault);
    }
  }
}
