/** The Redis stream between the services, with its one consumer group, on values: the
    commands the services use and what they do to entries, cursor and pending list. */
module RecoveryStream {
  import opened Basics

  /** Entry `e` is `stream[e]`, a job id.  Entries from the cursor on are undelivered; `pel`
      is the pending entries list with owners; `acked` records what left it. */
  datatype Broker = Broker(stream: seq<string>, grouped: bool, cursor: nat, pel: map<nat, string>, acked: set<nat>)

  const NO_STREAM := Broker([], false, 0, map[], {})

  /** XAUTOCLAIM without COUNT looks at this many entries. */
  const CLAIM_COUNT := 100

  function XAdd(b: Broker, jobId: string): Broker {
    b.(stream := b.stream + [jobId])
  }

  /** XGROUP CREATE at id 0 with MKSTREAM; an existing group is left alone. */
  function XGroupCreate(b: Broker): Broker {
    if b.grouped then b else b.(grouped := true, cursor := 0)
  }

  /** XREADGROUP of one new entry. */
  function XReadGroup(b: Broker, consumer: string): (Option<nat>, Broker) {
    if b.grouped && b.cursor < |b.stream| then
      (Some(b.cursor), b.(cursor := b.cursor + 1, pel := b.pel[b.cursor := consumer]))
    else (None, b)
  }

  /** The entries one XAUTOCLAIM may hand over: pending ones, in order, at most a page. Which
      of them have been idle long enough is up to the clock. */
  ghost predicate ClaimPage(b: Broker, page: seq<nat>) {
    && b.grouped
    && |page| <= CLAIM_COUNT
    && (forall i :: 0 <= i < |page| ==> page[i] in b.pel)
    && (forall i, j :: 0 <= i < j < |page| ==> page[i] < page[j])
  }

  function XAutoClaim(b: Broker, consumer: string, page: seq<nat>): Broker {
    b.(pel := map e | e in b.pel :: if e in page then consumer else b.pel[e])
  }

  function XAck(b: Broker, entry: nat): Broker {
    if entry in b.pel then b.(pel := b.pel - {entry}, acked := b.acked + {entry}) else b
  }

  /** Every entry up to the cursor is either pending or acknowledged, later ones neither. */
  ghost predicate BrokerOk(b: Broker) {
    && b.cursor <= |b.stream|
    && (forall e :: e in b.pel ==> e < b.cursor)
    && (forall e :: e in b.acked ==> e < b.cursor)
    && (forall e :: 0 <= e < b.cursor ==> (e in b.pel <==> e !in b.acked))
    && (!b.grouped ==> b.cursor == 0)
  }

  /** What the commands keep. */
  lemma CommandsKeepBrokerOk(b: Broker, jobId: string, consumer: string, page: seq<nat>, entry: nat)
    requires BrokerOk(b)
    ensures BrokerOk(XAdd(b, jobId))
    ensures BrokerOk(XGroupCreate(b))
    ensures BrokerOk(XReadGroup(b, consumer).1)
    ensures BrokerOk(XAutoClaim(b, consumer, page))
    ensures BrokerOk(XAck(b, entry))
  {
  }
}
