/** The batch consumers of both chains: which rows a batch becomes and how they are persisted. */
module BatchHandler {
  import opened Wrappers
  import opened Chain
  import opened Database
  import opened Seqs
  import opened Synchronizer
  import Retry

  const MAX_ATTEMPTS: nat := 10

  function HasLog(b: Batch): Header -> bool {
    (h: Header) => h.Hash() in b.headersWithLog
  }

  function RowsOf(policy: Policy, b: Batch): seq<Header> {
    match policy
    case LoggedOnly => Filter(b.headers, HasLog(b))
    case EveryHeader => b.headers
  }

  function EventOf(b: Batch, l: Log): Event {
    ContractEventFromLog(l, if l.blockHash in b.headerMap then b.headerMap[l.blockHash].time else 0)
  }

  function EventsOf(b: Batch): (es: seq<Event>)
    ensures |es| == |b.logs|
  {
    seq(|b.logs|, i requires 0 <= i < |b.logs| => EventOf(b, b.logs[i]))
  }

  /** The retried transaction: attempts in turn until the first one that reports success. */
  function RunAttempts(policy: Policy, s: Store, rows: seq<Header>, events: seq<Event>, fates: seq<Fate>): (Store, bool)
    decreases |fates|
  {
    if fates == [] then (s, false)
    else
      var (s', ok) := TryStore(policy, s, rows, events, fates[0]);
      if ok then (s', true) else RunAttempts(policy, s', rows, events, fates[1..])
  }

  /** The tables after the first i attempts, none of which was the last. */
  function StoreAfter(policy: Policy, s: Store, rows: seq<Header>, events: seq<Event>, fates: seq<Fate>, i: nat): Store
    requires i <= |fates|
  {
    if i == 0 then s
      else TryStore(policy, StoreAfter(policy, s, rows, events, fates, i - 1), rows, events, fates[i - 1]).0
  }

  /** What the retried operation returns on its i-th run. */
  function Operation(policy: Policy, s: Store, rows: seq<Header>, events: seq<Event>,
                     fates: seq<Fate>): nat -> Result<Store> {
    (i: nat) =>
      if i < |fates| && TryStore(policy, StoreAfter(policy, s, rows, events, fates, i), rows, events, fates[i]).1
      then Success(StoreAfter(policy, s, rows, events, fates, i + 1)) else Failure
  }

  lemma {:induction false} StoreAfterCons(policy: Policy, s: Store, rows: seq<Header>, events: seq<Event>,
                                          fates: seq<Fate>, i: nat)
    requires i < |fates|
    ensures StoreAfter(policy, s, rows, events, fates, i + 1) ==
            StoreAfter(policy, TryStore(policy, s, rows, events, fates[0]).0, rows, events, fates[1..], i)
  {
    hide TryStore;
    if i == 0 {
    } else {
      StoreAfterCons(policy, s, rows, events, fates, i - 1);
      assert fates[1..][i - 1] == fates[i];
    }
  }

  /** The attempts are the runs of the general retry loop: up to the first success, or all of them. */
  lemma {:induction false} AttemptsAreRetries(policy: Policy, s: Store, rows: seq<Header>, events: seq<Event>,
                                              fates: seq<Fate>, n: nat)
    requires n <= |fates| && Retry.FailedUpTo(Operation(policy, s, rows, events, fates), _ => false, n)
    requires n == |fates| || Operation(policy, s, rows, events, fates)(n).Success?
    ensures RunAttempts(policy, s, rows, events, fates) ==
            if n < |fates| then (StoreAfter(policy, s, rows, events, fates, n + 1), true)
              else (StoreAfter(policy, s, rows, events, fates, n), false)
    decreases |fates|
  {
    hide TryStore;
    if fates == [] {
    } else {
      var (s', ok) := TryStore(policy, s, rows, events, fates[0]);
      assert StoreAfter(policy, s, rows, events, fates, 0) == s && StoreAfter(policy, s, rows, events, fates, 1) == s';
      assert ok <==> Operation(policy, s, rows, events, fates)(0).Success?;
      if n > 0 {
        forall k: nat | k < |fates| - 1
          ensures Operation(policy, s', rows, events, fates[1..])(k).Success? <==>
                  Operation(policy, s, rows, events, fates)(k + 1).Success?
        {
          StoreAfterCons(policy, s, rows, events, fates, k);
        }
        AttemptsAreRetries(policy, s', rows, events, fates[1..], n - 1);
        StoreAfterCons(policy, s, rows, events, fates, n - 1);
        if n < |fates| {
          StoreAfterCons(policy, s, rows, events, fates, n);
        }
      }
    }
  }

  /** The fates of the attempts that the attempt limit and the life of the context allow. */
  method Persist(db: Database, rows: seq<Header>, events: seq<Event>, fates: seq<Fate>) returns (ok: bool)
    modifies db
    ensures (db.View(), ok) == RunAttempts(db.policy, old(db.View()), rows, events, fates)
  {
    var i := 0;
    while i < |fates|
      invariant 0 <= i <= |fates|
      invariant RunAttempts(db.policy, db.View(), rows, events, fates[i..]) ==
                RunAttempts(db.policy, old(db.View()), rows, events, fates)
    {
      assert fates[i..][1..] == fates[i + 1..];
      ok := db.StoreBatch(rows, events, fates[i]);
      if ok {
        return true;
      }
      i := i + 1;
    }
    return false;
  }

  method HandleL1Batch(db: Database, batch: Batch, fates: seq<Fate>) returns (ok: bool)
    requires db.policy.LoggedOnly? && Closed(batch) && |fates| <= MAX_ATTEMPTS
    modifies db
    ensures RowsOf(LoggedOnly, batch) == [] ==> ok && db.View() == old(db.View())
    ensures RowsOf(LoggedOnly, batch) != [] ==>
              (db.View(), ok) ==
                RunAttempts(db.policy, old(db.View()), RowsOf(LoggedOnly, batch), EventsOf(batch), fates)
  {
    var l1BlockHeaders: seq<Header> := [];
    for i := 0 to |batch.headers|
      invariant l1BlockHeaders == Filter(batch.headers[..i], HasLog(batch))
    {
      assert batch.headers[..i + 1][..i] == batch.headers[..i];
      if batch.headers[i].Hash() in batch.headersWithLog {
        l1BlockHeaders := l1BlockHeaders + [batch.headers[i]];
      }
    }
    assert batch.headers[..|batch.headers|] == batch.headers;
    if |l1BlockHeaders| == 0 {
      return true;
    }
    var l1ContractEvents := CollectEvents(batch);
    ok := Persist(db, l1BlockHeaders, l1ContractEvents, fates);
  }

  /** `fetched` is false when a transaction query fails, which gives up before any write. */
  method HandleL2Batch(db: Database, batch: Batch, fetched: bool, fates: seq<Fate>) returns (ok: bool)
    requires db.policy.EveryHeader? && Closed(batch) && |fates| <= MAX_ATTEMPTS
    modifies db
    ensures !fetched ==> !ok && db.View() == old(db.View())
    ensures fetched ==>
              (db.View(), ok) ==
                RunAttempts(db.policy, old(db.View()), batch.headers, EventsOf(batch), fates)
  {
    var l2BlockHeaders: seq<Header> := [];
    for i := 0 to |batch.headers|
      invariant l2BlockHeaders == batch.headers[..i]
    {
      l2BlockHeaders := l2BlockHeaders + [batch.headers[i]];
    }
    assert l2BlockHeaders == batch.headers;
    if !fetched {
      return false;
    }
    var l2ContractEvents := CollectEvents(batch);
    ok := Persist(db, l2BlockHeaders, l2ContractEvents, fates);
  }

  method CollectEvents(batch: Batch) returns (events: seq<Event>)
    requires Closed(batch)
    ensures events == EventsOf(batch)
  {
    events := [];
    for i := 0 to |batch.logs|
      invariant events == EventsOf(batch)[..i]
    {
      assert batch.logs[i] in batch.logs;
      var timestamp := batch.headerMap[batch.logs[i].blockHash].time;
      events := events + [ContractEventFromLog(batch.logs[i], timestamp)];
    }
  }

  /**
    Referential integrity against any provider: the rows of a closed L1 batch are exactly its
    headers named by some log, there are rows exactly when there are logs, and every event's
    block is one of the rows and carries that block's timestamp.
   */
  lemma ClosedBatchRows(b: Batch)
    requires Closed(b)
    ensures forall h :: h in RowsOf(LoggedOnly, b) <==>
              h in b.headers && exists l :: l in b.logs && l.blockHash == h.Hash()
    ensures RowsOf(LoggedOnly, b) == [] <==> b.logs == []
    ensures forall e :: e in EventsOf(b) ==>
              && e.log.blockHash.HeaderHash?
              && e.log.blockHash.header in RowsOf(LoggedOnly, b)
              && e.timestamp == e.log.blockHash.header.time
              && e.signature == if e.log.topics == [] then 0 else e.log.topics[0]
  {
    var rows := RowsOf(LoggedOnly, b);
    forall h: Header
      ensures h in rows <==> h in b.headers && h.Hash() in b.headersWithLog
    {
      FilterMember(b.headers, HasLog(b), h);
    }
    forall l | l in b.logs
      ensures b.headerMap[l.blockHash].Hash() == l.blockHash && b.headerMap[l.blockHash] in rows
    {
    }
    if b.logs != [] {
      assert b.headerMap[b.logs[0].blockHash] in rows;
    }
    if rows != [] {
      assert rows[0] in rows;
    }
    forall e | e in EventsOf(b)
      ensures e.log in b.logs && e.timestamp == b.headerMap[e.log.blockHash].time
    {
      var i :| 0 <= i < |b.logs| && EventsOf(b)[i] == e;
      assert b.logs[i] in b.logs;
    }
  }

  lemma RowsAscending(policy: Policy, b: Batch)
    requires forall i, j :: 0 <= i < j < |b.headers| ==> b.headers[i].number < b.headers[j].number
    ensures var r := RowsOf(policy, b); forall i, j :: 0 <= i < j < |r| ==> r[i].number < r[j].number
    ensures forall h :: h in RowsOf(policy, b) ==> h in b.headers
  {
    if policy.LoggedOnly? {
      assert RowsOf(policy, b) == Filter(b.headers, HasLog(b));
      FilterAscending(b.headers, HasLog(b));
      forall h | h in RowsOf(policy, b)
        ensures h in b.headers
      {
        FilterMember(b.headers, HasLog(b), h);
      }
    } else {
      assert RowsOf(policy, b) == b.headers;
    }
  }

  /**
    So no constraint rejects a closed batch of new headers that clash with nothing and carry
    timestamps where they are checked.
   */
  lemma ClosedBatchAdmissible(policy: Policy, s: Store, b: Batch)
    requires Closed(b)
    requires forall i, j :: 0 <= i < j < |b.headers| ==> b.headers[i].number < b.headers[j].number
    requires forall h, h' :: h in b.headers && h' in b.headers + s.headers && h.number != h'.number ==>
               !Clash(policy, h, h')
    requires forall h, h' :: h in b.headers && h' in s.headers ==> h'.number < h.number
    requires forall h :: h in b.headers && HasLog(b)(h) ==> h.time > 0
    ensures Admissible(policy, s, RowsOf(policy, b), EventsOf(b))
  {
    var rows := RowsOf(policy, b);
    RowsAscending(policy, b);
    EventsHaveRows(policy, b);
    hide Closed, Clash, RowsOf, EventsOf, HasLog;
    forall i | 0 <= i < |rows|
      ensures rows[i] in b.headers && (policy.LoggedOnly? ==> HasLog(b)(rows[i]))
    {
      RowMember(policy, b, rows[i]);
    }
  }

  lemma EventsHaveRows(policy: Policy, b: Batch)
    requires Closed(b) && forall h :: h in b.headers && HasLog(b)(h) ==> h.time > 0
    ensures forall e :: e in EventsOf(b) ==>
              && e.log.blockHash.HeaderHash? && e.log.blockHash.header in RowsOf(policy, b) && e.timestamp > 0
  {
    ClosedBatchRows(b);
    hide Closed, RowsOf, EventsOf;
    forall e | e in EventsOf(b)
      ensures e.log.blockHash.HeaderHash? && e.log.blockHash.header in RowsOf(policy, b) && e.timestamp > 0
    {
      RowMember(policy, b, e.log.blockHash.header);
      RowMember(LoggedOnly, b, e.log.blockHash.header);
    }
  }

  lemma RowMember(policy: Policy, b: Batch, h: Header)
    ensures h in RowsOf(policy, b) <==> h in b.headers && (policy.LoggedOnly? ==> HasLog(b)(h))
  {
    FilterMember(b.headers, HasLog(b), h);
  }

  lemma {:induction false} FilterAscending(hs: seq<Header>, p: Header -> bool)
    requires forall i, j :: 0 <= i < j < |hs| ==> hs[i].number < hs[j].number
    ensures var r := Filter(hs, p); forall i, j :: 0 <= i < j < |r| ==> r[i].number < r[j].number
  {
    if hs == [] {
    } else {
      var front := hs[..|hs| - 1];
      FilterAscending(front, p);
      forall i | 0 <= i < |Filter(front, p)|
        ensures Filter(front, p)[i].number < hs[|hs| - 1].number
      {
        FilterMember(front, p, Filter(front, p)[i]);
      }
    }
  }
}
