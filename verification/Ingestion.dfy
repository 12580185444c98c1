/**
  The whole ingestion pipeline as a transition system: ticks, hand-overs, persist attempts,
  crashes and restarts in any order, on one fixed confirmed chain.
 */
module Ingestion {
  import opened Wrappers
  import opened BigInt
  import opened Chain
  import opened EthClient
  import HT = HeaderTraversal
  import opened Database
  import opened Seqs
  import opened Synchronizer
  import opened BatchHandler

  datatype Config = Config(policy: Policy, startHeight: nat, depth: int, bufferSize: nat) {
    predicate Valid() {
      bufferSize < TWO_64
    }

    /** The first height that is ever traversed: a configured start header counts as traversed. */
    function First(): nat {
      if startHeight > 0 then startHeight + 1 else 0
    }
  }

  /** Stopped is the consumer after its first failed batch; nothing receives from the channel then. */
  datatype Consumer = Idle | Handling(batch: Batch, tried: nat) | Stopped

  /** One life of the process. `origin` and `emitted` record where it started and what it sent. */
  datatype Process = Process(producer: Producer, consumer: Consumer, origin: nat, emitted: seq<Header>)

  datatype System = System(store: Store, process: Option<Process>)

  /** Giving up is a failed transaction query of the L2 consumer or an ended context of either. */
  datatype Action =
    | Tick(p: Provider)
    | Receive
    | Attempt(fate: Fate)
    | GiveUp
    | Crash
    | Restart(p: Provider, readable: bool)

  /** The header a starting process resumes from, or the failure that keeps it from starting. */
  function ResumeHeader(cfg: Config, store: Store, p: Provider): Result<Option<Header>> {
    var latest := LatestHeader(store.headers);
    if latest.Some? then Success(latest)
    else if cfg.startHeight > 0 then
      match p.single(cfg.startHeight) case Success(h) => Success(Some(h)) case Failure => Failure
    else Success(None)
  }

  /** NewL1Sync and NewL2Sync; `readable` is false when the query for the latest header fails. */
  method NewSync(cfg: Config, db: Database, p: Provider, readable: bool) returns (r: Result<Synchronizer>)
    requires cfg.Valid()
    ensures r.Failure? <==> !readable || ResumeHeader(cfg, db.View(), p).Failure?
    ensures readable && db.headers != [] ==>
              && r.Success? && r.value.View().cursor.last.Some?
              && r.value.View().cursor.last.value in db.headers
              && forall h :: h in db.headers ==> h.number <= r.value.View().cursor.last.value.number
    ensures readable && db.headers == [] && cfg.startHeight > 0 ==>
              && (r.Success? <==> p.single(cfg.startHeight).Success?)
              && (r.Success? ==> r.value.View().cursor.last == Some(p.single(cfg.startHeight).value))
    ensures readable && db.headers == [] && cfg.startHeight == 0 ==> r.Success? && r.value.View().cursor.last == None
    ensures r.Success? ==>
              && fresh(r.value) && r.value.Valid() && r.value.headerBufferSize == cfg.bufferSize
              && r.value.headerTraversal.blockConfirmationDepth == cfg.depth
              && r.value.View() == Producer(HT.Cursor(None, ResumeHeader(cfg, db.View(), p).value), [], None)
  {
    if !readable {
      return Failure;
    }
    var fromHeader: Option<Header> := None;
    var latestHeader := LatestHeader(db.headers);
    if latestHeader.Some? {
      fromHeader := latestHeader;
    } else if cfg.startHeight > 0 {
      var header := p.single(cfg.startHeight);
      if header.Failure? {
        return Failure;
      }
      fromHeader := Some(header.value);
    }
    var traversal := new HT.HeaderTraversal(fromHeader, cfg.depth);
    var syncer := new Synchronizer(traversal, cfg.bufferSize);
    return Success(syncer);
  }

  function StepProcess(cfg: Config, store: Store, q: Process, a: Action): (Store, Process)
    requires cfg.Valid()
  {
    match a
    case Tick(p) =>
      if q.producer.sending.Some? then (store, q)
      else (store, q.(producer := TickResult(q.producer, cfg.depth, cfg.bufferSize, p)))
    case Receive =>
      if q.producer.sending.None? || !q.consumer.Idle? then (store, q)
      else
        var b := q.producer.sending.value;
        (store, q.(producer := q.producer.(headers := [], sending := None),
                   consumer := if RowsOf(cfg.policy, b) == [] then Idle else Handling(b, 0),
                   emitted := q.emitted + b.headers))
    case Attempt(fate) =>
      if !q.consumer.Handling? then (store, q)
      else
        var b := q.consumer.batch;
        var (store', ok) := TryStore(cfg.policy, store, RowsOf(cfg.policy, b), EventsOf(b), fate);
        (store', q.(consumer := if ok then Idle
                                else if q.consumer.tried + 1 < MAX_ATTEMPTS then Handling(b, q.consumer.tried + 1)
                                else Stopped))
    case GiveUp =>
      if q.consumer.Handling? then (store, q.(consumer := Stopped)) else (store, q)
    case _ => (store, q)
  }

  /** An action that is not enabled changes nothing. */
  function Step(cfg: Config, s: System, a: Action): System
    requires cfg.Valid()
  {
    match s.process
    case None =>
      if a.Restart? && a.readable then
        match ResumeHeader(cfg, s.store, a.p)
        case Failure => s
        case Success(from) =>
          var cursor := HT.Cursor(None, from);
          var next := cursor.NextHeight();
          s.(process := Some(Process(Producer(cursor, [], None), Idle, if next < 0 then 0 else next, [])))
      else s
    case Some(q) =>
      if a.Crash? then s.(process := None)
      else
        var (store, q') := StepProcess(cfg, s.store, q, a);
        System(store, Some(q'))
  }

  function Run(cfg: Config, s: System, actions: seq<Action>): System
    requires cfg.Valid()
  {
    if actions == [] then s else Step(cfg, Run(cfg, s, actions[..|actions| - 1]), actions[|actions| - 1])
  }

  const INIT := System(Store([], []), None)

  ghost predicate HonestAction(c: Chain, a: Action) {
    (a.Tick? || a.Restart?) ==> Honest(c, a.p)
  }

  // ---------------------------------------------------------------------------------------
  // What the tables hold for a range of heights
  // ---------------------------------------------------------------------------------------

  /** The header rows of heights [a, b). */
  function RowsIn(policy: Policy, c: Chain, a: nat, b: nat): seq<Header> {
    if b <= a then []
    else RowsIn(policy, c, a, b - 1) + if policy.EveryHeader? || c.logs(b - 1) != [] then [c.header(b - 1)] else []
  }

  function LogsIn(events: seq<Event>): (ls: seq<Log>)
    ensures |ls| == |events|
  {
    seq(|events|, i requires 0 <= i < |events| => events[i].log)
  }

  /** The height after the last stored one. */
  function Frontier(first: nat, store: Store): int {
    if store.headers == [] then first else store.headers[|store.headers| - 1].number + 1
  }

  /** The tables hold exactly the rows and the logs of heights [first, f), each once. */
  ghost predicate Holds(policy: Policy, c: Chain, first: nat, f: nat, store: Store) {
    && first <= f
    && store.headers == RowsIn(policy, c, first, f)
    && multiset(LogsIn(store.events)) == multiset(LogsOf(c, first, f))
    && (forall e :: e in store.events ==>
          e.log.blockHash.HeaderHash? && e.timestamp == e.log.blockHash.header.time)
  }

  ghost predicate StoreOk(cfg: Config, c: Chain, store: Store) {
    var f := Frontier(cfg.First(), store);
    0 <= f && Holds(cfg.policy, c, cfg.First(), f, store)
  }

  /** No height of [a, b) has a row. */
  ghost predicate Quiet(policy: Policy, c: Chain, a: int, b: int) {
    0 <= a <= b && RowsIn(policy, c, a, b) == []
  }

  ghost predicate BatchFor(c: Chain, b: Batch, a: nat, e: nat) {
    && a < e
    && b.headers == HeadersOf(c, a, e)
    && multiset(b.logs) == multiset(LogsOf(c, a, e))
    && Closed(b)
  }

  /** How far a process has got: everything below `e` was emitted, `e` up to the cursor is pending. */
  ghost predicate ProcessOk(cfg: Config, c: Chain, f: int, q: Process) {
    var n := q.producer.cursor.NextHeight();
    var e := n - |q.producer.headers|;
    && cfg.First() <= q.origin <= e
    && q.producer.headers == HeadersOf(c, e, n)
    && (q.producer.sending.Some? ==> BatchFor(c, q.producer.sending.value, e, n))
    && q.emitted == HeadersOf(c, q.origin, e)
    && match q.consumer
       case Idle => Quiet(cfg.policy, c, f, e)
       case Stopped => true
       case Handling(b, _) =>
         var a := e - |b.headers|;
         && q.origin <= a && BatchFor(c, b, a, e) && RowsOf(cfg.policy, b) != []
         && (Quiet(cfg.policy, c, f, a) || (a < f && Quiet(cfg.policy, c, f, e)))
  }

  ghost predicate Inv(cfg: Config, c: Chain, s: System) {
    && StoreOk(cfg, c, s.store)
    && (s.process.Some? ==> ProcessOk(cfg, c, Frontier(cfg.First(), s.store), s.process.value))
  }

  lemma {:induction false} RowsConcat(policy: Policy, c: Chain, a: nat, b: nat, d: nat)
    requires a <= b <= d
    ensures RowsIn(policy, c, a, d) == RowsIn(policy, c, a, b) + RowsIn(policy, c, b, d)
  {
    if d <= b {
    } else {
      RowsConcat(policy, c, a, b, d - 1);
    }
  }

  /** The rows are the chain's headers of ascending heights of the range. */
  lemma {:induction false} RowAt(policy: Policy, c: Chain, a: nat, b: nat, i: nat)
    requires c.Valid() && i < |RowsIn(policy, c, a, b)|
    ensures var h := RowsIn(policy, c, a, b)[i];
            a <= h.number < b && h == c.header(h.number) && (policy.LoggedOnly? ==> c.logs(h.number) != [])
  {
    if i < |RowsIn(policy, c, a, b - 1)| {
      RowAt(policy, c, a, b - 1, i);
    }
  }

  lemma {:induction false} RowsAscend(policy: Policy, c: Chain, a: nat, b: nat, i: nat, j: nat)
    requires c.Valid() && i < j < |RowsIn(policy, c, a, b)|
    ensures RowsIn(policy, c, a, b)[i].number < RowsIn(policy, c, a, b)[j].number
  {
    if j < |RowsIn(policy, c, a, b - 1)| {
      RowsAscend(policy, c, a, b - 1, i, j);
    } else {
      RowAt(policy, c, a, b - 1, i);
    }
  }

  /** After the last row of a range the range is quiet. */
  lemma {:induction false} QuietAfterLast(policy: Policy, c: Chain, a: nat, b: nat)
    requires c.Valid() && RowsIn(policy, c, a, b) != []
    ensures var rows := RowsIn(policy, c, a, b);
            var f := rows[|rows| - 1].number + 1;
            a < f <= b && RowsIn(policy, c, a, f) == rows && Quiet(policy, c, f, b)
  {
    if policy.EveryHeader? || c.logs(b - 1) != [] {
    } else {
      QuietAfterLast(policy, c, a, b - 1);
    }
  }

  lemma {:induction false} QuietHasNoLogs(policy: Policy, c: Chain, a: nat, b: nat)
    requires Quiet(policy, c, a, b)
    ensures LogsOf(c, a, b) == []
  {
    if b <= a {
    } else {
      QuietHasNoLogs(policy, c, a, b - 1);
    }
  }

  /** A batch of heights [a, e) becomes exactly the rows of [a, e). */
  lemma BatchRows(policy: Policy, c: Chain, b: Batch, a: nat, e: nat)
    requires c.Valid() && BatchFor(c, b, a, e)
    ensures RowsOf(policy, b) == RowsIn(policy, c, a, e)
  {
    forall k: nat | a <= k < e
      ensures c.header(k).Hash() in b.headersWithLog <==> c.logs(k) != []
    {
      if c.logs(k) != [] {
        LogMember(c, a, e, c.logs(k)[0]);
        assert c.logs(k)[0] in multiset(b.logs);
      }
      if c.header(k).Hash() in b.headersWithLog {
        var l :| l in b.logs && l.blockHash == c.header(k).Hash();
        assert l in multiset(LogsOf(c, a, e));
        LogMember(c, a, e, l);
        var h: nat :| a <= h < e && l in c.logs(h);
        assert c.header(h) == c.header(k);
      }
    }
    FilteredRows(policy, c, a, e, b);
  }

  lemma {:induction false} FilteredRows(policy: Policy, c: Chain, a: nat, e: nat, b: Batch)
    requires forall k: nat :: a <= k < e ==> (c.header(k).Hash() in b.headersWithLog <==> c.logs(k) != [])
    ensures RowsIn(policy, c, a, e) ==
            match policy
            case LoggedOnly => Filter(HeadersOf(c, a, e), HasLog(b))
            case EveryHeader => HeadersOf(c, a, e)
  {
    if e <= a {
    } else {
      FilteredRows(policy, c, a, e - 1, b);
      assert HeadersOf(c, a, e)[..|HeadersOf(c, a, e)| - 1] == HeadersOf(c, a, e - 1);
    }
  }

  // ---------------------------------------------------------------------------------------
  // Every action keeps the invariant
  // ---------------------------------------------------------------------------------------

  lemma HonestNext(c: Chain, cursor: HT.Cursor, depth: int, p: Provider, size: nat)
    requires c.Valid() && Honest(c, p) && size < TWO_64 && 0 <= cursor.NextHeight()
    ensures var (cursor', r) := HT.Next(cursor, depth, p, size);
            var n := cursor.NextHeight();
            && (r.Failure? || r.value == [] ==> cursor'.last == cursor.last)
            && (r.Success? ==> r.value == HeadersOf(c, n, n + |r.value|) && cursor'.NextHeight() == n + |r.value|)
  {
    var (_, r) := HT.Next(cursor, depth, p, size);
    var n := cursor.NextHeight();
    if r.Success? && r.value != [] {
      HonestRange(c, p, n, Clamped(n, p.latest.value.value.number - depth, size));
      HeaderAt(c, n, n + |r.value|, |r.value| - 1);
    }
  }

  lemma {:induction false} HonestBatch(c: Chain, p: Provider, a: nat, e: nat)
    requires c.Valid() && Honest(c, p) && a < e
    ensures var hs := HeadersOf(c, a, e);
            && hs[0].number == a && hs[|hs| - 1].number == e - 1
            && (Acceptable(hs, p.filter(a, e - 1)) ==> BatchFor(c, BatchOf(hs, p.filter(a, e - 1).value.logs), a, e))
  {
    HeaderAt(c, a, e, 0);
    HeaderAt(c, a, e, e - a - 1);
  }

  /** The headers a tick works on continue, or repeat, the pending run of heights. */
  lemma FetchedKeeps(cfg: Config, c: Chain, f: int, q: Process, p: Provider)
    requires cfg.Valid() && c.Valid() && Honest(c, p)
    requires ProcessOk(cfg, c, f, q) && q.producer.sending.None?
    ensures var (cursor, headers) := Fetched(q.producer, cfg.depth, cfg.bufferSize, p);
            var e := q.producer.cursor.NextHeight() - |q.producer.headers|;
            cursor.NextHeight() == e + |headers| && headers == HeadersOf(c, e, e + |headers|)
  {
    if q.producer.headers == [] {
      HonestNext(c, q.producer.cursor, cfg.depth, p, cfg.bufferSize);
    }
  }

  lemma TickKeeps(cfg: Config, c: Chain, f: int, q: Process, p: Provider)
    requires cfg.Valid() && c.Valid() && Honest(c, p)
    requires ProcessOk(cfg, c, f, q) && q.producer.sending.None?
    ensures ProcessOk(cfg, c, f, q.(producer := TickResult(q.producer, cfg.depth, cfg.bufferSize, p)))
  {
    hide BatchFor, Honest, HeadersOf, RowsIn;
    FetchedKeeps(cfg, c, f, q, p);
    var headers := Fetched(q.producer, cfg.depth, cfg.bufferSize, p).1;
    var e := q.producer.cursor.NextHeight() - |q.producer.headers|;
    if headers != [] {
      HonestBatch(c, p, e, e + |headers|);
    }
  }

  lemma ReceiveKeeps(cfg: Config, c: Chain, f: int, q: Process, store: Store)
    requires cfg.Valid() && c.Valid() && ProcessOk(cfg, c, f, q)
    ensures ProcessOk(cfg, c, f, StepProcess(cfg, store, q, Receive).1)
  {
    hide Closed, HeadersOf, RowsIn, RowsOf;
    if q.producer.sending.Some? && q.consumer.Idle? {
      var n := q.producer.cursor.NextHeight();
      var e := n - |q.producer.headers|;
      var b := q.producer.sending.value;
      BatchRows(cfg.policy, c, b, e, n);
      HeadersConcat(c, q.origin, e, n);
      RowsConcat(cfg.policy, c, f, e, n);
    }
  }

  /** The logs of a batch of heights [a, e) continue the stored logs, quiet heights apart. */
  lemma LogsExtend(policy: Policy, c: Chain, first: nat, f: nat, a: nat, f': nat, e: nat, stored: seq<Log>,
                   logs: seq<Log>)
    requires first <= f && Quiet(policy, c, f, a) && a <= f' && Quiet(policy, c, f', e)
    requires multiset(stored) == multiset(LogsOf(c, first, f)) && multiset(logs) == multiset(LogsOf(c, a, e))
    ensures multiset(stored + logs) == multiset(LogsOf(c, first, f'))
  {
    hide LogsOf;
    QuietHasNoLogs(policy, c, f, a);
    QuietHasNoLogs(policy, c, f', e);
    LogsConcat(c, first, f, a);
    LogsConcat(c, first, a, f');
    LogsConcat(c, a, f', e);
  }

  /** Appending the rows, logs and timestamps of the following heights extends what the tables hold. */
  lemma HoldsExtends(policy: Policy, c: Chain, first: nat, f: nat, a: nat, f': nat, e: nat, store: Store, b: Batch)
    requires Holds(policy, c, first, f, store) && BatchFor(c, b, a, e)
    requires Quiet(policy, c, f, a) && a <= f' && Quiet(policy, c, f', e)
    requires RowsOf(policy, b) == RowsIn(policy, c, a, f')
    ensures Holds(policy, c, first, f', Store(store.headers + RowsOf(policy, b), store.events + EventsOf(b)))
  {
    hide Closed, HeadersOf, RowsIn, RowsOf, LogsOf;
    RowsConcat(policy, c, first, f, a);
    RowsConcat(policy, c, first, a, f');
    LogsExtend(policy, c, first, f, a, f', e, LogsIn(store.events), b.logs);
    assert LogsIn(store.events + EventsOf(b)) == LogsIn(store.events) + b.logs;
    ClosedBatchRows(b);
  }

  /** A first commit moves the frontier past the batch's last row; nothing else is stored. */
  lemma CommitExtends(cfg: Config, c: Chain, store: Store, b: Batch, a: nat, e: nat)
    requires c.Valid() && StoreOk(cfg, c, store) && BatchFor(c, b, a, e) && RowsOf(cfg.policy, b) != []
    requires Quiet(cfg.policy, c, Frontier(cfg.First(), store), a)
    ensures var store' := Store(store.headers + RowsOf(cfg.policy, b), store.events + EventsOf(b));
            var f' := Frontier(cfg.First(), store');
            StoreOk(cfg, c, store') && a < f' && Quiet(cfg.policy, c, f', e)
  {
    hide Closed, HeadersOf, RowsIn, RowsOf, LogsOf, EventsOf, Holds;
    BatchRows(cfg.policy, c, b, a, e);
    QuietAfterLast(cfg.policy, c, a, e);
    var rows := RowsOf(cfg.policy, b);
    var f' := rows[|rows| - 1].number + 1;
    HoldsExtends(cfg.policy, c, cfg.First(), Frontier(cfg.First(), store), a, f', e, store, b);
  }

  /** After a commit whose acknowledgement was lost, every retry hits the unique height. */
  lemma RetryRejected(cfg: Config, c: Chain, store: Store, b: Batch, a: nat, e: nat, events: seq<Event>)
    requires c.Valid() && StoreOk(cfg, c, store) && BatchFor(c, b, a, e) && RowsOf(cfg.policy, b) != []
    requires cfg.First() <= a < Frontier(cfg.First(), store) && Quiet(cfg.policy, c, Frontier(cfg.First(), store), e)
    ensures !Admissible(cfg.policy, store, RowsOf(cfg.policy, b), events)
  {
    var first, f := cfg.First(), Frontier(cfg.First(), store);
    var rows := RowsOf(cfg.policy, b);
    BatchRows(cfg.policy, c, b, a, e);
    RowsConcat(cfg.policy, c, a, f, e);
    RowsConcat(cfg.policy, c, first, a, f);
    assert rows == RowsIn(cfg.policy, c, a, f);
    assert store.headers[|RowsIn(cfg.policy, c, first, a)|] == rows[0];
  }

  lemma AttemptKeeps(cfg: Config, c: Chain, store: Store, q: Process, fate: Fate)
    requires cfg.Valid() && c.Valid() && StoreOk(cfg, c, store)
    requires ProcessOk(cfg, c, Frontier(cfg.First(), store), q)
    ensures var (store', q') := StepProcess(cfg, store, q, Attempt(fate));
            StoreOk(cfg, c, store') && ProcessOk(cfg, c, Frontier(cfg.First(), store'), q')
  {
    hide Closed, HeadersOf, RowsIn, RowsOf, EventsOf, Admissible, StoreOk;
    if q.consumer.Handling? {
      var b := q.consumer.batch;
      var e := q.producer.cursor.NextHeight() - |q.producer.headers|;
      var a := e - |b.headers|;
      if Quiet(cfg.policy, c, Frontier(cfg.First(), store), a) {
        CommitExtends(cfg, c, store, b, a, e);
      } else {
        RetryRejected(cfg, c, store, b, a, e, EventsOf(b));
      }
    }
  }

  /** The table is ascending, so the highest stored header is the last row. */
  lemma LatestIsLast(cfg: Config, c: Chain, store: Store)
    requires c.Valid() && StoreOk(cfg, c, store) && store.headers != []
    ensures LatestHeader(store.headers) == Some(store.headers[|store.headers| - 1])
  {
    var f := Frontier(cfg.First(), store);
    var last := store.headers[|store.headers| - 1];
    var latest := LatestHeader(store.headers).value;
    var i :| 0 <= i < |store.headers| && store.headers[i] == latest;
    assert last in store.headers;
    if i < |store.headers| - 1 {
      RowsAscend(cfg.policy, c, cfg.First(), f, i, |store.headers| - 1);
    }
  }

  /** A process that has just started is consistent with any start at or after the frontier's quiet run. */
  lemma StartOk(cfg: Config, c: Chain, f: int, from: Option<Header>, origin: nat)
    requires cfg.First() <= f == origin == HT.Cursor(None, from).NextHeight()
    ensures ProcessOk(cfg, c, f, Process(Producer(HT.Cursor(None, from), [], None), Idle, origin, []))
  {
  }

  lemma RestartKeeps(cfg: Config, c: Chain, s: System, a: Action)
    requires cfg.Valid() && c.Valid() && Inv(cfg, c, s) && s.process.None? && HonestAction(c, a)
    ensures Inv(cfg, c, Step(cfg, s, a))
  {
    var f := Frontier(cfg.First(), s.store);
    if s.store.headers != [] {
      LatestIsLast(cfg, c, s.store);
    }
    hide LatestHeader, Holds;
    if a.Restart? && a.readable && ResumeHeader(cfg, s.store, a.p).Success? {
      StartOk(cfg, c, f, ResumeHeader(cfg, s.store, a.p).value, f);
    }
    hide ProcessOk;
  }

  lemma StepKeeps(cfg: Config, c: Chain, s: System, a: Action)
    requires cfg.Valid() && c.Valid() && Inv(cfg, c, s) && HonestAction(c, a)
    ensures Inv(cfg, c, Step(cfg, s, a))
  {
    hide StoreOk, TickResult, TryStore, RowsOf, EventsOf, Honest, ResumeHeader;
    if s.process.None? {
      RestartKeeps(cfg, c, s, a);
    } else {
      var q := s.process.value;
      match a {
        case Tick(p) =>
          if q.producer.sending.None? {
            TickKeeps(cfg, c, Frontier(cfg.First(), s.store), q, p);
          }
        case Receive => ReceiveKeeps(cfg, c, Frontier(cfg.First(), s.store), q, s.store);
        case Attempt(fate) => AttemptKeeps(cfg, c, s.store, q, fate);
        case _ =>
      }
    }
  }

  lemma {:induction false} RunKeeps(cfg: Config, c: Chain, s: System, actions: seq<Action>)
    requires cfg.Valid() && c.Valid() && Inv(cfg, c, s)
    requires forall a :: a in actions ==> HonestAction(c, a)
    ensures Inv(cfg, c, Run(cfg, s, actions))
  {
    if actions == [] {
    } else {
      RunKeeps(cfg, c, s, actions[..|actions| - 1]);
      StepKeeps(cfg, c, Run(cfg, s, actions[..|actions| - 1]), actions[|actions| - 1]);
    }
  }
}
