/** The guarantees of whole ingestion runs. */
module IngestionRuns {
  import opened Wrappers
  import opened BigInt
  import opened Chain
  import opened EthClient
  import HT = HeaderTraversal
  import opened Database
  import opened Synchronizer
  import opened BatchHandler
  import opened Ingestion

  /** The height after the last emitted one in this life of the process. */
  function EmittedUpTo(q: Process): int {
    q.producer.cursor.NextHeight() - |q.producer.headers|
  }

  /**
    Crash-safe exactly-once ingestion. Whatever sequence of ticks, partial or failed answers,
    failed or unacknowledged transactions, crashes and restarts has happened, the tables hold
    exactly the rows and the logs of every height from the start up to the last stored header,
    each once; and while no batch is being persisted they hold those of everything emitted.
   */
  lemma ExactlyOnce(cfg: Config, c: Chain, actions: seq<Action>)
    requires cfg.Valid() && c.Valid()
    requires forall a :: a in actions ==> HonestAction(c, a)
    ensures var s := Run(cfg, INIT, actions);
            var f := Frontier(cfg.First(), s.store);
            && 0 <= f && Holds(cfg.policy, c, cfg.First(), f, s.store)
            && (s.process.Some? && s.process.value.consumer.Idle? ==>
                  var e := EmittedUpTo(s.process.value);
                  f <= e && Holds(cfg.policy, c, cfg.First(), e, s.store))
  {
    RunKeeps(cfg, c, INIT, actions);
    var s := Run(cfg, INIT, actions);
    if s.process.Some? && s.process.value.consumer.Idle? {
      IdleHoldsEmitted(cfg, c, s);
    }
  }

  lemma IdleHoldsEmitted(cfg: Config, c: Chain, s: System)
    requires Inv(cfg, c, s) && s.process.Some? && s.process.value.consumer.Idle?
    ensures var e := EmittedUpTo(s.process.value);
            Frontier(cfg.First(), s.store) <= e && Holds(cfg.policy, c, cfg.First(), e, s.store)
  {
    hide LogsOf, RowsIn, HeadersOf, BatchFor;
    var f, e := Frontier(cfg.First(), s.store), EmittedUpTo(s.process.value);
    RowsConcat(cfg.policy, c, cfg.First(), f, e);
    QuietHasNoLogs(cfg.policy, c, f, e);
    LogsConcat(c, cfg.First(), f, e);
  }

  // ---------------------------------------------------------------------------------------
  // Traversal
  // ---------------------------------------------------------------------------------------

  /** The provider of the action, if it has one, answers height h with a header of number h. */
  ghost predicate NumberedAction(a: Action) {
    (a.Tick? || a.Restart?) ==> HT.Numbered(a.p)
  }

  /** Emitted and pending headers carry the consecutive heights from the life's start to its cursor. */
  ghost predicate Consecutive(cfg: Config, q: Process) {
    var all := q.emitted + q.producer.headers;
    && cfg.First() <= q.origin && q.origin + |all| == q.producer.cursor.NextHeight()
    && (forall i :: 0 <= i < |all| ==> all[i].number == q.origin + i)
  }

  ghost predicate NotBelow(first: nat, headers: seq<Header>) {
    forall h :: h in headers ==> first <= h.number
  }

  ghost predicate TraversalOk(cfg: Config, s: System) {
    && NotBelow(cfg.First(), s.store.headers)
    && (s.process.Some? ==>
          var q := s.process.value;
          && Consecutive(cfg, q)
          && (q.producer.sending.Some? ==> q.producer.sending.value.headers == q.producer.headers)
          && (q.consumer.Handling? ==> NotBelow(cfg.First(), q.consumer.batch.headers)))
  }

  lemma NumberedNext(c: HT.Cursor, depth: int, size: nat, p: Provider)
    requires size < TWO_64 && HT.Numbered(p)
    ensures var (c', r) := HT.Next(c, depth, p, size);
            && (r.Failure? || r.value == [] ==> c'.NextHeight() == c.NextHeight())
            && (r.Success? ==>
                  && c'.NextHeight() == c.NextHeight() + |r.value|
                  && forall i :: 0 <= i < |r.value| ==> r.value[i].number == c.NextHeight() + i)
  {
    var (_, r) := HT.Next(c, depth, p, size);
    if r.Success? && r.value != [] {
      var next := c.NextHeight();
      var end := Clamped(next, p.latest.value.value.number - depth, size);
      if next != end {
        AnswerIsCutPrefix(p, next, end);
        assert CutPrefix(p, next, Count64(next, end), r.value);
        assert forall i :: 0 <= i < |r.value| ==> p.elem(next + i) == Found(r.value[i]);
      }
    }
  }

  lemma TraversalTick(cfg: Config, q: Process, p: Provider)
    requires cfg.Valid() && HT.Numbered(p) && Consecutive(cfg, q)
    ensures Consecutive(cfg, q.(producer := TickResult(q.producer, cfg.depth, cfg.bufferSize, p)))
  {
    NumberedNext(q.producer.cursor, cfg.depth, cfg.bufferSize, p);
    hide HT.Next, Acceptable, BatchOf;
  }

  lemma TraversalReceive(cfg: Config, q: Process, store: Store)
    requires cfg.Valid() && Consecutive(cfg, q)
    requires q.producer.sending.Some? ==> q.producer.sending.value.headers == q.producer.headers
    ensures var q' := StepProcess(cfg, store, q, Receive).1;
            Consecutive(cfg, q') && (q.producer.sending.Some? ==> NotBelow(cfg.First(), q.producer.headers))
  {
    if q.producer.sending.Some? {
      forall h | h in q.producer.headers
        ensures cfg.First() <= h.number
      {
        var i :| 0 <= i < |q.producer.headers| && q.producer.headers[i] == h;
        assert (q.emitted + q.producer.headers)[|q.emitted| + i] == h;
      }
      assert q.emitted + q.producer.headers == q.emitted + q.producer.headers + [];
    }
    hide RowsOf;
  }

  lemma RowsNotBelow(policy: Policy, first: nat, b: Batch)
    requires NotBelow(first, b.headers)
    ensures NotBelow(first, RowsOf(policy, b))
  {
    forall h | h in RowsOf(policy, b)
      ensures h in b.headers
    {
      RowMember(policy, b, h);
    }
  }

  lemma TraversalStep(cfg: Config, s: System, a: Action)
    requires cfg.Valid() && TraversalOk(cfg, s) && NumberedAction(a)
    ensures TraversalOk(cfg, Step(cfg, s, a))
  {
    hide HT.Numbered, TickResult, RowsOf, EventsOf, Consecutive, LatestHeader, Admissible;
    if s.process.None? {
      TraversalRestart(cfg, s, a);
    } else {
      var q := s.process.value;
      match a {
        case Tick(p) =>
          if q.producer.sending.None? {
            TraversalTick(cfg, q, p);
            SentIsPending(q.producer, cfg.depth, cfg.bufferSize, p);
          }
        case Receive => TraversalReceive(cfg, q, s.store);
        case Attempt(_) =>
          if q.consumer.Handling? {
            RowsNotBelow(cfg.policy, cfg.First(), q.consumer.batch);
          }
          SameTraversal(cfg, q, Idle);
          SameTraversal(cfg, q, Stopped);
          if q.consumer.Handling? {
            SameTraversal(cfg, q, Handling(q.consumer.batch, q.consumer.tried + 1));
          }
        case GiveUp => SameTraversal(cfg, q, Stopped);
        case _ =>
      }
    }
  }

  lemma SameTraversal(cfg: Config, q: Process, consumer: Consumer)
    ensures Consecutive(cfg, q) ==> Consecutive(cfg, q.(consumer := consumer))
  {
  }

  lemma SentIsPending(s: Producer, depth: int, size: nat, p: Provider)
    requires size < TWO_64
    ensures var s' := TickResult(s, depth, size, p);
            s'.sending.Some? ==> s'.sending.value.headers == s'.headers
  {
  }

  lemma TraversalRestart(cfg: Config, s: System, a: Action)
    requires cfg.Valid() && TraversalOk(cfg, s) && NumberedAction(a) && s.process.None?
    ensures TraversalOk(cfg, Step(cfg, s, a))
  {
    hide LatestHeader;
  }

  lemma {:induction false} TraversalRunKeeps(cfg: Config, actions: seq<Action>)
    requires cfg.Valid() && forall a :: a in actions ==> NumberedAction(a)
    ensures TraversalOk(cfg, Run(cfg, INIT, actions))
  {
    if actions == [] {
    } else {
      hide Step, TraversalOk, NumberedAction;
      TraversalRunKeeps(cfg, actions[..|actions| - 1]);
      TraversalStep(cfg, Run(cfg, INIT, actions[..|actions| - 1]), actions[|actions| - 1]);
    }
  }

  /**
    The traversal invariant. Against any providers that number their answers, whatever else they
    answer, what a life has emitted followed by what is pending is the run of consecutive heights
    from its start to its cursor, without gap, repeat or reordering.
   */
  lemma TraversalRun(cfg: Config, actions: seq<Action>)
    requires cfg.Valid() && forall a :: a in actions ==> NumberedAction(a)
    ensures var s := Run(cfg, INIT, actions);
            s.process.Some? ==>
              var q := s.process.value;
              var all := q.emitted + q.producer.headers;
              && cfg.First() <= q.origin && q.origin + |all| == q.producer.cursor.NextHeight()
              && forall i :: 0 <= i < |all| ==> all[i].number == q.origin + i
  {
    TraversalRunKeeps(cfg, actions);
  }

  /** On a fixed chain they are the chain's headers of these heights. */
  lemma TraversalOfChain(cfg: Config, c: Chain, actions: seq<Action>)
    requires cfg.Valid() && c.Valid()
    requires forall a :: a in actions ==> HonestAction(c, a)
    ensures var s := Run(cfg, INIT, actions);
            s.process.Some? ==>
              var q := s.process.value;
              var all := q.emitted + q.producer.headers;
              && cfg.First() <= q.origin && q.origin + |all| == q.producer.cursor.NextHeight()
              && forall i :: 0 <= i < |all| ==> all[i] == c.header(q.origin + i) && all[i].number == q.origin + i
  {
    RunKeeps(cfg, c, INIT, actions);
    var s := Run(cfg, INIT, actions);
    if s.process.Some? {
      EmittedThenPending(cfg, c, Frontier(cfg.First(), s.store), s.process.value);
    }
  }

  lemma EmittedThenPending(cfg: Config, c: Chain, f: int, q: Process)
    requires c.Valid() && ProcessOk(cfg, c, f, q)
    ensures var all := q.emitted + q.producer.headers;
            && cfg.First() <= q.origin && q.origin + |all| == q.producer.cursor.NextHeight()
            && forall i :: 0 <= i < |all| ==> all[i] == c.header(q.origin + i) && all[i].number == q.origin + i
  {
    hide BatchFor, Quiet, HeadersOf;
    var all := q.emitted + q.producer.headers;
    var n := q.producer.cursor.NextHeight();
    HeadersConcat(c, q.origin, EmittedUpTo(q), n);
    assert all == HeadersOf(c, q.origin, n);
    forall i | 0 <= i < |all|
      ensures all[i] == c.header(q.origin + i)
    {
      HeaderAt(c, q.origin, n, i);
    }
  }

  // ---------------------------------------------------------------------------------------
  // Restarts
  // ---------------------------------------------------------------------------------------

  /**
    From every reachable stopped state whose tables can be read, a process starts right above the
    last stored height; with an empty table it starts above the configured start header if that
    can be fetched, or at genesis if none is configured.
   */
  lemma RestartResumes(cfg: Config, c: Chain, actions: seq<Action>, p: Provider)
    requires cfg.Valid() && c.Valid() && Honest(c, p)
    requires forall a :: a in actions ==> HonestAction(c, a)
    ensures var s := Run(cfg, INIT, actions);
            var headers := s.store.headers;
            var s' := Step(cfg, s, Restart(p, true));
            s.process.None? ==>
              && s'.store == s.store
              && (s'.process.Some? <==> headers != [] || cfg.startHeight == 0 || p.single(cfg.startHeight).Success?)
              && (s'.process.Some? ==>
                    var next := if headers != [] then headers[|headers| - 1].number + 1
                                else if cfg.startHeight > 0 then cfg.startHeight + 1 else 0;
                    && s'.process.value.producer.cursor.NextHeight() == s'.process.value.origin == next
                    && s'.process.value.producer.headers == [] && s'.process.value.producer.sending.None?
                    && s'.process.value.consumer == Idle && s'.process.value.emitted == [])
  {
    hide *;
    var s := Run(cfg, INIT, actions);
    ReachableInv(cfg, c, actions);
    if s.process.None? {
      RestartFrom(cfg, c, s, p);
    }
  }

  lemma ReachableInv(cfg: Config, c: Chain, actions: seq<Action>)
    requires cfg.Valid() && c.Valid()
    requires forall a :: a in actions ==> HonestAction(c, a)
    ensures Inv(cfg, c, Run(cfg, INIT, actions))
  {
    RunKeeps(cfg, c, INIT, actions);
  }

  lemma RestartFrom(cfg: Config, c: Chain, s: System, p: Provider)
    requires cfg.Valid() && c.Valid() && Honest(c, p) && Inv(cfg, c, s) && s.process.None?
    ensures var headers := s.store.headers;
            var s' := Step(cfg, s, Restart(p, true));
            && s'.store == s.store
            && (s'.process.Some? <==> headers != [] || cfg.startHeight == 0 || p.single(cfg.startHeight).Success?)
            && (s'.process.Some? ==>
                  var next := if headers != [] then headers[|headers| - 1].number + 1
                              else if cfg.startHeight > 0 then cfg.startHeight + 1 else 0;
                  && s'.process.value.producer.cursor.NextHeight() == s'.process.value.origin == next
                  && s'.process.value.producer.headers == [] && s'.process.value.producer.sending.None?
                  && s'.process.value.consumer == Idle && s'.process.value.emitted == [])
  {
    if s.store.headers != [] {
      LatestIsLast(cfg, c, s.store);
    }
    hide LatestHeader, Holds;
  }

  // ---------------------------------------------------------------------------------------
  // Arbitrary providers
  // ---------------------------------------------------------------------------------------

  /** Heights are unique and every event has its header stored and carries its timestamp and its log's first topic. */
  ghost predicate Integral(store: Store) {
    && (forall i, j :: 0 <= i < j < |store.headers| ==> store.headers[i].number != store.headers[j].number)
    && (forall e :: e in store.events ==>
          && e.log.blockHash.HeaderHash?
          && e.log.blockHash.header in store.headers
          && e.timestamp == e.log.blockHash.header.time
          && e.signature == if e.log.topics == [] then 0 else e.log.topics[0])
  }

  ghost predicate ClosedBatches(s: System) {
    s.process.Some? ==>
      && (s.process.value.producer.sending.Some? ==> Closed(s.process.value.producer.sending.value))
      && (s.process.value.consumer.Handling? ==> Closed(s.process.value.consumer.batch))
  }

  lemma TryStoreIntegral(s: Store, policy: Policy, b: Batch, fate: Fate)
    requires Integral(s) && Closed(b)
    ensures Integral(TryStore(policy, s, RowsOf(policy, b), EventsOf(b), fate).0)
  {
    ClosedBatchRows(b);
  }

  lemma StepIntegral(cfg: Config, s: System, a: Action)
    requires cfg.Valid() && Integral(s.store) && ClosedBatches(s)
    ensures var s' := Step(cfg, s, a); Integral(s'.store) && ClosedBatches(s')
  {
    hide Integral;
    if s.process.Some? {
      var q := s.process.value;
      if a.Tick? && q.producer.sending.None? {
        var (_, headers) := Fetched(q.producer, cfg.depth, cfg.bufferSize, a.p);
        if headers != [] {
          var answer := a.p.filter(headers[0].number, headers[|headers| - 1].number);
          if Acceptable(headers, answer) {
            BatchOfClosed(headers, answer.value.logs);
          }
        }
      } else if a.Attempt? && q.consumer.Handling? {
        TryStoreIntegral(s.store, cfg.policy, q.consumer.batch, a.fate);
      }
    }
  }

  /** Referential integrity holds in every run, even when the providers answer arbitrarily. */
  lemma {:induction false} IntegrityRun(cfg: Config, actions: seq<Action>)
    requires cfg.Valid()
    ensures var s := Run(cfg, INIT, actions); Integral(s.store) && ClosedBatches(s)
  {
    if actions == [] {
    } else {
      IntegrityRun(cfg, actions[..|actions| - 1]);
      StepIntegral(cfg, Run(cfg, INIT, actions[..|actions| - 1]), actions[|actions| - 1]);
    }
  }

  // ---------------------------------------------------------------------------------------
  // The consumer's retry loop is a run of attempts
  // ---------------------------------------------------------------------------------------

  lemma {:induction false} RunCons(cfg: Config, s: System, a: Action, rest: seq<Action>)
    requires cfg.Valid()
    ensures Run(cfg, s, [a] + rest) == Run(cfg, Step(cfg, s, a), rest)
  {
    if rest == [] {
      assert [a] + rest == [a];
      assert [a][..0] == [];
    } else {
      RunCons(cfg, s, a, rest[..|rest| - 1]);
      assert ([a] + rest)[..|rest|] == [a] + rest[..|rest| - 1];
    }
  }

  function Attempts(fates: seq<Fate>): (r: seq<Action>)
    ensures |r| == |fates|
  {
    if fates == [] then [] else [Attempt(fates[0])] + Attempts(fates[1..])
  }

  lemma {:induction false} AttemptsWhenDone(cfg: Config, s: System, fates: seq<Fate>)
    requires cfg.Valid() && s.process.Some? && !s.process.value.consumer.Handling?
    ensures Run(cfg, s, Attempts(fates) + [GiveUp]) == s
    decreases |fates|
  {
    if fates == [] {
      assert Attempts(fates) + [GiveUp] == [GiveUp] + [];
      RunCons(cfg, s, GiveUp, []);
    } else {
      assert Attempts(fates) + [GiveUp] == [Attempt(fates[0])] + (Attempts(fates[1..]) + [GiveUp]);
      RunCons(cfg, s, Attempt(fates[0]), Attempts(fates[1..]) + [GiveUp]);
      AttemptsWhenDone(cfg, s, fates[1..]);
    }
  }

  /** The consumer still has the batch after fewer than ten failed attempts and stops at the tenth. */
  lemma {:induction false} TenAttempts(cfg: Config, s: System, b: Batch, tried: nat, fates: seq<Fate>)
    requires cfg.Valid() && s.process.Some? && s.process.value.consumer == Handling(b, tried)
    requires tried < 10 && tried + |fates| <= 10 && forall fate :: fate in fates ==> fate == RollsBack
    ensures Run(cfg, s, Attempts(fates)) ==
            System(s.store, Some(s.process.value.(consumer :=
              if tried + |fates| < 10 then Handling(b, tried + |fates|) else Stopped)))
    decreases |fates|
  {
    if fates == [] {
    } else {
      hide Run, Step;
      assert fates[0] in fates && forall fate :: fate in fates[1..] ==> fate in fates;
      FailedAttempt(cfg, s, b, tried);
      RunCons(cfg, s, Attempt(RollsBack), Attempts(fates[1..]));
      if tried + 1 < 10 {
        TenAttempts(cfg, Step(cfg, s, Attempt(RollsBack)), b, tried + 1, fates[1..]);
      } else {
        RunNothing(cfg, Step(cfg, s, Attempt(RollsBack)));
      }
    }
  }

  lemma FailedAttempt(cfg: Config, s: System, b: Batch, tried: nat)
    requires cfg.Valid() && s.process.Some? && s.process.value.consumer == Handling(b, tried) && tried < 10
    ensures Step(cfg, s, Attempt(RollsBack)) ==
            System(s.store,
                   Some(s.process.value.(consumer := if tried + 1 < 10 then Handling(b, tried + 1) else Stopped)))
  {
    hide Admissible, RowsOf, EventsOf;
  }

  lemma RunNothing(cfg: Config, s: System)
    requires cfg.Valid()
    ensures Run(cfg, s, Attempts([])) == s
  {
  }

  /**
    Handling a batch with its bounded retry is the run of its attempts, cut short if the context
    ends; it stops the consumer iff none of them succeeds.
   */
  lemma {:induction false} AttemptsRun(cfg: Config, s: System, b: Batch, tried: nat, fates: seq<Fate>)
    requires cfg.Valid() && s.process.Some? && s.process.value.consumer == Handling(b, tried)
    requires tried + |fates| <= MAX_ATTEMPTS
    ensures var (store, ok) := RunAttempts(cfg.policy, s.store, RowsOf(cfg.policy, b), EventsOf(b), fates);
            Run(cfg, s, Attempts(fates) + [GiveUp]) ==
            System(store, Some(s.process.value.(consumer := if ok then Idle else Stopped)))
    decreases |fates|
  {
    if fates == [] {
      assert Attempts(fates) + [GiveUp] == [GiveUp] + [];
      RunCons(cfg, s, GiveUp, []);
    } else {
      var s' := Step(cfg, s, Attempt(fates[0]));
      assert Attempts(fates) + [GiveUp] == [Attempt(fates[0])] + (Attempts(fates[1..]) + [GiveUp]);
      RunCons(cfg, s, Attempt(fates[0]), Attempts(fates[1..]) + [GiveUp]);
      if s'.process.value.consumer.Handling? {
        AttemptsRun(cfg, s', b, tried + 1, fates[1..]);
      } else {
        AttemptsWhenDone(cfg, s', fates[1..]);
      }
    }
  }

  // ---------------------------------------------------------------------------------------
  // Progress
  // ---------------------------------------------------------------------------------------

  /** A provider that knows the chain up to its head and answers everything. */
  ghost predicate Complete(c: Chain, p: Provider, head: nat) {
    && p.latest == Success(Some(c.header(head)))
    && p.batchOk
    && (forall h: int :: h < 0 ==> p.single(h).Failure? && !p.elem(h).Found?)
    && (forall h: nat :: p.single(h) == Success(c.header(h)) && p.elem(h) == Found(c.header(h)))
    && (forall a: nat, b: nat :: p.filter(a, b) == Success(Logs(LogsOf(c, a, b + 1), c.header(b))))
  }

  /** Headers name their parents, and the first one names none. */
  ghost predicate LinkedChain(c: Chain) {
    c.header(0).parentHash.OtherHash? && forall h: nat :: c.header(h + 1).parentHash == c.header(h).Hash()
  }

  /** Blocks with logs have a timestamp, and L1 timestamps ascend. */
  ghost predicate TimedChain(policy: Policy, c: Chain) {
    && (forall h: nat :: c.logs(h) != [] ==> c.header(h).time > 0)
    && (policy.LoggedOnly? ==> forall a: nat, b: nat :: a < b ==> c.header(a).time < c.header(b).time)
  }

  lemma ParentsDiffer(c: Chain, a: nat, b: nat)
    requires c.Valid() && LinkedChain(c) && a < b
    ensures c.header(a).parentHash != c.header(b).parentHash
  {
    assert c.header((b - 1) + 1).parentHash == c.header(b - 1).Hash();
    if a > 0 {
      assert c.header((a - 1) + 1).parentHash == c.header(a - 1).Hash();
    }
  }

  /** Different blocks of a chain clash in no column. */
  lemma BlocksDiffer(policy: Policy, c: Chain, a: nat, b: nat)
    requires c.Valid() && LinkedChain(c) && TimedChain(policy, c) && a != b
    ensures !Clash(policy, c.header(a), c.header(b))
  {
    if a < b {
      ParentsDiffer(c, a, b);
    } else {
      ParentsDiffer(c, b, a);
    }
  }

  lemma CompleteRange(c: Chain, p: Provider, head: nat, start: nat, end: nat)
    requires c.Valid() && LinkedChain(c) && Complete(c, p, head) && start <= end && end - start < TWO_64 - 1
    ensures RangeAnswer(p, start, end) == Success(HeadersOf(c, start, end + 1))
  {
    var hs := HeadersOf(c, start, end + 1);
    forall i | 0 <= i < |hs|
      ensures hs[i] == c.header(start + i)
    {
      HeaderAt(c, start, end + 1, i);
    }
    if start == end {
      assert hs == [c.header(start)];
    } else {
      forall i | 0 < i < |hs|
        ensures hs[i].parentHash == hs[i - 1].Hash()
      {
        assert hs[i] == c.header((start + i - 1) + 1);
      }
      AnswerIsCutPrefix(p, start, end);
      assert CutPrefix(p, start, Count64(start, end), hs);
    }
  }

  lemma CompleteAcceptable(c: Chain, p: Provider, head: nat, n: nat, end: nat)
    requires c.Valid() && Complete(c, p, head) && n <= end
    ensures var hs := HeadersOf(c, n, end + 1);
            && hs[0].number == n && hs[|hs| - 1].number == end
            && p.filter(n, end) == Success(Logs(LogsOf(c, n, end + 1), c.header(end)))
            && Acceptable(hs, p.filter(n, end))
  {
    HeaderAt(c, n, end + 1, 0);
    HeaderAt(c, n, end + 1, end - n);
    forall l | l in LogsOf(c, n, end + 1)
      ensures l.blockHash.HeaderHash? && l.blockHash.header in HeadersOf(c, n, end + 1)
    {
      LogMember(c, n, end + 1, l);
      HeaderAt(c, n, end + 1, l.blockHash.header.number - n);
    }
  }

  lemma CompleteNext(c: Chain, cursor: HT.Cursor, depth: int, size: nat, p: Provider, head: nat)
    requires 1 <= size <= TWO_63 && c.Valid() && LinkedChain(c) && Complete(c, p, head)
    requires 0 <= cursor.NextHeight() <= head - depth < TWO_64 - 1
    ensures var n := cursor.NextHeight();
            var hs := HeadersOf(c, n, WindowEnd(n, head - depth, size) + 1);
            HT.Next(cursor, depth, p, size) == (HT.Cursor(Some(c.header(head)), Some(hs[|hs| - 1])), Success(hs))
  {
    var n := cursor.NextHeight();
    ClampIsWindowEndIff(n, head - depth, size);
    CompleteRange(c, p, head, n, WindowEnd(n, head - depth, size));
  }

  lemma CompleteTick(cfg: Config, c: Chain, s: Producer, p: Provider, head: nat)
    requires cfg.Valid() && 1 <= cfg.bufferSize <= TWO_63 && c.Valid() && LinkedChain(c) && Complete(c, p, head)
    requires s.headers == [] && 0 <= s.cursor.NextHeight() <= head - cfg.depth < TWO_64 - 1
    ensures var n := s.cursor.NextHeight();
            var end := WindowEnd(n, head - cfg.depth, cfg.bufferSize);
            var s' := TickResult(s, cfg.depth, cfg.bufferSize, p);
            && s'.sending == Some(BatchOf(HeadersOf(c, n, end + 1), LogsOf(c, n, end + 1)))
            && s'.headers == HeadersOf(c, n, end + 1) && s'.cursor.NextHeight() == end + 1
  {
    hide HeadersOf, LogsOf, Complete, LinkedChain, Chain.Valid, HT.Next, Acceptable, BatchOf;
    var n := s.cursor.NextHeight();
    var end := WindowEnd(n, head - cfg.depth, cfg.bufferSize);
    CompleteNext(c, s.cursor, cfg.depth, cfg.bufferSize, p, head);
    CompleteAcceptable(c, p, head, n, end);
  }

  lemma CompleteHonest(c: Chain, p: Provider, head: nat)
    requires Complete(c, p, head)
    ensures Honest(c, p)
  {
  }

  /** Heights below the frontier are stored, so a new batch of later heights violates nothing. */
  lemma FreshBatchCommits(cfg: Config, c: Chain, store: Store, b: Batch, a: nat, e: nat)
    requires c.Valid() && LinkedChain(c) && TimedChain(cfg.policy, c)
    requires StoreOk(cfg, c, store) && BatchFor(c, b, a, e) && Frontier(cfg.First(), store) <= a
    ensures Admissible(cfg.policy, store, RowsOf(cfg.policy, b), EventsOf(b))
  {
    hide RowsIn, HeadersOf, Admissible, Closed, Clash, LinkedChain, TimedChain;
    forall i | 0 <= i < |b.headers|
      ensures b.headers[i] == c.header(a + i) && b.headers[i].number == a + i
    {
      HeaderAt(c, a, e, i);
    }
    forall h | h in b.headers
      ensures a <= h.number && h == c.header(h.number) && (HasLog(b)(h) ==> h.time > 0)
    {
      BatchTimed(cfg.policy, c, b, a, e, h);
    }
    forall h | h in store.headers
      ensures 0 <= h.number < a && h == c.header(h.number)
    {
      var j :| 0 <= j < |store.headers| && store.headers[j] == h;
      RowAt(cfg.policy, c, cfg.First(), Frontier(cfg.First(), store), j);
    }
    forall h, h' | h in b.headers && h' in b.headers + store.headers && h.number != h'.number
      ensures !Clash(cfg.policy, h, h')
    {
      BlocksDiffer(cfg.policy, c, h.number, h'.number);
    }
    ClosedBatchAdmissible(cfg.policy, store, b);
  }

  lemma BatchTimed(policy: Policy, c: Chain, b: Batch, a: nat, e: nat, h: Header)
    requires c.Valid() && TimedChain(policy, c) && BatchFor(c, b, a, e) && h in b.headers
    ensures a <= h.number && h == c.header(h.number) && (HasLog(b)(h) ==> h.time > 0)
  {
    hide HeadersOf, LogsOf;
    var i :| 0 <= i < |b.headers| && b.headers[i] == h;
    HeaderAt(c, a, e, i);
    if HasLog(b)(h) {
      var l :| l in b.logs && l.blockHash == h.Hash();
      assert l in multiset(LogsOf(c, a, e));
      LogMember(c, a, e, l);
      var k: nat :| a <= k < e && l in c.logs(k);
      assert c.header(k) == h;
    }
  }

  /**
    Progress. From any reachable state whose process is between batches, one tick against a
    complete provider, the hand-over and one successful transaction bring the tables exactly to
    the last height of the window, which the confirmation depth and the buffer size determine.
   */
  lemma RoundProgress(cfg: Config, c: Chain, s: System, p: Provider, head: nat)
    requires cfg.Valid() && 1 <= cfg.bufferSize <= TWO_63
    requires c.Valid() && LinkedChain(c) && TimedChain(cfg.policy, c) && Complete(c, p, head)
    requires Inv(cfg, c, s) && s.process.Some?
    requires var q := s.process.value;
             && q.consumer.Idle? && q.producer.headers == [] && q.producer.sending.None?
             && q.producer.cursor.NextHeight() <= head - cfg.depth < TWO_64 - 1
    ensures var n := s.process.value.producer.cursor.NextHeight();
            var end := WindowEnd(n, head - cfg.depth, cfg.bufferSize);
            var s' := Run(cfg, s, [Tick(p), Receive, Attempt(Commits)]);
            && n <= end
            && s'.process.Some? && s'.process.value.consumer.Idle? && s'.process.value.producer.headers == []
            && s'.process.value.producer.cursor.NextHeight() == end + 1
            && Holds(cfg.policy, c, cfg.First(), end + 1, s'.store)
  {
    hide Complete, LinkedChain, TimedChain, Holds, HeadersOf, LogsOf, RowsIn, RowsOf, EventsOf, Honest, BatchOf,
      TickResult;
    hide Chain.Valid, Admissible, Run, Closed;
    var q := s.process.value;
    var n := q.producer.cursor.NextHeight();
    var e := WindowEnd(n, head - cfg.depth, cfg.bufferSize) + 1;
    var f := Frontier(cfg.First(), s.store);
    CompleteHonest(c, p, head);
    CompleteTick(cfg, c, q.producer, p, head);
    TickKeeps(cfg, c, f, q, p);
    var b := TickResult(q.producer, cfg.depth, cfg.bufferSize, p).sending.value;
    FreshBatchCommits(cfg, c, s.store, b, n, e);
    RoundSteps(cfg, s, p, b);
    RunKeeps(cfg, c, s, [Tick(p), Receive, Attempt(Commits)]);
    IdleHoldsEmitted(cfg, c, Run(cfg, s, [Tick(p), Receive, Attempt(Commits)]));
  }

  lemma PendingTick(cfg: Config, c: Chain, s: Producer, p: Provider, head: nat, a: nat, e: nat)
    requires cfg.Valid() && c.Valid() && Complete(c, p, head) && a < e && s.headers == HeadersOf(c, a, e)
    ensures TickResult(s, cfg.depth, cfg.bufferSize, p) ==
            Producer(s.cursor, s.headers, Some(BatchOf(HeadersOf(c, a, e), LogsOf(c, a, e))))
  {
    hide HeadersOf, LogsOf, Complete, Chain.Valid, HT.Next, Acceptable, BatchOf;
    CompleteAcceptable(c, p, head, a, e - 1);
  }

  /**
    Headers left pending by failed log queries are not fetched again: one tick against a complete
    provider sends exactly them, and after the hand-over and a commit the tables hold everything
    up to the cursor, which has not moved.
   */
  lemma PendingProgress(cfg: Config, c: Chain, s: System, p: Provider, head: nat)
    requires cfg.Valid() && c.Valid() && LinkedChain(c) && TimedChain(cfg.policy, c) && Complete(c, p, head)
    requires Inv(cfg, c, s) && s.process.Some?
    requires var q := s.process.value;
             q.consumer.Idle? && q.producer.headers != [] && q.producer.sending.None?
    ensures var q := s.process.value;
            var s' := Run(cfg, s, [Tick(p), Receive, Attempt(Commits)]);
            && s'.process.Some? && s'.process.value.consumer.Idle? && s'.process.value.producer.headers == []
            && s'.process.value.emitted == q.emitted + q.producer.headers
            && s'.process.value.producer.cursor == q.producer.cursor
            && 0 <= q.producer.cursor.NextHeight()
            && Holds(cfg.policy, c, cfg.First(), q.producer.cursor.NextHeight(), s'.store)
  {
    hide Complete, LinkedChain, TimedChain, Holds, HeadersOf, LogsOf, RowsIn, RowsOf, EventsOf, Honest, BatchOf,
      TickResult;
    hide Chain.Valid, Admissible, Run, Closed;
    var q := s.process.value;
    var n := q.producer.cursor.NextHeight();
    var e := n - |q.producer.headers|;
    var f := Frontier(cfg.First(), s.store);
    CompleteHonest(c, p, head);
    PendingTick(cfg, c, q.producer, p, head, e, n);
    TickKeeps(cfg, c, f, q, p);
    var b := TickResult(q.producer, cfg.depth, cfg.bufferSize, p).sending.value;
    BatchIs(c, e, n);
    FreshBatchCommits(cfg, c, s.store, b, e, n);
    RoundSteps(cfg, s, p, b);
    RunKeeps(cfg, c, s, [Tick(p), Receive, Attempt(Commits)]);
    IdleHoldsEmitted(cfg, c, Run(cfg, s, [Tick(p), Receive, Attempt(Commits)]));
  }

  lemma BatchIs(c: Chain, a: nat, b: nat)
    ensures BatchOf(HeadersOf(c, a, b), LogsOf(c, a, b)).headers == HeadersOf(c, a, b)
  {
  }

  /** A sent batch that no constraint rejects is received and committed. */
  lemma RoundSteps(cfg: Config, s: System, p: Provider, b: Batch)
    requires cfg.Valid() && s.process.Some?
    requires s.process.value.consumer.Idle? && s.process.value.producer.sending.None?
    requires TickResult(s.process.value.producer, cfg.depth, cfg.bufferSize, p).sending == Some(b)
    requires Admissible(cfg.policy, s.store, RowsOf(cfg.policy, b), EventsOf(b))
    ensures var s' := Run(cfg, s, [Tick(p), Receive, Attempt(Commits)]);
            && s'.process.Some? && s'.process.value.consumer.Idle?
            && s'.process.value.emitted == s.process.value.emitted + b.headers
            && s'.process.value.producer ==
               TickResult(s.process.value.producer, cfg.depth, cfg.bufferSize, p).(headers := [], sending := None)
  {
    hide Admissible, RowsOf, EventsOf, TickResult;
    ThreeSteps(cfg, s, Tick(p), Receive, Attempt(Commits));
  }

  lemma ThreeSteps(cfg: Config, s: System, a1: Action, a2: Action, a3: Action)
    requires cfg.Valid()
    ensures Run(cfg, s, [a1, a2, a3]) == Step(cfg, Step(cfg, Step(cfg, s, a1), a2), a3)
  {
    hide Step;
    assert [a1, a2, a3][..2] == [a1, a2] && [a1, a2][..1] == [a1] && [a1][..0] == [];
    assert Run(cfg, s, [a1]) == Step(cfg, s, a1);
    assert Run(cfg, s, [a1, a2]) == Step(cfg, Step(cfg, s, a1), a2);
  }
}
