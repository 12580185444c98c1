/** The guarantees of whole runs of ingestion and scanning together. */
module PipelineRuns {
  import opened Wrappers
  import opened Seqs
  import opened Chain
  import opened EthClient
  import HT = HeaderTraversal
  import opened Database
  import opened Synchronizer
  import opened Ingestion
  import opened IngestionRuns
  import opened EventProcessor
  import opened Pipeline

  function AtMost(p: int): Log -> bool {
    (l: Log) => l.blockHash.HeaderHash? && l.blockHash.header.number <= p
  }

  /**
    End-to-end exactly-once. Whatever the interleaving of ticks, failed and unacknowledged
    transactions of either side, passes, crashes and restarts, the acknowledged calls of a life
    have covered each height from its base to its position once, in order, split at the bedrock
    height. And each relevant log is stored once, up to some height at or above the position,
    exactly when no pass of the run commits over rows that an unacknowledged commit of the same
    life has left in its window; then the rows at or below the position are exactly the relevant
    logs of the chain after the configured start.
   */
  lemma ScannedExactlyOnce(cfg: Config, c: Chain, proc: Processor, actions: seq<PipeAction>)
    requires cfg.Valid() && c.Valid()
    requires forall a :: a in actions ==> HonestPipeAction(c, a)
    ensures var s := PipeRun(cfg, proc, PIPE_INIT, actions);
            && (Clean(cfg, c, proc, s) <==> NoRepeats(cfg, proc, actions))
            && (s.scan.On? ==>
                  && Reached(cfg, s.sys.store, s.scan.position)
                  && cfg.startHeight <= s.scan.base <= s.scan.position
                  && Covered(s.scan.calls) == Tiled(proc.bedrock, s.scan.base + 1, s.scan.position)
                  && (NoRepeats(cfg, proc, actions) ==>
                        multiset(Filter(s.rows, AtMost(s.scan.position))) ==
                        multiset(Filter(LogsOf(c, cfg.startHeight + 1, s.scan.position + 1), proc.relevant))))
  {
    hide *;
    PipeRunKeeps(cfg, c, proc, actions);
    CleanIff(cfg, c, proc, actions);
    ScannedState(cfg, c, proc, PipeRun(cfg, proc, PIPE_INIT, actions));
  }

  lemma CleanIff(cfg: Config, c: Chain, proc: Processor, actions: seq<PipeAction>)
    requires cfg.Valid() && c.Valid()
    requires forall a :: a in actions ==> HonestPipeAction(c, a)
    ensures Clean(cfg, c, proc, PipeRun(cfg, proc, PIPE_INIT, actions)) <==> NoRepeats(cfg, proc, actions)
  {
    hide *;
    CleanOrOverfull(cfg, c, proc, actions);
    if Overfull(c, PipeRun(cfg, proc, PIPE_INIT, actions).rows) {
      OverfullNotClean(cfg, c, proc, PipeRun(cfg, proc, PIPE_INIT, actions));
    }
  }

  lemma ScannedState(cfg: Config, c: Chain, proc: Processor, s: Pipe)
    requires c.Valid() && PipeInv(cfg, c, proc, s)
    ensures s.scan.On? ==>
              && Reached(cfg, s.sys.store, s.scan.position)
              && cfg.startHeight <= s.scan.base <= s.scan.position
              && Covered(s.scan.calls) == Tiled(proc.bedrock, s.scan.base + 1, s.scan.position)
              && (Clean(cfg, c, proc, s) ==>
                    multiset(Filter(s.rows, AtMost(s.scan.position))) ==
                    multiset(Filter(LogsOf(c, cfg.startHeight + 1, s.scan.position + 1), proc.relevant)))
  {
    hide Inv, RowsOk, Clean, LogsOf, Filter, Covered, Tiled, Reached;
    if Clean(cfg, c, proc, s) && s.scan.On? {
      CleanBelow(cfg, c, proc, s);
    }
  }

  lemma CleanBelow(cfg: Config, c: Chain, proc: Processor, s: Pipe)
    requires c.Valid() && Clean(cfg, c, proc, s) && s.scan.On? && cfg.startHeight <= s.scan.position
    ensures multiset(Filter(s.rows, AtMost(s.scan.position))) ==
            multiset(Filter(LogsOf(c, cfg.startHeight + 1, s.scan.position + 1), proc.relevant))
  {
    hide Exact, LogsOf, Filter;
    var d :| s.scan.position <= d && Exact(cfg, c, proc, s.rows, d);
    ExactBelow(cfg, c, proc, s.rows, d, s.scan.position);
  }

  /** The rows at or below a height of an exact table are exact up to it. */
  lemma ExactBelow(cfg: Config, c: Chain, proc: Processor, rows: seq<Log>, d: int, p: int)
    requires c.Valid() && Exact(cfg, c, proc, rows, d) && cfg.startHeight <= p <= d
    ensures multiset(Filter(rows, AtMost(p))) == multiset(Filter(LogsOf(c, cfg.startHeight + 1, p + 1), proc.relevant))
  {
    hide LogsOf, Filter, Chain.Valid;
    var low, high := LogsOf(c, cfg.startHeight + 1, p + 1), LogsOf(c, p + 1, d + 1);
    LogsConcat(c, cfg.startHeight + 1, p + 1, d + 1);
    FilterConcat(low, high, proc.relevant);
    FilterPermutation(rows, Filter(low, proc.relevant) + Filter(high, proc.relevant), AtMost(p));
    FilterConcat(Filter(low, proc.relevant), Filter(high, proc.relevant), AtMost(p));
    forall l: Log
      ensures l in Filter(low, proc.relevant) ==> AtMost(p)(l)
      ensures l in Filter(high, proc.relevant) ==> !AtMost(p)(l)
    {
      FilterMember(low, proc.relevant, l);
      FilterMember(high, proc.relevant, l);
      LogMember(c, cfg.startHeight + 1, p + 1, l);
      LogMember(c, p + 1, d + 1, l);
    }
    FilterAll(Filter(low, proc.relevant), AtMost(p));
    FilterNone(Filter(high, proc.relevant), AtMost(p));
  }

  // ---------------------------------------------------------------------------------------
  // Runs in which every pass that commits reports it
  // ---------------------------------------------------------------------------------------

  ghost predicate Acknowledged(actions: seq<PipeAction>) {
    forall a :: a in actions && a.Finish? ==> !a.fate.CommitsUnacknowledged?
  }

  lemma AcknowledgedStep(cfg: Config, c: Chain, proc: Processor, s: Pipe, a: PipeAction)
    requires cfg.Valid() && c.Valid() && PipeInv(cfg, c, proc, s)
    requires a.Finish? ==> !a.fate.CommitsUnacknowledged?
    requires s.scan.On? ==> forall l :: l in s.rows ==> AtMost(s.scan.position)(l)
    ensures var s' := PipeStep(cfg, proc, s, a);
            s'.scan.On? ==> forall l :: l in s'.rows ==> AtMost(s'.scan.position)(l)
  {
    hide Inv, Covered, Tiled, Reload, HandlerRows, LogsOf, Filter, Step, CallsFor, Chain.Valid, Numbers;
    if a.StartScan? {
      ReloadIsHighest(cfg, s.sys.store, s.rows);
    } else if a.Finish? && s.scan.On? && s.scan.pass.Some? {
      InsertedExact(cfg, c, proc, s);
      hide Inserted;
      forall l | l in Inserted(proc, s)
        ensures AtMost(s.scan.pass.value.1)(l)
      {
        InsertedPlaced(c, proc, Inserted(proc, s), s.scan.position, s.scan.pass.value.1, l);
      }
    }
  }

  lemma {:induction false} AcknowledgedNoRepeats(cfg: Config, c: Chain, proc: Processor, actions: seq<PipeAction>)
    requires cfg.Valid() && c.Valid() && Acknowledged(actions)
    requires forall a :: a in actions ==> HonestPipeAction(c, a)
    ensures NoRepeats(cfg, proc, actions)
    ensures var s := PipeRun(cfg, proc, PIPE_INIT, actions);
            s.scan.On? ==> forall l :: l in s.rows ==> AtMost(s.scan.position)(l)
  {
    if actions == [] {
    } else {
      hide PipeStep, PipeInv;
      var n := |actions| - 1;
      assert actions[n] in actions;
      AcknowledgedNoRepeats(cfg, c, proc, actions[..n]);
      PipeRunKeeps(cfg, c, proc, actions[..n]);
      NoRepeatsSnoc(cfg, proc, actions);
      AcknowledgedStep(cfg, c, proc, PipeRun(cfg, proc, PIPE_INIT, actions[..n]), actions[n]);
      hide NoRepeats;
    }
  }

  /**
    If no pass commits without reporting it, a live cursor's table is exactly the relevant logs up
    to its position, each once.
   */
  lemma AcknowledgedExactlyOnce(cfg: Config, c: Chain, proc: Processor, actions: seq<PipeAction>)
    requires cfg.Valid() && c.Valid() && Acknowledged(actions)
    requires forall a :: a in actions ==> HonestPipeAction(c, a)
    ensures var s := PipeRun(cfg, proc, PIPE_INIT, actions);
            s.scan.On? ==> Exact(cfg, c, proc, s.rows, s.scan.position)
  {
    var s := PipeRun(cfg, proc, PIPE_INIT, actions);
    PipeRunKeeps(cfg, c, proc, actions);
    AcknowledgedNoRepeats(cfg, c, proc, actions);
    CleanOrOverfull(cfg, c, proc, actions);
    hide PipeRun, NoRepeats, Inv, RowsOk, Covered, Tiled, Exact, Chain.Valid;
    if s.scan.On? {
      var d :| s.scan.position <= d && Exact(cfg, c, proc, s.rows, d);
      ExactDown(cfg, c, proc, s.rows, d, s.scan.position);
    }
  }

  // ---------------------------------------------------------------------------------------
  // Crashes and lost acknowledgements
  // ---------------------------------------------------------------------------------------

  /**
    Between crashes the table holds exactly the relevant logs up to the resume point, unless a pass
    has repeated rows.
   */
  lemma StoppedExactly(cfg: Config, c: Chain, proc: Processor, actions: seq<PipeAction>)
    requires cfg.Valid() && c.Valid()
    requires forall a :: a in actions ==> HonestPipeAction(c, a)
    ensures var s := PipeRun(cfg, proc, PIPE_INIT, actions);
            s.scan.Off? ==>
              (Exact(cfg, c, proc, s.rows, Reload(cfg.startHeight, s.sys.store, s.rows)) <==>
               NoRepeats(cfg, proc, actions))
  {
    var s := PipeRun(cfg, proc, PIPE_INIT, actions);
    PipeRunKeeps(cfg, c, proc, actions);
    CleanOrOverfull(cfg, c, proc, actions);
    hide PipeRun, NoRepeats, Inv, Exact, Reload, Overfull, Chain.Valid;
    if s.scan.Off? {
      if Clean(cfg, c, proc, s) {
        ReloadEachOnce(cfg, c, proc, s.rows, s.sys.store, cfg.startHeight);
      }
      if Exact(cfg, c, proc, s.rows, Reload(cfg.startHeight, s.sys.store, s.rows)) {
        ExactNotOverfull(cfg, c, proc, s.rows, Reload(cfg.startHeight, s.sys.store, s.rows));
      }
    }
  }

  lemma PipeRunSnoc(cfg: Config, proc: Processor, s: Pipe, actions: seq<PipeAction>, a: PipeAction)
    requires cfg.Valid()
    ensures PipeRun(cfg, proc, s, actions + [a]) == PipeStep(cfg, proc, PipeRun(cfg, proc, s, actions), a)
  {
    assert (actions + [a])[..|actions|] == actions;
  }

  /** A live cursor at `p` that rests, with headers up to `top` to scan. */
  ghost predicate ReadyToScan(cfg: Config, c: Chain, proc: Processor, s: Pipe, p: nat, top: int) {
    && PipeInv(cfg, c, proc, s) && s.scan.On? && s.scan.pass.None? && s.scan.position == p
    && ScopeTop(Numbers(s.sys.store.headers), p) == Some(top)
  }

  /** A pass that commits, whether or not it reports it. */
  lemma PassCommits(cfg: Config, c: Chain, proc: Processor, s: Pipe, fate: Fate, p: nat, top: int)
    requires cfg.Valid() && c.Valid() && ReadyToScan(cfg, c, proc, s, p, top) && !fate.RollsBack?
    ensures p < top
    ensures var s' := PipeRun(cfg, proc, s, [Begin, Finish(fate)]);
            && s' == PipeStep(cfg, proc, PipeStep(cfg, proc, s, Begin), Finish(fate))
            && s'.scan.On? && s'.scan.position == (if fate.Commits? then top else p)
            && (fate.CommitsUnacknowledged? ==> ReadyToScan(cfg, c, proc, s', p, top))
            && multiset(s'.rows) == multiset(s.rows) + multiset(Filter(LogsOf(c, p + 1, top + 1), proc.relevant))
  {
    hide LogsOf, Filter, Covered, Tiled, HandlerRows, CallsFor, Chain.Valid, Numbers, Inserted, Inv;
    var begun := PipeStep(cfg, proc, s, Begin);
    PipeRunSnoc(cfg, proc, s, [], Begin);
    PipeRunSnoc(cfg, proc, s, [Begin], Finish(fate));
    assert [] + [Begin] == [Begin] && [Begin] + [Finish(fate)] == [Begin, Finish(fate)];
    PipeStepKeeps(cfg, c, proc, s, Begin);
    PipeStepKeeps(cfg, c, proc, begun, Finish(fate));
    InsertedExact(cfg, c, proc, begun);
    hide PipeInv, PipeRun;
  }

  /**
    From any reachable state, a pass whose acknowledgement is lost and a committed pass after it
    over the same headers store every relevant log of the window twice.
   */
  lemma LostAcknowledgementRepeats(cfg: Config, c: Chain, proc: Processor, s: Pipe, p: nat, top: int)
    requires cfg.Valid() && c.Valid() && ReadyToScan(cfg, c, proc, s, p, top)
    ensures p < top
    ensures var window := Filter(LogsOf(c, p + 1, top + 1), proc.relevant);
            var lost := PipeRun(cfg, proc, s, [Begin, Finish(CommitsUnacknowledged)]);
            var again := PipeRun(cfg, proc, lost, [Begin, Finish(Commits)]);
            && again.scan.On? && again.scan.position == top
            && multiset(again.rows) == multiset(s.rows) + multiset(window) + multiset(window)
            && (window != [] ==> Overfull(c, again.rows) && !Clean(cfg, c, proc, again))
  {
    hide *;
    PassCommits(cfg, c, proc, s, CommitsUnacknowledged, p, top);
    var lost := PipeRun(cfg, proc, s, [Begin, Finish(CommitsUnacknowledged)]);
    PassCommits(cfg, c, proc, lost, Commits, p, top);
    var again := PipeRun(cfg, proc, lost, [Begin, Finish(Commits)]);
    if Filter(LogsOf(c, p + 1, top + 1), proc.relevant) != [] {
      TwiceIsOverfull(c, proc, s.rows, p + 1, top + 1, again.rows);
      OverfullNotClean(cfg, c, proc, again);
    }
  }

  lemma TwiceIsOverfull(c: Chain, proc: Processor, before: seq<Log>, a: nat, b: nat, rows: seq<Log>)
    requires c.Valid() && Filter(LogsOf(c, a, b), proc.relevant) != []
    requires var window := multiset(Filter(LogsOf(c, a, b), proc.relevant));
             multiset(rows) == multiset(before) + window + window
    ensures Overfull(c, rows)
  {
    hide LogsOf, Filter, Chain.Valid, Occurrences;
    var l := Filter(LogsOf(c, a, b), proc.relevant)[0];
    assert l in multiset(Filter(LogsOf(c, a, b), proc.relevant));
    FilterCount(LogsOf(c, a, b), proc.relevant, l);
    LogsCount(c, a, b, l);
    assert multiset(rows)[l] > Occurrences(c, l);
  }

  lemma OverfullNotClean(cfg: Config, c: Chain, proc: Processor, s: Pipe)
    requires c.Valid() && Overfull(c, s.rows)
    ensures !Clean(cfg, c, proc, s)
  {
    hide Exact, Overfull;
    if Clean(cfg, c, proc, s) {
      var d :| (if s.scan.On? then s.scan.position else cfg.startHeight) <= d && Exact(cfg, c, proc, s.rows, d);
      ExactNotOverfull(cfg, c, proc, s.rows, d);
    }
  }

  /** A crash right after such a pass recovers: the restart resumes above the rows it has stored. */
  lemma LostAcknowledgementThenCrash(cfg: Config, c: Chain, proc: Processor, s: Pipe, p: nat, top: int)
    requires cfg.Valid() && c.Valid() && ReadyToScan(cfg, c, proc, s, p, top)
    requires Clean(cfg, c, proc, s) && NoRowIn(s.rows, p, top)
    ensures var lost := PipeRun(cfg, proc, s, [Begin, Finish(CommitsUnacknowledged)]);
            var crashed := PipeStep(cfg, proc, lost, Ingest(Crash));
            && Clean(cfg, c, proc, crashed)
            && Exact(cfg, c, proc, crashed.rows, Reload(cfg.startHeight, crashed.sys.store, crashed.rows))
  {
    hide Inv, Exact, EachOnce, HandlerRows, CallsFor, Numbers, Reload, NoRowIn, Covered, Tiled, Chain.Valid, PipeRun;
    PassCommits(cfg, c, proc, s, CommitsUnacknowledged, p, top);
    var begun := PipeStep(cfg, proc, s, Begin);
    var lost := PipeStep(cfg, proc, begun, Finish(CommitsUnacknowledged));
    PipeStepKeeps(cfg, c, proc, s, Begin);
    CleanStep(cfg, c, proc, s, Begin);
    CleanStep(cfg, c, proc, begun, Finish(CommitsUnacknowledged));
    CleanStep(cfg, c, proc, lost, Ingest(Crash));
    PipeStepKeeps(cfg, c, proc, lost, Ingest(Crash));
    var crashed := PipeStep(cfg, proc, lost, Ingest(Crash));
    ReloadEachOnce(cfg, c, proc, crashed.rows, crashed.sys.store, cfg.startHeight);
  }

  /** The range guard of the event query never fails a pass that is under way. */
  lemma GuardNeverFires(cfg: Config, c: Chain, proc: Processor, actions: seq<PipeAction>)
    requires cfg.Valid() && c.Valid()
    requires forall a :: a in actions ==> HonestPipeAction(c, a)
    ensures var s := PipeRun(cfg, proc, PIPE_INIT, actions);
            s.scan.On? && s.scan.pass.Some? ==>
              var calls := CallsFor(proc.bedrock, s.scan.pass.value.0, s.scan.pass.value.1);
              && (forall call :: call in calls ==> call.from <= call.upTo)
              && HandlerRows(proc, s.sys.store, calls).Success?
  {
    PipeRunKeeps(cfg, c, proc, actions);
    var s := PipeRun(cfg, proc, PIPE_INIT, actions);
    if s.scan.On? && s.scan.pass.Some? {
      hide Inv, RowsOk, Covered, Tiled, HandlerRows, LogsOf, Inserted, PipeRun;
      CallsTile(proc.bedrock, s.scan.pass.value.0, s.scan.pass.value.1);
      InsertedExact(cfg, c, proc, s);
    }
  }

  lemma FirstBlock(c: Chain)
    ensures LogsOf(c, 0, 1) == c.logs(0)
  {
    assert LogsOf(c, 0, 0) == [];
  }

  /**
    Once a cursor reaches the last stored header, every stored header is scanned, except that
    with no configured start the logs of block 0 are stored and never scanned: both tables then
    agree exactly when block 0 has no relevant log.
   */
  lemma CaughtUpIff(cfg: Config, c: Chain, proc: Processor, s: Pipe)
    requires cfg.Valid() && c.Valid() && PipeInv(cfg, c, proc, s) && Clean(cfg, c, proc, s)
    requires s.scan.On? && s.sys.store.headers != []
    requires s.scan.position == Frontier(cfg.First(), s.sys.store) - 1
    ensures multiset(s.rows) == multiset(Filter(LogsIn(s.sys.store.events), proc.relevant)) <==>
            cfg.startHeight > 0 || Filter(c.logs(0), proc.relevant) == []
  {
    CaughtUpExact(cfg, c, proc, s);
    StoredRelevant(cfg, c, proc, s.sys);
    hide PipeInv, Clean, Filter, LogsOf, LogsIn, Chain.Valid;
    if cfg.startHeight == 0 {
      BlockZeroCounts(c, proc, Frontier(cfg.First(), s.sys.store));
    }
    hide Frontier;
  }

  lemma StoredRelevant(cfg: Config, c: Chain, proc: Processor, sys: System)
    requires Inv(cfg, c, sys)
    ensures cfg.First() <= Frontier(cfg.First(), sys.store)
    ensures multiset(Filter(LogsIn(sys.store.events), proc.relevant)) ==
            multiset(Filter(LogsOf(c, cfg.First(), Frontier(cfg.First(), sys.store)), proc.relevant))
  {
    hide Filter, LogsOf;
    InvStore(cfg, c, sys);
    FilterPermutation(LogsIn(sys.store.events), LogsOf(c, cfg.First(), Frontier(cfg.First(), sys.store)),
                      proc.relevant);
  }

  lemma BlockZeroCounts(c: Chain, proc: Processor, f: nat)
    requires f >= 1
    ensures multiset(Filter(LogsOf(c, 1, f), proc.relevant)) == multiset(Filter(LogsOf(c, 0, f), proc.relevant)) <==>
            Filter(c.logs(0), proc.relevant) == []
  {
    hide LogsOf, Filter;
    LogsConcat(c, 0, 1, f);
    FirstBlock(c);
    FilterConcat(c.logs(0), LogsOf(c, 1, f), proc.relevant);
    var zero, rest := Filter(c.logs(0), proc.relevant), Filter(LogsOf(c, 1, f), proc.relevant);
    assert multiset(zero + rest) == multiset(zero) + multiset(rest);
    assert |multiset(zero + rest)| == |zero| + |rest|;
  }

  lemma CaughtUpExact(cfg: Config, c: Chain, proc: Processor, s: Pipe)
    requires cfg.Valid() && c.Valid() && PipeInv(cfg, c, proc, s) && Clean(cfg, c, proc, s)
    requires s.scan.On? && s.scan.position == Frontier(cfg.First(), s.sys.store) - 1
    ensures Exact(cfg, c, proc, s.rows, s.scan.position)
  {
    hide Exact, Covered, Tiled, ProcessOk, Chain.Valid, Holds, Frontier;
    var d :| s.scan.position <= d && Exact(cfg, c, proc, s.rows, d);
    forall l | l in s.rows
      ensures l.blockHash.header.number <= s.scan.position
    {
      StoredBelowFrontier(cfg, c, s.sys.store, l.blockHash.header.number);
    }
    ExactDown(cfg, c, proc, s.rows, d, s.scan.position);
  }

  // ---------------------------------------------------------------------------------------
  // A run that stores a log twice
  // ---------------------------------------------------------------------------------------

  function Block(n: nat): Header {
    Header(n, if n == 0 then OtherHash(0) else Block(n - 1).Hash(), n + 1, 0)
  }

  function OnlyLog(): Log {
    Log(Block(1).Hash(), 0, 0, [])
  }

  /** A chain whose block 1 has the only log. */
  function OneLogChain(): Chain {
    Chain((h: nat) => Block(h), (h: nat) => if h == 1 then [OnlyLog()] else [])
  }

  function OneLogProvider(): Provider {
    Provider(Success(Some(Block(1))),
             (h: int) => if h < 0 then Failure else Success(Block(h)),
             true,
             (h: int) => if h < 0 then Missing else Found(Block(h)),
             (a: int, b: int) => if a < 0 || b < 0 then Failure
               else Success(Logs(LogsOf(OneLogChain(), a, b + 1), Block(b))))
  }

  const SMALL := Config(EveryHeader, 0, 0, 2)

  function EveryLog(): Processor {
    Processor(None, (l: Log) => true)
  }

  lemma OneLogChainOk()
    ensures var c := OneLogChain();
            c.Valid() && LinkedChain(c) && TimedChain(EveryHeader, c) && Complete(c, OneLogProvider(), 1)
            && Honest(c, OneLogProvider())
  {
    assert Block(1).Hash() == HeaderHash(Block(1));
    CompleteHonest(OneLogChain(), OneLogProvider(), 1);
  }

  lemma {:induction false} PipeRunConcat(cfg: Config, proc: Processor, s: Pipe, a: seq<PipeAction>, b: seq<PipeAction>)
    requires cfg.Valid()
    ensures PipeRun(cfg, proc, s, a + b) == PipeRun(cfg, proc, PipeRun(cfg, proc, s, a), b)
  {
    if b == [] {
      assert a + b == a;
    } else {
      hide PipeStep;
      PipeRunConcat(cfg, proc, s, a, b[..|b| - 1]);
      assert (a + b)[..|a + b| - 1] == a + b[..|b| - 1];
    }
  }

  function Ingests(actions: seq<Action>): (r: seq<PipeAction>)
    ensures |r| == |actions| && forall i :: 0 <= i < |actions| ==> r[i] == Ingest(actions[i])
  {
    seq(|actions|, i requires 0 <= i < |actions| => Ingest(actions[i]))
  }

  lemma {:induction false} IngestsRun(cfg: Config, proc: Processor, s: Pipe, actions: seq<Action>)
    requires cfg.Valid() && forall a :: a in actions ==> !a.Crash?
    ensures PipeRun(cfg, proc, s, Ingests(actions)) == s.(sys := Run(cfg, s.sys, actions))
  {
    if actions == [] {
    } else {
      hide Step;
      IngestsRun(cfg, proc, s, actions[..|actions| - 1]);
      assert Ingests(actions)[..|actions| - 1] == Ingests(actions[..|actions| - 1]);
      assert actions[|actions| - 1] in actions;
    }
  }

  function FirstSteps(): seq<Action> {
    [Restart(OneLogProvider(), true)] + [Tick(OneLogProvider()), Receive, Attempt(Commits)]
  }

  /** Ingesting the two blocks leaves both headers stored. */
  lemma BothBlocksStored()
    ensures forall a :: a in FirstSteps() ==> HonestAction(OneLogChain(), a) && !a.Crash?
    ensures var sys := Run(SMALL, INIT, FirstSteps());
            sys.process.Some? && sys.store.headers == [Block(0), Block(1)]
  {
    var c, p := OneLogChain(), OneLogProvider();
    OneLogChainOk();
    hide Complete, LinkedChain, TimedChain, Honest, Chain.Valid, Block, TickResult, Admissible, TryStore, Holds,
      ProcessOk;
    RunCons(SMALL, INIT, Restart(p, true), [Tick(p), Receive, Attempt(Commits)]);
    var started := Step(SMALL, INIT, Restart(p, true));
    assert INIT.store.headers == [];
    StartedOk(c, p);
    RoundProgress(SMALL, c, started, p, 1);
    TwoRows(c, Run(SMALL, INIT, FirstSteps()).store);
  }

  lemma StartedOk(c: Chain, p: Provider)
    requires c.Valid() && Honest(c, p)
    ensures var started := Step(SMALL, INIT, Restart(p, true));
            && Inv(SMALL, c, started)
            && started.process == Some(Process(Producer(HT.Cursor(None, None), [], None), Idle, 0, []))
  {
    hide Honest, Chain.Valid;
    RunKeeps(SMALL, c, INIT, []);
    StepKeeps(SMALL, c, INIT, Restart(p, true));
    hide Inv;
  }

  lemma TwoRows(c: Chain, store: Store)
    requires c == OneLogChain() && Holds(EveryHeader, c, 0, 2, store)
    ensures store.headers == [Block(0), Block(1)]
  {
    hide Block;
    assert RowsIn(EveryHeader, c, 0, 0) == [];
    assert RowsIn(EveryHeader, c, 0, 1) == [Block(0)];
  }

  function LostRun(): seq<PipeAction> {
    Ingests(FirstSteps()) + [StartScan] + [Begin, Finish(CommitsUnacknowledged)] + [Begin, Finish(Commits)]
  }

  lemma LostRunHonest()
    ensures forall a :: a in LostRun() ==> HonestPipeAction(OneLogChain(), a)
  {
    BothBlocksStored();
    hide Honest, FirstSteps;
    forall a | a in LostRun()
      ensures HonestPipeAction(OneLogChain(), a)
    {
      if a.Ingest? {
        IngestedAction(a);
      }
    }
  }

  lemma IngestedAction(a: PipeAction)
    requires a in Ingests(FirstSteps())
    ensures a.action in FirstSteps()
  {
    hide FirstSteps;
    var i :| 0 <= i < |FirstSteps()| && Ingests(FirstSteps())[i] == a;
    assert FirstSteps()[i] in FirstSteps();
  }

  lemma LostRunRows()
    ensures multiset(PipeRun(SMALL, EveryLog(), PIPE_INIT, LostRun()).rows) == multiset{OnlyLog(), OnlyLog()}
  {
    hide *;
    var c, proc := OneLogChain(), EveryLog();
    SmallOk();
    OneLogChainOk();
    ReadyAfterStart();
    OneLogWindow();
    var start := Ingests(FirstSteps()) + [StartScan];
    var s := PipeRun(SMALL, proc, PIPE_INIT, start);
    LostAcknowledgementRepeats(SMALL, c, proc, s, 0, 1);
    PipeRunConcat(SMALL, proc, PIPE_INIT, start, [Begin, Finish(CommitsUnacknowledged)]);
    PipeRunConcat(SMALL, proc, PIPE_INIT, start + [Begin, Finish(CommitsUnacknowledged)], [Begin, Finish(Commits)]);
    LostRunIs();
    assert multiset(s.rows) == multiset{};
  }

  lemma SmallOk()
    ensures SMALL.Valid()
  {
  }

  lemma LostRunIs()
    ensures LostRun() ==
            Ingests(FirstSteps()) + [StartScan] + [Begin, Finish(CommitsUnacknowledged)] + [Begin, Finish(Commits)]
  {
  }

  /** From the empty tables: a pass commits unacknowledged, the next one commits too, and the log is stored twice. */
  lemma LostAcknowledgementReachable()
    ensures exists actions ::
              && (forall a :: a in actions ==> HonestPipeAction(OneLogChain(), a))
              && multiset(PipeRun(SMALL, EveryLog(), PIPE_INIT, actions).rows) == multiset{OnlyLog(), OnlyLog()}
              && Occurrences(OneLogChain(), OnlyLog()) == 1
  {
    hide *;
    LostRunHonest();
    LostRunRows();
    OneLogWindow();
  }

  lemma OneLogWindow()
    ensures Filter(LogsOf(OneLogChain(), 1, 2), EveryLog().relevant) == [OnlyLog()]
    ensures Occurrences(OneLogChain(), OnlyLog()) == 1
  {
    assert LogsOf(OneLogChain(), 1, 1) == [];
    assert LogsOf(OneLogChain(), 1, 2) == [OnlyLog()];
    assert [OnlyLog()][..0] == [];
  }

  lemma ReadyAfterStart()
    ensures var s := PipeRun(SMALL, EveryLog(), PIPE_INIT, Ingests(FirstSteps()) + [StartScan]);
            ReadyToScan(SMALL, OneLogChain(), EveryLog(), s, 0, 1) && s.rows == []
  {
    var c, proc := OneLogChain(), EveryLog();
    OneLogChainOk();
    BothBlocksStored();
    hide Complete, LinkedChain, TimedChain, Honest, Chain.Valid, Block, Run, PipeInv, FirstSteps;
    var start := Ingests(FirstSteps()) + [StartScan];
    IngestsRun(SMALL, proc, PIPE_INIT, FirstSteps());
    PipeRunSnoc(SMALL, proc, PIPE_INIT, Ingests(FirstSteps()), StartScan);
    forall a | a in start
      ensures HonestPipeAction(c, a)
    {
      if a.Ingest? {
        IngestedAction(a);
      }
    }
    PipeRunKeeps(SMALL, c, proc, start);
    hide PipeRun;
    BlockNumbers([Block(0), Block(1)]);
  }

  lemma BlockNumbers(headers: seq<Header>)
    requires headers == [Block(0), Block(1)]
    ensures ScopeTop(Numbers(headers), 0) == Some(1)
  {
    assert headers[0] in headers && headers[1] in headers;
    assert Numbers(headers) == {0, 1};
    assert Above({0, 1}, 0) == {1};
  }
}
