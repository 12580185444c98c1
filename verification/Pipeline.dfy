/**
  Ingestion composed with one scan cursor of the event processor: batches are persisted while
  passes are under way, passes fail or succeed, and the whole process crashes and restarts.
  The scanned table is withdraw_proven: one row for each relevant event, from which a restarted
  process reloads its cursor.
 */
module Pipeline {
  import opened Wrappers
  import opened Seqs
  import opened Chain
  import opened Database
  import opened Ingestion
  import opened EventProcessor

  /**
    On is a live cursor: its position, the window of the pass under way, where this life began,
    and the handler calls of its successful passes.
   */
  datatype Scan = Off | On(position: int, pass: Option<(int, int)>, base: int, calls: seq<Call>)

  datatype Pipe = Pipe(sys: System, scan: Scan, rows: seq<Log>)

  /** What distinguishes the processors: the bedrock split and which logs their handler stores. */
  datatype Processor = Processor(bedrock: Option<int>, relevant: Log -> bool)

  /** A failed handler rolls its pass back; a pass may also commit while the processor sees an error. */
  datatype PipeAction = Ingest(action: Action) | StartScan | Begin | Finish(fate: Fate)

  /** The join of the event table with the header table on a range of numbers. */
  function InRange(store: Store, from: int, upTo: int): Log -> bool {
    (l: Log) => l.blockHash.HeaderHash? && l.blockHash.header in store.headers
      && from <= l.blockHash.header.number <= upTo
  }

  /** ContractEventsWithFilter, with its range guard. */
  function QueryEvents(store: Store, from: int, upTo: int): Result<seq<Log>> {
    if from > upTo then Failure else Success(Filter(LogsIn(store.events), InRange(store, from, upTo)))
  }

  /** The rows the handlers of one pass insert, or the error of a query that rolls them back. */
  function HandlerRows(proc: Processor, store: Store, calls: seq<Call>): Result<seq<Log>> {
    if calls == [] then Success([])
    else
      var last := calls[|calls| - 1];
      match (HandlerRows(proc, store, calls[..|calls| - 1]), QueryEvents(store, last.from, last.upTo))
      case (Success(before), Success(events)) => Success(before + Filter(events, proc.relevant))
      case _ => Failure
  }

  function HeadersBehind(rows: seq<Log>): (hs: seq<Header>)
    requires forall l :: l in rows ==> l.blockHash.HeaderHash?
    ensures |hs| == |rows| && forall i :: 0 <= i < |rows| ==> hs[i] == rows[i].blockHash.header
  {
    seq(|rows|, i requires 0 <= i < |rows| => assert rows[i] in rows; rows[i].blockHash.header)
  }

  /** WithdrawProvenL1BlockHeader, or the configured start when it finds nothing. */
  function Reload(start: int, store: Store, rows: seq<Log>): int {
    if forall l :: l in rows ==> l.blockHash.HeaderHash? then
      var latest := LatestHeader(HeadersBehind(rows));
      if latest.Some? && latest.value.number in Numbers(store.headers) then latest.value.number else start
    else start
  }

  function PipeStep(cfg: Config, proc: Processor, s: Pipe, a: PipeAction): Pipe
    requires cfg.Valid()
  {
    match a
    case Ingest(action) =>
      var sys := Step(cfg, s.sys, action);
      if action.Crash? then s.(sys := sys, scan := Off) else s.(sys := sys)
    case StartScan =>
      if s.scan.Off? && s.sys.process.Some? then
        var position := Reload(cfg.startHeight, s.sys.store, s.rows);
        s.(scan := On(position, None, position, []))
      else s
    case Begin =>
      if s.scan.On? && s.scan.pass.None? then
        var top := ScopeTop(Numbers(s.sys.store.headers), s.scan.position);
        if top.Some? then s.(scan := s.scan.(pass := Some((s.scan.position + 1, top.value)))) else s
      else s
    case Finish(fate) =>
      if s.scan.On? && s.scan.pass.Some? then
        var (from, upTo) := s.scan.pass.value;
        var calls := CallsFor(proc.bedrock, from, upTo);
        var inserted := HandlerRows(proc, s.sys.store, calls);
        if fate.RollsBack? || inserted.Failure? then s.(scan := s.scan.(pass := None))
        else if fate.Commits? then
          s.(scan := On(upTo, None, s.scan.base, s.scan.calls + calls), rows := s.rows + inserted.value)
        else s.(scan := s.scan.(pass := None), rows := s.rows + inserted.value)
      else s
  }

  function PipeRun(cfg: Config, proc: Processor, s: Pipe, actions: seq<PipeAction>): Pipe
    requires cfg.Valid()
  {
    if actions == [] then s
    else PipeStep(cfg, proc, PipeRun(cfg, proc, s, actions[..|actions| - 1]), actions[|actions| - 1])
  }

  const PIPE_INIT := Pipe(INIT, Off, [])

  ghost predicate HonestPipeAction(c: Chain, a: PipeAction) {
    a.Ingest? ==> HonestAction(c, a.action)
  }

  /** The rows are exactly the relevant logs of the heights after the start up to `d`, each once. */
  ghost predicate Exact(cfg: Config, c: Chain, proc: Processor, rows: seq<Log>, d: int) {
    cfg.startHeight <= d &&
    multiset(rows) == multiset(Filter(LogsOf(c, cfg.startHeight + 1, d + 1), proc.relevant))
  }

  /** A position is the configured start or the number of a stored header. */
  ghost predicate Reached(cfg: Config, store: Store, d: int) {
    d == cfg.startHeight || d in Numbers(store.headers)
  }

  ghost predicate ScanOk(cfg: Config, proc: Processor, s: Pipe) {
    match s.scan
    case Off => true
    case On(position, pass, base, calls) =>
      && cfg.startHeight <= base <= position
      && Reached(cfg, s.sys.store, position)
      && Covered(calls) == Tiled(proc.bedrock, base + 1, position)
      && (pass.Some? ==>
            && pass.value.0 == position + 1 && position < pass.value.1
            && pass.value.1 in Numbers(s.sys.store.headers))
  }

  ghost predicate RowsStored(rows: seq<Log>, store: Store) {
    forall l :: l in rows ==> l.blockHash.HeaderHash? && l.blockHash.header in store.headers
  }

  /** Every row refers to a stored header above the configured start. */
  ghost predicate RowsOk(cfg: Config, s: Pipe) {
    RowsStored(s.rows, s.sys.store) && forall l :: l in s.rows ==> l.blockHash.header.number > cfg.startHeight
  }

  /** What holds in every run, whatever the fates of the passes. */
  ghost predicate PipeInv(cfg: Config, c: Chain, proc: Processor, s: Pipe) {
    Inv(cfg, c, s.sys) && RowsOk(cfg, s) && ScanOk(cfg, proc, s)
  }

  /** No row lies above `a` and at or below `b`. */
  predicate NoRowIn(rows: seq<Log>, a: int, b: int) {
    forall l :: l in rows && l.blockHash.HeaderHash? ==> !(a < l.blockHash.header.number <= b)
  }

  /** The rows are exactly the relevant logs up to some height at or above `p`, each once. */
  ghost predicate EachOnce(cfg: Config, c: Chain, proc: Processor, rows: seq<Log>, p: int) {
    exists d :: p <= d && Exact(cfg, c, proc, rows, d)
  }

  ghost predicate Clean(cfg: Config, c: Chain, proc: Processor, s: Pipe) {
    EachOnce(cfg, c, proc, s.rows, if s.scan.On? then s.scan.position else cfg.startHeight)
  }

  /** A pass commits although the table already has a row of its window. */
  predicate Repeats(s: Pipe, a: PipeAction) {
    && a.Finish? && !a.fate.RollsBack? && s.scan.On? && s.scan.pass.Some?
    && !NoRowIn(s.rows, s.scan.position, s.scan.pass.value.1)
  }

  // ---------------------------------------------------------------------------------------
  // A range of stored heights holds exactly the chain's logs of that range
  // ---------------------------------------------------------------------------------------

  lemma {:induction false} LoggedHeightStored(policy: Policy, c: Chain, a: nat, b: nat, h: nat)
    requires a <= h < b && c.logs(h) != []
    ensures c.header(h) in RowsIn(policy, c, a, b)
  {
    if h < b - 1 {
      LoggedHeightStored(policy, c, a, b - 1, h);
    }
  }

  lemma RangeFilter(c: Chain, store: Store, first: nat, f: nat, from: nat, upTo: int)
    requires c.Valid() && first <= from <= upTo + 1 <= f
    requires forall h: nat :: first <= h < f && c.logs(h) != [] ==> c.header(h) in store.headers
    ensures Filter(LogsOf(c, first, f), InRange(store, from, upTo)) == LogsOf(c, from, upTo + 1)
  {
    hide LogsOf, Filter;
    var p := InRange(store, from, upTo);
    LogsConcat(c, first, from, f);
    LogsConcat(c, from, upTo + 1, f);
    FilterConcat(LogsOf(c, first, from), LogsOf(c, from, f), p);
    FilterConcat(LogsOf(c, from, upTo + 1), LogsOf(c, upTo + 1, f), p);
    forall l
      ensures l in LogsOf(c, first, from) ==> !p(l)
      ensures l in LogsOf(c, upTo + 1, f) ==> !p(l)
      ensures l in LogsOf(c, from, upTo + 1) ==> p(l)
    {
      LogMember(c, first, from, l);
      LogMember(c, upTo + 1, f, l);
      LogMember(c, from, upTo + 1, l);
    }
    FilterNone(LogsOf(c, first, from), p);
    FilterAll(LogsOf(c, from, upTo + 1), p);
    FilterNone(LogsOf(c, upTo + 1, f), p);
  }

  /** The join returns exactly the logs of a range that ends at or below the last stored height. */
  lemma QueryExact(cfg: Config, c: Chain, store: Store, from: nat, upTo: int)
    requires c.Valid() && StoreOk(cfg, c, store)
    requires cfg.First() <= from <= upTo < Frontier(cfg.First(), store)
    ensures var r := QueryEvents(store, from, upTo);
            r.Success? && multiset(r.value) == multiset(LogsOf(c, from, upTo + 1))
  {
    var first, f := cfg.First(), Frontier(cfg.First(), store);
    forall h: nat | first <= h < f && c.logs(h) != []
      ensures c.header(h) in store.headers
    {
      LoggedHeightStored(cfg.policy, c, first, f, h);
    }
    RangeFilter(c, store, first, f, from, upTo);
    FilterPermutation(LogsIn(store.events), LogsOf(c, first, f), InRange(store, from, upTo));
  }

  lemma StoredBelowFrontier(cfg: Config, c: Chain, store: Store, d: int)
    requires c.Valid() && StoreOk(cfg, c, store) && d in Numbers(store.headers)
    ensures cfg.First() <= d < Frontier(cfg.First(), store)
  {
    var h :| h in store.headers && h.number == d;
    var i :| 0 <= i < |store.headers| && store.headers[i] == h;
    RowAt(cfg.policy, c, cfg.First(), Frontier(cfg.First(), store), i);
  }

  lemma HandlerRowsPush(proc: Processor, store: Store, calls: seq<Call>, call: Call)
    requires HandlerRows(proc, store, calls).Success? && QueryEvents(store, call.from, call.upTo).Success?
    ensures HandlerRows(proc, store, calls + [call]) ==
            Success(HandlerRows(proc, store, calls).value
                    + Filter(QueryEvents(store, call.from, call.upTo).value, proc.relevant))
  {
    assert (calls + [call])[..|calls|] == calls;
  }

  /** One more call inserts exactly the relevant logs of its range. */
  lemma CallRows(cfg: Config, c: Chain, proc: Processor, store: Store, calls: seq<Call>, a: nat, call: Call)
    requires c.Valid() && StoreOk(cfg, c, store)
    requires cfg.First() <= a <= call.from <= call.upTo < Frontier(cfg.First(), store)
    requires var r := HandlerRows(proc, store, calls);
             && r.Success? && RowsStored(r.value, store)
             && multiset(r.value) == multiset(Filter(LogsOf(c, a, call.from), proc.relevant))
    ensures var r := HandlerRows(proc, store, calls + [call]);
            && r.Success? && RowsStored(r.value, store)
            && multiset(r.value) == multiset(Filter(LogsOf(c, a, call.upTo + 1), proc.relevant))
  {
    hide LogsOf, RowsIn, StoreOk, Filter, Frontier, Chain.Valid;
    QueryExact(cfg, c, store, call.from, call.upTo);
    var events := QueryEvents(store, call.from, call.upTo).value;
    HandlerRowsPush(proc, store, calls, call);
    FilterPermutation(events, LogsOf(c, call.from, call.upTo + 1), proc.relevant);
    LogsConcat(c, a, call.from, call.upTo + 1);
    FilterConcat(LogsOf(c, a, call.from), LogsOf(c, call.from, call.upTo + 1), proc.relevant);
    forall l | l in Filter(events, proc.relevant)
      ensures l.blockHash.HeaderHash? && l.blockHash.header in store.headers
    {
      FilterMember(events, proc.relevant, l);
      FilterMember(LogsIn(store.events), InRange(store, call.from, call.upTo), l);
    }
  }

  /** The calls of one pass together insert exactly the relevant logs of its window; no guard fires. */
  lemma PassRows(cfg: Config, c: Chain, proc: Processor, store: Store, from: nat, upTo: int)
    requires c.Valid() && StoreOk(cfg, c, store)
    requires cfg.First() <= from <= upTo && upTo in Numbers(store.headers)
    ensures var r := HandlerRows(proc, store, CallsFor(proc.bedrock, from, upTo));
            && r.Success? && RowsStored(r.value, store)
            && multiset(r.value) == multiset(Filter(LogsOf(c, from, upTo + 1), proc.relevant))
  {
    hide LogsOf, StoreOk, Filter, Frontier, Covered, Tiled, HandlerRows, Numbers, RowsStored, Chain.Valid;
    var calls := CallsFor(proc.bedrock, from, upTo);
    StoredBelowFrontier(cfg, c, store, upTo);
    CallsTile(proc.bedrock, from, upTo);
    NoCallsNoRows(c, proc, store, from);
    assert calls[0] in calls;
    assert [] + [calls[0]] == [calls[0]];
    CallRows(cfg, c, proc, store, [], from, calls[0]);
    if |calls| == 2 {
      assert calls == [calls[0]] + [calls[1]];
      CallRows(cfg, c, proc, store, [calls[0]], from, calls[1]);
    } else {
      assert calls == [calls[0]];
    }
  }

  lemma NoCallsNoRows(c: Chain, proc: Processor, store: Store, from: nat)
    ensures HandlerRows(proc, store, []) == Success([]) && RowsStored([], store)
    ensures Filter(LogsOf(c, from, from), proc.relevant) == []
  {
  }

  // ---------------------------------------------------------------------------------------
  // Every action keeps the invariant
  // ---------------------------------------------------------------------------------------

  /** Nothing stored is ever removed. */
  lemma StoreGrows(cfg: Config, s: System, a: Action)
    requires cfg.Valid()
    ensures var s' := Step(cfg, s, a);
            forall h :: h in s.store.headers ==> h in s'.store.headers
  {
  }

  /** A restart resumes at the highest row, or at the start when there is none. */
  lemma ReloadIsHighest(cfg: Config, store: Store, rows: seq<Log>)
    requires RowsStored(rows, store) && forall l :: l in rows ==> l.blockHash.header.number > cfg.startHeight
    ensures var r := Reload(cfg.startHeight, store, rows);
            && cfg.startHeight <= r && Reached(cfg, store, r)
            && (forall l :: l in rows ==> l.blockHash.header.number <= r)
            && (r > cfg.startHeight ==> exists l :: l in rows && l.blockHash.header.number == r)
  {
    if rows != [] {
      var behind := HeadersBehind(rows);
      assert behind[0] in behind;
      var latest := LatestHeader(behind).value;
      var j :| 0 <= j < |behind| && behind[j] == latest;
      assert rows[j] in rows;
      forall l | l in rows
        ensures l.blockHash.header.number <= latest.number
      {
        var i :| 0 <= i < |rows| && rows[i] == l;
        assert behind[i] in behind;
      }
    }
  }

  lemma RowPlaced(cfg: Config, c: Chain, proc: Processor, rows: seq<Log>, d: int, l: Log)
    requires c.Valid() && Exact(cfg, c, proc, rows, d) && l in rows
    ensures l.blockHash.HeaderHash? && cfg.startHeight < l.blockHash.header.number <= d
  {
    InsertedPlaced(c, proc, rows, cfg.startHeight, d, l);
  }

  lemma InsertedPlaced(c: Chain, proc: Processor, rows: seq<Log>, a: nat, b: int, l: Log)
    requires c.Valid() && a <= b && multiset(rows) == multiset(Filter(LogsOf(c, a + 1, b + 1), proc.relevant))
    requires l in rows
    ensures l.blockHash.HeaderHash? && a < l.blockHash.header.number <= b && proc.relevant(l)
    ensures l in LogsOf(c, a + 1, b + 1)
  {
    assert l in multiset(rows);
    FilterMember(LogsOf(c, a + 1, b + 1), proc.relevant, l);
    LogMember(c, a + 1, b + 1, l);
  }

  /** Exact rows that leave a range out mean that the range has no relevant log. */
  lemma NothingBetween(cfg: Config, c: Chain, proc: Processor, rows: seq<Log>, d: int, a: int, b: int)
    requires c.Valid() && Exact(cfg, c, proc, rows, d) && cfg.startHeight <= a <= b <= d && NoRowIn(rows, a, b)
    ensures Filter(LogsOf(c, a + 1, b + 1), proc.relevant) == []
  {
    hide LogsOf, Filter, Chain.Valid;
    forall l | l in LogsOf(c, a + 1, b + 1)
      ensures !proc.relevant(l)
    {
      LogMember(c, a + 1, b + 1, l);
      LogsConcat(c, cfg.startHeight + 1, a + 1, d + 1);
      LogsConcat(c, a + 1, b + 1, d + 1);
      FilterMember(LogsOf(c, cfg.startHeight + 1, d + 1), proc.relevant, l);
      assert proc.relevant(l) ==> l in multiset(rows);
    }
    FilterNone(LogsOf(c, a + 1, b + 1), proc.relevant);
  }

  lemma ExactDown(cfg: Config, c: Chain, proc: Processor, rows: seq<Log>, d: int, a: int)
    requires c.Valid() && Exact(cfg, c, proc, rows, d) && cfg.startHeight <= a <= d && NoRowIn(rows, a, d)
    ensures Exact(cfg, c, proc, rows, a)
  {
    hide LogsOf, Filter, Chain.Valid;
    NothingBetween(cfg, c, proc, rows, d, a, d);
    LogsConcat(c, cfg.startHeight + 1, a + 1, d + 1);
    FilterConcat(LogsOf(c, cfg.startHeight + 1, a + 1), LogsOf(c, a + 1, d + 1), proc.relevant);
  }

  lemma ExactExtends(cfg: Config, c: Chain, proc: Processor, rows: seq<Log>, inserted: seq<Log>, d: int, d': int)
    requires Exact(cfg, c, proc, rows, d) && d <= d'
    requires multiset(inserted) == multiset(Filter(LogsOf(c, d + 1, d' + 1), proc.relevant))
    ensures Exact(cfg, c, proc, rows + inserted, d')
  {
    hide LogsOf, Filter;
    LogsConcat(c, cfg.startHeight + 1, d + 1, d' + 1);
    FilterConcat(LogsOf(c, cfg.startHeight + 1, d + 1), LogsOf(c, d + 1, d' + 1), proc.relevant);
  }

  /** Rows that are exact up to any height are exact up to where a restart resumes, so nothing is lost or repeated. */
  lemma ReloadExact(cfg: Config, c: Chain, proc: Processor, rows: seq<Log>, store: Store, d: int)
    requires c.Valid() && RowsStored(rows, store) && Exact(cfg, c, proc, rows, d)
    ensures Exact(cfg, c, proc, rows, Reload(cfg.startHeight, store, rows))
  {
    hide LogsOf, Filter, Chain.Valid, Reload, Exact;
    forall l | l in rows
      ensures cfg.startHeight < l.blockHash.header.number <= d
    {
      RowPlaced(cfg, c, proc, rows, d, l);
    }
    ReloadIsHighest(cfg, store, rows);
    ExactAbove(cfg, c, proc, rows, d);
    ExactDown(cfg, c, proc, rows, d, Reload(cfg.startHeight, store, rows));
  }

  lemma ExactAbove(cfg: Config, c: Chain, proc: Processor, rows: seq<Log>, d: int)
    requires Exact(cfg, c, proc, rows, d)
    ensures cfg.startHeight <= d
  {
  }

  lemma IngestKeeps(cfg: Config, c: Chain, proc: Processor, s: Pipe, action: Action)
    requires cfg.Valid() && c.Valid() && PipeInv(cfg, c, proc, s) && HonestAction(c, action)
    ensures PipeInv(cfg, c, proc, PipeStep(cfg, proc, s, Ingest(action)))
  {
    hide Inv, Step, Covered, Tiled;
    StepKeeps(cfg, c, s.sys, action);
    StoreGrows(cfg, s.sys, action);
  }

  lemma StartScanKeeps(cfg: Config, c: Chain, proc: Processor, s: Pipe)
    requires cfg.Valid() && PipeInv(cfg, c, proc, s)
    ensures PipeInv(cfg, c, proc, PipeStep(cfg, proc, s, StartScan))
  {
    hide Inv, Reload;
    ReloadIsHighest(cfg, s.sys.store, s.rows);
  }

  /** What a pass under way inserts if it commits. */
  function Inserted(proc: Processor, s: Pipe): seq<Log>
    requires s.scan.On? && s.scan.pass.Some?
  {
    var r := HandlerRows(proc, s.sys.store, CallsFor(proc.bedrock, s.scan.pass.value.0, s.scan.pass.value.1));
    if r.Success? then r.value else []
  }

  /** The queries of a pass under way succeed and give exactly the relevant logs of its window. */
  lemma InsertedExact(cfg: Config, c: Chain, proc: Processor, s: Pipe)
    requires cfg.Valid() && c.Valid() && PipeInv(cfg, c, proc, s) && s.scan.On? && s.scan.pass.Some?
    ensures var (from, upTo) := s.scan.pass.value;
            && HandlerRows(proc, s.sys.store, CallsFor(proc.bedrock, from, upTo)) == Success(Inserted(proc, s))
            && RowsStored(Inserted(proc, s), s.sys.store)
            && multiset(Inserted(proc, s)) ==
               multiset(Filter(LogsOf(c, s.scan.position + 1, upTo + 1), proc.relevant))
  {
    hide Inv, LogsOf, Filter, Covered, Tiled, HandlerRows, CallsFor, Chain.Valid;
    ReachedBelow(cfg, c, s);
    InvStore(cfg, c, s.sys);
    PassRows(cfg, c, proc, s.sys.store, s.scan.pass.value.0, s.scan.pass.value.1);
  }

  lemma ReachedBelow(cfg: Config, c: Chain, s: Pipe)
    requires c.Valid() && Inv(cfg, c, s.sys) && s.scan.On? && cfg.startHeight <= s.scan.position
    requires Reached(cfg, s.sys.store, s.scan.position)
    ensures cfg.First() <= s.scan.position + 1
  {
  }

  lemma InsertedAbove(cfg: Config, c: Chain, proc: Processor, s: Pipe)
    requires cfg.Valid() && c.Valid() && PipeInv(cfg, c, proc, s) && s.scan.On? && s.scan.pass.Some?
    ensures RowsStored(Inserted(proc, s), s.sys.store)
    ensures forall l :: l in Inserted(proc, s) ==> l.blockHash.header.number > cfg.startHeight
  {
    hide Inv, LogsOf, Filter, Inserted, Chain.Valid, HandlerRows, CallsFor, Covered, Tiled, Numbers;
    InsertedExact(cfg, c, proc, s);
    forall l | l in Inserted(proc, s)
      ensures l.blockHash.header.number > cfg.startHeight
    {
      InsertedPlaced(c, proc, Inserted(proc, s), s.scan.position, s.scan.pass.value.1, l);
    }
  }

  lemma FinishKeepsScan(cfg: Config, c: Chain, proc: Processor, s: Pipe, fate: Fate)
    requires cfg.Valid() && c.Valid() && PipeInv(cfg, c, proc, s)
    ensures ScanOk(cfg, proc, PipeStep(cfg, proc, s, Finish(fate)))
  {
    hide Inv, RowsOk, Covered, Tiled, HandlerRows, CallsFor, Chain.Valid, Numbers;
    if s.scan.On? && s.scan.pass.Some? {
      var (from, upTo) := s.scan.pass.value;
      CallsTile(proc.bedrock, from, upTo);
      CoveredConcat(s.scan.calls, CallsFor(proc.bedrock, from, upTo));
      TiledConcat(proc.bedrock, s.scan.base + 1, s.scan.position, upTo);
    }
  }

  lemma FinishKeepsRows(cfg: Config, c: Chain, proc: Processor, s: Pipe, fate: Fate)
    requires cfg.Valid() && c.Valid() && PipeInv(cfg, c, proc, s)
    ensures RowsOk(cfg, PipeStep(cfg, proc, s, Finish(fate)))
  {
    hide Covered, Tiled, HandlerRows, CallsFor, Chain.Valid, Numbers, Inserted;
    if s.scan.On? && s.scan.pass.Some? {
      InsertedSucceeds(cfg, c, proc, s);
      InsertedAbove(cfg, c, proc, s);
      hide Inv, ScanOk;
    }
  }

  /** A pass that commits and reports it moves the position to the end of its window: no query error stops it. */
  lemma FinishKeeps(cfg: Config, c: Chain, proc: Processor, s: Pipe, fate: Fate)
    requires cfg.Valid() && c.Valid() && PipeInv(cfg, c, proc, s)
    ensures PipeInv(cfg, c, proc, PipeStep(cfg, proc, s, Finish(fate)))
    ensures s.scan.On? && s.scan.pass.Some? && fate.Commits? ==>
              PipeStep(cfg, proc, s, Finish(fate)).scan.position == s.scan.pass.value.1
  {
    FinishKeepsScan(cfg, c, proc, s, fate);
    FinishKeepsRows(cfg, c, proc, s, fate);
    if s.scan.On? && s.scan.pass.Some? {
      InsertedSucceeds(cfg, c, proc, s);
    }
    hide Inv, ScanOk, RowsOk, HandlerRows, CallsFor, Inserted;
  }

  lemma InsertedSucceeds(cfg: Config, c: Chain, proc: Processor, s: Pipe)
    requires cfg.Valid() && c.Valid() && PipeInv(cfg, c, proc, s) && s.scan.On? && s.scan.pass.Some?
    ensures HandlerRows(proc, s.sys.store, CallsFor(proc.bedrock, s.scan.pass.value.0, s.scan.pass.value.1)) ==
            Success(Inserted(proc, s))
  {
    InsertedExact(cfg, c, proc, s);
  }

  lemma InvStore(cfg: Config, c: Chain, s: System)
    requires Inv(cfg, c, s)
    ensures StoreOk(cfg, c, s.store)
  {
  }

  lemma PipeStepKeeps(cfg: Config, c: Chain, proc: Processor, s: Pipe, a: PipeAction)
    requires cfg.Valid() && c.Valid() && PipeInv(cfg, c, proc, s) && HonestPipeAction(c, a)
    ensures PipeInv(cfg, c, proc, PipeStep(cfg, proc, s, a))
  {
    hide Inv, Covered, Tiled, Step, Reload, HandlerRows, CallsFor;
    match a
    case Ingest(action) => IngestKeeps(cfg, c, proc, s, action);
    case StartScan => StartScanKeeps(cfg, c, proc, s);
    case Begin =>
    case Finish(fate) => FinishKeeps(cfg, c, proc, s, fate);
  }

  lemma {:induction false} PipeRunKeeps(cfg: Config, c: Chain, proc: Processor, actions: seq<PipeAction>)
    requires cfg.Valid() && c.Valid()
    requires forall a :: a in actions ==> HonestPipeAction(c, a)
    ensures PipeInv(cfg, c, proc, PipeRun(cfg, proc, PIPE_INIT, actions))
  {
    if actions == [] {
    } else {
      PipeRunKeeps(cfg, c, proc, actions[..|actions| - 1]);
      PipeStepKeeps(cfg, c, proc, PipeRun(cfg, proc, PIPE_INIT, actions[..|actions| - 1]), actions[|actions| - 1]);
    }
  }

  /** Starting and finishing a pass from a resting cursor, written out. */
  lemma PassSteps(cfg: Config, c: Chain, proc: Processor, s: Pipe, fate: Fate)
    requires cfg.Valid() && c.Valid() && PipeInv(cfg, c, proc, s) && s.scan.On? && s.scan.pass.None?
    ensures var top := ScopeTop(Numbers(s.sys.store.headers), s.scan.position);
            var s' := PipeStep(cfg, proc, PipeStep(cfg, proc, s, Begin), Finish(fate));
            && s'.scan.On? && s'.scan.pass.None? && s'.scan.base == s.scan.base && s'.sys == s.sys
            && (fate.Commits? && top.Some? ==>
                  && s'.scan.position == top.value
                  && s'.scan.calls == s.scan.calls + CallsFor(proc.bedrock, s.scan.position + 1, top.value))
            && (!fate.Commits? || top.None? ==> s'.scan.position == s.scan.position && s'.scan.calls == s.scan.calls)
  {
    hide Inv, Covered, Tiled, HandlerRows, CallsFor, Chain.Valid, Numbers, Inserted;
    var begun := PipeStep(cfg, proc, s, Begin);
    PipeStepKeeps(cfg, c, proc, s, Begin);
    if begun.scan.pass.Some? {
      InsertedSucceeds(cfg, c, proc, begun);
    }
  }

  /**
    A pass of the processor's cursor over the stored headers is such a start and finish: from the
    same position and calls it ends at the same position and calls.
   */
  method PassIsTwoSteps(cursor: ScanCursor, headers: seq<Header>, fate: Fate,
                        ghost cfg: Config, ghost c: Chain, ghost proc: Processor, ghost s: Pipe)
    requires cfg.Valid() && c.Valid() && PipeInv(cfg, c, proc, s) && s.scan.On? && s.scan.pass.None?
    requires headers == s.sys.store.headers && cursor.bedrock == proc.bedrock
    requires s.scan.position == if cursor.latestHeader.Some? then cursor.latestHeader.value else cursor.startingHeight
    requires s.scan.calls == cursor.calls
    modifies cursor
    ensures var s' := PipeStep(cfg, proc, PipeStep(cfg, proc, s, Begin), Finish(fate));
            && s'.scan.position ==
               (if cursor.latestHeader.Some? then cursor.latestHeader.value else cursor.startingHeight)
            && s'.scan.calls == cursor.calls
  {
    hide Inv, Covered, Tiled, HandlerRows, CallsFor, Chain.Valid, Numbers;
    PassSteps(cfg, c, proc, s, fate);
    var _ := cursor.Pass(headers, true, _ => true, fate.Commits?);
    hide PipeInv, PipeStep;
  }

  // ---------------------------------------------------------------------------------------
  // When each relevant log is stored once
  // ---------------------------------------------------------------------------------------

  /** A commit over a window without rows keeps the table exact, even when the table is ahead of the cursor. */
  lemma CommitEachOnce(cfg: Config, c: Chain, proc: Processor, rows: seq<Log>, inserted: seq<Log>, p: int, upTo: int)
    requires c.Valid() && EachOnce(cfg, c, proc, rows, p) && cfg.startHeight <= p < upTo && NoRowIn(rows, p, upTo)
    requires multiset(inserted) == multiset(Filter(LogsOf(c, p + 1, upTo + 1), proc.relevant))
    ensures EachOnce(cfg, c, proc, rows + inserted, upTo)
  {
    hide LogsOf, Filter, Exact, Chain.Valid;
    var d :| p <= d && Exact(cfg, c, proc, rows, d);
    if d <= upTo {
      ExactDown(cfg, c, proc, rows, d, p);
      ExactExtends(cfg, c, proc, rows, inserted, p, upTo);
    } else {
      NothingBetween(cfg, c, proc, rows, d, p, upTo);
      assert |multiset(inserted)| == 0;
      assert rows + inserted == rows;
    }
  }

  lemma CleanFinish(cfg: Config, c: Chain, proc: Processor, s: Pipe, a: PipeAction)
    requires cfg.Valid() && c.Valid() && PipeInv(cfg, c, proc, s)
    requires Clean(cfg, c, proc, s) && a.Finish? && !Repeats(s, a)
    ensures Clean(cfg, c, proc, PipeStep(cfg, proc, s, a))
  {
    hide Inv, Exact, Covered, Tiled, HandlerRows, Chain.Valid, NoRowIn, Numbers, CallsFor, EachOnce, LogsOf, Filter;
    if s.scan.On? && s.scan.pass.Some? && !a.fate.RollsBack? {
      InsertedExact(cfg, c, proc, s);
      hide Inserted;
      CommitEachOnce(cfg, c, proc, s.rows, Inserted(proc, s), s.scan.position, s.scan.pass.value.1);
      EachOnceDown(cfg, c, proc, s.rows + Inserted(proc, s), s.scan.position, s.scan.pass.value.1);
    }
  }

  lemma EachOnceDown(cfg: Config, c: Chain, proc: Processor, rows: seq<Log>, p: int, p': int)
    requires EachOnce(cfg, c, proc, rows, p') && p <= p'
    ensures EachOnce(cfg, c, proc, rows, p)
  {
    hide Exact;
  }

  lemma ReloadEachOnce(cfg: Config, c: Chain, proc: Processor, rows: seq<Log>, store: Store, p: int)
    requires c.Valid() && RowsStored(rows, store) && EachOnce(cfg, c, proc, rows, p)
    ensures Exact(cfg, c, proc, rows, Reload(cfg.startHeight, store, rows))
    ensures EachOnce(cfg, c, proc, rows, Reload(cfg.startHeight, store, rows))
  {
    hide Exact, Reload;
    var d :| p <= d && Exact(cfg, c, proc, rows, d);
    ReloadExact(cfg, c, proc, rows, store, d);
  }

  lemma CleanStep(cfg: Config, c: Chain, proc: Processor, s: Pipe, a: PipeAction)
    requires cfg.Valid() && c.Valid() && PipeInv(cfg, c, proc, s)
    requires Clean(cfg, c, proc, s) && !Repeats(s, a)
    ensures Clean(cfg, c, proc, PipeStep(cfg, proc, s, a))
  {
    if a.Finish? {
      CleanFinish(cfg, c, proc, s, a);
    } else {
      hide Inv, EachOnce, Step, Covered, Tiled, Reload, Chain.Valid, Repeats;
      if s.scan.On? {
        EachOnceDown(cfg, c, proc, s.rows, cfg.startHeight, s.scan.position);
      } else {
        ReloadEachOnce(cfg, c, proc, s.rows, s.sys.store, cfg.startHeight);
      }
    }
  }

  /** The number of times a log stands in the block it names. */
  function Occurrences(c: Chain, l: Log): nat {
    if l.blockHash.HeaderHash?
      && l.blockHash.header.number >= 0 then multiset(c.logs(l.blockHash.header.number))[l] else 0
  }

  lemma {:induction false} LogsCount(c: Chain, a: nat, b: nat, l: Log)
    requires c.Valid()
    ensures multiset(LogsOf(c, a, b))[l] ==
            if l.blockHash.HeaderHash? && a <= l.blockHash.header.number < b then Occurrences(c, l) else 0
  {
    if b <= a {
    } else {
      LogsCount(c, a, b - 1, l);
      if l in multiset(c.logs(b - 1)) {
        assert l in c.logs(b - 1);
      }
    }
  }

  /** A row occurs more often than its log. */
  ghost predicate Overfull(c: Chain, rows: seq<Log>) {
    exists l :: multiset(rows)[l] > Occurrences(c, l)
  }

  lemma ExactNotOverfull(cfg: Config, c: Chain, proc: Processor, rows: seq<Log>, d: int)
    requires c.Valid() && Exact(cfg, c, proc, rows, d)
    ensures !Overfull(c, rows)
  {
    hide LogsOf, Filter, Occurrences;
    forall l: Log
      ensures multiset(rows)[l] <= Occurrences(c, l)
    {
      FilterCount(LogsOf(c, cfg.startHeight + 1, d + 1), proc.relevant, l);
      LogsCount(c, cfg.startHeight + 1, d + 1, l);
    }
  }

  lemma RepeatsOverfills(cfg: Config, c: Chain, proc: Processor, s: Pipe, a: PipeAction)
    requires cfg.Valid() && c.Valid() && PipeInv(cfg, c, proc, s)
    requires Clean(cfg, c, proc, s) && Repeats(s, a)
    ensures Overfull(c, PipeStep(cfg, proc, s, a).rows)
  {
    hide Inv, Covered, Tiled, HandlerRows, Chain.Valid, LogsOf, Filter, Occurrences, CallsFor, Numbers, Inserted;
    InsertedExact(cfg, c, proc, s);
    var upTo := s.scan.pass.value.1;
    var l :| l in s.rows && l.blockHash.HeaderHash? && s.scan.position < l.blockHash.header.number <= upTo;
    var d :| s.scan.position <= d && Exact(cfg, c, proc, s.rows, d);
    InsertedPlaced(c, proc, s.rows, cfg.startHeight, d, l);
    FilterCount(LogsOf(c, cfg.startHeight + 1, d + 1), proc.relevant, l);
    LogsCount(c, cfg.startHeight + 1, d + 1, l);
    FilterCount(LogsOf(c, s.scan.position + 1, upTo + 1), proc.relevant, l);
    LogsCount(c, s.scan.position + 1, upTo + 1, l);
    assert multiset(s.rows)[l] > 0;
    assert multiset(s.rows + Inserted(proc, s))[l] == multiset(s.rows)[l] + multiset(Inserted(proc, s))[l];
  }

  lemma OverfullStays(cfg: Config, c: Chain, proc: Processor, s: Pipe, a: PipeAction)
    requires cfg.Valid() && Overfull(c, s.rows)
    ensures Overfull(c, PipeStep(cfg, proc, s, a).rows)
  {
    var l :| multiset(s.rows)[l] > Occurrences(c, l);
    assert multiset(PipeStep(cfg, proc, s, a).rows)[l] >= multiset(s.rows)[l];
  }

  ghost predicate NoRepeats(cfg: Config, proc: Processor, actions: seq<PipeAction>)
    requires cfg.Valid()
  {
    forall k :: 0 <= k < |actions| ==> !Repeats(PipeRun(cfg, proc, PIPE_INIT, actions[..k]), actions[k])
  }

  /**
    A run leaves each relevant log stored once, or some log stored too often, according to whether
    a pass repeats rows.
   */
  lemma {:induction false} CleanOrOverfull(cfg: Config, c: Chain, proc: Processor, actions: seq<PipeAction>)
    requires cfg.Valid() && c.Valid()
    requires forall a :: a in actions ==> HonestPipeAction(c, a)
    ensures var s := PipeRun(cfg, proc, PIPE_INIT, actions);
            if NoRepeats(cfg, proc, actions) then Clean(cfg, c, proc, s) else Overfull(c, s.rows)
  {
    if actions == [] {
      assert Filter([], proc.relevant) == [];
      assert Exact(cfg, c, proc, [], cfg.startHeight);
    } else {
      hide PipeStep, PipeInv, Clean, Overfull, Repeats;
      var n := |actions| - 1;
      var before := PipeRun(cfg, proc, PIPE_INIT, actions[..n]);
      CleanOrOverfull(cfg, c, proc, actions[..n]);
      PipeRunKeeps(cfg, c, proc, actions[..n]);
      NoRepeatsSnoc(cfg, proc, actions);
      if !NoRepeats(cfg, proc, actions[..n]) {
        OverfullStays(cfg, c, proc, before, actions[n]);
      } else if Repeats(before, actions[n]) {
        RepeatsOverfills(cfg, c, proc, before, actions[n]);
      } else {
        CleanStep(cfg, c, proc, before, actions[n]);
      }
    }
  }

  lemma NoRepeatsSnoc(cfg: Config, proc: Processor, actions: seq<PipeAction>)
    requires cfg.Valid() && actions != []
    ensures var n := |actions| - 1;
            NoRepeats(cfg, proc, actions) <==>
            NoRepeats(cfg, proc, actions[..n]) && !Repeats(PipeRun(cfg, proc, PIPE_INIT, actions[..n]), actions[n])
  {
    hide PipeRun, Repeats;
    var n := |actions| - 1;
    forall k | 0 <= k < n
      ensures actions[..n][k] == actions[k] && actions[..n][..k] == actions[..k]
    {
    }
  }
}
