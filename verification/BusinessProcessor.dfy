/** The withdrawal loops as the database and the business processor run them, without interference. */
module BusinessProcessor {
  import opened Wrappers
  import opened BigInt
  import opened Seqs
  import opened Withdrawals
  import opened WithdrawalRuns

  /** The partial records the processor passes to the marking loops. */
  datatype Record = Record(h: Hash, block: nat, tx: nat)

  function RecordsFor(events: map<Hash, EventRow>, hashes: seq<Hash>): (records: seq<Record>)
    requires forall h :: h in hashes ==> h in events
    ensures |records| == |hashes|
    ensures forall i :: 0 <= i < |hashes| ==>
              records[i] == Record(hashes[i], events[hashes[i]].block, events[hashes[i]].tx)
  {
    seq(|hashes|, i requires 0 <= i < |hashes| =>
      assert hashes[i] in hashes; Record(hashes[i], events[hashes[i]].block, events[hashes[i]].tx))
  }

  function OpsOf(kind: Kind, records: seq<Record>): (ops: seq<Op>)
    ensures |ops| == |records|
    ensures forall i :: 0 <= i < |records| ==> ops[i] == Op(kind, records[i].h, records[i].block, records[i].tx)
  {
    seq(|records|, i requires 0 <= i < |records| => Op(kind, records[i].h, records[i].block, records[i].tx))
  }

  /** The loops' iterations in order, each loop leaving early when it does not find its row. */
  function ApplyOps(t: Tables, ops: seq<Op>): Tables
    decreases |ops|
  {
    if ops == [] then t
    else
      var op := ops[0];
      if op.kind.Marks() then
        if Skipped(op.block) then ApplyOps(t, ops[1..])
        else if op.h !in t.rows then ApplyOps(t, AfterLoop(op.kind, ops))
        else ApplyOps(t.(rows := t.rows[op.h := Marked(op, t.rows[op.h])]), ops[1..])
      else if op.h !in EventsOf(t, op.kind) then ApplyOps(t, AfterLoop(op.kind, ops))
      else ApplyOps(RelateEvent(t, op), ops[1..])
  }

  function Looked(rows: map<Hash, Row>, lookupOk: Hash -> bool): Hash -> bool {
    (h: Hash) => h in rows && lookupOk(h)
  }

  /** The events of the list whose withdrawal row was found. */
  function Found(rows: map<Hash, Row>, list: seq<Hash>, lookupOk: Hash -> bool): seq<Hash> {
    Filter(list, Looked(rows, lookupOk))
  }

  ghost predicate Lists(records: seq<Record>, h: Hash) {
    exists r :: r in records && r.h == h
  }

  ghost predicate CarryEvents(records: seq<Record>, events: map<Hash, EventRow>) {
    forall r :: r in records ==> r.h in events && r.block == events[r.h].block && r.tx == events[r.h].tx
  }

  lemma RecordsForLists(events: map<Hash, EventRow>, hashes: seq<Hash>)
    requires forall h :: h in hashes ==> h in events
    ensures CarryEvents(RecordsFor(events, hashes), events)
    ensures forall h :: Lists(RecordsFor(events, hashes), h) <==> h in hashes
  {
    var records := RecordsFor(events, hashes);
    forall h | h in hashes
      ensures Lists(records, h)
    {
      var i :| 0 <= i < |hashes| && hashes[i] == h;
      assert records[i] in records;
    }
    forall r | r in records
      ensures r.h in hashes && r.block == events[r.h].block && r.tx == events[r.h].tx
    {
      var i :| 0 <= i < |records| && records[i] == r;
    }
  }

  lemma PartitionLists(rows: map<Hash, Row>, events: map<Hash, EventRow>, list: seq<Hash>, lookupOk: Hash -> bool)
    requires forall h :: h in list ==> h in events
    ensures forall h :: h in Found(rows, list, lookupOk) ==> h in list
    ensures var v1 := Filter(Found(rows, list, lookupOk), VersionNotZero(rows));
            && (forall h :: h in v1 ==> h in events)
            && CarryEvents(RecordsFor(events, v1), events)
            && (forall h :: Lists(RecordsFor(events, v1), h) <==>
                  h in list && h in rows && lookupOk(h) && rows[h].version != 0)
    ensures var v0 := Filter(Found(rows, list, lookupOk), VersionIsZero(rows));
            && (forall h :: h in v0 ==> h in events)
            && CarryEvents(RecordsFor(events, v0), events)
            && (forall h :: Lists(RecordsFor(events, v0), h) <==>
                  h in list && h in rows && lookupOk(h) && rows[h].version == 0)
  {
    hide Found, Filter, Lists, CarryEvents;
    FoundIs(rows, list, lookupOk);
    FilterSubset(Found(rows, list, lookupOk), VersionNotZero(rows));
    FilterSubset(Found(rows, list, lookupOk), VersionIsZero(rows));
    RecordsForLists(events, Filter(Found(rows, list, lookupOk), VersionNotZero(rows)));
    RecordsForLists(events, Filter(Found(rows, list, lookupOk), VersionIsZero(rows)));
  }

  /** The work lists of one half: the listed events with a found row, by the version of their withdrawal. */
  method Partition(rows: map<Hash, Row>, events: map<Hash, EventRow>, list: seq<Hash>, lookupOk: Hash -> bool)
    returns (records: seq<Record>, recordsV0: seq<Record>)
    requires forall h :: h in list ==> h in events
    ensures forall h :: h in Found(rows, list, lookupOk) ==> h in list
    ensures forall h :: h in Filter(Found(rows, list, lookupOk), VersionNotZero(rows)) ==> h in events
    ensures forall h :: h in Filter(Found(rows, list, lookupOk), VersionIsZero(rows)) ==> h in events
    ensures records == RecordsFor(events, Filter(Found(rows, list, lookupOk), VersionNotZero(rows)))
    ensures recordsV0 == RecordsFor(events, Filter(Found(rows, list, lookupOk), VersionIsZero(rows)))
    ensures CarryEvents(records, events) && CarryEvents(recordsV0, events)
    ensures forall h :: Lists(records, h) <==> h in list && h in rows && lookupOk(h) && rows[h].version != 0
    ensures forall h :: Lists(recordsV0, h) <==> h in list && h in rows && lookupOk(h) && rows[h].version == 0
  {
    hide Filter, Lists, CarryEvents;
    FilterNothing(list[..0], Looked(rows, lookupOk), VersionNotZero(rows));
    FilterNothing(list[..0], Looked(rows, lookupOk), VersionIsZero(rows));
    records, recordsV0 := [], [];
    ghost var v1: seq<Hash> := [];
    ghost var v0: seq<Hash> := [];
    for i := 0 to |list|
      invariant v1 == Filter(Found(rows, list[..i], lookupOk), VersionNotZero(rows))
      invariant v0 == Filter(Found(rows, list[..i], lookupOk), VersionIsZero(rows))
      invariant forall h :: h in v1 || h in v0 ==> h in events
      invariant records == RecordsFor(events, v1) && recordsV0 == RecordsFor(events, v0)
    {
      var h := list[i];
      assert list[..i + 1] == list[..i] + [h];
      FilterTwicePush(list[..i], h, Looked(rows, lookupOk), VersionNotZero(rows));
      FilterTwicePush(list[..i], h, Looked(rows, lookupOk), VersionIsZero(rows));
      if h in rows && lookupOk(h) {
        if rows[h].version != 0 {
          records := records + [Record(h, events[h].block, events[h].tx)];
          v1 := v1 + [h];
        } else {
          recordsV0 := recordsV0 + [Record(h, events[h].block, events[h].tx)];
          v0 := v0 + [h];
        }
      }
    }
    assert list[..|list|] == list;
    PartitionLists(rows, events, list, lookupOk);
    hide Found, RecordsFor, Looked;
  }

  lemma FilterNothing(s: seq<Hash>, p: Hash -> bool, q: Hash -> bool)
    requires s == []
    ensures Filter(Filter(s, p), q) == []
  {
  }

  lemma FilterTwicePush(s: seq<Hash>, h: Hash, p: Hash -> bool, q: Hash -> bool)
    ensures Filter(Filter(s + [h], p), q) ==
            if p(h) && q(h) then Filter(Filter(s, p), q) + [h] else Filter(Filter(s, p), q)
  {
    FilterSnoc(s, h, p);
    if p(h) {
      FilterSnoc(Filter(s, p), h, q);
    } else {
      assert Filter(s + [h], p) == Filter(s, p);
    }
  }

  lemma {:induction false} AfterUniform(kind: Kind, ops: seq<Op>)
    requires forall op :: op in ops ==> op.kind == kind
    ensures AfterLoop(kind, ops) == []
  {
    if ops == [] {
    } else {
      AfterUniform(kind, ops[1..]);
    }
  }

  lemma {:induction false} AfterConcat(kind: Kind, a: seq<Op>, b: seq<Op>)
    requires a != [] && (b == [] || b[0].kind != a[|a| - 1].kind)
    ensures AfterLoop(kind, a + b) == AfterLoop(kind, a) + b
    ensures AfterLoop(kind, a) != [] ==> AfterLoop(kind, a)[|AfterLoop(kind, a)| - 1] == a[|a| - 1]
    decreases |a|
  {
    assert (a + b)[0] == a[0] && (a + b)[1..] == a[1..] + b;
    if a[0].kind == kind && |a| > 1 {
      AfterConcat(kind, a[1..], b);
    } else if a[0].kind == kind {
      assert a[1..] + b == b;
    }
  }

  /** Loops of different kinds run one after the other: an early return leaves only its own loop. */
  lemma {:induction false} ApplyConcat(t: Tables, a: seq<Op>, b: seq<Op>)
    requires a == [] || b == [] || b[0].kind != a[|a| - 1].kind
    ensures ApplyOps(t, a + b) == ApplyOps(ApplyOps(t, a), b)
    decreases |a|
  {
    if a == [] {
      assert a + b == b;
    } else {
      var op := a[0];
      assert (a + b)[0] == op && (a + b)[1..] == a[1..] + b;
      AfterConcat(op.kind, a, b);
      if op.kind.Marks() {
        if Skipped(op.block) {
          ApplyConcat(t, a[1..], b);
        } else if op.h !in t.rows {
          ApplyConcat(t, AfterLoop(op.kind, a), b);
        } else {
          ApplyConcat(t.(rows := t.rows[op.h := Marked(op, t.rows[op.h])]), a[1..], b);
        }
      } else if op.h !in EventsOf(t, op.kind) {
        ApplyConcat(t, AfterLoop(op.kind, a), b);
      } else {
        ApplyConcat(RelateEvent(t, op), a[1..], b);
      }
    }
  }

  /** A marking loop and then a relating loop over the same records is the block of both. */
  lemma BlockApplies(t: Tables, mark: Kind, relate: Kind, events: map<Hash, EventRow>, hashes: seq<Hash>)
    requires mark.Marks() && !relate.Marks()
    requires forall h :: h in hashes ==> h in events
    ensures var records := RecordsFor(events, hashes);
            ApplyOps(ApplyOps(t, OpsOf(mark, records)), OpsOf(relate, records)) ==
            ApplyOps(t, MarkThenRelate(mark, relate, events, hashes))
  {
    var records := RecordsFor(events, hashes);
    assert OpsOf(mark, records) == OpsFor(mark, events, hashes);
    assert OpsOf(relate, records) == OpsFor(relate, events, hashes);
    ApplyConcat(t, OpsFor(mark, events, hashes), OpsFor(relate, events, hashes));
  }

  // ---------------------------------------------------------------------------------------
  // The loops and the transition system
  // ---------------------------------------------------------------------------------------

  function StatementsOf(op: Op): seq<Action> {
    if !op.kind.Marks() then [RelateRow] else if Skipped(op.block) then [TakeRow] else [TakeRow, SaveRow]
  }

  /** The statements of a list of iterations. */
  function Statements(ops: seq<Op>): seq<Action> {
    if ops == [] then [] else StatementsOf(ops[0]) + Statements(ops[1..])
  }

  ghost predicate AllFound(t: Tables, ops: seq<Op>) {
    forall op :: op in ops ==> op.h in t.rows && op.h in EventsOf(t, op.kind)
  }

  /** The tables after one iteration that finds its row. */
  function ApplyOne(t: Tables, op: Op): Tables
    requires op.h in t.rows
  {
    if !op.kind.Marks() then RelateEvent(t, op)
    else if Skipped(op.block) then t
    else t.(rows := t.rows[op.h := Marked(op, t.rows[op.h])])
  }

  lemma RunOne(w: World, a: Action)
    ensures Run(w, [a]) == Step(w, a)
  {
    RunUnroll(w, [], a);
  }

  lemma RunTwo(w: World, a: Action, b: Action)
    ensures Run(w, [a, b]) == Step(Step(w, a), b)
  {
    RunOne(w, a);
    RunUnroll(w, [a], b);
    hide Step;
    assert [a] + [b] == [a, b];
  }

  lemma OneIteration(t: Tables, ops: seq<Op>)
    requires ops != [] && ops[0].h in t.rows && ops[0].h in EventsOf(t, ops[0].kind)
    ensures ApplyOps(t, [ops[0]]) == ApplyOne(t, ops[0])
    ensures ApplyOps(t, ops) == ApplyOps(ApplyOne(t, ops[0]), ops[1..])
  {
  }

  lemma OneStatement(t: Tables, half: Half, ops: seq<Op>, due: bool)
    requires ops != [] && AllFound(t, ops)
    ensures var t1 := ApplyOps(t, [ops[0]]);
            && Run(World(t, Working(half, ops, None), due), StatementsOf(ops[0])) ==
               World(t1, Working(half, ops[1..], None), due)
            && ApplyOps(t, ops) == ApplyOps(t1, ops[1..])
            && AllFound(t1, ops[1..])
  {
    hide Run, ApplyOps, Skipped, Marked;
    assert ops[0] in ops;
    OneIteration(t, ops);
    var w := World(t, Working(half, ops, None), due);
    RunOne(w, RelateRow);
    RunOne(w, TakeRow);
    RunTwo(w, TakeRow, SaveRow);
  }

  /** Without interference the statements of a half leave exactly what its loops compute. */
  lemma {:induction false} LoopsAreARun(t: Tables, half: Half, ops: seq<Op>, due: bool)
    requires AllFound(t, ops)
    ensures Run(World(t, Working(half, ops, None), due), Statements(ops)) ==
            World(ApplyOps(t, ops), Working(half, [], None), due)
    decreases |ops|
  {
    if ops == [] {
    } else {
      OneStatement(t, half, ops, due);
      LoopsAreARun(ApplyOps(t, [ops[0]]), half, ops[1..], due);
      var n := |StatementsOf(ops[0])|;
      RunSplit(World(t, Working(half, ops, None), due), Statements(ops), n);
      assert Statements(ops)[..n] == StatementsOf(ops[0]) && Statements(ops)[n..] == Statements(ops[1..]);
    }
  }

  ghost predicate HasMark(ops: seq<Op>, h: Hash) {
    exists op :: op in ops && op.kind.Marks() && op.h == h && !Skipped(op.block)
  }

  ghost predicate HasRelate(ops: seq<Op>, h: Hash) {
    exists op :: op in ops && !op.kind.Marks() && op.h == h
  }

  function MarkOf(t: Tables, mark: Kind, h: Hash): Op
    requires h in EventsOf(t, mark)
  {
    Op(mark, h, EventsOf(t, mark)[h].block, EventsOf(t, mark)[h].tx)
  }

  /** A row once the iterations that mark it, if any, have run. */
  function RowAfter(t: Tables, mark: Kind, h: Hash, marks: bool): Row
    requires h in t.rows
  {
    if h in EventsOf(t, mark) && marks then Marked(MarkOf(t, mark, h), t.rows[h]) else t.rows[h]
  }

  /** What a half of a round leaves when nothing interferes, row by row and event by event. */
  ghost predicate Effect(t: Tables, ops: seq<Op>, mark: Kind, t': Tables) {
    && t'.rows.Keys == t.rows.Keys
    && EventsOf(t', mark).Keys == EventsOf(t, mark).Keys
    && (forall h :: h in t.rows ==>
          t'.rows[h] == RowAfter(t, mark, h, HasMark(ops, h)))
    && (forall h :: h in EventsOf(t, mark) ==>
          EventsOf(t', mark)[h] ==
            if HasRelate(ops, h) then EventsOf(t, mark)[h].(related := true) else EventsOf(t, mark)[h])
  }

  lemma HasCons(ops: seq<Op>, h: Hash)
    requires ops != []
    ensures HasMark(ops, h) <==>
            (ops[0].kind.Marks() && ops[0].h == h && !Skipped(ops[0].block)) || HasMark(ops[1..], h)
    ensures HasRelate(ops, h) <==> (!ops[0].kind.Marks() && ops[0].h == h) || HasRelate(ops[1..], h)
  {
    assert forall op :: op in ops <==> op == ops[0] || op in ops[1..];
  }

  /** An iteration keeps which rows and events there are and what the events say. */
  lemma ApplyOneKeeps(t: Tables, op: Op, ops: seq<Op>)
    requires OpOk(t, op)
    requires forall o :: o in ops ==> OpOk(t, o)
    ensures forall o :: o in ops ==> OpOk(ApplyOne(t, op), o)
  {
  }

  lemma RowCons(t: Tables, op: Op, mark: Kind, h: Hash, later: bool)
    requires mark.Marks() && OpOk(t, op) && op.kind.Marking() == mark && h in t.rows
    ensures var t1 := ApplyOne(t, op);
            var now := op.kind.Marks() && op.h == h && !Skipped(op.block);
            && t1.rows.Keys == t.rows.Keys
            && EventsOf(t1, mark).Keys == EventsOf(t, mark).Keys
            && RowAfter(t1, mark, h, later) == RowAfter(t, mark, h, now || later)
  {
    hide Skipped;
  }

  lemma EventCons(t: Tables, op: Op, mark: Kind, h: Hash)
    requires mark.Marks() && OpOk(t, op) && op.kind.Marking() == mark && h in EventsOf(t, mark)
    ensures EventsOf(ApplyOne(t, op), mark)[h] ==
            if !op.kind.Marks() && op.h == h then EventsOf(t, mark)[h].(related := true) else EventsOf(t, mark)[h]
  {
    hide Skipped, Marked;
  }

  lemma EffectCons(t: Tables, ops: seq<Op>, mark: Kind, t': Tables)
    requires mark.Marks() && ops != [] && OpOk(t, ops[0]) && ops[0].kind.Marking() == mark
    requires Effect(ApplyOne(t, ops[0]), ops[1..], mark, t')
    ensures Effect(t, ops, mark, t')
  {
    assert ops[0].h in t.rows;
    hide HasMark, HasRelate, ApplyOne, EventsOf, Marked, Skipped, RowAfter, OpOk;
    RowCons(t, ops[0], mark, ops[0].h, false);
    forall h | h in t.rows
      ensures t'.rows[h] == RowAfter(t, mark, h, HasMark(ops, h))
    {
      HasCons(ops, h);
      RowCons(t, ops[0], mark, h, HasMark(ops[1..], h));
    }
    forall h | h in EventsOf(t, mark)
      ensures EventsOf(t', mark)[h] ==
              if HasRelate(ops, h) then EventsOf(t, mark)[h].(related := true) else EventsOf(t, mark)[h]
    {
      HasCons(ops, h);
      EventCons(t, ops[0], mark, h);
    }
  }

  lemma {:induction false} OpsEffect(t: Tables, ops: seq<Op>, mark: Kind)
    requires mark.Marks()
    requires forall op :: op in ops ==> OpOk(t, op) && op.kind.Marking() == mark
    ensures Effect(t, ops, mark, ApplyOps(t, ops))
    decreases |ops|
  {
    if ops != [] {
      hide Effect;
      assert ops[0] in ops;
      ApplyOneKeeps(t, ops[0], ops[1..]);
      OpsEffect(ApplyOne(t, ops[0]), ops[1..], mark);
      EffectCons(t, ops, mark, ApplyOps(t, ops));
    } else {
      assert !exists op :: op in ops;
    }
  }

  lemma TodoHas(t: Tables, found: seq<Hash>, h: Hash)
    requires Markable(t.rows, t.proven, found) && h in t.proven
    ensures HasRelate(ProvenTodo(t, found), h) <==> h in found
    ensures HasMark(ProvenTodo(t, found), h) <==> h in found && !Skipped(t.proven[h].block)
  {
    hide ProvenTodo, Skipped;
    ProvenTodoOk(t, found);
    if h in found {
      assert Op(MarkProven, h, t.proven[h].block, t.proven[h].tx) in ProvenTodo(t, found);
    }
  }

  /** Iterations on one event table leave the other one alone. */
  lemma {:induction false} OpsKeepOther(t: Tables, ops: seq<Op>, mark: Kind)
    requires forall op :: op in ops ==> op.kind.Marking() == mark
    ensures mark.MarkProven? ==> ApplyOps(t, ops).finalized == t.finalized
    ensures mark.MarkFinal? ==> ApplyOps(t, ops).proven == t.proven
    decreases |ops|
  {
    if ops == [] {
    } else {
      var op := ops[0];
      assert op in ops && forall o :: o in ops[1..] ==> o in ops;
      AfterIsSuffix(op.kind, ops);
      if op.kind.Marks() {
        if Skipped(op.block) {
          OpsKeepOther(t, ops[1..], mark);
        } else if op.h !in t.rows {
          OpsKeepOther(t, AfterLoop(op.kind, ops), mark);
        } else {
          OpsKeepOther(t.(rows := t.rows[op.h := Marked(op, t.rows[op.h])]), ops[1..], mark);
        }
      } else if op.h !in EventsOf(t, op.kind) {
        OpsKeepOther(t, AfterLoop(op.kind, ops), mark);
      } else {
        OpsKeepOther(RelateEvent(t, op), ops[1..], mark);
      }
    }
  }

  lemma {:induction false} AfterIsSuffix(kind: Kind, ops: seq<Op>)
    ensures forall op :: op in AfterLoop(kind, ops) ==> op in ops
  {
    if ops == [] {
    } else {
      AfterIsSuffix(kind, ops[1..]);
    }
  }

  /** A loop that does not find a row stops there: the iterations before it count, the later ones do not. */
  lemma {:induction false} LoopStopsAtMissing(t: Tables, ops: seq<Op>, i: nat)
    requires i < |ops| && forall op :: op in ops ==> op.kind == ops[0].kind
    requires forall j :: 0 <= j < i ==> ops[j].h in t.rows && ops[j].h in EventsOf(t, ops[j].kind)
    requires if ops[i].kind.Marks() then !Skipped(ops[i].block)
             && ops[i].h !in t.rows else ops[i].h !in EventsOf(t, ops[i].kind)
    ensures ApplyOps(t, ops) == ApplyOps(t, ops[..i])
    decreases i
  {
    assert ops[i] in ops && ops[0] in ops;
    if i == 0 {
      AfterUniform(ops[0].kind, ops);
    } else {
      var op := ops[0];
      assert forall o :: o in ops[1..] ==> o in ops;
      assert ops[1] in ops;
      assert ops[..i][1..] == ops[1..][..i - 1];
      assert ops[1..][i - 1] == ops[i];
      OneIteration(t, ops);
      OneIteration(t, ops[..i]);
      LoopStopsAtMissing(ApplyOne(t, op), ops[1..], i - 1);
    }
  }

  /**
    An undisturbed proven half relates every found event, marks exactly the rows of the found
    events whose block number has a non-zero low word, and leaves every other row as it was.
   */
  lemma ProvenHalfMarks(t: Tables, found: seq<Hash>)
    requires Markable(t.rows, t.proven, found)
    ensures var t' := ApplyOps(t, ProvenTodo(t, found));
            && t'.rows.Keys == t.rows.Keys && t'.proven.Keys == t.proven.Keys
            && (forall h :: h in t.proven ==>
                  t'.proven[h] == t.proven[h].(related := t.proven[h].related || h in found))
            && (forall h :: h in t.rows ==>
                  t'.rows[h] ==
                    if h in found && !Skipped(t.proven[h].block) then Marked(MarkOf(t, MarkProven, h), t.rows[h])
                                else t.rows[h])
  {
    hide HasMark, HasRelate, ApplyOps, ProvenTodo, Skipped;
    ProvenTodoOk(t, found);
    var todo := ProvenTodo(t, found);
    OpsEffect(t, todo, MarkProven);
    forall h | h in t.proven
      ensures HasRelate(todo, h) <==> h in found
      ensures HasMark(todo, h) <==> h in found && !Skipped(t.proven[h].block)
    {
      TodoHas(t, found, h);
    }
    hide Marked, RelatesAfterMarks, OpOk;
  }

  /** The same for the version-1 events of a finalized half. */
  lemma FinalHalfMarks(t: Tables, found: seq<Hash>)
    requires Markable(t.rows, t.finalized, found)
    ensures var t' := ApplyOps(t, FinalTodo(t, found));
            && t'.rows.Keys == t.rows.Keys && t'.finalized.Keys == t.finalized.Keys
            && (forall h :: h in t.finalized ==>
                  t'.finalized[h] == t.finalized[h].(related :=
                    t.finalized[h].related || (h in found && t.rows[h].version != 0)))
            && (forall h :: h in t.rows ==>
                  t'.rows[h] ==
                    if h in found && t.rows[h].version != 0 && !Skipped(t.finalized[h].block)
                    then Marked(MarkOf(t, MarkFinal, h), t.rows[h]) else t.rows[h])
  {
    hide HasMark, HasRelate, ApplyOps, FinalTodo, Skipped;
    FinalTodoOk(t, found);
    var todo := FinalTodo(t, found);
    OpsEffect(t, todo, MarkFinal);
    forall h | h in t.finalized
      ensures HasRelate(todo, h) <==> h in found && t.rows[h].version != 0
      ensures HasMark(todo, h) <==> h in found && t.rows[h].version != 0 && !Skipped(t.finalized[h].block)
    {
      FinalTodoHas(t, found, h);
    }
    hide Marked, RelatesAfterMarks, OpOk;
  }

  lemma FinalTodoHas(t: Tables, found: seq<Hash>, h: Hash)
    requires Markable(t.rows, t.finalized, found) && h in t.finalized
    ensures HasRelate(FinalTodo(t, found), h) <==> h in found && t.rows[h].version != 0
    ensures HasMark(FinalTodo(t, found), h) <==>
            h in found && t.rows[h].version != 0 && !Skipped(t.finalized[h].block)
  {
    hide FinalTodo, Skipped;
    FinalTodoOk(t, found);
    if h in found && t.rows[h].version != 0 {
      assert Op(MarkFinal, h, t.finalized[h].block, t.finalized[h].tx) in FinalTodo(t, found);
    }
  }

  /** The events of a list that a half works on: their withdrawal row exists and its lookup succeeds. */
  lemma FoundIs(rows: map<Hash, Row>, list: seq<Hash>, lookupOk: Hash -> bool)
    ensures forall h :: h in Found(rows, list, lookupOk) <==> h in list && h in rows && lookupOk(h)
  {
    FilterSubset(list, Looked(rows, lookupOk));
  }

  function ProvenMark(t: Tables, h: Hash): Row
    requires h in t.rows && h in t.proven
  {
    t.rows[h].(l1Block := t.proven[h].block, proveTx := t.proven[h].tx,
               status := if Uint64(t.rows[h].timeLeft) > 0 then 2 else 3)
  }

  lemma ProvenMarkIs(t: Tables, h: Hash)
    requires h in t.rows && h in t.proven
    ensures Marked(MarkOf(t, MarkProven, h), t.rows[h]) == ProvenMark(t, h)
  {
  }

  lemma ProvenTodoKeepsOther(t: Tables, found: seq<Hash>)
    requires Markable(t.rows, t.proven, found)
    ensures ApplyOps(t, ProvenTodo(t, found)).finalized == t.finalized
  {
    hide ApplyOps, ProvenTodo, RelatesAfterMarks;
    ProvenTodoOk(t, found);
    OpsKeepOther(t, ProvenTodo(t, found), MarkProven);
  }

  lemma ProvenOutcome(t: Tables, list: seq<Hash>, lookupOk: Hash -> bool)
    requires forall h :: h in list ==> h in t.proven && !t.proven[h].related
    ensures Markable(t.rows, t.proven, Found(t.rows, list, lookupOk))
    ensures var t' := ApplyOps(t, ProvenTodo(t, Found(t.rows, list, lookupOk)));
            && t'.finalized == t.finalized && t'.proven.Keys == t.proven.Keys && t'.rows.Keys == t.rows.Keys
            && (forall h :: h in t.proven ==>
                  t'.proven[h] == t.proven[h].(related :=
                    t.proven[h].related || (h in list && h in t.rows && lookupOk(h))))
            && (forall h :: h in t.rows ==>
                  t'.rows[h] ==
                    if h in list && lookupOk(h) && Uint64(t.proven[h].block) > 0
                    then t.rows[h].(l1Block := t.proven[h].block, proveTx := t.proven[h].tx,
                                    status := if Uint64(t.rows[h].timeLeft) > 0 then 2 else 3)
                    else t.rows[h])
  {
    hide ApplyOps, ProvenTodo, Found, Uint64, Marked, RelatesAfterMarks;
    var found := Found(t.rows, list, lookupOk);
    FoundIs(t.rows, list, lookupOk);
    ProvenHalfMarks(t, found);
    ProvenTodoKeepsOther(t, found);
    forall h | h in t.rows && h in t.proven
      ensures Marked(MarkOf(t, MarkProven, h), t.rows[h]) == ProvenMark(t, h)
    {
      ProvenMarkIs(t, h);
    }
    hide MarkOf, EventsOf;
  }

  function FinalMark(t: Tables, h: Hash): Row
    requires h in t.rows && h in t.finalized
  {
    t.rows[h].(l1Block := t.finalized[h].block, finalizeTx := t.finalized[h].tx, status := 4)
  }

  lemma FinalMarkIs(t: Tables, h: Hash)
    requires h in t.rows && h in t.finalized
    ensures Marked(MarkOf(t, MarkFinal, h), t.rows[h]) == FinalMark(t, h)
  {
  }

  lemma FinalTodoKeepsOther(t: Tables, found: seq<Hash>)
    requires Markable(t.rows, t.finalized, found)
    ensures ApplyOps(t, FinalTodo(t, found)).proven == t.proven
  {
    hide ApplyOps, FinalTodo, RelatesAfterMarks;
    FinalTodoOk(t, found);
    OpsKeepOther(t, FinalTodo(t, found), MarkFinal);
  }

  lemma FinalOutcome(t: Tables, list: seq<Hash>, lookupOk: Hash -> bool)
    requires forall h :: h in list ==> h in t.finalized && !t.finalized[h].related
    ensures Markable(t.rows, t.finalized, Found(t.rows, list, lookupOk))
    ensures var t' := ApplyOps(t, FinalTodo(t, Found(t.rows, list, lookupOk)));
            && t'.proven == t.proven && t'.finalized.Keys == t.finalized.Keys && t'.rows.Keys == t.rows.Keys
            && (forall h :: h in t.finalized ==>
                  t'.finalized[h] == t.finalized[h].(related :=
                    t.finalized[h].related || (h in list && h in t.rows && lookupOk(h) && t.rows[h].version != 0)))
            && (forall h :: h in t.rows ==>
                  t'.rows[h] ==
                    if h in list && lookupOk(h) && t.rows[h].version != 0 && Uint64(t.finalized[h].block) > 0
                    then t.rows[h].(l1Block := t.finalized[h].block, finalizeTx := t.finalized[h].tx, status := 4)
                    else t.rows[h])
  {
    hide ApplyOps, FinalTodo, Found, Uint64, Marked, RelatesAfterMarks;
    var found := Found(t.rows, list, lookupOk);
    FoundIs(t.rows, list, lookupOk);
    FinalHalfMarks(t, found);
    FinalTodoKeepsOther(t, found);
    forall h | h in t.rows && h in t.finalized
      ensures Marked(MarkOf(t, MarkFinal, h), t.rows[h]) == FinalMark(t, h)
    {
      FinalMarkIs(t, h);
    }
    hide MarkOf, EventsOf;
  }

  class WithdrawalDB {
    var rows: map<Hash, Row>
    var proven: map<Hash, EventRow>
    var finalized: map<Hash, EventRow>

    constructor ()
      ensures View() == Tables(map[], map[], map[])
    {
      rows, proven, finalized := map[], map[], map[];
    }

    function View(): Tables
      reads this
    {
      Tables(rows, proven, finalized)
    }

    /** Only pending rows at or below the state root change, and they become ready with the whole window. */
    method UpdateReadyForProvedStatus(l2Block: nat, window: nat)
      modifies this`rows
      ensures rows == ReadyRows(old(rows), l2Block, window)
      ensures rows.Keys == old(rows.Keys)
      ensures forall h :: h in rows ==>
                if old(rows)[h].status == PENDING && old(rows)[h].l2Block <= l2Block
                then rows[h] == old(rows)[h].(status := READY_FOR_PROVED, timeLeft := window)
                else rows[h] == old(rows)[h]
    {
      rows := map h | h in rows :: if rows[h].l2Block <= l2Block && rows[h].status == PENDING
                                   then rows[h].(status := READY_FOR_PROVED, timeLeft := window) else rows[h];
    }

    /** One uninterrupted tick: one second less, and ready for claim exactly when none is left. */
    method UpdateTimeLeft()
      modifies this`rows
      ensures rows == SweepRows(CountDownRows(old(rows)))
      ensures rows.Keys == old(rows.Keys)
      ensures forall h :: h in rows ==>
                if old(rows)[h].status != IN_CHALLENGE_PERIOD then rows[h] == old(rows)[h]
                else if old(rows)[h].timeLeft <= 1
                then rows[h] == old(rows)[h].(timeLeft := 0, status := READY_FOR_CLAIM)
                else rows[h] == old(rows)[h].(timeLeft := old(rows)[h].timeLeft - 1)
    {
      rows := CountDownRows(rows);
      rows := SweepRows(rows);
    }

    method MarkWithdrawalProven(l2L1List: seq<Record>)
      modifies this
      ensures View() == ApplyOps(old(View()), OpsOf(MarkProven, l2L1List))
    {
      Mark(MarkProven, l2L1List);
    }

    method MarkWithdrawalFinalized(l2L1List: seq<Record>)
      modifies this
      ensures View() == ApplyOps(old(View()), OpsOf(MarkFinal, l2L1List))
    {
      Mark(MarkFinal, l2L1List);
    }

    /** The loop shared by the two marking functions, which differ in the fields they set. */
    method Mark(kind: Kind, l2L1List: seq<Record>)
      requires kind.Marks()
      modifies this
      ensures View() == ApplyOps(old(View()), OpsOf(kind, l2L1List))
    {
      ghost var ops := OpsOf(kind, l2L1List);
      var i := 0;
      while i < |l2L1List|
        invariant 0 <= i <= |l2L1List|
        invariant ApplyOps(View(), ops[i..]) == ApplyOps(old(View()), ops)
      {
        assert ops[i..][1..] == ops[i + 1..];
        var record := l2L1List[i];
        if Uint64(record.block) <= 0 {
          i := i + 1;
          continue;
        }
        if record.h !in rows {
          AfterUniform(kind, ops[i..]);
          return;
        }
        rows := rows[record.h := Marked(Op(kind, record.h, record.block, record.tx), rows[record.h])];
        i := i + 1;
      }
    }

    method MarkedWithdrawProvenRelated(withdrawProvenList: seq<Record>)
      modifies this
      ensures View() == ApplyOps(old(View()), OpsOf(RelateProven, withdrawProvenList))
    {
      ghost var ops := OpsOf(RelateProven, withdrawProvenList);
      var i := 0;
      while i < |withdrawProvenList|
        invariant 0 <= i <= |withdrawProvenList|
        invariant ApplyOps(View(), ops[i..]) == ApplyOps(old(View()), ops)
      {
        assert ops[i..][1..] == ops[i + 1..];
        var h := withdrawProvenList[i].h;
        if h !in proven {
          AfterUniform(RelateProven, ops[i..]);
          return;
        }
        proven := proven[h := proven[h].(related := true)];
        i := i + 1;
      }
    }

    method MarkedWithdrawFinalizedRelated(withdrawFinalizedList: seq<Record>)
      modifies this
      ensures View() == ApplyOps(old(View()), OpsOf(RelateFinal, withdrawFinalizedList))
    {
      ghost var ops := OpsOf(RelateFinal, withdrawFinalizedList);
      var i := 0;
      while i < |withdrawFinalizedList|
        invariant 0 <= i <= |withdrawFinalizedList|
        invariant ApplyOps(View(), ops[i..]) == ApplyOps(old(View()), ops)
      {
        assert ops[i..][1..] == ops[i + 1..];
        var h := withdrawFinalizedList[i].h;
        if h !in finalized {
          AfterUniform(RelateFinal, ops[i..]);
          return;
        }
        finalized := finalized[h := finalized[h].(related := true)];
        i := i + 1;
      }
    }

    method MarkThenRelateProven(records: seq<Record>)
      modifies this
      ensures View() == ApplyOps(ApplyOps(old(View()), OpsOf(MarkProven, records)), OpsOf(RelateProven, records))
    {
      if |records| > 0 {
        MarkWithdrawalProven(records);
        MarkedWithdrawProvenRelated(records);
      }
    }

    /**
      markedL2ToL1Proven on the unrelated events, whose withdrawal lookups may fail: exactly the
      listed events with a found row become related, their rows are marked unless the block number
      has a zero low word, and nothing else changes.
     */
    method MarkedL2ToL1Proven(provenList: seq<Hash>, lookupOk: Hash -> bool)
      requires forall h :: h in provenList ==> h in proven && !proven[h].related
      modifies this
      ensures Markable(old(rows), old(proven), Found(old(rows), provenList, lookupOk))
      ensures View() == ApplyOps(old(View()), ProvenTodo(old(View()), Found(old(rows), provenList, lookupOk)))
      ensures finalized == old(finalized) && proven.Keys == old(proven.Keys) && rows.Keys == old(rows.Keys)
      ensures forall h :: h in proven ==>
                proven[h] == old(proven)[h].(related :=
                  old(proven)[h].related || (h in provenList && h in old(rows) && lookupOk(h)))
      ensures forall h :: h in rows ==>
                rows[h] ==
                  if h in provenList && lookupOk(h) && Uint64(old(proven)[h].block) > 0
                  then old(rows)[h].(l1Block := old(proven)[h].block, proveTx := old(proven)[h].tx,
                                     status := if Uint64(old(rows)[h].timeLeft) > 0 then 2 else 3)
                  else old(rows)[h]
    {
      ProvenOutcome(View(), provenList, lookupOk);
      ghost var t := View();
      FilterSubset(provenList, Looked(rows, lookupOk));
      var list, listV0 := Partition(rows, proven, provenList, lookupOk);
      ghost var v1 := Filter(Found(t.rows, provenList, lookupOk), VersionNotZero(t.rows));
      ghost var v0 := Filter(Found(t.rows, provenList, lookupOk), VersionIsZero(t.rows));
      MarkThenRelateProven(list);
      BlockApplies(t, MarkProven, RelateProven, t.proven, v1);
      BlockApplies(View(), MarkProven, RelateProven, t.proven, v0);
      MarkThenRelateProven(listV0);
      ApplyConcat(t, MarkThenRelate(MarkProven, RelateProven, t.proven, v1),
                  MarkThenRelate(MarkProven, RelateProven, t.proven, v0));
    }

    /** The version-1 half of markedL2ToL1Finalized. */
    method MarkedL2ToL1Finalized(withdrawList: seq<Hash>, lookupOk: Hash -> bool)
      requires forall h :: h in withdrawList ==> h in finalized && !finalized[h].related
      modifies this
      ensures Markable(old(rows), old(finalized), Found(old(rows), withdrawList, lookupOk))
      ensures View() == ApplyOps(old(View()), FinalTodo(old(View()), Found(old(rows), withdrawList, lookupOk)))
      ensures proven == old(proven) && finalized.Keys == old(finalized.Keys) && rows.Keys == old(rows.Keys)
      ensures forall h :: h in finalized ==>
                finalized[h] == old(finalized)[h].(related :=
                  old(finalized)[h].related
                  || (h in withdrawList && h in old(rows) && lookupOk(h) && old(rows)[h].version != 0))
      ensures forall h :: h in rows ==>
                rows[h] ==
                  if h in withdrawList && lookupOk(h) && old(rows)[h].version != 0
                    && Uint64(old(finalized)[h].block) > 0
                  then old(rows)[h].(l1Block := old(finalized)[h].block, finalizeTx := old(finalized)[h].tx,
                                     status := 4)
                  else old(rows)[h]
    {
      FinalOutcome(View(), withdrawList, lookupOk);
      ghost var t := View();
      FilterSubset(withdrawList, Looked(rows, lookupOk));
      var list, _ := Partition(rows, finalized, withdrawList, lookupOk);
      if |list| > 0 {
        MarkWithdrawalFinalized(list);
        MarkedWithdrawFinalizedRelated(list);
      }
      BlockApplies(t, MarkFinal, RelateFinal, t.finalized,
                   Filter(Found(t.rows, withdrawList, lookupOk), VersionNotZero(t.rows)));
    }
  }
}
