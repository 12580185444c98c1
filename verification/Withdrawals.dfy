/**
  The withdrawal tables and their writers, one SQL statement at a time: state-root arrival, the
  two statements of the one-second countdown, and the marking of proven and finalized events,
  whose read and write of a row are separate statements.
 */
module Withdrawals {
  import opened Wrappers
  import opened BigInt
  import opened Seqs

  const PENDING: nat := 0
  const READY_FOR_PROVED: nat := 1
  const IN_CHALLENGE_PERIOD: nat := 2
  const READY_FOR_CLAIM: nat := 3
  const CLAIMED: nat := 4

  type Hash = nat

  /** A row of l2_to_l1, found by its withdrawal hash; transaction hash 0 means none recorded. */
  datatype Row = Row(l2Block: nat, l1Block: nat, version: int, status: nat, timeLeft: nat, proveTx: nat,
                     finalizeTx: nat)

  /** A row of withdraw_proven or withdraw_finalized. */
  datatype EventRow = EventRow(block: nat, tx: nat, related: bool)

  datatype Tables = Tables(rows: map<Hash, Row>, proven: map<Hash, EventRow>, finalized: map<Hash, EventRow>)

  datatype Kind = MarkProven | RelateProven | MarkFinal | RelateFinal {
    predicate Marks() {
      MarkProven? || MarkFinal?
    }

    predicate OnProven() {
      MarkProven? || RelateProven?
    }

    /** The marking kind on the same event table. */
    function Marking(): Kind {
      if OnProven() then MarkProven else MarkFinal
    }
  }

  /** One iteration of one of the four marking loops, for one event. */
  datatype Op = Op(kind: Kind, h: Hash, block: nat, tx: nat)

  /** `BlockNumber.Uint64() <= 0`: such an event is passed over by the marking loops. */
  predicate Skipped(block: nat) {
    Uint64(block) == 0
  }

  function Marked(op: Op, row: Row): Row {
    if op.kind.MarkFinal? then row.(l1Block := op.block, finalizeTx := op.tx, status := CLAIMED)
    else row.(l1Block := op.block, proveTx := op.tx,
              status := if Uint64(row.timeLeft) > 0 then IN_CHALLENGE_PERIOD else READY_FOR_CLAIM)
  }

  /** A loop that does not find a row returns early without an error: its remaining iterations are dropped. */
  function AfterLoop(kind: Kind, ops: seq<Op>): (rest: seq<Op>)
    ensures |rest| <= |ops|
    ensures ops != [] && ops[0].kind == kind ==> |rest| < |ops|
  {
    if ops != [] && ops[0].kind == kind then AfterLoop(kind, ops[1..]) else ops
  }

  function SetRelated(events: map<Hash, EventRow>, h: Hash): map<Hash, EventRow> {
    if h in events then events[h := events[h].(related := true)] else events
  }

  function RelateEvent(t: Tables, op: Op): Tables {
    if op.kind.RelateProven? then t.(proven := SetRelated(t.proven, op.h))
    else t.(finalized := SetRelated(t.finalized, op.h))
  }

  function EventsOf(t: Tables, kind: Kind): map<Hash, EventRow> {
    if kind.OnProven() then t.proven else t.finalized
  }

  // Bulk statements

  function ReadyRows(rows: map<Hash, Row>, l2Block: nat, window: nat): map<Hash, Row> {
    map h | h in rows :: if rows[h].l2Block <= l2Block && rows[h].status == PENDING
                         then rows[h].(status := READY_FOR_PROVED, timeLeft := window) else rows[h]
  }

  function CountDown(row: Row): Row {
    if row.timeLeft > 0 && row.status == IN_CHALLENGE_PERIOD then row.(timeLeft := row.timeLeft - 1) else row
  }

  function SweepOne(row: Row): Row {
    if row.timeLeft == 0 && row.status == IN_CHALLENGE_PERIOD then row.(status := READY_FOR_CLAIM) else row
  }

  function CountDownRows(rows: map<Hash, Row>): map<Hash, Row> {
    map h | h in rows :: CountDown(rows[h])
  }

  function SweepRows(rows: map<Hash, Row>): map<Hash, Row> {
    map h | h in rows :: SweepOne(rows[h])
  }

  // ---------------------------------------------------------------------------------------
  // The transition system
  // ---------------------------------------------------------------------------------------

  datatype Half = ProvenHalf | FinalHalf

  /** The marking goroutine: resting, or in one half of a round with the row it has read but not saved. */
  datatype Marker = Rest | Working(half: Half, todo: seq<Op>, taken: Option<Row>)

  /** `sweepDue` is set from a countdown statement until the next completed sweep statement. */
  datatype World = World(t: Tables, marker: Marker, sweepDue: bool)

  datatype Action =
    | InsertWithdrawal(h: Hash, l2Block: nat, version: int)
    | InsertProven(h: Hash, block: nat, tx: nat)
    | InsertFinalized(h: Hash, block: nat, tx: nat)
    | CountdownStatement
    | SweepStatement
    | Ready(l2Block: nat, window: nat)
    | ReadProven(found: seq<Hash>)
    | ReadFinal(found: seq<Hash>)
    | TakeRow
    | SaveRow
    | RelateRow
    | Abandon

  const INIT := World(Tables(map[], map[], map[]), Rest, false)

  function OpsFor(kind: Kind, events: map<Hash, EventRow>, hashes: seq<Hash>): (ops: seq<Op>)
    requires forall h :: h in hashes ==> h in events
    ensures |ops| == |hashes|
    ensures forall i :: 0 <= i < |hashes| ==>
              ops[i] == Op(kind, hashes[i], events[hashes[i]].block, events[hashes[i]].tx)
  {
    seq(|hashes|, i requires 0 <= i < |hashes| =>
      assert hashes[i] in hashes; Op(kind, hashes[i], events[hashes[i]].block, events[hashes[i]].tx))
  }

  /** The unrelated events of a list whose withdrawal row was found. */
  predicate Markable(rows: map<Hash, Row>, events: map<Hash, EventRow>, found: seq<Hash>) {
    forall h :: h in found ==> h in events && !events[h].related && h in rows
  }

  function VersionIsZero(rows: map<Hash, Row>): Hash -> bool {
    (h: Hash) => h in rows && rows[h].version == 0
  }

  function VersionNotZero(rows: map<Hash, Row>): Hash -> bool {
    (h: Hash) => h in rows && rows[h].version != 0
  }

  lemma FilterSubset(s: seq<Hash>, p: Hash -> bool)
    ensures forall h :: h in Filter(s, p) <==> h in s && p(h)
  {
    forall h: Hash
      ensures h in Filter(s, p) <==> h in s && p(h)
    {
      FilterMember(s, p, h);
    }
  }

  /** A marking loop over the events followed by the loop that relates them. */
  function MarkThenRelate(mark: Kind, relate: Kind, events: map<Hash, EventRow>, hashes: seq<Hash>): seq<Op>
    requires forall h :: h in hashes ==> h in events
  {
    OpsFor(mark, events, hashes) + OpsFor(relate, events, hashes)
  }

  /** The loops of markedL2ToL1Proven: the version-1 events, then the version-0 ones. */
  function ProvenTodo(t: Tables, found: seq<Hash>): seq<Op>
    requires Markable(t.rows, t.proven, found)
  {
    FilterSubset(found, VersionNotZero(t.rows));
    FilterSubset(found, VersionIsZero(t.rows));
    MarkThenRelate(MarkProven, RelateProven, t.proven, Filter(found, VersionNotZero(t.rows)))
    + MarkThenRelate(MarkProven, RelateProven, t.proven, Filter(found, VersionIsZero(t.rows)))
  }

  /** The version-1 loops of markedL2ToL1Finalized. */
  function FinalTodo(t: Tables, found: seq<Hash>): seq<Op>
    requires Markable(t.rows, t.finalized, found)
  {
    FilterSubset(found, VersionNotZero(t.rows));
    MarkThenRelate(MarkFinal, RelateFinal, t.finalized, Filter(found, VersionNotZero(t.rows)))
  }

  function MarkerStep(t: Tables, m: Marker, a: Action): (Tables, Marker) {
    if m.Rest? || m.todo == [] then (t, m)
    else
      var op := m.todo[0];
      match a
      case TakeRow =>
        if !op.kind.Marks() || m.taken.Some? then (t, m)
        else if Skipped(op.block) then (t, m.(todo := m.todo[1..]))
        else if op.h !in t.rows then (t, m.(todo := AfterLoop(op.kind, m.todo)))
        else (t, m.(taken := Some(t.rows[op.h])))
      case SaveRow =>
        if m.taken.None? then (t, m)
        else (t.(rows := t.rows[op.h := Marked(op, m.taken.value)]), m.(todo := m.todo[1..], taken := None))
      case RelateRow =>
        if op.kind.Marks() then (t, m)
        else if op.h !in EventsOf(t, op.kind) then (t, m.(todo := AfterLoop(op.kind, m.todo)))
        else (RelateEvent(t, op), m.(todo := m.todo[1..]))
      case _ => (t, m)
  }

  /** An action that is not enabled changes nothing. */
  function Step(w: World, a: Action): World {
    var t := w.t;
    match a
    case InsertWithdrawal(h, l2Block, version) =>
      if h in t.rows then w else w.(t := t.(rows := t.rows[h := Row(l2Block, 0, version, PENDING, 0, 0, 0)]))
    case InsertProven(h, block, tx) =>
      if h in t.proven then w else w.(t := t.(proven := t.proven[h := EventRow(block, tx, false)]))
    case InsertFinalized(h, block, tx) =>
      if h in t.finalized then w else w.(t := t.(finalized := t.finalized[h := EventRow(block, tx, false)]))
    case CountdownStatement => w.(t := t.(rows := CountDownRows(t.rows)), sweepDue := true)
    case SweepStatement => w.(t := t.(rows := SweepRows(t.rows)), sweepDue := false)
    case Ready(l2Block, window) =>
      if w.marker.Rest? && l2Block != 0 && window < TWO_64
      then w.(t := t.(rows := ReadyRows(t.rows, l2Block, window))) else w
    case ReadProven(found) =>
      if w.marker.Rest? && Markable(t.rows, t.proven, found)
      then w.(marker := Working(ProvenHalf, ProvenTodo(t, found), None)) else w
    case ReadFinal(found) =>
      if w.marker.Working? && w.marker.half.ProvenHalf? && w.marker.todo == [] && Markable(t.rows, t.finalized, found)
      then w.(marker := Working(FinalHalf, FinalTodo(t, found), None)) else w
    case Abandon => w.(marker := Rest)
    case _ =>
      var (t', m') := MarkerStep(t, w.marker, a);
      w.(t := t', marker := m')
  }

  function Run(w: World, actions: seq<Action>): World {
    if actions == [] then w else Step(Run(w, actions[..|actions| - 1]), actions[|actions| - 1])
  }

  // ---------------------------------------------------------------------------------------
  // What every reachable state satisfies
  // ---------------------------------------------------------------------------------------

  /** The link between status and remaining time that makes the statuses meaningful. */
  ghost predicate RowOk(row: Row, sweepDue: bool) {
    && row.status <= CLAIMED
    && row.timeLeft < TWO_64
    && (row.status == PENDING ==> row.timeLeft == 0)
    && (row.status == READY_FOR_CLAIM ==> row.timeLeft == 0)
    && (row.status == IN_CHALLENGE_PERIOD && row.timeLeft == 0 ==> sweepDue)
  }

  /** The stored row is the taken copy, moved on at most by the countdown. */
  ghost predicate TickedFrom(taken: Row, row: Row) {
    || row == taken
    || (&& taken.status == IN_CHALLENGE_PERIOD
        && (row.status == IN_CHALLENGE_PERIOD || row.status == READY_FOR_CLAIM)
        && row.timeLeft <= taken.timeLeft
        && row == taken.(status := row.status, timeLeft := row.timeLeft))
  }

  ghost predicate ProvenMarked(t: Tables, h: Hash, block: nat, tx: nat) {
    h in t.rows && (Skipped(block) || (t.rows[h].status >= IN_CHALLENGE_PERIOD && t.rows[h].proveTx == tx))
  }

  ghost predicate FinalMarked(t: Tables, h: Hash, block: nat, tx: nat) {
    h in t.rows && (Skipped(block) || (t.rows[h].status == CLAIMED && t.rows[h].finalizeTx == tx))
  }

  /** What remains of a final mark whatever happens later. */
  ghost predicate FinalRecorded(t: Tables, h: Hash, block: nat, tx: nat) {
    h in t.rows && (Skipped(block) || (t.rows[h].status >= IN_CHALLENGE_PERIOD && t.rows[h].finalizeTx == tx))
  }

  /** The events an iteration works on are stored with the fields it carries, and so is the row. */
  ghost predicate OpOk(t: Tables, op: Op) {
    && op.h in t.rows
    && op.h in EventsOf(t, op.kind)
    && EventsOf(t, op.kind)[op.h].block == op.block && EventsOf(t, op.kind)[op.h].tx == op.tx
  }

  /** The row carries the mark of the event. */
  ghost predicate Done(t: Tables, op: Op) {
    if op.kind.OnProven() then ProvenMarked(t, op.h, op.block, op.tx) else FinalMarked(t, op.h, op.block, op.tx)
  }

  /** Before an event is related its row is marked, or the marking is still ahead in the list. */
  ghost predicate RelatesAfterMarks(t: Tables, todo: seq<Op>) {
    forall i :: 0 <= i < |todo| && !todo[i].kind.Marks() ==>
      Done(t, todo[i]) || todo[i].(kind := todo[i].kind.Marking()) in todo[..i]
  }

  ghost predicate MarkerOk(t: Tables, m: Marker) {
    m.Working? ==>
      && (forall op :: op in m.todo ==> OpOk(t, op) && (op.kind.OnProven() <==> m.half.ProvenHalf?))
      && RelatesAfterMarks(t, m.todo)
      && (m.taken.Some? ==>
            && m.todo != [] && m.todo[0].kind.Marks() && !Skipped(m.todo[0].block)
            && TickedFrom(m.taken.value, t.rows[m.todo[0].h]) && m.taken.value.timeLeft < TWO_64)
  }

  ghost predicate Inv(w: World) {
    && (forall h :: h in w.t.rows ==> RowOk(w.t.rows[h], w.sweepDue))
    && (forall h :: h in w.t.proven && w.t.proven[h].related ==>
          ProvenMarked(w.t, h, w.t.proven[h].block, w.t.proven[h].tx))
    && (forall h :: h in w.t.finalized && w.t.finalized[h].related ==>
          FinalRecorded(w.t, h, w.t.finalized[h].block, w.t.finalized[h].tx))
    && MarkerOk(w.t, w.marker)
  }

  lemma InsertKeeps(w: World, a: Action)
    requires Inv(w) && (a.InsertWithdrawal? || a.InsertProven? || a.InsertFinalized?)
    ensures Inv(Step(w, a))
  {
  }

  lemma CountdownKeeps(w: World)
    requires Inv(w)
    ensures Inv(Step(w, CountdownStatement))
  {
  }

  lemma SweepKeeps(w: World)
    requires Inv(w)
    ensures Inv(Step(w, SweepStatement))
  {
  }

  lemma ReadyKeeps(w: World, l2Block: nat, window: nat)
    requires Inv(w)
    ensures Inv(Step(w, Ready(l2Block, window)))
  {
  }

  /** Every relate iteration comes after the mark iteration of the same event. */
  ghost predicate MarksLead(todo: seq<Op>) {
    forall i :: 0 <= i < |todo| && !todo[i].kind.Marks() ==> todo[i].(kind := todo[i].kind.Marking()) in todo[..i]
  }

  lemma BlockLeads(mark: Kind, relate: Kind, events: map<Hash, EventRow>, hashes: seq<Hash>)
    requires !relate.Marks() && mark == relate.Marking()
    requires forall h :: h in hashes ==> h in events
    ensures var todo := MarkThenRelate(mark, relate, events, hashes);
            && MarksLead(todo)
            && (forall h :: h in hashes ==>
                  && Op(mark, h, events[h].block, events[h].tx) in todo
                  && Op(relate, h, events[h].block, events[h].tx) in todo)
            && (forall op :: op in todo ==> op.h in hashes && (op.kind == mark || op.kind == relate)
                                            && op.block == events[op.h].block && op.tx == events[op.h].tx)
  {
    var todo := MarkThenRelate(mark, relate, events, hashes);
    forall i | 0 <= i < |todo| && !todo[i].kind.Marks()
      ensures todo[i].(kind := mark) in todo[..i] && todo[i].kind == relate
    {
      assert i >= |hashes|;
      assert todo[..i][i - |hashes|] == todo[i].(kind := mark);
    }
    forall h | h in hashes
      ensures Op(mark, h, events[h].block, events[h].tx) in todo && Op(relate, h, events[h].block, events[h].tx) in todo
    {
      var k :| 0 <= k < |hashes| && hashes[k] == h;
      assert todo[k] == Op(mark, h, events[h].block, events[h].tx);
      assert todo[|hashes| + k] == Op(relate, h, events[h].block, events[h].tx);
    }
  }

  lemma LeadConcat(a: seq<Op>, b: seq<Op>)
    requires MarksLead(a) && MarksLead(b)
    ensures MarksLead(a + b)
  {
    var todo := a + b;
    forall i | 0 <= i < |todo| && !todo[i].kind.Marks()
      ensures todo[i].(kind := todo[i].kind.Marking()) in todo[..i]
    {
      if i < |a| {
        assert todo[..i] == a[..i];
      } else {
        assert todo[..i] == a + b[..i - |a|];
      }
    }
  }

  lemma ProvenTodoOk(t: Tables, found: seq<Hash>)
    requires Markable(t.rows, t.proven, found)
    ensures MarkerOk(t, Working(ProvenHalf, ProvenTodo(t, found), None))
    ensures forall h :: h in found ==>
              && Op(MarkProven, h, t.proven[h].block, t.proven[h].tx) in ProvenTodo(t, found)
              && Op(RelateProven, h, t.proven[h].block, t.proven[h].tx) in ProvenTodo(t, found)
    ensures forall op :: op in ProvenTodo(t, found) ==> op.h in found
  {
    FilterSubset(found, VersionNotZero(t.rows));
    FilterSubset(found, VersionIsZero(t.rows));
    var v1, v0 := Filter(found, VersionNotZero(t.rows)), Filter(found, VersionIsZero(t.rows));
    hide MarksLead, MarkThenRelate, Filter;
    BlockLeads(MarkProven, RelateProven, t.proven, v1);
    BlockLeads(MarkProven, RelateProven, t.proven, v0);
    LeadConcat(MarkThenRelate(MarkProven, RelateProven, t.proven, v1),
               MarkThenRelate(MarkProven, RelateProven, t.proven, v0));
    LeadRelates(t, ProvenTodo(t, found));
  }

  lemma LeadRelates(t: Tables, todo: seq<Op>)
    requires MarksLead(todo)
    ensures RelatesAfterMarks(t, todo)
  {
  }

  lemma FinalTodoOk(t: Tables, found: seq<Hash>)
    requires Markable(t.rows, t.finalized, found)
    ensures MarkerOk(t, Working(FinalHalf, FinalTodo(t, found), None))
    ensures forall op :: op in FinalTodo(t, found) ==> op.h in found && t.rows[op.h].version != 0
    ensures forall h :: h in found && t.rows[h].version != 0 ==>
              && Op(MarkFinal, h, t.finalized[h].block, t.finalized[h].tx) in FinalTodo(t, found)
              && Op(RelateFinal, h, t.finalized[h].block, t.finalized[h].tx) in FinalTodo(t, found)
  {
    FilterSubset(found, VersionNotZero(t.rows));
    hide MarksLead, MarkThenRelate, Filter;
    BlockLeads(MarkFinal, RelateFinal, t.finalized, Filter(found, VersionNotZero(t.rows)));
    LeadRelates(t, FinalTodo(t, found));
  }

  lemma TakeKeeps(w: World)
    requires Inv(w)
    ensures Inv(Step(w, TakeRow))
  {
  }

  /** Dropping an iteration that has done its work keeps marks ahead of relates. */
  lemma RestOk(t: Tables, todo: seq<Op>)
    requires todo != [] && RelatesAfterMarks(t, todo)
    requires todo[0].kind.Marks() ==> Done(t, todo[0])
    ensures RelatesAfterMarks(t, todo[1..])
  {
    forall i | 0 <= i < |todo| - 1 && !todo[1..][i].kind.Marks()
      && todo[i + 1].(kind := todo[i + 1].kind.Marking()) in todo[..i + 1]
      ensures Done(t, todo[i + 1]) || todo[i + 1].(kind := todo[i + 1].kind.Marking()) in todo[1..][..i]
    {
      var j :| 0 <= j < i + 1 && todo[j] == todo[i + 1].(kind := todo[i + 1].kind.Marking());
      if j > 0 {
        assert todo[1..][..i][j - 1] == todo[j];
      }
    }
  }

  lemma SaveKeeps(w: World)
    requires Inv(w)
    ensures Inv(Step(w, SaveRow))
  {
    if w.marker.Working? && w.marker.todo != [] && w.marker.taken.Some? {
      var op := w.marker.todo[0];
      var t' := w.t.(rows := w.t.rows[op.h := Marked(op, w.marker.taken.value)]);
      assert op in w.marker.todo;
      assert forall i :: 0 <= i < |w.marker.todo| ==> w.marker.todo[i] in w.marker.todo;
      assert RelatesAfterMarks(t', w.marker.todo);
      RestOk(t', w.marker.todo);
    }
  }

  lemma RelateKeeps(w: World)
    requires Inv(w)
    ensures Inv(Step(w, RelateRow))
  {
  }

  lemma StepKeeps(w: World, a: Action)
    requires Inv(w)
    ensures Inv(Step(w, a))
  {
    match a
    case TakeRow => TakeKeeps(w);
    case SaveRow => SaveKeeps(w);
    case RelateRow => RelateKeeps(w);
    case ReadProven(found) =>
      if Markable(w.t.rows, w.t.proven, found) {
        ProvenTodoOk(w.t, found);
      }
    case ReadFinal(found) =>
      if Markable(w.t.rows, w.t.finalized, found) {
        FinalTodoOk(w.t, found);
      }
    case Abandon =>
    case CountdownStatement => CountdownKeeps(w);
    case SweepStatement => SweepKeeps(w);
    case Ready(l2Block, window) => ReadyKeeps(w, l2Block, window);
    case _ => InsertKeeps(w, a);
  }

  lemma {:induction false} RunKeeps(w: World, actions: seq<Action>)
    requires Inv(w)
    ensures Inv(Run(w, actions))
  {
    if actions == [] {
    } else {
      RunKeeps(w, actions[..|actions| - 1]);
      StepKeeps(Run(w, actions[..|actions| - 1]), actions[|actions| - 1]);
    }
  }
}
