/** State roots: the safe and finalized sweeps, and the block sizes computed when a batch is stored. */
module StateRoots {
  import opened Wrappers
  import opened BigInt
  import opened Seqs

  const COMMITTED: nat := 0
  const SAFE: nat := 1
  const FINALIZED: nat := 2

  datatype Root = Root(l1Block: nat, l2Block: nat, timestamp: nat, status: nat, blockSize: nat)

  function Max(a: nat, b: nat): nat {
    if a < b then b else a
  }

  /** The status an L1 height deserves under the given heads. */
  function Classified(l1Block: nat, safe: nat, finalized: nat): nat {
    if l1Block < finalized then FINALIZED else if l1Block < safe then SAFE else COMMITTED
  }

  function SafeSwept(roots: seq<Root>, safe: nat): (swept: seq<Root>)
    ensures |swept| == |roots|
  {
    seq(|roots|, i requires 0 <= i < |roots| =>
      if roots[i].l1Block < Uint64(safe) && roots[i].status == COMMITTED then roots[i].(status := SAFE) else roots[i])
  }

  function FinalizedSwept(roots: seq<Root>, finalized: nat): (swept: seq<Root>)
    ensures |swept| == |roots|
  {
    seq(|roots|, i requires 0 <= i < |roots| =>
      if roots[i].l1Block < Uint64(finalized) then roots[i].(status := FINALIZED) else roots[i])
  }

  // ---------------------------------------------------------------------------------------
  // Runs of rounds and arriving roots
  // ---------------------------------------------------------------------------------------

  /** A round reaches no statement, the first one only, or both; batches of roots arrive in between. */
  datatype Action =
    | Arrive(batch: seq<Root>)
    | NoStatement
    | SafeOnly(safe: nat)
    | Complete(safe: nat, finalized: nat)

  function Step(roots: seq<Root>, a: Action): (after: seq<Root>)
    ensures |roots| <= |after|
  {
    match a
    case Arrive(batch) => roots + batch
    case NoStatement => roots
    case SafeOnly(safe) => SafeSwept(roots, safe)
    case Complete(safe, finalized) => FinalizedSwept(SafeSwept(roots, safe), finalized)
  }

  function Run(roots: seq<Root>, actions: seq<Action>): (after: seq<Root>)
    ensures |roots| <= |after|
  {
    if actions == [] then roots else Step(Run(roots, actions[..|actions| - 1]), actions[|actions| - 1])
  }

  /** The highest heads any statement of the run was given. */
  function SafeMark(actions: seq<Action>): nat {
    if actions == [] then 0
    else
      var before := SafeMark(actions[..|actions| - 1]);
      match actions[|actions| - 1]
      case SafeOnly(safe) => Max(before, Uint64(safe))
      case Complete(safe, _) => Max(before, Uint64(safe))
      case _ => before
  }

  function FinalizedMark(actions: seq<Action>): nat {
    if actions == [] then 0
    else
      var before := FinalizedMark(actions[..|actions| - 1]);
      match actions[|actions| - 1]
      case Complete(_, finalized) => Max(before, Uint64(finalized))
      case _ => before
  }

  /** Whatever heads the provider reports, a root keeps its row and its status never goes down. */
  lemma {:induction false} StatusNeverDecreases(roots: seq<Root>, actions: seq<Action>, k: nat)
    requires k < |roots| && roots[k].status <= FINALIZED
    ensures var after := Run(roots, actions)[k];
            roots[k].status <= after.status <= FINALIZED && after == roots[k].(status := after.status)
  {
    if actions == [] {
    } else {
      StatusNeverDecreases(roots, actions[..|actions| - 1], k);
    }
  }

  /** A root that arrives unclassified is at every moment classified by the highest heads seen since. */
  lemma {:induction false} StatusIsHighWaterMark(roots: seq<Root>, actions: seq<Action>, k: nat)
    requires k < |roots| && roots[k].status == COMMITTED
    ensures Run(roots, actions)[k].status == Classified(roots[k].l1Block, SafeMark(actions), FinalizedMark(actions))
  {
    if actions == [] {
    } else {
      StatusIsHighWaterMark(roots, actions[..|actions| - 1], k);
      StatusNeverDecreases(roots, actions[..|actions| - 1], k);
    }
  }

  ghost predicate HeadsBelow(actions: seq<Action>, safe: nat, finalized: nat) {
    forall a :: a in actions ==>
      && (a.SafeOnly? ==> a.safe <= safe)
      && (a.Complete? ==> a.safe <= safe && a.finalized <= finalized)
  }

  lemma {:induction false} MarksBelow(actions: seq<Action>, safe: nat, finalized: nat)
    requires HeadsBelow(actions, safe, finalized) && safe < TWO_64 && finalized < TWO_64
    ensures SafeMark(actions) <= safe && FinalizedMark(actions) <= finalized
  {
    if actions == [] {
    } else {
      MarksBelow(actions[..|actions| - 1], safe, finalized);
      assert actions[|actions| - 1] in actions;
    }
  }

  /** After a completed round that saw no lower heads than before, every status follows from the heads alone. */
  lemma CompletedRoundClassifies(roots: seq<Root>, actions: seq<Action>, safe: nat, finalized: nat, k: nat)
    requires k < |roots| && roots[k].status == COMMITTED
    requires HeadsBelow(actions, safe, finalized) && safe < TWO_64 && finalized < TWO_64
    ensures Run(roots, actions + [Complete(safe, finalized)])[k].status ==
            if roots[k].l1Block < finalized then 2 else if roots[k].l1Block < safe then 1 else 0
  {
    var all := actions + [Complete(safe, finalized)];
    assert all[..|all| - 1] == actions;
    MarksBelow(actions, safe, finalized);
    StatusIsHighWaterMark(roots, all, k);
  }

  /** For arbitrary heads, it does so exactly when the heights passed earlier do not matter for the row. */
  lemma CompletedRoundClassifiesIff(roots: seq<Root>, actions: seq<Action>, safe: nat, finalized: nat, k: nat)
    requires k < |roots| && roots[k].status == COMMITTED && safe < TWO_64 && finalized < TWO_64
    ensures Run(roots, actions + [Complete(safe, finalized)])[k].status ==
            Classified(roots[k].l1Block, safe, finalized) <==>
            && (roots[k].l1Block < FinalizedMark(actions) ==> roots[k].l1Block < finalized)
            && (roots[k].l1Block < SafeMark(actions) ==> roots[k].l1Block < Max(safe, finalized))
  {
    var all := actions + [Complete(safe, finalized)];
    assert all[..|all| - 1] == actions;
    StatusIsHighWaterMark(roots, all, k);
  }

  // ---------------------------------------------------------------------------------------
  // Block sizes
  // ---------------------------------------------------------------------------------------

  /** The L2 number before the i-th root of a batch: its predecessor's, or the looked-up base. */
  function Before(roots: seq<Root>, base: nat, i: nat): nat
    requires i < |roots|
  {
    if i == 0 then base else roots[i - 1].l2Block
  }

  function Sized(roots: seq<Root>, base: nat): (sized: seq<Root>)
    ensures |sized| == |roots|
  {
    seq(|roots|, i requires 0 <= i < |roots| =>
        roots[i].(blockSize := Uint64(roots[i].l2Block - Before(roots, base, i))))
  }

  lemma SizedAt(roots: seq<Root>, base: nat, i: nat)
    requires i < |roots|
    ensures Sized(roots, base)[i] == roots[i].(blockSize := Uint64(roots[i].l2Block - Before(roots, base, i)))
  {
  }

  function SizeOf(root: Root): int {
    root.blockSize
  }

  function TotalSize(roots: seq<Root>): int {
    Sum(roots, SizeOf)
  }

  ghost predicate Ascending(roots: seq<Root>, base: nat) {
    forall i {:trigger Before(roots, base, i)} :: 0 <= i < |roots| ==> Before(roots, base, i) <= roots[i].l2Block
  }

  /** On uint64 numbers a size is the gap to the predecessor exactly when the number did not go back. */
  lemma SizeIsGapIff(roots: seq<Root>, base: nat, i: nat)
    requires i < |roots| && base < TWO_64 && forall root :: root in roots ==> root.l2Block < TWO_64
    ensures Sized(roots, base)[i].blockSize == roots[i].l2Block - Before(roots, base, i) <==>
            Before(roots, base, i) <= roots[i].l2Block
    ensures Sized(roots, base)[i].blockSize >= roots[i].l2Block - Before(roots, base, i)
  {
  }

  lemma SizedSnoc(roots: seq<Root>, base: nat)
    requires roots != []
    ensures var n := |roots| - 1;
            TotalSize(Sized(roots, base)) == TotalSize(Sized(roots[..n], base)) + Sized(roots, base)[n].blockSize
  {
    hide Uint64;
    var n := |roots| - 1;
    var sized := Sized(roots, base);
    forall i | 0 <= i < n
      ensures sized[i] == Sized(roots[..n], base)[i]
    {
      assert Before(roots, base, i) == Before(roots[..n], base, i);
    }
    assert sized[..n] == Sized(roots[..n], base);
  }

  lemma AscendingSnoc(roots: seq<Root>, base: nat)
    requires roots != []
    ensures var n := |roots| - 1;
            Ascending(roots, base) <==>
            Ascending(roots[..n], base) && Before(roots, base, n) <= roots[n].l2Block
  {
    var n := |roots| - 1;
    assert forall i :: 0 <= i < n ==> Before(roots[..n], base, i) == Before(roots, base, i);
  }

  /** The sizes never add up to less than the distance covered, and to exactly it when no number goes back. */
  lemma {:induction false} SizesTelescopeIff(roots: seq<Root>, base: nat)
    requires roots != [] && base < TWO_64 && forall root :: root in roots ==> root.l2Block < TWO_64
    ensures TotalSize(Sized(roots, base)) >= roots[|roots| - 1].l2Block - base
    ensures TotalSize(Sized(roots, base)) == roots[|roots| - 1].l2Block - base <==> Ascending(roots, base)
    decreases |roots|
  {
    hide Ascending, Uint64, TotalSize, Sized;
    var n := |roots| - 1;
    SizeIsGapIff(roots, base, n);
    assert forall root :: root in roots[..n] ==> root in roots;
    SizedSnoc(roots, base);
    AscendingSnoc(roots, base);
    if n > 0 {
      SizesTelescopeIff(roots[..n], base);
    } else {
      EmptyTelescopes(roots[..0], base);
    }
  }

  lemma EmptyTelescopes(roots: seq<Root>, base: nat)
    requires roots == []
    ensures TotalSize(Sized(roots, base)) == 0 && Ascending(roots, base)
  {
  }

  /** The query takes any stored root with a smaller timestamp; it does not order them. */
  ghost predicate TakenOlder(roots: seq<Root>, timestamp: nat, base: Option<Root>) {
    match base
    case Some(root) => root in roots && root.timestamp < timestamp
    case None => forall root :: root in roots ==> timestamp <= root.timestamp
  }

  function BaseL2(base: Option<Root>): nat {
    if base.Some? then base.value.l2Block else 0
  }

  /** A batch as stored, with the root its lookup returned. */
  datatype Batch = Batch(roots: seq<Root>, taken: Option<Root>) {
    function Base(): nat {
      BaseL2(taken)
    }
  }

  ghost predicate BatchOk(b: Batch) {
    && b.roots != [] && b.Base() < TWO_64
    && (forall root :: root in b.roots ==> root.l2Block < TWO_64)
    && Ascending(b.roots, b.Base())
  }

  function Stored(batches: seq<Batch>): seq<Root> {
    if batches == [] then []
    else
      var b := batches[|batches| - 1];
      Stored(batches[..|batches| - 1]) + Sized(b.roots, b.Base())
  }

  function LastL2(batches: seq<Batch>): nat {
    if batches == [] || batches[|batches| - 1].roots == [] then 0
    else batches[|batches| - 1].roots[|batches[|batches| - 1].roots| - 1].l2Block
  }

  /** How far the bases were from the last stored root, over all batches. */
  function Drift(batches: seq<Batch>): int {
    if batches == [] then 0
    else Drift(batches[..|batches| - 1]) + LastL2(batches[..|batches| - 1]) - batches[|batches| - 1].Base()
  }

  /** Over any number of batches, the stored sizes overstate the last L2 number by the drift of the bases. */
  lemma {:induction false} StoredSizes(batches: seq<Batch>)
    requires forall b :: b in batches ==> BatchOk(b)
    ensures TotalSize(Stored(batches)) == LastL2(batches) + Drift(batches)
  {
    if batches == [] {
    } else {
      var n := |batches| - 1;
      var b := batches[n];
      assert BatchOk(b);
      StoredSizes(batches[..n]);
      SizesTelescopeIff(b.roots, b.Base());
      SumConcat(Stored(batches[..n]), Sized(b.roots, b.Base()), SizeOf);
    }
  }

  ghost predicate BasesNotAhead(batches: seq<Batch>) {
    forall k :: 0 <= k < |batches| ==> batches[k].Base() <= LastL2(batches[..k])
  }

  ghost predicate BasesNewest(batches: seq<Batch>) {
    forall k :: 0 <= k < |batches| ==> batches[k].Base() == LastL2(batches[..k])
  }

  lemma {:induction false} DriftIff(batches: seq<Batch>)
    requires BasesNotAhead(batches)
    ensures Drift(batches) >= 0
    ensures Drift(batches) == 0 <==> BasesNewest(batches)
  {
    if batches == [] {
    } else {
      hide BasesNotAhead, BasesNewest;
      var n := |batches| - 1;
      hide LastL2;
      BasesSnoc(batches);
      DriftIff(batches[..n]);
    }
  }

  lemma BasesSnoc(batches: seq<Batch>)
    requires batches != []
    ensures var n := |batches| - 1;
            && (BasesNotAhead(batches) <==> BasesNotAhead(batches[..n]) && batches[n].Base() <= LastL2(batches[..n]))
            && (BasesNewest(batches) <==> BasesNewest(batches[..n]) && batches[n].Base() == LastL2(batches[..n]))
  {
    hide LastL2;
    var n := |batches| - 1;
    forall k | 0 <= k < n
      ensures batches[..n][k] == batches[k] && batches[..n][..k] == batches[..k]
    {
    }
  }

  /** Every lookup of the run was made in the table the earlier batches had left. */
  ghost predicate LooksUp(batches: seq<Batch>) {
    forall k :: 0 <= k < |batches| ==>
      batches[k].roots != [] && TakenOlder(Stored(batches[..k]), batches[k].roots[0].timestamp, batches[k].taken)
  }

  /** Uint64 numbers that never go back, within a batch or from one to the next. */
  ghost predicate NumbersAscend(batches: seq<Batch>) {
    forall k :: 0 <= k < |batches| ==> Follows(Stored(batches[..k]), batches[k].roots)
  }

  ghost predicate Follows(stored: seq<Root>, roots: seq<Root>) {
    && (forall i :: 0 <= i < |roots| ==> roots[i].l2Block < TWO_64)
    && (forall i, j :: 0 <= i <= j < |roots| ==> roots[i].l2Block <= roots[j].l2Block)
    && (forall r, i :: r in stored && 0 <= i < |roots| ==> r.l2Block <= roots[i].l2Block)
  }

  lemma {:induction false} StoredSnoc(batches: seq<Batch>)
    requires batches != [] && batches[|batches| - 1].roots != []
    requires var n := |batches| - 1; Follows(Stored(batches[..n]), batches[n].roots)
    ensures forall r :: r in Stored(batches) ==> r.l2Block <= LastL2(batches)
  {
    hide Uint64;
    var n := |batches| - 1;
    var roots := batches[n].roots;
    var sized := Sized(roots, batches[n].Base());
    forall r | r in Stored(batches)
      ensures r.l2Block <= roots[|roots| - 1].l2Block
    {
      if r !in Stored(batches[..n]) {
        assert r in sized;
        var i :| 0 <= i < |sized| && sized[i] == r;
        SizedAt(roots, batches[n].Base(), i);
      }
    }
  }

  /** So no lookup can run ahead of the table. */
  lemma LookupsNotAhead(batches: seq<Batch>)
    requires LooksUp(batches) && NumbersAscend(batches)
    ensures BasesNotAhead(batches)
    ensures forall b :: b in batches ==> BatchOk(b)
  {
    forall k | 0 <= k < |batches|
      ensures batches[k].Base() <= LastL2(batches[..k]) && BatchOk(batches[k])
    {
      LookupNotAhead(batches, k);
    }
  }

  lemma LookupNotAhead(batches: seq<Batch>, k: nat)
    requires LooksUp(batches) && NumbersAscend(batches) && k < |batches|
    ensures batches[k].Base() <= LastL2(batches[..k]) && BatchOk(batches[k])
  {
    hide Stored, Sized;
    var b := batches[k];
    assert Follows(Stored(batches[..k]), b.roots);
    if b.taken.Some? {
      if k == 0 {
        NothingStored(batches[..0]);
      } else {
        assert batches[..k][k - 1] == batches[k - 1] && batches[..k][..k - 1] == batches[..k - 1];
        assert Follows(Stored(batches[..k - 1]), batches[k - 1].roots);
        StoredSnoc(batches[..k]);
      }
      assert b.Base() <= b.roots[0].l2Block;
    }
    forall root | root in b.roots
      ensures root.l2Block < TWO_64
    {
      var i :| 0 <= i < |b.roots| && b.roots[i] == root;
    }
  }

  lemma NothingStored(batches: seq<Batch>)
    requires batches == []
    ensures Stored(batches) == []
  {
  }

  /**
    Over every run of lookups and inserts with ascending numbers, the stored sizes sum to at
    least the last number, and to exactly it when and only when every lookup happened to take a
    root with the newest number.
   */
  lemma StoredSizesExactIff(batches: seq<Batch>)
    requires LooksUp(batches) && NumbersAscend(batches)
    ensures TotalSize(Stored(batches)) >= LastL2(batches)
    ensures TotalSize(Stored(batches)) == LastL2(batches) <==> BasesNewest(batches)
  {
    LookupsNotAhead(batches);
    StoredSizes(batches);
    DriftIff(batches);
  }

  /**
    On a table whose L2 numbers are distinct, the first size of a batch is at least the gap to the
    newest older root, and that gap exactly when the query happened to take that root.
   */
  lemma FirstSizeIff(roots: seq<Root>, batch: seq<Root>, base: Option<Root>, newest: Root)
    requires batch != [] && TakenOlder(roots, batch[0].timestamp, base)
    requires newest in roots && newest.timestamp < batch[0].timestamp
    requires newest.l2Block <= batch[0].l2Block < TWO_64
    requires forall root :: root in roots && root.timestamp < batch[0].timestamp && root != newest ==>
               root.l2Block < newest.l2Block
    ensures Sized(batch, BaseL2(base))[0].blockSize >= batch[0].l2Block - newest.l2Block
    ensures Sized(batch, BaseL2(base))[0].blockSize == batch[0].l2Block - newest.l2Block <==> base == Some(newest)
  {
    SizedAt(batch, BaseL2(base), 0);
  }

  class StateRootDB {
    var roots: seq<Root>

    constructor ()
      ensures roots == []
    {
      roots := [];
    }

    method UpdateSafeStatus(safeBlockNumber: nat)
      modifies this
      ensures roots == SafeSwept(old(roots), safeBlockNumber)
    {
      var low := Uint64(safeBlockNumber);
      roots := seq(|roots|, i requires 0 <= i < |roots| reads this =>
        if roots[i].l1Block < low && roots[i].status == COMMITTED then roots[i].(status := SAFE) else roots[i]);
    }

    method UpdateFinalizedStatus(finalizedBlockNumber: nat)
      modifies this
      ensures roots == FinalizedSwept(old(roots), finalizedBlockNumber)
    {
      var low := Uint64(finalizedBlockNumber);
      roots := seq(|roots|, i requires 0 <= i < |roots| reads this =>
        if roots[i].l1Block < low then roots[i].(status := FINALIZED) else roots[i]);
    }

    /** A head is absent when its RPC call fails; a statement that fails changes nothing. */
    method SyncStateRootStatus(safe: Option<nat>, finalized: Option<nat>, safeOk: bool, finalizedOk: bool)
      returns (ok: bool, ghost action: Action)
      modifies this
      ensures ok <==> safe.Some? && finalized.Some? && safeOk && finalizedOk
      ensures ok ==> action == Complete(safe.value, finalized.value)
      ensures !ok ==> action == if safe.Some? && finalized.Some? && safeOk then SafeOnly(safe.value) else NoStatement
      ensures roots == Step(old(roots), action)
    {
      action := NoStatement;
      if safe.None? || finalized.None? || !safeOk {
        return false, action;
      }
      UpdateSafeStatus(safe.value);
      if !finalizedOk {
        return false, SafeOnly(safe.value);
      }
      UpdateFinalizedStatus(finalized.value);
      return true, Complete(safe.value, finalized.value);
    }

    method TakeOlder(timestamp: nat) returns (base: Option<Root>)
      ensures TakenOlder(roots, timestamp, base)
    {
      base := None;
      if exists root :: root in roots && root.timestamp < timestamp {
        var root :| root in roots && root.timestamp < timestamp;
        base := Some(root);
      }
    }

    /** The batch gets its block sizes in place and is inserted as a whole, unless the lookup fails. */
    method StoreBatchStateRoots(batch: array<Root>, lookupOk: bool, insertOk: bool)
      returns (ok: bool, ghost base: Option<Root>)
      requires batch.Length > 0
      modifies this, batch
      ensures ok <==> lookupOk && insertOk
      ensures !lookupOk ==> batch[..] == old(batch[..])
      ensures lookupOk ==> TakenOlder(old(roots), old(batch[0].timestamp), base)
      ensures lookupOk ==> batch[..] == Sized(old(batch[..]), BaseL2(base))
      ensures roots == if ok then old(roots) + batch[..] else old(roots)
    {
      base := None;
      if !lookupOk {
        return false, base;
      }
      var firstBlockSize := 0;
      var older := TakeOlder(batch[0].timestamp);
      base := older;
      match older {
        case None =>
        case Some(root) =>
          firstBlockSize := root.l2Block;
      }
      AssignSizes(batch, firstBlockSize);
      if insertOk {
        roots := roots + batch[..];
      }
      ok := insertOk;
    }
  }

  /** The assignments to the batch; the extra one for a missing base is overwritten by the first of them. */
  method AssignSizes(batch: array<Root>, firstBlockSize: nat)
    requires batch.Length > 0
    modifies batch
    ensures batch[..] == Sized(old(batch[..]), firstBlockSize)
  {
    hide Uint64, Sized;
    ghost var was := batch[..];
    ghost var sized := Sized(was, firstBlockSize);
    SizedAt(was, firstBlockSize, 0);
    batch[0] := batch[0].(blockSize := Uint64(batch[0].l2Block - firstBlockSize));
    var i := 1;
    while i < batch.Length
      invariant 1 <= i <= batch.Length
      invariant forall k :: 0 <= k < i ==> batch[k] == sized[k]
      invariant forall k :: i <= k < batch.Length ==> batch[k] == was[k]
    {
      SizedAt(was, firstBlockSize, i - 1);
      SizedAt(was, firstBlockSize, i);
      batch[i] := batch[i].(blockSize := Uint64(batch[i].l2Block - batch[i - 1].l2Block));
      i := i + 1;
    }
    assert batch[..] == sized;
  }
}
