/** The guarantees of whole runs of the withdrawal writers. */
module WithdrawalRuns {
  import opened Wrappers
  import opened BigInt
  import Seqs
  import opened Withdrawals

  /** A finalized event is related, and its block number has a non-zero low word. */
  ghost predicate RelatedFinal(t: Tables, h: Hash) {
    h in t.finalized && t.finalized[h].related && Uint64(t.finalized[h].block) > 0
  }

  // ---------------------------------------------------------------------------------------
  // Every run
  // ---------------------------------------------------------------------------------------

  /**
    Related implies marked: in every reachable state, a crash between the two loops included, a
    related proven event of a block whose number has a non-zero low word has its withdrawal at
    status 2 or more with the event's transaction recorded, and so has a related finalized event
    with its own. Between statements a withdrawal in
    the challenge period has time left unless a sweep is due, and one ready for claim has none.
   */
  lemma ReachableOk(actions: seq<Action>)
    ensures var w := Run(INIT, actions);
            && (forall h :: h in w.t.proven && w.t.proven[h].related && Uint64(w.t.proven[h].block) > 0 ==>
                  && h in w.t.rows && w.t.rows[h].status >= IN_CHALLENGE_PERIOD
                  && w.t.rows[h].proveTx == w.t.proven[h].tx)
            && (forall h :: RelatedFinal(w.t, h) ==>
                  && h in w.t.rows && w.t.rows[h].status >= IN_CHALLENGE_PERIOD
                  && w.t.rows[h].finalizeTx == w.t.finalized[h].tx)
            && (forall h :: h in w.t.rows ==>
                  && (w.t.rows[h].status == IN_CHALLENGE_PERIOD && !w.sweepDue ==> w.t.rows[h].timeLeft > 0)
                  && (w.t.rows[h].status == READY_FOR_CLAIM ==> w.t.rows[h].timeLeft == 0))
  {
    RunKeeps(INIT, actions);
  }

  /** The early returns for a missing row are unreachable in every run. */
  lemma NotFoundUnreachable(actions: seq<Action>)
    ensures var w := Run(INIT, actions);
            w.marker.Working? && w.marker.todo != [] ==>
              w.marker.todo[0].h in w.t.rows && w.marker.todo[0].h in EventsOf(w.t, w.marker.todo[0].kind)
  {
    RunKeeps(INIT, actions);
    var w := Run(INIT, actions);
    if w.marker.Working? && w.marker.todo != [] {
      assert w.marker.todo[0] in w.marker.todo;
    }
  }

  // ---------------------------------------------------------------------------------------
  // When a status goes backwards
  // ---------------------------------------------------------------------------------------

  /**
    The save of a proven mark overwrites a later status: the row was claimed meanwhile, or its
    challenge period ended after the marker read it with time left.
   */
  ghost predicate Overwrites(w: World, a: Action, h: Hash) {
    && a.SaveRow? && w.marker.Working? && w.marker.taken.Some? && w.marker.todo != []
    && w.marker.todo[0].kind.MarkProven? && w.marker.todo[0].h == h && h in w.t.rows
    && (w.t.rows[h].status == CLAIMED
        || (w.t.rows[h].status == READY_FOR_CLAIM && Uint64(w.marker.taken.value.timeLeft) > 0))
  }

  /** No other statement of any writer lowers a status, and this one always does. */
  lemma StepLowersIff(w: World, a: Action, h: Hash)
    requires Inv(w) && h in w.t.rows
    ensures h in Step(w, a).t.rows
    ensures Step(w, a).t.rows[h].status < w.t.rows[h].status <==> Overwrites(w, a, h)
  {
  }

  ghost predicate StepMonotone(w: World, w': World) {
    forall h :: h in w.t.rows ==> h in w'.t.rows && w.t.rows[h].status <= w'.t.rows[h].status
  }

  /** A run never lowers a status exactly when none of its saves overwrites. */
  lemma RunMonotoneIff(actions: seq<Action>)
    ensures (forall k :: 0 <= k < |actions| ==>
               StepMonotone(Run(INIT, actions[..k]), Step(Run(INIT, actions[..k]), actions[k])))
            <==> (forall k, h :: 0 <= k < |actions| ==> !Overwrites(Run(INIT, actions[..k]), actions[k], h))
  {
    forall k | 0 <= k < |actions|
      ensures StepMonotone(Run(INIT, actions[..k]), Step(Run(INIT, actions[..k]), actions[k])) <==>
              forall h :: !Overwrites(Run(INIT, actions[..k]), actions[k], h)
    {
      RunKeeps(INIT, actions[..k]);
      StepMonotoneIff(Run(INIT, actions[..k]), actions[k]);
    }
  }

  lemma StepMonotoneIff(w: World, a: Action)
    requires Inv(w)
    ensures StepMonotone(w, Step(w, a)) <==> forall h :: !Overwrites(w, a, h)
  {
    forall h | h in w.t.rows
      ensures h in Step(w, a).t.rows
      ensures Step(w, a).t.rows[h].status < w.t.rows[h].status <==> Overwrites(w, a, h)
    {
      StepLowersIff(w, a, h);
    }
  }

  /** The sweep would end the challenge period of the row whose older copy the marker is about to save. */
  predicate SweepOvertakes(w: World) {
    && w.marker.Working? && w.marker.taken.Some? && w.marker.todo != []
    && w.marker.todo[0].kind.MarkProven? && w.marker.todo[0].h in w.t.rows
    && w.marker.taken.value.timeLeft > 0
    && w.t.rows[w.marker.todo[0].h].timeLeft == 0 && w.t.rows[w.marker.todo[0].h].status == IN_CHALLENGE_PERIOD
  }

  /**
    The circumstances under which statuses never go backwards: a finalized event is inserted
    only after its proven event, the proven half of a round finds every unrelated event that
    has a row, no insertion completes such a pair until the finalized half starts, and no sweep
    overtakes a proven mark between its read and its save.
   */
  predicate Allowed(w: World, a: Action) {
    match a
    case InsertFinalized(h, _, _) => h in w.t.proven
    case ReadProven(found) => forall h :: h in w.t.proven && !w.t.proven[h].related && h in w.t.rows ==> h in found
    case InsertWithdrawal(h, _, _) => w.marker.Working? && w.marker.half.ProvenHalf? ==> h !in w.t.proven
    case InsertProven(h, _, _) => w.marker.Working? && w.marker.half.ProvenHalf? ==> h !in w.t.rows
    case SweepStatement => !SweepOvertakes(w)
    case _ => true
  }

  predicate AllowedRun(w: World, actions: seq<Action>) {
    forall k :: 0 <= k < |actions| ==> Allowed(Run(w, actions[..k]), actions[k])
  }

  ghost predicate RelatedProven(t: Tables, h: Hash) {
    h in t.proven && t.proven[h].related
  }

  /** A claimed withdrawal's proven event is related, so no later round marks it as proven again. */
  ghost predicate Good(w: World) {
    && (forall h :: h in w.t.finalized ==> h in w.t.proven)
    && (forall h :: h in w.t.rows && w.t.rows[h].status == CLAIMED ==> RelatedProven(w.t, h))
    && (forall h :: h in w.t.finalized && w.t.finalized[h].related ==>
          FinalMarked(w.t, h, w.t.finalized[h].block, w.t.finalized[h].tx))
    && GoodMarker(w.t, w.marker)
  }

  ghost predicate GoodMarker(t: Tables, m: Marker) {
    && (m.Working? && m.half.ProvenHalf? ==>
          && (forall op :: op in m.todo && op.kind.MarkProven? ==> op.h in t.rows && t.rows[op.h].status != CLAIMED)
          && (forall h :: h in t.proven && h in t.rows ==>
                t.proven[h].related || Op(RelateProven, h, t.proven[h].block, t.proven[h].tx) in m.todo))
    && (m.Working? && m.half.FinalHalf? ==> forall op :: op in m.todo ==> RelatedProven(t, op.h))
    && (m.Working? && m.taken.Some? && m.todo != [] && m.todo[0].kind.MarkProven? && m.todo[0].h in t.rows ==>
          (m.taken.value.timeLeft > 0 ==> t.rows[m.todo[0].h].status <= IN_CHALLENGE_PERIOD))
  }

  lemma GoodNeverOverwrites(w: World, a: Action, h: Hash)
    requires Inv(w) && Good(w)
    ensures !Overwrites(w, a, h)
  {
  }

  lemma GoodTables(w: World, a: Action)
    requires Inv(w) && Good(w) && Allowed(w, a)
    requires !a.TakeRow? && !a.SaveRow? && !a.RelateRow? && !a.ReadProven? && !a.ReadFinal?
    ensures Good(Step(w, a))
  {
  }

  lemma GoodReads(w: World, a: Action)
    requires Inv(w) && Good(w) && Allowed(w, a) && (a.ReadProven? || a.ReadFinal?)
    ensures Good(Step(w, a))
  {
    if a.ReadProven? && Markable(w.t.rows, w.t.proven, a.found) {
      ProvenTodoOk(w.t, a.found);
    } else if a.ReadFinal? && Markable(w.t.rows, w.t.finalized, a.found) {
      FinalTodoOk(w.t, a.found);
    }
  }

  lemma DropHead(todo: seq<Op>, op: Op)
    requires todo != [] && op in todo && op != todo[0]
    ensures op in todo[1..]
  {
    var i :| 0 <= i < |todo| && todo[i] == op;
    assert todo[1..][i - 1] == op;
  }

  lemma HeadAndTail(todo: seq<Op>)
    requires todo != []
    ensures todo[0] in todo
    ensures forall op :: op in todo && op != todo[0] ==> op in todo[1..]
    ensures forall op :: op in todo[1..] ==> op in todo
  {
    forall op | op in todo && op != todo[0]
      ensures op in todo[1..]
    {
      DropHead(todo, op);
    }
  }

  lemma GoodTakes(w: World)
    requires Inv(w) && Good(w)
    ensures Good(Step(w, TakeRow))
  {
    if w.marker.Working? && w.marker.todo != [] {
      HeadAndTail(w.marker.todo);
    }
  }

  lemma GoodSaves(w: World)
    requires Inv(w) && Good(w)
    ensures Good(Step(w, SaveRow))
  {
    if w.marker.Working? && w.marker.todo != [] {
      HeadAndTail(w.marker.todo);
    }
  }

  lemma GoodRelates(w: World)
    requires Inv(w) && Good(w)
    ensures Good(Step(w, RelateRow))
  {
    if w.marker.Working? && w.marker.todo != [] {
      HeadAndTail(w.marker.todo);
    }
  }

  lemma GoodKeeps(w: World, a: Action)
    requires Inv(w) && Good(w) && Allowed(w, a)
    ensures Good(Step(w, a))
  {
    if a.ReadProven? || a.ReadFinal? {
      GoodReads(w, a);
    } else if a.TakeRow? {
      GoodTakes(w);
    } else if a.SaveRow? {
      GoodSaves(w);
    } else if a.RelateRow? {
      GoodRelates(w);
    } else {
      GoodTables(w, a);
    }
  }

  lemma {:induction false} GoodRun(w: World, actions: seq<Action>)
    requires Inv(w) && Good(w) && AllowedRun(w, actions)
    ensures Inv(Run(w, actions)) && Good(Run(w, actions))
    ensures forall h :: h in w.t.rows ==>
              h in Run(w, actions).t.rows && w.t.rows[h].status <= Run(w, actions).t.rows[h].status
  {
    if actions == [] {
    } else {
      var front, last := actions[..|actions| - 1], actions[|actions| - 1];
      assert forall k :: 0 <= k < |front| ==> front[..k] == actions[..k];
      GoodRun(w, front);
      var before := Run(w, front);
      StepKeeps(before, last);
      GoodKeeps(before, last);
      forall h | h in before.t.rows
        ensures h in Step(before, last).t.rows && before.t.rows[h].status <= Step(before, last).t.rows[h].status
      {
        StepLowersIff(before, last, h);
        GoodNeverOverwrites(before, last, h);
      }
    }
  }

  lemma {:induction false} RunSplit(w: World, actions: seq<Action>, k: nat)
    requires k <= |actions|
    ensures Run(Run(w, actions[..k]), actions[k..]) == Run(w, actions)
  {
    if k == |actions| {
      assert actions[..k] == actions && actions[k..] == [];
    } else {
      var front := actions[..|actions| - 1];
      RunSplit(w, front, k);
      assert actions[k..][..|actions[k..]| - 1] == front[k..];
      assert front[..k] == actions[..k];
    }
  }

  /**
    Over every allowed run no withdrawal's status ever decreases, a claimed withdrawal stays
    claimed, and a related finalized event of a block whose number has a non-zero low word has
    its withdrawal claimed with the event's transaction recorded.
   */
  lemma StatusNeverDecreases(actions: seq<Action>, k: nat)
    requires AllowedRun(INIT, actions) && k <= |actions|
    ensures var before, after := Run(INIT, actions[..k]), Run(INIT, actions);
            && (forall h :: h in before.t.rows ==>
                  && h in after.t.rows && before.t.rows[h].status <= after.t.rows[h].status
                  && (before.t.rows[h].status == CLAIMED ==> after.t.rows[h].status == CLAIMED))
            && (forall h :: RelatedFinal(after.t, h) ==>
                  && h in after.t.rows && after.t.rows[h].status == CLAIMED
                  && after.t.rows[h].finalizeTx == after.t.finalized[h].tx)
  {
    hide Run, Allowed, MarkerOk, GoodMarker, ProvenMarked;
    var front := actions[..k];
    assert forall j :: 0 <= j < k ==> front[..j] == actions[..j];
    GoodRun(INIT, front);
    RunSplit(INIT, actions, k);
    forall j | 0 <= j < |actions| - k
      ensures Allowed(Run(Run(INIT, front), actions[k..][..j]), actions[k..][j])
    {
      RunSplit(INIT, actions[..k + j], k);
      assert actions[..k + j][..k] == front && actions[..k + j][k..] == actions[k..][..j];
    }
    GoodRun(Run(INIT, front), actions[k..]);
    assert Inv(Run(INIT, actions));
  }

  // ---------------------------------------------------------------------------------------
  // The challenge countdown
  // ---------------------------------------------------------------------------------------

  function Countdowns(actions: seq<Action>): nat {
    if actions == [] then 0
    else Countdowns(actions[..|actions| - 1]) + if actions[|actions| - 1].CountdownStatement? then 1 else 0
  }

  /** The statement saves a mark of the given kind to the withdrawal. */
  predicate Saves(w: World, a: Action, h: Hash, kind: Kind) {
    && a.SaveRow? && w.marker.Working? && w.marker.taken.Some? && w.marker.todo != []
    && w.marker.todo[0].kind == kind && w.marker.todo[0].h == h
  }

  /** The saved copy was read before a countdown that has since reached the row. */
  predicate StaleMark(w: World, a: Action, h: Hash) {
    Saves(w, a, h, MarkProven) && h in w.t.rows && w.marker.taken.value.timeLeft != w.t.rows[h].timeLeft
  }

  ghost predicate NotClaimed(w: World, actions: seq<Action>, h: Hash) {
    forall k :: 0 <= k < |actions| ==> !Saves(Run(w, actions[..k]), actions[k], h, MarkFinal)
  }

  ghost predicate NoStaleMark(w: World, actions: seq<Action>, h: Hash) {
    forall k :: 0 <= k < |actions| ==> !StaleMark(Run(w, actions[..k]), actions[k], h)
  }

  /** The withdrawal started with `window` seconds left and n countdown statements have run since. */
  ghost predicate Counted(w: World, h: Hash, window: nat, n: nat) {
    && h in w.t.rows
    && w.t.rows[h].timeLeft == (if n < window then window - n else 0)
    && (w.t.rows[h].status == IN_CHALLENGE_PERIOD || w.t.rows[h].status == READY_FOR_CLAIM)
    && (w.t.rows[h].status == READY_FOR_CLAIM ==> n >= window)
  }

  /** Any statement but a claim keeps the count, marks of the same row included, unless the saved copy is stale. */
  lemma CountedStepIff(w: World, a: Action, h: Hash, window: nat, n: nat)
    requires Inv(w) && Counted(w, h, window, n) && !Saves(w, a, h, MarkFinal)
    ensures Counted(Step(w, a), h, window, if a.CountdownStatement? then n + 1 else n) <==> !StaleMark(w, a, h)
  {
  }

  ghost predicate CountedAt(w: World, actions: seq<Action>, h: Hash, window: nat, k: nat)
    requires k <= |actions|
  {
    Counted(Run(w, actions[..k]), h, window, Countdowns(actions[..k]))
  }

  lemma CountedNext(w: World, actions: seq<Action>, h: Hash, window: nat, k: nat)
    requires Inv(w) && k < |actions| && CountedAt(w, actions, h, window, k) && NotClaimed(w, actions, h)
    ensures CountedAt(w, actions, h, window, k + 1) <==> !StaleMark(Run(w, actions[..k]), actions[k], h)
  {
    hide Counted, Step, Inv;
    assert actions[..k + 1][..k] == actions[..k];
    RunKeeps(w, actions[..k]);
    CountedStepIff(Run(w, actions[..k]), actions[k], h, window, Countdowns(actions[..k]));
  }

  lemma {:induction false} CountedUpTo(w: World, actions: seq<Action>, h: Hash, window: nat, k: nat)
    requires Inv(w) && Counted(w, h, window, 0) && k <= |actions|
    requires NotClaimed(w, actions, h) && NoStaleMark(w, actions, h)
    ensures CountedAt(w, actions, h, window, k)
  {
    hide Counted, Inv, StaleMark, Saves;
    if k == 0 {
    } else {
      CountedUpTo(w, actions, h, window, k - 1);
      CountedNext(w, actions, h, window, k - 1);
    }
  }

  /**
    While a withdrawal with W > 0 seconds left in its challenge period is not claimed, it has
    max(W - n, 0) left after n countdown statements, and is ready for claim only then, at every
    moment of the run exactly when no mark is saved to it from a stale copy.
   */
  lemma CountdownIff(w: World, actions: seq<Action>, h: Hash)
    requires Inv(w) && h in w.t.rows && w.t.rows[h].status == IN_CHALLENGE_PERIOD && w.t.rows[h].timeLeft > 0
    requires NotClaimed(w, actions, h)
    ensures (forall k :: 0 <= k <= |actions| ==> CountedAt(w, actions, h, w.t.rows[h].timeLeft, k))
            <==> NoStaleMark(w, actions, h)
  {
    var window := w.t.rows[h].timeLeft;
    assert Counted(w, h, window, 0);
    hide Counted, Inv, StaleMark, Saves, NotClaimed;
    if NoStaleMark(w, actions, h) {
      forall k | 0 <= k <= |actions|
        ensures CountedAt(w, actions, h, window, k)
      {
        CountedUpTo(w, actions, h, window, k);
      }
    }
    if forall k :: 0 <= k <= |actions| ==> CountedAt(w, actions, h, window, k) {
      forall k | 0 <= k < |actions|
        ensures !StaleMark(Run(w, actions[..k]), actions[k], h)
      {
        assert CountedAt(w, actions, h, window, k) && CountedAt(w, actions, h, window, k + 1);
        CountedNext(w, actions, h, window, k);
      }
    }
  }

  /**
    So, whatever else runs, re-marks after a crash included, the row is ready for claim exactly
    when n has reached W, once the sweep is not overdue.
   */
  lemma CountdownExact(w: World, actions: seq<Action>, h: Hash)
    requires Inv(w) && h in w.t.rows && w.t.rows[h].status == IN_CHALLENGE_PERIOD && w.t.rows[h].timeLeft > 0
    requires NotClaimed(w, actions, h) && NoStaleMark(w, actions, h)
    ensures var w', n, window := Run(w, actions), Countdowns(actions), w.t.rows[h].timeLeft;
            && h in w'.t.rows
            && w'.t.rows[h].timeLeft == (if n < window then window - n else 0)
            && (w'.t.rows[h].status == READY_FOR_CLAIM ==> n >= window)
            && (!w'.sweepDue ==> (w'.t.rows[h].status == READY_FOR_CLAIM <==> n >= window))
  {
    CountedUpTo(w, actions, h, w.t.rows[h].timeLeft, |actions|);
    assert actions[..|actions|] == actions;
    RunKeeps(w, actions);
    hide NotClaimed, NoStaleMark, Run;
  }

  // ---------------------------------------------------------------------------------------
  // When a recorded claim is undone
  // ---------------------------------------------------------------------------------------

  ghost predicate ClaimStands(w: World, h: Hash) {
    RelatedFinal(w.t, h) ==> h in w.t.rows && w.t.rows[h].status == CLAIMED
  }

  /** Every related finalized event of a block whose number has a non-zero low word has its withdrawal claimed. */
  ghost predicate ClaimsStand(w: World) {
    forall h :: ClaimStands(w, h)
  }

  /** A proven mark is saved to a withdrawal whose finalized event is already related. */
  ghost predicate Unclaims(w: World, a: Action) {
    && a.SaveRow? && w.marker.Working? && w.marker.taken.Some? && w.marker.todo != []
    && w.marker.todo[0].kind.MarkProven? && RelatedFinal(w.t, w.marker.todo[0].h)
  }

  lemma ClaimStandsStepIff(w: World, a: Action, h: Hash)
    requires Inv(w) && ClaimStands(w, h)
    ensures ClaimStands(Step(w, a), h) <==> !(Unclaims(w, a) && w.marker.todo[0].h == h)
  {
    if w.marker.Working? && w.marker.todo != [] {
      assert w.marker.todo[0] in w.marker.todo;
    }
  }

  lemma ClaimsStandStepIff(w: World, a: Action)
    requires Inv(w) && ClaimsStand(w)
    ensures ClaimsStand(Step(w, a)) <==> !Unclaims(w, a)
  {
    hide Inv, ClaimStands, RelatedFinal, Step;
    forall h: Hash
      ensures ClaimStands(Step(w, a), h) <==> !(Unclaims(w, a) && w.marker.todo[0].h == h)
    {
      assert ClaimStands(w, h);
      ClaimStandsStepIff(w, a, h);
    }
    assert Unclaims(w, a) ==> !ClaimStands(Step(w, a), w.marker.todo[0].h);
  }

  lemma ClaimsStandNext(actions: seq<Action>, k: nat)
    requires k < |actions| && ClaimsStand(Run(INIT, actions[..k]))
    ensures ClaimsStand(Run(INIT, actions[..k + 1])) <==> !Unclaims(Run(INIT, actions[..k]), actions[k])
  {
    hide ClaimsStand, Unclaims, Step, Inv;
    RunKeeps(INIT, actions[..k]);
    assert actions[..k + 1][..k] == actions[..k];
    ClaimsStandStepIff(Run(INIT, actions[..k]), actions[k]);
  }

  lemma {:induction false} ClaimsStandUpTo(actions: seq<Action>, k: nat)
    requires k <= |actions|
    requires forall i :: 0 <= i < |actions| ==> !Unclaims(Run(INIT, actions[..i]), actions[i])
    ensures ClaimsStand(Run(INIT, actions[..k]))
  {
    if k == 0 {
    } else {
      ClaimsStandUpTo(actions, k - 1);
      hide ClaimsStand, Unclaims;
      ClaimsStandNext(actions, k - 1);
    }
  }

  /**
    Related finalized events have their withdrawals claimed throughout a run exactly when no such
    save occurs in it.
   */
  lemma ClaimsStandIff(actions: seq<Action>)
    ensures (forall k :: 0 <= k <= |actions| ==> ClaimsStand(Run(INIT, actions[..k])))
            <==> (forall k :: 0 <= k < |actions| ==> !Unclaims(Run(INIT, actions[..k]), actions[k]))
  {
    hide ClaimsStand, Unclaims, Step;
    if forall k :: 0 <= k < |actions| ==> !Unclaims(Run(INIT, actions[..k]), actions[k]) {
      forall k | 0 <= k <= |actions|
        ensures ClaimsStand(Run(INIT, actions[..k]))
      {
        ClaimsStandUpTo(actions, k);
      }
    }
    if forall k :: 0 <= k <= |actions| ==> ClaimsStand(Run(INIT, actions[..k])) {
      forall k | 0 <= k < |actions|
        ensures !Unclaims(Run(INIT, actions[..k]), actions[k])
      {
        assert ClaimsStand(Run(INIT, actions[..k])) && ClaimsStand(Run(INIT, actions[..k + 1]));
        ClaimsStandNext(actions, k);
      }
    }
  }

  // ---------------------------------------------------------------------------------------
  // Runs that leave the allowed circumstances
  // ---------------------------------------------------------------------------------------

  /** A whole tick between the read and the save of a proven mark puts a finished period back. */
  lemma TickBetweenReadAndSave(w: World, row: Row)
    requires Inv(w) && w.marker.Working? && w.marker.taken == Some(row) && w.marker.todo[0].kind.MarkProven?
    requires w.t.rows[w.marker.todo[0].h] == row && row.status == IN_CHALLENGE_PERIOD && row.timeLeft == 1
    ensures var h := w.marker.todo[0].h;
            var ticked := Step(Step(w, CountdownStatement), SweepStatement);
            && ticked.t.rows[h].status == READY_FOR_CLAIM && StaleMark(ticked, SaveRow, h)
            && Step(ticked, SaveRow).t.rows[h].status == IN_CHALLENGE_PERIOD
  {
  }

  lemma FilterOne(h: Hash, p: Hash -> bool)
    ensures Seqs.Filter([h], p) == if p(h) then [h] else []
  {
    assert [h][..0] == [];
  }

  lemma OneProven(t: Tables, h: Hash)
    requires Markable(t.rows, t.proven, [h]) && t.rows[h].version != 0
    ensures ProvenTodo(t, [h]) ==
            [Op(MarkProven, h, t.proven[h].block, t.proven[h].tx),
             Op(RelateProven, h, t.proven[h].block, t.proven[h].tx)]
  {
    FilterOne(h, VersionNotZero(t.rows));
    FilterOne(h, VersionIsZero(t.rows));
    hide Seqs.Filter;
  }

  lemma OneFinal(t: Tables, h: Hash)
    requires Markable(t.rows, t.finalized, [h]) && t.rows[h].version != 0
    ensures FinalTodo(t, [h]) ==
            [Op(MarkFinal, h, t.finalized[h].block, t.finalized[h].tx),
             Op(RelateFinal, h, t.finalized[h].block, t.finalized[h].tx)]
  {
    FilterOne(h, VersionNotZero(t.rows));
    hide Seqs.Filter;
  }

  lemma RunUnroll(w: World, actions: seq<Action>, a: Action)
    ensures Run(w, actions + [a]) == Step(Run(w, actions), a)
  {
    assert (actions + [a])[..|actions|] == actions;
  }

  function ProvenOps(): seq<Op> {
    [Op(MarkProven, 1, 7, 9), Op(RelateProven, 1, 7, 9)]
  }

  lemma RunThree(a: Action, b: Action, c: Action)
    ensures Run(INIT, [a, b, c]) == Step(Step(Step(INIT, a), b), c)
  {
    hide Step;
    RunUnroll(INIT, [], a);
    RunUnroll(INIT, [a], b);
    RunUnroll(INIT, [a, b], c);
    assert [] + [a] == [a] && [a] + [b] == [a, b] && [a, b] + [c] == [a, b, c];
  }

  /** Such a world is reachable: a crash after the mark makes the next round mark the row again. */
  lemma RaceReachable()
    ensures exists actions ::
              var w := Run(INIT, actions);
              && w.marker == Working(ProvenHalf, ProvenOps(), Some(Row(5, 7, 1, IN_CHALLENGE_PERIOD, 1, 9, 0)))
              && w.t.rows == map[1 := Row(5, 7, 1, IN_CHALLENGE_PERIOD, 1, 9, 0)]
  {
    var t3 := Tables(map[1 := Row(5, 0, 1, READY_FOR_PROVED, 1, 0, 0)], map[1 := EventRow(7, 9, false)], map[]);
    RunThree(InsertWithdrawal(1, 5, 1), InsertProven(1, 7, 9), Ready(5, 1));
    var a3 := [InsertWithdrawal(1, 5, 1), InsertProven(1, 7, 9), Ready(5, 1)];
    assert Run(INIT, a3) == World(t3, Rest, false);
    hide Run, Step;
    MarkOnce(a3, t3);
    var t := t3.(rows := map[1 := Row(5, 7, 1, IN_CHALLENGE_PERIOD, 1, 9, 0)]);
    var a7 := a3 + [ReadProven([1]), TakeRow, SaveRow, Abandon];
    assert t3.rows[1 := Marked(ProvenOps()[0], t3.rows[1])] == t.rows;
    TakeOnce(a7, t);
    assert Run(INIT, a7 + [ReadProven([1]), TakeRow]).t.rows == t.rows;
  }

  lemma TakeOnce(actions: seq<Action>, t: Tables)
    requires Run(INIT, actions) == World(t, Rest, false)
    requires 1 in t.rows && t.rows[1].version == 1 && t.proven == map[1 := EventRow(7, 9, false)]
    ensures Run(INIT, actions + [ReadProven([1]), TakeRow]) ==
            World(t, Working(ProvenHalf, ProvenOps(), Some(t.rows[1])), false)
  {
    OneProven(t, 1);
    RunUnroll(INIT, actions, ReadProven([1]));
    RunUnroll(INIT, actions + [ReadProven([1])], TakeRow);
    hide Run, ProvenTodo;
    assert actions + [ReadProven([1])] + [TakeRow] == actions + [ReadProven([1]), TakeRow];
  }

  lemma MarkOnce(actions: seq<Action>, t: Tables)
    requires Run(INIT, actions) == World(t, Rest, false)
    requires 1 in t.rows && t.rows[1].version == 1 && t.proven == map[1 := EventRow(7, 9, false)]
    ensures Run(INIT, actions + [ReadProven([1]), TakeRow, SaveRow, Abandon]) ==
            World(t.(rows := t.rows[1 := Marked(ProvenOps()[0], t.rows[1])]), Rest, false)
  {
    TakeOnce(actions, t);
    var a2 := actions + [ReadProven([1]), TakeRow];
    RunUnroll(INIT, a2, SaveRow);
    RunUnroll(INIT, a2 + [SaveRow], Abandon);
    hide Run;
    assert a2 + [SaveRow] + [Abandon] == actions + [ReadProven([1]), TakeRow, SaveRow, Abandon];
  }

  lemma TakeFinalOnce(actions: seq<Action>, t: Tables)
    requires Run(INIT, actions) == World(t, Working(ProvenHalf, [], None), false)
    requires 1 in t.rows && t.rows[1].version == 1 && t.finalized == map[1 := EventRow(8, 10, false)]
    ensures Run(INIT, actions + [ReadFinal([1]), TakeRow]) ==
            World(t, Working(FinalHalf, [Op(MarkFinal, 1, 8, 10), Op(RelateFinal, 1, 8, 10)], Some(t.rows[1])), false)
  {
    OneFinal(t, 1);
    RunUnroll(INIT, actions, ReadFinal([1]));
    RunUnroll(INIT, actions + [ReadFinal([1])], TakeRow);
    hide Run, FinalTodo;
    assert actions + [ReadFinal([1])] + [TakeRow] == actions + [ReadFinal([1]), TakeRow];
  }

  lemma ClaimOnce(actions: seq<Action>, t: Tables)
    requires Run(INIT, actions) == World(t, Working(ProvenHalf, [], None), false)
    requires 1 in t.rows && t.rows[1].version == 1 && t.finalized == map[1 := EventRow(8, 10, false)]
    ensures var claimed := t.(rows := t.rows[1 := t.rows[1].(l1Block := 8, finalizeTx := 10, status := CLAIMED)]);
            && Run(INIT, actions + [ReadFinal([1]), TakeRow, SaveRow]).t == claimed
            && Run(INIT, actions + [ReadFinal([1]), TakeRow, SaveRow] + [Abandon]) == World(claimed, Rest, false)
  {
    TakeFinalOnce(actions, t);
    var a2 := actions + [ReadFinal([1]), TakeRow];
    RunUnroll(INIT, a2, SaveRow);
    assert a2 + [SaveRow] == actions + [ReadFinal([1]), TakeRow, SaveRow];
    RunUnroll(INIT, a2 + [SaveRow], Abandon);
    hide Run;
  }

  lemma FoundTooEarly()
    ensures Run(INIT, [InsertProven(1, 7, 9), InsertFinalized(1, 8, 10), ReadProven([])]
                + [InsertWithdrawal(1, 5, 1)]) ==
            World(Tables(map[1 := Row(5, 0, 1, PENDING, 0, 0, 0)], map[1 := EventRow(7, 9, false)],
                         map[1 := EventRow(8, 10, false)]),
                  Working(ProvenHalf, [], None), false)
  {
    var a3 := [InsertProven(1, 7, 9), InsertFinalized(1, 8, 10), ReadProven([])];
    RunThree(a3[0], a3[1], a3[2]);
    var t2 := Tables(map[], map[1 := EventRow(7, 9, false)], map[1 := EventRow(8, 10, false)]);
    assert ProvenTodo(t2, []) == [];
    assert Step(Step(INIT, a3[0]), a3[1]) == World(t2, Rest, false);
    RunUnroll(INIT, a3, InsertWithdrawal(1, 5, 1));
  }

  /** A withdrawal row that appears between the halves is claimed first and marked as proven later. */
  lemma ClaimedThenProven()
    ensures exists actions, k ::
              && 0 <= k <= |actions|
              && 1 in Run(INIT, actions[..k]).t.rows && Run(INIT, actions[..k]).t.rows[1].status == CLAIMED
              && 1 in Run(INIT, actions).t.rows && Run(INIT, actions).t.rows[1].status == READY_FOR_CLAIM
  {
    hide Run, Step;
    FoundTooEarly();
    var a4 := [InsertProven(1, 7, 9), InsertFinalized(1, 8, 10), ReadProven([])] + [InsertWithdrawal(1, 5, 1)];
    ClaimOnce(a4, Run(INIT, a4).t);
    var a7 := a4 + [ReadFinal([1]), TakeRow, SaveRow];
    MarkOnce(a7 + [Abandon], Run(INIT, a7 + [Abandon]).t);
    var all := a7 + [Abandon] + [ReadProven([1]), TakeRow, SaveRow, Abandon];
    assert all[..|a7|] == a7;
    assert Run(INIT, all[..|a7|]).t.rows[1].status == CLAIMED;
  }

  lemma ClaimAndRelate(actions: seq<Action>, t: Tables)
    requires Run(INIT, actions) == World(t, Working(ProvenHalf, [], None), false)
    requires 1 in t.rows && t.rows[1].version == 1 && t.finalized == map[1 := EventRow(8, 10, false)]
    ensures Run(INIT, actions + [ReadFinal([1]), TakeRow] + [SaveRow] + [RelateRow] + [Abandon]) ==
            World(Tables(t.rows[1 := t.rows[1].(l1Block := 8, finalizeTx := 10, status := CLAIMED)], t.proven,
                         map[1 := EventRow(8, 10, true)]), Rest, false)
  {
    TakeFinalOnce(actions, t);
    var a2 := actions + [ReadFinal([1]), TakeRow];
    RunUnroll(INIT, a2, SaveRow);
    RunUnroll(INIT, a2 + [SaveRow], RelateRow);
    RunUnroll(INIT, a2 + [SaveRow] + [RelateRow], Abandon);
    hide Run;
    assert t.finalized[1 := EventRow(8, 10, true)] == map[1 := EventRow(8, 10, true)];
  }

  /** A reachable state in which a finalized event is related and its withdrawal is no longer claimed. */
  lemma RelatedButNotClaimed()
    ensures exists actions ::
              var w := Run(INIT, actions);
              && RelatedFinal(w.t, 1) && 1 in w.t.rows && w.t.rows[1].status == READY_FOR_CLAIM
  {
    hide Run, Step;
    FoundTooEarly();
    var a4 := [InsertProven(1, 7, 9), InsertFinalized(1, 8, 10), ReadProven([])] + [InsertWithdrawal(1, 5, 1)];
    ClaimAndRelate(a4, Run(INIT, a4).t);
    var a9 := a4 + [ReadFinal([1]), TakeRow] + [SaveRow] + [RelateRow] + [Abandon];
    MarkOnce(a9, Run(INIT, a9).t);
    var all := a9 + [ReadProven([1]), TakeRow, SaveRow, Abandon];
    assert Run(INIT, all).t.rows[1].status == READY_FOR_CLAIM;
    assert RelatedFinal(Run(INIT, all).t, 1);
  }
}
