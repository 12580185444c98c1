/** What the reconciliation accepts, judged by a ledger of the bridge's two chains. */
module ReconciliationLedger {
  import opened Wrappers
  import opened BigInt
  import opened Seqs
  import opened Reconciliation

  /** A completed transfer's block and transaction on the other chain. */
  datatype Arrival = Arrival(block: nat, tx: Hash)

  /**
    One transfer and its value; `unused` is whatever the amount column holds that the kind of
    token does not use.
   */
  datatype Deposit = Deposit(l1Block: nat, relay: Option<Arrival>, l1Token: Address, l2Token: Address, value: nat,
                             unused: int)
  datatype Withdrawal = Withdrawal(l2Block: nat, claim: Option<Arrival>, l1Token: Address, l2Token: Address,
                                   value: nat, unused: int)

  /** Both chains, with the bridge balance and the supply of the token before every transfer. */
  datatype Ledger = Ledger(deposits: seq<Deposit>, withdrawals: seq<Withdrawal>, balance0: int, supply0: int)

  // How the indexer's tables show the ledger

  function DepositRowOf(d: Deposit): DepositRow {
    var (block, tx) := if d.relay.Some? then (d.relay.value.block, d.relay.value.tx) else (0, NO_TX);
    DepositRow(d.l1Block, block, d.l1Token, d.l2Token, tx,
               if d.l1Token == ETH then d.value else d.unused, if d.l1Token == ETH then d.unused else d.value)
  }

  function WithdrawalRowOf(w: Withdrawal): WithdrawalRow {
    var (block, tx) := if w.claim.Some? then (w.claim.value.block, w.claim.value.tx) else (0, NO_TX);
    WithdrawalRow(w.l2Block, block, w.l1Token, w.l2Token, tx,
                  if w.l1Token == ETH then w.value else w.unused, if w.l1Token == ETH then w.unused else w.value)
  }

  function DepositRows(ds: seq<Deposit>): (rows: seq<DepositRow>)
    ensures |rows| == |ds| && forall i :: 0 <= i < |ds| ==> rows[i] == DepositRowOf(ds[i])
  {
    seq(|ds|, i requires 0 <= i < |ds| => DepositRowOf(ds[i]))
  }

  function WithdrawalRows(ws: seq<Withdrawal>): (rows: seq<WithdrawalRow>)
    ensures |rows| == |ws| && forall i :: 0 <= i < |ws| ==> rows[i] == WithdrawalRowOf(ws[i])
  {
    seq(|ws|, i requires 0 <= i < |ws| => WithdrawalRowOf(ws[i]))
  }

  // Balances: depositing pays into the L1 bridge and relaying mints; initiating burns and claiming pays out

  function PaidIn(token: Address, height: nat): Deposit -> int {
    (d: Deposit) => if d.l1Token == token && d.l1Block <= height then d.value else 0
  }

  function Minted(token: Address, height: nat): Deposit -> int {
    (d: Deposit) => if d.l2Token == token && d.relay.Some? && d.relay.value.block <= height then d.value else 0
  }

  function Burned(token: Address, height: nat): Withdrawal -> int {
    (w: Withdrawal) => if w.l2Token == token && w.l2Block <= height then w.value else 0
  }

  function PaidOut(token: Address, height: nat): Withdrawal -> int {
    (w: Withdrawal) => if w.l1Token == token && w.claim.Some? && w.claim.value.block <= height then w.value else 0
  }

  function BalanceAt(ledger: Ledger, token: Address, height: nat): int {
    ledger.balance0 + Sum(ledger.deposits, PaidIn(token, height)) - Sum(ledger.withdrawals, PaidOut(token, height))
  }

  function SupplyAt(ledger: Ledger, token: Address, height: nat): int {
    ledger.supply0 + Sum(ledger.deposits, Minted(token, height)) - Sum(ledger.withdrawals, Burned(token, height))
  }

  // What the corrections leave over

  /** Withdrawals initiated after the checkpoint's L2 block that are already claimed. */
  function ClaimedSince(cp: Checkpoint): Withdrawal -> int {
    (w: Withdrawal) => if w.l2Token == cp.l2Token && w.l2Block > cp.l2Number && w.claim.Some? then w.value else 0
  }

  /** The share of a deposit's value by which the corrected difference is off. */
  function DepositWeight(cp: Checkpoint, d: Deposit): int {
    if d.l1Token != cp.l1Token then 0
    else if d.relay.None? then (if d.l1Block > cp.l1Number then 2 else 0)
    else if d.relay.value.block <= cp.l2Number then (if d.l1Block > cp.l1Number then 1 else 0)
    else if d.l1Block > cp.l1Number then 0
    else if d.l1Block == cp.l1Number then -1
    else -2
  }

  function DepositResidue(cp: Checkpoint): Deposit -> int {
    (d: Deposit) => DepositWeight(cp, d) * d.value
  }

  /** The two sides of a token are used together, and arrivals have transaction hashes. */
  ghost predicate DepositOk(cp: Checkpoint, r: Reading, d: Deposit) {
    && (d.l1Token == cp.l1Token <==> d.l2Token == cp.l2Token)
    && d.l1Block <= r.l1Latest
    && (d.relay.Some? ==> d.relay.value.tx != NO_TX && d.relay.value.block <= r.l2Latest)
  }

  ghost predicate WithdrawalOk(cp: Checkpoint, r: Reading, w: Withdrawal) {
    && (w.l1Token == cp.l1Token <==> w.l2Token == cp.l2Token)
    && w.l2Block <= r.l2Latest
    && (w.claim.Some? ==> w.claim.value.tx != NO_TX && w.claim.value.block <= r.l1Latest)
  }

  /** The ledger as of a reading, whose heights fit the columns and do not precede the checkpoint's. */
  ghost predicate LedgerOk(ledger: Ledger, cp: Checkpoint, r: Reading) {
    && cp.l1Number <= r.l1Latest < TWO_64 && cp.l2Number <= r.l2Latest < TWO_64
    && (forall d :: d in ledger.deposits ==> DepositOk(cp, r, d))
    && (forall w :: w in ledger.withdrawals ==> WithdrawalOk(cp, r, w))
  }

  /** The reading and the checkpoint state what the ledger holds at their heights. */
  ghost predicate ReadsLedger(ledger: Ledger, cp: Checkpoint, r: Reading) {
    && r.balance == BalanceAt(ledger, cp.l1Token, r.l1Latest) && r.supply == SupplyAt(ledger, cp.l2Token, r.l2Latest)
    && cp.balance == BalanceAt(ledger, cp.l1Token, cp.l1Number)
    && cp.supply == SupplyAt(ledger, cp.l2Token, cp.l2Number)
  }

  /** The tables hold the ledger's rows in some order. */
  ghost predicate Shows(deposits: seq<DepositRow>, withdrawals: seq<WithdrawalRow>, ledger: Ledger) {
    && multiset(deposits) == multiset(DepositRows(ledger.deposits))
    && multiset(withdrawals) == multiset(WithdrawalRows(ledger.withdrawals))
  }

  lemma {:induction false} DepositTerms(ds: seq<Deposit>, cp: Checkpoint, r: Reading)
    requires cp.l1Number <= r.l1Latest < TWO_64 && cp.l2Number <= r.l2Latest < TWO_64
    requires forall d :: d in ds ==> DepositOk(cp, r, d)
    ensures Sum(ds, PaidIn(cp.l1Token, r.l1Latest)) - Sum(ds, PaidIn(cp.l1Token, cp.l1Number))
            - (Sum(ds, Minted(cp.l2Token, r.l2Latest)) - Sum(ds, Minted(cp.l2Token, cp.l2Number)))
            - Sum(Filter(DepositRows(ds), RelayedLate(cp)), DepositAmount)
            + Sum(Filter(DepositRows(ds), Unrelayed(cp, r.l1Latest)), DepositAmount) ==
            Sum(ds, DepositResidue(cp))
  {
    if ds == [] {
    } else {
      var n := |ds| - 1;
      var d := ds[n];
      DepositTerms(ds[..n], cp, r);
      assert ds == ds[..n] + [d];
      assert DepositRows(ds) == DepositRows(ds[..n]) + [DepositRowOf(d)];
      SumFilterSnoc(DepositRows(ds[..n]), DepositRowOf(d), RelayedLate(cp), DepositAmount);
      SumFilterSnoc(DepositRows(ds[..n]), DepositRowOf(d), Unrelayed(cp, r.l1Latest), DepositAmount);
      SumSnoc(ds[..n], d, PaidIn(cp.l1Token, r.l1Latest));
      SumSnoc(ds[..n], d, PaidIn(cp.l1Token, cp.l1Number));
      SumSnoc(ds[..n], d, Minted(cp.l2Token, r.l2Latest));
      SumSnoc(ds[..n], d, Minted(cp.l2Token, cp.l2Number));
      SumSnoc(ds[..n], d, DepositResidue(cp));
      DepositTerm(d, cp, r);
      hide Sum, Filter, DepositRows, DepositRowOf, DepositWeight, DepositOk;
    }
  }

  /** The contribution of one deposit to the corrected difference. */
  lemma DepositTerm(d: Deposit, cp: Checkpoint, r: Reading)
    requires cp.l1Number <= r.l1Latest && cp.l2Number <= r.l2Latest && DepositOk(cp, r, d)
    ensures PaidIn(cp.l1Token, r.l1Latest)(d) - PaidIn(cp.l1Token, cp.l1Number)(d)
            - (Minted(cp.l2Token, r.l2Latest)(d) - Minted(cp.l2Token, cp.l2Number)(d))
            - (if RelayedLate(cp)(DepositRowOf(d)) then DepositAmount(DepositRowOf(d)) else 0)
            + (if Unrelayed(cp, r.l1Latest)(DepositRowOf(d)) then DepositAmount(DepositRowOf(d)) else 0) ==
            DepositResidue(cp)(d)
  {
  }

  lemma {:induction false} WithdrawalTerms(ws: seq<Withdrawal>, cp: Checkpoint, r: Reading)
    requires cp.l1Number <= r.l1Latest < TWO_64 && cp.l2Number <= r.l2Latest < TWO_64
    requires forall w :: w in ws ==> WithdrawalOk(cp, r, w)
    ensures Sum(ws, Burned(cp.l2Token, r.l2Latest)) - Sum(ws, Burned(cp.l2Token, cp.l2Number))
            - (Sum(ws, PaidOut(cp.l1Token, r.l1Latest)) - Sum(ws, PaidOut(cp.l1Token, cp.l1Number)))
            - Sum(Filter(WithdrawalRows(ws), Unclaimed(cp, r.l2Latest)), WithdrawalAmount)
            + Sum(Filter(WithdrawalRows(ws), ClaimedIn(cp, r.l1Latest)), WithdrawalAmount) ==
            Sum(ws, ClaimedSince(cp))
  {
    if ws == [] {
    } else {
      var n := |ws| - 1;
      var w := ws[n];
      WithdrawalTerms(ws[..n], cp, r);
      assert ws == ws[..n] + [w];
      assert WithdrawalRows(ws) == WithdrawalRows(ws[..n]) + [WithdrawalRowOf(w)];
      SumFilterSnoc(WithdrawalRows(ws[..n]), WithdrawalRowOf(w), Unclaimed(cp, r.l2Latest), WithdrawalAmount);
      SumFilterSnoc(WithdrawalRows(ws[..n]), WithdrawalRowOf(w), ClaimedIn(cp, r.l1Latest), WithdrawalAmount);
      SumSnoc(ws[..n], w, Burned(cp.l2Token, r.l2Latest));
      SumSnoc(ws[..n], w, Burned(cp.l2Token, cp.l2Number));
      SumSnoc(ws[..n], w, PaidOut(cp.l1Token, r.l1Latest));
      SumSnoc(ws[..n], w, PaidOut(cp.l1Token, cp.l1Number));
      SumSnoc(ws[..n], w, ClaimedSince(cp));
      WithdrawalTerm(w, cp, r);
      hide Sum, Filter, WithdrawalRows, WithdrawalRowOf, WithdrawalOk;
    }
  }

  /** The claim cancels against its correction, the burn against its own unless the claim came too. */
  lemma WithdrawalTerm(w: Withdrawal, cp: Checkpoint, r: Reading)
    requires cp.l1Number <= r.l1Latest && cp.l2Number <= r.l2Latest && WithdrawalOk(cp, r, w)
    ensures Burned(cp.l2Token, r.l2Latest)(w) - Burned(cp.l2Token, cp.l2Number)(w)
            - (PaidOut(cp.l1Token, r.l1Latest)(w) - PaidOut(cp.l1Token, cp.l1Number)(w))
            - (if Unclaimed(cp, r.l2Latest)(WithdrawalRowOf(w)) then WithdrawalAmount(WithdrawalRowOf(w)) else 0)
            + (if ClaimedIn(cp, r.l1Latest)(WithdrawalRowOf(w)) then WithdrawalAmount(WithdrawalRowOf(w)) else 0) ==
            ClaimedSince(cp)(w)
  {
  }

  /**
    On any ledger, what the corrected difference is off by: the withdrawals initiated after the
    checkpoint and already claimed, and a signed multiple of every deposit that moved.
   */
  lemma Residue(ledger: Ledger, deposits: seq<DepositRow>, withdrawals: seq<WithdrawalRow>, cp: Checkpoint, r: Reading)
    requires LedgerOk(ledger, cp, r) && ReadsLedger(ledger, cp, r) && Shows(deposits, withdrawals, ledger)
    ensures Adjusted(deposits, withdrawals, cp, r) - (cp.balance - cp.supply) ==
            Sum(ledger.withdrawals, ClaimedSince(cp)) + Sum(ledger.deposits, DepositResidue(cp))
    ensures Aligned(deposits, withdrawals, cp, r) <==>
            || r.balance - r.supply == cp.balance - cp.supply
            || Sum(ledger.withdrawals, ClaimedSince(cp)) + Sum(ledger.deposits, DepositResidue(cp)) == 0
  {
    AlignedInAnyOrder(deposits, DepositRows(ledger.deposits), withdrawals, WithdrawalRows(ledger.withdrawals), cp, r);
    DepositTerms(ledger.deposits, cp, r);
    WithdrawalTerms(ledger.withdrawals, cp, r);
    hide Sum, Filter, DepositRows, WithdrawalRows;
  }

  /** No deposit was made after the checkpoint's L1 block or relayed after its L2 block. */
  ghost predicate NoDepositActivity(ledger: Ledger, cp: Checkpoint) {
    forall d :: d in ledger.deposits && d.l1Token == cp.l1Token ==>
      d.l1Block <= cp.l1Number && (d.relay.Some? ==> d.relay.value.block <= cp.l2Number)
  }

  /** No withdrawal of value that was initiated after the checkpoint's L2 block has been claimed. */
  ghost predicate NothingClaimedSince(ledger: Ledger, cp: Checkpoint) {
    forall w :: w in ledger.withdrawals && w.l2Token == cp.l2Token && w.l2Block > cp.l2Number && w.claim.Some? ==>
      w.value == 0
  }

  /** What was burned and what was paid out between the checkpoint and the reading. */
  function InitiatedSince(ledger: Ledger, cp: Checkpoint, r: Reading): int {
    Sum(ledger.withdrawals, Burned(cp.l2Token, r.l2Latest)) - Sum(ledger.withdrawals, Burned(cp.l2Token, cp.l2Number))
  }

  function PaidSince(ledger: Ledger, cp: Checkpoint, r: Reading): int {
    Sum(ledger.withdrawals, PaidOut(cp.l1Token, r.l1Latest)) - Sum(ledger.withdrawals, PaidOut(cp.l1Token, cp.l1Number))
  }

  /**
    Withdrawals alone: a reading is accepted exactly when as much was claimed as was initiated
    since the checkpoint, or nothing of value initiated since then has been claimed yet.
   */
  lemma CheckedIff(ledger: Ledger, deposits: seq<DepositRow>, withdrawals: seq<WithdrawalRow>, cp: Checkpoint,
                   r: Reading)
    requires LedgerOk(ledger, cp, r) && ReadsLedger(ledger, cp, r) && Shows(deposits, withdrawals, ledger)
    requires NoDepositActivity(ledger, cp)
    ensures Adjusted(deposits, withdrawals, cp, r) - (cp.balance - cp.supply) ==
            Sum(ledger.withdrawals, ClaimedSince(cp))
    ensures Aligned(deposits, withdrawals, cp, r) <==>
            || InitiatedSince(ledger, cp, r) == PaidSince(ledger, cp, r)
            || NothingClaimedSince(ledger, cp)
  {
    Residue(ledger, deposits, withdrawals, cp, r);
    SumZero(ledger.deposits, DepositResidue(cp));
    SumOfNats(ledger.withdrawals, ClaimedSince(cp));
    DepositsAtRest(ledger.deposits, cp, r);
    assert (forall w :: w in ledger.withdrawals ==> ClaimedSince(cp)(w) == 0) <==>
      NothingClaimedSince(ledger, cp);
    hide Sum, Adjusted;
  }

  lemma {:induction false} DepositsAtRest(ds: seq<Deposit>, cp: Checkpoint, r: Reading)
    requires cp.l1Number <= r.l1Latest && cp.l2Number <= r.l2Latest
    requires forall d :: d in ds ==> DepositOk(cp, r, d)
    requires forall d :: d in ds && d.l1Token == cp.l1Token ==>
               d.l1Block <= cp.l1Number && (d.relay.Some? ==> d.relay.value.block <= cp.l2Number)
    ensures Sum(ds, PaidIn(cp.l1Token, r.l1Latest)) == Sum(ds, PaidIn(cp.l1Token, cp.l1Number))
    ensures Sum(ds, Minted(cp.l2Token, r.l2Latest)) == Sum(ds, Minted(cp.l2Token, cp.l2Number))
  {
    if ds == [] {
    } else {
      DepositsAtRest(ds[..|ds| - 1], cp, r);
    }
  }

  /** A single deposit that is still under way makes an honest bridge fail the comparison by twice its value. */
  lemma PendingDepositNotAligned(d: Deposit, cp: Checkpoint, r: Reading)
    requires DepositOk(cp, r, d) && d.l1Token == cp.l1Token && d.relay.None? && d.l1Block > cp.l1Number && d.value > 0
    requires var ledger := Ledger([d], [], 0, 0);
             LedgerOk(ledger, cp, r) && ReadsLedger(ledger, cp, r)
    ensures !Aligned(DepositRows([d]), WithdrawalRows([]), cp, r)
    ensures Adjusted(DepositRows([d]), WithdrawalRows([]), cp, r) - (cp.balance - cp.supply) == 2 * d.value
  {
    var ledger := Ledger([d], [], 0, 0);
    Residue(ledger, DepositRows([d]), WithdrawalRows([]), cp, r);
    SumSnoc([], d, DepositResidue(cp));
    SumSnoc([], d, PaidIn(cp.l1Token, r.l1Latest));
    SumSnoc([], d, PaidIn(cp.l1Token, cp.l1Number));
    SumSnoc([], d, Minted(cp.l2Token, r.l2Latest));
    SumSnoc([], d, Minted(cp.l2Token, cp.l2Number));
    assert [] + [d] == [d];
    hide Adjusted;
  }

  /**
    From round to round. A row added from a reading that states the ledger is a checkpoint that
    states it at the same heights, so the next reading of the token is recorded, with its own
    figures, and accepted exactly as CheckedIff says for withdrawals since the first reading.
   */
  lemma ConsecutiveRounds(ledger: Ledger, before: seq<Checkpoint>, table: seq<Checkpoint>, token1: Address,
                          token2: Address,
                          r1: Reading, d1: seq<DepositRow>, w1: seq<WithdrawalRow>, cp: Checkpoint,
                          r2: Reading, d2: seq<DepositRow>, w2: seq<WithdrawalRow>)
    requires r1.l1Latest <= r2.l1Latest < TWO_64 && r1.l2Latest <= r2.l2Latest < TWO_64
    requires Added(LatestPerToken(before), d1, w1, token1, token2, r1) == [cp] && Newest(table, cp)
    requires r1.balance == BalanceAt(ledger, token1, r1.l1Latest) && r1.supply == SupplyAt(ledger, token2, r1.l2Latest)
    requires r2.balance == BalanceAt(ledger, token1, r2.l1Latest) && r2.supply == SupplyAt(ledger, token2, r2.l2Latest)
    requires LedgerOk(ledger, cp, r2) && Shows(d2, w2, ledger) && NoDepositActivity(ledger, cp)
    ensures ReadsLedger(ledger, cp, r2)
    ensures var added := Added(LatestPerToken(table), d2, w2, token1, token2, r2);
            && |added| == 1
            && added[0].balance == r2.balance && added[0].supply == r2.supply
            && (added[0].checked <==>
                  InitiatedSince(ledger, cp, r2) == PaidSince(ledger, cp, r2) || NothingClaimedSince(ledger, cp))
  {
    hide BalanceAt, SupplyAt, Added, LatestPerToken, Aligned, Shows, NoDepositActivity, LedgerOk, Newest;
    AddedExactly(before, d1, w1, token1, token2, r1);
    AddedExactly(table, d2, w2, token1, token2, r2);
    CheckedIff(ledger, d2, w2, cp, r2);
  }
}
