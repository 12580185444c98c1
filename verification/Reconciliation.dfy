/** The comparison of bridge balances with token supplies between two checkpoints. */
module Reconciliation {
  import opened Wrappers
  import opened BigInt
  import opened Seqs

  type Address = nat
  type Hash = nat

  /** The zero address stands for ETH, the zero hash for a transaction that has not happened. */
  const ETH: Address := 0
  const NO_TX: Hash := 0

  datatype DepositRow = DepositRow(l1Block: nat, l2Block: nat, l1Token: Address, l2Token: Address, l2Tx: Hash,
                                   eth: int, erc20: int)

  datatype WithdrawalRow = WithdrawalRow(l2Block: nat, l1Block: nat, l1Token: Address, l2Token: Address,
                                         finalizeTx: Hash,
                                         eth: int, erc20: int)

  /** A row whose balance and supply are stored as strings; `decodable` says that both are decimal numbers. */
  datatype Checkpoint = Checkpoint(l1Number: nat, l1Token: Address, l2Number: nat, l2Token: Address,
                                   balance: int, supply: int, checked: bool, decodable: bool)

  function DepositAmount(d: DepositRow): int {
    if d.l1Token == ETH then d.eth else d.erc20
  }

  function WithdrawalAmount(w: WithdrawalRow): int {
    if w.l1Token == ETH then w.eth else w.erc20
  }

  // The conditions of the four window queries

  function Unrelayed(cp: Checkpoint, l1Latest: nat): DepositRow -> bool {
    (d: DepositRow) => cp.l1Number < d.l1Block <= l1Latest && d.l1Token == cp.l1Token && d.l2Tx == NO_TX
  }

  function RelayedLate(cp: Checkpoint): DepositRow -> bool {
    (d: DepositRow) => d.l1Block < cp.l1Number && d.l2Block > cp.l2Number && d.l1Token == cp.l1Token && d.l2Tx != NO_TX
  }

  function Unclaimed(cp: Checkpoint, l2Latest: nat): WithdrawalRow -> bool {
    (w: WithdrawalRow) => cp.l2Number < w.l2Block <= l2Latest && w.l2Token == cp.l2Token && w.finalizeTx == NO_TX
  }

  function ClaimedIn(cp: Checkpoint, l1Latest: nat): WithdrawalRow -> bool {
    (w: WithdrawalRow) => cp.l1Number < w.l1Block <= l1Latest && w.l2Token == cp.l2Token && w.finalizeTx != NO_TX
  }

  /** What one round reads for a token: the latest stored heights, the bridge balance and the token supply. */
  datatype Reading = Reading(l1Latest: nat, l2Latest: nat, balance: int, supply: int)

  /** The difference of the latest reading after the four corrections. */
  function Adjusted(deposits: seq<DepositRow>, withdrawals: seq<WithdrawalRow>, cp: Checkpoint, r: Reading): int {
    r.balance - r.supply
    - Sum(Filter(deposits, RelayedLate(cp)), DepositAmount)
    - Sum(Filter(withdrawals, Unclaimed(cp, Uint64(r.l2Latest))), WithdrawalAmount)
    + Sum(Filter(deposits, Unrelayed(cp, Uint64(r.l1Latest))), DepositAmount)
    + Sum(Filter(withdrawals, ClaimedIn(cp, Uint64(r.l1Latest))), WithdrawalAmount)
  }

  predicate Aligned(deposits: seq<DepositRow>, withdrawals: seq<WithdrawalRow>, cp: Checkpoint, r: Reading) {
    || r.balance - r.supply == cp.balance - cp.supply
    || Adjusted(deposits, withdrawals, cp, r) == cp.balance - cp.supply
  }

  /** The order in which the rows are stored or listed does not matter. */
  lemma AlignedInAnyOrder(d: seq<DepositRow>, d': seq<DepositRow>, w: seq<WithdrawalRow>, w': seq<WithdrawalRow>,
                          cp: Checkpoint, r: Reading)
    requires multiset(d) == multiset(d') && multiset(w) == multiset(w')
    ensures Adjusted(d, w, cp, r) == Adjusted(d', w', cp, r)
    ensures Aligned(d, w, cp, r) <==> Aligned(d', w', cp, r)
  {
    FilteredSum(d, d', RelayedLate(cp), DepositAmount);
    FilteredSum(d, d', Unrelayed(cp, Uint64(r.l1Latest)), DepositAmount);
    FilteredSum(w, w', Unclaimed(cp, Uint64(r.l2Latest)), WithdrawalAmount);
    FilteredSum(w, w', ClaimedIn(cp, Uint64(r.l1Latest)), WithdrawalAmount);
  }

  lemma FilteredSum<T(!new)>(a: seq<T>, b: seq<T>, p: T -> bool, f: T -> int)
    requires multiset(a) == multiset(b)
    ensures Sum(Filter(a, p), f) == Sum(Filter(b, p), f)
  {
    FilterPermutation(a, b, p);
    SumPermutation(Filter(a, p), Filter(b, p), f);
  }

  /** The highest-numbered checkpoint of each token; ids grow along the table. */
  function LatestPerToken(table: seq<Checkpoint>): seq<Checkpoint> {
    if table == [] then []
    else
      var last := table[|table| - 1];
      Filter(LatestPerToken(table[..|table| - 1]), (c: Checkpoint) => c.l1Token != last.l1Token) + [last]
  }

  ghost predicate OnePerToken(cps: seq<Checkpoint>) {
    forall i, j :: 0 <= i < j < |cps| ==> cps[i].l1Token != cps[j].l1Token
  }

  /** The checkpoint is in the table and no later one is of its token. */
  ghost predicate Newest(table: seq<Checkpoint>, c: Checkpoint) {
    exists i :: 0 <= i < |table| && table[i] == c && forall j :: i < j < |table| ==> table[j].l1Token != c.l1Token
  }

  lemma NewestSnoc(table: seq<Checkpoint>, c: Checkpoint, last: Checkpoint)
    ensures Newest(table + [last], c) <==> c == last || (Newest(table, c) && c.l1Token != last.l1Token)
  {
    var all := table + [last];
    if i :| 0 <= i < |all| && all[i] == c && forall j :: i < j < |all| ==> all[j].l1Token != c.l1Token {
      if i < |table| {
        assert table[i] == c && all[|table|] == last;
        assert forall j :: i < j < |table| ==> table[j] == all[j];
      }
    }
    if i :| 0 <= i < |table| && table[i] == c && forall j :: i < j < |table| ==> table[j].l1Token != c.l1Token {
      if c.l1Token != last.l1Token {
        assert all[i] == c && forall j :: i < j < |all| ==> all[j].l1Token != c.l1Token;
      }
    }
    if c == last {
      assert all[|table|] == c;
    }
  }

  /** Every token with a checkpoint has exactly one entry, its newest. */
  lemma {:induction false} LatestIsLast(table: seq<Checkpoint>)
    ensures OnePerToken(LatestPerToken(table))
    ensures forall c :: c in LatestPerToken(table) <==> Newest(table, c)
  {
    if table == [] {
    } else {
      hide Newest;
      var n := |table| - 1;
      var last := table[n];
      var p := (c: Checkpoint) => c.l1Token != last.l1Token;
      var before := LatestPerToken(table[..n]);
      assert table == table[..n] + [last];
      LatestIsLast(table[..n]);
      FilterKeepsDistinct(before, p);
      forall c: Checkpoint
        ensures c in Filter(before, p) <==> c in before && p(c)
        ensures Newest(table, c) <==> c == last || (Newest(table[..n], c) && c.l1Token != last.l1Token)
      {
        FilterMember(before, p, c);
        NewestSnoc(table[..n], c, last);
      }
    }
  }

  lemma {:induction false} FilterKeepsDistinct(cps: seq<Checkpoint>, p: Checkpoint -> bool)
    requires OnePerToken(cps)
    ensures OnePerToken(Filter(cps, p))
  {
    if cps == [] {
    } else {
      var n := |cps| - 1;
      FilterKeepsDistinct(cps[..n], p);
      forall i | 0 <= i < |Filter(cps[..n], p)|
        ensures Filter(cps[..n], p)[i].l1Token != cps[n].l1Token
      {
        FilterMember(cps[..n], p, Filter(cps[..n], p)[i]);
      }
    }
  }

  /** The checkpoints one reading of a token adds. */
  function Added(latest: seq<Checkpoint>, deposits: seq<DepositRow>, withdrawals: seq<WithdrawalRow>,
                 l1Token: Address, l2Token: Address, r: Reading): seq<Checkpoint> {
    var newCheckpoint := Checkpoint(Uint64(r.l1Latest), l1Token, Uint64(r.l2Latest), l2Token, r.balance, r.supply,
                                    false, true);
    if latest == [] then [newCheckpoint.(checked := true)]
    else
      match Lookup(latest, l1Token)
      case None => []
      case Some(cp) => if cp.decodable then [newCheckpoint.(checked := Aligned(deposits, withdrawals, cp, r))] else []
  }

  function Lookup(cps: seq<Checkpoint>, token: Address): Option<Checkpoint> {
    if cps == [] then None
    else if cps[0].l1Token == token then Some(cps[0])
    else Lookup(cps[1..], token)
  }

  lemma {:induction false} LookupAt(cps: seq<Checkpoint>, i: nat)
    requires OnePerToken(cps) && i < |cps|
    ensures Lookup(cps, cps[i].l1Token) == Some(cps[i])
  {
    if i == 0 {
    } else {
      assert cps[0].l1Token != cps[i].l1Token;
      LookupAt(cps[1..], i - 1);
    }
  }

  lemma {:induction false} LookupNone(cps: seq<Checkpoint>, token: Address)
    ensures Lookup(cps, token).None? <==> forall c :: c in cps ==> c.l1Token != token
  {
    if cps == [] {
    } else {
      LookupNone(cps[1..], token);
      assert cps == [cps[0]] + cps[1..];
    }
  }

  /** The four accumulation loops over lists in whatever order the queries returned them. */
  method Accumulate(start: int, deposits: seq<DepositRow>, withdraws: seq<WithdrawalRow>,
                    l2NotRelayedDeposits: seq<DepositRow>, claimedWithdraws: seq<WithdrawalRow>)
    returns (latestDifferenceValue: int)
    ensures latestDifferenceValue == start - Sum(deposits, DepositAmount) - Sum(withdraws, WithdrawalAmount)
                                     + Sum(l2NotRelayedDeposits, DepositAmount)
                                       + Sum(claimedWithdraws, WithdrawalAmount)
  {
    latestDifferenceValue := start;
    for i := 0 to |deposits|
      invariant latestDifferenceValue == start - Sum(deposits[..i], DepositAmount)
    {
      assert deposits[..i + 1][..i] == deposits[..i];
      var deposit := deposits[i];
      if deposit.l1Token == ETH {
        latestDifferenceValue := latestDifferenceValue - deposit.eth;
      } else {
        latestDifferenceValue := latestDifferenceValue - deposit.erc20;
      }
    }
    assert deposits[..|deposits|] == deposits;
    ghost var afterDeposits := latestDifferenceValue;
    for i := 0 to |withdraws|
      invariant latestDifferenceValue == afterDeposits - Sum(withdraws[..i], WithdrawalAmount)
    {
      assert withdraws[..i + 1][..i] == withdraws[..i];
      var withdraw := withdraws[i];
      if withdraw.l1Token == ETH {
        latestDifferenceValue := latestDifferenceValue - withdraw.eth;
      } else {
        latestDifferenceValue := latestDifferenceValue - withdraw.erc20;
      }
    }
    assert withdraws[..|withdraws|] == withdraws;
    ghost var afterWithdraws := latestDifferenceValue;
    for i := 0 to |l2NotRelayedDeposits|
      invariant latestDifferenceValue == afterWithdraws + Sum(l2NotRelayedDeposits[..i], DepositAmount)
    {
      assert l2NotRelayedDeposits[..i + 1][..i] == l2NotRelayedDeposits[..i];
      var deposit := l2NotRelayedDeposits[i];
      if deposit.l1Token == ETH {
        latestDifferenceValue := latestDifferenceValue + deposit.eth;
      } else {
        latestDifferenceValue := latestDifferenceValue + deposit.erc20;
      }
    }
    assert l2NotRelayedDeposits[..|l2NotRelayedDeposits|] == l2NotRelayedDeposits;
    ghost var afterNotRelayed := latestDifferenceValue;
    for i := 0 to |claimedWithdraws|
      invariant latestDifferenceValue == afterNotRelayed + Sum(claimedWithdraws[..i], WithdrawalAmount)
    {
      assert claimedWithdraws[..i + 1][..i] == claimedWithdraws[..i];
      var withdraw := claimedWithdraws[i];
      if withdraw.l1Token == ETH {
        latestDifferenceValue := latestDifferenceValue + withdraw.eth;
      } else {
        latestDifferenceValue := latestDifferenceValue + withdraw.erc20;
      }
    }
    assert claimedWithdraws[..|claimedWithdraws|] == claimedWithdraws;
  }

  /** The token's checkpoint has a string that is no number, which ends the round without an error. */
  predicate Undecodable(latest: seq<Checkpoint>, token: Address) {
    var found := Lookup(latest, token);
    found.Some? && !found.value.decodable
  }

  /**
    The checkpoints a whole round adds: a failed reading or an undecodable row ends it and keeps
    what it stored before.
   */
  function RoundAdds(latest: seq<Checkpoint>, deposits: seq<DepositRow>, withdrawals: seq<WithdrawalRow>,
                     l1Tokens: seq<Address>, l2Tokens: seq<Address>, readings: seq<Option<Reading>>): seq<Checkpoint>
    requires |l1Tokens| == |readings| <= |l2Tokens|
    decreases |l1Tokens|
  {
    if l1Tokens == [] || readings[0].None? || Undecodable(latest, l1Tokens[0]) then []
    else Added(latest, deposits, withdrawals, l1Tokens[0], l2Tokens[0], readings[0].value)
         + RoundAdds(latest, deposits, withdrawals, l1Tokens[1..], l2Tokens[1..], readings[1..])
  }

  lemma RoundStep(latest: seq<Checkpoint>, deposits: seq<DepositRow>, withdrawals: seq<WithdrawalRow>,
                  l1Tokens: seq<Address>, l2Tokens: seq<Address>, readings: seq<Option<Reading>>, i: nat)
    requires |l1Tokens| == |readings| <= |l2Tokens| && i < |l1Tokens|
    ensures RoundAdds(latest, deposits, withdrawals, l1Tokens[i..], l2Tokens[i..], readings[i..]) ==
            if readings[i].None? || Undecodable(latest, l1Tokens[i]) then []
            else Added(latest, deposits, withdrawals, l1Tokens[i], l2Tokens[i], readings[i].value)
                 + RoundAdds(latest, deposits, withdrawals, l1Tokens[i + 1..], l2Tokens[i + 1..], readings[i + 1..])
  {
    hide Added, Undecodable;
    assert l1Tokens[i..][1..] == l1Tokens[i + 1..] && l2Tokens[i..][1..] == l2Tokens[i + 1..];
    assert readings[i..][1..] == readings[i + 1..];
  }

  /** The i-th reading fails and no earlier token ends the round. */
  ghost predicate FailsFirst(latest: seq<Checkpoint>, l1Tokens: seq<Address>, readings: seq<Option<Reading>>, i: nat)
    requires |l1Tokens| == |readings| && i < |readings|
  {
    readings[i].None? && forall j :: 0 <= j < i ==> readings[j].Some? && !Undecodable(latest, l1Tokens[j])
  }

  class BridgeCheckpointDB {
    var checkpoints: seq<Checkpoint>
    const deposits: seq<DepositRow>
    const withdrawals: seq<WithdrawalRow>

    constructor (deposits: seq<DepositRow>, withdrawals: seq<WithdrawalRow>)
      ensures this.deposits == deposits && this.withdrawals == withdrawals && checkpoints == []
    {
      this.deposits, this.withdrawals, checkpoints := deposits, withdrawals, [];
    }

    method GetL1DepositUnrelay(cp: Checkpoint, l1Latest: nat) returns (rows: seq<DepositRow>)
      ensures multiset(rows) == multiset(Filter(deposits, Unrelayed(cp, l1Latest)))
    {
      rows := Filter(deposits, Unrelayed(cp, l1Latest));
    }

    method GetL1DepositRelayed(cp: Checkpoint) returns (rows: seq<DepositRow>)
      ensures multiset(rows) == multiset(Filter(deposits, RelayedLate(cp)))
    {
      rows := Filter(deposits, RelayedLate(cp));
    }

    method GetL2WithdrawUnclaimed(cp: Checkpoint, l2Latest: nat) returns (rows: seq<WithdrawalRow>)
      ensures multiset(rows) == multiset(Filter(withdrawals, Unclaimed(cp, l2Latest)))
    {
      rows := Filter(withdrawals, Unclaimed(cp, l2Latest));
    }

    method GetL2WithdrawClaimed(cp: Checkpoint, l1Latest: nat) returns (rows: seq<WithdrawalRow>)
      ensures multiset(rows) == multiset(Filter(withdrawals, ClaimedIn(cp, l1Latest)))
    {
      rows := Filter(withdrawals, ClaimedIn(cp, l1Latest));
    }

    /** The comparison with one checkpoint: the difference is corrected in place unless it already matches. */
    method Compare(cp: Checkpoint, r: Reading, start: int) returns (checked: bool, latestDifferenceValue: int)
      requires start == r.balance - r.supply
      ensures checked <==> Aligned(deposits, withdrawals, cp, r)
    {
      latestDifferenceValue := start;
      var differenceValue := cp.balance - cp.supply;
      if latestDifferenceValue == differenceValue {
        return true, latestDifferenceValue;
      }
      var l2NotRelayedDeposits := GetL1DepositUnrelay(cp, Uint64(r.l1Latest));
      var withdraws := GetL2WithdrawUnclaimed(cp, Uint64(r.l2Latest));
      var relayed := GetL1DepositRelayed(cp);
      var claimedWithdraws := GetL2WithdrawClaimed(cp, Uint64(r.l1Latest));
      latestDifferenceValue := Accumulate(start, relayed, withdraws, l2NotRelayedDeposits, claimedWithdraws);
      SumPermutation(l2NotRelayedDeposits, Filter(deposits, Unrelayed(cp, Uint64(r.l1Latest))), DepositAmount);
      SumPermutation(withdraws, Filter(withdrawals, Unclaimed(cp, Uint64(r.l2Latest))), WithdrawalAmount);
      SumPermutation(relayed, Filter(deposits, RelayedLate(cp)), DepositAmount);
      SumPermutation(claimedWithdraws, Filter(withdrawals, ClaimedIn(cp, Uint64(r.l1Latest))), WithdrawalAmount);
      checked := latestDifferenceValue == differenceValue;
    }

    /** One token of a round. */
    method CheckToken(latest: seq<Checkpoint>, l1Token: Address, l2Token: Address, r: Reading) returns (ends: bool)
      requires OnePerToken(latest)
      modifies this`checkpoints
      ensures ends <==> Undecodable(latest, l1Token)
      ensures ends ==> checkpoints == old(checkpoints)
      ensures checkpoints == old(checkpoints) + Added(latest, deposits, withdrawals, l1Token, l2Token, r)
    {
      var newCheckpoint := Checkpoint(Uint64(r.l1Latest), l1Token, Uint64(r.l2Latest), l2Token, r.balance, r.supply,
                                      false, true);
      if |latest| == 0 {
        checkpoints := checkpoints + [newCheckpoint.(checked := true)];
        return false;
      }
      var latestDifferenceValue := r.balance - r.supply;
      ghost var seen := false;
      for i := 0 to |latest|
        invariant seen <==> exists j :: 0 <= j < i && latest[j].l1Token == l1Token
        invariant !seen ==> latestDifferenceValue == r.balance - r.supply && checkpoints == old(checkpoints)
        invariant seen ==> !Undecodable(latest, l1Token)
        invariant seen ==> checkpoints == old(checkpoints) + Added(latest, deposits, withdrawals, l1Token, l2Token, r)
      {
        var checkpoint := latest[i];
        if checkpoint.l1Token == l1Token {
          LookupAt(latest, i);
          if !checkpoint.decodable {
            return true;
          }
          var checked;
          checked, latestDifferenceValue := Compare(checkpoint, r, latestDifferenceValue);
          checkpoints := checkpoints + [newCheckpoint.(checked := checked)];
          seen := true;
        }
      }
      if !seen {
        LookupNone(latest, l1Token);
        assert Added(latest, deposits, withdrawals, l1Token, l2Token, r) == [];
      }
      ends := false;
    }

    /** A whole round over the configured pairs; a reading is absent when a source fails or its row cannot be stored. */
    method SyncTokenBalance(l1Addresses: seq<Address>, l2Addresses: seq<Address>, readings: seq<Option<Reading>>)
      returns (ok: bool)
      requires |l1Addresses| == |readings| <= |l2Addresses|
      modifies this`checkpoints
      ensures !ok <==>
              exists i :: 0 <= i < |readings| && FailsFirst(LatestPerToken(old(checkpoints)), l1Addresses, readings, i)
      ensures checkpoints == old(checkpoints) +
              RoundAdds(LatestPerToken(old(checkpoints)), deposits, withdrawals, l1Addresses, l2Addresses, readings)
    {
      var latest := LatestPerToken(checkpoints);
      LatestIsLast(checkpoints);
      hide Added, LatestPerToken, OnePerToken, Undecodable;
      var i := 0;
      while i < |l1Addresses|
        invariant 0 <= i <= |l1Addresses|
        invariant forall j :: 0 <= j < i ==> readings[j].Some? && !Undecodable(latest, l1Addresses[j])
        invariant checkpoints
                  + RoundAdds(latest, deposits, withdrawals, l1Addresses[i..], l2Addresses[i..], readings[i..]) ==
                  old(checkpoints) + RoundAdds(latest, deposits, withdrawals, l1Addresses, l2Addresses, readings)
      {
        RoundStep(latest, deposits, withdrawals, l1Addresses, l2Addresses, readings, i);
        if readings[i].None? {
          assert FailsFirst(latest, l1Addresses, readings, i);
          return false;
        }
        var ends := CheckToken(latest, l1Addresses[i], l2Addresses[i], readings[i].value);
        if ends {
          return true;
        }
        i := i + 1;
      }
      ok := true;
    }
  }

  lemma {:induction false} HasNewest(table: seq<Checkpoint>, token: Address)
    requires exists c :: c in table && c.l1Token == token
    ensures exists c :: Newest(table, c) && c.l1Token == token
  {
    var n := |table| - 1;
    if table[n].l1Token == token {
      assert Newest(table, table[n]);
    } else {
      assert table == table[..n] + [table[n]];
      HasNewest(table[..n], token);
      var c :| Newest(table[..n], c) && c.l1Token == token;
      NewestSnoc(table[..n], c, table[n]);
    }
  }

  /**
    The first checkpoint of all is trusted, a token is compared with its own newest checkpoint, and
    a token that is absent from a non-empty table is not recorded at all.
   */
  lemma AddedExactly(table: seq<Checkpoint>, deposits: seq<DepositRow>, withdrawals: seq<WithdrawalRow>,
                     l1Token: Address, l2Token: Address, r: Reading)
    ensures var added := Added(LatestPerToken(table), deposits, withdrawals, l1Token, l2Token, r);
            && |added| <= 1
            && (added != [] ==>
                  && added[0].l1Token == l1Token && added[0].l2Token == l2Token
                  && added[0].l1Number == Uint64(r.l1Latest) && added[0].l2Number == Uint64(r.l2Latest)
                  && added[0].balance == r.balance && added[0].supply == r.supply && added[0].decodable)
            && (table == [] ==> added != [] && added[0].checked)
            && (table != [] && (forall c :: c in table ==> c.l1Token != l1Token) ==> added == [])
            && (forall cp :: Newest(table, cp) && cp.l1Token == l1Token ==>
                  && (added == [] <==> !cp.decodable)
                  && (cp.decodable ==> (added[0].checked <==> Aligned(deposits, withdrawals, cp, r))))
  {
    LatestIsLast(table);
    LookupNone(LatestPerToken(table), l1Token);
    if exists c :: c in table && c.l1Token == l1Token {
      HasNewest(table, l1Token);
    }
    forall cp | Newest(table, cp) && cp.l1Token == l1Token
      ensures Lookup(LatestPerToken(table), l1Token) == Some(cp)
    {
      var i :| 0 <= i < |LatestPerToken(table)| && LatestPerToken(table)[i] == cp;
      LookupAt(LatestPerToken(table), i);
    }
    hide Aligned;
  }

  /** A round that fails at a token adds what the tokens before it add. */
  lemma {:induction false} RoundStopsAt(latest: seq<Checkpoint>, deposits: seq<DepositRow>,
                                        withdrawals: seq<WithdrawalRow>,
                                        l1Tokens: seq<Address>, l2Tokens: seq<Address>, readings: seq<Option<Reading>>,
                                          i: nat)
    requires |l1Tokens| == |readings| <= |l2Tokens| && i < |readings| && FailsFirst(latest, l1Tokens, readings, i)
    ensures RoundAdds(latest, deposits, withdrawals, l1Tokens, l2Tokens, readings) ==
            RoundAdds(latest, deposits, withdrawals, l1Tokens[..i], l2Tokens[..i], readings[..i])
    decreases i
  {
    hide Added, Undecodable;
    if i == 0 {
    } else {
      assert l1Tokens[..i][1..] == l1Tokens[1..][..i - 1] && l2Tokens[..i][1..] == l2Tokens[1..][..i - 1];
      assert readings[..i][1..] == readings[1..][..i - 1];
      assert forall j :: 0 <= j < i - 1 ==> readings[1..][j] == readings[j + 1] && l1Tokens[1..][j] == l1Tokens[j + 1];
      RoundStopsAt(latest, deposits, withdrawals, l1Tokens[1..], l2Tokens[1..], readings[1..], i - 1);
    }
  }

  /** Once the table has a checkpoint, a round adds rows only for tokens that already have one. */
  lemma {:induction false} NoNewTokens(table: seq<Checkpoint>, deposits: seq<DepositRow>,
                                       withdrawals: seq<WithdrawalRow>,
                                       l1Tokens: seq<Address>, l2Tokens: seq<Address>, readings: seq<Option<Reading>>)
    requires |l1Tokens| == |readings| <= |l2Tokens|
    requires table != []
    ensures forall c :: c in RoundAdds(LatestPerToken(table), deposits, withdrawals, l1Tokens, l2Tokens, readings) ==>
              exists c' :: c' in table && c'.l1Token == c.l1Token
    decreases |l1Tokens|
  {
    if l1Tokens != [] && readings[0].Some? {
      NoNewTokens(table, deposits, withdrawals, l1Tokens[1..], l2Tokens[1..], readings[1..]);
      AddedExactly(table, deposits, withdrawals, l1Tokens[0], l2Tokens[0], readings[0].value);
      hide Aligned;
    }
  }

  /** The strings a round stores are numbers, so over rounds that start from an empty table none ends silently. */
  lemma {:induction false} RowsDecodable(latest: seq<Checkpoint>, deposits: seq<DepositRow>,
                                         withdrawals: seq<WithdrawalRow>,
                                         l1Tokens: seq<Address>, l2Tokens: seq<Address>, readings: seq<Option<Reading>>)
    requires |l1Tokens| == |readings| <= |l2Tokens|
    ensures forall c :: c in RoundAdds(latest, deposits, withdrawals, l1Tokens, l2Tokens, readings) ==> c.decodable
    decreases |l1Tokens|
  {
    if l1Tokens == [] {
    } else {
      RowsDecodable(latest, deposits, withdrawals, l1Tokens[1..], l2Tokens[1..], readings[1..]);
      hide Aligned;
    }
  }

  /** On a table of decodable rows every token of a round without failures is dealt with. */
  lemma DecodableNeverEnds(table: seq<Checkpoint>, token: Address)
    requires forall c :: c in table ==> c.decodable
    ensures !Undecodable(LatestPerToken(table), token)
  {
    LatestIsLast(table);
    LookupIn(LatestPerToken(table), token);
  }

  lemma {:induction false} LookupIn(cps: seq<Checkpoint>, token: Address)
    ensures Lookup(cps, token).Some? ==> Lookup(cps, token).value in cps
  {
    if cps == [] {
    } else {
      LookupIn(cps[1..], token);
    }
  }
}
