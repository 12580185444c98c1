/** The exporter's running deposit totals, computed window by window from grouped sums. */
module DepositTotals {
  import opened BigInt
  import opened Seqs

  type Address = nat

  /** predeploys.BVM_ETH, the token whose ETH column is used. */
  const BVM_ETH: Address := 0xdEAddEaDdeadDEadDEADDEAddEADDEAddead1111

  /** A row of l1_to_l2, or a group of rows with their sums. */
  datatype Row = Row(timestamp: nat, l1Token: Address, l2Token: Address, eth: nat, erc20: nat) {
    function Value(): nat {
      if l1Token == BVM_ETH then eth else erc20
    }

    predicate SameGroup(other: Row) {
      l1Token == other.l1Token && l2Token == other.l2Token
    }
  }

  function ValueFor(token: Address): Row -> int {
    (r: Row) => if r.l1Token == token then r.Value() else 0
  }

  /** The same once the sum has passed through `Uint64`. */
  function WordFor(token: Address): Row -> int {
    (r: Row) => if r.l1Token == token then Uint64(r.Value()) else 0
  }

  function InWindow(start: nat, end: nat): Row -> bool {
    (r: Row) => start < r.timestamp <= end
  }

  function UpTo(end: nat): Row -> bool {
    (r: Row) => r.timestamp <= end
  }

  // GROUP BY l1_token_address, l2_token_address with the two sums

  function AddToGroup(groups: seq<Row>, row: Row): seq<Row> {
    if groups == [] then [row]
    else if groups[0].SameGroup(row)
    then [groups[0].(eth := groups[0].eth + row.eth, erc20 := groups[0].erc20 + row.erc20)] + groups[1..]
    else [groups[0]] + AddToGroup(groups[1..], row)
  }

  function Grouped(rows: seq<Row>): seq<Row> {
    if rows == [] then [] else AddToGroup(Grouped(rows[..|rows| - 1]), rows[|rows| - 1])
  }

  /** MAX(timestamp), or 0 for an empty table. */
  function Latest(rows: seq<Row>): nat {
    if rows == [] then 0
    else
      var before := Latest(rows[..|rows| - 1]);
      if before < rows[|rows| - 1].timestamp then rows[|rows| - 1].timestamp else before
  }

  /** The full recomputation: the value of all rows up to a timestamp. */
  function Recomputed(rows: seq<Row>, end: nat, token: Address): int {
    Sum(Filter(rows, UpTo(end)), ValueFor(token))
  }

  lemma {:induction false} AddToGroupSum(groups: seq<Row>, row: Row, token: Address)
    ensures Sum(AddToGroup(groups, row), ValueFor(token)) == Sum(groups, ValueFor(token)) + ValueFor(token)(row)
    decreases |groups|
  {
    var f := ValueFor(token);
    if groups == [] {
      SumOne(row, f);
    } else {
      assert groups == [groups[0]] + groups[1..];
      SumConcat([groups[0]], groups[1..], f);
      SumOne(groups[0], f);
      if groups[0].SameGroup(row) {
        var merged := groups[0].(eth := groups[0].eth + row.eth, erc20 := groups[0].erc20 + row.erc20);
        SumConcat([merged], groups[1..], f);
        SumOne(merged, f);
      } else {
        AddToGroupSum(groups[1..], row, token);
        SumConcat([groups[0]], AddToGroup(groups[1..], row), f);
      }
    }
  }

  lemma SumOne<T>(x: T, f: T -> int)
    ensures Sum([x], f) == f(x)
  {
    assert [x][..0] == [];
  }

  /** Grouping loses nothing. */
  lemma {:induction false} GroupedSum(rows: seq<Row>, token: Address)
    ensures Sum(Grouped(rows), ValueFor(token)) == Sum(rows, ValueFor(token))
  {
    if rows == [] {
    } else {
      GroupedSum(rows[..|rows| - 1], token);
      AddToGroupSum(Grouped(rows[..|rows| - 1]), rows[|rows| - 1], token);
    }
  }

  /** A group's sum that reaches 2^64 loses its high part. */
  ghost predicate WordsFit(groups: seq<Row>, token: Address) {
    forall g :: g in groups && g.l1Token == token ==> g.Value() < TWO_64
  }

  lemma {:induction false} TruncationIff(groups: seq<Row>, token: Address)
    ensures Sum(groups, WordFor(token)) <= Sum(groups, ValueFor(token))
    ensures Sum(groups, WordFor(token)) == Sum(groups, ValueFor(token)) <==> WordsFit(groups, token)
  {
    if groups == [] {
    } else {
      var n := |groups| - 1;
      TruncationIff(groups[..n], token);
      assert groups == groups[..n] + [groups[n]];
      assert Uint64(groups[n].Value()) <= groups[n].Value();
      assert WordsFit(groups, token) <==>
        WordsFit(groups[..n], token) && (groups[n].l1Token == token ==> groups[n].Value() < TWO_64);
    }
  }

  /** The part of a window that truncation loses. */
  function Truncated(rows: seq<Row>, start: nat, end: nat, token: Address): (lost: int)
    ensures lost >= 0
    ensures lost == 0 <==> WordsFit(Grouped(Filter(rows, InWindow(start, end))), token)
  {
    var groups := Grouped(Filter(rows, InWindow(start, end)));
    TruncationIff(groups, token);
    Sum(groups, ValueFor(token)) - Sum(groups, WordFor(token))
  }

  lemma {:induction false} WindowSplits(rows: seq<Row>, start: nat, end: nat, token: Address)
    ensures Sum(Filter(rows, InWindow(start, end)), ValueFor(token)) ==
            if start <= end then Recomputed(rows, end, token) - Recomputed(rows, start, token) else 0
    ensures end <= start ==> Recomputed(rows, end, token) <= Recomputed(rows, start, token)
  {
    if rows == [] {
    } else {
      var n := |rows| - 1;
      WindowSplits(rows[..n], start, end, token);
      assert rows == rows[..n] + [rows[n]];
      SumFilterSnoc(rows[..n], rows[n], InWindow(start, end), ValueFor(token));
      SumFilterSnoc(rows[..n], rows[n], UpTo(start), ValueFor(token));
      SumFilterSnoc(rows[..n], rows[n], UpTo(end), ValueFor(token));
    }
  }

  // ---------------------------------------------------------------------------------------
  // Rounds
  // ---------------------------------------------------------------------------------------

  /** The exporter's variables, whether it has read a bound it has not yet queried with, and the table it reads. */
  datatype Metric = Metric(start: nat, end: nat, reading: bool, totals: map<Address, int>, rows: seq<Row>) {
    function Total(token: Address): int {
      if token in totals then totals[token] else 0
    }
  }

  /** A round is a read of the latest timestamp and then a query; batches of rows are stored at any moment. */
  datatype Action = Arrive(batch: seq<Row>) | ReadLatest(ok: bool) | Query(ok: bool)

  /** A failed latest-timestamp read leaves the bound at 0 without an error. */
  function EndOf(rows: seq<Row>, latestOk: bool): nat {
    if latestOk then Latest(rows) else 0
  }

  function Added(totals: map<Address, int>, groups: seq<Row>): map<Address, int> {
    if groups == [] then totals
    else
      var before := Added(totals, groups[..|groups| - 1]);
      var g := groups[|groups| - 1];
      before[g.l1Token := Uint64(g.Value()) + if g.l1Token in before then before[g.l1Token] else 0]
  }

  lemma AddedNone(totals: map<Address, int>, groups: seq<Row>)
    requires groups == []
    ensures Added(totals, groups) == totals
  {
  }

  lemma AddedSnoc(totals: map<Address, int>, groups: seq<Row>, g: Row)
    ensures var before := Added(totals, groups);
            Added(totals, groups + [g]) ==
            before[g.l1Token := Uint64(g.Value()) + if g.l1Token in before then before[g.l1Token] else 0]
  {
    assert (groups + [g])[..|groups|] == groups;
  }

  function Step(m: Metric, a: Action): Metric {
    match a
    case Arrive(batch) => m.(rows := m.rows + batch)
    case ReadLatest(ok) => m.(end := EndOf(m.rows, ok), reading := true)
    case Query(ok) =>
      if !m.reading || !ok then m.(reading := false)
      else m.(totals := Added(m.totals, Grouped(Filter(m.rows, InWindow(m.start, m.end)))), start := m.end,
              reading := false)
  }

  const IDLE := Metric(0, 0, false, map[], [])

  function Run(actions: seq<Action>): Metric {
    if actions == [] then IDLE else Step(Run(actions[..|actions| - 1]), actions[|actions| - 1])
  }

  lemma {:induction false} AddedTotal(totals: map<Address, int>, groups: seq<Row>, token: Address)
    ensures var after := Added(totals, groups);
            && (token in after <==> token in totals || exists g :: g in groups && g.l1Token == token)
            && (if token in after then after[token] else 0) ==
               (if token in totals then totals[token] else 0) + Sum(groups, WordFor(token))
  {
    if groups == [] {
    } else {
      AddedTotal(totals, groups[..|groups| - 1], token);
      assert groups == groups[..|groups| - 1] + [groups[|groups| - 1]];
    }
  }

  /** Groups listed in another order leave the same counters. */
  lemma AddedInAnyOrder(totals: map<Address, int>, groups: seq<Row>, listed: seq<Row>)
    requires multiset(groups) == multiset(listed)
    ensures Added(totals, groups) == Added(totals, listed)
  {
    forall token: Address
      ensures token in Added(totals, groups) <==> token in Added(totals, listed)
      ensures token in Added(totals, groups) ==> Added(totals, groups)[token] == Added(totals, listed)[token]
    {
      AddedTotal(totals, groups, token);
      AddedTotal(totals, listed, token);
      SumPermutation(groups, listed, WordFor(token));
      assert forall g :: g in groups <==> g in multiset(groups);
      assert forall g :: g in listed <==> g in multiset(listed);
    }
  }

  // What makes a running total differ from the recomputation

  /** Value that arrived at or below the last bound and is never counted. */
  function Missed(actions: seq<Action>, token: Address): int {
    if actions == [] then 0
    else
      var before := actions[..|actions| - 1];
      var a := actions[|actions| - 1];
      Missed(before, token) + if a.Arrive? then Recomputed(a.batch, Run(before).start, token) else 0
  }

  /** Value cut off from window sums by the uint64 conversion. */
  function CutOff(actions: seq<Action>, token: Address): (v: int)
    ensures v >= 0
  {
    if actions == [] then 0
    else
      var before := actions[..|actions| - 1];
      var m := Run(before);
      CutOff(before, token)
      + if actions[|actions| - 1] == Query(true) && m.reading then Truncated(m.rows, m.start, m.end, token) else 0
  }

  /** The value of the rows in a window, counted already or not. */
  function InBetween(rows: seq<Row>, start: nat, end: nat, token: Address): int {
    Sum(Filter(rows, InWindow(start, end)), ValueFor(token))
  }

  /** Value already counted that lies above a bound that was moved back, and will be counted again. */
  function Recounted(actions: seq<Action>, token: Address): int {
    if actions == [] then 0
    else
      var before := actions[..|actions| - 1];
      var m := Run(before);
      Recounted(before, token)
      + if actions[|actions| - 1] == Query(true) && m.reading then InBetween(m.rows, m.end, m.start, token) else 0
  }

  lemma QueryAccount(m: Metric, token: Address)
    requires m.reading
    ensures Step(m, Query(true)).Total(token) - Recomputed(m.rows, m.end, token) ==
            m.Total(token) - Recomputed(m.rows, m.start, token)
            - Truncated(m.rows, m.start, m.end, token) + InBetween(m.rows, m.end, m.start, token)
  {
    var window := Filter(m.rows, InWindow(m.start, m.end));
    AddedTotal(m.totals, Grouped(window), token);
    GroupedSum(window, token);
    WindowSplits(m.rows, m.start, m.end, token);
    WindowSplits(m.rows, m.end, m.start, token);
    hide Sum, Filter, Grouped, Added, Recomputed;
  }

  lemma RecomputedConcat(a: seq<Row>, b: seq<Row>, end: nat, token: Address)
    ensures Recomputed(a + b, end, token) == Recomputed(a, end, token) + Recomputed(b, end, token)
  {
    FilterConcat(a, b, UpTo(end));
    SumConcat(Filter(a, UpTo(end)), Filter(b, UpTo(end)), ValueFor(token));
  }

  lemma NoRows(rows: seq<Row>, token: Address)
    requires rows == []
    ensures Recomputed(rows, 0, token) == 0
  {
  }

  /** In every run, the running total differs from the recomputation by exactly these three amounts. */
  lemma {:induction false} TotalAccount(actions: seq<Action>, token: Address)
    ensures var m := Run(actions);
            m.Total(token) == Recomputed(m.rows, m.start, token)
                              + Recounted(actions, token) - Missed(actions, token) - CutOff(actions, token)
  {
    hide Added, Grouped, Filter, Sum, Truncated, InBetween, Recomputed;
    if actions != [] {
      var before := actions[..|actions| - 1];
      var m := Run(before);
      TotalAccount(before, token);
      match actions[|actions| - 1] {
        case Arrive(batch) =>
          RecomputedConcat(m.rows, batch, m.start, token);
        case ReadLatest(_) =>
        case Query(ok) =>
          if m.reading && ok {
            QueryAccount(m, token);
          }
      }
    } else {
      NoRows(Run(actions).rows, token);
    }
  }

  // When each of the three amounts is nothing

  /** Every row is stored with a timestamp above the bound up to which rows have been counted. */
  ghost predicate ArrivesAboveBound(actions: seq<Action>) {
    forall i :: 0 <= i < |actions| && actions[i].Arrive? ==>
      forall r :: r in actions[i].batch ==> Run(actions[..i]).start < r.timestamp
  }

  /** Batches are stored with timestamps above those already present, whatever repeats within a batch. */
  ghost predicate ArrivesInOrder(actions: seq<Action>) {
    forall i :: 0 <= i < |actions| && actions[i].Arrive? ==>
      forall r :: r in actions[i].batch ==> Latest(Run(actions[..i]).rows) < r.timestamp
  }

  ghost predicate SumsFit(actions: seq<Action>, token: Address) {
    forall i {:trigger actions[..i]} :: 0 <= i < |actions| && actions[i] == Query(true) && Run(actions[..i]).reading ==>
      var m := Run(actions[..i]);
      WordsFit(Grouped(Filter(m.rows, InWindow(m.start, m.end))), token)
  }

  /** A query that moves the bound back moves it over no value of the token. */
  ghost predicate Harmless(m: Metric, token: Address) {
    forall r :: r in m.rows && r.l1Token == token && m.end < r.timestamp <= m.start ==> r.Value() == 0
  }

  ghost predicate QueriesHarmless(actions: seq<Action>, token: Address) {
    forall i {:trigger actions[..i]} :: 0 <= i < |actions| && actions[i] == Query(true) && Run(actions[..i]).reading ==>
      Harmless(Run(actions[..i]), token)
  }

  lemma {:induction false} LatestConcat(a: seq<Row>, b: seq<Row>)
    ensures Latest(a) <= Latest(a + b)
    decreases |b|
  {
    if b == [] {
      assert a + b == a;
    } else {
      LatestConcat(a, b[..|b| - 1]);
      assert (a + b)[..|a + b| - 1] == a + b[..|b| - 1];
    }
  }

  /** The bounds never pass the newest row, and a read bound is behind the last one only after a failed read. */
  lemma {:induction false} BoundsOk(actions: seq<Action>)
    ensures var m := Run(actions);
            m.start <= Latest(m.rows) && (m.reading ==> m.end <= Latest(m.rows) && (m.start <= m.end || m.end == 0))
  {
    if actions == [] {
    } else {
      BoundsOk(actions[..|actions| - 1]);
      hide Latest;
      if actions[|actions| - 1].Arrive? {
        LatestConcat(Run(actions[..|actions| - 1]).rows, actions[|actions| - 1].batch);
      }
    }
  }

  lemma InOrderIsAboveBound(actions: seq<Action>)
    requires ArrivesInOrder(actions)
    ensures ArrivesAboveBound(actions)
  {
    forall i | 0 <= i < |actions| && actions[i].Arrive?
      ensures Run(actions[..i]).start <= Latest(Run(actions[..i]).rows)
    {
      BoundsOk(actions[..i]);
    }
    hide Latest, Run;
  }

  lemma Prefixes(actions: seq<Action>)
    requires actions != []
    ensures var before := actions[..|actions| - 1];
            forall i :: 0 <= i < |before| ==> before[i] == actions[i] && before[..i] == actions[..i]
  {
  }

  lemma NoneCounted(rows: seq<Row>, end: nat, token: Address)
    requires forall r :: r in rows ==> end < r.timestamp
    ensures Recomputed(rows, end, token) == 0
  {
    FilterNone(rows, UpTo(end));
  }

  lemma {:induction false} NothingMissed(actions: seq<Action>, token: Address)
    requires ArrivesAboveBound(actions)
    ensures Missed(actions, token) == 0
  {
    if actions == [] {
    } else {
      hide Run, Recomputed;
      var n := |actions| - 1;
      Prefixes(actions);
      NothingMissed(actions[..n], token);
      if actions[n].Arrive? {
        NoneCounted(actions[n].batch, Run(actions[..n]).start, token);
      }
    }
  }

  lemma {:induction false} NothingCutOff(actions: seq<Action>, token: Address)
    requires SumsFit(actions, token)
    ensures CutOff(actions, token) == 0
  {
    if actions == [] {
    } else {
      hide Run, WordsFit;
      var n := |actions| - 1;
      Prefixes(actions);
      NothingCutOff(actions[..n], token);
      assert actions[..n] == actions[..n];
    }
  }

  lemma HarmlessIff(m: Metric, token: Address)
    ensures InBetween(m.rows, m.end, m.start, token) >= 0
    ensures InBetween(m.rows, m.end, m.start, token) == 0 <==> Harmless(m, token)
  {
    var between := Filter(m.rows, InWindow(m.end, m.start));
    SumOfNats(between, ValueFor(token));
    forall r: Row
      ensures r in between <==> r in m.rows && m.end < r.timestamp <= m.start
    {
      FilterMember(m.rows, InWindow(m.end, m.start), r);
    }
    hide Sum, Filter;
    assert Harmless(m, token) <==> forall r :: r in between ==> ValueFor(token)(r) == 0;
  }

  /** Nothing is counted again exactly when no query moves the bound back over a row of value. */
  lemma {:induction false} NothingRecountedIff(actions: seq<Action>, token: Address)
    ensures Recounted(actions, token) >= 0
    ensures Recounted(actions, token) == 0 <==> QueriesHarmless(actions, token)
  {
    if actions == [] {
    } else {
      hide Run, InBetween, Harmless;
      var n := |actions| - 1;
      NothingRecountedIff(actions[..n], token);
      HarmlessIff(Run(actions[..n]), token);
      HarmlessSnoc(actions, token);
    }
  }

  lemma HarmlessSnoc(actions: seq<Action>, token: Address)
    requires actions != []
    ensures var n := |actions| - 1;
            QueriesHarmless(actions, token) <==>
            && QueriesHarmless(actions[..n], token)
            && (actions[n] == Query(true) && Run(actions[..n]).reading ==> Harmless(Run(actions[..n]), token))
  {
    hide Run, Harmless;
    Prefixes(actions);
    var n := |actions| - 1;
    assert forall i :: 0 <= i < |actions| ==>
             i == n || (0 <= i < n && actions[..n][i] == actions[i] && actions[..n][..i] == actions[..i]);
  }

  /**
    When rows arrive above the counted bound and sums fit in a word, a total is never below the
    recomputation, and equal to it exactly when no query, after a failed read of the latest
    timestamp, has moved the bound back over a row of value.
   */
  lemma TotalExactIff(actions: seq<Action>, token: Address)
    requires ArrivesAboveBound(actions) && SumsFit(actions, token)
    ensures var m := Run(actions);
            && m.Total(token) >= Recomputed(m.rows, m.start, token)
            && (m.Total(token) == Recomputed(m.rows, m.start, token) <==> QueriesHarmless(actions, token))
  {
    TotalAccount(actions, token);
    NothingMissed(actions, token);
    NothingCutOff(actions, token);
    NothingRecountedIff(actions, token);
    hide Run, Recomputed, Recounted, Missed, CutOff, QueriesHarmless;
  }

  ghost predicate ReadsSucceed(actions: seq<Action>) {
    forall a :: a in actions && a.ReadLatest? ==> a.ok
  }

  lemma {:induction false} BoundsAdvance(actions: seq<Action>)
    requires ReadsSucceed(actions)
    ensures Run(actions).reading ==> Run(actions).start <= Run(actions).end
  {
    if actions == [] {
    } else {
      assert actions[|actions| - 1] in actions;
      BoundsAdvance(actions[..|actions| - 1]);
      BoundsOk(actions[..|actions| - 1]);
    }
  }

  /**
    If the reads of the latest timestamp succeed, every total is at every moment the sum of the
    token's rows up to the bound, however many queries failed; right after a read and a
    successful query it is the sum over the whole table.
   */
  lemma TotalsAreRecomputed(actions: seq<Action>, token: Address)
    requires ArrivesAboveBound(actions) && SumsFit(actions, token) && ReadsSucceed(actions)
    ensures var m := Run(actions);
            && m.Total(token) == Recomputed(m.rows, m.start, token)
            && (|actions| >= 2 && actions[|actions| - 2..] == [ReadLatest(true), Query(true)] ==>
                  m.Total(token) == Sum(m.rows, ValueFor(token)))
  {
    forall i | 0 <= i < |actions| && Run(actions[..i]).reading
      ensures Run(actions[..i]).start <= Run(actions[..i]).end
    {
      BoundsAdvance(actions[..i]);
    }
    assert QueriesHarmless(actions, token) by {
      hide Run;
    }
    TotalExactIff(actions, token);
    if |actions| >= 2 && actions[|actions| - 2..] == [ReadLatest(true), Query(true)] {
      BoundIsLatest(actions);
      var m := Run(actions);
      LatestBounds(m.rows);
      FilterAll(m.rows, UpTo(Latest(m.rows)));
    }
  }

  lemma BoundIsLatest(actions: seq<Action>)
    requires |actions| >= 2 && actions[|actions| - 2..] == [ReadLatest(true), Query(true)]
    ensures Run(actions).start == Latest(Run(actions).rows)
  {
    hide Latest, Added, Grouped, Filter;
    var n := |actions|;
    assert actions[n - 2] == actions[n - 2..][0] && actions[n - 1] == actions[n - 2..][1];
    assert actions[..n - 1][..n - 2] == actions[..n - 2];
    assert Run(actions[..n - 1]) == Step(Run(actions[..n - 2]), ReadLatest(true));
  }

  /** The highest timestamp present, or 0. */
  lemma {:induction false} LatestBounds(rows: seq<Row>)
    ensures forall r :: r in rows ==> r.timestamp <= Latest(rows)
    ensures rows == [] ==> Latest(rows) == 0
    ensures rows != [] ==> exists i :: 0 <= i < |rows| && rows[i].timestamp == Latest(rows)
  {
    if rows == [] {
    } else {
      var n := |rows| - 1;
      LatestBounds(rows[..n]);
      assert rows == rows[..n] + [rows[n]];
      if Latest(rows) != rows[n].timestamp {
        var i :| 0 <= i < n && rows[..n][i].timestamp == Latest(rows[..n]);
        assert rows[i].timestamp == Latest(rows);
      }
    }
  }

  /** One of the two amount columns of a token's rows. */
  function EthOf(token: Address): Row -> int {
    (r: Row) => if r.l1Token == token then r.eth else 0
  }

  function Erc20Of(token: Address): Row -> int {
    (r: Row) => if r.l1Token == token then r.erc20 else 0
  }

  lemma {:induction false} ValueIsColumn(rows: seq<Row>, token: Address)
    ensures Sum(rows, ValueFor(token)) ==
            if token ==
              0xdEAddEaDdeadDEadDEADDEAddEADDEAddead1111 then Sum(rows, EthOf(token)) else Sum(rows, Erc20Of(token))
  {
    if rows == [] {
    } else {
      ValueIsColumn(rows[..|rows| - 1], token);
    }
  }

  /**
    In terms of the columns: with successful reads, in-order rows and sums that fit, the total of
    BVM_ETH is the sum of its ETH column and every other token's the sum of its ERC-20 column, over
    the rows up to the bound, and over the whole table right after a successful round.
   */
  lemma TotalsAreColumnSums(actions: seq<Action>, token: Address)
    requires ArrivesAboveBound(actions) && SumsFit(actions, token) && ReadsSucceed(actions)
    ensures var m := Run(actions);
            var counted := Filter(m.rows, UpTo(m.start));
            && (token == 0xdEAddEaDdeadDEadDEADDEAddEADDEAddead1111 ==> m.Total(token) == Sum(counted, EthOf(token)))
            && (token != 0xdEAddEaDdeadDEadDEADDEAddEADDEAddead1111 ==> m.Total(token) == Sum(counted, Erc20Of(token)))
            && (|actions| >= 2 && actions[|actions| - 2..] == [ReadLatest(true), Query(true)] ==> counted == m.rows)
  {
    TotalsAreRecomputed(actions, token);
    var m := Run(actions);
    ValueIsColumn(Filter(m.rows, UpTo(m.start)), token);
    if |actions| >= 2 && actions[|actions| - 2..] == [ReadLatest(true), Query(true)] {
      BoundIsLatest(actions);
      LatestBounds(m.rows);
      FilterAll(m.rows, UpTo(m.start));
    }
    hide Run, Filter, Sum;
  }

  /** A total that is cut off loses multiples of 2^64. */
  lemma {:induction false} CutOffIsWrap(groups: seq<Row>, token: Address)
    ensures (Sum(groups, ValueFor(token)) - Sum(groups, WordFor(token))) % TWO_64 == 0
  {
    if groups == [] {
    } else {
      var n := |groups| - 1;
      CutOffIsWrap(groups[..n], token);
      var value := groups[n].Value();
      assert value - Uint64(value) == TWO_64 * (value / TWO_64);
      SumOfMultiples(Sum(groups[..n], ValueFor(token)) - Sum(groups[..n], WordFor(token)), value / TWO_64);
    }
  }

  lemma SumOfMultiples(x: int, q: int)
    requires x % TWO_64 == 0
    ensures (x + TWO_64 * q) % TWO_64 == 0
  {
    assert x == TWO_64 * (x / TWO_64);
    assert x + TWO_64 * q == TWO_64 * (x / TWO_64 + q);
  }

  /** After a failed read that raised no error, the next successful round counts the whole table once more. */
  lemma FailedReadCountsAgain(m: Metric, token: Address)
    requires WordsFit(Grouped(Filter(m.rows, InWindow(0, Latest(m.rows)))), token)
    ensures var reset := Step(Step(m, ReadLatest(false)), Query(true));
            var again := Step(Step(reset, ReadLatest(true)), Query(true));
            again.Total(token) ==
              m.Total(token) + Recomputed(m.rows, Latest(m.rows), token) - Recomputed(m.rows, 0, token)
  {
    var failed := Step(m, ReadLatest(false));
    var reset := Step(failed, Query(true));
    QueryAccount(failed, token);
    QueryAccount(Step(reset, ReadLatest(true)), token);
    WindowSplits(m.rows, 0, m.start, token);
    EmptyWindow(m.rows, m.start, token);
    EmptyWindow(m.rows, Latest(m.rows), token);
    hide Added, Grouped, Filter, Recomputed, Latest, WordsFit, Sum;
  }

  lemma EmptyWindow(rows: seq<Row>, start: nat, token: Address)
    ensures InBetween(rows, start, 0, token) == 0 && Truncated(rows, start, 0, token) == 0
  {
    FilterNone(rows, InWindow(start, 0));
  }

  /** The query's answer, in whatever order the database lists the groups. */
  method GetDepositsAmountByTimestamp(rows: seq<Row>, start: nat, end: nat) returns (groups: seq<Row>)
    ensures multiset(groups) == multiset(Grouped(Filter(rows, InWindow(start, end))))
  {
    groups := Grouped(Filter(rows, InWindow(start, end)));
  }

  /** The endless loop's variables; each call of Tick is one pass of it. */
  class DepositsMetric {
    var startTimestamp: nat
    var endTimestamp: nat
    var depositsAmount: map<Address, int>

    constructor ()
      ensures View(false, []) == IDLE
    {
      startTimestamp, endTimestamp, depositsAmount := 0, 0, map[];
    }

    function View(reading: bool, rows: seq<Row>): Metric
      reads this
    {
      Metric(startTimestamp, endTimestamp, reading, depositsAmount, rows)
    }

    /** The table holds `rows` at the read and `rows + arrived` at the query. */
    method Tick(rows: seq<Row>, arrived: seq<Row>, latestOk: bool, queryOk: bool)
      modifies this
      ensures View(false, rows + arrived) ==
              Step(Step(Step(old(View(false, rows)), ReadLatest(latestOk)), Arrive(arrived)), Query(queryOk))
    {
      endTimestamp := 0;
      if latestOk {
        endTimestamp := Latest(rows);
      }
      if !queryOk {
        return;
      }
      var deposits := GetDepositsAmountByTimestamp(rows + arrived, startTimestamp, endTimestamp);
      hide Added, Grouped, Filter, Latest;
      AddedInAnyOrder(depositsAmount, deposits,
                      Grouped(Filter(rows + arrived, InWindow(startTimestamp, endTimestamp))));
      AddDeposits(deposits);
      startTimestamp := endTimestamp;
    }

    method AddDeposits(deposits: seq<Row>)
      modifies this`depositsAmount
      ensures depositsAmount == Added(old(depositsAmount), deposits)
    {
      hide Added, Uint64;
      AddedNone(depositsAmount, deposits[..0]);
      for i := 0 to |deposits|
        invariant depositsAmount == Added(old(depositsAmount), deposits[..i])
      {
        assert deposits[..i + 1] == deposits[..i] + [deposits[i]];
        AddedSnoc(old(depositsAmount), deposits[..i], deposits[i]);
        var deposit := deposits[i];
        var amount := if deposit.l1Token == BVM_ETH then Uint64(deposit.eth) else Uint64(deposit.erc20);
        if deposit.l1Token in depositsAmount {
          depositsAmount := depositsAmount[deposit.l1Token := depositsAmount[deposit.l1Token] + amount];
        } else {
          depositsAmount := depositsAmount[deposit.l1Token := amount];
        }
      }
      assert deposits[..|deposits|] == deposits;
    }
  }
}
