/** The exporter's per-sender sums of ERC-20 transfers and the number of senders over a threshold. */
module Transfers {
  import opened Seqs

  type Byte = x: int | 0 <= x < 256

  /** A topic is a 256-bit word: topic1 the sender and topic2 the receiver of a Transfer event. */
  type Topic = nat

  /** A Transfer log; `Data[2:]` needs two bytes of data, and no digits after them leave the amount at 0. */
  datatype Transfer = Transfer(topic1: Topic, topic2: Topic, data: seq<Byte>) {
    predicate Readable() {
      |data| >= 2
    }

    /** Mints come from the zero address and burns go to it. */
    predicate Counted() {
      topic1 != 0 && topic2 != 0
    }
  }

  function BigEndian(bytes: seq<Byte>): nat {
    if bytes == [] then 0 else 256 * BigEndian(bytes[..|bytes| - 1]) + bytes[|bytes| - 1]
  }

  function Pow256(n: nat): (p: nat)
    ensures p > 0
  {
    if n == 0 then 1 else 256 * Pow256(n - 1)
  }

  /** The amount the exporter reads: the hexadecimal digits of the data after its first two bytes. */
  function Amount(e: Transfer): int {
    if e.Readable() then BigEndian(e.data[2..]) else 0
  }

  /** The value of the event by the Events section of EIP-20. */
  function Value(e: Transfer): nat {
    BigEndian(e.data)
  }

  lemma NextDigit(x: nat, p: nat, y: nat, z: nat)
    ensures 256 * (x * p + y) + z == x * (256 * p) + (256 * y + z)
  {
  }

  lemma {:induction false} BigEndianConcat(a: seq<Byte>, b: seq<Byte>)
    ensures BigEndian(a + b) == BigEndian(a) * Pow256(|b|) + BigEndian(b)
    ensures BigEndian(b) < Pow256(|b|)
    decreases |b|
  {
    if b == [] {
      assert a + b == a;
    } else {
      var n := |b| - 1;
      BigEndianConcat(a, b[..n]);
      assert (a + b)[..|a + b| - 1] == a + b[..n];
      NextDigit(BigEndian(a), Pow256(n), BigEndian(b[..n]), b[n]);
    }
  }

  lemma DivisionUnique(x: nat, q: nat, r: nat, m: nat)
    requires r < m && x == q * m + r
    ensures x / m == q && x % m == r
  {
    var d: int := q - x / m;
    assert m * d == x % m - r;
    assert d > 0 ==> m * d >= m;
    assert d < 0 ==> m * d <= 0 - m;
  }

  /** The bytes are the base-256 digits of the number, the first one the most significant. */
  lemma BytesAreDigits(bytes: seq<Byte>, i: nat)
    requires i < |bytes|
    ensures BigEndian(bytes) < Pow256(|bytes|)
    ensures BigEndian(bytes) / Pow256(|bytes| - 1 - i) % 256 == bytes[i]
  {
    var head, rest := bytes[..i + 1], bytes[i + 1..];
    assert bytes == head + rest && head[..i] == bytes[..i];
    BigEndianConcat(head, rest);
    BigEndianConcat([], bytes);
    assert [] + bytes == bytes;
    DivisionUnique(BigEndian(bytes), BigEndian(head), BigEndian(rest), Pow256(|rest|));
    DivisionUnique(BigEndian(head), BigEndian(bytes[..i]), bytes[i], 256);
  }

  /** The two dropped bytes make the amount the value modulo 2^240, right exactly below that bound. */
  lemma AmountIsValueIff(e: Transfer)
    requires |e.data| == 32
    ensures Amount(e) == Value(e) % 0x1_000000000000000_000000000000000_000000000000000_000000000000000
    ensures Amount(e) == Value(e) <==> Value(e) < 0x1_000000000000000_000000000000000_000000000000000_000000000000000
  {
    Pow256Of30();
    assert e.data == e.data[..2] + e.data[2..];
    BigEndianConcat(e.data[..2], e.data[2..]);
    QuotientUnique(Value(e), BigEndian(e.data[..2]), Amount(e), Pow256(30));
  }

  lemma {:induction false} Pow256Product(a: nat, b: nat)
    ensures Pow256(a + b) == Pow256(a) * Pow256(b)
  {
    if b == 0 {
    } else {
      Pow256Product(a, b - 1);
      assert 256 * (Pow256(a) * Pow256(b - 1)) == Pow256(a) * (256 * Pow256(b - 1));
    }
  }

  /** The modulus in plain digits, 2 to the power 240. */
  lemma Pow256Of30()
    ensures Pow256(30) == 0x1_000000000000000_000000000000000_000000000000000_000000000000000
  {
    assert Pow256(5) == 0x100_0000_0000;
    Pow256Product(5, 5);
    Pow256Product(10, 10);
    Pow256Product(20, 10);
  }

  lemma QuotientUnique(x: nat, q: nat, r: nat, m: nat)
    requires 0 < m && r < m && x == q * m + r
    ensures x % m == r
    ensures x < m <==> x == r
  {
    var d: int := q - x / m;
    assert m * d == x % m - r;
    assert d > 0 ==> m * d >= m;
    assert d < 0 ==> m * d <= 0 - m;
    assert q > 0 ==> q * m >= m;
  }

  function SentBy(sender: Topic): Transfer -> bool {
    (e: Transfer) => e.Counted() && e.topic1 == sender
  }

  function IsCounted(): Transfer -> bool {
    (e: Transfer) => e.Counted()
  }

  function SentByAny(senders: seq<Topic>): Transfer -> bool {
    (e: Transfer) => e.Counted() && e.topic1 in senders
  }

  ghost predicate Sends(events: seq<Transfer>, s: Topic) {
    exists e :: e in events && SentBy(s)(e)
  }

  /** The map of one contract: every sender of a counted transfer with the sum of its amounts. */
  ghost predicate IsSenderMap(events: seq<Transfer>, sums: map<Topic, int>) {
    && (forall s :: s in sums <==> Sends(events, s))
    && (forall s :: s in sums ==> sums[s] == Sum(Filter(events, SentBy(s)), Amount))
  }

  lemma EmptyMap(events: seq<Transfer>)
    requires events == []
    ensures IsSenderMap(events, map[])
  {
  }

  /** The map in terms of the topics: neither mints nor burns are counted. */
  lemma SenderMapIs(events: seq<Transfer>, sums: map<Topic, int>)
    requires IsSenderMap(events, sums)
    ensures forall s :: s in sums <==> s != 0 && exists e :: e in events && e.topic1 == s && e.topic2 != 0
    ensures forall s :: s in sums ==>
              sums[s] == Sum(Filter(events, (e: Transfer) => e.topic1 == s && e.topic1 != 0 && e.topic2 != 0), Amount)
  {
    hide Sum, Filter;
    forall s | s in sums
      ensures sums[s] == Sum(Filter(events, (e: Transfer) => e.topic1 == s && e.topic1 != 0 && e.topic2 != 0), Amount)
    {
      FilterAgree(events, SentBy(s), (e: Transfer) => e.topic1 == s && e.topic1 != 0 && e.topic2 != 0);
    }
    assert forall s :: Sends(events, s) <==> s != 0 && exists e :: e in events && e.topic1 == s && e.topic2 != 0;
  }

  method SumBySender(events: seq<Transfer>) returns (addressAllTransferMap: map<Topic, int>)
    requires forall e :: e in events && e.Counted() ==> e.Readable()
    ensures IsSenderMap(events, addressAllTransferMap)
    ensures forall s :: s in addressAllTransferMap <==>
              s != 0 && exists e :: e in events && e.topic1 == s && e.topic2 != 0
    ensures forall s :: s in addressAllTransferMap ==>
              addressAllTransferMap[s] ==
              Sum(Filter(events, (e: Transfer) => e.topic1 == s && e.topic1 != 0 && e.topic2 != 0), Amount)
  {
    hide IsSenderMap, BigEndian;
    addressAllTransferMap := map[];
    EmptyMap(events[..0]);
    for i := 0 to |events|
      invariant IsSenderMap(events[..i], addressAllTransferMap)
    {
      var e := events[i];
      assert e in events;
      ghost var before := addressAllTransferMap;
      assert events[..i + 1] == events[..i] + [e];
      if e.topic1 == 0 || e.topic2 == 0 {
        SkipKeeps(events[..i], e, addressAllTransferMap);
        continue;
      }
      var num := BigEndian(e.data[2..]);
      if e.topic1 in addressAllTransferMap {
        addressAllTransferMap := addressAllTransferMap[e.topic1 := addressAllTransferMap[e.topic1] + num];
      } else {
        addressAllTransferMap := addressAllTransferMap[e.topic1 := num];
      }
      AddKeeps(events[..i], e, before, addressAllTransferMap);
    }
    assert events[..|events|] == events;
    SenderMapIs(events, addressAllTransferMap);
  }

  lemma OneMore(events: seq<Transfer>, e: Transfer, s: Topic)
    ensures Sends(events + [e], s) <==> Sends(events, s) || SentBy(s)(e)
    ensures Sum(Filter(events + [e], SentBy(s)), Amount) ==
            Sum(Filter(events, SentBy(s)), Amount) + if SentBy(s)(e) then Amount(e) else 0
    ensures !Sends(events, s) ==> Sum(Filter(events, SentBy(s)), Amount) == 0
  {
    SumFilterSnoc(events, e, SentBy(s), Amount);
    if Sends(events, s) {
      var x :| x in events && SentBy(s)(x);
      assert x in events + [e];
    } else {
      FilterNone(events, SentBy(s));
    }
    assert e in events + [e];
  }

  lemma SkipKeeps(events: seq<Transfer>, e: Transfer, sums: map<Topic, int>)
    requires IsSenderMap(events, sums) && !e.Counted()
    ensures IsSenderMap(events + [e], sums)
  {
    hide Sum, Filter, Sends;
    forall s: Topic
      ensures s in sums <==> Sends(events + [e], s)
      ensures s in sums ==> sums[s] == Sum(Filter(events + [e], SentBy(s)), Amount)
    {
      OneMore(events, e, s);
    }
  }

  lemma AddKeeps(events: seq<Transfer>, e: Transfer, before: map<Topic, int>, sums: map<Topic, int>)
    requires IsSenderMap(events, before) && e.Counted()
    requires sums == before[e.topic1 := Amount(e) + if e.topic1 in before then before[e.topic1] else 0]
    ensures IsSenderMap(events + [e], sums)
  {
    hide Sum, Filter, Sends, Amount;
    forall s: Topic
      ensures s in sums <==> Sends(events + [e], s)
      ensures s in sums ==> sums[s] == Sum(Filter(events + [e], SentBy(s)), Amount)
    {
      OneMore(events, e, s);
    }
  }

  ghost predicate Distinct(order: seq<Topic>) {
    forall i, j :: 0 <= i < j < |order| ==> order[i] != order[j]
  }

  /** An iteration order of a map visits every key once. */
  ghost predicate IsOrderOf(order: seq<Topic>, sums: map<Topic, int>) {
    && (forall s :: s in order <==> s in sums)
    && Distinct(order)
  }

  function Entry(sums: map<Topic, int>): Topic -> int {
    (s: Topic) => if s in sums then sums[s] else 0
  }

  lemma {:induction false} EntryIs(order: seq<Topic>, sums: map<Topic, int>)
    ensures Sum(order, (s: Topic) => if s in sums then sums[s] else 0) == Sum(order, Entry(sums))
  {
    if order == [] {
    } else {
      EntryIs(order[..|order| - 1], sums);
    }
  }

  /** In whatever order they are visited, the entries of the map add up to the total of the counted transfers. */
  lemma EntriesSumToTotal(events: seq<Transfer>, sums: map<Topic, int>, order: seq<Topic>)
    requires IsSenderMap(events, sums) && IsOrderOf(order, sums)
    ensures Sum(order, (s: Topic) => if s in sums then sums[s] else 0) ==
            Sum(Filter(events, (e: Transfer) => e.topic1 != 0 && e.topic2 != 0), Amount)
  {
    FilterAgree(events, IsCounted(), (e: Transfer) => e.topic1 != 0 && e.topic2 != 0);
    EntryIs(order, sums);
    PartialTotal(events, sums, order);
    forall e | e in events
      ensures SentByAny(order)(e) == IsCounted()(e)
    {
      if e.Counted() {
        assert SentBy(e.topic1)(e);
      }
    }
    FilterAgree(events, SentByAny(order), IsCounted());
  }

  lemma {:induction false} PartialTotal(events: seq<Transfer>, sums: map<Topic, int>, order: seq<Topic>)
    requires IsSenderMap(events, sums) && forall s :: s in order ==> s in sums
    requires Distinct(order)
    ensures Sum(order, Entry(sums)) == Sum(Filter(events, SentByAny(order)), Amount)
  {
    hide Sends, Amount;
    if order == [] {
      FilterNone(events, SentByAny(order));
    } else {
      var n := |order| - 1;
      PartialTotal(events, sums, order[..n]);
      OneEntryMore(events, sums, order[..n], order[n]);
      assert order == order[..n] + [order[n]];
    }
  }

  lemma OneEntryMore(events: seq<Transfer>, sums: map<Topic, int>, order: seq<Topic>, last: Topic)
    requires IsSenderMap(events, sums) && last in sums && last !in order
    ensures Sum(order + [last], Entry(sums)) - Sum(order, Entry(sums)) ==
            Sum(Filter(events, SentByAny(order + [last])), Amount) - Sum(Filter(events, SentByAny(order)), Amount)
  {
    hide Filter, Sends, Sum, Amount;
    SumSnoc(order, last, Entry(sums));
    OneSenderMore(events, order, last);
  }

  lemma OneSenderMore(events: seq<Transfer>, order: seq<Topic>, last: Topic)
    requires last !in order
    ensures Sum(Filter(events, SentByAny(order + [last])), Amount) ==
            Sum(Filter(events, SentByAny(order)), Amount) + Sum(Filter(events, SentBy(last)), Amount)
  {
    hide Filter, Sum, Amount;
    SumUnion(events, SentByAny(order), SentBy(last), SentByAny(order + [last]));
  }

  lemma {:induction false} SumUnion(events: seq<Transfer>, p: Transfer -> bool, q: Transfer -> bool,
                                    r: Transfer -> bool)
    requires forall e :: e in events ==> !(p(e) && q(e)) && (r(e) <==> p(e) || q(e))
    ensures Sum(Filter(events, r), Amount) == Sum(Filter(events, p), Amount) + Sum(Filter(events, q), Amount)
  {
    if events == [] {
    } else {
      var n := |events| - 1;
      var e := events[n];
      assert events == events[..n] + [e];
      SumUnion(events[..n], p, q, r);
      SumFilterSnoc(events[..n], e, p, Amount);
      SumFilterSnoc(events[..n], e, q, Amount);
      SumFilterSnoc(events[..n], e, r, Amount);
      hide Sum, Filter;
    }
  }

  /** The senders at or above the threshold. */
  ghost function Over(sums: map<Topic, int>, bigValue: int): set<Topic> {
    set s | s in sums && sums[s] >= bigValue
  }

  /** The second loop, over the map in an order the runtime chooses. */
  method CountAlerts(sums: map<Topic, int>, order: seq<Topic>, bigValue: int) returns (alertNum: nat)
    requires IsOrderOf(order, sums)
    ensures alertNum == |Over(sums, bigValue)|
  {
    alertNum := 0;
    for i := 0 to |order|
      invariant alertNum == |OverIn(sums, order[..i], bigValue)|
    {
      OverSnoc(sums, order[..i], order[i], bigValue);
      assert order[..i + 1] == order[..i] + [order[i]];
      if sums[order[i]] >= bigValue {
        alertNum := alertNum + 1;
      }
    }
    assert order[..|order|] == order;
    assert OverIn(sums, order, bigValue) == Over(sums, bigValue);
  }

  ghost function OverIn(sums: map<Topic, int>, order: seq<Topic>, bigValue: int): set<Topic> {
    set s | s in order && s in sums && sums[s] >= bigValue
  }

  lemma OverSnoc(sums: map<Topic, int>, order: seq<Topic>, last: Topic, bigValue: int)
    requires last !in order && last in sums
    ensures |OverIn(sums, order + [last], bigValue)| ==
            |OverIn(sums, order, bigValue)| + if sums[last] >= bigValue then 1 else 0
  {
    var before := OverIn(sums, order, bigValue);
    assert OverIn(sums, order + [last], bigValue) == if sums[last] >= bigValue then before + {last} else before;
  }

  /** The alert count is the number of senders whose counted amounts reach the threshold. */
  lemma AlertsAreSenders(events: seq<Transfer>, sums: map<Topic, int>, bigValue: int)
    requires IsSenderMap(events, sums)
    ensures forall s :: s in Over(sums, bigValue) <==>
              Sends(events, s) && Sum(Filter(events, SentBy(s)), Amount) >= bigValue
  {
    hide Sum, Filter;
  }
}
