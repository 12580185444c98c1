/** The event-scan cursors: window selection, the bedrock split and the cursor move. */
module EventProcessor {
  import opened Wrappers
  import opened Chain

  const BLOCKS_LIMIT: nat := 10_000

  function Numbers(headers: seq<Header>): set<int> {
    set h | h in headers :: h.number
  }

  function Above(numbers: set<int>, last: int): set<int> {
    set n | n in numbers && n > last
  }

  lemma Inhabited<T>(s: set<T>) returns (x: T)
    requires s != {}
    ensures x in s
  {
    x :| x in s;
  }

  lemma {:induction false} MinExists(s: set<int>)
    requires s != {}
    ensures exists m :: m in s && forall n :: n in s ==> m <= n
  {
    var x := Inhabited(s);
    var rest := s - {x};
    assert forall n :: n in s ==> n == x || n in rest;
    if rest == {} {
      assert x in s && forall n :: n in s ==> x <= n;
    } else {
      MinExists(rest);
      var m :| m in rest && forall n :: n in rest ==> m <= n;
      var least := if x < m then x else m;
      assert least in s && forall n :: n in s ==> least <= n;
    }
  }

  function Min(s: set<int>): (m: int)
    requires s != {}
    ensures m in s && forall n :: n in s ==> m <= n
  {
    MinExists(s);
    var m :| m in s && forall n :: n in s ==> m <= n;
    m
  }

  /** `ORDER BY number ASC LIMIT k`, of which the MAX is taken. */
  function KthSmallest(s: set<int>, k: nat): (r: int)
    requires 1 <= k <= |s|
    ensures r in s
  {
    if k == 1 then Min(s) else KthSmallest(s - {Min(s)}, k - 1)
  }

  lemma {:induction false} KthSmallestRank(s: set<int>, k: nat)
    requires 1 <= k <= |s|
    ensures |set n | n in s && n <= KthSmallest(s, k)| == k
  {
    var m := Min(s);
    var low := set n | n in s && n <= KthSmallest(s, k);
    if k == 1 {
      assert low == {m};
    } else {
      KthSmallestRank(s - {m}, k - 1);
      var rest := set n | n in s - {m} && n <= KthSmallest(s - {m}, k - 1);
      assert low == rest + {m};
    }
  }

  /** The highest number of the window of at most BLOCKS_LIMIT stored numbers above `last`. */
  function ScopeTop(numbers: set<int>, last: int): (top: Option<int>)
    ensures top.None? <==> Above(numbers, last) == {}
    ensures top.Some? ==> top.value in numbers && last < top.value
  {
    var above := Above(numbers, last);
    if above == {} then None
    else Some(KthSmallest(above, if |above| <= BLOCKS_LIMIT then |above| else BLOCKS_LIMIT))
  }

  /** What is above the top of a pass is what was above its cursor, less one full window. */
  lemma PassProgress(numbers: set<int>, last: int)
    requires ScopeTop(numbers, last).Some?
    ensures var k, left := |Above(numbers, last)|, |Above(numbers, ScopeTop(numbers, last).value)|;
            && left == (if k <= 10_000 then 0 else k - 10_000)
            && 1 <= k - left <= 10_000
  {
    var above := Above(numbers, last);
    var k := if |above| <= BLOCKS_LIMIT then |above| else BLOCKS_LIMIT;
    var top := KthSmallest(above, k);
    KthSmallestRank(above, k);
    var low := set n | n in above && n <= top;
    assert above == low + Above(numbers, top);
    assert low !! Above(numbers, top);
  }

  /** The cursor after n successful passes over a table that does not change. */
  function AfterPasses(numbers: set<int>, last: int, n: nat): int {
    if n == 0 then last
    else
      var before := AfterPasses(numbers, last, n - 1);
      ScopeTop(numbers, before).GetOr(before)
  }

  /** So n passes leave exactly max(0, k - n * BLOCKS_LIMIT) headers: ceil(k / limit) passes drain the table. */
  lemma {:induction false} PassesDrain(numbers: set<int>, last: int, n: nat)
    ensures var k := |Above(numbers, last)|;
            |Above(numbers, AfterPasses(numbers, last, n))| == if k <= n * 10_000 then 0 else k - n * 10_000
  {
    if n == 0 {
    } else {
      PassesDrain(numbers, last, n - 1);
      var before := AfterPasses(numbers, last, n - 1);
      if ScopeTop(numbers, before).Some? {
        PassProgress(numbers, before);
      }
    }
  }

  // ---------------------------------------------------------------------------------------
  // Bedrock split
  // ---------------------------------------------------------------------------------------

  datatype Handler = Legacy | Current

  datatype Call = Call(handler: Handler, from: int, upTo: int)

  /** The handler calls of one pass; a processor without a bedrock split makes one call. */
  function CallsFor(bedrock: Option<int>, from: int, upTo: int): seq<Call> {
    if bedrock.Some? && bedrock.value > from then
      var legacyTo := if bedrock.value <= upTo then bedrock.value - 1 else upTo;
      [Call(Legacy, from, legacyTo)] + if legacyTo == upTo then [] else [Call(Current, bedrock.value, upTo)]
    else [Call(Current, from, upTo)]
  }

  /** The handler responsible for a height. */
  function HandlerFor(bedrock: Option<int>, height: int): Handler {
    if bedrock.Some? && height < bedrock.value then Legacy else Current
  }

  /** The (handler, height) pairs of a range, in order. */
  function Span(handler: Handler, from: int, upTo: int): seq<(Handler, int)>
    decreases upTo - from
  {
    if upTo < from then [] else Span(handler, from, upTo - 1) + [(handler, upTo)]
  }

  function Covered(calls: seq<Call>): seq<(Handler, int)> {
    if calls == [] then []
    else
      var last := calls[|calls| - 1];
      Covered(calls[..|calls| - 1]) + Span(last.handler, last.from, last.upTo)
  }

  /** Every height from `from` to `upTo` once, in order, with the handler responsible for it. */
  function Tiled(bedrock: Option<int>, from: int, upTo: int): seq<(Handler, int)>
    decreases upTo - from
  {
    if upTo < from then [] else Tiled(bedrock, from, upTo - 1) + [(HandlerFor(bedrock, upTo), upTo)]
  }

  lemma {:induction false} TiledConcat(bedrock: Option<int>, a: int, b: int, d: int)
    requires a - 1 <= b <= d
    ensures Tiled(bedrock, a, d) == Tiled(bedrock, a, b) + Tiled(bedrock, b + 1, d)
    decreases d - b
  {
    if d <= b {
    } else {
      TiledConcat(bedrock, a, b, d - 1);
    }
  }

  lemma {:induction false} SpanTiles(bedrock: Option<int>, handler: Handler, from: int, upTo: int)
    requires forall h :: from <= h <= upTo ==> HandlerFor(bedrock, h) == handler
    ensures Span(handler, from, upTo) == Tiled(bedrock, from, upTo)
    decreases upTo - from
  {
    if from <= upTo {
      SpanTiles(bedrock, handler, from, upTo - 1);
    }
  }

  lemma {:induction false} CoveredConcat(a: seq<Call>, b: seq<Call>)
    ensures Covered(a + b) == Covered(a) + Covered(b)
  {
    if b == [] {
      assert a + b == a;
    } else {
      CoveredConcat(a, b[..|b| - 1]);
      assert (a + b)[..|a + b| - 1] == a + b[..|b| - 1];
    }
  }

  /** One pass tiles its window at the bedrock height, and every range it passes down is ordered. */
  lemma CallsTile(bedrock: Option<int>, from: int, upTo: int)
    requires from <= upTo
    ensures Covered(CallsFor(bedrock, from, upTo)) == Tiled(bedrock, from, upTo)
    ensures forall call :: call in CallsFor(bedrock, from, upTo) ==>
              && call.from <= call.upTo
              && (call.handler.Legacy? ==> bedrock.Some? && call.upTo < bedrock.value)
              && (call.handler.Current? ==> bedrock.None? || bedrock.value <= call.from)
  {
    var calls := CallsFor(bedrock, from, upTo);
    var first := calls[0];
    SpanTiles(bedrock, first.handler, first.from, first.upTo);
    assert Covered([first]) == Span(first.handler, first.from, first.upTo) by {
      assert [first][..0] == [];
    }
    if |calls| == 2 {
      SpanTiles(bedrock, Current, calls[1].from, upTo);
      TiledConcat(bedrock, from, first.upTo, upTo);
      assert calls[..1] == [first];
    } else {
      assert calls == [first];
    }
  }

  // ---------------------------------------------------------------------------------------
  // The processor
  // ---------------------------------------------------------------------------------------

  /** One cursor of the processor with the handler calls of its successful passes. */
  class ScanCursor {
    const startingHeight: int
    const bedrock: Option<int>
    var latestHeader: Option<int>
    var calls: seq<Call>

    constructor (startingHeight: int, bedrock: Option<int>, latest: Option<int>)
      ensures this.startingHeight == startingHeight && this.bedrock == bedrock
      ensures latestHeader == latest && calls == []
    {
      this.startingHeight, this.bedrock, latestHeader, calls := startingHeight, bedrock, latest, [];
    }

    function Position(): int
      reads this
    {
      latestHeader.GetOr(startingHeight)
    }

    /**
      One pass over the header table: `queryOk`, `handlerOk` and `commitOk` are the fates of the
      header query, of each handler call and of the commit. The cursor moves only after the whole
      transaction succeeded.
     */
    method Pass(headers: seq<Header>, queryOk: bool, handlerOk: Handler -> bool, commitOk: bool) returns (ok: bool)
      modifies this
      ensures var start := if old(latestHeader).Some? then old(latestHeader).value else startingHeight;
              var top := ScopeTop(Numbers(headers), start);
              var called := if top.Some? then CallsFor(bedrock, start + 1, top.value) else [];
              && (ok <==>
                  queryOk && (top.Some? ==> commitOk) && forall call :: call in called ==> handlerOk(call.handler))
              && calls == old(calls) + (if ok then called else [])
              && latestHeader == if ok && top.Some? then top else old(latestHeader)
    {
      var lastBlockNumber := Position();
      if !queryOk {
        return false;
      }
      var top := ScopeTop(Numbers(headers), lastBlockNumber);
      if top.None? {
        return true;
      }
      var fromHeight, toHeight := lastBlockNumber + 1, top.value;
      ghost var called := CallsFor(bedrock, fromHeight, toHeight);
      var made: seq<Call> := [];
      if bedrock.Some? && bedrock.value > fromHeight {
        var legacyFromHeight, legacyToHeight := fromHeight, toHeight;
        if bedrock.value <= toHeight {
          legacyToHeight := bedrock.value - 1;
        }
        assert called[0].handler == Legacy && called[0] in called;
        if !handlerOk(Legacy) {
          return false;
        }
        made := [Call(Legacy, legacyFromHeight, legacyToHeight)];
        if legacyToHeight == toHeight {
          if !commitOk {
            return false;
          }
          calls, latestHeader := calls + made, top;
          return true;
        }
        fromHeight := bedrock.value;
      }
      made := made + [Call(Current, fromHeight, toHeight)];
      assert made == called;
      assert called[|called| - 1].handler == Current && called[|called| - 1] in called;
      if !handlerOk(Current) || !commitOk {
        return false;
      }
      calls, latestHeader := calls + made, top;
      return true;
    }
  }
}
