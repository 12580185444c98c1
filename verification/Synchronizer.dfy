/** The batch producer: pending headers, log checks, and the hand-over to the consumer. */
module Synchronizer {
  import opened Wrappers
  import opened BigInt
  import opened Chain
  import opened EthClient
  import HT = HeaderTraversal

  datatype Batch = Batch(
    headers: seq<Header>,
    headerMap: map<BlockHash, Header>,
    logs: seq<Log>,
    headersWithLog: set<BlockHash>)

  /** Every log's block is in the batch, and the two lookup tables describe headers and logs. */
  ghost predicate Closed(b: Batch) {
    && b.headers != []
    && (forall l :: l in b.logs ==> l.blockHash in b.headerMap)
    && b.headerMap.Keys == (set h | h in b.headers :: h.Hash())
    && (forall k :: k in b.headerMap ==> b.headerMap[k] in b.headers && b.headerMap[k].Hash() == k)
    && b.headersWithLog == (set l | l in b.logs :: l.blockHash)
  }

  /** The answer lets the headers be emitted. */
  predicate Acceptable(headers: seq<Header>, answer: Result<Logs>)
    requires headers != []
  {
    && answer.Success?
    && answer.value.toBlockHeader == headers[|headers| - 1]
    && forall l :: l in answer.value.logs ==> l.blockHash.HeaderHash? && l.blockHash.header in headers
  }

  /** Nothing for no headers; else the closed batch of the headers and the answered logs, or an error. */
  ghost predicate Extracted(headers: seq<Header>, p: Provider, r: Result<Option<Batch>>) {
    if headers == [] then r == Success(None)
    else
      var answer := p.filter(headers[0].number, headers[|headers| - 1].number);
      if !Acceptable(headers, answer) then r.Failure?
      else r.Success? && r.value.Some? && Closed(r.value.value) &&
           r.value.value.headers == headers && r.value.value.logs == answer.value.logs
  }

  /** Closure leaves no freedom: the headers and the logs determine the batch. */
  lemma ClosedUnique(a: Batch, b: Batch)
    requires Closed(a) && Closed(b) && a.headers == b.headers && a.logs == b.logs
    ensures a == b
  {
  }

  function BatchOf(headers: seq<Header>, logs: seq<Log>): Batch {
    Batch(headers,
          map k | k in (set h | h in headers :: h.Hash()) :: k.header,
          logs,
          set l | l in logs :: l.blockHash)
  }

  lemma BatchOfClosed(headers: seq<Header>, logs: seq<Log>)
    requires headers != []
    requires forall l :: l in logs ==> l.blockHash.HeaderHash? && l.blockHash.header in headers
    ensures Closed(BatchOf(headers, logs))
  {
  }

  datatype Producer = Producer(cursor: HT.Cursor, headers: seq<Header>, sending: Option<Batch>)

  class Synchronizer {
    const headerTraversal: HT.HeaderTraversal
    const headerBufferSize: nat
    var headers: seq<Header>
    /** The batch that blocks on the unbuffered channel. */
    var sending: Option<Batch>

    constructor (traversal: HT.HeaderTraversal, bufferSize: nat)
      requires bufferSize < TWO_64
      ensures headerTraversal == traversal && headerBufferSize == bufferSize
      ensures Valid() && View() == Producer(traversal.View(), [], None)
    {
      headerTraversal, headerBufferSize, headers, sending := traversal, bufferSize, [], None;
    }

    predicate Valid() {
      headerBufferSize < TWO_64
    }

    function View(): Producer
      reads this, headerTraversal
    {
      Producer(headerTraversal.View(), headers, sending)
    }

    /** One tick up to the send; the batch stays pending until the consumer takes it. */
    method Tick(p: Provider)
      requires Valid() && sending.None?
      modifies this, headerTraversal
      ensures View() == TickResult(old(View()), headerTraversal.blockConfirmationDepth, headerBufferSize, p)
    {
      if headers == [] {
        var newHeaders := headerTraversal.NextHeaders(p, headerBufferSize);
        if newHeaders.Success? && newHeaders.value != [] {
          headers := newHeaders.value;
        }
      }
      var batch := ProcessBatch(headers, p);
      if batch.Success? {
        if batch.value.None? {
          headers := [];
        } else {
          sending := batch.value;
          BatchOfClosed(headers, batch.value.value.logs);
          ClosedUnique(batch.value.value, BatchOf(headers, batch.value.value.logs));
        }
      }
    }

    /** The rendezvous: the consumer receives the batch and the send returns without error. */
    method Deliver() returns (batch: Batch)
      requires sending.Some?
      modifies this
      ensures batch == old(sending.value)
      ensures View() == old(View()).(headers := [], sending := None)
    {
      batch := sending.value;
      headers, sending := [], None;
    }
  }

  method ProcessBatch(headers: seq<Header>, p: Provider) returns (r: Result<Option<Batch>>)
    ensures Extracted(headers, p, r)
  {
    if headers == [] {
      return Success(None);
    }
    var firstHeader, lastHeader := headers[0], headers[|headers| - 1];
    var headerMap: map<BlockHash, Header> := map[];
    for i := 0 to |headers|
      invariant headerMap.Keys == (set h | h in headers[..i] :: h.Hash())
      invariant forall k :: k in headerMap ==> headerMap[k] in headers && headerMap[k].Hash() == k
    {
      headerMap := headerMap[headers[i].Hash() := headers[i]];
      assert headers[..i + 1] == headers[..i] + [headers[i]];
    }
    assert headers[..|headers|] == headers;
    var answer := p.filter(firstHeader.number, lastHeader.number);
    if answer.Failure? {
      return Failure;
    }
    if answer.value.toBlockHeader.number != lastHeader.number {
      return Failure;
    } else if answer.value.toBlockHeader.Hash() != lastHeader.Hash() {
      return Failure;
    }
    var logs := answer.value.logs;
    var headersWithLog: set<BlockHash> := {};
    for i := 0 to |logs|
      invariant headersWithLog == (set l | l in logs[..i] :: l.blockHash)
      invariant forall l :: l in logs[..i] ==> l.blockHash in headerMap
    {
      headersWithLog := headersWithLog + {logs[i].blockHash};
      if logs[i].blockHash !in headerMap {
        assert logs[i] in answer.value.logs;
        assert forall h :: h in headers ==> logs[i].blockHash != h.Hash();
        return Failure;
      }
      assert logs[..i + 1] == logs[..i] + [logs[i]];
    }
    assert logs[..|logs|] == logs;
    var batch := Batch(headers, headerMap, logs, headersWithLog);
    forall l | l in logs
      ensures l.blockHash.HeaderHash? && l.blockHash.header in headers
    {
      assert l.blockHash == headerMap[l.blockHash].Hash();
    }
    return Success(Some(batch));
  }

  /** The headers a tick works on: the pending batch is retried before new ones are fetched. */
  function Fetched(s: Producer, depth: int, size: nat, p: Provider): (HT.Cursor, seq<Header>)
    requires size < TWO_64
  {
    if s.headers != [] then (s.cursor, s.headers)
    else
      var (cursor, r) := HT.Next(s.cursor, depth, p, size);
      (cursor, if r.Success? then r.value else [])
  }

  /** What one tick leaves: the cursor, the pending headers and the batch it sends. */
  function TickResult(s: Producer, depth: int, size: nat, p: Provider): Producer
    requires size < TWO_64
  {
    var (cursor, headers) := Fetched(s, depth, size, p);
    if headers == [] then Producer(cursor, [], None)
    else
      var answer := p.filter(headers[0].number, headers[|headers| - 1].number);
      Producer(cursor, headers, if Acceptable(headers, answer) then Some(BatchOf(headers, answer.value.logs)) else None)
  }
}
