/** The block header and contract event tables of one chain. */
module Database {
  import opened Wrappers
  import opened Chain

  datatype Event = Event(log: Log, signature: nat, timestamp: nat)

  function ContractEventFromLog(log: Log, timestamp: nat): Event {
    Event(log, if |log.topics| > 0 then log.topics[0] else 0, timestamp)
  }

  datatype Store = Store(headers: seq<Header>, events: seq<Event>)

  /**
    What becomes of a transaction that violates no constraint: it commits, it rolls back, or
    it commits and the acknowledgement is lost, so that the caller sees an error.
   */
  datatype Fate = Commits | RollsBack | CommitsUnacknowledged

  /** L1 stores the headers that have logs; L2 stores every header. */
  datatype Policy = LoggedOnly | EveryHeader

  /** Numbers and parent hashes are unique in both header tables, timestamps in the one of L1. */
  predicate Clash(policy: Policy, a: Header, b: Header) {
    a.number == b.number || a.parentHash == b.parentHash || (policy.LoggedOnly? && a.time == b.time)
  }

  /**
    No new row clashes with another or a stored one, an event's block hash references a header row,
    and timestamps are positive where the tables check it.
   */
  predicate Admissible(policy: Policy, s: Store, rows: seq<Header>, events: seq<Event>) {
    && (forall i, j :: 0 <= i < j < |rows| ==> !Clash(policy, rows[i], rows[j]))
    && (forall i, j :: 0 <= i < |rows| && 0 <= j < |s.headers| ==> !Clash(policy, rows[i], s.headers[j]))
    && (policy.LoggedOnly? ==> forall i :: 0 <= i < |rows| ==> rows[i].time > 0)
    && (forall i :: 0 <= i < |events| ==>
          && events[i].log.blockHash.HeaderHash?
          && (events[i].log.blockHash.header in rows || events[i].log.blockHash.header in s.headers)
          && events[i].timestamp > 0)
  }

  /** The stored tables and whether the caller is told that the transaction succeeded. */
  function TryStore(policy: Policy, s: Store, rows: seq<Header>, events: seq<Event>, fate: Fate): (Store, bool) {
    if fate.RollsBack? || !Admissible(policy, s, rows, events) then (s, false)
    else (Store(s.headers + rows, s.events + events), fate.Commits?)
  }

  /** `ORDER BY number DESC` and take one. */
  function LatestHeader(headers: seq<Header>): (r: Option<Header>)
    ensures r.None? <==> headers == []
    ensures r.Some? ==> r.value in headers
    ensures r.Some? ==> forall h :: h in headers ==> h.number <= r.value.number
  {
    if headers == [] then None
    else
      var last := headers[|headers| - 1];
      assert forall h :: h in headers ==> h == last || h in headers[..|headers| - 1];
      match LatestHeader(headers[..|headers| - 1])
      case None => Some(last)
      case Some(h) => if h.number <= last.number then Some(last) else Some(h)
  }

  class Database {
    const policy: Policy
    var headers: seq<Header>
    var events: seq<Event>

    constructor (policy: Policy)
      ensures this.policy == policy && View() == Store([], [])
    {
      this.policy, headers, events := policy, [], [];
    }

    function View(): Store
      reads this
    {
      Store(headers, events)
    }

    /** StoreBlockHeaders and StoreContractEvents in one transaction. */
    method StoreBatch(rows: seq<Header>, rowEvents: seq<Event>, fate: Fate) returns (ok: bool)
      modifies this
      ensures (View(), ok) == TryStore(policy, old(View()), rows, rowEvents, fate)
      ensures View() == old(View()) || View() == Store(old(headers) + rows, old(events) + rowEvents)
      ensures ok ==> View() == Store(old(headers) + rows, old(events) + rowEvents)
      ensures View() != old(View()) ==>
                && (forall i, j :: 0 <= i < j < |headers| && |old(headers)| <= j ==>
                      && headers[i].number != headers[j].number && headers[i].parentHash != headers[j].parentHash
                      && (policy.LoggedOnly? ==> headers[i].time != headers[j].time && headers[j].time > 0))
                && (forall e :: e in rowEvents ==>
                      e.log.blockHash.HeaderHash? && e.log.blockHash.header in headers && e.timestamp > 0)
    {
      if fate.RollsBack? || !Admissible(policy, View(), rows, rowEvents) {
        return false;
      }
      headers := headers + rows;
      events := events + rowEvents;
      return fate.Commits?;
    }
  }
}
