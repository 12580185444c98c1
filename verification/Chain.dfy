/** Headers, logs and the fixed confirmed chain that the providers report on. */
module Chain {
  /**
    A block hash. Keccak is modelled as a free constructor: a hash is either the hash of one
    definite header or some other 32-byte value, so equal hashes mean equal headers.
   */
  datatype BlockHash = HeaderHash(header: Header) | OtherHash(id: nat)

  datatype Header = Header(number: int, parentHash: BlockHash, time: nat, extra: nat) {
    function Hash(): BlockHash {
      HeaderHash(this)
    }
  }

  datatype Log = Log(blockHash: BlockHash, index: nat, address: nat, topics: seq<nat>)

  /** The confirmed chain: the header at each height and its logs of the indexed contracts. */
  datatype Chain = Chain(header: nat -> Header, logs: nat -> seq<Log>) {
    ghost predicate Valid() {
      && (forall h: nat :: header(h).number == h)
      && (forall h: nat, l: Log :: l in logs(h) ==> l.blockHash == header(h).Hash())
    }
  }

  /** The headers of heights [a, b), in order. */
  function HeadersOf(c: Chain, a: nat, b: nat): (hs: seq<Header>)
    ensures |hs| == if a <= b then b - a else 0
  {
    if b <= a then [] else HeadersOf(c, a, b - 1) + [c.header(b - 1)]
  }

  /** The logs of heights [a, b), in order. */
  function LogsOf(c: Chain, a: nat, b: nat): seq<Log> {
    if b <= a then [] else LogsOf(c, a, b - 1) + c.logs(b - 1)
  }

  lemma {:induction false} HeaderAt(c: Chain, a: nat, b: nat, i: nat)
    requires i < |HeadersOf(c, a, b)|
    ensures HeadersOf(c, a, b)[i] == c.header(a + i)
  {
    if a + i < b - 1 {
      HeaderAt(c, a, b - 1, i);
    }
  }

  lemma HeadersFrom(c: Chain, a: nat, hs: seq<Header>)
    requires forall i :: 0 <= i < |hs| ==> hs[i] == c.header(a + i)
    ensures hs == HeadersOf(c, a, a + |hs|)
  {
    forall i | 0 <= i < |hs|
      ensures hs[i] == HeadersOf(c, a, a + |hs|)[i]
    {
      HeaderAt(c, a, a + |hs|, i);
    }
  }

  lemma {:induction false} HeadersConcat(c: Chain, a: nat, b: nat, d: nat)
    requires a <= b <= d
    ensures HeadersOf(c, a, d) == HeadersOf(c, a, b) + HeadersOf(c, b, d)
  {
    if d <= b {
    } else {
      HeadersConcat(c, a, b, d - 1);
    }
  }

  lemma {:induction false} LogsConcat(c: Chain, a: nat, b: nat, d: nat)
    requires a <= b <= d
    ensures LogsOf(c, a, d) == LogsOf(c, a, b) + LogsOf(c, b, d)
  {
    if d <= b {
    } else {
      LogsConcat(c, a, b, d - 1);
    }
  }

  /** A log belongs to the range exactly when it is a log of one of its heights. */
  lemma {:induction false} LogMember(c: Chain, a: nat, b: nat, l: Log)
    requires c.Valid()
    ensures l in LogsOf(c, a, b) <==> exists h: nat :: a <= h < b && l in c.logs(h)
    ensures l in LogsOf(c, a, b) ==>
              && l.blockHash.HeaderHash?
              && a <= l.blockHash.header.number < b
              && l.blockHash.header == c.header(l.blockHash.header.number)
  {
    if b <= a {
    } else {
      LogMember(c, a, b - 1, l);
    }
  }
}
