/** The RPC client: header ranges and log queries against an arbitrary provider. */
module EthClient {
  import opened Wrappers
  import opened BigInt
  import opened Chain

  /** One element of a batch call: a header, a nil result, or an element error. */
  datatype Elem = Found(header: Header) | Missing | Failed

  datatype Logs = Logs(logs: seq<Log>, toBlockHeader: Header)

  /** Everything a provider may answer at one moment; nothing relates the answers. */
  datatype Provider = Provider(
    latest: Result<Option<Header>>,
    single: int -> Result<Header>,
    batchOk: bool,
    elem: int -> Elem,
    filter: (int, int) -> Result<Logs>)

  predicate Linked(hs: seq<Header>) {
    forall i :: 0 < i < |hs| ==> hs[i].parentHash == hs[i - 1].Hash()
  }

  /** The number of elements requested for an inclusive range of heights. */
  function Requested(startHeight: int, endHeight: int): nat {
    if startHeight == endHeight then 1 else Count64(startHeight, endHeight)
  }

  /**
    `hs` is the parent-linked run of the first answered heights: it reaches the requested
    count or is cut at the first element that is not a header, which may be an element error
    only when at least one header came before it.
   */
  ghost predicate CutPrefix(p: Provider, start: int, count: nat, hs: seq<Header>) {
    && |hs| <= count
    && (forall i :: 0 <= i < |hs| ==> p.elem(start + i) == Found(hs[i]))
    && Linked(hs)
    && (|hs| < count ==> !p.elem(start + |hs|).Found?)
    && (0 == |hs| < count ==> p.elem(start).Missing?)
  }

  method BlockHeadersByRange(p: Provider, startHeight: int, endHeight: int) returns (r: Result<seq<Header>>)
    ensures startHeight == endHeight ==>
              r == match p.single(startHeight) case Success(h) => Success([h]) case Failure => Failure
    ensures startHeight != endHeight ==> forall hs: seq<Header> ::
              r == Success(hs) <==> p.batchOk && CutPrefix(p, startHeight, Count64(startHeight, endHeight), hs)
    ensures r.Success? && startHeight != endHeight ==>
              && (forall i :: 0 <= i < |r.value| ==> p.elem(startHeight + i) == Found(r.value[i]))
              && (forall i :: 0 < i < |r.value| ==> r.value[i].parentHash == HeaderHash(r.value[i - 1]))
    ensures r == RangeAnswer(p, startHeight, endHeight)
  {
    if startHeight == endHeight {
      var header := p.single(startHeight);
      if header.Failure? {
        return Failure;
      }
      return Success([header.value]);
    }
    AnswerIsCutPrefix(p, startHeight, endHeight);
    var count := Count64(startHeight, endHeight);
    if !p.batchOk {
      return Failure;
    }
    var headers: seq<Header> := [];
    var i := 0;
    while i < count
      invariant 0 <= i <= count
      invariant ScanElems(p, startHeight, i) == Going(headers)
    {
      if !ScanElems(p, startHeight, i + 1).Going? {
        ScanStops(p, startHeight, i + 1, count);
      }
      match p.elem(startHeight + i) {
        case Failed =>
          if headers == [] {
            return Failure;
          }
          break;
        case Missing =>
          break;
        case Found(header) =>
          if i > 0 && header.parentHash != headers[i - 1].Hash() {
            return Failure;
          }
          headers := headers + [header];
      }
      i := i + 1;
    }
    return Success(headers);
  }

  /** The loop over the batch elements after its first n elements. */
  datatype Scan = Going(hs: seq<Header>) | Cut(hs: seq<Header>) | Broken

  function ScanElems(p: Provider, start: int, n: nat): (s: Scan)
    ensures s.Going? ==> |s.hs| == n
    ensures s.Cut? ==> |s.hs| < n
  {
    if n == 0 then Going([])
    else
      match ScanElems(p, start, n - 1)
      case Going(hs) =>
        (match p.elem(start + n - 1)
         case Failed => if hs == [] then Broken else Cut(hs)
         case Missing => Cut(hs)
         case Found(h) => if n > 1 && h.parentHash != hs[n - 2].Hash() then Broken else Going(hs + [h]))
      case Cut(hs) => Cut(hs)
      case Broken => Broken
  }

  function RangeAnswer(p: Provider, startHeight: int, endHeight: int): Result<seq<Header>> {
    if startHeight == endHeight then
      match p.single(startHeight) case Success(h) => Success([h]) case Failure => Failure
    else if !p.batchOk then Failure
    else
      match ScanElems(p, startHeight, Count64(startHeight, endHeight))
      case Broken => Failure
      case Going(hs) => Success(hs)
      case Cut(hs) => Success(hs)
  }

  lemma {:induction false} ScanStops(p: Provider, start: int, k: nat, n: nat)
    requires k <= n && !ScanElems(p, start, k).Going?
    ensures ScanElems(p, start, n) == ScanElems(p, start, k)
  {
    if n <= k {
    } else {
      ScanStops(p, start, k, n - 1);
    }
  }

  lemma {:induction false} ScanIsCutPrefix(p: Provider, start: int, n: nat)
    ensures var s := ScanElems(p, start, n);
            !s.Broken? ==> CutPrefix(p, start, n, s.hs)
  {
    if n == 0 {
    } else {
      ScanIsCutPrefix(p, start, n - 1);
    }
  }

  lemma {:induction false} CutPrefixIsScanned(p: Provider, start: int, n: nat, hs: seq<Header>)
    requires CutPrefix(p, start, n, hs)
    ensures var s := ScanElems(p, start, n);
            !s.Broken? && s.hs == hs
  {
    if n == 0 {
    } else {
      if |hs| == n {
        CutPrefixIsScanned(p, start, n - 1, hs[..n - 1]);
        assert p.elem(start + (n - 1)) == Found(hs[n - 1]);
        assert hs == hs[..n - 1] + [hs[n - 1]];
      } else {
        CutPrefixIsScanned(p, start, n - 1, hs);
      }
    }
  }

  /**
    The header fetch contract: over a batch call, a result is returned exactly when the
    answers begin with a parent-linked run cut at the first failed element, and it is that run.
   */
  lemma AnswerIsCutPrefix(p: Provider, startHeight: int, endHeight: int)
    requires startHeight != endHeight
    ensures forall hs: seq<Header> ::
              RangeAnswer(p, startHeight, endHeight) == Success(hs) <==>
              p.batchOk && CutPrefix(p, startHeight, Count64(startHeight, endHeight), hs)
  {
    var count := Count64(startHeight, endHeight);
    ScanIsCutPrefix(p, startHeight, count);
    forall hs: seq<Header> | p.batchOk && CutPrefix(p, startHeight, count, hs)
      ensures RangeAnswer(p, startHeight, endHeight) == Success(hs)
    {
      CutPrefixIsScanned(p, startHeight, count, hs);
    }
  }

  // ---------------------------------------------------------------------------------------
  // Providers that report on one fixed chain
  // ---------------------------------------------------------------------------------------

  /**
    Every header the provider does return is the chain's header of that height, and a log
    answer that reports the chain's header for the end of its range lists that range's logs,
    in some order. Calls may fail, answers may be partial, and the reported head is arbitrary.
   */
  ghost predicate Honest(c: Chain, p: Provider) {
    && (forall h: int :: p.single(h).Success? ==> h >= 0 && p.single(h).value == c.header(h))
    && (forall h: int :: p.elem(h).Found? ==> h >= 0 && p.elem(h).header == c.header(h))
    && (forall a: nat, b: nat ::
          (a <= b && p.filter(a, b).Success? && p.filter(a, b).value.toBlockHeader == c.header(b))
          ==> multiset(p.filter(a, b).value.logs) == multiset(LogsOf(c, a, b + 1)))
  }

  lemma HonestRange(c: Chain, p: Provider, start: nat, endHeight: int)
    requires Honest(c, p)
    ensures var r := RangeAnswer(p, start, endHeight);
            r.Success? ==> r.value == HeadersOf(c, start, start + |r.value|)
  {
    var r := RangeAnswer(p, start, endHeight);
    if r.Success? {
      if start != endHeight {
        AnswerIsCutPrefix(p, start, endHeight);
        assert CutPrefix(p, start, Count64(start, endHeight), r.value);
        assert forall i :: 0 <= i < |r.value| ==> p.elem(start + i) == Found(r.value[i]);
      }
      HeadersFrom(c, start, r.value);
    }
  }
}
