/** The traversal cursor over confirmed headers. */
module HeaderTraversal {
  import opened Wrappers
  import opened BigInt
  import opened Chain
  import opened EthClient

  datatype Cursor = Cursor(latest: Option<Header>, last: Option<Header>) {
    /** The first height not traversed yet. */
    function NextHeight(): int {
      if last.Some? then last.value.number + 1 else 0
    }
  }

  class HeaderTraversal {
    var latestHeader: Option<Header>
    var lastTraversedHeader: Option<Header>
    const blockConfirmationDepth: int

    constructor (fromHeader: Option<Header>, confDepth: int)
      ensures View() == Cursor(None, fromHeader) && blockConfirmationDepth == confDepth
    {
      latestHeader, lastTraversedHeader, blockConfirmationDepth := None, fromHeader, confDepth;
    }

    function View(): Cursor
      reads this
    {
      Cursor(latestHeader, lastTraversedHeader)
    }

    method NextHeaders(p: Provider, maxSize: nat) returns (r: Result<seq<Header>>)
      requires maxSize < TWO_64
      modifies this
      ensures (View(), r) == Next(old(View()), blockConfirmationDepth, p, maxSize)
    {
      if p.latest.Failure? || p.latest.value.None? {
        return Failure;
      }
      latestHeader := p.latest.value;
      var endHeight := latestHeader.value.number - blockConfirmationDepth;
      if endHeight < 0 {
        return Success([]);
      }
      if lastTraversedHeader.Some? {
        if lastTraversedHeader.value.number == endHeight {
          return Success([]);
        } else if lastTraversedHeader.value.number > endHeight {
          return Failure;
        }
      }
      var nextHeight := 0;
      if lastTraversedHeader.Some? {
        nextHeight := lastTraversedHeader.value.number + 1;
      }
      endHeight := Clamp(nextHeight, endHeight, maxSize);
      var headers := BlockHeadersByRange(p, nextHeight, endHeight);
      if headers.Failure? {
        return Failure;
      }
      if headers.value == [] {
        return Success([]);
      }
      lastTraversedHeader := Some(headers.value[|headers.value| - 1]);
      return headers;
    }
  }

  function Next(c: Cursor, depth: int, p: Provider, maxSize: nat): (Cursor, Result<seq<Header>>)
    requires maxSize < TWO_64
  {
    if p.latest.Failure? || p.latest.value.None? then (c, Failure)
    else
      var seen := c.(latest := p.latest.value);
      var confirmed := p.latest.value.value.number - depth;
      if confirmed < 0 || (c.last.Some? && c.last.value.number == confirmed) then (seen, Success([]))
      else if c.last.Some? && c.last.value.number > confirmed then (seen, Failure)
      else
        match RangeAnswer(p, c.NextHeight(), Clamped(c.NextHeight(), confirmed, maxSize))
        case Failure => (seen, Failure)
        case Success(hs) => if hs == [] then (seen, Success([])) else (seen.(last := Some(hs[|hs| - 1])), Success(hs))
  }

  /**
    The answer for every cursor and provider. Without a head there is an error, with too few
    confirmed blocks or none above the cursor there is nothing, and behind the cursor there is an
    error. Otherwise a single height is the provider's answer for it, a range is the parent-linked
    run of its first answered headers and nothing less, and the cursor moves to the last of them.
   */
  lemma NextAnswers(c: Cursor, depth: int, p: Provider, maxSize: nat)
    requires maxSize < TWO_64
    ensures var (c', r) := Next(c, depth, p, maxSize);
            && (p.latest.Failure? || p.latest.value.None? ==> r.Failure? && c' == c)
            && (r.Failure? || r.value == [] ==> c'.last == c.last)
            && (r.Success? && r.value != [] ==> c'.last == Some(r.value[|r.value| - 1]))
            && (p.latest.Success? && p.latest.value.Some? ==>
                  var confirmed := p.latest.value.value.number - depth;
                  var next := if c.last.Some? then c.last.value.number + 1 else 0;
                  var end := Clamped(next, confirmed, maxSize);
                  && c'.latest == p.latest.value
                  && (confirmed < 0 ==> r == Success([]))
                  && (0 <= confirmed && next == confirmed + 1 && c.last.Some? ==> r == Success([]))
                  && (0 <= confirmed && next > confirmed + 1 ==> r.Failure?)
                  && (0 <= confirmed && next <= confirmed && next == end ==>
                        r == match p.single(next) case Success(h) => Success([h]) case Failure => Failure)
                  && (0 <= confirmed && next <= confirmed && next != end ==>
                        forall hs: seq<Header> :: r == Success(hs) <==>
                          p.batchOk && CutPrefix(p, next, Count64(next, end), hs)))
  {
    if p.latest.Success? && p.latest.value.Some? {
      var next := c.NextHeight();
      var end := Clamped(next, p.latest.value.value.number - depth, maxSize);
      if next != end {
        AnswerIsCutPrefix(p, next, end);
      }
      hide CutPrefix, ScanElems, Clamped;
    }
  }

  /** The provider answers height h with a header of number h. */
  ghost predicate Numbered(p: Provider) {
    && (forall h :: p.single(h).Success? ==> p.single(h).value.number == h)
    && (forall h :: p.elem(h).Found? ==> p.elem(h).header.number == h)
  }

  /**
    At most maxSize headers, of the consecutive heights from the cursor, all confirmed; the
    cursor moves to the last of them or stays.
   */
  ghost predicate Bounded(c: Cursor, depth: int, p: Provider, maxSize: nat)
    requires maxSize < TWO_64
  {
    var (c', r) := Next(c, depth, p, maxSize);
    && (r.Failure? || r.value == [] ==> c'.last == c.last)
    && (r.Success? && r.value != [] ==>
          && |r.value| <= maxSize
          && c'.last == Some(r.value[|r.value| - 1])
          && p.latest.Success? && p.latest.value.Some?
          && (forall i :: 0 <= i < |r.value| ==>
                r.value[i].number == c.NextHeight() + i <= p.latest.value.value.number - depth))
  }

  /** The number of elements requested never exceeds a positive limit or the confirmed range. */
  lemma RequestFits(next: int, confirmed: int, size: nat)
    requires 1 <= size < TWO_64 && next <= confirmed
    ensures var n := Requested(next, Clamped(next, confirmed, size));
            n <= size && next + n - 1 <= confirmed
  {
  }

  lemma NextHeadersBounded(c: Cursor, depth: int, p: Provider, maxSize: nat)
    requires 1 <= maxSize < TWO_64 && Numbered(p)
    ensures Bounded(c, depth, p, maxSize)
  {
    var (c', r) := Next(c, depth, p, maxSize);
    if r.Success? && r.value != [] {
      var next, confirmed := c.NextHeight(), p.latest.value.value.number - depth;
      var end := Clamped(next, confirmed, maxSize);
      RequestFits(next, confirmed, maxSize);
      if next != end {
        AnswerIsCutPrefix(p, next, end);
        assert CutPrefix(p, next, Count64(next, end), r.value);
        assert forall i :: 0 <= i < |r.value| ==> p.elem(next + i) == Found(r.value[i]);
      }
    }
  }

  /**
    The bound holds for every cursor and every provider that numbers its answers exactly when
    the limit is positive: a limit of 0 turns into the inverted range (start, start - 1), whose
    uint64 length is 2, so two headers come back and the second may be unconfirmed.
   */
  lemma BoundedIffPositive(maxSize: nat)
    requires maxSize < TWO_64
    ensures maxSize >= 1 <==>
            forall c: Cursor, depth: int, p: Provider ::
              Numbered(p) ==> Bounded(c, depth, p, maxSize)
  {
    if maxSize >= 1 {
      forall c: Cursor, depth: int, p: Provider | Numbered(p)
        ensures Bounded(c, depth, p, maxSize)
      {
        NextHeadersBounded(c, depth, p, maxSize);
      }
    } else {
      var g := Header(0, OtherHash(0), 1, 0);
      var h := Header(1, g.Hash(), 2, 0);
      var p := Provider(Success(Some(g)), _ => Failure, true,
                        n => if n == 0 then Found(g) else if n == 1 then Found(h) else Failed, (_, _) => Failure);
      var c := Cursor(None, None);
      assert Count64(0, -1) == 2;
      assert ScanElems(p, 0, 0) == Going([]);
      assert ScanElems(p, 0, 1) == Going([g]);
      assert ScanElems(p, 0, 2) == Going([g, h]);
      assert Clamped(0, 0, 0) == -1;
      assert Next(c, 0, p, 0).1 == Success([g, h]);
      assert !Bounded(c, 0, p, 0);
    }
  }
}
