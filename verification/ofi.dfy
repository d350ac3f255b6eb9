/**
 * `OFICalculator`: order-flow imbalance over a sliding window of best-quote moves.
 *
 * Every update classifies the move of the best bid and of the best ask into a
 * signed event, pushes each into its own window of at most `windowSize` events,
 * and reports the sum of bid events minus the sum of ask events. The Rust code
 * stores events as `f64` casts of integer quantities; here they are integers.
 */
module Ofi {
  import opened Wrappers
  import opened LittleEndian

  /** A best price level: price and quantity. */
  datatype Quote = Quote(price: I64, quantity: U64)

  /** The arguments of one `update` call: the current best bid and best ask. */
  datatype Snapshot = Snapshot(bid: Quote, ask: Quote)

  datatype OfiCalculator = OfiCalculator(
    windowSize: nat,
    bidEvents: seq<int>,
    askEvents: seq<int>,
    lastBid: Option<Quote>,
    lastAsk: Option<Quote>)

  /** `OFICalculator::new`: empty windows, no previous quotes. */
  function New(windowSize: nat): (r: OfiCalculator)
    ensures Valid(r) && r.windowSize == windowSize
    ensures r.bidEvents == [] && r.askEvents == []
    ensures r.lastBid.None? && r.lastAsk.None?
    ensures CalculateOfi(r) == 0
  {
    OfiCalculator(windowSize, [], [], None, None)
  }

  /** The event for a bid move: a higher bid counts its whole quantity, a lower one removes the old quantity. */
  function BidEvent(last: Option<Quote>, now: Quote): (r: int)
    ensures last.None? ==> r == 0
    ensures last.Some? ==> -(last.value.quantity as int) <= r <= now.quantity
    ensures r > 0 ==> last.Some? && now.price >= last.value.price
    ensures r < 0 ==> last.Some? && now.price <= last.value.price
  {
    match last
    case None => 0
    case Some(prev) =>
      if now.price > prev.price then now.quantity
      else if now.price < prev.price then -(prev.quantity as int)
      else now.quantity - prev.quantity
  }

  /** The event for an ask move: the mirror image, a lower ask counts its whole quantity. */
  function AskEvent(last: Option<Quote>, now: Quote): (r: int)
    ensures last.None? ==> r == 0
    ensures last.Some? ==> -(last.value.quantity as int) <= r <= now.quantity
    ensures r > 0 ==> last.Some? && now.price <= last.value.price
    ensures r < 0 ==> last.Some? && now.price >= last.value.price
  {
    match last
    case None => 0
    case Some(prev) =>
      if now.price < prev.price then now.quantity
      else if now.price > prev.price then -(prev.quantity as int)
      else now.quantity - prev.quantity
  }

  /** An improving quote never counts against its side, a deteriorating one never for it. */
  lemma EventDirections(prev: Quote, now: Quote)
    ensures now.price > prev.price ==> BidEvent(Some(prev), now) >= 0 && AskEvent(Some(prev), now) <= 0
    ensures now.price < prev.price ==> BidEvent(Some(prev), now) <= 0 && AskEvent(Some(prev), now) >= 0
    ensures now == prev ==> BidEvent(Some(prev), now) == 0 && AskEvent(Some(prev), now) == 0
  {
  }

  function Sum(s: seq<int>): int
  {
    if |s| == 0 then 0 else Sum(s[..|s| - 1]) + s[|s| - 1]
  }

  predicate AllNonNegative(s: seq<int>)
  {
    forall i :: 0 <= i < |s| ==> s[i] >= 0
  }

  predicate AllNonPositive(s: seq<int>)
  {
    forall i :: 0 <= i < |s| ==> s[i] <= 0
  }

  /** A window of non-negative events has a non-negative sum, and one of non-positive events a non-positive sum. */
  lemma {:induction false} SumSign(s: seq<int>)
    ensures AllNonNegative(s) ==> Sum(s) >= 0
    ensures AllNonPositive(s) ==> Sum(s) <= 0
  {
    if |s| > 0 {
      SumSign(s[..|s| - 1]);
    }
  }

  /** `push_back` followed by at most one `pop_front` when the window has grown past its size. */
  function Slide(window: seq<int>, e: int, windowSize: nat): (r: seq<int>)
    ensures |window| <= windowSize ==> |r| == Min(|window| + 1, windowSize)
    ensures windowSize > 0 ==> |r| > 0 && r[|r| - 1] == e
  {
    var pushed := window + [e];
    if |pushed| > windowSize then pushed[1..] else pushed
  }

  /** `calculate_ofi` (and `get_ofi`, which returns it): bid-event sum minus ask-event sum. */
  function CalculateOfi(c: OfiCalculator): (r: int)
    ensures c.bidEvents == [] && c.askEvents == [] ==> r == 0
    ensures AllNonNegative(c.bidEvents) && AllNonPositive(c.askEvents) ==> r >= 0
    ensures AllNonPositive(c.bidEvents) && AllNonNegative(c.askEvents) ==> r <= 0
  {
    SumSign(c.bidEvents);
    SumSign(c.askEvents);
    Sum(c.bidEvents) - Sum(c.askEvents)
  }

  /** The shape every calculator built by `new`, `update` and `reset` keeps. */
  predicate Valid(c: OfiCalculator)
  {
    |c.bidEvents| == |c.askEvents| <= c.windowSize
  }

  /** `update`: records both events, slides both windows, remembers the quotes and returns the new imbalance. */
  function Update(c: OfiCalculator, s: Snapshot): (r: (OfiCalculator, int))
    ensures r.1 == CalculateOfi(r.0)
    ensures r.0.windowSize == c.windowSize
    ensures r.0.lastBid == Some(s.bid) && r.0.lastAsk == Some(s.ask)
    ensures Valid(c) ==> Valid(r.0) && |r.0.bidEvents| == Min(|c.bidEvents| + 1, c.windowSize)
    ensures c.windowSize > 0 ==>
      && |r.0.bidEvents| > 0 && |r.0.askEvents| > 0
      && r.0.bidEvents[|r.0.bidEvents| - 1] == BidEvent(c.lastBid, s.bid)
      && r.0.askEvents[|r.0.askEvents| - 1] == AskEvent(c.lastAsk, s.ask)
  {
    var c' := c.(
      bidEvents := Slide(c.bidEvents, BidEvent(c.lastBid, s.bid), c.windowSize),
      askEvents := Slide(c.askEvents, AskEvent(c.lastAsk, s.ask), c.windowSize),
      lastBid := Some(s.bid),
      lastAsk := Some(s.ask));
    (c', CalculateOfi(c'))
  }

  /** `reset`: forgets every event and both quotes, leaving a calculator equal to a new one of the same window size. */
  function Reset(c: OfiCalculator): (r: OfiCalculator)
    ensures r == New(c.windowSize)
  {
    c.(bidEvents := [], askEvents := [], lastBid := None, lastAsk := None)
  }

  /** The first update after `new` (or `reset`) records two zero events and reports zero imbalance. */
  lemma FirstUpdateIsNeutral(windowSize: nat, s: Snapshot)
    ensures Update(New(windowSize), s).1 == 0
    ensures windowSize > 0 ==> Update(New(windowSize), s).0.bidEvents == [0]
    ensures windowSize > 0 ==> Update(New(windowSize), s).0.askEvents == [0]
  {
    var c := Update(New(windowSize), s).0;
    if windowSize > 0 {
      assert c.bidEvents == [0] && c.askEvents == [0];
      assert Sum([0]) == Sum([]) + 0;
    } else {
      assert c.bidEvents == [] && c.askEvents == [];
    }
  }

  function Min(a: int, b: int): int
  {
    if a < b then a else b
  }

  // ---------------------------------------------------------------------------
  // The windows against the whole history of events

  /** The calculator after a sequence of updates starting from `new`. */
  function Run(windowSize: nat, snaps: seq<Snapshot>): OfiCalculator
  {
    if |snaps| == 0 then New(windowSize)
    else Update(Run(windowSize, snaps[..|snaps| - 1]), snaps[|snaps| - 1]).0
  }

  /** The quote an update compares against: the bid (or ask) of the snapshot before it, if any. */
  function PreviousBid(snaps: seq<Snapshot>): Option<Quote>
  {
    if |snaps| == 0 then None else Some(snaps[|snaps| - 1].bid)
  }

  function PreviousAsk(snaps: seq<Snapshot>): Option<Quote>
  {
    if |snaps| == 0 then None else Some(snaps[|snaps| - 1].ask)
  }

  /** Every bid event of a sequence of updates, oldest first. */
  function BidHistory(snaps: seq<Snapshot>): (r: seq<int>)
    ensures |r| == |snaps|
  {
    if |snaps| == 0 then []
    else
      var init := snaps[..|snaps| - 1];
      BidHistory(init) + [BidEvent(PreviousBid(init), snaps[|snaps| - 1].bid)]
  }

  /** Every ask event of a sequence of updates, oldest first. */
  function AskHistory(snaps: seq<Snapshot>): (r: seq<int>)
    ensures |r| == |snaps|
  {
    if |snaps| == 0 then []
    else
      var init := snaps[..|snaps| - 1];
      AskHistory(init) + [AskEvent(PreviousAsk(init), snaps[|snaps| - 1].ask)]
  }

  /** The last n elements of s, or all of s when it is shorter. */
  function LastN(s: seq<int>, n: nat): (r: seq<int>)
  {
    if |s| <= n then s else s[|s| - n..]
  }

  /** One slide of a window holding the last n events holds the last n events of the longer history. */
  lemma SlideLastN(history: seq<int>, e: int, n: nat)
    ensures Slide(LastN(history, n), e, n) == LastN(history + [e], n)
  {
    if |history| >= n && n > 0 {
      assert (LastN(history, n) + [e])[1..] == (history + [e])[|history| + 1 - n..];
    }
  }

  /**
   * After any sequence of updates from `new`, each window holds the last
   * min(n, windowSize) events in arrival order, and the calculator remembers the
   * last snapshot's quotes.
   */
  lemma {:induction false} RunWindows(windowSize: nat, snaps: seq<Snapshot>)
    ensures Run(windowSize, snaps).bidEvents == LastN(BidHistory(snaps), windowSize)
    ensures Run(windowSize, snaps).askEvents == LastN(AskHistory(snaps), windowSize)
    ensures Run(windowSize, snaps).lastBid == PreviousBid(snaps)
    ensures Run(windowSize, snaps).lastAsk == PreviousAsk(snaps)
    ensures Run(windowSize, snaps).windowSize == windowSize
    ensures |Run(windowSize, snaps).bidEvents| == |Run(windowSize, snaps).askEvents| == Min(|snaps|, windowSize)
  {
    if |snaps| > 0 {
      var init := snaps[..|snaps| - 1];
      var s := snaps[|snaps| - 1];
      RunWindows(windowSize, init);
      SlideLastN(BidHistory(init), BidEvent(PreviousBid(init), s.bid), windowSize);
      SlideLastN(AskHistory(init), AskEvent(PreviousAsk(init), s.ask), windowSize);
    }
  }

  /** The value the last update returns is the bid-event sum minus the ask-event sum over the last windowSize events. */
  lemma {:induction false} UpdateReportsWindowSums(windowSize: nat, snaps: seq<Snapshot>)
    requires |snaps| > 0
    ensures Update(Run(windowSize, snaps[..|snaps| - 1]), snaps[|snaps| - 1]).1
      == Sum(LastN(BidHistory(snaps), windowSize)) - Sum(LastN(AskHistory(snaps), windowSize))
  {
    RunWindows(windowSize, snaps);
  }

  /** `calculate_nobi`: the imbalance divided by the total depth, and 0 when there is no depth. */
  function Nobi(c: OfiCalculator, totalBidDepth: U64, totalAskDepth: U64): (r: real)
    ensures totalBidDepth + totalAskDepth == 0 ==> r == 0.0
    ensures totalBidDepth + totalAskDepth > 0 ==> r * (totalBidDepth + totalAskDepth) as real == CalculateOfi(c) as real
  {
    var totalDepth := totalBidDepth + totalAskDepth;
    if totalDepth > 0 then CalculateOfi(c) as real / totalDepth as real else 0.0
  }

  /** The calculator after the first snapshot of both source tests: best bid 100 x 10, best ask 101 x 10. */
  lemma FirstTestSnapshot()
    ensures
      var c1 := Update(New(10), Snapshot(Quote(100, 10), Quote(101, 10))).0;
      && c1.bidEvents == [0] && c1.askEvents == [0]
      && c1.lastBid == Some(Quote(100, 10)) && c1.lastAsk == Some(Quote(101, 10)) && c1.windowSize == 10
  {
    FirstUpdateIsNeutral(10, Snapshot(Quote(100, 10), Quote(101, 10)));
  }

  /** The source's first scenario: the bid rises to 101 x 15 and the ask to 102, giving 25, which normalises to 0.125. */
  lemma TestRisingBid()
    ensures
      var c1 := Update(New(10), Snapshot(Quote(100, 10), Quote(101, 10))).0;
      var up := Update(c1, Snapshot(Quote(101, 15), Quote(102, 10)));
      up.1 == 25 && Nobi(up.0, 100, 100) == 0.125
  {
    FirstTestSnapshot();
    var c1 := Update(New(10), Snapshot(Quote(100, 10), Quote(101, 10))).0;
    var up := Update(c1, Snapshot(Quote(101, 15), Quote(102, 10)));
    assert up.0.bidEvents == [0, 15] && up.0.askEvents == [0, -10];
    assert [0, 15][..1] == [0] && [0, -10][..1] == [0];
    assert Sum([0, 15]) == 15 && Sum([0, -10]) == -10;
  }

  /** The source's second scenario: the bid falls to 99 and the ask to 100, giving -20. */
  lemma TestFallingBid()
    ensures
      var c1 := Update(New(10), Snapshot(Quote(100, 10), Quote(101, 10))).0;
      Update(c1, Snapshot(Quote(99, 10), Quote(100, 10))).1 == -20
  {
    FirstTestSnapshot();
    var c1 := Update(New(10), Snapshot(Quote(100, 10), Quote(101, 10))).0;
    var down := Update(c1, Snapshot(Quote(99, 10), Quote(100, 10)));
    assert down.0.bidEvents == [0, -10] && down.0.askEvents == [0, 10];
    assert [0, -10][..1] == [0] && [0, 10][..1] == [0];
    assert Sum([0, -10]) == -10 && Sum([0, 10]) == 10;
  }
}
