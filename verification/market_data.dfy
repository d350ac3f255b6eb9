/**
 * The fixed-capacity order book of the `market_data` crate.
 *
 * Each side is a row of 1000 price levels; a level whose price is 0 is an empty
 * slot. The book caches its best bid and best ask; an update invalidates the
 * cache of the side it touches. The Rust struct is mutated in place; here a book
 * is a value and each operation returns the book it leaves behind.
 */
module MarketData {
  import opened Wrappers
  import opened LittleEndian
  import opened SbeMessages

  const MaxPriceLevels: nat := 1000

  datatype PriceLevel = PriceLevel(price: I64, quantity: U64)

  /** `PriceLevel::default()`: the empty slot. */
  const EmptyLevel: PriceLevel := PriceLevel(0, 0)

  type Levels = s: seq<PriceLevel> | |s| == MaxPriceLevels
    witness seq(MaxPriceLevels, _ => EmptyLevel)

  datatype OrderBook = OrderBook(
    bids: Levels,
    asks: Levels,
    cachedBestBid: Option<PriceLevel>,
    cachedBestAsk: Option<PriceLevel>)

  function Other(side: Side): Side
  {
    match side
    case Buy => Sell
    case Sell => Buy
  }

  /** The levels of one side: bids for Buy, asks for Sell. */
  function SideLevels(b: OrderBook, side: Side): Levels
  {
    match side
    case Buy => b.bids
    case Sell => b.asks
  }

  /** The cached best level of one side. */
  function Cache(b: OrderBook, side: Side): Option<PriceLevel>
  {
    match side
    case Buy => b.cachedBestBid
    case Sell => b.cachedBestAsk
  }

  /** `OrderBook::new`: every slot empty, both caches empty. */
  function NewBook(): (r: OrderBook)
    ensures forall side: Side, j :: 0 <= j < MaxPriceLevels ==> SideLevels(r, side)[j] == EmptyLevel
    ensures Cache(r, Buy).None? && Cache(r, Sell).None?
  {
    var empty: Levels := seq(MaxPriceLevels, _ => EmptyLevel);
    OrderBook(empty, empty, None, None)
  }

  // ---------------------------------------------------------------------------
  // apply_update

  /** A slot the scan of `apply_update` stops at: the price itself, or an empty slot. */
  predicate IsSlot(l: PriceLevel, price: int)
  {
    l.price == price || l.price == 0
  }

  /** The first slot at index i or later that holds `price` or is empty. */
  function SlotFrom(levels: seq<PriceLevel>, price: int, i: nat): (r: Option<nat>)
    requires i <= |levels|
    ensures r.Some? ==> i <= r.value < |levels| && IsSlot(levels[r.value], price)
    ensures r.Some? ==> forall j :: i <= j < r.value ==> !IsSlot(levels[j], price)
    ensures r.None? <==> forall j :: i <= j < |levels| ==> !IsSlot(levels[j], price)
    decreases |levels| - i
  {
    if i == |levels| then None
    else if IsSlot(levels[i], price) then Some(i)
    else SlotFrom(levels, price, i + 1)
  }

  /** The slot `apply_update` writes to, if any. */
  function FindSlot(levels: seq<PriceLevel>, price: int): Option<nat>
  {
    SlotFrom(levels, price, 0)
  }

  /** The book with one side's levels replaced and that side's cache invalidated. */
  function WithSide(b: OrderBook, side: Side, levels: Levels): OrderBook
  {
    match side
    case Buy => b.(bids := levels, cachedBestBid := None)
    case Sell => b.(asks := levels, cachedBestAsk := None)
  }

  /**
   * `OrderBook::apply_update`: the first slot that holds the update's price or is
   * empty receives the update's price and quantity; nothing else changes.
   */
  function ApplyUpdate(b: OrderBook, u: MarketDataUpdate): (r: OrderBook)
    ensures SideLevels(r, Other(u.side)) == SideLevels(b, Other(u.side))
    ensures Cache(r, Other(u.side)) == Cache(b, Other(u.side))
    ensures FindSlot(SideLevels(b, u.side), u.price).None? ==> r == b
    ensures FindSlot(SideLevels(b, u.side), u.price).Some? ==>
      var i := FindSlot(SideLevels(b, u.side), u.price).value;
      && Cache(r, u.side).None?
      && SideLevels(r, u.side)[i] == PriceLevel(u.price, u.quantity)
      && forall j :: 0 <= j < MaxPriceLevels && j != i ==> SideLevels(r, u.side)[j] == SideLevels(b, u.side)[j]
  {
    var levels := SideLevels(b, u.side);
    match FindSlot(levels, u.price)
    case None => b
    case Some(i) => WithSide(b, u.side, levels[i := PriceLevel(u.price, u.quantity)])
  }

  /** A level holding the update's price, met before any empty slot, only has its quantity replaced. */
  lemma ApplyUpdateMatchingLevel(b: OrderBook, u: MarketDataUpdate, i: nat)
    requires i < MaxPriceLevels
    requires SideLevels(b, u.side)[i].price == u.price
    requires forall j :: 0 <= j < i ==> SideLevels(b, u.side)[j].price != u.price && SideLevels(b, u.side)[j].price != 0
    ensures SideLevels(ApplyUpdate(b, u), u.side)
      == SideLevels(b, u.side)[i := SideLevels(b, u.side)[i].(quantity := u.quantity)]
    ensures Cache(ApplyUpdate(b, u), u.side).None?
  {
    assert FindSlot(SideLevels(b, u.side), u.price) == Some(i);
  }

  /** Otherwise the first empty slot receives the update's price and quantity. */
  lemma ApplyUpdateEmptySlot(b: OrderBook, u: MarketDataUpdate, i: nat)
    requires i < MaxPriceLevels
    requires SideLevels(b, u.side)[i].price == 0
    requires forall j :: 0 <= j < i ==> SideLevels(b, u.side)[j].price != u.price && SideLevels(b, u.side)[j].price != 0
    ensures SideLevels(ApplyUpdate(b, u), u.side)
      == SideLevels(b, u.side)[i := PriceLevel(u.price, u.quantity)]
    ensures Cache(ApplyUpdate(b, u), u.side).None?
  {
    assert FindSlot(SideLevels(b, u.side), u.price) == Some(i);
  }

  /** With no level at the price and no empty slot, the whole book, caches included, is unchanged. */
  lemma ApplyUpdateFullSide(b: OrderBook, u: MarketDataUpdate)
    requires forall j :: 0 <= j < MaxPriceLevels ==> !IsSlot(SideLevels(b, u.side)[j], u.price)
    ensures ApplyUpdate(b, u) == b
  {
  }

  /**
   * The shape `new` and `apply_update` keep on each side while update prices are
   * non-zero: the occupied slots form a prefix, carry pairwise-distinct prices,
   * and empty slots hold no quantity.
   */
  ghost predicate WellFormedLevels(levels: seq<PriceLevel>)
  {
    && (forall i, j :: 0 <= i < j < |levels| && levels[i].price == 0 ==> levels[j].price == 0)
    && (forall i, j :: 0 <= i < j < |levels| && levels[i].price != 0 ==> levels[i].price != levels[j].price)
    && (forall i :: 0 <= i < |levels| && levels[i].price == 0 ==> levels[i].quantity == 0)
  }

  ghost predicate WellFormed(b: OrderBook)
  {
    WellFormedLevels(b.bids) && WellFormedLevels(b.asks)
  }

  lemma NewBookWellFormed()
    ensures WellFormed(NewBook())
  {
  }

  /** `apply_update` with a non-zero price keeps the occupied-prefix, distinct-price shape. */
  lemma {:induction false} ApplyUpdateWellFormed(b: OrderBook, u: MarketDataUpdate)
    requires WellFormed(b)
    requires u.price != 0
    ensures WellFormed(ApplyUpdate(b, u))
  {
    var levels := SideLevels(b, u.side);
    var r := ApplyUpdate(b, u);
    match FindSlot(levels, u.price)
    case None =>
    case Some(i) =>
      var levels' := SideLevels(r, u.side);
      if levels[i].price == 0 {
        forall x, y | 0 <= x < y < MaxPriceLevels && levels'[x].price == 0
          ensures levels'[y].price == 0
        {
          if x > i {
            assert levels[x].price == 0;
          }
        }
        forall x, y | 0 <= x < y < MaxPriceLevels && levels'[x].price != 0
          ensures levels'[x].price != levels'[y].price
        {
          if x == i {
            assert levels[y].price == 0;
          } else if y == i {
            assert !IsSlot(levels[x], u.price);
          }
        }
      }
      assert WellFormedLevels(levels');
  }

  /** In a well-formed side at most one level carries a given non-zero price. */
  lemma WellFormedPricesUnique(levels: seq<PriceLevel>, x: nat, y: nat)
    requires WellFormedLevels(levels)
    requires x < |levels| && y < |levels|
    requires levels[x].price != 0 && levels[x].price == levels[y].price
    ensures x == y
  {
  }

  // ---------------------------------------------------------------------------
  // best_bid / best_ask

  /**
   * A level the scan of one side may report. `best_bid` starts from price 0 with
   * a strict comparison, so only positive prices qualify; `best_ask` starts from
   * `i64::MAX`, so an ask at exactly `i64::MAX` is never reported.
   */
  predicate Candidate(side: Side, l: PriceLevel)
  {
    l.quantity > 0 &&
    match side
    case Buy => l.price > 0
    case Sell => l.price < I64Max
  }

  /** Level a is strictly better than b: a higher bid, or a lower ask. */
  predicate Better(side: Side, a: PriceLevel, b: PriceLevel)
  {
    match side
    case Buy => a.price > b.price
    case Sell => a.price < b.price
  }

  /** The running best of the scan: `PriceLevel::default()` for bids, `(i64::MAX, 0)` for asks. */
  function ScanStart(side: Side): PriceLevel
  {
    match side
    case Buy => EmptyLevel
    case Sell => PriceLevel(I64Max, 0)
  }

  /**
   * The index of the best candidate among the first n levels: no candidate is
   * better, and every earlier candidate is strictly worse (the first best wins).
   */
  function BestIndexUpTo(side: Side, levels: seq<PriceLevel>, n: nat): (r: Option<nat>)
    requires n <= |levels|
    ensures r.None? <==> forall j :: 0 <= j < n ==> !Candidate(side, levels[j])
    ensures r.Some? ==> r.value < n && Candidate(side, levels[r.value])
    ensures r.Some? ==> forall j :: 0 <= j < n && Candidate(side, levels[j]) ==> !Better(side, levels[j], levels[r.value])
    ensures r.Some? ==> forall j :: 0 <= j < r.value && Candidate(side, levels[j]) ==> Better(side, levels[r.value], levels[j])
  {
    if n == 0 then None
    else
      var p := BestIndexUpTo(side, levels, n - 1);
      if Candidate(side, levels[n - 1]) && (p.None? || Better(side, levels[n - 1], levels[p.value]))
      then Some(n - 1)
      else p
  }

  /** What a fresh scan of one side reports. */
  function ScanBest(side: Side, levels: seq<PriceLevel>): Option<PriceLevel>
  {
    match BestIndexUpTo(side, levels, |levels|)
    case None => None
    case Some(k) => Some(levels[k])
  }

  /** The bid scan reports the greatest positive price with quantity, or nothing when there is none. */
  lemma ScanBestBidIsHighest(levels: seq<PriceLevel>)
    ensures ScanBest(Buy, levels).None? <==>
      forall j :: 0 <= j < |levels| ==> levels[j].price <= 0 || levels[j].quantity == 0
    ensures ScanBest(Buy, levels).Some? ==>
      && ScanBest(Buy, levels).value in levels
      && ScanBest(Buy, levels).value.price > 0 && ScanBest(Buy, levels).value.quantity > 0
      && forall j :: 0 <= j < |levels| && levels[j].quantity > 0 ==> levels[j].price <= ScanBest(Buy, levels).value.price
  {
  }

  /** The ask scan reports the smallest price below `i64::MAX` with quantity, or nothing when there is none. */
  lemma ScanBestAskIsLowest(levels: seq<PriceLevel>)
    ensures ScanBest(Sell, levels).None? <==>
      forall j :: 0 <= j < |levels| ==> levels[j].price == I64Max || levels[j].quantity == 0
    ensures ScanBest(Sell, levels).Some? ==>
      && ScanBest(Sell, levels).value in levels
      && ScanBest(Sell, levels).value.quantity > 0
      && forall j :: 0 <= j < |levels| && levels[j].quantity > 0 && levels[j].price < I64Max
           ==> ScanBest(Sell, levels).value.price <= levels[j].price
  {
  }

  /** The scan's test against the running best is the test that makes a level the new best candidate. */
  lemma ScanTest(side: Side, l: PriceLevel, index: Option<nat>, levels: seq<PriceLevel>, best: PriceLevel)
    requires index.Some? ==> index.value < |levels| && Candidate(side, levels[index.value]) && best == levels[index.value]
    requires index.None? ==> best == ScanStart(side)
    ensures (Better(side, l, best) && l.quantity > 0)
      <==> (Candidate(side, l) && (index.None? || Better(side, l, levels[index.value])))
  {
  }

  /** The loop of `best_bid`/`best_ask`: one pass keeping the running best. */
  method ScanLevels(side: Side, levels: Levels) returns (r: Option<PriceLevel>)
    ensures r == ScanBest(side, levels)
  {
    var best := ScanStart(side);
    ghost var index: Option<nat> := None;
    var i := 0;
    while i < |levels|
      invariant i <= |levels|
      invariant index == BestIndexUpTo(side, levels, i)
      invariant index.None? ==> best == ScanStart(side)
      invariant index.Some? ==> best == levels[index.value]
    {
      var level := levels[i];
      ScanTest(side, level, index, levels, best);
      if Better(side, level, best) && level.quantity > 0 {
        best := level;
        index := Some(i);
      }
      i := i + 1;
    }
    if best.quantity > 0 {
      r := Some(best);
    } else {
      r := None;
    }
  }

  /** Every non-empty cache holds what a fresh scan of its side would report. */
  predicate CacheCoherent(b: OrderBook)
  {
    && (b.cachedBestBid.Some? ==> b.cachedBestBid == ScanBest(Buy, b.bids))
    && (b.cachedBestAsk.Some? ==> b.cachedBestAsk == ScanBest(Sell, b.asks))
  }

  /** `best_bid`: answers from the cache when it is filled, otherwise scans and fills it. */
  method BestBid(b: OrderBook) returns (r: Option<PriceLevel>, b': OrderBook)
    ensures b.cachedBestBid.Some? ==> r == b.cachedBestBid && b' == b
    ensures b.cachedBestBid.None? ==> r == ScanBest(Buy, b.bids) && b' == b.(cachedBestBid := r)
    ensures CacheCoherent(b) ==> r == ScanBest(Buy, b.bids) && CacheCoherent(b')
  {
    if b.cachedBestBid.Some? {
      return b.cachedBestBid, b;
    }
    r := ScanLevels(Buy, b.bids);
    b' := if r.Some? then b.(cachedBestBid := r) else b;
  }

  /** `best_ask`: answers from the cache when it is filled, otherwise scans and fills it. */
  method BestAsk(b: OrderBook) returns (r: Option<PriceLevel>, b': OrderBook)
    ensures b.cachedBestAsk.Some? ==> r == b.cachedBestAsk && b' == b
    ensures b.cachedBestAsk.None? ==> r == ScanBest(Sell, b.asks) && b' == b.(cachedBestAsk := r)
    ensures CacheCoherent(b) ==> r == ScanBest(Sell, b.asks) && CacheCoherent(b')
  {
    if b.cachedBestAsk.Some? {
      return b.cachedBestAsk, b;
    }
    r := ScanLevels(Sell, b.asks);
    b' := if r.Some? then b.(cachedBestAsk := r) else b;
  }

  /** `apply_update` keeps every cache coherent: it empties the touched side's cache and leaves the other side alone. */
  lemma ApplyUpdateCacheCoherent(b: OrderBook, u: MarketDataUpdate)
    requires CacheCoherent(b)
    ensures CacheCoherent(ApplyUpdate(b, u))
  {
  }

  // ---------------------------------------------------------------------------
  // total_volume

  /** The sum of the quantities of a row of levels. */
  function SumQuantities(levels: seq<PriceLevel>): (r: nat)
    ensures r == 0 <==> forall j :: 0 <= j < |levels| ==> levels[j].quantity == 0
    ensures forall j :: 0 <= j < |levels| ==> levels[j].quantity <= r
  {
    if |levels| == 0 then 0
    else
      var rest := SumQuantities(levels[1..]);
      assert forall j :: 1 <= j < |levels| ==> levels[j] == levels[1..][j - 1];
      levels[0].quantity + rest
  }

  /** `total_volume`: the sum of the quantities on one side. */
  function TotalVolume(b: OrderBook, side: Side): (r: nat)
    ensures r == 0 <==> forall i :: 0 <= i < MaxPriceLevels ==> SideLevels(b, side)[i].quantity == 0
    ensures forall i :: 0 <= i < MaxPriceLevels ==> SideLevels(b, side)[i].quantity <= r
  {
    SumQuantities(SideLevels(b, side))
  }

  /** Replacing one level changes the sum by the difference of the two quantities. */
  lemma {:induction false} SumQuantitiesUpdate(levels: seq<PriceLevel>, i: nat, l: PriceLevel)
    requires i < |levels|
    ensures SumQuantities(levels[i := l]) + levels[i].quantity == SumQuantities(levels) + l.quantity
  {
    if i > 0 {
      SumQuantitiesUpdate(levels[1..], i - 1, l);
      assert levels[i := l][1..] == levels[1..][i - 1 := l];
    } else {
      assert levels[i := l][1..] == levels[1..];
    }
  }

  /** After an update the touched side's volume moves from the replaced quantity to the new one; the other side's is unchanged. */
  lemma ApplyUpdateVolume(b: OrderBook, u: MarketDataUpdate)
    ensures TotalVolume(ApplyUpdate(b, u), Other(u.side)) == TotalVolume(b, Other(u.side))
    ensures FindSlot(SideLevels(b, u.side), u.price).None? ==>
      TotalVolume(ApplyUpdate(b, u), u.side) == TotalVolume(b, u.side)
    ensures FindSlot(SideLevels(b, u.side), u.price).Some? ==>
      TotalVolume(ApplyUpdate(b, u), u.side)
        + SideLevels(b, u.side)[FindSlot(SideLevels(b, u.side), u.price).value].quantity
        == TotalVolume(b, u.side) + u.quantity
  {
    var levels := SideLevels(b, u.side);
    match FindSlot(levels, u.price)
    case None =>
    case Some(i) =>
      SumQuantitiesUpdate(levels, i, PriceLevel(u.price, u.quantity));
      assert SideLevels(ApplyUpdate(b, u), u.side) == levels[i := PriceLevel(u.price, u.quantity)];
  }

  // ---------------------------------------------------------------------------
  // GlobalOrderBook

  datatype GlobalOrderBook = GlobalOrderBook(binance: OrderBook, bybit: OrderBook, coinbase: OrderBook)

  /** The book of one exchange. */
  function Book(g: GlobalOrderBook, e: ExchangeId): OrderBook
  {
    match e
    case Binance => g.binance
    case Bybit => g.bybit
    case Coinbase => g.coinbase
  }

  /** `GlobalOrderBook::new`: three empty books. */
  function NewGlobalBook(): (r: GlobalOrderBook)
    ensures forall e: ExchangeId :: Book(r, e) == NewBook()
  {
    GlobalOrderBook(NewBook(), NewBook(), NewBook())
  }

  /** `on_update`: the book of the update's exchange takes the update; the other two are untouched. */
  function OnUpdate(g: GlobalOrderBook, u: MarketDataUpdate): (r: GlobalOrderBook)
    ensures Book(r, u.exchangeId) == ApplyUpdate(Book(g, u.exchangeId), u)
    ensures forall e: ExchangeId :: e != u.exchangeId ==> Book(r, e) == Book(g, e)
  {
    match u.exchangeId
    case Binance => g.(binance := ApplyUpdate(g.binance, u))
    case Bybit => g.(bybit := ApplyUpdate(g.bybit, u))
    case Coinbase => g.(coinbase := ApplyUpdate(g.coinbase, u))
  }

  /** Routing keeps every book's caches coherent. */
  lemma OnUpdateCacheCoherent(g: GlobalOrderBook, u: MarketDataUpdate)
    requires forall e: ExchangeId :: CacheCoherent(Book(g, e))
    ensures forall e: ExchangeId :: CacheCoherent(Book(OnUpdate(g, u), e))
  {
    ApplyUpdateCacheCoherent(Book(g, u.exchangeId), u);
  }
}
