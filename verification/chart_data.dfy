/**
 * The dashboard's streaming aggregation: each market tick lands in the one-second
 * bucket `floor(timestamp / 1000)`, extends or starts an OHLC candle and a volume
 * bar, and is prepended to a newest-first list of at most 20 recent messages.
 */
module ChartData {

  /** One decoded or simulated market update (`MarketUpdate`); `side` is the decoder's text. */
  datatype Tick = Tick(timestamp: int, price: real, quantity: real, side: string)

  datatype Candle = Candle(time: int, open: real, high: real, low: real, close: real)

  datatype VolumeBar = VolumeBar(time: int, value: real, color: string)

  /** The two series the chart draws. */
  datatype Chart = Chart(candles: seq<Candle>, volumes: seq<VolumeBar>)

  const BucketMillis: int := 1000
  const MaxMessages: nat := 20
  const BuyColor: string := "#00ff88"
  const SellColor: string := "#ff4757"

  function Max(a: real, b: real): real { if a >= b then a else b }
  function Min(a: real, b: real): real { if a <= b then a else b }

  /** `Math.floor(timestamp / 1000)`: the bucket is the whole second the timestamp falls in. */
  function Bucket(timestamp: int): (r: int)
    ensures r * BucketMillis <= timestamp < r * BucketMillis + BucketMillis
  {
    timestamp / BucketMillis
  }

  /** A volume bar is green for a `"Buy"` tick and red for anything else. */
  function ColorFor(side: string): string
  {
    if side == "Buy" then BuyColor else SellColor
  }

  /** A tick opens a new candle when there is none yet or the last one is for another bucket, earlier ones included. */
  predicate StartsCandle(candles: seq<Candle>, t: Tick)
  {
    |candles| == 0 || candles[|candles| - 1].time != Bucket(t.timestamp)
  }

  /** The candle half of `updateChartData`. */
  function UpdateCandles(candles: seq<Candle>, t: Tick): (r: seq<Candle>)
    ensures |r| > 0 && r[|r| - 1].time == Bucket(t.timestamp) && r[|r| - 1].close == t.price
    ensures r[|r| - 1].low <= t.price <= r[|r| - 1].high
    ensures forall i :: 0 <= i < |candles| - 1 ==> i < |r| && r[i] == candles[i]
    ensures StartsCandle(candles, t) ==>
      && |r| == |candles| + 1 && r[..|candles|] == candles
      && r[|candles|] == Candle(Bucket(t.timestamp), t.price, t.price, t.price, t.price)
    ensures !StartsCandle(candles, t) ==>
      var last := candles[|candles| - 1];
      && |r| == |candles|
      && r[|r| - 1].open == last.open
      && r[|r| - 1].high == Max(last.high, t.price)
      && r[|r| - 1].low == Min(last.low, t.price)
  {
    var time := Bucket(t.timestamp);
    if StartsCandle(candles, t) then
      candles + [Candle(time, t.price, t.price, t.price, t.price)]
    else
      var last := candles[|candles| - 1];
      candles[|candles| - 1 := last.(high := Max(last.high, t.price), low := Min(last.low, t.price), close := t.price)]
  }

  /** A tick opens a new volume bar under the same rule as for candles. */
  predicate StartsBar(volumes: seq<VolumeBar>, t: Tick)
  {
    |volumes| == 0 || volumes[|volumes| - 1].time != Bucket(t.timestamp)
  }

  /** The volume half of `updateChartData`. */
  function UpdateVolumes(volumes: seq<VolumeBar>, t: Tick): (r: seq<VolumeBar>)
    ensures |r| > 0 && r[|r| - 1].time == Bucket(t.timestamp)
    ensures forall i :: 0 <= i < |volumes| - 1 ==> i < |r| && r[i] == volumes[i]
    ensures StartsBar(volumes, t) ==>
      && |r| == |volumes| + 1 && r[..|volumes|] == volumes
      && r[|volumes|].value == t.quantity && r[|volumes|].color == ColorFor(t.side)
    ensures !StartsBar(volumes, t) ==>
      && |r| == |volumes|
      && r[|r| - 1].value == volumes[|volumes| - 1].value + t.quantity
      && r[|r| - 1].color == volumes[|volumes| - 1].color
  {
    var time := Bucket(t.timestamp);
    if StartsBar(volumes, t) then
      volumes + [VolumeBar(time, t.quantity, ColorFor(t.side))]
    else
      var last := volumes[|volumes| - 1];
      volumes[|volumes| - 1 := last.(value := last.value + t.quantity)]
  }

  /** `updateChartData`: one tick applied to both series. */
  function ApplyTick(c: Chart, t: Tick): (r: Chart)
    ensures |r.candles| > 0 && r.candles[|r.candles| - 1].time == Bucket(t.timestamp)
    ensures r.candles[|r.candles| - 1].close == t.price
    ensures |r.volumes| > 0 && r.volumes[|r.volumes| - 1].time == Bucket(t.timestamp)
    ensures |c.candles| <= |r.candles| <= |c.candles| + 1 && |c.volumes| <= |r.volumes| <= |c.volumes| + 1
    ensures forall i :: 0 <= i < |c.candles| - 1 ==> r.candles[i] == c.candles[i]
    ensures forall i :: 0 <= i < |c.volumes| - 1 ==> r.volumes[i] == c.volumes[i]
  {
    Chart(UpdateCandles(c.candles, t), UpdateVolumes(c.volumes, t))
  }

  /** The series after a sequence of ticks, starting from two empty series. */
  function Aggregate(ticks: seq<Tick>): Chart
  {
    if |ticks| == 0 then Chart([], [])
    else ApplyTick(Aggregate(ticks[..|ticks| - 1]), ticks[|ticks| - 1])
  }

  // ---------------------------------------------------------------------------
  // Invariants of the fold

  predicate WellFormedCandle(c: Candle)
  {
    c.low <= c.open <= c.high && c.low <= c.close <= c.high
  }

  /** Each step keeps low <= open <= high and low <= close <= high in every candle. */
  lemma UpdateCandlesWellFormed(candles: seq<Candle>, t: Tick)
    ensures (forall i :: 0 <= i < |candles| ==> WellFormedCandle(candles[i])) ==>
      forall i :: 0 <= i < |UpdateCandles(candles, t)| ==> WellFormedCandle(UpdateCandles(candles, t)[i])
  {
  }

  /** Candles and volume bars pair up one to one, bucket for bucket. */
  predicate Aligned(c: Chart)
  {
    |c.candles| == |c.volumes| &&
    forall i :: 0 <= i < |c.candles| ==> c.candles[i].time == c.volumes[i].time
  }

  lemma ApplyTickAligned(c: Chart, t: Tick)
    ensures Aligned(c) ==> Aligned(ApplyTick(c, t))
  {
  }

  /** From empty, the two series always have equal length and identical times index by index. */
  lemma {:induction false} AggregateAligned(ticks: seq<Tick>)
    ensures Aligned(Aggregate(ticks))
  {
    if |ticks| > 0 {
      AggregateAligned(ticks[..|ticks| - 1]);
      ApplyTickAligned(Aggregate(ticks[..|ticks| - 1]), ticks[|ticks| - 1]);
    }
  }

  /** A tick whose bucket is earlier than the last candle's starts a new candle; it never rewrites history. */
  lemma EarlierBucketStartsCandle(candles: seq<Candle>, t: Tick)
    requires |candles| > 0 && Bucket(t.timestamp) < candles[|candles| - 1].time
    ensures |UpdateCandles(candles, t)| == |candles| + 1
    ensures UpdateCandles(candles, t)[..|candles|] == candles
  {
  }

  // ---------------------------------------------------------------------------
  // Reference: one candle and one bar per maximal run of same-bucket ticks

  function Last<T>(s: seq<T>): T
    requires |s| > 0
  {
    s[|s| - 1]
  }

  /** The bucket of a run: that of its first tick. */
  function RunBucket(run: seq<Tick>): int
    requires |run| > 0
  {
    Bucket(run[0].timestamp)
  }

  /** The runs joined back together. */
  function Flatten(runs: seq<seq<Tick>>): seq<Tick>
  {
    if |runs| == 0 then [] else Flatten(runs[..|runs| - 1]) + Last(runs)
  }

  /** The ticks cut into maximal runs of consecutive ticks sharing a bucket. */
  function Runs(ticks: seq<Tick>): (rs: seq<seq<Tick>>)
    ensures forall i :: 0 <= i < |rs| ==> |rs[i]| > 0
  {
    if |ticks| == 0 then []
    else
      var t := ticks[|ticks| - 1];
      var rs := Runs(ticks[..|ticks| - 1]);
      if |rs| > 0 && RunBucket(Last(rs)) == Bucket(t.timestamp) then rs[..|rs| - 1] + [Last(rs) + [t]]
      else rs + [[t]]
  }

  lemma FlattenSnoc(rs: seq<seq<Tick>>, run: seq<Tick>)
    ensures Flatten(rs + [run]) == Flatten(rs) + run
  {
    assert (rs + [run])[..|rs|] == rs;
  }

  /** The runs join back to the ticks. */
  lemma {:induction false} RunsFlatten(ticks: seq<Tick>)
    ensures Flatten(Runs(ticks)) == ticks
  {
    if |ticks| > 0 {
      var init := ticks[..|ticks| - 1];
      var t := ticks[|ticks| - 1];
      assert ticks == init + [t];
      RunsFlatten(init);
      RunsStep(init, t);
      var rs := Runs(init);
      if |rs| > 0 && RunBucket(Last(rs)) == Bucket(t.timestamp) {
        var front := rs[..|rs| - 1];
        assert rs == front + [Last(rs)];
        FlattenSnoc(front, Last(rs));
        FlattenSnoc(front, Last(rs) + [t]);
      } else {
        FlattenSnoc(rs, [t]);
      }
    }
  }

  /** Every tick of a run lies in the run's bucket. */
  lemma {:induction false} RunsSingleBucket(ticks: seq<Tick>, i: nat, j: nat)
    requires i < |Runs(ticks)| && j < |Runs(ticks)[i]|
    ensures Bucket(Runs(ticks)[i][j].timestamp) == RunBucket(Runs(ticks)[i])
  {
    var init := ticks[..|ticks| - 1];
    var t := ticks[|ticks| - 1];
    var rs := Runs(init);
    var r := Runs(ticks);
    if |rs| > 0 && RunBucket(Last(rs)) == Bucket(t.timestamp) {
      if i < |rs| - 1 {
        RunsSingleBucket(init, i, j);
      } else if j < |Last(rs)| {
        RunsSingleBucket(init, i, j);
      }
    } else if i < |rs| {
      RunsSingleBucket(init, i, j);
    }
  }

  /** Neighbouring runs lie in different buckets, so the runs are maximal. */
  lemma {:induction false} RunsNeighboursDiffer(ticks: seq<Tick>, i: nat)
    requires 0 < i < |Runs(ticks)|
    ensures RunBucket(Runs(ticks)[i]) != RunBucket(Runs(ticks)[i - 1])
  {
    var init := ticks[..|ticks| - 1];
    var t := ticks[|ticks| - 1];
    var rs := Runs(init);
    var r := Runs(ticks);
    if |rs| > 0 && RunBucket(Last(rs)) == Bucket(t.timestamp) {
      assert r[i - 1] == rs[i - 1];
      if i < |rs| - 1 {
        RunsNeighboursDiffer(init, i);
      } else {
        assert RunBucket(r[i]) == RunBucket(rs[i]);
        RunsNeighboursDiffer(init, i);
      }
    } else if i < |rs| {
      RunsNeighboursDiffer(init, i);
    }
  }

  /** The highest price of a run. */
  function HighOf(run: seq<Tick>): (r: real)
    requires |run| > 0
    ensures forall j :: 0 <= j < |run| ==> run[j].price <= r
    ensures exists j :: 0 <= j < |run| && run[j].price == r
  {
    if |run| == 1 then run[0].price
    else
      var h := HighOf(run[..|run| - 1]);
      assert forall j :: 0 <= j < |run| - 1 ==> run[j] == run[..|run| - 1][j];
      Max(h, Last(run).price)
  }

  /** The lowest price of a run. */
  function LowOf(run: seq<Tick>): (r: real)
    requires |run| > 0
    ensures forall j :: 0 <= j < |run| ==> r <= run[j].price
    ensures exists j :: 0 <= j < |run| && run[j].price == r
  {
    if |run| == 1 then run[0].price
    else
      var l := LowOf(run[..|run| - 1]);
      assert forall j :: 0 <= j < |run| - 1 ==> run[j] == run[..|run| - 1][j];
      Min(l, Last(run).price)
  }

  /** The total quantity of a run. */
  function QuantityOf(run: seq<Tick>): real
  {
    if |run| == 0 then 0.0 else QuantityOf(run[..|run| - 1]) + Last(run).quantity
  }

  /** The candle of a run: first price, highest, lowest, last price. */
  function CandleOf(run: seq<Tick>): (c: Candle)
    requires |run| > 0
    ensures WellFormedCandle(c)
  {
    Candle(RunBucket(run), run[0].price, HighOf(run), LowOf(run), Last(run).price)
  }

  /** The volume bar of a run: its total quantity, coloured by its first tick's side. */
  function VolumeOf(run: seq<Tick>): VolumeBar
    requires |run| > 0
  {
    VolumeBar(RunBucket(run), QuantityOf(run), ColorFor(run[0].side))
  }

  /** One candle per run, in order. */
  function CandlesOfRuns(rs: seq<seq<Tick>>): (r: seq<Candle>)
    requires forall i :: 0 <= i < |rs| ==> |rs[i]| > 0
    ensures |r| == |rs|
  {
    if |rs| == 0 then [] else CandlesOfRuns(rs[..|rs| - 1]) + [CandleOf(Last(rs))]
  }

  /** One volume bar per run, in order. */
  function VolumesOfRuns(rs: seq<seq<Tick>>): (r: seq<VolumeBar>)
    requires forall i :: 0 <= i < |rs| ==> |rs[i]| > 0
    ensures |r| == |rs|
  {
    if |rs| == 0 then [] else VolumesOfRuns(rs[..|rs| - 1]) + [VolumeOf(Last(rs))]
  }

  /** A tick that joins a run moves its candle's close, high and low and adds to its volume. */
  lemma ExtendRun(run: seq<Tick>, t: Tick)
    requires |run| > 0
    ensures CandleOf(run + [t]) == CandleOf(run).(high := Max(HighOf(run), t.price), low := Min(LowOf(run), t.price), close := t.price)
    ensures VolumeOf(run + [t]) == VolumeOf(run).(value := QuantityOf(run) + t.quantity)
  {
    assert (run + [t])[..|run|] == run;
  }

  /** The last run of the ticks seen so far either takes the next tick or is followed by a new run of it. */
  lemma RunsStep(ticks: seq<Tick>, t: Tick)
    ensures
      var rs := Runs(ticks);
      if |rs| > 0 && RunBucket(Last(rs)) == Bucket(t.timestamp)
      then Runs(ticks + [t]) == rs[..|rs| - 1] + [Last(rs) + [t]]
      else Runs(ticks + [t]) == rs + [[t]]
  {
    assert (ticks + [t])[..|ticks|] == ticks;
  }

  /** A tick in the last run's bucket updates the last candle and bar to those of the extended run. */
  lemma MergeStep(front: seq<seq<Tick>>, run: seq<Tick>, t: Tick)
    requires forall i :: 0 <= i < |front| ==> |front[i]| > 0
    requires |run| > 0 && RunBucket(run) == Bucket(t.timestamp)
    ensures UpdateCandles(CandlesOfRuns(front + [run]), t) == CandlesOfRuns(front + [run + [t]])
    ensures UpdateVolumes(VolumesOfRuns(front + [run]), t) == VolumesOfRuns(front + [run + [t]])
  {
    ExtendRun(run, t);
    assert (front + [run])[..|front|] == front;
    assert (front + [run + [t]])[..|front|] == front;
  }

  /** A tick in another bucket appends the candle and bar of a one-tick run. */
  lemma NewRunStep(rs: seq<seq<Tick>>, t: Tick)
    requires forall i :: 0 <= i < |rs| ==> |rs[i]| > 0
    requires |rs| == 0 || RunBucket(Last(rs)) != Bucket(t.timestamp)
    ensures UpdateCandles(CandlesOfRuns(rs), t) == CandlesOfRuns(rs + [[t]])
    ensures UpdateVolumes(VolumesOfRuns(rs), t) == VolumesOfRuns(rs + [[t]])
  {
    assert (rs + [[t]])[..|rs|] == rs;
    assert [t][..0] == [];
    assert QuantityOf([t]) == QuantityOf([]) + t.quantity == t.quantity;
    assert VolumeOf([t]) == VolumeBar(Bucket(t.timestamp), t.quantity, ColorFor(t.side));
    if |rs| > 0 {
      assert Last(CandlesOfRuns(rs)) == CandleOf(Last(rs));
      assert Last(VolumesOfRuns(rs)) == VolumeOf(Last(rs));
    }
  }

  /** Folding ticks gives exactly one candle and one volume bar per run, in order. */
  lemma {:induction false} AggregateByRuns(ticks: seq<Tick>)
    ensures Aggregate(ticks).candles == CandlesOfRuns(Runs(ticks))
    ensures Aggregate(ticks).volumes == VolumesOfRuns(Runs(ticks))
  {
    if |ticks| > 0 {
      var init := ticks[..|ticks| - 1];
      var t := ticks[|ticks| - 1];
      assert ticks == init + [t];
      AggregateByRuns(init);
      RunsStep(init, t);
      var rs := Runs(init);
      if |rs| > 0 && RunBucket(Last(rs)) == Bucket(t.timestamp) {
        var front := rs[..|rs| - 1];
        assert rs == front + [Last(rs)];
        MergeStep(front, Last(rs), t);
      } else {
        NewRunStep(rs, t);
      }
    }
  }

  /** The worked example: ticks at 1000, 1500 and 2200 ms give two candles and two bars. */
  lemma ThreeTickExample()
    ensures
      var ticks := [Tick(1000, 100.0, 1.0, "Buy"), Tick(1500, 105.0, 2.0, "Sell"), Tick(2200, 90.0, 1.0, "Buy")];
      && Aggregate(ticks).candles == [Candle(1, 100.0, 105.0, 100.0, 105.0), Candle(2, 90.0, 90.0, 90.0, 90.0)]
      && Aggregate(ticks).volumes == [VolumeBar(1, 3.0, BuyColor), VolumeBar(2, 1.0, BuyColor)]
  {
    var t1, t2, t3 := Tick(1000, 100.0, 1.0, "Buy"), Tick(1500, 105.0, 2.0, "Sell"), Tick(2200, 90.0, 1.0, "Buy");
    var ticks := [t1, t2, t3];
    assert ticks[..2] == [t1, t2];
    assert [t1, t2][..1] == [t1];
    assert [t1][..0] == [];
    assert Aggregate([t1]) == ApplyTick(Aggregate([]), t1);
    var c1 := Aggregate([t1]);
    assert Bucket(1000) == 1 && Bucket(1500) == 1 && Bucket(2200) == 2;
    assert c1 == Chart([Candle(1, 100.0, 100.0, 100.0, 100.0)], [VolumeBar(1, 1.0, BuyColor)]);
    var c2 := Aggregate([t1, t2]);
    assert c2 == ApplyTick(c1, t2);
    assert c2 == Chart([Candle(1, 100.0, 105.0, 100.0, 105.0)], [VolumeBar(1, 3.0, BuyColor)]);
    assert Aggregate(ticks) == ApplyTick(c2, t3);
  }

  // ---------------------------------------------------------------------------
  // Recent messages

  /** `[update, ...prev].slice(0, 20)`: the newest message first, at most 20 kept. */
  function PushRecent(messages: seq<Tick>, t: Tick): (r: seq<Tick>)
    ensures |r| == if |messages| < MaxMessages then |messages| + 1 else MaxMessages
    ensures r[0] == t
    ensures forall i :: 0 < i < |r| ==> r[i] == messages[i - 1]
  {
    var pushed := [t] + messages;
    if |pushed| <= MaxMessages then pushed else pushed[..MaxMessages]
  }

  /** The recent-message list after a sequence of ticks, starting from empty. */
  function Recent(ticks: seq<Tick>): seq<Tick>
  {
    if |ticks| == 0 then [] else PushRecent(Recent(ticks[..|ticks| - 1]), ticks[|ticks| - 1])
  }

  /** The list holds the last min(n, 20) ticks, newest first. */
  lemma {:induction false} RecentNewestFirst(ticks: seq<Tick>)
    ensures |Recent(ticks)| == if |ticks| < MaxMessages then |ticks| else MaxMessages
    ensures forall i :: 0 <= i < |Recent(ticks)| ==> Recent(ticks)[i] == ticks[|ticks| - 1 - i]
  {
    if |ticks| > 0 {
      RecentNewestFirst(ticks[..|ticks| - 1]);
    }
  }

  // ---------------------------------------------------------------------------
  // The dashboard state one tick updates

  datatype Dashboard = Dashboard(messages: seq<Tick>, chart: Chart)

  /** The invariant the dashboard keeps: at most 20 messages, aligned series, well-formed candles. */
  predicate DashboardInvariant(d: Dashboard)
  {
    && |d.messages| <= MaxMessages
    && Aligned(d.chart)
    && forall i :: 0 <= i < |d.chart.candles| ==> WellFormedCandle(d.chart.candles[i])
  }

  /** What a simulated tick or a decoded socket message does: prepend it to the messages, then update the chart. */
  function Ingest(d: Dashboard, t: Tick): (r: Dashboard)
    ensures DashboardInvariant(d) ==> DashboardInvariant(r)
    ensures |r.messages| > 0 && r.messages[0] == t
  {
    UpdateCandlesWellFormed(d.chart.candles, t);
    ApplyTickAligned(d.chart, t);
    Dashboard(PushRecent(d.messages, t), ApplyTick(d.chart, t))
  }
}
