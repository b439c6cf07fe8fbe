/** The dashboard: network statistics and latest blocks refreshed by
    polling, and a gas-price chart seeded with 24 hourly samples and kept
    as a 24-point sliding window by the gas push channel. */
module Dashboard {
  import opened Wrappers
  import Js
  import SeqUtil

  /** Points on the gas chart. */
  const GAS_WINDOW: nat := 24
  /** One hour in milliseconds, the spacing of the seeded samples. */
  const HOUR_MS: int := 3600000

  /** One chart point: when it was taken (epoch milliseconds; the chart
      shows it as a local "HH:MM" label) and its price in gwei. */
  datatype GasSample = GasSample(at: int, price: real)

  /** The seed chart: sample `i` is taken `23 - i` hours before `now`,
      with price `5 + 3 * draws[i]` for the `Math.random()` draws. */
  method Seed(now: int, draws: seq<real>) returns (history: seq<GasSample>)
    requires |draws| == GAS_WINDOW
    requires forall i :: 0 <= i < |draws| ==> 0.0 <= draws[i] < 1.0
    ensures |history| == GAS_WINDOW
    ensures forall i :: 0 <= i < |history| ==>
      history[i].at == now - (23 - i) * HOUR_MS && history[i].price == 5.0 + draws[i] * 3.0
    ensures forall i :: 0 <= i < |history| ==> 5.0 <= history[i].price < 8.0
    ensures forall i, j :: 0 <= i < j < |history| ==> history[i].at < history[j].at
    ensures history[|history| - 1].at == now
  {
    history := [];
    var i := 0;
    while i < GAS_WINDOW
      invariant 0 <= i <= GAS_WINDOW && |history| == i
      invariant forall k :: 0 <= k < i ==>
        history[k].at == now - (23 - k) * HOUR_MS && history[k].price == 5.0 + draws[k] * 3.0
      invariant forall k :: 0 <= k < i ==> 5.0 <= history[k].price < 8.0
    {
      history := history + [GasSample(now - (23 - i) * HOUR_MS, 5.0 + draws[i] * 3.0)];
      i := i + 1;
    }
  }

  /** A message on the gas channel: its `event` field and the
      `data.gas_price_gwei` it carries. */
  datatype GasMessage = GasMessage(event: Js.Value, gasPriceGwei: real)

  /** The `onmessage` handler: a `gas_update` drops the oldest point when
      the chart is full and appends the new one; any other event changes
      nothing. */
  function OnGasMessage(history: seq<GasSample>, m: GasMessage, now: int): (r: seq<GasSample>)
    ensures m.event != Js.Str("gas_update") ==> r == history
    ensures m.event == Js.Str("gas_update") ==>
      && |r| > 0 && r[|r| - 1] == GasSample(now, m.gasPriceGwei)
      && r[..|r| - 1] == (if |history| >= GAS_WINDOW then history[1..] else history)
  {
    if m.event != Js.Str("gas_update") then history
    else (if |history| >= GAS_WINDOW then history[1..] else history) + [GasSample(now, m.gasPriceGwei)]
  }

  /** One window step equals the last-24 window of the history extended by
      the new point, as long as the chart never held more than 24 points. */
  lemma {:induction false} WindowStep(all: seq<GasSample>, x: GasSample)
    ensures var h := SeqUtil.LastN(all, GAS_WINDOW);
      SeqUtil.LastN(all + [x], GAS_WINDOW) == (if |h| >= GAS_WINDOW then h[1..] else h) + [x]
  {
    var h := SeqUtil.LastN(all, GAS_WINDOW);
    var lhs := SeqUtil.LastN(all + [x], GAS_WINDOW);
    var rhs := (if |h| >= GAS_WINDOW then h[1..] else h) + [x];
    assert |lhs| == |rhs|;
    forall i | 0 <= i < |lhs|
      ensures lhs[i] == rhs[i]
    {
      if i < |lhs| - 1 {
        assert rhs[i] == (if |h| >= GAS_WINDOW then h[i + 1] else h[i]);
      }
    }
  }

  /** The timestamps and prices the gas channel delivers, paired. */
  datatype GasPush = GasPush(message: GasMessage, now: int)

  /** The points appended by a sequence of pushes. */
  function Appended(pushes: seq<GasPush>): (r: seq<GasSample>)
    ensures |r| <= |pushes|
  {
    if pushes == [] then []
    else
      var last := pushes[|pushes| - 1];
      Appended(pushes[..|pushes| - 1])
        + (if last.message.event == Js.Str("gas_update") then [GasSample(last.now, last.message.gasPriceGwei)] else [])
  }

  /** The chart after a sequence of pushes, applied in arrival order. */
  function ApplyPushes(history: seq<GasSample>, pushes: seq<GasPush>): seq<GasSample>
  {
    if pushes == [] then history
    else
      var last := pushes[|pushes| - 1];
      OnGasMessage(ApplyPushes(history, pushes[..|pushes| - 1]), last.message, last.now)
  }

  /** Starting from a chart of at most 24 points, the chart is always the
      last 24 of the seed followed by the `gas_update` prices, in arrival
      order; other events never show up. */
  lemma {:induction false} ChartIsSlidingWindow(seed: seq<GasSample>, pushes: seq<GasPush>)
    requires |seed| <= GAS_WINDOW
    ensures ApplyPushes(seed, pushes) == SeqUtil.LastN(seed + Appended(pushes), GAS_WINDOW)
    ensures |ApplyPushes(seed, pushes)| <= GAS_WINDOW
  {
    if pushes == [] {
      assert seed + [] == seed;
    } else {
      var init := pushes[..|pushes| - 1];
      var last := pushes[|pushes| - 1];
      ChartIsSlidingWindow(seed, init);
      var all := seed + Appended(init);
      var h := ApplyPushes(seed, init);
      assert h == SeqUtil.LastN(all, GAS_WINDOW);
      assert ApplyPushes(seed, pushes) == OnGasMessage(h, last.message, last.now);
      if last.message.event == Js.Str("gas_update") {
        var x := GasSample(last.now, last.message.gasPriceGwei);
        assert Appended(pushes) == Appended(init) + [x];
        assert seed + Appended(pushes) == all + [x];
        WindowStep(all, x);
      } else {
        assert Appended(pushes) == Appended(init) + [];
        assert seed + Appended(pushes) == all;
      }
    }
  }

  // ---------------------------------------------------------------------
  // Polling

  /** The two failure messages the page can show. */
  datatype DashError = StatsUnavailable | BlocksUnavailable

  /** Completion of one poll of either loop, in completion order. */
  datatype PollEvent<S, B> = StatsLoaded(stats: S) | StatsFailed | BlocksLoaded(blocks: seq<B>) | BlocksFailed

  datatype DashboardState<S, B> = DashboardState(
    stats: Option<S>, blocks: seq<B>, loading: bool, error: Option<DashError>)

  /** The state on mount: nothing fetched, spinner shown. */
  function Initial<S, B>(): DashboardState<S, B>
  {
    DashboardState(None, [], true, None)
  }

  /** One poll completion. A success stores the data; a failure sets the
      message. Nothing ever clears the message, and only the blocks loop
      ends the loading phase. */
  function OnPoll<S, B>(st: DashboardState<S, B>, e: PollEvent<S, B>): (r: DashboardState<S, B>)
    ensures st.error.Some? || e.StatsFailed? || e.BlocksFailed? <==> r.error.Some?
    ensures r.loading <==> st.loading && !e.BlocksLoaded? && !e.BlocksFailed?
    ensures r.stats == (if e.StatsLoaded? then Some(e.stats) else st.stats)
    ensures r.blocks == (if e.BlocksLoaded? then e.blocks else st.blocks)
  {
    match e
    case StatsLoaded(s) => st.(stats := Some(s))
    case StatsFailed => st.(error := Some(StatsUnavailable))
    case BlocksLoaded(bs) => st.(blocks := bs, loading := false)
    case BlocksFailed => st.(error := Some(BlocksUnavailable), loading := false)
  }

  function Replay<S, B>(events: seq<PollEvent<S, B>>): DashboardState<S, B>
  {
    if events == [] then Initial() else OnPoll(Replay(events[..|events| - 1]), events[|events| - 1])
  }

  /** The message of the most recent failed poll, if any. */
  function LastFailure<S, B>(events: seq<PollEvent<S, B>>): (r: Option<DashError>)
    ensures r.None? <==> forall i :: 0 <= i < |events| ==> !events[i].StatsFailed? && !events[i].BlocksFailed?
  {
    if events == [] then None
    else
      var e := events[|events| - 1];
      if e.StatsFailed? then Some(StatsUnavailable)
      else if e.BlocksFailed? then Some(BlocksUnavailable)
      else
        var r := LastFailure(events[..|events| - 1]);
        assert forall i :: 0 <= i < |events| - 1 ==> events[i] == events[..|events| - 1][i];
        r
  }

  /** The block list of the most recent successful blocks poll. */
  function LastBlocks<S, B>(events: seq<PollEvent<S, B>>): Option<seq<B>>
  {
    if events == [] then None
    else if events[|events| - 1].BlocksLoaded? then Some(events[|events| - 1].blocks)
    else LastBlocks(events[..|events| - 1])
  }

  /** The page state after any completion order: the error is the message
      of the latest failure and stays once set, the list is the latest
      successfully fetched one, and the spinner is gone exactly when some
      blocks poll has completed. */
  lemma {:induction false} DashboardReplay<S, B>(events: seq<PollEvent<S, B>>)
    ensures Replay(events).error == LastFailure(events)
    ensures Replay(events).blocks == GetOr(LastBlocks(events), [])
    ensures !Replay(events).loading <==>
      exists i :: 0 <= i < |events| && (events[i].BlocksLoaded? || events[i].BlocksFailed?)
  {
    if events != [] {
      var init := events[..|events| - 1];
      DashboardReplay(init);
      assert forall i :: 0 <= i < |init| ==> init[i] == events[i];
    }
  }

  /** Once a poll has failed, later successes never clear the error page. */
  lemma ErrorIsSticky<S, B>(events: seq<PollEvent<S, B>>, later: seq<PollEvent<S, B>>)
    requires Replay(events).error.Some?
    ensures Replay(events + later).error.Some?
  {
    DashboardReplay(events);
    DashboardReplay(events + later);
    var i :| 0 <= i < |events| && (events[i].StatsFailed? || events[i].BlocksFailed?);
    assert (events + later)[i] == events[i];
  }

  /** What the page renders: the spinner while loading, else the error
      page if any message is set, else the statistics, blocks and chart. */
  datatype View = Spinner | ErrorPage(message: DashError) | Content

  function Render<S, B>(st: DashboardState<S, B>): (v: View)
    ensures v == Spinner <==> st.loading
    ensures v.ErrorPage? <==> !st.loading && st.error.Some?
    ensures v.ErrorPage? ==> v.message == st.error.value
  {
    if st.loading then Spinner
    else if st.error.Some? then ErrorPage(st.error.value)
    else Content
  }
}
