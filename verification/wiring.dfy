/** How the front end's requests meet the backend's routes and push
    messages: which handler each gateway helper reaches, and the listing
    of latest transactions that has no route. */
module Wiring {
  import opened Wrappers
  import Js
  import JsNumber
  import Http
  import ApiClient
  import BackendApi
  import Dashboard
  import BlockExplorer
  import TransactionList

  /** A numeral is one segment and reads as an integer parameter. */
  lemma ShowIntIsIntSegment(n: int)
    ensures '/' !in JsNumber.ShowInt(n)
    ensures BackendApi.IsIntLiteral(JsNumber.ShowInt(n))
    ensures JsNumber.ShowInt(n) != "" && JsNumber.ShowInt(n)[0] != 'r' && JsNumber.ShowInt(n) != "latest"
  {
    var m: nat := if n < 0 then -n else n;
    var ds := JsNumber.NatDigits(m, 10);
    assert forall i :: 0 <= i < |ds| ==> JsNumber.IsDigit(ds[i], 10);
    forall i | 0 <= i < |ds|
      ensures ds[i] != '/'
    {
      assert JsNumber.IsDigit(ds[i], 10);
    }
    assert JsNumber.IsDigit(ds[0], 10);
    if n < 0 {
      assert JsNumber.ShowInt(n) == "-" + ds;
      assert JsNumber.ShowInt(n)[1..] == ds;
    } else {
      assert JsNumber.ShowInt(n) == ds;
    }
  }

  /** A character the browser's URL parser or the server's percent
      decoding rewrites inside a path: the separator `/`, `\` (read as
      `/` in http URLs), `?` and `#` (which end the path), `%` (an escape
      the server decodes), and tab, line feed and carriage return (which
      the parser drops). */
  predicate IsRewritten(c: char)
  {
    c == '/' || c == '\\' || c == '?' || c == '#' || c == '%' || c == '\t' || c == '\n' || c == '\r'
  }

  /** Caller-supplied text that reaches the server as one path segment,
      unchanged: not empty, not a dot segment (the URL parser resolves
      `.` and `..` away), and free of characters that are rewritten. */
  predicate IsSegment(s: string)
  {
    s != "" && s != "." && s != ".." && forall i :: 0 <= i < |s| ==> !IsRewritten(s[i])
  }

  /** The string arguments of a request each reach the server as one
      unchanged segment (hashes
      and addresses that passed the page's pattern always do). */
  predicate WellFormed(e: ApiClient.Endpoint)
  {
    match e
    case Transaction(hash) => IsSegment(hash)
    case TransactionReceipt(hash) => IsSegment(hash)
    case AccountBalance(address) => IsSegment(address)
    case TokenBalance(token, wallet) => IsSegment(token) && IsSegment(wallet)
    case _ => true
  }

  /** The handler each helper is written against. */
  function Intended(e: ApiClient.Endpoint): BackendApi.Handler
  {
    match e
    case LatestBlock => BackendApi.LatestBlockHandler
    case LatestBlocks(_) => BackendApi.LatestBlocksHandler
    case BlockByNumber(_) => BackendApi.BlockByNumberHandler
    case LatestTransactions(_) => BackendApi.LatestTransactionsHandler
    case Transaction(_) => BackendApi.TransactionHandler
    case TransactionReceipt(_) => BackendApi.ReceiptHandler
    case AccountBalance(_) => BackendApi.AccountBalanceHandler
    case TokenBalance(_, _) => BackendApi.TokenBalanceHandler
    case ContractCall => BackendApi.ContractCallHandler
    case Stats => BackendApi.StatsHandler
  }

  /** The backend splits a helper's path back into the helper's segments. */
  lemma RequestSegments(e: ApiClient.Endpoint)
    requires WellFormed(e)
    ensures Http.Segments(ApiClient.Path(e)) == ApiClient.PathSegments(e)
  {
    var segs := ApiClient.PathSegments(e);
    match e {
      case LatestBlocks(count) => ShowIntIsIntSegment(count);
      case BlockByNumber(number) => ShowIntIsIntSegment(number);
      case LatestTransactions(count) => ShowIntIsIntSegment(count);
      case _ =>
    }
    assert forall i :: 0 <= i < |segs| ==> '/' !in segs[i];
    Http.SegmentsOfJoin(segs);
  }

  /** Where a route table sends a helper's request: the backend sees the
      helper's segments (`RequestSegments`). */
  function Served(routes: seq<BackendApi.Route>, e: ApiClient.Endpoint): BackendApi.Routing
  {
    BackendApi.Resolve(routes, ApiClient.Method(e), ApiClient.PathSegments(e))
  }

  /** The first route matching path and verb, with valid parameters,
      handles the request. */
  lemma ResolvesTo(routes: seq<BackendApi.Route>, verb: Http.HttpMethod, segs: seq<string>, k: nat)
    requires k < |routes| && routes[k].verb == verb && BackendApi.PathMatches(routes[k], segs)
    requires BackendApi.ParamsValid(routes[k], segs)
    requires forall j :: 0 <= j < k ==> !(routes[j].verb == verb && BackendApi.PathMatches(routes[j], segs))
    ensures BackendApi.Resolve(routes, verb, segs) == BackendApi.Handled(k)
  {
  }

  /** Every helper but one reaches the handler it is written against. */
  lemma EndpointServed(e: ApiClient.Endpoint)
    requires WellFormed(e) && !e.LatestTransactions?
    ensures var d := Served(BackendApi.ROUTES, e);
      d.Handled? && BackendApi.ROUTES[d.route].handler == Intended(e)
  {
    var segs := ApiClient.PathSegments(e);
    var k := RouteOf(e);
    RoutesBefore(e);
    OwnParamsValid(e);
    ResolvesTo(BackendApi.ROUTES, ApiClient.Method(e), segs, k);
  }

  /** The position in the route table of the handler each helper targets. */
  function RouteOf(e: ApiClient.Endpoint): (k: nat)
    ensures k <= 10
  {
    match e
    case LatestBlock => 0
    case LatestBlocks(_) => 1
    case BlockByNumber(_) => 2
    case Transaction(_) => 3
    case TransactionReceipt(_) => 4
    case AccountBalance(_) => 5
    case TokenBalance(_, _) => 6
    case ContractCall => 7
    case Stats => 8
    case LatestTransactions(_) => 10
  }

  /** The integer parameters of a helper's request validate. */
  lemma OwnParamsValid(e: ApiClient.Endpoint)
    requires WellFormed(e) && !e.LatestTransactions?
    ensures var segs := ApiClient.PathSegments(e);
      |BackendApi.ROUTES[RouteOf(e)].patterns| == |segs| ==> BackendApi.ParamsValid(BackendApi.ROUTES[RouteOf(e)], segs)
  {
    var segs := ApiClient.PathSegments(e);
    var r := BackendApi.ROUTES[RouteOf(e)];
    match e {
      case LatestBlocks(count) =>
        ShowIntIsIntSegment(count);
        assert r.patterns == [BackendApi.Lit("api"), BackendApi.Lit("blocks"), BackendApi.Lit("latest"), BackendApi.IntParam];
        assert BackendApi.IsIntLiteral(segs[3]);
      case BlockByNumber(number) =>
        ShowIntIsIntSegment(number);
        assert r.patterns == [BackendApi.Lit("api"), BackendApi.Lit("blocks"), BackendApi.IntParam];
        assert BackendApi.IsIntLiteral(segs[2]);
      case LatestTransactions(_) =>
      case _ =>
        assert forall i :: 0 <= i < |r.patterns| ==> r.patterns[i] != BackendApi.IntParam;
    }
  }

  /** The routes declared before a helper's own route do not take its
      request, and its own route does. */
  lemma RoutesBefore(e: ApiClient.Endpoint)
    requires WellFormed(e) && !e.LatestTransactions?
    ensures var segs := ApiClient.PathSegments(e);
      var k := RouteOf(e);
      && k < |BackendApi.ROUTES|
      && BackendApi.ROUTES[k].verb == ApiClient.Method(e)
      && BackendApi.ROUTES[k].handler == Intended(e)
      && BackendApi.PathMatches(BackendApi.ROUTES[k], segs)
      && (forall j :: 0 <= j < k ==>
            !(BackendApi.ROUTES[j].verb == ApiClient.Method(e) && BackendApi.PathMatches(BackendApi.ROUTES[j], segs)))
  {
    var segs := ApiClient.PathSegments(e);
    var R := BackendApi.ROUTES;
    match e {
      case LatestBlock =>
      case LatestBlocks(count) =>
        ShowIntIsIntSegment(count);
        assert |R[0].patterns| != |segs|;
      case BlockByNumber(number) =>
        ShowIntIsIntSegment(number);
        assert segs[2] != "latest";
        assert !BackendApi.SegmentMatches(R[0].patterns[2], segs[2]);
        assert |R[1].patterns| != |segs|;
      case Transaction(_) =>
        assert segs[1] != "blocks";
        assert !BackendApi.SegmentMatches(R[0].patterns[1], segs[1]);
        assert !BackendApi.SegmentMatches(R[2].patterns[1], segs[1]);
        assert |R[1].patterns| != |segs|;
      case TransactionReceipt(_) =>
        assert segs[1] != "blocks";
        assert !BackendApi.SegmentMatches(R[1].patterns[1], segs[1]);
        assert forall j :: 0 <= j < 4 && j != 1 ==> |R[j].patterns| != |segs|;
      case AccountBalance(_) =>
        assert segs[1] != "blocks" && segs[1] != "transactions";
        assert !BackendApi.SegmentMatches(R[1].patterns[1], segs[1]);
        assert !BackendApi.SegmentMatches(R[4].patterns[1], segs[1]);
        assert forall j :: 0 <= j < 5 && j != 1 && j != 4 ==> |R[j].patterns| != |segs|;
      case TokenBalance(_, _) =>
        assert forall j :: 0 <= j < 6 ==> |R[j].patterns| != |segs|;
      case ContractCall =>
        assert forall j :: 0 <= j < 7 ==> R[j].verb != Http.POST;
      case Stats =>
        assert forall j :: 0 <= j < 8 && j != 7 ==> |R[j].patterns| != |segs|;
    }
  }

  /** No route of the table as written has the listing's path, with or
      without a trailing slash. */
  lemma NoRouteForListing(count: int)
    ensures var segs := ApiClient.PathSegments(ApiClient.LatestTransactions(count));
      forall j :: 0 <= j < |BackendApi.ROUTES| ==> !BackendApi.PathMatches(BackendApi.ROUTES[j], segs)
    ensures var segs := ApiClient.PathSegments(ApiClient.LatestTransactions(count));
      !BackendApi.AnyPathMatches(BackendApi.ROUTES, BackendApi.SlashToggled(segs))
  {
    ShowIntIsIntSegment(count);
    var segs := ApiClient.PathSegments(ApiClient.LatestTransactions(count));
    var R := BackendApi.ROUTES;
    assert !BackendApi.SegmentMatches(R[1].patterns[1], segs[1]);
    assert !BackendApi.SegmentMatches(R[4].patterns[3], segs[3]);
    assert !BackendApi.SegmentMatches(R[5].patterns[1], segs[1]);
    assert forall j :: 0 <= j < |R| && j != 1 && j != 4 && j != 5 ==> |R[j].patterns| != |segs|;
    var slashed := BackendApi.SlashToggled(segs);
    assert segs[3] != "";
    assert slashed == segs + [""];
    assert !BackendApi.SegmentMatches(R[6].patterns[1], slashed[1]);
    assert forall j :: 0 <= j < |R| && j != 6 ==> |R[j].patterns| != |slashed|;
  }

  /** `fetchLatestTransactions` asks for `/api/transactions/latest/{n}`,
      which no route has: every call answers 404, so the transaction page
      can only ever show its list error. */
  lemma LatestTransactionsNotFound(count: int)
    ensures Served(BackendApi.ROUTES, ApiClient.LatestTransactions(count)) == BackendApi.NotFound
    ensures BackendApi.RoutingStatus(Served(BackendApi.ROUTES, ApiClient.LatestTransactions(count))) == 404
  {
    NoRouteForListing(count);
  }

  /** The route table with the listing the client expects, appended after
      the routes there are so that no existing request changes handler. */
  const CORRECTED_ROUTES: seq<BackendApi.Route> := BackendApi.ROUTES + [
    BackendApi.Route(Http.GET, [BackendApi.Lit("api"), BackendApi.Lit("transactions"),
                                BackendApi.Lit("latest"), BackendApi.IntParam],
                     BackendApi.LatestTransactionsHandler)
  ]

  /** With the listing route added, every helper reaches the handler it is
      written against. */
  lemma EveryEndpointServed(e: ApiClient.Endpoint)
    requires WellFormed(e)
    ensures var d := Served(CORRECTED_ROUTES, e);
      d.Handled? && CORRECTED_ROUTES[d.route].handler == Intended(e)
  {
    var segs := ApiClient.PathSegments(e);
    var C := CORRECTED_ROUTES;
    assert forall j :: 0 <= j < |BackendApi.ROUTES| ==> C[j] == BackendApi.ROUTES[j];
    if e.LatestTransactions? {
      NoRouteForListing(e.count);
      ShowIntIsIntSegment(e.count);
      assert BackendApi.PathMatches(C[10], segs);
      ResolvesTo(C, Http.GET, segs, 10);
    } else {
      RoutesBefore(e);
      OwnParamsValid(e);
      ResolvesTo(C, ApiClient.Method(e), segs, RouteOf(e));
    }
  }

  /** A block number the explorer's search lets through reaches the
      by-number handler, negative numbers included. */
  lemma SearchedBlockIsServed(query: string)
    requires BlockExplorer.DecideSearch(query).Fetch?
    ensures var e := ApiClient.BlockByNumber(BlockExplorer.DecideSearch(query).number);
      var d := Served(BackendApi.ROUTES, e);
      d.Handled? && BackendApi.ROUTES[d.route].handler == BackendApi.BlockByNumberHandler
  {
    EndpointServed(ApiClient.BlockByNumber(BlockExplorer.DecideSearch(query).number));
  }

  /** A hash the transaction search lets through reaches the transaction
      and receipt handlers. */
  lemma SearchedHashIsServed(query: string)
    requires TransactionList.DecideTxSearch(query).Lookup?
    ensures var h := TransactionList.DecideTxSearch(query).hash;
      && Served(BackendApi.ROUTES, ApiClient.Transaction(h)).Handled?
      && Served(BackendApi.ROUTES, ApiClient.TransactionReceipt(h)).Handled?
  {
    var h := TransactionList.DecideTxSearch(query).hash;
    TransactionList.LookupIffWellFormed(query);
    HashIsSegment(h);
    EndpointServed(ApiClient.Transaction(h));
    EndpointServed(ApiClient.TransactionReceipt(h));
  }

  /** A `0x`-prefixed hash reaches the server as one unchanged segment. */
  lemma HashIsSegment(h: string)
    requires Js.IsPrefixedHex(h, TransactionList.HASH_DIGITS)
    ensures IsSegment(h)
  {
    forall i | 0 <= i < |h|
      ensures !IsRewritten(h[i])
    {
      assert i < 2 || Js.IsHexDigit(h[i]);
    }
  }

  /** Every gas tick the backend pushes is a `gas_update` the dashboard
      accepts: it appends the tick's gwei price to the chart. */
  lemma GasTickReachesChart(history: seq<Dashboard.GasSample>, gasPriceWei: int, iso: string, now: int)
    ensures var env := BackendApi.GasTick(gasPriceWei, iso);
      var h := Dashboard.OnGasMessage(history, Dashboard.GasMessage(Js.Str(env.event), env.data.gasPriceGwei), now);
      |h| > 0 && h[|h| - 1] == Dashboard.GasSample(now, gasPriceWei as real / 1000000000.0)
  {
  }
}
