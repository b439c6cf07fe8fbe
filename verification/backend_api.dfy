/** The backend gateway: the HTTP route table and how a request is
    dispatched to it, the mapping of service failures to status 500, the
    new-block and gas push channels, and the registry of open sockets. */
module BackendApi {
  import opened Wrappers
  import Http
  import JsNumber
  import BlockchainService

  // ---------------------------------------------------------------------
  // Routes and dispatch

  /** One segment of a route path: a literal, or a `{name}` parameter
      whose value is validated as an `int` or taken as a `str`. */
  datatype Pattern = Lit(text: string) | IntParam | StrParam

  /** The handlers behind the HTTP routes. */
  datatype Handler =
    | LatestBlockHandler | LatestBlocksHandler | BlockByNumberHandler
    | TransactionHandler | ReceiptHandler | AccountBalanceHandler | TokenBalanceHandler
    | ContractCallHandler | StatsHandler | HealthHandler
    | LatestTransactionsHandler  // the latest-transactions listing; no route of `ROUTES` leads to it

  datatype Route = Route(verb: Http.HttpMethod, patterns: seq<Pattern>, handler: Handler)

  /** The HTTP routes the gateway declares, in declaration order. The
      documentation pages the framework adds on its own are not among them. */
  const ROUTES: seq<Route> := [
    Route(Http.GET, [Lit("api"), Lit("blocks"), Lit("latest")], LatestBlockHandler),
    Route(Http.GET, [Lit("api"), Lit("blocks"), Lit("latest"), IntParam], LatestBlocksHandler),
    Route(Http.GET, [Lit("api"), Lit("blocks"), IntParam], BlockByNumberHandler),
    Route(Http.GET, [Lit("api"), Lit("transactions"), StrParam], TransactionHandler),
    Route(Http.GET, [Lit("api"), Lit("transactions"), StrParam, Lit("receipt")], ReceiptHandler),
    Route(Http.GET, [Lit("api"), Lit("accounts"), StrParam, Lit("balance")], AccountBalanceHandler),
    Route(Http.GET, [Lit("api"), Lit("tokens"), StrParam, Lit("balances"), StrParam], TokenBalanceHandler),
    Route(Http.POST, [Lit("api"), Lit("contracts"), Lit("call")], ContractCallHandler),
    Route(Http.GET, [Lit("api"), Lit("stats")], StatsHandler),
    Route(Http.GET, [Lit("health")], HealthHandler)
  ]

  /** A parameter matches any non-empty segment (`[^/]+`); a literal only
      itself. */
  predicate SegmentMatches(p: Pattern, segment: string)
  {
    match p
    case Lit(text) => segment == text
    case IntParam => segment != ""
    case StrParam => segment != ""
  }

  /** The route's path matches the request path, whatever the verb. */
  predicate PathMatches(r: Route, segments: seq<string>)
  {
    |r.patterns| == |segments| && forall i :: 0 <= i < |segments| ==> SegmentMatches(r.patterns[i], segments[i])
  }

  /** An optional `-` followed by decimal digits: the integer spelling
      the path parameters accept in this model. */
  predicate IsIntLiteral(s: string)
  {
    if |s| > 0 && s[0] == '-' then IsDigits(s[1..]) else IsDigits(s)
  }

  /** One or more decimal digits. */
  predicate IsDigits(s: string)
  {
    |s| > 0 && forall i :: 0 <= i < |s| ==> JsNumber.IsDigit(s[i], 10)
  }

  /** Every integer parameter of a matched route holds an integer. */
  predicate ParamsValid(r: Route, segments: seq<string>)
    requires PathMatches(r, segments)
  {
    forall i :: 0 <= i < |segments| && r.patterns[i] == IntParam ==> IsIntLiteral(segments[i])
  }

  /** Where a request ends up: a handler, a 422 for an integer parameter
      that does not validate, a 405 when only another method's route has
      the path, a 307 redirect when only the path with its trailing slash
      added or removed has a route, a 404 otherwise. */
  datatype Routing = Handled(route: nat) | Unprocessable(route: nat) | MethodNotAllowed | Redirect | NotFound

  /** The segments of the root path `/`, which is never redirected. */
  const ROOT_SEGMENTS: seq<string> := [""]

  /** `segments` without its trailing empty segments: the path with every
      trailing `/` stripped. */
  function StripEmptyTail(segments: seq<string>): (r: seq<string>)
    ensures |r| <= |segments| && r == segments[..|r|]
    ensures r == [] || r[|r| - 1] != ""
    ensures forall i :: |r| <= i < |segments| ==> segments[i] == ""
  {
    if segments != [] && segments[|segments| - 1] == "" then StripEmptyTail(segments[..|segments| - 1])
    else segments
  }

  /** The path the router tries before answering 404: a path ending in `/`
      loses its trailing slashes, any other path gains one. */
  function SlashToggled(segments: seq<string>): (r: seq<string>)
    ensures segments != [] && segments[|segments| - 1] == "" ==> |r| < |segments| && r == segments[..|r|]
    ensures !(segments != [] && segments[|segments| - 1] == "") ==> r == segments + [""]
  {
    if segments != [] && segments[|segments| - 1] == "" then StripEmptyTail(segments) else segments + [""]
  }

  /** Some route, of any method, has the path. */
  predicate AnyPathMatches(routes: seq<Route>, segments: seq<string>)
  {
    exists j :: 0 <= j < |routes| && PathMatches(routes[j], segments)
  }

  /** The first route at or after `from` whose path and method match. */
  function FirstMatch(routes: seq<Route>, verb: Http.HttpMethod, segments: seq<string>, from: nat): (r: Option<nat>)
    requires from <= |routes|
    ensures r.Some? ==>
      from <= r.value < |routes| && routes[r.value].verb == verb && PathMatches(routes[r.value], segments)
    ensures r.Some? ==> forall j :: from <= j < r.value ==>
      !(routes[j].verb == verb && PathMatches(routes[j], segments))
    ensures r.None? ==> forall j :: from <= j < |routes| ==>
      !(routes[j].verb == verb && PathMatches(routes[j], segments))
    decreases |routes| - from
  {
    if from == |routes| then None
    else if routes[from].verb == verb && PathMatches(routes[from], segments) then Some(from)
    else FirstMatch(routes, verb, segments, from + 1)
  }

  /** Routing: the first route matching path and method wins, and its
      integer parameters are validated only after it has been chosen.
      Failing that, a route with the path but another method gives 405,
      and then a route with the slash-toggled path gives a redirect. */
  function Resolve(routes: seq<Route>, verb: Http.HttpMethod, segments: seq<string>): (d: Routing)
    ensures d.Handled? || d.Unprocessable? ==>
      d.route < |routes| && routes[d.route].verb == verb && PathMatches(routes[d.route], segments)
      && (forall j :: 0 <= j < d.route ==> !(routes[j].verb == verb && PathMatches(routes[j], segments)))
      && (d.Handled? <==> ParamsValid(routes[d.route], segments))
    ensures d == MethodNotAllowed <==> !(d.Handled? || d.Unprocessable?) && AnyPathMatches(routes, segments)
    ensures d == Redirect <==>
      !AnyPathMatches(routes, segments) && segments != ROOT_SEGMENTS && AnyPathMatches(routes, SlashToggled(segments))
    ensures d == NotFound <==>
      !AnyPathMatches(routes, segments) && (segments == ROOT_SEGMENTS || !AnyPathMatches(routes, SlashToggled(segments)))
    ensures d.Handled? || d.Unprocessable? <==>
      exists j :: 0 <= j < |routes| && routes[j].verb == verb && PathMatches(routes[j], segments)
  {
    match FirstMatch(routes, verb, segments, 0)
    case Some(i) => if ParamsValid(routes[i], segments) then Handled(i) else Unprocessable(i)
    case None =>
      if AnyPathMatches(routes, segments) then MethodNotAllowed
      else if segments != ROOT_SEGMENTS && AnyPathMatches(routes, SlashToggled(segments)) then Redirect
      else NotFound
  }

  /** The status of a routing outcome that reaches no handler. */
  function RoutingStatus(d: Routing): (status: nat)
    requires !d.Handled?
  {
    match d
    case Unprocessable(_) => 422
    case MethodNotAllowed => 405
    case Redirect => 307
    case NotFound => 404
  }

  /** `/api/blocks/latest` reaches the latest-block route and not the
      by-number route declared after it, whose `int` parameter would
      refuse `latest`. */
  lemma LatestIsNotABlockNumber()
    ensures Resolve(ROUTES, Http.GET, ["api", "blocks", "latest"]) == Handled(0)
    ensures PathMatches(ROUTES[2], ["api", "blocks", "latest"])
      && !ParamsValid(ROUTES[2], ["api", "blocks", "latest"])
  {
    var segs := ["api", "blocks", "latest"];
    var r0 := ROUTES[0];
    var r2 := ROUTES[2];
    assert r0 == Route(Http.GET, [Lit("api"), Lit("blocks"), Lit("latest")], LatestBlockHandler);
    assert PathMatches(r0, segs);
    assert FirstMatch(ROUTES, Http.GET, segs, 0) == Some(0);
    assert forall i :: 0 <= i < 3 ==> r0.patterns[i] != IntParam;
    assert ParamsValid(r0, segs);
    assert r2 == Route(Http.GET, [Lit("api"), Lit("blocks"), IntParam], BlockByNumberHandler);
    assert PathMatches(r2, segs);
    var latest := segs[2];
    assert latest[0] == 'l';
    assert !JsNumber.IsDigit(latest[0], 10);
    assert !IsDigits(latest);
    assert !IsIntLiteral(latest);
    assert r2.patterns[2] == IntParam;
  }

  /** `/api/stats/` has no route of its own, but without its trailing
      slash it is the statistics route: the router answers a redirect. */
  lemma TrailingSlashRedirects()
    ensures Resolve(ROUTES, Http.GET, ["api", "stats", ""]) == Redirect
    ensures RoutingStatus(Resolve(ROUTES, Http.GET, ["api", "stats", ""])) == 307
  {
    var segs := ["api", "stats", ""];
    var R := ROUTES;
    assert !SegmentMatches(R[2].patterns[2], segs[2]);
    assert !SegmentMatches(R[3].patterns[2], segs[2]);
    assert segs[1] != "blocks" && segs[1] != "transactions";
    assert !SegmentMatches(R[0].patterns[1], segs[1]);
    assert !SegmentMatches(R[7].patterns[1], segs[1]);
    assert forall j :: 0 <= j < |R| && j != 0 && j != 2 && j != 3 && j != 7 ==> |R[j].patterns| != |segs|;
    assert !AnyPathMatches(R, segs);
    assert StripEmptyTail(segs) == ["api", "stats"];
    assert PathMatches(R[8], ["api", "stats"]);
  }

  // ---------------------------------------------------------------------
  // Handler responses

  /** An HTTP response: the body on success, the `detail` on failure. */
  datatype Response<T> = Response(status: nat, body: Option<T>, detail: Option<string>)

  /** The `try`/`except Exception` around every service call: any failure
      becomes status 500 whose detail is the exception's text. */
  function Guard<T>(outcome: Result<T, string>): (r: Response<T>)
    ensures r.status == 200 <==> outcome.Ok?
    ensures r.status == 500 <==> outcome.Err?
    ensures outcome.Ok? ==> r.body == Some(outcome.value) && r.detail.None?
    ensures outcome.Err? ==> r.body.None? && r.detail == Some(outcome.error)
  {
    match outcome
    case Ok(v) => Response(200, Some(v), None)
    case Err(e) => Response(500, None, Some(e))
  }

  /** The statistics body: the service's statistics and the time of the
      request (ISO text). */
  datatype StatsBody = StatsBody(stats: BlockchainService.Stats, timestamp: string)

  /** `GET /api/stats`. */
  function StatsRoute(latest: BlockchainService.Block, gasPriceWei: int, window: seq<BlockchainService.Block>,
                      now: string): (r: Response<StatsBody>)
    ensures r.status == 500 <==> BlockchainService.BscStats(latest, gasPriceWei, window).Err?
    ensures r.status == 200 ==>
      && r.body.Some?
      && r.body.value.stats == BlockchainService.BscStats(latest, gasPriceWei, window).value
      && r.body.value.timestamp == now
  {
    Guard(match BlockchainService.BscStats(latest, gasPriceWei, window)
          case Ok(s) => Ok(StatsBody(s, now))
          case Err(e) => Err(e))
  }

  /** When the window is read at block 0 the statistics route answers
      500 with Python's division message, whatever the first read of the
      newest block returned. */
  lemma StatsAtGenesisIs500(latest: BlockchainService.Block, gasPriceWei: int,
                            window: seq<BlockchainService.Block>, now: string)
    requires |window| == BlockchainService.WindowLength(BlockchainService.STATS_WINDOW, 0)
    ensures StatsRoute(latest, gasPriceWei, window, now) == Response(500, None, Some("division by zero"))
  {
  }

  // ---------------------------------------------------------------------
  // Push channels

  /** The new-block message `{event: 'new_block', data: block}`. */
  datatype BlockEnvelope = BlockEnvelope(event: string, data: BlockchainService.Block)

  /** The state of one `/ws/blocks` session: the last number sent,
      starting at 0. */
  datatype BlockSocket = BlockSocket(lastBlockNumber: int)

  const FRESH_BLOCK_SOCKET: BlockSocket := BlockSocket(0)

  /** One 3-second poll: a block newer than the last one sent is sent and
      remembered; anything else sends nothing and changes nothing. */
  function Poll(s: BlockSocket, latest: BlockchainService.Block): (r: (BlockSocket, Option<BlockEnvelope>))
    ensures latest.number > s.lastBlockNumber ==>
      r == (BlockSocket(latest.number), Some(BlockEnvelope("new_block", latest)))
    ensures latest.number <= s.lastBlockNumber ==> r == (s, None)
  {
    if latest.number > s.lastBlockNumber then (BlockSocket(latest.number), Some(BlockEnvelope("new_block", latest)))
    else (s, None)
  }

  /** A session after a run of polls: the socket state and the messages
      sent, oldest first. */
  function Session(polls: seq<BlockchainService.Block>): (BlockSocket, seq<BlockEnvelope>)
  {
    if polls == [] then (FRESH_BLOCK_SOCKET, [])
    else
      var (s, sent) := Session(polls[..|polls| - 1]);
      var (s2, m) := Poll(s, polls[|polls| - 1]);
      (s2, sent + (if m.Some? then [m.value] else []))
  }

  /** The largest block number polled, or 0. */
  function HighWater(polls: seq<BlockchainService.Block>): (h: int)
    ensures h >= 0
    ensures forall i :: 0 <= i < |polls| ==> polls[i].number <= h
    ensures h == 0 || exists i :: 0 <= i < |polls| && polls[i].number == h
  {
    if polls == [] then 0
    else
      var h := HighWater(polls[..|polls| - 1]);
      var n := polls[|polls| - 1].number;
      assert forall i :: 0 <= i < |polls| - 1 ==> polls[i] == polls[..|polls| - 1][i];
      if n > h then n else h
  }

  /** The session remembers the highest number polled (or 0), every
      message is a `new_block` for a block above 0, and the numbers sent
      strictly increase. */
  lemma {:induction false} SessionSendsIncreasingBlocks(polls: seq<BlockchainService.Block>)
    ensures Session(polls).0.lastBlockNumber == HighWater(polls)
    ensures var sent := Session(polls).1;
      && (forall i :: 0 <= i < |sent| ==> sent[i].event == "new_block" && sent[i].data.number > 0)
      && (forall i, j :: 0 <= i < j < |sent| ==> sent[i].data.number < sent[j].data.number)
      && (forall i :: 0 <= i < |sent| ==> sent[i].data.number <= HighWater(polls))
  {
    if polls != [] {
      var init := polls[..|polls| - 1];
      SessionSendsIncreasingBlocks(init);
    }
  }

  /** A poll sends exactly when its block beats every earlier poll and
      block 0; in particular block 0 is never sent. */
  lemma SendsExactlyNewHighs(polls: seq<BlockchainService.Block>, b: BlockchainService.Block)
    ensures |Session(polls + [b]).1| == |Session(polls).1| + (if b.number > HighWater(polls) then 1 else 0)
    ensures b.number == 0 ==> Session(polls + [b]).1 == Session(polls).1
  {
    var all := polls + [b];
    assert all[..|all| - 1] == polls;
    SessionSendsIncreasingBlocks(polls);
  }

  /** The gas message `{event: 'gas_update', data: {...}}`. */
  datatype GasData = GasData(gasPriceWei: int, gasPriceGwei: real, timestamp: string)
  datatype GasEnvelope = GasEnvelope(event: string, data: GasData)

  /** One 10-second tick of `/ws/gas`: always a `gas_update`, the price in
      wei and in gwei, and the time. */
  function GasTick(gasPriceWei: int, now: string): (r: GasEnvelope)
    ensures r.event == "gas_update"
    ensures r.data.gasPriceWei == gasPriceWei && r.data.timestamp == now
    ensures r.data.gasPriceGwei * 1000000000.0 == gasPriceWei as real
  {
    GasEnvelope("gas_update", GasData(gasPriceWei, gasPriceWei as real / 1000000000.0, now))
  }

  // ---------------------------------------------------------------------
  // Connection registry

  /** The open sockets, in the order they connected. */
  datatype Registry<C> = Registry(active: seq<C>)

  /** `connect`: the socket is appended after accepting it. */
  function Connect<C>(reg: Registry<C>, c: C): (r: Registry<C>)
    ensures |r.active| == |reg.active| + 1 && r.active[..|reg.active|] == reg.active
    ensures r.active[|reg.active|] == c
  {
    Registry(reg.active + [c])
  }

  /** The index of the first occurrence of `c`. */
  function FirstIndex<C(==)>(s: seq<C>, c: C): (r: Option<nat>)
    ensures r.Some? ==> r.value < |s| && s[r.value] == c && forall j :: 0 <= j < r.value ==> s[j] != c
    ensures r.None? <==> c !in s
  {
    if s == [] then None
    else if s[0] == c then Some(0)
    else match FirstIndex(s[1..], c)
      case None => None
      case Some(i) => Some(i + 1)
  }

  /** `disconnect`: `list.remove` drops the first equal socket and raises
      `ValueError` when there is none. */
  function Disconnect<C(==)>(reg: Registry<C>, c: C): (r: Result<Registry<C>, string>)
    ensures r.Err? <==> c !in reg.active
    ensures r.Ok? ==>
      exists i :: && 0 <= i < |reg.active| && reg.active[i] == c
                  && (forall j :: 0 <= j < i ==> reg.active[j] != c)
                  && r.value.active == reg.active[..i] + reg.active[i + 1..]
    ensures r.Ok? ==> multiset(r.value.active) == multiset(reg.active) - multiset{c}
  {
    match FirstIndex(reg.active, c)
    case None => Err("list.remove(x): x not in list")
    case Some(i) =>
      assert reg.active == reg.active[..i] + [c] + reg.active[i + 1..];
      Ok(Registry(reg.active[..i] + reg.active[i + 1..]))
  }

  /** Connecting a new socket and disconnecting it gives back the
      registry there was. */
  lemma ConnectThenDisconnect<C>(reg: Registry<C>, c: C)
    requires c !in reg.active
    ensures Disconnect(Connect(reg, c), c) == Ok(reg)
  {
    var s := reg.active + [c];
    assert FirstIndex(s, c) == Some(|reg.active|) by {
      assert forall j :: 0 <= j < |reg.active| ==> s[j] == reg.active[j] && s[j] != c;
    }
    assert s[..|reg.active|] + s[|reg.active| + 1..] == reg.active;
  }

  /** How a session's loop ends: the client hung up, or something else
      raised (the service, a send). */
  datatype SessionEnd = ClientDisconnected | OtherFailure(message: string)

  /** Only a client hang-up unregisters the socket; any other exception
      leaves it in the registry. */
  function EndSession<C(==)>(reg: Registry<C>, c: C, how: SessionEnd): (r: Result<Registry<C>, string>)
    ensures how.OtherFailure? ==> r == Ok(reg)
    ensures how.ClientDisconnected? ==> r == Disconnect(reg, c)
  {
    match how
    case ClientDisconnected => Disconnect(reg, c)
    case OtherFailure(_) => Ok(reg)
  }

  /** A session that ends in a service failure stays registered. */
  lemma FailedSessionStaysRegistered<C>(reg: Registry<C>, c: C, message: string)
    ensures var r := EndSession(Connect(reg, c), c, OtherFailure(message));
      r.Ok? && c in r.value.active
  {
    assert Connect(reg, c).active[|reg.active|] == c;
  }
}
