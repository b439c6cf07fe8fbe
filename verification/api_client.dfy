/** The gateway client shared by the front-end components: the base URL,
    the request every fetch helper issues, the WebSocket URLs and the two
    formatting helpers `formatWei` and `shortenAddress`. */
module ApiClient {
  import opened Wrappers
  import Js
  import JsNumber
  import Http

  const DEFAULT_API_URL := "http://localhost:8000"
  /** The default `count` of `fetchLatestBlocks` and `fetchLatestTransactions`. */
  const DEFAULT_COUNT := 10
  /** The default `chars` of `shortenAddress`. */
  const DEFAULT_SHORTEN_CHARS := 4

  /** `process.env.REACT_APP_API_URL || 'http://localhost:8000'`: an unset
      or empty variable falls back to the local default. */
  function ApiUrl(env: Option<string>): (r: string)
    ensures r != ""
    ensures env.Some? && env.value != "" ==> r == env.value
    ensures env.None? || env.value == "" ==> r == DEFAULT_API_URL
  {
    if env.Some? && env.value != "" then env.value else DEFAULT_API_URL
  }

  /** One request of the gateway client, by helper. */
  datatype Endpoint =
    | LatestBlock                              // fetchLatestBlock
    | LatestBlocks(count: int)                 // fetchLatestBlocks
    | BlockByNumber(number: int)               // fetchBlockByNumber
    | LatestTransactions(count: int)           // fetchLatestTransactions
    | Transaction(hash: string)                // fetchTransaction
    | TransactionReceipt(hash: string)         // fetchTransactionReceipt
    | AccountBalance(address: string)          // fetchAccountBalance
    | TokenBalance(token: string, wallet: string)  // fetchTokenBalance
    | ContractCall                             // callContract
    | Stats                                    // fetchBSCStats

  /** The HTTP method of each helper: only `callContract` posts. */
  function Method(e: Endpoint): Http.HttpMethod
  {
    if e.ContractCall? then Http.POST else Http.GET
  }

  /** The segments of each helper's path template, one per `/`-separated
      piece, with numbers interpolated as `String(n)` and strings
      verbatim. */
  function PathSegments(e: Endpoint): (r: seq<string>)
    ensures 2 <= |r| <= 5 && r[0] == "api"
  {
    match e
    case LatestBlock => ["api", "blocks", "latest"]
    case LatestBlocks(count) => ["api", "blocks", "latest", JsNumber.ShowInt(count)]
    case BlockByNumber(number) => ["api", "blocks", JsNumber.ShowInt(number)]
    case LatestTransactions(count) => ["api", "transactions", "latest", JsNumber.ShowInt(count)]
    case Transaction(hash) => ["api", "transactions", hash]
    case TransactionReceipt(hash) => ["api", "transactions", hash, "receipt"]
    case AccountBalance(address) => ["api", "accounts", address, "balance"]
    case TokenBalance(token, wallet) => ["api", "tokens", token, "balances", wallet]
    case ContractCall => ["api", "contracts", "call"]
    case Stats => ["api", "stats"]
  }

  /** A number interpolated into a path is one segment that `parseInt`
      reads back as that number. */
  lemma NumbersReadBack(e: Endpoint)
    ensures e.BlockByNumber? ==> |PathSegments(e)| == 3 && JsNumber.ParseInt(PathSegments(e)[2]) == Some(e.number)
    ensures e.LatestBlocks? || e.LatestTransactions? ==>
      |PathSegments(e)| == 4 && JsNumber.ParseInt(PathSegments(e)[3]) == Some(e.count)
  {
    var n := if e.BlockByNumber? then e.number else if e.LatestBlocks? || e.LatestTransactions? then e.count else 0;
    assert JsNumber.ShowInt(n) + "" == JsNumber.ShowInt(n);
    JsNumber.ParseIntShowInt(n, "");
  }

  /** The path of each helper: its template with the argument
      interpolated, that is its segments each preceded by `/`. */
  function Path(e: Endpoint): (r: string)
    ensures |r| > 5 && r[..5] == "/api/"
  {
    var segs := PathSegments(e);
    assert Http.Join(segs) == "/" + "api" + Http.Join(segs[1..]);
    Http.Join(segs)
  }

  /** `fetchLatestBlocks(count = 10)`. */
  function LatestBlocksRequest(count: Option<int>): (e: Endpoint)
    ensures e.LatestBlocks?
    ensures count.Some? ==> e.count == count.value
    ensures count.None? ==> Path(e) == "/api/blocks/latest/10"
  {
    assert JsNumber.NatDigits(10, 10) == "10" by {
      assert JsNumber.DigitChar(1) == '1' && JsNumber.DigitChar(0) == '0';
    }
    LatestBlocks(GetOr(count, DEFAULT_COUNT))
  }

  /** `fetchLatestTransactions(count = 10)`. */
  function LatestTransactionsRequest(count: Option<int>): (e: Endpoint)
    ensures e.LatestTransactions?
    ensures count.Some? ==> e.count == count.value
    ensures count.None? ==> Path(e) == "/api/transactions/latest/10"
  {
    assert JsNumber.NatDigits(10, 10) == "10" by {
      assert JsNumber.DigitChar(1) == '1' && JsNumber.DigitChar(0) == '0';
    }
    LatestTransactions(GetOr(count, DEFAULT_COUNT))
  }

  /** The URL of a WebSocket channel: `'ws://'` followed by the base URL
      with its first `'http://'` removed, then the channel path. */
  function SocketUrl(apiUrl: string, channel: string): (r: string)
    ensures |r| >= 5 + |channel| && r[..5] == "ws://" && r[|r| - |channel|..] == channel
    ensures (forall j :: !Js.OccursAt(apiUrl, "http://", j)) ==> r == "ws://" + apiUrl + channel
    ensures Js.OccursAt(apiUrl, "http://", 0) ==> r == "ws://" + apiUrl[7..] + channel
  {
    var m := Js.ReplaceFirst(apiUrl, "http://", "");
    var r := "ws://" + m + channel;
    assert r[..5] == "ws://" && r[|r| - |channel|..] == channel;
    assert Js.OccursAt(apiUrl, "http://", 0) ==> m == apiUrl[7..] by {
      if Js.OccursAt(apiUrl, "http://", 0) {
        assert apiUrl[..0] + "" + apiUrl[7..] == apiUrl[7..];
      }
    }
    r
  }

  /** An `http://` base URL becomes the same host under `ws://`. */
  lemma SocketUrlOfHttp(host: string, channel: string)
    ensures SocketUrl("http://" + host, channel) == "ws://" + host + channel
  {
    var s := "http://" + host;
    assert s[0..7] == "http://";
    assert Js.IndexOf(s, "http://", 0) == Some(0);
    assert s[7..] == host;
  }

  /** An `https://` base URL is kept whole, giving a `ws://https://…` URL:
      the replacement only ever removes `http://`. */
  lemma SocketUrlOfHttps(host: string, channel: string)
    requires forall j :: !Js.OccursAt(host, "http://", j)
    ensures SocketUrl("https://" + host, channel) == "ws://https://" + host + channel
  {
    HttpsHasNoHttp(host);
  }

  /** `http://` occurs in `https://` followed by a host only where it
      occurs in the host. */
  lemma HttpsHasNoHttp(host: string)
    requires forall j :: !Js.OccursAt(host, "http://", j)
    ensures forall j :: !Js.OccursAt("https://" + host, "http://", j)
  {
    var s := "https://" + host;
    var pat := "http://";
    forall j | 0 <= j
      ensures !Js.OccursAt(s, pat, j)
    {
      if j + |pat| <= |s| {
        if j >= 8 {
          assert s[j..j + |pat|] == host[j - 8..j - 8 + |pat|];
          assert !Js.OccursAt(host, pat, j - 8);
        } else if j == 0 {
          assert s[4] == 's' && pat[4] == ':' && s[j..j + |pat|][4] == s[4];
        } else {
          assert s[j..j + |pat|][0] == s[j] != 'h';
        }
      }
    }
  }

  /** `formatWei(wei)`: a falsy amount is shown as `'0'` before any
      arithmetic; otherwise the amount is scaled and rounded by `scale`,
      the floating-point division and `toFixed` this model leaves out. */
  function FormatWei(wei: Js.Value, scale: Js.Value -> string): (r: string)
    ensures !Js.Truthy(wei) ==> r == "0"
    ensures Js.Truthy(wei) ==> r == scale(wei)
  {
    if !Js.Truthy(wei) then "0" else scale(wei)
  }

  /** `shortenAddress(address, chars)`: `''` for a missing or empty address
      (`None` is `null`/`undefined`), otherwise the first `chars + 2`
      characters, `'...'` and the last `chars` characters, each clamped to
      the string as `substring` clamps. */
  function ShortenAddress(address: Option<string>, chars: int): (r: string)
    ensures address.None? || address.value == "" ==> r == ""
    ensures address.Some? && address.value != "" ==>
      var a := address.value;
      r == a[..Js.Clamp(chars + 2, |a|)] + "..." + a[Js.Clamp(|a| - chars, |a|)..]
  {
    match address
    case None => ""
    case Some(a) =>
      if a == "" then ""
      else
        assert Js.Substring(a, 0, chars + 2) == a[..Js.Clamp(chars + 2, |a|)];
        assert Js.Substring(a, |a| - chars, |a|) == a[Js.Clamp(|a| - chars, |a|)..];
        Js.Substring(a, 0, chars + 2) + "..." + Js.Substring(a, |a| - chars, |a|)
  }

  /** A 42-character `0x` address with the default width shows as
      `0x` + 4 hex digits + `...` + the last 4: 13 characters. */
  lemma ShortenStandardAddress(a: string)
    requires |a| == 42 && a[..2] == "0x"
    ensures var r := ShortenAddress(Some(a), DEFAULT_SHORTEN_CHARS);
      |r| == 13 && r[..2] == "0x" && r == a[..6] + "..." + a[38..]
  {
  }
}
