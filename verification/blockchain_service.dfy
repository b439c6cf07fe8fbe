/** The backend chain service: block and transaction memoisation, the
    descending window of latest blocks, the network statistics with their
    average block time, and the process-wide service instance. The node
    is reached through oracle functions. */
module BlockchainService {
  import opened Wrappers

  /** The node the service talks to by default, and its chain id. */
  const DEFAULT_PROVIDER_URL: string := "https://bsc-dataseed.binance.org/"
  const DEFAULT_CHAIN_ID: int := 56
  /** Blocks averaged over by the statistics, and the default window. */
  const STATS_WINDOW: int := 10
  const DEFAULT_COUNT: int := 10

  /** The fields of a block the service reads. */
  datatype Block = Block(number: int, timestamp: int, transactionCount: nat)

  // ---------------------------------------------------------------------
  // Memoisation

  /** The value for `k`: the cached one if there is one, else the node's. */
  function Lookup<K, V>(cache: map<K, V>, k: K, fetch: K -> V): V
  {
    if k in cache then cache[k] else fetch(k)
  }

  /** A memoised read: a hit returns the cached value and asks the node
      nothing; a miss asks the node and stores the answer under `k`. */
  function Memo<K, V>(cache: map<K, V>, k: K, fetch: K -> V): (r: (V, map<K, V>))
    ensures k in cache ==> r == (cache[k], cache)
    ensures k !in cache ==> r.0 == fetch(k)
    ensures r.1.Keys == cache.Keys + {k} && r.1[k] == r.0
    ensures forall j :: j in cache ==> r.1[j] == cache[j]
  {
    if k in cache then (cache[k], cache) else (fetch(k), cache[k := fetch(k)])
  }

  /** Asking twice gives the same answer even if the node has changed its
      mind, and the second read leaves the cache as the first left it. */
  lemma MemoIsStable<K, V>(cache: map<K, V>, k: K, fetch1: K -> V, fetch2: K -> V)
    ensures var (v1, c1) := Memo(cache, k, fetch1);
      Memo(c1, k, fetch2) == (v1, c1)
  {
  }

  datatype Service<T> = Service(blocks: map<int, Block>, transactions: map<string, T>)

  /** `get_block_by_number`, keyed by the number asked for. */
  function GetBlockByNumber<T>(svc: Service<T>, n: int, fetch: int -> Block): (r: (Block, Service<T>))
    ensures r.0 == Lookup(svc.blocks, n, fetch)
    ensures r.1 == svc.(blocks := Memo(svc.blocks, n, fetch).1)
  {
    var (b, c) := Memo(svc.blocks, n, fetch);
    (b, svc.(blocks := c))
  }

  /** `get_latest_block`: always the node's newest block, which overwrites
      the cache entry at its own number. */
  function GetLatestBlock<T>(svc: Service<T>, latest: Block): (r: (Block, Service<T>))
    ensures r.0 == latest && r.1.blocks == svc.blocks[latest.number := latest]
    ensures r.1.transactions == svc.transactions
  {
    (latest, svc.(blocks := svc.blocks[latest.number := latest]))
  }

  /** `get_transaction`, memoised by hash. */
  function GetTransaction<T>(svc: Service<T>, hash: string, fetch: string -> T): (r: (T, Service<T>))
    ensures r.0 == Lookup(svc.transactions, hash, fetch)
    ensures r.1 == svc.(transactions := Memo(svc.transactions, hash, fetch).1)
  {
    var (t, c) := Memo(svc.transactions, hash, fetch);
    (t, svc.(transactions := c))
  }

  /** `get_transaction_receipt`: always asks the node, caches nothing. */
  function GetTransactionReceipt<T, R>(svc: Service<T>, hash: string, wait: string -> R): (r: (R, Service<T>))
    ensures r.1 == svc
    ensures r.0 == wait(hash)
  {
    (wait(hash), svc)
  }

  /** A transaction once read is served from the cache for good, while a
      receipt is asked for every time. */
  lemma TransactionCachedReceiptNot<T, R>(svc: Service<T>, hash: string, fetch1: string -> T,
                                         fetch2: string -> T, wait1: string -> R, wait2: string -> R)
    ensures var (t1, s1) := GetTransaction(svc, hash, fetch1);
      var (r1, s2) := GetTransactionReceipt(s1, hash, wait1);
      var (t2, s3) := GetTransaction(s2, hash, fetch2);
      var (r2, _) := GetTransactionReceipt(s3, hash, wait2);
      t2 == t1 && r1 == wait1(hash) && r2 == wait2(hash)
  {
  }

  // ---------------------------------------------------------------------
  // The latest-blocks window

  /** How many blocks `get_latest_blocks(count)` returns below `top`:
      `range(count)` stops at `count`, the loop breaks below block 0. */
  function WindowLength(count: int, top: int): (n: nat)
    ensures count <= 0 || top < 0 ==> n == 0
    ensures count > 0 && top >= 0 ==> n == if count <= top + 1 then count else top + 1
  {
    if count <= 0 || top < 0 then 0
    else if count <= top + 1 then count else top + 1
  }

  /** `get_latest_blocks(count)`: the newest block, then blocks
      `latest - 1`, `latest - 2`, ... each through the block cache, for
      `count` blocks or down to block 0. */
  method GetLatestBlocks<T>(svc: Service<T>, count: int, latest: Block, fetch: int -> Block)
    returns (blocks: seq<Block>, after: Service<T>)
    ensures |blocks| == WindowLength(count, latest.number)
    ensures forall i :: 0 <= i < |blocks| ==>
      blocks[i] == Lookup(svc.blocks[latest.number := latest], latest.number - i, fetch)
    ensures after.transactions == svc.transactions
    ensures forall n :: n in after.blocks <==>
      n in svc.blocks || n == latest.number || latest.number - |blocks| < n <= latest.number
    ensures latest.number in after.blocks && after.blocks[latest.number] == latest
    ensures forall n :: n in svc.blocks && n != latest.number ==> after.blocks[n] == svc.blocks[n]
    ensures forall n :: n in after.blocks && n !in svc.blocks && n != latest.number ==> after.blocks[n] == fetch(n)
  {
    var s := svc.(blocks := svc.blocks[latest.number := latest]);
    var start := s.blocks;
    blocks := [];
    var i := 0;
    while i < count
      invariant 0 <= i && |blocks| == i
      invariant i <= WindowLength(count, latest.number)
      invariant forall k :: 0 <= k < i ==> blocks[k] == Lookup(start, latest.number - k, fetch)
      invariant s.transactions == svc.transactions
      invariant forall n :: n in s.blocks <==> n in start || latest.number - i < n <= latest.number
      invariant forall n :: n in start ==> n in s.blocks && s.blocks[n] == start[n]
      invariant forall n :: n in s.blocks && n !in start ==> s.blocks[n] == fetch(n)
      invariant i < WindowLength(count, latest.number) ==> i < count && latest.number - i >= 0
      decreases count - i
    {
      var number := latest.number - i;
      if number < 0 {
        break;
      }
      var step := GetBlockByNumber(s, number, fetch);
      blocks := blocks + [step.0];
      s := step.1;
      i := i + 1;
    }
    assert latest.number in start;
    after := s;
  }

  /** A chain whose node answers each number with that block, and whose
      cache holds only such answers. */
  ghost predicate Honest(cache: map<int, Block>, fetch: int -> Block)
  {
    (forall n :: n in cache ==> cache[n].number == n) && (forall n :: fetch(n).number == n)
  }

  /** On an honest chain the window is the consecutive descending run
      `latest, latest - 1, ...` and holds no negative block number. */
  lemma WindowIsDescending(cache: map<int, Block>, latest: Block, fetch: int -> Block, count: int, i: int)
    requires Honest(cache, fetch)
    requires 0 <= i < WindowLength(count, latest.number)
    ensures Lookup(cache[latest.number := latest], latest.number - i, fetch).number == latest.number - i
    ensures latest.number - i >= 0
  {
  }

  // ---------------------------------------------------------------------
  // Statistics

  /** `sum(ts[i] - ts[i + 1] for i in range(len(ts) - 1))`. */
  function SumOfGaps(ts: seq<int>): int
  {
    if |ts| <= 1 then 0 else (ts[0] - ts[1]) + SumOfGaps(ts[1..])
  }

  /** The sum of consecutive gaps telescopes to first minus last. */
  lemma {:induction false} GapsTelescope(ts: seq<int>)
    requires |ts| >= 1
    ensures SumOfGaps(ts) == ts[0] - ts[|ts| - 1]
  {
    if |ts| > 1 {
      GapsTelescope(ts[1..]);
    }
  }

  /** The average block time as the exact quotient the service divides:
      `numerator / divisor` seconds. */
  datatype Ratio = Ratio(numerator: int, divisor: int)

  /** `avg_block_time`: Python raises when the divisor `len - 1` is zero,
      that is when the window holds a single block. An empty window
      divides `0` by `-1`. */
  function AvgBlockTime(blocks: seq<Block>): (r: Result<Ratio, string>)
    ensures r.Err? <==> |blocks| == 1
    ensures r.Ok? ==> r.value.divisor == |blocks| - 1 && r.value.divisor != 0
    ensures r.Ok? && |blocks| >= 2 ==> r.value.numerator == blocks[0].timestamp - blocks[|blocks| - 1].timestamp
    ensures r.Ok? && |blocks| == 0 ==> r.value.numerator == 0
  {
    var ts := seq(|blocks|, i requires 0 <= i < |blocks| => blocks[i].timestamp);
    if |ts| - 1 == 0 then Err("division by zero")
    else
      assert |ts| >= 2 ==> SumOfGaps(ts) == ts[0] - ts[|ts| - 1] by {
        if |ts| >= 2 {
          GapsTelescope(ts);
        }
      }
      Ok(Ratio(SumOfGaps(ts), |ts| - 1))
  }

  /** The dictionary `get_bsc_stats` returns. */
  datatype Stats = Stats(latestBlockNumber: int, latestBlockTimestamp: int, latestBlockTxCount: nat,
                         gasPriceGwei: real, avgBlockTime: Ratio)

  /** `get_bsc_stats` given the newest block, the gas price in wei and the
      10-block window. The window comes from `get_latest_blocks`, which
      reads the newest block a second time, so it may start above
      `latest` when the chain has moved in between. The statistics fail
      exactly when the average has no gaps. */
  function BscStats(latest: Block, gasPriceWei: int, window: seq<Block>): (r: Result<Stats, string>)
    ensures r.Err? <==> |window| == 1
    ensures r.Ok? ==>
      && r.value.latestBlockNumber == latest.number
      && r.value.latestBlockTimestamp == latest.timestamp
      && r.value.latestBlockTxCount == latest.transactionCount
      && r.value.gasPriceGwei * 1000000000.0 == gasPriceWei as real
      && r.value.avgBlockTime == AvgBlockTime(window).value
  {
    match AvgBlockTime(window)
    case Err(e) => Err(e)
    case Ok(avg) =>
      Ok(Stats(latest.number, latest.timestamp, latest.transactionCount,
               gasPriceWei as real / 1000000000.0, avg))
  }

  /** With the 10-block window read below block `top` (the newest number
      the second read saw), the statistics fail only when that block is
      block 0, whatever the first read returned; on a chain with
      increasing timestamps the average is positive. */
  lemma StatsFailOnlyAtGenesis(latest: Block, gasPriceWei: int, top: int, window: seq<Block>)
    requires top >= 0 && |window| == WindowLength(STATS_WINDOW, top)
    ensures BscStats(latest, gasPriceWei, window).Err? <==> top == 0
    ensures top > 0 && window[0].timestamp > window[|window| - 1].timestamp ==>
      var avg := BscStats(latest, gasPriceWei, window).value.avgBlockTime;
      avg.numerator > 0 && avg.divisor > 0
  {
  }

  // ---------------------------------------------------------------------
  // Contract calls and the shared instance

  /** The request `call_contract` forwards: a missing argument list is
      sent as the empty one. */
  datatype CallRequest<A, X> = CallRequest(address: string, abi: X, functionName: string, args: seq<A>)

  function CallContract<A, X>(address: string, abi: X, functionName: string, args: Option<seq<A>>): (r: CallRequest<A, X>)
    ensures args.None? ==> r.args == []
    ensures args.Some? ==> r.args == args.value
    ensures r.address == address && r.functionName == functionName && r.abi == abi
  {
    CallRequest(address, abi, functionName, if args.None? then [] else args.value)
  }

  /** The settings the one service instance was built with. */
  datatype Config = Config(providerUrl: string, chainId: int)

  /** `get_bsc_service(url, chain_id)` against the module-level slot: the
      first call builds the instance from its arguments, every later call
      returns that instance and ignores its own. */
  function GetBscService(slot: Option<Config>, providerUrl: string, chainId: int): (r: (Config, Option<Config>))
    ensures r.1 == Some(r.0)
    ensures slot.Some? ==> r.0 == slot.value
    ensures slot.None? ==> r.0 == Config(providerUrl, chainId)
  {
    match slot
    case Some(c) => (c, slot)
    case None => (Config(providerUrl, chainId), Some(Config(providerUrl, chainId)))
  }

  /** Whatever the arguments of later calls, every caller gets the
      instance the first call built; with no arguments that is the
      mainnet default. */
  lemma ServiceIsSingleton(calls: seq<Config>)
    requires |calls| >= 1
    ensures var first := GetBscService(None, calls[0].providerUrl, calls[0].chainId);
      forall i :: 1 <= i < |calls| ==>
        GetBscService(first.1, calls[i].providerUrl, calls[i].chainId) == (calls[0], Some(calls[0]))
    ensures GetBscService(None, DEFAULT_PROVIDER_URL, DEFAULT_CHAIN_ID).0 == Config(DEFAULT_PROVIDER_URL, 56)
  {
  }
}
