/** The transaction page: hash search validated against the
    transaction-hash pattern, a lookup that fetches the transaction and
    then its receipt, and the status, kind and input shown for them. */
module TransactionList {
  import opened Wrappers
  import Js

  /** How many transactions the list asks for. */
  const LIST_COUNT: nat := 20
  /** Hex digits in a transaction hash. */
  const HASH_DIGITS: nat := 64
  /** Longest input shown before it is cut with an ellipsis. */
  const INPUT_SHOWN: nat := 66

  /** What the search box does with its text. */
  datatype TxSearch = Blank | Malformed | Lookup(hash: string)

  /** `handleSearch`'s validation: blank text is refused, then the trimmed
      text must match `^0x[A-Fa-f0-9]{64}$`; the lookup uses the trimmed
      text. */
  function DecideTxSearch(query: string): (d: TxSearch)
    ensures d == Blank <==> Js.IsBlank(query)
    ensures d == Malformed <==> !Js.IsBlank(query) && !Js.IsPrefixedHex(Js.Trim(query), HASH_DIGITS)
    ensures d.Lookup? ==> d.hash == Js.Trim(query)
  {
    if Js.IsBlank(query) then Blank
    else if Js.IsPrefixedHex(Js.Trim(query), HASH_DIGITS) then Lookup(Js.Trim(query))
    else Malformed
  }

  /** Every hash that reaches the backend is `0x` and 64 hex digits, and
      every such hash is looked up as typed. */
  lemma LookupIffWellFormed(query: string)
    ensures DecideTxSearch(query).Lookup? ==> Js.IsPrefixedHex(DecideTxSearch(query).hash, HASH_DIGITS)
    ensures Js.IsPrefixedHex(query, HASH_DIGITS) ==> DecideTxSearch(query) == Lookup(query)
  {
    if Js.IsPrefixedHex(query, HASH_DIGITS) {
      Js.PrefixedHexIsTrimmed(query, HASH_DIGITS);
    }
  }

  /** The pattern has no `i` flag: an upper-case `0X` prefix is refused. */
  lemma UpperCasePrefixRefused(query: string)
    requires !Js.IsBlank(query) && |Js.Trim(query)| > 1 && Js.Trim(query)[1] == 'X'
    ensures DecideTxSearch(query) == Malformed
  {
  }

  /** A transaction as the page reads it: `to` and `input` as JavaScript
      values, since either may be missing or `null`. */
  datatype Tx<T> = Tx(hash: string, to: Js.Value, input: Js.Value, rest: T)

  /** A receipt as the page reads it. */
  datatype Receipt<R> = Receipt(transactionHash: string, status: Js.Value, rest: R)

  /** The status badge. */
  datatype TxStatus = Succeeded | Failed | Pending

  /** `formatTxStatus`: `1`/`true` succeed, `0`/`false` fail, anything
      else (a missing receipt, a string) is pending. */
  function StatusOf(status: Js.Value): (r: TxStatus)
    ensures r == Succeeded <==> status in {Js.Num(1), Js.Bool(true)}
    ensures r == Failed <==> status in {Js.Num(0), Js.Bool(false)}
  {
    if status == Js.Num(1) || status == Js.Bool(true) then Succeeded
    else if status == Js.Num(0) || status == Js.Bool(false) then Failed
    else Pending
  }

  /** The status shown for `txReceipt?.status`: no receipt reads as
      `undefined` and is pending. */
  function ShownStatus<R>(receipt: Option<Receipt<R>>): (r: TxStatus)
    ensures receipt.None? ==> r == Pending
    ensures receipt.Some? ==> r == StatusOf(receipt.value.status)
  {
    match receipt
    case None => StatusOf(Js.Undefined)
    case Some(rc) => StatusOf(rc.status)
  }

  /** The kind badge. */
  datatype TxKind = ContractCreation | ContractCall | Transfer

  /** `formatTxType`: no recipient is a deployment; otherwise input other
      than empty or `0x` is a call; otherwise a plain transfer. So a
      deployment (null `to`) is a creation whatever its data, a token
      transfer (a recipient and call data) is a call, and a BNB payment
      (a recipient and input `0x` or `''`) is a transfer. */
  function KindOf<T>(tx: Tx<T>): (r: TxKind)
    ensures r == ContractCreation <==> !Js.Truthy(tx.to)
    ensures r == Transfer <==> Js.Truthy(tx.to) && (tx.input == Js.Str("0x") || !Js.Truthy(tx.input))
  {
    if !Js.Truthy(tx.to) then ContractCreation
    else if Js.Truthy(tx.input) && tx.input != Js.Str("0x") then ContractCall
    else Transfer
  }

  /** The input as displayed: beyond 66 characters only the first 66 and
      an ellipsis. */
  function ShownInput(input: string): (r: string)
    ensures |input| <= INPUT_SHOWN ==> r == input
    ensures |input| > INPUT_SHOWN ==>
      |r| == INPUT_SHOWN + 3 && r[..INPUT_SHOWN] == input[..INPUT_SHOWN] && r[INPUT_SHOWN..] == "..."
  {
    if |input| > INPUT_SHOWN then Js.Substring(input, 0, INPUT_SHOWN) + "..." else input
  }

  /** The notifications the page raises. */
  datatype Toast = EnterHash | InvalidHash | FetchFailed(message: string)

  datatype TxPageState<T, R> = TxPageState(
    transactions: seq<Tx<T>>, loading: bool, listFailed: bool,
    selected: Option<Tx<T>>, receipt: Option<Receipt<R>>, txLoading: bool,
    toast: Option<Toast>, requests: seq<string>)

  function Initial<T, R>(): TxPageState<T, R>
  {
    TxPageState([], true, false, None, None, false, None, [])
  }

  /** User actions and fetch completions in the order they happen. A
      lookup completes in two steps: its transaction, then its receipt. */
  datatype TxEvent<T, R> =
    | ListLoaded(transactions: seq<Tx<T>>) | ListFailed
    | Search(query: string) | Select(hash: string)
    | TxLoaded(tx: Tx<T>) | TxFailed(message: string)
    | ReceiptLoaded(receipt: Receipt<R>) | ReceiptFailed

  function Step<T, R>(st: TxPageState<T, R>, e: TxEvent<T, R>): (r: TxPageState<T, R>)
    ensures e.ListLoaded? ==> r == st.(transactions := e.transactions, loading := false)
    ensures e.ListFailed? ==> r == st.(listFailed := true, loading := false)
    ensures !e.ListLoaded? && !e.ListFailed? ==>
      r.transactions == st.transactions && r.loading == st.loading && r.listFailed == st.listFailed
    ensures !e.TxLoaded? && !e.ReceiptLoaded? && !e.ReceiptFailed? ==>
      r.selected == st.selected && r.receipt == st.receipt
    ensures e.TxLoaded? ==> r == st.(selected := Some(e.tx))
    ensures e.ReceiptLoaded? ==> r == st.(receipt := Some(e.receipt), txLoading := false)
    ensures e.ReceiptFailed? ==> r == st.(receipt := None, txLoading := false)
    ensures e.TxFailed? ==> r == st.(toast := Some(FetchFailed(e.message)), txLoading := false)
    ensures e.Select? ==> r == st.(txLoading := true, requests := st.requests + [e.hash])
    ensures e.Search? && !DecideTxSearch(e.query).Lookup? ==> r == st.(toast := r.toast) && r.toast.Some?
    ensures e.Search? && DecideTxSearch(e.query).Lookup? ==>
      r == st.(txLoading := true, requests := st.requests + [DecideTxSearch(e.query).hash])
  {
    match e
    case ListLoaded(txs) => st.(transactions := txs, loading := false)
    case ListFailed => st.(listFailed := true, loading := false)
    case Search(q) =>
      (match DecideTxSearch(q)
       case Blank => st.(toast := Some(EnterHash))
       case Malformed => st.(toast := Some(InvalidHash))
       case Lookup(h) => st.(txLoading := true, requests := st.requests + [h]))
    case Select(h) => st.(txLoading := true, requests := st.requests + [h])
    case TxLoaded(tx) => st.(selected := Some(tx))
    case TxFailed(m) => st.(toast := Some(FetchFailed(m)), txLoading := false)
    case ReceiptLoaded(rc) => st.(receipt := Some(rc), txLoading := false)
    case ReceiptFailed => st.(receipt := None, txLoading := false)
  }

  function Replay<T, R>(events: seq<TxEvent<T, R>>): TxPageState<T, R>
  {
    if events == [] then Initial() else Step(Replay(events[..|events| - 1]), events[|events| - 1])
  }

  /** The transaction of the most recent successful transaction fetch. */
  function LastTx<T, R>(events: seq<TxEvent<T, R>>): Option<Tx<T>>
  {
    if events == [] then None
    else if events[|events| - 1].TxLoaded? then Some(events[|events| - 1].tx)
    else LastTx(events[..|events| - 1])
  }

  /** The outcome of the most recent receipt fetch: its receipt, or none
      when it failed or no receipt fetch has completed. */
  function LastReceipt<T, R>(events: seq<TxEvent<T, R>>): Option<Receipt<R>>
  {
    if events == [] then None
    else if events[|events| - 1].ReceiptLoaded? then Some(events[|events| - 1].receipt)
    else if events[|events| - 1].ReceiptFailed? then None
    else LastReceipt(events[..|events| - 1])
  }

  /** The list of the most recent successful list fetch. */
  function LastList<T, R>(events: seq<TxEvent<T, R>>): Option<seq<Tx<T>>>
  {
    if events == [] then None
    else if events[|events| - 1].ListLoaded? then Some(events[|events| - 1].transactions)
    else LastList(events[..|events| - 1])
  }

  /** A lookup starts when a row is clicked or a well-formed hash searched. */
  predicate StartsLookup<T, R>(e: TxEvent<T, R>)
  {
    e.Select? || (e.Search? && DecideTxSearch(e.query).Lookup?)
  }

  /** A lookup ends when its transaction fetch fails or its receipt fetch
      completes either way. */
  predicate EndsLookup<T, R>(e: TxEvent<T, R>)
  {
    e.TxFailed? || e.ReceiptLoaded? || e.ReceiptFailed?
  }

  /** Some lookup has started since the last one ended. */
  predicate LookupPending<T, R>(events: seq<TxEvent<T, R>>)
  {
    if events == [] then false
    else if StartsLookup(events[|events| - 1]) then true
    else if EndsLookup(events[|events| - 1]) then false
    else LookupPending(events[..|events| - 1])
  }

  /** After any interleaving of lookups, the pane shows the transaction
      whose fetch completed last beside the receipt whose fetch completed
      last, whichever lookups they belong to; the detail spinner runs
      exactly while a lookup has started since the last one ended. */
  lemma {:induction false} DetailReplay<T, R>(events: seq<TxEvent<T, R>>)
    ensures Replay(events).selected == LastTx(events)
    ensures Replay(events).receipt == LastReceipt(events)
    ensures Replay(events).txLoading <==> LookupPending(events)
  {
    if events != [] {
      var init := events[..|events| - 1];
      DetailReplay(init);
      assert Replay(events) == Step(Replay(init), events[|events| - 1]);
    }
  }

  /** The list is the latest fetched one, a list failure is never
      forgotten, and the page spinner is gone exactly when some list fetch
      has completed. */
  lemma {:induction false} ListReplay<T, R>(events: seq<TxEvent<T, R>>)
    ensures Replay(events).transactions == GetOr(LastList(events), [])
    ensures Replay(events).listFailed <==> exists i :: 0 <= i < |events| && events[i].ListFailed?
    ensures !Replay(events).loading <==>
      exists i :: 0 <= i < |events| && (events[i].ListLoaded? || events[i].ListFailed?)
  {
    if events != [] {
      var init := events[..|events| - 1];
      var last := events[|events| - 1];
      ListReplay(init);
      assert Replay(events) == Step(Replay(init), last);
      assert LastList(events) == if last.ListLoaded? then Some(last.transactions) else LastList(init);
      assert forall i :: 0 <= i < |init| ==> init[i] == events[i];
      assert (exists i :: 0 <= i < |events| && events[i].ListFailed?) <==>
        (exists i :: 0 <= i < |init| && init[i].ListFailed?) || last.ListFailed?;
      assert (exists i :: 0 <= i < |events| && (events[i].ListLoaded? || events[i].ListFailed?)) <==>
        (exists i :: 0 <= i < |init| && (init[i].ListLoaded? || init[i].ListFailed?))
        || last.ListLoaded? || last.ListFailed?;
    }
  }

  /** One lookup run to completion shows that transaction with its
      receipt, and the status badge is the receipt's. */
  lemma LookupShowsItsReceipt<T, R>(history: seq<TxEvent<T, R>>, h: string, tx: Tx<T>, rc: Receipt<R>)
    ensures var st := Replay(history + [Select(h), TxLoaded(tx), ReceiptLoaded(rc)]);
      st.selected == Some(tx) && st.receipt == Some(rc) && !st.txLoading
      && ShownStatus(st.receipt) == StatusOf(rc.status)
  {
    var e1 := history + [Select(h)];
    var e2 := e1 + [TxLoaded(tx)];
    var e3 := e2 + [ReceiptLoaded(rc)];
    assert e1[..|e1| - 1] == history && e2[..|e2| - 1] == e1 && e3[..|e3| - 1] == e2;
    assert e3 == history + [Select(h), TxLoaded(tx), ReceiptLoaded(rc)];
  }

  /** Two overlapping lookups can leave the second transaction on screen
      beside the first one's receipt: nothing ties a receipt to the
      transaction shown. */
  lemma ReceiptCanBelongToAnotherLookup<T, R>(history: seq<TxEvent<T, R>>, a: string, b: string,
                                             txA: Tx<T>, txB: Tx<T>, rcA: Receipt<R>, rcB: Receipt<R>)
    ensures var st := Replay(history + [Select(a), Select(b), TxLoaded(txA), TxLoaded(txB),
                                        ReceiptLoaded(rcB), ReceiptLoaded(rcA)]);
      st.selected == Some(txB) && st.receipt == Some(rcA)
  {
    var e1 := history + [Select(a)];
    var e2 := e1 + [Select(b)];
    var e3 := e2 + [TxLoaded(txA)];
    var e4 := e3 + [TxLoaded(txB)];
    var e5 := e4 + [ReceiptLoaded(rcB)];
    var e6 := e5 + [ReceiptLoaded(rcA)];
    assert e1[..|e1| - 1] == history && e2[..|e2| - 1] == e1 && e3[..|e3| - 1] == e2;
    assert e4[..|e4| - 1] == e3 && e5[..|e5| - 1] == e4 && e6[..|e6| - 1] == e5;
    assert Replay(e4).selected == Some(txB);
    assert Replay(e5).selected == Some(txB);
    assert e6 == history + [Select(a), Select(b), TxLoaded(txA), TxLoaded(txB), ReceiptLoaded(rcB), ReceiptLoaded(rcA)];
  }

  /** A failed receipt fetch clears the receipt, so the status reads
      pending even for a confirmed transaction. */
  lemma MissingReceiptIsPending<T, R>(history: seq<TxEvent<T, R>>, h: string, tx: Tx<T>)
    ensures var st := Replay(history + [Select(h), TxLoaded(tx), ReceiptFailed]);
      st.selected == Some(tx) && ShownStatus(st.receipt) == Pending
  {
    var e1 := history + [Select(h)];
    var e2 := e1 + [TxLoaded(tx)];
    var e3 := e2 + [ReceiptFailed];
    assert e1[..|e1| - 1] == history && e2[..|e2| - 1] == e1 && e3[..|e3| - 1] == e2;
    assert e3 == history + [Select(h), TxLoaded(tx), ReceiptFailed];
  }
}
