/** The wallet page: the address pattern, the balance-lookup and send
    validation chains, the newest-first history of sent transactions, and
    the account-change and disconnect transitions. */
module WalletManager {
  import opened Wrappers
  import Js
  import JsNumber

  /** Hex digits in an account address. */
  const ADDRESS_DIGITS: nat := 40
  /** The gas limit every send asks for, as the hex string it is sent as. */
  const TRANSFER_GAS: string := "0x5208"

  /** `^0x[a-fA-F0-9]{40}$`. */
  predicate IsAddress(s: string)
  {
    Js.IsPrefixedHex(s, ADDRESS_DIGITS)
  }

  /** The gas limit of a plain transfer is 21000. */
  lemma TransferGasIs21000()
    ensures JsNumber.ParseInt(TRANSFER_GAS) == Some(21000)
  {
    assert JsNumber.DigitChar(5) == '5' && JsNumber.DigitChar(2) == '2' && JsNumber.DigitChar(0) == '0'
      && JsNumber.DigitChar(8) == '8';
    assert JsNumber.NatDigits(5, 16) == "5";
    assert JsNumber.NatDigits(82, 16) == "52";
    assert JsNumber.NatDigits(1312, 16) == "520";
    assert JsNumber.NatDigits(21000, 16) == "5208";
    assert TRANSFER_GAS == "0x" + JsNumber.ToHex(21000) + "";
    JsNumber.ParseIntHex(21000, "");
  }

  /** What `checkAddressBalance` does with the address box. */
  datatype LookupDecision = EnterAddress | InvalidAddress | QueryBalance(address: string)

  /** Blank input is refused first, then trimmed input that is not an
      address; the provider is asked only for a well-formed address. */
  function DecideLookup(input: string): (d: LookupDecision)
    ensures d == EnterAddress <==> Js.IsBlank(input)
    ensures d == InvalidAddress <==> !Js.IsBlank(input) && !IsAddress(Js.Trim(input))
    ensures d.QueryBalance? ==> d.address == Js.Trim(input) && IsAddress(d.address)
  {
    if Js.IsBlank(input) then EnterAddress
    else if IsAddress(Js.Trim(input)) then QueryBalance(Js.Trim(input))
    else InvalidAddress
  }

  /** An address typed exactly is queried as typed. */
  lemma WellFormedAddressIsQueried(input: string)
    requires IsAddress(input)
    ensures DecideLookup(input) == QueryBalance(input)
  {
    Js.PrefixedHexIsTrimmed(input, ADDRESS_DIGITS);
  }

  /** A token holding shown after connecting. */
  datatype TokenBalance = TokenBalance(symbol: string, address: string, balance: string)

  /** A sent transaction as the history records it. `value` is the amount
      text the user typed (the page keeps its `parseFloat`). */
  datatype SentTx = SentTx(hash: string, from: Option<string>, to: string, value: string,
                           timestamp: int, status: string)

  datatype WalletState = WalletState(
    account: Option<string>, balance: Option<int>, tokenBalances: seq<TokenBalance>,
    connected: bool, addressInput: string, recipient: string, amount: string,
    sending: bool, history: seq<SentTx>)

  /** Why `sendTransaction` stops before asking the provider. */
  datatype SendRefusal = NotConnected | Incomplete | InvalidRecipient | InvalidAmount

  /** The send checks in the handler's order. `amountOk` stands for
      `!isNaN(amount) && parseFloat(amount) > 0`; the amount is not
      trimmed, only checked for being empty. */
  function SendGate(ws: WalletState, amountOk: string -> bool): (r: Option<SendRefusal>)
    ensures r == Some(NotConnected) <==> !ws.connected
    ensures r == Some(Incomplete) <==> ws.connected && (Js.IsBlank(ws.recipient) || ws.amount == "")
    ensures r == Some(InvalidRecipient) <==>
      ws.connected && !Js.IsBlank(ws.recipient) && ws.amount != "" && !IsAddress(Js.Trim(ws.recipient))
    ensures r == None <==>
      ws.connected && IsAddress(Js.Trim(ws.recipient)) && ws.amount != "" && amountOk(ws.amount)
  {
    if !ws.connected then Some(NotConnected)
    else if Js.IsBlank(ws.recipient) || ws.amount == "" then Some(Incomplete)
    else if !IsAddress(Js.Trim(ws.recipient)) then Some(InvalidRecipient)
    else if !amountOk(ws.amount) then Some(InvalidAmount)
    else None
  }

  /** What the send handler captured when it passed the gate. */
  datatype PendingSend = PendingSend(from: Option<string>, to: string, value: string, history: seq<SentTx>)

  /** Pressing send: a refusal changes nothing; otherwise the page is
      marked sending and the request to the provider is described. */
  function StartSend(ws: WalletState, amountOk: string -> bool): (r: (WalletState, Result<PendingSend, SendRefusal>))
    ensures r.1.Err? <==> SendGate(ws, amountOk).Some?
    ensures r.1.Err? ==> r.0 == ws && r.1.error == SendGate(ws, amountOk).value
    ensures r.1.Ok? ==>
      && r.0 == ws.(sending := true)
      && r.1.value == PendingSend(ws.account, Js.Trim(ws.recipient), ws.amount, ws.history)
      && IsAddress(r.1.value.to)
  {
    match SendGate(ws, amountOk)
    case Some(refusal) => (ws, Err(refusal))
    case None => (ws.(sending := true), Ok(PendingSend(ws.account, Js.Trim(ws.recipient), ws.amount, ws.history)))
  }

  /** The provider's answer: the transaction hash, or the error message. */
  function FinishSend(ws: WalletState, p: PendingSend, answer: Result<string, string>, nowMs: nat): (r: WalletState)
    ensures !r.sending
    ensures answer.Err? ==> r == ws.(sending := false)
    ensures answer.Ok? ==>
      && |r.history| == |p.history| + 1 && r.history[1..] == p.history
      && r.history[0] == SentTx(answer.value, p.from, p.to, p.value, nowMs / 1000, "pending")
      && r.recipient == "" && r.amount == ""
      && r == ws.(history := r.history, recipient := "", amount := "", sending := false)
  {
    match answer
    case Err(_) => ws.(sending := false)
    case Ok(hash) =>
      var tx := SentTx(hash, p.from, p.to, p.value, nowMs / 1000, "pending");
      ws.(history := [tx] + p.history, recipient := "", amount := "", sending := false)
  }

  /** The send button is disabled while sending, so history captured at
      the start is the current one: a completed send prepends exactly one
      pending record to the history that was on screen and clears both
      inputs, and a failed send changes nothing but the busy flag. */
  lemma SendPrependsOne(ws: WalletState, amountOk: string -> bool, answer: Result<string, string>, nowMs: nat)
    requires SendGate(ws, amountOk).None?
    ensures var (started, p) := StartSend(ws, amountOk);
      var done := FinishSend(started, p.value, answer, nowMs);
      && (answer.Ok? ==> done.history == [SentTx(answer.value, ws.account, Js.Trim(ws.recipient), ws.amount, nowMs / 1000, "pending")] + ws.history
                         && IsAddress(done.history[0].to) && done.recipient == "" && done.amount == "")
      && (answer.Err? ==> done == ws.(sending := false))
  {
  }

  /** The sends in the order they completed. */
  datatype Sent = Sent(hash: string, from: Option<string>, to: string, value: string, nowMs: nat)

  function Record(s: Sent): SentTx
  {
    SentTx(s.hash, s.from, s.to, s.value, s.nowMs / 1000, "pending")
  }

  /** The history after a sequence of completed sends. */
  function AfterSends(ws: WalletState, sends: seq<Sent>): WalletState
    decreases |sends|
  {
    if sends == [] then ws
    else
      var s := sends[|sends| - 1];
      var before := AfterSends(ws, sends[..|sends| - 1]);
      FinishSend(before, PendingSend(s.from, s.to, s.value, before.history), Ok(s.hash), s.nowMs)
  }

  /** The history lists the sends newest first, in front of the history
      there was before, and nothing is deduplicated. */
  lemma {:induction false} HistoryIsNewestFirst(ws: WalletState, sends: seq<Sent>)
    ensures var h := AfterSends(ws, sends).history;
      |h| == |sends| + |ws.history| && h[|sends|..] == ws.history
      && forall i :: 0 <= i < |sends| ==> h[i] == Record(sends[|sends| - 1 - i])
    decreases |sends|
  {
    if sends != [] {
      var init := sends[..|sends| - 1];
      var s := sends[|sends| - 1];
      HistoryIsNewestFirst(ws, init);
      var beforeWs := AfterSends(ws, init);
      var before := beforeWs.history;
      var p := PendingSend(s.from, s.to, s.value, before);
      assert AfterSends(ws, sends) == FinishSend(beforeWs, p, Ok(s.hash), s.nowMs);
      var h := AfterSends(ws, sends).history;
      assert h == [Record(s)] + before;
      assert h[|sends|..] == before[|init|..];
      forall i | 0 <= i < |sends|
        ensures h[i] == Record(sends[|sends| - 1 - i])
      {
        if i > 0 {
          assert h[i] == before[i - 1];
          assert init[|init| - 1 - (i - 1)] == sends[|sends| - 1 - i];
        }
      }
    }
  }

  /** `handleAccountsChanged`: an empty list disconnects and forgets the
      account and balance; a non-empty one only switches the account. */
  function AccountsChanged(ws: WalletState, accounts: seq<string>): (r: WalletState)
    ensures |accounts| == 0 ==> r == ws.(connected := false, account := None, balance := None)
    ensures |accounts| > 0 ==> r == ws.(account := Some(accounts[0]))
    ensures r.history == ws.history && r.tokenBalances == ws.tokenBalances
  {
    if |accounts| == 0 then ws.(connected := false, account := None, balance := None)
    else ws.(account := Some(accounts[0]))
  }

  /** `disconnectWallet`: account, balance, tokens and the connected flag
      are cleared; the history of sends stays. */
  function Disconnect(ws: WalletState): (r: WalletState)
    ensures !r.connected && r.account.None? && r.balance.None? && r.tokenBalances == []
    ensures r.history == ws.history
    ensures r.(connected := ws.connected, account := ws.account, balance := ws.balance,
               tokenBalances := ws.tokenBalances) == ws
  {
    ws.(connected := false, account := None, balance := None, tokenBalances := [])
  }

  /** After a disconnect nothing can be sent until the wallet connects
      again, and a later switch of account does not reconnect it. */
  lemma DisconnectedCannotSend(ws: WalletState, accounts: seq<string>, amountOk: string -> bool)
    ensures SendGate(Disconnect(ws), amountOk) == Some(NotConnected)
    ensures SendGate(AccountsChanged(Disconnect(ws), accounts), amountOk) == Some(NotConnected)
  {
  }
}
