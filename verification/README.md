# BSC block explorer — a verified model of its decision logic

The system is a BNB Smart Chain explorer. A React front end has five pages:
a dashboard, a block explorer, a transaction page, a wallet page and a
contract workbench. They share a small gateway client. Behind them sits a
FastAPI backend that wraps a chain node with caches, statistics and two
WebSocket push channels.

There is no single library at its core. The logic is a set of small
decisions and state transitions spread through the pages and the backend.
This project models each one as a pure Dafny function or a
`state × event → state` step. Network, storage, wallet and node answers come
in as parameters or event payloads, and the properties are proved over
every input and every event order.

Modules, one per source file or shared concept:

- `Wrappers`: `Option` and `Result`.
- `SeqUtil`: filter and map over sequences, subsequence, last-N window.
- `Js`: the JavaScript semantics the pages rely on:
  - truthiness;
  - `trim` with the ECMAScript white-space set;
  - `substring` clamping;
  - `replace` of the first occurrence;
  - the `^0x[0-9A-Fa-f]{n}$` patterns.
- `JsNumber`: `parseInt` without a radix (section 19.2.5 of ECMA-262: a sign, a `0x` prefix, the longest digit run, NaN when there are no digits), `String(n)` and `toString(16)`.
- `Http`: methods and the split of a path into `/`-separated segments.
- `ApiClient` (`services/api.js`): base URL, the path of every fetch helper, WebSocket URLs, `formatWei`'s falsy branch, `shortenAddress`.
- `ContractRegistry` and `ContractWorkbench` (`ContractInteraction.jsx`):
  - the saved-contract list;
  - the ABI catalog and argument slots;
  - the dispatch gate and read/write classification;
  - the result envelope and the mutability badge.
- `Dashboard` (`Dashboard.jsx`): the 24-point gas chart, and the polled statistics and blocks with their sticky error.
- `BlockExplorer` (`BlockExplorer.jsx`) and `TransactionList` (`TransactionList.jsx`):
  - list refresh and the detail pane;
  - search validation;
  - the status, kind and input classifiers.
- `WalletManager` (`WalletManager.jsx`):
  - address lookup and the send gate;
  - the newest-first history;
  - account changes and disconnect.
- `BlockchainService` (`backend/blockchain.py`):
  - memoised blocks and transactions;
  - the latest-blocks window and the statistics average;
  - the process-wide instance.
- `BackendApi` (`backend/api.py`):
  - the route table and how a request is dispatched;
  - exceptions mapped to 500;
  - the new-block and gas channels;
  - the socket registry.
- `Wiring`: which backend handler each client request reaches, and the gas channel feeding the dashboard chart.

Where the code and its design description differ, the model follows the code:

- The detail panes show whichever fetch completed last. There is no request token.
- A block search accepts whatever `parseInt` reads, including negative numbers and trailing junk.
- A saved contract is named `合约 N`.
- A `pure` function without `constant` takes the write path.
- Error flags on the dashboard and list pages are never cleared.

## Model

| member | source | states |
|---|---|---|
| `ApiClient.ApiUrl` | bsc/frontend/src/services/api.js:6 | an unset or empty environment value falls back to `http://localhost:8000`, any other value is used as is |
| `ApiClient.Path` | bsc/frontend/src/services/api.js:18-70 | every helper's path starts with `/api/` |
| `ApiClient.PathSegments` | bsc/frontend/src/services/api.js:18-70 | every helper's path has two to five segments and starts with `api` |
| `ApiClient.NumbersReadBack` | bsc/frontend/src/services/api.js:23-37 | a block number or count interpolated into a path is one segment that `parseInt` reads back as that number |
| `ApiClient.LatestBlocksRequest` | bsc/frontend/src/services/api.js:23-26 | without an argument the request is `/api/blocks/latest/10`, otherwise it carries the given count |
| `ApiClient.LatestTransactionsRequest` | bsc/frontend/src/services/api.js:34-37 | without an argument the request is `/api/transactions/latest/10`, otherwise it carries the given count |
| `ApiClient.SocketUrl` | bsc/frontend/src/services/api.js:73-79 | the URL starts with `ws://` and ends with the channel; a base without `http://` is kept whole, and a base starting with `http://` loses exactly that prefix |
| `ApiClient.SocketUrlOfHttp` | bsc/frontend/src/services/api.js:73-79 | an `http://host` base gives `ws://host` followed by the channel |
| `ApiClient.SocketUrlOfHttps` | bsc/frontend/src/services/api.js:73-79 | an `https://` base is not rewritten: the URL becomes `ws://https://host…`, since only `http://` is removed |
| `ApiClient.HttpsHasNoHttp` | bsc/frontend/src/services/api.js:74 | `http://` occurs in `https://` followed by a host only where it occurs in the host |
| `ApiClient.FormatWei` | bsc/frontend/src/services/api.js:82-85 | a falsy amount shows as `'0'` without any arithmetic; a truthy one goes through the scaling step |
| `ApiClient.ShortenAddress` | bsc/frontend/src/services/api.js:87-90 | a missing or empty address gives `''`; otherwise the first `chars+2` and last `chars` characters, each clamped as `substring` clamps, around `...` |
| `ApiClient.ShortenStandardAddress` | bsc/frontend/src/services/api.js:87-89 | a 42-character `0x` address with the default width gives 13 characters: `0x`, four digits, `...`, the last four |
| `Js.Trim` | bsc/frontend/src/components/ContractInteraction.jsx:185 | the result neither starts nor ends with white space, and it is empty exactly when the text is all white space (where it sits in the text is `Js.TrimIsInfix`) |
| `Js.TrimIsInfix` | bsc/frontend/src/components/ContractInteraction.jsx:185 | the trim is the infix of the text that starts right after its leading white space, with only white space before and after it, so it is the text without its leading and trailing white space |
| `Js.TrimIdempotent` | bsc/frontend/src/components/ContractInteraction.jsx:360 | trimming twice is trimming once, so fields saved trimmed read back unchanged |
| `Js.TrimKeepsTail` | bsc/frontend/src/components/BlockExplorer.jsx:88 | a word that neither starts nor ends with white space, after any white space and before any tail, trims to the word followed by the tail less its trailing white space |
| `Js.IndexOf` | bsc/frontend/src/services/api.js:74 | the position found is the first occurrence at or after the start, and none means no occurrence at all |
| `Js.ReplaceFirst` | bsc/frontend/src/services/api.js:74 | text without the pattern is unchanged; otherwise exactly the first occurrence is replaced |
| `Js.Substring` | bsc/frontend/src/services/api.js:89 | the result is an infix of the string; in-range bounds slice, reversed bounds are swapped, and bounds both at or before the start or both at or after the end give `''` |
| `Js.PrefixedHexIsTrimmed` | bsc/frontend/src/components/TransactionList.jsx:89-90 | text that matches a `^0x[hex]{n}$` pattern is its own trim |
| `JsNumber.DigitRun` | bsc/frontend/src/components/BlockExplorer.jsx:88 | the digit run `parseInt` reads is the longest prefix of digits of the radix |
| `JsNumber.ParseInt` | bsc/frontend/src/components/BlockExplorer.jsx:88 | after leading white space a number starts with a digit, or a sign followed by a digit; only a `-` gives a negative result; blank text is NaN |
| `JsNumber.ShowInt` | bsc/frontend/src/services/api.js:29 | `String(n)` is decimal digits, preceded by `-` exactly when `n` is negative |
| `JsNumber.NatDigitsValue` | bsc/frontend/src/components/ContractInteraction.jsx:317 | the digits `toString(radix)` writes read back as the number |
| `JsNumber.NatDigitsLength` | bsc/frontend/src/components/ContractInteraction.jsx:317 | a number below `radix^k` has at most `k` digits |
| `JsNumber.ParseIntShowInt` | bsc/frontend/src/components/BlockExplorer.jsx:88 | `parseInt` reads back any decimal numeral with its sign, ignoring a non-digit tail |
| `JsNumber.ParseIntHex` | bsc/frontend/src/components/ContractInteraction.jsx:317 | `parseInt` reads `0x` followed by the hex digits of `n` as `n`, ignoring a non-hex tail |
| `JsNumber.ParseIntIgnoresSuffix` | bsc/frontend/src/components/BlockExplorer.jsx:88 | `parseInt("12abc")` is 12 |
| `JsNumber.ParseIntNegative` | bsc/frontend/src/components/BlockExplorer.jsx:88 | `parseInt("-5")` is -5 |
| `JsNumber.ParseIntHexPrefix` | bsc/frontend/src/components/BlockExplorer.jsx:88 | `parseInt("0x1f")` is 31 |
| `JsNumber.ParseIntNaN` | bsc/frontend/src/components/BlockExplorer.jsx:88-89 | text without a single hex digit is NaN |
| `Http.SegmentsOfJoin` | bsc/backend/api.py:39-147 | a path built from slash-free segments splits back into exactly those segments |
| `ContractRegistry.Save` | bsc/frontend/src/components/ContractInteraction.jsx:359-405 | on a registry that is a list: a blank address or ABI is refused, a known trimmed address is refused with nothing changed, otherwise one record with trimmed fields and name `合约 n+1` is appended and the whole list persisted |
| `ContractRegistry.SaveToRegistry` | bsc/frontend/src/components/ContractInteraction.jsx:359-405 | on the registry as loaded: blank fields are refused first; with both filled, a registry that is not a list throws at `some` (:372), changing and writing nothing; a list is saved to as `Save` says |
| `ContractRegistry.NonListRegistryNeverSaves` | bsc/frontend/src/components/ContractInteraction.jsx:372 | once stored JSON that is not a list has been loaded (:93), every save with both fields filled throws, the registry stays as loaded and storage is never written, over any run of attempts |
| `ContractRegistry.Delete` | bsc/frontend/src/components/ContractInteraction.jsx:446-451 | afterwards no entry has the address, the list never grows, and the whole list is persisted |
| `ContractRegistry.LoadSaved` | bsc/frontend/src/components/ContractInteraction.jsx:89-97 | a missing, empty or unparsable stored value leaves the registry at `[]`; any value that parses replaces it, whether or not it is a list |
| `ContractRegistry.SavedCard` | bsc/frontend/src/components/ContractInteraction.jsx:548-555 | a list shows its entries; a stored `null` or non-empty string makes the render throw; other non-list values hide the card |
| `ContractRegistry.StoredNullBreaksPage` | bsc/frontend/src/components/ContractInteraction.jsx:89-97 | a stored `null` parses, is loaded as the registry, and the render then throws |
| `ContractRegistry.DeleteKeepsOthers` | bsc/frontend/src/components/ContractInteraction.jsx:447 | deleting keeps every entry with another address, as often as before and in the same order |
| `ContractRegistry.DeleteAbsent` | bsc/frontend/src/components/ContractInteraction.jsx:447 | deleting an address that is not saved changes nothing |
| `ContractRegistry.DeleteIdempotent` | bsc/frontend/src/components/ContractInteraction.jsx:446-451 | deleting twice is deleting once |
| `ContractRegistry.DeleteUndoesSave` | bsc/frontend/src/components/ContractInteraction.jsx:385-392 | deleting the trimmed address just saved restores the list as it was |
| `ContractRegistry.SavePreservesUniqueness` | bsc/frontend/src/components/ContractInteraction.jsx:372-382 | a list with unique addresses keeps them unique after a save |
| `ContractRegistry.SaveTwiceIsDuplicate` | bsc/frontend/src/components/ContractInteraction.jsx:372-382 | saving the same address again, with any ABI, is refused as already saved and changes nothing |
| `ContractRegistry.StorageMirrorsRegistry` | bsc/frontend/src/components/ContractInteraction.jsx:359-451 | after any run of saves and deletes, refused saves included, the stored text reloads as the current registry, given a registry loaded from storage and an encoding that parsing inverts |
| `ContractWorkbench.Items` | bsc/frontend/src/components/ContractInteraction.jsx:199-201 | reading `.type` succeeds exactly when no element is null, and then yields the elements in order |
| `ContractWorkbench.CatalogIsExactlyTheFunctions` | bsc/frontend/src/components/ContractInteraction.jsx:199-203 | the catalog is a subsequence of the ABI that holds every `function` item exactly as often as the ABI does, and no other item |
| `ContractWorkbench.ApplyCatalog` | bsc/frontend/src/components/ContractInteraction.jsx:203-206 | a successful parse replaces the catalog and clears selection, slots and result; a failed one changes nothing |
| `ContractWorkbench.ParseAbi` | bsc/frontend/src/components/ContractInteraction.jsx:184-225 | blank or unparsable ABI text leaves the state unchanged; a parse sets the catalog and clears selection, slots and result and nothing else |
| `ContractWorkbench.LoadContract` | bsc/frontend/src/components/ContractInteraction.jsx:408-443 | the address and ABI fields take the saved values even when the saved ABI then fails to parse |
| `ContractWorkbench.SavedContractReloadsSameCatalog` | bsc/frontend/src/components/ContractInteraction.jsx:385-424 | a save succeeds only on a list registry, and loading the contract just saved gives the catalog parsing the workbench text gives, with the trimmed address |
| `ContractWorkbench.SelectFunction` | bsc/frontend/src/components/ContractInteraction.jsx:228-244 | one empty slot per declared input with its name and type, in order; the result is cleared and nothing else changes |
| `ContractWorkbench.ChangeInput` | bsc/frontend/src/components/ContractInteraction.jsx:247-251 | only slot `i` takes the value; the length and every other slot stay |
| `ContractWorkbench.UnfilledPositions` | bsc/frontend/src/components/ContractInteraction.jsx:287 | the ascending positions of exactly the empty slots |
| `ContractWorkbench.FilterIsUnfilledPositions` | bsc/frontend/src/components/ContractInteraction.jsx:287 | filtering the empty slots picks exactly the slots at the empty positions, in order |
| `ContractWorkbench.MissingNamesAreUnfilledSlots` | bsc/frontend/src/components/ContractInteraction.jsx:287-291 | the missing-argument message names exactly the empty slots, in slot order |
| `ContractWorkbench.Gate` | bsc/frontend/src/components/ContractInteraction.jsx:255-297 | refusals in order (not connected, blank address, no function, an empty argument) each exactly under its condition; the call proceeds exactly when all are met |
| `ContractWorkbench.HexNibbles` | bsc/frontend/src/components/ContractInteraction.jsx:320 | one hex digit per nibble drawn |
| `ContractWorkbench.SimulatedData` | bsc/frontend/src/components/ContractInteraction.jsx:314-321 | a read yields `0x` and 1–5 hex digits that `parseInt` reads back as the drawn value; a write yields `0x` and 64 hex digits |
| `ContractWorkbench.Outcome` | bsc/frontend/src/components/ContractInteraction.jsx:323-344 | every envelope has the time and exactly one of `data` (on success) or `error` (carrying the thrown message) |
| `ContractWorkbench.CallContractFunction` | bsc/frontend/src/components/ContractInteraction.jsx:254-356 | a refusal changes nothing; a dispatched call sets a well-formed result and nothing else, and a write carries a 64-digit hash |
| `ContractWorkbench.MountedRefusesCalls` | bsc/frontend/src/components/ContractInteraction.jsx:50-60 | on first render no wallet is connected, so any call is refused as not connected and the page, with the registry read from storage, stays as it was (:254) |
| `ContractWorkbench.ViewCallSucceeds` | bsc/frontend/src/components/ContractInteraction.jsx:315-327 | a view function with all arguments filled succeeds with a `0x` result |
| `ContractWorkbench.ClearedArgumentIsRefused` | bsc/frontend/src/components/ContractInteraction.jsx:247-297 | emptying the second of two filled arguments makes the call refused, naming that argument, with nothing changed |
| `ContractWorkbench.LabelAgreesWithPath` | bsc/frontend/src/components/ContractInteraction.jsx:624-625 | a `view` badge implies the read path; without `stateMutability` the badge is `view` exactly on the read path; `pure` without `constant` is badged `pure` and written |
| `ContractWorkbench.IsReadCall` | bsc/frontend/src/components/ContractInteraction.jsx:313 | a truthy `constant` always reads; otherwise the call reads exactly when `stateMutability` is `view`, so `pure` and `payable` write |
| `ContractWorkbench.MutabilityLabel` | bsc/frontend/src/components/ContractInteraction.jsx:625 | the badge is never blank: a set `stateMutability` is shown as is, otherwise `view` or `nonpayable` |
| `ContractWorkbench.AccountsChanged` | bsc/frontend/src/components/ContractInteraction.jsx:111-135 | an empty list disconnects and forgets the account, a non-empty one connects the first account; nothing else changes |
| `Dashboard.Seed` | bsc/frontend/src/components/Dashboard.jsx:76-87 | 24 samples `23 - i` hours before now, prices in [5, 8), strictly increasing times, the last one now |
| `Dashboard.OnGasMessage` | bsc/frontend/src/components/Dashboard.jsx:93-107 | a non-`gas_update` message changes nothing; a `gas_update` drops the oldest point of a full chart and appends the new one last |
| `Dashboard.WindowStep` | bsc/frontend/src/components/Dashboard.jsx:96-105 | one chart step equals the last-24 window of the history extended by the new point |
| `Dashboard.Appended` | bsc/frontend/src/components/Dashboard.jsx:95-104 | no more points are appended than messages arrive |
| `Dashboard.ChartIsSlidingWindow` | bsc/frontend/src/components/Dashboard.jsx:93-107 | after any pushes the chart is the last 24 of the seed followed by the `gas_update` prices in arrival order, and never holds more than 24 |
| `Dashboard.OnPoll` | bsc/frontend/src/components/Dashboard.jsx:38-73 | an error is set exactly when one was set or this poll failed; loading ends only on a blocks completion; stats and blocks change only on their own success |
| `Dashboard.LastFailure` | bsc/frontend/src/components/Dashboard.jsx:41-66 | there is no failure message exactly when no poll failed |
| `Dashboard.DashboardReplay` | bsc/frontend/src/components/Dashboard.jsx:38-73 | after any completion order the error is the latest failure's message, the list is the latest fetched one, and loading is over exactly when some blocks poll completed |
| `Dashboard.ErrorIsSticky` | bsc/frontend/src/components/Dashboard.jsx:43-66 | once a poll failed, no later success clears the error |
| `Dashboard.Render` | bsc/frontend/src/components/Dashboard.jsx:119-130 | the spinner exactly while loading, then the error page exactly when a message is set |
| `BlockExplorer.DecideSearch` | bsc/frontend/src/components/BlockExplorer.jsx:77-99 | blank text is refused, text `parseInt` reads as NaN is refused, anything else fetches the number read |
| `BlockExplorer.SearchReadsNumeral` | bsc/frontend/src/components/BlockExplorer.jsx:88-101 | a decimal numeral with white space on either side and any tail that starts with a non-digit fetches that number, sign kept; the one excluded case is a lone `0` followed by `x`/`X`, which reads as hexadecimal (`SearchReadsHex`) |
| `BlockExplorer.SearchRejectsNonNumeral` | bsc/frontend/src/components/BlockExplorer.jsx:88-97 | text whose first non-blank character is not a sign or digit is refused |
| `BlockExplorer.SearchIgnoresSuffix` | bsc/frontend/src/components/BlockExplorer.jsx:88-101 | `"12abc"` fetches block 12 |
| `BlockExplorer.SearchKeepsSign` | bsc/frontend/src/components/BlockExplorer.jsx:88-101 | `"-5"` fetches block -5 |
| `BlockExplorer.SearchReadsHex` | bsc/frontend/src/components/BlockExplorer.jsx:88-101 | `"0x1f"` fetches block 31 |
| `BlockExplorer.Step` | bsc/frontend/src/components/BlockExplorer.jsx:57-135 | list events touch only the list, detail events only the pane and spinner; a failed detail keeps the shown block; a refused search only raises a toast |
| `BlockExplorer.SelectedIsLastCompleted` | bsc/frontend/src/components/BlockExplorer.jsx:118-135 | after any interleaving the pane shows the block of the last completed fetch |
| `BlockExplorer.ListReplay` | bsc/frontend/src/components/BlockExplorer.jsx:57-74 | the list is the latest fetched one, a list failure is never forgotten, and loading ends with the first completed list fetch |
| `BlockExplorer.StaleResponseWins` | bsc/frontend/src/components/BlockExplorer.jsx:118-122 | selecting `a` then `b`, with `b` answering first, leaves the last arrival, `a`, on screen and logs both requests |
| `BlockExplorer.SpinnerClearsEarly` | bsc/frontend/src/components/BlockExplorer.jsx:119-123 | the first of two overlapping fetches to finish turns the shared spinner off |
| `BlockExplorer.Render` | bsc/frontend/src/components/BlockExplorer.jsx:147-166 | the spinner exactly while loading, then the error page exactly when a list fetch failed |
| `TransactionList.DecideTxSearch` | bsc/frontend/src/components/TransactionList.jsx:77-102 | blank text is refused, trimmed text not matching `^0x[A-Fa-f0-9]{64}$` is refused, and the lookup uses the trimmed text |
| `TransactionList.LookupIffWellFormed` | bsc/frontend/src/components/TransactionList.jsx:89-102 | every looked-up hash is `0x` and 64 hex digits, and every such hash is looked up as typed |
| `TransactionList.UpperCasePrefixRefused` | bsc/frontend/src/components/TransactionList.jsx:89-90 | a `0X` prefix is refused |
| `TransactionList.StatusOf` | bsc/frontend/src/components/TransactionList.jsx:169-177 | `1`/`true` succeed, `0`/`false` fail, anything else is pending |
| `TransactionList.ShownStatus` | bsc/frontend/src/components/TransactionList.jsx:300 | a missing receipt is pending, a present one shows its status |
| `TransactionList.KindOf` | bsc/frontend/src/components/TransactionList.jsx:180-188 | a falsy recipient is a deployment; otherwise empty or `0x` input is a transfer and any other input a call |
| `TransactionList.ShownInput` | bsc/frontend/src/components/TransactionList.jsx:376 | input up to 66 characters is shown whole, longer input as its first 66 and `...` |
| `TransactionList.Step` | bsc/frontend/src/components/TransactionList.jsx:57-156 | list events touch only the list; a selection is not validated; a failed transaction fetch keeps the shown transaction and receipt; a failed receipt clears only the receipt |
| `TransactionList.LookupShowsItsReceipt` | bsc/frontend/src/components/TransactionList.jsx:129-144 | one lookup run to completion shows that transaction, its receipt and the receipt's status |
| `TransactionList.ReceiptCanBelongToAnotherLookup` | bsc/frontend/src/components/TransactionList.jsx:129-144 | two overlapping lookups can show one transaction beside the other's receipt |
| `TransactionList.MissingReceiptIsPending` | bsc/frontend/src/components/TransactionList.jsx:136-141 | a failed receipt fetch keeps the transaction and shows it pending |
| `TransactionList.DetailReplay` | bsc/frontend/src/components/TransactionList.jsx:99-156 | for any interleaving of lookups, the pane shows the transaction whose fetch completed last and the receipt whose fetch completed last (none after a failure), each compared against an independent scan of the events; the detail spinner runs exactly while a lookup has started since the last one ended |
| `TransactionList.ListReplay` | bsc/frontend/src/components/TransactionList.jsx:57-74 | for any order of poll completions, the list is the latest fetched one, the list error is set exactly when some poll failed and is never cleared, and the page spinner is gone exactly when some poll has completed |
| `WalletManager.TransferGasIs21000` | bsc/frontend/src/components/WalletManager.jsx:301 | the gas limit `0x5208` is 21000 |
| `WalletManager.DecideLookup` | bsc/frontend/src/components/WalletManager.jsx:193-221 | blank input is refused, then trimmed input that is not `^0x[a-fA-F0-9]{40}$`; only a well-formed trimmed address is queried |
| `WalletManager.WellFormedAddressIsQueried` | bsc/frontend/src/components/WalletManager.jsx:205-221 | an address typed exactly is queried as typed |
| `WalletManager.SendGate` | bsc/frontend/src/components/WalletManager.jsx:243-287 | refusals in order (not connected, blank recipient or empty amount, bad address, bad amount), each exactly under its condition |
| `WalletManager.StartSend` | bsc/frontend/src/components/WalletManager.jsx:289-303 | a refusal changes nothing; otherwise the page is busy and the provider is asked for the trimmed, well-formed recipient |
| `WalletManager.FinishSend` | bsc/frontend/src/components/WalletManager.jsx:305-339 | a hash prepends one pending record and clears both inputs; an error changes only the busy flag |
| `WalletManager.SendPrependsOne` | bsc/frontend/src/components/WalletManager.jsx:243-339 | a completed send puts exactly one pending record with the trimmed recipient in front of the history on screen |
| `WalletManager.HistoryIsNewestFirst` | bsc/frontend/src/components/WalletManager.jsx:306-315 | after any sends the history lists them newest first in front of the earlier history, with no deduplication |
| `WalletManager.AccountsChanged` | bsc/frontend/src/components/WalletManager.jsx:145-169 | an empty list disconnects and clears account and balance; a non-empty one only switches the account |
| `WalletManager.Disconnect` | bsc/frontend/src/components/WalletManager.jsx:172-190 | account, balance, tokens and the connected flag are cleared; the history stays |
| `WalletManager.DisconnectedCannotSend` | bsc/frontend/src/components/WalletManager.jsx:172-176 | after a disconnect sends are refused, even after an account switch |
| `BlockchainService.Memo` | bsc/backend/blockchain.py:47-58 | a hit returns the cached value without asking the node; a miss asks the node and stores the answer under the key; other entries stay |
| `BlockchainService.MemoIsStable` | bsc/backend/blockchain.py:47-58 | asking twice gives the first answer even if the node changed its mind |
| `BlockchainService.GetBlockByNumber` | bsc/backend/blockchain.py:45-58 | the block is the cached one or the node's, and the cache gains it under the number asked for |
| `BlockchainService.GetLatestBlock` | bsc/backend/blockchain.py:39-43 | the node's newest block overwrites the cache entry at its own number |
| `BlockchainService.GetTransaction` | bsc/backend/blockchain.py:81-88 | transactions are memoised by hash |
| `BlockchainService.GetTransactionReceipt` | bsc/backend/blockchain.py:90-92 | a receipt always comes from the node and nothing is cached |
| `BlockchainService.TransactionCachedReceiptNot` | bsc/backend/blockchain.py:81-92 | a transaction once read is served from cache, a receipt is asked for every time |
| `BlockchainService.WindowLength` | bsc/backend/blockchain.py:73-76 | `min(count, latest + 1)` blocks for positive count and a non-negative newest block, none otherwise |
| `BlockchainService.GetLatestBlocks` | bsc/backend/blockchain.py:60-79 | the window has that length, entry `i` is block `latest - i` through the cache, and the cache gains exactly the numbers visited; afterwards `latest` is cached at its number, every other cached block keeps its value, and every newly cached number holds the node's answer |
| `BlockchainService.WindowIsDescending` | bsc/backend/blockchain.py:72-77 | on an honest chain the window is the consecutive descending run from the newest block, with no negative number |
| `BlockchainService.GapsTelescope` | bsc/backend/blockchain.py:189-190 | the sum of consecutive timestamp gaps is first minus last |
| `BlockchainService.AvgBlockTime` | bsc/backend/blockchain.py:188-190 | division by zero exactly when the window holds one block; otherwise first minus last timestamp over `n - 1` |
| `BlockchainService.BscStats` | bsc/backend/blockchain.py:178-198 | the statistics fail exactly when the average fails; otherwise they carry the newest block's number, timestamp and transaction count, the gas price in gwei and the average, the five keys of the returned dict |
| `BlockchainService.StatsFailOnlyAtGenesis` | bsc/backend/blockchain.py:184-190 | with the 10-block window, read below the newest number seen by the second read of the newest block, the statistics fail exactly when that number is 0, whatever the first read returned |
| `BlockchainService.CallContract` | bsc/backend/blockchain.py:130-151 | a missing argument list is sent as `[]`, the other fields as given |
| `BlockchainService.GetBscService` | bsc/backend/blockchain.py:200-208 | the first call builds the instance from its arguments and every later call returns it |
| `BlockchainService.ServiceIsSingleton` | bsc/backend/blockchain.py:203-208 | whatever later callers pass, they get the instance the first call built |
| `BackendApi.FirstMatch` | bsc/backend/api.py:39-147 | the first route whose path and method both match |
| `BackendApi.Resolve` | bsc/backend/api.py:39-215 | a route matches path and method exactly when the request reaches a route (handled, or 422 when its integer parameters do not validate), and that route is the first match; 405 exactly when no route matches both but one has the path; a redirect exactly when no route has the path but one has it with the trailing slash removed or added (never for `/`); 404 exactly when neither holds |
| `BackendApi.LatestIsNotABlockNumber` | bsc/backend/api.py:39-64 | `/api/blocks/latest` reaches the latest-block route, not the by-number route that would refuse it |
| `BackendApi.TrailingSlashRedirects` | bsc/backend/api.py:138 | `GET /api/stats/` has no route of its own and is redirected (307) to the statistics route |
| `BackendApi.Guard` | bsc/backend/api.py:42-46 | success answers 200 with the body; any exception answers 500 whose detail is its text |
| `BackendApi.StatsRoute` | bsc/backend/api.py:138-147 | 500 exactly when the statistics fail, otherwise the statistics with the request time |
| `BackendApi.StatsAtGenesisIs500` | bsc/backend/api.py:138-147 | when the window is read at block 0 the statistics route answers 500 with the division message |
| `BackendApi.Poll` | bsc/backend/api.py:178-185 | a block above the last sent is sent as `new_block` and remembered; anything else sends nothing and changes nothing |
| `BackendApi.HighWater` | bsc/backend/api.py:172-181 | the largest number polled, or 0 |
| `BackendApi.SessionSendsIncreasingBlocks` | bsc/backend/api.py:168-187 | a session remembers the highest number polled, sends only `new_block` messages above 0, in strictly increasing order |
| `BackendApi.SendsExactlyNewHighs` | bsc/backend/api.py:172-185 | a poll sends exactly when it beats every earlier poll and 0; block 0 is never sent |
| `BackendApi.GasTick` | bsc/backend/api.py:196-208 | always a `gas_update` carrying the wei price, its gwei value and the time |
| `BackendApi.Connect` | bsc/backend/api.py:154-156 | exactly one socket is appended at the end |
| `BackendApi.FirstIndex` | bsc/backend/api.py:159 | the position of the first equal socket, or none |
| `BackendApi.Disconnect` | bsc/backend/api.py:158-159 | the first equal socket is removed (multiset minus one); with none it raises `ValueError` |
| `BackendApi.ConnectThenDisconnect` | bsc/backend/api.py:154-159 | connecting a new socket and disconnecting it restores the registry |
| `BackendApi.EndSession` | bsc/backend/api.py:174-187 | only a client hang-up unregisters a socket |
| `BackendApi.FailedSessionStaysRegistered` | bsc/backend/api.py:174-187 | a session ended by a service failure stays in the registry |
| `Wiring.RequestSegments` | bsc/frontend/src/services/api.js:18-70 | for string arguments that reach the server as single unchanged segments (not empty, not `.` or `..`, and without `/`, `\`, `?`, `#`, `%`, tab or line breaks), the backend splits each helper's path back into the helper's segments |
| `Wiring.EndpointServed` | bsc/backend/api.py:39-135 | every client helper except the transaction listing, given such segment arguments, reaches the handler it is written against |
| `Wiring.NoRouteForListing` | bsc/backend/api.py:39-147 | no route has the listing's path |
| `Wiring.LatestTransactionsNotFound` | bsc/frontend/src/services/api.js:34-37 | `fetchLatestTransactions` always answers 404 |
| `Wiring.EveryEndpointServed` | bsc/frontend/src/services/api.js:18-70 | with the listing route added, every helper given such segment arguments reaches its handler |
| `Wiring.SearchedBlockIsServed` | bsc/frontend/src/components/BlockExplorer.jsx:88-101 | every block number the search lets through, negative ones included, reaches the by-number handler |
| `Wiring.SearchedHashIsServed` | bsc/frontend/src/components/TransactionList.jsx:89-107 | every hash the search lets through reaches the transaction and receipt handlers |
| `Wiring.HashIsSegment` | bsc/frontend/src/components/TransactionList.jsx:89-90 | a hash that matches the `0x` hex pattern reaches the server as one unchanged path segment |
| `Wiring.GasTickReachesChart` | bsc/frontend/src/components/Dashboard.jsx:93-104 | every gas tick the backend pushes appends its gwei price to the chart |

## Left out

- Rendering, toasts and styling. Pages are reduced to the state they hold. Toasts appear only as the kind of notice raised.
- Network, storage and wallet I/O: axios, `localStorage`, `window.ethereum`, browser WebSockets, `setInterval`. Their results are parameters or event payloads.
- The node client (`Web3Agent`, `BlockchainTool`, the model loader). Node answers are oracle functions, and the bytes-to-hex conversion of blocks is not modelled.
- `JSON.parse` and `JSON.stringify`. They are parameters; the registry round trip assumes parsing inverts the encoding.
- `Math.random()` and the clock. Random draws are a `Draw` parameter and times are arguments. Locale and date formatting (`toLocaleTimeString`, ISO timestamps) are left out.
- Floating point: gwei prices are exact reals, the average block time is kept as numerator and divisor, and `parseFloat(amount) > 0` is an abstract predicate.
- `ApiClient.FormatWei`: the division by `10^decimals` and `toFixed` are an abstract scaling function, so only the falsy branch is exact.
- `WalletManager.StartSend`: the wei amount `parseFloat(amount) * 1e18` in hex is not modelled, and the history keeps the amount text rather than its `parseFloat`.
- `WalletManager.DecideLookup`: the provider's balance answer and its `parseInt(balance, 16)` display are not modelled.
- `connectWallet`, its mock token balances, and the initial `eth_accounts` check. These are provider calls plus mock data.
- `BackendApi.Resolve`: pydantic's integer validation is modelled as an optional `-` and decimal digits; `+`, surrounding white space and underscores are not. The documentation routes the framework registers on its own (`/openapi.json`, `/docs`, `/docs/oauth2-redirect`, `/redoc`) are not in the route table, so the model answers 404 where the running app serves those pages; no client helper requests them. The redirect is modelled as the answer only; the follow-up request to the redirected path is not.
- The balance, token-balance, contract-call and health handlers. Only their routes, the 500 mapping and the contract-call argument default are modelled.
- JavaScript numbers are integers here. In the source they are IEEE-754 doubles: above 2^53 `parseInt` rounds its result, and from 10^21 up `String(n)` switches to exponent notation (`1e+21`).
- `JsNumber.ParseIntShowInt`: the read-back is exact for every integer here; in the source it holds only for safe integers (below 2^53 in magnitude), because `parseInt` rounds to the nearest double.
- `JsNumber.ParseIntHex`: same limit. Above 2^53 the source's `parseInt` returns a rounded value.
- `BlockExplorer.SearchReadsNumeral`: same limit. Above 2^53 the source fetches the rounded number rather than the one typed.
- `Wiring.SearchedBlockIsServed`: holds for every integer here. In the source a search for 10^21 or more is interpolated as `1e+21`, which the integer path parameter refuses with 422.
- Strings are sequences of Unicode scalar values. In the source, `length` and `substring` count UTF-16 code units, so they differ for characters outside the Basic Multilingual Plane (`ApiClient.ShortenAddress`, `TransactionList.ShownInput`).
- `ContractRegistry.SavedCard`: a stored JSON object is modelled without properties, so an object with its own `length` or `map` is not covered. The elements of a stored list are taken to be contract records.
- `ContractRegistry.SaveToRegistry`: for the same reason an object with its own `some`, `length` and `filter` is taken to throw like every other non-list. Deleting from a non-list registry is not modelled: the delete buttons are rendered only for a list.
- `Wiring.RequestSegments`: says nothing about string arguments the URL parser or the server rewrites (dot segments, `\`, `?`, `#`, percent escapes, tab and line breaks). The browser's URL normalisation and the server's percent-decoding are not modelled. The components call these helpers only from the transaction page: with a searched hash that passed the `0x`-hex pattern, which is never rewritten (`Wiring.HashIsSegment`), or with the hash of a listed transaction.
- `BackendApi.Poll`: the 3-second and 10-second sleeps, and the unused `broadcast` loop.
- `models.py`, `App.jsx` and `theme.js`: schemas, routing and theming only.
- Async interleaving is modelled only as the order in which completions arrive.

## Findings

| source | as written | input that shows it | evidently intended | confidence | as-written member | corrected member |
|---|---|---|---|---|---|---|
| bsc/frontend/src/services/api.js:34-37 | `fetchLatestTransactions` requests `/api/transactions/latest/{count}`, but `bsc/backend/api.py` declares no such route: the path has four segments, and the only four-segment route under `transactions` ends in `receipt` | `fetchLatestTransactions(20)` as called at `TransactionList.jsx:60` answers 404, so the transaction page only ever shows its list error | a `GET /api/transactions/latest/{count}` route serving the latest transactions | not executed | `Wiring.LatestTransactionsNotFound` | `Wiring.EveryEndpointServed` |
