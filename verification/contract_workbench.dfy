/** The contract workbench: the ABI catalog built from pasted or saved ABI
    text, the argument slots of the selected function, the dispatch gate,
    the read/write classification and the outcome envelope of a call. */
module ContractWorkbench {
  import opened Wrappers
  import Js
  import JsNumber
  import SeqUtil
  import ContractRegistry

  /** One declared parameter of an ABI function. */
  datatype AbiInput = AbiInput(name: string, typ: string)

  /** One element of an ABI array; `kind` is its `type` field. A missing
      `inputs` array is the empty one. */
  datatype AbiItem = AbiItem(kind: Js.Value, name: string, inputs: seq<AbiInput>,
                             stateMutability: Js.Value, constant: Js.Value)

  /** An array element: `null`/`undefined`, or anything else (a primitive
      is an item whose fields are all `undefined`). */
  datatype AbiElement = Nullish | Element(item: AbiItem)

  /** What `JSON.parse` makes of the ABI text. */
  datatype AbiDocument = NotJson | NotArray | Array(elements: seq<AbiElement>)

  /** One argument slot of the selected function. */
  datatype Slot = Slot(name: string, typ: string, value: string)

  /** The outcome of a call, as `functionResult` holds it. */
  datatype Envelope = Envelope(success: bool, data: Option<string>, error: Option<string>, timestamp: int)

  datatype Workbench = Workbench(
    connected: bool,
    account: Option<string>,
    address: string,
    abiText: string,
    catalog: seq<AbiItem>,
    selected: Option<AbiItem>,
    slots: seq<Slot>,
    result: Option<Envelope>,
    saved: ContractRegistry.Parsed)

  /** The state on first render, with the registry read from storage
      (`ContractRegistry.LoadSaved`), list or not. */
  function Mounted(saved: ContractRegistry.Parsed): Workbench
  {
    Workbench(false, None, "", "", [], None, [], None, saved)
  }

  // ---------------------------------------------------------------------
  // ABI catalog

  /** `item.type === 'function'`. */
  predicate IsFunction(item: AbiItem)
  {
    item.kind == Js.Str("function")
  }

  /** The items of an array none of whose elements is `null`/`undefined`;
      `None` as soon as one is (reading `.type` of it throws). */
  function Items(elements: seq<AbiElement>): (r: Option<seq<AbiItem>>)
    ensures r.Some? <==> forall i :: 0 <= i < |elements| ==> elements[i].Element?
    ensures r.Some? ==> (|r.value| == |elements|
      && forall i :: 0 <= i < |elements| ==> r.value[i] == elements[i].item)
  {
    if elements == [] then Some([])
    else match elements[0]
      case Nullish => None
      case Element(item) =>
        match Items(elements[1..])
        case None => None
        case Some(rest) => Some([item] + rest)
  }

  /** `JSON.parse(text).filter(item => item.type === 'function')`, or
      `None` when any step throws. */
  function Functions(doc: AbiDocument): Option<seq<AbiItem>>
  {
    match doc
    case NotJson => None
    case NotArray => None
    case Array(elements) =>
      match Items(elements)
      case None => None
      case Some(items) => Some(SeqUtil.Filter(IsFunction, items))
  }

  /** A successful parse yields exactly the function items, each as often
      as in the ABI and in their original order. */
  lemma CatalogIsExactlyTheFunctions(elements: seq<AbiElement>, x: AbiItem)
    requires Functions(Array(elements)).Some?
    ensures var items := Items(elements).value;
      var catalog := Functions(Array(elements)).value;
      && SeqUtil.IsSubsequence(catalog, items)
      && multiset(catalog)[x] == (if IsFunction(x) then multiset(items)[x] else 0)
  {
    var items := Items(elements).value;
    SeqUtil.FilterIsSubsequence(IsFunction, items);
    SeqUtil.FilterCounts(IsFunction, items, x);
  }

  /** The shared tail of `parseABI` and `loadContract`: on success the
      catalog is replaced and the selection, slots and result are cleared;
      on failure nothing changes. */
  function ApplyCatalog(ws: Workbench, parsed: Option<seq<AbiItem>>): (r: Workbench)
    ensures parsed.None? ==> r == ws
    ensures parsed.Some? ==>
      r == ws.(catalog := parsed.value, selected := None, slots := [], result := None)
  {
    match parsed
    case None => ws
    case Some(functions) => ws.(catalog := functions, selected := None, slots := [], result := None)
  }

  /** `parseABI`: blank ABI text is refused and text `JSON.parse` rejects
      is reported; in both cases nothing changes. */
  function ParseAbi(ws: Workbench, decode: string -> AbiDocument): (r: Workbench)
    ensures Js.IsBlank(ws.abiText) || Functions(decode(ws.abiText)).None? ==> r == ws
    ensures !Js.IsBlank(ws.abiText) && Functions(decode(ws.abiText)).Some? ==>
      && r.catalog == Functions(decode(ws.abiText)).value
      && r.selected.None? && r.slots == [] && r.result.None?
      && r.(catalog := ws.catalog, selected := ws.selected, slots := ws.slots, result := ws.result) == ws
  {
    if Js.IsBlank(ws.abiText) then ws
    else ApplyCatalog(ws, Functions(decode(ws.abiText)))
  }

  /** `loadContract`: the address and ABI fields take the saved values
      first, whether or not the saved ABI then parses. */
  function LoadContract(ws: Workbench, c: ContractRegistry.SavedContract, decode: string -> AbiDocument): (r: Workbench)
    ensures r.address == c.address && r.abiText == c.abi
    ensures Functions(decode(c.abi)).None? ==>
      r == ws.(address := c.address, abiText := c.abi)
    ensures Functions(decode(c.abi)).Some? ==>
      r == ws.(address := c.address, abiText := c.abi, catalog := Functions(decode(c.abi)).value,
               selected := None, slots := [], result := None)
  {
    ApplyCatalog(ws.(address := c.address, abiText := c.abi), Functions(decode(c.abi)))
  }

  /** A contract saved from the workbench and loaded back gives the
      catalog that parsing the workbench's ABI text gives, provided the
      JSON reading of the text does not depend on the white space `trim`
      removes (JSON itself skips only space, tab, CR and LF). */
  lemma SavedContractReloadsSameCatalog(ws: Workbench, now: int, decode: string -> AbiDocument)
    requires ContractRegistry.SaveToRegistry(ws.saved, ws.address, ws.abiText, now).2 == ContractRegistry.Saved
    requires decode(Js.Trim(ws.abiText)) == decode(ws.abiText)
    ensures var registry := ContractRegistry.SaveToRegistry(ws.saved, ws.address, ws.abiText, now).0;
      && registry.ContractList? && registry.entries != []
      && var loaded := LoadContract(ws.(saved := registry), registry.entries[|registry.entries| - 1], decode);
         loaded.catalog == ParseAbi(ws, decode).catalog && loaded.address == Js.Trim(ws.address)
  {
  }

  // ---------------------------------------------------------------------
  // Function selection and argument slots

  /** An empty slot for one declared parameter. */
  function EmptySlot(input: AbiInput): Slot
  {
    Slot(input.name, input.typ, "")
  }

  /** `handleFunctionSelect`: one empty slot per declared input, in order,
      and the previous result cleared. */
  function SelectFunction(ws: Workbench, f: AbiItem): (r: Workbench)
    ensures r.selected == Some(f) && r.result.None?
    ensures |r.slots| == |f.inputs|
    ensures forall i :: 0 <= i < |f.inputs| ==>
      r.slots[i].name == f.inputs[i].name && r.slots[i].typ == f.inputs[i].typ && r.slots[i].value == ""
    ensures r.(selected := ws.selected, slots := ws.slots, result := ws.result) == ws
  {
    ws.(selected := Some(f), slots := SeqUtil.Map(EmptySlot, f.inputs), result := None)
  }

  /** `handleInputChange(i, v)`: only slot `i` takes the new value. An
      index outside the slots makes the handler throw before any state
      is set, so nothing changes. */
  function ChangeInput(ws: Workbench, i: int, v: string): (r: Workbench)
    ensures |r.slots| == |ws.slots|
    ensures 0 <= i < |ws.slots| ==> r.slots[i] == ws.slots[i].(value := v)
    ensures forall j :: 0 <= j < |ws.slots| && j != i ==> r.slots[j] == ws.slots[j]
    ensures r.(slots := ws.slots) == ws
  {
    if 0 <= i < |ws.slots| then ws.(slots := ws.slots[i := ws.slots[i].(value := v)]) else ws
  }

  // ---------------------------------------------------------------------
  // Dispatch

  /** Why `callContractFunction` stops before calling. */
  datatype Refusal = NotConnected | NoAddress | NoFunction | MissingArguments(names: seq<string>)

  /** `input.value === ''`. */
  predicate IsUnfilled(s: Slot)
  {
    s.value == ""
  }

  function SlotName(s: Slot): string
  {
    s.name
  }

  /** The names listed in the missing-argument message. */
  function MissingNames(slots: seq<Slot>): seq<string>
  {
    SeqUtil.Map(SlotName, SeqUtil.Filter(IsUnfilled, slots))
  }

  /** The positions of the unfilled slots at or after `from`, ascending. */
  function UnfilledPositions(slots: seq<Slot>, from: nat): (r: seq<nat>)
    requires from <= |slots|
    ensures forall k :: 0 <= k < |r| ==> from <= r[k] < |slots| && IsUnfilled(slots[r[k]])
    ensures forall k, l :: 0 <= k < l < |r| ==> r[k] < r[l]
    ensures forall i :: from <= i < |slots| && IsUnfilled(slots[i]) ==> i in r
    decreases |slots| - from
  {
    if from == |slots| then []
    else (if IsUnfilled(slots[from]) then [from] else []) + UnfilledPositions(slots, from + 1)
  }

  /** `picked` holds the slots at positions `ps`, in order. */
  predicate PicksAt(picked: seq<Slot>, ps: seq<nat>, slots: seq<Slot>)
  {
    |picked| == |ps| && forall k :: 0 <= k < |ps| ==> ps[k] < |slots| && picked[k] == slots[ps[k]]
  }

  /** Filtering the unfilled slots picks exactly the slots at the unfilled
      positions, in order. */
  lemma {:induction false} FilterIsUnfilledPositions(slots: seq<Slot>, from: nat)
    requires from <= |slots|
    ensures PicksAt(SeqUtil.Filter(IsUnfilled, slots[from..]), UnfilledPositions(slots, from), slots)
    decreases |slots| - from
  {
    if from < |slots| {
      FilterIsUnfilledPositions(slots, from + 1);
      var rest := slots[from + 1..];
      assert slots[from..][0] == slots[from] && slots[from..][1..] == rest;
      if IsUnfilled(slots[from]) {
        PicksAtCons(SeqUtil.Filter(IsUnfilled, rest), UnfilledPositions(slots, from + 1), slots, from);
      }
    }
  }

  /** Prepending the slot at `i` and the position `i` keeps the pairing. */
  lemma PicksAtCons(picked: seq<Slot>, ps: seq<nat>, slots: seq<Slot>, i: nat)
    requires PicksAt(picked, ps, slots) && i < |slots|
    ensures PicksAt([slots[i]] + picked, [i] + ps, slots)
  {
    var picked' := [slots[i]] + picked;
    var ps' := [i] + ps;
    forall k | 0 <= k < |ps'|
      ensures ps'[k] < |slots| && picked'[k] == slots[ps'[k]]
    {
      if k > 0 {
        assert picked'[k] == picked[k - 1] && ps'[k] == ps[k - 1];
      }
    }
  }

  /** The missing-argument message names exactly the unfilled slots, in
      slot order. */
  lemma MissingNamesAreUnfilledSlots(slots: seq<Slot>, from: nat)
    requires from <= |slots|
    ensures var ps := UnfilledPositions(slots, from);
      var names := MissingNames(slots[from..]);
      |names| == |ps| && forall k :: 0 <= k < |ps| ==> names[k] == slots[ps[k]].name
  {
    FilterIsUnfilledPositions(slots, from);
  }

  /** Every argument slot has a value. */
  predicate AllFilled(slots: seq<Slot>)
  {
    forall i :: 0 <= i < |slots| ==> !IsUnfilled(slots[i])
  }

  /** The checks of `callContractFunction`, in the order the handler makes
      them; `None` lets the call proceed. */
  function Gate(ws: Workbench): (r: Option<Refusal>)
    ensures r == Some(NotConnected) <==> !ws.connected
    ensures r == Some(NoAddress) <==> ws.connected && Js.IsBlank(ws.address)
    ensures r == Some(NoFunction) <==> ws.connected && !Js.IsBlank(ws.address) && ws.selected.None?
    ensures r.None? <==>
      ws.connected && !Js.IsBlank(ws.address) && ws.selected.Some? && AllFilled(ws.slots)
    ensures r.Some? && r.value.MissingArguments? ==>
      r.value.names == MissingNames(ws.slots) && |r.value.names| > 0
  {
    if !ws.connected then Some(NotConnected)
    else if Js.IsBlank(ws.address) then Some(NoAddress)
    else if ws.selected.None? then Some(NoFunction)
    else
      SeqUtil.FilterEmpty(IsUnfilled, ws.slots);
      if SeqUtil.Filter(IsUnfilled, ws.slots) != [] then Some(MissingArguments(MissingNames(ws.slots)))
      else None
  }

  /** `stateMutability === 'view' || constant`: the read path. `pure`
      without `constant` takes the write path. */
  predicate IsReadCall(f: AbiItem)
    ensures Js.Truthy(f.constant) ==> IsReadCall(f)
    ensures !Js.Truthy(f.constant) ==> (IsReadCall(f) <==> f.stateMutability == Js.Str("view"))
  {
    f.stateMutability == Js.Str("view") || Js.Truthy(f.constant)
  }

  /** The `Math.random()` draws behind one simulated call: the read result
      `floor(random * 1000000)` and 64 write-hash nibbles `floor(random * 16)`. */
  datatype Draw = Draw(readValue: nat, nibbles: seq<nat>)

  predicate ValidDraw(d: Draw)
  {
    d.readValue < 1000000 && |d.nibbles| == 64 && forall i :: 0 <= i < |d.nibbles| ==> d.nibbles[i] < 16
  }

  /** The try block either completes with the simulated result or throws
      with a message. */
  datatype Execution = Simulated(draw: Draw) | Threw(message: string)

  /** The hex digits of a sequence of nibbles, each `n.toString(16)`. */
  function HexNibbles(ns: seq<nat>): (r: string)
    requires forall i :: 0 <= i < |ns| ==> ns[i] < 16
    ensures |r| == |ns|
    ensures forall i :: 0 <= i < |r| ==> Js.IsHexDigit(r[i])
  {
    if ns == [] then "" else [JsNumber.DigitChar(ns[0])] + HexNibbles(ns[1..])
  }

  /** The simulated result: a read yields `'0x'` and the hex of a number
      below one million, which `parseInt` reads back; a write yields a
      transaction-hash-shaped `'0x'` + 64 hex digits. */
  function SimulatedData(f: AbiItem, d: Draw): (r: string)
    requires ValidDraw(d)
    ensures IsReadCall(f) ==> 3 <= |r| <= 7 && r[..2] == "0x" && JsNumber.ParseInt(r) == Some(d.readValue)
    ensures !IsReadCall(f) ==> Js.IsPrefixedHex(r, 64)
  {
    if IsReadCall(f) then
      JsNumber.NatDigitsLength(d.readValue, 16, 5);
      JsNumber.ParseIntHex(d.readValue, "");
      assert "0x" + JsNumber.ToHex(d.readValue) + "" == "0x" + JsNumber.ToHex(d.readValue);
      "0x" + JsNumber.ToHex(d.readValue)
    else
      "0x" + HexNibbles(d.nibbles)
  }

  /** Every outcome carries `success` and `timestamp`, and exactly one of
      `data` (on success) or `error` (on failure). */
  predicate WellFormedEnvelope(e: Envelope)
  {
    (e.success <==> e.data.Some?) && (e.success <==> e.error.None?)
  }

  /** The envelope `callContractFunction` stores once the gate is passed. */
  function Outcome(f: AbiItem, exec: Execution, now: int): (e: Envelope)
    requires exec.Simulated? ==> ValidDraw(exec.draw)
    ensures WellFormedEnvelope(e) && e.timestamp == now
    ensures e.success <==> exec.Simulated?
    ensures exec.Threw? ==> e.error == Some(exec.message)
    ensures exec.Simulated? ==> e.data == Some(SimulatedData(f, exec.draw))
  {
    match exec
    case Simulated(d) => Envelope(true, Some(SimulatedData(f, d)), None, now)
    case Threw(message) => Envelope(false, None, Some(message), now)
  }

  /** `callContractFunction`: a refusal leaves the state as it was; a call
      that passes the gate sets the result and nothing else. */
  function CallContractFunction(ws: Workbench, exec: Execution, now: int): (r: (Workbench, Option<Refusal>))
    requires exec.Simulated? ==> ValidDraw(exec.draw)
    ensures r.1 == Gate(ws)
    ensures r.1.Some? ==> r.0 == ws
    ensures r.1.None? ==> ws.selected.Some? && r.0.result.Some? && r.0 == ws.(result := r.0.result)
    ensures r.1.None? ==> WellFormedEnvelope(r.0.result.value) && r.0.result.value.timestamp == now
    ensures r.1.None? && exec.Simulated? && !IsReadCall(ws.selected.value) ==>
      r.0.result.value.data.Some? && Js.IsPrefixedHex(r.0.result.value.data.value, 64)
  {
    match Gate(ws)
    case Some(refusal) => (ws, Some(refusal))
    case None => (ws.(result := Some(Outcome(ws.selected.value, exec, now))), None)
  }

  /** On first render no wallet is connected, so a call is refused before
      anything else is checked and the page stays as it was. */
  lemma MountedRefusesCalls(saved: ContractRegistry.Parsed, exec: Execution, now: int)
    requires exec.Simulated? ==> ValidDraw(exec.draw)
    ensures CallContractFunction(Mounted(saved), exec, now) == (Mounted(saved), Some(NotConnected))
    ensures Mounted(saved).saved == saved && Mounted(saved).result.None?
  {
  }

  /** A view function whose arguments are all filled dispatches and
      succeeds with a `0x`-prefixed hex result. */
  lemma ViewCallSucceeds(ws: Workbench, d: Draw, now: int)
    requires ws.connected && !Js.IsBlank(ws.address) && ValidDraw(d)
    requires ws.selected.Some? && ws.selected.value.stateMutability == Js.Str("view")
    requires AllFilled(ws.slots)
    ensures var r := CallContractFunction(ws, Simulated(d), now);
      r.1.None? && r.0.result.value.success && r.0.result.value.data.value[..2] == "0x"
  {
  }

  /** Emptying the second of two filled arguments makes the call refused,
      naming that argument, with nothing changed. */
  lemma ClearedArgumentIsRefused(ws: Workbench, d: Draw, now: int)
    requires ws.connected && !Js.IsBlank(ws.address) && ws.selected.Some? && ValidDraw(d)
    requires |ws.slots| == 2 && ws.slots[0].value != ""
    ensures var ws2 := ChangeInput(ws, 1, "");
      var r := CallContractFunction(ws2, Simulated(d), now);
      r.1 == Some(MissingArguments([ws.slots[1].name])) && r.0 == ws2
  {
    var ws2 := ChangeInput(ws, 1, "");
    assert ws2.slots == [ws.slots[0], ws.slots[1].(value := "")];
    assert ws2.slots[1..] == [ws2.slots[1]];
    assert SeqUtil.Filter(IsUnfilled, ws2.slots[1..]) == [ws2.slots[1]];
    assert SeqUtil.Filter(IsUnfilled, ws2.slots) == [ws2.slots[1]];
    assert MissingNames(ws2.slots) == [ws.slots[1].name];
  }

  // ---------------------------------------------------------------------
  // Mutability badge and account changes

  /** The badge text `stateMutability || (constant ? 'view' : 'nonpayable')`. */
  function MutabilityLabel(f: AbiItem): (r: Js.Value)
    ensures Js.Truthy(r)
    ensures Js.Truthy(f.stateMutability) ==> r == f.stateMutability
    ensures !Js.Truthy(f.stateMutability) ==> r == Js.Str("view") || r == Js.Str("nonpayable")
  {
    if Js.Truthy(f.stateMutability) then f.stateMutability
    else if Js.Truthy(f.constant) then Js.Str("view")
    else Js.Str("nonpayable")
  }

  /** A function labelled `view` is dispatched on the read path, and for a
      legacy item without `stateMutability` the label is `view` exactly
      when it is. A `pure` item without `constant` is labelled `pure` and
      takes the write path. */
  lemma LabelAgreesWithPath(f: AbiItem)
    ensures MutabilityLabel(f) == Js.Str("view") ==> IsReadCall(f)
    ensures !Js.Truthy(f.stateMutability) ==> (MutabilityLabel(f) == Js.Str("view") <==> IsReadCall(f))
    ensures f.stateMutability == Js.Str("pure") && !Js.Truthy(f.constant) ==>
      MutabilityLabel(f) == Js.Str("pure") && !IsReadCall(f)
  {
  }

  /** `handleAccountsChanged`: an empty list disconnects, otherwise the
      first account becomes current and the workbench counts as connected. */
  function AccountsChanged(ws: Workbench, accounts: seq<string>): (r: Workbench)
    ensures |accounts| == 0 ==> !r.connected && r.account.None?
    ensures |accounts| > 0 ==> r.connected && r.account == Some(accounts[0])
    ensures r.(connected := ws.connected, account := ws.account) == ws
  {
    if |accounts| == 0 then ws.(connected := false, account := None)
    else ws.(account := Some(accounts[0]), connected := true)
  }
}
