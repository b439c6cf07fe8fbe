/** The saved-contract registry of the contract workbench: a list of
    (address, ABI text, display name, time) records kept in local storage
    under one key, written back whole after every change. */
module ContractRegistry {
  import opened Wrappers
  import Js
  import JsNumber
  import SeqUtil

  datatype SavedContract = SavedContract(address: string, abi: string, name: string, timestamp: int)

  /** The registry after an operation, and the list written to local
      storage by it (`None` when storage is not touched). */
  datatype Update = Update(entries: seq<SavedContract>, written: Option<seq<SavedContract>>)

  /** How a save ends: refused for a blank field, refused as a duplicate,
      saved, or thrown out by a `TypeError` (the registry is not a list). */
  datatype SaveOutcome = MissingFields | AlreadySaved | Saved | Threw

  /** The generated display name `'合约 ' + n`. */
  function DisplayName(n: nat): string
  {
    "\U{5408}\U{7EA6} " + JsNumber.ShowInt(n)
  }

  /** `entries.some(c => c.address === address)`. */
  predicate Known(entries: seq<SavedContract>, address: string)
  {
    exists i :: 0 <= i < |entries| && entries[i].address == address
  }

  /** No two entries share an address. */
  predicate UniqueAddresses(entries: seq<SavedContract>)
  {
    forall i, j :: 0 <= i < j < |entries| ==> entries[i].address != entries[j].address
  }

  /** `saveContract`: refuses a blank address or ABI, leaves the list alone
      when the trimmed address is already saved, and otherwise appends one
      record with the trimmed fields and the name `'合约 ' + (length + 1)`,
      then persists the whole list. */
  function Save(entries: seq<SavedContract>, address: string, abi: string, now: int): (r: (Update, SaveOutcome))
    ensures r.1 == MissingFields <==> Js.IsBlank(address) || Js.IsBlank(abi)
    ensures r.1 == AlreadySaved <==> !Js.IsBlank(address) && !Js.IsBlank(abi) && Known(entries, Js.Trim(address))
    ensures r.1 != Saved ==> r.0 == Update(entries, None)
    ensures r.1 == Saved ==>
      && |r.0.entries| == |entries| + 1
      && r.0.entries[..|entries|] == entries
      && r.0.entries[|entries|] == SavedContract(Js.Trim(address), Js.Trim(abi), DisplayName(|entries| + 1), now)
      && r.0.written == Some(r.0.entries)
  {
    if Js.IsBlank(address) || Js.IsBlank(abi) then (Update(entries, None), MissingFields)
    else if Known(entries, Js.Trim(address)) then (Update(entries, None), AlreadySaved)
    else
      var added := entries + [SavedContract(Js.Trim(address), Js.Trim(abi), DisplayName(|entries| + 1), now)];
      (Update(added, Some(added)), Saved)
  }

  /** `saveContract` on the registry as the page holds it, list or not.
      The blank check comes first; after it, `savedContracts.some(...)`
      throws a `TypeError` on any value that is not a list (`Threw`), and
      nothing changes; a list is saved to as `Save` says. The second
      component is what is written to local storage. */
  function SaveToRegistry(registry: Parsed, address: string, abi: string, now: int): (r: (Parsed, Option<seq<SavedContract>>, SaveOutcome))
    ensures r.2 == MissingFields <==> Js.IsBlank(address) || Js.IsBlank(abi)
    ensures r.2 == Threw <==> !Js.IsBlank(address) && !Js.IsBlank(abi) && registry.OtherJson?
    ensures r.2 != Saved ==> r.0 == registry && r.1.None?
    ensures registry.ContractList? ==>
      var (u, outcome) := Save(registry.entries, address, abi, now);
      r == (ContractList(u.entries), u.written, outcome)
  {
    if Js.IsBlank(address) || Js.IsBlank(abi) then (registry, None, MissingFields)
    else match registry
      case OtherJson(_) => (registry, None, Threw)
      case ContractList(entries) =>
        var (u, outcome) := Save(entries, address, abi, now);
        (ContractList(u.entries), u.written, outcome)
  }

  /** Save attempts (address, ABI text, time) made one after another: the
      registry at the end, and whether any of them wrote to storage. */
  function SaveAttempts(registry: Parsed, attempts: seq<(string, string, int)>): (Parsed, bool)
    decreases |attempts|
  {
    if attempts == [] then (registry, false)
    else
      var step := SaveToRegistry(registry, attempts[0].0, attempts[0].1, attempts[0].2);
      var rest := SaveAttempts(step.0, attempts[1..]);
      (rest.0, step.1.Some? || rest.1)
  }

  /** Once the stored value loads as something other than a list, no save
      ever succeeds: every attempt with both fields filled throws, the
      registry stays as loaded, and storage is never written again. */
  lemma {:induction false} NonListRegistryNeverSaves(registry: Parsed, attempts: seq<(string, string, int)>)
    requires registry.OtherJson?
    ensures SaveAttempts(registry, attempts) == (registry, false)
    ensures forall i :: 0 <= i < |attempts| && !Js.IsBlank(attempts[i].0) && !Js.IsBlank(attempts[i].1) ==>
      SaveToRegistry(registry, attempts[i].0, attempts[i].1, attempts[i].2).2 == Threw
    decreases |attempts|
  {
    if attempts != [] {
      NonListRegistryNeverSaves(registry, attempts[1..]);
    }
  }

  /** The entry does not carry the address being deleted. */
  predicate Survives(address: string, c: SavedContract)
  {
    c.address != address
  }

  /** `deleteContract`: drops every entry with exactly this address, keeps
      the others in order, and persists the whole list. */
  function Delete(entries: seq<SavedContract>, address: string): (r: Update)
    ensures r.written == Some(r.entries)
    ensures !Known(r.entries, address)
    ensures |r.entries| <= |entries|
  {
    var kept := SeqUtil.Filter(c => Survives(address, c), entries);
    Update(kept, Some(kept))
  }

  /** What `JSON.parse` makes of the stored text: a list of saved
      contracts, or some other JSON value (`null`, a number, a string, a
      boolean or an object), which the page keeps as it is. */
  datatype Parsed = ContractList(entries: seq<SavedContract>) | OtherJson(value: Js.Value)

  /** `loadSavedContracts` at start-up: a missing or empty stored value,
      or one `JSON.parse` rejects, leaves the initial empty registry;
      any other parsed value replaces it, list or not. */
  function LoadSaved(stored: Option<string>, decode: string -> Option<Parsed>): (r: Parsed)
    ensures stored.None? || stored.value == "" ==> r == ContractList([])
    ensures stored.Some? && stored.value != "" && decode(stored.value).None? ==> r == ContractList([])
    ensures stored.Some? && stored.value != "" && decode(stored.value).Some? ==> r == decode(stored.value).value
  {
    match stored
    case None => ContractList([])
    case Some(text) =>
      if text == "" then ContractList([])
      else match decode(text)
        case None => ContractList([])
        case Some(parsed) => parsed
  }

  /** The saved-contract card: `savedContracts.length > 0` guards a
      `savedContracts.map(...)` over the rows. A list shows its entries;
      `null` has no `length` and throws; a non-empty string has a
      `length` but no `map` and throws; numbers, booleans and objects
      (modelled without properties) have no `length`, so the card is
      hidden. `Err` is the render's `TypeError`. */
  function SavedCard(r: Parsed): (v: Result<seq<SavedContract>, string>)
    ensures r.ContractList? ==> v == Ok(r.entries)
    ensures v.Err? <==> (r == OtherJson(Js.Null) || r == OtherJson(Js.Undefined)
                         || (r.OtherJson? && r.value.Str? && r.value.s != ""))
    ensures r.OtherJson? && v.Ok? ==> v.value == []
  {
    match r
    case ContractList(entries) => Ok(entries)
    case OtherJson(value) =>
      match value
      case Null => Err("TypeError")
      case Undefined => Err("TypeError")
      case Str(text) => if text == "" then Ok([]) else Err("TypeError")
      case _ => Ok([])
  }

  /** Stored `null` is valid JSON: it is loaded as the registry, and the
      page's render then throws. */
  lemma StoredNullBreaksPage(decode: string -> Option<Parsed>)
    requires decode("null") == Some(OtherJson(Js.Null))
    ensures LoadSaved(Some("null"), decode) == OtherJson(Js.Null)
    ensures SavedCard(LoadSaved(Some("null"), decode)).Err?
  {
  }

  /** Deleting keeps exactly the entries with other addresses, each as
      often as before and in the same relative order. */
  lemma DeleteKeepsOthers(entries: seq<SavedContract>, address: string, c: SavedContract)
    ensures SeqUtil.IsSubsequence(Delete(entries, address).entries, entries)
    ensures multiset(Delete(entries, address).entries)[c] ==
      if c.address == address then 0 else multiset(entries)[c]
  {
    SeqUtil.FilterIsSubsequence(c => Survives(address, c), entries);
    SeqUtil.FilterCounts(c => Survives(address, c), entries, c);
  }

  /** Deleting an address that is not saved changes nothing. */
  lemma DeleteAbsent(entries: seq<SavedContract>, address: string)
    requires !Known(entries, address)
    ensures Delete(entries, address).entries == entries
  {
    SeqUtil.FilterKeepsAll(c => Survives(address, c), entries);
  }

  /** Deleting twice is deleting once. */
  lemma DeleteIdempotent(entries: seq<SavedContract>, address: string)
    ensures var once := Delete(entries, address).entries;
      Delete(once, address).entries == once
  {
    DeleteAbsent(Delete(entries, address).entries, address);
  }

  /** Deleting the address just saved restores the list as it was. */
  lemma DeleteUndoesSave(entries: seq<SavedContract>, address: string, abi: string, now: int)
    requires Save(entries, address, abi, now).1 == Saved
    ensures Delete(Save(entries, address, abi, now).0.entries, Js.Trim(address)).entries == entries
  {
    var a := Js.Trim(address);
    var added := Save(entries, address, abi, now).0.entries;
    var last := added[|entries|];
    assert added == entries + [last];
    SeqUtil.FilterAppend(c => Survives(a, c), entries, [last]);
    DeleteAbsent(entries, a);
    assert SeqUtil.Filter(c => Survives(a, c), [last]) == [];
  }

  /** Saving keeps addresses unique. */
  lemma SavePreservesUniqueness(entries: seq<SavedContract>, address: string, abi: string, now: int)
    requires UniqueAddresses(entries)
    ensures UniqueAddresses(Save(entries, address, abi, now).0.entries)
  {
  }

  /** Saving the same address again is refused as a duplicate and changes
      nothing, whatever the ABI text. */
  lemma SaveTwiceIsDuplicate(entries: seq<SavedContract>, address: string, abi: string, abi2: string, now: int, later: int)
    requires Save(entries, address, abi, now).1 == Saved
    requires !Js.IsBlank(abi2)
    ensures var once := Save(entries, address, abi, now).0.entries;
      Save(once, address, abi2, later) == (Update(once, None), AlreadySaved)
  {
    var once := Save(entries, address, abi, now).0.entries;
    assert once[|entries|].address == Js.Trim(address);
  }

  /** A registry change: a save (address, ABI text, time) or a delete. */
  datatype Change = SaveChange(address: string, abi: string, now: int) | DeleteChange(address: string)

  /** One change: whatever it writes is exactly the new list, and a
      change that writes nothing leaves the list as it was. */
  function Apply(entries: seq<SavedContract>, c: Change): (r: Update)
    ensures r.written.Some? ==> r.written.value == r.entries
    ensures r.written.None? ==> r.entries == entries
  {
    match c
    case SaveChange(address, abi, now) => Save(entries, address, abi, now).0
    case DeleteChange(address) => Delete(entries, address)
  }

  /** The stored text and the registry after a run of changes: each change
      that writes replaces the stored text by the encoding of its list. */
  function Run(stored: Option<string>, entries: seq<SavedContract>, changes: seq<Change>,
               encode: seq<SavedContract> -> string): (Option<string>, seq<SavedContract>)
    decreases |changes|
  {
    if changes == [] then (stored, entries)
    else
      var u := Apply(entries, changes[0]);
      var stored' := if u.written.Some? then Some(encode(u.written.value)) else stored;
      Run(stored', u.entries, changes[1..], encode)
  }

  /** `JSON.parse` inverts `JSON.stringify` on saved-contract lists, and
      the encoding is never empty. */
  ghost predicate Inverts(encode: seq<SavedContract> -> string, decode: string -> Option<Parsed>)
  {
    forall l :: encode(l) != "" && decode(encode(l)) == Some(ContractList(l))
  }

  /** Storage mirrors the registry: if the registry was loaded from the
      stored text, then after any run of saves and deletes (refused saves
      included, which write nothing) reloading the stored text gives the
      current registry. */
  lemma {:induction false} StorageMirrorsRegistry(stored: Option<string>, entries: seq<SavedContract>,
                                                 changes: seq<Change>, encode: seq<SavedContract> -> string,
                                                 decode: string -> Option<Parsed>)
    requires Inverts(encode, decode)
    requires LoadSaved(stored, decode) == ContractList(entries)
    ensures LoadSaved(Run(stored, entries, changes, encode).0, decode)
      == ContractList(Run(stored, entries, changes, encode).1)
    decreases |changes|
  {
    if changes != [] {
      var u := Apply(entries, changes[0]);
      var stored' := if u.written.Some? then Some(encode(u.written.value)) else stored;
      if u.written.Some? {
        assert encode(u.entries) != "" && decode(encode(u.entries)) == Some(ContractList(u.entries));
      }
      StorageMirrorsRegistry(stored', u.entries, changes[1..], encode, decode);
    }
  }
}
