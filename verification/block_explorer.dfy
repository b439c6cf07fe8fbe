/** The block explorer: a polled list of the latest 20 blocks, a search
    box that accepts whatever `parseInt` reads as a number, and a detail
    pane that shows whichever block fetch completed last. */
module BlockExplorer {
  import opened Wrappers
  import Js
  import JsNumber

  /** How many blocks the list asks for. */
  const LIST_COUNT: nat := 20

  /** What the search box does with the text it holds. */
  datatype SearchDecision = Blank | NotANumber | Fetch(number: int)

  /** `handleSearch`'s validation: blank text is refused, then
      `parseInt(query.trim())` must not be NaN. Negative numbers and
      trailing junk pass. */
  function DecideSearch(query: string): (d: SearchDecision)
    ensures d == Blank <==> Js.IsBlank(query)
    ensures d == NotANumber <==> !Js.IsBlank(query) && JsNumber.ParseInt(Js.Trim(query)).None?
    ensures d.Fetch? ==> Some(d.number) == JsNumber.ParseInt(Js.Trim(query))
  {
    if Js.IsBlank(query) then Blank
    else match JsNumber.ParseInt(Js.Trim(query))
      case None => NotANumber
      case Some(n) => Fetch(n)
  }

  /** A decimal numeral, surrounded by any white space and optionally
      followed by text that starts with a non-digit, fetches that number:
      the sign is kept and the trailing text ignored. The one exception is
      a lone `0` followed by `x` or `X`, which `parseInt` reads as the
      start of a hexadecimal numeral (`"0x1f"` fetches 31). */
  lemma SearchReadsNumeral(lead: string, n: int, tail: string)
    requires forall i :: 0 <= i < |lead| ==> Js.IsWhiteSpace(lead[i])
    requires tail == [] || !JsNumber.IsDigit(tail[0], 10)
    requires n == 0 && tail != [] ==> tail[0] != 'x' && tail[0] != 'X'
    ensures DecideSearch(lead + JsNumber.ShowInt(n) + tail) == Fetch(n)
  {
    var kept := Js.TrimEnd(tail);
    TrimmedNumeral(lead, n, tail);
    assert kept == [] || kept[0] == tail[0];
    JsNumber.ParseIntShowInt(n, kept);
  }

  /** Trimming a padded numeral with a tail removes the padding and the
      tail's trailing white space, and nothing else. */
  lemma TrimmedNumeral(lead: string, n: int, tail: string)
    requires forall i :: 0 <= i < |lead| ==> Js.IsWhiteSpace(lead[i])
    ensures Js.Trim(lead + JsNumber.ShowInt(n) + tail) == JsNumber.ShowInt(n) + Js.TrimEnd(tail)
  {
    var shown := JsNumber.ShowInt(n);
    assert !Js.IsWhiteSpace(shown[0]) by {
      assert shown[0] == '-' || JsNumber.IsDigit(shown[0], 10);
    }
    assert !Js.IsWhiteSpace(shown[|shown| - 1]) by {
      assert JsNumber.IsDigit(shown[|shown| - 1], 10);
    }
    Js.TrimKeepsTail(lead, shown, tail);
  }

  /** Text whose first non-blank character is neither a sign nor a
      decimal digit is not a number. */
  lemma SearchRejectsNonNumeral(query: string)
    requires !Js.IsBlank(query)
    requires var t := Js.Trim(query); t[0] != '-' && t[0] != '+' && !JsNumber.IsDigit(t[0], 10)
    ensures DecideSearch(query) == NotANumber
  {
    var t := Js.Trim(query);
    JsNumber.NoLeadingSpace(t);
  }

  /** Trailing junk is ignored: `"12abc"` asks for block 12. */
  lemma SearchIgnoresSuffix()
    ensures DecideSearch("12abc") == Fetch(12)
  {
    var q := "12abc";
    assert !Js.IsWhiteSpace(q[0]) && !Js.IsWhiteSpace(q[|q| - 1]);
    Js.TrimUnchanged(q);
    JsNumber.ParseIntIgnoresSuffix();
  }

  /** A minus sign is kept: `"-5"` asks for block -5. */
  lemma SearchKeepsSign()
    ensures DecideSearch("-5") == Fetch(-5)
  {
    var q := "-5";
    assert !Js.IsWhiteSpace(q[0]) && !Js.IsWhiteSpace(q[|q| - 1]);
    Js.TrimUnchanged(q);
    JsNumber.ParseIntNegative();
  }

  /** A `0x` prefix reads hexadecimal: `"0x1f"` asks for block 31. */
  lemma SearchReadsHex()
    ensures DecideSearch("0x1f") == Fetch(31)
  {
    var q := "0x1f";
    assert !Js.IsWhiteSpace(q[0]) && !Js.IsWhiteSpace(q[|q| - 1]);
    Js.TrimUnchanged(q);
    JsNumber.ParseIntHexPrefix();
  }

  /** The notifications the page raises. */
  datatype Toast = EnterBlockNumber | InvalidBlockNumber | FetchFailed(message: string)

  /** `blocks`, `loading`, `error` belong to the list; `selected` and
      `blockLoading` to the detail pane; `requests` logs the block numbers
      asked for, in order. */
  datatype ExplorerState<B, D> = ExplorerState(
    blocks: seq<B>, loading: bool, listFailed: bool,
    selected: Option<D>, blockLoading: bool,
    toast: Option<Toast>, requests: seq<int>)

  function Initial<B, D>(): ExplorerState<B, D>
  {
    ExplorerState([], true, false, None, false, None, [])
  }

  /** User actions and fetch completions, in the order they happen. A
      detail completion carries no trace of which request it answers. */
  datatype ExplorerEvent<B, D> =
    | ListLoaded(blocks: seq<B>) | ListFailed
    | Search(query: string) | Select(number: int)
    | DetailLoaded(detail: D) | DetailFailed(message: string)

  function Step<B, D>(st: ExplorerState<B, D>, e: ExplorerEvent<B, D>): (r: ExplorerState<B, D>)
    ensures e.Search? && !DecideSearch(e.query).Fetch? ==> r == st.(toast := r.toast) && r.toast.Some?
    ensures e.Search? && DecideSearch(e.query).Fetch? ==>
      r == st.(blockLoading := true, requests := st.requests + [DecideSearch(e.query).number])
    ensures e.Select? ==> r == st.(blockLoading := true, requests := st.requests + [e.number])
    ensures e.DetailLoaded? ==> r == st.(selected := Some(e.detail), blockLoading := false)
    ensures e.DetailFailed? ==> r == st.(toast := Some(FetchFailed(e.message)), blockLoading := false)
    ensures e.ListLoaded? ==> r == st.(blocks := e.blocks, loading := false)
    ensures e.ListFailed? ==> r == st.(listFailed := true, loading := false)
    ensures !e.ListLoaded? && !e.ListFailed? ==>
      r.blocks == st.blocks && r.loading == st.loading && r.listFailed == st.listFailed
    ensures !e.DetailLoaded? ==> r.selected == st.selected
  {
    match e
    case ListLoaded(bs) => st.(blocks := bs, loading := false)
    case ListFailed => st.(listFailed := true, loading := false)
    case Search(q) =>
      (match DecideSearch(q)
       case Blank => st.(toast := Some(EnterBlockNumber))
       case NotANumber => st.(toast := Some(InvalidBlockNumber))
       case Fetch(n) => st.(blockLoading := true, requests := st.requests + [n]))
    case Select(n) => st.(blockLoading := true, requests := st.requests + [n])
    case DetailLoaded(d) => st.(selected := Some(d), blockLoading := false)
    case DetailFailed(m) => st.(toast := Some(FetchFailed(m)), blockLoading := false)
  }

  function Replay<B, D>(events: seq<ExplorerEvent<B, D>>): ExplorerState<B, D>
  {
    if events == [] then Initial() else Step(Replay(events[..|events| - 1]), events[|events| - 1])
  }

  /** The detail of the most recent detail completion. */
  function LastDetail<B, D>(events: seq<ExplorerEvent<B, D>>): Option<D>
  {
    if events == [] then None
    else if events[|events| - 1].DetailLoaded? then Some(events[|events| - 1].detail)
    else LastDetail(events[..|events| - 1])
  }

  /** The list of the most recent successful list fetch. */
  function LastList<B, D>(events: seq<ExplorerEvent<B, D>>): Option<seq<B>>
  {
    if events == [] then None
    else if events[|events| - 1].ListLoaded? then Some(events[|events| - 1].blocks)
    else LastList(events[..|events| - 1])
  }

  /** After any interleaving the pane shows the block whose fetch
      completed last, not the one asked for last. */
  lemma {:induction false} SelectedIsLastCompleted<B, D>(events: seq<ExplorerEvent<B, D>>)
    ensures Replay(events).selected == LastDetail(events)
  {
    if events != [] {
      SelectedIsLastCompleted(events[..|events| - 1]);
    }
  }

  /** The list is the latest fetched one, a list failure is never
      forgotten, and the page spinner is gone exactly when some list fetch
      has completed. */
  lemma {:induction false} ListReplay<B, D>(events: seq<ExplorerEvent<B, D>>)
    ensures Replay(events).blocks == GetOr(LastList(events), [])
    ensures Replay(events).listFailed <==> exists i :: 0 <= i < |events| && events[i].ListFailed?
    ensures !Replay(events).loading <==>
      exists i :: 0 <= i < |events| && (events[i].ListLoaded? || events[i].ListFailed?)
  {
    if events != [] {
      var init := events[..|events| - 1];
      var last := events[|events| - 1];
      ListReplay(init);
      assert Replay(events) == Step(Replay(init), last);
      assert LastList(events) == if last.ListLoaded? then Some(last.blocks) else LastList(init);
      assert forall i :: 0 <= i < |init| ==> init[i] == events[i];
      assert (exists i :: 0 <= i < |events| && events[i].ListFailed?) <==>
        (exists i :: 0 <= i < |init| && init[i].ListFailed?) || last.ListFailed?;
      assert (exists i :: 0 <= i < |events| && (events[i].ListLoaded? || events[i].ListFailed?)) <==>
        (exists i :: 0 <= i < |init| && (init[i].ListLoaded? || init[i].ListFailed?))
        || last.ListLoaded? || last.ListFailed?;
    }
  }

  /** Selecting block `a` and then block `b`, with `b`'s fetch finishing
      first: the pane ends on whichever completion arrives last, here
      `a`'s detail, although `b` was asked for last. Nothing ties a
      completion to the request it answers, so this is
      `SelectedIsLastCompleted` for this order of arrivals. */
  lemma StaleResponseWins<B, D>(history: seq<ExplorerEvent<B, D>>, a: int, b: int, da: D, db: D)
    ensures var st := Replay(history + [Select(a), Select(b), DetailLoaded(db), DetailLoaded(da)]);
      st.selected == Some(da) && st.requests == Replay(history).requests + [a, b]
  {
    var s0 := Replay(history);
    var e1 := history + [Select(a)];
    var e2 := e1 + [Select(b)];
    var e3 := e2 + [DetailLoaded(db)];
    var e4 := e3 + [DetailLoaded(da)];
    assert e1[..|e1| - 1] == history && e2[..|e2| - 1] == e1;
    assert e3[..|e3| - 1] == e2 && e4[..|e4| - 1] == e3;
    assert Replay(e2).requests == s0.requests + [a] + [b];
    assert e4 == history + [Select(a), Select(b), DetailLoaded(db), DetailLoaded(da)];
  }

  /** The detail spinner is shared: the first of two overlapping fetches to
      finish turns it off while the other is still outstanding, and the
      pane shows that first arrival, whichever request it answers. */
  lemma SpinnerClearsEarly<B, D>(history: seq<ExplorerEvent<B, D>>, a: int, b: int, db: D)
    ensures var st := Replay(history + [Select(a), Select(b), DetailLoaded(db)]);
      !st.blockLoading && st.selected == Some(db) && st.requests == Replay(history).requests + [a, b]
  {
    var s0 := Replay(history);
    var e1 := history + [Select(a)];
    var e2 := e1 + [Select(b)];
    var e3 := e2 + [DetailLoaded(db)];
    assert e1[..|e1| - 1] == history && e2[..|e2| - 1] == e1 && e3[..|e3| - 1] == e2;
    assert Replay(e2).requests == s0.requests + [a] + [b];
    assert e3 == history + [Select(a), Select(b), DetailLoaded(db)];
  }

  /** What the page renders. */
  datatype View = Spinner | ErrorPage | Content

  function Render<B, D>(st: ExplorerState<B, D>): (v: View)
    ensures v == Spinner <==> st.loading
    ensures v == ErrorPage <==> !st.loading && st.listFailed
  {
    if st.loading then Spinner else if st.listFailed then ErrorPage else Content
  }
}
