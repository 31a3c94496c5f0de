/** internal/cli/interactive.go: the key-handling state machine of the
    interactive mode. The Bubble Tea model is a value that every handler
    returns updated; the command a handler asks the runtime to perform next
    is returned beside it. Rendering, the spinner and the progress bar's
    animation are not modelled; of the progress bar only its width is kept. */
module CliInteractive {
  import opened Common
  import opened Text
  import opened Scanner
  import opened Host
  import opened Config
  import opened ProviderBase
  import opened Registry

  datatype State = Selection | Confirmation | Cleaning | Done

  /** `providerItem`: a provider as listed, its scan, and its clean once
      done (`cleanResult` set). */
  datatype Item = Item(provider: Option<Provider>, cleanResult: Option<CleanResult>, cleanErr: Option<Error>,
                       name: string, currentFmt: string, maxFmt: string, errMsg: string,
                       current: int, max: int, overLimit: bool, available: bool)

  /** `model`. `selected` is the key set of the `selected` map;
      `progressWidth` is unset until the first resize, while the bar keeps
      its own default. */
  datatype Model = Model(selected: set<int>, items: seq<Item>, totalFreed: int, cursor: int, cleanIdx: int,
                         width: int, height: int, progressWidth: Option<int>, state: State,
                         dryRun: bool, smartMode: bool, quitting: bool)

  /** What a handler asks the runtime to do next. */
  datatype Cmd = NoCmd | Quit | CleanProvider(idx: int)

  /** The messages `Update` handles; spinner ticks and progress frames only
      animate and are `Other`. */
  datatype Msg =
    | Key(key: string)
    | WindowSize(width: int, height: int)
    | ScanResult(item: Item, idx: int)
    | CleanResultMsg(err: Option<Error>, result: CleanResult, idx: int)
    | Other

  function BlankItem(name: string): Item
  {
    Item(None, None, None, name, "", "", "", 0, 0, false, false)
  }

  /** `newModel`: one unscanned item per name, nothing selected, an 80 by
      24 window. */
  function NewModel(names: seq<string>, dryRun: bool, smart: bool): (m: Model)
    ensures |m.items| == |names| && forall i :: 0 <= i < |names| ==> m.items[i].name == names[i] && !m.items[i].available
    ensures m.state == Selection && m.selected == {} && m.cursor == 0 && m.totalFreed == 0
    ensures m.dryRun == dryRun && m.smartMode == smart && !m.quitting
  {
    Model({}, seq(|names|, i requires 0 <= i < |names| => BlankItem(names[i])), 0, 0, 0, 80, 24, None,
          Selection, dryRun, smart, false)
  }

  /** The cursor stays on an item and only items are selected. */
  predicate Valid(m: Model)
  {
    && 0 <= m.cursor
    && (|m.items| == 0 ==> m.cursor == 0)
    && (|m.items| > 0 ==> m.cursor < |m.items|)
    && (forall i :: i in m.selected ==> 0 <= i < |m.items|)
  }

  /** The indices of the available items. */
  function AvailableIndices(items: seq<Item>): (r: set<int>)
    ensures forall i :: i in r <==> 0 <= i < |items| && items[i].available
  {
    set i | 0 <= i < |items| && items[i].available
  }

  /** The indices of the available items over their limit. */
  function OverLimitIndices(items: seq<Item>): (r: set<int>)
    ensures forall i :: i in r <==> 0 <= i < |items| && items[i].available && items[i].overLimit
  {
    set i | 0 <= i < |items| && items[i].available && items[i].overLimit
  }

  // ---------------------------------------------------------------------
  // Selection

  /** Adds to `selected` every available item, or with `overOnly` every
      available item over its limit (the loops of "a" and "o"). */
  method MarkAvailable(items: seq<Item>, selected: set<int>, overOnly: bool) returns (selected': set<int>)
    ensures overOnly ==> selected' == selected + OverLimitIndices(items)
    ensures !overOnly ==> selected' == selected + AvailableIndices(items)
  {
    selected' := selected;
    for i := 0 to |items|
      invariant overOnly ==> selected' == selected + set j | 0 <= j < i && items[j].available && items[j].overLimit
      invariant !overOnly ==> selected' == selected + set j | 0 <= j < i && items[j].available
    {
      if items[i].available && (!overOnly || items[i].overLimit) {
        selected' := selected' + {i};
      }
    }
  }

  /** The cases of `handleSelectionKey`'s switch on the key's name. */
  datatype SelectionAction =
    | QuitApp | CursorDown | CursorUp | ToggleItem | SelectAvailable | SelectNone | SelectOverLimit | ConfirmSelection
    | IgnoreKey

  function SelectionActionOf(key: string): SelectionAction
  {
    if key == "q" || key == "esc" || key == "ctrl+c" then QuitApp
    else if key == "j" || key == "down" then CursorDown
    else if key == "k" || key == "up" then CursorUp
    else if key == " " then ToggleItem
    else if key == "a" then SelectAvailable
    else if key == "n" then SelectNone
    else if key == "o" then SelectOverLimit
    else if key == "enter" then ConfirmSelection
    else IgnoreKey
  }

  /** What `handleSelectionKey` returns for the case its key falls in.
      Space reads the item under the cursor, which the program only ever
      does with at least one item listed. */
  function Select(m: Model, action: SelectionAction): (Model, Cmd)
    requires action == ToggleItem ==> 0 <= m.cursor < |m.items|
  {
    match action
    case QuitApp => (m.(quitting := true), Quit)
    case CursorDown => (if m.cursor < |m.items| - 1 then m.(cursor := m.cursor + 1) else m, NoCmd)
    case CursorUp => (if m.cursor > 0 then m.(cursor := m.cursor - 1) else m, NoCmd)
    case ToggleItem =>
      var c := m.cursor;
      (if !m.items[c].available then m
       else if c in m.selected then m.(selected := m.selected - {c})
       else m.(selected := m.selected + {c}), NoCmd)
    case SelectAvailable => (m.(selected := m.selected + AvailableIndices(m.items)), NoCmd)
    case SelectNone => (m.(selected := {}), NoCmd)
    case SelectOverLimit => (m.(selected := OverLimitIndices(m.items)), NoCmd)
    case ConfirmSelection => (if |m.selected| > 0 then m.(state := Confirmation) else m, NoCmd)
    case IgnoreKey => (m, NoCmd)
  }

  /** `handleSelectionKey` (interactive.go:251-301), its "a" and "o" loops
      included. */
  method HandleSelectionKey(m: Model, key: string) returns (m': Model, cmd: Cmd)
    requires key == " " ==> 0 <= m.cursor < |m.items|
    ensures (m', cmd) == Select(m, SelectionActionOf(key))
  {
    m', cmd := m, NoCmd;
    match SelectionActionOf(key)
    case QuitApp =>
      m', cmd := m.(quitting := true), Quit;
    case CursorDown =>
      if m.cursor < |m.items| - 1 {
        m' := m.(cursor := m.cursor + 1);
      }
    case CursorUp =>
      if m.cursor > 0 {
        m' := m.(cursor := m.cursor - 1);
      }
    case ToggleItem =>
      if m.items[m.cursor].available {
        if m.cursor in m.selected {
          m' := m.(selected := m.selected - {m.cursor});
        } else {
          m' := m.(selected := m.selected + {m.cursor});
        }
      }
    case SelectAvailable =>
      var selected := MarkAvailable(m.items, m.selected, false);
      m' := m.(selected := selected);
    case SelectNone =>
      m' := m.(selected := {});
    case SelectOverLimit =>
      var selected := MarkAvailable(m.items, {}, true);
      assert selected == OverLimitIndices(m.items);
      m' := m.(selected := selected);
    case ConfirmSelection =>
      if |m.selected| > 0 {
        m' := m.(state := Confirmation);
      }
    case IgnoreKey =>
  }

  /** Every selection key keeps the cursor on an item and selects only items. */
  lemma SelectKeepsValid(m: Model, action: SelectionAction)
    requires action == ToggleItem ==> 0 <= m.cursor < |m.items|
    requires Valid(m)
    ensures Valid(Select(m, action).0)
  {
    var m' := Select(m, action).0;
    match action
    case CursorDown =>
      assert m' == m.(cursor := m'.cursor) && m.cursor <= m'.cursor && (m'.cursor != m.cursor ==> m'.cursor < |m.items|);
    case CursorUp =>
      assert m' == m.(cursor := m'.cursor) && 0 <= m'.cursor <= m.cursor;
    case ToggleItem =>
      assert m' == m.(selected := m'.selected) && m'.selected <= m.selected + {m.cursor};
    case SelectAvailable =>
      assert m' == m.(selected := m.selected + AvailableIndices(m.items));
    case SelectOverLimit =>
      assert m' == m.(selected := OverLimitIndices(m.items));
    case _ =>
  }

  /** Only q, esc and ctrl+c quit; no selection key touches the items or the
      modes; the cursor moves by one and only on j/down or k/up; the
      selection changes only on space, "a", "n" or "o"; and the state changes
      only on enter over a nonempty selection, to confirmation. */
  lemma SelectFrame(m: Model, action: SelectionAction)
    requires action == ToggleItem ==> 0 <= m.cursor < |m.items|
    ensures var (m', cmd) := Select(m, action);
      && (cmd == Quit <==> action == QuitApp) && (cmd != Quit ==> cmd == NoCmd)
      && (m'.quitting != m.quitting ==> action == QuitApp)
      && m'.items == m.items && m'.dryRun == m.dryRun && m'.smartMode == m.smartMode
      && m'.totalFreed == m.totalFreed && m'.cleanIdx == m.cleanIdx
      && (m'.cursor != m.cursor ==> (action == CursorDown || action == CursorUp) && (m'.cursor - m.cursor == 1 || m.cursor - m'.cursor == 1))
      && (m'.selected != m.selected ==>
            action == ToggleItem || action == SelectAvailable || action == SelectNone || action == SelectOverLimit)
      && (m'.state != m.state ==> action == ConfirmSelection && |m.selected| > 0 && m'.state == Confirmation)
  {
  }

  /** Space twice over an available item gives back the selection. */
  lemma ToggleTwice(m: Model)
    requires 0 <= m.cursor < |m.items|
    ensures Select(Select(m, ToggleItem).0, ToggleItem).0 == m
  {
    var once := Select(m, ToggleItem).0;
    assert once.cursor == m.cursor && once.items == m.items;
    if m.items[m.cursor].available {
      if m.cursor in m.selected {
        assert once.selected + {m.cursor} == m.selected;
      } else {
        assert once.selected - {m.cursor} == m.selected;
      }
    }
  }

  /** "a" leaves every available item selected; "o" selects exactly the
      available items over their limit; "n" selects nothing. */
  lemma SelectionKeysSelect(m: Model)
    ensures forall i :: 0 <= i < |m.items| && m.items[i].available ==> i in Select(m, SelectAvailable).0.selected
    ensures forall i :: i in Select(m, SelectOverLimit).0.selected <==>
      0 <= i < |m.items| && m.items[i].available && m.items[i].overLimit
    ensures Select(m, SelectNone).0.selected == {}
  {
  }

  /** The switch's case labels: which keys fall in which case. */
  lemma SelectionKeyNames(key: string)
    ensures SelectionActionOf(key) == QuitApp <==> key == "q" || key == "esc" || key == "ctrl+c"
    ensures SelectionActionOf(key) == ToggleItem <==> key == " "
    ensures SelectionActionOf(key) == ConfirmSelection <==> key == "enter"
    ensures SelectionActionOf(key) == IgnoreKey <==>
      !(key in {"q", "esc", "ctrl+c", "j", "down", "k", "up", " ", "a", "n", "o", "enter"})
  {
  }

  // ---------------------------------------------------------------------
  // Cleaning, one selected provider after another

  /** The first selected index after `i` and below `n`. */
  function NextIndex(selected: set<int>, i: int, n: int): (r: Option<int>)
    decreases n - i
  {
    if i + 1 >= n then None
    else if i + 1 in selected then Some(i + 1)
    else NextIndex(selected, i + 1, n)
  }

  /** `NextIndex` finds the least selected index in between, and nothing
      exactly when there is none. */
  lemma {:induction false} NextIndexIsLeast(selected: set<int>, i: int, n: int)
    ensures NextIndex(selected, i, n).Some? ==>
      var j := NextIndex(selected, i, n).value;
      i < j < n && j in selected && forall k :: i < k < j ==> k !in selected
    ensures NextIndex(selected, i, n).None? <==> forall k :: i < k < n ==> k !in selected
    decreases n - i
  {
    if i + 1 < n && i + 1 !in selected {
      NextIndexIsLeast(selected, i + 1, n);
    }
  }

  /** Where `cleanNext` leaves the model: `cleanIdx` on the next selected
      item with the command to clean it, or, past the last item, the done
      state and no command. */
  function Advanced(m: Model): (Model, Cmd)
  {
    match NextIndex(m.selected, m.cleanIdx, |m.items|)
    case Some(j) => (m.(cleanIdx := j), CleanProvider(j))
    case None => (m.(cleanIdx := if m.cleanIdx + 1 > |m.items| then m.cleanIdx + 1 else |m.items|, state := Done), NoCmd)
  }

  /** `cleanNext` moves on to the least selected item after `cleanIdx` and
      asks for its clean, or, with none left, finishes past the last item;
      nothing but the cleaning index and the state changes. */
  lemma AdvanceToNextSelected(m: Model)
    ensures var (m', cmd) := Advanced(m);
      && m' == m.(cleanIdx := m'.cleanIdx, state := m'.state)
      && ((exists k :: m.cleanIdx < k < |m.items| && k in m.selected) ==>
            && m.cleanIdx < m'.cleanIdx < |m.items| && m'.cleanIdx in m.selected && m'.state == m.state
            && cmd == CleanProvider(m'.cleanIdx)
            && forall k :: m.cleanIdx < k < m'.cleanIdx ==> k !in m.selected)
      && (!(exists k :: m.cleanIdx < k < |m.items| && k in m.selected) ==>
            m'.state == Done && cmd == NoCmd && m'.cleanIdx >= |m.items|)
  {
    NextIndexIsLeast(m.selected, m.cleanIdx, |m.items|);
  }

  /** `cleanNext`'s loop (interactive.go:332-344). */
  method CleanNext(m: Model) returns (m': Model, cmd: Cmd)
    ensures (m', cmd) == Advanced(m)
  {
    var idx := m.cleanIdx;
    while true
      invariant m.cleanIdx <= idx
      invariant idx < |m.items| ==> NextIndex(m.selected, m.cleanIdx, |m.items|) == NextIndex(m.selected, idx, |m.items|)
      invariant idx >= |m.items| ==> idx == m.cleanIdx && NextIndex(m.selected, m.cleanIdx, |m.items|).None?
      decreases |m.items| - idx
    {
      idx := idx + 1;
      if idx >= |m.items| {
        return m.(cleanIdx := idx, state := Done), NoCmd;
      }
      if idx in m.selected {
        break;
      }
    }
    return m.(cleanIdx := idx), CleanProvider(idx);
  }

  /** The indices `cleanNext` visits one after another from `i`. */
  function Visits(selected: set<int>, i: int, n: int): seq<int>
    decreases n - i
  {
    match NextIndex(selected, i, n)
    case None => []
    case Some(j) => if j <= i then [] else [j] + Visits(selected, j, n)
  }

  /** From the start of a clean, the selected items are visited each once,
      in increasing order, and nothing else is. */
  lemma {:induction false} VisitsExactlySelected(selected: set<int>, i: int, n: int)
    ensures forall k :: k in Visits(selected, i, n) <==> i < k < n && k in selected
    ensures forall a, b :: 0 <= a < b < |Visits(selected, i, n)| ==> Visits(selected, i, n)[a] < Visits(selected, i, n)[b]
    decreases n - i
  {
    NextIndexIsLeast(selected, i, n);
    match NextIndex(selected, i, n)
    case None =>
    case Some(j) =>
      VisitsExactlySelected(selected, j, n);
      var rest := Visits(selected, j, n);
      assert Visits(selected, i, n) == [j] + rest;
      forall b | 0 <= b < |rest|
        ensures j < rest[b]
      {
        assert rest[b] in rest;
      }
  }

  // ---------------------------------------------------------------------
  // Confirmation, done, and the dispatch on state

  /** What `handleConfirmationKey` returns: "y" starts cleaning from before
      the first item; "n" goes back; "f" and "s" pick the mode. */
  function Confirm(m: Model, key: string): (Model, Cmd)
  {
    if key == "y" || key == "Y" then Advanced(m.(state := Cleaning, cleanIdx := -1))
    else if key == "n" || key == "N" || key == "esc" || key == "ctrl+c" then (m.(state := Selection), NoCmd)
    else if key == "f" || key == "F" then (m.(smartMode := false), NoCmd)
    else if key == "s" || key == "S" then (m.(smartMode := true), NoCmd)
    else (m, NoCmd)
  }

  /** "y" cleans the least selected item first (or finishes at once when
      nothing is selected) and keeps the selection and the modes; "n" and
      the escape keys go back to selection; "f" and "s" only pick the mode;
      every other key changes nothing. */
  lemma ConfirmationKeys(m: Model, key: string)
    requires forall i :: i in m.selected ==> 0 <= i < |m.items|
    ensures key == "y" || key == "Y" ==>
      var (m', cmd) := Confirm(m, key);
      && m'.selected == m.selected && m'.items == m.items && m'.smartMode == m.smartMode && m'.dryRun == m.dryRun
      && (m.selected != {} ==>
            && m'.state == Cleaning && m'.cleanIdx in m.selected && cmd == CleanProvider(m'.cleanIdx)
            && forall k :: 0 <= k < m'.cleanIdx ==> k !in m.selected)
      && (m.selected == {} ==> m'.state == Done && cmd == NoCmd)
    ensures key in {"n", "N", "esc", "ctrl+c"} ==> Confirm(m, key) == (m.(state := Selection), NoCmd)
    ensures key in {"f", "F"} ==> Confirm(m, key) == (m.(smartMode := false), NoCmd)
    ensures key in {"s", "S"} ==> Confirm(m, key) == (m.(smartMode := true), NoCmd)
    ensures !(key in {"y", "Y", "n", "N", "esc", "ctrl+c", "f", "F", "s", "S"}) ==> Confirm(m, key) == (m, NoCmd)
  {
    NextIndexIsLeast(m.selected, -1, |m.items|);
    if m.selected != {} {
      if forall k :: k !in m.selected {
        assert false;
      }
      var k :| k in m.selected;
      assert -1 < k < |m.items|;
    }
  }

  /** `handleConfirmationKey` (interactive.go:303-321). */
  method HandleConfirmationKey(m: Model, key: string) returns (m': Model, cmd: Cmd)
    ensures (m', cmd) == Confirm(m, key)
  {
    if key == "y" || key == "Y" {
      m', cmd := CleanNext(m.(state := Cleaning, cleanIdx := -1));
    } else if key == "n" || key == "N" || key == "esc" || key == "ctrl+c" {
      m', cmd := m.(state := Selection), NoCmd;
    } else if key == "f" || key == "F" {
      m', cmd := m.(smartMode := false), NoCmd;
    } else if key == "s" || key == "S" {
      m', cmd := m.(smartMode := true), NoCmd;
    } else {
      m', cmd := m, NoCmd;
    }
  }

  /** `handleDoneKey`: only "enter", "q", "esc" and "ctrl+c" quit. */
  function HandleDoneKey(m: Model, key: string): (r: (Model, Cmd))
    ensures key in {"enter", "q", "esc", "ctrl+c"} ==> r == (m.(quitting := true), Quit)
    ensures !(key in {"enter", "q", "esc", "ctrl+c"}) ==> r == (m, NoCmd)
  {
    if key == "enter" || key == "q" || key == "esc" || key == "ctrl+c" then (m.(quitting := true), Quit) else (m, NoCmd)
  }

  /** `handleKey`: each state's keys go to its handler; keys pressed while
      cleaning change nothing. */
  method HandleKey(m: Model, key: string) returns (m': Model, cmd: Cmd)
    requires m.state == Selection && key == " " ==> 0 <= m.cursor < |m.items|
    ensures m.state == Selection ==> (m', cmd) == Select(m, SelectionActionOf(key))
    ensures m.state == Confirmation ==> (m', cmd) == Confirm(m, key)
    ensures m.state == Done ==> (m', cmd) == HandleDoneKey(m, key)
    ensures m.state == Cleaning ==> m' == m && cmd == NoCmd
    ensures m.state == Selection && Valid(m) ==> Valid(m')
  {
    match m.state
    case Selection =>
      m', cmd := HandleSelectionKey(m, key);
      if Valid(m) {
        SelectKeepsValid(m, SelectionActionOf(key));
      }
    case Confirmation =>
      m', cmd := HandleConfirmationKey(m, key);
    case Done =>
      var r := HandleDoneKey(m, key);
      m', cmd := r.0, r.1;
    case Cleaning =>
      m', cmd := m, NoCmd;
  }

  /** `Update`, for the messages that change the model. A scan or clean
      result carries the index of an item the program listed. */
  method Update(m: Model, msg: Msg) returns (m': Model, cmd: Cmd)
    requires msg.Key? && m.state == Selection && msg.key == " " ==> 0 <= m.cursor < |m.items|
    requires msg.ScanResult? ==> 0 <= msg.idx < |m.items|
    requires msg.CleanResultMsg? ==> 0 <= msg.idx < |m.items|
    ensures msg.Key? && m.state == Selection ==> (m', cmd) == Select(m, SelectionActionOf(msg.key))
    ensures msg.Key? && m.state == Confirmation ==> (m', cmd) == Confirm(m, msg.key)
    ensures msg.Key? && m.state == Done ==> (m', cmd) == HandleDoneKey(m, msg.key)
    ensures msg.Key? && m.state == Cleaning ==> m' == m && cmd == NoCmd
    ensures msg.WindowSize? ==>
      m' == m.(width := msg.width, height := msg.height,
               progressWidth := Some(if msg.width - 10 < 1 then 1 else msg.width - 10))
      && cmd == NoCmd
    ensures msg.ScanResult? ==> m' == m.(items := m.items[msg.idx := msg.item]) && cmd == NoCmd
    ensures msg.CleanResultMsg? ==>
      var item := m.items[msg.idx].(cleanResult := Some(msg.result), cleanErr := msg.err);
      var freed := m.totalFreed + (if msg.err.None? then msg.result.bytesCleaned else 0);
      (m', cmd) == Advanced(m.(items := m.items[msg.idx := item], totalFreed := freed))
    ensures msg.Other? ==> m' == m && cmd == NoCmd
  {
    match msg
    case Key(key) =>
      m', cmd := HandleKey(m, key);
    case WindowSize(w, h) =>
      var progressWidth := w - 10;
      if progressWidth < 1 {
        progressWidth := 1;
      }
      m', cmd := m.(width := w, height := h, progressWidth := Some(progressWidth)), NoCmd;
    case ScanResult(item, idx) =>
      m', cmd := m.(items := m.items[idx := item]), NoCmd;
    case CleanResultMsg(err, result, idx) =>
      var item := m.items[idx].(cleanResult := Some(result), cleanErr := err);
      var next := m.(items := m.items[idx := item]);
      if err.None? {
        next := next.(totalFreed := next.totalFreed + result.bytesCleaned);
      }
      m', cmd := CleanNext(next);
    case Other =>
      m', cmd := m, NoCmd;
  }

  /** Over a run of clean results, `totalFreed` grows by exactly the bytes
      of the ones without an error. */
  function FreedBy(results: seq<(Option<Error>, CleanResult)>): int
  {
    if results == [] then 0
    else
      var last := results[|results| - 1];
      FreedBy(results[..|results| - 1]) + (if last.0.None? then last.1.bytesCleaned else 0)
  }

  /** With no negative byte counts, failed cleans never decrease the total
      and it is at least what any successful one freed. */
  lemma {:induction false} FreedByCoversEach(results: seq<(Option<Error>, CleanResult)>, k: nat)
    requires forall i :: 0 <= i < |results| ==> results[i].1.bytesCleaned >= 0
    requires k < |results| && results[k].0.None?
    ensures FreedBy(results) >= results[k].1.bytesCleaned
  {
    var front := results[..|results| - 1];
    if k < |front| {
      FreedByCoversEach(front, k);
    } else {
      FreedByNonNegative(front);
    }
  }

  lemma {:induction false} FreedByNonNegative(results: seq<(Option<Error>, CleanResult)>)
    requires forall i :: 0 <= i < |results| ==> results[i].1.bytesCleaned >= 0
    ensures FreedBy(results) >= 0
  {
    if results != [] {
      FreedByNonNegative(results[..|results| - 1]);
    }
  }

  // ---------------------------------------------------------------------
  // Scanning and cleaning one item

  /** What `scanProviderCmd` reports for one name: a load error, an
      unavailable provider, or its size against its limit. The base record's
      `CurrentSize` never fails, so the "scan error" branch is never taken. */
  function ScanItem(name: string, c: Config, host: Host): (item: Item)
    ensures item.name == name
    ensures item.available <==> LoadProvider(name, c, host).Ok? && Available(LoadProvider(name, c, host).value, host)
    ensures item.errMsg == "" <==> item.available
    ensures item.available ==>
      var b := BaseOf(LoadProvider(name, c, host).value);
      var current := SizeOf(ScanEvents(host.fs, b.paths));
      item.current == current && item.max == b.maxSize && (item.overLimit <==> current > b.maxSize)
    ensures !item.available ==> !item.overLimit
  {
    var blank := BlankItem(name);
    match LoadProvider(name, c, host)
    case Err(e) => blank.(errMsg := "load error: " + ErrorText(e))
    case Ok(p) =>
      if !Available(p, host) then blank.(provider := Some(p), errMsg := "unavailable")
      else
        var b := BaseOf(p);
        var current := SizeOf(ScanEvents(host.fs, b.paths));
        blank.(provider := Some(p), available := true, current := current, currentFmt := FormatSize(host.fmt, current),
               max := b.maxSize, maxFmt := FormatSize(host.fmt, b.maxSize), overLimit := current > b.maxSize)
  }

  /** `cleanProviderCmd`: an item whose provider never loaded fails with
      "provider not loaded"; otherwise the provider cleans in the chosen
      mode. */
  method CleanProviderCmd(m: Model, idx: int, host: Host, ctx: Context) returns (msg: Msg)
    requires 0 <= idx < |m.items|
    ensures msg.CleanResultMsg? && msg.idx == idx
    ensures m.items[idx].provider.None? ==> msg.err == Some(Message("provider not loaded")) && msg.result == NoResult
    ensures m.items[idx].provider.Some? ==>
      CleanAllows(m.items[idx].provider.value, host,
                  CleanOptions(m.dryRun, if m.smartMode then Smart else Full), ctx, (msg.result, msg.err))
  {
    if m.items[idx].provider.None? {
      return CleanResultMsg(Some(Message("provider not loaded")), NoResult, idx);
    }
    var mode := if m.smartMode then Smart else Full;
    var result, err := Registry.Clean(m.items[idx].provider.value, host, CleanOptions(m.dryRun, mode), ctx);
    return CleanResultMsg(err, result, idx);
  }

  // ---------------------------------------------------------------------
  // selectedNames

  /** The names of the selected items among the first `n`, in index order. */
  function NamesUpTo(items: seq<Item>, selected: set<int>, n: nat): seq<string>
    requires n <= |items|
  {
    if n == 0 then [] else NamesUpTo(items, selected, n - 1) + (if n - 1 in selected then [items[n - 1].name] else [])
  }

  /** `selectedNames`. */
  method SelectedNames(m: Model) returns (names: seq<string>)
    ensures names == NamesUpTo(m.items, m.selected, |m.items|)
  {
    names := [];
    for i := 0 to |m.items|
      invariant names == NamesUpTo(m.items, m.selected, i)
    {
      if i in m.selected {
        names := names + [m.items[i].name];
      }
    }
  }

  /** The selected indices below `n`. */
  function SelectedBelow(selected: set<int>, n: nat): set<int>
  {
    set i | i in selected && 0 <= i < n
  }

  /** One name per selected item: in a valid model the list is as long as
      the selection the confirmation counts. */
  lemma {:induction false} NamesUpToCount(items: seq<Item>, selected: set<int>, n: nat)
    requires n <= |items|
    ensures |NamesUpTo(items, selected, n)| == |SelectedBelow(selected, n)|
  {
    if n == 0 {
      assert SelectedBelow(selected, 0) == {};
    } else {
      NamesUpToCount(items, selected, n - 1);
      if n - 1 in selected {
        assert SelectedBelow(selected, n) == SelectedBelow(selected, n - 1) + {n - 1};
      } else {
        assert SelectedBelow(selected, n) == SelectedBelow(selected, n - 1);
      }
    }
  }

  lemma SelectedNamesCount(m: Model)
    requires Valid(m)
    ensures |NamesUpTo(m.items, m.selected, |m.items|)| == |m.selected|
  {
    NamesUpToCount(m.items, m.selected, |m.items|);
    assert SelectedBelow(m.selected, |m.items|) == m.selected;
  }
}
