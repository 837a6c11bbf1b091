/** Keyboard navigation and scrolling of the "@"-mention model picker (SelectAtActionModel.tsx):
    a wrap-around cursor over the flattened candidate list, Enter to mention the row under the
    cursor, Escape to close, and the scroll adjustment that keeps the cursor row in view. */
module ModelPicker {

  import opened Wrappers
  import opened Keys
  import ModelCatalog

  type Model = ModelCatalog.Model

  /** The `isShow` prop and the `selectedIndex` state; -1 means no row is selected. */
  datatype PickerState = PickerState(shown: bool, cursor: int)

  /** What one key press does: the next state, the model mentioned (Enter), and the index
      handed to `scrollToItem` (arrow keys). */
  datatype KeyOutcome = KeyOutcome(state: PickerState, mention: Option<Model>, scrollTo: Option<int>)

  /** The state the component starts in for a given `isShow`. */
  function Initial(shown: bool): PickerState
  {
    PickerState(shown, -1)
  }

  /** ArrowDown: the next row, wrapping from the last row (or beyond) to the first. */
  function NextIndex(i: int, n: nat): (r: int)
    ensures 0 < n && -1 <= i < n ==> 0 <= r < n && r == (i + 1) % n
    ensures i == -1 ==> r == 0
  {
    if i < n - 1 then i + 1 else 0
  }

  /** ArrowUp: the previous row, wrapping from the first row (or none) to the last. */
  function PrevIndex(i: int, n: nat): (r: int)
    ensures 0 < n && 0 <= i < n ==> 0 <= r < n && r == (i - 1) % n
    ensures i == -1 ==> r == n - 1
  {
    if i > 0 then i - 1 else n - 1
  }

  /** The picker changes visibility (the `isShow` prop); hiding it resets the cursor. */
  function SetShown(s: PickerState, shown: bool): (r: PickerState)
    ensures r.shown == shown
    ensures !shown ==> r.cursor == -1
    ensures shown ==> r.cursor == s.cursor
  {
    if shown then s.(shown := true) else PickerState(false, -1)
  }

  /** The window keydown listener, over the flattened rows `items`. */
  function OnKey(s: PickerState, items: seq<Model>, key: Key): (r: KeyOutcome)
    ensures !s.shown ==> r == KeyOutcome(s, None, None)
    ensures r.mention.Some? <==> s.shown && key == Enter && 0 <= s.cursor < |items|
    ensures r.mention.Some? ==> r.mention.value == items[s.cursor]
    ensures s.shown && key == Escape ==> r.state == PickerState(false, -1) && r.scrollTo.None?
    ensures s.shown && (key == ArrowDown || key == ArrowUp) ==>
      r.state.shown && r.scrollTo == Some(r.state.cursor)
    ensures s.shown && 0 < |items| && (key == ArrowDown || key == ArrowUp) && -1 <= s.cursor < |items| ==>
      0 <= r.state.cursor < |items|
    ensures -1 <= s.cursor < |items| ==> -1 <= r.state.cursor < |items| || |items| == 0
    ensures s.shown && key == ArrowDown ==> r.state == s.(cursor := NextIndex(s.cursor, |items|))
    ensures s.shown && key == ArrowUp ==> r.state == s.(cursor := PrevIndex(s.cursor, |items|))
    ensures s.shown && (key == Enter || key == OtherKey) ==> r.state == s && r.scrollTo.None?
  {
    if !s.shown then KeyOutcome(s, None, None)
    else
      match key
      case ArrowDown =>
        var c := NextIndex(s.cursor, |items|);
        KeyOutcome(s.(cursor := c), None, Some(c))
      case ArrowUp =>
        var c := PrevIndex(s.cursor, |items|);
        KeyOutcome(s.(cursor := c), None, Some(c))
      case Enter =>
        KeyOutcome(s, if 0 <= s.cursor < |items| then Some(items[s.cursor]) else None, None)
      case Escape =>
        KeyOutcome(SetShown(s, false), None, None)
      case OtherKey =>
        KeyOutcome(s, None, None)
  }

  // ---------------------------------------------------------------- wrap-around

  /** `k` presses of ArrowDown from cursor `i` over `n` rows. */
  function DownPresses(i: int, n: nat, k: nat): int
    decreases k
  {
    if k == 0 then i else DownPresses(NextIndex(i, n), n, k - 1)
  }

  lemma {:induction false} DownPressesWithoutWrap(i: int, n: nat, k: nat)
    requires 0 <= i && i + k <= n - 1
    ensures DownPresses(i, n, k) == i + k
    decreases k
  {
    if k > 0 {
      DownPressesWithoutWrap(i + 1, n, k - 1);
    }
  }

  lemma {:induction false} DownPressesCompose(i: int, n: nat, a: nat, b: nat)
    ensures DownPresses(i, n, a + b) == DownPresses(DownPresses(i, n, a), n, b)
    decreases a
  {
    if a > 0 {
      DownPressesCompose(NextIndex(i, n), n, a - 1, b);
    }
  }

  /** Pressing ArrowDown once per row brings the cursor back to where it started. */
  lemma DownPressesFullCycle(i: int, n: nat)
    requires 0 <= i < n
    ensures DownPresses(i, n, n) == i
  {
    DownPressesCompose(i, n, n - 1 - i, i + 1);
    DownPressesWithoutWrap(i, n, n - 1 - i);
    assert DownPresses(n - 1, n, i + 1) == DownPresses(0, n, i);
    DownPressesWithoutWrap(0, n, i);
  }

  // ---------------------------------------------------------------- sessions

  /** A sequence of key presses over a fixed candidate list: the final state and every model
      mentioned along the way. */
  datatype Session = Session(state: PickerState, mentions: seq<Model>)

  function RunKeys(s: PickerState, items: seq<Model>, keys: seq<Key>): Session
    decreases |keys|
  {
    if |keys| == 0 then Session(s, [])
    else
      var step := OnKey(s, items, keys[0]);
      var rest := RunKeys(step.state, items, keys[1..]);
      Session(rest.state, (if step.mention.Some? then [step.mention.value] else []) + rest.mentions)
  }

  /** Over a non-empty list, a session that starts with no row selected (or a valid row)
      never leaves the cursor outside [-1, n), and only ever mentions listed models. */
  lemma {:induction false} SessionStaysInRange(s: PickerState, items: seq<Model>, keys: seq<Key>)
    requires 0 < |items|
    requires -1 <= s.cursor < |items|
    ensures var r := RunKeys(s, items, keys);
      && -1 <= r.state.cursor < |items|
      && forall m :: m in r.mentions ==> m in items
    decreases |keys|
  {
    if |keys| > 0 {
      var step := OnKey(s, items, keys[0]);
      SessionStaysInRange(step.state, items, keys[1..]);
    }
  }

  /** The picker opens with no row selected, so over a non-empty list every session from
      opening keeps the cursor in [-1, n) and mentions only listed models. */
  lemma SessionFromOpen(items: seq<Model>, keys: seq<Key>)
    requires 0 < |items|
    ensures var r := RunKeys(Initial(true), items, keys);
      && -1 <= r.state.cursor < |items|
      && forall m :: m in r.mentions ==> m in items
  {
    SessionStaysInRange(Initial(true), items, keys);
  }

  // ---------------------------------------------------------------- scrolling

  /** A row's `offsetTop` and `clientHeight`. */
  datatype Box = Box(top: int, height: nat)

  /** The menu container's `scrollTop` and `clientHeight`. */
  datatype Viewport = Viewport(scrollTop: int, height: nat)

  predicate Visible(b: Box, v: Viewport)
  {
    v.scrollTop <= b.top && b.top + b.height <= v.scrollTop + v.height
  }

  function Distance(a: int, b: int): nat
  {
    if a <= b then b - a else a - b
  }

  /** `scrollToItem(index)`: `row` is the row's element, absent when its ref is not set. */
  function ScrollToItem(index: int, count: int, row: Option<Box>, view: Viewport): (r: Viewport)
    ensures r.height == view.height
    ensures !(0 <= index < count) || row.None? ==> r == view
    ensures row.Some? && Visible(row.value, view) ==> r == view
    ensures 0 <= index < count && row.Some? && row.value.top < view.scrollTop ==>
      r.scrollTop == row.value.top
    ensures (&& 0 <= index < count && row.Some? && view.scrollTop <= row.value.top
             && row.value.top + row.value.height > view.scrollTop + view.height) ==>
      r.scrollTop + r.height == row.value.top + row.value.height
    ensures 0 <= index < count && row.Some? && row.value.height <= view.height ==>
      && Visible(row.value, r)
      && forall t :: Visible(row.value, Viewport(t, view.height)) ==>
           Distance(r.scrollTop, view.scrollTop) <= Distance(t, view.scrollTop)
  {
    if 0 <= index < count && row.Some? then
      var top := row.value.top;
      var bottom := top + row.value.height;
      if top < view.scrollTop then view.(scrollTop := top)
      else if bottom > view.scrollTop + view.height then view.(scrollTop := bottom - view.height)
      else view
    else view
  }
}
