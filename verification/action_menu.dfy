/** The "@" action menu (SelectAtAction.tsx): a fixed list of actions with a clamped cursor,
    and the three visibility flags that decide whether the menu, the model picker or the
    knowledge-base picker is on screen. */
module ActionMenu {

  import opened Keys

  datatype ActionType = ModelAction | KnowledgeBaseAction | McpAction

  /** The listed actions (`data`); `mcp` is an action type but is not listed. Their labels are
      translation lookups and are not modelled. */
  const Actions: seq<ActionType> := [ModelAction, KnowledgeBaseAction]

  datatype MenuState = MenuState(cursor: int, menuShown: bool, modelPickerShown: bool, knowledgePickerShown: bool)

  /** The component mounts with the first row selected, the menu shown, both pickers hidden. */
  const Initial: MenuState := MenuState(0, true, false, false)

  /** `handleItemSelect(type)`: open the matching picker and hide the menu. */
  function Select(s: MenuState, t: ActionType): (r: MenuState)
    ensures r.cursor == s.cursor
    ensures t == ModelAction ==> r.modelPickerShown && !r.menuShown && r.knowledgePickerShown == s.knowledgePickerShown
    ensures t == KnowledgeBaseAction ==> r.knowledgePickerShown && !r.menuShown && r.modelPickerShown == s.modelPickerShown
    ensures t == McpAction ==> r == s
  {
    match t
    case ModelAction => s.(modelPickerShown := true, menuShown := false)
    case KnowledgeBaseAction => s.(knowledgePickerShown := true, menuShown := false)
    case McpAction => s
  }

  /** What one key press does: the next state, and whether the `onClose` prop was called. */
  datatype KeyOutcome = KeyOutcome(state: MenuState, closed: bool)

  /** The window keydown listener. Enter on a cursor with no row behind it would throw on
      `data[selectedIndex].type` before any state changes; that is modelled as no change. */
  function OnKey(s: MenuState, key: Key): (r: KeyOutcome)
    ensures !s.menuShown ==> r == KeyOutcome(s, false)
    ensures r.closed <==> s.menuShown && key == Escape
    ensures s.menuShown && key == Escape ==>
      r.state == MenuState(s.cursor, false, false, s.knowledgePickerShown)
    ensures s.menuShown && key == ArrowUp ==> r.state.cursor == (if s.cursor - 1 < 0 then 0 else s.cursor - 1)
    ensures s.menuShown && key == ArrowDown ==>
      r.state.cursor == (if s.cursor + 1 > |Actions| - 1 then |Actions| - 1 else s.cursor + 1)
    ensures s.menuShown && key == Enter && 0 <= s.cursor < |Actions| ==> r.state == Select(s, Actions[s.cursor])
    ensures 0 <= s.cursor < |Actions| ==> 0 <= r.state.cursor < |Actions|
    ensures s.menuShown && (key == ArrowUp || key == ArrowDown) ==> r.state.(cursor := s.cursor) == s
    ensures key == OtherKey || (key == Enter && !(0 <= s.cursor < |Actions|)) ==> r.state == s
  {
    if !s.menuShown then KeyOutcome(s, false)
    else
      match key
      case ArrowUp => KeyOutcome(s.(cursor := Max(0, s.cursor - 1)), false)
      case ArrowDown => KeyOutcome(s.(cursor := Min(|Actions| - 1, s.cursor + 1)), false)
      case Enter =>
        if 0 <= s.cursor < |Actions| then KeyOutcome(Select(s, Actions[s.cursor]), false)
        else KeyOutcome(s, false)
      case Escape => KeyOutcome(s.(menuShown := false, modelPickerShown := false), true)
      case OtherKey => KeyOutcome(s, false)
  }

  function Max(a: int, b: int): int
  {
    if a < b then b else a
  }

  function Min(a: int, b: int): int
  {
    if a < b then a else b
  }

  /** Clicking row `i`: select it, then act on it. */
  function OnRowClick(s: MenuState, i: int): (r: MenuState)
    requires 0 <= i < |Actions|
    ensures r.cursor == i
    ensures i == 0 ==> r.modelPickerShown && !r.menuShown && r.knowledgePickerShown == s.knowledgePickerShown
    ensures i == 1 ==> r.knowledgePickerShown && !r.menuShown && r.modelPickerShown == s.modelPickerShown
  {
    Select(s.(cursor := i), Actions[i])
  }

  /** Hovering row `i`: select it without acting. */
  function OnRowHover(s: MenuState, i: int): (r: MenuState)
    requires 0 <= i < |Actions|
    ensures r.cursor == i
    ensures r.(cursor := s.cursor) == s
  {
    s.(cursor := i)
  }

  // ---------------------------------------------------------------- sessions

  /** The events the menu reacts to; clicks and hovers name a listed row, and reach it only
      while the menu (and so the row) is rendered. */
  datatype MenuEvent = Press(key: Key) | Click(row: int) | Hover(row: int)

  predicate ValidEvent(e: MenuEvent)
  {
    match e
    case Press(_) => true
    case Click(i) => 0 <= i < |Actions|
    case Hover(i) => 0 <= i < |Actions|
  }

  function Apply(s: MenuState, e: MenuEvent): MenuState
    requires ValidEvent(e)
  {
    match e
    case Press(k) => OnKey(s, k).state
    case Click(i) => if s.menuShown then OnRowClick(s, i) else s
    case Hover(i) => if s.menuShown then OnRowHover(s, i) else s
  }

  function Run(s: MenuState, events: seq<MenuEvent>): MenuState
    requires forall i :: 0 <= i < |events| ==> ValidEvent(events[i])
    decreases |events|
  {
    if |events| == 0 then s else Run(Apply(s, events[0]), events[1..])
  }

  /** From mount, the cursor always names a listed action, so Enter always finds a row; and
      once the menu is hidden, nothing re-shows it. */
  lemma {:induction false} ReachableCursorInRange(s: MenuState, events: seq<MenuEvent>)
    requires 0 <= s.cursor < |Actions|
    requires forall i :: 0 <= i < |events| ==> ValidEvent(events[i])
    ensures 0 <= Run(s, events).cursor < |Actions|
    ensures !s.menuShown ==> !Run(s, events).menuShown
    decreases |events|
  {
    if |events| > 0 {
      ReachableCursorInRange(Apply(s, events[0]), events[1..]);
    }
  }

  /** After any events since mount, Enter on the shown menu always acts on a listed row: it
      opens a picker and hides the menu. */
  lemma EnterAfterMountOpensAPicker(events: seq<MenuEvent>)
    requires forall i :: 0 <= i < |events| ==> ValidEvent(events[i])
    ensures var s := Run(Initial, events);
      s.menuShown ==>
        && !OnKey(s, Enter).state.menuShown
        && (OnKey(s, Enter).state.modelPickerShown || OnKey(s, Enter).state.knowledgePickerShown)
  {
    ReachableCursorInRange(Initial, events);
  }
}
