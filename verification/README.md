# "@"-mention pickers and tool panel of a chat client, in Dafny

This project models the small pure rules under the React components of a chat-assistant
client. While composing a message, the user types "@" and can mention a model or attach a
knowledge base. Under a reply, a panel shows the tool calls the assistant proposed.

- **Action menu** (`ActionMenu`, SelectAtAction.tsx): two actions, "model" and
  "knowledge base", with a clamped cursor. Three visibility flags say which of the menu,
  the model picker and the knowledge picker is shown.
- **Model picker, candidate builder** (`ModelCatalog`, SelectAtActionModel.tsx): the pin
  toggle, and the list of groups the picker offers. The list is a leading "pinned" group,
  then one group per provider. Provider groups are sorted by (group, name) and filtered:
  no embedding or rerank models, nothing pinned, nothing already mentioned, and only
  search matches. Empty groups are dropped. The result is flattened into one row list.
- **Model picker, keyboard and scrolling** (`ModelPicker`, same file): a cursor over the
  flat list that wraps around. Enter mentions the row under the cursor and Escape closes
  the picker. The scroll adjustment brings the cursor row into view.
- **Knowledge picker** (`KnowledgePicker`, SelectAtActionKnowledge.tsx): filters out bases
  that are already attached, with a case-insensitive name search. Its cursor is clamped
  and does not wrap; Enter selects and Escape closes.
- **Code-execution toggle** (`CodeExecution`, CodeExecutionButton.tsx): the new
  `enableCodeExecution` value and whether a warning is shown. Enabling is refused while
  MCP servers are attached in function-calling tool mode.
- **Tool panel** (`MessageTools`, MessageTools.tsx): buttons per tool-call status, the
  response shown, the copy payload, the per-tool `executing` flag around the external tool
  runner, and collapse keys.

Helpers: `Seqs` (`Array.filter`, order-preserving subsequences, `String.includes`),
`Sorting` (lodash `sortBy` on two string keys as a stable insertion sort), `Wrappers`
(`Option`), `Keys` (the keys the listeners react to). `Scenarios` works two small catalogs
through the candidate builder.

Some helpers are modelled as inputs rather than defined, because their code is not part of
this model: `getModelUniqId`, `isEmbeddingModel`, `isRerankModel` and `toLowerCase` are the
fields of `ModelCatalog.Oracle`. `isToolUseModeFunction` is a parameter of
`CodeExecution.HandleToggle`. The outcome of `runMessageTool` is a `CallOutcome` input. A
key press is a pure transition on a state record.

Behaviour of the code worth noting:

- Model picker, empty list: ArrowDown from "no row" (-1) moves the cursor to 0, which names
  no row. ArrowUp gives -1 again, so it leaves the cursor as it was. Enter is still guarded,
  so nothing is mentioned.
- The model picker's search text is never updated in the component (its setter is unused).
  The model takes it as an input. The picker has no search timer and no two-stage Escape:
  Escape closes it.
- The knowledge picker does not reset its cursor when the search shrinks the list. A cursor
  exactly one past the new end comes back onto the list with ArrowUp. A cursor two or more
  past the end is stuck: neither arrow has a target on the list, so it never moves, and
  Enter never selects (`KnowledgePicker.StaleCursorStuck`).
- SelectAtAction.tsx renders the model picker without its `setIsShow` prop
  (SelectAtAction.tsx:170-176 passes `onClose`, which the picker does not declare). So in
  the composed screen, Escape in the model picker would call an undefined function.
  `ModelPicker.OnKey` models the picker's own contract: `setIsShow(false)` hides it, and
  hiding resets the cursor.
- Enter in the action menu with a cursor that has no row would throw on
  `data[selectedIndex].type` before any state changes. `ActionMenu.OnKey` models that as no
  change. `ActionMenu.ReachableCursorInRange` shows the case cannot arise from mount.

## Model

| member | source | states |
|---|---|---|
| ModelCatalog.TogglePin | src/renderer/src/pages/home/components/SelectAtActionModel.tsx:33-44 | toggling a pinned id removes every occurrence of it and keeps every other id in order, each as often as it occurred; toggling an unpinned id appends it; no other id changes membership |
| ModelCatalog.TogglePinTwiceRestores | src/renderer/src/pages/home/components/SelectAtActionModel.tsx:33-44 | pinning an unpinned id and toggling it again gives back the original pin list exactly |
| ModelCatalog.ToggleTwiceSameMenu | src/renderer/src/pages/home/components/SelectAtActionModel.tsx:33-165 | toggling any id twice, pinned or not, leaves the candidate groups unchanged |
| ModelCatalog.MenuDependsOnPinSet | src/renderer/src/pages/home/components/SelectAtActionModel.tsx:54-165 | the candidate groups depend on the pins only as a set; order and repeats do not matter |
| ModelCatalog.RegularRows | src/renderer/src/pages/home/components/SelectAtActionModel.tsx:58-72 | a provider group is sorted by (group, name). It holds exactly that provider's models that are not embedding or rerank models, not pinned, not mentioned, and match a non-empty search in name or id. Each is kept as often as it occurs |
| ModelCatalog.MenuGroups | src/renderer/src/pages/home/components/SelectAtActionModel.tsx:54-165 | every returned group is non-empty |
| ModelCatalog.MenuShape | src/renderer/src/pages/home/components/SelectAtActionModel.tsx:153-164 | the groups are the pinned group (present only with pins and at least one surviving pinned row) followed by the provider groups; the final empty-group pass removes nothing |
| ModelCatalog.ProviderGroupsInProviderOrder | src/renderer/src/pages/home/components/SelectAtActionModel.tsx:55-108 | the provider groups equal the per-provider groups, in provider order, with exactly the empty ones deleted |
| ModelCatalog.ProviderGroupFromProvider | src/renderer/src/pages/home/components/SelectAtActionModel.tsx:55-108 | each provider group carries a provider key, is non-empty, and is one provider's regular rows |
| ModelCatalog.ProviderGroupComplete | src/renderer/src/pages/home/components/SelectAtActionModel.tsx:55-108 | every provider with at least one surviving model has its group in the list |
| ModelCatalog.PinnedRowsInCatalogOrder | src/renderer/src/pages/home/components/SelectAtActionModel.tsx:110-123 | the pinned rows are all providers' models in provider/model order, filtered only by "pinned and not mentioned": no sort, no capability or search filter |
| ModelCatalog.GroupOrigin | src/renderer/src/pages/home/components/SelectAtActionModel.tsx:110-164 | a returned group is either the first group, holding the pinned rows, or some provider's regular group |
| ModelCatalog.MentionedNeverOffered | src/renderer/src/pages/home/components/SelectAtActionModel.tsx:54-170 | no model whose uniq id matches a mentioned model is in the flattened list, in the pinned group or elsewhere |
| ModelCatalog.PinnedOnlyInPinnedGroup | src/renderer/src/pages/home/components/SelectAtActionModel.tsx:58-160 | provider groups never hold a pinned model; the pinned group holds only pinned models and can only be the first group |
| ModelCatalog.PinningMovesModel | src/renderer/src/pages/home/components/SelectAtActionModel.tsx:33-160 | pinning a listed model takes it out of every provider group and puts it in the pinned group, which then leads the list |
| ModelCatalog.FlatIndex | src/renderer/src/pages/home/components/SelectAtActionModel.tsx:204-221 | the row at position j of group g sits in the flat list at the sum of the earlier groups' sizes plus j |
| ModelCatalog.FlattenMember | src/renderer/src/pages/home/components/SelectAtActionModel.tsx:167-170 | a model is in the flat list exactly when some group holds it |
| Sorting.SortBy | src/renderer/src/pages/home/components/SelectAtActionModel.tsx:58 | the result is a permutation of the input, ordered by group and then name in code-unit string order |
| Seqs.IncludesIffOccurs | src/renderer/src/pages/home/components/SelectAtActionModel.tsx:69-70 | `includes` holds exactly when the needle occurs at some offset of the haystack |
| Scenarios.SearchKeepsMatchingNames | src/renderer/src/pages/home/components/SelectAtActionModel.tsx:66-72 | with models Alpha and Beta of one provider, searching "al" offers only Alpha |
| Scenarios.OnlyAlphaMatchesAl | src/renderer/src/pages/home/components/SelectAtActionModel.tsx:66-72 | under ASCII case folding, "al" matches Alpha's name and neither Beta's name nor id |
| Scenarios.SortedPair | src/renderer/src/pages/home/components/SelectAtActionModel.tsx:58 | Alpha sorts before Beta within their group |
| Scenarios.PinningMovesBetaToFront | src/renderer/src/pages/home/components/SelectAtActionModel.tsx:110-164 | pinning Beta with no search gives a pinned group [Beta] followed by the provider group [Alpha] |
| ModelPicker.NextIndex | src/renderer/src/pages/home/components/SelectAtActionModel.tsx:264-271 | ArrowDown over n > 0 rows moves a cursor in [-1, n) to (i + 1) mod n; from -1 it gives 0 |
| ModelPicker.PrevIndex | src/renderer/src/pages/home/components/SelectAtActionModel.tsx:272-279 | ArrowUp over n > 0 rows moves a cursor in [0, n) to (i - 1) mod n; from -1 it gives n - 1 |
| ModelPicker.SetShown | src/renderer/src/pages/home/components/SelectAtActionModel.tsx:254-258 | hiding the picker resets the cursor to -1; showing it keeps the cursor |
| ModelPicker.OnKey | src/renderer/src/pages/home/components/SelectAtActionModel.tsx:260-294 | keys are ignored while hidden. ArrowDown and ArrowUp move the cursor by `NextIndex` and `PrevIndex`, keep a cursor in [-1, n) inside [0, n), and scroll to the new row. Enter mentions exactly `items[i]` when 0 <= i < n and nothing otherwise, and leaves the picker open and unchanged, as do other keys. Escape hides the picker with cursor -1 and scrolls nowhere |
| ModelPicker.SessionFromOpen | src/renderer/src/pages/home/components/SelectAtActionModel.tsx:24-294 | the picker opens with cursor -1; over a non-empty list that does not change during the session, any key sequence from there keeps the cursor in [-1, n) and mentions only listed models |
| ModelPicker.DownPressesFullCycle | src/renderer/src/pages/home/components/SelectAtActionModel.tsx:264-271 | n presses of ArrowDown over n rows return the cursor to its start |
| ModelPicker.SessionStaysInRange | src/renderer/src/pages/home/components/SelectAtActionModel.tsx:260-294 | over a non-empty list that does not change during the session, any key sequence from a cursor in [-1, n) keeps it there and mentions only listed models |
| ModelPicker.ScrollToItem | src/renderer/src/pages/home/components/SelectAtActionModel.tsx:173-193 | scrollTop is unchanged for an out-of-range index, a missing row or a row already in view. Otherwise the row's top edge or bottom edge is aligned with the viewport. A row no taller than the viewport ends up fully visible, by the smallest scroll that achieves it |
| KnowledgePicker.FilterBases | src/renderer/src/pages/home/components/SelectAtActionKnowledge.tsx:59-73 | the result is an order-preserving subsequence of the bases. It holds exactly the bases whose id is not selected and, for non-empty search text, whose lowered name contains the lowered text, each as often as it occurs in the bases |
| KnowledgePicker.FilterBasesIdempotent | src/renderer/src/pages/home/components/SelectAtActionKnowledge.tsx:59-73 | filtering the filtered list again with the same inputs yields the same list |
| KnowledgePicker.Step | src/renderer/src/pages/home/components/SelectAtActionKnowledge.tsx:37-41 | the cursor moves by the direction only when the target index is in [0, len), otherwise it stays |
| KnowledgePicker.OnKey | src/renderer/src/pages/home/components/SelectAtActionKnowledge.tsx:33-54 | ArrowDown and ArrowUp move the cursor by one when the target row exists and otherwise leave it where it is (no wrapping); other keys never move it. Enter hands `[filtered[i]]` to the callback exactly when a row exists at i. Escape always calls `onClose` |
| KnowledgePicker.DownPressesSaturate | src/renderer/src/pages/home/components/SelectAtActionKnowledge.tsx:35-42 | k presses of ArrowDown from a valid row give min(i + k, len - 1): the cursor saturates, never wraps |
| KnowledgePicker.SessionStaysInRange | src/renderer/src/pages/home/components/SelectAtActionKnowledge.tsx:29-54 | over a list that does not change during the session, any key sequence from a valid row keeps the cursor on the list, selects only listed bases, and calls `onClose` once per Escape |
| KnowledgePicker.SessionFromMount | src/renderer/src/pages/home/components/SelectAtActionKnowledge.tsx:29-54 | the cursor mounts on row 0; over a non-empty list that does not change during the session, any key sequence from there keeps it on the list and selects only listed bases |
| KnowledgePicker.StaleCursorStuck | src/renderer/src/pages/home/components/SelectAtActionKnowledge.tsx:33-54 | a cursor two or more rows past the end of the list is never moved by any key sequence, and nothing is ever selected |
| ActionMenu.Select | src/renderer/src/pages/home/components/SelectAtAction.tsx:92-108 | selecting "model" shows the model picker and hides the menu; "knowledge base" shows the knowledge picker and hides the menu; "mcp" changes nothing |
| ActionMenu.OnKey | src/renderer/src/pages/home/components/SelectAtAction.tsx:60-82 | keys are ignored while the menu is hidden. Up gives max(0, i - 1) and Down gives min(len - 1, i + 1), and neither touches the visibility flags. Enter acts on `data[i]`. Other keys, and Enter with no row at i, change nothing. Escape calls `onClose` and hides the menu and the model picker, but not the knowledge picker |
| ActionMenu.OnRowClick | src/renderer/src/pages/home/components/SelectAtAction.tsx:157-160 | clicking a row puts the cursor on it and opens that row's picker |
| ActionMenu.OnRowHover | src/renderer/src/pages/home/components/SelectAtAction.tsx:161 | hovering a row puts the cursor on it and changes nothing else |
| ActionMenu.ReachableCursorInRange | src/renderer/src/pages/home/components/SelectAtAction.tsx:43-89 | from a cursor on a listed action, any sequence of keys, clicks and hovers keeps it there; a hidden menu never reappears |
| ActionMenu.EnterAfterMountOpensAPicker | src/renderer/src/pages/home/components/SelectAtAction.tsx:72-75 | after any events since mount, Enter on the shown menu hides it and opens one of the pickers |
| CodeExecution.HandleToggle | src/renderer/src/pages/home/Inputbar/CodeExecutionButton.tsx:25-43 | only `enableCodeExecution` changes. The result is false and a warning shows exactly when MCP servers are attached, the flag was off and the assistant is in function tool mode. Otherwise the flag is negated, so turning it off always succeeds |
| CodeExecution.BlockedToggleChangesNothing | src/renderer/src/pages/home/Inputbar/CodeExecutionButton.tsx:31-43 | a refused enable writes the assistant back unchanged and warns |
| CodeExecution.ToggleTwiceRestores | src/renderer/src/pages/home/Inputbar/CodeExecutionButton.tsx:25-43 | two toggles with no warning give back the original assistant |
| MessageTools.ButtonsFor | src/renderer/src/pages/home/Messages/MessageTools.tsx:98-157 | execute shows exactly for pending, retry exactly for error, expand and copy exactly for done with a response; execute and retry are disabled exactly while executing |
| MessageTools.DisplayedFor | src/renderer/src/pages/home/Messages/MessageTools.tsx:169-174 | the block shows the response for done with a response, the raw response for error, and the placeholder otherwise |
| MessageTools.CopyPayloadFor | src/renderer/src/pages/home/Messages/MessageTools.tsx:73-78 | the copy payload exists exactly for status done and carries the input schema and response |
| MessageTools.CollapseItems | src/renderer/src/pages/home/Messages/MessageTools.tsx:63-186 | one item per tool call, in order, each built from that call and its executing flag |
| MessageTools.Panel | src/renderer/src/pages/home/Messages/MessageTools.tsx:31-195 | nothing is rendered exactly when `mcpTools` is missing or empty; otherwise the rendered items are exactly the collapse items of the calls, one per call, keyed by its id |
| MessageTools.ButtonsMatchDisplay | src/renderer/src/pages/home/Messages/MessageTools.tsx:73-174 | for every item, expand and copy appear exactly when the block shows a response, and a visible copy button always has a payload with a response to serialise |
| MessageTools.ExecutingDisablesTriggers | src/renderer/src/pages/home/Messages/MessageTools.tsx:98-157 | while a call's executing flag is set, its execute and retry buttons are disabled |
| MessageTools.ExecuteTool | src/renderer/src/pages/home/Messages/MessageTools.tsx:49-60 | the flag is set during the call and cleared after it, whatever the outcome. No other key changes. A failure gives exactly one error notice and a success none |
| MessageTools.FlagIsLastOwnUpdate | src/renderer/src/pages/home/Messages/MessageTools.tsx:49-60 | however concurrent calls' flag updates interleave, a tool's flag is set by its own last update, or is the initial value if it has none |
| MessageTools.CallLeavesToolIdle | src/renderer/src/pages/home/Messages/MessageTools.tsx:49-60 | one call from start to finish leaves its tool idle, whatever other tools did meanwhile |
| MessageTools.HandleCollapseChange | src/renderer/src/pages/home/Messages/MessageTools.tsx:44-46 | a single key becomes the one-element list; a list of keys is kept as is |

## Left out

- Rendering: styled components, antd widgets, icons and avatars are presentation only.
- i18n labels: the action names and provider labels (`t(...)`, `isSystem`) are
  string-table lookups.
- React keys: the row keys (`uniqId`, `uniqId + 'pinned'`) only identify DOM rows, so
  rows are modelled as plain models.
- Framework plumbing: registering and removing the window keydown listeners, hook
  closures, and the menu's height animation (SelectAtAction.tsx:47-58). Each key press is
  one transition on the current state.
- ModelPicker.ScrollToItem: the DOM measurements are integer inputs. A missing menu
  container (`menuRef` unset) is not modelled, because the container is rendered whenever
  the picker is.
- ModelPicker.OnKey: the mention callback also receives a `fromKeyboard` flag, which this
  component always passes as false. The model keeps only the mentioned model.
- Timers: the 2000 ms reset of the "copied" marker and the 100 ms delay before the toggle
  applies are time-based side effects. `copiedMap` is left out with them.
- I/O: clipboard writes, `JSON.stringify`, console logging and the expanded-response modal
  are not modelled. Toasts are kept only as a warning flag or an error-notice count.
- The external tool runner: it moves a call's status from pending to invoking to done or
  error in the message store. That happens outside the panel, which only reads the status.
- Sorting.SortBy: the contract states sortedness and permutation but not stability (equal
  (group, name) keys keep their input order). Stability holds by construction and is not
  proved.
- Sorting.SortBy: strings compare by Dafny `char`. JavaScript compares UTF-16 code units,
  so the orders can differ for characters outside the Basic Multilingual Plane.
- Case folding: `toLowerCase` is an abstract function applied to both sides of every
  search, so no Unicode case rules are modelled.
- lodash's handling of missing sort keys is not modelled: a model's group and name are
  always strings here.
- Knowledge picker widgets: the search input's change handler only sets the search text,
  which is an input here. The dropdown's `onOpenChange` only calls `onClose`.
- Sessions: `ModelPicker.RunKeys` and `KnowledgePicker.RunKeys` replay keys over one list
  that stays fixed. In the components the list is recomputed after a mention, a pin or a
  selection, and the cursor is not reset. Sessions across such changes are not modelled.
