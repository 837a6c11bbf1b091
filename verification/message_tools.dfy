/** The tool-invocation panel under a chat message (MessageTools.tsx): which action buttons
    each tool call shows, what its response block displays, what the copy button copies, the
    per-tool `executing` flags around a call to the external tool runner, and the collapse
    keys. */
module MessageTools {

  import opened Wrappers

  datatype ToolStatus = Pending | Invoking | Done | Error

  /** A JSON value the panel only passes through (input schema, tool response). */
  datatype Payload = Payload(json: string)

  datatype Tool = Tool(name: string, serverName: string, inputSchema: Payload)

  /** One entry of `message.metadata.mcpTools`; a falsy `response` is `None`. */
  datatype ToolResponse = ToolResponse(id: string, tool: Tool, status: ToolStatus, response: Option<Payload>)

  /** A button that is either not rendered or rendered with a `disabled` flag. */
  datatype Button = Hidden | Shown(disabled: bool)

  datatype Buttons = Buttons(execute: Button, expand: bool, copy: bool, retry: Button)

  /** The `ToolResponse` field of the displayed block. */
  datatype Displayed = Response(payload: Payload) | RawResponse(raw: Option<Payload>) | NoResponse

  /** The object the copy button serialises (`result`). */
  datatype CopyPayload = CopyPayload(params: Payload, response: Option<Payload>)

  /** One collapse item, as far as it is not presentation. */
  datatype Item = Item(key: string, buttons: Buttons, displayed: Displayed, copy: Option<CopyPayload>)

  /** `executingTools[id]`, with a missing entry read as false. */
  function IsExecuting(executing: map<string, bool>, id: string): bool
  {
    id in executing && executing[id]
  }

  /** The action buttons of a tool call given its status, response and `executing` flag. */
  function ButtonsFor(status: ToolStatus, response: Option<Payload>, executing: bool): (r: Buttons)
    ensures r.execute.Shown? <==> status == Pending
    ensures r.retry.Shown? <==> status == Error
    ensures r.expand <==> status == Done && response.Some?
    ensures r.copy <==> status == Done && response.Some?
    ensures r.execute.Shown? ==> r.execute.disabled == executing
    ensures r.retry.Shown? ==> r.retry.disabled == executing
    ensures status == Invoking ==> r == Buttons(Hidden, false, false, Hidden)
  {
    var shown := status == Done && response.Some?;
    Buttons(
      if status == Pending then Shown(executing) else Hidden,
      shown,
      shown,
      if status == Error then Shown(executing) else Hidden)
  }

  /** The response shown in the tool's block. */
  function DisplayedFor(status: ToolStatus, response: Option<Payload>): (r: Displayed)
    ensures r.Response? <==> status == Done && response.Some?
    ensures r.Response? ==> response == Some(r.payload)
    ensures r.RawResponse? <==> status == Error
    ensures r.RawResponse? ==> r.raw == response
    ensures r.NoResponse? <==> status.Pending? || status.Invoking? || (status.Done? && response.None?)
  {
    if status == Done && response.Some? then Response(response.value)
    else if status == Error then RawResponse(response)
    else NoResponse
  }

  /** `result`: the copy payload exists only for a finished call. */
  function CopyPayloadFor(t: ToolResponse): (r: Option<CopyPayload>)
    ensures r.Some? <==> t.status == Done
    ensures r.Some? ==> r.value.params == t.tool.inputSchema && r.value.response == t.response
  {
    if t.status == Done then Some(CopyPayload(t.tool.inputSchema, t.response)) else None
  }

  function ItemFor(t: ToolResponse, executing: map<string, bool>): Item
  {
    Item(t.id,
         ButtonsFor(t.status, t.response, IsExecuting(executing, t.id)),
         DisplayedFor(t.status, t.response),
         CopyPayloadFor(t))
  }

  /** `getCollapseItems`: one item per tool call, in order. */
  function CollapseItems(tools: seq<ToolResponse>, executing: map<string, bool>): (r: seq<Item>)
    ensures |r| == |tools|
    ensures forall i :: 0 <= i < |tools| ==> r[i] == ItemFor(tools[i], executing)
  {
    if |tools| == 0 then [] else [ItemFor(tools[0], executing)] + CollapseItems(tools[1..], executing)
  }

  /** The panel: nothing at all when `mcpTools` is missing or empty, otherwise the items. */
  function Panel(mcpTools: Option<seq<ToolResponse>>, executing: map<string, bool>): (r: Option<seq<Item>>)
    ensures r.None? <==> mcpTools.None? || |mcpTools.value| == 0
    ensures r.Some? ==> |r.value| == |mcpTools.value| > 0
    ensures r.Some? ==> forall i :: 0 <= i < |r.value| ==> r.value[i].key == mcpTools.value[i].id
    ensures r.Some? ==> r.value == CollapseItems(mcpTools.value, executing)
  {
    match mcpTools
    case None => None
    case Some(tools) => if |tools| == 0 then None else Some(CollapseItems(tools, executing))
  }

  /** While a tool's `executing` flag is set, neither its execute nor its retry button can be
      pressed. */
  lemma ExecutingDisablesTriggers(tools: seq<ToolResponse>, executing: map<string, bool>, i: int)
    requires 0 <= i < |tools|
    requires IsExecuting(executing, tools[i].id)
    ensures var b := CollapseItems(tools, executing)[i].buttons;
      && (b.execute.Shown? ==> b.execute.disabled)
      && (b.retry.Shown? ==> b.retry.disabled)
  {
  }

  /** The buttons agree with the block: expand and copy appear exactly when the block shows a
      response, and the copy button never serialises a missing payload or response. */
  lemma ButtonsMatchDisplay(tools: seq<ToolResponse>, executing: map<string, bool>)
    ensures var items := CollapseItems(tools, executing);
      forall i :: 0 <= i < |items| ==>
        && (items[i].buttons.expand <==> items[i].displayed.Response?)
        && (items[i].buttons.copy <==> items[i].displayed.Response?)
        && (items[i].buttons.copy ==> items[i].copy.Some? && items[i].copy.value.response.Some?)
  {
  }

  // ---------------------------------------------------------------- execution

  /** How the external `runMessageTool` call ended. */
  datatype CallOutcome = Succeeded | Failed

  /** The flags seen while the call is in flight and after it settles, and how many error
      notifications were shown. The failure is caught: nothing propagates further. */
  datatype Execution = Execution(during: map<string, bool>, after: map<string, bool>, errorNotices: nat)

  /** `executeTool(id)`: set the flag, await the runner, notify on failure, clear the flag. */
  function ExecuteTool(executing: map<string, bool>, id: string, outcome: CallOutcome): (r: Execution)
    ensures IsExecuting(r.during, id) && !IsExecuting(r.after, id)
    ensures id in r.after
    ensures forall k :: k != id ==> (k in r.during <==> k in executing) && (k in r.after <==> k in executing)
    ensures forall k :: k != id && k in executing ==> r.during[k] == executing[k] && r.after[k] == executing[k]
    ensures r.errorNotices == (if outcome == Failed then 1 else 0)
  {
    var during := executing[id := true];
    Execution(during, during[id := false], if outcome == Failed then 1 else 0)
  }

  /** The flag updates `executeTool` issues, which interleave when several calls run at once. */
  datatype FlagUpdate = Start(id: string) | Finish(id: string)

  function ApplyUpdates(executing: map<string, bool>, updates: seq<FlagUpdate>): map<string, bool>
    decreases |updates|
  {
    if |updates| == 0 then executing
    else
      var u := updates[0];
      ApplyUpdates(executing[u.id := u.Start?], updates[1..])
  }

  /** The last update naming `id`, if any. */
  function LastUpdateFor(updates: seq<FlagUpdate>, id: string): Option<FlagUpdate>
    decreases |updates|
  {
    if |updates| == 0 then None
    else if updates[|updates| - 1].id == id then Some(updates[|updates| - 1])
    else LastUpdateFor(updates[..|updates| - 1], id)
  }

  /** However the updates of concurrent calls interleave, a tool's flag is decided by its own
      last update alone: other tools' calls never touch it. */
  lemma {:induction false} FlagIsLastOwnUpdate(executing: map<string, bool>, updates: seq<FlagUpdate>, id: string)
    ensures var m := ApplyUpdates(executing, updates);
      match LastUpdateFor(updates, id)
      case Some(u) => IsExecuting(m, id) == u.Start?
      case None => IsExecuting(m, id) == IsExecuting(executing, id)
    decreases |updates|
  {
    if |updates| > 0 {
      var n := |updates| - 1;
      var init := updates[..n];
      var last := updates[n];
      assert updates == init + [last];
      ApplyUpdatesSnoc(executing, init, last);
      FlagIsLastOwnUpdate(executing, init, id);
    }
  }

  lemma {:induction false} ApplyUpdatesSnoc(executing: map<string, bool>, updates: seq<FlagUpdate>, u: FlagUpdate)
    ensures ApplyUpdates(executing, updates + [u]) == ApplyUpdates(executing, updates)[u.id := u.Start?]
    decreases |updates|
  {
    if |updates| > 0 {
      var v := updates[0];
      assert (updates + [u])[1..] == updates[1..] + [u];
      ApplyUpdatesSnoc(executing[v.id := v.Start?], updates[1..], u);
    }
  }

  /** One call for `id` from start to finish, whatever ran in between for other tools,
      leaves `id` not executing. */
  lemma CallLeavesToolIdle(executing: map<string, bool>, before: seq<FlagUpdate>, between: seq<FlagUpdate>, id: string)
    requires forall k :: 0 <= k < |between| ==> between[k].id != id
    ensures !IsExecuting(ApplyUpdates(executing, before + [Start(id)] + between + [Finish(id)]), id)
  {
    var all := before + [Start(id)] + between + [Finish(id)];
    assert all[|all| - 1] == Finish(id);
    FlagIsLastOwnUpdate(executing, all, id);
  }

  // ---------------------------------------------------------------- collapse

  /** The value the collapse reports: one key or a list of keys. */
  datatype ActiveKeys = OneKey(key: string) | KeyList(keys: seq<string>)

  /** `handleCollapseChange`: a single key becomes a one-element list; a list is kept. */
  function HandleCollapseChange(keys: ActiveKeys): (r: seq<string>)
    ensures keys.OneKey? ==> r == [keys.key]
    ensures keys.KeyList? ==> r == keys.keys
  {
    match keys
    case OneKey(k) => [k]
    case KeyList(ks) => ks
  }
}
