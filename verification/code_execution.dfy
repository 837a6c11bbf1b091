/** The code-execution toggle of the input bar (CodeExecutionButton.tsx): the new
    `enableCodeExecution` value written back to the assistant, and whether the user is warned
    that code execution cannot be combined with MCP servers in function-calling tool mode. */
module CodeExecution {

  import opened Wrappers

  /** The assistant record as far as the toggle sees it; `mcpServers` may be missing.
      `toolUseMode` is what `isToolUseModeFunction` inspects. That helper is not part of this
      model: it is the `functionMode` parameter below, applied to the whole assistant. */
  datatype Assistant = Assistant(
    id: string,
    name: string,
    prompt: string,
    mcpServers: Option<seq<string>>,
    enableCodeExecution: bool,
    toolUseMode: string)

  /** What the toggle writes back (`updateAssistant`) and whether it showed the warning toast. */
  datatype ToggleOutcome = ToggleOutcome(updated: Assistant, warned: bool)

  predicate HasMcpServers(a: Assistant)
  {
    a.mcpServers.Some? && |a.mcpServers.value| > 0
  }

  /** Enabling is refused when MCP servers are attached and the assistant calls tools in
      function mode (`isToolUseModeFunction`, passed in as `functionMode`). */
  predicate Blocked(a: Assistant, functionMode: Assistant -> bool)
  {
    HasMcpServers(a) && !a.enableCodeExecution && functionMode(a)
  }

  /** `handleToggle`: request the negation of the current flag; a blocked request writes
      `false` and warns, any other request is written as asked. */
  function HandleToggle(a: Assistant, functionMode: Assistant -> bool): (r: ToggleOutcome)
    ensures r.updated == a.(enableCodeExecution := r.updated.enableCodeExecution)
    ensures r.warned <==> HasMcpServers(a) && !a.enableCodeExecution && functionMode(a)
    ensures !r.updated.enableCodeExecution <==> a.enableCodeExecution || r.warned
    ensures a.enableCodeExecution ==> !r.updated.enableCodeExecution && !r.warned
  {
    var requested := !a.enableCodeExecution;
    if HasMcpServers(a) && requested && functionMode(a) then
      ToggleOutcome(a.(enableCodeExecution := false), true)
    else
      ToggleOutcome(a.(enableCodeExecution := requested), false)
  }

  /** A refused request is a no-op apart from the warning: the assistant is written back
      unchanged. */
  lemma BlockedToggleChangesNothing(a: Assistant, functionMode: Assistant -> bool)
    requires Blocked(a, functionMode)
    ensures HandleToggle(a, functionMode) == ToggleOutcome(a, true)
  {
  }

  /** Two toggles in a row restore the assistant unless one of them was refused. */
  lemma ToggleTwiceRestores(a: Assistant, functionMode: Assistant -> bool)
    ensures var first := HandleToggle(a, functionMode);
      var second := HandleToggle(first.updated, functionMode);
      !first.warned && !second.warned ==> second.updated == a
  {
  }
}
