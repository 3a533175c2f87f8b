/** Client-side plan policy: which editor tools a plan unlocks and the
    free-tier project and export caps. Everything is a pure function of the
    plan. */
module PlanPolicy {
  import opened Wrappers
  import opened Schema

  /** Projects a free-plan user may hold. */
  const FreeProjectLimit: int := 5
  /** Exports a free-plan user may make per month. */
  const FreeExportLimit: int := 20

  /** The editor tools of the access table. */
  datatype Tool = Resize | Crop | Adjust | Text | Background | AiExtender | AiEdit

  /** The access table's keys, in declaration order. */
  const Table: seq<Tool> := [Resize, Crop, Adjust, Text, Background, AiExtender, AiEdit]

  /** The identifier a tool is looked up by. */
  function ToolId(t: Tool): string {
    match t
    case Resize => "resize"
    case Crop => "crop"
    case Adjust => "adjust"
    case Text => "text"
    case Background => "background"
    case AiExtender => "ai_extender"
    case AiEdit => "ai_edit"
  }

  /** Table lookup by identifier; any other identifier has no entry. */
  function LookupTool(id: string): (r: Option<Tool>)
    ensures r.Some? ==> ToolId(r.value) == id
    ensures r.None? ==> forall t: Tool :: ToolId(t) != id
  {
    if id == "resize" then Some(Resize)
    else if id == "crop" then Some(Crop)
    else if id == "adjust" then Some(Adjust)
    else if id == "text" then Some(Text)
    else if id == "background" then Some(Background)
    else if id == "ai_extender" then Some(AiExtender)
    else if id == "ai_edit" then Some(AiEdit)
    else None
  }

  /** The plan reported by the identity provider: pro only when the check
      is available and answers yes (a missing check counts as not pro). */
  function PlanOf(hasProPlan: Option<bool>): (p: Plan)
    ensures p == Pro <==> hasProPlan == Some(true)
    ensures p == Free <==> hasProPlan != Some(true)
  {
    if hasProPlan == Some(true) then Pro else Free
  }

  predicate IsPro(p: Plan) {
    p == Pro
  }

  predicate IsFree(p: Plan)
  {
    !IsPro(p)
  }

  /** The plan name exposed to pages. */
  function UserPlan(p: Plan): (s: string)
    ensures s == "pro" <==> IsPro(p)
    ensures s == "free_user" <==> IsFree(p)
  {
    if IsPro(p) then "pro" else "free_user"
  }

  /** The table's value for a tool: basic tools are open to everyone, the AI
      tools to pro only. */
  predicate ToolAllowed(p: Plan, t: Tool) {
    match t
    case Resize | Crop | Adjust | Text => true
    case Background | AiExtender | AiEdit => IsPro(p)
  }

  /** Access check by identifier: only an entry that is exactly true grants. */
  function HasAccess(p: Plan, id: string): (b: bool)
    ensures b <==> exists t: Tool :: ToolId(t) == id && ToolAllowed(p, t)
    ensures LookupTool(id).None? ==> !b
  {
    match LookupTool(id)
    case Some(t) => ToolAllowed(p, t)
    case None => false
  }

  /** The identifiers among `tools` whose table value is false, keeping
      their order. */
  function DeniedAmong(p: Plan, tools: seq<Tool>): (r: seq<string>)
    ensures |r| <= |tools|
    ensures forall id :: id in r <==> exists t :: t in tools && ToolId(t) == id && !ToolAllowed(p, t)
    decreases |tools|
  {
    if tools == [] then []
    else
      var rest := DeniedAmong(p, tools[1..]);
      assert forall t :: t in tools <==> t == tools[0] || t in tools[1..];
      if ToolAllowed(p, tools[0]) then rest else [ToolId(tools[0])] + rest
  }

  /** The table keys the plan does not unlock, in table order. */
  function RestrictedTools(p: Plan): (r: seq<string>)
    ensures IsFree(p) ==> r == ["background", "ai_extender", "ai_edit"]
    ensures IsPro(p) ==> r == []
    ensures forall id :: id in r ==> LookupTool(id).Some?
  {
    DeniedAmong(p, Table)
  }

  /** Whether a user holding `currentProjectCount` projects may start another. */
  function CanCreateProject(p: Plan, currentProjectCount: int): (b: bool)
    ensures IsPro(p) ==> b
    ensures IsFree(p) ==> (b <==> currentProjectCount < FreeProjectLimit)
  {
    if IsPro(p) then true else currentProjectCount < FreeProjectLimit
  }

  /** Whether a user with `currentExportsThisMonth` exports may export again. */
  function CanExport(p: Plan, currentExportsThisMonth: int): (b: bool)
    ensures IsPro(p) ==> b
    ensures IsFree(p) ==> (b <==> currentExportsThisMonth < FreeExportLimit)
  {
    if IsPro(p) then true else currentExportsThisMonth < FreeExportLimit
  }

  /** Basic tools are usable on every plan. */
  lemma BasicToolsOpen(p: Plan)
    ensures HasAccess(p, "resize") && HasAccess(p, "crop")
    ensures HasAccess(p, "adjust") && HasAccess(p, "text")
  {
  }

  /** The AI tools are usable exactly on the pro plan. */
  lemma AiToolsProOnly(p: Plan)
    ensures HasAccess(p, "background") <==> IsPro(p)
    ensures HasAccess(p, "ai_extender") <==> IsPro(p)
    ensures HasAccess(p, "ai_edit") <==> IsPro(p)
  {
  }

  /** An identifier outside the table is denied on every plan. */
  lemma UnknownToolDenied(p: Plan, id: string)
    requires forall t: Tool :: ToolId(t) != id
    ensures !HasAccess(p, id)
  {
  }

  /** The restricted list and the access check partition the table: a table
      key is restricted exactly when access to it is denied. */
  lemma RestrictedIffDenied(p: Plan, t: Tool)
    requires t in Table
    ensures ToolId(t) in RestrictedTools(p) <==> !HasAccess(p, ToolId(t))
  {
  }

  /** The caps only loosen: a count the policy allows, any smaller count is
      allowed too, and whatever free allows, pro allows. */
  lemma CapsMonotone(p: Plan, n: int, m: int)
    requires m <= n
    ensures CanCreateProject(p, n) ==> CanCreateProject(p, m)
    ensures CanExport(p, n) ==> CanExport(p, m)
    ensures CanCreateProject(Free, n) ==> CanCreateProject(Pro, n)
    ensures CanExport(Free, n) ==> CanExport(Pro, n)
  {
  }

  /** The free caps are reached exactly at the limits: the last allowed
      count is one below the limit. */
  lemma FreeCapsBoundary()
    ensures CanCreateProject(Free, FreeProjectLimit - 1) && !CanCreateProject(Free, FreeProjectLimit)
    ensures CanExport(Free, FreeExportLimit - 1) && !CanExport(Free, FreeExportLimit)
  {
  }

  /** The provider's answer decides everything the hook exposes: the plan
      name, the AI tools and the restricted list. */
  lemma ProviderAnswerDecidesPolicy(hasProPlan: Option<bool>)
    ensures UserPlan(PlanOf(hasProPlan)) == "pro" <==> hasProPlan == Some(true)
    ensures UserPlan(PlanOf(hasProPlan)) == "free_user" <==> hasProPlan != Some(true)
    ensures HasAccess(PlanOf(hasProPlan), "ai_edit") <==> hasProPlan == Some(true)
    ensures RestrictedTools(PlanOf(hasProPlan)) == [] <==> hasProPlan == Some(true)
  {
  }
}
