/** The record shapes of the three tables (users, projects, folders) and the
    plan union, as declared by the database schema. */
module Schema {
  import opened Wrappers

  /** Document identifiers. The platform makes them opaque; the model numbers
      them so that a fresh one can be chosen. */
  datatype UserId = UserId(n: nat)
  datatype ProjectId = ProjectId(n: nat)
  datatype FolderId = FolderId(n: nat)

  /** A user's subscription tier: exactly one of the two literals. */
  datatype Plan = Free | Pro

  /** The serialized editor canvas; its structure belongs to the editing
      surface and is never interpreted here. */
  datatype Canvas = Canvas(json: string)

  datatype User = User(
    name: string,
    email: string,
    tokenIdentifier: string,
    imageUrl: Option<string>,
    plan: Plan,
    projectsUsed: int,
    exportsThisMonth: int,
    createdAt: int,
    lastActiveAt: int)

  /** A project: one owner, required title, canvas and size, optional image
      pipeline fields and folder, and two timestamps. */
  datatype Project = Project(
    title: string,
    userId: UserId,
    canvasState: Option<Canvas>,
    width: int,
    height: int,
    originalImageUrl: Option<string>,
    currentImageUrl: Option<string>,
    thumbnailUrl: Option<string>,
    activeTransformations: Option<string>,
    backgroundRemoved: Option<bool>,
    folderId: Option<FolderId>,
    createdAt: int,
    updatedAt: int)

  datatype Folder = Folder(name: string, userId: UserId, createdAt: int)

  /** The stored spelling of a plan. */
  function PlanLiteral(p: Plan): string {
    match p
    case Free => "free"
    case Pro => "pro"
  }

  /** Validation of a stored plan value against the union of the two literals. */
  function ParsePlan(s: string): (r: Option<Plan>)
    ensures r.Some? <==> s == "free" || s == "pro"
    ensures r.Some? ==> PlanLiteral(r.value) == s
    ensures forall p: Plan :: r == Some(p) <==> PlanLiteral(p) == s
  {
    if s == "free" then Some(Free)
    else if s == "pro" then Some(Pro)
    else None
  }
}
