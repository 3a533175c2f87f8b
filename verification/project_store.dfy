/** The project store: users and projects as two finite maps, and the five
    project operations (list, create, get, update, delete) as pure
    transitions. Each operation receives the already-resolved caller and the
    current time `now`; each either succeeds with its result (and the next
    store) or fails with one of the errors the handlers throw. */
module ProjectStore {
  import opened Wrappers
  import opened Schema
  import PlanPolicy
  import ProjectList

  /** The errors the project handlers throw. */
  datatype Error = NotFound | AccessDenied | QuotaExceeded

  /** The text each error is thrown with. */
  function Message(e: Error): string {
    match e
    case NotFound => "Project not found"
    case AccessDenied => "Access denied"
    case QuotaExceeded => "Free plan limited to 5 projects. Upgrade to Pro for unlimited projects."
  }

  /** The three messages tell the errors apart. */
  lemma MessagesDistinct(e1: Error, e2: Error)
    ensures Message(e1) == Message(e2) <==> e1 == e2
  {
  }

  /** The three tables, plus the next project id the platform will hand out. */
  datatype Store = Store(
    users: map<UserId, User>,
    projects: map<ProjectId, Project>,
    folders: map<FolderId, Folder>,
    nextId: nat)

  /** What the model keeps true of the tables: every project id was handed
      out already, and every project's owner is a stored user. The database
      does not check the second fact; it holds because no operation deletes
      users and `Create` runs only for a stored caller. */
  predicate Valid(st: Store) {
    && (forall id :: id in st.projects ==> id.n < st.nextId)
    && (forall id :: id in st.projects ==> st.projects[id].userId in st.users)
  }

  /** The ids of the projects `u` owns (the `by_user` index). */
  function Owned(ps: map<ProjectId, Project>, u: UserId): set<ProjectId> {
    set id | id in ps && ps[id].userId == u
  }

  /** How many projects `u` actually owns. */
  function OwnedCount(st: Store, u: UserId): nat {
    |Owned(st.projects, u)|
  }

  /** The user's `projectsUsed` counter agrees with the projects stored. */
  predicate CounterConsistent(st: Store, u: UserId) {
    u in st.users && st.users[u].projectsUsed == OwnedCount(st, u)
  }

  /** No free-plan user holds more projects than the free limit. */
  predicate FreeCapHolds(st: Store) {
    forall u :: u in st.users && st.users[u].plan == Free ==>
      OwnedCount(st, u) <= PlanPolicy.FreeProjectLimit
  }

  /** Every project still present kept its owner. */
  predicate OwnersKept(st: Store, st': Store) {
    forall id :: id in st.projects && id in st'.projects ==>
      st'.projects[id].userId == st.projects[id].userId
  }

  /** A project document as returned to the client: its id and fields. */
  datatype Doc = Doc(id: ProjectId, project: Project)

  /** The caller's projects, most recently updated first. */
  function GetUserProjects(st: Store, caller: UserId): (r: seq<Doc>)
    requires Valid(st)
    ensures forall i :: 0 <= i < |r| ==>
      && r[i].id in st.projects
      && r[i].project == st.projects[r[i].id]
      && r[i].project.userId == caller
    ensures forall id :: id in Owned(st.projects, caller) ==>
      exists i :: 0 <= i < |r| && r[i].id == id
    ensures forall i, j :: 0 <= i < j < |r| ==> ProjectList.Precedes(st.projects, r[i].id, r[j].id)
  {
    var ids := ProjectList.Listing(st.projects, caller, st.nextId);
    var r := seq(|ids|, i requires 0 <= i < |ids| => Doc(ids[i], st.projects[ids[i]]));
    assert forall i :: 0 <= i < |ids| ==> r[i].id == ids[i];
    assert forall id :: id in Owned(st.projects, caller) ==> id in ids;
    r
  }

  /** The arguments of `create`. */
  datatype CreateArgs = CreateArgs(
    title: string,
    originalImageUrl: Option<string>,
    currentImageUrl: Option<string>,
    thumbnailUrl: Option<string>,
    width: int,
    height: int,
    canvasState: Option<Canvas>)

  /** The result of a successful `create`: the next store and the new id. */
  datatype Created = Created(store: Store, id: ProjectId)

  /** Creates a project for the caller. A free-plan caller who already owns
      the free limit of stored projects is refused; otherwise one project is
      inserted and the caller's counter goes up by one. */
  function Create(st: Store, caller: UserId, args: CreateArgs, now: nat): (r: Result<Created, Error>)
    requires Valid(st) && caller in st.users
    ensures r.Failure? <==> !PlanPolicy.CanCreateProject(st.users[caller].plan, OwnedCount(st, caller))
    ensures r.Failure? ==> r.error == QuotaExceeded
    ensures r.Success? ==>
      var st', id := r.value.store, r.value.id;
      && id !in st.projects
      && st'.projects.Keys == st.projects.Keys + {id}
      && (forall other :: other in st.projects ==> st'.projects[other] == st.projects[other])
      && st'.projects[id] == Project(args.title, caller, args.canvasState, args.width, args.height,
                                     args.originalImageUrl, args.currentImageUrl, args.thumbnailUrl,
                                     None, None, None, now, now)
      && st'.users.Keys == st.users.Keys
      && st'.users[caller].projectsUsed == st.users[caller].projectsUsed + 1
      && st'.users[caller].lastActiveAt == now
      && st'.users[caller] == st.users[caller].(projectsUsed := st'.users[caller].projectsUsed, lastActiveAt := now)
      && (forall u :: u in st.users && u != caller ==> st'.users[u] == st.users[u])
      && st'.folders == st.folders
      && Valid(st')
      && OwnersKept(st, st')
  {
    var user := st.users[caller];
    if user.plan == Free && |Owned(st.projects, caller)| >= PlanPolicy.FreeProjectLimit then
      Failure(QuotaExceeded)
    else
      var id := ProjectId(st.nextId);
      var project := Project(args.title, caller, args.canvasState, args.width, args.height,
                             args.originalImageUrl, args.currentImageUrl, args.thumbnailUrl,
                             None, None, None, now, now);
      var users' := st.users[caller := user.(projectsUsed := user.projectsUsed + 1, lastActiveAt := now)];
      Success(Created(Store(users', st.projects[id := project], st.folders, st.nextId + 1), id))
  }

  /** The check every single-project operation makes: the project must exist
      (checked first), then the caller must be present and own it. */
  function Authorize(st: Store, caller: Option<UserId>, id: ProjectId): (r: Result<UserId, Error>)
    ensures r == Failure(NotFound) <==> id !in st.projects
    ensures r == Failure(AccessDenied) <==>
      id in st.projects && (caller.None? || caller.value != st.projects[id].userId)
    ensures r.Failure? ==> r.error == NotFound || r.error == AccessDenied
    ensures r.Success? ==> id in st.projects && caller == Some(st.projects[id].userId) && r.value == st.projects[id].userId
  {
    if id !in st.projects then Failure(NotFound)
    else if caller.None? || st.projects[id].userId != caller.value then Failure(AccessDenied)
    else Success(caller.value)
  }

  /** Reads one project; only its owner may. */
  function GetProject(st: Store, caller: Option<UserId>, id: ProjectId): (r: Result<Project, Error>)
    ensures r.Success? <==> id in st.projects && caller == Some(st.projects[id].userId)
    ensures r.Success? ==> r.value == st.projects[id]
    ensures r == Failure(NotFound) <==> id !in st.projects
    ensures r == Failure(AccessDenied) <==>
      id in st.projects && (caller.None? || caller.value != st.projects[id].userId)
  {
    var _ :- Authorize(st, caller, id);
    Success(st.projects[id])
  }

  /** The optional fields of `updateProject`; `None` leaves a field alone. */
  datatype Patch = Patch(
    canvasState: Option<Canvas>,
    width: Option<int>,
    height: Option<int>,
    currentImageUrl: Option<string>,
    thumbnailUrl: Option<string>,
    activeTransformations: Option<string>,
    backgroundRemoved: Option<bool>)

  /** A sparse update: each supplied field is overwritten, every other field
      is kept, and the edit time is refreshed. */
  function ApplyPatch(p: Project, patch: Patch, now: nat): (q: Project)
    ensures q.canvasState == (if patch.canvasState.Some? then patch.canvasState else p.canvasState)
    ensures q.width == patch.width.GetOr(p.width)
    ensures q.height == patch.height.GetOr(p.height)
    ensures q.currentImageUrl == (if patch.currentImageUrl.Some? then patch.currentImageUrl else p.currentImageUrl)
    ensures q.thumbnailUrl == (if patch.thumbnailUrl.Some? then patch.thumbnailUrl else p.thumbnailUrl)
    ensures q.activeTransformations ==
      (if patch.activeTransformations.Some? then patch.activeTransformations else p.activeTransformations)
    ensures q.backgroundRemoved ==
      (if patch.backgroundRemoved.Some? then patch.backgroundRemoved else p.backgroundRemoved)
    ensures q.title == p.title && q.userId == p.userId && q.originalImageUrl == p.originalImageUrl
    ensures q.folderId == p.folderId && q.createdAt == p.createdAt
    ensures q.updatedAt == now
  {
    var q := p.(updatedAt := now);
    var q := if patch.canvasState.Some? then q.(canvasState := patch.canvasState) else q;
    var q := if patch.width.Some? then q.(width := patch.width.value) else q;
    var q := if patch.height.Some? then q.(height := patch.height.value) else q;
    var q := if patch.currentImageUrl.Some? then q.(currentImageUrl := patch.currentImageUrl) else q;
    var q := if patch.thumbnailUrl.Some? then q.(thumbnailUrl := patch.thumbnailUrl) else q;
    var q := if patch.activeTransformations.Some? then q.(activeTransformations := patch.activeTransformations) else q;
    if patch.backgroundRemoved.Some? then q.(backgroundRemoved := patch.backgroundRemoved) else q
  }

  /** The result of a successful `updateProject`: the next store and the id. */
  datatype Updated = Updated(store: Store, id: ProjectId)

  /** Applies a sparse update to a project the caller owns and refreshes the
      owner's activity time. */
  function UpdateProject(st: Store, caller: Option<UserId>, id: ProjectId, patch: Patch, now: nat): (r: Result<Updated, Error>)
    requires Valid(st)
    ensures r.Success? <==> id in st.projects && caller == Some(st.projects[id].userId)
    ensures r == Failure(NotFound) <==> id !in st.projects
    ensures r == Failure(AccessDenied) <==>
      id in st.projects && (caller.None? || caller.value != st.projects[id].userId)
    ensures r.Success? ==>
      var st', owner := r.value.store, st.projects[id].userId;
      && r.value.id == id
      && st'.projects.Keys == st.projects.Keys
      && st'.projects[id] == ApplyPatch(st.projects[id], patch, now)
      && (forall other :: other in st.projects && other != id ==> st'.projects[other] == st.projects[other])
      && st'.users.Keys == st.users.Keys
      && st'.users[owner] == st.users[owner].(lastActiveAt := now)
      && (forall u :: u in st.users && u != owner ==> st'.users[u] == st.users[u])
      && st'.folders == st.folders
      && st'.nextId == st.nextId
      && Valid(st')
      && OwnersKept(st, st')
  {
    var owner :- Authorize(st, caller, id);
    var projects' := st.projects[id := ApplyPatch(st.projects[id], patch, now)];
    var users' := st.users[owner := st.users[owner].(lastActiveAt := now)];
    Success(Updated(Store(users', projects', st.folders, st.nextId), id))
  }

  /** Deletes a project the caller owns and lowers the owner's counter,
      never below zero. */
  function DeleteProject(st: Store, caller: Option<UserId>, id: ProjectId, now: nat): (r: Result<Store, Error>)
    requires Valid(st)
    ensures r.Success? <==> id in st.projects && caller == Some(st.projects[id].userId)
    ensures r == Failure(NotFound) <==> id !in st.projects
    ensures r == Failure(AccessDenied) <==>
      id in st.projects && (caller.None? || caller.value != st.projects[id].userId)
    ensures r.Success? ==>
      var st', owner := r.value, st.projects[id].userId;
      && st'.projects.Keys == st.projects.Keys - {id}
      && (forall other :: other in st'.projects ==> st'.projects[other] == st.projects[other])
      && owner in st'.users
      && st'.users[owner].projectsUsed >= 0
      && st'.users[owner].projectsUsed == (if st.users[owner].projectsUsed > 0 then st.users[owner].projectsUsed - 1 else 0)
      && st'.users[owner] == st.users[owner].(projectsUsed := st'.users[owner].projectsUsed, lastActiveAt := now)
      && (forall u :: u in st.users && u != owner ==> u in st'.users && st'.users[u] == st.users[u])
      && st'.users.Keys == st.users.Keys
      && st'.folders == st.folders
      && Valid(st')
      && OwnersKept(st, st')
  {
    var owner :- Authorize(st, caller, id);
    var user := st.users[owner];
    var used := if user.projectsUsed - 1 > 0 then user.projectsUsed - 1 else 0;
    var users' := st.users[owner := user.(projectsUsed := used, lastActiveAt := now)];
    Success(Store(users', st.projects - {id}, st.folders, st.nextId))
  }
}
