/** Properties that relate several store operations, or that hold of every
    reachable store: counters stay in step with the stored projects, the
    free-plan cap holds, owners never change, and what one operation writes
    the next one reads. */
module StoreProperties {
  import opened Wrappers
  import opened Schema
  import PlanPolicy
  import ProjectList
  import opened ProjectStore

  /** Inserting a fresh project adds it to its owner's set only. */
  lemma OwnedAfterInsert(ps: map<ProjectId, Project>, id: ProjectId, p: Project, u: UserId)
    requires id !in ps
    ensures Owned(ps[id := p], u) == if p.userId == u then Owned(ps, u) + {id} else Owned(ps, u)
  {
  }

  /** Removing a project takes it out of every owner's set. */
  lemma OwnedAfterRemove(ps: map<ProjectId, Project>, id: ProjectId, u: UserId)
    ensures Owned(ps - {id}, u) == Owned(ps, u) - {id}
  {
  }

  /** Rewriting a project without changing its owner keeps every owner's set. */
  lemma OwnedAfterRewrite(ps: map<ProjectId, Project>, id: ProjectId, p: Project, u: UserId)
    requires id in ps && p.userId == ps[id].userId
    ensures Owned(ps[id := p], u) == Owned(ps, u)
  {
  }

  /** A successful create adds exactly one project to the caller's count
      and none to anyone else's. */
  lemma CreateCounts(st: Store, caller: UserId, args: CreateArgs, now: nat, u: UserId)
    requires Valid(st) && caller in st.users
    requires Create(st, caller, args, now).Success?
    ensures OwnedCount(Create(st, caller, args, now).value.store, u) ==
      if u == caller then OwnedCount(st, u) + 1 else OwnedCount(st, u)
  {
    var c := Create(st, caller, args, now).value;
    assert c.store.projects == st.projects[c.id := c.store.projects[c.id]];
    OwnedAfterInsert(st.projects, c.id, c.store.projects[c.id], u);
  }

  /** If a user's counter matched their stored projects before a successful
      create, it still does afterwards. */
  lemma CreateKeepsCounter(st: Store, caller: UserId, args: CreateArgs, now: nat, u: UserId)
    requires Valid(st) && caller in st.users
    requires Create(st, caller, args, now).Success?
    requires CounterConsistent(st, u)
    ensures CounterConsistent(Create(st, caller, args, now).value.store, u)
  {
    CreateCounts(st, caller, args, now, u);
  }

  /** A successful delete removes exactly one project from the owner's count
      and none from anyone else's. */
  lemma DeleteCounts(st: Store, caller: Option<UserId>, id: ProjectId, now: nat, u: UserId)
    requires Valid(st)
    requires DeleteProject(st, caller, id, now).Success?
    ensures OwnedCount(DeleteProject(st, caller, id, now).value, u) ==
      if u == st.projects[id].userId then OwnedCount(st, u) - 1 else OwnedCount(st, u)
  {
    var st' := DeleteProject(st, caller, id, now).value;
    assert st'.projects == st.projects - {id};
    OwnedAfterRemove(st.projects, id, u);
  }

  /** If a user's counter matched their stored projects before a successful
      delete, it still does afterwards: the owner held the deleted project,
      so the floor at zero never applies. */
  lemma DeleteKeepsCounter(st: Store, caller: Option<UserId>, id: ProjectId, now: nat, u: UserId)
    requires Valid(st)
    requires DeleteProject(st, caller, id, now).Success?
    requires CounterConsistent(st, u)
    ensures CounterConsistent(DeleteProject(st, caller, id, now).value, u)
  {
    DeleteCounts(st, caller, id, now, u);
    var owner := st.projects[id].userId;
    if u == owner {
      assert id in Owned(st.projects, owner);
    }
  }

  /** A successful update moves no project between owners. */
  lemma UpdateKeepsCounts(st: Store, caller: Option<UserId>, id: ProjectId, patch: Patch, now: nat, u: UserId)
    requires Valid(st)
    requires UpdateProject(st, caller, id, patch, now).Success?
    ensures OwnedCount(UpdateProject(st, caller, id, patch, now).value.store, u) == OwnedCount(st, u)
    ensures CounterConsistent(st, u) ==> CounterConsistent(UpdateProject(st, caller, id, patch, now).value.store, u)
  {
    OwnedAfterRewrite(st.projects, id, ApplyPatch(st.projects[id], patch, now), u);
  }

  /** Create never takes a free-plan user past the cap. */
  lemma CreateKeepsCap(st: Store, caller: UserId, args: CreateArgs, now: nat)
    requires Valid(st) && caller in st.users
    requires FreeCapHolds(st)
    requires Create(st, caller, args, now).Success?
    ensures FreeCapHolds(Create(st, caller, args, now).value.store)
  {
    var st' := Create(st, caller, args, now).value.store;
    forall u | u in st'.users && st'.users[u].plan == Free
      ensures OwnedCount(st', u) <= PlanPolicy.FreeProjectLimit
    {
      CreateCounts(st, caller, args, now, u);
    }
  }

  /** Delete never takes a free-plan user past the cap. */
  lemma DeleteKeepsCap(st: Store, caller: Option<UserId>, id: ProjectId, now: nat)
    requires Valid(st)
    requires FreeCapHolds(st)
    requires DeleteProject(st, caller, id, now).Success?
    ensures FreeCapHolds(DeleteProject(st, caller, id, now).value)
  {
    var st' := DeleteProject(st, caller, id, now).value;
    forall u | u in st'.users && st'.users[u].plan == Free
      ensures OwnedCount(st', u) <= PlanPolicy.FreeProjectLimit
    {
      DeleteCounts(st, caller, id, now, u);
    }
  }

  /** Update never takes a free-plan user past the cap. */
  lemma UpdateKeepsCap(st: Store, caller: Option<UserId>, id: ProjectId, patch: Patch, now: nat)
    requires Valid(st)
    requires FreeCapHolds(st)
    requires UpdateProject(st, caller, id, patch, now).Success?
    ensures FreeCapHolds(UpdateProject(st, caller, id, patch, now).value.store)
  {
    var st' := UpdateProject(st, caller, id, patch, now).value.store;
    forall u | u in st'.users && st'.users[u].plan == Free
      ensures OwnedCount(st', u) <= PlanPolicy.FreeProjectLimit
    {
      UpdateKeepsCounts(st, caller, id, patch, now, u);
    }
  }

  /** The quota looks at the stored projects, not at the counter: two stores
      that differ only in the caller's `projectsUsed` get the same verdict. */
  lemma QuotaIgnoresCounter(st: Store, caller: UserId, used: int, args: CreateArgs, now: nat)
    requires Valid(st) && caller in st.users
    ensures var st2 := st.(users := st.users[caller := st.users[caller].(projectsUsed := used)]);
      Create(st2, caller, args, now).Failure? == Create(st, caller, args, now).Failure?
  {
  }

  /** The id a successful create returns reads back, for its creator, as a
      project the creator owns. */
  lemma CreateThenGet(st: Store, caller: UserId, args: CreateArgs, now: nat)
    requires Valid(st) && caller in st.users
    requires Create(st, caller, args, now).Success?
    ensures var c := Create(st, caller, args, now).value;
      && GetProject(c.store, Some(caller), c.id).Success?
      && GetProject(c.store, Some(caller), c.id).value.userId == caller
      && GetProject(c.store, Some(caller), c.id).value.createdAt == now
  {
  }

  /** After a successful delete the project is gone for everyone. */
  lemma DeleteThenGet(st: Store, caller: Option<UserId>, id: ProjectId, now: nat, anyone: Option<UserId>)
    requires Valid(st)
    requires DeleteProject(st, caller, id, now).Success?
    ensures GetProject(DeleteProject(st, caller, id, now).value, anyone, id) == Failure(NotFound)
  {
  }

  /** Any descending listing of exactly the caller's projects is the one
      `GetUserProjects` returns. */
  lemma ListIsDetermined(st: Store, caller: UserId, s: seq<ProjectId>)
    requires Valid(st)
    requires ProjectList.SortedDesc(st.projects, s)
    requires forall id :: id in s <==> id in Owned(st.projects, caller)
    ensures var r := GetUserProjects(st, caller);
      |r| == |s| && forall i :: 0 <= i < |s| ==> r[i].id == s[i]
  {
    var r := GetUserProjects(st, caller);
    var ids := seq(|r|, i requires 0 <= i < |r| => r[i].id);
    forall id
      ensures id in ids <==> id in s
    {
      if id in ids {
        var i :| 0 <= i < |ids| && ids[i] == id;
        assert r[i].id == id;
      }
      if id in s {
        var i :| 0 <= i < |r| && r[i].id == id;
        assert ids[i] == id;
      }
    }
    ProjectList.SortedUnique(st.projects, ids, s);
  }

  /** The project just updated heads its owner's list when no other project
      of theirs was touched at or after that time. */
  lemma UpdateMovesToFront(st: Store, caller: UserId, id: ProjectId, patch: Patch, now: nat)
    requires Valid(st)
    requires UpdateProject(st, Some(caller), id, patch, now).Success?
    requires forall other :: other in Owned(st.projects, caller) && other != id ==>
      st.projects[other].updatedAt < now
    ensures var r := GetUserProjects(UpdateProject(st, Some(caller), id, patch, now).value.store, caller);
      |r| > 0 && r[0].id == id
  {
  }

  /** The patch that supplies nothing. */
  const EmptyPatch := Patch(None, None, None, None, None, None, None)

  /** Two patches applied in turn: the later one wins where it supplies a field. */
  function Merge(a: Patch, b: Patch): Patch {
    Patch(
      if b.canvasState.Some? then b.canvasState else a.canvasState,
      if b.width.Some? then b.width else a.width,
      if b.height.Some? then b.height else a.height,
      if b.currentImageUrl.Some? then b.currentImageUrl else a.currentImageUrl,
      if b.thumbnailUrl.Some? then b.thumbnailUrl else a.thumbnailUrl,
      if b.activeTransformations.Some? then b.activeTransformations else a.activeTransformations,
      if b.backgroundRemoved.Some? then b.backgroundRemoved else a.backgroundRemoved)
  }

  /** An update that supplies no field only refreshes the edit time. */
  lemma EmptyPatchOnlyTouches(p: Project, now: nat)
    ensures ApplyPatch(p, EmptyPatch, now) == p.(updatedAt := now)
  {
  }

  /** Supplying only the width changes the width and the edit time, nothing else. */
  lemma WidthOnlyPatch(p: Project, w: int, now: nat)
    ensures ApplyPatch(p, EmptyPatch.(width := Some(w)), now) == p.(width := w, updatedAt := now)
  {
  }

  /** Two successive updates equal one update with the merged fields. */
  lemma PatchesCompose(p: Project, a: Patch, b: Patch, t1: nat, t2: nat)
    ensures ApplyPatch(ApplyPatch(p, a, t1), b, t2) == ApplyPatch(p, Merge(a, b), t2)
  {
  }

  /** Repeating the same update at the same time changes nothing more. */
  lemma PatchIdempotent(p: Project, a: Patch, now: nat)
    ensures ApplyPatch(ApplyPatch(p, a, now), a, now) == ApplyPatch(p, a, now)
  {
  }
}
