# Pixxel project store, plan policy and upload naming — a Dafny model

Pixxel is an image-editing web application. Its own logic is small: a
project store with ownership and plan-limit rules, kept in a hosted document
database, a client-side plan policy, and the naming of uploaded images. This
project models those three parts as pure Dafny functions and proves what they
promise.

- `wrappers.dfy` (`Wrappers`): `Option` (JavaScript's `undefined`) and
  `Result` (a handler that returns or throws).
- `schema.dfy` (`Schema`): the `users`, `projects` and `folders` records, the
  `free | pro` plan union, and document ids.
- `plan_policy.dfy` (`PlanPolicy`): the tool access table, `hasAccess`,
  `getRestrictedTools`, `canCreateProject`, `canExport`, `isPro`/`isFree`/`userPlan`.
- `project_list.dfy` (`ProjectList`): the order of the `by_user_updated`
  index read in descending order, and the insertion that builds the list.
- `project_store.dfy` (`ProjectStore`): the store as two finite maps and the
  five operations `getUserProjects`, `create`, `getProject`, `updateProject`
  and `deleteProject`. Each operation is one atomic transition. It takes the
  already-resolved caller and the current time `now`. It returns
  `Result<…, Error>` with `NotFound`, `AccessDenied` or `QuotaExceeded`.
- `store_properties.dfy` (`StoreProperties`): lemmas that relate operations.
  They cover counter consistency, the free-plan cap, read-after-write, list
  order and how sparse updates compose.
- `upload_name.dfy` (`UploadName`): the file-name filter with its fallback,
  the `userId/timestamp_name` storage key with its inverse, and the
  401-before-400 order of the endpoint's early checks.

In `PlanPolicy`, `ToolAllowed` is the access table itself (each tool's
value for a plan), and `IsPro`/`IsFree` are the two plan flags the hook
exposes; the lemmas and functions in the table below state their content.

The store keeps a `nextId` counter for fresh project ids. `Valid` states two
facts the model keeps true itself: every project id was already handed out,
and every owner is a stored user. The database does not check the second
fact. It holds here because no modelled operation deletes users and
`Create` only runs for a stored caller. All three mutations preserve
`Valid`.

Listing order: projects come most recently updated first. When two projects
have the same `updatedAt`, the later-created one (higher id) comes first.
This is how the platform breaks index ties, by creation time.

## Model

| member | source | states |
|---|---|---|
| Schema.ParsePlan | convex/schema.js:30 | a stored plan is accepted exactly when it is "free" or "pro", and it maps back to that literal |
| PlanPolicy.PlanOf | hooks/use-plan-access.js:7-8 | the plan is pro exactly when the identity provider's check exists and answers yes; otherwise it is free |
| PlanPolicy.UserPlan | hooks/use-plan-access.js:51 | the exposed plan name is "pro" iff pro and "free_user" iff free (isFree is !isPro) |
| PlanPolicy.LookupTool | hooks/use-plan-access.js:11-23 | an identifier has a table entry exactly when it is one of the seven tool names, and that entry is the tool named by it |
| PlanPolicy.HasAccess | hooks/use-plan-access.js:26-28 | access is granted iff the identifier names a table tool whose value is true; unknown identifiers are denied |
| PlanPolicy.DeniedAmong | hooks/use-plan-access.js:32-34 | the filtered list holds exactly the identifiers of the listed tools whose value is false |
| PlanPolicy.RestrictedTools | hooks/use-plan-access.js:31-35 | free gives [background, ai_extender, ai_edit] in table order, pro gives []; every entry is a table key |
| PlanPolicy.CanCreateProject | hooks/use-plan-access.js:38-41 | always true on pro; on free, true iff the current count is below 5 |
| PlanPolicy.CanExport | hooks/use-plan-access.js:44-47 | always true on pro; on free, true iff this month's exports are below 20 |
| PlanPolicy.BasicToolsOpen | hooks/use-plan-access.js:14-17 | resize, crop, adjust and text are accessible on every plan |
| PlanPolicy.AiToolsProOnly | hooks/use-plan-access.js:20-22 | background, ai_extender and ai_edit are accessible iff the plan is pro |
| PlanPolicy.UnknownToolDenied | hooks/use-plan-access.js:27 | an identifier that names no tool is denied on every plan |
| PlanPolicy.RestrictedIffDenied | hooks/use-plan-access.js:26-35 | a table tool is in the restricted list iff access to it is denied, so the two partition the table |
| PlanPolicy.CapsMonotone | hooks/use-plan-access.js:38-47 | a count either cap allows, every smaller count is allowed too; whatever free allows, pro allows |
| PlanPolicy.FreeCapsBoundary | hooks/use-plan-access.js:38-47 | on free, 4 projects still allow another and 5 do not; 19 exports allow another and 20 do not |
| PlanPolicy.ProviderAnswerDecidesPolicy | hooks/use-plan-access.js:7-22 | the provider's answer alone decides the plan name, AI-tool access and whether the restricted list is empty |
| ProjectList.Insert | convex/projects.js:23-24 | inserting a new project into a descending listing gives a descending listing of the old members plus it |
| ProjectList.Listing | convex/schema.js:77 | the listing holds exactly the user's projects (below a bound), strictly descending by (updatedAt, id) |
| ProjectList.SortedUnique | convex/schema.js:77 | two descending listings of the same projects are equal, so the index key fixes the list |
| ProjectStore.GetUserProjects | convex/projects.js:16-29 | returns exactly the caller's stored projects, each with its stored fields, most recently updated first |
| ProjectStore.Create | convex/projects.js:42-80 | fails with QuotaExceeded exactly when the policy forbids creating at the stored count. On success: one fresh project owned by the caller, created and updated at now; counter +1; lastActiveAt = now; nothing else changes |
| ProjectStore.MessagesDistinct | convex/projects.js:53-96 | the quota, not-found and access-denied messages are pairwise different, so the message identifies the error |
| ProjectStore.Authorize | convex/projects.js:90-97 | NotFound iff the project is absent (checked first); AccessDenied iff it exists and the caller is absent or not the owner |
| ProjectStore.GetProject | convex/projects.js:113-131 | returns the stored project iff the caller owns it, and otherwise fails with NotFound before AccessDenied |
| ProjectStore.ApplyPatch | convex/projects.js:157-176 | each supplied field is overwritten and each omitted one kept; title, owner, original image, folder and createdAt stay; updatedAt = now |
| ProjectStore.UpdateProject | convex/projects.js:134-185 | succeeds iff the caller owns the project. It rewrites only that project with the sparse update, refreshes only the owner's lastActiveAt, returns the id and keeps every owner |
| ProjectStore.DeleteProject | convex/projects.js:84-110 | succeeds iff the caller owns the project. It removes exactly that project and sets the owner's counter to max(0, count - 1) with lastActiveAt = now. Other users, other projects and all owners stay |
| StoreProperties.CreateCounts | convex/projects.js:60-77 | a successful create adds one to the caller's stored-project count and leaves everyone else's |
| StoreProperties.CreateKeepsCounter | convex/projects.js:60-77 | a counter that matched the stored projects before a successful create still matches after |
| StoreProperties.DeleteCounts | convex/projects.js:100 | a successful delete removes one from the owner's stored-project count and leaves everyone else's |
| StoreProperties.DeleteKeepsCounter | convex/projects.js:100-106 | a counter that matched before a successful delete still matches after (the zero floor never applies then) |
| StoreProperties.UpdateKeepsCounts | convex/projects.js:158-176 | an update moves no project between owners, so counts and matching counters are kept |
| StoreProperties.CreateKeepsCap | convex/projects.js:46-57 | if no free user holds more than 5 projects, none does after a successful create |
| StoreProperties.DeleteKeepsCap | convex/projects.js:100-106 | the free-plan cap survives a successful delete |
| StoreProperties.UpdateKeepsCap | convex/projects.js:176-181 | the free-plan cap survives a successful update |
| StoreProperties.QuotaIgnoresCounter | convex/projects.js:46-52 | the quota verdict depends on the stored projects, not on the projectsUsed counter |
| StoreProperties.CreateThenGet | convex/projects.js:60-79 | the id a successful create returns reads back for its creator as a project the creator owns, created at now |
| StoreProperties.DeleteThenGet | convex/projects.js:119-122 | after a successful delete, reading the project fails with NotFound for any caller |
| StoreProperties.ListIsDetermined | convex/projects.js:21-25 | any descending listing of exactly the caller's projects is the one the list operation returns |
| StoreProperties.UpdateMovesToFront | convex/projects.js:159 | a project just updated heads its owner's list when no other of theirs was touched at or after that time |
| StoreProperties.EmptyPatchOnlyTouches | convex/projects.js:158-160 | an update that supplies no field only changes updatedAt |
| StoreProperties.WidthOnlyPatch | convex/projects.js:165 | an update supplying only the width changes only width and updatedAt |
| StoreProperties.PatchesCompose | convex/projects.js:162-174 | two successive sparse updates equal one update with the later value winning per field |
| StoreProperties.PatchIdempotent | convex/projects.js:162-174 | repeating an update at the same time changes nothing further |
| UploadName.ReplaceUnkept | app/api/imagekit/upload/route.js:56 | same length; letters, digits, '.' and '-' keep their place, every other character becomes '_' |
| UploadName.SanitizeFileName | app/api/imagekit/upload/route.js:55-56 | the cleaned name is non-empty and all safe. An absent or empty name gives "upload"; otherwise it has the same length and position-wise replacement |
| UploadName.ReplaceFixesSafe | app/api/imagekit/upload/route.js:56 | a name of safe characters passes the replacement unchanged |
| UploadName.SanitizeIdempotent | app/api/imagekit/upload/route.js:55-56 | cleaning a cleaned name changes nothing |
| UploadName.SanitizeFixedPoints | app/api/imagekit/upload/route.js:55-56 | the names cleaning leaves alone are exactly the non-empty all-safe ones |
| UploadName.DecimalString | app/api/imagekit/upload/route.js:54-57 | the rendered timestamp is a non-empty string of decimal digits |
| UploadName.NoLeadingZero | app/api/imagekit/upload/route.js:57 | the rendered timestamp is "0" for zero and otherwise starts with a non-zero digit, the canonical form a template literal gives |
| UploadName.DecimalRoundTrip | app/api/imagekit/upload/route.js:57 | reading the rendered timestamp gives back the timestamp |
| UploadName.UniqueFileName | app/api/imagekit/upload/route.js:57 | the key begins with userId + "/" and is as long as its four parts together |
| UploadName.KeyRoundTrip | app/api/imagekit/upload/route.js:57 | splitting a key of the user yields exactly the timestamp and cleaned name it was built from |
| UploadName.CheckUpload | app/api/imagekit/upload/route.js:27-57 | 401 iff the user id is absent or empty, even with no file; 400 iff signed in without a file; otherwise the upload proceeds under exactly the key `userId/now_name` built by UniqueFileName, which parses back to now and the cleaned name |

## Left out

- Platform plumbing: `ctx.db` and the user lookup `internal.users.getCurrentUser` (`convex/users.js` is not part of this model). The caller is an already-resolved `Option<UserId>`. `create` and `getUserProjects` read the user unconditionally, so they take a present caller (`UserId`, not `Option`). Only `Create` also requires that caller to be stored, because it reads and patches the caller's record; `GetUserProjects` only filters projects by the id.
- The store operations have no `Unauthorized` error. The model follows the handlers' own `!user` branch (convex/projects.js:95, 124, 153): an absent caller on get, update and delete gets `AccessDenied`, after the `NotFound` check. The user lookup runs before that branch (convex/projects.js:88, 116, 146). It is not part of this model, so what it does for an anonymous request is not modelled; if it throws, an anonymous caller never reaches the `NotFound` check.
- Id generation: the platform's opaque ids are modelled as a counter, with freshness as part of `Valid`.
- Concurrency: overlapping `create` calls race between the quota read and the insert. The model treats each operation as one atomic step.
- Numbers: `Date.now()` is the parameter `now: nat`; width, height and counters are integers, not floating-point numbers. The canvas is an opaque value.
- canvasState: the schema declares it required, but `create` passes the argument through when it is omitted. The model stores `None` then; whether the database validator would reject that insert is platform behaviour.
- Folders and `exportsThisMonth`: no operation here reads or writes them. The store carries the folders unchanged. There is no folder-membership rule.
- User provisioning (the first sign-in upsert in `convex/users.js`) and billing (the identity provider's) are not modelled.
- The schema comment "Free: 3 projects" is stale. The enforced limit is 5, and the model uses 5.
- Upload endpoint: the ImageKit client, the upload call, the thumbnail URL and the response body are left out because they belong to a foreign SDK. The 500 catch-all (app/api/imagekit/upload/route.js:97-110) is left out too. It takes exceptions from that SDK and from three other places: `request.formData()` (route.js:36), `file.arrayBuffer()` (route.js:48), and `fileName.replace` when `fileName` is a file part rather than text (route.js:56). A `file` form field that is text rather than a file part is not modelled either.
- UploadName.DecimalString: its own ensures say only "non-empty decimal digits". The canonical form, with no leading zero, is stated by the separate lemma `UploadName.NoLeadingZero`; adding that clause to the function's ensures makes the key round-trip proof much more expensive.
- Strings are sequences of characters, with no UTF-16 detail: a character outside the Basic Multilingual Plane would become two `_` in the source.
- Route middleware, UI components, providers and the parallax hook: rendering and identity-provider route matching, with no logic of this application's own.
