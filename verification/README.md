# mcp-oxide, modelled and verified

mcp-oxide is a gateway for MCP servers. Its control plane registers adapters and tools in a metadata store and runs
them through a deployment provider; its data plane lists and calls them under a role-based policy. This project models
that behaviour in Dafny and proves what it guarantees. `dafny verify dfyconfig.toml` checks everything.

## How the model is laid out

The control plane is the centre. `Machine` gives the create, update and delete handlers as one small-step machine whose
steps are the stretches between calls into the store or the provider; any call may fail. `Handlers` has the same
handlers as imperative methods over mutable tables, and proves each of them equal to a run of the machine: same
response, same final state, same state after every call, same events. `SoloRuns` runs the machine with one handler in
flight and crashes anywhere; `Interleaving` runs any number of handlers at once. Over those runs:

- `Effects`: what one request does to the stores, in guards a caller can test beforehand.
- `Orphans`: no workload runs without a record, at every intermediate state, exactly unless a removal abandons one.
- `Agreement`: what the provider runs against what the records say, over runs and, exactly, request by request.
- `Revisions`: the store is the replay of its writes, revisions count them, conditional updates lose nothing, ETags of
  successful writes stay good.
- `AuditTrail`: one audit record per operation, exactly unless the handler returned early.
- `Routing`: adapter resolution follows the stored writes; listing and calling agree in every reachable state.
- `Walks`: which tools a walk over the pages of `tools/list` returns while handlers change the store under it.
- `Witnesses`: concrete runs that show where the guarantees stop.

Around it: `Policy` and `Claims` (authorization and role extraction), `ToolRouter` (listing and pagination),
`MetadataStores` (SQLite against the in-memory store), `Session`, `Jwks`, and the parsers `ImageReference`, `ETag`,
`MemoryLimit` and `Validation`. `Ownership`, `Lexicographic`, `Text` and `Wrappers` are shared support.

## Assumptions

- Provider contract: a call that fails changes nothing, a successful apply replaces what runs under the name, a delete
  of something absent is success. The Docker provider does not meet it (it renames containers and reuses running ones),
  so nothing here is claimed for Docker. The provider is one map from names to applied records.
- Store calls are atomic, and a failed one changes nothing. Audit records are counted when handed to the sink.
- Provider handles carry no kind, so an adapter and a tool of one name share a workload. The theorems of `Orphans` and
  `Agreement` hold for such runs too and say what then runs; `Orphans.NoOrphansByOwner` and
  `Agreement.OwnedRecordsMatch` give the forms for names told apart.
- Arithmetic on u64 and usize wraps, as in the release profile on a 64-bit target.
- JSON encoding and decoding are inverse; signature checks, clocks and endpoint queries are parameters.

## Where the code and its own words differ

The model follows the code in each case.

- Deleting an adapter that was given an upstream after it was deployed does not tear the deployment down, although the
  comments on ordering are about never leaking a workload
  (`Orphans.DeleteLeavesOrphanExactly`, `Witnesses.ExternalizedAdapterIsOrphaned`).
- An update whose apply fails stays stored, and sending it again never reaches the provider
  (`Agreement.RetryReachesNothing`, `Witnesses.FailedApplyIsNeverRepaired`).
- A tool is listed from its write on, before it is deployed, and disappears again when its deployment fails, so a walk
  during which only creates run can miss a tool (`Witnesses.RollbackLosesATool`, `Walks.GrowthLosesNothing`).
- "One audit event per operation" fails for early returns (`AuditTrail.AuditedExactlyOnce` gives them exactly).
- The threat model asks for a key identifier in every token; key selection does not need one
  (`Jwks.MissingKidAnswered`). A published `alg` outside six values is replaced by the key type's default
  (`Jwks.DeclaredAlgorithmHonoured`).
- If-Match is compared weakly, where section 13.1.1 of RFC 9110 asks for the strong comparison
  (`ETag.PrintedParses`).
- Tools are listed under their definition's name and called by registry name (`ToolRouter.ListedNameCallsTool`).

## Model

| member | source | states |
|---|---|---|
| Orphans.NoOrphansExactly | crates/gateway/src/routes/control_plane.rs:419-441 | over every run with failures and crashes, every intermediate state has a record for each deployed name if and only if no step of the run removed the last record of a name still deployed |
| Orphans.OrderlyNext | crates/gateway/src/routes/control_plane.rs:624-644 | the same for one step: accounting is kept exactly when the step is not such a removal |
| Orphans.NoOrphansByOwner | crates/gateway/src/routes/control_plane_helpers.rs:182-192 | where adapter and tool names are told apart, accounting means a record in the table of the name's own kind |
| Orphans.DeleteLeavesOrphanExactly | crates/gateway/src/routes/control_plane.rs:594-647 | a delete leaves an orphan exactly when it is allowed, finds the record at the expected revision and removes it, and that record is an adapter with an upstream under whose name something runs that no tool accounts for |
| Orphans.NoOrphansWithoutExternalizing | crates/gateway/src/routes/control_plane.rs:541-584 | runs in which no update gives an upstream to a managed adapter keep a managed record behind every workload, whatever names are shared |
| Orphans.ToolRunsHaveNoOrphans | crates/gateway/src/routes/control_plane.rs:735-749 | runs over tools alone account for every workload unconditionally |
| Orphans.TurnStrandsExactly | crates/gateway/src/routes/control_plane.rs:419-441 | with any handlers in flight, one move keeps every workload recorded exactly when it is neither an apply for a name that lost its records nor the removal of the last record of a running name |
| Orphans.InterleavedOrphansExactly | crates/gateway/src/routes/control_plane.rs:735-749 | over every interleaved run, every state on the way accounts for its workloads if and only if no move is such |
| Agreement.DesiredMatchesActual | crates/gateway/src/routes/control_plane.rs:523-584 | after any run, names shared or not, what runs under a managed record's name is what was last applied and not torn down since: if the last deployment event is an apply, exactly the record's tracked fields if and only if it was applied for a record of that kind; nothing if it is a teardown; otherwise that event is a failed apply or a crash before one |
| Agreement.OwnedRecordsMatch | crates/gateway/src/routes/control_plane.rs:523-584 | where adapter and tool names are told apart, a last event that is an apply means exactly the record's tracked fields run |
| Agreement.RunningFields | crates/gateway/src/routes/control_plane.rs:523-584 | what was last applied for a record of its kind has the record's image, port, path, environment, secrets, resources and, for adapters, replicas |
| Agreement.UpdateRunsFields | crates/gateway/src/routes/control_plane.rs:537-584 | an update whose calls work, on a record in step with what runs, leaves those fields of the updated record running |
| Agreement.UpdateReachesExactly | crates/gateway/src/routes/control_plane.rs:552-583 | the provider is called for an update exactly when it is stored, has no upstream and changes one of those fields |
| Agreement.AccountedNext | crates/gateway/src/routes/control_plane.rs:829-883 | every single step, crash included, keeps that agreement and keeps the provider's state equal to what the events say |
| Agreement.AgreementKeptExactly | crates/gateway/src/routes/control_plane.rs:419-441 | a record of any kind and name that agrees with what runs still does after a completed request, if and only if the request neither drifts from it nor reaches the provider under its name for a record of the other kind; drifting is a create whose apply and rollback both fail (unless what runs there is the same), an update of tracked fields whose apply fails, or a delete that tears down and cannot remove |
| Agreement.OtherNamesUntouched | crates/gateway/src/routes/control_plane.rs:350-647 | a request changes no record of another name and nothing that runs under one |
| Agreement.FailedApplyIsStored | crates/gateway/src/routes/control_plane.rs:567-584 | an update answers with a provider error exactly when it passes its checks, is stored, changes tracked fields and its apply fails; it is then stored, the provider untouched, and the two differ |
| Agreement.RetryReachesNothing | crates/gateway/src/routes/control_plane.rs:552-583 | repeating such an update, under any failures, leaves what is deployed unchanged and out of step |
| Revisions.StoreRefinesWrites | crates/gateway/src/routes/control_plane.rs:395-424 | after any run the stored record is the replay of the successful writes, creates only where nothing was, updates only over what they expected |
| Revisions.RevisionCountsWrites | crates/gateway/src/routes/control_plane.rs:562-567 | a record exists exactly while writes are counted since its creation, and its revision is that count in u64 arithmetic |
| Revisions.RevisionIdentifiesContent | crates/gateway/src/routes/control_plane.rs:562-567 | within one life of a record two moments share a revision exactly when a multiple of 2^64 updates lies between, and below that many the content is the same |
| Revisions.NoLostUpdate | crates/gateway/src/routes/control_plane.rs:508-567 | a stored conditional update merged its changes into exactly the record with the expected revision, and no second one with that expectation is stored in the same life short of 2^64 updates |
| Revisions.EtagStaysGood | crates/gateway/src/routes/control_plane.rs:508-521 | the ETag of a successful create or update is not refused by a later conditional update or delete, whatever ran in between without writing that name |
| Revisions.CreateDescribes | crates/gateway/src/routes/control_plane.rs:443-453 | a create that does not fail answers with the record now stored and its ETag |
| Revisions.UpdateDescribes | crates/gateway/src/routes/control_plane.rs:586-591 | the same for updates |
| AuditTrail.AuditedExactlyOnce | crates/gateway/src/routes/control_plane_helpers.rs:68-137 | an operation ends with one audit record carrying its outcome exactly unless it is an early return, described on the inputs; those leave none and are failures |
| AuditTrail.CreateFinishes | crates/gateway/src/routes/control_plane.rs:735-761 | past its checks a create adds one record for its outcome unless its put fails |
| AuditTrail.UpdateFinishes | crates/gateway/src/routes/control_plane.rs:869-890 | the same for updates |
| AuditTrail.DeleteFinishes | crates/gateway/src/routes/control_plane.rs:923-940 | past its checks a delete adds one record unless the final removal is reached and fails |
| SoloRuns.CoherentStep | crates/gateway/src/routes/control_plane.rs:481-592 | with one handler in flight, what the handler has read is still what is stored, at every step |
| SoloRuns.CompletionIsRun | crates/gateway/src/routes/control_plane.rs:350-454 | a handler run to its response is a run of the small-step system, state by state |
| Effects.PassesExactly | crates/gateway/src/routes/control_plane.rs:481-521 | a request gets past its checks exactly when it is authorized, its names are valid, its header parses, the read works, and the name is free for a create or the record exists at the expected revision |
| Effects.EffectExactly | crates/gateway/src/routes/control_plane.rs:350-647 | run call by call, a request changes the stores exactly as its guards and the failing calls determine |
| Effects.AnswerExactly | crates/gateway/src/routes/control_plane.rs:350-647 | the response is the first thing wrong with the request, in the order the handlers look, or its success with location, ETag and record |
| Effects.AdmittedExactly | crates/gateway/src/routes/control_plane_helpers.rs:68-100 | a request is authorized exactly when the policy permits the control-plane action of its kind and verb on its name, with the new record's tags for a create and none otherwise |
| Effects.AuthorizeAsks | crates/gateway/src/routes/control_plane_helpers.rs:68-100 | the whole question put to the policy, and the policy identity or denial that comes of it |
| Effects.LocationRefused | crates/gateway/src/routes/control_plane_helpers.rs:170-180 | a Location header is refused for control characters in the name only |
| Effects.CreateStores | crates/gateway/src/routes/control_plane.rs:395-441 | a create leaves a record exactly unless its put fails or its failed deployment is rolled back, and that record holds the body field by field |
| Effects.UpdateStores | crates/gateway/src/routes/control_plane.rs:537-567 | an updated record holds every supplied field, every other field as it was, the next revision, the old creation time and the new modification time |
| Machine.FirstBadEnv | crates/gateway/src/routes/control_plane.rs:373-379 | the error is that of the first refused environment name, and there is none exactly when all are valid |
| Handlers.ControlPlane.Create | crates/gateway/src/routes/control_plane.rs:350-454 | the imperative create does what the machine does, call by call |
| Handlers.ControlPlane.StoreNew | crates/gateway/src/routes/control_plane.rs:735-761 | persisting first and deploying second, against the machine |
| Handlers.ControlPlane.Undo | crates/gateway/src/routes/control_plane.rs:433-440 | the rollback of a failed deployment, its own failure ignored |
| Handlers.ControlPlane.Update | crates/gateway/src/routes/control_plane.rs:481-592 | the imperative update does what the machine does, call by call |
| Handlers.ControlPlane.StoreChange | crates/gateway/src/routes/control_plane.rs:864-890 | store, then redeploy exactly when tracked fields changed on a managed record |
| Handlers.ControlPlane.Delete | crates/gateway/src/routes/control_plane.rs:594-647 | the imperative delete does what the machine does, call by call |
| Handlers.ControlPlane.Teardown | crates/gateway/src/routes/control_plane.rs:629-642 | the provider's delete: error changes nothing, gone or absent both leave nothing deployed |
| Handlers.ChangeAdapter | crates/gateway/src/routes/control_plane.rs:523-565 | the field-by-field assignments give the merged adapter, and the flag is exactly a difference in image, port, path, environment, secrets, resources, replicas or upstream |
| Handlers.ChangeTool | crates/gateway/src/routes/control_plane.rs:829-867 | the same for tools, without replicas and upstream |
| Handlers.CheckEnv | crates/gateway/src/routes/control_plane.rs:498-506 | the loop finds the first refused environment name |
| Records.FullUpdateMatchesCreate | crates/gateway/src/routes/control_plane.rs:396-417 | creating from a body and updating with all of it store the same record up to revision and creation time, exactly when the body omits nothing the record has: updates cannot clear a field |
| Records.UpdatesCompose | crates/gateway/src/routes/control_plane.rs:838-867 | two updates amount to the second laid over the first, two revisions on |
| Interleaving.RecordsStaySane | crates/gateway/src/routes/control_plane.rs:497-506 | under any interleaving every stored, deployed or in-flight record has validated names and sits under its own name |
| Interleaving.StoredNamesInLanguage | crates/gateway/src/routes/control_plane.rs:365-379 | in every reachable state stored names are in the documented language and environment names are safe |
| Interleaving.ValidNamesLocate | crates/gateway/src/routes/control_plane_helpers.rs:170-180 | a validated name always makes a valid Location header |
| Witnesses.ExternalizedAdapterIsOrphaned | crates/gateway/src/routes/control_plane.rs:624-644 | create, give an upstream, delete: all succeed and the workload stays without a record |
| Witnesses.SharedNameTearsDownTheOther | crates/gateway/src/routes/control_plane_helpers.rs:182-192 | an adapter and a tool of one name: deleting the tool tears down the adapter's deployment |
| Witnesses.RevisionsStartOver | crates/gateway/src/routes/control_plane.rs:414-414 | after delete and re-create an old expectation is met by different content |
| Witnesses.InterleavedUpdateIsLost | crates/gateway/src/routes/control_plane.rs:511-567 | two interleaved updates with the same expectation both succeed and one is erased |
| Witnesses.InterleavedDeleteOrphans | crates/gateway/src/routes/control_plane.rs:735-749 | a delete between a create's write and its apply leaves an orphan |
| Witnesses.FailedApplyIsNeverRepaired | crates/gateway/src/routes/control_plane.rs:552-584 | create, update the image with the apply failing, repeat it with every call working: success, and the old image runs |
| Witnesses.RollbackLosesATool | crates/gateway/src/routes/control_plane.rs:735-749 | only a create runs during a walk, and its rollback makes the walk miss a tool that was there throughout |
| Witnesses.RemovalLosesATool | crates/gateway/src/routes/tool_router.rs:203-222 | a delete between two pages makes the walk miss a surviving tool |
| Routing.RoutesFollowWrites | crates/gateway/src/state.rs:149-181 | in every reached state a name resolves to its static entry, else the latest written upstream, else the provider's first endpoint, else nothing |
| Routing.LatestUpstreamMeaning | crates/gateway/src/routes/control_plane.rs:541-541 | the latest upstream is that of a write that no later write of an upstream, creation or removal follows |
| Routing.ReachableListingAgrees | crates/gateway/src/routes/tool_router.rs:255-348 | in every state any interleaving reaches, a tool is on some page exactly when a call on its registry name is cleared |
| ToolRouter.HandleToolsList | crates/gateway/src/routes/tool_router.rs:132-252 | only those permitted to list are answered: with the first page of the tools they may call when the cursor is absent or not a number, and with the page from the cursor on otherwise |
| ToolRouter.WalkReturnsVisible | crates/gateway/src/routes/tool_router.rs:179-222 | asking without a cursor and then with each cursor as printed, the operation's answers concatenate to the tools the caller may call |
| ToolRouter.VisibleExactly | crates/gateway/src/routes/tool_router.rs:194-201 | visible are exactly the stored tools on which the policy permits tools/call and whose role list is empty or names a role of the caller |
| ToolRouter.CallStageExactly | crates/gateway/src/routes/tool_router.rs:293-348 | a call is cleared for the tool of that registry name exactly when it exists and the caller may call it, and is otherwise refused for the first thing missing |
| ToolRouter.VisibleMeaning | crates/gateway/src/routes/tool_router.rs:194-201 | visible tools are exactly the callable ones, in store order |
| ToolRouter.Clamp | crates/gateway/src/routes/tool_router.rs:179-182 | the nearest allowed page size, 50 when none is asked for |
| ToolRouter.AbortsExactly | crates/gateway/src/routes/tool_router.rs:183-204 | a page request aborts exactly when cursor plus size wraps to a point inside the list |
| ToolRouter.ServerCursorsSlice | crates/gateway/src/routes/tool_router.rs:203-222 | for server-issued cursors, also past the end of a list that shrank, the page is the plain slice and the next cursor is further on and survives printing |
| ToolRouter.PagesPartition | crates/gateway/src/routes/tool_router.rs:179-222 | following cursors with any page sizes ends and the pages concatenate to the visible list |
| ToolRouter.PageCount | crates/gateway/src/routes/tool_router.rs:179-222 | a constant size needs exactly the ceiling of n over size calls, at least one |
| Walks.GrowthLosesNothing | crates/gateway/src/routes/tool_router.rs:189-222 | over any interleaved run, if no move between the pages removes a stored tool or stores a different record over one, a walk returns every tool visible at its start |
| Walks.TurnTools | crates/gateway/src/routes/control_plane.rs:735-749 | a move loses no tool record exactly when it displaces none, a rollback included, and gains none exactly when it adds none |
| Walks.RemovalsLoseExactly | crates/gateway/src/routes/tool_router.rs:203-222 | over runs that only take tools away, a surviving tool is missed exactly when between two requests more visible tools below it went than its distance from the cursor |
| Walks.ReturnedExactly | crates/gateway/src/routes/tool_router.rs:203-222 | a tool visible at every request of a walk is on some page if and only if at some request it stands between the cursor used and the next one, or ahead of the last |
| Walks.MissedExactly | crates/gateway/src/routes/tool_router.rs:203-222 | where nothing joins below it, a tool visible throughout is missed exactly when it falls behind the cursor between two requests |
| Walks.RepliesAreWalk | crates/gateway/src/routes/tool_router.rs:179-222 | a client that asks without a cursor and then with each printed cursor makes such a walk |
| Walks.SkippedExactly | crates/gateway/src/routes/tool_router.rs:203-222 | a listed tool falls behind a cursor exactly when the tools that left below it outnumber those that joined there by more than its distance |
| Walks.OneRemovalKeepsExactly | crates/gateway/src/routes/tool_router.rs:203-222 | after one removal the rest of the walk keeps all other tools ahead exactly when the removed one was ahead too, or nothing was |
| Walks.StoreLists | crates/metadata/src/memory.rs:65-73 | what the in-memory store lists is the full listing of its table, in name order |
| ToolRouter.VisibleMonotone | crates/gateway/src/routes/tool_router.rs:194-201 | more roles or rules show a supersequence of the list |
| ToolRouter.ListedExactlyWhenCallable | crates/gateway/src/routes/tool_router.rs:293-348 | on some page exactly when a call on the registry name is cleared for that tool |
| ToolRouter.ListedNameCallsTool | crates/gateway/src/routes/tool_router.rs:205-216 | calling by the listed name reaches the listed tool exactly when it equals the registry name |
| MetadataStores.RunBoth | crates/metadata/src/sql.rs:154-276 | over any run of operations the SQLite and in-memory stores give equal answers in name order, and SQLite never fails to read back |
| MetadataStores.SqliteTable.Put | crates/metadata/src/sql.rs:216-234 | the upsert stores exactly one encoded row per name, tags column equal to the payload's tags |
| MetadataStores.SqliteTable.Get | crates/metadata/src/sql.rs:236-249 | the decoded payload of the name's row, or nothing |
| MetadataStores.SqliteTable.List | crates/metadata/src/sql.rs:251-267 | filtering on the tags column gives the records whose own tags match, by name |
| MetadataStores.SqliteTable.Delete | crates/metadata/src/sql.rs:269-276 | exactly the name's row goes |
| MetadataStores.InMemoryTable.Put | crates/metadata/src/memory.rs:58-61 | ordered insertion, replacing an entry of the same name |
| MetadataStores.InMemoryTable.List | crates/metadata/src/memory.rs:65-73 | exactly the stored records that carry every tag asked for, in ascending name order |
| MetadataStores.InsertGrowsListing | crates/metadata/src/memory.rs:58-73 | storing a record displaces the one of its name and no other, so the listing loses nothing exactly when the name was free or held that record |
| MetadataStores.ListingMeaning | crates/metadata/src/memory.rs:27-33 | listed are exactly the stored records that carry every tag asked for |
| MetadataStores.OrderByNameSorts | crates/metadata/src/sql.rs:251-254 | rows in strictly ascending name order with unchanged lookups |
| MetadataStores.FindInsert | crates/metadata/src/memory.rs:58-64 | inserting changes the lookup of that name only |
| MetadataStores.FindWithout | crates/metadata/src/memory.rs:74-77 | removing changes the lookup of that name only |
| Policy.DecidePermits | crates/authz/src/yaml_rbac.rs:103-182 | allowed exactly when the default allows or some rule is silent on or names the plane, is silent on or names the target, asks only for tags that are there, lists a role of the caller or everyone, and covers the action (by dotted segments, a plain prefix, or itself) |
| Policy.DataPlaneExactly | crates/gateway/src/routes/data_plane_helpers.rs:33-82 | cleared exactly when the policy permits and the resource asks for no roles or one the caller has; the policy's refusal comes first |
| Policy.GlobCovers | crates/authz/src/yaml_rbac.rs:156-167 | every pattern matches exactly the actions it covers |
| Policy.FirstRuleExplains | crates/authz/src/yaml_rbac.rs:104-124 | the reason names the first admitting rule or the default, the identity is always the policy's |
| Policy.RuleOrderFree | crates/authz/src/yaml_rbac.rs:104-124 | permuting or repeating rules never changes the allow bit |
| Policy.DecisionMonotone | crates/authz/src/yaml_rbac.rs:103-182 | more roles, tags or rules never turn allow into deny |
| Policy.DataPlaneMonotone | crates/gateway/src/routes/data_plane_helpers.rs:33-82 | the same end to end, with required roles |
| Policy.ClaimPathOrderFree | crates/identity/src/claims.rs:33-38 | the order or repetition of claim paths changes no decision |
| Policy.DottedGlobIsSegmentPrefix | crates/authz/src/yaml_rbac.rs:156-167 | a pattern ending in dot star matches exactly the actions whose dotted segments its own begin |
| Claims.GetPath | crates/identity/src/claims.rs:68-74 | the loop walks the dotted segments |
| Claims.DottedPathComposes | crates/identity/src/claims.rs:68-74 | a dotted path is the composition of its halves |
| Claims.Extract | crates/identity/src/claims.rs:30-64 | roles and groups are strictly ascending and hold exactly the string entries of the arrays their paths lead to, from object to object; subject, tenant and scopes are the strings theirs lead to |
| Claims.CanonicalLists | crates/identity/src/claims.rs:33-45 | a role list is strictly ascending and is exactly the union of the string entries its claim paths lead to |
| Claims.SimplePathIsMember | crates/identity/src/claims.rs:68-74 | a path without dots is the member of that name, of objects only |
| Claims.SplitAtBlank | crates/identity/src/claims.rs:52-54 | a scope string splits at any blank into the scopes of its halves |
| Claims.CanonicalOrderFree | crates/identity/src/claims.rs:33-45 | the list depends only on the set of paths |
| Claims.StringItemsMeaning | crates/identity/src/claims.rs:80-88 | exactly the string entries of an array are kept |
| Session.InMemorySessionStore.Resolve | crates/session/src/lib.rs:37-45 | the answer the history of binds and drops calls for |
| Session.InMemorySessionStore.Bind | crates/session/src/lib.rs:47-62 | adds one bind to the history |
| Session.InMemorySessionStore.DropSession | crates/session/src/lib.rs:64-69 | adds one drop to the history |
| Session.AnswerMeaning | crates/session/src/lib.rs:36-69 | the backend of the latest bind since the last drop, while its time to live runs, under any clock |
| Session.DropIsIsolated | crates/session/src/lib.rs:64-69 | dropping one session changes no other's answers |
| Session.BindIsIsolated | crates/session/src/lib.rs:47-62 | binding one route changes no other's answers |
| Jwks.OidcProvider.RefreshKeysInner | crates/identity/src/oidc.rs:151-191 | a refresh succeeds exactly with a usable key, replaces the cache then, and otherwise leaves it |
| Jwks.OidcProvider.Connect | crates/identity/src/oidc.rs:109-149 | a provider exists exactly with a configured issuer, a discovery document that names it, and a usable first key set; its cache is then filled |
| Jwks.OidcProvider.SelectKey | crates/identity/src/oidc.rs:225-246 | the selected key is the first cached one of the token's algorithm and, if it has one, identifier; a refresh is tried exactly when there is none or the set is older than its time to live; unknown exactly when none is cached then; the set is fresh unless that refresh failed |
| Jwks.UsableKeysMeaning | crates/identity/src/oidc.rs:164-176 | cached keys are exactly the usable published ones |
| Jwks.UsableExactly | crates/identity/src/oidc.rs:264-304 | a published key is usable exactly when it is not reserved for another use, its declared or type's algorithm is allowed, and its members make decodable material; it keeps its identifier |
| Jwks.UsableKeysInOrder | crates/identity/src/oidc.rs:164-176 | cached keys keep the published order |
| Jwks.SameIssuerExactly | crates/identity/src/oidc.rs:133-138 | issuers agree exactly when they differ in trailing slashes only |
| Jwks.CacheNeverEmpties | crates/identity/src/oidc.rs:182-185 | once filled the cache stays filled over any attempts, unchanged by failed ones |
| Jwks.Find | crates/identity/src/oidc.rs:193-201 | the first cached key of the algorithm and, if asked for, identifier is found, and none exactly when there is none |
| ImageReference.ParseBijection | crates/deployment/src/image_ref.rs:27-75 | a string parses to a triple exactly when the triple is well formed and prints as the string |
| ImageReference.ParseRender | crates/deployment/src/image_ref.rs:27-75 | parsing the printed form gives the triple back |
| ImageReference.RenderParse | crates/deployment/src/image_ref.rs:27-75 | every accepted string is rebuilt exactly from what parsing yields |
| ImageReference.Refusals | crates/deployment/src/image_ref.rs:27-75 | which of the five errors a refused reference gets |
| ETag.EtagRoundTrip | crates/gateway/src/routes/control_plane_helpers.rs:149-168 | parsing the ETag of any u64 revision gives it back |
| ETag.EtagIsWeak | crates/gateway/src/routes/control_plane_helpers.rs:164-168 | the tag is the weak marker and the revision's digits, without leading zeros, in quotes |
| ETag.IfMatchRefusals | crates/gateway/src/routes/control_plane_helpers.rs:149-162 | an absent header expects nothing; a refused one is refused for a character outside visible ASCII if it has one, else for meaning no revision |
| ETag.PrintedParses | crates/gateway/src/routes/control_plane_helpers.rs:156-161 | weak, strong and bare forms parse alike |
| ETag.IfMatchLanguage | crates/gateway/src/routes/control_plane_helpers.rs:149-162 | the accepted header language and its meaning, both directions |
| MemoryLimit.LimitLanguage | crates/deployment/src/docker.rs:403-426 | the accepted texts and their meaning, both directions: blanks, an optional plus sign, digits representable in u64, perhaps a unit, and the exact product capped at 2^63-1 |
| MemoryLimit.LimitIsCappedProduct | crates/deployment/src/docker.rs:423-425 | every such text gives that capped product over unbounded integers |
| MemoryLimit.UnitsExclusive | crates/deployment/src/docker.rs:408-420 | at most one unit ends a string, so the order of the tests is immaterial |
| MemoryLimit.LimitMonotone | crates/deployment/src/docker.rs:423-425 | under the same unit or none, larger counts however written give no smaller limit, and none is negative |
| Validation.ResourceNameLanguage | crates/gateway/src/routes/validation.rs:15-46 | the imperative checks accept exactly the documented pattern |
| Validation.FindReserved | crates/gateway/src/routes/validation.rs:78-84 | a reserved prefix is reported exactly when the name has one |
| Validation.Utf8Fewest | crates/gateway/src/routes/validation.rs:24-28 | names are measured in bytes, each character taking the fewest that can carry it |
| Validation.NameRefusals | crates/gateway/src/routes/validation.rs:20-46 | which check a refused resource name fails first |
| Validation.EnvNameLanguage | crates/gateway/src/routes/validation.rs:52-86 | accepted are exactly the non-empty names without equals sign, whitespace or one of ten listed prefixes |
| Validation.EnvRefusals | crates/gateway/src/routes/validation.rs:64-86 | which check a refused environment name fails first |
| Lexicographic.LessExactly | crates/identity/src/claims.rs:37-44 | the order of role lists and stored names: a proper prefix first, otherwise the smaller character at the first difference |
| Text.SplitConcat | crates/identity/src/claims.rs:70-72 | splitting distributes over joining with the separator |
| Text.ParsePrinted | crates/gateway/src/routes/tool_router.rs:183-187 | a printed number parses back |

## Left out

- HTTP serving, request decoding, proxying, SSE streaming and header forwarding: library behaviour.
- The Docker provider apart from memory limits: its calls do not meet the provider contract.
- CPU limits: floating point.
- Signature checks, JWK decoding and hashing: the key material's validity is a parameter of `Jwks`.
- The forwarding half of `tools/call`, and the data-plane adapter handler after resolution.
- Read-only control-plane endpoints (get, list, status) and the JSON shapes of responses.
- The `tenant` field of list filters, which neither store reads.
- Audit fields other than kind, verb, name, decision, policy and error; failures of the audit sink itself.
- Overflow in a debug build, which aborts instead of wrapping.
- Configuration loading, logging, metrics, health routes, charts and features that exist only as plans.
- Handlers.ControlPlane.Create: the adapter and tool handlers differ only in kind and in the upstream test, so one method stands for both; likewise Update and Delete.
- MetadataStores.RunBoth: one table stands for the adapters and the tools table, whose code is the same text.
- Jwks.OidcProvider.Connect: the HTTP client's construction and the fetch of the discovery document are one parameter that may fail.
- Agreement.DesiredMatchesActual: for one handler in flight at a time, because the handlers read and then write without a lock; `Witnesses.InterleavedUpdateIsLost` shows an interleaving the claim does not cover.
