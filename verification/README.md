# ProxyLoom, verified

A Dafny 4.11 model of the parts of ProxyLoom whose correctness spans several functions or whole runs,
with machine-checked proofs. `dafny verify dfyconfig.toml` checks everything.

ProxyLoom keeps proxy nodes, chains, policy groups and routing profiles in a revisioned catalog, freezes
consistent snapshots of them, compiles a snapshot for a client core, runs checks of compiled
configurations on leased runners, and imports and exports nodes as share links. Four groups of code are
modelled.

**The compiler** (`IR`, `Labels`, `DepGraph`, `Snapshot`, `Freeze`, `Routing`, `Names`, `Collect`,
`Graph`, `Policies`, `Tags`, `Assembly`, `Prepare`, `Emit`). A snapshot is accepted exactly when it is its
own dependency closure; it freezes to one canonical form; the label loop refines "shortest
distinguishing prefix"; routing compilation preserves the decision for every packet; a prepared graph
has distinct usable tags and no dangling reference, so printing it cannot fail.

**The lease protocol** (`Lease`, `Dispatch`, `Worker`). Step machines over integer time with the
server's replies left to the environment, and every property proved over all runs: the watchdog deadline, first
cause wins, slot accounting, no blocked worker, at most one commit.

**Canonical forms and print/parse pairs** (`Numbers`, `SecretBox`, `Query`, `ShareLink`, `Base64`,
`Utf8`, `Listing`, `Layers`, `Batch`, `UrlLinks`, `Reimport`). Exact decimal values over `real`, an
injective binary encoding under key rotation, share-link parameters, which nodes export as a link at all,
and whole exported lists read back through Base64 layers.

**Revisions and overlays** (`Nodes`, `Catalog`, `Overlay`, `OverlayHeap`, `Bound`). Histories of a resource, and
the materialised node that stays equal to its source baseline plus the stored patch.

Imperative code is modelled by methods and classes whose contracts tie them to specification functions;
the properties are lemmas about those functions. `Prelude` holds what Go's library provides (sorting,
decimal text, byte strings). Every lemma has automatic induction switched off; an inductive proof is an
explicit recursive call or a loop.

## Findings

Some statements one might expect are false of the code. Each is shown by an input, next to the exact
condition under which it holds.

- Scopes (internal/depgraph/depgraph.go:57-63). Two scopes can be mixed without a report
  (`DepGraph.EmptyScopeEscapes`): this happens exactly when no scope was given and the reachable resources
  have both empty and other scopes (`DepGraph.ScopeEscapesIff`). Stored scopes are UUIDs
  (schemas/ir-v1.schema.json:315), so this concerns a direct call of `Expand` only.
  `DepGraph.ExpansionIff` says, for every input, when nothing is reported.
- The watchdog (internal/runner/client.go:189-196 and 273-280). The budget is computed before the timer is
  armed, and the time in between is added to the 25 s (`Lease.GapAdds`). In every run the deadline is within
  25 s exactly when that gap is within the slack the server's expiry leaves (`Lease.DeadlineIff`);
  `Lease.StopsInTime` bounds it with the gap.
- Bare numbers (internal/apicontract/json.go:60). A number at the top of a document is not rewritten, because
  the result of the rewriting is dropped (`Numbers.TopLevelNumberKept`). The form of a request is canonical
  exactly when it is not a bare number in another text (`Numbers.RequestCanonicalIff`), and two forms agree
  exactly when the documents do, but for bare numbers spelled differently (`Numbers.RequestFormIff`).
- Overlays (internal/override/override.go:186-204). Restoring fields writes through pointers shared with the
  old document (`OverlayHeap.CombineWritesThrough`, `OverlayHeap.SharedRecordWritesThrough`).
  `OverlayHeap.Combine` says exactly when the old document keeps its value.
- Links (internal/importparse/emit.go:232-234). An ALPN entry may hold a comma (schemas/ir-v1.schema.json:28
  and 89), and the list is joined by commas: the entry `a,b` is read back as the entries `a` and `b`
  (`ShareLink.CommaLost`; `ShareLink.CommaSplits` for every list). A printed node comes back exactly when it
  is representable (`ShareLink.LinkRoundTrip`). The self-check of `EncodeURI` refuses to export the others
  (`UrlLinks.ExportIff`).

## Model

| member | source | states |
|---|---|---|
| Labels.Assign | internal/compiler/label.go:75-124 | labelling is refused exactly on a digest that is not 64 characters or when two items of a kind share a full digest; otherwise every item gets the shortest even prefix of at least 8 that no other item of its kind shares |
| Labels.GrowUntilDistinct | internal/compiler/label.go:92-123 | the unbounded loop terminates and reaches that closed form |
| Labels.Scan | internal/compiler/label.go:93-108 | one pass marks exactly the items whose current tags clash with another item's, both sides of each clash |
| Labels.Grow | internal/compiler/label.go:120-122 | the colliding items grow by two, in whatever order the map is visited; the others stay |
| Labels.SettledIsShortest | internal/compiler/label.go:75-124 | an item that stopped colliding has no shorter distinguishing prefix |
| Labels.ExhaustedIsCollision | internal/compiler/label.go:95-98 | growing past 64 happens only on a full collision |
| Labels.TagsPairwiseDistinct | internal/compiler/label.go:75-124 | all tags handed out differ, across items and between the hops of a chain |
| Labels.OrderIndependent | internal/compiler/label.go:75-124 | the labels depend on the multiset of items only |
| Labels.RefusalOrderIndependent | internal/compiler/label.go:75-124 | so does the refusal |
| DepGraph.Expand | internal/depgraph/depgraph.go:26-95 | the expansion visits the roots in order and returns the specified order, resources and diagnostics |
| DepGraph.Expander.Visit | internal/depgraph/depgraph.go:40-90 | the recursive closure changes its captured state exactly as the specified walk |
| DepGraph.Expander.VisitRefs | internal/depgraph/depgraph.go:79-86 | the reference loop does, too |
| DepGraph.ExpandedSafe | internal/depgraph/depgraph.go:26-95 | for every input the order has no duplicate, holds only reachable resources and stays within the budget |
| DepGraph.CleanExpansion | internal/depgraph/depgraph.go:26-95 | without diagnostics the order is exactly the reachable set, every dependency before its dependents; whatever the scopes |
| DepGraph.ExpansionIff | internal/depgraph/depgraph.go:26-95 | for every input: no diagnostics if and only if the reachable part is complete, right-kind, enabled, not excluded, acyclic and within the budget, and its scopes settle in the order of discovery |
| DepGraph.ScopeAfterIff | internal/depgraph/depgraph.go:57-63 | entering resources one by one meets no scope mismatch exactly when all have one scope, except that without a given scope the first ones may have none |
| DepGraph.DiscoveredAll | internal/depgraph/depgraph.go:40-94 | without diagnostics plain depth-first discovery meets exactly the reachable resources, each once, and ends in the scope of the walk |
| DepGraph.OneScopeIff | internal/depgraph/depgraph.go:26-95 | with a scope given, or no empty scope within reach, no diagnostics if and only if the reachable part is complete and of one scope |
| DepGraph.ScopeEscapesIff | internal/depgraph/depgraph.go:57-63 | an expansion without diagnostics mixes scopes exactly when none was given and empty scopes are reached beside others |
| DepGraph.EmptyScopeEscapes | internal/depgraph/depgraph.go:57-63 | an input whose two scopes expand without a report |
| Snapshot.Closure | internal/ir/frozen.go:378-386 | the growing-queue loop terminates and marks exactly what the roots reach |
| Snapshot.Index | internal/ir/frozen.go:207-221 | no issue exactly for distinct ids, one scope and enabled resources |
| Snapshot.CheckTargets | internal/ir/frozen.go:222-239 | no issue exactly for distinct keys and pairwise agreeing builds, although each target is compared with one earlier only |
| Snapshot.CheckRoots | internal/ir/frozen.go:240-312 | the roots are the present members, profiles and embedded presets; no issue exactly when all agree in kind, revision and epoch |
| Snapshot.CheckLinks | internal/ir/frozen.go:315-377 | the edges are the resolved typed references; no issue exactly when every reference resolves to its kind and DNS rule sets hold domains |
| Snapshot.CheckAllOverrides | internal/ir/frozen.go:387-407 | no issue exactly when every override names a reachable policy group it merges with |
| Snapshot.CheckReached | internal/ir/frozen.go:408-412 | no issue exactly when every resource is reachable |
| Snapshot.Validate | internal/ir/frozen.go:184-417 | no diagnostics if and only if the snapshot is accepted: valid elements, typed edges resolved, and every resource in the dependency closure |
| Snapshot.AcceptedIsClosure | internal/ir/frozen.go:201-417 | an accepted snapshot has distinct ids, lists exactly the closure of its roots, and each of its references is an edge of that closure |
| Freeze.NewFrozenInput | internal/ir/frozen.go:424-446 | freezing refuses exactly what validation refuses, else gives the canonical arrangement |
| Freeze.FreezeIgnoresOrder | internal/ir/frozen.go:424-446 | specs that differ only in the order of resources, members, targets or tags are both refused or freeze to the identical snapshot |
| Freeze.FreezeIdempotent | internal/ir/frozen.go:424-446 | a frozen snapshot is accepted again and freezing it changes nothing |
| Freeze.AlikeClosure | internal/ir/frozen.go:378-386 | reordering keeps the dependency closure |
| Routing.RouteCondition | internal/compiler/orchestration.go:177-226 | refused exactly when a rule set is missing or unusable; otherwise for every packet the condition is AND across populated fields, OR within a field, OR across rule-set entries |
| Routing.RuleSetTerms | internal/compiler/orchestration.go:200-221 | the rule-set loop gives the OR of all entries of all sets |
| Routing.EntryTerms | internal/compiler/orchestration.go:207-218 | one alternative an entry; a CIDR entry is refused for DNS |
| Routing.PortTextMeaning | internal/compiler/orchestration.go:187-194 | a printed port range, read as text, matches exactly its ports |
| Routing.CompileRules | internal/compiler/orchestration.go:113-126 | compiled exactly when all enabled rules compile and their total weight fits the limit |
| Routing.MeaningPreserved | internal/compiler/orchestration.go:108-127 | for every packet, first match over the compiled rules is the action of the first enabled matching source rule, else the final |
| Names.PrintInjective | internal/compiler/orchestration.go:82-95 | node, hop, group and member names print to different tags |
| Names.PrintNotReserved | internal/adapter/emit.go:136-143 | no printed name is empty or reserved |
| Collect.MergeOverrides | internal/compiler/prepare.go:85-96 | the merged store, refused exactly when an override does not merge |
| Collect.MergedLinked | internal/compiler/prepare.go:85-96 | applying a pinned target's overrides keeps every reference of an accepted snapshot resolved |
| Collect.AddResource | internal/compiler/prepare.go:105-135 | a node, chain or group is listed once with its label item; any other payload is refused |
| Collect.CollectAll | internal/compiler/prepare.go:136-164 | the members and the routing and DNS references are collected in that order; refused exactly when one of them is missing or no node, chain or group |
| Collect.LinkedRefsOutbound | internal/compiler/prepare.go:141-164 | in a linked store no routing or DNS reference is refused |
| Collect.TargetRefResolved | internal/compiler/prepare.go:141-164 | each of those references is a node, chain or group of the store |
| Graph.LookupTags | internal/compiler/prepare.go:197-215 | every collected resource has the tags its label prints, different stems for different ids |
| Graph.ItemFixesId | internal/compiler/label.go:41-73 | resources of one kind with the same label item are the same resource |
| Graph.BuildNodes | internal/compiler/prepare.go:197-200 | one outbound a node, under its own tag |
| Graph.BuildChains | internal/compiler/prepare.go:201-215 | one instance a chain, with both hops resolved |
| Graph.NodesTagged | internal/compiler/prepare.go:197-200 | all node tags are distinct printed names |
| Graph.ChainsTagged | internal/compiler/prepare.go:201-215 | all hop tags are, and differ from the node tags |
| Policies.ExpandMembers | internal/compiler/orchestration.go:83-95 | every member gets its own outbound or chain under its member tag |
| Policies.ListMembers | internal/compiler/orchestration.go:96-104 | the member list is the default first, then the others in order |
| Policies.ExpandGroups | internal/compiler/orchestration.go:57-106 | the policy loop stops at the first unavailable strategy, else expands every group |
| Policies.InstanceMembers | internal/compiler/orchestration.go:82-105 | each policy lists exactly its members' tags, the default's first, none twice |
| Policies.MemberTagsDistinct | internal/compiler/orchestration.go:84-95 | member tags of a group are distinct |
| Policies.GroupsTagged | internal/compiler/orchestration.go:57-106 | all member tags of all groups are distinct, also from node and hop tags |
| Policies.GroupOutsSize | internal/compiler/prepare.go:169-177 | expanding the groups adds exactly the outbounds counted beforehand |
| Policies.GroupMemberUsed | internal/compiler/orchestration.go:84-95 | after all groups are expanded every member still has its outbound |
| Tags.FillTags | internal/compiler/orchestration.go:39-47 | the tag map has exactly the collected resources, each under its exit tag |
| Tags.TaggedRearranged | internal/compiler/prepare.go:216-226 | the sorts keep the tags distinct |
| Assembly.CountOutbounds | internal/compiler/prepare.go:169-177 | the count is nodes plus twice the chains plus the members' share |
| Assembly.Assemble | internal/compiler/prepare.go:192-226 | refused exactly on an unavailable strategy; else tags are distinct and usable, the size is the count, every policy is sound and every collected resource is offered under its tag |
| Prepare.DirectOnly | internal/compiler/orchestration.go:132-140 | only the builtin resolves to `direct` |
| Prepare.CompileRouting | internal/compiler/orchestration.go:108-127 | refused exactly over the rule limit; every rule target and the final is a builtin or defined |
| Prepare.TagResolvers | internal/compiler/orchestration.go:132-140 | refused exactly when a UDP resolver does not go out directly |
| Prepare.CompileDNS | internal/compiler/orchestration.go:128-155 | DNS rules compile under the shared limit and every resolver outbound tag is a builtin or defined |
| Prepare.CheckPreset | internal/compiler/orchestration.go:156-171 | the preset step succeeds exactly when a pinned preset agrees and has its profiles, or nothing that needs one is there; it reports a mismatch exactly when the preset disagrees |
| Prepare.BuildProfiles | internal/compiler/orchestration.go:108-171 | routing, DNS and preset succeed exactly when their limits and their mutual presence fit, and an error says which does not |
| Prepare.Build | internal/compiler/prepare.go:98-226 | on a ready store, a graph comes out exactly when it is buildable, and it is a sound graph; a refusal names the first of labels, size, strategies and profiles that fails |
| Prepare.AcceptedReady | internal/compiler/prepare.go:85-96 | an accepted snapshot is ready for each of its targets |
| Prepare.FindTarget | internal/compiler/prepare.go:51-55 | found exactly when the snapshot pins this very target |
| Prepare.Prepare | internal/compiler/prepare.go:47-226 | succeeds if and only if the snapshot is preparable for the target; the graph then has distinct non-reserved tags, the counted size, and no dangling member, default, rule target, final, DNS or dialer tag; a refusal names the first condition that fails, and never an override that does not merge, a reference that is no outbound or a preset that disagrees with its target |
| Emit.OutboundRefs | internal/adapter/emit.go:162-195 | refused exactly over the limit or on an empty, reserved or repeated tag; else every outbound is listed, second hops dialling through the first |
| Emit.OrderedOutboundRefs | internal/adapter/emit.go:197-226 | the same outbounds, each once, the exit in front and the rest sorted |
| Emit.ListedOK | internal/adapter/emit.go:162-195 | on a prepared graph no tag check fires |
| Emit.PreparedExit | internal/adapter/emit.go:145-160 | a prepared graph has an exit, and it is a builtin or defined |
| Emit.EmitPrepared | internal/adapter/emit.go:145-226 | listing succeeds if and only if the snapshot is preparable: the graph is the sound one preparing gives, the list holds all its outbounds with its exit in front, and no check of its own ever refuses |
| Numbers.CanonicalNumber | internal/apicontract/json.go:230-264 | for every JSON number (section 6 of RFC 8259) the output is canonical text of exactly the same value |
| Numbers.Trim | internal/apicontract/json.go:244-250 | dropping zeros on both sides keeps the value |
| Numbers.Render | internal/apicontract/json.go:251-259 | each placement of the decimal point keeps the value |
| Numbers.CanonicalUnique | internal/apicontract/json.go:230-264 | canonical texts of equal value are the same text |
| Numbers.SameValueSameText | internal/apicontract/json.go:230-264 | two numbers are equal in value if and only if their canonical texts are equal |
| Numbers.CanonicalIdempotent | internal/apicontract/json.go:230-264 | rewriting canonical text changes nothing |
| Numbers.BoundedOutput | internal/apicontract/json.go:219-264 | a number within the input bounds has output of bounded length |
| Numbers.NormalizeNumbers | internal/apicontract/json.go:200-214 | every number in a document becomes canonical and nothing else changes |
| Numbers.SameDocumentSameForm | internal/apicontract/json.go:200-214 | normalised documents are equal if and only if the documents are the same up to number spelling |
| Numbers.CanonicalDocument | internal/apicontract/json.go:52-66 | a request gets its form: containers normalised, a bare number as written |
| Numbers.RequestCanonicalIff | internal/apicontract/json.go:52-66 | the form is canonical if and only if the request is not a bare number in other than canonical text |
| Numbers.RequestFormIff | internal/apicontract/json.go:52-66 | two requests have the same form if and only if they are the same document and not bare numbers of equal value in different texts |
| Numbers.TopLevelNumberKept | internal/apicontract/json.go:52-66 | 1.0 and 1 are the same document and every form the code can give them differs |
| Lease.StopAfter | internal/runner/client.go:285-295 | the budget ends 5 s before both the server's expiry and 30 s after the request, and at one of the two exactly |
| Lease.StepInv | internal/runner/client.go:189-283 | every grant, failed, rejected, mismatched, cancelling or extending heartbeat and every timer event keeps the deadline bound, for both kinds of job |
| Lease.RunInv | internal/runner/network.go:68-146 | so does every run, and the state only moves on |
| Lease.StopsInTime | internal/runner/client.go:189-196 | in every run the deadline is at most 25 s after the request that obtained the extension in force, plus the arming gap, so a 30 s lease counted from no earlier than that request outlives it by 5 s less the gap |
| Lease.NoRevival | internal/runner/client.go:251-281 | the first stop cause is permanent and no later heartbeat revives the run |
| Lease.GapAdds | internal/runner/client.go:189-196 | the bound is reached, and the gap adds to it |
| Lease.NoGapNoExcess | internal/runner/client.go:189-196 | without a gap the deadline is within 25 s |
| Lease.StartBoundIff | internal/runner/client.go:189-196 | at the start the deadline is within 25 s of the request if and only if the arming gap is within the slack the server's expiry leaves |
| Lease.StepBudgeted | internal/runner/client.go:251-280 | every step keeps a grant's budget what `stopAfter` computed, and the timer exactly the slack short of 25 s after the request, plus the gap |
| Lease.DeadlineIff | internal/runner/client.go:189-280 | in every run, after whatever extensions, the deadline is within 25 s of the request in force if and only if the arming gap is within the slack, under the first or a registered clock offset |
| Lease.StopsBeforeServer | internal/runner/client.go:142-196 | in every run with registered clock offsets the timer fires 5 s, less the arming gap, before the lease in force expires at the server |
| Lease.OffsetConservative | internal/runner/client.go:145-165 | the clock offset taken at dispatch never places the stop later in server time than the margin allows |
| Lease.Guard.Heartbeat | internal/runner/client.go:251-278 | one turn of the loop is one step of the machine |
| Lease.Guard.Reset | internal/runner/client.go:279-280 | arming is one step |
| Lease.Guard.Expire | internal/runner/client.go:196-196 | the timer function stops the run with a cause |
| Dispatch.StepInv | internal/runner/dispatch.go:19-97 | every step keeps active equal to running plus buffered for each kind, within 1, 4 and 1, and offline and online apart |
| Dispatch.Always | internal/runner/dispatch.go:19-97 | in every interleaving from the start these hold and no send blocks |
| Dispatch.SlotsSound | internal/runner/dispatch.go:54-66 | requested slots are never negative and never ask for both modes |
| Dispatch.RoomForAll | internal/runner/dispatch.go:29-29 | buffered completions and running workers together stay below the channel's capacity |
| Dispatch.SendNeverBlocks | internal/runner/dispatch.go:81-81 | a worker can always send its completion, also after the loop returned |
| Dispatch.ShutdownCompletes | internal/runner/dispatch.go:24-24 | from any state after the return the workers can all finish without anyone receiving |
| Dispatch.Dispatcher.TakeCompletion | internal/runner/dispatch.go:35-41 | receiving is one step |
| Dispatch.Dispatcher.AvailableSlots | internal/runner/dispatch.go:54-66 | the slots computed step by step are the specified ones |
| Dispatch.Dispatcher.Launch | internal/runner/dispatch.go:71-83 | a lease is launched exactly when its kind was asked for |
| Worker.StepInv | internal/jobs/worker.go:78-160 | every step of the handler, the renewer and the environment keeps the protocol's invariant |
| Worker.CommitSafe | internal/jobs/worker.go:78-122 | in every run there are at most two completions, a commit only in the first, and only if the handler succeeded with one and the renewer recorded nothing |
| Worker.LateCancel | internal/jobs/worker.go:100-121 | a second completion is Canceled without a callback; a lost lease completes nothing; a recorded cancel completes Canceled |
| Worker.ParentStopsAll | internal/jobs/worker.go:97-99 | a parent stop seen before completion completes nothing |
| Worker.RenewerStops | internal/jobs/worker.go:95-160 | once the handler is done the renewer can stop within two steps, whatever a heartbeat under way replies |
| Worker.RenewerBounded | internal/jobs/worker.go:123-160 | in every run the renewer makes at most two steps for each tick and two more, so only the ticker keeps it going |
| Worker.Settle | internal/jobs/worker.go:97-122 | the tail of process makes exactly the calls the verdict and the replies call for |
| Catalog.Apply | internal/catalog/resource.go:36-72 | an update is refused or gives the specified next revision |
| Catalog.Invalidate | internal/catalog/resource.go:77-94 | so is a revocation or deletion |
| Catalog.AuthChangedIsCredentials | internal/catalog/resource.go:53-64 | the comparison of the code is exactly a change of authentication or REALITY key material |
| Catalog.StepFacts | internal/catalog/resource.go:36-94 | each step raises the revision by one; the epoch stays only with the same credentials and no disabling |
| Catalog.HistorySafe | internal/catalog/resource.go:15-94 | over every history: revision is the step number, epoch grows and never exceeds it, equal epochs mean identical credentials throughout and no disabling in between |
| Catalog.EditKeepsEpoch | internal/catalog/resource.go:36-72 | an edit keeps the epoch if and only if it changes no credentials and does not disable |
| Catalog.InvalidationEndsEpoch | internal/catalog/resource.go:74-94 | revoking and deleting always end the epoch; deleting disables |
| SecretBox.BigEndianRoundTrip | internal/secretbox/secretbox.go:307-331 | fixed-width integers are read back |
| SecretBox.FieldSplit | internal/secretbox/secretbox.go:328-331 | a length-prefixed field is read back whatever follows it |
| SecretBox.AADInjective | internal/secretbox/secretbox.go:307-315 | associated data is equal if and only if context, purpose and version are |
| SecretBox.TaggedInjective | internal/secretbox/secretbox.go:307-326 | and stays injective with anything appended |
| SecretBox.TaggedAppend | internal/secretbox/secretbox.go:317-326 | the wrapping data extends the context data |
| SecretBox.SealSound | internal/secretbox/secretbox.go:131-156 | a sealed record is sound under the active key |
| SecretBox.OpenSound | internal/secretbox/secretbox.go:158-168 | a sound record opens to its plaintext exactly with the key of its wrapper, else fails |
| SecretBox.RewrapSound | internal/secretbox/secretbox.go:170-186 | rewrapping succeeds exactly with the old wrapper's key and keeps the record sound under the active key |
| SecretBox.OpensAfterRotations | internal/secretbox/secretbox.go:131-186 | after any sequence of rewraps over changing keyrings the record opens with the last active key alone |
| SecretBox.BoundToDigest | internal/secretbox/secretbox.go:226-260 | for any digest a wrapper opens for no other context and for no payload of another digest |
| SecretBox.BoundToRecord | internal/secretbox/secretbox.go:226-260 | where the digest tells the payloads apart, a wrapper opens for its own payload only |
| Overlay.ClearedFields | internal/override/override.go:216-283 | clearing a path removes it and what is below it, nothing else |
| Overlay.RestoredFields | internal/override/override.go:206-289 | the fields left after a restore are exactly the old ones not equal to or below a restored path |
| Overlay.RestoreEverything | internal/override/override.go:66-129 | restoring all fields is accepted and leaves the empty document |
| Overlay.ClearedAllSame | internal/override/override.go:206-284 | clearing paths leaves a node patch as it was if and only if none of them is overridden |
| Overlay.AuthLeftSame | internal/override/override.go:231-244 | a shared authentication record survives if and only if nothing set in it is cleared before the path above it |
| Overlay.SecurityLeftSame | internal/override/override.go:253-276 | so does a shared security record |
| Overlay.LeftBehindSame | internal/override/override.go:206-289 | the old patch keeps its value if and only if neither shared record loses anything |
| OverlayHeap.Restore | internal/override/override.go:206-289 | in place: the result has the specified value, and the patch and records of the argument are cleared with it, also on a refusal up to the offending path |
| OverlayHeap.ClearPaths | internal/override/override.go:210-284 | the loop clears path by path until one is unknown or repeated |
| OverlayHeap.NodePatch.ClearField | internal/override/override.go:216-283 | one case of the switch clears its field; the records pointed to lose exactly that field, and the pointers stay unless their own path is cleared |
| OverlayHeap.MergeNodePatch | internal/override/override.go:291-322 | a new record of the merged value, whose auth and security point into its arguments |
| OverlayHeap.Combine | internal/override/override.go:186-204 | the combined value or the same refusal; the old document keeps its value if and only if no restored path of the node is overridden, or, when the request has a node, no path below a record still shared |
| OverlayHeap.CombineWritesThrough | internal/override/override.go:186-204 | an endpoint restored without a node in the request is lost in the old document |
| OverlayHeap.SharedRecordWritesThrough | internal/override/override.go:186-204 | so is a password although the request has a node |
| OverlayHeap.MergeAndRestore | internal/override/override.go:192-203 | merging and restoring give the specified value and leave of the old patch exactly what the shared records keep |
| Bound.MergeKeepsBaseline | internal/override/override.go:160-184 | what the overlay does not set is the baseline's, and the origin always is |
| Bound.RestoreAllShowsBaseline | internal/override/override.go:160-289 | restoring every overridden field brings the baseline back |
| Bound.CombineFields | internal/override/override.go:186-204 | afterwards a field is overridden exactly when the request sets it, or the old document does where the request brings nothing of its part, and no restored path covers it |
| Bound.Transaction.CheckRevision | internal/server/origin.go:49-57 | passed exactly when an overlay request names the current binding revision |
| Bound.Transaction.BindTo | internal/server/origin.go:59-106 | binding re-materialises the node over the new baseline and counts one revision, or changes nothing |
| Bound.Transaction.SkipConflict | internal/server/origin.go:107-117 | only the state and the revision change |
| Bound.Transaction.PatchOverlay | internal/server/origin.go:118-165 | the stored patch is the combination, the node its merge over the baseline |
| Bound.Transaction.ApplyBoundPatch | internal/server/origin.go:44-165 | every accepted request keeps name and node equal to the merge of baseline and patch and bumps the revision exactly when it touches the overlay; a refused one changes nothing |
| Bound.Transaction.ApplyAll | internal/server/origin.go:44-165 | over any sequence of requests the node stays materialised |
| Query.EscapeRoundTrip | internal/importparse/emit.go:182-186 | query escaping and unescaping are inverse on all bytes |
| Query.EncodeQuery | internal/importparse/emit.go:174-187 | the text is the escaped entries of all parameters in key order |
| Query.StrictQuery | internal/importparse/uri.go:341-365 | the parameters of the query, none for the empty one; refused at the first malformed or repeated entry |
| Query.QueryRoundTrip | internal/importparse/uri.go:341-365 | every printed query, the empty one too, reads back as the same parameters, or is refused exactly when a text is not acceptable |
| ShareLink.ShareQuery | internal/importparse/emit.go:162-258 | refused exactly for an unprintable node; else each parameter is the specified one, defaults left out |
| ShareLink.LinkRoundTrip | internal/importparse/uri.go:126-216 | parsing the printed parameters rebuilds the node, omitted name, type and security included, if and only if a link can carry it |
| ShareLink.LinkTextRoundTrip | internal/importparse/uri.go:341-510 | the same through the text of the query, if and only if its texts are acceptable as well |
| ShareLink.TransportBack | internal/importparse/uri.go:403-434 | the transport comes back if and only if a WebSocket path is not empty and its host normalised |
| ShareLink.SecurityBack | internal/importparse/uri.go:436-510 | the security comes back if and only if its name is the endpoint's or normalised, the certificate verified, the ALPN list printable and no optional value empty |
| ShareLink.EncodeShareQuery | internal/importparse/emit.go:162-187 | refused exactly for an unprintable node; else the text reads back to the node exactly when a link can carry it |
| ShareLink.ModeBack | internal/importparse/uri.go:436-445 | an omitted security mode is the scheme's default |
| ShareLink.CommaSplits | internal/importparse/emit.go:232-234 | a node is read back with its ALPN list split at every comma, if and only if a link can carry that node; so not as itself when an entry holds a comma |
| ShareLink.CommaLost | internal/importparse/uri.go:475-485 | the entry `a,b` of a valid node comes back as two entries |
| ShareLink.EmptyPathLost | internal/importparse/emit.go:200-205 | `shareQuery` and the parser taken alone, where no validation has refused it: an empty WebSocket path comes back as the root |
| Base64.RoundTrip | internal/importparse/batch.go:127-153 | decoding an encoding gives the bytes back, in both alphabets, with and without padding (sections 4 and 5 of RFC 4648) |
| Base64.DecodeStrict | internal/importparse/batch.go:148-152 | only encodings decode: padding and unused bits are checked |
| Base64.DecodeTextRoundTrip | internal/importparse/batch.go:127-153 | whatever was encoded, in either alphabet, padded or not, is recognised and decoded |
| Base64.AlphabetRecognised | internal/importparse/batch.go:141-147 | telling the alphabet by the two characters only the URL-safe one has never misleads |
| Base64.ForeignRefused | internal/importparse/batch.go:127-153 | a text with a character of neither alphabet is refused |
| Base64.EncodedLimitExact | internal/importparse/batch.go:19-19 | the encoded limit is exactly the length of two padded layers |
| Batch.EncodeURI | internal/importparse/emit.go:22-82 | a link comes out if and only if it reads back to the same name and connection fields |
| Batch.ExportedImportable | internal/importparse/emit.go:84-142 | an exported link has a scheme, no control character and no white space at its ends |
| UrlLinks.ExportIff | internal/importparse/emit.go:22-142 | a VLESS, Trojan, SOCKS5 or HTTP node exports if and only if it is not blocked, its link is plain text within the size, its authority reads back, a link can carry it and its texts are acceptable |
| UrlLinks.CutBack | internal/importparse/uri.go:126-135 | the text after the scheme is cut back into the printed authority, query and name |
| UrlLinks.SegmentRoundTrip | internal/importparse/emit.go:268-273 | the name is unescaped to itself |
| UrlLinks.SortedNames | internal/importparse/emit.go:178-186 | the parameters are printed in the order sorting their names gives |
| Layers.PeelLayers | internal/importparse/batch.go:49-81 | the layer loop is the specified peeling |
| Layers.PeelWrapped | internal/importparse/batch.go:49-81 | a wrapped text is unwrapped up to two layers, and refused beyond |
| Listing.CountEntries | internal/importparse/batch.go:91-102 | the counting loop refuses exactly more entries than allowed |
| Listing.CollectCandidates | internal/importparse/batch.go:110-123 | the candidate loop gives the specified list |
| Listing.CandidatesComplete | internal/importparse/batch.go:110-123 | candidates are numbered in order, each from its own line, and every other line is blank |
| Batch.ParseBounded | internal/importparse/batch.go:22-125 | an import gives the specified result; an accepted one holds every entry of the text under its layers, in order and within the limits |
| Reimport.EncodeExport | internal/server/exports.go:119-143 | every node's link in order, plain or under one layer; a refusal names the first node without a link |
| Reimport.LinksImported | internal/importparse/batch.go:22-125 | what importing a list of links under any layers gives: one candidate a link, or the first limit exceeded |
| Reimport.LinksImportedIff | internal/importparse/batch.go:22-125 | it is imported if and only if it has at most two layers and fits the size and the number of entries; the input limit adds nothing |
| Reimport.RoundTrip | internal/server/exports.go:119-143 | every non-empty exported list within the limits re-imports, plain or under one or two layers each in either alphabet and padded or not, to one valid candidate a node, in order, with the same name and connection fields |
| Reimport.ExportImportedIff | internal/importparse/batch.go:22-125 | an exported list, empty or not, is imported under any layers if and only if it is not empty, has at most two layers and fits the limits |
| Reimport.WrapFits | internal/importparse/batch.go:19-37 | up to two layers over a list within the bound pass the input limit |
| Reimport.PlainNeedsLayer | internal/importparse/batch.go:58-67 | the base64 format refuses a plain list |

## Left out

- HTTP handlers, sessions, storage, process execution and sockets: the model meets them as replies of an environment.
- JSON Schema and element validation: arbitrary predicates that the snapshot and the catalog are parameterised with.
- SHA-256: any function to lower-case hexadecimal digests. AES-GCM: symbolic, a ciphertext opens only with its key, nonce and associated data. The payload digest of a wrapper: any function; `SecretBox.BoundToRecord` says what it must tell apart.
- Prepare.Prepare: stops before the capability keys (internal/compiler/prepare.go:228-236), and leaves out the graph's lists of frozen references and rule sets, which are copies.
- Native emitters of the client cores: the model ends at the ordered outbound list.
- IDNA, IP address and URL host parsing: a host is normalised by an environment function. The authority of a link is printed and read by the environment too; `UrlLinks.ExportIff` asks of it that the printed one holds no `#` and no `?`.
- Parameters of a link beyond the fourteen names that printing or parsing gives a meaning: they are isolated as metadata or refused (internal/importparse/uri.go:375-401), and no printed link has one.
- Bodies of Shadowsocks and VMess links: `Batch` takes the protocols' own encoders and parsers as parameters and proves the self-check and the list round trip over any of them; `UrlLinks` fills them in for the other four protocols.
- Numbers.CanonicalNumber: exponents are unbounded integers; the bound check keeps them far from the machine's range.
- Batch.ParseBounded: does not model cancellation of the request while it runs.
- Diagnostic texts and paths, except where a property needs the code or the position.
- Bound.Transaction.ApplyBoundPatch: store failures in the middle of a request are left to the database transaction, which is not modelled.
- The result message of a job (`sendResult`), the test port reservation and the content digest: none of the results depends on them.
- The number of items is unbounded in all models; sizes of machine integers matter only in the big-endian encoding, where they are explicit.
