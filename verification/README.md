# Verified model of the CIOS core

CIOS core is the API server of a data-centre site: an asset and tenancy store
kept in memory and mirrored to one JSON file, role-based access by path
patterns, a two-man rule for dangerous control writes, background scanners that
open and escalate tickets, and paged lists with a command-line client. This
project models that logic in Dafny and proves what it promises, over every
input, every interleaving and every run.

Where the source updates something in place the model does too: the file store
is a class with the store's maps, its logs and a slice with spare capacity; the
table of pending control writes and the request cache are classes; the
path matcher fills a table; the layout is trimmed in its arrays. Each such
method is proved against a function on values, and the properties are proved
about those functions and about runs of them. `StoreMachine` closes the circle:
the methods of the store class carry out exactly the steps the run theorems
speak of.

How things are modelled:

- A save either replaces the file whole or leaves it; which of the two happens
  is open at every save, so every failure is covered. The ghost field `saved`
  lists every state the disk has held, and the ghost counter `refused` how many
  saves have failed, so that what completes when none does can be stated. The
  migration's audit sink is an object of the same kind.
- Times are integer nanoseconds since 1970; arithmetic that wraps at 64 bits in the source
  (a time to live, a page cursor) wraps here. Clocks and random ids are
  parameters or arbitrary choices; random ids are assumed not to repeat.
- Concurrent handlers are state machines. A step is one critical section, clock
  reading or store call; the theorems hold for every sequence of steps.
- A string is the sequence of its characters; trimming and letter case follow
  the ASCII rules. Page tokens treat a string as its bytes.

## What is proved

- **Store** (`Records`, `Ops`, `FileStore`, `Disk`, `StoreRuns`, `StoreMachine`,
  `StoreLaws`):
  every mutator either carries out its whole change durably or changes nothing,
  through hand-written rollback and an in-place splice and restore; from an
  empty file, after any calls with any saves failing, references resolve and
  uniqueness holds, memory is what the disk holds, and a saved file loads back.
  The two alarm calls do not roll back; when they leave memory ahead of the disk
  is stated exactly. Every call goes through exactly when its own conditions
  hold, and the calls that undo each other are shown to. No update is lost: of
  two writes that expect the same version one is refused, however much happens
  between, unless the asset is deleted; then the count starts again and any old
  expectation can come to hold.
- **Audit log** (`AuditReplay`): reading the text of the tenant audit rows from
  an empty start rebuilds the tenants, orgs and site map; tiers never fall.
- **Access** (`Glob`, `Crn`, `Rbac`): the table-filling matcher computes the
  declarative meaning of a pattern; with no tenant in the request decisions
  depend on the set of scopes only and are closed below a path; with one, the
  order of the scopes matters exactly if two scopes that hit disagree, and once
  the legacy window is closed nothing crosses tenants. Adding a scope takes
  access away exactly if the scope does not compile. A scope that is a plain path
  lets an operator write that path and nothing else, and read what is below it.
- **Migration** (`MigrationSpec`, `Migration`, `ClosedWindow`): a run completes
  exactly if every site can be attributed and has a name that is a slug, and no
  save and no audit record fails. Wherever a run is cut short the
  destination has not moved; a completed run is at the destination and a further
  run writes nothing; both hold over any number of restarts from the file. A
  completed run leaves every decision for a principal as it was exactly if its
  role settles them, a scope of its own is bad, all its bindings compile
  beforehand, or one of them will not compile even when rewritten; under that
  condition no durable state on the way changes any decision either. Someone
  shut out by a scope with slashes where dots belong gains access. Once the legacy
  window is closed, requests of a site's own tenant are decided as before the
  migration and requests of any other tenant are denied.
- **Control** (`RiskPolicy`, `Control`, `ControlRuns`): the two-man rule, over all
  interleavings and restarts: behind every dispatch of class A lie a request and
  an approval of the same run, the approval within the request's time to live by
  another principal who may write the point. And the other way round: a request
  waits through any run until its time is up, and its answer goes out exactly if
  the approver may give it. The time limit binds at the approver's clock
  reading only.
- **Tickets** (`Tickets`, `TicketRuns`): a tick whose saves all work announces
  exactly the tickets due both in its listing and in the store; an escalation is
  announced at most once and its mark never cleared; an escalation never overwrites a transition, but it does undo
  an assignee-only update of the store interface, which no handler calls
  (core/tickets.go:676-681). Only tickets with an inspection checklist, through a
  form's forced write, can fall back to an earlier state, and from any quiet
  store with an acknowledged one some interleaving does it.
- **Paging** (`Tokens`, `Paging`, `Lists`): walks under concurrent change, the
  client loop, token round trips. Paged one by one, an unchanged list of windows
  comes back whole exactly if wrapping start times to 64 bits keeps the order of
  neighbours, and one of bindings exactly if no subject but the last holds the
  token separator.
- **Request cache** (`Dedup`): repeats replay, writes under one id lie apart, and
  a replayed answer is about another path exactly if the path asked for holds a
  space.
- **Schedules** (`Schedule`): runs of the inspection and PM scanners on the store
  bound the tickets each schedule opens; if no save fails each tick fires exactly
  the schedules that are due.
- **Checklists** (`Runbook`), **layouts** (`Layout`).

## Model

| member | source | states |
|---|---|---|
| FileStore.Store.constructor | core/store.go:738-820 | opening a file gives the state its sections decode to, later rows over earlier ones under the same key, and memory equals the disk |
| FileStore.Store.Save | core/store.go:848-1019 | the disk gains the whole current state, or stays as it was and one more failed save is counted |
| FileStore.Store.PutAsset | core/store.go:1022-1058 | create, update of exactly the expected version, or refusal; durable in full or without effect, and then a failed save is counted |
| FileStore.Store.HasChildren | core/store.go:1083-1093 | exactly the assets whose path starts with the path and a dot |
| FileStore.Store.DeleteAsset | core/store.go:1096-1133 | removes the asset, with its subtree only on cascade, and counts what went; a failed save restores every asset removed |
| FileStore.Store.SeedAlarms | core/store.go:1156-1173 | memory takes the alarms whether or not the save works; memory and disk then agree exactly if it worked or nothing changed |
| FileStore.Store.AckAlarm | core/store.go:1178-1197 | an acknowledgement stays in memory even if unsaved; memory and disk agree exactly unless the save failed |
| FileStore.Store.ClashingTicket | core/store.go:1252-1261 | the scan finds a clash exactly if another active ticket carries the alarm id |
| FileStore.Store.PutTicket | core/store.go:1249-1289 | compare-and-swap on the version, forced at 0, refusal of a second active ticket per alarm; transactional |
| FileStore.Store.UpdateTicketAssignee | core/store.go:1618-1633 | changes the assignee and not the version; transactional |
| FileStore.Store.PutPMSchedule | core/store.go:1318-1332 | upsert by id; transactional |
| FileStore.Store.PutInspectionTemplate | core/store.go:1527-1541 | upsert by id; transactional |
| FileStore.Store.SkuTaken | core/store.go:1416-1423 | the scan finds another spare with the SKU exactly if there is one |
| FileStore.Store.PutSpare | core/store.go:1413-1435 | upsert refused on a taken SKU; transactional |
| FileStore.Store.AdjustSpare | core/store.go:1464-1496 | quantity and log row move together, below zero refused; transactional over both |
| FileStore.Store.AppendSetAudit | core/store.go:1679-1689 | appends one control audit; transactional |
| FileStore.Store.CreateTenant | core/store.go:1853-1910 | tenant, its default org and two audit rows together or not at all |
| FileStore.Store.CreateOrg | core/store.go:2019-2058 | org and audit row together or not at all; a taken name in the tenant is refused |
| FileStore.Store.RenameOrg | core/store.go:2066-2105 | rename and audit row together or not at all; same name is a no-op |
| FileStore.Store.CountSitesByOrg | core/store.go:2324-2334 | the loop returns the number of sites mapped to the org, positive exactly if it owns one |
| FileStore.Store.DeleteOrg | core/store.go:2116-2153 | refused while the org owns sites; otherwise removal and audit row together |
| FileStore.Store.UpdateTenantTier | core/store.go:2184-2249 | only upward, with an audit row for the change or the refusal; transactional |
| FileStore.Store.AttachSiteToOrg | core/store.go:2344-2394 | maps or moves a site with an audit row that names the move; already there is a no-op; transactional |
| FileStore.Store.DetachSiteFromOrg | core/store.go:2399-2430 | removes the mapping with its audit row; transactional |
| FileStore.Store.DeleteTenant | core/store.go:2435-2464 | refused while orgs exist; otherwise removal and audit row together |
| FileStore.Store.AppendRow | core/store.go:2509-2515 | append within capacity or to a grown copy; the rows are the old ones and the new one |
| FileStore.Store.PutRoleBinding | core/store.go:2478-2522 | upsert of the first row with the subject and scope, in place; transactional |
| FileStore.Store.ShiftDown | core/store.go:2577-2578 | the splice moves later rows down one cell: the rows without row i |
| FileStore.Store.WriteFrom | core/store.go:2579-2582 | the restore overwrites the tail of the slice: the rows are the prefix and the given rest |
| FileStore.Store.DeleteRoleBinding | core/store.go:2567-2588 | removes one row in place, absent is a no-op, and a failed save restores the rows exactly |
| StoreLaws.TrimMeans | core/store.go:1853-1870 | trimming cuts white space off both ends and nothing else |
| StoreLaws.ChildMeans | core/store.go:1083-1093 | a child's path is the path, a dot and more |
| StoreLaws.DeleteAnswers | core/store.go:1096-1133 | deleting is refused exactly if there are assets below and no cascade, and does nothing exactly if there is nothing |
| StoreLaws.DeleteExact | core/store.go:1096-1133 | deleting takes the asset and all below it, leaves the rest, and answers how many went |
| StoreLaws.PutExact | core/store.go:1022-1058 | a write goes through exactly if it expects nothing or the version there is; it changes one asset, counts it up and keeps its creation time |
| StoreLaws.CreateDelete | core/store.go:1022-1133 | creating and deleting an asset leaves things as they were |
| StoreLaws.SeedMeans | core/store.go:1156-1173 | after a feed each alarm named says what its last row says, keeps its acknowledgement, and no other changes |
| StoreLaws.SeedTwice | core/store.go:1156-1173 | the same feed again changes nothing |
| StoreLaws.AckExact | core/store.go:1178-1197 | exactly a firing alarm can be acknowledged, once until it fires again, with who and when |
| StoreLaws.PutTicketExact | core/store.go:1249-1289 | a ticket is stored exactly if no other active one has its alarm and it expects nothing or the version there is |
| StoreLaws.AdjustExact | core/store.go:1464-1496 | an adjustment goes through exactly if it moves something and leaves no negative stock; the opposite one undoes it but for the log |
| StoreLaws.PutSpareExact | core/store.go:1413-1435 | a spare is stored exactly if no other has its SKU |
| StoreLaws.CreateTenantExact | core/store.go:1853-1910 | a tenant is made exactly if its trimmed id is a free slug and its trimmed name is not empty; it starts at the lowest tier with one org |
| StoreLaws.CreateOrgExact | core/store.go:2019-2153 | an org is made exactly if its name is a slug free in an existing tenant, and deleting it gives the view back |
| StoreLaws.RenameOrgExact | core/store.go:2066-2105 | an org is renamed exactly if the name is a slug no other org of the tenant has, and renaming it back gives the view back |
| StoreLaws.DeletesExact | core/store.go:2116-2464 | an org goes exactly if no site is mapped to it, a tenant exactly if it has no org |
| StoreLaws.TierExact | core/store.go:2160-2249 | the tier moves exactly upwards |
| StoreLaws.AttachExact | core/store.go:2344-2430 | a site is attached exactly if it is a slug and the org exists; it is then in that org alone, and detaching leaves it without one |
| StoreLaws.PutBindingExact | core/store.go:2478-2522 | a new binding goes to the end, a known one keeps its place, id and creation time and takes the origin |
| StoreLaws.PutDeleteBinding | core/store.go:2478-2588 | adding and deleting a binding leaves the rows as they were |
| Disk.Load | core/store.go:738-820 | the loops that fill the maps compute the decoded state |
| Disk.LoadAfterSave | core/store.go:738-1019 | saving and loading gives back every map and log, role bindings permuted |
| StoreRuns.PutTicketOk | core/store.go:1249-1289 | a stored ticket keeps versions positive and at most one active ticket per alarm |
| StoreRuns.StepGood | core/store.go:1022-2588 | every mutator, saved or not, keeps references, uniqueness and the audit log right |
| StoreRuns.EveryRun | core/store.go:1022-2588 | after any run from empty: well-formed, log replays to the tenancy, saved copy loads back |
| StoreRuns.VersionNeverFalls | core/store.go:1022-1058 | through any run in which an asset is there its version never falls, and an unchanged version means an unchanged asset |
| StoreRuns.NoLostUpdate | core/store.go:1022-1058 | after a write with an expected version, no other with that expectation is accepted through any run in which the asset stays |
| StoreRuns.RecreatedAccepts | core/store.go:1022-1133 | from any state, deleting an asset and writing it v times makes a write that expects version v go through |
| StoreRuns.TicketsOnlyMove | core/store.go:1249-1289 | through any run a ticket stays, with a higher version or unchanged but for the assignee |
| StoreRuns.NoLostTicketUpdate | core/store.go:1249-1289 | after a versioned ticket write, no other with that expectation is ever accepted |
| StoreRuns.LedgerBalances | core/store.go:1413-1496 | after any created and adjusted spares: quantity is the initial one plus the logged deltas, never below zero at any prefix of the log |
| StoreMachine.TenancyCall | core/store.go:1853-2464 | each tenancy mutator of the object is the tenancy step, saved exactly if no save failed |
| StoreMachine.Perform | core/store.go:1022-2588 | every call on the store object is the corresponding step of a run, saved exactly if no save failed |
| StoreMachine.RunCalls | core/store.go:1022-2588 | any sequence of calls on the object is the run of exactly those calls, all of them saved if no save failed; without alarm calls memory stays what the disk holds |
| StoreMachine.Serve | core/store.go:706-2588 | a store opened empty and driven by any calls holds what those that were saved make of it, is well-formed and in sync, its log telling its tenancy |
| AuditReplay.CreateTenantGood | core/store.go:1853-1910 | the two rows written replay to the tenant and its default org |
| AuditReplay.RenameOrgGood | core/store.go:2066-2105 | the row's old and new name replay to the renamed org |
| AuditReplay.UpdateTierGood | core/store.go:2184-2249 | a change row replays to the new tier, a refusal row to none |
| AuditReplay.AttachGood | core/store.go:2344-2394 | the row replays to the new home of the site |
| AuditReplay.DetachGood | core/store.go:2399-2430 | the row replays to the site having no home |
| AuditReplay.DeleteTenantGood | core/store.go:2435-2464 | the row replays to the tenant gone |
| AuditReplay.RunGood | core/store.go:1853-2464 | every run keeps the log replaying to the state |
| AuditReplay.ReplayRebuilds | core/store.go:1853-2464 | from empty, replaying the log gives tenants with tiers, orgs with names and the site map |
| AuditReplay.TierNeverFalls | core/store.go:2160-2249 | while a tenant exists its tier rank never falls |
| Glob.FillGlobstarRow | pkg/cpath/glob.go:121-151 | the row for a globstar is true from the leftmost true column on |
| Glob.FillLitRow | pkg/cpath/glob.go:152-159 | the row for a segment is true one column after a match |
| Glob.MatchTable | pkg/cpath/glob.go:110-161 | the table's corner is the declarative match of all segments |
| Glob.Match | pkg/cpath/glob.go:90-162 | fast paths and table together decide the declarative meaning, false on invalid paths |
| Glob.LiteralPattern | pkg/cpath/glob.go:99-103 | a pattern without stars means equality with the path |
| Glob.GlobstarMatchesAll | pkg/cpath/glob.go:105-108 | the sole globstar matches every segment list |
| Glob.Matchable | pkg/cpath/glob.go:44-162 | every pattern that compiles matches some valid path |
| Glob.CompilesExactly | pkg/cpath/glob.go:44-80 | a pattern compiles exactly if each dotted piece is a double star or a non-empty run of letters, digits and single stars |
| Glob.MatchesJoin | pkg/cpath/glob.go:90-162 | a pattern cut in two matches exactly the paths that can be cut so that the halves match |
| Glob.MatchesOne | pkg/cpath/glob.go:152-159 | a single segment matches exactly one piece |
| Glob.SegJoin | pkg/cpath/glob.go:190-206 | the same within a segment |
| Glob.StarMeans | pkg/cpath/glob.go:190-206 | a star matches exactly the runs of letters and digits |
| Crn.ParseCRN | core/crn.go:140-195 | the loop parser returns the parsed name or refuses, as the grammar on pieces says |
| Crn.RenderDotPath | core/crn.go:247-258 | the builder loop prints the dot path |
| Crn.RenderCRN | core/crn.go:262-276 | the builder loop prints the name |
| Crn.ParsePrint | core/crn.go:140-276 | printing and parsing again gives the same name exactly if no tail piece is empty |
| Crn.AcceptsExactly | core/crn.go:120-276 | a printed name is accepted exactly if its parts are, and read as it was meant exactly if no node holds a dot |
| Crn.PrintParse | core/crn.go:140-276 | what was parsed prints as it was exactly if it holds no dot |
| Crn.LegacyDotPath | core/crn.go:299-317 | a legacy scope's dot path is the scope itself, for every string |
| Crn.LegacyReparse | core/crn.go:203-317 | the printed legacy name parses to the scope with slashes read as dots, or not at all, and when |
| Rbac.CompilePrincipalScopes | core/auth.go:201-255 | all scopes compile to exact and subtree patterns, or the principal is refused |
| Rbac.MatchScopes | core/rbac.go:232-247 | the loop returns the verdict of the first scope that hits; which paths a scope hits is in HitMeans |
| Rbac.AuthorizeTenant | core/rbac.go:206-248 | role floor, admin bypass, then the first matching scope; the decision itself is spelled out in WriteDecision, ReadDecision and FirstDecides |
| Rbac.HitMeans | core/rbac.go:232-247 | a scope hits a write exactly at the paths its pattern spells, a read also at the paths below |
| Rbac.WriteDecision | core/rbac.go:206-288 | any action but reading, with no tenant: exactly if the role allows it and, unless admin, all scopes compile and one spells the path |
| Rbac.ReadDecision | core/rbac.go:206-288 | reading, with no tenant: exactly if the role allows it and, unless admin, all scopes compile and one covers the path |
| Rbac.ScopeReaches | core/rbac.go:206-288 | one scope that is a plain path: an operator writes exactly that path, reads exactly that path and below, and applies nothing |
| Rbac.RolesBound | core/rbac.go:269-288 | viewers only read, operators never apply, unknown roles do nothing, admins everything; an operator may what a viewer may |
| Rbac.FirstDecides | core/rbac.go:232-247 | the first scope that hits decides alone |
| Rbac.PassesMeans | core/rbac.go:302-339 | a legacy scope passes exactly while the window is open, a name exactly for no tenant and its own |
| Rbac.OpenDecision | core/rbac.go:206-288 | with no tenant and the window open: the role allows and, unless admin, all scopes compile and some scope hits |
| Rbac.ScopeSetDecides | core/rbac.go:232-247 | order and repetition of scopes do not matter then |
| Rbac.AddScope | core/auth.go:226-247 | adding a scope keeps access exactly if it compiles or the role is admin |
| Rbac.AccessReadsSubtree | core/rbac.go:206-288 | access at a path gives reading there and at every valid path below |
| Rbac.RedLine | core/rbac.go:302-339 | with a tenant set and the window closed only a scope of that tenant allows anything |
| Rbac.OrderMatters | core/rbac.go:232-288 | the decision is the same in every order of the scopes exactly if the role or a bad scope settles it or all scopes that hit agree |
| Rbac.OrderFlips | core/rbac.go:232-288 | for any path and two tenants: the own and the other tenant's scope allow in one order and deny in the other |
| Rbac.OrderFlipsHere | core/rbac.go:232-288 | two concrete raw scopes that do |
| Rbac.RewriteKeepsScope | core/crn.go:299-317 | a legacy scope and its rewritten form compile to the same patterns exactly if it has no slash or does not compile with slashes read as dots |
| MigrationSpec.LoadScopes | core/auth.go:323-371 | the loop adds to a subject exactly its rows' scopes, in order |
| MigrationSpec.GrantsDecide | core/auth.go:323-371 | bindings that grant a subject the same patterns give it the same decision for every seed, action and path |
| MigrationSpec.OrgStep | core/migrate_v11.go:291-320 | creating a default org moves neither attribution nor goal |
| MigrationSpec.SiteStep | core/migrate_v11.go:324-352 | attaching an attributed site moves neither attribution nor goal |
| MigrationSpec.PutStep | core/migrate_v11.go:417-429 | writing the new row of a legacy row does not move the goal |
| MigrationSpec.DeleteStep | core/migrate_v11.go:430-440 | retiring a legacy row whose new row is there does not move the goal |
| MigrationSpec.RewriteSameGrant | core/migrate_v11.go:396-399 | a rewritable scope grants the same after rewriting exactly if it is harmless; one with a slash never compiled |
| MigrationSpec.GoalShut | core/migrate_v11.go:370-452 | a subject whose bindings all compile has bindings that all compile at the goal |
| MigrationSpec.SteadySame | core/auth.go:323-371 | a steady seed gets the same decision for every action and path on any bindings with the same goal |
| MigrationSpec.UnsteadyReads | core/auth.go:323-371 | any other seed may read some path at the goal that it could not read before |
| MigrationSpec.SlashHarm | core/migrate_v11.go:396-399 | a subject whose only binding is a valid path with slashes for dots is denied that path before and allowed it after |
| MigrationSpec.SlashHarmArises | core/migrate_v11.go:396-399 | binding "ab01.p/q" of a viewer: reading "ab01.p.q" is denied before and allowed after |
| Migration.FirstPathSegment | core/migrate_v11.go:233-240 | the loop returns the first dot-separated piece |
| Migration.BuildSiteTenantMap | core/migrate_v11.go:165-225 | every mapped or used site with its tenant, or a stop exactly if a used site is unmapped and there is no sole tenant |
| Migration.EnsureDefault | core/migrate_v11.go:293-319 | creates or finds the tenant's default org, failing exactly if a save does; nothing written if it exists |
| Migration.EnsureDefaults | core/migrate_v11.go:288-320 | every tenant gets a default org, or the run stops, exactly if a save failed; nothing written if all have one |
| Migration.AttachSites | core/migrate_v11.go:322-352 | every attributed site ends in its tenant's default org, or the run stops, exactly if a site name is no slug or a save failed; nothing written if all are there |
| Migration.RewriteRow | core/migrate_v11.go:408-444 | new row in, legacy row out, rewrite recorded, for exactly that row; it completes exactly if neither save nor the record fails |
| Migration.RewriteBindings | core/migrate_v11.go:354-452 | completes exactly if no save and no record fails; then no row is left to rewrite and report and sink list exactly the rewrites due, in order; nothing written if none was due |
| Migration.MigrateV11 | core/migrate_v11.go:246-454 | completes exactly if every site can be attributed, each is a slug, and no save and no record fails; success means arrived and the sink holds the report's rewrites; every durable state keeps the destination and the grants of every subject with harmless scopes; an unattributable site stops the run before any write; a migrated store is left untouched |
| Migration.SameDestination | core/migrate_v11.go:246-454 | a state a run leaves behind has the destination of the state it began with |
| Migration.KeptReloaded | core/store.go:738-820 | what a run keeps it keeps in the file read back |
| Migration.RestartsKeep | core/migrate_v11.go:246-454 | over any number of restarts every state and its file keep what one run keeps |
| Migration.RestartSafe | core/migrate_v11.go:246-454 | any number of interrupted runs, each from the file the last one left, and then a complete one end where one complete run would, and nothing remains to do |
| Migration.DecisionsKept | core/migrate_v11.go:370-452 | at every durable state every decision for a steady seed is as before |
| Migration.DecisionsExact | core/migrate_v11.go:370-452 | after a completed run all decisions for a seed are as before exactly if it is steady |
| Migration.DecisionsOverRestarts | core/migrate_v11.go:246-454 | the same decisions over any number of restarts, in memory and from the file |
| ClosedWindow.RewrittenStays | core/migrate_v11.go:396-399 | a rewritten scope hits only paths of its site and passes exactly for that site's tenant |
| ClosedWindow.TenantDecides | core/rbac.go:206-339 | with rewritten scopes, window open or closed: a request of the site's tenant is decided as one without a tenant, any other is denied |
| ClosedWindow.ClosingKeepsAccess | core/migrate_v11.go:246-454 | after a completed run that rewrote all bindings of a steady subject, closing the window keeps exactly the access there was, for the site's tenant |
| RiskPolicy.StripInstanceDigits | core/setctl.go:101-118 | the nested loops drop exactly the digits |
| RiskPolicy.LongestSuffix | core/setctl.go:73-96 | the class of the first among the longest entries that apply, none exactly if none applies |
| RiskPolicy.LookupRiskClass | core/setctl.go:66-97 | the class of a path by the allow list, none for a blank path |
| RiskPolicy.InstanceIrrelevant | core/setctl.go:62-97 | paths that differ only in instance numbers have the same class |
| RiskPolicy.StripMeans | core/setctl.go:101-118 | no digit is left and every other character is |
| RiskPolicy.EntryDecides | core/setctl.go:73-96 | an entry decides the path it spells |
| RiskPolicy.Spelled | core/setctl.go:32-97 | every listed point but the maintenance one, written as listed, has its class |
| RiskPolicy.AppliesMeans | core/setctl.go:73-96 | instance numbers aside, an entry applies exactly to the paths that end in it or hold it after a dot |
| RiskPolicy.ListedExactly | core/setctl.go:66-97 | a point may be written exactly if some entry applies to it |
| RiskPolicy.CaseIrrelevant | core/setctl.go:66-72 | paths equal but for letter case have the same class |
| RiskPolicy.LowerMeans | core/setctl.go:66-68 | lowering turns each capital into its small letter and changes nothing else |
| Control.PendingSets.Park | core/setctl.go:467-477 | the sweep drops exactly the expired entries, then the new one is stored |
| Control.PendingSets.LookUp | core/setctl.go:513-528 | finds an entry, or drops it if expired at the given reading |
| Control.PendingSets.Consume | core/setctl.go:541-549 | succeeds exactly if the entry is still there, and removes it |
| Control.StepKeeps | core/setctl.go:203-551 | every step of every handler keeps the protocol invariant |
| Control.StepSound | core/setctl.go:203-551 | every step keeps that entries passed the policy, approvals their checks, and rows record the class of their point |
| Control.TwoManRule | core/setctl.go:493-551 | every dispatch to a class-A point carries out exactly one execution, of a parked entry with its path, value, time to live and requester, which expires its time to live after its creation, announced in the audit log before, approved unexpired by someone else in any letter case who may write the point |
| Control.TtlExact | core/setctl.go:433-477 | the time to live is the seconds asked for exactly if they fit in 64 bits |
| ControlRuns.TwoManTrace | core/setctl.go:203-551 | for every class-A dispatch of a run: a step asked for its path, value and time to live, and a later step approved it, by another entitled principal, no later than the asking clock plus the time to live |
| ControlRuns.AskParks | core/setctl.go:433-487 | a class-A request from a principal waits under its id with the full time to live from now, or nothing changes |
| ControlRuns.AnswerSends | core/setctl.go:493-551 | an approval sends what was asked for exactly if it is in time, by another principal who may write the point |
| ControlRuns.DualWrite | core/setctl.go:203-551 | asking and answering after a wait sends the write exactly if the request is taken in, the wait fits in the time to live and the approver may |
| ControlRuns.DirectWrite | core/setctl.go:203-288 | a class-B or class-C write goes out at once exactly if it has an actor, a time to live and, in class B, a readback |
| ControlRuns.EntryWaits | core/setctl.go:433-528 | a parked write stays pending through any run until its time is up, an approval takes it or the server restarts |
| ControlRuns.GoneStays | core/setctl.go:433-551 | what is no longer pending never is again |
| ControlRuns.RestartForgets | core/setctl.go:412-425 | a restart forgets all pending writes and keeps the audit log |
| ControlRuns.ParkSweeps | core/setctl.go:467-477 | parking drops exactly the other entries that had expired when the request came |
| ControlRuns.LateLookUp | core/setctl.go:513-528 | an approval that began in time is cleared however late it reaches the lock |
| Control.OncePerEntry | core/setctl.go:539-550 | two dispatches never come from the same entry, restarts included |
| Control.NeverUnaudited | core/setctl.go:250-288 | no dispatch of any class without a stored audit row of its own that says the same |
| Control.OnlyListed | core/setctl.go:144-173 | only listed points are ever dispatched, under the class they have, with a readback for A and B |
| Control.RowsAccounted | core/setctl.go:250-267 | a class-A audit row that is no announcement belongs to an approved execution |
| Control.ExpiryReadOnce | core/setctl.go:513-549 | an approval past the first lock goes through however late it reaches the second |
| Tickets.ScanSla | core/sla.go:125-137 | the filter loop returns the breached, unescalated tickets in order |
| Tickets.ScanComplete | core/sla.go:90-137 | a ticket is in the scan exactly if it is listed, unmarked and past its window |
| TicketRuns.DueExactly | core/sla.go:65-116 | a ticket is due exactly if unmarked and, open or acknowledged, older than the limit of its severity, in seconds |
| TicketRuns.DueStays | core/sla.go:90-116 | a due ticket left alone stays due |
| TicketRuns.FallsDue | core/sla.go:65-116 | every unmarked open or acknowledged ticket of a watched severity falls due in the end |
| TicketRuns.GraverSooner | core/sla.go:65-116 | a graver ticket falls due no later |
| TicketRuns.ScanInOrder | core/sla.go:125-137 | the scan of two listings joined is their scans joined |
| Tickets.Escalate | core/sla.go:217-257 | re-reads, and marks and stores the ticket exactly if it is still due and the save goes through; otherwise nothing changes |
| Tickets.ScanSlaTick | core/sla.go:181-266 | announced tickets were due and carry the mark, each once, all others are unchanged; if no save fails exactly the tickets due both in the listing and in the store are announced |
| Tickets.SwapFindsRead | core/store.go:1262-1273 | a successful compare-and-swap finds what was read, but for the assignee |
| Tickets.FileWriteKeeps | core/inspection_form.go:516-516 | a forced form write only ever replaces a ticket that never escalates |
| Tickets.StockWriteKeeps | core/spares.go:475-497 | a low-stock ticket written after its check keeps one active ticket per alarm |
| Tickets.StepKeeps | core/sla.go:181-266 | every step of scanners, operators and forms keeps the invariant and only lets tickets evolve |
| Tickets.AnnouncedOnce | core/sla.go:181-266 | over every interleaving no escalation is announced twice, each announced ticket is marked, one active ticket per alarm |
| Tickets.MarkStays | core/sla.go:237-248 | a mark once set is the same in every later state |
| Tickets.StateNeverFalls | core/tickets.go:85-95 | over every interleaving no ticket without an inspection checklist falls back to an earlier state |
| Tickets.FormReopens | core/inspection_form.go:504-516 | from any quiet store with an acknowledged inspection four steps lead through closed back to resolved |
| Tickets.EscalationOverwritesNothing | core/sla.go:243-257 | an escalation write changes the stored ticket's mark and version only, and restores the assignee it read |
| Tickets.EditBeatsEscalation | core/tickets.go:535-548 | a transition or assignment stored in between makes the escalation write fail |
| TicketRuns.EscalationLands | core/sla.go:237-257 | an escalation under way is stored and announced exactly if no other version came between |
| TicketRuns.EscalationCompletes | core/sla.go:217-257 | from any reachable state a due ticket is marked and announced by its own steps |
| TicketRuns.TransitionCompletes | core/tickets.go:464-548 | a transition is carried out exactly if it is one of the allowed moves, counts the version up and stamps the time once |
| TicketRuns.AssignCompletes | core/tickets.go:639-700 | an assignment is carried out and counts the version up |
| TicketRuns.FormCompletes | core/inspection_form.go:474-516 | a form is filed exactly for an acknowledged inspection, which it resolves |
| TicketRuns.PhotoCompletes | core/inspection_form.go:559-699 | photos are added to any inspection and change nothing else |
| TicketRuns.StockRaceOpensOne | core/spares.go:475-520 | two low-stock checks that both find no ticket open one ticket; none if one was open, and then nothing is begun |
| Tickets.EscalationRevertsAssignee | core/store.go:1618-1633 | an assignee-only store update in between is undone by the escalation |
| Tokens.DecodeEncode | core/server.go:635-651 | base64url decoding undoes encoding on every byte string |
| Tokens.TokenRoundTrip | core/server.go:635-651 | a single-key token decodes to its key and is never empty |
| Tokens.PairRoundTrip | core/server.go:662-684 | a pair token decodes to its pair exactly if the first key holds no separator, and to a shorter first key otherwise |
| Tokens.FormsDiffer | core/server.go:635-684 | neither decoder accepts the other's tokens |
| Tokens.ParseFormat | core/mwindows.go:160-164 | parsing a printed 64-bit number gives it back |
| Paging.ListPage | core/assets.go:391-431 | the filter loop and the cut compute the page and the next token |
| Paging.ListPageEarly | core/rolebindings_http.go:121-146 | stopping one row past the page gives the same page and token |
| Paging.WalkOrdered | core/assets.go:391-431 | following tokens over any changing snapshots yields strictly ordered matching rows that were there |
| Paging.WalkComplete | core/assets.go:391-431 | a completed walk holds every key that was there in a matching row at every page |
| Paging.TokenHides | core/mwindows.go:125-149 | a token that hides the next row loses it from an unchanged list |
| Paging.OneByOne | core/mwindows.go:125-149 | paged one by one, an unchanged list comes back whole exactly if the order the cursor test sees holds between neighbours |
| Paging.WalkRepeats | core/rolebindings_http.go:121-146 | a token that lets its own row through makes the walk return a row again |
| Paging.ListAll | cli/asset.go:231-268 | on an unchanged list: the whole filtered list if it fits in the page cap, overflow otherwise |
| Lists.ListAssets | core/store.go:1070-1079 | the listing holds exactly the stored assets in strict path order |
| Lists.ListWindows | core/store.go:1751-1765 | the listing holds exactly the stored windows in strict order of start and id |
| Lists.ListSetAudits | core/store.go:1694-1706 | the listing holds exactly the stored audits, newest first |
| Lists.ListAllRoleBindings | core/store.go:2545-2557 | the listing holds exactly the stored bindings in strict order of subject and scope |
| Lists.AssetsFaithful | core/assets.go:391-394 | the token of an asset lets through exactly the assets after it |
| Lists.WindowCursorExact | core/mwindows.go:160-170 | the window cursor compares start times wrapped to 64 bits |
| Lists.WindowsOneByOne | core/mwindows.go:125-170 | paged one by one, an unchanged list of windows comes back whole exactly if wrapping keeps the order of all neighbours |
| Lists.WrappedWindowSkipped | core/mwindows.go:160-170 | two windows around the end of that range, of which a client never sees the later |
| Lists.AssetWalk | core/assets.go:285-433 | ordered, sound and complete walks of the asset list |
| Lists.WindowWalk | core/mwindows.go:86-170 | the same for windows whose wrapped start times ascend in every snapshot; in the list's own order if wrapping keeps it |
| Lists.WindowsInRange | core/mwindows.go:160-170 | windows that start within the 64-bit range are such snapshots |
| Lists.AuditWalk | core/setctl.go:332-410 | the same for control audits, newest first |
| Lists.BindingWalk | core/rolebindings_http.go:49-151 | the same for role bindings whose subjects hold no separator |
| Lists.BindingTokenSelf | core/rolebindings_http.go:121-146 | a binding comes back on the page after it exactly if its subject holds the separator |
| Lists.BindingsOneByOne | core/rolebindings_http.go:100-146 | paged one by one, an unchanged list comes back as it is exactly if no row but the last has the separator in its subject |
| Lists.BindingStuck | core/rolebindings_http.go:100-146 | if the first subject holds the separator the walk returns that row again and again and no other |
| Lists.BindingRepeats | core/rolebindings_http.go:100-146 | two pages of such a list hold the first row twice |
| Lists.ScopeWalk | core/rolebindings_http.go:100-146 | the same for one subject's rows under the single token |
| Lists.ListAllAssets | cli/asset.go:231-268 | the asset list command returns exactly the matching assets in order if they number at most 100 pages, and nothing otherwise |
| Lists.AssetListCommand | cli/asset.go:231-268 | against the store: the matching assets in order, exactly if no more than 100 pages of them are stored |
| Dedup.DedupTable.Collect | core/server.go:621-628 | the sweep drops exactly the entries that have expired |
| Dedup.DedupTable.Lookup | core/server.go:595-608 | hits exactly if the latest answer for the key is no older than the time to live, as a history that forgets nothing would |
| Dedup.DedupTable.Remember | core/server.go:614-619 | the answer joins the history with a new expiry |
| Dedup.PutAsset | core/assets.go:140-235 | the handler on cache and store answers and changes both as the reference does for a write that is saved exactly if no save failed |
| Dedup.PutAnswers | core/assets.go:140-235 | a remembered answer is replayed; otherwise the write goes through exactly if acceptable, of a fitting version and saved, answers 201 for a new asset and 200 for a known one, and only then changes anything |
| Dedup.NoIdWritesAgain | core/assets.go:156-168 | without a request id a repeat is a new write |
| Dedup.RunSpaced | core/assets.go:156-235 | sequential writes executed under one request id are more than the time to live apart |
| Dedup.RepeatReplays | core/assets.go:156-168 | a repeat within the time to live, whatever came between, replays the first answer and writes nothing |
| Dedup.RaceWritesTwice | core/assets.go:156-232 | two of the same request whose lookups both precede either write both write exactly if the first lookup finds nothing |
| Dedup.KeyInjective | core/assets.go:161-161 | paths without spaces never share a cache key |
| Dedup.KeyExact | core/assets.go:161-161 | two requests share a cache key exactly if they are the same or one path is the other, a space and what the request ids differ by |
| Dedup.OwnAnswer | core/assets.go:156-168 | over every run a replayed answer is about the path asked for exactly if that path holds no space |
| Dedup.ForeignAnswer | core/assets.go:156-168 | after a write of p under the id "q r", any request for "p q" under the id r gets p's answer |
| Schedule.FireInspection | core/inspection.go:290-315 | an info ticket is stored or nothing happens; the due time moves only after it, exactly if no save failed |
| Schedule.FirePM | core/pm.go:303-329 | a ticket is stored or nothing happens; last run and due date move only after it, exactly if no save failed |
| Schedule.TicketsSay | core/pm.go:303-329 | the tickets opened carry the schedule's asset, title and severity, and an inspection's shows its checklist |
| Schedule.ScanInspectionTick | core/inspection.go:237-278 | one ticket of this moment at most, made from the template, for each template that was due; only those templates move, by their interval, and those due that did not are as many as the failed saves |
| Schedule.ScanPMTick | core/pm.go:257-297 | the same for PM schedules, by whole days |
| Schedule.CleanTick | core/inspection.go:237-278 | if no save failed, exactly the due schedules opened a ticket and moved, and none with a positive interval is due any more |
| Schedule.TicketBound | core/inspection.go:237-315 | over any ticks at non-decreasing times: at most one ticket, one per whole interval between first and last, and one per failed advance |
| Schedule.TickFollows | core/inspection.go:237-315 | a tick on a stored schedule is a tick of its plan, ticket for ticket |
| Schedule.RunInspectionScanner | core/inspection.go:214-231 | over any tick times: the stored tickets of each template are those of a run of its plan and so bounded by one, one per whole interval spanned and one per failed advance; if no save failed each tick fired exactly what was due |
| Schedule.RunPMScanner | core/pm.go:234-251 | the same for PM schedules with intervals of whole days |
| Runbook.EncodeRunbook | core/inspection.go:323-336 | the builder loop writes the prefixed checklist, nothing for an empty one |
| Runbook.DecodeRunbook | core/inspection_form.go:327-350 | the loop returns the non-empty lines that are no results |
| Runbook.DecodeEncode | core/inspection_form.go:327-350 | decoding gives the checklist back exactly if every item is non-empty, on one line and unmarked |
| Runbook.AppendInspectionResult | core/inspection_form.go:368-398 | the builder appends the marked submission block on its own lines |
| Runbook.StrippedMeans | core/inspection_form.go:386-395 | exactly the carriage returns go from a note |
| Runbook.CsvReads | core/inspection_form.go:376-385 | the checked indices can be read back from their line |
| Runbook.BlockLines | core/inspection_form.go:368-398 | a submission is the lines for when, which boxes and, if there is one, the note |
| Runbook.SubmissionDecodes | core/inspection_form.go:368-398 | a submission adds to the decoded checklist exactly the later lines of its note that look like items |
| Runbook.NoteAddsItem | core/inspection_form.go:386-395 | a second line in a note becomes a checklist item |
| Runbook.ChecklistStays | core/inspection_form.go:327-398 | after any submissions and photos the decoded checklist is the one opened and the item-like further lines; unchanged exactly if there are none |
| Runbook.OneLineAddsNothing | core/inspection_form.go:386-395 | one-line notes and photo paths have none |
| Runbook.AdditionDecodes | core/inspection_form.go:795-808 | a photo or submission adds to the decoded checklist exactly its further lines that look like items |
| Runbook.SinkInto | core/inspection_form.go:424-426 | the inner loop of swaps inserts the element in place, ascending |
| Runbook.ParseCheckedIndices | core/inspection_form.go:404-429 | exactly the valid submitted indices, strictly ascending |
| Layout.NormalizeInstances | core/sitelayout.go:117-151 | trims in place and accepts exactly instances that fit, with unique ids and paths |
| Layout.NormalizeEdges | core/sitelayout.go:152-177 | trims in place and accepts exactly edges between different known instances |
| Layout.NormalizeValidate | core/sitelayout.go:101-179 | accepts exactly the layouts whose normal form is valid, and leaves that form |
| Layout.NormalizedTwice | core/sitelayout.go:101-179 | a second normalisation changes nothing |
| Layout.NextLayoutPath | core/sitelayout.go:366-381 | the first free one of the thousand names, or the fallback if none is free; free exactly if one of them is, always below a thousand instances |
| Layout.CrowdTakesAll | core/sitelayout.go:366-381 | a thousand and one instances with ids of their own that leave no free answer |
| Layout.CrowdValid | core/sitelayout.go:101-179 | that layout is valid under any dictionary that takes its type and paths |
| Layout.CollectOuts | core/sitelayout.go:321-338 | the loops resolve an instance's outgoing edges to paths |
| Layout.MergeKeeps | core/sitelayout.go:290-343 | every key but the layout keys and a missing type is kept |
| Layout.MergeTwice | core/sitelayout.go:290-343 | merging the same instance again changes nothing |
| Layout.NormMeans | core/sitelayout.go:101-179 | normalising trims, lowers types and relations, keeps what is trim and low already and all else |
| Layout.MergeSays | core/sitelayout.go:290-343 | the merged spec holds the placement, the type unless there was one, model and pack type if given, and the outgoing edges |
| Layout.NewSays | core/sitelayout.go:290-300 | a new asset is marked planned and drawn |
| Layout.PathOfIs | core/sitelayout.go:321-338 | with unique ids an id leads to its instance's path |
| Layout.OutsMean | core/sitelayout.go:321-338 | the edges written are exactly those that leave the instance, with relation and target path |
| Layout.OutsAppend | core/sitelayout.go:321-338 | the edges written keep the order of the layout's edges |
| Layout.WritebackWithin | core/sitelayout.go:270-363 | an asset outside the site changes only under an instance drawn as a site |
| Layout.Writeback | core/sitelayout.go:278-357 | each named asset gets its merged spec or, on a failed save, stays; complete exactly if no save failed; no other asset changes |
| Layout.WritebackTwice | core/sitelayout.go:270-363 | a second complete writeback leaves every spec as it was |

## Left out

- The PostgreSQL backend (core/pg_store.go): its SQL semantics differ from the file store's.
- HTTP plumbing: routing, request decoding, authentication middleware, problem responses, health and metrics.
- JSON and file writing: a saved file is the value of its sections, and its replacement is atomic.
- Store logs and maps with the same shape as modelled ones: asset audits, ticket notes and audits, maintenance-window and usage mutators.
- Asset lifecycle changes and sharing of a spec between a reader and the store; a spec is a value, and an asset without a spec has an empty one.
- Unicode: trimming and case folding are the ASCII ones, so two subjects equal only under Unicode folding count as different here.
- A bare append to the tenant audit log from outside the mutators, after which the log need not replay.
- The legacy-use counter and its log line; the closure report of the migration.
- Scanner leader election and the tickers' timing; a tick may happen at any time and any number of scanners may run.
- Index-based paging of alarms and spares, whose offsets shift under change.
- Mean-time-between-failures reports, telemetry reconciliation, scene rebuilding, model packs, and the other client commands.
- Schedule.FirePM: whole UTC days are 24 hours; calendar arithmetic is not modelled.
- Layout.Writeback: the file that stores the layout and the counters of the result are not modelled, nor is the error text of a skipped instance.
- Dedup.PutAsset: of path parsing only the refusal of spaces is modelled; its other checks and those of type and lifecycle are one flag of the request; the response body is the stored asset.
- Migration.MigrateV11: of the report only the list of rewrites is modelled; reads of the store are taken to succeed, and no one else writes to it while the migration is at work.
- Control.TwoManRule: the sink's answer plays no part, and a request that fails its checks leaves no trace.
