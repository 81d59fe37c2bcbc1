# Dataglot control plane and distributed execution: a verified model

This project models the parts of Dataglot where a property spans a whole run, a whole plan
tree or a whole sequence of calls, and proves those properties in Dafny.

- **Scheduler lease** (`LeaseProtocol`, `LeaseSafety`, `LeaseTurnover`, `LeaseExclusive`,
  `LeaseOverlap`, `LeaseObject`).
  Any number of schedulers compete for one object in a store that offers create-if-absent
  and compare-and-swap on an entity tag. Every call is split into sending, taking effect and
  answering; a write may land while its caller is told it failed. One shared clock is
  assumed, tags are fresh, a heartbeat call is answered within `call`, and at most `setup`
  passes between building a claim and starting the heartbeat ticker. Both delays are
  arbitrary; a call may outlast the heartbeat interval.
- **Federated plan rewrite and codec** (`FlatNames`, `Plans`, `Stripping`, `PlanMeaning`,
  `StripTheorems`, `StripMeaning`, `StripPass`, `StripLimits`, `StripOrder`,
  `FederationCodec`). On decode a whole plan is rewritten from `catalog.schema.table` to
  `schema.table`, including the text of flattened expression names, and its schemas are
  rebuilt bottom-up. Rebuilding a node fails, and with it the pass, on two rules of the
  query engine, which is not part of this model: the fields of a node are distinct, and the
  columns of an output expression are fields of the input.
- **Provider cache** (`CacheProtocol`, `CacheSafety`, `CacheTheorems`, `CacheProgress`,
  `CacheLimits`, `CatalogCache`). A warm map and per-key once-cells; every map operation is its own step.
- **Meta stores** (`Orders`, `MetaCalls`, `EmbeddedStore`, `RedbStore`, `StoreRefinement`,
  `StoreAnswers`, `StoreTheorems`, `StoreHistory`, `EmbeddedObject`, `RedbObject`,
  `RedbTransactions`). Flat
  ordered tables against nested per-org maps, for every store call but `subscribe`, and both
  against the history of calls alone. Stored bytes are taken
  as the records they encode, and a grant's table key as an injective rendering of it.
- **Durability and migrations** (`Durability`, `Migrations`, `SchemaPlan`, `SchemaRunner`,
  `Pigeonhole`).
  Crash recovery of the JSON store, its document migrations, and the Postgres schema runner
  under crashes and concurrent connects.
- **Plan guard and planner chain** (`PlanGuard`). Bounded walks over plan graphs that may
  contain cycles, and what composing them guarantees.
- **Cancel on drop** (`CancelOnDrop`). The driver between a distributed result stream and a
  consumer that may leave.

Protocols are state machines whose runs are sequences of steps; theorems quantify over every
valid run. Loops and updates in place of the source are methods and classes proved against
functions about which the theorems are stated.

## Where the code and its promises differ

- The check `heartbeat < lease` makes leadership exclusive only with instantaneous calls. For
  arbitrary delays, set-up time, one interval and one call together must stay below the
  lease, and so must two calls (`LeaseExclusive.ExclusiveIff`).
- A catalog survives stripping when an expression alias's relation or a subquery plan carries one
  (`StripTheorems.StrippedFreeIff`). A function over an unqualified column whose own name
  contains a scanned prefix no longer finds its field (`StripLimits.CallOverColumnKeepsFieldIff`).
- A warehouse envelope decodes as a SQL source on a side without a warehouse registry whose
  connector registry has that name (`FederationCodec.WarehouseEnvelopeTakenForSqlIff`).
- An evict can be followed by the re-publication of an older provider, and one key can be
  built twice without any evict; both have exact conditions (`CacheTheorems.EvictIsFinalIff`,
  `CacheTheorems.SecondBuildIff`).
- The metadata planner stands outside the guard, so a cyclic plan with a `pg_catalog` scan
  reaches the local planner (`PlanGuard.CyclicPlanPlannedLocally`).
- A delete whose write failed, once repeated, answers without writing, and the record is back
  after a restart (`Durability.RetriedDeleteComesBack`).
- The JSON store still lists an org whose objects are all gone, redb does not
  (`StoreTheorems.OrgListings`).
- A scanned path is documented to match full qualifiers only. It also matches inside the
  qualifier of another catalog that ends with the same letters, and whether that happens
  depends on the order of the scans (`StripOrder.QualifierRewrittenIff`,
  `StripOrder.CapturedPlanResolvesIff`).
- Dropping the catalog merges tables that differ in it alone. A node that then has one field
  twice makes the pass fail; otherwise the plan keeps its meaning
  (`StripPass.FailsOrPreservesMeaning`).
- Rebinding a name and setting its source config each take two redb transactions. Calls
  issued at once always leave the rows of some order of them if and only if the calls on each
  name are all of one kind (`RedbTransactions.ConcurrentCallsExplainedIff`), and their answers
  fit that order too if and only if besides that no name is rebound twice
  (`RedbTransactions.ConcurrentAnswersExplainedIff`).
- The migration loop ends from a version if and only if it meets no version twice in as many
  turns as there are steps (`Migrations.EndsIff`). A schema chain whose last version does not
  outrank the others is applied again on every connect (`SchemaPlan.RerunPlansNothingIff`).

## Model

| member | source | states |
|---|---|---|
| LeaseProtocol.ValidateTiming | crates/dataglot-ballista/src/scheduler.rs:405-426 | the timing arguments are accepted exactly when 0 < heartbeat < lease |
| LeaseSafety.TokensAndTakeovers | crates/dataglot-ballista/src/ha.rs:210-307 | in every run, with lost answers: serving instances hold distinct tags, each its own write; a write by another holder only replaces a payload already expired |
| LeaseSafety.SupersededTagNeverPasses | crates/dataglot-ballista/src/ha.rs:288-307 | once a newer write exists, in every continuation no refresh and no steal under an older tag can take effect |
| LeaseSafety.HistoryOnlyGrows | crates/dataglot-ballista/src/ha.rs:210-307 | writes to the lease object are never lost or reordered by any continuation |
| LeaseTurnover.WritesIff | crates/dataglot-ballista/src/ha.rs:210-307 | the lease object is written at exactly five steps, by the write the instance had sent, whether or not it learns of it |
| LeaseTurnover.TagDecides | crates/dataglot-ballista/src/ha.rs:214-307 | a create lands exactly on an absent object, a steal or refresh exactly under the latest tag, and is rejected otherwise |
| LeaseTurnover.AnyoneCanTakeOver | crates/dataglot-ballista/src/scheduler.rs:497-533 | after any run, once there is no lease or it has expired, every instance that does not serve can take it over at once, wherever it is in its claim loop |
| LeaseTurnover.MayClaimAgain | crates/dataglot-ballista/src/scheduler.rs:497-620 | whoever lost a claim or its leadership does not serve and may claim again |
| LeaseTurnover.MayLeave | crates/dataglot-ballista/src/scheduler.rs:565-571 | an instance may leave at any moment and then does not serve |
| LeaseTurnover.StopsServingIff | crates/dataglot-ballista/src/scheduler.rs:558-620 | a server stops at exactly three steps: a rejected refresh, one that fails a whole lease after the last success, an exit; until then it keeps its claim |
| LeaseTurnover.StartsServingIff | crates/dataglot-ballista/src/scheduler.rs:497-545 | an instance starts to serve only by a claim of its own that lands then |
| LeaseTurnover.RejectedLeaderStops | crates/dataglot-ballista/src/scheduler.rs:576-587 | after any run, a leader whose refresh is rejected does not serve, and in every continuation in which it serves again its claim is a write of its own made after the rejection |
| LeaseTurnover.OutOfTimeLeaderStops | crates/dataglot-ballista/src/scheduler.rs:588-608 | a failed refresh ends leadership exactly when the last success is a whole lease ago, and likewise until a new claim |
| LeaseSafety.BoundedOverlap | crates/dataglot-ballista/src/scheduler.rs:495-620 | in every run with failures and any delays a server stops within the serve bound of its last refresh known to have landed; a successor waited a whole lease from it; two serve together for at most the difference |
| LeaseSafety.InstantOverlapBelowHeartbeat | crates/dataglot-ballista/src/scheduler.rs:495-620 | with instantaneous calls the overlap bound is ceil(L/H)*H - L and less than one heartbeat |
| LeaseSafety.NeverThreeServers | crates/dataglot-ballista/src/scheduler.rs:495-620 | while the serve bound is below two leases, no run has three servers at once |
| LeaseExclusive.ExclusiveWithoutFailures | crates/dataglot-ballista/src/scheduler.rs:495-620 | without heartbeat failures at most one instance serves and the stored expiry is in the future while it does |
| LeaseExclusive.SplitBrainReached | crates/dataglot-ballista/src/scheduler.rs:535-620 | a run without any failure that has two servers, whenever the wait for the first refresh, or for the one after a late answer, can reach the lease |
| LeaseExclusive.ExclusiveIff | crates/dataglot-ballista/src/scheduler.rs:405-426 | for any delays, leadership is exclusive in every failure-free run if and only if set-up, one interval and one call together, and two calls, stay below the lease |
| LeaseOverlap.OverlapBoundReached | crates/dataglot-ballista/src/scheduler.rs:535-620 | for any delays the overlap bound is the exact maximum: a run in which the younger of two servers has served for the whole of it |
| LeaseObject.LeaseStore.PutCreate | crates/dataglot-ballista/src/ha.rs:214-232 | a create stores exactly when the object is absent, whatever is reported back |
| LeaseObject.LeaseStore.PutUpdate | crates/dataglot-ballista/src/ha.rs:245-271 | a conditional write stores exactly under the latest tag and appends one write |
| LeaseObject.ObjectStoreLease.TryClaim | crates/dataglot-ballista/src/ha.rs:210-272 | a win is the caller's own new write, built during the call and live for a whole lease from it; undisturbed, the claim succeeds exactly when there is no lease or an expired one, and otherwise reports the holder |
| LeaseObject.ObjectStoreLease.TryCreate | crates/dataglot-ballista/src/ha.rs:214-232 | undisturbed, the optimistic create wins exactly when the object is absent, with a payload dated at the call |
| LeaseObject.ObjectStoreLease.ReadAndSteal | crates/dataglot-ballista/src/ha.rs:234-272 | reading and stealing succeeds exactly over an expired payload; a refusal names a payload of the store's history |
| LeaseObject.ObjectStoreLease.Steal | crates/dataglot-ballista/src/ha.rs:242-271 | a won steal is the write right after the one seen, dated during the call; a lost one reports a later write |
| LeaseObject.ObjectStoreLease.Heartbeat | crates/dataglot-ballista/src/ha.rs:288-307 | a refresh extends the caller's own latest write; leadership is reported lost only when a newer write exists |
| FlatNames.ReduceRef | crates/dataglot-ballista/src/codec.rs:684-691 | a reference is reduced exactly when it carries a catalog, to one that carries none |
| FlatNames.ReduceFlatName | crates/dataglot-ballista/src/codec.rs:737-756 | the loop rewrites exactly expression names in which some scanned prefix occurs, one prefix after the other |
| FlatNames.ReplaceAcross | crates/dataglot-ballista/src/codec.rs:746-755 | a character outside the pattern splits a replacement in two |
| FlatNames.RewriteQualified | crates/dataglot-ballista/src/codec.rs:746-755 | a qualified column's text loses its catalog and nothing else when no earlier prefix matches in it and no later one in the result |
| FlatNames.ExpressionNameIff | crates/dataglot-ballista/src/codec.rs:737-748 | a name is rewritten at all exactly when it has a parenthesis or a character of the Unicode property White_Space |
| Stripping.CollectFlatNamePrefixes | crates/dataglot-ballista/src/codec.rs:716-733 | one prefix per distinct scanned catalog path and none missing, in scan order |
| Stripping.RenderRewrites | crates/dataglot-ballista/src/codec.rs:737-756 | the text of a rewritten expression is the rewritten text, at any depth and for any prefixes |
| Stripping.FlatNameRewrite | crates/dataglot-ballista/src/codec.rs:783-847 | the flattened name of a rewritten column is the rewritten flattened name |
| StripTheorems.OutputFieldCommutes | crates/dataglot-ballista/src/codec.rs:783-847 | the field a rewritten expression outputs is the old field renamed, so a node above still finds it |
| StripTheorems.SchemaCommutes | crates/dataglot-ballista/src/codec.rs:783-847 | the recomputed schema of every node is its old schema renamed field by field |
| StripTheorems.StripWellFormed | crates/dataglot-ballista/src/codec.rs:783-847 | no node of a rewritten plan keeps a stale schema |
| StripTheorems.StrippedFreeIff | crates/dataglot-ballista/src/codec.rs:783-847 | after stripping no scan, alias, column or schema at any depth carries a catalog, if and only if no expression alias's relation and no subquery plan did |
| StripTheorems.StripIdempotent | crates/dataglot-ballista/src/codec.rs:783-847 | stripping a second time changes nothing, whatever the plan |
| StripMeaning.ResolveSame | crates/dataglot-ballista/src/codec.rs:783-847 | a rewritten column resolves in the renamed schema to the position it had |
| StripMeaning.MeaningKept | crates/dataglot-ballista/src/codec.rs:783-847 | a clean plan in which every column keeps its position keeps its schema up to renaming and its rows over every database and interpretation |
| StripPass.FilterBuildsIff | crates/dataglot-ballista/src/codec.rs:783-847 | a filter asks for nothing of its own when it is rebuilt |
| StripPass.ScanBuildsIff | crates/dataglot-ballista/src/codec.rs:789-801 | a scan can be rebuilt exactly when its columns have different names |
| StripPass.OutputIsFound | crates/dataglot-ballista/src/codec.rs:783-847 | a node above finds the output of any expression under the name it has for it |
| StripPass.FailsOrPreservesMeaning | crates/dataglot-ballista/src/codec.rs:783-847 | whatever references merge: the pass succeeds if and only if renaming keeps the fields of every node distinct, and then every column keeps its position and the rows are the same over every database |
| StripMeaning.StrippingPreservesMeaning | crates/dataglot-ballista/src/codec.rs:783-847 | the whole pass, with the prefixes it collects itself: well formed, schema renamed, every column at its position, same rows over every database and interpretation |
| StripLimits.RewriteChangesIff | crates/dataglot-ballista/src/codec.rs:737-756 | a rewrite changes a name exactly when some prefix occurs in it |
| StripLimits.PlainColumnInCallIff | crates/dataglot-ballista/src/codec.rs:737-756 | rewriting commutes with rendering for a call over an unqualified column exactly when no prefix occurs in the column's name |
| StripLimits.OverAggregateResolvesIff | crates/dataglot-ballista/src/codec.rs:737-847 | for every plan below and every call, a projection over the aggregate still finds its field after stripping if and only if rewriting commutes with rendering for that call |
| StripLimits.OverAggregateSucceedsIff | crates/dataglot-ballista/src/codec.rs:737-847 | the pass succeeds on such a plan if and only if it does below, the call's columns are found and rewriting commutes with rendering for that call |
| StripLimits.CallOverColumnKeepsFieldIff | crates/dataglot-ballista/src/codec.rs:737-847 | over a scan the field is found, and the pass succeeds, exactly when the scanned prefix does not occur in the flattened name of the call |
| StripLimits.DelimiterInPathLosesField | crates/dataglot-ballista/src/codec.rs:737-756 | a path containing a delimiter matches across the seam of a rendered call, and the pass fails on a plan that resolved |
| StripLimits.MergedJoinKeepsRowsIff | crates/dataglot-ballista/src/codec.rs:783-847 | reading a column of the second of two joined tables gives the same rows after stripping, over every database, if and only if reduction keeps the two apart, which is exactly when the pass succeeds |
| StripOrder.QualifierRewrittenIff | crates/dataglot-ballista/src/codec.rs:694-756 | for any list of scanned paths, a qualified column is rewritten to its reduced form if and only if no table scanned earlier has the same schema and table and a catalog that is a proper suffix of its own |
| StripOrder.FirstMatchLeaves | crates/dataglot-ballista/src/codec.rs:746-755 | what such a match leaves: the rest of the catalog glued to the schema, untouched by every later path |
| StripOrder.CapturedPlanResolvesIff | crates/dataglot-ballista/src/codec.rs:716-847 | on a plan over both scans the pass succeeds, and the plan resolves after it, exactly when the first scan does not capture the second |
| StripOrder.CaptureMerges | crates/dataglot-ballista/src/codec.rs:684-691 | tables of which one captures the other reduce to one reference, so no merge-free plan mentions both |
| FederationCodec.ProviderRoundTrip | crates/dataglot-ballista/src/codec.rs:340-444 | with the same configuration on both sides, whatever table provider encodes decodes to the same source of data |
| FederationCodec.SqlEnvelopeNeverWarehouse | crates/dataglot-ballista/src/codec.rs:882-922 | a SQL envelope is never taken for a warehouse table, whatever the decoding side is configured with |
| FederationCodec.WarehouseEnvelopeTakenForSqlIff | crates/dataglot-ballista/src/codec.rs:987-1047 | a warehouse envelope is taken for a SQL source exactly when the decoding side has no warehouse registry and a connector under that name |
| FederationCodec.WarehouseCatalogCapturesSql | crates/dataglot-ballista/src/codec.rs:378-444 | a SQL scan stays SQL through the codec exactly when its catalog names no warehouse |
| FederationCodec.ProviderEncodesIff | crates/dataglot-ballista/src/codec.rs:378-444 | a table provider encodes exactly when its catalog names a warehouse, it is a SQL source that some connector serves, or the wrapped codec knows it |
| FederationCodec.NodeEncodesIff | crates/dataglot-ballista/src/codec.rs:515-607 | a federated node encodes if and only if there is a registry, the first SQL scan with a context has one some connector carries, and every scan can travel; otherwise which error it is |
| FederationCodec.EnvelopeDecodesIff | crates/dataglot-ballista/src/codec.rs:987-1047 | a provider envelope decodes exactly with version 1 and a warehouse or connector the decoding side has, to that source under the reference without its catalog, `public` for a bare warehouse table |
| FederationCodec.NodeDecodesIff | crates/dataglot-ballista/src/codec.rs:609-673 | whatever arrives as a node envelope decodes exactly with version 1, a known connector, one decodable provider per scan and a plan that can be stripped |
| FederationCodec.NativeNodeDecodesIff | crates/dataglot-ballista/src/codec.rs:300-336 | bytes of the wrapped codec come back as its node exactly when no envelope is read into them |
| FederationCodec.NodeRoundTrip | crates/dataglot-ballista/src/codec.rs:515-673 | decoding an encoded federated node fails exactly when the pass does and otherwise gives the stripped inner plan, bound to the one connector with the first federated scan's context, each SQL scan's remote reference its stripped name |
| FederationCodec.StrippedScans | crates/dataglot-ballista/src/codec.rs:783-847 | scan by scan, stripping reduces the name and keeps the source |
| CacheSafety.RunInv | crates/dataglot-catalog/src/cache.rs:119-168 | what every interleaving keeps: cells, builders, holders, the two maps and the log of successes agree |
| CacheTheorems.FreshAfterEvict | crates/dataglot-catalog/src/cache.rs:119-168 | after an evict every in-flight cell of the key is younger than it, and a warm provider built before it was published by a `get` that already held its cell |
| CacheTheorems.EvictIsFinalIff | crates/dataglot-catalog/src/cache.rs:119-168 | in every continuation of an evict all warm providers of the key are younger than it, if and only if as it completes the key is not warm again and no `get` holds a build of it |
| CacheProgress.QuietEvictIsFinal | crates/dataglot-catalog/src/cache.rs:165-168 | after any run, an evict nothing comes between, while no `get` holds a build, takes the key out of both maps, leaves the others, and is final |
| CacheProgress.GetCanFinish | crates/dataglot-catalog/src/cache.rs:119-157 | in every reachable state a `get` can be served: a warm key at once and as it is, a cold one by at most one build, after which the key is warm with what is returned |
| CacheProgress.FailureIsNotCached | crates/dataglot-catalog/src/cache.rs:136-144 | after a failed or abandoned build whoever waits on the cell may build, and nothing became warm |
| CacheProgress.MayBeAbandoned | crates/dataglot-catalog/src/cache.rs:136-144 | a `get` that waits or builds may be dropped at any moment, returning nothing and leaving its cell without a builder |
| CacheTheorems.CellsCollapse | crates/dataglot-catalog/src/cache.rs:119-157 | over every interleaving: one builder and one success per cell, and only successes are warm or returned |
| CacheTheorems.EachKeyBuiltOnce | crates/dataglot-catalog/src/cache.rs:119-157 | without evicts and late lookups each key is built successfully at most once, and every caller served and the warm map have that one provider |
| CacheTheorems.SecondBuildIff | crates/dataglot-catalog/src/cache.rs:119-157 | a cell lookup can be followed by a second build of its key if and only if the key was published and its cell removed since the probe |
| CacheLimits.StaleAfterEvict | crates/dataglot-catalog/src/cache.rs:119-168 | a run in which a `get` started after an evict completed is served a provider built before it |
| CacheLimits.BuiltTwiceWithoutEvict | crates/dataglot-catalog/src/cache.rs:119-157 | a run without evicts in which one key is built successfully twice |
| CatalogCache.OnceCell.GetOrTryInit | crates/dataglot-catalog/src/cache.rs:136-144 | a filled cell keeps its value, an empty one takes a success and stays empty on a failure |
| CatalogCache.CatalogProviderCache.Get | crates/dataglot-catalog/src/cache.rs:119-157 | alone, a warm key is served as it is, a cold one is built and becomes warm, a failure is not cached |
| CatalogCache.CatalogProviderCache.Evict | crates/dataglot-catalog/src/cache.rs:165-168 | the key leaves both maps and nothing else changes |
| CatalogCache.CatalogProviderCache.ApplyChange | crates/dataglot-catalog/src/cache.rs:231-241 | every change evicts exactly its name |
| Orders.Sorted | crates/dataglot-catalog/src/redb_store.rs:317-341 | iteration in key order: ascending, every key once |
| Orders.StrLessIff | crates/dataglot-catalog/src/redb_store.rs:317-341 | key order of strings: by the first character in which they differ, a proper prefix first |
| Orders.SameElementsSame | crates/dataglot-catalog/src/redb_store.rs:317-341 | an ascending enumeration is determined by its elements |
| StoreRefinement.CallRelated | crates/dataglot-catalog/src/redb_store.rs:254-753 | every call keeps each org's slice of the flat tables equal to that org's nested state |
| StoreRefinement.SlicePut | crates/dataglot-catalog/src/redb_store.rs:254-273 | writing one row changes one name of one org |
| StoreRefinement.SliceRemove | crates/dataglot-catalog/src/redb_store.rs:293-315 | removing one row removes one name of one org |
| StoreRefinement.SliceMembersRemove | crates/dataglot-catalog/src/embedded.rs:710-728 | removing a membership row is removing the member, and the role with its last member |
| StoreRefinement.SliceGrantsPut | crates/dataglot-catalog/src/redb_store.rs:627-630 | storing a grant under its rendering adds it to the org's set of grants |
| StoreAnswers.ScanLists | crates/dataglot-catalog/src/redb_store.rs:320-341 | a filtered scan in key order is the org's map listed by name |
| StoreAnswers.GrantsScan | crates/dataglot-catalog/src/redb_store.rs:637-643 | a scan of the grants meets each of the org's grants exactly once |
| StoreAnswers.RolesScan | crates/dataglot-catalog/src/redb_store.rs:689-706 | the membership scan gives a user's roles in sorted order |
| StoreAnswers.MembersScan | crates/dataglot-catalog/src/redb_store.rs:708-725 | the membership scan gives a role's users in sorted order |
| StoreAnswers.FindUserSame | crates/dataglot-catalog/src/redb_store.rs:505-534 | both stores find the user of the lowest org that has one, or none |
| StoreTheorems.CallAnswers | crates/dataglot-catalog/src/embedded.rs:333-765 | related stores give the same reply and announce the same changes for every call |
| StoreTheorems.RedbRefinesEmbedded | crates/dataglot-catalog/src/redb_store.rs:369-799 | from empty, every sequence of calls: equal replies, grants equal as sets, redb's orgs a sorted subset, and the same change events |
| StoreTheorems.OrgListings | crates/dataglot-catalog/src/redb_store.rs:755-791 | redb lists exactly the known orgs that own something; the two lists are equal if and only if no org was emptied |
| StoreTheorems.EmptiedOrgIsStillListed | crates/dataglot-catalog/src/embedded.rs:755-765 | after one put and its delete the JSON store lists the org and redb does not |
| StoreHistory.GetReturnsLastPut | crates/dataglot-catalog/src/store.rs:318-332 | after any calls both stores return the record last put under the name and not deleted since |
| StoreHistory.BindingsAreLast | crates/dataglot-catalog/src/store.rs:281-299 | after any calls both list exactly the bound names, each with its last binding |
| StoreHistory.ConfigsAreLast | crates/dataglot-catalog/src/store.rs:301-314 | after any calls both list exactly the configs last set while the name was bound; rebinding keeps one, deleting drops it |
| StoreHistory.ListingIsLast | crates/dataglot-catalog/src/store.rs:340-404 | after any calls both list a kind's names in order, showing of the last put exactly the superuser flag of a user, the kind of a policy, the whole of a data product and nothing of a secret |
| StoreHistory.FindUserIsLast | crates/dataglot-catalog/src/store.rs:374-391 | after any calls both find the user in the lowest org where one was put and not deleted since, or none anywhere |
| StoreHistory.RolesAreLast | crates/dataglot-catalog/src/store.rs:406-423 | after any calls both list the roles put and not deleted since, sorted |
| StoreHistory.RolesForUserAreLast | crates/dataglot-catalog/src/store.rs:481-502 | after any calls both list the roles a user was added to and not removed from since, sorted |
| StoreHistory.GrantsAreLast | crates/dataglot-catalog/src/store.rs:458-479 | after any calls both list exactly the grants given and not revoked since |
| StoreHistory.RoleMembersAreLast | crates/dataglot-catalog/src/store.rs:481-508 | after any calls both list the users added to a role and not removed since, sorted |
| StoreHistory.WritesAnswerFromHistory | crates/dataglot-catalog/src/store.rs:281-508 | after any calls both answer a write with the binding it replaces, or with whether it removes anything, as the calls tell |
| StoreHistory.FeedIsTheHistory | crates/dataglot-catalog/src/store.rs:262-314 | from empty, both announce exactly these changes in order: every binding, a config while its name is bound, a deletion of a bound name |
| StoreHistory.OrgsAreIsolated | crates/dataglot-catalog/src/store.rs:262-268 | after any calls, a call on one org changes no answer and no announcement of either store for another |
| EmbeddedObject.EmbeddedMetaStore.UpsertBinding | crates/dataglot-catalog/src/embedded.rs:361-387 | the binding moves, the source config stays, the previous binding is returned and one change announced |
| EmbeddedObject.EmbeddedMetaStore.SetSourceConfig | crates/dataglot-catalog/src/embedded.rs:389-407 | an unknown name changes and announces nothing and creates no org |
| EmbeddedObject.EmbeddedMetaStore.DeleteBinding | crates/dataglot-catalog/src/embedded.rs:409-421 | the entry goes and is announced exactly when it existed |
| EmbeddedObject.EmbeddedMetaStore.PutNamed | crates/dataglot-catalog/src/embedded.rs:423-431 | one record of one org is set, creating the org if needed |
| EmbeddedObject.EmbeddedMetaStore.DeleteNamed | crates/dataglot-catalog/src/embedded.rs:438-449 | one record goes, and the reply says whether it existed |
| EmbeddedObject.EmbeddedMetaStore.AddRoleMember | crates/dataglot-catalog/src/embedded.rs:697-708 | one membership is added |
| EmbeddedObject.EmbeddedMetaStore.RemoveRoleMember | crates/dataglot-catalog/src/embedded.rs:710-728 | one membership goes, with the role's key when it was the last |
| EmbeddedObject.EmbeddedMetaStore.FindUser | crates/dataglot-catalog/src/embedded.rs:496-519 | the scan over sorted orgs returns the first match |
| RedbObject.RedbMetaStore.UpsertBinding | crates/dataglot-catalog/src/redb_store.rs:397-419 | the binding moves, the stored config stays, the previous binding is returned and one change announced |
| RedbObject.RedbMetaStore.SetSourceConfig | crates/dataglot-catalog/src/redb_store.rs:421-441 | an unknown name changes and announces nothing |
| RedbTransactions.WriteIsTheCallIff | crates/dataglot-catalog/src/redb_store.rs:397-441 | a write made after an earlier read has the effect of the whole call if and only if the part of the row it means to keep is unchanged since |
| RedbTransactions.ConcurrentCallsExplainedIff | crates/dataglot-catalog/src/redb_store.rs:397-449 | on every store and in every interleaving the rows are those of some order of the calls, if and only if the calls on each name are all of one kind |
| RedbTransactions.ConcurrentAnswersExplainedIff | crates/dataglot-catalog/src/redb_store.rs:397-449 | rows and answers together are those of some order of the calls, if and only if besides that no name is rebound twice |
| RedbTransactions.EveryCallOnce | crates/dataglot-catalog/src/redb_store.rs:397-449 | in every interleaving the calls that took effect are exactly those of finished tasks, each once |
| RedbTransactions.TaskCanFinish | crates/dataglot-catalog/src/redb_store.rs:397-449 | an unfinished call can finish by itself in at most two transactions |
| RedbTransactions.ReplyIsAnswer | crates/dataglot-catalog/src/redb_store.rs:397-449 | the answers compared are those of the sequential store |
| RedbTransactions.BothFindItUnbound | crates/dataglot-catalog/src/redb_store.rs:397-419 | a run in which two rebindings both answer that the name was unbound |
| RedbTransactions.RebindingIsLost | crates/dataglot-catalog/src/redb_store.rs:421-441 | a run in which a rebinding is lost to a config set meanwhile |
| RedbTransactions.DeletedConfigComesBack | crates/dataglot-catalog/src/redb_store.rs:397-419 | a run in which a rebinding brings back the config of a name deleted meanwhile |
| RedbTransactions.DeleteIsUndone | crates/dataglot-catalog/src/redb_store.rs:421-449 | a run in which setting a config brings back a name deleted meanwhile |
| RedbObject.RedbMetaStore.DeleteBinding | crates/dataglot-catalog/src/redb_store.rs:443-449 | the row goes and is announced exactly when it existed |
| RedbObject.RedbMetaStore.PutBytes | crates/dataglot-catalog/src/redb_store.rs:254-273 | one row of one table is set |
| RedbObject.RedbMetaStore.RemoveKey | crates/dataglot-catalog/src/redb_store.rs:293-315 | one row goes, and the reply says whether it existed |
| RedbObject.RedbMetaStore.ListOrg | crates/dataglot-catalog/src/redb_store.rs:320-341 | the scan loop returns the org's rows in key order |
| RedbObject.RedbMetaStore.FindUser | crates/dataglot-catalog/src/redb_store.rs:505-534 | the scan loop returns the first row with the name |
| RedbObject.RedbMetaStore.ListRolesForUser | crates/dataglot-catalog/src/redb_store.rs:689-706 | the scan loop returns the roles of the user's rows in key order |
| RedbObject.RedbMetaStore.ListRoleMembers | crates/dataglot-catalog/src/redb_store.rs:708-725 | the scan loop returns the users of the role's rows in key order |
| RedbObject.RedbMetaStore.ListOrgs | crates/dataglot-catalog/src/redb_store.rs:755-791 | one pass over each of the eight tables yields every owning org, sorted |
| Durability.ReopenYieldsACommittedState | crates/dataglot-catalog/src/embedded.rs:295-317 | over any number of crashes and reopenings, with any failures, reopening yields the memory state after some mutation no earlier than the last one ever acknowledged |
| Durability.AcknowledgedIsKept | crates/dataglot-catalog/src/embedded.rs:295-317 | the acknowledged history is a prefix of the history after every continuation |
| Durability.AcknowledgedIsDurable | crates/dataglot-catalog/src/embedded.rs:361-387 | right after an acknowledgement the latest mutation is the acknowledged one, and reopening yields the memory itself |
| Durability.MutationCanFinish | crates/dataglot-catalog/src/embedded.rs:295-317 | between any two calls a call that writes can go through, and is then in memory, in the file and acknowledged |
| Durability.FailureOutcomes | crates/dataglot-catalog/src/embedded.rs:295-317 | which steps of a write can fail, tear or be cut off, and what memory, file and caller are left with then |
| Durability.RestartLoadsTheFile | crates/dataglot-catalog/src/embedded.rs:244-282 | after any run a restart is possible and loads exactly what the file holds, losing nothing acknowledged |
| Durability.PersistsIff | crates/dataglot-catalog/src/embedded.rs:361-449 | a call writes exactly when it puts something, reports a removal or announces a change |
| Durability.UnpersistedChangesNothing | crates/dataglot-catalog/src/embedded.rs:389-421 | a call that returns without writing has changed nothing in memory |
| Durability.RetriedDeleteComesBack | crates/dataglot-catalog/src/embedded.rs:438-449 | a failed delete repeated answers false without writing, and the record is there after reopening |
| Durability.RepeatReachesFileIff | crates/dataglot-catalog/src/embedded.rs:361-449 | after any run, a failed call repeated and answered without error is in the file if and only if it puts something or the failed attempt's rename had landed |
| Durability.RepeatSurvivesRestartIff | crates/dataglot-catalog/src/embedded.rs:361-449 | from a file that held the memory, a restart after the answered repeat shows the memory under exactly that condition, and otherwise the record is back |
| Migrations.EndsIff | crates/dataglot-catalog/src/migrations.rs:63-80 | for every chain, target and version the loop ends if and only if no version is met twice in as many turns as the chain has steps, and then within that many |
| Migrations.RunEmbeddedMigrations | crates/dataglot-catalog/src/migrations.rs:63-80 | on every input it ends on, the loop follows the first matching step and takes exactly the turns until it stops, at most as many as there are steps |
| Migrations.MigratesIff | crates/dataglot-catalog/src/migrations.rs:63-80 | the loop succeeds exactly when it comes to the target, and otherwise reports the version it is stuck at |
| Migrations.LinkedChainMigrates | crates/dataglot-catalog/src/migrations.rs:63-80 | a linked chain succeeds exactly for the target and its source versions, composing the remaining steps in order; otherwise it reports the version found |
| Migrations.CycleNeverEnds | crates/dataglot-catalog/src/migrations.rs:69-78 | on any chain, a version met twice keeps the loop running for any number of turns without reaching the target |
| Migrations.MigrationKeepsEverything | crates/dataglot-catalog/src/embedded.rs:76-96 | loading a migrated document gives the flat entries and secrets under org `default` and nothing elsewhere, and fails exactly when the flat document is ill-typed |
| Migrations.MigrationKeepsOtherFields | crates/dataglot-catalog/src/embedded.rs:76-96 | every other top-level field is kept, the flat ones are gone and the version is v2 |
| Migrations.OpenDocument | crates/dataglot-catalog/src/embedded.rs:244-282 | a document opens by its version tag: v1 nested under `default`, v2 as it is, anything else refused, ill-typed ones corrupt |
| SchemaPlan.TagRank | crates/dataglot-catalog/src/migrations.rs:145-147 | tags rank by number for every 32-bit number and not at all beyond |
| SchemaPlan.MaxByRank | crates/dataglot-catalog/src/service.rs:420-427 | the reported version is a top-ranked row, of equally ranked ones the last |
| SchemaPlan.PrefixPlansTheRest | crates/dataglot-catalog/src/migrations.rs:119-138 | on an increasing chain a ledger holding a prefix plans exactly the rest |
| SchemaPlan.RerunPlansNothingIff | crates/dataglot-catalog/src/migrations.rs:119-147 | a fully applied database plans nothing if and only if the last version outranks every other |
| SchemaRunner.LedgerIsAppliedPrefix | crates/dataglot-catalog/src/service.rs:404-448 | for any connects and crashes the ledger is a prefix that never shrinks, its steps executed in order; no connect is refused; a successful one leaves the whole chain applied |
| SchemaRunner.ConnectCanFinish | crates/dataglot-catalog/src/service.rs:404-448 | whatever the others did, a connect that has not failed can finish by itself: it executes exactly the steps it planned and has not executed, in order, and leaves the whole chain recorded |
| SchemaRunner.AtTargetNothingRuns | crates/dataglot-catalog/src/service.rs:404-448 | at the target no connect executes or records anything |
| SchemaRunner.ForeignLedgerIsRefused | crates/dataglot-catalog/src/service.rs:404-448 | a newer or unknown version stops every connect before any step |
| SchemaRunner.CatalogDatabase.RunPending | crates/dataglot-catalog/src/service.rs:432-445 | cut off after any number of statements, exactly one step per two statements is recorded, in order, one left over executes one more, and it completes exactly when there were enough |
| SchemaRunner.CatalogDatabase.EnsureSchema | crates/dataglot-catalog/src/service.rs:404-448 | refused exactly when the reported version is not known, touching nothing; ready exactly when the whole planned tail was applied |
| SchemaRunner.CatalogDatabase.CutOffThenComplete | crates/dataglot-catalog/src/service.rs:404-448 | a connect cut off anywhere and a complete one leave every version recorded and at most one step executed twice |
| PlanGuard.ValidateWithCap | crates/dataglot-ballista/src/plan_guard.rs:65-98 | accepts exactly the graphs whose unfolding is finite with at most the given number of nodes, counts exactly those nodes, and pops at most one more than the cap |
| PlanGuard.CycleIsRejected | crates/dataglot-ballista/src/plan_guard.rs:65-98 | a plan that reaches a cycle, through inputs or a federated node, is rejected whatever the cap |
| PlanGuard.CyclicIff | crates/dataglot-ballista/src/plan_guard.rs:65-98 | a plan has no finite unfolding if and only if it reaches a cycle |
| PlanGuard.ReferencesPgCatalog | crates/dataglot-ballista/src/plan_guard.rs:381-407 | a hit is a real `pg_catalog` scan; on plans within the walk's cap it is found exactly when there is one |
| PlanGuard.IsInputLess | crates/dataglot-ballista/src/plan_guard.rs:424-446 | true exactly for finite plans within the cap without a table scan |
| PlanGuard.SearchExact | crates/dataglot-ballista/src/plan_guard.rs:381-446 | a search that ends by itself is right, and one cut off was on a plan larger than its cap |
| PlanGuard.DispatchIff | crates/dataglot-ballista/src/plan_guard.rs:448-494 | the whole dispatch for every plan: local exactly when one of the first 100,000 nodes walked is a `pg_catalog` scan or the plan fits the walk and scans no table; of the rest, distributed exactly when it unfolds to at most 10,000 nodes, and rejected otherwise |
| PlanGuard.SmallPlanDispatchIff | crates/dataglot-ballista/src/plan_guard.rs:448-494 | a plan within the walks' cap is local exactly when it has a `pg_catalog` scan or no table scan, and rejected exactly when it is neither and unfolds to more than 10,000 nodes |
| PlanGuard.DistributedIff | crates/dataglot-ballista/src/cluster.rs:118-147 | the distributed planner is called exactly for plans that reach no cycle, unfold to at most 10,000 nodes, and have a table scan and no `pg_catalog` scan |
| PlanGuard.CyclicPlanDispatch | crates/dataglot-ballista/src/plan_guard.rs:477-494 | a plan that reaches a cycle is rejected unless a `pg_catalog` scan is met first |
| PlanGuard.CyclicPlanPlannedLocally | crates/dataglot-ballista/src/plan_guard.rs:477-494 | a cyclic plan that reaches the local planner |
| CancelOnDrop.Remap | crates/dataglot-ballista/src/cancel_on_drop.rs:438-445 | a batch is never touched, an error stays an error, and exactly one naming the limitation is replaced |
| CancelOnDrop.InOrderPrefix | crates/dataglot-ballista/src/cancel_on_drop.rs:148-230 | in every interleaving, received and buffered items are an in-order prefix of the remapped stream with nothing after the first error, at most two of them buffered |
| CancelOnDrop.WholePrefixDelivered | crates/dataglot-ballista/src/cancel_on_drop.rs:148-230 | a consumer that stays and sees the stream close has received all of it |
| CancelOnDrop.ReadingOnDelivers | crates/dataglot-ballista/src/cancel_on_drop.rs:148-251 | from every state a consumer still reads from, reading on delivers everything, if the source ends or fails |
| CancelOnDrop.WorkShrinks | crates/dataglot-ballista/src/cancel_on_drop.rs:186-213 | without a drop every step of driver and consumer is progress |
| CancelOnDrop.SomethingEnabled | crates/dataglot-ballista/src/cancel_on_drop.rs:186-213 | without a drop driver and consumer are never both stuck, unless the source blocks |
| CancelOnDrop.CancelOnceAfterDrop | crates/dataglot-ballista/src/cancel_on_drop.rs:214-228 | a cancel request is sent at most once, whatever its answer, only after a drop, for the reported job; cancel and metrics fetch never both happen, and a fetch follows only a complete stream |
| CancelOnDrop.KnownJobIsCancelled | crates/dataglot-ballista/src/cancel_on_drop.rs:346-422 | an abandonment whose job id was visible when it was noticed ends in exactly one request for it, or in the scheduler not being reached |
| CancelOnDrop.CancelAttemptIff | crates/dataglot-ballista/src/cancel_on_drop.rs:346-422 | from any state after a drop, every continuation that ends has tried to cancel if and only if the job id is known and the stream is not at its end where the driver polls it |
| CancelOnDrop.DroppedReachesDone | crates/dataglot-ballista/src/cancel_on_drop.rs:346-422 | after a drop the driver can always finish, without the consumer and without a job id |
| CancelOnDrop.CanBeAbandoned | crates/dataglot-ballista/src/cancel_on_drop.rs:186-228 | after any run a query still running can be abandoned and brought to its cancel request, the consumer keeping what it has |
| CancelOnDrop.CancelOutcomes | crates/dataglot-ballista/src/cancel_on_drop.rs:396-422 | a cancel attempt ends in one request answered, one answered with an error, or none sent |
| CancelOnDrop.StreamDecides | crates/dataglot-ballista/src/cancel_on_drop.rs:362-393 | while no id is known the stream's end or error ends the search, and anything else continues it before the same deadline |
| CancelOnDrop.EveryScheduleEnds | crates/dataglot-ballista/src/cancel_on_drop.rs:346-422 | after a drop no schedule of clock, scheduler and stream has more driver steps than a bound fixed by the items left, and when none is left the driver is done |
| CancelOnDrop.DriverNotStuck | crates/dataglot-ballista/src/cancel_on_drop.rs:346-422 | after a drop a driver that is not done can act at once or once its poll slice is over |
| CancelOnDrop.ResolutionIsBounded | crates/dataglot-ballista/src/cancel_on_drop.rs:356-393 | the search for a job id is over one poll slice of 100 ms after 30 seconds and gives up no earlier |

## Left out

- StripMeaning.StrippingPreservesMeaning: proved under the conditions in its contract, which are sufficient: reduction merges no two references or names of the plan, expression aliases carry no catalog, scanned paths contain no delimiter, and a path occurs in a name only as a rendered qualifier. It says what the pass would leave, not whether the engine accepts it. `StripPass.FailsOrPreservesMeaning` does without the first for columns that name their fields exactly: what merges makes the pass fail. `StripLimits.MergedJoinKeepsRowsIff`, `StripLimits.DelimiterInPathLosesField`, `StripLimits.CallOverColumnKeepsFieldIff` and `StripOrder.CapturedPlanResolvesIff` show plans that break without the first, the third and the last. Subqueries are uninterpreted.
- StripPass.FailsOrPreservesMeaning: keeps the conditions on aliases, delimiters and embedded paths, asks that columns name their fields exactly, and that renaming gives no two fields one name whose qualifiers agree without being equal.
- Stripping.RenderRewrites: assumes that a prefix occurs in an expression's text only where a qualifier was rendered; `StripLimits.PlainColumnInCallIff` shows that it fails otherwise.
- CatalogCache.CatalogProviderCache.Get: describes one caller at a time; concurrent callers are the subject of `CacheProtocol`.
- RedbObject.RedbMetaStore.UpsertBinding: describes one caller at a time; its two transactions among other callers are the subject of `RedbTransactions`, which leaves out the change events.
- RedbObject.RedbMetaStore.SetSourceConfig: describes one caller at a time; the same holds.
- CancelOnDrop.KnownJobIsCancelled: speaks of an id visible when the drop was noticed; `CancelOnDrop.CancelAttemptIff` covers one that lands later.
- The high-availability loop of the scheduler and the cancel-on-drop driver are state machines rather than methods, since their interleavings are the subject.
- Clock skew between schedulers, releasing and rebinding the port after a step-down, a missing entity tag and a malformed lease payload.
- Abandoning a JSON store write while the process lives, and power loss between write and rename.
- Byte encodings: protobuf, JSON text and redb pages are taken as faithful encodings of the modelled values.
- The schema lookup behind a decoded table provider, nested federated nodes inside an encoded plan, and unsupported file formats and functions of the codec.
- Subquery plans in the guard's walks, which follow inputs and federated nodes only.
- Store I/O errors of redb and the SQL text of the Postgres store's record calls.
- Subscribing to changes: reconnects, back-off and lagging subscribers.
- The gRPC metrics aggregation, logging, TLS, server and executor start-up, the monitor, catalog configuration, command-line parsing, benches and the frontend: no property that spans operations.
