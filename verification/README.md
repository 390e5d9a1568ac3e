# Conduit admin layer: verified model

A Dafny model of the parts of the Conduit AI gateway's admin layer that hold algorithms, state
machines or protocols, with proofs of what they guarantee. `dafny verify dfyconfig.toml` checks
everything.

What is modelled, and the main results:

* **Model aliases** (`model_aliases`, `alias_pipeline`, `alias_theorems`, `channel_rows`). A channel's model listing is
  built by rounds of arbitrated insertion and interleaved deletion on one ordered map. `ModelAliases`
  defines, one name at a time and without any map, what a name means (`Resolve`); the loops of
  `AliasPipeline.ChannelModelEntries` are proved to list exactly that, for every combination of settings.
  The listing depends on the supported models only as a set, reaches only supported models, never shows a
  hidden target except through a mapping, and without hiding is the best candidate per name. What each
  settings field does to the rows is stated on the channel's own fields (`ChannelRows`).
* **Routes and aliases** (`route_merge`, `route_convergence`, `routing`). Preview and merge are a diff and a
  patch. After a merge the rebuilt preview is known row by row for any aliases; merging twice is merging
  once; a replacing merge converges exactly when no conflicting alias is stored twice; and a routed alias
  is served by the listing exactly when nothing shadows it and, under case folding, nothing rivals it.
* **Applying reviewed aliases** (`alias_apply`). The versioned apply operation with any number of
  administrators, channel edits and route edits interleaved: every commit merges a comparison with exactly
  the aliases it overwrites, loses no update, uses each version once, and leaves the routed aliases served.
* **Graph freshness** (`freshness`, `freshness_protocol`). Refreshing as steps interleaved with arbitrary
  edits, partial engine output and aborts. The check passes exactly when cache and inputs are those of the
  last completed refresh, and then the graph shows every path as it is, except paths that were edited and
  edited back while it was built (a witness shows that exception is real).
* **Authorize, then lock** (`settings_lock`, `settings_lock_theorems`). Any number of field resolutions over
  one exclusive lock: mutual exclusion, serial histories, complete lifecycles, no deadlock, bounded runs,
  exactly which request can have which field started, and who can have started a settings write.
* **API keys** (`api_keys`, `api_key_theorems`, `decimals`). The store's invariants over every run, exactly
  when ids can collide, and the counting argument behind the all-or-nothing bulk update.
* **Smaller cores**: credit amounts against the micros ledger (`credit_amount`), data-storage settings as a
  monoid action and field by field (`storage_merge`, `storage_fields`, `storage_records`), idempotent
  settings normalisation that keeps what was submitted
  (`settings_normalization`), the error cascade (`error_classifier`) and batched loads (`batch_loading`).

Conventions. A `BTreeMap` is a finite map with its keys taken in ascending order (`Ordered.Sorted`); UTF-8
byte order is code-point order. A SHA-256 digest is a constructor applied to the hashed value, that is,
collisions are assumed away. `str::trim` strips Unicode white space. Regex validity, the Unicode case
folding of profile names, scope decisions and the field table are parameters, so the results hold for all
of them. Decimal arithmetic is exact.

Where the code differs from its own description, the model follows the code:

* `merge_gcs` keeps a stored bucket always, not only for an empty input (`StorageMerge.GcsBucketIsFixed`).
* The upstream needle "gateway timeout" can never match first (`ErrorClassifier.GatewayTimeoutIsDead`).

Other behaviour worth knowing:

* Renaming an API key probes the names of every project, whereas creating one looks at its own project only
  (`ApiKeyTheorems.RenameProbesEveryProject`).
* A preview reads the last of several equal aliases, a merge rewrites the first
  (`RouteConvergence.DuplicatesDiverge`).
* With mapped models hidden, a model can lose its own name, for instance by being mapped to itself with no
  later mapping from it (`AliasTheorems.UnlistedIff`, `AliasTheorems.SelfMappingUnlists`).
* The version checked before an apply does not cover every route change (deleting a public model renews no
  channel, crates/conduit-db/src/repo/pg_model_repo.rs:219), so rows can be written that the routes no
  longer ask for (`AliasApply.CommittedRowsCurrentIff`, `AliasApply.QuietRoutesGoUnnoticed`).

## Model

| member | source | states |
|---|---|---|
| `AliasPipeline.Insert` | crates/conduit-admin-graphql/src/channel.rs:662-682 | inserting under a key replaces what is there only by strictly higher priority, so ties keep the first, and changes no other key |
| `AliasPipeline.InsertDirect` | crates/conduit-admin-graphql/src/channel.rs:688-690 | after the loop exactly the supported models are keys, each meaning itself |
| `AliasPipeline.InsertPrefixed` | crates/conduit-admin-graphql/src/channel.rs:692-704 | every key is arbitrated with the one model that carries the extra prefix to it, whatever the order of models |
| `AliasPipeline.InsertTrimmed` | crates/conduit-admin-graphql/src/channel.rs:713-724 | one prefix: every key is arbitrated with the one model that trims to it |
| `AliasPipeline.InsertAllTrimmed` | crates/conduit-admin-graphql/src/channel.rs:706-725 | the nested loops arbitrate each key with the first non-empty prefix in list order that trims a supported model to it |
| `AliasPipeline.OriginalEntries` | crates/conduit-admin-graphql/src/channel.rs:686-725 | the three insertion rounds give every name its original meaning: direct, else first auto-trim, else prefix |
| `AliasPipeline.ApplyMappings` | crates/conduit-admin-graphql/src/channel.rs:727-745 | the loop of insertions and interleaved deletions leaves each name its closed-form meaning: the first effective mapping after an outranking original has been hidden, else the original unless hidden |
| `AliasPipeline.MappedStep` | crates/conduit-admin-graphql/src/channel.rs:731-744 | one insert-then-retain step advances the closed form by exactly one mapping |
| `AliasPipeline.CollapseCase` | crates/conduit-admin-graphql/src/channel.rs:754-766 | each ASCII case class keeps its highest-priority entry, ties going to the smallest key, and no class is lost |
| `AliasPipeline.CollapseIdempotent` | crates/conduit-admin-graphql/src/channel.rs:754-766 | every collapsed key is its own lower-case form, and collapsing again changes nothing |
| `AliasPipeline.ChannelModelEntries` | crates/conduit-admin-graphql/src/channel.rs:684-778 | for all settings, the rows are exactly the names that resolve, with their resolved model and source, in ascending order, and under case folding every visible name is represented |
| `ModelAliases.WinnerResolves` | crates/conduit-admin-graphql/src/channel.rs:754-766 | a case class has at most one speaker, and resolving the class means what its speaker means |
| `AliasTheorems.ListsUnique` | crates/conduit-admin-graphql/src/channel.rs:684-778 | the listing is determined by the configuration |
| `AliasTheorems.SupportedModelsActAsSet` | crates/conduit-admin-graphql/src/channel.rs:684-778 | reordering or repeating supported models never changes any row |
| `AliasTheorems.TargetsSupported` | crates/conduit-admin-graphql/src/channel.rs:684-778 | every name resolves to a supported model, whatever the settings |
| `AliasTheorems.HiddenTargetsStayHidden` | crates/conduit-admin-graphql/src/channel.rs:727-752 | with mapped models hidden, only a mapping reaches the target of an active mapping, although insertions follow deletions |
| `AliasTheorems.DirectIff` | crates/conduit-admin-graphql/src/channel.rs:684-752 | exactly when a supported model is listed as itself |
| `AliasTheorems.UnlistedIff` | crates/conduit-admin-graphql/src/channel.rs:684-752 | exactly when a supported model's own name means nothing any more: the first mapping to it deletes its entry and no later active mapping takes the name over, or, with no such mapping, originals are hidden |
| `AliasTheorems.SelfMappingUnlists` | crates/conduit-admin-graphql/src/channel.rs:734-744 | with mapped models hidden, a self-mapping that is the first mapping to its model removes it exactly when no later active mapping takes the name over |
| `AliasTheorems.BestCandidate` | crates/conduit-admin-graphql/src/channel.rs:684-745 | with nothing hidden or folded, a name means its highest-priority candidate, first in list order among equals, and means nothing only if it has no candidate |
| `ChannelRows.HideOriginalDropsDirect` | crates/conduit-admin-graphql/src/channel.rs:746-752 | without case folding, setting `hide_original_models` removes exactly the direct rows; auto-trimmed, prefixed and mapped rows survive |
| `ChannelRows.HideMappedDropsTargets` | crates/conduit-admin-graphql/src/channel.rs:727-745 | without case folding, setting `hide_mapped_models` removes, of the rows that are not mappings, exactly those of mapping targets, and no mapping row |
| `ChannelRows.DirectRowIff` | crates/conduit-admin-graphql/src/channel.rs:684-752 | which supported models have a direct row, in terms of the channel's settings fields |
| `ChannelRows.PlainRowsAreBest` | crates/conduit-admin-graphql/src/channel.rs:684-745 | with nothing hidden or folded the rows are exactly the best offers made by the supported models, the extra prefix, the auto-trim list and the mappings of the channel: direct before auto-trim before mapping before prefix, first in its list |
| `ChannelRows.BareChannelRows` | crates/conduit-admin-graphql/src/channel.rs:684-690 | without settings the rows are the supported models as themselves and nothing else |
| `ChannelRows.FoldedRowsAreSpeakers` | crates/conduit-admin-graphql/src/channel.rs:754-766 | with `lowercase_model_id` the rows are exactly the best rows of each case class of the unfolded listing, under their lower-case names |
| `RouteMerge.Collect` | crates/conduit-admin-graphql/src/commercialization.rs:203-210 | collecting pairs keeps the last target of each alias |
| `RouteMerge.BuildPreview` | crates/conduit-admin-graphql/src/commercialization.rs:195-255 | one row per routed alias, ascending, classified by comparing last route with last existing alias, with 32-bit counts |
| `RouteMerge.ComparisonUnique` | crates/conduit-admin-graphql/src/commercialization.rs:195-255 | aliases and routes determine the rows |
| `RouteMerge.ReportedCounts` | crates/conduit-admin-graphql/src/commercialization.rs:239-253 | the three reported counts add up to the number of rows exactly when none overflows 32 bits |
| `RouteMerge.MergeMappings` | crates/conduit-admin-graphql/src/commercialization.rs:258-280 | the loop computes the left fold of row merges |
| `RouteMerge.MergeShape` | crates/conduit-admin-graphql/src/commercialization.rs:258-280 | a merge rewrites the first alias of each conflicting row in place if asked, appends the created ones in order, and leaves every other alias and position alone |
| `RouteConvergence.ReadAfterMerge` | crates/conduit-admin-graphql/src/commercialization.rs:195-280 | how the preview reads any routed alias in the merged list |
| `RouteConvergence.RebuiltRows` | crates/conduit-admin-graphql/src/commercialization.rs:195-280 | the rebuilt preview row by row: creates and skips become skips, conflicts stay unless replaced where the alias was unique |
| `RouteConvergence.ConvergesIff` | crates/conduit-admin-graphql/src/commercialization.rs:195-280 | a replacing merge leaves only skips if and only if no conflicting alias is stored twice |
| `RouteConvergence.DistinctConverges` | crates/conduit-admin-graphql/src/commercialization.rs:195-280 | with distinct aliases it always converges, one skip per routed alias |
| `RouteConvergence.DuplicatesDiverge` | crates/conduit-admin-graphql/src/commercialization.rs:203-206 | a duplicated alias whose merge changes nothing and stays in conflict |
| `RouteConvergence.MergeKeepsDistinct` | crates/conduit-admin-graphql/src/commercialization.rs:258-280 | merging preserves distinctness of aliases in both modes |
| `RouteConvergence.MergeIdempotent` | crates/conduit-admin-graphql/src/commercialization.rs:258-280 | previewing and merging again is the identity, in both modes, even with duplicates |
| `RouteConvergence.SafeMerge` | crates/conduit-admin-graphql/src/commercialization.rs:212-280 | without replacement existing aliases keep place and target, exactly the creates follow in ascending order, and the rebuilt preview has no creates, the same conflicts and the old skips plus creates |
| `Routing.RoutedAliasResolvesIff` | crates/conduit-admin-graphql/src/commercialization.rs:258-280 | after a replacing merge over distinct aliases a routed alias with a supported target serves that target if and only if it is unshadowed and, under case folding, unrivalled in its case class, for any hide flags; its request name then resolves to it, and without folding only then |
| `Routing.ResolvesIffServed` | crates/conduit-admin-graphql/src/channel.rs:684-766 | with or without case folding, a request name resolves through a mapping to a target exactly when some alias of that name serves the target |
| `Routing.RoutedAliasListed` | crates/conduit-admin-graphql/src/channel.rs:684-778 | an alias that is neither a supported model nor auto-trimmed, nor rivalled under case folding, is listed under its (folded) name with exactly the routed target |
| `AliasApply.RunKeepsInv` | crates/conduit-bin/src/wiring_postgres_commercialization.rs:508-577 | every interleaving of applies, channel edits and route edits keeps: a session whose version is current has read the current aliases, and the current routes unless they changed quietly since it read them |
| `AliasApply.CommitMergesWhatItCompared` | crates/conduit-bin/src/wiring_postgres_commercialization.rs:508-577 | a commit merges rows comparing the very aliases it overwrites with the routes it read, all supported; these are the current routes if none changed quietly since this session read them |
| `AliasApply.CommittedRowsCurrentIff` | crates/conduit-bin/src/wiring_postgres_commercialization.rs:135-172 | over every run from the read of the routes to a commit, the current routes are those read changed by the quiet changes since, and the rows written are those the current routes ask for if and only if these changes left every alias its target |
| `AliasApply.CommitLosesNothing` | crates/conduit-bin/src/wiring_postgres_commercialization.rs:547-574 | a commit keeps every alias in place under its name, and its target too unless it is routed and conflicts are replaced |
| `AliasApply.EachVersionAppliedOnce` | crates/conduit-bin/src/wiring_postgres_commercialization.rs:513-536 | concurrent applies of one reviewed version: at most one succeeds |
| `AliasApply.UndisturbedApply` | crates/conduit-bin/src/wiring_postgres_commercialization.rs:508-577 | an apply with nothing in between succeeds exactly if the version is current and all routed targets are supported; then the merge is written under a new version, otherwise nothing changes |
| `AliasApply.CommittedRoutesAreServed` | crates/conduit-bin/src/wiring_postgres_commercialization.rs:152-172 | after a replacing commit over distinct aliases every routed alias that is neither supported nor auto-trimmed, nor rivalled under case folding, is listed with the routed target, with no assumption about targets |
| `AliasApply.QuietRoutesGoUnnoticed` | crates/conduit-db/src/repo/pg_model_repo.rs:212-219 | a run in which a public model is deleted after its route was read and the apply still creates its alias |
| `Freshness.Snapshot` | scripts/knowledge.py:41-60 | the digested paths are exactly the listed, non-empty, regular files outside the skip rule, each with the digest of its own content; refused exactly if there is none |
| `Freshness.DigestsInjective` | scripts/knowledge.py:55-60 | equal digests mean equal inputs |
| `Freshness.Changed` | scripts/knowledge.py:117-119 | the reported paths are exactly those whose digests differ, ascending |
| `Freshness.Cache.Refresh` | scripts/knowledge.py:141-158 | success exactly if there are inputs, the engine succeeds, both snapshots agree and the artifact is this project's; the record changes only then, describes what is on disk, and the check passes |
| `Freshness.Cache.CheckFreshness` | scripts/knowledge.py:98-124 | gets as far as comparing inputs exactly when project, generation, graph and root all match and there are inputs; then passes or lists exactly the differing paths |
| `FreshnessProtocol.RunKeepsInv` | scripts/knowledge.py:141-158 | every run of edits, engine activity, refresh steps and aborts keeps the protocol invariant |
| `FreshnessProtocol.CheckPassesIff` | scripts/knowledge.py:98-124 | in every reachable state, exactly when the check passes |
| `FreshnessProtocol.PassingCheckIsFresh` | scripts/knowledge.py:98-158 | a passing check: current inputs equal the record and both snapshots of the publishing refresh, the graph is the recorded one, and it agrees with the tree on every path not touched during indexing |
| `FreshnessProtocol.PassingCheckIsExactIff` | scripts/knowledge.py:98-158 | under a passing check the graph is the index of the current tree if and only if the engine saw every path touched during indexing as it is now, in particular if none was touched |
| `FreshnessProtocol.StaleNamesChanges` | scripts/knowledge.py:116-120 | a stale report names at least one path, and exactly the changed ones |
| `FreshnessProtocol.AbortedRefreshIsHarmless` | scripts/knowledge.py:141-158 | without a publish, a check passes later only if graph and inputs are those recorded before |
| `FreshnessProtocol.UndisturbedRefreshPasses` | scripts/knowledge.py:141-158 | an undisturbed refresh makes the check pass with an exact graph |
| `FreshnessProtocol.RefreshIsRun` | scripts/knowledge.py:141-158 | with a succeeding engine and arbitrary activity while it works, the protocol's steps leave on disk exactly what the refresh command does |
| `FreshnessProtocol.FailedRefreshIsRun` | scripts/knowledge.py:143-146 | the same with a failing engine |
| `FreshnessProtocol.EmptyRefreshIsRun` | scripts/knowledge.py:56-57 | the same without inputs: nothing begins |
| `FreshnessProtocol.RevertedEditGoesUnnoticed` | scripts/knowledge.py:148-149 | a run in which an edit reverted during indexing goes unnoticed |
| `SettingsLock.RunKeepsInv` | crates/conduit-admin-graphql/src/authz_extension.rs:299-334 | every interleaving keeps: the holder is the one lock-needing resolution in its section, and each resolution's events are those of its phase |
| `SettingsLockTheorems.MutualExclusion` | crates/conduit-admin-graphql/src/authz_extension.rs:313-331 | with a lock registered, at most one settings writer is between acquire and release, a settings writer being a mutation field that needs the settings scope or is one of the four named ones |
| `SettingsLockTheorems.OnlyWritersLock` | crates/conduit-admin-graphql/src/authz_extension.rs:313-331 | nothing but a settings writer ever asks for the permit, and only with a lock registered |
| `SettingsLockTheorems.NoLockNoExclusion` | crates/conduit-admin-graphql/src/authz_extension.rs:323-333 | without one, two admitted writers can overlap |
| `SettingsLockTheorems.TasksFollowScripts` | crates/conduit-admin-graphql/src/authz_extension.rs:299-334 | every resolution lives a prefix of an allowed life, complete when over: denied ones never touch the lock, nothing starts unadmitted, the permit is released after success and failure alike |
| `SettingsLockTheorems.SettingsWritersAreAuthorized` | crates/conduit-admin-graphql/src/authz_extension.rs:337-369 | a settings write that has started belongs to an owner or to a principal with the required system-wide scope |
| `SettingsLockTheorems.FailsClosed` | crates/conduit-admin-graphql/src/authz_extension.rs:306-369 | in every reachable state, a query or mutation field that is unmapped, or non-public without a principal, has got no further than refusal |
| `SettingsLockTheorems.StartedAndRefused` | crates/conduit-admin-graphql/src/authz_extension.rs:306-369 | in every reachable state a started field was allowed and a refused one was not: nested and introspection fields always are, a root field by its table row, scopes within the request's project or system-wide |
| `SettingsLockTheorems.StartsIff` | crates/conduit-admin-graphql/src/authz_extension.rs:306-369 | a request is started in some run exactly if it is allowed in that sense |
| `SettingsLockTheorems.HistoryIsSerial` | crates/conduit-admin-graphql/src/authz_extension.rs:323-331 | over whole runs, critical sections never overlap, permits return from their owner, and lock-needing fields start and finish inside their own section |
| `SettingsLockTheorems.QuiescentReleased` | crates/conduit-admin-graphql/src/authz_extension.rs:323-331 | when all resolutions are over no permit is outstanding |
| `SettingsLockTheorems.SomeStepPossible` | crates/conduit-admin-graphql/src/authz_extension.rs:299-334 | no deadlock |
| `SettingsLockTheorems.RunsFromStartAreBounded` | crates/conduit-admin-graphql/src/authz_extension.rs:299-334 | every run takes at most four steps per resolution |
| `ApiKeys.Store.CreateKey` | crates/conduit-admin-graphql/src/apikey.rs:1103-1152 | refuses the reserved type, then a (project, name) pair already stored, and nothing else; otherwise keeps all rows and appends one with the next number, the caller as owner, status enabled, default scopes for user keys and the given ones for service accounts, and no profiles |
| `ApiKeys.Store.UpdateKey` | crates/conduit-admin-graphql/src/apikey.rs:1154-1221 | succeeds exactly for a service account, or a user key whose scopes are left alone, whose new name no key with another id has; changes only that row's name and, for service accounts, scopes: set, then append, clearing wins |
| `ApiKeys.Store.UpdateKeyStatus` | crates/conduit-admin-graphql/src/apikey.rs:1223-1242 | succeeds exactly for known keys that are not `noauth`, whatever the old status, and changes only that row's status |
| `ApiKeys.Store.RotateKey` | crates/conduit-admin-graphql/src/apikey.rs:1244-1263 | succeeds exactly for known keys that are not `noauth`, and changes only that row's key value |
| `ApiKeys.Store.UpdateKeyProfiles` | crates/conduit-admin-graphql/src/apikey.rs:1265-1358 | succeeds exactly for a known key that is not `noauth`, with valid profile names and an active profile that is empty or listed; then exactly the submitted list and active profile are stored in that row and nothing else changes |
| `ApiKeys.Store.BulkUpdateStatus` | crates/conduit-admin-graphql/src/apikey.rs:1393-1435 | the counting and assigning loops; an empty list succeeds and changes nothing, a refusal changes nothing, and success changes exactly the status of the listed rows, none of them `noauth` |
| `ApiKeyTheorems.ErrorsChangeNothing` | crates/conduit-admin-graphql/src/apikey.rs:1103-1435 | a refused operation leaves the store unchanged |
| `ApiKeys.NamesErrorNone` | crates/conduit-admin-graphql/src/apikey.rs:1285-1296 | the scan with a growing set accepts exactly the lists of non-empty, case-insensitively distinct names |
| `ApiKeys.NamesErrorKind` | crates/conduit-admin-graphql/src/apikey.rs:1285-1296 | a complaint is about the first name that is empty or repeats an earlier one, and says which of the two |
| `ApiKeyTheorems.RunKeepsOk` | crates/conduit-admin-graphql/src/apikey.rs:1103-1435 | over every run ids and (project, name) pairs stay distinct, user keys keep the default scopes, stored profiles stay valid |
| `ApiKeyTheorems.RunsFromEmptyAreOk` | crates/conduit-admin-graphql/src/apikey.rs:1103-1435 | in particular every store built by these operations is in order |
| `ApiKeyTheorems.ActiveNamesOne` | crates/conduit-admin-graphql/src/apikey.rs:1300-1306 | a non-empty active profile names exactly one profile |
| `ApiKeyTheorems.CreateKeepsIdsIff` | crates/conduit-admin-graphql/src/apikey.rs:1125-1150 | one creation keeps ids distinct exactly when the next number is unused |
| `ApiKeyTheorems.IdsStayDistinctIff` | crates/conduit-admin-graphql/src/apikey.rs:1125-1150 | all runs keep ids distinct if and only if no stored id is a number beyond the size of the store |
| `ApiKeyTheorems.RunEvolves` | crates/conduit-admin-graphql/src/apikey.rs:1103-1435 | over every run rows keep place, id, owner, project and type, `noauth` rows never change and none is added |
| `ApiKeyTheorems.EditsAreLocal` | crates/conduit-admin-graphql/src/apikey.rs:800-860 | a successful single-key operation changes one row, and in it only what the operation is for |
| `ApiKeyTheorems.RenameProbesEveryProject` | crates/conduit-admin-graphql/src/apikey.rs:1190-1199 | a permitted rename is refused exactly when a key of any project has the name, so it follows the per-project rule of creation if and only if the name is taken in the key's own project or in none |
| `ApiKeyTheorems.CountTestIff` | crates/conduit-admin-graphql/src/apikey.rs:1403-1417 | with distinct stored ids the count test accepts exactly duplicate-free lists of known ids |
| `ApiKeyTheorems.CountTestExactIff` | crates/conduit-admin-graphql/src/apikey.rs:1403-1417 | the count test is exact for all lists if and only if stored ids are distinct |
| `ApiKeyTheorems.CountTestNeedsDistinctIds` | crates/conduit-admin-graphql/src/apikey.rs:1403-1417 | in any store an id held by two rows lets any unknown id beside it through |
| `ApiKeyTheorems.BulkAllOrNothing` | crates/conduit-admin-graphql/src/apikey.rs:1393-1435 | exactly when a bulk update succeeds; then exactly the listed rows get the status, otherwise nothing changes |
| `CreditAmount.AcceptsIff` | crates/conduit-admin-graphql/src/billing.rs:491-522 | accepted exactly when the input without surrounding white space spells, with at most six fractional digits, between 1 and 9223372036854775807 micros, at any length |
| `CreditAmount.SpellsUnique` | crates/conduit-admin-graphql/src/billing.rs:491-522 | a string denotes at most one number of micros |
| `CreditAmount.FormatAccepted` | crates/conduit-admin-graphql/src/billing.rs:491-522 | every ledger amount has an accepted notation that denotes it |
| `CreditAmount.NormalizeCodeIff` | crates/conduit-admin-graphql/src/billing.rs:526-536 | exactly which codes are accepted, and that the normal form is the input without surrounding white space in capitals |
| `CreditAmount.NormalizeCodeIdempotent` | crates/conduit-admin-graphql/src/billing.rs:526-536 | a normalised redemption code is its own normal form |
| `StorageMerge.ThenActs` | crates/conduit-admin-graphql/src/data_storage.rs:842-937 | two settings updates equal one by their composition |
| `StorageMerge.ThenMonoid` | crates/conduit-admin-graphql/src/data_storage.rs:842-937 | composition is associative with the empty input as identity |
| `StorageMerge.UpdatesCompose` | crates/conduit-admin-graphql/src/data_storage.rs:842-937 | any sequence of updates equals one update by the composed input |
| `StorageMerge.GcsBucketIsFixed` | crates/conduit-admin-graphql/src/data_storage.rs:897-904 | no sequence of updates changes a stored GCS bucket, and exactly when that agrees with the comment |
| `StorageFields.MergeAllFollows` | crates/conduit-admin-graphql/src/data_storage.rs:842-937 | after any sequence of updates every field is the last value given for it, else the stored one, else that of a blank section; empty buckets and urls give nothing, and the first GCS bucket stays |
| `StorageFields.MergeAllIff` | crates/conduit-admin-graphql/src/data_storage.rs:842-937 | that account determines the resulting settings completely |
| `StorageRecords.Store.UpdateDataStorage` | crates/conduit-admin-graphql/src/data_storage.rs:788-832 | refused exactly for an unknown id or a new name that another record has, then changing nothing; otherwise only that record changes, keeping id, primary flag and type, each other field being the one given or what it was |
| `StorageRecords.RunFollows` | crates/conduit-admin-graphql/src/data_storage.rs:788-832 | over any run of updates to any records, every field of a record ends as the last value accepted for it, or as it was |
| `StorageRecords.RunComposesSettings` | crates/conduit-admin-graphql/src/data_storage.rs:788-832 | over any run of updates to any records, a record's settings end as its original ones updated once by the composed accepted inputs |
| `StorageRecords.RunKeepsNames` | crates/conduit-admin-graphql/src/data_storage.rs:788-832 | record names stay distinct over every run of updates |
| `SettingsNormalization.SettingsInput.NormalizeRules` | crates/conduit-admin-graphql/src/channel.rs:1366-1399 | rules up to and including the first refused one are rewritten, the rest untouched; if none is refused, each stored rule is the submitted one, trimmed, with its type trimmed and folded, or `chat` |
| `SettingsNormalization.SettingsInput.NormalizeRewrites` | crates/conduit-admin-graphql/src/channel.rs:1400-1442 | the same for rewrite rules, which keep every field but the trimmed body pattern |
| `SettingsNormalization.SettingsInput.ValidateAndNormalize` | crates/conduit-admin-graphql/src/channel.rs:1343-1444 | accepts exactly if there is an acceptable form to store, stores that form in place, and otherwise names the first part that has none |
| `SettingsNormalization.AcceptedIff` | crates/conduit-admin-graphql/src/channel.rs:1343-1444 | accepted settings are stored as submitted up to white space and case: the same rules in the same order, the same multiplier, the currency code in capitals; and settings that can be so stored are accepted |
| `SettingsNormalization.PassComplains` | crates/conduit-admin-graphql/src/channel.rs:1343-1444 | a refusal names the billing metadata, else the first unacceptable mapping rule, else the first unacceptable rewrite rule, counted from one |
| `SettingsNormalization.BillingStoredIff` | crates/conduit-core/src/objects/channel_settings.rs:272-295 | currency and multiplier are accepted exactly together, as a code of three letters and a positive number |
| `SettingsNormalization.AcceptedIsNormal` | crates/conduit-admin-graphql/src/channel.rs:1343-1444 | accepted rules have trimmed non-empty patterns, allowed types, statuses within 400..599 and a rewrite field |
| `SettingsNormalization.PassIdempotent` | crates/conduit-admin-graphql/src/channel.rs:1343-1444 | a second pass over accepted settings accepts and changes nothing |
| `SettingsNormalization.NormalCurrencyFixed` | crates/conduit-core/src/objects/channel_settings.rs:272-295 | a canonical currency code is its own canonical form |
| `ErrorClassifier.FirstClass` | crates/conduit-admin-graphql/src/channel.rs:1064-1160 | the class is the first of the cascade with a matching needle |
| `ErrorClassifier.CategoryIff` | crates/conduit-admin-graphql/src/channel.rs:1064-1160 | exactly which messages are of each category: the phrases it looks for, and none that an earlier one looks for, where "gateway timeout" needs no mention |
| `ErrorClassifier.IssueIs` | crates/conduit-admin-graphql/src/channel.rs:1067-1169 | severity, code and source of each category |
| `ErrorClassifier.CaseInsensitive` | crates/conduit-admin-graphql/src/channel.rs:1064-1169 | only the ASCII case-folded message matters |
| `ErrorClassifier.Monotone` | crates/conduit-admin-graphql/src/channel.rs:1064-1169 | text before or after a message never moves it to a later class |
| `ErrorClassifier.GatewayTimeoutIsDead` | crates/conduit-admin-graphql/src/channel.rs:1113-1156 | a message containing "gateway timeout" is never classed upstream |
| `ErrorClassifier.MessageShownIff` | crates/conduit-admin-graphql/src/channel.rs:1037-1062 | next to an account issue the message is shown exactly if it is of the first two classes |
| `ErrorClassifier.OperationalIs` | crates/conduit-admin-graphql/src/channel.rs:1010-1048 | what is shown for any message and account state |
| `ErrorClassifier.ShownStaysShown` | crates/conduit-admin-graphql/src/channel.rs:1006-1062 | more text never hides an error that was shown |
| `Text.TrimIff` | crates/conduit-admin-graphql/src/channel.rs:1373-1374 | trimming removes the white space at both ends and nothing else |
| `Text.LowerIff` | crates/conduit-admin-graphql/src/channel.rs:754-766 | ASCII folding moves each capital to its small letter and keeps every other character |
| `Text.LessIff` | crates/conduit-admin-graphql/src/channel.rs:684-687 | the key order: at the first difference the smaller character or the end of the string comes first |
| `BatchLoading.DeduplicateKeys` | crates/conduit-admin-graphql/src/dataloader.rs:35-49 | the loop with a seen set yields the first occurrences |
| `BatchLoading.FirstsAreFirst` | crates/conduit-admin-graphql/src/dataloader.rs:35-49 | the same keys, each once |
| `BatchLoading.FirstsInOrder` | crates/conduit-admin-graphql/src/dataloader.rs:35-49 | in the order of their first occurrence |
| `BatchLoading.BatchWithMissing` | crates/conduit-admin-graphql/src/dataloader.rs:103-132 | one fetch on the deduplicated keys, answers aligned with the loads, misses listed |
| `BatchLoading.BatchRefinesSingle` | crates/conduit-admin-graphql/src/dataloader.rs:25-33 | for any pointwise fetch, batching gives what loading one by one gives, and the misses are the keys without an answer |
| `BatchLoading.FirstsOfFilter` | crates/conduit-admin-graphql/src/input.rs:75-95 | deduplicating and filtering commute |
| `BatchLoading.RejectUnknownFields` | crates/conduit-admin-graphql/src/input.rs:75-95 | the unknown keys, once each, in order of first appearance; none exactly when all keys are known |

## Left out

- GraphQL types, connections, pagination, resolvers that only forward to injected services, and the frontend.
- Billing, subscription and change-set services: the admin crate declares them as interfaces only.
- The rows of the field table and the role-based scope decisions: the lock protocol is proved for every table and policy, and the few rows it relies on are a hypothesis of one lemma.
- Cancellation of a resolution while it holds the permit, mutex poisoning, and clocks (timestamps, expiry).
- Which paths a snapshot skips by name, and the commit id stored beside it: the skip rule is a parameter.
- Snapshots and checks are single steps of the freshness protocol; refreshes do not overlap; the record is written only by a refresh.
- Hash collisions, and the decimal library's limits: amounts are exact.
- Timestamps used as channel versions are modelled as a counter: two edits never share one.
- The switch that disables alias automation, and database errors.
- Error texts and the human-readable reasons of preview rows; errors are told apart by kind only.
- API-key profile fields other than the name are carried as one opaque value, and the connection query of the store is not modelled.
- Creating data-storage records, and the timestamps of updates.
