# Verified model of account queries, creation and updates, and of the audit exception gate

This project models four parts of the repository in Dafny and proves what they promise.

* **Eager loading** (`EdgeLoaders`, `EdgeTheorems`, `Projection`, `QuerySpec`, `AccountQuery`, `QueryTheorems`, `OtherLoaders`, `JoinQuery`,
  `LoadedRows`, `LoadedJoins`).
  The query builders replace one lookup per node by one batched query per edge and hand the rows out again
  through in-memory indexes. Nodes are heap objects whose edge fields the loaders update. Three generic methods carry
  the algorithms (many-to-many, many-to-one, one-to-many); every loader of the modelled builders calls one of them. A
  query is a function from the ids it is sent to a finite sequence of rows or an error. `LoadedRows` and `LoadedJoins`
  say what loaded entities hold cell by cell, in terms of the returned rows alone.
* **Creation** (`AccountSchema`, `AccountCreate`, `BulkCreate`, `BulkBuilder`, `BulkSafety`, `BulkCounting`, `BulkTheorems`,
  `BulkOutcome`, `BulkTrace`, `SingleCreate`, `CreatedAccounts`, `InsertedEdges`, `SchemaFacts`). Defaults, checks and the insert specification of one account, reading the row
  back, and the bulk create: a recursive chain of hook-wrapped mutators that fills slots and fires one batch insert at
  its innermost point. A hook is arbitrary code around `next`: knowing the mutation and the replies of `next` so far, it
  changes the mutation, calls `next` again or returns any value and error. Claims that need better behaved hooks say
  which. `BulkCreation.Run` is the chain as a function on states; `AccountCreateBulk` is the builder, proved to compute it.
* **Updates** (`UpdateMutation`, `FieldOrder`, `AccountUpdate`). The changes a mutation collects, and the field and edge plan both
  update builders send to the database.
* **The audit gate** (`PythonText`, `ExceptionParser`, `ExceptionFormat`, `AuditGate`, `GateTheorems`, `ReportTheorems`, `ReportedProblems`). The line parser
  of the exception list, the findings of a report, an exact specification of exit code 0,
  what each finding is judged by, and exactly which problems are reported.

## Where the code does not do what one might expect

* Two loaded nodes with the same id: an id-keyed index keeps the last one, so the others get empty to-many edges
  (`EdgeTheorems.EdgesAreJoinsIffDistinct` and `EdgeTheorems.ChildrenArriveIffDistinct`; the ids of one query are distinct
  unless the caller's query repeats rows).
* A bulk create whose hooks call `next` once is all-or-nothing exactly if the hooks of every builder that is reached
  together report the success or failure of its base step as it was (`BulkOutcome.AllOrNothingExactlyIf`). A hook that
  hides a failed check lets `Save` succeed with nothing inserted and half of the mutations done
  (`BulkOutcome.SwallowedCheckIsHalfDone`); a hook that calls `next` twice inserts the batch twice
  (`BulkCounting.TwoCallsInsertTwice`).
* Bulk creation ignores the error of `defaults`. That is harmless, because `check` then fails, except when a hook sets the
  missing field: then a single create refuses what a bulk create accepts. A single create also refuses, after the row is
  stored, what a hook returns without the account, which a bulk create never looks at
  (`SingleCreation.SingleAndBulkAgree`, `SingleCreation.DroppedValueFailsSingleOnly`).
* The audit verdict depends on the order of the findings when one key is reported with several severities
  (`GateTheorems.OrderCanDecide`, and exactly when in `GateTheorems.FindingOrderMattersExactlyIf`).
* An id added to a to-many edge before the edge is cleared, and not mentioned afterwards, is added all the same
  (`UpdateMutation.AddThenClearAdds`, exactly when in `UpdateMutation.UpdateMatchesCallsExactlyIf`); `ClearProxy` after
  `SetProxyID` has no effect (`UpdateMutation.SetThenClearProxySets`, exactly when in `UpdateMutation.ProxyMatchesCallsExactlyIf`).
* A column can be in two lists of one update: cleared and written, or written or cleared and summed. Then what is stored
  depends on the order in which the database applies the lists (`FieldOrder.SetThenAddNeedsTheOrder`, exactly when in
  `FieldOrder.FieldMatchesCallsInAnyOrder`).
* A numeric `source` used as a title makes the audit tool raise `TypeError` instead of reporting (`AuditGate.NumericSourceRaises`).

## Model

| member | source | states |
|---|---|---|
| `EdgeLoaders.LoadManyToMany` | backend/ent/account_query.go:542-602 | For any rows of requested owners and any interceptor: the load fails exactly on a failed query or on a neighbour with no row, naming it; otherwise each node holds the neighbours some row links to it, whatever order the node sets are ranged over |
| `EdgeLoaders.GroupRows` | backend/ent/account_query.go:573-587 | The row callback materialises one object per neighbour id, from its first row, and collects for each id exactly the nodes that own a row of it |
| `EdgeLoaders.AssignToAll` | backend/ent/account_query.go:592-600 | Ranging over a node set in any order appends the neighbour once to exactly its members |
| `EdgeLoaders.LoadManyToOne` | backend/ent/account_query.go:603-634 | One query for the distinct non-nil foreign keys; fails exactly if a row has an id never asked for; otherwise each node gets the row with its key and all others keep their edge; no keys, no query |
| `EdgeLoaders.LoadOneToMany` | backend/ent/account_query.go:635-694 | Fails exactly if some child's key is nil or not a loaded id, naming the first; otherwise each node holds its children in returned order |
| `EdgeTheorems.ManyToManyIsTheJoin` | backend/ent/account_query.go:571-600 | With pass-through interceptors the error branch is unreachable and each owner gets exactly the neighbours paired with it, each once, by first appearance in the stream |
| `EdgeTheorems.FirstRowOrderIsUnique` | backend/ent/account_query.go:576-600 | Those two properties determine the list |
| `EdgeTheorems.ManyToManyConserves` | backend/ent/account_query.go:576-600 | The lengths of all edge lists add up to the number of distinct (account, group) pairs, and as many group objects are made as there are distinct group ids, however often rows repeat |
| `EdgeTheorems.OneToManyPartitions` | backend/ent/account_query.go:655-663 | Every returned child lands on exactly one node, as often as it was returned: the edges together are the returned multiset |
| `EdgeTheorems.OneToManyMatchesPerNodeQuery` | backend/ent/account_query.go:645-663 | The batched query never errs over a table and gives each node what a query for it alone would have returned, in the same order |
| `EdgeTheorems.RequestedIsDistinctInOrder` | backend/ent/account_query.go:604-615 | The id list holds each non-nil foreign key exactly once, in order of first occurrence |
| `EdgeTheorems.ManyToOneMatchesPerNodeLookup` | backend/ent/account_query.go:616-634 | The batched query never errs over a table and gives each node the row its own lookup finds |
| `EdgeTheorems.LookupIsExact` | backend/ent/account_query.go:624-634 | With at most one row per id, a node gets the row with its key, or nothing if there is none |
| `EdgeTheorems.DistinctIdsGetTheirJoin` | backend/ent/account_query.go:542-602 | With distinct ids each node's edge is its join |
| `EdgeTheorems.EdgesAreJoinsIffDistinct` | backend/ent/account_query.go:542-602 | Every node gets its join, for every stream of rows, if and only if the ids are distinct |
| `EdgeTheorems.ChildrenArriveIffDistinct` | backend/ent/account_query.go:635-664 | The same for the one-to-many edges: every node gets all its children, whatever is returned, if and only if the ids are distinct |
| `QuerySpec.AccountQuerySpec` | backend/ent/account_query.go:708-727 | The selected columns: all, or the id first, the chosen fields, and the proxy foreign key if that edge is requested |
| `QuerySpec.ProjectionHasIdOnce` | backend/ent/account_query.go:716-727 | A projection starts with the id, has it once, and holds exactly the id, the chosen fields and the required foreign key |
| `QuerySpec.AccountGroupQuerySpec` | backend/ent/accountgroup_query.go:448-467 | Without an id column: the chosen fields unchanged in front, then only the missing foreign keys of requested edges, each once |
| `QuerySpec.RequiredColumnIsSelected` | backend/ent/account_query.go:645-647 | After the loader appends its foreign key, every projection of the children selects it |
| `Projection.ManyToManyMap` | backend/ent/account_query.go:542-602 | Reading neighbours through any projection that keeps their id commutes with the many-to-many load |
| `Projection.OneToManyMap` | backend/ent/account_query.go:635-694 | The same for one-to-many and the foreign key |
| `AccountQuery.SqlAll` | backend/ent/account_query.go:480-540 | Fails exactly if reading a row or a requested load fails, with the error of the first row, or of the first loader in the order of the source; otherwise every node is the read of its row, remembers which edges were requested, every requested edge equals its specification and every other edge is empty |
| `AccountQuery.LoadEdges` | backend/ent/account_query.go:509-538 | The loaders run one after the other without disturbing each other's edges, and the error is that of the first to fail |
| `AccountQuery.OneLoadError` | backend/ent/account_query.go:509-538 | The contract leaves only one error possible |
| `AccountQuery.LoadGroups` | backend/ent/account_query.go:542-602 | Groups of the accounts as read: fails exactly as the query does, with its error, and otherwise gives each node its many-to-many edge |
| `AccountQuery.LoadProxy` | backend/ent/account_query.go:603-634 | Proxy of the accounts as read, by foreign key, or the error of the query or of the first row not asked for |
| `AccountQuery.LoadUsageLogs` | backend/ent/account_query.go:635-664 | Usage logs of the accounts as read, by the appended foreign key, or the error of the query or of the first stray child |
| `AccountQuery.LoadAccountGroups` | backend/ent/account_query.go:665-694 | Join entities of the accounts as read, by the appended foreign key, or the error of the query or of the first stray child |
| `QueryTheorems.GroupsIgnoreProjection` | backend/ent/account_query.go:542-602 | Whatever fields are chosen for accounts and groups, the load fails exactly as on full rows and with the same error, and otherwise each account's groups are those computed on full rows, read through the projection |
| `QueryTheorems.ProxyIgnoresProjection` | backend/ent/account_query.go:603-634 | The same for the proxy, failures included, thanks to the added foreign key column |
| `QueryTheorems.UsageLogsIgnoreProjection` | backend/ent/account_query.go:645-663 | The same for the usage logs, failures included, thanks to the appended column |
| `QueryTheorems.AccountGroupsIgnoreProjection` | backend/ent/account_query.go:675-693 | The same for the join entities, failures included |
| `QueryTheorems.HonestAnswersLoad` | backend/ent/account_query.go:480-540 | If answers satisfy the predicates the loaders add, a query fails exactly if one of the queries it sends fails: every "unexpected" error is unreachable |
| `QueryTheorems.ProxyTrichotomy` | backend/ent/account.go:110-119 | After a query: NotLoaded iff not requested, NotFound iff requested and no returned row has the key, and otherwise exactly the returned row |
| `QueryTheorems.ListAccessors` | backend/ent/account.go:101-135 | The list accessors: NotLoaded iff not requested, otherwise the whole specified edge |
| `LoadedRows.AccountsShowTheirRows` | backend/ent/account_query.go:493-506 | After `sqlAll` every account field has the meaning of its row's cell if it is selected (all, or the id, the chosen fields, and the key of a requested proxy), and its zero otherwise |
| `LoadedRows.GroupsShowTheirRows` | backend/ent/account_query.go:573-600 | Every loaded group has exactly the selected columns of its query, each with the cell of the first returned row of that group, whatever its kind |
| `LoadedRows.ProxyShowsItsRow` | backend/ent/account_query.go:616-634 | The same for the proxy and the returned row with its key |
| `LoadedRows.UsageLogsShowTheirRows` | backend/ent/account_query.go:645-663 | The same for the usage logs, the appended account key among the columns: they are the returned rows whose key cell holds the account's id |
| `LoadedRows.AccountGroupsShowTheirRows` | backend/ent/account_query.go:675-693 | The same for the join entities |
| `LoadedRows.KeysAreCells` | backend/ent/account_query.go:555-586 | The ids and the proxy keys the loaders go by are the integers in those columns of the full rows |
| `OtherLoaders.LoadAdoptionDecisions` | backend/ent/authidentity_query.go:559-591 | One-to-many over an optional foreign key: fails exactly on the first decision with a nil or unknown key, otherwise partitions the decisions |
| `OtherLoaders.LoadChannels` | backend/ent/authidentity_query.go:529-558 | One-to-many over a plain foreign key |
| `OtherLoaders.LoadRequired` | backend/ent/accountgroup_query.go:379-436 | Many-to-one where the key is never nil (also `loadUser`, backend/ent/authidentity_query.go:500-528) |
| `JoinQuery.SqlAll` | backend/ent/accountgroup_query.go:334-378 | The join entity: reads every row through the projection, loads the account and then the group edge, and returns the first error |
| `JoinQuery.EdgeIgnoresProjection` | backend/ent/accountgroup_query.go:379-467 | Whatever fields are chosen, a requested edge fails exactly as on full rows, and holds the same neighbour read through its own projection |
| `JoinQuery.ForeignKeysAreSelected` | backend/ent/accountgroup_query.go:456-467 | The foreign key of a requested edge is always among the columns |
| `LoadedJoins.JoinsShowTheirRows` | backend/ent/accountgroup_query.go:345-364 | Every join record has exactly the selected columns, the keys of the requested edges among them, each with the cell of its row |
| `LoadedJoins.JoinEdgesShowTheirRows` | backend/ent/accountgroup_query.go:379-436 | Its account and group are the returned rows whose id is in the row's key column, with every selected cell; an edge that was not requested is empty |
| `LoadedJoins.DecisionsShowTheirRows` | backend/ent/authidentity_query.go:559-591 | An identity's decisions are exactly the returned rows whose key cell is its id, with every selected cell, and loading succeeds exactly if every returned key is a loaded id |
| `LoadedJoins.ChannelsShowTheirRows` | backend/ent/authidentity_query.go:529-558 | The same for the channels, where NULL counts as zero |
| `AccountSchema.Account.AssignValues` | backend/ent/account.go:163-367 | The assignment loop: too few values fail at once and change nothing, otherwise the columns are assigned in order; on an error the entity holds exactly the columns before the one that failed |
| `AccountSchema.SwitchesAgree` | backend/ent/account.go:138-367 | What `scanValues` allocates for a column is what `assignValues` expects, for known and unknown columns |
| `AccountSchema.NoTypeMismatch` | backend/ent/account.go:138-367 | Whatever is stored and selected, reading never fails on a destination's type or on the number of values |
| `AccountSchema.ReadIsProjection` | backend/ent/account.go:138-367 | Reading any column list in any order gives each selected field its stored meaning and leaves every other field zero |
| `SchemaFacts.ReadFailsExactlyIf` | backend/ent/account.go:138-367 | Reading fails exactly if the cell of a selected column is not of the column's type, or holds JSON that cannot be read |
| `SchemaFacts.MeaningIsTheCell` | backend/ent/account.go:166-361 | A field read holds the value of its cell; NULL and an empty JSON text leave its zero |
| `SchemaFacts.ZeroIsGoZero` | backend/ent/account.go:18-81 | A field never read is nil if it is a pointer and the zero of its Go type otherwise |
| `SchemaFacts.OtherColumnsAreSelected` | backend/ent/account.go:362-364 | Exactly the selected columns that are no account fields are kept as dynamically selected values |
| `AccountCreation.AccountCreate.Defaults` | backend/ent/account_create.go:451-506 | The defaults filled, and the first column that is neither set nor initialised |
| `AccountCreation.AccountCreate.BuildSpec` | backend/ent/account_create.go:594-762 | The insert specification and the entity agree with the mutation, field by field and edge by edge, with the join-table defaults on the groups edge and the builder's conflict options |
| `AccountCreation.CheckIsExact` | backend/ent/account_create.go:508-574 | `check` accepts exactly if every required column is set and every validator accepts |
| `AccountCreation.FailedDefaultsFailCheck` | backend/ent/account_create.go:451-574 | If `defaults` fails, `check` on what it leaves fails too |
| `AccountCreation.DefaultsKeepWhatWasSet` | backend/ent/account_create.go:451-506 | Defaults never overwrite, and set nothing but columns with a default |
| `AccountCreation.DefaultsAreIdempotent` | backend/ent/account_create.go:451-506 | Running them again changes nothing |
| `AccountCreation.DefaultsLeaveThreeColumns` | backend/ent/account_create.go:451-574 | After defaults only a missing name, platform or type, or a validator, can fail the check |
| `SchemaFacts.UninitializedIsFirst` | backend/ent/account_create.go:451-506 | `defaults` stops at the first column, in their order, whose default function is needed and not initialised |
| `SchemaFacts.CheckReportsTheFirst` | backend/ent/account_create.go:508-574 | `check` reports the first column, in the order of the table, that is missing or rejected |
| `SchemaFacts.SpecFieldsInOrder` | backend/ent/account_create.go:598-706 | The specification lists every set field once, in the order of the columns, with its own type and value |
| `InsertedEdges.CreationJoinsItsNeighbours` | backend/ent/account_create.go:708-762 | Inserting the specification's edges gives an account without neighbours exactly the groups, the proxy and the usage logs of its mutation; every join row holds the default priority and creation time and nothing else |
| `AccountCreation.CreateReadRoundTrip` | backend/ent/account_create.go:594-762 | For a checked mutation and any codec that inverts the documents it sets: stored by its specification and read back through any columns in any order, it never fails to read and gives the entity `createSpec` returned, restricted to those columns |
| `AccountCreation.SomeCodecInverts` | backend/ent/account.go:218-234 | Whatever documents a mutation sets, there is such a codec |
| `CreatedAccounts.DoneNodesHaveTheirId` | backend/ent/account_create.go:1881-1893 | After a bulk create whose hooks call `next` once, every done mutation has a node: its id is the one the database gave to its slot, and every other field is that of the entity made from the mutation inserted |
| `CreatedAccounts.BulkCreatedIsReadBack` | backend/ent/account_create.go:1849-1906 | Reading back what the inserted specification stores, through any columns, gives the node the bulk returned |
| `CreatedAccounts.NodeHasItsOwnId` | backend/ent/account_create.go:1864-1893 | Whatever the hooks do, a base step that succeeds returns its slot's node, made from its mutation as it then was, with the id of the last insert accepted during the step, and none from an earlier one |
| `CreatedAccounts.SavedEntityHasItsId` | backend/ent/account_create.go:576-592 | The same id and fields for the account a single create returns, when its hooks hand the reply on |
| `CreatedAccounts.SavedEntityIsReadBack` | backend/ent/account_create.go:421-762 | Reading back what it stored gives the account it returned |
| `BulkBuilder.AccountCreateBulk.Save` | backend/ent/account_create.go:1849-1906 | The builder runs every `defaults`, ignores their errors, and computes exactly the run of the chain, slots, flags, trace and result included |
| `BulkBuilder.AccountCreateBulk.MutateFrom` | backend/ent/account_create.go:1856-1900 | A wrapped mutator does what the chain's state function says, terminating on the builders and hooks left |
| `BulkBuilder.AccountCreateBulk.HookStep` | backend/ent/account_create.go:1895-1899 | Running a hook, however often it calls `next`, ends as the chain's state function says |
| `BulkSafety.EveryInsertIsComplete` | backend/ent/account_create.go:1859-1883 | For any hooks at all: every insert carries the full batch, each spec and node slot made from that builder's mutation as it stands, which has passed its check; and there are at most as many inserts as the product of the calls the hooks may make |
| `BulkSafety.AtMostOneInsert` | backend/ent/account_create.go:1871-1883 | If no hook calls `next` twice, the batch is inserted at most once |
| `BulkCounting.InsertsCounted` | backend/ent/account_create.go:1859-1883 | For hooks that treat every call alike: exactly the product of their calls if every mutation passes its check, else none |
| `BulkCounting.TwoCallsInsertTwice` | backend/ent/account_create.go:1895-1899 | A hook that calls `next` twice inserts the batch twice |
| `BulkTheorems.RunReports` | backend/ent/account_create.go:1849-1906 | For hooks that call `next` once, whatever they return: the exact error of the run, exactly which mutations end up done and with which nodes, and whether the batch was inserted |
| `BulkOutcome.AllOrNothingExactlyIf` | backend/ent/account_create.go:1849-1906 | For hooks that call `next` once, whether or not the checks pass: all mutations done, every node returned and the batch committed, or an error, nothing done and nothing committed, if and only if the hooks of every builder reached report the outcome of its base step as it was |
| `BulkOutcome.TransparentIsAllOrNothing` | backend/ent/account_create.go:1849-1906 | With hooks that call `next` once and report every outcome unchanged, every run is all-or-nothing |
| `BulkOutcome.AllOrNothingByHooks` | backend/ent/account_create.go:1849-1906 | The same as a condition on the hooks alone, for hooks that call `next` once and look at success or failure only, whether or not the checks pass |
| `BulkOutcome.AllOrNothingForEveryAnswer` | backend/ent/account_create.go:1849-1906 | For such hooks: all-or-nothing whatever the database answers if and only if the hooks of every builder reached keep a failure, and keep a success too if no check fails |
| `BulkOutcome.SwallowedCheckIsHalfDone` | backend/ent/account_create.go:1866-1893 | A run that succeeds with nothing inserted, the first mutation done and the second not |
| `BulkSafety.FailedDefaultsStopTheBulk` | backend/ent/account_create.go:1858-1867 | A builder whose defaults failed, and whose hooks never set the missing column, keeps the whole batch from ever being inserted, whatever else any hook does |
| `SingleCreation.SingleIsBulkOfOne` | backend/ent/ent.go:558-588 | For hooks that treat a nil account as nil, once the defaults succeed: a single create and a bulk of the one builder leave the same mutation, entity, flag and number of inserts and the same error, and agree on success if and only if the chain failed or the outermost hook returned an account |
| `SingleCreation.DroppedValueFailsSingleOnly` | backend/ent/ent.go:580-588 | A hook that forwards the error and drops the value: the row is inserted, the mutation done, the bulk succeeds, and the single create returns an error |
| `SingleCreation.NilAccountIsNotNil` | backend/ent/account_create.go:576-592 | A hook that tells the nil account a failed single create returns from the nil a failed bulk step returns makes the two differ |
| `SingleCreation.SingleAndBulkAgree` | backend/ent/account_create.go:421-426 | For hooks that call `next` once and report its outcome: single and bulk accept the same mutation exactly unless it is stored and either its defaults had failed or the hooks do not hand on an account |
| `BulkTrace.RunIsBracketed` | backend/ent/account_create.go:1856-1904 | Hooks and base steps are entered builder by builder, outermost first, the insert is innermost, and exits are the exact reverse of entries |
| `ExceptionParser.ParseExceptions` | tools/check_pnpm_audit_exceptions.py:23-48 | Raises exactly if some record start has no colon; otherwise returns the record structure of the file |
| `ExceptionParser.OneRecordPerStart` | tools/check_pnpm_audit_exceptions.py:36-48 | As many records as record-start lines |
| `ExceptionParser.LastEntryWins` | tools/check_pnpm_audit_exceptions.py:41-45 | A repeated key keeps its last value |
| `ExceptionFormat.WrittenListIsRead` | tools/check_pnpm_audit_exceptions.py:12-48 | Records written canonically, in any quoting, indentation and interleaving with blank, comment and header lines, are read back exactly |
| `ExceptionFormat.DistinctKeysAreKept` | tools/check_pnpm_audit_exceptions.py:41-45 | With distinct keys a parsed record maps exactly the written keys to the written values |
| `ExceptionParser.LinesAreClassified` | tools/check_pnpm_audit_exceptions.py:28-45 | Which lines start a record, which are entries, and which are ignored, by their first characters |
| `ExceptionParser.SplitsAtTheFirstColon` | tools/check_pnpm_audit_exceptions.py:12-20 | Key and value are the trimmed texts around the first colon, the value without its quotes |
| `ExceptionParser.UnquoteRemovesOnePair` | tools/check_pnpm_audit_exceptions.py:16-19 | One pair of equal quotes is removed; a lone quote becomes empty |
| `AuditGate.IterVulns` | tools/check_pnpm_audit_exceptions.py:64-111 | On any JSON value: raises exactly if it is no object, an entry is no object, a first `cves` does not exist, or a title to join is not text; otherwise yields one finding per advisory and per non-empty advisory id of a vulnerability, in order, with its title (`ReportTheorems` says which identifier and title each carries) |
| `AuditGate.IterVuln` | tools/check_pnpm_audit_exceptions.py:78-111 | The same for one vulnerability, whose titles are joined before its findings are yielded |
| `AuditGate.NumericSourceRaises` | tools/check_pnpm_audit_exceptions.py:95-108 | A report that raises: a vulnerability whose only title is a number |
| `ReportTheorems.AdvisoryIdIsTheBestGiven` | tools/check_pnpm_audit_exceptions.py:51-61 | The identifier is the first truthy one of GHSA id, url, first CVE, id as text, title, advisory and overview; picking it raises exactly if an odd `cves` is reached |
| `ReportTheorems.AdvisoryFindingIsTheBestGiven` | tools/check_pnpm_audit_exceptions.py:67-76 | The finding's name, identifier and title are the best given, and its severity is the entry's |
| `ReportTheorems.ItemIsTheBestGiven` | tools/check_pnpm_audit_exceptions.py:85-107 | The same for the identifier and the title of an item of `via` |
| `ReportTheorems.AdvisoriesComeFirst` | tools/check_pnpm_audit_exceptions.py:64-111 | The findings of the advisories come first, one for each in order, then those of the vulnerabilities |
| `ReportTheorems.TitlesItemByItem` | tools/check_pnpm_audit_exceptions.py:108 | The title joins those of the items with "; ", leaving out missing ones |
| `AuditGate.BuildIndex` | tools/check_pnpm_audit_exceptions.py:156-185 | No error exactly if all exceptions are complete, dated, non-blank and distinct in key, and then the index holds exactly them; in any case the index and the errors are those `ReportedProblems` describes |
| `AuditGate.CheckFindings` | tools/check_pnpm_audit_exceptions.py:187-219 | Raises exactly on a severity that is present and not text; otherwise nothing is recorded exactly if every relevant finding has an unexpired exception and the first of each key agrees in severity; in any case what is recorded is what `ReportedProblems` describes |
| `AuditGate.CheckAudit` | tools/check_pnpm_audit_exceptions.py:142-243 | On any lines and any JSON value: exit code 0 if and only if the list parses, the report can be walked, the exceptions are valid, every relevant finding has an unexpired exception, and the first of each key agrees in severity; and exactly when each kind of exception is raised; otherwise the reported problems are those of the two loops, and the exit code is 0 exactly if there are none |
| `ReportedProblems.ReportIsExact` | tools/check_pnpm_audit_exceptions.py:156-219 | Exactly which problems are reported: what is wrong with each exception; a missing identifier; and for the first finding of each key a missing exception, another severity, or an expired date; no missing or expired exception twice |
| `ReportedProblems.IndexHoldsTheFirst` | tools/check_pnpm_audit_exceptions.py:156-185 | Even of an invalid list the index holds, for each key, the severity and the date of its first well-formed exception, and nothing else |
| `ReportedProblems.ListErrorsAre` | tools/check_pnpm_audit_exceptions.py:156-185 | Every exception is either in the index or reported once, for the first thing wrong with it |
| `ReportTheorems.ValidExceptionsAre` | tools/check_pnpm_audit_exceptions.py:157-185 | A list is valid exactly if every exception has the five fields, a date and a subject that is not blank, and no two are for the same package and advisory |
| `ReportTheorems.OneAdvisoryIsJudged` | tools/check_pnpm_audit_exceptions.py:142-243 | A report with one advisory is accepted exactly if the list parses and is valid and, should the severity be high or critical, an unexpired exception for the best name and the best identifier states that severity or none |
| `ReportTheorems.OneAdvisoryVerdict` | tools/check_pnpm_audit_exceptions.py:51-219 | With a GHSA id that is the identifier, whatever else is given, such as a url |
| `ReportTheorems.OneAdvisoryRaises` | tools/check_pnpm_audit_exceptions.py:51-115 | Walking it raises exactly for an odd `cves` that is needed or a severity that is given but is no text |
| `ReportTheorems.OneVulnerabilityVerdict` | tools/check_pnpm_audit_exceptions.py:78-219 | The same judgement for a vulnerability with one item, by the item's best identifier |
| `ReportTheorems.OthersAreSkipped` | tools/check_pnpm_audit_exceptions.py:193-195 | A finding without a name, or of any severity but high and critical, changes no verdict wherever it stands among the others |
| `ReportTheorems.NoIdentifierFails` | tools/check_pnpm_audit_exceptions.py:196-202 | A named high or critical finding without an identifier is never accepted |
| `GateTheorems.ExceptionOrderIsIrrelevant` | tools/check_pnpm_audit_exceptions.py:156-185 | Permuting the exceptions never changes the verdict |
| `GateTheorems.DedupIsTransparent` | tools/check_pnpm_audit_exceptions.py:192-207 | If severity is a function of the key, skipping seen keys changes no verdict |
| `GateTheorems.UnfilteredIsTheLoopWithoutSeen` | tools/check_pnpm_audit_exceptions.py:192-219 | The verdict without skipping is the loop body run with nothing marked as seen |
| `GateTheorems.FindingOrderIsIrrelevantForOneSeverity` | tools/check_pnpm_audit_exceptions.py:190-219 | Then permuting the findings changes no verdict either |
| `GateTheorems.FindingOrderMattersExactlyIf` | tools/check_pnpm_audit_exceptions.py:190-219 | In general the verdict is the same for every order if and only if it is negative for another reason, all findings agree in severity, or those of some key all disagree |
| `GateTheorems.OrderCanDecide` | tools/check_pnpm_audit_exceptions.py:203-213 | A report and an exception list where the order decides |
| `UpdateMutation.ToManyEdge.Remove` | backend/ent/mutation.go:3726-3734 | Removing ids withdraws pending additions and records the removals |
| `UpdateMutation.AccountMutation.DoAll` | backend/ent/mutation.go:2579-2931 | After any list of calls on a new mutation, each field, each edge and the conditions hold exactly what their own calls collect, in order |
| `SchemaFacts.CallableByType` | backend/ent/account_update.go:34-592 | The calls considered are all the typed setters: any value of the field's type is set, numbers are added to numbers, optional fields are cleared |
| `UpdateMutation.UpdateIsCallsPlusRevived` | backend/ent/mutation.go:3705-3750 | For every sequence of add, remove and clear calls, the update does what the calls do one by one, plus the ids revived after a clear |
| `UpdateMutation.RevivedExactlyIf` | backend/ent/mutation.go:3705-3750 | An id is revived exactly if added before a clear, not removed since that call, and not added after the clear |
| `UpdateMutation.UpdateMatchesCallsExactlyIf` | backend/ent/mutation.go:3705-3750 | The update equals the calls one by one if and only if no id is revived |
| `UpdateMutation.ProxyMatchesCallsExactlyIf` | backend/ent/mutation.go:3759-3778 | For the proxy edge it fails exactly if the last call is `ClearProxy` and a proxy is still pending |
| `UpdateMutation.SetThenClearProxySets` | backend/ent/mutation.go:3759-3778 | `SetProxyID` and then `ClearProxy` leaves the proxy that was set |
| `UpdateMutation.FieldMatchesCalls` | backend/ent/mutation.go:2877-2931 | For every sequence of allowed calls on a field: if the database clears, then sets, then adds, the field ends up as the calls say one by one |
| `FieldOrder.FieldMatchesCallsInAnyOrder` | backend/ent/mutation.go:2877-2931 | With no assumption on that order: exactly after which calls the field ends up so in every order |
| `FieldOrder.OrderIsIrrelevantExactlyIf` | backend/ent/account_update.go:678-809 | Every order gives the same if and only if the column is in one list only, or is written and summed with a sum that changes nothing |
| `FieldOrder.SetAndAddedExactlyIf` | backend/ent/account_update.go:717-722 | A column is both written and summed exactly if it was set and all later calls, at least one, add |
| `FieldOrder.ClearedAndAddedExactlyIf` | backend/ent/account_update.go:717-722 | A column is both cleared and summed exactly if it was cleared and all later calls, at least one, add |
| `FieldOrder.SetThenAddNeedsTheOrder` | backend/ent/account_update.go:708-713 | `SetConcurrency(5)` and then `AddConcurrency(3)`: 8 in one order, 5 in another |
| `UpdateMutation.SetAndClearedExactlyIf` | backend/ent/account_update.go:681-686 | A column is both set and cleared in one specification exactly if it is not numeric, was cleared, and was set last |
| `AccountUpdating.AccountUpdate.EdgePart` | backend/ent/account_update.go:810-940 | The clear and add lists of the three edges, with the join-table defaults on the groups edge, whatever order the id sets are listed in |
| `AccountUpdating.AccountUpdateOne.EdgePart` | backend/ent/account_update.go:1767-1897 | The same from the other builder's own statements |
| `AccountUpdating.AccountUpdate.FieldPart` | backend/ent/account_update.go:678-809 | The set, add and clear lists over the updatable columns, in their order |
| `AccountUpdating.AccountUpdateOne.FieldPart` | backend/ent/account_update.go:1635-1766 | The same from the other builder's own statements |
| `AccountUpdating.PlanGivesWhatIsWanted` | backend/ent/account_update.go:810-940 | Applying the clear list and then the add list gives, for each edge, the old neighbours less the removed ones, or none if cleared, and the added ones |
| `AccountUpdating.PlanHoldsTheChanges` | backend/ent/account_update.go:678-809 | The three lists hold for each updatable column exactly what the mutation holds for it, and nothing for any other column |
| `AccountUpdating.PlanWritesWhatIsHeld` | backend/ent/account_update.go:678-809 | If the database applies clears, then values, then sums, each updatable column changes as the mutation says, and no other |
| `AccountUpdating.PlanMatchesTheCalls` | backend/ent/account_update.go:678-809 | In that order, a column ends up as if each call had taken effect at once |
| `AccountUpdating.PlanMatchesTheCallsInAnyOrder` | backend/ent/account_update.go:678-809 | Exactly after which calls on a column that holds in every order |
| `AccountUpdating.PlansForOneMutationAgree` | backend/ent/account_update.go:1635-1897 | Plans of the two builders for one mutation, each from its own statements and however its sets are ranged over, have the same fields and conditions, and the same edges in the same order with the same targets |
| `AccountUpdating.CallsReachTheDatabase` | backend/ent/account_update.go:666-945 | From any list of calls to the database, which applies clears, then values, then sums: every field as if its calls had taken effect one by one, every to-many edge too but for the revived ids, the proxy as collected, and the conditions as given |
| `AccountUpdating.CreateCheckIsUpdateCheckAndRequired` | backend/ent/account_update.go:637-664 | Creation checks exactly what updates check, and the required fields besides |
| `SchemaFacts.UpdateCheckReportsTheFirst` | backend/ent/account_update.go:637-664 | An update reports the first column, in the order of the table, whose value is rejected |
| `SchemaFacts.ClearedInOrder` | backend/ent/account_update.go:678-809 | The cleared columns are those of the mutation, each once, in the order of the table |
| `InsertedEdges.UpdatedEdgesInOrder` | backend/ent/account_update.go:810-940 | Both lists of an update name each edge once, groups before the proxy before the usage logs |
| `InsertedEdges.UpdatePlansCarryTheDefaults` | backend/ent/account_update.go:810-940 | In an update too every groups edge carries the join-table defaults, and no other edge carries fields |
| `AccountUpdating.AccountUpdate.SqlSave` | backend/ent/account_update.go:666-950 | Sends the plan and the conditions of the mutation, or nothing if a validator rejects; returns the database's count or error; done exactly if the database accepts |
| `AccountUpdating.AccountUpdateOne.SqlSave` | backend/ent/account_update.go:1606-1911 | Also needs an id and known columns, in that order; if the driver refuses, exactly its error is returned, and if it answers a row of the table, the account with the id and the chosen columns of that row |
| `AccountUpdating.UpdatedRowIsShown` | backend/ent/account_update.go:1898-1910 | A row that fits the schema is always returned: each field has the meaning of its cell if it is the id, chosen, or nothing was chosen, and its zero otherwise |

## Left out

- Library code (`sqlgraph`, `sql.Selector`, drivers, transactions, locking): a query is a function returning rows or an error, an insert a function returning ids or a refusal.
- AccountCreate.BuildSpec, AccountCreate.Defaults and Account.AssignValues: the source's unrolled `if` blocks and `switch` cases are tables over the columns (`TypeOf`, `DefaultAt`, `ScanType`, `FieldShape`) and one pass over the column list.
- AccountUpdating.PlanGivesWhatIsWanted: the neighbours of one account only; an update that takes a usage log from another account, or matches several accounts, is not modelled.
- AccountUpdating.PlanWritesWhatIsHeld: assumes that clears are applied before values and values before sums; how `sqlgraph` orders them inside one statement is not part of this model.
- AccountUpdating.PlanMatchesTheCalls: rests on the same order; AccountUpdating.PlanMatchesTheCallsInAnyOrder says exactly when the order does not matter.
- AccountUpdating.CallsReachTheDatabase: its field part rests on the same order.
- UpdateMutation.FieldMatchesCalls: rests on the same order; FieldOrder.FieldMatchesCallsInAnyOrder says exactly when the order does not matter.
- AccountUpdating.AccountUpdate.SqlSave: which rows the conditions select, and how many, is the database's answer. The default of `updated_at` and the hooks around an update are not modelled.
- BulkCreation.Run: a hook passes on the mutation it was given, changed or not; a hook that passes another mutation object, a hook that keeps state from one invocation to the next or never returns, and the same builder given twice to one bulk, are not modelled. Nor are the stored error of the bulk builder, nil hooks, and the conflict options of the batch itself.
- SingleCreation.SingleIsBulkOfOne: a driver that inserts a row without giving an id makes the single create panic; the model keeps the entity without id instead.
- EdgeLoaders.LoadManyToMany: interceptors are a function on the returned entities; interceptors that run the query several times are not modelled. The rows of the join are those of requested accounts, which is the predicate the loader adds.
- AccountQuery.SqlAll: predicates, limit, order, modifiers, query hooks, and edges of edges. The assign closures are the edge fields themselves.
- JoinQuery.SqlAll: the fields of the join entity are the cells of its row; its scan destinations are not modelled. For AuthIdentity the loaders are modelled, `sqlAll` is not.
- AccountSchema.ReadIsProjection: JSON and decimal and time precision; a JSON column selected twice is assigned twice, without Go's merging of maps; integers are unbounded.
- AuditGate.CheckAudit: JSON objects are decoded, so their keys are distinct, and NaN does not occur; `str` of a value that is no text, `lower` and `date.fromisoformat` are parameters, and today's date is one too. Message texts, argument and file reading, and JSON decoding are left out.
- ExceptionParser.ParseExceptions: takes the file as a sequence of lines; how Python splits a file into lines is left out.
- The other generated builders and loaders (announcements, API keys, groups, users), thin setters, panic wrappers, `String`, deletes, `First`/`Only`/`Count`: they repeat these patterns or add one branch.
- The tunnel script, frontend configuration and deployment files.
