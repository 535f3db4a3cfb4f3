# Eager loading, bulk create, row codec and audit verdict

A Dafny model of the parts of sub2api whose correctness is not visible in one
function body, with proofs.

* **Eager loading** (`AccountQuery`). A query carries a tree of nested queries, one per
  requested edge. Running it fetches each edge of a whole batch of nodes with one query and
  distributes the rows through hash maps. The model keeps the heap: builders are objects with
  a footprint and slices that append in place, nodes are objects whose edges are updated in
  place, Go map iteration is an arbitrary choice. The main result says exactly when the object
  graph it builds is, at every depth, the one that a separate query per node and edge would
  build: always without nested limits and offsets, up to the order of groups.
* **Bulk create** (`AccountCreateBulk.Save`). n builders with their hooks become a chain of
  closures of which only the last one writes. The chain is modelled as recursive methods over
  the same arrays and mutation objects, with a log of its events.
* **Row codec** (`scanValues`, `assignValues`, `createSpec`) and the edge accessors.
* **Audit exceptions** (`tools/check_pnpm_audit_exceptions.py`): the line parser, the reader
  of the two report formats, the index, the deduplicated pass and the exit code.

`dafny verify dfyconfig.toml` checks everything.

| module | what it holds |
|---|---|
| `Wrappers`, `AccountSchema` | options and results; columns, rows and drafts of an account |
| `AccountCodec` | cells, scan targets, assignment of a column, round trips |
| `AccountFields` | what a draft supplies, column by column, and what creating makes of it |
| `Relational` | the trusted SQL interface: predicates, stable order, window |
| `JoinSpec` | the batch graph and the nested-loop graph; query trees |
| `JoinBatches` | one edge: grouping a batch by key, windows on a batch |
| `JoinGroups`, `JoinAnswers`, `JoinOrders` | joined groups: members and order; answers whose rows stand together, and windows; all databases with the same tables |
| `StoredRows` | which stored row a node stands for, which columns it holds, which rows are on its edges |
| `JoinTheorems` | whole trees: when the two graphs are equal, what they always have in common; repeated runs |
| `Slices` | Go slices: a backing array, a length, and append in place |
| `AccountGraph` | nodes as objects, scanValues and assignValues, the accessors |
| `Loaders`, `EdgeLoading` | the attach loops, and the loaders that need no nested account query |
| `QueryBuilder`, `EagerLoading` | the builder, its clone, sqlAll with its recursion; the promises to callers and where they end |
| `AccountDefaults`, `BulkChain`, `BulkCreate` | defaults and check; the chain as functions of its builders; the chain as code |
| `AuditText`, `AuditExceptions`, `AuditFiles` | the exception file: lines, fields, entries; what a file can and cannot hold |
| `AuditReport`, `AuditVerdict`, `AuditTheorems`, `AuditSingle`, `AuditDedup` | the report, the verdict, what exit code 0 means; one exception against one advisory; what the seen set changes |

## What is trusted

`Relational.Select`, `QueryNodes`, `FetchProxies`, `FetchJoined` and `Database.BatchCreate` stand for `sqlgraph`. A query
returns the rows that satisfy its predicates, ordered by its order terms with ties in table
order, then windowed. The joined groups query returns one row per membership of a selected
group, in any arrangement its order terms allow, the same whenever it is asked again of an
unchanged database. The table fills an unset column with its default and
refuses a row without a value for a column that must have one.
Every one of these calls may also fail with a driver error, and a failed insert writes
nothing. JSON is a pair of abstract functions, lossless where a theorem says so. `str.lower`,
`str` of a container and `date.fromisoformat` are arbitrary functions, the day is an argument.

## Where code and documentation differ

* `Clone` is documented to include all associated steps; it drops modifiers (row locks), at
  every depth, and shares the path closure. The model follows the code: the copy equals the
  original if and only if no query of the tree has a lock.
* In a bulk, `check` reads the builder's mutation before the builder takes over the mutation
  its hooks handed on. A hook that passes another mutation gets that one inserted unchecked.
  `BulkChain.SubmitsOnlyCheckedExactly` says exactly when this cannot happen. Such a draft can
  leave columns unset that the table has defaults for; the node that is returned then differs
  from the stored row, exactly as `AccountCodec.CreateReadRoundTrip` says.
* A limit or offset on a nested query windows the batch, not each node's rows.
  `EagerLoading.NestedLimitIsPerBatch` is a run that loses a child, `JoinBatches.LimitedBatchExactly`
  and `JoinTheorems.NestedLoopExactly` say exactly when it is harmless, for one edge and for trees.
* The groups of an account come in the order the whole batch first met them
  (`EagerLoading.GroupOrderIsGlobal`); `JoinOrders.OrderSettledExactly` and `EagerLoading.LoadSettledExactly`
  say for which queries and tables no database can show it.
* The titles of a vulnerability are joined as strings, so a numeric `source` used as a title,
  which the source means to support, raises a TypeError; an exception that is not caught ends
  the checker with exit code 1, whatever the severity (`AuditTheorems.NumericSourceRaises`,
  `AuditReport.VulnsRaiseExactly`).
* Deduplication looks at the first severity of a key only (`AuditDedup.MixedSeveritySlips`,
  `AuditDedup.DedupRefinesExactly`).
* A high or critical advisory without a module name is passed over, with or without an
  exception (`AuditTheorems.UnnamedAdvisoryPasses`, `AuditTheorems.IgnoredChangesNothing`).

## Model

| member | source | states |
|---|---|---|
| `AccountGraph.Account.ScanValues` | backend/ent/account.go:168-189 | one fresh target per requested column, in order, each of the type of its column; a name that is no column gets an untyped target |
| `AccountGraph.Account.AssignValues` | backend/ent/account.go:193-417 | fails without touching the node when there are fewer values than columns; otherwise the columns are assigned left to right and the first value that does not fit stops it, what was assigned before staying |
| `AccountCodec.AssignTouchesOnly` | backend/ent/account.go:197-412 | assigning one column leaves every other field of the node as it was |
| `AccountCodec.AssignAbsorbs` | backend/ent/account.go:197-412 | assigning one column stores the value through the type of that column (NULL keeps the old field, JSON is decoded, an empty document is skipped) and otherwise reports an error naming it |
| `AccountCodec.NullChangesNothing` | backend/ent/account.go:197-412 | a NULL leaves the target as scanValues made it and the node as it was, except that a NULL ID reads as 0 |
| `AccountCodec.ReadRow` | backend/ent/account.go:168-417 | scanning and assigning a stored row rebuilds exactly the requested columns, in any order and with repetitions, and reports no type mismatch |
| `AccountCodec.ReadStoredRow` | backend/ent/account.go:168-417 | the same from a fresh node: the read row is the stored row restricted to the selected columns |
| `AccountCodec.SpecRepresentsNode` | backend/ent/account_create.go:682-891 | column by column, the value createSpec sends to the insert decodes to the field of the node createSpec returns, unset optional fields included |
| `AccountCodec.DefaultsShowExactly` | backend/ent/migrate/schema.go:98-130 | the column defaults of the table (concurrency 3, priority 50, rate_multiplier 1, status "active", ...) change the node of a draft if and only if the draft leaves one of those columns unset |
| `AccountCodec.CreateReadRoundTrip` | backend/ent/account_create.go:682-891 | for every draft the table accepts, checked or not: inserting what createSpec sends and reading any list of columns back gives the node of the draft with the column defaults filled in; when all columns are read, that is the node createSpec returned plus its ID if and only if the draft leaves no defaulted column unset |
| `AccountFields.SpecSends` | backend/ent/account_create.go:682-891 | createSpec sends for each column exactly the value its setter was called with, false and zero included, and nothing (NULL) for a field that was not set; the draft is read by an independent table of field, column and kind of value |
| `AccountFields.NodeCarries` | backend/ent/account_create.go:682-891 | every field of the returned node is the value supplied for its own column, or zero if there is none; the ID aside |
| `AccountFields.CompletedSupplies` | backend/ent/migrate/schema.go:98-130 | what the table makes of a draft: a supplied value stays, an unset column gets its own default (concurrency 3, priority 50, rate_multiplier 1, status "active", auto_pause_on_expired and schedulable true, quota_dimension "global"), every other column stays unset |
| `AccountFields.StorableExactly` | backend/ent/migrate/schema.go:98-130 | the table accepts a draft if and only if, defaults filled in, none of the fourteen columns that must not be NULL is left without a value |
| `AccountFields.LeavesNoDefaultExactly` | backend/ent/migrate/schema.go:98-130 | a draft leaves nothing to the defaults of the table if and only if it supplies every column that has one |
| `AccountFields.SuppliedComesBack` | backend/ent/account_create.go:682-891 | create then read: for every accepted draft and any list of columns read back, each column holds the value supplied for it, else its default, else zero |
| `AccountDefaults.CheckedRoundTrip` | backend/ent/account_create.go:588-891 | a draft that passes check is accepted by the table and reads back as the very node createSpec returned plus its ID, for every column list |
| `AccountCodec.AcceptsExactly` | backend/ent/account.go:197-412 | one column is assigned if and only if the value has its type and, for JSON, decodes |
| `AccountCodec.ReadFailsExactly` | backend/ent/account.go:193-417 | assignValues fails if and only if some value does not fit its column, and the error names the first such column |
| `AccountGraph.ShapedReports` | backend/ent/account.go:111-148 | at every depth of a graph of settled nodes: an accessor is NotLoaded if and only if its edge was not requested, a requested list edge succeeds, a requested unique edge is a node or NotFound; nothing is assumed about limits |
| `AccountGraph.AccessorsReportQuery` | backend/ent/account.go:111-148 | for a node whose graph is the nested-loop graph: a requested list is what a query for this node alone returns, in order, and a requested unique edge is the row its key leads to or NotFound |
| `Relational.SelectSound` | backend/ent/account_query.go:881-900 | the trusted interface: a returned row is in the table and satisfies every predicate |
| `Relational.ArrangeFilter` | backend/ent/account_query.go:894-900 | filtering before or after the stable ordering gives the same rows in the same order |
| `Relational.SelectOneOfMany` | backend/ent/account_query.go:704-768 | one query for many keys, filtered down to one key, returns what a query for that key alone returns, in the same order |
| `Relational.SelectAgain` | backend/ent/account_query.go:736-767 | appending a predicate that is already there changes no result |
| `Relational.SelectAnswers` | backend/ent/account_query.go:881-900 | what the trusted interface returns, without its functions: before the window every row of the table that satisfies the predicates, as often as it is there, and no other, in an order the order terms allow; the window skips offset rows and then takes limit rows, or all if there is no limit |
| `Relational.AtMostExactly` | backend/ent/account_query.go:894-900 | the first order term that tells two rows apart decides; without one they are tied |
| `Relational.ArrangeInOrder` | backend/ent/account_query.go:894-900 | rows that are in order already stay as they are: with ArrangeFilter, ties keep the order of the table |
| `JoinSpec.AppearanceIDs` | backend/ent/account_query.go:661-670 | the groups collected by the scan hook are exactly the joined groups |
| `JoinSpec.AppearanceUnique` | backend/ent/account_query.go:661-670 | no group is collected twice, however often its join row is repeated |
| `JoinBatches.MatchingOfOne` | backend/ent/account_query.go:752-783 | grouping all rows that match one query for many keys by key gives what a query for one key matches, order included |
| `JoinBatches.SharesPartition` | backend/ent/account_query.go:752-783 | grouped by key, the rows of a batch are neither lost nor shared: over distinct keys the shares together are as many as the rows |
| `JoinBatches.WindowedBatchExactly` | backend/ent/account_query.go:888-900 | with any limit and offset on the query of an edge, every key gets from the batch what its own windowed query returns if and only if the window is undisturbed, a condition on the sequence of keys alone |
| `JoinBatches.LimitedBatchExactly` | backend/ent/account_query.go:888-900 | a nested limit without an offset is harmless if and only if no more rows match than the limit or all matching rows have one key; otherwise the batch returns exactly limit rows and the per-key queries together strictly more |
| `JoinBatches.OffsetBatchExactly` | backend/ent/account_query.go:888-900 | a nested offset without a limit is harmless if and only if it skips every matching row or all have one key |
| `JoinGroups.EachGroupOnce` | backend/ent/account_query.go:627-687 | however the database arranges the joined rows, an account of the batch gets exactly the selected groups it is a member of, each once |
| `JoinOrders.OrderSettledExactly` | backend/ent/account_query.go:627-687 | for fixed tables: behind every lawful database every account of the batch gets its groups in the order of its own query if and only if the order terms decide every two selected groups of every account, or the batch is that account alone; the condition speaks of the query and the tables only |
| `JoinOrders.TiedGroupsVary` | backend/ent/account_query.go:627-687 | for any two groups of an account that no order term tells apart, and any other batch the account is in, a lawful database that lists them for the batch in the other order than for the account |
| `JoinGroups.DecidedOrder` | backend/ent/account_query.go:627-687 | when the order terms decide between every two selected groups of an account, it gets the list of its own query, whatever the database does |
| `JoinAnswers.GroupedOrder` | backend/ent/account_query.go:627-687 | and so it does when the database answers group by group |
| `JoinAnswers.GroupByGroupIsArranged` | backend/ent/account_query.go:627-646 | answering group by group is one of the legal arrangements |
| `JoinAnswers.WindowedGroupsExactly` | backend/ent/account_query.go:888-900 | with a limit or offset on a groups query, every account gets its own windowed list if and only if the window is undisturbed over the accounts of the joined rows, whenever the answer for the batch is the answers for its accounts put together |
| `JoinAnswers.DecidedIsShared` | backend/ent/account_query.go:627-687 | every legal answer is, when the order terms decide every two selected groups: the rows of a group stand together and an account's part is its own answer |
| `JoinTheorems.GroupsExactly` | backend/ent/account_query.go:627-687 | many-to-many: every account of a batch gets the groups of its own query, in order, if and only if the groups edge is faithful: the batch meets them alike or, with a window, the window is undisturbed in the group-by-group answer |
| `JoinTheorems.ProxiesExactly` | backend/ent/account_query.go:688-719 | many-to-one: for every key the proxy found in the hash map is what a query for that key alone returns if and only if the window of the proxy query is undisturbed |
| `JoinTheorems.ParentsExactly` | backend/ent/account_query.go:720-751 | the same for parents with the whole graph below them: window undisturbed, and the graphs of the fetched parents right |
| `JoinTheorems.ChildrenExactly` | backend/ent/account_query.go:752-784 | one-to-many: every node gets the children of its own query with their graphs if and only if the window is undisturbed and the graphs of the fetched children are right |
| `JoinTheorems.NestedLoopExactly` | backend/ent/account_query.go:550-784 | for every tree of nested queries, limits and offsets included, and every lawful database: one query per edge builds at every depth the graph that one query per node and edge would build if and only if every edge at every depth is faithful (windows undisturbed, groups met alike); a groups query with a window of its own must have deciding order terms or be answered group by group |
| `JoinTheorems.BatchRefinesNestedLoop` | backend/ent/account_query.go:550-784 | without nested limits and offsets, and with the order of groups of these nodes settled by order terms or by the database, the two graphs are equal |
| `JoinTheorems.GraphSettledExactly` | backend/ent/account_query.go:550-784 | for fixed tables, without nested limits and offsets: the two graphs are equal behind every lawful database if and only if the order terms settle the order of groups of every node at every depth |
| `JoinTheorems.BatchAlike` | backend/ent/account_query.go:550-784 | without nested limits and offsets, whatever order the database gives joined rows: at every depth the same rows, proxies, parents and children in the same order, and the same groups, each once |
| `JoinTheorems.BatchShaped` | backend/ent/account_query.go:550-625 | whatever the windows and the answers, every node at every depth is flagged as its query requested and has nothing on an edge that was not requested |
| `JoinTheorems.RunKeepsSame` | backend/ent/account_query.go:736-767 | one more run leaves a query tree that fetches the same rows and columns at every level |
| `JoinTheorems.RerunSameGraph` | backend/ent/account_query.go:736-767 | after any number of runs the accumulated ID predicates still yield the same graph (no groups edge) |
| `StoredRows.ColumnsWanted` | backend/ent/account_query.go:866-880 | the columns a query reads: all 32 when no field is selected; otherwise exactly the ID, the selected fields, proxy_id if the proxy is requested, and parent_account_id if the parent is requested or the query was run for children |
| `StoredRows.MaskAgrees` | backend/ent/account_query.go:563-580 | so a node has the stored value of exactly these columns and is zero in every other one; without a selection it is the stored row |
| `StoredRows.BatchStored` | backend/ent/account_query.go:550-784 | at every depth, whatever the windows and the answers: a node agrees with its stored row in that way; its groups are selected groups it is a member of, each once; its proxy, parent and children stand in the same way for stored rows that its keys lead to and the query of the edge selects, children told apart by ID; an edge without a window lists all of them |
| `AccountGraph.ClosedUnfolds` | backend/ent/account.go:111-148 | what can be read off settled objects along their edges, at every depth, is their view |
| `StoredRows.DeliveredHoldRows` | backend/ent/account_query.go:550-784 | the same for the objects of a delivered run: one node per root row, each holding what is stored, at every depth |
| `Loaders.CollectKeys` | backend/ent/account_query.go:720-732 | the IDs to query are the non-nil foreign keys, each once in order of first appearance, and the map lists for each key exactly the nodes carrying it, for any node list |
| `Loaders.AttachParents` | backend/ent/account_query.go:741-750 | fails exactly on a neighbour nobody asked for; otherwise every node whose key came back points to that neighbour and every other node is unchanged, repeated nodes included |
| `Loaders.AttachProxies` | backend/ent/account_query.go:709-718 | the same for proxies |
| `Loaders.IndexByID` | backend/ent/account_query.go:752-761 | the map sends each ID to the last node that has it |
| `Loaders.AttachChildren` | backend/ent/account_query.go:772-783 | fails exactly when some neighbour has a nil or unknown foreign key; otherwise each owning node gains its neighbours in order and no other node gains any |
| `Loaders.PartitionChildren` | backend/ent/account_query.go:772-783 | over nodes with distinct IDs and no children yet, the attach loop without an error leaves the lengths of the children lists summing to the number of neighbours, and every neighbour in the list of exactly one node, at one place |
| `Loaders.ScanJoin` | backend/ent/account_query.go:661-670 | the scan hook: the neighbours are the joined groups by first appearance and each group's node set holds exactly the nodes joined to it, for any row sequence, repeated rows included |
| `Loaders.AppendGroup` | backend/ent/account_query.go:682-684 | visiting a node set in any order appends the group exactly once to each member and to nobody else |
| `Loaders.AttachGroups` | backend/ent/account_query.go:677-686 | fails exactly on a group without a node set; otherwise each node gains its joined groups in the order of the neighbours |
| `EdgeLoading.SelectJoinAccounts` | backend/ent/account_query.go:638-646 | every row of the joined query belongs to one of the nodes asked for, so the hook never meets an unknown account |
| `EdgeLoading.GroupNodes` | backend/ent/account_query.go:661-686 | for any join rows of these nodes each account lists its distinct groups in first-appearance order, and the "unexpected groups node" error cannot occur |
| `EdgeLoading.LoadGroups` | backend/ent/account_query.go:627-687 | the whole loader: only the driver can fail; otherwise the groups of every node are those of the joined query |
| `EdgeLoading.NearParents` | backend/ent/account_query.go:736-745 | everything loadParent's query returns was asked for |
| `EdgeLoading.LoadProxy` | backend/ent/account_query.go:688-719 | a left outer join for any node list: each node shows the proxy its key leads to or what it showed before; when no key is set no query is made, so it cannot fail and the query is left alone; otherwise only the driver can fail |
| `EdgeLoading.NearChildren` | backend/ent/account_query.go:762-781 | everything loadChildren's query returns has a foreign key, selected and belonging to one of the nodes, so its two errors cannot occur |
| `EdgeLoading.LoadFlatEdges` | backend/ent/account_query.go:584-596 | groups and proxies of a batch are loaded and their queries are left as the loaders leave them |
| `Slices.Append` | backend/ent/account_query.go:43-47 | Go's append: the elements and the new one, in place when the backing array has room, else in a larger array |
| `Slices.SharedAppendOverwrites` | backend/ent/account_query.go:386-408 | why Clone copies: two builders that shared a slice with room would overwrite each other's appended element |
| `QueryBuilder.AccountQuery.Where` | backend/ent/account_query.go:43-47 | adds the predicate and changes nothing else of the query tree, whether or not the backing array has room |
| `QueryBuilder.AccountQuery.Order` | backend/ent/account_query.go:68-72 | adds the order term after the ones already there |
| `QueryBuilder.AccountQuery.Limit` | backend/ent/account_query.go:49-53 | sets the limit, the last call winning |
| `QueryBuilder.AccountQuery.Offset` | backend/ent/account_query.go:55-59 | sets the offset, the last call winning |
| `QueryBuilder.AccountQuery.Select` | backend/ent/account_query.go:511-517 | appends the fields |
| `QueryBuilder.AccountQuery.WithGroups` | backend/ent/account_query.go:410-419 | installs a fresh groups query, replacing an earlier one |
| `QueryBuilder.AccountQuery.WithProxy` | backend/ent/account_query.go:421-430 | installs a fresh proxy query |
| `QueryBuilder.AccountQuery.WithParent` | backend/ent/account_query.go:432-441 | installs a fresh parent query with the given calls applied; the builder stays a tree |
| `QueryBuilder.AccountQuery.WithChildren` | backend/ent/account_query.go:443-452 | installs a fresh children query with the given calls applied; the builder stays a tree |
| `QueryBuilder.AccountQuery.ForUpdate` | backend/ent/account_query.go:942-950 | appends the lock and changes nothing else of the query tree (on Postgres the source also turns Unique off, which the tree does not hold) |
| `QueryBuilder.AccountQuery.ForShare` | backend/ent/account_query.go:955-963 | the same for the shared lock |
| `QueryBuilder.AccountQuery.ApplyAll` | backend/ent/account_query.go:43-72 | any sequence of builder calls keeps the builder a tree and has exactly the effect of its calls in order |
| `JoinSpec.UnlockedExactly` | backend/ent/account_query.go:386-408 | dropping the row locks of a query tree leaves none at any depth, and changes nothing if and only if there were none |
| `QueryBuilder.AccountQuery.Clone` | backend/ent/account_query.go:386-408 | a copy of the whole tree of queries without its row locks, equal to the original if and only if that has none; it shares no object and no backing array with the original and ends for every tree |
| `QueryBuilder.CloneIsIndependent` | backend/ent/account_query.go:386-408 | after a clone, calls on the two builders in any interleaving, appends in place included, leave each with exactly its own calls applied |
| `QueryBuilder.AccountQuery.ScanInto` | backend/ent/account_query.go:563-565 | scanning a row fills the targets of scanValues in order and stops at the first value that does not fit |
| `QueryBuilder.AccountQuery.QueryNodes` | backend/ent/account_query.go:563-580 | the trusted query: it fails with a driver error or scans exactly the selected rows, each into targets of its own from scanValues |
| `QueryBuilder.AccountQuery.BuildNode` | backend/ent/account_query.go:566-571 | the Assign hook: a fresh node with the selected columns of its row, its edges marked as requested and empty; decoding cannot fail |
| `QueryBuilder.AccountQuery.LoadParent` | backend/ent/account_query.go:720-751 | for any node list each node shows the parent its key leads to, with the graph below it, or what it showed before; when no key is set no query is made, so it cannot fail; its own error cannot occur |
| `QueryBuilder.AccountQuery.SelectForeignKey` | backend/ent/account_query.go:762-764 | when fields are selected the foreign key is among them afterwards, once |
| `QueryBuilder.AccountQuery.LoadChildren` | backend/ent/account_query.go:752-784 | every node that is the last with its ID lists exactly the fetched children of that ID in order, every other node lists none; its own errors cannot occur |
| `QueryBuilder.AccountQuery.LoadEdges` | backend/ent/account_query.go:584-624 | after all requested edges the nodes show the graph of the batch and the builder is left as its loaders leave it |
| `QueryBuilder.AccountQuery.SqlAll` | backend/ent/account_query.go:550-625 | a successful run returns one distinct node per selected row with the whole requested graph below it, all of it new objects; every node, at every depth, holds the stored values of the columns asked for (all of them when no field is selected) and is zero elsewhere |
| `QueryBuilder.AccountQuery.All` | backend/ent/account_query.go:307-314 | an unknown selected field fails before anything is asked or changed; otherwise as sqlAll, stored columns at every depth included |
| `EagerLoading.LoadGraph` | backend/ent/account_query.go:550-784 | for callers, any query tree and any lawful database: a successful All returns one node per root row; every node at every depth agrees with its stored row on the ID, every selected field and the foreign keys of the requested edges, is zero elsewhere, and is the whole stored row without a selection; it reports through its accessors what its query requested; the graph is the nested-loop graph if and only if every edge is faithful (groups queries with a window: deciding order terms, or answered group by group); without nested limits and offsets it is that graph up to the order of groups, and in full when that order is settled by order terms or by the database; it fails only when the driver does or when some query of the tree selects an unknown field |
| `EagerLoading.LoadSettledExactly` | backend/ent/account_query.go:550-784 | the same for a whole query: what it loads is the nested-loop graph behind every lawful database with these tables if and only if the order of groups is settled by the query itself |
| `EagerLoading.LoadRepeatedly` | backend/ent/account_query.go:736-767 | running one query object n times on an unchanged database delivers the first graph each time (no groups edge) |
| `EagerLoading.NestedLimitIsPerBatch` | backend/ent/account_query.go:888-900 | a run where the refinement fails: of two root accounts with one child each, loaded with a limit of 1 on the children query, the second comes without its child |
| `EagerLoading.RepeatedIDLosesEdges` | backend/ent/account_query.go:752-782 | of two node objects with one ID only the later one receives children and groups |
| `EagerLoading.GroupOrderIsGlobal` | backend/ent/account_query.go:661-686 | a lawful database and two accounts sharing a group for which the batch lists one account's groups in another order than its own query |
| `AccountDefaults.Mutation.Defaults` | backend/ent/account_create.go:527-585 | fills in order and stops at the first of the four default functions that is needed and missing, leaving later fields alone; when it does not stop, each unset field with a default holds the runtime variable of its own name (quota_dimension "global"), each supplied field its own value, and no other field changes |
| `AccountDefaults.DiscardedErrorIsCaught` | backend/ent/account_create.go:527-662 | a draft whose defaults stopped early never passes check |
| `AccountDefaults.CheckAfterDefaults` | backend/ent/account_create.go:527-662 | with a valid default status, check passes a defaulted draft if and only if defaults completed, name, platform and type are supplied, and every supplied value satisfies its validator |
| `AccountDefaults.CheckNamesFirst` | backend/ent/account_create.go:588-662 | check passes if and only if none of the fifteen fields it looks at is in trouble (unset though required, or rejected by its own validator); otherwise its verdict is the trouble of the first such field in declaration order |
| `BulkChain.InsertReachedExactly` | backend/ent/account_create.go:2102-2127 | the batch insert is attempted if and only if no hook aborts and every builder's check passes |
| `BulkChain.FirstFailureWins` | backend/ent/account_create.go:2106-2131 | otherwise the error is that of the first builder that is not accepted |
| `BulkChain.RunHandsOn` | backend/ent/account_create.go:2106-2147 | each hook of a builder is given the draft the one before it left; the builder submits what the last one left, and its check sees the draft that the first swapping hook was given |
| `BulkChain.PathFollowsOrder` | backend/ent/account_create.go:2117-2147 | hooks are entered as builder 0's in list order, then its check, then builder 1's, and so on: every run goes down a prefix of that order, all of it exactly when the insert is reached |
| `BulkChain.TraceIsBracketed` | backend/ent/account_create.go:2140-2147 | the exits come in exactly the reverse order of the entries, for any builders and hooks |
| `BulkChain.InsertOnceAfterChecks` | backend/ent/account_create.go:2117-2131 | the insert happens at most once, after every entry and every check, before every exit |
| `BulkChain.NoRejectionExactly` | backend/ent/account_create.go:2128-2143 | a written batch is reported without error if and only if no hook rejects on the way back |
| `BulkChain.DeepestRejects` | backend/ent/account_create.go:2128-2147 | otherwise the error is that of the last hook in builder and list order that rejects |
| `BulkChain.ErrorWritesNothingExactly` | backend/ent/account_create.go:2117-2151 | "an error means nothing was written" holds if and only if some builder is not accepted or no hook rejects what next returned |
| `BulkChain.SubmitsOnlyCheckedExactly` | backend/ent/account_create.go:2111-2116 | "whatever later hooks edit, only a checked draft is inserted" holds if and only if no hook hands next another mutation, because check runs before the builder takes the handed mutation over |
| `BulkChain.UnswappedSubmitsChecked` | backend/ent/account_create.go:2111-2116 | without such a hook the inserted draft is the checked one |
| `BulkChain.DefaultsErrorIsHarmless` | backend/ent/account_create.go:2105-2113 | with hooks that leave the mutation alone, discarding the error of defaults is harmless: the insert is reached if and only if every builder's defaults completed and its supplied values are in order |
| `BulkCreate.Database.BatchCreate` | backend/ent/account_create.go:2120-2127 | the trusted insert: it fails and writes nothing, or writes every spec in order and fills in the IDs it reports |
| `BulkCreate.AccountCreate.CreateSpec` | backend/ent/account_create.go:682-891 | every supplied value, and nothing else, is sent for its own column, and every field of the returned node is the supplied value or zero; under any ID the driver may report, every value sent decodes to the field of the node; neither has an ID yet |
| `BulkCreate.AccountCreateBulk.Mutate` | backend/ent/account_create.go:2106-2143 | one mutator with its hooks, over all outcomes: the events, the error, the rows, and for every later builder its spec, node, ID and done flag |
| `BulkCreate.AccountCreateBulk.Prepare` | backend/ent/account_create.go:2114-2116 | node and spec of builder i go to place i of the arrays, no other place changes |
| `BulkCreate.AccountCreateBulk.Next` | backend/ent/account_create.go:2117-2128 | builder i + 1 is called or, after the last, the insert runs with all specs set |
| `BulkCreate.AccountCreateBulk.Core` | backend/ent/account_create.go:2106-2139 | the closure of one builder, in full |
| `BulkCreate.AccountCreateBulk.Confirm` | backend/ent/account_create.go:2129-2138 | only without an error is the mutation marked done and given its node and ID |
| `BulkCreate.AccountCreateBulk.FillDefaults` | backend/ent/account_create.go:2102-2105 | every builder's mutation is defaulted before any mutator runs |
| `BulkCreate.AccountCreateBulk.Save` | backend/ent/account_create.go:2095-2152 | all or nothing in builder order: unless the batch was written, the table is unchanged and no mutation is done; if it was, row k holds exactly the values that builder k's submitted draft supplies, column by column, and mutation k is done and holds node k, whose fields are those values or zero and whose ID is that of row k if the driver reported it and 0 if not, exactly when no later builder's hook rejected; on success the result lists those nodes in builder order. The log is that of BulkChain |
| `AuditText.StripPadded` | tools/check_pnpm_audit_exceptions.py:12-30 | strip removes any padding of Python white space around a trimmed text |
| `AuditText.StripIsTrimmed` | tools/check_pnpm_audit_exceptions.py:12-30 | what strip leaves has no space at either end and is what stands between two blank parts of the line |
| `AuditText.SplitFailsExactly` | tools/check_pnpm_audit_exceptions.py:12-20 | split_kv raises exactly on a line without a colon |
| `AuditText.SpaceExactly` | tools/check_pnpm_audit_exceptions.py:12-30 | the characters strip removes, by code point |
| `AuditText.SplitBare` | tools/check_pnpm_audit_exceptions.py:12-20 | for a plain key and a trimmed value that does not begin and end with the same quote mark, the value comes back as it is, whatever blanks stand before the colon and before the value |
| `AuditText.SplitQuoted` | tools/check_pnpm_audit_exceptions.py:12-20 | any value between two single or two double quotes comes back without them, whatever characters it has |
| `AuditExceptions.ParseExceptions` | tools/check_pnpm_audit_exceptions.py:23-48 | the state machine computes the blocks of the format: an entry per item line with the fields up to the next item |
| `AuditExceptions.OneEntryPerItem` | tools/check_pnpm_audit_exceptions.py:34-48 | parsing raises exactly when some item line has no colon; otherwise there is one entry per item line and none is empty, so the two emptiness tests never drop anything |
| `AuditExceptions.ParsePrinted` | tools/check_pnpm_audit_exceptions.py:23-48 | printing entries with plain keys, each value bare, in single or in double quotes, and parsing gives the same entries, however the lines are padded and with any blank lines, comments, version and exceptions headers in between |
| `AuditExceptions.ColonlessIgnored` | tools/check_pnpm_audit_exceptions.py:43-45 | a line that is no item and has no colon is ignored wherever it stands |
| `AuditExceptions.LeadIgnored` | tools/check_pnpm_audit_exceptions.py:43-45 | lines before the first item are ignored |
| `AuditExceptions.DenotedExactly` | tools/check_pnpm_audit_exceptions.py:40-45 | with distinct keys the parsed entry holds exactly the printed pairs |
| `AuditReport.IterVulns` | tools/check_pnpm_audit_exceptions.py:64-111 | both report formats, in order, or the exception that reading them raises |
| `AuditReport.FalsyExactly` | tools/check_pnpm_audit_exceptions.py:51-111 | the values that an or passes over: null, false, zero, and the empty string, list and object |
| `AuditReport.GetFirst` | tools/check_pnpm_audit_exceptions.py:51-111 | reading a member of an object by its key |
| `AuditReport.AdvisoryPicks` | tools/check_pnpm_audit_exceptions.py:51-61 | an advisory is looked up by the first truthy one of github_advisory_id, url, the first of cves, the shown id if it is not null, title, advisory and overview; reading raises exactly when it gets as far as cves and cannot index them |
| `AuditReport.AdvisoryReads` | tools/check_pnpm_audit_exceptions.py:66-78 | its tuple is named by the first truthy one of module_name and name and has its severity |
| `AuditReport.ViaPicks` | tools/check_pnpm_audit_exceptions.py:88-102 | an item of a via list is looked up by the first truthy one of github_advisory_id, url, source, title and name; its title is the first truthy one of title, url, advisory and source |
| `AuditReport.VulnsRaiseExactly` | tools/check_pnpm_audit_exceptions.py:64-111 | reading a report raises if and only if it is no object, an advisory is no object or is unreadable at its cves, or a package is no object or is reported via an item whose title is neither falsy nor a string |
| `AuditReport.IterPackage` | tools/check_pnpm_audit_exceptions.py:82-111 | one package: what via names, the titles joined (which raises on a title that is no string), one tuple per advisory |
| `AuditReport.AdvisoryIsYielded` | tools/check_pnpm_audit_exceptions.py:66-78 | every advisory of the report is yielded, in order and before the packages |
| `AuditReport.ViaIsYielded` | tools/check_pnpm_audit_exceptions.py:80-111 | every advisory a vulnerability is reported via is yielded under the package's name |
| `AuditReport.OnlyYielded` | tools/check_pnpm_audit_exceptions.py:64-111 | and nothing else: every tuple is that of an advisory, or names a package, its severity and a truthy advisory it is reported via |
| `AuditVerdict.BuildIndex` | tools/check_pnpm_audit_exceptions.py:153-185 | the index and the complaints of the exception list |
| `AuditVerdict.IndexedExactly` | tools/check_pnpm_audit_exceptions.py:156-185 | the index holds exactly the keys of the well-formed exceptions |
| `AuditVerdict.RuleOf` | tools/check_pnpm_audit_exceptions.py:175-185 | each of them under its own rule |
| `AuditVerdict.NoComplaintsExactly` | tools/check_pnpm_audit_exceptions.py:153-185 | there is no complaint if and only if every exception is complete, dated and keyed and no two share a key |
| `AuditVerdict.Examine` | tools/check_pnpm_audit_exceptions.py:187-219 | the loop with its seen set judges exactly the first hit of every key, and raises exactly when some severity is neither empty nor a string |
| `AuditTheorems.Validate` | tools/check_pnpm_audit_exceptions.py:142-243 | the exit code, from the lines of the exception file and the decoded report |
| `AuditTheorems.ExitZeroExactly` | tools/check_pnpm_audit_exceptions.py:152-243 | exit code 0 if and only if all exceptions are well-formed with distinct keys, no severity is malformed, every named high or critical tuple has an advisory, and the first tuple of each key has an unexpired exception whose severity is empty or equal |
| `AuditSingle.IncompleteRefused` | tools/check_pnpm_audit_exceptions.py:9-162 | an exception that lacks any one of package, advisory, severity, mitigation and expires_on, or leaves it empty, makes the exit code 1, whatever else the list and the report hold |
| `AuditSingle.OneAgainstOne` | tools/check_pnpm_audit_exceptions.py:114-219 | one exception against one tuple, in terms of their texts: exit code 0 if and only if the exception has all five fields, a valid date and more than blanks for package and advisory, and a high or critical tuple finds the package as spelled, the advisory in any case, the severity equal in any case or blank, and the date not past |
| `AuditSingle.PackageCaseCounts` | tools/check_pnpm_audit_exceptions.py:119-123 | package names that differ in case only are different: an exception for the other spelling does not help |
| `AuditSingle.NumbersCountAsShown` | tools/check_pnpm_audit_exceptions.py:119-132 | a number as name or advisory counts as the text it is shown as |
| `AuditSingle.OddValues` | tools/check_pnpm_audit_exceptions.py:114-205 | a severity that is given and no string raises, one that is not given is ignored, a named severe tuple without an advisory is a complaint |
| `AuditSingle.GitHubIDDecides` | tools/check_pnpm_audit_exceptions.py:51-219 | end to end for a report of one advisory with a GitHub advisory ID: the checker passes exactly with an exception for that ID and package, in the sense above, whatever its url, cves, id and texts are |
| `AuditSingle.GitHubIDDecidesVia` | tools/check_pnpm_audit_exceptions.py:80-219 | the same for a package that is reported via such an advisory, under the name of the package |
| `AuditDedup.NaiveZeroExactly` | tools/check_pnpm_audit_exceptions.py:152-243 | the checker without deduplication, said independently: exit code 0 if and only if the exceptions are well-formed with distinct keys and every single tuple is in order |
| `AuditFiles.ReadOneLine` | tools/check_pnpm_audit_exceptions.py:23-48 | no exception read from a file holds a value with a line break in it |
| `AuditFiles.FileOfEntries` | tools/check_pnpm_audit_exceptions.py:23-48 | entries with plain keys and values on one line each are what some file, one field per line, is read as |
| `AuditDedup.HopelessFails` | tools/check_pnpm_audit_exceptions.py:152-219 | a tuple with a malformed severity, a named severe one without an advisory, or one whose package is blank or whose key spans lines makes both checkers refuse every exception file |
| `AuditDedup.DedupRefinesExactly` | tools/check_pnpm_audit_exceptions.py:23-219 | from the lines of the file to the exit code, with some date still to come: deduplication changes the exit code for no exception file if and only if some tuple is hopeless in that sense or equal keys carry equal normalized severities |
| `AuditDedup.NaiveIsStricter` | tools/check_pnpm_audit_exceptions.py:191-219 | the other direction always holds: what passes without deduplication passes with it |
| `AuditTheorems.NumericSourceRaises` | tools/check_pnpm_audit_exceptions.py:80-133 | a vulnerability of severity low reported via a numeric source without a title ends the checker with exit code 1; with a title it passes |
| `AuditDedup.MixedSeveritySlips` | tools/check_pnpm_audit_exceptions.py:23-219 | for any tuples that break that condition, the file with one exception for the first tuple of each key passes with deduplication and fails without |
| `AuditTheorems.ExitCodePermutes` | tools/check_pnpm_audit_exceptions.py:152-243 | the exit code is the same for every order of the exceptions |
| `AuditTheorems.AddingExceptionExactly` | tools/check_pnpm_audit_exceptions.py:152-243 | adding an exception anywhere to a passing list keeps exit code 0 if and only if it is well-formed and its key is fresh |
| `AuditTheorems.EarlierDayPasses` | tools/check_pnpm_audit_exceptions.py:187-219 | a run that passes on one day passes on every earlier day |
| `AuditTheorems.ZeroExcusesAll` | tools/check_pnpm_audit_exceptions.py:187-243 | after exit code 0 every high or critical tuple with a truthy name, repeated ones too, has an unexpired exception for its package and advisory |
| `AuditTheorems.IgnoredChangesNothing` | tools/check_pnpm_audit_exceptions.py:187-205 | a tuple that is not severe or has a falsy name never changes the exit code, whatever its advisory |
| `AuditTheorems.UnnamedAdvisoryPasses` | tools/check_pnpm_audit_exceptions.py:66-78 | a report with one advisory of severity high, with an ID and no module name, gives exit code 0 without any exception |
| `AuditTheorems.NothingNamedSlipsThrough` | tools/check_pnpm_audit_exceptions.py:64-243 | in terms of the report, both formats: after exit code 0 every advisory, and every truthy advisory a package is reported via, is not severe, unnamed, or excused |

## Left out

* loadUsageLogs and loadAccountGroups: the loop of loadChildren with a foreign key that cannot be nil; they would only add easy members.
* Interceptors, traversers, the path closure, `Unique` (which ForUpdate and ForShare turn off on Postgres), and `From`: a query starts at its own table.
* Row locks are kept in the builder only: a run returns the same rows with and without them, and nested group and proxy queries have none.
* A second run of a query that eager-loads groups: the appended predicate joins and selects a column again, which the scan hook does not expect. The runs modelled require that no groups query in the tree has been joined before; a `joins` counter tracks it.
* SQL text, dialects, drivers, contexts, transactions. Rows of one table that no order term decides come in table order, where a database may use any order; the rows of a join come in any order.
* Negative limits and offsets; a limit of 0 means no limit, as in QuerySpec.
* Slices of the account builder (predicates, order terms, fields) are backing arrays; its modifiers and the lists inside a groups or proxy query are values, as are the lists that the loaders build and drop.
* Integer widths: IDs and counts are unbounded, none of the modelled code computes with them. Time is an abstract instant, rate_multiplier a real number; column sizes and precisions (decimal(10,4), varchar lengths) do not round or refuse a value.
* JSON decoded into a map that already has keys would be merged; every node is fresh, so its maps are nil.
* createSpec keeps its fields as a function from columns to values rather than as a list; the groups, children and usage-log edges of a create are not part of the model, nor are the setters, upserts and the single-row Save.
* Hooks that call next twice, skip it and succeed, replace its result, touch other builders, or pass a mutation of another type. A hook may abort, edit the mutation, pass another one, and reject after next succeeded.
* AccountCreateBulk.Save is called with distinct builders, distinct mutations, and none of them saved before.
* The default functions of time and JSON columns are values, one call each.
* A character is a Unicode scalar value, so the lone surrogates that a JSON string may hold have no counterpart; `str.lower` is taken to keep line breaks.
* The audit tool's argument parsing, file decoding, message texts, and the order in which its messages are printed; titles appear only where joining them can raise. A report value that is a JSON object has its members in file order.
* JoinTheorems.NestedLoopExactly: a limit or offset on a groups query of the tree is covered when its order terms decide every two selected groups or the database answers it group by group; otherwise the window cuts rows that nothing but the database determines, and only JoinTheorems.BatchShaped speaks of it.
* AuditExceptions.ParsePrinted: keys that the format cannot hold on a line of their own (empty, padded, with a colon, starting like a comment, an item or a header) are excluded, and so is writing a value bare that is padded or that stands in quotes itself.
