# Account persistence and audit gate: a verified model

This project models four pieces of the repository and proves what callers rely on.

* **The eager loader** (`backend/ent/account_query.go`). One query for the accounts, one batch per requested edge, and hash maps that stitch the rows back. What the batched run returns is stated for whole trees of nested account queries with limits and offsets anywhere, and so is the exact condition under which it is what one query per account and per edge would return.
* **The bulk create** (`backend/ent/account_create.go`). The mutator of every builder wraps its hooks around a body that calls the mutator of the next builder; only the innermost body inserts. Nesting, the round trip from builders to stored rows and back, and for each promise of a bulk save (nothing done without an insert, everything done after one, a truthful result, validated rows) exactly which hooks keep it.
* **The row codec and the query builder** (`backend/ent/account.go`, `account_query.go`). Scanning, assigning, creating and reading back; cloning trees of builders with the backing arrays of their slices; First/Only/Exist and their ID forms.
* **The audit gate** (`tools/check_pnpm_audit_exceptions.py`) and the **title rewrite** (`frontend/vite.config.ts`). Parser round trip for every style of quoting, the meaning of exit code 0 and of every line of the report in terms of record fields and calendar, what the verdict does and does not depend on; escaping, and when the rewrite is literal.

How the model is laid out:

* The database is a sequence of rows per table and per order a query may ask for; a query returns the rows that satisfy its predicates, in that order, cut by its limit and offset. Rows are unique by their primary keys. A batch insert succeeds as a whole or does nothing.
* In the loader, the nodes of one level are an `array<Account>` that the loaders update in place; a pointer to a node is its index. A neighbour is never written after its own query returned, so it is a value. The arbitrary iteration order of the inner Go map is a nondeterministic choice. `EagerBatch.Loaded` is what the batched run means, `EagerModel.Simple` is one query per account and per edge, and `EagerMeaning.RightNode` says in terms of the stored rows alone what a returned account must hold.
* A bulk save is a function from state to state (`BulkCreate.Mutate`, `BulkCreate.Body`) with a trace of events; class `BulkCreate.Run` is the imperative form over the slices of `Save`, proved to compute the same.
* The generated switches of an entity are tables: `AccountSchema.ACCOUNT` (column types), `AccountCreate.DEFAULTED` and `AccountCreate.CHECKS` (the order of defaults and checks). The codec and the bulk save are proved for every table and template, then used at the account entity.
* A builder tree is a tree of objects with a `Repr` set and a value `Tree` that `Valid` keeps equal to the fields. The slices that `Clone` copies are backing arrays with a length; appending writes into spare capacity.

What the proofs say about the code beyond its intent:

* A `Limit` or `Offset` on an edge query cuts the whole batch. `EagerAgree.TreeIff` gives the exact condition under which a tree is still loaded as one query per account would load it; `EagerLaws.LimitLosesAChild` and `EagerLaws.OffsetGivesASkippedChild` are the smallest database where it is not.
* A builder that is run twice, say for the next page, still carries the first run's identifiers in its proxy, parent, children, usage log and join entity queries, at every depth. `EagerRerun.SecondRunIff` says exactly when that shows; `EagerRerun.NextPageMissesAChild` is an input.
* When identifiers repeat among the nodes, only the last such node gets its to-many lists (`EagerLoad.AttachMany`, `EagerLaws.AgreesIffDistinct`); to-one edges are not affected.
* `BulkPromises.AllOrNothingIff` says exactly which hook stacks keep a bulk save all-or-nothing. A hook that hides an error on a later builder makes an earlier mutation look done (`BulkPromises.HiddenErrorMarksDone`); one that fails after the insert leaves rows in the table, an error, and only some mutations done (`BulkPromises.LateErrorSplitsTheBatch`).
* Bulk `Save` validates the builder's own mutation before it takes over the one its hooks handed on; `BulkPromises.ValidatedIff` says exactly when everything inserted was validated. The single `Save` copies first (`backend/ent/ent.go:583`).
* `Limit(0)`, and `Offset(0)` without a limit, mean nothing to an entity query and something to an ID query (`QueryVerdict.SameRowsIff`). An ID query leaves its selection behind, so a second one on the same builder fails (`QueryVerdict.IDs`).
* A site name whose dollar signs form replacement patterns is not inserted literally; `Branding.LiteralIffPlain` names exactly those.
* A vulnerability entry without a usable identifier never changes the verdict (`AuditFindings.VulnerabilityIgnoredIff`), while an advisory with a blank package or identifier always fails the gate, whatever is excepted (`AuditFindings.AdvisoryAlwaysFailsIff`).
* Records with distinct keys come back from the exception file they are printed to exactly when each has a field, keys are trimmed and without colon, no continuation key is a comment, header or dash key, and nothing contains a line break (`ExceptionLaws.TextRoundTripIff`).
* The tool itself fails on an audit exactly when the first usable title of some via item is a number (`AuditFindings.FindingsFailIff`).

`dafny verify dfyconfig.toml` checks the whole project.

## Model

| member | source | states |
|---|---|---|
| `EagerSqlAll.SqlAll` | backend/ent/account_query.go:550-625 | For every database, query tree, set of requested edges and limits and offsets at any depth, the run returns the accounts with their share of each batch as the batched meaning says, and leaves behind exactly the predicates its loads appended; no loader error can occur |
| `EagerMeaning.ReadAccounts` | backend/ent/account_query.go:550-625 | The accounts returned are one page of the stored rows that meet every predicate of the caller, in the order asked for; each holds the selected columns and, without windows on edges, at every depth exactly the neighbours the stored keys and links name, in the order of their queries |
| `EagerMeaning.AllRows` | backend/ent/account_query.go:881-902 | A query finds exactly the stored rows for which every Where condition holds and every key list has the key, each once, in table order; the result is the window on them |
| `EagerMeaning.WindowMeaning` | backend/ent/account_query.go:888-893 | Rows from the offset on, as many as the limit allows; zero is no limit and an offset alone brings one of 2^31 - 1 |
| `EagerMeaning.DecodeMeaning` | backend/ent/account_query.go:866-880 | A node holds all columns, or the selected ones, the identifier, and the keys its edges need |
| `EagerMeaning.NodeIsRight` | backend/ent/account_query.go:583-622 | One query per account and per edge gives every stored row the right node, by induction over the tree |
| `EagerMeaning.GroupsMeaning` | backend/ent/account_query.go:627-687 | The groups of an account are the stored ones that the query keeps and some link ties to it, each once, in query order |
| `EagerMeaning.LogsMeaning` | backend/ent/account_query.go:785-814 | The usage logs of an account are the stored ones with its identifier that the query keeps, in query order |
| `EagerMeaning.LinksMeaning` | backend/ent/account_query.go:815-844 | The same for its join entities |
| `EagerMeaning.ChildrenMeaning` | backend/ent/account_query.go:752-784 | The children of an account are the stored rows that name it as parent and meet the query, in query order |
| `EagerMeaning.ParentMeaning` | backend/ent/account_query.go:720-751 | The parent is the one stored row that meets the query and has the key, or none |
| `EagerAgree.SqlAllAgrees` | backend/ent/account_query.go:550-844 | The run returns exactly what one query per account and per edge returns if and only if every window in the tree is harmless, and always when no edge query carries a Limit or an Offset |
| `EagerAgree.TreeIff` | backend/ent/account_query.go:550-844 | A level and everything below it is loaded as one query per account would load it if and only if the limits and offsets of all edge queries are harmless on the rows they meet |
| `EagerAgree.ChildrenIff` | backend/ent/account_query.go:752-784 | What the children load hands to every account is what the account's own query returns if and only if the window on the batch is harmless and the level below agrees |
| `EagerAgree.ParentsIff` | backend/ent/account_query.go:720-751 | The same for the parent load |
| `EagerAgree.ProxiesIff` | backend/ent/account_query.go:688-719 | The same for the proxy load, which has no level below |
| `EagerAgree.LogsIff` | backend/ent/account_query.go:785-814 | The same for the usage log load |
| `EagerAgree.LinksIff` | backend/ent/account_query.go:815-844 | The same for the join entity load |
| `EagerJoin.GroupsIff` | backend/ent/account_query.go:627-687 | The same for the group load, where the window cuts the join of groups and links |
| `EagerJoin.TidyLinked` | backend/ent/account_query.go:661-685 | On join rows without repeated links and with the rows of a group together, fanning out decoded groups gives an account the groups of its own rows, in their order |
| `EagerJoin.FanOutOrderIff` | backend/ent/account_query.go:661-685 | Whatever the order of the join: an account is handed the groups of its own rows in their order if and only if those rows are in the order in which the groups first appear |
| `EagerWindow.WindowIff` | backend/ent/account_query.go:888-893 | For any limit and offset: every key gets from the one window what a window on its own rows would give it if and only if nothing is cut, everything is, or window and skipped rows have one key and no other key has more rows than are skipped |
| `EagerWindow.LimitAlone` | backend/ent/account_query.go:888-890 | A limit alone is harmless if and only if it is zero, cuts nothing, or one account has all the rows |
| `EagerWindow.OffsetAlone` | backend/ent/account_query.go:891-893 | An offset alone is harmless if and only if it is zero, skips everything, or one account has all the rows |
| `EagerWindow.HarmlessToOne` | backend/ent/account_query.go:888-893 | With one row per key only a window that cuts nothing or everything is harmless |
| `EagerLaws.LimitLosesAChild` | backend/ent/account_query.go:768-783 | Two accounts with one child each, Limit(1) on the children query: the second account loses its child |
| `EagerLaws.OffsetGivesASkippedChild` | backend/ent/account_query.go:768-783 | The same with Offset(1): it is handed the child its own query skips |
| `EagerRerun.SecondRunIff` | backend/ent/account_query.go:689-844 | A second run of the same tree, for any accounts, returns what a fresh builder would return if and only if every proxy, parent, children, usage log and join entity edge that the first run did not ask for is empty anyway; deeper levels add no condition |
| `EagerRerun.RunTwice` | backend/ent/account_query.go:550-844 | The same for two calls of the run, the second on the builder the first one left |
| `EagerRerun.SameAccountsAgain` | backend/ent/account_query.go:550-844 | A second run for accounts of the first one is right at every depth |
| `EagerRerun.EdgeTwice` | backend/ent/account_query.go:735-769 | An account edge query that was run before gives a key it was run for what it always gave, and any other key nothing |
| `EagerRerun.LeafTwice` | backend/ent/account_query.go:704-829 | The same for the edge queries without edges of their own |
| `EagerRerun.NextPageMissesAChild` | backend/ent/account_query.go:762-769 | The account of the second page loses the child it has |
| `EagerSqlAll.LoadGroups` | backend/ent/account_query.go:627-687 | Every account gets the groups that the returned join rows link to it, each once in order of first appearance; with repeated identifiers the last node gets them; never fails |
| `EagerSqlAll.LoadProxy` | backend/ent/account_query.go:688-719 | Every node, also with repeated identifiers, gets the returned proxy its key names, nothing otherwise; never fails |
| `EagerSqlAll.LoadParent` | backend/ent/account_query.go:720-751 | The same for the parent account, itself loaded with its own edges, whatever limit and offset the parent query carries |
| `EagerSqlAll.LoadChildren` | backend/ent/account_query.go:752-784 | Every account gets its children among the returned ones with their own edges, in query order; the key column joins an explicit selection, so the nil and unknown foreign-key errors cannot occur |
| `EagerSqlAll.LoadUsageLogs` | backend/ent/account_query.go:785-814 | Every account gets its usage logs among the returned ones, in query order; never fails |
| `EagerSqlAll.LoadAccountGroups` | backend/ent/account_query.go:815-844 | Every account gets its join entities among the returned ones, in query order; never fails |
| `EagerLoad.CollectKeys` | backend/ent/account_query.go:689-700 | The batch identifiers are the distinct non-nil keys in order of first appearance, and every bucket holds exactly the nodes with its key in node order |
| `EagerLoad.BucketMeaning` | backend/ent/account_query.go:699-699 | A position is in a bucket exactly when its node has that key, and positions increase |
| `EagerLoad.KeysMeaning` | backend/ent/account_query.go:696-698 | The batch asks for every key once and for nothing else |
| `EagerLoad.AttachOne` | backend/ent/account_query.go:709-718 | An error is returned exactly for a neighbour nobody asked for; otherwise every node received exactly the neighbours that match its key |
| `EagerLoad.IndexNodes` | backend/ent/account_query.go:753-761 | All identifiers are collected in order, every list is emptied, and an identifier leads to the last node that carries it |
| `EagerLoad.AttachMany` | backend/ent/account_query.go:772-783 | An error is returned exactly for a nil or unknown foreign key; otherwise the last node with an identifier holds all its neighbours in order and the others none |
| `EagerLoad.DecodeJoin` | backend/ent/account_query.go:661-670 | A group is decoded once, at its first appearance in the join, and waits for exactly the accounts some join row links to it |
| `EagerLoad.FanOut` | backend/ent/account_query.go:677-685 | Whatever order the inner map is ranged over, each waiting node gets each group once, in neighbour order; an unknown group is the only error |
| `EagerLoad.StitchGroups` | backend/ent/account_query.go:650-686 | For any join rows over the loaded accounts, with repeats, every account gets each linked group once in order of first appearance, and the unexpected-node error is unreachable |
| `EagerLoad.FirstGroupsMeaning` | backend/ent/account_query.go:664-670 | The decoded groups are exactly the groups of the join, no identifier twice |
| `EagerLoad.LinkedInMeaning` | backend/ent/account_query.go:677-685 | A list holds exactly the groups linked to the account, each once |
| `EagerSplit.SplitSelect` | backend/ent/account_query.go:736-737 | Picking one key out of the rows of a batch is asking for that key alone |
| `EagerSplit.SplitBatch` | backend/ent/account_query.go:798-801 | The same for the rows of the other edge tables |
| `EagerSplit.SplitJoin` | backend/ent/account_query.go:638-646 | What the joined batch gives one account is what a join for that account alone gives |
| `EagerSplit.KeysAreSelected` | backend/ent/account_query.go:866-880 | The key column of a requested edge is fetched whatever columns the caller selected |
| `EagerLaws.BuildColumns` | backend/ent/account_query.go:866-880 | The column loop computes the specified column list |
| `EagerLaws.ColumnsMeaning` | backend/ent/account_query.go:866-880 | The identifier comes first and once; the rest is exactly the selected fields and the keys the edges need |
| `EagerLaws.BucketsPartition` | backend/ent/account_query.go:690-700 | Every node with a key is in its own bucket once and in no other; a node without one is in none |
| `EagerLaws.RowsConserved` | backend/ent/account_query.go:772-782 | The lengths of all attached lists add up to the number of returned rows, also with repeated identifiers |
| `EagerLaws.AgreesIffDistinct` | backend/ent/account_query.go:754-757 | The batched lists are the per-account ones for every batch exactly when no identifier repeats |
| `EagerLaws.ProxyTrichotomy` | backend/ent/account.go:118-127 | After a load, with any limit and offset: the entity iff requested and a matching row was returned, NotFound iff requested and none was, NotLoaded iff not requested, whatever fields were selected |
| `EagerLaws.StoredProxyDecides` | backend/ent/account.go:118-127 | Without a window on the proxy query: the entity iff the stored row its key names is kept by the query, NotFound iff there is none |
| `EagerLaws.ParentTrichotomy` | backend/ent/account.go:129-138 | The same for the parent edge; the entity is the loaded node of the returned row |
| `EagerLaws.StoredParentDecides` | backend/ent/account.go:129-138 | Without a window on the parent query: NotFound iff no stored row that satisfies the query has the key |
| `BulkCreate.SaveBulk` | backend/ent/account_create.go:2095-2152 | The imperative save returns exactly what the run says |
| `BulkCreate.Run.constructor` | backend/ent/account_create.go:2099-2105 | Empty slices and every mutation with its defaults |
| `BulkCreate.Run.CallMutator` | backend/ent/account_create.go:2140-2143 | Running a mutator from any hook inwards changes the slices, flags and trace exactly as the run says |
| `BulkCreate.Run.CallBody` | backend/ent/account_create.go:2106-2139 | The same for the innermost function of a builder |
| `BulkCreate.Run.CallBatch` | backend/ent/account_create.go:2120-2127 | The batch gets the collected specs; constraint errors are wrapped |
| `BulkLaws.NestedMutate` | backend/ent/account_create.go:2102-2151 | With forwarding hooks the run from any hook of any builder is its way in, the batch if all checks passed, and the way in undone in reverse |
| `BulkLaws.BulkSaveNested` | backend/ent/account_create.go:2095-2152 | For all builders and hook counts: perfectly nested trace; one batch call iff there are builders and all checks pass, with spec j of builder j in place j; success iff the batch succeeded, and then node j with its identifier in place j; all mutations done after success and none after a failed check or batch |
| `BulkLaws.BulkSaveErrors` | backend/ent/account_create.go:2111-2131 | With forwarding hooks: success iff all checks pass and the batch goes through; a constraint error iff the checks pass and the batch violates a constraint, any other driver error iff it fails otherwise, each with its message; a validation error iff some check fails |
| `BulkLaws.BulkSaveValidation` | backend/ent/account_create.go:2111-2113 | The validation error is that of the first builder whose check fails |
| `BulkLaws.BulkSaveTrivial` | backend/ent/account_create.go:2096-2098 | A broken builder returns its error and an empty save nothing, without running anything |
| `BulkHooks.AnyBulkSave` | backend/ent/account_create.go:2106-2151 | For any stacks of the six modelled kinds of hook: at most one batch call; it happens exactly when there are builders, every check passes and no hook blocks; it carries for each builder the spec of the mutation its hooks handed on |
| `BulkHooks.AnyMutate` | backend/ent/account_create.go:2106-2143 | The same from any hook of any builder inwards, and every done mutation was marked in the trace |
| `BulkPromises.HonestMutate` | backend/ent/account_create.go:2129-2138 | Without reachable masking stacks further in, every done mutation is backed by a batch that went through |
| `BulkPromises.MaskedMutate` | backend/ent/account_create.go:2117-2138 | The builder just outside a reachable masking stack is marked done in any case |
| `BulkPromises.LoyalMutate` | backend/ent/account_create.go:2117-2138 | With nothing in the way, passing checks and an insert, the builders inwards are done unless a stack further in fails afterwards |
| `BulkPromises.FailedMutate` | backend/ent/account_create.go:2117-2138 | The builder just outside a stack that fails afterwards is not marked done, in any case |
| `BulkPromises.NothingIffHonest` | backend/ent/account_create.go:2129-2138 | No mutation is done without an insert, for every entity, input and outcome, exactly when no reachable stack after the first builder has hiding errors as its outermost opinion |
| `BulkPromises.AllIffLoyal` | backend/ent/account_create.go:2129-2138 | Every mutation is done after an insert, for every entity, input and outcome, exactly when some hook blocks or no stack after the first has failing afterwards as its outermost opinion |
| `BulkPromises.AllOrNothingIff` | backend/ent/account_create.go:2095-2152 | All done and inserted, or none done and nothing inserted, for every entity, input and outcome, exactly under both conditions |
| `BulkPromises.OpinionDecides` | backend/ent/account_create.go:2140-2149 | Without a hook of its own opinion the batch decides the result; otherwise the outermost opinion does |
| `BulkPromises.TruthfulIff` | backend/ent/account_create.go:2140-2149 | Success is returned exactly when rows were inserted, for every entity, input and outcome, exactly when no hook has an opinion, or the outermost opinion is an error and some hook keeps the batch from being called |
| `BulkPromises.HiddenErrorMarksDone` | backend/ent/account_create.go:2118-2137 | Two builders, an error-hiding hook on the second, a refused batch: success is reported and the first mutation is done |
| `BulkPromises.LateErrorSplitsTheBatch` | backend/ent/account_create.go:2118-2137 | Two builders, a hook on the second that fails afterwards: rows inserted, an error returned, the second mutation done and the first not |
| `BulkPromises.ValidatedIff` | backend/ent/account_create.go:2111-2116 | Every batch carries only mutations that pass the check, for every entity, input and outcome, exactly when some hook blocks or no hook replaces the mutation |
| `BulkPromises.ReplacedMutationIsNotChecked` | backend/ent/account_create.go:2111-2116 | One builder, one replacing hook: the batch carries a mutation that fails the check |
| `AccountCreate.DefaultsMeaning` | backend/ent/account_create.go:527-585 | Defaults keep set fields, fill gaps with the column's own default, fill all on success, and leave the uninitialised column unset on failure |
| `AccountCreate.DefaultsByName` | backend/ent/account_create.go:527-585 | Successful defaults set exactly the eleven named columns that were unset, each to its own default |
| `AccountCreate.DefaultsStop` | backend/ent/account_create.go:527-585 | When a default is uninitialised, everything before it was filled and nothing after it |
| `AccountCreate.CheckMeaning` | backend/ent/account_create.go:588-662 | The check passes iff every step passes, and reports the first step that does not |
| `AccountCreate.CheckByName` | backend/ent/account_create.go:588-662 | The check passes iff the fourteen named columns are set and the six validated ones are valid |
| `AccountCreate.CheckReportsFirst` | backend/ent/account_create.go:588-662 | The column reported is the first one in table order that is missing or invalid |
| `AccountCreate.DroppedDefaultsErrorIsCaught` | backend/ent/account_create.go:2104-2113 | If defaults fail, the check on the resulting mutation fails |
| `AccountCreate.OnlyThreeCanBeMissing` | backend/ent/account_create.go:588-662 | After successful defaults only name, platform and type can be reported missing |
| `AccountEntity.FailedDefaultsStopTheBatch` | backend/ent/account_create.go:2104-2113 | If defaults fail for any builder, no batch call is made and nothing is created |
| `AccountEntity.SavedAccountsReadBack` | backend/ent/account_create.go:2095-2152 | With forwarding hooks, passing checks and an insert: Save returns one node per builder and every mutation is done with its identifier; one batch carried one spec per builder; reading the row of spec j gives node j in every column: the values the builder set, its defaults, zero elsewhere, and the identifier |
| `AccountEntity.DefaultsKeepTypes` | backend/ent/account_create.go:527-585 | Defaults keep a mutation well typed |
| `AccountSchema.AccountSchemaIsKnown` | backend/ent/account/account.go:132-165 | The type table covers exactly the columns of the table |
| `AccountSchema.AccountPointers` | backend/ent/account.go:21-87 | Exactly the seventeen pointer fields of the struct are nillable |
| `AccountSchema.AccountKinds` | backend/ent/account.go:168-177 | Which columns are JSON, boolean and floating point |
| `AccountSchema.AccountIntegers` | backend/ent/account.go:178-179 | Which columns are integers |
| `AccountSchema.AccountStrings` | backend/ent/account.go:180-181 | Which columns are strings; the rest are times |
| `AccountSchema.AccountZeroValues` | backend/ent/account.go:21-87 | What an account holds in a column that nobody set |
| `RowCodec.ScanValues` | backend/ent/account.go:168-189 | One empty destination of the column's type per column |
| `RowCodec.Entity.AssignValues` | backend/ent/account.go:193-417 | Too few values fail and change nothing; otherwise the node and error are those of assigning column by column until the first error |
| `RowCodec.NeverTypeError` | backend/ent/account.go:193-417 | For every column list, assigning scanned destinations fails on neither length nor type, and succeeds iff every JSON text parses |
| `RowCodec.AssignJson` | backend/ent/account.go:249-264 | A JSON null clears the field of any node, an object joins the one there, no text changes nothing, and a text that does not parse is an error |
| `RowCodec.ReadsEveryCell` | backend/ent/account.go:193-417 | With distinct columns every field of a fresh node is its decoded cell, and the zero value without a column or with NULL; other names are kept aside |
| `RowCodec.OrderIrrelevant` | backend/ent/account.go:197-415 | The order of distinct columns changes neither success nor any field |
| `RowCodec.BuildSpec` | backend/ent/account_create.go:682-891 | Field after field and edge after edge, the loop builds the node and the row of the specification side by side |
| `RowCodec.CreateMeaning` | backend/ent/account_create.go:682-891 | Node and row both hold what the mutation sets: the stored cell of a set column decodes to the value and the node has it; every other column but the identifier is NULL and zero |
| `RowCodec.CreateThenRead` | backend/ent/account_create.go:682-891 | For every schema and mutation the node built by createSpec equals the node read back from the row the spec describes, foreign keys and unset fields included |
| `QueryBuilder.Append` | backend/ent/account_query.go:43-46 | The items of the slice followed by the new ones, in the same array if there is room and in a new one otherwise |
| `QueryBuilder.CopySlices` | backend/ent/account_query.go:394-397 | The copies hold the same items in new arrays of their own |
| `QueryBuilder.SharedArrayOverwrites` | backend/ent/account_query.go:394-397 | Two slices on one array with room: the second append replaces what the first added, which is why Clone copies |
| `QueryBuilder.Query.Clone` | backend/ent/account_query.go:388-408 | A tree of entirely new objects, backing arrays included, that says the same, with no modifiers at any level |
| `QueryBuilder.UnmodifiedMeaning` | backend/ent/account_query.go:388-408 | At every path of edges a clone has a builder iff the original has one, equal in context, order, interceptors, predicates, selector and path, and without modifiers |
| `QueryBuilder.Query.CloneEdges` | backend/ent/account_query.go:398-403 | The copies of the edge builders are new and mutually separate |
| `QueryBuilder.Query.ApplyHere` | backend/ent/account_query.go:43-72 | Where, Order, Limit, Offset, Unique, Select and the locking calls change this builder, its context and its own arrays only, as specified |
| `QueryBuilder.Query.ApplyWith` | backend/ent/account_query.go:410-474 | A new empty builder under the edge, nothing else changes |
| `QueryBuilder.Query.Apply` | backend/ent/account_query.go:410-474 | A call at any depth of the tree changes exactly that builder |
| `QueryBuilder.LastLimitWins` | backend/ent/account_query.go:48-52 | After any calls the limit is that of the last Limit call, or what it was |
| `QueryBuilder.LastOffsetWins` | backend/ent/account_query.go:54-58 | The same for the offset |
| `QueryBuilder.LastUniqueWins` | backend/ent/account_query.go:60-65 | The same for uniqueness, which a lock on PostgreSQL switches off |
| `QueryBuilder.WheresAddUp` | backend/ent/account_query.go:43-46 | After any calls the predicates are the old ones and those of all Where calls in order |
| `QueryBuilder.OrdersAddUp` | backend/ent/account_query.go:67-70 | The same for the order |
| `QueryBuilder.SelectsAddUp` | backend/ent/account_query.go:511-517 | The same for the selected fields |
| `QueryBuilder.LocksAddUp` | backend/ent/account_query.go:942-963 | The same for the modifiers of the locking calls |
| `QueryBuilder.CloneAndDiverge` | backend/ent/account_query.go:386-408 | After a clone, any calls on either tree at any depth, appends into spare capacity included, never show in the other |
| `QueryVerdict.IDs` | backend/ent/account_query.go:326-335 | The identifier column, or a scan error after an earlier Select, and exactly what stays behind in the context |
| `QueryVerdict.First` | backend/ent/account_query.go:208-217 | One fetched row decides like the unlimited result; the limit stays behind |
| `QueryVerdict.Only` | backend/ent/account_query.go:254-267 | Two fetched rows decide like the unlimited result; the limit stays behind |
| `QueryVerdict.FirstID` | backend/ent/account_query.go:230-240 | The identifier of what First answers, also on traversals with repeated rows; a scan error after an earlier Select |
| `QueryVerdict.OnlyID` | backend/ent/account_query.go:281-295 | The identifier of what Only answers, also on traversals with repeated rows; a scan error after an earlier Select |
| `QueryVerdict.Exist` | backend/ent/account_query.go:365-375 | True iff the unlimited result has a row; a scan error after an earlier Select |
| `QueryVerdict.DistinctIds` | backend/ent/account_query.go:327-331 | The identifiers of the distinct rows are the distinct identifiers |
| `QueryVerdict.DistinctMeaning` | backend/ent/account_query.go:326-331 | Distinct rows are all rows, each once, in the order of first occurrence |
| `QueryVerdict.UnlimitedMeaning` | backend/ent/account_query.go:858-893 | The unlimited result is all rows, or each once if asked for or by default on a traversal, from the offset on |
| `QueryVerdict.CutMeaning` | backend/ent/account_query.go:926-933 | A page is the rows from the offset on, as many as the limit allows |
| `QueryVerdict.SameRowsIff` | backend/ent/account_query.go:858-937 | Entity and ID queries see the same rows of every table, traversals included, exactly when neither Limit(0) nor Offset(0) without a limit was called |
| `PyText.StripMeaning` | tools/check_pnpm_audit_exceptions.py:29-29 | strip returns a trimmed string and leaves exactly the trimmed strings alone |
| `PyText.StripExact` | tools/check_pnpm_audit_exceptions.py:29-29 | strip takes away white space at both ends and nothing else |
| `PyText.AsciiSpaces` | tools/check_pnpm_audit_exceptions.py:29-29 | Which ASCII characters are white space |
| `PyText.UnicodeSpaces` | tools/check_pnpm_audit_exceptions.py:29-29 | Which other characters are |
| `ExceptionParser.ParseExceptions` | tools/check_pnpm_audit_exceptions.py:23-48 | The loop computes the specified parse, the ValueError of a line without a colon included |
| `ExceptionParser.UnquoteMeaning` | tools/check_pnpm_audit_exceptions.py:16-20 | A value that does not start and end with the same quote stays as it is; otherwise one pair is taken off, whatever is inside |
| `ExceptionParser.SplitAt` | tools/check_pnpm_audit_exceptions.py:12-20 | A line is cut at its first colon, both parts are stripped and the second is unquoted |
| `ExceptionParser.SplitFailsIff` | tools/check_pnpm_audit_exceptions.py:14-14 | Splitting raises exactly on a line without a colon |
| `ExceptionParser.SplitPrintedField` | tools/check_pnpm_audit_exceptions.py:12-20 | A printed field splits into its key and value whatever quotes and colons the value holds |
| `ExceptionParser.NoiseChangesNothing` | tools/check_pnpm_audit_exceptions.py:29-33 | Blank, comment and header lines and surrounding white space anywhere change nothing |
| `ExceptionParser.RoundTrip` | tools/check_pnpm_audit_exceptions.py:23-48 | Lines that amount to the printed records parse to exactly the records |
| `ExceptionParser.TextRoundTrip` | tools/check_pnpm_audit_exceptions.py:23-48 | The same for the text of the file, for newline-free records |
| `ExceptionStyles.StyledRoundTrip` | tools/check_pnpm_audit_exceptions.py:12-48 | A file whose values are bare, single-quoted or double-quoted in any mix reads back as its records |
| `ExceptionStyles.BareEntry` | tools/check_pnpm_audit_exceptions.py:12-48 | An entry with bare package and severity and a quoted advisory reads back, for all such values |
| `ExceptionLaws.ParseFailsIff` | tools/check_pnpm_audit_exceptions.py:34-42 | The parser raises exactly when some line that starts a record has text without a colon |
| `ExceptionLaws.LineEndings` | tools/check_pnpm_audit_exceptions.py:27-28 | A line ends at a line feed, a carriage return, or the two together |
| `ExceptionLaws.HearsAll` | tools/check_pnpm_audit_exceptions.py:23-48 | What the parser makes of any printed list with good keys: it never fails, grows exactly when a continuation key starts with a dash, and otherwise loses exactly the fields with comment or header keys |
| `ExceptionLaws.RoundTripIff` | tools/check_pnpm_audit_exceptions.py:28-48 | On the printed lines: records with good, distinct keys come back if and only if no continuation key is a comment, header or dash key |
| `ExceptionLaws.TextRoundTripIff` | tools/check_pnpm_audit_exceptions.py:23-48 | Through the file: records with distinct keys come back if and only if each has a field, keys are trimmed and without colon, no continuation key is reserved, and no key or value contains a line break |
| `ExceptionLaws.FileIsParsed` | tools/check_pnpm_audit_exceptions.py:12-48 | Whatever the file holds, a parsed record is not empty, its keys are trimmed and without colon, and nothing in it contains a line break |
| `ExceptionLaws.BrokenValueIsLost` | tools/check_pnpm_audit_exceptions.py:27-29 | A value with a line break does not come back |
| `ExceptionLaws.MutedFieldIsLost` | tools/check_pnpm_audit_exceptions.py:30-33 | A comment or header key on a continuation line: the field does not come back |
| `ExceptionLaws.DashedFieldSplits` | tools/check_pnpm_audit_exceptions.py:34-42 | A dash key on a continuation line: more than one record comes back |
| `AuditGate.BuildIndex` | tools/check_pnpm_audit_exceptions.py:152-185 | The loop computes the specified index and errors |
| `AuditGate.Gate` | tools/check_pnpm_audit_exceptions.py:187-243 | The loop computes the specified errors, missing and expired findings in order; the code is 0 iff there are none |
| `AuditLaws.IndexMeaning` | tools/check_pnpm_audit_exceptions.py:156-185 | No error iff all exceptions are complete, dated and unique by normalised key, and then the index is exactly the exceptions |
| `AuditLaws.ScanMeaning` | tools/check_pnpm_audit_exceptions.py:191-219 | The deduplicating scan complains about nothing iff every named high or critical finding has an identifier and every first one meets a fine entry |
| `AuditLaws.GateMeaning` | tools/check_pnpm_audit_exceptions.py:142-243 | Exit code 0 iff the exceptions are sound, every relevant finding has an identifier, and every first finding has an unexpired exception whose severity, unless empty, matches it |
| `AuditMeaning.ExitsZeroIff` | tools/check_pnpm_audit_exceptions.py:142-243 | Exit code 0, by record fields and calendar alone: all five fields of every exception filled, its date a date, package and advisory not blank and not repeated; every named high or critical finding has an advisory; and each first one an exception for its package and advisory whose date is not past and whose severity is blank or its own |
| `AuditMeaning.ExpiredFails` | tools/check_pnpm_audit_exceptions.py:216-219 | A high finding whose exception has expired fails the gate, whatever else the file holds |
| `AuditMeaning.ReportMeaning` | tools/check_pnpm_audit_exceptions.py:191-219 | Which findings are listed as missing, as expired, as mismatched with which severity, and as lacking an advisory |
| `AuditMeaning.FaultWords` | tools/check_pnpm_audit_exceptions.py:156-176 | A record is faulted for missing fields, else for its date, else for a blank key |
| `AuditMeaning.FaultsAreReported` | tools/check_pnpm_audit_exceptions.py:156-176 | Every faulty record is reported and no other |
| `AuditMeaning.RepeatsAreReported` | tools/check_pnpm_audit_exceptions.py:177-181 | A repeated package and advisory is reported exactly when two sound records carry it |
| `AuditLaws.ExceptionOrderIrrelevant` | tools/check_pnpm_audit_exceptions.py:156-185 | The verdict is the same for every permutation of the exceptions |
| `AuditLaws.RepetitionIrrelevant` | tools/check_pnpm_audit_exceptions.py:204-206 | Repeating a finding anywhere after it does not change the verdict |
| `AuditLaws.FindingOrderIrrelevant` | tools/check_pnpm_audit_exceptions.py:193-219 | The verdict depends only on the set of findings when no key carries two high severities |
| `AuditLaws.OrderMattersIffConflict` | tools/check_pnpm_audit_exceptions.py:203-216 | The order of two findings with one key matters to some exceptions exactly when their severities differ |
| `AuditLaws.ExceptionForCovers` | tools/check_pnpm_audit_exceptions.py:156-185 | For every relevant finding with a package and an identifier some sound exception covers it |
| `AuditLaws.BlankIsNeverClean` | tools/check_pnpm_audit_exceptions.py:170-219 | A relevant finding with a blank package or identifier fails the gate whatever is excepted |
| `AuditLaws.LowSeverityNeverMasks` | tools/check_pnpm_audit_exceptions.py:194-196 | Dropping all findings of lower severity changes no line of the report |
| `AuditFindings.IterVulns` | tools/check_pnpm_audit_exceptions.py:64-111 | The generator yields the specified findings; a title that is not a string raises |
| `AuditFindings.FindingsMeaning` | tools/check_pnpm_audit_exceptions.py:64-111 | The findings are those of every advisory and of every vulnerability entry, and no others |
| `AuditFindings.AdvisoryIdMeaning` | tools/check_pnpm_audit_exceptions.py:51-61 | The identifier of an advisory is the first usable of github_advisory_id, url, first CVE, id, title, advisory and overview |
| `AuditFindings.AdvisoryFindingMeaning` | tools/check_pnpm_audit_exceptions.py:68-79 | Package, severity, identifier and title of an advisory, each the first usable candidate in order |
| `AuditFindings.VulnerabilityFindingsMeaning` | tools/check_pnpm_audit_exceptions.py:82-111 | One finding per usable identifier that a via item offers, the first usable of github_advisory_id, url, source, title and name |
| `AuditFindings.ItemTitlesMeaning` | tools/check_pnpm_audit_exceptions.py:99-107 | The title of a via item is the first usable of title, url, advisory and source |
| `AuditFindings.JoinMeaning` | tools/check_pnpm_audit_exceptions.py:109-109 | Titles are joined with a semicolon and a space |
| `AuditFindings.FindingsFailIff` | tools/check_pnpm_audit_exceptions.py:86-109 | Listing the findings raises exactly when some via item has a number as the first usable one of title, url, advisory and source |
| `AuditFindings.CheckAudit` | tools/check_pnpm_audit_exceptions.py:142-243 | From exception text and audit to the exit code: 0 iff the parsed exceptions excuse the listed findings, in plain words |
| `AuditFindings.AdvisoryAlwaysFailsIff` | tools/check_pnpm_audit_exceptions.py:67-79 | An advisory fails the gate in every audit and with any exceptions exactly when it is of high severity, has a name, and its package or identifier is blank |
| `AuditFindings.VulnerabilityIgnoredIff` | tools/check_pnpm_audit_exceptions.py:81-111 | Adding a vulnerability entry never changes the verdict, for every audit and all exceptions, exactly when it is of lower severity, has no name, or nothing in its via can serve as an identifier |
| `Branding.UnescapeEscape` | frontend/vite.config.ts:6-14 | Decoding the five entities of an escaped string gives the string back |
| `Branding.EscapedIsInert` | frontend/vite.config.ts:6-14 | Escaped text holds no angle bracket and no quote |
| `Branding.FindMeaning` | frontend/vite.config.ts:33-36 | The search finds the first position where a title stands, or none stands anywhere |
| `Branding.TitleMeaning` | frontend/vite.config.ts:33-34 | A match is exactly an opening title tag in any case, text without a tag, and a closing one |
| `Branding.ExpandMeaning` | frontend/vite.config.ts:33-36 | What the four replacement patterns stand for; every other character stands for itself |
| `Branding.EscapeMeaning` | frontend/vite.config.ts:6-14 | Each character is escaped on its own, the five to their entities and no other |
| `Branding.InjectMeaning` | frontend/vite.config.ts:29-37 | For such names the first title becomes the escaped name with its suffix and the rest of the page stays |
| `Branding.InjectNothing` | frontend/vite.config.ts:32-37 | Without a title or without a name the page stays as it is |
| `Branding.LiteralIffPlain` | frontend/vite.config.ts:29-37 | The rewrite inserts exactly the branded title on every page iff no dollar sign of the name makes a replacement pattern |
| `Branding.RewriteIsIdempotent` | frontend/vite.config.ts:29-37 | For such names everything outside the first title stays, the branded title is the first one afterwards, and rewriting again does nothing |

## Left out

- EagerSqlAll.SqlAll: failing queries, interceptors that rewrite results and negative limits are not modelled.
- EagerRerun.SecondRunIff: trees with a groups query or with limits and offsets on edge queries are excluded; a groups query that is run again joins and selects a second time, which is outside the model. The database is the same in both runs.
- EagerSqlAll.LoadGroups: links are joined in one order per group, and the theorems hold for every such order; edges below groups, proxies, usage logs and join entities, and field selection on those four queries, are not modelled.
- BulkCreate.Mutate: a hook is of one of six kinds; hooks that call the mutator they wrap more than once, or change a mutation in place, are not modelled, and the laws in BulkHooks and BulkPromises say nothing about them.
- RowCodec.CreateThenRead: the branches per column are one table-driven step; many-to-many and one-to-many edge specs, conflict options, database column defaults, and the precision of stored times and floats are not modelled.
- QueryVerdict.FirstID: that scanning more than one column into identifiers fails is taken from the library that does it, outside the repository.
- QueryBuilder.Query.Clone: modifiers are a sequence, since Clone never carries them over, and so are the fields of the context, whose own copy is made outside the repository; the selector and the path are opaque values.
- AuditGate.Gate: the wording of the messages; str.lower, date parsing and number formatting are parameters, so every law holds for any such functions.
- ExceptionParser.Lines: decoding of bytes is not modelled.
- Branding.InjectTitle: trimming of the name, the icon link step and the URL check are not modelled.
- Update, delete and upsert builders, GroupBy and aggregation, Count, and the panicking X variants: settled by reading one branch or by code outside the repository.
- The gateway, scheduler, billing and payment services are not part of this model.
