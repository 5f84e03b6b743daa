# Proofs about the bridge application

A Dafny model of the algorithms and lock protocols that this application adds around its broker
library, with proofs of what they keep, compute and undo. Objects that the program updates in place
are classes here, and their methods are proved against functions on values; protocols whose steps
interleave are state machines, and their theorems are about every run.

| file | what it models |
|---|---|
| `CivilDate.dfy` | the build time as a calendar date (RFC 3339, section 5.7 and Appendix C) |
| `PathTrie.dfy`, `PathTrieHeap.dfy`, `PathTree.dfy`, `PathTreeLaws.dfy`, `BucketTree.dfy`, `Sorting.dfy`, `SortOrder.dfy` | the path trie behind an HTTP bucket of the sidebar: its objects, the tree they stand for, and the groups made of it |
| `PathSegments.dfy`, `Sidebar.dfy`, `SidebarLaws.dfy`, `ConsumerSidebar.dfy` | the segments of a path, and the buckets and trees of publishers and consumers |
| `SchemaFields.dfy` | collecting the fields of a schema with cyclic references |
| `UniqueNames.dfy`, `ConfigMigration.dfy`, `ConfigMigrationLaws.dfy`, `RouteDelivery.dfy`, `RouteTargets.dfy` | migrating legacy routes to consumers and publishers, and where those deliver |
| `RouteLifecycle.dfy` | starting and stopping named routes |
| `Throughput.dfy`, `RouteMetrics.dfy`, `MessageCapture.dfy` | smoothed rates, counters against the background sampler, the buffer of the last messages |
| `CopyPipeline.dfy`, `CheckpointIdentity.dfy` | the wrappers of a copy and the canonical form of its definition |
| `Records.dfy`, `EndpointDefaults.dfy`, `EndpointDefaultsLaws.dfy`, `EndpointNormalizer.dfy`, `EndpointMeaning.dfy` | the endpoint normaliser of the user interface |
| `ShellQuote.dfy` | quoting, read back by the rules of the Shell Command Language, IEEE Std 1003.1, sections 2.2.1 to 2.2.3, 2.3 and 2.6.7 |
| `StatusLease.dfy` | the lease file of an instance and the listings of its peers |
| `SavedConsumers.dfy`, `CollectorRoutes.dfy`, `RouteKeys.dfy` | the routes of consumers under start, stop, update and completion, and the keys in their names |
| `Options.dfy`, `Json.dfy`, `Text.dfy` | optional values, JSON values, strings |

`dafny verify dfyconfig.toml` covers all of them.

What is not known of the environment is a parameter: the clock, the outcome of starting a route or
saving a file, the order in which a hash map is drained, generated ids (a function whose values are
all different, clean and unused), the collation of strings (a rank), the removal of a password from a
URL (an idempotent function), the exponential (a positive, multiplicative decay).

Where a promise does not hold of the code, the model keeps the code and a lemma shows the failure
beside the exact condition:

- an endpoint kind with a colon can share the bucket id of an HTTP endpoint and vanish from the sidebar
  (`SidebarLaws.ColonLosesLeaf`, `SidebarLaws.NothingIsLost`);
- publisher ids are trimmed when looked up but compared as they are when stored, so an id with blanks
  around it can lead elsewhere, and a repeated id is replaced after a route has come to refer to it
  (`RouteTargets.SpacedIdMisleads`, `RouteTargets.SharedIdMisleads`, `RouteTargets.RouteKeepsItsOutput`);
- a name restarted before its stop returns can lose its counter
  (`RouteLifecycle.RestartDuringStopLosesTheCounter`, `RouteLifecycle.CounterIsLostExactly`);
- two concurrent writers can drop a newer message than one they keep
  (`MessageCapture.InterleavingCanLoseANewerMessage`, `MessageCapture.OverlapKeepsTheLastExactly`);
- the comment on stripping says that endpoint objects are left alone; nested ones are not
  (`CheckpointIdentity.NestedNullEndpointLosesItsTag`, `CheckpointIdentity.NullFieldIsAbsent`);
- a doubly nested root or a fan-out that is no list does not normalise at once
  (`EndpointDefaultsLaws.DoubleRootDoesNotSettle`, `EndpointDefaultsLaws.IdempotentExactly`);
- a removal error leaves the lease after the release
  (`StatusLease.FailedRemovalLeavesTheLease`, `StatusLease.AbsentAfterRelease`);
- an update compares consumers but not the publishers they refer to
  (`CollectorRoutes.PublisherChangeGoesUnnoticed`, `CollectorRoutes.UpdateDeliversWhereSaved`);
- a start can outlive an update and run a consumer that is no longer saved
  (`CollectorRoutes.StartCanOutliveAnUpdate`, `CollectorRoutes.RunsAgreeExactly`);
- a timing read while its key is forgotten and registered anew joins the old count with the new start
  (`RouteMetrics.MixedTiming`, `RouteMetrics.TimingIsOfTheFirstReadExactly`);
- a foreign route name can make the decoding of keys panic
  (`RouteKeys.AccentedNamePanics`, `RouteKeys.DecodePanicsExactly`).

The two special cases of the sidebar transformation, flattening a single descendant and collapsing a
lone group at the root, turn out never to apply after the common prefix has been stripped
(`SidebarLaws.HttpBucketIsTidy`).

## Model
| member | source | states |
|---|---|---|
| CivilDate.YearOfEraBrackets | crates/cli/build.rs:109-112 | the year of the era lies in 0..399 and its March-based day of year in 0..365, 365 only before a leap year |
| CivilDate.MonthOfDay | crates/cli/build.rs:113-115 | the month and day formulas name the month that holds the day of the year |
| CivilDate.CivilDateIsCorrect | crates/cli/build.rs:104-116 | for every day number, also negative, the date is valid and its day number, counted year by year and month by month, is the one given |
| CivilDate.CivilDateIsUnique | crates/cli/build.rs:104-116 | every valid date is what the algorithm gives for its day number, so no other date could be meant |
| CivilDate.NextDateIsNextNumber | crates/cli/build.rs:104-116 | the calendar successor of a valid date is valid and one day number later |
| CivilDate.ConsecutiveDays | crates/cli/build.rs:104-116 | consecutive day numbers give calendar successors |
| CivilDate.DayNumberIsMonotone | crates/cli/build.rs:104-116 | earlier dates have smaller day numbers |
| CivilDate.BuildTimeIsCorrect | crates/cli/build.rs:104-117 | a timestamp is the build time of `secs` if and only if date and time are valid and it is `secs` seconds from the epoch, for every integer |
| PathTrie.InsertAddsOne | ui/src/lib/grouping-utils.ts:258-276 | inserting a leaf adds exactly that leaf at exactly its path and changes no other |
| PathTrie.InsertKeepsGrown | ui/src/lib/grouping-utils.ts:263-276 | the unstated invariant: segments among siblings differ, keys spell paths, and every node below the root has a leaf below it |
| PathTrie.CountIsSize | ui/src/lib/grouping-utils.ts:171-173 | the leaf count is the number of leaves the trie holds |
| PathTrieHeap.GraftIsInvisible | ui/src/lib/grouping-utils.ts:268-272 | hanging an empty node on the path of a coming leaf does not change what inserting that leaf gives |
| PathTrieHeap.PushIsInsert | ui/src/lib/grouping-utils.ts:276 | pushing a leaf on an object is an insertion in the tree the objects stand for, seen from every ancestor |
| PathTrieHeap.GroupBucket.AddLeaf | ui/src/lib/publisher-grouping.ts:154-163 | the bucket has the leaf appended and is otherwise unchanged |
| PathTrieHeap.GroupBucket.Step | ui/src/lib/grouping-utils.ts:266-274 | one turn of the descent ends at the child for the segment, made if missing, and leaves the outcome of the insertion as it was |
| PathTrieHeap.GroupBucket.NodeForPath | ui/src/lib/grouping-utils.ts:263-274 | the descent ends at the node of the path, and inserting there is inserting in the tree before |
| PathTrieHeap.GroupBucket.AddHttpLeaf | ui/src/lib/grouping-utils.ts:244-277 | the objects updated in place stand for the old tree with the leaf inserted; the path is recorded if the bucket records paths; a missing root is made |
| PathTrieHeap.GroupBucket.ReadTree | ui/src/lib/grouping-utils.ts:339-351 | the tree read off the objects is the one they stand for |
| SortOrder.LeavesAreInOrder | ui/src/lib/grouping-utils.ts:175-181 | leaves come by manual order, method, target and name, and leaves with equal keys keep their order |
| SortOrder.ChildrenAreInOrder | ui/src/lib/grouping-utils.ts:212 | subtrees come by the collation of their segments |
| SortOrder.BucketsAreInOrder | ui/src/lib/publisher-grouping.ts:166-167 | the top nodes come by the collation of their labels, those with equal labels in the order of first use |
| PathTree.CompressPath | ui/src/lib/grouping-utils.ts:202-209 | the compressing loop computes the recursive compression |
| PathTree.MaterializeEntries | ui/src/lib/grouping-utils.ts:213-223 | the loop over the sorted children computes their nodes in order |
| PathTree.MaterializeHttpNodes | ui/src/lib/grouping-utils.ts:196-242 | the whole transformation, as it runs, computes its recursive definition |
| PathTreeLaws.CompressLaw | ui/src/lib/grouping-utils.ts:205-209 | compression keeps all leaves and paths and ends at a node with an own leaf or at least two children |
| PathTreeLaws.FlattenLaw | ui/src/lib/grouping-utils.ts:183-194 | flattening gives a leaf if and only if the subtree has exactly one, and then that leaf with its path |
| PathTreeLaws.MaterializeConserves | ui/src/lib/grouping-utils.ts:196-242 | the nodes made from a grown trie hold exactly its leaves, each with its path, whatever is noted of them |
| PathTreeLaws.MaterializeIsTidy | ui/src/lib/grouping-utils.ts:196-242 | from a branching start no group is empty or holds a lone subgroup, and the two special cases, flattening and the collapse at the root, never apply |
| PathTreeLaws.LabelsArePrefixes | ui/src/lib/grouping-utils.ts:236-241 | the segments of every group label are a prefix of the path of every leaf and label beneath it |
| PathTreeLaws.GroupIdsAreUnique | ui/src/lib/grouping-utils.ts:238 | no group id occurs twice, and each spells the path of its node |
| BucketTree.CommonPrefixLaw | ui/src/lib/grouping-utils.ts:126-139 | the common prefix is a prefix of every path and cannot be made longer |
| BucketTree.CommonPathPrefix | ui/src/lib/grouping-utils.ts:126-139 | the loop with its early exit computes that prefix |
| BucketTree.NodeForPathPrefix | ui/src/lib/grouping-utils.ts:161-169 | the loop ends at the node of the prefix, or at the root when the trie has no such node |
| BucketTree.FollowLaw | ui/src/lib/grouping-utils.ts:161-169 | when all leaves lie below the prefix its node exists and holds all of them at the same paths |
| BucketTree.StartBranches | ui/src/lib/grouping-utils.ts:344-345 | after stripping the longest common prefix the start node has an own leaf or at least two children, and nothing is lost by starting there |
| Text.JoinIsInjective | ui/src/lib/grouping-utils.ts:238 | joining non-empty segments without slashes is injective |
| PathSegments.SegmentsAreSegments | ui/src/lib/grouping-utils.ts:118-124 | the segments of a path are not empty and have no slash |
| PathSegments.QueryIsIgnored | ui/src/lib/grouping-utils.ts:119-119 | what follows a question mark does not count |
| PathSegments.SlashesSeparate | ui/src/lib/grouping-utils.ts:120-123 | the segments of two paths joined by a slash are those of the one and then those of the other |
| PathSegments.PartLaw | ui/src/lib/grouping-utils.ts:62-64 | a part between slashes loses the blanks around it and is one segment, or none if nothing is left |
| PathSegments.BlanksWithinAreOne | ui/src/lib/grouping-utils.ts:62-64 | a run of blanks within a part counts as one space |
| PathSegments.SegmentsReadBack | ui/src/lib/grouping-utils.ts:118-124 | a path of segments without slashes, question marks or surplus blanks is read back from its text, with or without a leading slash |
| PathSegments.OrdersAndUsers | ui/src/lib/grouping-utils.ts:118-124 | two concrete paths and their segments |
| Text.TrimIsCore | ui/src/lib/grouping-utils.ts:63-63 | trimming gives a text if and only if that has no blank at either end and the string is it with blanks around it |
| Text.BlankCharacters | ui/src/lib/grouping-utils.ts:63-63 | the blanks are the 25 characters of the Unicode property White_Space; script patterns take the byte order mark for one and not the next-line control |
| Sidebar.IdsLaw | ui/src/lib/publisher-grouping.ts:119-124 | bucket ids come once each, and an id has a bucket if and only if some endpoint has that id |
| SidebarLaws.FirstEntryGivesLabel | ui/src/lib/publisher-grouping.ts:119-124 | a bucket is named by the kind and target of its endpoints and has the label of the first of them |
| Sidebar.BucketTable.GetOrCreateBucket | ui/src/lib/publisher-grouping.ts:119-124 | an existing bucket is returned as it is, a missing one is created last in the order |
| Sidebar.BucketTable.Add | ui/src/lib/publisher-grouping.ts:136-164 | exactly the bucket of the endpoint changes, by exactly that endpoint, although buckets are shared objects |
| Sidebar.MaterializeBucket | ui/src/lib/grouping-utils.ts:339-351 | the node shown for a bucket object is the one specified for its value, collapsed to its leaf if it has a single one |
| Sidebar.BuildTree | ui/src/lib/publisher-grouping.ts:133-184 | filling the map of buckets in place, sorting and materialising it computes the specified tree; what that shows is in the rows on segments, order and buckets |
| SidebarLaws.BucketHoldsItsEntries | ui/src/lib/publisher-grouping.ts:139-163 | a bucket holds, in trie and list, exactly what its endpoints put there |
| SidebarLaws.HttpBucketShowsPaths | ui/src/lib/grouping-utils.ts:339-351 | below an HTTP bucket each of its HTTP endpoints is shown once, at the segments of its path, which the rows on `PathSegments` fix, after the stripped prefix |
| SidebarLaws.HttpBucketIsTidy | ui/src/lib/grouping-utils.ts:196-242 | an HTTP bucket has no lone subgroup, labels that are prefixes, unique group ids, and never needs the special cases of the transformation |
| SidebarLaws.TreeShowsKeptLeaves | ui/src/lib/publisher-grouping.ts:166-184 | for any endpoints the tree shows exactly the leaves that are not in the list of a bucket shared with an HTTP endpoint |
| SidebarLaws.NothingIsLost | ui/src/lib/publisher-grouping.ts:133-184 | every endpoint is shown exactly once if and only if no HTTP endpoint shares a bucket id with another kind |
| SidebarLaws.PlainKindsShareNothing | ui/src/lib/grouping-utils.ts:328-336 | kinds without a colon never share a bucket id with an HTTP bucket |
| SidebarLaws.ColonLosesLeaf | ui/src/lib/grouping-utils.ts:283-331 | a kind with a colon can share the id of an HTTP bucket and lose its leaf: a concrete pair |
| SidebarLaws.EachPublisherOnce | ui/src/lib/publisher-grouping.ts:133-184 | without shared buckets the publisher with index i is shown exactly once, for every i, and nothing else is |
| SidebarLaws.TreeIsTidy | ui/src/lib/publisher-grouping.ts:166-184 | the tree has one top node a bucket and no group that is empty or holds a lone subgroup |
| ConsumerSidebar.IndexItems | ui/src/lib/consumer-grouping.ts:132 | the index maps each original index to its last item |
| ConsumerSidebar.BuildConsumerTree | ui/src/lib/consumer-grouping.ts:131-179 | building the consumer tree computes the specified tree of the consumers that have an item |
| ConsumerSidebar.EntriesAreForConsumers | ui/src/lib/consumer-grouping.ts:133-160 | each entry has kind, target, path and label of the consumer of its index, and the sort key of the last item with that index |
| ConsumerSidebar.EachListedConsumerOnce | ui/src/lib/consumer-grouping.ts:131-179 | a consumer with an item is shown exactly once, one without never |
| SchemaFields.PropCollector.CollectProps | crates/cli/src/main.rs:1833-1864 | the walk with a visited set ends, for cyclic references too, and adds exactly the fields of its recursive specification, first occurrences winning |
| SchemaFields.FieldsOfSchema | crates/cli/src/main.rs:1822-1829 | the fields of a schema are those of the walk from its root |
| SchemaFields.WalkIsSound | crates/cli/src/main.rs:1833-1864 | every collected field is declared by a subschema reachable through references and combinators |
| SchemaFields.WalkCovers | crates/cli/src/main.rs:1833-1864 | the walk leaves no reachable declaration out: whatever it skipped was visited before |
| SchemaFields.CollectsReachableNames | crates/cli/src/main.rs:1822-1864 | a name is collected if and only if a reachable subschema declares it; the rows below say what a node refers to, combines and declares |
| SchemaFields.TypesAreOfFirstOccurrence | crates/cli/src/main.rs:1851-1856 | each name has the type of its first occurrence in traversal order |
| SchemaFields.RefLaw | crates/cli/src/main.rs:1841-1841 | a reference is a string under `$ref` of an object, and nothing else is |
| SchemaFields.PartsLaw | crates/cli/src/main.rs:1858-1863 | the subschemas are the lists under allOf, anyOf and oneOf, in this order |
| SchemaFields.PropertiesLaw | crates/cli/src/main.rs:1850-1851 | the properties are the fields of an object under `properties` |
| SchemaFields.ReferenceLaw | crates/cli/src/main.rs:1868-1873 | a reference means the definition named after its last slash under `$defs`, or else under `definitions`, or else nothing |
| SchemaFields.DefinitionIsFollowed | crates/cli/src/main.rs:1822-1873 | a schema that is a reference to a definition has the fields of that definition |
| UniqueNames.NextUniqueName | crates/core/src/config.rs:269-282 | the counting loop returns the first free candidate, a new name, after at most one try more than there are names |
| UniqueNames.TakenIsBounded | crates/core/src/config.rs:269-282 | pigeonhole: no more candidates can be taken than there are names |
| ConfigMigration.AppConfig.MigrateLegacySecurityMode | crates/core/src/config.rs:720-739 | an explicit mode stays; without one it is balanced if the legacy flag is set and unencrypted if not; the flag is cleared |
| ConfigMigration.AppConfig.MigrateLegacyConsumerResponse | crates/core/src/config.rs:741-751 | each consumer without output takes its legacy response as output, the others stay |
| ConfigMigration.AppConfig.EnsurePublisherIds | crates/core/src/config.rs:645-652 | the loop replaces exactly the ids of its specification, in order |
| ConfigMigration.AppConfig.EnsureEntityIds | crates/core/src/config.rs:645-661 | both loops, with generated ids counted on from publishers to consumers |
| ConfigMigration.AppConfig.NormalizeConsumerPublisherOutputs | crates/core/src/config.rs:663-700 | each consumer output is normalised against the names and ids of all publishers |
| ConfigMigration.AppConfig.EnsurePublisher | crates/core/src/config.rs:783-815 | an output with a publisher refers to the first one; otherwise one is added under a new name and referred to |
| ConfigMigration.AppConfig.MigrateRoute | crates/core/src/config.rs:777-826 | one drained route, with the sets of names kept up to date |
| ConfigMigration.AppConfig.DrainRoutes | crates/core/src/config.rs:761-827 | the drain loop, for whatever order the hash map yields, takes every route exactly once |
| ConfigMigration.AppConfig.MigrateLegacyRoutes | crates/core/src/config.rs:753-829 | the whole migration in place is the specified one for some order of the routes |
| ConfigMigrationLaws.EnsuredIdsLaw | crates/core/src/config.rs:645-661 | completed ids are distinct and not blank, good ids are left alone, and an id is replaced if and only if it is blank or a repetition |
| ConfigMigrationLaws.WithPublisherLaw | crates/core/src/config.rs:783-815 | adding a publisher gives it a new clean id and name, and happens only for an endpoint without one |
| ConfigMigrationLaws.WithRoutesLaw | crates/core/src/config.rs:776-827 | after any prefix of the drain there is one consumer for each route so far, in order, with its output published, and nothing that was there has changed |
| ConfigMigrationLaws.NormalOutputIsConsistent | crates/core/src/config.rs:680-697 | a normalised output names its publisher by id and name alike, or by a trimmed name that no publisher has |
| ConfigMigrationLaws.ConsistentIsNormal | crates/core/src/config.rs:680-697 | consistent outputs are left alone |
| ConfigMigrationLaws.MigratedIsClean | crates/core/src/config.rs:753-829 | for any configuration the migrated one has no routes, distinct non-blank ids and consistent outputs; an explicit mode stays, else the flag decides between balanced and unencrypted; a default tab on routes moves to consumers |
| ConfigMigrationLaws.MigrationIsIdempotent | crates/core/src/config.rs:753-829 | migrating a migrated configuration changes nothing, for any configuration given fresh ids |
| RouteDelivery.EachRouteBecomesOneConsumer | crates/core/src/config.rs:776-827 | each route becomes exactly one consumer with its input, options and enabled flag and the default capture, under a name derived from its own that no other consumer has |
| RouteDelivery.OtherConsumersAreKept | crates/core/src/config.rs:753-829 | consumers that were there keep all but a bad id, a legacy response and the form of their output; an id changes if and only if it was blank or a repetition |
| RouteDelivery.PublishersAreOnlyAdded | crates/core/src/config.rs:783-815 | publishers keep all but a bad id; those added have new names, stand for endpoints not met before and hold nothing else |
| RouteDelivery.NormalResponseLaw | crates/core/src/ui_app.rs:536-552 | a response is left if and only if it has a payload or a header that is not blank, with its payload and exactly those headers |
| RouteDelivery.ResolveAnswers | crates/core/src/ui_app.rs:522-645 | without output a consumer delivers nowhere; a response is given by the eight kinds of endpoint that can, and refused by all others |
| RouteDelivery.ResolvePublisher | crates/core/src/ui_app.rs:646-675 | an output resolves to the endpoint of the first publisher with its trimmed id or trimmed name, and to the error for none selected or none found |
| RouteTargets.ReferencesAreCompleted | crates/core/src/config.rs:663-697 | the references consumers held before: a known id gives the name, otherwise the trimmed name gives the id of the last publisher that has it, or none |
| RouteTargets.MigratedOutputs | crates/core/src/config.rs:645-829 | whatever the ids were, after the migration a route output refers to the publisher that the first one with its endpoint is taken for: the first with its id, or, if that was blank, the last with its name |
| RouteTargets.RouteDeliversBack | crates/core/src/ui_app.rs:625-675 | for any configuration given fresh ids a migrated route resolves to its own output if and only if that is null or the publisher it refers to then is found, by id or name, to have that endpoint |
| RouteTargets.RouteKeepsItsOutput | crates/core/src/ui_app.rs:625-675 | in terms of the publishers before: a migrated route resolves to its own output if and only if that is null, had no publisher, or had one that leads back to it, also with blank or repeated ids |
| RouteTargets.EveryRouteKeepsItsOutput | crates/core/src/ui_app.rs:625-675 | with distinct ids without blanks around them and distinct trimmed names every route delivers where it did |
| RouteTargets.EqualOutputsShareAPublisher | crates/core/src/config.rs:645-829 | two routes share a publisher if and only if the publishers for their outputs are both taken for one and the same; with distinct non-blank ids if and only if their outputs are equal |
| RouteTargets.SpacedIdMisleads | crates/core/src/ui_app.rs:646-661 | distinct non-blank ids and distinct names are not enough: an id with a blank before it leads to another publisher |
| RouteTargets.SharedIdMisleads | crates/core/src/config.rs:645-652 | clean ids and distinct names are not enough: of two publishers with one id the second gets a new id after the route refers to it by the old one |
| RouteTargets.HiddenIdDecides | crates/core/src/config.rs:645-652 | if a generated id may be one in use without the blanks around it, where a route delivers depends on that id: a concrete pair |
| RouteLifecycle.InvariantIsKept | crates/cli/src/mcp.rs:767-841 | every step of every start and stop keeps names, lock and handles in order |
| RouteLifecycle.NamesAreExclusive | crates/cli/src/mcp.rs:767-773 | in every reachable state `starting` and `routes` are disjoint, each name has at most one start in flight, and `starting` holds exactly the names of starts |
| RouteLifecycle.InsertNeverOverwrites | crates/cli/src/mcp.rs:830-841 | an insert never replaces a handle |
| RouteLifecycle.LiveRoutesAreOwnedOnce | crates/cli/src/mcp.rs:803-841 | every live route is in the table, held by its own start, or owned by exactly one stop |
| RouteLifecycle.RefusedWhenTaken | crates/cli/src/mcp.rs:767-773 | a start is refused if and only if the name is in the table or in the hands of another start |
| RouteLifecycle.PatientRunsKeepCounters | crates/cli/src/mcp.rs:1015-1029 | while no name is started again before its stop returns, every route in the table has its message counter |
| RouteLifecycle.CounterIsLostExactly | crates/cli/src/mcp.rs:1015-1029 | from any reachable state a start that gets its name can end as a live route without its counter, with nobody else starting or stopping the name, if and only if a stop of the name is under way |
| RouteLifecycle.RestartDuringStopLosesTheCounter | crates/cli/src/mcp.rs:1015-1029 | a live route loses its counter to the earlier stop of its name: a concrete run from the beginning |
| RouteLifecycle.BridgeServer.StartRoute | crates/cli/src/mcp.rs:767-841 | one call alone: refused unchanged, rolled back without a trace but its counter, or running under its name |
| RouteLifecycle.BridgeServer.StopRoute | crates/cli/src/mcp.rs:1011-1043 | one call alone: the route, its life and its counter are gone, or nothing changes |
| RouteLifecycle.CallsAreStepsTaken | crates/cli/src/mcp.rs:767-1043 | what a start or a stop does alone is what its steps do when none comes between |
| Throughput.RateIsInRange | crates/core/src/route_metrics.rs:98-131 | over any run of samples the smoothed rate lies between zero and the largest rate between neighbours |
| Throughput.SampleLaw | crates/core/src/route_metrics.rs:98-131 | the first sample has no rate; later ones keep theirs until time passes; the count last grew when it last grew |
| Throughput.RateLaw | crates/core/src/route_metrics.rs:109-121 | when time has passed the distance of the rate from that of the messages since is scaled by the decay with a time constant of half a second; a count that fell counts as no messages |
| Throughput.ConstantRateForgetsTheCuts | crates/core/src/route_metrics.rs:109-121 | during a stretch at a constant rate the smoothed rate is a closed form of its beginning and the time passed |
| Throughput.CutsDoNotMatter | crates/core/src/route_metrics.rs:109-121 | two ways of cutting such a stretch into samples give the same smoothed rate |
| Throughput.SpanEndsWithTheLastGrowth | crates/core/src/route_metrics.rs:103-108 | the span ends with the observation at which the count reached its present value |
| Throughput.TimingLaw | crates/core/src/route_metrics.rs:192-210 | the span runs from the start to the last growth and is never negative; average times span is the count, and without a span the average is zero |
| Throughput.AverageOfARun | crates/core/src/route_metrics.rs:192-210 | over any run of a growing count the average times the time to its last growth is the count it ends with |
| Throughput.IdleTimingIsFixed | crates/core/src/route_metrics.rs:192-210 | once the count has stopped, total, span and average stay the same for every later sample |
| Throughput.IdleRateDecays | crates/core/src/route_metrics.rs:116-118 | meanwhile the smoothed rate decays by the time passed |
| RouteMetrics.Metrics.CounterFor | crates/core/src/route_metrics.rs:152-164 | a key gets one counter and one start time on first use and keeps both |
| RouteMetrics.Metrics.Forget | crates/core/src/route_metrics.rs:234-242 | counter, sample and start time of the key are gone, others untouched |
| RouteMetrics.Metrics.SampleAll | crates/core/src/route_metrics.rs:264-281 | one tick folds every counter into its sample exactly once, in any order |
| RouteMetrics.Metrics.GetTiming | crates/core/src/route_metrics.rs:192-210 | at one moment: there is a timing if and only if the key was sampled, and a sampled key has a start time |
| RouteMetrics.TimingOfTwoReads | crates/core/src/route_metrics.rs:192-210 | with steps between its two reads a timing is that of the moment of the first read if the key is not forgotten in between; otherwise there is none, or, if the key is registered anew, it is the old count with no time elapsed |
| RouteMetrics.TimingIsOfTheFirstReadExactly | crates/core/src/route_metrics.rs:192-242 | where time had elapsed, a timing read in two steps is that of the first read if and only if the key is not forgotten in between; where none had, if and only if it has a start at the second |
| RouteMetrics.MixedTiming | crates/core/src/route_metrics.rs:192-242 | a key forgotten and registered anew between the two reads is reported with its old count and no time elapsed: a concrete run |
| RouteMetrics.InvariantIsKept | crates/core/src/route_metrics.rs:152-281 | every step under the locks keeps the three maps together, up to the key in hand |
| RouteMetrics.KeysMatchBetweenWriters | crates/core/src/route_metrics.rs:152-242 | whenever no writer holds the lock the sampled keys are among the counters and the counters are those started |
| RouteMetrics.ForgottenKeyIsNotSampled | crates/core/src/route_metrics.rs:234-281 | in every run a forgotten key is never sampled until it is registered anew |
| RouteMetrics.NewKeyStartsAtZero | crates/core/src/route_metrics.rs:152-164 | a key registered anew has a counter nobody held before, at zero, and no rate; its first sample has rate zero |
| RouteMetrics.SampledRate | crates/core/src/route_metrics.rs:109-184 | sampling a key moves the rate it reports towards that of the messages counted since the sample before, and leaves other keys alone |
| RouteMetrics.OtherCountersDoNotCount | crates/core/src/route_metrics.rs:152-164 | holders of an earlier counter of a key no longer move its count |
| RouteMetrics.StepsMakeCalls | crates/core/src/route_metrics.rs:152-242 | the steps under one lock, taken together, are the calls of the object |
| MessageCapture.Capture.Push | crates/core/src/route_metrics.rs:318-332 | the buffer holds the last N pushed since it was drained, and never blocks |
| MessageCapture.Capture.Drain | crates/core/src/route_metrics.rs:335-341 | draining yields the last N in order and empties the buffer |
| MessageCapture.RunAll | crates/core/src/route_metrics.rs:298-341 | after any sequence of pushes and drains the buffer holds exactly the last max(1, keep_last) since the last drain |
| MessageCapture.BufferStaysBounded | crates/core/src/route_metrics.rs:318-332 | however writers and a reader interleave the capacity is not exceeded, a buffer once full and not read since is full whenever no writer is under way, nothing is lost before it is full, and every message is accounted for |
| MessageCapture.OneAtATimeKeepsTheLast | crates/core/src/route_metrics.rs:318-332 | with one writer at a time and no reader the buffer holds exactly the last messages |
| MessageCapture.ReaderLeavesTheEnd | crates/core/src/route_metrics.rs:318-341 | with one writer at a time beside a reader the buffer holds the end of what was sent, in order |
| MessageCapture.OverlapKeepsTheLastExactly | crates/core/src/route_metrics.rs:318-332 | when a writer starts after others one at a time, the buffer holds exactly the last messages however all go on, if and only if none was under way or what the other may drop equals what takes its place |
| MessageCapture.InterleavingCanLoseANewerMessage | crates/core/src/route_metrics.rs:327-331 | with two writers a message can be lost and an older one kept: a concrete run |
| CopyPipeline.Source.InsertBeforeBuffer | crates/core/src/copy_pipeline.rs:112-121 | the entry goes just outside the last buffer, or last |
| CopyPipeline.Source.ConfigureCopy | crates/cli/src/main.rs:783-797 | the wrappers are attached in the order of a copy, with fresh tokens |
| CopyPipeline.ConfiguredLaw | crates/core/src/copy_pipeline.rs:57-121 | the delivered counter is outermost; filter and read counter, in this order, are just outside what lies below the last buffer |
| CopyPipeline.FilterLaw | crates/core/src/copy_pipeline.rs:54-60 | a filter keeps each message or not by itself, in its place |
| CopyPipeline.FilterKeepsBatches | crates/core/src/copy_pipeline.rs:54-60 | and leaves it in its batch |
| CopyPipeline.WrappersKeepStarting | crates/core/src/copy_pipeline.rs:108-121 | the wrapped list starts if and only if the list did: no wrapper comes between a buffer and its source |
| CopyPipeline.StartsExactly | crates/core/src/copy_pipeline.rs:108-111 | a list starts if and only if no middleware but the one next to the source is a buffer |
| CopyPipeline.CopyRuns | crates/core/src/copy_pipeline.rs:57-121 | for any list and any meaning of the middlewares: the output is the outer list applied to the filtered inner stream, the read tally counts the inner stream, the delivered tally what the route receives |
| CopyPipeline.CopyOfAListThatStarts | crates/core/src/copy_pipeline.rs:57-88 | for a list that starts every source message is read and what enters the user middlewares is the filtered source |
| CopyPipeline.DeliveredIsAtMostRead | crates/cli/src/main.rs:787-797 | when the other middlewares only drop, delivered is at most read and read at most the source |
| CopyPipeline.ReadCountsTheSourceExactly | crates/core/src/copy_pipeline.rs:65-73 | the read tally is right for every meaning of the middlewares if and only if nothing but counters lies below the last buffer |
| CheckpointIdentity.RedactCredentials | crates/core/src/copy_pipeline.rs:307-331 | the recursive edit with its loops computes the redaction |
| CheckpointIdentity.StripAbsentFields | crates/core/src/copy_pipeline.rs:281-298 | the recursive edit with its loops computes the stripping |
| CheckpointIdentity.PassesCommute | crates/core/src/copy_pipeline.rs:264-265 | redacting and stripping do not interfere |
| CheckpointIdentity.CanonicalIsIdempotent | crates/core/src/copy_pipeline.rs:254-331 | the canonical form of a canonical form is itself, for all JSON trees |
| CheckpointIdentity.CanonicalInContext | crates/core/src/copy_pipeline.rs:254-331 | two parts in one place give the same canonical definition if and only if they have the same canonical form at that depth, under that key and parent |
| CheckpointIdentity.NullFieldIsAbsent | crates/core/src/copy_pipeline.rs:281-298 | a null field changes nothing if and only if its object is at depth two or more and has a value that is not null |
| CheckpointIdentity.TextChangesIdentity | crates/core/src/copy_pipeline.rs:307-331 | two texts in one place are told apart unless the place holds a credential or they differ in a URL password only |
| CheckpointIdentity.NeedleMakesCredential | crates/core/src/copy_pipeline.rs:440-449 | a name with one of the five words in it is that of a credential, whatever is around it |
| CheckpointIdentity.CredentialNames | crates/core/src/copy_pipeline.rs:440-453 | in letters of either case: a name is that of a credential if and only if one of the five words is in it, or it is authorization, cookie or access_key, or it is key under encryption, or anything under decrypt_keys |
| CheckpointIdentity.CaseDoesNotMatter | crates/core/src/copy_pipeline.rs:440-443 | the case of a name does not matter |
| CheckpointIdentity.KeyChangesIdentity | crates/core/src/copy_pipeline.rs:436-453 | URL passwords aside, a string in a field `key`, wherever it stands, is part of the identity of the definition if and only if the field around it is not one for key material |
| CheckpointIdentity.PartitionKeyIsNoCredential | crates/core/src/copy_pipeline.rs:438-439 | a partition key stays part of the identity |
| CheckpointIdentity.FilterChangesIdentity | crates/core/src/copy_pipeline.rs:254-268 | two copies of the same endpoints have one canonical definition if and only if their filters agree |
| CheckpointIdentity.CanonicalExactlyWhenClean | crates/core/src/copy_pipeline.rs:254-331 | the canonical form is the definition itself if and only if no place in it holds a credential, a URL password or, deep enough beside another value, a null |
| CheckpointIdentity.NestedNullEndpointLosesItsTag | crates/core/src/copy_pipeline.rs:279-280 | contrary to the comment, a null endpoint nested in the settings of another loses the field that names its type |
| Records.SpreadOverPrefix | ui/src/lib/endpoint-utils.ts:118-121 | spreading a record over defaults whose keys it begins with changes nothing |
| EndpointNormalizer.EnsureEndpointDefaults | ui/src/lib/endpoint-utils.ts:108-172 | the normaliser as it runs, editing a copy, computes the normal form, which the rows on `EndpointMeaning` give field by field |
| EndpointNormalizer.EnsureSwitchDefaults | ui/src/lib/endpoint-utils.ts:123-154 | for either kind of switch the edits in their order compute its normal form |
| EndpointNormalizer.NormalizeMiddlewares | ui/src/lib/endpoint-utils.ts:50-70 | entries that are no objects are dropped, the endpoints of dead-letter queues normalised |
| EndpointMeaning.TypeMeaning | ui/src/lib/endpoint-utils.ts:42-46 | the type is ref or static wherever that stands, else the first key other than middlewares, else http |
| EndpointMeaning.NoObjectIsHttp | ui/src/lib/endpoint-utils.ts:20-31 | what is no object becomes an empty http endpoint |
| EndpointMeaning.RecordMeaning | ui/src/lib/endpoint-utils.ts:117-121 | the normal form has the type first, then middlewares unless the type is ref or static, then every other field of the record as it was and in its order |
| EndpointMeaning.SettingsMeaning | ui/src/lib/endpoint-utils.ts:123-170 | the settings: a ref or static text is kept, also out of an object, or empty; fan-out items and switch branches are normalised one by one; all other settings stay, but for an encryption that holds nothing the user chose |
| EndpointMeaning.NewSettingsAreNormal | ui/src/lib/endpoint-utils.ts:33-40 | the settings a new endpoint begins with are those that normalising would fill in, but for the target of a switch |
| EndpointMeaning.SwitchMeaning | ui/src/lib/endpoint-utils.ts:123-154 | a switch with predicates keeps each with its target normalised and loses key and cases; any other loses its predicates, has a key, by default `type`, and its cases normalised; a missing default is an empty reference |
| EndpointMeaning.EntryMeaning | ui/src/lib/endpoint-utils.ts:133-137 | a predicate keeps its fields with its target normalised, a missing target being an empty http endpoint |
| EndpointMeaning.DropMeaning | ui/src/lib/endpoint-utils.ts:78-106 | encryption goes exactly when it is an object whose fields are all null or empty or one of the two seeded defaults |
| EndpointMeaning.ZeroMeaning | ui/src/lib/endpoint-utils.ts:141-141 | a numeral counts as no metadata key if what stands before its exponent is all zeros |
| EndpointMeaning.MiddlewaresMeaning | ui/src/lib/endpoint-utils.ts:50-70 | the middlewares are the objects of the list, in order, each as it was but for the normalised endpoint of its dead letters |
| EndpointDefaultsLaws.TypeIsKept | ui/src/lib/endpoint-utils.ts:42-46 | a normal record has the type of the record it comes from |
| EndpointDefaultsLaws.NormalRecordLaw | ui/src/lib/endpoint-utils.ts:117-121 | a normal record holds its normal settings and middlewares, every other field as it was, and begins with the keys of its defaults |
| EndpointDefaultsLaws.NormalSwitchLaw | ui/src/lib/endpoint-utils.ts:123-154 | a normal switch has predicates or a value to look up, never both, and a default |
| EndpointDefaultsLaws.DropLaw | ui/src/lib/endpoint-utils.ts:96-106 | dropping unset encryption is idempotent and touches no other field |
| EndpointDefaultsLaws.DoubleRootDoesNotSettle | ui/src/lib/endpoint-utils.ts:20-31 | an endpoint with a root wrapper inside a root wrapper changes again when normalised again |
| EndpointDefaultsLaws.NullRefIsNormal | ui/src/lib/endpoint-utils.ts:153-153 | the normal form of an empty reference is what a missing default becomes, and is normal |
| EndpointDefaultsLaws.IdempotentExactly | ui/src/lib/endpoint-utils.ts:108-172 | normalising is idempotent if and only if, wherever the normaliser goes, there is no doubly nested root and every fan-out is a list |
| EndpointDefaultsLaws.NormalFormKeepsType | ui/src/lib/endpoint-utils.ts:117-172 | the type of an endpoint is that of its normal form |
| ShellQuote.ReadQuoted | crates/core/src/cli_command.rs:14-19 | wherever it stands a quoted string adds exactly itself to the word under way |
| ShellQuote.QuoteIsOneWord | crates/core/src/cli_command.rs:14-19 | by the POSIX word rules the quoted form is exactly one word, the string itself, if and only if there is no NUL; the empty string included |
| ShellQuote.QuotedArgumentsReadBack | crates/core/src/cli_command.rs:14-19 | any list of arguments survives being quoted, joined and read |
| ShellQuote.InlineCommandReadsBack | crates/core/src/cli_command.rs:40-46 | the exported command line is five words, the third the configuration unchanged |
| ShellQuote.ReplacedExactlyWhenNeeded | crates/core/src/cli_command.rs:14-19 | the replacement changes exactly the strings that would not read back between plain quotes |
| ShellQuote.SpecialIsRefused | crates/core/src/cli_command.rs:13-19 | a character that the shell gives a meaning of its own is no part of a word unless quoted |
| ShellQuote.BackslashRules | crates/core/src/cli_command.rs:13-19 | the rules of the reader for the escape character, outside quotes and in either kind |
| ShellQuote.ExpansionIsRefused | crates/core/src/cli_command.rs:13-19 | double-quotes do not keep the shell from expanding, so the reader has no literal word there |
| StatusLease.Directory.List | crates/core/src/status_registry.rs:386-432 | a listing yields exactly the fresh records of the known version, each once and by instance id, removes exactly the stale files that can be removed, and none that it lists |
| StatusLease.FreshLaw | crates/core/src/status_registry.rs:127-130 | a lease is fresh if it was last seen at most seven seconds ago and at most a minute ahead |
| StatusLease.FateLaw | crates/core/src/status_registry.rs:386-428 | which files a listing removes, shows or leaves alone: abandoned temporaries, leases over 262144 bytes, malformed ones and those of version 1 that are not fresh go; unreadable ones and other versions stay |
| StatusLease.PrecedesLaw | crates/core/src/status_registry.rs:431-431 | instance ids are ordered by the first character in which they differ, a prefix first |
| StatusLease.CallsAreStepsTaken | crates/core/src/status_registry.rs:525-572 | what a publication or a release does alone is what its steps do when none comes between |
| StatusLease.CallsMakeRuns | crates/core/src/status_registry.rs:525-572 | any publications and releases, one after the other, make a run; once a release has removed the file no publication brings it back |
| StatusLease.InvariantIsKept | crates/core/src/status_registry.rs:525-572 | every step keeps the flag from changing between a publication reading it and writing the file |
| StatusLease.ReleasedIsNeverWritten | crates/core/src/status_registry.rs:525-572 | from the moment the flag is set the file is never written, in any interleaving |
| StatusLease.AbsentAfterRelease | crates/core/src/status_registry.rs:525-539 | in any interleaving, also with publications queued after the release began, the lease is absent ever after a removal if and only if the removal succeeds or finds no file |
| StatusLease.FailedRemovalLeavesTheLease | crates/core/src/status_registry.rs:538-538 | the error of a removal is ignored, so a release can return with the lease in place: a concrete run |
| SavedConsumers.FindKeyLaw | crates/core/src/ui_app.rs:1727-1736 | the search finds the first consumer with the key |
| SavedConsumers.NormalConsumerIsIdempotent | crates/core/src/ui_app.rs:1680-1691 | saving a saved consumer changes nothing, so an unchanged consumer compares equal |
| SavedConsumers.RuntimeKeyLaw | crates/core/src/ui_app.rs:475-482 | a consumer runs under its id without the blanks around it, or under its name if the id is blank |
| SavedConsumers.FindMatchLaw | crates/core/src/ui_app.rs:518-520 | the consumer looked up is the first with that key or that name, and there is none only if no consumer has either |
| SavedConsumers.NormalConsumerLaw | crates/core/src/ui_app.rs:554-603 | what is saved: trimmed names, at least one message kept, and the first of the output and the legacy response that says something as the response of both |
| CollectorRoutes.TrackingIsKept | crates/core/src/ui_app.rs:1890-1998 | every step of start, stop, update and completion keeps each live route in the table under its key |
| CollectorRoutes.OneLiveRoutePerKey | crates/core/src/ui_app.rs:1890-1998 | however calls interleave a consumer key has at most one live route, and its handle is in the table |
| CollectorRoutes.StartTouchesOneKey | crates/core/src/ui_app.rs:1890-1998 | a start brings up its consumer with its resolved target unless that has no endpoint, runs already or does not resolve; every other key stays as it is |
| CollectorRoutes.StopTouchesOneKey | crates/core/src/ui_app.rs:1106-1124 | a stop ends the route of its key and leaves every other as it is |
| CollectorRoutes.ChangedRoutesStop | crates/core/src/ui_app.rs:1719-1756 | after an update a route lives on if and only if the first consumer with its key is the same as before |
| CollectorRoutes.Collectors.StartConsumer | crates/core/src/ui_app.rs:1052-1070 | one call alone: a consumer is found if and only if one has that key or name; the first of them is started as saved unless it runs; routes go on running what is saved if and only if nothing comes up or it is the consumer saved under its key |
| CollectorRoutes.Collectors.StopConsumer | crates/core/src/ui_app.rs:1106-1124 | one call alone: the route of the first consumer with that key or name, or of the key itself, is out of the table and ended, and the call says whether it was there |
| CollectorRoutes.Collectors.StopChanged | crates/core/src/ui_app.rs:1719-1756 | the two loops take out exactly the routes of consumers that changed or are gone |
| CollectorRoutes.Collectors.UpdateConfig | crates/core/src/ui_app.rs:1657-1796 | one call alone: refused unchanged if an output does not resolve, and otherwise no route runs a consumer that differs from the one saved, even if saving fails |
| CollectorRoutes.StartRunsWhatIsSaved | crates/core/src/ui_app.rs:1890-1998 | with unique keys a start keeps every route running the consumer saved under its key |
| CollectorRoutes.UpdateRunsWhatIsSaved | crates/core/src/ui_app.rs:1719-1796 | so does an update |
| CollectorRoutes.UpdateDeliversWhereSaved | crates/core/src/ui_app.rs:1719-1756 | after an update the routes deliver where the new configuration says if and only if no route that goes on has its output resolved anew |
| CollectorRoutes.PublisherChangeGoesUnnoticed | crates/core/src/ui_app.rs:1726-1744 | only consumers are compared: moving a publisher leaves a running consumer delivering to the old endpoint |
| CollectorRoutes.StartCanOutliveAnUpdate | crates/core/src/ui_app.rs:1052-1070 | a start that read the configuration before an update can bring up any consumer as it was |
| CollectorRoutes.StartKeepsExactly | crates/core/src/ui_app.rs:1890-1998 | a start with whatever consumer it has read leaves every route running what is saved if and only if nothing comes up or that is the consumer saved now under its key |
| CollectorRoutes.SaveKeepsExactly | crates/core/src/ui_app.rs:1719-1796 | saving leaves every route running what is saved if and only if no route is live whose consumer the new configuration changes or drops |
| CollectorRoutes.StepsAreDetermined | crates/core/src/ui_app.rs:1052-1998 | each step of a run has one outcome |
| CollectorRoutes.StartIsItsSteps | crates/core/src/ui_app.rs:1052-1070 | what a start does alone is what its steps do when none comes between, for the first consumer with that key or name |
| CollectorRoutes.StopIsItsSteps | crates/core/src/ui_app.rs:1106-1124 | so for a stop |
| CollectorRoutes.UpdateIsItsSteps | crates/core/src/ui_app.rs:1657-1796 | and for an update |
| CollectorRoutes.RunsAgreeExactly | crates/core/src/ui_app.rs:1657-1998 | in every interleaving all live routes run what is saved in all states if and only if each start and each save meets its condition |
| RouteKeys.EncodeKey | crates/core/src/ui_app.rs:484-490 | the loop computes the encoding |
| RouteKeys.DecodeKey | crates/core/src/ui_app.rs:492-509 | the loop over pairs computes the decoding, with its early exits |
| RouteKeys.DigitLaw | crates/core/src/ui_app.rs:484-490 | digits are written in lower case and read in either |
| RouteKeys.LowerDigitsAreWritten | crates/core/src/ui_app.rs:484-490 | the lower-case digits are those the encoding writes |
| RouteKeys.PairLaw | crates/core/src/ui_app.rs:503-503 | a pair is two hexadecimal digits, or one after a plus sign, which the parser of numbers allows |
| RouteKeys.ContinuationLaw | crates/core/src/ui_app.rs:503-503 | a slice may not begin or end at a byte that begins with the bits 10, a continuation byte of UTF-8 |
| RouteKeys.KeyReadsBack | crates/core/src/ui_app.rs:484-509 | every consumer key is read back from the name of its route |
| RouteKeys.NameOfItsKey | crates/core/src/ui_app.rs:484-509 | a name that reads as a key is the name of that key if and only if it is all lower-case digits |
| RouteKeys.DecodePanicsExactly | crates/core/src/ui_app.rs:502-503 | decoding panics if and only if a pair ends inside a character after nothing but numbers |
| RouteKeys.AccentedNamePanics | crates/core/src/ui_app.rs:502-503 | a name with an accented letter after one digit makes the decoding panic: a concrete input |

## Left out
- The `mq_bridge` library is not part of this model: a route comes up or not, and may end by itself; the memory channel is a bounded queue whose registry by topic is left out.
- `CivilDate.BuildTimeIsCorrect` stops at the six numbers; their decimal rendering and the choice between the clock and a fixed epoch are left out.
- `SortOrder.LeavesAreInOrder` compares collation ranks, because the locale's collation is not known; the difference of two manual orders is taken without floating-point rounding.
- `PathTrieHeap.GroupBucket.ReadTree`: the transformation of the trie reads a copy of the tree instead of walking the node objects, which it does not change.
- `Sidebar.BuildTree` takes the sanitised URL, the path, the labels and the sort keys of an endpoint as given; URL parsing, tooltips and display labels are left out.
- `SchemaFields.FieldsOfSchema` takes the type of a property as a function of its schema: `field_type` has no visited set and need not end on cyclic references.
- `ConfigMigration.AppConfig.MigrateLegacyRoutes` knows endpoints by their serialised form; two endpoints that both fail to serialise compare equal in the program. Fields of the configuration that the migration does not touch are left out.
- `RouteTargets.RouteKeepsItsOutput` asks, where ids are blank or repeated, that no generated id is one in use without the blanks around it; `RouteTargets.HiddenIdDecides` shows that otherwise the publishers alone do not decide, and `RouteTargets.RouteDeliversBack` covers that case too.
- `RouteLifecycle.PatientRunsKeepCounters` says when no run loses a counter, and for one start `RouteLifecycle.CounterIsLostExactly` says when some run can; both are about counters only: capture buffers, labels and tuning of a route are left out, and so is a call that is cancelled half way.
- `Throughput.RateIsInRange` uses real numbers for 64-bit floating-point ones and assumes of the exponential that it is a multiplicative decay.
- `RouteMetrics.Metrics.GetTiming` reads both maps at one moment; `RouteMetrics.TimingOfTwoReads` says what steps between the two reads can do.
- `MessageCapture.OverlapKeepsTheLastExactly` has no concurrent reader, which takes messages out whatever the writers do; the marking of messages with source and time is data only.
- `CheckpointIdentity.CanonicalIsIdempotent` takes the removal of a URL password as an idempotent function; hashing and the choice of a resume mechanism are left out.
- `EndpointDefaultsLaws.IdempotentExactly` ignores that a script engine enumerates integer-like keys first and treats the key `__proto__` specially, and that a numeral too small for it is zero. `ensureRefOnlyEndpointDefaults` and the conversions between consumer and publisher endpoints are left out.
- `StatusLease.Directory.List` leaves out the scrubbing of texts and the checks of permissions, owners and links; a peer that deletes a lease between reading and removing it is not modelled.
- `CollectorRoutes.Collectors.UpdateConfig` takes a configuration that is migrated already; plugin paths, route checks by the library, storage hooks and secrets are left out, and so are the status responses.
- `RouteKeys.DecodeKey` takes as a parameter which byte sequences are valid UTF-8.
- Redacting URIs for the log, encryption, key stores, HTTP, command-line and desktop plumbing, and the remaining user interface are left out.
