# CloudHub backend: a verified model

This project models the parts of the CloudHub backend whose correctness is hard to see by reading
one function, and proves what they promise, in Dafny. `dafny verify dfyconfig.toml` checks all of it.

| file | what it models |
|---|---|
| `Paginator.dfy` | the Kapacitor client that lists tasks page by page: generator, four workers, gatherer and caller as atomic steps over channels |
| `TagLogic.dfy` | which InfluxQL conditions become tag filters, and what the filters select |
| `Conditions.dfy` | these conditions as a grammar with a meaning of its own, and the conversion proved against it |
| `WhereFilter.dfy` | the `whereFilter` of a TICKscript, printed and read back character by character |
| `Patterns.dfy` | the regular expression of the scan, as ways to take a text apart |
| `LambdaText.dfy` | what the printed filter means: a parser of lambda expressions, and the points where they hold |
| `Literals.dfy`, `Scripts.dfy` | quoted text in a TICKscript; alert rules generated as scripts and reversed into rules |
| `Alerts.dfy` | when the alert of a generated script fires, against what the rule says in words |
| `LineProtocol.dfy` | the line-protocol printer, with a reader that inverts it |
| `AnnotationRows.dfy`, `AnnotationStore.dfy` | annotations read from query results; annotations kept as points with tombstones |
| `Sources.dfy` | data sources: big-endian keys, one default that moves |
| `Slices.dfy`, `Users.dfy` | in-place filtering; the per-organization view of shared user records |
| `Membership.dfy` | roles given by mappings, by `Me` and by `UpdateMe` |
| `Tenants.dfy` | organizations and the cascading deletion of what they own |
| `Enterprise.dfy` | bringing a meta server's roles and permissions to a wanted state, one remote action at a time |
| `Lockout.dfy` | password retries, locks and timed unlocks |
| `Text.dfy`, `Decimal.dfy`, `Collections.dfy`, `Wrappers.dfy` | string order, sorting and joining; decimal numbers; walking maps and counting sets; `Option` and `Result` |

Code that changes things step by step is a method or a class whose contract gives the whole new state,
mostly by naming a function of the old one; what the program promises is then proved of that function as
lemmas, over every input and over every run. Among them are laws that say in plain terms what a caller
sees after each operation, whatever way that function is written. The paginating client is a state machine
whose steps are the atomic actions of its goroutines. Where a promise does not hold on every input, the
condition under which it does is stated and proved both ways, by lemmas whose names end in `Exact`.

What comes from outside is a parameter: the server's answers, whether a write succeeds, the clock, and the
order in which a map is walked. `InfluxQL` and TICKscript parsing, and the key-value engine, are not part of
this model; a transaction of the latter is atomic and its sequence numbers increase.

## Model

| member | source | states |
|---|---|---|
| `Paginator.RunReturnsAll` | backend/kapacitor/kapa_client.go:33-113 | with no fetch error, every interleaving that returns gives exactly the unpaginated list as a multiset: no page lost, none fetched twice |
| `Paginator.ReturnedPages` | backend/kapacitor/kapa_client.go:61-93 | with fetch errors anywhere, the result is whole pages at distinct offsets; with the pages whose fetch failed it is the whole list once a worker saw the empty page |
| `Paginator.RunIsSafe` | backend/kapacitor/kapa_client.go:45-113 | in every run no channel is closed twice, nothing is sent on a closed channel, and at most ceil(n/FetchRate)+4 requests are issued |
| `Paginator.Progress` | backend/kapacitor/kapa_client.go:51-73 | no deadlock: until ListTasks returns some goroutine can move |
| `Paginator.StepDecreases` | backend/kapacitor/kapa_client.go:75-113 | a measure strictly decreases with every step of any goroutine |
| `Paginator.RunIsFinite` | backend/kapacitor/kapa_client.go:33-113 | so every schedule ends, within a bound that depends on the number of pages only |
| `Paginator.MaximalRun` | backend/kapacitor/kapa_client.go:98-113 | where no step is left ListTasks has returned, and the generator has exited exactly when some worker saw the empty page; otherwise all four fetches failed |
| `Paginator.StepInv` | backend/kapacitor/kapa_client.go:33-113 | every step keeps the protocol invariant |
| `Paginator.StepConserved` | backend/kapacitor/kapa_client.go:75-113 | every offset handed out is, after every step, in exactly one place: a worker, the task channel, the result, the failures or the empty answers |
| `Paginator.ListTasks` | backend/kapacitor/kapa_client.go:33-73 | under an arbitrary scheduler the call ends, with a part of the list, and with the whole list if requests cannot fail; other options are passed through |
| `TagLogic.TagLogicExact` | backend/influx/query.go:401-456 | isTagLogic succeeds exactly on AND/OR trees of tag comparisons and time ranges with one operator, and gives the comparisons left to right |
| `TagLogic.FilterMeaning` | backend/influx/query.go:476-538 | a recognized tag filter, with its tag on either side and parentheses around it, holds exactly where the comparison holds |
| `Conditions.ConvertCondition` | backend/influx/query.go:265-289 | a condition is converted exactly when the grammar of time ranges and tag comparisons spells it with one operator; then its values are grouped by tag, and accepted if they are equalities |
| `Conditions.AcceptedIsWritten` | backend/influx/query.go:401-456 | isTagLogic accepts exactly what the grammar spells with one operator, and gives its comparisons left to right |
| `Conditions.RangesRecognized` | backend/influx/query.go:342-375 | each of <, <=, >, >= between time and now() or now() less a duration, either way round and in any case of letters, is a time range with that duration |
| `Conditions.FiltersRecognized` | backend/influx/query.go:476-520 | each of = and != between a tag and a string, either way round, is a filter with that operator, tag and value |
| `Conditions.WrittenMeaningKept` | backend/influx/query.go:401-456 | AND of OR-groups of equalities about different tags, or of inequalities, and time ranges: the tags select exactly the points of the condition as written |
| `Conditions.GroupedInOrder` | backend/influx/query.go:270-279 | the values of each tag stand in the order of the comparisons, none lost |
| `TagLogic.ConditionMeaningKept` | backend/influx/query.go:401-456 | AND-trees of per-tag OR groups of equalities, or of inequalities, are accepted, and the map they are grouped into selects exactly their points |
| `TagLogic.AcceptedMeaning` | backend/influx/query.go:401-456 | a condition of equalities holds where every tag of it has a matching comparison |
| `TagLogic.RejectedMeaning` | backend/influx/query.go:401-456 | a condition of inequalities holds where all of them do |
| `TagLogic.InequalitiesOnlyStricter` | backend/influx/query.go:401-456 | grouping an accepted condition of inequalities never adds a point; InequalitiesExact says when it loses none |
| `TagLogic.InequalitiesExact` | backend/influx/query.go:401-456 | any accepted condition of inequalities keeps its meaning exactly when it fails as soon as one of its comparisons does |
| `TagLogic.EqualitiesExact` | backend/influx/query.go:401-456 | any accepted condition of equalities keeps its meaning exactly when every choice of one comparison per tag makes it hold, and no such choice does with one taken away |
| `TagLogic.OrOfTwoExact` | backend/influx/query.go:401-456 | an OR of two equalities keeps its meaning exactly when they are about one tag; with two tags it is accepted all the same |
| `WhereFilter.WhereFilter` | backend/kapacitor/vars.go:233-271 | the text of the filter is one and the same for every order in which the tag map is walked |
| `WhereFilter.AppendFields` | backend/kapacitor/vars.go:253-264 | an isPresent guard for every field, also inside function arguments |
| `WhereFilter.PresenceExactly` | backend/kapacitor/vars.go:252-264 | a guard for each field and for each field among arguments, and no other |
| `WhereFilter.VarWhereFilter` | backend/kapacitor/ast.go:91-143 | the regular-expression scan gives the comparisons grouped by tag, and fails unless they have one operator |
| `Patterns.MatchTagExact` | backend/kapacitor/ast.go:91 | a match of the regular expression is found exactly when there is one, with the shortest tag |
| `Patterns.ComparisonsRead` | backend/kapacitor/ast.go:117-143 | comparisons with safe names are read as the map of their tags, and refused if they have two operators |
| `WhereFilter.RoundTrip` | backend/kapacitor/ast.go:91-143 | the scanner applied to the printed text returns the same tag map, value order kept, and the matching operator |
| `WhereFilter.RoundTripExact` | backend/kapacitor/ast.go:89-143 | it does so exactly when every tag has a value, no name or value has a newline, no value a single quote, and no tag contains what starts a comparison |
| `WhereFilter.NoTagsRoundTrip` | backend/kapacitor/ast.go:108-116 | without tags the filter reads back as empty, with guards or with TRUE |
| `LambdaText.PrintedMeaning` | backend/kapacitor/vars.go:233-271 | the printed lambda is one expression, and it holds exactly at the points the query configuration selects, for every order of the tags |
| `LambdaText.SplicedMeaning` | backend/kapacitor/vars.go:242-251 | outside plain names it can fail: a value that closes its quotes and goes on as a second comparison is accepted, and the lambda then holds at two other values |
| `LambdaText.ConditionPrinted` | backend/kapacitor/vars.go:233-271 | from the InfluxQL condition to the script: on the trees of ConditionMeaningKept the printed lambda holds exactly where the condition does |
| `LambdaText.ConditionPrintedExact` | backend/kapacitor/vars.go:233-271 | for any accepted condition the printed lambda is right at every point exactly when grouping keeps the meaning |
| `LambdaText.ConditionSurvivesScript` | backend/kapacitor/ast.go:91-143 | and the filter read back from that lambda selects these points too |
| `LambdaText.WrittenSurvivesScript` | backend/kapacitor/ast.go:91-143 | from the condition as written to the script and back: the printed lambda and the filter read from it select exactly the points of the condition |
| `Literals.EscapeRoundTripExact` | backend/kapacitor/vars.go:94-97 | an escaped string is read back exactly when it does not end in a backslash |
| `Literals.RawRoundTripExact` | backend/kapacitor/vars.go:189-197 | a string printed as it is reads back exactly when it has no quote and does not end in a backslash |
| `Literals.GroupBy` | backend/kapacitor/vars.go:189-197 | the list text of the group-by tags |
| `Literals.ListRoundTripExact` | backend/kapacitor/ast.go:64-82 | the list of group-by tags reads back exactly when each of them can be printed as it is |
| `Scripts.OperatorsInverse` | backend/kapacitor/operators.go:19-55 | the operator tables are inverse to each other on all strings |
| `Scripts.RangeOperatorsInverse` | backend/kapacitor/operators.go:57-78 | so are the range operator tables |
| `Scripts.Window` | backend/kapacitor/vars.go:166-187 | when a window is declared, and when it is an error |
| `Scripts.FieldOf` | backend/kapacitor/vars.go:206-231 | the one field, or the first field argument of the one function |
| `Scripts.Data` | backend/kapacitor/data.go:26-62 | the value node of a stream rule |
| `Scripts.Generate` | backend/kapacitor/tickscripts.go:16-51 | the script of a rule, or an error, for every order of its tags |
| `Alerts.GeneratesExactly` | backend/kapacitor/vars.go:75-187 | there is a script exactly when the names are given, trigger and operators are known, and a deadman has a period, any other rule one field and the times of its window |
| `Alerts.ThresholdFires` | backend/kapacitor/vars.go:35-42 | a threshold alert fires exactly where the value compares with the number of the rule as the rule says in words |
| `Alerts.TextFires` | backend/kapacitor/vars.go:275-286 | and with a text exactly where the value is that text, or is not |
| `Alerts.RangeFires` | backend/kapacitor/vars.go:43-51 | a range alert fires exactly inside, or exactly outside, of the two numbers of the rule |
| `Alerts.RelativeFires` | backend/kapacitor/vars.go:52-62 | a relative alert fires exactly where the change over the shift of the rule, or its percentage, compares with the number as the rule says |
| `Alerts.DeadmanFires` | backend/kapacitor/triggers.go:88-91 | a deadman alert fires exactly where no point was seen in the period of the rule |
| `Alerts.FunctionWindow` | backend/kapacitor/vars.go:166-187 | the window of a function is as long as the grouping time and moves by the interval of the rule |
| `Alerts.ValueDeclared` | backend/kapacitor/data.go:39-62 | the value is the field, the function of its first argument, or the first field among the arguments |
| `Scripts.ReadCondition` | backend/kapacitor/ast.go:453-489 | the operator read is the one that prints as what was found, one for a threshold or a change, three for a range, where others leave it empty |
| `Scripts.Reverse` | backend/kapacitor/ast.go:379-498 | of the script of any plain rule it gives back that rule, exactly when no user text is mistaken for a part of the script |
| `Scripts.ReverseExact` | backend/kapacitor/ast.go:292-489 | Reverse of a generated script recovers trigger kind, operator, change type, both values, shift, period, grouping time and interval, name, message, details, database, retention policy, measurement, group-by tags, tag filter and field, exactly when no user text is mistaken for a part of the script |
| `Scripts.CommonRead` | backend/kapacitor/ast.go:180-239 | the common variables are recovered whatever the strings contain, if none ends in a backslash |
| `Scripts.ValueRead` | backend/kapacitor/ast.go:286-312 | the field and its aggregate are recovered |
| `Scripts.ConditionExact` | backend/kapacitor/ast.go:325-377 | the alert type and operators are recovered exactly when no text of the user hides them |
| `Scripts.MessageIsMistaken` | backend/kapacitor/ast.go:356-377 | a rule that generates a script which is not read back at all: inside a range, with the message "var crit = " |
| `LineProtocol.ToLineProtocol` | backend/influx/lineprotocol.go:34-84 | an error exactly without measurement or fields; otherwise the line, for every order of the maps |
| `LineProtocol.NamesShielded` | backend/influx/lineprotocol.go:11-32 | in a printed name no comma, space, equals sign or quote stands without a backslash, in a measurement no comma or space; nothing else is changed |
| `LineProtocol.LineIgnoresOrder` | backend/influx/lineprotocol.go:43-75 | the line does not depend on the order in which tags and fields are walked |
| `LineProtocol.LineRoundTripExact` | backend/influx/lineprotocol.go:11-84 | a reader that inverts the escapes recovers measurement, tags, fields and time exactly when no written name or tag value ends in a backslash |
| `LineProtocol.LineRoundTrip` | backend/influx/lineprotocol.go:11-84 | the direction of it that a writer uses |
| `LineProtocol.LineCarries` | backend/influx/lineprotocol.go:43-83 | the line carries measurement, time, exactly the tags with a value and exactly the fields with a format |
| `LineProtocol.ReadStringEscaped` | backend/influx/lineprotocol.go:27-32 | string field values are recovered with no restriction |
| `LineProtocol.LineDecodesUniquely` | backend/influx/lineprotocol.go:34-84 | two points with one line carry the same |
| `LineProtocol.ReadLineSafe` | backend/influx/lineprotocol.go:11-32 | no line at all carries a name that ends in a backslash |
| `AnnotationRows.Annotations` | backend/influx/annotations.go:242-334 | for any rows, an error exactly when one does not decode; otherwise one entry for each id, the most recently modified |
| `AnnotationRows.DecodesExactly` | backend/influx/annotations.go:257-303 | a row is an annotation exactly when the last column of each of the five names has a cell of its kind, and these cells are its parts |
| `AnnotationRows.TagsOfExactly` | backend/influx/annotations.go:305-316 | its tags are what the last string cell of each other column holds |
| `AnnotationRows.LatestIsFirst` | backend/influx/annotations.go:318-328 | of the newest rows of an id the first is kept |
| `AnnotationRows.CollectIsLatest` | backend/influx/annotations.go:321-328 | the fold over the rows keeps the first of the newest |
| `AnnotationRows.LatestIsNewest` | backend/influx/annotations.go:318-328 | an entry exists for exactly the ids in the rows, and no row of its id is newer |
| `AnnotationStore.AnnotationStore.Get` | backend/influx/annotations.go:65-74 | the newest live point of the id, or not found, from a response with its rows and columns in any order |
| `AnnotationStore.AnnotationStore.Add` | backend/influx/annotations.go:77-86 | one live point is written, or nothing if the write is lost |
| `AnnotationStore.AnnotationStore.Delete` | backend/influx/annotations.go:89-98 | the newest live point becomes a tombstone |
| `AnnotationStore.AnnotationStore.Update` | backend/influx/annotations.go:101-119 | once the first write succeeds Get finds the new annotation, whether or not the tombstone is lost, after any earlier history |
| `AnnotationStore.ReadsBackExactly` | backend/influx/annotations.go:145-167 | a written annotation is read back as itself exactly when it is storable |
| `AnnotationStore.ReservedAreDropped` | backend/influx/annotations.go:305-316 | of the tags that are written nine names are never read back, and every other name is |
| `AnnotationStore.RowDecodes` | backend/influx/annotations.go:250-319 | the row of a stored point is read back as that point, whatever the order of the columns and whatever columns other points add |
| `AnnotationStore.GetRefines` | backend/influx/annotations.go:65-74 | Get answers as a plain map from id to annotation |
| `AnnotationStore.UpdateRefinesExact` | backend/influx/annotations.go:101-119 | Update refines the map update exactly when it keeps the tags or moves the end time |
| `AnnotationStore.RunRefines` | backend/influx/annotations.go:77-119 | any run of calls with fresh ids and no lost write refines the map, also when an end time moves away and back |
| `AnnotationStore.UpdateThenDelete` | backend/influx/annotations.go:89-119 | Update and then Delete: the id is gone exactly when the update wrote its tombstone or, with the time unchanged, kept the tags; otherwise Get finds the annotation from before the update again |
| `AnnotationStore.UpdateFinds` | backend/influx/annotations.go:101-119 | the new point is the newest of its id in either outcome of the second write |
| `AnnotationStore.LineCarriesPoint` | backend/influx/annotations.go:145-191 | the line written for an annotation, live or deleted, puts into a store that reads it exactly the point the model puts there |
| `Sources.ItobInjective` | backend/kv/kv.go:150-155 | different ids have different big-endian keys |
| `Sources.ItobBytes` | backend/kv/kv.go:150-155 | eight bytes, the least significant last |
| `Sources.SourcesStore.Add` | backend/kv/sources.go:37-53 | the first source becomes the default, and a default source clears the others |
| `Sources.SourcesStore.AddTx` | backend/kv/sources.go:111-131 | the writing transaction of Add, whatever emptiness the first one saw |
| `Sources.SourcesStore.Update` | backend/kv/sources.go:150-170 | the record replaces the one under its id, or not found |
| `Sources.PutIsExact` | backend/kv/sources.go:150-170 | the record under the id is exactly the one given; of the others at most the default flag goes, to a new default |
| `Sources.SourcesStore.ResetDefaultSource` | backend/kv/sources.go:172-194 | every default flag is cleared and nothing else changes |
| `Sources.SourcesStore.SetRandomDefault` | backend/kv/sources.go:196-222 | the default moves to another source if there is one |
| `Sources.SourcesStore.Delete` | backend/kv/sources.go:55-67 | the record goes after the default moved |
| `Sources.RunAtMostOneDefault` | backend/kv/sources.go:37-66 | in every reachable state, however Add's emptiness read interleaves, keys match ids and at most one source is the default |
| `Sources.RunOneDefault` | backend/kv/sources.go:150-222 | in sequential runs whose updates never clear the default, a non-empty store has exactly one |
| `Sources.AddKeepsDefaultExact` | backend/kv/sources.go:37-53 | Add keeps exactly one default if and only if its view of emptiness is not outdated, or it adds a default |
| `Sources.UpdateKeepsDefaultExact` | backend/kv/sources.go:150-170 | Update keeps exactly one default if and only if it does not take the flag away |
| `Sources.DeleteMovesDefault` | backend/kv/sources.go:133-222 | deleting the default moves it to a surviving source; otherwise nothing else changes |
| `Slices.FilterInPlace` | backend/organizations/users.go:68-76 | filtering into s[:0] gives the filtered list: no element is overwritten before it is read |
| `Slices.Append` | backend/organizations/users.go:214-222 | appending to the filtered slice, in place or not, keeps its elements |
| `Users.ReplaceRoles` | backend/organizations/users.go:212-224 | replacing an organization's roles gives it those, and every other organization what it had |
| `Users.RunLeavesOthers` | backend/organizations/users.go:92-228 | any run of facade calls of one organization leaves the roles every other organization sees unchanged |
| `Users.UpdateThenGet` | backend/organizations/users.go:193-228 | after Update, Get returns exactly the user given, or none if it was given no role |
| `Users.AddThenGet` | backend/organizations/users.go:92-164 | with valid roles, of a login the organization did not see, it now sees exactly the roles given, super admin if either was; everything else stays, and in any other case everything |
| `Users.GetShowsExactly` | backend/organizations/users.go:57-85 | Get shows the record with the roles in the organization and no others, or nothing |
| `Users.DeleteThenGet` | backend/organizations/users.go:168-190 | after Delete the organization does not see the user |
| `Users.VisibleIsExact` | backend/organizations/users.go:232-264 | All lists exactly the users Get finds, each once, as Get returns it |
| `Users.OrganizationUsers.Get` | backend/organizations/users.go:57-85 | the user with the roles of the organization only; not found if there are none |
| `Users.OrganizationUsers.Add` | backend/organizations/users.go:92-164 | the new state and result in each case: invalid roles, unknown user, known user, member already |
| `Users.OrganizationUsers.Delete` | backend/organizations/users.go:168-190 | the organization's roles go from the record |
| `Users.OrganizationUsers.Update` | backend/organizations/users.go:193-228 | the organization's roles are replaced in the record |
| `Users.OrganizationUsers.All` | backend/organizations/users.go:232-264 | every user with a role in the organization, with those roles |
| `Users.UsersStore.Get` | backend/kv/users.go:69-119 | by id, or the first user with the login or with the name; an incomplete query is an error of its own |
| `Users.SearchIsFirst` | backend/kv/users.go:85-119 | the user found is the first with the login, or with the name |
| `Users.UsersStore.Add` | backend/kv/users.go:139-168 | a new id from the sequence, unless the login exists |
| `Users.UsersStore.Update` | backend/kv/users.go:182-195 | the whole record is replaced, or not found |
| `Membership.ApplyMapping` | backend/server/mapping.go:57-77 | when a mapping applies to a principal |
| `Membership.SplitIsListed` | backend/server/mapping.go:57-87 | a group counts exactly when it is one of the comma-separated groups |
| `Membership.MatchGroup` | backend/server/mapping.go:79-87 | the group is one of the groups |
| `Membership.MapPrincipalToRoles` | backend/server/mapping.go:31-55 | exactly one role for each existing organization some applying mapping names, with its default role |
| `Membership.Me` | backend/server/me.go:199-346 | the users after Me: a known one may become super admin, one without any role is turned away, a new one gets the mapped roles |
| `Membership.MeCreates` | backend/server/me.go:276-326 | who is turned away, and for whom else a user is stored: with the login, super admin or not, the mapped roles, and the default role of the default organization for a super admin |
| `Membership.MeKnows` | backend/server/me.go:242-252 | a known user becomes super admin by a group, and nothing else changes |
| `Membership.IntroducedKeeps` | backend/server/me.go:276-326 | known users keep their roles, and no user gets two roles in one organization |
| `Membership.UpdateMe` | backend/server/me.go:100-197 | who may switch to the organization, and the users after it |
| `Membership.JoinedKeeps` | backend/server/me.go:144-178 | the user is then a member, other organizations see no change, and no user gets two roles in one organization |
| `Membership.JoinedSees` | backend/server/me.go:144-178 | who joins has exactly the default role there, a member what it had; nothing else changes |
| `Membership.PerformOneRole` | backend/organizations/users.go:92-228 | a facade call with at most one role keeps every user at one role per organization |
| `Membership.Serve` | backend/server/me.go:144-326 | over all runs of Me, UpdateMe and the facade no user ever has two roles in one organization |
| `Membership.NeverTooManyRoles` | backend/server/auth.go:185-202 | so the branch for a user with too many roles is never taken |
| `Tenants.Service.CreateDefault` | backend/kv/organizations.go:34-71 | find or create the default organization and its mapping |
| `Tenants.Service.NameIsUnique` | backend/kv/organizations.go:74-82 | no organization has the name |
| `Tenants.Service.Add` | backend/kv/organizations.go:101-122 | a new id under a unique name, or an error |
| `Tenants.Service.Update` | backend/kv/organizations.go:286-302 | the record is replaced unless another has its new name |
| `Tenants.Service.Delete` | backend/kv/organizations.go:139-219 | the organization goes with its sources, servers, dashboards, mappings and user roles, and nothing else does |
| `Tenants.DeletedIsGone` | backend/kv/organizations.go:139-149 | after a deletion the organization is not found, all others are as they were, and its name can be added again under a new id |
| `Tenants.RecordsLeft` | backend/kv/organizations.go:175-218 | of servers, dashboards and mappings exactly those of other organizations remain, unchanged |
| `Tenants.DeleteSources` | backend/kv/organizations.go:164-173 | all sources of the organization go; of the others at most the default flag moves |
| `Tenants.DeleteRecords` | backend/kv/organizations.go:175-195 | all servers, or dashboards, of the organization go, the others stay |
| `Tenants.DeleteRoles` | backend/kv/organizations.go:197-206 | every user loses the roles in the organization and keeps the rest |
| `Tenants.DeleteMappings` | backend/kv/organizations.go:208-218 | the mappings of the organization go, the others stay |
| `Tenants.SourcesLeft` | backend/kv/organizations.go:164-173 | after a deletion no source carries the id, and every other is there as before but for its default flag |
| `Tenants.RolesLeft` | backend/kv/organizations.go:197-206 | after a deletion the organization sees no user, and every other sees the roles it saw |
| `Tenants.RunValid` | backend/kv/organizations.go:34-219 | in every sequential run from an empty store the default organization exists and names are unique |
| `Tenants.FreshId` | backend/kv/organizations.go:107-112 | an id from the sequence is never in use |
| `Enterprise.Difference` | backend/enterprise/meta.go:376-403 | what is to be revoked and added, as sublists in order |
| `Enterprise.MinusIsDifference` | backend/enterprise/meta.go:376-403 | as sets they are the two set differences |
| `Enterprise.PermissionsDifference` | backend/enterprise/meta.go:405-426 | the same scope by scope, also for scopes only one side has |
| `Enterprise.OutsideIsDifference` | backend/enterprise/meta.go:405-426 | for all scopes at once these are the set differences of the grants |
| `Enterprise.SetPerms` | backend/enterprise/meta.go:210-239 | revokes, then adds: success means exactly the wanted permissions, and no moment has both an unwanted and a new one |
| `Enterprise.SetRoleUsers` | backend/enterprise/meta.go:362-373 | the same for the users of a role |
| `Enterprise.UpdateUser` | backend/enterprise/users.go:80-130 | password, roles or permissions: what changes in each case, at every moment and at the end, whichever action fails |
| `Enterprise.UpdateRoles` | backend/enterprise/users.go:87-122 | adds, then revokes: success means exactly the wanted roles, and no moment lacks both a former and a wanted one |
| `Enterprise.StaysBetween` | backend/enterprise/meta.go:210-239 | at every intermediate moment a set lies between have ∩ want and have ∪ want |
| `Enterprise.OthersKept` | backend/enterprise/users.go:109-121 | at every moment of a role update all other users are in the roles they were in |
| `Enterprise.UserRoles` | backend/enterprise/meta.go:242-260 | the roles of each user, in the order of the list |
| `Enterprise.RolesOfIsConverse` | backend/enterprise/meta.go:242-260 | a user has a role in the result exactly when the role has the user |
| `Enterprise.RolesOfInOrder` | backend/enterprise/meta.go:248-259 | if no role names a user twice, these are the sublist of the roles that have the user |
| `Enterprise.ToEnterprise` | backend/enterprise/users.go:164-175 | the last entry of a scope wins |
| `Enterprise.LastEntryWins` | backend/enterprise/users.go:164-175 | a scope has the permissions of its last entry, all databases under the empty name |
| `Enterprise.ToCloudHub` | backend/enterprise/users.go:178-197 | one entry for each scope, in any order |
| `Enterprise.PermissionsRoundTrip` | backend/enterprise/users.go:164-197 | permissions of the server survive the round trip, in whatever order they are walked |
| `Enterprise.EntriesRoundTripExact` | backend/enterprise/users.go:164-197 | the other round trip keeps the entries exactly when each scope has one list and the names fit the scopes |
| `Lockout.LoginService.Login` | backend/server/basic_auth.go:382-510 | the new lock state and the answer in every case |
| `Lockout.WrongCheckCounts` | backend/server/basic_auth.go:461-469 | a wrong password counts one more, and locks exactly when the count is reached, at that second |
| `Lockout.DelayedExactly` | backend/server/basic_auth.go:396-420 | a delay policy turns logins away for exactly its minutes, and for none if they overflow a duration |
| `Lockout.HugeCountLocksAtOnce` | backend/server/basic_auth.go:461-466 | a count of 2^31 or more is taken for a negative number, so the first wrong password locks |
| `Lockout.WelcomeStartsAnew` | backend/server/basic_auth.go:503-508 | after a successful login fewer wrong passwords than the count leave the user unlocked, in any run without a lock by an administrator |
| `Lockout.FewWrongStayOpen` | backend/server/basic_auth.go:382-510 | the same from any open user with no retries |
| `Lockout.LoginService.Clear` | backend/server/basic_auth.go:161-165 | a reset clears count, lock and lock time |
| `Lockout.ClearedIsOpen` | backend/server/basic_auth.go:161-165 | after a reset the next login is checked, whatever was before |
| `Lockout.LoginService.LockUser` | backend/server/users.go:803-806 | an administrator's lock, which no policy opens |
| `Lockout.AdminLockStays` | backend/server/basic_auth.go:382-391 | no login passes such a lock until it is cleared |
| `Lockout.WindowBound` | backend/server/basic_auth.go:396-470 | with the delay policy, in every quiet run at most N(floor(T/(D-1s))+1) passwords are found wrong in any window of length T |
| `Lockout.LossBound` | backend/server/basic_auth.go:396-470 | the same with the delay less what the locks of the run lose to whole seconds |
| `Lockout.WholeSecondBound` | backend/server/basic_auth.go:399-405 | with locks that fall on whole seconds the bound holds with the whole delay |
| `Lockout.WholeSecondsMatter` | backend/server/basic_auth.go:399-405 | for every count and delay some run breaks the bound with the whole delay |
| `Lockout.GapExact` | backend/server/basic_auth.go:396-470 | the longest gap with which the bound holds in all runs is D-1s and one nanosecond |
| `Lockout.LockPolicyBound` | backend/server/basic_auth.go:391-396 | with the lock policy at most N passwords are ever found wrong |
| `Lockout.LockPolicyExact` | backend/server/basic_auth.go:391-396 | from an open user the n-th wrong password locks, and none before |
| `Lockout.RunBelowCount` | backend/server/basic_auth.go:461-469 | while unlocked the retry count stays below N, in every run and for every retry type |
| `Lockout.RunBatches` | backend/server/basic_auth.go:382-470 | wrong checks come in batches of at most N, each the delay less the loss after the lock that ended the one before |

## Left out

- HTTP handlers, JSON, routing, logging, and the remote servers themselves: their answers and failures are parameters.
- The parsers and formatters of InfluxQL and TICKscript, and the key-value engine: a condition arrives reduced, a lambda passes through the formatter unchanged, a transaction is atomic.
- Conditions.ConvertCondition: the rest of Convert (sources, fields, group by, the reported time range) is not modelled.
- TagLogic.ConditionMeaningKept: the trees it is about are sufficient; InequalitiesExact and EqualitiesExact say of every accepted condition when its meaning is kept.
- WhereFilter.RoundTrip: the text of the isPresent guards is assumed to have no single quote and no newline.
- LambdaText.PrintedMeaning: every tag has a value, and no name or value has the quote it is printed in or ends in a backslash, since it is printed without escapes (SplicedIsMistaken is an input on which the meaning changes); the guards are taken to hold.
- Scripts.Generate: alert handlers, the output sections, and the variables that are never read back are not modelled.
- Scripts.Data: rules with a raw query, which make batch scripts, are not modelled, and the stream section has no text here but for its value node.
- Scripts.Reverse: it is about plain rules, and what it gives back is what ReverseExact compares.
- Scripts.ReverseExact: a number or a duration is recovered as it was printed, without the formatting of the language; the script is a structured value in which only user text and quoted text are characters; filter and field names are taken to have no double quote and no final backslash.
- Alerts.RangeFires: the language is modelled as far as the alert conditions need it, on real numbers; what the number texts stand for is a parameter.
- LineProtocol.ToLineProtocol: floating-point fields have no format here and count as not written; integers are unbounded.
- LineProtocol.LineRoundTripExact: so it is about points whose fields are integers, booleans and strings.
- AnnotationRows.Annotations: the order of the result is not claimed, since the comparison it is sorted by is not an ordering; a row with more cells than columns, on which the source itself fails, is excluded, and every number is taken to be an integer.
- AnnotationStore.RunRefines: updates that change the tags and keep the time, and lost writes, are outside these runs; UpdateThenDelete says exactly when an older point resurfaces after one of them.
- AnnotationStore.AnnotationStore.Get: a response is one series with its fields and tags as columns, no column twice, and no tag named after the time column.
- Sources.RunOneDefault: concurrent clearing of the default is outside it; RunAtMostOneDefault covers all interleavings of the transactions.
- Tenants.Service.Delete: stores that the deletion does not touch (vSphere, topology, CSP, network device, organization configuration) are not modelled.
- Tenants.RunValid: uniqueness of names is for sequential runs; the check and the write are separate transactions.
- Users.RunLeavesOthers: the raw user store that a super admin can edit directly is not part of the runs.
- Membership.Serve: mappings and organizations change only between requests; sessions and tokens are not modelled.
- Enterprise.SetPerms: stands for SetUserPerms and SetRolePerms, which differ in the action they post; an action is applied as a whole or not at all.
- Lockout.LoginService.Login: requests of one user follow each other, and the stored user is always written.
- Lockout.WindowBound: minutes are compared exactly instead of as floating-point numbers.
- Paginator.MaximalRun: the generator goroutine that stays blocked after four failures is noted, not repaired.
- The permission diff of backend/influx/permissions.go, the session cookie, templates, and the thin store wrappers.
