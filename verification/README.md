# Metadata query compiler: model and proofs

The repository turns a drafted query over published metadata into a Hive program. This project models that path
from the draft to the rows in the result table, and the smaller algorithms around it, and proves what they promise.

**The main path.** `DraftValidation` binds a draft to candidate tables. `InferredProgram` says what a validated
program guarantees. `ColumnNaming`, `AdapterPlan` and `Adapter` convert it to a graph of relational nodes
(`RelationalPlan`). `RelationalCompiler`, `CteChain` and `PlanCompilation` emit one WITH chain per materialized step.
`Sql` gives every emitted query a meaning on lists of rows with NULL and three-valued logic, in the sense of
sections 7.7 and 8.2 of ISO/IEC 9075-2:2003. The whole path is judged against `ProgramAnswers.IsAnswer`, which
describes one answer of a program directly from its joins, filters and periods, with no join order and no plan.
`FlatCompiler`, `FlatMeaning`, `FlatCorrectness`, `QueryColumns`, `FlatColumns`, `InsideJoins`, `OlderCompiler` and
`DroppedParts` treat the older compiler, which writes one FROM / JOIN / WHERE: when it accepts, what it returns, and
exactly when both compilers return the same bag of rows. `CompiledPrograms` shows that either compiler's program
passes the CTAS checker that is called at the end of compilation.

**Readings.** The theorems above compare functions with each other. `DraftReading`, `AnswerReading`, `Periods`,
`SqlReading`, `PlanReading`, `ConversionReading` and `OlderReading` say what these functions mean without them: which
drafts, plans and programs are accepted, what an answer is, and which rows a comparison, a period or an aggregate keeps,
by quantifiers over drafts, tables, joins, filters and stored rows. `LineageReports`, `RuleReading`, `ContextReading`
and `TimeReading` do the same for the algorithms below.

**Around it.** `PartitionBounds` (period bounds of authored SQL), `CtasProgram` (the CTAS checker), `ColumnLineage`
(lineage through CTAS steps), `RuleExpressions` and `RuleParser` (the memoised rule parser), `ContextWindow` (context
compaction and its stored boundary), `RootChoice` (which root
lets a compiler order the joins), `Calendar` and `TimeRequests` (periods in requests), `TableFamilies` (detection
and expansion of table families) and `StepOrder` (layered ordering of program steps).

**How to read it.** Code that computes values is a function. Code that works by changing variables, lists or fields is
a method or a class, proved equal to a function or to a stated property; what the source promises is then proved of
that function. A theorem about stored rows is about every content of the tables: `World` is arbitrary. Two
environments are equal only when they bind the same stored rows, so equal counts of environments are equal bags of
result rows, duplicates included.

**Assumptions on the input.** `InferredProgram.ValidProgram` is what the adapter and the older compiler assume.
`DraftValidation.AcceptedIsValid` proves that every accepted draft satisfies it, provided that references and physical
names are unambiguous in the catalog, the chosen families are disjoint, and the members of a family have the same
column names and datatypes. Two further conditions are not checked before conversion: output names must differ, and a
grouped or aggregated field must not come from an excluded table. They are not assumed. `Adapter.Convert` rejects
exactly the programs that break them, because the plan's own validation does (`AdapterOutput.OutputIsValid`).

## What turned out not to hold

Each item has a lemma with a concrete case, and an exact condition where one is known.

- A validated plan may join a node with itself; the emitted query then binds one alias twice
  (`RelationalCompiler.SelfJoinPlanIsAccepted`). `AliasesOfNode` says that this is the only case, and the adapter never
  builds such a join (`AdapterCorrectness.AdapterPlanIsCorrect`).
- Whether the join loop succeeds depends on the root. The adapter takes the source of the first requested field, the
  older compiler its first source, and either may fail on a valid program that the other one accepts
  (`RootChoice.OnlyFlatSucceeds`, `OnlyAdapterSucceeds`). When the joins form a tree, a root works exactly when every
  LEFT or anti join points away from it (`JoinOrder.TreeRootWorksExactly`, `RootChoice.TreeProgramsExactly`); in
  general exactly when a legal order exists (`JoinOrder.OrderIsSoundAndComplete`).
- The older compiler drops joins inside one logical source, which the adapter refuses. It accepts a table with a join
  between two of its own columns and returns a row that violates it (`DroppedParts.InsideJoinIsLost`). What it returns
  are the answers of the remaining joins (`OlderCompiler.FlatProgramReturns`). These are the program's own answers over
  given tables exactly when every answer of the remaining joins satisfies the inside joins (`OwnAnswersExactly`), and
  over all tables exactly when no choice of at most one row per source does otherwise (`OwnAnswersForAllTables`). If
  nothing else reads one of the columns of an inside join, that happens only when the remaining joins and filters never
  let a row through (`DroppedParts.FreeInsideJoinIsLost`). Programs that the adapter converts have no such joins
  (`NothingIgnored`).
- The older compiler drops grouping and aggregation (`DroppedParts.AggregationIsLost`). On a program that both compilers
  accept, the result tables are one bag exactly when nothing is aggregated, or there is a grouping and no answer to
  group (`OlderCompiler.CompilersAgree`; with inside joins `CompilersAgreeExactly`).
- The CTAS checker compares names after case folding but never asks that folded targets differ. Two targets that
  differ only in case are accepted, and the second step may read the table that it drops
  (`CtasProgram.CaseVariantsAreAccepted`). `AcceptedSucceedsExactly` gives the exact condition; neither compiler
  produces such a program (`CompiledPrograms`).
- The partition-bound check also counts ON clauses that come before the table they speak about. Such a bound does not
  limit the rows that are read (`PartitionBounds.ForwardReferenceIsUnbounded`; the check itself does not look at the
  order of joins, an engine may refuse such a clause). Without them the check is sound
  (`BoundedQueriesStayInside`, `AcceptedQueriesStayInside`).
- A CTAS step that reads a step created later is not always reported. The walk reports a read of a visited step exactly
  when it names a step that is created no earlier and is not finished, in depth-first order over the table lists, when
  the reading step is entered (`ColumnLineage.ReportedExactly`, `LateReadExactly`), and it warns exactly then or when a
  query warns by itself (`OrderWarningExactly`). Self-reads and cycles are always reported (`SelfReadIsLate`,
  `CycleHasLateRead`). The set of active steps never decides anything that positions do not
  (`LineageWalk.AnalyzeQuery`).
- Retrieval promises whole families. Detected families may overlap, and then a family may be reported without all of
  its members (`TableFamilies.OverlapIsNotFull`). All reported families are whole exactly when every family that the
  selection misses, but that shares a member with one it meets, lies in families it meets (`AllFullExactly`).
- A compressed context may exceed its target (`ContextWindow.TargetMayBeExceeded`). It keeps the target, whatever the
  summariser answers, exactly when 32 tokens remain for the summary or 32 tokens of text that cannot be shortened
  still fit (`TargetKeptExactly`); it always exceeds it when the uncompressible part does (`Assemble`).
- Whether a deep rule condition is parsed depends on the order in which the graph enumerates arguments, because a memo
  hit skips the depth below it (`RuleParser.EnumerationMatters`). Within the limits on nodes and edges it is parsed
  exactly when its unfolding is finite and a depth-first tour in enumeration order, entering each node once, meets no
  node deeper than 64 (`ParseSucceedsExactly`).

## Model

| member | source | states |
|---|---|---|
| DraftValidation.Validate | ontology_core/inference_validation.py:88-483 | returns the program that the draft describes, for exactly the drafts that pass every check: bindings, evidence, join directions, connectivity, filter shape and scope, grouping, one period per table |
| DraftValidation.AcceptedIsValid | ontology_core/inference_validation.py:457-483 | an accepted draft yields a program with everything both compilers rely on, and every selected table has a time decision |
| DraftValidation.DescribedSaysDraft | ontology_core/inference_validation.py:178-371 | binding loses nothing: references, join sides, filter trees, groupings and aggregations of the draft can be read back from the program |
| DraftValidation.AcceptedIsConnected | ontology_core/inference_validation.py:268-278 | no proper part of an accepted program's logical sources is cut off from the rest |
| DraftValidation.AcceptedTreesAreJoinable | ontology_core/inference_validation.py:268-278 | an accepted program whose joins are inner and form a tree has a legal join order from the root that the adapter will choose |
| DraftReading.DescribedExactly | ontology_core/inference_validation.py:88-483 | a draft describes a program exactly when each of its references, joins, filters, aggregations and periods can be bound, and then the one program that puts the candidate's family, table, field or resolved period, start first, for each of them in order |
| DraftReading.AcceptedExactly | ontology_core/inference_validation.py:88-483 | a draft is accepted exactly when it is not blocked, snapshots are current, every part binds, and the program that binds them has one known data source, allowed joins, no separate part and grouped outputs |
| DraftReading.JoinBindsExactly | ontology_core/inference_validation.py:187-243 | a join binds exactly when both fields are known, belong to the selected tables that it names, have one type group, and are supported |
| DraftReading.FilterBindsExactly | ontology_core/inference_validation.py:280-336 | a filter binds exactly when AND and OR branch, every comparison has a field of a selected table and as many justified values as it takes, and a filter in ON scope speaks about one table |
| DraftReading.PeriodsAreResolved | ontology_core/inference_validation.py:416-428 | every table has its own decision, on the field of its policy, with the start and end that were resolved for it |
| InferredProgram.CheckJoinSemantics | ontology_core/inference_join_semantics.py:4-23 | accepts exactly when every LEFT or anti join has a right source of its own, and an excluded source supplies no output and takes part in no other join |
| JoinOrder.IsConnected | ontology_core/inference_validation.py:485-500 | the marking loop answers true exactly when every proper part of the sources has a crossing edge |
| JoinOrder.OrderIsSoundAndComplete | ontology_core/inference_to_relational.py:214-300 | the greedy loop succeeds exactly when some legal order exists from its root, and then returns one: each source introduced once, each join used once, no product, no reversed direction |
| JoinOrder.InnerTreesSucceed | ontology_core/inference_to_relational.py:220-300 | inner joins that form a connected tree are always introduced, from any root |
| JoinOrder.TreeRootWorksExactly | ontology_core/inference_to_relational.py:220-300 | when the joins form a tree, the greedy loop succeeds from a root exactly when every LEFT or anti join points away from it |
| JoinOrder.InnerFarIsPreserved | ontology_core/inference_to_relational.py:227-239 | then no inner join leads away to the right side of a LEFT or anti join |
| ColumnNaming.NameMembers | ontology_core/inference_to_relational.py:83-92 | gives one fresh column to one physical name of every member of a family and to nothing else |
| ColumnNaming.NameFamily | ontology_core/inference_to_relational.py:74-92 | names all needed columns of one family while earlier names stay valid |
| ColumnNaming.NameColumns | ontology_core/inference_to_relational.py:59-96 | two fields share a column exactly when they read the same physical column of the same logical source; a family carries a column for all members or none; nothing is named unasked |
| ProgramMeaning.PushdownPreservesMeaning | ontology_core/inference_to_relational.py:136-164 | joining filtered sources and filtering again returns the same rows in the same order as joining raw sources and applying every filter and period at its declared place |
| ProgramMeaning.ChainPushes | ontology_core/inference_to_relational.py:220-312 | after any number of joins the pushed-down rows are the raw rows that the scan filters keep |
| ProgramMeaning.WhereSplits | ontology_core/inference_to_relational.py:301-312 | the conditions at scans and after the joins together are exactly the WHERE of the program |
| ProgramMeaning.FilterPlacement | ontology_core/inference_to_relational.py:146-148 | a filter that is neither in ON nor after the joins is applied at a source that it speaks about |
| ProgramAnswers.ReferenceIsAnswers | ontology_core/inference_to_relational.py:203-312 | any legal order returns every answer exactly once and nothing else |
| ProgramAnswers.OrderDoesNotMatter | ontology_core/inference_to_relational.py:203-300 | two legal orders from any two roots return the same bag |
| ProgramAnswers.ChainMembers | ontology_core/inference_to_relational.py:220-300 | a chain of joins holds exactly the combinations that its joins describe, exclusions and padded rows included |
| ProgramAnswers.ChainIgnoresOtherPeriods | ontology_core/inference_to_relational.py:149-153 | rows outside a table's period influence no joined row, whether the period stands at a scan, in a family branch or in a match condition |
| AnswerReading.AnswersExactly | ontology_core/inference_to_relational.py:203-312 | the answers of a valid program, written out on tables, families and stored rows: every source that is not excluded is bound, each join, filter and period keeps the rows that it names, padded and excluded sources included |
| Periods.PeriodIsInterval | ontology_core/inference_to_relational.py:126-134 | a row is in period exactly when its partition value lies between the literals of the start and the end of its table's decision |
| Periods.AnswersAreWithin | ontology_core/inference_compiler.py:86-95 | every row bound in an answer lies between the start and the end of its table's decision |
| Periods.OnlyRowsWithinBlock | ontology_core/inference_to_relational.py:254-259 | a row on the right of an anti join blocks exactly when the keys are equal, the match filters hold and the row lies between start and end |
| Periods.PlanStaysWithin | ontology_core/inference_to_relational.py:149-153 | the adapter's plan returns answers whose rows all lie within their periods |
| Periods.FlatStaysWithin | ontology_core/inference_compiler.py:336-341 | so does the older compiler's program |
| SqlReading.LeafExactly | ontology_core/relational_compiler.py:331-352 | when each comparison is true, false and unknown, NULL included |
| SqlReading.AggregateExactly | ontology_core/relational_compiler.py:284-305 | COUNT(*) counts rows; every other aggregate is taken over the values that are not null, each once for DISTINCT |
| SqlReading.GroupsExactly | ontology_core/relational_compiler.py:284-305 | grouping gives one row for every different key, with the aggregates of its members, and one row in all without keys |
| AdapterNodes.ScanDenotes | ontology_core/inference_to_relational.py:136-144 | a scan node denotes the stored rows of its table under the adapter's column names |
| AdapterNodes.ScanIsValid | ontology_core/relational_plan.py:194-207 | plan validation accepts every scan the adapter writes, with the expected types |
| AdapterNodes.FilterDenotes | ontology_core/inference_to_relational.py:155-160 | a filter node over placed conditions is valid and keeps exactly the rows that satisfy the program's conditions |
| AdapterNodes.UnionDenotes | ontology_core/inference_to_relational.py:166-193 | the union of a family denotes the rows of its members one after the other, filters distributed over the branches |
| AdapterNodes.UnionIsValid | ontology_core/relational_plan.py:209-222 | plan validation accepts a family's union |
| AdapterJoins.JoinDenotes | ontology_core/inference_to_relational.py:240-294 | a join node denotes one step of the pushed-down reading, in either direction of an inner join |
| AdapterJoins.JoinIsValid | ontology_core/relational_plan.py:224-247 | plan validation accepts every join the adapter writes; the carried columns are those of the sources still in scope |
| AdapterOutput.OutputDenotes | ontology_core/inference_to_relational.py:314-354 | the output node returns the requested fields, or one row per group |
| AdapterOutput.OutputIsValid | ontology_core/relational_plan.py:256-292 | plan validation accepts the output node exactly when output names differ and every output field is still in scope |
| AdapterStages.ScansUpToHold | ontology_core/inference_to_relational.py:136-164 | after any number of tables every placed source denotes its filtered rows and all nodes are valid |
| AdapterStages.FamiliesUpToHold | ontology_core/inference_to_relational.py:166-201 | after any number of families the same holds of the families |
| AdapterCorrectness.JoinsUpToHold | ontology_core/inference_to_relational.py:214-300 | after any number of joins the current node denotes the pushed-down rows so far |
| AdapterCorrectness.AddPostHolds | ontology_core/inference_to_relational.py:301-312 | with the remaining filters the current node denotes all answers |
| AdapterCorrectness.AdapterPlanIsCorrect | ontology_core/inference_to_relational.py:136-369 | the adapter's plan validates exactly when output names differ and no output field is excluded; then its result is the output of the plain reading, for every content of the tables |
| Adapter.ScanTables | ontology_core/inference_to_relational.py:136-164 | the scan loop produces the specified nodes and placements, or fails on a table without a needed field |
| Adapter.UniteFamilies | ontology_core/inference_to_relational.py:166-201 | the family loop produces the specified union and materialize nodes |
| Adapter.ChooseRoot | ontology_core/inference_to_relational.py:203-213 | the root is the source of the first requested field that may be a root, else the least possible root; none exactly when there is no possible root |
| Adapter.JoinSources | ontology_core/inference_to_relational.py:214-300 | the while loop follows the greedy order and fails exactly when that order does not exist or a WHERE filter reads an excluded source |
| Adapter.CheckEvidence | ontology_core/inference_to_relational.py:41-57 | evidence is accepted exactly when snapshots agree, all tables are known, and every join is supported and connects two sources |
| Adapter.Convert | ontology_core/inference_to_relational.py:30-369 | produces a plan for exactly the convertible programs, which includes that output columns have names of the form that a plan takes; the plan validates, returns the program's answers each once for every content of the tables, and does not depend on rows of other periods |
| ConversionReading.ConvertibleExactly | ontology_core/inference_to_relational.py:30-369 | the convertible programs written out: evidence for every table and join in either order of the fields, an asked column in every table, a legal order from the root, no WHERE filter on an excluded source, and outputs with different plain names on present sources |
| ConversionReading.RootExactly | ontology_core/inference_to_relational.py:203-213 | the root is the source of the first requested field whose source no LEFT or anti join has on its right, else the least such source |
| Adapter.PipelineReturnsAnswers | ontology_core/relational_compiler.py:85-159 | converted and compiled, a program with fewer than 99 families leaves the output of its answers in the result table, whatever tables existed before |
| Adapter.PlanSteps | ontology_core/inference_to_relational.py:194-199 | a plan has one step per family and the result |
| Adapter.OtherPeriodsDoNotMatter | ontology_core/inference_to_relational.py:254-259 | deleting all rows outside the periods changes no answer |
| RelationalPlan.ValidateGraph | ontology_core/relational_plan.py:165-185 | the validating loop computes the schemas of all nodes or rejects, with unique tables of one data source and exactly one result step |
| RelationalPlan.MeaningIsValidation | ontology_core/relational_plan.py:187-297 | a plan has a meaning exactly when it validates, and its tables have the validated types |
| PlanReading.NodeExactly | ontology_core/relational_plan.py:187-297 | a node is accepted exactly with the columns and types that it fits: every column read exists on the right input with the right type group, anti joins carry the left side only, counts are integers |
| PlanReading.PlanExactly | ontology_core/relational_plan.py:165-185 | a plan is accepted exactly when it has nodes, one result under its name, different tables of one data source, and schemas that every node fits over the nodes before it |
| RelationalCompiler.DerivedNodeAgrees | ontology_core/relational_compiler.py:354-403 | on an accepted node the compiler derives the schema that validation computed |
| RelationalCompiler.DerivedSchemasAgree | ontology_core/relational_compiler.py:354-403 | the same for a whole accepted plan, node by node |
| RelationalCompiler.NodeQueryRows | ontology_core/relational_compiler.py:202-307 | the emitted query of a validated node computes the rows that the node denotes, for all node kinds |
| RelationalCompiler.UnionQueryRows | ontology_core/relational_compiler.py:220-231 | UNION ALL of the branch queries computes the union node |
| RelationalCompiler.OuterJoinRows | ontology_core/relational_compiler.py:248-265 | the emitted INNER or LEFT JOIN, with IS NULL on the right key for an anti join, computes the join node |
| RelationalCompiler.NotExistsRows | ontology_core/relational_compiler.py:251-256 | NOT EXISTS computes the anti join node |
| RelationalCompiler.AntiStrategiesAgree | ontology_core/relational_compiler.py:240-265 | both anti-join strategies return the same rows for NULL keys, duplicate rows and any match filters |
| RelationalCompiler.AggregateQueryRows | ontology_core/relational_compiler.py:284-305 | the grouped query computes the aggregate node |
| RelationalCompiler.AliasesOfNode | ontology_core/relational_compiler.py:233-265 | a node's query binds no alias twice, except exactly for a join of a node with itself |
| RelationalCompiler.SelfJoinIsAccepted | ontology_core/relational_plan.py:224-247 | node validation accepts a join of a node with itself on any column it has |
| RelationalCompiler.SelfJoinPlanIsAccepted | ontology_core/relational_plan.py:165-185 | a whole plan with such a join is accepted, and the query of its join binds one alias twice |
| CteChain.ChainBuilder.Compile | ontology_core/relational_compiler.py:171-192 | the recursive pass over mutable lists computes the specified chain, and fails exactly when a stored result is not yet available |
| CteChain.ChainIsExact | ontology_core/relational_compiler.py:161-200 | the chain of a step holds exactly the needed queries, each once and after what it reads, and never meets an unavailable result |
| CteChain.StatementRows | ontology_core/relational_compiler.py:194-200 | running one statement stores the step's rows in its table and changes no other table |
| CteChain.ProgramRows | ontology_core/relational_compiler.py:103-120 | after the statements of any prefix every step's table holds the step's rows |
| PlanCompilation.TargetsDiffer | ontology_core/program_compiler.py:38-54 | two steps of a validated plan never share a target table |
| PlanCompilation.ValidatedIsUpstreamFirst | ontology_core/relational_plan.py:173-179 | in a validated plan node names differ and every dependency comes earlier |
| PlanCompilation.MeaningFixpoint | ontology_core/relational_plan.py:173-179 | every node's rows are those of its operation on the final rows of its inputs |
| PlanCompilation.CompiledProgramIsCorrect | ontology_core/relational_compiler.py:97-120 | compiling a validated plan fails exactly beyond 99 steps; running the statements in order leaves in every step's table, and in the result table, what the step denotes |
| CompiledPrograms.NodeReads | ontology_core/relational_compiler.py:309-328 | a node's query names only base tables and the node's declared dependencies |
| CompiledPrograms.CompiledProgramPassesCheck | ontology_core/relational_compiler.py:158-159 | the CTAS checker accepts every compiled plan, and no step reads its own table |
| CompiledPrograms.FlatProgramPassesCheck | ontology_core/inference_compiler.py:221-222 | the same for the older compiler |
| FlatCompiler.CompileFamily | ontology_core/inference_compiler.py:224-248 | one period-filtered branch per member, or failure when a member has no time decision |
| FlatCompiler.CompileResult | ontology_core/inference_compiler.py:304-387 | fails without requested fields, without a possible root, with a WHERE filter on an excluded source, or when the greedy order does not exist, and otherwise writes FROM, JOIN and WHERE in that order |
| FlatCompiler.FlatCompile | ontology_core/inference_compiler.py:104-222 | the whole older compiler, after its join check: family tables keep the columns of all joins, the result query ignores joins inside one source |
| FlatMeaning.KeysAreSources | ontology_core/inference_compiler.py:287-292 | the alias list names every logical source exactly once |
| FlatMeaning.OnIsPushed | ontology_core/inference_compiler.py:374-380 | an emitted ON clause is true of a scope exactly when the join's condition, match filters and period hold of the environment |
| FlatMeaning.FlatIsReference | ontology_core/inference_compiler.py:328-341 | filtering at the end by all predicates outside ON gives the plain reading |
| FlatCorrectness.FlatScopes | ontology_core/inference_compiler.py:347-384 | FROM with the anti conditions denotes the joined environments after any number of steps |
| FlatCorrectness.FlatSelectReturns | ontology_core/inference_compiler.py:304-391 | the flat query returns the requested fields of the plain reading |
| FlatCorrectness.FamilyRun | ontology_core/inference_compiler.py:234-248 | a family statement stores the rows of its members that lie in their periods, with the needed columns |
| QueryColumns.UnreadColumnsDoNotMatter | ontology_core/inference_compiler.py:234-248 | over tables that agree row by row on the columns that a query names, it returns the same rows in the same order, whatever other columns there are |
| FlatColumns.SurplusColumnsDoNotMatter | ontology_core/inference_compiler.py:250-280 | family tables keep the columns of every declared join; the result query returns the same as over tables without the columns of dropped joins |
| InsideJoins.BetweenIsValid | ontology_core/inference_compiler.py:342-346 | dropping the joins inside one source from a valid program leaves a valid program |
| InsideJoins.AnswersSplit | ontology_core/inference_compiler.py:342-346 | an answer of the declared program is exactly an answer of the remaining joins that satisfies the dropped ones |
| OlderCompiler.FlatProgramReturns | ontology_core/inference_compiler.py:104-222 | running any accepted program leaves the requested fields of the answers of the joins between sources in the result table, each answer once, whatever is grouped or aggregated |
| OlderCompiler.OwnAnswersExactly | ontology_core/inference_compiler.py:342-346 | the result table holds the program's own answers exactly when the dropped joins hold of every answer of the others |
| OlderCompiler.AnswerAlone | ontology_core/inference_compiler.py:304-387 | an answer over any tables is an answer over tables that hold only its own rows |
| OlderCompiler.OwnAnswersForAllTables | ontology_core/inference_compiler.py:342-346 | for all contents of the tables the own answers are returned exactly when no choice of at most one row per source is an answer by itself and breaks a dropped join |
| OlderCompiler.CompilersAgreeExactly | ontology_core/inference_compiler.py:287-392 | both result tables are one bag exactly when, without aggregation, the dropped joins hold of every answer of the others, and with aggregation, there is a grouping and no answer |
| OlderCompiler.CompilersAgree | ontology_core/inference_compiler.py:287-392 | on a program that the adapter converts and the older compiler accepts, both result tables hold the same bag of rows, even with different roots and join orders, exactly when nothing is aggregated or there is a grouping and no answer |
| OlderCompiler.FlatProgramExactly | ontology_core/inference_compiler.py:304-387 | the older compiler accepts a valid program exactly when something is requested, all family members have periods, the joins between sources have a legal order from its root, no WHERE filter reads an excluded source, and there are fewer than 99 families |
| OlderCompiler.NothingIgnored | ontology_core/inference_compiler.py:342-346 | a program whose joins pass the adapter's evidence check has no join that the older compiler ignores |
| OlderReading.FlatTakesExactly | ontology_core/inference_compiler.py:104-222 | acceptance by the older compiler written out on tables, families and joins, with its own root |
| OlderReading.FlatRootExactly | ontology_core/inference_compiler.py:287-315 | its root is the first family that no LEFT or anti join has on its right, else the first such table outside families |
| OlderReading.BetweenExactly | ontology_core/inference_compiler.py:342-346 | what it drops are exactly the joins that stay inside one source, and nothing else |
| OlderReading.InsideExactly | ontology_core/inference_compiler.py:342-346 | what the dropped joins ask of an answer: the values of both fields are equal and not null |
| DroppedParts.FreeInsideJoinIsLost | ontology_core/inference_compiler.py:342-346 | with an inside join on a column that no filter, period or other join reads, the own answers are returned for all tables exactly when the remaining program never returns a row |
| DroppedParts.InsideJoinIsLost | ontology_core/inference_compiler.py:342-346 | a valid one-table program with a join between two of its columns, accepted by the older compiler, and a stored row that is returned although it violates the join |
| DroppedParts.AggregationIsLost | ontology_core/inference_compiler.py:304-307 | a valid program with a count that both compilers accept, and one stored row for which their result tables differ |
| RootChoice.TreeProgramsExactly | ontology_core/inference_to_relational.py:203-300 | for a valid program whose joins between sources form a tree, each compiler can order the joins exactly when every LEFT or anti join points away from the root that it takes; the adapter also needs that no join stays inside one source |
| RootChoice.OnlyFlatSucceeds | ontology_core/inference_to_relational.py:203-236 | a valid program that the older compiler compiles and for which the adapter's root has no legal order |
| RootChoice.OnlyAdapterSucceeds | ontology_core/inference_compiler.py:314-361 | a valid program that the adapter converts and the older compiler refuses |
| CtasProgram.Validate | ontology_core/program_compiler.py:164-204 | the loop accepts exactly when targets avoid sources and every read of a target or of a system name comes after its creation |
| CtasProgram.AcceptedExactly | ontology_core/program_compiler.py:164-204 | accepted exactly when no statement creates a source, and every read table that some statement creates, or that has the system prefix, is created by an earlier statement |
| CtasProgram.AcceptedIsRerunnable | ontology_core/program_compiler.py:164-204 | an accepted program without self-reads succeeds, leaves other tables unchanged, depends only on them, and running it twice equals running it once |
| CtasProgram.AcceptedSucceedsExactly | ontology_core/program_compiler.py:196-202 | an accepted program whose external tables exist succeeds exactly when no statement reads the table it drops |
| CtasProgram.CaseVariantsAreAccepted | ontology_core/program_compiler.py:171-172 | targets that differ only in case are accepted together with a self-read |
| CtasProgram.DistinctTargetsReadNothingOfTheirOwn | ontology_core/program_compiler.py:196-202 | with targets that differ after folding, acceptance rules out self-reads |
| PartitionBounds.CheckBounded | ontology_core/authored_sql.py:155-162 | the loop over WHERE and eligible ON clauses accepts exactly when both sides are bounded |
| PartitionBounds.TestIsExact | ontology_core/authored_sql.py:23-54 | a test gives a bound on a side exactly when, for every semantics, row and interval around its literals, a true test puts the partition value on that side of the interval |
| PartitionBounds.AcceptedExactly | ontology_core/authored_sql.py:155-162 | a query is accepted exactly when both sides are bounded by WHERE or an eligible ON clause; AND needs a bound from one part, OR from both |
| PartitionBounds.ItemsAreTexts | ontology_core/authored_sql.py:23-54 | the items of a test count exactly when they are literals that spell months or days of the calendar, as the grain takes them |
| PartitionBounds.PeriodText | ontology_core/authored_sql.py:23-54 | a period literal is the text of a month or of a day of the calendar, and nothing else is one |
| PartitionBounds.PassingKeepsBounds | ontology_core/authored_sql.py:23-54 | a condition that is true of a row keeps that row's partition value on every side the analysis collected, for any nesting of AND and OR |
| PartitionBounds.BoundedJoinsSame | ontology_core/authored_sql.py:157-160 | bounds collected from eligible ON clauses alone already make rows outside irrelevant |
| PartitionBounds.FineSame | ontology_core/authored_sql.py:155-160 | joined rows whose partition value lies inside do not depend on rows outside, through inner, left, right, full, semi and anti joins |
| PartitionBounds.InScopeIsAccepted | ontology_core/authored_sql.py:155-162 | a query that is bounded in scope is accepted |
| PartitionBounds.AllBoundsInScope | ontology_core/authored_sql.py:157-160 | the check counts only bounds in scope when every eligible ON clause that speaks about the table follows it or brings it in |
| PartitionBounds.BoundedQueriesStayInside | ontology_core/authored_sql.py:155-162 | when WHERE and the eligible ON clauses in scope bound the table, there is one finite interval such that no row of the table outside it can change the answer, for all data |
| PartitionBounds.AcceptedQueriesStayInside | ontology_core/authored_sql.py:155-162 | the same for every accepted query whose eligible ON clauses speak about the table only in scope |
| PartitionBounds.ForwardReferenceIsUnbounded | ontology_core/authored_sql.py:157-160 | a well-formed query with an ON clause that speaks of a table joined later passes the check, is not bounded in scope, and no interval contains the rows that matter |
| ColumnLineage.AnalyzeKeeps | evaluation/sql_structure.py:414-453 | a walk without warnings leaves mappings that trace every output column to its base column |
| ColumnLineage.LineageIsComposition | evaluation/sql_structure.py:455-499 | without an unresolved-lineage warning every projected or filtered column, of the final query and of every reached step, is the base column found by composing the projections |
| LineageReports.VisitedExactly | evaluation/sql_structure.py:414-453 | without a lineage warning the walk visits exactly the final query and the steps that it reaches |
| LineageReports.ReportsExactly | evaluation/sql_structure.py:455-499 | without a lineage warning the reported tables are exactly the stored tables of these queries, the joins exactly theirs, and the filters exactly theirs on the base columns that they stand for |
| ColumnLineage.UnreachedStepIsIrrelevant | evaluation/sql_structure.py:419-425 | deleting a step that the final query does not reach changes nothing |
| ColumnLineage.ForwardReadDependsOnOrder | evaluation/sql_structure.py:421-425 | two scripts with the same steps, the final query naming them in different order: one is reported, the other is not |
| ColumnLineage.ReportedExactly | evaluation/sql_structure.py:419-425 | for every script, the reads that the walk reports are exactly those of a visited step that name a step not finished before it in depth-first order |
| ColumnLineage.LateReadExactly | evaluation/sql_structure.py:419-425 | such a read names a step that is created no earlier and is not finished when the reading step is entered, and conversely |
| ColumnLineage.OrderWarningExactly | evaluation/sql_structure.py:414-453 | the walk warns exactly when some read is late or a visited query warns by itself |
| LineageReports.WarningExactly | evaluation/sql_structure.py:414-499 | the extraction warns exactly when some read is late, a visited query warns by itself, a read query asks for a column of a step that leads to no stored column, or joins on a step |
| ColumnLineage.SelfReadIsLate | evaluation/sql_structure.py:422-423 | a visited step that reads itself is always reported |
| ColumnLineage.CycleHasLateRead | evaluation/sql_structure.py:421-425 | a cycle of reads through a visited step holds a late read; without late reads the visited steps read each other without cycles |
| ColumnLineage.LineageWalk.AnalyzeQuery | evaluation/sql_structure.py:414-453 | the walk with its set of active steps terminates and computes the same state as the walk without that set |
| RuleExpressions.CmpIsOrder | ontology_core/semantic_parser.py:732-732 | comparing keys is antisymmetric and tells different keys apart |
| RuleExpressions.CmpTransitive | ontology_core/semantic_parser.py:732-732 | comparing keys is transitive |
| RuleExpressions.KeyIsInjective | ontology_core/semantic_parser.py:623-641 | two expressions with one key are equal |
| RuleExpressions.OrderedIsUnique | ontology_core/semantic_parser.py:731-734 | a bag of entries has one ordered list |
| RuleExpressions.SortIgnoresOrder | ontology_core/semantic_parser.py:731-735 | sorted children do not depend on the order of enumeration |
| RuleParser.CollectionLiterals | ontology_core/semantic_parser.py:563-595 | the list loop returns what the recursive reading returns, or fails |
| RuleParser.ListIsReadExactly | ontology_core/semantic_parser.py:573-595 | a collection is read exactly when it is a finite well-formed list of permitted length, and then as that list |
| RuleParser.ParseKeeps | ontology_core/semantic_parser.py:644-790 | every step of parsing, failed or not, keeps a memo of finished nodes with their unfoldings, arguments before users, and the limits |
| RuleParser.ParseIsUnfolding | ontology_core/semantic_parser.py:644-790 | success returns the plain unfolding; no path from the node repeats a node, and at most 1024 nodes and 4096 logical edges are reached |
| RuleParser.UnfoldingIsUnique | ontology_core/semantic_parser.py:675-735 | a node has at most one unfolding |
| RuleParser.ParseIgnoresEnumeration | ontology_core/semantic_parser.py:677-735 | two successful parses under different enumeration orders return one expression |
| RuleParser.ParseSucceeds | ontology_core/semantic_parser.py:651-663 | a graph within the limits whose unfolding has depth at most 64 is parsed, and to that unfolding |
| RuleParser.ParseSucceedsExactly | ontology_core/semantic_parser.py:651-663 | within the limits on nodes and edges, a condition is parsed exactly when its unfolding is finite and the depth-first tour in enumeration order meets no node deeper than 64 |
| RuleReading.LeafIsReadExactly | ontology_core/semantic_parser.py:736-787 | when a leaf is read and what it says, for every shape: a null test its known property only, IN and BETWEEN the literals of their one list, a comparison its one literal or its one parameter |
| RuleReading.UnfoldsExactly | ontology_core/semantic_parser.py:664-790 | an expression is the unfolding of a node exactly when it says what the node says: operator, property, values and parameter of a leaf, and for AND, OR and NOT the bag of what the arguments say |
| RuleReading.ParseSaysGraph | ontology_core/semantic_parser.py:644-790 | a successful parse says, node by node, what the graph says |
| RuleParser.EnumerationMatters | ontology_core/semantic_parser.py:651-657 | one graph that is parsed under one enumeration of its arguments and refused under another |
| RuleParser.KeyOfBuilt | ontology_core/semantic_parser.py:788-789 | the key stored for a finished node is the key of its expression |
| RuleParser.ParseContext.ParseExpression | ontology_core/semantic_parser.py:644-790 | the parser on its mutable context computes the specified state and result |
| ContextWindow.EstimateSubadditive | agent/context_engineering.py:34-45 | joining two texts costs at most their sum and at least either of them |
| ContextReading.EstimateExactly | agent/context_engineering.py:34-45 | a text costs one token for every other character and one for every four ASCII characters, begun or complete |
| ContextReading.TrimExactly | agent/context_engineering.py:66-68 | trimming takes exactly the white space around a text |
| ContextWindow.TruncateToTokens | agent/context_engineering.py:250-261 | the binary search returns the text, or its longest fitting prefix with trailing space removed; the result fits |
| ContextWindow.CutIsUnique | agent/context_engineering.py:250-261 | that description fixes the result |
| ContextReading.CutExactly | agent/context_engineering.py:250-261 | a text that is cut keeps its longest fitting prefix without the white space at its end |
| ContextWindow.SummaryCost | agent/context_engineering.py:60-76 | rendering a summary adds at most its label and its own tokens |
| ContextWindow.MakeConfig | agent/context_engineering.py:94-109 | accepted limits give 1 <= target <= trigger <= budget and keep at least two messages |
| ContextReading.ConfigExactly | agent/context_engineering.py:94-109 | an assembler exists exactly for ordered ratios, a positive budget and at least one turn; its limits are the whole parts of the budget's shares, at least one, and two messages a turn |
| ContextReading.BudgetExactly | agent/context_engineering.py:144-157 | the summary gets what the target leaves beside the kept messages, the prompt, the input and the label, and at least 32 tokens |
| ContextReading.RenderSays | agent/context_engineering.py:60-76 | the block is the trimmed prompt, the trimmed summary and every message with its speaker and SQL, in order, an empty line between the parts |
| ContextReading.SummarySays | agent/context_engineering.py:158-172 | the summary is the model's answer without surrounding white space, or, when there is nothing else in it, the extract of the previous summary and of every message, in order and shortened |
| ContextWindow.SummaryNeverSaves | agent/context_engineering.py:60-76 | rendering a summary never costs less than rendering none |
| ContextWindow.Assemble | agent/context_engineering.py:111-182 | compression happens exactly when the whole context with the input reaches the trigger and more messages are active than are kept; after it the context fits the target whenever 32 tokens remain for the summary, and otherwise the uncompressible part plus label plus 32; it exceeds the target when the uncompressible part does; the kept messages are the latest active ones, in order |
| ContextWindow.TargetKeptExactly | agent/context_engineering.py:144-173 | compression keeps the target for every answer of the summariser exactly when 32 tokens remain or 32 unshortenable tokens still fit |
| ContextWindow.TargetMayBeExceeded | agent/context_engineering.py:94-182 | permitted limits and three messages for which compression exceeds the target whatever the summary is |
| ContextWindow.TurnKeeps | api/routes/conversation.py:187-196 | one turn keeps the boundary consistent: it moves forward over exactly what was compacted, no message is compacted twice, and every message is covered, compacted now or kept |
| ContextWindow.Conversation.Prepare | api/routes/conversation.py:167-197 | over any sequence of turns the stored boundary never decreases and the invariant of `TurnKeeps` holds |
| Calendar.Shift | ontology_core/temporal.py:90-92 | shifting moves the month index by the offset and yields a month from 1 to 12 |
| Calendar.MonthsAreTheirDays | ontology_core/temporal.py:238-246 | a range of months contains exactly the days from the first day of its first to the last day of its last month, leap years included |
| Calendar.DayBeforeIsNext | ontology_core/temporal.py:200-204 | nothing lies between a day and the day before it |
| TimeRequests.AddTokens | ontology_core/temporal.py:103-114 | appending candidates one by one equals accepting the whole list |
| TimeRequests.AcceptedAreDisjoint | ontology_core/temporal.py:99-114 | accepted tokens never overlap, and every dropped candidate overlaps an accepted one |
| TimeRequests.CollectTokens | ontology_core/temporal.py:117-260 | pattern after pattern, the collected tokens are the accepted ones in text order, or an error when a candidate is no valid date |
| TimeReading.MonthsAreRead | ontology_core/temporal.py:117-174 | a request is read in month grain exactly when every match denotes months in order, and its candidates are those months, pattern after pattern: ranges, recent months, this and last month, months with and without a year |
| TimeReading.DaysAreRead | ontology_core/temporal.py:177-259 | in day grain the candidates are the days that the matches denote, today, the last day before it and the last before that, and then the first to last days of the months |
| TimeReading.ReadableDays | ontology_core/temporal.py:177-259 | and a request is read whenever these days and months exist |
| TimeReading.CollectsFirst | ontology_core/temporal.py:99-114 | a candidate is kept exactly when it lies apart from all candidates kept before it; the kept ones come in text order, each once |
| TimeRequests.ExpansionIsExact | ontology_core/temporal.py:238-259 | a day lies in the expansion of a month token exactly when its month lies in the token |
| TimeRequests.RecentIsExact | ontology_core/temporal.py:126-137 | "recent n" is exactly the n months before the system month |
| TimeRequests.ChooseInterval | ontology_core/temporal.py:356-369 | an interval is found exactly when all tokens agree on one, endpoints repeated or not |
| TimeRequests.IntervalIsUnion | ontology_core/temporal.py:356-376 | an agreed interval is in order and is exactly the union of the tokens |
| TimeRequests.BusinessIsExact | ontology_core/temporal.py:284-299 | a period next to a date field yields an interval that holds exactly the days of its months |
| TimeRequests.FirstDaysFail | ontology_core/temporal.py:200-204 | exactly on the first two days of the calendar every request in day grain fails, whatever it says; on any other day a request without a period collects nothing |
| TimeRequests.DefaultMonth | ontology_core/temporal.py:302-320 | the default month is the month before the system month, and is missing only in the first month of the calendar |
| TimeRequests.DefaultDay | ontology_core/temporal.py:302-320 | exactly one day lies between the default day and the system day, and it is missing only on the first two days of the calendar |
| TimeRequests.ParseRequest | ontology_core/temporal.py:323-382 | a request succeeds exactly when it is bounded, all matches are read, business fields take whole months of date fields, and its partition tokens agree on one interval or, if there are none, a default exists; the result is an ordered interval of the requested grain that holds exactly what the partition tokens hold, or the default |
| TableFamilies.FillBuckets | ontology_core/metadata_candidates.py:250-257 | every table is in exactly the buckets of its own positions and templates |
| TableFamilies.BuildFamilies | ontology_core/metadata_candidates.py:246-267 | the candidates are exactly the families with their varying position, whatever order the buckets are visited in |
| TableFamilies.FamilyExactly | ontology_core/metadata_candidates.py:250-267 | a member list is a family exactly when it lists, ascending, all tables that agree with some table everywhere but at one position of the name, at which not all of them agree |
| TableFamilies.SharedFamilyExactly | ontology_core/metadata_candidates.py:250-267 | two tables share a family exactly when they agree outside some position at which their bucket varies |
| TableFamilies.IndexIsUnique | ontology_core/metadata_candidates.py:262-267 | a member list determines its varying position |
| TableFamilies.FamiliesShareOneName | ontology_core/metadata_candidates.py:253-267 | two different families share at most one physical name within a signature |
| TableFamilies.ExpandSelection | ontology_core/metadata_candidates.py:355-376 | the selection grows, in ranked order, by exactly the members of families that it meets, and the reported families are exactly those that the grown selection meets |
| TableFamilies.TouchedAreFull | ontology_core/metadata_candidates.py:357-376 | a family that the selection met before expansion is returned in full |
| TableFamilies.AllFullExactly | ontology_core/metadata_candidates.py:357-376 | all reported families are whole exactly when every family that the selection misses, but that shares a member with one it meets, has each of its members in some family that the selection meets |
| TableFamilies.DisjointFamiliesAreFull | ontology_core/metadata_candidates.py:371-376 | disjoint families are all whole |
| TableFamilies.OverlapIsNotFull | ontology_core/metadata_candidates.py:246-376 | detection finds exactly the families [1, 2] and [2, 3] among tables named a_1, a_2 and b_2, and asking for table 1 reports [2, 3] without table 3 |
| StepOrder.OrderedSteps | ontology_core/program_validation.py:140-182 | an ordered result is a permutation, dependencies first, layer after layer in draft order, the result last; on inputs that pass the earlier checks a cycle is reported exactly when one exists, and an acyclic draft is accepted exactly when every other step is in an earlier layer than the result, or in its layer and drafted before it |
| StepOrder.LastExactly | ontology_core/program_validation.py:168-181 | in a layered order the result is last exactly when every other step precedes it |
| StepOrder.StuckHasCycle | ontology_core/program_validation.py:168-175 | a layer without ready steps reveals a cycle |
| StepOrder.OrderHasNoCycle | ontology_core/program_validation.py:168-179 | an order with dependencies first excludes every cycle |
| StepOrder.ResultIsLast | ontology_core/program_validation.py:180-181 | when every other step leads to the result, the result is last in every correct order |

## Left out

- SQL text: quoting, identifiers and parsing. Queries are trees with a meaning; relations are base tables, CTEs or
  program tables by construction, so a CTE name that hides a table name is not modelled.
- Values: a stored value is NULL or a real number, and how a literal reads as a value of a datatype is a parameter of
  the theorems. Rounding, overflow and collation are not modelled; references and names are numbers whose order
  stands for string order, so generated column names are compared as numbers also beyond `c_9999`.
- Node identifiers in `Sql.NodeId` are a kind and a number instead of free text; all statements hold for any of them.
- ValidatedInferredProgram fields that no algorithm reads: confidence, evidence texts, package hashes beyond equality,
  dialect names, lineage records and compilation evidence.
- DraftValidation.Validate: text judgements (evidence of a join, basis of a literal, resolved period of a table) and
  currency of snapshots are parameters; the shape of boolean filter trees, a rule of the draft itself, is checked
  together with the value counts. Which diagnostic is returned is not modelled, only that there is none.
- CompiledPrograms.CompiledProgramPassesCheck: that CTE names and base tables do not carry the system prefix is
  assumed of the spelling.
- FlatCompiler.FlatCompile: the source stops with an attribute error on filter trees; the model returns None. Its check
  for missing member fields cannot fail on a valid program and is omitted.
- Adapter.Convert: which physical names have the form of a plan's column name is a parameter; names are numbers here.
- OlderCompiler.OwnAnswersForAllTables: its condition speaks of one row per source. Whether filters over those columns
  can be met together is not decided here.
- PartitionBounds.CheckBounded: regular expressions and date parsing are modelled on digits; `qualify` and name scoping
  are taken as done, subqueries are not nested inside a query, and only the bounds check of the authored-SQL validator
  is modelled.
- PartitionBounds.ForwardReferenceIsUnbounded: an alias that is not joined yet reads as NULL; name resolution of an
  engine, which may refuse the clause, is not modelled.
- PartitionBounds.AcceptedQueriesStayInside: its scope condition is sufficient; an ON clause out of scope may be
  harmless for other reasons, for instance when no row can pass it.
- CtasProgram.Validate: statements come as well-formed DROP and CREATE pairs; parsing and pairing are not modelled.
- ColumnLineage.OrderWarningExactly: it speaks of the walk; `LineageReports.WarningExactly` adds the columns and joins
  that cannot be resolved.
- ColumnLineage.LineageIsComposition: conditions on the text (one output per name, columns that name a read table) are
  stated in `ScriptInScope`; per-query warnings and the canonical form of expressions are inputs.
- RuleParser.ParseContext.ParseExpression: all kinds of rule errors are one failure; an absent string is the number 0,
  so empty datatype or language strings are not distinguished from absent ones, as in the key of the source.
- ContextWindow.MakeConfig: ratios are real numbers, not floating point.
- ContextWindow.Assemble: the summariser is a parameter that answers or fails; logging and the choice of a client are
  left out.
- TimeRequests.ParseRequest: as for `CollectTokens`, regular-expression matches with their positions are inputs, and so
  is the property that a token is adjacent to.
- TableFamilies.BuildFamilies: one signature group at a time; labels, digests and ranking scores are left out.
- The language model, HTTP routes, storage, authentication, prompts, RDF and Turtle parsing, SHACL, the catalog parser,
  the metadata editor, the evaluation runner and the front end.
