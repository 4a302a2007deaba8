/** Programs of the older compiler: when it accepts, what the result table then holds, and what is lost, since joins
    inside one source, grouping and aggregation have no counterpart in its result query.
    Models `compile` of ontology_core/inference_compiler.py. */
module OlderCompiler {
  import opened SeqOps
  import opened Sql
  import opened RelationalPlan
  import opened RelationalCompiler
  import opened PlanCompilation
  import opened JoinOrder
  import opened InferredProgram
  import opened ProgramMeaning
  import opened ProgramAnswers
  import opened AdapterPlan
  import opened AdapterJoins
  import opened AdapterOutput
  import opened Adapter
  import opened FlatCompiler
  import opened FlatMeaning
  import opened FlatCorrectness
  import opened InsideJoins
  import opened FlatColumns

  // ----- when it accepts -----

  predicate Decided(p: Program, m: Ref) {
    exists d :: d in p.decisions && d.owner == m
  }

  predicate MembersDecided(p: Program) {
    forall f, m :: f in p.families && m in f.members ==> Decided(p, m)
  }

  ghost predicate FlatJoinable(p: Program) {
    var root := FirstRoot(LogicalKeys(p), DirectedRights(p));
    root.Some? && exists order :: LegalOrder(EdgesOf(p), SourcesOf(p), root.value, order)
  }

  lemma {:induction false} BranchesExactly(p: Program, names: seq<Name>, members: seq<Ref>)
    ensures MemberBranches(p, names, members).Some? <==> forall m :: m in members ==> Decided(p, m)
  {
    hide BranchOf;
    if members != [] {
      var before, last := members[..|members| - 1], members[|members| - 1];
      assert members == before + [last];
      BranchesExactly(p, names, before);
      var d := DecisionFor(p.decisions, last);
      assert d.Some? <==> Decided(p, last);
      assert forall m :: m in members <==> m in before || m == last;
    }
  }

  lemma {:induction false} FamiliesExactly(p: Program, k: nat)
    requires k <= |p.families|
    ensures FamilyStatements(p, k).Some? <==>
              k <= MAX_STEPS && forall i, m :: 0 <= i < k && m in p.families[i].members ==> Decided(p, m)
  {
    hide MemberBranches, NeededNames;
    if k != 0 {
      FamiliesExactly(p, k - 1);
      BranchesExactly(p, NeededNames(p, p.families[k - 1]), p.families[k - 1].members);
    }
  }

  lemma DecidedByIndex(p: Program)
    ensures MembersDecided(p) <==>
              forall i, m :: 0 <= i < |p.families| && m in p.families[i].members ==> Decided(p, m)
  {
    if forall i, m :: 0 <= i < |p.families| && m in p.families[i].members ==> Decided(p, m) {
      forall f, m | f in p.families && m in f.members ensures Decided(p, m) {
        var i :| 0 <= i < |p.families| && p.families[i] == f;
      }
    }
  }

  lemma ResultExactly(p: Program)
    requires ValidProgram(p)
    ensures FlatResult(p).Some? <==> p.requested != [] && FlatJoinable(p) && !WhereOnExcluded(p)
  {
    hide ValidProgram, SourcesOf, LogicalKeys, FlatSelect, LegalOrder, WhereOnExcluded, DirectedRights, EdgesOf;
    KeysAreSources(p);
    var root := FirstRoot(LogicalKeys(p), DirectedRights(p));
    if root.Some? {
      OrderIsSoundAndComplete(EdgesOf(p), SourcesOf(p), root.value);
    }
  }

  /** The older compiler accepts a valid program exactly when something is requested, every family member has a
      period, its own first possible root reaches every source by a legal order of the joins between sources, no
      WHERE filter reads an excluded source, and there are not too many steps. Joins inside one source do not count. */
  lemma FlatProgramExactly(p: Program)
    requires ValidProgram(p)
    ensures FlatProgram(p).Some? <==>
              && p.requested != [] && MembersDecided(p) && FlatJoinable(BetweenSources(p)) && !WhereOnExcluded(p)
              && |p.families| < 99
  {
    hide ValidProgram, FlatResult, FamilyStatements, WhereOnExcluded, FlatJoinable, BetweenSources;
    FamiliesExactly(p, |p.families|);
    DecidedByIndex(p);
    BetweenIsValid(p);
    SameFamilies(p);
    ResultExactly(BetweenSources(p));
    SameWhere(p);
  }

  lemma SameWhere(p: Program)
    requires ValidProgram(p)
    ensures WhereOnExcluded(BetweenSources(p)) == WhereOnExcluded(p)
  {
    hide ValidCatalog, ValidFamilies, FieldsKnown, ValidFilters, JoinsAllowed, FilterSources, BetweenSources,
         AntiRights;
    SameFamilies(p);
    SameDirections(p);
    forall item ensures FilterSources(BetweenSources(p), item) == FilterSources(p, item) {
      FilterSourcesSame(p, item);
    }
  }

  // ----- what the result table holds -----

  lemma ResultParts(p: Program)
    requires ValidProgram(p) && FlatResult(p).Some?
    ensures FirstRoot(LogicalKeys(p), DirectedRights(p)).Some? && !WhereOnExcluded(p)
    ensures var root := FirstRoot(LogicalKeys(p), DirectedRights(p)).value;
            var order := OrderFrom(EdgesOf(p), SourcesOf(p), root);
            && ValidRoot(p, root) && order.Some? && LegalOrder(EdgesOf(p), SourcesOf(p), root, order.value)
                && EdgesKnown(p, order.value)
            && FlatResult(p).value == FlatSelect(p, root, order.value)
  {
    hide ValidProgram, SourcesOf, LogicalKeys, FlatSelect, LegalOrder, WhereOnExcluded;
    KeysAreSources(p);
    var root := FirstRoot(LogicalKeys(p), DirectedRights(p)).value;
    OrderIsSoundAndComplete(EdgesOf(p), SourcesOf(p), root);
    OrderUsesDeclared(p, root);
  }

  /** Family tables with exactly the columns that `p` mentions. */
  function FamilyTables(p: Program, world: World): map<Target, seq<Row>> {
    map i: nat | i < |p.families| ::
        StepTable(i + 1) := Map(CellsOf(p, p.families[i].ref), PushedRows(BeforeWhere(p), world, p.families[i].ref))
  }

  lemma OwnTables(p: Program, world: World)
    requires ValidProgram(p) && ValidWorld(world)
    ensures FlatContext(p, world, Context(world, FamilyTables(p, world) - {ResultTable}, map[]))
  {
    hide ValidProgram, ValidWorld, BeforeWhere, PushedRows, CellsOf, Map, FlatContext;
    forall i | 0 <= i < |p.families| ensures FamilyStored(p, world, FamilyTables(p, world), i) {
      assert StepTable(i + 1) in FamilyTables(p, world);
    }
    ContextIsFlat(p, world, FamilyTables(p, world));
  }

  // The result query over the family tables of the whole program.
  lemma ResultRows(p: Program, world: World, c: Context)
    requires ValidProgram(p) && ValidWorld(world) && FlatContext(p, world, c) && FlatResult(BetweenSources(p)).Some?
    ensures exists answers :: ListsAnswers(BetweenSources(p), world, answers)
                              && EvalSelect(FlatResult(BetweenSources(p)).value, c) == RequestedRows(p, answers)
  {
    hide ValidProgram, ValidWorld, FlatContext, BetweenSources, FlatResult, LegalOrder, LegalPrefix, SourcesOf,
         LogicalKeys, FlatSelect, RequestedRows, Reference,
         ListsAnswers, WhereOnExcluded, EvalSelect, DistinctKeys, DirectedRights, FamilyTables;
    var q := BetweenSources(p);
    BetweenIsValid(p);
    ResultParts(q);
    KeysAreSources(q);
    var root := FirstRoot(LogicalKeys(q), DirectedRights(q)).value;
    var order := OrderFrom(EdgesOf(q), SourcesOf(q), root).value;
    var d := Context(world, FamilyTables(q, world) - {ResultTable}, map[]);
    OwnTables(q, world);
    LegalOrderIsPrefix(q, root, order);
    assert Contexts(p, world, c, d);
    SurplusColumnsDoNotMatter(p, world, c, d, root, order);
    FlatSelectReturns(q, world, root, order, d);
    ReferenceLists(q, world, root, order);
    RequestedBetween(p, Reference(q, world, root, order));
  }

  lemma RequestedBetween(p: Program, envs: seq<Env>)
    ensures RequestedRows(BetweenSources(p), envs) == RequestedRows(p, envs)
  {
    hide BetweenSources, NamedRow, FieldValue;
    var q := BetweenSources(p);
    SameFamilies(p);
    forall e | e in envs ensures FieldValues(q, q.requested, e) == FieldValues(p, p.requested, e) {
      forall f ensures FieldValue(q, e, f) == FieldValue(p, e, f) {
        FieldSame(p, q, e, f);
      }
    }
    MapCong((e: Env) => NamedRow(FieldNames(q.requested), FieldValues(q, q.requested, e)),
            (e: Env) => NamedRow(FieldNames(p.requested), FieldValues(p, p.requested, e)), envs);
  }

  lemma ReferenceLists(p: Program, world: World, root: Key, order: seq<Intro>)
    requires ValidProgram(p) && ValidWorld(world) && ValidRoot(p, root)
             && LegalOrder(EdgesOf(p), SourcesOf(p), root, order) && EdgesKnown(p, order)
    ensures ListsAnswers(p, world, Reference(p, world, root, order))
  {
    hide ValidProgram, ValidWorld, LegalOrder, SourcesOf, Reference, IsAnswer;
    ReferenceIsAnswers(p, world, root, order);
  }

  /** Running an accepted program leaves the requested fields of the answers of the joins between sources in the
      result table, each answer once, whatever the program groups or aggregates. */
  lemma FlatProgramReturns(p: Program, world: World, temps: map<Target, seq<Row>>)
    requires ValidProgram(p) && ValidWorld(world) && FlatProgram(p).Some?
    ensures var after := Run(FlatProgram(p).value, world, temps);
            ResultTable in after
            && exists answers :: ListsAnswers(BetweenSources(p), world,
                                              answers) && after[ResultTable] == RequestedRows(p, answers)
  {
    hide ValidProgram, ValidWorld, BetweenSources, FlatResult, FamilyStatements, RequestedRows, ListsAnswers,
         EvalSelect, Execute, FamiliesStored, FlatContext, Run;
    var families := FamilyStatements(p, |p.families|).value;
    var body := Plain(FlatResult(BetweenSources(p)).value);
    FamiliesRun(p, world, temps, |p.families|);
    var mid := Run(families, world, temps);
    RunSnoc(families, Create(ResultTable, [], body), world, temps);
    PlainCreate(ResultTable, body, world, mid);
    ContextIsFlat(p, world, mid);
    ResultRows(p, world, Context(world, mid - {ResultTable}, map[]));
  }

  // ----- joins inside one source -----

  /** The result table holds the requested fields of the program's own answers. */
  ghost predicate ReturnsOwn(p: Program, world: World, temps: map<Target, seq<Row>>)
    requires FlatProgram(p).Some?
  {
    var after := Run(FlatProgram(p).value, world, temps);
    ResultTable in after && exists own ::
        ListsAnswers(p, world, own) && multiset(after[ResultTable]) == multiset(RequestedRows(p, own))
  }

  lemma {:induction false} NothingFiltered<A(!new)>(keep: A -> bool, xs: seq<A>)
    ensures |Filter(keep, xs)| <= |xs|
    ensures |Filter(keep, xs)| == |xs| ==> forall x :: x in xs ==> keep(x)
  {
    if xs != [] {
      NothingFiltered(keep, xs[1..]);
    }
  }

  /** The own answers among those of the joins between sources. */
  lemma OwnAnswers(p: Program, world: World, answers: seq<Env>)
    requires JoinsAllowed(p) && ListsAnswers(BetweenSources(p), world, answers)
    ensures ListsAnswers(p, world, Filter((e: Env) => InsideHold(p, e), answers))
  {
    hide JoinsAllowed, IsAnswer, InsideHold, BetweenSources;
    NoDupFilter((e: Env) => InsideHold(p, e), answers);
    forall e: Env ensures IsAnswer(p, world, e) <==> IsAnswer(BetweenSources(p), world, e) && InsideHold(p, e) {
      AnswersSplit(p, world, e);
    }
  }

  /** Dropping the joins inside one source loses nothing exactly when they hold of every answer anyway. */
  lemma OwnAnswersExactly(p: Program, world: World, temps: map<Target, seq<Row>>)
    requires ValidProgram(p) && ValidWorld(world) && FlatProgram(p).Some?
    ensures ReturnsOwn(p, world, temps) <==> forall e :: IsAnswer(BetweenSources(p), world, e) ==> InsideHold(p, e)
  {
    hide ValidCatalog, ValidFamilies, FieldsKnown, ValidFilters, JoinsAllowed, ValidWorld, BetweenSources, FlatProgram,
         RequestedRows, IsAnswer, InsideHold, Run;
    FlatProgramReturns(p, world, temps);
    var after := Run(FlatProgram(p).value, world, temps);
    var answers :| ListsAnswers(BetweenSources(p), world, answers) && after[ResultTable] == RequestedRows(p, answers);
    var keep := (e: Env) => InsideHold(p, e);
    var own := Filter(keep, answers);
    OwnAnswers(p, world, answers);
    FilterCong((e: Env) => InsideHold(p, e), keep, answers);
    if forall e :: IsAnswer(BetweenSources(p), world, e) ==> InsideHold(p, e) {
      FilterAll(keep, answers);
    }
    if ReturnsOwn(p, world, temps) {
      var listed :| ListsAnswers(p, world, listed)
          && multiset(after[ResultTable]) == multiset(RequestedRows(p, listed));
      AnswersAreOneBag(p, world, listed, own);
      SameCount(listed, own);
      SameCount(after[ResultTable], RequestedRows(p, listed));
      RequestedCount(p, listed);
      RequestedCount(p, answers);
      NothingFiltered(keep, answers);
    }
  }

  lemma SameCount<A>(xs: seq<A>, ys: seq<A>)
    requires multiset(xs) == multiset(ys)
    ensures |xs| == |ys|
  {
    assert |multiset(xs)| == |xs| && |multiset(ys)| == |ys|;
  }

  lemma RequestedCount(p: Program, envs: seq<Env>)
    ensures |RequestedRows(p, envs)| == |envs|
  {
    hide NamedRow, FieldNames, FieldValues;
  }

  lemma AnswersAreOneBag(p: Program, world: World, a: seq<Env>, b: seq<Env>)
    requires ListsAnswers(p, world, a) && ListsAnswers(p, world, b)
    ensures multiset(a) == multiset(b)
  {
    hide IsAnswer;
    NoDupSameBag(a, b);
  }

  // ----- one row of each source decides -----

  function OwnRow(p: Program, e: Env, t: Ref): seq<BaseRow> {
    var s := KeyOf(p, t);
    if s in e && e[s].Some? && e[s].value.table == t then [e[s].value] else []
  }

  /** The store that holds the rows of one environment and nothing else. */
  function JustThese(p: Program, e: Env, lit: Literals): World {
    World(map t | t in Refs(p.objects) :: OwnRow(p, e, t), lit)
  }

  lemma JustTheseIsValid(p: Program, e: Env, lit: Literals)
    ensures ValidWorld(JustThese(p, e, lit))
  {
  }

  /** Every bound row comes from a table of its source. */
  ghost predicate Placed(p: Program, e: Env) {
    forall s :: s in e && e[s].Some? ==> e[s].value.table in Refs(p.objects) && KeyOf(p, e[s].value.table) == s
  }

  lemma StoredIsPlaced(p: Program, world: World, e: Env)
    requires ValidProgram(p) && ValidWorld(world) && FromStore(p, world, e) && e.Keys <= SourcesOf(p)
    ensures Placed(p, e)
  {
    hide ValidProgram, ValidWorld, RawRows, KeyOf, SourcesOf;
    forall s | s in e && e[s].Some? ensures e[s].value.table in Refs(p.objects) && KeyOf(p, e[s].value.table) == s {
      RowOfSource(p, world, s, e[s].value);
      RowTable(p, world, s, e[s].value);
    }
  }

  lemma JustTheseRows(p: Program, e: Env, lit: Literals, s: Key, b: BaseRow)
    requires ValidProgram(p) && Placed(p, e) && s in SourcesOf(p)
    ensures b in RawRows(p, JustThese(p, e, lit), s) <==> s in e && e[s] == Some(b)
  {
    hide ValidProgram, RawRows, OwnRow, KeyOf, SourcesOf;
    JustTheseIsValid(p, e, lit);
    InRawRows(p, JustThese(p, e, lit), s, b);
    OwnRowIs(p, e, b.table, b);
  }

  lemma OwnRowIs(p: Program, e: Env, t: Ref, b: BaseRow)
    ensures b in OwnRow(p, e, t) <==> KeyOf(p, t) in e && e[KeyOf(p, t)] == Some(b) && b.table == t
  {
  }

  // The tables of a source.
  lemma InRawRows(p: Program, world: World, s: Key, b: BaseRow)
    requires ValidProgram(p) && ValidWorld(world) && s in SourcesOf(p)
    ensures b in RawRows(p, world, s) <==>
            b.table in Refs(p.objects) && KeyOf(p, b.table) == s && b in Stored(world, b.table)
  {
    hide ValidCatalog, FieldsKnown, ValidFilters, JoinsAllowed;
    MembersFound(p.families, s);
    var members := MembersOf(p.families, s);
    if members.Some? {
      var f :| f in p.families && f.ref == s && f.members == members.value;
      FlatMapMember((m: Ref) => Stored(world, m), members.value, b);
      if b in RawRows(p, world, s) {
        var m :| m in members.value && b in Stored(world, m);
        MemberKey(p, f, m);
      }
      if b.table in Refs(p.objects) && KeyOf(p, b.table) == s && b in Stored(world, b.table) {
        FamilyOfSound(p.families, b.table);
        if FamilyOf(p.families, b.table).Some? {
          var g :| g in p.families && b.table in g.members && g.ref == s;
          SameFamily(p, f, g);
        }
      }
    } else {
      var o :| o in p.objects && FamilyOf(p.families, o.ref).None? && o.ref == s;
      FamilyOfSound(p.families, b.table);
    }
  }

  /** A joined row that is an answer over some tables is one over its own rows alone. */
  lemma AnswerAlone(p: Program, world: World, e: Env)
    requires ValidProgram(p) && ValidWorld(world) && IsAnswer(p, world, e)
    ensures IsAnswer(p, JustThese(p, e, world.literal), e)
  {
    hide ValidCatalog, ValidFamilies, ValidFilters, JoinsAllowed, RawRows, KeyOf, SourcesOf, HoldsOn, FieldsOf,
         DirectedRights, AntiRights, FilterSources, Placed;
    StoredIsPlaced(p, world, e);
    var small := JustThese(p, e, world.literal);
    forall s | s in SourcesOf(p) ensures forall b :: b in RawRows(p, small, s) <==> s in e && e[s] == Some(b) {
      forall b: BaseRow {
        JustTheseRows(p, e, world.literal, s, b);
      }
    }
    SmallHolds(p, world, small, e);
    forall j | j in p.joins ensures JoinHolds(p, small, j, e) {
      RightIsSource(p, j);
      SmallJoinHolds(p, world, small, j, e);
    }
  }

  lemma RightIsSource(p: Program, j: JoinSpec)
    requires ValidProgram(p) && j in p.joins
    ensures KeyOf(p, j.right.owner) in SourcesOf(p)
    ensures j.joinType == Anti ==> KeyOf(p, j.right.owner) in AntiRights(p)
  {
    hide ValidFamilies, ValidFilters, JoinsAllowed, KeyOf, SourcesOf, FieldsOf;
    FieldKeyIsSource(p, j.right);
  }

  // Conditions on rows do not depend on what else is stored.
  lemma SmallHolds(p: Program, world: World, small: World, e: Env)
    requires small.literal == world.literal
    ensures WhereRaw(p, small, e) == WhereRaw(p, world, e)
    ensures forall s, b :: OnFiltersHold(p, small, s, b) == OnFiltersHold(p, world, s, b)
    ensures forall b :: InPeriod(p, small, b) == InPeriod(p, world, b)
  {
    hide IsOnFilter, DirectedRights, FilterSources, TemporalPred;
    forall pred: Pred<Field>, d: Env ensures HoldsOn(p, small, pred, d) == HoldsOn(p, world, pred, d) {
    }
    hide HoldsOn;
    forall b ensures InPeriod(p, small, b) == InPeriod(p, world, b) {
    }
  }

  lemma SmallJoinHolds(p: Program, world: World, small: World, j: JoinSpec, e: Env)
    requires JoinHolds(p, world, j, e) && FromStore(p, world, e)
    requires var right := KeyOf(p, j.right.owner);
             forall b :: b in RawRows(p, small, right) <==> right in e && e[right] == Some(b)
    requires j.joinType == Anti ==> KeyOf(p, j.right.owner) !in e
    requires forall s, b :: OnFiltersHold(p, small, s, b) == OnFiltersHold(p, world, s, b)
    requires forall b :: InPeriod(p, small, b) == InPeriod(p, world, b)
    ensures JoinHolds(p, small, j, e)
  {
    hide RawRows, KeyOf, FieldValue, OnFiltersHold, InPeriod;
  }

  /** Over all tables at once: for literals read by `lit`, an accepted program always returns its own answers exactly
      when no choice of at most one row for each source is an answer by itself and breaks an inside join. */
  lemma OwnAnswersForAllTables(p: Program, lit: Literals)
    requires ValidProgram(p) && FlatProgram(p).Some?
    ensures (forall world, temps :: ValidWorld(world) && world.literal == lit ==> ReturnsOwn(p, world, temps))
       <==> (forall e :: IsAnswer(BetweenSources(p), JustThese(p, e, lit), e) ==> InsideHold(p, e))
  {
    hide ValidProgram, ValidWorld, BetweenSources, FlatProgram, IsAnswer, InsideHold, ReturnsOwn, JustThese;
    if forall world, temps :: ValidWorld(world) && world.literal == lit ==> ReturnsOwn(p, world, temps) {
      forall e | IsAnswer(BetweenSources(p), JustThese(p, e, lit), e) ensures InsideHold(p, e) {
        var small := JustThese(p, e, lit);
        JustTheseIsValid(p, e, lit);
        JustTheseReads(p, e, lit);
        assert ReturnsOwn(p, small, map[]);
        OwnAnswersExactly(p, small, map[]);
      }
    }
    if forall e :: IsAnswer(BetweenSources(p), JustThese(p, e, lit), e) ==> InsideHold(p, e) {
      forall world, temps | ValidWorld(world) && world.literal == lit ensures ReturnsOwn(p, world, temps) {
        forall e | IsAnswer(BetweenSources(p), world, e) ensures InsideHold(p, e) {
          BetweenIsValid(p);
          AnswerAlone(BetweenSources(p), world, e);
          JustTheseBetween(p, e, lit);
        }
        OwnAnswersExactly(p, world, temps);
      }
    }
  }

  lemma JustTheseReads(p: Program, e: Env, lit: Literals)
    ensures JustThese(p, e, lit).literal == lit
  {
  }

  lemma JustTheseBetween(p: Program, e: Env, lit: Literals)
    ensures JustThese(BetweenSources(p), e, lit) == JustThese(p, e, lit)
  {
    hide BetweenSources, KeyOf;
    SameFamilies(p);
    forall t ensures OwnRow(BetweenSources(p), e, t) == OwnRow(p, e, t) {
    }
  }

  /** A program whose joins the adapter supports has no join inside one source to drop. */
  lemma NothingIgnored(p: Program, graph: EvidenceGraph)
    requires JoinsSupported(p, graph)
    ensures BetweenSources(p) == p
  {
    FilterAll((j: JoinSpec) => KeyOf(p, j.left.owner) != KeyOf(p, j.right.owner), p.joins);
  }

  // ----- both compilers on one program -----

  lemma {:induction false} NamedKeys(names: seq<Column>, values: seq<Value>)
    requires |names| == |values|
    ensures forall c :: c in NamedRow(names, values) <==> c in names
  {
    if names != [] {
      var n := |names| - 1;
      NamedKeys(names[..n], values[..n]);
      assert names == names[..n] + [names[n]];
    }
  }

  lemma OccurrencesEmpty<A>(xs: seq<A>)
    ensures FirstOccurrences(xs) == [] <==> xs == []
  {
    if xs != [] {
      var before := FirstOccurrences(xs[..|xs| - 1]);
      assert xs[|xs| - 1] in FirstOccurrences(xs);
    }
  }

  /** Every row of an aggregated output has every aggregation's column; there is none exactly when nothing is grouped.
      */
  lemma AggregatedRows(p: Program, envs: seq<Env>)
    requires p.aggregations != []
    ensures OutputRows(p, envs) == [] <==> p.groupBy != [] && envs == []
    ensures forall row :: row in OutputRows(p, envs) ==> Physical(p.aggregations[0].name) in row
  {
    hide GroupInputOf, AggregateValue, NamedRow;
    var keys, specs := FieldNames(p.groupBy), Map(SpecFor, p.aggregations);
    var inputs := Map((e: Env) => GroupInputOf(p, e), envs);
    var keyed := Map((i: AggInput) => i.key, inputs);
    OccurrencesEmpty(keyed);
    var groups := if keys == [] then [[]] else FirstOccurrences(keyed);
    var rows := OutputRows(p, envs);
    assert |rows| == |groups|;
    forall row | row in rows ensures Physical(p.aggregations[0].name) in row {
      var i :| 0 <= i < |rows| && rows[i] == row;
      assert row == GroupRow(keys, specs, groups[i], inputs);
      GroupNames(keys, specs, groups[i], inputs);
      assert specs[0].name in Map((s: AggSpec) => s.name, specs) by { assert Map((s: AggSpec) => s.name, specs)[0]
                                                                     == specs[0].name; }
    }
  }

  lemma GroupNames(keys: seq<Column>, specs: seq<AggSpec>, key: seq<Value>, inputs: seq<AggInput>)
    ensures forall c :: c in GroupRow(keys, specs, key, inputs) <==> c in keys + Map((s: AggSpec) => s.name, specs)
  {
    hide AggregateValue, NamedRow;
    var members := Filter((i: AggInput) => i.key == key, inputs);
    var values := seq(|specs|, j requires 0 <= j < |specs| =>
      AggregateValue(specs[j], Map((i: AggInput) => if j < |i.args| then i.args[j] else Null, members)));
    var keyValues := seq(|keys|, j requires 0 <= j < |keys| => if j < |key| then key[j] else Null);
    NamedKeys(keys + Map((s: AggSpec) => s.name, specs), keyValues + values);
  }

  /** Without grouping no such column appears. */
  lemma RequestedLack(p: Program, envs: seq<Env>)
    requires p.aggregations != [] && OutputsGrouped(p) && NoDup(OutputNames(p))
    ensures forall row :: row in RequestedRows(p, envs) ==> Physical(p.aggregations[0].name) !in row
  {
    hide NamedRow, FieldValue, OutputsGrouped;
    var name := Physical(p.aggregations[0].name);
    GroupedNames(p);
    var rows := RequestedRows(p, envs);
    forall row | row in rows ensures name !in row {
      var i :| 0 <= i < |rows| && rows[i] == row;
      NamedKeys(FieldNames(p.requested), FieldValues(p, p.requested, envs[i]));
    }
  }

  lemma GroupedNames(p: Program)
    requires p.aggregations != [] && OutputsGrouped(p) && NoDup(OutputNames(p))
    ensures Physical(p.aggregations[0].name) !in FieldNames(p.requested)
  {
    var names, grouped := OutputNames(p), FieldNames(p.groupBy);
    assert names[|grouped|] == Physical(p.aggregations[0].name);
    forall i | 0 <= i < |p.requested| ensures FieldNames(p.requested)[i] != Physical(p.aggregations[0].name) {
      assert p.requested[i] in p.groupBy;
      var k :| 0 <= k < |p.groupBy| && p.groupBy[k] == p.requested[i];
      assert names[k] == grouped[k] == Physical(p.requested[i].physical);
    }
  }

  lemma OutputIsRequested(p: Program, envs: seq<Env>)
    requires p.aggregations == []
    ensures OutputRows(p, envs) == RequestedRows(p, envs)
  {
    hide NamedRow, FieldNames, FieldValues;
  }

  lemma RequestedOfBag(p: Program, a: seq<Env>, b: seq<Env>)
    requires multiset(a) == multiset(b)
    ensures multiset(RequestedRows(p, a)) == multiset(RequestedRows(p, b))
  {
    hide NamedRow;
    var named := (e: Env) => NamedRow(FieldNames(p.requested), FieldValues(p, p.requested, e));
    MapSameBag(named, a, b);
    MapCong((e: Env) => NamedRow(FieldNames(p.requested), FieldValues(p, p.requested, e)), named, a);
    MapCong((e: Env) => NamedRow(FieldNames(p.requested), FieldValues(p, p.requested, e)), named, b);
  }

  /** When the requested rows of one list and the aggregated rows of another are one bag. */
  lemma AggregatedExactly(p: Program, own: seq<Env>, answers: seq<Env>)
    requires p.aggregations != [] && OutputsGrouped(p) && NoDup(OutputNames(p)) && forall e :: e in own ==> e in answers
    ensures multiset(OutputRows(p, own)) == multiset(RequestedRows(p, answers)) <==> p.groupBy != [] && answers == []
  {
    hide OutputRows, RequestedRows, OutputsGrouped, OutputNames;
    AggregatedRows(p, own);
    RequestedLack(p, answers);
    RequestedCount(p, answers);
    var dag, flat := OutputRows(p, own), RequestedRows(p, answers);
    if own != [] {
      assert own[0] in own;
    }
    if multiset(dag) == multiset(flat) {
      SameCount(dag, flat);
      SameBagSameMembers(dag, flat);
      NoMemberIsEmpty(dag);
    }
  }

  /** The two compilers on a program that both accept, whatever roots and join orders they pick. Without aggregation
      their result tables are one bag exactly when the joins inside sources hold of every answer of the others;
      with aggregation exactly when there is a grouping and nothing to group. */
  lemma CompilersAgreeExactly(p: Program, plan: Plan, world: World, temps: map<Target, seq<Row>>,
          temps': map<Target, seq<Row>>)
    requires ValidProgram(p) && ValidWorld(world) && OutputsGrouped(p) && NoDup(OutputNames(p))
    requires Correct(p, plan) && Compile(plan).Some? && FlatProgram(p).Some?
    ensures var dag, flat := Run(Compile(plan).value, world, temps), Run(FlatProgram(p).value, world, temps');
            && ResultTable in dag && ResultTable in flat
            && (multiset(dag[ResultTable]) == multiset(flat[ResultTable]) <==>
                  if p.aggregations == [] then forall e :: IsAnswer(BetweenSources(p), world, e) ==> InsideHold(p, e)
                  else p.groupBy != [] && forall e :: !IsAnswer(BetweenSources(p), world, e))
  {
    hide ValidProgram, ValidWorld, Compile, FlatProgram, Run, OutputRows, RequestedRows, Returns, PlanRows,
         ValidatePlan, OutputsGrouped, OutputNames,
         IsAnswer, InsideHold, BetweenSources;
    PipelineReturnsAnswers(p, plan, world, temps);
    FlatProgramReturns(p, world, temps');
    var dag, flat := Run(Compile(plan).value, world, temps), Run(FlatProgram(p).value, world, temps');
    var own :| ListsAnswers(p, world, own) && dag[ResultTable] == OutputRows(p, own);
    var answers :| ListsAnswers(BetweenSources(p), world, answers) && flat[ResultTable] == RequestedRows(p, answers);
    if p.aggregations == [] {
      OutputIsRequested(p, own);
      OwnAnswersExactly(p, world, temps');
      OwnBag(p, world, own, flat[ResultTable]);
      assert ReturnsOwn(p, world, temps') <==> multiset(flat[ResultTable]) == multiset(RequestedRows(p, own));
    } else {
      OwnAmong(p, world, own, answers);
      AggregatedExactly(p, own, answers);
      if answers != [] {
        assert answers[0] in answers;
      }
    }
  }

  lemma OwnBag(p: Program, world: World, own: seq<Env>, rows: seq<Row>)
    requires ListsAnswers(p, world, own)
    ensures (exists other :: ListsAnswers(p, world, other) && multiset(rows) == multiset(RequestedRows(p, other)))
       <==> multiset(rows) == multiset(RequestedRows(p, own))
  {
    hide ListsAnswers, RequestedRows;
    forall other | ListsAnswers(p, world, other)
        ensures multiset(RequestedRows(p, other)) == multiset(RequestedRows(p, own)) {
      AnswersAreOneBag(p, world, other, own);
      RequestedOfBag(p, other, own);
    }
  }

  lemma OwnAmong(p: Program, world: World, own: seq<Env>, answers: seq<Env>)
    requires ValidProgram(p) && ListsAnswers(p, world, own) && ListsAnswers(BetweenSources(p), world, answers)
    ensures forall e :: e in own ==> e in answers
  {
    hide ValidCatalog, ValidFamilies, FieldsKnown, ValidFilters, JoinsAllowed, IsAnswer, BetweenSources, InsideHold;
    forall e | e in own ensures e in answers {
      AnswersSplit(p, world, e);
    }
  }

  /** On a program that the adapter converts and the older compiler accepts, both result tables are one bag of rows
      exactly when nothing is aggregated, or there are groups to form and no answers to form them from. */
  lemma CompilersAgree(p: Program, snapshot: nat, graph: EvidenceGraph, plain: Name -> bool, plan: Plan, world: World,
                       temps: map<Target, seq<Row>>, temps': map<Target, seq<Row>>)
    requires ValidProgram(p) && ValidWorld(world) && Convertible(p, snapshot, graph, plain)
    requires Correct(p, plan) && Compile(plan).Some? && FlatProgram(p).Some?
    ensures var dag, flat := Run(Compile(plan).value, world, temps), Run(FlatProgram(p).value, world, temps');
            && ResultTable in dag && ResultTable in flat
            && (multiset(dag[ResultTable]) == multiset(flat[ResultTable]) <==>
                  p.aggregations == [] || (p.groupBy != [] && forall e :: !IsAnswer(p, world, e)))
  {
    hide ValidProgram, ValidWorld, Correct, Compile, FlatProgram, Run, IsAnswer, OutputsGrouped, JoinsSupported,
         EveryTableAsked, Joinable;
    NothingIgnored(p, graph);
    NothingInside(p, graph);
    CompilersAgreeExactly(p, plan, world, temps, temps');
  }

  lemma NothingInside(p: Program, graph: EvidenceGraph)
    requires JoinsSupported(p, graph)
    ensures forall e :: InsideHold(p, e)
  {
  }
}
