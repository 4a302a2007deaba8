/** The flat query returns the requested fields of the program's answers, and family statements store what it reads. */
module FlatCorrectness {
  import opened SeqOps
  import opened Sql
  import opened RelationalPlan
  import opened RelationalCompiler
  import opened JoinOrder
  import opened InferredProgram
  import opened ProgramMeaning
  import opened ProgramAnswers
  import opened AdapterPlan
  import opened AdapterNodes
  import opened AdapterJoins
  import opened AdapterOutput
  import opened AdapterStages
  import opened AdapterCorrectness
  import opened FlatCompiler
  import opened FlatMeaning

  // ----- FROM and the anti conditions -----

  // A source excluded by NOT EXISTS adds no alias: its condition decides about the scope as it is.
  lemma NotExistsKeeps(p: Program, world: World, present: set<Key>, e: Env, s: Intro, c: Context)
    requires ValidProgram(p) && ValidWorld(world) && DistinctKeys(p) && StepFits(p, present, e, s)
             && FlatContext(p, world, c)
    requires IsNotExists(p.joins[s.edge]) && s.edge < |BeforeWhere(p).joins|
    ensures PushedStep(BeforeWhere(p), world, s, e) == if AllWhere(StepWhere(p, s), ScopeOf(p, present, e), c)
            then [e] else []
  {
    hide ValidProgram, ValidWorld, DistinctKeys, KeyOf, ScopeOf, SourcesOf, AliasOf, RowCells, OnOf, DirectedRights,
         BeforeWhere, OnPushed, RelationFor, Partners, PushedRows, FlatContext, CellsOf, PushedStep;
    var q := BeforeWhere(p);
    SameSources(p);
    FlatPartnersAre(p, world, present, e, s, c);
    StepIsMatched(q, world, e, s);
    var cond := NotExists(SourceFor(p, s.source), OnOf(p, s));
    SingleWhere(cond, ScopeOf(p, present, e), c);
  }

  lemma SingleWhere(cond: WhereCond, scope: Scope, c: Context)
    ensures AllWhere([cond], scope, c) <==> WhereHolds(cond, scope, c)
  {
    hide WhereHolds;
    assert [cond][0] == cond;
  }

  // One more join clause or NOT EXISTS, on a chain that already matches.
  lemma StepScopes(p: Program, world: World, root: Key, order: seq<Intro>, c: Context, scopes: seq<Scope>)
    requires ValidProgram(p) && ValidWorld(world) && DistinctKeys(p) && FlatContext(p, world, c)
    requires LegalPrefix(p, root, order) && order != [] && EdgesKnown(p, order) && EdgesKnown(p, order[..|order| - 1])
    requires EdgesKnown(BeforeWhere(p), order) && EdgesKnown(BeforeWhere(p), order[..|order| - 1])
    requires order[|order| - 1].edge < |p.joins| && order[|order| - 1].edge < |BeforeWhere(p).joins|
    requires scopes == Map(Outcome(p, Present(p, root, order[..|order| - 1])),
                           PushedChain(BeforeWhere(p), world, root, order[..|order| - 1]))
    ensures var s := order[|order| - 1];
            var after := Map(Outcome(p, Present(p, root, order)), PushedChain(BeforeWhere(p), world, root, order));
            if IsNotExists(p.joins[s.edge]) then Filter(StepAll(StepWhere(p, s), c), scopes) == after
            else FlatMap((scope: Scope) => Filter(StepAll(StepWhere(p, s), c),
                                                  JoinScope(scope, StepJoins(p, s)[0], c)), scopes) == after
  {
    hide ValidProgram, ValidWorld, DistinctKeys, FlatContext, LegalPrefix, BeforeWhere, PushedStep, StepWhere, ScopeOf,
         StepFits, JoinScope, OnOf, SourceFor, AllWhere, Map, FlatMap, Filter, EdgesKnown;
    var n := |order| - 1;
    var s := order[n];
    var q := BeforeWhere(p);
    var present := Present(p, root, order[..n]);
    var chain := PushedChain(q, world, root, order[..n]);
    var step := (e: Env) => PushedStep(q, world, s, e);
    var test := StepAll(StepWhere(p, s), c);
    PresentSnoc(p, root, order);
    ChainSnoc(q, world, root, order);
    FlatMapCong((e: Env) => PushedStep(q, world, order[|order| - 1], e), step, chain);
    if IsNotExists(p.joins[s.edge]) {
      var keep := (e: Env) => AllWhere(StepWhere(p, s), ScopeOf(p, present, e), c);
      forall e | e in chain ensures step(e) == if keep(e) then [e] else [] {
        StepFitsChain(p, world, root, order, e);
        NotExistsKeeps(p, world, present, e, s, c);
      }
      var single, same := (e: Env) => [e], (e: Env) => e;
      FlatMapGuard(step, keep, single, chain);
      FlatMapSingleton(single, same, Filter(keep, chain));
      MapIdentity(same, Filter(keep, chain));
      assert present + {} == present;
      FilterMap(test, Outcome(p, present), keep, chain);
    } else {
      var joins := (scope: Scope) => Filter(test, JoinScope(scope, StepJoins(p, s)[0], c));
      var more := present + {s.source};
      var both := (e: Env) => Map(Outcome(p, more), PushedStep(q, world, s, e));
      forall e | e in chain ensures both(e) == joins(Outcome(p, present)(e)) {
        StepFitsChain(p, world, root, order, e);
        JoinedScopes(p, world, present, e, s, c);
      }
      FlatMapMap(Outcome(p, present), joins, both, chain);
      MapFlatMap(Outcome(p, more), step, both, chain);
      FlatMapCong((scope: Scope) => Filter(StepAll(StepWhere(p, s), c),
                                           JoinScope(scope, StepJoins(p, s)[0], c)), joins, scopes);
    }
  }

  lemma PresentSnoc(p: Program, root: Key, order: seq<Intro>)
    requires order != [] && EdgesKnown(p, order) && EdgesKnown(p, order[..|order| - 1])
             && order[|order| - 1].edge < |p.joins|
    ensures Present(p, root, order) == Present(p, root, order[..|order| - 1])
            + if IsNotExists(p.joins[order[|order| - 1].edge]) then {} else {order[|order| - 1].source}
  {
  }

  lemma {:induction false} MapIdentity<A>(same: A -> A, xs: seq<A>)
    requires forall x :: x in xs ==> same(x) == x
    ensures Map(same, xs) == xs
  {
    if xs != [] {
      MapIdentity(same, xs[1..]);
    }
  }

  // Filtering after a join clause, when earlier conditions do not read the new alias.
  lemma FilterThroughJoin(p: Program, root: Key, order: seq<Intro>, c: Context, from: seq<Scope>)
    requires ValidProgram(p) && DistinctKeys(p) && LegalPrefix(p, root, order) && order != []
    requires EdgesKnown(p, order) && EdgesKnown(p, order[..|order| - 1]) && order[|order| - 1].edge < |p.joins|
    requires !IsNotExists(p.joins[order[|order| - 1].edge])
    ensures var s := order[|order| - 1];
            var before := StepAll(FlatAntis(p, order[..|order| - 1]), c);
            Filter(StepAll(FlatAntis(p, order), c),
                   FlatMap((scope: Scope) => JoinScope(scope, StepJoins(p, s)[0], c), from)) ==
            FlatMap((scope: Scope) => Filter(StepAll(StepWhere(p, s), c),
                                             JoinScope(scope, StepJoins(p, s)[0], c)), Filter(before, from))
  {
    hide ValidProgram, DistinctKeys, LegalPrefix, StepWhere, OnOf, AllWhere, Map, FlatMap, Filter, EdgesKnown,
         Partners, AliasOf, RelationFor, FlatAntis, Reached, SourcesOf;
    var n := |order| - 1;
    var s := order[n];
    var before := StepAll(FlatAntis(p, order[..n]), c);
    var test := StepAll(StepWhere(p, s), c);
    var total := StepAll(FlatAntis(p, order), c);
    var clause := StepJoins(p, s)[0];
    var joins := (scope: Scope) => JoinScope(scope, clause, c);
    var kept := (scope: Scope) => Filter(test, JoinScope(scope, clause, c));
    AntisSnoc(p, order);
    LastStep(p, root, order);
    forall scope | scope in from ensures Filter(total, joins(scope)) == if before(scope) then kept(scope) else [] {
      forall d | d in joins(scope) ensures total(d) == (before(scope) && test(d)) {
        var r := BoundRow(scope, clause, c, d);
        AntisFrame(p, root, order[..n], s.source, scope, r, c);
        AllWhereSplit(FlatAntis(p, order[..n]), StepWhere(p, s), d, c);
      }
      if before(scope) {
        FilterCong(total, test, joins(scope));
      } else {
        FilterNone(total, joins(scope));
      }
    }
    FilterFlatMap(total, joins, before, kept, from);
    FlatMapCong((scope: Scope) => JoinScope(scope, StepJoins(p, s)[0], c), joins, from);
    FlatMapCong((scope: Scope) => Filter(StepAll(StepWhere(p, s), c),
                                         JoinScope(scope, StepJoins(p, s)[0], c)), kept, Filter(before, from));
  }

  lemma AntisSnoc(p: Program, order: seq<Intro>)
    requires order != [] && EdgesKnown(p, order) && EdgesKnown(p, order[..|order| - 1])
             && order[|order| - 1].edge < |p.joins|
    ensures FlatAntis(p, order) == FlatAntis(p, order[..|order| - 1]) + StepWhere(p, order[|order| - 1])
    ensures FlatJoins(p, order) == FlatJoins(p, order[..|order| - 1]) + StepJoins(p, order[|order| - 1])
  {
  }

  lemma LastStep(p: Program, root: Key, order: seq<Intro>)
    requires LegalPrefix(p, root, order) && order != []
    ensures LegalPrefix(p, root, order[..|order| - 1])
    ensures order[|order| - 1].source in SourcesOf(p)
            && order[|order| - 1].source !in Reached({root}, order[..|order| - 1])
  {
    LegalPrefixShorter(p, root, order);
    StepFacts(p, Reached({root}, order[..|order| - 1]), order[|order| - 1]);
  }

  lemma BoundRow(scope: Scope, clause: JoinClause, c: Context, d: Scope) returns (r: Row)
    requires d in JoinScope(scope, clause, c)
    ensures d == scope[clause.source.alias := r]
  {
    var partners := Partners(clause.source, clause.on, scope, c);
    if clause.outer && partners == [] {
      r := map[];
    } else {
      var out := JoinScope(scope, clause, c);
      var i :| 0 <= i < |out| && out[i] == d;
      r := partners[i];
    }
  }

  lemma FromSnoc(from: Source, joins: seq<JoinClause>, clause: JoinClause, c: Context)
    ensures FromScopes(from, joins + [clause], c)
            == FlatMap((scope: Scope) => JoinScope(scope, clause, c), FromScopes(from, joins, c))
  {
    hide JoinScope;
    var all := joins + [clause];
    assert all[..|all| - 1] == joins;
    FlatMapCong((scope: Scope) => JoinScope(scope, all[|all| - 1],
                                            c), (scope: Scope) => JoinScope(scope, clause, c), FromScopes(from, joins,
                                                c));
  }

  /** FROM and the anti conditions denote the scopes of the environments joined so far. */
  lemma {:induction false} FlatScopes(p: Program, world: World, root: Key, order: seq<Intro>, c: Context)
    requires ValidProgram(p) && ValidWorld(world) && DistinctKeys(p) && FlatContext(p, world, c)
    requires LegalPrefix(p, root, order) && EdgesKnown(p, order) && EdgesKnown(BeforeWhere(p), order)
    ensures Filter(StepAll(FlatAntis(p, order), c), FromScopes(SourceFor(p, root), FlatJoins(p, order), c))
         == Map(Outcome(p, Present(p, root, order)), PushedChain(BeforeWhere(p), world, root, order))
    decreases |order|
  {
    hide ValidProgram, ValidWorld, DistinctKeys, FlatContext, LegalPrefix, BeforeWhere, StepWhere, OnOf, AllWhere, Map,
         FlatMap, Filter, PushedChain, FromScopes, FlatAntis, FlatJoins, SourceFor, JoinScope, SourcesOf;
    if order == [] {
      NoSteps(p, world, root, c);
    } else {
      var n := |order| - 1;
      var s := order[n];
      LastStepKnown(p, root, order);
      FlatScopes(p, world, root, order[..n], c);
      AntisSnoc(p, order);
      var from := FromScopes(SourceFor(p, root), FlatJoins(p, order[..n]), c);
      var before := StepAll(FlatAntis(p, order[..n]), c);
      StepScopes(p, world, root, order, c, Filter(before, from));
      if IsNotExists(p.joins[s.edge]) {
        forall d | d in from
            ensures StepAll(FlatAntis(p, order), c)(d) == (before(d) && StepAll(StepWhere(p, s), c)(d)) {
          AllWhereSplit(FlatAntis(p, order[..n]), StepWhere(p, s), d, c);
        }
        FilterFilter(before, StepAll(StepWhere(p, s), c), StepAll(FlatAntis(p, order), c), from);
        assert FlatJoins(p, order) == FlatJoins(p, order[..n]);
      } else {
        FromSnoc(SourceFor(p, root), FlatJoins(p, order[..n]), StepJoins(p, s)[0], c);
        FilterThroughJoin(p, root, order, c, from);
        assert StepJoins(p, s) == [StepJoins(p, s)[0]];
      }
    }
  }

  lemma NoSteps(p: Program, world: World, root: Key, c: Context)
    requires DistinctKeys(p) && FlatContext(p, world, c) && LegalPrefix(p, root, []) && EdgesKnown(p, [])
             && EdgesKnown(BeforeWhere(p), [])
    ensures Filter(StepAll(FlatAntis(p, []), c), FromScopes(SourceFor(p, root), FlatJoins(p, []), c))
         == Map(Outcome(p, Present(p, root, [])), PushedChain(BeforeWhere(p), world, root, []))
  {
    hide DistinctKeys, FlatContext, BeforeWhere, FromScopes, SourceFor, ScopeOf, StartEnvs, SourcesOf, PushedRows;
    StartScopes(p, world, root, c);
    var from := FromScopes(SourceFor(p, root), [], c);
    FilterAll(StepAll([], c), from);
  }

  lemma LastStepKnown(p: Program, root: Key, order: seq<Intro>)
    requires LegalPrefix(p, root, order) && order != [] && EdgesKnown(p, order) && EdgesKnown(BeforeWhere(p), order)
    ensures LegalPrefix(p, root, order[..|order| - 1]) && EdgesKnown(p, order[..|order| - 1])
            && EdgesKnown(BeforeWhere(p), order[..|order| - 1])
    ensures order[|order| - 1].edge < |p.joins| && order[|order| - 1].edge < |BeforeWhere(p).joins|
  {
    hide LegalStep, BeforeWhere;
    LegalPrefixShorter(p, root, order);
    assert order[|order| - 1] in order;
  }

  // ----- WHERE and SELECT -----

  lemma PartsHold(p: Program, preds: seq<Pred<Field>>, scope: Scope, c: Context)
    ensures AllWhere(Map((q: Pred<Field>) => Holds(FlatPred(p, q)), preds), scope, c)
        <==> forall q :: q in preds ==> WhereHolds(Holds(FlatPred(p, q)), scope, c)
  {
    hide WhereHolds, FlatPred;
    var conds := Map((q: Pred<Field>) => Holds(FlatPred(p, q)), preds);
    if AllWhere(conds, scope, c) {
      forall q | q in preds ensures WhereHolds(Holds(FlatPred(p, q)), scope, c) {
        var i :| 0 <= i < |preds| && preds[i] == q;
        assert WhereHolds(conds[i], scope, c);
      }
    }
    if forall q :: q in preds ==> WhereHolds(Holds(FlatPred(p, q)), scope, c) {
      forall i | 0 <= i < |conds| ensures WhereHolds(conds[i], scope, c) {
        assert preds[i] in preds;
      }
    }
  }

  predicate WherePeriod(p: Program, d: Decision) {
    FamilyOf(p.families, d.owner).None? && KeyOf(p, d.owner) !in DirectedRights(p)
  }

  lemma PartMembers(p: Program, q: Pred<Field>)
    ensures q in WhereParts(p) <==>
              (exists item :: item in p.filters && !IsOnFilter(p, item) && item.pred == q)
              || (exists d :: d in p.decisions && WherePeriod(p, d) && TemporalPred(d) == q)
  {
    hide TemporalPred, IsOnFilter, KeyOf, DirectedRights;
    var items := Filter((item: FilterSpec) => !IsOnFilter(p, item), p.filters);
    var decisions := Filter((d: Decision) => FamilyOf(p.families,
                                                      d.owner).None? && KeyOf(p, d.owner) !in DirectedRights(p),
                                                          p.decisions);
    var fromItems, fromDecisions := Map((item: FilterSpec) => item.pred, items), Map(TemporalPred, decisions);
    assert WhereParts(p) == fromItems + fromDecisions;
    MapHas((item: FilterSpec) => item.pred, items, q);
    MapHas(TemporalPred, decisions, q);
    assert forall d :: d in decisions <==> d in p.decisions && WherePeriod(p, d);
  }

  lemma NotInOnIsPresent(p: Program, item: FilterSpec, f: Field)
    requires ValidProgram(p) && !WhereOnExcluded(p) && item in p.filters && !IsOnFilter(p, item)
             && f in Leaves(item.pred)
    ensures KeyOf(p, f.owner) !in AntiRights(p)
  {
    hide ValidCatalog, ValidFamilies, FieldsKnown, JoinsAllowed, KeyOf, DirectedRights, AntiRights;
    var k := KeyOf(p, f.owner);
    assert k in FilterSources(p, item);
    AntiIsDirected(p);
    if item.scope == MatchScope {
      OneSourceIsSingleton(p, item);
      assert FilterSources(p, item) == {k};
    } else {
      assert FilterSources(p, item) * AntiRights(p) == {};
      NotInBoth(FilterSources(p, item), AntiRights(p), k);
    }
  }

  // Environments of the full chain before WHERE.
  lemma ChainFacts(p: Program, world: World, root: Key, order: seq<Intro>, e: Env)
    requires ValidProgram(p) && ValidWorld(world) && LegalPrefix(p, root, order)
             && Reached({root}, order) == SourcesOf(p)
    requires EdgesKnown(p, order) && EdgesKnown(BeforeWhere(p), order)
             && e in PushedChain(BeforeWhere(p), world, root, order)
    ensures WellBound(p, e, SourcesOf(p))
    ensures forall s :: s in e.Keys && e[s].Some? ==> e[s].value in RawRows(p, world, s) && s in SourcesOf(p)
  {
    hide ValidCatalog, ValidFamilies, FieldsKnown, ValidFilters, JoinsAllowed, ValidWorld, LegalPrefix, RawChain,
         PushedChain, ScansKeep, BeforeWhere, SourcesOf, WellBound, RawRows;
    JoinsAllowedBefore(p);
    SameLegal(p, root, order);
    ChainPushes(BeforeWhere(p), world, root, order);
    RawChainBefore(p, world, root, order);
    RawChainBound(p, world, root, order, e);
    ChainStored(p, world, root, order, e);
  }

  lemma PeriodsInWhere(p: Program, world: World, e: Env)
    requires ValidProgram(p) && ValidWorld(world) && WellBound(p, e, SourcesOf(p))
    requires forall s :: s in e.Keys && e[s].Some? ==> e[s].value in RawRows(p, world, s) && s in SourcesOf(p)
    ensures (forall d :: d in p.decisions && WherePeriod(p, d) ==> HoldsOn(p, world, TemporalPred(d), e))
        <==> (forall s :: s in e.Keys && s !in DirectedRights(p) && !IsFamily(p, s) && e[s].Some? ==>
              InPeriod(p, world, e[s].value))
  {
    hide ValidProgram, ValidWorld, RawRows, HoldsOn, TemporalPred, KeyOf, SourcesOf, DirectedRights, AntiRights,
         IsFamily;
    AntiIsDirected(p);
    KeptFields(p);
    if forall d :: d in p.decisions && WherePeriod(p, d) ==> HoldsOn(p, world, TemporalPred(d), e) {
      forall s, d | s in e.Keys && s !in DirectedRights(p) && !IsFamily(p, s) && e[s].Some? && d in p.decisions
          && d.owner == e[s].value.table
        ensures HoldsOn(p, world, TemporalPred(d), Alone(p, e[s].value)) {
        RowOfSource(p, world, s, e[s].value);
        DecisionIsKnown(p, d);
        FamilyIsNoTable(p, d.owner);
        PeriodLeaf(d);
        assert Alone(p, e[s].value) == Bind(map[], s)(e[s].value);
        HoldsAlone(p, world, s, e[s].value, TemporalPred(d), e);
      }
    }
    if forall s :: s in e.Keys && s !in DirectedRights(p) && !IsFamily(p, s) && e[s].Some? ==> InPeriod(p, world,
        e[s].value) {
      forall d | d in p.decisions && WherePeriod(p, d) ensures HoldsOn(p, world, TemporalPred(d), e) {
        DecisionIsKnown(p, d);
        FamilyIsNoTable(p, d.owner);
        var s := KeyOf(p, d.owner);
        PeriodLeaf(d);
        assert s in e.Keys && e[s].Some?;
        RowOfSource(p, world, s, e[s].value);
        LoneKey(p, d.owner);
        assert InPeriod(p, world, e[s].value);
        assert Alone(p, e[s].value) == Bind(map[], s)(e[s].value);
        HoldsAlone(p, world, s, e[s].value, TemporalPred(d), e);
      }
    }
  }

  lemma LoneKey(p: Program, table: Ref)
    ensures FamilyOf(p.families, table).None? ==> KeyOf(p, table) == table
  {
  }

  /** WHERE of the flat query on the scope of an environment. */
  lemma WhereIs(p: Program, world: World, root: Key, order: seq<Intro>, e: Env, c: Context)
    requires ValidProgram(p) && ValidWorld(world) && DistinctKeys(p) && c.world == world && !WhereOnExcluded(p)
    requires LegalPrefix(p, root, order) && Reached({root}, order) == SourcesOf(p)
    requires EdgesKnown(p, order) && EdgesKnown(BeforeWhere(p), order)
             && e in PushedChain(BeforeWhere(p), world, root, order)
    ensures AllWhere(WherePredicates(p), ScopeOf(p, Present(p, root, order), e), c) <==> FlatWhereHolds(p, world, e)
  {
    hide ValidProgram, ValidWorld, DistinctKeys, WhereOnExcluded, LegalPrefix, PushedChain, BeforeWhere, SourcesOf,
         ScopeOf, Present, HoldsOn, IsOnFilter, RawRows, WhereParts,
         FlatPred, TemporalPred, KeyOf, Kept, InPeriod, DirectedRights, AntiRights, IsFamily, WherePeriod;
    ChainFacts(p, world, root, order, e);
    PresentIsEnough(p, root, order);
    var present := Present(p, root, order);
    var scope := ScopeOf(p, present, e);
    KeptFields(p);
    PartsHold(p, WhereParts(p), scope, c);
    PeriodsInWhere(p, world, e);
    forall q | q in WhereParts(p) ensures WhereHolds(Holds(FlatPred(p, q)), scope, c) == HoldsOn(p, world, q, e) {
      PartIsPresent(p, q);
      TestIs(p, world, present, e, q, c);
    }
    forall q: Pred<Field> {
      PartMembers(p, q);
    }
    assert AllWhere(WherePredicates(p), scope, c) <==> forall q :: q in WhereParts(p) ==> HoldsOn(p, world, q, e);
    PartsAre(p, world, e);
  }

  lemma PartsAre(p: Program, world: World, e: Env)
    ensures (forall q :: q in WhereParts(p) ==> HoldsOn(p, world, q, e))
        <==> ((forall item :: item in p.filters && !IsOnFilter(p, item) ==> HoldsOn(p, world, item.pred, e))
              && (forall d :: d in p.decisions && WherePeriod(p, d) ==> HoldsOn(p, world, TemporalPred(d), e)))
  {
    hide HoldsOn, IsOnFilter, WherePeriod, TemporalPred, WhereParts;
    if forall q :: q in WhereParts(p) ==> HoldsOn(p, world, q, e) {
      forall item | item in p.filters && !IsOnFilter(p, item) ensures HoldsOn(p, world, item.pred, e) {
        PartMembers(p, item.pred);
      }
      forall d | d in p.decisions && WherePeriod(p, d) ensures HoldsOn(p, world, TemporalPred(d), e) {
        PartMembers(p, TemporalPred(d));
      }
    }
    if (forall item :: item in p.filters && !IsOnFilter(p, item) ==> HoldsOn(p, world, item.pred, e))
       && (forall d :: d in p.decisions && WherePeriod(p, d) ==> HoldsOn(p, world, TemporalPred(d), e)) {
      forall q | q in WhereParts(p) ensures HoldsOn(p, world, q, e) {
        PartMembers(p, q);
      }
    }
  }

  lemma PresentIsEnough(p: Program, root: Key, order: seq<Intro>)
    requires ValidProgram(p) && LegalPrefix(p, root, order) && EdgesKnown(p, order)
             && Reached({root}, order) == SourcesOf(p)
    ensures SourcesOf(p) - AntiRights(p) <= Present(p, root, order)
  {
    hide ValidCatalog, ValidFamilies, FieldsKnown, ValidFilters, JoinsAllowed, LegalPrefix, Present, SourcesOf,
         AntiRights;
    PresentBounds(p, root, order);
  }

  lemma PartIsPresent(p: Program, q: Pred<Field>)
    requires ValidProgram(p) && !WhereOnExcluded(p) && q in WhereParts(p)
    ensures forall f :: f in Leaves(q) ==> Kept(p, f) && KeyOf(p, f.owner) in SourcesOf(p) - AntiRights(p)
  {
    hide ValidProgram, WhereOnExcluded, WhereParts, Kept, KeyOf, SourcesOf, AntiRights, DirectedRights, TemporalPred,
         IsOnFilter;
    KeptFields(p);
    PartMembers(p, q);
    AntiIsDirected(p);
    forall f | f in Leaves(q) ensures Kept(p, f) && KeyOf(p, f.owner) in SourcesOf(p) - AntiRights(p) {
      if item :| item in p.filters && !IsOnFilter(p, item) && item.pred == q {
        NotInOnIsPresent(p, item, f);
      } else {
        var d :| d in p.decisions && WherePeriod(p, d) && TemporalPred(d) == q;
        PeriodLeaf(d);
        DecisionIsKnown(p, d);
      }
    }
  }

  function ItemsFor(p: Program, fields: seq<Field>): seq<Item> {
    Map((f: Field) => Item(FieldRef(p, f), Physical(f.physical)), fields)
  }

  lemma ItemSnoc(p: Program, fields: seq<Field>, f: Field, scope: Scope)
    ensures ItemRow(ItemsFor(p, fields + [f]), scope)
            == ItemRow(ItemsFor(p, fields), scope)[Physical(f.physical) := At(scope, FieldRef(p, f))]
  {
    hide FieldRef, At;
    var items := ItemsFor(p, fields + [f]);
    assert items[..|fields|] == ItemsFor(p, fields);
    assert items[|fields|] == Item(FieldRef(p, f), Physical(f.physical));
  }

  lemma NamedFieldSnoc(p: Program, fields: seq<Field>, f: Field, e: Env)
    ensures NamedRow(FieldNames(fields + [f]), FieldValues(p, fields + [f], e))
         == NamedRow(FieldNames(fields), FieldValues(p, fields, e))[Physical(f.physical) := FieldValue(p, e, f)]
  {
    hide FieldValue, NamedRow;
    MapConcat((f: Field) => Physical(f.physical), fields, [f]);
    assert FieldNames(fields + [f]) == FieldNames(fields) + [Physical(f.physical)];
    assert FieldValues(p, fields + [f], e) == FieldValues(p, fields, e) + [FieldValue(p, e, f)];
    NamedSnoc(FieldNames(fields), FieldValues(p, fields, e), Physical(f.physical), FieldValue(p, e, f));
  }

  /** The flat query can read `f`: it is kept by its source, and the source is still in scope. */
  ghost predicate Shown(p: Program, present: set<Key>, f: Field) {
    Kept(p, f) && KeyOf(p, f.owner) in present && KeyOf(p, f.owner) in SourcesOf(p)
  }

  lemma ShownReads(p: Program, present: set<Key>, e: Env, f: Field)
    requires ValidProgram(p) && DistinctKeys(p) && Shown(p, present, f)
    ensures At(ScopeOf(p, present, e), FieldRef(p, f)) == FieldValue(p, e, f)
  {
    hide ValidProgram, DistinctKeys, Kept, KeyOf, SourcesOf, ScopeOf, FieldRef, FieldValue;
    FieldAt(p, present, e, f);
  }

  lemma {:induction false} ItemsRead(p: Program, present: set<Key>, e: Env, fields: seq<Field>)
    requires ValidProgram(p) && DistinctKeys(p)
    requires forall f :: f in fields ==> Shown(p, present, f)
    ensures ItemRow(ItemsFor(p, fields), ScopeOf(p, present, e))
            == NamedRow(FieldNames(fields), FieldValues(p, fields, e))
  {
    hide *;
    if fields == [] {
      NothingRead(p, present, e);
    } else {
      var before, last := fields[..|fields| - 1], fields[|fields| - 1];
      assert fields == before + [last];
      ItemsRead(p, present, e, before);
      ItemSnoc(p, before, last, ScopeOf(p, present, e));
      NamedFieldSnoc(p, before, last, e);
      ShownReads(p, present, e, last);
    }
  }

  lemma NothingRead(p: Program, present: set<Key>, e: Env)
    ensures ItemRow(ItemsFor(p, []), ScopeOf(p, present, e)) == NamedRow(FieldNames([]), FieldValues(p, [], e))
  {
    hide ScopeOf;
  }

  lemma RequestedPresent(p: Program, present: set<Key>)
    requires ValidProgram(p) && SourcesOf(p) - AntiRights(p) <= present
    ensures forall f :: f in p.requested ==> Shown(p, present, f)
  {
    hide ValidCatalog, ValidFamilies, FieldsKnown, ValidFilters, KeyOf, SourcesOf, Kept;
    KeptFields(p);
    forall f | f in p.requested ensures KeyOf(p, f.owner) !in AntiRights(p) {
      forall j | j in p.joins && j.joinType == Anti ensures KeyOf(p, j.right.owner) != KeyOf(p, f.owner) {
        var i :| 0 <= i < |p.joins| && p.joins[i] == j;
        assert JoinAllowed(p, i);
      }
    }
  }

  /** The requested fields of environments, without grouping. */
  function RequestedRows(p: Program, envs: seq<Env>): seq<Row> {
    Map((e: Env) => NamedRow(FieldNames(p.requested), FieldValues(p, p.requested, e)), envs)
  }

  /** The flat query returns the requested fields of the answers in its own join order. */
  lemma FlatSelectReturns(p: Program, world: World, root: Key, order: seq<Intro>, c: Context)
    requires ValidProgram(p) && ValidWorld(world) && DistinctKeys(p) && FlatContext(p, world, c) && !WhereOnExcluded(p)
    requires LegalPrefix(p, root, order) && Reached({root}, order) == SourcesOf(p) && EdgesKnown(p, order)
    ensures EvalSelect(FlatSelect(p, root, order), c) == RequestedRows(p, Reference(p, world, root, order))
  {
    hide ValidProgram, ValidWorld, DistinctKeys, WhereOnExcluded, LegalPrefix, PushedChain, BeforeWhere, SourcesOf,
         ScopeOf, Present, FlatJoins, FlatAntis, SourceFor, WherePredicates,
         AllWhere, Reference, FlatWhereHolds, FromScopes, Map, Filter, ItemRow, NamedRow, FieldValue, Kept, KeyOf,
             ItemsFor, AntiRights;
    BeforeKnown(p, order);
    var q := BeforeWhere(p);
    var present := Present(p, root, order);
    var antis, wheres := FlatAntis(p, order), WherePredicates(p);
    var from := FromScopes(SourceFor(p, root), FlatJoins(p, order), c);
    var chain := PushedChain(q, world, root, order);
    var where := (e: Env) => FlatWhereHolds(p, world, e);
    FlatScopes(p, world, root, order, c);
    forall d | d in from ensures StepAll(wheres + antis, c)(d) == (StepAll(antis, c)(d) && StepAll(wheres, c)(d)) {
      AllWhereSplit(wheres, antis, d, c);
    }
    FilterFilter(StepAll(antis, c), StepAll(wheres, c), StepAll(wheres + antis, c), from);
    forall e | e in chain ensures where(e) == StepAll(wheres, c)(Outcome(p, present)(e)) {
      WhereIs(p, world, root, order, e, c);
    }
    FilterMap(StepAll(wheres, c), Outcome(p, present), where, chain);
    FlatIsReference(p, world, root, order);
    var answers := Reference(p, world, root, order);
    assert Filter(StepAll(wheres + antis, c), from) == Map(Outcome(p, present), answers);
    SelectItems(p, root, order, c);
    PresentIsEnough(p, root, order);
    RequestedPresent(p, present);
    var items := (scope: Scope) => ItemRow(ItemsFor(p, p.requested), scope);
    var named := (e: Env) => NamedRow(FieldNames(p.requested), FieldValues(p, p.requested, e));
    forall e | e in answers ensures named(e) == items(Outcome(p, present)(e)) {
      ItemsRead(p, present, e, p.requested);
    }
    MapMap(Outcome(p, present), items, named, answers);
    MapCong((e: Env) => NamedRow(FieldNames(p.requested), FieldValues(p, p.requested, e)), named, answers);
  }

  lemma BeforeKnown(p: Program, order: seq<Intro>)
    requires EdgesKnown(p, order)
    ensures EdgesKnown(BeforeWhere(p), order)
  {
  }

  lemma SelectItems(p: Program, root: Key, order: seq<Intro>, c: Context)
    requires EdgesKnown(p, order)
    ensures EvalSelect(FlatSelect(p, root, order), c)
         == Map((scope: Scope) => ItemRow(ItemsFor(p, p.requested), scope),
                Filter(StepAll(WherePredicates(p) + FlatAntis(p, order), c),
                       FromScopes(SourceFor(p, root), FlatJoins(p, order), c)))
  {
    hide ItemRow, FromScopes, SourceFor, FlatJoins, FlatAntis, WherePredicates, AllWhere;
    var s := FlatSelect(p, root, order);
    var from := FromScopes(s.from, s.joins, c);
    FilterCong((scope: Scope) => AllWhere(s.where, scope,
                                          c), StepAll(WherePredicates(p) + FlatAntis(p, order), c), from);
    assert s.items == ItemsFor(p, p.requested);
    MapCong((scope: Scope) => ItemRow(s.items, scope), (scope: Scope) => ItemRow(ItemsFor(p, p.requested), scope),
            Filter(StepAll(WherePredicates(p) + FlatAntis(p, order), c), from));
  }

  // ----- family tables -----

  lemma {:induction false} BranchRow(names: seq<Name>, row: Row)
    ensures ItemRow(MemberItems(names), map[INNER_ALIAS := row]) == NameCells(names, row)
  {
    if names != [] {
      var before, last := names[..|names| - 1], names[|names| - 1];
      assert names == before + [last];
      BranchRow(before, row);
      BranchSnoc(before, last, row);
      NameSnoc(before, last, row);
    }
  }

  lemma BranchSnoc(names: seq<Name>, n: Name, row: Row)
    ensures ItemRow(MemberItems(names + [n]), map[INNER_ALIAS := row])
         == ItemRow(MemberItems(names), map[INNER_ALIAS := row])[Physical(n) := Cell(row, Physical(n))]
  {
    hide Cell;
    var items := MemberItems(names + [n]);
    assert items[..|names|] == MemberItems(names);
  }

  lemma NameSnoc(names: seq<Name>, n: Name, row: Row)
    ensures NameCells(names + [n], row) == NameCells(names, row)[Physical(n) := Cell(row, Physical(n))]
  {
    hide Cell;
  }

  // The time condition of a branch, on a stored row of its member.
  lemma BranchKeeps(p: Program, world: World, d: Decision, b: BaseRow, c: Context)
    requires ValidProgram(p) && d in p.decisions && d.owner == b.table && c.world == world
    ensures AllWhere([Holds(Rename(TemporalPred(d), BranchRef))], map[INNER_ALIAS := b.cells], c) <==>
            InPeriod(p, world, b)
  {
    hide ValidCatalog, ValidFamilies, FieldsKnown, ValidFilters, JoinsAllowed, TemporalPred;
    var scope: Scope := map[INNER_ALIAS := b.cells];
    SingleWhere(Holds(Rename(TemporalPred(d), BranchRef)), scope, c);
    PeriodLeaf(d);
    DecisionIsKnown(p, d);
    RenameKeepsTruth(TemporalPred(d), BranchRef, TypedLook(scope), FieldLook(p, Alone(p, b)), world.literal);
    assert WhereHolds(Holds(Rename(TemporalPred(d), BranchRef)), scope, c) <==>
        HoldsOn(p, world, TemporalPred(d), Alone(p, b));
    OnlyDecision(p, d);
  }

  lemma OnlyDecision(p: Program, d: Decision)
    requires ValidProgram(p) && d in p.decisions
    ensures forall q :: q in p.decisions && q.owner == d.owner ==> q == d
  {
    hide ValidCatalog, ValidFamilies, FieldsKnown, ValidFilters, JoinsAllowed;
    var i :| 0 <= i < |p.decisions| && p.decisions[i] == d;
    forall q | q in p.decisions && q.owner == d.owner ensures q == d {
      var k :| 0 <= k < |p.decisions| && p.decisions[k] == q;
    }
  }

  function InPeriodRows(p: Program, world: World): Ref -> seq<BaseRow> {
    (m: Ref) => Filter((b: BaseRow) => InPeriod(p, world, b), Stored(world, m))
  }

  function Named(names: seq<Name>): BaseRow -> Row {
    (b: BaseRow) => NameCells(names, b.cells)
  }

  lemma BranchRows(p: Program, world: World, names: seq<Name>, table: Ref, d: Decision, c: Context)
    requires ValidProgram(p) && ValidWorld(world) && d in p.decisions && d.owner == table && c.world == world
    ensures EvalSelect(BranchOf(names, table, d), c) == Map(Named(names), InPeriodRows(p, world)(table))
  {
    hide ValidProgram, ValidWorld, InPeriod, TemporalPred, AllWhere, ItemRow, NameCells, MemberItems, Stored, Map,
         Filter;
    var s := BranchOf(names, table, d);
    var stored := Stored(world, table);
    var scoped := (b: BaseRow) => map[INNER_ALIAS := b.cells];
    var where := (scope: Scope) => AllWhere(s.where, scope, c);
    var inside := (b: BaseRow) => InPeriod(p, world, b);
    MapMap((b: BaseRow) => b.cells, (r: Row) => map[s.from.alias := r], scoped, stored);
    forall b | b in stored ensures inside(b) == where(scoped(b)) {
      StoredHere(world, table, b);
      BranchKeeps(p, world, d, b, c);
    }
    FilterMap(where, scoped, inside, stored);
    forall b | b in Filter(inside, stored) ensures Named(names)(b) == ItemRow(s.items, scoped(b)) {
      BranchRow(names, b.cells);
    }
    MapMap(scoped, (scope: Scope) => ItemRow(s.items, scope), Named(names), Filter(inside, stored));
    assert FromScopes(s.from, [], c) == Map(scoped, stored);
  }

  lemma {:induction false} FamilyRows(p: Program, world: World, names: seq<Name>, members: seq<Ref>, c: Context)
    requires ValidProgram(p) && ValidWorld(world) && c.world == world && MemberBranches(p, names, members).Some?
    ensures EvalBranches(MemberBranches(p, names, members).value, c)
            == Map(Named(names), FlatMap(InPeriodRows(p, world), members))
  {
    hide ValidProgram, ValidWorld, Named, InPeriodRows, EvalSelect, BranchOf, EvalBranches, Map, FlatMap;
    if members == [] {
      NoBranches(p, world, names, c);
    } else {
      var before, last := members[..|members| - 1], members[|members| - 1];
      assert members == before + [last];
      FamilyRows(p, world, names, before, c);
      var d := DecisionFor(p.decisions, last).value;
      BranchRows(p, world, names, last, d, c);
      EvalBranchesSnoc(MemberBranches(p, names, before).value, BranchOf(names, last, d), c);
      FlatMapConcat(InPeriodRows(p, world), before, [last]);
      OneMember(InPeriodRows(p, world), last);
      MapConcat(Named(names), FlatMap(InPeriodRows(p, world), before), InPeriodRows(p, world)(last));
    }
  }

  lemma NoBranches(p: Program, world: World, names: seq<Name>, c: Context)
    ensures EvalBranches([], c) == Map(Named(names), FlatMap(InPeriodRows(p, world), []))
  {
  }

  lemma OneMember(f: Ref -> seq<BaseRow>, m: Ref)
    ensures FlatMap(f, [m]) == f(m)
  {
  }

  lemma {:induction false} InsideMembers(p: Program, world: World, members: seq<Ref>)
    ensures FlatMap(InPeriodRows(p, world), members)
            == Filter((b: BaseRow) => InPeriod(p, world, b), FlatMap((m: Ref) => Stored(world, m), members))
  {
    hide InPeriod;
    if members != [] {
      InsideMembers(p, world, members[1..]);
      FilterConcat((b: BaseRow) => InPeriod(p, world,
                                            b), Stored(world, members[0]),
                                                FlatMap((m: Ref) => Stored(world, m), members[1..]));
    }
  }

  // What a family table must hold for the flat query.
  lemma FamilyTarget(p: Program, world: World, family: Family)
    requires ValidProgram(p) && ValidWorld(world) && family in p.families
    ensures Map(CellsOf(p, family.ref), PushedRows(BeforeWhere(p), world, family.ref))
         == Map(Named(NeededNames(p, family)), FlatMap(InPeriodRows(p, world), family.members))
  {
    hide ValidProgram, ValidWorld, InPeriod, ScanKeeps, BeforeWhere, NeededNames, Map, NameCells;
    FamilyRaw(p, world, family);
    InsideMembers(p, world, family.members);
    SameRawRows(p, world, family.ref);
    var raw := RawRows(p, world, family.ref);
    forall b | b in raw ensures ScanKeeps(BeforeWhere(p), world, family.ref, b) == InPeriod(p, world, b) {
      RowsBefore(p, world, family.ref, b);
    }
    FilterCong((b: BaseRow) => ScanKeeps(BeforeWhere(p), world, family.ref,
                                         b), (b: BaseRow) => InPeriod(p, world, b), raw);
    FoundFamily(p, family);
    MapCong(CellsOf(p, family.ref), Named(NeededNames(p, family)), PushedRows(BeforeWhere(p), world, family.ref));
  }

  lemma FamilyRaw(p: Program, world: World, family: Family)
    requires ValidProgram(p) && family in p.families
    ensures family.ref in SourcesOf(p) && IsFamily(p, family.ref)
    ensures RawRows(p, world, family.ref) == FlatMap((m: Ref) => Stored(world, m), family.members)
  {
    hide ValidCatalog, FieldsKnown, ValidFilters, JoinsAllowed;
    MembersAre(p, family);
  }

  lemma FoundFamily(p: Program, family: Family)
    requires ValidProgram(p) && family in p.families
    ensures FamilyWith(p.families, family.ref) == Some(family)
  {
    hide ValidCatalog, FieldsKnown, ValidFilters, JoinsAllowed;
    FamilyWithFound(p.families, family.ref);
    SameFamily(p, FamilyWith(p.families, family.ref).value, family);
  }

  lemma TableTarget(p: Program, world: World, k: Key)
    requires ValidProgram(p) && ValidWorld(world) && k in SourcesOf(p) && !IsFamily(p, k)
    ensures Map(CellsOf(p, k), PushedRows(BeforeWhere(p), world, k)) == Map((b: BaseRow) => b.cells, Stored(world, k))
  {
    hide ValidProgram, ValidWorld, InPeriod, ScanKeeps, BeforeWhere, Map, Stored, SourcesOf;
    MembersFound(p.families, k);
    FamilyWithFound(p.families, k);
    SameRawRows(p, world, k);
    var raw := RawRows(p, world, k);
    forall b | b in raw ensures ScanKeeps(BeforeWhere(p), world, k, b) {
      RowsBefore(p, world, k, b);
    }
    FilterAll((b: BaseRow) => ScanKeeps(BeforeWhere(p), world, k, b), raw);
    MapCong(CellsOf(p, k), (b: BaseRow) => b.cells, raw);
  }

  // ----- running the statements -----

  lemma {:induction false} PositionOf(keys: seq<Key>, i: nat)
    requires i < |keys| && NoDup(keys)
    ensures Position(keys, keys[i]) == i
  {
    if i != 0 {
      NoDupTail(keys);
      PositionOf(keys[1..], i - 1);
    }
  }

  lemma FamilyTableAt(p: Program, i: nat)
    requires ValidProgram(p) && i < |p.families|
    ensures FamilyTable(p, p.families[i].ref) == StepTable(i + 1)
  {
    hide ValidCatalog, FieldsKnown, ValidFilters, JoinsAllowed, ValidFamilies, NoDup, Position;
    FamiliesDiffer(p);
    PositionOf(Map((f: Family) => f.ref, p.families), i);
  }

  lemma PlainCreate(target: Target, body: Query, world: World, temps: map<Target, seq<Row>>)
    ensures Execute(Create(target, [], body), world, temps)
            == temps[target := EvalQuery(body, Context(world, temps - {target}, map[]))]
  {
    hide EvalQuery;
  }

  ghost predicate FamilyStored(p: Program, world: World, after: map<Target, seq<Row>>, i: nat)
    requires i < |p.families|
  {
    && StepTable(i + 1) in after
    && after[StepTable(i + 1)] == Map(CellsOf(p, p.families[i].ref),
                                      PushedRows(BeforeWhere(p), world, p.families[i].ref))
  }

  // The family tables written by the first `k` statements.
  ghost predicate FamiliesStored(p: Program, world: World, after: map<Target, seq<Row>>, k: nat)
    requires k <= |p.families|
  {
    forall i :: 0 <= i < k ==> FamilyStored(p, world, after, i)
  }

  lemma StoredSnoc(p: Program, world: World, mid: map<Target, seq<Row>>, k: nat)
    requires 0 < k <= |p.families| && FamiliesStored(p, world, mid, k - 1)
    ensures var rows := Map(CellsOf(p, p.families[k - 1].ref),
                            PushedRows(BeforeWhere(p), world, p.families[k - 1].ref));
            FamiliesStored(p, world, mid[StepTable(k) := rows], k)
  {
    hide BeforeWhere, PushedRows, CellsOf, Map;
    var rows := Map(CellsOf(p, p.families[k - 1].ref), PushedRows(BeforeWhere(p), world, p.families[k - 1].ref));
    var after := mid[StepTable(k) := rows];
    forall i | 0 <= i < k ensures FamilyStored(p, world, after, i) {
      assert i < k - 1 ==> FamilyStored(p, world, mid, i);
    }
  }

  lemma FamilyRun(p: Program, world: World, mid: map<Target, seq<Row>>, index: nat, family: Family)
    requires ValidProgram(p) && ValidWorld(world) && family in p.families && FamilyStatement(p, index, family).Some?
    ensures Execute(FamilyStatement(p, index, family).value, world, mid)
         == mid[StepTable(index) := Map(CellsOf(p, family.ref), PushedRows(BeforeWhere(p), world, family.ref))]
  {
    hide ValidProgram, ValidWorld, BeforeWhere, PushedRows, CellsOf, NeededNames, Execute, Map, MemberBranches,
         EvalBranches, Named, InPeriodRows, FlatMap;
    var branches := MemberBranches(p, NeededNames(p, family), family.members).value;
    var target := StepTable(index);
    PlainCreate(target, UnionAll(branches), world, mid);
    FamilyRows(p, world, NeededNames(p, family), family.members, Context(world, mid - {target}, map[]));
    FamilyTarget(p, world, family);
  }

  lemma {:induction false} FamiliesRun(p: Program, world: World, temps: map<Target, seq<Row>>, k: nat)
    requires ValidProgram(p) && ValidWorld(world) && k <= |p.families| && FamilyStatements(p, k).Some?
    ensures FamiliesStored(p, world, Run(FamilyStatements(p, k).value, world, temps), k)
  {
    hide ValidProgram, ValidWorld, BeforeWhere, PushedRows, CellsOf, Execute, Map, FamilyStatement, Run;
    if k != 0 {
      FamiliesRun(p, world, temps, k - 1);
      var before := FamilyStatements(p, k - 1).value;
      var last := FamilyStatement(p, k, p.families[k - 1]).value;
      RunSnoc(before, last, world, temps);
      FamilyRun(p, world, Run(before, world, temps), k, p.families[k - 1]);
      assert FamilyStatements(p, k).value == before + [last];
      StoredSnoc(p, world, Run(before, world, temps), k);
    }
  }

  lemma ContextIsFlat(p: Program, world: World, after: map<Target, seq<Row>>)
    requires ValidProgram(p) && ValidWorld(world) && FamiliesStored(p, world, after, |p.families|)
    ensures FlatContext(p, world, Context(world, after - {ResultTable}, map[]))
  {
    hide ValidProgram, ValidWorld, BeforeWhere, PushedRows, CellsOf, Map, SourcesOf, FamilyTable;
    var c := Context(world, after - {ResultTable}, map[]);
    forall k | k in SourcesOf(p)
        ensures Rows(RelationFor(p, k), c) == Map(CellsOf(p, k), PushedRows(BeforeWhere(p), world, k)) {
      if IsFamily(p, k) {
        var f :| f in p.families && f.ref == k;
        var i :| 0 <= i < |p.families| && p.families[i] == f;
        assert FamilyStored(p, world, after, i);
        FamilyTableAt(p, i);
      } else {
        TableTarget(p, world, k);
      }
    }
  }
}
