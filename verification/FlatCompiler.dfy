/** The older compiler: one flat FROM / JOIN / WHERE query over base tables and materialized families.
    Models ontology_core/inference_compiler.py. */
module FlatCompiler {
  import opened SeqOps
  import opened Sql
  import opened RelationalPlan
  import opened PlanCompilation
  import opened JoinOrder
  import opened InferredProgram
  import opened ProgramMeaning
  import opened AdapterPlan

  // ----- sources and aliases -----

  /** Families in plan order, then tables outside families in plan order. */
  function LogicalKeys(p: Program): seq<Key> {
    Map((f: Family) => f.ref, p.families)
    + Map((o: TableObject) => o.ref, Filter((o: TableObject) => FamilyOf(p.families, o.ref).None?, p.objects))
  }

  function Position(keys: seq<Key>, k: Key): (i: nat)
    ensures k in keys ==> i < |keys| && keys[i] == k
    ensures i <= |keys|
  {
    if keys == [] then 0 else if keys[0] == k then 0 else 1 + Position(keys[1..], k)
  }

  function AliasOf(p: Program, k: Key): Alias {
    TableAlias(Position(LogicalKeys(p), k))
  }

  function FamilyTable(p: Program, k: Key): Target {
    StepTable(Position(Map((f: Family) => f.ref, p.families), k) + 1)
  }

  function RelationFor(p: Program, k: Key): Relation {
    if IsFamily(p, k) then Temp(FamilyTable(p, k)) else Base(k)
  }

  function SourceFor(p: Program, k: Key): Source {
    Source(RelationFor(p, k), AliasOf(p, k))
  }

  function FieldRef(p: Program, f: Field): ColRef {
    ColRef(AliasOf(p, KeyOf(p, f.owner)), Physical(f.physical))
  }

  function FlatRef(p: Program): Field -> TypedRef {
    (f: Field) => TypedRef(FieldRef(p, f), f.dtype)
  }

  function FlatPred(p: Program, pred: Pred<Field>): Pred<TypedRef> {
    Rename(pred, FlatRef(p))
  }

  // ----- families -----

  /** The fields whose columns a family table keeps. */
  function FlatMentioned(p: Program): seq<Field> {
    p.requested + FlatMap((item: FilterSpec) => Leaves(item.pred), p.filters)
    + FlatMap((j: JoinSpec) => [j.left, j.right], p.joins) + Map((d: Decision) => d.partition, p.decisions)
  }

  function NeededNames(p: Program, family: Family): seq<Name> {
    SortBy((n: Name) => n, FirstOccurrences(Map((f: Field) =>
                                                f.physical, Filter((f: Field) =>
                                                                   f.owner in family.members, FlatMentioned(p)))))
  }

  const INNER_ALIAS := TableAlias(0)

  function MemberItems(names: seq<Name>): seq<Item> {
    Map((n: Name) => Item(ColRef(INNER_ALIAS, Physical(n)), Physical(n)), names)
  }

  function BranchRef(f: Field): TypedRef {
    TypedRef(ColRef(INNER_ALIAS, Physical(f.physical)), f.dtype)
  }

  function DecisionFor(decisions: seq<Decision>, table: Ref): (r: Option<Decision>)
    ensures r.Some? ==> r.value in decisions && r.value.owner == table
    ensures r.None? ==> forall d :: d in decisions ==> d.owner != table
  {
    if decisions == [] then None
    else if decisions[|decisions| - 1].owner == table then Some(decisions[|decisions| - 1])
    else DecisionFor(decisions[..|decisions| - 1], table)
  }

  function BranchOf(names: seq<Name>, table: Ref, d: Decision): Select {
    Select(MemberItems(names), Source(Base(table), INNER_ALIAS), [], [Holds(Rename(TemporalPred(d), BranchRef))])
  }

  /** One branch a member; None when a member has no time decision. */
  function MemberBranches(p: Program, names: seq<Name>, members: seq<Ref>): Option<seq<Select>> {
    if members == [] then Some([])
    else
      var n := |members| - 1;
      var before := MemberBranches(p, names, members[..n]);
      var d := DecisionFor(p.decisions, members[n]);
      if before.None? || d.None? then None else Some(before.value + [BranchOf(names, members[n], d.value)])
  }

  function FamilyStatement(p: Program, index: nat, family: Family): Option<Statement> {
    var branches := MemberBranches(p, NeededNames(p, family), family.members);
    var target := TargetFor(index, Intermediate);
    if branches.None? || target.None? then None else Some(Create(target.value, [], UnionAll(branches.value)))
  }

  function FamilyStatements(p: Program, k: nat): Option<seq<Statement>>
    requires k <= |p.families|
  {
    if k == 0 then Some([])
    else
      var before := FamilyStatements(p, k - 1);
      var last := FamilyStatement(p, k, p.families[k - 1]);
      if before.None? || last.None? then None else Some(before.value + [last.value])
  }

  // ----- the result query -----

  function WhereParts(p: Program): seq<Pred<Field>> {
    Map((item: FilterSpec) => item.pred, Filter((item: FilterSpec) => !IsOnFilter(p, item), p.filters))
    + Map(TemporalPred,
          Filter((d: Decision) => FamilyOf(p.families,
                                           d.owner).None? && KeyOf(p, d.owner) !in DirectedRights(p), p.decisions))
  }

  function WherePredicates(p: Program): seq<WhereCond> {
    Map((q: Pred<Field>) => Holds(FlatPred(p, q)), WhereParts(p))
  }

  function Scoped(p: Program, k: Key): seq<Pred<Field>> {
    Map((item: FilterSpec) => item.pred, OnFilters(p, k)) + Map(TemporalPred, OnDecisions(p, k))
  }

  function OnOf(p: Program, s: Intro): seq<OnCond>
    requires s.edge < |p.joins|
  {
    var j := p.joins[s.edge];
    [Equal(FieldRef(p, j.left), FieldRef(p, j.right))]
    + if j.joinType == Inner then [] else Map((q: Pred<Field>) => Test(FlatPred(p, q)), Scoped(p, s.source))
  }

  predicate IsNotExists(j: JoinSpec) {
    j.joinType == Anti && j.strategy == ViaNotExists
  }

  function StepJoins(p: Program, s: Intro): seq<JoinClause>
    requires s.edge < |p.joins|
  {
    var j := p.joins[s.edge];
    if IsNotExists(j) then [] else [JoinClause(j.joinType != Inner, SourceFor(p, s.source), OnOf(p, s))]
  }

  function StepWhere(p: Program, s: Intro): seq<WhereCond>
    requires s.edge < |p.joins|
  {
    var j := p.joins[s.edge];
    if j.joinType != Anti then []
    else if IsNotExists(j) then [NotExists(SourceFor(p, s.source), OnOf(p, s))]
    else [IsNull(FieldRef(p, j.right))]
  }

  function FlatJoins(p: Program, order: seq<Intro>): seq<JoinClause>
    requires EdgesKnown(p, order)
  {
    if order == [] then []
    else
      var s := order[|order| - 1];
      assert s in order;
      FlatJoins(p, order[..|order| - 1]) + StepJoins(p, s)
  }

  function FlatAntis(p: Program, order: seq<Intro>): seq<WhereCond>
    requires EdgesKnown(p, order)
  {
    if order == [] then []
    else
      var s := order[|order| - 1];
      assert s in order;
      FlatAntis(p, order[..|order| - 1]) + StepWhere(p, s)
  }

  function FlatItems(p: Program): seq<Item> {
    Map((f: Field) => Item(FieldRef(p, f), Physical(f.physical)), p.requested)
  }

  function FlatSelect(p: Program, root: Key, order: seq<Intro>): Select
    requires EdgesKnown(p, order)
  {
    Select(FlatItems(p), SourceFor(p, root), FlatJoins(p, order), WherePredicates(p) + FlatAntis(p, order))
  }

  function FirstRoot(keys: seq<Key>, directed: set<Key>): (r: Option<Key>)
    ensures r.Some? ==> r.value in keys && r.value !in directed
    ensures r.None? ==> forall k :: k in keys ==> k in directed
  {
    if keys == [] then None else if keys[0] !in directed then Some(keys[0]) else FirstRoot(keys[1..], directed)
  }

  /** The compiler ignores joins inside one logical source. */
  function BetweenSources(p: Program): Program {
    p.(joins := Filter((j: JoinSpec) => KeyOf(p, j.left.owner) != KeyOf(p, j.right.owner), p.joins))
  }

  /** Filters are single comparisons: trees have no field of their own here. */
  predicate LeafFilters(p: Program) {
    forall item :: item in p.filters ==> item.pred.Leaf?
  }

  lemma {:induction false} IntroducedAreKnown(edges: seq<Edge>, sources: set<Key>, visited: set<Key>, unused: seq<nat>)
    requires forall j :: j in unused ==> j < |edges|
    ensures var rest := Introduce(edges, sources, visited, unused);
            rest.Some? ==> forall s :: s in rest.value ==> s.edge < |edges|
    decreases |unused|
  {
    var remaining := sources - visited;
    if remaining != {} {
      var chosen := FirstUsable(edges, unused, visited, remaining);
      if chosen.Some? {
        IntroducedAreKnown(edges, sources, visited + {chosen.value.source}, Without(unused, chosen.value.edge));
      }
    }
  }

  lemma OrderUsesDeclared(p: Program, root: Key)
    ensures var order := OrderFrom(EdgesOf(p), SourcesOf(p), root); order.Some? ==> EdgesKnown(p, order.value)
  {
    IntroducedAreKnown(EdgesOf(p), SourcesOf(p), {root}, AllIndices(|EdgesOf(p)|));
  }

  /** The result query of a program whose joins all connect different sources. */
  function FlatResult(p: Program): Option<Select> {
    var root := FirstRoot(LogicalKeys(p), DirectedRights(p));
    if p.requested == [] || root.None? then None
    else
      var order := OrderFrom(EdgesOf(p), SourcesOf(p), root.value);
      OrderUsesDeclared(p, root.value);
      if order.None? || WhereOnExcluded(p) then None else Some(FlatSelect(p, root.value, order.value))
  }

  /** The whole program: family tables keep the columns of every declared join, the result query uses only
      the joins between sources. */
  function FlatProgram(p: Program): Option<seq<Statement>> {
    var families := FamilyStatements(p, |p.families|);
    var result := FlatResult(BetweenSources(p));
    if families.None? || result.None? || TargetFor(|p.families| + 1, Result).None? then None
    else Some(families.value + [Create(ResultTable, [], Plain(result.value))])
  }

  // ----- the compiler as it runs -----

  lemma NextBranch(p: Program, names: seq<Name>, members: seq<Ref>, i: nat)
    requires i < |members|
    ensures MemberBranches(p, names, members[..i + 1]) ==
              var before, d := MemberBranches(p, names, members[..i]), DecisionFor(p.decisions, members[i]);
              if before.None? || d.None? then None else Some(before.value + [BranchOf(names, members[i], d.value)])
  {
    hide BranchOf;
    assert members[..i + 1][..i] == members[..i];
  }

  method CompileFamily(p: Program, index: nat, family: Family) returns (r: Option<Statement>)
    ensures r == FamilyStatement(p, index, family)
  {
    hide NeededNames, BranchOf, MemberBranches;
    var names := NeededNames(p, family);
    var branches: seq<Select> := [];
    NoneYet(p, names);
    for i := 0 to |family.members|
      invariant MemberBranches(p, names, family.members[..i]) == Some(branches)
    {
      NextBranch(p, names, family.members, i);
      var d := DecisionFor(p.decisions, family.members[i]);
      if d.None? {
        NoBranch(p, names, family.members, i + 1);
        return None;
      }
      branches := branches + [BranchOf(names, family.members[i], d.value)];
    }
    assert family.members[..|family.members|] == family.members;
    var target := TargetFor(index, Intermediate);
    if target.None? {
      return None;
    }
    r := Some(Create(target.value, [], UnionAll(branches)));
  }

  lemma NoneYet(p: Program, names: seq<Name>)
    ensures MemberBranches(p, names, []) == Some([])
  {
  }

  lemma {:induction false} NoBranch(p: Program, names: seq<Name>, members: seq<Ref>, k: nat)
    requires k <= |members| && MemberBranches(p, names, members[..k]).None?
    ensures MemberBranches(p, names, members).None?
    decreases |members|
  {
    if k == |members| {
      assert members[..k] == members;
    } else {
      assert members[..|members| - 1][..k] == members[..k];
      NoBranch(p, names, members[..|members| - 1], k);
    }
  }

  lemma {:induction false} NoFamily(p: Program, k: nat, n: nat)
    requires k <= n <= |p.families| && FamilyStatements(p, k).None?
    ensures FamilyStatements(p, n).None?
  {
    hide FamilyStatement;
    if k < n {
      NoFamily(p, k, n - 1);
    }
  }

  lemma ClausesSnoc(p: Program, order: seq<Intro>, s: Intro)
    requires EdgesKnown(p, order) && s.edge < |p.joins|
    ensures EdgesKnown(p, order + [s])
    ensures FlatJoins(p, order + [s]) == FlatJoins(p, order) + StepJoins(p, s)
    ensures FlatAntis(p, order + [s]) == FlatAntis(p, order) + StepWhere(p, s)
  {
    assert (order + [s])[..|order|] == order;
  }

  /** FROM, JOIN and WHERE of the result; None without requested fields, without a possible root, with a WHERE
      filter on an excluded source, or when the greedy loop gets stuck or leaves a join unused. */
  method CompileResult(p: Program) returns (r: Option<Select>)
    ensures r == FlatResult(p)
  {
    hide EdgesOf, SourcesOf, LogicalKeys, DirectedRights, WhereOnExcluded, Introduce, After;
    hide FlatItems, WherePredicates, StepJoins, StepWhere, FlatJoins, FlatAntis, SourceFor;
    if p.requested == [] {
      return None;
    }
    var first := FirstRoot(LogicalKeys(p), DirectedRights(p));
    if first.None? || WhereOnExcluded(p) {
      return None;
    }
    var root := first.value;
    var edges, all := EdgesOf(p), SourcesOf(p);
    EdgesAre(p);
    OrderUsesDeclared(p, root);
    var visited := {root};
    var remaining := all - visited;
    var unused: seq<nat> := AllIndices(|edges|);
    var joins: seq<JoinClause> := [];
    var antis: seq<WhereCond> := [];
    ghost var order: seq<Intro> := [];
    NoClauses(p);
    LoopStarts(edges, all, root);
    while remaining != {}
      invariant remaining == all - visited
      invariant forall j :: j in unused ==> j < |edges|
      invariant OrderFrom(edges, all, root) == After(order, Introduce(edges, all, visited, unused))
      invariant EdgesKnown(p, order) && joins == FlatJoins(p, order) && antis == FlatAntis(p, order)
      decreases |unused|
    {
      var chosen := FirstUsable(edges, unused, visited, remaining);
      LoopStep(edges, all, visited, unused, order);
      if chosen.None? {
        return None;
      }
      var step := chosen.value;
      if edges[step.edge].joinType == Inner && step.source in DirectedRights(p) {
        return None;
      }
      ClausesSnoc(p, order, step);
      joins := joins + StepJoins(p, step);
      antis := antis + StepWhere(p, step);
      order := order + [step];
      unused := Without(unused, step.edge);
      visited := visited + {step.source};
      remaining := remaining - {step.source};
    }
    EndOfLoop(edges, all, visited, unused, order);
    if unused != [] {
      return None;
    }
    r := Some(Select(FlatItems(p), SourceFor(p, root), joins, WherePredicates(p) + antis));
  }

  lemma NoClauses(p: Program)
    ensures FlatJoins(p, []) == [] && FlatAntis(p, []) == []
  {
  }

  lemma EdgesAre(p: Program)
    ensures |EdgesOf(p)| == |p.joins| && DirectedRights(p) == Directed(EdgesOf(p))
  {
  }

  /** `compile`: nothing when joins are not allowed, a filter is a tree, or the program does not exist. */
  method FlatCompile(p: Program) returns (r: Option<seq<Statement>>)
    ensures r == if JoinsAllowed(p) && LeafFilters(p) then FlatProgram(p) else None
  {
    hide JoinsAllowed, FamilyStatement, FlatResult, BetweenSources;
    var allowed := CheckJoinSemantics(p);
    if !allowed || !LeafFilters(p) {
      return None;
    }
    var statements: seq<Statement> := [];
    for k := 0 to |p.families|
      invariant FamilyStatements(p, k) == Some(statements)
    {
      var statement := CompileFamily(p, k + 1, p.families[k]);
      if statement.None? {
        NoFamily(p, k + 1, |p.families|);
        return None;
      }
      statements := statements + [statement.value];
    }
    var select := CompileResult(BetweenSources(p));
    if select.None? || TargetFor(|p.families| + 1, Result).None? {
      return None;
    }
    r := Some(statements + [Create(ResultTable, [], Plain(select.value))]);
  }
}
