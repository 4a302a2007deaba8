/** Both compilers hand their program to the CTAS checker before returning it: the checker never refuses.
    Models the last step of `compile` in ontology_core/relational_compiler.py and inference_compiler.py. */
module CompiledPrograms {
  import opened SeqOps
  import opened Sql
  import opened RelationalPlan
  import opened RelationalCompiler
  import opened CteChain
  import opened PlanCompilation
  import opened JoinOrder
  import opened InferredProgram
  import opened ProgramMeaning
  import opened FlatCompiler
  import Ctas = CtasProgram

  // ----- the tables that a statement names -----

  function WhereReads(cond: WhereCond): seq<Relation> {
    if cond.NotExists? then [cond.source.relation] else []
  }

  function SelectReads(s: Select): seq<Relation> {
    [s.from.relation] + Map((j: JoinClause) => j.source.relation, s.joins)
        + FlatMap((w: WhereCond) => WhereReads(w), s.where)
  }

  function QueryReads(q: Query): seq<Relation> {
    match q
    case Plain(select) => SelectReads(select)
    case Star(from, where) => [from.relation] + FlatMap((w: WhereCond) => WhereReads(w), where)
    case UnionAll(branches) => FlatMap((s: Select) => SelectReads(s), branches)
    case Grouped(_, _, from) => [from.relation]
  }

  function StatementReads(s: Statement): seq<Relation> {
    FlatMap((c: (NodeId, Query)) => QueryReads(c.1), s.ctes) + QueryReads(s.body)
  }

  /** How relations are spelled once folded; `prefixed` are the spellings with the system prefix. */
  datatype Spelling = Spelling(fold: Relation -> nat, sources: set<nat>, prefixed: set<nat>)

  /** Program tables have spellings of their own, and only they carry the system prefix. */
  ghost predicate Separates(n: Spelling) {
    && (forall r: Relation, t: Target :: !r.Temp? ==> n.fold(r) != n.fold(Temp(t)))
    && (forall t: Target, u: Target :: n.fold(Temp(t)) == n.fold(Temp(u)) ==> t == u)
    && (forall r: Relation :: !r.Temp? ==> n.fold(r) !in n.prefixed)
    && (forall t: Target :: n.fold(Temp(t)) !in n.sources)
  }

  function NameOf(n: Spelling, r: Relation): Ctas.TableName {
    Ctas.TableName(n.fold(r), n.fold(r))
  }

  function CheckedStatement(n: Spelling, s: Statement, k: nat): Ctas.Statement {
    Ctas.Statement(NameOf(n, Temp(s.target)), Map((r: Relation) => NameOf(n, r), StatementReads(s)), k)
  }

  /** The program as the checker parses it; the query of a statement is known by its position. */
  function Checked(n: Spelling, statements: seq<Statement>): Ctas.Program {
    Ctas.Program(seq(|statements|, k requires 0 <= k < |statements| => CheckedStatement(n, statements[k], k)),
                 n.sources, n.prefixed)
  }

  // ----- programs that read their own tables only after creating them -----

  predicate CreatesBefore(statements: seq<Statement>, k: nat, t: Target)
    requires k <= |statements|
  {
    exists i :: 0 <= i < k && statements[i].target == t
  }

  ghost predicate ReadsCreated(statements: seq<Statement>, k: nat)
    requires k < |statements|
  {
    forall r :: r in StatementReads(statements[k]) && r.Temp? ==> CreatesBefore(statements, k, r.target)
  }

  ghost predicate WellStaged(statements: seq<Statement>) {
    && (forall k {:trigger ReadsCreated(statements, k)} :: 0 <= k < |statements| ==> ReadsCreated(statements, k))
    && (forall i, k :: 0 <= i < k < |statements| ==> statements[i].target != statements[k].target)
  }

  lemma StagedSnoc(statements: seq<Statement>, s: Statement)
    requires WellStaged(statements)
    requires forall r :: r in StatementReads(s) && r.Temp? ==> CreatesBefore(statements, |statements|, r.target)
    requires forall i :: 0 <= i < |statements| ==> statements[i].target != s.target
    ensures WellStaged(statements + [s])
  {
    hide StatementReads;
    var all := statements + [s];
    forall k | 0 <= k < |all| ensures ReadsCreated(all, k) {
      forall r | r in StatementReads(all[k]) && r.Temp? ensures CreatesBefore(all, k, r.target) {
        if k < |statements| {
          assert ReadsCreated(statements, k);
        }
        assert CreatesBefore(statements, k, r.target);
        var i :| 0 <= i < k && statements[i].target == r.target;
        assert all[i].target == r.target;
      }
    }
  }

  /** The checker accepts a well-staged program, and no statement of it reads the table it drops. */
  lemma StagedIsAccepted(n: Spelling, statements: seq<Statement>)
    requires Separates(n) && WellStaged(statements)
    ensures Ctas.Accepted(Checked(n, statements)) && Ctas.SelfReadFree(Checked(n, statements).statements)
  {
    hide StatementReads;
    var p := Checked(n, statements);
    forall k | 0 <= k < |p.statements| ensures Ctas.ReadsAllowed(p, Ctas.Targets(p.statements[..k]), p.statements[k]) {
      ReadsAreAllowed(n, statements, k);
    }
    Ctas.DistinctTargetsReadNothingOfTheirOwn(p);
  }

  lemma ReadsAreAllowed(n: Spelling, statements: seq<Statement>, k: nat)
    requires Separates(n) && WellStaged(statements) && k < |statements|
    ensures var p := Checked(n, statements); Ctas.ReadsAllowed(p, Ctas.Targets(p.statements[..k]), p.statements[k])
  {
    hide StatementReads, WellStaged;
    var p := Checked(n, statements);
    var named := StatementReads(statements[k]);
    forall t | t in p.statements[k].inputs
      ensures t.folded in Ctas.Targets(p.statements[..k])
              || (t.folded !in Ctas.Targets(p.statements) && t.folded !in p.prefixed) {
      MapHas((r: Relation) => NameOf(n, r), named, t);
      var r :| r in named && NameOf(n, r) == t;
      if r.Temp? {
        assert ReadsCreated(statements, k) by { StagedReads(statements, k); }
        var i :| 0 <= i < k && statements[i].target == r.target;
        assert p.statements[..k][i] in p.statements[..k] && p.statements[i].target == NameOf(n, r);
      }
    }
  }

  lemma StagedReads(statements: seq<Statement>, k: nat)
    requires WellStaged(statements) && k < |statements|
    ensures ReadsCreated(statements, k)
  {
  }

  // ----- the plan compiler -----

  /** A node's query names base tables and the node's own dependencies, nothing else. */
  lemma NodeReads(node: Node, objects: seq<TableObject>, schemas: map<NodeId, Schema>, targets: map<NodeId, Target>,
          r: Relation)
    requires r in QueryReads(NodeQuery(node, objects, schemas, targets))
    ensures r.Base? || exists d :: d in Dependencies(node) && r == RelationOf(d, targets)
  {
    hide ScanItems, ItemsOf, OnClause, TypedColumn, AggItemOf, RelationOf;
    if node.UnionNode? {
      BranchesRead(node, |node.inputs|, targets, r);
    } else if node.FilterNode? {
      var where := Map((p: Pred<LogicalRef>) =>
                       Holds(Rename(p, TypedColumn(SchemaOf(schemas, node.input)))), node.predicates);
      FlatMapMember((w: WhereCond) => WhereReads(w), where, r);
    } else if node.JoinNode? {
      JoinReads(node, objects, schemas, targets, r);
    }
  }

  lemma JoinReads(node: Node, objects: seq<TableObject>, schemas: map<NodeId, Schema>, targets: map<NodeId, Target>,
          r: Relation)
    requires node.JoinNode? && r in QueryReads(NodeQuery(node, objects, schemas, targets))
    ensures exists d :: d in Dependencies(node) && r == RelationOf(d, targets)
  {
    hide ItemsOf, OnClause, RelationOf;
    assert Dependencies(node) == [node.left, node.right];
    assert node.left in Dependencies(node) && node.right in Dependencies(node);
    var select := NodeQuery(node, objects, schemas, targets).select;
    if r in FlatMap((w: WhereCond) => WhereReads(w), select.where) {
      FlatMapMember((w: WhereCond) => WhereReads(w), select.where, r);
    }
  }

  lemma {:induction false} BranchesRead(node: Node, k: nat, targets: map<NodeId, Target>, r: Relation)
    requires node.UnionNode? && k <= |node.inputs|
             && r in FlatMap((s: Select) => SelectReads(s), Branches(node, k, targets))
    ensures exists d :: d in Dependencies(node) && r == RelationOf(d, targets)
  {
    hide BranchItems, RelationOf, Dependencies, SelectReads, SourceOf;
    if k > 0 {
      var last := Select(BranchItems(node.united, k - 1, node.inputs[k - 1]), SourceOf(node.inputs[k - 1], targets),
                         [], []);
      FlatMapConcat((s: Select) => SelectReads(s), Branches(node, k - 1, targets), [last]);
      assert FlatMap((s: Select) => SelectReads(s), [last]) == SelectReads(last);
      if r in SelectReads(last) {
        BranchReads(node, k - 1, targets, r);
      } else {
        BranchesRead(node, k - 1, targets, r);
      }
    }
  }

  lemma BranchReads(node: Node, k: nat, targets: map<NodeId, Target>, r: Relation)
    requires node.UnionNode? && k < |node.inputs|
    requires r in SelectReads(Select(BranchItems(node.united, k, node.inputs[k]), SourceOf(node.inputs[k], targets),
                                     [], []))
    ensures exists d :: d in Dependencies(node) && r == RelationOf(d, targets)
  {
    hide BranchItems, RelationOf;
    assert r == RelationOf(node.inputs[k], targets);
    FirstOccurrencesKeepsMembers(node.inputs);
    assert node.inputs[k] in Dependencies(node);
  }

  /** Every relation that node `k`'s query names is a base table or the place of something it uses. */
  ghost predicate NamesUses(g: seq<Vertex>, k: nat)
    requires k < |g|
  {
    forall r :: r in QueryReads(g[k].query) && !r.Base? ==> exists d :: d in g[k].uses && d < |g| && r == Place(g[d])
  }

  /** A table that a statement names is the table of an earlier stored node. */
  lemma StatementNames(g: seq<Vertex>, k: nat, r: Relation)
    requires Ordered(g) && k < |g| && g[k].stored && |g[k].uses| == 1 && StatementFor(g, k).Some?
    requires forall i {:trigger NamesUses(g, i)} :: 0 <= i < |g| ==> NamesUses(g, i)
    requires r in StatementReads(StatementFor(g, k).value) && r.Temp?
    ensures exists j :: j in EarlierSteps(g, k) && g[j].target == r.target
  {
    hide QueryReads, CompileNode;
    var i, available := g[k].uses[0], EarlierSteps(g, k);
    assert i in g[k].uses;
    ChainIsExact(g, i, available);
    var chain := CompileNode(g, i, available, Chain([], {})).value;
    if r in QueryReads(g[k].query) {
      assert NamesUses(g, k);
      var d :| d in g[k].uses && r == Place(g[d]);
      assert d in available;
    } else {
      var x := CteNames(g, chain.ctes, r);
      var p :| 0 <= p < |chain.ctes| && chain.ctes[p] == x;
      assert ReadyAt(g, available, chain.ctes, p);
      assert NamesUses(g, x);
      var d :| d in g[x].uses && r == Place(g[d]);
      assert Readable(g, available, chain.ctes[..p], d);
    }
  }

  lemma CteNames(g: seq<Vertex>, ctes: seq<nat>, r: Relation) returns (x: nat)
    requires r in FlatMap((c: (NodeId, Query)) => QueryReads(c.1), CteList(g, ctes))
    ensures x in ctes && r in QueryReads(CteOf(g, x).1)
  {
    hide QueryReads, CteOf;
    FlatMapMember((c: (NodeId, Query)) => QueryReads(c.1), CteList(g, ctes), r);
    var c :| c in CteList(g, ctes) && r in QueryReads(c.1);
    MapHas(y => CteOf(g, y), ctes, c);
    x :| x in ctes && CteOf(g, x) == c;
  }

  lemma {:induction false} StatementsStaged(g: seq<Vertex>, k: nat)
    requires Ordered(g) && OneInputPerStep(g) && k <= |g| && StatementsUpTo(g, k).Some?
    requires forall i {:trigger NamesUses(g, i)} :: 0 <= i < |g| ==> NamesUses(g, i)
    requires forall i {:trigger OwnTable(g, i)} :: 0 <= i < |g| ==> OwnTable(g, i)
    ensures WellStaged(StatementsUpTo(g, k).value)
    ensures forall j :: j in EarlierSteps(g, k) ==>
              CreatesBefore(StatementsUpTo(g, k).value, |StatementsUpTo(g, k).value|, g[j].target)
    ensures forall s :: s in StatementsUpTo(g, k).value ==>
              exists j :: j in EarlierSteps(g, k) && g[j].target == s.target
  {
    hide StatementReads, StatementFor, NamesUses, WellStaged;
    if k == 0 {
      NothingStaged();
    } else {
      StatementsStaged(g, k - 1);
      if g[k - 1].stored {
        var before, last := StatementsUpTo(g, k - 1).value, StatementFor(g, k - 1).value;
        TargetIs(g, k - 1);
        forall r | r in StatementReads(last) && r.Temp? ensures CreatesBefore(before, |before|, r.target) {
          StatementNames(g, k - 1, r);
        }
        assert OwnTable(g, k - 1);
        forall i | 0 <= i < |before| ensures before[i].target != last.target {
          assert before[i] in before;
        }
        StagedSnoc(before, last);
        assert (before + [last])[|before|].target == g[k - 1].target;
        forall j | j in EarlierSteps(g, k) ensures CreatesBefore(before + [last], |before| + 1, g[j].target) {
          if j < k - 1 {
            assert CreatesBefore(before, |before|, g[j].target);
            var i :| 0 <= i < |before| && before[i].target == g[j].target;
            assert (before + [last])[i].target == g[j].target;
          }
        }
      }
    }
  }

  lemma NothingStaged()
    ensures WellStaged([])
  {
  }

  lemma TargetIs(g: seq<Vertex>, k: nat)
    requires Ordered(g) && k < |g| && g[k].stored && |g[k].uses| == 1 && StatementFor(g, k).Some?
    ensures StatementFor(g, k).value.target == g[k].target
  {
  }

  lemma PlanNamesUses(nodes: seq<Node>, objects: seq<TableObject>, schemas: map<NodeId, Schema>,
          targets: map<NodeId, Target>, k: nat)
    requires UpstreamFirst(nodes) && Targeted(nodes, targets) && k < |nodes|
    ensures NamesUses(GraphOf(nodes, objects, schemas, targets), k)
  {
    hide NodeQuery, QueryReads, IndexOf, Dependencies;
    var g := GraphOf(nodes, objects, schemas, targets);
    UsesOf(nodes, nodes[k], objects, schemas, targets);
    forall r | r in QueryReads(g[k].query) && !r.Base?
        ensures exists d :: d in g[k].uses && d < |g| && r == Place(g[d]) {
      NodeReads(nodes[k], objects, schemas, targets, r);
      var d :| d in Dependencies(nodes[k]) && r == RelationOf(d, targets);
      var i := IndexOf(nodes, d);
      assert i in g[k].uses && i < |nodes| && nodes[i].id == d;
      assert r == Place(g[i]);
    }
  }

  /** Whatever a validated plan compiles to passes the final check, however its tables are spelled; so the
      program can be rerun over the same base tables. */
  lemma CompiledProgramPassesCheck(plan: Plan, n: Spelling)
    requires ValidatePlan(plan).Some? && Compile(plan).Some? && Separates(n)
    ensures var p := Checked(n, Compile(plan).value); Ctas.Accepted(p) && Ctas.SelfReadFree(p.statements)
  {
    hide NodeQuery, ValidateNodes, IndexOf, NamesUses, UpstreamFirst, DeriveSchemas, WellStaged, Separates;
    var nodes := plan.nodes;
    ValidatedIsUpstreamFirst(nodes, plan.objects);
    TargetsAreSteps(nodes);
    var schemas, targets := DeriveSchemas(nodes, plan.objects), TargetsOf(nodes).value;
    var g := GraphOf(nodes, plan.objects, schemas, targets);
    GraphIsOrdered(nodes, plan.objects, schemas, targets);
    forall k | 0 <= k < |g| ensures NamesUses(g, k) && OwnTable(g, k) {
      PlanNamesUses(nodes, plan.objects, schemas, targets, k);
      forall i | 0 <= i < k && g[i].stored && g[k].stored ensures g[i].target != g[k].target {
        TargetsDiffer(plan, i, k);
      }
    }
    StatementsStaged(g, |g|);
    StagedIsAccepted(n, Compile(plan).value);
  }

  // ----- the flat compiler -----

  predicate NamesOnlyBase(s: Statement) {
    forall r :: r in StatementReads(s) ==> r.Base?
  }

  lemma {:induction false} BranchesNameBase(p: Program, names: seq<Name>, members: seq<Ref>)
    requires MemberBranches(p, names, members).Some?
    ensures forall r :: r in FlatMap((s: Select) => SelectReads(s), MemberBranches(p, names, members).value) ==> r.Base?
  {
    hide MemberItems, BranchRef, TemporalPred;
    if members != [] {
      var k := |members| - 1;
      BranchesNameBase(p, names, members[..k]);
      var before := MemberBranches(p, names, members[..k]).value;
      var last := BranchOf(names, members[k], DecisionFor(p.decisions, members[k]).value);
      FlatMapConcat((s: Select) => SelectReads(s), before, [last]);
      assert FlatMap((s: Select) => SelectReads(s), [last]) == SelectReads(last);
      assert FlatMap((w: WhereCond) => WhereReads(w), last.where) == WhereReads(last.where[0]) + [];
    }
  }

  lemma {:induction false} FamiliesStaged(p: Program, k: nat)
    requires k <= |p.families| && FamilyStatements(p, k).Some?
    ensures var statements := FamilyStatements(p, k).value;
            && |statements| == k && WellStaged(statements)
            && forall i :: 0 <= i < k ==> statements[i].target == StepTable(i + 1)
  {
    hide StatementReads, FamilyStatement;
    if k > 0 {
      FamiliesStaged(p, k - 1);
      var last := FamilyStatement(p, k, p.families[k - 1]).value;
      FamilyNamesBase(p, k, p.families[k - 1]);
      StagedSnoc(FamilyStatements(p, k - 1).value, last);
    }
  }

  lemma FamilyNamesBase(p: Program, index: nat, family: Family)
    requires FamilyStatement(p, index, family).Some?
    ensures NamesOnlyBase(FamilyStatement(p, index, family).value)
    ensures FamilyStatement(p, index, family).value.target == StepTable(index)
  {
    hide MemberBranches;
    BranchesNameBase(p, NeededNames(p, family), family.members);
  }

  function TableOfFamily(i: nat): Target {
    StepTable(i + 1)
  }

  predicate NamesSource(p: Program, r: Relation) {
    r.Temp? ==> exists i :: 0 <= i < |p.families| && r.target == TableOfFamily(i)
  }

  lemma SourceIsNamed(p: Program, k: Key)
    ensures NamesSource(p, RelationFor(p, k))
  {
    if IsFamily(p, k) {
      var refs := Map((f: Family) => f.ref, p.families);
      MapHas((f: Family) => f.ref, p.families, k);
      var i := Position(refs, k);
      assert i < |p.families| && FamilyTable(p, k) == TableOfFamily(i);
    }
  }

  lemma {:induction false} FlatJoinsName(p: Program, order: seq<Intro>, r: Relation)
    requires EdgesKnown(p, order)
    requires r in Map((j: JoinClause) => j.source.relation, FlatJoins(p, order))
    ensures NamesSource(p, r)
  {
    hide OnOf, RelationFor, NamesSource;
    if order != [] {
      var s := order[|order| - 1];
      assert s in order;
      var before, last := FlatJoins(p, order[..|order| - 1]), StepJoins(p, s);
      MapConcat((j: JoinClause) => j.source.relation, before, last);
      if r in Map((j: JoinClause) => j.source.relation, before) {
        FlatJoinsName(p, order[..|order| - 1], r);
      } else {
        SourceIsNamed(p, s.source);
      }
    }
  }

  lemma {:induction false} FlatAntisName(p: Program, order: seq<Intro>, r: Relation)
    requires EdgesKnown(p, order) && r in FlatMap((w: WhereCond) => WhereReads(w), FlatAntis(p, order))
    ensures NamesSource(p, r)
  {
    hide OnOf, RelationFor, NamesSource;
    if order != [] {
      var s := order[|order| - 1];
      assert s in order;
      var before, last := FlatAntis(p, order[..|order| - 1]), StepWhere(p, s);
      FlatMapConcat((w: WhereCond) => WhereReads(w), before, last);
      if r in FlatMap((w: WhereCond) => WhereReads(w), before) {
        FlatAntisName(p, order[..|order| - 1], r);
      } else {
        FlatMapMember((w: WhereCond) => WhereReads(w), last, r);
        SourceIsNamed(p, s.source);
      }
    }
  }

  lemma ResultNames(p: Program, root: Key, order: seq<Intro>, r: Relation)
    requires EdgesKnown(p, order) && r in SelectReads(FlatSelect(p, root, order))
    ensures NamesSource(p, r)
  {
    hide FlatJoins, FlatAntis, FlatItems, RelationFor, NamesSource;
    SourceIsNamed(p, root);
    var select := FlatSelect(p, root, order);
    if r in Map((j: JoinClause) => j.source.relation, FlatJoins(p, order)) {
      FlatJoinsName(p, order, r);
    } else if r in FlatMap((w: WhereCond) => WhereReads(w), select.where) {
      FlatMapConcat((w: WhereCond) => WhereReads(w), WherePredicates(p), FlatAntis(p, order));
      FlatMapMember((w: WhereCond) => WhereReads(w), WherePredicates(p), r);
      FlatAntisName(p, order, r);
    }
  }

  /** The older compiler's programs pass the same check. */
  lemma FlatProgramPassesCheck(p: Program, n: Spelling)
    requires FlatProgram(p).Some? && Separates(n)
    ensures var c := Checked(n, FlatProgram(p).value); Ctas.Accepted(c) && Ctas.SelfReadFree(c.statements)
  {
    hide FlatSelect, SelectReads, Separates, FamilyStatements, FlatResult, BetweenSources, StatementReads;
    var families := FamilyStatements(p, |p.families|).value;
    var last := Create(ResultTable, [], Plain(FlatResult(BetweenSources(p)).value));
    FamiliesStaged(p, |p.families|);
    BetweenFamilies(p);
    forall r | r in StatementReads(last) && r.Temp? ensures CreatesBefore(families, |families|, r.target) {
      LastReads(BetweenSources(p), r);
      var i :| 0 <= i < |p.families| && r.target == TableOfFamily(i);
      assert families[i].target == r.target;
    }
    StagedSnoc(families, last);
    StagedIsAccepted(n, families + [last]);
  }

  lemma BetweenFamilies(p: Program)
    ensures BetweenSources(p).families == p.families
  {
  }

  lemma LastReads(p: Program, r: Relation)
    requires FlatResult(p).Some? && r in StatementReads(Create(ResultTable, [], Plain(FlatResult(p).value)))
    ensures NamesSource(p, r)
  {
    hide FlatSelect, SelectReads, NamesSource;
    var root := FirstRoot(LogicalKeys(p), DirectedRights(p)).value;
    OrderUsesDeclared(p, root);
    ResultNames(p, root, OrderFrom(EdgesOf(p), SourcesOf(p), root).value, r);
  }
}
