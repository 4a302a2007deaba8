/** Rows, three-valued predicates and the part of Hive SQL that the compilers emit.
    A table is a list of rows; two tables are the same bag when their multisets agree. */
module Sql {
  import opened SeqOps

  // ----- identifiers; the order on Ref and Name stands for string order -----

  type Ref = nat
  type Name = nat

  datatype TypeGroup = NumericGroup | StringGroup | DateGroup | BooleanGroup | OtherGroup(uri: nat)
  datatype Datatype = Datatype(group: TypeGroup, uri: nat)
  const XSD_INTEGER := Datatype(NumericGroup, 0)

  datatype Column = Carried(n: nat) | Physical(name: Name)
  datatype NodeKind = ScanId | FilterId | UnionId | FamilyId | JoinId | ProjectId | AggregateId | ResultId
  datatype NodeId = NodeId(kind: NodeKind, index: nat)
  datatype Alias = NodeAlias(node: NodeId) | TableAlias(index: nat)
  datatype Target = StepTable(index: nat) | ResultTable

  // ----- values and truth -----

  /** Non-null values are reals: every countable totally ordered SQL domain embeds in them. */
  datatype Value = Null | Datum(x: real)
  datatype Truth = True | False | Unknown

  type Literals = (Datatype, string) -> Value
  type Row = map<Column, Value>

  function Cell(row: Row, column: Column): Value {
    if column in row then row[column] else Null
  }

  function And3(a: Truth, b: Truth): Truth {
    if a == False || b == False then False
    else if a == True && b == True then True
    else Unknown
  }

  function Or3(a: Truth, b: Truth): Truth {
    if a == True || b == True then True
    else if a == False && b == False then False
    else Unknown
  }

  function Not3(a: Truth): Truth {
    match a
    case True => False
    case False => True
    case Unknown => Unknown
  }

  function OfBool(b: bool): Truth {
    if b then True else False
  }

  // ----- predicates -----

  datatype CompareOp = EQ | NE | GT | GTE | LT | LTE | IN | BETWEEN | IS_NULL

  /** A filter tree; NOT, AND and OR nodes have only children, leaves only an operand. */
  datatype Pred<+L> =
    | Leaf(operand: L, op: CompareOp, values: seq<string>)
    | AllOf(parts: seq<Pred<L>>)
    | AnyOf(parts: seq<Pred<L>>)
    | Negate(part: Pred<L>)

  datatype Operand = Operand(value: Value, dtype: Datatype)

  function Compare(op: CompareOp, a: Value, b: Value): Truth {
    if a.Null? || b.Null? then Unknown
    else match op
      case EQ => OfBool(a.x == b.x)
      case NE => OfBool(a.x != b.x)
      case GT => OfBool(a.x > b.x)
      case GTE => OfBool(a.x >= b.x)
      case LT => OfBool(a.x < b.x)
      case LTE => OfBool(a.x <= b.x)
      case _ => Unknown
  }

  function MemberOf(v: Value, items: seq<Value>): Truth {
    if items == [] then False else Or3(Compare(EQ, v, items[0]), MemberOf(v, items[1..]))
  }

  function EvalLeaf(op: CompareOp, v: Value, items: seq<Value>): Truth {
    match op
    case IS_NULL => OfBool(v.Null?)
    case IN => MemberOf(v, items)
    case BETWEEN =>
      if |items| != 2 then Unknown else And3(Compare(GTE, v, items[0]), Compare(LTE, v, items[1]))
    case _ => if |items| != 1 then Unknown else Compare(op, v, items[0])
  }

  function Eval<L>(p: Pred<L>, look: L -> Operand, lit: Literals): Truth
    decreases p, 1
  {
    match p
    case Leaf(operand, op, values) =>
      var o := look(operand);
      EvalLeaf(op, o.value, Map(s => lit(o.dtype, s), values))
    case AllOf(parts) => EvalAll(parts, look, lit)
    case AnyOf(parts) => EvalAny(parts, look, lit)
    case Negate(part) => Not3(Eval(part, look, lit))
  }

  function EvalAll<L>(ps: seq<Pred<L>>, look: L -> Operand, lit: Literals): Truth
    decreases ps, 0
  {
    if ps == [] then True else And3(Eval(ps[0], look, lit), EvalAll(ps[1..], look, lit))
  }

  function EvalAny<L>(ps: seq<Pred<L>>, look: L -> Operand, lit: Literals): Truth
    decreases ps, 0
  {
    if ps == [] then False else Or3(Eval(ps[0], look, lit), EvalAny(ps[1..], look, lit))
  }

  function Leaves<L>(p: Pred<L>): seq<L>
    decreases p, 1
  {
    match p
    case Leaf(operand, _, _) => [operand]
    case AllOf(parts) => LeavesOf(parts)
    case AnyOf(parts) => LeavesOf(parts)
    case Negate(part) => Leaves(part)
  }

  function LeavesOf<L>(ps: seq<Pred<L>>): seq<L>
    decreases ps, 0
  {
    if ps == [] then [] else Leaves(ps[0]) + LeavesOf(ps[1..])
  }

  /** Rebuilds a tree over other operands: `boolean_predicate` of the adapter. */
  function Rename<L, M>(p: Pred<L>, f: L -> M): Pred<M>
    decreases p, 1
  {
    match p
    case Leaf(operand, op, values) => Leaf(f(operand), op, values)
    case AllOf(parts) => AllOf(RenameAll(parts, f))
    case AnyOf(parts) => AnyOf(RenameAll(parts, f))
    case Negate(part) => Negate(Rename(part, f))
  }

  function RenameAll<L, M>(ps: seq<Pred<L>>, f: L -> M): (qs: seq<Pred<M>>)
    ensures |qs| == |ps|
    decreases ps, 0
  {
    if ps == [] then [] else [Rename(ps[0], f)] + RenameAll(ps[1..], f)
  }

  /** Shape demanded of every filter: AND and OR carry at least two parts. */
  predicate WellShaped<L>(p: Pred<L>)
    decreases p, 1
  {
    match p
    case Leaf(_, op, values) =>
      if op == IS_NULL then |values| == 0
      else if op == IN then |values| >= 1
      else if op == BETWEEN then |values| == 2
      else |values| == 1
    case AllOf(parts) => |parts| >= 2 && AllWellShaped(parts)
    case AnyOf(parts) => |parts| >= 2 && AllWellShaped(parts)
    case Negate(part) => WellShaped(part)
  }

  predicate AllWellShaped<L>(ps: seq<Pred<L>>)
    decreases ps, 0
  {
    ps == [] || (WellShaped(ps[0]) && AllWellShaped(ps[1..]))
  }

  lemma {:induction false} RenameKeepsTruth<L,
          M>(p: Pred<L>, f: L -> M, outer: M -> Operand, inner: L -> Operand, lit: Literals)
    requires forall l :: l in Leaves(p) ==> outer(f(l)) == inner(l)
    ensures Eval(Rename(p, f), outer, lit) == Eval(p, inner, lit)
    decreases p, 1
  {
    match p
    case Leaf(operand, op, values) =>
      assert operand in Leaves(p);
    case AllOf(parts) => RenameAllKeepsTruth(parts, f, outer, inner, lit);
    case AnyOf(parts) => RenameAllKeepsTruth(parts, f, outer, inner, lit);
    case Negate(part) => RenameKeepsTruth(part, f, outer, inner, lit);
  }

  lemma {:induction false} RenameAllKeepsTruth<L,
          M>(ps: seq<Pred<L>>, f: L -> M, outer: M -> Operand, inner: L -> Operand, lit: Literals)
    requires forall l :: l in LeavesOf(ps) ==> outer(f(l)) == inner(l)
    ensures EvalAll(RenameAll(ps, f), outer, lit) == EvalAll(ps, inner, lit)
    ensures EvalAny(RenameAll(ps, f), outer, lit) == EvalAny(ps, inner, lit)
    decreases ps, 0
  {
    if ps != [] {
      RenameKeepsTruth(ps[0], f, outer, inner, lit);
      RenameAllKeepsTruth(ps[1..], f, outer, inner, lit);
      assert RenameAll(ps, f)[1..] == RenameAll(ps[1..], f);
    }
  }

  lemma {:induction false} RenameLeaves<L, M>(p: Pred<L>, f: L -> M)
    ensures Leaves(Rename(p, f)) == Map(f, Leaves(p))
    decreases p, 1
  {
    match p
    case Leaf(operand, op, values) =>
    case AllOf(parts) => RenameAllLeaves(parts, f);
    case AnyOf(parts) => RenameAllLeaves(parts, f);
    case Negate(part) => RenameLeaves(part, f);
  }

  lemma {:induction false} RenameAllLeaves<L, M>(ps: seq<Pred<L>>, f: L -> M)
    ensures LeavesOf(RenameAll(ps, f)) == Map(f, LeavesOf(ps))
    decreases ps, 0
  {
    if ps != [] {
      RenameLeaves(ps[0], f);
      RenameAllLeaves(ps[1..], f);
      assert RenameAll(ps, f)[1..] == RenameAll(ps[1..], f);
      MapConcat(f, Leaves(ps[0]), LeavesOf(ps[1..]));
    }
  }

  lemma {:induction false} RenameShape<L, M>(p: Pred<L>, f: L -> M)
    ensures WellShaped(Rename(p, f)) == WellShaped(p)
    decreases p, 1
  {
    match p
    case Leaf(_, _, _) =>
    case AllOf(parts) => RenameAllShape(parts, f);
    case AnyOf(parts) => RenameAllShape(parts, f);
    case Negate(part) => RenameShape(part, f);
  }

  lemma {:induction false} RenameAllShape<L, M>(ps: seq<Pred<L>>, f: L -> M)
    ensures AllWellShaped(RenameAll(ps, f)) == AllWellShaped(ps)
    decreases ps, 0
  {
    if ps != [] {
      RenameShape(ps[0], f);
      RenameAllShape(ps[1..], f);
      assert RenameAll(ps, f)[1..] == RenameAll(ps[1..], f);
    }
  }

  lemma {:induction false} WellShapedHasLeaf<L>(p: Pred<L>)
    requires WellShaped(p)
    ensures Leaves(p) != []
    decreases p
  {
    match p
    case Leaf(_, _, _) =>
    case AllOf(parts) => WellShapedHasLeaf(parts[0]);
    case AnyOf(parts) => WellShapedHasLeaf(parts[0]);
    case Negate(part) => WellShapedHasLeaf(part);
  }

  // ----- stored data -----

  /** A stored row; `id` tells apart rows of one table with equal cells and is invisible to SQL. */
  datatype BaseRow = BaseRow(table: Ref, id: nat, cells: Row)

  datatype World = World(tables: map<Ref, seq<BaseRow>>, literal: Literals)

  function Stored(world: World, table: Ref): seq<BaseRow> {
    if table in world.tables then world.tables[table] else []
  }

  ghost predicate ValidWorld(world: World) {
    forall o :: o in world.tables ==>
      NoDup(world.tables[o]) && forall b :: b in world.tables[o] ==> b.table == o
  }

  // ----- aggregation -----

  datatype AggFunction = Count | Sum | Avg | Min | Max
  datatype AggSpec = AggSpec(name: Column, fn: AggFunction, star: bool, distinct: bool)
  datatype AggInput = AggInput(key: seq<Value>, args: seq<Value>)

  function FirstOccurrences<A(==)>(xs: seq<A>): seq<A> {
    if xs == [] then []
    else
      var before := FirstOccurrences(xs[..|xs| - 1]);
      if xs[|xs| - 1] in before then before else before + [xs[|xs| - 1]]
  }

  function Total(xs: seq<Value>): real {
    if xs == [] then 0.0 else (if xs[0].Datum? then xs[0].x else 0.0) + Total(xs[1..])
  }

  function Extreme(op: CompareOp, xs: seq<Value>): Value {
    if xs == [] then Null
    else
      var rest := Extreme(op, xs[1..]);
      if rest.Null? || Compare(op, xs[0], rest) == True then xs[0] else rest
  }

  function AggregateValue(spec: AggSpec, args: seq<Value>): Value {
    if spec.star then Datum(|args| as real)
    else
      var present := Filter((v: Value) => v.Datum?, args);
      var used := if spec.distinct then FirstOccurrences(present) else present;
      match spec.fn
      case Count => Datum(|used| as real)
      case Sum => if used == [] then Null else Datum(Total(used))
      case Avg => if used == [] then Null else Datum(Total(used) / (|used| as real))
      case Min => Extreme(LT, used)
      case Max => Extreme(GT, used)
  }

  function NamedRow(names: seq<Column>, values: seq<Value>): Row
    requires |names| == |values|
  {
    if names == [] then map[]
    else NamedRow(names[..|names| - 1], values[..|values| - 1])[names[|names| - 1] := values[|values| - 1]]
  }

  function GroupRow(keys: seq<Column>, specs: seq<AggSpec>, key: seq<Value>, inputs: seq<AggInput>): Row {
    var members := Filter((i: AggInput) => i.key == key, inputs);
    var values := seq(|specs|, j requires 0 <= j < |specs| =>
      AggregateValue(specs[j], Map((i: AggInput) => if j < |i.args| then i.args[j] else Null, members)));
    var keyValues := seq(|keys|, j requires 0 <= j < |keys| => if j < |key| then key[j] else Null);
    NamedRow(keys + Map((s: AggSpec) => s.name, specs), keyValues + values)
  }

  /** GROUP BY over prepared inputs; without keys there is exactly one group. */
  function Aggregate(keys: seq<Column>, specs: seq<AggSpec>, inputs: seq<AggInput>): seq<Row> {
    var groups := if keys == [] then [[]] else FirstOccurrences(Map((i: AggInput) => i.key, inputs));
    Map(key => GroupRow(keys, specs, key, inputs), groups)
  }

  // ----- queries -----

  datatype ColRef = ColRef(alias: Alias, column: Column)
  datatype TypedRef = TypedRef(ref: ColRef, dtype: Datatype)
  datatype Relation = Base(table: Ref) | Cte(node: NodeId) | Temp(target: Target)
  datatype Source = Source(relation: Relation, alias: Alias)

  datatype OnCond = Equal(left: ColRef, right: ColRef) | Test(pred: Pred<TypedRef>)
  datatype WhereCond =
    | Holds(pred: Pred<TypedRef>)
    | IsNull(column: ColRef)
    | NotExists(source: Source, on: seq<OnCond>)

  datatype JoinClause = JoinClause(outer: bool, source: Source, on: seq<OnCond>)
  datatype Item = Item(source: ColRef, name: Column)
  datatype AggItem = AggItem(spec: AggSpec, source: ColRef)
  datatype Select = Select(items: seq<Item>, from: Source, joins: seq<JoinClause>, where: seq<WhereCond>)

  datatype Query =
    | Plain(select: Select)
    | Star(from: Source, where: seq<WhereCond>)
    | UnionAll(branches: seq<Select>)
    | Grouped(keys: seq<Item>, aggregates: seq<AggItem>, from: Source)

  datatype Statement = Create(target: Target, ctes: seq<(NodeId, Query)>, body: Query)

  // ----- meaning -----

  type Scope = map<Alias, Row>
  datatype Context = Context(world: World, temps: map<Target, seq<Row>>, ctes: map<NodeId, seq<Row>>)

  function Rows(relation: Relation, c: Context): seq<Row> {
    match relation
    case Base(table) => Map((b: BaseRow) => b.cells, Stored(c.world, table))
    case Cte(node) => if node in c.ctes then c.ctes[node] else []
    case Temp(target) => if target in c.temps then c.temps[target] else []
  }

  function At(scope: Scope, ref: ColRef): Value {
    if ref.alias in scope then Cell(scope[ref.alias], ref.column) else Null
  }

  function TypedLook(scope: Scope): TypedRef -> Operand {
    (t: TypedRef) => Operand(At(scope, t.ref), t.dtype)
  }

  predicate OnHolds(cond: OnCond, scope: Scope, c: Context) {
    match cond
    case Equal(left, right) => Compare(EQ, At(scope, left), At(scope, right)) == True
    case Test(pred) => Eval(pred, TypedLook(scope), c.world.literal) == True
  }

  /** A conjunction keeps a row exactly when each of its terms is true. */
  predicate AllOn(conds: seq<OnCond>, scope: Scope, c: Context) {
    forall i :: 0 <= i < |conds| ==> OnHolds(conds[i], scope, c)
  }

  function Partners(source: Source, on: seq<OnCond>, scope: Scope, c: Context): seq<Row> {
    Filter((r: Row) => AllOn(on, scope[source.alias := r], c), Rows(source.relation, c))
  }

  predicate WhereHolds(cond: WhereCond, scope: Scope, c: Context) {
    match cond
    case Holds(pred) => Eval(pred, TypedLook(scope), c.world.literal) == True
    case IsNull(column) => At(scope, column).Null?
    case NotExists(source, on) => Partners(source, on, scope, c) == []
  }

  predicate AllWhere(conds: seq<WhereCond>, scope: Scope, c: Context) {
    forall i :: 0 <= i < |conds| ==> WhereHolds(conds[i], scope, c)
  }

  /** An outer join without partners keeps the scope and binds the alias to no cells at all. */
  function JoinScope(scope: Scope, clause: JoinClause, c: Context): seq<Scope> {
    var partners := Partners(clause.source, clause.on, scope, c);
    if clause.outer && partners == [] then [scope[clause.source.alias := map[]]]
    else Map((r: Row) => scope[clause.source.alias := r], partners)
  }

  function FromScopes(from: Source, joins: seq<JoinClause>, c: Context): seq<Scope> {
    if joins == [] then Map((r: Row) => map[from.alias := r], Rows(from.relation, c))
    else
      FlatMap((scope: Scope) => JoinScope(scope, joins[|joins| - 1], c),
              FromScopes(from, joins[..|joins| - 1], c))
  }

  function ItemRow(items: seq<Item>, scope: Scope): Row {
    if items == [] then map[]
    else ItemRow(items[..|items| - 1], scope)[items[|items| - 1].name := At(scope, items[|items| - 1].source)]
  }

  function EvalSelect(s: Select, c: Context): seq<Row> {
    Map((scope: Scope) => ItemRow(s.items, scope),
        Filter((scope: Scope) => AllWhere(s.where, scope, c), FromScopes(s.from, s.joins, c)))
  }

  function EvalBranches(branches: seq<Select>, c: Context): seq<Row> {
    if branches == [] then []
    else EvalBranches(branches[..|branches| - 1], c) + EvalSelect(branches[|branches| - 1], c)
  }

  function GroupInput(keys: seq<Item>, aggregates: seq<AggItem>, scope: Scope): AggInput {
    AggInput(Map((k: Item) => At(scope, k.source), keys), Map((a: AggItem) => At(scope, a.source), aggregates))
  }

  function EvalQuery(q: Query, c: Context): seq<Row> {
    match q
    case Plain(select) => EvalSelect(select, c)
    case Star(from, where) =>
      Filter((r: Row) => AllWhere(where, map[from.alias := r], c), Rows(from.relation, c))
    case UnionAll(branches) => EvalBranches(branches, c)
    case Grouped(keys, aggregates, from) =>
      Aggregate(Map((k: Item) => k.name, keys), Map((a: AggItem) => a.spec, aggregates),
                Map((r: Row) => GroupInput(keys, aggregates, map[from.alias := r]), Rows(from.relation, c)))
  }

  function EvalCtes(ctes: seq<(NodeId, Query)>, c: Context): Context {
    if ctes == [] then c
    else
      var before := EvalCtes(ctes[..|ctes| - 1], c);
      before.(ctes := before.ctes[ctes[|ctes| - 1].0 := EvalQuery(ctes[|ctes| - 1].1, before)])
  }

  /** DROP TABLE IF EXISTS followed by CREATE TABLE AS. */
  function Execute(s: Statement, world: World, temps: map<Target, seq<Row>>): map<Target, seq<Row>> {
    temps[s.target := EvalQuery(s.body, EvalCtes(s.ctes, Context(world, temps - {s.target}, map[])))]
  }

  function Run(statements: seq<Statement>, world: World, temps: map<Target, seq<Row>>): map<Target, seq<Row>> {
    if statements == [] then temps
    else Execute(statements[|statements| - 1], world, Run(statements[..|statements| - 1], world, temps))
  }

  lemma EvalCtesSnoc(ctes: seq<(NodeId, Query)>, id: NodeId, q: Query, c: Context, rows: seq<Row>)
    requires EvalQuery(q, EvalCtes(ctes, c)) == rows
    ensures EvalCtes(ctes + [(id, q)], c) == EvalCtes(ctes, c).(ctes := EvalCtes(ctes, c).ctes[id := rows])
  {
    assert (ctes + [(id, q)])[..|ctes|] == ctes;
  }

  lemma RunSnoc(statements: seq<Statement>, s: Statement, world: World, temps: map<Target, seq<Row>>)
    ensures Run(statements + [s], world, temps) == Execute(s, world, Run(statements, world, temps))
  {
    assert (statements + [s])[..|statements|] == statements;
  }
}
