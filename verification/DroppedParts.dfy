/** Programs on which the older compiler (ontology_core/inference_compiler.py) loses a join or an aggregation. */
module DroppedParts {
  import opened SeqOps
  import opened Sql
  import opened RelationalPlan
  import opened RelationalCompiler
  import opened PlanCompilation
  import opened JoinOrder
  import opened InferredProgram
  import opened ProgramMeaning
  import opened ProgramAnswers
  import opened ColumnNaming
  import opened AdapterPlan
  import opened AdapterOutput
  import opened AdapterStages
  import opened Adapter
  import opened FlatCompiler
  import opened FlatMeaning
  import opened FlatCorrectness
  import opened InsideJoins
  import opened OlderCompiler

  // ----- a column that only inside joins read -----

  /** No filter, no period and no join between sources reads the column of `f`. */
  ghost predicate FreeColumn(p: Program, f: Field) {
    && (forall item, g :: item in p.filters && g in Leaves(item.pred) ==> SlotOf(p, g) != SlotOf(p, f))
    && (forall d :: d in p.decisions ==> SlotOf(p, d.partition) != SlotOf(p, f))
    && (forall j :: j in p.joins && !IsInside(p, j) ==>
          SlotOf(p, j.left) != SlotOf(p, f) && SlotOf(p, j.right) != SlotOf(p, f))
  }

  /** The environment with another value in the column of `f`, where its source is bound. */
  function WithCell(p: Program, f: Field, e: Env, v: Value): Env {
    var s := KeyOf(p, f.owner);
    if s in e && e[s].Some?
    then e[s := Some(e[s].value.(cells := e[s].value.cells[Physical(f.physical) := v]))]
    else e
  }

  lemma OtherFieldsSame(p: Program, f: Field, e: Env, v: Value, g: Field)
    ensures SlotOf(p, g) != SlotOf(p, f) ==> FieldValue(p, WithCell(p, f, e, v), g) == FieldValue(p, e, g)
    ensures var s := KeyOf(p, f.owner);
            SlotOf(p, g) == SlotOf(p, f) && s in e && e[s].Some? ==> FieldValue(p, WithCell(p, f, e, v), g) == v
  {
  }

  lemma OtherPredsSame(p: Program, world: World, small: World, f: Field, pred: Pred<Field>, e: Env, v: Value)
    requires world.literal == small.literal && forall g :: g in Leaves(pred) ==> SlotOf(p, g) != SlotOf(p, f)
    ensures HoldsOn(p, small, pred, WithCell(p, f, e, v)) == HoldsOn(p, world, pred, e)
  {
    hide SlotOf, WithCell, FieldValue;
    forall g | g in Leaves(pred) ensures FieldLook(p, WithCell(p, f, e, v))(g) == FieldLook(p, e)(g) {
      OtherFieldsSame(p, f, e, v, g);
    }
    RenameKeepsTruth(pred, (g: Field) => g, FieldLook(p, e), FieldLook(p, WithCell(p, f, e, v)), world.literal);
    RenameKeepsTruth(pred, (g: Field) => g, FieldLook(p, e), FieldLook(p, e), world.literal);
  }

  // A bound row of the source of `f`, before and after the change.
  function NewCells(f: Field, b: BaseRow, v: Value): BaseRow {
    b.(cells := b.cells[Physical(f.physical) := v])
  }

  lemma AloneChanged(p: Program, f: Field, s: Key, b: BaseRow, v: Value)
    ensures WithCell(p, f, map[s := Some(b)], v)
            == map[s := Some(if KeyOf(p, f.owner) == s then NewCells(f, b, v) else b)]
  {
  }

  lemma ChangedPeriod(p: Program, world: World, small: World, f: Field, b: BaseRow, v: Value)
    requires world.literal == small.literal && FreeColumn(p, f) && KeyOf(p, b.table) == KeyOf(p, f.owner)
    ensures InPeriod(p, small, NewCells(f, b, v)) == InPeriod(p, world, b)
  {
    hide HoldsOn, SlotOf, TemporalPred, KeyOf;
    AloneChanged(p, f, KeyOf(p, b.table), b, v);
    forall d | d in p.decisions
      ensures HoldsOn(p, small, TemporalPred(d), Alone(p, NewCells(f, b, v)))
              == HoldsOn(p, world, TemporalPred(d), Alone(p, b)) {
      PeriodLeaf(d);
      OtherPredsSame(p, world, small, f, TemporalPred(d), Alone(p, b), v);
    }
  }

  lemma ChangedFilters(p: Program, world: World, small: World, f: Field, b: BaseRow, v: Value)
    requires world.literal == small.literal && FreeColumn(p, f)
    ensures OnFiltersHold(p, small, KeyOf(p, f.owner), NewCells(f, b, v))
            == OnFiltersHold(p, world, KeyOf(p, f.owner), b)
  {
    hide HoldsOn, SlotOf, KeyOf, FilterSources;
    var s := KeyOf(p, f.owner);
    AloneChanged(p, f, s, b, v);
    forall item | item in p.filters
      ensures HoldsOn(p, small, item.pred, map[s := Some(NewCells(f, b, v))])
              == HoldsOn(p, world, item.pred, map[s := Some(b)]) {
      OtherPredsSame(p, world, small, f, item.pred, map[s := Some(b)], v);
    }
  }

  // What one bound row must satisfy, before and after.
  lemma ChangedRow(p: Program, world: World, small: World, f: Field, e: Env, v: Value, s: Key)
    requires world.literal == small.literal && FreeColumn(p, f) && Placed(p, e) && s in e && e[s].Some?
    ensures var d := WithCell(p, f, e, v);
            && s in d && d[s].Some? && InPeriod(p, small, d[s].value) == InPeriod(p, world, e[s].value)
            && OnFiltersHold(p, small, s, d[s].value) == OnFiltersHold(p, world, s, e[s].value)
  {
    hide InPeriod, OnFiltersHold, KeyOf, FreeColumn;
    var b := e[s].value;
    if s == KeyOf(p, f.owner) {
      ChangedPeriod(p, world, small, f, b, v);
      ChangedFilters(p, world, small, f, b, v);
    } else {
      SameReading(p, world, small, s, b);
    }
  }

  lemma SameReading(p: Program, world: World, small: World, s: Key, b: BaseRow)
    requires world.literal == small.literal
    ensures InPeriod(p, small, b) == InPeriod(p, world, b)
            && OnFiltersHold(p, small, s, b) == OnFiltersHold(p, world, s, b)
  {
    hide *;
    SmallHolds(p, world, small, map[]);
  }

  lemma ChangedShape(p: Program, f: Field, e: Env, v: Value)
    ensures var d := WithCell(p, f, e, v);
            && d.Keys == e.Keys && forall s ::
                s in e ==> d[s].Some? == e[s].Some? && (e[s].Some? ==> d[s].value.table == e[s].value.table)
    ensures WellBound(p, WithCell(p, f, e, v), SourcesOf(p)) == WellBound(p, e, SourcesOf(p))
    ensures Placed(p, e) ==> Placed(p, WithCell(p, f, e, v))
  {
    hide SourcesOf, DirectedRights, AntiRights, KeyOf;
  }

  lemma ChangedWhere(p: Program, world: World, small: World, f: Field, e: Env, v: Value)
    requires world.literal == small.literal && FreeColumn(p, f) && Placed(p, e)
    ensures WhereRaw(p, small, WithCell(p, f, e, v)) == WhereRaw(p, world, e)
  {
    hide HoldsOn, InPeriod, IsOnFilter, DirectedRights, KeyOf, SlotOf, WithCell;
    var d := WithCell(p, f, e, v);
    ChangedShape(p, f, e, v);
    forall item | item in p.filters ensures HoldsOn(p, small, item.pred, d) == HoldsOn(p, world, item.pred, e) {
      OtherPredsSame(p, world, small, f, item.pred, e, v);
    }
    forall s | s in e.Keys && e[s].Some? ensures InPeriod(p, small, d[s].value) == InPeriod(p, world, e[s].value) {
      ChangedRow(p, world, small, f, e, v, s);
    }
  }

  lemma ChangedJoin(p: Program, world: World, small: World, f: Field, e: Env, v: Value, j: JoinSpec)
    requires world.literal == small.literal && FreeColumn(p, f) && Placed(p, e) && j in p.joins && !IsInside(p, j)
             && JoinHolds(p, world, j, e)
    requires var d := WithCell(p, f, e, v);
             forall b :: b in RawRows(p, small, KeyOf(p, j.right.owner)) <==>
                 KeyOf(p, j.right.owner) in d && d[KeyOf(p, j.right.owner)] == Some(b)
    requires j.joinType == Anti ==> KeyOf(p, j.right.owner) !in e
    ensures JoinHolds(p, small, j, WithCell(p, f, e, v))
  {
    hide RawRows, InPeriod, OnFiltersHold, KeyOf, SlotOf, WithCell, IsInside, FieldValue, WellBound, Placed;
    var d := WithCell(p, f, e, v);
    var right := KeyOf(p, j.right.owner);
    ChangedShape(p, f, e, v);
    OtherFieldsSame(p, f, e, v, j.left);
    OtherFieldsSame(p, f, e, v, j.right);
    if right in e && e[right].Some? {
      ChangedRow(p, world, small, f, e, v, right);
      FieldIsCell(p, e, j.right);
      FieldIsCell(p, d, j.right);
    }
  }

  lemma FieldIsCell(p: Program, e: Env, f: Field)
    requires KeyOf(p, f.owner) in e && e[KeyOf(p, f.owner)].Some?
    ensures FieldValue(p, e, f) == Cell(e[KeyOf(p, f.owner)].value.cells, Physical(f.physical))
  {
  }

  lemma ChangedStore(p: Program, d: Env, lit: Literals)
    requires ValidProgram(p) && Placed(p, d) && d.Keys <= SourcesOf(p)
    ensures FromStore(p, JustThese(p, d, lit), d)
  {
    hide ValidProgram, RawRows, SourcesOf, Placed, JustThese;
    forall s | s in d.Keys && d[s].Some? ensures d[s].value in RawRows(p, JustThese(p, d, lit), s) {
      JustTheseRows(p, d, lit, s, d[s].value);
    }
  }

  /** Changing a free column of an answer yields an answer, over its own rows alone. */
  lemma ChangedAnswer(p: Program, world: World, f: Field, e: Env, v: Value)
    requires ValidProgram(p) && ValidWorld(world) && FreeColumn(p, f) && IsAnswer(p, world, e)
    requires forall j :: j in p.joins ==> !IsInside(p, j)
    ensures var d := WithCell(p, f, e, v); IsAnswer(p, JustThese(p, d, world.literal), d)
  {
    hide ValidCatalog, ValidFamilies, FieldsKnown, ValidFilters, JoinsAllowed, RawRows, KeyOf, SourcesOf, FreeColumn,
         JustThese, WithCell, Placed, DirectedRights,
         AntiRights, JoinHolds, WhereRaw, IsInside;
    var d := WithCell(p, f, e, v);
    var small := JustThese(p, d, world.literal);
    StoredIsPlaced(p, world, e);
    ChangedShape(p, f, e, v);
    JustTheseReads(p, d, world.literal);
    ChangedStore(p, d, world.literal);
    ChangedWhere(p, world, small, f, e, v);
    forall j | j in p.joins ensures JoinHolds(p, small, j, d) {
      RightIsSource(p, j);
      var right := KeyOf(p, j.right.owner);
      forall b ensures b in RawRows(p, small, right) <==> right in d && d[right] == Some(b) {
        JustTheseRows(p, d, world.literal, right, b);
      }
      ChangedJoin(p, world, small, f, e, v, j);
    }
  }

  function OtherField(j: JoinSpec, f: Field): Field {
    if f == j.left then j.right else j.left
  }

  function BreakingValue(p: Program, f: Field, g: Field, e: Env): Value {
    if SlotOf(p, g) == SlotOf(p, f) then Null else if FieldValue(p, e, g) == Datum(0.0) then Datum(1.0) else Datum(0.0)
  }

  lemma BreaksInside(p: Program, j: JoinSpec, f: Field, e: Env)
    requires j in p.joins && IsInside(p, j) && (f == j.left || f == j.right)
    ensures !InsideHold(p, WithCell(p, f, e, BreakingValue(p, f, OtherField(j, f), e)))
  {
    var g := OtherField(j, f);
    var v := BreakingValue(p, f, g, e);
    var d := WithCell(p, f, e, v);
    OtherFieldsSame(p, f, e, v, f);
    OtherFieldsSame(p, f, e, v, g);
    hide SlotOf, WithCell;
    assert Compare(EQ, FieldValue(p, d, j.left), FieldValue(p, d, j.right)) != True by {
      UnboundIsNull(p, f, e, v);
    }
  }

  lemma UnboundIsNull(p: Program, f: Field, e: Env, v: Value)
    ensures !(KeyOf(p, f.owner) in e && e[KeyOf(p, f.owner)].Some?) ==> FieldValue(p, WithCell(p, f, e, v), f) == Null
  {
  }

  lemma FreeBetween(p: Program, f: Field)
    requires FreeColumn(p, f)
    ensures FreeColumn(BetweenSources(p), f)
  {
    hide KeyOf, BetweenSources;
    SameFamilies(p);
    var q := BetweenSources(p);
    forall g: Field ensures SlotOf(q, g) == SlotOf(p, g) {
      assert KeyOf(q, g.owner) == KeyOf(p, g.owner);
    }
    hide SlotOf;
  }

  /** An inside join with a column that nothing else reads is lost: the result table always holds the program's own
      answers only if the remaining joins and filters never let a row through. */
  lemma FreeInsideJoinIsLost(p: Program, lit: Literals, j: JoinSpec, f: Field)
    requires ValidProgram(p) && FlatProgram(p).Some?
    requires j in p.joins && IsInside(p, j) && (f == j.left || f == j.right) && FreeColumn(p, f)
    ensures (forall world, temps :: ValidWorld(world) && world.literal == lit ==> ReturnsOwn(p, world, temps))
       <==> (forall world, e :: ValidWorld(world) && world.literal == lit ==> !IsAnswer(BetweenSources(p), world, e))
  {
    hide ValidProgram, ValidWorld, BetweenSources, FlatProgram, IsAnswer, InsideHold, ReturnsOwn, JustThese,
         FreeColumn, IsInside, WithCell;
    var q := BetweenSources(p);
    SameFamilies(p);
    BetweenIsValid(p);
    FreeBetween(p, f);
    if forall world, temps :: ValidWorld(world) && world.literal == lit ==> ReturnsOwn(p, world, temps) {
      forall world, e | ValidWorld(world) && world.literal == lit ensures !IsAnswer(q, world, e) {
        if IsAnswer(q, world, e) {
          var v := BreakingValue(p, f, OtherField(j, f), e);
          NoneInside(p);
          ChangedAnswer(q, world, f, e, v);
          SameChange(p, f, e, v);
          var d := WithCell(p, f, e, v);
          JustTheseIsValid(q, d, lit);
          JustTheseReads(q, d, lit);
          assert ReturnsOwn(p, JustThese(q, d, lit), map[]);
          OwnAnswersExactly(p, JustThese(q, d, lit), map[]);
          BreaksInside(p, j, f, e);
          assert false;
        }
      }
    }
    if forall world, e :: ValidWorld(world) && world.literal == lit ==> !IsAnswer(q, world, e) {
      forall world, temps | ValidWorld(world) && world.literal == lit ensures ReturnsOwn(p, world, temps) {
        OwnAnswersExactly(p, world, temps);
      }
    }
  }

  lemma NoneInside(p: Program)
    ensures forall j :: j in BetweenSources(p).joins ==> !IsInside(BetweenSources(p), j)
  {
  }

  lemma SameChange(p: Program, f: Field, e: Env, v: Value)
    ensures WithCell(BetweenSources(p), f, e, v) == WithCell(p, f, e, v)
  {
  }

  // ----- one table of three columns, read for one month -----

  function OneField(n: Name): Field {
    Field(n, 0, Datatype(StringGroup, 1), n)
  }

  const MONTHLY := TableObject(0, 0, [OneField(0), OneField(1), OneField(2)])
  const MONTH := Decision(0, OneField(2), "m", "m")

  /** Asks for the first column; the third one is the partition. */
  function OneTable(joins: seq<JoinSpec>, groupBy: seq<Field>, aggregations: seq<AggregationSpec>): Program {
    Program([MONTHLY], [], [OneField(0)], joins, [], groupBy, aggregations, [MONTH], 0)
  }

  function StoredCells(a: real, b: real): Row {
    map[Physical(0) := Datum(a), Physical(1) := Datum(b), Physical(2) := Datum(0.0)]
  }

  /** One stored row, and every literal reads as the value of the partition column. */
  function OneRow(a: real, b: real): World {
    World(map[0 := [BaseRow(0, 0, StoredCells(a, b))]], (t, s) => Datum(0.0))
  }

  function OneEnv(a: real, b: real): Env {
    map[0 := Some(BaseRow(0, 0, StoredCells(a, b)))]
  }

  lemma OneSourceOnly(joins: seq<JoinSpec>, groupBy: seq<Field>, aggregations: seq<AggregationSpec>)
    ensures var p := OneTable(joins, groupBy, aggregations);
            && (forall t :: KeyOf(p, t) == t && FamilyOf(p.families, t).None?) && SourcesOf(p) == {0}
                && LogicalKeys(p) == [0]
            && FieldsOf(p) == {OneField(0), OneField(1), OneField(2)} && Refs(p.objects) == {0}
  {
    var p := OneTable(joins, groupBy, aggregations);
    assert p.objects[0] in p.objects;
    FilterAll((o: TableObject) => FamilyOf(p.families, o.ref).None?, p.objects);
    assert Map((f: Family) => f.ref, p.families) == [];
    assert Map((o: TableObject) => o.ref, p.objects) == [0];
    assert MONTHLY.fields[0] in MONTHLY.fields && MONTHLY.fields[1] in MONTHLY.fields
        && MONTHLY.fields[2] in MONTHLY.fields;
  }

  predicate InsideOnly(joins: seq<JoinSpec>) {
    forall j :: j in joins ==> j.joinType == Inner && j.left == OneField(0) && j.right == OneField(1)
  }

  lemma OneCatalog(f: Field)
    ensures f in MONTHLY.fields <==> f == OneField(0) || f == OneField(1) || f == OneField(2)
    ensures NoDup(MONTHLY.fields)
  {
    assert MONTHLY.fields[0] == OneField(0) && MONTHLY.fields[1] == OneField(1) && MONTHLY.fields[2] == OneField(2);
  }

  lemma OneCatalogIsValid()
    ensures ValidCatalog([MONTHLY])
  {
    assert MONTHLY.ref == 0;
    OneCatalog(OneField(0));
    hide MONTHLY, NoDup;
    forall f | f in MONTHLY.fields ensures f == OneField(f.physical) && f.ref == f.physical && f.owner == 0 {
      OneCatalog(f);
    }
    assert forall o :: o in [MONTHLY] ==> o == MONTHLY;
    hide OneField;
  }

  lemma OneIsValid(joins: seq<JoinSpec>, groupBy: seq<Field>, aggregations: seq<AggregationSpec>)
    requires InsideOnly(joins) && (forall f :: f in groupBy ==> f == OneField(0)) && forall a ::
             a in aggregations ==> a.source.None?
    ensures ValidProgram(OneTable(joins, groupBy, aggregations))
  {
    hide ValidCatalog, KeyOf, SourcesOf, LogicalKeys, FieldsOf, FamilyOf;
    OneSourceOnly(joins, groupBy, aggregations);
    OneCatalogIsValid();
    var p := OneTable(joins, groupBy, aggregations);
    forall i | 0 <= i < |p.joins| ensures JoinAllowed(p, i) {
      assert p.joins[i] in p.joins;
    }
  }

  lemma OneBetween(joins: seq<JoinSpec>, groupBy: seq<Field>, aggregations: seq<AggregationSpec>)
    requires InsideOnly(joins)
    ensures BetweenSources(OneTable(joins, groupBy, aggregations)) == OneTable([], groupBy, aggregations)
  {
    hide KeyOf;
    OneSourceOnly(joins, groupBy, aggregations);
    var p := OneTable(joins, groupBy, aggregations);
    FilterNone((j: JoinSpec) => KeyOf(p, j.left.owner) != KeyOf(p, j.right.owner), joins);
  }

  lemma OneIsJoinable(groupBy: seq<Field>, aggregations: seq<AggregationSpec>)
    ensures var p := OneTable([], groupBy, aggregations);
            && EdgesOf(p) == [] && DirectedRights(p) == {} && AntiRights(p) == {} && LegalOrder([], {0}, 0, [])
            && FlatJoinable(p) && IsRoot(p, 0) && Joinable(p)
  {
    hide KeyOf, SourcesOf, LogicalKeys;
    OneSourceOnly([], groupBy, aggregations);
    var p := OneTable([], groupBy, aggregations);
    assert Reached({0}, []) == {0};
    assert LegalOrder([], {0}, 0, []);
    assert FirstRoot([0], {}) == Some(0);
    assert FirstRequestedRoot(p, p.requested) == Some(0);
  }

  lemma OneIsAccepted(joins: seq<JoinSpec>, groupBy: seq<Field>, aggregations: seq<AggregationSpec>)
    requires InsideOnly(joins) && ValidProgram(OneTable(joins, groupBy, aggregations))
    ensures FlatProgram(OneTable(joins, groupBy, aggregations)).Some?
  {
    hide ValidProgram, FlatProgram, FlatJoinable;
    FlatProgramExactly(OneTable(joins, groupBy, aggregations));
    OneBetween(joins, groupBy, aggregations);
    OneIsJoinable(groupBy, aggregations);
  }

  lemma OneRowIsValid(a: real, b: real)
    ensures ValidWorld(OneRow(a, b))
  {
  }

  lemma OneRowInMonth(groupBy: seq<Field>, aggregations: seq<AggregationSpec>, a: real, b: real)
    ensures InPeriod(OneTable([], groupBy, aggregations), OneRow(a, b), BaseRow(0, 0, StoredCells(a, b)))
  {
    var p, world := OneTable([], groupBy, aggregations), OneRow(a, b);
    var stored := BaseRow(0, 0, StoredCells(a, b));
    assert FieldValue(p, Alone(p, stored), OneField(2)) == Datum(0.0);
    assert Map(s => world.literal(OneField(2).dtype, s), ["m"]) == [Datum(0.0)];
  }

  /** The one stored row is the one answer. */
  lemma OneAnswer(groupBy: seq<Field>, aggregations: seq<AggregationSpec>, a: real, b: real, e: Env)
    ensures IsAnswer(OneTable([], groupBy, aggregations), OneRow(a, b), e) <==> e == OneEnv(a, b)
  {
    hide KeyOf, SourcesOf, LogicalKeys, InPeriod, FlatJoinable, Joinable, StoredCells, DirectedRights, AntiRights,
         EdgesOf, RawRows;
    var p, world := OneTable([], groupBy, aggregations), OneRow(a, b);
    OneSourceOnly([], groupBy, aggregations);
    OneIsJoinable(groupBy, aggregations);
    OneRowInMonth(groupBy, aggregations, a, b);
    OneStored(groupBy, aggregations, a, b);
    if IsAnswer(p, world, e) {
      assert 0 in e.Keys && e[0].Some?;
      assert e == map[0 := e[0]];
    }
  }

  lemma OneStored(groupBy: seq<Field>, aggregations: seq<AggregationSpec>, a: real, b: real)
    ensures RawRows(OneTable([], groupBy, aggregations), OneRow(a, b), 0) == [BaseRow(0, 0, StoredCells(a, b))]
  {
  }

  lemma OneListed(groupBy: seq<Field>, aggregations: seq<AggregationSpec>, a: real, b: real, answers: seq<Env>)
    requires ListsAnswers(OneTable([], groupBy, aggregations), OneRow(a, b), answers)
    ensures answers == [OneEnv(a, b)]
  {
    hide IsAnswer, OneTable, OneRow, OneEnv;
    forall e ensures e in answers <==> e == OneEnv(a, b) {
      OneAnswer(groupBy, aggregations, a, b, e);
    }
    NoDupSameBag(answers, [OneEnv(a, b)]);
    SameCount(answers, [OneEnv(a, b)]);
    assert answers[0] in answers;
  }

  const INSIDE := JoinSpec(Inner, ViaLeftJoin, OneField(0), OneField(1))

  /** A join between two columns of one table: the program is valid, the older compiler accepts it, and its result
      table holds a row that violates the join. */
  lemma InsideJoinIsLost(temps: map<Target, seq<Row>>)
    ensures var p, world := OneTable([INSIDE], [], []), OneRow(1.0, 0.0);
            && ValidProgram(p) && ValidWorld(world) && FlatProgram(p).Some?
            && ResultTable in Run(FlatProgram(p).value, world, temps)
            && Run(FlatProgram(p).value, world, temps)[ResultTable] == [map[Physical(0) := Datum(1.0)]]
            && forall e :: !IsAnswer(p, world, e)
  {
    hide ValidProgram, ValidWorld, FlatProgram, IsAnswer, Run, ListsAnswers, RequestedRows, InsideHold, OneTable,
         OneRow, OneEnv;
    var p, world := OneTable([INSIDE], [], []), OneRow(1.0, 0.0);
    OneIsValid([INSIDE], [], []);
    OneRowIsValid(1.0, 0.0);
    OneIsAccepted([INSIDE], [], []);
    OneBetween([INSIDE], [], []);
    FlatProgramReturns(p, world, temps);
    var after := Run(FlatProgram(p).value, world, temps);
    var answers :| ListsAnswers(BetweenSources(p), world, answers) && after[ResultTable] == RequestedRows(p, answers);
    OneListed([], [], 1.0, 0.0, answers);
    OneRequested([INSIDE], 1.0, 0.0);
    OneViolates(1.0, 0.0);
    forall e ensures !IsAnswer(p, world, e) {
      OneAnswer([], [], 1.0, 0.0, e);
      ValidAllows(p);
      AnswersSplit(p, world, e);
    }
  }

  lemma ValidAllows(p: Program)
    requires ValidProgram(p)
    ensures JoinsAllowed(p)
  {
  }

  lemma OneRequested(joins: seq<JoinSpec>, a: real, b: real)
    ensures RequestedRows(OneTable(joins, [], []), [OneEnv(a, b)]) == [map[Physical(0) := Datum(a)]]
  {
    var p := OneTable(joins, [], []);
    assert FieldValue(p, OneEnv(a, b), OneField(0)) == Datum(a);
    assert FieldNames(p.requested) == [Physical(0)];
    assert FieldValues(p, p.requested, OneEnv(a, b)) == [Datum(a)];
    assert NamedRow([], []) == map[];
    assert NamedRow([Physical(0)], [Datum(a)]) == map[Physical(0) := Datum(a)] by {
      assert [Physical(0)][..0] == [] && [Datum(a)][..0] == [];
    }
  }

  lemma OneViolates(a: real, b: real)
    requires a != b
    ensures !InsideHold(OneTable([INSIDE], [], []), OneEnv(a, b))
  {
    var p := OneTable([INSIDE], [], []);
    assert p.joins[0] in p.joins;
    assert FieldValue(p, OneEnv(a, b), OneField(0)) == Datum(a) && FieldValue(p, OneEnv(a, b), OneField(1)) == Datum(b);
  }

  // ----- aggregation -----

  const COUNTED := AggregationSpec(9, Count, None, false)

  /** Counting the rows of each value of the first column. */
  function Counting(): Program {
    OneTable([], [OneField(0)], [COUNTED])
  }

  const EVIDENCE := EvidenceGraph(0, {0}, {})

  lemma CountingIsConvertible()
    ensures ValidProgram(Counting()) && ValidOutputs(Counting()) && Convertible(Counting(), 0, EVIDENCE, n => true)
            && NoDup(OutputNames(Counting()))
  {
    hide ValidProgram, KeyOf, SourcesOf, LogicalKeys, Joinable, EveryTableAsked, OutputNames, MONTHLY;
    OneIsValid([], [OneField(0)], [COUNTED]);
    OneSourceOnly([], [OneField(0)], [COUNTED]);
    OneIsJoinable([OneField(0)], [COUNTED]);
    CountingAsks();
    CountingOutputs();
  }

  lemma CountingAsks()
    ensures EveryTableAsked(Counting())
  {
    hide KeyOf, MONTHLY;
    var p := Counting();
    assert p.requested[0] in p.requested;
    assert OneField(0) in Mentioned(p);
    assert Asked(p, OneField(0));
    OneCatalog(OneField(0));
  }

  lemma CountingOutputs()
    ensures OutputNames(Counting()) == [Physical(0), Physical(9)]
  {
  }

  function CountingNames(): Naming {
    map[OneField(0) := Carried(1), OneField(2) := Carried(2)]
  }

  lemma CountingMentions()
    ensures Mentioned(Counting()) == {OneField(0), OneField(2)}
  {
    hide MONTHLY;
    var p := Counting();
    assert p.requested[0] in p.requested && p.decisions[0] in p.decisions;
    assert p.joins == [] && p.filters == [];
  }

  lemma CountingAsksNames(f: Field)
    requires f == OneField(0) || f == OneField(2)
    ensures Asked(Counting(), f)
  {
    hide Mentioned, SlotOf;
    CountingMentions();
    assert f in Mentioned(Counting());
  }

  lemma CountingSlots(f: Field, g: Field)
    requires f in {OneField(0), OneField(2)} && g in {OneField(0), OneField(1), OneField(2)}
    ensures SlotOf(Counting(), f) == SlotOf(Counting(), g) <==> f == g
  {
  }

  lemma CountingNamesAre()
    ensures CountingNames().Keys == {OneField(0), OneField(2)}
    ensures CountingNames()[OneField(0)] == Carried(1) && CountingNames()[OneField(2)] == Carried(2)
  {
    assert OneField(0) != OneField(2);
  }

  lemma CountingIsNamed()
    ensures GoodNaming(Counting(), CountingNames())
  {
    hide *;
    var p, names := Counting(), CountingNames();
    CountingFields();
    CountingMentions();
    CountingNamesAre();
    forall f | f in names ensures Asked(p, f) {
      CountingAsksNames(f);
    }
    forall f, g | f in names && g in FieldsOf(p) ensures SlotOf(p, f) == SlotOf(p, g) <==> f == g {
      CountingSlots(f, g);
    }
    NamingIsGood(p, names);
  }

  lemma NamingIsGood(p: Program, names: Naming)
    requires Mentioned(p) <= names.Keys <= FieldsOf(p)
    requires forall f :: f in names ==> names[f].Carried? && Asked(p, f)
    requires forall f, g :: f in names && g in names ==> (names[f] == names[g] <==> f == g)
    requires forall f, g :: f in names && g in FieldsOf(p) ==> (SlotOf(p, f) == SlotOf(p, g) <==> f == g)
    ensures GoodNaming(p, names)
  {
    hide Mentioned, FieldsOf, SlotOf, Asked;
  }

  lemma CountingFields()
    ensures FieldsOf(Counting()) == {OneField(0), OneField(1), OneField(2)}
  {
    hide KeyOf, SourcesOf, LogicalKeys;
    OneSourceOnly([], [OneField(0)], [COUNTED]);
  }

  lemma CountingIsScanned()
    ensures AllScanned(Counting(), CountingNames())
  {
    OneCatalog(OneField(0));
    CountingNamesAre();
    hide CountingNames, OneField;
    assert OneField(0) in NeededFields(CountingNames(), MONTHLY);
  }

  lemma CountingHasPlan() returns (plan: Plan)
    ensures Correct(Counting(), plan) && Compile(plan).Some?
  {
    hide ValidProgram, ValidOutputs, GoodNaming, AllScanned, ScansUpTo, SortedObjects, Correct, Compile, PlanOf,
         LegalOrder, Joinable, OneTable;
    var p, names := Counting(), CountingNames();
    CountingIsConvertible();
    CountingIsNamed();
    CountingIsScanned();
    OneIsJoinable([OneField(0)], [COUNTED]);
    OneSourceOnly([], [OneField(0)], [COUNTED]);
    if ScansUpTo(p, names, |SortedObjects(p)|).None? {
      ScansSucceed(p, names);
    }
    var scans := ScansUpTo(p, names, |SortedObjects(p)|).value;
    plan := PlanOf(p, names, scans, 0, []);
    ConvertedIsCorrect(p, names, 0, [], scans);
    OneRowIsValid(0.0, 0.0);
    CountingHasFew();
    PipelineReturnsAnswers(p, plan, OneRow(0.0, 0.0), map[]);
  }

  lemma CountingHasFew()
    ensures |Counting().families| < MAX_STEPS
  {
  }

  /** An aggregated program that both compilers accept: for one stored row their result tables differ, whatever
      correct plan the adapter builds, and it does build one. */
  lemma AggregationIsLost(temps: map<Target, seq<Row>>, temps': map<Target, seq<Row>>)
    ensures var p, world := Counting(), OneRow(1.0, 0.0);
            && ValidProgram(p) && ValidWorld(world) && Convertible(p, 0, EVIDENCE, n => true) && FlatProgram(p).Some?
            && (exists plan :: Correct(p, plan) && Compile(plan).Some?)
            && forall plan :: Correct(p, plan) && Compile(plan).Some? ==>
                 var dag, flat := Run(Compile(plan).value, world, temps), Run(FlatProgram(p).value, world, temps');
                 ResultTable in dag && ResultTable in flat && multiset(dag[ResultTable]) != multiset(flat[ResultTable])
  {
    hide ValidProgram, ValidWorld, Convertible, FlatProgram, IsAnswer, Run, Compile, OneTable, OneRow, OneEnv,
         OutputNames, ValidatePlan, Returns, PlanRows;
    var p, world := Counting(), OneRow(1.0, 0.0);
    CountingIsConvertible();
    OneRowIsValid(1.0, 0.0);
    OneIsAccepted([], [OneField(0)], [COUNTED]);
    var built := CountingHasPlan();
    OneAnswer([OneField(0)], [COUNTED], 1.0, 0.0, OneEnv(1.0, 0.0));
    forall plan | Correct(p, plan) && Compile(plan).Some?
      ensures var dag, flat := Run(Compile(plan).value, world, temps), Run(FlatProgram(p).value, world, temps');
              ResultTable in dag && ResultTable in flat && multiset(dag[ResultTable]) != multiset(flat[ResultTable]) {
      CompilersAgree(p, 0, EVIDENCE, n => true, plan, world, temps, temps');
      CountingAggregates();
    }
  }

  lemma CountingAggregates()
    ensures Counting().aggregations != []
  {
  }
}
