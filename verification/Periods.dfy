/** What a time decision means for the rows of an answer: plain inequalities between stored values and the
    literals of the decision.
    Models the periods that ontology_core/inference_to_relational.py and ontology_core/inference_compiler.py emit. */
module Periods {
  import opened SeqOps
  import opened Sql
  import opened RelationalPlan
  import opened JoinOrder
  import opened InferredProgram
  import opened ProgramMeaning
  import opened ProgramAnswers
  import opened AdapterJoins
  import opened AdapterOutput
  import opened Adapter
  import opened FlatMeaning
  import opened FlatCompiler
  import opened FlatCorrectness
  import opened InsideJoins
  import opened OlderCompiler

  /** The stored partition value lies between the start and the end of the decision, both included. */
  predicate BetweenLiterals(world: World, d: Decision, b: BaseRow) {
    var v := Cell(b.cells, Physical(d.partition.physical));
    var start, end := world.literal(d.partition.dtype, d.start), world.literal(d.partition.dtype, d.end);
    v.Datum? && start.Datum? && end.Datum? && start.x <= v.x <= end.x
  }

  /** The row lies between the bounds of every decision on its table. */
  predicate WithinDecisions(p: Program, world: World, b: BaseRow) {
    forall d :: d in p.decisions && d.owner == b.table ==> BetweenLiterals(world, d, b)
  }

  /** Every row bound in the environment does. */
  predicate AllWithin(p: Program, world: World, e: Env) {
    forall s :: s in e && e[s].Some? ==> WithinDecisions(p, world, e[s].value)
  }

  lemma PeriodReads(p: Program, world: World, d: Decision, b: BaseRow)
    requires d.partition.owner == b.table
    ensures HoldsOn(p, world, TemporalPred(d), Alone(p, b)) <==> BetweenLiterals(world, d, b)
  {
    assert FieldValue(p, Alone(p, b), d.partition) == Cell(b.cells, Physical(d.partition.physical));
    var lit := s => world.literal(d.partition.dtype, s);
    assert Map(lit, [d.start]) == [lit(d.start)];
    assert Map(lit, [d.start, d.end]) == [lit(d.start), lit(d.end)] by {
      MapConcat(lit, [d.start], [d.end]);
    }
    MapCong(s => world.literal(d.partition.dtype, s), lit, [d.start]);
    MapCong(s => world.literal(d.partition.dtype, s), lit, [d.start, d.end]);
  }

  /** A row is in period exactly when its partition value lies between the literals of its table's decision. */
  lemma PeriodIsInterval(p: Program, world: World, b: BaseRow)
    requires FieldsKnown(p)
    ensures InPeriod(p, world, b) <==> WithinDecisions(p, world, b)
  {
    hide HoldsOn, TemporalPred, BetweenLiterals, FieldsOf;
    forall d | d in p.decisions && d.owner == b.table
      ensures HoldsOn(p, world, TemporalPred(d), Alone(p, b)) <==> BetweenLiterals(world, d, b) {
      PeriodReads(p, world, d, b);
    }
  }

  lemma ValidIsKnown(p: Program)
    requires ValidProgram(p)
    ensures FieldsKnown(p)
  {
  }

  /** Every row bound in an answer lies within the decisions on its table. */
  lemma AnswersAreWithin(p: Program, world: World, e: Env)
    requires ValidProgram(p) && IsAnswer(p, world, e)
    ensures AllWithin(p, world, e)
  {
    hide ValidProgram, IsAnswer, WithinDecisions;
    forall s | s in e && e[s].Some? ensures WithinDecisions(p, world, e[s].value) {
      AnswerIsWithin(p, world, e, s);
    }
  }

  lemma AnswerIsWithin(p: Program, world: World, e: Env, s: Key)
    requires ValidProgram(p) && IsAnswer(p, world, e) && s in e && e[s].Some?
    ensures WithinDecisions(p, world, e[s].value)
  {
    hide ValidProgram, InPeriod, WithinDecisions, DirectedRights, AntiRights, KeyOf, RawRows, OnFiltersHold, SourcesOf;
    ValidIsKnown(p);
    PeriodIsInterval(p, world, e[s].value);
    if s in DirectedRights(p) {
      DirectedMember(p, s);
      var j :| j in p.joins && j.joinType != Inner && KeyOf(p, j.right.owner) == s;
      assert JoinHolds(p, world, j, e);
      RightIsSource(p, j);
    }
  }

  /** A row of the excluded source that blocks an answer: its key matches, its match filters hold, and it lies
      within the decisions on its table. */
  predicate Blocks(p: Program, world: World, j: JoinSpec, e: Env, b: BaseRow) {
    && Compare(EQ, FieldValue(p, e, j.left), Cell(b.cells, Physical(j.right.physical))) == True
    && OnFiltersHold(p, world, KeyOf(p, j.right.owner), b) && WithinDecisions(p, world, b)
  }

  /** An anti join is blocked by rows within the decisions only; a LEFT join is padded exactly when no such row
      matches. */
  lemma OnlyRowsWithinBlock(p: Program, world: World, j: JoinSpec, e: Env)
    requires FieldsKnown(p)
    ensures j.joinType == Anti ==>
              (JoinHolds(p, world, j, e) <==>
                 forall b :: b in RawRows(p, world, KeyOf(p, j.right.owner)) ==> !Blocks(p, world, j, e, b))
    ensures j.joinType == LeftOuter && KeyOf(p, j.right.owner) in e && e[KeyOf(p, j.right.owner)].None? ==>
              (JoinHolds(p, world, j, e) <==>
                 forall b :: b in RawRows(p, world, KeyOf(p, j.right.owner)) ==> !Blocks(p, world, j, e, b))
  {
    hide InPeriod, WithinDecisions, KeyOf, RawRows, OnFiltersHold, FieldValue, FieldsKnown;
    forall b ensures InPeriod(p, world, b) <==> WithinDecisions(p, world, b) {
      PeriodIsInterval(p, world, b);
    }
  }

  /** A converted plan returns the output of answers whose rows all lie within the decisions. */
  lemma PlanStaysWithin(p: Program, plan: Plan, world: World) returns (answers: seq<Env>)
    requires ValidProgram(p) && ValidWorld(world) && Correct(p, plan)
    ensures ListsAnswers(p, world, answers) && PlanRows(plan, world) == OutputRows(p, answers)
    ensures forall e :: e in answers ==> AllWithin(p, world, e)
  {
    hide ValidProgram, ValidWorld, IsAnswer, OutputRows, PlanRows, WithinDecisions, ValidatePlan;
    assert Returns(p, plan, world);
    answers :| ListsAnswers(p, world, answers) && PlanRows(plan, world) == OutputRows(p, answers);
    forall e | e in answers ensures AllWithin(p, world, e) {
      AnswersAreWithin(p, world, e);
    }
  }

  /** So does the older compiler's program. */
  lemma FlatStaysWithin(p: Program, world: World, temps: map<Target, seq<Row>>) returns (answers: seq<Env>)
    requires ValidProgram(p) && ValidWorld(world) && FlatProgram(p).Some?
    ensures ResultTable in Run(FlatProgram(p).value, world, temps)
    ensures Run(FlatProgram(p).value, world, temps)[ResultTable] == RequestedRows(p, answers)
    ensures ListsAnswers(BetweenSources(p), world, answers)
    ensures forall e :: e in answers ==> AllWithin(p, world, e)
  {
    hide ValidProgram, ValidWorld, IsAnswer, RequestedRows, WithinDecisions, BetweenSources, FlatProgram, Run;
    FlatProgramReturns(p, world, temps);
    answers :| ListsAnswers(BetweenSources(p), world, answers)
               && Run(FlatProgram(p).value, world, temps)[ResultTable] == RequestedRows(p, answers);
    BetweenIsValid(p);
    forall e | e in answers ensures AllWithin(p, world, e) {
      AnswersAreWithin(BetweenSources(p), world, e);
      SameDecisions(p, world, e);
    }
  }

  lemma SameDecisions(p: Program, world: World, e: Env)
    ensures AllWithin(BetweenSources(p), world, e) == AllWithin(p, world, e)
  {
  }
}
