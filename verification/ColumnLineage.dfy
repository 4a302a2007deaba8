/** Lineage of columns through CTAS steps: a recursive walk from the final query, the declarative
    composition of projections it computes, and the steps that cannot influence it.
    Models `extract_evaluable_structure` of evaluation/sql_structure.py on already canonical queries. */
module ColumnLineage {
  import opened SeqOps

  type Name = nat
  type FieldName = nat

  /** A canonical expression: a column, or other text with the name before its last dot, if it is one. */
  datatype Expr = Column(source: Option<Name>, field: FieldName) | Computed(id: nat, head: Option<Name>)
  datatype Projection = Projection(name: FieldName, expr: Expr)
  datatype Predicate = Predicate(expr: Expr, rest: nat)
  datatype JoinSignature = JoinSignature(left: Name, right: Name, rest: nat)
  datatype Warning = ProgramLineage | QueryShape | ColumnSource

  /** What one query's own analysis yields; `own` are the warnings it raises by itself. */
  datatype Query = Query(isSelect: bool, parsed: bool, own: set<Warning>, tables: seq<Name>,
                         projections: seq<Projection>, predicates: seq<Predicate>, joins: seq<JoinSignature>)

  /** CTAS steps with their positions, the final query, and the names with the temporary prefix. */
  datatype Script = Script(creates: map<Name, Query>, position: map<Name, nat>, size: nat, final: Query,
          temporary: set<Name>)

  ghost predicate ValidScript(s: Script) {
    && s.position.Keys == s.creates.Keys && (forall n :: n in s.position ==> s.position[n] < s.size)
    && (forall n, m :: n in s.position && m in s.position && s.position[n] == s.position[m] ==> n == m)
  }

  // ----- the walk -----

  type Outputs = map<FieldName, Option<Expr>>
  datatype State = State(mappings: map<Name, Outputs>, warnings: set<Warning>, structures: seq<Query>)

  const START := State(map[], {}, [])

  function Warn(st: State, w: set<Warning>): State {
    st.(warnings := st.warnings + w)
  }

  function Lookup(mappings: map<Name, Outputs>, source: Name, field: FieldName): Option<Expr> {
    if source in mappings && field in mappings[source] then mappings[source][field] else None
  }

  function Resolve(s: Script, mappings: map<Name, Outputs>, e: Expr): Option<Expr> {
    if e.Computed? || e.source.None? then None
    else if e.source.value in s.creates then Lookup(mappings, e.source.value, e.field)
    else Some(e)
  }

  /** Outputs of a step; a repeated name keeps the last projection. */
  function OutputsOf(s: Script, mappings: map<Name, Outputs>, projections: seq<Projection>): Outputs {
    if projections == [] then map[]
    else
      var last := projections[|projections| - 1];
      OutputsOf(s, mappings, projections[..|projections| - 1])[last.name := Resolve(s, mappings, last.expr)]
  }

  /** A table named by a query: a step to walk, an unknown temporary name, or neither. `limit` is the
      position of the step that owns the query, or the number of steps for the final query. */
  predicate Walks(s: Script, st: State, source: Name, limit: nat) {
    source in s.creates && source !in st.mappings && source in s.position && s.position[source] < limit
  }

  predicate Suspicious(s: Script, st: State, source: Name, limit: nat) {
    if source in s.creates then source !in st.mappings && !Walks(s, st, source, limit) else source in s.temporary
  }

  function Own(q: Query): set<Warning> {
    q.own + if q.parsed then {} else {ProgramLineage}
  }

  function Shape(q: Query): set<Warning> {
    if q.isSelect then {} else {ProgramLineage}
  }

  function Analyze(s: Script, q: Query, target: Option<Name>, limit: nat, st: State): State
    decreases limit, |q.tables| + 1
  {
    var walked := AnalyzeTables(s, q, |q.tables|, limit, Warn(st, Shape(q)));
    var warned := Warn(walked, Own(q));
    var mapped := if target.None? then warned
                  else warned.(mappings := warned.mappings[target.value :=
                                                           OutputsOf(s, warned.mappings, q.projections)]);
    mapped.(structures := mapped.structures + [q])
  }

  function AnalyzeTables(s: Script, q: Query, k: nat, limit: nat, st: State): State
    requires k <= |q.tables|
    decreases limit, k
  {
    if k == 0 then st
    else
      var before := AnalyzeTables(s, q, k - 1, limit, st);
      var source := q.tables[k - 1];
      if Walks(s, before, source, limit) then Analyze(s, s.creates[source], Some(source), s.position[source], before)
      else if Suspicious(s, before, source, limit) then Warn(before, {ProgramLineage})
      else before
  }

  /** The walk from the final query. */
  function Walk(s: Script): State {
    Analyze(s, s.final, None, s.size, START)
  }

  // ----- the extracted structure -----

  predicate OverStep(s: Script, e: Expr) {
    var source := if e.Column? then e.source else e.head;
    source.Some? && source.value in s.creates
  }

  function Mapped(s: Script, st: State, e: Expr): Option<Expr> {
    if !OverStep(s, e) then Some(e) else if e.Column? then Lookup(st.mappings, e.source.value, e.field) else None
  }

  function FinalProjections(s: Script, st: State): seq<Expr> {
    Map((p: Projection) => var m := Mapped(s, st, p.expr); if m.Some? then m.value else p.expr, s.final.projections)
  }

  function AllPredicates(structures: seq<Query>): seq<Predicate> {
    FlatMap((q: Query) => q.predicates, structures)
  }

  function AllJoins(structures: seq<Query>): seq<JoinSignature> {
    FlatMap((q: Query) => q.joins, structures)
  }

  function MappedPredicates(s: Script, st: State): set<Predicate> {
    set p | p in AllPredicates(st.structures) && Mapped(s, st, p.expr).Some? :: p.(expr := Mapped(s, st, p.expr).value)
  }

  predicate JoinOverStep(s: Script, j: JoinSignature) {
    j.left in s.creates || j.right in s.creates
  }

  predicate Unresolved(s: Script, st: State) {
    || (exists p :: p in s.final.projections && Mapped(s, st, p.expr).None?)
    || (exists p :: p in AllPredicates(st.structures) && Mapped(s, st, p.expr).None?)
    || (exists j :: j in AllJoins(st.structures) && JoinOverStep(s, j))
  }

  datatype Structure = Structure(tables: set<Name>, projections: seq<Expr>, predicates: set<Predicate>,
          joins: set<JoinSignature>, warnings: set<Warning>)

  function BaseTables(s: Script, st: State): set<Name> {
    set q, t | q in st.structures && t in q.tables && t !in s.creates :: t
  }

  function PlainJoins(s: Script, st: State): set<JoinSignature> {
    set j | j in AllJoins(st.structures) && !JoinOverStep(s, j)
  }

  function Extract(s: Script): Structure {
    var st := Walk(s);
    Structure(BaseTables(s, st), FinalProjections(s, st), MappedPredicates(s, st), PlainJoins(s, st),
              st.warnings + if Unresolved(s, st) then {ProgramLineage} else {})
  }

  // ----- composing projections -----

  /** The last projection with a name. */
  function LastNamed(projections: seq<Projection>, name: FieldName): Option<Expr> {
    if projections == [] then None
    else if projections[|projections| - 1].name == name then Some(projections[|projections| - 1].expr)
    else LastNamed(projections[..|projections| - 1], name)
  }

  /** The base column behind a column of a step, following projections down to stored tables, in at most
      `n` steps. */
  function Origin(s: Script, step: Name, field: FieldName, n: nat): Option<Expr>
    decreases n
  {
    if n == 0 || step !in s.creates then None
    else
      var e := LastNamed(s.creates[step].projections, field);
      if e.None? || e.value.Computed? || e.value.source.None? then None
      else if e.value.source.value in s.creates then Origin(s, e.value.source.value, e.value.field, n - 1)
      else e
  }

  /** The column traces back to this base column, or to none at all. */
  ghost predicate Traces(s: Script, step: Name, field: FieldName, base: Option<Expr>) {
    if base.Some? then exists n: nat :: Origin(s, step, field, n) == base
    else forall n: nat :: Origin(s, step, field, n) == None
  }

  /** Columns are taken from tables that the query names. */
  ghost predicate ColumnsInScope(q: Query) {
    && (forall p :: p in q.projections && p.expr.Column? && p.expr.source.Some? ==> p.expr.source.value in q.tables)
    && (forall p :: p in q.predicates && p.expr.Column? && p.expr.source.Some? ==> p.expr.source.value in q.tables)
  }

  ghost predicate ScriptInScope(s: Script) {
    ColumnsInScope(s.final) && forall n :: n in s.creates ==> ColumnsInScope(s.creates[n])
  }

  // ----- what the walk keeps -----

  ghost predicate IsOrigin(s: Script, n: Name, outputs: Outputs) {
    forall f: FieldName :: Traces(s, n, f, if f in outputs then outputs[f] else None)
  }

  /** Every walked step maps its outputs to their origins, and all steps it names are walked. */
  ghost predicate GoodState(s: Script, st: State) {
    forall n :: n in st.mappings ==> GoodStep(s, st, n)
  }

  ghost predicate GoodStep(s: Script, st: State, n: Name)
    requires n in st.mappings
  {
    && n in s.creates && IsOrigin(s, n, st.mappings[n]) && s.creates[n] in st.structures
    && forall t :: t in s.creates[n].tables && t in s.creates ==> t in st.mappings
  }

  ghost predicate Grows(st: State, after: State) {
    && st.warnings <= after.warnings
    && (forall n :: n in st.mappings ==> n in after.mappings && after.mappings[n] == st.mappings[n])
    && (forall q :: q in st.structures ==> q in after.structures)
  }

  lemma GrowsTransitive(a: State, b: State, c: State)
    requires Grows(a, b) && Grows(b, c)
    ensures Grows(a, c)
  {
  }

  lemma {:induction false} OutputsAt(s: Script, mappings: map<Name, Outputs>, projections: seq<Projection>,
          f: FieldName)
    ensures var e := LastNamed(projections, f);
            if e.None? then f !in OutputsOf(s, mappings, projections)
            else f in OutputsOf(s, mappings,
                                projections) && OutputsOf(s, mappings, projections)[f] == Resolve(s, mappings, e.value)
  {
    if projections != [] {
      OutputsAt(s, mappings, projections[..|projections| - 1], f);
    }
  }

  lemma {:induction false} LastNamedIsListed(projections: seq<Projection>, f: FieldName)
    requires LastNamed(projections, f).Some?
    ensures exists p :: p in projections && p.expr == LastNamed(projections, f).value
  {
    var n := |projections| - 1;
    assert projections == projections[..n] + [projections[n]];
    if projections[n].name == f {
      assert projections[n] in projections;
    } else {
      LastNamedIsListed(projections[..n], f);
      var p :| p in projections[..n] && p.expr == LastNamed(projections[..n], f).value;
      assert p in projections;
    }
  }

  lemma StepTraces(s: Script, n: Name, f: FieldName, base: Option<Expr>)
    requires n in s.creates
    requires var e := LastNamed(s.creates[n].projections, f);
             if e.None? || e.value.Computed? || e.value.source.None? then base == None
             else if e.value.source.value in s.creates then Traces(s, e.value.source.value, e.value.field, base)
             else base == e
    ensures Traces(s, n, f, base)
  {
    var e := LastNamed(s.creates[n].projections, f);
    if base.Some? {
      if e.value.source.value in s.creates {
        var m: nat :| Origin(s, e.value.source.value, e.value.field, m) == base;
        assert Origin(s, n, f, m + 1) == base;
      } else {
        assert Origin(s, n, f, 1) == base;
      }
    } else if e.Some? && e.value.Column? && e.value.source.Some? {
      forall m: nat ensures Origin(s, n, f, m) == None {
        if m > 0 {
          assert Origin(s, e.value.source.value, e.value.field, m - 1) == None;
        }
      }
    }
  }

  // Outputs resolved against correct mappings are origins.
  lemma OutputsAreOrigins(s: Script, n: Name, st: State)
    requires n in s.creates && ColumnsInScope(s.creates[n]) && GoodState(s, st)
    requires forall t :: t in s.creates[n].tables && t in s.creates ==> t in st.mappings
    ensures IsOrigin(s, n, OutputsOf(s, st.mappings, s.creates[n].projections))
  {
    hide Traces;
    var projections := s.creates[n].projections;
    var outputs := OutputsOf(s, st.mappings, projections);
    forall f: FieldName ensures Traces(s, n, f, if f in outputs then outputs[f] else None) {
      OutputsAt(s, st.mappings, projections, f);
      var e := LastNamed(projections, f);
      if e.Some? {
        LastNamedIsListed(projections, f);
        if e.value.Column? && e.value.source.Some? && e.value.source.value in s.creates {
          assert e.value.source.value in s.creates[n].tables;
          assert GoodStep(s, st, e.value.source.value);
        }
      }
      StepTraces(s, n, f, if f in outputs then outputs[f] else None);
    }
  }

  function PositionOf(s: Script, n: Name): nat {
    if n in s.position then s.position[n] else s.size
  }

  /** A walk adds only steps before its limit. */
  ghost predicate AddsBelow(s: Script, st: State, after: State, limit: nat) {
    forall n :: n in after.mappings && n !in st.mappings ==> PositionOf(s, n) < limit
  }

  /** A walk without warnings leaves correct mappings for everything it was asked about. */
  lemma {:induction false} AnalyzeKeeps(s: Script, q: Query, target: Option<Name>, limit: nat, st: State)
    requires ScriptInScope(s) && GoodState(s, st)
    requires target.Some? ==>
               target.value in s.creates && q == s.creates[target.value] && limit == PositionOf(s, target.value)
                   && target.value !in st.mappings
    requires ProgramLineage !in Analyze(s, q, target, limit, st).warnings
    ensures var after := Analyze(s, q, target, limit, st);
            && GoodState(s, after) && Grows(st, after) && q in after.structures && AddsBelow(s, st, after, limit + 1)
            && (target.Some? ==> target.value in after.mappings)
            && (forall t :: t in q.tables && t in s.creates ==> t in after.mappings)
    decreases limit, |q.tables| + 1
  {
    hide GoodState, IsOrigin, ColumnsInScope, OutputsOf, Own, Shape;
    var start := Warn(st, Shape(q));
    WarnKeeps(s, st, Shape(q));
    TablesWarn(s, q, |q.tables|, limit, start);
    TablesKeep(s, q, |q.tables|, limit, start);
    var walked := AnalyzeTables(s, q, |q.tables|, limit, start);
    var warned := Warn(walked, Own(q));
    WarnKeeps(s, walked, Own(q));
    assert q.tables[..|q.tables|] == q.tables;
    var outputs := OutputsOf(s, warned.mappings, q.projections);
    if target.Some? {
      OutputsAreOrigins(s, target.value, warned);
    }
    StepAdded(s, warned, q, target, outputs);
  }

  lemma StepAdded(s: Script, st: State, q: Query, target: Option<Name>, outputs: Outputs)
    requires GoodState(s, st) && forall t :: t in q.tables && t in s.creates ==> t in st.mappings
    requires target.Some? ==> target.value in s.creates && q == s.creates[target.value] && IsOrigin(s, target.value,
        outputs)
    ensures var mapped := if target.None? then st else st.(mappings := st.mappings[target.value := outputs]);
            GoodState(s, mapped.(structures := mapped.structures + [q]))
  {
    hide IsOrigin;
    var mapped := if target.None? then st else st.(mappings := st.mappings[target.value := outputs]);
    var after := mapped.(structures := mapped.structures + [q]);
    forall n | n in after.mappings ensures GoodStep(s, after, n) {
      if target.None? || n != target.value {
        assert GoodStep(s, st, n);
      }
    }
  }

  lemma WarnKeeps(s: Script, st: State, w: set<Warning>)
    requires GoodState(s, st)
    ensures GoodState(s, Warn(st, w)) && Grows(st, Warn(st, w))
  {
    hide IsOrigin;
    forall n | n in st.mappings ensures GoodStep(s, Warn(st, w), n) {
      assert GoodStep(s, st, n);
    }
  }

  lemma {:induction false} TablesWarn(s: Script, q: Query, k: nat, limit: nat, st: State)
    requires k <= |q.tables|
    ensures st.warnings <= AnalyzeTables(s, q, k, limit, st).warnings
    decreases limit, k
  {
    hide OutputsOf, Own, Shape;
    if k != 0 {
      TablesWarn(s, q, k - 1, limit, st);
      var before := AnalyzeTables(s, q, k - 1, limit, st);
      var source := q.tables[k - 1];
      if Walks(s, before, source, limit) {
        TablesWarn(s, s.creates[source], |s.creates[source].tables|, s.position[source],
                   Warn(before, Shape(s.creates[source])));
      }
    }
  }

  lemma {:induction false} TablesKeep(s: Script, q: Query, k: nat, limit: nat, st: State)
    requires ScriptInScope(s) && GoodState(s, st) && k <= |q.tables|
    requires ProgramLineage !in AnalyzeTables(s, q, k, limit, st).warnings
    ensures var after := AnalyzeTables(s, q, k, limit, st);
            && GoodState(s, after) && Grows(st, after) && AddsBelow(s, st, after, limit)
            && forall t :: t in q.tables[..k] && t in s.creates ==> t in after.mappings
    decreases limit, k
  {
    hide GoodState, IsOrigin, ColumnsInScope, OutputsOf, Analyze;
    if k != 0 {
      var before := AnalyzeTables(s, q, k - 1, limit, st);
      var source := q.tables[k - 1];
      assert q.tables[..k] == q.tables[..k - 1] + [source];
      if Walks(s, before, source, limit) {
        AnalyzeWarns(s, s.creates[source], Some(source), s.position[source], before);
        TablesKeep(s, q, k - 1, limit, st);
        AnalyzeKeeps(s, s.creates[source], Some(source), s.position[source], before);
        GrowsTransitive(st, before, Analyze(s, s.creates[source], Some(source), s.position[source], before));
      } else {
        TablesKeep(s, q, k - 1, limit, st);
      }
    }
  }

  lemma AnalyzeWarns(s: Script, q: Query, target: Option<Name>, limit: nat, st: State)
    ensures st.warnings <= Analyze(s, q, target, limit, st).warnings
  {
    TablesWarn(s, q, |q.tables|, limit, Warn(st, Shape(q)));
  }

  // ----- resolved columns are composed projections -----

  /** The column that an expression stands for: itself over stored tables, else its traced base column. */
  ghost predicate StandsFor(s: Script, e: Expr, base: Expr) {
    match e
    case Computed(_, head) => base == e && (head.Some? ==> head.value !in s.creates)
    case Column(source, field) =>
      if source.None? || source.value !in s.creates then base == e
      else
        && Traces(s, source.value, field, Some(base))
        && base.Column? && base.source.Some? && base.source.value !in s.creates
  }

  lemma {:induction false} OriginIsBase(s: Script, step: Name, f: FieldName, n: nat)
    requires Origin(s, step, f, n).Some?
    ensures var e := Origin(s, step, f, n).value; e.Column? && e.source.Some? && e.source.value !in s.creates
    decreases n
  {
    var e := LastNamed(s.creates[step].projections, f);
    if e.value.source.value in s.creates {
      OriginIsBase(s, e.value.source.value, e.value.field, n - 1);
    }
  }

  lemma MappedStandsFor(s: Script, st: State, e: Expr)
    requires GoodState(s, st) && Mapped(s, st, e).Some?
    ensures StandsFor(s, e, Mapped(s, st, e).value)
  {
    hide IsOrigin, Origin;
    if OverStep(s, e) {
      var step := e.source.value;
      assert GoodStep(s, st, step);
      TracedOutput(s, step, st.mappings[step], e.field);
      var n: nat :| Origin(s, step, e.field, n) == Mapped(s, st, e);
      OriginIsBase(s, step, e.field, n);
    }
  }

  lemma TracedOutput(s: Script, step: Name, outputs: Outputs, f: FieldName)
    requires IsOrigin(s, step, outputs) && f in outputs
    ensures Traces(s, step, f, outputs[f])
  {
    hide Traces;
    assert Traces(s, step, f, if f in outputs then outputs[f] else None);
  }

  /** Steps that the final query reaches through the tables it names. */
  ghost predicate ReachedIn(s: Script, n: Name, k: nat)
    decreases k
  {
    n in s.creates && (n in s.final.tables
                       || (k > 0 && exists m :: m in s.creates && n in s.creates[m].tables && ReachedIn(s, m, k - 1)))
  }

  lemma {:induction false} ReachedAreMapped(s: Script, st: State, n: Name, k: nat)
    requires GoodState(s, st) && (forall t :: t in s.final.tables && t in s.creates ==> t in st.mappings)
             && ReachedIn(s, n, k)
    ensures n in st.mappings && s.creates[n] in st.structures
    decreases k
  {
    hide IsOrigin;
    if n !in s.final.tables {
      var m :| m in s.creates && n in s.creates[m].tables && ReachedIn(s, m, k - 1);
      ReachedAreMapped(s, st, m, k - 1);
      assert GoodStep(s, st, m);
    }
    assert GoodStep(s, st, n);
  }

  ghost predicate Reported(s: Script, reported: set<Predicate>, p: Predicate) {
    exists b :: b in reported && b.rest == p.rest && StandsFor(s, p.expr, b.expr)
  }

  /** When no warning is raised, every projection of the final query and every filter of every reachable
      step is reported on the base column that composing the projections of the steps leads to. */
  lemma LineageIsComposition(s: Script)
    requires ScriptInScope(s) && ProgramLineage !in Extract(s).warnings
    ensures var r := Extract(s);
            && |r.projections| == |s.final.projections|
            && (forall i :: 0 <= i < |r.projections| ==> StandsFor(s, s.final.projections[i].expr, r.projections[i]))
            && (forall p :: p in s.final.predicates ==> Reported(s, r.predicates, p))
            && (forall n, k, p :: ReachedIn(s, n, k) && p in s.creates[n].predicates ==> Reported(s, r.predicates, p))
  {
    hide GoodState, Analyze, Mapped, StandsFor, OverStep, ColumnsInScope;
    var st := Walk(s);
    var r := Extract(s);
    NothingWalked(s);
    AnalyzeKeeps(s, s.final, None, s.size, START);
    forall i | 0 <= i < |r.projections| ensures StandsFor(s, s.final.projections[i].expr, r.projections[i]) {
      assert s.final.projections[i] in s.final.projections;
      MappedStandsFor(s, st, s.final.projections[i].expr);
    }
    forall q, p | q in st.structures && p in q.predicates
      ensures Reported(s, r.predicates, p) {
      FlatMapMember((q: Query) => q.predicates, st.structures, p);
      MappedStandsFor(s, st, p.expr);
      var b := p.(expr := Mapped(s, st, p.expr).value);
      assert b in r.predicates;
    }
    forall n, k | ReachedIn(s, n, k) ensures s.creates[n] in st.structures {
      ReachedAreMapped(s, st, n, k);
    }
  }

  lemma NothingWalked(s: Script)
    ensures GoodState(s, START)
  {
  }

  // ----- order of visits -----

  const EARLY := Query(true, true, {}, [1], [Projection(0, Column(Some(1), 0))], [], [])
  const LATE := Query(true, true, {}, [7], [Projection(0, Column(Some(7), 0))], [], [])

  /** Step 0 reads step 1, which is created after it; the final query names both in the given order. */
  function TwoSteps(tables: seq<Name>): Script {
    Script(map[0 := EARLY, 1 := LATE], map[0 := 0, 1 := 1], 2, Query(true, true, {}, tables, [], [], []), {})
  }

  lemma ForwardReadNoticed()
    ensures ProgramLineage in Extract(TwoSteps([0, 1])).warnings
  {
    var s := TwoSteps([0, 1]);
    assert Suspicious(s, START, 1, 0);
    assert AnalyzeTables(s, EARLY, 1, 0, START).warnings == {ProgramLineage};
    var first := Analyze(s, EARLY, Some(0), 0, START);
    assert ProgramLineage in first.warnings;
    assert AnalyzeTables(s, s.final, 1, 2, START) == first;
    OneMoreWarns(s, s.final, 1, 2, START);
  }

  lemma LateFirst() returns (first: State)
    ensures first == Analyze(TwoSteps([1, 0]), LATE, Some(1), 1, START)
    ensures first == State(map[1 := map[0 := Some(Column(Some(7), 0))]], {}, [LATE])
  {
    var s := TwoSteps([1, 0]);
    first := Analyze(s, LATE, Some(1), 1, START);
    assert LATE.projections[..0] == [];
    assert OutputsOf(s, map[], LATE.projections) == map[0 := Some(Column(Some(7), 0))];
    assert AnalyzeTables(s, LATE, 1, 1, START) == START;
  }

  lemma EarlyAfterLate(first: State) returns (second: State)
    requires first.warnings == {} && first.structures == [LATE] && 1 in first.mappings && 0 !in first.mappings
    ensures second == Analyze(TwoSteps([1, 0]), EARLY, Some(0), 0, first)
    ensures second.warnings == {} && second.structures == [LATE, EARLY]
  {
    hide OutputsOf;
    var s := TwoSteps([1, 0]);
    assert AnalyzeTables(s, EARLY, 1, 0, first) == first;
    second := Analyze(s, EARLY, Some(0), 0, first);
  }

  lemma ForwardReadMissed()
    ensures Extract(TwoSteps([1, 0])).warnings == {}
  {
    hide OutputsOf, Resolve, Origin;
    var s := TwoSteps([1, 0]);
    var first := LateFirst();
    var second := EarlyAfterLate(first);
    hide Analyze;
    assert AnalyzeTables(s, s.final, 1, 2, START) == first;
    assert AnalyzeTables(s, s.final, 2, 2, START) == second;
    WalkEnds(s, second);
    hide AnalyzeTables, Walk, Unresolved;
    NothingUnresolved(s, Walk(s));
  }

  lemma NothingUnresolved(s: Script, st: State)
    requires s.final.projections == [] && st.structures == [LATE, EARLY, s.final] && s == TwoSteps([1, 0])
    ensures !Unresolved(s, st)
  {
    NothingListed((q: Query) => q.predicates, st.structures);
    NothingListed((q: Query) => q.joins, st.structures);
  }

  lemma WalkEnds(s: Script, walked: State)
    requires s == TwoSteps([1, 0]) && AnalyzeTables(s, s.final, 2, 2, START) == walked
    ensures Walk(s) == walked.(structures := walked.structures + [s.final])
  {
    hide OutputsOf, AnalyzeTables;
    assert Warn(START, Shape(s.final)) == START;
    assert Warn(walked, Own(s.final)) == walked;
  }

  /** A step that reads a later step is noticed only if it is walked first: when the later step was walked
      before, the same steps raise no warning. */
  lemma ForwardReadDependsOnOrder()
    ensures ProgramLineage in Extract(TwoSteps([0, 1])).warnings && Extract(TwoSteps([1, 0])).warnings == {}
  {
    ForwardReadNoticed();
    ForwardReadMissed();
  }

  lemma {:induction false} NothingListed<A, B>(f: A -> seq<B>, xs: seq<A>)
    requires forall x :: x in xs ==> f(x) == []
    ensures FlatMap(f, xs) == []
  {
    if xs != [] {
      NothingListed(f, xs[1..]);
    }
  }

  lemma OneMoreWarns(s: Script, q: Query, k: nat, limit: nat, st: State)
    requires k < |q.tables|
    ensures AnalyzeTables(s, q, k, limit, st).warnings <= AnalyzeTables(s, q, k + 1, limit, st).warnings
  {
    var before := AnalyzeTables(s, q, k, limit, st);
    var source := q.tables[k];
    if Walks(s, before, source, limit) {
      AnalyzeWarns(s, s.creates[source], Some(source), s.position[source], before);
    }
  }

  // ----- exactly when reads out of order are reported -----

  /** Whether the walk steps into a table: a step before `limit` that is not finished yet. */
  predicate StepsInto(s: Script, done: seq<Name>, source: Name, limit: nat) {
    source in s.creates && source !in done && source in s.position && s.position[source] < limit
  }

  /** The steps in the order in which a depth-first pass over the table lists finishes them. */
  function VisitTables(s: Script, tables: seq<Name>, k: nat, limit: nat, done: seq<Name>): seq<Name>
    requires k <= |tables|
    decreases limit, k
  {
    if k == 0 then done
    else
      var before := VisitTables(s, tables, k - 1, limit, done);
      var source := tables[k - 1];
      if StepsInto(s, before, source, limit)
      then VisitTables(s, s.creates[source].tables, |s.creates[source].tables|, s.position[source], before) + [source]
      else before
  }

  /** The finishing order of the whole script. */
  function VisitOrder(s: Script): seq<Name> {
    VisitTables(s, s.final.tables, |s.final.tables|, s.size, [])
  }

  /** The reads that the walk of `n` reports as out of order: a named step is neither finished nor entered. */
  function ReportedTables(s: Script, n: Option<Name>, tables: seq<Name>, k: nat, limit: nat,
          done: seq<Name>): set<(Option<Name>, Name)>
    requires k <= |tables|
    decreases limit, k
  {
    if k == 0 then {}
    else
      var before := VisitTables(s, tables, k - 1, limit, done);
      var source := tables[k - 1];
      ReportedTables(s, n, tables, k - 1, limit, done)
      + if StepsInto(s, before, source, limit)
        then ReportedTables(s, Some(source), s.creates[source].tables, |s.creates[source].tables|, s.position[source],
                            before)
        else if source in s.creates && source !in before then {(n, source)} else {}
  }

  function ReportedReads(s: Script): set<(Option<Name>, Name)> {
    ReportedTables(s, None, s.final.tables, |s.final.tables|, s.size, [])
  }

  ghost predicate FinishedBefore(order: seq<Name>, m: Name, n: Name) {
    exists i, j :: 0 <= i < j < |order| && order[i] == m && order[j] == n
  }

  /** A visited step reads a step that is not finished before it. */
  ghost predicate LateRead(s: Script, order: seq<Name>, n: Name, m: Name) {
    n in order && n in s.creates && m in s.creates[n].tables && m in s.creates && !FinishedBefore(order, m, n)
  }

  /** What a pass over tables adds to the finishing order. */
  ghost predicate Extends(s: Script, done: seq<Name>, after: seq<Name>, limit: nat) {
    && done <= after && NoDup(after)
    && forall x :: x in after && x !in done ==> x in s.creates && x in s.position && s.position[x] < limit
  }

  lemma ExtendsStep(s: Script, done: seq<Name>, mid: seq<Name>, low: nat, after: seq<Name>, n: Name, limit: nat)
    requires Extends(s, done, mid, limit) && Extends(s, mid, after, low) && low <= limit && StepsInto(s, mid, n, limit)
             && s.position[n] == low
    ensures Extends(s, done, after + [n], limit) && n !in after
  {
    assert n !in after;
    NoDupSnoc(after, n);
  }

  lemma {:induction false} VisitExtends(s: Script, tables: seq<Name>, k: nat, limit: nat, done: seq<Name>)
    requires k <= |tables| && NoDup(done)
    ensures Extends(s, done, VisitTables(s, tables, k, limit, done), limit)
    decreases limit, k
  {
    if k != 0 {
      VisitExtends(s, tables, k - 1, limit, done);
      var before := VisitTables(s, tables, k - 1, limit, done);
      var source := tables[k - 1];
      if StepsInto(s, before, source, limit) {
        var inner := s.creates[source].tables;
        VisitExtends(s, inner, |inner|, s.position[source], before);
        ExtendsStep(s, done, before, s.position[source], VisitTables(s, inner, |inner|, s.position[source], before),
                    source, limit);
      }
    }
  }

  // Steps before the limit that a pass has met are finished after it.
  lemma {:induction false} NearStepsFinish(s: Script, tables: seq<Name>, k: nat, limit: nat, done: seq<Name>, m: Name)
    requires ValidScript(s) && NoDup(done) && k <= |tables| && m in tables[..k] && m in s.creates
             && s.position[m] < limit
    ensures m in VisitTables(s, tables, k, limit, done)
    decreases limit, k
  {
    VisitExtends(s, tables, k - 1, limit, done);
    var before := VisitTables(s, tables, k - 1, limit, done);
    var source := tables[k - 1];
    assert tables[..k] == tables[..k - 1] + [source];
    if m != source {
      NearStepsFinish(s, tables, k - 1, limit, done, m);
    }
    if StepsInto(s, before, source, limit) {
      VisitExtends(s, s.creates[source].tables, |s.creates[source].tables|, s.position[source], before);
    }
  }

  lemma BeforeInLonger(order: seq<Name>, longer: seq<Name>, m: Name, n: Name)
    requires order <= longer && NoDup(longer) && n in order
    ensures FinishedBefore(longer, m, n) <==> FinishedBefore(order, m, n)
  {
    var k :| 0 <= k < |order| && order[k] == n;
    assert longer[k] == n;
    if i, j :| 0 <= i < j < |longer| && longer[i] == m && longer[j] == n {
      assert j == k;
      assert order[i] == m && order[k] == n;
    }
    if i, j :| 0 <= i < j < |order| && order[i] == m && order[j] == n {
      assert longer[i] == m && longer[j] == n;
    }
  }

  lemma BeforeLast(order: seq<Name>, m: Name, n: Name)
    requires NoDup(order + [n])
    ensures FinishedBefore(order + [n], m, n) <==> m in order
  {
    var longer := order + [n];
    if i, j :| 0 <= i < j < |longer| && longer[i] == m && longer[j] == n {
      assert longer[|order|] == n;
      assert j == |order| && order[i] == m;
    }
    if m in order {
      var i :| 0 <= i < |order| && order[i] == m;
      assert longer[i] == m && longer[|order|] == n;
    }
  }

  lemma LateInLonger(s: Script, order: seq<Name>, longer: seq<Name>, n: Name, m: Name)
    requires order <= longer && NoDup(longer) && n in order
    ensures LateRead(s, longer, n, m) <==> LateRead(s, order, n, m)
  {
    BeforeInLonger(order, longer, m, n);
    var k :| 0 <= k < |order| && order[k] == n;
    assert longer[k] == n;
  }

  /** The reads reported by a pass: its owner's reads of steps that stay unfinished, and the late reads of the
      steps that it finishes. */
  ghost predicate ReportedHere(s: Script, n: Option<Name>, tables: seq<Name>, done: seq<Name>, after: seq<Name>,
          a: Option<Name>, b: Name) {
    || (a == n && b in tables && b in s.creates && b !in after)
    || (a.Some? && a.value in after && a.value !in done && LateRead(s, after, a.value, b))
  }

  lemma {:induction false} ReportedAre(s: Script, n: Option<Name>, tables: seq<Name>, k: nat, limit: nat,
          done: seq<Name>, a: Option<Name>, b: Name)
    requires ValidScript(s) && NoDup(done) && k <= |tables|
    ensures (a, b) in ReportedTables(s, n, tables, k, limit, done)
       <==> ReportedHere(s, n, tables[..k], done, VisitTables(s, tables, k, limit, done), a, b)
    decreases limit, k
  {
    hide LateRead, FinishedBefore, NoDup;
    if k != 0 {
      var before := VisitTables(s, tables, k - 1, limit, done);
      var source := tables[k - 1];
      assert tables[..k] == tables[..k - 1] + [source];
      VisitExtends(s, tables, k - 1, limit, done);
      ReportedAre(s, n, tables, k - 1, limit, done, a, b);
      if StepsInto(s, before, source, limit) {
        var inner, low := s.creates[source].tables, s.position[source];
        var mid := VisitTables(s, inner, |inner|, low, before);
        VisitExtends(s, inner, |inner|, low, before);
        ExtendsStep(s, done, before, low, mid, source, limit);
        ReportedAre(s, Some(source), inner, |inner|, low, before, a, b);
        assert inner[..|inner|] == inner;
        EnteredReports(s, source, before, mid, a, b);
        OwnerReports(s, n, tables, k, limit, done, a, b);
      }
    }
  }

  // What the step that was just finished adds.
  lemma EnteredReports(s: Script, source: Name, before: seq<Name>, mid: seq<Name>, a: Option<Name>, b: Name)
    requires source in s.creates && before <= mid && NoDup(mid + [source])
    ensures ReportedHere(s, Some(source), s.creates[source].tables, before, mid, a, b)
       <==> a.Some? && a.value in mid + [source] && a.value !in before && LateRead(s, mid + [source], a.value, b)
  {
    BeforeLast(mid, b, source);
    assert source !in mid by {
      forall i | 0 <= i < |mid| ensures mid[i] != source {
        assert (mid + [source])[i] != (mid + [source])[|mid|];
      }
    }
    if a.Some? && a.value in mid {
      LateInLonger(s, mid, mid + [source], a.value, b);
    }
  }

  // What was reported before stays reported: a step passed over is not entered later.
  lemma OwnerReports(s: Script, n: Option<Name>, tables: seq<Name>, k: nat, limit: nat, done: seq<Name>,
          a: Option<Name>, b: Name)
    requires ValidScript(s) && NoDup(done) && 0 < k <= |tables|
    requires StepsInto(s, VisitTables(s, tables, k - 1, limit, done), tables[k - 1], limit)
    ensures var before, after := VisitTables(s, tables, k - 1, limit, done), VisitTables(s, tables, k, limit, done);
            (ReportedHere(s, n, tables[..k], done, after, a, b)
             <==> ReportedHere(s, n, tables[..k - 1], done, before, a, b)
                  || (a.Some? && a.value in after && a.value !in before && LateRead(s, after, a.value, b)))
  {
    hide LateRead;
    var before, after := VisitTables(s, tables, k - 1, limit, done), VisitTables(s, tables, k, limit, done);
    var source := tables[k - 1];
    VisitExtends(s, tables, k - 1, limit, done);
    VisitExtends(s, tables, k, limit, done);
    VisitExtends(s, s.creates[source].tables, |s.creates[source].tables|, s.position[source], before);
    assert before <= after && source in after;
    assert tables[..k] == tables[..k - 1] + [source];
    if a.Some? && a.value in before {
      LateInLonger(s, before, after, a.value, b);
    }
    if b in tables[..k - 1] && b in s.creates && b !in before {
      if s.position[b] < limit {
        NearStepsFinish(s, tables, k - 1, limit, done, b);
      }
      assert b !in after;
    }
  }

  /** The reported reads are exactly the late ones: a visited step reads a step that does not come before it
      in the finishing order. */
  lemma ReportedExactly(s: Script, a: Option<Name>, b: Name)
    requires ValidScript(s)
    ensures (a, b) in ReportedReads(s) <==> a.Some? && LateRead(s, VisitOrder(s), a.value, b)
  {
    hide LateRead;
    var tables := s.final.tables;
    ReportedAre(s, None, tables, |tables|, s.size, [], a, b);
    assert tables[..|tables|] == tables;
    if b in tables && b in s.creates {
      NearStepsFinish(s, tables, |tables|, s.size, [], b);
    }
    if a.Some? && LateRead(s, VisitOrder(s), a.value, b) {
      LateIsVisited(s, VisitOrder(s), a.value, b);
    }
  }

  lemma LateIsVisited(s: Script, order: seq<Name>, n: Name, m: Name)
    requires LateRead(s, order, n, m)
    ensures n in order
  {
  }

  // ----- what the warning of a walk says -----

  /** A query that raises the program warning by itself: it is no SELECT, it is not parsed, its own analysis
      warns, or it names an unknown temporary table. */
  predicate RaisesAlone(s: Script, q: Query) {
    ProgramLineage in Shape(q) + Own(q) || NamesUnknown(s, q.tables)
  }

  predicate NamesUnknown(s: Script, tables: seq<Name>) {
    exists t :: t in tables && t !in s.creates && t in s.temporary
  }

  ghost predicate RaisedAmong(s: Script, done: seq<Name>, after: seq<Name>) {
    exists x :: x in after && x !in done && x in s.creates && RaisesAlone(s, s.creates[x])
  }

  ghost predicate SameFinished(st: State, done: seq<Name>) {
    forall x :: x in done <==> x in st.mappings
  }

  lemma {:induction false} WalkWarns(s: Script, q: Query, n: Option<Name>, k: nat, limit: nat, st: State,
          done: seq<Name>)
    requires ValidScript(s) && NoDup(done) && SameFinished(st, done) && k <= |q.tables|
    ensures var after := VisitTables(s, q.tables, k, limit, done);
            var walked := AnalyzeTables(s, q, k, limit, st);
            && SameFinished(walked, after)
            && (ProgramLineage in walked.warnings <==>
                  || ProgramLineage in st.warnings || ReportedTables(s, n, q.tables, k, limit, done) != {}
                  || NamesUnknown(s, q.tables[..k]) || RaisedAmong(s, done, after))
    decreases limit, k
  {
    hide OutputsOf, Own, Shape, NoDup, RaisesAlone;
    if k != 0 {
      WalkWarns(s, q, n, k - 1, limit, st, done);
      var before := VisitTables(s, q.tables, k - 1, limit, done);
      var walked := AnalyzeTables(s, q, k - 1, limit, st);
      var source := q.tables[k - 1];
      assert q.tables[..k] == q.tables[..k - 1] + [source];
      VisitExtends(s, q.tables, k - 1, limit, done);
      if StepsInto(s, before, source, limit) {
        StepWarns(s, source, walked, before);
        var inner, low := s.creates[source].tables, s.position[source];
        var mid := VisitTables(s, inner, |inner|, low, before);
        VisitExtends(s, inner, |inner|, low, before);
        RaisedStep(s, done, before, mid, source);
      }
    }
  }

  lemma RaisedStep(s: Script, done: seq<Name>, before: seq<Name>, mid: seq<Name>, source: Name)
    requires done <= before <= mid && source in s.creates && source !in before
    ensures RaisedAmong(s, done, mid + [source])
       <==> RaisedAmong(s, done, before) || RaisedAmong(s, before, mid) || RaisesAlone(s, s.creates[source])
  {
    hide RaisesAlone;
    if x :| x in mid + [source] && x !in done && x in s.creates && RaisesAlone(s, s.creates[x]) {
      assert x == source || x in mid;
    }
    if x :| x in before && x !in done && x in s.creates && RaisesAlone(s, s.creates[x]) {
      assert x in mid + [source];
    }
    if x :| x in mid && x !in before && x in s.creates && RaisesAlone(s, s.creates[x]) {
      assert x in mid + [source] && x !in done;
    }
    if RaisesAlone(s, s.creates[source]) {
      assert source in mid + [source] && source !in done;
    }
  }

  lemma {:induction false} StepWarns(s: Script, source: Name, st: State, done: seq<Name>)
    requires ValidScript(s) && NoDup(done) && SameFinished(st, done) && source in s.creates
    ensures var inner, low := s.creates[source].tables, s.position[source];
            var mid := VisitTables(s, inner, |inner|, low, done);
            var walked := Analyze(s, s.creates[source], Some(source), low, st);
            && SameFinished(walked, mid + [source])
            && (ProgramLineage in walked.warnings <==>
                  || ProgramLineage in st.warnings || ReportedTables(s, Some(source), inner, |inner|, low, done) != {}
                  || RaisedAmong(s, done, mid) || RaisesAlone(s, s.creates[source]))
    decreases s.position[source], |s.creates[source].tables| + 1
  {
    hide OutputsOf, Own, Shape, NoDup, ReportedTables, VisitTables, RaisedAmong, NamesUnknown;
    var q, low := s.creates[source], s.position[source];
    var start := Warn(st, Shape(q));
    WalkWarns(s, q, Some(source), |q.tables|, low, start, done);
    assert q.tables[..|q.tables|] == q.tables;
  }

  /** The final query, or a query of a visited step, raises the warning by itself. */
  ghost predicate RaisedOtherwise(s: Script) {
    RaisesAlone(s, s.final) || exists n :: n in VisitOrder(s) && n in s.creates && RaisesAlone(s, s.creates[n])
  }

  /** The walk warns exactly when a visited step reads a step that does not come before it in the finishing
      order, or when some query raises the warning by itself. */
  lemma OrderWarningExactly(s: Script)
    requires ValidScript(s)
    ensures ProgramLineage in Walk(s).warnings
       <==> (exists n: Name, m: Name :: LateRead(s, VisitOrder(s), n, m)) || RaisedOtherwise(s)
  {
    hide LateRead, Own, Shape, ReportedTables, VisitTables;
    var q := s.final;
    WalkWarns(s, q, None, |q.tables|, s.size, Warn(START, Shape(q)), []);
    assert q.tables[..|q.tables|] == q.tables;
    forall n: Name, m: Name ensures (Some(n), m) in ReportedReads(s) <==> LateRead(s, VisitOrder(s), n, m) {
      ReportedExactly(s, Some(n), m);
    }
    if ReportedReads(s) != {} {
      var r :| r in ReportedReads(s);
      ReportedExactly(s, r.0, r.1);
      assert LateRead(s, VisitOrder(s), r.0.value, r.1);
    }
    if n: Name, m: Name :| LateRead(s, VisitOrder(s), n, m) {
      assert (Some(n), m) in ReportedReads(s);
    }
  }

  // ----- late reads on the script -----

  /** What is finished when the pass enters step `n`, if it does. */
  function FinishedAtStart(s: Script, tables: seq<Name>, k: nat, limit: nat, done: seq<Name>,
          n: Name): Option<seq<Name>>
    requires k <= |tables|
    decreases limit, k
  {
    if k == 0 then None
    else
      var earlier := FinishedAtStart(s, tables, k - 1, limit, done, n);
      var before := VisitTables(s, tables, k - 1, limit, done);
      var source := tables[k - 1];
      if earlier.Some? || !StepsInto(s, before, source, limit) then earlier
      else if source == n then Some(before)
      else FinishedAtStart(s, s.creates[source].tables, |s.creates[source].tables|, s.position[source], before, n)
  }

  function StartOf(s: Script, n: Name): Option<seq<Name>> {
    FinishedAtStart(s, s.final.tables, |s.final.tables|, s.size, [], n)
  }

  /** Step `n` was entered with `start` finished: what its own walk adds lies before its position. */
  ghost predicate EnteredWith(s: Script, after: seq<Name>, n: Name, start: seq<Name>) {
    && n in s.creates && n in s.position && n !in start
    && exists mid :: Extends(s, start, mid, s.position[n]) && mid + [n] <= after
  }

  lemma {:induction false} StartsKnown(s: Script, tables: seq<Name>, k: nat, limit: nat, done: seq<Name>, n: Name)
    requires NoDup(done) && k <= |tables|
    ensures var after, start := VisitTables(s, tables, k, limit, done), FinishedAtStart(s, tables, k, limit, done, n);
            && (n in after && n !in done ==> start.Some?)
            && (start.Some? ==> EnteredWith(s, after, n, start.value))
    decreases limit, k
  {
    hide NoDup;
    if k != 0 {
      var before := VisitTables(s, tables, k - 1, limit, done);
      var earlier := FinishedAtStart(s, tables, k - 1, limit, done, n);
      var source := tables[k - 1];
      StartsKnown(s, tables, k - 1, limit, done, n);
      VisitExtends(s, tables, k - 1, limit, done);
      if StepsInto(s, before, source, limit) {
        var inner, low := s.creates[source].tables, s.position[source];
        var mid := VisitTables(s, inner, |inner|, low, before);
        VisitExtends(s, inner, |inner|, low, before);
        StartsKnown(s, inner, |inner|, low, before, n);
        if earlier.Some? {
          EnteredInLonger(s, before, mid + [source], n, earlier.value);
        } else if source == n {
          assert mid + [n] <= mid + [source];
        } else {
          var start := FinishedAtStart(s, inner, |inner|, low, before, n);
          if start.Some? {
            EnteredInLonger(s, mid, mid + [source], n, start.value);
          }
        }
      }
    }
  }

  lemma EnteredInLonger(s: Script, after: seq<Name>, longer: seq<Name>, n: Name, start: seq<Name>)
    requires EnteredWith(s, after, n, start) && after <= longer
    ensures EnteredWith(s, longer, n, start)
  {
    var mid :| Extends(s, start, mid, s.position[n]) && mid + [n] <= after;
    assert mid + [n] <= longer;
  }

  /** A read of a visited step is late exactly when it names a step that is created no earlier and is not
      finished when the reading step is entered. */
  lemma LateReadExactly(s: Script, n: Name, m: Name)
    requires ValidScript(s) && n in VisitOrder(s) && n in s.creates && m in s.creates[n].tables && m in s.creates
    ensures StartOf(s, n).Some?
    ensures LateRead(s, VisitOrder(s), n, m) <==> s.position[m] >= s.position[n] && m !in StartOf(s, n).value
  {
    var order := VisitOrder(s);
    StartsKnown(s, s.final.tables, |s.final.tables|, s.size, [], n);
    VisitExtends(s, s.final.tables, |s.final.tables|, s.size, []);
    var start := StartOf(s, n).value;
    var mid :| Extends(s, start, mid, s.position[n]) && mid + [n] <= order;
    BeforeInPrefix(order, mid, m, n);
    if s.position[m] < s.position[n] && m !in mid {
      EarlierIsFinished(s, n, m);
      assert false;
    }
  }

  lemma BeforeInPrefix(order: seq<Name>, mid: seq<Name>, m: Name, n: Name)
    requires mid + [n] <= order && NoDup(order)
    ensures FinishedBefore(order, m, n) <==> m in mid
  {
    var part := mid + [n];
    assert forall i :: 0 <= i < |part| ==> part[i] == order[i];
    assert part[|mid|] == n;
    assert n in part;
    BeforeInLonger(part, order, m, n);
    BeforeLast(mid, m, n);
  }

  /** A read of an earlier step is never late. */
  lemma EarlierIsFinished(s: Script, n: Name, m: Name)
    requires ValidScript(s) && n in VisitOrder(s) && n in s.creates && m in s.creates[n].tables && m in s.creates
    requires s.position[m] < s.position[n]
    ensures FinishedBefore(VisitOrder(s), m, n)
  {
    EarlierReadsFinish(s, s.final.tables, |s.final.tables|, s.size, [], n, m);
  }

  lemma VisitIsPrefix(s: Script, tables: seq<Name>, k: nat, limit: nat, done: seq<Name>)
    requires NoDup(done) && 0 < k <= |tables|
    ensures VisitTables(s, tables, k - 1, limit, done) <= VisitTables(s, tables, k, limit, done)
  {
    var before := VisitTables(s, tables, k - 1, limit, done);
    var source := tables[k - 1];
    VisitExtends(s, tables, k - 1, limit, done);
    if StepsInto(s, before, source, limit) {
      VisitExtends(s, s.creates[source].tables, |s.creates[source].tables|, s.position[source], before);
    }
  }

  lemma {:induction false} EarlierReadsFinish(s: Script, tables: seq<Name>, k: nat, limit: nat, done: seq<Name>,
          n: Name, m: Name)
    requires ValidScript(s) && NoDup(done) && k <= |tables|
    requires n in VisitTables(s, tables, k, limit, done) && n !in done
    requires n in s.creates && m in s.creates[n].tables && m in s.creates && s.position[m] < s.position[n]
    ensures FinishedBefore(VisitTables(s, tables, k, limit, done), m, n)
    decreases limit, k
  {
    hide NoDup, FinishedBefore;
    VisitExtends(s, tables, k - 1, limit, done);
    VisitExtends(s, tables, k, limit, done);
    var before := VisitTables(s, tables, k - 1, limit, done);
    var source := tables[k - 1];
    if n in before {
      EarlierReadsFinish(s, tables, k - 1, limit, done, n, m);
      VisitIsPrefix(s, tables, k, limit, done);
      BeforeInLonger(before, VisitTables(s, tables, k, limit, done), m, n);
    } else {
      var inner, low := s.creates[source].tables, s.position[source];
      var mid := VisitTables(s, inner, |inner|, low, before);
      VisitExtends(s, inner, |inner|, low, before);
      if n == source {
        assert inner[..|inner|] == inner;
        NearStepsFinish(s, inner, |inner|, low, before, m);
        BeforeLast(mid, m, n);
      } else {
        EarlierReadsFinish(s, inner, |inner|, low, before, n, m);
        BeforeInLonger(mid, mid + [source], m, n);
      }
    }
  }

  // ----- cycles are always reported -----

  lemma SelfReadIsLate(s: Script, n: Name)
    requires ValidScript(s) && n in VisitOrder(s) && n in s.creates && n in s.creates[n].tables
    ensures LateRead(s, VisitOrder(s), n, n)
  {
    VisitExtends(s, s.final.tables, |s.final.tables|, s.size, []);
  }

  /** Each step of the list reads the next one, and the last one is the first again. */
  ghost predicate IsReadCycle(s: Script, cycle: seq<Name>) {
    && |cycle| >= 2 && cycle[|cycle| - 1] == cycle[0] && (forall n :: n in cycle ==> n in s.creates)
    && forall i :: 0 <= i < |cycle| - 1 ==> cycle[i + 1] in s.creates[cycle[i]].tables
  }

  /** A cycle of reads through a visited step always holds a late read, so it is always reported; a walk
      without order warnings shows that the reads among the visited steps have no cycle. */
  lemma CycleHasLateRead(s: Script, cycle: seq<Name>)
    requires ValidScript(s) && IsReadCycle(s, cycle) && cycle[0] in VisitOrder(s)
    ensures exists i :: 0 <= i < |cycle| - 1 && LateRead(s, VisitOrder(s), cycle[i], cycle[i + 1])
  {
    var order := VisitOrder(s);
    VisitExtends(s, s.final.tables, |s.final.tables|, s.size, []);
    if forall i :: 0 <= i < |cycle| - 1 ==> !LateRead(s, order, cycle[i], cycle[i + 1]) {
      var start: nat :| start < |order| && order[start] == cycle[0];
      var at: nat := start;
      for i := 0 to |cycle| - 1
        invariant at <= start < |order| && order[at] == cycle[i] && (i > 0 ==> at < start)
      {
        assert !LateRead(s, order, cycle[i], cycle[i + 1]);
        assert cycle[i] in cycle && cycle[i + 1] in cycle && cycle[i] in order;
        assert FinishedBefore(order, cycle[i + 1], cycle[i]);
        var x: nat, y: nat :| x < y < |order| && order[x] == cycle[i + 1] && order[y] == cycle[i];
        assert y == at;
        at := x;
      }
      assert false;
    }
  }

  // ----- steps that nothing reaches -----

  /** A set of names that holds the final query's tables and, for each of its steps, that step's tables. */
  ghost predicate ClosedNames(s: Script, names: set<Name>) {
    && (forall t :: t in s.final.tables ==> t in names)
    && (forall n, t :: n in names && n in s.creates && t in s.creates[n].tables ==> t in names)
  }

  /** The script without one step; the others keep their relative order. */
  ghost predicate WithoutStep(s: Script, small: Script, gone: Name) {
    && small.creates == s.creates - {gone} && small.final == s.final && small.temporary == s.temporary
    && (forall n :: n in small.creates ==>
          n in s.position && n in small.position && s.position[n] < s.size && small.position[n] < small.size)
    && (forall n, m :: n in small.creates && m in small.creates ==> (s.position[n] < s.position[m] <==>
                                                                     small.position[n] < small.position[m]))
  }

  // The limits of one walk in both scripts: the same step's position, or the number of steps.
  ghost predicate SameLimit(s: Script, small: Script, limit: nat, limit': nat) {
    forall n :: n in small.creates && n in s.position && n in small.position ==> (s.position[n] < limit <==>
                                                                                  small.position[n] < limit')
  }

  lemma {:induction false} OutputsSame(s: Script, small: Script, gone: Name, mappings: map<Name, Outputs>,
          projections: seq<Projection>)
    requires WithoutStep(s, small, gone)
    requires forall p :: p in projections ==> p.expr.Column? ==> p.expr.source != Some(gone)
    ensures OutputsOf(small, mappings, projections) == OutputsOf(s, mappings, projections)
  {
    if projections != [] {
      var n := |projections| - 1;
      assert projections == projections[..n] + [projections[n]];
      OutputsSame(s, small, gone, mappings, projections[..n]);
      assert projections[n] in projections;
    }
  }

  lemma {:induction false} AnalyzeSame(s: Script, small: Script, gone: Name, names: set<Name>, q: Query,
          target: Option<Name>,
                                       limit: nat, limit': nat, st: State)
    requires WithoutStep(s, small, gone) && ClosedNames(s, names) && gone !in names
             && SameLimit(s, small, limit, limit')
    requires ColumnsInScope(q) && (forall t :: t in q.tables ==> t in names)
             && (forall n :: n in s.creates ==> ColumnsInScope(s.creates[n]))
    ensures Analyze(small, q, target, limit', st) == Analyze(s, q, target, limit, st)
    decreases limit, |q.tables| + 1
  {
    hide OutputsOf, Own, Shape, ClosedNames, WithoutStep;
    TablesSame(s, small, gone, names, q, |q.tables|, limit, limit', Warn(st, Shape(q)));
    var warned := Warn(AnalyzeTables(s, q, |q.tables|, limit, Warn(st, Shape(q))), Own(q));
    forall p | p in q.projections && p.expr.Column? ensures p.expr.source != Some(gone) {
      assert p.expr.source.Some? ==> p.expr.source.value in q.tables;
    }
    OutputsSame(s, small, gone, warned.mappings, q.projections);
  }

  lemma {:induction false} TablesSame(s: Script, small: Script, gone: Name, names: set<Name>, q: Query, k: nat,
          limit: nat, limit': nat, st: State)
    requires WithoutStep(s, small, gone) && ClosedNames(s, names) && gone !in names
             && SameLimit(s, small, limit, limit') && k <= |q.tables|
    requires ColumnsInScope(q) && (forall t :: t in q.tables ==> t in names)
             && (forall n :: n in s.creates ==> ColumnsInScope(s.creates[n]))
    ensures AnalyzeTables(small, q, k, limit', st) == AnalyzeTables(s, q, k, limit, st)
    decreases limit, k
  {
    hide Analyze, ColumnsInScope;
    if k != 0 {
      TablesSame(s, small, gone, names, q, k - 1, limit, limit', st);
      var before := AnalyzeTables(s, q, k - 1, limit, st);
      var source := q.tables[k - 1];
      assert source in q.tables && source != gone;
      assert source in s.creates <==> source in small.creates;
      assert Walks(s, before, source, limit) == Walks(small, before, source, limit');
      if Walks(s, before, source, limit) {
        AnalyzeSame(s, small, gone, names, s.creates[source], Some(source), s.position[source], small.position[source],
                    before);
      }
    }
  }

  // Every walked structure is over closed names.
  lemma {:induction false} StructuresClosed(s: Script, names: set<Name>, q: Query, target: Option<Name>, limit: nat,
          st: State)
    requires ClosedNames(s, names) && (forall t :: t in q.tables ==> t in names)
             && (forall n :: n in s.creates ==> ColumnsInScope(s.creates[n])) && ColumnsInScope(q)
    requires forall r :: r in st.structures ==> ColumnsInScope(r) && forall t :: t in r.tables ==> t in names
    ensures forall r :: r in Analyze(s, q, target, limit, st).structures ==>
              ColumnsInScope(r) && forall t :: t in r.tables ==> t in names
    decreases limit, |q.tables| + 1
  {
    hide OutputsOf, Own, Shape, ColumnsInScope;
    TablesClosed(s, names, q, |q.tables|, limit, Warn(st, Shape(q)));
  }

  lemma {:induction false} TablesClosed(s: Script, names: set<Name>, q: Query, k: nat, limit: nat, st: State)
    requires ClosedNames(s, names) && (forall t :: t in q.tables ==> t in names)
             && (forall n :: n in s.creates ==> ColumnsInScope(s.creates[n]))
    requires k <= |q.tables| && forall r ::
             r in st.structures ==> ColumnsInScope(r) && forall t :: t in r.tables ==> t in names
    ensures forall r :: r in AnalyzeTables(s, q, k, limit, st).structures ==>
              ColumnsInScope(r) && forall t :: t in r.tables ==> t in names
    decreases limit, k
  {
    hide Analyze, ColumnsInScope;
    if k != 0 {
      TablesClosed(s, names, q, k - 1, limit, st);
      var before := AnalyzeTables(s, q, k - 1, limit, st);
      var source := q.tables[k - 1];
      if Walks(s, before, source, limit) {
        StructuresClosed(s, names, s.creates[source], Some(source), s.position[source], before);
      }
    }
  }

  /** Filters, joins and heads of opaque text name only tables of their own query. */
  ghost predicate TextInScope(q: Query) {
    && (forall p :: p in q.predicates && p.expr.Computed? && p.expr.head.Some? ==> p.expr.head.value in q.tables)
    && (forall p :: p in q.projections && p.expr.Computed? && p.expr.head.Some? ==> p.expr.head.value in q.tables)
    && (forall j :: j in q.joins ==> j.left in q.tables && j.right in q.tables)
  }

  lemma SameMapped(s: Script, small: Script, gone: Name, st: State, e: Expr)
    requires WithoutStep(s, small, gone)
    requires e.Column? && e.source.Some? ==> e.source.value != gone
    requires e.Computed? && e.head.Some? ==> e.head.value != gone
    ensures Mapped(small, st, e) == Mapped(s, st, e)
  {
  }

  /** Deleting a CTAS step that the final query does not reach changes nothing in the extracted structure. */
  lemma UnreachedStepIsIrrelevant(s: Script, small: Script, gone: Name, names: set<Name>)
    requires WithoutStep(s, small, gone) && ClosedNames(s, names) && gone !in names && ScriptInScope(s)
    requires TextInScope(s.final) && forall n :: n in s.creates ==> TextInScope(s.creates[n])
    ensures Extract(small) == Extract(s)
  {
    hide Analyze, ColumnsInScope, Mapped, TextInScope;
    AnalyzeSame(s, small, gone, names, s.final, None, s.size, small.size, START);
    var st := Walk(s);
    assert Walk(small) == st;
    StructuresInText(s, names, s.final, None, s.size, START);
    StructuresClosed(s, names, s.final, None, s.size, START);
    forall p | p in s.final.projections ensures Mapped(small, st, p.expr) == Mapped(s, st, p.expr) {
      ProjectionAvoids(s.final, p, names, gone);
      SameMapped(s, small, gone, st, p.expr);
    }
    forall p | p in AllPredicates(st.structures) ensures Mapped(small, st, p.expr) == Mapped(s, st, p.expr) {
      FlatMapMember((q: Query) => q.predicates, st.structures, p);
      var q :| q in st.structures && p in q.predicates;
      PredicateAvoids(q, p, names, gone);
      SameMapped(s, small, gone, st, p.expr);
    }
    forall j | j in AllJoins(st.structures) ensures JoinOverStep(small, j) == JoinOverStep(s, j) {
      FlatMapMember((q: Query) => q.joins, st.structures, j);
      var q :| q in st.structures && j in q.joins;
      JoinAvoids(q, j, names, gone);
    }
    SamePieces(s, small, st, gone, names);
  }

  lemma ProjectionAvoids(q: Query, p: Projection, names: set<Name>, gone: Name)
    requires ColumnsInScope(q) && TextInScope(q) && p in q.projections && (forall t :: t in q.tables ==> t in names)
             && gone !in names
    ensures p.expr.Column? && p.expr.source.Some? ==> p.expr.source.value != gone
    ensures p.expr.Computed? && p.expr.head.Some? ==> p.expr.head.value != gone
  {
  }

  lemma PredicateAvoids(q: Query, p: Predicate, names: set<Name>, gone: Name)
    requires ColumnsInScope(q) && TextInScope(q) && p in q.predicates && (forall t :: t in q.tables ==> t in names)
             && gone !in names
    ensures p.expr.Column? && p.expr.source.Some? ==> p.expr.source.value != gone
    ensures p.expr.Computed? && p.expr.head.Some? ==> p.expr.head.value != gone
  {
  }

  lemma JoinAvoids(q: Query, j: JoinSignature, names: set<Name>, gone: Name)
    requires TextInScope(q) && j in q.joins && (forall t :: t in q.tables ==> t in names) && gone !in names
    ensures j.left != gone && j.right != gone
  {
  }

  lemma {:induction false} StructuresInText(s: Script, names: set<Name>, q: Query, target: Option<Name>, limit: nat,
          st: State)
    requires TextInScope(q) && forall n :: n in s.creates ==> TextInScope(s.creates[n])
    requires forall r :: r in st.structures ==> TextInScope(r)
    ensures forall r :: r in Analyze(s, q, target, limit, st).structures ==> TextInScope(r)
    decreases limit, |q.tables| + 1
  {
    hide OutputsOf, Own, Shape, TextInScope;
    TablesInText(s, names, q, |q.tables|, limit, Warn(st, Shape(q)));
  }

  lemma {:induction false} TablesInText(s: Script, names: set<Name>, q: Query, k: nat, limit: nat, st: State)
    requires k <= |q.tables| && forall n :: n in s.creates ==> TextInScope(s.creates[n])
    requires forall r :: r in st.structures ==> TextInScope(r)
    ensures forall r :: r in AnalyzeTables(s, q, k, limit, st).structures ==> TextInScope(r)
    decreases limit, k
  {
    hide Analyze, TextInScope;
    if k != 0 {
      TablesInText(s, names, q, k - 1, limit, st);
      var before := AnalyzeTables(s, q, k - 1, limit, st);
      var source := q.tables[k - 1];
      if Walks(s, before, source, limit) {
        StructuresInText(s, names, s.creates[source], Some(source), s.position[source], before);
      }
    }
  }

  lemma SamePieces(s: Script, small: Script, st: State, gone: Name, names: set<Name>)
    requires WithoutStep(s, small, gone) && gone !in names && Walk(s) == st && Walk(small) == st
    requires forall r, t :: r in st.structures && t in r.tables ==> t in names
    requires forall p :: p in s.final.projections ==> Mapped(small, st, p.expr) == Mapped(s, st, p.expr)
    requires forall p :: p in AllPredicates(st.structures) ==> Mapped(small, st, p.expr) == Mapped(s, st, p.expr)
    requires forall j :: j in AllJoins(st.structures) ==> JoinOverStep(small, j) == JoinOverStep(s, j)
    ensures Extract(small) == Extract(s)
  {
    hide Walk, Mapped, AllPredicates, AllJoins, JoinOverStep;
    assert FinalProjections(small, st) == FinalProjections(s, st);
    assert MappedPredicates(small, st) == MappedPredicates(s, st);
    assert PlainJoins(small, st) == PlainJoins(s, st);
    forall q, t | q in st.structures && t in q.tables ensures t in small.creates <==> t in s.creates {
      assert t in names;
    }
    assert BaseTables(small, st) == BaseTables(s, st);
    assert Unresolved(small, st) == Unresolved(s, st);
  }

  // ----- the walk as it runs -----

  /** The mutable tables of the walk; `active` holds the steps whose queries are being walked. */
  class LineageWalk {
    var mappings: map<Name, Outputs>
    var reached: set<Name>
    var active: set<Name>
    var warnings: set<Warning>
    var structures: seq<Query>

    ghost function Abs(): State
      reads this
    {
      State(mappings, warnings, structures)
    }

    /** Reached steps are the mapped ones; every active step lies at the limit of the current walk or later. */
    ghost predicate Valid(s: Script, limit: nat)
      reads this
    {
      reached == mappings.Keys && forall n :: n in active ==> PositionOf(s, n) >= limit
    }

    constructor ()
      ensures Abs() == START && reached == {} && active == {}
    {
      mappings, reached, active, warnings, structures := map[], {}, {}, {}, [];
    }

    /** `analyze`: the test for active steps never decides anything that positions do not decide. */
    method AnalyzeQuery(s: Script, q: Query, target: Option<Name>, limit: nat)
      requires ValidScript(s) && limit <= s.size
      requires target.Some? ==>
                target.value in s.creates && limit == s.position[target.value] && q == s.creates[target.value]
      requires target.None? ==> limit == s.size
      requires Valid(s, limit + 1) || (target.None? && reached == mappings.Keys && active == {})
      modifies this
      ensures Abs() == Analyze(s, q, target, limit, old(Abs()))
      ensures reached == mappings.Keys && active == old(active) - (if target.Some? then {target.value} else {})
      decreases limit, 1
    {
      hide OutputsOf, AnalyzeTables;
      ghost var st := Abs();
      if target.Some? {
        active := active + {target.value};
      }
      if !q.isSelect {
        warnings := warnings + {ProgramLineage};
      }
      assert Abs() == Warn(st, Shape(q));
      VisitTables(s, q, target, limit);
      ghost var walked := Abs();
      if !q.parsed {
        warnings := warnings + {ProgramLineage};
      }
      warnings := warnings + q.own;
      assert Abs() == Warn(walked, Own(q));
      if target.Some? {
        mappings := mappings[target.value := OutputsOf(s, mappings, q.projections)];
        reached := reached + {target.value};
        active := active - {target.value};
      }
      structures := structures + [q];
    }

    /** The loop of `analyze` over the tables of one query. */
    method VisitTables(s: Script, q: Query, target: Option<Name>, limit: nat)
      requires ValidScript(s) && limit <= s.size && Valid(s, limit)
      requires if target.Some? then target.value in s.creates && limit == s.position[target.value]
               && target.value in active
               else limit == s.size
      modifies this
      ensures Abs() == AnalyzeTables(s, q, |q.tables|, limit, old(Abs()))
      ensures Valid(s, limit) && active == old(active)
      decreases limit, 0
    {
      hide Analyze;
      ghost var start, open := Abs(), active;
      for k := 0 to |q.tables|
        invariant active == open && Valid(s, limit)
        invariant Abs() == AnalyzeTables(s, q, k, limit, start)
      {
        var source := q.tables[k];
        if source in s.creates && source !in reached {
          if source in active || (target.Some? && s.position[source] >= s.position[target.value]) {
            warnings := warnings + {ProgramLineage};
          } else {
            AnalyzeQuery(s, s.creates[source], Some(source), s.position[source]);
          }
        } else if source in s.temporary && source !in s.creates {
          warnings := warnings + {ProgramLineage};
        }
      }
    }
  }
}
