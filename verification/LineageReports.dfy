/** Which tables, joins and filters the extracted structure reports: those of the final query and of the steps that
    it reaches, and no others. For `extract_evaluable_structure` of evaluation/sql_structure.py. */
module LineageReports {
  import opened SeqOps
  import opened ColumnLineage

  ghost predicate Reached(s: Script, n: Name) {
    exists k: nat :: ReachedIn(s, n, k)
  }

  /** The final query, or the query of a step that it reaches. */
  ghost predicate IsRead(s: Script, q: Query) {
    q == s.final || exists n :: Reached(s, n) && q == s.creates[n]
  }

  ghost predicate TablesReached(s: Script, q: Query) {
    forall t :: t in q.tables && t in s.creates ==> Reached(s, t)
  }

  lemma FinalReaches(s: Script)
    ensures TablesReached(s, s.final)
  {
    forall t | t in s.final.tables && t in s.creates ensures Reached(s, t) {
      assert ReachedIn(s, t, 0);
    }
  }

  lemma StepReaches(s: Script, n: Name)
    requires Reached(s, n)
    ensures n in s.creates && TablesReached(s, s.creates[n])
  {
    var k: nat :| ReachedIn(s, n, k);
    forall t | t in s.creates[n].tables && t in s.creates ensures Reached(s, t) {
      assert ReachedIn(s, t, k + 1);
    }
  }

  // ----- nothing else is visited -----

  ghost predicate OnlyRead(s: Script, st: State) {
    forall q :: q in st.structures ==> IsRead(s, q)
  }

  lemma {:induction false} TablesRead(s: Script, q: Query, k: nat, limit: nat, st: State)
    requires k <= |q.tables| && TablesReached(s, q) && OnlyRead(s, st)
    ensures OnlyRead(s, AnalyzeTables(s, q, k, limit, st))
    decreases limit, k
  {
    hide IsRead, Own, Shape, OutputsOf, TablesReached, Reached;
    if k != 0 {
      TablesRead(s, q, k - 1, limit, st);
      var before := AnalyzeTables(s, q, k - 1, limit, st);
      var source := q.tables[k - 1];
      if Walks(s, before, source, limit) {
        NamedIsReached(s, q, source);
        StepReaches(s, source);
        QueryReads(s, s.creates[source], Some(source), s.position[source], before);
      }
    }
  }

  lemma NamedIsReached(s: Script, q: Query, t: Name)
    requires TablesReached(s, q) && t in q.tables && t in s.creates
    ensures Reached(s, t) && IsRead(s, s.creates[t])
  {
  }

  lemma {:induction false} QueryReads(s: Script, q: Query, target: Option<Name>, limit: nat, st: State)
    requires TablesReached(s, q) && IsRead(s, q) && OnlyRead(s, st)
    ensures OnlyRead(s, Analyze(s, q, target, limit, st))
    decreases limit, |q.tables| + 1
  {
    hide IsRead, Own, Shape, OutputsOf, TablesReached, AnalyzeTables;
    TablesRead(s, q, |q.tables|, limit, Warn(st, Shape(q)));
  }

  /** Without a lineage warning the walk visits exactly the final query and the queries of reached steps. */
  lemma VisitedExactly(s: Script, q: Query)
    requires ScriptInScope(s) && ProgramLineage !in Walk(s).warnings
    ensures q in Walk(s).structures <==> IsRead(s, q)
  {
    hide GoodState, Analyze, Mapped, OverStep, ColumnsInScope, TablesReached;
    NothingWalked(s);
    AnalyzeKeeps(s, s.final, None, s.size, START);
    FinalReaches(s);
    QueryReads(s, s.final, None, s.size, START);
    if n :| Reached(s, n) && q == s.creates[n] {
      var k: nat :| ReachedIn(s, n, k);
      ReachedAreMapped(s, Walk(s), n, k);
    }
  }

  // ----- what is reported -----

  /** Without a lineage warning the extraction reports exactly the stored tables and the joins of the final query and of
      the steps that it reaches, and no filter that is not one of theirs, on the base column that it stands for. */
  lemma ReportsExactly(s: Script)
    requires ScriptInScope(s) && ProgramLineage !in Extract(s).warnings
    ensures var r := Extract(s);
            && (forall t :: t in r.tables <==> t !in s.creates && exists q :: IsRead(s, q) && t in q.tables)
            && (forall j :: j in r.joins <==> exists q :: IsRead(s, q) && j in q.joins)
            && (forall j :: j in r.joins ==> j.left !in s.creates && j.right !in s.creates)
            && (forall b :: b in r.predicates <==>
                  exists q, p :: IsRead(s, q) && p in q.predicates && b.rest == p.rest && StandsFor(s, p.expr, b.expr))
  {
    hide GoodState, Walk, IsRead, ScriptInScope, Mapped, StandsFor, Unresolved;
    var st, r := Walk(s), Extract(s);
    forall q ensures q in st.structures <==> IsRead(s, q) {
      VisitedExactly(s, q);
    }
    TablesAre(s, st);
    JoinsAre(s, st);
    WalkIsGood(s);
    forall b ensures b in r.predicates <==>
                     exists q, p ::
                       IsRead(s, q) && p in q.predicates && b.rest == p.rest && StandsFor(s, p.expr, b.expr) {
      PredicateIs(s, st, b);
    }
  }

  lemma WalkIsGood(s: Script)
    requires ScriptInScope(s) && ProgramLineage !in Extract(s).warnings
    ensures GoodState(s, Walk(s)) && !Unresolved(s, Walk(s))
  {
    hide GoodState, Analyze, Mapped, OverStep, ColumnsInScope, Unresolved;
    NothingWalked(s);
    AnalyzeKeeps(s, s.final, None, s.size, START);
  }

  lemma PredicateIs(s: Script, st: State, b: Predicate)
    requires GoodState(s, st) && !Unresolved(s, st)
    ensures b in MappedPredicates(s, st) <==>
              exists q, p :: q in st.structures && p in q.predicates && b.rest == p.rest && StandsFor(s, p.expr, b.expr)
  {
    hide GoodState, Mapped, StandsFor;
    forall p ensures p in AllPredicates(st.structures) <==> exists q :: q in st.structures && p in q.predicates {
      FlatMapMember((q: Query) => q.predicates, st.structures, p);
    }
    forall p | p in AllPredicates(st.structures)
      ensures Mapped(s, st, p.expr).Some? && StandsFor(s, p.expr, Mapped(s, st, p.expr).value)
      ensures StandsFor(s, p.expr, b.expr) ==> b.expr == Mapped(s, st, p.expr).value {
      MappedStandsFor(s, st, p.expr);
      if StandsFor(s, p.expr, b.expr) {
        StandsForOne(s, p.expr, b.expr, Mapped(s, st, p.expr).value);
      }
    }
    if q, p :| q in st.structures && p in q.predicates && b.rest == p.rest && StandsFor(s, p.expr, b.expr) {
      assert p in AllPredicates(st.structures);
      assert b == p.(expr := Mapped(s, st, p.expr).value);
    }
  }

  lemma {:induction false} OneOrigin(s: Script, step: Name, f: FieldName, n: nat, m: nat)
    requires Origin(s, step, f, n).Some? && Origin(s, step, f, m).Some?
    ensures Origin(s, step, f, n) == Origin(s, step, f, m)
    decreases n
  {
    var e := LastNamed(s.creates[step].projections, f);
    if e.value.source.value in s.creates {
      OneOrigin(s, e.value.source.value, e.value.field, n - 1, m - 1);
    }
  }

  /** An expression stands for one base expression only. */
  lemma StandsForOne(s: Script, e: Expr, a: Expr, b: Expr)
    requires StandsFor(s, e, a) && StandsFor(s, e, b)
    ensures a == b
  {
    hide Origin;
    if OverStep(s, e) {
      var n: nat :| Origin(s, e.source.value, e.field, n) == Some(a);
      var m: nat :| Origin(s, e.source.value, e.field, m) == Some(b);
      OneOrigin(s, e.source.value, e.field, n, m);
    }
  }

  lemma TablesAre(s: Script, st: State)
    ensures forall t :: t in BaseTables(s, st) <==> t !in s.creates && exists q :: q in st.structures && t in q.tables
  {
  }

  lemma JoinsAre(s: Script, st: State)
    requires !Unresolved(s, st)
    ensures forall j :: j in PlainJoins(s, st) <==> exists q :: q in st.structures && j in q.joins
    ensures forall j :: j in PlainJoins(s, st) ==> j.left !in s.creates && j.right !in s.creates
  {
    forall j ensures j in AllJoins(st.structures) <==> exists q :: q in st.structures && j in q.joins {
      FlatMapMember((q: Query) => q.joins, st.structures, j);
    }
  }

  // ----- when the extraction warns -----

  ghost predicate HasBase(s: Script, e: Expr) {
    exists b :: StandsFor(s, e, b)
  }

  /** A column of the query is taken from a step that the walk has mapped. */
  ghost predicate SourceMapped(s: Script, st: State, e: Expr) {
    e.Column? && e.source.Some? && e.source.value in s.creates ==> e.source.value in st.mappings
  }

  lemma MappedExactly(s: Script, st: State, e: Expr)
    requires GoodState(s, st) && SourceMapped(s, st, e)
    ensures Mapped(s, st, e).Some? <==> HasBase(s, e)
  {
    hide IsOrigin, Origin, StandsFor;
    if Mapped(s, st, e).Some? {
      MappedStandsFor(s, st, e);
    } else if b :| StandsFor(s, e, b) {
      NotOverStep(s, e, b);
      assert GoodStep(s, st, e.source.value);
      NoOutput(s, e.source.value, st.mappings[e.source.value], e.field, b);
      assert false;
    }
  }

  lemma NotOverStep(s: Script, e: Expr, b: Expr)
    requires StandsFor(s, e, b)
    ensures OverStep(s, e) ==> e.Column? && Traces(s, e.source.value, e.field, Some(b))
  {
    hide Traces;
  }

  lemma NoOutput(s: Script, step: Name, outputs: Outputs, f: FieldName, b: Expr)
    requires IsOrigin(s, step, outputs) && (f in outputs ==> outputs[f].None?)
    ensures !Traces(s, step, f, Some(b))
  {
    assert Traces(s, step, f, if f in outputs then outputs[f] else None);
  }

  /** A query that is read asks for a column of a step that leads to no stored column, or joins on a step. */
  ghost predicate LeadsNowhere(s: Script) {
    || (exists p :: p in s.final.projections && !HasBase(s, p.expr))
    || (exists q, p :: IsRead(s, q) && p in q.predicates && !HasBase(s, p.expr))
    || (exists q, j :: IsRead(s, q) && j in q.joins && (j.left in s.creates || j.right in s.creates))
  }

  lemma ProjectionsUnresolved(s: Script)
    requires ScriptInScope(s) && ProgramLineage !in Walk(s).warnings
    ensures (exists p :: p in s.final.projections && Mapped(s, Walk(s), p.expr).None?) <==>
              exists p :: p in s.final.projections && !HasBase(s, p.expr)
  {
    assert IsRead(s, s.final);
    hide Walk, IsRead, Mapped, HasBase, ScriptInScope;
    forall p | p in s.final.projections ensures Mapped(s, Walk(s), p.expr).Some? <==> HasBase(s, p.expr) {
      ReadIsMapped(s, s.final, p.expr);
    }
  }

  lemma PredicatesUnresolved(s: Script)
    requires ScriptInScope(s) && ProgramLineage !in Walk(s).warnings
    ensures (exists p :: p in AllPredicates(Walk(s).structures) && Mapped(s, Walk(s), p.expr).None?) <==>
              exists q, p :: IsRead(s, q) && p in q.predicates && !HasBase(s, p.expr)
  {
    hide Walk, IsRead, Mapped, HasBase, ScriptInScope;
    var st := Walk(s);
    forall q ensures q in st.structures <==> IsRead(s, q) {
      VisitedExactly(s, q);
    }
    forall q, p | IsRead(s, q) && p in q.predicates ensures Mapped(s, st, p.expr).Some? <==> HasBase(s, p.expr) {
      ReadIsMapped(s, q, p.expr);
    }
    forall p ensures p in AllPredicates(st.structures) <==> exists q :: IsRead(s, q) && p in q.predicates {
      FlatMapMember((q: Query) => q.predicates, st.structures, p);
    }
    hide AllPredicates;
    if q, p :| IsRead(s, q) && p in q.predicates && !HasBase(s, p.expr) {
      assert p in AllPredicates(st.structures);
    }
  }

  lemma JoinsUnresolved(s: Script)
    requires ScriptInScope(s) && ProgramLineage !in Walk(s).warnings
    ensures (exists j :: j in AllJoins(Walk(s).structures) && JoinOverStep(s, j)) <==>
              exists q, j :: IsRead(s, q) && j in q.joins && (j.left in s.creates || j.right in s.creates)
  {
    hide Walk, IsRead, ScriptInScope;
    var st := Walk(s);
    forall q ensures q in st.structures <==> IsRead(s, q) {
      VisitedExactly(s, q);
    }
    forall j ensures j in AllJoins(st.structures) <==> exists q :: IsRead(s, q) && j in q.joins {
      FlatMapMember((q: Query) => q.joins, st.structures, j);
    }
    hide AllJoins;
    if q, j :| IsRead(s, q) && j in q.joins && (j.left in s.creates || j.right in s.creates) {
      assert j in AllJoins(st.structures) && JoinOverStep(s, j);
    }
  }

  lemma UnresolvedExactly(s: Script)
    requires ScriptInScope(s) && ProgramLineage !in Walk(s).warnings
    ensures Unresolved(s, Walk(s)) <==> LeadsNowhere(s)
  {
    hide Walk, IsRead, Mapped, HasBase, ScriptInScope, AllPredicates, AllJoins, JoinOverStep;
    ProjectionsUnresolved(s);
    PredicatesUnresolved(s);
    JoinsUnresolved(s);
  }

  lemma ReadIsMapped(s: Script, q: Query, e: Expr)
    requires ScriptInScope(s) && ProgramLineage !in Walk(s).warnings && IsRead(s, q)
    requires (exists p :: p in q.projections && p.expr == e) || (exists p :: p in q.predicates && p.expr == e)
    ensures Mapped(s, Walk(s), e).Some? <==> HasBase(s, e)
  {
    hide GoodState, Analyze, Mapped, HasBase;
    var st := Walk(s);
    NothingWalked(s);
    AnalyzeKeeps(s, s.final, None, s.size, START);
    if n :| Reached(s, n) && q == s.creates[n] {
      var k: nat :| ReachedIn(s, n, k);
      ReachedAreMapped(s, st, n, k);
      StepReaches(s, n);
    } else {
      FinalReaches(s);
    }
    assert ColumnsInScope(q);
    if e.Column? && e.source.Some? && e.source.value in s.creates {
      assert e.source.value in q.tables;
      assert Reached(s, e.source.value);
      var k: nat :| ReachedIn(s, e.source.value, k);
      ReachedAreMapped(s, st, e.source.value, k);
    }
    MappedExactly(s, st, e);
  }

  /** The extraction warns exactly when a step is read late, a visited query warns by itself, or a query that is read
      leads nowhere. */
  lemma WarningExactly(s: Script)
    requires ValidScript(s) && ScriptInScope(s)
    ensures ProgramLineage in Extract(s).warnings <==>
              || (exists n: Name, m: Name :: LateRead(s, VisitOrder(s), n, m))
              || RaisedOtherwise(s) || LeadsNowhere(s)
  {
    hide Walk, Unresolved, LeadsNowhere, LateRead, RaisedOtherwise;
    OrderWarningExactly(s);
    if ProgramLineage !in Walk(s).warnings {
      UnresolvedExactly(s);
    }
  }
}
