/** Family tables of the older compiler keep the columns of every declared join, also of those that its result query
    drops. Here: the result query does not see the surplus columns. */
module FlatColumns {
  import opened SeqOps
  import opened Sql
  import opened RelationalPlan
  import opened JoinOrder
  import opened InferredProgram
  import opened ProgramMeaning
  import opened AdapterPlan
  import opened FlatCompiler
  import opened FlatMeaning
  import opened FlatCorrectness
  import opened QueryColumns
  import opened InsideJoins

  // ----- the columns that the result query names -----

  /** The columns that a flat query may name. */
  ghost function ReadRefs(p: Program): set<ColRef> {
    set f | f in FlatMentioned(p) && Kept(p, f) :: FieldRef(p, f)
  }

  lemma KeptIsRead(p: Program, f: Field)
    requires Kept(p, f)
    ensures FieldRef(p, f) in ReadRefs(p)
  {
    hide FieldRef, FlatMentioned;
  }

  lemma PredRead(p: Program, pred: Pred<Field>)
    requires forall f :: f in Leaves(pred) ==> Kept(p, f)
    ensures forall t :: t in Leaves(FlatPred(p, pred)) ==> t.ref in ReadRefs(p)
  {
    hide Kept, FieldRef, ReadRefs;
    RenameLeaves(pred, FlatRef(p));
    forall t | t in Leaves(FlatPred(p, pred)) ensures t.ref in ReadRefs(p) {
      MapHas(FlatRef(p), Leaves(pred), t);
      var f :| f in Leaves(pred) && FlatRef(p)(f) == t;
      KeptIsRead(p, f);
    }
  }

  lemma OnRead(p: Program, s: Intro)
    requires ValidProgram(p) && s.edge < |p.joins|
    ensures AllOnRead(ReadRefs(p), OnOf(p, s))
  {
    hide ValidProgram, Kept, ReadRefs, FieldRef, FlatPred, Scoped, SourcesOf, KeyOf;
    var j := p.joins[s.edge];
    assert j in p.joins;
    KeptFields(p);
    KeptIsRead(p, j.left);
    KeptIsRead(p, j.right);
    forall q | q in Scoped(p, s.source) ensures OnReads(ReadRefs(p), Test(FlatPred(p, q))) {
      ScopedLeaves(p, s.source, q);
      PredRead(p, q);
    }
    var scoped := Scoped(p, s.source);
    var tests := Map((q: Pred<Field>) => Test(FlatPred(p, q)), scoped);
    forall i | 0 <= i < |tests| ensures OnReads(ReadRefs(p), tests[i]) {
      assert scoped[i] in scoped;
    }
    assert OnReads(ReadRefs(p), Equal(FieldRef(p, j.left), FieldRef(p, j.right)));
  }

  // ----- sources with and without surplus columns -----

  lemma MentionedBetween(p: Program, f: Field)
    requires f in FlatMentioned(BetweenSources(p))
    ensures f in FlatMentioned(p)
  {
    var q := BetweenSources(p);
    if f in FlatMap((j: JoinSpec) => [j.left, j.right], q.joins) {
      FlatMapMember((j: JoinSpec) => [j.left, j.right], q.joins, f);
      FlatMapMember((j: JoinSpec) => [j.left, j.right], p.joins, f);
    }
  }

  lemma KeptBetween(p: Program, f: Field)
    requires Kept(BetweenSources(p), f)
    ensures Kept(p, f)
  {
    hide BetweenSources, FlatMentioned, FieldsOf;
    MentionedBetween(p, f);
    SameFields(p);
  }

  // Rows of a source before the joins, with and without the inside joins.
  lemma PushedBetween(p: Program, world: World, k: Key)
    requires ValidProgram(p) && ValidWorld(world) && k in SourcesOf(p)
    ensures PushedRows(BeforeWhere(BetweenSources(p)), world, k) == PushedRows(BeforeWhere(p), world, k)
  {
    hide ValidProgram, ValidWorld, InPeriod, ScanKeeps, BeforeWhere, RawRows, BetweenSources, SourcesOf;
    var q := BetweenSources(p);
    BetweenIsValid(p);
    SameFamilies(p);
    SameRawRows(p, world, k);
    SameRawRows(q, world, k);
    RawRowsSame(p, world, k);
    var raw := RawRows(p, world, k);
    var narrow, wide := (b: BaseRow) => ScanKeeps(BeforeWhere(q), world, k,
                                                  b), (b: BaseRow) => ScanKeeps(BeforeWhere(p), world, k, b);
    forall b | b in raw ensures narrow(b) == wide(b) {
      RowsBefore(p, world, k, b);
      RowsBefore(q, world, k, b);
      PeriodSameBetween(p, world, b);
    }
    FilterCong(narrow, wide, raw);
  }

  lemma CellsAgree(p: Program, k: Key, b: BaseRow)
    requires ValidProgram(p) && ValidProgram(BetweenSources(p)) && k in SourcesOf(p)
    ensures var q := BetweenSources(p); RowsAgree(ReadRefs(q), AliasOf(q, k), RowCells(p, k, b), RowCells(q, k, b))
  {
    hide ValidProgram, Kept, RowCells, BetweenSources, SourcesOf, KeyOf, AliasOf, FlatMentioned, FieldsOf;
    var q := BetweenSources(p);
    SameFamilies(p);
    KeysAreSources(q);
    forall ref | ref in ReadRefs(q) && ref.alias == AliasOf(q, k)
      ensures Cell(RowCells(p, k, b), ref.column) == Cell(RowCells(q, k, b), ref.column) {
      var f :| f in FlatMentioned(q) && Kept(q, f) && ref == FieldRef(q, f);
      KeptSource(q, f);
      AliasesDiffer(q, KeyOf(q, f.owner), k);
      KeptBetween(p, f);
      CellKept(p, k, b, f);
      CellKept(q, k, b, f);
    }
  }

  lemma KeptSource(p: Program, f: Field)
    requires ValidProgram(p) && Kept(p, f)
    ensures KeyOf(p, f.owner) in SourcesOf(p)
  {
    hide ValidFamilies, FieldsKnown, ValidFilters, JoinsAllowed, KeyOf, SourcesOf, FieldsOf;
    FieldKeyIsSource(p, f);
  }

  // Contexts of the declared program (`c`) and of the one without inside joins (`d`).
  ghost predicate Contexts(p: Program, world: World, c: Context, d: Context) {
    && ValidProgram(p) && ValidProgram(BetweenSources(p)) && ValidWorld(world)
    && FlatContext(p, world, c) && FlatContext(BetweenSources(p), world, d)
  }

  lemma SourcesAgree(p: Program, world: World, c: Context, d: Context, k: Key)
    requires Contexts(p, world, c, d) && k in SourcesOf(p)
    ensures var q := BetweenSources(p); SourceAgrees(ReadRefs(q), SourceFor(q, k), c, d)
  {
    hide ValidProgram, ValidWorld, BetweenSources, SourcesOf, AliasOf, RelationFor, RowCells, BeforeWhere, PushedRows,
         Rows, ReadRefs, RowsAgree;
    var q := BetweenSources(p);
    SameFamilies(p);
    SameRelation(p, k);
    PushedBetween(p, world, k);
    var rows := PushedRows(BeforeWhere(p), world, k);
    forall i | 0 <= i < |rows|
        ensures RowPair(ReadRefs(q), AliasOf(q, k))(Map(CellsOf(p, k), rows)[i], Map(CellsOf(q, k), rows)[i]) {
      CellsAgree(p, k, rows[i]);
    }
  }

  lemma SameRelation(p: Program, k: Key)
    ensures RelationFor(BetweenSources(p), k) == RelationFor(p, k)
  {
  }

  // ----- the clauses of the result query -----

  lemma StepReads(p: Program, world: World, c: Context, d: Context, visited: set<Key>, s: Intro)
    requires Contexts(p, world, c, d)
    requires var q := BetweenSources(p); LegalStep(EdgesOf(q), SourcesOf(q), visited, s) && s.edge < |q.joins|
    ensures var q := BetweenSources(p);
            && (forall i :: 0 <= i < |StepJoins(q, s)| ==> JoinReadsOnly(ReadRefs(q), StepJoins(q, s)[i], c, d))
            && (forall i :: 0 <= i < |StepWhere(q, s)| ==> WhereReadsOnly(ReadRefs(q), StepWhere(q, s)[i], c, d))
  {
    hide ValidProgram, FlatContext, BetweenSources, SourcesOf, ReadRefs, FieldRef, OnOf, SourceFor, SourceAgrees,
         AllOnRead, Kept, KeyOf, LegalStep, EdgesOf;
    var q := BetweenSources(p);
    SameFamilies(p);
    StepFacts(q, visited, s);
    SourcesAgree(p, world, c, d, s.source);
    OnRead(q, s);
    KeptFields(q);
    assert q.joins[s.edge] in q.joins;
    KeptIsRead(q, q.joins[s.edge].right);
  }

  lemma {:induction false} ClausesRead(p: Program, world: World, c: Context, d: Context, root: Key, order: seq<Intro>)
    requires Contexts(p, world, c, d)
    requires var q := BetweenSources(p); LegalPrefix(q, root, order) && EdgesKnown(q, order)
    ensures var q := BetweenSources(p);
            && (forall i :: 0 <= i < |FlatJoins(q, order)| ==> JoinReadsOnly(ReadRefs(q), FlatJoins(q, order)[i], c, d))
            && (forall i :: 0 <= i < |FlatAntis(q, order)| ==>
                  WhereReadsOnly(ReadRefs(q), FlatAntis(q, order)[i], c, d))
    decreases |order|
  {
    hide Contexts, BetweenSources, ReadRefs, StepJoins, StepWhere, LegalPrefix, LegalStep, JoinReadsOnly,
         WhereReadsOnly, EdgesOf, SourcesOf;
    if order != [] {
      var n := |order| - 1;
      assert order[n] in order;
      LegalPrefixShorter(BetweenSources(p), root, order);
      ClausesRead(p, world, c, d, root, order[..n]);
      StepReads(p, world, c, d, Reached({root}, order[..n]), order[n]);
    }
  }

  lemma WheresRead(p: Program, c: Context, d: Context)
    requires ValidProgram(p) && !WhereOnExcluded(p)
    ensures forall i :: 0 <= i < |WherePredicates(p)| ==> WhereReadsOnly(ReadRefs(p), WherePredicates(p)[i], c, d)
  {
    hide ValidProgram, WhereOnExcluded, WhereParts, ReadRefs, FlatPred, Kept, SourcesOf, AntiRights, KeyOf;
    var parts := WhereParts(p);
    forall i | 0 <= i < |parts| ensures WhereReadsOnly(ReadRefs(p), Holds(FlatPred(p, parts[i])), c, d) {
      assert parts[i] in parts;
      PartIsPresent(p, parts[i]);
      PredRead(p, parts[i]);
    }
  }

  lemma ItemsAreRead(p: Program)
    requires ValidProgram(p)
    ensures forall i :: 0 <= i < |FlatItems(p)| ==> FlatItems(p)[i].source in ReadRefs(p)
  {
    hide ValidProgram, ReadRefs, FieldRef, Kept, SourcesOf, KeyOf;
    KeptFields(p);
    forall i | 0 <= i < |p.requested| ensures FieldRef(p, p.requested[i]) in ReadRefs(p) {
      assert p.requested[i] in p.requested;
      KeptIsRead(p, p.requested[i]);
    }
  }

  /** The result query returns the same rows over family tables with the columns of all declared joins (`c`) as
      over tables with the columns of the joins between sources (`d`). */
  lemma SurplusColumnsDoNotMatter(p: Program, world: World, c: Context, d: Context, root: Key, order: seq<Intro>)
    requires Contexts(p, world, c, d)
    requires var q := BetweenSources(p); LegalPrefix(q, root, order) && EdgesKnown(q, order) && !WhereOnExcluded(q)
    ensures var q := BetweenSources(p);
            EvalSelect(FlatSelect(q, root, order), c) == EvalSelect(FlatSelect(q, root, order), d)
  {
    hide BetweenSources, ValidProgram, ValidWorld, ReadRefs, FlatItems, FlatJoins, FlatAntis, WherePredicates,
         WhereOnExcluded, JoinReadsOnly, WhereReadsOnly,
         SourceAgrees, SourceFor, EvalSelect, SourcesOf, DirectedRights, LegalStep, EdgesKnown;
    var q := BetweenSources(p);
    SameFamilies(p);
    SourcesAgree(p, world, c, d, root);
    ClausesRead(p, world, c, d, root, order);
    WheresRead(q, c, d);
    ItemsAreRead(q);
    UnreadColumnsDoNotMatter(ReadRefs(q), FlatSelect(q, root, order), c, d);
  }
}
