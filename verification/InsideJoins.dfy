/** Joins inside one logical source. The adapter refuses them; the older compiler drops them from the result query
    (ontology_core/inference_compiler.py). Here: what the remaining program still guarantees, and how its answers
    relate to those of the program as declared. */
module InsideJoins {
  import opened SeqOps
  import opened Sql
  import opened RelationalPlan
  import opened JoinOrder
  import opened InferredProgram
  import opened ProgramMeaning
  import opened ProgramAnswers
  import opened FlatCompiler

  predicate IsInside(p: Program, j: JoinSpec) {
    KeyOf(p, j.left.owner) == KeyOf(p, j.right.owner)
  }

  /** What the joins inside sources demand of an answer. */
  predicate InsideHold(p: Program, e: Env) {
    forall j :: j in p.joins && IsInside(p, j) ==> Compare(EQ, FieldValue(p, e, j.left),
                                                           FieldValue(p, e, j.right)) == True
  }

  // ----- the remaining program is valid -----

  lemma {:induction false} FilterPositions<A(!new)>(keep: A -> bool, xs: seq<A>, i: nat, k: nat)
    returns (a: nat, b: nat)
    requires i < k < |Filter(keep, xs)|
    ensures a < b < |xs| && xs[a] == Filter(keep, xs)[i] && xs[b] == Filter(keep, xs)[k]
  {
    if keep(xs[0]) {
      if i == 0 {
        var kept := Filter(keep, xs[1..]);
        assert kept[k - 1] in kept;
        var c :| 0 <= c < |xs| - 1 && xs[1..][c] == kept[k - 1];
        a, b := 0, c + 1;
      } else {
        a, b := FilterPositions(keep, xs[1..], i - 1, k - 1);
        a, b := a + 1, b + 1;
      }
    } else {
      a, b := FilterPositions(keep, xs[1..], i, k);
      a, b := a + 1, b + 1;
    }
  }

  lemma JoinPositions(p: Program, i: nat, k: nat) returns (a: nat, b: nat)
    requires i != k && i < |BetweenSources(p).joins| && k < |BetweenSources(p).joins|
    ensures a < |p.joins| && b < |p.joins| && (a < b <==> i < k) && a != b
    ensures p.joins[a] == BetweenSources(p).joins[i] && p.joins[b] == BetweenSources(p).joins[k]
  {
    var between := (j: JoinSpec) => KeyOf(p, j.left.owner) != KeyOf(p, j.right.owner);
    if i < k {
      a, b := FilterPositions(between, p.joins, i, k);
    } else {
      b, a := FilterPositions(between, p.joins, k, i);
    }
  }

  lemma SameFamilies(p: Program)
    ensures var q := BetweenSources(p);
            && q.families == p.families && q.objects == p.objects && q.requested == p.requested
                && q.filters == p.filters
            && q.decisions == p.decisions && q.groupBy == p.groupBy && q.aggregations == p.aggregations
                && q.source == p.source
            && SourcesOf(q) == SourcesOf(p) && LogicalKeys(q) == LogicalKeys(p)
    ensures forall t :: KeyOf(BetweenSources(p), t) == KeyOf(p, t)
    ensures forall j :: j in BetweenSources(p).joins <==> j in p.joins && !IsInside(p, j)
  {
  }

  /** Only inner joins can stay inside one source. */
  lemma InsideIsInner(p: Program, j: JoinSpec)
    requires JoinsAllowed(p) && j in p.joins && IsInside(p, j)
    ensures j.joinType == Inner
  {
    var i :| 0 <= i < |p.joins| && p.joins[i] == j;
    assert JoinAllowed(p, i);
  }

  lemma DirectedMember(p: Program, k: Key)
    ensures k in DirectedRights(p) <==> exists j :: j in p.joins && j.joinType != Inner && KeyOf(p, j.right.owner) == k
  {
    hide KeyOf;
    if k in DirectedRights(p) {
      var e :| e in EdgesOf(p) && e.joinType != Inner && e.right == k;
      var i :| 0 <= i < |p.joins| && EdgesOf(p)[i] == e;
      assert p.joins[i] in p.joins;
    }
    if j :| j in p.joins && j.joinType != Inner && KeyOf(p, j.right.owner) == k {
      EdgeInEdges(p, j);
    }
  }

  lemma SameDirections(p: Program)
    requires JoinsAllowed(p)
    ensures DirectedRights(BetweenSources(p)) == DirectedRights(p) && AntiRights(BetweenSources(p)) == AntiRights(p)
  {
    hide JoinsAllowed, KeyOf, DirectedRights, BetweenSources;
    var q := BetweenSources(p);
    SameFamilies(p);
    forall j | j in p.joins && IsInside(p, j) ensures j.joinType == Inner {
      InsideIsInner(p, j);
    }
    forall k ensures k in DirectedRights(q) <==> k in DirectedRights(p) {
      DirectedMember(p, k);
      DirectedMember(q, k);
    }
  }

  lemma BetweenIsAllowed(p: Program)
    requires JoinsAllowed(p)
    ensures JoinsAllowed(BetweenSources(p))
  {
    hide KeyOf, BetweenSources, JoinsAllowed, IsInside;
    var q := BetweenSources(p);
    SameFamilies(p);
    forall i | 0 <= i < |q.joins| ensures JoinAllowed(q, i) {
      assert q.joins[i] in q.joins;
      var c :| 0 <= c < |p.joins| && p.joins[c] == q.joins[i];
      AllowedAt(p, c);
      forall k | 0 <= k < |q.joins| && k != i && q.joins[i].joinType != Inner
        ensures k < i && q.joins[k].joinType != Inner ==>
                KeyOf(p, q.joins[k].right.owner) != KeyOf(p, q.joins[i].right.owner)
        ensures q.joins[i].joinType == Anti ==> !TakesPart(q, k, KeyOf(p, q.joins[i].right.owner)) {
        var a, b := JoinPositions(p, i, k);
        AllowedAt(p, a);
        if q.joins[i].joinType == Anti {
          assert !TakesPart(p, b, KeyOf(p, p.joins[a].right.owner));
        }
      }
    }
    AllAllowed(q);
  }

  lemma AllAllowed(p: Program)
    requires forall i :: 0 <= i < |p.joins| ==> JoinAllowed(p, i)
    ensures JoinsAllowed(p)
  {
  }

  lemma AllowedAt(p: Program, i: nat)
    requires JoinsAllowed(p) && i < |p.joins|
    ensures JoinAllowed(p, i)
  {
  }

  /** Dropping the inside joins of a valid program leaves a valid program. */
  lemma BetweenIsValid(p: Program)
    requires ValidProgram(p)
    ensures ValidProgram(BetweenSources(p))
  {
    hide ValidCatalog, KeyOf, FilterSources, FieldsOf, JoinsAllowed, FamilyOf, BetweenSources;
    var q := BetweenSources(p);
    BetweenIsAllowed(p);
    SameFamilies(p);
    SameFields(p);
    assert ValidFamilies(q) && FieldsKnown(q);
    forall item | item in q.filters && item.scope == MatchScope ensures OneSource(q, item) {
      assert OneSource(p, item);
    }
  }

  lemma SameFields(p: Program)
    ensures FieldsOf(BetweenSources(p)) == FieldsOf(p)
  {
  }

  // ----- its answers -----

  lemma HoldsSame(p: Program, q: Program, world: World, pred: Pred<Field>, e: Env)
    requires p.families == q.families
    ensures HoldsOn(p, world, pred, e) == HoldsOn(q, world, pred, e)
  {
    forall f: Field ensures FieldLook(p, e)(f) == FieldLook(q, e)(f) {
      FieldSame(p, q, e, f);
    }
    RenameKeepsTruth(pred, (f: Field) => f, FieldLook(q, e), FieldLook(p, e), world.literal);
    RenameKeepsTruth(pred, (f: Field) => f, FieldLook(q, e), FieldLook(q, e), world.literal);
  }

  lemma FieldSame(p: Program, q: Program, e: Env, f: Field)
    requires p.families == q.families
    ensures FieldValue(p, e, f) == FieldValue(q, e, f)
  {
  }

  lemma PeriodSameBetween(p: Program, world: World, b: BaseRow)
    ensures InPeriod(BetweenSources(p), world, b) == InPeriod(p, world, b)
  {
    hide HoldsOn, TemporalPred, KeyOf, BetweenSources;
    var q := BetweenSources(p);
    SameFamilies(p);
    assert Alone(q, b) == Alone(p, b);
    forall d: Decision
        ensures HoldsOn(q, world, TemporalPred(d), Alone(p, b)) == HoldsOn(p, world, TemporalPred(d), Alone(p, b)) {
      HoldsSame(p, q, world, TemporalPred(d), Alone(p, b));
    }
  }

  lemma FilterSourcesSame(p: Program, item: FilterSpec)
    ensures FilterSources(BetweenSources(p), item) == FilterSources(p, item)
  {
  }

  lemma OnFiltersSame(p: Program, world: World, source: Key, b: BaseRow)
    ensures OnFiltersHold(BetweenSources(p), world, source, b) == OnFiltersHold(p, world, source, b)
  {
    hide HoldsOn, BetweenSources, FilterSources;
    var q := BetweenSources(p);
    SameFamilies(p);
    forall item: FilterSpec ensures FilterSources(q, item) == FilterSources(p, item)
      ensures HoldsOn(q, world, item.pred, map[source := Some(b)])
              == HoldsOn(p, world, item.pred, map[source := Some(b)]) {
      FilterSourcesSame(p, item);
      HoldsSame(p, q, world, item.pred, map[source := Some(b)]);
    }
  }

  lemma RawRowsSame(p: Program, world: World, source: Key)
    ensures RawRows(BetweenSources(p), world, source) == RawRows(p, world, source)
  {
  }

  lemma JoinHoldsSame(p: Program, world: World, j: JoinSpec, e: Env)
    ensures JoinHolds(BetweenSources(p), world, j, e) == JoinHolds(p, world, j, e)
  {
    hide OnFiltersHold, InPeriod, BetweenSources, KeyOf, RawRows;
    var q := BetweenSources(p);
    SameFamilies(p);
    FieldSame(p, q, e, j.left);
    FieldSame(p, q, e, j.right);
    RawRowsSame(p, world, KeyOf(p, j.right.owner));
    forall key, b ensures Partner(q, world, j, key, b) == Partner(p, world, j, key, b) {
      OnFiltersSame(p, world, KeyOf(p, j.right.owner), b);
      PeriodSameBetween(p, world, b);
    }
  }

  lemma WhereSameBetween(p: Program, world: World, e: Env)
    requires JoinsAllowed(p)
    ensures WhereRaw(BetweenSources(p), world, e) == WhereRaw(p, world, e)
  {
    hide JoinsAllowed, HoldsOn, BetweenSources, FilterSources, InPeriod, DirectedRights;
    var q := BetweenSources(p);
    SameFamilies(p);
    SameDirections(p);
    forall item: FilterSpec ensures IsOnFilter(q, item) == IsOnFilter(p, item)
      ensures HoldsOn(q, world, item.pred, e) == HoldsOn(p, world, item.pred, e) {
      FilterSourcesSame(p, item);
      HoldsSame(p, q, world, item.pred, e);
    }
    forall b: BaseRow ensures InPeriod(q, world, b) == InPeriod(p, world, b) {
      PeriodSameBetween(p, world, b);
    }
  }

  lemma StoredSameBetween(p: Program, world: World, e: Env)
    ensures FromStore(BetweenSources(p), world, e) == FromStore(p, world, e)
  {
    hide BetweenSources, RawRows;
    forall s ensures RawRows(BetweenSources(p), world, s) == RawRows(p, world, s) {
      RawRowsSame(p, world, s);
    }
  }

  lemma InsideHoldIs(p: Program, world: World, e: Env)
    requires JoinsAllowed(p)
    ensures InsideHold(p, e) <==> forall j :: j in p.joins && IsInside(p, j) ==> JoinHolds(p, world, j, e)
  {
    hide JoinsAllowed, FieldValue;
    forall j | j in p.joins && IsInside(p, j)
      ensures JoinHolds(p, world, j, e) == (Compare(EQ, FieldValue(p, e, j.left), FieldValue(p, e, j.right)) == True) {
      InsideIsInner(p, j);
    }
  }

  /** An answer of the declared program is an answer of the remaining one that satisfies the inside joins. */
  lemma AnswersSplit(p: Program, world: World, e: Env)
    requires JoinsAllowed(p)
    ensures IsAnswer(p, world, e) <==> IsAnswer(BetweenSources(p), world, e) && InsideHold(p, e)
  {
    hide JoinsAllowed, InsideHold, JoinHolds, WhereRaw, FromStore, IsInside, BetweenSources, DirectedRights,
         AntiRights, SourcesOf;
    var q := BetweenSources(p);
    SameFamilies(p);
    SameDirections(p);
    InsideHoldIs(p, world, e);
    WhereSameBetween(p, world, e);
    StoredSameBetween(p, world, e);
    forall j ensures JoinHolds(q, world, j, e) == JoinHolds(p, world, j, e) {
      JoinHoldsSame(p, world, j, e);
    }
  }
}
