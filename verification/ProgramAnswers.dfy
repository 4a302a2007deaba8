/** The answers of a program as a set defined without roots, orders or joins of rows, and the proof
    that every legal join order computes exactly those answers, each once. */
module ProgramAnswers {
  import opened SeqOps
  import opened Sql
  import opened RelationalPlan
  import opened JoinOrder
  import opened InferredProgram
  import opened ProgramMeaning

  /** A stored row of the right side satisfies the ON clause of a LEFT or anti join for a left key. */
  predicate Partner(p: Program, world: World, j: JoinSpec, key: Value, b: BaseRow) {
    && Compare(EQ, key, Cell(b.cells, Physical(j.right.physical))) == True
    && OnFiltersHold(p, world, KeyOf(p, j.right.owner), b)
    && InPeriod(p, world, b)
  }

  /** What one declared join demands of an answer. */
  predicate JoinHolds(p: Program, world: World, j: JoinSpec, e: Env) {
    var right := KeyOf(p, j.right.owner);
    var key := FieldValue(p, e, j.left);
    match j.joinType
    case Inner => Compare(EQ, key, FieldValue(p, e, j.right)) == True
    case LeftOuter =>
      right in e &&
      if e[right].Some? then e[right].value in RawRows(p, world, right) && Partner(p, world, j, key, e[right].value)
      else forall b :: b in RawRows(p, world, right) ==> !Partner(p, world, j, key, b)
    case Anti => forall b :: b in RawRows(p, world, right) ==> !Partner(p, world, j, key, b)
  }

  predicate FromStore(p: Program, world: World, e: Env) {
    forall s :: s in e.Keys && e[s].Some? ==> e[s].value in RawRows(p, world, s)
  }

  ghost predicate IsAnswer(p: Program, world: World, e: Env) {
    && WellBound(p, e, SourcesOf(p)) && FromStore(p, world, e)
    && (forall j :: j in p.joins ==> JoinHolds(p, world, j, e))
    && WhereRaw(p, world, e)
  }

  // ----- one step -----

  lemma CompareCommutes(a: Value, b: Value)
    ensures Compare(EQ, a, b) == Compare(EQ, b, a)
  {
  }

  // A join looks only at its two sources.
  lemma JoinHoldsFrame(p: Program, world: World, j: JoinSpec, e: Env, d: Env)
    requires forall k :: k == KeyOf(p, j.left.owner) || k == KeyOf(p, j.right.owner) ==>
               (k in e <==> k in d) && (k in e && k in d ==> e[k] == d[k])
    ensures JoinHolds(p, world, j, e) == JoinHolds(p, world, j, d)
  {
    assert FieldValue(p, e, j.left) == FieldValue(p, d, j.left);
    assert FieldValue(p, e, j.right) == FieldValue(p, d, j.right);
  }

  lemma OnRawIsPartner(p: Program, world: World, s: Intro, e: Env, b: BaseRow)
    requires s.edge < |p.joins| && !s.flipped && p.joins[s.edge].joinType != Inner
    requires KeyOf(p, p.joins[s.edge].right.owner) == s.source
    ensures OnRaw(p, world, s, e, b) == Partner(p, world, p.joins[s.edge], FieldValue(p, e, p.joins[s.edge].left), b)
  {
  }

  lemma FieldAfterBind(p: Program, e: Env, s: Key, b: Option<BaseRow>, f: Field)
    ensures KeyOf(p, f.owner) != s ==> FieldValue(p, e[s := b], f) == FieldValue(p, e, f)
    ensures KeyOf(p, f.owner) == s && b.Some? ==>
            FieldValue(p, e[s := b], f) == Cell(b.value.cells, Physical(f.physical))
  {
  }

  /** The environments a step adds to `e`, described by what the step's join demands. */
  lemma InnerStepMembers(p: Program, world: World, visited: set<Key>, s: Intro, e: Env, out: Env)
    requires LegalStep(EdgesOf(p), SourcesOf(p), visited, s) && s.edge < |p.joins| && p.joins[s.edge].joinType == Inner
    requires s.source !in e
    ensures out in RawStep(p, world, s, e) <==>
              && s.source in out && out[s.source].Some? && out == e[s.source := out[s.source]]
              && out[s.source].value in RawRows(p, world, s.source)
              && JoinHolds(p, world, p.joins[s.edge], out)
  {
    StepFacts(p, visited, s);
    var matches := Filter((b: BaseRow) => OnRaw(p, world, s, e, b), RawRows(p, world, s.source));
    forall b: BaseRow ensures JoinHolds(p, world, p.joins[s.edge], e[s.source := Some(b)]) == OnRaw(p, world, s, e, b) {
      var d := e[s.source := Some(b)];
      FieldAfterBind(p, e, s.source, Some(b), OldField(p, s));
      FieldAfterBind(p, e, s.source, Some(b), NewField(p, s));
      CompareCommutes(FieldValue(p, d, OldField(p, s)), FieldValue(p, d, NewField(p, s)));
    }
    MapHas(Bind(e, s.source), matches, out);
    if s.source in out && out[s.source].Some? && out == e[s.source := out[s.source]] {
      assert out == Bind(e, s.source)(out[s.source].value);
    }
  }

  lemma LeftStepMembers(p: Program, world: World, visited: set<Key>, s: Intro, e: Env, out: Env)
    requires LegalStep(EdgesOf(p), SourcesOf(p), visited, s) && s.edge < |p.joins|
             && p.joins[s.edge].joinType == LeftOuter
    requires s.source !in e
    ensures out in RawStep(p, world, s, e) <==>
              && s.source in out && out == e[s.source := out[s.source]]
              && JoinHolds(p, world, p.joins[s.edge], out)
  {
    StepFacts(p, visited, s);
    var j := p.joins[s.edge];
    var raw := RawRows(p, world, s.source);
    var matches := Filter((b: BaseRow) => OnRaw(p, world, s, e, b), raw);
    forall b | b in raw ensures b in matches <==> Partner(p, world, j, FieldValue(p, e, j.left), b) {
      OnRawIsPartner(p, world, s, e, b);
    }
    if out in RawStep(p, world, s, e) {
      if matches == [] {
        assert out == e[s.source := None];
        FieldAfterBind(p, e, s.source, None, j.left);
        forall b | b in raw ensures !Partner(p, world, j, FieldValue(p, out, j.left), b) {
          assert b !in matches;
        }
      } else {
        var i :| 0 <= i < |matches| && out == Bind(e, s.source)(matches[i]);
        assert matches[i] in matches;
        FieldAfterBind(p, e, s.source, Some(matches[i]), j.left);
      }
    }
    if s.source in out && out == e[s.source := out[s.source]] && JoinHolds(p, world, j, out) {
      FieldAfterBind(p, e, s.source, out[s.source], j.left);
      if out[s.source].Some? {
        var b := out[s.source].value;
        assert b in matches;
        var i :| 0 <= i < |matches| && matches[i] == b;
        assert Map(Bind(e, s.source), matches)[i] == out;
      } else {
        forall b ensures b !in matches {
          if b in raw {
            assert !Partner(p, world, j, FieldValue(p, e, j.left), b);
          }
        }
        NoMemberIsEmpty(matches);
      }
    }
  }

  lemma AntiStepMembers(p: Program, world: World, visited: set<Key>, s: Intro, e: Env, out: Env)
    requires LegalStep(EdgesOf(p), SourcesOf(p), visited, s) && s.edge < |p.joins| && p.joins[s.edge].joinType == Anti
    ensures out in RawStep(p, world, s, e) <==> out == e && JoinHolds(p, world, p.joins[s.edge], out)
  {
    StepFacts(p, visited, s);
    var j := p.joins[s.edge];
    var raw := RawRows(p, world, s.source);
    var matches := Filter((b: BaseRow) => OnRaw(p, world, s, e, b), raw);
    forall b | b in raw ensures b in matches <==> Partner(p, world, j, FieldValue(p, e, j.left), b) {
      OnRawIsPartner(p, world, s, e, b);
    }
    if matches != [] {
      assert matches[0] in matches;
    }
  }

  // ----- whole chains -----

  /** Declarative description of a chain's rows after an order prefix. */
  ghost predicate ChainAnswer(p: Program, world: World, root: Key, order: seq<Intro>, e: Env)
    requires EdgesKnown(p, order)
  {
    WellBound(p, e, Reached({root}, order)) && FromStore(p, world, e) && AllHold(p, world, order, e)
  }

  ghost predicate AllHold(p: Program, world: World, order: seq<Intro>, e: Env)
    requires EdgesKnown(p, order)
  {
    forall s :: s in order ==> JoinHolds(p, world, p.joins[s.edge], e)
  }

  lemma AllHoldSnoc(p: Program, world: World, order: seq<Intro>, e: Env)
    requires order != [] && EdgesKnown(p, order) && EdgesKnown(p, order[..|order| - 1])
             && order[|order| - 1].edge < |p.joins|
    ensures AllHold(p, world, order, e)
        <==> AllHold(p, world, order[..|order| - 1], e) && JoinHolds(p, world, p.joins[order[|order| - 1].edge], e)
  {
    hide JoinHolds;
    assert order == order[..|order| - 1] + [order[|order| - 1]];
  }

  lemma JoinsOfPrefix(p: Program, root: Key, order: seq<Intro>, s: Intro)
    requires LegalPrefix(p, root, order) && s in order && s.edge < |p.joins|
    ensures KeyOf(p, p.joins[s.edge].left.owner) in Reached({root}, order)
    ensures KeyOf(p, p.joins[s.edge].right.owner) in Reached({root}, order)
  {
    var k :| 0 <= k < |order| && order[k] == s;
    StepFacts(p, Reached({root}, order[..k]), order[k]);
    assert Reached({root}, order[..k]) <= Reached({root}, order);
  }

  // Binding a source that is not visited yet changes no earlier join.
  lemma AllHoldFrame(p: Program, world: World, root: Key, order: seq<Intro>, source: Key, e: Env, out: Env)
    requires LegalPrefix(p, root, order) && EdgesKnown(p, order) && source !in Reached({root}, order) && source !in e
    requires (source in out && out == e[source := out[source]]) || out == e
    ensures AllHold(p, world, order, out) == AllHold(p, world, order, e)
  {
    hide JoinHolds, LegalPrefix, Reached;
    forall s | s in order
      ensures JoinHolds(p, world, p.joins[s.edge], out) == JoinHolds(p, world, p.joins[s.edge], e) {
      JoinsOfPrefix(p, root, order, s);
      JoinHoldsFrame(p, world, p.joins[s.edge], out, e);
    }
  }

  lemma ChainForward(p: Program, world: World, root: Key, order: seq<Intro>, e: Env, out: Env)
    requires JoinsAllowed(p) && LegalPrefix(p, root, order) && order != []
    requires EdgesKnown(p, order) && EdgesKnown(p, order[..|order| - 1]) && order[|order| - 1].edge < |p.joins|
    requires ChainAnswer(p, world, root, order[..|order| - 1], e)
    requires out in RawStep(p, world, order[|order| - 1], e)
    ensures ChainAnswer(p, world, root, order, out)
  {
    hide RawStep, JoinHolds, LegalStep, AllHold, LegalPrefix, JoinsAllowed, EdgesKnown, Reached, AntiRights,
         DirectedRights, RawRows;
    var n := |order| - 1;
    var s := order[n];
    var visited := Reached({root}, order[..n]);
    LegalPrefixShorter(p, root, order);
    StepFacts(p, visited, s);
    StepBound(p, world, visited, s, e, out);
    match p.joins[s.edge].joinType {
      case Inner => InnerStepMembers(p, world, visited, s, e, out);
      case LeftOuter =>
        LeftStepMembers(p, world, visited, s, e, out);
        LeftRowIsStored(p, world, p.joins[s.edge], out);
      case Anti => AntiStepMembers(p, world, visited, s, e, out);
    }
    AllHoldFrame(p, world, root, order[..n], s.source, e, out);
    AllHoldSnoc(p, world, order, out);
  }

  lemma LeftRowIsStored(p: Program, world: World, j: JoinSpec, e: Env)
    requires j.joinType == LeftOuter && JoinHolds(p, world, j, e)
    ensures var right := KeyOf(p, j.right.owner);
            right in e && (e[right].Some? ==> e[right].value in RawRows(p, world, right))
  {
  }

  lemma StepBound(p: Program, world: World, visited: set<Key>, s: Intro, e: Env, out: Env)
    requires JoinsAllowed(p) && LegalStep(EdgesOf(p), SourcesOf(p), visited, s) && WellBound(p, e, visited)
    requires s.edge < |p.joins| && out in RawStep(p, world, s, e)
    ensures WellBound(p, out, visited + {s.source})
  {
    StepIsBound(p, visited, s, e, Filter((b: BaseRow) => OnRaw(p, world, s, e, b), RawRows(p, world, s.source)), out);
  }

  lemma ChainBackward(p: Program, world: World, root: Key, order: seq<Intro>, out: Env) returns (e: Env)
    requires JoinsAllowed(p) && LegalPrefix(p, root, order) && order != []
    requires EdgesKnown(p, order) && EdgesKnown(p, order[..|order| - 1]) && order[|order| - 1].edge < |p.joins|
    requires ChainAnswer(p, world, root, order, out)
    ensures ChainAnswer(p, world, root, order[..|order| - 1], e)
    ensures out in RawStep(p, world, order[|order| - 1], e)
  {
    hide RawStep, JoinHolds, LegalStep, AllHold, LegalPrefix, JoinsAllowed, EdgesKnown, Reached, AntiRights,
         DirectedRights, RawRows;
    var n := |order| - 1;
    var s := order[n];
    var visited := Reached({root}, order[..n]);
    LegalPrefixShorter(p, root, order);
    StepFacts(p, visited, s);
    AllHoldSnoc(p, world, order, out);
    AntiIsDirected(p);
    e := if p.joins[s.edge].joinType == Anti then out else out - {s.source};
    match p.joins[s.edge].joinType {
      case Inner =>
        assert out == e[s.source := out[s.source]];
        InnerStepMembers(p, world, visited, s, e, out);
      case LeftOuter =>
        LeftIsNotAnti(p, s);
        assert out == e[s.source := out[s.source]];
        LeftStepMembers(p, world, visited, s, e, out);
      case Anti => AntiStepMembers(p, world, visited, s, e, out);
    }
    AllHoldFrame(p, world, root, order[..n], s.source, e, out);
  }

  /** A chain holds exactly the environments its joins describe. */
  lemma {:induction false} ChainMembers(p: Program, world: World, root: Key, order: seq<Intro>, e: Env)
    requires JoinsAllowed(p) && LegalPrefix(p, root, order) && EdgesKnown(p, order)
    ensures e in RawChain(p, world, root, order) <==> ChainAnswer(p, world, root, order, e)
    decreases |order|
  {
    hide LegalStep, RawStep, ChainAnswer, RawRows;
    if order == [] {
      StartMembers(p, world, root, e);
    } else {
      var n := |order| - 1;
      var s := order[n];
      LegalPrefixShorter(p, root, order);
      var step := (d: Env) => RawStep(p, world, s, d);
      FlatMapMember(step, RawChain(p, world, root, order[..n]), e);
      if e in RawChain(p, world, root, order) {
        var d :| d in RawChain(p, world, root, order[..n]) && e in step(d);
        ChainMembers(p, world, root, order[..n], d);
        ChainForward(p, world, root, order, d, e);
      }
      if ChainAnswer(p, world, root, order, e) {
        var d := ChainBackward(p, world, root, order, e);
        ChainMembers(p, world, root, order[..n], d);
        assert e in step(d);
      }
    }
  }

  lemma StartMembers(p: Program, world: World, root: Key, e: Env)
    requires root !in DirectedRights(p) && EdgesKnown(p, [])
    ensures e in RawChain(p, world, root, []) <==> ChainAnswer(p, world, root, [], e)
  {
    AntiIsDirected(p);
    hide RawRows, DirectedRights, AntiRights, JoinHolds;
    var rows := RawRows(p, world, root);
    if e in RawChain(p, world, root, []) {
      var i :| 0 <= i < |rows| && e == Bind(map[], root)(rows[i]);
      assert rows[i] in rows;
    }
    if ChainAnswer(p, world, root, [], e) {
      assert root in e.Keys;
      var i :| 0 <= i < |rows| && rows[i] == e[root].value;
      assert e == Bind(map[], root)(rows[i]);
      assert StartEnvs(root, rows)[i] == e;
    }
  }

  // ----- no answer twice -----

  lemma {:induction false} MembersFound(families: seq<Family>, source: Key)
    ensures MembersOf(families, source).Some? ==>
            exists f :: f in families && f.ref == source && f.members == MembersOf(families, source).value
    ensures MembersOf(families, source).None? ==> forall f :: f in families ==> f.ref != source
  {
    if families != [] {
      MembersFound(families[1..], source);
      assert families == [families[0]] + families[1..];
    }
  }

  lemma RawRowsNoDup(p: Program, world: World, source: Key)
    requires ValidFamilies(p) && ValidWorld(world)
    ensures NoDup(RawRows(p, world, source))
  {
    var members := MembersOf(p.families, source);
    if members.Some? {
      MembersFound(p.families, source);
      NoDupFlatMap((m: Ref) => Stored(world, m), members.value);
    }
  }

  lemma BindInjective(e: Env, s: Key, rows: seq<BaseRow>)
    requires NoDup(rows)
    ensures NoDup(Map(Bind(e, s), rows))
  {
    forall b, c | b in rows && c in rows && Bind(e, s)(b) == Bind(e, s)(c) ensures b == c {
      assert Bind(e, s)(b)[s] == Some(b) && Bind(e, s)(c)[s] == Some(c);
    }
    NoDupMap(Bind(e, s), rows);
  }

  lemma StepNoDup(p: Program, world: World, s: Intro, e: Env)
    requires ValidFamilies(p) && ValidWorld(world) && s.edge < |p.joins|
    ensures NoDup(RawStep(p, world, s, e))
  {
    RawRowsNoDup(p, world, s.source);
    var on := (b: BaseRow) => OnRaw(p, world, s, e, b);
    NoDupFilter(on, RawRows(p, world, s.source));
    BindInjective(e, s.source, Filter(on, RawRows(p, world, s.source)));
  }

  lemma StepOrigin(p: Program, world: World, s: Intro, e: Env, out: Env)
    requires s.edge < |p.joins| && s.source !in e && out in RawStep(p, world, s, e)
    ensures out - {s.source} == e
  {
    var matches := Filter((b: BaseRow) => OnRaw(p, world, s, e, b), RawRows(p, world, s.source));
    if p.joins[s.edge].joinType != Anti && matches != [] {
      var i :| 0 <= i < |matches| && out == Bind(e, s.source)(matches[i]);
    }
  }

  lemma {:induction false} ChainNoDup(p: Program, world: World, root: Key, order: seq<Intro>)
    requires JoinsAllowed(p) && ValidFamilies(p) && ValidWorld(world) && LegalPrefix(p, root, order)
             && EdgesKnown(p, order)
    ensures NoDup(RawChain(p, world, root, order))
    decreases |order|
  {
    hide LegalStep, RawStep, RawRows, ValidFamilies, ValidWorld;
    if order == [] {
      RawRowsNoDup(p, world, root);
      BindInjective(map[], root, RawRows(p, world, root));
    } else {
      var n := |order| - 1;
      var s := order[n];
      LegalPrefixShorter(p, root, order);
      StepFacts(p, Reached({root}, order[..n]), s);
      var before := RawChain(p, world, root, order[..n]);
      var step := (d: Env) => RawStep(p, world, s, d);
      ChainNoDup(p, world, root, order[..n]);
      forall d | d in before ensures s.source !in d && NoDup(step(d)) {
        RawChainBound(p, world, root, order[..n], d);
        StepNoDup(p, world, s, d);
      }
      forall d, q, out | d in before && q in before && out in step(d) && out in step(q) ensures d == q {
        StepOrigin(p, world, s, d, out);
        StepOrigin(p, world, s, q, out);
      }
      NoDupFlatMap(step, before);
    }
  }

  // ----- every legal order computes the answers -----

  ghost predicate ValidRoot(p: Program, root: Key) {
    root in SourcesOf(p) && root !in DirectedRights(p)
  }

  lemma LegalOrderIsPrefix(p: Program, root: Key, order: seq<Intro>)
    requires ValidRoot(p, root) && LegalOrder(EdgesOf(p), SourcesOf(p), root, order)
    ensures LegalPrefix(p, root, order) && EdgesKnown(p, order) && Reached({root}, order) == SourcesOf(p)
  {
    LegalEdgesKnown(p, root, order);
  }

  lemma AllJoinsHold(p: Program, world: World, root: Key, order: seq<Intro>, e: Env)
    requires LegalOrder(EdgesOf(p), SourcesOf(p), root, order) && EdgesKnown(p, order)
    ensures AllHold(p, world, order, e) <==> (forall j :: j in p.joins ==> JoinHolds(p, world, j, e))
  {
    hide LegalStep, JoinHolds;
    if AllHold(p, world, order, e) {
      forall j | j in p.joins ensures JoinHolds(p, world, j, e) {
        var i :| 0 <= i < |p.joins| && p.joins[i] == j;
        assert Uses(order, i);
        var k :| 0 <= k < |order| && order[k].edge == i;
        assert order[k] in order;
      }
    }
  }

  /** The plain reading in any legal order returns every answer exactly once, and nothing else. */
  lemma ReferenceIsAnswers(p: Program, world: World, root: Key, order: seq<Intro>)
    requires ValidProgram(p) && ValidWorld(world) && ValidRoot(p, root)
    requires LegalOrder(EdgesOf(p), SourcesOf(p), root, order)
    ensures EdgesKnown(p, order)
    ensures NoDup(Reference(p, world, root, order))
    ensures forall e :: e in Reference(p, world, root, order) <==> IsAnswer(p, world, e)
  {
    hide LegalStep, JoinHolds, WhereRaw, FromStore, WellBound, LegalPrefix, LegalOrder;
    LegalOrderIsPrefix(p, root, order);
    ChainNoDup(p, world, root, order);
    NoDupFilter((e: Env) => WhereRaw(p, world, e), RawChain(p, world, root, order));
    forall e: Env ensures e in Reference(p, world, root, order) <==> IsAnswer(p, world, e) {
      ChainMembers(p, world, root, order, e);
      AllJoinsHold(p, world, root, order, e);
    }
  }

  /** Two legal orders, from any two roots, give the same bag of environments. */
  lemma OrderDoesNotMatter(p: Program, world: World, root: Key, order: seq<Intro>, root': Key, order': seq<Intro>)
    requires ValidProgram(p) && ValidWorld(world) && ValidRoot(p, root) && ValidRoot(p, root')
    requires LegalOrder(EdgesOf(p), SourcesOf(p), root, order) && LegalOrder(EdgesOf(p), SourcesOf(p), root', order')
    ensures EdgesKnown(p, order) && EdgesKnown(p, order')
    ensures multiset(Reference(p, world, root, order)) == multiset(Reference(p, world, root', order'))
  {
    ReferenceIsAnswers(p, world, root, order);
    ReferenceIsAnswers(p, world, root', order');
    NoDupSameBag(Reference(p, world, root, order), Reference(p, world, root', order'));
  }

  // ----- periods -----

  /** The store without rows outside their own table's decided period. */
  function InPeriodOnly(p: Program, world: World): World {
    World(map o | o in world.tables :: Filter((b: BaseRow) => InPeriod(p, world, b), world.tables[o]), world.literal)
  }

  lemma PeriodSame(p: Program, world: World, b: BaseRow)
    ensures InPeriod(p, InPeriodOnly(p, world), b) == InPeriod(p, world, b)
  {
  }

  lemma StoredInPeriod(p: Program, world: World, o: Ref)
    ensures Stored(InPeriodOnly(p, world), o) == Filter((b: BaseRow) => InPeriod(p, world, b), Stored(world, o))
  {
  }

  lemma {:induction false} RowsInPeriod(p: Program, world: World, members: seq<Ref>)
    ensures FlatMap((m: Ref) => Stored(InPeriodOnly(p, world), m), members)
         == Filter((b: BaseRow) => InPeriod(p, world, b), FlatMap((m: Ref) => Stored(world, m), members))
  {
    if members != [] {
      StoredInPeriod(p, world, members[0]);
      RowsInPeriod(p, world, members[1..]);
      FilterConcat((b: BaseRow) => InPeriod(p, world,
                                            b), Stored(world, members[0]),
                                                FlatMap((m: Ref) => Stored(world, m), members[1..]));
    }
  }

  lemma RawRowsInPeriod(p: Program, world: World, source: Key)
    ensures RawRows(p, InPeriodOnly(p, world), source)
            == Filter((b: BaseRow) => InPeriod(p, world, b), RawRows(p, world, source))
  {
    var members := MembersOf(p.families, source);
    if members.Some? {
      RowsInPeriod(p, world, members.value);
    } else {
      StoredInPeriod(p, world, source);
    }
  }

  lemma PushedRowsInPeriod(p: Program, world: World, source: Key)
    ensures PushedRows(p, InPeriodOnly(p, world), source)
         == Filter((b: BaseRow) => InPeriod(p, world, b) && ScanKeeps(p, world, source, b), RawRows(p, world, source))
  {
    var small := InPeriodOnly(p, world);
    var keeps := (b: BaseRow) => ScanKeeps(p, small, source, b);
    var inside := (b: BaseRow) => InPeriod(p, world, b);
    RawRowsInPeriod(p, world, source);
    forall b | b in RawRows(p, world, source) ensures keeps(b) == ScanKeeps(p, world, source, b) {
      PeriodSame(p, world, b);
    }
    FilterFilter(inside, keeps, (b: BaseRow) => InPeriod(p, world,
                                                         b) && ScanKeeps(p, world, source, b),
                                                             RawRows(p, world, source));
  }

  /** Every stored row that reaches a joined row, or blocks one, is in period: removing all other
      rows from the store changes nothing. */
  lemma {:induction false} ChainIgnoresOtherPeriods(p: Program, world: World, root: Key, order: seq<Intro>)
    requires LegalPrefix(p, root, order) && EdgesKnown(p, order)
    ensures PushedChain(p, InPeriodOnly(p, world), root, order) == PushedChain(p, world, root, order)
    decreases |order|
  {
    var small := InPeriodOnly(p, world);
    if order == [] {
      PushedRowsInPeriod(p, world, root);
      FilterCong((b: BaseRow) => InPeriod(p, world, b) && ScanKeeps(p, world, root, b),
                 (b: BaseRow) => ScanKeeps(p, world, root, b), RawRows(p, world, root));
    } else {
      hide LegalStep, PushedStep, LegalPrefix;
      var n := |order| - 1;
      var s := order[n];
      LegalPrefixShorter(p, root, order);
      ChainIgnoresOtherPeriods(p, world, root, order[..n]);
      var before := PushedChain(p, world, root, order[..n]);
      forall e | e in before ensures PushedStep(p, small, s, e) == PushedStep(p, world, s, e) {
        StepIgnoresOtherPeriods(p, world, Reached({root}, order[..n]), s, e);
      }
      FlatMapCong((e: Env) => PushedStep(p, small, s, e), (e: Env) => PushedStep(p, world, s, e), before);
    }
  }

  lemma StepIgnoresOtherPeriods(p: Program, world: World, visited: set<Key>, s: Intro, e: Env)
    requires LegalStep(EdgesOf(p), SourcesOf(p), visited, s) && s.edge < |p.joins|
    ensures PushedStep(p, InPeriodOnly(p, world), s, e) == PushedStep(p, world, s, e)
  {
    StepFacts(p, visited, s);
    var small := InPeriodOnly(p, world);
    var raw := RawRows(p, world, s.source);
    var scan := (b: BaseRow) => ScanKeeps(p, world, s.source, b);
    var insideScan := (b: BaseRow) => InPeriod(p, world, b) && ScanKeeps(p, world, s.source, b);
    var on := (b: BaseRow) => OnPushed(p, world, s, e, b);
    var onSmall := (b: BaseRow) => OnPushed(p, small, s, e, b);
    var all := (b: BaseRow) => ScanKeeps(p, world, s.source, b) && OnPushed(p, world, s, e, b);
    PushedRowsInPeriod(p, world, s.source);
    forall b | b in raw ensures (insideScan(b) && onSmall(b)) == all(b) {
      PeriodSame(p, world, b);
    }
    FilterFilter(insideScan, onSmall, all, raw);
    FilterFilter(scan, on, all, raw);
  }
}
