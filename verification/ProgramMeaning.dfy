/** What a validated program asks for, independently of any compiler: environments binding each
    logical source to a stored row, the plain join-then-filter reading, the pushed-down reading,
    and a declarative set of answers that mentions neither root nor join order. */
module ProgramMeaning {
  import opened SeqOps
  import opened Sql
  import opened RelationalPlan
  import opened JoinOrder
  import opened InferredProgram

  /** One joined row: every visited, not excluded source with its stored row, or None when padded. */
  type Env = map<Key, Option<BaseRow>>

  // ----- values, predicates and rows -----

  function FieldValue(p: Program, e: Env, f: Field): Value {
    var k := KeyOf(p, f.owner);
    if k in e && e[k].Some? then Cell(e[k].value.cells, Physical(f.physical)) else Null
  }

  function FieldLook(p: Program, e: Env): Field -> Operand {
    (f: Field) => Operand(FieldValue(p, e, f), f.dtype)
  }

  predicate HoldsOn(p: Program, world: World, pred: Pred<Field>, e: Env) {
    Eval(pred, FieldLook(p, e), world.literal) == True
  }

  function Alone(p: Program, b: BaseRow): Env {
    map[KeyOf(p, b.table) := Some(b)]
  }

  /** The stored row lies in the period decided for its own table. */
  predicate InPeriod(p: Program, world: World, b: BaseRow) {
    forall d :: d in p.decisions && d.owner == b.table ==> HoldsOn(p, world, TemporalPred(d), Alone(p, b))
  }

  function MembersOf(families: seq<Family>, source: Key): Option<seq<Ref>> {
    if families == [] then None
    else if families[0].ref == source then Some(families[0].members)
    else MembersOf(families[1..], source)
  }

  /** Stored rows of a logical source; a family's rows are those of its members in order. */
  function RawRows(p: Program, world: World, source: Key): seq<BaseRow> {
    var members := MembersOf(p.families, source);
    if members.Some? then FlatMap((m: Ref) => Stored(world, m), members.value) else Stored(world, source)
  }

  // ----- classification of filters -----

  /** A filter evaluated inside ON: match scope on the right side of a LEFT or anti join. */
  predicate IsOnFilter(p: Program, item: FilterSpec) {
    item.scope == MatchScope && exists s :: s in DirectedRights(p) && FilterSources(p, item) == {s}
  }

  predicate IsScanFilter(p: Program, item: FilterSpec, source: Key) {
    FilterSources(p, item) == {source} && source !in DirectedRights(p)
  }

  predicate IsPostFilter(p: Program, item: FilterSpec) {
    item.scope == WhereScope && (FilterSources(p, item) * DirectedRights(p) != {} || |FilterSources(p, item)| > 1)
  }

  // ----- joining raw sources -----

  function OldField(p: Program, s: Intro): Field
    requires s.edge < |p.joins|
  {
    if s.flipped then p.joins[s.edge].right else p.joins[s.edge].left
  }

  function NewField(p: Program, s: Intro): Field
    requires s.edge < |p.joins|
  {
    if s.flipped then p.joins[s.edge].left else p.joins[s.edge].right
  }

  predicate KeysMatch(p: Program, s: Intro, e: Env, b: BaseRow)
    requires s.edge < |p.joins|
  {
    Compare(EQ, FieldValue(p, e, OldField(p, s)), Cell(b.cells, Physical(NewField(p, s).physical))) == True
  }

  predicate OnFiltersHold(p: Program, world: World, source: Key, b: BaseRow) {
    forall item :: item in p.filters && item.scope == MatchScope && FilterSources(p, item) == {source} ==>
      HoldsOn(p, world, item.pred, map[source := Some(b)])
  }

  /** ON of the plain reading: the key, and for a LEFT or anti join its match filters and period. */
  predicate OnRaw(p: Program, world: World, s: Intro, e: Env, b: BaseRow)
    requires s.edge < |p.joins|
  {
    && KeysMatch(p, s, e, b)
    && (p.joins[s.edge].joinType != Inner ==> OnFiltersHold(p, world, s.source, b) && InPeriod(p, world, b))
  }

  function Bind(e: Env, source: Key): BaseRow -> Env {
    (b: BaseRow) => e[source := Some(b)]
  }

  function JoinWith(joinType: JoinType, source: Key, e: Env, matches: seq<BaseRow>): seq<Env> {
    match joinType
    case Inner => Map(Bind(e, source), matches)
    case LeftOuter => if matches == [] then [e[source := None]] else Map(Bind(e, source), matches)
    case Anti => if matches == [] then [e] else []
  }

  predicate EdgesKnown(p: Program, order: seq<Intro>) {
    forall s :: s in order ==> s.edge < |p.joins|
  }

  function RawStep(p: Program, world: World, s: Intro, e: Env): seq<Env>
    requires s.edge < |p.joins|
  {
    JoinWith(p.joins[s.edge].joinType, s.source, e,
             Filter((b: BaseRow) => OnRaw(p, world, s, e, b), RawRows(p, world, s.source)))
  }

  function StartEnvs(root: Key, rows: seq<BaseRow>): seq<Env> {
    Map(Bind(map[], root), rows)
  }

  function RawChain(p: Program, world: World, root: Key, order: seq<Intro>): seq<Env>
    requires EdgesKnown(p, order)
  {
    if order == [] then StartEnvs(root, RawRows(p, world, root))
    else
      var s := order[|order| - 1];
      assert s in order;
      FlatMap((e: Env) => RawStep(p, world, s, e), RawChain(p, world, root, order[..|order| - 1]))
  }

  predicate PeriodsHold(p: Program, world: World, e: Env) {
    forall s :: s in e.Keys && s !in DirectedRights(p) && e[s].Some? ==> InPeriod(p, world, e[s].value)
  }

  /** WHERE of the plain reading: every filter that is not in ON, and the other periods. */
  predicate WhereRaw(p: Program, world: World, e: Env) {
    && (forall item :: item in p.filters && !IsOnFilter(p, item) ==> HoldsOn(p, world, item.pred, e))
    && PeriodsHold(p, world, e)
  }

  /** The plain reading: join raw sources in the given order, then filter. */
  function Reference(p: Program, world: World, root: Key, order: seq<Intro>): seq<Env>
    requires EdgesKnown(p, order)
  {
    Filter((e: Env) => WhereRaw(p, world, e), RawChain(p, world, root, order))
  }

  // ----- joining filtered sources -----

  predicate IsFamily(p: Program, source: Key) {
    source in FamilyRefs(p.families)
  }

  /** Filters and period that are applied before any join. */
  predicate ScanKeeps(p: Program, world: World, source: Key, b: BaseRow) {
    && (forall item :: item in p.filters && IsScanFilter(p, item, source) ==>
          HoldsOn(p, world, item.pred, map[source := Some(b)]))
    && (source !in DirectedRights(p) || IsFamily(p, source) ==> InPeriod(p, world, b))
  }

  function PushedRows(p: Program, world: World, source: Key): seq<BaseRow> {
    Filter((b: BaseRow) => ScanKeeps(p, world, source, b), RawRows(p, world, source))
  }

  predicate OnPushed(p: Program, world: World, s: Intro, e: Env, b: BaseRow)
    requires s.edge < |p.joins|
  {
    && KeysMatch(p, s, e, b)
    && (p.joins[s.edge].joinType != Inner ==>
          && OnFiltersHold(p, world, s.source, b)
          && (!IsFamily(p, s.source) ==> InPeriod(p, world, b)))
  }

  function PushedStep(p: Program, world: World, s: Intro, e: Env): seq<Env>
    requires s.edge < |p.joins|
  {
    JoinWith(p.joins[s.edge].joinType, s.source, e,
             Filter((b: BaseRow) => OnPushed(p, world, s, e, b), PushedRows(p, world, s.source)))
  }

  function PushedChain(p: Program, world: World, root: Key, order: seq<Intro>): seq<Env>
    requires EdgesKnown(p, order)
  {
    if order == [] then StartEnvs(root, PushedRows(p, world, root))
    else
      var s := order[|order| - 1];
      assert s in order;
      FlatMap((e: Env) => PushedStep(p, world, s, e), PushedChain(p, world, root, order[..|order| - 1]))
  }

  predicate PostKeeps(p: Program, world: World, e: Env) {
    forall item :: item in p.filters && IsPostFilter(p, item) ==> HoldsOn(p, world, item.pred, e)
  }

  function Pushed(p: Program, world: World, root: Key, order: seq<Intro>): seq<Env>
    requires EdgesKnown(p, order)
  {
    Filter((e: Env) => PostKeeps(p, world, e), PushedChain(p, world, root, order))
  }

  // ----- frames -----

  lemma SameLookHoldsSame(p: Program, world: World, pred: Pred<Field>, e: Env, d: Env)
    requires forall f :: f in Leaves(pred) ==> FieldValue(p, e, f) == FieldValue(p, d, f)
    ensures HoldsOn(p, world, pred, e) == HoldsOn(p, world, pred, d)
  {
    RenameKeepsTruth(pred, (f: Field) => f, FieldLook(p, e), FieldLook(p, e), world.literal);
    RenameKeepsTruth(pred, (f: Field) => f, FieldLook(p, e), FieldLook(p, d), world.literal);
  }

  lemma HoldsOnAlone(p: Program, world: World, item: FilterSpec, s: Key, e: Env)
    requires FilterSources(p, item) == {s} && s in e && e[s].Some?
    ensures HoldsOn(p, world, item.pred, e) == HoldsOn(p, world, item.pred, map[s := e[s]])
  {
    forall f | f in Leaves(item.pred) ensures FieldValue(p, e, f) == FieldValue(p, map[s := e[s]], f) {
      assert KeyOf(p, f.owner) in FilterSources(p, item);
    }
    SameLookHoldsSame(p, world, item.pred, e, map[s := e[s]]);
  }

  // ----- the two readings agree -----

  /** Sources are present exactly when visited and not excluded; preserved sources are never padded. */
  predicate WellBound(p: Program, e: Env, visited: set<Key>) {
    && e.Keys == visited - AntiRights(p)
    && forall s :: s in e.Keys && s !in DirectedRights(p) ==> e[s].Some?
  }

  lemma AntiIsDirected(p: Program)
    ensures AntiRights(p) <= DirectedRights(p)
  {
    forall k | k in AntiRights(p) ensures k in DirectedRights(p) {
      var j :| j in p.joins && j.joinType == Anti && KeyOf(p, j.right.owner) == k;
      EdgeInEdges(p, j);
    }
  }

  lemma EdgeInEdges(p: Program, j: JoinSpec)
    requires j in p.joins
    ensures EdgeOf(p, j) in EdgesOf(p)
  {
    var i :| 0 <= i < |p.joins| && p.joins[i] == j;
    assert EdgesOf(p)[i] == EdgeOf(p, j);
  }

  /** What a legal introduction says of its join. */
  lemma StepFacts(p: Program, visited: set<Key>, s: Intro)
    requires LegalStep(EdgesOf(p), SourcesOf(p), visited, s)
    ensures s.edge < |p.joins| && s.source !in visited && s.source in SourcesOf(p)
    ensures KeyOf(p, NewField(p, s).owner) == s.source && KeyOf(p, OldField(p, s).owner) in visited
    ensures p.joins[s.edge].joinType == Inner <==> s.source !in DirectedRights(p)
    ensures p.joins[s.edge].joinType != Inner ==> !s.flipped
    ensures p.joins[s.edge].joinType == Anti ==> s.source in AntiRights(p)
  {
    var j := p.joins[s.edge];
    assert EdgesOf(p)[s.edge] == EdgeOf(p, j);
    EdgeInEdges(p, j);
  }

  /** A source that only a LEFT join introduces is not excluded. */
  lemma LeftIsNotAnti(p: Program, s: Intro)
    requires JoinsAllowed(p) && s.edge < |p.joins| && p.joins[s.edge].joinType == LeftOuter
    requires KeyOf(p, p.joins[s.edge].right.owner) == s.source
    ensures s.source !in AntiRights(p)
  {
    if s.source in AntiRights(p) {
      var j :| j in p.joins && j.joinType == Anti && KeyOf(p, j.right.owner) == s.source;
      var i :| 0 <= i < |p.joins| && p.joins[i] == j;
      assert JoinAllowed(p, i);
      assert TakesPart(p, s.edge, s.source);
      assert false;
    }
  }

  lemma StepIsBound(p: Program, visited: set<Key>, s: Intro, e: Env, matches: seq<BaseRow>, out: Env)
    requires JoinsAllowed(p) && LegalStep(EdgesOf(p), SourcesOf(p), visited, s) && WellBound(p, e, visited)
    requires s.edge < |p.joins| && out in JoinWith(p.joins[s.edge].joinType, s.source, e, matches)
    ensures WellBound(p, out, visited + {s.source})
  {
    StepFacts(p, visited, s);
    AntiIsDirected(p);
    match p.joins[s.edge].joinType
    case Inner =>
      var i :| 0 <= i < |matches| && out == e[s.source := Some(matches[i])];
    case LeftOuter =>
      LeftIsNotAnti(p, s);
      if matches != [] {
        var i :| 0 <= i < |matches| && out == e[s.source := Some(matches[i])];
      }
    case Anti =>
  }

  ghost predicate LegalPrefix(p: Program, root: Key, order: seq<Intro>) {
    && root in SourcesOf(p) && root !in DirectedRights(p)
    && forall k :: 0 <= k < |order| ==> LegalStep(EdgesOf(p), SourcesOf(p), Reached({root}, order[..k]), order[k])
  }

  lemma LegalPrefixShorter(p: Program, root: Key, order: seq<Intro>)
    requires LegalPrefix(p, root, order) && order != []
    ensures LegalPrefix(p, root, order[..|order| - 1])
    ensures LegalStep(EdgesOf(p), SourcesOf(p), Reached({root}, order[..|order| - 1]), order[|order| - 1])
    ensures Reached({root}, order) == Reached({root}, order[..|order| - 1]) + {order[|order| - 1].source}
  {
    var n := |order| - 1;
    forall k | 0 <= k < n ensures order[..n][..k] == order[..k] && order[..n][k] == order[k] {
    }
    assert order == order[..n] + [order[n]];
  }

  lemma {:induction false} LegalEdgesKnown(p: Program, root: Key, order: seq<Intro>)
    requires LegalPrefix(p, root, order)
    ensures EdgesKnown(p, order)
  {
    forall s | s in order ensures s.edge < |p.joins| {
      var k :| 0 <= k < |order| && order[k] == s;
      StepFacts(p, Reached({root}, order[..k]), s);
    }
  }

  lemma {:induction false} RawChainBound(p: Program, world: World, root: Key, order: seq<Intro>, e: Env)
    requires JoinsAllowed(p) && LegalPrefix(p, root, order) && EdgesKnown(p, order)
    requires e in RawChain(p, world, root, order)
    ensures WellBound(p, e, Reached({root}, order))
    decreases |order|
  {
    hide LegalStep, RawRows, OnRaw;
    if order == [] {
      AntiIsDirected(p);
      var rows := RawRows(p, world, root);
      var i :| 0 <= i < |rows| && e == map[root := Some(rows[i])];
    } else {
      var n := |order| - 1;
      var s := order[n];
      LegalPrefixShorter(p, root, order);
      FlatMapMember((d: Env) => RawStep(p, world, s, d), RawChain(p, world, root, order[..n]), e);
      var d :| d in RawChain(p, world, root, order[..n]) && e in RawStep(p, world, s, d);
      RawChainBound(p, world, root, order[..n], d);
      StepIsBound(p, Reached({root}, order[..n]), s, d,
                  Filter((b: BaseRow) => OnRaw(p, world, s, d, b), RawRows(p, world, s.source)), e);
    }
  }

  /** Everything that filtered scans promise about a joined row. */
  predicate ScansKeep(p: Program, world: World, e: Env) {
    forall s :: s in e.Keys && s !in DirectedRights(p) && e[s].Some? ==> ScanKeeps(p, world, s, e[s].value)
  }

  lemma StartPushed(p: Program, world: World, root: Key)
    requires root !in DirectedRights(p)
    ensures StartEnvs(root, PushedRows(p, world, root))
         == Filter((e: Env) => ScansKeep(p, world, e), StartEnvs(root, RawRows(p, world, root)))
  {
    forall b | b in RawRows(p, world, root)
      ensures ScanKeeps(p, world, root, b) == ScansKeep(p, world, Bind(map[], root)(b)) {
      var e: Env := Bind(map[], root)(b);
      assert root in e.Keys;
    }
    FilterMap((e: Env) => ScansKeep(p, world,
                                    e), Bind(map[], root), (b: BaseRow) => ScanKeeps(p, world, root, b), RawRows(p,
                                        world, root));
  }

  lemma ScansKeepExtended(p: Program, world: World, e: Env, s: Key, b: Option<BaseRow>)
    requires s !in e
    ensures ScansKeep(p, world, e[s := b])
        <==> ScansKeep(p, world, e) && (s !in DirectedRights(p) && b.Some? ==> ScanKeeps(p, world, s, b.value))
  {
    var d := e[s := b];
    if ScansKeep(p, world, d) {
      forall t | t in e.Keys && t !in DirectedRights(p) && e[t].Some? ensures ScanKeeps(p, world, t, e[t].value) {
        assert t in d.Keys && d[t] == e[t];
      }
      assert s in d.Keys;
    }
  }

  // Rows of the new source that both the scan and ON keep.
  function ScannedOn(p: Program, world: World, s: Intro, e: Env): BaseRow -> bool
    requires s.edge < |p.joins|
  {
    (b: BaseRow) => ScanKeeps(p, world, s.source, b) && OnPushed(p, world, s, e, b)
  }

  lemma PushedMatches(p: Program, world: World, s: Intro, e: Env)
    requires s.edge < |p.joins|
    ensures Filter((b: BaseRow) => OnPushed(p, world, s, e, b), PushedRows(p, world, s.source))
         == Filter(ScannedOn(p, world, s, e), RawRows(p, world, s.source))
  {
    hide ScanKeeps, OnPushed, RawRows;
    FilterFilter((b: BaseRow) => ScanKeeps(p, world, s.source, b), (b: BaseRow) => OnPushed(p, world, s, e, b),
                 ScannedOn(p, world, s, e), RawRows(p, world, s.source));
  }

  // One joined row: filtering after the plain step is the pushed step on filtered rows.
  lemma StepPushes(p: Program, world: World, visited: set<Key>, s: Intro, e: Env)
    requires LegalStep(EdgesOf(p), SourcesOf(p), visited, s) && s.edge < |p.joins| && WellBound(p, e, visited)
    ensures Filter((d: Env) => ScansKeep(p, world, d), RawStep(p, world, s, e))
         == if ScansKeep(p, world, e) then PushedStep(p, world, s, e) else []
  {
    hide LegalStep, EdgesOf, SourcesOf, DirectedRights, ScansKeep, PushedStep, RawStep, AntiRights;
    StepFacts(p, visited, s);
    if p.joins[s.edge].joinType == Inner {
      InnerStepPushes(p, world, s, e);
    } else {
      DirectedStepPushes(p, world, s, e);
    }
  }

  lemma InnerStepPushes(p: Program, world: World, s: Intro, e: Env)
    requires s.edge < |p.joins| && p.joins[s.edge].joinType == Inner && s.source !in DirectedRights(p) && s.source !in e
    ensures Filter((d: Env) => ScansKeep(p, world, d), RawStep(p, world, s, e))
         == if ScansKeep(p, world, e) then PushedStep(p, world, s, e) else []
  {
    hide ScanKeeps, RawRows, KeysMatch, DirectedRights, ScansKeep;
    var keep := (d: Env) => ScansKeep(p, world, d);
    var raw := RawRows(p, world, s.source);
    var onRaw := (b: BaseRow) => OnRaw(p, world, s, e, b);
    var extend := Bind(e, s.source);
    var kept := (b: BaseRow) => ScansKeep(p, world, e) && ScanKeeps(p, world, s.source, b);
    var all := (b: BaseRow) => OnRaw(p, world, s, e, b) && kept(b);
    PushedMatches(p, world, s, e);
    forall b | b in Filter(onRaw, raw) ensures kept(b) == keep(extend(b)) {
      ScansKeepExtended(p, world, e, s.source, Some(b));
    }
    FilterMap(keep, extend, kept, Filter(onRaw, raw));
    FilterFilter(onRaw, kept, all, raw);
    if ScansKeep(p, world, e) {
      FilterCong(all, ScannedOn(p, world, s, e), raw);
    } else {
      FilterNone(all, raw);
    }
  }

  lemma DirectedStepPushes(p: Program, world: World, s: Intro, e: Env)
    requires s.edge < |p.joins| && p.joins[s.edge].joinType != Inner && s.source in DirectedRights(p) && s.source !in e
    ensures Filter((d: Env) => ScansKeep(p, world, d), RawStep(p, world, s, e))
         == if ScansKeep(p, world, e) then PushedStep(p, world, s, e) else []
  {
    hide RawRows, KeysMatch, OnFiltersHold, InPeriod, DirectedRights, ScansKeep, ScanKeeps, JoinWith;
    var keep := (d: Env) => ScansKeep(p, world, d);
    var raw := RawRows(p, world, s.source);
    var onRaw := (b: BaseRow) => OnRaw(p, world, s, e, b);
    forall b | b in raw ensures ScannedOn(p, world, s, e)(b) == onRaw(b) {
      ScanOfDirected(p, world, s.source, b);
    }
    FilterCong(ScannedOn(p, world, s, e), onRaw, raw);
    PushedMatches(p, world, s, e);
    var out := RawStep(p, world, s, e);
    assert out == PushedStep(p, world, s, e);
    forall d | d in out ensures keep(d) == ScansKeep(p, world, e) {
      DirectedStepKeeps(p, world, s, e, Filter(onRaw, raw), d);
    }
    if ScansKeep(p, world, e) {
      FilterAll(keep, out);
    } else {
      FilterNone(keep, out);
    }
  }

  lemma ScanOfDirected(p: Program, world: World, s: Key, b: BaseRow)
    requires s in DirectedRights(p)
    ensures ScanKeeps(p, world, s, b) <==> (IsFamily(p, s) ==> InPeriod(p, world, b))
  {
  }

  lemma DirectedStepKeeps(p: Program, world: World, s: Intro, e: Env, matches: seq<BaseRow>, d: Env)
    requires s.edge < |p.joins| && p.joins[s.edge].joinType != Inner && s.source in DirectedRights(p) && s.source !in e
    requires d in JoinWith(p.joins[s.edge].joinType, s.source, e, matches)
    ensures ScansKeep(p, world, d) == ScansKeep(p, world, e)
  {
    if p.joins[s.edge].joinType == LeftOuter {
      if matches == [] {
        ScansKeepExtended(p, world, e, s.source, None);
      } else {
        var i :| 0 <= i < |matches| && d == e[s.source := Some(matches[i])];
        ScansKeepExtended(p, world, e, s.source, Some(matches[i]));
      }
    }
  }

  lemma {:induction false} ChainPushes(p: Program, world: World, root: Key, order: seq<Intro>)
    requires JoinsAllowed(p) && LegalPrefix(p, root, order) && EdgesKnown(p, order)
    ensures PushedChain(p, world, root, order)
            == Filter((e: Env) => ScansKeep(p, world, e), RawChain(p, world, root, order))
    decreases |order|
  {
    hide LegalStep, RawRows, ScansKeep, PushedStep, RawStep, StartEnvs;
    var keep := (e: Env) => ScansKeep(p, world, e);
    if order == [] {
      StartPushed(p, world, root);
    } else {
      var n := |order| - 1;
      var s := order[n];
      LegalPrefixShorter(p, root, order);
      ChainPushes(p, world, root, order[..n]);
      var raw := (e: Env) => RawStep(p, world, s, e);
      var pushed := (e: Env) => PushedStep(p, world, s, e);
      var before := RawChain(p, world, root, order[..n]);
      forall e | e in before ensures Filter(keep, raw(e)) == if keep(e) then pushed(e) else [] {
        RawChainBound(p, world, root, order[..n], e);
        StepPushes(p, world, Reached({root}, order[..n]), s, e);
      }
      FilterFlatMap(keep, raw, keep, pushed, before);
    }
  }

  // A filter that is neither in ON nor after the joins is at the scan of a preserved source.
  lemma FilterPlacement(p: Program, item: FilterSpec)
    requires ValidFilters(p) && item in p.filters && !IsOnFilter(p, item) && !IsPostFilter(p, item)
    ensures exists s :: IsScanFilter(p, item, s) && exists f :: f in Leaves(item.pred) && KeyOf(p, f.owner) == s
  {
    OneSourceIsSingleton(p, item);
    var f := Leaves(item.pred)[0];
    var s := KeyOf(p, f.owner);
    assert f in Leaves(item.pred) && s in FilterSources(p, item);
    if item.scope == MatchScope {
      assert IsScanFilter(p, item, s);
    } else {
      assert |FilterSources(p, item)| <= 1;
      forall t | t in FilterSources(p, item) ensures t == s {
        OnlyMember(FilterSources(p, item), t, s);
      }
      assert FilterSources(p, item) == {s};
      assert s !in FilterSources(p, item) * DirectedRights(p);
      assert IsScanFilter(p, item, s);
    }
  }

  lemma WhereSplits(p: Program, world: World, e: Env)
    requires ValidCatalog(p.objects) && ValidFilters(p) && FieldsKnown(p) && WellBound(p, e, SourcesOf(p))
    ensures WhereRaw(p, world, e) <==> ScansKeep(p, world, e) && PostKeeps(p, world, e)
  {
    AntiIsDirected(p);
    if WhereRaw(p, world, e) {
      forall s | s in e.Keys && s !in DirectedRights(p) && e[s].Some? ensures ScanKeeps(p, world, s, e[s].value) {
        forall item | item in p.filters && IsScanFilter(p, item, s)
            ensures HoldsOn(p, world, item.pred, map[s := Some(e[s].value)]) {
          assert s in FilterSources(p, item);
          assert !IsOnFilter(p, item);
          HoldsOnAlone(p, world, item, s, e);
          assert map[s := Some(e[s].value)] == map[s := e[s]];
        }
      }
    }
    if ScansKeep(p, world, e) && PostKeeps(p, world, e) {
      forall item | item in p.filters && !IsOnFilter(p, item) ensures HoldsOn(p, world, item.pred, e) {
        if !IsPostFilter(p, item) {
          FilterPlacement(p, item);
          var s :| IsScanFilter(p, item, s) && exists f :: f in Leaves(item.pred) && KeyOf(p, f.owner) == s;
          var f :| f in Leaves(item.pred) && KeyOf(p, f.owner) == s;
          FieldKeyIsSource(p, f);
          assert s in e.Keys && e[s].Some?;
          HoldsOnAlone(p, world, item, s, e);
          assert map[s := Some(e[s].value)] == map[s := e[s]];
        }
      }
      forall s | s in e.Keys && s !in DirectedRights(p) && e[s].Some? ensures InPeriod(p, world, e[s].value) {
        assert ScanKeeps(p, world, s, e[s].value);
      }
    }
  }

  /** Predicate pushdown preserves meaning: filtering scans and ON clauses, and only the rest at the
      end, gives the same rows in the same order as joining raw sources and filtering at the end. */
  lemma PushdownPreservesMeaning(p: Program, world: World, root: Key, order: seq<Intro>)
    requires ValidProgram(p) && LegalPrefix(p, root, order) && Reached({root}, order) == SourcesOf(p)
    ensures EdgesKnown(p, order)
    ensures Pushed(p, world, root, order) == Reference(p, world, root, order)
  {
    LegalEdgesKnown(p, root, order);
    ChainPushes(p, world, root, order);
    var raw := RawChain(p, world, root, order);
    forall e | e in raw ensures WhereRaw(p, world, e) == (ScansKeep(p, world, e) && PostKeeps(p, world, e)) {
      RawChainBound(p, world, root, order, e);
      WhereSplits(p, world, e);
    }
    FilterFilter((e: Env) => ScansKeep(p, world,
                                       e), (e: Env) => PostKeeps(p, world, e), (e: Env) => WhereRaw(p, world, e), raw);
  }
}
