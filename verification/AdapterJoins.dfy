/** The join nodes of the adapter: each denotes the next step of the pushed-down reading. */
module AdapterJoins {
  import opened SeqOps
  import opened Sql
  import opened RelationalPlan
  import opened JoinOrder
  import opened InferredProgram
  import opened ProgramMeaning
  import opened ProgramAnswers
  import opened ColumnNaming
  import opened AdapterPlan
  import opened AdapterLayout
  import opened AdapterNodes

  // ----- stored rows of a source -----

  lemma RowOfSource(p: Program, world: World, source: Key, b: BaseRow)
    requires ValidProgram(p) && ValidWorld(world) && source in SourcesOf(p) && b in RawRows(p, world, source)
    ensures KeyOf(p, b.table) == source
    ensures !IsFamily(p, source) ==> b.table == source
  {
    hide FieldsKnown, ValidFilters, JoinsAllowed, ValidCatalog;
    MembersFound(p.families, source);
    var members := MembersOf(p.families, source);
    if members.Some? {
      FlatMapMember((m: Ref) => Stored(world, m), members.value, b);
      var m :| m in members.value && b in Stored(world, m);
      var f :| f in p.families && f.ref == source && f.members == members.value;
      MemberKey(p, f, m);
    } else {
      var o :| o in p.objects && FamilyOf(p.families, o.ref).None? && o.ref == source;
    }
  }

  lemma FamilyIsNoTable(p: Program, table: Ref)
    requires ValidProgram(p) && table in Refs(p.objects)
    ensures IsFamily(p, KeyOf(p, table)) <==> FamilyOf(p.families, table).Some?
  {
    hide FieldsKnown, ValidFilters, JoinsAllowed, ValidCatalog;
    FamilyOfSound(p.families, table);
  }

  lemma DecisionIsKnown(p: Program, d: Decision)
    requires ValidProgram(p) && d in p.decisions
    ensures d.owner in Refs(p.objects) && d.partition in FieldsOf(p) && d.partition.owner == d.owner
            && d.partition in Mentioned(p)
  {
    hide ValidFamilies, ValidFilters, JoinsAllowed;
    OwnerListed(p, d.partition);
  }

  lemma FilterIsKnown(p: Program, item: FilterSpec, f: Field)
    requires item in p.filters && f in Leaves(item.pred)
    ensures f in Mentioned(p) && KeyOf(p, f.owner) in FilterSources(p, item)
  {
  }

  /** In ON, the periods listed for a source are the period of a row of that source. */
  lemma OnPeriod(p: Program, world: World, source: Key, b: BaseRow)
    requires ValidProgram(p) && ValidWorld(world) && source in SourcesOf(p) && b in RawRows(p, world, source)
    ensures (forall d :: d in OnDecisions(p, source) ==> HoldsOn(p, world, TemporalPred(d), Bind(map[], source)(b)))
        <==> (!IsFamily(p, source) ==> InPeriod(p, world, b))
  {
    hide ValidProgram, HoldsOn, TemporalPred, RawRows;
    RowOfSource(p, world, source, b);
    assert Alone(p, b) == Bind(map[], source)(b);
    forall d | d in OnDecisions(p, source) ensures d.owner == source && !IsFamily(p, source) {
      DecisionIsKnown(p, d);
      FamilyIsNoTable(p, d.owner);
    }
    if !IsFamily(p, source) {
      forall d | d in p.decisions && d.owner == b.table ensures d in OnDecisions(p, source) {
        DecisionIsKnown(p, d);
        FamilyIsNoTable(p, d.owner);
      }
    }
  }

  // ----- ON -----

  lemma FiltersShaped(p: Program, names: Naming)
    requires ValidProgram(p) && GoodNaming(p, names)
    ensures forall item :: item in p.filters ==> WellShaped(item.pred)
    ensures Mentioned(p) <= names.Keys
  {
    hide ValidCatalog, ValidFamilies, FieldsKnown, JoinsAllowed, FieldsOf, Mentioned;
  }

  lemma OnIsReadable(p: Program, names: Naming, source: Key)
    requires ValidProgram(p) && GoodNaming(p, names)
    ensures Readable(p, names, {source}, OnFilters(p, source), OnDecisions(p, source))
  {
    hide ValidProgram, GoodNaming, FieldsOf, Mentioned, KeyOf, FilterSources, TemporalPred;
    FiltersShaped(p, names);
    forall item, f | item in OnFilters(p, source) && f in Leaves(item.pred)
        ensures f in names && KeyOf(p, f.owner) in {source} {
      FilterIsKnown(p, item, f);
    }
    forall d | d in OnDecisions(p, source) ensures d.partition in names && KeyOf(p, d.partition.owner) in {source} {
      DecisionIsKnown(p, d);
    }
  }

  lemma MatchIsPlaced(p: Program, names: Naming, joinType: JoinType, right: NodeId, source: Key)
    ensures joinType != Inner ==> MatchFilters(p, names, joinType, right,
                                               source) == Placed(names, right, OnFilters(p, source),
                                                   OnDecisions(p, source))
  {
  }

  lemma MatchFiltersOnRow(p: Program, names: Naming, layout: Layout, world: World, joinType: JoinType, right: NodeId,
          source: Key, b: BaseRow)
    requires Setting(p, names, layout, world) && source in SourcesOf(p) && b in RawRows(p, world, source)
    ensures AllTrue(MatchFilters(p, names, joinType, right, source), RowOf(layout, Bind(map[], source)(b)),
                    SchemaFor(layout, {source}), world)
        <==> (joinType != Inner ==> OnFiltersHold(p, world, source, b) && (!IsFamily(p, source) ==>
                                                                           InPeriod(p, world, b)))
  {
    hide ValidProgram, GoodNaming, IsLayout, ValidWorld, Placed, HoldsOn, RowOf, SchemaFor, TemporalPred, RawRows,
         InPeriod, IsFamily, AllTrue, Readable, FilterSources, OnDecisions;
    if joinType == Inner {
      NoneIsTrue(RowOf(layout, Bind(map[], source)(b)), SchemaFor(layout, {source}), world);
    } else {
      MatchIsPlaced(p, names, joinType, right, source);
      OnIsReadable(p, names, source);
      var e: Env := Bind(map[], source)(b);
      assert e.Keys == {source};
      PlacedOnRow(p, names, layout, world, right, OnFilters(p, source), OnDecisions(p, source), e);
      OnPeriod(p, world, source, b);
    }
  }

  lemma NoneIsTrue(row: Row, schema: Schema, world: World)
    ensures AllTrue([], row, schema, world)
  {
  }

  lemma JoinFieldsNamed(p: Program, names: Naming, s: Intro)
    requires ValidProgram(p) && GoodNaming(p, names) && s.edge < |p.joins|
    ensures OldField(p, s) in names && NewField(p, s) in names
            && OldField(p, s).dtype.group == NewField(p, s).dtype.group
  {
    hide ValidCatalog, ValidFamilies, ValidFilters, JoinsAllowed, FieldsOf, SlotOf, Asked, Mentioned;
    assert p.joins[s.edge] in p.joins;
    JoinMentioned(p, p.joins[s.edge]);
  }

  lemma JoinMentioned(p: Program, j: JoinSpec)
    requires j in p.joins
    ensures j.left in Mentioned(p) && j.right in Mentioned(p)
  {
  }

  lemma MatchesIsOn(p: Program, names: Naming, layout: Layout, world: World, node: Node, right: NodeId, s: Intro,
          e: Env, b: BaseRow)
    requires Setting(p, names, layout, world) && s.source in SourcesOf(p) && b in RawRows(p, world, s.source)
             && s.edge < |p.joins|
    requires KeyOf(p, NewField(p, s).owner) == s.source && KeyOf(p, OldField(p, s).owner) in e
    requires node.JoinNode? && node.matchFilters == MatchFilters(p, names, p.joins[s.edge].joinType, right, s.source)
    requires node.conditions == [JoinCondition(RefAt(names, node.left)(OldField(p, s)),
                                               RefAt(names, right)(NewField(p, s)))]
    ensures Matches(node, RowOf(layout, e), RowOf(layout, Bind(map[], s.source)(b)), SchemaFor(layout, {s.source}),
                    world)
         == OnPushed(p, world, s, e, b)
  {
    hide ValidProgram, GoodNaming, IsLayout, ValidWorld, HoldsOn, RowOf, SchemaFor, RawRows, InPeriod, IsFamily,
         AllTrue, MatchFilters, OnFiltersHold, KeyOf;
    JoinFieldsNamed(p, names, s);
    MatchFiltersOnRow(p, names, layout, world, p.joins[s.edge].joinType, right, s.source, b);
    FieldCell(p, names, layout, e, OldField(p, s));
    FieldCell(p, names, layout, Bind(map[], s.source)(b), NewField(p, s));
    BoundValue(p, s, b);
    var cond := node.conditions[0];
    assert cond in node.conditions;
    assert forall c :: c in node.conditions ==> c == cond;
  }

  lemma BoundValue(p: Program, s: Intro, b: BaseRow)
    requires s.edge < |p.joins| && KeyOf(p, NewField(p, s).owner) == s.source
    ensures FieldValue(p, Bind(map[], s.source)(b), NewField(p, s)) == Cell(b.cells, Physical(NewField(p, s).physical))
  {
  }

  // ----- output columns -----

  lemma KeptAt(left: NodeId, carried: seq<Column>, right: NodeId, added: seq<Column>, i: nat)
    requires i < |carried + added|
    ensures var derived := KeepColumns(left, carried) + KeepColumns(right, added);
            && |derived| == |carried + added|
            && derived[i] == DerivedColumn((carried + added)[i],
                                           LogicalRef(if i < |carried| then left else right, (carried + added)[i]))
  {
  }

  lemma KeptCells(columns: seq<Column>, left: NodeId, carried: seq<Column>, right: NodeId, added: seq<Column>,
          look: LogicalRef -> Value)
    requires columns == carried + added && NoDup(columns)
    ensures var row := DerivedRow(KeepColumns(left, carried) + KeepColumns(right, added), look);
            && row.Keys == SetOf(columns)
            && (forall c :: c in carried ==> c in row && row[c] == look(LogicalRef(left, c)))
            && (forall c :: c in added ==> c in row && row[c] == look(LogicalRef(right, c)))
  {
    hide DerivedRow, KeepColumns;
    var derived := KeepColumns(left, carried) + KeepColumns(right, added);
    KeptLength(left, carried, right, added);
    forall i | 0 <= i < |columns|
      ensures derived[i] == DerivedColumn(columns[i], LogicalRef(if i < |carried| then left else right, columns[i])) {
      KeptAt(left, carried, right, added, i);
    }
    DerivedCells(derived, look);
    var row := DerivedRow(derived, look);
    forall i | 0 <= i < |columns| ensures columns[i] in row && row[columns[i]] == look(derived[i].source) {
      assert derived[i] in derived;
    }
    forall c | c in row ensures c in columns {
      var d :| d in derived && d.name == c;
      var i :| 0 <= i < |derived| && derived[i] == d;
    }
    forall c | c in carried ensures c in row && row[c] == look(LogicalRef(left, c)) {
      var i :| 0 <= i < |carried| && carried[i] == c;
      assert columns[i] == c;
    }
    forall c | c in added ensures c in row && row[c] == look(LogicalRef(right, c)) {
      var i :| 0 <= i < |added| && added[i] == c;
      assert columns[|carried| + i] == c;
    }
  }

  lemma KeptLength(left: NodeId, carried: seq<Column>, right: NodeId, added: seq<Column>)
    ensures |KeepColumns(left, carried) + KeepColumns(right, added)| == |carried + added|
  {
  }

  /** The row of a joined environment, from the rows of its two parts. */
  lemma JoinedRow(layout: Layout, e: Env, source: Key, b: Option<BaseRow>, right: Row, node: Node,
          carried: seq<Column>, added: seq<Column>)
    requires node.JoinNode? && node.left != node.right && source !in e
    requires node.columns == KeepColumns(node.left, carried) + KeepColumns(node.right, added)
    requires CarriesExactly(layout, e.Keys, carried) && CarriesExactly(layout, {source}, added)
    requires right == if b.Some? then RowOf(layout, Bind(map[], source)(b.value)) else map[]
    ensures DerivedRow(node.columns, PairLook(node, RowOf(layout, e), right)) == RowOf(layout, e[source := b])
  {
    hide DerivedRow, KeepColumns;
    var look := PairLook(node, RowOf(layout, e), right);
    NoDupConcat(carried, added);
    KeptCells(carried + added, node.left, carried, node.right, added, look);
    var got, want := DerivedRow(node.columns, look), RowOf(layout, e[source := b]);
    forall c | c in carried ensures c in want && got[c] == want[c] {
      assert layout[c].source in e.Keys;
    }
    forall c | c in added ensures c in want && got[c] == want[c] {
      assert layout[c].source == source;
    }
    assert got.Keys == want.Keys;
  }

  lemma SameRow(layout: Layout, e: Env, right: Row, node: Node, carried: seq<Column>)
    requires node.JoinNode? && node.columns == KeepColumns(node.left, carried) + KeepColumns(node.right, [])
    requires CarriesExactly(layout, e.Keys, carried)
    ensures DerivedRow(node.columns, PairLook(node, RowOf(layout, e), right)) == RowOf(layout, e)
  {
    hide DerivedRow, KeepColumns;
    assert carried + [] == carried;
    KeptCells(carried, node.left, carried, node.right, [], PairLook(node, RowOf(layout, e), right));
  }

  // ----- one joined row -----

  // Everything about a join node that its rows depend on.
  ghost predicate IsJoinOf(p: Program, names: Naming, node: Node, s: Intro, carried: seq<Column>, added: seq<Column>)
    requires s.edge < |p.joins|
  {
    && node.JoinNode? && node.left != node.right && node.joinType == p.joins[s.edge].joinType
    && node.columns == KeepColumns(node.left, carried)
        + KeepColumns(node.right, if node.joinType == Anti then [] else added)
    && node.matchFilters == MatchFilters(p, names, node.joinType, node.right, s.source)
    && node.conditions == [JoinCondition(RefAt(names, node.left)(OldField(p, s)),
                                         RefAt(names, node.right)(NewField(p, s)))]
  }

  lemma PartnersAre(p: Program, names: Naming, layout: Layout, world: World, node: Node, s: Intro, e: Env,
          rows: seq<BaseRow>,
                    carried: seq<Column>, added: seq<Column>)
    requires Setting(p, names, layout, world) && s.source in SourcesOf(p) && s.edge < |p.joins|
    requires forall b :: b in rows ==> b in RawRows(p, world, s.source)
    requires KeyOf(p, NewField(p, s).owner) == s.source && KeyOf(p, OldField(p, s).owner) in e
    requires IsJoinOf(p, names, node, s, carried, added)
    ensures var right := Represent(layout, {s.source}, StartEnvs(s.source, rows));
            Filter((r: Row) => Matches(node, RowOf(layout, e), r, right.schema, world), right.rows) ==
            Map((b: BaseRow) => RowOf(layout,
                                      Bind(map[], s.source)(b)), Filter((b: BaseRow) =>
                                          OnPushed(p, world, s, e, b), rows))
  {
    hide Setting, RowOf, SchemaFor, RawRows, OnPushed, Matches, Map, Filter, KeyOf;
    var toRow := (b: BaseRow) => RowOf(layout, Bind(map[], s.source)(b));
    var schema := SchemaFor(layout, {s.source});
    var matches := (r: Row) => Matches(node, RowOf(layout, e), r, schema, world);
    var on := (b: BaseRow) => OnPushed(p, world, s, e, b);
    MapMap(Bind(map[], s.source), (d: Env) => RowOf(layout, d), toRow, rows);
    forall b | b in rows ensures on(b) == matches(toRow(b)) {
      MatchesIsOn(p, names, layout, world, node, node.right, s, e, b);
    }
    FilterMap(matches, toRow, on, rows);
    var right := Represent(layout, {s.source}, StartEnvs(s.source, rows));
    FilterCong((r: Row) => Matches(node, RowOf(layout, e), r, right.schema, world), matches, right.rows);
  }

  lemma PairRows(layout: Layout, node: Node, s: Intro, e: Env, matched: seq<BaseRow>, carried: seq<Column>,
          added: seq<Column>)
    requires node.JoinNode? && node.left != node.right && s.source !in e
    requires node.columns == KeepColumns(node.left, carried) + KeepColumns(node.right, added)
    requires CarriesExactly(layout, e.Keys, carried) && CarriesExactly(layout, {s.source}, added)
    ensures Map((r: Row) => DerivedRow(node.columns, PairLook(node, RowOf(layout, e), r)),
                Map((b: BaseRow) => RowOf(layout, Bind(map[], s.source)(b)), matched))
         == RowsOf(layout, Map(Bind(e, s.source), matched))
  {
    hide RowOf, DerivedRow, KeepColumns, CarriesExactly, Map, PairLook;
    var toRow := (b: BaseRow) => RowOf(layout, Bind(map[], s.source)(b));
    var joined := (r: Row) => DerivedRow(node.columns, PairLook(node, RowOf(layout, e), r));
    var bound := (b: BaseRow) => RowOf(layout, Bind(e, s.source)(b));
    forall b | b in matched ensures bound(b) == joined(toRow(b)) {
      JoinedRow(layout, e, s.source, Some(b), toRow(b), node, carried, added);
      assert Bind(e, s.source)(b) == e[s.source := Some(b)];
      assert bound(b) == RowOf(layout, e[s.source := Some(b)]);
      assert joined(toRow(b)) == DerivedRow(node.columns, PairLook(node, RowOf(layout, e), toRow(b)));
    }
    MapMap(toRow, joined, bound, matched);
    MapMap(Bind(e, s.source), (d: Env) => RowOf(layout, d), bound, matched);
  }

  lemma JoinRowDenotes(p: Program, names: Naming, layout: Layout, world: World, node: Node, s: Intro, e: Env,
                       carried: seq<Column>, added: seq<Column>)
    requires Setting(p, names, layout, world) && s.source in SourcesOf(p) && s.edge < |p.joins| && s.source !in e
    requires KeyOf(p, NewField(p, s).owner) == s.source && KeyOf(p, OldField(p, s).owner) in e
    requires IsJoinOf(p, names, node, s, carried, added)
    requires CarriesExactly(layout, e.Keys, carried) && CarriesExactly(layout, {s.source}, added)
    ensures JoinRow(node, RowOf(layout, e),
                    Represent(layout, {s.source}, StartEnvs(s.source, PushedRows(p, world, s.source))), world)
         == RowsOf(layout, PushedStep(p, world, s, e))
  {
    hide Setting, RowOf, SchemaFor, RawRows, OnPushed, Matches, Filter, KeyOf, DerivedRow, KeepColumns, CarriesExactly,
         PairLook, ScanKeeps, MatchFilters;
    var rows := PushedRows(p, world, s.source);
    forall b | b in rows ensures b in RawRows(p, world, s.source) {
    }
    PartnersAre(p, names, layout, world, node, s, e, rows, carried, added);
    var matched := Filter((b: BaseRow) => OnPushed(p, world, s, e, b), rows);
    match node.joinType {
      case Inner => PairRows(layout, node, s, e, matched, carried, added);
      case LeftOuter =>
        PairRows(layout, node, s, e, matched, carried, added);
        JoinedRow(layout, e, s.source, None, map[], node, carried, added);
      case Anti => SameRow(layout, e, map[], node, carried);
    }
  }

  /** A join node denotes one step of the pushed-down reading. */
  lemma JoinDenotes(p: Program, names: Naming, layout: Layout, world: World, node: Node, s: Intro, keys: set<Key>,
          envs: seq<Env>,
                    carried: seq<Column>, added: seq<Column>, env: map<NodeId, Rel>)
    requires Setting(p, names, layout, world) && s.source in SourcesOf(p) && s.edge < |p.joins| && s.source !in keys
    requires KeyOf(p, NewField(p, s).owner) == s.source && KeyOf(p, OldField(p, s).owner) in keys
    requires IsJoinOf(p, names, node, s, carried, added) && KeysAre(envs, keys)
    requires CarriesExactly(layout, keys, carried) && CarriesExactly(layout, {s.source}, added)
    requires node.left in env && env[node.left] == Represent(layout, keys, envs)
    requires node.right in env && env[node.right]
             == Represent(layout, {s.source}, StartEnvs(s.source, PushedRows(p, world, s.source)))
    ensures NodeRows(node, p.objects, world, env)
            == RowsOf(layout, FlatMap((e: Env) => PushedStep(p, world, s, e), envs))
  {
    hide Setting, RowOf, SchemaFor, PushedStep, KeyOf, IsJoinOf, CarriesExactly, JoinRow, PushedRows, StartEnvs;
    assert node.JoinNode? by { IsJoinNode(p, names, node, s, carried, added); }
    var toRow := (e: Env) => RowOf(layout, e);
    var right := env[node.right];
    var joins := (l: Row) => JoinRow(node, l, right, world);
    var steps := (e: Env) => RowsOf(layout, PushedStep(p, world, s, e));
    forall e | e in envs ensures steps(e) == joins(toRow(e)) {
      JoinRowDenotes(p, names, layout, world, node, s, e, carried, added);
    }
    FlatMapMap(toRow, joins, steps, envs);
    MapFlatMap(toRow, (e: Env) => PushedStep(p, world, s, e), steps, envs);
    FlatMapCong((l: Row) => JoinRow(node, l, RelOf(env, node.right), world), joins, RelOf(env, node.left).rows);
  }

  lemma IsJoinNode(p: Program, names: Naming, node: Node, s: Intro, carried: seq<Column>, added: seq<Column>)
    requires s.edge < |p.joins| && IsJoinOf(p, names, node, s, carried, added)
    ensures node.JoinNode?
  {
  }

  // ----- validity -----

  lemma KeptOutputs(layout: Layout, node: Node, left: set<Key>, right: set<Key>, carried: seq<Column>,
          added: seq<Column>, schemas: map<NodeId, Schema>)
    requires node.JoinNode? && node.left != node.right && left !! right
    requires node.columns == KeepColumns(node.left, carried) + KeepColumns(node.right, added)
    requires CarriesExactly(layout, left, carried) && CarriesExactly(layout, right, added)
    requires node.joinType == Anti ==> added == []
    requires node.left in schemas && schemas[node.left] == SchemaFor(layout, left)
    requires node.right in schemas && (added == [] || schemas[node.right] == SchemaFor(layout, right))
    ensures Collect(JoinOutputs(node.columns, node.left, node.right, node.joinType, schemas))
            == Some(SchemaFor(layout, left + right))
    ensures CarriesExactly(layout, left + right, carried + added)
  {
    hide Collect;
    NoDupConcat(carried, added);
    var columns := carried + added;
    var outputs := JoinOutputs(node.columns, node.left, node.right, node.joinType, schemas);
    forall k | 0 <= k < |columns|
      ensures columns[k] in SchemaFor(layout, left + right)
      ensures outputs[k] == Output(columns[k], Some(SchemaFor(layout, left + right)[columns[k]])) {
      assert node.columns[k].name == columns[k];
      if k < |carried| {
        assert columns[k] in carried;
      } else {
        assert columns[k] in added;
      }
    }
    SchemaCollected(layout, left + right, columns, outputs);
  }

  lemma MatchFiltersValid(p: Program, names: Naming, layout: Layout, joinType: JoinType, right: NodeId, source: Key)
    requires ValidProgram(p) && GoodNaming(p, names) && IsLayout(p, names, layout)
    ensures LeavesDirect(MatchFilters(p, names, joinType, right, source), right, SchemaFor(layout, {source}))
    ensures forall q :: q in MatchFilters(p, names, joinType, right, source) ==> WellShaped(q)
  {
    hide ValidProgram, GoodNaming, IsLayout, SchemaFor, Placed, WellShaped, Readable;
    if joinType != Inner {
      MatchIsPlaced(p, names, joinType, right, source);
      OnIsReadable(p, names, source);
      PlacedIsValid(p, names, layout, right, {source}, OnFilters(p, source), OnDecisions(p, source));
    }
  }

  lemma ConditionIsValid(p: Program, names: Naming, layout: Layout, node: Node, s: Intro, keys: set<Key>,
          schemas: map<NodeId, Schema>)
    requires ValidProgram(p) && GoodNaming(p, names) && IsLayout(p, names, layout) && s.edge < |p.joins|
             && node.JoinNode?
    requires KeyOf(p, NewField(p, s).owner) == s.source && KeyOf(p, OldField(p, s).owner) in keys
    requires node.left in schemas && schemas[node.left] == SchemaFor(layout, keys)
    requires node.right in schemas && schemas[node.right] == SchemaFor(layout, {s.source})
    ensures ConditionOk(JoinCondition(RefAt(names, node.left)(OldField(p, s)),
                                      RefAt(names, node.right)(NewField(p, s))), node.left, node.right, schemas)
  {
    hide ValidProgram, GoodNaming, IsLayout, SchemaFor, KeyOf;
    JoinFieldsNamed(p, names, s);
    FieldType(p, names, layout, keys, OldField(p, s));
    FieldType(p, names, layout, {s.source}, NewField(p, s));
  }

  lemma JoinIsValid(p: Program, names: Naming, layout: Layout, node: Node, s: Intro, keys: set<Key>,
                    carried: seq<Column>, added: seq<Column>, schemas: map<NodeId, Schema>)
    requires ValidProgram(p) && GoodNaming(p, names) && IsLayout(p, names, layout) && s.edge < |p.joins|
             && s.source !in keys
    requires KeyOf(p, NewField(p, s).owner) == s.source && KeyOf(p, OldField(p, s).owner) in keys
    requires IsJoinOf(p, names, node, s, carried, added) && carried != []
    requires CarriesExactly(layout, keys, carried) && CarriesExactly(layout, {s.source}, added)
    requires node.left in schemas && schemas[node.left] == SchemaFor(layout, keys)
    requires node.right in schemas && schemas[node.right] == SchemaFor(layout, {s.source})
    ensures var more := if node.joinType == Anti then keys else keys + {s.source};
            && WellFormed(node)
            && ValidateNode(node, p.objects, schemas) == Some(SchemaFor(layout, more))
            && CarriesExactly(layout, more, if node.joinType == Anti then carried else carried + added)
  {
    hide ValidProgram, GoodNaming, IsLayout, SchemaFor, KeyOf, CarriesExactly, Collect, JoinOutputs, MatchFilters,
         LeavesDirect, WellShaped, ConditionOk;
    MatchFiltersValid(p, names, layout, node.joinType, node.right, s.source);
    ConditionIsValid(p, names, layout, node, s, keys, schemas);
    if node.joinType == Anti {
      NothingCarried(layout);
      KeptOutputs(layout, node, keys, {}, carried, [], schemas);
      assert keys + {} == keys && carried + [] == carried;
    } else {
      KeptOutputs(layout, node, keys, {s.source}, carried, added, schemas);
    }
  }

  lemma NothingCarried(layout: Layout)
    ensures CarriesExactly(layout, {}, [])
  {
  }
}
