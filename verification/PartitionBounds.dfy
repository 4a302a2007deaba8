/** Partition ranges of authored SQL: which conditions bound the partition column of a table, and why a
    bounded query never looks outside a finite interval.
    Models `_bounds` and the partition check of ontology_core/authored_sql.py. */
module PartitionBounds {
  import opened SeqOps
  import opened Sql
  import opened Calendar

  type AliasName = nat
  type ColumnName = nat

  // ----- conditions -----

  datatype TestOp = Equals | InList | BetweenPair | Greater | GreaterEq | Less | LessEq | OtherTest
  datatype Item = Constant(text: string) | Computed(id: nat)

  /** A condition tree. `Unread` is any condition of another shape: NOT, a reversed comparison, a function. */
  datatype Cond =
    | Both(left: Cond, right: Cond)
    | Either(left: Cond, right: Cond)
    | Paren(inner: Cond)
    | Test(alias: AliasName, column: ColumnName, op: TestOp, items: seq<Item>)
    | Unread(id: nat, mentions: set<AliasName>)

  // ----- period literals -----

  function Digit(c: char): nat {
    if '0' <= c <= '9' then c as nat - '0' as nat else 0
  }

  predicate AllDigits(s: string) {
    forall c :: c in s ==> '0' <= c <= '9'
  }

  function Number(s: string): nat {
    if s == "" then 0 else 10 * Number(s[..|s| - 1]) + Digit(s[|s| - 1])
  }

  /** A month of six digits or a day of eight digits that exists in the calendar. */
  predicate IsPeriod(s: string) {
    && AllDigits(s) && (|s| == 6 || |s| == 8)
    && var year, month := Number(s[..4]), Number(s[4..6]);
       && 1 <= year && 1 <= month <= 12
       && (|s| == 8 ==> 1 <= Number(s[6..]) <= DaysIn(year, month))
  }

  datatype Grain = MonthOnly | DayOnly | AnyGrain

  predicate GrainFits(s: string, grain: Grain) {
    (grain == MonthOnly ==> |s| == 6) && (grain == DayOnly ==> |s| == 8)
  }

  predicate ItemsArePeriods(items: seq<Item>, grain: Grain) {
    items != [] && forall i :: i in items ==> i.Constant? && IsPeriod(i.text) && GrainFits(i.text, grain)
  }

  // ----- the analysis -----

  datatype Side = Lower | Upper

  function TestBounds(op: TestOp): set<Side> {
    match op
    case Equals => {Lower, Upper}
    case InList => {Lower, Upper}
    case BetweenPair => {Lower, Upper}
    case Greater => {Lower}
    case GreaterEq => {Lower}
    case Less => {Upper}
    case LessEq => {Upper}
    case OtherTest => {}
  }

  /** `_bounds`: AND combines bounds; every OR branch must remain bounded. */
  function Bounds(c: Cond, alias: AliasName, partition: ColumnName, grain: Grain): set<Side> {
    match c
    case Both(left, right) => Bounds(left, alias, partition, grain) + Bounds(right, alias, partition, grain)
    case Either(left, right) => Bounds(left, alias, partition, grain) * Bounds(right, alias, partition, grain)
    case Paren(inner) => Bounds(inner, alias, partition, grain)
    case Test(a, column, op, items) =>
      if a == alias && column == partition && ItemsArePeriods(items, grain) then TestBounds(op) else {}
    case Unread(_, _) => {}
  }

  function OptionalBounds(c: Option<Cond>, alias: AliasName, partition: ColumnName, grain: Grain): set<Side> {
    if c.None? then {} else Bounds(c.value, alias, partition, grain)
  }

  // ----- queries -----

  datatype JoinSide = NoSide | LeftSide | RightSide | FullSide
  datatype JoinKind = PlainKind | SemiKind | AntiKind
  datatype Join = Join(side: JoinSide, kind: JoinKind, alias: AliasName, on: Option<Cond>)
  datatype Query = Query(from: AliasName, joins: seq<Join>, where: Option<Cond>)

  /** The ON clauses that the check takes into account for a table. */
  predicate Counts(j: Join, alias: AliasName) {
    (j.side == NoSide && j.kind == PlainKind) || (j.side == LeftSide && j.alias == alias)
  }

  function OnBounds(joins: seq<Join>, alias: AliasName, partition: ColumnName, grain: Grain): set<Side> {
    if joins == [] then {}
    else
      var last := joins[|joins| - 1];
      OnBounds(joins[..|joins| - 1], alias, partition, grain)
      + if Counts(last, alias) then OptionalBounds(last.on, alias, partition, grain) else {}
  }

  /** The check accepts a table when its partition has a lower and an upper bound. */
  predicate IsBounded(q: Query, alias: AliasName, partition: ColumnName, grain: Grain) {
    OptionalBounds(q.where, alias, partition, grain) + OnBounds(q.joins, alias, partition, grain) == {Lower, Upper}
  }

  method CheckBounded(q: Query, alias: AliasName, partition: ColumnName, grain: Grain) returns (ok: bool)
    ensures ok == IsBounded(q, alias, partition, grain)
  {
    var bounds := OptionalBounds(q.where, alias, partition, grain);
    for k := 0 to |q.joins|
      invariant bounds == OptionalBounds(q.where, alias, partition, grain)
                + OnBounds(q.joins[..k], alias, partition, grain)
    {
      assert q.joins[..k + 1][..k] == q.joins[..k];
      if Counts(q.joins[k], alias) {
        bounds := bounds + OptionalBounds(q.joins[k].on, alias, partition, grain);
      }
    }
    assert q.joins[..|q.joins|] == q.joins;
    ok := bounds == {Lower, Upper};
  }

  // ----- meaning -----

  type TableRow = map<ColumnName, Value>
  type Bound = map<AliasName, TableRow>
  type Data = map<AliasName, seq<TableRow>>

  /** Values of literals and of everything the analysis does not look into. */
  datatype Semantics = Semantics(literal: string -> Value, computed: (nat, Bound) -> Value,
          unread: (nat, Bound) -> Truth, test: (Value, seq<Value>) -> Truth)

  function ValueAt(b: Bound, alias: AliasName, column: ColumnName): Value {
    if alias in b && column in b[alias] then b[alias][column] else Null
  }

  function ItemValue(i: Item, b: Bound, sem: Semantics): Value {
    match i
    case Constant(text) => sem.literal(text)
    case Computed(id) => sem.computed(id, b)
  }

  function TestTruth(op: TestOp, v: Value, items: seq<Value>, sem: Semantics): Truth {
    match op
    case Equals => EvalLeaf(EQ, v, items)
    case InList => EvalLeaf(IN, v, items)
    case BetweenPair => EvalLeaf(BETWEEN, v, items)
    case Greater => EvalLeaf(GT, v, items)
    case GreaterEq => EvalLeaf(GTE, v, items)
    case Less => EvalLeaf(LT, v, items)
    case LessEq => EvalLeaf(LTE, v, items)
    case OtherTest => sem.test(v, items)
  }

  function TruthOf(c: Cond, b: Bound, sem: Semantics): Truth {
    match c
    case Both(left, right) => And3(TruthOf(left, b, sem), TruthOf(right, b, sem))
    case Either(left, right) => Or3(TruthOf(left, b, sem), TruthOf(right, b, sem))
    case Paren(inner) => TruthOf(inner, b, sem)
    case Test(alias, column, op, items) => TestTruth(op, ValueAt(b, alias, column),
                                                     Map((i: Item) => ItemValue(i, b, sem), items), sem)
    case Unread(id, _) => sem.unread(id, b)
  }

  predicate Passes(c: Option<Cond>, b: Bound, sem: Semantics) {
    c.Some? ==> TruthOf(c.value, b, sem) == True
  }

  function TableOf(data: Data, alias: AliasName): seq<TableRow> {
    if alias in data then data[alias] else []
  }

  function BindRow(b: Bound, alias: AliasName): TableRow -> Bound {
    (r: TableRow) => b[alias := r]
  }

  function Matching(b: Bound, j: Join, rows: seq<TableRow>, sem: Semantics): seq<TableRow> {
    Filter((r: TableRow) => Passes(j.on, b[j.alias := r], sem), rows)
  }

  predicate KeepsUnmatchedLeft(j: Join) {
    j.side == LeftSide || j.side == FullSide
  }

  /** What one row of the left side becomes; a missing partner leaves the alias unbound. */
  function JoinLeft(b: Bound, j: Join, rows: seq<TableRow>, sem: Semantics): seq<Bound> {
    var matches := Matching(b, j, rows, sem);
    if j.kind == SemiKind then (if matches == [] then [] else [b])
    else if j.kind == AntiKind then (if matches == [] then [b] else [])
    else if matches == [] && KeepsUnmatchedLeft(j) then [b]
    else Map(BindRow(b, j.alias), matches)
  }

  predicate KeepsUnmatchedRight(j: Join) {
    j.kind == PlainKind && (j.side == RightSide || j.side == FullSide)
  }

  predicate Unmatched(lefts: seq<Bound>, j: Join, r: TableRow, sem: Semantics) {
    forall b :: b in lefts ==> !Passes(j.on, b[j.alias := r], sem)
  }

  function JoinRight(lefts: seq<Bound>, j: Join, rows: seq<TableRow>, sem: Semantics): seq<Bound> {
    if !KeepsUnmatchedRight(j) then []
    else Map(BindRow(map[], j.alias), Filter((r: TableRow) => Unmatched(lefts, j, r, sem), rows))
  }

  function Joined(q: Query, joins: seq<Join>, data: Data, sem: Semantics): seq<Bound> {
    if joins == [] then Map(BindRow(map[], q.from), TableOf(data, q.from))
    else
      var before, j := Joined(q, joins[..|joins| - 1], data, sem), joins[|joins| - 1];
      var rows := TableOf(data, j.alias);
      FlatMap((b: Bound) => JoinLeft(b, j, rows, sem), before) + JoinRight(before, j, rows, sem)
  }

  /** The joined rows that reach SELECT, GROUP BY and everything above. */
  function Answers(q: Query, data: Data, sem: Semantics): seq<Bound> {
    Filter((b: Bound) => Passes(q.where, b, sem), Joined(q, q.joins, data, sem))
  }

  // ----- intervals -----

  datatype Interval = Interval(low: real, high: real)

  /** Literals of a condition that can take part in a bound. */
  function Literals(c: Cond): seq<string> {
    match c
    case Both(left, right) => Literals(left) + Literals(right)
    case Either(left, right) => Literals(left) + Literals(right)
    case Paren(inner) => Literals(inner)
    case Test(_, _, _, items) => ItemLiterals(items)
    case Unread(_, _) => []
  }

  function ItemLiterals(items: seq<Item>): (r: seq<string>)
    ensures forall i :: i in items && i.Constant? ==> i.text in r
  {
    if items == [] then []
    else
      assert forall i :: i in items <==> i == items[0] || i in items[1..];
      (if items[0].Constant? then [items[0].text] else []) + ItemLiterals(items[1..])
  }

  function OptionalLiterals(c: Option<Cond>): seq<string> {
    if c.None? then [] else Literals(c.value)
  }

  function QueryLiterals(q: Query): seq<string> {
    OptionalLiterals(q.where) + FlatMap((j: Join) => OptionalLiterals(j.on), q.joins)
  }

  predicate Inside(v: Value, side: Side, i: Interval) {
    v.Datum? && if side == Lower then i.low <= v.x else v.x <= i.high
  }

  predicate InInterval(v: Value, i: Interval) {
    v.Datum? && i.low <= v.x <= i.high
  }

  /** All these literals have values, and those lie in the interval. */
  predicate Contains(i: Interval, literals: seq<string>, sem: Semantics) {
    forall s :: s in literals && IsPeriod(s) ==> InInterval(sem.literal(s), i)
  }

  lemma {:induction false} SomeInterval(literals: seq<string>, sem: Semantics) returns (i: Interval)
    requires forall s :: s in literals && IsPeriod(s) ==> sem.literal(s).Datum?
    ensures Contains(i, literals, sem)
  {
    hide IsPeriod;
    if literals == [] {
      i := Interval(0.0, 0.0);
    } else {
      var rest := SomeInterval(literals[1..], sem);
      assert literals == [literals[0]] + literals[1..];
      if IsPeriod(literals[0]) {
        var x := sem.literal(literals[0]).x;
        i := Interval(if x < rest.low then x else rest.low, if x > rest.high then x else rest.high);
      } else {
        i := rest;
      }
    }
  }

  // ----- a true condition keeps its bounds -----

  lemma {:induction false} MemberInside(v: Value, items: seq<Value>, i: Interval)
    requires MemberOf(v, items) == True && forall x :: x in items ==> InInterval(x, i)
    ensures InInterval(v, i)
  {
    assert items[0] in items;
    if Compare(EQ, v, items[0]) != True {
      MemberInside(v, items[1..], i);
    }
  }

  lemma TestKeepsBound(op: TestOp, v: Value, items: seq<Value>, sem: Semantics, i: Interval, side: Side)
    requires TestTruth(op, v, items, sem) == True && side in TestBounds(op) && forall x ::
             x in items ==> InInterval(x, i)
    ensures Inside(v, side, i)
  {
    assert |items| >= 1 ==> items[0] in items;
    assert |items| >= 2 ==> items[1] in items;
    if op == InList {
      MemberInside(v, items, i);
    }
  }

  lemma {:induction false} TrueKeepsBounds(c: Cond, alias: AliasName, partition: ColumnName, grain: Grain, b: Bound,
          sem: Semantics, i: Interval, side: Side)
    requires TruthOf(c, b, sem) == True && side in Bounds(c, alias, partition, grain) && Contains(i, Literals(c), sem)
    ensures alias in b && Inside(ValueAt(b, alias, partition), side, i)
    decreases c
  {
    hide IsPeriod;
    match c
    case Both(left, right) =>
      if side in Bounds(left, alias, partition, grain) {
        TrueKeepsBounds(left, alias, partition, grain, b, sem, i, side);
      } else {
        TrueKeepsBounds(right, alias, partition, grain, b, sem, i, side);
      }
    case Either(left, right) =>
      if TruthOf(left, b, sem) == True {
        TrueKeepsBounds(left, alias, partition, grain, b, sem, i, side);
      } else {
        TrueKeepsBounds(right, alias, partition, grain, b, sem, i, side);
      }
    case Paren(inner) => TrueKeepsBounds(inner, alias, partition, grain, b, sem, i, side);
    case Test(a, column, op, items) =>
      var values := Map((x: Item) => ItemValue(x, b, sem), items);
      forall x | x in values ensures InInterval(x, i) {
        var k :| 0 <= k < |values| && values[k] == x;
        assert items[k] in items;
      }
      TestKeepsBound(op, ValueAt(b, alias, partition), values, sem, i, side);
  }

  lemma PassingKeepsBounds(c: Option<Cond>, alias: AliasName, partition: ColumnName, grain: Grain, b: Bound,
          sem: Semantics, i: Interval, side: Side)
    requires Passes(c, b, sem) && side in OptionalBounds(c, alias, partition, grain)
             && Contains(i, OptionalLiterals(c), sem)
    ensures alias in b && Inside(ValueAt(b, alias, partition), side, i)
  {
    TrueKeepsBounds(c.value, alias, partition, grain, b, sem, i, side);
  }

  // ----- well-formed queries -----

  function Mentions(c: Cond): set<AliasName> {
    match c
    case Both(left, right) => Mentions(left) + Mentions(right)
    case Either(left, right) => Mentions(left) + Mentions(right)
    case Paren(inner) => Mentions(inner)
    case Test(alias, _, _, _) => {alias}
    case Unread(_, mentions) => mentions
  }

  function Introduced(from: AliasName, joins: seq<Join>): set<AliasName> {
    {from} + set j | j in joins :: j.alias
  }

  /** Aliases differ, and semi and anti joins have no right side to keep. */
  ghost predicate WellJoined(q: Query) {
    WellJoinedPrefix(q, q.joins)
  }

  ghost predicate WellJoinedPrefix(q: Query, joins: seq<Join>) {
    forall k :: 0 <= k < |joins| ==> WellJoinedAt(q, joins, k)
  }

  ghost predicate WellJoinedAt(q: Query, joins: seq<Join>, k: nat)
    requires k < |joins|
  {
    && joins[k].alias !in Introduced(q.from, joins[..k])
    && (joins[k].kind != PlainKind ==> joins[k].side == NoSide || joins[k].side == LeftSide)
  }

  /** The bounds of eligible ON clauses, without those that come before the table itself. */
  function InScopeBounds(from: AliasName, joins: seq<Join>, alias: AliasName, partition: ColumnName,
          grain: Grain): set<Side> {
    if joins == [] then {}
    else
      var last := joins[|joins| - 1];
      InScopeBounds(from, joins[..|joins| - 1], alias, partition, grain)
      + if Counts(last, alias) && alias
          in Introduced(from, joins) then OptionalBounds(last.on, alias, partition, grain) else {}
  }

  /** The table is bounded by WHERE and by ON clauses that follow it or bring it in. */
  predicate BoundedInScope(q: Query, alias: AliasName, partition: ColumnName, grain: Grain) {
    OptionalBounds(q.where, alias, partition, grain) + InScopeBounds(q.from, q.joins, alias, partition, grain)
        == {Lower, Upper}
  }

  lemma {:induction false} InScopeAreBounds(from: AliasName, joins: seq<Join>, alias: AliasName, partition: ColumnName,
          grain: Grain)
    ensures InScopeBounds(from, joins, alias, partition, grain) <= OnBounds(joins, alias, partition, grain)
  {
    if joins != [] {
      InScopeAreBounds(from, joins[..|joins| - 1], alias, partition, grain);
    }
  }

  /** Whatever is bounded in scope is accepted. */
  lemma InScopeIsAccepted(q: Query, alias: AliasName, partition: ColumnName, grain: Grain)
    requires BoundedInScope(q, alias, partition, grain)
    ensures IsBounded(q, alias, partition, grain)
  {
    InScopeAreBounds(q.from, q.joins, alias, partition, grain);
    OnlyTwoSides(OptionalBounds(q.where, alias, partition, grain) + OnBounds(q.joins, alias, partition, grain));
  }

  lemma OnlyTwoSides(sides: set<Side>)
    requires {Lower, Upper} <= sides
    ensures sides == {Lower, Upper}
  {
    forall side | side in sides ensures side in {Lower, Upper} {
      assert side == Lower || side == Upper;
    }
  }

  /** Every eligible ON clause that speaks about the table follows it or brings it in. */
  ghost predicate SpokenInScope(from: AliasName, joins: seq<Join>, alias: AliasName) {
    forall k :: 0 <= k < |joins| && Counts(joins[k],
                                           alias) && joins[k].on.Some? && alias in Mentions(joins[k].on.value) ==>
      alias in Introduced(from, joins[..k + 1])
  }

  /** Then the check counts nothing out of scope. */
  lemma {:induction false} AllBoundsInScope(from: AliasName, joins: seq<Join>, alias: AliasName, partition: ColumnName,
          grain: Grain)
    requires SpokenInScope(from, joins, alias)
    ensures InScopeBounds(from, joins, alias, partition, grain) == OnBounds(joins, alias, partition, grain)
  {
    if joins != [] {
      var n := |joins| - 1;
      var before, last := joins[..n], joins[n];
      forall k | 0 <= k < n && Counts(before[k], alias) && before[k].on.Some? && alias in Mentions(before[k].on.value)
        ensures alias in Introduced(from, before[..k + 1]) {
        assert before[..k + 1] == joins[..k + 1] && before[k] == joins[k];
      }
      AllBoundsInScope(from, before, alias, partition, grain);
      assert joins[..n + 1] == joins;
      if last.on.Some? && alias !in Mentions(last.on.value) {
        BoundsAreMentioned(last.on.value, alias, partition, grain);
      }
    }
  }

  lemma {:induction false} BoundsAreMentioned(c: Cond, alias: AliasName, partition: ColumnName, grain: Grain)
    requires alias !in Mentions(c)
    ensures Bounds(c, alias, partition, grain) == {}
    decreases c
  {
    match c
    case Both(left, right) =>
      BoundsAreMentioned(left, alias, partition, grain);
      BoundsAreMentioned(right, alias, partition, grain);
    case Either(left, right) =>
      BoundsAreMentioned(left, alias, partition, grain);
      BoundsAreMentioned(right, alias, partition, grain);
    case Paren(inner) => BoundsAreMentioned(inner, alias, partition, grain);
    case Test(_, _, _, _) =>
    case Unread(_, _) =>
  }

  // ----- restricting one table to the interval -----

  function PartitionOf(r: TableRow, partition: ColumnName): Value {
    if partition in r then r[partition] else Null
  }

  function Restricted(data: Data, alias: AliasName, partition: ColumnName, i: Interval): Data {
    data[alias := Filter((r: TableRow) => InInterval(PartitionOf(r, partition), i), TableOf(data, alias))]
  }

  /** The table is present in the joined row, with a partition in the interval. */
  predicate Fine(b: Bound, alias: AliasName, partition: ColumnName, i: Interval) {
    alias in b && InInterval(ValueAt(b, alias, partition), i)
  }

  function IsFine(alias: AliasName, partition: ColumnName, i: Interval): Bound -> bool {
    (b: Bound) => Fine(b, alias, partition, i)
  }

  lemma RestrictedTable(data: Data, alias: AliasName, partition: ColumnName, i: Interval, other: AliasName)
    ensures TableOf(Restricted(data, alias, partition, i), other)
         == if other == alias then Filter((r: TableRow) =>
                                          InInterval(PartitionOf(r, partition), i), TableOf(data, alias))
                                              else TableOf(data, other)
  {
  }

  // ----- one join -----

  lemma LeftMember(b: Bound, j: Join, rows: seq<TableRow>, sem: Semantics, out: Bound) returns (r: Option<TableRow>)
    requires out in JoinLeft(b, j, rows, sem)
    ensures r.None? ==> out == b && (j.side != NoSide || j.kind != PlainKind)
    ensures r.Some? ==> r.value in rows && out == b[j.alias := r.value] && Passes(j.on, out, sem) && j.kind == PlainKind
  {
    var matches := Matching(b, j, rows, sem);
    if j.kind == PlainKind && matches != [] {
      var k :| 0 <= k < |matches| && BindRow(b, j.alias)(matches[k]) == out;
      assert matches[k] in matches;
      r := Some(matches[k]);
    } else {
      r := None;
    }
  }

  lemma JoinedMember(q: Query, joins: seq<Join>, data: Data, sem: Semantics, out: Bound)
    returns (b: Option<Bound>, r: Option<TableRow>)
    requires joins != [] && out in Joined(q, joins, data, sem)
    ensures var j := joins[|joins| - 1];
            && (b.None? ==> KeepsUnmatchedRight(j) && r.Some? && out == map[j.alias := r.value])
            && (b.Some? ==> b.value in Joined(q, joins[..|joins| - 1], data, sem))
            && (b.Some? && r.None? ==> out == b.value && (j.side != NoSide || j.kind != PlainKind))
            && (b.Some? && r.Some? ==> out == b.value[j.alias :=
                                                      r.value] && Passes(j.on, out, sem) && j.kind == PlainKind)
  {
    var before, j := Joined(q, joins[..|joins| - 1], data, sem), joins[|joins| - 1];
    var rows := TableOf(data, j.alias);
    var left := (b: Bound) => JoinLeft(b, j, rows, sem);
    if out in FlatMap(left, before) {
      FlatMapMember(left, before, out);
      var found :| found in before && out in left(found);
      b := Some(found);
      r := LeftMember(found, j, rows, sem, out);
    } else {
      b := None;
      var kept := Filter((r: TableRow) => Unmatched(before, j, r, sem), rows);
      var k :| 0 <= k < |kept| && BindRow(map[], j.alias)(kept[k]) == out;
      r := Some(kept[k]);
    }
  }

  lemma IntroducedSnoc(from: AliasName, joins: seq<Join>)
    requires joins != []
    ensures Introduced(from, joins) == Introduced(from, joins[..|joins| - 1]) + {joins[|joins| - 1].alias}
  {
    assert joins == joins[..|joins| - 1] + [joins[|joins| - 1]];
  }

  /** Only introduced tables are bound. */
  lemma {:induction false} BoundKeys(q: Query, joins: seq<Join>, data: Data, sem: Semantics, out: Bound)
    requires out in Joined(q, joins, data, sem)
    ensures out.Keys <= Introduced(q.from, joins)
    decreases |joins|
  {
    if joins == [] {
      var rows := TableOf(data, q.from);
      var k :| 0 <= k < |rows| && BindRow(map[], q.from)(rows[k]) == out;
    } else {
      hide *;
      var n := |joins| - 1;
      IntroducedSnoc(q.from, joins);
      var b, r := JoinedMember(q, joins, data, sem, out);
      if b.Some? {
        BoundKeys(q, joins[..n], data, sem, b.value);
      }
    }
  }

  lemma JoinedShorter(q: Query, joins: seq<Join>)
    requires WellJoinedPrefix(q, joins) && joins != []
    ensures WellJoinedPrefix(q, joins[..|joins| - 1]) && WellJoinedAt(q, joins, |joins| - 1)
    ensures Introduced(q.from, joins) == Introduced(q.from, joins[..|joins| - 1]) + {joins[|joins| - 1].alias}
    ensures joins[..|joins| - 1 + 1] == joins
  {
    var n := |joins| - 1;
    assert joins == joins[..n] + [joins[n]];
    forall k | 0 <= k < n ensures WellJoinedAt(q, joins[..n], k) {
      assert WellJoinedAt(q, joins, k);
      assert joins[..n][..k] == joins[..k] && joins[..n][..k + 1] == joins[..k + 1];
    }
  }

  // A table that is not introduced yet has no bounds in scope and no influence.
  lemma {:induction false} NotIntroduced(from: AliasName, joins: seq<Join>, alias: AliasName, partition: ColumnName,
          grain: Grain)
    requires alias !in Introduced(from, joins)
    ensures InScopeBounds(from, joins, alias, partition, grain) == {}
  {
    if joins != [] {
      IntroducedSnoc(from, joins);
      NotIntroduced(from, joins[..|joins| - 1], alias, partition, grain);
    }
  }

  lemma {:induction false} NoInfluence(q: Query, joins: seq<Join>, data: Data, small: Data, alias: AliasName,
          sem: Semantics)
    requires alias !in Introduced(q.from, joins) && forall other ::
             other != alias ==> TableOf(small, other) == TableOf(data, other)
    ensures Joined(q, joins, small, sem) == Joined(q, joins, data, sem)
    decreases |joins|
  {
    if joins != [] {
      var n := |joins| - 1;
      assert joins == joins[..n] + [joins[n]];
      NoInfluence(q, joins[..n], data, small, alias, sem);
      var j := joins[n];
      assert j.alias in Introduced(q.from, joins);
      SameStep(q, joins, data, small, sem);
    }
  }

  // The same rows joined to the same left side.
  lemma SameStep(q: Query, joins: seq<Join>, data: Data, small: Data, sem: Semantics)
    requires joins != [] && Joined(q, joins[..|joins| - 1], small, sem) == Joined(q, joins[..|joins| - 1], data, sem)
    requires TableOf(small, joins[|joins| - 1].alias) == TableOf(data, joins[|joins| - 1].alias)
    ensures Joined(q, joins, small, sem) == Joined(q, joins, data, sem)
  {
    hide JoinLeft, JoinRight;
    var j := joins[|joins| - 1];
    var before := Joined(q, joins[..|joins| - 1], data, sem);
    FlatMapCong((b: Bound) => JoinLeft(b, j, TableOf(small, j.alias),
                                       sem), (b: Bound) => JoinLeft(b, j, TableOf(data, j.alias), sem), before);
  }

  // ----- bounded values -----

  lemma {:induction false} BoundsHold(q: Query, joins: seq<Join>, data: Data, sem: Semantics, i: Interval,
                                      alias: AliasName, partition: ColumnName, grain: Grain, out: Bound, side: Side)
    requires WellJoinedPrefix(q, joins) && out in Joined(q, joins, data, sem) && alias in out
             && side in InScopeBounds(q.from, joins, alias, partition, grain)
    requires forall j :: j in joins ==> Contains(i, OptionalLiterals(j.on), sem)
    ensures Inside(ValueAt(out, alias, partition), side, i)
    decreases |joins|
  {
    hide Contains, OptionalLiterals, OptionalBounds, Passes, Introduced;
    var n := |joins| - 1;
    var j := joins[n];
    assert j in joins;
    JoinedShorter(q, joins);
    var b, r := JoinedMember(q, joins, data, sem, out);
    if j.alias == alias {
      NotIntroduced(q.from, joins[..n], alias, partition, grain);
      if b.Some? {
        BoundKeys(q, joins[..n], data, sem, b.value);
        PassingKeepsBounds(j.on, alias, partition, grain, out, sem, i, side);
      }
    } else if b.Some? {
      if side in InScopeBounds(q.from, joins[..n], alias, partition, grain) {
        assert forall k :: k in joins[..n] ==> k in joins;
        BoundsHold(q, joins[..n], data, sem, i, alias, partition, grain, b.value, side);
      } else {
        PassingKeepsBounds(j.on, alias, partition, grain, out, sem, i, side);
      }
    }
  }

  // ----- fine rows do not depend on rows outside the interval -----

  function KeepRow(partition: ColumnName, i: Interval): TableRow -> bool {
    (r: TableRow) => InInterval(PartitionOf(r, partition), i)
  }

  lemma FineBinds(b: Bound, alias: AliasName, partition: ColumnName, i: Interval, rows: seq<TableRow>)
    ensures Filter(IsFine(alias, partition, i), Map(BindRow(b, alias), rows))
            == Map(BindRow(b, alias), Filter(KeepRow(partition, i), rows))
  {
    FilterMap(IsFine(alias, partition, i), BindRow(b, alias), KeepRow(partition, i), rows);
  }

  lemma KeepCommutes(p: TableRow -> bool, partition: ColumnName, i: Interval, rows: seq<TableRow>)
    ensures Filter(KeepRow(partition, i), Filter(p, rows)) == Filter(p, Filter(KeepRow(partition, i), rows))
  {
    var keep := KeepRow(partition, i);
    var both := (r: TableRow) => p(r) && keep(r);
    FilterFilter(p, keep, both, rows);
    FilterFilter(keep, p, both, rows);
  }

  lemma FineLeft(b: Bound, j: Join, partition: ColumnName, i: Interval, rows: seq<TableRow>, sem: Semantics)
    requires j.alias !in b
    ensures Filter(IsFine(j.alias, partition, i), JoinLeft(b, j, rows, sem))
         == if j.kind == PlainKind then Map(BindRow(b, j.alias),
                                            Filter(KeepRow(partition, i), Matching(b, j, rows, sem))) else []
  {
    var matches := Matching(b, j, rows, sem);
    FineBinds(b, j.alias, partition, i, matches);
  }

  lemma FineLeftSame(b: Bound, j: Join, partition: ColumnName, i: Interval, rows: seq<TableRow>, sem: Semantics)
    requires j.alias !in b
    ensures Filter(IsFine(j.alias, partition, i), JoinLeft(b, j, Filter(KeepRow(partition, i), rows), sem))
         == Filter(IsFine(j.alias, partition, i), JoinLeft(b, j, rows, sem))
  {
    hide JoinLeft, Passes;
    var small := Filter(KeepRow(partition, i), rows);
    FineLeft(b, j, partition, i, rows, sem);
    FineLeft(b, j, partition, i, small, sem);
    KeepCommutes((r: TableRow) => Passes(j.on, b[j.alias := r], sem), partition, i, rows);
    var m := Matching(b, j, small, sem);
    FilterAll(KeepRow(partition, i), m);
    FilterAll(KeepRow(partition, i), Filter(KeepRow(partition, i), Matching(b, j, rows, sem)));
  }

  lemma FineRightSame(lefts: seq<Bound>, j: Join, partition: ColumnName, i: Interval, rows: seq<TableRow>,
          sem: Semantics)
    ensures Filter(IsFine(j.alias, partition, i), JoinRight(lefts, j, Filter(KeepRow(partition, i), rows), sem))
         == Filter(IsFine(j.alias, partition, i), JoinRight(lefts, j, rows, sem))
  {
    hide Unmatched;
    var small := Filter(KeepRow(partition, i), rows);
    var alone := (r: TableRow) => Unmatched(lefts, j, r, sem);
    if KeepsUnmatchedRight(j) {
      FineBinds(map[], j.alias, partition, i, Filter(alone, rows));
      FineBinds(map[], j.alias, partition, i, Filter(alone, small));
      KeepCommutes(alone, partition, i, rows);
      FilterAll(KeepRow(partition, i), Filter(alone, small));
    }
  }

  // A later join keeps fine rows fine and others not.
  lemma FineThrough(b: Bound, j: Join, alias: AliasName, partition: ColumnName, i: Interval, rows: seq<TableRow>,
          sem: Semantics)
    requires j.alias != alias
    ensures Filter(IsFine(alias, partition, i), JoinLeft(b, j, rows, sem)) == if Fine(b, alias, partition, i)
            then JoinLeft(b, j, rows, sem) else []
  {
    hide JoinLeft, Passes;
    var out := JoinLeft(b, j, rows, sem);
    forall d | d in out ensures Fine(d, alias, partition, i) == Fine(b, alias, partition, i) {
      var r := LeftMember(b, j, rows, sem, d);
    }
    if Fine(b, alias, partition, i) {
      FilterAll(IsFine(alias, partition, i), out);
    } else {
      FilterNone(IsFine(alias, partition, i), out);
    }
  }

  lemma NeverFineRight(lefts: seq<Bound>, j: Join, alias: AliasName, partition: ColumnName, i: Interval,
          rows: seq<TableRow>, sem: Semantics)
    requires j.alias != alias
    ensures Filter(IsFine(alias, partition, i), JoinRight(lefts, j, rows, sem)) == []
  {
    var out := JoinRight(lefts, j, rows, sem);
    forall d | d in out ensures !Fine(d, alias, partition, i) {
      var k :| 0 <= k < |out| && out[k] == d;
    }
    FilterNone(IsFine(alias, partition, i), out);
  }

  lemma {:induction false} FineSame(q: Query, joins: seq<Join>, data: Data, sem: Semantics, i: Interval,
          alias: AliasName, partition: ColumnName)
    requires WellJoinedPrefix(q, joins)
    ensures Filter(IsFine(alias, partition, i), Joined(q, joins, Restricted(data, alias, partition, i), sem))
         == Filter(IsFine(alias, partition, i), Joined(q, joins, data, sem))
    decreases |joins|
  {
    var small := Restricted(data, alias, partition, i);
    var fine := IsFine(alias, partition, i);
    if joins == [] {
      FineStart(q, data, sem, i, alias, partition);
    } else {
      hide JoinLeft, JoinRight, Fine, Restricted, Introduced, Joined;
      var n := |joins| - 1;
      var j := joins[n];
      JoinedShorter(q, joins);
      RestrictedTable(data, alias, partition, i, j.alias);
      FineSame(q, joins[..n], data, sem, i, alias, partition);
      var before, beforeSmall := Joined(q, joins[..n], data, sem), Joined(q, joins[..n], small, sem);
      var rows, rowsSmall := TableOf(data, j.alias), TableOf(small, j.alias);
      var left, leftSmall := (b: Bound) => JoinLeft(b, j, rows, sem), (b: Bound) => JoinLeft(b, j, rowsSmall, sem);
      JoinedSplit(q, joins, data, sem, left);
      JoinedSplit(q, joins, small, sem, leftSmall);
      FilterConcat(fine, FlatMap(left, before), JoinRight(before, j, rows, sem));
      FilterConcat(fine, FlatMap(leftSmall, beforeSmall), JoinRight(beforeSmall, j, rowsSmall, sem));
      if j.alias == alias {
        OthersSame(data, alias, partition, i);
        NoInfluence(q, joins[..n], data, small, alias, sem);
        FilterCong(KeepRow(partition, i), (r: TableRow) => InInterval(PartitionOf(r, partition), i), rows);
        var fineOf := (b: Bound) => Filter(fine, JoinLeft(b, j, rows, sem));
        forall b | b in before ensures Filter(fine, leftSmall(b)) == fineOf(b) {
          BoundKeys(q, joins[..n], data, sem, b);
          FineLeftSame(b, j, partition, i, rows, sem);
        }
        FilterEach(fine, left, fineOf, before);
        FilterEach(fine, leftSmall, fineOf, before);
        FineRightSame(before, j, partition, i, rows, sem);
      } else {
        forall b: Bound ensures Filter(fine, left(b)) == if fine(b) then left(b) else [] {
          FineThrough(b, j, alias, partition, i, rows, sem);
        }
        FilterFlatMap(fine, left, fine, left, before);
        FilterFlatMap(fine, left, fine, left, beforeSmall);
        FlatMapCong(leftSmall, left, beforeSmall);
        NeverFineRight(before, j, alias, partition, i, rows, sem);
        NeverFineRight(beforeSmall, j, alias, partition, i, rowsSmall, sem);
      }
    }
  }

  lemma {:induction false} FilterEach<A(!new), B(!new)>(p: B -> bool, f: A -> seq<B>, g: A -> seq<B>, xs: seq<A>)
    requires forall x :: x in xs ==> Filter(p, f(x)) == g(x)
    ensures Filter(p, FlatMap(f, xs)) == FlatMap(g, xs)
  {
    if xs != [] {
      FilterConcat(p, f(xs[0]), FlatMap(f, xs[1..]));
      FilterEach(p, f, g, xs[1..]);
    }
  }

  lemma JoinedSplit(q: Query, joins: seq<Join>, data: Data, sem: Semantics, left: Bound -> seq<Bound>)
    requires joins != []
    requires forall b :: left(b) == JoinLeft(b, joins[|joins| - 1], TableOf(data, joins[|joins| - 1].alias), sem)
    ensures var before, j := Joined(q, joins[..|joins| - 1], data, sem), joins[|joins| - 1];
            Joined(q, joins, data, sem) == FlatMap(left, before) + JoinRight(before, j, TableOf(data, j.alias), sem)
  {
    hide JoinLeft, JoinRight;
    var before, j := Joined(q, joins[..|joins| - 1], data, sem), joins[|joins| - 1];
    FlatMapCong((b: Bound) => JoinLeft(b, j, TableOf(data, j.alias), sem), left, before);
  }

  lemma OthersSame(data: Data, alias: AliasName, partition: ColumnName, i: Interval)
    ensures forall other :: other != alias ==> TableOf(Restricted(data, alias, partition, i),
                                                       other) == TableOf(data, other)
  {
  }

  lemma FineStart(q: Query, data: Data, sem: Semantics, i: Interval, alias: AliasName, partition: ColumnName)
    ensures Filter(IsFine(alias, partition, i), Joined(q, [], Restricted(data, alias, partition, i), sem))
         == Filter(IsFine(alias, partition, i), Joined(q, [], data, sem))
  {
    hide Fine, Restricted;
    RestrictedTable(data, alias, partition, i, q.from);
    if q.from == alias {
      var rows := TableOf(data, alias);
      FilterCong(KeepRow(partition, i), (r: TableRow) => InInterval(PartitionOf(r, partition), i), rows);
      FineBinds(map[], alias, partition, i, rows);
      FineBinds(map[], alias, partition, i, Filter(KeepRow(partition, i), rows));
      FilterAll(KeepRow(partition, i), Filter(KeepRow(partition, i), rows));
    }
  }

  // ----- ON clauses that bound a table completely -----

  lemma {:induction false} BoundedJoinsSame(q: Query, joins: seq<Join>, data: Data, sem: Semantics, i: Interval,
                                            alias: AliasName, partition: ColumnName, grain: Grain)
    requires WellJoinedPrefix(q, joins) && InScopeBounds(q.from, joins, alias, partition, grain) == {Lower, Upper}
    requires forall j :: j in joins ==> Contains(i, OptionalLiterals(j.on), sem)
    ensures Joined(q, joins, Restricted(data, alias, partition, i), sem) == Joined(q, joins, data, sem)
    decreases |joins|
  {
    hide JoinLeft, JoinRight, Fine, Restricted, Introduced, Joined, OptionalBounds, OptionalLiterals, Contains;
    var small := Restricted(data, alias, partition, i);
    var n := |joins| - 1;
    var j := joins[n];
    assert j in joins && forall k :: k in joins[..n] ==> k in joins;
    JoinedShorter(q, joins);
    RestrictedTable(data, alias, partition, i, j.alias);
    if j.alias == alias {
      NotIntroduced(q.from, joins[..n], alias, partition, grain);
    }
    if InScopeBounds(q.from, joins[..n], alias, partition, grain) == {Lower, Upper} {
      BoundedJoinsSame(q, joins[..n], data, sem, i, alias, partition, grain);
      SameStep(q, joins, data, small, sem);
    } else if j.side == NoSide && j.kind == PlainKind {
      AllFine(q, joins, data, sem, i, alias, partition, grain);
      AllFine(q, joins, small, sem, i, alias, partition, grain);
      FineSame(q, joins, data, sem, i, alias, partition);
    } else {
      OthersSame(data, alias, partition, i);
      NoInfluence(q, joins[..n], data, small, alias, sem);
      var before, rows := Joined(q, joins[..n], data, sem), TableOf(data, alias);
      FilterCong(KeepRow(partition, i), (r: TableRow) => InInterval(PartitionOf(r, partition), i), rows);
      forall b | b in before ensures JoinLeft(b, j, TableOf(small, alias), sem) == JoinLeft(b, j, rows, sem) {
        OwnOnBounds(b, j, partition, grain, i, rows, sem);
      }
      var left, leftSmall := (b: Bound) => JoinLeft(b, j, rows,
                                                    sem), (b: Bound) => JoinLeft(b, j, TableOf(small, alias), sem);
      FlatMapCong(leftSmall, left, before);
      JoinedSplit(q, joins, data, sem, left);
      JoinedSplit(q, joins, small, sem, leftSmall);
      NoRight(before, j, rows, sem);
      NoRight(before, j, TableOf(small, alias), sem);
    }
  }

  lemma NoRight(lefts: seq<Bound>, j: Join, rows: seq<TableRow>, sem: Semantics)
    requires j.side == LeftSide
    ensures JoinRight(lefts, j, rows, sem) == []
  {
  }

  // A LEFT, SEMI or ANTI join whose own ON bounds its table never reads a row outside.
  lemma OwnOnBounds(b: Bound, j: Join, partition: ColumnName, grain: Grain, i: Interval, rows: seq<TableRow>,
          sem: Semantics)
    requires OptionalBounds(j.on, j.alias, partition, grain) == {Lower, Upper}
             && Contains(i, OptionalLiterals(j.on), sem)
    ensures JoinLeft(b, j, Filter(KeepRow(partition, i), rows), sem) == JoinLeft(b, j, rows, sem)
  {
    hide OptionalBounds, OptionalLiterals, Contains, Passes;
    var on := (r: TableRow) => Passes(j.on, b[j.alias := r], sem);
    KeepCommutes(on, partition, i, rows);
    forall r | r in Filter(on, rows) ensures KeepRow(partition, i)(r) {
      PassingKeepsBounds(j.on, j.alias, partition, grain, b[j.alias := r], sem, i, Lower);
      PassingKeepsBounds(j.on, j.alias, partition, grain, b[j.alias := r], sem, i, Upper);
    }
    FilterAll(KeepRow(partition, i), Filter(on, rows));
    assert Matching(b, j, Filter(KeepRow(partition, i), rows), sem) == Matching(b, j, rows, sem);
  }

  lemma AllFine(q: Query, joins: seq<Join>, data: Data, sem: Semantics, i: Interval, alias: AliasName,
          partition: ColumnName, grain: Grain)
    requires WellJoinedPrefix(q, joins) && joins != []
             && InScopeBounds(q.from, joins, alias, partition, grain) == {Lower, Upper}
    requires InScopeBounds(q.from, joins[..|joins| - 1], alias, partition, grain) != {Lower, Upper}
    requires joins[|joins| - 1].side == NoSide && joins[|joins| - 1].kind == PlainKind
    requires forall j :: j in joins ==> Contains(i, OptionalLiterals(j.on), sem)
    ensures Filter(IsFine(alias, partition, i), Joined(q, joins, data, sem)) == Joined(q, joins, data, sem)
  {
    hide Joined, OptionalBounds, OptionalLiterals, Contains, Passes;
    var j := joins[|joins| - 1];
    assert j in joins;
    var side := NewSide(InScopeBounds(q.from, joins[..|joins| - 1], alias, partition, grain),
                        OptionalBounds(j.on, alias, partition, grain));
    var out := Joined(q, joins, data, sem);
    forall d | d in out ensures Fine(d, alias, partition, i) {
      var b, r := JoinedMember(q, joins, data, sem, d);
      PassingKeepsBounds(j.on, alias, partition, grain, d, sem, i, side);
      BoundsHold(q, joins, data, sem, i, alias, partition, grain, d, Lower);
      BoundsHold(q, joins, data, sem, i, alias, partition, grain, d, Upper);
    }
    FilterAll(IsFine(alias, partition, i), out);
  }

  lemma InOneOf(a: set<Side>, b: set<Side>, s: Side)
    requires b + a == {Lower, Upper} && s !in a
    ensures s in b
  {
    assert s == Lower || s == Upper;
    assert s in {Lower, Upper};
  }

  lemma NewSide(before: set<Side>, here: set<Side>) returns (side: Side)
    requires before + here == {Lower, Upper} && before != {Lower, Upper}
    ensures side in here
  {
    if Lower in here {
      side := Lower;
    } else {
      assert Lower in before + here;
      assert Upper in before ==> before == {Lower, Upper};
      assert Upper in before + here;
      side := Upper;
    }
  }

  // ----- the whole query -----

  lemma LiteralsOf(q: Query, i: Interval, sem: Semantics)
    requires Contains(i, QueryLiterals(q), sem)
    ensures Contains(i, OptionalLiterals(q.where), sem) && forall j ::
            j in q.joins ==> Contains(i, OptionalLiterals(j.on), sem)
  {
    hide IsPeriod, InInterval, OptionalLiterals;
    forall j, s | j in q.joins && s in OptionalLiterals(j.on) ensures s in QueryLiterals(q) {
      FlatMapMember((j: Join) => OptionalLiterals(j.on), q.joins, s);
    }
  }

  lemma AnswersStayInside(q: Query, data: Data, sem: Semantics, i: Interval, alias: AliasName, partition: ColumnName,
          grain: Grain)
    requires WellJoined(q) && BoundedInScope(q, alias, partition, grain) && Contains(i, QueryLiterals(q), sem)
    ensures Answers(q, Restricted(data, alias, partition, i), sem) == Answers(q, data, sem)
  {
    hide Joined, Restricted, Fine, OptionalBounds, OptionalLiterals, QueryLiterals, Passes, Contains, WellJoinedPrefix;
    LiteralsOf(q, i, sem);
    if InScopeBounds(q.from, q.joins, alias, partition, grain) == {Lower, Upper} {
      BoundedJoinsSame(q, q.joins, data, sem, i, alias, partition, grain);
    } else {
      FineSame(q, q.joins, data, sem, i, alias, partition);
      PassingAreFine(q, data, sem, i, alias, partition, grain);
      PassingAreFine(q, Restricted(data, alias, partition, i), sem, i, alias, partition, grain);
    }
  }

  lemma PassingAreFine(q: Query, data: Data, sem: Semantics, i: Interval, alias: AliasName, partition: ColumnName,
          grain: Grain)
    requires WellJoinedPrefix(q, q.joins) && BoundedInScope(q, alias, partition, grain)
             && InScopeBounds(q.from, q.joins, alias, partition, grain) != {Lower, Upper}
    requires Contains(i, OptionalLiterals(q.where), sem) && forall j ::
             j in q.joins ==> Contains(i, OptionalLiterals(j.on), sem)
    ensures Answers(q, data, sem) == Filter((b: Bound) =>
                                            Passes(q.where, b, sem), Filter(IsFine(alias, partition, i),
                                                                            Joined(q, q.joins, data, sem)))
  {
    hide Joined, OptionalBounds, OptionalLiterals, Passes, Contains;
    var side := NewSide(InScopeBounds(q.from, q.joins, alias, partition, grain),
                        OptionalBounds(q.where, alias, partition, grain));
    var all := Joined(q, q.joins, data, sem);
    var where := (b: Bound) => Passes(q.where, b, sem);
    forall b | b in all && where(b) ensures Fine(b, alias, partition, i) {
      PassingKeepsBounds(q.where, alias, partition, grain, b, sem, i, side);
      forall s: Side ensures Inside(ValueAt(b, alias, partition), s, i) {
        if s in InScopeBounds(q.from, q.joins, alias, partition, grain) {
          BoundsHold(q, q.joins, data, sem, i, alias, partition, grain, b, s);
        } else {
          assert s in OptionalBounds(q.where, alias, partition,
                                     grain) by { InOneOf(InScopeBounds(q.from, q.joins, alias, partition, grain),
                                                         OptionalBounds(q.where, alias, partition, grain), s); }
          PassingKeepsBounds(q.where, alias, partition, grain, b, sem, i, s);
        }
      }
      assert Inside(ValueAt(b, alias, partition), Lower, i) && Inside(ValueAt(b, alias, partition), Upper, i);
    }
    FilterFilter(IsFine(alias, partition, i), where, where, all);
  }

  /** A query that stays bounded in scope has, for each checked table, a finite interval fixed by its own literals such
      that
      rows of the table outside it never matter: not as output, not as partners, not as blockers. */
  lemma BoundedQueriesStayInside(q: Query, alias: AliasName, partition: ColumnName, grain: Grain, sem: Semantics)
    returns (i: Interval)
    requires WellJoined(q) && BoundedInScope(q, alias, partition, grain)
    requires forall s :: IsPeriod(s) ==> sem.literal(s).Datum?
    ensures forall data: Data :: Answers(q, Restricted(data, alias, partition, i), sem) == Answers(q, data, sem)
  {
    hide IsPeriod, Answers, BoundedInScope, WellJoined, Restricted;
    i := SomeInterval(QueryLiterals(q), sem);
    forall data: Data ensures Answers(q, Restricted(data, alias, partition, i), sem) == Answers(q, data, sem) {
      AnswersStayInside(q, data, sem, i, alias, partition, grain);
    }
  }

  /** So the check itself is sound when no eligible ON clause speaks about the table before it is there. */
  lemma AcceptedQueriesStayInside(q: Query, alias: AliasName, partition: ColumnName, grain: Grain, sem: Semantics)
    returns (i: Interval)
    requires WellJoined(q) && SpokenInScope(q.from, q.joins, alias) && IsBounded(q, alias, partition, grain)
    requires forall s :: IsPeriod(s) ==> sem.literal(s).Datum?
    ensures forall data: Data :: Answers(q, Restricted(data, alias, partition, i), sem) == Answers(q, data, sem)
  {
    hide IsPeriod, Answers, WellJoined, Restricted, SpokenInScope;
    AllBoundsInScope(q.from, q.joins, alias, partition, grain);
    i := BoundedQueriesStayInside(q, alias, partition, grain, sem);
  }

  function ForwardQuery(): Query {
    Query(0, [Join(NoSide, PlainKind, 1, Some(Cond.Test(2, 0, Equals, [Constant("202401")]))),
              Join(RightSide, PlainKind, 2, None)], None)
  }

  lemma JanuaryIsPeriod()
    ensures IsPeriod("202401")
  {
    var s := "202401";
    assert s[..4] == "2024" && s[4..6] == "01";
    assert Number("2024") == 2024 by {
      assert "2024"[..3] == "202" && "202"[..2] == "20" && "20"[..1] == "2" && "2"[..0] == "";
      assert Number("2") == 2 && Number("20") == 20 && Number("202") == 202;
    }
    assert Number("01") == 1 by {
      assert "01"[..1] == "0" && "0"[..0] == "";
      assert Number("0") == 0;
    }
  }

  lemma ForwardIsBounded()
    ensures IsBounded(ForwardQuery(), 2, 0, AnyGrain)
  {
    hide IsPeriod;
    var q := ForwardQuery();
    JanuaryIsPeriod();
    assert ItemsArePeriods([Constant("202401")], AnyGrain) by {
      assert GrainFits("202401", AnyGrain);
    }
    assert q.joins[..1] == [q.joins[0]] && [q.joins[0]][..0] == [];
    assert OnBounds([], 2, 0, AnyGrain) == {};
    assert OnBounds([q.joins[0]], 2, 0, AnyGrain) == {Lower, Upper};
    assert OnBounds(q.joins, 2, 0, AnyGrain) == {Lower, Upper};
  }

  lemma ForwardIsNotInScope()
    ensures WellJoined(ForwardQuery()) && !BoundedInScope(ForwardQuery(), 2, 0, AnyGrain)
  {
    var q := ForwardQuery();
    assert q.joins[..0] == [] && q.joins[..1] == [q.joins[0]] && [q.joins[0]][..0] == [];
    assert WellJoinedAt(q, q.joins, 0) && WellJoinedAt(q, q.joins, 1);
    assert 2 !in Introduced(0, [q.joins[0]]);
    assert InScopeBounds(0, [], 2, 0, AnyGrain) == {};
    assert InScopeBounds(0, [q.joins[0]], 2, 0, AnyGrain) == {};
    assert InScopeBounds(0, q.joins, 2, 0, AnyGrain) == {};
  }

  /** The check also counts ON clauses that come before the table: such a clause may bound a table that only a
      later RIGHT JOIN brings in, and then no interval contains the rows that reach the output. */
  lemma ForwardReferenceIsUnbounded(sem: Semantics, i: Interval)
    ensures IsBounded(ForwardQuery(), 2, 0, AnyGrain) && WellJoined(ForwardQuery())
            && !BoundedInScope(ForwardQuery(), 2, 0, AnyGrain)
    ensures exists data: Data :: Answers(ForwardQuery(), Restricted(data, 2, 0, i),
                                         sem) != Answers(ForwardQuery(), data, sem)
  {
    hide Answers, IsBounded, WellJoined, BoundedInScope, Restricted;
    ForwardIsBounded();
    ForwardIsNotInScope();
    var r: TableRow := map[0 := Datum(i.high + 1.0)];
    var data: Data := map[2 := [r]];
    OnlyRight(data, sem, r);
    RestrictedTable(data, 2, 0, i, 0);
    RestrictedTable(data, 2, 0, i, 2);
    FilterNone((r: TableRow) => InInterval(PartitionOf(r, 0), i), [r]);
    OnlyRightEmpty(Restricted(data, 2, 0, i), sem);
  }

  lemma NothingBefore(data: Data, sem: Semantics)
    requires TableOf(data, 0) == []
    ensures Joined(ForwardQuery(), ForwardQuery().joins[..1], data, sem) == []
  {
    var q := ForwardQuery();
    assert q.joins[..1] == [q.joins[0]] && [q.joins[0]][..0] == [];
    assert Joined(q, [], data, sem) == [];
  }

  lemma OnlyRight(data: Data, sem: Semantics, r: TableRow)
    requires data == map[2 := [r]]
    ensures Answers(ForwardQuery(), data, sem) == [map[2 := r]]
  {
    var q := ForwardQuery();
    NothingBefore(data, sem);
    var j := q.joins[1];
    assert Filter((r: TableRow) => Unmatched([], j, r, sem), [r]) == [r];
    assert JoinRight([], j, [r], sem) == [map[2 := r]];
    var all := Joined(q, q.joins, data, sem);
    assert all == [map[2 := r]];
    FilterAll((b: Bound) => Passes(q.where, b, sem), all);
  }

  lemma OnlyRightEmpty(data: Data, sem: Semantics)
    requires TableOf(data, 0) == [] && TableOf(data, 2) == []
    ensures Answers(ForwardQuery(), data, sem) == []
  {
    var q := ForwardQuery();
    NothingBefore(data, sem);
    assert JoinRight([], q.joins[1], [], sem) == [];
    assert Joined(q, q.joins, data, sem) == [];
  }

  // ----- the bounds of a condition, said by what its truth forces -----

  /** A true test puts the partition value on this side of every interval that contains the test's literals. */
  ghost predicate Forces(t: Cond, alias: AliasName, partition: ColumnName, side: Side) {
    forall b, sem, i :: Contains(i, Literals(t), sem) && TruthOf(t, b, sem) == True ==>
      Inside(ValueAt(b, alias, partition), side, i)
  }

  /** Comparisons have one value, BETWEEN two, and an IN list at least one. */
  predicate CountsFit(c: Cond) {
    match c
    case Both(left, right) => CountsFit(left) && CountsFit(right)
    case Either(left, right) => CountsFit(left) && CountsFit(right)
    case Paren(inner) => CountsFit(inner)
    case Test(_, _, op, items) =>
      || op == OtherTest
      || if op == BetweenPair then |items| == 2 else if op == InList then |items| >= 1 else |items| == 1
    case Unread(_, _) => true
  }

  /** Every interval around the literals may be as small as one point, where all of them have one value. */
  lemma PointContains(t: Cond, x: real, sem: Semantics)
    requires forall s :: sem.literal(s) == Datum(x)
    ensures Contains(Interval(x, x), Literals(t), sem)
  {
    hide IsPeriod;
  }

  function AtPoint(alias: AliasName, partition: ColumnName, x: real): Bound {
    map[alias := map[partition := Datum(x)]]
  }

  const ZEROS := Semantics((s: string) => Datum(0.0), (n: nat, b: Bound) => Datum(0.0), (n: nat, b: Bound) => True,
                           (v: Value, xs: seq<Value>) => True)

  lemma ZeroItems(items: seq<Item>, b: Bound)
    requires forall i :: i in items ==> i.Constant?
    ensures var values := Map((i: Item) => ItemValue(i, b, ZEROS), items);
            |values| == |items| && forall k :: 0 <= k < |items| ==> values[k] == Datum(0.0)
  {
    forall k | 0 <= k < |items| ensures ItemValue(items[k], b, ZEROS) == Datum(0.0) {
      assert items[k] in items;
    }
  }

  // A one-sided comparison is true of a value on the far side.
  lemma FarSideIsTrue(alias: AliasName, partition: ColumnName, op: TestOp, items: seq<Item>, grain: Grain, x: real)
    requires |items| == 1 && ItemsArePeriods(items, grain)
    requires ((op == Greater || op == GreaterEq) && x == 1.0) || ((op == Less || op == LessEq) && x == -1.0)
    ensures TruthOf(Cond.Test(alias, partition, op, items), AtPoint(alias, partition, x), ZEROS) == True
  {
    hide IsPeriod;
    var b := AtPoint(alias, partition, x);
    ZeroItems(items, b);
    var values := Map((i: Item) => ItemValue(i, b, ZEROS), items);
    assert values[0] == Datum(0.0) && |values| == 1;
    assert ValueAt(b, alias, partition) == Datum(x);
  }

  /** The bounds collected from a test on the partition column are exactly the sides that its truth forces. */
  lemma TestIsExact(alias: AliasName, partition: ColumnName, op: TestOp, items: seq<Item>, grain: Grain, side: Side)
    requires ItemsArePeriods(items, grain) && CountsFit(Cond.Test(alias, partition, op, items))
    ensures side in Bounds(Cond.Test(alias, partition, op, items), alias, partition, grain)
       <==> Forces(Cond.Test(alias, partition, op, items), alias, partition, side)
  {
    hide IsPeriod, Contains, Number;
    var t := Cond.Test(alias, partition, op, items);
    if side in Bounds(t, alias, partition, grain) {
      forall b, sem, i | Contains(i, Literals(t), sem) && TruthOf(t, b, sem) == True
        ensures Inside(ValueAt(b, alias, partition), side, i) {
        TrueKeepsBounds(t, alias, partition, grain, b, sem, i, side);
      }
    } else {
      var x := if op == Less || op == LessEq then -1.0 else 1.0;
      var b := AtPoint(alias, partition, x);
      PointContains(t, 0.0, ZEROS);
      if op == OtherTest {
        OtherIsTrue(alias, partition, items, b);
        assert !Inside(ValueAt(AtPoint(alias, partition, 1.0), alias, partition), Upper, Interval(0.0, 0.0));
        OtherIsTrue(alias, partition, items, AtPoint(alias, partition, -1.0));
        assert !Inside(ValueAt(AtPoint(alias, partition, -1.0), alias, partition), Lower, Interval(0.0, 0.0));
      } else {
        FarSideIsTrue(alias, partition, op, items, grain, x);
        assert !Inside(ValueAt(b, alias, partition), side, Interval(0.0, 0.0));
      }
    }
  }

  lemma OtherIsTrue(alias: AliasName, partition: ColumnName, items: seq<Item>, b: Bound)
    ensures TruthOf(Cond.Test(alias, partition, OtherTest, items), b, ZEROS) == True
  {
  }

  /** What bounds a side: a test on the partition with period literals whose truth forces the side; either part of
      an AND; both parts of an OR. */
  ghost predicate Gives(c: Cond, alias: AliasName, partition: ColumnName, grain: Grain, side: Side) {
    match c
    case Both(left, right) =>
      Gives(left, alias, partition, grain, side) || Gives(right, alias, partition, grain, side)
    case Either(left, right) =>
      Gives(left, alias, partition, grain, side) && Gives(right, alias, partition, grain, side)
    case Paren(inner) => Gives(inner, alias, partition, grain, side)
    case Test(a, column, _, items) =>
      a == alias && column == partition && ItemsArePeriods(items, grain) && Forces(c, alias, partition, side)
    case Unread(_, _) => false
  }

  lemma {:induction false} BoundsAreGiven(c: Cond, alias: AliasName, partition: ColumnName, grain: Grain, side: Side)
    requires CountsFit(c)
    ensures side in Bounds(c, alias, partition, grain) <==> Gives(c, alias, partition, grain, side)
    decreases c
  {
    hide IsPeriod, Forces;
    match c
    case Both(left, right) =>
      BoundsAreGiven(left, alias, partition, grain, side);
      BoundsAreGiven(right, alias, partition, grain, side);
    case Either(left, right) =>
      BoundsAreGiven(left, alias, partition, grain, side);
      BoundsAreGiven(right, alias, partition, grain, side);
    case Paren(inner) => BoundsAreGiven(inner, alias, partition, grain, side);
    case Test(a, column, op, items) =>
      if a == alias && column == partition && ItemsArePeriods(items, grain) {
        TestIsExact(alias, partition, op, items, grain, side);
      }
    case Unread(_, _) =>
  }

  /** WHERE or an eligible ON clause bounds the side: ON of an inner join, or of the LEFT join that brings the table in.
      */
  ghost predicate Bounded(q: Query, alias: AliasName, partition: ColumnName, grain: Grain, side: Side) {
    || (q.where.Some? && Gives(q.where.value, alias, partition, grain, side))
    || (exists j :: j in q.joins && j.on.Some? && Gives(j.on.value, alias, partition, grain, side)
                    && ((j.side == NoSide && j.kind == PlainKind) || (j.side == LeftSide && j.alias == alias)))
  }

  lemma {:induction false} OnBoundsAre(joins: seq<Join>, alias: AliasName, partition: ColumnName, grain: Grain,
                                       side: Side)
    ensures side in OnBounds(joins, alias, partition, grain) <==>
              exists j :: j in joins && Counts(j, alias) && side in OptionalBounds(j.on, alias, partition, grain)
  {
    hide OptionalBounds, Counts;
    if joins != [] {
      var before, last := joins[..|joins| - 1], joins[|joins| - 1];
      assert joins == before + [last];
      OnBoundsAre(before, alias, partition, grain, side);
      if j :| j in joins && Counts(j, alias) && side in OptionalBounds(j.on, alias, partition, grain) {
        assert j in before || j == last;
      }
    }
  }

  /** The check accepts exactly the queries in which both sides are bounded. */
  lemma AcceptedExactly(q: Query, alias: AliasName, partition: ColumnName, grain: Grain)
    requires q.where.Some? ==> CountsFit(q.where.value)
    requires forall j :: j in q.joins && j.on.Some? ==> CountsFit(j.on.value)
    ensures IsBounded(q, alias, partition, grain) <==> forall side :: Bounded(q, alias, partition, grain, side)
  {
    hide Bounds, Gives;
    forall side ensures Bounded(q, alias, partition, grain, side) <==>
                        side in OptionalBounds(q.where, alias, partition, grain)
                                + OnBounds(q.joins, alias, partition, grain) {
      OnBoundsAre(q.joins, alias, partition, grain, side);
      if q.where.Some? {
        BoundsAreGiven(q.where.value, alias, partition, grain, side);
      }
      forall j | j in q.joins && j.on.Some?
        ensures side in Bounds(j.on.value, alias, partition, grain) <==>
                Gives(j.on.value, alias, partition, grain, side) {
        BoundsAreGiven(j.on.value, alias, partition, grain, side);
      }
    }
    var all := OptionalBounds(q.where, alias, partition, grain) + OnBounds(q.joins, alias, partition, grain);
    assert Bounded(q, alias, partition, grain, Lower) <==> Lower in all;
    assert Bounded(q, alias, partition, grain, Upper) <==> Upper in all;
    if Lower in all && Upper in all {
      OnlyTwoSides(all);
      forall side ensures Bounded(q, alias, partition, grain, side) {
        assert side == Lower || side == Upper;
      }
    }
  }

  // ----- the text of a period -----

  function Spelled(n: nat, width: nat): (s: string)
    ensures |s| == width && AllDigits(s)
  {
    if width == 0 then "" else Spelled(n / 10, width - 1) + [('0' as nat + n % 10) as char]
  }

  function Ten(width: nat): nat {
    if width == 0 then 1 else 10 * Ten(width - 1)
  }

  lemma {:induction false} NumberSpells(s: string)
    requires AllDigits(s)
    ensures s == Spelled(Number(s), |s|) && Number(s) < Ten(|s|)
  {
    if s != "" {
      var before, last := s[..|s| - 1], s[|s| - 1];
      assert s == before + [last] && last in s;
      assert AllDigits(before) by { forall c | c in before ensures '0' <= c <= '9' { assert c in s; } }
      NumberSpells(before);
      assert Number(s) / 10 == Number(before) && Number(s) % 10 == Digit(last);
    }
  }

  lemma {:induction false} SpelledNumber(n: nat, width: nat)
    requires n < Ten(width)
    ensures Number(Spelled(n, width)) == n
  {
    if width != 0 {
      SpelledNumber(n / 10, width - 1);
      var s := Spelled(n, width);
      assert s[..|s| - 1] == Spelled(n / 10, width - 1);
    }
  }

  function MonthText(m: Month): string
    requires ValidMonth(m)
  {
    Spelled(m.year, 4) + Spelled(m.month, 2)
  }

  function DayText(d: Day): string
    requires ValidDay(d)
  {
    Spelled(d.year, 4) + Spelled(d.month, 2) + Spelled(d.day, 2)
  }

  lemma Tens()
    ensures Ten(4) == 10000 && Ten(2) == 100
  {
    assert Ten(1) == 10 && Ten(2) == 100 && Ten(3) == 1000;
  }

  lemma MonthTextIsPeriod(m: Month)
    requires ValidMonth(m)
    ensures IsPeriod(MonthText(m))
  {
    hide DaysIn, Spelled;
    Tens();
    var s := MonthText(m);
    assert s[..4] == Spelled(m.year, 4) && s[4..6] == Spelled(m.month, 2);
    SpelledNumber(m.year, 4);
    SpelledNumber(m.month, 2);
  }

  lemma DayTextIsPeriod(d: Day)
    requires ValidDay(d)
    ensures IsPeriod(DayText(d))
  {
    hide Spelled;
    Tens();
    var s := DayText(d);
    assert s[..4] == Spelled(d.year, 4) && s[4..6] == Spelled(d.month, 2) && s[6..] == Spelled(d.day, 2);
    SpelledNumber(d.year, 4);
    SpelledNumber(d.month, 2);
    SpelledNumber(d.day, 2);
  }

  lemma DigitsOf(s: string, i: nat, j: nat)
    requires AllDigits(s) && i <= j <= |s|
    ensures AllDigits(s[i..j]) && s[i..j] == Spelled(Number(s[i..j]), j - i) && Number(s[i..j]) < Ten(j - i)
  {
    forall c | c in s[i..j] ensures '0' <= c <= '9' {
      assert c in s;
    }
    NumberSpells(s[i..j]);
  }

  /** A period literal is the text of a month or of a day of the calendar, and nothing else is one. */
  lemma PeriodText(s: string)
    ensures IsPeriod(s) <==>
              (exists m :: ValidMonth(m) && s == MonthText(m)) || (exists d :: ValidDay(d) && s == DayText(d))
  {
    hide Number, Spelled;
    Tens();
    if m :| ValidMonth(m) && s == MonthText(m) {
      MonthTextIsPeriod(m);
    }
    if d :| ValidDay(d) && s == DayText(d) {
      DayTextIsPeriod(d);
    }
    if IsPeriod(s) {
      DigitsOf(s, 0, 4);
      DigitsOf(s, 4, 6);
      assert s[0..4] == s[..4];
      var m := Month(Number(s[..4]), Number(s[4..6]));
      if |s| == 6 {
        assert s == s[..4] + s[4..6];
        assert ValidMonth(m) && s == MonthText(m);
      } else {
        DigitsOf(s, 6, 8);
        assert s[6..8] == s[6..];
        var d := Day(m.year, m.month, Number(s[6..]));
        assert s == s[..4] + s[4..6] + s[6..];
        assert ValidDay(d) && s == DayText(d);
      }
    }
  }

  /** Whether the grain takes months, and whether it takes days. */
  predicate TakesMonths(grain: Grain) {
    grain == MonthOnly || grain == AnyGrain
  }

  predicate TakesDays(grain: Grain) {
    grain == DayOnly || grain == AnyGrain
  }

  ghost predicate IsMonthText(text: string) {
    exists m :: ValidMonth(m) && text == MonthText(m)
  }

  ghost predicate IsDayText(text: string) {
    exists d :: ValidDay(d) && text == DayText(d)
  }

  /** The items of a test count when there are some, and all are literals: texts of months or days of the calendar,
      as the grain takes them. */
  lemma ItemsAreTexts(items: seq<Item>, grain: Grain)
    ensures ItemsArePeriods(items, grain) <==>
              && items != []
              && forall i :: i in items ==>
                   && i.Constant?
                   && ((TakesMonths(grain) && IsMonthText(i.text)) || (TakesDays(grain) && IsDayText(i.text)))
  {
    hide IsPeriod, MonthText, DayText;
    forall i | i in items && i.Constant?
      ensures IsPeriod(i.text) && GrainFits(i.text, grain) <==>
              (TakesMonths(grain) && IsMonthText(i.text)) || (TakesDays(grain) && IsDayText(i.text)) {
      PeriodText(i.text);
      TextLengths(i.text);
    }
  }

  lemma TextLengths(text: string)
    ensures IsMonthText(text) ==> |text| == 6
    ensures IsDayText(text) ==> |text| == 8
  {
    hide Spelled;
  }
}
