/** What comparisons, filter trees, aggregates and groups mean, stated on the values alone. */
module SqlReading {
  import opened SeqOps
  import opened Sql

  // ----- comparisons -----

  /** The operator holds between two numbers. */
  predicate Relates(op: CompareOp, x: real, y: real) {
    || (op == EQ && x == y) || (op == NE && x < y) || (op == NE && x > y) || (op == GT && y < x)
    || (op == GTE && !(x < y)) || (op == LT && x < y) || (op == LTE && !(y < x))
  }

  predicate IsBinary(op: CompareOp) {
    op in {EQ, NE, GT, GTE, LT, LTE}
  }

  /** When a comparison is true, false, and neither. */
  ghost predicate ComparesTo(op: CompareOp, v: Value, items: seq<Value>, t: Truth) {
    match op
    case IS_NULL => t == if v == Null then True else False
    case IN =>
      && (t == True <==> v != Null && v in items)
      && (t == False <==> items == [] || (v != Null && v !in items && Null !in items))
    case BETWEEN =>
      |items| == 2 ==>
        (t == True <==> v.Datum? && items[0].Datum? && items[1].Datum? && items[0].x <= v.x <= items[1].x)
    case _ =>
      |items| == 1 ==>
        if v == Null || items[0] == Null then t == Unknown
        else t == if Relates(op, v.x, items[0].x) then True else False
  }

  lemma {:induction false} MemberExactly(v: Value, items: seq<Value>)
    ensures MemberOf(v, items) == True <==> v.Datum? && v in items
    ensures MemberOf(v, items) == False <==> items == [] || (v.Datum? && v !in items && Null !in items)
  {
    if items != [] {
      MemberExactly(v, items[1..]);
      assert items == [items[0]] + items[1..];
    }
  }

  /** Every comparison has its SQL truth value. */
  lemma LeafExactly(op: CompareOp, v: Value, items: seq<Value>)
    ensures ComparesTo(op, v, items, EvalLeaf(op, v, items))
  {
    MemberExactly(v, items);
  }

  // ----- filter trees -----

  /** AND is true when all parts are, false when one is; OR the other way round; NOT exchanges true and false. */
  lemma {:induction false} AndExactly<L>(parts: seq<Pred<L>>, look: L -> Operand, lit: Literals)
    ensures Eval(AllOf(parts), look, lit) == True <==>
              forall i :: 0 <= i < |parts| ==> Eval(parts[i], look, lit) == True
    ensures Eval(AllOf(parts), look, lit) == False <==>
              exists i :: 0 <= i < |parts| && Eval(parts[i], look, lit) == False
    decreases |parts|
  {
    if parts != [] {
      AndExactly(parts[1..], look, lit);
      assert Eval(AllOf(parts), look, lit) == And3(Eval(parts[0], look, lit), Eval(AllOf(parts[1..]), look, lit));
      assert parts == [parts[0]] + parts[1..];
    }
  }

  lemma {:induction false} OrExactly<L>(parts: seq<Pred<L>>, look: L -> Operand, lit: Literals)
    ensures Eval(AnyOf(parts), look, lit) == True <==>
              exists i :: 0 <= i < |parts| && Eval(parts[i], look, lit) == True
    ensures Eval(AnyOf(parts), look, lit) == False <==>
              forall i :: 0 <= i < |parts| ==> Eval(parts[i], look, lit) == False
    decreases |parts|
  {
    if parts != [] {
      OrExactly(parts[1..], look, lit);
      assert Eval(AnyOf(parts), look, lit) == Or3(Eval(parts[0], look, lit), Eval(AnyOf(parts[1..]), look, lit));
      assert parts == [parts[0]] + parts[1..];
    }
  }

  lemma NotExactly<L>(part: Pred<L>, look: L -> Operand, lit: Literals)
    ensures Eval(Negate(part), look, lit) == True <==> Eval(part, look, lit) == False
    ensures Eval(Negate(part), look, lit) == False <==> Eval(part, look, lit) == True
  {
  }

  /** A comparison reads its literals in the type of its operand. */
  lemma OperandExactly<L>(operand: L, op: CompareOp, values: seq<string>, look: L -> Operand, lit: Literals)
    ensures exists items: seq<Value> ::
              && |items| == |values|
              && (forall i :: 0 <= i < |items| ==> items[i] == lit(look(operand).dtype, values[i]))
              && ComparesTo(op, look(operand).value, items, Eval(Leaf(operand, op, values), look, lit))
  {
    hide ComparesTo;
    var o := look(operand);
    var items := Map(s => lit(o.dtype, s), values);
    LeafExactly(op, o.value, items);
  }

  // ----- aggregates -----

  /** The arguments that count: those that are not null, each value once for DISTINCT. */
  ghost predicate Used(args: seq<Value>, distinct: bool, used: seq<Value>) {
    if distinct then NoDup(used) && forall v :: v in used <==> v in args && v != Null
    else multiset(used) == multiset(args)[Null := 0]
  }

  function SumOf(xs: seq<Value>): real {
    if xs == [] then 0.0 else SumOf(xs[..|xs| - 1]) + match xs[|xs| - 1] { case Datum(x) => x case Null => 0.0 }
  }

  predicate Averages(v: real, n: nat, total: real) {
    v * n as real == total
  }

  /** The value of an aggregate over the arguments that count. */
  ghost predicate Aggregates(fn: AggFunction, used: seq<Value>, v: Value) {
    match fn
    case Count => v == Datum(|used| as real)
    case Sum => if used == [] then v == Null else v == Datum(SumOf(used))
    case Avg => if used == [] then v == Null else v.Datum? && Averages(v.x, |used|, SumOf(used))
    case Min => if used == [] then v == Null else v in used && v.Datum? && forall x :: Datum(x) in used ==> v.x <= x
    case Max => if used == [] then v == Null else v in used && v.Datum? && forall x :: Datum(x) in used ==> x <= v.x
  }

  lemma {:induction false} OccurrencesAre<A(!new)>(xs: seq<A>)
    ensures NoDup(FirstOccurrences(xs)) && forall x :: x in FirstOccurrences(xs) <==> x in xs
  {
    if xs != [] {
      var n := |xs| - 1;
      OccurrencesAre(xs[..n]);
      assert xs == xs[..n] + [xs[n]];
    }
  }

  lemma {:induction false} PresentAre(args: seq<Value>)
    ensures multiset(Filter((v: Value) => v.Datum?, args)) == multiset(args)[Null := 0]
  {
    if args != [] {
      PresentAre(args[1..]);
      assert args == [args[0]] + args[1..];
    }
  }

  lemma {:induction false} TotalSnoc(xs: seq<Value>, v: Value)
    ensures Total(xs + [v]) == Total(xs) + if v.Datum? then v.x else 0.0
  {
    if xs == [] {
      assert xs + [v] == [v];
    } else {
      assert (xs + [v])[1..] == xs[1..] + [v];
      TotalSnoc(xs[1..], v);
    }
  }

  lemma {:induction false} TotalIsSum(xs: seq<Value>)
    ensures Total(xs) == SumOf(xs)
  {
    if xs != [] {
      var n := |xs| - 1;
      TotalIsSum(xs[..n]);
      TotalSnoc(xs[..n], xs[n]);
      assert xs == xs[..n] + [xs[n]];
    }
  }

  /** No smaller value for MIN, no larger one for MAX. */
  predicate NotBeyond(op: CompareOp, v: Value, x: Value) {
    v.Datum? && x.Datum? && if op == LT then v.x <= x.x else v.x >= x.x
  }

  lemma {:induction false} ExtremeIs(op: CompareOp, xs: seq<Value>)
    requires (op == LT || op == GT) && forall x :: x in xs ==> x.Datum?
    ensures xs == [] <==> Extreme(op, xs) == Null
    ensures xs != [] ==> Extreme(op, xs) in xs
    ensures forall x :: x in xs ==> NotBeyond(op, Extreme(op, xs), x)
  {
    if xs != [] {
      ExtremeIs(op, xs[1..]);
      var rest := Extreme(op, xs[1..]);
      assert xs[0] in xs;
      forall x | x in xs ensures NotBeyond(op, Extreme(op, xs), x) {
        if x != xs[0] {
          assert x in xs[1..] && NotBeyond(op, rest, x);
        }
      }
    }
  }

  lemma AverageIs(total: real, n: nat)
    ensures n > 0 ==> Averages(total / n as real, n, total)
  {
  }

  /** COUNT(*) counts rows; every other aggregate is taken over the arguments that count. */
  lemma AggregateExactly(spec: AggSpec, args: seq<Value>)
    ensures spec.star ==> AggregateValue(spec, args) == Datum(|args| as real)
    ensures !spec.star ==>
              exists used :: Used(args, spec.distinct, used) && Aggregates(spec.fn, used, AggregateValue(spec, args))
  {
    if !spec.star {
      var present := Filter((v: Value) => v.Datum?, args);
      var used := if spec.distinct then FirstOccurrences(present) else present;
      UsedAre(args, spec.distinct, present, used);
      ValueFits(spec, args, present, used);
    }
  }

  lemma UsedAre(args: seq<Value>, distinct: bool, present: seq<Value>, used: seq<Value>)
    requires present == Filter((v: Value) => v.Datum?, args)
    requires used == if distinct then FirstOccurrences(present) else present
    ensures Used(args, distinct, used) && forall v :: v in used ==> v.Datum?
  {
    OccurrencesAre(present);
    PresentAre(args);
  }

  lemma ValueFits(spec: AggSpec, args: seq<Value>, present: seq<Value>, used: seq<Value>)
    requires !spec.star && present == Filter((v: Value) => v.Datum?, args)
    requires used == if spec.distinct then FirstOccurrences(present) else present
    requires forall v :: v in used ==> v.Datum?
    ensures Aggregates(spec.fn, used, AggregateValue(spec, args))
  {
    hide Total, SumOf, Extreme, FirstOccurrences, Averages, Filter;
    match spec.fn
    case Count =>
    case Sum => TotalIsSum(used);
    case Avg =>
      TotalIsSum(used);
      AverageIs(Total(used), |used|);
    case Min => ExtremeIs(LT, used);
    case Max => ExtremeIs(GT, used);
  }

  // ----- groups -----

  lemma {:induction false} NamedCells(names: seq<Column>, values: seq<Value>, i: nat)
    requires |names| == |values| && NoDup(names) && i < |names|
    ensures names[i] in NamedRow(names, values) && NamedRow(names, values)[names[i]] == values[i]
    decreases |names|
  {
    var n := |names| - 1;
    if i < n {
      ShorterNoDup(names, n);
      assert names[i] != names[n];
      hide NoDup;
      NamedCells(names[..n], values[..n], i);
    }
  }

  lemma ShorterNoDup<A>(xs: seq<A>, n: nat)
    requires NoDup(xs) && n <= |xs|
    ensures NoDup(xs[..n])
  {
  }

  lemma {:induction false} NamedColumns(names: seq<Column>, values: seq<Value>)
    requires |names| == |values|
    ensures forall c :: c in NamedRow(names, values) <==> c in names
    decreases |names|
  {
    if names != [] {
      var n := |names| - 1;
      NamedColumns(names[..n], values[..n]);
      assert names == names[..n] + [names[n]];
    }
  }

  /** The arguments at one place, of the inputs with the key, in input order. */
  function Gathered(inputs: seq<AggInput>, key: seq<Value>, j: nat): seq<Value> {
    if inputs == [] then []
    else
      var last := inputs[|inputs| - 1];
      Gathered(inputs[..|inputs| - 1], key, j)
      + if last.key == key then [if j < |last.args| then last.args[j] else Null] else []
  }

  lemma {:induction false} GatheredAre(inputs: seq<AggInput>, key: seq<Value>, j: nat)
    ensures Map((i: AggInput) => if j < |i.args| then i.args[j] else Null,
                Filter((i: AggInput) => i.key == key, inputs)) == Gathered(inputs, key, j)
  {
    if inputs != [] {
      var n := |inputs| - 1;
      var arg := (i: AggInput) => if j < |i.args| then i.args[j] else Null;
      var same := (i: AggInput) => i.key == key;
      GatheredAre(inputs[..n], key, j);
      FilterSnoc(same, inputs);
      hide Filter, Map;
      var small := Filter(same, inputs[..n]);
      if same(inputs[n]) {
        MapSnoc(arg, small, inputs[n]);
      } else {
        assert small + [] == small;
      }
    }
  }

  /** The row of a group: its key under the key names, and one aggregate of its members under every other name. */
  ghost predicate IsGroupRow(keys: seq<Column>, specs: seq<AggSpec>, key: seq<Value>, inputs: seq<AggInput>, row: Row) {
    && (forall c :: c in row <==> c in keys || exists j :: 0 <= j < |specs| && specs[j].name == c)
    && (forall j :: 0 <= j < |keys| && j < |key| ==> Cell(row, keys[j]) == key[j])
    && forall j :: 0 <= j < |specs| ==>
         Cell(row, specs[j].name) == AggregateValue(specs[j], Gathered(inputs, key, j))
  }

  lemma GroupRowIs(keys: seq<Column>, specs: seq<AggSpec>, key: seq<Value>, inputs: seq<AggInput>)
    requires NoDup(keys + Map((s: AggSpec) => s.name, specs))
    ensures IsGroupRow(keys, specs, key, inputs, GroupRow(keys, specs, key, inputs))
  {
    hide AggregateValue, NamedRow, NoDup, IsGroupRow, Gathered;
    var members := Filter((i: AggInput) => i.key == key, inputs);
    var keyValues := seq(|keys|, j requires 0 <= j < |keys| => if j < |key| then key[j] else Null);
    var values := seq(|specs|, j requires 0 <= j < |specs| =>
      AggregateValue(specs[j], Map((i: AggInput) => if j < |i.args| then i.args[j] else Null, members)));
    forall j | 0 <= j < |specs| ensures values[j] == AggregateValue(specs[j], Gathered(inputs, key, j)) {
      GatheredAre(inputs, key, j);
    }
    NamedIsGroupRow(keys, specs, key, inputs, keyValues, values);
  }

  lemma NamedIsGroupRow(keys: seq<Column>, specs: seq<AggSpec>, key: seq<Value>, inputs: seq<AggInput>,
                        keyValues: seq<Value>, values: seq<Value>)
    requires NoDup(keys + Map((s: AggSpec) => s.name, specs)) && |keyValues| == |keys| && |values| == |specs|
    requires forall j :: 0 <= j < |keys| && j < |key| ==> keyValues[j] == key[j]
    requires forall j :: 0 <= j < |specs| ==> values[j] == AggregateValue(specs[j], Gathered(inputs, key, j))
    ensures IsGroupRow(keys, specs, key, inputs,
                       NamedRow(keys + Map((s: AggSpec) => s.name, specs), keyValues + values))
  {
    hide AggregateValue, NamedRow, Gathered, NoDup;
    var names := keys + Map((s: AggSpec) => s.name, specs);
    var row := NamedRow(names, keyValues + values);
    NamesAre(keys, specs, row, names, keyValues + values);
    forall j | 0 <= j < |keys| ensures Cell(row, keys[j]) == keyValues[j] {
      NamedCells(names, keyValues + values, j);
    }
    forall j | 0 <= j < |specs| ensures Cell(row, specs[j].name) == values[j] {
      NamedCells(names, keyValues + values, |keys| + j);
    }
  }

  lemma NamesAre(keys: seq<Column>, specs: seq<AggSpec>, row: Row, names: seq<Column>, values: seq<Value>)
    requires names == keys + Map((s: AggSpec) => s.name, specs) && |names| == |values|
    requires row == NamedRow(names, values)
    ensures forall c :: c in row <==> c in keys || exists j :: 0 <= j < |specs| && specs[j].name == c
  {
    hide NamedRow;
    NamedColumns(names, values);
    forall c ensures c in names <==> c in keys || exists j :: 0 <= j < |specs| && specs[j].name == c {
      if j :| 0 <= j < |specs| && specs[j].name == c {
        assert names[|keys| + j] == c;
      }
      if k :| 0 <= k < |names| && names[k] == c {
        if k >= |keys| {
          assert specs[k - |keys|].name == c;
        }
      }
    }
  }

  /** Grouping gives one row for every different key of an input, or one row in all when nothing is grouped by. */
  lemma GroupsExactly(keys: seq<Column>, specs: seq<AggSpec>, inputs: seq<AggInput>)
    requires NoDup(keys + Map((s: AggSpec) => s.name, specs))
    ensures exists groups: seq<seq<Value>> ::
              && NoDup(groups) && (keys == [] ==> groups == [[]])
              && (keys != [] ==> forall g :: g in groups <==> exists i :: i in inputs && i.key == g)
              && |Aggregate(keys, specs, inputs)| == |groups|
              && forall r :: 0 <= r < |groups| ==>
                   IsGroupRow(keys, specs, groups[r], inputs, Aggregate(keys, specs, inputs)[r])
  {
    hide GroupRow, IsGroupRow, FirstOccurrences;
    var keyOf := (i: AggInput) => i.key;
    var groups := if keys == [] then [[]] else FirstOccurrences(Map(keyOf, inputs));
    OccurrencesAre(Map(keyOf, inputs));
    forall g ensures g in Map(keyOf, inputs) <==> exists i :: i in inputs && i.key == g {
      MapHas(keyOf, inputs, g);
    }
    var rows := Aggregate(keys, specs, inputs);
    assert rows == Map(key => GroupRow(keys, specs, key, inputs), groups);
    forall r | 0 <= r < |groups| ensures IsGroupRow(keys, specs, groups[r], inputs, rows[r]) {
      GroupRowIs(keys, specs, groups[r], inputs);
    }
  }
}
