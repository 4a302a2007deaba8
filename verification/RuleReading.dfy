/** What a parsed rule condition says, node by node, stated on the graph and without the parser.
    For `_parse_expression` of ontology_core/semantic_parser.py. */
module RuleReading {
  import opened SeqOps
  import opened RuleExpressions
  import opened RuleParser

  // ----- comparisons -----

  /** An expression says what a node without arguments says: its operator, its known property, and its values or its
      parameter, all of them and nothing else. */
  ghost predicate SaysLeaf(g: Graph, shape: Shape, e: Expr) {
    match shape
    case NullTest(property) =>
      property in g.properties && e == Expr(IsNull, property, [], 0, [])
    case Listed(op, property, heads) =>
      && property in g.properties && e == Expr(op, property, e.values, 0, [])
      && |e.values| <= 1024
      && (if op == In then 1 <= |e.values| else if op == Between then |e.values| == 2 else 2 <= |e.values|)
      && |heads| == 1 && exists spine :: Spells(g, heads[0], spine, e.values)
    case Compared(op, property, values, parameters) =>
      && property in g.properties
      && ((exists l :: values == [Text(l)] && parameters == [] && e == Expr(op, property, [l], 0, []))
          || (exists l :: parameters == [Text(l)] && values == [] && e == Expr(op, property, [], l.lexical, [])))
    case _ => false
  }

  /** A node without arguments is read exactly when there is something that it says, and as that. */
  lemma LeafIsReadExactly(g: Graph, shape: Shape, e: Expr)
    ensures LeafExpr(g, shape) == Some(e) <==> SaysLeaf(g, shape, e)
  {
    hide Spells, ReadList;
    match shape
    case NullTest(_) =>
    case Listed(op, property, heads) =>
      if |heads| == 1 {
        var minimum, exact := if op == In then 1 else 2, if op == Between then Some(2) else None;
        ListIsReadExactly(g, heads[0], minimum, exact, e.values);
        var values := ReadList(g, heads[0], minimum, exact);
        if values.Some? {
          ListIsReadExactly(g, heads[0], minimum, exact, values.value);
        }
      }
    case Compared(op, property, values, parameters) =>
      if |values| == 1 && values[0].Text? {
        assert values == [Text(values[0].literal)];
      }
      if |parameters| == 1 && parameters[0].Text? {
        assert parameters == [Text(parameters[0].literal)];
      }
    case _ =>
  }

  // ----- whole conditions -----

  /** AND and OR have at least two arguments, NOT has one. */
  predicate HasArguments(shape: Shape) {
    shape.Logical? && if shape.op == Not then |shape.arguments| == 1 else 2 <= |shape.arguments|
  }

  /** An expression says what a node says: comparisons as above; AND, OR and NOT what all their arguments say,
      each argument once, in the order of the keys. */
  ghost predicate SaysNode(g: Graph, node: Id, e: Expr)
    decreases e
  {
    var shape := ShapeAt(g, node);
    if !HasArguments(shape) then SaysLeaf(g, shape, e)
    else
      && e == Expr(shape.op, 0, [], 0, e.children)
      && (shape.op != Not ==> InOrder(Map(EntryOf, e.children)))
      && exists es: seq<Expr> ::
           && multiset(es) == multiset(e.children) && |es| == |shape.arguments|
           && forall i :: 0 <= i < |es| ==> es[i] in e.children && SaysNode(g, shape.arguments[i], es[i])
  }

  function ExprOf(n: Entry): Expr {
    n.expr
  }

  lemma EntriesOfExprs(ns: seq<Entry>)
    requires forall n :: n in ns ==> n == EntryOf(n.expr)
    ensures Map(EntryOf, Map(ExprOf, ns)) == ns
  {
    hide KeyOf;
    forall i | 0 <= i < |ns| ensures EntryOf(ExprOf(ns[i])) == ns[i] {
      assert ns[i] in ns;
    }
  }

  lemma ExprsOfEntries(es: seq<Expr>)
    ensures Map(ExprOf, Map(EntryOf, es)) == es
    ensures forall n :: n in Map(EntryOf, es) ==> n == EntryOf(n.expr)
  {
    hide KeyOf;
  }

  lemma SortExprsIs(es: seq<Expr>)
    ensures SortExprs(es) == Map(ExprOf, Sorted(Map(EntryOf, es)))
  {
    hide Sorted, KeyOf;
    MapCong((n: Entry) => n.expr, ExprOf, Sorted(Map(EntryOf, es)));
  }

  lemma SortedChildren(es: seq<Expr>)
    ensures multiset(SortExprs(es)) == multiset(es) && InOrder(Map(EntryOf, SortExprs(es)))
  {
    hide *;
    var entries := Map(EntryOf, es);
    var sorted := Sorted(entries);
    SortedIsInOrder(entries);
    SortExprsIs(es);
    ExprsOfEntries(es);
    forall n | n in sorted ensures n == EntryOf(n.expr) {
      assert n in multiset(sorted) && n in multiset(entries);
    }
    EntriesOfExprs(sorted);
    MapSameBag(ExprOf, sorted, entries);
  }

  lemma SortedIsOnly(es: seq<Expr>, children: seq<Expr>)
    requires multiset(es) == multiset(children) && InOrder(Map(EntryOf, children))
    ensures SortExprs(es) == children
  {
    hide Cmp, CmpAll, KeyOf, Sorted, InOrder, SortExprs;
    SortedChildren(es);
    var a, b := Map(EntryOf, SortExprs(es)), Map(EntryOf, children);
    MapSameBag(EntryOf, SortExprs(es), children);
    forall m, n | m in a && n in a && m.key == n.key ensures m == n {
      var i :| 0 <= i < |a| && a[i] == m;
      var j :| 0 <= j < |a| && a[j] == n;
      KeyIsInjective(SortExprs(es)[i], SortExprs(es)[j]);
    }
    OrderedIsUnique(a, b);
    forall i | 0 <= i < |children| ensures SortExprs(es)[i] == children[i] {
      assert a[i].expr == SortExprs(es)[i] && b[i].expr == children[i];
    }
    assert |a| == |b|;
  }

  lemma {:induction false} TreeSays(g: Graph, node: Id, n: nat)
    requires Tree(g, node, n).Some?
    ensures SaysNode(g, node, Tree(g, node, n).value)
    decreases n
  {
    hide Tree, Trees, LeafExpr, Build, SaysLeaf, InOrder, KeyOf, EntryOf, SaysNode;
    var e := Tree(g, node, n).value;
    NoTree(g, node);
    TreeStep(g, node, n);
    if !IsLogical(g, node) {
      LeafIsReadExactly(g, ShapeAt(g, node), e);
      LeafSays(g, node, e);
    } else {
      var arguments := Arguments(g, node);
      var es := Trees(g, arguments, n - 1).value;
      BuiltSays(ShapeAt(g, node).op, es);
      forall i | 0 <= i < |es| ensures es[i] in e.children && SaysNode(g, arguments[i], es[i]) {
        assert arguments[i] in arguments;
        assert es[i] in multiset(es);
        TreeSays(g, arguments[i], n - 1);
      }
      ArgumentsSay(g, node, e, es);
    }
  }

  lemma LeafSays(g: Graph, node: Id, e: Expr)
    requires !IsLogical(g, node) && SaysLeaf(g, ShapeAt(g, node), e)
    ensures SaysNode(g, node, e)
  {
    hide SaysLeaf;
  }

  lemma ArgumentsSay(g: Graph, node: Id, e: Expr, es: seq<Expr>)
    requires IsLogical(g, node) && e == Expr(ShapeAt(g, node).op, 0, [], 0, e.children)
    requires e.op != Not ==> InOrder(Map(EntryOf, e.children))
    requires multiset(es) == multiset(e.children) && |es| == |Arguments(g, node)|
    requires forall i :: 0 <= i < |es| ==> es[i] in e.children && SaysNode(g, Arguments(g, node)[i], es[i])
    ensures SaysNode(g, node, e)
  {
    hide SaysLeaf, InOrder, KeyOf;
  }

  lemma BuiltSays(op: Op, es: seq<Expr>)
    ensures var e := Build(op, es);
            && e == Expr(op, 0, [], 0, e.children) && multiset(es) == multiset(e.children)
            && (op != Not ==> InOrder(Map(EntryOf, e.children)))
  {
    SortedChildren(es);
  }

  lemma SaidArguments(g: Graph, node: Id, e: Expr) returns (es: seq<Expr>)
    requires SaysNode(g, node, e) && IsLogical(g, node)
    ensures e == Expr(ShapeAt(g, node).op, 0, [], 0, e.children)
    ensures e.op != Not ==> InOrder(Map(EntryOf, e.children))
    ensures multiset(es) == multiset(e.children) && |es| == |Arguments(g, node)|
    ensures forall i :: 0 <= i < |es| ==> es[i] in e.children && SaysNode(g, Arguments(g, node)[i], es[i])
  {
    hide SaysLeaf, InOrder, KeyOf;
    es :| multiset(es) == multiset(e.children) && |es| == |Arguments(g, node)|
          && forall i :: 0 <= i < |es| ==> es[i] in e.children && SaysNode(g, Arguments(g, node)[i], es[i]);
  }

  lemma SaidLeaf(g: Graph, node: Id, e: Expr)
    requires SaysNode(g, node, e) && !IsLogical(g, node)
    ensures SaysLeaf(g, ShapeAt(g, node), e)
  {
    hide SaysLeaf;
  }

  lemma BuiltIs(op: Op, es: seq<Expr>, e: Expr)
    requires e == Expr(op, 0, [], 0, e.children) && multiset(es) == multiset(e.children) && (op == Not ==> |es| == 1)
    requires op != Not ==> InOrder(Map(EntryOf, e.children))
    ensures Build(op, es) == e
  {
    hide SortExprs, InOrder, KeyOf, Cmp;
    if op != Not {
      SortedIsOnly(es, e.children);
    } else {
      SameSingle(es, e.children);
    }
  }

  lemma {:induction false} SaysTree(g: Graph, node: Id, e: Expr) returns (n: nat)
    requires SaysNode(g, node, e)
    ensures Tree(g, node, n) == Some(e)
    decreases e, 1, 0
  {
    hide Tree, Trees, LeafExpr, Build, SaysLeaf, SaysNode, InOrder, KeyOf;
    if !IsLogical(g, node) {
      n := 1;
      SaidLeaf(g, node, e);
      TreeStep(g, node, 1);
      LeafIsReadExactly(g, ShapeAt(g, node), e);
    } else {
      var es := SaidArguments(g, node, e);
      var m := ChildrenTrees(g, Arguments(g, node), es, e);
      n := m + 1;
      TreeStep(g, node, n);
      SameTrees(g, Arguments(g, node), m, es);
      BuiltIs(ShapeAt(g, node).op, es, e);
    }
  }

  lemma SameSingle<A>(xs: seq<A>, ys: seq<A>)
    requires |xs| == 1 && multiset(xs) == multiset(ys)
    ensures xs == ys
  {
    assert |multiset(ys)| == 1 && xs[0] in multiset(ys);
  }

  lemma SameTrees(g: Graph, nodes: seq<Id>, m: nat, es: seq<Expr>)
    requires |es| == |nodes| && forall i :: 0 <= i < |nodes| ==> Tree(g, nodes[i], m) == Some(es[i])
    ensures Trees(g, nodes, m) == Some(es)
  {
    hide Tree, Trees;
    forall x | x in nodes ensures Tree(g, x, m).Some? {
      var i :| 0 <= i < |nodes| && nodes[i] == x;
    }
    var r := Trees(g, nodes, m).value;
    forall i | 0 <= i < |nodes| ensures r[i] == es[i] {
      assert Tree(g, nodes[i], m) == Some(r[i]);
    }
    assert r == es;
  }

  // One bound for all arguments.
  lemma {:induction false} ChildrenTrees(g: Graph, nodes: seq<Id>, es: seq<Expr>, e: Expr) returns (m: nat)
    requires |es| == |nodes| && forall i :: 0 <= i < |es| ==> es[i] in e.children && SaysNode(g, nodes[i], es[i])
    ensures forall i :: 0 <= i < |es| ==> Tree(g, nodes[i], m) == Some(es[i])
    decreases e, 0, |es|
  {
    hide Tree, SaysNode;
    if es == [] {
      m := 0;
    } else {
      var first := SaysTree(g, nodes[0], es[0]);
      var rest := ChildrenTrees(g, nodes[1..], es[1..], e);
      m := if first < rest then rest else first;
      TreeGrows(g, nodes[0], first, m);
      forall i | 0 < i < |es| ensures Tree(g, nodes[i], m) == Some(es[i]) {
        assert Tree(g, nodes[1..][i - 1], rest) == Some(es[1..][i - 1]);
        TreeGrows(g, nodes[i], rest, m);
      }
    }
  }

  /** The plain unfolding of a node is the one expression that says what the node says. */
  lemma UnfoldsExactly(g: Graph, node: Id, e: Expr)
    ensures Unfolds(g, node, e) <==> SaysNode(g, node, e)
  {
    hide Tree, SaysNode;
    if n: nat :| Tree(g, node, n) == Some(e) {
      TreeSays(g, node, n);
    }
    if SaysNode(g, node, e) {
      var n := SaysTree(g, node, e);
    }
  }

  /** A successful parse says what the graph says at the node, and nothing else says it. */
  lemma ParseSaysGraph(g: Graph, node: Id)
    requires Parse(g, node, EMPTY, 1).1.Some?
    ensures SaysNode(g, node, Parse(g, node, EMPTY, 1).1.value)
    ensures forall e :: SaysNode(g, node, e) ==> e == Parse(g, node, EMPTY, 1).1.value
  {
    hide Parse, Unfolds, SaysNode;
    ParseIsUnfolding(g, node);
    var parsed := Parse(g, node, EMPTY, 1).1.value;
    UnfoldsExactly(g, node, parsed);
    forall e | SaysNode(g, node, e) ensures e == parsed {
      UnfoldsExactly(g, node, e);
      UnfoldingIsUnique(g, node, e, parsed);
    }
  }
}
