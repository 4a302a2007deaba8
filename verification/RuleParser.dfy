/** The memoised parser of rule conditions over a possibly cyclic graph, and the literal lists it reads.
    Models `_parse_expression` and `_collection_literals` of ontology_core/semantic_parser.py. */
module RuleParser {
  import opened SeqOps
  import opened RuleExpressions

  const MAX_DEPTH := 64
  const MAX_NODES := 1024
  const MAX_EDGES := 4096
  const MAX_ITEMS := 1024

  // ----- graphs -----

  type Id = nat
  datatype Term = Nil | Node(id: Id) | Text(literal: Literal)
  datatype ListCell = ListCell(first: seq<Term>, rest: seq<Term>)

  /** What the parser reads at a node, in the order in which the graph enumerates it. */
  datatype Shape =
    | Malformed
    | Logical(op: Op, arguments: seq<Id>)
    | NullTest(property: nat)
    | Listed(op: Op, property: nat, heads: seq<Term>)
    | Compared(op: Op, property: nat, values: seq<Term>, parameters: seq<Term>)

  datatype Graph = Graph(shapes: map<Id, Shape>, cells: map<Id, ListCell>, properties: set<nat>)

  function ShapeAt(g: Graph, node: Id): Shape {
    if node in g.shapes then g.shapes[node] else Malformed
  }

  function CellAt(g: Graph, id: Id): ListCell {
    if id in g.cells then g.cells[id] else ListCell([], [])
  }

  // ----- literal lists -----

  function Items(g: Graph, current: Term, seen: set<Id>, count: nat): Option<seq<Literal>>
    decreases if count < MAX_ITEMS then MAX_ITEMS - count else 0
  {
    if current == Nil then Some([])
    else if count >= MAX_ITEMS || !current.Node? || current.id in seen then None
    else
      var cell := CellAt(g, current.id);
      if |cell.first| != 1 || |cell.rest| != 1 || !cell.first[0].Text? then None
      else
        var rest := Items(g, cell.rest[0], seen + {current.id}, count + 1);
        if rest.None? then None else Some([cell.first[0].literal] + rest.value)
  }

  predicate SizeFits(n: nat, minimum: nat, exact: Option<nat>) {
    n >= minimum && (exact.Some? ==> n == exact.value)
  }

  function ReadList(g: Graph, head: Term, minimum: nat, exact: Option<nat>): Option<seq<Literal>> {
    var items := Items(g, head, {}, 0);
    if items.Some? && SizeFits(|items.value|, minimum, exact) then items else None
  }

  function Prepend(done: seq<Literal>, rest: Option<seq<Literal>>): Option<seq<Literal>> {
    if rest.None? then None else Some(done + rest.value)
  }

  lemma PrependStep(done: seq<Literal>, l: Literal, rest: Option<seq<Literal>>)
    ensures Prepend(done, Prepend([l], rest)) == Prepend(done + [l], rest)
  {
    if rest.Some? {
      assert done + ([l] + rest.value) == (done + [l]) + rest.value;
    }
  }

  method CollectionLiterals(g: Graph, head: Term, minimum: nat, exact: Option<nat>) returns (r: Option<seq<Literal>>)
    ensures r == ReadList(g, head, minimum, exact)
  {
    var values: seq<Literal> := [];
    var seen: set<Id> := {};
    var current := head;
    assert Items(g, head, {}, 0) == Prepend([], Items(g, head, {}, 0)) by {
      if Items(g, head, {}, 0).Some? {
        assert [] + Items(g, head, {}, 0).value == Items(g, head, {}, 0).value;
      }
    }
    while current != Nil
      invariant Items(g, head, {}, 0) == Prepend(values, Items(g, current, seen, |values|))
      decreases if |values| < MAX_ITEMS then MAX_ITEMS - |values| else 0
    {
      if |values| >= MAX_ITEMS {
        return None;
      }
      if !current.Node? || current.id in seen {
        return None;
      }
      var cell := CellAt(g, current.id);
      if |cell.first| != 1 || |cell.rest| != 1 || !cell.first[0].Text? {
        return None;
      }
      ghost var rest := Items(g, cell.rest[0], seen + {current.id}, |values| + 1);
      PrependStep(values, cell.first[0].literal, rest);
      assert Items(g, current, seen, |values|) == Prepend([cell.first[0].literal], rest);
      seen := seen + {current.id};
      values := values + [cell.first[0].literal];
      current := cell.rest[0];
    }
    assert values + [] == values;
    r := if SizeFits(|values|, minimum, exact) then Some(values) else None;
  }

  /** The `i`th cell holds the `i`th literal and leads to the next cell, or ends the list. */
  predicate CellSpells(g: Graph, spine: seq<Id>, values: seq<Literal>, i: nat)
    requires i < |spine| == |values|
  {
    CellAt(g, spine[i]) == ListCell([Text(values[i])], [if i + 1 < |spine| then Node(spine[i + 1]) else Nil])
  }

  /** The cells `spine` spell `values` from `head` to the end of the list. */
  ghost predicate Spells(g: Graph, head: Term, spine: seq<Id>, values: seq<Literal>) {
    && |spine| == |values|
    && head == (if spine == [] then Nil else Node(spine[0]))
    && forall i :: 0 <= i < |spine| ==> CellSpells(g, spine, values, i)
  }

  function NextOf(spine: seq<Id>): Term {
    if |spine| > 1 then Node(spine[1]) else Nil
  }

  lemma SpellsTail(g: Graph, head: Term, spine: seq<Id>, values: seq<Literal>)
    requires Spells(g, head, spine, values) && spine != []
    ensures CellAt(g, spine[0]) == ListCell([Text(values[0])], [NextOf(spine)])
    ensures Spells(g, NextOf(spine), spine[1..], values[1..])
  {
    assert CellSpells(g, spine, values, 0);
    forall i | 0 <= i < |spine[1..]| ensures CellSpells(g, spine[1..], values[1..], i) {
      assert CellSpells(g, spine, values, i + 1);
    }
  }

  lemma SpellsCons(g: Graph, id: Id, rest: seq<Id>, value: Literal, values: seq<Literal>, next: Term)
    requires Spells(g, next, rest, values) && CellAt(g, id) == ListCell([Text(value)], [next])
    ensures Spells(g, Node(id), [id] + rest, [value] + values)
  {
    forall i | 0 <= i < |[id] + rest| ensures CellSpells(g, [id] + rest, [value] + values, i) {
      if i > 0 {
        assert CellSpells(g, rest, values, i - 1);
      }
    }
  }

  // The rest of a list from one cell is one list, so a finite list never visits a cell twice.
  lemma {:induction false} SpellingIsUnique(g: Graph, head: Term, a: seq<Id>, xs: seq<Literal>, b: seq<Id>,
          ys: seq<Literal>)
    requires Spells(g, head, a, xs) && Spells(g, head, b, ys)
    ensures a == b && xs == ys
    decreases |a|
  {
    if a != [] {
      SpellsTail(g, head, a, xs);
      SpellsTail(g, head, b, ys);
      assert [NextOf(a)][0] == [NextOf(b)][0] && [Text(xs[0])][0] == [Text(ys[0])][0];
      SpellingIsUnique(g, NextOf(a), a[1..], xs[1..], b[1..], ys[1..]);
      assert xs == [xs[0]] + xs[1..] && ys == [ys[0]] + ys[1..] && a == [a[0]] + a[1..] && b == [b[0]] + b[1..];
    }
  }

  lemma {:induction false} SpellsFrom(g: Graph, head: Term, spine: seq<Id>, values: seq<Literal>, i: nat)
    requires Spells(g, head, spine, values) && i < |spine|
    ensures Spells(g, Node(spine[i]), spine[i..], values[i..])
    decreases i
  {
    if i != 0 {
      SpellsTail(g, head, spine, values);
      SpellsFrom(g, NextOf(spine), spine[1..], values[1..], i - 1);
      assert spine[1..][i - 1..] == spine[i..] && values[1..][i - 1..] == values[i..];
    } else {
      assert spine[0..] == spine && values[0..] == values;
    }
  }

  lemma SpineNoDup(g: Graph, head: Term, spine: seq<Id>, values: seq<Literal>)
    requires Spells(g, head, spine, values)
    ensures NoDup(spine)
  {
    forall i, j | 0 <= i < j < |spine| ensures spine[i] != spine[j] {
      if spine[i] == spine[j] {
        SpellsFrom(g, head, spine, values, i);
        SpellsFrom(g, head, spine, values, j);
        SpellingIsUnique(g, Node(spine[i]), spine[i..], values[i..], spine[j..], values[j..]);
        assert false;
      }
    }
  }

  lemma {:induction false} ItemsSpell(g: Graph, current: Term, seen: set<Id>, count: nat) returns (spine: seq<Id>)
    requires Items(g, current, seen, count).Some?
    ensures Spells(g, current, spine, Items(g, current, seen, count).value)
            && count + |spine| <= (if count > MAX_ITEMS then count else MAX_ITEMS)
    decreases if count < MAX_ITEMS then MAX_ITEMS - count else 0
  {
    if current == Nil {
      spine := [];
    } else {
      var cell := CellAt(g, current.id);
      var rest := ItemsSpell(g, cell.rest[0], seen + {current.id}, count + 1);
      spine := [current.id] + rest;
      assert cell == ListCell([cell.first[0]], [cell.rest[0]]);
      SpellsCons(g, current.id, rest, cell.first[0].literal,
                 Items(g, cell.rest[0], seen + {current.id}, count + 1).value, cell.rest[0]);
    }
  }

  lemma {:induction false} SpellsItems(g: Graph, head: Term, spine: seq<Id>, values: seq<Literal>, seen: set<Id>,
          count: nat)
    requires Spells(g, head, spine, values) && count + |spine| <= MAX_ITEMS && forall x :: x in spine ==> x !in seen
    ensures Items(g, head, seen, count) == Some(values)
    decreases |spine|
  {
    if spine != [] {
      SpineNoDup(g, head, spine, values);
      SpellsTail(g, head, spine, values);
      NoDupTail(spine);
      assert spine[0] in spine;
      forall x | x in spine[1..] ensures x !in seen + {spine[0]} {
        assert x in spine;
      }
      SpellsItems(g, NextOf(spine), spine[1..], values[1..], seen + {spine[0]}, count + 1);
      assert values == [values[0]] + values[1..];
    }
  }

  /** A collection is read exactly when it is a finite well-formed list of permitted length, and then as that list. */
  lemma ListIsReadExactly(g: Graph, head: Term, minimum: nat, exact: Option<nat>, values: seq<Literal>)
    ensures ReadList(g, head, minimum, exact) == Some(values) <==>
              |values| <= 1024 && SizeFits(|values|, minimum, exact) && exists spine ::
                  Spells(g, head, spine, values)
  {
    if ReadList(g, head, minimum, exact) == Some(values) {
      var spine := ItemsSpell(g, head, {}, 0);
    }
    if |values| <= MAX_ITEMS && SizeFits(|values|, minimum, exact) && exists spine :: Spells(g, head, spine, values) {
      var spine :| Spells(g, head, spine, values);
      SpellsItems(g, head, spine, values, {}, 0);
    }
  }

  // ----- one node -----

  function Arguments(g: Graph, node: Id): seq<Id> {
    var shape := ShapeAt(g, node);
    if shape.Logical? then shape.arguments else []
  }

  predicate CountFits(op: Op, n: nat) {
    if op == Not then n == 1 else n >= 2
  }

  predicate IsLogical(g: Graph, node: Id) {
    var shape := ShapeAt(g, node);
    shape.Logical? && CountFits(shape.op, |shape.arguments|)
  }

  function LeafExpr(g: Graph, shape: Shape): Option<Expr> {
    match shape
    case NullTest(property) => if property in g.properties then Some(Expr(IsNull, property, [], 0, [])) else None
    case Listed(op, property, heads) =>
      if property !in g.properties || |heads| != 1 then None
      else
        var values := ReadList(g, heads[0], if op == In then 1 else 2, if op == Between then Some(2) else None);
        if values.None? then None else Some(Expr(op, property, values.value, 0, []))
    case Compared(op, property, values, parameters) =>
      if property !in g.properties then None
      else if |values| == 1 && values[0].Text? && parameters == [] then
        Some(Expr(op, property, [values[0].literal], 0, []))
      else if |parameters| == 1 && parameters[0].Text? && values == [] then
        Some(Expr(op, property, [], parameters[0].literal.lexical, []))
      else None
    case _ => None
  }

  function Build(op: Op, es: seq<Expr>): Expr {
    Expr(op, 0, [], 0, if op == Not then es else SortExprs(es))
  }

  // ----- plain unfolding -----

  /** The expression read without any memory, in at most `n` levels. */
  function Tree(g: Graph, node: Id, n: nat): Option<Expr>
    decreases n, 0
  {
    if n == 0 then None
    else if IsLogical(g, node) then
      var es := Trees(g, Arguments(g, node), n - 1);
      if es.None? then None else Some(Build(ShapeAt(g, node).op, es.value))
    else LeafExpr(g, ShapeAt(g, node))
  }

  function Trees(g: Graph, nodes: seq<Id>, n: nat): (r: Option<seq<Expr>>)
    ensures r.Some? <==> forall x :: x in nodes ==> Tree(g, x, n).Some?
    ensures r.Some? ==> |r.value| == |nodes| && forall i :: 0 <= i < |nodes| ==> Tree(g, nodes[i],
                                                                                      n) == Some(r.value[i])
    decreases n, 1 + |nodes|
  {
    if nodes == [] then Some([])
    else
      var first, rest := Tree(g, nodes[0], n), Trees(g, nodes[1..], n);
      assert forall x :: x in nodes <==> x == nodes[0] || x in nodes[1..];
      if first.None? || rest.None? then None else Some([first.value] + rest.value)
  }

  lemma TreeStep(g: Graph, node: Id, n: nat)
    requires n > 0
    ensures IsLogical(g, node) ==>
              Tree(g, node, n) == var es := Trees(g, Arguments(g, node), n - 1);
                  if es.None? then None else Some(Build(ShapeAt(g, node).op, es.value))
    ensures !IsLogical(g, node) ==> Tree(g, node, n) == LeafExpr(g, ShapeAt(g, node))
  {
    hide Build, LeafExpr, CountFits;
  }

  lemma {:induction false} TreeGrows(g: Graph, node: Id, n: nat, m: nat)
    requires Tree(g, node, n).Some? && n <= m
    ensures Tree(g, node, m) == Tree(g, node, n)
    decreases n, 0
  {
    NoTree(g, node);
    hide *;
    TreeStep(g, node, n);
    TreeStep(g, node, m);
    if IsLogical(g, node) {
      TreesGrow(g, Arguments(g, node), n - 1, m - 1);
    }
  }

  lemma NoTree(g: Graph, node: Id)
    ensures Tree(g, node, 0) == None
  {
  }

  lemma {:induction false} TreesGrow(g: Graph, nodes: seq<Id>, n: nat, m: nat)
    requires Trees(g, nodes, n).Some? && n <= m
    ensures Trees(g, nodes, m) == Trees(g, nodes, n)
    decreases n, 1 + |nodes|
  {
    hide LeafExpr, Build, Tree;
    if nodes != [] {
      TreeGrows(g, nodes[0], n, m);
      TreesGrow(g, nodes[1..], n, m);
    }
  }

  // ----- memoised parsing -----

  /** The parse context; `order` lists the completed nodes as the dictionary does, oldest first. */
  datatype State = State(active: set<Id>, completed: map<Id, Expr>, order: seq<Id>, nodes: set<Id>, edges: nat)

  const EMPTY := State({}, map[], [], {}, 0)

  function Left(depth: nat): nat {
    if depth > MAX_DEPTH then 0 else MAX_DEPTH + 1 - depth
  }

  function Finish(st: State, node: Id, e: Expr): State {
    st.(completed := st.completed[node := e], order := st.order + [node])
  }

  function Parse(g: Graph, node: Id, st: State, depth: nat): (State, Option<Expr>)
    decreases Left(depth), 0
  {
    if depth > MAX_DEPTH || node in st.active then (st, None)
    else if node in st.completed then (st, Some(st.completed[node]))
    else if node !in st.nodes && |st.nodes| >= MAX_NODES then (st, None)
    else
      var entered := st.(nodes := st.nodes + {node});
      var arguments := Arguments(g, node);
      if IsLogical(g, node) then
        if st.edges + |arguments| > MAX_EDGES then (entered, None)
        else
          var inside := entered.(active := st.active + {node}, edges := st.edges + |arguments|);
          var (after, es) := ParseAll(g, arguments, inside, depth + 1);
          var left := after.(active := after.active - {node});
          if es.None? then (left, None)
          else
            var e := Build(ShapeAt(g, node).op, es.value);
            (Finish(left, node, e), Some(e))
      else
        var leaf := LeafExpr(g, ShapeAt(g, node));
        if leaf.None? then (entered, None) else (Finish(entered, node, leaf.value), leaf)
  }

  /** All arguments are parsed, also after a failure. */
  function ParseAll(g: Graph, nodes: seq<Id>, st: State, depth: nat): (State, Option<seq<Expr>>)
    decreases Left(depth), 1 + |nodes|
  {
    if nodes == [] then (st, Some([]))
    else
      var (after, first) := Parse(g, nodes[0], st, depth);
      var (end, rest) := ParseAll(g, nodes[1..], after, depth);
      (end, if first.None? || rest.None? then None else Some([first.value] + rest.value))
  }

  function Enter(st: State, node: Id): State {
    st.(nodes := st.nodes + {node})
  }

  function Descend(g: Graph, st: State, node: Id): State {
    Enter(st, node).(active := st.active + {node}, edges := st.edges + |Arguments(g, node)|)
  }

  function Leave(after: State, node: Id): State {
    after.(active := after.active - {node})
  }

  // The branches of `Parse`.
  predicate Early(st: State, node: Id, depth: nat) {
    depth > MAX_DEPTH || node in st.active || node in st.completed || (node !in st.nodes && |st.nodes| >= MAX_NODES)
  }

  lemma ParseEarly(g: Graph, node: Id, st: State, depth: nat)
    requires Early(st, node, depth)
    ensures Parse(g, node, st, depth)
         == (st, if depth <= MAX_DEPTH && node !in st.active
             && node in st.completed then Some(st.completed[node]) else None)
  {
  }

  lemma ParseLeaf(g: Graph, node: Id, st: State, depth: nat)
    requires !Early(st, node, depth) && !IsLogical(g, node)
    ensures var leaf := LeafExpr(g, ShapeAt(g, node));
            Parse(g, node, st, depth) == if leaf.None?
                then (Enter(st, node), None) else (Finish(Enter(st, node), node, leaf.value), leaf)
  {
    hide LeafExpr;
  }

  lemma ParseLogical(g: Graph, node: Id, st: State, depth: nat)
    requires !Early(st, node, depth) && IsLogical(g, node)
    ensures st.edges + |Arguments(g, node)| > MAX_EDGES ==> Parse(g, node, st, depth) == (Enter(st, node), None)
    ensures st.edges + |Arguments(g, node)| <= MAX_EDGES ==>
              var (after, es) := ParseAll(g, Arguments(g, node), Descend(g, st, node), depth + 1);
              Parse(g, node, st, depth)
                == if es.None? then (Leave(after, node), None)
                   else (Finish(Leave(after, node), node, Build(ShapeAt(g, node).op, es.value)),
                         Some(Build(ShapeAt(g, node).op, es.value)))
  {
    hide ParseAll, Build, CountFits;
  }

  // ----- what parsing keeps -----

  function EdgeTotal(g: Graph, nodes: seq<Id>): nat {
    if nodes == [] then 0 else EdgeTotal(g, nodes[..|nodes| - 1]) + |Arguments(g, nodes[|nodes| - 1])|
  }

  lemma EdgeTotalSnoc(g: Graph, nodes: seq<Id>, node: Id)
    ensures EdgeTotal(g, nodes + [node]) == EdgeTotal(g, nodes) + |Arguments(g, node)|
  {
    assert (nodes + [node])[..|nodes|] == nodes;
  }

  ghost predicate Unfolds(g: Graph, node: Id, e: Expr) {
    exists n: nat :: Tree(g, node, n) == Some(e)
  }

  /** Every argument of a listed node is listed before it. */
  ghost predicate ArgumentsFirst(g: Graph, order: seq<Id>) {
    forall i, x :: 0 <= i < |order| && x in Arguments(g, order[i]) ==> x in order[..i]
  }

  /** The memo holds finished nodes only, each with its unfolding; limits are respected. */
  ghost predicate Good(g: Graph, st: State) {
    && NoDup(st.order) && (forall x :: x in st.order <==> x in st.completed)
    && (forall x :: x in st.completed ==> Unfolds(g, x, st.completed[x]))
    && ArgumentsFirst(g, st.order)
    && st.completed.Keys <= st.nodes && st.completed.Keys !! st.active
    && |st.nodes| <= MAX_NODES && st.edges <= MAX_EDGES
  }

  /** Progress of one call: the memo only grows, and every completed node has paid for its edges. */
  ghost predicate Extends(g: Graph, st: State, after: State) {
    && after.active == st.active && st.nodes <= after.nodes
    && st.order <= after.order
    && (forall x :: x in st.completed ==> x in after.completed && after.completed[x] == st.completed[x])
    && after.edges - st.edges >= EdgeTotal(g, after.order) - EdgeTotal(g, st.order)
  }

  lemma ExtendsTransitive(g: Graph, a: State, b: State, c: State)
    requires Extends(g, a, b) && Extends(g, b, c)
    ensures Extends(g, a, c)
  {
  }

  lemma FinishKeeps(g: Graph, st: State, node: Id, e: Expr)
    requires Good(g, st) && node !in st.completed && node !in st.active && node in st.nodes
    requires Unfolds(g, node, e) && forall x :: x in Arguments(g, node) ==> x in st.completed
    ensures Good(g, Finish(st, node, e))
    ensures EdgeTotal(g, Finish(st, node, e).order) == EdgeTotal(g, st.order) + |Arguments(g, node)|
  {
    hide Unfolds, Arguments, EdgeTotal;
    EdgeTotalSnoc(g, st.order, node);
    var more := st.order + [node];
    NoDupSnoc(st.order, node);
    forall i, x | 0 <= i < |more| && x in Arguments(g, more[i]) ensures x in more[..i] {
      if i < |st.order| {
        assert more[..i] == st.order[..i];
      } else {
        assert more[..i] == st.order;
      }
    }
  }

  // Unfoldings of all arguments share one bound.
  lemma {:induction false} CommonBound(g: Graph, nodes: seq<Id>, es: seq<Expr>) returns (n: nat)
    requires |es| == |nodes| && forall i :: 0 <= i < |nodes| ==> Unfolds(g, nodes[i], es[i])
    ensures Trees(g, nodes, n) == Some(es)
  {
    hide Tree;
    if nodes == [] {
      n := 0;
    } else {
      assert Unfolds(g, nodes[0], es[0]);
      var a: nat :| Tree(g, nodes[0], a) == Some(es[0]);
      forall i | 0 <= i < |nodes[1..]| ensures Unfolds(g, nodes[1..][i], es[1..][i]) {
        assert Unfolds(g, nodes[i + 1], es[i + 1]);
      }
      var b := CommonBound(g, nodes[1..], es[1..]);
      n := if a <= b then b else a;
      TreeGrows(g, nodes[0], a, n);
      TreesGrow(g, nodes[1..], b, n);
      assert es == [es[0]] + es[1..];
    }
  }

  lemma LogicalUnfolds(g: Graph, node: Id, es: seq<Expr>)
    requires IsLogical(g, node) && |es| == |Arguments(g, node)|
    requires forall i :: 0 <= i < |es| ==> Unfolds(g, Arguments(g, node)[i], es[i])
    ensures Unfolds(g, node, Build(ShapeAt(g, node).op, es))
  {
    hide Build;
    var n := CommonBound(g, Arguments(g, node), es);
    assert Tree(g, node, n + 1) == Some(Build(ShapeAt(g, node).op, es));
  }

  lemma LeafUnfolds(g: Graph, node: Id)
    requires !IsLogical(g, node) && LeafExpr(g, ShapeAt(g, node)).Some?
    ensures Unfolds(g, node, LeafExpr(g, ShapeAt(g, node)).value) && Arguments(g, node) == []
  {
    assert Tree(g, node, 1) == LeafExpr(g, ShapeAt(g, node));
  }

  lemma EnterKeeps(g: Graph, st: State, node: Id)
    requires Good(g, st) && node !in st.completed && (node in st.nodes || |st.nodes| < MAX_NODES)
    ensures Good(g, Enter(st, node)) && Extends(g, st, Enter(st, node))
    ensures st.edges + |Arguments(g, node)| <= MAX_EDGES ==> Good(g, Descend(g, st, node))
  {
    hide Unfolds, ArgumentsFirst, EdgeTotal, Arguments;
    if node in st.nodes {
      assert st.nodes + {node} == st.nodes;
    }
  }

  lemma LeaveKeeps(g: Graph, st: State, node: Id, after: State)
    requires Good(g, after) && node !in st.active && Extends(g, Descend(g, st, node), after)
    ensures Good(g, Leave(after, node)) && Extends(g, st, Leave(after, node))
    ensures node !in after.completed && node in after.nodes && node !in Leave(after, node).active
    ensures after.edges - st.edges >= EdgeTotal(g, after.order) - EdgeTotal(g, st.order) + |Arguments(g, node)|
  {
    hide Unfolds, ArgumentsFirst, EdgeTotal, Arguments;
    assert Leave(after, node).active == st.active;
    assert node in after.active;
  }

  lemma FinishExtends(g: Graph, st: State, left: State, node: Id, e: Expr)
    requires Extends(g, st, left) && node !in left.completed
    requires left.edges - st.edges >= EdgeTotal(g, Finish(left, node, e).order) - EdgeTotal(g, st.order)
    ensures Extends(g, st, Finish(left, node, e))
  {
    hide EdgeTotal;
  }

  lemma {:induction false} ParseKeeps(g: Graph, node: Id, st: State, depth: nat)
    requires Good(g, st)
    ensures Good(g, Parse(g, node, st, depth).0) && Extends(g, st, Parse(g, node, st, depth).0)
    ensures Parse(g, node, st, depth).1.Some? ==>
              node in Parse(g, node, st, depth).0.completed
                  && Parse(g, node, st, depth).0.completed[node] == Parse(g, node, st, depth).1.value
    decreases Left(depth), 0
  {
    hide Unfolds, LeafExpr, Build, Good, Extends, Arguments, ParseAll, CountFits;
    SelfExtends(g, st);
    if !(depth > MAX_DEPTH || node in st.active || node in st.completed
         || (node !in st.nodes && |st.nodes| >= MAX_NODES)) {
      EnterKeeps(g, st, node);
      if IsLogical(g, node) {
        if st.edges + |Arguments(g, node)| <= MAX_EDGES {
          ParseAllKeeps(g, Arguments(g, node), Descend(g, st, node), depth + 1);
          var (after, es) := ParseAll(g, Arguments(g, node), Descend(g, st, node), depth + 1);
          LeaveKeeps(g, st, node, after);
          if es.Some? {
            CompletedUnfold(g, after, Arguments(g, node), es.value);
            LogicalUnfolds(g, node, es.value);
            var e := Build(ShapeAt(g, node).op, es.value);
            FinishKeeps(g, Leave(after, node), node, e);
            FinishExtends(g, st, Leave(after, node), node, e);
          }
        }
      } else if LeafExpr(g, ShapeAt(g, node)).Some? {
        LeafUnfolds(g, node);
        var e := LeafExpr(g, ShapeAt(g, node)).value;
        FinishKeeps(g, Enter(st, node), node, e);
        FinishExtends(g, st, Enter(st, node), node, e);
      }
    }
  }

  lemma SelfExtends(g: Graph, st: State)
    ensures Extends(g, st, st)
  {
  }

  lemma CompletedUnfold(g: Graph, st: State, nodes: seq<Id>, es: seq<Expr>)
    requires Good(g, st) && |es| == |nodes| && forall i ::
             0 <= i < |nodes| ==> nodes[i] in st.completed && st.completed[nodes[i]] == es[i]
    ensures forall i :: 0 <= i < |nodes| ==> Unfolds(g, nodes[i], es[i])
    ensures forall x :: x in nodes ==> x in st.completed
  {
    hide Unfolds, ArgumentsFirst;
  }

  lemma {:induction false} ParseAllKeeps(g: Graph, nodes: seq<Id>, st: State, depth: nat)
    requires Good(g, st)
    ensures Good(g, ParseAll(g, nodes, st, depth).0) && Extends(g, st, ParseAll(g, nodes, st, depth).0)
    ensures ParseAll(g, nodes, st, depth).1.Some? ==>
              var (end, es) := ParseAll(g, nodes, st, depth);
              |es.value| == |nodes| && forall i ::
                  0 <= i < |nodes| ==> nodes[i] in end.completed && end.completed[nodes[i]] == es.value[i]
    decreases Left(depth), 1 + |nodes|
  {
    hide Good, Parse, EdgeTotal;
    if nodes == [] {
    } else {
      ParseKeeps(g, nodes[0], st, depth);
      var (after, first) := Parse(g, nodes[0], st, depth);
      ParseAllKeeps(g, nodes[1..], after, depth);
      var (end, rest) := ParseAll(g, nodes[1..], after, depth);
      ExtendsTransitive(g, st, after, end);
      if first.Some? && rest.Some? {
        forall i | 0 <= i < |nodes|
            ensures nodes[i] in end.completed && end.completed[nodes[i]] == ([first.value] + rest.value)[i] {
          if i > 0 {
            assert nodes[i] == nodes[1..][i - 1];
          }
        }
      }
    }
  }

  // ----- what success means -----

  ghost predicate IsPath(g: Graph, path: seq<Id>) {
    |path| > 0 && forall i :: 0 <= i < |path| - 1 ==> path[i + 1] in Arguments(g, path[i])
  }

  function IndexIn(order: seq<Id>, x: Id): (i: nat)
    requires x in order
    ensures i < |order| && order[i] == x
  {
    if order[0] == x then 0 else 1 + IndexIn(order[1..], x)
  }

  // Along a path, positions in the completion order go down.
  lemma {:induction false} PathDescends(g: Graph, order: seq<Id>, path: seq<Id>, j: nat)
    requires NoDup(order) && ArgumentsFirst(g, order) && IsPath(g, path) && path[0] in order && j < |path|
    ensures path[j] in order && forall i ::
            0 <= i < j ==> path[i] in order && IndexIn(order, path[j]) < IndexIn(order, path[i])
  {
    if j != 0 {
      PathDescends(g, order, path, j - 1);
      var k := IndexIn(order, path[j - 1]);
      assert path[j - 1 + 1] in Arguments(g, path[j - 1]);
      assert path[j] in order[..k];
      var m :| 0 <= m < k && order[m] == path[j];
      assert IndexIn(order, path[j]) == m;
    }
  }

  /** A successful parse is the plain unfolding; no reachable condition contains itself; reachable nodes and
      their logical edges, each counted once, are within the limits. */
  lemma ParseIsUnfolding(g: Graph, node: Id)
    requires Parse(g, node, EMPTY, 1).1.Some?
    ensures var (end, e) := Parse(g, node, EMPTY, 1);
            && Unfolds(g, node, e.value)
            && (forall path: seq<Id> :: IsPath(g, path) && path[0] == node ==>
                  NoDup(path) && forall x :: x in path ==> x in end.order)
            && NoDup(end.order) && |end.order| <= 1024 && EdgeTotal(g, end.order) <= 4096
  {
    hide Parse, Unfolds, ArgumentsFirst, Arguments;
    NothingParsed(g);
    ParseKeeps(g, node, EMPTY, 1);
    var (end, e) := Parse(g, node, EMPTY, 1);
    forall path: seq<Id> | IsPath(g, path) && path[0] == node
        ensures NoDup(path) && forall x :: x in path ==> x in end.order {
      forall j | 0 <= j < |path| ensures path[j] in end.order && forall i :: 0 <= i < j ==> path[i] != path[j] {
        PathDescends(g, end.order, path, j);
      }
    }
    OrderIsSmall(end.order, end.nodes);
  }

  lemma NothingParsed(g: Graph)
    ensures Good(g, EMPTY)
  {
  }

  lemma {:induction false} OrderIsSmall(order: seq<Id>, nodes: set<Id>)
    requires NoDup(order) && forall x :: x in order ==> x in nodes
    ensures |order| <= |nodes|
  {
    if order != [] {
      NoDupTail(order);
      forall x | x in order[1..] ensures x in nodes - {order[0]} {
        assert x in order;
      }
      assert order[0] in order;
      OrderIsSmall(order[1..], nodes - {order[0]});
    }
  }

  // ----- independence of enumeration order -----

  /** The same graph, with the arguments of a node enumerated in another order. */
  ghost predicate SameGraph(g: Graph, h: Graph) {
    && g.cells == h.cells && g.properties == h.properties
    && forall x :: IsLogical(g, x) == IsLogical(h, x)
         && (if IsLogical(g, x) then ShapeAt(g, x).op == ShapeAt(h, x).op
             && multiset(Arguments(g, x)) == multiset(Arguments(h, x))
             else LeafExpr(g, ShapeAt(g, x)) == LeafExpr(h, ShapeAt(h, x)))
  }

  lemma {:induction false} TreeIgnoresEnumeration(g: Graph, h: Graph, node: Id, n: nat)
    requires SameGraph(g, h)
    ensures Tree(g, node, n) == Tree(h, node, n)
    decreases n
  {
    hide *;
    NoTree(g, node);
    NoTree(h, node);
    SameNode(g, h, node);
    if n != 0 {
      TreeStep(g, node, n);
      TreeStep(h, node, n);
      if IsLogical(g, node) {
        var m := n - 1;
        forall x: Id ensures Tree(g, x, m) == Tree(h, x, m) {
          TreeIgnoresEnumeration(g, h, x, m);
        }
        LogicalHasOp(g, node);
        LogicalHasOp(h, node);
        SameChildren(g, h, Arguments(g, node), Arguments(h, node), m, ShapeAt(g, node).op);
      }
    }
  }

  lemma LogicalHasOp(g: Graph, node: Id)
    requires IsLogical(g, node)
    ensures ShapeAt(g, node).Logical?
  {
  }

  lemma SameNode(g: Graph, h: Graph, node: Id)
    requires SameGraph(g, h)
    ensures IsLogical(g, node) == IsLogical(h, node)
    ensures IsLogical(g, node) ==>
              && ShapeAt(g, node).Logical? && ShapeAt(h, node).Logical? && ShapeAt(g, node).op == ShapeAt(h, node).op
              && multiset(Arguments(g, node)) == multiset(Arguments(h, node))
              && (ShapeAt(g, node).op == Not ==> |Arguments(g, node)| == 1)
    ensures !IsLogical(g, node) ==> LeafExpr(g, ShapeAt(g, node)) == LeafExpr(h, ShapeAt(h, node))
  {
    hide LeafExpr;
  }

  lemma SameChildren(g: Graph, h: Graph, a: seq<Id>, b: seq<Id>, n: nat, op: Op)
    requires multiset(a) == multiset(b) && (op == Not ==> |a| == 1)
    requires forall x: Id :: Tree(g, x, n) == Tree(h, x, n)
    ensures Trees(g, a, n).Some? == Trees(h, b, n).Some?
    ensures Trees(g, a, n).Some? ==> Build(op, Trees(g, a, n).value) == Build(op, Trees(h, b, n).value)
  {
    hide Tree, SortExprs;
    SameBagSameMembers(a, b);
    if Trees(g, a, n).Some? {
      var of := (x: Id) => if Tree(g, x, n).Some? then Tree(g, x, n).value else Expr(AllOf, 0, [], 0, []);
      assert Trees(g, a, n).value == Map(of, a);
      assert Trees(h, b, n).value == Map(of, b);
      MapSameBag(of, a, b);
      SortIgnoresOrder(Map(of, a), Map(of, b));
      if op == Not {
        assert a[0] in a && b[0] in b;
        assert a == [a[0]] && b == [b[0]];
      }
    }
  }

  lemma UnfoldingIsUnique(g: Graph, node: Id, a: Expr, b: Expr)
    requires Unfolds(g, node, a) && Unfolds(g, node, b)
    ensures a == b
  {
    hide Tree;
    var n: nat :| Tree(g, node, n) == Some(a);
    var m: nat :| Tree(g, node, m) == Some(b);
    TreeGrows(g, node, n, n + m);
    TreeGrows(g, node, m, n + m);
  }

  /** Two successful parses of one graph return one expression, whatever the enumeration orders. */
  lemma ParseIgnoresEnumeration(g: Graph, h: Graph, node: Id)
    requires SameGraph(g, h) && Parse(g, node, EMPTY, 1).1.Some? && Parse(h, node, EMPTY, 1).1.Some?
    ensures Parse(g, node, EMPTY, 1).1 == Parse(h, node, EMPTY, 1).1
  {
    hide Parse, Tree, SameGraph;
    ParseIsUnfolding(g, node);
    ParseIsUnfolding(h, node);
    var a, b := Parse(g, node, EMPTY, 1).1.value, Parse(h, node, EMPTY, 1).1.value;
    var n: nat :| Tree(g, node, n) == Some(a);
    TreeIgnoresEnumeration(g, h, node, n);
    assert Unfolds(h, node, a);
    UnfoldingIsUnique(h, node, a, b);
  }

  // ----- when parsing must succeed -----

  /** A finite part of the graph that contains all arguments of its nodes and respects both totals. */
  ghost predicate Closed(g: Graph, all: seq<Id>) {
    && NoDup(all) && |all| <= 1024 && EdgeTotal(g, all) <= 4096
    && forall x, y :: x in all && y in Arguments(g, x) ==> y in all
  }

  lemma {:induction false} EdgeTotalConcat(g: Graph, xs: seq<Id>, ys: seq<Id>)
    ensures EdgeTotal(g, xs + ys) == EdgeTotal(g, xs) + EdgeTotal(g, ys)
    decreases |ys|
  {
    hide EdgeTotal, Arguments;
    if ys == [] {
      NoTotal(g);
      assert xs + ys == xs;
    } else {
      var before, last := ys[..|ys| - 1], ys[|ys| - 1];
      assert ys == before + [last] && xs + ys == (xs + before) + [last];
      EdgeTotalConcat(g, xs, before);
      EdgeTotalSnoc(g, xs + before, last);
      EdgeTotalSnoc(g, before, last);
    }
  }

  lemma {:induction false} SmallerTotal(g: Graph, xs: seq<Id>, all: seq<Id>)
    requires NoDup(xs) && forall x :: x in xs ==> x in all
    ensures EdgeTotal(g, xs) <= EdgeTotal(g, all) && |xs| <= |all|
    decreases |xs|
  {
    hide EdgeTotal, Arguments;
    if xs == [] {
      NoTotal(g);
    } else {
      var n := |xs| - 1;
      var last := xs[n];
      assert last in xs;
      var k :| 0 <= k < |all| && all[k] == last;
      var rest := all[..k] + all[k + 1..];
      forall x | x in xs[..n] ensures x in rest {
        var j :| 0 <= j < n && xs[j] == x;
        assert xs[j] != xs[n] && xs[j] in xs;
        OthersRemain(all, k, x);
      }
      SmallerTotal(g, xs[..n], rest);
      TotalWithout(g, all, k);
      assert xs == xs[..n] + [last];
      EdgeTotalSnoc(g, xs[..n], last);
    }
  }

  lemma NoTotal(g: Graph)
    ensures EdgeTotal(g, []) == 0
  {
  }

  lemma TotalWithout(g: Graph, all: seq<Id>, k: nat)
    requires k < |all|
    ensures EdgeTotal(g, all) == EdgeTotal(g, all[..k] + all[k + 1..]) + |Arguments(g, all[k])|
  {
    hide EdgeTotal, Arguments;
    assert all == all[..k] + [all[k]] + all[k + 1..];
    EdgeTotalConcat(g, all[..k], all[k + 1..]);
    EdgeTotalConcat(g, all[..k] + [all[k]], all[k + 1..]);
    EdgeTotalSnoc(g, all[..k], all[k]);
  }

  /** A parse without failures so far: `stack` are the active nodes, outermost first. */
  ghost predicate Clean(g: Graph, all: seq<Id>, st: State, stack: seq<Id>) {
    && NoDup(st.order) && NoDup(stack) && (forall x :: x in stack ==> x !in st.order)
    && (forall x :: x in st.order || x in stack ==> x in all)
    && (forall x :: x in st.completed <==> x in st.order) && (forall x :: x in st.active <==> x in stack)
    && (forall x :: x in st.nodes <==> x in st.order || x in stack)
    && st.edges == EdgeTotal(g, st.order) + EdgeTotal(g, stack)
  }

  // `a` is strictly higher than `x`.
  ghost predicate Above(g: Graph, a: Id, x: Id) {
    exists m: nat :: Tree(g, a, m).None? && Tree(g, x, m).Some?
  }

  lemma ArgumentIsBelow(g: Graph, node: Id, x: Id, n: nat)
    requires IsLogical(g, node) && x in Arguments(g, node) && Tree(g, node, n).Some?
    ensures Above(g, node, x)
    ensures forall a :: Above(g, a, node) ==> Above(g, a, x)
  {
    hide Tree, Trees, Arguments, Build, LeafExpr, IsLogical, ShapeAt;
    var least := LeastLevel(g, node, n);
    TreeStep(g, node, least);
    LogicalHasOp(g, node);
    var below := least - 1;
    assert Trees(g, Arguments(g, node), below).Some?;
    assert Tree(g, node, below).None? && Tree(g, x, below).Some?;
    forall a | Above(g, a, node) ensures Above(g, a, x) {
      var m: nat :| Tree(g, a, m).None? && Tree(g, node, m).Some?;
      if m < least {
        TreeGrows(g, node, m, least - 1);
      }
      TreeGrows(g, x, least - 1, m);
    }
  }

  lemma LeastLevel(g: Graph, node: Id, n: nat) returns (least: nat)
    requires Tree(g, node, n).Some?
    ensures 0 < least <= n && Tree(g, node, least).Some? && Tree(g, node, least - 1).None?
    decreases n
  {
    NoTree(g, node);
    hide Tree;
    if Tree(g, node, n - 1).Some? {
      least := LeastLevel(g, node, n - 1);
    } else {
      least := n;
    }
  }

  // There is room for one more node and its edges.
  lemma RoomLeft(g: Graph, all: seq<Id>, st: State, stack: seq<Id>, node: Id)
    requires Closed(g, all) && Clean(g, all, st, stack) && node in all && node !in st.order && node !in stack
    ensures |st.nodes| < MAX_NODES && st.edges + |Arguments(g, node)| <= MAX_EDGES
    ensures Clean(g, all, Descend(g, st, node), stack + [node])
  {
    hide Arguments, EdgeTotal, NoDup;
    var used := st.order + stack;
    NoDupConcat(st.order, stack);
    NoDupSnoc(used, node);
    NoDupSnoc(stack, node);
    SmallerTotal(g, used + [node], all);
    EdgeTotalConcat(g, st.order, stack);
    EdgeTotalSnoc(g, used, node);
    EdgeTotalSnoc(g, stack, node);
    SetIsSmall(st.nodes, used);
  }

  lemma {:induction false} SetIsSmall(s: set<Id>, xs: seq<Id>)
    requires forall x :: x in s ==> x in xs
    ensures |s| <= |xs|
    decreases |xs|
  {
    if xs == [] {
      assert s == {};
    } else {
      forall x | x in s - {xs[0]} ensures x in xs[1..] {
        assert xs == [xs[0]] + xs[1..];
      }
      SetIsSmall(s - {xs[0]}, xs[1..]);
    }
  }

  lemma CleanFinish(g: Graph, all: seq<Id>, st: State, stack: seq<Id>, node: Id, e: Expr)
    requires Clean(g, all, st, stack + [node]) && node !in stack
    ensures Clean(g, all, Finish(Leave(st, node), node, e), stack)
  {
    hide EdgeTotal;
    assert node in stack + [node];
    NoDupSnoc(st.order, node);
    EdgeTotalSnoc(g, st.order, node);
    EdgeTotalSnoc(g, stack, node);
    forall i, j | 0 <= i < j < |stack| ensures stack[i] != stack[j] {
      assert (stack + [node])[i] != (stack + [node])[j];
    }
    forall x | x in stack ensures x !in st.order + [node] {
      assert x in stack + [node];
    }
  }

  lemma CleanLeaf(g: Graph, all: seq<Id>, st: State, stack: seq<Id>, node: Id, e: Expr)
    requires Clean(g, all, st, stack) && node in all && node !in st.order && node !in stack && Arguments(g, node) == []
    ensures Clean(g, all, Finish(Enter(st, node), node, e), stack)
  {
    hide EdgeTotal, Arguments;
    NoDupSnoc(st.order, node);
    EdgeTotalSnoc(g, st.order, node);
  }

  lemma CleanFacts(g: Graph, all: seq<Id>, st: State, stack: seq<Id>)
    requires Clean(g, all, st, stack)
    ensures forall x :: (x in st.completed <==> x in st.order) && (x in st.active <==> x in stack)
    ensures forall x :: x in st.nodes <==> x in st.order || x in stack
  {
  }

  lemma NotAboveItself(g: Graph, x: Id)
    ensures !Above(g, x, x)
  {
  }

  lemma ArgumentsFit(g: Graph, node: Id, all: seq<Id>, stack: seq<Id>, n: nat)
    requires Closed(g, all) && node in all && IsLogical(g, node) && 0 < n && Tree(g, node, n).Some?
    requires forall a :: a in stack ==> Above(g, a, node)
    ensures forall x :: x in Arguments(g, node) ==>
              x in all && Tree(g, x, n - 1).Some? && forall a :: a in stack + [node] ==> Above(g, a, x)
    ensures n > 1
  {
    hide Tree, Above, Build, LeafExpr;
    TreeStep(g, node, n);
    forall x | x in Arguments(g, node)
        ensures Tree(g, x, n - 1).Some? && forall a :: a in stack + [node] ==> Above(g, a, x) {
      ArgumentIsBelow(g, node, x, n);
    }
    assert Arguments(g, node)[0] in Arguments(g, node);
    NoTree(g, Arguments(g, node)[0]);
  }

  // ----- exactly when the depth limit is met -----

  function Deeper(a: nat, b: nat): nat {
    if a <= b then b else a
  }

  /** A depth-first tour that enters every node once, in enumeration order: the nodes in the order in which
      they are finished, and the greatest depth at which a node is met. `n` bounds the levels. */
  function Tour(g: Graph, node: Id, n: nat, done: seq<Id>, depth: nat): (seq<Id>, nat)
    decreases n, 0
  {
    if node in done || n == 0 then (done, depth)
    else if IsLogical(g, node) then
      var (after, deepest) := TourAll(g, Arguments(g, node), n - 1, done, depth + 1);
      (after + [node], Deeper(depth, deepest))
    else (done + [node], depth)
  }

  function TourAll(g: Graph, nodes: seq<Id>, n: nat, done: seq<Id>, depth: nat): (seq<Id>, nat)
    decreases n, 1 + |nodes|
  {
    if nodes == [] then (done, 0)
    else
      var (after, first) := Tour(g, nodes[0], n, done, depth);
      var (end, rest) := TourAll(g, nodes[1..], n, after, depth);
      (end, Deeper(first, rest))
  }

  /** The parse of a node follows its tour: it succeeds exactly when the tour stays within the depth limit. */
  ghost predicate Follows(g: Graph, all: seq<Id>, stack: seq<Id>, after: State, parsed: bool, tour: (seq<Id>, nat)) {
    && (parsed <==> tour.1 <= MAX_DEPTH)
    && (parsed ==> Clean(g, all, after, stack) && after.order == tour.0)
  }

  lemma {:induction false} CleanTour(g: Graph, node: Id, n: nat, all: seq<Id>, st: State, stack: seq<Id>, depth: nat)
    requires Closed(g, all) && node in all && Clean(g, all, st, stack) && Tree(g, node, n).Some?
    requires forall a :: a in stack ==> Above(g, a, node)
    ensures Follows(g, all, stack, Parse(g, node, st, depth).0, Parse(g, node, st, depth).1.Some?,
                    Tour(g, node, n, st.order, depth))
    decreases n, 0
  {
    hide Tree, Closed, Clean, Above, Build, LeafExpr, Parse, ParseAll, IsLogical, ShapeAt, Arguments, TourAll;
    CleanFacts(g, all, st, stack);
    NotAboveItself(g, node);
    NoTree(g, node);
    if depth > MAX_DEPTH || node in st.completed {
      ParseEarly(g, node, st, depth);
    } else {
      RoomLeft(g, all, st, stack, node);
      TreeStep(g, node, n);
      if IsLogical(g, node) {
        ParseLogical(g, node, st, depth);
        ArgumentsFit(g, node, all, stack, n);
        CleanTourAll(g, Arguments(g, node), n - 1, all, Descend(g, st, node), stack + [node], depth + 1);
        var (after, es) := ParseAll(g, Arguments(g, node), Descend(g, st, node), depth + 1);
        LogicalHasOp(g, node);
        if es.Some? {
          CleanFinish(g, all, after, stack, node, Build(ShapeAt(g, node).op, es.value));
        }
      } else {
        ParseLeaf(g, node, st, depth);
        LeafUnfolds(g, node);
        CleanLeaf(g, all, st, stack, node, LeafExpr(g, ShapeAt(g, node)).value);
      }
    }
  }

  lemma {:induction false} CleanTourAll(g: Graph, nodes: seq<Id>, n: nat, all: seq<Id>, st: State, stack: seq<Id>,
          depth: nat)
    requires Closed(g, all) && Clean(g, all, st, stack)
    requires forall x :: x in nodes ==> x in all && Tree(g, x, n).Some? && forall a :: a in stack ==> Above(g, a, x)
    ensures Follows(g, all, stack, ParseAll(g, nodes, st, depth).0, ParseAll(g, nodes, st, depth).1.Some?,
                    TourAll(g, nodes, n, st.order, depth))
    decreases n, 1 + |nodes|
  {
    hide Tree, Closed, Clean, Above, Parse, Tour;
    if nodes != [] {
      assert nodes[0] in nodes;
      CleanTour(g, nodes[0], n, all, st, stack, depth);
      assert forall x :: x in nodes[1..] ==> x in nodes;
      var (after, first) := Parse(g, nodes[0], st, depth);
      if first.Some? {
        CleanTourAll(g, nodes[1..], n, all, after, stack, depth);
      }
    }
  }

  /** Within the limits on nodes and edges, a condition is parsed exactly when its unfolding is finite and the
      depth-first tour in enumeration order meets no node deeper than 64. */
  lemma ParseSucceedsExactly(g: Graph, node: Id, all: seq<Id>)
    requires Closed(g, all) && node in all
    ensures Parse(g, node, EMPTY, 1).1.Some? <==>
            exists n: nat :: Tree(g, node, n).Some? && Tour(g, node, n, [], 1).1 <= 64
  {
    hide Tree, Closed, Parse, Tour, TourAll;
    assert Clean(g, all, EMPTY, []);
    forall n: nat | Tree(g, node, n).Some?
        ensures Parse(g, node, EMPTY, 1).1.Some? <==> Tour(g, node, n, [], 1).1 <= MAX_DEPTH {
      CleanTour(g, node, n, all, EMPTY, [], 1);
    }
    if Parse(g, node, EMPTY, 1).1.Some? {
      ParseIsUnfolding(g, node);
      var e := Parse(g, node, EMPTY, 1).1.value;
      assert Unfolds(g, node, e);
      var n: nat :| Tree(g, node, n) == Some(e);
      assert Tree(g, node, n).Some? && Tour(g, node, n, [], 1).1 <= MAX_DEPTH;
    }
  }

  /** A tour of a condition whose unfolding has `n` levels stays within `n` levels. */
  lemma {:induction false} TourFits(g: Graph, node: Id, n: nat, done: seq<Id>, depth: nat)
    requires Tree(g, node, n).Some?
    ensures n > 0 && Tour(g, node, n, done, depth).1 <= depth + n - 1
    decreases n, 0
  {
    hide Tree, Build, LeafExpr, TourAll, IsLogical, ShapeAt, Arguments;
    NoTree(g, node);
    TreeStep(g, node, n);
    if IsLogical(g, node) {
      LogicalHasOp(g, node);
      TourAllFits(g, Arguments(g, node), n - 1, done, depth + 1);
    }
  }

  lemma {:induction false} TourAllFits(g: Graph, nodes: seq<Id>, n: nat, done: seq<Id>, depth: nat)
    requires forall x :: x in nodes ==> Tree(g, x, n).Some?
    ensures TourAll(g, nodes, n, done, depth).1 <= depth + n - 1 || nodes == []
    ensures nodes == [] ==> TourAll(g, nodes, n, done, depth).1 == 0
    decreases n, 1 + |nodes|
  {
    hide Tree, Tour;
    if nodes != [] {
      assert nodes[0] in nodes && forall x :: x in nodes[1..] ==> x in nodes;
      TourFits(g, nodes[0], n, done, depth);
      TourAllFits(g, nodes[1..], n, Tour(g, nodes[0], n, done, depth).0, depth);
    }
  }

  /** So a condition whose unfolding has at most 64 levels is always parsed, whatever the enumeration order. */
  lemma ParseSucceeds(g: Graph, node: Id, all: seq<Id>)
    requires Closed(g, all) && node in all && Tree(g, node, MAX_DEPTH).Some?
    ensures Parse(g, node, EMPTY, 1).1 == Tree(g, node, MAX_DEPTH)
  {
    hide Tree, Closed, Parse, Tour;
    ParseSucceedsExactly(g, node, all);
    TourFits(g, node, MAX_DEPTH, [], 1);
    ParseIsUnfolding(g, node);
    assert Unfolds(g, node, Tree(g, node, MAX_DEPTH).value);
    UnfoldingIsUnique(g, node, Parse(g, node, EMPTY, 1).1.value, Tree(g, node, MAX_DEPTH).value);
  }

  // ----- the depth limit depends on the enumeration -----

  function RungShape(arguments: seq<Id>, i: Id): Shape {
    if i == 0 then Logical(AllOf, arguments) else if i < 64 then Logical(Not, [i + 1]) else NullTest(0)
  }

  /** A condition over nodes 63 and 1, where 1 to 63 negate the next node and 64 is a null test. */
  function Ladder(arguments: seq<Id>): Graph {
    Graph(map i: nat | i <= 64 :: RungShape(arguments, i), map[], {0})
  }

  lemma LadderAt(arguments: seq<Id>, i: Id)
    requires |arguments| == 2
    ensures 0 < i < 64 ==> IsLogical(Ladder(arguments), i) && Arguments(Ladder(arguments), i) == [i + 1]
    ensures IsLogical(Ladder(arguments), 0) && Arguments(Ladder(arguments), 0) == arguments
    ensures !IsLogical(Ladder(arguments), 64) && LeafExpr(Ladder(arguments), ShapeAt(Ladder(arguments), 64)).Some?
  {
  }

  lemma ParseOne(g: Graph, node: Id, st: State, depth: nat)
    ensures ParseAll(g, [node], st, depth).1.Some? <==> Parse(g, node, st, depth).1.Some?
    ensures ParseAll(g, [node], st, depth).0 == Parse(g, node, st, depth).0
  {
    hide Parse;
    assert [node][1..] == [];
    assert ParseAll(g, [], Parse(g, node, st, depth).0, depth) == (Parse(g, node, st, depth).0, Some([]));
  }

  /** Going down the whole ladder reaches the null test one level too deep. */
  lemma {:induction false} DownFails(arguments: seq<Id>, i: Id, st: State)
    requires |arguments| == 2 && 0 < i <= 64 && forall x :: x in st.completed ==> x < i
    ensures Parse(Ladder(arguments), i, st, i + 1).1.None?
    decreases 64 - i
  {
    hide Parse, ParseAll, Ladder;
    var g := Ladder(arguments);
    LadderAt(arguments, i);
    if Early(st, i, i + 1) {
      ParseEarly(g, i, st, i + 1);
    } else {
      ParseLogical(g, i, st, i + 1);
      if st.edges + 1 <= MAX_EDGES {
        DownFails(arguments, i + 1, Descend(g, st, i));
        ParseOne(g, i + 1, Descend(g, st, i), i + 2);
      }
    }
  }

  /** With node 63 in the memo the way down ends there. */
  lemma {:induction false} DownMeetsMemo(arguments: seq<Id>, i: Id, st: State)
    requires |arguments| == 2 && 0 < i <= 63 && 63 in st.completed
    requires forall x :: i <= x <= 63 ==> x !in st.active && (x in st.completed ==> x == 63)
    requires |st.nodes| + 63 - i <= 100 && st.edges + 63 - i <= 100
    ensures Parse(Ladder(arguments), i, st, i + 1).1.Some?
    decreases 63 - i
  {
    hide Parse, ParseAll, Ladder, Build;
    var g := Ladder(arguments);
    LadderAt(arguments, i);
    if i == 63 {
      ParseEarly(g, i, st, i + 1);
    } else {
      ParseLogical(g, i, st, i + 1);
      DownMeetsMemo(arguments, i + 1, Descend(g, st, i));
      ParseOne(g, i + 1, Descend(g, st, i), i + 2);
    }
  }

  // Node 63 and its null test, parsed near the root.
  lemma ShortWay(arguments: seq<Id>, st: State)
    requires |arguments| == 2 && st == Descend(Ladder(arguments), EMPTY, 0)
    ensures var (after, e) := Parse(Ladder(arguments), 63, st, 2);
            && e.Some? && 63 in after.completed && (forall x :: x in after.completed ==> x >= 63)
            && after.active == {0} && after.nodes == {0, 63, 64} && after.edges == 3
  {
    hide Parse, ParseAll, Ladder, Build, LeafExpr;
    var g := Ladder(arguments);
    LadderAt(arguments, 0);
    LadderAt(arguments, 63);
    LadderAt(arguments, 64);
    var inside := Descend(g, st, 63);
    ParseLogical(g, 63, st, 2);
    ParseLeaf(g, 64, inside, 3);
    ParseOne(g, 64, inside, 3);
  }

  /** Memo hits skip the depth: one graph is parsed or refused as its arguments are enumerated. */
  lemma EnumerationMatters()
    ensures SameGraph(Ladder([63, 1]), Ladder([1, 63]))
    ensures Parse(Ladder([63, 1]), 0, EMPTY, 1).1.Some? && Parse(Ladder([1, 63]), 0, EMPTY, 1).1.None?
  {
    hide Parse, Ladder;
    LadderSucceeds();
    LadderFails();
    LadderSame([63, 1], [1, 63]);
  }

  lemma LadderSame(a: seq<Id>, b: seq<Id>)
    requires |a| == |b| == 2 && multiset(a) == multiset(b)
    ensures SameGraph(Ladder(a), Ladder(b))
  {
    hide LeafExpr;
    forall x: Id ensures IsLogical(Ladder(a), x) == IsLogical(Ladder(b), x)
         && (if IsLogical(Ladder(a), x) then ShapeAt(Ladder(a), x).op == ShapeAt(Ladder(b), x).op
             && multiset(Arguments(Ladder(a), x)) == multiset(Arguments(Ladder(b), x))
             else LeafExpr(Ladder(a), ShapeAt(Ladder(a), x)) == LeafExpr(Ladder(b), ShapeAt(Ladder(b), x))) {
      RungSame(a, b, x);
    }
  }

  lemma RungSame(a: seq<Id>, b: seq<Id>, x: Id)
    requires |a| == |b| == 2 && multiset(a) == multiset(b)
    ensures IsLogical(Ladder(a), x) == IsLogical(Ladder(b), x)
    ensures if IsLogical(Ladder(a), x) then ShapeAt(Ladder(a), x).op == ShapeAt(Ladder(b), x).op
            && multiset(Arguments(Ladder(a), x)) == multiset(Arguments(Ladder(b), x))
            else LeafExpr(Ladder(a), ShapeAt(Ladder(a), x)) == LeafExpr(Ladder(b), ShapeAt(Ladder(b), x))
  {
    var g, h := Ladder(a), Ladder(b);
    if x != 0 {
      assert ShapeAt(g, x) == ShapeAt(h, x) && !ShapeAt(g, x).Listed?;
    }
  }

  lemma LadderSucceeds()
    ensures Parse(Ladder([63, 1]), 0, EMPTY, 1).1.Some?
  {
    hide Parse, ParseAll, Ladder, Build;
    var arguments := [63, 1];
    var g := Ladder(arguments);
    LadderAt(arguments, 0);
    var st := Descend(g, EMPTY, 0);
    ParseLogical(g, 0, EMPTY, 1);
    ShortWay(arguments, st);
    var after := Parse(g, 63, st, 2).0;
    DownMeetsMemo(arguments, 1, after);
    ParseOne(g, 1, after, 2);
    ParsePair(g, 63, 1, st, 2);
  }

  lemma ParsePair(g: Graph, a: Id, b: Id, st: State, depth: nat)
    ensures ParseAll(g, [a, b], st, depth).1.Some?
       <==> Parse(g, a, st, depth).1.Some? && ParseAll(g, [b], Parse(g, a, st, depth).0, depth).1.Some?
  {
    hide Parse;
    assert [a, b][1..] == [b];
  }

  lemma LadderFails()
    ensures Parse(Ladder([1, 63]), 0, EMPTY, 1).1.None?
  {
    hide Parse, ParseAll, Ladder, Build;
    var arguments := [1, 63];
    var g := Ladder(arguments);
    LadderAt(arguments, 0);
    var st := Descend(g, EMPTY, 0);
    ParseLogical(g, 0, EMPTY, 1);
    DownFails(arguments, 1, st);
    ParsePair(g, 1, 63, st, 2);
  }

  // ----- the parser as it runs -----

  lemma ParseStores(g: Graph, node: Id, st: State, depth: nat)
    ensures var (after, e) := Parse(g, node, st, depth);
            e.Some? ==> node in after.completed && after.completed[node] == e.value
  {
    hide Build, LeafExpr, ParseAll;
  }

  function Then(done: seq<Expr>, failed: bool, rest: Option<seq<Expr>>): Option<seq<Expr>> {
    if failed || rest.None? then None else Some(done + rest.value)
  }

  // One more argument of the loop over arguments.
  lemma NextArgument(g: Graph, nodes: seq<Id>, i: nat, st: State, depth: nat, done: seq<Expr>, failed: bool)
    requires i < |nodes|
    ensures var (after, e) := Parse(g, nodes[i], st, depth);
            && ParseAll(g, nodes[i..], st, depth).0 == ParseAll(g, nodes[i + 1..], after, depth).0
            && Then(done, failed, ParseAll(g, nodes[i..], st, depth).1)
               == (if e.Some? then Then(done + [e.value], failed, ParseAll(g, nodes[i + 1..], after, depth).1)
                   else Then(done, true, ParseAll(g, nodes[i + 1..], after, depth).1))
  {
    hide Parse;
    assert nodes[i..][0] == nodes[i] && nodes[i..][1..] == nodes[i + 1..];
    var (after, e) := Parse(g, nodes[i], st, depth);
    var (end, rest) := ParseAll(g, nodes[i + 1..], after, depth);
    if e.Some? && rest.Some? {
      assert done + ([e.value] + rest.value) == (done + [e.value]) + rest.value;
    }
  }

  lemma KeyOfBuilt(op: Op, es: seq<Expr>, entries: seq<Entry>)
    requires entries == Map(EntryOf, es)
    ensures var used := if op == Not then entries else Sorted(entries);
            var e := Build(op, es);
            && e == Expr(op, 0, [], 0, Map((n: Entry) => n.expr, used))
            && KeyOf(e) == ExpressionKey(e, Map((n: Entry) => n.key, used))
  {
    var used := if op == Not then entries else Sorted(entries);
    BuiltIs(op, es, entries);
    EntriesAreKeyed(es, entries);
    UsedAreKeyed(entries, used);
    KeysOfEntries(used);
    hide *;
    KeyOfParts(Build(op, es));
  }

  lemma BuiltIs(op: Op, es: seq<Expr>, entries: seq<Entry>)
    requires entries == Map(EntryOf, es)
    ensures Build(op, es) == Expr(op, 0, [], 0,
                                  Map((n: Entry) => n.expr, if op == Not then entries else Sorted(entries)))
  {
    hide KeyOf, Sorted;
    if op == Not {
      assert Map((n: Entry) => n.expr, entries) == es;
    } else {
      MapCong((n: Entry) => n.expr, (n: Entry) => n.expr, Sorted(entries));
    }
  }

  lemma UsedAreKeyed(entries: seq<Entry>, used: seq<Entry>)
    requires multiset(used) == multiset(entries) && forall j ::
             0 <= j < |entries| ==> entries[j].key == KeyOf(entries[j].expr)
    ensures forall i :: 0 <= i < |used| ==> used[i].key == KeyOf(used[i].expr)
  {
    hide KeyOf;
    forall i | 0 <= i < |used| ensures used[i].key == KeyOf(used[i].expr) {
      assert used[i] in multiset(used) && used[i] in multiset(entries);
      var j :| 0 <= j < |entries| && entries[j] == used[i];
    }
  }

  lemma EntriesAreKeyed(es: seq<Expr>, entries: seq<Entry>)
    requires entries == Map(EntryOf, es)
    ensures forall j :: 0 <= j < |entries| ==> entries[j].key == KeyOf(entries[j].expr) && entries[j].expr == es[j]
  {
    hide KeyOf;
  }

  lemma KeyOfParts(e: Expr)
    ensures KeyOf(e) == ExpressionKey(e, KeysOf(e.children))
  {
  }

  lemma KeysOfEntries(used: seq<Entry>)
    requires forall i :: 0 <= i < |used| ==> used[i].key == KeyOf(used[i].expr)
    ensures KeysOf(Map((n: Entry) => n.expr, used)) == Map((n: Entry) => n.key, used)
  {
    hide KeysOf, KeyOf;
  }

  class ParseContext {
    var active: set<Id>
    var completed: map<Id, Expr>
    var keys: map<Id, SortKey>
    ghost var order: seq<Id>
    var nodes: set<Id>
    var edges: nat

    ghost function Abs(): State
      reads this
    {
      State(active, completed, order, nodes, edges)
    }

    /** Every completed node has the key of its expression. */
    ghost predicate Valid()
      reads this
    {
      keys.Keys == completed.Keys && forall x :: x in completed ==> keys[x] == KeyOf(completed[x])
    }

    constructor ()
      ensures Valid() && Abs() == EMPTY
    {
      active, completed, keys, order, nodes, edges := {}, map[], map[], [], {}, 0;
    }

    method Complete(node: Id, e: Expr, key: SortKey)
      requires Valid() && key == KeyOf(e)
      modifies this
      ensures Valid() && Abs() == Finish(old(Abs()), node, e)
    {
      completed := completed[node := e];
      keys := keys[node := key];
      order := order + [node];
    }

    /** The checks on entry: too deep, active, finished before, or too many nodes. Otherwise the node is counted. */
    method EnterNode(node: Id, depth: nat) returns (early: bool, r: Option<Expr>)
      requires Valid()
      modifies this
      ensures Valid() && early == Early(old(Abs()), node, depth)
      ensures early ==>
                Abs() == old(Abs())
                && r == if depth <= MAX_DEPTH && node !in active && node in completed
                        then Some(completed[node]) else None
      ensures !early ==> Abs() == Enter(old(Abs()), node)
    {
      hide KeyOf;
      early, r := true, None;
      if depth > MAX_DEPTH || node in active {
        return;
      }
      if node in completed {
        r := Some(completed[node]);
        return;
      }
      if node !in nodes {
        if |nodes| >= MAX_NODES {
          return;
        }
        nodes := nodes + {node};
      }
      assert nodes == old(nodes) + {node};
      early := false;
    }

    /** `_parse_expression`. */
    method ParseExpression(g: Graph, node: Id, depth: nat) returns (r: Option<Expr>)
      requires Valid()
      modifies this
      ensures Valid()
      ensures (Abs(), r) == Parse(g, node, old(Abs()), depth)
      decreases Left(depth), 0
    {
      hide KeyOf, Build, Sorted, LeafExpr, ExpressionKey, Parse, ParseAll, Finish, Leave;
      ghost var st := Abs();
      var early: bool;
      early, r := EnterNode(node, depth);
      if early {
        ParseEarly(g, node, st, depth);
        return;
      }
      var shape := ShapeAt(g, node);
      if !IsLogical(g, node) {
        ParseLeaf(g, node, st, depth);
        r := ParseLeafNode(g, node);
        return;
      }
      ParseLogical(g, node, st, depth);
      if edges + |shape.arguments| > MAX_EDGES {
        return None;
      }
      r := ParseInside(g, node, depth);
    }

    method ParseLeafNode(g: Graph, node: Id) returns (r: Option<Expr>)
      requires Valid()
      modifies this
      ensures Valid() && r == LeafExpr(g, ShapeAt(g, node))
      ensures Abs() == if r.None? then old(Abs()) else Finish(old(Abs()), node, r.value)
    {
      hide LeafExpr, ExpressionKey, KeyOf;
      r := LeafExpr(g, ShapeAt(g, node));
      if r.Some? {
        LeafKey(g, ShapeAt(g, node));
        Complete(node, r.value, ExpressionKey(r.value, []));
      }
    }

    /** A logical node whose edges fit: its arguments, with the node marked active meanwhile. */
    method ParseInside(g: Graph, node: Id, depth: nat) returns (r: Option<Expr>)
      requires Valid() && IsLogical(g, node) && depth <= MAX_DEPTH
      modifies this
      ensures Valid()
      ensures var st := old(Abs());
              var (after, es) := ParseAll(g, Arguments(g, node),
                                          st.(active := st.active + {node}, edges := st.edges + |Arguments(g, node)|),
                                              depth + 1);
              (Abs(), r) == if es.None? then (Leave(after, node), None)
                            else (Finish(Leave(after, node), node, Build(ShapeAt(g, node).op, es.value)),
                                  Some(Build(ShapeAt(g, node).op, es.value)))
      decreases Left(depth + 1), 2
    {
      hide KeyOf, Build, Sorted, LeafExpr, ExpressionKey, ParseAll;
      var shape := ShapeAt(g, node);
      active := active + {node};
      edges := edges + |shape.arguments|;
      var entries, failed := ParseArguments(g, shape.arguments, depth + 1);
      ghost var after := Abs();
      active := active - {node};
      assert Abs() == Leave(after, node);
      if failed {
        return None;
      }
      ghost var es := Map((n: Entry) => n.expr, entries);
      assert Map(EntryOf, es) == entries;
      KeyOfBuilt(shape.op, es, entries);
      var used := if shape.op == Not then entries else Sorted(entries);
      var e := Expr(shape.op, 0, [], 0, Map((n: Entry) => n.expr, used));
      Complete(node, e, ExpressionKey(e, Map((n: Entry) => n.key, used)));
      r := Some(e);
    }

    method ParseArguments(g: Graph, arguments: seq<Id>, depth: nat) returns (entries: seq<Entry>, failed: bool)
      requires Valid() && 0 < depth
      modifies this
      ensures Valid()
      ensures forall n :: n in entries ==> n == EntryOf(n.expr)
      ensures (Abs(), if failed then None else Some(Map((n: Entry) => n.expr, entries)))
              == ParseAll(g, arguments, old(Abs()), depth)
      decreases Left(depth), 1
    {
      hide KeyOf, Parse;
      entries, failed := [], false;
      ghost var done: seq<Expr> := [];
      ghost var start := Abs();
      assert arguments[0..] == arguments;
      ghost var all := ParseAll(g, arguments, start, depth);
      assert all.1 == Then([], false, all.1) by {
        if all.1.Some? { assert [] + all.1.value == all.1.value; }
      }
      for i := 0 to |arguments|
        invariant Valid()
        invariant forall n :: n in entries ==> n == EntryOf(n.expr)
        invariant Map((n: Entry) => n.expr, entries) == done
        invariant all.0 == ParseAll(g, arguments[i..], Abs(), depth).0
        invariant all.1 == Then(done, failed, ParseAll(g, arguments[i..], Abs(), depth).1)
      {
        NextArgument(g, arguments, i, Abs(), depth, done, failed);
        ParseStores(g, arguments[i], Abs(), depth);
        var e := ParseExpression(g, arguments[i], depth);
        if e.None? {
          failed := true;
        } else {
          entries := entries + [Entry(keys[arguments[i]], e.value)];
          done := done + [e.value];
        }
      }
      assert arguments[|arguments|..] == [];
      assert done + [] == done;
    }
  }

  lemma LeafKey(g: Graph, shape: Shape)
    requires LeafExpr(g, shape).Some?
    ensures KeyOf(LeafExpr(g, shape).value) == ExpressionKey(LeafExpr(g, shape).value, [])
  {
  }
}
