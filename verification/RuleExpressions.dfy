/** Rule expressions, their canonical sorting keys, and sorting that ignores enumeration order.
    Models `_expression_key` and the sorting of children in ontology_core/semantic_parser.py. */
module RuleExpressions {
  import opened SeqOps


  // ----- expressions and their sorting keys; 0 stands for an absent string -----

  datatype Op = AllOf | AnyOf | Not | IsNull | In | Between | Comparison(code: nat)
  datatype Literal = Literal(lexical: nat, dtype: nat, language: nat)
  datatype Expr = Expr(op: Op, property: nat, values: seq<Literal>, parameter: nat, children: seq<Expr>)

  /** A nested tuple, compared lexicographically. */
  datatype SortKey = Atom(n: nat) | Tuple(items: seq<SortKey>)

  function Code(op: Op): nat {
    match op
    case AllOf => 0
    case AnyOf => 1
    case Not => 2
    case IsNull => 3
    case In => 4
    case Between => 5
    case Comparison(code) => 6 + code
  }

  function LiteralKey(l: Literal): SortKey {
    Tuple([Atom(l.lexical), Atom(l.dtype), Atom(l.language)])
  }

  /** `_expression_key`: the expression's own parts and the keys of its children. */
  function ExpressionKey(e: Expr, childKeys: seq<SortKey>): SortKey {
    Tuple([Atom(Code(e.op)), Atom(e.property), Tuple(Map(LiteralKey, e.values)), Atom(e.parameter), Tuple(childKeys)])
  }

  function KeyOf(e: Expr): SortKey
    decreases e, 1
  {
    ExpressionKey(e, KeysOf(e.children))
  }

  function KeysOf(es: seq<Expr>): (ks: seq<SortKey>)
    ensures |ks| == |es| && forall i :: 0 <= i < |es| ==> ks[i] == KeyOf(es[i])
    decreases es, 0
  {
    if es == [] then [] else [KeyOf(es[0])] + KeysOf(es[1..])
  }

  function Cmp(a: SortKey, b: SortKey): int
    decreases a, 1
  {
    match (a, b)
    case (Atom(x), Atom(y)) => x - y
    case (Atom(_), Tuple(_)) => -1
    case (Tuple(_), Atom(_)) => 1
    case (Tuple(xs), Tuple(ys)) => CmpAll(xs, ys)
  }

  function CmpAll(xs: seq<SortKey>, ys: seq<SortKey>): int
    decreases xs, 0
  {
    if xs == [] && ys == [] then 0
    else if xs == [] then -1
    else if ys == [] then 1
    else
      var first := Cmp(xs[0], ys[0]);
      if first != 0 then first else CmpAll(xs[1..], ys[1..])
  }

  lemma {:induction false} CmpIsOrder(a: SortKey, b: SortKey)
    ensures Cmp(a, b) == 0 <==> a == b
    ensures Cmp(a, b) == -Cmp(b, a)
    decreases a, 1
  {
    if a.Tuple? && b.Tuple? {
      CmpAllIsOrder(a.items, b.items);
    }
  }

  lemma {:induction false} CmpAllIsOrder(xs: seq<SortKey>, ys: seq<SortKey>)
    ensures CmpAll(xs, ys) == 0 <==> xs == ys
    ensures CmpAll(xs, ys) == -CmpAll(ys, xs)
    decreases xs, 0
  {
    if xs != [] && ys != [] {
      CmpIsOrder(xs[0], ys[0]);
      CmpAllIsOrder(xs[1..], ys[1..]);
      assert xs == [xs[0]] + xs[1..] && ys == [ys[0]] + ys[1..];
    }
  }

  lemma {:induction false} CmpTransitive(a: SortKey, b: SortKey, c: SortKey)
    requires Cmp(a, b) <= 0 && Cmp(b, c) <= 0
    ensures Cmp(a, c) <= 0
    decreases a, 1
  {
    if a.Tuple? && b.Tuple? && c.Tuple? {
      CmpAllTransitive(a.items, b.items, c.items);
    }
  }

  lemma {:induction false} CmpAllTransitive(xs: seq<SortKey>, ys: seq<SortKey>, zs: seq<SortKey>)
    requires CmpAll(xs, ys) <= 0 && CmpAll(ys, zs) <= 0
    ensures CmpAll(xs, zs) <= 0
    decreases xs, 0
  {
    if xs != [] && ys != [] && zs != [] {
      var a, b, c := xs[0], ys[0], zs[0];
      CmpIsOrder(a, b);
      CmpIsOrder(b, c);
      CmpIsOrder(a, c);
      CmpTransitive(a, b, c);
      if a == b && b == c {
        CmpAllTransitive(xs[1..], ys[1..], zs[1..]);
      } else if Cmp(a, c) == 0 {
        CmpIsOrder(b, a);
        assert false;
      }
    }
  }

  lemma {:induction false} MapInjective(xs: seq<Literal>, ys: seq<Literal>)
    requires Map(LiteralKey, xs) == Map(LiteralKey, ys)
    ensures xs == ys
  {
    assert |xs| == |ys|;
    forall i | 0 <= i < |xs| ensures xs[i] == ys[i] {
      assert Map(LiteralKey, xs)[i] == Map(LiteralKey, ys)[i];
      assert LiteralKey(xs[i]).items == LiteralKey(ys[i]).items;
      assert LiteralKey(xs[i]).items[0] == Atom(ys[i].lexical) && LiteralKey(xs[i]).items[1] == Atom(ys[i].dtype);
      assert LiteralKey(xs[i]).items[2] == Atom(ys[i].language);
    }
  }

  /** Keys tell expressions apart, so sorting by key leaves no choice. */
  lemma {:induction false} KeyIsInjective(a: Expr, b: Expr)
    requires KeyOf(a) == KeyOf(b)
    ensures a == b
    decreases a, 1
  {
    var x, y := KeyOf(a).items, KeyOf(b).items;
    assert x[0] == Atom(Code(a.op)) && y[0] == Atom(Code(b.op));
    assert x[1] == Atom(a.property) && y[1] == Atom(b.property);
    assert x[2] == Tuple(Map(LiteralKey, a.values)) && y[2] == Tuple(Map(LiteralKey, b.values));
    assert x[3] == Atom(a.parameter) && y[3] == Atom(b.parameter);
    assert x[4] == Tuple(KeysOf(a.children)) && y[4] == Tuple(KeysOf(b.children));
    MapInjective(a.values, b.values);
    KeysAreInjective(a.children, b.children);
  }

  lemma {:induction false} KeysAreInjective(xs: seq<Expr>, ys: seq<Expr>)
    requires KeysOf(xs) == KeysOf(ys)
    ensures xs == ys
    decreases xs, 0
  {
    assert |KeysOf(xs)| == |KeysOf(ys)|;
    if xs != [] {
      assert KeysOf(xs)[0] == KeysOf(ys)[0];
      KeyIsInjective(xs[0], ys[0]);
      assert KeysOf(xs)[1..] == KeysOf(xs[1..]) && KeysOf(ys)[1..] == KeysOf(ys[1..]);
      KeysAreInjective(xs[1..], ys[1..]);
    }
  }

  // ----- sorting children -----

  datatype Entry = Entry(key: SortKey, expr: Expr)

  function Insert(e: Entry, es: seq<Entry>): (r: seq<Entry>)
    ensures multiset(r) == multiset(es) + multiset{e}
  {
    if es == [] then [e]
    else if Cmp(e.key, es[0].key) <= 0 then [e] + es
    else
      assert es == [es[0]] + es[1..];
      [es[0]] + Insert(e, es[1..])
  }

  /** A stable sort by key. */
  function Sorted(es: seq<Entry>): (r: seq<Entry>)
    ensures multiset(r) == multiset(es)
  {
    if es == [] then []
    else
      assert es == [es[0]] + es[1..];
      Insert(es[0], Sorted(es[1..]))
  }

  predicate InOrder(es: seq<Entry>) {
    |es| <= 1 || (Cmp(es[0].key, es[1].key) <= 0 && InOrder(es[1..]))
  }

  lemma {:induction false} InsertKeepsOrder(e: Entry, es: seq<Entry>)
    requires InOrder(es)
    ensures InOrder(Insert(e, es))
  {
    if es != [] && Cmp(e.key, es[0].key) > 0 {
      CmpIsOrder(e.key, es[0].key);
      InsertKeepsOrder(e, es[1..]);
      var rest := Insert(e, es[1..]);
      assert ([es[0]] + rest)[1..] == rest;
    } else if es != [] {
      assert ([e] + es)[1..] == es;
    }
  }

  lemma {:induction false} SortedIsInOrder(es: seq<Entry>)
    ensures InOrder(Sorted(es))
  {
    if es != [] {
      SortedIsInOrder(es[1..]);
      InsertKeepsOrder(es[0], Sorted(es[1..]));
    }
  }

  lemma {:induction false} HeadIsLeast(es: seq<Entry>, e: Entry)
    requires InOrder(es) && e in es
    ensures Cmp(es[0].key, e.key) <= 0
  {
    CmpIsOrder(es[0].key, es[0].key);
    if e != es[0] {
      assert es == [es[0]] + es[1..];
      assert e in es[1..];
      HeadIsLeast(es[1..], e);
      CmpTransitive(es[0].key, es[1].key, e.key);
    }
  }

  lemma TailBag(xs: seq<Entry>)
    requires xs != [] && InOrder(xs)
    ensures multiset(xs[1..]) == multiset(xs) - multiset{xs[0]} && InOrder(xs[1..]) && xs == [xs[0]] + xs[1..]
    ensures forall x :: x in xs[1..] ==> x in xs
  {
    assert xs == [xs[0]] + xs[1..];
  }

  /** Two ordered lists with the same entries are the same list when keys tell entries apart. */
  lemma {:induction false} OrderedIsUnique(xs: seq<Entry>, ys: seq<Entry>)
    requires InOrder(xs) && InOrder(ys) && multiset(xs) == multiset(ys)
    requires forall a, b :: a in xs && b in xs && a.key == b.key ==> a == b
    ensures xs == ys
  {
    hide Cmp, CmpAll, InOrder;
    if xs == [] {
      assert |multiset(ys)| == 0;
    } else {
      assert xs[0] in multiset(ys);
      assert |multiset(ys)| == |xs|;
      assert ys[0] in multiset(xs);
      HeadIsLeast(xs, ys[0]);
      HeadIsLeast(ys, xs[0]);
      CmpIsOrder(xs[0].key, ys[0].key);
      assert xs[0] == ys[0];
      TailBag(xs);
      TailBag(ys);
      OrderedIsUnique(xs[1..], ys[1..]);
    }
  }

  function EntryOf(e: Expr): Entry {
    Entry(KeyOf(e), e)
  }

  function SortExprs(es: seq<Expr>): seq<Expr> {
    Map((n: Entry) => n.expr, Sorted(Map(EntryOf, es)))
  }

  lemma SortIgnoresOrder(xs: seq<Expr>, ys: seq<Expr>)
    requires multiset(xs) == multiset(ys)
    ensures SortExprs(xs) == SortExprs(ys)
  {
    hide Cmp, CmpAll, KeyOf, Sorted, InOrder;
    var a, b := Map(EntryOf, xs), Map(EntryOf, ys);
    MapSameBag(EntryOf, xs, ys);
    SortedIsInOrder(a);
    SortedIsInOrder(b);
    forall m, n | m in Sorted(a) && n in Sorted(a) && m.key == n.key ensures m == n {
      assert m in multiset(a) && n in multiset(a);
      var i :| 0 <= i < |a| && a[i] == m;
      var j :| 0 <= j < |a| && a[j] == n;
      KeyIsInjective(xs[i], xs[j]);
    }
    OrderedIsUnique(Sorted(a), Sorted(b));
  }
}
