/** A query depends only on the columns that it names: over tables that agree on those columns row by row,
    it returns the same rows in the same order. */
module QueryColumns {
  import opened SeqOps
  import opened Sql

  // ----- lists that agree element by element -----

  ghost predicate Paired<A(!new), B(!new)>(rel: (A, B) -> bool, xs: seq<A>, ys: seq<B>) {
    |xs| == |ys| && forall i :: 0 <= i < |xs| ==> rel(xs[i], ys[i])
  }

  lemma {:induction false} PairedFilter<A(!new),
          B(!new)>(rel: (A, B) -> bool, f: A -> bool, g: B -> bool, xs: seq<A>, ys: seq<B>)
    requires Paired(rel, xs, ys) && forall i :: 0 <= i < |xs| ==> f(xs[i]) == g(ys[i])
    ensures Paired(rel, Filter(f, xs), Filter(g, ys))
  {
    if xs != [] {
      PairedFilter(rel, f, g, xs[1..], ys[1..]);
    }
  }

  lemma {:induction false} PairedFlatMap<A(!new), B(!new), C(!new), D(!new)>(
    rel: (C, D) -> bool, f: A -> seq<C>, g: B -> seq<D>, xs: seq<A>, ys: seq<B>)
    requires |xs| == |ys| && forall i :: 0 <= i < |xs| ==> Paired(rel, f(xs[i]), g(ys[i]))
    ensures Paired(rel, FlatMap(f, xs), FlatMap(g, ys))
  {
    if xs != [] {
      assert Paired(rel, f(xs[0]), g(ys[0]));
      PairedFlatMap(rel, f, g, xs[1..], ys[1..]);
    }
  }

  // ----- agreement on the columns that are read -----

  predicate RowsAgree(seen: set<ColRef>, a: Alias, r: Row, q: Row) {
    forall ref :: ref in seen && ref.alias == a ==> Cell(r, ref.column) == Cell(q, ref.column)
  }

  predicate ScopesAgree(seen: set<ColRef>, x: Scope, y: Scope) {
    forall ref :: ref in seen ==> At(x, ref) == At(y, ref)
  }

  function RowPair(seen: set<ColRef>, a: Alias): (Row, Row) -> bool {
    (r: Row, q: Row) => RowsAgree(seen, a, r, q)
  }

  function ScopePair(seen: set<ColRef>): (Scope, Scope) -> bool {
    (x: Scope, y: Scope) => ScopesAgree(seen, x, y)
  }

  /** The two stores hold the same rows of a source, as far as they are read. */
  ghost predicate SourceAgrees(seen: set<ColRef>, s: Source, c: Context, d: Context) {
    Paired(RowPair(seen, s.alias), Rows(s.relation, c), Rows(s.relation, d))
  }

  predicate OnReads(seen: set<ColRef>, cond: OnCond) {
    match cond
    case Equal(left, right) => left in seen && right in seen
    case Test(pred) => forall t :: t in Leaves(pred) ==> t.ref in seen
  }

  predicate AllOnRead(seen: set<ColRef>, conds: seq<OnCond>) {
    forall i :: 0 <= i < |conds| ==> OnReads(seen, conds[i])
  }

  ghost predicate WhereReadsOnly(seen: set<ColRef>, cond: WhereCond, c: Context, d: Context) {
    match cond
    case Holds(pred) => forall t :: t in Leaves(pred) ==> t.ref in seen
    case IsNull(column) => column in seen
    case NotExists(source, on) => SourceAgrees(seen, source, c, d) && AllOnRead(seen, on)
  }

  ghost predicate JoinReadsOnly(seen: set<ColRef>, clause: JoinClause, c: Context, d: Context) {
    SourceAgrees(seen, clause.source, c, d) && AllOnRead(seen, clause.on)
  }

  /** Every column that the query names is in `seen`, and its sources agree there. */
  ghost predicate SelectReadsOnly(seen: set<ColRef>, s: Select, c: Context, d: Context) {
    && c.world == d.world && SourceAgrees(seen, s.from, c, d)
    && (forall i :: 0 <= i < |s.items| ==> s.items[i].source in seen)
    && (forall i :: 0 <= i < |s.joins| ==> JoinReadsOnly(seen, s.joins[i], c, d))
    && (forall i :: 0 <= i < |s.where| ==> WhereReadsOnly(seen, s.where[i], c, d))
  }

  // ----- conditions -----

  lemma PredSame(seen: set<ColRef>, pred: Pred<TypedRef>, x: Scope, y: Scope, lit: Literals)
    requires ScopesAgree(seen, x, y) && forall t :: t in Leaves(pred) ==> t.ref in seen
    ensures Eval(pred, TypedLook(x), lit) == Eval(pred, TypedLook(y), lit)
  {
    RenameKeepsTruth(pred, (t: TypedRef) => t, TypedLook(x), TypedLook(x), lit);
    RenameKeepsTruth(pred, (t: TypedRef) => t, TypedLook(x), TypedLook(y), lit);
  }

  lemma OnSame(seen: set<ColRef>, conds: seq<OnCond>, x: Scope, y: Scope, c: Context, d: Context)
    requires ScopesAgree(seen, x, y) && AllOnRead(seen, conds) && c.world == d.world
    ensures AllOn(conds, x, c) == AllOn(conds, y, d)
  {
    forall i | 0 <= i < |conds| ensures OnHolds(conds[i], x, c) == OnHolds(conds[i], y, d) {
      assert OnReads(seen, conds[i]);
      if conds[i].Test? {
        PredSame(seen, conds[i].pred, x, y, c.world.literal);
      }
    }
  }

  lemma BoundAgree(seen: set<ColRef>, a: Alias, x: Scope, y: Scope, r: Row, q: Row)
    requires ScopesAgree(seen, x, y) && RowsAgree(seen, a, r, q)
    ensures ScopesAgree(seen, x[a := r], y[a := q])
  {
    forall ref | ref in seen ensures At(x[a := r], ref) == At(y[a := q], ref) {
      if ref.alias != a {
        assert At(x, ref) == At(y, ref);
      }
    }
  }

  lemma PartnersAgree(seen: set<ColRef>, s: Source, on: seq<OnCond>, x: Scope, y: Scope, c: Context, d: Context)
    requires ScopesAgree(seen, x, y) && SourceAgrees(seen, s, c, d) && AllOnRead(seen, on) && c.world == d.world
    ensures Paired(RowPair(seen, s.alias), Partners(s, on, x, c), Partners(s, on, y, d))
  {
    hide AllOn, AllOnRead, ScopesAgree, RowsAgree, Rows;
    var rs, qs := Rows(s.relation, c), Rows(s.relation, d);
    forall i | 0 <= i < |rs| ensures AllOn(on, x[s.alias := rs[i]], c) == AllOn(on, y[s.alias := qs[i]], d) {
      assert RowPair(seen, s.alias)(rs[i], qs[i]);
      BoundAgree(seen, s.alias, x, y, rs[i], qs[i]);
      OnSame(seen, on, x[s.alias := rs[i]], y[s.alias := qs[i]], c, d);
    }
    PairedFilter(RowPair(seen, s.alias),
                 (r: Row) => AllOn(on, x[s.alias := r], c), (r: Row) => AllOn(on, y[s.alias := r], d), rs, qs);
  }

  lemma WhereSame(seen: set<ColRef>, conds: seq<WhereCond>, x: Scope, y: Scope, c: Context, d: Context)
    requires ScopesAgree(seen, x, y) && c.world == d.world
    requires forall i :: 0 <= i < |conds| ==> WhereReadsOnly(seen, conds[i], c, d)
    ensures AllWhere(conds, x, c) == AllWhere(conds, y, d)
  {
    hide Partners, AllOnRead, SourceAgrees;
    forall i | 0 <= i < |conds| ensures WhereHolds(conds[i], x, c) == WhereHolds(conds[i], y, d) {
      assert WhereReadsOnly(seen, conds[i], c, d);
      match conds[i]
      case Holds(pred) => PredSame(seen, pred, x, y, c.world.literal);
      case IsNull(_) =>
      case NotExists(source, on) => PartnersAgree(seen, source, on, x, y, c, d);
    }
  }

  // ----- FROM -----

  lemma JoinAgrees(seen: set<ColRef>, clause: JoinClause, x: Scope, y: Scope, c: Context, d: Context)
    requires ScopesAgree(seen, x, y) && JoinReadsOnly(seen, clause, c, d) && c.world == d.world
    ensures Paired(ScopePair(seen), JoinScope(x, clause, c), JoinScope(y, clause, d))
  {
    hide Partners, SourceAgrees, AllOnRead, ScopesAgree, RowsAgree;
    var a := clause.source.alias;
    PartnersAgree(seen, clause.source, clause.on, x, y, c, d);
    var rs, qs := Partners(clause.source, clause.on, x, c), Partners(clause.source, clause.on, y, d);
    if clause.outer && rs == [] {
      NothingAgrees(seen, a);
      BoundAgree(seen, a, x, y, map[], map[]);
    } else {
      forall i | 0 <= i < |rs| ensures ScopesAgree(seen, x[a := rs[i]], y[a := qs[i]]) {
        assert RowPair(seen, a)(rs[i], qs[i]);
        BoundAgree(seen, a, x, y, rs[i], qs[i]);
      }
    }
  }

  lemma NothingAgrees(seen: set<ColRef>, a: Alias)
    ensures RowsAgree(seen, a, map[], map[])
  {
  }

  lemma StartAgrees(seen: set<ColRef>, from: Source, c: Context, d: Context)
    requires SourceAgrees(seen, from, c, d)
    ensures Paired(ScopePair(seen), FromScopes(from, [], c), FromScopes(from, [], d))
  {
    hide Rows, ScopesAgree, RowsAgree;
    var rs, qs := Rows(from.relation, c), Rows(from.relation, d);
    forall i | 0 <= i < |rs| ensures ScopesAgree(seen, map[from.alias := rs[i]], map[from.alias := qs[i]]) {
      assert RowPair(seen, from.alias)(rs[i], qs[i]);
      EmptyAgrees(seen);
      BoundAgree(seen, from.alias, map[], map[], rs[i], qs[i]);
    }
  }

  lemma EmptyAgrees(seen: set<ColRef>)
    ensures ScopesAgree(seen, map[], map[])
  {
  }

  lemma {:induction false} FromAgrees(seen: set<ColRef>, from: Source, joins: seq<JoinClause>, c: Context, d: Context)
    requires SourceAgrees(seen, from, c, d) && c.world == d.world
    requires forall i :: 0 <= i < |joins| ==> JoinReadsOnly(seen, joins[i], c, d)
    ensures Paired(ScopePair(seen), FromScopes(from, joins, c), FromScopes(from, joins, d))
  {
    hide JoinScope, JoinReadsOnly, SourceAgrees, ScopesAgree;
    if joins == [] {
      StartAgrees(seen, from, c, d);
    } else {
      var n := |joins| - 1;
      FromAgrees(seen, from, joins[..n], c, d);
      var xs, ys := FromScopes(from, joins[..n], c), FromScopes(from, joins[..n], d);
      forall i | 0 <= i < |xs|
          ensures Paired(ScopePair(seen), JoinScope(xs[i], joins[n], c), JoinScope(ys[i], joins[n], d)) {
        assert ScopePair(seen)(xs[i], ys[i]);
        JoinAgrees(seen, joins[n], xs[i], ys[i], c, d);
      }
      PairedFlatMap(ScopePair(seen), (x: Scope) => JoinScope(x, joins[|joins| - 1], c),
                    (y: Scope) => JoinScope(y, joins[|joins| - 1], d), xs, ys);
    }
  }

  // ----- the whole query -----

  lemma {:induction false} ItemsSame(seen: set<ColRef>, items: seq<Item>, x: Scope, y: Scope)
    requires ScopesAgree(seen, x, y) && forall i :: 0 <= i < |items| ==> items[i].source in seen
    ensures ItemRow(items, x) == ItemRow(items, y)
  {
    if items != [] {
      ItemsSame(seen, items[..|items| - 1], x, y);
    }
  }

  /** Columns that a query does not name may be present, absent or different: its result is the same. */
  lemma UnreadColumnsDoNotMatter(seen: set<ColRef>, s: Select, c: Context, d: Context)
    requires SelectReadsOnly(seen, s, c, d)
    ensures EvalSelect(s, c) == EvalSelect(s, d)
  {
    hide FromScopes, AllWhere, ItemRow, ScopesAgree, JoinReadsOnly, WhereReadsOnly, SourceAgrees;
    FromAgrees(seen, s.from, s.joins, c, d);
    var xs, ys := FromScopes(s.from, s.joins, c), FromScopes(s.from, s.joins, d);
    var f, g := (x: Scope) => AllWhere(s.where, x, c), (y: Scope) => AllWhere(s.where, y, d);
    forall i | 0 <= i < |xs| ensures f(xs[i]) == g(ys[i]) {
      assert ScopePair(seen)(xs[i], ys[i]);
      WhereSame(seen, s.where, xs[i], ys[i], c, d);
    }
    PairedFilter(ScopePair(seen), f, g, xs, ys);
    var kept, kept' := Filter(f, xs), Filter(g, ys);
    forall i | 0 <= i < |kept| ensures ItemRow(s.items, kept[i]) == ItemRow(s.items, kept'[i]) {
      assert ScopePair(seen)(kept[i], kept'[i]);
      ItemsSame(seen, s.items, kept[i], kept'[i]);
    }
    FilterCong((scope: Scope) => AllWhere(s.where, scope, c), f, xs);
    FilterCong((scope: Scope) => AllWhere(s.where, scope, d), g, ys);
  }
}
