/** The greedy introduction of sources along declared joins, and the connectivity check.
    Models the join loops of ontology_core/inference_to_relational.py and
    ontology_core/inference_compiler.py, and `_connected` of ontology_core/inference_validation.py. */
module JoinOrder {
  import opened SeqOps
  import opened RelationalPlan

  type Key = nat

  datatype Edge = Edge(joinType: JoinType, left: Key, right: Key)

  /** One introduced source: which join brought it in, and whether the join was read right to left. */
  datatype Intro = Intro(edge: nat, source: Key, flipped: bool)

  function Directed(edges: seq<Edge>): set<Key> {
    set e | e in edges && e.joinType != Inner :: e.right
  }

  // ----- the loop -----

  function Usable(edges: seq<Edge>, j: nat, visited: set<Key>, remaining: set<Key>): Option<Intro>
    requires j < |edges|
  {
    var e := edges[j];
    if e.left in visited && e.right in remaining then Some(Intro(j, e.right, false))
    else if e.joinType == Inner && e.right in visited && e.left in remaining && e.left !in Directed(edges)
    then Some(Intro(j, e.left, true))
    else None
  }

  /** The first unused join, in declaration order, that reaches a new source. */
  function FirstUsable(edges: seq<Edge>, unused: seq<nat>, visited: set<Key>, remaining: set<Key>): (r: Option<Intro>)
    requires forall j :: j in unused ==> j < |edges|
    ensures r.Some? ==> r.value.edge in unused && Usable(edges, r.value.edge, visited, remaining) == r
    ensures r.None? ==> forall j :: j in unused ==> Usable(edges, j, visited, remaining).None?
  {
    if unused == [] then None
    else
      assert unused[0] in unused && forall j :: j in unused[1..] ==> j in unused;
      var first := Usable(edges, unused[0], visited, remaining);
      if first.Some? then first else FirstUsable(edges, unused[1..], visited, remaining)
  }

  function Without(xs: seq<nat>, x: nat): (ys: seq<nat>)
    ensures forall y :: y in ys <==> y in xs && y != x
    ensures |ys| <= |xs| && (x in xs ==> |ys| < |xs|)
  {
    if xs == [] then []
    else if xs[0] == x then Without(xs[1..], x)
    else [xs[0]] + Without(xs[1..], x)
  }

  /** The introductions still to come; None when the loop raises. */
  function Introduce(edges: seq<Edge>, sources: set<Key>, visited: set<Key>, unused: seq<nat>): Option<seq<Intro>>
    requires forall j :: j in unused ==> j < |edges|
    decreases |unused|
  {
    var remaining := sources - visited;
    if remaining == {} then (if unused == [] then Some([]) else None)
    else
      var chosen := FirstUsable(edges, unused, visited, remaining);
      if chosen.None? then None
      else if edges[chosen.value.edge].joinType == Inner && chosen.value.source in Directed(edges) then None
      else
        var rest := Introduce(edges, sources, visited + {chosen.value.source}, Without(unused, chosen.value.edge));
        if rest.None? then None else Some([chosen.value] + rest.value)
  }

  function AllIndices(n: nat): (xs: seq<nat>)
    ensures |xs| == n && forall i :: 0 <= i < n ==> xs[i] == i
  {
    seq(n, i => i)
  }

  /** The order in which the loop introduces sources from `root`. */
  function OrderFrom(edges: seq<Edge>, sources: set<Key>, root: Key): Option<seq<Intro>> {
    Introduce(edges, sources, {root}, AllIndices(|edges|))
  }

  function After(order: seq<Intro>, rest: Option<seq<Intro>>): Option<seq<Intro>> {
    if rest.None? then None else Some(order + rest.value)
  }

  lemma AfterStep(order: seq<Intro>, s: Intro, rest: Option<seq<Intro>>)
    ensures After(order, After([s], rest)) == After(order + [s], rest)
  {
    if rest.Some? {
      assert order + ([s] + rest.value) == (order + [s]) + rest.value;
    }
  }

  // The loop's start, one round of it, and its end.
  lemma LoopStarts(edges: seq<Edge>, all: set<Key>, root: Key)
    ensures OrderFrom(edges, all, root) == After([], Introduce(edges, all, {root}, AllIndices(|edges|)))
  {
    var rest := Introduce(edges, all, {root}, AllIndices(|edges|));
    assert rest.Some? ==> [] + rest.value == rest.value;
  }

  lemma LoopStep(edges: seq<Edge>, all: set<Key>, visited: set<Key>, unused: seq<nat>, order: seq<Intro>)
    requires all - visited != {} && forall j :: j in unused ==> j < |edges|
    ensures var chosen := FirstUsable(edges, unused, visited, all - visited);
            After(order, Introduce(edges, all, visited, unused)) ==
              if chosen.None? || (edges[chosen.value.edge].joinType == Inner && chosen.value.source in Directed(edges))
                  then None
              else After(order + [chosen.value],
                         Introduce(edges, all, visited + {chosen.value.source}, Without(unused, chosen.value.edge)))
  {
    var chosen := FirstUsable(edges, unused, visited, all - visited);
    if chosen.Some? && !(edges[chosen.value.edge].joinType == Inner && chosen.value.source in Directed(edges)) {
      var rest := Introduce(edges, all, visited + {chosen.value.source}, Without(unused, chosen.value.edge));
      assert Introduce(edges, all, visited, unused) == After([chosen.value], rest);
      AfterStep(order, chosen.value, rest);
    }
  }

  lemma EndOfLoop(edges: seq<Edge>, all: set<Key>, visited: set<Key>, unused: seq<nat>, order: seq<Intro>)
    requires all - visited == {} && forall j :: j in unused ==> j < |edges|
    ensures After(order, Introduce(edges, all, visited, unused)) == if unused == [] then Some(order) else None
  {
    assert order + [] == order;
  }

  // ----- legal orders -----

  function Reached(visited: set<Key>, order: seq<Intro>): set<Key> {
    visited + set s | s in order :: s.source
  }

  /** A join may bring in a source only from its preserved side, and an inner join never brings in
      the right side of a LEFT or anti join. */
  predicate LegalStep(edges: seq<Edge>, sources: set<Key>, visited: set<Key>, s: Intro) {
    && s.edge < |edges| && s.source in sources && s.source !in visited
    && (if s.flipped
        then edges[s.edge].joinType == Inner && edges[s.edge].right in visited && edges[s.edge].left == s.source
        else edges[s.edge].left in visited && edges[s.edge].right == s.source)
    && (edges[s.edge].joinType == Inner ==> s.source !in Directed(edges))
  }

  /** Every source introduced once, every declared join used exactly once, every step legal. */
  ghost predicate LegalOrder(edges: seq<Edge>, sources: set<Key>, root: Key, order: seq<Intro>) {
    && Reached({root}, order) == sources
    && (forall k :: 0 <= k < |order| ==> LegalStep(edges, sources, Reached({root}, order[..k]), order[k]))
    && (forall i, k :: 0 <= i < k < |order| ==> order[i].edge != order[k].edge)
    && (forall j :: 0 <= j < |edges| ==> Uses(order, j))
  }

  ghost predicate Uses(order: seq<Intro>, j: nat) {
    exists k :: 0 <= k < |order| && order[k].edge == j
  }

  /** The part of an order that the loop has produced so far. */
  ghost predicate Partial(edges: seq<Edge>, sources: set<Key>, root: Key, done: seq<Intro>, unused: seq<nat>) {
    && (forall k :: 0 <= k < |done| ==> LegalStep(edges, sources, Reached({root}, done[..k]), done[k]))
    && (forall i, k :: 0 <= i < k < |done| ==> done[i].edge != done[k].edge)
    && (forall j :: j in unused ==> j < |edges|)
    && (forall j {:trigger j in unused} {:trigger Uses(done, j)} ::
        0 <= j < |edges| ==> (j in unused <==> !Uses(done, j)))
  }

  lemma ReachedSnoc(visited: set<Key>, order: seq<Intro>, s: Intro)
    ensures Reached(visited, order + [s]) == Reached(visited, order) + {s.source}
  {
  }

  lemma PartialSnoc(edges: seq<Edge>, sources: set<Key>, root: Key, done: seq<Intro>, unused: seq<nat>, s: Intro)
    requires Partial(edges, sources, root, done, unused) && s.edge in unused
    requires LegalStep(edges, sources, Reached({root}, done), s)
    ensures Partial(edges, sources, root, done + [s], Without(unused, s.edge))
  {
    var more := done + [s];
    forall k | 0 <= k < |more| ensures LegalStep(edges, sources, Reached({root}, more[..k]), more[k]) {
      if k < |done| {
        assert more[..k] == done[..k];
      } else {
        assert more[..k] == done;
      }
    }
    forall j: nat | j < |edges| ensures Uses(more, j) <==> Uses(done, j) || j == s.edge {
      if Uses(done, j) {
        var k :| 0 <= k < |done| && done[k].edge == j;
        assert more[k].edge == j;
      }
      if j == s.edge {
        assert more[|done|].edge == j;
      }
    }
    forall k | 0 <= k < |done| ensures more[k].edge != s.edge {
      assert more[k].edge == done[k].edge;
    }
  }

  lemma ChosenIsLegal(edges: seq<Edge>, sources: set<Key>, visited: set<Key>, s: Intro)
    requires s.edge < |edges| && Usable(edges, s.edge, visited, sources - visited) == Some(s)
    requires edges[s.edge].joinType == Inner ==> s.source !in Directed(edges)
    ensures LegalStep(edges, sources, visited, s)
  {
  }

  lemma CompleteIsLegal(edges: seq<Edge>, sources: set<Key>, root: Key, done: seq<Intro>)
    requires root in sources && Partial(edges, sources, root, done, []) && sources - Reached({root}, done) == {}
    ensures LegalOrder(edges, sources, root, done)
  {
    forall x | x in Reached({root}, done) ensures x in sources {
      if x != root {
        var s :| s in done && s.source == x;
        var k :| 0 <= k < |done| && done[k] == s;
        assert LegalStep(edges, sources, Reached({root}, done[..k]), done[k]);
      }
    }
    forall j: nat | j < |edges| ensures Uses(done, j) {
      var none: seq<nat> := [];
      assert j !in none;
    }
  }

  lemma NothingIntroduced(edges: seq<Edge>, sources: set<Key>, visited: set<Key>, unused: seq<nat>)
    requires sources - visited == {} && (forall j :: j in unused ==> j < |edges|)
    requires Introduce(edges, sources, visited, unused).Some?
    ensures unused == [] && Introduce(edges, sources, visited, unused) == Some([])
  {
  }

  lemma FirstIntroduced(edges: seq<Edge>, sources: set<Key>, visited: set<Key>, unused: seq<nat>) returns (s: Intro)
    requires sources - visited != {} && (forall j :: j in unused ==> j < |edges|)
    requires Introduce(edges, sources, visited, unused).Some?
    ensures s.edge in unused && s.edge < |edges| && Usable(edges, s.edge, visited, sources - visited) == Some(s)
    ensures edges[s.edge].joinType == Inner ==> s.source !in Directed(edges)
    ensures var rest := Introduce(edges, sources, visited + {s.source}, Without(unused, s.edge));
            rest.Some? && Introduce(edges, sources, visited, unused).value == [s] + rest.value
  {
    hide Usable, Directed;
    s := FirstUsable(edges, unused, visited, sources - visited).value;
  }

  /** Whatever the loop returns is a legal order. */
  lemma {:induction false} IntroduceIsLegal(edges: seq<Edge>, sources: set<Key>, root: Key, done: seq<Intro>,
          unused: seq<nat>)
    requires root in sources && Partial(edges, sources, root, done, unused)
    requires forall j :: j in unused ==> j < |edges|
    requires Introduce(edges, sources, Reached({root}, done), unused).Some?
    ensures LegalOrder(edges, sources, root, done + Introduce(edges, sources, Reached({root}, done), unused).value)
    decreases |unused|
  {
    hide LegalStep, Usable, Partial, LegalOrder, Reached, FirstUsable, Directed, Introduce;
    var visited := Reached({root}, done);
    var rest := Introduce(edges, sources, visited, unused).value;
    if sources - visited == {} {
      NothingIntroduced(edges, sources, visited, unused);
      assert done + rest == done;
      CompleteIsLegal(edges, sources, root, done);
    } else {
      var s := FirstIntroduced(edges, sources, visited, unused);
      ChosenIsLegal(edges, sources, visited, s);
      PartialSnoc(edges, sources, root, done, unused, s);
      ReachedSnoc({root}, done, s);
      IntroduceIsLegal(edges, sources, root, done + [s], Without(unused, s.edge));
      assert done + rest == (done + [s]) + rest[1..];
    }
  }

  /** Every step taken so far introduces the source that `legal` introduces along the same join. */
  ghost predicate Agrees(done: seq<Intro>, legal: seq<Intro>) {
    forall s :: s in done ==> exists k :: 0 <= k < |legal| && legal[k].edge == s.edge && legal[k].source == s.source
  }

  lemma LegalSourcesDiffer(edges: seq<Edge>, sources: set<Key>, root: Key, legal: seq<Intro>, i: nat, k: nat)
    requires LegalOrder(edges, sources, root, legal) && i < |legal| && k < |legal| && legal[i].source == legal[k].source
    ensures i == k && legal[i].source != root
  {
    assert LegalStep(edges, sources, Reached({root}, legal[..i]), legal[i]);
    assert LegalStep(edges, sources, Reached({root}, legal[..k]), legal[k]);
    if i < k {
      LaterIsReached(root, legal, i, k);
    } else if k < i {
      LaterIsReached(root, legal, k, i);
    }
  }

  lemma LaterIsReached(root: Key, order: seq<Intro>, i: nat, k: nat)
    requires i < k < |order|
    ensures order[i].source in Reached({root}, order[..k])
  {
    assert order[..k][i] in order[..k];
  }

  lemma ReachedFrom(root: Key, order: seq<Intro>, x: Key) returns (k: nat)
    requires x in Reached({root}, order) && x != root
    ensures k < |order| && order[k].source == x
  {
    var s :| s in order && s.source == x;
    k :| 0 <= k < |order| && order[k] == s;
  }

  // The join that a legal order uses for an already visited source has been used for it.
  lemma UsedForVisited(edges: seq<Edge>, sources: set<Key>, root: Key, done: seq<Intro>, unused: seq<nat>,
          legal: seq<Intro>, k: nat)
    requires LegalOrder(edges, sources, root, legal) && Partial(edges, sources, root, done, unused)
             && Agrees(done, legal)
    requires k < |legal| && legal[k].source in Reached({root}, done)
    ensures legal[k].edge !in unused
  {
    hide LegalOrder, LegalStep, Reached;
    LegalSourcesDiffer(edges, sources, root, legal, k, k);
    var p := ReachedFrom(root, done, legal[k].source);
    assert done[p] in done;
    var i :| 0 <= i < |legal| && legal[i].edge == done[p].edge && legal[i].source == done[p].source;
    LegalSourcesDiffer(edges, sources, root, legal, i, k);
    LegalEdges(edges, sources, root, legal, k);
    assert Uses(done, legal[k].edge);
  }

  lemma LegalEdges(edges: seq<Edge>, sources: set<Key>, root: Key, legal: seq<Intro>, k: nat)
    requires LegalOrder(edges, sources, root, legal) && k < |legal|
    ensures legal[k].edge < |edges| && LegalStep(edges, sources, Reached({root}, legal[..k]), legal[k])
  {
  }

  lemma SameEdgeSameStep(edges: seq<Edge>, sources: set<Key>, root: Key, legal: seq<Intro>, i: nat, k: nat)
    requires LegalOrder(edges, sources, root, legal) && i < |legal| && k < |legal| && legal[i].edge == legal[k].edge
    ensures i == k
  {
  }

  // A join that the loop has used is used by every legal order for a source that is already visited.
  lemma UsedIsVisited(edges: seq<Edge>, sources: set<Key>, root: Key, done: seq<Intro>, unused: seq<nat>,
          legal: seq<Intro>, k: nat)
    requires LegalOrder(edges, sources, root, legal) && Partial(edges, sources, root, done, unused)
             && Agrees(done, legal)
    requires k < |legal| && legal[k].edge !in unused
    ensures legal[k].source in Reached({root}, done)
  {
    hide LegalOrder, LegalStep;
    LegalEdges(edges, sources, root, legal, k);
    assert Uses(done, legal[k].edge);
    var p :| 0 <= p < |done| && done[p].edge == legal[k].edge;
    assert done[p] in done;
    var i :| 0 <= i < |legal| && legal[i].edge == done[p].edge && legal[i].source == done[p].source;
    SameEdgeSameStep(edges, sources, root, legal, i, k);
  }

  lemma PrefixVisited(root: Key, legal: seq<Intro>, k: nat, visited: set<Key>)
    requires k <= |legal| && root in visited && forall i :: 0 <= i < k ==> legal[i].source in visited
    ensures Reached({root}, legal[..k]) <= visited
  {
    forall x | x in Reached({root}, legal[..k]) ensures x in visited {
      if x != root {
        var i := ReachedFrom(root, legal[..k], x);
      }
    }
  }

  lemma LegalIsUsable(edges: seq<Edge>, sources: set<Key>, small: set<Key>, visited: set<Key>, s: Intro)
    requires LegalStep(edges, sources, small, s) && small <= visited && s.source !in visited
    ensures Usable(edges, s.edge, visited, sources - visited).Some?
  {
  }

  // While a source is missing, some unused join can be used.
  lemma SomethingUsable(edges: seq<Edge>, sources: set<Key>, root: Key, done: seq<Intro>, unused: seq<nat>,
          legal: seq<Intro>)
    requires LegalOrder(edges, sources, root, legal) && Partial(edges, sources, root, done, unused)
             && Agrees(done, legal)
    requires forall j :: j in unused ==> j < |edges|
    requires sources - Reached({root}, done) != {}
    ensures var visited := Reached({root}, done);
            FirstUsable(edges, unused, visited, sources - visited).Some?
  {
    hide LegalStep, Usable, Partial, Agrees;
    var visited := Reached({root}, done);
    var k := FirstMissing(legal, visited, root, sources);
    PrefixVisited(root, legal, k, visited);
    LegalEdges(edges, sources, root, legal, k);
    LegalIsUsable(edges, sources, Reached({root}, legal[..k]), visited, legal[k]);
    if legal[k].edge !in unused {
      UsedIsVisited(edges, sources, root, done, unused, legal, k);
      assert false;
    }
  }

  lemma FirstMissing(legal: seq<Intro>, visited: set<Key>, root: Key, sources: set<Key>) returns (k: nat)
    requires root in visited && Reached({root}, legal) == sources && sources - visited != {}
    ensures k < |legal| && legal[k].source !in visited && forall i :: 0 <= i < k ==> legal[i].source in visited
  {
    var x :| x in sources - visited;
    var bound := ReachedFrom(root, legal, x);
    k := 0;
    while legal[k].source in visited
      invariant k <= bound && forall i :: 0 <= i < k ==> legal[i].source in visited
      decreases bound - k
    {
      k := k + 1;
    }
  }

  lemma EndpointsOfStep(edges: seq<Edge>, sources: set<Key>, small: set<Key>, visited: set<Key>, legal: Intro, s: Intro)
    requires LegalStep(edges, sources, small, legal) && legal.edge == s.edge && legal.source !in visited
    requires Usable(edges, s.edge, visited, sources - visited) == Some(s)
    ensures legal.source == s.source
    ensures edges[s.edge].joinType == Inner ==> s.source !in Directed(edges)
  {
  }

  // The join the loop picks is the one that every legal order uses for that source.
  lemma ChosenAgrees(edges: seq<Edge>, sources: set<Key>, root: Key, done: seq<Intro>, unused: seq<nat>,
          legal: seq<Intro>, s: Intro)
    requires LegalOrder(edges, sources, root, legal) && Partial(edges, sources, root, done, unused)
             && Agrees(done, legal)
    requires s.edge in unused && s.edge < |edges|
    requires var visited := Reached({root}, done); Usable(edges, s.edge, visited, sources - visited) == Some(s)
    ensures Agrees(done + [s], legal)
    ensures edges[s.edge].joinType == Inner ==> s.source !in Directed(edges)
  {
    hide LegalStep, Usable, Partial, Reached;
    assert Uses(legal, s.edge);
    var k :| 0 <= k < |legal| && legal[k].edge == s.edge;
    if legal[k].source in Reached({root}, done) {
      UsedForVisited(edges, sources, root, done, unused, legal, k);
      assert false;
    }
    LegalEdges(edges, sources, root, legal, k);
    EndpointsOfStep(edges, sources, Reached({root}, legal[..k]), Reached({root}, done), legal[k], s);
    assert legal[k].edge == s.edge && legal[k].source == s.source;
  }

  lemma NothingLeftOver(edges: seq<Edge>, sources: set<Key>, root: Key, done: seq<Intro>, unused: seq<nat>,
          legal: seq<Intro>)
    requires LegalOrder(edges, sources, root, legal) && Partial(edges, sources, root, done, unused)
             && Agrees(done, legal)
    requires sources - Reached({root}, done) == {}
    ensures unused == []
  {
    if unused != [] {
      assert unused[0] in unused;
      assert Uses(legal, unused[0]);
      var k :| 0 <= k < |legal| && legal[k].edge == unused[0];
      LegalEdges(edges, sources, root, legal, k);
      UsedForVisited(edges, sources, root, done, unused, legal, k);
      assert false;
    }
  }

  /** The loop never gets stuck when some legal order exists. */
  lemma {:induction false} IntroduceSucceeds(edges: seq<Edge>, sources: set<Key>, root: Key, done: seq<Intro>,
          unused: seq<nat>, legal: seq<Intro>)
    requires LegalOrder(edges, sources, root, legal) && Partial(edges, sources, root, done, unused)
             && Agrees(done, legal)
    requires forall j :: j in unused ==> j < |edges|
    ensures Introduce(edges, sources, Reached({root}, done), unused).Some?
    decreases |unused|
  {
    hide LegalStep, Usable, Partial, LegalOrder, Reached, Agrees;
    var visited := Reached({root}, done);
    if sources - visited == {} {
      NothingLeftOver(edges, sources, root, done, unused, legal);
    } else {
      SomethingUsable(edges, sources, root, done, unused, legal);
      var s := FirstUsable(edges, unused, visited, sources - visited).value;
      ChosenAgrees(edges, sources, root, done, unused, legal, s);
      ChosenIsLegal(edges, sources, visited, s);
      PartialSnoc(edges, sources, root, done, unused, s);
      ReachedSnoc({root}, done, s);
      IntroduceSucceeds(edges, sources, root, done + [s], Without(unused, s.edge), legal);
    }
  }

  lemma StartPartial(edges: seq<Edge>, sources: set<Key>, root: Key)
    ensures Partial(edges, sources, root, [], AllIndices(|edges|)) && Reached({root}, []) == {root}
  {
    forall j | 0 <= j < |edges| ensures j in AllIndices(|edges|) {
      assert AllIndices(|edges|)[j] == j;
    }
  }

  /** The greedy loop is sound and complete for its root: it succeeds exactly when a legal
      introduction order exists, and then returns one. */
  lemma OrderIsSoundAndComplete(edges: seq<Edge>, sources: set<Key>, root: Key)
    requires root in sources
    ensures OrderFrom(edges, sources, root).Some? <==> exists order :: LegalOrder(edges, sources, root, order)
    ensures OrderFrom(edges, sources, root).Some? ==>
            LegalOrder(edges, sources, root, OrderFrom(edges, sources, root).value)
  {
    StartPartial(edges, sources, root);
    var unused := AllIndices(|edges|);
    if OrderFrom(edges, sources, root).Some? {
      IntroduceIsLegal(edges, sources, root, [], unused);
      assert [] + OrderFrom(edges, sources, root).value == OrderFrom(edges, sources, root).value;
    }
    if order :| LegalOrder(edges, sources, root, order) {
      IntroduceSucceeds(edges, sources, root, [], unused, order);
    }
  }

  // ----- connectivity -----

  ghost predicate Crosses(e: Edge, part: set<Key>) {
    (e.left in part) != (e.right in part)
  }

  /** No proper part of the sources is cut off. */
  ghost predicate Connected(sources: set<Key>, edges: seq<Edge>) {
    forall part: set<Key> :: part <= sources && part != {} && part != sources ==> exists e :: e in edges && Crosses(e,
        part)
  }

  ghost predicate EdgesWithin(sources: set<Key>, edges: seq<Edge>) {
    forall e :: e in edges ==> e.left in sources && e.right in sources
  }

  /** `_connected`: the marked set grows along crossing edges until nothing changes. */
  method IsConnected(sources: set<Key>, edges: seq<Edge>) returns (connected: bool)
    requires EdgesWithin(sources, edges)
    ensures connected <==> Connected(sources, edges)
  {
    if |sources| <= 1 {
      SmallSetHasNoPart(sources);
      return true;
    }
    var start :| start in sources;
    var visited := {start};
    var changed := true;
    while changed
      invariant start in visited && visited <= sources
      invariant forall part: set<Key> ::
                start in part && (forall e :: e in edges ==> !Crosses(e, part)) ==> visited <= part
      invariant !changed ==> forall e :: e in edges ==> !Crosses(e, visited)
      decreases |sources - visited|, changed
    {
      changed := false;
      ghost var before := visited;
      for i := 0 to |edges|
        invariant start in visited && before <= visited <= sources
        invariant forall part: set<Key> ::
                  start in part && (forall e :: e in edges ==> !Crosses(e, part)) ==> visited <= part
        invariant changed <==> visited != before
        invariant !changed ==> forall k :: 0 <= k < i ==> !Crosses(edges[k], visited)
      {
        assert edges[i] in edges;
        if (edges[i].left in visited) != (edges[i].right in visited) {
          visited := visited + {edges[i].left, edges[i].right};
          changed := true;
        }
      }
      if changed {
        SubsetLeavesFewer(sources, before, visited);
      }
    }
    connected := visited == sources;
    if connected {
      forall part: set<Key> | part <= sources && part != {} && part != sources
        ensures exists e :: e in edges && Crosses(e, part)
      {
        if forall e :: e in edges ==> !Crosses(e, part) {
          assert forall e :: e in edges ==> !Crosses(e, sources - part);
          assert false;
        }
      }
    }
  }

  lemma SmallSetHasNoPart(s: set<Key>)
    requires |s| <= 1
    ensures forall part: set<Key> :: part <= s && part != {} ==> part == s
  {
    forall part: set<Key> | part <= s && part != {} ensures part == s {
      var x :| x in part;
      assert |s - {x}| == |s| - 1;
    }
  }

  lemma SubsetLeavesFewer(all: set<Key>, small: set<Key>, large: set<Key>)
    requires small < large <= all
    ensures |all - large| < |all - small|
  {
    assert large == small + (large - small);
    var x :| x in large - small;
    assert all - large <= (all - small) - {x};
    SubsetCardinality(all - large, (all - small) - {x});
  }

  lemma {:induction false} SubsetCardinality(a: set<Key>, b: set<Key>)
    requires a <= b
    ensures |a| <= |b|
  {
    if a != {} {
      var x :| x in a;
      SubsetCardinality(a - {x}, b - {x});
    }
  }

  lemma UsedHasVisitedEnds(edges: seq<Edge>, sources: set<Key>, root: Key, done: seq<Intro>, unused: seq<nat>, j: nat)
    requires Partial(edges, sources, root, done, unused) && j < |edges| && j !in unused
    ensures edges[j].left in Reached({root}, done) && edges[j].right in Reached({root}, done)
  {
    assert Uses(done, j);
    var p :| 0 <= p < |done| && done[p].edge == j;
    assert LegalStep(edges, sources, Reached({root}, done[..p]), done[p]);
    assert done[p] in done;
  }

  // A join across the border of the visited sources is unused, and usable when all joins are inner.
  lemma BorderIsUsable(edges: seq<Edge>, sources: set<Key>, root: Key, done: seq<Intro>, unused: seq<nat>)
    requires root in sources && EdgesWithin(sources, edges) && Connected(sources, edges)
    requires forall e :: e in edges ==> e.joinType == Inner
    requires Partial(edges, sources, root, done, unused) && sources - Reached({root}, done) != {}
    ensures exists j :: j in unused && j < |edges| && Usable(edges, j, Reached({root}, done),
                                                             sources - Reached({root}, done)).Some?
  {
    var visited := Reached({root}, done);
    var part := sources * visited;
    var x :| x in sources - visited;
    assert root in part && x !in part && part <= sources;
    var e :| e in edges && Crosses(e, part);
    var j :| 0 <= j < |edges| && edges[j] == e;
    assert Crosses(e, visited);
    if j !in unused {
      UsedHasVisitedEnds(edges, sources, root, done, unused, j);
      assert false;
    }
    assert Directed(edges) == {};
    assert Usable(edges, j, visited, sources - visited).Some?;
  }

  lemma {:induction false} ConnectedTreeIntroduces(edges: seq<Edge>, sources: set<Key>, root: Key, done: seq<Intro>,
          unused: seq<nat>)
    requires root in sources && EdgesWithin(sources, edges) && Connected(sources, edges)
    requires forall e :: e in edges ==> e.joinType == Inner
    requires Partial(edges, sources, root, done, unused)
    requires forall j :: j in unused ==> j < |edges|
    requires |unused| == |sources - Reached({root}, done)| && NoDup(unused)
    ensures Introduce(edges, sources, Reached({root}, done), unused).Some?
    decreases |unused|
  {
    hide LegalStep, Usable, Partial, Reached, EdgesWithin, Connected;
    var visited := Reached({root}, done);
    var remaining := sources - visited;
    if remaining != {} {
      BorderIsUsable(edges, sources, root, done, unused);
      var s := FirstUsable(edges, unused, visited, remaining).value;
      NoneDirected(edges);
      ChosenIsLegal(edges, sources, visited, s);
      PartialSnoc(edges, sources, root, done, unused, s);
      ReachedSnoc({root}, done, s);
      WithoutOne(unused, s.edge);
      StepIsNew(edges, sources, visited, s);
      assert sources - (visited + {s.source}) == remaining - {s.source};
      ConnectedTreeIntroduces(edges, sources, root, done + [s], Without(unused, s.edge));
    }
  }

  lemma NoneDirected(edges: seq<Edge>)
    requires forall e :: e in edges ==> e.joinType == Inner
    ensures Directed(edges) == {}
  {
  }

  lemma StepIsNew(edges: seq<Edge>, sources: set<Key>, visited: set<Key>, s: Intro)
    requires LegalStep(edges, sources, visited, s)
    ensures s.source in sources - visited
  {
  }

  lemma {:induction false} WithoutOne(xs: seq<nat>, x: nat)
    requires NoDup(xs) && x in xs
    ensures |Without(xs, x)| == |xs| - 1 && NoDup(Without(xs, x))
  {
    NoDupTail(xs);
    if xs[0] == x {
      WithoutNone(xs[1..], x);
    } else {
      WithoutOne(xs[1..], x);
    }
  }

  lemma {:induction false} WithoutNone(xs: seq<nat>, x: nat)
    requires x !in xs
    ensures Without(xs, x) == xs
  {
    if xs != [] {
      WithoutNone(xs[1..], x);
    }
  }

  /** Inner joins that form a connected tree are always introduced, from any root. */
  lemma InnerTreesSucceed(edges: seq<Edge>, sources: set<Key>, root: Key)
    requires root in sources && EdgesWithin(sources, edges) && Connected(sources, edges)
    requires forall e :: e in edges ==> e.joinType == Inner
    requires |edges| == |sources| - 1
    ensures OrderFrom(edges, sources, root).Some?
  {
    StartPartial(edges, sources, root);
    assert |sources - {root}| == |sources| - 1;
    ConnectedTreeIntroduces(edges, sources, root, [], AllIndices(|edges|));
  }

  // ----- roots that work -----

  /** Only edge `j` leaves the part: without it, nothing outside the part can be reached. */
  ghost predicate CutsOff(edges: seq<Edge>, j: nat, part: set<Key>) {
    j < |edges| && Crosses(edges[j], part) && forall i :: 0 <= i < |edges| && i != j ==> !Crosses(edges[i], part)
  }

  /** Removing edge `j` leaves `near` on the side of the root and cuts off `far`. */
  ghost predicate LeadsAway(edges: seq<Edge>, sources: set<Key>, root: Key, j: nat, near: Key, far: Key) {
    exists part: set<Key> :: part <= sources && root in part && near in part && far !in part && CutsOff(edges, j, part)
  }

  /** Every LEFT or anti join points away from the root. */
  ghost predicate DirectedAway(edges: seq<Edge>, sources: set<Key>, root: Key) {
    forall j :: 0 <= j < |edges| && edges[j].joinType != Inner ==> LeadsAway(edges, sources, root, j, edges[j].left,
                                                                             edges[j].right)
  }

  lemma UsedStayInside(edges: seq<Edge>, sources: set<Key>, root: Key, done: seq<Intro>, unused: seq<nat>, j: nat,
          part: set<Key>)
    requires Partial(edges, sources, root, done, unused) && j in unused && CutsOff(edges, j, part) && root in part
    ensures Reached({root}, done) <= part
  {
    hide CutsOff, Partial, LegalStep;
    for k := 0 to |done|
      invariant Reached({root}, done[..k]) <= part
    {
      assert done[..k + 1] == done[..k] + [done[k]];
      ReachedSnoc({root}, done[..k], done[k]);
      StepStaysInside(edges, sources, root, done, unused, j, part, k);
    }
    assert done[..|done|] == done;
  }

  lemma StepStaysInside(edges: seq<Edge>, sources: set<Key>, root: Key, done: seq<Intro>, unused: seq<nat>, j: nat,
          part: set<Key>, k: nat)
    requires Partial(edges, sources, root, done, unused) && j in unused && CutsOff(edges, j, part) && k < |done|
    requires Reached({root}, done[..k]) <= part
    ensures done[k].source in part
  {
    assert LegalStep(edges, sources, Reached({root}, done[..k]), done[k]);
    assert Uses(done, done[k].edge);
    assert done[k].edge != j;
    assert !Crosses(edges[done[k].edge], part);
  }

  // With all directed joins pointing away, an inner join over the border leads to a preserved source.
  lemma BorderIsPreserved(edges: seq<Edge>, sources: set<Key>, root: Key, done: seq<Intro>, unused: seq<nat>, j: nat,
          near: Key, far: Key)
    requires DirectedAway(edges, sources, root) && Partial(edges, sources, root, done, unused)
    requires j < |edges| && edges[j].joinType == Inner && {near, far} == {edges[j].left, edges[j].right}
    requires near in Reached({root}, done) && far !in Reached({root}, done)
    ensures far !in Directed(edges)
  {
    hide Partial, Reached;
    if far in Directed(edges) {
      var d :| d in edges && d.joinType != Inner && d.right == far;
      var i :| 0 <= i < |edges| && edges[i] == d;
      if i !in unused {
        UsedHasVisitedEnds(edges, sources, root, done, unused, i);
        assert false;
      }
      assert LeadsAway(edges, sources, root, i, d.left, far);
      var part: set<Key> :| part <= sources && root in part && d.left in part && far !in part
          && CutsOff(edges, i, part);
      UsedStayInside(edges, sources, root, done, unused, i, part);
      assert false;
    }
  }

  lemma DirectedIsReady(edges: seq<Edge>, sources: set<Key>, root: Key, done: seq<Intro>, unused: seq<nat>, j: nat)
    requires DirectedAway(edges, sources, root) && Partial(edges, sources, root, done, unused)
    requires j < |edges| && edges[j].joinType != Inner && j in unused
    ensures edges[j].right !in Reached({root}, done)
  {
    hide Partial, Reached;
    var part: set<Key> :| part <= sources && root in part && edges[j].left in part && edges[j].right !in part
        && CutsOff(edges, j, part);
    UsedStayInside(edges, sources, root, done, unused, j, part);
  }

  lemma AwayBorderIsUsable(edges: seq<Edge>, sources: set<Key>, root: Key, done: seq<Intro>, unused: seq<nat>)
    requires root in sources && EdgesWithin(sources, edges) && Connected(sources, edges)
             && DirectedAway(edges, sources, root)
    requires Partial(edges, sources, root, done, unused) && sources - Reached({root}, done) != {}
    ensures exists j :: j in unused && j < |edges| && Usable(edges, j, Reached({root}, done),
                                                             sources - Reached({root}, done)).Some?
  {
    hide Partial, Reached, DirectedAway;
    var visited := Reached({root}, done);
    assert root in visited by { RootIsReached(root, done); }
    var part := sources * visited;
    var x :| x in sources - visited;
    assert root in part && x !in part && part <= sources;
    var e :| e in edges && Crosses(e, part);
    var j :| 0 <= j < |edges| && edges[j] == e;
    assert Crosses(e, visited);
    if j !in unused {
      UsedHasVisitedEnds(edges, sources, root, done, unused, j);
      assert false;
    }
    if e.joinType != Inner {
      DirectedIsReady(edges, sources, root, done, unused, j);
    } else if e.right in visited {
      BorderIsPreserved(edges, sources, root, done, unused, j, e.right, e.left);
    }
    assert Usable(edges, j, visited, sources - visited).Some?;
  }

  lemma RootIsReached(root: Key, done: seq<Intro>)
    ensures root in Reached({root}, done)
  {
  }

  lemma AwayChoiceIsLegal(edges: seq<Edge>, sources: set<Key>, root: Key, done: seq<Intro>, unused: seq<nat>, s: Intro)
    requires DirectedAway(edges, sources, root) && Partial(edges, sources, root, done, unused) && s.edge < |edges|
    requires Usable(edges, s.edge, Reached({root}, done), sources - Reached({root}, done)) == Some(s)
    ensures edges[s.edge].joinType == Inner ==> s.source !in Directed(edges)
  {
    hide Partial, Reached, DirectedAway, Directed;
    var e := edges[s.edge];
    if e.joinType == Inner && !s.flipped {
      BorderIsPreserved(edges, sources, root, done, unused, s.edge, e.left, e.right);
    }
  }

  lemma {:induction false} AwayTreeIntroduces(edges: seq<Edge>, sources: set<Key>, root: Key, done: seq<Intro>,
          unused: seq<nat>)
    requires root in sources && EdgesWithin(sources, edges) && Connected(sources, edges)
             && DirectedAway(edges, sources, root)
    requires Partial(edges, sources, root, done, unused)
    requires forall j :: j in unused ==> j < |edges|
    requires |unused| == |sources - Reached({root}, done)| && NoDup(unused)
    ensures Introduce(edges, sources, Reached({root}, done), unused).Some?
    decreases |unused|
  {
    hide LegalStep, Usable, Partial, Reached, EdgesWithin, Connected, DirectedAway, Directed;
    var visited := Reached({root}, done);
    var remaining := sources - visited;
    if remaining != {} {
      AwayBorderIsUsable(edges, sources, root, done, unused);
      var s := FirstUsable(edges, unused, visited, remaining).value;
      AwayChoiceIsLegal(edges, sources, root, done, unused, s);
      ChosenIsLegal(edges, sources, visited, s);
      PartialSnoc(edges, sources, root, done, unused, s);
      ReachedSnoc({root}, done, s);
      WithoutOne(unused, s.edge);
      StepIsNew(edges, sources, visited, s);
      assert sources - (visited + {s.source}) == remaining - {s.source};
      AwayTreeIntroduces(edges, sources, root, done + [s], Without(unused, s.edge));
    }
  }

  /** The sources that a legal order reaches without using its step `k`. */
  ghost function ReachedWithout(edges: seq<Edge>, root: Key, order: seq<Intro>, k: nat, n: nat): set<Key>
    requires n <= |order| && forall i :: 0 <= i < |order| ==> order[i].edge < |edges|
  {
    if n == 0 then {root}
    else
      var before := ReachedWithout(edges, root, order, k, n - 1);
      if n - 1 != k && NearOf(edges, order[n - 1]) in before then before + {order[n - 1].source} else before
  }

  function NearOf(edges: seq<Edge>, s: Intro): Key
    requires s.edge < |edges|
  {
    if s.flipped then edges[s.edge].right else edges[s.edge].left
  }

  lemma {:induction false} ReachedWithoutIs(edges: seq<Edge>, sources: set<Key>, root: Key, order: seq<Intro>, k: nat,
          n: nat)
    requires LegalOrder(edges, sources, root, order) && k < |order| && n <= |order|
    requires forall i :: 0 <= i < |order| ==> order[i].edge < |edges|
    ensures var part := ReachedWithout(edges, root, order, k, n);
            && root in part && part <= Reached({root}, order[..n])
            && (n <= k ==> part == Reached({root}, order[..n]))
            && forall i :: 0 <= i < n ==> (order[i].source in part <==> i != k && NearOf(edges, order[i]) in part)
  {
    hide LegalOrder, LegalStep;
    if n == 0 {
      assert order[..0] == [];
    } else {
      ReachedWithoutIs(edges, sources, root, order, k, n - 1);
      var before, part := ReachedWithout(edges, root, order, k, n - 1), ReachedWithout(edges, root, order, k, n);
      assert order[..n] == order[..n - 1] + [order[n - 1]];
      ReachedSnoc({root}, order[..n - 1], order[n - 1]);
      NewAndNear(edges, sources, root, order, n - 1);
      forall i | 0 <= i < n - 1
          ensures order[i].source != order[n - 1].source && NearOf(edges, order[i]) != order[n - 1].source {
        NewAndNear(edges, sources, root, order, i);
        LaterIsReached(root, order, i, n - 1);
        ReachedGrows(root, order, i, n - 1);
      }
    }
  }

  lemma NewAndNear(edges: seq<Edge>, sources: set<Key>, root: Key, order: seq<Intro>, i: nat)
    requires LegalOrder(edges, sources, root, order) && i < |order|
    ensures order[i].edge < |edges| && order[i].source !in Reached({root}, order[..i])
            && NearOf(edges, order[i]) in Reached({root}, order[..i])
    ensures {NearOf(edges, order[i]), order[i].source} == {edges[order[i].edge].left, edges[order[i].edge].right}
    ensures order[i].source in sources
  {
    assert LegalStep(edges, sources, Reached({root}, order[..i]), order[i]);
  }

  lemma ReachedGrows(root: Key, order: seq<Intro>, i: nat, n: nat)
    requires i <= n <= |order|
    ensures Reached({root}, order[..i]) <= Reached({root}, order[..n])
  {
    assert order[..i] == order[..n][..i];
    assert forall s :: s in order[..n][..i] ==> s in order[..n];
  }

  /** A legal order uses every join away from the root, so its directed joins point away. */
  lemma LegalPointsAway(edges: seq<Edge>, sources: set<Key>, root: Key, order: seq<Intro>, j: nat)
    requires LegalOrder(edges, sources, root, order) && j < |edges| && edges[j].joinType != Inner
    ensures LeadsAway(edges, sources, root, j, edges[j].left, edges[j].right)
  {
    hide Reached;
    assert Uses(order, j);
    var k :| 0 <= k < |order| && order[k].edge == j;
    forall i | 0 <= i < |order| ensures order[i].edge < |edges| {
      NewAndNear(edges, sources, root, order, i);
    }
    var part := ReachedWithout(edges, root, order, k, |order|);
    ReachedWithoutIs(edges, sources, root, order, k, |order|);
    ReachedWithoutIs(edges, sources, root, order, k, k);
    WithoutGrows(edges, root, order, k, k, |order|);
    assert order[..|order|] == order;
    assert LegalStep(edges, sources, Reached({root}, order[..k]), order[k]);
    forall i | 0 <= i < |edges| && i != j ensures !Crosses(edges[i], part) {
      assert Uses(order, i);
      var p :| 0 <= p < |order| && order[p].edge == i;
      NewAndNear(edges, sources, root, order, p);
    }
    assert CutsOff(edges, j, part);
  }

  lemma {:induction false} WithoutGrows(edges: seq<Edge>, root: Key, order: seq<Intro>, k: nat, m: nat, n: nat)
    requires m <= n <= |order| && forall i :: 0 <= i < |order| ==> order[i].edge < |edges|
    ensures ReachedWithout(edges, root, order, k, m) <= ReachedWithout(edges, root, order, k, n)
    decreases n
  {
    if m < n {
      WithoutGrows(edges, root, order, k, m, n - 1);
    }
  }

  /** When the joins form a tree, a root works exactly when every LEFT or anti join points away from it. */
  lemma TreeRootWorksExactly(edges: seq<Edge>, sources: set<Key>, root: Key)
    requires root in sources && EdgesWithin(sources, edges) && Connected(sources, edges) && |edges| == |sources| - 1
    ensures OrderFrom(edges, sources, root).Some? <==> DirectedAway(edges, sources, root)
  {
    hide LegalOrder, LeadsAway;
    OrderIsSoundAndComplete(edges, sources, root);
    if OrderFrom(edges, sources, root).Some? {
      var order := OrderFrom(edges, sources, root).value;
      forall j | 0 <= j < |edges| && edges[j].joinType != Inner
        ensures LeadsAway(edges, sources, root, j, edges[j].left, edges[j].right) {
        LegalPointsAway(edges, sources, root, order, j);
      }
    }
    if DirectedAway(edges, sources, root) {
      StartPartial(edges, sources, root);
      assert |sources - {root}| == |sources| - 1;
      AwayTreeIntroduces(edges, sources, root, [], AllIndices(|edges|));
    }
  }

  /** Then no inner join leads away to the right side of a LEFT or anti join either. */
  lemma InnerFarIsPreserved(edges: seq<Edge>, sources: set<Key>, root: Key, j: nat, near: Key, far: Key)
    requires root in sources && EdgesWithin(sources, edges) && Connected(sources, edges)
             && DirectedAway(edges, sources, root)
    requires j < |edges| && edges[j].joinType == Inner && {near, far} == {edges[j].left, edges[j].right}
    requires LeadsAway(edges, sources, root, j, near, far)
    ensures far !in Directed(edges)
  {
    if far in Directed(edges) {
      var d :| d in edges && d.joinType != Inner && d.right == far;
      var i :| 0 <= i < |edges| && edges[i] == d;
      assert LeadsAway(edges, sources, root, i, d.left, far);
      var p: set<Key> :| p <= sources && root in p && near in p && far !in p && CutsOff(edges, j, p);
      var q: set<Key> :| q <= sources && root in q && d.left in q && far !in q && CutsOff(edges, i, q);
      assert edges[i] in edges && far in sources;
      var both := p * q;
      assert both <= sources && root in both && far !in both;
      BothCutsOff(edges, i, j, p, q);
      assert false;
    }
  }

  // Two cuts through joins with the same far end: no join leaves what both keep.
  lemma BothCutsOff(edges: seq<Edge>, i: nat, j: nat, p: set<Key>, q: set<Key>)
    requires CutsOff(edges, j, p) && CutsOff(edges, i, q) && i != j
    requires edges[i].right !in p && edges[i].right !in q
    requires edges[i].right == edges[j].right || edges[i].right == edges[j].left
    ensures forall e :: e in edges ==> !Crosses(e, p * q)
  {
    forall e | e in edges ensures !Crosses(e, p * q) {
      var k :| 0 <= k < |edges| && edges[k] == e;
      assert !Crosses(edges[j], q) && !Crosses(edges[i], p);
    }
  }
}
