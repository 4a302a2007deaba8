/** When the older compiler takes a program and which joins it drops, written out on its tables, families and joins.
    For ontology_core/inference_compiler.py. */
module OlderReading {
  import opened SeqOps
  import opened Sql
  import opened RelationalPlan
  import opened PlanCompilation
  import opened JoinOrder
  import opened InferredProgram
  import opened ProgramMeaning
  import opened AdapterPlan
  import opened FlatCompiler
  import opened InsideJoins
  import opened OlderCompiler
  import opened AnswerReading
  import opened ConversionReading

  // ----- dropped joins -----

  /** `q` is the program without the joins at other positions than `at`: those that stay inside one source. */
  ghost predicate DropsInside(p: Program, q: Program, at: seq<nat>) {
    && q == p.(joins := q.joins) && |at| == |q.joins| && (forall i, k :: 0 <= i < k < |at| ==> at[i] < at[k])
    && (forall i :: 0 <= i < |at| ==> at[i] < |p.joins| && q.joins[i] == p.joins[at[i]])
    && forall n: nat :: n < |p.joins| ==> (n in at <==> !StaysInside(p, p.joins[n]))
  }

  lemma BetweenExactly(p: Program) returns (at: seq<nat>)
    requires ValidFamilies(p)
    ensures DropsInside(p, BetweenSources(p), at)
  {
    hide StaysInside, KeyOf, ValidFamilies;
    at := FilterKeeps((j: JoinSpec) => KeyOf(p, j.left.owner) != KeyOf(p, j.right.owner), p.joins);
    forall j: JoinSpec ensures StaysInside(p, j) <==> KeyOf(p, j.left.owner) == KeyOf(p, j.right.owner) {
      InsideIs(p, j);
    }
  }

  lemma {:induction false} DropsOnce(p: Program, q: Program, r: Program, at: seq<nat>, to: seq<nat>)
    requires DropsInside(p, q, at) && DropsInside(p, r, to)
    ensures q == r
  {
    hide StaysInside;
    forall n: nat ensures n in at <==> n in to {
      if n in at {
        assert n < |p.joins|;
      }
      if n in to {
        assert n < |p.joins|;
      }
    }
    AscendingIsUnique((n: nat) => n, at, to);
    assert q.joins == r.joins;
  }

  /** The joins that stay inside a source hold of the answer. */
  ghost predicate InsideJoinsHold(p: Program, e: Env) {
    forall j :: j in p.joins && StaysInside(p, j) ==>
      exists y :: Reads(p, e, j.right, y) && ReadsValue(p, e, j.left, y.value)
  }

  lemma InsideExactly(p: Program, e: Env)
    requires ValidFamilies(p)
    ensures InsideHold(p, e) <==> InsideJoinsHold(p, e)
  {
    hide StaysInside, Reads, ReadsValue, KeyOf, ValidFamilies, FieldValue, Compare;
    forall j
      ensures StaysInside(p, j) <==> IsInside(p, j)
      ensures (exists y :: Reads(p, e, j.right, y) && ReadsValue(p, e, j.left, y.value)) <==>
                Compare(EQ, FieldValue(p, e, j.left), FieldValue(p, e, j.right)) == True {
      InsideIs(p, j);
      InnerIs(p, e, j);
    }
  }

  // ----- the root -----

  ghost predicate IsLone(p: Program, o: TableObject) {
    forall f :: f in p.families ==> o.ref !in f.members
  }

  /** The first family that may start; the first table outside families that may, when no family may. */
  ghost predicate StartsFlat(p: Program, root: Key) {
    || (exists i :: 0 <= i < |p.families| && p.families[i].ref == root && MayStart(p, root)
                    && forall k :: 0 <= k < i ==> !MayStart(p, p.families[k].ref))
    || ((forall f :: f in p.families ==> !MayStart(p, f.ref)) && StartsAtTable(p, root))
  }

  ghost predicate StartsAtTable(p: Program, root: Key) {
    exists i :: 0 <= i < |p.objects| && p.objects[i].ref == root && IsLone(p, p.objects[i]) && MayStart(p, root)
                && forall k :: 0 <= k < i && IsLone(p, p.objects[k]) ==> !MayStart(p, p.objects[k].ref)
  }

  lemma {:induction false} FirstRootIs(keys: seq<Key>, directed: set<Key>, root: Key)
    ensures FirstRoot(keys, directed) == Some(root) <==>
              exists i :: 0 <= i < |keys| && keys[i] == root && root !in directed
                          && forall k :: 0 <= k < i ==> keys[k] in directed
    decreases |keys|
  {
    if keys != [] {
      var rest := keys[1..];
      FirstRootIs(rest, directed, root);
      if keys[0] in directed {
        if i :| 0 <= i < |rest| && rest[i] == root && root !in directed
                && forall k :: 0 <= k < i ==> rest[k] in directed {
          assert keys[i + 1] == root;
          forall k | 0 <= k < i + 1 ensures keys[k] in directed {
            if k > 0 {
              assert keys[k] == rest[k - 1];
            }
          }
        }
        if i :| 0 <= i < |keys| && keys[i] == root && root !in directed
                && forall k :: 0 <= k < i ==> keys[k] in directed {
          assert i > 0 && rest[i - 1] == root;
          forall k | 0 <= k < i - 1 ensures rest[k] in directed {
            assert rest[k] == keys[k + 1];
          }
        }
      }
    }
  }

  lemma LoneIs(p: Program, o: TableObject)
    ensures IsLone(p, o) <==> FamilyOf(p.families, o.ref).None?
  {
    FamilyOfSound(p.families, o.ref);
  }

  // The keys of a list before or after another list.
  lemma FirstOfParts(xs: seq<Key>, ys: seq<Key>, directed: set<Key>, root: Key)
    ensures FirstRoot(xs + ys, directed) == Some(root) <==>
              FirstRoot(xs, directed) == Some(root) || ((forall x :: x in xs ==> x in directed)
                                                        && FirstRoot(ys, directed) == Some(root))
    decreases |xs|
  {
    if xs == [] {
      assert xs + ys == ys;
    } else {
      assert (xs + ys)[1..] == xs[1..] + ys;
      FirstOfParts(xs[1..], ys, directed, root);
      assert xs == [xs[0]] + xs[1..];
    }
  }

  lemma FamilyMayStart(p: Program, f: Family)
    requires ValidFamilies(p) && f in p.families
    ensures MayStart(p, f.ref) <==> f.ref !in DirectedRights(p)
  {
    hide ValidFamilies, DirectedRights;
    MayStartIs(p, f.ref);
    assert f.ref in SourcesOf(p);
  }

  lemma LoneMayStart(p: Program, o: TableObject)
    requires ValidFamilies(p) && o in p.objects && FamilyOf(p.families, o.ref).None?
    ensures MayStart(p, o.ref) <==> o.ref !in DirectedRights(p)
  {
    hide ValidFamilies, DirectedRights;
    MayStartIs(p, o.ref);
    assert o.ref in SourcesOf(p);
  }

  // The tables outside families, in order, with their positions.
  ghost predicate ListsLone(p: Program, at: seq<nat>, keys: seq<Key>) {
    && |keys| == |at| && (forall i, k :: 0 <= i < k < |at| ==> at[i] < at[k])
    && (forall i :: 0 <= i < |at| ==>
          at[i] < |p.objects| && IsLone(p, p.objects[at[i]]) && keys[i] == p.objects[at[i]].ref)
    && forall n: nat :: n < |p.objects| && IsLone(p, p.objects[n]) ==> n in at
  }

  lemma LoneListed(p: Program) returns (at: seq<nat>)
    ensures ListsLone(p, at, Map((o: TableObject) => o.ref,
                                 Filter((o: TableObject) => FamilyOf(p.families, o.ref).None?, p.objects)))
  {
    hide IsLone, FamilyOf;
    var isLone := (o: TableObject) => FamilyOf(p.families, o.ref).None?;
    at := FilterKeeps(isLone, p.objects);
    forall o ensures IsLone(p, o) <==> isLone(o) {
      LoneIs(p, o);
    }
  }

  // Tables outside families may start exactly when no join forbids it.
  ghost predicate StartsKnown(p: Program) {
    forall o :: o in p.objects && IsLone(p, o) ==> (MayStart(p, o.ref) <==> o.ref !in DirectedRights(p))
  }

  lemma FirstIsTable(p: Program, at: seq<nat>, keys: seq<Key>, i: nat, root: Key)
    requires ListsLone(p, at, keys) && StartsKnown(p) && i < |keys| && keys[i] == root && root !in DirectedRights(p)
    requires forall k :: 0 <= k < i ==> keys[k] in DirectedRights(p)
    ensures StartsAtTable(p, root)
  {
    hide IsLone, MayStart, DirectedRights;
    forall k | 0 <= k < at[i] && IsLone(p, p.objects[k]) ensures !MayStart(p, p.objects[k].ref) {
      var m :| 0 <= m < |at| && at[m] == k;
      assert keys[m] == p.objects[k].ref && p.objects[k] in p.objects;
    }
    assert p.objects[at[i]] in p.objects;
  }

  lemma TableIsFirst(p: Program, at: seq<nat>, keys: seq<Key>, root: Key) returns (i: nat)
    requires ListsLone(p, at, keys) && StartsKnown(p) && StartsAtTable(p, root)
    ensures i < |keys| && keys[i] == root && root !in DirectedRights(p)
    ensures forall k :: 0 <= k < i ==> keys[k] in DirectedRights(p)
  {
    hide IsLone, MayStart, DirectedRights;
    var n: nat :| n < |p.objects| && p.objects[n].ref == root && IsLone(p, p.objects[n]) && MayStart(p, root)
                  && forall k :: 0 <= k < n && IsLone(p, p.objects[k]) ==> !MayStart(p, p.objects[k].ref);
    assert p.objects[n] in p.objects;
    i :| 0 <= i < |at| && at[i] == n;
    forall k | 0 <= k < i ensures keys[k] in DirectedRights(p) {
      assert p.objects[at[k]] in p.objects && at[k] < n;
    }
  }

  lemma TableStartIs(p: Program, root: Key)
    requires ValidFamilies(p)
    ensures var lone := Filter((o: TableObject) => FamilyOf(p.families, o.ref).None?, p.objects);
            FirstRoot(Map((o: TableObject) => o.ref, lone), DirectedRights(p)) == Some(root) <==> StartsAtTable(p, root)
  {
    hide ValidFamilies, DirectedRights, FirstRoot, MayStart, IsLone, ListsLone, StartsAtTable;
    var keys := Map((o: TableObject) => o.ref,
                    Filter((o: TableObject) => FamilyOf(p.families, o.ref).None?, p.objects));
    var at := LoneListed(p);
    forall o | o in p.objects && IsLone(p, o) ensures MayStart(p, o.ref) <==> o.ref !in DirectedRights(p) {
      LoneIs(p, o);
      LoneMayStart(p, o);
    }
    FirstRootIs(keys, DirectedRights(p), root);
    if i :| 0 <= i < |keys| && keys[i] == root && root !in DirectedRights(p)
            && forall k :: 0 <= k < i ==> keys[k] in DirectedRights(p) {
      FirstIsTable(p, at, keys, i, root);
    }
    if StartsAtTable(p, root) {
      var i := TableIsFirst(p, at, keys, root);
    }
  }

  /** The root of the older compiler. */
  lemma FlatRootExactly(p: Program, root: Key)
    requires ValidFamilies(p)
    ensures FirstRoot(LogicalKeys(p), DirectedRights(p)) == Some(root) <==> StartsFlat(p, root)
  {
    hide ValidFamilies, DirectedRights, FirstRoot, MayStart, StartsAtTable;
    var keys := Map((f: Family) => f.ref, p.families);
    var lone := Map((o: TableObject) => o.ref,
                    Filter((o: TableObject) => FamilyOf(p.families, o.ref).None?, p.objects));
    FirstOfParts(keys, lone, DirectedRights(p), root);
    FirstRootIs(keys, DirectedRights(p), root);
    TableStartIs(p, root);
    forall f | f in p.families ensures MayStart(p, f.ref) <==> f.ref !in DirectedRights(p) {
      FamilyMayStart(p, f);
    }
    forall k ensures k in keys <==> exists f :: f in p.families && f.ref == k {
      MapHas((f: Family) => f.ref, p.families, k);
    }
  }

  // ----- acceptance -----

  /** From the compiler's root every source can be introduced, each by one join between sources and each such join once.
      */
  ghost predicate CanOrderFlat(p: Program) {
    exists q, at, edges, sources: set<Key>, root, order ::
      && DropsInside(p, q, at) && EdgesFor(q, edges) && AreSources(q, sources) && StartsFlat(q, root)
      && LegalOrder(edges, sources, root, order)
  }

  ghost predicate MembersHavePeriods(p: Program) {
    forall f, m :: f in p.families && m in f.members ==> exists d :: d in p.decisions && d.owner == m
  }

  lemma FlatOrderIs(p: Program, q: Program, at: seq<nat>, edges: seq<Edge>, sources: set<Key>, root: Key,
                    order: seq<Intro>)
    requires ValidFamilies(p) && ValidFamilies(BetweenSources(p))
    requires DropsInside(p, q, at) && EdgesFor(q, edges) && AreSources(q, sources) && StartsFlat(q, root)
    requires LegalOrder(edges, sources, root, order)
    ensures FlatJoinable(BetweenSources(p))
  {
    hide ValidFamilies, DropsInside, EdgesFor, AreSources, StartsFlat, LegalOrder, BetweenSources, FirstRoot,
         LogicalKeys, SourcesOf, EdgesOf, DirectedRights;
    var between := BetweenSources(p);
    var to := BetweenExactly(p);
    DropsOnce(p, q, between, at, to);
    EdgesForAre(between, edges);
    SourcesAre(between);
    SourcesOnce(between, sources, SourcesOf(between));
    FlatRootExactly(between, root);
  }

  lemma OrderIsFlat(p: Program)
    requires ValidFamilies(p) && ValidFamilies(BetweenSources(p)) && FlatJoinable(BetweenSources(p))
    ensures CanOrderFlat(p)
  {
    hide ValidFamilies, DropsInside, EdgesFor, AreSources, StartsFlat, LegalOrder, BetweenSources, FirstRoot,
         LogicalKeys, SourcesOf, EdgesOf, DirectedRights;
    var between := BetweenSources(p);
    var at := BetweenExactly(p);
    var root := FirstRoot(LogicalKeys(between), DirectedRights(between)).value;
    var order :| LegalOrder(EdgesOf(between), SourcesOf(between), root, order);
    EdgesForAre(between, EdgesOf(between));
    SourcesAre(between);
    FlatRootExactly(between, root);
    Orders(p, between, at, EdgesOf(between), SourcesOf(between), root, order);
  }

  lemma Orders(p: Program, q: Program, at: seq<nat>, edges: seq<Edge>, sources: set<Key>, root: Key, order: seq<Intro>)
    requires DropsInside(p, q, at) && EdgesFor(q, edges) && AreSources(q, sources) && StartsFlat(q, root)
    requires LegalOrder(edges, sources, root, order)
    ensures CanOrderFlat(p)
  {
    hide DropsInside, EdgesFor, AreSources, StartsFlat, LegalOrder;
  }

  lemma CanOrderFlatIs(p: Program)
    requires ValidProgram(p)
    ensures CanOrderFlat(p) <==> FlatJoinable(BetweenSources(p))
  {
    ValidParts(p);
    BetweenIsValid(p);
    ValidParts(BetweenSources(p));
    hide ValidProgram, ValidFamilies, ValidFilters, FieldsKnown, ValidCatalog, DropsInside, EdgesFor, AreSources,
         StartsFlat, LegalOrder, BetweenSources, FlatJoinable;
    if CanOrderFlat(p) {
      var q, at, edges, sources: set<Key>, root, order :|
        && DropsInside(p, q, at) && EdgesFor(q, edges) && AreSources(q, sources) && StartsFlat(q, root)
        && LegalOrder(edges, sources, root, order);
      FlatOrderIs(p, q, at, edges, sources, root, order);
    }
    if FlatJoinable(BetweenSources(p)) {
      OrderIsFlat(p);
    }
  }

  lemma SourcesAre(p: Program)
    requires ValidFamilies(p)
    ensures AreSources(p, SourcesOf(p))
  {
    hide IsSource, SourcesOf, ValidFamilies;
    forall source ensures source in SourcesOf(p) <==> IsSource(p, source) {
      SourceIs(p, source);
    }
  }

  lemma SourcesOnce(p: Program, a: set<Key>, b: set<Key>)
    requires AreSources(p, a) && AreSources(p, b)
    ensures a == b
  {
  }

  lemma PeriodsAre(p: Program)
    ensures MembersDecided(p) <==> MembersHavePeriods(p)
  {
    forall m: Ref ensures Decided(p, m) <==> exists d :: d in p.decisions && d.owner == m {
    }
    hide Decided;
    if MembersHavePeriods(p) {
      forall f, m | f in p.families && m in f.members ensures Decided(p, m) {
      }
    }
    if MembersDecided(p) {
      forall f, m | f in p.families && m in f.members ensures exists d :: d in p.decisions && d.owner == m {
        assert Decided(p, m);
      }
    }
  }

  /** The older compiler takes exactly the valid programs that request something, have a period for every family member,
      a legal order of the joins between sources from its own root, filters on present sources, and few enough families
      to leave a step for the result. */
  lemma FlatTakesExactly(p: Program)
    requires ValidProgram(p)
    ensures FlatProgram(p).Some? <==>
              && p.requested != [] && MembersHavePeriods(p) && CanOrderFlat(p) && FiltersPresent(p)
              && |p.families| < 99
  {
    ValidParts(p);
    hide ValidProgram, ValidFamilies, ValidFilters, FieldsKnown, ValidCatalog, CanOrderFlat, FlatJoinable,
         FiltersPresent, WhereOnExcluded, BetweenSources, FlatProgram, MembersDecided, MembersHavePeriods;
    FlatProgramExactly(p);
    PeriodsAre(p);
    CanOrderFlatIs(p);
    FiltersPresentIs(p);
  }
}
