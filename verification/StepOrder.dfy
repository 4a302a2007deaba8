/** Layered ordering of draft program steps.
    Models `_ordered_steps` of ontology_core/program_validation.py. */
module StepOrder {
  import opened SeqOps

  type StepId = nat
  datatype Step = Step(id: StepId, isResult: bool, needs: set<StepId>)
  datatype Problem = RepeatedId | ResultCount | BadReference | ResultIsUsed | Cycle | ResultNotLast
  datatype Outcome = Ordered(steps: seq<Step>) | Refused(problem: Problem)

  // ----- the checks before ordering -----

  function Ids(steps: seq<Step>): set<StepId> {
    set s | s in steps :: s.id
  }

  ghost predicate UniqueIds(steps: seq<Step>) {
    forall i, j :: 0 <= i < j < |steps| ==> steps[i].id != steps[j].id
  }

  /** Identifiers differ, one step is the result, references are known and not to the step itself, and
      nothing uses the result. */
  ghost predicate WellReferenced(steps: seq<Step>) {
    && UniqueIds(steps)
    && (exists r :: r in steps && IsOnlyResult(steps, r))
    && (forall s :: s in steps ==> s.needs <= Ids(steps) && s.id !in s.needs)
    && (forall r, s :: r in steps && r.isResult && s in steps ==> r.id !in s.needs)
  }

  ghost predicate IsOnlyResult(steps: seq<Step>, r: Step) {
    r.isResult && forall s :: s in steps && s.isResult ==> s == r
  }

  ghost predicate DependenciesFirst(order: seq<Step>) {
    forall k, d :: 0 <= k < |order| && d in order[k].needs ==> d in Ids(order[..k])
  }

  /** What a correct order is: a rearrangement with every dependency before its user and the result last. */
  ghost predicate CorrectOrder(steps: seq<Step>, order: seq<Step>) {
    && multiset(order) == multiset(steps)
    && DependenciesFirst(order)
    && order != [] && order[|order| - 1].isResult
  }

  /** Each step of a walk needs the next one. */
  ghost predicate IsWalk(steps: seq<Step>, walk: seq<Step>) {
    && |walk| >= 2 && (forall s :: s in walk ==> s in steps)
    && forall i :: 0 <= i < |walk| - 1 ==> walk[i + 1].id in walk[i].needs
  }

  /** A walk that returns to its start. */
  ghost predicate IsCycle(steps: seq<Step>, walk: seq<Step>) {
    IsWalk(steps, walk) && walk[0] == walk[|walk| - 1]
  }

  // ----- the loop -----

  function Ready(steps: seq<Step>, remaining: set<StepId>, resolved: set<StepId>): seq<Step> {
    Filter((s: Step) => s.id in remaining && s.needs <= resolved, steps)
  }

  ghost predicate Partial(steps: seq<Step>, ordered: seq<Step>, remaining: set<StepId>) {
    && NoDup(ordered) && (forall s :: s in ordered ==> s in steps)
    && (forall s :: s in steps ==> (s in ordered <==> s.id !in remaining)) && remaining <= Ids(steps)
    && DependenciesFirst(ordered)
  }

  lemma {:induction false} UniqueNoDup(steps: seq<Step>)
    requires UniqueIds(steps)
    ensures NoDup(steps)
    ensures forall a, b :: a in steps && b in steps && a.id == b.id ==> a == b
  {
    forall i, j | 0 <= i < j < |steps| ensures steps[i] != steps[j] {
      assert steps[i].id != steps[j].id;
    }
    forall a, b | a in steps && b in steps && a.id == b.id ensures a == b {
      var i :| 0 <= i < |steps| && steps[i] == a;
      var j :| 0 <= j < |steps| && steps[j] == b;
    }
  }

  // Appending a whole layer keeps the order correct.
  lemma LayerKeeps(steps: seq<Step>, ordered: seq<Step>, remaining: set<StepId>, layer: seq<Step>)
    requires UniqueIds(steps) && Partial(steps, ordered, remaining) && layer == Ready(steps, remaining, Ids(ordered))
    ensures Partial(steps, ordered + layer, remaining - Ids(layer))
  {
    UniqueNoDup(steps);
    NoDupFilter((s: Step) => s.id in remaining && s.needs <= Ids(ordered), steps);
    NoDupConcat(ordered, layer);
    var more := ordered + layer;
    forall k, d | 0 <= k < |more| && d in more[k].needs ensures d in Ids(more[..k]) {
      if k < |ordered| {
        assert more[..k] == ordered[..k];
      } else {
        assert more[k] in layer;
        assert d in Ids(ordered);
        var s :| s in ordered && s.id == d;
        assert s in more[..k] by {
          var i :| 0 <= i < |ordered| && ordered[i] == s;
          assert more[..k][i] == s;
        }
      }
    }
    forall s | s in steps ensures s in more <==> s.id !in remaining - Ids(layer) {
      if s.id in Ids(layer) {
        var t :| t in layer && t.id == s.id;
        assert t == s;
      }
    }
  }

  lemma WholeIsPermutation(steps: seq<Step>, ordered: seq<Step>)
    requires UniqueIds(steps) && Partial(steps, ordered, {})
    ensures multiset(ordered) == multiset(steps)
  {
    UniqueNoDup(steps);
    NoDupSameBag(ordered, steps);
  }

  // ----- stuck layers contain a cycle -----

  // Every remaining step needs another remaining step.
  lemma StuckNeeds(steps: seq<Step>, ordered: seq<Step>, remaining: set<StepId>, s: Step) returns (d: Step)
    requires UniqueIds(steps) && (forall s :: s in steps ==> s.needs <= Ids(steps))
             && Partial(steps, ordered, remaining)
    requires Ready(steps, remaining, Ids(ordered)) == [] && s in steps && s.id in remaining
    ensures d in steps && d.id in remaining && d.id in s.needs
  {
    assert s !in Ready(steps, remaining, Ids(ordered));
    assert !(s.needs <= Ids(ordered));
    var id :| id in s.needs && id !in Ids(ordered);
    assert id in Ids(steps);
    d :| d in steps && d.id == id;
  }

  lemma {:induction false} LongWalk(steps: seq<Step>, ordered: seq<Step>, remaining: set<StepId>, s: Step, n: nat)
    returns (walk: seq<Step>)
    requires UniqueIds(steps) && (forall s :: s in steps ==> s.needs <= Ids(steps))
             && Partial(steps, ordered, remaining)
    requires Ready(steps, remaining, Ids(ordered)) == [] && s in steps && s.id in remaining
    ensures |walk| == n + 1 && walk[0] == s && (forall t :: t in walk ==> t in steps)
    ensures forall i :: 0 <= i < n ==> walk[i + 1].id in walk[i].needs
    decreases n
  {
    if n == 0 {
      walk := [s];
    } else {
      var d := StuckNeeds(steps, ordered, remaining, s);
      var rest := LongWalk(steps, ordered, remaining, d, n - 1);
      walk := [s] + rest;
      WalkCons(s, rest);
    }
  }

  lemma WalkCons(s: Step, rest: seq<Step>)
    requires rest != [] && rest[0].id in s.needs && forall i :: 0 <= i < |rest| - 1 ==> rest[i + 1].id in rest[i].needs
    ensures forall i :: 0 <= i < |rest| ==> ([s] + rest)[i + 1].id in ([s] + rest)[i].needs
  {
    forall i | 0 <= i < |rest| ensures ([s] + rest)[i + 1].id in ([s] + rest)[i].needs {
      if i > 0 {
        assert ([s] + rest)[i] == rest[i - 1] && ([s] + rest)[i + 1] == rest[i];
      }
    }
  }

  lemma {:induction false} TooLongRepeats(steps: seq<Step>, walk: seq<Step>)
    requires (forall s :: s in walk ==> s in steps) && |walk| > |steps|
    ensures exists i, j :: 0 <= i < j < |walk| && walk[i] == walk[j]
  {
    if NoDup(walk) {
      NoDupIsShort(walk, steps);
      assert false;
    }
  }

  lemma {:induction false} NoDupIsShort(walk: seq<Step>, steps: seq<Step>)
    requires NoDup(walk) && forall s :: s in walk ==> s in steps
    ensures |walk| <= |steps|
    decreases |walk|
  {
    if walk != [] {
      NoDupTail(walk);
      assert walk[0] in walk;
      var k :| 0 <= k < |steps| && steps[k] == walk[0];
      var rest := steps[..k] + steps[k + 1..];
      forall s | s in walk[1..] ensures s in rest {
        assert s in walk;
        OthersRemain(steps, k, s);
      }
      NoDupIsShort(walk[1..], rest);
    }
  }

  lemma StuckHasCycle(steps: seq<Step>, ordered: seq<Step>, remaining: set<StepId>)
    requires UniqueIds(steps) && (forall s :: s in steps ==> s.needs <= Ids(steps))
             && Partial(steps, ordered, remaining)
    requires Ready(steps, remaining, Ids(ordered)) == [] && remaining != {}
    ensures exists walk :: IsCycle(steps, walk)
  {
    hide NoDup, Ready, DependenciesFirst;
    var id :| id in remaining;
    assert id in Ids(steps);
    var s :| s in steps && s.id == id;
    var walk := LongWalk(steps, ordered, remaining, s, |steps|);
    TooLongRepeats(steps, walk);
    var i, j :| 0 <= i < j < |walk| && walk[i] == walk[j];
    LoopIsCycle(steps, walk, i, j);
  }

  lemma LoopIsCycle(steps: seq<Step>, walk: seq<Step>, i: nat, j: nat)
    requires i < j < |walk| && walk[i] == walk[j] && forall t :: t in walk ==> t in steps
    requires forall k :: 0 <= k < |walk| - 1 ==> walk[k + 1].id in walk[k].needs
    ensures IsCycle(steps, walk[i..j + 1])
  {
    var cycle := walk[i..j + 1];
    forall k | 0 <= k < |cycle| - 1 ensures cycle[k + 1].id in cycle[k].needs {
      assert cycle[k] == walk[i + k] && cycle[k + 1] == walk[i + k + 1];
    }
    forall t | t in cycle ensures t in steps {
      assert t in walk;
    }
    assert IsCycle(steps, cycle);
  }

  // ----- an order excludes cycles -----

  function PlaceIn(order: seq<Step>, s: Step): (i: nat)
    requires s in order
    ensures i < |order| && order[i] == s
  {
    if order[0] == s then 0 else 1 + PlaceIn(order[1..], s)
  }

  lemma PlaceIs(order: seq<Step>, m: nat)
    requires NoDup(order) && m < |order|
    ensures PlaceIn(order, order[m]) == m
  {
    var k := PlaceIn(order, order[m]);
    assert order[k] == order[m];
  }

  lemma {:induction false} WalkDescends(steps: seq<Step>, order: seq<Step>, walk: seq<Step>, j: nat)
    requires UniqueIds(steps) && multiset(order) == multiset(steps)
    requires DependenciesFirst(order)
    requires IsWalk(steps, walk) && 0 < j < |walk|
    ensures walk[0] in order && walk[j] in order && PlaceIn(order, walk[j]) < PlaceIn(order, walk[0])
  {
    SameBagSameMembers(steps, order);
    UniqueNoDup(steps);
    SameBagSameMembers(steps, order);
    assert walk[0] in walk && walk[j] in walk && walk[j - 1] in walk;
    var k := PlaceIn(order, walk[j - 1]);
    assert walk[j - 1 + 1].id in walk[j - 1].needs;
    assert walk[j].id in Ids(order[..k]);
    var t :| t in order[..k] && t.id == walk[j].id;
    assert t in order && t == walk[j];
    var m :| 0 <= m < k && order[m] == t;
    PlaceIs(order, m);
    if j > 1 {
      WalkDescends(steps, order, walk, j - 1);
    }
  }

  lemma OrderHasNoCycle(steps: seq<Step>, order: seq<Step>, walk: seq<Step>)
    requires UniqueIds(steps) && multiset(order) == multiset(steps)
    requires DependenciesFirst(order)
    ensures !IsCycle(steps, walk)
  {
    if IsCycle(steps, walk) {
      WalkDescends(steps, order, walk, |walk| - 1);
      assert false;
    }
  }

  // ----- the result comes last -----

  /** The result needs the step, directly or through other steps. */
  ghost predicate LeadsTo(steps: seq<Step>, s: Step, r: Step) {
    exists walk: seq<Step> :: IsWalk(steps, walk) && walk[0] == r && walk[|walk| - 1] == s
  }

  ghost predicate AllLeadToResult(steps: seq<Step>) {
    exists r :: r in steps && r.isResult && forall s :: s in steps && s != r ==> LeadsTo(steps, s, r)
  }

  lemma UsedComesEarlier(steps: seq<Step>, order: seq<Step>, s: Step, r: Step)
    requires UniqueIds(steps) && multiset(order) == multiset(steps) && LeadsTo(steps, s, r)
    requires DependenciesFirst(order)
    ensures s in order && r in order && PlaceIn(order, s) < PlaceIn(order, r)
  {
    var walk: seq<Step> :| IsWalk(steps, walk) && walk[0] == r && walk[|walk| - 1] == s;
    WalkDescends(steps, order, walk, |walk| - 1);
  }

  lemma ResultIsLast(steps: seq<Step>, order: seq<Step>, r: Step)
    requires UniqueIds(steps) && multiset(order) == multiset(steps) && r in steps
    requires DependenciesFirst(order)
    requires forall s :: s in steps && s != r ==> LeadsTo(steps, s, r)
    ensures order != [] && order[|order| - 1] == r
  {
    UniqueNoDup(steps);
    SameBagSameMembers(steps, order);
    var last := order[|order| - 1];
    assert last in order;
    PlaceIs(order, |order| - 1);
    if last != r {
      UsedComesEarlier(steps, order, last, r);
      assert false;
    }
  }

  // ----- layers -----

  /** A chain of `n` needs starts at the step. */
  ghost predicate HasChain(steps: seq<Step>, s: Step, n: nat)
    decreases n
  {
    n == 0 || exists d :: d in steps && d.id in s.needs && HasChain(steps, d, n - 1)
  }

  /** The longest chain from `s` is shorter than the longest one from `t`. */
  ghost predicate InEarlierLayer(steps: seq<Step>, s: Step, t: Step) {
    exists n: nat :: HasChain(steps, t, n) && !HasChain(steps, s, n)
  }

  ghost predicate InSameLayer(steps: seq<Step>, s: Step, t: Step) {
    forall n: nat :: HasChain(steps, s, n) <==> HasChain(steps, t, n)
  }

  ghost predicate DraftedBefore(steps: seq<Step>, s: Step, t: Step) {
    exists a, b :: 0 <= a < b < |steps| && steps[a] == s && steps[b] == t
  }

  /** Layers first, the order of the draft inside a layer. */
  ghost predicate Precedes(steps: seq<Step>, s: Step, t: Step) {
    InEarlierLayer(steps, s, t) || (InSameLayer(steps, s, t) && DraftedBefore(steps, s, t))
  }

  ghost predicate InLayers(steps: seq<Step>, order: seq<Step>) {
    forall i, j :: 0 <= i < j < |order| ==> Precedes(steps, order[i], order[j])
  }

  /** Every other step is in an earlier layer than the result, or in its layer and drafted before it. */
  ghost predicate ResultPlacedLast(steps: seq<Step>) {
    exists r :: r in steps && r.isResult && forall s :: s in steps && s != r ==> Precedes(steps, s, r)
  }

  lemma {:induction false} ShorterChain(steps: seq<Step>, s: Step, m: nat, n: nat)
    requires m <= n && HasChain(steps, s, n)
    ensures HasChain(steps, s, m)
    decreases m
  {
    if m != 0 {
      var d :| d in steps && d.id in s.needs && HasChain(steps, d, n - 1);
      ShorterChain(steps, d, m - 1, n - 1);
    }
  }

  lemma PrecedesIsStrict(steps: seq<Step>, s: Step, t: Step)
    requires UniqueIds(steps) && Precedes(steps, s, t)
    ensures !Precedes(steps, t, s)
  {
    hide HasChain;
    if m: nat :| HasChain(steps, t, m) && !HasChain(steps, s, m) {
      if n: nat :| HasChain(steps, s, n) && !HasChain(steps, t, n) {
        if m <= n {
          ShorterChain(steps, s, m, n);
        } else {
          ShorterChain(steps, t, n, m);
        }
        assert false;
      }
    }
  }

  /** After `n` rounds exactly the steps without a chain of `n` needs are ordered. */
  ghost predicate AfterRounds(steps: seq<Step>, ordered: seq<Step>, n: nat) {
    forall s :: s in steps ==> (s in ordered <==> !HasChain(steps, s, n))
  }

  lemma ChainGoesOn(steps: seq<Step>, ordered: seq<Step>, n: nat, s: Step)
    requires UniqueIds(steps) && s in steps && s.needs <= Ids(steps)
    requires (forall o :: o in ordered ==> o in steps) && AfterRounds(steps, ordered, n)
    ensures HasChain(steps, s, n + 1) <==> !(s.needs <= Ids(ordered))
  {
    UniqueNoDup(steps);
    if HasChain(steps, s, n + 1) {
      var d :| d in steps && d.id in s.needs && HasChain(steps, d, n);
      assert forall o :: o in ordered ==> o.id != d.id;
    }
    if !(s.needs <= Ids(ordered)) {
      var id :| id in s.needs && id !in Ids(ordered);
      assert id in Ids(steps);
      var d :| d in steps && d.id == id;
      assert d !in ordered;
    }
  }

  lemma NextRound(steps: seq<Step>, ordered: seq<Step>, remaining: set<StepId>, layer: seq<Step>, n: nat)
    requires UniqueIds(steps) && (forall s :: s in steps ==> s.needs <= Ids(steps))
    requires Partial(steps, ordered, remaining) && layer == Ready(steps, remaining, Ids(ordered))
             && AfterRounds(steps, ordered, n)
    ensures AfterRounds(steps, ordered + layer, n + 1)
    ensures forall s :: s in layer ==> HasChain(steps, s, n) && !HasChain(steps, s, n + 1)
  {
    hide DependenciesFirst, NoDup, HasChain, Ids;
    forall s | s in steps
      ensures HasChain(steps, s, n + 1) <==> !(s.needs <= Ids(ordered))
      ensures s in ordered + layer <==> !HasChain(steps, s, n + 1) {
      ChainGoesOn(steps, ordered, n, s);
      if s in ordered && HasChain(steps, s, n + 1) {
        ShorterChain(steps, s, n, n + 1);
      }
    }
  }

  lemma {:induction false} FilterKeepsOrder(keep: Step -> bool, steps: seq<Step>, i: nat, j: nat)
    requires i < j < |Filter(keep, steps)|
    ensures DraftedBefore(steps, Filter(keep, steps)[i], Filter(keep, steps)[j])
  {
    var kept, rest := Filter(keep, steps), Filter(keep, steps[1..]);
    if keep(steps[0]) && i == 0 {
      assert kept[j] == rest[j - 1] && rest[j - 1] in rest && kept[j] in steps[1..];
      var b :| 0 <= b < |steps[1..]| && steps[1..][b] == kept[j];
      assert steps[0] == kept[0] && steps[b + 1] == kept[j];
    } else {
      var x, y := if keep(steps[0]) then i - 1 else i, if keep(steps[0]) then j - 1 else j;
      FilterKeepsOrder(keep, steps[1..], x, y);
      var a, b :| 0 <= a < b < |steps[1..]| && steps[1..][a] == rest[x] && steps[1..][b] == rest[y];
      assert steps[a + 1] == kept[i] && steps[b + 1] == kept[j];
    }
  }

  lemma SharedLayer(steps: seq<Step>, s: Step, t: Step, n: nat)
    requires HasChain(steps, s, n) && !HasChain(steps, s, n + 1) && HasChain(steps, t, n) && !HasChain(steps, t, n + 1)
    ensures InSameLayer(steps, s, t)
  {
    hide HasChain;
    forall m: nat ensures HasChain(steps, s, m) <==> m <= n {
      if m <= n {
        ShorterChain(steps, s, m, n);
      } else if HasChain(steps, s, m) {
        ShorterChain(steps, s, n + 1, m);
      }
    }
    forall m: nat ensures HasChain(steps, t, m) <==> m <= n {
      if m <= n {
        ShorterChain(steps, t, m, n);
      } else if HasChain(steps, t, m) {
        ShorterChain(steps, t, n + 1, m);
      }
    }
  }

  // A whole layer follows what is ordered, in the order of the draft.
  lemma LayerFollows(steps: seq<Step>, ordered: seq<Step>, remaining: set<StepId>, layer: seq<Step>, n: nat)
    requires InLayers(steps, ordered) && AfterRounds(steps, ordered, n) && (forall s :: s in ordered ==> s in steps)
    requires layer == Ready(steps, remaining, Ids(ordered))
    requires forall s :: s in layer ==> HasChain(steps, s, n) && !HasChain(steps, s, n + 1)
    ensures InLayers(steps, ordered + layer)
  {
    hide HasChain;
    var more := ordered + layer;
    forall i, j | 0 <= i < j < |more| ensures Precedes(steps, more[i], more[j]) {
      if j < |ordered| {
        assert Precedes(steps, ordered[i], ordered[j]);
      } else if i < |ordered| {
        assert more[i] in ordered && more[j] in layer;
        assert InEarlierLayer(steps, more[i], more[j]);
      } else {
        assert more[i] in layer && more[j] in layer;
        FilterKeepsOrder((s: Step) => s.id in remaining && s.needs <= Ids(ordered), steps,
                         i - |ordered|, j - |ordered|);
        SharedLayer(steps, more[i], more[j], n);
      }
    }
  }

  /** In a layered order the result is last exactly when every other step precedes it. */
  lemma LastExactly(steps: seq<Step>, order: seq<Step>, r: Step)
    requires UniqueIds(steps) && r in steps && IsOnlyResult(steps, r)
    requires multiset(order) == multiset(steps) && order != [] && InLayers(steps, order)
    ensures order[|order| - 1] == r <==> ResultPlacedLast(steps)
  {
    hide Precedes;
    SameBagSameMembers(order, steps);
    var last := order[|order| - 1];
    assert last in order;
    if last == r {
      forall s | s in steps && s != r ensures Precedes(steps, s, r) {
        var i :| 0 <= i < |order| && order[i] == s;
        assert Precedes(steps, order[i], order[|order| - 1]);
      }
    } else {
      var i :| 0 <= i < |order| && order[i] == r;
      assert Precedes(steps, order[i], order[|order| - 1]);
      PrecedesIsStrict(steps, r, last);
    }
  }

  // ----- the method -----

  function ResultIds(steps: seq<Step>): seq<StepId> {
    Map((s: Step) => s.id, Filter((s: Step) => s.isResult, steps))
  }

  predicate ReferencesKnown(steps: seq<Step>) {
    forall s :: s in steps ==> s.needs <= Ids(steps) && s.id !in s.needs
  }

  predicate ResultUnused(steps: seq<Step>, result: StepId) {
    forall s :: s in steps && s.id != result ==> result !in s.needs
  }

  predicate RepeatsId(steps: seq<Step>) {
    exists i, j :: 0 <= i < j < |steps| && steps[i].id == steps[j].id
  }

  method OrderedSteps(steps: seq<Step>) returns (r: Outcome)
    ensures r.Ordered? ==> CorrectOrder(steps, r.steps)
    ensures WellReferenced(steps) ==> r.Ordered? || r == Refused(Cycle) || r == Refused(ResultNotLast)
    ensures WellReferenced(steps) ==> (r == Refused(Cycle) <==> exists walk :: IsCycle(steps, walk))
    ensures WellReferenced(steps) && (forall walk :: !IsCycle(steps, walk)) ==>
            (r.Ordered? <==> ResultPlacedLast(steps))
    ensures WellReferenced(steps) && (forall walk :: !IsCycle(steps, walk)) && AllLeadToResult(steps) ==> r.Ordered?
    ensures r.Ordered? ==> InLayers(steps, r.steps)
    ensures r.Ordered? ==> WellReferenced(steps)
  {
    hide IsCycle, LeadsTo, Partial, DependenciesFirst, InLayers, AfterRounds, HasChain, Precedes, ResultPlacedLast;
    if RepeatsId(steps) {
      return Refused(RepeatedId);
    }
    var results := ResultIds(steps);
    OneResult(steps);
    if |results| != 1 {
      return Refused(ResultCount);
    }
    if !ReferencesKnown(steps) {
      return Refused(BadReference);
    }
    var result := results[0];
    if !ResultUnused(steps, result) {
      return Refused(ResultIsUsed);
    }
    Checked(steps, result);
    var remaining := Ids(steps);
    var ordered: seq<Step> := [];
    StartOfOrder(steps);
    ghost var rounds: nat := 0;
    while remaining != {}
      invariant Partial(steps, ordered, remaining) && AfterRounds(steps, ordered, rounds) && InLayers(steps, ordered)
      decreases remaining
    {
      var ready := Ready(steps, remaining, Ids(ordered));
      if ready == [] {
        StuckHasCycle(steps, ordered, remaining);
        return Refused(Cycle);
      }
      LayerKeeps(steps, ordered, remaining, ready);
      NextRound(steps, ordered, remaining, ready, rounds);
      OnlySteps(steps, ordered, remaining);
      LayerFollows(steps, ordered, remaining, ready, rounds);
      rounds := rounds + 1;
      assert ready[0] in ready && ready[0].id in remaining && ready[0].id in Ids(ready);
      ordered := ordered + ready;
      remaining := remaining - Ids(ready);
    }
    OrderIsWhole(steps, ordered);
    forall walk ensures !IsCycle(steps, walk) {
      OrderHasNoCycle(steps, ordered, walk);
    }
    var last := ordered[|ordered| - 1];
    ghost var only :| only in steps && IsOnlyResult(steps, only);
    LastExactly(steps, ordered, only);
    if last.id != result {
      if AllLeadToResult(steps) {
        ghost var res :| res in steps && res.isResult && forall s :: s in steps && s != res ==> LeadsTo(steps, s, res);
        ResultIsLast(steps, ordered, res);
        assert false;
      }
      return Refused(ResultNotLast);
    }
    r := Ordered(ordered);
  }

  lemma StartOfOrder(steps: seq<Step>)
    requires UniqueIds(steps)
    ensures Partial(steps, [], Ids(steps)) && AfterRounds(steps, [], 0) && InLayers(steps, [])
  {
  }

  lemma OnlySteps(steps: seq<Step>, ordered: seq<Step>, remaining: set<StepId>)
    requires Partial(steps, ordered, remaining)
    ensures forall s :: s in ordered ==> s in steps
  {
  }

  lemma OrderIsWhole(steps: seq<Step>, ordered: seq<Step>)
    requires UniqueIds(steps) && Partial(steps, ordered, {}) && steps != []
    ensures multiset(ordered) == multiset(steps) && ordered != []
    ensures DependenciesFirst(ordered)
    ensures ordered[|ordered| - 1] in steps
  {
    WholeIsPermutation(steps, ordered);
    SameBagSameMembers(ordered, steps);
    assert ordered[|ordered| - 1] in ordered;
  }

  lemma OneResult(steps: seq<Step>)
    requires !RepeatsId(steps)
    ensures UniqueIds(steps)
    ensures |ResultIds(steps)| == 1 <==> exists r :: r in steps && IsOnlyResult(steps, r)
    ensures |ResultIds(steps)| == 1 ==> exists r :: r in steps && IsOnlyResult(steps, r) && r.id == ResultIds(steps)[0]
  {
    forall i, j | 0 <= i < j < |steps| ensures steps[i].id != steps[j].id {
    }
    UniqueNoDup(steps);
    var kept := Filter((s: Step) => s.isResult, steps);
    NoDupFilter((s: Step) => s.isResult, steps);
    if |kept| == 1 {
      assert kept == [kept[0]];
      assert kept[0] in kept;
      assert IsOnlyResult(steps, kept[0]);
    }
    if r :| r in steps && IsOnlyResult(steps, r) {
      assert forall x :: x in kept <==> x in [r];
      NoDupSameBag(kept, [r]);
      SameBagSameMembers(kept, [r]);
    }
  }

  lemma Checked(steps: seq<Step>, result: StepId)
    requires UniqueIds(steps) && ReferencesKnown(steps) && ResultUnused(steps, result)
    requires exists r :: r in steps && IsOnlyResult(steps, r) && r.id == result
    ensures WellReferenced(steps) && steps != []
    ensures forall s :: s in steps ==> (s.id == result <==> s.isResult)
  {
    UniqueNoDup(steps);
    var r :| r in steps && IsOnlyResult(steps, r) && r.id == result;
  }
}
