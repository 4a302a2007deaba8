/** Finite sequences as SQL row lists: map, filter, flat map, duplicates and bags. */
module SeqOps {

  datatype Option<+T> = None | Some(value: T)

  function Map<A, B>(f: A -> B, xs: seq<A>): (ys: seq<B>)
    ensures |ys| == |xs|
    ensures forall i :: 0 <= i < |xs| ==> ys[i] == f(xs[i])
  {
    if xs == [] then [] else [f(xs[0])] + Map(f, xs[1..])
  }

  function Filter<A(!new)>(p: A -> bool, xs: seq<A>): (ys: seq<A>)
    ensures forall x :: x in ys <==> x in xs && p(x)
  {
    if xs == [] then []
    else if p(xs[0]) then [xs[0]] + Filter(p, xs[1..])
    else Filter(p, xs[1..])
  }

  function FlatMap<A, B>(f: A -> seq<B>, xs: seq<A>): seq<B> {
    if xs == [] then [] else f(xs[0]) + FlatMap(f, xs[1..])
  }

  lemma {:induction false} FlatMapMember<A(!new), B>(f: A -> seq<B>, xs: seq<A>, y: B)
    ensures y in FlatMap(f, xs) <==> exists x :: x in xs && y in f(x)
  {
    if xs != [] {
      FlatMapMember(f, xs[1..], y);
      assert xs == [xs[0]] + xs[1..];
    }
  }

  function SetOf<A(==)>(xs: seq<A>): set<A> {
    set x | x in xs
  }

  ghost predicate NoDup<A>(xs: seq<A>) {
    forall i, j :: 0 <= i < j < |xs| ==> xs[i] != xs[j]
  }

  // ----- congruence and fusion -----

  lemma {:induction false} MapCong<A, B>(f: A -> B, g: A -> B, xs: seq<A>)
    requires forall x :: x in xs ==> f(x) == g(x)
    ensures Map(f, xs) == Map(g, xs)
  {
    if xs != [] {
      MapCong(f, g, xs[1..]);
    }
  }

  lemma {:induction false} FilterCong<A(!new)>(p: A -> bool, q: A -> bool, xs: seq<A>)
    requires forall x :: x in xs ==> p(x) == q(x)
    ensures Filter(p, xs) == Filter(q, xs)
  {
    if xs != [] {
      FilterCong(p, q, xs[1..]);
    }
  }

  lemma {:induction false} FlatMapCong<A, B>(f: A -> seq<B>, g: A -> seq<B>, xs: seq<A>)
    requires forall x :: x in xs ==> f(x) == g(x)
    ensures FlatMap(f, xs) == FlatMap(g, xs)
  {
    if xs != [] {
      FlatMapCong(f, g, xs[1..]);
    }
  }

  lemma {:induction false} MapMap<A, B, C>(f: A -> B, g: B -> C, h: A -> C, xs: seq<A>)
    requires forall x :: x in xs ==> h(x) == g(f(x))
    ensures Map(g, Map(f, xs)) == Map(h, xs)
  {
    if xs != [] {
      MapMap(f, g, h, xs[1..]);
      assert Map(f, xs)[1..] == Map(f, xs[1..]);
    }
  }

  lemma {:induction false} MapConcat<A, B>(f: A -> B, xs: seq<A>, ys: seq<A>)
    ensures Map(f, xs + ys) == Map(f, xs) + Map(f, ys)
  {
    if xs == [] {
      assert xs + ys == ys;
    } else {
      assert (xs + ys)[0] == xs[0] && (xs + ys)[1..] == xs[1..] + ys;
      MapConcat(f, xs[1..], ys);
    }
  }

  lemma MapSnoc<A, B>(f: A -> B, xs: seq<A>, x: A)
    ensures Map(f, xs + [x]) == Map(f, xs) + [f(x)]
  {
    MapConcat(f, xs, [x]);
  }

  lemma {:induction false} FilterConcat<A(!new)>(p: A -> bool, xs: seq<A>, ys: seq<A>)
    ensures Filter(p, xs + ys) == Filter(p, xs) + Filter(p, ys)
  {
    if xs == [] {
      assert xs + ys == ys;
    } else {
      assert (xs + ys)[0] == xs[0] && (xs + ys)[1..] == xs[1..] + ys;
      FilterConcat(p, xs[1..], ys);
    }
  }

  lemma {:induction false} FlatMapConcat<A, B>(f: A -> seq<B>, xs: seq<A>, ys: seq<A>)
    ensures FlatMap(f, xs + ys) == FlatMap(f, xs) + FlatMap(f, ys)
  {
    if xs == [] {
      assert xs + ys == ys;
    } else {
      assert (xs + ys)[0] == xs[0] && (xs + ys)[1..] == xs[1..] + ys;
      FlatMapConcat(f, xs[1..], ys);
    }
  }

  lemma {:induction false} FilterAll<A(!new)>(p: A -> bool, xs: seq<A>)
    requires forall x :: x in xs ==> p(x)
    ensures Filter(p, xs) == xs
  {
    if xs != [] {
      FilterAll(p, xs[1..]);
    }
  }

  lemma {:induction false} FilterNone<A(!new)>(p: A -> bool, xs: seq<A>)
    requires forall x :: x in xs ==> !p(x)
    ensures Filter(p, xs) == []
  {
    if xs != [] {
      FilterNone(p, xs[1..]);
    }
  }

  lemma {:induction false} FilterFilter<A(!new)>(p: A -> bool, q: A -> bool, r: A -> bool, xs: seq<A>)
    requires forall x :: x in xs ==> r(x) == (p(x) && q(x))
    ensures Filter(q, Filter(p, xs)) == Filter(r, xs)
  {
    if xs != [] {
      FilterFilter(p, q, r, xs[1..]);
      if p(xs[0]) {
        assert ([xs[0]] + Filter(p, xs[1..]))[1..] == Filter(p, xs[1..]);
      }
    }
  }

  lemma {:induction false} FilterMap<A(!new), B(!new)>(p: B -> bool, f: A -> B, q: A -> bool, xs: seq<A>)
    requires forall x :: x in xs ==> q(x) == p(f(x))
    ensures Filter(p, Map(f, xs)) == Map(f, Filter(q, xs))
  {
    if xs != [] {
      FilterMap(p, f, q, xs[1..]);
      assert Map(f, xs)[1..] == Map(f, xs[1..]);
      if q(xs[0]) {
        assert ([xs[0]] + Filter(q, xs[1..]))[1..] == Filter(q, xs[1..]);
      }
    }
  }

  lemma {:induction false} FlatMapMap<A, B, C>(f: A -> B, g: B -> seq<C>, h: A -> seq<C>, xs: seq<A>)
    requires forall x :: x in xs ==> h(x) == g(f(x))
    ensures FlatMap(g, Map(f, xs)) == FlatMap(h, xs)
  {
    if xs != [] {
      FlatMapMap(f, g, h, xs[1..]);
      assert Map(f, xs)[1..] == Map(f, xs[1..]);
    }
  }

  lemma {:induction false} MapFlatMap<A, B, C>(f: B -> C, g: A -> seq<B>, h: A -> seq<C>, xs: seq<A>)
    requires forall x :: x in xs ==> h(x) == Map(f, g(x))
    ensures Map(f, FlatMap(g, xs)) == FlatMap(h, xs)
  {
    if xs != [] {
      MapConcat(f, g(xs[0]), FlatMap(g, xs[1..]));
      MapFlatMap(f, g, h, xs[1..]);
    }
  }

  lemma {:induction false} FlatMapSingleton<A, B>(f: A -> seq<B>, g: A -> B, xs: seq<A>)
    requires forall x :: x in xs ==> f(x) == [g(x)]
    ensures FlatMap(f, xs) == Map(g, xs)
  {
    if xs != [] {
      FlatMapSingleton(f, g, xs[1..]);
    }
  }

  // A flat map that keeps or drops its argument is a filter followed by a map.
  lemma {:induction false} FlatMapGuard<A(!new), B>(f: A -> seq<B>, p: A -> bool, g: A -> seq<B>, xs: seq<A>)
    requires forall x :: x in xs ==> f(x) == if p(x) then g(x) else []
    ensures FlatMap(f, xs) == FlatMap(g, Filter(p, xs))
  {
    if xs != [] {
      FlatMapGuard(f, p, g, xs[1..]);
      if p(xs[0]) {
        assert ([xs[0]] + Filter(p, xs[1..]))[1..] == Filter(p, xs[1..]);
      }
    }
  }

  // Filtering after a flat map whose steps respect the filter of their argument.
  lemma {:induction false} FilterFlatMap<A(!new),
          B(!new)>(q: B -> bool, g: A -> seq<B>, p: A -> bool, h: A -> seq<B>, xs: seq<A>)
    requires forall x :: x in xs ==> Filter(q, g(x)) == if p(x) then h(x) else []
    ensures Filter(q, FlatMap(g, xs)) == FlatMap(h, Filter(p, xs))
  {
    if xs != [] {
      FilterConcat(q, g(xs[0]), FlatMap(g, xs[1..]));
      FilterFlatMap(q, g, p, h, xs[1..]);
      assert Filter(q, FlatMap(g, xs)) == Filter(q, g(xs[0])) + FlatMap(h, Filter(p, xs[1..]));
      if p(xs[0]) {
        assert ([xs[0]] + Filter(p, xs[1..]))[1..] == Filter(p, xs[1..]);
      }
    }
  }

  lemma {:induction false} MapFilterFlatMap<A, B(!new),
          C>(f: B -> C, w: B -> bool, g: A -> seq<B>, h: A -> seq<C>, xs: seq<A>)
    requires forall x :: x in xs ==> h(x) == Map(f, Filter(w, g(x)))
    ensures Map(f, Filter(w, FlatMap(g, xs))) == FlatMap(h, xs)
  {
    if xs != [] {
      FilterConcat(w, g(xs[0]), FlatMap(g, xs[1..]));
      MapConcat(f, Filter(w, g(xs[0])), Filter(w, FlatMap(g, xs[1..])));
      MapFilterFlatMap(f, w, g, h, xs[1..]);
    }
  }

  lemma {:induction false} MapFilterMap<A, B(!new), C>(f: B -> C, w: B -> bool, g: A -> B, h: A -> seq<C>, xs: seq<A>)
    requires forall x :: x in xs ==> h(x) == if w(g(x)) then [f(g(x))] else []
    ensures Map(f, Filter(w, Map(g, xs))) == FlatMap(h, xs)
  {
    if xs != [] {
      MapFilterMap(f, w, g, h, xs[1..]);
      assert Map(g, xs)[1..] == Map(g, xs[1..]);
      if w(g(xs[0])) {
        assert ([g(xs[0])] + Filter(w, Map(g, xs[1..])))[1..] == Filter(w, Map(g, xs[1..]));
      }
    }
  }

  // ----- duplicates and bags -----

  lemma NoDupMap<A, B>(f: A -> B, xs: seq<A>)
    requires NoDup(xs)
    requires forall x, y :: x in xs && y in xs && f(x) == f(y) ==> x == y
    ensures NoDup(Map(f, xs))
  {
  }

  lemma NoDupTail<A>(xs: seq<A>)
    requires NoDup(xs) && xs != []
    ensures NoDup(xs[1..]) && xs[0] !in xs[1..]
  {
  }

  lemma NoDupCons<A>(x: A, xs: seq<A>)
    requires NoDup(xs) && x !in xs
    ensures NoDup([x] + xs)
  {
  }

  lemma NoMemberIsEmpty<A(!new)>(xs: seq<A>)
    requires forall x :: x !in xs
    ensures xs == []
  {
    forall x ensures x !in multiset(xs) {
      assert x in multiset(xs) <==> x in xs;
    }
    assert multiset(xs) == multiset{};
    assert |multiset(xs)| == |xs|;
  }

  lemma NoDupSnoc<A>(xs: seq<A>, x: A)
    requires NoDup(xs) && x !in xs
    ensures NoDup(xs + [x])
  {
  }

  lemma NoDupConcat<A>(xs: seq<A>, ys: seq<A>)
    requires NoDup(xs) && NoDup(ys)
    requires forall x :: x in xs ==> x !in ys
    ensures NoDup(xs + ys)
  {
    forall i, j | 0 <= i < j < |xs + ys| ensures (xs + ys)[i] != (xs + ys)[j] {
      if i < |xs| <= j {
        assert xs[i] in xs && ys[j - |xs|] in ys;
      }
    }
  }

  lemma {:induction false} NoDupFilter<A(!new)>(p: A -> bool, xs: seq<A>)
    requires NoDup(xs)
    ensures NoDup(Filter(p, xs))
  {
    if xs != [] {
      NoDupTail(xs);
      NoDupFilter(p, xs[1..]);
      if p(xs[0]) {
        NoDupCons(xs[0], Filter(p, xs[1..]));
      }
    }
  }

  lemma {:induction false} NoDupFlatMap<A(!new), B(!new)>(f: A -> seq<B>, xs: seq<A>)
    requires NoDup(xs)
    requires forall x :: x in xs ==> NoDup(f(x))
    requires forall x, y, z :: x in xs && y in xs && z in f(x) && z in f(y) ==> x == y
    ensures NoDup(FlatMap(f, xs))
  {
    if xs != [] {
      NoDupTail(xs);
      NoDupFlatMap(f, xs[1..]);
      forall z | z in f(xs[0]) ensures z !in FlatMap(f, xs[1..]) {
        FlatMapMember(f, xs[1..], z);
      }
      NoDupConcat(f(xs[0]), FlatMap(f, xs[1..]));
    }
  }

  lemma {:induction false} NoDupCount<A>(xs: seq<A>, x: A)
    requires NoDup(xs)
    ensures multiset(xs)[x] == if x in xs then 1 else 0
  {
    if xs != [] {
      assert xs == [xs[0]] + xs[1..];
      NoDupTail(xs);
      NoDupCount(xs[1..], x);
    }
  }

  /** Two duplicate-free lists with the same members are the same bag. */
  lemma NoDupSameBag<A(!new)>(xs: seq<A>, ys: seq<A>)
    requires NoDup(xs) && NoDup(ys)
    requires forall x :: x in xs <==> x in ys
    ensures multiset(xs) == multiset(ys)
  {
    forall x ensures multiset(xs)[x] == multiset(ys)[x] {
      NoDupCount(xs, x);
      NoDupCount(ys, x);
    }
  }

  lemma TakeOut<A>(ys: seq<A>, k: nat)
    requires k < |ys|
    ensures multiset(ys) == multiset{ys[k]} + multiset(ys[..k] + ys[k + 1..])
  {
    assert ys == ys[..k] + [ys[k]] + ys[k + 1..];
  }

  lemma OthersRemain<A>(xs: seq<A>, k: nat, x: A)
    requires k < |xs| && x in xs && x != xs[k]
    ensures x in xs[..k] + xs[k + 1..]
  {
    assert xs == xs[..k] + [xs[k]] + xs[k + 1..];
  }

  lemma MapTakeOut<A, B>(f: A -> B, ys: seq<A>, k: nat)
    requires k < |ys|
    ensures multiset(Map(f, ys)) == multiset{f(ys[k])} + multiset(Map(f, ys[..k] + ys[k + 1..]))
  {
    var zs := Map(f, ys);
    TakeOut(zs, k);
    assert zs[..k] == Map(f, ys[..k]) && zs[k + 1..] == Map(f, ys[k + 1..]);
    MapConcat(f, ys[..k], ys[k + 1..]);
  }

  lemma CancelBag<A>(a: multiset<A>, x: multiset<A>, y: multiset<A>)
    requires a + x == a + y
    ensures x == y
  {
    assert x == (a + x) - a && y == (a + y) - a;
  }

  lemma RestSameBag<A>(xs: seq<A>, ys: seq<A>, k: nat)
    requires multiset(xs) == multiset(ys) && xs != [] && k < |ys| && ys[k] == xs[0]
    ensures multiset(xs[1..]) == multiset(ys[..k] + ys[k + 1..])
  {
    var rest := ys[..k] + ys[k + 1..];
    TakeOut(xs, 0);
    TakeOut(ys, k);
    assert xs[..0] + xs[0 + 1..] == xs[1..];
    CancelBag(multiset{xs[0]}, multiset(xs[1..]), multiset(rest));
  }

  /** Mapping rows preserves equality of bags. */
  lemma {:induction false} MapSameBag<A, B>(f: A -> B, xs: seq<A>, ys: seq<A>)
    requires multiset(xs) == multiset(ys)
    ensures multiset(Map(f, xs)) == multiset(Map(f, ys))
    decreases |xs|
  {
    if xs == [] {
      assert |multiset(ys)| == 0;
    } else {
      assert xs[0] in multiset(ys);
      var k :| 0 <= k < |ys| && ys[k] == xs[0];
      RestSameBag(xs, ys, k);
      MapSameBag(f, xs[1..], ys[..k] + ys[k + 1..]);
      MapTakeOut(f, xs, 0);
      MapTakeOut(f, ys, k);
      assert xs[..0] + xs[1..] == xs[1..];
    }
  }

  lemma MapHas<A(!new), B>(f: A -> B, xs: seq<A>, y: B)
    ensures y in Map(f, xs) <==> exists x :: x in xs && f(x) == y
  {
    if y in Map(f, xs) {
      var i :| 0 <= i < |xs| && Map(f, xs)[i] == y;
      assert xs[i] in xs;
    }
    if x :| x in xs && f(x) == y {
      var i :| 0 <= i < |xs| && xs[i] == x;
      assert Map(f, xs)[i] == y;
    }
  }

  lemma OnlyMember<A>(s: set<A>, a: A, b: A)
    requires |s| == 1 && a in s && b in s
    ensures a == b
  {
    assert |s - {a}| == 0;
  }

  // ----- sorting -----

  function InsertBy<A>(key: A -> nat, x: A, xs: seq<A>): (ys: seq<A>)
    ensures multiset(ys) == multiset(xs) + multiset{x}
  {
    if xs == [] then [x]
    else if key(x) <= key(xs[0]) then [x] + xs
    else
      assert xs == [xs[0]] + xs[1..];
      [xs[0]] + InsertBy(key, x, xs[1..])
  }

  /** Python's `sorted` by a numeric key. */
  function SortBy<A>(key: A -> nat, xs: seq<A>): (ys: seq<A>)
    ensures multiset(ys) == multiset(xs)
  {
    if xs == [] then []
    else
      assert xs == [xs[0]] + xs[1..];
      InsertBy(key, xs[0], SortBy(key, xs[1..]))
  }

  ghost predicate SortedBy<A>(key: A -> nat, xs: seq<A>) {
    forall i, k :: 0 <= i < k < |xs| ==> key(xs[i]) <= key(xs[k])
  }

  lemma SortedCons<A(!new)>(key: A -> nat, x: A, xs: seq<A>)
    requires SortedBy(key, xs) && forall y :: y in xs ==> key(x) <= key(y)
    ensures SortedBy(key, [x] + xs)
  {
  }

  lemma InsertMembers<A(!new)>(key: A -> nat, x: A, xs: seq<A>)
    ensures forall y :: y in InsertBy(key, x, xs) <==> y == x || y in xs
  {
    var ys := InsertBy(key, x, xs);
    forall y ensures y in ys <==> y == x || y in xs {
      assert y in ys <==> y in multiset(ys);
    }
  }

  lemma {:induction false} InsertKeepsSorted<A(!new)>(key: A -> nat, x: A, xs: seq<A>)
    requires SortedBy(key, xs)
    ensures SortedBy(key, InsertBy(key, x, xs))
  {
    if xs != [] {
      assert forall y :: y in xs ==> key(xs[0]) <= key(y);
      if key(x) <= key(xs[0]) {
        SortedCons(key, x, xs);
      } else {
        InsertKeepsSorted(key, x, xs[1..]);
        InsertMembers(key, x, xs[1..]);
        SortedCons(key, xs[0], InsertBy(key, x, xs[1..]));
      }
    }
  }

  /** Sorting puts the keys in ascending order. */
  lemma {:induction false} SortBySorts<A(!new)>(key: A -> nat, xs: seq<A>)
    ensures SortedBy(key, SortBy(key, xs))
  {
    if xs != [] {
      SortBySorts(key, xs[1..]);
      InsertKeepsSorted(key, xs[0], SortBy(key, xs[1..]));
    }
  }

  /** Members with different keys have one ascending list. */
  lemma {:induction false} AscendingIsUnique<A(!new)>(key: A -> nat, xs: seq<A>, ys: seq<A>)
    requires forall i, k :: 0 <= i < k < |xs| ==> key(xs[i]) < key(xs[k])
    requires forall i, k :: 0 <= i < k < |ys| ==> key(ys[i]) < key(ys[k])
    requires forall x :: x in xs <==> x in ys
    ensures xs == ys
    decreases |xs|
  {
    if xs == [] || ys == [] {
      NoMemberIsEmpty(xs);
      NoMemberIsEmpty(ys);
    } else {
      assert xs[0] in ys && ys[0] in xs;
      assert xs[0] == ys[0];
      forall x ensures x in xs[1..] <==> x in ys[1..] {
        assert x in xs[1..] ==> x in ys && x != ys[0];
        assert x in ys[1..] ==> x in xs && x != xs[0];
      }
      AscendingIsUnique(key, xs[1..], ys[1..]);
    }
  }

  lemma SameBagSameMembers<A(!new)>(xs: seq<A>, ys: seq<A>)
    requires multiset(xs) == multiset(ys)
    ensures forall x :: x in xs <==> x in ys
    ensures |xs| == |ys|
    ensures NoDup(xs) ==> NoDup(ys)
  {
    forall x ensures x in xs <==> x in ys {
      assert x in xs <==> x in multiset(xs);
      assert x in ys <==> x in multiset(ys);
    }
    assert |multiset(xs)| == |xs| && |multiset(ys)| == |ys|;
    if NoDup(xs) {
      forall i, j | 0 <= i < j < |ys| ensures ys[i] != ys[j] {
        if ys[i] == ys[j] {
          NoDupCount(xs, ys[i]);
          TwiceCounts(ys, i, j);
          assert false;
        }
      }
    }
  }

  lemma TwiceCounts<A>(ys: seq<A>, i: nat, j: nat)
    requires i < j < |ys| && ys[i] == ys[j]
    ensures multiset(ys)[ys[i]] >= 2
  {
    assert ys == ys[..i] + [ys[i]] + ys[i + 1..j] + [ys[j]] + ys[j + 1..];
  }

  // ----- the last element with a property -----

  /** A later entry of a dictionary replaces an earlier one: `x` is the last element with the property. */
  ghost predicate IsLast<A(!new)>(xs: seq<A>, has: A -> bool, x: A) {
    exists i :: 0 <= i < |xs| && xs[i] == x && has(x) && forall k :: i < k < |xs| ==> !has(xs[k])
  }

  lemma LastIsOne<A(!new)>(xs: seq<A>, has: A -> bool, x: A, y: A)
    requires IsLast(xs, has, x) && IsLast(xs, has, y)
    ensures x == y
  {
    var i :| 0 <= i < |xs| && xs[i] == x && has(x) && forall k :: i < k < |xs| ==> !has(xs[k]);
    var j :| 0 <= j < |xs| && xs[j] == y && has(y) && forall k :: j < k < |xs| ==> !has(xs[k]);
  }

  lemma LastOfParts<A(!new)>(xs: seq<A>, ys: seq<A>, has: A -> bool, x: A)
    ensures IsLast(xs + ys, has, x) <==> IsLast(ys, has, x) || ((forall y :: y in ys ==> !has(y)) && IsLast(xs, has, x))
  {
    var all := xs + ys;
    if IsLast(all, has, x) {
      var i :| 0 <= i < |all| && all[i] == x && has(x) && forall k :: i < k < |all| ==> !has(all[k]);
      if i >= |xs| {
        forall k | i - |xs| < k < |ys| ensures !has(ys[k]) {
          assert ys[k] == all[|xs| + k];
        }
        assert ys[i - |xs|] == x;
      } else {
        forall y | y in ys ensures !has(y) {
          var k :| 0 <= k < |ys| && ys[k] == y;
          assert all[|xs| + k] == y;
        }
        forall k | i < k < |xs| ensures !has(xs[k]) {
          assert all[k] == xs[k];
        }
      }
    }
    if IsLast(ys, has, x) {
      var i :| 0 <= i < |ys| && ys[i] == x && has(x) && forall k :: i < k < |ys| ==> !has(ys[k]);
      assert all[|xs| + i] == x;
    }
    if (forall y :: y in ys ==> !has(y)) && IsLast(xs, has, x) {
      var i :| 0 <= i < |xs| && xs[i] == x && has(x) && forall k :: i < k < |xs| ==> !has(xs[k]);
      assert all[i] == x;
    }
  }

  lemma LastOfOne<A(!new)>(y: A, has: A -> bool, x: A)
    ensures IsLast([y], has, x) <==> x == y && has(y)
  {
    assert [y][0] == y;
  }

  lemma NothingIsLast<A(!new)>(has: A -> bool, x: A)
    ensures !IsLast([], has, x)
  {
  }

  // ----- where a filter takes its elements -----

  /** The positions of the elements that are kept, in ascending order. */
  ghost predicate KeptAt<A>(keep: A -> bool, xs: seq<A>, at: seq<nat>) {
    && (forall i, k :: 0 <= i < k < |at| ==> at[i] < at[k])
    && (forall i :: 0 <= i < |at| ==> at[i] < |xs|)
    && forall n: nat :: n < |xs| ==> (n in at <==> keep(xs[n]))
  }

  lemma KeptSnoc<A>(keep: A -> bool, xs: seq<A>, at: seq<nat>)
    requires xs != [] && KeptAt(keep, xs[..|xs| - 1], at)
    ensures KeptAt(keep, xs, if keep(xs[|xs| - 1]) then at + [|xs| - 1] else at)
  {
    var n := |xs| - 1;
    var more := if keep(xs[n]) then at + [n] else at;
    assert n !in at;
    forall m: nat | m < |xs| ensures m in more <==> keep(xs[m]) {
      if m < n {
        assert xs[..n][m] == xs[m];
      }
    }
  }

  lemma FilterSnoc<A(!new)>(keep: A -> bool, xs: seq<A>)
    requires xs != []
    ensures var n := |xs| - 1; Filter(keep, xs) == Filter(keep, xs[..n]) + if keep(xs[n]) then [xs[n]] else []
  {
    var n := |xs| - 1;
    assert xs == xs[..n] + [xs[n]];
    FilterConcat(keep, xs[..n], [xs[n]]);
  }

  ghost predicate Takes<A>(xs: seq<A>, at: seq<nat>, ys: seq<A>) {
    |at| == |ys| && forall i :: 0 <= i < |at| ==> at[i] < |xs| && ys[i] == xs[at[i]]
  }

  lemma TakesSnoc<A>(xs: seq<A>, at: seq<nat>, ys: seq<A>, kept: bool)
    requires xs != [] && Takes(xs[..|xs| - 1], at, ys)
    ensures var n := |xs| - 1; Takes(xs, if kept then at + [n] else at, if kept then ys + [xs[n]] else ys)
  {
  }

  lemma KeepsSnoc<A>(keep: A -> bool, xs: seq<A>, before: seq<nat>, small: seq<A>, all: seq<A>) returns (at: seq<nat>)
    requires xs != [] && KeptAt(keep, xs[..|xs| - 1], before) && Takes(xs[..|xs| - 1], before, small)
    requires all == small + if keep(xs[|xs| - 1]) then [xs[|xs| - 1]] else []
    ensures KeptAt(keep, xs, at) && Takes(xs, at, all)
  {
    hide KeptAt, Takes;
    KeptSnoc(keep, xs, before);
    TakesSnoc(xs, before, small, keep(xs[|xs| - 1]));
    at := if keep(xs[|xs| - 1]) then before + [|xs| - 1] else before;
    assert all == if keep(xs[|xs| - 1]) then small + [xs[|xs| - 1]] else small;
  }

  lemma {:induction false} FilterKeeps<A(!new)>(keep: A -> bool, xs: seq<A>) returns (at: seq<nat>)
    ensures KeptAt(keep, xs, at) && Takes(xs, at, Filter(keep, xs))
  {
    if xs == [] {
      at := [];
    } else {
      hide KeptAt, Takes, Filter;
      var before := FilterKeeps(keep, xs[..|xs| - 1]);
      FilterSnoc(keep, xs);
      at := KeepsSnoc(keep, xs, before, Filter(keep, xs[..|xs| - 1]), Filter(keep, xs));
    }
  }
}
