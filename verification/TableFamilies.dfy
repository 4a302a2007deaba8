/** Detection of table families by a varying name token, and expansion of a retrieved selection.
    Models `_build_families` and the family expansion in `retrieve` of ontology_core/metadata_candidates.py. */
module TableFamilies {
  import opened SeqOps

  /** A table with its grouping signature (source, namespace, fields, time policy) and its folded name tokens. */
  datatype Table = Table(ref: nat, signature: nat, tokens: seq<nat>)

  /** The name with one position left open, within one signature and one number of tokens. */
  datatype BucketKey = BucketKey(signature: nat, index: nat, template: seq<Option<nat>>)

  function Template(tokens: seq<nat>, index: nat): (r: seq<Option<nat>>)
    ensures |r| == |tokens| && forall i :: 0 <= i < |tokens| ==> r[i] == if i == index then None else Some(tokens[i])
  {
    seq(|tokens|, i requires 0 <= i < |tokens| => if i == index then None else Some(tokens[i]))
  }

  function KeyAt(t: Table, index: nat): BucketKey {
    BucketKey(t.signature, index, Template(t.tokens, index))
  }

  function Bucket(tables: seq<Table>, key: BucketKey): seq<Table> {
    Filter((t: Table) => key.index < |t.tokens| && KeyAt(t, key.index) == key, tables)
  }

  /** The open position takes at least two values. */
  ghost predicate Varies(bucket: seq<Table>, index: nat) {
    exists a, b ::
        a in bucket && b in bucket && index < |a.tokens| && index < |b.tokens| && a.tokens[index] != b.tokens[index]
  }

  function MemberRefs(bucket: seq<Table>): seq<nat> {
    SortBy((r: nat) => r, Map((t: Table) => t.ref, bucket))
  }

  // ----- what a family is -----

  ghost predicate UniqueRefs(tables: seq<Table>) {
    forall i, j :: 0 <= i < j < |tables| ==> tables[i].ref != tables[j].ref
  }

  /** A member list found at an index. */
  ghost predicate IsFamily(tables: seq<Table>, refs: seq<nat>, index: nat) {
    exists key: BucketKey :: key.index == index && Varies(Bucket(tables, key),
                                                          index) && MemberRefs(Bucket(tables, key)) == refs
  }

  /** Two tables of one signature differ at most at one position. */
  predicate AgreeExcept(a: Table, b: Table, index: nat) {
    a.signature == b.signature && |a.tokens| == |b.tokens| && forall i ::
        0 <= i < |a.tokens| && i != index ==> a.tokens[i] == b.tokens[i]
  }

  lemma SameKeyIsAgreement(a: Table, b: Table, index: nat)
    ensures KeyAt(a, index) == KeyAt(b, index) <==> AgreeExcept(a, b, index)
  {
    var x, y := Template(a.tokens, index), Template(b.tokens, index);
    if AgreeExcept(a, b, index) {
      assert x == y;
    }
    if KeyAt(a, index) == KeyAt(b, index) {
      assert |a.tokens| == |x| == |y| == |b.tokens|;
      forall i | 0 <= i < |a.tokens| && i != index ensures a.tokens[i] == b.tokens[i] {
        assert x[i] == y[i];
      }
    }
  }

  lemma InBucket(tables: seq<Table>, key: BucketKey, t: Table)
    ensures t in Bucket(tables, key) <==> t in tables && key.index < |t.tokens| && KeyAt(t, key.index) == key
  {
  }

  lemma RefsOfBucket(tables: seq<Table>, bucket: seq<Table>, t: Table)
    requires UniqueRefs(tables) && (forall m :: m in bucket ==> m in tables) && t in tables
    ensures t.ref in MemberRefs(bucket) <==> t in bucket
  {
    var refs := Map((m: Table) => m.ref, bucket);
    SameBagSameMembers(refs, MemberRefs(bucket));
    if t in bucket {
      var i :| 0 <= i < |bucket| && bucket[i] == t;
      assert refs[i] == t.ref;
    }
    if t.ref in refs {
      var i :| 0 <= i < |refs| && refs[i] == t.ref;
      assert bucket[i] in bucket;
      var j :| 0 <= j < |tables| && tables[j] == bucket[i];
      var k :| 0 <= k < |tables| && tables[k] == t;
    }
  }

  lemma BucketMembers(tables: seq<Table>, key: BucketKey)
    ensures forall m :: m in Bucket(tables, key) ==> m in tables
  {
  }

  /** Two tables share a family exactly when, for some single position, they agree everywhere else and the
      tables that agree with them there vary at that position. */
  lemma SharedFamilyExactly(tables: seq<Table>, a: Table, b: Table)
    requires UniqueRefs(tables) && a in tables && b in tables
    ensures (exists refs, index :: IsFamily(tables, refs, index) && a.ref in refs && b.ref in refs)
        <==> (exists index: nat :: index < |a.tokens| && AgreeExcept(a, b,
                                                                     index) && Varies(Bucket(tables, KeyAt(a, index)),
                                                                         index))
  {
    hide MemberRefs, Varies, Bucket, KeyAt, AgreeExcept;
    if refs, index :| IsFamily(tables, refs, index) && a.ref in refs && b.ref in refs {
      var key: BucketKey :| key.index == index && Varies(Bucket(tables, key), index)
          && MemberRefs(Bucket(tables, key)) == refs;
      BucketMembers(tables, key);
      RefsOfBucket(tables, Bucket(tables, key), a);
      RefsOfBucket(tables, Bucket(tables, key), b);
      InBucket(tables, key, a);
      InBucket(tables, key, b);
      SameKeyIsAgreement(a, b, index);
    }
    if index: nat :| index < |a.tokens| && AgreeExcept(a, b, index) && Varies(Bucket(tables, KeyAt(a, index)), index) {
      var key := KeyAt(a, index);
      KeyIndex(a, index);
      SameKeyIsAgreement(a, b, index);
      SameLength(a, b, index);
      InBucket(tables, key, a);
      InBucket(tables, key, b);
      BucketMembers(tables, key);
      RefsOfBucket(tables, Bucket(tables, key), a);
      RefsOfBucket(tables, Bucket(tables, key), b);
      assert IsFamily(tables, MemberRefs(Bucket(tables, key)), index);
    }
  }

  lemma KeyIndex(t: Table, index: nat)
    ensures KeyAt(t, index).index == index
  {
  }

  lemma SameLength(a: Table, b: Table, index: nat)
    requires AgreeExcept(a, b, index)
    ensures |a.tokens| == |b.tokens|
  {
  }

  // Two buckets at different positions share at most one name.
  lemma CommonMembersShareName(tables: seq<Table>, k: BucketKey, l: BucketKey, a: Table, b: Table)
    requires k != l && a in Bucket(tables, k) && a in Bucket(tables, l) && b in Bucket(tables, k)
             && b in Bucket(tables, l)
    ensures a.tokens == b.tokens && a.signature == b.signature
  {
    hide Template;
    InBucket(tables, k, a);
    InBucket(tables, l, a);
    InBucket(tables, k, b);
    InBucket(tables, l, b);
    SameKeyIsAgreement(a, b, k.index);
    SameKeyIsAgreement(a, b, l.index);
    assert k.index != l.index;
  }

  lemma SameRefsSameBucket(tables: seq<Table>, k: BucketKey, l: BucketKey)
    requires UniqueRefs(tables) && MemberRefs(Bucket(tables, k)) == MemberRefs(Bucket(tables, l))
    ensures forall t :: t in Bucket(tables, k) <==> t in Bucket(tables, l)
  {
    hide MemberRefs, Bucket;
    BucketMembers(tables, k);
    BucketMembers(tables, l);
    forall t | t in tables ensures t in Bucket(tables, k) <==> t in Bucket(tables, l) {
      RefsOfBucket(tables, Bucket(tables, k), t);
      RefsOfBucket(tables, Bucket(tables, l), t);
    }
  }

  /** A member list determines its varying position. */
  lemma IndexIsUnique(tables: seq<Table>, refs: seq<nat>, i: nat, j: nat)
    requires UniqueRefs(tables) && IsFamily(tables, refs, i) && IsFamily(tables, refs, j)
    ensures i == j
  {
    hide MemberRefs, Bucket;
    var k: BucketKey :| k.index == i && Varies(Bucket(tables, k), i) && MemberRefs(Bucket(tables, k)) == refs;
    var l: BucketKey :| l.index == j && Varies(Bucket(tables, l), j) && MemberRefs(Bucket(tables, l)) == refs;
    SameRefsSameBucket(tables, k, l);
    var a, b :| a in Bucket(tables, k) && b in Bucket(tables, k) && i < |a.tokens| && i < |b.tokens|
        && a.tokens[i] != b.tokens[i];
    if k != l {
      CommonMembersShareName(tables, k, l, a, b);
      assert false;
    }
  }

  /** Two different families of one signature share at most one physical name. */
  lemma FamiliesShareOneName(tables: seq<Table>, first: seq<nat>, i: nat, second: seq<nat>, j: nat, a: Table, b: Table)
    requires UniqueRefs(tables) && IsFamily(tables, first, i) && IsFamily(tables, second, j) && first != second
    requires a in tables && b in tables && a.ref in first && a.ref in second && b.ref in first && b.ref in second
    ensures a.tokens == b.tokens && a.signature == b.signature
  {
    hide MemberRefs, Bucket, Varies;
    var k: BucketKey :| k.index == i && Varies(Bucket(tables, k), i) && MemberRefs(Bucket(tables, k)) == first;
    var l: BucketKey :| l.index == j && Varies(Bucket(tables, l), j) && MemberRefs(Bucket(tables, l)) == second;
    BucketMembers(tables, k);
    BucketMembers(tables, l);
    RefsOfBucket(tables, Bucket(tables, k), a);
    RefsOfBucket(tables, Bucket(tables, l), a);
    RefsOfBucket(tables, Bucket(tables, k), b);
    RefsOfBucket(tables, Bucket(tables, l), b);
    CommonMembersShareName(tables, k, l, a, b);
  }

  /** The members are the tables that agree with `t` everywhere but at the index, in ascending order, and not all of
      them agree with it there too. */
  ghost predicate AgreeingTables(tables: seq<Table>, t: Table, index: nat, refs: seq<nat>) {
    && t in tables && index < |t.tokens| && Ascends(refs)
    && (forall r :: r in refs <==> exists u :: u in tables && AgreeExcept(t, u, index) && u.ref == r)
    && exists u :: u in tables && AgreeExcept(t, u, index) && u.tokens[index] != t.tokens[index]
  }

  ghost predicate Ascends(refs: seq<nat>) {
    forall i, k :: 0 <= i < k < |refs| ==> refs[i] < refs[k]
  }

  lemma BucketAgrees(tables: seq<Table>, t: Table, index: nat)
    requires index < |t.tokens|
    ensures forall u :: u in Bucket(tables, KeyAt(t, index)) <==> u in tables && AgreeExcept(t, u, index)
  {
    hide Bucket, KeyAt, AgreeExcept;
    var key := KeyAt(t, index);
    KeyIndex(t, index);
    forall u ensures u in Bucket(tables, key) <==> u in tables && AgreeExcept(t, u, index) {
      InBucket(tables, key, u);
      SameKeyIsAgreement(t, u, index);
      if AgreeExcept(t, u, index) {
        SameLength(t, u, index);
      }
    }
  }

  lemma SortedAscends(refs: seq<nat>)
    requires SortedBy((r: nat) => r, refs) && NoDup(refs)
    ensures Ascends(refs)
  {
    var self := (r: nat) => r;
    forall i, k | 0 <= i < k < |refs| ensures refs[i] < refs[k] {
      assert self(refs[i]) <= self(refs[k]);
    }
  }

  lemma MembersAscend(bucket: seq<Table>)
    requires NoDup(Map((u: Table) => u.ref, bucket))
    ensures Ascends(MemberRefs(bucket))
    ensures forall r :: r in MemberRefs(bucket) <==> exists u :: u in bucket && u.ref == r
  {
    hide SortBy, SortedBy, NoDup, Ascends;
    var refs := Map((u: Table) => u.ref, bucket);
    SameBagSameMembers(refs, MemberRefs(bucket));
    SortBySorts((r: nat) => r, refs);
    SortedAscends(MemberRefs(bucket));
    forall r ensures r in refs <==> exists u :: u in bucket && u.ref == r {
      MapHas((u: Table) => u.ref, bucket, r);
    }
  }

  lemma MemberRefsAre(tables: seq<Table>, key: BucketKey)
    requires UniqueRefs(tables)
    ensures Ascends(MemberRefs(Bucket(tables, key)))
    ensures forall r :: r in MemberRefs(Bucket(tables, key)) <==> exists u :: u in Bucket(tables, key) && u.ref == r
  {
    hide Bucket, MemberRefs;
    BucketHasUniqueRefs(tables, key);
    MembersAscend(Bucket(tables, key));
  }

  lemma BucketHasUniqueRefs(tables: seq<Table>, key: BucketKey)
    requires UniqueRefs(tables)
    ensures NoDup(Map((u: Table) => u.ref, Bucket(tables, key)))
  {
    hide KeyAt;
    var bucket := Bucket(tables, key);
    NoDupFilter((t: Table) => key.index < |t.tokens| && KeyAt(t, key.index) == key, tables);
    forall i, k | 0 <= i < k < |bucket| ensures bucket[i].ref != bucket[k].ref {
      assert bucket[i] in bucket && bucket[k] in bucket;
      var x :| 0 <= x < |tables| && tables[x] == bucket[i];
      var y :| 0 <= y < |tables| && tables[y] == bucket[k];
    }
  }

  /** A member list is a family exactly when it lists the tables that agree with some table but at one position. */
  lemma FamilyExactly(tables: seq<Table>, refs: seq<nat>, index: nat)
    requires UniqueRefs(tables)
    ensures IsFamily(tables, refs, index) <==> exists t :: AgreeingTables(tables, t, index, refs)
  {
    hide MemberRefs, Bucket, KeyAt, AgreeExcept;
    if IsFamily(tables, refs, index) {
      var key: BucketKey :| key.index == index && Varies(Bucket(tables, key), index)
          && MemberRefs(Bucket(tables, key)) == refs;
      var a, b :| a in Bucket(tables, key) && b in Bucket(tables, key) && index < |a.tokens| && index < |b.tokens|
          && a.tokens[index] != b.tokens[index];
      InBucket(tables, key, a);
      MemberRefsAre(tables, key);
      BucketAgrees(tables, a, index);
      assert AgreeingTables(tables, a, index, refs);
    }
    if t :| AgreeingTables(tables, t, index, refs) {
      AgreeingIsFamily(tables, t, index, refs);
    }
  }

  lemma AgreeingIsFamily(tables: seq<Table>, t: Table, index: nat, refs: seq<nat>)
    requires UniqueRefs(tables) && AgreeingTables(tables, t, index, refs)
    ensures IsFamily(tables, refs, index)
  {
    hide MemberRefs, Bucket, KeyAt, AgreeExcept;
    var key := KeyAt(t, index);
    KeyIndex(t, index);
    MemberRefsAre(tables, key);
    BucketAgrees(tables, t, index);
    AscendingIsUnique((r: nat) => r, refs, MemberRefs(Bucket(tables, key)));
    forall u | AgreeExcept(t, u, index) ensures |u.tokens| == |t.tokens| {
      SameLength(t, u, index);
    }
    var u :| u in tables && AgreeExcept(t, u, index) && u.tokens[index] != t.tokens[index];
    ItselfAgrees(t, index);
    assert t in Bucket(tables, key) && u in Bucket(tables, key);
  }

  lemma ItselfAgrees(t: Table, index: nat)
    ensures AgreeExcept(t, t, index)
  {
  }

  // ----- detection as it runs -----

  /** Buckets filled so far: all positions of the first `k` tables, and the first `n` of the next. */
  ghost predicate Filled(tables: seq<Table>, k: nat, n: nat, buckets: map<BucketKey, seq<Table>>)
    requires k <= |tables|
  {
    && (forall key :: key in buckets ==> buckets[key] == BucketSoFar(tables, k, n, key))
    && (forall key :: key !in buckets ==> BucketSoFar(tables, k, n, key) == [])
  }

  function BucketSoFar(tables: seq<Table>, k: nat, n: nat, key: BucketKey): seq<Table>
    requires k <= |tables|
  {
    Bucket(tables[..k], key)
    + if k < |tables| && key.index < n && key.index < |tables[k].tokens|
        && KeyAt(tables[k], key.index) == key then [tables[k]] else []
  }

  lemma NextTable(tables: seq<Table>, k: nat, key: BucketKey)
    requires k < |tables|
    ensures BucketSoFar(tables, k + 1, 0, key) == BucketSoFar(tables, k, |tables[k].tokens|, key)
  {
    hide KeyAt;
    assert tables[..k + 1] == tables[..k] + [tables[k]];
    FilterConcat((t: Table) => key.index < |t.tokens| && KeyAt(t, key.index) == key, tables[..k], [tables[k]]);
  }

  lemma NextPosition(tables: seq<Table>, k: nat, n: nat, key: BucketKey)
    requires k < |tables| && n < |tables[k].tokens|
    ensures BucketSoFar(tables, k, n + 1, key)
         == BucketSoFar(tables, k, n, key) + if key == KeyAt(tables[k], n) then [tables[k]] else []
  {
    hide Template;
  }

  method FillBuckets(tables: seq<Table>) returns (buckets: map<BucketKey, seq<Table>>)
    ensures Filled(tables, |tables|, 0, buckets)
  {
    hide BucketSoFar, KeyAt;
    buckets := map[];
    forall key ensures BucketSoFar(tables, 0, 0, key) == [] {
      NothingYet(tables, key);
    }
    for k := 0 to |tables|
      invariant Filled(tables, k, 0, buckets)
    {
      for n := 0 to |tables[k].tokens|
        invariant Filled(tables, k, n, buckets)
      {
        var key := KeyAt(tables[k], n);
        forall other ensures BucketSoFar(tables, k, n + 1, other)
                             == BucketSoFar(tables, k, n, other) + if other == key then [tables[k]] else [] {
          NextPosition(tables, k, n, other);
        }
        buckets := buckets[key := (if key in buckets then buckets[key] else []) + [tables[k]]];
      }
      forall key ensures BucketSoFar(tables, k + 1, 0, key) == BucketSoFar(tables, k, |tables[k].tokens|, key) {
        NextTable(tables, k, key);
      }
    }
  }

  lemma NothingYet(tables: seq<Table>, key: BucketKey)
    ensures BucketSoFar(tables, 0, 0, key) == []
  {
    assert tables[..0] == [];
  }

  function ValuesAt(bucket: seq<Table>, index: nat): set<nat> {
    set t | t in bucket && index < |t.tokens| :: t.tokens[index]
  }

  lemma ManyValues(bucket: seq<Table>, index: nat)
    ensures |ValuesAt(bucket, index)| >= 2 <==> Varies(bucket, index)
  {
    var values := ValuesAt(bucket, index);
    if |values| >= 2 {
      var x :| x in values;
      assert |values - {x}| >= 1;
      var y :| y in values - {x};
      var a :| a in bucket && index < |a.tokens| && a.tokens[index] == x;
      var b :| b in bucket && index < |b.tokens| && b.tokens[index] == y;
    }
    if a, b :| a in bucket && b in bucket && index < |a.tokens| && index < |b.tokens|
               && a.tokens[index] != b.tokens[index] {
      assert {a.tokens[index], b.tokens[index]} <= values;
      SmallerSet({a.tokens[index], b.tokens[index]}, values);
    }
  }

  lemma {:induction false} SmallerSet(a: set<nat>, b: set<nat>)
    requires a <= b
    ensures |a| <= |b|
  {
    if a != {} {
      var x :| x in a;
      SmallerSet(a - {x}, b - {x});
    }
  }

  /** Member lists with their varying positions: exactly the families, whatever order buckets are visited in. */
  method BuildFamilies(tables: seq<Table>) returns (families: map<seq<nat>, nat>)
    requires UniqueRefs(tables)
    ensures forall refs: seq<nat>, index: nat ::
            (refs in families && families[refs] == index) <==> IsFamily(tables, refs, index)
  {
    hide MemberRefs, Varies, Bucket, ValuesAt;
    var buckets := FillBuckets(tables);
    families := map[];
    var todo := buckets.Keys;
    assert tables[..|tables|] == tables;
    while todo != {}
      invariant todo <= buckets.Keys
      invariant forall refs: seq<nat> :: refs in families ==> Found(tables, buckets.Keys - todo, refs, families[refs])
      invariant forall key :: key in buckets && key !in todo && Varies(Bucket(tables, key), key.index) ==>
                MemberRefs(Bucket(tables, key)) in families
      decreases |todo|
    {
      var key :| key in todo;
      var bucket := buckets[key];
      WholeBucket(tables, key);
      assert bucket == Bucket(tables, key);
      ManyValues(bucket, key.index);
      if |ValuesAt(bucket, key.index)| >= 2 {
        var refs := MemberRefs(bucket);
        if refs !in families || key.index < families[refs] {
          families := families[refs := key.index];
        }
      }
      todo := todo - {key};
    }
    forall refs: seq<nat>, index: nat
        ensures (refs in families && families[refs] == index) <==> IsFamily(tables, refs, index) {
      if IsFamily(tables, refs, index) {
        var key: BucketKey :| key.index == index && Varies(Bucket(tables, key), index)
            && MemberRefs(Bucket(tables, key)) == refs;
        WholeBucket(tables, key);
        VariesHasMember(Bucket(tables, key), index);
        assert key in buckets;
        IndexIsUnique(tables, refs, families[refs], index);
      }
    }
  }

  ghost predicate Found(tables: seq<Table>, done: set<BucketKey>, refs: seq<nat>, index: nat) {
    exists key :: key in done && key.index == index && Varies(Bucket(tables, key),
                                                              index) && MemberRefs(Bucket(tables, key)) == refs
  }

  lemma VariesHasMember(bucket: seq<Table>, index: nat)
    requires Varies(bucket, index)
    ensures bucket != []
  {
  }

  lemma WholeBucket(tables: seq<Table>, key: BucketKey)
    ensures BucketSoFar(tables, |tables|, 0, key) == Bucket(tables, key)
  {
    assert tables[..|tables|] == tables;
  }

  // ----- expansion of a selection -----

  type FamilyList = seq<seq<nat>>

  predicate Meets(selected: set<nat>, members: seq<nat>) {
    exists m :: m in members && m in selected
  }

  /** Every family that the ranked selection touches is added in full. */
  function Expand(families: FamilyList, selected: set<nat>): set<nat> {
    selected + set f, m | f in families && Meets(selected, f) && m in f :: m
  }

  /** The families reported with the expanded selection. */
  function Reported(families: FamilyList, selected: set<nat>): seq<seq<nat>> {
    Filter((f: seq<nat>) => Meets(Expand(families, selected), f), families)
  }

  predicate InFull(members: seq<nat>, selected: set<nat>) {
    forall m :: m in members ==> m in selected
  }

  /** The elements stand in the order that they have in the ranking. */
  ghost predicate InOrderOf(ranked: seq<nat>, some: seq<nat>) {
    forall i, k :: 0 <= i < k < |some| ==> RankedBefore(ranked, some[i], some[k])
  }

  ghost predicate RankedBefore(ranked: seq<nat>, a: nat, b: nat) {
    exists x, y :: 0 <= x < y < |ranked| && ranked[x] == a && ranked[y] == b
  }

  lemma {:induction false} FilterInOrder(p: nat -> bool, ranked: seq<nat>)
    ensures InOrderOf(ranked, Filter(p, ranked))
  {
    if ranked != [] {
      var rest := Filter(p, ranked[1..]);
      FilterInOrder(p, ranked[1..]);
      forall a, b | RankedBefore(ranked[1..], a, b) ensures RankedBefore(ranked, a, b) {
        var x, y :| 0 <= x < y < |ranked[1..]| && ranked[1..][x] == a && ranked[1..][y] == b;
        assert ranked[x + 1] == a && ranked[y + 1] == b;
      }
      forall b | b in ranked[1..] ensures RankedBefore(ranked, ranked[0], b) {
        var y :| 0 <= y < |ranked[1..]| && ranked[1..][y] == b;
        assert ranked[0] == ranked[0] && ranked[y + 1] == b;
      }
      hide RankedBefore;
      var some := Filter(p, ranked);
      forall i, k | 0 <= i < k < |some| ensures RankedBefore(ranked, some[i], some[k]) {
        if p(ranked[0]) && i == 0 {
          assert rest[k - 1] in rest;
        }
      }
    }
  }

  /** The selection of `retrieve`, in ranked order. */
  method ExpandSelection(families: FamilyList, ranked: seq<nat>, selected: seq<nat>)
    returns (all: seq<nat>, reported: seq<seq<nat>>)
    requires NoDup(ranked) && NoDup(selected) && (forall r :: r in selected ==> r in ranked)
    requires forall f, m :: f in families && m in f ==> m in ranked
    ensures SetOf(all) == Expand(families, SetOf(selected)) && NoDup(all) && selected <= all
    ensures forall r :: r in all <==>
              r in selected || exists f, m :: f in families && m in f && m in selected && r in f
    ensures InOrderOf(ranked, all[|selected|..])
    ensures reported == Reported(families, SetOf(selected))
    ensures forall f :: f in reported <==> f in families && exists m :: m in f && m in all
  {
    var chosen := SetOf(selected);
    var expanded: set<nat> := {};
    for i := 0 to |families|
      invariant expanded == set f, m | f in families[..i] && Meets(chosen, f) && m in f :: m
    {
      assert families[..i + 1] == families[..i] + [families[i]];
      if Meets(chosen, families[i]) {
        expanded := expanded + SetOf(families[i]);
      }
    }
    assert families[..|families|] == families;
    var added := Filter((r: nat) => r in expanded && r !in chosen, ranked);
    NoDupFilter((r: nat) => r in expanded && r !in chosen, ranked);
    NoDupConcat(selected, added);
    all := selected + added;
    FilterInOrder((r: nat) => r in expanded && r !in chosen, ranked);
    assert all[|selected|..] == added;
    hide InOrderOf;
    assert SetOf(all) == Expand(families, chosen);
    ExpandedAre(families, selected, all);
    reported := Filter((f: seq<nat>) => Meets(SetOf(all), f), families);
    FilterCong((f: seq<nat>) => Meets(SetOf(all), f), (f: seq<nat>) => Meets(Expand(families, chosen), f), families);
  }

  lemma ExpandedAre(families: FamilyList, selected: seq<nat>, all: seq<nat>)
    requires SetOf(all) == Expand(families, SetOf(selected))
    ensures forall r :: r in all <==>
              r in selected || exists f, m :: f in families && m in f && m in selected && r in f
  {
    forall r ensures r in all <==>
                     r in selected || exists f, m :: f in families && m in f && m in selected && r in f {
      assert r in all <==> r in SetOf(all);
      if f, m :| f in families && m in f && m in selected && r in f {
        assert Meets(SetOf(selected), f);
      }
    }
  }

  /** Families that the selection touched before expansion are returned in full. */
  lemma TouchedAreFull(families: FamilyList, selected: set<nat>, f: seq<nat>)
    requires f in families && Meets(selected, f)
    ensures InFull(f, Expand(families, selected)) && f in Reported(families, selected)
  {
    var m :| m in f && m in selected;
    assert m in Expand(families, selected);
  }

  /** A family that the selection misses but that shares a member with a family it meets. */
  ghost predicate Brushed(families: FamilyList, selected: set<nat>, g: seq<nat>) {
    !Meets(selected, g) && exists f, m :: f in families && Meets(selected, f) && m in f && m in g
  }

  /** Every member lies in some family that the selection meets. */
  ghost predicate PiecedTogether(families: FamilyList, selected: set<nat>, g: seq<nat>) {
    forall m :: m in g ==> exists f :: f in families && Meets(selected, f) && m in f
  }

  /** All reported families are returned in full exactly when every family that the selection only brushes
      is pieced together from families that it meets. */
  lemma AllFullExactly(families: FamilyList, selected: set<nat>)
    ensures (forall g :: g in Reported(families, selected) ==> InFull(g, Expand(families, selected)))
        <==> (forall g :: g in families && Brushed(families, selected, g) ==> PiecedTogether(families, selected, g))
  {
    hide InFull, Expand, Reported;
    forall g | g in families && g in Reported(families, selected) && !Brushed(families, selected, g)
      ensures InFull(g, Expand(families, selected)) {
      ReportedIsMetOrBrushed(families, selected, g);
      TouchedAreFull(families, selected, g);
    }
    forall g | g in families && Brushed(families, selected, g)
      ensures g in Reported(families, selected)
              && (InFull(g, Expand(families, selected)) <==> PiecedTogether(families, selected, g)) {
      ReportedIsMetOrBrushed(families, selected, g);
      BrushedIsFullExactly(families, selected, g);
    }
    ReportedAreFamilies(families, selected);
  }

  lemma ReportedAreFamilies(families: FamilyList, selected: set<nat>)
    ensures forall g :: g in Reported(families, selected) ==> g in families
  {
  }

  lemma ReportedIsMetOrBrushed(families: FamilyList, selected: set<nat>, g: seq<nat>)
    requires g in families
    ensures g in Reported(families, selected) <==> Meets(selected, g) || Brushed(families, selected, g)
  {
    var all := Expand(families, selected);
    if Meets(selected, g) {
      TouchedAreFull(families, selected, g);
    } else if Brushed(families, selected, g) {
      var f, m :| f in families && Meets(selected, f) && m in f && m in g;
      assert m in all;
    } else {
      assert forall m :: m in g ==> m !in all;
    }
  }

  lemma BrushedIsFullExactly(families: FamilyList, selected: set<nat>, g: seq<nat>)
    requires !Meets(selected, g)
    ensures InFull(g, Expand(families, selected)) <==> PiecedTogether(families, selected, g)
  {
  }

  ghost predicate DisjointFamilies(families: FamilyList) {
    forall f, g, m :: f in families && g in families && m in f && m in g ==> f == g
  }

  lemma DisjointFamiliesAreFull(families: FamilyList, selected: set<nat>, f: seq<nat>)
    requires DisjointFamilies(families) && f in Reported(families, selected)
    ensures InFull(f, Expand(families, selected))
  {
    var m :| m in f && m in Expand(families, selected);
    if m in selected {
      TouchedAreFull(families, selected, f);
    } else {
      var g :| g in families && Meets(selected, g) && m in g;
      TouchedAreFull(families, selected, g);
    }
  }

  /** Three tables whose names differ at one position each: a_1, a_2 and b_2. */
  const CROSSING := [Table(1, 0, [0, 1]), Table(2, 0, [0, 2]), Table(3, 0, [5, 2])]

  predicate Fits(key: BucketKey, t: Table) {
    key.index < |t.tokens| && KeyAt(t, key.index) == key
  }

  lemma CrossingBucketIs(key: BucketKey)
    ensures Bucket(CROSSING, key) == (if Fits(key, CROSSING[0]) then [CROSSING[0]] else [])
                                     + (if Fits(key, CROSSING[1]) then [CROSSING[1]] else [])
                                     + (if Fits(key, CROSSING[2]) then [CROSSING[2]] else [])
  {
    hide KeyAt;
    var a, b, c := CROSSING[0], CROSSING[1], CROSSING[2];
    var keep := (t: Table) => key.index < |t.tokens| && KeyAt(t, key.index) == key;
    assert CROSSING[1..] == [b, c] && [b, c][1..] == [c];
    assert Filter(keep, [c]) == if Fits(key, c) then [c] else [];
    assert Filter(keep, [b, c]) == (if Fits(key, b) then [b] else []) + Filter(keep, [c]);
    assert Filter(keep, CROSSING) == (if Fits(key, a) then [a] else []) + Filter(keep, [b, c]);
  }

  lemma TwoTokens(a: Table, b: Table, key: BucketKey)
    requires a.signature == b.signature && |a.tokens| == |b.tokens| == 2
    ensures Fits(key, a) ==> key == KeyAt(a, key.index) && key.index < 2
    ensures Fits(key, a) && Fits(key, b) ==> a.tokens[1 - key.index] == b.tokens[1 - key.index]
    ensures Fits(key, a) && key.index < 2 && a.tokens[1 - key.index] == b.tokens[1 - key.index] ==> Fits(key, b)
  {
    hide KeyAt;
    SameKeyIsAgreement(a, b, key.index);
  }

  lemma KeyFits(t: Table, index: nat)
    requires index < |t.tokens|
    ensures Fits(KeyAt(t, index), t) && KeyAt(t, index).index == index
  {
  }

  lemma CrossingFits(key: BucketKey)
    ensures Fits(key, CROSSING[0]) && Fits(key, CROSSING[1]) <==> key == KeyAt(CROSSING[0], 1)
    ensures Fits(key, CROSSING[1]) && Fits(key, CROSSING[2]) <==> key == KeyAt(CROSSING[1], 0)
    ensures !(Fits(key, CROSSING[0]) && Fits(key, CROSSING[2]))
  {
    hide KeyAt, Fits;
    var a, b, c := CROSSING[0], CROSSING[1], CROSSING[2];
    KeyFits(a, 1);
    KeyFits(b, 0);
    TwoTokens(a, b, key);
    TwoTokens(b, c, key);
    TwoTokens(a, c, key);
  }

  lemma CrossingBucket(key: BucketKey)
    ensures Varies(Bucket(CROSSING, key), key.index) <==> key == KeyAt(CROSSING[0], 1) || key == KeyAt(CROSSING[1], 0)
    ensures key == KeyAt(CROSSING[0], 1) ==> Bucket(CROSSING, key) == [CROSSING[0], CROSSING[1]]
    ensures key == KeyAt(CROSSING[1], 0) ==> Bucket(CROSSING, key) == [CROSSING[1], CROSSING[2]]
  {
    hide KeyAt, Bucket, Fits;
    var bucket := Bucket(CROSSING, key);
    CrossingBucketIs(key);
    CrossingFits(key);
    KeyIndex(CROSSING[0], 1);
    KeyIndex(CROSSING[1], 0);
    if key == KeyAt(CROSSING[0], 1) || key == KeyAt(CROSSING[1], 0) {
      assert bucket[0] in bucket && bucket[1] in bucket && bucket[0].tokens[key.index] != bucket[1].tokens[key.index];
    } else {
      assert |bucket| <= 1;
      assert forall a, b :: a in bucket && b in bucket ==> a == b;
    }
  }

  lemma CrossingRefs()
    ensures MemberRefs([CROSSING[0], CROSSING[1]]) == [1, 2] && MemberRefs([CROSSING[1], CROSSING[2]]) == [2, 3]
  {
    var ref, key := (t: Table) => t.ref, (r: nat) => r;
    assert Map(ref, [CROSSING[0], CROSSING[1]]) == [1, 2] && Map(ref, [CROSSING[1], CROSSING[2]]) == [2, 3];
    assert [1, 2][1..] == [2] && [2, 3][1..] == [3];
    assert SortBy(key, [2]) == [2] && SortBy(key, [3]) == [3];
    assert SortBy(key, [1, 2]) == [1, 2] && SortBy(key, [2, 3]) == [2, 3];
  }

  /** Detection finds two overlapping families among these tables. */
  lemma CrossingFamilies(refs: seq<nat>, index: nat)
    ensures UniqueRefs(CROSSING)
    ensures IsFamily(CROSSING, refs, index) <==> (refs == [1, 2] && index == 1) || (refs == [2, 3] && index == 0)
  {
    hide Varies, Bucket, MemberRefs, Template;
    CrossingRefs();
    CrossingBucket(KeyAt(CROSSING[0], 1));
    CrossingBucket(KeyAt(CROSSING[1], 0));
    if IsFamily(CROSSING, refs, index) {
      var key: BucketKey :| key.index == index && Varies(Bucket(CROSSING, key), index)
          && MemberRefs(Bucket(CROSSING, key)) == refs;
      CrossingBucket(key);
    }
  }

  /** Detected families may overlap, and then one may be reported without all of its members: asking for
      table 1 alone brings in [1, 2] and reports [2, 3] without table 3. */
  lemma OverlapIsNotFull()
    ensures UniqueRefs(CROSSING) && IsFamily(CROSSING, [1, 2], 1) && IsFamily(CROSSING, [2, 3], 0)
    ensures forall refs, index :: IsFamily(CROSSING, refs, index) ==> refs in [[1, 2], [2, 3]]
    ensures var families := [[1, 2], [2, 3]];
            [2, 3] in Reported(families, {1}) && !InFull([2, 3], Expand(families, {1}))
  {
    hide IsFamily;
    CrossingFamilies([1, 2], 1);
    CrossingFamilies([2, 3], 0);
    forall refs, index | IsFamily(CROSSING, refs, index) ensures refs in [[1, 2], [2, 3]] {
      CrossingFamilies(refs, index);
    }
    var families := [[1, 2], [2, 3]];
    assert 1 in [1, 2] && Meets({1}, [1, 2]);
    assert 2 in [1, 2] && 2 in Expand(families, {1});
    assert 2 in [2, 3] && !Meets({1}, [2, 3]);
    assert 3 in [2, 3] && 3 !in Expand(families, {1});
  }
}
