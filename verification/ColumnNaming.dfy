/** Naming of carried columns: one column per physical column of a logical source.
    Models the first half of `_convert` in ontology_core/inference_to_relational.py. */
module ColumnNaming {
  import opened SeqOps
  import opened Sql
  import opened RelationalPlan
  import opened JoinOrder
  import opened InferredProgram

  type Naming = map<Field, Column>

  /** Every field the program mentions: `needed` before families widen it. */
  function Mentioned(p: Program): set<Field> {
    (set f | f in p.requested) + (set f | f in p.groupBy)
    + (set j | j in p.joins :: j.left) + (set j | j in p.joins :: j.right)
    + (set item, f | item in p.filters && f in Leaves(item.pred) :: f)
    + (set d | d in p.decisions :: d.partition)
    + (set a | a in p.aggregations && a.source.Some? :: a.source.value)
  }

  /** The physical column of a logical source that a field reads. */
  datatype Slot = Slot(source: Key, physical: Name)

  function SlotOf(p: Program, f: Field): Slot {
    Slot(KeyOf(p, f.owner), f.physical)
  }

  /** The program mentions the slot of the field, through this field or another member's. */
  ghost predicate Asked(p: Program, f: Field) {
    exists g :: g in Mentioned(p) && SlotOf(p, g) == SlotOf(p, f)
  }

  /** Two fields share a column exactly when they read the same physical column of the same source,
      a family carries a column for all of its members or for none, and nothing is carried unasked. */
  ghost predicate GoodNaming(p: Program, names: Naming) {
    && Mentioned(p) <= names.Keys <= FieldsOf(p)
    && (forall f :: f in names ==> names[f].Carried? && Asked(p, f))
    && (forall f, g :: f in names && g in names ==> (names[f] == names[g] <==> SlotOf(p, f) == SlotOf(p, g)))
    && (forall f, g :: f in names && g in FieldsOf(p) && SlotOf(p, f) == SlotOf(p, g) ==> g in names)
  }

  // ----- fields of valid catalogs -----

  lemma OwnerListed(p: Program, f: Field)
    requires ValidCatalog(p.objects) && f in FieldsOf(p)
    ensures exists o :: o in p.objects && o.ref == f.owner && f in o.fields
  {
    var o :| o in p.objects && f in o.fields;
  }

  lemma SameOwnerSameField(p: Program, f: Field, g: Field)
    requires ValidCatalog(p.objects) && f in FieldsOf(p) && g in FieldsOf(p)
    requires f.owner == g.owner && f.physical == g.physical
    ensures f == g
  {
    hide NoDup;
    var o :| o in p.objects && f in o.fields;
    var q :| q in p.objects && g in q.fields;
    assert o.ref == q.ref;
    SameObject(p.objects, o, q);
  }

  lemma SameObject(objects: seq<TableObject>, o: TableObject, q: TableObject)
    requires UniqueObjects(objects) && o in objects && q in objects && o.ref == q.ref
    ensures o == q
  {
    var i :| 0 <= i < |objects| && objects[i] == o;
    var k :| 0 <= k < |objects| && objects[k] == q;
  }

  lemma MentionedKnown(p: Program)
    requires FieldsKnown(p)
    ensures Mentioned(p) <= FieldsOf(p)
  {
  }

  /** Fields with the same slot have the same type. */
  lemma SameSlotSameType(p: Program, f: Field, g: Field)
    requires ValidCatalog(p.objects) && ValidFamilies(p) && f in FieldsOf(p) && g in FieldsOf(p)
             && SlotOf(p, f) == SlotOf(p, g)
    ensures f.dtype == g.dtype
  {
    OwnerListed(p, f);
    OwnerListed(p, g);
    var o :| o in p.objects && o.ref == f.owner && f in o.fields;
    var q :| q in p.objects && q.ref == g.owner && g in q.fields;
    if f.owner == g.owner {
      SameOwnerSameField(p, f, g);
    } else {
      SameKeySameFamily(p, f.owner, g.owner);
      var family :| family in p.families && f.owner in family.members && g.owner in family.members;
      assert SameColumns(o, q);
      var b :| b in q.fields && b.physical == f.physical && b.dtype == f.dtype;
      assert b == g;
    }
  }

  lemma SameKeySameFamily(p: Program, a: Ref, b: Ref)
    requires ValidFamilies(p) && a in Refs(p.objects) && b in Refs(p.objects) && a != b && KeyOf(p, a) == KeyOf(p, b)
    ensures exists f :: f in p.families && a in f.members && b in f.members
  {
    FamilyOfSound(p.families, a);
    FamilyOfSound(p.families, b);
    if FamilyOf(p.families, a).Some? && FamilyOf(p.families, b).Some? {
      var f :| f in p.families && a in f.members && f.ref == FamilyOf(p.families, a).value;
      var g :| g in p.families && b in g.members && g.ref == FamilyOf(p.families, b).value;
      SameFamily(p, f, g);
    }
  }

  // ----- the naming loops -----

  function FindPhysical(fields: seq<Field>, name: Name): (r: Option<Field>)
    ensures r.Some? ==> r.value in fields && r.value.physical == name
    ensures r.None? ==> forall f :: f in fields ==> f.physical != name
  {
    if fields == [] then None
    else if fields[0].physical == name then Some(fields[0])
    else FindPhysical(fields[1..], name)
  }

  lemma MinName(s: set<nat>)
    requires s != {}
    ensures exists x :: x in s && forall y :: y in s ==> x <= y
    decreases s
  {
    var x :| x in s;
    var smaller := set y | y in s && y < x;
    if smaller != {} {
      assert x in s && x !in smaller;
      MinName(smaller);
      var least :| least in smaller && forall y :: y in smaller ==> least <= y;
      forall y | y in s ensures least <= y {
        assert y < x ==> y in smaller;
      }
      assert least in s;
    } else {
      forall y | y in s ensures x <= y {
        assert y !in smaller;
      }
    }
  }

  lemma MinField(s: set<Field>)
    requires s != {}
    ensures exists f :: f in s && forall g :: g in s ==> f.ref <= g.ref
  {
    var refs := set f | f in s :: f.ref;
    var f :| f in s;
    assert f.ref in refs;
    MinName(refs);
    var least :| least in refs && forall y :: y in refs ==> least <= y;
    var g :| g in s && g.ref == least;
    assert forall h :: h in s ==> h.ref in refs;
  }

  /** A column is taken by one slot, and a slot has one column. */
  ghost predicate OneColumnPerSlot(p: Program, names: Naming, counter: nat) {
    && (forall f :: f in names ==> names[f].Carried? && names[f].n <= counter)
    && (forall f, g :: f in names && g in names ==> (names[f] == names[g] <==> SlotOf(p, f) == SlotOf(p, g)))
  }

  ghost predicate Within(p: Program, needed: set<Field>, names: Naming) {
    Mentioned(p) <= needed <= FieldsOf(p) && names.Keys <= needed && forall f :: f in needed ==> Asked(p, f)
  }

  /** No half-named slot: a named field brings every field of its slot with it. */
  ghost predicate SlotsComplete(p: Program, names: Naming) {
    forall f, g :: f in names && g in FieldsOf(p) && SlotOf(p, f) == SlotOf(p, g) ==> g in names
  }

  /** Needed fields of the families before `i` are named; so far only those. */
  ghost predicate FamiliesNamed(p: Program, needed: set<Field>, names: Naming, i: nat)
    requires i <= |p.families|
  {
    && (forall f :: f in names ==> exists k :: 0 <= k < i && f.owner in p.families[k].members)
    && (forall f, k :: f in needed && 0 <= k < i && f.owner in p.families[k].members ==> f in names)
  }

  lemma FreshColumn(p: Program, names: Naming, counter: nat, f: Field)
    requires OneColumnPerSlot(p, names, counter)
    requires forall g :: g in names ==> SlotOf(p, g) != SlotOf(p, f)
    ensures OneColumnPerSlot(p, names[f := Carried(counter + 1)], counter + 1)
  {
    var more := names[f := Carried(counter + 1)];
    forall g, h | g in more && h in more ensures more[g] == more[h] <==> SlotOf(p, g) == SlotOf(p, h) {
    }
  }

  lemma SharedColumn(p: Program, names: Naming, counter: nat, f: Field, g: Field)
    requires OneColumnPerSlot(p, names, counter) && g in names && names[g] == Carried(counter)
    requires SlotOf(p, g) == SlotOf(p, f)
    ensures OneColumnPerSlot(p, names[f := Carried(counter)], counter)
  {
    var more := names[f := Carried(counter)];
    forall a, b | a in more && b in more ensures more[a] == more[b] <==> SlotOf(p, a) == SlotOf(p, b) {
    }
  }

  method NameMembers(p: Program, family: Family, name: Name, needed: set<Field>, names: Naming, counter: nat)
      returns (ok: bool, needed': set<Field>, names': Naming)
    requires ValidProgram(p) && family in p.families
    requires Within(p, needed, names) && OneColumnPerSlot(p, names, counter)
    requires forall f :: f in names ==> SlotOf(p, f) != Slot(family.ref, name)
    requires exists f :: f in needed && f.owner in family.members && f.physical == name
    ensures ok
    ensures Within(p, needed', names') && OneColumnPerSlot(p, names', counter + 1)
    ensures forall f :: f in names' <==> f in names || (f in FieldsOf(p) && f.owner in family.members
                                                        && f.physical == name)
    ensures forall f :: f in needed' <==> f in needed || (f in FieldsOf(p) && f.owner in family.members
                                                          && f.physical == name)
  {
    hide ValidProgram, FieldsOf, SlotOf, KeyOf, OneColumnPerSlot, Mentioned, FindPhysical, FindObject, Asked;
    ghost var asked :| asked in needed && asked.owner in family.members && asked.physical == name;
    MemberSlot(p, family, asked);
    needed', names' := needed, names;
    for j := 0 to |family.members|
      invariant Within(p, needed', names')
      invariant forall f :: f in names' <==> f in names || (f in FieldsOf(p) && f.owner in family.members[..j]
                                                            && f.physical == name)
      invariant forall f :: f in needed' <==> f in needed || (f in FieldsOf(p) && f.owner in family.members[..j]
                                                              && f.physical == name)
      invariant if j == 0 then names' == names
                else OneColumnPerSlot(p, names', counter + 1) &&
                     exists g :: g in names' && names'[g] == Carried(counter
                                                                     + 1) && SlotOf(p, g) == Slot(family.ref, name)
    {
      var m := family.members[j];
      assert m in family.members;
      var owner := FindObject(p.objects, m);
      MemberColumn(p, family, m, name);
      var field := FindPhysical(owner.value.fields, name);
      if field.None? {
        ok := false;
        return;
      }
      var f := field.value;
      SameSlotAsked(p, asked, f);
      if j == 0 {
        FreshColumn(p, names', counter, f);
      } else {
        ghost var g :| g in names' && names'[g] == Carried(counter + 1) && SlotOf(p, g) == Slot(family.ref, name);
        SharedColumn(p, names', counter + 1, f, g);
      }
      needed' := needed' + {f};
      names' := names'[f := Carried(counter + 1)];
      assert family.members[..j + 1] == family.members[..j] + [m];
      assert names'[f] == Carried(counter + 1);
    }
    assert family.members[..|family.members|] == family.members;
    ok := true;
  }

  lemma MemberSlot(p: Program, family: Family, f: Field)
    requires ValidProgram(p) && family in p.families && f.owner in family.members
    ensures SlotOf(p, f) == Slot(family.ref, f.physical)
  {
    hide ValidCatalog, FieldsKnown, ValidFilters, JoinsAllowed;
    MemberKey(p, family, f.owner);
  }

  lemma SameSlotAsked(p: Program, f: Field, g: Field)
    requires Asked(p, f) && SlotOf(p, f) == SlotOf(p, g)
    ensures Asked(p, g)
  {
  }

  // Every member of a valid family has every column that some member has.
  // Every member carries the column that one of them has.
  lemma CarriedByMember(p: Program, family: Family, m: Ref, name: Name, q: TableObject) returns (b: Field)
    requires ValidProgram(p) && family in p.families && m in family.members && q in p.objects && q.ref == m
    requires exists f :: f in FieldsOf(p) && f.owner in family.members && f.physical == name
    ensures b in q.fields && b.physical == name
  {
    hide ValidCatalog, FieldsKnown, ValidFilters, JoinsAllowed, FieldsOf;
    var f :| f in FieldsOf(p) && f.owner in family.members && f.physical == name;
    OwnerListed(p, f);
    var o :| o in p.objects && o.ref == f.owner && f in o.fields;
    assert SameColumns(o, q);
    b :| b in q.fields && b.physical == f.physical && b.dtype == f.dtype;
  }

  lemma CatalogFinds(objects: seq<TableObject>, o: TableObject)
    requires ValidCatalog(objects) && o in objects
    ensures FindObject(objects, o.ref) == Some(o)
  {
    hide FindObject;
    FindObjectOf(objects, o);
  }

  lemma FieldOfObject(p: Program, o: TableObject, f: Field)
    requires ValidCatalog(p.objects) && o in p.objects && f in o.fields
    ensures f in FieldsOf(p) && f.owner == o.ref
  {
  }

  lemma MemberColumn(p: Program, family: Family, m: Ref, name: Name)
    requires ValidProgram(p) && family in p.families && m in family.members
    requires exists f :: f in FieldsOf(p) && f.owner in family.members && f.physical == name
    ensures FindObject(p.objects, m).Some?
    ensures FindPhysical(FindObject(p.objects, m).value.fields, name).Some?
    ensures var c := FindPhysical(FindObject(p.objects, m).value.fields, name).value;
            && c in FieldsOf(p) && c.owner == m && c.physical == name && SlotOf(p, c) == Slot(family.ref, name)
            && forall g :: g in FieldsOf(p) && g.owner == m && g.physical == name ==> g == c
  {
    hide FieldsKnown, ValidFilters, JoinsAllowed, UniqueObjects, FindPhysical, FindObject, NoDup, KeyOf, FieldsOf,
         ValidCatalog, ValidFamilies;
    var q := MemberObject(p, family, m);
    CatalogFinds(p.objects, q);
    var b := CarriedByMember(p, family, m, name, q);
    var c := FindPhysical(q.fields, name).value;
    FieldOfObject(p, q, c);
    MemberKey(p, family, m);
    forall g | g in FieldsOf(p) && g.owner == m && g.physical == name ensures g == c {
      SameOwnerSameField(p, c, g);
    }
  }

  lemma MemberObject(p: Program, family: Family, m: Ref) returns (q: TableObject)
    requires ValidFamilies(p) && family in p.families && m in family.members
    ensures q in p.objects && q.ref == m
  {
    assert m in Refs(p.objects);
    q :| q in p.objects && q.ref == m;
  }

  lemma {:induction false} FindObjectOf(objects: seq<TableObject>, o: TableObject)
    requires UniqueObjects(objects) && o in objects
    ensures FindObject(objects, o.ref) == Some(o)
  {
    var n := |objects| - 1;
    if objects[n] != o {
      var i :| 0 <= i < |objects| && objects[i] == o;
      assert objects[..n][i] == o;
      FindObjectOf(objects[..n], o);
    }
  }

  /** Names the columns of one family, lowest physical name first. */
  method NameFamily(p: Program, i: nat, needed: set<Field>, names: Naming, counter: nat)
      returns (ok: bool, needed': set<Field>, names': Naming, counter': nat)
    requires ValidProgram(p) && i < |p.families|
    requires Within(p, needed, names) && OneColumnPerSlot(p, names, counter) && SlotsComplete(p, names)
             && FamiliesNamed(p, needed, names, i)
    ensures ok
    ensures Within(p, needed', names') && OneColumnPerSlot(p, names', counter') && SlotsComplete(p, names')
    ensures FamiliesNamed(p, needed', names', i + 1)
  {
    hide ValidProgram, FieldsOf, SlotOf, KeyOf, OneColumnPerSlot, SlotsComplete, FamiliesNamed, Mentioned, Asked;
    var family := p.families[i];
    needed', names', counter' := needed, names, counter;
    var todo := set f | f in needed && f.owner in family.members :: f.physical;
    ghost var all := todo;
    NothingYet(p, needed, names, i);
    while todo != {}
      invariant todo <= all
      invariant Within(p, needed', names') && OneColumnPerSlot(p, names', counter')
      invariant forall f :: f in names' <==> f in names || (f in FieldsOf(p) && f.owner in family.members
                                                            && f.physical in all - todo)
      invariant forall f :: f in needed' <==> f in needed || (f in FieldsOf(p) && f.owner in family.members
                                                              && f.physical in all - todo)
      decreases |todo|
    {
      MinName(todo);
      var name :| name in todo && forall other :: other in todo ==> name <= other;
      forall f | f in names' ensures SlotOf(p, f) != Slot(family.ref, name) {
        if f in names {
          OtherFamilyOtherSlot(p, needed, names, i, f);
        } else {
          assert f.physical != name;
          SlotName(p, f);
        }
      }
      ghost var some :| some in needed && some.owner in family.members && some.physical == name;
      ok, needed', names' := NameMembers(p, family, name, needed', names', counter');
      counter' := counter' + 1;
      todo := todo - {name};
    }
    FamilyComplete(p, needed, names, i, i + 1, needed', names', all);
    ok := true;
  }

  lemma NothingYet(p: Program, needed: set<Field>, names: Naming, i: nat)
    requires ValidProgram(p) && i < |p.families| && FamiliesNamed(p, needed, names, i)
    ensures forall f :: f in names ==> f.owner !in p.families[i].members
  {
  }

  lemma OtherFamilyOtherSlot(p: Program, needed: set<Field>, names: Naming, i: nat, f: Field)
    requires ValidProgram(p) && i < |p.families| && FamiliesNamed(p, needed, names, i) && f in names
    ensures SlotOf(p, f).source != p.families[i].ref
  {
    var k :| 0 <= k < i && f.owner in p.families[k].members;
    MemberKey(p, p.families[k], f.owner);
  }

  lemma SlotName(p: Program, f: Field)
    ensures SlotOf(p, f).physical == f.physical
  {
  }

  lemma FamilyComplete(p: Program, needed: set<Field>, names: Naming, i: nat, next: nat, needed': set<Field>,
          names': Naming, all: set<Name>)
    requires i < |p.families| && next == i + 1
    requires ValidProgram(p)
    requires Within(p, needed, names) && SlotsComplete(p, names) && FamiliesNamed(p, needed, names, i)
    requires all == set f | f in needed && f.owner in p.families[i].members :: f.physical
    requires forall f :: f in names' <==> f in names || (f in FieldsOf(p) && f.owner in p.families[i].members
                                                         && f.physical in all)
    requires forall f :: f in needed' <==> f in needed || (f in FieldsOf(p) && f.owner in p.families[i].members
                                                           && f.physical in all)
    ensures SlotsComplete(p, names') && FamiliesNamed(p, needed', names', next)
  {
    hide Asked, Mentioned, FieldsOf, ValidProgram, KeyOf, SlotOf;
    var family := p.families[i];
    forall f, g | f in names' && g in FieldsOf(p) && SlotOf(p, f) == SlotOf(p, g) ensures g in names' {
      if f !in names && g !in names {
        SameSlotSameFamily(p, family, f, g);
      }
    }
    forall f | f in names' ensures exists k :: 0 <= k < i + 1 && f.owner in p.families[k].members {
      if f in names {
        var k :| 0 <= k < i && f.owner in p.families[k].members;
        assert 0 <= k < i + 1;
      } else {
        assert f.owner in p.families[i].members;
      }
    }
    forall f, k | f in needed' && 0 <= k < i + 1 && f.owner in p.families[k].members ensures f in names' {
      if f in needed && k == i {
        assert f.physical in all;
      }
    }
  }

  lemma SameSlotSameFamily(p: Program, family: Family, f: Field, g: Field)
    requires ValidProgram(p) && family in p.families && f.owner in family.members
    requires f in FieldsOf(p) && g in FieldsOf(p) && SlotOf(p, f) == SlotOf(p, g)
    ensures g.owner in family.members && g.physical == f.physical
  {
    OwnerListed(p, f);
    OwnerListed(p, g);
    MemberKey(p, family, f.owner);
    if f.owner != g.owner {
      SameKeySameFamily(p, f.owner, g.owner);
      var other :| other in p.families && f.owner in other.members && g.owner in other.members;
      MemberKey(p, other, f.owner);
      SameFamily(p, family, other);
    }
  }

  ghost predicate FamiliesDone(p: Program, needed: set<Field>, names: Naming) {
    forall f, k :: f in needed && 0 <= k < |p.families| && f.owner in p.families[k].members ==> f in names
  }

  lemma LoneField(p: Program, needed: set<Field>, names: Naming, f: Field, g: Field)
    requires ValidProgram(p) && Within(p, needed, names)
    requires FamiliesDone(p, needed, names)
    requires f in needed && f !in names && g in FieldsOf(p) && SlotOf(p, f) == SlotOf(p, g)
    ensures f == g
  {
    hide Asked, Mentioned, FieldsKnown, ValidFilters, JoinsAllowed;
    OwnerListed(p, f);
    OwnerListed(p, g);
    if f.owner != g.owner {
      SameKeySameFamily(p, f.owner, g.owner);
      assert false;
    }
    SameOwnerSameField(p, f, g);
  }

  lemma NothingNamed(p: Program)
    requires FieldsKnown(p)
    ensures OneColumnPerSlot(p, map[], 0) && SlotsComplete(p, map[])
    ensures Within(p, Mentioned(p), map[]) && FamiliesNamed(p, Mentioned(p), map[], 0)
  {
    MentionedKnown(p);
  }

  lemma LoneColumn(p: Program, needed: set<Field>, names: Naming, counter: nat, f: Field, next: nat, more: Naming)
    requires next == counter + 1 && f !in names && more == names[f := Carried(next)]
    requires ValidProgram(p) && Within(p, needed, names) && f in needed && FamiliesDone(p, needed, names)
    requires OneColumnPerSlot(p, names, counter) && SlotsComplete(p, names)
    ensures OneColumnPerSlot(p, more, next) && SlotsComplete(p, more) && Within(p, needed, more)
            && FamiliesDone(p, needed, more)
  {
    hide *;
    NoOtherField(p, needed, names, f);
    FamiliesDoneGrows(p, needed, names, f, Carried(next));
    FreshColumn(p, names, counter, f);
    WithinGrows(p, needed, names, f, Carried(next));
    SlotsCompleteGrows(p, names, f, Carried(next));
  }

  lemma NoOtherField(p: Program, needed: set<Field>, names: Naming, f: Field)
    requires ValidProgram(p) && Within(p, needed, names) && f in needed && f !in names && FamiliesDone(p, needed, names)
    ensures forall g :: g in FieldsOf(p) && SlotOf(p, g) == SlotOf(p, f) ==> g == f
    ensures forall g :: g in names ==> SlotOf(p, g) != SlotOf(p, f)
  {
    hide Asked, Mentioned, FieldsOf, ValidProgram, KeyOf, SlotOf, FamiliesDone;
    forall g | g in FieldsOf(p) && SlotOf(p, g) == SlotOf(p, f) ensures g == f {
      LoneField(p, needed, names, f, g);
    }
    forall g | g in names ensures SlotOf(p, g) != SlotOf(p, f) {
      assert g in needed && g in FieldsOf(p);
    }
  }

  lemma WithinGrows(p: Program, needed: set<Field>, names: Naming, f: Field, c: Column)
    requires Within(p, needed, names) && f in needed
    ensures Within(p, needed, names[f := c])
  {
    hide FieldsOf, Asked, Mentioned;
  }

  lemma SlotsCompleteGrows(p: Program, names: Naming, f: Field, c: Column)
    requires SlotsComplete(p, names) && forall g :: g in FieldsOf(p) && SlotOf(p, g) == SlotOf(p, f) ==> g == f
    ensures SlotsComplete(p, names[f := c])
  {
    hide FieldsOf, SlotOf;
  }

  lemma FamiliesDoneGrows(p: Program, needed: set<Field>, names: Naming, f: Field, c: Column)
    requires FamiliesDone(p, needed, names)
    ensures FamiliesDone(p, needed, names[f := c])
  {
  }

  lemma AllNamedIsGood(p: Program, needed: set<Field>, names: Naming, counter: nat)
    requires Within(p, needed, names) && needed <= names.Keys && OneColumnPerSlot(p, names, counter)
             && SlotsComplete(p, names)
    ensures GoodNaming(p, names)
  {
  }

  /** Names every remaining needed field, lowest reference first. */
  method NameOthers(p: Program, needed: set<Field>, names: Naming, counter: nat) returns (names': Naming)
    requires ValidProgram(p) && Within(p, needed, names) && FamiliesDone(p, needed, names)
    requires OneColumnPerSlot(p, names, counter) && SlotsComplete(p, names)
    ensures GoodNaming(p, names')
  {
    hide ValidProgram, FieldsOf, SlotOf, KeyOf, SlotsComplete, Mentioned, OneColumnPerSlot, GoodNaming, FamiliesDone,
         Within;
    var todo, count := needed, counter;
    names' := names;
    while todo != {}
      invariant todo <= needed
      invariant forall f :: f in needed && f !in todo ==> f in names'
      invariant Within(p, needed, names') && FamiliesDone(p, needed, names')
      invariant OneColumnPerSlot(p, names', count) && SlotsComplete(p, names')
      decreases |todo|
    {
      MinField(todo);
      var f :| f in todo && forall g :: g in todo ==> f.ref <= g.ref;
      if f !in names' {
        LoneColumn(p, needed, names', count, f, count + 1, names'[f := Carried(count + 1)]);
        count := count + 1;
        names' := names'[f := Carried(count)];
      }
      todo := todo - {f};
    }
    AllNamedIsGood(p, needed, names', count);
  }

  /** `column_names`: families first, then every other needed field in reference order. */
  method NameColumns(p: Program) returns (ok: bool, names: Naming)
    requires ValidProgram(p)
    ensures ok && GoodNaming(p, names)
  {
    var needed, counter := Mentioned(p), 0;
    names := map[];
    NothingNamed(p);
    for i := 0 to |p.families|
      invariant Within(p, needed, names) && OneColumnPerSlot(p, names, counter) && SlotsComplete(p, names)
      invariant FamiliesNamed(p, needed, names, i)
    {
      ok, needed, names, counter := NameFamily(p, i, needed, names, counter);
    }
    assert FamiliesDone(p, needed, names);
    names := NameOthers(p, needed, names, counter);
    ok := true;
  }
}
