/** The canonical form of a request body, which is hashed beside an idempotency key: bodies that differ
    only in the order of object members have the same form, and no others do. */
module CanonicalJson {
  import opened TextOrder

  datatype Json =
    | Null
    | Bool(b: bool)
    | Number(digits: string)
    | Text(s: string)
    | List(items: seq<Json>)
    | Object(fields: seq<Field>)

  datatype Field = Field(name: string, value: Json)

  function Insert(fields: seq<Field>, f: Field): seq<Field> {
    if fields == [] then [f]
    else if Less(f.name, fields[|fields| - 1].name) then Insert(fields[..|fields| - 1], f) + [fields[|fields| - 1]]
    else fields + [f]
  }

  function SortByName(fields: seq<Field>): seq<Field> {
    if fields == [] then [] else Insert(SortByName(fields[..|fields| - 1]), fields[|fields| - 1])
  }

  /** Members are put in order of their names, at every depth; list items keep their places. */
  function Canonicalize(v: Json): Json {
    match v
    case List(items) => List(CanonicalItems(items))
    case Object(fields) => Object(SortByName(CanonicalFields(fields)))
    case _ => v
  }

  function CanonicalItems(items: seq<Json>): (r: seq<Json>)
    ensures |r| == |items| && forall i | 0 <= i < |items| :: r[i] == Canonicalize(items[i])
  {
    if items == [] then [] else [Canonicalize(items[0])] + CanonicalItems(items[1..])
  }

  function CanonicalFields(fields: seq<Field>): (r: seq<Field>)
    ensures |r| == |fields| && forall i | 0 <= i < |fields| :: r[i] == Field(fields[i].name, Canonicalize(fields[i].value))
  {
    if fields == [] then []
    else
      var first := fields[0];
      [Field(first.name, Canonicalize(first.value))] + CanonicalFields(fields[1..])
  }

  // ---- equal up to the order of members ---------------------------------------------------------

  predicate DistinctNames(fields: seq<Field>) { forall i,
                          j | 0 <= i < j < |fields| :: fields[i].name != fields[j].name }

  /** No object has two members of one name. */
  ghost predicate WellNamed(v: Json) {
    match v
    case List(items) => forall i | 0 <= i < |items| :: WellNamed(items[i])
    case Object(fields) => DistinctNames(fields) && forall i | 0 <= i < |fields| :: WellNamed(fields[i].value)
    case _ => true
  }

  /** The same value but for the order of members. */
  ghost predicate Same(v: Json, w: Json) {
    match v
    case List(items) =>
      w.List? && |items| == |w.items| && forall i | 0 <= i < |items| :: Same(items[i], w.items[i])
    case Object(fields) =>
      w.Object? && |fields| == |w.fields| && forall i | 0 <= i < |fields| :: HasMatch(fields[i], w.fields)
    case _ => v == w
  }

  /** The other object has the same member. */
  ghost predicate HasMatch(f: Field, gs: seq<Field>) {
    exists j | 0 <= j < |gs| :: gs[j].name == f.name && Same(f.value, gs[j].value)
  }

  ghost predicate HasCanonicalMatch(f: Field, gs: seq<Field>) {
    exists j | 0 <= j < |gs| :: gs[j].name == f.name && Canonicalize(f.value) == Canonicalize(gs[j].value)
  }

  // ---- sorting ----------------------------------------------------------------------------------

  predicate SortedByName(fields: seq<Field>) { forall i, j | 0 <= i < j < |fields| :: Less(fields[i].name,
                         fields[j].name) }

  lemma {:induction false} InsertSorts(fields: seq<Field>, f: Field)
    requires SortedByName(fields) && forall g | g in fields :: g.name != f.name
    ensures SortedByName(Insert(fields, f)) && |Insert(fields, f)| == |fields| + 1
    ensures forall g :: g in Insert(fields, f) <==> g in fields || g == f
  {
    if fields != [] {
      var init, last := fields[..|fields| - 1], fields[|fields| - 1];
      assert fields == init + [last];
      if Less(f.name, last.name) {
        InsertSorts(init, f);
        var r := Insert(init, f);
        forall i | 0 <= i < |r| ensures Less(r[i].name, last.name) { assert r[i] in r; }
      } else {
        Total(f.name, last.name);
        forall i | 0 <= i < |init| ensures Less(init[i].name, f.name) { Transitive(init[i].name, last.name, f.name); }
      }
    }
  }

  lemma {:induction false} SortSorts(fields: seq<Field>)
    requires DistinctNames(fields)
    ensures SortedByName(SortByName(fields)) && |SortByName(fields)| == |fields|
    ensures forall g :: g in SortByName(fields) <==> g in fields
  {
    if fields != [] {
      var init, last := fields[..|fields| - 1], fields[|fields| - 1];
      assert fields == init + [last];
      SortSorts(init);
      InsertSorts(SortByName(init), last);
    }
  }

  function Elements(fields: seq<Field>): set<Field> { set f | f in fields }

  lemma {:induction false} AsManyElements(fields: seq<Field>)
    requires SortedByName(fields)
    ensures |Elements(fields)| == |fields|
  {
    if fields != [] {
      var init, last := fields[..|fields| - 1], fields[|fields| - 1];
      AsManyElements(init);
      assert fields == init + [last];
      if last in init {
        Irreflexive(last.name);
      }
      assert Elements(fields) == Elements(init) + {last};
    }
  }

  /** Two lists in strict order with the same elements are the same list. */
  lemma {:induction false} SortedIsUnique(a: seq<Field>, b: seq<Field>)
    requires SortedByName(a) && SortedByName(b) && |a| == |b| && forall f :: f in a <==> f in b
    ensures a == b
  {
    if a != [] {
      HeadsAgree(a, b);
      assert a == [a[0]] + a[1..] && b == [b[0]] + b[1..];
      forall f ensures f in a[1..] <==> f in b[1..] {
        Irreflexive(a[0].name);
        assert f in a <==> f == a[0] || f in a[1..];
        assert f in b <==> f == b[0] || f in b[1..];
      }
      SortedIsUnique(a[1..], b[1..]);
    }
  }

  lemma HeadsAgree(a: seq<Field>, b: seq<Field>)
    requires SortedByName(a) && SortedByName(b) && a != [] && b != [] && forall f :: f in a <==> f in b
    ensures a[0] == b[0]
  {
    assert a[0] in b && b[0] in a;
    if a[0] != b[0] {
      assert Less(b[0].name, a[0].name) && Less(a[0].name, b[0].name);
      Transitive(a[0].name, b[0].name, a[0].name);
      Irreflexive(a[0].name);
    }
  }

  lemma SubsetIsAll(a: seq<Field>, b: seq<Field>)
    requires SortedByName(a) && SortedByName(b) && |a| == |b| && forall f :: f in a ==> f in b
    ensures forall f :: f in a <==> f in b
  {
    AsManyElements(a);
    AsManyElements(b);
    assert Elements(a) <= Elements(b);
    assert Elements(b) == Elements(a) + (Elements(b) - Elements(a));
    assert Elements(a) == Elements(b);
    assert forall f :: f in a <==> f in Elements(a);
  }

  // ---- the canonical form -----------------------------------------------------------------------

  lemma CanonicalNames(fields: seq<Field>)
    requires DistinctNames(fields)
    ensures DistinctNames(CanonicalFields(fields))
  {
  }

  /** Members match up under `Same` when their canonical forms are among the other object's. */
  lemma ObjectsAgree(fs: seq<Field>, gs: seq<Field>)
    requires DistinctNames(fs) && DistinctNames(gs) && |fs| == |gs|
    ensures SortByName(CanonicalFields(fs)) == SortByName(CanonicalFields(gs))
            <==> forall i | 0 <= i < |fs| :: CanonicalFields(fs)[i] in CanonicalFields(gs)
  {
    var a, b := CanonicalFields(fs), CanonicalFields(gs);
    CanonicalNames(fs);
    CanonicalNames(gs);
    SortSorts(a);
    SortSorts(b);
    if forall i | 0 <= i < |fs| :: a[i] in b {
      SubsetIsAll(SortByName(a), SortByName(b));
      SortedIsUnique(SortByName(a), SortByName(b));
    }
    if SortByName(a) == SortByName(b) {
      forall i | 0 <= i < |fs| ensures a[i] in b { assert a[i] in SortByName(a); }
    }
  }

  lemma ListsAgree(a: seq<Json>, b: seq<Json>)
    requires |a| == |b|
    ensures CanonicalItems(a) == CanonicalItems(b) <==> forall i | 0 <= i < |a| :: Canonicalize(a[i]) == Canonicalize(b[i])
  {
    if CanonicalItems(a) == CanonicalItems(b) {
      forall i | 0 <= i < |a| ensures Canonicalize(a[i]) == Canonicalize(b[i]) {
        assert CanonicalItems(a)[i] == CanonicalItems(b)[i];
      }
    }
  }

  lemma MembersMatch(fs: seq<Field>, gs: seq<Field>, i: nat)
    requires i < |fs|
    ensures CanonicalFields(fs)[i] in CanonicalFields(gs) <==> HasCanonicalMatch(fs[i], gs)
  {
    var a, b := CanonicalFields(fs), CanonicalFields(gs);
    if a[i] in b {
      var j :| 0 <= j < |gs| && b[j] == a[i];
      assert gs[j].name == fs[i].name && Canonicalize(fs[i].value) == Canonicalize(gs[j].value);
    }
    if HasCanonicalMatch(fs[i], gs) {
      var j :| 0 <= j < |gs| && gs[j].name == fs[i].name && Canonicalize(fs[i].value) == Canonicalize(gs[j].value);
      assert b[j] == a[i];
    }
  }

  lemma ListCase(a: seq<Json>, b: seq<Json>)
    requires |a| == |b| ==> forall i | 0 <= i < |a| :: Same(a[i], b[i]) <==> Canonicalize(a[i]) == Canonicalize(b[i])
    ensures Same(List(a), List(b)) <==> Canonicalize(List(a)) == Canonicalize(List(b))
  {
    if |a| == |b| {
      ListsAgree(a, b);
    }
  }

  lemma LengthsTell(fs: seq<Field>, gs: seq<Field>)
    requires DistinctNames(fs) && DistinctNames(gs) && |fs| != |gs|
    ensures SortByName(CanonicalFields(fs)) != SortByName(CanonicalFields(gs))
  {
    CanonicalNames(fs);
    CanonicalNames(gs);
    SortSorts(CanonicalFields(fs));
    SortSorts(CanonicalFields(gs));
  }

  lemma ObjectCase(fs: seq<Field>, gs: seq<Field>)
    requires DistinctNames(fs) && DistinctNames(gs)
    requires forall i | 0 <= i < |fs| :: HasMatch(fs[i], gs) <==> HasCanonicalMatch(fs[i], gs)
    ensures Same(Object(fs), Object(gs)) <==> Canonicalize(Object(fs)) == Canonicalize(Object(gs))
  {
    if |fs| != |gs| {
      LengthsTell(fs, gs);
    } else {
      ObjectsAgree(fs, gs);
      forall i | 0 <= i < |fs| ensures CanonicalFields(fs)[i] in CanonicalFields(gs) <==> HasMatch(fs[i], gs) {
        MembersMatch(fs, gs, i);
      }
    }
  }

  /** Two bodies have the same canonical form exactly when they are the same but for the order of
      members. */
  lemma {:induction false} CanonicalFormDecidesSameness(v: Json, w: Json)
    requires WellNamed(v) && WellNamed(w)
    ensures Same(v, w) <==> Canonicalize(v) == Canonicalize(w)
    decreases v
  {
    if v.List? && w.List? {
      forall i | 0 <= i < |v.items| && i < |w.items|
        ensures Same(v.items[i], w.items[i]) <==> Canonicalize(v.items[i]) == Canonicalize(w.items[i])
      {
        CanonicalFormDecidesSameness(v.items[i], w.items[i]);
      }
      ListCase(v.items, w.items);
    } else if v.Object? && w.Object? {
      forall i | 0 <= i < |v.fields| ensures HasMatch(v.fields[i], w.fields) <==> HasCanonicalMatch(v.fields[i], w.fields) {
        forall j | 0 <= j < |w.fields|
          ensures Same(v.fields[i].value, w.fields[j].value) <==> Canonicalize(v.fields[i].value) == Canonicalize(w.fields[j].value)
        {
          CanonicalFormDecidesSameness(v.fields[i].value, w.fields[j].value);
        }
      }
      ObjectCase(v.fields, w.fields);
    }
  }
}
