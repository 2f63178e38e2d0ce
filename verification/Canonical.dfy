/**
  The canonical forms of JSON values: sortObjectKeys and verifyResult of src/compute/compute.service.ts
  and normalizeForHash of src/audit/provenance.service.ts.

  An object is the sequence of its fields in enumeration order. Rebuilding an object key by sorted key
  leaves its array-index keys first, by value, and then the others by their UTF-16 code units; assigning
  to the key "__proto__" creates no field.
*/
module Canonical {
  import opened Wrappers

  /** A property key: an array index, or any other text by its code units. */
  datatype Key = Index(value: nat) | Name(units: seq<nat>)

  datatype Json = Null | Bool(b: bool) | Num(n: int) | Str(text: seq<nat>) | Arr(items: seq<Json>) | Obj(fields: seq<Field>)

  datatype Field = Field(key: Key, value: Json)

  function Units(s: string): seq<nat> {
    if s == "" then [] else [s[0] as nat] + Units(s[1..])
  }

  const Proto := Name(Units("__proto__"))

  const Volatile := {Name(Units("timestamp")), Name(Units("createdAt")), Name(Units("updatedAt")), Name(Units("id"))}

  // ---------------------------------------------------------------- the order of keys

  /** Lexicographic, a proper prefix first. */
  predicate UnitsBefore(a: seq<nat>, b: seq<nat>) {
    b != [] && (a == [] || a[0] < b[0] || (a[0] == b[0] && UnitsBefore(a[1..], b[1..])))
  }

  predicate Before(a: Key, b: Key) {
    match (a, b)
    case (Index(i), Index(j)) => i < j
    case (Index(_), Name(_)) => true
    case (Name(_), Index(_)) => false
    case (Name(u), Name(v)) => UnitsBefore(u, v)
  }

  lemma {:induction false} UnitsTrichotomy(a: seq<nat>, b: seq<nat>)
    ensures a == b || UnitsBefore(a, b) || UnitsBefore(b, a)
    ensures !(UnitsBefore(a, b) && UnitsBefore(b, a)) && !UnitsBefore(a, a)
  {
    if a != [] && b != [] {
      UnitsTrichotomy(a[1..], b[1..]);
      assert a == [a[0]] + a[1..] && b == [b[0]] + b[1..];
    }
    if a != [] {
      UnitsIrreflexive(a);
    }
  }

  lemma {:induction false} UnitsIrreflexive(a: seq<nat>)
    ensures !UnitsBefore(a, a)
  {
    if a != [] {
      UnitsIrreflexive(a[1..]);
    }
  }

  lemma {:induction false} UnitsTransitive(a: seq<nat>, b: seq<nat>, c: seq<nat>)
    requires UnitsBefore(a, b) && UnitsBefore(b, c)
    ensures UnitsBefore(a, c)
  {
    if a != [] && a[0] == b[0] == c[0] {
      UnitsTransitive(a[1..], b[1..], c[1..]);
    }
  }

  lemma Trichotomy(a: Key, b: Key)
    ensures a == b || Before(a, b) || Before(b, a)
    ensures !(Before(a, b) && Before(b, a)) && !Before(a, a)
  {
    if a.Name? && b.Name? {
      UnitsTrichotomy(a.units, b.units);
    }
    if a.Name? {
      UnitsIrreflexive(a.units);
    }
  }

  lemma Transitive(a: Key, b: Key, c: Key)
    requires Before(a, b) && Before(b, c)
    ensures Before(a, c)
  {
    if a.Name? && b.Name? && c.Name? {
      UnitsTransitive(a.units, b.units, c.units);
    }
  }

  // ---------------------------------------------------------------- canonical forms

  function Place(f: Field, fields: seq<Field>): seq<Field> {
    if fields == [] || Before(f.key, fields[0].key) then [f] + fields
    else [fields[0]] + Place(f, fields[1..])
  }

  /** Sorts the keys of every object reached, leaving out the skipped keys; deep says whether arrays are entered. */
  function Canon(j: Json, deep: bool, skip: set<Key>): Json
    decreases j, 1
  {
    match j
    case Obj(fields) => Obj(CanonFields(fields, deep, skip))
    case Arr(items) => if deep then Arr(CanonItems(items, deep, skip)) else j
    case _ => j
  }

  function CanonFields(fields: seq<Field>, deep: bool, skip: set<Key>): seq<Field>
    decreases fields, 0
  {
    if fields == [] then []
    else
      var rest := CanonFields(fields[1..], deep, skip);
      if fields[0].key in skip then rest
      else Place(CanonField(fields[0], deep, skip), rest)
  }

  function CanonField(f: Field, deep: bool, skip: set<Key>): Field
    decreases f, 2
  {
    Field(f.key, Canon(f.value, deep, skip))
  }

  function CanonItems(items: seq<Json>, deep: bool, skip: set<Key>): (canon: seq<Json>)
    ensures |canon| == |items| && forall k :: 0 <= k < |items| ==> canon[k] == Canon(items[k], deep, skip)
    decreases items, 0
  {
    if items == [] then [] else [Canon(items[0], deep, skip)] + CanonItems(items[1..], deep, skip)
  }

  function SortObjectKeys(j: Json): Json { Canon(j, false, {Proto}) }

  function NormalizeForHash(j: Json): Json { Canon(j, true, {Proto} + Volatile) }

  /** The first value under a key. */
  function Find(fields: seq<Field>, key: Key): Option<Json> {
    if fields == [] then None
    else if fields[0].key == key then Some(fields[0].value)
    else Find(fields[1..], key)
  }

  /** No object repeats a key, as JSON.parse guarantees. */
  ghost predicate WellFormed(j: Json) {
    match j
    case Obj(fields) =>
      && (forall i, k :: 0 <= i < k < |fields| ==> fields[i].key != fields[k].key)
      && (forall i :: 0 <= i < |fields| ==> WellFormed(fields[i].value))
    case Arr(items) => forall i :: 0 <= i < |items| ==> WellFormed(items[i])
    case _ => true
  }

  /** Equal up to the order of keys and the skipped fields, in arrays only if deep. */
  ghost predicate Same(a: Json, b: Json, deep: bool, skip: set<Key>)
    decreases a
  {
    match (a, b)
    case (Obj(fa), Obj(fb)) =>
      && (forall i :: 0 <= i < |fa| && fa[i].key !in skip ==>
            var v := Find(fb, fa[i].key); v.Some? && Same(fa[i].value, v.value, deep, skip))
      && (forall i :: 0 <= i < |fb| && fb[i].key !in skip ==> Find(fa, fb[i].key).Some?)
    case (Arr(xs), Arr(ys)) =>
      if deep then |xs| == |ys| && forall i :: 0 <= i < |xs| ==> Same(xs[i], ys[i], deep, skip) else xs == ys
    case _ => a == b
  }

  // ---------------------------------------------------------------- sorted fields

  ghost predicate Sorted(fields: seq<Field>) {
    forall i, k :: 0 <= i < k < |fields| ==> Before(fields[i].key, fields[k].key)
  }

  ghost predicate DistinctKeys(fields: seq<Field>) {
    forall i, k :: 0 <= i < k < |fields| ==> fields[i].key != fields[k].key
  }

  lemma {:induction false} FindAt(fields: seq<Field>, i: nat)
    requires DistinctKeys(fields) && i < |fields|
    ensures Find(fields, fields[i].key) == Some(fields[i].value)
  {
    if i > 0 {
      FindAt(fields[1..], i - 1);
    }
  }

  lemma {:induction false} FindSome(fields: seq<Field>, key: Key) returns (i: nat)
    requires Find(fields, key).Some?
    ensures i < |fields| && fields[i].key == key && fields[i].value == Find(fields, key).value
  {
    if fields[0].key == key {
      i := 0;
    } else {
      i := FindSome(fields[1..], key);
      i := i + 1;
    }
  }

  lemma {:induction false} FindNone(fields: seq<Field>, key: Key)
    requires forall i :: 0 <= i < |fields| ==> fields[i].key != key
    ensures Find(fields, key) == None
  {
    if fields != [] {
      FindNone(fields[1..], key);
    }
  }

  lemma {:induction false} PlaceFinds(f: Field, fields: seq<Field>, key: Key)
    requires Find(fields, f.key) == None
    ensures Find(Place(f, fields), key) == if key == f.key then Some(f.value) else Find(fields, key)
  {
    if fields == [] || Before(f.key, fields[0].key) {
      assert ([f] + fields)[1..] == fields;
    } else {
      PlaceFinds(f, fields[1..], key);
      assert ([fields[0]] + Place(f, fields[1..]))[1..] == Place(f, fields[1..]);
    }
  }

  lemma {:induction false} PlaceMembers(f: Field, fields: seq<Field>)
    ensures forall g :: g in Place(f, fields) ==> g == f || g in fields
  {
    if fields == [] || Before(f.key, fields[0].key) {
    } else {
      PlaceMembers(f, fields[1..]);
    }
  }

  lemma {:induction false} PlaceSorts(f: Field, fields: seq<Field>)
    requires Sorted(fields) && Find(fields, f.key) == None
    ensures Sorted(Place(f, fields))
  {
    if fields == [] {
    } else if Before(f.key, fields[0].key) {
      forall k | 0 <= k < |fields| ensures Before(f.key, fields[k].key) {
        if k > 0 {
          Transitive(f.key, fields[0].key, fields[k].key);
        }
      }
    } else {
      PlaceSorts(f, fields[1..]);
      PlaceMembers(f, fields[1..]);
      Trichotomy(f.key, fields[0].key);
      var rest := Place(f, fields[1..]);
      forall k | 0 <= k < |rest| ensures Before(fields[0].key, rest[k].key) {
        assert rest[k] in rest;
      }
    }
  }

  /** Sorted fields are determined by what each key finds. */
  lemma {:induction false} SortedUnique(fa: seq<Field>, fb: seq<Field>)
    requires Sorted(fa) && Sorted(fb)
    requires forall key :: Find(fa, key) == Find(fb, key)
    ensures fa == fb
  {
    if fa == [] {
      if fb != [] {
        HeadFound(fb);
      }
    } else {
      var ka := fa[0].key;
      var i := FindSome(fb, ka);
      var kb := fb[0].key;
      var j := FindSome(fa, kb);
      Trichotomy(ka, kb);
      forall key ensures Find(fa[1..], key) == Find(fb[1..], key) {
        HeadsAside(fa, key);
        HeadsAside(fb, key);
      }
      SortedUnique(fa[1..], fb[1..]);
      assert fa == [fa[0]] + fa[1..] && fb == [fb[0]] + fb[1..];
    }
  }

  lemma HeadFound(fields: seq<Field>)
    requires fields != []
    ensures Find(fields, fields[0].key) == Some(fields[0].value)
  {
  }

  lemma HeadsAside(fields: seq<Field>, key: Key)
    requires fields != [] && Sorted(fields)
    ensures Find(fields[1..], key) == if key == fields[0].key then None else Find(fields, key)
  {
    if key == fields[0].key {
      forall i | 0 <= i < |fields[1..]| ensures fields[1..][i].key != key {
        Trichotomy(key, fields[i + 1].key);
      }
      FindNone(fields[1..], key);
    }
  }

  // ---------------------------------------------------------------- what a canonical form keeps

  function MapFound(v: Option<Json>, deep: bool, skip: set<Key>): Option<Json> {
    match v
    case None => None
    case Some(j) => Some(Canon(j, deep, skip))
  }

  /** Canonical fields are sorted and hold, under every key not skipped, the canonical form of its value. */
  lemma {:induction false} CanonFinds(fields: seq<Field>, deep: bool, skip: set<Key>)
    requires DistinctKeys(fields)
    ensures Sorted(CanonFields(fields, deep, skip))
    ensures forall key :: Find(CanonFields(fields, deep, skip), key)
                       == if key in skip then None else MapFound(Find(fields, key), deep, skip)
  {
    if fields != [] {
      var rest := fields[1..];
      CanonFinds(rest, deep, skip);
      FindNone(rest, fields[0].key);
      if fields[0].key !in skip {
        var f, canon := CanonField(fields[0], deep, skip), CanonFields(rest, deep, skip);
        hide Canon, CanonFields, Place;
        PlaceSorts(f, canon);
        forall key ensures Find(Place(f, canon), key) == if key == f.key then Some(f.value) else Find(canon, key) {
          PlaceFinds(f, canon, key);
        }
      }
    }
  }

  lemma {:induction false} CanonMembers(fields: seq<Field>, deep: bool, skip: set<Key>)
    ensures forall g :: g in CanonFields(fields, deep, skip) ==>
      exists i :: 0 <= i < |fields| && g == CanonField(fields[i], deep, skip) && fields[i].key !in skip
  {
    if fields != [] {
      var rest := CanonFields(fields[1..], deep, skip);
      CanonMembers(fields[1..], deep, skip);
      if fields[0].key !in skip {
        PlaceMembers(CanonField(fields[0], deep, skip), rest);
      }
      hide CanonField, Place;
      forall g | g in CanonFields(fields, deep, skip)
        ensures exists i :: 0 <= i < |fields| && g == CanonField(fields[i], deep, skip) && fields[i].key !in skip
      {
        if g in rest {
          var i :| 0 <= i < |fields[1..]| && g == CanonField(fields[1..][i], deep, skip) && fields[1..][i].key !in skip;
          assert fields[i + 1] == fields[1..][i];
        }
      }
    }
  }

  lemma SortedDistinct(fields: seq<Field>)
    requires Sorted(fields)
    ensures DistinctKeys(fields)
  {
    forall i, k | 0 <= i < k < |fields| ensures fields[i].key != fields[k].key {
      Trichotomy(fields[i].key, fields[k].key);
    }
  }

  /** A canonical form is well-formed again. */
  lemma {:induction false} CanonWellFormed(j: Json, deep: bool, skip: set<Key>)
    requires WellFormed(j)
    ensures WellFormed(Canon(j, deep, skip))
    decreases j
  {
    match j
    case Obj(fields) =>
      CanonFinds(fields, deep, skip);
      CanonMembers(fields, deep, skip);
      var canon := CanonFields(fields, deep, skip);
      SortedDistinct(canon);
      forall i | 0 <= i < |canon| ensures WellFormed(canon[i].value) {
        assert canon[i] in canon;
        var k :| 0 <= k < |fields| && canon[i] == CanonField(fields[k], deep, skip) && fields[k].key !in skip;
        CanonWellFormed(fields[k].value, deep, skip);
      }
    case Arr(items) =>
      if deep {
        forall i | 0 <= i < |items| ensures WellFormed(CanonItems(items, deep, skip)[i]) {
          CanonWellFormed(items[i], deep, skip);
        }
      }
    case _ =>
  }

  // ---------------------------------------------------------------- the canonical form decides sameness

  lemma ObjectsEqual(fa: seq<Field>, fb: seq<Field>, deep: bool, skip: set<Key>)
    requires DistinctKeys(fa) && DistinctKeys(fb)
    ensures CanonFields(fa, deep, skip) == CanonFields(fb, deep, skip) <==>
      forall key :: key !in skip ==> MapFound(Find(fa, key), deep, skip) == MapFound(Find(fb, key), deep, skip)
  {
    var ca, cb := CanonFields(fa, deep, skip), CanonFields(fb, deep, skip);
    CanonFinds(fa, deep, skip);
    CanonFinds(fb, deep, skip);
    hide CanonFields, MapFound;
    if forall key :: key !in skip ==> MapFound(Find(fa, key), deep, skip) == MapFound(Find(fb, key), deep, skip) {
      SortedUnique(ca, cb);
    }
  }

  /** Two well-formed values have one canonical form exactly when they are the same up to order and skipped fields. */
  lemma {:induction false} CanonIff(a: Json, b: Json, deep: bool, skip: set<Key>)
    requires WellFormed(a) && WellFormed(b)
    ensures Canon(a, deep, skip) == Canon(b, deep, skip) <==> Same(a, b, deep, skip)
    decreases a
  {
    match (a, b)
    case (Obj(fa), Obj(fb)) =>
      ObjectsEqual(fa, fb, deep, skip);
      FieldsIff(a, b, deep, skip);
    case (Arr(xs), Arr(ys)) =>
      if deep {
        ItemsIff(a, b, deep, skip);
      }
    case _ =>
  }

  lemma {:induction false} ItemsIff(a: Json, b: Json, deep: bool, skip: set<Key>)
    requires a.Arr? && b.Arr? && WellFormed(a) && WellFormed(b) && deep
    ensures CanonItems(a.items, deep, skip) == CanonItems(b.items, deep, skip) <==> Same(a, b, deep, skip)
    decreases a, 0
  {
    var xs, ys := a.items, b.items;
    if |xs| == |ys| {
      forall i | 0 <= i < |xs| ensures Canon(xs[i], deep, skip) == Canon(ys[i], deep, skip) <==> Same(xs[i], ys[i], deep, skip) {
        CanonIff(xs[i], ys[i], deep, skip);
      }
      var cx, cy := CanonItems(xs, deep, skip), CanonItems(ys, deep, skip);
      if cx == cy {
        assert forall i :: 0 <= i < |xs| ==> cx[i] == cy[i];
      }
    }
  }

  lemma {:induction false} FieldsIff(a: Json, b: Json, deep: bool, skip: set<Key>)
    requires a.Obj? && b.Obj? && WellFormed(a) && WellFormed(b)
    ensures (forall key :: key !in skip ==> MapFound(Find(a.fields, key), deep, skip) == MapFound(Find(b.fields, key), deep, skip))
       <==> Same(a, b, deep, skip)
    decreases a, 0
  {
    var fa, fb := a.fields, b.fields;
    forall i, v | 0 <= i < |fa| && Find(fb, fa[i].key) == Some(v)
      ensures Canon(fa[i].value, deep, skip) == Canon(v, deep, skip) <==> Same(fa[i].value, v, deep, skip)
    {
      var k := FindSome(fb, fa[i].key);
      CanonIff(fa[i].value, v, deep, skip);
    }
    forall i | 0 <= i < |fa| ensures Find(fa, fa[i].key) == Some(fa[i].value) {
      FindAt(fa, i);
    }
    forall i | 0 <= i < |fb| ensures Find(fb, fb[i].key) == Some(fb[i].value) {
      FindAt(fb, i);
    }
    if Same(a, b, deep, skip) {
      forall key | key !in skip ensures MapFound(Find(fa, key), deep, skip) == MapFound(Find(fb, key), deep, skip) {
        if Find(fa, key).Some? {
          var i := FindSome(fa, key);
        } else if Find(fb, key).Some? {
          var i := FindSome(fb, key);
        }
      }
    }
  }

  /** No object reached has a skipped key. */
  ghost predicate Free(j: Json, deep: bool, skip: set<Key>) {
    match j
    case Obj(fields) => forall i :: 0 <= i < |fields| ==> fields[i].key !in skip && Free(fields[i].value, deep, skip)
    case Arr(items) => deep ==> forall i :: 0 <= i < |items| ==> Free(items[i], deep, skip)
    case _ => true
  }

  lemma {:induction false} SameReflexive(j: Json, deep: bool, skip: set<Key>)
    requires WellFormed(j)
    ensures Same(j, j, deep, skip)
    decreases j
  {
    match j
    case Obj(fields) =>
      forall i | 0 <= i < |fields| ensures Find(fields, fields[i].key) == Some(fields[i].value) && Same(fields[i].value, fields[i].value, deep, skip) {
        FindAt(fields, i);
        SameReflexive(fields[i].value, deep, skip);
      }
    case Arr(items) =>
      if deep {
        forall i | 0 <= i < |items| ensures Same(items[i], items[i], deep, skip) {
          SameReflexive(items[i], deep, skip);
        }
      }
    case _ =>
  }

  /** The canonical form is the value itself up to key order exactly when no skipped key is there to lose. */
  lemma {:induction false} CanonKeepsIff(j: Json, deep: bool, skip: set<Key>)
    requires WellFormed(j)
    ensures Same(Canon(j, deep, skip), j, deep, {}) <==> Free(j, deep, skip)
    ensures Same(Canon(j, deep, skip), j, deep, skip)
    decreases j
  {
    match j
    case Obj(fields) => ObjectKeepsIff(fields, deep, skip);
    case Arr(items) =>
      if deep {
        forall i | 0 <= i < |items|
          ensures Same(Canon(items[i], deep, skip), items[i], deep, {}) <==> Free(items[i], deep, skip)
          ensures Same(Canon(items[i], deep, skip), items[i], deep, skip)
        {
          CanonKeepsIff(items[i], deep, skip);
        }
        assert Canon(j, deep, skip).items == CanonItems(items, deep, skip);
      }
    case _ =>
  }

  lemma {:induction false} ObjectKeepsIff(fields: seq<Field>, deep: bool, skip: set<Key>)
    requires WellFormed(Obj(fields))
    ensures Same(Obj(CanonFields(fields, deep, skip)), Obj(fields), deep, {}) <==> Free(Obj(fields), deep, skip)
    ensures Same(Obj(CanonFields(fields, deep, skip)), Obj(fields), deep, skip)
    decreases fields
  {
    hide CanonFields, Canon, Find, Sorted;
    var canon := CanonFields(fields, deep, skip);
    CanonFinds(fields, deep, skip);
    forall i | 0 <= i < |fields|
      ensures Find(fields, fields[i].key) == Some(fields[i].value)
      ensures Same(Canon(fields[i].value, deep, skip), fields[i].value, deep, {}) <==> Free(fields[i].value, deep, skip)
      ensures Same(Canon(fields[i].value, deep, skip), fields[i].value, deep, skip)
    {
      FindAt(fields, i);
      FieldKeepsIff(fields[i], deep, skip);
    }
    SortedDistinct(canon);
    forall k | 0 <= k < |canon|
      ensures canon[k].key !in skip
      ensures exists i :: 0 <= i < |fields| && fields[i].key == canon[k].key && canon[k].value == Canon(fields[i].value, deep, skip)
    {
      FindAt(canon, k);
      var i := FindSome(fields, canon[k].key);
    }
    CanonCovers(fields, canon, deep, skip);
  }

  lemma {:induction false} FieldKeepsIff(f: Field, deep: bool, skip: set<Key>)
    requires WellFormed(f.value)
    ensures Same(Canon(f.value, deep, skip), f.value, deep, {}) <==> Free(f.value, deep, skip)
    ensures Same(Canon(f.value, deep, skip), f.value, deep, skip)
    decreases f
  {
    CanonKeepsIff(f.value, deep, skip);
  }

  /** Every field with a key not skipped is found again. */
  lemma CanonCovers(fields: seq<Field>, canon: seq<Field>, deep: bool, skip: set<Key>)
    requires DistinctKeys(fields) && DistinctKeys(canon)
    requires forall key :: Find(canon, key) == if key in skip then None else MapFound(Find(fields, key), deep, skip)
    ensures forall i :: 0 <= i < |fields| ==> (Find(canon, fields[i].key).Some? <==> fields[i].key !in skip)
    ensures forall i :: 0 <= i < |fields| && fields[i].key !in skip ==>
      exists k :: 0 <= k < |canon| && canon[k].key == fields[i].key && canon[k].value == Canon(fields[i].value, deep, skip)
  {
    forall i | 0 <= i < |fields|
      ensures Find(canon, fields[i].key).Some? <==> fields[i].key !in skip
      ensures fields[i].key !in skip ==>
        exists k :: 0 <= k < |canon| && canon[k].key == fields[i].key && canon[k].value == Canon(fields[i].value, deep, skip)
    {
      FindAt(fields, i);
      if fields[i].key !in skip {
        var k := FindSome(canon, fields[i].key);
      }
    }
  }

  /** Taking the canonical form twice changes nothing more. */
  lemma CanonIdempotent(j: Json, deep: bool, skip: set<Key>)
    requires WellFormed(j)
    ensures Canon(Canon(j, deep, skip), deep, skip) == Canon(j, deep, skip)
  {
    CanonWellFormed(j, deep, skip);
    CanonKeepsIff(j, deep, skip);
    CanonIff(Canon(j, deep, skip), j, deep, skip);
  }

  // ---------------------------------------------------------------- the two services

  /** sortObjectKeys is idempotent, and keeps every field exactly when no "__proto__" key occurs outside arrays. */
  lemma SortKeeps(j: Json)
    requires WellFormed(j)
    ensures SortObjectKeys(SortObjectKeys(j)) == SortObjectKeys(j)
    ensures Same(SortObjectKeys(j), j, false, {}) <==> Free(j, false, {Proto})
  {
    CanonIdempotent(j, false, {Proto});
    CanonKeepsIff(j, false, {Proto});
  }

  /** normalizeForHash is idempotent, and blind exactly to key order and to the skipped keys, at every depth. */
  lemma NormalizeIff(a: Json, b: Json)
    requires WellFormed(a) && WellFormed(b)
    ensures NormalizeForHash(NormalizeForHash(a)) == NormalizeForHash(a)
    ensures NormalizeForHash(a) == NormalizeForHash(b) <==> Same(a, b, true, {Proto} + Volatile)
  {
    CanonIdempotent(a, true, {Proto} + Volatile);
    CanonIff(a, b, true, {Proto} + Volatile);
  }

  /** JSON text and hashing, left uninterpreted. */
  datatype Codec = Codec(parse: string -> Option<Json>, stringify: Json -> string, hash: string -> int)

  ghost predicate Faithful(c: Codec) {
    && (forall s :: c.parse(s).Some? ==> WellFormed(c.parse(s).value))
    && (forall j :: c.parse(c.stringify(j)).Some?)
    && (forall j, k :: c.stringify(j) == c.stringify(k) ==> j == k)
    && (forall s, t :: c.hash(s) == c.hash(t) ==> s == t)
  }

  function NormalizeResult(c: Codec, result: string): string {
    match c.parse(result)
    case Some(j) => c.stringify(SortObjectKeys(j))
    case None => result
  }

  class ComputeService {
    var computeResults: map<nat, int>
    const codec: Codec

    constructor (codec: Codec)
      ensures this.codec == codec && computeResults == map[]
    {
      this.codec, computeResults := codec, map[];
    }

    method CreateComputeResult(id: nat, originalResult: string)
      modifies this
      ensures computeResults == old(computeResults)[id := codec.hash(NormalizeResult(codec, originalResult))]
    {
      var normalizedResult := NormalizeResult(codec, originalResult);
      computeResults := computeResults[id := codec.hash(normalizedResult)];
    }

    method VerifyResult(id: nat, result: string) returns (ok: bool)
      ensures ok <==> id in computeResults && computeResults[id] == codec.hash(NormalizeResult(codec, result))
    {
      if id !in computeResults {
        return false;
      }
      ok := computeResults[id] == codec.hash(NormalizeResult(codec, result));
    }
  }

  /**
    verifyResult accepts a text for a stored one exactly when both are JSON and the same up to the key
    order outside arrays (and "__proto__" fields), or both are not JSON and equal.
  */
  lemma VerifyIff(c: Codec, stored: string, result: string)
    requires Faithful(c)
    ensures c.hash(NormalizeResult(c, stored)) == c.hash(NormalizeResult(c, result)) <==>
      match (c.parse(result), c.parse(stored))
      case (Some(j), Some(k)) => Same(j, k, false, {Proto})
      case (None, None) => result == stored
      case _ => false
  {
    if c.parse(result).Some? && c.parse(stored).Some? {
      CanonIff(c.parse(result).value, c.parse(stored).value, false, {Proto});
    }
  }
}
