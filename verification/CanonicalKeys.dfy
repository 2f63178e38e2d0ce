/**
  The keys that the canonical forms of src/compute/compute.service.ts and src/audit/provenance.service.ts drop,
  and the order they give the rest, in terms of the letters of the keys.
*/
module CanonicalKeys {
  import opened Wrappers
  import opened Canonical

  /** The key is this text. */
  predicate Spells(key: Key, text: string) {
    key.Name? && |key.units| == |text| && forall k :: 0 <= k < |text| ==> key.units[k] == text[k] as nat
  }

  lemma {:induction false} UnitsAre(s: string)
    ensures |Units(s)| == |s| && forall k :: 0 <= k < |s| ==> Units(s)[k] == s[k] as nat
  {
    if s != "" {
      UnitsAre(s[1..]);
    }
  }

  lemma NameIs(key: Key, text: string)
    ensures key == Name(Units(text)) <==> Spells(key, text)
  {
    UnitsAre(text);
    if Spells(key, text) {
      assert key.units == Units(text);
    }
  }

  /** The keys that a provenance hash leaves out. */
  predicate LeftOut(key: Key) {
    || Spells(key, "timestamp") || Spells(key, "createdAt") || Spells(key, "updatedAt") || Spells(key, "id")
    || Spells(key, "__proto__")
  }

  /**
    What the canonical form of an object holds under each key: for the hash nothing under the keys left out, at
    every depth, and for a sorted object nothing under "__proto__", and entries of arrays as they are; under any
    other key the canonical form of the value.
  */
  lemma FormHolds(fields: seq<Field>, key: Key)
    requires WellFormed(Obj(fields))
    ensures NormalizeForHash(Obj(fields)).Obj? && SortObjectKeys(Obj(fields)).Obj?
    ensures Find(NormalizeForHash(Obj(fields)).fields, key) ==
      if LeftOut(key) then None
      else match Find(fields, key) case Some(v) => Some(NormalizeForHash(v)) case None => None
    ensures Find(SortObjectKeys(Obj(fields)).fields, key) ==
      if Spells(key, "__proto__") then None
      else match Find(fields, key) case Some(v) => Some(SortObjectKeys(v)) case None => None
  {
    hide CanonFields, Find, Units;
    CanonFinds(fields, true, {Proto} + Volatile);
    CanonFinds(fields, false, {Proto});
    NameIs(key, "timestamp");
    NameIs(key, "createdAt");
    NameIs(key, "updatedAt");
    NameIs(key, "id");
    NameIs(key, "__proto__");
  }

  /** Arrays keep their length and order; their entries take the canonical form for the hash, and stay as they are when sorted. */
  lemma ArrayHolds(items: seq<Json>)
    ensures NormalizeForHash(Arr(items)).Arr? && |NormalizeForHash(Arr(items)).items| == |items|
    ensures forall k :: 0 <= k < |items| ==> NormalizeForHash(Arr(items)).items[k] == NormalizeForHash(items[k])
    ensures SortObjectKeys(Arr(items)) == Arr(items)
  {
  }

  /** Every other value is its own canonical form. */
  lemma ValueHolds(j: Json)
    requires !j.Obj? && !j.Arr?
    ensures NormalizeForHash(j) == j && SortObjectKeys(j) == j
  {
  }

  // ---------------------------------------------------------------- the order

  /** The first place at which two texts differ has the lower unit in a, or a ends there. */
  ghost predicate Lower(a: seq<nat>, b: seq<nat>, k: nat) {
    k <= |a| && k < |b| && a[..k] == b[..k] && (k == |a| || a[k] < b[k])
  }

  lemma {:induction false} UnitsBeforeIff(a: seq<nat>, b: seq<nat>)
    ensures UnitsBefore(a, b) <==> exists k: nat :: Lower(a, b, k)
  {
    if UnitsBefore(a, b) {
      if a == [] || a[0] < b[0] {
        assert Lower(a, b, 0);
      } else {
        UnitsBeforeIff(a[1..], b[1..]);
        var k: nat :| Lower(a[1..], b[1..], k);
        assert a[..k + 1] == [a[0]] + a[1..][..k] && b[..k + 1] == [b[0]] + b[1..][..k];
        assert Lower(a, b, k + 1);
      }
    }
    if k: nat :| Lower(a, b, k) {
      LowerBefore(a, b, k);
    }
  }

  lemma {:induction false} LowerBefore(a: seq<nat>, b: seq<nat>, k: nat)
    requires Lower(a, b, k)
    ensures UnitsBefore(a, b)
    decreases k
  {
    if k > 0 {
      assert a[0] == a[..k][0] == b[..k][0] == b[0];
      assert a[1..][..k - 1] == a[..k][1..] && b[1..][..k - 1] == b[..k][1..];
      LowerBefore(a[1..], b[1..], k - 1);
    }
  }

  /** The key a comes before b: array indices first, by value, and then the others as texts. */
  ghost predicate Precedes(a: Key, b: Key) {
    match (a, b)
    case (Index(i), Index(j)) => i < j
    case (Index(_), Name(_)) => true
    case (Name(_), Index(_)) => false
    case (Name(u), Name(v)) => exists k: nat :: Lower(u, v, k)
  }

  /** The fields of a canonical object stand in that order. */
  lemma FormOrdered(fields: seq<Field>)
    requires WellFormed(Obj(fields))
    ensures var sorted := SortObjectKeys(Obj(fields)).fields;
      forall i, k :: 0 <= i < k < |sorted| ==> Precedes(sorted[i].key, sorted[k].key)
    ensures var hashed := NormalizeForHash(Obj(fields)).fields;
      forall i, k :: 0 <= i < k < |hashed| ==> Precedes(hashed[i].key, hashed[k].key)
  {
    hide CanonFields, Precedes, Sorted, NormalizeForHash, SortObjectKeys, Units;
    FormFields(fields);
    FieldsOrdered(fields, true, {Proto} + Volatile);
    FieldsOrdered(fields, false, {Proto});
  }

  lemma FormFields(fields: seq<Field>)
    ensures NormalizeForHash(Obj(fields)) == Obj(CanonFields(fields, true, {Proto} + Volatile))
    ensures SortObjectKeys(Obj(fields)) == Obj(CanonFields(fields, false, {Proto}))
  {
  }

  lemma FieldsOrdered(fields: seq<Field>, deep: bool, skip: set<Key>)
    requires DistinctKeys(fields)
    ensures var canon := CanonFields(fields, deep, skip);
      forall i, k :: 0 <= i < k < |canon| ==> Precedes(canon[i].key, canon[k].key)
  {
    hide CanonFields, Precedes, Before, Find;
    CanonFinds(fields, deep, skip);
    var canon := CanonFields(fields, deep, skip);
    forall i, k | 0 <= i < k < |canon| ensures Precedes(canon[i].key, canon[k].key) {
      BeforeIs(canon[i].key, canon[k].key);
    }
  }

  lemma BeforeIs(a: Key, b: Key)
    ensures Before(a, b) <==> Precedes(a, b)
  {
    if a.Name? && b.Name? {
      UnitsBeforeIff(a.units, b.units);
    }
  }
}
