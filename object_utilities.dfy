/** ObjectUtilities (src/utilities/internal/object-utilities.ts). */
module ObjectUtilities {
  import opened Wrappers
  import opened JsValues
  import opened JsStrings

  /** The key as `modifyKeyCase` rewrites it. */
  function CaseOf(key: string, isUpperCase: bool): string {
    if isUpperCase then ToUpper(key) else ToLower(key)
  }

  /** The key is already in the requested case. */
  predicate InCase(key: string, isUpperCase: bool) {
    if isUpperCase then IsUpperCase(key) else IsLowerCase(key)
  }

  lemma CaseOfProperties(key: string, isUpperCase: bool)
    ensures InCase(CaseOf(key, isUpperCase), isUpperCase)
    ensures CaseOf(CaseOf(key, isUpperCase), isUpperCase) == CaseOf(key, isUpperCase)
  {
    ToLowerProperties(key);
    ToUpperProperties(key);
  }

  /** One iteration of the loop: read the value, delete the key, store the value under the case-mapped key. */
  function FoldStep<V>(d: Dict<V>, key: string, isUpperCase: bool): Dict<V> {
    if key in d.values then d.Delete(key).Put(CaseOf(key, isUpperCase), d.values[key]) else d
  }

  /** The whole loop over a snapshot `order` of the keys. */
  function FoldKeys<V>(d: Dict<V>, order: seq<string>, isUpperCase: bool): Dict<V>
    decreases |order|
  {
    if order == [] then d else FoldKeys(FoldStep(d, order[0], isUpperCase), order[1..], isUpperCase)
  }

  function KeySet(order: seq<string>): set<string> {
    set k | k in order
  }

  function CaseImage(ks: set<string>, isUpperCase: bool): set<string> {
    set k | k in ks :: CaseOf(k, isUpperCase)
  }

  /** No two distinct keys map to the same case-mapped key. */
  predicate NoCaseCollision(ks: set<string>, isUpperCase: bool) {
    forall a, b :: a in ks && b in ks && CaseOf(a, isUpperCase) == CaseOf(b, isUpperCase) ==> a == b
  }

  /** `v` was stored in `orig` under a key that is `x` itself or case-maps to `x`. */
  ghost predicate ValueFrom<V>(orig: map<string, V>, x: string, v: V, isUpperCase: bool) {
    exists k0 :: k0 in orig && v == orig[k0] && (x == k0 || x == CaseOf(k0, isUpperCase))
  }

  /** One step of the loop on a key that is present: the key is replaced by its case-mapped form. */
  lemma FoldStepPresent<V>(d: Dict<V>, k: string, isUpperCase: bool)
    requires d.Valid() && k in d.values
    ensures FoldStep(d, k, isUpperCase).Valid()
    ensures FoldStep(d, k, isUpperCase).values == (d.values - {k})[CaseOf(k, isUpperCase) := d.values[k]]
  {
  }

  /** The order with its first key taken off is still a list of distinct present keys. */
  lemma OrderTail<V>(d: Dict<V>, order: seq<string>)
    requires order != [] && Distinct(order) && forall k :: k in order ==> k in d.values
    ensures Distinct(order[1..])
    ensures forall k :: k in order[1..] ==> k in d.values - {order[0]}
    ensures KeySet(order) == KeySet(order[1..]) + {order[0]}
  {
    forall j | 0 <= j < |order[1..]| ensures order[1..][j] in d.values - {order[0]} {
      assert order[1..][j] == order[j + 1] && order[j + 1] != order[0];
    }
    assert Distinct(order[1..]) by {
      forall i, j | 0 <= i < j < |order[1..]| ensures order[1..][i] != order[1..][j] {
        assert order[1..][i] == order[i + 1] && order[1..][j] == order[j + 1];
      }
    }
  }

  lemma CaseImageAdd(ks: set<string>, k: string, isUpperCase: bool)
    ensures CaseImage(ks + {k}, isUpperCase) == CaseImage(ks, isUpperCase) + {CaseOf(k, isUpperCase)}
  {
  }

  /** The key set after one more step of the loop, as plain set algebra. */
  lemma KeyStep(keys: set<string>, k: string, ck: string, rest: set<string>, image: set<string>)
    requires ck in rest ==> ck in image
    ensures (((keys - {k}) + {ck}) - rest) + image == (keys - (rest + {k})) + (image + {ck})
  {
  }

  /** After the loop over `order`, the keys are the untouched ones plus the case-mapped image of `order`. */
  lemma {:induction false} FoldKeysKeySet<V>(d: Dict<V>, order: seq<string>, isUpperCase: bool)
    requires d.Valid() && Distinct(order) && forall k :: k in order ==> k in d.values
    ensures FoldKeys(d, order, isUpperCase).Valid()
    ensures FoldKeys(d, order, isUpperCase).values.Keys
            == (d.values.Keys - KeySet(order)) + CaseImage(KeySet(order), isUpperCase)
    decreases |order|
  {
    if order != [] {
      var k := order[0];
      var d1 := FoldStep(d, k, isUpperCase);
      FoldStepPresent(d, k, isUpperCase);
      OrderTail(d, order);
      FoldKeysKeySet(d1, order[1..], isUpperCase);
      var rest := KeySet(order[1..]);
      var ck := CaseOf(k, isUpperCase);
      CaseOfProperties(k, isUpperCase);
      CaseImageAdd(rest, k, isUpperCase);
      KeyStep(d.values.Keys, k, ck, rest, CaseImage(rest, isUpperCase));
    }
  }

  /** A key outside the order and outside its case-mapped image keeps its value through the loop. */
  lemma {:induction false} FoldKeysKept<V>(d: Dict<V>, order: seq<string>, isUpperCase: bool, x: string)
    requires d.Valid() && Distinct(order) && forall k :: k in order ==> k in d.values
    requires x in d.values && x !in order && x !in CaseImage(KeySet(order), isUpperCase)
    ensures x in FoldKeys(d, order, isUpperCase).values
    ensures FoldKeys(d, order, isUpperCase).values[x] == d.values[x]
    decreases |order|
  {
    if order != [] {
      var k := order[0];
      FoldStepPresent(d, k, isUpperCase);
      OrderTail(d, order);
      assert CaseImage(KeySet(order[1..]), isUpperCase) <= CaseImage(KeySet(order), isUpperCase);
      FoldKeysKept(FoldStep(d, k, isUpperCase), order[1..], isUpperCase, x);
    }
  }

  /** Moving one key to its case-mapped form creates no collision where there was none. */
  lemma NoCaseCollisionStep<V>(d: Dict<V>, k: string, isUpperCase: bool)
    requires d.Valid() && k in d.values && NoCaseCollision(d.values.Keys, isUpperCase)
    ensures NoCaseCollision(FoldStep(d, k, isUpperCase).values.Keys, isUpperCase)
  {
    var d1 := FoldStep(d, k, isUpperCase);
    FoldStepPresent(d, k, isUpperCase);
    forall a, b | a in d1.values && b in d1.values && CaseOf(a, isUpperCase) == CaseOf(b, isUpperCase)
      ensures a == b
    {
      CaseOfProperties(a, isUpperCase);
      CaseOfProperties(b, isUpperCase);
      CaseOfProperties(k, isUpperCase);
    }
  }

  /** When no two keys collide, every value ends up under its own key's case-mapped form. */
  lemma {:induction false} FoldKeysValues<V>(d: Dict<V>, order: seq<string>, isUpperCase: bool)
    requires d.Valid() && Distinct(order) && forall k :: k in order ==> k in d.values
    requires NoCaseCollision(d.values.Keys, isUpperCase)
    ensures forall k :: k in order ==>
              CaseOf(k, isUpperCase) in FoldKeys(d, order, isUpperCase).values &&
              FoldKeys(d, order, isUpperCase).values[CaseOf(k, isUpperCase)] == d.values[k]
    decreases |order|
  {
    if order != [] {
      var k := order[0];
      var ck := CaseOf(k, isUpperCase);
      var d1 := FoldStep(d, k, isUpperCase);
      FoldStepPresent(d, k, isUpperCase);
      OrderTail(d, order);
      NoCaseCollisionStep(d, k, isUpperCase);
      FoldKeysValues(d1, order[1..], isUpperCase);
      CaseOfProperties(k, isUpperCase);
      var rest := KeySet(order[1..]);
      assert ck !in rest;
      assert ck !in CaseImage(rest, isUpperCase);
      FoldKeysKept(d1, order[1..], isUpperCase, ck);
    }
  }

  /** Whatever the collisions, each value under a key came from an original key mapping to it. */
  lemma {:induction false} FoldKeysValueOrigin<V>(orig: map<string, V>, d: Dict<V>, order: seq<string>, isUpperCase: bool)
    requires forall x :: x in d.values ==> ValueFrom(orig, x, d.values[x], isUpperCase)
    ensures forall x :: x in FoldKeys(d, order, isUpperCase).values ==>
              ValueFrom(orig, x, FoldKeys(d, order, isUpperCase).values[x], isUpperCase)
    decreases |order|
  {
    if order != [] {
      var k := order[0];
      var d1 := FoldStep(d, k, isUpperCase);
      if k in d.values {
        var ck := CaseOf(k, isUpperCase);
        assert ValueFrom(orig, k, d.values[k], isUpperCase);
        var k0 :| k0 in orig && d.values[k] == orig[k0] && (k == k0 || k == CaseOf(k0, isUpperCase));
        CaseOfProperties(k0, isUpperCase);
        assert ck == CaseOf(k0, isUpperCase);
        assert ValueFrom(orig, ck, d1.values[ck], isUpperCase);
      }
      FoldKeysValueOrigin(orig, d1, order[1..], isUpperCase);
    }
  }

  /** The loop over all of an object's keys leaves exactly the case-mapped keys, all in the requested case. */
  lemma FoldKeysWholeKeys<V>(d: Dict<V>, isUpperCase: bool)
    requires d.Valid()
    ensures FoldKeys(d, d.keys, isUpperCase).Valid()
    ensures FoldKeys(d, d.keys, isUpperCase).values.Keys == CaseImage(d.values.Keys, isUpperCase)
    ensures forall k :: k in FoldKeys(d, d.keys, isUpperCase).values ==> InCase(k, isUpperCase)
  {
    assert KeySet(d.keys) == d.values.Keys;
    FoldKeysKeySet(d, d.keys, isUpperCase);
    forall k | k in FoldKeys(d, d.keys, isUpperCase).values ensures InCase(k, isUpperCase) {
      var k0 :| k0 in d.values && k == CaseOf(k0, isUpperCase);
      CaseOfProperties(k0, isUpperCase);
    }
  }

  /** After the loop over all keys, every value left was an original value under a key mapping to it. */
  lemma FoldKeysWholeOrigin<V>(d: Dict<V>, isUpperCase: bool)
    ensures forall x :: x in FoldKeys(d, d.keys, isUpperCase).values ==>
              ValueFrom(d.values, x, FoldKeys(d, d.keys, isUpperCase).values[x], isUpperCase)
  {
    forall x | x in d.values ensures ValueFrom(d.values, x, d.values[x], isUpperCase) {
    }
    FoldKeysValueOrigin(d.values, d, d.keys, isUpperCase);
  }

  /** Without collisions, the loop over all keys keeps every value under its key's case-mapped form. */
  lemma FoldKeysWholeValues<V>(d: Dict<V>, isUpperCase: bool)
    requires d.Valid() && NoCaseCollision(d.values.Keys, isUpperCase)
    ensures forall k :: k in d.values ==>
              CaseOf(k, isUpperCase) in FoldKeys(d, d.keys, isUpperCase).values &&
              FoldKeys(d, d.keys, isUpperCase).values[CaseOf(k, isUpperCase)] == d.values[k]
  {
    FoldKeysValues(d, d.keys, isUpperCase);
  }

  /**
   * `modifyKeyCase(object, isUpperCase)`: rewrites every key of `object` in place to lower
   * (or upper) case and hands back the same object; an absent object is returned as is.
   */
  method ModifyKeyCase<V>(obj: Option<JsRecord<V>>, isUpperCase: bool := false) returns (r: Option<JsRecord<V>>)
    requires obj.Some? ==> obj.value.dict.Valid()
    modifies if obj.Some? then {obj.value} else {}
    ensures r == obj
    ensures obj.Some? ==> obj.value.dict == FoldKeys(old(obj.value.dict), old(obj.value.dict.keys), isUpperCase)
    ensures obj.Some? ==> obj.value.dict.Valid()
    ensures obj.Some? ==> obj.value.dict.values.Keys == CaseImage(old(obj.value.dict.values.Keys), isUpperCase)
    ensures obj.Some? ==> forall k :: k in obj.value.dict.values ==> InCase(k, isUpperCase)
    ensures obj.Some? ==> forall x :: x in obj.value.dict.values ==>
              ValueFrom(old(obj.value.dict.values), x, obj.value.dict.values[x], isUpperCase)
    ensures obj.Some? && NoCaseCollision(old(obj.value.dict.values.Keys), isUpperCase) ==>
              forall k :: k in old(obj.value.dict.values) ==>
                CaseOf(k, isUpperCase) in obj.value.dict.values &&
                obj.value.dict.values[CaseOf(k, isUpperCase)] == old(obj.value.dict.values[k])
  {
    if obj.None? {
      return obj;
    }
    var o := obj.value;
    ghost var d0 := o.dict;
    var keys := o.dict.keys;
    var i := 0;
    while i < |keys|
      invariant 0 <= i <= |keys|
      invariant forall j :: i <= j < |keys| ==> keys[j] in o.dict.values
      invariant FoldKeys(o.dict, keys[i..], isUpperCase) == FoldKeys(d0, keys, isUpperCase)
    {
      var key := keys[i];
      var modifiedKey := CaseOf(key, isUpperCase);
      var value := o.dict.values[key];
      o.dict := o.dict.Delete(key);
      o.dict := o.dict.Put(modifiedKey, value);
      assert keys[i..][1..] == keys[i + 1..];
      i := i + 1;
    }
    r := obj;
    FoldKeysWholeKeys(d0, isUpperCase);
    FoldKeysWholeOrigin(d0, isUpperCase);
    if NoCaseCollision(d0.values.Keys, isUpperCase) {
      FoldKeysWholeValues(d0, isUpperCase);
    }
  }
}
