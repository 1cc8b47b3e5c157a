/**
 * DataUtilities (src/utilities/public/data-utilities.ts): uniform access to a data bag that
 * is either a plain record or a FormData object.
 */
module DataUtilities {
  import opened Wrappers
  import opened JsValues
  import opened JsStrings
  import opened FormDataModel

  /** A data bag object: `Record<string, any> | FormData`. An absent bag is `None`. */
  datatype Bag = RecordBag(record: JsRecord<Value>) | FormBag(form: FormData) {

    function Footprint(): set<object> {
      match this
      case RecordBag(r) => {r}
      case FormBag(f) => {f}
    }

    /** The bag's current contents. */
    function View(): BagView
      reads Footprint()
    {
      match this
      case RecordBag(r) => RecordView(r.dict)
      case FormBag(f) => FormView(f.entries)
    }
  }

  /** The contents of a data bag at one moment, for code that only reads it. */
  datatype BagView = RecordView(dict: Dict<Value>) | FormView(entries: seq<Entry>)

  /**
   * `getIterableIteratorToArray(iterator)`: calls `next()` until it reports done and
   * collects the yielded values in order.
   */
  method GetIterableIteratorToArray<T>(it: ListIterator<T>) returns (values: seq<T>)
    requires it.Valid()
    modifies it
    ensures it.Valid() && it.position == |it.items|
    ensures values == old(it.items[it.position..])
    ensures it.nextCalls == old(it.nextCalls) + |values| + 1
  {
    values := [];
    var iterationResult := it.Next();
    while iterationResult.Yield?
      invariant it.Valid() && old(it.position) <= it.position
      invariant iterationResult.Yield? ==> 0 < it.position && iterationResult.value == it.items[it.position - 1]
      invariant iterationResult.Done? ==> it.position == |it.items|
      invariant values + (if iterationResult.Yield? then [iterationResult.value] else []) == it.items[old(it.position)..it.position]
      invariant it.nextCalls == old(it.nextCalls) + |values| + 1
      decreases |it.items| - it.position, iterationResult.Yield?
    {
      values := values + [iterationResult.value];
      iterationResult := it.Next();
    }
  }

  /** The keys of `ks` that start with `prefix`, in order and with their repetitions. */
  function KeysWithPrefix(prefix: string, ks: seq<string>): seq<string> {
    if ks == [] then []
    else KeysWithPrefix(prefix, ks[..|ks| - 1]) + (if StartsWith(ks[|ks| - 1], prefix) then [ks[|ks| - 1]] else [])
  }

  /** Filtering distributes over concatenation, so the kept keys stay in their original order. */
  lemma {:induction false} KeysWithPrefixConcat(prefix: string, a: seq<string>, b: seq<string>)
    ensures KeysWithPrefix(prefix, a + b) == KeysWithPrefix(prefix, a) + KeysWithPrefix(prefix, b)
    decreases |b|
  {
    if b == [] {
      assert a + b == a;
    } else {
      var ab := a + b;
      assert ab[..|ab| - 1] == a + b[..|b| - 1];
      assert ab[|ab| - 1] == b[|b| - 1];
      KeysWithPrefixConcat(prefix, a, b[..|b| - 1]);
    }
  }

  /**
   * Every key occurs in the filtered keys as often as in the input when it starts with the
   * prefix, and not at all otherwise.
   */
  lemma {:induction false} KeysWithPrefixCounts(prefix: string, ks: seq<string>)
    ensures forall k :: multiset(KeysWithPrefix(prefix, ks))[k] == if StartsWith(k, prefix) then multiset(ks)[k] else 0
    decreases |ks|
  {
    if ks != [] {
      var init := ks[..|ks| - 1];
      var last := ks[|ks| - 1];
      KeysWithPrefixCounts(prefix, init);
      assert ks == init + [last];
      assert multiset(ks) == multiset(init) + multiset{last};
      var tail := if StartsWith(last, prefix) then [last] else [];
      assert KeysWithPrefix(prefix, ks) == KeysWithPrefix(prefix, init) + tail;
      assert multiset(KeysWithPrefix(prefix, ks)) == multiset(KeysWithPrefix(prefix, init)) + multiset(tail);
    }
  }

  /** `findFormDataArrayEntryKeys(propertyName, formDataKeys)` */
  method FindFormDataArrayEntryKeys(propertyName: string, formDataKeys: seq<string>) returns (keys: seq<string>)
    ensures keys == KeysWithPrefix(propertyName, formDataKeys)
    ensures forall k :: k in keys ==> StartsWith(k, propertyName)
    ensures forall k :: k in formDataKeys && StartsWith(k, propertyName) ==> k in keys
  {
    keys := [];
    var i := 0;
    while i < |formDataKeys|
      invariant 0 <= i <= |formDataKeys|
      invariant keys == KeysWithPrefix(propertyName, formDataKeys[..i])
    {
      var key := formDataKeys[i];
      assert formDataKeys[..i + 1][..i] == formDataKeys[..i];
      if StartsWith(key, propertyName) {
        keys := keys + [key];
      }
      i := i + 1;
    }
    assert formDataKeys[..|formDataKeys|] == formDataKeys;
    KeysWithPrefixCounts(propertyName, formDataKeys);
    forall k | k in keys ensures StartsWith(k, propertyName) {
      assert multiset(keys)[k] > 0;
    }
    forall k | k in formDataKeys && StartsWith(k, propertyName) ensures k in keys {
      assert multiset(formDataKeys)[k] > 0;
    }
  }

  /** The string values as JavaScript values. */
  function Strs(values: seq<string>): (r: seq<Value>)
    ensures |r| == |values| && forall i :: 0 <= i < |values| ==> r[i] == Str(values[i])
  {
    seq(|values|, i requires 0 <= i < |values| => Str(values[i]))
  }

  /**
   * `getFormDataValue(propertyName, data, single)`: undefined for a bag that is not FormData
   * or a name without entries; the first value when `single` is set or there is exactly one;
   * otherwise every value in entry order.
   */
  function GetFormDataValue(propertyName: string, data: Option<BagView>, single: bool := true): (r: Value)
    ensures !(data.Some? && data.value.FormView?) ==> r == Undefined
    ensures data.Some? && data.value.FormView? ==>
              var all := GetAll(data.value.entries, propertyName);
              && (all == [] ==> r == Undefined)
              && (all != [] && (single || |all| == 1) ==> r == Str(all[0]))
              && (|all| > 1 && !single ==> r == Arr(Strs(all)))
  {
    if !(data.Some? && data.value.FormView?) then Undefined
    else
      var value := GetAll(data.value.entries, propertyName);
      if |value| == 0 then Undefined
      else if single || |value| == 1 then Str(value[0])
      else Arr(Strs(value))
  }

  /**
   * `getValue(propertyName, data, single)`: undefined for an absent bag, the FormData lookup
   * for FormData, and the property itself for a record whatever `single` says.
   */
  function GetValue(propertyName: string, data: Option<BagView>, single: bool := true): (r: Value)
    ensures data.None? ==> r == Undefined
    ensures data.Some? && data.value.FormView? ==> r == GetFormDataValue(propertyName, data, single)
    ensures data.Some? && data.value.RecordView? ==>
              r == data.value.dict.Get(propertyName).GetOr(Undefined)
  {
    match data
    case None => Undefined
    case Some(FormView(_)) => GetFormDataValue(propertyName, data, single)
    case Some(RecordView(d)) => d.Get(propertyName).GetOr(Undefined)
  }

  /** Reading a FormData name back after `set` gives the stored text, whatever `single` says. */
  lemma GetValueAfterSet(entries: seq<Entry>, name: string, value: Value, single: bool)
    ensures GetValue(name, Some(FormView(SetEntries(entries, name, value))), single) == Str(ToJsString(value))
  {
    SetEntriesGetAll(entries, name, value, name);
  }

  /** Reading a FormData name back after `append` gives its first value, or all of them when not `single`. */
  lemma GetValueAfterAppend(entries: seq<Entry>, name: string, value: Value, single: bool)
    ensures var all := GetAll(entries, name) + [ToJsString(value)];
            GetValue(name, Some(FormView(Appended(entries, name, value))), single)
              == if single || |all| == 1 then Str(all[0]) else Arr(Strs(all))
  {
    AppendedGetAll(entries, name, value, name);
  }

  /**
   * `setValue(propertyName, value, data, overwrite)`: stores the value in the bag in place
   * and returns the bag; an absent bag becomes a fresh record holding only this property.
   */
  method SetValue(propertyName: string, value: Value, data: Option<Bag>, overwrite: bool := false) returns (r: Bag)
    modifies if data.Some? then data.value.Footprint() else {}
    ensures data.None? ==> r.RecordBag? && fresh(r.record) && r.record.dict == EmptyDict().Put(propertyName, value)
    ensures data.Some? ==> r == data.value
    ensures data.Some? && r.FormBag? && overwrite ==>
              r.form.entries == SetEntries(old(r.form.entries), propertyName, value)
    ensures data.Some? && r.FormBag? && !overwrite ==>
              r.form.entries == Appended(old(r.form.entries), propertyName, value)
    ensures data.Some? && r.RecordBag? ==> r.record.dict == old(r.record.dict).Put(propertyName, value)
    ensures r.RecordBag? ==> GetValue(propertyName, Some(r.View())) == value
    ensures r.FormBag? && overwrite ==> GetValue(propertyName, Some(r.View())) == Str(ToJsString(value))
  {
    if data.None? {
      var record := new JsRecord(EmptyDict());
      r := RecordBag(record);
    } else {
      r := data.value;
    }
    match r
    case FormBag(f) =>
      if overwrite {
        f.Set(propertyName, value);
        GetValueAfterSet(old(f.entries), propertyName, value, true);
      } else {
        f.Append(propertyName, value);
      }
    case RecordBag(rec) =>
      rec.dict := rec.dict.Put(propertyName, value);
  }

  /**
   * `clone(data)`: a fresh bag with the same contents (the same entries in the same order
   * for FormData, the same properties for a record); the original is left alone.
   */
  method Clone(data: Option<Bag>) returns (r: Option<Bag>)
    ensures data.None? ==> r.None?
    ensures data.Some? ==> r.Some? && r.value.RecordBag? == data.value.RecordBag?
    ensures data.Some? ==> fresh(r.value.Footprint()) && r.value.View() == data.value.View()
  {
    if data.None? {
      return None;
    }
    match data.value
    case FormBag(f) =>
      var clonedData := new FormData();
      var i := 0;
      while i < |f.entries|
        invariant 0 <= i <= |f.entries|
        invariant clonedData.entries == f.entries[..i]
      {
        var (key, value) := f.entries[i];
        clonedData.Append(key, Str(value));
        assert f.entries[..i + 1] == f.entries[..i] + [f.entries[i]];
        i := i + 1;
      }
      r := Some(FormBag(clonedData));
    case RecordBag(rec) =>
      var copy := new JsRecord(rec.dict);
      r := Some(RecordBag(copy));
  }
}
