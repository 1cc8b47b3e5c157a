/**
 * The host's FormData object, as section 5 of the WHATWG XMLHttpRequest Standard defines
 * it: an ordered list of (name, value) entries. `append` and `set` convert a non-Blob value
 * with ToString, so every entry value here is a string; Blob and File entries are not
 * modelled. Also the host's list iterator, as `FormData.prototype.keys()` returns it.
 */
module FormDataModel {
  import opened JsValues

  type Entry = (string, string)

  /** The names of the entries in order, duplicates kept (what `keys()` iterates). */
  function Names(entries: seq<Entry>): (r: seq<string>)
    ensures |r| == |entries| && forall i :: 0 <= i < |entries| ==> r[i] == entries[i].0
  {
    seq(|entries|, i requires 0 <= i < |entries| => entries[i].0)
  }

  /** `getAll(name)`: the values of the entries named `name`, in order. */
  function GetAll(entries: seq<Entry>, name: string): (r: seq<string>)
    ensures |r| <= |entries|
  {
    if entries == [] then []
    else (if entries[0].0 == name then [entries[0].1] else []) + GetAll(entries[1..], name)
  }

  lemma {:induction false} GetAllConcat(a: seq<Entry>, b: seq<Entry>, name: string)
    ensures GetAll(a + b, name) == GetAll(a, name) + GetAll(b, name)
    decreases |a|
  {
    if a != [] {
      assert (a + b)[1..] == a[1..] + b;
      GetAllConcat(a[1..], b, name);
    } else {
      assert a + b == b;
    }
  }

  lemma {:induction false} GetAllEmptyIffAbsent(entries: seq<Entry>, name: string)
    ensures GetAll(entries, name) == [] <==> name !in Names(entries)
    decreases |entries|
  {
    if entries != [] {
      GetAllEmptyIffAbsent(entries[1..], name);
      assert Names(entries) == [entries[0].0] + Names(entries[1..]);
    }
  }

  /** `append(name, value)`: one more entry at the end. */
  function Appended(entries: seq<Entry>, name: string, value: Value): (r: seq<Entry>)
    ensures |r| == |entries| + 1 && r[..|entries|] == entries
  {
    entries + [(name, ToJsString(value))]
  }

  lemma AppendedGetAll(entries: seq<Entry>, name: string, value: Value, other: string)
    ensures GetAll(Appended(entries, name, value), name) == GetAll(entries, name) + [ToJsString(value)]
    ensures other != name ==> GetAll(Appended(entries, name, value), other) == GetAll(entries, other)
  {
    GetAllConcat(entries, [(name, ToJsString(value))], name);
    GetAllConcat(entries, [(name, ToJsString(value))], other);
  }

  /** The entries not named `name`, in order. */
  function RemoveNamed(entries: seq<Entry>, name: string): (r: seq<Entry>)
    ensures GetAll(r, name) == []
  {
    if entries == [] then []
    else if entries[0].0 == name then RemoveNamed(entries[1..], name)
    else [entries[0]] + RemoveNamed(entries[1..], name)
  }

  /** The first entry named `name` becomes `(name, value)`, later ones are removed. */
  function ReplaceFirstNamed(entries: seq<Entry>, name: string, value: string): seq<Entry> {
    if entries == [] then []
    else if entries[0].0 == name then [(name, value)] + RemoveNamed(entries[1..], name)
    else [entries[0]] + ReplaceFirstNamed(entries[1..], name, value)
  }

  /**
   * `set(name, value)`: replace the first entry named `name` and remove the others, or
   * append when there is none.
   */
  function SetEntries(entries: seq<Entry>, name: string, value: Value): seq<Entry> {
    if name in Names(entries) then ReplaceFirstNamed(entries, name, ToJsString(value))
    else Appended(entries, name, value)
  }

  lemma {:induction false} RemoveNamedOthers(entries: seq<Entry>, name: string, other: string)
    requires other != name
    ensures GetAll(RemoveNamed(entries, name), other) == GetAll(entries, other)
    decreases |entries|
  {
    if entries != [] {
      RemoveNamedOthers(entries[1..], name, other);
    }
  }

  lemma {:induction false} ReplaceFirstNamedGetAll(entries: seq<Entry>, name: string, value: string, other: string)
    requires name in Names(entries)
    ensures GetAll(ReplaceFirstNamed(entries, name, value), name) == [value]
    ensures other != name ==> GetAll(ReplaceFirstNamed(entries, name, value), other) == GetAll(entries, other)
    decreases |entries|
  {
    assert Names(entries) == [entries[0].0] + Names(entries[1..]);
    if entries[0].0 == name {
      if other != name {
        RemoveNamedOthers(entries[1..], name, other);
      }
    } else {
      ReplaceFirstNamedGetAll(entries[1..], name, value, other);
    }
  }

  /** After `set(name, value)` exactly one entry carries `name`, and no other name's values change. */
  lemma SetEntriesGetAll(entries: seq<Entry>, name: string, value: Value, other: string)
    ensures GetAll(SetEntries(entries, name, value), name) == [ToJsString(value)]
    ensures other != name ==> GetAll(SetEntries(entries, name, value), other) == GetAll(entries, other)
  {
    if name in Names(entries) {
      ReplaceFirstNamedGetAll(entries, name, ToJsString(value), other);
    } else {
      GetAllEmptyIffAbsent(entries, name);
      AppendedGetAll(entries, name, value, other);
    }
  }

  datatype IteratorResult<T> = Yield(value: T) | Done

  /** An IterableIterator over a fixed list, as the host hands one out. */
  class ListIterator<T> {
    const items: seq<T>
    var position: nat
    /** How many times `next()` has been called. */
    ghost var nextCalls: nat

    ghost predicate Valid()
      reads this
    {
      position <= |items|
    }

    constructor(items: seq<T>)
      ensures Valid() && this.items == items && position == 0 && nextCalls == 0
    {
      this.items := items;
      position := 0;
      nextCalls := 0;
    }

    /** `next()` */
    method Next() returns (r: IteratorResult<T>)
      requires Valid()
      modifies this
      ensures Valid() && nextCalls == old(nextCalls) + 1
      ensures old(position) < |items| ==> r == Yield(items[old(position)]) && position == old(position) + 1
      ensures old(position) == |items| ==> r == Done && position == old(position)
    {
      nextCalls := nextCalls + 1;
      if position < |items| {
        r := Yield(items[position]);
        position := position + 1;
      } else {
        r := Done;
      }
    }
  }

  /** The host's FormData object. */
  class FormData {
    var entries: seq<Entry>

    /** `new FormData()` */
    constructor()
      ensures entries == []
    {
      entries := [];
    }

    method Append(name: string, value: Value)
      modifies this
      ensures entries == Appended(old(entries), name, value)
    {
      entries := entries + [(name, ToJsString(value))];
    }

    method Set(name: string, value: Value)
      modifies this
      ensures entries == SetEntries(old(entries), name, value)
      ensures GetAll(entries, name) == [ToJsString(value)]
    {
      SetEntriesGetAll(entries, name, value, name);
      entries := SetEntries(entries, name, value);
    }

    /** `keys()`: a fresh iterator over the entry names. */
    method Keys() returns (it: ListIterator<string>)
      ensures fresh(it) && it.Valid() && it.items == Names(entries) && it.position == 0
    {
      it := new ListIterator(Names(entries));
    }
  }
}
