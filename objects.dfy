/**
 * A plain JavaScript object as an ordered list of entries: `Object.keys`
 * enumerates them in order, reading a missing property gives `undefined`,
 * and assigning to a property keeps the position of an existing key and
 * appends a new one.
 */
module JsObjects {
  import opened JsValues

  type Entries = seq<(string, Value)>

  /** `Object.keys(object)`. */
  function Keys(entries: Entries): (r: seq<string>)
    ensures |r| == |entries|
    ensures forall i :: 0 <= i < |entries| ==> r[i] == entries[i].0
  {
    if entries == [] then [] else [entries[0].0] + Keys(entries[1..])
  }

  /** Every key occurs once, as in a JavaScript object. */
  predicate DistinctKeys(entries: Entries)
  {
    forall i, j :: 0 <= i < j < |entries| ==> entries[i].0 != entries[j].0
  }

  /** `object[key]`. */
  function Lookup(entries: Entries, key: string): Value
  {
    if entries == [] then Undefined
    else if entries[0].0 == key then entries[0].1
    else Lookup(entries[1..], key)
  }

  /** `object[key] = value`. */
  function Assign(entries: Entries, key: string, value: Value): Entries
  {
    if entries == [] then [(key, value)]
    else if entries[0].0 == key then [(key, value)] + entries[1..]
    else [entries[0]] + Assign(entries[1..], key, value)
  }

  /** Reading a key gives the value of its entry. */
  lemma {:induction false} LookupAt(entries: Entries, i: nat)
    requires DistinctKeys(entries) && i < |entries|
    ensures Lookup(entries, entries[i].0) == entries[i].1
  {
    if i > 0 {
      assert entries[0].0 != entries[i].0;
      assert entries[1..][i - 1] == entries[i];
      LookupAt(entries[1..], i - 1);
    }
  }

  /** A key with no entry reads as `undefined`. */
  lemma {:induction false} LookupMissing(entries: Entries, key: string)
    requires key !in Keys(entries)
    ensures Lookup(entries, key) == Undefined
  {
    if entries != [] {
      assert Keys(entries) == [entries[0].0] + Keys(entries[1..]);
      LookupMissing(entries[1..], key);
    }
  }

  /** After an assignment the key reads as the new value and every other key as before. */
  lemma {:induction false} AssignLookup(entries: Entries, key: string, value: Value, other: string)
    ensures Lookup(Assign(entries, key, value), key) == value
    ensures other != key ==> Lookup(Assign(entries, key, value), other) == Lookup(entries, other)
  {
    if entries != [] && entries[0].0 != key {
      AssignLookup(entries[1..], key, value, other);
      assert Assign(entries, key, value)[1..] == Assign(entries[1..], key, value);
    } else if entries != [] {
      assert Assign(entries, key, value)[1..] == entries[1..];
    }
  }

  /** Assigning to a new key appends an entry at the end. */
  lemma {:induction false} AssignNew(entries: Entries, key: string, value: Value)
    requires key !in Keys(entries)
    ensures Assign(entries, key, value) == entries + [(key, value)]
  {
    if entries != [] {
      assert entries[0].0 == Keys(entries)[0] && key != entries[0].0;
      assert key !in Keys(entries[1..]) by {
        forall j | 0 <= j < |entries| - 1 ensures Keys(entries[1..])[j] != key {
          assert Keys(entries[1..])[j] == Keys(entries)[j + 1];
        }
      }
      AssignNew(entries[1..], key, value);
      assert entries == [entries[0]] + entries[1..];
    }
  }

  /** Assigning to an existing key replaces its value in place. */
  lemma {:induction false} AssignExisting(entries: Entries, key: string, value: Value, i: nat)
    requires DistinctKeys(entries) && i < |entries| && entries[i].0 == key
    ensures Assign(entries, key, value) == entries[i := (key, value)]
  {
    if i > 0 {
      assert entries[0].0 != entries[i].0;
      assert entries[1..][i - 1] == entries[i];
      AssignExisting(entries[1..], key, value, i - 1);
      assert [entries[0]] + entries[1..][i - 1 := (key, value)] == entries[i := (key, value)];
    } else {
      assert [(key, value)] + entries[1..] == entries[0 := (key, value)];
    }
  }

  /** Assignment keeps the keys distinct. */
  lemma AssignDistinct(entries: Entries, key: string, value: Value)
    requires DistinctKeys(entries)
    ensures DistinctKeys(Assign(entries, key, value))
  {
    if key in Keys(entries) {
      var i :| 0 <= i < |Keys(entries)| && Keys(entries)[i] == key;
      AssignExisting(entries, key, value, i);
    } else {
      AssignNew(entries, key, value);
    }
  }

  /** A JavaScript object that the task updates in place. */
  class JsObject {
    var entries: Entries

    ghost predicate Valid()
      reads this
    {
      DistinctKeys(entries)
    }

    /** `{}`. */
    constructor ()
      ensures Valid() && entries == []
    {
      entries := [];
    }

    /** `Object.keys(this)`. */
    function ObjectKeys(): seq<string>
      reads this
    {
      Keys(entries)
    }

    /** `this[key]`. */
    function Get(key: string): Value
      reads this
    {
      Lookup(entries, key)
    }

    /** `this[key] = value`. */
    method Set(key: string, value: Value)
      requires Valid()
      modifies this
      ensures Valid()
      ensures entries == Assign(old(entries), key, value)
    {
      AssignDistinct(entries, key, value);
      entries := Assign(entries, key, value);
    }
  }
}
