/**
 * `parseOptions` and `shallowCopy`: the options record is copied key by key
 * into a fresh object, and on the copy `noTimeouts` is switched on when
 * `debug` or `debugBrk` is truthy (a debugger pauses the tests, so Mocha's
 * timeouts must not fire).
 */
module Options {
  import opened JsValues
  import opened JsObjects

  /** `options.debug || options.debugBrk` is truthy. */
  predicate Debugging(entries: Entries)
  {
    Truthy(Lookup(entries, "debug")) || Truthy(Lookup(entries, "debugBrk"))
  }

  /** The record `parseOptions` returns, as a function of the caller's record. */
  function ParsedOptions(entries: Entries): Entries
  {
    if Debugging(entries) then Assign(entries, "noTimeouts", Bool(true)) else entries
  }

  /** `shallowCopy(source)`: a fresh object holding the same entries in the same order. */
  method ShallowCopy(source: JsObject) returns (copy: JsObject)
    requires source.Valid()
    ensures fresh(copy) && copy.Valid()
    ensures copy.entries == source.entries
  {
    copy := new JsObject();
    var keys := source.ObjectKeys();
    var i := 0;
    while i < |keys|
      invariant 0 <= i <= |keys| == |source.entries|
      invariant copy.Valid() && copy.entries == source.entries[..i]
    {
      var key := keys[i];
      LookupAt(source.entries, i);
      assert key !in Keys(source.entries[..i]) by {
        forall j | 0 <= j < i ensures Keys(source.entries[..i])[j] != key {
          assert source.entries[..i][j] == source.entries[j];
        }
      }
      AssignNew(source.entries[..i], key, source.Get(key));
      copy.Set(key, source.Get(key));
      assert source.entries[..i + 1] == source.entries[..i] + [source.entries[i]];
      i := i + 1;
    }
    assert source.entries[..i] == source.entries;
  }

  /** `parseOptions(options)`: the caller's object is left as it was. */
  method ParseOptions(options: JsObject) returns (parsed: JsObject)
    requires options.Valid()
    ensures fresh(parsed) && parsed.Valid()
    ensures parsed.entries == ParsedOptions(options.entries)
    ensures options.entries == old(options.entries)
  {
    parsed := ShallowCopy(options);
    if Truthy(parsed.Get("debug")) || Truthy(parsed.Get("debugBrk")) {
      parsed.Set("noTimeouts", Bool(true));
    }
  }

  /**
   * With `debug` or `debugBrk` truthy, `noTimeouts` reads as `true`, an
   * existing `noTimeouts` entry keeps its position, a missing one is
   * appended, and every other key reads as before; otherwise the record is
   * returned as it was.
   */
  lemma ParsedOptionsSpec(entries: Entries, other: string)
    requires DistinctKeys(entries)
    ensures DistinctKeys(ParsedOptions(entries))
    ensures Debugging(entries) ==> Lookup(ParsedOptions(entries), "noTimeouts") == Bool(true)
    ensures Debugging(entries) ==>
      forall i :: 0 <= i < |entries| && entries[i].0 == "noTimeouts" ==>
        ParsedOptions(entries) == entries[i := ("noTimeouts", Bool(true))]
    ensures Debugging(entries) && "noTimeouts" !in Keys(entries) ==>
      ParsedOptions(entries) == entries + [("noTimeouts", Bool(true))]
    ensures other != "noTimeouts" ==> Lookup(ParsedOptions(entries), other) == Lookup(entries, other)
    ensures !Debugging(entries) ==> ParsedOptions(entries) == entries
  {
    AssignDistinct(entries, "noTimeouts", Bool(true));
    AssignLookup(entries, "noTimeouts", Bool(true), other);
    forall i | 0 <= i < |entries| && entries[i].0 == "noTimeouts"
      ensures Assign(entries, "noTimeouts", Bool(true)) == entries[i := ("noTimeouts", Bool(true))]
    {
      AssignExisting(entries, "noTimeouts", Bool(true), i);
    }
    if "noTimeouts" !in Keys(entries) {
      AssignNew(entries, "noTimeouts", Bool(true));
    }
  }

  /** The record comes back unchanged exactly when no debugger flag is set or `noTimeouts` already is `true`. */
  lemma ParsedOptionsUnchanged(entries: Entries)
    requires DistinctKeys(entries)
    ensures ParsedOptions(entries) == entries <==>
      !Debugging(entries) || Lookup(entries, "noTimeouts") == Bool(true)
  {
    if Debugging(entries) {
      if "noTimeouts" in Keys(entries) {
        var i :| 0 <= i < |Keys(entries)| && Keys(entries)[i] == "noTimeouts";
        AssignExisting(entries, "noTimeouts", Bool(true), i);
        LookupAt(entries, i);
      } else {
        AssignNew(entries, "noTimeouts", Bool(true));
        LookupMissing(entries, "noTimeouts");
      }
    }
  }

  /** Parsing an already parsed record changes nothing. */
  lemma ParsedOptionsIdempotent(entries: Entries)
    requires DistinctKeys(entries)
    ensures ParsedOptions(ParsedOptions(entries)) == ParsedOptions(entries)
  {
    var once := ParsedOptions(entries);
    ParsedOptionsSpec(entries, "debug");
    ParsedOptionsSpec(entries, "debugBrk");
    ParsedOptionsUnchanged(once);
  }
}
