/**
 * `formatCliOptions`: each option becomes a command-line fragment chosen by
 * the type of its value, fragments are split on spaces and the pieces are
 * flattened into one argument list, in the key order of the options.
 *
 * The source is a `map` / `filter` / `map` / `reduce` pipeline; the model
 * keeps the four stages (`MapFragments`, `DropNulls`, `SplitEach`,
 * `ConcatAll`) and proves them equal to a per-option reference,
 * `ExpectedFlags`, built from `OptionTokens`.
 */
module CliOptions {
  import opened JsValues
  import opened JsStrings
  import opened CaseConversion
  import opened JsObjects

  function FormatBooleanOption(name: string, value: bool): Option<string>
  {
    if !value then None else Some("--" + name)
  }

  function FormatNumberOption(name: string, value: int): string
  {
    "--" + name + " " + IntToString(value)
  }

  function FormatStringOption(name: string, value: string): string
  {
    "--" + name + " " + value
  }

  function FormatArrayOption(name: string, value: seq<string>, separator: string): Option<string>
  {
    if |value| == 0 then None else Some("--" + name + " " + Join(value, separator))
  }

  /** `Object.keys(value).map(k => k + assignment + value[k])`. */
  function KeyValuePairs(props: seq<(string, string)>, assignment: string): seq<string>
  {
    if props == [] then [] else [props[0].0 + assignment + props[0].1] + KeyValuePairs(props[1..], assignment)
  }

  function FormatKeyValueOption(name: string, value: seq<(string, string)>, assignment: string, separator: string): Option<string>
  {
    if |value| == 0 then None else Some("--" + name + " " + Join(KeyValuePairs(value, assignment), separator))
  }

  /** The value types `formatCliOptions` knows how to render. */
  predicate Supported(value: Value)
  {
    !value.Other?
  }

  predicate AllSupported(options: Entries)
  {
    forall i :: 0 <= i < |options| ==> Supported(options[i].1)
  }

  /**
   * The callback of the first `map`: the fragment of one option, `None` for
   * an option that is dropped, and a thrown `TaskError` for a value of a
   * type it cannot render.
   */
  function FormatOption(key: string, value: Value): (r: Result<Option<string>, TaskError>)
    ensures r.Failure? <==> !Supported(value)
    ensures r.Failure? ==> r.error == TaskError("Invalid option: " + key)
  {
    var name := DashCase(key);
    if !Truthy(value) then Success(None)
    else if value.Bool? then Success(FormatBooleanOption(name, value.b))
    else if value.Int? then Success(Some(FormatNumberOption(name, value.n)))
    else if value.Str? then Success(Some(FormatStringOption(name, value.s)))
    else if value.Arr? then Success(FormatArrayOption(name, value.items, ","))
    else if value.Obj? then
      if name == "compilers" then Success(FormatKeyValueOption(name, value.props, ":", ","))
      else Success(FormatKeyValueOption(name, value.props, "=", ","))
    else Failure(TaskError("Invalid option: " + key))
  }

  /** `Object.keys(options).map(...)`: the callback runs key by key and the first throw ends the task. */
  function MapFragments(options: Entries): Result<seq<Option<string>>, TaskError>
  {
    if options == [] then Success([])
    else
      match FormatOption(options[0].0, options[0].1)
      case Failure(e) => Failure(e)
      case Success(fragment) =>
        match MapFragments(options[1..])
        case Failure(e) => Failure(e)
        case Success(rest) => Success([fragment] + rest)
  }

  /** `.filter(arg => arg !== null)`. */
  function DropNulls(fragments: seq<Option<string>>): seq<string>
  {
    if fragments == [] then []
    else (if fragments[0].Some? then [fragments[0].value] else []) + DropNulls(fragments[1..])
  }

  /** `.map(arg => arg.split(' '))`. */
  function SplitEach(fragments: seq<string>): seq<seq<string>>
  {
    if fragments == [] then [] else [Split(fragments[0], ' ')] + SplitEach(fragments[1..])
  }

  /** `.reduce((args, arg) => args.concat(arg), args)`. */
  function ConcatAll(args: seq<string>, parts: seq<seq<string>>): seq<string>
    decreases |parts|
  {
    if parts == [] then args else ConcatAll(args + parts[0], parts[1..])
  }

  /** `formatCliOptions(options)`. */
  function FormatCliOptions(options: Entries): Result<seq<string>, TaskError>
  {
    match MapFragments(options)
    case Failure(e) => Failure(e)
    case Success(fragments) => Success(ConcatAll([], SplitEach(DropNulls(fragments))))
  }

  // ---- Reference specification ------------------------------------------

  /** The key of the first option, in key order, whose value cannot be rendered. */
  function InvalidKey(options: Entries): (r: Option<string>)
    ensures r.None? <==> AllSupported(options)
  {
    if options == [] then None
    else if !Supported(options[0].1) then Some(options[0].0)
    else
      assert forall i :: 1 <= i < |options| ==> options[i] == options[1..][i - 1];
      InvalidKey(options[1..])
  }

  /** The tokens one option contributes: none when it is dropped, otherwise its fragment split on spaces. */
  function OptionTokens(key: string, value: Value): seq<string>
    requires Supported(value)
  {
    match FormatOption(key, value).value
    case None => []
    case Some(fragment) => Split(fragment, ' ')
  }

  /** The argument list the options should give: each option's tokens, in key order. */
  function ExpectedFlags(options: Entries): seq<string>
    requires AllSupported(options)
  {
    if options == [] then []
    else
      assert forall i :: 0 <= i < |options[1..]| ==> options[1..][i] == options[i + 1];
      OptionTokens(options[0].0, options[0].1) + ExpectedFlags(options[1..])
  }

  // ---- The pipeline meets the reference ---------------------------------

  function Flatten(parts: seq<seq<string>>): seq<string>
  {
    if parts == [] then [] else parts[0] + Flatten(parts[1..])
  }

  function FragmentTokens(fragment: Option<string>): seq<string>
  {
    match fragment
    case None => []
    case Some(f) => Split(f, ' ')
  }

  lemma {:induction false} ConcatAllFlatten(args: seq<string>, parts: seq<seq<string>>)
    ensures ConcatAll(args, parts) == args + Flatten(parts)
    decreases |parts|
  {
    if parts != [] {
      ConcatAllFlatten(args + parts[0], parts[1..]);
      assert args + parts[0] + Flatten(parts[1..]) == args + (parts[0] + Flatten(parts[1..]));
    }
  }

  lemma PipelineCons(fragment: Option<string>, rest: seq<Option<string>>)
    ensures Flatten(SplitEach(DropNulls([fragment] + rest)))
         == FragmentTokens(fragment) + Flatten(SplitEach(DropNulls(rest)))
  {
    var all := [fragment] + rest;
    assert all[0] == fragment && all[1..] == rest;
    var d := DropNulls(all);
    if fragment.Some? {
      assert d == [fragment.value] + DropNulls(rest);
      assert d[0] == fragment.value && d[1..] == DropNulls(rest);
      var s := SplitEach(d);
      assert s == [Split(fragment.value, ' ')] + SplitEach(DropNulls(rest));
      assert s[0] == Split(fragment.value, ' ') && s[1..] == SplitEach(DropNulls(rest));
    } else {
      assert d == DropNulls(rest);
    }
  }

  lemma {:induction false} MapFragmentsCorrect(options: Entries)
    ensures InvalidKey(options).Some? ==>
      MapFragments(options) == Failure(TaskError("Invalid option: " + InvalidKey(options).value))
    ensures InvalidKey(options).None? ==>
      MapFragments(options).Success? &&
      Flatten(SplitEach(DropNulls(MapFragments(options).value))) == ExpectedFlags(options)
  {
    if options != [] {
      MapFragmentsCorrect(options[1..]);
      var head := FormatOption(options[0].0, options[0].1);
      if head.Success? && MapFragments(options[1..]).Success? {
        PipelineCons(head.value, MapFragments(options[1..]).value);
      }
    }
  }

  /**
   * `formatCliOptions` throws `Invalid option: <key>` for the first option in
   * key order whose value it cannot render, and otherwise returns every
   * option's tokens in key order.
   */
  lemma FormatCliOptionsCorrect(options: Entries)
    ensures InvalidKey(options).Some? ==>
      FormatCliOptions(options) == Failure(TaskError("Invalid option: " + InvalidKey(options).value))
    ensures InvalidKey(options).None? ==>
      FormatCliOptions(options) == Success(ExpectedFlags(options))
  {
    MapFragmentsCorrect(options);
    if InvalidKey(options).None? {
      var parts := SplitEach(DropNulls(MapFragments(options).value));
      ConcatAllFlatten([], parts);
      assert [] + Flatten(parts) == Flatten(parts);
    }
  }

  /** The invalid key reported is that of the first option, in key order, with an unrenderable value. */
  lemma {:induction false} InvalidKeyFirst(options: Entries)
    ensures InvalidKey(options).Some? ==>
      exists i :: 0 <= i < |options| && options[i].0 == InvalidKey(options).value &&
        !Supported(options[i].1) && AllSupported(options[..i])
  {
    if options != [] && Supported(options[0].1) {
      InvalidKeyFirst(options[1..]);
      if InvalidKey(options).Some? {
        var i :| 0 <= i < |options[1..]| && options[1..][i].0 == InvalidKey(options).value &&
          !Supported(options[1..][i].1) && AllSupported(options[1..][..i]);
        assert options[..i + 1] == [options[0]] + options[1..][..i];
      }
    } else if options != [] {
      assert AllSupported(options[..0]);
    }
  }

  /** Concatenated options give concatenated flags: flags follow the key order. */
  lemma {:induction false} FlagsAppend(first: Entries, second: Entries)
    requires AllSupported(first) && AllSupported(second)
    ensures AllSupported(first + second)
    ensures ExpectedFlags(first + second) == ExpectedFlags(first) + ExpectedFlags(second)
  {
    if first != [] {
      assert (first + second)[1..] == first[1..] + second;
      FlagsAppend(first[1..], second);
    } else {
      assert first + second == second;
    }
  }

  /** Concatenated options report the first invalid key of the first part, else of the second. */
  lemma {:induction false} InvalidKeyAppend(first: Entries, second: Entries)
    ensures InvalidKey(first + second) == if InvalidKey(first).Some? then InvalidKey(first) else InvalidKey(second)
  {
    if first != [] {
      assert (first + second)[1..] == first[1..] + second;
      InvalidKeyAppend(first[1..], second);
    } else {
      assert first + second == second;
    }
  }

  // ---- What one option renders to ---------------------------------------

  lemma NoSpaceFlag(key: string)
    requires ' ' !in key
    ensures ' ' !in "--" + DashCase(key)
  {
    DashCaseNoSpace(key);
  }

  /**
   * How each type renders, for a truthy value and a key without spaces: a
   * boolean gives the bare flag, a number the flag and its decimal digits,
   * a string the flag followed by the value split on spaces, an array the
   * flag followed by the comma-joined elements, and an object the flag
   * followed by its comma-joined pairs, with `:` between key and value for
   * `compilers` and `=` for every other option.
   */
  lemma OptionTokensRendering(key: string, value: Value)
    requires Supported(value) && Truthy(value)
    requires ' ' !in key
    ensures value.Bool? ==> OptionTokens(key, value) == ["--" + DashCase(key)]
    ensures value.Int? ==> OptionTokens(key, value) == ["--" + DashCase(key), IntToString(value.n)]
    ensures value.Str? ==> OptionTokens(key, value) == ["--" + DashCase(key)] + Split(value.s, ' ')
    ensures value.Arr? && |value.items| > 0 ==>
      OptionTokens(key, value) == ["--" + DashCase(key)] + Split(Join(value.items, ","), ' ')
    ensures value.Obj? && |value.props| > 0 ==>
      OptionTokens(key, value) ==
        ["--" + DashCase(key)] + Split(Join(KeyValuePairs(value.props, if key == "compilers" then ":" else "="), ","), ' ')
  {
    var flag := "--" + DashCase(key);
    NoSpaceFlag(key);
    DashCaseCompilers(key);
    match value
    case Bool(_) =>
      SplitNoSep(flag, ' ');
    case Int(n) =>
      IntToStringPlain(n);
      SplitPrefix(flag, ' ', IntToString(n));
      SplitNoSep(IntToString(n), ' ');
    case Str(s) =>
      SplitPrefix(flag, ' ', s);
    case Arr(items) =>
      SplitPrefix(flag, ' ', Join(items, ","));
    case Obj(props) =>
      SplitPrefix(flag, ' ', Join(KeyValuePairs(props, ":"), ","));
      SplitPrefix(flag, ' ', Join(KeyValuePairs(props, "="), ","));
  }

  /** An option contributes no token exactly when its value is falsy, an empty array or an empty object. */
  lemma OptionTokensDropped(key: string, value: Value)
    requires Supported(value)
    ensures OptionTokens(key, value) == [] <==> !Truthy(value) || value == Arr([]) || value == Obj([])
  {
    var r := FormatOption(key, value).value;
    if r.Some? {
      assert |Split(r.value, ' ')| >= 1;
    }
  }

  /**
   * The tokens of an option that contributes any, joined by spaces, are its
   * fragment, which starts with `--` and the dash-case name; when the key
   * has no space the first token is that flag.
   */
  lemma OptionTokensShape(key: string, value: Value)
    requires Supported(value)
    ensures OptionTokens(key, value) != [] ==>
      FormatOption(key, value).value.Some? &&
      Join(OptionTokens(key, value), " ") == FormatOption(key, value).value.value &&
      "--" + DashCase(key) <= FormatOption(key, value).value.value
    ensures OptionTokens(key, value) != [] && ' ' !in key ==> OptionTokens(key, value)[0] == "--" + DashCase(key)
  {
    var r := FormatOption(key, value).value;
    if r.Some? {
      SplitJoin(r.value, ' ');
      if ' ' !in key && Truthy(value) {
        OptionTokensRendering(key, value);
      }
    }
  }

  /** Inserting an option that contributes no token anywhere leaves the result of `formatCliOptions` as it was. */
  lemma SkipDropped(first: Entries, key: string, value: Value, second: Entries)
    requires !Truthy(value) || value == Arr([]) || value == Obj([])
    ensures FormatCliOptions(first + [(key, value)] + second) == FormatCliOptions(first + second)
  {
    var all := first + [(key, value)] + second;
    var tail := [(key, value)] + second;
    assert all == first + tail;
    assert tail[1..] == second;
    InvalidKeyAppend(first, tail);
    InvalidKeyAppend(first, second);
    FormatCliOptionsCorrect(all);
    FormatCliOptionsCorrect(first + second);
    assert tail[0] == (key, value);
    assert InvalidKey(tail) == InvalidKey(second);
    if InvalidKey(all).None? {
      OptionTokensDropped(key, value);
      assert ExpectedFlags(tail) == ExpectedFlags(second);
      FlagsAppend(first, tail);
      FlagsAppend(first, second);
    }
  }
}
