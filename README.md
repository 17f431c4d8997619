# Mocha task: options to command line

A model of the `mocha` task of a JavaScript build tool (`lib/tasks/mocha.js`).
The task is called with a configuration record `{ files, options }`:

- it throws `No files specified` when `files` is falsy, and wraps a single
  file name in a one-element list;
- `parseOptions` copies the options object key by key and, when `debug` or
  `debugBrk` is truthy, sets `noTimeouts` on the copy;
- `formatCliOptions` turns every option into a command-line fragment
  chosen by the type of its value, splits the fragments on spaces and
  concatenates the pieces in key order;
- the task launches Node with `<mochaPath> <flags> <files>`, and the child's
  exit code and signal settle the task's promise.

Modules, one per concern of the source:

- `JsValues`: JavaScript values and truthiness, `Option`/`Result`, and `TaskError`.
- `JsStrings`: `join`, `split` on one character, and decimal integer printing, each with its inverse.
- `CaseConversion`: the camel-case to dash-case conversion and its inverse.
- `JsObjects`: an object as an ordered list of entries, following `Object.keys` order. It gives a functional `Lookup`/`Assign` and a `JsObject` class that is updated in place.
- `Options`: the `shallowCopy` and `parseOptions` methods on `JsObject`, with their specification function `ParsedOptions`.
- `CliOptions`: the four-stage `formatCliOptions` pipeline. A lemma proves it equal to a per-option reference, `ExpectedFlags`.
- `MochaTask`: the whole task up to `spawn`, as a function and as a method, plus the exit-status classification and the expectations of the task's tests.

## Model

| member | source | states |
|---|---|---|
| JsValues.FalsyValues | lib/tasks/mocha.js:8-11 | the falsy values are exactly `undefined`, `null`, `false`, `0` and `''`; empty arrays and objects are truthy |
| JsStrings.SplitJoin | lib/tasks/mocha.js:70-72 | joining the pieces of `split` with the separator gives back the string, and no piece holds the separator |
| JsStrings.JoinSplit | lib/tasks/mocha.js:70-72 | splitting a join of separator-free pieces gives back the pieces |
| JsStrings.SplitPrefix | lib/tasks/mocha.js:70-72 | a separator-free prefix followed by the separator becomes the first piece, and the rest splits on its own |
| JsStrings.IntToStringRoundTrip | lib/tasks/mocha.js:83-85 | the decimal rendering of an integer reads back as that integer |
| JsStrings.NatToString | lib/tasks/mocha.js:83-85 | the decimal rendering is never empty and has no leading zero |
| JsStrings.IntToStringPlain | lib/tasks/mocha.js:83-85 | a rendered integer is non-empty and holds no space and no comma, so it stays one token |
| CaseConversion.DashCaseAppend | lib/tasks/mocha.js:107-111 | the conversion works character by character: it distributes over concatenation |
| CaseConversion.DashCaseNoUpper | lib/tasks/mocha.js:107-111 | the dash-case form contains no capital letter |
| CaseConversion.DashCaseIdentity | lib/tasks/mocha.js:107-111 | a name without capital letters is its own dash-case form |
| CaseConversion.DashCaseOneCapital | lib/tasks/mocha.js:107-111 | one capital between lower-case parts becomes `-` and its lower-case letter |
| CaseConversion.DashCaseWithoutDash | lib/tasks/mocha.js:107-111 | a dash-case form with no dash is the name itself |
| CaseConversion.DashCaseNoSpace | lib/tasks/mocha.js:107-111 | the conversion introduces no space |
| CaseConversion.DashCaseCompilers | lib/tasks/mocha.js:60 | the dash-case name is `compilers` exactly when the key is `compilers` |
| CaseConversion.CamelCaseRoundTrip | lib/tasks/mocha.js:107-111 | `CamelCase` undoes the conversion on every name without a dash |
| CaseConversion.DashCaseInjective | lib/tasks/mocha.js:107-111 | distinct keys without dashes give distinct flags |
| JsObjects.LookupAt | lib/tasks/mocha.js:39 | reading a present key gives the value of its entry |
| JsObjects.LookupMissing | lib/tasks/mocha.js:32 | reading an absent key gives `undefined` |
| JsObjects.AssignLookup | lib/tasks/mocha.js:33 | after an assignment the key reads as the new value and every other key reads as before |
| JsObjects.AssignNew | lib/tasks/mocha.js:33 | assigning to a new key appends an entry at the end |
| JsObjects.AssignExisting | lib/tasks/mocha.js:33 | assigning to an existing key replaces its value in place |
| JsObjects.AssignDistinct | lib/tasks/mocha.js:33 | assignment keeps the keys distinct |
| JsObjects.JsObject.Set | lib/tasks/mocha.js:33 | the object's entries become the functional assignment of the old entries, and the keys stay distinct |
| Options.ShallowCopy | lib/tasks/mocha.js:37-42 | the copy is a fresh object with the same entries in the same order |
| Options.ParseOptions | lib/tasks/mocha.js:30-36 | the result is a fresh object equal to `ParsedOptions` of the caller's entries, and the caller's object is unchanged |
| Options.ParsedOptionsSpec | lib/tasks/mocha.js:32-34 | with `debug` or `debugBrk` truthy, `noTimeouts` reads `true`: an existing entry keeps its position, a missing one is appended, and every other key reads as before; otherwise the record is returned as it was |
| Options.ParsedOptionsUnchanged | lib/tasks/mocha.js:32-34 | the record comes back unchanged exactly when no debugger flag is truthy or `noTimeouts` already is `true` |
| Options.ParsedOptionsIdempotent | lib/tasks/mocha.js:30-36 | parsing a parsed record changes nothing |
| CliOptions.FormatOption | lib/tasks/mocha.js:46-67 | the callback throws exactly for a value of a type it cannot render, and then with `Invalid option: <key>` |
| CliOptions.InvalidKey | lib/tasks/mocha.js:65-66 | no invalid key is found exactly when every value can be rendered |
| CliOptions.ConcatAllFlatten | lib/tasks/mocha.js:73-75 | the `reduce` with `concat` is the accumulator followed by the flattened pieces |
| CliOptions.MapFragmentsCorrect | lib/tasks/mocha.js:46-72 | the `map`/`filter`/`map` stages fail with the first invalid key, or give every option's tokens in key order |
| CliOptions.FormatCliOptionsCorrect | lib/tasks/mocha.js:45-75 | `formatCliOptions` throws `Invalid option: <key>` for the first unrenderable option in key order, and otherwise returns `ExpectedFlags` |
| CliOptions.InvalidKeyFirst | lib/tasks/mocha.js:65-66 | the reported key belongs to an unrenderable option, and every earlier option can be rendered |
| CliOptions.FlagsAppend | lib/tasks/mocha.js:46 | the flags of concatenated options are the concatenated flags, so flags follow key order |
| CliOptions.InvalidKeyAppend | lib/tasks/mocha.js:46 | concatenated options report the first part's invalid key when it has one, else the second part's |
| CliOptions.NoSpaceFlag | lib/tasks/mocha.js:78-80 | the flag of a key without spaces has no space |
| CliOptions.OptionTokensRendering | lib/tasks/mocha.js:51-105 | for a truthy value and a key without spaces: a boolean gives the bare flag; a number gives the flag and its digits; a string gives the flag and the value split on spaces; an array gives the flag and the `,`-joined elements; an object gives the flag and its `,`-joined pairs, with `:` for `compilers` and `=` for every other key |
| CliOptions.OptionTokensDropped | lib/tasks/mocha.js:49-99 | an option gives no token exactly when its value is falsy, an empty array or an empty object |
| CliOptions.OptionTokensShape | lib/tasks/mocha.js:70-105 | the tokens of an option that gives any, joined by spaces, are its fragment, which starts with `--` and the dash-case name; for a key without spaces that flag is the first token |
| CliOptions.SkipDropped | lib/tasks/mocha.js:49-69 | inserting an option that gives no token anywhere leaves `formatCliOptions`'s result unchanged |
| MochaTask.RunTask | lib/tasks/mocha.js:7-23 | the launch the source computes from a files value and an options object (or none) equals the functional `Task` |
| MochaTask.TaskOutcome | lib/tasks/mocha.js:7-23 | a falsy `files` throws `No files specified` whatever the options; otherwise the first unrenderable parsed option throws `Invalid option: <key>`; otherwise the launch is the mocha path, the options' tokens in key order, then the files |
| MochaTask.TaskNoFiles | lib/tasks/mocha.js:8-13 | the task throws `No files specified` exactly when `files` is falsy, and the message contains `No files` |
| MochaTask.TaskFilesLast | lib/tasks/mocha.js:14-22 | in a launch the mocha path comes first and the files come last, in order with duplicates kept; a string is wrapped as one file and an array is kept |
| MochaTask.ExitClassification | lib/tasks/mocha.js:117-127 | exit code 0 resolves and 1 rejects with `Tests failed`, whatever the signal; any other exit rejects with `Process terminated with <signal>` when a signal is given, and with no value otherwise |
| MochaTask.DebuggerOptionsParsed | test/spec/mocha.spec.js:328-394 | `{ debug: true }` and `{ debugBrk: true }` parse to the same key followed by `noTimeouts: true` |
| MochaTask.NoTimeoutsName | test/spec/mocha.spec.js:233 | `noTimeouts` becomes `--no-timeouts` |
| MochaTask.DebuggerName | test/spec/mocha.spec.js:215-227 | `debug` becomes `--debug` and `debugBrk` becomes `--debug-brk` |
| MochaTask.BareFlag | lib/tasks/mocha.js:78-81 | an option set to `true` whose key has no space gives only its flag |
| MochaTask.TwoBareFlags | lib/tasks/mocha.js:46-81 | two options set to `true` whose keys have no space give their two flags, in order |
| MochaTask.SpawnsWithFlags | lib/tasks/mocha.js:14-22 | with an array of files and renderable options, the launch is the mocha path, the flags, then the files |
| MochaTask.SpawnsWithTwoFlags | lib/tasks/mocha.js:14-22 | when the options render to two flags, the launch is the mocha path, those two flags, then the files |
| MochaTask.DebuggerTurnsOffTimeouts | test/spec/mocha.spec.js:328-394 | with `debug: true` alone the launch is `--debug --no-timeouts` and the files; with `debugBrk: true` alone it is `--debug-brk --no-timeouts` and the files |
| MochaTask.StringFilesBecomeList | test/spec/mocha.spec.js:305-326 | a single file name is launched as the one file argument |

## Left out

- `spawn`, `process.execPath` and stdio inheritance (lib/tasks/mocha.js:116): process I/O outside the model. A launch is modelled as the argument vector passed to Node.
- SIGINT forwarding and listener registration (lib/tasks/mocha.js:128-142): event-driven signal handling on global process state.
- The `Promise` (lib/tasks/mocha.js:115): the exit listener is the function `OnExit`, which gives the settlement.
- The mocha path from `path.resolve`/`path.join` (lib/tasks/mocha.js:19, 26-28): a library call that depends on the install location. `mochaPath` is a parameter.
- Numbers that are not integers, `NaN` and infinities: floating point. Options hold integers only.
- IntToString: prints every integer in plain decimal. JavaScript numbers are doubles and print in exponent notation from 1e21 on, so very large values are not modelled.
- Array elements and the property values of nested objects are strings. JavaScript builds each joined value through string conversion of any element, which the model does not cover.
- `Object.keys` enumerates integer-like keys first, in numeric order. For both the options and nested objects, the model keeps entries in insertion order only.
- `options` is either an options record or absent. A truthy options value that is not an object is not modelled.
- `Other` stands for every truthy value of an unhandled type (function, symbol). The model does not tell these apart.
- `description` and `defaults` (lib/tasks/mocha.js:148-153): constant metadata.
- The combined expectation of test/spec/mocha.spec.js:143-256 is not stated as one literal record. It is covered per value type by `CliOptions.OptionTokensRendering` and composed in key order by `CliOptions.FlagsAppend`.
- The test file's mocks of `spawn` and `process`.
