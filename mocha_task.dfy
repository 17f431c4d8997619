/**
 * The exported task: it checks and normalises `files`, turns the options
 * into Mocha flags, and launches `<mochaPath> <flags> <files>` under Node;
 * when the child exits, its exit code and signal settle the task's promise.
 * The launch itself, the mocha path lookup and SIGINT forwarding are not
 * modelled: the path is a parameter and a launch is the argument vector.
 */
module MochaTask {
  import opened JsValues
  import opened JsObjects
  import opened Options
  import opened CliOptions
  import CaseConversion

  /** The task's configuration record: `files` and, when it is truthy, `options`. */
  datatype Config = Config(files: Value, options: Option<Entries>)

  /** What one call of the task does: throw at once, or spawn Node with an argument vector. */
  datatype Launch = Thrown(error: TaskError) | Spawned(args: seq<Value>)

  const NoFilesError := TaskError("No files specified")

  function StrValues(items: seq<string>): (r: seq<Value>)
    ensures |r| == |items|
    ensures forall i :: 0 <= i < |items| ==> r[i] == Str(items[i])
  {
    seq(|items|, i requires 0 <= i < |items| => Str(items[i]))
  }

  /** `config.files || null`, then an array is kept and any other value wrapped in one. */
  function FilesArray(files: Value): Result<seq<Value>, TaskError>
  {
    if !Truthy(files) then Failure(NoFilesError)
    else if files.Arr? then Success(StrValues(files.items))
    else Success([files])
  }

  /** `config.options || {}`. */
  function OptionsOrEmpty(options: Option<Entries>): Entries
  {
    if options.Some? then options.value else []
  }

  /** `[mochaPath].concat(cliOptions).concat(files)`. */
  function LaunchArgs(mochaPath: string, cliOptions: seq<string>, files: seq<Value>): seq<Value>
  {
    [Str(mochaPath)] + StrValues(cliOptions) + files
  }

  /** The task body together with `launchMocha`, up to the call of `spawn`. */
  function Task(mochaPath: string, config: Config): Launch
  {
    match FilesArray(config.files)
    case Failure(e) => Thrown(e)
    case Success(files) =>
      match FormatCliOptions(ParsedOptions(OptionsOrEmpty(config.options)))
      case Failure(e) => Thrown(e)
      case Success(cliOptions) => Spawned(LaunchArgs(mochaPath, cliOptions, files))
  }

  /**
   * The task as the source runs it: the caller's options object (or a fresh
   * `{}`) goes through `parseOptions`, which copies it, and the copy is
   * formatted. The caller's object is not changed.
   */
  method RunTask(mochaPath: string, files: Value, options: JsObject?) returns (launch: Launch)
    requires options != null ==> options.Valid()
    ensures launch == Task(mochaPath, Config(files, if options == null then None else Some(options.entries)))
  {
    if !Truthy(files) {
      return Thrown(NoFilesError);
    }
    var filesArray := if files.Arr? then StrValues(files.items) else [files];
    var opts: JsObject;
    if options == null {
      opts := new JsObject();
    } else {
      opts := options;
    }
    var parsed := ParseOptions(opts);
    var cliOptions := FormatCliOptions(parsed.entries);
    match cliOptions {
      case Failure(e) =>
        launch := Thrown(e);
      case Success(flags) =>
        launch := Spawned(LaunchArgs(mochaPath, flags, filesArray));
    }
  }

  /**
   * The three outcomes of a call, in the order the source checks them: a
   * falsy `files` throws `No files specified` whatever the options are; an
   * option that cannot be rendered throws `Invalid option: <key>` for the
   * first such key of the parsed options; otherwise Node is spawned with the
   * mocha path, then every option's tokens in key order, then the files.
   */
  lemma TaskOutcome(mochaPath: string, config: Config)
    ensures !Truthy(config.files) ==> Task(mochaPath, config) == Thrown(NoFilesError)
    ensures Truthy(config.files) && InvalidKey(ParsedOptions(OptionsOrEmpty(config.options))).Some? ==>
      Task(mochaPath, config) ==
        Thrown(TaskError("Invalid option: " + InvalidKey(ParsedOptions(OptionsOrEmpty(config.options))).value))
    ensures Truthy(config.files) && InvalidKey(ParsedOptions(OptionsOrEmpty(config.options))).None? ==>
      Task(mochaPath, config) ==
        Spawned([Str(mochaPath)] + StrValues(ExpectedFlags(ParsedOptions(OptionsOrEmpty(config.options))))
                 + FilesArray(config.files).value)
  {
    FormatCliOptionsCorrect(ParsedOptions(OptionsOrEmpty(config.options)));
  }

  /** The task throws `No files specified` exactly when `files` is falsy, and nothing is spawned then. */
  lemma TaskNoFiles(mochaPath: string, config: Config)
    ensures Task(mochaPath, config) == Thrown(NoFilesError) <==> !Truthy(config.files)
    ensures "No files" <= NoFilesError.message
  {
    TaskOutcome(mochaPath, config);
    var parsed := ParsedOptions(OptionsOrEmpty(config.options));
    if Truthy(config.files) && InvalidKey(parsed).Some? {
      assert ("Invalid option: " + InvalidKey(parsed).value)[0] == 'I';
    }
  }

  /**
   * In a spawned argument vector the mocha path comes first and the files
   * come last, in their given order and with duplicates kept: a string is
   * the one last argument and an array's elements are the last arguments.
   */
  lemma TaskFilesLast(mochaPath: string, config: Config)
    requires Task(mochaPath, config).Spawned?
    ensures FilesArray(config.files).Success?
    ensures var args := Task(mochaPath, config).args;
      var files := FilesArray(config.files).value;
      |args| >= 1 + |files| && args[0] == Str(mochaPath) && args[|args| - |files|..] == files
    ensures config.files.Str? ==> FilesArray(config.files).value == [config.files]
    ensures config.files.Arr? ==> FilesArray(config.files).value == StrValues(config.files.items)
  {
    var args := Task(mochaPath, config).args;
    var files := FilesArray(config.files).value;
    var flags := FormatCliOptions(ParsedOptions(OptionsOrEmpty(config.options))).value;
    assert args == [Str(mochaPath)] + StrValues(flags) + files;
    assert args[|args| - |files|..] == files;
  }

  // ---- Exit status -------------------------------------------------------

  /** Why the task's promise was rejected. */
  datatype Reason = Failed(error: TaskError) | Terminated(message: string) | NoReason

  datatype Settlement = Resolved | Rejected(reason: Reason)

  /** The child's `exit` listener: `code` is `null` when the child was killed by a signal. */
  function OnExit(code: Option<int>, signal: Option<string>): Settlement
  {
    if code == Some(0) then Resolved
    else if code == Some(1) then Rejected(Failed(TaskError("Tests failed")))
    else if signal.Some? && signal.value != "" then Rejected(Terminated("Process terminated with " + signal.value))
    else Rejected(NoReason)
  }

  /**
   * Exit code 0 resolves and exit code 1 rejects with `Tests failed`, whatever
   * the signal; any other exit rejects with the signal's name when a signal
   * is given, and with no value otherwise.
   */
  lemma ExitClassification(code: Option<int>, signal: Option<string>)
    ensures OnExit(code, signal) == Resolved <==> code == Some(0)
    ensures OnExit(code, signal) == Rejected(Failed(TaskError("Tests failed"))) <==> code == Some(1)
    ensures (exists name :: OnExit(code, signal) == Rejected(Terminated(name))) <==>
      code != Some(0) && code != Some(1) && signal.Some? && signal.value != ""
    ensures code != Some(0) && code != Some(1) && signal.Some? && signal.value != "" ==>
      OnExit(code, signal) == Rejected(Terminated("Process terminated with " + signal.value))
    ensures OnExit(code, signal) == Rejected(NoReason) <==>
      code != Some(0) && code != Some(1) && (signal.None? || signal.value == "")
  {
    if OnExit(code, signal).Rejected? && OnExit(code, signal).reason.Terminated? {
      assert OnExit(code, signal) == Rejected(Terminated(OnExit(code, signal).reason.message));
    }
  }

  // ---- The expectations of the task's own tests ------------------------

  /** `{ debug: true }` and `{ debugBrk: true }` are parsed with `noTimeouts: true` appended. */
  lemma DebuggerOptionsParsed(key: string)
    requires key == "debug" || key == "debugBrk"
    ensures ParsedOptions([(key, Bool(true))]) == [(key, Bool(true)), ("noTimeouts", Bool(true))]
  {
    var entries := [(key, Bool(true))];
    assert Keys(entries) == [key];
    assert Debugging(entries);
    AssignNew(entries, "noTimeouts", Bool(true));
  }

  /** `noTimeouts` becomes `--no-timeouts`. */
  lemma NoTimeoutsName(key: string)
    requires key == "noTimeouts"
    ensures "--" + CaseConversion.DashCase(key) == "--no-timeouts" && ' ' !in key
  {
    CaseConversion.DashCaseOneCapital("no", 'T', "imeouts");
    assert "no" + ['T'] + "imeouts" == key;
    assert "--" + ("no" + ['-', 't'] + "imeouts") == "--no-timeouts";
  }

  /** `debug` becomes `--debug` and `debugBrk` becomes `--debug-brk`. */
  lemma DebuggerName(key: string)
    requires key == "debug" || key == "debugBrk"
    ensures key == "debug" ==> "--" + CaseConversion.DashCase(key) == "--debug"
    ensures key == "debugBrk" ==> "--" + CaseConversion.DashCase(key) == "--debug-brk"
    ensures ' ' !in key
  {
    if key == "debugBrk" {
      CaseConversion.DashCaseOneCapital("debug", 'B', "rk");
      assert "debug" + ['B'] + "rk" == key;
      assert "--" + ("debug" + ['-', 'b'] + "rk") == "--debug-brk";
    } else {
      CaseConversion.DashCaseIdentity(key);
    }
  }

  /** An option set to `true` gives its flag alone. */
  lemma BareFlag(key: string)
    requires ' ' !in key
    ensures OptionTokens(key, Bool(true)) == ["--" + CaseConversion.DashCase(key)]
  {
    OptionTokensRendering(key, Bool(true));
  }

  /** The flags of a record holding two `true` options. */
  lemma TwoBareFlags(parsed: Entries)
    requires |parsed| == 2 && parsed[0].1 == Bool(true) && parsed[1].1 == Bool(true)
    requires ' ' !in parsed[0].0 && ' ' !in parsed[1].0
    ensures AllSupported(parsed)
    ensures ExpectedFlags(parsed) == ["--" + CaseConversion.DashCase(parsed[0].0), "--" + CaseConversion.DashCase(parsed[1].0)]
  {
    BareFlag(parsed[0].0);
    BareFlag(parsed[1].0);
    assert parsed[1..][0] == parsed[1];
    assert parsed[1..][1..] == [];
    assert ExpectedFlags(parsed[1..]) == OptionTokens(parsed[1].0, parsed[1].1);
  }

  /** With an array of files and renderable options, the launch is the path, the flags, then the files. */
  lemma SpawnsWithFlags(mochaPath: string, files: seq<string>, options: Entries, flags: seq<string>)
    requires AllSupported(ParsedOptions(options)) && ExpectedFlags(ParsedOptions(options)) == flags
    ensures Task(mochaPath, Config(Arr(files), Some(options))) == Spawned([Str(mochaPath)] + StrValues(flags) + StrValues(files))
  {
    TaskOutcome(mochaPath, Config(Arr(files), Some(options)));
  }

  /** With an array of files and options that render to two flags, the launch is the path, the two flags, then the files. */
  lemma SpawnsWithTwoFlags(mochaPath: string, files: seq<string>, options: Entries, first: string, second: string)
    requires AllSupported(ParsedOptions(options)) && ExpectedFlags(ParsedOptions(options)) == [first, second]
    ensures Task(mochaPath, Config(Arr(files), Some(options)))
      == Spawned([Str(mochaPath), Str(first), Str(second)] + StrValues(files))
  {
    SpawnsWithFlags(mochaPath, files, options, [first, second]);
    assert [Str(mochaPath)] + StrValues([first, second]) == [Str(mochaPath), Str(first), Str(second)];
  }

  /**
   * With `debug: true` alone the task launches `--debug --no-timeouts`, and
   * with `debugBrk: true` alone `--debug-brk --no-timeouts`, followed by the
   * files.
   */
  lemma DebuggerTurnsOffTimeouts(mochaPath: string, files: seq<string>, key: string)
    requires key == "debug" || key == "debugBrk"
    ensures Task(mochaPath, Config(Arr(files), Some([(key, Bool(true))])))
      == Spawned([Str(mochaPath), Str("--" + CaseConversion.DashCase(key)), Str("--no-timeouts")] + StrValues(files))
    ensures key == "debug" ==> "--" + CaseConversion.DashCase(key) == "--debug"
    ensures key == "debugBrk" ==> "--" + CaseConversion.DashCase(key) == "--debug-brk"
  {
    var parsed := ParsedOptions([(key, Bool(true))]);
    var flag := "--" + CaseConversion.DashCase(key);
    assert AllSupported(parsed) && ExpectedFlags(parsed) == [flag, "--no-timeouts"] by {
      DebuggerOptionsParsed(key);
      DebuggerName(key);
      NoTimeoutsName(parsed[1].0);
      TwoBareFlags(parsed);
    }
    SpawnsWithTwoFlags(mochaPath, files, [(key, Bool(true))], flag, "--no-timeouts");
    DebuggerName(key);
  }

  /** A single file name is launched as the one file argument. */
  lemma StringFilesBecomeList(mochaPath: string)
    ensures Task(mochaPath, Config(Str("/project/tests/success.spec.js"), Some([])))
      == Spawned([Str(mochaPath), Str("/project/tests/success.spec.js")])
  {
  }
}
