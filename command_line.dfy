/** parse_command_line: the options record built from the argument vector,
    with every early exit of the original turned into a result value. */
module CommandLine {
  import opened Wrappers
  import opened DecimalInt

  datatype WaveType = Sine | Square

  /** The fields of the options record; `rawPath` is None while no `-r`
      was given. */
  datatype Options = Options(
    displayHelp: bool,
    shouldLoop: bool,
    waveType: WaveType,
    rawPath: Option<string>,
    freq: int,
    fadeMs: int)

  /** The initial record: a 440 Hz sine wave, every other field zero. */
  const Defaults: Options := Options(false, false, Sine, None, 440, 0)

  /** The reasons the original prints an error and exits with status 1. */
  datatype ParseError =
    | MissingArgument(option: string)
    | UnknownWaveType(value: string)
    | BadFrequency(value: string)
    | BadFade(value: string)
    | UnrecognizedOption(option: string)

  /** ShowUsage is the exit with status 0 after printing the usage text. */
  datatype ParseResult = ShowUsage | Parsed(options: Options) | Failed(error: ParseError)

  predicate IsFlag(arg: string) {
    arg == "-h" || arg == "--help" || arg == "-l" || arg == "--loop"
  }

  /** The options that consume the following argument. */
  predicate TakesArgument(arg: string) {
    arg == "-t" || arg == "--type" || arg == "-f" || arg == "--freq"
    || arg == "-r" || arg == "--raw" || arg == "--fade"
  }

  predicate ValidFrequency(v: int) {
    20 <= v <= 20000
  }

  predicate ValidFade(v: int) {
    0 <= v <= 5000
  }

  predicate InRange(o: Options) {
    ValidFrequency(o.freq) && ValidFade(o.fadeMs)
  }

  /** Reference definition of the argument loop: the result of processing
      `args` (the arguments after the program name) starting from record `o`. */
  function ParseArgs(args: seq<string>, o: Options): ParseResult
    decreases |args|
  {
    if args == [] then Parsed(o)
    else
      var arg := args[0];
      if arg == "-h" || arg == "--help" then ParseArgs(args[1..], o.(displayHelp := true))
      else if arg == "-l" || arg == "--loop" then ParseArgs(args[1..], o.(shouldLoop := true))
      else if arg == "-t" || arg == "--type" then
        if |args| == 1 then Failed(MissingArgument(arg))
        else if args[1] == "sine" then ParseArgs(args[2..], o.(waveType := Sine))
        else if args[1] == "square" then ParseArgs(args[2..], o.(waveType := Square))
        else Failed(UnknownWaveType(args[1]))
      else if arg == "-f" || arg == "--freq" then
        if |args| == 1 then Failed(MissingArgument(arg))
        else if IntValue(args[1]).Some? && ValidFrequency(IntValue(args[1]).value) then
          ParseArgs(args[2..], o.(freq := IntValue(args[1]).value))
        else Failed(BadFrequency(args[1]))
      else if arg == "-r" || arg == "--raw" then
        if |args| == 1 then Failed(MissingArgument(arg))
        else ParseArgs(args[2..], o.(rawPath := Some(args[1])))
      else if arg == "--fade" then
        if |args| == 1 then Failed(MissingArgument(arg))
        else if IntValue(args[1]).Some? && ValidFade(IntValue(args[1]).value) then
          ParseArgs(args[2..], o.(fadeMs := IntValue(args[1]).value))
        else Failed(BadFade(args[1]))
      else Failed(UnrecognizedOption(arg))
  }

  /** The whole of parse_command_line: with only the program name it shows
      the usage text; otherwise it processes the arguments after the name
      from the defaults. */
  function Parse(argv: seq<string>): (r: ParseResult)
    ensures r == ShowUsage <==> |argv| == 1
    ensures r.Parsed? ==> InRange(r.options)
  {
    if |argv| == 1 then ShowUsage
    else if |argv| == 0 then Parsed(Defaults)
    else
      ParseArgsKeepsRange(argv[1..], Defaults);
      ParseArgs(argv[1..], Defaults)
  }

  /** parse_command_line. */
  method ParseCommandLine(argv: seq<string>) returns (r: ParseResult)
    ensures r == Parse(argv)
  {
    var options := Defaults;
    if |argv| == 1 {
      return ShowUsage;
    }
    var i := 1;
    while i < |argv|
      invariant 1 <= i && (i <= |argv| || |argv| == 0)
      invariant |argv| == 0 ==> options == Defaults
      invariant 0 < |argv| ==> ParseArgs(argv[i..], options) == Parse(argv)
    {
      var arg := argv[i];
      assert argv[i..][0] == arg;
      if arg == "-h" || arg == "--help" {
        options := options.(displayHelp := true);
      } else if arg == "-l" || arg == "--loop" {
        options := options.(shouldLoop := true);
      } else if arg == "-t" || arg == "--type" {
        if i + 1 == |argv| {
          return Failed(MissingArgument(arg));
        }
        i := i + 1;
        var waveType := argv[i];
        if waveType == "sine" {
          options := options.(waveType := Sine);
        } else if waveType == "square" {
          options := options.(waveType := Square);
        } else {
          return Failed(UnknownWaveType(waveType));
        }
      } else if arg == "-f" || arg == "--freq" {
        if i + 1 == |argv| {
          return Failed(MissingArgument(arg));
        }
        i := i + 1;
        arg := argv[i];
        var ok, freq := ExpectInt(arg, options.freq);
        options := options.(freq := freq);
        if !ok || options.freq < 20 || options.freq > 20000 {
          return Failed(BadFrequency(arg));
        }
      } else if arg == "-r" || arg == "--raw" {
        if i + 1 == |argv| {
          return Failed(MissingArgument(arg));
        }
        i := i + 1;
        options := options.(rawPath := Some(argv[i]));
      } else if arg == "--fade" {
        if i + 1 == |argv| {
          return Failed(MissingArgument(arg));
        }
        i := i + 1;
        arg := argv[i];
        var ok, fadeMs := ExpectInt(arg, options.fadeMs);
        options := options.(fadeMs := fadeMs);
        if !ok || options.fadeMs < 0 || options.fadeMs > 5000 {
          return Failed(BadFade(arg));
        }
      } else {
        return Failed(UnrecognizedOption(arg));
      }
      i := i + 1;
    }
    return Parsed(options);
  }

  /** Processing never takes a frequency or fade out of range: every value
      it stores has passed the range check. */
  lemma {:induction false} ParseArgsKeepsRange(args: seq<string>, o: Options)
    requires InRange(o)
    ensures ParseArgs(args, o) != ShowUsage
    ensures ParseArgs(args, o).Parsed? ==> InRange(ParseArgs(args, o).options)
    decreases |args|
  {
    if args != [] {
      var arg := args[0];
      if IsFlag(arg) {
        ParseArgsKeepsRange(args[1..], o.(displayHelp := true));
        ParseArgsKeepsRange(args[1..], o.(shouldLoop := true));
      } else if |args| >= 2 {
        var x := args[1];
        ParseArgsKeepsRange(args[2..], o.(waveType := Sine));
        ParseArgsKeepsRange(args[2..], o.(waveType := Square));
        ParseArgsKeepsRange(args[2..], o.(rawPath := Some(x)));
        if IntValue(x).Some? && ValidFrequency(IntValue(x).value) {
          ParseArgsKeepsRange(args[2..], o.(freq := IntValue(x).value));
        }
        if IntValue(x).Some? && ValidFade(IntValue(x).value) {
          ParseArgsKeepsRange(args[2..], o.(fadeMs := IntValue(x).value));
        }
      }
    }
  }

  /** Continues a parse of a first part of the arguments with the rest. */
  function Continue(r: ParseResult, rest: seq<string>): ParseResult {
    if r.Parsed? then ParseArgs(rest, r.options) else r
  }

  /** Arguments are processed left to right, one option at a time: unless
      the first part ends in an option whose argument is missing, parsing a
      concatenation continues the parse of the first part with the second. */
  lemma {:induction false} ParseArgsAppend(a: seq<string>, b: seq<string>, o: Options)
    requires !(ParseArgs(a, o).Failed? && ParseArgs(a, o).error.MissingArgument?)
    ensures ParseArgs(a + b, o) == Continue(ParseArgs(a, o), b)
    decreases |a|
  {
    if a == [] {
      assert a + b == b;
    } else {
      var arg := a[0];
      assert (a + b)[0] == arg;
      assert (a + b)[1..] == a[1..] + b;
      if arg == "-h" || arg == "--help" {
        ParseArgsAppend(a[1..], b, o.(displayHelp := true));
      } else if arg == "-l" || arg == "--loop" {
        ParseArgsAppend(a[1..], b, o.(shouldLoop := true));
      } else if TakesArgument(arg) {
        assert |a| >= 2;
        var x := a[1];
        assert (a + b)[1] == x;
        assert (a + b)[2..] == a[2..] + b;
        if arg == "-t" || arg == "--type" {
          if x == "sine" {
            ParseArgsAppend(a[2..], b, o.(waveType := Sine));
          } else if x == "square" {
            ParseArgsAppend(a[2..], b, o.(waveType := Square));
          }
        } else if arg == "-f" || arg == "--freq" {
          if IntValue(x).Some? && ValidFrequency(IntValue(x).value) {
            ParseArgsAppend(a[2..], b, o.(freq := IntValue(x).value));
          }
        } else if arg == "-r" || arg == "--raw" {
          ParseArgsAppend(a[2..], b, o.(rawPath := Some(x)));
        } else if IntValue(x).Some? && ValidFade(IntValue(x).value) {
          ParseArgsAppend(a[2..], b, o.(fadeMs := IntValue(x).value));
        }
      }
    }
  }

  /** A later occurrence of an option overrides the earlier ones: appending
      `-f x` to arguments that parse replaces just the frequency, or fails
      when `x` is not a frequency in range. */
  lemma LaterFrequencyWins(a: seq<string>, o: Options, x: string)
    requires ParseArgs(a, o).Parsed?
    ensures ParseArgs(a + ["-f", x], o)
            == if IntValue(x).Some? && ValidFrequency(IntValue(x).value)
               then Parsed(ParseArgs(a, o).options.(freq := IntValue(x).value))
               else Failed(BadFrequency(x))
  {
    ParseArgsAppend(a, ["-f", x], o);
    SingleOption(ParseArgs(a, o).options, x);
  }

  /** Likewise for `--fade x`. */
  lemma LaterFadeWins(a: seq<string>, o: Options, x: string)
    requires ParseArgs(a, o).Parsed?
    ensures ParseArgs(a + ["--fade", x], o)
            == if IntValue(x).Some? && ValidFade(IntValue(x).value)
               then Parsed(ParseArgs(a, o).options.(fadeMs := IntValue(x).value))
               else Failed(BadFade(x))
  {
    ParseArgsAppend(a, ["--fade", x], o);
    SingleOption(ParseArgs(a, o).options, x);
  }

  /** Likewise for `-r x`, which accepts any path. */
  lemma LaterRawPathWins(a: seq<string>, o: Options, x: string)
    requires ParseArgs(a, o).Parsed?
    ensures ParseArgs(a + ["-r", x], o) == Parsed(ParseArgs(a, o).options.(rawPath := Some(x)))
  {
    ParseArgsAppend(a, ["-r", x], o);
    SingleOption(ParseArgs(a, o).options, x);
  }

  /** Likewise for `-t x`, which accepts only "sine" and "square". */
  lemma LaterWaveTypeWins(a: seq<string>, o: Options, x: string)
    requires ParseArgs(a, o).Parsed?
    ensures ParseArgs(a + ["-t", x], o)
            == if x == "sine" then Parsed(ParseArgs(a, o).options.(waveType := Sine))
               else if x == "square" then Parsed(ParseArgs(a, o).options.(waveType := Square))
               else Failed(UnknownWaveType(x))
  {
    ParseArgsAppend(a, ["-t", x], o);
    SingleOption(ParseArgs(a, o).options, x);
  }

  /** Each option with its argument, on its own. */
  lemma SingleOption(p: Options, x: string)
    ensures ParseArgs(["-f", x], p)
            == if IntValue(x).Some? && ValidFrequency(IntValue(x).value)
               then Parsed(p.(freq := IntValue(x).value)) else Failed(BadFrequency(x))
    ensures ParseArgs(["--fade", x], p)
            == if IntValue(x).Some? && ValidFade(IntValue(x).value)
               then Parsed(p.(fadeMs := IntValue(x).value)) else Failed(BadFade(x))
    ensures ParseArgs(["-r", x], p) == Parsed(p.(rawPath := Some(x)))
    ensures ParseArgs(["-t", x], p)
            == if x == "sine" then Parsed(p.(waveType := Sine))
               else if x == "square" then Parsed(p.(waveType := Square))
               else Failed(UnknownWaveType(x))
  {
    assert "-f" != "-h" && "-f" != "--help" && "-f" != "-l" && "-f" != "-t";
    assert "-r" != "-h" && "-r" != "-l" && "-r" != "-t" && "-r" != "-f";
    assert "-t" != "-h" && "-t" != "-l";
    assert "--fade" != "--help" && "--fade" != "--loop" && "--fade" != "--type";
    assert "--fade" != "--freq" && "--fade" != "--raw";
    assert ["-f", x][2..] == [] && ["--fade", x][2..] == [];
    assert ["-r", x][2..] == [] && ["-t", x][2..] == [];
  }

  /** An option that needs an argument but comes last is an error. */
  lemma MissingArgumentRejected(a: seq<string>, o: Options, arg: string)
    requires ParseArgs(a, o).Parsed? && TakesArgument(arg)
    ensures ParseArgs(a + [arg], o) == Failed(MissingArgument(arg))
  {
    ParseArgsAppend(a, [arg], o);
  }

  /** An argument in option position that is no known option stops the
      parse with an error, whatever follows it. */
  lemma UnrecognizedRejected(a: seq<string>, o: Options, arg: string, rest: seq<string>)
    requires ParseArgs(a, o).Parsed? && !IsFlag(arg) && !TakesArgument(arg)
    ensures ParseArgs(a + [arg] + rest, o) == Failed(UnrecognizedOption(arg))
  {
    assert a + [arg] + rest == a + ([arg] + rest);
    ParseArgsAppend(a, [arg] + rest, o);
  }

  /** The flags only ever switch their fields on. */
  lemma {:induction false} FlagsStick(args: seq<string>, o: Options)
    ensures ParseArgs(args, o).Parsed? ==>
              (o.displayHelp ==> ParseArgs(args, o).options.displayHelp)
              && (o.shouldLoop ==> ParseArgs(args, o).options.shouldLoop)
    decreases |args|
  {
    if args != [] {
      var arg := args[0];
      if IsFlag(arg) {
        FlagsStick(args[1..], o.(displayHelp := true));
        FlagsStick(args[1..], o.(shouldLoop := true));
      } else if |args| >= 2 {
        var x := args[1];
        FlagsStick(args[2..], o.(waveType := Sine));
        FlagsStick(args[2..], o.(waveType := Square));
        FlagsStick(args[2..], o.(rawPath := Some(x)));
        if IntValue(x).Some? {
          FlagsStick(args[2..], o.(freq := IntValue(x).value));
          FlagsStick(args[2..], o.(fadeMs := IntValue(x).value));
        }
      }
    }
  }
}
