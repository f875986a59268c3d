/** The command-line front end (`ArgumentParser` in src/cli): `ProgramArguments` with its
    defaults, the checked number readers, the output-path validator and the option loop.
    Reading a number from an `std::istringstream` is passed in as a `Readers` value: the
    C++ library's numeric syntax is not part of this model, only what the code does with
    a reader's verdict. */
module ArgumentParser {
  import opened Wrappers
  import opened Text
  import opened Floats
  import Config

  datatype Mode = NoMode | StitchTwo | StitchMultiple | Experiment

  datatype ProgramArguments = ProgramArguments(
    mode: Mode,
    imagePaths: seq<string>,
    outputPath: string,
    detectorType: string,
    blendMode: string,
    ransacThreshold: real,
    maxFeatures: Int32,
    visualize: bool,
    showHelp: bool)

  /** The member initialisers of `ProgramArguments`. */
  function Defaults(): (a: ProgramArguments)
    ensures a.mode == NoMode && a.imagePaths == [] && !a.visualize && !a.showHelp
    ensures a.outputPath == "panorama_output.jpg"
    ensures a.detectorType == "orb" && a.blendMode == "feather"
    ensures a.ransacThreshold == 3.0 && a.maxFeatures == 20000
  {
    ProgramArguments(NoMode, [], "panorama_output.jpg", "orb", "feather", 3.0, 20000, false, false)
  }

  /** `iss >> temp` for the two number types: the value extracted from the front of the
      text and the unread rest, or `None` when extraction sets the fail bit. */
  datatype Readers = Readers(readReal: string -> Option<(real, string)>,
                             readInt: string -> Option<(Int32, string)>)

  /** `isspace` in the "C" locale. */
  predicate IsSpace(c: char)
  {
    c == ' ' || c == '\t' || c == '\n' || c == '\U{000B}' || c == '\U{000C}' || c == '\r'
  }

  /** `iss >> remainder` into a `std::string` fails exactly when nothing but white space
      is left. */
  predicate HasToken(rest: string)
  {
    exists k :: 0 <= k < |rest| && !IsSpace(rest[k])
  }

  /** `parseArgument`: the pair (success, value after the call). */
  function ParseArgument<T>(read: string -> Option<(T, string)>, arg: string, value: T): (r: (bool, T))
    ensures r.0 <==> read(arg).Some? && !HasToken(read(arg).value.1)
    ensures r.0 ==> r.1 == read(arg).value.0
    ensures !r.0 ==> r.1 == value
  {
    match read(arg)
    case None => (false, value)
    case Some((temp, rest)) => if HasToken(rest) then (false, value) else (true, temp)
  }

  /** `parseDouble`: a successful read is stored even when the range check then fails. */
  function ParseDouble(rd: Readers, arg: string, value: real, lo: real, hi: real): (r: (bool, real))
    ensures r.0 ==> lo <= r.1 <= hi
    ensures r.0 <==> ParseArgument(rd.readReal, arg, value).0 && lo <= r.1 <= hi
    ensures r.1 == ParseArgument(rd.readReal, arg, value).1
  {
    var (ok, v) := ParseArgument(rd.readReal, arg, value);
    if !ok then (false, v)
    else if v < lo || v > hi then (false, v)
    else (true, v)
  }

  /** `parseInt`, the same for `int`. */
  function ParseInt(rd: Readers, arg: string, value: Int32, lo: int, hi: int): (r: (bool, Int32))
    ensures r.0 ==> lo <= r.1 <= hi
    ensures r.0 <==> ParseArgument(rd.readInt, arg, value).0 && lo <= r.1 <= hi
    ensures r.1 == ParseArgument(rd.readInt, arg, value).1
  {
    var (ok, v) := ParseArgument(rd.readInt, arg, value);
    if !ok then (false, v)
    else if v < lo || v > hi then (false, v)
    else (true, v)
  }

  /** A value the range check rejects has nevertheless been written: the caller sees the
      out-of-range number in its variable. */
  lemma RangeFailureKeepsValue(rd: Readers, arg: string, value: real, lo: real, hi: real)
    requires rd.readReal(arg).Some? && !HasToken(rd.readReal(arg).value.1)
    requires rd.readReal(arg).value.0 > hi
    ensures !ParseDouble(rd, arg, value, lo, hi).0
    ensures ParseDouble(rd, arg, value, lo, hi).1 == rd.readReal(arg).value.0
  {
  }

  /** The system directories an output path may not start with. */
  const SYSTEM_PREFIXES: seq<string> := ["/etc", "/usr", "/bin", "/sbin", "/boot", "/sys", "/proc"]

  /** `path[0]`: the terminating NUL of an empty `std::string`. */
  function FirstChar(s: string): char
  {
    if |s| == 0 then '\0' else s[0]
  }

  /** `isValidOutputPath`. */
  predicate IsValidOutputPath(path: string)
  {
    !Contains(path, "..") &&
    !(FirstChar(path) == '/' && exists k :: 0 <= k < |SYSTEM_PREFIXES| && StartsWith(path, SYSTEM_PREFIXES[k]))
  }

  /** A ".." anywhere rejects the path. */
  lemma TraversalRejected(path: string, i: nat)
    requires i + 2 <= |path| && path[i] == '.' && path[i + 1] == '.'
    ensures !IsValidOutputPath(path)
  {
    assert path[i..i + 2] == "..";
    ContainsAt(path, "..", i);
  }

  /** A system prefix rejects the path. The test is textual, so "/usrx" is rejected as
      well as "/usr/x". */
  lemma SystemPrefixRejected(path: string, k: nat)
    requires k < |SYSTEM_PREFIXES| && StartsWith(path, SYSTEM_PREFIXES[k])
    ensures !IsValidOutputPath(path)
    ensures !IsValidOutputPath("/usrx")
  {
    assert FirstChar(path) == SYSTEM_PREFIXES[k][0];
    assert StartsWith("/usrx", SYSTEM_PREFIXES[1]);
  }

  /** Every other path is accepted: a relative one without "..", including the empty
      path, whose `path[0]` is the terminating NUL. */
  lemma RelativePathAccepted(path: string)
    requires !Contains(path, "..") && FirstChar(path) != '/'
    ensures IsValidOutputPath(path)
    ensures IsValidOutputPath("")
  {
    assert !StartsWith("", "..");
  }

  /** The arguments a successful parse may return: every value passed its check, and a
      stitching mode has at least two paths. */
  predicate Valid(a: ProgramArguments)
  {
    && (a.detectorType == "orb" || a.detectorType == "akaze" || a.detectorType == "sift")
    && (a.blendMode == "simple" || a.blendMode == "feather" || a.blendMode == "multiband")
    && Config.MIN_RANSAC_THRESHOLD <= a.ransacThreshold <= Config.MAX_RANSAC_THRESHOLD
    && Config.MIN_FEATURES <= a.maxFeatures <= Config.MAX_FEATURES
    && IsValidOutputPath(a.outputPath)
    && (a.mode == StitchTwo || a.mode == StitchMultiple ==> |a.imagePaths| >= 2)
  }

  /** No two consecutive dots in "panorama_output.jpg". */
  lemma {:induction false} NoDoubleDot(s: string)
    requires forall k :: 0 <= k < |s| - 1 ==> !(s[k] == '.' && s[k + 1] == '.')
    ensures !Contains(s, "..")
    decreases |s|
  {
    if |s| > 0 {
      if |s| >= 2 {
        assert s[..2][0] == s[0] && s[..2][1] == s[1];
        assert !(s[0] == '.' && s[1] == '.');
      }
      NoDoubleDot(s[1..]);
    }
  }

  /** The defaults would pass every check. */
  lemma DefaultsValid()
    ensures Valid(Defaults())
  {
    var p := Defaults().outputPath;
    assert forall k :: 0 <= k < |p| - 1 ==> !(p[k] == '.' && p[k + 1] == '.');
    NoDoubleDot(p);
  }

  /** The index just past the paths `--stitch-multiple` collects from position `j` on:
      the first argument starting with '-', or the end. */
  function CollectEnd(argv: seq<string>, j: nat): (k: nat)
    requires j <= |argv|
    ensures j <= k <= |argv|
    ensures forall m :: j <= m < k ==> FirstChar(argv[m]) != '-'
    ensures k == |argv| || FirstChar(argv[k]) == '-'
    decreases |argv| - j
  {
    if j == |argv| || FirstChar(argv[j]) == '-' then j else CollectEnd(argv, j + 1)
  }

  /** The paths `--stitch-multiple` collects from position `j` on: arguments of `argv`,
      none starting with '-'. */
  function Collected(argv: seq<string>, j: nat): (c: seq<string>)
    requires j <= |argv|
    ensures j + |c| <= |argv| && c == argv[j..j + |c|]
    ensures forall p :: p in c ==> p in argv && FirstChar(p) != '-'
  {
    var k := CollectEnd(argv, j);
    var c := argv[j..k];
    assert forall t :: 0 <= t < |c| ==> c[t] == argv[j + t] && FirstChar(c[t]) != '-';
    c
  }

  /** The options `parse` recognises; anything else is `Unknown`. */
  datatype Opt = HelpOpt | StitchOpt | StitchMultipleOpt | ExperimentOpt | DetectorOpt
               | BlendModeOpt | ThresholdOpt | MaxFeaturesOpt | OutputOpt | VisualizeOpt | Unknown

  /** The spelling of each recognised option on the command line. */
  function OptName(o: Opt): string
  {
    match o
    case HelpOpt => "--help"
    case StitchOpt => "--stitch"
    case StitchMultipleOpt => "--stitch-multiple"
    case ExperimentOpt => "--experiment-mode"
    case DetectorOpt => "--detector"
    case BlendModeOpt => "--blend-mode"
    case ThresholdOpt => "--ransac-threshold"
    case MaxFeaturesOpt => "--max-features"
    case OutputOpt => "--output"
    case VisualizeOpt => "--visualize"
    case Unknown => ""
  }

  /** The `if`/`else if` chain on `arg`: a token is an option exactly when it is spelt
      like one, and then it is that option. */
  function Classify(arg: string): (o: Opt)
    ensures o != Unknown ==> OptName(o) == arg
    ensures o == Unknown ==> forall p: Opt :: p != Unknown ==> OptName(p) != arg
  {
    if arg == "--help" then HelpOpt
    else if arg == "--stitch" then StitchOpt
    else if arg == "--stitch-multiple" then StitchMultipleOpt
    else if arg == "--experiment-mode" then ExperimentOpt
    else if arg == "--detector" then DetectorOpt
    else if arg == "--blend-mode" then BlendModeOpt
    else if arg == "--ransac-threshold" then ThresholdOpt
    else if arg == "--max-features" then MaxFeaturesOpt
    else if arg == "--output" then OutputOpt
    else if arg == "--visualize" then VisualizeOpt
    else Unknown
  }

  /** What one pass of the option loop does: go on at the next token, or return. */
  datatype Step = Next(at: nat, args: ProgramArguments) | Stop(args: ProgramArguments)

  function Help(a: ProgramArguments): ProgramArguments
  {
    a.(showHelp := true)
  }

  predicate IsDetectorName(s: string)
  {
    s == "orb" || s == "akaze" || s == "sift"
  }

  predicate IsBlendName(s: string)
  {
    s == "simple" || s == "feather" || s == "multiband"
  }

  /** `--stitch-multiple` at token `i`: the collected paths are appended and the mode is
      set before the count check, so a failing step still carries them. */
  function StitchMultipleStep(argv: seq<string>, i: nat, a: ProgramArguments): (s: Step)
    requires i < |argv|
    ensures s.args.mode == StitchMultiple && a.imagePaths <= s.args.imagePaths
    ensures s.Next? <==> |s.args.imagePaths| >= 2
    ensures s.Next? ==> i < s.at <= |argv|
    ensures forall p :: p in s.args.imagePaths ==> p in a.imagePaths || p in argv
    ensures forall p :: p in s.args.imagePaths[|a.imagePaths|..] ==> FirstChar(p) != '-'
  {
    var c := Collected(argv, i + 1);
    var b := a.(mode := StitchMultiple, imagePaths := a.imagePaths + c);
    assert b.imagePaths[|a.imagePaths|..] == c;
    if |b.imagePaths| < 2 then Stop(Help(b)) else Next(i + 1 + |c|, b)
  }

  /** `--stitch` at token `i`: the two following arguments become the image paths. */
  function StitchStep(argv: seq<string>, i: nat, a: ProgramArguments): (s: Step)
    requires i < |argv|
    ensures s.Next? <==> i + 2 < |argv|
    ensures s.Stop? ==> s.args == Help(a)
    ensures s.Next? ==> s.at == i + 3 && s.args.mode == StitchTwo
                        && s.args == a.(mode := StitchTwo, imagePaths := s.args.imagePaths)
                        && s.args.imagePaths == a.imagePaths + [argv[i + 1], argv[i + 2]]
  {
    if i + 2 >= |argv| then Stop(Help(a))
    else Next(i + 3, a.(mode := StitchTwo, imagePaths := a.imagePaths + [argv[i + 1], argv[i + 2]]))
  }

  /** One pass of the loop of `parse` at token `i`. Returning always sets `show_help`;
      going on never does, keeps every value valid, and only appends paths. */
  function ParseStep(rd: Readers, argv: seq<string>, i: nat, a: ProgramArguments): (s: Step)
    requires i < |argv|
    ensures s.Stop? ==> s.args.showHelp
    ensures s.Next? ==> i < s.at <= |argv| && s.args.showHelp == a.showHelp
    ensures s.Next? && Valid(a) ==> Valid(s.args)
    ensures a.imagePaths <= s.args.imagePaths
    ensures forall p :: p in s.args.imagePaths ==> p in a.imagePaths || p in argv
  {
    match Classify(argv[i])
    case HelpOpt => Stop(Help(a))
    case StitchOpt => StitchStep(argv, i, a)
    case StitchMultipleOpt => StitchMultipleStep(argv, i, a)
    case ExperimentOpt => Next(i + 1, a.(mode := Experiment))
    case DetectorOpt =>
      if i + 1 >= |argv| then Stop(Help(a))
      else
        var b := a.(detectorType := argv[i + 1]);
        if !IsDetectorName(b.detectorType) then Stop(Help(b)) else Next(i + 2, b)
    case BlendModeOpt =>
      if i + 1 >= |argv| then Stop(Help(a))
      else
        var b := a.(blendMode := argv[i + 1]);
        if !IsBlendName(b.blendMode) then Stop(Help(b)) else Next(i + 2, b)
    case ThresholdOpt =>
      if i + 1 >= |argv| then Stop(Help(a))
      else
        var (ok, v) := ParseDouble(rd, argv[i + 1], a.ransacThreshold,
                                   Config.MIN_RANSAC_THRESHOLD, Config.MAX_RANSAC_THRESHOLD);
        var b := a.(ransacThreshold := v);
        if !ok then Stop(Help(b)) else Next(i + 2, b)
    case MaxFeaturesOpt =>
      if i + 1 >= |argv| then Stop(Help(a))
      else
        var (ok, v) := ParseInt(rd, argv[i + 1], a.maxFeatures, Config.MIN_FEATURES, Config.MAX_FEATURES);
        var b := a.(maxFeatures := v);
        if !ok then Stop(Help(b)) else Next(i + 2, b)
    case OutputOpt =>
      if i + 1 >= |argv| then Stop(Help(a))
      else
        var b := a.(outputPath := argv[i + 1]);
        if !IsValidOutputPath(b.outputPath) then Stop(Help(b)) else Next(i + 2, b)
    case VisualizeOpt => Next(i + 1, a.(visualize := true))
    case Unknown => Stop(Help(a))
  }

  /** `--help` and an unrecognised token return at once with only `show_help` changed. */
  lemma StepStopsOnHelpOrUnknown(rd: Readers, argv: seq<string>, i: nat, a: ProgramArguments)
    requires i < |argv|
    requires argv[i] == "--help" || Classify(argv[i]) == Unknown
    ensures ParseStep(rd, argv, i, a) == Stop(a.(showHelp := true))
  {
  }

  /** A value option whose value is missing returns with only `show_help` changed. */
  lemma StepNeedsValue(rd: Readers, argv: seq<string>, a: ProgramArguments)
    requires |argv| > 0
    requires Classify(argv[|argv| - 1]) in {StitchOpt, DetectorOpt, BlendModeOpt, ThresholdOpt, MaxFeaturesOpt, OutputOpt}
    ensures ParseStep(rd, argv, |argv| - 1, a) == Stop(a.(showHelp := true))
  {
  }

  /** `--stitch` goes on exactly when two more arguments follow, and appends them. */
  lemma StepStitch(rd: Readers, argv: seq<string>, i: nat, a: ProgramArguments)
    requires i < |argv| && argv[i] == "--stitch"
    ensures ParseStep(rd, argv, i, a).Next? <==> i + 2 < |argv|
    ensures i + 2 < |argv| ==>
              ParseStep(rd, argv, i, a) ==
                Next(i + 3, a.(mode := StitchTwo, imagePaths := a.imagePaths + [argv[i + 1], argv[i + 2]]))
  {
  }

  /** `--detector v` and `--blend-mode v` store `v`, and go on exactly when `v` is one
      of the accepted names, spelt exactly (no case folding here). */
  lemma StepNamedValue(rd: Readers, argv: seq<string>, i: nat, a: ProgramArguments)
    requires i + 1 < |argv| && !a.showHelp
    ensures argv[i] == "--detector" ==>
              var s := ParseStep(rd, argv, i, a);
              (s.Next? <==> IsDetectorName(argv[i + 1])) && s.args == a.(detectorType := argv[i + 1], showHelp := s.Stop?)
    ensures argv[i] == "--blend-mode" ==>
              var s := ParseStep(rd, argv, i, a);
              (s.Next? <==> IsBlendName(argv[i + 1])) && s.args == a.(blendMode := argv[i + 1], showHelp := s.Stop?)
    ensures argv[i] == "--output" ==>
              var s := ParseStep(rd, argv, i, a);
              (s.Next? <==> IsValidOutputPath(argv[i + 1])) && s.args == a.(outputPath := argv[i + 1], showHelp := s.Stop?)
  {
  }

  /** `--ransac-threshold v` and `--max-features v` go on exactly when `v` reads as a
      number in range; what the reader produced is stored either way. */
  lemma StepNumericValue(rd: Readers, argv: seq<string>, i: nat, a: ProgramArguments)
    requires i + 1 < |argv| && !a.showHelp
    ensures argv[i] == "--ransac-threshold" ==>
              var s := ParseStep(rd, argv, i, a);
              var (ok, v) := ParseDouble(rd, argv[i + 1], a.ransacThreshold,
                                         Config.MIN_RANSAC_THRESHOLD, Config.MAX_RANSAC_THRESHOLD);
              (s.Next? <==> ok) && s.args.ransacThreshold == v
    ensures argv[i] == "--max-features" ==>
              var s := ParseStep(rd, argv, i, a);
              var (ok, v) := ParseInt(rd, argv[i + 1], a.maxFeatures, Config.MIN_FEATURES, Config.MAX_FEATURES);
              (s.Next? <==> ok) && s.args.maxFeatures == v
  {
  }

  /** The loop of `parse` from token `i` on. */
  function ParseFrom(rd: Readers, argv: seq<string>, i: nat, a: ProgramArguments): (r: ProgramArguments)
    requires i <= |argv|
    ensures !a.showHelp && Valid(a) && !r.showHelp ==> Valid(r)
    ensures a.imagePaths <= r.imagePaths
    ensures forall p :: p in r.imagePaths ==> p in a.imagePaths || p in argv
    ensures i == |argv| ==> r == a
    decreases |argv| - i
  {
    if i == |argv| then a
    else
      match ParseStep(rd, argv, i, a)
      case Stop(b) => b
      case Next(j, b) => ParseFrom(rd, argv, j, b)
  }

  /** `ArgumentParser::parse(argc, argv)`, with `argv` including the program name. */
  function Parse(rd: Readers, argv: seq<string>): (r: ProgramArguments)
    ensures |argv| < 2 ==> r == Help(Defaults())
    ensures |argv| >= 2 && argv[1] == "--help" ==> r == Help(Defaults())
    ensures !r.showHelp ==> Valid(r)
    ensures forall p :: p in r.imagePaths ==> p in argv
  {
    DefaultsValid();
    if |argv| < 2 then Help(Defaults())
    else ParseFrom(rd, argv, 1, Defaults())
  }
}
