/** The command line: pick the document format from an explicit option or the
    input file's extension, pick the parser for that format, parse, generate
    the lines and write them, joined by newlines, to a file or standard
    output. Reading and writing files are not modelled; whether they succeed
    is an input, and each library's parse outcome is an input per format. */
module Cli {
  import opened Text
  import opened Document
  import opened Flattener
  import opened EnvGenerator
  import JsonParser
  import YamlParser
  import TomlParser

  datatype Option<T> = None | Some(value: T)

  /** The three parsers the command line can choose. */
  datatype Format = Yaml | Toml | Json

  /** The options the converter takes. `extension` is the input path's
      extension, when it has one that is valid text. */
  datatype Args = Args(
    input: string,
    extension: Option<string>,
    output: Option<string>,
    format: Option<string>,
    prefix: string,
    separator: string,
    noUppercase: bool)

  /** Why a run fails, in the order the run can fail. */
  datatype CliError =
    | ReadFailed(path: string)
    | CannotDetermineFormat
    | UnsupportedExtension(extension: string)
    | UnsupportedFormat(format: string)
    | ParseFailed(context: string, error: ParseError)
    | WriteFailed(path: string)

  /** Where the output goes and exactly what is written there. */
  datatype Emission = Stdout(text: string) | File(path: string, text: string)

  // ---------------------------------------------------------------------------
  // Choosing the format and the parser
  // ---------------------------------------------------------------------------

  /** The format name: an explicit `--format` is taken as given; otherwise the
      extension decides, compared without regard to ASCII case, and `yml`
      counts as `yaml`. A rejected extension is reported as written. */
  function DetectFormat(explicit: Option<string>, extension: Option<string>): (r: Result<string, CliError>)
    ensures explicit.Some? ==> r == Ok(explicit.value)
    ensures explicit.None? && extension.None? ==> r == Err(CannotDetermineFormat)
    ensures explicit.None? && extension.Some? ==>
      (r.Ok? <==> AsciiLower(extension.value) in {"yaml", "yml", "toml", "json"})
    ensures explicit.None? && extension.Some? && r.Err? ==> r.error == UnsupportedExtension(extension.value)
    ensures explicit.None? && r.Ok? ==> r.value in {"yaml", "toml", "json"}
    ensures explicit.None? && extension.Some? && r.Ok? ==>
      r.value == (if AsciiLower(extension.value) == "yml" then "yaml" else AsciiLower(extension.value))
  {
    match explicit
    case Some(f) => Ok(f)
    case None =>
      match extension
      case None => Err(CannotDetermineFormat)
      case Some(ext) =>
        var lower := AsciiLower(ext);
        if lower == "yaml" || lower == "yml" then Ok("yaml")
        else if lower == "toml" then Ok("toml")
        else if lower == "json" then Ok("json")
        else Err(UnsupportedExtension(ext))
  }

  /** The parser for a format name. Unlike the extension, the name is
      matched exactly: `yaml`, `yml`, `toml` and `json` only. */
  function SelectParser(format: string): (r: Result<Format, CliError>)
    ensures r.Ok? <==> format in {"yaml", "yml", "toml", "json"}
    ensures r.Err? ==> r.error == UnsupportedFormat(format)
    ensures format == "yaml" || format == "yml" ==> r == Ok(Yaml)
    ensures format == "toml" ==> r == Ok(Toml)
    ensures format == "json" ==> r == Ok(Json)
  {
    if format == "yaml" || format == "yml" then Ok(Yaml)
    else if format == "toml" then Ok(Toml)
    else if format == "json" then Ok(Json)
    else Err(UnsupportedFormat(format))
  }

  /** The name each parser reports. */
  function ParserName(f: Format): string
  {
    match f
    case Yaml => YamlParser.Name()
    case Toml => TomlParser.Name()
    case Json => JsonParser.Name()
  }

  /** A parser's own name selects that parser again. */
  lemma NameSelectsParser(f: Format)
    ensures SelectParser(ParserName(f)) == Ok(f)
  {
  }

  /** A format found from the extension always has a parser, so without
      `--format` the run never fails with an unsupported format. */
  lemma DetectedFormatHasParser(extension: Option<string>)
    requires DetectFormat(None, extension).Ok?
    ensures SelectParser(DetectFormat(None, extension).value).Ok?
  {
  }

  /** Extensions that differ only in ASCII case are treated alike. */
  lemma DetectIgnoresCase(e1: string, e2: string)
    requires AsciiLower(e1) == AsciiLower(e2)
    ensures DetectFormat(None, Some(e1)).Ok? <==> DetectFormat(None, Some(e2)).Ok?
    ensures DetectFormat(None, Some(e1)).Ok? ==> DetectFormat(None, Some(e1)) == DetectFormat(None, Some(e2))
  {
  }

  /** The extension `JSON` is accepted, the explicit format `JSON` is not. */
  lemma ExplicitFormatIsCaseSensitive()
    ensures DetectFormat(None, Some("JSON")) == Ok("json")
    ensures DetectFormat(Some("JSON"), Some("json")) == Ok("JSON")
    ensures SelectParser("JSON") == Err(UnsupportedFormat("JSON"))
  {
    LowerLiteral("JSON", "json");
  }

  /** `t` is `s` lower-cased, checked character by character. */
  lemma LowerLiteral(s: string, t: string)
    requires |s| == |t| && forall i :: 0 <= i < |s| ==> LowerChar(s[i]) == t[i]
    ensures AsciiLower(s) == t
  {
  }

  // ---------------------------------------------------------------------------
  // Parsing
  // ---------------------------------------------------------------------------

  /** What the format's library can produce. */
  predicate WellFormed(f: Format, v: Value)
  {
    match f
    case Yaml => IsYaml(v)
    case Toml => IsToml(v)
    case Json => IsJson(v)
  }

  /** The context line the parser itself puts around a library failure. */
  function LibraryContext(f: Format): string
  {
    match f
    case Yaml => "Failed to parse YAML content"
    case Toml => "Failed to parse TOML content"
    case Json => "Failed to parse JSON content"
  }

  /** The context line the command line adds on top, naming the parser. */
  function ParseContext(f: Format): string
  {
    "Failed to parse " + ParserName(f) + " content"
  }

  /** The flattened map the chosen parser produces for a document. Only YAML
      consults the key renderer. */
  function FlatFor(f: Format, root: Value, render: Value -> string): map<string, string>
  {
    match f
    case Yaml => Flat("", root, render)
    case Toml => Flat("", root, NoKeyRendering)
    case Json => Flat("", root, NoKeyRendering)
  }

  /** Runs the chosen parser on the library's outcome for its format. */
  method ParseAs(f: Format, parsed: Parsed, render: Value -> string) returns (r: Result<map<string, string>, ParseError>)
    requires parsed.Parsed? ==> WellFormed(f, parsed.root)
    ensures parsed.Unparsable? ==> r == Err(ParseError(LibraryContext(f), parsed.diagnostic))
    ensures parsed.Parsed? ==> r == Ok(FlatFor(f, parsed.root, render))
  {
    match f {
      case Yaml => r := YamlParser.Parse(parsed, render);
      case Toml => r := TomlParser.Parse(parsed);
      case Json => r := JsonParser.Parse(parsed);
    }
  }

  // ---------------------------------------------------------------------------
  // Output
  // ---------------------------------------------------------------------------

  /** The generator options the command line passes on. */
  function GeneratorConfig(args: Args): Config
  {
    Config(args.prefix, args.separator, !args.noUppercase)
  }

  /** Left at their defaults, the options give the generator's default configuration. */
  lemma CommandLineDefaults(args: Args)
    requires args.prefix == "" && args.separator == "_" && !args.noUppercase
    ensures GeneratorConfig(args) == DefaultConfig()
  {
  }

  /** The lines joined with newlines, no newline after the last. */
  function JoinLines(lines: seq<string>): (text: string)
    ensures lines == [] ==> text == ""
    ensures |lines| >= 1 ==> lines[0] <= text
  {
    Join(lines, "\n")
  }

  /** Splitting the output at newlines gives the lines back, as long as no
      line holds a newline of its own. */
  lemma JoinLinesRoundTrip(lines: seq<string>)
    requires |lines| >= 1
    requires forall j :: 0 <= j < |lines| ==> '\n' !in lines[j]
    ensures Split(JoinLines(lines), '\n') == lines
  {
    SplitJoin(lines, '\n');
  }

  /** The joined text ends with the last line itself: the join adds no
      newline after it. */
  lemma {:induction false} JoinLinesEndsWithLastLine(lines: seq<string>)
    requires |lines| >= 1
    ensures var text, last := JoinLines(lines), lines[|lines| - 1];
      |last| <= |text| && text[|text| - |last|..] == last
  {
    if |lines| > 1 {
      JoinLinesEndsWithLastLine(lines[1..]);
      var rest := JoinLines(lines[1..]);
      assert JoinLines(lines) == lines[0] + "\n" + rest;
      assert lines[1..][|lines[1..]| - 1] == lines[|lines| - 1];
    }
  }

  /** Writing: standard output gets the text and a final newline; a file gets
      the text exactly, unless the write fails. */
  function Emit(output: Option<string>, writeOk: bool, content: string): (r: Result<Emission, CliError>)
    ensures output.None? ==> r == Ok(Stdout(content + "\n"))
    ensures output.Some? ==> (r.Ok? <==> writeOk)
    ensures output.Some? && r.Ok? ==> r.value == File(output.value, content)
    ensures output.Some? && r.Err? ==> r.error == WriteFailed(output.value)
  {
    match output
    case None => Ok(Stdout(content + "\n"))
    case Some(path) => if writeOk then Ok(File(path, content)) else Err(WriteFailed(path))
  }

  // ---------------------------------------------------------------------------
  // The whole run
  // ---------------------------------------------------------------------------

  /** The outcome of a run: reading first, then format detection, parser
      choice, parsing, and finally the sorted lines written out. */
  ghost function Outcome(args: Args, readOk: bool, writeOk: bool, outcome: Format -> Parsed,
                         render: Value -> string): Result<Emission, CliError>
  {
    if !readOk then Err(ReadFailed(args.input))
    else
      match DetectFormat(args.format, args.extension)
      case Err(e) => Err(e)
      case Ok(name) =>
        match SelectParser(name)
        case Err(e) => Err(e)
        case Ok(f) =>
          match outcome(f)
          case Unparsable(diagnostic) =>
            Err(ParseFailed(ParseContext(f), ParseError(LibraryContext(f), diagnostic)))
          case Parsed(root) =>
            var m := FlatFor(f, root, render);
            Emit(args.output, writeOk, JoinLines(EnvLines(GeneratorConfig(args), m, SortedKeys(m.Keys))))
  }

  /** One run of the converter. `readOk` and `writeOk` say whether the file
      system calls succeed, `outcome` is each library's parse of the file. */
  method Convert(args: Args, readOk: bool, writeOk: bool, outcome: Format -> Parsed, render: Value -> string)
    returns (r: Result<Emission, CliError>)
    requires forall f :: outcome(f).Parsed? ==> WellFormed(f, outcome(f).root)
    ensures r == Outcome(args, readOk, writeOk, outcome, render)
  {
    if !readOk {
      return Err(ReadFailed(args.input));
    }
    var detected := DetectFormat(args.format, args.extension);
    if detected.Err? {
      return Err(detected.error);
    }
    var selected := SelectParser(detected.value);
    if selected.Err? {
      return Err(selected.error);
    }
    var f := selected.value;
    var configMap := ParseAs(f, outcome(f), render);
    if configMap.Err? {
      return Err(ParseFailed(ParseContext(f), configMap.error));
    }
    var generator := New(GeneratorConfig(args));
    var envLines := Generate(generator, configMap.value);
    var content := JoinLines(envLines);
    r := Emit(args.output, writeOk, content);
  }

  /** Without `--format` a run never fails for an unsupported format name:
      every failure before parsing is about reading or the extension. */
  lemma NoUnsupportedFormatFromExtension(args: Args, readOk: bool, writeOk: bool,
                                         outcome: Format -> Parsed, render: Value -> string)
    requires args.format.None?
    ensures var r := Outcome(args, readOk, writeOk, outcome, render); !(r.Err? && r.error.UnsupportedFormat?)
  {
    if readOk && DetectFormat(None, args.extension).Ok? {
      DetectedFormatHasParser(args.extension);
    }
  }

  /** A successful run writes one line per flattened entry, in path order:
      split at newlines, a file holds exactly the generated lines, and
      standard output holds them followed by one final newline. */
  lemma OutputLines(args: Args, writeOk: bool, outcome: Format -> Parsed, render: Value -> string, f: Format)
    requires DetectFormat(args.format, args.extension).Ok?
    requires SelectParser(DetectFormat(args.format, args.extension).value) == Ok(f)
    requires outcome(f).Parsed?
    requires args.output.Some? ==> writeOk
    requires var m := FlatFor(f, outcome(f).root, render);
      m != map[] && forall j :: 0 <= j < |m| ==> '\n' !in EnvLines(GeneratorConfig(args), m, SortedKeys(m.Keys))[j]
    ensures var m := FlatFor(f, outcome(f).root, render);
      var r := Outcome(args, true, writeOk, outcome, render);
      var lines := EnvLines(GeneratorConfig(args), m, SortedKeys(m.Keys));
      r.Ok?
      && (args.output.Some? ==> Split(r.value.text, '\n') == lines)
      && (args.output.None? ==> Split(r.value.text, '\n') == lines + [""])
  {
    var m := FlatFor(f, outcome(f).root, render);
    var lines := EnvLines(GeneratorConfig(args), m, SortedKeys(m.Keys));
    JoinLinesRoundTrip(lines);
    SplitTrailing(JoinLines(lines), '\n');
  }
}
