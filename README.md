# cte — configuration files to environment lines, in Dafny

`cte` reads a YAML, TOML or JSON configuration file and prints one
`NAME=value` line per distinct path of a scalar in it (scalars whose paths
coincide, such as `{"a.b": 1, "a": {"b": 2}}`, share one line). The parser for
the format flattens the document into a map from dotted paths to strings. A
mapping child goes at `prefix.key`, or just `key` when the path so far is
empty. An array element goes at
`prefix.index`. A leaf is stored as text: integers in decimal, floats and dates
as their library displays them, booleans as `true`/`false`, null as the
empty string, and a YAML tag is looked through.
The generator sorts the paths and turns each one into a variable name. It
replaces every `.` by the separator (default `_`), puts the prefix directly
in front with no delimiter, and upper-cases the result unless told not to.
The lines are joined with newlines. They go to a file, or to standard
output with a final newline.

The project has these modules:

- `Text` (`text.dfy`): decimal rendering of integers, ASCII case mapping,
  split/join on a separator, and Rust's lexicographic order on strings, each
  with the lemmas the rest of the model uses.
- `Document` (`document.dfy`): one value type covering the variants of the
  three document libraries, with predicates for what each library can
  produce. It also holds the parse outcome, the parse error and `Result`.
- `Flattener` (`flattener.dfy`): the walk. It is written once, as an
  in-place method over a `StringMap` class (the `HashMap` the walk fills).
  The method is proved against the pure definition `Flatten`, and that
  definition's properties are lemmas.
- `JsonParser`, `YamlParser`, `TomlParser`: each parser's name, its `parse`
  (library failure becomes a parse error with the parser's context line),
  and its documents' properties and test vectors.
- `EnvGenerator` (`env_generator.dfy`): configuration, key formatting, and
  `generate`. `generate` collects the keys in map order and sorts them in
  place with an insertion sort. It is proved to emit the lines for the
  keys in ascending order, which depends on the set of keys alone.
- `Cli` (`cli.dfy`): format detection, parser choice, and the whole run.
  The run covers the order in which it can fail and what it writes where.

The three `flatten_value` functions walk the same way but differ in two
respects. First, in the variants they handle: JSON and YAML have null, only
YAML has tagged values, and only TOML has dates; TOML has no null. Second, in
how they name keys: JSON and TOML keys are always strings, while the YAML walk
renders a non-string key through the YAML serializer, which is a parameter
here (`render`). One walk over the shared value type has an arm for every
variant, and each format's predicate says which variants its documents can
hold. `Flattener.RenderIrrelevant` shows that the renderer is never consulted
for JSON and TOML documents.

## Model

| member | source | states |
|---|---|---|
| Text.NatToDecimal | src/json_parser.rs:64-69 | an index is rendered as at least one character, all of them decimal digits, with a leading `0` only for zero itself, which is exactly `0` |
| Text.IntToDecimal | src/toml_parser.rs:44-46 | an integer is rendered as at least one character: a leading `-` exactly when it is negative, decimal digits after it (a digit first when it is not negative), no leading zero on a non-zero magnitude, and exactly `0` for zero |
| Text.DecimalRoundTrip | src/toml_parser.rs:44-46 | reading back the decimal text of a natural number gives that number |
| Text.IntDecimalRoundTrip | src/toml_parser.rs:44-46 | an integer's text (a minus sign before negative numbers) is non-empty and reads back as that integer |
| Text.DecimalInjective | src/json_parser.rs:64-69 | different array indices have different decimal texts, so sibling element paths differ |
| Text.AsciiUpper | src/parser.rs:90-91 | upper-casing keeps the length and maps each character on its own |
| Text.AsciiUpperFacts | src/parser.rs:90-91 | upper-casing twice is the same as once; no lowercase letter survives; characters that are not letters are kept |
| Text.JoinSplit | src/main.rs:78 | splitting text at a character and joining with that character gives the text back |
| Text.SplitJoin | src/main.rs:78 | joining at least one part free of a character with it, then splitting at it, gives the parts back |
| Text.SplitTrailing | src/main.rs:85 | a separator at the very end adds exactly one empty last part |
| Text.LexLeqReflexive | src/parser.rs:63-64 | every string sorts at or before itself |
| Text.LexLeqTotal | src/parser.rs:63-64 | any two strings are comparable |
| Text.LexLeqAntisymmetric | src/parser.rs:63-64 | two strings each at or before the other are equal |
| Text.LexLeqTransitive | src/parser.rs:63-64 | the string order is transitive |
| Text.LexLeqCommonPrefix | src/parser.rs:63-64 | a shared prefix does not change how two strings compare |
| Document.JsonHasStringKeys | src/json_parser.rs:53-63 | every mapping key anywhere in a JSON value is a string |
| Document.TomlHasStringKeys | src/toml_parser.rs:56-66 | every table key anywhere in a TOML value is a string |
| Flattener.StringMap.constructor | src/json_parser.rs:26 | the walk starts from an empty map |
| Flattener.StringMap.Insert | src/json_parser.rs:42 | insertion adds the key or overwrites its value and leaves every other key as it was |
| Flattener.Flatten | src/json_parser.rs:39-71 | walking a value into a map never removes a key of that map |
| Flattener.FoldEntries | src/json_parser.rs:53-63 | walking the first entries of a mapping never removes a key |
| Flattener.FoldItems | src/json_parser.rs:64-69 | walking the first elements of an array never removes a key |
| Flattener.FlattenValue | src/json_parser.rs:39-71 | the in-place walk leaves the map equal to `Flatten` of the walked value over the map it found; the YAML walk (src/yaml_parser.rs:39-80, non-string keys named by the renderer, tags looked through) and the TOML walk (src/toml_parser.rs:39-74, dates and floats as display text) are the same walk |
| Flattener.FlattenOverlays | src/json_parser.rs:39-71 | walking into a map is overlaying the value's own entries on it: nothing is removed, and the value's entries win |
| Flattener.FlattenKeepsAndOverwrites | src/json_parser.rs:39-71 | no key of the caller's map is lost; keys the value does not write keep their values; keys it writes get the value's text |
| Flattener.FlattenLeaf | src/json_parser.rs:41-52 | a leaf writes exactly one entry, at the current path |
| Flattener.ScalarDocument | src/json_parser.rs:22-30 | a document that is a single scalar yields one entry, keyed by the empty string |
| Flattener.TaggedFlattensInner | src/yaml_parser.rs:75-78 | a tagged value writes exactly what its inner value writes, at the same path |
| Flattener.FlatKeysUnder | src/json_parser.rs:53-63 | below a non-empty path every key written is that path or starts with the path and a dot |
| Flattener.FoldItemsKeysUnder | src/json_parser.rs:64-69 | every key an array writes starts with its path and a dot, also at the root, where keys start with `.` |
| Flattener.IndexPathsSeparate | src/json_parser.rs:64-69 | no key lies under two different element paths of the same array |
| Flattener.FoldItemsKeepsElement | src/json_parser.rs:64-69 | each element's entries appear unchanged in the array's walk |
| Flattener.FoldItemsKeysFromElements | src/json_parser.rs:64-69 | every key of an array's walk comes from one of its elements |
| Flattener.ArrayElements | src/json_parser.rs:64-69 | an array's entries are exactly the union of its elements' entries at `path.i`, and no two elements write the same key |
| Flattener.ElementsDisjoint | src/json_parser.rs:64-69 | a key written by one element of an array is written by no other element |
| Flattener.FoldEntriesLaterWins | src/json_parser.rs:53-63 | a key written by one mapping entry and by no later entry keeps that entry's value |
| Flattener.MappingEntries | src/json_parser.rs:53-63 | a key written by a mapping entry, and by no later entry, is in the mapping's walk with that entry's value: where two children write the same key the later one wins |
| Flattener.FoldEntriesKeysFromEntries | src/json_parser.rs:53-63 | every key written by the first entries of a mapping is written by one of those entries |
| Flattener.MappingKeysFromEntries | src/json_parser.rs:53-63 | every key of a mapping's walk is written by one of its entries at that entry's child path |
| Flattener.LeafPaths | src/json_parser.rs:39-71 | the walk inserts at one path per leaf, so there are as many paths as leaves |
| Flattener.FlatKeysAreLeafPaths | src/json_parser.rs:39-71 | the keys of a walk are exactly the paths of its leaves |
| Flattener.AtMostOneEntryPerLeaf | src/json_parser.rs:39-71 | a walk writes at most one entry per leaf |
| Flattener.LeafCount | src/json_parser.rs:39-71 | when no two leaves share a path, a walk writes exactly one entry per leaf |
| Flattener.RenderIrrelevant | src/yaml_parser.rs:55-58 | when every key is a string, the way other keys would be rendered makes no difference |
| JsonParser.Parse | src/json_parser.rs:22-30 | a library failure becomes an error with context `Failed to parse JSON content` and the library's diagnostic; otherwise the result is the document flattened from the empty path |
| JsonParser.AnyRendering | src/json_parser.rs:53-63 | a JSON document flattens the same under any key renderer |
| JsonParser.RootArray | src/json_parser.rs:64-69 | a root array `["a", false]` gives the keys `.0` and `.1`, with values `a` and `false` |
| JsonParser.SimpleDocument | src/json_parser.rs:79-93 | `name`/`port`/`debug` give `test`, `8080` and `true` |
| YamlParser.Parse | src/yaml_parser.rs:22-30 | a library failure becomes an error with context `Failed to parse YAML content`; otherwise the result is the document flattened from the empty path, non-string keys rendered |
| YamlParser.KeysAndTags | src/yaml_parser.rs:53-78 | a string key is used as it is, any other key through the renderer; a tag is looked through |
| YamlParser.NestedDocument | src/yaml_parser.rs:103-119 | nested mappings give `database.host` and `database.credentials.username` |
| TomlParser.Parse | src/toml_parser.rs:22-30 | a library failure becomes an error with context `Failed to parse TOML content`; otherwise the result is the document flattened from the empty path |
| TomlParser.LeafEntry | src/toml_parser.rs:41-55 | a TOML leaf is never null and writes one entry at its path |
| TomlParser.IntegerLeaf | src/toml_parser.rs:44-46 | an integer is stored as decimal text that reads back as the integer; 8080 is stored as `8080` |
| TomlParser.ArrayOfTables | src/toml_parser.rs:123-136 | an array of inline tables gives `servers.0.host` … `servers.1.port` |
| EnvGenerator.WithPrefix | src/parser.rs:45-50 | the generator has the given prefix and the default separator and case |
| EnvGenerator.WithSeparator | src/parser.rs:52-57 | the generator has the given separator and the default prefix and case |
| EnvGenerator.ReplaceDots | src/parser.rs:80 | with a separator free of dots, no dot survives the replacement |
| EnvGenerator.ReplaceDotsSplitJoin | src/parser.rs:80 | replacing dots is splitting at the dots and joining with the separator |
| EnvGenerator.ReplaceDotsNoDots | src/parser.rs:80 | a path without dots is left as it is |
| EnvGenerator.ReplaceDotsAppend | src/parser.rs:80 | the replacement works piece by piece |
| EnvGenerator.ReplaceDotPair | src/parser.rs:80 | `a.b` with dot-free `a` and `b` becomes `a`, the separator, `b` |
| EnvGenerator.FormatKey | src/parser.rs:78-95 | a name is the prefix, then the path's segments joined with the separator, all in the configured case |
| EnvGenerator.FormatJoinedPath | src/parser.rs:78-95 | for a path built from dot-free segments each dot becomes one separator and the segments are kept |
| EnvGenerator.DottedPair | src/parser.rs:78-95 | the name of a two-segment path `a.b` |
| EnvGenerator.FormatKeyNoDots | src/parser.rs:78-95 | with a prefix and separator free of dots, the name has no dot |
| EnvGenerator.FormatKeyIdempotent | src/parser.rs:78-95 | with no prefix and a dot-free separator, formatting a name again changes nothing |
| EnvGenerator.NamesCanCollide | src/parser.rs:78-95 | `a.b` and `a_b` both become `A_B` under the default options |
| EnvGenerator.DefaultFormatExample | src/parser.rs:103-106 | `database.host` becomes `DATABASE_HOST` by default |
| EnvGenerator.PrefixFormatExample | src/parser.rs:109-112 | with prefix `APP` it becomes `APPDATABASE_HOST` |
| EnvGenerator.SeparatorFormatExample | src/parser.rs:115-118 | with separator `__` it becomes `DATABASE__HOST` |
| EnvGenerator.LowercaseFormatExample | src/parser.rs:89-94 | without upper-casing it becomes `database_host` |
| EnvGenerator.LeastKey | src/parser.rs:63-64 | every non-empty set of keys has a least key |
| EnvGenerator.SortedKeys | src/parser.rs:63-64 | the keys of a set in strictly ascending order: each key once, no other |
| EnvGenerator.SortedUnique | src/parser.rs:63-64 | two strictly ascending sequences with the same keys are equal, so the order depends only on the set of keys |
| EnvGenerator.ArrangementIsSortedKeys | src/parser.rs:63-64 | an ascending rearrangement of a set's keys is its sorted keys |
| EnvGenerator.CollectKeys | src/parser.rs:63 | the keys of the map, each once, in a fresh array |
| EnvGenerator.SortKeys | src/parser.rs:64 | after sorting in place the keys are ascending and are the same keys as before |
| EnvGenerator.InsertLast | src/parser.rs:64 | one insertion step makes the first `i + 1` keys ascending, keeps the array's keys, and leaves the array after position `i` as it was |
| EnvGenerator.SwapDown | src/parser.rs:64 | exchanges two neighbours, nothing else changes, and the keys are kept |
| EnvGenerator.EnvLinesAt | src/parser.rs:66-72 | one line per key: line `i` is the name of key `i`, `=`, and its value |
| EnvGenerator.EmitLines | src/parser.rs:66-72 | the loop emits the lines of the keys in array order |
| EnvGenerator.Generate | src/parser.rs:60-75 | one line per map entry, for the keys in ascending order |
| EnvGenerator.HostBeforePort | src/parser.rs:121-129 | `database.host` sorts strictly before `database.port` |
| EnvGenerator.ExampleOrder | src/parser.rs:121-129 | the test's two paths sort as host, then port |
| EnvGenerator.PrefixPortExample | src/parser.rs:121-129 | with prefix `APP`, `database.port` becomes `APPDATABASE_PORT` |
| EnvGenerator.GenerateExample | src/parser.rs:121-129 | the test map gives `APPDATABASE_HOST=localhost` then `APPDATABASE_PORT=5432` |
| Cli.DetectFormat | src/main.rs:92-107 | an explicit format is returned as given; no extension is an error; the extension is matched ignoring ASCII case: `yaml` and `yml` give `yaml`, `toml` gives `toml`, `json` gives `json`, and any other extension is reported as written |
| Cli.SelectParser | src/main.rs:55-60 | exactly `yaml`, `yml`, `toml` and `json` select a parser: `yaml` and `yml` the YAML parser, `toml` the TOML parser, `json` the JSON parser; any other name is an unsupported format |
| Cli.NameSelectsParser | src/main.rs:55-64 | a parser's own name selects that parser again |
| Cli.DetectedFormatHasParser | src/main.rs:52-60 | a format found from the extension always has a parser |
| Cli.DetectIgnoresCase | src/main.rs:102-106 | extensions equal up to ASCII case are accepted alike and give the same format |
| Cli.ExplicitFormatIsCaseSensitive | src/main.rs:55-60 | the extension `JSON` gives `json`, but `--format JSON` is passed on as it is and rejected |
| Cli.ParseAs | src/main.rs:55-64 | the chosen parser's error carries that parser's context line; its success is the flattened document |
| Cli.CommandLineDefaults | src/main.rs:31-41 | options left at their defaults give the generator's default configuration |
| Cli.JoinLines | src/main.rs:78 | no lines join to the empty text; otherwise the text starts with the first line |
| Cli.JoinLinesRoundTrip | src/main.rs:78 | splitting the joined output at newlines gives the lines back when no line holds a newline |
| Cli.JoinLinesEndsWithLastLine | src/main.rs:78 | the joined text ends with the last line itself, so the join adds no trailing newline |
| Cli.Emit | src/main.rs:80-86 | standard output gets the text and a newline; a file gets the text exactly, or the write fails with its path |
| Cli.Convert | src/main.rs:44-89 | a run is its `Outcome`: a read failure first, then the format errors, then the parse error with both context lines, then the sorted lines written out |
| Cli.NoUnsupportedFormatFromExtension | src/main.rs:52-60 | without `--format` a run never fails with an unsupported format |
| Cli.OutputLines | src/main.rs:75-86 | a successful run writes the sorted lines: a file holds exactly them, standard output holds them followed by one empty last line |

## Left out

- Parsing the text itself (the JSON, YAML and TOML libraries) is not modelled. Each library's outcome, a document or a diagnostic, is an input.
- Floats and dates are stored as their library's display text. That text is an opaque string here, because float and date formatting are not modelled.
- JSON numbers are integers or floats. Arbitrary-precision numbers are not modelled.
- The YAML serializer that names a non-string key is the parameter `render`. Its trailing newline, and the empty string it falls back to on failure, are whatever `render` returns.
- A mapping's entries come in the order the library iterates them. The model takes that order as given, and where two entries write the same path the later one wins.
- Text.AsciiUpper: upper-cases ASCII letters only. Rust's `to_uppercase` maps all of Unicode and can change the length (`ß` becomes `SS`). So names are modelled exactly only for ASCII paths and prefixes.
- Cli.DetectFormat: lower-cases ASCII letters only, where Rust's `to_lowercase` maps all of Unicode.
- The order of a `HashMap`'s keys is an arbitrary choice (`:|`) in `EnvGenerator.CollectKeys`. Sorting makes the output independent of it.
- Rust's sort is replaced by an insertion sort. Only the result, ascending order over the same keys, is modelled.
- In `generate`, the `if let Some(value)` test always succeeds because the keys come from the map. `EnvGenerator.EmitLines` keeps the test but requires the keys to be in the map.
- Argument parsing (clap, `--help`, `--version`) is not modelled; the run takes the parsed options.
- File reading and writing are not modelled. Whether each succeeds is an input, and a failure is `ReadFailed` or `WriteFailed` with the path. The error message text and the `Successfully written to` line on standard error are not modelled.
- A failed write to standard output is not modelled; the model always writes there successfully.
- The path's extension is an input (`None` when there is none or it is not valid text), because path handling is not modelled.
- `Box<dyn ConfigParser>`, `Send` and `Sync` are not modelled: the parser choice is the `Format` datatype.
- The Homebrew formula `cte.rb` is not part of this model.
- A document whose root is an array gives keys `.0`, `.1`, …, because the element path is always `prefix.index`, also when the prefix is empty (`JsonParser.RootArray`).
- Formatting a name again is proved to be the identity when the prefix is empty and the separator has no dot (`EnvGenerator.FormatKeyIdempotent`). With a non-empty prefix the prefix is generally added again. Other configurations, such as an empty prefix with `.` as the separator, are not covered by that lemma.
