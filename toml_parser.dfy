/** The TOML parser: the library parses the text into a value, and the walk
    flattens that value from the empty path into an empty map. TOML has
    integers, floats and dates, and no null. */
module TomlParser {
  import opened Text
  import opened Document
  import opened Flattener

  /** The name the parser reports in diagnostics. */
  function Name(): string
  {
    "toml"
  }

  /** The parse: a library failure becomes a parse error with the parser's
      context line; otherwise the map holds the document's flattened entries. */
  method Parse(parsed: Parsed) returns (r: Result<map<string, string>, ParseError>)
    requires parsed.Parsed? ==> IsToml(parsed.root)
    ensures parsed.Unparsable? ==> r == Err(ParseError("Failed to parse TOML content", parsed.diagnostic))
    ensures parsed.Parsed? ==> r == Ok(Flat("", parsed.root, NoKeyRendering))
  {
    match parsed {
      case Unparsable(diagnostic) =>
        r := Err(ParseError("Failed to parse TOML content", diagnostic));
      case Parsed(root) =>
        var result := new StringMap();
        FlattenValue("", root, NoKeyRendering, result);
        r := Ok(result.entries);
    }
  }

  /** There is no null in TOML: every leaf is a string, integer, float,
      boolean or date, and each writes exactly one entry at its path. */
  lemma LeafEntry(prefix: string, v: Value, render: Value -> string)
    requires IsToml(v) && v.IsLeaf()
    ensures v.Str? || v.Int? || v.Float? || v.Bool? || v.Datetime?
    ensures Flat(prefix, v, render) == map[prefix := LeafText(v)]
  {
  }

  /** An integer is stored as its decimal text, which reads back as the
      integer: `8080` is stored as `"8080"`. */
  lemma {:induction false} IntegerLeaf(prefix: string, n: int, render: Value -> string)
    ensures prefix in Flat(prefix, Int(n), render)
    ensures Flat(prefix, Int(n), render)[prefix] != ""
    ensures SignedDecimalValue(Flat(prefix, Int(n), render)[prefix]) == n
    ensures Flat("", Int(8080), render)[""] == "8080"
  {
    IntDecimalRoundTrip(n);
    assert NatToDecimal(8080) == "8080" by {
      assert NatToDecimal(8) == "8";
      assert NatToDecimal(80) == "80";
      assert NatToDecimal(808) == "808";
    }
  }

  /** An array of inline tables gives `servers.0.host`, `servers.0.port`, ...:
      the element index sits between the array's key and the table's keys. */
  lemma ArrayOfTables(render: Value -> string)
    ensures Flat("", Mapping([Entry(Str("servers"), Sequence([
                   Mapping([Entry(Str("host"), Str("s1")), Entry(Str("port"), Int(1))]),
                   Mapping([Entry(Str("host"), Str("s2")), Entry(Str("port"), Int(2))])]))]), render)
         == map["servers.0.host" := "s1", "servers.0.port" := "1",
                "servers.1.host" := "s2", "servers.1.port" := "2"]
  {
    var first := Mapping([Entry(Str("host"), Str("s1")), Entry(Str("port"), Int(1))]);
    var second := Mapping([Entry(Str("host"), Str("s2")), Entry(Str("port"), Int(2))]);
    var servers := Sequence([first, second]);
    var doc := Mapping([Entry(Str("servers"), servers)]);
    assert IndexPath("servers", 0) == "servers.0";
    assert IndexPath("servers", 1) == "servers.1";
    assert ChildPath("servers.0", "host") == "servers.0.host";
    assert ChildPath("servers.0", "port") == "servers.0.port";
    assert ChildPath("servers.1", "host") == "servers.1.host";
    assert ChildPath("servers.1", "port") == "servers.1.port";
    var afterFirst := map["servers.0.host" := "s1", "servers.0.port" := "1"];
    assert FoldEntries("servers.0", first, 1, map[], render) == map["servers.0.host" := "s1"];
    assert Flatten("servers.0", first, map[], render) == FoldEntries("servers.0", first, 2, map[], render) == afterFirst;
    assert FoldEntries("servers.1", second, 1, afterFirst, render) == afterFirst["servers.1.host" := "s2"];
    assert Flatten("servers.1", second, afterFirst, render) == FoldEntries("servers.1", second, 2, afterFirst, render);
    assert FoldItems("servers", servers, 1, map[], render) == afterFirst;
    assert Flat("servers", servers, render) == FoldItems("servers", servers, 2, map[], render);
    assert Flat("", doc, render) == FoldEntries("", doc, 1, map[], render);
  }
}
