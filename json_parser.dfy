/** The JSON parser: the library parses the text into a value, and the walk
    flattens that value from the empty path into an empty map. */
module JsonParser {
  import opened Text
  import opened Document
  import opened Flattener

  /** The name the parser reports in diagnostics. */
  function Name(): string
  {
    "json"
  }

  /** The parse: a library failure becomes a parse error with the parser's
      context line; otherwise the map holds the document's flattened entries. */
  method Parse(parsed: Parsed) returns (r: Result<map<string, string>, ParseError>)
    requires parsed.Parsed? ==> IsJson(parsed.root)
    ensures parsed.Unparsable? ==> r == Err(ParseError("Failed to parse JSON content", parsed.diagnostic))
    ensures parsed.Parsed? ==> r == Ok(Flat("", parsed.root, NoKeyRendering))
  {
    match parsed {
      case Unparsable(diagnostic) =>
        r := Err(ParseError("Failed to parse JSON content", diagnostic));
      case Parsed(root) =>
        var result := new StringMap();
        FlattenValue("", root, NoKeyRendering, result);
        r := Ok(result.entries);
    }
  }

  /** The choice of key rendering is immaterial for a JSON document. */
  lemma AnyRendering(v: Value, render: Value -> string)
    requires IsJson(v)
    ensures Flat("", v, NoKeyRendering) == Flat("", v, render)
  {
    JsonHasStringKeys(v);
    RenderIrrelevant("", v, map[], NoKeyRendering, render);
  }

  /** `{"name": "test", "port": 8080, "debug": true}` flattens to three
      top-level entries, the number in decimal and the boolean as `true`. */
  lemma SimpleDocument()
    ensures Flat("", Mapping([Entry(Str("name"), Str("test")), Entry(Str("port"), Int(8080)),
                              Entry(Str("debug"), Bool(true))]), NoKeyRendering)
         == map["name" := "test", "port" := "8080", "debug" := "true"]
  {
    var doc := Mapping([Entry(Str("name"), Str("test")), Entry(Str("port"), Int(8080)),
                        Entry(Str("debug"), Bool(true))]);
    assert FoldEntries("", doc, 1, map[], NoKeyRendering) == map["name" := "test"];
    assert FoldEntries("", doc, 2, map[], NoKeyRendering) == map["name" := "test", "port" := IntToDecimal(8080)];
    assert NatToDecimal(8080) == "8080" by {
      assert NatToDecimal(8) == "8";
      assert NatToDecimal(80) == "80";
      assert NatToDecimal(808) == "808";
    }
    assert Flat("", doc, NoKeyRendering) == FoldEntries("", doc, 3, map[], NoKeyRendering)
      == map["name" := "test", "port" := "8080", "debug" := "true"];
  }

  /** A document whose root is an array has keys `.0`, `.1`, ...: the element
      path is `prefix.index` even for the empty prefix. */
  lemma RootArray()
    ensures Flat("", Sequence([Str("a"), Bool(false)]), NoKeyRendering) == map[".0" := "a", ".1" := "false"]
  {
    var doc := Sequence([Str("a"), Bool(false)]);
    assert IndexPath("", 0) == ".0" by { assert NatToDecimal(0) == "0"; }
    assert IndexPath("", 1) == ".1" by { assert NatToDecimal(1) == "1"; }
    assert FoldItems("", doc, 1, map[], NoKeyRendering) == map[".0" := "a"];
    assert Flat("", doc, NoKeyRendering) == FoldItems("", doc, 2, map[], NoKeyRendering);
  }
}
