/** The YAML parser: the library parses the text into a value, and the walk
    flattens that value from the empty path into an empty map. YAML adds
    tagged values and mapping keys that are not strings. */
module YamlParser {
  import opened Document
  import opened Flattener

  /** The name the parser reports in diagnostics. */
  function Name(): string
  {
    "yaml"
  }

  /** The parse: a library failure becomes a parse error with the parser's
      context line; otherwise the map holds the document's flattened entries.
      `render` is the library's serializer, applied to keys that are not
      strings (an empty string where serializing fails). */
  method Parse(parsed: Parsed, render: Value -> string) returns (r: Result<map<string, string>, ParseError>)
    requires parsed.Parsed? ==> IsYaml(parsed.root)
    ensures parsed.Unparsable? ==> r == Err(ParseError("Failed to parse YAML content", parsed.diagnostic))
    ensures parsed.Parsed? ==> r == Ok(Flat("", parsed.root, render))
  {
    match parsed {
      case Unparsable(diagnostic) =>
        r := Err(ParseError("Failed to parse YAML content", diagnostic));
      case Parsed(root) =>
        var result := new StringMap();
        FlattenValue("", root, render, result);
        r := Ok(result.entries);
    }
  }

  /** A string key is used verbatim and any other key through the serializer;
      a tagged value is flattened as its inner value. */
  lemma KeysAndTags(render: Value -> string)
    ensures Flat("", Mapping([Entry(Str("name"), Tagged("!secret", Str("admin"))),
                              Entry(Int(7), Null)]), render)
         == map["name" := "admin", render(Int(7)) := ""]
  {
    var doc := Mapping([Entry(Str("name"), Tagged("!secret", Str("admin"))), Entry(Int(7), Null)]);
    assert FoldEntries("", doc, 1, map[], render) == map["name" := "admin"];
    assert Flat("", doc, render) == FoldEntries("", doc, 2, map[], render);
  }

  /** Nested mappings compose their keys with dots:
      `database: {host: localhost, credentials: {username: admin}}` gives
      `database.host` and `database.credentials.username`. */
  lemma NestedDocument(render: Value -> string)
    ensures Flat("", Mapping([Entry(Str("database"), Mapping([
                   Entry(Str("host"), Str("localhost")),
                   Entry(Str("credentials"), Mapping([Entry(Str("username"), Str("admin"))]))]))]), render)
         == map["database.host" := "localhost", "database.credentials.username" := "admin"]
  {
    var credentials := Mapping([Entry(Str("username"), Str("admin"))]);
    var database := Mapping([Entry(Str("host"), Str("localhost")), Entry(Str("credentials"), credentials)]);
    var doc := Mapping([Entry(Str("database"), database)]);
    assert ChildPath("database", "host") == "database.host";
    assert ChildPath("database", "credentials") == "database.credentials";
    assert ChildPath("database.credentials", "username") == "database.credentials.username";
    assert Flatten("database.credentials", credentials, map["database.host" := "localhost"], render)
      == FoldEntries("database.credentials", credentials, 1, map["database.host" := "localhost"], render)
      == map["database.host" := "localhost", "database.credentials.username" := "admin"];
    assert FoldEntries("database", database, 1, map[], render) == map["database.host" := "localhost"];
    assert Flat("database", database, render) == FoldEntries("database", database, 2, map[], render);
    assert Flat("", doc, render) == FoldEntries("", doc, 1, map[], render);
  }
}
