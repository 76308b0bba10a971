/** The environment generator: turns the flattened `path -> value` map into
    `KEY=value` lines, sorted by path, with each path turned into a variable
    name by separator substitution, prefixing and optional upper-casing. */
module EnvGenerator {
  import opened Text

  // ---------------------------------------------------------------------------
  // Configuration
  // ---------------------------------------------------------------------------

  /** `prefix` is prepended to every name, `separator` replaces each `.` of a
      path, and `uppercase` upper-cases the whole name. */
  datatype Config = Config(prefix: string, separator: string, uppercase: bool)

  /** No prefix, `_` as separator, upper case. */
  function DefaultConfig(): Config
  {
    Config("", "_", true)
  }

  /** A generator holds its configuration and nothing else. */
  datatype Generator = Generator(config: Config)

  function New(config: Config): Generator
  {
    Generator(config)
  }

  /** A generator with the given prefix and the default separator and case. */
  function WithPrefix(prefix: string): (g: Generator)
    ensures g.config == DefaultConfig().(prefix := prefix)
    ensures g.config.separator == "_" && g.config.uppercase
  {
    New(Config(prefix, DefaultConfig().separator, DefaultConfig().uppercase))
  }

  /** A generator with the given separator and the default prefix and case. */
  function WithSeparator(separator: string): (g: Generator)
    ensures g.config == DefaultConfig().(separator := separator)
    ensures g.config.prefix == "" && g.config.uppercase
  {
    New(Config(DefaultConfig().prefix, separator, DefaultConfig().uppercase))
  }

  // ---------------------------------------------------------------------------
  // Key formatting
  // ---------------------------------------------------------------------------

  /** Replaces every `.` of `key` with `sep` in one left-to-right pass; the
      inserted separators are never scanned again. */
  function ReplaceDots(key: string, sep: string): (r: string)
    ensures '.' !in sep ==> '.' !in r
  {
    if key == [] then []
    else (if key[0] == '.' then sep else [key[0]]) + ReplaceDots(key[1..], sep)
  }

  /** The variable name for a path: dots replaced, the prefix put directly in
      front (no delimiter), and the whole upper-cased if configured. */
  function FormatKey(config: Config, key: string): (name: string)
    ensures name == Cased(config, config.prefix + Join(Split(key, '.'), config.separator))
  {
    ReplaceDotsSplitJoin(key, config.separator);
    var formatted := ReplaceDots(key, config.separator);
    var withPrefix := if config.prefix == "" then formatted else config.prefix + formatted;
    if config.uppercase then AsciiUpper(withPrefix) else withPrefix
  }

  /** Applies the configured case to a name. */
  function Cased(config: Config, s: string): string
  {
    if config.uppercase then AsciiUpper(s) else s
  }

  /** The replacement is the same as splitting the path at its dots and
      joining the segments with the separator. */
  lemma {:induction false} ReplaceDotsSplitJoin(key: string, sep: string)
    ensures ReplaceDots(key, sep) == Join(Split(key, '.'), sep)
  {
    if key != [] {
      var rest := Split(key[1..], '.');
      ReplaceDotsSplitJoin(key[1..], sep);
      if key[0] == '.' {
        assert Split(key, '.') == [""] + rest;
        assert ([""] + rest)[1..] == rest;
      } else {
        var parts := Split(key, '.');
        assert parts == [[key[0]] + rest[0]] + rest[1..];
        if |rest| == 1 {
          assert parts == [[key[0]] + rest[0]];
        } else {
          assert parts[1..] == rest[1..];
        }
      }
    }
  }

  /** For a path built from dot-free segments, each path dot becomes exactly
      one separator and the segments are kept as they are. */
  lemma FormatJoinedPath(config: Config, segments: seq<string>)
    requires |segments| >= 1
    requires forall j :: 0 <= j < |segments| ==> '.' !in segments[j]
    ensures FormatKey(config, Join(segments, ".")) == Cased(config, config.prefix + Join(segments, config.separator))
  {
    SplitJoin(segments, '.');
  }

  /** With a prefix and a separator free of dots, no dot of the path survives
      in the name. */
  lemma FormatKeyNoDots(config: Config, key: string)
    requires '.' !in config.prefix && '.' !in config.separator
    ensures '.' !in FormatKey(config, key)
  {
    var withPrefix := config.prefix + ReplaceDots(key, config.separator);
    assert '.' !in withPrefix;
    AsciiUpperFacts(withPrefix);
  }

  /** Formatting an already formatted name changes nothing, when there is no
      prefix to add again and the separator has no dot. */
  lemma FormatKeyIdempotent(config: Config, key: string)
    requires config.prefix == "" && '.' !in config.separator
    ensures FormatKey(config, FormatKey(config, key)) == FormatKey(config, key)
  {
    var once := FormatKey(config, key);
    FormatKeyNoDots(config, key);
    ReplaceDotsNoDots(once, config.separator);
    AsciiUpperFacts(ReplaceDots(key, config.separator));
  }

  lemma {:induction false} ReplaceDotsNoDots(key: string, sep: string)
    requires '.' !in key
    ensures ReplaceDots(key, sep) == key
  {
    if key != [] {
      assert '.' !in key[1..] by {
        forall m | 0 <= m < |key[1..]| ensures key[1..][m] != '.' { assert key[1..][m] == key[m + 1]; }
      }
      ReplaceDotsNoDots(key[1..], sep);
    }
  }

  /** `database.host` under the default options: `DATABASE_HOST`. */
  lemma DefaultFormatExample()
    ensures FormatKey(DefaultConfig(), "database.host") == "DATABASE_HOST"
  {
    assert "" + "database" + "_" + "host" == "database_host";
    UpperLiteral("database_host", "DATABASE_HOST");
    DatabaseHost(DefaultConfig(), "DATABASE_HOST");
  }

  /** With prefix `APP` the prefix is glued on without a delimiter: `APPDATABASE_HOST`. */
  lemma PrefixFormatExample()
    ensures FormatKey(WithPrefix("APP").config, "database.host") == "APPDATABASE_HOST"
  {
    assert "APP" + "database" + "_" + "host" == "APPdatabase_host";
    UpperLiteral("APPdatabase_host", "APPDATABASE_HOST");
    DatabaseHost(WithPrefix("APP").config, "APPDATABASE_HOST");
  }

  /** With separator `__` each dot becomes two underscores: `DATABASE__HOST`. */
  lemma SeparatorFormatExample()
    ensures FormatKey(WithSeparator("__").config, "database.host") == "DATABASE__HOST"
  {
    assert "" + "database" + "__" + "host" == "database__host";
    UpperLiteral("database__host", "DATABASE__HOST");
    DatabaseHost(WithSeparator("__").config, "DATABASE__HOST");
  }

  /** Without upper-casing only the substitution applies: `database_host`. */
  lemma LowercaseFormatExample()
    ensures FormatKey(DefaultConfig().(uppercase := false), "database.host") == "database_host"
  {
    DatabaseHost(DefaultConfig().(uppercase := false), "database_host");
  }

  /** Distinct paths can get the same name: with the default options a dot
      and an underscore in a path both end up as `_`. */
  lemma NamesCanCollide()
    ensures FormatKey(DefaultConfig(), "a.b") == "A_B"
    ensures FormatKey(DefaultConfig(), "a_b") == "A_B"
  {
    assert "a" + "." + "b" == "a.b";
    DottedPair(DefaultConfig(), "a", "b");
    assert "" + "a" + "_" + "b" == "a_b";
    UpperLiteral("a_b", "A_B");
    ReplaceDotsNoDots("a_b", "_");
  }

  /** `t` is `s` upper-cased, checked character by character. */
  lemma UpperLiteral(s: string, t: string)
    requires |s| == |t| && forall i :: 0 <= i < |s| ==> UpperChar(s[i]) == t[i]
    ensures AsciiUpper(s) == t
  {
  }

  /** The name of `database.host` is `expected` when that is the prefix,
      `database`, the separator and `host`, in the configured case. */
  lemma DatabaseHost(config: Config, expected: string)
    requires expected == Cased(config, config.prefix + "database" + config.separator + "host")
    ensures FormatKey(config, "database.host") == expected
  {
    assert "database" + "." + "host" == "database.host";
    DottedPair(config, "database", "host");
  }

  /** The same for `database.port`. */
  lemma DatabasePort(config: Config, expected: string)
    requires expected == Cased(config, config.prefix + "database" + config.separator + "port")
    ensures FormatKey(config, "database.port") == expected
  {
    assert "database" + "." + "port" == "database.port";
    DottedPair(config, "database", "port");
  }

  /** A two-segment path `a.b` becomes `a`, the separator, `b`. */
  lemma DottedPair(config: Config, a: string, b: string)
    requires '.' !in a && '.' !in b
    ensures FormatKey(config, a + "." + b) == Cased(config, config.prefix + a + config.separator + b)
  {
    var formatted := a + config.separator + b;
    ReplaceDotPair(a, b, config.separator);
    if config.prefix == "" {
      assert config.prefix + formatted == formatted;
    }
    assert config.prefix + formatted == config.prefix + a + config.separator + b;
  }

  lemma ReplaceDotPair(a: string, b: string, sep: string)
    requires '.' !in a && '.' !in b
    ensures ReplaceDots(a + "." + b, sep) == a + sep + b
  {
    var tail := "." + b;
    assert a + "." + b == a + tail;
    ReplaceDotsAppend(a, tail, sep);
    ReplaceDotsNoDots(a, sep);
    assert tail[0] == '.' && tail[1..] == b;
    assert ReplaceDots(tail, sep) == sep + ReplaceDots(b, sep);
    ReplaceDotsNoDots(b, sep);
  }

  /** The replacement works piecewise. */
  lemma {:induction false} ReplaceDotsAppend(a: string, b: string, sep: string)
    ensures ReplaceDots(a + b, sep) == ReplaceDots(a, sep) + ReplaceDots(b, sep)
  {
    if a != [] {
      ReplaceDotsAppend(a[1..], b, sep);
      assert (a + b)[1..] == a[1..] + b;
      assert (a + b)[0] == a[0];
    } else {
      assert a + b == b;
    }
  }

  // ---------------------------------------------------------------------------
  // Sorted keys
  // ---------------------------------------------------------------------------

  /** Each key is at most its successor. */
  predicate Ascending(s: seq<string>)
  {
    forall i :: 0 < i < |s| ==> LexLeq(s[i - 1], s[i])
  }

  /** Strictly increasing: ordered and without repeats. */
  ghost predicate StrictlySorted(s: seq<string>)
  {
    forall i, j :: 0 <= i < j < |s| ==> LexLeq(s[i], s[j]) && s[i] != s[j]
  }

  /** Every non-empty set of keys has a least key. */
  lemma {:induction false} LeastKey(s: set<string>) returns (least: string)
    requires s != {}
    ensures least in s && forall x :: x in s ==> LexLeq(least, x)
    decreases |s|
  {
    var y :| y in s;
    if s == {y} {
      least := y;
      forall x | x in s ensures LexLeq(y, x) {
        assert x == y;
        LexLeqReflexive(y);
      }
    } else {
      var rest := s - {y};
      assert |rest| < |s|;
      var m := LeastKey(rest);
      LexLeqTotal(m, y);
      if LexLeq(m, y) {
        least := m;
        forall x | x in s ensures LexLeq(m, x) {
          if x != y { assert x in rest; }
        }
      } else {
        least := y;
        forall x | x in s ensures LexLeq(y, x) {
          if x == y {
            LexLeqReflexive(y);
          } else {
            assert x in rest;
            LexLeqTransitive(y, m, x);
          }
        }
      }
    }
  }

  lemma LeastExists(s: set<string>)
    requires s != {}
    ensures exists least :: least in s && forall x :: x in s ==> LexLeq(least, x)
  {
    var least := LeastKey(s);
  }

  /** The keys of a set in ascending order: the order `generate` emits them in. */
  ghost function SortedKeys(s: set<string>): (ks: seq<string>)
    ensures StrictlySorted(ks)
    ensures forall k :: k in ks <==> k in s
    ensures |ks| == |s|
    decreases s
  {
    if s == {} then []
    else
      LeastExists(s);
      var least :| least in s && forall x :: x in s ==> LexLeq(least, x);
      [least] + SortedKeys(s - {least})
  }

  /** Two strictly sorted sequences with the same keys are the same sequence,
      so the emitted order depends on nothing but the set of keys. */
  lemma {:induction false} SortedUnique(a: seq<string>, b: seq<string>)
    requires StrictlySorted(a) && StrictlySorted(b)
    requires forall k :: k in a <==> k in b
    ensures a == b
    decreases |a|
  {
    assert |a| > 0 ==> a[0] in b;
    assert |b| > 0 ==> b[0] in a;
    if |a| > 0 && |b| > 0 {
      var i :| 0 <= i < |a| && a[i] == b[0];
      var j :| 0 <= j < |b| && b[j] == a[0];
      LexLeqReflexive(a[0]);
      LexLeqReflexive(b[0]);
      assert LexLeq(a[0], b[0]);
      assert LexLeq(b[0], a[0]);
      LexLeqAntisymmetric(a[0], b[0]);
      assert a == [a[0]] + a[1..] && b == [b[0]] + b[1..];
      forall k ensures k in a[1..] <==> k in b[1..] {
        if k in a[1..] {
          var p :| 0 <= p < |a[1..]| && a[1..][p] == k;
          assert a[p + 1] == k && k != a[0];
          assert k in b;
          var q :| 0 <= q < |b| && b[q] == k;
          assert q != 0;
          assert b[1..][q - 1] == k;
        }
        if k in b[1..] {
          var q :| 0 <= q < |b[1..]| && b[1..][q] == k;
          assert b[q + 1] == k && k != b[0];
          assert k in a;
          var p :| 0 <= p < |a| && a[p] == k;
          assert p != 0;
          assert a[1..][p - 1] == k;
        }
      }
      SortedUnique(a[1..], b[1..]);
      assert a == [a[0]] + a[1..] && b == [b[0]] + b[1..];
    }
  }

  lemma {:induction false} AscendingPairs(s: seq<string>, i: nat, j: nat)
    requires Ascending(s) && i <= j < |s|
    ensures LexLeq(s[i], s[j])
    decreases j - i
  {
    if i == j {
      LexLeqReflexive(s[i]);
    } else {
      AscendingPairs(s, i, j - 1);
      LexLeqTransitive(s[i], s[j - 1], s[j]);
    }
  }

  lemma CountTwo(s: seq<string>, i: nat, j: nat)
    requires i < j < |s| && s[i] == s[j]
    ensures multiset(s)[s[i]] >= 2
  {
    assert s == s[..j] + s[j..];
    assert s[i] in s[..j];
    assert s[j] in s[j..];
    assert multiset(s) == multiset(s[..j]) + multiset(s[j..]);
  }

  /** An ascending arrangement of the keys of a set is that set's sorted keys. */
  lemma ArrangementIsSortedKeys(s: seq<string>, keys: set<string>)
    requires Ascending(s)
    requires multiset(s) == multiset(keys)
    ensures s == SortedKeys(keys)
  {
    forall i, j | 0 <= i < j < |s| ensures LexLeq(s[i], s[j]) && s[i] != s[j] {
      AscendingPairs(s, i, j);
      if s[i] == s[j] {
        CountTwo(s, i, j);
      }
    }
    forall k ensures k in s <==> k in keys {
      assert k in s <==> k in multiset(s);
    }
    SortedUnique(s, SortedKeys(keys));
  }

  /** Sorts the keys in place (insertion sort): afterwards they are ascending
      and are the same keys as before. */
  method SortKeys(a: array<string>)
    modifies a
    ensures Ascending(a[..])
    ensures multiset(a[..]) == old(multiset(a[..]))
  {
    var i := 0;
    while i < a.Length
      invariant 0 <= i <= a.Length
      invariant Ascending(a[..i])
      invariant multiset(a[..]) == old(multiset(a[..]))
    {
      InsertLast(a, i);
      i := i + 1;
    }
    assert a[..] == a[..a.Length];
  }

  /** Moves `a[i]` left into the ascending run `a[..i]`. */
  method InsertLast(a: array<string>, i: nat)
    requires i < a.Length && Ascending(a[..i])
    modifies a
    ensures Ascending(a[..i + 1])
    ensures multiset(a[..]) == old(multiset(a[..]))
    ensures a[i + 1..] == old(a[i + 1..])
  {
    var j := i;
    while j > 0 && !LexLeq(a[j - 1], a[j])
      invariant 0 <= j <= i
      invariant forall p :: 0 < p <= i && p != j ==> LexLeq(a[p - 1], a[p])
      invariant 0 < j < i ==> LexLeq(a[j - 1], a[j + 1])
      invariant multiset(a[..]) == old(multiset(a[..]))
      invariant forall p :: i < p < a.Length ==> a[p] == old(a[p])
    {
      LexLeqTotal(a[j - 1], a[j]);
      SwapDown(a, j);
      j := j - 1;
    }
    assert a[i + 1..] == old(a[i + 1..]);
  }

  /** Exchanges `a[j - 1]` and `a[j]`. */
  method SwapDown(a: array<string>, j: nat)
    requires 0 < j < a.Length
    modifies a
    ensures forall p :: 0 <= p < a.Length && p != j - 1 && p != j ==> a[p] == old(a[p])
    ensures a[j - 1] == old(a[j]) && a[j] == old(a[j - 1])
    ensures multiset(a[..]) == old(multiset(a[..]))
  {
    a[j - 1], a[j] := a[j], a[j - 1];
  }

  // ---------------------------------------------------------------------------
  // Line generation
  // ---------------------------------------------------------------------------

  /** One output line: the variable name, `=`, and the value as it is (no
      quoting or escaping). */
  function EnvLine(config: Config, key: string, value: string): string
  {
    FormatKey(config, key) + "=" + value
  }

  /** The lines for `keys`, in that order. */
  function EnvLines(config: Config, m: map<string, string>, keys: seq<string>): (lines: seq<string>)
    requires forall k :: k in keys ==> k in m
    ensures |lines| == |keys|
  {
    if keys == [] then [] else EnvLines(config, m, keys[..|keys| - 1]) + [EnvLine(config, keys[|keys| - 1], m[keys[|keys| - 1]])]
  }

  /** Line `i` is the line of key `i`. */
  lemma {:induction false} EnvLinesAt(config: Config, m: map<string, string>, keys: seq<string>, i: nat)
    requires forall k :: k in keys ==> k in m
    requires i < |keys|
    ensures EnvLines(config, m, keys)[i] == EnvLine(config, keys[i], m[keys[i]])
  {
    if i < |keys| - 1 {
      var init := keys[..|keys| - 1];
      EnvLinesAt(config, m, init, i);
      assert init[i] == keys[i];
    }
  }

  /** The lines for the whole map: one line per entry, in ascending order of
      the original dotted paths. Being a function of the map alone, it does
      not depend on the order in which the map was built. */
  method Generate(gen: Generator, configMap: map<string, string>) returns (envLines: seq<string>)
    ensures |envLines| == |configMap|
    ensures envLines == EnvLines(gen.config, configMap, SortedKeys(configMap.Keys))
  {
    var keys := CollectKeys(configMap);
    SortKeys(keys);
    ArrangementIsSortedKeys(keys[..], configMap.Keys);
    envLines := EmitLines(gen.config, configMap, keys);
  }

  /** The keys of the map, in whatever order the map yields them, in a fresh array. */
  method CollectKeys(configMap: map<string, string>) returns (keys: array<string>)
    ensures fresh(keys)
    ensures multiset(keys[..]) == multiset(configMap.Keys)
  {
    var collected: seq<string> := [];
    var rest := configMap.Keys;
    while rest != {}
      invariant rest <= configMap.Keys
      invariant multiset(collected) == multiset(configMap.Keys - rest)
      decreases |rest|
    {
      var key :| key in rest;
      assert (configMap.Keys - (rest - {key})) == (configMap.Keys - rest) + {key};
      assert key !in configMap.Keys - rest;
      collected := collected + [key];
      rest := rest - {key};
    }
    assert configMap.Keys - rest == configMap.Keys;
    keys := new string[|collected|];
    forall i | 0 <= i < |collected| {
      keys[i] := collected[i];
    }
    assert keys[..] == collected;
  }

  /** One line per key, in the array's order, for keys the map holds. */
  method EmitLines(config: Config, configMap: map<string, string>, keys: array<string>) returns (envLines: seq<string>)
    requires forall k :: k in keys[..] ==> k in configMap
    ensures envLines == EnvLines(config, configMap, keys[..])
  {
    envLines := [];
    for i := 0 to keys.Length
      invariant envLines == EnvLines(config, configMap, keys[..i])
    {
      var key := keys[i];
      if key in configMap {
        var value := configMap[key];
        var envKey := FormatKey(config, key);
        var envLine := envKey + "=" + value;
        envLines := envLines + [envLine];
      }
      assert keys[..i + 1][..i] == keys[..i];
    }
    assert keys[..keys.Length] == keys[..];
  }

  /** The unit test's two paths, `database.host` and `database.port`, in order. */
  lemma ExampleOrder()
    ensures SortedKeys({"database.port", "database.host"}) == ["database.host", "database.port"]
  {
    var ordered := ["database.host", "database.port"];
    HostBeforePort();
    assert StrictlySorted(ordered);
    SortedUnique(ordered, SortedKeys({"database.port", "database.host"}));
  }

  lemma HostBeforePort()
    ensures LexLeq("database.host", "database.port") && "database.host" != "database.port"
  {
    assert LexLeq("host", "port");
    LexLeqCommonPrefix("database.", "host", "port");
    assert "database." + "host" == "database.host" && "database." + "port" == "database.port";
    assert "database.host"[9] != "database.port"[9];
  }

  /** With prefix `APP`, `database.port` is named `APPDATABASE_PORT`. */
  lemma PrefixPortExample()
    ensures FormatKey(WithPrefix("APP").config, "database.port") == "APPDATABASE_PORT"
  {
    assert "APP" + "database" + "_" + "port" == "APPdatabase_port";
    UpperLiteral("APPdatabase_port", "APPDATABASE_PORT");
    DatabasePort(WithPrefix("APP").config, "APPDATABASE_PORT");
  }

  /** The unit test's map with prefix `APP` gives its two lines in path order. */
  lemma GenerateExample()
    ensures var m := map["database.port" := "5432", "database.host" := "localhost"];
      EnvLines(WithPrefix("APP").config, m, SortedKeys(m.Keys))
        == ["APPDATABASE_HOST=localhost", "APPDATABASE_PORT=5432"]
  {
    var m := map["database.port" := "5432", "database.host" := "localhost"];
    assert m.Keys == {"database.port", "database.host"};
    ExampleOrder();
    PrefixFormatExample();
    PrefixPortExample();
    TwoLines(WithPrefix("APP").config, m, "database.host", "database.port", "APPDATABASE_HOST", "APPDATABASE_PORT");
    ExampleLines();
  }

  lemma ExampleLines()
    ensures "APPDATABASE_HOST" + "=" + "localhost" == "APPDATABASE_HOST=localhost"
    ensures "APPDATABASE_PORT" + "=" + "5432" == "APPDATABASE_PORT=5432"
  {
  }

  lemma TwoLines(config: Config, m: map<string, string>, k1: string, k2: string, n1: string, n2: string)
    requires k1 in m && k2 in m
    requires FormatKey(config, k1) == n1 && FormatKey(config, k2) == n2
    ensures EnvLines(config, m, [k1, k2]) == [n1 + "=" + m[k1], n2 + "=" + m[k2]]
  {
  }
}
