/** The parsed document: one tagged union covering the value variants of the
    JSON, YAML and TOML libraries the converter reads through. Parsing itself
    is done by those libraries; here a parse is just its outcome. */
module Document {

  /** A document node. `Float` and `Datetime` carry the display text their
      library produces (float and date formatting are not modelled); `Int` is an
      integer number, displayed in decimal. */
  datatype Value =
    | Str(text: string)
    | Int(number: int)
    | Float(display: string)
    | Bool(flag: bool)
    | Null
    | Datetime(display: string)
    | Mapping(entries: seq<Entry>)
    | Sequence(items: seq<Value>)
    | Tagged(tag: string, inner: Value)
  {
    /** The variants that hold no child value. */
    predicate IsLeaf() {
      Str? || Int? || Float? || Bool? || Null? || Datetime?
    }
  }

  /** One key/value pair of a mapping, JSON object or TOML table, in the
      library's iteration order. YAML allows keys that are not strings. */
  datatype Entry = Entry(key: Value, value: Value)

  /** What a JSON library value can be: no dates, no tags, string keys. */
  predicate IsJson(v: Value)
  {
    match v
    case Datetime(_) => false
    case Tagged(_, _) => false
    case Mapping(entries) => forall e | e in entries :: e.key.Str? && IsJson(e.value)
    case Sequence(items) => forall x | x in items :: IsJson(x)
    case _ => true
  }

  /** What a YAML library value can be: no dates (YAML keys may be any value). */
  predicate IsYaml(v: Value)
  {
    match v
    case Datetime(_) => false
    case Tagged(_, inner) => IsYaml(inner)
    case Mapping(entries) => forall e | e in entries :: IsYaml(e.value)
    case Sequence(items) => forall x | x in items :: IsYaml(x)
    case _ => true
  }

  /** What a TOML library value can be: no null, no tags, string keys. */
  predicate IsToml(v: Value)
  {
    match v
    case Null => false
    case Tagged(_, _) => false
    case Mapping(entries) => forall e | e in entries :: e.key.Str? && IsToml(e.value)
    case Sequence(items) => forall x | x in items :: IsToml(x)
    case _ => true
  }

  /** Every mapping key anywhere in `v` is a string. */
  predicate StringKeys(v: Value)
  {
    match v
    case Mapping(entries) => forall e | e in entries :: e.key.Str? && StringKeys(e.value)
    case Sequence(items) => forall x | x in items :: StringKeys(x)
    case Tagged(_, inner) => StringKeys(inner)
    case _ => true
  }

  lemma {:induction false} JsonHasStringKeys(v: Value)
    requires IsJson(v)
    ensures StringKeys(v)
  {
    match v
    case Mapping(entries) =>
      forall e | e in entries ensures StringKeys(e.value) { JsonHasStringKeys(e.value); }
    case Sequence(items) =>
      forall x | x in items ensures StringKeys(x) { JsonHasStringKeys(x); }
    case _ =>
  }

  lemma {:induction false} TomlHasStringKeys(v: Value)
    requires IsToml(v)
    ensures StringKeys(v)
  {
    match v
    case Mapping(entries) =>
      forall e | e in entries ensures StringKeys(e.value) { TomlHasStringKeys(e.value); }
    case Sequence(items) =>
      forall x | x in items ensures StringKeys(x) { TomlHasStringKeys(x); }
    case _ =>
  }

  /** The outcome of a library's parse: the document, or its diagnostic. */
  datatype Parsed = Parsed(root: Value) | Unparsable(diagnostic: string)

  /** A failed parse, as the converter reports it: its own context line
      wrapped around the library's diagnostic. */
  datatype ParseError = ParseError(context: string, cause: string)

  datatype Result<T, E> = Ok(value: T) | Err(error: E)
}
