/** Flattening a document into dotted-path entries: the depth-first walk the
    JSON, YAML and TOML parsers each run after their library has parsed the
    text. The walk is written once, over the shared `Value`. The three
    formats differ in which variants their values can take (only JSON and
    YAML have null, only YAML has tags and keys that are not strings, only
    TOML has dates, and floats are kept as the library displays them) and
    in how a key that is not a string is named. */
module Flattener {
  import opened Text
  import opened Document

  // ---------------------------------------------------------------------------
  // Paths and leaf texts
  // ---------------------------------------------------------------------------

  /** A mapping key as a path segment: a string key verbatim, any other key
      through the library's serializer `render` (only YAML has such keys). */
  function KeyText(key: Value, render: Value -> string): string
  {
    if key.Str? then key.text else render(key)
  }

  /** The renderer the JSON and TOML walks pass: their keys are always
      strings, so it is never consulted (see `RenderIrrelevant`). */
  function NoKeyRendering(key: Value): string
  {
    ""
  }

  /** The path of a mapping child: the bare key when the path so far is empty
      (at the root, or below a key that was itself empty), else `prefix.key`. */
  function ChildPath(prefix: string, key: string): string
  {
    if prefix == "" then key else prefix + "." + key
  }

  /** The path of a sequence element: always `prefix.index`, even at the root. */
  function IndexPath(prefix: string, index: nat): string
  {
    prefix + "." + NatToDecimal(index)
  }

  /** The text stored for a leaf. */
  function LeafText(v: Value): string
    requires v.IsLeaf()
  {
    match v
    case Str(s) => s
    case Int(n) => IntToDecimal(n)
    case Float(display) => display
    case Bool(b) => if b then "true" else "false"
    case Null => ""
    case Datetime(display) => display
  }

  // ---------------------------------------------------------------------------
  // The walk, as a function of the map before it
  // ---------------------------------------------------------------------------

  /** The map after flattening `v` at `prefix` into `acc`: a leaf is stored at
      `prefix`, a mapping's entries and a sequence's elements are walked in
      order, a tagged value is walked as its inner value. */
  function Flatten(prefix: string, v: Value, acc: map<string, string>, render: Value -> string): (r: map<string, string>)
    ensures acc.Keys <= r.Keys
    decreases v, 1
  {
    match v
    case Mapping(entries) => FoldEntries(prefix, v, |entries|, acc, render)
    case Sequence(items) => FoldItems(prefix, v, |items|, acc, render)
    case Tagged(_, inner) => Flatten(prefix, inner, acc, render)
    case _ => acc[prefix := LeafText(v)]
  }

  /** The map after walking the first `n` entries of the mapping `node`. */
  function FoldEntries(prefix: string, node: Value, n: nat, acc: map<string, string>, render: Value -> string): (r: map<string, string>)
    requires node.Mapping? && n <= |node.entries|
    ensures acc.Keys <= r.Keys
    decreases node, 0, n
  {
    if n == 0 then acc
    else
      var e := node.entries[n - 1];
      Flatten(EntryPath(prefix, e, render), e.value, FoldEntries(prefix, node, n - 1, acc, render), render)
  }

  /** The map after walking the first `n` elements of the sequence `node`. */
  function FoldItems(prefix: string, node: Value, n: nat, acc: map<string, string>, render: Value -> string): (r: map<string, string>)
    requires node.Sequence? && n <= |node.items|
    ensures acc.Keys <= r.Keys
    decreases node, 0, n
  {
    if n == 0 then acc
    else Flatten(IndexPath(prefix, n - 1), node.items[n - 1], FoldItems(prefix, node, n - 1, acc, render), render)
  }

  /** The number of leaves of `v`: the inserts its walk makes. */
  function Leaves(v: Value): nat
    decreases v, 1
  {
    match v
    case Mapping(entries) => EntryLeaves(v, |entries|)
    case Sequence(items) => ItemLeaves(v, |items|)
    case Tagged(_, inner) => Leaves(inner)
    case _ => 1
  }

  function EntryLeaves(node: Value, n: nat): nat
    requires node.Mapping? && n <= |node.entries|
    decreases node, 0, n
  {
    if n == 0 then 0 else EntryLeaves(node, n - 1) + Leaves(node.entries[n - 1].value)
  }

  function ItemLeaves(node: Value, n: nat): nat
    requires node.Sequence? && n <= |node.items|
    decreases node, 0, n
  {
    if n == 0 then 0 else ItemLeaves(node, n - 1) + Leaves(node.items[n - 1])
  }

  function EntryPath(prefix: string, e: Entry, render: Value -> string): string
  {
    ChildPath(prefix, KeyText(e.key, render))
  }

  /** The entries `v` writes on its own, starting from an empty map. */
  function Flat(prefix: string, v: Value, render: Value -> string): map<string, string>
  {
    Flatten(prefix, v, map[], render)
  }

  /** `k` is `prefix` itself or lies below it, past a `.`. */
  predicate Under(prefix: string, k: string)
  {
    k == prefix || prefix + "." <= k
  }

  // ---------------------------------------------------------------------------
  // The in-place walk
  // ---------------------------------------------------------------------------

  /** The `HashMap<String, String>` the walk fills in place. */
  class StringMap {
    var entries: map<string, string>

    constructor ()
      ensures entries == map[]
    {
      entries := map[];
    }

    /** Inserts or overwrites one entry. */
    method Insert(key: string, value: string)
      modifies this
      ensures entries == old(entries)[key := value]
    {
      entries := entries[key := value];
    }
  }

  /** Walks `value` depth first, inserting each leaf into `result` at its path. */
  method FlattenValue(prefix: string, value: Value, render: Value -> string, result: StringMap)
    modifies result
    ensures result.entries == Flatten(prefix, value, old(result.entries), render)
    decreases value
  {
    match value {
      case Str(s) => result.Insert(prefix, s);
      case Int(n) => result.Insert(prefix, IntToDecimal(n));
      case Float(display) => result.Insert(prefix, display);
      case Bool(b) => result.Insert(prefix, if b then "true" else "false");
      case Null => result.Insert(prefix, "");
      case Datetime(display) => result.Insert(prefix, display);
      case Mapping(entries) =>
        var i := 0;
        while i < |entries|
          invariant i <= |entries|
          invariant result.entries == FoldEntries(prefix, value, i, old(result.entries), render)
        {
          var keyText := KeyText(entries[i].key, render);
          var newPrefix := ChildPath(prefix, keyText);
          FlattenValue(newPrefix, entries[i].value, render, result);
          i := i + 1;
        }
      case Sequence(items) =>
        var i := 0;
        while i < |items|
          invariant i <= |items|
          invariant result.entries == FoldItems(prefix, value, i, old(result.entries), render)
        {
          var newPrefix := IndexPath(prefix, i);
          FlattenValue(newPrefix, items[i], render, result);
          i := i + 1;
        }
      case Tagged(_, inner) => FlattenValue(prefix, inner, render, result);
    }
  }

  // ---------------------------------------------------------------------------
  // What the walk does to the map it is given
  // ---------------------------------------------------------------------------

  /** Flattening never removes an entry, and what it writes overrides what was
      there: the result is the old map overlaid with the entries of `v` alone. */
  lemma {:induction false} FlattenOverlays(prefix: string, v: Value, acc: map<string, string>, render: Value -> string)
    ensures Flatten(prefix, v, acc, render) == acc + Flat(prefix, v, render)
    decreases v, 1
  {
    match v
    case Mapping(entries) => FoldEntriesOverlays(prefix, v, |entries|, acc, render);
    case Sequence(items) => FoldItemsOverlays(prefix, v, |items|, acc, render);
    case Tagged(_, inner) => FlattenOverlays(prefix, inner, acc, render);
    case _ =>
  }

  lemma {:induction false} FoldEntriesOverlays(prefix: string, node: Value, n: nat, acc: map<string, string>, render: Value -> string)
    requires node.Mapping? && n <= |node.entries|
    ensures FoldEntries(prefix, node, n, acc, render) == acc + FoldEntries(prefix, node, n, map[], render)
    decreases node, 0, n
  {
    if n > 0 {
      var e := node.entries[n - 1];
      var path := EntryPath(prefix, e, render);
      var before := FoldEntries(prefix, node, n - 1, acc, render);
      var before0 := FoldEntries(prefix, node, n - 1, map[], render);
      FoldEntriesOverlays(prefix, node, n - 1, acc, render);
      FlattenOverlays(path, e.value, before, render);
      FlattenOverlays(path, e.value, before0, render);
      OverlayAssociative(acc, before0, Flat(path, e.value, render));
    }
  }

  lemma {:induction false} FoldItemsOverlays(prefix: string, node: Value, n: nat, acc: map<string, string>, render: Value -> string)
    requires node.Sequence? && n <= |node.items|
    ensures FoldItems(prefix, node, n, acc, render) == acc + FoldItems(prefix, node, n, map[], render)
    decreases node, 0, n
  {
    if n > 0 {
      var path := IndexPath(prefix, n - 1);
      var before := FoldItems(prefix, node, n - 1, acc, render);
      var before0 := FoldItems(prefix, node, n - 1, map[], render);
      FoldItemsOverlays(prefix, node, n - 1, acc, render);
      FlattenOverlays(path, node.items[n - 1], before, render);
      FlattenOverlays(path, node.items[n - 1], before0, render);
      OverlayAssociative(acc, before0, Flat(path, node.items[n - 1], render));
    }
  }

  lemma OverlayAssociative(a: map<string, string>, b: map<string, string>, c: map<string, string>)
    ensures (a + b) + c == a + (b + c)
  {
  }

  /** Consequences of the overlay for a caller's map: no key is lost, keys
      the walk does not write keep their values, and keys it writes hold the
      values `v` gives them whatever was there before (the later insert wins). */
  lemma FlattenKeepsAndOverwrites(prefix: string, v: Value, acc: map<string, string>, render: Value -> string)
    ensures acc.Keys <= Flatten(prefix, v, acc, render).Keys
    ensures forall k :: k in acc && k !in Flat(prefix, v, render) ==> Flatten(prefix, v, acc, render)[k] == acc[k]
    ensures forall k :: k in Flat(prefix, v, render) ==>
      k in Flatten(prefix, v, acc, render) && Flatten(prefix, v, acc, render)[k] == Flat(prefix, v, render)[k]
  {
    FlattenOverlays(prefix, v, acc, render);
  }

  // ---------------------------------------------------------------------------
  // Leaves, tags, and where keys land
  // ---------------------------------------------------------------------------

  /** A leaf writes exactly one entry, at the current path. */
  lemma FlattenLeaf(prefix: string, v: Value, acc: map<string, string>, render: Value -> string)
    requires v.IsLeaf()
    ensures Flatten(prefix, v, acc, render) == acc[prefix := LeafText(v)]
    ensures Flat(prefix, v, render).Keys == {prefix}
  {
  }

  /** A scalar document flattens to one entry keyed by the empty string. */
  lemma ScalarDocument(v: Value, render: Value -> string)
    requires v.IsLeaf()
    ensures Flat("", v, render) == map["" := LeafText(v)]
  {
  }

  /** A tagged value flattens exactly like the value inside it, at the same path. */
  lemma TaggedFlattensInner(prefix: string, tag: string, inner: Value, acc: map<string, string>, render: Value -> string)
    ensures Flatten(prefix, Tagged(tag, inner), acc, render) == Flatten(prefix, inner, acc, render)
  {
  }

  /** Below a non-empty prefix every key written is the prefix itself or
      starts with the prefix followed by a `.`. */
  lemma {:induction false} FlatKeysUnder(prefix: string, v: Value, render: Value -> string)
    requires prefix != ""
    ensures forall k :: k in Flat(prefix, v, render) ==> Under(prefix, k)
    decreases v, 1
  {
    match v
    case Mapping(entries) =>
      FoldEntriesKeysUnder(prefix, v, |entries|, render);
      assert Flat(prefix, v, render) == FoldEntries(prefix, v, |entries|, map[], render);
    case Sequence(items) =>
      FoldItemsKeysUnder(prefix, v, |items|, render);
      assert Flat(prefix, v, render) == FoldItems(prefix, v, |items|, map[], render);
    case Tagged(_, inner) => FlatKeysUnder(prefix, inner, render);
    case _ =>
  }

  lemma {:induction false} FoldEntriesKeysUnder(prefix: string, node: Value, n: nat, render: Value -> string)
    requires prefix != ""
    requires node.Mapping? && n <= |node.entries|
    ensures forall k :: k in FoldEntries(prefix, node, n, map[], render) ==> prefix + "." <= k
    decreases node, 0, n
  {
    if n > 0 {
      var e := node.entries[n - 1];
      var path := EntryPath(prefix, e, render);
      var before := FoldEntries(prefix, node, n - 1, map[], render);
      FoldEntriesKeysUnder(prefix, node, n - 1, render);
      FlattenOverlays(path, e.value, before, render);
      FlatKeysUnder(path, e.value, render);
      assert path == prefix + "." + KeyText(e.key, render);
      var written := Flat(path, e.value, render);
      forall k | k in written ensures prefix + "." <= k {
        StepUnder(prefix + ".", path, k);
      }
    }
  }

  /** Array element keys start with `prefix.`, even for an empty prefix (so a
      top-level array gives `.0`, `.1`, ...). */
  lemma {:induction false} FoldItemsKeysUnder(prefix: string, node: Value, n: nat, render: Value -> string)
    requires node.Sequence? && n <= |node.items|
    ensures forall k :: k in FoldItems(prefix, node, n, map[], render) ==> prefix + "." <= k
    decreases node, 0, n
  {
    if n > 0 {
      var path := IndexPath(prefix, n - 1);
      var before := FoldItems(prefix, node, n - 1, map[], render);
      FoldItemsKeysUnder(prefix, node, n - 1, render);
      FlattenOverlays(path, node.items[n - 1], before, render);
      FlatKeysUnder(path, node.items[n - 1], render);
      var written := Flat(path, node.items[n - 1], render);
      forall k | k in written ensures prefix + "." <= k {
        StepUnder(prefix + ".", path, k);
      }
    }
  }

  lemma StepUnder(p: string, path: string, k: string)
    requires p <= path && Under(path, k)
    ensures p <= k
  {
    if k != path {
      assert path <= k by { assert path <= path + "."; }
    }
  }

  // ---------------------------------------------------------------------------
  // Siblings: array elements never collide, mapping entries may, and then the
  // later one wins
  // ---------------------------------------------------------------------------

  /** No key lies below two different element paths of one array. */
  lemma IndexPathsSeparate(prefix: string, i: nat, j: nat, k: string)
    requires Under(IndexPath(prefix, i), k) && Under(IndexPath(prefix, j), k)
    ensures i == j
  {
    var di, dj := NatToDecimal(i), NatToDecimal(j);
    if |di| <= |dj| {
      SameDigitsAt(prefix + ".", di, dj, k);
    } else {
      SameDigitsAt(prefix + ".", dj, di, k);
    }
    DecimalInjective(i, j);
  }

  lemma SameDigitsAt(p: string, d1: string, d2: string, k: string)
    requires |d1| <= |d2|
    requires forall m :: 0 <= m < |d2| ==> IsDigit(d2[m])
    requires Under(p + d1, k) && Under(p + d2, k)
    ensures d1 == d2
  {
    assert p + d1 <= k by { if k != p + d1 { assert p + d1 <= p + d1 + "."; } }
    assert p + d2 <= k by { if k != p + d2 { assert p + d2 <= p + d2 + "."; } }
    assert d1 == k[|p|..|p| + |d1|] by { assert (p + d1)[|p|..] == d1; }
    assert d2[..|d1|] == k[|p|..|p| + |d1|] by { assert (p + d2)[|p|..|p| + |d1|] == d2[..|d1|]; }
    var m := |p| + |d1|;
    CharAfter(p, d1, d2, k);
    assert m < |k| ==> k[m] == '.' by {
      if m < |k| { assert k != p + d1 && (p + d1 + ".")[m] == '.'; }
    }
  }

  lemma CharAfter(p: string, d1: string, d2: string, k: string)
    requires p + d2 <= k
    ensures |d1| < |d2| ==> |p| + |d1| < |k| && k[|p| + |d1|] == d2[|d1|]
  {
    if |d1| < |d2| {
      assert k[|p| + |d1|] == (p + d2)[|p| + |d1|];
    }
  }

  /** Each element of an array keeps, in the flattened array, every entry it
      writes at its `prefix.index` path. */
  lemma {:induction false} FoldItemsKeepsElement(prefix: string, node: Value, n: nat, i: nat, k: string, render: Value -> string)
    requires node.Sequence? && i < n <= |node.items|
    requires k in Flat(IndexPath(prefix, i), node.items[i], render)
    ensures k in FoldItems(prefix, node, n, map[], render)
    ensures FoldItems(prefix, node, n, map[], render)[k] == Flat(IndexPath(prefix, i), node.items[i], render)[k]
  {
    var last := Flat(IndexPath(prefix, n - 1), node.items[n - 1], render);
    FlattenOverlays(IndexPath(prefix, n - 1), node.items[n - 1], FoldItems(prefix, node, n - 1, map[], render), render);
    if i < n - 1 {
      if k in last {
        FlatKeysUnder(IndexPath(prefix, n - 1), node.items[n - 1], render);
        FlatKeysUnder(IndexPath(prefix, i), node.items[i], render);
        IndexPathsSeparate(prefix, i, n - 1, k);
      }
      FoldItemsKeepsElement(prefix, node, n - 1, i, k, render);
    }
  }

  /** Every key of a prefix of an array's walk comes from one of its elements. */
  lemma {:induction false} FoldItemsKeysFromElements(prefix: string, node: Value, n: nat, k: string, render: Value -> string)
    requires node.Sequence? && n <= |node.items|
    requires k in FoldItems(prefix, node, n, map[], render)
    ensures exists i :: 0 <= i < n && k in Flat(IndexPath(prefix, i), node.items[i], render)
  {
    var last := Flat(IndexPath(prefix, n - 1), node.items[n - 1], render);
    FlattenOverlays(IndexPath(prefix, n - 1), node.items[n - 1], FoldItems(prefix, node, n - 1, map[], render), render);
    if k !in last {
      FoldItemsKeysFromElements(prefix, node, n - 1, k, render);
    }
  }

  /** Two elements of one array never write the same key. */
  lemma ElementsDisjoint(prefix: string, items: seq<Value>, i: nat, j: nat, k: string, render: Value -> string)
    requires i < |items| && j < |items| && i != j
    requires k in Flat(IndexPath(prefix, i), items[i], render)
    ensures k !in Flat(IndexPath(prefix, j), items[j], render)
  {
    if k in Flat(IndexPath(prefix, j), items[j], render) {
      FlatKeysUnder(IndexPath(prefix, i), items[i], render);
      FlatKeysUnder(IndexPath(prefix, j), items[j], render);
      IndexPathsSeparate(prefix, i, j, k);
    }
  }

  /** An array flattens to the disjoint union of its elements, each flattened
      at `prefix.index`. */
  lemma ArrayElements(prefix: string, items: seq<Value>, render: Value -> string)
    ensures forall i, k :: 0 <= i < |items| && k in Flat(IndexPath(prefix, i), items[i], render) ==>
      k in Flat(prefix, Sequence(items), render) &&
      Flat(prefix, Sequence(items), render)[k] == Flat(IndexPath(prefix, i), items[i], render)[k]
    ensures forall k :: k in Flat(prefix, Sequence(items), render) ==>
      exists i :: 0 <= i < |items| && k in Flat(IndexPath(prefix, i), items[i], render)
    ensures forall i, j, k :: 0 <= i < |items| && 0 <= j < |items| && i != j && k in Flat(IndexPath(prefix, i), items[i], render) ==>
      k !in Flat(IndexPath(prefix, j), items[j], render)
  {
    var node := Sequence(items);
    forall i, k | 0 <= i < |items| && k in Flat(IndexPath(prefix, i), items[i], render)
      ensures k in Flat(prefix, node, render) &&
        Flat(prefix, node, render)[k] == Flat(IndexPath(prefix, i), items[i], render)[k]
    {
      FoldItemsKeepsElement(prefix, node, |items|, i, k, render);
    }
    forall k | k in Flat(prefix, node, render)
      ensures exists i :: 0 <= i < |items| && k in Flat(IndexPath(prefix, i), items[i], render)
    {
      FoldItemsKeysFromElements(prefix, node, |items|, k, render);
    }
    forall i, j, k | 0 <= i < |items| && 0 <= j < |items| && i != j && k in Flat(IndexPath(prefix, i), items[i], render)
      ensures k !in Flat(IndexPath(prefix, j), items[j], render)
    {
      ElementsDisjoint(prefix, items, i, j, k, render);
    }
  }

  /** In a mapping, a key written by entry `i` and by no later entry holds
      entry `i`'s value: on a collision the later entry wins. */
  lemma {:induction false} FoldEntriesLaterWins(prefix: string, node: Value, n: nat, i: nat, k: string, render: Value -> string)
    requires node.Mapping? && i < n <= |node.entries|
    requires k in Flat(EntryPath(prefix, node.entries[i], render), node.entries[i].value, render)
    requires forall j :: i < j < n ==> k !in Flat(EntryPath(prefix, node.entries[j], render), node.entries[j].value, render)
    ensures k in FoldEntries(prefix, node, n, map[], render)
    ensures FoldEntries(prefix, node, n, map[], render)[k] ==
      Flat(EntryPath(prefix, node.entries[i], render), node.entries[i].value, render)[k]
  {
    var e := node.entries[n - 1];
    FlattenOverlays(EntryPath(prefix, e, render), e.value, FoldEntries(prefix, node, n - 1, map[], render), render);
    if i < n - 1 {
      FoldEntriesLaterWins(prefix, node, n - 1, i, k, render);
    }
  }

  /** A mapping flattens to its entries, each at its child path, with a later
      entry overriding an earlier one where their keys collide. */
  lemma MappingEntries(prefix: string, entries: seq<Entry>, i: nat, k: string, render: Value -> string)
    requires i < |entries|
    requires k in Flat(EntryPath(prefix, entries[i], render), entries[i].value, render)
    requires forall j :: i < j < |entries| ==> k !in Flat(EntryPath(prefix, entries[j], render), entries[j].value, render)
    ensures k in Flat(prefix, Mapping(entries), render)
    ensures Flat(prefix, Mapping(entries), render)[k] == Flat(EntryPath(prefix, entries[i], render), entries[i].value, render)[k]
  {
    FoldEntriesLaterWins(prefix, Mapping(entries), |entries|, i, k, render);
  }

  /** Every key of a prefix of a mapping's walk comes from one of its entries. */
  lemma {:induction false} FoldEntriesKeysFromEntries(prefix: string, node: Value, n: nat, k: string, render: Value -> string)
    requires node.Mapping? && n <= |node.entries|
    requires k in FoldEntries(prefix, node, n, map[], render)
    ensures exists i :: 0 <= i < n && k in Flat(EntryPath(prefix, node.entries[i], render), node.entries[i].value, render)
  {
    var e := node.entries[n - 1];
    FlattenOverlays(EntryPath(prefix, e, render), e.value, FoldEntries(prefix, node, n - 1, map[], render), render);
    if k !in Flat(EntryPath(prefix, e, render), e.value, render) {
      FoldEntriesKeysFromEntries(prefix, node, n - 1, k, render);
    }
  }

  /** A mapping writes no key of its own: each of its keys is written by one
      of its entries at that entry's child path. */
  lemma MappingKeysFromEntries(prefix: string, entries: seq<Entry>, render: Value -> string)
    ensures forall k :: k in Flat(prefix, Mapping(entries), render) ==>
      exists i :: 0 <= i < |entries| && k in Flat(EntryPath(prefix, entries[i], render), entries[i].value, render)
  {
    forall k | k in Flat(prefix, Mapping(entries), render)
      ensures exists i :: 0 <= i < |entries| && k in Flat(EntryPath(prefix, entries[i], render), entries[i].value, render)
    {
      FoldEntriesKeysFromEntries(prefix, Mapping(entries), |entries|, k, render);
    }
  }

  // ---------------------------------------------------------------------------
  // One entry per leaf
  // ---------------------------------------------------------------------------

  /** The paths the walk inserts at, one per leaf, in walk order. */
  function LeafPaths(prefix: string, v: Value, render: Value -> string): (paths: seq<string>)
    ensures |paths| == Leaves(v)
    decreases v, 1
  {
    match v
    case Mapping(entries) => EntryLeafPaths(prefix, v, |entries|, render)
    case Sequence(items) => ItemLeafPaths(prefix, v, |items|, render)
    case Tagged(_, inner) => LeafPaths(prefix, inner, render)
    case _ => [prefix]
  }

  function EntryLeafPaths(prefix: string, node: Value, n: nat, render: Value -> string): (paths: seq<string>)
    requires node.Mapping? && n <= |node.entries|
    ensures |paths| == EntryLeaves(node, n)
    decreases node, 0, n
  {
    if n == 0 then []
    else
      var e := node.entries[n - 1];
      EntryLeafPaths(prefix, node, n - 1, render) + LeafPaths(EntryPath(prefix, e, render), e.value, render)
  }

  function ItemLeafPaths(prefix: string, node: Value, n: nat, render: Value -> string): (paths: seq<string>)
    requires node.Sequence? && n <= |node.items|
    ensures |paths| == ItemLeaves(node, n)
    decreases node, 0, n
  {
    if n == 0 then []
    else ItemLeafPaths(prefix, node, n - 1, render) + LeafPaths(IndexPath(prefix, n - 1), node.items[n - 1], render)
  }

  function Elems(s: seq<string>): set<string>
  {
    set x | x in s
  }

  predicate Distinct(s: seq<string>)
  {
    forall i, j :: 0 <= i < j < |s| ==> s[i] != s[j]
  }

  /** The keys of a walk are exactly the paths of its leaves. */
  lemma {:induction false} FlatKeysAreLeafPaths(prefix: string, v: Value, render: Value -> string)
    ensures Flat(prefix, v, render).Keys == Elems(LeafPaths(prefix, v, render))
    decreases v, 1
  {
    match v
    case Mapping(entries) =>
      FoldEntriesKeysAreLeafPaths(prefix, v, |entries|, render);
      assert Flat(prefix, v, render) == FoldEntries(prefix, v, |entries|, map[], render);
    case Sequence(items) =>
      FoldItemsKeysAreLeafPaths(prefix, v, |items|, render);
      assert Flat(prefix, v, render) == FoldItems(prefix, v, |items|, map[], render);
    case Tagged(_, inner) => FlatKeysAreLeafPaths(prefix, inner, render);
    case _ =>
  }

  lemma {:induction false} FoldEntriesKeysAreLeafPaths(prefix: string, node: Value, n: nat, render: Value -> string)
    requires node.Mapping? && n <= |node.entries|
    ensures FoldEntries(prefix, node, n, map[], render).Keys == Elems(EntryLeafPaths(prefix, node, n, render))
    decreases node, 0, n
  {
    if n > 0 {
      var e := node.entries[n - 1];
      var path := EntryPath(prefix, e, render);
      FoldEntriesKeysAreLeafPaths(prefix, node, n - 1, render);
      FlattenOverlays(path, e.value, FoldEntries(prefix, node, n - 1, map[], render), render);
      FlatKeysAreLeafPaths(path, e.value, render);
      ElemsAppend(EntryLeafPaths(prefix, node, n - 1, render), LeafPaths(path, e.value, render));
    }
  }

  lemma {:induction false} FoldItemsKeysAreLeafPaths(prefix: string, node: Value, n: nat, render: Value -> string)
    requires node.Sequence? && n <= |node.items|
    ensures FoldItems(prefix, node, n, map[], render).Keys == Elems(ItemLeafPaths(prefix, node, n, render))
    decreases node, 0, n
  {
    if n > 0 {
      var path := IndexPath(prefix, n - 1);
      FoldItemsKeysAreLeafPaths(prefix, node, n - 1, render);
      FlattenOverlays(path, node.items[n - 1], FoldItems(prefix, node, n - 1, map[], render), render);
      FlatKeysAreLeafPaths(path, node.items[n - 1], render);
      ElemsAppend(ItemLeafPaths(prefix, node, n - 1, render), LeafPaths(path, node.items[n - 1], render));
    }
  }

  lemma ElemsAppend(a: seq<string>, b: seq<string>)
    ensures Elems(a + b) == Elems(a) + Elems(b)
  {
  }

  /** Distinct paths make distinct keys: a sequence without repeats has as
      many elements as it has entries. */
  lemma {:induction false} DistinctElems(s: seq<string>)
    requires Distinct(s)
    ensures |Elems(s)| == |s|
  {
    if s != [] {
      var init, last := s[..|s| - 1], s[|s| - 1];
      assert s == init + [last];
      assert Distinct(init);
      DistinctElems(init);
      ElemsAppend(init, [last]);
      assert Elems([last]) == {last};
      assert last !in Elems(init);
    }
  }

  lemma {:induction false} ElemsBound(s: seq<string>)
    ensures |Elems(s)| <= |s|
  {
    if s != [] {
      var init, last := s[..|s| - 1], s[|s| - 1];
      assert s == init + [last];
      ElemsBound(init);
      ElemsAppend(init, [last]);
      assert Elems([last]) == {last};
    }
  }

  /** Whatever the paths, the walk writes at most one entry per leaf: leaves
      whose paths coincide share one entry. */
  lemma AtMostOneEntryPerLeaf(prefix: string, v: Value, render: Value -> string)
    ensures |Flat(prefix, v, render)| <= Leaves(v)
  {
    FlatKeysAreLeafPaths(prefix, v, render);
    ElemsBound(LeafPaths(prefix, v, render));
  }

  /** When no two leaves share a path, the walk writes one entry per leaf. */
  lemma LeafCount(prefix: string, v: Value, render: Value -> string)
    requires Distinct(LeafPaths(prefix, v, render))
    ensures |Flat(prefix, v, render)| == Leaves(v)
  {
    FlatKeysAreLeafPaths(prefix, v, render);
    DistinctElems(LeafPaths(prefix, v, render));
  }

  // ---------------------------------------------------------------------------
  // The key renderer only matters for non-string keys
  // ---------------------------------------------------------------------------

  lemma {:induction false} RenderIrrelevant(prefix: string, v: Value, acc: map<string, string>, r1: Value -> string, r2: Value -> string)
    requires StringKeys(v)
    ensures Flatten(prefix, v, acc, r1) == Flatten(prefix, v, acc, r2)
    decreases v, 1
  {
    match v
    case Mapping(entries) => FoldEntriesRenderIrrelevant(prefix, v, |entries|, acc, r1, r2);
    case Sequence(items) => FoldItemsRenderIrrelevant(prefix, v, |items|, acc, r1, r2);
    case Tagged(_, inner) => RenderIrrelevant(prefix, inner, acc, r1, r2);
    case _ =>
  }

  lemma {:induction false} FoldEntriesRenderIrrelevant(prefix: string, node: Value, n: nat, acc: map<string, string>, r1: Value -> string, r2: Value -> string)
    requires node.Mapping? && n <= |node.entries| && StringKeys(node)
    ensures FoldEntries(prefix, node, n, acc, r1) == FoldEntries(prefix, node, n, acc, r2)
    decreases node, 0, n
  {
    if n > 0 {
      var e := node.entries[n - 1];
      assert e in node.entries;
      FoldEntriesRenderIrrelevant(prefix, node, n - 1, acc, r1, r2);
      RenderIrrelevant(EntryPath(prefix, e, r1), e.value, FoldEntries(prefix, node, n - 1, acc, r1), r1, r2);
    }
  }

  lemma {:induction false} FoldItemsRenderIrrelevant(prefix: string, node: Value, n: nat, acc: map<string, string>, r1: Value -> string, r2: Value -> string)
    requires node.Sequence? && n <= |node.items| && StringKeys(node)
    ensures FoldItems(prefix, node, n, acc, r1) == FoldItems(prefix, node, n, acc, r2)
    decreases node, 0, n
  {
    if n > 0 {
      assert node.items[n - 1] in node.items;
      FoldItemsRenderIrrelevant(prefix, node, n - 1, acc, r1, r2);
      RenderIrrelevant(IndexPath(prefix, n - 1), node.items[n - 1], FoldItems(prefix, node, n - 1, acc, r1), r1, r2);
    }
  }
}
