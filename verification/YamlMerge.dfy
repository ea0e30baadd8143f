/** The deep merge of a YAML value onto a configuration tree, with a mark on everything it writes. */
module YamlMerge {
  import opened Options
  import opened ConfigTree
  import opened Decimals

  // ----- YAML -----

  datatype Scalar = Bool(b: bool) | Int(n: int) | Str(s: string)

  /** A parsed YAML value. A list is either one of mappings or one of scalars; the empty list is the empty
      list of scalars. */
  datatype Yaml =
    | Plain(scalar: Scalar)
    | Mapping(fields: seq<Field>)
    | Records(records: seq<Record>)
    | Listing(scalars: seq<Scalar>)

  datatype Field = Field(key: string, value: Yaml)
  datatype Record = Record(fields: seq<Field>)

  function Lookup(fields: seq<Field>, key: string): Option<Yaml> {
    if fields == [] then None else if fields[0].key == key then Some(fields[0].value) else Lookup(fields[1..], key)
  }

  /** Keys are distinct at every level, as in any dictionary, and a list of mappings has an element. */
  predicate Keyed(fields: seq<Field>)
    decreases fields, 0
  {
    fields != [] ==> Lookup(fields[1..], fields[0].key).None? && KeyedValue(fields[0].value) && Keyed(fields[1..])
  }

  predicate KeyedValue(value: Yaml)
    decreases value, 1
  {
    match value
    case Mapping(fields) => Keyed(fields)
    case Records(records) => records != [] && KeyedRecords(records)
    case _ => true
  }

  predicate KeyedRecords(records: seq<Record>)
    decreases records, 0
  {
    records != [] ==> Keyed(records[0].fields) && KeyedRecords(records[1..])
  }

  // ----- Text -----

  function ScalarText(scalar: Scalar): string {
    match scalar
    case Bool(b) => if b then "true" else "false"
    case Int(n) => IntText(n)
    case Str(s) => s
  }

  function Joined(scalars: seq<Scalar>): string {
    if scalars == [] then ""
    else if |scalars| == 1 then ScalarText(scalars[0])
    else ScalarText(scalars[0]) + ", " + Joined(scalars[1..])
  }

  function Texts(scalars: seq<Scalar>): seq<Node> {
    if scalars == [] then [] else [Text(ScalarText(scalars[0]))] + Texts(scalars[1..])
  }

  // ----- Merging -----

  /** Assigns a child: in the place of the one with the same name, or last. */
  function Put(entries: Entries, child: Child): Entries {
    if entries == [] then [child]
    else if entries[0].key == child.key then [child] + entries[1..]
    else [entries[0]] + Put(entries[1..], child)
  }

  /** The children a value is merged onto; anything but an element with children is replaced. */
  function Under(existing: Option<Child>): Entries {
    if existing.Some? && existing.value.node.Object? then existing.value.node.entries else []
  }

  function Merged(key: string, existing: Option<Child>, value: Yaml): Child
    decreases value, 1
  {
    match value
    case Plain(scalar) => Child(key, true, Text(ScalarText(scalar)))
    case Mapping(fields) =>
      Child(key, existing.Some? && existing.value.written, Object(MergeFields(Under(existing), fields)))
    case Records(records) => Child(key, true, Items(Rebuilt(records)))
    case Listing(scalars) =>
      Child(key, true,
            if existing.Some? && existing.value.node.Items? then Items(Texts(scalars))
            else Text("[" + Joined(scalars) + "]"))
  }

  function MergeFields(entries: Entries, fields: seq<Field>): Entries
    decreases fields, 0
  {
    if fields == [] then entries
    else
      var child := Merged(fields[0].key, Get(entries, fields[0].key), fields[0].value);
      MergeFields(Put(entries, child), fields[1..])
  }

  function Rebuilt(records: seq<Record>): seq<Node>
    decreases records, 0
  {
    if records == [] then [] else [Object(MergeFields([], records[0].fields))] + Rebuilt(records[1..])
  }

  // ----- The merge as the source runs it -----

  method Merge(parent: Entries, key: string, value: Yaml) returns (r: Entries)
    ensures r == Put(parent, Merged(key, Get(parent, key), value))
    decreases value, 1
  {
    var existing := Get(parent, key);
    match value {
      case Mapping(fields) =>
        var children := MergeEach(Under(existing), fields);
        var written := existing.Some? && existing.value.written;
        r := Put(parent, Child(key, written, Object(children)));
      case Records(records) =>
        var rebuilt: seq<Node> := [];
        for i := 0 to |records|
          invariant rebuilt + Rebuilt(records[i..]) == Rebuilt(records)
        {
          var node := MergeEach([], records[i].fields);
          assert records[i..][1..] == records[i + 1..];
          rebuilt := rebuilt + [Object(node)];
        }
        assert rebuilt + Rebuilt([]) == rebuilt;
        r := Put(parent, Child(key, true, Items(rebuilt)));
      case Listing(scalars) =>
        if existing.Some? && existing.value.node.Items? {
          r := Put(parent, Child(key, true, Items(Texts(scalars))));
        } else {
          r := Put(parent, Child(key, true, Text("[" + Joined(scalars) + "]")));
        }
      case Plain(scalar) =>
        r := Put(parent, Child(key, true, Text(ScalarText(scalar))));
    }
  }

  method MergeEach(parent: Entries, fields: seq<Field>) returns (r: Entries)
    ensures r == MergeFields(parent, fields)
    decreases fields, 0
  {
    r := parent;
    for i := 0 to |fields|
      invariant MergeFields(r, fields[i..]) == MergeFields(parent, fields)
    {
      assert fields[i..][1..] == fields[i + 1..];
      r := Merge(r, fields[i].key, fields[i].value);
    }
  }

  // ----- One level -----

  lemma {:induction false} GetPut(entries: Entries, child: Child, key: string)
    ensures Get(Put(entries, child), key) == if key == child.key then Some(child) else Get(entries, key)
  {
    if entries == [] {
    } else if entries[0].key == child.key {
      assert Put(entries, child)[1..] == entries[1..];
    } else {
      GetPut(entries[1..], child, key);
      assert Put(entries, child)[1..] == Put(entries[1..], child);
    }
  }

  lemma {:induction false} PutSame(entries: Entries, child: Child)
    requires Get(entries, child.key) == Some(child)
    ensures Put(entries, child) == entries
  {
    if entries[0].key == child.key {
      assert entries == [child] + entries[1..];
    } else {
      PutSame(entries[1..], child);
    }
  }

  /** Each field is merged onto the child of its name; other children stay. */
  lemma {:induction false} GetMerged(entries: Entries, fields: seq<Field>, key: string)
    requires Keyed(fields)
    ensures Get(MergeFields(entries, fields), key) ==
            var value := Lookup(fields, key);
            if value.Some? then Some(Merged(key, Get(entries, key), value.value)) else Get(entries, key)
    decreases fields
  {
    if fields == [] {
    } else {
      var child := Merged(fields[0].key, Get(entries, fields[0].key), fields[0].value);
      GetPut(entries, child, key);
      GetMerged(Put(entries, child), fields[1..], key);
    }
  }

  // ----- Paths -----

  /** The child at the end of a path of element names. */
  function At(entries: Entries, path: seq<string>): Option<Child>
    requires path != []
    decreases path
  {
    var child := Get(entries, path[0]);
    if |path| == 1 || child.None? then child
    else if child.value.node.Object? then At(child.value.node.entries, path[1..])
    else None
  }

  predicate Marked(entries: Entries, path: seq<string>)
    requires path != []
  {
    var child := At(entries, path);
    child.Some? && child.value.written
  }

  /** How a path lies to a YAML mapping: off it, at an inner mapping, at a leaf or list, or past one. */
  datatype Reach = Outside | Inner(fields: seq<Field>) | Leaf(value: Yaml) | Beneath

  function ReachOf(fields: seq<Field>, path: seq<string>): Reach
    requires path != []
    decreases path
  {
    var value := Lookup(fields, path[0]);
    if value.None? then Outside
    else if value.value.Mapping? then if |path| == 1 then Inner(value.value.fields) else ReachOf(value.value.fields, path[1..])
    else if |path| == 1 then Leaf(value.value)
    else Beneath
  }

  lemma {:induction false} LookupIsKeyed(fields: seq<Field>, key: string)
    requires Keyed(fields) && Lookup(fields, key).Some?
    ensures KeyedValue(Lookup(fields, key).value)
  {
    if fields[0].key != key {
      LookupIsKeyed(fields[1..], key);
    }
  }

  /** What a merge leaves at any path. Off the YAML, what was there; along it, an element with its old mark,
      onto whose children the mapping there is merged; at a leaf or list, that value, marked; past one,
      nothing. */
  lemma {:induction false} MergeIsLawful(entries: Entries, fields: seq<Field>, path: seq<string>)
    requires path != [] && Keyed(fields)
    ensures var before, after := At(entries, path), At(MergeFields(entries, fields), path);
            match ReachOf(fields, path)
            case Outside => after == before
            case Inner(inner) => after == Some(Merged(path[|path| - 1], before, Mapping(inner)))
            case Leaf(value) => !value.Mapping? && after == Some(Merged(path[|path| - 1], before, value))
            case Beneath => after == None
    decreases path
  {
    GetMerged(entries, fields, path[0]);
    var value, existing := Lookup(fields, path[0]), Get(entries, path[0]);
    if value.Some? && value.value.Mapping? && |path| > 1 {
      LookupIsKeyed(fields, path[0]);
      MergeIsLawful(Under(existing), value.value.fields, path[1..]);
      assert path[1..][|path| - 2] == path[|path| - 1];
    }
  }

  /** Reading a scalar's path after the merge gives its text. */
  lemma ScalarsReadBack(entries: Entries, fields: seq<Field>, path: seq<string>, scalar: Scalar)
    requires path != [] && Keyed(fields) && ReachOf(fields, path) == Leaf(Plain(scalar))
    ensures At(MergeFields(entries, fields), path) == Some(Child(path[|path| - 1], true, Text(ScalarText(scalar))))
  {
    MergeIsLawful(entries, fields, path);
  }

  /** The merge records a write at the YAML's leaves and lists, and nowhere else that survives it. */
  lemma RecordedWrites(entries: Entries, fields: seq<Field>, path: seq<string>)
    requires path != [] && Keyed(fields)
    ensures Marked(MergeFields(entries, fields), path) <==>
            match ReachOf(fields, path)
            case Leaf(_) => true
            case Beneath => false
            case _ => Marked(entries, path)
  {
    MergeIsLawful(entries, fields, path);
  }

  // ----- Whether a merge writes anything -----

  /** A leaf or list is somewhere in a YAML mapping. */
  predicate HasLeaf(fields: seq<Field>)
    decreases fields, 0
  {
    fields != [] && (ValueHasLeaf(fields[0].value) || HasLeaf(fields[1..]))
  }

  predicate ValueHasLeaf(value: Yaml)
    decreases value, 1
  {
    value.Mapping? ==> HasLeaf(value.fields)
  }

  lemma {:induction false} LeafAmong(fields: seq<Field>, key: string)
    requires Lookup(fields, key).Some? && ValueHasLeaf(Lookup(fields, key).value)
    ensures HasLeaf(fields)
  {
    if fields[0].key != key {
      LeafAmong(fields[1..], key);
    }
  }

  /** The path to one of them. */
  lemma {:induction false} LeafPath(fields: seq<Field>) returns (path: seq<string>)
    requires Keyed(fields) && HasLeaf(fields)
    ensures path != [] && ReachOf(fields, path).Leaf? && Lookup(fields, path[0]).Some?
    decreases fields, 0
  {
    var value := fields[0].value;
    if ValueHasLeaf(value) {
      if value.Mapping? {
        var rest := LeafPath(value.fields);
        path := [fields[0].key] + rest;
        assert path[1..] == rest;
      } else {
        path := [fields[0].key];
      }
    } else {
      path := LeafPath(fields[1..]);
      assert path[0] != fields[0].key;
    }
  }

  lemma {:induction false} PutUnwritten(entries: Entries, child: Child)
    requires !HoldsWrite(entries) && !child.written && !NodeHoldsWrite(child.node)
    ensures !HoldsWrite(Put(entries, child))
  {
    if entries == [] {
    } else if entries[0].key == child.key {
      assert Put(entries, child)[1..] == entries[1..];
    } else {
      PutUnwritten(entries[1..], child);
      assert Put(entries, child)[1..] == Put(entries[1..], child);
    }
  }

  lemma {:induction false} MarkedHolds(entries: Entries, path: seq<string>)
    requires path != [] && Marked(entries, path)
    ensures HoldsWrite(entries)
    decreases path
  {
    FoundHolds(entries, path[0]);
    if |path| > 1 {
      MarkedHolds(Get(entries, path[0]).value.node.entries, path[1..]);
    }
  }

  /** A mapping without a leaf writes nothing. */
  lemma {:induction false} NoLeafWritesNothing(entries: Entries, fields: seq<Field>)
    requires !HoldsWrite(entries) && !HasLeaf(fields)
    ensures !HoldsWrite(MergeFields(entries, fields))
    decreases fields
  {
    if fields == [] {
    } else {
      var existing := Get(entries, fields[0].key);
      FoundHolds(entries, fields[0].key);
      NoLeafWritesNothing(Under(existing), fields[0].value.fields);
      PutUnwritten(entries, Merged(fields[0].key, existing, fields[0].value));
      NoLeafWritesNothing(Put(entries, Merged(fields[0].key, existing, fields[0].value)), fields[1..]);
    }
  }

  /** Merging onto a tree without writes writes something exactly when the mapping has a leaf. */
  lemma MergeWritesIffLeaf(entries: Entries, fields: seq<Field>)
    requires !HoldsWrite(entries) && Keyed(fields)
    ensures HoldsWrite(MergeFields(entries, fields)) <==> HasLeaf(fields)
  {
    if HasLeaf(fields) {
      var path := LeafPath(fields);
      MergeIsLawful(entries, fields, path);
      MarkedHolds(MergeFields(entries, fields), path);
    } else {
      NoLeafWritesNothing(entries, fields);
    }
  }

  // ----- Merging again -----

  /** Every field is on the tree already. */
  predicate Settled(entries: Entries, fields: seq<Field>) {
    fields != [] ==>
      Get(entries, fields[0].key) == Some(Merged(fields[0].key, Get(entries, fields[0].key), fields[0].value)) &&
      Settled(entries, fields[1..])
  }

  lemma {:induction false} SettledIsFixed(entries: Entries, fields: seq<Field>)
    requires Settled(entries, fields)
    ensures MergeFields(entries, fields) == entries
  {
    if fields == [] {
    } else {
      PutSame(entries, Merged(fields[0].key, Get(entries, fields[0].key), fields[0].value));
      SettledIsFixed(entries, fields[1..]);
    }
  }

  /** Merging the same value twice is merging it once. */
  lemma {:induction false} MergeIsIdempotent(entries: Entries, fields: seq<Field>)
    requires Keyed(fields)
    ensures MergeFields(MergeFields(entries, fields), fields) == MergeFields(entries, fields)
    decreases fields, 1, 0
  {
    SettledAfter(entries, fields, fields);
    SettledIsFixed(MergeFields(entries, fields), fields);
  }

  lemma {:induction false} SettledAfter(entries: Entries, fields: seq<Field>, tail: seq<Field>)
    requires Keyed(fields) && Keyed(tail) && |tail| <= |fields| && fields[|fields| - |tail|..] == tail
    ensures Settled(MergeFields(entries, fields), tail)
    decreases fields, 0, |tail|
  {
    if tail == [] {
    } else {
      var key := tail[0].key;
      assert fields[|fields| - |tail|] == tail[0];
      LookupField(fields, |fields| - |tail|);
      GetMerged(entries, fields, key);
      assert tail[0] in fields;
      MergedTwice(key, Get(entries, key), tail[0].value);
      assert fields[|fields| - |tail[1..]|..] == tail[1..];
      SettledAfter(entries, fields, tail[1..]);
    }
  }

  lemma {:induction false} LookupField(fields: seq<Field>, i: nat)
    requires Keyed(fields) && i < |fields|
    ensures Lookup(fields, fields[i].key) == Some(fields[i].value)
    ensures KeyedValue(fields[i].value)
  {
    if i > 0 {
      LookupField(fields[1..], i - 1);
    }
  }

  lemma {:induction false} MergedTwice(key: string, existing: Option<Child>, value: Yaml)
    requires KeyedValue(value)
    ensures Merged(key, Some(Merged(key, existing, value)), value) == Merged(key, existing, value)
    decreases value, 2
  {
    match value
    case Mapping(fields) => MergeIsIdempotent(Under(existing), fields);
    case _ =>
  }

  // ----- Keys stay distinct -----

  lemma {:induction false} PutKeepsWellKeyed(entries: Entries, child: Child)
    requires WellKeyed(entries) && NodeWellKeyed(child.node)
    ensures WellKeyed(Put(entries, child))
  {
    if entries == [] {
    } else if entries[0].key == child.key {
      assert Put(entries, child)[1..] == entries[1..];
    } else {
      PutKeepsWellKeyed(entries[1..], child);
      GetPut(entries[1..], child, entries[0].key);
      assert Put(entries, child)[1..] == Put(entries[1..], child);
    }
  }

  lemma {:induction false} MergeKeepsWellKeyed(entries: Entries, fields: seq<Field>)
    requires WellKeyed(entries)
    ensures WellKeyed(MergeFields(entries, fields))
    decreases fields, 0
  {
    if fields == [] {
    } else {
      var existing := Get(entries, fields[0].key);
      if existing.Some? {
        ChildWellKeyed(entries, fields[0].key);
      }
      MergedIsWellKeyed(fields[0].key, existing, fields[0].value);
      var child := Merged(fields[0].key, existing, fields[0].value);
      PutKeepsWellKeyed(entries, child);
      MergeKeepsWellKeyed(Put(entries, child), fields[1..]);
    }
  }

  lemma {:induction false} MergedIsWellKeyed(key: string, existing: Option<Child>, value: Yaml)
    requires existing.Some? ==> NodeWellKeyed(existing.value.node)
    ensures NodeWellKeyed(Merged(key, existing, value).node)
    decreases value, 1
  {
    match value
    case Plain(_) =>
    case Mapping(fields) => MergeKeepsWellKeyed(Under(existing), fields);
    case Records(records) => RebuiltIsWellKeyed(records);
    case Listing(scalars) => TextsAreWellKeyed(scalars);
  }

  lemma {:induction false} RebuiltIsWellKeyed(records: seq<Record>)
    ensures ItemsWellKeyed(Rebuilt(records))
    decreases records, 0
  {
    if records == [] {
    } else {
      MergeKeepsWellKeyed([], records[0].fields);
      RebuiltIsWellKeyed(records[1..]);
      assert Rebuilt(records)[1..] == Rebuilt(records[1..]);
    }
  }

  lemma {:induction false} TextsAreWellKeyed(scalars: seq<Scalar>)
    ensures ItemsWellKeyed(Texts(scalars))
  {
    if scalars == [] {
    } else {
      TextsAreWellKeyed(scalars[1..]);
      assert Texts(scalars)[1..] == Texts(scalars[1..]);
    }
  }
}
