/** NETCONF configuration trees with the overlay's write marks, and the pruning pass that trims an
    overlaid scaffold back to what the YAML determines. */
module ConfigTree {
  import opened Options

  /** Element text, an element with children, or repeated elements. */
  datatype Node = Text(text: string) | Object(entries: Entries) | Items(items: seq<Node>)

  /** A named child with its mark: whether the overlay wrote it. The children of an element keep their
      document order. */
  datatype Child = Child(key: string, written: bool, node: Node)

  type Entries = seq<Child>

  function Get(entries: Entries, key: string): Option<Child> {
    if entries == [] then None else if entries[0].key == key then Some(entries[0]) else Get(entries[1..], key)
  }

  /** Names are distinct at every level, as in any dictionary. */
  predicate WellKeyed(entries: Entries)
    decreases entries, 0
  {
    entries != [] ==>
      Get(entries[1..], entries[0].key).None? && NodeWellKeyed(entries[0].node) && WellKeyed(entries[1..])
  }

  predicate NodeWellKeyed(node: Node)
    decreases node, 1
  {
    match node
    case Text(_) => true
    case Object(entries) => WellKeyed(entries)
    case Items(items) => ItemsWellKeyed(items)
  }

  predicate ItemsWellKeyed(items: seq<Node>)
    decreases items, 0
  {
    items != [] ==> NodeWellKeyed(items[0]) && ItemsWellKeyed(items[1..])
  }

  lemma {:induction false} ChildWellKeyed(entries: Entries, key: string)
    requires WellKeyed(entries) && Get(entries, key).Some?
    ensures NodeWellKeyed(Get(entries, key).value.node)
  {
    if entries[0].key != key {
      ChildWellKeyed(entries[1..], key);
    }
  }

  const OCUDU_PREFIX := "ocudu_"
  const LIST_KEYS: set<string> := {"id", "mcc", "mnc", "sd", "sst", "idx", "ipAddress", "vlanId"}

  predicate StartsWith(s: string, prefix: string) {
    prefix <= s
  }

  /** Namespaces and list keys, which stay with whatever holds them. */
  predicate AlwaysKept(key: string) {
    StartsWith(key, "@") || key in LIST_KEYS
  }

  // ----- Writes -----

  /** Whether the overlay wrote anything anywhere under an element. */
  predicate HoldsWrite(entries: Entries)
    decreases entries, 0
  {
    entries != [] && (entries[0].written || NodeHoldsWrite(entries[0].node) || HoldsWrite(entries[1..]))
  }

  predicate NodeHoldsWrite(node: Node)
    decreases node, 1
  {
    match node
    case Text(_) => false
    case Object(entries) => HoldsWrite(entries)
    case Items(items) => ItemsHoldWrite(items)
  }

  predicate ItemsHoldWrite(items: seq<Node>)
    decreases items, 0
  {
    items != [] && ((items[0].Object? && HoldsWrite(items[0].entries)) || ItemsHoldWrite(items[1..]))
  }

  lemma {:induction false} FoundHolds(entries: Entries, key: string)
    ensures var child := Get(entries, key);
            child.Some? && (child.value.written || NodeHoldsWrite(child.value.node)) ==> HoldsWrite(entries)
  {
    if entries != [] && entries[0].key != key {
      FoundHolds(entries[1..], key);
    }
  }

  /** An NRM object: an element keyed by id, or a list holding one. */
  predicate IsObject(node: Node) {
    match node
    case Text(_) => false
    case Object(entries) => Get(entries, "id").Some?
    case Items(items) => exists n :: n in items && n.Object? && Get(n.entries, "id").Some?
  }

  // ----- Pruning -----

  function Prune(entries: Entries, extension: bool): Entries
    decreases entries, 0
  {
    if entries == [] then []
    else
      var child, rest := PruneChild(entries[0], extension), Prune(entries[1..], extension);
      if child.Some? then [child.value] + rest else rest
  }

  /** One child: kept whole, kept pruned, or dropped. */
  function PruneChild(child: Child, extension: bool): Option<Child>
    decreases child, 1
  {
    if child.written || AlwaysKept(child.key) then Some(child)
    else
      var childExtension := extension || StartsWith(child.key, OCUDU_PREFIX);
      match child.node
      case Text(_) => if extension then None else Some(child)
      case Object(entries) =>
        if (childExtension || IsObject(child.node)) && !HoldsWrite(entries) then None
        else Some(child.(node := Object(Prune(entries, childExtension))))
      case Items(items) =>
        if childExtension || IsObject(child.node) then
          if ItemsHoldWrite(items) then Some(child.(node := Items(PruneHolding(items, childExtension)))) else None
        else Some(child.(node := Items(PruneItems(items, childExtension))))
  }

  /** The elements that hold a write, pruned; the rest, and any text, dropped. */
  function PruneHolding(items: seq<Node>, extension: bool): seq<Node>
    decreases items, 0
  {
    if items == [] then []
    else
      var rest := PruneHolding(items[1..], extension);
      if items[0].Object? && HoldsWrite(items[0].entries) then [Object(Prune(items[0].entries, extension))] + rest else rest
  }

  /** Every element pruned, text left alone. */
  function PruneItems(items: seq<Node>, extension: bool): seq<Node>
    decreases items, 0
  {
    if items == [] then []
    else [if items[0].Object? then Object(Prune(items[0].entries, extension)) else items[0]]
         + PruneItems(items[1..], extension)
  }

  // ----- What was written -----

  /** A written child: the names leading to it, and all that was written there. */
  datatype Write = Write(path: seq<string>, node: Node)

  /** The topmost writes of an element, in document order. */
  function Writes(entries: Entries, path: seq<string>): seq<Write>
    decreases entries, 0
  {
    if entries == [] then []
    else ChildWrites(entries[0], path) + Writes(entries[1..], path)
  }

  function ChildWrites(child: Child, path: seq<string>): seq<Write>
    decreases child, 1
  {
    if child.written then [Write(path + [child.key], child.node)]
    else
      match child.node
      case Text(_) => []
      case Object(entries) => Writes(entries, path + [child.key])
      case Items(items) => ItemsWrites(items, path + [child.key])
  }

  function ItemsWrites(items: seq<Node>, path: seq<string>): seq<Write>
    decreases items, 0
  {
    if items == [] then []
    else
      var rest := ItemsWrites(items[1..], path);
      if items[0].Object? then Writes(items[0].entries, path) + rest else rest
  }

  lemma {:induction false} NothingWritten(entries: Entries, path: seq<string>)
    ensures HoldsWrite(entries) <==> Writes(entries, path) != []
    decreases entries, 0
  {
    if entries == [] {
    } else {
      NothingWrittenInChild(entries[0], path);
      NothingWritten(entries[1..], path);
    }
  }

  lemma {:induction false} NothingWrittenInChild(child: Child, path: seq<string>)
    ensures child.written || NodeHoldsWrite(child.node) <==> ChildWrites(child, path) != []
    decreases child, 1
  {
    match child.node
    case Text(_) =>
    case Object(entries) => NothingWritten(entries, path + [child.key]);
    case Items(items) => NothingWrittenInItems(items, path + [child.key]);
  }

  lemma {:induction false} NothingWrittenInItems(items: seq<Node>, path: seq<string>)
    ensures ItemsHoldWrite(items) <==> ItemsWrites(items, path) != []
    decreases items, 0
  {
    if items == [] {
    } else {
      if items[0].Object? {
        NothingWritten(items[0].entries, path);
      }
      NothingWrittenInItems(items[1..], path);
    }
  }

  /** Pruning drops no write and no name on the way to one: the writes stay the same, in the same order. */
  lemma {:induction false} PruneKeepsWrites(entries: Entries, extension: bool, path: seq<string>)
    ensures Writes(Prune(entries, extension), path) == Writes(entries, path)
    decreases entries, 0
  {
    if entries == [] {
    } else {
      var child := PruneChild(entries[0], extension);
      PruneChildKeepsWrites(entries[0], extension, path);
      PruneKeepsWrites(entries[1..], extension, path);
      if child.Some? {
        assert Prune(entries, extension)[1..] == Prune(entries[1..], extension);
      }
    }
  }

  lemma {:induction false} PruneChildKeepsWrites(child: Child, extension: bool, path: seq<string>)
    ensures var pruned := PruneChild(child, extension);
            ChildWrites(child, path) == if pruned.Some? then ChildWrites(pruned.value, path) else []
    decreases child, 1
  {
    NothingWrittenInChild(child, path);
    if !child.written && !AlwaysKept(child.key) {
      var childExtension := extension || StartsWith(child.key, OCUDU_PREFIX);
      match child.node
      case Text(_) =>
      case Object(entries) => PruneKeepsWrites(entries, childExtension, path + [child.key]);
      case Items(items) =>
        PruneHoldingKeepsWrites(items, childExtension, path + [child.key]);
        PruneItemsKeepsWrites(items, childExtension, path + [child.key]);
    }
  }

  lemma {:induction false} PruneHoldingKeepsWrites(items: seq<Node>, extension: bool, path: seq<string>)
    ensures ItemsWrites(PruneHolding(items, extension), path) == ItemsWrites(items, path)
    decreases items, 0
  {
    if items == [] {
    } else {
      PruneHoldingKeepsWrites(items[1..], extension, path);
      if items[0].Object? {
        NothingWritten(items[0].entries, path);
        PruneKeepsWrites(items[0].entries, extension, path);
        if HoldsWrite(items[0].entries) {
          assert PruneHolding(items, extension)[1..] == PruneHolding(items[1..], extension);
        }
      }
    }
  }

  lemma {:induction false} PruneItemsKeepsWrites(items: seq<Node>, extension: bool, path: seq<string>)
    ensures ItemsWrites(PruneItems(items, extension), path) == ItemsWrites(items, path)
    decreases items, 0
  {
    if items == [] {
    } else {
      PruneItemsKeepsWrites(items[1..], extension, path);
      if items[0].Object? {
        PruneKeepsWrites(items[0].entries, extension, path);
      }
      assert PruneItems(items, extension)[1..] == PruneItems(items[1..], extension);
    }
  }
}
