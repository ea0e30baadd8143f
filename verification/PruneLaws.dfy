/** What pruning leaves: a part of the scaffold, minimal for what was written, and stable under a second
    pass. */
module PruneLaws {
  import opened Options
  import opened ConfigTree

  // ----- What is kept and what is trimmed -----

  /** The names that stay with whatever holds them: namespaces, and the keys of NRM objects and lists. */
  lemma KeptNames(key: string)
    ensures AlwaysKept(key) <==>
            || (key != "" && key[0] == '@')
            || key == "id" || key == "mcc" || key == "mnc" || key == "sd" || key == "sst" || key == "idx"
            || key == "ipAddress" || key == "vlanId"
  {
  }

  /** Whether a child belongs to an extension, by its own name or by what it is in. */
  predicate InExtension(child: Child, extension: bool) {
    extension || (|child.key| >= 6 && child.key[..6] == "ocudu_")
  }

  /** Inside an extension a leaf that was not written goes; outside it stays. */
  lemma LeafGoesIff(child: Child, extension: bool)
    requires child.node.Text? && !child.written && !AlwaysKept(child.key)
    ensures PruneChild(child, extension) == None <==> extension
    ensures !extension ==> PruneChild(child, extension) == Some(child)
  {
  }

  /** An element that was not written goes exactly when nothing in it was and it is part of an extension or an NRM object,
      that is has an id; else it stays under its name. */
  lemma ElementGoesIff(child: Child, extension: bool)
    requires child.node.Object? && !child.written && !AlwaysKept(child.key)
    ensures PruneChild(child, extension) == None
            <==> !HoldsWrite(child.node.entries) && (InExtension(child, extension) || Get(child.node.entries, "id").Some?)
    ensures PruneChild(child, extension).Some? ==>
              PruneChild(child, extension).value.key == child.key && PruneChild(child, extension).value.node.Object?
  {
    assert StartsWith(child.key, OCUDU_PREFIX) <==> |child.key| >= 6 && child.key[..6] == "ocudu_";
  }

  /** A list that was not written, of which some entry is an NRM object, or in an extension, keeps exactly the entries in
      which something was, and goes without any; in any other list every entry stays. */
  lemma ListGoesIff(child: Child, extension: bool)
    requires child.node.Items? && !child.written && !AlwaysKept(child.key)
    ensures var items, pruned := child.node.items, PruneChild(child, extension);
            var trimmed := InExtension(child, extension) || exists n :: n in items && n.Object? && Get(n.entries, "id").Some?;
            && (pruned == None <==> trimmed && forall n :: n in items && n.Object? ==> !HoldsWrite(n.entries))
            && (pruned.Some? ==> pruned.value.key == child.key && pruned.value.node.Items?)
            && (pruned.Some? && !trimmed ==> |pruned.value.node.items| == |items|)
            && (pruned.Some? && trimmed ==> |pruned.value.node.items| == Holding(items))
  {
    assert StartsWith(child.key, OCUDU_PREFIX) <==> |child.key| >= 6 && child.key[..6] == "ocudu_";
    HoldingItems(child.node.items, extension || StartsWith(child.key, OCUDU_PREFIX));
  }

  /** How many entries of a list hold a write. */
  function Holding(items: seq<Node>): nat {
    if items == [] then 0
    else Holding(items[..|items| - 1])
         + if items[|items| - 1].Object? && HoldsWrite(items[|items| - 1].entries) then 1 else 0
  }

  lemma {:induction false} HoldingFirst(items: seq<Node>)
    requires items != []
    ensures Holding(items) == (if items[0].Object? && HoldsWrite(items[0].entries) then 1 else 0) + Holding(items[1..])
  {
    if |items| == 1 {
      assert items[..0] == [] && items[1..] == [];
    } else {
      var n := |items| - 1;
      HoldingFirst(items[..n]);
      assert items[..n][1..] == items[1..][..n - 1] && items[1..][n - 1] == items[n];
    }
  }

  lemma {:induction false} HoldingItems(items: seq<Node>, extension: bool)
    ensures |PruneHolding(items, extension)| == Holding(items)
    ensures |PruneItems(items, extension)| == |items|
    ensures ItemsHoldWrite(items) <==> exists n :: n in items && n.Object? && HoldsWrite(n.entries)
  {
    if items != [] {
      HoldingFirst(items);
      HoldingItems(items[1..], extension);
      assert forall n :: n in items <==> n == items[0] || n in items[1..];
    }
  }

  // ----- Minimal trees -----

  /** Nothing is left to drop: outside writes, namespaces and list keys, an extension holds no text, and
      extensions and objects only elements with a write somewhere inside. */
  predicate Minimal(entries: Entries, extension: bool)
    decreases entries, 0
  {
    entries != [] ==> MinimalChild(entries[0], extension) && Minimal(entries[1..], extension)
  }

  predicate MinimalChild(child: Child, extension: bool)
    decreases child, 1
  {
    child.written || AlwaysKept(child.key) ||
    var childExtension := extension || StartsWith(child.key, OCUDU_PREFIX);
    match child.node
    case Text(_) => !extension
    case Object(entries) =>
      (childExtension || IsObject(child.node) ==> HoldsWrite(entries)) && Minimal(entries, childExtension)
    case Items(items) =>
      MinimalItems(items, childExtension) &&
      (childExtension || IsObject(child.node) ==> items != [] && AllHoldWrites(items))
  }

  predicate MinimalItems(items: seq<Node>, extension: bool)
    decreases items, 0
  {
    items != [] ==> (items[0].Object? ==> Minimal(items[0].entries, extension)) && MinimalItems(items[1..], extension)
  }

  predicate AllHoldWrites(items: seq<Node>) {
    items != [] ==> items[0].Object? && HoldsWrite(items[0].entries) && AllHoldWrites(items[1..])
  }

  // ----- Parts of a tree -----

  /** The children of `part` are among those of `whole`, in order, each with its name, its mark and a part
      of its content; no namespace and no list key is missing. */
  predicate Within(part: Entries, whole: Entries)
    decreases whole, 0
  {
    if whole == [] then part == []
    else
      (part != [] && ChildWithin(part[0], whole[0]) && Within(part[1..], whole[1..])) ||
      (!AlwaysKept(whole[0].key) && Within(part, whole[1..]))
  }

  predicate ChildWithin(part: Child, whole: Child)
    decreases whole, 1
  {
    part == whole ||
    (part.key == whole.key && part.written == whole.written &&
     match whole.node
     case Text(_) => false
     case Object(entries) => part.node.Object? && Within(part.node.entries, entries)
     case Items(items) =>
       part.node.Items? && ItemsWithin(part.node.items, items) && (part.node.items == [] ==> items == []))
  }

  predicate ItemsWithin(part: seq<Node>, whole: seq<Node>)
    decreases whole, 0
  {
    part == [] ||
    (whole != [] &&
     ((ItemWithin(part[0], whole[0]) && ItemsWithin(part[1..], whole[1..])) || ItemsWithin(part, whole[1..])))
  }

  predicate ItemWithin(part: Node, whole: Node)
    decreases whole, 1
  {
    part == whole || (part.Object? && whole.Object? && Within(part.entries, whole.entries))
  }

  /** Pruning only takes away. */
  lemma {:induction false} PruneIsWithin(entries: Entries, extension: bool)
    ensures Within(Prune(entries, extension), entries)
    decreases entries, 0
  {
    if entries == [] {
    } else {
      var child, rest := PruneChild(entries[0], extension), Prune(entries[1..], extension);
      PruneChildIsWithin(entries[0], extension);
      PruneIsWithin(entries[1..], extension);
      if child.Some? {
        assert Prune(entries, extension)[1..] == rest;
      }
    }
  }

  lemma {:induction false} PruneChildIsWithin(child: Child, extension: bool)
    ensures var pruned := PruneChild(child, extension); pruned.Some? ==> ChildWithin(pruned.value, child)
    decreases child, 1
  {
    var childExtension := extension || StartsWith(child.key, OCUDU_PREFIX);
    match child.node
    case Text(_) =>
    case Object(entries) => PruneIsWithin(entries, childExtension);
    case Items(items) =>
      PruneHoldingIsWithin(items, childExtension);
      PruneItemsIsWithin(items, childExtension);
  }

  lemma {:induction false} PruneHoldingIsWithin(items: seq<Node>, extension: bool)
    ensures ItemsWithin(PruneHolding(items, extension), items)
    ensures ItemsHoldWrite(items) ==> PruneHolding(items, extension) != []
    decreases items, 0
  {
    if items == [] {
    } else {
      PruneHoldingIsWithin(items[1..], extension);
      if items[0].Object? && HoldsWrite(items[0].entries) {
        PruneIsWithin(items[0].entries, extension);
        assert PruneHolding(items, extension)[1..] == PruneHolding(items[1..], extension);
      }
    }
  }

  lemma {:induction false} PruneItemsIsWithin(items: seq<Node>, extension: bool)
    ensures ItemsWithin(PruneItems(items, extension), items)
    ensures PruneItems(items, extension) == [] ==> items == []
    decreases items, 0
  {
    if items == [] {
    } else {
      PruneItemsIsWithin(items[1..], extension);
      if items[0].Object? {
        PruneIsWithin(items[0].entries, extension);
      }
      assert PruneItems(items, extension)[1..] == PruneItems(items[1..], extension);
    }
  }

  // ----- Pruning reaches a minimal tree -----

  lemma {:induction false} PruneKeepsWriting(entries: Entries, extension: bool)
    ensures HoldsWrite(Prune(entries, extension)) <==> HoldsWrite(entries)
  {
    PruneKeepsWrites(entries, extension, []);
    NothingWritten(entries, []);
    NothingWritten(Prune(entries, extension), []);
  }

  /** A list key is in the pruned element exactly when it was in the element. */
  lemma {:induction false} PruneKeepsListKeys(entries: Entries, extension: bool, key: string)
    requires AlwaysKept(key)
    ensures Get(Prune(entries, extension), key) == Get(entries, key)
  {
    if entries == [] {
    } else {
      PruneKeepsListKeys(entries[1..], extension, key);
      if PruneChild(entries[0], extension).Some? {
        assert Prune(entries, extension)[1..] == Prune(entries[1..], extension);
      }
    }
  }

  lemma {:induction false} PruneIsMinimal(entries: Entries, extension: bool)
    ensures Minimal(Prune(entries, extension), extension)
    decreases entries, 0
  {
    if entries == [] {
    } else {
      var child := PruneChild(entries[0], extension);
      PruneChildIsMinimal(entries[0], extension);
      PruneIsMinimal(entries[1..], extension);
      if child.Some? {
        assert Prune(entries, extension)[1..] == Prune(entries[1..], extension);
      }
    }
  }

  lemma {:induction false} PruneChildIsMinimal(child: Child, extension: bool)
    ensures var pruned := PruneChild(child, extension); pruned.Some? ==> MinimalChild(pruned.value, extension)
    decreases child, 1
  {
    if !child.written && !AlwaysKept(child.key) {
      var childExtension := extension || StartsWith(child.key, OCUDU_PREFIX);
      match child.node
      case Text(_) =>
      case Object(entries) =>
        PruneIsMinimal(entries, childExtension);
        PruneKeepsWriting(entries, childExtension);
        PruneKeepsListKeys(entries, childExtension, "id");
      case Items(items) =>
        PruneHoldingIsMinimal(items, childExtension);
        PruneItemsIsMinimal(items, childExtension);
        PruneItemsKeepsObjects(items, childExtension);
    }
  }

  /** The entries of a list are pruned each by itself. */
  lemma {:induction false} PruneHoldingSplits(a: seq<Node>, b: seq<Node>, extension: bool)
    ensures PruneHolding(a + b, extension) == PruneHolding(a, extension) + PruneHolding(b, extension)
    decreases a
  {
    if a == [] {
      assert a + b == b;
    } else {
      assert (a + b)[1..] == a[1..] + b;
      PruneHoldingSplits(a[1..], b, extension);
    }
  }

  lemma {:induction false} PruneHoldingIsMinimal(items: seq<Node>, extension: bool)
    ensures MinimalItems(PruneHolding(items, extension), extension)
    ensures AllHoldWrites(PruneHolding(items, extension))
    ensures ItemsHoldWrite(items) <==> PruneHolding(items, extension) != []
    decreases items, 0
  {
    if items == [] {
    } else {
      PruneHoldingIsMinimal(items[1..], extension);
      if items[0].Object? && HoldsWrite(items[0].entries) {
        PruneIsMinimal(items[0].entries, extension);
        PruneKeepsWriting(items[0].entries, extension);
        assert PruneHolding(items, extension)[1..] == PruneHolding(items[1..], extension);
      }
    }
  }

  /** A list of NRM objects keeps its entries that hold a write, and goes without any. */
  lemma ObjectListPruned(key: string, items: seq<Node>)
    requires !AlwaysKept(key) && !StartsWith(key, OCUDU_PREFIX) && IsObject(Items(items))
    ensures var kept := PruneHolding(items, false);
            PruneChild(Child(key, false, Items(items)), false)
            == if kept == [] then None else Some(Child(key, false, Items(kept)))
  {
    PruneHoldingIsMinimal(items, false);
  }

  lemma {:induction false} PruneItemsIsMinimal(items: seq<Node>, extension: bool)
    ensures MinimalItems(PruneItems(items, extension), extension)
    decreases items, 0
  {
    if items == [] {
    } else {
      PruneItemsIsMinimal(items[1..], extension);
      if items[0].Object? {
        PruneIsMinimal(items[0].entries, extension);
      }
      assert PruneItems(items, extension)[1..] == PruneItems(items[1..], extension);
    }
  }

  lemma {:induction false} PruneItemsKeepsObjects(items: seq<Node>, extension: bool)
    ensures IsObject(Items(PruneItems(items, extension))) <==> IsObject(Items(items))
  {
    if items == [] {
    } else {
      var rest := PruneItems(items[1..], extension);
      PruneItemsKeepsObjects(items[1..], extension);
      if items[0].Object? {
        PruneKeepsListKeys(items[0].entries, extension, "id");
      }
      ObjectInHeadOrTail(items);
      ObjectInHeadOrTail(PruneItems(items, extension));
      assert PruneItems(items, extension)[1..] == rest;
    }
  }

  lemma ObjectInHeadOrTail(items: seq<Node>)
    requires items != []
    ensures IsObject(Items(items)) <==>
            (items[0].Object? && Get(items[0].entries, "id").Some?) || IsObject(Items(items[1..]))
  {
    assert items == [items[0]] + items[1..];
  }

  // ----- A minimal tree stays as it is -----

  lemma {:induction false} MinimalIsFixed(entries: Entries, extension: bool)
    requires Minimal(entries, extension)
    ensures Prune(entries, extension) == entries
    decreases entries, 0
  {
    if entries == [] {
    } else {
      MinimalChildIsFixed(entries[0], extension);
      MinimalIsFixed(entries[1..], extension);
      assert entries == [entries[0]] + entries[1..];
    }
  }

  lemma {:induction false} MinimalChildIsFixed(child: Child, extension: bool)
    requires MinimalChild(child, extension)
    ensures PruneChild(child, extension) == Some(child)
    decreases child, 1
  {
    if !child.written && !AlwaysKept(child.key) {
      var childExtension := extension || StartsWith(child.key, OCUDU_PREFIX);
      match child.node
      case Text(_) =>
      case Object(entries) => MinimalIsFixed(entries, childExtension);
      case Items(items) =>
        MinimalItemsAreFixed(items, childExtension);
        if childExtension || IsObject(child.node) {
          HoldingItemsAreFixed(items, childExtension);
        }
    }
  }

  lemma {:induction false} MinimalItemsAreFixed(items: seq<Node>, extension: bool)
    requires MinimalItems(items, extension)
    ensures PruneItems(items, extension) == items
    decreases items, 0
  {
    if items == [] {
    } else {
      if items[0].Object? {
        MinimalIsFixed(items[0].entries, extension);
      }
      MinimalItemsAreFixed(items[1..], extension);
      assert items == [items[0]] + items[1..];
    }
  }

  lemma {:induction false} HoldingItemsAreFixed(items: seq<Node>, extension: bool)
    requires MinimalItems(items, extension) && AllHoldWrites(items)
    ensures PruneHolding(items, extension) == items
    decreases items, 0
  {
    if items == [] {
    } else {
      MinimalIsFixed(items[0].entries, extension);
      HoldingItemsAreFixed(items[1..], extension);
      assert items == [items[0]] + items[1..];
    }
  }

  /** Pruning leaves a tree alone exactly when there is nothing to drop from it. */
  lemma FixedIffMinimal(entries: Entries, extension: bool)
    ensures Prune(entries, extension) == entries <==> Minimal(entries, extension)
  {
    PruneIsMinimal(entries, extension);
    if Minimal(entries, extension) {
      MinimalIsFixed(entries, extension);
    }
  }

  /** Pruning twice is pruning once. */
  lemma PruneIsIdempotent(entries: Entries, extension: bool)
    ensures Prune(Prune(entries, extension), extension) == Prune(entries, extension)
  {
    PruneIsMinimal(entries, extension);
    MinimalIsFixed(Prune(entries, extension), extension);
  }

  // ----- One name at a time -----

  lemma {:induction false} GetPruned(entries: Entries, extension: bool, key: string)
    requires WellKeyed(entries)
    ensures Get(Prune(entries, extension), key) ==
            if Get(entries, key).Some? then PruneChild(Get(entries, key).value, extension) else None
  {
    if entries == [] {
    } else {
      GetPruned(entries[1..], extension, key);
      if PruneChild(entries[0], extension).Some? {
        assert Prune(entries, extension)[1..] == Prune(entries[1..], extension);
      }
    }
  }

  /** Whatever holds a write has a child that carries or holds one. */
  lemma {:induction false} HolderIsFound(entries: Entries) returns (key: string)
    requires WellKeyed(entries) && HoldsWrite(entries)
    ensures Get(entries, key).Some?
    ensures Get(entries, key).value.written || NodeHoldsWrite(Get(entries, key).value.node)
  {
    if entries[0].written || NodeHoldsWrite(entries[0].node) {
      key := entries[0].key;
    } else {
      key := HolderIsFound(entries[1..]);
      assert key != entries[0].key;
    }
  }

  lemma {:induction false} PruneKeepsWellKeyed(entries: Entries, extension: bool)
    requires WellKeyed(entries)
    ensures WellKeyed(Prune(entries, extension))
    decreases entries, 0
  {
    if entries != [] {
      PruneKeepsWellKeyed(entries[1..], extension);
      PruneChildKeepsWellKeyed(entries[0], extension);
      GetPruned(entries[1..], extension, entries[0].key);
      if PruneChild(entries[0], extension).Some? {
        assert Prune(entries, extension)[1..] == Prune(entries[1..], extension);
      }
    }
  }

  lemma {:induction false} PruneChildKeepsWellKeyed(child: Child, extension: bool)
    requires NodeWellKeyed(child.node)
    ensures var pruned := PruneChild(child, extension);
            pruned.Some? ==> pruned.value.key == child.key && NodeWellKeyed(pruned.value.node)
    decreases child, 1
  {
    var childExtension := extension || StartsWith(child.key, OCUDU_PREFIX);
    match child.node
    case Text(_) =>
    case Object(entries) => PruneKeepsWellKeyed(entries, childExtension);
    case Items(items) => PruneItemsKeepsWellKeyed(items, childExtension);
  }

  lemma {:induction false} PruneItemsKeepsWellKeyed(items: seq<Node>, extension: bool)
    requires ItemsWellKeyed(items)
    ensures ItemsWellKeyed(PruneItems(items, extension)) && ItemsWellKeyed(PruneHolding(items, extension))
    decreases items, 0
  {
    if items != [] {
      PruneItemsKeepsWellKeyed(items[1..], extension);
      if items[0].Object? {
        PruneKeepsWellKeyed(items[0].entries, extension);
        if HoldsWrite(items[0].entries) {
          assert PruneHolding(items, extension)[1..] == PruneHolding(items[1..], extension);
        }
      }
      assert PruneItems(items, extension)[1..] == PruneItems(items[1..], extension);
    }
  }

  // ----- Pruning drops no more than it must -----

  /** Every list is keyed throughout or not at all. */
  predicate Uniform(entries: Entries)
    decreases entries, 0
  {
    entries != [] ==> UniformNode(entries[0].node) && Uniform(entries[1..])
  }

  predicate UniformNode(node: Node)
    decreases node, 1
  {
    match node
    case Text(_) => true
    case Object(entries) => Uniform(entries)
    case Items(items) => UniformItems(items) && (IsObject(node) ==> AllKeyed(items))
  }

  predicate UniformItems(items: seq<Node>)
    decreases items, 0
  {
    items != [] ==> (items[0].Object? ==> Uniform(items[0].entries)) && UniformItems(items[1..])
  }

  predicate AllKeyed(items: seq<Node>) {
    items != [] ==> items[0].Object? && Get(items[0].entries, "id").Some? && AllKeyed(items[1..])
  }

  lemma {:induction false} WithinKeepsListKeys(part: Entries, whole: Entries, key: string)
    requires Within(part, whole) && AlwaysKept(key)
    ensures Get(part, key).Some? <==> Get(whole, key).Some?
  {
    if whole == [] {
    } else if part != [] && ChildWithin(part[0], whole[0]) && Within(part[1..], whole[1..]) {
      WithinKeepsListKeys(part[1..], whole[1..], key);
    } else {
      WithinKeepsListKeys(part, whole[1..], key);
    }
  }

  lemma {:induction false} PartHoldsNoMore(part: Entries, whole: Entries)
    requires Within(part, whole) && HoldsWrite(part)
    ensures HoldsWrite(whole)
    decreases whole, 0
  {
    if whole == [] {
    } else if part != [] && ChildWithin(part[0], whole[0]) && Within(part[1..], whole[1..]) {
      if HoldsWrite(part[1..]) {
        PartHoldsNoMore(part[1..], whole[1..]);
      } else {
        PartOfChildHoldsNoMore(part[0], whole[0]);
      }
    } else {
      PartHoldsNoMore(part, whole[1..]);
    }
  }

  lemma {:induction false} PartOfChildHoldsNoMore(part: Child, whole: Child)
    requires ChildWithin(part, whole) && (part.written || NodeHoldsWrite(part.node))
    ensures whole.written || NodeHoldsWrite(whole.node)
    decreases whole, 1
  {
    if part != whole && !part.written {
      match whole.node
      case Text(_) =>
      case Object(entries) => PartHoldsNoMore(part.node.entries, entries);
      case Items(items) => PartOfItemsHoldsNoMore(part.node.items, items);
    }
  }

  lemma {:induction false} PartOfItemsHoldsNoMore(part: seq<Node>, whole: seq<Node>)
    requires ItemsWithin(part, whole) && ItemsHoldWrite(part)
    ensures ItemsHoldWrite(whole)
    decreases whole, 0
  {
    if ItemWithin(part[0], whole[0]) && ItemsWithin(part[1..], whole[1..]) {
      if ItemsHoldWrite(part[1..]) {
        PartOfItemsHoldsNoMore(part[1..], whole[1..]);
      } else if part[0] != whole[0] {
        PartHoldsNoMore(part[0].entries, whole[0].entries);
      }
    } else {
      PartOfItemsHoldsNoMore(part, whole[1..]);
    }
  }

  /** Every minimal part of a tree is a part of the pruned tree: with PruneIsWithin and PruneIsMinimal,
      pruning yields the greatest minimal part. */
  lemma {:induction false} PruneIsGreatest(part: Entries, whole: Entries, extension: bool)
    requires Uniform(whole) && Within(part, whole) && Minimal(part, extension)
    ensures Within(part, Prune(whole, extension))
    decreases whole, 0
  {
    if whole == [] {
    } else {
      var child, rest := PruneChild(whole[0], extension), Prune(whole[1..], extension);
      if child.Some? {
        assert Prune(whole, extension)[1..] == rest;
      }
      if part != [] && ChildWithin(part[0], whole[0]) && Within(part[1..], whole[1..]) {
        PruneChildIsGreatest(part[0], whole[0], extension);
        PruneIsGreatest(part[1..], whole[1..], extension);
      } else {
        PruneIsGreatest(part, whole[1..], extension);
      }
    }
  }

  lemma {:induction false} PruneChildIsGreatest(part: Child, whole: Child, extension: bool)
    requires UniformNode(whole.node) && ChildWithin(part, whole) && MinimalChild(part, extension)
    ensures var pruned := PruneChild(whole, extension); pruned.Some? && ChildWithin(part, pruned.value)
    decreases whole, 1
  {
    if part == whole {
      MinimalChildIsFixed(whole, extension);
    } else if !whole.written && !AlwaysKept(whole.key) {
      var childExtension := extension || StartsWith(whole.key, OCUDU_PREFIX);
      match whole.node
      case Text(_) =>
      case Object(entries) =>
        WithinKeepsListKeys(part.node.entries, entries, "id");
        PruneIsGreatest(part.node.entries, entries, childExtension);
        if HoldsWrite(part.node.entries) {
          PartHoldsNoMore(part.node.entries, entries);
        }
      case Items(items) =>
        PruneItemsIsGreatest(part, items, childExtension);
    }
  }

  lemma {:induction false} PruneItemsIsGreatest(part: Child, items: seq<Node>, extension: bool)
    requires part.node.Items? && ItemsWithin(part.node.items, items) && (part.node.items == [] ==> items == [])
    requires UniformNode(Items(items)) && MinimalItems(part.node.items, extension)
    requires extension || IsObject(part.node) ==> part.node.items != [] && AllHoldWrites(part.node.items)
    ensures extension || IsObject(Items(items)) ==>
              ItemsHoldWrite(items) && ItemsWithin(part.node.items, PruneHolding(items, extension))
    ensures ItemsWithin(part.node.items, PruneItems(items, extension))
    ensures |PruneItems(items, extension)| == |items|
    decreases items, 1
  {
    PlainItemsAreGreatest(part.node.items, items, extension);
    if extension || IsObject(Items(items)) {
      if IsObject(Items(items)) {
        KeyedPart(part.node.items, items);
        ObjectInHeadOrTail(part.node.items);
      }
      HoldingItemsAreGreatest(part.node.items, items, extension);
    }
  }

  lemma {:induction false} KeyedPart(part: seq<Node>, whole: seq<Node>)
    requires ItemsWithin(part, whole) && AllKeyed(whole)
    ensures AllKeyed(part)
  {
    if part == [] {
    } else if ItemWithin(part[0], whole[0]) && ItemsWithin(part[1..], whole[1..]) {
      KeyedPart(part[1..], whole[1..]);
      if part[0] != whole[0] {
        WithinKeepsListKeys(part[0].entries, whole[0].entries, "id");
      }
    } else {
      KeyedPart(part, whole[1..]);
    }
  }

  lemma {:induction false} PlainItemsAreGreatest(part: seq<Node>, whole: seq<Node>, extension: bool)
    requires ItemsWithin(part, whole) && UniformItems(whole) && MinimalItems(part, extension)
    ensures ItemsWithin(part, PruneItems(whole, extension)) && |PruneItems(whole, extension)| == |whole|
    decreases whole, 0
  {
    if whole == [] {
    } else {
      assert PruneItems(whole, extension)[1..] == PruneItems(whole[1..], extension);
      if part == [] {
        PlainItemsAreGreatest(part, whole[1..], extension);
      } else if ItemWithin(part[0], whole[0]) && ItemsWithin(part[1..], whole[1..]) {
        PlainItemsAreGreatest(part[1..], whole[1..], extension);
        if part[0].Object? {
          PruneItemIsGreatest(part[0].entries, whole[0].entries, extension);
        }
      } else {
        PlainItemsAreGreatest(part, whole[1..], extension);
      }
    }
  }

  lemma {:induction false} HoldingItemsAreGreatest(part: seq<Node>, whole: seq<Node>, extension: bool)
    requires ItemsWithin(part, whole) && UniformItems(whole) && MinimalItems(part, extension)
    requires AllHoldWrites(part)
    ensures ItemsWithin(part, PruneHolding(whole, extension))
    ensures part != [] ==> ItemsHoldWrite(whole)
    decreases whole, 0
  {
    if whole == [] {
    } else {
      if whole[0].Object? && HoldsWrite(whole[0].entries) {
        assert PruneHolding(whole, extension)[1..] == PruneHolding(whole[1..], extension);
      }
      if part == [] {
      } else if ItemWithin(part[0], whole[0]) && ItemsWithin(part[1..], whole[1..]) {
        HoldingItemsAreGreatest(part[1..], whole[1..], extension);
        PruneItemIsGreatest(part[0].entries, whole[0].entries, extension);
        if part[0] != whole[0] {
          PartHoldsNoMore(part[0].entries, whole[0].entries);
        }
      } else {
        HoldingItemsAreGreatest(part, whole[1..], extension);
      }
    }
  }

  lemma {:induction false} PruneItemIsGreatest(part: Entries, whole: Entries, extension: bool)
    requires part == whole || Within(part, whole)
    requires Uniform(whole) && Minimal(part, extension)
    ensures ItemWithin(Object(part), Object(Prune(whole, extension)))
    decreases whole, 1
  {
    if part == whole {
      MinimalIsFixed(whole, extension);
    } else {
      PruneIsGreatest(part, whole, extension);
    }
  }
}
