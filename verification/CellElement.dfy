/** The whole NRCellDU element: pruning drops it when the overlay wrote nothing into it, and otherwise its
    attributes come back. */
module CellElement {
  import opened Options
  import opened ConfigTree
  import opened PruneLaws
  import opened YamlMerge
  import opened CellOverlay
  import opened CellProjection
  import opened CellPaths
  import opened CellRoundTrip

  const ATTRIBUTES := "attributes"
  const CELL := "NRCellDU"

  /** A scaffold cell as parsed: an NRM object whose attributes are complete. */
  ghost predicate CompleteCell(cell: Entries) {
    WellKeyed(cell) && !HoldsWrite(cell) && Get(cell, "id").Some? &&
    Get(cell, ATTRIBUTES).Some? && Get(cell, ATTRIBUTES).value.node.Object? && Complete(Inside(cell, ATTRIBUTES))
  }

  function OverlaidCell(cell: Entries, fields: seq<Field>, ofh: Option<seq<Field>>): Entries {
    Replace(cell, ATTRIBUTES, Overlaid(Inside(cell, ATTRIBUTES), fields, ofh))
  }

  /** The element in the configuration, None when it was dropped. */
  function BuiltCell(cell: Entries, fields: seq<Field>, ofh: Option<seq<Field>>): Option<Entries> {
    var pruned := PruneChild(Child(CELL, false, Object(OverlaidCell(cell, fields, ofh))), false);
    if pruned.Some? && pruned.value.node.Object? then Some(pruned.value.node.entries) else None
  }

  /** What becomes of a cell among the list entries, kept or dropped as it would be alone. */
  function Listed(cell: Entries, fields: seq<Field>, ofh: Option<seq<Field>>): seq<Node> {
    var built := BuiltCell(cell, fields, ofh);
    if built.Some? then [Object(built.value)] else []
  }

  lemma ListedAlone(cell: Entries, fields: seq<Field>, ofh: Option<seq<Field>>)
    requires Get(OverlaidCell(cell, fields, ofh), "id").Some?
    ensures PruneHolding([Object(OverlaidCell(cell, fields, ofh))], false) == Listed(cell, fields, ofh)
  {
    CellName();
    assert [Object(OverlaidCell(cell, fields, ofh))][1..] == [];
  }

  /** In a list, whatever surrounds it, a cell is treated as it would be alone, and so is what surrounds it;
      the list goes when nothing of it is left. */
  lemma ListedLikeAlone(before: seq<Node>, cell: Entries, fields: seq<Field>, ofh: Option<seq<Field>>, after: seq<Node>)
    requires Get(OverlaidCell(cell, fields, ofh), "id").Some?
    ensures var items := before + [Object(OverlaidCell(cell, fields, ofh))] + after;
            var kept := PruneHolding(before, false) + Listed(cell, fields, ofh) + PruneHolding(after, false);
            PruneChild(Child(CELL, false, Items(items)), false)
            == if kept == [] then None else Some(Child(CELL, false, Items(kept)))
  {
    var one := Object(OverlaidCell(cell, fields, ofh));
    ListedAlone(cell, fields, ofh);
    AmongOthers(before, one, after);
    CellName();
    ObjectListPruned(CELL, before + [one] + after);
  }

  lemma AmongOthers(before: seq<Node>, one: Node, after: seq<Node>)
    requires one.Object? && Get(one.entries, "id").Some?
    ensures var items := before + [one] + after;
            && PruneHolding(items, false) == PruneHolding(before, false) + PruneHolding([one], false) + PruneHolding(after, false)
            && IsObject(Items(items))
  {
    PruneHoldingSplits(before, [one], false);
    PruneHoldingSplits(before + [one], after, false);
    assert one in before + [one] + after;
  }

  lemma CellName()
    ensures !AlwaysKept(CELL) && !StartsWith(CELL, OCUDU_PREFIX)
    ensures !AlwaysKept(ATTRIBUTES) && !StartsWith(ATTRIBUTES, OCUDU_PREFIX) && ATTRIBUTES != "id"
  {
    assert CELL[0] == 'N' && |CELL| == 8;
    assert ATTRIBUTES[0] == 'a' && |ATTRIBUTES| == 10;
  }

  // ----- Whether the overlay writes into a cell -----

  /** Whether a key of the YAML cell is written anywhere. */
  predicate FieldWrites(scaffold: Entries, field: Field) {
    var Field(key, value) := field;
    if key in ATTRS || key == "enabled" then true
    else if key == "plmn" then SplitPlmn(value).Some? && HasPlmn(scaffold)
    else if key in CHANNELS then ValueHasLeaf(value)
    else value.Plain? && HasBaseLeaf(scaffold, key)
  }

  predicate CellWrites(scaffold: Entries, fields: seq<Field>, ofh: Option<seq<Field>>) {
    (exists i :: 0 <= i < |fields| && FieldWrites(scaffold, fields[i])) || (ofh.Some? && HasLeaf(OfhFields(ofh.value)))
  }

  lemma OneLeaf(key: string, value: Yaml)
    ensures HasLeaf([Field(key, value)]) <==> ValueHasLeaf(value)
  {
    assert [Field(key, value)][1..] == [];
  }

  lemma FieldWritesIff(scaffold: Entries, field: Field)
    requires field.key in ATTRS ==> field.value.Plain?
    ensures FieldWrites(scaffold, field) <==> HasLeaf(Tree(scaffold, field))
  {
    var tree := Tree(scaffold, field);
    HomesAreDistinct();
    if tree != [] {
      assert tree == [tree[0]];
      OneLeaf(tree[0].key, tree[0].value);
      if tree[0].key == EXT {
        var inner := tree[0].value.fields[0];
        OneLeaf(inner.key, inner.value);
        if field.key !in CHANNELS && HasBaseLeaf(scaffold, field.key) {
          OneLeaf(inner.value.fields[0].key, inner.value.fields[0].value);
        }
      } else if field.key == "plmn" {
        assert ValueHasLeaf(tree[0].value.fields[0].value);
      }
    }
  }

  lemma {:induction false} NothingMerged(entries: Entries, trees: seq<seq<Field>>)
    requires !HoldsWrite(entries) && forall i :: 0 <= i < |trees| ==> !HasLeaf(trees[i])
    ensures !HoldsWrite(MergeAll(entries, trees))
    decreases trees
  {
    if trees != [] {
      NoLeafWritesNothing(entries, trees[0]);
      assert forall i :: 0 <= i < |trees[1..]| ==> trees[1..][i] == trees[i + 1];
      NothingMerged(MergeFields(entries, trees[0]), trees[1..]);
    }
  }

  /** A key that is written anywhere still is when the whole cell is overlaid: no other key reaches there. */
  lemma FieldStaysWritten(scaffold: Entries, fields: seq<Field>, ofh: Option<seq<Field>>, i: nat)
    requires IsCell(fields, ofh) && i < |fields| && FieldWrites(scaffold, fields[i])
    ensures HoldsWrite(Overlaid(scaffold, fields, ofh))
  {
    var Field(key, value) := fields[i];
    var tree := Tree(scaffold, fields[i]);
    LookupField(fields, i);
    ScalarsAreScalars(fields, key);
    FieldWritesIff(scaffold, fields[i]);
    TreeIsKeyed(scaffold, fields[i]);
    var path := LeafPath(tree);
    LeafIsOwn(scaffold, fields, i, path);
    AtOverlaid(scaffold, fields, ofh, path, key);
    MergeIsLawful([], tree, path);
    MarkedHolds(Overlaid(scaffold, fields, ofh), path);
  }

  lemma LeafIsOwn(scaffold: Entries, fields: seq<Field>, i: nat, path: seq<string>)
    requires Keyed(fields) && i < |fields| && path != []
    requires ReachOf(Tree(scaffold, fields[i]), path).Leaf? && Lookup(Tree(scaffold, fields[i]), path[0]).Some?
    ensures OnlyKey(scaffold, fields, path, fields[i].key)
    ensures path[0] != EXT || (|path| >= 2 && path[1] != OFH)
  {
    var field := fields[i];
    HomesAreDistinct();
    ContainersAreDistinct(field.key);
    TreeLookup(scaffold, field, path[0]);
    if Home(field.key) != EXT {
      forall j | 0 <= j < |fields| && fields[j].key != field.key ensures Off(Tree(scaffold, fields[j]), path) {
        LookupField(fields, j);
        OffHome(scaffold, fields[j], path);
      }
    } else {
      ExtensionTree(scaffold, field);
      ExtensionLeaf(Tree(scaffold, field), field.key, path);
      if field.key in CHANNELS {
        OnlyChannel(scaffold, fields, path, field.key);
      } else {
        forall j | 0 <= j < |fields| && fields[j].key != field.key ensures Off(Tree(scaffold, fields[j]), path) {
          LookupField(fields, j);
          OffBase(scaffold, fields[j], field.key);
        }
      }
    }
  }

  /** A leaf under a single field. */
  lemma OneStep(field: Field, path: seq<string>)
    requires path != [] && ReachOf([field], path).Leaf?
    ensures path[0] == field.key
    ensures if field.value.Mapping? then |path| >= 2 && ReachOf(field.value.fields, path[1..]).Leaf? else |path| == 1
  {
    OneField(field, path[0]);
  }

  lemma ContainerLeaf(container: string, value: Yaml, path: seq<string>)
    requires path != [] && ReachOf([Field(EXT, Mapping([Field(container, value)]))], path).Leaf?
    ensures |path| >= 2 && path[0] == EXT && path[1] == container
    ensures if value.Mapping? then |path| >= 3 && ReachOf(value.fields, path[2..]).Leaf? else |path| == 2
  {
    OneStep(Field(EXT, Mapping([Field(container, value)])), path);
    OneStep(Field(container, value), path[1..]);
    assert value.Mapping? ==> path[1..][1..] == path[2..];
  }

  lemma BaseLeafPath(fields: seq<Field>, key: string, path: seq<string>)
    requires path != [] && ReachOf(InContainer(BASE, fields), path).Leaf?
    requires fields == [] || (|fields| == 1 && fields[0].key == key && fields[0].value.Plain?)
    ensures path == [EXT, BASE, key]
  {
    ContainerLeaf(BASE, Mapping(fields), path);
    if fields != [] {
      assert fields == [fields[0]];
      OneStep(fields[0], path[2..]);
      assert path == path[..2] + path[2..] && path[..2] == [EXT, BASE] && path[2..] == [key];
    }
  }

  /** The tree of a key at home in the extension: its container's value, or a base leaf, if any. */
  ghost predicate IsExtensionTree(tree: seq<Field>, key: string) {
    || (key in CHANNELS && exists value :: tree == [Field(EXT, Mapping([Field(ChannelContainer(key), value)]))])
    || (key !in CHANNELS && exists leaves :: IsBaseTree(tree, leaves, key))
    || tree == []
  }

  predicate IsBaseTree(tree: seq<Field>, leaves: seq<Field>, key: string) {
    tree == InContainer(BASE, leaves) &&
    (leaves == [] || (|leaves| == 1 && leaves[0].key == key && leaves[0].value.Plain?))
  }

  lemma ExtensionTree(scaffold: Entries, field: Field)
    requires Home(field.key) == EXT
    ensures IsExtensionTree(Tree(scaffold, field), field.key)
  {
    HomesAreDistinct();
    if field.key !in CHANNELS && field.value.Plain? {
      var leaf := Field(field.key, Plain(Str(BaseText(field.key, field.value.scalar))));
      assert IsBaseTree(Tree(scaffold, field), if HasBaseLeaf(scaffold, field.key) then [leaf] else [], field.key);
    }
  }

  /** The path of a leaf in the extension. */
  lemma ExtensionLeaf(tree: seq<Field>, key: string, path: seq<string>)
    requires path != [] && IsExtensionTree(tree, key) && ReachOf(tree, path).Leaf?
    ensures |path| >= 2 && path[1] == Room(key)
    ensures key !in CHANNELS ==> path == [EXT, BASE, key]
  {
    if key in CHANNELS {
      var value :| tree == [Field(EXT, Mapping([Field(ChannelContainer(key), value)]))];
      ContainerLeaf(ChannelContainer(key), value, path);
    } else {
      var leaves :| IsBaseTree(tree, leaves, key);
      BaseLeafPath(leaves, key, path);
    }
  }

  lemma OverlaidWritesIff(scaffold: Entries, fields: seq<Field>, ofh: Option<seq<Field>>)
    requires !HoldsWrite(scaffold) && IsCell(fields, ofh)
    ensures HoldsWrite(Overlaid(scaffold, fields, ofh)) <==> CellWrites(scaffold, fields, ofh)
  {
    var after, trees := Overlaid(scaffold, fields, ofh), CellTrees(scaffold, fields, ofh);
    if i :| 0 <= i < |fields| && FieldWrites(scaffold, fields[i]) {
      FieldStaysWritten(scaffold, fields, ofh, i);
    } else if ofh.Some? && HasLeaf(OfhFields(ofh.value)) {
      OfhFieldsAreKeyed(ofh.value);
      OfhOverlaid(scaffold, fields, ofh.value);
      AtTwo(scaffold, EXT, OFH);
      AtTwo(after, EXT, OFH);
      FreshInside(scaffold, EXT, OFH);
      MergeWritesIffLeaf(Inside(Inside(scaffold, EXT), OFH), OfhFields(ofh.value));
      FoundHolds(Inside(after, EXT), OFH);
      FoundHolds(after, EXT);
    } else {
      forall i | 0 <= i < |trees| ensures !HasLeaf(trees[i]) {
        CellTreeAt(scaffold, fields, ofh, i);
        if i == 0 {
          OneLeaf(EXT, Mapping([]));
        } else if i <= |fields| {
          LookupField(fields, i - 1);
          ScalarsAreScalars(fields, fields[i - 1].key);
          FieldWritesIff(scaffold, fields[i - 1]);
        } else {
          OneLeaf(OFH, Mapping(OfhFields(ofh.value)));
          OneLeaf(EXT, Mapping([Field(OFH, Mapping(OfhFields(ofh.value)))]));
        }
      }
      NothingMerged(scaffold, trees);
    }
  }

  // ----- What comes back -----

  /** The element comes back exactly when the YAML cell writes something, and then with its pruned
      attributes. */
  lemma CellComesBackIff(cell: Entries, fields: seq<Field>, ofh: Option<seq<Field>>)
    requires CompleteCell(cell) && IsCell(fields, ofh)
    ensures var built, attributes := BuiltCell(cell, fields, ofh), Inside(cell, ATTRIBUTES);
            && (built.Some? <==> CellWrites(attributes, fields, ofh))
            && (built.Some? ==> Inside(built.value, ATTRIBUTES) == Config(attributes, fields, ofh))
  {
    var attributes := Inside(cell, ATTRIBUTES);
    var after := Overlaid(attributes, fields, ofh);
    var overlaid := OverlaidCell(cell, fields, ofh);
    CellName();
    FoundHolds(cell, ATTRIBUTES);
    OverlaidWritesIff(attributes, fields, ofh);
    GetReplaced(cell, ATTRIBUTES, after, ATTRIBUTES);
    GetReplaced(cell, ATTRIBUTES, after, "id");
    ReplacedHoldsIff(cell, after);
    ReplacedIsWellKeyed(cell, fields, ofh);
    GetPruned(overlaid, false, ATTRIBUTES);
  }

  lemma ReplacedHoldsIff(cell: Entries, after: Entries)
    requires !HoldsWrite(cell)
    ensures HoldsWrite(Replace(cell, ATTRIBUTES, after)) <==> HoldsWrite(after)
  {
    FoundHolds(cell, ATTRIBUTES);
    GetReplaced(cell, ATTRIBUTES, after, ATTRIBUTES);
    FoundHolds(Replace(cell, ATTRIBUTES, after), ATTRIBUTES);
    if !HoldsWrite(after) {
      PutUnwritten(cell, Child(ATTRIBUTES, false, Object(after)));
    }
  }

  lemma ReplacedIsWellKeyed(cell: Entries, fields: seq<Field>, ofh: Option<seq<Field>>)
    requires CompleteCell(cell)
    ensures WellKeyed(OverlaidCell(cell, fields, ofh))
  {
    var attributes := Inside(cell, ATTRIBUTES);
    var existing := Get(cell, ATTRIBUTES);
    MergeAllKeepsWellKeyed(attributes, CellTrees(attributes, fields, ofh));
    PutKeepsWellKeyed(cell, Child(ATTRIBUTES, existing.value.written, Object(Overlaid(attributes, fields, ofh))));
  }

  /** What the projection reads of the element in the configuration: None when the element is gone. */
  function ProjectedCell(cell: Entries, fields: seq<Field>, ofh: Option<seq<Field>>, key: string): Option<Value> {
    var built := BuiltCell(cell, fields, ofh);
    if built.None? then None else Projected(Inside(built.value, ATTRIBUTES), key)
  }

  /** A standard attribute of a cell that writes something comes back as the YAML's text, or as the scaffold
      has it; a cell that writes nothing does not come back. */
  lemma StandardAttributeComesBack(cell: Entries, fields: seq<Field>, ofh: Option<seq<Field>>, key: string)
    requires CompleteCell(cell) && IsCell(fields, ofh) && key in ATTRS
    ensures var attributes, value := Inside(cell, ATTRIBUTES), Lookup(fields, key);
            ProjectedCell(cell, fields, ofh, key) ==
            if !CellWrites(attributes, fields, ofh) then None
            else if value.None? then Some(Element(Get(attributes, ATTRS[key]).value.node))
            else if value.value.Plain? then Some(Element(Text(ScalarText(value.value.scalar))))
            else None
  {
    CellComesBackIff(cell, fields, ofh);
    StandardAttributeProjected(Inside(cell, ATTRIBUTES), fields, ofh, key);
  }

  /** Likewise whether it is enabled. */
  lemma EnabledComesBack(cell: Entries, fields: seq<Field>, ofh: Option<seq<Field>>)
    requires CompleteCell(cell) && IsCell(fields, ofh)
    ensures var attributes, value := Inside(cell, ATTRIBUTES), Lookup(fields, "enabled");
            ProjectedCell(cell, fields, ofh, "enabled") ==
            if !CellWrites(attributes, fields, ofh) then None
            else Some(Flag(if value.Some? then Truthy(value.value) else Enabled(attributes)))
  {
    CellComesBackIff(cell, fields, ofh);
    EnabledProjected(Inside(cell, ATTRIBUTES), fields, ofh);
  }

  /** Likewise its PLMN, when it is a string of at least four characters; otherwise the scaffold's. */
  lemma PlmnComesBack(cell: Entries, fields: seq<Field>, ofh: Option<seq<Field>>)
    requires CompleteCell(cell) && IsCell(fields, ofh)
    ensures var attributes, plmn := Inside(cell, ATTRIBUTES), Lookup(fields, "plmn");
            ProjectedCell(cell, fields, ofh, "plmn") ==
            if !CellWrites(attributes, fields, ofh) then None
            else if plmn.Some? && plmn.value.Plain? && plmn.value.scalar.Str? && |plmn.value.scalar.s| >= 4
            then Some(Element(Text(plmn.value.scalar.s)))
            else Projected(attributes, "plmn")
  {
    CellComesBackIff(cell, fields, ofh);
    PlmnProjected(Inside(cell, ATTRIBUTES), fields, ofh);
  }

  /** A cell whose only key is a PLMN the loader mangled to a number is dropped whole. */
  lemma MangledPlmnDropsCell(cell: Entries, plmn: int)
    requires CompleteCell(cell)
    ensures BuiltCell(cell, [Field("plmn", Plain(Int(plmn)))], None) == None
  {
    var fields := [Field("plmn", Plain(Int(plmn)))];
    OneField(fields[0], "plmn");
    assert fields[1..] == [];
    CellComesBackIff(cell, fields, None);
  }
}
