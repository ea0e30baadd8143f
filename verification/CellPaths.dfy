/** Which part of the tree each key of a YAML cell reaches, and what of it outlives the pruning. */
module CellPaths {
  import opened Options
  import OrderedDict
  import opened ConfigTree
  import opened PruneLaws
  import opened YamlMerge
  import opened CellOverlay
  import opened CellProjection

  // ----- Merging many trees -----

  predicate Off(tree: seq<Field>, path: seq<string>)
    requires path != []
  {
    Keyed(tree) && ReachOf(tree, path) == Outside
  }

  predicate Through(tree: seq<Field>, path: seq<string>)
    requires path != []
  {
    Keyed(tree) && (ReachOf(tree, path).Outside? || ReachOf(tree, path).Inner?)
  }

  predicate AllOff(trees: seq<seq<Field>>, path: seq<string>)
    requires path != []
  {
    forall i :: 0 <= i < |trees| ==> Off(trees[i], path)
  }

  predicate OthersOff(trees: seq<seq<Field>>, i: nat, path: seq<string>)
    requires path != []
  {
    forall j :: 0 <= j < |trees| && j != i ==> Off(trees[j], path)
  }

  predicate AllThrough(trees: seq<seq<Field>>, path: seq<string>)
    requires path != []
  {
    forall i :: 0 <= i < |trees| ==> Through(trees[i], path)
  }

  lemma {:induction false} Stays(entries: Entries, trees: seq<seq<Field>>, path: seq<string>)
    requires path != [] && AllOff(trees, path)
    ensures At(MergeAll(entries, trees), path) == At(entries, path)
    decreases trees
  {
    if trees != [] {
      assert Off(trees[0], path);
      MergeIsLawful(entries, trees[0], path);
      assert forall i :: 0 <= i < |trees[1..]| ==> trees[1..][i] == trees[i + 1];
      Stays(MergeFields(entries, trees[0]), trees[1..], path);
    }
  }

  /** The value a tree has at a path it reaches. */
  function Reached(tree: seq<Field>, path: seq<string>): Option<Yaml>
    requires path != []
  {
    match ReachOf(tree, path)
    case Inner(fields) => Some(Mapping(fields))
    case Leaf(value) => Some(value)
    case _ => None
  }

  lemma {:induction false} Lands(entries: Entries, trees: seq<seq<Field>>, i: nat, path: seq<string>, value: Yaml)
    requires path != [] && i < |trees| && OthersOff(trees, i, path)
    requires Keyed(trees[i]) && Reached(trees[i], path) == Some(value)
    ensures At(MergeAll(entries, trees), path) == Some(Merged(path[|path| - 1], At(entries, path), value))
    decreases trees
  {
    MergeIsLawful(entries, trees[0], path);
    assert forall j :: 0 <= j < |trees[1..]| ==> trees[1..][j] == trees[j + 1];
    if i == 0 {
      Stays(MergeFields(entries, trees[0]), trees[1..], path);
    } else {
      Lands(MergeFields(entries, trees[0]), trees[1..], i - 1, path, value);
    }
  }

  lemma {:induction false} MarkStays(entries: Entries, trees: seq<seq<Field>>, path: seq<string>)
    requires path != [] && AllThrough(trees, path)
    ensures Marked(MergeAll(entries, trees), path) <==> Marked(entries, path)
    ensures ElementOrAbsent(At(entries, path)) ==> ElementOrAbsent(At(MergeAll(entries, trees), path))
    ensures At(entries, path).Some? ==> At(MergeAll(entries, trees), path).Some?
    decreases trees
  {
    if trees != [] {
      assert Through(trees[0], path);
      MergeIsLawful(entries, trees[0], path);
      assert forall i :: 0 <= i < |trees[1..]| ==> trees[1..][i] == trees[i + 1];
      MarkStays(MergeFields(entries, trees[0]), trees[1..], path);
    }
  }

  lemma {:induction false} MergeAllKeepsWellKeyed(entries: Entries, trees: seq<seq<Field>>)
    requires WellKeyed(entries)
    ensures WellKeyed(MergeAll(entries, trees))
    decreases trees
  {
    if trees != [] {
      MergeKeepsWellKeyed(entries, trees[0]);
      MergeAllKeepsWellKeyed(MergeFields(entries, trees[0]), trees[1..]);
    }
  }

  // ----- Two and three names -----

  lemma AtTwo(entries: Entries, a: string, b: string)
    ensures At(entries, [a, b]) == Get(Inside(entries, a), b)
  {
    assert [a, b][1..] == [b];
  }

  lemma AtThree(entries: Entries, a: string, b: string, c: string)
    ensures At(entries, [a, b, c]) == Get(Inside(Inside(entries, a), b), c)
  {
    assert [a, b, c][1..] == [b, c];
    AtTwo(Inside(entries, a), b, c);
  }

  lemma ReachTwo(tree: seq<Field>, a: string, b: string)
    ensures ReachOf(tree, [a, b]) ==
            var value := Lookup(tree, a);
            if value.None? then Outside
            else if value.value.Mapping? then ReachOf(value.value.fields, [b])
            else Beneath
  {
    assert [a, b][1..] == [b];
  }

  lemma ReachThree(tree: seq<Field>, a: string, b: string, c: string)
    ensures ReachOf(tree, [a, b, c]) ==
            var value := Lookup(tree, a);
            if value.None? then Outside
            else if value.value.Mapping? then ReachOf(value.value.fields, [b, c])
            else Beneath
  {
    assert [a, b, c][1..] == [b, c];
  }

  // ----- Pruning below the extension -----

  /** Before the overlay, no child carries or holds a write. */
  lemma FreshInside(entries: Entries, a: string, b: string)
    requires !HoldsWrite(entries)
    ensures !HoldsWrite(Inside(entries, a)) && !HoldsWrite(Inside(Inside(entries, a), b))
    ensures !Marked(entries, [a]) && !Marked(entries, [a, b])
  {
    FoundHolds(entries, a);
    FoundHolds(Inside(entries, a), b);
    AtTwo(entries, a, b);
  }

  lemma FreshIsDropped(child: Child)
    requires !child.written && !NodeHoldsWrite(child.node) && !AlwaysKept(child.key)
    ensures PruneChild(child, true) == None
  {
  }

  lemma {:induction false} FoundKey(entries: Entries, key: string)
    ensures Get(entries, key).Some? ==> Get(entries, key).value.key == key
  {
    if entries != [] && entries[0].key != key {
      FoundKey(entries[1..], key);
    }
  }

  /** An unmarked container is pruned as an extension: kept, with what was written in it, exactly when
      something was. */
  lemma ContainerPruned(attributes: Entries, container: string)
    requires WellKeyed(attributes) && !AlwaysKept(container)
    requires !Marked(attributes, [EXT]) && !Marked(attributes, [EXT, container])
    requires ElementOrAbsent(Get(Inside(attributes, EXT), container))
    ensures var child, leaves := Get(Inside(attributes, EXT), container), Inside(Inside(attributes, EXT), container);
            Get(Inside(Prune(attributes, false), EXT), container)
            == if HoldsWrite(leaves) then Some(child.value.(node := Object(Prune(leaves, true)))) else None
  {
    AtTwo(attributes, EXT, container);
    var ext := Inside(attributes, EXT);
    InsideIsWellKeyed(attributes, EXT);
    FoundHolds(ext, container);
    FoundKey(attributes, EXT);
    FoundKey(ext, container);
    GetPruned(attributes, false, EXT);
    GetPruned(ext, true, container);
    ExtensionName();
  }

  lemma ExtensionName()
    ensures StartsWith(EXT, OCUDU_PREFIX) && !AlwaysKept(EXT)
  {
    assert EXT[..6] == OCUDU_PREFIX;
    assert |EXT| == 25 && EXT[0] == 'o';
  }

  lemma ContainerName(name: string)
    ensures !AlwaysKept(Container(name))
  {
    assert Container(name)[0] == 'o';
    assert |Container(name)| >= 26;
  }

  // ----- Which tree reaches which path -----

  /** The attribute a YAML key lands in or under. */
  function Home(key: string): string {
    if key in ATTRS then ATTRS[key] else if key == "enabled" then STATE else if key == "plmn" then PLMN else EXT
  }

  /** The extension container a YAML key lands in, for keys at home there. */
  function Room(key: string): string {
    if key in CHANNELS then ChannelContainer(key) else BASE
  }

  lemma OneField(field: Field, key: string)
    ensures Lookup([field], key) == if key == field.key then Some(field.value) else None
    ensures KeyedValue(field.value) ==> Keyed([field])
  {
    assert [field][1..] == [];
  }

  lemma TreeIsKeyed(scaffold: Entries, field: Field)
    requires KeyedValue(field.value)
    ensures Keyed(Tree(scaffold, field))
  {
    var tree := Tree(scaffold, field);
    if tree != [] {
      if field.key == "plmn" {
        var parts := tree[0].value.fields;
        assert "mcc"[1] != "mnc"[1];
        OneField(parts[1], "mcc");
        assert parts[1..] == [parts[1]];
        assert KeyedValue(parts[0].value) && Keyed([parts[1]]);
        assert Keyed(parts);
      } else if tree[0].key == EXT {
        var inner := tree[0].value.fields[0];
        if field.key !in CHANNELS && HasBaseLeaf(scaffold, field.key) {
          OneField(Field(field.key, Plain(Str(BaseText(field.key, field.value.scalar)))), EXT);
        }
        OneField(inner, EXT);
        assert KeyedValue(inner.value);
      }
      assert KeyedValue(tree[0].value);
      OneField(tree[0], EXT);
    }
  }

  lemma ContainerIsKeyed(container: string, fields: seq<Field>, name: string)
    requires Keyed(fields)
    ensures Keyed(InContainer(container, fields))
    ensures Lookup(InContainer(container, fields), EXT) == Some(Mapping([Field(container, Mapping(fields))]))
    ensures name != EXT ==> Lookup(InContainer(container, fields), name) == None
    ensures Lookup([Field(container, Mapping(fields))], name) ==
            if name == container then Some(Mapping(fields)) else None
  {
    var inner := Field(container, Mapping(fields));
    assert KeyedValue(inner.value);
    OneField(inner, name);
    OneField(InContainer(container, fields)[0], EXT);
    OneField(InContainer(container, fields)[0], name);
  }

  /** The tree of a key, seen from its first name. */
  lemma TreeLookup(scaffold: Entries, field: Field, name: string)
    ensures var tree := Tree(scaffold, field);
            tree != [] ==> tree == [tree[0]] && tree[0].key == Home(field.key)
    ensures name != Home(field.key) ==> Lookup(Tree(scaffold, field), name) == None
    ensures var value := Lookup(Tree(scaffold, field), EXT);
            value.Some? ==> value.value.Mapping? && |value.value.fields| == 1 &&
                            value.value.fields[0].key == Room(field.key) && Home(field.key) == EXT
    ensures name != Room(field.key) ==>
              var value := Lookup(Tree(scaffold, field), EXT);
              value.Some? ==> Lookup(value.value.fields, name) == None
  {
    var tree := Tree(scaffold, field);
    HomesAreDistinct();
    if tree != [] {
      OneField(tree[0], name);
      OneField(tree[0], EXT);
      if tree[0].key == EXT {
        OneField(tree[0].value.fields[0], name);
      }
    }
  }

  lemma OffHome(scaffold: Entries, field: Field, path: seq<string>)
    requires path != [] && KeyedValue(field.value) && path[0] != Home(field.key)
    ensures Off(Tree(scaffold, field), path)
  {
    TreeIsKeyed(scaffold, field);
    TreeLookup(scaffold, field, path[0]);
  }

  lemma OffRoom(scaffold: Entries, field: Field, path: seq<string>)
    requires |path| >= 2 && KeyedValue(field.value) && path[0] == EXT && path[1] != Room(field.key)
    ensures Off(Tree(scaffold, field), path)
  {
    TreeIsKeyed(scaffold, field);
    TreeLookup(scaffold, field, path[1]);
    assert path[1..][0] == path[1];
  }

  lemma OffBase(scaffold: Entries, field: Field, key: string)
    requires KeyedValue(field.value) && field.key != key
    ensures Off(Tree(scaffold, field), [EXT, BASE, key])
  {
    TreeIsKeyed(scaffold, field);
    TreeLookup(scaffold, field, BASE);
    ContainersAreDistinct(field.key);
    var tree := Tree(scaffold, field);
    ReachThree(tree, EXT, BASE, key);
    var value := Lookup(tree, EXT);
    if value.Some? {
      OneField(tree[0], EXT);
      ReachTwo(value.value.fields, BASE, key);
      OneField(value.value.fields[0], BASE);
      if field.key !in CHANNELS && HasBaseLeaf(scaffold, field.key) {
        OneField(Field(field.key, Plain(Str(BaseText(field.key, field.value.scalar)))), key);
      }
    }
  }

  lemma {:induction false} TreeAt(scaffold: Entries, fields: seq<Field>, i: nat)
    requires i < |fields|
    ensures |Trees(scaffold, fields)| == |fields| && Trees(scaffold, fields)[i] == Tree(scaffold, fields[i])
  {
    if |fields| > 1 {
      TreeAt(scaffold, fields[1..], if i > 0 then i - 1 else 0);
    }
  }

  /** The trees of a cell: the empty extension, one for each key, and the OFH counterpart. */
  lemma CellTreeAt(scaffold: Entries, fields: seq<Field>, ofh: Option<seq<Field>>, i: nat)
    requires i < |CellTrees(scaffold, fields, ofh)|
    ensures var tree := CellTrees(scaffold, fields, ofh)[i];
            if i == 0 then tree == [Field(EXT, Mapping([]))]
            else if i <= |fields| then tree == Tree(scaffold, fields[i - 1])
            else ofh.Some? && i == |fields| + 1 && tree == InContainer(OFH, OfhFields(ofh.value))
    ensures |CellTrees(scaffold, fields, ofh)| == 1 + |fields| + if ofh.Some? then 1 else 0
  {
    if fields != [] {
      TreeAt(scaffold, fields, if 1 <= i <= |fields| then i - 1 else 0);
    }
  }

  lemma {:induction false} OfhFieldsAreKeyed(fields: seq<Field>)
    requires Keyed(fields)
    ensures Keyed(OfhFields(fields))
  {
    if fields != [] {
      OfhFieldsAreKeyed(fields[1..]);
      LookupOfh(fields[1..], fields[0].key);
      assert OfhFields(fields)[1..] == OfhFields(fields[1..]);
    }
  }

  lemma {:induction false} LookupOfh(fields: seq<Field>, key: string)
    ensures Lookup(OfhFields(fields), key) ==
            var value := Lookup(fields, key); if value.Some? then Some(OfhValue(key, value.value)) else None
  {
    if fields != [] {
      LookupOfh(fields[1..], key);
      assert OfhFields(fields)[1..] == OfhFields(fields[1..]);
    }
  }

  lemma {:induction false} IndexOf(fields: seq<Field>, key: string) returns (i: nat)
    requires Keyed(fields) && Lookup(fields, key).Some?
    ensures i < |fields| && fields[i] == Field(key, Lookup(fields, key).value)
    ensures forall j :: 0 <= j < |fields| && j != i ==> fields[j].key != key
  {
    if fields[0].key == key {
      i := 0;
      AbsentField(fields[1..], key);
    } else {
      var rest := IndexOf(fields[1..], key);
      i := rest + 1;
    }
    assert forall j :: 1 <= j < |fields| ==> fields[j] == fields[1..][j - 1];
  }

  lemma {:induction false} AbsentField(fields: seq<Field>, key: string)
    requires Lookup(fields, key).None?
    ensures forall j :: 0 <= j < |fields| ==> fields[j].key != key
  {
    if fields != [] {
      AbsentField(fields[1..], key);
      assert forall j :: 1 <= j < |fields| ==> fields[j] == fields[1..][j - 1];
    }
  }

  // ----- What the overlay leaves at a path -----

  /** A YAML cell and, where it has one, its OFH counterpart: dictionaries, with scalars for the standard
      attributes. */
  predicate IsCell(fields: seq<Field>, ofh: Option<seq<Field>>) {
    Keyed(fields) && ScalarAttributes(fields) && (ofh.Some? ==> Keyed(ofh.value))
  }

  /** No key but one reaches a path. */
  ghost predicate OnlyKey(scaffold: Entries, fields: seq<Field>, path: seq<string>, key: string)
    requires path != []
  {
    forall i :: 0 <= i < |fields| && fields[i].key != key ==> Off(Tree(scaffold, fields[i]), path)
  }

  lemma AtOverlaid(scaffold: Entries, fields: seq<Field>, ofh: Option<seq<Field>>, path: seq<string>, key: string)
    requires path != [] && IsCell(fields, ofh) && OnlyKey(scaffold, fields, path, key)
    requires path[0] != EXT || (|path| >= 2 && path[1] != OFH)
    ensures var value := Lookup(fields, key);
            var reach := if value.Some? then ReachOf(Tree(scaffold, Field(key, value.value)), path) else Outside;
            var before, after := At(scaffold, path), At(Overlaid(scaffold, fields, ofh), path);
            (reach.Outside? ==> after == before) &&
            (reach.Leaf? ==> after == Some(Merged(path[|path| - 1], before, reach.value))) &&
            (reach.Inner? ==> after == Some(Merged(path[|path| - 1], before, Mapping(reach.fields))))
  {
    var trees := CellTrees(scaffold, fields, ofh);
    forall i | 0 <= i < |trees| && !(1 <= i <= |fields| && fields[i - 1].key == key) ensures Off(trees[i], path) {
      CellTreeAt(scaffold, fields, ofh, i);
      if i == 0 || i > |fields| {
        OneField(trees[i][0], path[0]);
        if |path| >= 2 {
          assert path[1..][0] == path[1];
        }
        if i > |fields| {
          OfhFieldsAreKeyed(ofh.value);
          ContainerIsKeyed(OFH, OfhFields(ofh.value), path[0]);
          if |path| >= 2 {
            ContainerIsKeyed(OFH, OfhFields(ofh.value), path[1]);
          }
        }
      } else {
        assert OnlyKey(scaffold, fields, path, key);
      }
    }
    CellTreeAt(scaffold, fields, ofh, 0);
    if Lookup(fields, key).None? {
      AbsentField(fields, key);
      Stays(scaffold, trees, path);
    } else {
      var i := IndexOf(fields, key);
      CellTreeAt(scaffold, fields, ofh, i + 1);
      LookupField(fields, i);
      TreeIsKeyed(scaffold, fields[i]);
      var reach := ReachOf(trees[i + 1], path);
      if reach.Outside? {
        Stays(scaffold, trees, path);
      } else if reach.Leaf? {
        Lands(scaffold, trees, i + 1, path, reach.value);
      } else if reach.Inner? {
        Lands(scaffold, trees, i + 1, path, Mapping(reach.fields));
      }
    }
  }

  lemma FieldPasses(scaffold: Entries, field: Field)
    requires KeyedValue(field.value)
    ensures Through(Tree(scaffold, field), [EXT])
    ensures Through(Tree(scaffold, field), [PLMN])
    ensures Through(Tree(scaffold, field), [EXT, BASE])
  {
    var tree := Tree(scaffold, field);
    TreeIsKeyed(scaffold, field);
    TreeLookup(scaffold, field, PLMN);
    HomesAreDistinct();
    ContainersAreDistinct(field.key);
    ReachTwo(tree, EXT, BASE);
    if tree != [] {
      OneField(tree[0], PLMN);
      OneField(tree[0], EXT);
      if tree[0].key == EXT {
        OneField(tree[0].value.fields[0], BASE);
      }
    }
  }

  lemma ContainerPasses(container: string, fields: seq<Field>)
    requires Keyed(fields)
    ensures Through(InContainer(container, fields), [EXT])
    ensures Through(InContainer(container, fields), [PLMN])
    ensures Through(InContainer(container, fields), [EXT, container])
    ensures container != BASE ==> Off(InContainer(container, fields), [EXT, BASE])
  {
    HomesAreDistinct();
    ContainerIsKeyed(container, fields, PLMN);
    ContainerIsKeyed(container, fields, BASE);
    ContainerIsKeyed(container, fields, container);
    ReachTwo(InContainer(container, fields), EXT, container);
    ReachTwo(InContainer(container, fields), EXT, BASE);
  }

  lemma BlankPasses()
    ensures Through([Field(EXT, Mapping([]))], [EXT])
    ensures Through([Field(EXT, Mapping([]))], [PLMN])
    ensures forall name :: Off([Field(EXT, Mapping([]))], [EXT, name])
  {
    HomesAreDistinct();
    OneField(Field(EXT, Mapping([])), EXT);
    OneField(Field(EXT, Mapping([])), PLMN);
    forall name { ReachTwo([Field(EXT, Mapping([]))], EXT, name); }
  }

  lemma CellPasses(scaffold: Entries, fields: seq<Field>, ofh: Option<seq<Field>>, i: nat)
    requires IsCell(fields, ofh) && i < |CellTrees(scaffold, fields, ofh)|
    ensures var tree := CellTrees(scaffold, fields, ofh)[i];
            Through(tree, [EXT]) && Through(tree, [PLMN]) && Through(tree, [EXT, BASE])
  {
    CellTreeAt(scaffold, fields, ofh, i);
    if i == 0 {
      BlankPasses();
    } else if i <= |fields| {
      LookupField(fields, i - 1);
      FieldPasses(scaffold, fields[i - 1]);
    } else {
      OfhFieldsAreKeyed(ofh.value);
      ContainersAreDistinct("ssb");
      ContainerPasses(OFH, OfhFields(ofh.value));
    }
  }

  lemma ExtensionStaysUnmarked(scaffold: Entries, fields: seq<Field>, ofh: Option<seq<Field>>)
    requires IsCell(fields, ofh) && !HoldsWrite(scaffold)
    ensures var after := Overlaid(scaffold, fields, ofh);
            !Marked(after, [EXT]) && !Marked(after, [EXT, BASE]) && !Marked(after, [PLMN]) &&
            (HasPlmn(scaffold) ==> HasPlmn(after)) &&
            (ElementOrAbsent(At(scaffold, [EXT, BASE])) ==> ElementOrAbsent(At(after, [EXT, BASE])))
  {
    var trees := CellTrees(scaffold, fields, ofh);
    forall i | 0 <= i < |trees|
      ensures Through(trees[i], [EXT]) && Through(trees[i], [PLMN]) && Through(trees[i], [EXT, BASE])
    {
      CellPasses(scaffold, fields, ofh, i);
    }
    MarkStays(scaffold, trees, [EXT]);
    MarkStays(scaffold, trees, [EXT, BASE]);
    MarkStays(scaffold, trees, [PLMN]);
    FreshInside(scaffold, EXT, BASE);
    FreshInside(scaffold, PLMN, BASE);
  }
}
