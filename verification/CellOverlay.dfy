/** A YAML cell laid over an NRCellDU element of the scaffold: where each of its keys lands, and in what
    form. */
module CellOverlay {
  import opened Options
  import opened ConfigTree
  import opened YamlMerge

  // ----- Names -----

  const EXT := "ocudu_nrcelldu_extensions"
  const PLMN := "pLMNInfoList"
  const STATE := "administrativeState"

  /** YAML keys copied to a standard attribute. */
  const ATTRS: map<string, string> := map[
    "pci" := "nRPCI",
    "tac" := "nRTAC",
    "dl_arfcn" := "arfcnDL",
    "channel_bandwidth_MHz" := "bSChannelBwDL"
  ]

  /** YAML keys with an extension container of their own. */
  const CHANNELS: set<string> := {
    "ssb", "prach", "tdd_ul_dl_cfg", "pdsch", "pusch", "pucch", "csi", "srs", "pdcch", "paging", "drx",
    "mac_cell_group", "sib"
  }

  function Container(name: string): string {
    "ocudu_nrcelldu_" + name + "_extensions"
  }

  function ShortName(channel: string): string {
    if channel == "tdd_ul_dl_cfg" then "tdd" else channel
  }

  function ChannelContainer(channel: string): string {
    Container(ShortName(channel))
  }

  const BASE := Container("base")
  const OFH := Container("ofh")

  // ----- Values -----

  function SplitPlmn(value: Yaml): Option<(string, string)> {
    if value.Plain? && value.scalar.Str? && |value.scalar.s| >= 4
    then Some((value.scalar.s[..3], value.scalar.s[3..]))
    else None
  }

  /** The value as a condition: false, zero and anything empty are not. */
  predicate Truthy(value: Yaml) {
    match value
    case Plain(Bool(b)) => b
    case Plain(Int(n)) => n != 0
    case Plain(Str(s)) => s != ""
    case Mapping(fields) => fields != []
    case Records(records) => records != []
    case Listing(scalars) => scalars != []
  }

  predicate Contains(s: string, word: string) {
    StartsWith(s, word) || (s != "" && Contains(s[1..], word))
  }

  /** Text as formatted into a larger string, which spells truth values their own way. */
  function Formatted(scalar: Scalar): string {
    match scalar
    case Bool(b) => if b then "True" else "False"
    case _ => ScalarText(scalar)
  }

  function BaseText(key: string, scalar: Scalar): string {
    if Contains(key, "scs") then "KHZ_" + Formatted(scalar) else ScalarText(scalar)
  }

  function Lower(s: string): string {
    if s == "" then "" else [if 'A' <= s[0] <= 'Z' then s[0] + 32 as char else s[0]] + Lower(s[1..])
  }

  predicate MeansTrue(value: Yaml) {
    value.Plain? && Lower(ScalarText(value.scalar)) == "true"
  }

  function OfhValue(key: string, value: Yaml): Yaml {
    if Contains(key, "compr_method") && value == Plain(Str("bfp")) then Plain(Str("BLOCK_FLOATING_POINT"))
    else if Contains(key, "static_compr_hdr") then Plain(Str(if MeansTrue(value) then "STATIC" else "DYNAMIC"))
    else value
  }

  function OfhFields(fields: seq<Field>): seq<Field> {
    if fields == [] then []
    else [Field(fields[0].key, OfhValue(fields[0].key, fields[0].value))] + OfhFields(fields[1..])
  }

  // ----- Where a key lands -----

  function Inside(entries: Entries, key: string): Entries {
    Under(Get(entries, key))
  }

  predicate HasBaseLeaf(attributes: Entries, key: string) {
    Get(Inside(Inside(attributes, EXT), BASE), key).Some?
  }

  predicate HasPlmn(attributes: Entries) {
    Get(attributes, PLMN).Some? && Get(attributes, PLMN).value.node.Object?
  }

  function InContainer(container: string, fields: seq<Field>): seq<Field> {
    [Field(EXT, Mapping([Field(container, Mapping(fields))]))]
  }

  /** What one key of the YAML cell amounts to: a tree merged onto the attributes. */
  function Tree(scaffold: Entries, field: Field): seq<Field> {
    var Field(key, value) := field;
    if key in ATTRS then [Field(ATTRS[key], value)]
    else if key == "enabled" then [Field(STATE, Plain(Str(if Truthy(value) then "UNLOCKED" else "LOCKED")))]
    else if key == "plmn" then
      var split := SplitPlmn(value);
      if split.Some? && HasPlmn(scaffold)
      then [Field(PLMN, Mapping([Field("mcc", Plain(Str(split.value.0))), Field("mnc", Plain(Str(split.value.1)))]))]
      else []
    else if key in CHANNELS then [Field(EXT, Mapping([Field(ChannelContainer(key), value)]))]
    else if value.Plain? then
      InContainer(BASE, if HasBaseLeaf(scaffold, key) then [Field(key, Plain(Str(BaseText(key, value.scalar))))] else [])
    else []
  }

  function Trees(scaffold: Entries, fields: seq<Field>): seq<seq<Field>> {
    if fields == [] then [] else [Tree(scaffold, fields[0])] + Trees(scaffold, fields[1..])
  }

  /** All that is merged for a cell and its OFH counterpart, in order. */
  function CellTrees(scaffold: Entries, fields: seq<Field>, ofh: Option<seq<Field>>): seq<seq<Field>> {
    [[Field(EXT, Mapping([]))]] + Trees(scaffold, fields)
    + if ofh.Some? then [InContainer(OFH, OfhFields(ofh.value))] else []
  }

  function MergeAll(entries: Entries, trees: seq<seq<Field>>): Entries
    decreases trees
  {
    if trees == [] then entries else MergeAll(MergeFields(entries, trees[0]), trees[1..])
  }

  function Overlaid(scaffold: Entries, fields: seq<Field>, ofh: Option<seq<Field>>): Entries {
    MergeAll(scaffold, CellTrees(scaffold, fields, ofh))
  }

  // ----- The overlay as the source runs it -----

  predicate ElementOrAbsent(child: Option<Child>) {
    child.Some? ==> child.value.node.Object?
  }

  /** The extension, its base container and its OFH container are elements where the scaffold has them. */
  predicate Overlayable(attributes: Entries) {
    ElementOrAbsent(Get(attributes, EXT)) &&
    ElementOrAbsent(Get(Inside(attributes, EXT), BASE)) &&
    ElementOrAbsent(Get(Inside(attributes, EXT), OFH))
  }

  predicate ScalarAttributes(fields: seq<Field>) {
    fields != [] ==> (fields[0].key in ATTRS ==> fields[0].value.Plain?) && ScalarAttributes(fields[1..])
  }

  /** Assigns the content of an element, keeping its mark. */
  function Replace(entries: Entries, key: string, children: Entries): Entries {
    var existing := Get(entries, key);
    Put(entries, Child(key, existing.Some? && existing.value.written, Object(children)))
  }

  function Assign(entries: Entries, key: string, text: string): Entries {
    Put(entries, Child(key, true, Text(text)))
  }

  method OverlayField(scaffold: Entries, attributes: Entries, field: Field) returns (r: Entries)
    requires SameShape(scaffold, attributes) && (field.key in ATTRS ==> field.value.Plain?)
    ensures r == MergeFields(attributes, Tree(scaffold, field))
  {
    var Field(key, value) := field;
    ghost var tree := Tree(scaffold, field);
    if tree != [] {
      assert tree == [tree[0]];
      MergeOne(attributes, tree[0]);
    }
    r := attributes;
    if key in ATTRS {
      r := Assign(r, ATTRS[key], ScalarText(value.scalar));
    } else if key == "enabled" {
      r := Assign(r, STATE, if Truthy(value) then "UNLOCKED" else "LOCKED");
    } else if key == "plmn" {
      var split := SplitPlmn(value);
      if split.Some? && HasPlmn(r) {
        var info := Assign(Inside(r, PLMN), "mcc", split.value.0);
        info := Assign(info, "mnc", split.value.1);
        MergeTwo(Inside(r, PLMN), tree[0].value.fields);
        r := Replace(r, PLMN, info);
      }
    } else if key in CHANNELS {
      var ext := Merge(Inside(r, EXT), ChannelContainer(key), value);
      MergeOne(Inside(r, EXT), tree[0].value.fields[0]);
      r := Replace(r, EXT, ext);
    } else if value.Plain? {
      var ext := Inside(r, EXT);
      var base := Inside(ext, BASE);
      assert Get(base, key).Some? <==> HasBaseLeaf(scaffold, key) by {
        assert HasBaseLeaf(r, key) <==> Get(base, key).Some?;
      }
      if Get(base, key).Some? {
        MergeOne(base, Field(key, Plain(Str(BaseText(key, value.scalar)))));
        base := Assign(base, key, BaseText(key, value.scalar));
      }
      MergeOne(ext, tree[0].value.fields[0]);
      r := Replace(r, EXT, Replace(ext, BASE, base));
    }
  }

  lemma MergeTwo(entries: Entries, fields: seq<Field>)
    requires |fields| == 2 && fields[0].value.Plain? && fields[1].value.Plain?
    ensures MergeFields(entries, fields)
         == Assign(Assign(entries, fields[0].key, ScalarText(fields[0].value.scalar)),
                   fields[1].key, ScalarText(fields[1].value.scalar))
  {
    assert fields[1..] == [fields[1]];
    MergeOne(Assign(entries, fields[0].key, ScalarText(fields[0].value.scalar)), fields[1]);
  }

  method OverlayOfh(attributes: Entries, ofh: seq<Field>) returns (r: Entries)
    requires Overlayable(attributes)
    ensures r == MergeFields(attributes, InContainer(OFH, OfhFields(ofh)))
  {
    var ext := Inside(attributes, EXT);
    var container := Inside(ext, OFH);
    for i := 0 to |ofh|
      invariant MergeFields(container, OfhFields(ofh[i..])) == MergeFields(Inside(ext, OFH), OfhFields(ofh))
    {
      assert ofh[i..][1..] == ofh[i + 1..];
      assert OfhFields(ofh[i..])[1..] == OfhFields(ofh[i + 1..]);
      var Field(key, value) := ofh[i];
      if Contains(key, "compr_method") && value == Plain(Str("bfp")) {
        value := Plain(Str("BLOCK_FLOATING_POINT"));
      } else if Contains(key, "static_compr_hdr") {
        value := Plain(Str(if MeansTrue(value) then "STATIC" else "DYNAMIC"));
      }
      container := Merge(container, key, value);
    }
    r := Replace(attributes, EXT, Replace(ext, OFH, container));
    MergeOne(ext, Field(OFH, Mapping(OfhFields(ofh))));
    MergeOne(attributes, InContainer(OFH, OfhFields(ofh))[0]);
  }

  method OverlayFields(scaffold: Entries, attributes: Entries, fields: seq<Field>) returns (r: Entries)
    requires SameShape(scaffold, attributes) && ScalarAttributes(fields)
    ensures r == MergeAll(attributes, Trees(scaffold, fields)) && SameShape(scaffold, r)
  {
    r := attributes;
    for i := 0 to |fields|
      invariant SameShape(scaffold, r) && ScalarAttributes(fields[i..])
      invariant MergeAll(r, Trees(scaffold, fields[i..])) == MergeAll(attributes, Trees(scaffold, fields))
    {
      assert fields[i..][1..] == fields[i + 1..];
      TreeKeepsShape(scaffold, r, fields[i]);
      NextTree(scaffold, r, fields[i..]);
      r := OverlayField(scaffold, r, fields[i]);
    }
  }

  method OverlayCell(scaffold: Entries, fields: seq<Field>, ofh: Option<seq<Field>>) returns (attributes: Entries)
    requires Overlayable(scaffold) && ScalarAttributes(fields)
    ensures attributes == Overlaid(scaffold, fields, ofh)
  {
    BlankKeepsShape(scaffold);
    CellTreesInOrder(scaffold, fields, ofh);
    attributes := Replace(scaffold, EXT, Inside(scaffold, EXT));
    attributes := OverlayFields(scaffold, attributes, fields);
    if ofh.Some? {
      attributes := OverlayOfh(attributes, ofh.value);
    }
  }

  lemma CellTreesInOrder(scaffold: Entries, fields: seq<Field>, ofh: Option<seq<Field>>)
    ensures var attributes := MergeAll(Replace(scaffold, EXT, Inside(scaffold, EXT)), Trees(scaffold, fields));
            Overlaid(scaffold, fields, ofh) ==
            if ofh.Some? then MergeFields(attributes, InContainer(OFH, OfhFields(ofh.value))) else attributes
  {
    var blank := [Field(EXT, Mapping([]))];
    var last := if ofh.Some? then [InContainer(OFH, OfhFields(ofh.value))] else [];
    MergeOne(scaffold, blank[0]);
    assert CellTrees(scaffold, fields, ofh) == [blank] + (Trees(scaffold, fields) + last);
    assert ([blank] + (Trees(scaffold, fields) + last))[1..] == Trees(scaffold, fields) + last;
    MergeAllInParts(MergeFields(scaffold, blank), Trees(scaffold, fields), last);
    if ofh.Some? {
      assert last[1..] == [];
    }
  }

  lemma {:induction false} MergeAllInParts(entries: Entries, first: seq<seq<Field>>, second: seq<seq<Field>>)
    ensures MergeAll(entries, first + second) == MergeAll(MergeAll(entries, first), second)
    decreases first
  {
    if first == [] {
      assert first + second == second;
    } else {
      MergeAllInParts(MergeFields(entries, first[0]), first[1..], second);
      assert (first + second)[1..] == first[1..] + second;
    }
  }

  lemma NextTree(scaffold: Entries, attributes: Entries, fields: seq<Field>)
    requires fields != []
    ensures MergeAll(attributes, Trees(scaffold, fields))
         == MergeAll(MergeFields(attributes, Tree(scaffold, fields[0])), Trees(scaffold, fields[1..]))
  {
    assert Trees(scaffold, fields)[1..] == Trees(scaffold, fields[1..]);
  }

  // ----- The overlay never adds what it tests for -----

  ghost predicate SameShape(scaffold: Entries, attributes: Entries) {
    Overlayable(attributes) &&
    (HasPlmn(attributes) <==> HasPlmn(scaffold)) &&
    forall key :: HasBaseLeaf(attributes, key) <==> HasBaseLeaf(scaffold, key)
  }

  lemma BlankKeepsShape(scaffold: Entries)
    requires Overlayable(scaffold)
    ensures SameShape(scaffold, Replace(scaffold, EXT, Inside(scaffold, EXT)))
  {
    var children := Inside(scaffold, EXT);
    var blank := Replace(scaffold, EXT, children);
    GetReplaced(scaffold, EXT, children, EXT);
    GetReplaced(scaffold, EXT, children, PLMN);
    assert Inside(blank, EXT) == children;
  }

  lemma GetReplaced(entries: Entries, key: string, children: Entries, other: string)
    ensures var existing := Get(entries, key);
            Get(Replace(entries, key, children), other) ==
            if other == key then Some(Child(key, existing.Some? && existing.value.written, Object(children)))
            else Get(entries, other)
  {
    var existing := Get(entries, key);
    GetPut(entries, Child(key, existing.Some? && existing.value.written, Object(children)), other);
  }

  /** A tree in the extension. */
  lemma ExtensionKeepsShape(scaffold: Entries, attributes: Entries, field: Field)
    requires SameShape(scaffold, attributes)
    requires var tree := Tree(scaffold, field); tree != [] && tree[0].key == EXT
    ensures SameShape(scaffold, MergeFields(attributes, Tree(scaffold, field)))
  {
    var tree := Tree(scaffold, field);
    HomesAreDistinct();
    var inner, ext := tree[0].value.fields[0], Inside(attributes, EXT);
    assert tree == [tree[0]] && tree[0].value.fields == [inner];
    MergeOne(attributes, tree[0]);
    MergeOne(ext, inner);
    var child := Merged(inner.key, Get(ext, inner.key), inner.value);
    GetPut(attributes, Merged(EXT, Get(attributes, EXT), tree[0].value), EXT);
    GetPut(attributes, Merged(EXT, Get(attributes, EXT), tree[0].value), PLMN);
    GetPut(ext, child, BASE);
    GetPut(ext, child, OFH);
    ContainersAreDistinct(field.key);
    if inner.key == BASE {
      BaseKeys(scaffold, attributes, field);
    }
  }

  lemma TreeKeepsShape(scaffold: Entries, attributes: Entries, field: Field)
    requires SameShape(scaffold, attributes)
    ensures SameShape(scaffold, MergeFields(attributes, Tree(scaffold, field)))
  {
    var tree := Tree(scaffold, field);
    if tree != [] {
      HomesAreDistinct();
      if tree[0].key == EXT {
        ExtensionKeepsShape(scaffold, attributes, field);
      } else {
        assert tree == [tree[0]];
        var child := Merged(tree[0].key, Get(attributes, tree[0].key), tree[0].value);
        MergeOne(attributes, tree[0]);
        GetPut(attributes, child, EXT);
        GetPut(attributes, child, PLMN);
      }
    }
  }

  /** Merging a leaf the base container has adds no key to it. */
  lemma BaseKeys(scaffold: Entries, attributes: Entries, field: Field)
    requires SameShape(scaffold, attributes) && field.value.Plain?
    ensures var base := Inside(Inside(attributes, EXT), BASE);
            var written := if HasBaseLeaf(scaffold, field.key)
                           then [Field(field.key, Plain(Str(BaseText(field.key, field.value.scalar))))] else [];
            forall key :: Get(MergeFields(base, written), key).Some? <==> Get(base, key).Some?
  {
    var base := Inside(Inside(attributes, EXT), BASE);
    if HasBaseLeaf(scaffold, field.key) {
      var leaf := Field(field.key, Plain(Str(BaseText(field.key, field.value.scalar))));
      MergeOne(base, leaf);
      assert HasBaseLeaf(attributes, field.key);
      forall key ensures Get(MergeFields(base, [leaf]), key).Some? <==> Get(base, key).Some? {
        GetPut(base, Merged(leaf.key, Get(base, leaf.key), leaf.value), key);
      }
    }
  }

  lemma MergeOne(entries: Entries, field: Field)
    ensures MergeFields(entries, [field]) == Put(entries, Merged(field.key, Get(entries, field.key), field.value))
  {
    assert [field][1..] == [];
  }

  // ----- Names are distinct -----

  lemma HomesAreDistinct()
    ensures STATE != EXT && STATE != PLMN && PLMN != EXT
    ensures forall key | key in ATTRS :: ATTRS[key] != EXT && ATTRS[key] != PLMN && ATTRS[key] != STATE
    ensures forall key, key' | key in ATTRS && key' in ATTRS && ATTRS[key] == ATTRS[key'] :: key == key'
  {
    assert "nRPCI"[2] != "nRTAC"[2];
  }

  lemma ContainersAreDistinct(key: string)
    ensures BASE != OFH
    ensures key in CHANNELS ==> ChannelContainer(key) != BASE && ChannelContainer(key) != OFH
    ensures forall key' | key in CHANNELS && key' in CHANNELS && ChannelContainer(key) == ChannelContainer(key') ::
              key == key'
  {
    if Container("base") == Container("ofh") {
      ContainerIsInjective("base", "ofh");
    }
    if key in CHANNELS {
      ShortNamesAreDistinct(key);
      if ChannelContainer(key) == BASE {
        ContainerIsInjective(ShortName(key), "base");
      }
      if ChannelContainer(key) == OFH {
        ContainerIsInjective(ShortName(key), "ofh");
      }
      forall key' | key' in CHANNELS && ChannelContainer(key) == ChannelContainer(key') ensures key == key' {
        ContainerIsInjective(ShortName(key), ShortName(key'));
        ShortNamesAreDistinct(key');
      }
    }
  }

  lemma ShortNamesAreDistinct(key: string)
    requires key in CHANNELS
    ensures ShortName(key) != "base" && ShortName(key) != "ofh"
    ensures ShortName(key) == "tdd" ==> key == "tdd_ul_dl_cfg"
  {
    assert key[0] in "spctdm" ;
    assert ShortName(key)[0] == key[0];
  }

  lemma ContainerIsInjective(a: string, b: string)
    requires Container(a) == Container(b)
    ensures a == b
  {
    assert |"ocudu_nrcelldu_"| == 15;
    assert a == Container(a)[15..15 + |a|];
    assert b == Container(b)[15..15 + |b|];
  }
}
