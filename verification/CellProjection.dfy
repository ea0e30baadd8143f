/** The forward projection of an NRCellDU element onto the YAML cell and its OFH counterpart. */
module CellProjection {
  import opened Options
  import OrderedDict
  import opened ConfigTree
  import opened YamlMerge
  import opened CellOverlay

  type Dict<V> = seq<OrderedDict.Entry<string, V>>

  datatype Value = Element(node: Node) | Section(fields: Dict<Node>) | Flag(b: bool)

  /** Channels copied key by key. */
  const FLAT_CHANNELS := ["ssb", "prach", "tdd_ul_dl_cfg", "pdsch", "pusch", "pucch", "csi", "srs", "paging", "drx"]

  /** The one key of a channel that is rendered rather than copied, if it has one. */
  function Rendered(channel: string): Option<string> {
    if channel == "tdd_ul_dl_cfg" then Some("pattern2")
    else if channel == "pdsch" || channel == "pusch" then Some("rv_sequence")
    else None
  }

  function Digits(s: string): string {
    if s == "" then "" else (if '0' <= s[0] <= '9' then [s[0]] else []) + Digits(s[1..])
  }

  function BaseValue(key: string, node: Node): Node {
    if Contains(key, "scs") && node.Text? then Text(Digits(node.text)) else node
  }

  predicate Mentions(node: Node, word: string) {
    match node
    case Text(text) => Contains(text, word)
    case Object(entries) => Get(entries, word).Some?
    case Items(items) => Text(word) in items
  }

  function OfhBack(key: string, node: Node): Node {
    var value := if Contains(key, "compr_method") && Mentions(node, "BLOCK_FLOATING_POINT") then Text("bfp") else node;
    if Contains(key, "static_compr_hdr") then Text(if Mentions(value, "STATIC") then "true" else "false") else value
  }

  // ----- What each key of the projected cell holds -----

  function Copied(entries: Entries, rendered: Option<string>): Dict<Node> {
    if entries == [] then []
    else
      (if Some(entries[0].key) == rendered then [] else [OrderedDict.Entry(entries[0].key, entries[0].node)])
      + Copied(entries[1..], rendered)
  }

  /** All standard attributes are there; if one is missing the source sets none of the keys. */
  predicate HasStandardAttributes(attributes: Entries) {
    Get(attributes, "nRPCI").Some? && Get(attributes, "nRTAC").Some? && Get(attributes, "arfcnDL").Some? &&
    Get(attributes, "bSChannelBwDL").Some? &&
    Get(Inside(attributes, PLMN), "mcc").Some? && Get(Inside(attributes, PLMN), "mnc").Some?
  }

  function TextOf(child: Option<Child>): string {
    if child.Some? && child.value.node.Text? then child.value.node.text else ""
  }

  predicate Enabled(attributes: Entries) {
    var state := Get(attributes, STATE);
    state.Some? && state.value.node != Text("LOCKED")
  }

  function Projected(attributes: Entries, key: string): Option<Value> {
    var ext := Inside(attributes, EXT);
    if HasStandardAttributes(attributes) && key in ATTRS then Some(Element(Get(attributes, ATTRS[key]).value.node))
    else if HasStandardAttributes(attributes) && key == "plmn" then
      Some(Element(Text(TextOf(Get(Inside(attributes, PLMN), "mcc")) + TextOf(Get(Inside(attributes, PLMN), "mnc")))))
    else if HasStandardAttributes(attributes) && key == "enabled" then Some(Flag(Enabled(attributes)))
    else
      var leaf := Get(Inside(ext, BASE), key);
      if leaf.Some? then Some(Element(BaseValue(key, leaf.value.node)))
      else if key in FLAT_CHANNELS then SectionOf(ext, key)
      else None
  }

  function SectionOf(ext: Entries, channel: string): Option<Value> {
    if Get(ext, ChannelContainer(channel)).Some?
    then Some(Section(Copied(Inside(ext, ChannelContainer(channel)), Rendered(channel))))
    else None
  }

  /** The OFH leaf projected under a key; nothing at all when the cell has no OFH container. */
  function ProjectedOfh(attributes: Entries, key: string): Option<Node> {
    var leaf := Get(Inside(Inside(attributes, EXT), OFH), key);
    if leaf.Some? then Some(OfhBack(key, leaf.value.node)) else None
  }

  // ----- The projection as the source runs it -----

  /** Containers are elements with children, and the parts of the PLMN and the subcarrier spacings are text. */
  ghost predicate Projectable(attributes: Entries) {
    var ext := Inside(attributes, EXT);
    ElementOrAbsent(Get(attributes, EXT)) && ElementOrAbsent(Get(ext, BASE)) && ElementOrAbsent(Get(ext, OFH)) &&
    ElementOrAbsent(Get(attributes, PLMN)) &&
    (forall channel :: channel in FLAT_CHANNELS ==> ElementOrAbsent(Get(ext, ChannelContainer(channel)))) &&
    TextOrAbsent(Get(Inside(attributes, PLMN), "mcc")) && TextOrAbsent(Get(Inside(attributes, PLMN), "mnc")) &&
    forall key :: Contains(key, "scs") ==> TextOrAbsent(Get(Inside(ext, BASE), key))
  }

  predicate TextOrAbsent(child: Option<Child>) {
    child.Some? ==> child.value.node.Text?
  }

  method CopySection(entries: Entries, rendered: Option<string>) returns (section: Dict<Node>)
    requires WellKeyed(entries)
    ensures section == Copied(entries, rendered)
  {
    section := [];
    for i := 0 to |entries|
      invariant section == Copied(entries[..i], rendered)
    {
      var child := entries[i];
      assert entries[..i + 1] == entries[..i] + [child];
      CopiedLast(entries[..i], child, rendered);
      if Some(child.key) != rendered {
        KeysComeOnce(entries, i);
        GetCopied(entries[..i], rendered, child.key);
        PutFresh(section, child.key, child.node);
        section := OrderedDict.Put(section, child.key, child.node);
      }
    }
    assert entries[..|entries|] == entries;
  }

  /** A section has every key of its container but the rendered one. */
  lemma {:induction false} GetCopied(entries: Entries, rendered: Option<string>, key: string)
    ensures OrderedDict.Get(Copied(entries, rendered), key) ==
            var child := Get(entries, key);
            if child.Some? && Some(key) != rendered then Some(child.value.node) else None
  {
    if entries == [] {
    } else {
      GetCopied(entries[1..], rendered, key);
      if Some(entries[0].key) != rendered {
        assert Copied(entries, rendered)[1..] == Copied(entries[1..], rendered);
      } else {
        assert Copied(entries, rendered) == Copied(entries[1..], rendered);
      }
    }
  }

  lemma {:induction false} CopiedLast(entries: Entries, child: Child, rendered: Option<string>)
    ensures Copied(entries + [child], rendered) ==
            Copied(entries, rendered)
            + if Some(child.key) == rendered then [] else [OrderedDict.Entry(child.key, child.node)]
  {
    if entries == [] {
      assert [child][1..] == [];
    } else {
      CopiedLast(entries[1..], child, rendered);
      assert (entries + [child])[1..] == entries[1..] + [child];
    }
  }

  lemma {:induction false} KeysComeOnce(entries: Entries, i: nat)
    requires WellKeyed(entries) && i < |entries|
    ensures Get(entries[..i], entries[i].key).None?
  {
    if i > 0 {
      KeysComeOnce(entries[1..], i - 1);
      assert entries[..i][1..] == entries[1..][..i - 1];
      KeyIsFound(entries[1..], i - 1);
    }
  }

  lemma {:induction false} KeyIsFound(entries: Entries, i: nat)
    requires i < |entries|
    ensures Get(entries, entries[i].key).Some?
  {
    if i > 0 {
      KeyIsFound(entries[1..], i - 1);
    }
  }

  lemma {:induction false} PutFresh(d: Dict<Node>, key: string, node: Node)
    requires OrderedDict.Get(d, key).None?
    ensures OrderedDict.Put(d, key, node) == d + [OrderedDict.Entry(key, node)]
  {
    if d != [] {
      PutFresh(d[1..], key, node);
    }
  }

  method ExtractSections(ext: Entries, channels: seq<string>) returns (cell: Dict<Value>)
    requires WellKeyed(ext)
    requires forall channel :: channel in channels ==> ElementOrAbsent(Get(ext, ChannelContainer(channel)))
    ensures forall key :: OrderedDict.Get(cell, key) == if key in channels then SectionOf(ext, key) else None
  {
    cell := [];
    for i := 0 to |channels|
      invariant forall key :: OrderedDict.Get(cell, key) == if key in channels[..i] then SectionOf(ext, key) else None
    {
      var channel := channels[i];
      var container := Get(ext, ChannelContainer(channel));
      ghost var before := cell;
      assert channels[..i + 1] == channels[..i] + [channel];
      if container.Some? {
        ChildWellKeyed(ext, ChannelContainer(channel));
        assert channel in channels;
        var section := CopySection(container.value.node.entries, Rendered(channel));
        cell := OrderedDict.Put(cell, channel, Section(section));
        forall key { OrderedDict.GetPut(before, channel, Section(section), key); }
      }
    }
    assert channels[..|channels|] == channels;
  }

  method AddBase(cell: Dict<Value>, base: Entries) returns (r: Dict<Value>)
    requires WellKeyed(base)
    requires forall key :: Contains(key, "scs") ==> TextOrAbsent(Get(base, key))
    ensures forall key :: OrderedDict.Get(r, key) ==
                          if Get(base, key).Some? then Some(Element(BaseValue(key, Get(base, key).value.node)))
                          else OrderedDict.Get(cell, key)
  {
    r := cell;
    for i := 0 to |base|
      invariant WellKeyed(base[i..])
      invariant forall key :: Get(base[i..], key).Some? ==> Get(base[i..], key) == Get(base, key)
      invariant forall key :: OrderedDict.Get(r, key) ==
                              if Get(base, key).Some? && Get(base[i..], key).None?
                              then Some(Element(BaseValue(key, Get(base, key).value.node)))
                              else OrderedDict.Get(cell, key)
    {
      assert base[i..][1..] == base[i + 1..];
      var Child(key, _, node) := base[i];
      assert Get(base[i..], key) == Some(base[i]);
      if Contains(key, "scs") {
        node := Text(Digits(node.text));
      }
      ghost var before := r;
      r := OrderedDict.Put(r, key, Element(node));
      forall other { OrderedDict.GetPut(before, key, Element(node), other); }
    }
  }

  method ExtractDuCell(attributes: Entries) returns (cell: Dict<Value>)
    requires WellKeyed(attributes) && Projectable(attributes)
    ensures forall key :: OrderedDict.Get(cell, key) == Projected(attributes, key)
  {
    InsideIsWellKeyed(attributes, EXT);
    var ext := Inside(attributes, EXT);
    InsideIsWellKeyed(ext, BASE);
    cell := ExtractSections(ext, FLAT_CHANNELS);
    cell := AddBase(cell, Inside(ext, BASE));
    if HasStandardAttributes(attributes) {
      cell := AddStandard(cell, attributes);
    }
  }

  function StandardValues(attributes: Entries): Dict<Value>
    requires HasStandardAttributes(attributes)
  {
    [OrderedDict.Entry("pci", Element(Get(attributes, "nRPCI").value.node)),
     OrderedDict.Entry("tac", Element(Get(attributes, "nRTAC").value.node)),
     OrderedDict.Entry("dl_arfcn", Element(Get(attributes, "arfcnDL").value.node)),
     OrderedDict.Entry("channel_bandwidth_MHz", Element(Get(attributes, "bSChannelBwDL").value.node)),
     OrderedDict.Entry("plmn", Element(Text(TextOf(Get(Inside(attributes, PLMN), "mcc"))
                                            + TextOf(Get(Inside(attributes, PLMN), "mnc"))))),
     OrderedDict.Entry("enabled", Flag(Enabled(attributes)))]
  }

  lemma StandardKeys(attributes: Entries, key: string)
    requires HasStandardAttributes(attributes)
    ensures OrderedDict.Get(StandardValues(attributes), key) ==
            if key in ATTRS || key == "plmn" || key == "enabled" then Projected(attributes, key) else None
  {
    assert "pci"[0] != "tac"[0];
    var values := StandardValues(attributes);
    forall i | 0 <= i < 6 ensures values[i..][0] == values[i] && values[i..][1..] == values[i + 1..] {}
    assert OrderedDict.Get(values[4..], key) ==
           if key == "plmn" || key == "enabled" then Projected(attributes, key) else None by {
      assert OrderedDict.Get(values[5..], key) == if key == "enabled" then Projected(attributes, key) else None;
    }
    assert OrderedDict.Get(values[2..], key) ==
           if key == "dl_arfcn" || key == "channel_bandwidth_MHz" then Projected(attributes, key)
           else OrderedDict.Get(values[4..], key) by {
      assert OrderedDict.Get(values[3..], key) ==
             if key == "channel_bandwidth_MHz" then Projected(attributes, key)
             else OrderedDict.Get(values[4..], key);
    }
    assert OrderedDict.Get(values[1..], key) ==
           if key == "tac" then Projected(attributes, key) else OrderedDict.Get(values[2..], key);
  }

  method AddStandard(cell: Dict<Value>, attributes: Entries) returns (r: Dict<Value>)
    requires HasStandardAttributes(attributes) && Projectable(attributes)
    ensures forall key :: OrderedDict.Get(r, key) ==
                          if key in ATTRS || key == "plmn" || key == "enabled" then Projected(attributes, key)
                          else OrderedDict.Get(cell, key)
  {
    forall key { StandardKeys(attributes, key); }
    StandardValuesAreDistinct(attributes);
    r := Update(cell, StandardValues(attributes));
  }

  lemma StandardValuesAreDistinct(attributes: Entries)
    requires HasStandardAttributes(attributes)
    ensures OrderedDict.Distinct(StandardValues(attributes))
  {
    assert "pci"[0] != "tac"[0];
    DifferentKeys(StandardValues(attributes));
  }

  lemma {:induction false} DifferentKeys(d: Dict<Value>)
    requires forall i, j :: 0 <= i < j < |d| ==> d[i].key != d[j].key
    ensures OrderedDict.Distinct(d)
  {
    if d != [] {
      forall i | 0 <= i < |d[1..]| ensures d[1..][i].key != d[0].key {}
      AbsentKey(d[1..], d[0].key);
      forall i, j | 0 <= i < j < |d[1..]| ensures d[1..][i].key != d[1..][j].key {}
      DifferentKeys(d[1..]);
    }
  }

  lemma {:induction false} AbsentKey(d: Dict<Value>, key: string)
    requires forall i :: 0 <= i < |d| ==> d[i].key != key
    ensures OrderedDict.Get(d, key).None?
  {
    if d != [] {
      AbsentKey(d[1..], key);
    }
  }

  method Update(cell: Dict<Value>, update: Dict<Value>) returns (r: Dict<Value>)
    requires OrderedDict.Distinct(update)
    ensures forall key :: OrderedDict.Get(r, key) ==
                          if OrderedDict.Get(update, key).Some? then OrderedDict.Get(update, key)
                          else OrderedDict.Get(cell, key)
  {
    r := cell;
    for i := 0 to |update|
      invariant OrderedDict.Distinct(update[i..])
      invariant forall key :: OrderedDict.Get(update[i..], key).Some?
                          ==> OrderedDict.Get(update[i..], key) == OrderedDict.Get(update, key)
      invariant forall key :: OrderedDict.Get(r, key) ==
                              if OrderedDict.Get(update, key).Some? && OrderedDict.Get(update[i..], key).None?
                              then OrderedDict.Get(update, key)
                              else OrderedDict.Get(cell, key)
    {
      assert update[i..][1..] == update[i + 1..];
      var key, value := update[i].key, update[i].value;
      assert OrderedDict.Get(update[i..], key) == Some(value);
      ghost var before := r;
      r := OrderedDict.Put(r, key, value);
      forall other { OrderedDict.GetPut(before, key, value, other); }
    }
  }

  /** The OFH counterpart; None when the cell has no OFH container. */
  method ExtractOfhCell(attributes: Entries) returns (cell: Option<Dict<Node>>)
    requires WellKeyed(attributes) && Projectable(attributes)
    ensures cell.Some? <==> Get(Inside(attributes, EXT), OFH).Some?
    ensures cell.Some? ==> forall key :: OrderedDict.Get(cell.value, key) == ProjectedOfh(attributes, key)
  {
    InsideIsWellKeyed(attributes, EXT);
    var ext := Inside(attributes, EXT);
    InsideIsWellKeyed(ext, OFH);
    if Get(ext, OFH).None? {
      return None;
    }
    var fields := CopyOfh(Inside(ext, OFH));
    cell := Some(fields);
  }

  method CopyOfh(container: Entries) returns (r: Dict<Node>)
    requires WellKeyed(container)
    ensures forall key :: OrderedDict.Get(r, key) ==
                          if Get(container, key).Some? then Some(OfhBack(key, Get(container, key).value.node)) else None
  {
    r := [];
    for i := 0 to |container|
      invariant WellKeyed(container[i..])
      invariant forall key :: Get(container[i..], key).Some? ==> Get(container[i..], key) == Get(container, key)
      invariant forall key :: OrderedDict.Get(r, key) ==
                              if Get(container, key).Some? && Get(container[i..], key).None?
                              then Some(OfhBack(key, Get(container, key).value.node))
                              else None
    {
      assert container[i..][1..] == container[i + 1..];
      var Child(key, _, node) := container[i];
      assert Get(container[i..], key) == Some(container[i]);
      var value := node;
      if Contains(key, "compr_method") {
        value := if Mentions(value, "BLOCK_FLOATING_POINT") then Text("bfp") else value;
      }
      if Contains(key, "static_compr_hdr") {
        value := Text(if Mentions(value, "STATIC") then "true" else "false");
      }
      ghost var before := r;
      r := OrderedDict.Put(r, key, value);
      forall other { OrderedDict.GetPut(before, key, value, other); }
    }
  }

  lemma InsideIsWellKeyed(entries: Entries, key: string)
    requires WellKeyed(entries)
    ensures WellKeyed(Inside(entries, key))
  {
    if Get(entries, key).Some? {
      ChildWellKeyed(entries, key);
    }
  }
}
