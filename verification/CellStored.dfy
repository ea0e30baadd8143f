/** What the configuration holds for a YAML cell, and what the projection reads, by the names and words of the data
    models themselves. */
module CellStored {
  import opened Options
  import OrderedDict
  import opened ConfigTree
  import opened PruneLaws
  import opened YamlMerge
  import opened YamlReadBack
  import opened CellOverlay
  import opened CellProjection
  import opened CellPaths
  import opened CellRoundTrip

  // ----- Words -----

  /** A word is in a text when some part of the text is the word. */
  lemma {:induction false} ContainsIff(s: string, word: string)
    ensures Contains(s, word) <==> exists i :: OccursAt(s, word, i)
  {
    if StartsWith(s, word) {
      assert s[..|word|] == word;
      assert OccursAt(s, word, 0);
    } else if s != "" {
      ContainsIff(s[1..], word);
      if i :| OccursAt(s[1..], word, i) {
        assert s[1..][i..i + |word|] == s[i + 1..i + 1 + |word|];
        assert OccursAt(s, word, i + 1);
      }
      if i :| OccursAt(s, word, i) {
        StartsAtZero(s, word);
        assert s[1..][i - 1..i - 1 + |word|] == s[i..i + |word|];
        assert OccursAt(s[1..], word, i - 1);
      }
    } else {
      StartsAtZero(s, word);
    }
  }

  predicate OccursAt(s: string, word: string, i: int) {
    0 <= i <= |s| - |word| && s[i..i + |word|] == word
  }

  lemma StartsAtZero(s: string, word: string)
    ensures OccursAt(s, word, 0) ==> StartsWith(s, word)
  {
  }

  /** The word true, in whatever case. */
  predicate IsTrueWord(text: string) {
    |text| == 4 && text[0] in "tT" && text[1] in "rR" && text[2] in "uU" && text[3] in "eE"
  }

  lemma {:induction false} LowerAt(s: string, i: nat)
    requires i < |s|
    ensures |Lower(s)| == |s|
    ensures 'A' <= s[i] <= 'Z' ==> Lower(s)[i] as int == s[i] as int + 32
    ensures !('A' <= s[i] <= 'Z') ==> Lower(s)[i] == s[i]
  {
    LowerKeepsLength(s);
    if i > 0 {
      LowerAt(s[1..], i - 1);
      assert Lower(s)[i] == Lower(s[1..])[i - 1];
    }
  }

  lemma MeansTrueIff(value: Yaml)
    ensures MeansTrue(value) <==> value.Plain? && IsTrueWord(ScalarText(value.scalar))
  {
    if value.Plain? {
      var text := ScalarText(value.scalar);
      LowerKeepsLength(text);
      if |text| == 4 {
        forall i | 0 <= i < 4
          ensures 'A' <= text[i] <= 'Z' ==> Lower(text)[i] as int == text[i] as int + 32
          ensures !('A' <= text[i] <= 'Z') ==> Lower(text)[i] == text[i]
        {
          LowerAt(text, i);
        }
      }
    }
  }

  /** The values a YAML condition takes for false. */
  predicate IsFalse(value: Yaml) {
    || value == Plain(Bool(false)) || value == Plain(Int(0)) || value == Plain(Str(""))
    || value == Mapping([]) || value == Records([]) || value == Listing([])
  }

  // ----- Attributes -----

  /** Where each of a cell's standard keys is stored. */
  const STANDARD_NAMES: seq<(string, string)> := [
    ("pci", "nRPCI"), ("tac", "nRTAC"), ("dl_arfcn", "arfcnDL"), ("channel_bandwidth_MHz", "bSChannelBwDL")
  ]

  /** A standard key of the YAML is stored under its attribute's name, as its text. */
  lemma AttributeStored(scaffold: Entries, fields: seq<Field>, ofh: Option<seq<Field>>, i: nat, scalar: Scalar)
    requires Complete(scaffold) && IsCell(fields, ofh) && i < |STANDARD_NAMES|
    requires Lookup(fields, STANDARD_NAMES[i].0) == Some(Plain(scalar))
    ensures Get(Config(scaffold, fields, ofh), STANDARD_NAMES[i].1)
            == Some(Child(STANDARD_NAMES[i].1, true, Text(ScalarText(scalar))))
  {
    StandardNames(i);
    AttributeAfter(scaffold, fields, ofh, STANDARD_NAMES[i].0);
  }

  lemma StandardNames(i: nat)
    requires i < |STANDARD_NAMES|
    ensures STANDARD_NAMES[i].0 in ATTRS && ATTRS[STANDARD_NAMES[i].0] == STANDARD_NAMES[i].1
    ensures STANDARD_NAMES[i].0 != "enabled" && STANDARD_NAMES[i].0 != "plmn"
  {
    assert "pci"[0] != "tac"[0];
  }

  /** Whether the cell is enabled is stored as its administrative state. */
  lemma StateStored(scaffold: Entries, fields: seq<Field>, ofh: Option<seq<Field>>, value: Yaml)
    requires Complete(scaffold) && IsCell(fields, ofh) && Lookup(fields, "enabled") == Some(value)
    ensures Get(Config(scaffold, fields, ofh), "administrativeState")
            == Some(Child("administrativeState", true, Text(if IsFalse(value) then "LOCKED" else "UNLOCKED")))
  {
    FalseIff(value);
    AttributeAfter(scaffold, fields, ofh, "enabled");
  }

  lemma FalseIff(value: Yaml)
    ensures Truthy(value) <==> !IsFalse(value)
  {
  }

  /** A PLMN of four characters or more is stored as its first three, the country code, and the rest, the network code. */
  lemma PlmnStored(scaffold: Entries, fields: seq<Field>, ofh: Option<seq<Field>>, plmn: string)
    requires Complete(scaffold) && IsCell(fields, ofh) && Lookup(fields, "plmn") == Some(Plain(Str(plmn)))
    ensures 4 <= |plmn| ==>
              && Get(Inside(Config(scaffold, fields, ofh), "pLMNInfoList"), "mcc") == Some(Child("mcc", true, Text(plmn[..3])))
              && Get(Inside(Config(scaffold, fields, ofh), "pLMNInfoList"), "mnc") == Some(Child("mnc", true, Text(plmn[3..])))
  {
    PlmnPartAfter(scaffold, fields, ofh, "mcc");
    PlmnPartAfter(scaffold, fields, ofh, "mnc");
  }

  // ----- Extensions -----

  function Extension(config: Entries, name: string): Entries {
    Inside(Inside(config, "ocudu_nrcelldu_extensions"), "ocudu_nrcelldu_" + name + "_extensions")
  }

  lemma ExtensionNames(config: Entries)
    ensures Extension(config, "base") == Inside(Inside(config, EXT), BASE)
    ensures Extension(config, "ofh") == Inside(Inside(config, EXT), OFH)
  {
  }

  /** A base leaf's text: a subcarrier spacing as KHZ_ and its number, anything else as it is. */
  function BaseWord(key: string, scalar: Scalar): string {
    if !Contains(key, "scs") then ScalarText(scalar)
    else if scalar == Bool(true) then "KHZ_True"
    else if scalar == Bool(false) then "KHZ_False"
    else "KHZ_" + ScalarText(scalar)
  }

  lemma BaseWords(key: string, scalar: Scalar)
    ensures BaseText(key, scalar) == BaseWord(key, scalar)
  {
    if Contains(key, "scs") && scalar.Bool? {
      assert "KHZ_" + "True" == "KHZ_True" && "KHZ_" + "False" == "KHZ_False";
    }
  }

  /** A leftover scalar is stored in the base container when the scaffold has that leaf there. */
  lemma BaseStored(scaffold: Entries, fields: seq<Field>, ofh: Option<seq<Field>>, key: string, scalar: Scalar)
    requires Complete(scaffold) && IsCell(fields, ofh) && Lookup(fields, key) == Some(Plain(scalar))
    requires key !in ATTRS && key != "enabled" && key != "plmn" && key !in CHANNELS
    requires Get(Extension(scaffold, "base"), key).Some?
    ensures Get(Extension(Config(scaffold, fields, ofh), "base"), key)
            == Some(Child(key, true, Text(BaseWord(key, scalar))))
  {
    BaseAfter(scaffold, fields, ofh, key);
    BaseWords(key, scalar);
    ExtensionNames(scaffold);
    ExtensionNames(Config(scaffold, fields, ofh));
  }

  /** The name a channel's extension container goes by. */
  function StoredName(channel: string): string {
    if channel == "tdd_ul_dl_cfg" then "tdd" else channel
  }

  /** The words of the data model for the bfp compression method and the static header switch; else the scalar's text. */
  function OfhWord(key: string, scalar: Scalar): string {
    if Contains(key, "compr_method") && scalar == Str("bfp") then "BLOCK_FLOATING_POINT"
    else if !Contains(key, "static_compr_hdr") then ScalarText(scalar)
    else if IsTrueWord(ScalarText(scalar)) then "STATIC"
    else "DYNAMIC"
  }

  lemma OfhWordsStored(key: string, scalar: Scalar)
    ensures var value := OfhValue(key, Plain(scalar)); value.Plain? && ScalarText(value.scalar) == OfhWord(key, scalar)
  {
    MeansTrueIff(Plain(scalar));
  }

  /** A scalar of the OFH counterpart is stored in the OFH container, in the words of the data model. */
  lemma OfhStored(scaffold: Entries, fields: seq<Field>, ofh: seq<Field>, key: string, scalar: Scalar)
    requires Complete(scaffold) && IsCell(fields, Some(ofh)) && Lookup(ofh, key) == Some(Plain(scalar))
    ensures Get(Extension(Config(scaffold, fields, Some(ofh)), "ofh"), key) == Some(Child(key, true, Text(OfhWord(key, scalar))))
  {
    OfhWordsStored(key, scalar);
    ExtensionNames(Config(scaffold, fields, Some(ofh)));
    OfhAfter(scaffold, fields, ofh, key);
    LookupOfh(ofh, key);
    LeafAmong(OfhFields(ofh), key);
  }

  /** The channels with an extension container of their own. */
  const STORED_CHANNELS: set<string> := PROJECTED_CHANNELS + {"pdcch", "mac_cell_group", "sib"}

  lemma StoredNames(channel: string)
    requires channel in STORED_CHANNELS
    ensures channel in CHANNELS && StoredName(channel) == ShortName(channel)
  {
  }

  /** A channel's key is stored in the channel's container with its value: a scalar as its text, a list in order, a list
      of mappings record by record. */
  lemma ChannelStored(scaffold: Entries, fields: seq<Field>, ofh: Option<seq<Field>>, channel: string,
                      section: seq<Field>, key: string, value: Yaml)
    requires Complete(scaffold) && IsCell(fields, ofh) && channel in STORED_CHANNELS
    requires Lookup(fields, channel) == Some(Mapping(section)) && Lookup(section, key) == Some(value) && !value.Mapping?
    ensures var child := Get(Extension(Config(scaffold, fields, ofh), StoredName(channel)), key);
            child.Some? && child.value.written && Tells(child.value.node, value)
  {
    var container := ChannelContainer(channel);
    StoredNames(channel);
    LookupIsKeyed(fields, channel);
    LookupIsKeyed(section, key);
    LeafAmong(section, key);
    ChannelAfter(scaffold, fields, ofh, channel, section);
    SectionKeys(scaffold, container, section, key);
    MergedTells(key, Get(Inside(Inside(scaffold, EXT), container), key), value);
  }

  // ----- Channels, there and back -----

  /** The channels that are projected key by key. */
  const PROJECTED_CHANNELS: set<string> :=
    {"ssb", "prach", "tdd_ul_dl_cfg", "pdsch", "pusch", "pucch", "csi", "srs", "paging", "drx"}

  /** Whatever configuration is projected: a channel's section holds each key of its container with its node, but for
      the rendered three, and nothing else. */
  lemma SectionsAreCopied(attributes: Entries, channel: string, key: string)
    requires channel in PROJECTED_CHANNELS && Get(Extension(attributes, "base"), channel).None?
    ensures var ext := Inside(attributes, "ocudu_nrcelldu_extensions");
            var name := "ocudu_nrcelldu_" + StoredName(channel) + "_extensions";
            var section, leaf := Projected(attributes, channel), Get(Inside(ext, name), key);
            if Get(ext, name).None? then section == None
            else && section.Some? && section.value.Section?
                 && OrderedDict.Get(section.value.fields, key)
                    == if leaf.Some? && (channel, key) !in RENDERED then Some(leaf.value.node) else None
  {
    RenderedIff(channel, key);
    assert channel in FLAT_CHANNELS;
    FlatChannels(channel);
    GetCopied(Inside(Inside(attributes, EXT), ChannelContainer(channel)), Rendered(channel), key);
  }

  /** A channel's key comes back from the YAML with its value: a scalar as its text, a list in order, a list of
      mappings record by record. */
  lemma ChannelKeyComesBack(scaffold: Entries, fields: seq<Field>, ofh: Option<seq<Field>>, channel: string,
                            section: seq<Field>, key: string, value: Yaml)
    requires Complete(scaffold) && IsCell(fields, ofh) && channel in PROJECTED_CHANNELS
    requires Lookup(fields, channel) == Some(Mapping(section)) && Lookup(section, key) == Some(value) && !value.Mapping?
    ensures var projected := Projected(Config(scaffold, fields, ofh), channel);
            && projected.Some? && projected.value.Section?
            && var node := OrderedDict.Get(projected.value.fields, key);
               if (channel, key) in RENDERED then node == None else node.Some? && Tells(node.value, value)
  {
    RenderedIff(channel, key);
    assert channel in FLAT_CHANNELS;
    LookupIsKeyed(fields, channel);
    LookupIsKeyed(section, key);
    LeafAmong(section, key);
    ChannelComesBack(scaffold, fields, ofh, channel, key);
    MergedTells(key, Get(Inside(Inside(scaffold, EXT), ChannelContainer(channel)), key), value);
  }

  // ----- What the projection reads -----

  /** Whatever configuration is projected, by the names of the data model. */
  lemma StandardKeysAreRead(attributes: Entries)
    requires Get(attributes, "nRPCI").Some? && Get(attributes, "nRTAC").Some? && Get(attributes, "arfcnDL").Some?
    requires Get(attributes, "bSChannelBwDL").Some?
    requires HasText(Inside(attributes, "pLMNInfoList"), "mcc") && HasText(Inside(attributes, "pLMNInfoList"), "mnc")
    ensures forall i :: 0 <= i < |STANDARD_NAMES| ==>
                          Projected(attributes, STANDARD_NAMES[i].0)
                          == Some(Element(Get(attributes, STANDARD_NAMES[i].1).value.node))
    ensures Projected(attributes, "plmn")
            == Some(Element(Text(Get(Inside(attributes, "pLMNInfoList"), "mcc").value.node.text
                                 + Get(Inside(attributes, "pLMNInfoList"), "mnc").value.node.text)))
    ensures Projected(attributes, "enabled")
            == Some(Flag(Get(attributes, "administrativeState").Some?
                         && Get(attributes, "administrativeState").value.node != Text("LOCKED")))
  {
    forall i | 0 <= i < |STANDARD_NAMES|
      ensures Projected(attributes, STANDARD_NAMES[i].0) == Some(Element(Get(attributes, STANDARD_NAMES[i].1).value.node))
    {
      StandardNames(i);
    }
  }

  predicate HasText(entries: Entries, key: string) {
    Get(entries, key).Some? && Get(entries, key).value.node.Text?
  }

  /** The OFH container is read back in the words of the YAML. */
  lemma OfhIsRead(attributes: Entries, key: string, text: string)
    requires Get(Extension(attributes, "ofh"), key).Some? && Get(Extension(attributes, "ofh"), key).value.node == Text(text)
    ensures ProjectedOfh(attributes, key)
            == Some(Text(if Contains(key, "static_compr_hdr")
                         then if Contains(text, "STATIC")
                                 && !(Contains(key, "compr_method") && Contains(text, "BLOCK_FLOATING_POINT"))
                              then "true" else "false"
                         else if Contains(key, "compr_method") && Contains(text, "BLOCK_FLOATING_POINT") then "bfp"
                         else text))
  {
    OfhWords();
  }

  /** Of a leaf-list or an element instead of a text, the words are its entries or its children's names. */
  lemma OfhListIsRead(attributes: Entries, key: string, node: Node)
    requires Get(Extension(attributes, "ofh"), key).Some? && Get(Extension(attributes, "ofh"), key).value.node == node
    requires !node.Text? && !(Contains(key, "compr_method") && Contains(key, "static_compr_hdr"))
    ensures ProjectedOfh(attributes, key)
            == Some(if Contains(key, "static_compr_hdr") then Text(if Names(node, "STATIC") then "true" else "false")
                    else if Contains(key, "compr_method") && Names(node, "BLOCK_FLOATING_POINT") then Text("bfp")
                    else node)
  {
    ExtensionNames(attributes);
    NamesIff(node, "STATIC");
    NamesIff(node, "BLOCK_FLOATING_POINT");
  }

  predicate Names(node: Node, word: string) {
    (node.Items? && Text(word) in node.items) || (node.Object? && Get(node.entries, word).Some?)
  }

  lemma NamesIff(node: Node, word: string)
    requires !node.Text?
    ensures Mentions(node, word) <==> Names(node, word)
  {
  }
}
