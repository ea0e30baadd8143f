/** Projecting the pruned overlay of a YAML cell gives the cell back. */
module CellRoundTrip {
  import opened Options
  import OrderedDict
  import opened ConfigTree
  import opened Decimals
  import opened PruneLaws
  import opened YamlMerge
  import opened CellOverlay
  import opened CellProjection
  import opened CellPaths

  /** A scaffold cell as parsed: fit for the projection itself, nothing marked yet, every standard attribute
      there as text, one PLMN. */
  ghost predicate Complete(scaffold: Entries) {
    WellKeyed(scaffold) && !HoldsWrite(scaffold) && Projectable(scaffold) &&
    HasStandardAttributes(scaffold) && HasPlmn(scaffold) &&
    Get(Inside(scaffold, PLMN), "id").None? &&
    TextOrAbsent(Get(scaffold, STATE)) && forall key | key in ATTRS :: TextOrAbsent(Get(scaffold, ATTRS[key]))
  }

  /** The configuration built from a YAML cell. */
  function Config(scaffold: Entries, fields: seq<Field>, ofh: Option<seq<Field>>): Entries {
    Prune(Overlaid(scaffold, fields, ofh), false)
  }

  // ----- Attributes -----

  lemma AttributeAfter(scaffold: Entries, fields: seq<Field>, ofh: Option<seq<Field>>, key: string)
    requires Complete(scaffold) && IsCell(fields, ofh) && (key in ATTRS || key == "enabled")
    ensures var value := Lookup(fields, key);
            Get(Config(scaffold, fields, ofh), Home(key)) ==
            if value.None? then Get(scaffold, Home(key))
            else if key == "enabled"
            then Some(Child(STATE, true, Text(if Truthy(value.value) then "UNLOCKED" else "LOCKED")))
            else Some(Child(ATTRS[key], true, Text(if value.value.Plain? then ScalarText(value.value.scalar) else "")))
  {
    var after := Overlaid(scaffold, fields, ofh);
    var name := Home(key);
    HomesAreDistinct();
    forall i | 0 <= i < |fields| && fields[i].key != key ensures Off(Tree(scaffold, fields[i]), [name]) {
      LookupField(fields, i);
      OffHome(scaffold, fields[i], [name]);
    }
    AtOverlaid(scaffold, fields, ofh, [name], key);
    if Lookup(fields, key).Some? {
      ScalarsAreScalars(fields, key);
      OneField(Tree(scaffold, Field(key, Lookup(fields, key).value))[0], name);
    }
    MergeAllKeepsWellKeyed(scaffold, CellTrees(scaffold, fields, ofh));
    GetPruned(after, false, name);
  }

  lemma {:induction false} ScalarsAreScalars(fields: seq<Field>, key: string)
    requires ScalarAttributes(fields) && Lookup(fields, key).Some?
    ensures key in ATTRS ==> Lookup(fields, key).value.Plain?
  {
    if fields[0].key != key {
      ScalarsAreScalars(fields[1..], key);
    }
  }

  lemma PlmnPartAfter(scaffold: Entries, fields: seq<Field>, ofh: Option<seq<Field>>, part: string)
    requires Complete(scaffold) && IsCell(fields, ofh) && (part == "mcc" || part == "mnc")
    ensures var split := if Lookup(fields, "plmn").Some? then SplitPlmn(Lookup(fields, "plmn").value) else None;
            Get(Inside(Config(scaffold, fields, ofh), PLMN), part) ==
            if split.None? then Get(Inside(scaffold, PLMN), part)
            else Some(Child(part, true, Text(if part == "mcc" then split.value.0 else split.value.1)))
  {
    var after := Overlaid(scaffold, fields, ofh);
    PlmnAfter(scaffold, fields, ofh, part);
    PlmnAfter(scaffold, fields, ofh, "id");
    assert "mcc"[1] != "mnc"[1];
    ExtensionStaysUnmarked(scaffold, fields, ofh);
    MergeAllKeepsWellKeyed(scaffold, CellTrees(scaffold, fields, ofh));
    GetPruned(after, false, PLMN);
    FoundKey(after, PLMN);
    InsideIsWellKeyed(after, PLMN);
    GetPruned(Inside(after, PLMN), false, part);
    FoundKey(Inside(after, PLMN), part);
    PlmnName();
  }

  lemma PlmnName()
    ensures !StartsWith(PLMN, OCUDU_PREFIX) && !AlwaysKept(PLMN)
  {
    assert PLMN[0] == 'p' && |PLMN| == 12;
  }

  lemma PlmnAfter(scaffold: Entries, fields: seq<Field>, ofh: Option<seq<Field>>, part: string)
    requires Complete(scaffold) && IsCell(fields, ofh)
    ensures var split := if Lookup(fields, "plmn").Some? then SplitPlmn(Lookup(fields, "plmn").value) else None;
            Get(Inside(Overlaid(scaffold, fields, ofh), PLMN), part) ==
            if split.Some? && part == "mcc" then Some(Child(part, true, Text(split.value.0)))
            else if split.Some? && part == "mnc" then Some(Child(part, true, Text(split.value.1)))
            else Get(Inside(scaffold, PLMN), part)
  {
    var path := [PLMN, part];
    HomesAreDistinct();
    forall i | 0 <= i < |fields| && fields[i].key != "plmn" ensures Off(Tree(scaffold, fields[i]), path) {
      LookupField(fields, i);
      OffHome(scaffold, fields[i], path);
    }
    AtOverlaid(scaffold, fields, ofh, path, "plmn");
    AtTwo(scaffold, PLMN, part);
    AtTwo(Overlaid(scaffold, fields, ofh), PLMN, part);
    var value := Lookup(fields, "plmn");
    if value.Some? {
      var tree := Tree(scaffold, Field("plmn", value.value));
      ReachTwo(tree, PLMN, part);
      if tree != [] {
        var parts := tree[0].value.fields;
        assert "mcc"[1] != "mnc"[1];
        OneField(tree[0], PLMN);
        assert parts[1..] == [parts[1]];
        OneField(parts[1], part);
      }
    }
  }

  lemma StandardAttributesSurvive(scaffold: Entries, fields: seq<Field>, ofh: Option<seq<Field>>)
    requires Complete(scaffold) && IsCell(fields, ofh)
    ensures HasStandardAttributes(Config(scaffold, fields, ofh))
  {
    AttributeAfter(scaffold, fields, ofh, "pci");
    AttributeAfter(scaffold, fields, ofh, "tac");
    AttributeAfter(scaffold, fields, ofh, "dl_arfcn");
    AttributeAfter(scaffold, fields, ofh, "channel_bandwidth_MHz");
    PlmnPartAfter(scaffold, fields, ofh, "mcc");
    PlmnPartAfter(scaffold, fields, ofh, "mnc");
    assert "pci"[0] != "tac"[0];
  }

  /** A standard attribute comes back as the YAML's text, or as the scaffold has it. */
  lemma StandardAttributeProjected(scaffold: Entries, fields: seq<Field>, ofh: Option<seq<Field>>, key: string)
    requires Complete(scaffold) && IsCell(fields, ofh) && key in ATTRS
    ensures var value := Lookup(fields, key);
            Projected(Config(scaffold, fields, ofh), key) ==
            if value.None? then Some(Element(Get(scaffold, ATTRS[key]).value.node))
            else if value.value.Plain? then Some(Element(Text(ScalarText(value.value.scalar))))
            else None
  {
    StandardAttributesSurvive(scaffold, fields, ofh);
    AttributeAfter(scaffold, fields, ofh, key);
    HomesAreDistinct();
    if Lookup(fields, key).Some? {
      ScalarsAreScalars(fields, key);
    }
  }

  /** A cell comes back enabled exactly when the YAML's value is true, or as the scaffold has it. */
  lemma EnabledProjected(scaffold: Entries, fields: seq<Field>, ofh: Option<seq<Field>>)
    requires Complete(scaffold) && IsCell(fields, ofh)
    ensures var value := Lookup(fields, "enabled");
            Projected(Config(scaffold, fields, ofh), "enabled") ==
            Some(Flag(if value.Some? then Truthy(value.value) else Enabled(scaffold)))
  {
    StandardAttributesSurvive(scaffold, fields, ofh);
    AttributeAfter(scaffold, fields, ofh, "enabled");
    assert |"UNLOCKED"| != |"LOCKED"|;
  }

  /** A PLMN of at least four digits in a string comes back; otherwise the scaffold's stays. */
  lemma PlmnProjected(scaffold: Entries, fields: seq<Field>, ofh: Option<seq<Field>>)
    requires Complete(scaffold) && IsCell(fields, ofh)
    ensures var plmn := Lookup(fields, "plmn");
            Projected(Config(scaffold, fields, ofh), "plmn") ==
            if plmn.Some? && plmn.value.Plain? && plmn.value.scalar.Str? && |plmn.value.scalar.s| >= 4
            then Some(Element(Text(plmn.value.scalar.s)))
            else Projected(scaffold, "plmn")
  {
    StandardAttributesSurvive(scaffold, fields, ofh);
    PlmnPartAfter(scaffold, fields, ofh, "mcc");
    PlmnPartAfter(scaffold, fields, ofh, "mnc");
    var plmn := Lookup(fields, "plmn");
    if plmn.Some? && SplitPlmn(plmn.value).Some? {
      var s := plmn.value.scalar.s;
      assert s[..3] + s[3..] == s;
    }
  }

  // ----- Base leaves -----

  /** Whether the YAML's scalar under a key goes to a leaf of the scaffold's base container. */
  predicate GoesToBase(scaffold: Entries, fields: seq<Field>, key: string) {
    Home(key) == EXT && key !in CHANNELS && HasBaseLeaf(scaffold, key) &&
    Lookup(fields, key).Some? && Lookup(fields, key).value.Plain?
  }

  lemma BaseOverlaid(scaffold: Entries, fields: seq<Field>, ofh: Option<seq<Field>>, key: string)
    requires Complete(scaffold) && IsCell(fields, ofh)
    ensures At(Overlaid(scaffold, fields, ofh), [EXT, BASE, key]) ==
            if GoesToBase(scaffold, fields, key)
            then Some(Child(key, true, Text(BaseText(key, Lookup(fields, key).value.scalar))))
            else At(scaffold, [EXT, BASE, key])
  {
    var path := [EXT, BASE, key];
    ContainersAreDistinct(key);
    forall i | 0 <= i < |fields| && fields[i].key != key ensures Off(Tree(scaffold, fields[i]), path) {
      LookupField(fields, i);
      OffBase(scaffold, fields[i], key);
    }
    AtOverlaid(scaffold, fields, ofh, path, key);
    var value := Lookup(fields, key);
    if value.Some? {
      LookupIsKeyed(fields, key);
      BaseReach(scaffold, Field(key, value.value));
    }
  }

  lemma BaseReach(scaffold: Entries, field: Field)
    requires KeyedValue(field.value)
    ensures ReachOf(Tree(scaffold, field), [EXT, BASE, field.key]) ==
            if GoesToBase(scaffold, [field], field.key)
            then Leaf(Plain(Str(BaseText(field.key, field.value.scalar))))
            else Outside
  {
    var Field(key, value) := field;
    var path := [EXT, BASE, key];
    OneField(field, key);
    HomesAreDistinct();
    ContainersAreDistinct(key);
    if Home(key) != EXT {
      OffHome(scaffold, field, path);
    } else if key in CHANNELS {
      OffRoom(scaffold, field, path);
    } else if value.Plain? {
      var tree := Tree(scaffold, field);
      var inner := tree[0].value.fields[0];
      ReachThree(tree, EXT, BASE, key);
      OneField(tree[0], EXT);
      ReachTwo([inner], BASE, key);
      OneField(inner, BASE);
      if HasBaseLeaf(scaffold, key) {
        OneField(inner.value.fields[0], key);
      }
    }
  }

  /** Some scalar of the YAML goes to the base container, which then survives with its list keys. */
  ghost predicate BaseIsKept(scaffold: Entries, fields: seq<Field>) {
    exists key :: GoesToBase(scaffold, fields, key)
  }

  lemma BaseHoldsIff(scaffold: Entries, fields: seq<Field>, ofh: Option<seq<Field>>)
    requires Complete(scaffold) && IsCell(fields, ofh)
    ensures HoldsWrite(Inside(Inside(Overlaid(scaffold, fields, ofh), EXT), BASE)) <==> BaseIsKept(scaffold, fields)
  {
    var after := Overlaid(scaffold, fields, ofh);
    var leaves, before := Inside(Inside(after, EXT), BASE), Inside(Inside(scaffold, EXT), BASE);
    MergeAllKeepsWellKeyed(scaffold, CellTrees(scaffold, fields, ofh));
    InsideIsWellKeyed(after, EXT);
    InsideIsWellKeyed(Inside(after, EXT), BASE);
    FreshInside(scaffold, EXT, BASE);
    if BaseIsKept(scaffold, fields) {
      var key :| GoesToBase(scaffold, fields, key);
      BaseOverlaid(scaffold, fields, ofh, key);
      AtThree(after, EXT, BASE, key);
      FoundHolds(leaves, key);
    }
    if HoldsWrite(leaves) {
      var key := HolderIsFound(leaves);
      BaseOverlaid(scaffold, fields, ofh, key);
      AtThree(after, EXT, BASE, key);
      AtThree(scaffold, EXT, BASE, key);
      FoundHolds(before, key);
      assert GoesToBase(scaffold, fields, key);
    }
  }

  lemma BaseAfter(scaffold: Entries, fields: seq<Field>, ofh: Option<seq<Field>>, key: string)
    requires Complete(scaffold) && IsCell(fields, ofh)
    ensures Get(Inside(Inside(Config(scaffold, fields, ofh), EXT), BASE), key) ==
            if GoesToBase(scaffold, fields, key)
            then Some(Child(key, true, Text(BaseText(key, Lookup(fields, key).value.scalar))))
            else if AlwaysKept(key) && BaseIsKept(scaffold, fields)
            then Get(Inside(Inside(scaffold, EXT), BASE), key)
            else None
  {
    var after := Overlaid(scaffold, fields, ofh);
    var leaves := Inside(Inside(after, EXT), BASE);
    BaseOverlaid(scaffold, fields, ofh, key);
    BaseHoldsIff(scaffold, fields, ofh);
    AtTwo(scaffold, EXT, BASE);
    AtTwo(after, EXT, BASE);
    AtThree(after, EXT, BASE, key);
    AtThree(scaffold, EXT, BASE, key);
    ExtensionStaysUnmarked(scaffold, fields, ofh);
    MergeAllKeepsWellKeyed(scaffold, CellTrees(scaffold, fields, ofh));
    ContainerName("base");
    ContainerPruned(after, BASE);
    BaseLeafPruned(scaffold, leaves, key);
    InsideIsWellKeyed(after, EXT);
    InsideIsWellKeyed(Inside(after, EXT), BASE);
    GetPruned(leaves, true, key);
  }

  /** A base leaf that is as in the scaffold is dropped unless it is a list key. */
  lemma BaseLeafPruned(scaffold: Entries, leaves: Entries, key: string)
    requires !HoldsWrite(scaffold)
    ensures var child := Get(Inside(Inside(scaffold, EXT), BASE), key);
            Get(leaves, key) == child && child.Some? ==>
              PruneChild(child.value, true) == if AlwaysKept(key) then child else None
  {
    var before := Inside(Inside(scaffold, EXT), BASE);
    FreshInside(scaffold, EXT, BASE);
    FoundHolds(before, key);
    FoundKey(before, key);
    if Get(before, key).Some? && !AlwaysKept(key) {
      FreshIsDropped(Get(before, key).value);
    }
  }

  lemma {:induction false} DigitsOfParts(a: string, b: string)
    ensures Digits(a + b) == Digits(a) + Digits(b)
  {
    if a == "" {
      assert a + b == b;
    } else {
      var head := if '0' <= a[0] <= '9' then [a[0]] else [];
      var x, y := Digits(a[1..]), Digits(b);
      DigitsOfParts(a[1..], b);
      assert (a + b)[1..] == a[1..] + b;
      assert head + (x + y) == (head + x) + y;
    }
  }

  lemma {:induction false} NoDigits(s: string)
    requires forall i :: 0 <= i < |s| ==> !('0' <= s[i] <= '9')
    ensures Digits(s) == ""
  {
    if s != "" {
      NoDigits(s[1..]);
    }
  }

  /** The prefix of a subcarrier spacing adds no digit. */
  lemma SpacingDigits(scalar: Scalar)
    ensures Digits("KHZ_" + Formatted(scalar)) == Digits(ScalarText(scalar))
  {
    DigitsOfParts("KHZ_", Formatted(scalar));
    NoDigits("KHZ_");
    if scalar.Bool? {
      NoDigits(Formatted(scalar));
      NoDigits(ScalarText(scalar));
    }
  }

  /** A leftover scalar comes back from the base container, a subcarrier spacing as its digits; with one that
      does, the container's namespaces and list keys come along; every other key without a container of its
      own is absent. */
  lemma LeftoverComesBack(scaffold: Entries, fields: seq<Field>, ofh: Option<seq<Field>>, key: string)
    requires Complete(scaffold) && IsCell(fields, ofh)
    requires key !in ATTRS && key != "enabled" && key != "plmn" && key !in CHANNELS
    ensures var value, kept := Lookup(fields, key), Get(Inside(Inside(scaffold, EXT), BASE), key);
            Projected(Config(scaffold, fields, ofh), key) ==
            if HasBaseLeaf(scaffold, key) && value.Some? && value.value.Plain? then
              var text := ScalarText(value.value.scalar);
              Some(Element(Text(if Contains(key, "scs") then Digits(text) else text)))
            else if AlwaysKept(key) && BaseIsKept(scaffold, fields) && kept.Some? then
              Some(Element(BaseValue(key, kept.value.node)))
            else None
  {
    BaseAfter(scaffold, fields, ofh, key);
    if GoesToBase(scaffold, fields, key) {
      SpacingDigits(Lookup(fields, key).value.scalar);
    }
  }

  /** Text is its own digits exactly when it holds nothing else, as any natural number's does. */
  lemma {:induction false} DigitsAreAll(s: string)
    ensures Digits(s) == s <==> forall i :: 0 <= i < |s| ==> '0' <= s[i] <= '9'
    ensures |Digits(s)| <= |s|
  {
    if s != "" {
      DigitsAreAll(s[1..]);
      assert s == [s[0]] + s[1..];
      if Digits(s) == s {
        assert Digits(s)[0] == s[0] && ('0' <= s[0] <= '9' ==> Digits(s)[1..] == s[1..]);
      }
    }
  }

  lemma {:induction false} DecimalIsDigits(n: nat)
    ensures Digits(Decimal(n)) == Decimal(n)
  {
    if n >= 10 {
      DecimalIsDigits(n / 10);
      DigitsOfParts(Decimal(n / 10), [Digit(n % 10)]);
    }
    assert [Digit(n % 10)][1..] == "";
  }

  // ----- Containers of their own -----

  /** What a container holds under a key once a mapping is merged onto it and the rest pruned away. */
  function SectionChild(scaffold: Entries, container: string, fields: seq<Field>, key: string): Option<Child> {
    var before, value := Get(Inside(Inside(scaffold, EXT), container), key), Lookup(fields, key);
    if value.Some? then PruneChild(Merged(key, before, value.value), true)
    else if AlwaysKept(key) then before
    else None
  }

  /** A container onto which a mapping was merged survives exactly when the mapping has a leaf. */
  lemma SectionAfter(scaffold: Entries, after: Entries, container: string, fields: seq<Field>)
    requires WellKeyed(after) && !HoldsWrite(scaffold) && !AlwaysKept(container) && Keyed(fields)
    requires !Marked(after, [EXT]) && !Marked(after, [EXT, container])
    requires At(after, [EXT, container])
          == Some(Merged(container, At(scaffold, [EXT, container]), Mapping(fields)))
    ensures var pruned := Get(Inside(Prune(after, false), EXT), container);
            var merged := MergeFields(Inside(Inside(scaffold, EXT), container), fields);
            if HasLeaf(fields) then pruned.Some? && pruned.value.node == Object(Prune(merged, true)) else pruned == None
  {
    AtTwo(after, EXT, container);
    AtTwo(scaffold, EXT, container);
    FreshInside(scaffold, EXT, container);
    ContainerPruned(after, container);
    MergeWritesIffLeaf(Inside(Inside(scaffold, EXT), container), fields);
  }

  lemma SectionKeys(scaffold: Entries, container: string, fields: seq<Field>, key: string)
    requires WellKeyed(scaffold) && !HoldsWrite(scaffold) && Keyed(fields)
    ensures Get(Prune(MergeFields(Inside(Inside(scaffold, EXT), container), fields), true), key)
         == SectionChild(scaffold, container, fields, key)
  {
    var before := Inside(Inside(scaffold, EXT), container);
    InsideIsWellKeyed(scaffold, EXT);
    InsideIsWellKeyed(Inside(scaffold, EXT), container);
    MergeKeepsWellKeyed(before, fields);
    GetPruned(MergeFields(before, fields), true, key);
    GetMerged(before, fields, key);
    FreshInside(scaffold, EXT, container);
    FoundHolds(before, key);
    FoundKey(before, key);
    if Lookup(fields, key).None? && Get(before, key).Some? && !AlwaysKept(key) {
      FreshIsDropped(Get(before, key).value);
    }
  }

  /** A container no tree reaches is gone. */
  lemma SectionGone(scaffold: Entries, after: Entries, container: string)
    requires WellKeyed(after) && !HoldsWrite(scaffold) && !AlwaysKept(container)
    requires !Marked(after, [EXT]) && At(after, [EXT, container]) == At(scaffold, [EXT, container])
    ensures Get(Inside(Prune(after, false), EXT), container) == None
  {
    AtTwo(after, EXT, container);
    AtTwo(scaffold, EXT, container);
    FreshInside(scaffold, EXT, container);
    FoundHolds(Inside(scaffold, EXT), container);
    FoundKey(after, EXT);
    FoundKey(Inside(after, EXT), container);
    ExtensionName();
    GetPruned(after, false, EXT);
    InsideIsWellKeyed(after, EXT);
    GetPruned(Inside(after, EXT), true, container);
    if Get(Inside(after, EXT), container).Some? {
      FreshIsDropped(Get(Inside(after, EXT), container).value);
    }
  }

  lemma OnlyChannel(scaffold: Entries, fields: seq<Field>, path: seq<string>, channel: string)
    requires |path| >= 2 && path[0] == EXT && path[1] == ChannelContainer(channel)
    requires Keyed(fields) && channel in CHANNELS
    ensures OnlyKey(scaffold, fields, path, channel)
  {
    ContainersAreDistinct(channel);
    forall i | 0 <= i < |fields| && fields[i].key != channel ensures Off(Tree(scaffold, fields[i]), path) {
      LookupField(fields, i);
      OffRoom(scaffold, fields[i], path);
    }
  }

  lemma ChannelTree(scaffold: Entries, channel: string, value: Yaml)
    requires channel in CHANNELS && KeyedValue(value)
    ensures var container := ChannelContainer(channel);
            && Tree(scaffold, Field(channel, value)) == [Field(EXT, Mapping([Field(container, value)]))]
            && Reached(Tree(scaffold, Field(channel, value)), [EXT, container]) == Some(value)
  {
    var container := ChannelContainer(channel);
    var tree, inner := Tree(scaffold, Field(channel, value)), Field(container, value);
    OneField(tree[0], EXT);
    OneField(inner, container);
    ReachTwo(tree, EXT, container);
  }

  /** The channel's container after the overlay, whatever the channel's value is. */
  lemma ChannelOverlaid(scaffold: Entries, fields: seq<Field>, ofh: Option<seq<Field>>, channel: string)
    requires Complete(scaffold) && IsCell(fields, ofh) && channel in CHANNELS && Lookup(fields, channel).Some?
    ensures var path, value := [EXT, ChannelContainer(channel)], Lookup(fields, channel).value;
            At(Overlaid(scaffold, fields, ofh), path) == Some(Merged(path[1], At(scaffold, path), value))
  {
    var path := [EXT, ChannelContainer(channel)];
    OnlyChannel(scaffold, fields, path, channel);
    ContainersAreDistinct(channel);
    AtOverlaid(scaffold, fields, ofh, path, channel);
    LookupIsKeyed(fields, channel);
    ChannelTree(scaffold, channel, Lookup(fields, channel).value);
  }

  lemma ChannelPasses(scaffold: Entries, fields: seq<Field>, ofh: Option<seq<Field>>, channel: string, i: nat)
    requires IsCell(fields, ofh) && channel in CHANNELS && i < |CellTrees(scaffold, fields, ofh)|
    requires Lookup(fields, channel).Some? ==> Lookup(fields, channel).value.Mapping?
    ensures Through(CellTrees(scaffold, fields, ofh)[i], [EXT, ChannelContainer(channel)])
  {
    var container := ChannelContainer(channel);
    CellTreeAt(scaffold, fields, ofh, i);
    if i == 0 {
      BlankPasses();
    } else if i <= |fields| {
      LookupField(fields, i - 1);
      FieldPassesChannel(scaffold, fields[i - 1], channel);
    } else {
      OfhFieldsAreKeyed(ofh.value);
      ContainersAreDistinct(channel);
      OtherContainer(OFH, OfhFields(ofh.value), container);
    }
  }

  lemma OtherContainer(container: string, fields: seq<Field>, other: string)
    requires Keyed(fields) && container != other
    ensures Off(InContainer(container, fields), [EXT, other])
  {
    ContainerIsKeyed(container, fields, other);
    ReachTwo(InContainer(container, fields), EXT, other);
  }

  lemma FieldPassesChannel(scaffold: Entries, field: Field, channel: string)
    requires KeyedValue(field.value) && channel in CHANNELS && (field.key == channel ==> field.value.Mapping?)
    ensures Through(Tree(scaffold, field), [EXT, ChannelContainer(channel)])
  {
    if field.key == channel {
      ChannelTree(scaffold, channel, field.value);
      ContainerPasses(ChannelContainer(channel), field.value.fields);
    } else {
      ContainersAreDistinct(channel);
      OffRoom(scaffold, field, [EXT, ChannelContainer(channel)]);
    }
  }

  lemma ChannelStaysUnmarked(scaffold: Entries, fields: seq<Field>, ofh: Option<seq<Field>>, channel: string)
    requires IsCell(fields, ofh) && !HoldsWrite(scaffold) && channel in CHANNELS
    requires Lookup(fields, channel).Some? ==> Lookup(fields, channel).value.Mapping?
    ensures !Marked(Overlaid(scaffold, fields, ofh), [EXT, ChannelContainer(channel)])
  {
    var trees, path := CellTrees(scaffold, fields, ofh), [EXT, ChannelContainer(channel)];
    forall i | 0 <= i < |trees| ensures Through(trees[i], path) {
      ChannelPasses(scaffold, fields, ofh, channel, i);
    }
    MarkStays(scaffold, trees, path);
    FreshInside(scaffold, EXT, path[1]);
  }

  lemma ChannelAfter(scaffold: Entries, fields: seq<Field>, ofh: Option<seq<Field>>, channel: string,
                     section: seq<Field>)
    requires Complete(scaffold) && IsCell(fields, ofh) && channel in CHANNELS
    requires Lookup(fields, channel) == Some(Mapping(section))
    ensures var container := ChannelContainer(channel);
            var pruned := Get(Inside(Config(scaffold, fields, ofh), EXT), container);
            var merged := MergeFields(Inside(Inside(scaffold, EXT), container), section);
            if HasLeaf(section) then pruned.Some? && pruned.value.node == Object(Prune(merged, true)) else pruned == None
  {
    LookupIsKeyed(fields, channel);
    ChannelOverlaid(scaffold, fields, ofh, channel);
    ExtensionStaysUnmarked(scaffold, fields, ofh);
    ChannelStaysUnmarked(scaffold, fields, ofh, channel);
    MergeAllKeepsWellKeyed(scaffold, CellTrees(scaffold, fields, ofh));
    ContainerName(ShortName(channel));
    SectionAfter(scaffold, Overlaid(scaffold, fields, ofh), ChannelContainer(channel), section);
  }

  /** What is rendered in its own way instead of copied: one key of three of the channels. */
  const RENDERED: set<(string, string)> :=
    {("tdd_ul_dl_cfg", "pattern2"), ("pdsch", "rv_sequence"), ("pusch", "rv_sequence")}

  lemma RenderedIff(channel: string, key: string)
    ensures Rendered(channel) == Some(key) <==> (channel, key) in RENDERED
  {
    assert "pdsch" != "pusch" && "tdd_ul_dl_cfg" != "pdsch";
  }

  /** A channel comes back exactly when the YAML has a leaf in it: with the YAML's keys and values, merged onto
      the scaffold's and pruned, but for the rendered ones, and besides only namespaces and list keys the scaffold
      has there. A channel that is no mapping cannot be projected. */
  lemma ChannelComesBack(scaffold: Entries, fields: seq<Field>, ofh: Option<seq<Field>>, channel: string, key: string)
    requires Complete(scaffold) && IsCell(fields, ofh) && channel in FLAT_CHANNELS
    ensures var value, config := Lookup(fields, channel), Config(scaffold, fields, ofh);
            var projected := Projected(config, channel);
            if value.None? then projected == None
            else if !value.value.Mapping? then !Projectable(config)
            else if !HasLeaf(value.value.fields) then projected == None
            else
              var child := SectionChild(scaffold, ChannelContainer(channel), value.value.fields, key);
              && projected.Some? && projected.value.Section?
              && OrderedDict.Get(projected.value.fields, key)
                 == if child.Some? && (channel, key) !in RENDERED then Some(child.value.node) else None
  {
    var config, container := Config(scaffold, fields, ofh), ChannelContainer(channel);
    var value := Lookup(fields, channel);
    FlatChannels(channel);
    RenderedIff(channel, key);
    BaseAfter(scaffold, fields, ofh, channel);
    if value.None? {
      ChannelGone(scaffold, fields, ofh, channel);
    } else if value.value.Mapping? {
      var section := value.value.fields;
      ChannelAfter(scaffold, fields, ofh, channel, section);
      LookupIsKeyed(fields, channel);
      if HasLeaf(section) {
        SectionKeys(scaffold, container, section, key);
        GetCopied(Inside(Inside(config, EXT), container), Rendered(channel), key);
      }
    } else {
      ChannelNotElement(scaffold, fields, ofh, channel);
    }
  }

  /** A channel that is no mapping is written whole, and stays. */
  lemma ChannelNotElement(scaffold: Entries, fields: seq<Field>, ofh: Option<seq<Field>>, channel: string)
    requires Complete(scaffold) && IsCell(fields, ofh) && channel in CHANNELS
    requires Lookup(fields, channel).Some? && !Lookup(fields, channel).value.Mapping?
    ensures !ElementOrAbsent(Get(Inside(Config(scaffold, fields, ofh), EXT), ChannelContainer(channel)))
  {
    var after, container := Overlaid(scaffold, fields, ofh), ChannelContainer(channel);
    ChannelOverlaid(scaffold, fields, ofh, channel);
    AtTwo(after, EXT, container);
    ExtensionStaysUnmarked(scaffold, fields, ofh);
    MergeAllKeepsWellKeyed(scaffold, CellTrees(scaffold, fields, ofh));
    InsideIsWellKeyed(after, EXT);
    FoundHolds(Inside(after, EXT), container);
    FoundKey(after, EXT);
    ExtensionName();
    GetPruned(after, false, EXT);
    GetPruned(Inside(after, EXT), true, container);
  }

  lemma FlatChannels(channel: string)
    requires channel in FLAT_CHANNELS
    ensures channel in CHANNELS && !AlwaysKept(channel)
    ensures channel !in ATTRS && channel != "enabled" && channel != "plmn"
  {
    assert channel[0] in "spctd";
    assert "sst"[2] != "ssb"[2] && "sst"[1] != "srs"[1];
  }

  lemma ChannelGone(scaffold: Entries, fields: seq<Field>, ofh: Option<seq<Field>>, channel: string)
    requires Complete(scaffold) && IsCell(fields, ofh) && channel in CHANNELS && Lookup(fields, channel).None?
    ensures Get(Inside(Config(scaffold, fields, ofh), EXT), ChannelContainer(channel)) == None
  {
    var path := [EXT, ChannelContainer(channel)];
    OnlyChannel(scaffold, fields, path, channel);
    ContainersAreDistinct(channel);
    AtOverlaid(scaffold, fields, ofh, path, channel);
    ExtensionStaysUnmarked(scaffold, fields, ofh);
    MergeAllKeepsWellKeyed(scaffold, CellTrees(scaffold, fields, ofh));
    ContainerName(ShortName(channel));
    SectionGone(scaffold, Overlaid(scaffold, fields, ofh), ChannelContainer(channel));
  }

  // ----- The OFH counterpart -----

  lemma OfhTrees(scaffold: Entries, fields: seq<Field>, ofh: Option<seq<Field>>, path: seq<string>, i: nat)
    requires IsCell(fields, ofh) && i <= |fields| && |path| >= 2 && path[0] == EXT && path[1] == OFH
    ensures i < |CellTrees(scaffold, fields, ofh)| && Off(CellTrees(scaffold, fields, ofh)[i], path)
  {
    CellTreeAt(scaffold, fields, ofh, 0);
    CellTreeAt(scaffold, fields, ofh, i);
    if i == 0 {
      OneField(Field(EXT, Mapping([])), EXT);
      assert path[1..][0] == path[1];
    } else {
      LookupField(fields, i - 1);
      ContainersAreDistinct(fields[i - 1].key);
      OffRoom(scaffold, fields[i - 1], path);
    }
  }

  lemma OfhOverlaid(scaffold: Entries, fields: seq<Field>, ofh: seq<Field>)
    requires IsCell(fields, Some(ofh))
    ensures At(Overlaid(scaffold, fields, Some(ofh)), [EXT, OFH])
         == Some(Merged(OFH, At(scaffold, [EXT, OFH]), Mapping(OfhFields(ofh))))
  {
    var trees, path := CellTrees(scaffold, fields, Some(ofh)), [EXT, OFH];
    var last := |fields| + 1;
    CellTreeAt(scaffold, fields, Some(ofh), 0);
    CellTreeAt(scaffold, fields, Some(ofh), last);
    forall i | 0 <= i < |trees| && i != last ensures Off(trees[i], path) {
      OfhTrees(scaffold, fields, Some(ofh), path, i);
    }
    OfhFieldsAreKeyed(ofh);
    ContainerIsKeyed(OFH, OfhFields(ofh), OFH);
    ReachTwo(trees[last], EXT, OFH);
    Lands(scaffold, trees, last, path, Mapping(OfhFields(ofh)));
  }

  lemma OfhStaysUnmarked(scaffold: Entries, fields: seq<Field>, ofh: Option<seq<Field>>)
    requires IsCell(fields, ofh) && !HoldsWrite(scaffold)
    ensures !Marked(Overlaid(scaffold, fields, ofh), [EXT, OFH])
  {
    var trees := CellTrees(scaffold, fields, ofh);
    AllThroughOfh(scaffold, fields, ofh);
    MarkStays(scaffold, trees, [EXT, OFH]);
    FreshInside(scaffold, EXT, OFH);
  }

  /** The OFH container survives exactly when the counterpart has a leaf, with the counterpart's keys. */
  lemma OfhAfter(scaffold: Entries, fields: seq<Field>, ofh: seq<Field>, key: string)
    requires Complete(scaffold) && IsCell(fields, Some(ofh))
    ensures var ext := Inside(Config(scaffold, fields, Some(ofh)), EXT);
            && (Get(ext, OFH).Some? <==> HasLeaf(OfhFields(ofh)))
            && Get(Inside(ext, OFH), key)
               == if HasLeaf(OfhFields(ofh)) then SectionChild(scaffold, OFH, OfhFields(ofh), key) else None
  {
    OfhFieldsAreKeyed(ofh);
    OfhOverlaid(scaffold, fields, ofh);
    OfhStaysUnmarked(scaffold, fields, Some(ofh));
    ExtensionStaysUnmarked(scaffold, fields, Some(ofh));
    MergeAllKeepsWellKeyed(scaffold, CellTrees(scaffold, fields, Some(ofh)));
    ContainerName("ofh");
    SectionAfter(scaffold, Overlaid(scaffold, fields, Some(ofh)), OFH, OfhFields(ofh));
    SectionKeys(scaffold, OFH, OfhFields(ofh), key);
  }

  lemma OfhWords()
    ensures Contains("STATIC", "STATIC") && !Contains("DYNAMIC", "STATIC") && !Contains("bfp", "STATIC")
    ensures !MeansTrue(Plain(Str("bfp")))
  {
    assert StartsWith("STATIC", "STATIC");
    NoFirstLetter("DYNAMIC", "STATIC");
    NoFirstLetter("bfp", "STATIC");
    LowerKeepsLength("bfp");
  }

  lemma {:induction false} ContainsFits(s: string, word: string)
    requires Contains(s, word)
    ensures |word| <= |s|
  {
    if !StartsWith(s, word) {
      ContainsFits(s[1..], word);
    }
  }

  lemma {:induction false} NoFirstLetter(s: string, word: string)
    requires word != [] && word[0] !in s
    ensures !Contains(s, word)
  {
    if s != "" {
      NoFirstLetter(s[1..], word);
    }
  }

  lemma {:induction false} LowerKeepsLength(s: string)
    ensures |Lower(s)| == |s|
  {
    if s != "" {
      LowerKeepsLength(s[1..]);
    }
  }

  /** A scalar of the OFH counterpart comes back: a static-header switch as whether it is true, block
      floating point under its short name, anything else as its text. */
  lemma OfhScalarComesBack(scaffold: Entries, fields: seq<Field>, ofh: seq<Field>, key: string, scalar: Scalar)
    requires Complete(scaffold) && IsCell(fields, Some(ofh)) && Lookup(ofh, key) == Some(Plain(scalar))
    ensures var text := ScalarText(scalar);
            ProjectedOfh(Config(scaffold, fields, Some(ofh)), key) ==
            Some(Text(if Contains(key, "static_compr_hdr") then if MeansTrue(Plain(scalar)) then "true" else "false"
                      else if Contains(key, "compr_method") && Contains(text, "BLOCK_FLOATING_POINT") then "bfp"
                      else text))
  {
    OfhAfter(scaffold, fields, ofh, key);
    LookupOfh(ofh, key);
    OfhInverse(key, scalar);
    LeafAmong(OfhFields(ofh), key);
  }

  lemma OfhInverse(key: string, scalar: Scalar)
    ensures var written := OfhValue(key, Plain(scalar));
            written.Plain? &&
            var text, back := ScalarText(scalar), OfhBack(key, Text(ScalarText(written.scalar)));
            (Contains(key, "static_compr_hdr") ==> back == Text(if MeansTrue(Plain(scalar)) then "true" else "false")) &&
            (!Contains(key, "static_compr_hdr") ==>
               back == Text(if Contains(key, "compr_method") && Contains(text, "BLOCK_FLOATING_POINT") then "bfp"
                            else text))
  {
    var block := "BLOCK_FLOATING_POINT";
    var compression, header := Contains(key, "compr_method"), Contains(key, "static_compr_hdr");
    var written := OfhValue(key, Plain(scalar));
    OfhWords();
    if compression && scalar == Str("bfp") {
      assert StartsWith(block, block);
      assert Contains(block, block);
    } else if header {
      var word := written.scalar.s;
      assert |word| < |block|;
      if Contains(word, block) {
        ContainsFits(word, block);
      }
    }
  }

  /** Which OFH scalars come back unchanged. */
  lemma OfhScalarIsKeptIff(scaffold: Entries, fields: seq<Field>, ofh: seq<Field>, key: string, scalar: Scalar)
    requires Complete(scaffold) && IsCell(fields, Some(ofh)) && Lookup(ofh, key) == Some(Plain(scalar))
    ensures var text := ScalarText(scalar);
            ProjectedOfh(Config(scaffold, fields, Some(ofh)), key) == Some(Text(text)) <==>
            if Contains(key, "static_compr_hdr") then text == if MeansTrue(Plain(scalar)) then "true" else "false"
            else !(Contains(key, "compr_method") && Contains(text, "BLOCK_FLOATING_POINT"))
  {
    OfhScalarComesBack(scaffold, fields, ofh, key, scalar);
    if Contains(ScalarText(scalar), "BLOCK_FLOATING_POINT") {
      ContainsFits(ScalarText(scalar), "BLOCK_FLOATING_POINT");
    }
  }

  /** Without an OFH counterpart nothing of the OFH container comes back, and with one no further key does,
      namespaces and list keys aside. */
  lemma NoOtherOfh(scaffold: Entries, fields: seq<Field>, ofh: Option<seq<Field>>, key: string)
    requires Complete(scaffold) && IsCell(fields, ofh)
    requires ofh.Some? ==> Lookup(ofh.value, key).None? && !AlwaysKept(key)
    ensures ProjectedOfh(Config(scaffold, fields, ofh), key) == None
  {
    if ofh.Some? {
      OfhAfter(scaffold, fields, ofh.value, key);
      LookupOfh(ofh.value, key);
    } else {
      var trees := CellTrees(scaffold, fields, ofh);
      CellTreeAt(scaffold, fields, ofh, 0);
      forall i | 0 <= i < |trees| ensures Off(trees[i], [EXT, OFH]) {
        OfhTrees(scaffold, fields, ofh, [EXT, OFH], i);
      }
      Stays(scaffold, trees, [EXT, OFH]);
      ExtensionStaysUnmarked(scaffold, fields, ofh);
      MergeAllKeepsWellKeyed(scaffold, trees);
      ContainerName("ofh");
      SectionGone(scaffold, Overlaid(scaffold, fields, ofh), OFH);
    }
  }

  // ----- The configuration can be projected -----

  /** The channels that are projected key by key are mappings in the YAML. */
  predicate ChannelsAreMappings(fields: seq<Field>) {
    forall channel :: channel in FLAT_CHANNELS && Lookup(fields, channel).Some? ==> Lookup(fields, channel).value.Mapping?
  }

  /** Elements stay elements and text stays text below an unmarked element. */
  lemma PruneKeepsKinds(after: Entries, name: string, extension: bool, key: string)
    requires WellKeyed(after) && !Marked(after, [name]) && !AlwaysKept(name) && ElementOrAbsent(Get(after, name))
    ensures var pruned := Prune(after, extension);
            ElementOrAbsent(Get(pruned, name)) &&
            (ElementOrAbsent(Get(Inside(after, name), key)) ==> ElementOrAbsent(Get(Inside(pruned, name), key))) &&
            (TextOrAbsent(Get(Inside(after, name), key)) ==> TextOrAbsent(Get(Inside(pruned, name), key)))
    ensures Inside(Prune(after, extension), name) == []
         || Inside(Prune(after, extension), name)
            == Prune(Inside(after, name), extension || StartsWith(name, OCUDU_PREFIX))
  {
    var childExtension := extension || StartsWith(name, OCUDU_PREFIX);
    GetPruned(after, extension, name);
    FoundKey(after, name);
    InsideIsWellKeyed(after, name);
    GetPruned(Inside(after, name), childExtension, key);
  }

  lemma ContainersStayElements(scaffold: Entries, fields: seq<Field>, ofh: Option<seq<Field>>, container: string)
    requires Complete(scaffold) && IsCell(fields, ofh)
    requires AllThrough(CellTrees(scaffold, fields, ofh), [EXT, container])
    requires ElementOrAbsent(Get(Inside(scaffold, EXT), container))
    ensures var config := Config(scaffold, fields, ofh);
            ElementOrAbsent(Get(config, EXT)) && ElementOrAbsent(Get(Inside(config, EXT), container))
  {
    var after, trees := Overlaid(scaffold, fields, ofh), CellTrees(scaffold, fields, ofh);
    ExtensionStaysUnmarked(scaffold, fields, ofh);
    MergeAllKeepsWellKeyed(scaffold, trees);
    forall i | 0 <= i < |trees| ensures Through(trees[i], [EXT]) { CellPasses(scaffold, fields, ofh, i); }
    MarkStays(scaffold, trees, [EXT]);
    MarkStays(scaffold, trees, [EXT, container]);
    AtTwo(scaffold, EXT, container);
    AtTwo(after, EXT, container);
    ExtensionName();
    PruneKeepsKinds(after, EXT, false, container);
  }

  lemma BaseStaysText(scaffold: Entries, fields: seq<Field>, ofh: Option<seq<Field>>, key: string)
    requires Complete(scaffold) && IsCell(fields, ofh)
    requires TextOrAbsent(Get(Inside(Inside(scaffold, EXT), BASE), key))
    requires ElementOrAbsent(Get(Overlaid(scaffold, fields, ofh), EXT))
    requires ElementOrAbsent(Get(Inside(Overlaid(scaffold, fields, ofh), EXT), BASE))
    ensures TextOrAbsent(Get(Inside(Inside(Config(scaffold, fields, ofh), EXT), BASE), key))
  {
    var after := Overlaid(scaffold, fields, ofh);
    BaseOverlaid(scaffold, fields, ofh, key);
    AtThree(after, EXT, BASE, key);
    AtThree(scaffold, EXT, BASE, key);
    AtTwo(after, EXT, BASE);
    ExtensionStaysUnmarked(scaffold, fields, ofh);
    MergeAllKeepsWellKeyed(scaffold, CellTrees(scaffold, fields, ofh));
    ExtensionName();
    ContainerName("base");
    InsideIsWellKeyed(after, EXT);
    PruneKeepsKinds(after, EXT, false, BASE);
    PruneKeepsKinds(Inside(after, EXT), BASE, true, key);
  }

  /** The configuration is fit for the projection exactly when the YAML's channels are mappings. */
  lemma ConfigIsProjectableIff(scaffold: Entries, fields: seq<Field>, ofh: Option<seq<Field>>)
    requires Complete(scaffold) && IsCell(fields, ofh)
    ensures WellKeyed(Config(scaffold, fields, ofh))
    ensures Projectable(Config(scaffold, fields, ofh)) <==> ChannelsAreMappings(fields)
  {
    if ChannelsAreMappings(fields) {
      ConfigIsProjectable(scaffold, fields, ofh);
    } else {
      MergeAllKeepsWellKeyed(scaffold, CellTrees(scaffold, fields, ofh));
      PruneKeepsWellKeyed(Overlaid(scaffold, fields, ofh), false);
      var channel :| channel in FLAT_CHANNELS && Lookup(fields, channel).Some? && !Lookup(fields, channel).value.Mapping?;
      FlatChannels(channel);
      ChannelNotElement(scaffold, fields, ofh, channel);
    }
  }

  lemma ConfigIsProjectable(scaffold: Entries, fields: seq<Field>, ofh: Option<seq<Field>>)
    requires Complete(scaffold) && IsCell(fields, ofh) && ChannelsAreMappings(fields)
    ensures Projectable(Config(scaffold, fields, ofh)) && WellKeyed(Config(scaffold, fields, ofh))
  {
    var after, trees := Overlaid(scaffold, fields, ofh), CellTrees(scaffold, fields, ofh);
    MergeAllKeepsWellKeyed(scaffold, trees);
    PruneKeepsWellKeyed(after, false);
    PlmnStays(scaffold, fields, ofh);
    AllThroughOfh(scaffold, fields, ofh);
    ContainersStayElements(scaffold, fields, ofh, OFH);
    forall i | 0 <= i < |trees| ensures Through(trees[i], [EXT, BASE]) && Through(trees[i], [EXT]) {
      CellPasses(scaffold, fields, ofh, i);
    }
    ContainersStayElements(scaffold, fields, ofh, BASE);
    MarkStays(scaffold, trees, [EXT]);
    MarkStays(scaffold, trees, [EXT, BASE]);
    AtTwo(scaffold, EXT, BASE);
    AtTwo(after, EXT, BASE);
    forall key | Contains(key, "scs")
      ensures TextOrAbsent(Get(Inside(Inside(Config(scaffold, fields, ofh), EXT), BASE), key))
    {
      BaseStaysText(scaffold, fields, ofh, key);
    }
    forall channel | channel in FLAT_CHANNELS
      ensures ElementOrAbsent(Get(Inside(Config(scaffold, fields, ofh), EXT), ChannelContainer(channel)))
    {
      ChannelStaysElement(scaffold, fields, ofh, channel);
    }
  }

  lemma ChannelStaysElement(scaffold: Entries, fields: seq<Field>, ofh: Option<seq<Field>>, channel: string)
    requires Complete(scaffold) && IsCell(fields, ofh) && ChannelsAreMappings(fields) && channel in FLAT_CHANNELS
    ensures ElementOrAbsent(Get(Inside(Config(scaffold, fields, ofh), EXT), ChannelContainer(channel)))
  {
    var trees, path := CellTrees(scaffold, fields, ofh), [EXT, ChannelContainer(channel)];
    FlatChannels(channel);
    forall i | 0 <= i < |trees| ensures Through(trees[i], path) {
      ChannelPasses(scaffold, fields, ofh, channel, i);
    }
    ContainersStayElements(scaffold, fields, ofh, ChannelContainer(channel));
  }

  lemma AllThroughOfh(scaffold: Entries, fields: seq<Field>, ofh: Option<seq<Field>>)
    requires IsCell(fields, ofh)
    ensures AllThrough(CellTrees(scaffold, fields, ofh), [EXT, OFH])
  {
    var trees := CellTrees(scaffold, fields, ofh);
    forall i | 0 <= i < |trees| ensures Through(trees[i], [EXT, OFH]) {
      CellTreeAt(scaffold, fields, ofh, i);
      if i <= |fields| {
        OfhTrees(scaffold, fields, ofh, [EXT, OFH], i);
      } else {
        OfhFieldsAreKeyed(ofh.value);
        ContainerPasses(OFH, OfhFields(ofh.value));
      }
    }
  }

  lemma PlmnStays(scaffold: Entries, fields: seq<Field>, ofh: Option<seq<Field>>)
    requires Complete(scaffold) && IsCell(fields, ofh)
    ensures var config := Config(scaffold, fields, ofh);
            ElementOrAbsent(Get(config, PLMN)) &&
            TextOrAbsent(Get(Inside(config, PLMN), "mcc")) && TextOrAbsent(Get(Inside(config, PLMN), "mnc"))
  {
    var after := Overlaid(scaffold, fields, ofh);
    PlmnPartAfter(scaffold, fields, ofh, "mcc");
    PlmnPartAfter(scaffold, fields, ofh, "mnc");
    ExtensionStaysUnmarked(scaffold, fields, ofh);
    MergeAllKeepsWellKeyed(scaffold, CellTrees(scaffold, fields, ofh));
    PlmnName();
    PruneKeepsKinds(after, PLMN, false, "mcc");
  }
}
