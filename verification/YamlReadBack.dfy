/** Reading a merged tree back: a tree tells a YAML value when every scalar, list and record of it can be read off the
    tree, in order, without knowing how it was written. */
module YamlReadBack {
  import opened Options
  import opened Decimals
  import opened ConfigTree
  import opened YamlMerge

  // ----- Numbers -----

  predicate IsNumeral(s: string) {
    s != "" && forall i :: 0 <= i < |s| ==> '0' <= s[i] <= '9'
  }

  /** The number a row of decimal digits denotes. */
  function Denotes(s: string): nat
    requires IsNumeral(s)
  {
    (if |s| == 1 then 0 else 10 * Denotes(s[..|s| - 1])) + (s[|s| - 1] as int - '0' as int)
  }

  lemma OneMoreDigit(s: string, digit: char)
    requires IsNumeral(s) && '0' <= digit <= '9'
    ensures IsNumeral(s + [digit]) && Denotes(s + [digit]) == 10 * Denotes(s) + (digit as int - '0' as int)
  {
    assert (s + [digit])[..|s|] == s;
  }

  lemma OneDigit(digit: char)
    requires '0' <= digit <= '9'
    ensures IsNumeral([digit]) && Denotes([digit]) == digit as int - '0' as int
  {
  }

  /** The decimal text of a number denotes it. */
  lemma {:induction false} DecimalDenotes(n: nat)
    ensures IsNumeral(Decimal(n)) && Denotes(Decimal(n)) == n
  {
    var digit := Digit(n % 10);
    if n >= 10 {
      DecimalDenotes(n / 10);
      OneMoreDigit(Decimal(n / 10), digit);
      assert Decimal(n) == Decimal(n / 10) + [digit];
    } else {
      OneDigit(digit);
      assert Decimal(n) == [digit];
    }
  }

  lemma {:induction false} NoLeadingZero(n: nat)
    ensures Decimal(n) != "" && (Decimal(n)[0] == '0' <==> n == 0)
  {
    if n >= 10 {
      NoLeadingZero(n / 10);
    }
  }

  /** The text spells the integer: a numeral, after a minus sign when it is negative. */
  predicate Spells(text: string, n: int) {
    if n < 0 then text != "" && text[0] == '-' && IsNumeral(text[1..]) && Denotes(text[1..]) == -n
    else IsNumeral(text) && Denotes(text) == n
  }

  lemma IntsAreSpelled(n: int)
    ensures Spells(IntText(n), n)
  {
    if n < 0 {
      DecimalDenotes(-n);
      assert IntText(n) == "-" + Decimal(-n);
      assert IntText(n)[0] == '-' && IntText(n)[1..] == Decimal(-n);
    } else {
      DecimalDenotes(n);
    }
  }

  /** The text of a scalar: truth values in lower case, integers in decimal, strings as they are. */
  lemma ScalarsAreSpelled(scalar: Scalar)
    ensures scalar == Bool(true) ==> ScalarText(scalar) == "true"
    ensures scalar == Bool(false) ==> ScalarText(scalar) == "false"
    ensures scalar.Int? ==> Spells(ScalarText(scalar), scalar.n)
    ensures scalar.Str? ==> ScalarText(scalar) == scalar.s
  {
    if scalar.Int? {
      IntsAreSpelled(scalar.n);
    }
  }

  // ----- Lists of scalars in one leaf -----

  /** Text cut at every ", ", from the left. */
  function Split(s: string): (parts: seq<string>)
    ensures parts != []
  {
    if |s| < 2 then [s]
    else if s[0] == ',' && s[1] == ' ' then [""] + Split(s[2..])
    else
      var rest := Split(s[1..]);
      [[s[0]] + rest[0]] + rest[1..]
  }

  predicate Separable(s: string) {
    forall i :: 0 <= i < |s| - 1 ==> !(s[i] == ',' && s[i + 1] == ' ')
  }

  lemma SplitFirst(c: char, s: string)
    requires c == ',' && s != "" ==> s[0] != ' '
    ensures var rest := Split(s); Split([c] + s) == [[c] + rest[0]] + rest[1..]
  {
    assert ([c] + s)[1..] == s;
  }

  lemma SplitSeparator(s: string)
    ensures Split(", " + s) == [""] + Split(s)
  {
    assert (", " + s)[2..] == s;
  }

  lemma HeadJoined(c: char, x: seq<string>, y: seq<string>)
    requires x != []
    ensures [[c] + (x + y)[0]] + (x + y)[1..] == ([[c] + x[0]] + x[1..]) + y
  {
  }

  lemma SplitAcrossFirst(c: char, rest: string, b: string)
    requires c == ',' && rest != "" ==> rest[0] != ' '
    requires Split(rest + ", " + b) == Split(rest) + Split(b)
    ensures Split([c] + rest + ", " + b) == Split([c] + rest) + Split(b)
  {
    var all := rest + ", " + b;
    assert [c] + rest + ", " + b == [c] + all;
    assert all[0] == if rest == "" then ',' else rest[0];
    SplitFirst(c, all);
    SplitFirst(c, rest);
    HeadJoined(c, Split(rest), Split(b));
  }

  lemma SplitAcrossSeparator(rest: string, b: string)
    requires Split(rest + ", " + b) == Split(rest) + Split(b)
    ensures Split(", " + rest + ", " + b) == Split(", " + rest) + Split(b)
  {
    assert ", " + rest + ", " + b == ", " + (rest + ", " + b);
    SplitSeparator(rest);
    SplitSeparator(rest + ", " + b);
  }

  lemma {:induction false} SplitAcross(a: string, b: string)
    ensures Split(a + ", " + b) == Split(a) + Split(b)
    decreases |a|
  {
    if a == "" {
      SplitSeparator(b);
      assert a + ", " + b == ", " + b;
    } else if |a| >= 2 && a[0] == ',' && a[1] == ' ' {
      SplitAcross(a[2..], b);
      SplitAcrossSeparator(a[2..], b);
      assert a == ", " + a[2..];
    } else {
      SplitAcross(a[1..], b);
      SplitAcrossFirst(a[0], a[1..], b);
      assert a == [a[0]] + a[1..];
    }
  }

  lemma {:induction false} WholeIffSeparable(s: string)
    ensures |Split(s)| == 1 <==> Separable(s)
    ensures |Split(s)| == 1 <==> Split(s) == [s]
  {
    if |s| >= 2 {
      if s[0] == ',' && s[1] == ' ' {
        assert Split(s)[0] == "";
      } else {
        WholeIffSeparable(s[1..]);
        assert s == [s[0]] + s[1..];
        if Separable(s[1..]) {
          forall i | 0 <= i < |s| - 1 ensures !(s[i] == ',' && s[i + 1] == ' ') {
            assert i > 0 ==> s[i] == s[1..][i - 1] && s[i + 1] == s[1..][i];
          }
        } else {
          var i :| 0 <= i < |s[1..]| - 1 && s[1..][i] == ',' && s[1..][i + 1] == ' ';
          assert s[i + 1] == ',' && s[i + 2] == ' ';
        }
      }
    }
  }

  function TextsOf(scalars: seq<Scalar>): (texts: seq<string>)
    ensures |texts| == |scalars|
  {
    seq(|scalars|, i requires 0 <= i < |scalars| => ScalarText(scalars[i]))
  }

  predicate AllSeparable(scalars: seq<Scalar>) {
    forall i :: 0 <= i < |scalars| ==> Separable(ScalarText(scalars[i]))
  }

  /** A joined list is at least as many parts as it has elements, and splits into their texts exactly when none of them
      holds a separator itself. */
  lemma {:induction false} JoinedSplitsIff(scalars: seq<Scalar>)
    requires scalars != []
    ensures |Split(Joined(scalars))| >= |scalars|
    ensures |Split(Joined(scalars))| == |scalars| <==> AllSeparable(scalars)
    ensures AllSeparable(scalars) <==> Split(Joined(scalars)) == TextsOf(scalars)
  {
    var first, rest := ScalarText(scalars[0]), scalars[1..];
    WholeIffSeparable(first);
    assert AllSeparable(scalars) <==> Separable(first) && AllSeparable(rest) by {
      assert forall i :: 0 <= i < |rest| ==> rest[i] == scalars[i + 1];
      if Separable(first) && AllSeparable(rest) {
        forall i | 0 <= i < |scalars| ensures Separable(ScalarText(scalars[i])) {
          assert i > 0 ==> scalars[i] == rest[i - 1];
        }
      }
    }
    if |scalars| > 1 {
      JoinedSplitsIff(rest);
      SplitAcross(first, Joined(rest));
      assert TextsOf(scalars) == [first] + TextsOf(rest);
    } else {
      assert TextsOf(scalars) == [first];
    }
  }

  // ----- Trees that tell a value -----

  /** The text of a leaf that holds a list: in brackets, its elements separated by ", ". */
  predicate TellsInOneLeaf(text: string, scalars: seq<Scalar>) {
    && 2 <= |text| && text[0] == '[' && text[|text| - 1] == ']'
    && var inner := text[1..|text| - 1];
       if scalars == [] then inner == "" else AllSeparable(scalars) <==> Split(inner) == TextsOf(scalars)
  }

  predicate TellsEach(items: seq<Node>, scalars: seq<Scalar>) {
    |items| == |scalars| && forall i :: 0 <= i < |scalars| ==> items[i] == Text(ScalarText(scalars[i]))
  }

  /** The node holds the value: a scalar's text; a list in one leaf, or as a leaf-list, element by element; a list of
      mappings as that many elements, each holding its record and nothing else; a mapping with every key of it. */
  predicate Tells(node: Node, value: Yaml)
    decreases value, 1
  {
    match value
    case Plain(scalar) => node == Text(ScalarText(scalar))
    case Listing(scalars) =>
      (node.Text? && TellsInOneLeaf(node.text, scalars)) || (node.Items? && TellsEach(node.items, scalars))
    case Mapping(fields) => node.Object? && TellsFields(node.entries, fields)
    case Records(records) => node.Items? && TellsRecords(node.items, records)
  }

  predicate TellsFields(entries: Entries, fields: seq<Field>)
    decreases fields, 0
  {
    fields != [] ==>
      && Get(entries, fields[0].key).Some?
      && Tells(Get(entries, fields[0].key).value.node, fields[0].value)
      && TellsFields(entries, fields[1..])
  }

  predicate TellsRecords(items: seq<Node>, records: seq<Record>)
    decreases records, 0
  {
    && |items| == |records|
    && (records != [] ==>
          && items[0].Object?
          && TellsFields(items[0].entries, records[0].fields)
          && OnlyKeysOf(items[0].entries, records[0].fields)
          && TellsRecords(items[1..], records[1..]))
  }

  predicate OnlyKeysOf(entries: Entries, fields: seq<Field>) {
    forall i :: 0 <= i < |entries| ==> Lookup(fields, entries[i].key).Some?
  }

  lemma {:induction false} TextsTellEach(scalars: seq<Scalar>)
    ensures TellsEach(Texts(scalars), scalars)
  {
    if scalars != [] {
      TextsTellEach(scalars[1..]);
      forall i | 0 <= i < |scalars| ensures Texts(scalars)[i] == Text(ScalarText(scalars[i])) {
        assert i > 0 ==> Texts(scalars)[i] == Texts(scalars[1..])[i - 1];
      }
    }
  }

  lemma BracketsTell(scalars: seq<Scalar>)
    ensures TellsInOneLeaf("[" + Joined(scalars) + "]", scalars)
  {
    var text := "[" + Joined(scalars) + "]";
    assert text[1..|text| - 1] == Joined(scalars);
    if scalars != [] {
      JoinedSplitsIff(scalars);
    }
  }

  lemma {:induction false} RebuiltTells(records: seq<Record>)
    requires KeyedRecords(records)
    ensures TellsRecords(Rebuilt(records), records)
    decreases records, 0
  {
    if records != [] {
      MergeTells([], records[0].fields);
      FieldsAreFound(records[0].fields);
      MergeAddsOnly([], records[0].fields, records[0].fields);
      RebuiltTells(records[1..]);
      assert Rebuilt(records)[1..] == Rebuilt(records[1..]);
    }
  }

  /** Merging adds no key but the mapping's. */
  lemma {:induction false} MergeAddsOnly(entries: Entries, fields: seq<Field>, all: seq<Field>)
    requires OnlyKeysOf(entries, all)
    requires forall i :: 0 <= i < |fields| ==> Lookup(all, fields[i].key).Some?
    ensures OnlyKeysOf(MergeFields(entries, fields), all)
    decreases fields
  {
    if fields != [] {
      var child := Merged(fields[0].key, Get(entries, fields[0].key), fields[0].value);
      PutAddsOnly(entries, child, all);
      MergeAddsOnly(Put(entries, child), fields[1..], all);
    }
  }

  lemma {:induction false} PutAddsOnly(entries: Entries, child: Child, all: seq<Field>)
    requires OnlyKeysOf(entries, all) && Lookup(all, child.key).Some?
    ensures OnlyKeysOf(Put(entries, child), all)
  {
    if entries != [] && entries[0].key != child.key {
      forall i | 0 <= i < |entries[1..]| ensures Lookup(all, entries[1..][i].key).Some? {
        assert entries[1..][i] == entries[i + 1];
      }
      PutAddsOnly(entries[1..], child, all);
      forall i | 0 <= i < |Put(entries, child)| ensures Lookup(all, Put(entries, child)[i].key).Some? {
        assert i > 0 ==> Put(entries, child)[i] == Put(entries[1..], child)[i - 1];
      }
    }
  }

  lemma {:induction false} FieldsAreFound(fields: seq<Field>)
    ensures forall i :: 0 <= i < |fields| ==> Lookup(fields, fields[i].key).Some?
  {
    if fields != [] {
      FieldsAreFound(fields[1..]);
      forall i | 0 <= i < |fields| ensures Lookup(fields, fields[i].key).Some? {
        assert i > 0 ==> fields[i] == fields[1..][i - 1];
      }
    }
  }

  lemma {:induction false} MergedTells(key: string, existing: Option<Child>, value: Yaml)
    requires KeyedValue(value)
    ensures Tells(Merged(key, existing, value).node, value)
    decreases value, 1
  {
    match value
    case Plain(_) =>
    case Listing(scalars) =>
      TextsTellEach(scalars);
      BracketsTell(scalars);
    case Mapping(fields) => MergeTells(Under(existing), fields);
    case Records(records) => RebuiltTells(records);
  }

  /** Whatever was there before, a tree onto which a mapping was merged tells it: every scalar, list and record of it can
      be read back, at every depth. */
  lemma {:induction false} MergeTells(entries: Entries, fields: seq<Field>)
    requires Keyed(fields)
    ensures TellsFields(MergeFields(entries, fields), fields)
    decreases fields, 2
  {
    TailTells(entries, fields, 0);
  }

  lemma {:induction false} TailTells(entries: Entries, fields: seq<Field>, k: nat)
    requires Keyed(fields) && k <= |fields|
    ensures TellsFields(MergeFields(entries, fields), fields[k..])
    decreases fields, 1, |fields| - k
  {
    if k < |fields| {
      var key := fields[k].key;
      LookupField(fields, k);
      GetMerged(entries, fields, key);
      assert fields[k] in fields;
      MergedTells(key, Get(entries, key), fields[k].value);
      TailTells(entries, fields, k + 1);
      assert fields[k..][1..] == fields[k + 1..];
    }
  }

  // ----- Which form a list takes -----

  /** The form of a list of scalars: that of a leaf-list already there, else one leaf. */
  predicate TellsInPlace(before: Option<Child>, node: Node, scalars: seq<Scalar>) {
    if before.Some? && before.value.node.Items? then node.Items? && TellsEach(node.items, scalars)
    else node.Text? && TellsInOneLeaf(node.text, scalars)
  }

  lemma ListingTellsInPlace(key: string, existing: Option<Child>, scalars: seq<Scalar>)
    ensures TellsInPlace(existing, Merged(key, existing, Listing(scalars)).node, scalars)
  {
    TextsTellEach(scalars);
    BracketsTell(scalars);
  }

  /** A list of scalars replaces a leaf-list element by element, and is one leaf in brackets anywhere else. */
  lemma ListingReadsBack(entries: Entries, fields: seq<Field>, path: seq<string>, scalars: seq<Scalar>)
    requires path != [] && Keyed(fields) && ReachOf(fields, path) == Leaf(Listing(scalars))
    ensures var before, after := At(entries, path), At(MergeFields(entries, fields), path);
            && after.Some? && after.value.written && after.value.key == path[|path| - 1]
            && TellsInPlace(before, after.value.node, scalars)
  {
    MergeIsLawful(entries, fields, path);
    ListingTellsInPlace(path[|path| - 1], At(entries, path), scalars);
  }

  /** A list of mappings becomes that many elements, whatever was there, each telling its record and no more. */
  lemma RecordsReadBack(entries: Entries, fields: seq<Field>, path: seq<string>, records: seq<Record>, i: nat)
    requires path != [] && Keyed(fields) && ReachOf(fields, path) == Leaf(Records(records)) && KeyedRecords(records)
    requires i < |records|
    ensures var after := At(MergeFields(entries, fields), path);
            && after.Some? && after.value.written && after.value.node.Items?
            && |after.value.node.items| == |records|
            && after.value.node.items[i].Object?
            && TellsFields(after.value.node.items[i].entries, records[i].fields)
            && OnlyKeysOf(after.value.node.items[i].entries, records[i].fields)
  {
    MergeIsLawful(entries, fields, path);
    RebuiltTells(records);
    RecordAt(Rebuilt(records), records, i);
  }

  lemma {:induction false} RecordAt(items: seq<Node>, records: seq<Record>, i: nat)
    requires TellsRecords(items, records) && i < |records|
    ensures items[i].Object? && TellsFields(items[i].entries, records[i].fields) && OnlyKeysOf(items[i].entries, records[i].fields)
  {
    if i > 0 {
      RecordAt(items[1..], records[1..], i - 1);
    }
  }
}
