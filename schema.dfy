/** The two constant tables of the configuration reader: the keys an entry
    object may hold and the button names, with the first-match prefix lookup
    both are searched with. */
module Schema {
  import opened Wrappers
  import opened JsonTokens

  /** One recognised key of an entry object and whether every entry needs it. */
  datatype OptionSpec = OptionSpec(name: string, mandatory: bool)

  /** `accepted_options`, in table order. */
  const AcceptedOptions: seq<OptionSpec> :=
    [OptionSpec("name", true), OptionSpec("location", true), OptionSpec("offset", false), OptionSpec("buttons", true)]

  /** Positions of the keys in AcceptedOptions. */
  const NameKey: nat := 0
  const LocationKey: nat := 1
  const OffsetKey: nat := 2
  const ButtonsKey: nat := 3

  /** `button_strings`, in table order. */
  const ButtonNames: seq<string> :=
    ["None", "A", "B", "Select", "Start", "Right", "Left", "Up", "Down", "R", "L", "X", "Y"]

  function OptionNames(list: seq<OptionSpec>): (r: seq<string>)
    ensures |r| == |list| && forall i :: 0 <= i < |list| ==> r[i] == list[i].name
  {
    seq(|list|, i requires 0 <= i < |list| => list[i].name)
  }

  /** The table's facts both passes rely on: its keys begin with different
      letters, so no two of them start the same text, and every key but
      "offset" is mandatory. */
  lemma OptionNamesApart(i: nat, j: nat, json: string, pos: nat)
    requires i < |AcceptedOptions| && j < |AcceptedOptions| && i != j
    ensures AcceptedOptions[i].name[0] != AcceptedOptions[j].name[0]
    ensures !(PrefixAt(AcceptedOptions[i].name, json, pos) && PrefixAt(AcceptedOptions[j].name, json, pos))
    ensures AcceptedOptions[i].mandatory <==> i != OffsetKey
  {
    var a, b := AcceptedOptions[i].name, AcceptedOptions[j].name;
    if PrefixAt(a, json, pos) && PrefixAt(b, json, pos) {
      FirstLetter(a, json, pos);
      FirstLetter(b, json, pos);
    }
  }

  /** The first name of the table that is a prefix of the text at `pos`. */
  function FirstPrefix(names: seq<string>, json: string, pos: nat): (r: Option<nat>)
    ensures r.Some? ==> r.value < |names|
  {
    if |names| == 0 then None
    else if PrefixAt(names[0], json, pos) then Some(0)
    else match FirstPrefix(names[1..], json, pos)
      case None => None
      case Some(i) => Some(i + 1)
  }

  /** FirstPrefix is the first match: the name it finds is a prefix of the
      text and no earlier name is; it finds none exactly when no name is. */
  lemma {:induction false} FirstPrefixSpec(names: seq<string>, json: string, pos: nat)
    ensures FirstPrefix(names, json, pos).Some? ==>
              && PrefixAt(names[FirstPrefix(names, json, pos).value], json, pos)
              && forall j :: 0 <= j < FirstPrefix(names, json, pos).value ==> !PrefixAt(names[j], json, pos)
    ensures FirstPrefix(names, json, pos).None? <==> forall j :: 0 <= j < |names| ==> !PrefixAt(names[j], json, pos)
  {
    if |names| > 0 && !PrefixAt(names[0], json, pos) {
      var rest := names[1..];
      FirstPrefixSpec(rest, json, pos);
      assert forall j :: 1 <= j < |names| ==> names[j] == rest[j - 1];
    }
  }

  /** The first name with the prefix, as a scan that saw no earlier one finds it. */
  lemma FirstPrefixIs(names: seq<string>, json: string, pos: nat, i: nat)
    requires i < |names| && PrefixAt(names[i], json, pos)
    requires forall j :: 0 <= j < i ==> !PrefixAt(names[j], json, pos)
    ensures FirstPrefix(names, json, pos) == Some(i)
  {
    FirstPrefixSpec(names, json, pos);
  }

  /** The key class of the text at `pos` (which option it matches), if any. */
  function KeyOf(json: string, pos: nat): Option<nat>
  {
    FirstPrefix(OptionNames(AcceptedOptions), json, pos)
  }

  /** The branch both passes take on the key text at `pos`: they test for
      "name", then "location", then "buttons", and take every other text for
      an offset. */
  datatype KeyBranch = NameBranch | LocationBranch | ButtonsBranch | OffsetBranch

  function Branch(json: string, pos: nat): KeyBranch
  {
    if PrefixAt("name", json, pos) then NameBranch
    else if PrefixAt("location", json, pos) then LocationBranch
    else if PrefixAt("buttons", json, pos) then ButtonsBranch
    else OffsetBranch
  }

  /** The four keys begin with four different letters, so at most one of them
      is a prefix of any text: the first match is the only match, and the
      branch on "name", "location", "buttons" (else "offset") that both passes
      take selects the key class. */
  lemma KeyClasses(json: string, pos: nat)
    ensures KeyOf(json, pos) == Some(NameKey) <==> PrefixAt("name", json, pos)
    ensures KeyOf(json, pos) == Some(LocationKey) <==> PrefixAt("location", json, pos)
    ensures KeyOf(json, pos) == Some(ButtonsKey) <==> PrefixAt("buttons", json, pos)
    ensures KeyOf(json, pos) == Some(OffsetKey) <==> PrefixAt("offset", json, pos)
    ensures KeyOf(json, pos).Some? ==> KeyOf(json, pos).value < 4
    ensures KeyOf(json, pos) == Some(NameKey) <==> Branch(json, pos) == NameBranch
    ensures KeyOf(json, pos) == Some(LocationKey) <==> Branch(json, pos) == LocationBranch
    ensures KeyOf(json, pos) == Some(ButtonsKey) <==> Branch(json, pos) == ButtonsBranch
    ensures KeyOf(json, pos) == Some(OffsetKey) ==> Branch(json, pos) == OffsetBranch
  {
    var names := OptionNames(AcceptedOptions);
    assert names == ["name", "location", "offset", "buttons"];
    var r := KeyOf(json, pos);
    FirstPrefixSpec(names, json, pos);
    forall k | 0 <= k < 4 && PrefixAt(names[k], json, pos) ensures r == Some(k) {
      FirstLetter(names[k], json, pos);
      FirstLetter(names[r.value], json, pos);
      assert names[r.value][0] == names[k][0];
    }
  }

  /** A name that is a prefix of the text at `pos` fixes the character there. */
  lemma FirstLetter(name: string, json: string, pos: nat)
    requires |name| > 0 && PrefixAt(name, json, pos)
    ensures pos < |json| && json[pos] == name[0]
  {
    assert json[pos..pos + |name|][0] == json[pos];
  }

  /** `(1 << i) >> 1`: no bit for "None" (index 0), bit i-1 for the others. */
  function ButtonFlag(i: nat): bv32
    requires i < |ButtonNames|
  {
    (1 << i) >> 1
  }

  /** The flag of every button name: None is 0, A is bit 0, ..., Y is bit 11;
      the twelve real buttons have distinct single bits. */
  lemma ButtonFlagValues(i: nat, j: nat)
    requires i < |ButtonNames| && j < |ButtonNames|
    ensures ButtonFlag(0) == 0
    ensures 0 < i ==> ButtonFlag(i) == 1 << (i - 1)
    ensures 0 < i && 0 < j && i != j ==> ButtonFlag(i) & ButtonFlag(j) == 0
    ensures ButtonFlag(12) == 0x800
  {
  }

  /** `mask |= flag`. Kept as a function of its own, so that masks built up
      element by element stay terms the solver does not expand into bits. */
  function AddFlag(mask: bv32, flag: bv32): bv32
  {
    mask | flag
  }

  /** `token_extract_button`'s decision: the flag of the first table name that
      is a prefix of the text at `pos`, or nothing when none is. */
  function DecodeButton(json: string, pos: nat): Option<bv32>
  {
    match FirstPrefix(ButtonNames, json, pos)
    case None => None
    case Some(i) => Some(ButtonFlag(i))
  }

  /** A text is no button exactly when no name of the table is a prefix of it. */
  lemma DecodeButtonNone(json: string, pos: nat)
    ensures DecodeButton(json, pos).None? <==> forall j :: 0 <= j < |ButtonNames| ==> !PrefixAt(ButtonNames[j], json, pos)
  {
    FirstPrefixSpec(ButtonNames, json, pos);
  }

  /** Each name of the table, written as a JSON string, decodes to its own
      flag: no earlier name shadows it when the text after the name is the
      closing quote. */
  lemma DecodeExactName(json: string, pos: nat, i: nat)
    requires i < |ButtonNames|
    requires PrefixAt(ButtonNames[i], json, pos)
    requires CharAt(json, pos + |ButtonNames[i]|) == '"'
    ensures DecodeButton(json, pos) == Some(ButtonFlag(i))
  {
    var name := ButtonNames[i];
    forall j | 0 <= j < i ensures !PrefixAt(ButtonNames[j], json, pos) {
      var other := ButtonNames[j];
      NoEarlierNameIsPrefix(j, i);
      if |other| <= |name| {
        assert json[pos..pos + |other|] == json[pos..pos + |name|][..|other|];
      } else if pos + |other| <= |json| {
        assert json[pos..pos + |other|][|name|] == '"';
        assert other[|name|] != '"';
      }
    }
    FirstPrefixIs(ButtonNames, json, pos, i);
  }

  /** No name of the table is a prefix of a later one ("Right" comes before
      "R", "Left" before "L"). */
  lemma NoEarlierNameIsPrefix(j: nat, i: nat)
    requires j < i < |ButtonNames|
    ensures |ButtonNames[j]| <= |ButtonNames[i]| ==> ButtonNames[i][..|ButtonNames[j]|] != ButtonNames[j]
    ensures '"' !in ButtonNames[j]
  {
    var a, b := ButtonNames[j], ButtonNames[i];
    if |a| <= |b| {
      assert a[0] != b[0];
      assert b[..|a|][0] == b[0];
    }
  }

  /** A text whose first character differs from the name's does not start
      with the name. */
  lemma NotPrefixByFirst(name: string, json: string, pos: nat)
    requires |name| > 0 && (pos >= |json| || json[pos] != name[0])
    ensures !PrefixAt(name, json, pos)
  {
    if pos + |name| <= |json| {
      assert json[pos..pos + |name|][0] == json[pos];
    }
  }

  /** The matching compares only strlen(name) characters, so a longer word
      that starts with a table name decodes to that name's flag. */
  lemma DecodeIsPrefixMatch()
    ensures DecodeButton("Selected\"", 0) == Some(ButtonFlag(3))
  {
    var json := "Selected\"";
    assert PrefixAt(ButtonNames[3], json, 0);
    forall j | 0 <= j < 3 ensures !PrefixAt(ButtonNames[j], json, 0) {
      NotPrefixByFirst(ButtonNames[j], json, 0);
    }
    FirstPrefixIs(ButtonNames, json, 0, 3);
  }

  /** "Up" is matched in "Upper". */
  lemma DecodeUpIsPrefixMatch()
    ensures DecodeButton("Upper\"", 0) == Some(ButtonFlag(7))
  {
    var json := "Upper\"";
    assert PrefixAt(ButtonNames[7], json, 0);
    forall j | 0 <= j < 7 ensures !PrefixAt(ButtonNames[j], json, 0) {
      NotPrefixByFirst(ButtonNames[j], json, 0);
    }
    FirstPrefixIs(ButtonNames, json, 0, 7);
  }

  /** A text that starts with no table name is no button. */
  lemma DecodeUnknownName()
    ensures DecodeButton("Z\"", 0).None?
  {
    forall j | 0 <= j < |ButtonNames| ensures !PrefixAt(ButtonNames[j], "Z\"", 0) {
      NotPrefixByFirst(ButtonNames[j], "Z\"", 0);
    }
    DecodeButtonNone("Z\"", 0);
  }
}
