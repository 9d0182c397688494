/** Three concrete documents that show how the reader treats inputs at the
    edge of its schema: an entry whose `buttons` array is empty (once before
    its last pair, once before a pair whose value is the last token), and an
    entry that repeats a key. */
module Findings {
  import opened Wrappers
  import opened JsonTokens
  import opened Schema
  import opened CNumbers
  import opened ConfigStore
  import opened Validator
  import opened Extractor
  import opened Document
  import opened Meaning

  // ---------------------------------------------------------------------
  // An empty `buttons` array

  /** `{"configuration":[{"buttons":[],"location":"p","name":"a"}]}` */
  const EmptyButtonsText: string :=
    (("{\"" + "configuration" + "\":[{\"") + ("buttons" + "\":[],\""))
    + (("location" + "\":\"" + "p" + "\",\"") + ("name" + "\":\"" + "a" + "\"}]}"))

  /** Its tokens: the root object, the key "configuration", the array, the
      entry object, then key and value of each of the three pairs; as jsmn
      counts them, a key has one child, its value. */
  const EmptyButtonsTokens: seq<Token> := [
    Token(Object, 0, 60, 1),
    Token(String, 2, 15, 1),
    Token(Array, 17, 59, 1),
    Token(Object, 18, 58, 3),
    Token(String, 20, 27, 1), Token(Array, 29, 31, 0),
    Token(String, 33, 41, 1), Token(String, 44, 45, 0),
    Token(String, 48, 52, 1), Token(String, 55, 56, 0)
  ]

  /** The same document as a tree. */
  const EmptyButtonsDoc: Doc :=
    Doc(Token(Object, 0, 60, 1), Token(String, 2, 15, 1), Token(Array, 17, 59, 1),
        [EntryObject(Token(Object, 18, 58, 3),
                     [Pair(Token(String, 20, 27, 1), Token(Array, 29, 31, 0), []),
                      Pair(Token(String, 33, 41, 1), Token(String, 44, 45, 0), []),
                      Pair(Token(String, 48, 52, 1), Token(String, 55, 56, 0), [])])],
        [])

  /** The header and the keys of the text, and the branch each is taken for. */
  lemma EmptyButtonsKeys()
    ensures PrefixAt("configuration", EmptyButtonsText, 2)
    ensures KeyOf(EmptyButtonsText, 20) == Some(ButtonsKey) && Branch(EmptyButtonsText, 20) == ButtonsBranch
    ensures KeyOf(EmptyButtonsText, 33) == Some(LocationKey) && Branch(EmptyButtonsText, 33) == LocationBranch
    ensures KeyOf(EmptyButtonsText, 48) == Some(NameKey) && Branch(EmptyButtonsText, 48) == NameBranch
  {
    var json := EmptyButtonsText;
    assert json[2..15] == "configuration";
    assert json[20..27] == "buttons";
    assert json[33..41] == "location";
    assert json[48..52] == "name";
    KeyClasses(json, 20);
    KeyClasses(json, 33);
    KeyClasses(json, 48);
  }

  /** The location value "p", read as a key, is taken for "offset". */
  lemma EmptyButtonsValueAsKey()
    ensures Branch(EmptyButtonsText, 44) == OffsetBranch
  {
    var json := EmptyButtonsText;
    assert json[44] == 'p';
    NotPrefixByFirst("name", json, 44);
    NotPrefixByFirst("location", json, 44);
    NotPrefixByFirst("buttons", json, 44);
  }

  /** The location value, and no number where the key "name" stands. */
  lemma EmptyButtonsValues()
    ensures TokenText(EmptyButtonsText, Token(String, 44, 45, 0)) == "p"
    ensures StrToL(EmptyButtonsText, 48) == (0, 48)
  {
    var json := EmptyButtonsText;
    assert json[44..45] == "p";
    assert json[48] == 'n';
    assert SkipSpace(json, 48) == 48;
  }

  /** The token list of the tree is the one above, and its spans lie in the
      text. */
  lemma EmptyButtonsTokenList()
    ensures DocTokens(EmptyButtonsDoc) == EmptyButtonsTokens
    ensures Within(EmptyButtonsText, EmptyButtonsTokens)
  {
    var d := EmptyButtonsDoc;
    var e := d.entries[0];
    var ps := e.pairs;
    assert PairsTokens(ps[2..]) == PairTokens(ps[2]) + PairsTokens([]);
    assert PairsTokens(ps[1..]) == PairTokens(ps[1]) + PairsTokens(ps[2..]);
    assert PairsTokens(ps) == PairTokens(ps[0]) + PairsTokens(ps[1..]);
    assert EntriesTokens(d.entries) == EntryTokens(e) + EntriesTokens([]);
    assert |EmptyButtonsText| == 60;
  }

  /** The three pairs of the entry are of the schema. */
  lemma EmptyButtonsPairs()
    ensures PairsConform(EmptyButtonsText, EmptyButtonsDoc.entries[0].pairs)
  {
    var json, ps := EmptyButtonsText, EmptyButtonsDoc.entries[0].pairs;
    EmptyButtonsKeys();
    assert PairsConform(json, ps[2..]);
    assert PairsConform(json, ps[1..]);
  }

  /** The tree is of the schema. */
  lemma EmptyButtonsConforms()
    ensures Conforms(EmptyButtonsText, EmptyButtonsDoc)
  {
    var json, d := EmptyButtonsText, EmptyButtonsDoc;
    EmptyButtonsKeys();
    EmptyButtonsPairs();
    var ps := d.entries[0].pairs;
    assert HasKey(json, ps, NameKey) && HasKey(json, ps, LocationKey) && HasKey(json, ps, ButtonsKey);
    assert EntriesConform(json, d.entries[1..]);
  }

  /** As written, the extractor moves its cursor one token too far after the
      empty array: it reads the location value "p" as a key, takes it for
      "offset" and fails on the text "name" that follows, which is no number. */
  lemma EmptyButtonsAsWritten()
    ensures Within(EmptyButtonsText, EmptyButtonsTokens)
    ensures Extract(EmptyButtonsText, EmptyButtonsTokens, AsWritten) == Fail
  {
    var json, toks := EmptyButtonsText, EmptyButtonsTokens;
    EmptyButtonsTokenList();
    EmptyButtonsKeys();
    EmptyButtonsValueAsKey();
    EmptyButtonsValues();
    assert ParsePair(json, toks, 4, NoFields, AsWritten) == Ok((7, NoFields));
    assert ParsePair(json, toks, 7, NoFields, AsWritten) == Fail;
    assert ParsePairs(json, toks, 7, 2, NoFields, AsWritten) == PairAt(json, toks, 7, 2, NoFields, AsWritten)
        == NextPair(json, toks, 7, 2, NoFields, AsWritten) == Fail;
    assert ParsePairs(json, toks, 4, 3, NoFields, AsWritten) == PairAt(json, toks, 4, 3, NoFields, AsWritten)
        == NextPair(json, toks, 4, 3, NoFields, AsWritten) == Fail;
    assert ParseEntry(json, toks, 3, AsWritten) == Fail;
    assert ParseEntries(json, toks, 3, 1, [], AsWritten) == NextEntry(json, toks, 3, 1, [], AsWritten) == Fail;
  }

  /** The effect of each pair on its own: the empty array contributes no
      flag, the location sets "p", the name changes nothing. */
  lemma EmptyButtonsEffects()
    ensures var ps, g := EmptyButtonsDoc.entries[0].pairs, Fields(Some("p"), 0, 0);
      && InText(EmptyButtonsText, ps[0]) && PairEffect(EmptyButtonsText, ps[0], NoFields) == Some(NoFields)
      && InText(EmptyButtonsText, ps[1]) && PairEffect(EmptyButtonsText, ps[1], NoFields) == Some(g)
      && InText(EmptyButtonsText, ps[2]) && PairEffect(EmptyButtonsText, ps[2], g) == Some(g)
  {
    EmptyButtonsKeys();
    EmptyButtonsValues();
  }

  /** The entry stands for location "p", offset 0 and no buttons. */
  lemma EmptyButtonsMeaning()
    ensures Meaning.Meaning(EmptyButtonsText, EmptyButtonsDoc.entries) == Some([Entry(Some("p"), 0, 0)])
  {
    var json, es := EmptyButtonsText, EmptyButtonsDoc.entries;
    var ps := es[0].pairs;
    var g := Fields(Some("p"), 0, 0);
    EmptyButtonsEffects();
    var g0 := EffectStep(json, ps, NoFields);
    var g1 := EffectStep(json, ps[1..], NoFields);
    var g2 := EffectStep(json, ps[2..], g);
    assert ps[1..][0] == ps[1] && ps[1..][1..] == ps[2..];
    assert ps[2..][0] == ps[2] && ps[2..][1..] == [];
    assert PairsEffect(json, ps, NoFields) == Some(g);
    assert EntryMeaning(json, es[0]) == Some(Entry(Some("p"), 0, 0));
    assert es[1..] == [];
    assert Meaning.Meaning(json, es[1..]) == Some([]);
    assert [Entry(Some("p"), 0, 0)] + [] == [Entry(Some("p"), 0, 0)];
  }

  /** With the cursor placed after the array's last element the entry reads
      back as it stands for. */
  lemma EmptyButtonsCorrected()
    ensures Within(EmptyButtonsText, EmptyButtonsTokens)
    ensures Extract(EmptyButtonsText, EmptyButtonsTokens, Corrected) == Ok([Entry(Some("p"), 0, 0)])
  {
    EmptyButtonsTokenList();
    EmptyButtonsConforms();
    EmptyButtonsMeaning();
    ExtractRoundTrip(EmptyButtonsText, EmptyButtonsDoc, Corrected);
  }

  /** The validator accepts a document with an empty `buttons` array that the
      extractor as written then fails on, while the corrected cursor reads it. */
  lemma EmptyButtonsMisread()
    ensures Within(EmptyButtonsText, EmptyButtonsTokens)
    ensures ValidateJson(EmptyButtonsText, EmptyButtonsTokens)
    ensures Extract(EmptyButtonsText, EmptyButtonsTokens, AsWritten) == Fail
    ensures Extract(EmptyButtonsText, EmptyButtonsTokens, Corrected) == Ok([Entry(Some("p"), 0, 0)])
  {
    EmptyButtonsTokenList();
    EmptyButtonsConforms();
    ValidateComplete(EmptyButtonsText, EmptyButtonsDoc);
    EmptyButtonsAsWritten();
    EmptyButtonsCorrected();
  }

  // ---------------------------------------------------------------------
  // An empty `buttons` array before the last pair of the last entry

  /** `{"configuration":[{"name":"a","buttons":[],"location":"p"}]}` */
  const OverReadText: string :=
    (("{\"" + "configuration" + "\":[{\"") + ("name" + "\":\"" + "a" + "\",\""))
    + (("buttons" + "\":[],\"") + ("location" + "\":\"" + "p" + "\"}]}"))

  /** Its ten tokens; the location value "p" is the last of them. */
  const OverReadTokens: seq<Token> := [
    Token(Object, 0, 60, 1),
    Token(String, 2, 15, 1),
    Token(Array, 17, 59, 1),
    Token(Object, 18, 58, 3),
    Token(String, 20, 24, 1), Token(String, 27, 28, 0),
    Token(String, 31, 38, 1), Token(Array, 40, 42, 0),
    Token(String, 44, 52, 1), Token(String, 55, 56, 0)
  ]

  /** The same document as a tree. */
  const OverReadDoc: Doc :=
    Doc(Token(Object, 0, 60, 1), Token(String, 2, 15, 1), Token(Array, 17, 59, 1),
        [EntryObject(Token(Object, 18, 58, 3),
                     [Pair(Token(String, 20, 24, 1), Token(String, 27, 28, 0), []),
                      Pair(Token(String, 31, 38, 1), Token(Array, 40, 42, 0), []),
                      Pair(Token(String, 44, 52, 1), Token(String, 55, 56, 0), [])])],
        [])

  /** The header and the keys of the text, and the branch each is taken for. */
  lemma OverReadKeys()
    ensures PrefixAt("configuration", OverReadText, 2)
    ensures KeyOf(OverReadText, 20) == Some(NameKey) && Branch(OverReadText, 20) == NameBranch
    ensures KeyOf(OverReadText, 31) == Some(ButtonsKey) && Branch(OverReadText, 31) == ButtonsBranch
    ensures KeyOf(OverReadText, 44) == Some(LocationKey) && Branch(OverReadText, 44) == LocationBranch
  {
    var json := OverReadText;
    assert json[2..15] == "configuration";
    assert json[20..24] == "name";
    assert json[31..38] == "buttons";
    assert json[44..52] == "location";
    KeyClasses(json, 20);
    KeyClasses(json, 31);
    KeyClasses(json, 44);
  }

  /** The location value "p", read as a key, is taken for "offset". */
  lemma OverReadValueAsKey()
    ensures Branch(OverReadText, 55) == OffsetBranch
  {
    var json := OverReadText;
    assert json[55] == 'p';
    NotPrefixByFirst("name", json, 55);
    NotPrefixByFirst("location", json, 55);
    NotPrefixByFirst("buttons", json, 55);
  }

  /** The token list of the tree is the one above, and its spans lie in the
      text. */
  lemma OverReadTokenList()
    ensures DocTokens(OverReadDoc) == OverReadTokens
    ensures Within(OverReadText, OverReadTokens)
  {
    var d := OverReadDoc;
    var e := d.entries[0];
    var ps := e.pairs;
    assert PairsTokens(ps[2..]) == PairTokens(ps[2]) + PairsTokens([]);
    assert PairsTokens(ps[1..]) == PairTokens(ps[1]) + PairsTokens(ps[2..]);
    assert PairsTokens(ps) == PairTokens(ps[0]) + PairsTokens(ps[1..]);
    assert EntriesTokens(d.entries) == EntryTokens(e) + EntriesTokens([]);
    assert |OverReadText| == 60;
  }

  /** The three pairs of the entry are of the schema. */
  lemma OverReadPairs()
    ensures PairsConform(OverReadText, OverReadDoc.entries[0].pairs)
  {
    var json, ps := OverReadText, OverReadDoc.entries[0].pairs;
    OverReadKeys();
    assert PairsConform(json, ps[2..]);
    assert PairsConform(json, ps[1..]);
  }

  /** The tree is of the schema. */
  lemma OverReadConforms()
    ensures Conforms(OverReadText, OverReadDoc)
  {
    var json, d := OverReadText, OverReadDoc;
    OverReadKeys();
    OverReadPairs();
    var ps := d.entries[0].pairs;
    assert HasKey(json, ps, NameKey) && HasKey(json, ps, LocationKey) && HasKey(json, ps, ButtonsKey);
    assert EntriesConform(json, d.entries[1..]);
  }

  /** As written, the cursor lands on the last token, the location value "p",
      after the empty array; it takes "p" for the key "offset" and reads the
      offset's value token at index 10, past the ten tokens there are. */
  lemma OverReadAsWritten()
    ensures Within(OverReadText, OverReadTokens)
    ensures |OverReadTokens| == 10
    ensures Extract(OverReadText, OverReadTokens, AsWritten) == Undefined
  {
    var json, toks := OverReadText, OverReadTokens;
    OverReadTokenList();
    OverReadKeys();
    OverReadValueAsKey();
    assert ParsePair(json, toks, 4, NoFields, AsWritten) == Ok((6, NoFields));
    assert ParsePair(json, toks, 6, NoFields, AsWritten) == Ok((9, NoFields));
    assert ParsePair(json, toks, 9, NoFields, AsWritten) == Undefined;
    assert ParsePairs(json, toks, 9, 1, NoFields, AsWritten) == PairAt(json, toks, 9, 1, NoFields, AsWritten)
        == NextPair(json, toks, 9, 1, NoFields, AsWritten) == Undefined;
    assert ParsePairs(json, toks, 6, 2, NoFields, AsWritten) == PairAt(json, toks, 6, 2, NoFields, AsWritten)
        == NextPair(json, toks, 6, 2, NoFields, AsWritten) == Undefined;
    assert ParsePairs(json, toks, 4, 3, NoFields, AsWritten) == PairAt(json, toks, 4, 3, NoFields, AsWritten)
        == NextPair(json, toks, 4, 3, NoFields, AsWritten) == Undefined;
    assert ParseEntry(json, toks, 3, AsWritten) == Undefined;
    assert ParseEntries(json, toks, 3, 1, [], AsWritten) == NextEntry(json, toks, 3, 1, [], AsWritten) == Undefined;
  }

  /** The effect of each pair on its own: the name and the empty array change
      nothing, the location sets "p". */
  lemma OverReadEffects()
    ensures var ps, g := OverReadDoc.entries[0].pairs, Fields(Some("p"), 0, 0);
      && InText(OverReadText, ps[0]) && PairEffect(OverReadText, ps[0], NoFields) == Some(NoFields)
      && InText(OverReadText, ps[1]) && PairEffect(OverReadText, ps[1], NoFields) == Some(NoFields)
      && InText(OverReadText, ps[2]) && PairEffect(OverReadText, ps[2], NoFields) == Some(g)
  {
    OverReadKeys();
    assert OverReadText[55..56] == "p";
  }

  /** The entry stands for location "p", offset 0 and no buttons. */
  lemma OverReadMeaning()
    ensures Meaning.Meaning(OverReadText, OverReadDoc.entries) == Some([Entry(Some("p"), 0, 0)])
  {
    var json, es := OverReadText, OverReadDoc.entries;
    var ps := es[0].pairs;
    var g := Fields(Some("p"), 0, 0);
    OverReadEffects();
    var g0 := EffectStep(json, ps, NoFields);
    var g1 := EffectStep(json, ps[1..], NoFields);
    var g2 := EffectStep(json, ps[2..], NoFields);
    assert ps[1..][0] == ps[1] && ps[1..][1..] == ps[2..];
    assert ps[2..][0] == ps[2] && ps[2..][1..] == [];
    assert PairsEffect(json, ps, NoFields) == Some(g);
    assert EntryMeaning(json, es[0]) == Some(Entry(Some("p"), 0, 0));
    assert es[1..] == [];
    assert Meaning.Meaning(json, es[1..]) == Some([]);
    assert [Entry(Some("p"), 0, 0)] + [] == [Entry(Some("p"), 0, 0)];
  }

  /** The validator accepts a document whose empty `buttons` array precedes
      the last pair; the extractor as written then reads one token past the
      token list, while the corrected cursor reads the entry. */
  lemma OverReadMisread()
    ensures Within(OverReadText, OverReadTokens)
    ensures ValidateJson(OverReadText, OverReadTokens)
    ensures Extract(OverReadText, OverReadTokens, AsWritten) == Undefined
    ensures Extract(OverReadText, OverReadTokens, Corrected) == Ok([Entry(Some("p"), 0, 0)])
  {
    OverReadTokenList();
    OverReadConforms();
    ValidateComplete(OverReadText, OverReadDoc);
    OverReadAsWritten();
    OverReadMeaning();
    ExtractRoundTrip(OverReadText, OverReadDoc, Corrected);
  }

  // ---------------------------------------------------------------------
  // A repeated key

  /** `{"configuration":[{"location":"a","location":"b","name":"n","buttons":["A"]}]}` */
  const RepeatedKeyText: string :=
    (("{\"" + "configuration" + "\":[{\"") + ("location" + "\":\"" + "a" + "\",\""))
    + (("location" + "\":\"" + "b" + "\",\"") + ("name" + "\":\"" + "n" + "\",\""))
    + ("buttons" + "\":[\"" + "A" + "\"]}]}")

  /** Its tokens: the root object, the key "configuration", the array, the
      entry object, then the four pairs; the last value is an array of one
      element. */
  const RepeatedKeyTokens: seq<Token> := [
    Token(Object, 0, 78, 1),
    Token(String, 2, 15, 1),
    Token(Array, 17, 77, 1),
    Token(Object, 18, 76, 4),
    Token(String, 20, 28, 1), Token(String, 31, 32, 0),
    Token(String, 35, 43, 1), Token(String, 46, 47, 0),
    Token(String, 50, 54, 1), Token(String, 57, 58, 0),
    Token(String, 61, 68, 1), Token(Array, 70, 75, 1), Token(String, 72, 73, 0)
  ]

  /** The same document as a tree. */
  const RepeatedKeyDoc: Doc :=
    Doc(Token(Object, 0, 78, 1), Token(String, 2, 15, 1), Token(Array, 17, 77, 1),
        [EntryObject(Token(Object, 18, 76, 4),
                     [Pair(Token(String, 20, 28, 1), Token(String, 31, 32, 0), []),
                      Pair(Token(String, 35, 43, 1), Token(String, 46, 47, 0), []),
                      Pair(Token(String, 50, 54, 1), Token(String, 57, 58, 0), []),
                      Pair(Token(String, 61, 68, 1), Token(Array, 70, 75, 1), [Token(String, 72, 73, 0)])])],
        [])

  /** The header and the keys of the text: two of them are "location". */
  lemma RepeatedKeyKeys()
    ensures PrefixAt("configuration", RepeatedKeyText, 2)
    ensures KeyOf(RepeatedKeyText, 20) == Some(LocationKey)
    ensures KeyOf(RepeatedKeyText, 35) == Some(LocationKey)
    ensures KeyOf(RepeatedKeyText, 50) == Some(NameKey)
    ensures KeyOf(RepeatedKeyText, 61) == Some(ButtonsKey)
  {
    var json := RepeatedKeyText;
    assert json[2..15] == "configuration";
    assert json[20..28] == "location";
    assert json[35..43] == "location";
    assert json[50..54] == "name";
    assert json[61..68] == "buttons";
    KeyClasses(json, 20);
    KeyClasses(json, 35);
    KeyClasses(json, 50);
    KeyClasses(json, 61);
  }

  /** The values of the text: the two locations and the button name "A". */
  lemma RepeatedKeyValues()
    ensures TokenText(RepeatedKeyText, Token(String, 31, 32, 0)) == "a"
    ensures TokenText(RepeatedKeyText, Token(String, 46, 47, 0)) == "b"
    ensures DecodeButton(RepeatedKeyText, 72) == Some(1)
  {
    var json := RepeatedKeyText;
    assert json[31..32] == "a" && json[46..47] == "b";
    assert json[72..73] == "A" && json[73] == '"';
    DecodeExactName(json, 72, 1);
  }

  /** The token list of the tree is the one above, and its spans lie in the
      text. */
  lemma RepeatedKeyTokenList()
    ensures DocTokens(RepeatedKeyDoc) == RepeatedKeyTokens
    ensures Within(RepeatedKeyText, RepeatedKeyTokens)
  {
    var d := RepeatedKeyDoc;
    var e := d.entries[0];
    var ps := e.pairs;
    assert PairsTokens(ps[3..]) == PairTokens(ps[3]) + PairsTokens([]);
    assert PairsTokens(ps[2..]) == PairTokens(ps[2]) + PairsTokens(ps[3..]);
    assert PairsTokens(ps[1..]) == PairTokens(ps[1]) + PairsTokens(ps[2..]);
    assert PairsTokens(ps) == PairTokens(ps[0]) + PairsTokens(ps[1..]);
    assert EntriesTokens(d.entries) == EntryTokens(e) + EntriesTokens([]);
    assert |RepeatedKeyText| == 78;
  }

  /** The four pairs of the entry are of the schema. */
  lemma RepeatedKeyPairs()
    ensures PairsConform(RepeatedKeyText, RepeatedKeyDoc.entries[0].pairs)
  {
    var json, ps := RepeatedKeyText, RepeatedKeyDoc.entries[0].pairs;
    RepeatedKeyKeys();
    assert PairsConform(json, ps[3..]);
    assert PairsConform(json, ps[2..]);
    assert PairsConform(json, ps[1..]);
  }

  /** The tree is of the schema. */
  lemma RepeatedKeyConforms()
    ensures Conforms(RepeatedKeyText, RepeatedKeyDoc)
  {
    var json, d := RepeatedKeyText, RepeatedKeyDoc;
    RepeatedKeyKeys();
    RepeatedKeyPairs();
    var ps := d.entries[0].pairs;
    assert HasKey(json, ps, NameKey) && HasKey(json, ps, LocationKey) && HasKey(json, ps, ButtonsKey);
    assert EntriesConform(json, d.entries[1..]);
  }

  /** Its one `buttons` array is not empty. */
  lemma RepeatedKeyButtons()
    ensures NoEmptyButtonsIn(RepeatedKeyText, RepeatedKeyDoc.entries)
  {
    RepeatedKeyKeys();
  }

  /** The effect of each pair on its own: each location replaces the path,
      the name changes nothing, "A" sets bit 0. */
  lemma RepeatedKeyEffects()
    ensures var ps := RepeatedKeyDoc.entries[0].pairs;
      && InText(RepeatedKeyText, ps[0]) && PairEffect(RepeatedKeyText, ps[0], NoFields) == Some(Fields(Some("a"), 0, 0))
      && InText(RepeatedKeyText, ps[1]) && PairEffect(RepeatedKeyText, ps[1], Fields(Some("a"), 0, 0)) == Some(Fields(Some("b"), 0, 0))
      && InText(RepeatedKeyText, ps[2]) && PairEffect(RepeatedKeyText, ps[2], Fields(Some("b"), 0, 0)) == Some(Fields(Some("b"), 0, 0))
      && InText(RepeatedKeyText, ps[3]) && PairEffect(RepeatedKeyText, ps[3], Fields(Some("b"), 0, 0)) == Some(Fields(Some("b"), 0, 1))
  {
    var json, ps := RepeatedKeyText, RepeatedKeyDoc.entries[0].pairs;
    RepeatedKeyKeys();
    RepeatedKeyValues();
    assert ps[3].items[1..] == [];
    assert Mask(json, ps[3].items, 0) == Mask(json, [], AddFlag(0, 1));
  }

  /** The entry stands for location "b", the later of the two, offset 0 and
      button A. */
  lemma RepeatedKeyMeaning()
    ensures Meaning.Meaning(RepeatedKeyText, RepeatedKeyDoc.entries) == Some([Entry(Some("b"), 0, 1)])
  {
    var json, es := RepeatedKeyText, RepeatedKeyDoc.entries;
    var ps := es[0].pairs;
    RepeatedKeyEffects();
    var g0 := EffectStep(json, ps, NoFields);
    var g1 := EffectStep(json, ps[1..], Fields(Some("a"), 0, 0));
    var g2 := EffectStep(json, ps[2..], Fields(Some("b"), 0, 0));
    var g3 := EffectStep(json, ps[3..], Fields(Some("b"), 0, 0));
    assert ps[1..][0] == ps[1] && ps[1..][1..] == ps[2..];
    assert ps[2..][0] == ps[2] && ps[2..][1..] == ps[3..];
    assert ps[3..][0] == ps[3] && ps[3..][1..] == [];
    assert PairsEffect(json, ps, NoFields) == Some(Fields(Some("b"), 0, 1));
    assert EntryMeaning(json, es[0]) == Some(Entry(Some("b"), 0, 1));
    assert es[1..] == [];
    assert Meaning.Meaning(json, es[1..]) == Some([]);
    assert [Entry(Some("b"), 0, 1)] + [] == [Entry(Some("b"), 0, 1)];
  }

  /** A repeated key is accepted: the validator takes an entry with two
      "location" pairs, and the extractor as written reads it with the later
      location in force. */
  lemma RepeatedKeyAccepted()
    ensures Within(RepeatedKeyText, RepeatedKeyTokens)
    ensures ValidateJson(RepeatedKeyText, RepeatedKeyTokens)
    ensures Extract(RepeatedKeyText, RepeatedKeyTokens, AsWritten) == Ok([Entry(Some("b"), 0, 1)])
  {
    RepeatedKeyTokenList();
    RepeatedKeyConforms();
    RepeatedKeyButtons();
    RepeatedKeyMeaning();
    ValidateComplete(RepeatedKeyText, RepeatedKeyDoc);
    ExtractRoundTrip(RepeatedKeyText, RepeatedKeyDoc, AsWritten);
  }
}
