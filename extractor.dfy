/** The extractor: the second pass over a token list the validator accepted,
    filling one entry per element of the "configuration" array.

    Unlike the validator, the extractor's cursor `i` is the index of the next
    token to read, and it reads without bounds checks: a read past the token
    list, or copying a location that was never read (`strlen(NULL)`), is
    undefined behaviour, which the outcome `Undefined` stands for.

    After a `buttons` array the code moves the cursor past the array's
    elements with `i += (button_count - 1)` followed by the loop's `++i`, and
    skips the adjustment when the array is empty, so that an empty array
    leaves the cursor one token too far. The specification functions take a
    `CursorRule`: `AsWritten` is that behaviour, `Corrected` moves past the
    array by its element count in every case. The methods are the code as
    written. */
module Extractor {
  import opened Wrappers
  import opened JsonTokens
  import opened Schema
  import opened CNumbers
  import opened ConfigStore

  datatype CursorRule = AsWritten | Corrected

  /** The fields collected while the pairs of one entry are read. */
  datatype Fields = Fields(location: Option<string>, offset: SizeT, buttons: bv32)

  /** The locals at the start of `parse_json_entry_token`: no location, offset
      0, no buttons. */
  const NoFields := Fields(None, 0, 0)

  /** Where the next pair starts after a `buttons` array at index v with
      `count` elements. */
  function AfterButtons(v: nat, count: nat, rule: CursorRule): nat
  {
    if rule == AsWritten && count == 0 then v + 2 else v + count + 1
  }

  /** The button elements at indices first, first+1, ..., OR-ed into acc, in
      order; the first element that names no button fails the entry. */
  function ParseButtons(json: string, toks: seq<Token>, first: nat, count: nat, acc: bv32): (r: Outcome<bv32>)
    requires Within(json, toks)
    decreases count
  {
    if count == 0 then Ok(acc)
    else if first >= |toks| then Undefined
    else match DecodeButton(json, toks[first].start)
      case None => Fail
      case Some(b) => ParseButtons(json, toks, first + 1, count - 1, AddFlag(acc, b))
  }

  /** One key/value pair whose key is token i: the fields after it and the
      index of the next pair's key. The name is not read; a location is copied
      from its span (a later location replaces an earlier one); button flags
      are OR-ed in; an offset must be an integer constant that ends exactly at
      the end of its token. */
  function ParsePair(json: string, toks: seq<Token>, i: nat, f: Fields, rule: CursorRule): (r: Outcome<(nat, Fields)>)
    requires Within(json, toks)
    ensures r.Ok? ==> i + 2 <= r.value.0
  {
    if i >= |toks| then Undefined
    else
      var key := toks[i].start;
      var v := i + 1;
      var branch := Branch(json, key);
      if branch == NameBranch then Ok((v + 1, f))
      else if v >= |toks| then Undefined
      else match branch
        case LocationBranch =>
          Ok((v + 1, f.(location := Some(TokenText(json, toks[v])))))
        case ButtonsBranch =>
          (match ParseButtons(json, toks, v + 1, toks[v].size, f.buttons)
           case Ok(b) => Ok((AfterButtons(v, toks[v].size, rule), f.(buttons := b)))
           case Fail => Fail
           case Undefined => Undefined)
        case OffsetBranch =>
          (match OffsetValue(json, toks[v])
           case None => Fail
           case Some(offset) => Ok((v + 1, f.(offset := offset))))
  }

  /** The offset check: `strtol` from the token's start must end exactly at
      the token's end; the `long` it returns is then converted to `size_t`. */
  function OffsetValue(json: string, t: Token): (r: Option<SizeT>)
    requires t.start <= t.end <= |json|
    ensures r.Some? <==> StrToL(json, t.start).1 == t.end
    ensures r.Some? ==> r.value == SizeTOfLong(LongOf(StrToL(json, t.start).0))
  {
    var (value, end) := StrToL(json, t.start);
    if end != t.end then None else Some(SizeTOfLong(LongOf(value)))
  }

  /** n consecutive pairs from token i on. `ParsePairs`, `PairAt` and
      `NextPair` are one recursion over the pairs written in three steps, so
      that one unfolding of it shows a single step. */
  function ParsePairs(json: string, toks: seq<Token>, i: nat, n: nat, f: Fields, rule: CursorRule): (r: Outcome<(nat, Fields)>)
    requires Within(json, toks)
    ensures r.Ok? ==> i + 2 * n <= r.value.0
    decreases n, 2
  {
    if n == 0 then Ok((i, f)) else PairAt(json, toks, i, n, f, rule)
  }

  /** n > 0 pairs from token i on: the first key must be there to be read. */
  function PairAt(json: string, toks: seq<Token>, i: nat, n: nat, f: Fields, rule: CursorRule): (r: Outcome<(nat, Fields)>)
    requires Within(json, toks) && n > 0
    ensures r.Ok? ==> i + 2 * n <= r.value.0
    decreases n, 1
  {
    if i >= |toks| then Undefined else NextPair(json, toks, i, n, f, rule)
  }

  /** The first of n > 0 pairs from token i on, then the others after it. */
  function NextPair(json: string, toks: seq<Token>, i: nat, n: nat, f: Fields, rule: CursorRule): (r: Outcome<(nat, Fields)>)
    requires Within(json, toks) && n > 0
    ensures r.Ok? ==> i + 2 * n <= r.value.0
    decreases n, 0
  {
    match ParsePair(json, toks, i, f, rule)
    case Ok((next, g)) => ParsePairs(json, toks, next, n - 1, g, rule)
    case Fail => Fail
    case Undefined => Undefined
  }

  /** `parse_json_entry_token` on the entry object at token i: the entry it
      initialises and the index after it. */
  function ParseEntry(json: string, toks: seq<Token>, i: nat, rule: CursorRule): (r: Outcome<(nat, Entry)>)
    requires Within(json, toks)
    ensures r.Ok? ==> i < r.value.0 && r.value.1.payload.Some?
  {
    if i >= |toks| then Undefined
    else match ParsePairs(json, toks, i + 1, toks[i].size, NoFields, rule)
      case Ok((next, f)) =>
        if f.location.None? then Undefined
        else Ok((next, Entry(f.location, f.offset, f.buttons)))
      case Fail => Fail
      case Undefined => Undefined
  }

  /** n consecutive entries from token i on, appended to `done`. */
  function ParseEntries(json: string, toks: seq<Token>, i: nat, n: nat, done: seq<Entry>, rule: CursorRule): (r: Outcome<seq<Entry>>)
    requires Within(json, toks)
    ensures r.Ok? ==> |r.value| == |done| + n
    decreases n, 1
  {
    if n == 0 then Ok(done) else NextEntry(json, toks, i, n, done, rule)
  }

  /** The first of n > 0 entries from token i on, then the others after it. */
  function NextEntry(json: string, toks: seq<Token>, i: nat, n: nat, done: seq<Entry>, rule: CursorRule): (r: Outcome<seq<Entry>>)
    requires Within(json, toks) && n > 0
    ensures r.Ok? ==> |r.value| == |done| + n
    decreases n, 0
  {
    match ParseEntry(json, toks, i, rule)
    case Ok((next, e)) => ParseEntries(json, toks, next, n - 1, done + [e], rule)
    case Fail => Fail
    case Undefined => Undefined
  }

  /** `parse_json_tokens`: the entries of the array at token 2, in document
      order; every one of them has a payload. */
  function Extract(json: string, toks: seq<Token>, rule: CursorRule): (r: Outcome<seq<Entry>>)
    requires Within(json, toks)
    ensures r.Ok? ==> |toks| > 2 && |r.value| == toks[2].size
  {
    if |toks| <= 2 then Undefined
    else ParseEntries(json, toks, 3, toks[2].size, [], rule)
  }

  /** `token_extract_button`: the table scan for the first name that is a
      prefix of the element text. */
  method TokenExtractButton(json: string, token: Token) returns (ok: bool, button: bv32)
    requires token.start <= |json|
    ensures ok == DecodeButton(json, token.start).Some?
    ensures ok ==> button == DecodeButton(json, token.start).value
  {
    button := 0;
    var i := 0;
    while i < |ButtonNames|
      invariant 0 <= i <= |ButtonNames|
      invariant forall j :: 0 <= j < i ==> !PrefixAt(ButtonNames[j], json, token.start)
    {
      if PrefixAt(ButtonNames[i], json, token.start) {
        FirstPrefixIs(ButtonNames, json, token.start, i);
        return true, ButtonFlag(i);
      }
      i := i + 1;
    }
    DecodeButtonNone(json, token.start);
    return false, button;
  }

  /** The element loop of a `buttons` pair in `parse_json_entry_token`:
      every element decoded and OR-ed into `acc`. It stops (`ok` false) at
      the first element that names no button and where the code would read
      past the token list. */
  method ParseButtonArray(json: string, toks: seq<Token>, first: nat, count: nat, acc: bv32) returns (ok: bool, buttons: bv32)
    requires Within(json, toks)
    ensures ok == ParseButtons(json, toks, first, count, acc).Ok?
    ensures ok ==> buttons == ParseButtons(json, toks, first, count, acc).value
  {
    buttons := acc;
    var k := 0;
    ghost var element, left := first, count;
    while k < count
      invariant k <= count && element == first + k && left == count - k
      invariant ParseButtons(json, toks, first, count, acc) == ParseButtons(json, toks, element, left, buttons)
    {
      if first + k >= |toks| {
        return false, buttons;
      }
      var found, button := TokenExtractButton(json, toks[first + k]);
      if !found {
        return false, buttons;
      }
      buttons := AddFlag(buttons, button);
      k := k + 1;
      element, left := element + 1, left - 1;
    }
    ok := true;
  }

  /** One iteration of the pair loop of `parse_json_entry_token`, the
      loop's own `++i` included. It stops (`ok` false) where the code returns
      false and where the code's next read would be undefined. */
  method ParsePairToken(json: string, toks: seq<Token>, i: nat, f: Fields) returns (ok: bool, next: nat, g: Fields)
    requires Within(json, toks)
    ensures ok == ParsePair(json, toks, i, f, AsWritten).Ok?
    ensures ok ==> (next, g) == ParsePair(json, toks, i, f, AsWritten).value
  {
    g := f;
    next := i;
    if i >= |toks| {
      return false, next, g;
    }
    var key := toks[i].start;
    next := i + 1;
    var branch := Branch(json, key);
    if branch == NameBranch {
      // the name is not read
      assert ParsePair(json, toks, i, f, AsWritten) == Ok((next + 1, g));
    } else if next >= |toks| {
      return false, next, g;
    } else if branch == LocationBranch {
      g := g.(location := Some(TokenText(json, toks[next])));
      assert ParsePair(json, toks, i, f, AsWritten) == Ok((next + 1, g));
    } else if branch == ButtonsBranch {
      ghost var v := next;
      var buttonCount := toks[next].size;
      next := next + 1;
      var found, buttons := ParseButtonArray(json, toks, next, buttonCount, g.buttons);
      if !found {
        assert !ParsePair(json, toks, i, f, AsWritten).Ok?;
        return false, next, g;
      }
      g := g.(buttons := buttons);
      if buttonCount > 0 {
        next := next + (buttonCount - 1);
      }
      assert ParsePair(json, toks, i, f, AsWritten) == Ok((AfterButtons(v, buttonCount, AsWritten), g));
    } else {
      var offset := OffsetValue(json, toks[next]);
      if offset.None? {
        return false, next, g;
      }
      g := g.(offset := offset.value);
    }
    next := next + 1;
    ok := true;
  }

  /** `parse_json_entry_token` on the entry object at token `cursor`, writing
      slot j of the configuration: on success the slot receives the entry
      and the cursor moves past it; otherwise (a failure, or a read the code
      would make out of bounds) no slot changes. */
  method ParseEntryToken(json: string, toks: seq<Token>, cursor: nat, config: Config, j: nat) returns (ok: bool, next: nat)
    requires Within(json, toks)
    requires config.Valid() && j < config.numEntries
    modifies config.entries
    ensures config.Valid()
    ensures ok == ParseEntry(json, toks, cursor, AsWritten).Ok?
    ensures ok ==> next == ParseEntry(json, toks, cursor, AsWritten).value.0
    ensures ok ==> config.entries[..] == old(config.entries[..])[j := ParseEntry(json, toks, cursor, AsWritten).value.1]
    ensures !ok ==> config.entries[..] == old(config.entries[..])
  {
    next := cursor;
    if cursor >= |toks| {
      return false, next;
    }
    var numberOfEntries := toks[cursor].size;
    var i: nat := cursor + 1;
    var f := NoFields;
    var entry := 0;
    while entry < numberOfEntries
      invariant entry <= numberOfEntries
      invariant ParsePairs(json, toks, cursor + 1, numberOfEntries, NoFields, AsWritten)
             == ParsePairs(json, toks, i, numberOfEntries - entry, f, AsWritten)
      invariant config.entries[..] == old(config.entries[..])
    {
      var pairOk;
      ghost var before, fields, left := i, f, numberOfEntries - entry;
      pairOk, i, f := ParsePairToken(json, toks, i, f);
      assert ParsePairs(json, toks, before, left, fields, AsWritten)
          == PairAt(json, toks, before, left, fields, AsWritten);
      if before < |toks| {
        assert PairAt(json, toks, before, left, fields, AsWritten)
            == NextPair(json, toks, before, left, fields, AsWritten);
      }
      if !pairOk {
        return false, next;
      }
      entry := entry + 1;
    }
    if f.location.None? {
      return false, next;
    }
    config.InitializeEntry(j, f.location.value, f.offset, f.buttons);
    next := i;
    ok := true;
  }
}
