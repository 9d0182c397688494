/** The schema validator: one pass over the token list with a single cursor,
    checking the document against `{ "configuration": [ {name, location,
    offset?, buttons[]} ... ] }`.

    The cursor `i` follows the C code: it is the index of the last token
    consumed, and every access is preceded by `++i >= amount` (a read past the
    token list fails validation). The functions state what the C functions
    decide; the methods are the C functions, proved to decide the same. */
module Validator {
  import opened Wrappers
  import opened JsonTokens
  import opened Schema

  /** The `count` tokens after index i exist and are all strings (the element
      loop of a `buttons` array). */
  predicate AllStrings(toks: seq<Token>, i: nat, count: nat)
  {
    i + count < |toks| && forall k :: i < k <= i + count ==> toks[k].kind == String
  }

  /** Every key the list marks mandatory has its flag set. */
  predicate AllMandatoryFound(list: seq<OptionSpec>, found: seq<bool>)
    requires |found| == |list|
  {
    forall o :: 0 <= o < |list| && list[o].mandatory ==> found[o]
  }

  /** One key/value pair of an entry object, after token i. On success: the
      last token of the pair and the found flags with the key's option set. */
  function ValidatePair(json: string, toks: seq<Token>, i: nat, found: seq<bool>): (r: Option<(nat, seq<bool>)>)
    requires |found| == |AcceptedOptions|
    ensures r.Some? ==> i < r.value.0 < |toks| && |r.value.1| == |found|
  {
    var k := i + 1;
    if k >= |toks| || toks[k].kind != String then None
    else
      var key := toks[k].start;
      match FirstPrefix(OptionNames(AcceptedOptions), json, key)
      case None => None
      case Some(o) =>
        var flags := found[o := true];
        var v := k + 1;
        match Branch(json, key)
        case NameBranch =>
          if v >= |toks| || toks[v].kind != String then None else Some((v, flags))
        case LocationBranch =>
          if v >= |toks| || toks[v].kind != String then None else Some((v, flags))
        case ButtonsBranch =>
          if v >= |toks| || toks[v].kind != Array then None
          else if AllStrings(toks, v, toks[v].size) then Some((v + toks[v].size, flags))
          else None
        case OffsetBranch =>
          if v >= |toks| || toks[v].kind != Primitive then None else Some((v, flags))
  }

  /** n consecutive pairs after token i. `ValidatePairs`, `ValidPairAt` and
      `NextValidPair` are one recursion over the pairs written in three steps,
      so that one unfolding of it shows a single step. */
  function ValidatePairs(json: string, toks: seq<Token>, i: nat, n: nat, found: seq<bool>): (r: Option<(nat, seq<bool>)>)
    requires |found| == |AcceptedOptions|
    ensures r.Some? ==> i <= r.value.0 && |r.value.1| == |found|
    decreases n, 2
  {
    if n == 0 then Some((i, found)) else ValidPairAt(json, toks, i, n, found)
  }

  /** n > 0 pairs after token i: the first key must be there to be read. */
  function ValidPairAt(json: string, toks: seq<Token>, i: nat, n: nat, found: seq<bool>): (r: Option<(nat, seq<bool>)>)
    requires |found| == |AcceptedOptions| && n > 0
    ensures r.Some? ==> i < r.value.0 && |r.value.1| == |found|
    decreases n, 1
  {
    if i + 1 >= |toks| then None else NextValidPair(json, toks, i, n, found)
  }

  /** The first of n > 0 pairs after token i, then the others after it. */
  function NextValidPair(json: string, toks: seq<Token>, i: nat, n: nat, found: seq<bool>): (r: Option<(nat, seq<bool>)>)
    requires |found| == |AcceptedOptions| && n > 0
    ensures r.Some? ==> i <= r.value.0 && |r.value.1| == |found|
    decreases n, 0
  {
    match ValidatePair(json, toks, i, found)
    case None => None
    case Some((last, flags)) => ValidatePairs(json, toks, last, n - 1, flags)
  }

  const NoneFound: seq<bool> := [false, false, false, false]

  /** `validate_json_entry_token`: the entry object after token i; on success,
      the last token of the entry. */
  function ValidateEntry(json: string, toks: seq<Token>, i: nat): Option<nat>
  {
    var o := i + 1;
    if o >= |toks| || toks[o].kind != Object || toks[o].size < 3 then None
    else match ValidatePairs(json, toks, o, toks[o].size, NoneFound)
      case None => None
      case Some((last, found)) =>
        if AllMandatoryFound(AcceptedOptions, found) then Some(last) else None
  }

  /** n consecutive entry objects after token i. */
  function ValidateEntries(json: string, toks: seq<Token>, i: nat, n: nat): Option<nat>
    decreases n, 1
  {
    if n == 0 then Some(i) else NextValidEntry(json, toks, i, n)
  }

  /** The first of n > 0 entry objects after token i, then the others after it. */
  function NextValidEntry(json: string, toks: seq<Token>, i: nat, n: nat): Option<nat>
    requires n > 0
    decreases n, 0
  {
    match ValidateEntry(json, toks, i)
    case None => None
    case Some(last) => ValidateEntries(json, toks, last, n - 1)
  }

  /** `validate_json_tokens`: an object, a string starting with
      "configuration", an array, and as many valid entries as the array
      declares. Tokens after the last entry are not looked at. */
  predicate ValidateJson(json: string, toks: seq<Token>)
  {
    && |toks| > 2
    && toks[0].kind == Object
    && toks[1].kind == String && PrefixAt("configuration", json, toks[1].start)
    && toks[2].kind == Array
    && ValidateEntries(json, toks, 2, toks[2].size).Some?
  }

  /** `check_match`: scans the list for the first name that is a prefix of
      the text at `pos`; sets that name's flag and no other. A flag that is
      already set stays set: a repeated key is not noticed. */
  method CheckMatch(list: seq<OptionSpec>, found: array<bool>, json: string, pos: nat) returns (matched: bool)
    requires found.Length == |list|
    modifies found
    ensures matched == FirstPrefix(OptionNames(list), json, pos).Some?
    ensures matched ==> found[..] == old(found[..])[FirstPrefix(OptionNames(list), json, pos).value := true]
    ensures !matched ==> found[..] == old(found[..])
  {
    ghost var names := OptionNames(list);
    matched := false;
    var i := 0;
    while i < |list| && !matched
      invariant 0 <= i <= |list|
      invariant !matched ==> found[..] == old(found[..])
      invariant !matched ==> forall j :: 0 <= j < i ==> !PrefixAt(names[j], json, pos)
      invariant matched ==> 0 < i && FirstPrefix(names, json, pos) == Some(i - 1)
      invariant matched ==> found[..] == old(found[..])[i - 1 := true]
    {
      matched := PrefixAt(list[i].name, json, pos);
      if matched {
        found[i] := true;
        FirstPrefixIs(names, json, pos, i);
      }
      i := i + 1;
    }
    FirstPrefixSpec(names, json, pos);
  }

  /** `check_all_mandatory_found`. */
  method CheckAllMandatoryFound(list: seq<OptionSpec>, found: array<bool>) returns (all: bool)
    requires found.Length == |list|
    ensures all <==> forall o :: 0 <= o < |list| && list[o].mandatory ==> found[o]
  {
    all := true;
    var i := 0;
    while i < |list| && all
      invariant 0 <= i <= |list|
      invariant all <==> forall o :: 0 <= o < i && list[o].mandatory ==> found[o]
    {
      all := !list[i].mandatory || found[i];
      i := i + 1;
    }
  }

  /** `validate_json_entry_token`, with the cursor passed in and returned. */
  method ValidateEntryToken(json: string, toks: seq<Token>, cursor: nat) returns (ok: bool, next: nat)
    ensures ok == ValidateEntry(json, toks, cursor).Some?
    ensures ok ==> next == ValidateEntry(json, toks, cursor).value
  {
    next := cursor;
    var found := new bool[|AcceptedOptions|](_ => false);
    assert found[..] == NoneFound;
    var i: nat := cursor + 1;
    if i >= |toks| || toks[i].kind != Object {
      return false, next;
    }
    var numberOfOptions := toks[i].size;
    if numberOfOptions < 3 {
      return false, next;
    }
    ghost var entry := i;
    var option := 0;
    while option < numberOfOptions
      invariant option <= numberOfOptions
      invariant ValidatePairs(json, toks, entry, numberOfOptions, NoneFound)
             == ValidatePairs(json, toks, i, numberOfOptions - option, found[..])
    {
      ghost var before := i;
      ghost var flags := found[..];
      var pairOk;
      pairOk, i := ValidatePairToken(json, toks, i, found);
      assert ValidatePairs(json, toks, before, numberOfOptions - option, flags)
          == ValidPairAt(json, toks, before, numberOfOptions - option, flags);
      if !pairOk {
        PairFails(json, toks, cursor, option, before, flags);
        return false, next;
      }
      assert ValidPairAt(json, toks, before, numberOfOptions - option, flags)
          == NextValidPair(json, toks, before, numberOfOptions - option, flags);
      option := option + 1;
    }
    next := i;
    ok := CheckAllMandatoryFound(AcceptedOptions, found);
  }

  /** One iteration of the option loop of `validate_json_entry_token`: the
      key after token i, then its value; on success, the last token of the
      pair, with the key's flag set in `found`. */
  method ValidatePairToken(json: string, toks: seq<Token>, i: nat, found: array<bool>) returns (ok: bool, last: nat)
    requires found.Length == |AcceptedOptions|
    modifies found
    ensures ok == ValidatePair(json, toks, i, old(found[..])).Some?
    ensures ok ==> (last, found[..]) == ValidatePair(json, toks, i, old(found[..])).value
  {
    last := i + 1;
    if last >= |toks| || toks[last].kind != String {
      return false, last;
    }
    var key := toks[last].start;
    var matched := CheckMatch(AcceptedOptions, found, json, key);
    if !matched {
      return false, last;
    }
    var branch := Branch(json, key);
    if branch == NameBranch {
      last := last + 1;
      ok := last < |toks| && toks[last].kind == String;
    } else if branch == LocationBranch {
      last := last + 1;
      ok := last < |toks| && toks[last].kind == String;
    } else if branch == ButtonsBranch {
      last := last + 1;
      if last >= |toks| || toks[last].kind != Array {
        return false, last;
      }
      ghost var list := last;
      var buttonCount := toks[last].size;
      var k := 0;
      while k < buttonCount
        invariant k <= buttonCount && last == list + k && last < |toks|
        invariant forall j :: list < j <= last ==> toks[j].kind == String
      {
        last := last + 1;
        if last >= |toks| || toks[last].kind != String {
          assert !AllStrings(toks, list, buttonCount);
          return false, last;
        }
        k := k + 1;
      }
      assert AllStrings(toks, list, buttonCount);
      ok := true;
    } else {
      last := last + 1;
      ok := last < |toks| && toks[last].kind == Primitive;
    }
  }

  /** A pair that fails validation fails its entry. */
  lemma PairFails(json: string, toks: seq<Token>, cursor: nat, option: nat, before: nat, flags: seq<bool>)
    requires cursor + 1 < |toks| && option < toks[cursor + 1].size && |flags| == |AcceptedOptions|
    requires toks[cursor + 1].kind == Object && toks[cursor + 1].size >= 3
    requires ValidatePairs(json, toks, cursor + 1, toks[cursor + 1].size, NoneFound)
          == ValidatePairs(json, toks, before, toks[cursor + 1].size - option, flags)
    requires ValidatePair(json, toks, before, flags).None?
    ensures ValidateEntry(json, toks, cursor).None?
  {
    var n := toks[cursor + 1].size - option;
    assert ValidatePairs(json, toks, before, n, flags) == ValidPairAt(json, toks, before, n, flags);
  }

  /** `validate_json_tokens`. */
  method ValidateJsonTokens(json: string, toks: seq<Token>) returns (ok: bool)
    ensures ok == ValidateJson(json, toks)
  {
    var i: nat := 0;
    if i >= |toks| || toks[i].kind != Object {
      return false;
    }
    i := i + 1;
    if i >= |toks| || toks[i].kind != String || !PrefixAt("configuration", json, toks[i].start) {
      return false;
    }
    i := i + 1;
    if i >= |toks| || toks[i].kind != Array {
      return false;
    }
    var arraySize := toks[i].size;
    var j := 0;
    while j < arraySize
      invariant j <= arraySize
      invariant ValidateEntries(json, toks, 2, arraySize) == ValidateEntries(json, toks, i, arraySize - j)
    {
      var entryOk;
      entryOk, i := ValidateEntryToken(json, toks, i);
      if !entryOk {
        return false;
      }
      j := j + 1;
    }
    return true;
  }
}
