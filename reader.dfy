/** The reader: `parse_json_tokens` filling the configuration, and
    `a9l_config_read_json`, which validates the token list first and extracts
    only from a list the validator accepted.

    The tokenizer is not part of this model: the reader receives what it
    produced, `None` for a text it rejects as invalid JSON, or the token list
    with every span inside the text. */
module ConfigReader {
  import opened Wrappers
  import opened JsonTokens
  import opened ConfigStore
  import opened Validator
  import opened Extractor

  /** `parse_json_tokens`: the array at token 2 fixes the number of slots,
      then each entry is parsed into its slot in order. On success the
      configuration holds exactly the extracted entries; on failure it still
      holds its slots (the entries before the failing one initialised). */
  method ParseJsonTokens(config: Config, json: string, toks: seq<Token>) returns (ok: bool)
    requires Within(json, toks)
    requires config.Valid()
    modifies config
    ensures config.Valid()
    ensures ok == Extract(json, toks, AsWritten).Ok?
    ensures ok ==> config.Contents() == Extract(json, toks, AsWritten).value
    ensures |toks| > 2 ==> config.entries != null && fresh(config.entries) && config.numEntries == toks[2].size
  {
    if |toks| <= 2 {
      return false;
    }
    var i: nat := 2;
    var arraySize := toks[i].size;
    i := i + 1;
    config.Initialize(arraySize);
    var j := 0;
    while j < arraySize
      invariant j <= arraySize
      invariant config.Valid() && config.entries != null && fresh(config.entries)
      invariant config.numEntries == arraySize
      invariant Extract(json, toks, AsWritten)
             == ParseEntries(json, toks, i, arraySize - j, config.entries[..j], AsWritten)
    {
      var entryOk;
      entryOk, i := ParseEntrySlot(json, toks, i, config, j);
      if !entryOk {
        return false;
      }
      j := j + 1;
    }
    assert config.entries[..] == config.entries[..j];
    return true;
  }

  /** One iteration of the entry loop of `parse_json_tokens`: the entry at
      token i is parsed into slot j. On success the slots up to j are the
      first extracted entries and the rest of the list is read from `next`;
      otherwise the remaining entries do not extract. */
  method ParseEntrySlot(json: string, toks: seq<Token>, i: nat, config: Config, j: nat) returns (ok: bool, next: nat)
    requires Within(json, toks)
    requires config.Valid() && j < config.numEntries
    modifies config.entries
    ensures config.Valid()
    ensures !ok ==> !ParseEntries(json, toks, i, config.numEntries - j, old(config.entries[..j]), AsWritten).Ok?
    ensures ok ==>
              ParseEntries(json, toks, i, config.numEntries - j, old(config.entries[..j]), AsWritten)
              == ParseEntries(json, toks, next, config.numEntries - (j + 1), config.entries[..j + 1], AsWritten)
  {
    ghost var done := config.entries[..j];
    ok, next := ParseEntryToken(json, toks, i, config, j);
    EntriesStep(json, toks, i, config.numEntries - j, done);
    if ok {
      assert config.entries[..j + 1] == done + [ParseEntry(json, toks, i, AsWritten).value.1];
    }
  }

  /** One step of ParseEntries: the first entry fails, or the rest is read
      after it. */
  lemma EntriesStep(json: string, toks: seq<Token>, i: nat, n: nat, done: seq<Entry>)
    requires Within(json, toks) && n > 0
    ensures ParseEntries(json, toks, i, n, done, AsWritten) == NextEntry(json, toks, i, n, done, AsWritten)
    ensures !ParseEntry(json, toks, i, AsWritten).Ok? ==> !ParseEntries(json, toks, i, n, done, AsWritten).Ok?
    ensures ParseEntry(json, toks, i, AsWritten).Ok? ==>
              ParseEntries(json, toks, i, n, done, AsWritten)
              == ParseEntries(json, toks, ParseEntry(json, toks, i, AsWritten).value.0, n - 1,
                              done + [ParseEntry(json, toks, i, AsWritten).value.1], AsWritten)
  {
  }

  /** `a9l_config_read_json`. A text the tokenizer rejects, or a token list
      the validator rejects, leaves the configuration untouched. A list that
      validates but fails extraction leaves it destroyed: no array and no
      entries. Otherwise the configuration holds the extracted entries. Where
      extraction is undefined nothing is promised beyond a well-formed
      configuration. */
  method ReadJson(config: Config, json: string, scan: Option<seq<Token>>) returns (ok: bool)
    requires scan.Some? ==> Within(json, scan.value)
    requires config.Valid()
    modifies config, config.entries
    ensures config.Valid()
    ensures scan.None? ==> !ok && unchanged(config) && (config.entries != null ==> unchanged(config.entries))
    ensures scan.Some? && !ValidateJson(json, scan.value) ==>
              !ok && unchanged(config) && (config.entries != null ==> unchanged(config.entries))
    ensures scan.Some? && ValidateJson(json, scan.value) && Extract(json, scan.value, AsWritten).Ok? ==>
              ok && config.Contents() == Extract(json, scan.value, AsWritten).value
    ensures scan.Some? && ValidateJson(json, scan.value) && Extract(json, scan.value, AsWritten).Fail? ==>
              !ok && config.entries == null && config.numEntries == 0
  {
    if scan.None? {
      return false;
    }
    var toks := scan.value;
    var valid := ValidateJsonTokens(json, toks);
    if !valid {
      return false;
    }
    ok := ParseJsonTokens(config, json, toks);
    if !ok {
      config.Destroy();
    }
  }
}
