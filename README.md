# arm9launcher boot configuration, modelled in Dafny

arm9launcher picks the payload to chain-load at boot from the buttons held.
The candidates come from a small JSON file of the form

    { "configuration": [ { "name": …, "location": …, "offset": …, "buttons": [ … ] }, … ] }

The file is tokenized by jsmn into a flat list of tokens: kind, start, end and
child count. This project models what the loader does with that list.

- **The validator** (`validate_json_tokens`, `validate_json_entry_token`,
  `check_match`, `check_all_mandatory_found`) moves one cursor over the tokens
  and checks them against the fixed schema.
- **The extractor** (`parse_json_tokens`, `parse_json_entry_token`,
  `token_extract_string`, `token_extract_button`, and the `strtol` offset check)
  walks the list again. It fills an entry array with each entry's payload path,
  its offset and its OR-ed button mask.
- **The entry store** (`a9l_config_initialize` / `_destroy`,
  `a9l_config_entry_initialize` / `_destroy`) is a class holding an array.
- **`a9l_config_read_json`** runs the validator and then the extractor.
- **From `main` in src/loader.c**: the exact-mask search `select_payload`, and
  the two 256-byte argument buffers for the payload path and the offset.

The model is in two layers.

- **Methods that mirror the C loops.** They work over arrays and the `Config`
  class, with `modifies` clauses.
- **Specification functions.** Each method is proved equal to one of them:
  - validator: `ValidatePair`, `ValidateEntry`, `ValidateJson`;
  - extractor: `ParsePair`, `ParseEntry`, `ParseEntries`, `Extract`;
  - numbers and button names: `StrToL`, `DecodeButton`.

Two further modules state what these functions mean. `Document` describes a
schema document as a tree. It proves that the validator accepts exactly the
token lists of such trees. `Meaning` gives, independently, the entries a tree
stands for. It proves that the extractor computes them.

Undefined behaviour that the C code can reach is the outcome `Undefined`, never
a value: reading past the token array, or `strlen(NULL)` on a missing location.
The extractor's cursor handling after a `buttons` array is a parameter
`CursorRule`:

- `AsWritten` is the code;
- `Corrected` is the intended step past an empty array (see "## Findings").

Every method models the code as written.

Files:

| file | module | contents |
|---|---|---|
| wrappers.dfy | Wrappers | `Option`, `Outcome` (`Ok`/`Fail`/`Undefined`), `Result` |
| json_tokens.dfy | JsonTokens | the token record, `Within` (token spans lie in the text), `strncmp` prefix test, token text |
| c_numbers.dfy | CNumbers | `strtol` with base 0, the `long` and `size_t` conversions, decimal rendering |
| schema.dfy | Schema | accepted options, button table, first-prefix key and button lookup |
| config_store.dfy | ConfigStore | class `Config`: the entry array and its count |
| validator.dfy | Validator | the validator's methods and specification functions |
| extractor.dfy | Extractor | the extractor's methods and specification functions |
| reader.dfy | ConfigReader | `parse_json_tokens` and `a9l_config_read_json` |
| document.dfy | Document | schema documents as trees; the validator accepts exactly their token lists |
| meaning.dfy | Meaning | the entries a document stands for; the extractor computes them |
| loader.dfy | Loader | `select_payload` and the argument buffers of `main` |
| findings.dfy | Findings | three concrete documents: the empty-`buttons` misreading, the read past the token list it can cause, and a repeated key |

## Model

| member | source | states |
|---|---|---|
| ConfigStore.Config.constructor | src/loader.c:100 | a zeroed configuration: no entry array, count 0, contents empty |
| ConfigStore.Config.Initialize | src/a9l_config.c:52-65 | a fresh array of `n` slots, count `n`, every slot with no payload, offset 0 and mask 0 |
| ConfigStore.Config.InitializeEntry | src/a9l_config.c:89-95 | slot `j` holds a copy of the payload, the offset and the mask; every other slot is unchanged |
| ConfigStore.Config.DestroyEntry | src/a9l_config.c:97-102 | slot `j` loses its payload and gets offset 0 and mask 0; every other slot is unchanged |
| ConfigStore.Config.Destroy | src/a9l_config.c:67-77 | every old slot was reset; afterwards there is no array and the count is 0 (with count 0 the loop does nothing) |
| Validator.CheckMatch | src/a9l_config.c:141-153 | true iff some accepted name is a prefix of the key text; only the first matching flag is set, and every other flag is unchanged |
| Validator.CheckAllMandatoryFound | src/a9l_config.c:155-163 | true iff every mandatory option (name, location, buttons) is flagged; offset is never required |
| Validator.ValidatePairToken | src/a9l_config.c:183-225 | the loop body over one key/value pair equals `ValidatePair`: its verdict, its cursor and its flags |
| Validator.ValidatePair | src/a9l_config.c:183-225 | an accepted pair moves the cursor forward and stays inside the token list, keeping one flag per option |
| Validator.ValidatePairs | src/a9l_config.c:181-226 | after the accepted pairs the cursor has not moved back and there is still one flag per option |
| Validator.ValidPairAt | src/a9l_config.c:184-186 | the first of n > 0 pairs needs its key token to be present; when accepted the cursor moves forward |
| Validator.NextValidPair | src/a9l_config.c:181-226 | the first pair followed by the rest keeps the cursor from moving back |
| Validator.ValidateEntryToken | src/a9l_config.c:165-232 | the method's verdict and cursor equal `ValidateEntry`'s |
| Validator.PairFails | src/a9l_config.c:184-189 | a pair rejected in the middle of an object rejects the whole entry |
| Validator.ValidateJsonTokens | src/a9l_config.c:234-260 | the method's verdict equals `ValidateJson`: root object, a string starting with "configuration", an array, then `size` entries in order |
| Document.ValidateExactly | src/a9l_config.c:234-260 | the validator accepts a token list iff it is the token list of a document of the schema |
| Document.ValidateComplete | src/a9l_config.c:234-260 | every document of the schema passes the validator, in any key order |
| Document.ValidateSound | src/a9l_config.c:234-260 | from a list the validator accepts, a conforming document is rebuilt whose tokens are exactly that list |
| Document.FoundAfter | src/a9l_config.c:149 | the flags after a list of pairs keep their count |
| Document.FoundAfterHasKey | src/a9l_config.c:141-153 | a flag is set after a pair list iff it was set before or some pair has that key; a repeated key is not an error |
| Document.FoundAfterStep | src/a9l_config.c:149 | a pair's flag is set first and the remaining pairs then continue from there |
| Document.ValidatePairOf | src/a9l_config.c:183-225 | a conforming pair is accepted; the cursor moves over exactly its tokens and its key's flag is set |
| Document.ValidatePairsOf | src/a9l_config.c:181-226 | conforming pairs are accepted; the cursor moves over all their tokens and the flags are `FoundAfter` |
| Document.PairThenRest | src/a9l_config.c:181-226 | after a conforming first pair, the rest are checked from the following token with that pair's flag set |
| Document.ValidateEntryOf | src/a9l_config.c:165-232 | a conforming entry object is accepted and the cursor ends on its last token |
| Document.ValidateEntriesOf | src/a9l_config.c:253-257 | conforming entries are accepted in order and the cursor ends on the last token of the last entry |
| Document.EntriesStep | src/a9l_config.c:253-257 | after the first conforming entry, the others are checked from the cursor it leaves |
| Document.EntryThenRest | src/a9l_config.c:253-257 | the entry loop goes on after a conforming entry's tokens |
| Document.PairOfValid | src/a9l_config.c:183-225 | an accepted pair is the token list of a conforming pair |
| Document.PairsOfValid | src/a9l_config.c:181-226 | accepted pairs are the token list of that many conforming pairs |
| Document.EntryOfValid | src/a9l_config.c:165-232 | an accepted entry is the token list of a conforming entry object, with every mandatory key present |
| Document.EntriesOfValid | src/a9l_config.c:253-257 | accepted entries are the token list of that many conforming entry objects |
| Extractor.TokenExtractButton | src/a9l_config.c:276-290 | succeeds iff some button name is a prefix of the element text, giving that name's flag (`DecodeButton`) |
| Extractor.ParseButtonArray | src/a9l_config.c:319-330 | the element loop equals `ParseButtons`: the OR of the decoded flags, or failure on the first unknown name |
| Extractor.OffsetValue | src/a9l_config.c:336-342 | an offset exists iff `strtol` stops exactly at the token's end; it is the parsed `long` converted to `size_t` |
| Extractor.ParsePair | src/a9l_config.c:306-344 | a pair that is read moves the cursor forward by at least two tokens |
| Extractor.ParsePairs | src/a9l_config.c:304-344 | after n pairs the cursor has moved at least 2n tokens |
| Extractor.PairAt | src/a9l_config.c:308 | the first of n > 0 pairs needs its key token to be present; the cursor then moves at least 2n tokens |
| Extractor.NextPair | src/a9l_config.c:306-344 | the first pair followed by the rest moves the cursor at least 2n tokens |
| Extractor.ParsePairToken | src/a9l_config.c:308-343 | the loop body over one pair equals `ParsePair` as written: verdict, cursor and fields |
| Extractor.ParseEntry | src/a9l_config.c:292-353 | an entry that is read moves the cursor forward and always has a payload |
| Extractor.ParseEntryToken | src/a9l_config.c:292-353 | the method equals `ParseEntry` as written; on success slot `j` is that entry and on failure no slot changes |
| Extractor.ParseEntries | src/a9l_config.c:366-373 | n entries read after `done` give exactly n more |
| Extractor.NextEntry | src/a9l_config.c:366-373 | the first entry followed by the rest gives exactly n more |
| Extractor.Extract | src/a9l_config.c:355-376 | a successful extraction gives exactly as many entries as the configuration array declares |
| ConfigReader.ParseJsonTokens | src/a9l_config.c:355-376 | succeeds iff `Extract` as written does; the store then holds its entries in document order, in a fresh array sized by token 2 |
| ConfigReader.ParseEntrySlot | src/a9l_config.c:366-373 | one turn of the entry loop: failure means the remaining entries cannot be read, and success continues the same extraction from the next slot |
| ConfigReader.EntriesStep | src/a9l_config.c:366-373 | the entry loop fails when its entry fails, and otherwise goes on after it |
| ConfigReader.ReadJson | src/a9l_config.c:104-136 | without tokens, or when validation fails: false and the store is untouched; when extraction fails: false and the store is destroyed (no array, count 0); otherwise true and the extracted entries |
| Meaning.ExtractRoundTrip | src/a9l_config.c:355-376 | on a conforming document the extractor returns the document's entries (`Meaning`) or fails on a bad button or offset, and never reaches undefined behaviour; as written this needs every `buttons` array to be non-empty |
| Meaning.AcceptedListReads | src/a9l_config.c:121-132 | every list the validator accepts is the list of a document; the corrected extractor reads it as that document's entries, never reaching undefined behaviour; as written it agrees when no `buttons` array is empty |
| Meaning.ParseEntriesOf | src/a9l_config.c:366-373 | the entry loop over conforming entries appends their meanings in order, or fails |
| Meaning.ParseEntriesHead | src/a9l_config.c:366-373 | the loop reads a conforming entry's meaning, then goes on after that entry's tokens |
| Meaning.ParseEntryOf | src/a9l_config.c:292-353 | a conforming entry object reads as its meaning, with the cursor past all of its tokens |
| Meaning.ParsePairsOf | src/a9l_config.c:304-344 | the pair loop over conforming pairs has the effect of those pairs in order, and leaves the cursor past their tokens |
| Meaning.ParsePairsStep | src/a9l_config.c:306-344 | the extractor and the reference both continue after the first pair from the fields it leaves |
| Meaning.ParsePairsHead | src/a9l_config.c:306-344 | the pair loop applies a conforming first pair's effect, then goes on after its tokens |
| Meaning.ParsePairOf | src/a9l_config.c:308-343 | one conforming pair has its effect and moves the cursor past exactly its tokens (as written, unless it is an empty `buttons` array) |
| Meaning.ParseButtonsPairOf | src/a9l_config.c:317-333 | a `buttons` pair ORs in its elements' flags; the cursor goes past the elements when there are any, or with the corrected rule |
| Meaning.ParseScalarPairOf | src/a9l_config.c:309-316 | a name, location or offset pair has its effect and takes exactly two tokens |
| Meaning.ParseButtonsOf | src/a9l_config.c:319-330 | the element loop over located elements gives their `Mask`, or fails where `Mask` does |
| Meaning.MaskSpec | src/a9l_config.c:319-330 | the mask fails iff some element names no button; otherwise it includes the starting mask and every element's flag |
| Meaning.MaskConcat | src/a9l_config.c:329 | OR-ing two runs of elements in turn is OR-ing their concatenation |
| Meaning.PairsEffectConcat | src/a9l_config.c:306-344 | the effect of two runs of pairs is the effect of the first, then the second |
| Meaning.EffectStep | src/a9l_config.c:306-344 | the effect of a pair list is the first pair's effect, then the rest |
| Meaning.LaterLocationWins | src/a9l_config.c:313-316 | a later `location` pair replaces the path read so far |
| Meaning.OffsetKept | src/a9l_config.c:300 | without an `offset` pair the offset keeps its starting value (0 for an entry) |
| Meaning.PairButtonsGrow | src/a9l_config.c:329 | a pair never clears a button flag already set |
| Meaning.ButtonsGrow | src/a9l_config.c:329 | the mask only gains flags over the pairs of an entry |
| Meaning.LocationKept | src/a9l_config.c:313-316 | once a location is read, or when a `location` key is still to come, the entry ends with a path |
| Meaning.EntryHasPath | src/a9l_config.c:346 | a conforming entry that reads successfully has a payload path, so the copy at line 346 is defined |
| Schema.OptionNamesApart | src/a9l_config.c:18-24 | the four accepted keys begin with four different letters, so no two of them are prefixes of the same text (the first `strncmp` match at line 146 is the only one), and every key but "offset" is mandatory |
| Schema.FirstPrefix | src/a9l_config.c:144-146 | a match is an index into the table |
| Schema.FirstPrefixSpec | src/a9l_config.c:144-146 | the match is the first name in the table that is a prefix of the text; there is none iff no name is |
| Schema.FirstPrefixIs | src/a9l_config.c:144-146 | a prefix with no earlier prefix in the table is the match |
| Schema.KeyClasses | src/a9l_config.c:188-225 | the four keys cannot shadow each other; the validator's table lookup and both passes' if-chains pick the same key |
| Schema.ButtonFlagValues | src/a9l_config.c:285 | `(1 << i) >> 1`: None is 0, index i > 0 is bit i-1, different buttons share no bit, Y is 0x800 |
| Schema.DecodeButtonNone | src/a9l_config.c:279-289 | decoding fails iff no button name is a prefix of the element text |
| Schema.DecodeExactName | src/a9l_config.c:279-287 | a quoted element that spells a button name exactly decodes to that button's flag |
| Schema.NoEarlierNameIsPrefix | src/a9l_config.c:26-40 | no button name is a prefix of a later one, and none holds a quote |
| Schema.DecodeIsPrefixMatch | src/a9l_config.c:283 | "Selected" decodes as Select, because matching is by prefix |
| Schema.DecodeUpIsPrefixMatch | src/a9l_config.c:283 | "Upper" decodes as Up |
| Schema.DecodeUnknownName | src/a9l_config.c:289 | "Z" names no button |
| JsonTokens.PrefixAtIsBoundedCompare | src/a9l_config.c:146 | the prefix test is `strncmp` over `strlen(name)` characters, reading the terminator past the end of the text |
| JsonTokens.TokenText | src/a9l_config.c:262-269 | the copied string has the span's length and its characters, and no NUL when the text has none |
| CNumbers.DigitValue | src/a9l_config.c:273 | a character's digit value is below 10 exactly for decimal digits |
| CNumbers.SkipSpace | src/a9l_config.c:273 | the index it stops at is the text's end or holds a character that is not white space |
| CNumbers.SkipSpaceSkips | src/a9l_config.c:273 | every character `strtol` skips before the number is white space |
| CNumbers.Digits | src/a9l_config.c:273 | the digit run stops at the text's end or at a character that is no digit of the base; having read nothing, the value is the accumulator |
| CNumbers.DigitsRead | src/a9l_config.c:273 | every character the digit loop reads is a digit of the base |
| CNumbers.DigitsValue | src/a9l_config.c:273 | the value read is the positional value of the digit run, each digit times the base to the number of digits after it, added to the accumulator shifted by the run's length |
| CNumbers.StrToL | src/a9l_config.c:273 | the end lies within the text; with no conversion it is the start and the value 0; otherwise the last character read is a digit |
| CNumbers.StrToLHex | src/a9l_config.c:273 | "0x1A" is 26, ending after 4 characters |
| CNumbers.StrToLTrailing | src/a9l_config.c:273 | "12abc" stops after "12", so the offset check rejects it |
| CNumbers.StrToLOctal | src/a9l_config.c:273 | "017" is octal 15 |
| CNumbers.StrToLBareHexPrefix | src/a9l_config.c:273 | "0x" alone reads the 0 and stops before the x |
| CNumbers.StrToLNoDigits | src/a9l_config.c:273 | "abc" and "-" convert nothing: value 0, end at the start |
| CNumbers.LongOf | src/a9l_config.c:273 | the value is kept when it lies in the 32-bit `long` range and saturates to `LONG_MAX` above it and to `LONG_MIN` below it |
| CNumbers.SizeTOfLong | src/a9l_config.c:337 | a non-negative `long` keeps its value, and a negative one wraps modulo 2^32 |
| CNumbers.DecimalString | src/loader.c:128 | `%zu` renders at least one digit and nothing but digits |
| CNumbers.DecimalLength | src/loader.c:128 | a number below 10^k renders in at most k digits |
| CNumbers.SizeTDecimalLength | src/loader.c:134 | a 32-bit `size_t` renders in at most 10 digits |
| Loader.SelectPayload | src/loader.c:172-184 | the lowest index whose mask equals the held mask exactly, and none iff no entry's does; it only reads the store |
| Loader.CopyPayload | src/loader.c:114-119 | the copy succeeds iff the path and its NUL fit the 256-byte buffer; the buffer then holds the path, a NUL and its old tail; otherwise it is untouched |
| Loader.RenderOffset | src/loader.c:127-137 | the check passes iff the rendering fits (`>` as written); a rendering that fits with its NUL is then in the buffer |
| Loader.OffsetAlwaysFits | src/loader.c:134-137 | every `size_t` offset fits with its NUL, and the buffer reads back as the rendering, so that error is unreachable |
| Loader.CString | src/loader.c:143 | the C string in a buffer is its characters before the first NUL |
| Loader.CStringOfTerminated | src/loader.c:119 | a NUL-free string followed by a NUL reads back as itself |
| Loader.PrepareBootArguments | src/loader.c:110-137 | success gives the path and decimal offset of the first entry whose mask equals the held mask; "no payload" iff no entry's does; "payload too long" iff that first entry's path and its terminator exceed 256 bytes; the offset never overflows its buffer |
| Findings.EmptyButtonsMisread | src/a9l_config.c:331-332 | a document the validator accepts, with an empty `buttons` array, fails extraction as written but reads as its one entry with the corrected cursor |
| Findings.EmptyButtonsAsWritten | src/a9l_config.c:306-332 | as written, the cursor takes the location value "p" for a key, reads it as an offset and fails the offset check |
| Findings.EmptyButtonsCorrected | src/a9l_config.c:306-332 | with the corrected cursor the same tokens give the entry (path "p", offset 0, no buttons) |
| Findings.EmptyButtonsMeaning | src/a9l_config.c:292-353 | the reference reading of that document is that one entry |
| Findings.EmptyButtonsEffects | src/a9l_config.c:306-344 | the three pairs of that entry have the effects the reference gives them |
| Findings.EmptyButtonsConforms | src/a9l_config.c:165-232 | that document conforms to the schema |
| Findings.EmptyButtonsPairs | src/a9l_config.c:181-226 | its pairs conform |
| Findings.EmptyButtonsTokenList | src/a9l_config.c:104-119 | the document's token list is the one given for the text, in the tokenizer's order, and every span lies in the text |
| Findings.EmptyButtonsKeys | src/a9l_config.c:191-205 | the key texts of that document select the buttons, location and name branches |
| Findings.EmptyButtonsValueAsKey | src/a9l_config.c:334 | the value "p" read as a key falls through to the offset branch |
| Findings.EmptyButtonsValues | src/a9l_config.c:337-338 | "p" is the location text; `strtol` at the next key converts nothing |
| Findings.OverReadMisread | src/a9l_config.c:331-332 | a document the validator accepts, with an empty `buttons` array before the entry's last pair, makes the extractor as written read past the token list, while the corrected cursor reads its one entry |
| Findings.OverReadAsWritten | src/a9l_config.c:306-338 | as written, the cursor lands on the last token, takes the value "p" for an offset key and reads the value token at index 10 of a list of 10 tokens: undefined behaviour |
| Findings.OverReadMeaning | src/a9l_config.c:292-353 | the reference reading of that document is its one entry (path "p", offset 0, no buttons) |
| Findings.OverReadEffects | src/a9l_config.c:306-344 | the name and the empty array change nothing, the location sets "p" |
| Findings.OverReadConforms | src/a9l_config.c:165-232 | that document conforms to the schema |
| Findings.OverReadPairs | src/a9l_config.c:181-226 | its pairs conform |
| Findings.OverReadTokenList | src/a9l_config.c:104-119 | the document's token list is the one given for the text, in the tokenizer's order, and every span lies in the text |
| Findings.OverReadKeys | src/a9l_config.c:191-205 | the key texts of that document select the name, buttons and location branches |
| Findings.OverReadValueAsKey | src/a9l_config.c:334 | the value "p" read as a key falls through to the offset branch |
| Findings.RepeatedKeyAccepted | src/a9l_config.c:149 | an entry with `location` twice passes the validator, and the extractor keeps the later path |
| Findings.RepeatedKeyMeaning | src/a9l_config.c:313-316 | the reference reading of that document keeps the later path |
| Findings.RepeatedKeyEffects | src/a9l_config.c:306-344 | the four pairs of that entry have the effects the reference gives them |
| Findings.RepeatedKeyConforms | src/a9l_config.c:165-232 | that document, with its repeated key, conforms to the schema as the code checks it |
| Findings.RepeatedKeyPairs | src/a9l_config.c:181-226 | its pairs conform |
| Findings.RepeatedKeyButtons | src/a9l_config.c:331-332 | its `buttons` array is not empty |
| Findings.RepeatedKeyTokenList | src/a9l_config.c:104-119 | the document's token list is the one given for the text, in the tokenizer's order, and every span lies in the text |
| Findings.RepeatedKeyKeys | src/a9l_config.c:141-153 | both `location` keys and the name and buttons keys are recognised |
| Findings.RepeatedKeyValues | src/a9l_config.c:262-290 | the two location texts are "a" and "b", and the element "A" decodes to flag 1 |

## Left out

- The jsmn tokenizer (src/a9l_config.c:106-119) is a foreign library and is not part of this model. `ReadJson` takes its result as a parameter: no tokens for `JSMN_ERROR_INVAL`, or a token list whose spans lie within the text (`Within`). The unsigned cast of jsmn's other negative error codes is not modelled.
- `strtol` is modelled by `StrToL`. It covers leading white space, a sign, and base detection (`0x`, `0`, decimal). The C conversion to a 32-bit `long` is `LongOf`, and the conversion to a 32-bit `size_t` is `SizeTOfLong`. `errno` is not modelled.
- Allocation failure in `a9l_config_initialize` and `a9l_config_entry_initialize` is not modelled: `malloc` is taken to succeed.
- Memory ownership is modelled as values. `free(payload)` leaves the slot without a payload, and `free(entries)` leaves the store with no array. The tokens buffer and its `free` are not modelled. The memory leak of a repeated `location` key is not modelled: the second `token_extract_string` at src/a9l_config.c:315 overwrites the first copy without freeing it. The model keeps only the later path, as the code does.
- `a9l_config_get_entry` and `a9l_config_get_number_of_entries` (src/a9l_config.c:79-87) are `Config.GetEntry` and `Config.NumberOfEntries`. They only read a field and carry no contract of their own.
- Undefined behaviour is the outcome `Undefined` and has no further meaning. Examples: a token read past the array, `tokens[2]` read without a check, and `strlen(NULL)` for an entry that never read a location. The validator rules these cases out for every list it accepts (`Meaning.AcceptedListReads`, with the corrected cursor).
- The `snprintf` error check at src/loader.c:129 is not modelled: rendering a `size_t` with `%zu` does not fail.
- `on_error`, file and SD card I/O, HID sampling, the screen, cache maintenance, the jump to the bootloader and power-off are not part of this model. Nor are the rest of src/loader.c, src/main.c, src/arm9launcher.c, src/bootloader.c and src/elf.c.
- Extractor.ParseButtons: the function itself has no `ensures`. What it computes is stated by `Meaning.ParseButtonsOf` (the elements' `Mask`) and `Extractor.ParseButtonArray`.
- `Extractor.PairAt`, `Extractor.NextPair`, `Validator.ValidPairAt`, `Validator.NextValidPair`, `Extractor.NextEntry` and `Meaning.PairInText` / `Meaning.EffectThen` split one recursion into steps. Each is one step of the function it belongs to, not a separate operation of the source.
- The button mask type is taken to be 32 bits wide (`bv32`).
- `select_payload` returns the index of the entry, not its address.

Where the code and the intended design differ, the model follows the code:

- **Duplicate keys.** The validator accepts a repeated key. `check_match` only sets a flag that may already be set (src/a9l_config.c:149), and the extractor keeps the last `location` (`Document.FoundAfterHasKey`, `Findings.RepeatedKeyAccepted`).
- **Key and button names match by prefix.** A name matches when it is a prefix of the text from the token's start on, not the whole token. So "Selected" is Select and "Upper" is Up (`Schema.DecodeIsPrefixMatch`), and a key "names" is the name key.
- **The root object.** Its child count and the string after "configuration" are not checked (src/a9l_config.c:238-245).
- **The offset length check** at src/loader.c:134 uses `>`: a 256-character rendering would pass, truncated. A 32-bit `size_t` has at most 10 digits (`Loader.OffsetAlwaysFits`), so the check never fires.

## Findings

| source | as written | input that shows it | evidently intended | confidence | as-written member | corrected member |
|---|---|---|---|---|---|---|
| src/a9l_config.c:331-332 | an empty `buttons` array skips `i += button_count - 1`, but the loop's `++i` still runs, so the cursor lands one token past the next key: its value is read as a key | `{"configuration":[{"buttons":[],"location":"p","name":"a"}]}`: the validator accepts it, but the extractor reads the value "p" as an offset key and fails | the cursor should land on the next key after an empty array, as it does after a non-empty one (an empty array is "no buttons") | not executed | Findings.EmptyButtonsMisread | Meaning.ExtractRoundTrip |
| src/a9l_config.c:331-332 | the same extra step, when the empty array precedes the last pair of the last entry, puts the cursor on the last token; read as a key, it takes the offset branch, which reads `tokens[i]` one past the end of the token array (out-of-bounds read, undefined behaviour) | `{"configuration":[{"name":"a","buttons":[],"location":"p"}]}` (10 tokens): the validator accepts it, and the extractor reads token 10 | as above: the cursor lands on the location key and the entry reads as path "p" | not executed | Findings.OverReadMisread | Meaning.ExtractRoundTrip |
