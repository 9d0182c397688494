/** The token list the configuration reader consumes, and the text primitives
    it applies to the configuration text.

    The text is a C string: `json` holds its characters and the terminating
    NUL stands, implicitly, at index |json|. */
module JsonTokens {

  /** The token kinds of the jsmn tokenizer. */
  datatype Kind = Object | Array | String | Primitive

  /** One token: its kind, the span [start, end) of the text it covers (for a
      string, without the quotes) and its child count (the pairs of an object,
      the elements of an array). */
  datatype Token = Token(kind: Kind, start: nat, end: nat, size: nat)

  /** What the tokenizer guarantees about every span it reports. */
  ghost predicate Within(json: string, toks: seq<Token>)
  {
    forall k :: 0 <= k < |toks| ==> toks[k].start <= toks[k].end <= |json|
  }

  /** A character sequence that is the content of a C string. */
  predicate NoNul(s: string)
  {
    forall k :: 0 <= k < |s| ==> s[k] != '\0'
  }

  /** The character of the C string `json` at index k; from |json| on, the
      terminator. */
  function CharAt(json: string, k: nat): char
  {
    if k < |json| then json[k] else '\0'
  }

  /** `strncmp(name, &json[pos], strlen(name)) == 0`: the text from `pos` on
      begins with `name`. This is a prefix test on the rest of the text, not a
      comparison with a token's span. */
  predicate PrefixAt(name: string, json: string, pos: nat)
  {
    pos + |name| <= |json| && json[pos..pos + |name|] == name
  }

  /** The model's prefix test is the C comparison: the first strlen(name)
      characters of the text from `pos` on (the terminator included) equal
      those of `name`. */
  lemma PrefixAtIsBoundedCompare(name: string, json: string, pos: nat)
    requires NoNul(name) && pos <= |json|
    ensures PrefixAt(name, json, pos) <==> forall k :: 0 <= k < |name| ==> CharAt(json, pos + k) == name[k]
  {
    if forall k :: 0 <= k < |name| ==> CharAt(json, pos + k) == name[k] {
      if |name| > 0 {
        // the last compared character is not the terminator, so it lies in the text
        assert CharAt(json, pos + |name| - 1) == name[|name| - 1] != '\0';
      }
      assert json[pos..pos + |name|] == name;
    }
    if PrefixAt(name, json, pos) {
      forall k | 0 <= k < |name| ensures CharAt(json, pos + k) == name[k] {
        assert json[pos..pos + |name|][k] == json[pos + k];
      }
    }
  }

  /** `token_extract_string`: a fresh copy of the token's span, byte for byte
      (no escape decoding), NUL-terminated. */
  function TokenText(json: string, t: Token): (r: string)
    requires t.start <= t.end <= |json|
    ensures |r| == t.end - t.start
    ensures forall k :: 0 <= k < |r| ==> r[k] == json[t.start + k]
    ensures NoNul(json) ==> NoNul(r)
  {
    json[t.start..t.end]
  }
}
