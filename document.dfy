/** A tree-level reference for the configuration document: what a token list
    the reader accepts looks like as a tree, and what entries such a tree
    stands for, independently of any cursor.

    The tokenizer lists the tokens of a JSON text in document order, each
    container before its children, so a document of the accepted shape is
    the token list `DocTokens(d)` of a tree `d`: the root object, the
    "configuration" key, the array, the entry objects with their pairs
    (key, value and, for an array value, its elements), and whatever tokens
    follow the array (which neither pass looks at). */
module Document {
  import opened Wrappers
  import opened JsonTokens
  import opened Schema
  import opened CNumbers
  import opened ConfigStore
  import opened Validator
  import opened Extractor

  /** One key/value pair of an entry object: the key token, the value token,
      and the element tokens when the value is an array. */
  datatype Pair = Pair(key: Token, value: Token, items: seq<Token>)

  /** One element of the "configuration" array. */
  datatype EntryObject = EntryObject(token: Token, pairs: seq<Pair>)

  /** A whole document. */
  datatype Doc = Doc(root: Token, header: Token, list: Token, entries: seq<EntryObject>, trailing: seq<Token>)

  function PairTokens(p: Pair): seq<Token>
  {
    [p.key, p.value] + p.items
  }

  function PairsTokens(ps: seq<Pair>): seq<Token>
  {
    if ps == [] then [] else PairTokens(ps[0]) + PairsTokens(ps[1..])
  }

  function EntryTokens(e: EntryObject): seq<Token>
  {
    [e.token] + PairsTokens(e.pairs)
  }

  function EntriesTokens(es: seq<EntryObject>): seq<Token>
  {
    if es == [] then [] else EntryTokens(es[0]) + EntriesTokens(es[1..])
  }

  /** The token list of a document, in the tokenizer's order. */
  function DocTokens(d: Doc): seq<Token>
  {
    [d.root, d.header, d.list] + EntriesTokens(d.entries) + d.trailing
  }

  /** A pair of the schema: a string key that starts with an accepted name,
      and the value kind that key's option demands. */
  predicate PairConforms(json: string, p: Pair)
  {
    && p.key.kind == String
    && KeyOf(json, p.key.start).Some?
    && ValueConforms(KeyOf(json, p.key.start).value, p)
  }

  /** The value of option o: an array of strings for "buttons", a primitive
      for "offset", a string for "name" and "location". */
  predicate ValueConforms(o: nat, p: Pair)
  {
    if o == ButtonsKey then
      && p.value.kind == Array && p.value.size == |p.items|
      && forall k :: 0 <= k < |p.items| ==> p.items[k].kind == String
    else if o == OffsetKey then p.value.kind == Primitive && p.items == []
    else p.value.kind == String && p.items == []
  }

  /** Every pair of the list is of the schema. */
  predicate PairsConform(json: string, ps: seq<Pair>)
    decreases ps
  {
    ps == [] || (PairConforms(json, ps[0]) && PairsConform(json, ps[1..]))
  }

  /** Some pair of the list has a key of option o. */
  predicate HasKey(json: string, ps: seq<Pair>, o: nat)
  {
    exists k :: 0 <= k < |ps| && KeyOf(json, ps[k].key.start) == Some(o)
  }

  /** An entry of the schema: an object of at least three pairs, every pair
      of the schema, every mandatory key present. A key may appear more than
      once. */
  predicate EntryConforms(json: string, e: EntryObject)
  {
    && e.token.kind == Object
    && e.token.size == |e.pairs| >= 3
    && PairsConform(json, e.pairs)
    && forall o :: 0 <= o < |AcceptedOptions| && AcceptedOptions[o].mandatory ==> HasKey(json, e.pairs, o)
  }

  /** Every entry of the list is of the schema. */
  predicate EntriesConform(json: string, es: seq<EntryObject>)
    decreases es
  {
    es == [] || (EntryConforms(json, es[0]) && EntriesConform(json, es[1..]))
  }

  /** A document of the schema `{ "configuration": [ entry, ... ] }`. */
  predicate Conforms(json: string, d: Doc)
  {
    && d.root.kind == Object
    && d.header.kind == String && PrefixAt("configuration", json, d.header.start)
    && d.list.kind == Array && d.list.size == |d.entries|
    && EntriesConform(json, d.entries)
  }

  // ---------------------------------------------------------------------
  // Token lists located inside a larger list

  /** The list s occurs in toks from index `at` on. */
  predicate Located(toks: seq<Token>, at: nat, s: seq<Token>)
  {
    at + |s| <= |toks| && toks[at..at + |s|] == s
  }

  lemma LocatedIndex(toks: seq<Token>, at: nat, s: seq<Token>, k: nat)
    requires Located(toks, at, s) && k < |s|
    ensures toks[at + k] == s[k]
  {
    assert toks[at..at + |s|][k] == toks[at + k];
  }

  lemma LocatedSplit(toks: seq<Token>, at: nat, a: seq<Token>, b: seq<Token>)
    requires Located(toks, at, a + b)
    ensures Located(toks, at, a) && Located(toks, at + |a|, b)
  {
    assert toks[at..at + |a|] == (a + b)[..|a|];
    assert toks[at + |a|..at + |a| + |b|] == (a + b)[|a|..];
  }

  lemma LocatedJoin(toks: seq<Token>, at: nat, a: seq<Token>, b: seq<Token>)
    requires Located(toks, at, a) && Located(toks, at + |a|, b)
    ensures Located(toks, at, a + b)
  {
    assert toks[at..at + |a| + |b|] == toks[at..at + |a|] + toks[at + |a|..at + |a| + |b|];
  }

  // ---------------------------------------------------------------------
  // The validator accepts exactly the documents of the schema

  /** The found flags after a list of pairs: each pair sets its key's flag,
      whether or not it was set already. */
  function FoundAfter(json: string, found: seq<bool>, ps: seq<Pair>): (r: seq<bool>)
    requires |found| == |AcceptedOptions|
    ensures |r| == |found|
    decreases ps
  {
    if ps == [] then found
    else match KeyOf(json, ps[0].key.start)
      case None => FoundAfter(json, found, ps[1..])
      case Some(o) => FoundAfter(json, found[o := true], ps[1..])
  }

  /** A flag is set after the pairs exactly when it was set before or one of
      the pairs has that key. */
  lemma {:induction false} FoundAfterHasKey(json: string, found: seq<bool>, ps: seq<Pair>, o: nat)
    requires |found| == |AcceptedOptions| && o < |found|
    ensures FoundAfter(json, found, ps)[o] <==> found[o] || HasKey(json, ps, o)
    decreases ps
  {
    if ps != [] {
      var rest := ps[1..];
      match KeyOf(json, ps[0].key.start)
      case None =>
        FoundAfterHasKey(json, found, rest, o);
      case Some(q) =>
        FoundAfterHasKey(json, found[q := true], rest, o);
      if HasKey(json, ps, o) {
        var k :| 0 <= k < |ps| && KeyOf(json, ps[k].key.start) == Some(o);
        if k > 0 {
          assert rest[k - 1] == ps[k];
        }
      }
      if HasKey(json, rest, o) {
        var k :| 0 <= k < |rest| && KeyOf(json, rest[k].key.start) == Some(o);
        assert ps[k + 1] == rest[k];
      }
    }
  }

  /** A pair of the schema at token i+1 on passes the validator, which moves
      past it and sets its key's flag. */
  lemma ValidatePairOf(json: string, toks: seq<Token>, i: nat, p: Pair, found: seq<bool>)
    requires |found| == |AcceptedOptions|
    requires Located(toks, i + 1, PairTokens(p)) && PairConforms(json, p)
    ensures ValidatePair(json, toks, i, found)
         == Some((i + |PairTokens(p)|, found[KeyOf(json, p.key.start).value := true]))
  {
    var s := PairTokens(p);
    LocatedIndex(toks, i + 1, s, 0);
    LocatedIndex(toks, i + 1, s, 1);
    KeyClasses(json, p.key.start);
    if Branch(json, p.key.start) == ButtonsBranch {
      forall k | i + 2 < k <= i + 2 + |p.items| ensures toks[k].kind == String {
        LocatedIndex(toks, i + 1, s, k - i - 1);
        assert s[k - i - 1] == p.items[k - i - 3];
      }
      assert AllStrings(toks, i + 2, toks[i + 2].size);
    }
  }

  /** A list of pairs of the schema from token i+1 on passes the validator. */
  lemma {:induction false} ValidatePairsOf(json: string, toks: seq<Token>, i: nat, ps: seq<Pair>, found: seq<bool>)
    requires |found| == |AcceptedOptions|
    requires Located(toks, i + 1, PairsTokens(ps)) && PairsConform(json, ps)
    ensures ValidatePairs(json, toks, i, |ps|, found) == Some((i + |PairsTokens(ps)|, FoundAfter(json, found, ps)))
    decreases ps
  {
    if ps != [] {
      var p := ps[0];
      var flags := found[KeyOf(json, p.key.start).value := true];
      PairsSplit(toks, i + 1, ps);
      PairThenRest(json, toks, i, |ps|, p, found);
      FoundAfterStep(json, found, ps);
      ValidatePairsOf(json, toks, i + |PairTokens(p)|, ps[1..], flags);
    }
  }

  /** The tokens of the first pair, then those of the others. */
  lemma PairsSplit(toks: seq<Token>, at: nat, ps: seq<Pair>)
    requires ps != [] && Located(toks, at, PairsTokens(ps))
    ensures Located(toks, at, PairTokens(ps[0]))
    ensures Located(toks, at + |PairTokens(ps[0])|, PairsTokens(ps[1..]))
    ensures |PairsTokens(ps)| == |PairTokens(ps[0])| + |PairsTokens(ps[1..])|
  {
    LocatedSplit(toks, at, PairTokens(ps[0]), PairsTokens(ps[1..]));
  }

  /** The flags after pairs whose first has a key: that key's flag is set,
      then the others'. */
  lemma FoundAfterStep(json: string, found: seq<bool>, ps: seq<Pair>)
    requires |found| == |AcceptedOptions| && ps != [] && KeyOf(json, ps[0].key.start).Some?
    ensures FoundAfter(json, found, ps) == FoundAfter(json, found[KeyOf(json, ps[0].key.start).value := true], ps[1..])
  {
  }

  /** n > 0 pairs whose first is a pair of the schema: the others are
      validated after it, with its key's flag set. */
  lemma PairThenRest(json: string, toks: seq<Token>, i: nat, n: nat, p: Pair, found: seq<bool>)
    requires |found| == |AcceptedOptions| && n > 0
    requires Located(toks, i + 1, PairTokens(p)) && PairConforms(json, p)
    ensures ValidatePairs(json, toks, i, n, found)
         == ValidatePairs(json, toks, i + |PairTokens(p)|, n - 1, found[KeyOf(json, p.key.start).value := true])
  {
    ValidatePairOf(json, toks, i, p, found);
    assert ValidatePairs(json, toks, i, n, found) == NextValidPair(json, toks, i, n, found);
  }

  /** An entry of the schema from token i+1 on passes the validator, which
      moves past it. */
  lemma ValidateEntryOf(json: string, toks: seq<Token>, i: nat, e: EntryObject)
    requires Located(toks, i + 1, EntryTokens(e)) && EntryConforms(json, e)
    ensures ValidateEntry(json, toks, i) == Some(i + |EntryTokens(e)|)
  {
    LocatedSplit(toks, i + 1, [e.token], PairsTokens(e.pairs));
    LocatedIndex(toks, i + 1, EntryTokens(e), 0);
    ValidatePairsOf(json, toks, i + 1, e.pairs, NoneFound);
    var found := FoundAfter(json, NoneFound, e.pairs);
    forall o | 0 <= o < |AcceptedOptions| && AcceptedOptions[o].mandatory ensures found[o] {
      FoundAfterHasKey(json, NoneFound, e.pairs, o);
    }
  }

  /** A list of entries of the schema from token i+1 on passes the validator. */
  lemma {:induction false} ValidateEntriesOf(json: string, toks: seq<Token>, i: nat, es: seq<EntryObject>)
    requires Located(toks, i + 1, EntriesTokens(es))
    requires EntriesConform(json, es)
    ensures ValidateEntries(json, toks, i, |es|) == Some(i + |EntriesTokens(es)|)
    decreases es
  {
    if es != [] {
      var next := EntriesStep(json, toks, i, es);
      ValidateEntriesOf(json, toks, next, es[1..]);
    }
  }

  /** The first of the entries, of the schema, passes: the rest are
      validated after it. */
  lemma EntriesStep(json: string, toks: seq<Token>, i: nat, es: seq<EntryObject>) returns (next: nat)
    requires es != [] && Located(toks, i + 1, EntriesTokens(es))
    requires EntriesConform(json, es)
    ensures Located(toks, next + 1, EntriesTokens(es[1..])) && EntriesConform(json, es[1..])
    ensures i + |EntriesTokens(es)| == next + |EntriesTokens(es[1..])|
    ensures ValidateEntries(json, toks, i, |es|) == ValidateEntries(json, toks, next, |es[1..]|)
  {
    LocatedSplit(toks, i + 1, EntryTokens(es[0]), EntriesTokens(es[1..]));
    next := i + |EntryTokens(es[0])|;
    EntryThenRest(json, toks, i, |es|, es[0]);
  }

  /** n > 0 entries whose first is an entry of the schema: the others are
      validated after it. */
  lemma EntryThenRest(json: string, toks: seq<Token>, i: nat, n: nat, e: EntryObject)
    requires n > 0 && Located(toks, i + 1, EntryTokens(e)) && EntryConforms(json, e)
    ensures ValidateEntries(json, toks, i, n) == ValidateEntries(json, toks, i + |EntryTokens(e)|, n - 1)
  {
    ValidateEntryOf(json, toks, i, e);
    assert ValidateEntries(json, toks, i, n) == NextValidEntry(json, toks, i, n);
  }

  /** Completeness of the validator: the token list of every document of the
      schema is accepted. */
  lemma ValidateComplete(json: string, d: Doc)
    requires Conforms(json, d)
    ensures ValidateJson(json, DocTokens(d))
  {
    var toks := DocTokens(d);
    var body := EntriesTokens(d.entries);
    assert toks == [d.root, d.header, d.list] + (body + d.trailing);
    LocatedSplit(toks, 0, [d.root, d.header, d.list], body + d.trailing);
    LocatedSplit(toks, 3, body, d.trailing);
    ValidateEntriesOf(json, toks, 2, d.entries);
  }

  // ---------------------------------------------------------------------
  // Soundness: every token list the validator accepts is such a document

  /** The pair the validator accepts after token i: its key, its value and,
      for "buttons", the elements it checked. */
  lemma PairOfValid(json: string, toks: seq<Token>, i: nat, found: seq<bool>) returns (p: Pair)
    requires |found| == |AcceptedOptions| && ValidatePair(json, toks, i, found).Some?
    ensures Located(toks, i + 1, PairTokens(p)) && PairConforms(json, p)
    ensures ValidatePair(json, toks, i, found).value
         == (i + |PairTokens(p)|, found[KeyOf(json, p.key.start).value := true])
  {
    var key, value := toks[i + 1], toks[i + 2];
    KeyClasses(json, key.start);
    var count := if Branch(json, key.start) == ButtonsBranch then value.size else 0;
    var items := toks[i + 3..i + 3 + count];
    p := Pair(key, value, items);
    assert toks[i + 1..i + 3 + count] == [key, value] + items;
  }

  /** The n pairs the validator accepts after token i. */
  lemma {:induction false} PairsOfValid(json: string, toks: seq<Token>, i: nat, n: nat, found: seq<bool>) returns (ps: seq<Pair>)
    requires i < |toks| && |found| == |AcceptedOptions| && ValidatePairs(json, toks, i, n, found).Some?
    ensures |ps| == n && Located(toks, i + 1, PairsTokens(ps)) && PairsConform(json, ps)
    ensures ValidatePairs(json, toks, i, n, found).value == (i + |PairsTokens(ps)|, FoundAfter(json, found, ps))
    decreases n
  {
    if n == 0 {
      ps := [];
      assert toks[i + 1..i + 1] == [];
    } else {
      assert ValidatePairs(json, toks, i, n, found) == NextValidPair(json, toks, i, n, found);
      var p := PairOfValid(json, toks, i, found);
      var step := ValidatePair(json, toks, i, found).value;
      var rest := PairsOfValid(json, toks, step.0, n - 1, step.1);
      ps := [p] + rest;
      assert ps[0] == p && ps[1..] == rest;
      LocatedJoin(toks, i + 1, PairTokens(p), PairsTokens(rest));
      FoundAfterStep(json, found, ps);
    }
  }

  /** The entry object the validator accepts after token i. */
  lemma EntryOfValid(json: string, toks: seq<Token>, i: nat) returns (e: EntryObject)
    requires ValidateEntry(json, toks, i).Some?
    ensures Located(toks, i + 1, EntryTokens(e)) && EntryConforms(json, e)
    ensures ValidateEntry(json, toks, i).value == i + |EntryTokens(e)|
  {
    var o := i + 1;
    var ps := PairsOfValid(json, toks, o, toks[o].size, NoneFound);
    e := EntryObject(toks[o], ps);
    assert toks[o..o + 1] == [toks[o]];
    LocatedJoin(toks, o, [toks[o]], PairsTokens(ps));
    forall m | 0 <= m < |AcceptedOptions| && AcceptedOptions[m].mandatory ensures HasKey(json, ps, m) {
      FoundAfterHasKey(json, NoneFound, ps, m);
    }
  }

  /** The n entry objects the validator accepts after token i. */
  lemma {:induction false} EntriesOfValid(json: string, toks: seq<Token>, i: nat, n: nat) returns (es: seq<EntryObject>)
    requires i < |toks| && ValidateEntries(json, toks, i, n).Some?
    ensures |es| == n && Located(toks, i + 1, EntriesTokens(es)) && EntriesConform(json, es)
    ensures ValidateEntries(json, toks, i, n).value == i + |EntriesTokens(es)|
    decreases n
  {
    if n == 0 {
      es := [];
      assert toks[i + 1..i + 1] == [];
    } else {
      assert ValidateEntries(json, toks, i, n) == NextValidEntry(json, toks, i, n);
      var e := EntryOfValid(json, toks, i);
      var rest := EntriesOfValid(json, toks, ValidateEntry(json, toks, i).value, n - 1);
      es := [e] + rest;
      assert es[0] == e && es[1..] == rest;
      LocatedJoin(toks, i + 1, EntryTokens(e), EntriesTokens(rest));
    }
  }

  /** Soundness of the validator: a token list it accepts is the token list
      of a document of the schema (followed by tokens it does not look at). */
  lemma ValidateSound(json: string, toks: seq<Token>) returns (d: Doc)
    requires ValidateJson(json, toks)
    ensures Conforms(json, d) && DocTokens(d) == toks
  {
    var es := EntriesOfValid(json, toks, 2, toks[2].size);
    var last := ValidateEntries(json, toks, 2, toks[2].size).value;
    d := Doc(toks[0], toks[1], toks[2], es, toks[last + 1..]);
    assert toks == toks[..3] + toks[3..last + 1] + toks[last + 1..];
  }

  /** The validator accepts exactly the token lists of the documents of the
      schema. */
  lemma ValidateExactly(json: string, toks: seq<Token>)
    ensures ValidateJson(json, toks) <==> exists d :: Conforms(json, d) && DocTokens(d) == toks
  {
    if ValidateJson(json, toks) {
      var d := ValidateSound(json, toks);
    }
    if exists d :: Conforms(json, d) && DocTokens(d) == toks {
      var d :| Conforms(json, d) && DocTokens(d) == toks;
      ValidateComplete(json, d);
    }
  }
}
