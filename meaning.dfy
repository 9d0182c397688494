/** What the entries of a document of the schema are, read off the tree, and
    the extractor proved to compute them from the document's token list.

    The reference reads each entry object's pairs in order: a "location"
    pair sets the path (so of two, the later wins), an "offset" pair sets the
    offset (which starts at 0) and must be an integer constant spanning its
    whole token, a "buttons" pair ORs the flags of its elements into the mask
    (which starts at 0) and fails on an element that names no button, and a
    "name" pair changes nothing. */
module Meaning {
  import opened Wrappers
  import opened JsonTokens
  import opened Schema
  import opened CNumbers
  import opened ConfigStore
  import opened Extractor
  import opened Validator
  import opened Document

  /** `acc` OR-ed with the flags the elements denote, in order; none when an
      element names no button. */
  function Mask(json: string, items: seq<Token>, acc: bv32): Option<bv32>
    decreases items
  {
    if items == [] then Some(acc)
    else match DecodeButton(json, items[0].start)
      case None => None
      case Some(b) => Mask(json, items[1..], AddFlag(acc, b))
  }

  /** The value of the pair lies inside the text. */
  predicate InText(json: string, p: Pair)
  {
    p.value.start <= p.value.end <= |json|
  }

  /** What one pair does to the fields read so far. */
  function PairEffect(json: string, p: Pair, f: Fields): Option<Fields>
    requires InText(json, p)
  {
    var o := KeyOf(json, p.key.start);
    if o == Some(LocationKey) then Some(f.(location := Some(TokenText(json, p.value))))
    else if o == Some(ButtonsKey) then
      match Mask(json, p.items, f.buttons)
      case None => None
      case Some(m) => Some(f.(buttons := m))
    else if o == Some(OffsetKey) then
      match OffsetValue(json, p.value)
      case None => None
      case Some(offset) => Some(f.(offset := offset))
    else Some(f)
  }

  /** The pairs, in order. `PairsEffect`, `PairInText` and `EffectThen` are
      one recursion over the pairs written in three steps, so that one
      unfolding of it shows a single step. */
  function PairsEffect(json: string, ps: seq<Pair>, f: Fields): Option<Fields>
    decreases ps, 2
  {
    if ps == [] then Some(f) else PairInText(json, ps, f)
  }

  /** A pair whose value lies outside the text stands for nothing. */
  function PairInText(json: string, ps: seq<Pair>, f: Fields): Option<Fields>
    requires ps != []
    decreases ps, 1
  {
    if InText(json, ps[0]) then EffectThen(json, ps, f) else None
  }

  /** The first of the pairs, then the others. */
  function EffectThen(json: string, ps: seq<Pair>, f: Fields): Option<Fields>
    requires ps != [] && InText(json, ps[0])
    decreases ps, 0
  {
    match PairEffect(json, ps[0], f)
    case None => None
    case Some(g) => PairsEffect(json, ps[1..], g)
  }

  /** The entry an entry object stands for; none when one of its pairs fails. */
  function EntryMeaning(json: string, e: EntryObject): Option<Entry>
  {
    match PairsEffect(json, e.pairs, NoFields)
    case None => None
    case Some(f) => Some(Entry(f.location, f.offset, f.buttons))
  }

  /** The entries a list of entry objects stands for, in order; none when one
      of them fails. */
  function Meaning(json: string, es: seq<EntryObject>): Option<seq<Entry>>
    decreases es
  {
    if es == [] then Some([])
    else match EntryMeaning(json, es[0])
      case None => None
      case Some(e) =>
        match Meaning(json, es[1..])
        case None => None
        case Some(rest) => Some([e] + rest)
  }

  /** No "buttons" array of the pairs is empty. */
  predicate NoEmptyButtons(json: string, ps: seq<Pair>)
  {
    forall k :: 0 <= k < |ps| && KeyOf(json, ps[k].key.start) == Some(ButtonsKey) ==> ps[k].items != []
  }

  predicate NoEmptyButtonsIn(json: string, es: seq<EntryObject>)
  {
    forall k :: 0 <= k < |es| ==> NoEmptyButtons(json, es[k].pairs)
  }

  // ---------------------------------------------------------------------
  // Properties of the reference

  /** Every bit of `flags` is set in `mask`. */
  predicate Covers(mask: bv32, flags: bv32)
  {
    AddFlag(mask, flags) == mask
  }

  /** A mask that covers `a | b` covers both. */
  lemma CoversBoth(a: bv32, b: bv32, r: bv32)
    requires Covers(r, AddFlag(a, b))
    ensures Covers(r, a) && Covers(r, b)
  {
  }

  lemma CoversTransitive(a: bv32, b: bv32, c: bv32)
    requires Covers(b, a) && Covers(c, b)
    ensures Covers(c, a)
  {
  }

  /** The mask fails exactly when some element names no button; otherwise
      it holds every bit of `acc` and every element's flag. */
  lemma {:induction false} MaskSpec(json: string, items: seq<Token>, acc: bv32)
    ensures Mask(json, items, acc).None? <==> exists k :: 0 <= k < |items| && DecodeButton(json, items[k].start).None?
    ensures Mask(json, items, acc).Some? ==> Covers(Mask(json, items, acc).value, acc)
    ensures Mask(json, items, acc).Some? ==>
              forall k :: 0 <= k < |items| ==> Covers(Mask(json, items, acc).value, DecodeButton(json, items[k].start).value)
    decreases items
  {
    if items != [] {
      var rest := items[1..];
      assert forall k :: 1 <= k < |items| ==> items[k] == rest[k - 1];
      match DecodeButton(json, items[0].start)
      case None =>
      case Some(b) =>
        MaskSpec(json, rest, AddFlag(acc, b));
        if Mask(json, rest, AddFlag(acc, b)).Some? {
          CoversBoth(acc, b, Mask(json, rest, AddFlag(acc, b)).value);
        }
        if exists k :: 0 <= k < |items| && DecodeButton(json, items[k].start).None? {
          var k :| 0 <= k < |items| && DecodeButton(json, items[k].start).None?;
          assert DecodeButton(json, rest[k - 1].start).None?;
        }
    }
  }

  /** The elements of `a + b` are those of `a`, then those of `b`. */
  lemma {:induction false} MaskConcat(json: string, a: seq<Token>, b: seq<Token>, acc: bv32)
    ensures Mask(json, a + b, acc) == (match Mask(json, a, acc) case None => None case Some(m) => Mask(json, b, m))
    decreases a
  {
    if a != [] {
      assert (a + b)[0] == a[0] && (a + b)[1..] == a[1..] + b;
      match DecodeButton(json, a[0].start)
      case None =>
      case Some(f) => MaskConcat(json, a[1..], b, AddFlag(acc, f));
    } else {
      assert a + b == b;
    }
  }

  /** The step of `PairsEffect` over a non-empty list: the first pair's
      effect `g` (none when its value lies outside the text), then the rest. */
  lemma EffectStep(json: string, ps: seq<Pair>, f: Fields) returns (g: Option<Fields>)
    requires ps != []
    ensures g == (if InText(json, ps[0]) then PairEffect(json, ps[0], f) else None)
    ensures PairsEffect(json, ps, f) == (match g case None => None case Some(h) => PairsEffect(json, ps[1..], h))
  {
    g := if InText(json, ps[0]) then PairEffect(json, ps[0], f) else None;
    assert PairsEffect(json, ps, f) == PairInText(json, ps, f);
  }

  /** A key is among the pairs exactly when it is the first one's or among
      the others. */
  lemma HasKeyCons(json: string, ps: seq<Pair>, o: nat)
    requires ps != []
    ensures HasKey(json, ps, o) <==> KeyOf(json, ps[0].key.start) == Some(o) || HasKey(json, ps[1..], o)
  {
    if HasKey(json, ps, o) && KeyOf(json, ps[0].key.start) != Some(o) {
      var k :| 0 <= k < |ps| && KeyOf(json, ps[k].key.start) == Some(o);
      assert ps[1..][k - 1] == ps[k];
    }
    if HasKey(json, ps[1..], o) {
      var k :| 0 <= k < |ps[1..]| && KeyOf(json, ps[1..][k].key.start) == Some(o);
      assert ps[k + 1] == ps[1..][k];
    }
  }

  /** Reading the pairs of `ps + qs` reads `qs` after `ps`. */
  lemma {:induction false} PairsEffectConcat(json: string, ps: seq<Pair>, qs: seq<Pair>, f: Fields)
    ensures PairsEffect(json, ps + qs, f)
         == (match PairsEffect(json, ps, f) case None => None case Some(g) => PairsEffect(json, qs, g))
    decreases ps
  {
    if ps == [] {
      assert ps + qs == qs;
    } else {
      assert (ps + qs)[0] == ps[0] && (ps + qs)[1..] == ps[1..] + qs;
      var g := EffectStep(json, ps, f);
      var g' := EffectStep(json, ps + qs, f);
      assert g' == g;
      if g.Some? {
        PairsEffectConcat(json, ps[1..], qs, g.value);
      }
    }
  }

  /** Of several "location" pairs the last one wins: a location pair read
      after any pairs sets the path to its own text. */
  lemma LaterLocationWins(json: string, ps: seq<Pair>, q: Pair, f: Fields)
    requires InText(json, q) && KeyOf(json, q.key.start) == Some(LocationKey)
    requires PairsEffect(json, ps, f).Some?
    ensures PairsEffect(json, ps + [q], f)
         == Some(PairsEffect(json, ps, f).value.(location := Some(TokenText(json, q.value))))
  {
    PairsEffectConcat(json, ps, [q], f);
    var g := EffectStep(json, [q], PairsEffect(json, ps, f).value);
    assert [q][1..] == [];
  }

  /** Pairs without an "offset" key keep the offset, so an entry without one
      has offset 0. */
  lemma {:induction false} OffsetKept(json: string, ps: seq<Pair>, f: Fields)
    requires !HasKey(json, ps, OffsetKey)
    ensures PairsEffect(json, ps, f).Some? ==> PairsEffect(json, ps, f).value.offset == f.offset
    decreases ps
  {
    if ps != [] {
      HasKeyCons(json, ps, OffsetKey);
      var g := EffectStep(json, ps, f);
      if g.Some? {
        OffsetKept(json, ps[1..], g.value);
      }
    }
  }

  /** One pair keeps every flag of the mask. */
  lemma PairButtonsGrow(json: string, p: Pair, f: Fields)
    requires InText(json, p)
    ensures PairEffect(json, p, f).Some? ==> Covers(PairEffect(json, p, f).value.buttons, f.buttons)
  {
    if KeyOf(json, p.key.start) == Some(ButtonsKey) {
      MaskSpec(json, p.items, f.buttons);
    } else {
      assert Covers(f.buttons, f.buttons);
    }
  }

  /** Reading pairs only adds flags to the mask. */
  lemma {:induction false} ButtonsGrow(json: string, ps: seq<Pair>, f: Fields)
    ensures PairsEffect(json, ps, f).Some? ==> Covers(PairsEffect(json, ps, f).value.buttons, f.buttons)
    decreases ps
  {
    if ps == [] {
      assert Covers(f.buttons, f.buttons);
    } else {
      var g := EffectStep(json, ps, f);
      if g.Some? {
        PairButtonsGrow(json, ps[0], f);
        ButtonsGrow(json, ps[1..], g.value);
        if PairsEffect(json, ps[1..], g.value).Some? {
          CoversTransitive(f.buttons, g.value.buttons, PairsEffect(json, ps[1..], g.value).value.buttons);
        }
      }
    }
  }

  /** A location read before (or among) the pairs is still there after them. */
  lemma {:induction false} LocationKept(json: string, ps: seq<Pair>, f: Fields)
    requires f.location.Some? || HasKey(json, ps, LocationKey)
    ensures PairsEffect(json, ps, f).Some? ==> PairsEffect(json, ps, f).value.location.Some?
    decreases ps
  {
    if ps != [] {
      HasKeyCons(json, ps, LocationKey);
      var g := EffectStep(json, ps, f);
      if g.Some? {
        LocationKept(json, ps[1..], g.value);
      }
    }
  }

  /** Every entry of the schema that stands for an entry has a path. */
  lemma EntryHasPath(json: string, e: EntryObject)
    requires EntryConforms(json, e)
    ensures EntryMeaning(json, e).Some? ==> EntryMeaning(json, e).value.payload.Some?
  {
    assert AcceptedOptions[LocationKey].mandatory;
    LocationKept(json, e.pairs, NoFields);
  }

  // ---------------------------------------------------------------------
  // The extractor computes the reference

  /** The extractor's outcome for a pair whose effect is `o`, the next pair
      starting at `next`. */
  function AtNext(o: Option<Fields>, next: nat): Outcome<(nat, Fields)>
  {
    match o
    case None => Fail
    case Some(g) => Ok((next, g))
  }

  /** The element loop over located elements computes their mask. */
  lemma {:induction false} ParseButtonsOf(json: string, toks: seq<Token>, first: nat, items: seq<Token>, acc: bv32)
    requires Within(json, toks) && Located(toks, first, items)
    ensures ParseButtons(json, toks, first, |items|, acc)
         == (match Mask(json, items, acc) case None => Fail case Some(m) => Ok(m))
    decreases items
  {
    if items != [] {
      LocatedIndex(toks, first, items, 0);
      LocatedSplit(toks, first, [items[0]], items[1..]);
      assert [items[0]] + items[1..] == items;
      match DecodeButton(json, items[0].start)
      case None =>
      case Some(b) => ParseButtonsOf(json, toks, first + 1, items[1..], AddFlag(acc, b));
    }
  }

  /** A pair of the schema at token i: the extractor does what the reference
      says and moves past all of the pair's tokens, unless, as written, it is
      an empty "buttons" array. */
  lemma ParsePairOf(json: string, toks: seq<Token>, i: nat, p: Pair, f: Fields, rule: CursorRule)
    requires Within(json, toks) && Located(toks, i, PairTokens(p)) && PairConforms(json, p)
    requires rule == Corrected || p.items != [] || KeyOf(json, p.key.start) != Some(ButtonsKey)
    ensures InText(json, p)
    ensures ParsePair(json, toks, i, f, rule) == AtNext(PairEffect(json, p, f), i + |PairTokens(p)|)
  {
    if KeyOf(json, p.key.start) == Some(ButtonsKey) {
      ParseButtonsPairOf(json, toks, i, p, f, rule);
    } else {
      ParseScalarPairOf(json, toks, i, p, f, rule);
    }
  }

  /** A "buttons" pair: the element loop's mask, and the cursor past the
      elements unless, as written, there are none. */
  lemma ParseButtonsPairOf(json: string, toks: seq<Token>, i: nat, p: Pair, f: Fields, rule: CursorRule)
    requires Within(json, toks) && Located(toks, i, PairTokens(p)) && PairConforms(json, p)
    requires KeyOf(json, p.key.start) == Some(ButtonsKey)
    requires rule == Corrected || p.items != []
    ensures InText(json, p)
    ensures ParsePair(json, toks, i, f, rule) == AtNext(PairEffect(json, p, f), i + |PairTokens(p)|)
  {
    var s := PairTokens(p);
    LocatedIndex(toks, i, s, 0);
    LocatedIndex(toks, i, s, 1);
    KeyClasses(json, p.key.start);
    LocatedSplit(toks, i, [p.key, p.value], p.items);
    ParseButtonsOf(json, toks, i + 2, p.items, f.buttons);
  }

  /** A "name", "location" or "offset" pair: two tokens. */
  lemma ParseScalarPairOf(json: string, toks: seq<Token>, i: nat, p: Pair, f: Fields, rule: CursorRule)
    requires Within(json, toks) && Located(toks, i, PairTokens(p)) && PairConforms(json, p)
    requires KeyOf(json, p.key.start) != Some(ButtonsKey)
    ensures InText(json, p)
    ensures ParsePair(json, toks, i, f, rule) == AtNext(PairEffect(json, p, f), i + |PairTokens(p)|)
  {
    var s := PairTokens(p);
    LocatedIndex(toks, i, s, 0);
    LocatedIndex(toks, i, s, 1);
    KeyClasses(json, p.key.start);
    assert |s| == 2;
  }

  /** The first of the pairs, of the schema: both the extractor and the
      reference go on with the others from what the first one leaves, `g`. */
  lemma ParsePairsStep(json: string, toks: seq<Token>, i: nat, ps: seq<Pair>, f: Fields, rule: CursorRule)
    returns (g: Option<Fields>)
    requires Within(json, toks) && ps != [] && Located(toks, i, PairsTokens(ps)) && PairsConform(json, ps)
    requires rule == Corrected || NoEmptyButtons(json, ps)
    ensures Located(toks, i + |PairTokens(ps[0])|, PairsTokens(ps[1..])) && PairsConform(json, ps[1..])
    ensures rule == Corrected || NoEmptyButtons(json, ps[1..])
    ensures |PairsTokens(ps)| == |PairTokens(ps[0])| + |PairsTokens(ps[1..])|
    ensures ParsePairs(json, toks, i, |ps|, f, rule)
         == (match g case None => Fail case Some(h) => ParsePairs(json, toks, i + |PairTokens(ps[0])|, |ps| - 1, h, rule))
    ensures PairsEffect(json, ps, f) == (match g case None => None case Some(h) => PairsEffect(json, ps[1..], h))
  {
    var p, rest := ps[0], ps[1..];
    PairsSplit(toks, i, ps);
    if rule == AsWritten {
      NoEmptyButtonsTail(json, ps);
    }
    assert PairConforms(json, p);
    ParsePairsHead(json, toks, i, |ps|, p, f, rule);
    g := PairEffect(json, p, f);
    var h := EffectStep(json, ps, f);
  }

  /** The first of n > 0 pairs, a pair `p` of the schema: the extractor goes
      on with the others from what `p` leaves. */
  lemma ParsePairsHead(json: string, toks: seq<Token>, i: nat, n: nat, p: Pair, f: Fields, rule: CursorRule)
    requires Within(json, toks) && n > 0 && Located(toks, i, PairTokens(p)) && PairConforms(json, p)
    requires rule == Corrected || p.items != [] || KeyOf(json, p.key.start) != Some(ButtonsKey)
    ensures InText(json, p)
    ensures ParsePairs(json, toks, i, n, f, rule)
         == (match PairEffect(json, p, f)
             case None => Fail
             case Some(h) => ParsePairs(json, toks, i + |PairTokens(p)|, n - 1, h, rule))
  {
    ParsePairOf(json, toks, i, p, f, rule);
    var g := PairEffect(json, p, f);
    LocatedIndex(toks, i, PairTokens(p), 0);
    assert ParsePairs(json, toks, i, n, f, rule) == PairAt(json, toks, i, n, f, rule)
        == NextPair(json, toks, i, n, f, rule);
    if g.Some? {
      assert ParsePair(json, toks, i, f, rule) == Ok((i + |PairTokens(p)|, g.value));
    } else {
      assert ParsePair(json, toks, i, f, rule) == Fail;
    }
  }

  /** Without an empty "buttons" array, the first pair has none and neither
      have the others. */
  lemma NoEmptyButtonsTail(json: string, ps: seq<Pair>)
    requires ps != [] && NoEmptyButtons(json, ps)
    ensures KeyOf(json, ps[0].key.start) == Some(ButtonsKey) ==> ps[0].items != []
    ensures NoEmptyButtons(json, ps[1..])
  {
    var rest := ps[1..];
    forall k | 0 <= k < |rest| && KeyOf(json, rest[k].key.start) == Some(ButtonsKey) ensures rest[k].items != [] {
      assert rest[k] == ps[k + 1];
    }
  }

  /** The pairs of the schema from token i on. */
  lemma {:induction false} ParsePairsOf(json: string, toks: seq<Token>, i: nat, ps: seq<Pair>, f: Fields, rule: CursorRule)
    requires Within(json, toks) && Located(toks, i, PairsTokens(ps)) && PairsConform(json, ps)
    requires rule == Corrected || NoEmptyButtons(json, ps)
    ensures ParsePairs(json, toks, i, |ps|, f, rule) == AtNext(PairsEffect(json, ps, f), i + |PairsTokens(ps)|)
    decreases ps
  {
    if ps != [] {
      var g := ParsePairsStep(json, toks, i, ps, f, rule);
      ParsePairsOf(json, toks, i + |PairTokens(ps[0])|, ps[1..], if g.Some? then g.value else f, rule);
    }
  }

  /** An entry of the schema at token i: the entry it stands for, and the
      cursor after all of its tokens. */
  lemma ParseEntryOf(json: string, toks: seq<Token>, i: nat, e: EntryObject, rule: CursorRule)
    requires Within(json, toks) && Located(toks, i, EntryTokens(e)) && EntryConforms(json, e)
    requires rule == Corrected || NoEmptyButtons(json, e.pairs)
    ensures ParseEntry(json, toks, i, rule)
         == (match EntryMeaning(json, e) case None => Fail case Some(x) => Ok((i + |EntryTokens(e)|, x)))
  {
    LocatedSplit(toks, i, [e.token], PairsTokens(e.pairs));
    LocatedIndex(toks, i, EntryTokens(e), 0);
    ParsePairsOf(json, toks, i + 1, e.pairs, NoFields, rule);
    EntryHasPath(json, e);
  }

  /** The first entry of a located list of the schema, and the others after
      it. */
  lemma EntriesSplit(json: string, toks: seq<Token>, i: nat, es: seq<EntryObject>)
    requires es != [] && Located(toks, i, EntriesTokens(es)) && EntriesConform(json, es)
    ensures Located(toks, i, EntryTokens(es[0])) && EntryConforms(json, es[0])
    ensures Located(toks, i + |EntryTokens(es[0])|, EntriesTokens(es[1..])) && EntriesConform(json, es[1..])
  {
    LocatedSplit(toks, i, EntryTokens(es[0]), EntriesTokens(es[1..]));
  }

  /** Without an empty "buttons" array, the first entry has none and neither
      have the others. */
  lemma NoEmptyButtonsInTail(json: string, es: seq<EntryObject>)
    requires es != [] && NoEmptyButtonsIn(json, es)
    ensures NoEmptyButtons(json, es[0].pairs) && NoEmptyButtonsIn(json, es[1..])
  {
    forall k | 0 <= k < |es[1..]| ensures NoEmptyButtons(json, es[1..][k].pairs) {
      assert es[1..][k] == es[k + 1];
    }
  }

  /** The first of n > 0 entries, an entry `e` of the schema: the extractor
      goes on with the others after the entry `e` stands for. */
  lemma ParseEntriesHead(json: string, toks: seq<Token>, i: nat, n: nat, e: EntryObject, done: seq<Entry>, rule: CursorRule)
    requires Within(json, toks) && n > 0 && Located(toks, i, EntryTokens(e)) && EntryConforms(json, e)
    requires rule == Corrected || NoEmptyButtons(json, e.pairs)
    ensures ParseEntries(json, toks, i, n, done, rule)
         == (match EntryMeaning(json, e)
             case None => Fail
             case Some(x) => ParseEntries(json, toks, i + |EntryTokens(e)|, n - 1, done + [x], rule))
  {
    ParseEntryOf(json, toks, i, e, rule);
    assert ParseEntries(json, toks, i, n, done, rule) == NextEntry(json, toks, i, n, done, rule);
  }

  lemma ConcatAssoc(a: seq<Entry>, b: seq<Entry>, c: seq<Entry>)
    ensures a + b + c == a + (b + c)
  {
  }

  /** The entries of the schema from token i on, appended to `done`. */
  lemma {:induction false} ParseEntriesOf(json: string, toks: seq<Token>, i: nat, es: seq<EntryObject>, done: seq<Entry>, rule: CursorRule)
    requires Within(json, toks) && Located(toks, i, EntriesTokens(es)) && EntriesConform(json, es)
    requires rule == Corrected || NoEmptyButtonsIn(json, es)
    ensures ParseEntries(json, toks, i, |es|, done, rule)
         == (match Meaning(json, es) case None => Fail case Some(r) => Ok(done + r))
    decreases es
  {
    if es != [] {
      var e := es[0];
      EntriesSplit(json, toks, i, es);
      if rule == AsWritten {
        NoEmptyButtonsInTail(json, es);
      }
      ParseEntriesHead(json, toks, i, |es|, e, done, rule);
      match EntryMeaning(json, e)
      case None =>
        assert Meaning(json, es) == None;
      case Some(x) =>
        ParseEntriesOf(json, toks, i + |EntryTokens(e)|, es[1..], done + [x], rule);
        match Meaning(json, es[1..])
        case None =>
          assert Meaning(json, es) == None;
        case Some(r) =>
          ConcatAssoc(done, [x], r);
          assert Meaning(json, es) == Some([x] + r);
    } else {
      assert done + [] == done;
    }
  }

  /** The extractor on the token list of a document of the schema computes
      the document's entries, or fails where one of them has a malformed
      button or offset; it never reads out of bounds. As written this holds
      when no "buttons" array is empty; with the corrected cursor it holds
      for every document. */
  lemma ExtractRoundTrip(json: string, d: Doc, rule: CursorRule)
    requires Within(json, DocTokens(d)) && Conforms(json, d)
    requires rule == Corrected || NoEmptyButtonsIn(json, d.entries)
    ensures Extract(json, DocTokens(d), rule)
         == (match Meaning(json, d.entries) case None => Fail case Some(r) => Ok(r))
  {
    var toks := DocTokens(d);
    var body := EntriesTokens(d.entries);
    assert toks == [d.root, d.header, d.list] + (body + d.trailing);
    LocatedSplit(toks, 0, [d.root, d.header, d.list], body + d.trailing);
    LocatedSplit(toks, 3, body, d.trailing);
    LocatedIndex(toks, 0, [d.root, d.header, d.list], 2);
    ParseEntriesOf(json, toks, 3, d.entries, [], rule);
    if Meaning(json, d.entries).Some? {
      assert [] + Meaning(json, d.entries).value == Meaning(json, d.entries).value;
    }
  }

  /** What `a9l_config_read_json` extracts from a token list the validator
      accepted: the entries of the document the list is the token list of.
      With the corrected cursor this is never undefined; as written it is
      the same whenever no "buttons" array of the document is empty. */
  lemma AcceptedListReads(json: string, toks: seq<Token>) returns (d: Doc)
    requires Within(json, toks) && ValidateJson(json, toks)
    ensures Conforms(json, d) && DocTokens(d) == toks
    ensures Extract(json, toks, Corrected) == (match Meaning(json, d.entries) case None => Fail case Some(r) => Ok(r))
    ensures !Extract(json, toks, Corrected).Undefined?
    ensures NoEmptyButtonsIn(json, d.entries) ==> Extract(json, toks, AsWritten) == Extract(json, toks, Corrected)
  {
    d := ValidateSound(json, toks);
    ExtractRoundTrip(json, d, Corrected);
    if NoEmptyButtonsIn(json, d.entries) {
      ExtractRoundTrip(json, d, AsWritten);
    }
  }
}
