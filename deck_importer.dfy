/** `importPiltoverArchiveDeck` and `expandDeckSection` (src/game/deckImporter.ts):
    the cascade of decoding strategies over a trimmed deck code, and the
    expansion of a section into one card id per copy. */
module DeckImporter {
  import opened Wrappers
  import opened Text
  import opened Json
  import opened DeckEntries
  import opened DeckSections
  import opened DeckJson
  import opened LineSyntax
  import opened DeckLines
  import Base64

  /** What the line strategy makes of the trimmed code: its deck, or the final throw. */
  function LinesOrUnrecognized(trimmed: string): (r: Result<ImportedDeck, ImportError>)
    ensures r.Ok? <==> LinesDeck(trimmed).Some?
    ensures r.Err? ==> r.error == UnrecognizedFormat
  {
    match LinesDeck(trimmed)
    case Some(d) => Ok(d)
    case None => Err(UnrecognizedFormat)
  }

  /** `importPiltoverArchiveDeck(deckCode)` as written: JSON, then base64 JSON,
      then the line format. A code `atob` rejects throws out of the second
      strategy, so the line format is never tried on it. */
  function ImportDeck(codecs: Codecs, deckCode: string): (r: Result<ImportedDeck, ImportError>)
    ensures r == Err(EmptyDeckCode) <==> AllSpace(deckCode)
    ensures var t := Trim(deckCode); var json := ParseFromJson(codecs, t);
      t != [] && json.Err? ==> r == Err(json.error)
    ensures var t := Trim(deckCode); var json := ParseFromJson(codecs, t);
      t != [] && json.Ok? && json.value.Some? ==> r == Ok(json.value.value)
    ensures var t := Trim(deckCode); var encoded := ParseFromBase64Json(codecs, t);
      t != [] && ParseFromJson(codecs, t) == Ok(None) && encoded.Err? ==> r == Err(encoded.error)
    ensures var t := Trim(deckCode); var encoded := ParseFromBase64Json(codecs, t);
      t != [] && ParseFromJson(codecs, t) == Ok(None) && encoded.Ok? && encoded.value.Some? ==> r == Ok(encoded.value.value)
    ensures var t := Trim(deckCode);
      t != [] && ParseFromJson(codecs, t) == Ok(None) && ParseFromBase64Json(codecs, t) == Ok(None) ==> r == LinesOrUnrecognized(t)
    ensures var t := Trim(deckCode);
      r == Err(UnrecognizedFormat) <==>
        t != [] && ParseFromJson(codecs, t) == Ok(None) && ParseFromBase64Json(codecs, t) == Ok(None) && LinesDeck(t).None?
  {
    TrimEmpty(deckCode);
    var trimmed := Trim(deckCode);
    if trimmed == [] then Err(EmptyDeckCode)
    else
      var json :- ParseFromJson(codecs, trimmed);
      if json.Some? then Ok(json.value)
      else
        var encoded :- ParseFromBase64Json(codecs, trimmed);
        if encoded.Some? then Ok(encoded.value)
        else LinesOrUnrecognized(trimmed)
  }

  /** The second strategy as intended: a text `atob` rejects is no match. */
  function ParseFromBase64JsonTolerant(codecs: Codecs, text: string): (r: Result<Option<ImportedDeck>, ImportError>)
    ensures DecodeBase64(codecs, text).None? ==> r == Ok(None)
    ensures r.Err? ==> r.error == CardIdNotString
  {
    match DecodeBase64(codecs, text)
    case None => Ok(None)
    case Some(decoded) => ParseFromJson(codecs, decoded)
  }

  /** The cascade with the second strategy absorbing decoding failures. */
  function ImportDeckTolerant(codecs: Codecs, deckCode: string): (r: Result<ImportedDeck, ImportError>)
    ensures r == Err(EmptyDeckCode) <==> AllSpace(deckCode)
    ensures var t := Trim(deckCode); var json := ParseFromJson(codecs, t);
      t != [] && json.Err? ==> r == Err(json.error)
    ensures var t := Trim(deckCode); var json := ParseFromJson(codecs, t);
      t != [] && json.Ok? && json.value.Some? ==> r == Ok(json.value.value)
    ensures var t := Trim(deckCode); var encoded := ParseFromBase64JsonTolerant(codecs, t);
      t != [] && ParseFromJson(codecs, t) == Ok(None) && encoded.Err? ==> r == Err(encoded.error)
    ensures var t := Trim(deckCode); var encoded := ParseFromBase64JsonTolerant(codecs, t);
      t != [] && ParseFromJson(codecs, t) == Ok(None) && encoded.Ok? && encoded.value.Some? ==> r == Ok(encoded.value.value)
    ensures var t := Trim(deckCode);
      t != [] && ParseFromJson(codecs, t) == Ok(None) && ParseFromBase64JsonTolerant(codecs, t) == Ok(None) ==> r == LinesOrUnrecognized(t)
    ensures var t := Trim(deckCode);
      r == Err(UnrecognizedFormat) <==>
        t != [] && ParseFromJson(codecs, t) == Ok(None) && ParseFromBase64JsonTolerant(codecs, t) == Ok(None) && LinesDeck(t).None?
    ensures r != Err(InvalidBase64)
  {
    TrimEmpty(deckCode);
    var trimmed := Trim(deckCode);
    if trimmed == [] then Err(EmptyDeckCode)
    else
      var json :- ParseFromJson(codecs, trimmed);
      if json.Some? then Ok(json.value)
      else
        var encoded :- ParseFromBase64JsonTolerant(codecs, trimmed);
        if encoded.Some? then Ok(encoded.value)
        else LinesOrUnrecognized(trimmed)
  }

  // ---- The order of the strategies ----

  /** A code that reads as a JSON deck is that deck, whatever the other strategies would say. */
  lemma JsonFirst(codecs: Codecs, deckCode: string, d: ImportedDeck)
    requires Trim(deckCode) != []
    requires ParseFromJson(codecs, Trim(deckCode)) == Ok(Some(d))
    ensures ImportDeck(codecs, deckCode) == Ok(d)
    ensures ImportDeckTolerant(codecs, deckCode) == Ok(d)
  {
  }

  /** The corrected cascade differs from the code as written only where the
      code as written throws `InvalidBase64`, and there it tries the line format. */
  lemma TolerantAgrees(codecs: Codecs, deckCode: string)
    ensures ImportDeck(codecs, deckCode) != Err(InvalidBase64) ==>
      ImportDeckTolerant(codecs, deckCode) == ImportDeck(codecs, deckCode)
    ensures ImportDeck(codecs, deckCode) == Err(InvalidBase64) ==>
      ImportDeckTolerant(codecs, deckCode) == LinesOrUnrecognized(Trim(deckCode))
  {
  }

  // ---- Round trips through the whole importer ----

  /** A deck an exporter wrote as JSON imports unchanged. */
  lemma JsonImportRoundTrip(codecs: Codecs, deckCode: string, d: ImportedDeck)
    requires Canonical(d.mainDeck) && Canonical(d.runeDeck)
    requires Trim(deckCode) != []
    requires codecs.parseJson(Trim(deckCode)) == Some(DeckToJson(d))
    ensures ImportDeck(codecs, deckCode) == Ok(d)
    ensures ImportDeckTolerant(codecs, deckCode) == Ok(d)
  {
    DeckRoundTrip(codecs, Trim(deckCode), d);
    JsonFirst(codecs, deckCode, d);
  }

  /** A deck an exporter wrote as JSON and then as base64url imports unchanged,
      when the code is not itself JSON. */
  lemma EncodedImportRoundTrip(codecs: Codecs, deckCode: string, d: ImportedDeck)
    requires Canonical(d.mainDeck) && Canonical(d.runeDeck)
    requires Trim(deckCode) != []
    requires ParseFromJson(codecs, Trim(deckCode)) == Ok(None)
    requires Base64.Accepts(Base64.Prepared(Trim(deckCode)))
    requires codecs.parseJson(codecs.decodeText(Base64.Prepared(Trim(deckCode)))) == Some(DeckToJson(d))
    ensures ImportDeck(codecs, deckCode) == Ok(d)
    ensures ImportDeckTolerant(codecs, deckCode) == Ok(d)
  {
    DeckRoundTrip(codecs, codecs.decodeText(Base64.Prepared(Trim(deckCode))), d);
  }

  /** A printed deck list is its own trimmed code. */
  lemma PrintedTrimmed(d: ImportedDeck)
    requires Printable(d.mainDeck) && Printable(d.runeDeck)
    requires d.mainDeck != [] || d.runeDeck != []
    ensures PrintDeck(d) != []
    ensures Trim(Join(PrintDeck(d))) == Join(PrintDeck(d))
  {
    var ls := PrintDeck(d);
    assert |ls| >= |d.mainDeck| + |d.runeDeck|;
    PrintedPlain(d);
    assert forall i :: 0 <= i < |ls| ==> ls[i] != [] by {
      forall i | 0 <= i < |ls| ensures ls[i] != [] {
        assert ls[i] in ls;
      }
    }
    var first := ls[0];
    var last := ls[|ls| - 1];
    assert first in ls && last in ls;
    assert Trim(first) == first && Trim(last) == last;
    JoinEnds(ls);
    TrimNoop(Join(ls));
  }

  /** A deck list printed one `N id` line per entry imports unchanged through the
      corrected cascade when it is neither JSON nor base64 of a JSON deck; as
      written, only when `atob` also accepts it. */
  lemma LinesImportRoundTrip(codecs: Codecs, d: ImportedDeck)
    requires d.name.None?
    requires Printable(d.mainDeck) && Printable(d.runeDeck)
    requires d.mainDeck != [] || d.runeDeck != []
    requires PrintDeck(d) != [] && !TruthyOpt(codecs.parseJson(Join(PrintDeck(d))))
    requires DecodeBase64(codecs, Join(PrintDeck(d))).Some? ==>
      !TruthyOpt(codecs.parseJson(DecodeBase64(codecs, Join(PrintDeck(d))).value))
    ensures ImportDeckTolerant(codecs, Join(PrintDeck(d))) == Ok(d)
    ensures DecodeBase64(codecs, Join(PrintDeck(d))).Some? ==> ImportDeck(codecs, Join(PrintDeck(d))) == Ok(d)
  {
    var text := Join(PrintDeck(d));
    PrintedTrimmed(d);
    LinesRoundTrip(d);
    assert text != [];
  }

  // ---- The discrepancy, on one input ----

  lemma SampleLineText()
    ensures Trim("1 A") == "1 A"
    ensures LinesDeck("1 A") == Some(ImportedDeck(None, [Entry("A", 1)], []))
  {
    TrimNoop("1 A");
    var d := ImportedDeck(None, [Entry("A", 1)], []);
    TrimNoop("A");
    assert Printable(d.mainDeck);
    assert NatToString(1) == "1";
    assert PrintEntry(Entry("A", 1)) == "1 A";
    assert PrintSection(d.mainDeck) == ["1 A"];
    assert PrintDeck(d) == ["1 A"] + [];
    LinesRoundTrip(d);
  }

  /** `1 A` is a one-card deck list, but `atob` rejects it and the code as
      written throws before the line format is tried; the corrected cascade reads it. */
  lemma LineDeckRejected(codecs: Codecs)
    requires codecs.parseJson("1 A") == None
    ensures ImportDeck(codecs, "1 A") == Err(InvalidBase64)
    ensures ImportDeckTolerant(codecs, "1 A") == Ok(ImportedDeck(None, [Entry("A", 1)], []))
  {
    SampleLineText();
    Base64.SampleLineRejected();
  }

  // ---- expandDeckSection ----

  function CopiesOf(id: CardId, n: nat): (r: seq<CardId>)
    ensures |r| == n && forall i :: 0 <= i < n ==> r[i] == id
  {
    seq(n, _ => id)
  }

  lemma {:induction false} CopiesOfMultiset(id: CardId, n: nat)
    ensures multiset(CopiesOf(id, n)) == multiset{}[id := n]
  {
    if n > 0 {
      CopiesOfMultiset(id, n - 1);
      assert CopiesOf(id, n) == CopiesOf(id, n - 1) + [id];
    } else {
      assert CopiesOf(id, n) == [];
    }
  }

  /** `expandDeckSection(entries)`: each entry's id, `count` times, in entry order. */
  function ExpandDeckSection(es: seq<Entry>): (r: seq<CardId>)
    ensures |r| == Sum(es)
  {
    if es == [] then [] else CopiesOf(es[0].cardId, es[0].count) + ExpandDeckSection(es[1..])
  }

  /** The expansion holds each id exactly as often as the section counts it. */
  lemma {:induction false} ExpandCounts(es: seq<Entry>, x: CardId)
    ensures multiset(ExpandDeckSection(es))[x] == CountOf(es, x)
  {
    if es != [] {
      ExpandCounts(es[1..], x);
      CopiesOfMultiset(es[0].cardId, es[0].count);
    }
  }

  /** Expanding two sections one after the other is expanding their concatenation. */
  lemma {:induction false} ExpandAppend(a: seq<Entry>, b: seq<Entry>)
    ensures ExpandDeckSection(a + b) == ExpandDeckSection(a) + ExpandDeckSection(b)
  {
    if a != [] {
      assert (a + b)[1..] == a[1..] + b;
      ExpandAppend(a[1..], b);
    } else {
      assert a + b == b;
    }
  }
}
