/** The JSON strategies of the deck importer (src/game/deckImporter.ts):
    `normalizeDeckObject`, `parseFromJson`, `decodeBase64` and
    `parseFromBase64Json`. `JSON.parse` and the bytes-to-text step after
    `atob` are foreign code and are given as parameters. */
module DeckJson {
  import opened Wrappers
  import opened Json
  import opened DeckEntries
  import opened DeckSections
  import Text
  import Base64

  /** The foreign codecs: `JSON.parse` (`None` when it throws) and the text
      `TextDecoder` makes of the bytes `atob` returns for a base64 text it accepts. */
  datatype Codecs = Codecs(parseJson: string -> Option<Json>, decodeText: string -> string)

  /** `typeof value.name === "string" ? value.name : undefined`. */
  function NameOf(value: Json): (r: Option<string>)
    ensures r.Some? <==> Get(value, "name").Some? && Get(value, "name").value.JString?
    ensures r.Some? ==> Get(value, "name") == Some(JString(r.value))
  {
    match Get(value, "name")
    case Some(JString(s)) => Some(s)
    case _ => None
  }

  /** `isRecord(cards) && (cards.main || cards.rune)`. */
  predicate CardsRecord(value: Json) {
    var cards := Get(value, "cards");
    cards.Some? && cards.value.JObject? && (TruthyOpt(Get(cards.value, "main")) || TruthyOpt(Get(cards.value, "rune")))
  }

  /** `value.mainDeck ?? value.main ?? value.deck ?? value.cards`. */
  function MainCandidate(value: Json): Option<Json> {
    Coalesce(Coalesce(Coalesce(Get(value, "mainDeck"), Get(value, "main")), Get(value, "deck")), Get(value, "cards"))
  }

  /** `value.runeDeck ?? value.rune ?? value.runes`. */
  function RuneCandidate(value: Json): Option<Json> {
    Coalesce(Coalesce(Get(value, "runeDeck"), Get(value, "rune")), Get(value, "runes"))
  }

  /** Both sections of a deck, main first; a throw in either ends the import. */
  function Sections(name: Option<string>, main: Option<Json>, rune: Option<Json>): (r: Result<ImportedDeck, ImportError>)
    ensures r.Ok? <==> Normalized(main).Ok? && Normalized(rune).Ok?
    ensures r.Ok? ==> r.value == ImportedDeck(name, Normalized(main).value, Normalized(rune).value)
  {
    var mainDeck :- Normalized(main);
    var runeDeck :- Normalized(rune);
    Ok(ImportedDeck(name, mainDeck, runeDeck))
  }

  /** `normalizeDeckObject(value)`; `Ok(None)` is its `null`. */
  function NormalizeDeckObject(value: Json): (r: Result<Option<ImportedDeck>, ImportError>)
    requires value.JObject?
    ensures r.Ok? && r.value.Some? ==> r.value.value.name == NameOf(value)
    ensures r == Ok(None) <==> !CardsRecord(value) && !TruthyOpt(MainCandidate(value)) && !TruthyOpt(RuneCandidate(value))
  {
    var name := NameOf(value);
    if CardsRecord(value) then
      var cards := Get(value, "cards").value;
      var deck :- Sections(name, Get(cards, "main"), Get(cards, "rune"));
      Ok(Some(deck))
    else if TruthyOpt(MainCandidate(value)) || TruthyOpt(RuneCandidate(value)) then
      var deck :- Sections(name, MainCandidate(value), RuneCandidate(value));
      Ok(Some(deck))
    else
      Ok(None)
  }

  /** `parseFromJson(text)`. */
  function ParseFromJson(codecs: Codecs, text: string): (r: Result<Option<ImportedDeck>, ImportError>)
    ensures r.Err? ==> r.error == CardIdNotString
  {
    var parsed := codecs.parseJson(text);
    if !TruthyOpt(parsed) then Ok(None)
    else match parsed.value
      case JArray(_) =>
        var mainDeck :- Normalized(parsed);
        Ok(Some(ImportedDeck(None, mainDeck, [])))
      case JObject(_) => NormalizeDeckObject(parsed.value)
      case _ => Ok(None)
  }

  /** `decodeBase64(text)`; `None` is the exception `atob` throws. */
  function DecodeBase64(codecs: Codecs, text: string): (r: Option<string>)
    ensures r.Some? <==> Base64.Accepts(Base64.Prepared(text))
  {
    var padded := Base64.Prepared(text);
    if Base64.Accepts(padded) then Some(codecs.decodeText(padded)) else None
  }

  /** `parseFromBase64Json(text)`: a rejected base64 text throws, and nothing catches it. */
  function ParseFromBase64Json(codecs: Codecs, text: string): (r: Result<Option<ImportedDeck>, ImportError>)
    ensures r == Err(InvalidBase64) <==> DecodeBase64(codecs, text).None?
  {
    match DecodeBase64(codecs, text)
    case None => Err(InvalidBase64)
    case Some(decoded) => ParseFromJson(codecs, decoded)
  }

  // ---- Shapes the JSON strategy recognises ----

  /** A top-level array is the main deck; the rune deck is empty and there is no name. */
  lemma TopLevelArray(codecs: Codecs, text: string, items: seq<Json>)
    requires codecs.parseJson(text) == Some(JArray(items))
    ensures ParseFromJson(codecs, text).Ok? <==> Normalized(Some(JArray(items))).Ok?
    ensures ParseFromJson(codecs, text).Ok? ==>
      ParseFromJson(codecs, text) == Ok(Some(ImportedDeck(None, Normalized(Some(JArray(items))).value, [])))
  {
  }

  /** A `cards` record with a truthy `main` or `rune` wins over every other key. */
  lemma CardsRecordFirst(value: Json)
    requires value.JObject? && CardsRecord(value)
    ensures var cards := Get(value, "cards").value;
      NormalizeDeckObject(value) == (var d :- Sections(NameOf(value), Get(cards, "main"), Get(cards, "rune")); Ok(Some(d)))
  {
  }

  /** Otherwise the sections are `mainDeck ?? main ?? deck ?? cards` and
      `runeDeck ?? rune ?? runes`, and there is a deck when either is truthy. */
  lemma CandidateKeys(value: Json)
    requires value.JObject? && !CardsRecord(value)
    requires TruthyOpt(MainCandidate(value)) || TruthyOpt(RuneCandidate(value))
    ensures NormalizeDeckObject(value) == (var d :- Sections(NameOf(value), MainCandidate(value), RuneCandidate(value)); Ok(Some(d)))
  {
  }

  /** The main section is the first of `mainDeck`, `main`, `deck` that is neither
      null nor missing, and `cards` when all three are. */
  lemma MainCandidateOrder(value: Json)
    ensures !Nullish(Get(value, "mainDeck")) ==> MainCandidate(value) == Get(value, "mainDeck")
    ensures Nullish(Get(value, "mainDeck")) && !Nullish(Get(value, "main")) ==>
      MainCandidate(value) == Get(value, "main")
    ensures Nullish(Get(value, "mainDeck")) && Nullish(Get(value, "main")) && !Nullish(Get(value, "deck")) ==>
      MainCandidate(value) == Get(value, "deck")
    ensures Nullish(Get(value, "mainDeck")) && Nullish(Get(value, "main")) && Nullish(Get(value, "deck")) ==>
      MainCandidate(value) == Get(value, "cards")
  {
  }

  /** The rune section is the first of `runeDeck`, `rune` that is neither null nor
      missing, and `runes` when both are. */
  lemma RuneCandidateOrder(value: Json)
    ensures !Nullish(Get(value, "runeDeck")) ==> RuneCandidate(value) == Get(value, "runeDeck")
    ensures Nullish(Get(value, "runeDeck")) && !Nullish(Get(value, "rune")) ==>
      RuneCandidate(value) == Get(value, "rune")
    ensures Nullish(Get(value, "runeDeck")) && Nullish(Get(value, "rune")) ==>
      RuneCandidate(value) == Get(value, "runes")
  {
  }

  // ---- The JSON an exporter writes is read back unchanged ----

  function EntryJson(e: Entry): Json {
    JObject([("cardId", JString(e.cardId)), ("count", JNumber(e.count))])
  }

  function SectionJson(es: seq<Entry>): (r: Json)
    ensures r.JArray? && |r.items| == |es|
    ensures forall i :: 0 <= i < |es| ==> r.items[i] == EntryJson(es[i])
  {
    JArray(seq(|es|, i requires 0 <= i < |es| => EntryJson(es[i])))
  }

  /** `{"name": …, "mainDeck": [{"cardId": …, "count": …}, …], "runeDeck": […]}`. */
  function DeckToJson(d: ImportedDeck): Json {
    JObject((if d.name.Some? then [("name", JString(d.name.value))] else [])
            + [("mainDeck", SectionJson(d.mainDeck)), ("runeDeck", SectionJson(d.runeDeck))])
  }

  lemma EntryItem(e: Entry)
    ensures ItemPair(EntryJson(e)) == Ok(Some(Pair(e.cardId, Some(e.count))))
  {
    var item := EntryJson(e);
    assert Get(item, "cardId") == Some(JString(e.cardId));
    assert "cardId"[1] != "count"[1];
    assert item.members[1..] == [("count", JNumber(e.count))];
    assert Lookup(item.members[1..], "count") == Some(JNumber(e.count));
    assert item.members[0].0 != "count";
    assert Get(item, "count") == Some(JNumber(e.count));
  }

  lemma {:induction false} SectionJsonPairs(es: seq<Entry>)
    ensures ArrayPairs(SectionJson(es).items) == Ok(EntryPairs(es))
  {
    if es != [] {
      var n := |es| - 1;
      var items := SectionJson(es).items;
      assert items[..n] == SectionJson(es[..n]).items;
      SectionJsonPairs(es[..n]);
      EntryItem(es[n]);
      assert EntryPairs(es) == EntryPairs(es[..n]) + [Pair(es[n].cardId, Some(es[n].count))];
    }
  }

  /** Writing a canonical section as a JSON array and normalising it gives it back. */
  lemma SectionRoundTrip(es: seq<Entry>)
    requires Canonical(es)
    ensures Normalized(Some(SectionJson(es))) == Ok(es)
  {
    SectionJsonPairs(es);
    TallyCanonical(es);
  }

  lemma DeckToJsonFields(d: ImportedDeck)
    ensures var v := DeckToJson(d);
      && Get(v, "cards") == None
      && Get(v, "mainDeck") == Some(SectionJson(d.mainDeck))
      && Get(v, "runeDeck") == Some(SectionJson(d.runeDeck))
      && NameOf(v) == d.name
  {
    var v := DeckToJson(d);
    assert "name"[0] != "cards"[0] && "name"[0] != "mainDeck"[0] && "name"[0] != "runeDeck"[0];
    assert "mainDeck"[0] != "cards"[0] && "mainDeck"[0] != "runeDeck"[0];
    assert "runeDeck"[0] != "cards"[0];
    var ms := v.members;
    if d.name.Some? {
      assert ms[0].0 == "name" && ms[1].0 == "mainDeck" && ms[2].0 == "runeDeck" && |ms| == 3;
    } else {
      assert ms[0].0 == "mainDeck" && ms[1].0 == "runeDeck" && |ms| == 2;
    }
  }

  /** The deck object an exporter writes normalises to the deck itself. */
  lemma DeckObjectRoundTrip(d: ImportedDeck)
    requires Canonical(d.mainDeck) && Canonical(d.runeDeck)
    ensures NormalizeDeckObject(DeckToJson(d)) == Ok(Some(d))
  {
    var v := DeckToJson(d);
    DeckToJsonFields(d);
    SectionRoundTrip(d.mainDeck);
    SectionRoundTrip(d.runeDeck);
    assert !CardsRecord(v);
    assert MainCandidate(v) == Some(SectionJson(d.mainDeck));
    assert RuneCandidate(v) == Some(SectionJson(d.runeDeck));
  }

  /** A deck an exporter wrote as JSON is read back unchanged by the JSON strategy. */
  lemma DeckRoundTrip(codecs: Codecs, text: string, d: ImportedDeck)
    requires Canonical(d.mainDeck) && Canonical(d.runeDeck)
    requires codecs.parseJson(text) == Some(DeckToJson(d))
    ensures ParseFromJson(codecs, text) == Ok(Some(d))
  {
    DeckObjectRoundTrip(d);
  }
}
