/** `normalizeSection` (src/game/deckImporter.ts): one deck section, given as a
    JSON value, turned into its list of entries through a fresh card-count map. */
module DeckSections {
  import opened Wrappers
  import opened Json
  import opened DeckEntries
  import Text

  /** `item.cardId ?? item.id ?? ""`, read on an object item. */
  function IdField(item: Json): (r: Json)
    requires item.JObject?
    ensures !Nullish(Get(item, "cardId")) ==> r == Get(item, "cardId").value
    ensures Nullish(Get(item, "cardId")) && !Nullish(Get(item, "id")) ==> r == Get(item, "id").value
    ensures Nullish(Get(item, "cardId")) && Nullish(Get(item, "id")) ==> r == JString("")
  {
    match Coalesce(Get(item, "cardId"), Get(item, "id"))
    case Some(v) => if v == JNull then JString("") else v
    case None => JString("")
  }

  /** `item.count ?? 1` as `addEntry` sees it: only a finite number is kept. */
  function CountField(item: Json): (r: Count)
    requires item.JObject?
    ensures Nullish(Get(item, "count")) ==> r == Some(1)
    ensures forall n :: Get(item, "count") == Some(JNumber(n)) ==> r == Some(n)
    ensures !Nullish(Get(item, "count")) && !Get(item, "count").value.JNumber? ==> r.None?
  {
    match Get(item, "count")
    case None => Some(1)
    case Some(v) =>
      match v
      case JNull => Some(1)
      case JNumber(n) => Some(n)
      case _ => None
  }

  /** The `addEntry` call one array item makes, if any. An object whose
      id is not a string makes `trim` throw. */
  function ItemPair(item: Json): (r: Result<Option<Pair>, ImportError>)
    ensures item.JString? ==> r == Ok(Some(Pair(item.s, Some(1))))
    ensures item.JObject? && IdField(item).JString? ==> r == Ok(Some(Pair(IdField(item).s, CountField(item))))
    ensures r.Err? <==> item.JObject? && !IdField(item).JString?
    ensures item.JArray? ==> r == Ok(Some(Pair("", Some(1))))
    ensures !(item.JString? || item.JObject? || item.JArray?) ==> r == Ok(None)
  {
    match item
    case JString(s) => Ok(Some(Pair(s, Some(1))))
    case JObject(_) =>
      var id := IdField(item);
      if id.JString? then Ok(Some(Pair(id.s, CountField(item)))) else Err(CardIdNotString)
    case JArray(_) => Ok(Some(Pair("", Some(1))))  // no `cardId` or `id`: the empty id is skipped
    case _ => Ok(None)
  }

  function AsSeq(o: Option<Pair>): seq<Pair> {
    if o.Some? then [o.value] else []
  }

  /** The calls `input.forEach` makes on an array section, or the first failure. */
  function ArrayPairs(items: seq<Json>): (r: Result<seq<Pair>, ImportError>)
    ensures r.Err? ==> r.error == CardIdNotString
  {
    if items == [] then Ok([])
    else
      var n := |items| - 1;
      var ps :- ArrayPairs(items[..n]);
      var p :- ItemPair(items[n]);
      Ok(ps + AsSeq(p))
  }

  /** `Object.entries(record)` with each value coerced by `Number`. */
  function MemberPairs(members: seq<(string, Json)>): (ps: seq<Pair>)
    ensures |ps| == |members|
    ensures forall i :: 0 <= i < |members| ==> ps[i] == Pair(members[i].0, ToNumber(members[i].1))
  {
    seq(|members|, i requires 0 <= i < |members| => Pair(members[i].0, ToNumber(members[i].1)))
  }

  /** `Object.entries(text)`: one pair per character, keyed by its index. */
  function CharPairs(s: string): (ps: seq<Pair>)
    ensures |ps| == |s|
    ensures forall i :: 0 <= i < |s| ==> ps[i] == Pair(Text.NatToString(i), StringToNumber([s[i]]))
  {
    seq(|s|, i requires 0 <= i < |s| => Pair(Text.NatToString(i), StringToNumber([s[i]])))
  }

  /** Every `addEntry` call `normalizeSection` makes, in order. Numbers and
      booleans have no own enumerable properties. */
  function SectionPairs(input: Option<Json>): Result<seq<Pair>, ImportError> {
    if !TruthyOpt(input) then Ok([])
    else match input.value
      case JArray(items) => ArrayPairs(items)
      case JObject(members) => Ok(MemberPairs(members))
      case JString(s) => Ok(CharPairs(s))
      case _ => Ok([])
  }

  /** What `normalizeSection(input)` returns, or the error it throws. */
  function Normalized(input: Option<Json>): (r: Result<seq<Entry>, ImportError>)
    ensures r.Err? ==> r.error == CardIdNotString
  {
    var ps :- SectionPairs(input);
    Ok(Tally(ps))
  }

  lemma ArrayPairsStep(items: seq<Json>, i: nat)
    requires i < |items| && ArrayPairs(items[..i]).Ok? && ItemPair(items[i]).Ok?
    ensures ArrayPairs(items[..i + 1]) == Ok(ArrayPairs(items[..i]).value + AsSeq(ItemPair(items[i]).value))
  {
    assert items[..i + 1][..i] == items[..i];
  }

  lemma {:induction false} ArrayPairsFails(items: seq<Json>, i: nat)
    requires i <= |items| && ArrayPairs(items[..i]).Err?
    ensures ArrayPairs(items) == ArrayPairs(items[..i])
    decreases |items| - i
  {
    if i < |items| {
      assert items[..i + 1][..i] == items[..i];
      ArrayPairsFails(items, i + 1);
    } else {
      assert items[..i] == items;
    }
  }

  /** The `forEach` over an array section, filling a fresh map. */
  method TallyArray(items: seq<Json>) returns (r: Result<seq<Entry>, ImportError>)
    ensures r == Normalized(Some(JArray(items)))
  {
    var entries := new CardTally();
    ghost var ps: seq<Pair> := [];
    var i := 0;
    while i < |items|
      invariant 0 <= i <= |items|
      invariant entries.Valid()
      invariant ArrayPairs(items[..i]) == Ok(ps)
      invariant entries.Entries() == Tally(ps)
    {
      var call := ItemPair(items[i]);
      if call.Err? {
        assert items[..i + 1][..i] == items[..i];
        ArrayPairsFails(items, i + 1);
        return Err(call.error);
      }
      ArrayPairsStep(items, i);
      AddItem(entries, call.value, ps);
      ps := ps + AsSeq(call.value);
      i := i + 1;
    }
    assert items[..i] == items;
    r := Ok(entries.Entries());
  }

  /** The `addEntry` call one array item makes, if any. */
  method AddItem(entries: CardTally, p: Option<Pair>, ghost ps: seq<Pair>)
    requires entries.Valid() && entries.Entries() == Tally(ps)
    modifies entries
    ensures entries.Valid() && entries.Entries() == Tally(ps + AsSeq(p))
  {
    if p.Some? {
      entries.AddEntry(p.value.rawId, p.value.count);
      TallySnoc(ps, p.value);
    } else {
      assert ps + AsSeq(p) == ps;
    }
  }

  /** `Object.entries(input).forEach(...)`, filling a fresh map. */
  method TallyEntries(pairs: seq<Pair>) returns (es: seq<Entry>)
    ensures es == Tally(pairs)
  {
    var entries := new CardTally();
    var i := 0;
    while i < |pairs|
      invariant 0 <= i <= |pairs|
      invariant entries.Valid()
      invariant entries.Entries() == Tally(pairs[..i])
    {
      entries.AddEntry(pairs[i].rawId, pairs[i].count);
      assert pairs[..i + 1][..i] == pairs[..i];
      i := i + 1;
    }
    assert pairs[..i] == pairs;
    es := entries.Entries();
  }

  method NormalizeSection(input: Option<Json>) returns (r: Result<seq<Entry>, ImportError>)
    ensures r == Normalized(input)
  {
    if !TruthyOpt(input) {
      return Ok([]);
    }
    match input.value {
      case JArray(items) =>
        r := TallyArray(items);
      case JObject(members) =>
        var es := TallyEntries(MemberPairs(members));
        r := Ok(es);
      case JString(s) =>
        var es := TallyEntries(CharPairs(s));
        r := Ok(es);
      case _ =>
        r := Ok([]);
    }
  }

  // ---- Properties of the normalised section ----

  /** A falsy or missing section is empty. */
  lemma NormalizedFalsy(input: Option<Json>)
    requires !TruthyOpt(input)
    ensures Normalized(input) == Ok([])
  {
  }

  /** Ids are unique and non-empty, counts positive, and entries are ordered
      by the first `addEntry` call that named their id. */
  lemma NormalizedShape(input: Option<Json>)
    requires Normalized(input).Ok?
    ensures WellFormed(Normalized(input).value)
    ensures var es := Normalized(input).value;
      var keys := Keys(SectionPairs(input).value);
      && (forall x :: x in Ids(es) <==> x in keys)
      && (forall i, j :: 0 <= i < j < |es| ==>
            FirstIndex(keys, es[i].cardId) < FirstIndex(keys, es[j].cardId))
  {
    var ps := SectionPairs(input).value;
    TallyIds(ps);
    TallyFirstOccurrence(ps);
  }

  /** Each id's count is the sum of the coerced counts of the calls that named it. */
  lemma NormalizedCounts(input: Option<Json>, x: CardId)
    requires Normalized(input).Ok?
    ensures CountOf(Normalized(input).value, x) == Contribution(SectionPairs(input).value, x)
    ensures Sum(Normalized(input).value) == TotalContribution(SectionPairs(input).value)
  {
    TallyCounts(SectionPairs(input).value, x);
    TallySum(SectionPairs(input).value);
  }

  /** An array section fails exactly when one of its items is an object whose id is not a string. */
  lemma {:induction false} ArrayFails(items: seq<Json>)
    ensures ArrayPairs(items).Err? <==> exists i :: 0 <= i < |items| && ItemPair(items[i]).Err?
  {
    if items != [] {
      var n := |items| - 1;
      ArrayFails(items[..n]);
      assert forall i :: 0 <= i < n ==> items[..n][i] == items[i];
      if ArrayPairs(items[..n]).Ok? && ItemPair(items[n]).Ok? {
        forall i | 0 <= i < |items| ensures ItemPair(items[i]).Ok? {
          if i < n { assert items[..n][i] == items[i]; }
        }
      }
    }
  }

  /** Copies of `x` asked for by an array of plain strings: one per item that trims to `x`. */
  function StringDemand(items: seq<Json>, x: CardId): nat {
    if items == [] then 0
    else
      var n := |items| - 1;
      StringDemand(items[..n], x) + (if items[n].JString? && Text.Trim(items[n].s) == x then 1 else 0)
  }

  lemma {:induction false} StringItemsPairs(items: seq<Json>, x: CardId)
    requires forall i :: 0 <= i < |items| ==> items[i].JString?
    requires x != []
    ensures ArrayPairs(items).Ok?
    ensures Contribution(ArrayPairs(items).value, x) == StringDemand(items, x)
  {
    if items != [] {
      var n := |items| - 1;
      StringItemsPairs(items[..n], x);
      var ps := ArrayPairs(items[..n]).value;
      var p := Pair(items[n].s, Some(1));
      assert ArrayPairs(items) == Ok(ps + [p]);
      assert (ps + [p])[..|ps|] == ps;
    }
  }

  /** In an array of strings every item counts once, after trimming. */
  lemma StringItemsCountOnce(items: seq<Json>, x: CardId)
    requires forall i :: 0 <= i < |items| ==> items[i].JString?
    requires x != []
    ensures Normalized(Some(JArray(items))).Ok?
    ensures CountOf(Normalized(Some(JArray(items))).value, x) == StringDemand(items, x)
  {
    StringItemsPairs(items, x);
    var ps := ArrayPairs(items).value;
    assert SectionPairs(Some(JArray(items))) == Ok(ps);
    assert Normalized(Some(JArray(items))) == Ok(Tally(ps));
    TallyCounts(ps, x);
  }

  /** Calls whose ids are already trimmed, non-empty and distinct produce one entry each, in order. */
  lemma {:induction false} TallyDistinct(ps: seq<Pair>)
    requires forall i :: 0 <= i < |ps| ==> ps[i].rawId != [] && Text.Trim(ps[i].rawId) == ps[i].rawId
    requires forall i, j :: 0 <= i < j < |ps| ==> ps[i].rawId != ps[j].rawId
    ensures |Tally(ps)| == |ps|
    ensures forall i :: 0 <= i < |ps| ==> Tally(ps)[i] == Entry(ps[i].rawId, SafeCount(ps[i].count))
  {
    if ps != [] {
      var n := |ps| - 1;
      var prev := Tally(ps[..n]);
      TallyDistinct(ps[..n]);
      assert IndexOf(prev, ps[n].rawId).None? by {
        forall j | 0 <= j < |prev| ensures prev[j].cardId != ps[n].rawId {
          assert prev[j].cardId == ps[j].rawId;
        }
      }
      AddedNew(prev, ps[n].rawId, ps[n].count);
    }
  }

  lemma NumeralTrimmed(n: nat)
    ensures Text.Trim(Text.NatToString(n)) == Text.NatToString(n)
  {
    var d := Text.NatToString(n);
    assert Text.IsDigit(d[0]) && Text.IsDigit(d[|d| - 1]);
    Text.TrimNoop(d);
  }

  /** A section as the importer produces it: well formed, every id already trimmed. */
  predicate Canonical(es: seq<Entry>) {
    WellFormed(es) && forall i :: 0 <= i < |es| ==> Text.Trim(es[i].cardId) == es[i].cardId
  }

  function EntryPairs(es: seq<Entry>): (ps: seq<Pair>)
    ensures |ps| == |es|
    ensures forall i :: 0 <= i < |es| ==> ps[i] == Pair(es[i].cardId, Some(es[i].count))
  {
    seq(|es|, i requires 0 <= i < |es| => Pair(es[i].cardId, Some(es[i].count)))
  }

  /** Re-adding the entries of a canonical section one by one rebuilds it. */
  lemma TallyCanonical(es: seq<Entry>)
    requires Canonical(es)
    ensures Tally(EntryPairs(es)) == es
  {
    var ps := EntryPairs(es);
    assert forall i :: 0 <= i < |ps| ==> ps[i].rawId != [] && Text.Trim(ps[i].rawId) == ps[i].rawId;
    assert forall i, j :: 0 <= i < j < |ps| ==> ps[i].rawId != ps[j].rawId;
    TallyDistinct(ps);
    forall i | 0 <= i < |es| ensures Tally(ps)[i] == es[i] {
      assert SafeCount(Some(es[i].count)) == es[i].count;
    }
  }

  /** A string section is read character by character: key `i` gets the numeric value
      of the i-th character (at least 1), so `"a5"` gives `0` once and `1` five times. */
  lemma StringSection(s: string)
    requires s != []
    ensures Normalized(Some(JString(s))).Ok?
    ensures var es := Normalized(Some(JString(s))).value;
      && |es| == |s|
      && forall i :: 0 <= i < |s| ==> es[i] == Entry(Text.NatToString(i), SafeCount(StringToNumber([s[i]])))
  {
    var ps := CharPairs(s);
    assert Normalized(Some(JString(s))) == Ok(Tally(ps));
    CharKeysTrimmed(s);
    CharKeysDistinct(s);
    TallyDistinct(ps);
  }

  /** The keys of a string's characters are numerals: non-empty and trimmed. */
  lemma CharKeysTrimmed(s: string)
    ensures forall i :: 0 <= i < |s| ==> CharPairs(s)[i].rawId != [] && Text.Trim(CharPairs(s)[i].rawId) == CharPairs(s)[i].rawId
  {
    forall i | 0 <= i < |s| ensures Text.Trim(Text.NatToString(i)) == Text.NatToString(i) {
      NumeralTrimmed(i);
    }
  }

  /** Different positions have different keys. */
  lemma CharKeysDistinct(s: string)
    ensures forall i, j :: 0 <= i < j < |s| ==> CharPairs(s)[i].rawId != CharPairs(s)[j].rawId
  {
    forall i, j | 0 <= i < j < |s| ensures Text.NatToString(i) != Text.NatToString(j) {
      if Text.NatToString(i) == Text.NatToString(j) { Text.NatToStringInjective(i, j); }
    }
  }

  /** An object section with trimmed, non-empty keys keeps every key once, in order. */
  lemma ObjectSection(members: seq<(string, Json)>)
    requires members != []
    requires forall i :: 0 <= i < |members| ==> members[i].0 != [] && Text.Trim(members[i].0) == members[i].0
    requires forall i, j :: 0 <= i < j < |members| ==> members[i].0 != members[j].0
    ensures Normalized(Some(JObject(members))).Ok?
    ensures var es := Normalized(Some(JObject(members))).value;
      && |es| == |members|
      && forall i :: 0 <= i < |members| ==> es[i] == Entry(members[i].0, SafeCount(ToNumber(members[i].1)))
  {
    TallyDistinct(MemberPairs(members));
  }

  lemma SampleTrims()
    ensures Text.Trim("A") == "A" && Text.Trim(" A ") == "A" && Text.Trim("B") == "B"
  {
    assert " A "[1..] == "A ";
    assert "A "[..1] == "A";
  }

  lemma SamplePairs()
    ensures ArrayPairs([JString("A"), JString(" A "), JString("B")])
         == Ok([Pair("A", Some(1)), Pair(" A ", Some(1)), Pair("B", Some(1))])
  {
    var items := [JString("A"), JString(" A "), JString("B")];
    var ps := [Pair("A", Some(1)), Pair(" A ", Some(1)), Pair("B", Some(1))];
    assert items[..0] == [];
    ArrayPairsStep(items, 0);
    assert [] + [ps[0]] == ps[..1];
    ArrayPairsStep(items, 1);
    assert ps[..1] + [ps[1]] == ps[..2];
    ArrayPairsStep(items, 2);
    assert ps[..2] + [ps[2]] == ps;
    assert items[..3] == items;
  }

  lemma SampleTally()
    ensures Tally([Pair("A", Some(1)), Pair(" A ", Some(1)), Pair("B", Some(1))])
         == [Entry("A", 2), Entry("B", 1)]
  {
    var ps := [Pair("A", Some(1)), Pair(" A ", Some(1)), Pair("B", Some(1))];
    SampleTrims();
    assert ps[..2][..1] == ps[..1];
    assert ps[..1][..0] == [];
    assert Tally(ps[..1]) == [Entry("A", 1)];
    assert Tally(ps[..2]) == [Entry("A", 2)];
  }

  /** `["A", " A ", "B"]` merges the two spellings of A. */
  lemma DuplicateStringsMerge()
    ensures Normalized(Some(JArray([JString("A"), JString(" A "), JString("B")])))
         == Ok([Entry("A", 2), Entry("B", 1)])
  {
    SamplePairs();
    SampleTally();
  }
}
