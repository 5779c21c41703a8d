/** Deck sections and the insertion-ordered card-count map every import
    strategy fills through `addEntry` (src/game/deckImporter.ts). */
module DeckEntries {
  import opened Wrappers
  import Text

  type CardId = string

  /** DeckSectionEntry: one card id and its number of copies. */
  datatype Entry = Entry(cardId: CardId, count: nat)

  datatype ImportedDeck = ImportedDeck(name: Option<string>, mainDeck: seq<Entry>, runeDeck: seq<Entry>)

  /** The ways an import call ends with an exception. */
  datatype ImportError =
    | EmptyDeckCode       // "Deck code is empty."
    | UnrecognizedFormat  // "Unrecognized deck format for Piltover Archive import."
    | InvalidBase64       // atob's InvalidCharacterError; nothing catches it
    | CardIdNotString     // TypeError: `trim` called on a card id that is not a string

  /** A count as `addEntry` receives it; `None` is NaN or an infinity. */
  type Count = Option<int>

  /** One `addEntry(target, rawId, count)` call, before trimming and coercion. */
  datatype Pair = Pair(rawId: string, count: Count)

  /** Counts that are not finite or not positive become 1. */
  function SafeCount(c: Count): (r: nat)
    ensures r >= 1
    ensures c.Some? && c.value > 0 ==> r == c.value
    ensures c.None? || c.value <= 0 ==> r == 1
  {
    if c.Some? && c.value > 0 then c.value else 1
  }

  function Ids(es: seq<Entry>): (ids: seq<CardId>)
    ensures |ids| == |es|
    ensures forall i :: 0 <= i < |es| ==> ids[i] == es[i].cardId
  {
    seq(|es|, i requires 0 <= i < |es| => es[i].cardId)
  }

  /** Copies of `x` across all entries: the multiset view of a section. */
  function CountOf(es: seq<Entry>, x: CardId): nat {
    if es == [] then 0 else (if es[0].cardId == x then es[0].count else 0) + CountOf(es[1..], x)
  }

  /** Total number of copies in a section. */
  function Sum(es: seq<Entry>): nat {
    if es == [] then 0 else es[0].count + Sum(es[1..])
  }

  /** The section invariant: ids unique and non-empty, counts positive. */
  predicate WellFormed(es: seq<Entry>) {
    && (forall i, j :: 0 <= i < j < |es| ==> es[i].cardId != es[j].cardId)
    && (forall i :: 0 <= i < |es| ==> es[i].count >= 1 && es[i].cardId != [])
  }

  lemma {:induction false} ConcatCount(a: seq<Entry>, b: seq<Entry>, x: CardId)
    ensures CountOf(a + b, x) == CountOf(a, x) + CountOf(b, x)
  {
    if a == [] {
      assert a + b == b;
    } else {
      ConcatCount(a[1..], b, x);
      assert (a + b)[1..] == a[1..] + b;
    }
  }

  lemma {:induction false} ConcatSum(a: seq<Entry>, b: seq<Entry>)
    ensures Sum(a + b) == Sum(a) + Sum(b)
  {
    if a == [] {
      assert a + b == b;
    } else {
      ConcatSum(a[1..], b);
      assert (a + b)[1..] == a[1..] + b;
    }
  }

  lemma {:induction false} UpdateCount(es: seq<Entry>, k: nat, e: Entry, x: CardId)
    requires k < |es|
    ensures CountOf(es[k := e], x) + (if es[k].cardId == x then es[k].count else 0)
            == CountOf(es, x) + (if e.cardId == x then e.count else 0)
  {
    if k == 0 {
      assert es[k := e][1..] == es[1..];
    } else {
      UpdateCount(es[1..], k - 1, e, x);
      assert es[k := e][1..] == es[1..][k - 1 := e];
    }
  }

  lemma {:induction false} UpdateSum(es: seq<Entry>, k: nat, e: Entry)
    requires k < |es|
    ensures Sum(es[k := e]) + es[k].count == Sum(es) + e.count
  {
    if k == 0 {
      assert es[k := e][1..] == es[1..];
    } else {
      UpdateSum(es[1..], k - 1, e);
      assert es[k := e][1..] == es[1..][k - 1 := e];
    }
  }

  /** Where the entry for `id` sits, if there is one. */
  function IndexOf(es: seq<Entry>, id: CardId): (r: Option<nat>)
    ensures r.Some? ==> r.value < |es| && es[r.value].cardId == id
    ensures r.None? <==> forall j :: 0 <= j < |es| ==> es[j].cardId != id
  {
    if es == [] then None
    else if es[0].cardId == id then Some(0)
    else match IndexOf(es[1..], id)
      case None => None
      case Some(k) => Some(k + 1)
  }

  /** `addEntry` on the value of the map. */
  function Added(es: seq<Entry>, cardId: string, count: Count): seq<Entry> {
    var id := Text.Trim(cardId);
    if id == [] then es
    else match IndexOf(es, id)
      case Some(k) => es[k := Entry(id, es[k].count + SafeCount(count))]
      case None => es + [Entry(id, SafeCount(count))]
  }

  /** `addEntry` trims the id and ignores it when empty; a new id goes last and
      every existing entry keeps its place. */
  lemma AddedIds(es: seq<Entry>, cardId: string, count: Count)
    ensures var id := Text.Trim(cardId);
      Ids(Added(es, cardId, count)) == if id == [] || id in Ids(es) then Ids(es) else Ids(es) + [id]
  {
    var id := Text.Trim(cardId);
    if id != [] {
      var r := Added(es, cardId, count);
      match IndexOf(es, id)
      case Some(k) =>
        assert Ids(r) == Ids(es);
      case None =>
        assert Ids(r) == Ids(es) + [id];
    }
  }

  /** `addEntry` adds the safe count to the total of the trimmed id and to no other. */
  lemma AddedCount(es: seq<Entry>, cardId: string, count: Count, x: CardId)
    ensures CountOf(Added(es, cardId, count), x)
            == CountOf(es, x) + (if x == Text.Trim(cardId) && x != [] then SafeCount(count) else 0)
  {
    var id := Text.Trim(cardId);
    if id != [] {
      match IndexOf(es, id)
      case Some(k) =>
        var e := Entry(id, es[k].count + SafeCount(count));
        assert Added(es, cardId, count) == es[k := e];
        UpdateCount(es, k, e, x);
      case None =>
        var e := Entry(id, SafeCount(count));
        assert Added(es, cardId, count) == es + [e];
        ConcatCount(es, [e], x);
        assert [e][1..] == [];
    }
  }

  /** `addEntry` adds the safe count to the total number of copies, unless the id is blank. */
  lemma AddedSum(es: seq<Entry>, cardId: string, count: Count)
    ensures Sum(Added(es, cardId, count)) == Sum(es) + (if Text.Trim(cardId) == [] then 0 else SafeCount(count))
  {
    var id := Text.Trim(cardId);
    if id != [] {
      match IndexOf(es, id)
      case Some(k) =>
        var e := Entry(id, es[k].count + SafeCount(count));
        assert Added(es, cardId, count) == es[k := e];
        UpdateSum(es, k, e);
      case None =>
        var e := Entry(id, SafeCount(count));
        assert Added(es, cardId, count) == es + [e];
        ConcatSum(es, [e]);
        assert [e][1..] == [];
    }
  }

  lemma WellFormedUpdate(es: seq<Entry>, k: nat, e: Entry)
    requires WellFormed(es) && k < |es|
    requires e.cardId == es[k].cardId && e.count >= 1
    ensures WellFormed(es[k := e])
  {
    assert forall i :: 0 <= i < |es| ==> es[k := e][i].cardId == es[i].cardId;
  }

  lemma WellFormedAppend(es: seq<Entry>, e: Entry)
    requires WellFormed(es)
    requires forall i :: 0 <= i < |es| ==> es[i].cardId != e.cardId
    requires e.count >= 1 && e.cardId != []
    ensures WellFormed(es + [e])
  {
    assert forall i :: 0 <= i < |es| ==> (es + [e])[i] == es[i];
  }

  lemma AddedFound(es: seq<Entry>, cardId: string, count: Count)
    requires Text.Trim(cardId) != [] && IndexOf(es, Text.Trim(cardId)).Some?
    ensures var k := IndexOf(es, Text.Trim(cardId)).value;
      Added(es, cardId, count) == es[k := Entry(Text.Trim(cardId), es[k].count + SafeCount(count))]
  {
  }

  lemma AddedNew(es: seq<Entry>, cardId: string, count: Count)
    requires Text.Trim(cardId) != [] && IndexOf(es, Text.Trim(cardId)).None?
    ensures Added(es, cardId, count) == es + [Entry(Text.Trim(cardId), SafeCount(count))]
  {
  }

  /** `addEntry` keeps the section invariant. */
  lemma AddedWellFormed(es: seq<Entry>, cardId: string, count: Count)
    requires WellFormed(es)
    ensures WellFormed(Added(es, cardId, count))
  {
    var id := Text.Trim(cardId);
    if id != [] {
      var ix := IndexOf(es, id);
      if ix.Some? {
        AddedFound(es, cardId, count);
        WellFormedUpdate(es, ix.value, Entry(id, es[ix.value].count + SafeCount(count)));
      } else {
        AddedNew(es, cardId, count);
        WellFormedAppend(es, Entry(id, SafeCount(count)));
      }
    }
  }

  /** The entries a fresh map holds after `addEntry` was called with each pair in turn. */
  function Tally(ps: seq<Pair>): (r: seq<Entry>)
    ensures WellFormed(r)
  {
    if ps == [] then []
    else
      var n := |ps| - 1;
      AddedWellFormed(Tally(ps[..n]), ps[n].rawId, ps[n].count);
      Added(Tally(ps[..n]), ps[n].rawId, ps[n].count)
  }

  lemma TallySnoc(ps: seq<Pair>, p: Pair)
    ensures Tally(ps + [p]) == Added(Tally(ps), p.rawId, p.count)
  {
    assert (ps + [p])[..|ps|] == ps;
  }

  /** The ids the pairs contribute, trimmed, empty ones left out, in call order. */
  function Keys(ps: seq<Pair>): seq<CardId> {
    if ps == [] then []
    else
      var n := |ps| - 1;
      var id := Text.Trim(ps[n].rawId);
      Keys(ps[..n]) + (if id == [] then [] else [id])
  }

  /** Copies of `x` the pairs ask for, after coercion. */
  function Contribution(ps: seq<Pair>, x: CardId): nat {
    if ps == [] then 0
    else
      var n := |ps| - 1;
      Contribution(ps[..n], x) + (if Text.Trim(ps[n].rawId) == x && x != [] then SafeCount(ps[n].count) else 0)
  }

  /** Copies all the pairs with a non-empty id ask for, after coercion. */
  function TotalContribution(ps: seq<Pair>): nat {
    if ps == [] then 0
    else
      var n := |ps| - 1;
      TotalContribution(ps[..n]) + (if Text.Trim(ps[n].rawId) == [] then 0 else SafeCount(ps[n].count))
  }

  /** Duplicates merge by summation: each id's count is the sum of what its pairs ask for. */
  lemma {:induction false} TallyCounts(ps: seq<Pair>, x: CardId)
    ensures CountOf(Tally(ps), x) == Contribution(ps, x)
  {
    if ps != [] {
      var n := |ps| - 1;
      TallyCounts(ps[..n], x);
      AddedCount(Tally(ps[..n]), ps[n].rawId, ps[n].count, x);
    }
  }

  /** No copy is lost or invented: the section holds as many copies as the pairs ask for. */
  lemma {:induction false} TallySum(ps: seq<Pair>)
    ensures Sum(Tally(ps)) == TotalContribution(ps)
  {
    if ps != [] {
      var n := |ps| - 1;
      TallySum(ps[..n]);
      AddedSum(Tally(ps[..n]), ps[n].rawId, ps[n].count);
    }
  }

  /** The section lists exactly the ids the pairs contribute. */
  lemma {:induction false} TallyIds(ps: seq<Pair>)
    ensures forall x :: x in Ids(Tally(ps)) <==> x in Keys(ps)
  {
    if ps != [] {
      var n := |ps| - 1;
      TallyIds(ps[..n]);
      AddedIds(Tally(ps[..n]), ps[n].rawId, ps[n].count);
    }
  }

  /** The position of the first occurrence of `x`. */
  function FirstIndex(xs: seq<CardId>, x: CardId): (i: nat)
    requires x in xs
    ensures i < |xs| && xs[i] == x
  {
    if xs[0] == x then 0 else FirstIndex(xs[1..], x) + 1
  }

  lemma {:induction false} FirstIndexExtend(xs: seq<CardId>, ys: seq<CardId>, x: CardId)
    requires x in xs
    ensures FirstIndex(xs + ys, x) == FirstIndex(xs, x)
  {
    if xs[0] != x {
      assert (xs + ys)[1..] == xs[1..] + ys;
      FirstIndexExtend(xs[1..], ys, x);
    }
  }

  lemma {:induction false} FirstIndexBeyond(xs: seq<CardId>, x: CardId)
    requires x !in xs
    ensures FirstIndex(xs + [x], x) == |xs|
  {
    if xs != [] {
      assert (xs + [x])[1..] == xs[1..] + [x];
      FirstIndexBeyond(xs[1..], x);
    }
  }

  /** Entries appear in the order of each id's first occurrence among the pairs. */
  lemma TallyFirstOccurrence(ps: seq<Pair>)
    ensures forall x :: x in Ids(Tally(ps)) ==> x in Keys(ps)
    ensures forall i, j :: 0 <= i < j < |Tally(ps)| ==>
      FirstIndex(Keys(ps), Tally(ps)[i].cardId) < FirstIndex(Keys(ps), Tally(ps)[j].cardId)
  {
    TallyIds(ps);
    TallyOrdered(ps);
    var ids := Ids(Tally(ps));
    forall i, j | 0 <= i < j < |Tally(ps)|
      ensures FirstIndex(Keys(ps), Tally(ps)[i].cardId) < FirstIndex(Keys(ps), Tally(ps)[j].cardId)
    {
      assert ids[i] == Tally(ps)[i].cardId && ids[j] == Tally(ps)[j].cardId;
    }
  }

  /** `ids` lists members of `keys` in the order of their first occurrence there. */
  predicate InFirstOrder(ids: seq<CardId>, keys: seq<CardId>) {
    (forall x :: x in ids ==> x in keys) &&
    forall i, j :: 0 <= i < j < |ids| ==> FirstIndex(keys, ids[i]) < FirstIndex(keys, ids[j])
  }

  lemma {:induction false} TallyOrdered(ps: seq<Pair>)
    ensures InFirstOrder(Ids(Tally(ps)), Keys(ps))
  {
    if ps != [] {
      var n := |ps| - 1;
      var prev := Tally(ps[..n]);
      var id := Text.Trim(ps[n].rawId);
      TallyOrdered(ps[..n]);
      TallyIds(ps[..n]);
      AddedIds(prev, ps[n].rawId, ps[n].count);
      var tail := if id == [] then [] else [id];
      assert Keys(ps) == Keys(ps[..n]) + tail;
      if id != [] && id !in Ids(prev) {
        FirstOrderNew(Ids(prev), Keys(ps[..n]), id);
      } else {
        FirstOrderExtend(Ids(prev), Keys(ps[..n]), tail);
      }
    }
  }

  /** More keys after the old ones change no first occurrence. */
  lemma FirstOrderExtend(ids: seq<CardId>, keys: seq<CardId>, tail: seq<CardId>)
    requires InFirstOrder(ids, keys)
    ensures InFirstOrder(ids, keys + tail)
  {
    forall x | x in ids ensures FirstIndex(keys + tail, x) == FirstIndex(keys, x) {
      FirstIndexExtend(keys, tail, x);
    }
    forall i, j | 0 <= i < j < |ids| ensures FirstIndex(keys + tail, ids[i]) < FirstIndex(keys + tail, ids[j]) {
      assert ids[i] in ids && ids[j] in ids;
    }
  }

  /** A new key, listed last, comes after every old one. */
  lemma FirstOrderNew(ids: seq<CardId>, keys: seq<CardId>, id: CardId)
    requires InFirstOrder(ids, keys) && id !in keys
    ensures InFirstOrder(ids + [id], keys + [id])
  {
    FirstOrderExtend(ids, keys, [id]);
    FirstIndexBeyond(keys, id);
    var r := ids + [id];
    forall i, j | 0 <= i < j < |r| ensures FirstIndex(keys + [id], r[i]) < FirstIndex(keys + [id], r[j]) {
      if j < |ids| {
        assert r[i] == ids[i] && r[j] == ids[j];
      } else {
        assert r[i] == ids[i] && ids[i] in keys;
        assert FirstIndex(keys + [id], ids[i]) == FirstIndex(keys, ids[i]) by { FirstIndexExtend(keys, [id], ids[i]); }
      }
    }
  }

  /** The entries of a map, given its keys in insertion order and its totals. */
  function EntriesOf(ids: seq<CardId>, counts: map<CardId, nat>): (es: seq<Entry>)
    requires forall i :: 0 <= i < |ids| ==> ids[i] in counts
    ensures |es| == |ids|
    ensures forall i :: 0 <= i < |ids| ==> es[i] == Entry(ids[i], counts[ids[i]])
  {
    seq(|ids|, i requires 0 <= i < |ids| => Entry(ids[i], counts[ids[i]]))
  }

  lemma IndexOfEntries(ids: seq<CardId>, counts: map<CardId, nat>, id: CardId)
    requires forall i :: 0 <= i < |ids| ==> ids[i] in counts
    requires forall i, j :: 0 <= i < j < |ids| ==> ids[i] != ids[j]
    ensures id in ids ==> forall k :: 0 <= k < |ids| && ids[k] == id ==> IndexOf(EntriesOf(ids, counts), id) == Some(k)
    ensures id !in ids ==> IndexOf(EntriesOf(ids, counts), id) == None
  {
  }

  lemma EntriesOfBump(ids: seq<CardId>, counts: map<CardId, nat>, k: nat, c: nat)
    requires forall i :: 0 <= i < |ids| ==> ids[i] in counts
    requires forall i, j :: 0 <= i < j < |ids| ==> ids[i] != ids[j]
    requires k < |ids|
    ensures var es := EntriesOf(ids, counts);
      EntriesOf(ids, counts[ids[k] := counts[ids[k]] + c]) == es[k := Entry(ids[k], es[k].count + c)]
  {
    var es := EntriesOf(ids, counts);
    var after := EntriesOf(ids, counts[ids[k] := counts[ids[k]] + c]);
    forall i | 0 <= i < |ids| ensures after[i] == es[k := Entry(ids[k], es[k].count + c)][i] {
      if i != k {
        assert ids[i] != ids[k];
      }
    }
  }

  lemma EntriesOfAppend(ids: seq<CardId>, counts: map<CardId, nat>, id: CardId, c: nat)
    requires forall i :: 0 <= i < |ids| ==> ids[i] in counts
    requires id !in ids
    ensures EntriesOf(ids + [id], counts[id := c]) == EntriesOf(ids, counts) + [Entry(id, c)]
  {
    var after := EntriesOf(ids + [id], counts[id := c]);
    forall i | 0 <= i < |ids| ensures after[i] == EntriesOf(ids, counts)[i] {
      assert (ids + [id])[i] == ids[i] != id;
    }
  }

  /** Bumping the total of a key already present is `addEntry`'s first branch. */
  lemma TallyBump(ids: seq<CardId>, counts: map<CardId, nat>, cardId: string, count: Count)
    requires forall i, j :: 0 <= i < j < |ids| ==> ids[i] != ids[j]
    requires forall id :: id in counts <==> id in ids
    requires Text.Trim(cardId) != [] && Text.Trim(cardId) in counts
    ensures EntriesOf(ids, counts[Text.Trim(cardId) := counts[Text.Trim(cardId)] + SafeCount(count)])
         == Added(EntriesOf(ids, counts), cardId, count)
  {
    var id := Text.Trim(cardId);
    var k :| 0 <= k < |ids| && ids[k] == id;
    IndexOfEntries(ids, counts, id);
    AddedFound(EntriesOf(ids, counts), cardId, count);
    EntriesOfBump(ids, counts, k, SafeCount(count));
  }

  /** Appending a fresh key is `addEntry`'s second branch. */
  lemma TallyInsert(ids: seq<CardId>, counts: map<CardId, nat>, cardId: string, count: Count)
    requires forall i, j :: 0 <= i < j < |ids| ==> ids[i] != ids[j]
    requires forall id :: id in counts <==> id in ids
    requires Text.Trim(cardId) != [] && Text.Trim(cardId) !in counts
    ensures var id := Text.Trim(cardId);
      && (forall i, j :: 0 <= i < j < |ids + [id]| ==> (ids + [id])[i] != (ids + [id])[j])
      && (forall x :: x in counts[id := SafeCount(count)] <==> x in ids + [id])
      && EntriesOf(ids + [id], counts[id := SafeCount(count)]) == Added(EntriesOf(ids, counts), cardId, count)
  {
    var id := Text.Trim(cardId);
    IndexOfEntries(ids, counts, id);
    AddedNew(EntriesOf(ids, counts), cardId, count);
    EntriesOfAppend(ids, counts, id, SafeCount(count));
  }

  /** The `Map<CardId, number>` that `addEntry` updates in place. */
  class CardTally {
    var ids: seq<CardId>           // keys, in insertion order
    var counts: map<CardId, nat>   // running total per key

    ghost predicate Valid()
      reads this
    {
      && (forall i, j :: 0 <= i < j < |ids| ==> ids[i] != ids[j])
      && (forall id :: id in counts <==> id in ids)
    }

    /** `Array.from(map.entries()).map(([cardId, count]) => ({ cardId, count }))`. */
    function Entries(): (es: seq<Entry>)
      reads this
      requires Valid()
    {
      EntriesOf(ids, counts)
    }

    constructor ()
      ensures Valid() && Entries() == []
    {
      ids := [];
      counts := map[];
    }

    method AddEntry(cardId: string, count: Count)
      requires Valid()
      modifies this
      ensures Valid()
      ensures Entries() == Added(old(Entries()), cardId, count)
    {
      var id := Text.Trim(cardId);
      if id == [] {
        return;
      }
      if id in counts {
        TallyBump(ids, counts, cardId, count);
        counts := counts[id := counts[id] + SafeCount(count)];
      } else {
        TallyInsert(ids, counts, cardId, count);
        ids := ids + [id];
        counts := counts[id := SafeCount(count)];
      }
    }
  }
}
