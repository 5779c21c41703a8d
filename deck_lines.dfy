/** `parseFromLines` (src/game/deckImporter.ts): a plain-text deck list, one
    `N[x] id` line per card, with optional `Main Deck` / `Rune Deck` headers. */
module DeckLines {
  import opened Wrappers
  import opened Text
  import opened LineSyntax
  import opened DeckEntries
  import opened DeckSections

  datatype Section = MainSection | RuneSection

  /** What the parser makes of one trimmed line, classified in the order it checks them. */
  datatype LineKind =
    | Comment
    | RuneHeader
    | MainHeader
    | CardLine(count: nat, cardId: string)
    | Unmatched

  function Classify(line: string): LineKind {
    if IsComment(line) then Comment
    else if IsHeader(line, "rune") then RuneHeader
    else if IsHeader(line, "main") then MainHeader
    else match CardLineMatch(line)
      case None => Unmatched
      case Some((digits, id)) =>
        CardLineDigits(line);
        CardLine(ParseDigits(digits), id)
  }

  /** The kind of every line, in order. */
  function Kinds(lines: seq<string>): (ks: seq<LineKind>)
    ensures |ks| == |lines| && forall i :: 0 <= i < |lines| ==> ks[i] == Classify(lines[i])
  {
    seq(|lines|, i requires 0 <= i < |lines| => Classify(lines[i]))
  }

  /** The loop's variables: `section`, `parsedAny`, and the calls made on each map. */
  datatype ScanState = ScanState(section: Section, parsedAny: bool, main: seq<Pair>, rune: seq<Pair>)

  const Start := ScanState(MainSection, false, [], [])

  /** One iteration of `lines.forEach`, on a line of the given kind. */
  function Step(st: ScanState, kind: LineKind): ScanState {
    match kind
    case Comment => st
    case Unmatched => st
    case RuneHeader => st.(section := RuneSection)
    case MainHeader => st.(section := MainSection)
    case CardLine(n, id) =>
      if st.section == RuneSection then st.(parsedAny := true, rune := st.rune + [Pair(id, Some(n))])
      else st.(parsedAny := true, main := st.main + [Pair(id, Some(n))])
  }

  function Run(st: ScanState, ks: seq<LineKind>): ScanState {
    if ks == [] then st
    else
      var n := |ks| - 1;
      Step(Run(st, ks[..n]), ks[n])
  }

  lemma RunStep(st: ScanState, ks: seq<LineKind>, i: nat)
    requires i < |ks|
    ensures Run(st, ks[..i + 1]) == Step(Run(st, ks[..i]), ks[i])
  {
    assert ks[..i + 1][..i] == ks[..i];
  }

  /** What `parseFromLines(value)` returns; `None` is its `null`. */
  function LinesDeck(value: string): Option<ImportedDeck> {
    var lines := Lines(value);
    if lines == [] then None
    else
      var st := Run(Start, Kinds(lines));
      if !st.parsedAny then None
      else Some(ImportedDeck(None, Tally(st.main), Tally(st.rune)))
  }

  /** The body of the `forEach` callback, on a line already classified: the
      new `section` and `parsedAny`, with the entry added to the current map. */
  method ScanLine(kind: LineKind, main: CardTally, rune: CardTally, section: Section, parsedAny: bool,
                  ghost before: ScanState)
    returns (section': Section, parsedAny': bool)
    requires main != rune && main.Valid() && rune.Valid()
    requires section == before.section && parsedAny == before.parsedAny
    requires main.Entries() == Tally(before.main) && rune.Entries() == Tally(before.rune)
    modifies main, rune
    ensures main.Valid() && rune.Valid()
    ensures section' == Step(before, kind).section && parsedAny' == Step(before, kind).parsedAny
    ensures main.Entries() == Tally(Step(before, kind).main)
    ensures rune.Entries() == Tally(Step(before, kind).rune)
  {
    section', parsedAny' := section, parsedAny;
    match kind {
      case Comment =>
      case Unmatched =>
      case RuneHeader =>
        section' := RuneSection;
      case MainHeader =>
        section' := MainSection;
      case CardLine(count, cardId) =>
        parsedAny' := true;
        if section == RuneSection {
          rune.AddEntry(cardId, Some(count));
          TallySnoc(before.rune, Pair(cardId, Some(count)));
        } else {
          main.AddEntry(cardId, Some(count));
          TallySnoc(before.main, Pair(cardId, Some(count)));
        }
    }
  }

  method ParseFromLines(value: string) returns (r: Option<ImportedDeck>)
    ensures r == LinesDeck(value)
  {
    var lines := Lines(value);
    if |lines| == 0 {
      return None;
    }
    ghost var ks := Kinds(lines);
    var main := new CardTally();
    var rune := new CardTally();
    var section := MainSection;
    var parsedAny := false;
    var i := 0;
    while i < |lines|
      invariant 0 <= i <= |lines|
      invariant main != rune
      invariant main.Valid() && rune.Valid()
      invariant section == Run(Start, ks[..i]).section
      invariant parsedAny == Run(Start, ks[..i]).parsedAny
      invariant main.Entries() == Tally(Run(Start, ks[..i]).main)
      invariant rune.Entries() == Tally(Run(Start, ks[..i]).rune)
    {
      RunStep(Start, ks, i);
      section, parsedAny := ScanLine(Classify(lines[i]), main, rune, section, parsedAny, Run(Start, ks[..i]));
      i := i + 1;
    }
    assert ks[..i] == ks;
    r := Some(ImportedDeck(None, main.Entries(), rune.Entries()));
    if !parsedAny {
      r := None;
    }
  }

  // ---- Which lines matter ----

  lemma {:induction false} RunParsedAny(st: ScanState, ks: seq<LineKind>)
    ensures Run(st, ks).parsedAny <==> st.parsedAny || exists i :: 0 <= i < |ks| && ks[i].CardLine?
  {
    if ks != [] {
      var n := |ks| - 1;
      RunParsedAny(st, ks[..n]);
      assert forall i :: 0 <= i < n ==> ks[..n][i] == ks[i];
    }
  }

  /** There is a deck exactly when some line is a card line, and it never has a name. */
  lemma LinesDeckNone(value: string)
    ensures LinesDeck(value).None? <==>
      forall i :: 0 <= i < |Lines(value)| ==> !Classify(Lines(value)[i]).CardLine?
    ensures LinesDeck(value).Some? ==> LinesDeck(value).value.name.None?
  {
    var ks := Kinds(Lines(value));
    RunParsedAny(Start, ks);
  }

  /** Comments and lines that match nothing. */
  predicate Ignored(k: LineKind) {
    k == Comment || k == Unmatched
  }

  function WithoutIgnored(ks: seq<LineKind>): seq<LineKind> {
    if ks == [] then []
    else
      var n := |ks| - 1;
      WithoutIgnored(ks[..n]) + (if Ignored(ks[n]) then [] else [ks[n]])
  }

  /** `#` lines and lines that are neither headers nor card lines change nothing. */
  lemma {:induction false} IgnoredLines(st: ScanState, ks: seq<LineKind>)
    ensures Run(st, WithoutIgnored(ks)) == Run(st, ks)
  {
    if ks != [] {
      var n := |ks| - 1;
      IgnoredLines(st, ks[..n]);
      var kept := WithoutIgnored(ks[..n]);
      if !Ignored(ks[n]) {
        assert (kept + [ks[n]])[..|kept|] == kept;
      } else {
        assert kept + [] == kept;
      }
    }
  }

  /** The `addEntry` calls the card lines make, in order. */
  function CardPairs(ks: seq<LineKind>): seq<Pair> {
    if ks == [] then []
    else
      var n := |ks| - 1;
      CardPairs(ks[..n]) + (if ks[n].CardLine? then [Pair(ks[n].cardId, Some(ks[n].count))] else [])
  }

  /** Without a `rune deck` header every card goes to the main deck, where the parser starts. */
  lemma {:induction false} NoRuneHeader(ks: seq<LineKind>)
    requires forall i :: 0 <= i < |ks| ==> ks[i] != RuneHeader
    ensures Run(Start, ks).section == MainSection
    ensures Run(Start, ks).main == CardPairs(ks)
    ensures Run(Start, ks).rune == []
  {
    if ks != [] {
      var n := |ks| - 1;
      NoRuneHeader(ks[..n]);
    }
  }

  /** Copies a line asks for: a card line its count, or 1 for a count of 0. */
  function KindCopies(k: LineKind): nat {
    if k.CardLine? then (if k.count > 0 then k.count else 1) else 0
  }

  function Copies(ks: seq<LineKind>): nat {
    if ks == [] then 0
    else
      var n := |ks| - 1;
      Copies(ks[..n]) + KindCopies(ks[n])
  }

  lemma ContributionSnoc(ps: seq<Pair>, p: Pair)
    ensures TotalContribution(ps + [p]) == TotalContribution(ps) + (if Trim(p.rawId) == [] then 0 else SafeCount(p.count))
  {
    assert (ps + [p])[..|ps|] == ps;
  }

  /** A card line with a trimmed, non-empty id. */
  predicate TrimmedId(k: LineKind) {
    k.CardLine? ==> k.cardId != [] && Trim(k.cardId) == k.cardId
  }

  predicate TrimmedIds(ks: seq<LineKind>) {
    forall i :: 0 <= i < |ks| ==> TrimmedId(ks[i])
  }

  lemma StepCopies(st: ScanState, k: LineKind)
    requires TrimmedId(k)
    ensures TotalContribution(Step(st, k).main) + TotalContribution(Step(st, k).rune)
         == TotalContribution(st.main) + TotalContribution(st.rune) + KindCopies(k)
  {
    if k.CardLine? {
      ContributionSnoc(st.main, Pair(k.cardId, Some(k.count)));
      ContributionSnoc(st.rune, Pair(k.cardId, Some(k.count)));
    }
  }

  lemma {:induction false} RunCopies(st: ScanState, ks: seq<LineKind>)
    requires TrimmedIds(ks)
    ensures TotalContribution(Run(st, ks).main) + TotalContribution(Run(st, ks).rune)
         == TotalContribution(st.main) + TotalContribution(st.rune) + Copies(ks)
  {
    if ks != [] {
      var n := |ks| - 1;
      assert TrimmedIds(ks[..n]) by {
        forall i | 0 <= i < n ensures TrimmedId(ks[..n][i]) {
          assert ks[..n][i] == ks[i];
        }
      }
      RunCopies(st, ks[..n]);
      assert TrimmedId(ks[n]);
      StepCopies(Run(st, ks[..n]), ks[n]);
    }
  }

  /** Card ids read from trimmed lines are trimmed and non-empty. */
  lemma LinesTrimmedIds(lines: seq<string>)
    requires forall i :: 0 <= i < |lines| ==> Trim(lines[i]) == lines[i]
    ensures TrimmedIds(Kinds(lines))
  {
    var ks := Kinds(lines);
    forall i | 0 <= i < |ks| ensures TrimmedId(ks[i]) {
      if ks[i].CardLine? {
        CardLineIdTrimmed(lines[i]);
      }
    }
  }

  /** Only card lines add copies: as many as they ask for, a count of 0 adding 1. */
  lemma LinesCopies(value: string)
    requires LinesDeck(value).Some?
    ensures Sum(LinesDeck(value).value.mainDeck) + Sum(LinesDeck(value).value.runeDeck)
         == Copies(Kinds(Lines(value)))
  {
    var ks := Kinds(Lines(value));
    LinesTrimmedIds(Lines(value));
    RunCopies(Start, ks);
    TallySum(Run(Start, ks).main);
    TallySum(Run(Start, ks).rune);
  }

  // ---- A printed deck list is read back unchanged ----

  function PrintEntry(e: Entry): string {
    NatToString(e.count) + " " + e.cardId
  }

  function PrintSection(es: seq<Entry>): (r: seq<string>)
    ensures |r| == |es| && forall i :: 0 <= i < |es| ==> r[i] == PrintEntry(es[i])
  {
    seq(|es|, i requires 0 <= i < |es| => PrintEntry(es[i]))
  }

  /** `N id` per main-deck entry, then `Rune Deck` and `N id` per rune-deck entry. */
  function PrintDeck(d: ImportedDeck): seq<string> {
    PrintSection(d.mainDeck) + (if d.runeDeck == [] then [] else ["Rune Deck"] + PrintSection(d.runeDeck))
  }

  /** A section the line format can carry: canonical, no id spanning lines. */
  predicate Printable(es: seq<Entry>) {
    Canonical(es) && forall i :: 0 <= i < |es| ==> NoLineTerminator(es[i].cardId)
  }

  predicate PlainLine(l: string) {
    l != [] && Trim(l) == l && NoNewline(l) && l[|l| - 1] != '\r'
  }

  lemma PrintedEntryShape(e: Entry)
    requires e.cardId != [] && Trim(e.cardId) == e.cardId && NoLineTerminator(e.cardId)
    ensures PlainLine(PrintEntry(e))
  {
    var digits := NatToString(e.count);
    var line := PrintEntry(e);
    assert line[0] == digits[0] && IsDigit(line[0]);
    assert line[|line| - 1] == e.cardId[|e.cardId| - 1];
    TrimNoop(line);
    assert NoNewline(line) by {
      forall j | 0 <= j < |line| ensures line[j] != '\n' {
        if j > |digits| { assert line[j] == e.cardId[j - |digits| - 1]; }
      }
    }
  }

  lemma PrintedEntryKind(e: Entry)
    requires e.cardId != [] && Trim(e.cardId) == e.cardId && NoLineTerminator(e.cardId)
    ensures Classify(PrintEntry(e)) == CardLine(e.count, e.cardId)
  {
    var digits := NatToString(e.count);
    var line := PrintEntry(e);
    assert line == digits + [] + " " + e.cardId;
    assert line[0] == digits[0] && IsDigit(line[0]);
    assert !StartsWithWord(line, "rune") && !StartsWithWord(line, "main");
    CardLineExact(line, digits, [], " ", e.cardId);
    ParseNatToString(e.count);
  }

  lemma RuneHeaderLine()
    ensures Classify("Rune Deck") == RuneHeader
    ensures PlainLine("Rune Deck")
  {
    var rest := "Rune Deck"[4..];
    assert rest == " Deck";
    assert SpaceRun(rest) == 1 by { SpaceRunOf(" ", "Deck"); assert " " + "Deck" == rest; }
    assert rest[1..] == "Deck";
    assert StartsWithWord("Rune Deck", "rune");
    TrimNoop("Rune Deck");
  }

  /** The kind of each line of a printed section. */
  function CardKinds(es: seq<Entry>): (ks: seq<LineKind>)
    ensures |ks| == |es| && forall i :: 0 <= i < |es| ==> ks[i] == CardLine(es[i].count, es[i].cardId)
  {
    seq(|es|, i requires 0 <= i < |es| => CardLine(es[i].count, es[i].cardId))
  }

  lemma SectionKinds(es: seq<Entry>)
    requires Printable(es)
    ensures Kinds(PrintSection(es)) == CardKinds(es)
  {
    forall i | 0 <= i < |es| ensures Classify(PrintSection(es)[i]) == CardLine(es[i].count, es[i].cardId) {
      PrintedEntryKind(es[i]);
    }
  }

  lemma SectionPlain(es: seq<Entry>)
    requires Printable(es)
    ensures forall l :: l in PrintSection(es) ==> PlainLine(l)
  {
    forall i | 0 <= i < |es| ensures PlainLine(PrintSection(es)[i]) {
      PrintedEntryShape(es[i]);
    }
  }

  lemma KindsAppend(a: seq<string>, b: seq<string>)
    ensures Kinds(a + b) == Kinds(a) + Kinds(b)
  {
  }

  lemma {:induction false} RunAppend(st: ScanState, xs: seq<LineKind>, ys: seq<LineKind>)
    ensures Run(st, xs + ys) == Run(Run(st, xs), ys)
  {
    if ys == [] {
      assert xs + ys == xs;
    } else {
      var n := |ys| - 1;
      RunAppend(st, xs, ys[..n]);
      assert (xs + ys)[..|xs| + n] == xs + ys[..n];
    }
  }

  /** The lines of a printed section add its entries, in order, to the current section. */
  lemma {:induction false} RunCards(st: ScanState, es: seq<Entry>)
    ensures var r := Run(st, CardKinds(es));
      && r.section == st.section
      && r.parsedAny == (st.parsedAny || es != [])
      && (st.section == RuneSection ==> r.main == st.main && r.rune == st.rune + EntryPairs(es))
      && (st.section == MainSection ==> r.rune == st.rune && r.main == st.main + EntryPairs(es))
  {
    if es != [] {
      var n := |es| - 1;
      RunCards(st, es[..n]);
      assert CardKinds(es)[..n] == CardKinds(es[..n]);
      assert EntryPairs(es) == EntryPairs(es[..n]) + [Pair(es[n].cardId, Some(es[n].count))];
    } else {
      assert EntryPairs(es) == [];
    }
  }

  /** The kinds of the lines of a printed deck. */
  function DeckKinds(d: ImportedDeck): seq<LineKind> {
    CardKinds(d.mainDeck) + (if d.runeDeck == [] then [] else [RuneHeader] + CardKinds(d.runeDeck))
  }

  lemma PrintedPlain(d: ImportedDeck)
    requires Printable(d.mainDeck) && Printable(d.runeDeck)
    ensures forall l :: l in PrintDeck(d) ==> PlainLine(l)
  {
    SectionPlain(d.mainDeck);
    SectionPlain(d.runeDeck);
    RuneHeaderLine();
  }

  lemma PrintedKinds(d: ImportedDeck)
    requires Printable(d.mainDeck) && Printable(d.runeDeck)
    ensures Kinds(PrintDeck(d)) == DeckKinds(d)
  {
    var ms := PrintSection(d.mainDeck);
    var rs := PrintSection(d.runeDeck);
    SectionKinds(d.mainDeck);
    SectionKinds(d.runeDeck);
    if d.runeDeck != [] {
      RuneHeaderLine();
      assert Kinds(["Rune Deck"]) == [RuneHeader];
      KindsAppend(["Rune Deck"], rs);
      KindsAppend(ms, ["Rune Deck"] + rs);
    } else {
      assert PrintDeck(d) == ms;
      assert DeckKinds(d) == CardKinds(d.mainDeck);
    }
  }

  lemma PrintedLines(d: ImportedDeck)
    requires Printable(d.mainDeck) && Printable(d.runeDeck)
    requires d.mainDeck != [] || d.runeDeck != []
    ensures PrintDeck(d) != []
    ensures Lines(Join(PrintDeck(d))) == PrintDeck(d)
    ensures Kinds(PrintDeck(d)) == DeckKinds(d)
  {
    var ls := PrintDeck(d);
    assert |ls| >= |d.mainDeck| + |d.runeDeck|;
    PrintedPlain(d);
    assert forall i :: 0 <= i < |ls| ==> PlainLine(ls[i]) by {
      forall i | 0 <= i < |ls| ensures PlainLine(ls[i]) {
        assert ls[i] in ls;
      }
    }
    PrintedKinds(d);
    SplitJoin(ls);
    TrimmedKept(ls);
  }

  /** Reading the kinds of a printed deck adds the main entries, then the rune entries. */
  lemma RunDeck(d: ImportedDeck)
    ensures var r := Run(Start, DeckKinds(d));
      && r.parsedAny == (d.mainDeck != [] || d.runeDeck != [])
      && r.main == EntryPairs(d.mainDeck) && r.rune == EntryPairs(d.runeDeck)
  {
    var mk := CardKinds(d.mainDeck);
    RunCards(Start, d.mainDeck);
    var afterMain := Run(Start, mk);
    if d.runeDeck != [] {
      var rk := CardKinds(d.runeDeck);
      assert DeckKinds(d) == (mk + [RuneHeader]) + rk;
      RunAppend(Start, mk + [RuneHeader], rk);
      RunAppend(Start, mk, [RuneHeader]);
      assert Run(afterMain, [RuneHeader]) == afterMain.(section := RuneSection) by {
        assert [RuneHeader][..0] == [];
      }
      RunCards(afterMain.(section := RuneSection), d.runeDeck);
    } else {
      assert DeckKinds(d) == mk;
      assert EntryPairs(d.runeDeck) == [];
    }
  }

  /** A deck printed as a list, one `N id` line per entry, is read back unchanged. */
  lemma LinesRoundTrip(d: ImportedDeck)
    requires d.name.None?
    requires Printable(d.mainDeck) && Printable(d.runeDeck)
    requires d.mainDeck != [] || d.runeDeck != []
    ensures PrintDeck(d) != [] && LinesDeck(Join(PrintDeck(d))) == Some(d)
  {
    PrintedLines(d);
    RunDeck(d);
    TallyCanonical(d.mainDeck);
    TallyCanonical(d.runeDeck);
  }
}
