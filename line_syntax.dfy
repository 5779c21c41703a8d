/** The lexical side of the line format of the deck importer
    (src/game/deckImporter.ts): `split(/\r?\n/)`, and the regular expressions
    `/^#/`, `/^rune\s+deck/i`, `/^main\s+deck/i` and `/^(\d+)x?\s+(.+)$/i`
    written out as functions, with JavaScript's backtracking resolved. */
module LineSyntax {
  import opened Wrappers
  import opened Text

  // ---- split(/\r?\n/) ----

  /** Where the first `\n` is. */
  function NewlineAt(s: string): (r: Option<nat>)
    ensures r.Some? ==> r.value < |s| && s[r.value] == '\n' && forall j :: 0 <= j < r.value ==> s[j] != '\n'
    ensures r.None? <==> forall j :: 0 <= j < |s| ==> s[j] != '\n'
  {
    if s == [] then None
    else if s[0] == '\n' then Some(0)
    else match NewlineAt(s[1..])
      case None => None
      case Some(k) => Some(k + 1)
  }

  /** A `\r` just before a `\n` belongs to the separator. */
  function DropCR(p: string): (r: string) {
    if p != [] && p[|p| - 1] == '\r' then p[..|p| - 1] else p
  }

  /** `s.split(/\r?\n/)`. */
  function SplitLines(s: string): (r: seq<string>)
    ensures |r| >= 1
    decreases |s|
  {
    match NewlineAt(s)
    case None => [s]
    case Some(i) => [DropCR(s[..i])] + SplitLines(s[i + 1..])
  }

  /** `lines.map((line) => line.trim()).filter(Boolean)`. */
  function TrimmedNonEmpty(ls: seq<string>): (r: seq<string>)
    ensures forall i :: 0 <= i < |r| ==> r[i] != [] && Trim(r[i]) == r[i]
  {
    if ls == [] then []
    else
      var t := Trim(ls[0]);
      TrimIdempotent(ls[0]);
      (if t == [] then [] else [t]) + TrimmedNonEmpty(ls[1..])
  }

  /** One line is kept, trimmed, unless it is blank. */
  lemma TrimmedNonEmptyOne(l: string)
    ensures TrimmedNonEmpty([l]) == if Trim(l) == [] then [] else [Trim(l)]
  {
    assert [l][1..] == [];
  }

  /** The map and filter work line by line, so the kept lines stay in order. */
  lemma {:induction false} TrimmedNonEmptyAppend(a: seq<string>, b: seq<string>)
    ensures TrimmedNonEmpty(a + b) == TrimmedNonEmpty(a) + TrimmedNonEmpty(b)
  {
    if a != [] {
      assert (a + b)[0] == a[0];
      assert (a + b)[1..] == a[1..] + b;
      TrimmedNonEmptyAppend(a[1..], b);
    } else {
      assert a + b == b;
    }
  }

  /** One more line adds its trimmed form at the end, unless it is blank. */
  lemma TrimmedNonEmptySnoc(ls: seq<string>, l: string)
    ensures TrimmedNonEmpty(ls + [l]) == TrimmedNonEmpty(ls) + (if Trim(l) == [] then [] else [Trim(l)])
  {
    TrimmedNonEmptyAppend(ls, [l]);
    TrimmedNonEmptyOne(l);
  }

  lemma TrimIdempotent(s: string)
    ensures Trim(Trim(s)) == Trim(s)
  {
    TrimNoop(Trim(s));
  }

  /** The lines the parser looks at. */
  function Lines(value: string): seq<string> {
    TrimmedNonEmpty(SplitLines(value))
  }

  /** `ls.join("\n")`. */
  function Join(ls: seq<string>): string
    requires ls != []
  {
    if |ls| == 1 then ls[0] else ls[0] + "\n" + Join(ls[1..])
  }

  predicate NoNewline(s: string) {
    forall j :: 0 <= j < |s| ==> s[j] != '\n'
  }

  /** The first `\n` of `a + "\n" + b` is the separator when `a` holds none. */
  lemma {:induction false} NewlineAfter(a: string, b: string)
    requires NoNewline(a)
    ensures NewlineAt(a + "\n" + b) == Some(|a|)
  {
    if a != [] {
      assert (a + "\n" + b)[1..] == a[1..] + "\n" + b;
      NewlineAfter(a[1..], b);
    }
  }

  /** One split step: the piece before the separator, then the rest split. */
  lemma SplitStep(a: string, b: string)
    requires NoNewline(a)
    ensures SplitLines(a + "\n" + b) == [DropCR(a)] + SplitLines(b)
  {
    var s := a + "\n" + b;
    NewlineAfter(a, b);
    assert s[..|a|] == a;
    assert s[|a| + 1..] == b;
  }

  /** Splitting text joined with `\n` gives the pieces back, when none holds a `\n`
      and none but the last ends with `\r`. */
  lemma {:induction false} SplitJoin(ls: seq<string>)
    requires ls != []
    requires forall i :: 0 <= i < |ls| ==> NoNewline(ls[i])
    requires forall i :: 0 <= i < |ls| - 1 ==> ls[i] == [] || ls[i][|ls[i]| - 1] != '\r'
    ensures SplitLines(Join(ls)) == ls
  {
    if |ls| == 1 {
      assert NoNewline(ls[0]);
    } else {
      SplitStep(ls[0], Join(ls[1..]));
      SplitJoin(ls[1..]);
      assert ls == [ls[0]] + ls[1..];
    }
  }

  /** Joined text starts where its first piece starts and ends where its last piece ends. */
  lemma {:induction false} JoinEnds(ls: seq<string>)
    requires ls != [] && forall i :: 0 <= i < |ls| ==> ls[i] != []
    ensures Join(ls) != []
    ensures Join(ls)[0] == ls[0][0]
    ensures Join(ls)[|Join(ls)| - 1] == ls[|ls| - 1][|ls[|ls| - 1]| - 1]
  {
    if |ls| > 1 {
      JoinEnds(ls[1..]);
    }
  }

  /** Lines already trimmed and non-empty are all kept. */
  lemma {:induction false} TrimmedKept(ls: seq<string>)
    requires forall i :: 0 <= i < |ls| ==> ls[i] != [] && Trim(ls[i]) == ls[i]
    ensures TrimmedNonEmpty(ls) == ls
  {
    if ls != [] {
      TrimmedKept(ls[1..]);
    }
  }

  // ---- Runs of characters, as greedy quantifiers consume them ----

  /** Length of the longest prefix of decimal digits (`\d+` is greedy). */
  function DigitRun(s: string): (n: nat)
    ensures n <= |s| && AllDigits(s[..n])
    ensures n < |s| ==> !IsDigit(s[n])
  {
    if s != [] && IsDigit(s[0]) then
      var k := DigitRun(s[1..]);
      assert s[..k + 1] == [s[0]] + s[1..][..k];
      k + 1
    else 0
  }

  /** Length of the longest prefix of white space (`\s+` is greedy). */
  function SpaceRun(s: string): (n: nat)
    ensures n <= |s| && AllSpace(s[..n])
    ensures n < |s| ==> !IsSpace(s[n])
  {
    if s != [] && IsSpace(s[0]) then
      var k := SpaceRun(s[1..]);
      assert s[..k + 1] == [s[0]] + s[1..][..k];
      k + 1
    else 0
  }

  lemma {:induction false} DigitRunOf(a: string, b: string)
    requires AllDigits(a)
    requires b == [] || !IsDigit(b[0])
    ensures DigitRun(a + b) == |a|
  {
    if a != [] {
      assert (a + b)[1..] == a[1..] + b;
      DigitRunOf(a[1..], b);
    } else {
      assert a + b == b;
    }
  }

  lemma {:induction false} SpaceRunOf(a: string, b: string)
    requires AllSpace(a)
    requires b == [] || !IsSpace(b[0])
    ensures SpaceRun(a + b) == |a|
  {
    if a != [] {
      assert (a + b)[1..] == a[1..] + b;
      SpaceRunOf(a[1..], b);
    } else {
      assert a + b == b;
    }
  }

  // ---- The header and comment expressions ----

  function LowerAscii(c: char): char {
    if 'A' <= c <= 'Z' then (c as int + 32) as char else c
  }

  /** Case-insensitive prefix test against a lower-case ASCII word, as `/i` does
      (no character outside ASCII folds onto an ASCII letter without the `u` flag). */
  predicate StartsWithWord(s: string, word: string) {
    |word| <= |s| && forall i :: 0 <= i < |word| ==> LowerAscii(s[i]) == word[i]
  }

  /** `/^<word>\s+deck/i`: the word, white space, then `deck`, anything after. */
  predicate IsHeader(line: string, word: string) {
    StartsWithWord(line, word)
    && var rest := line[|word|..];
       var w := SpaceRun(rest);
       w >= 1 && StartsWithWord(rest[w..], "deck")
  }

  /** `/^#/`. */
  predicate IsComment(line: string) {
    line != [] && line[0] == '#'
  }

  // ---- /^(\d+)x?\s+(.+)$/i ----

  predicate NoLineTerminator(s: string) {
    forall j :: 0 <= j < |s| ==> !IsLineTerminator(s[j])
  }

  /** `x?` on what follows the digits: it takes an `x` or `X` when there is one. */
  function XLength(rest: string): (n: nat)
    ensures n <= |rest|
  {
    if rest != [] && LowerAscii(rest[0]) == 'x' then 1 else 0
  }

  /** `\s+(.+)$` on what follows `x?`: `\s+` takes all the white space, unless
      nothing is left for `.+`; it gives back its last character then. */
  function SpaceThenRest(after: string): Option<string> {
    var w := SpaceRun(after);
    if w == 0 then None
    else
      var tail := after[w..];
      if tail != [] then (if NoLineTerminator(tail) then Some(tail) else None)
      else if w >= 2 && !IsLineTerminator(after[w - 1]) then Some([after[w - 1]])
      else None
  }

  /** The two groups of `/^(\d+)x?\s+(.+)$/i` on `line`, or `None` when it does not match.
      `\d+` must take every leading digit and `x?` the `x` when there is one, since
      `\s+` cannot start on a digit or an `x`. */
  function CardLineMatch(line: string): (r: Option<(string, string)>)
  {
    var d := DigitRun(line);
    if d == 0 then None
    else
      var rest := line[d..];
      match SpaceThenRest(rest[XLength(rest)..])
      case None => None
      case Some(id) => Some((line[..d], id))
  }

  predicate IsSpaceSplit(after: string, space: string, id: string) {
    && after == space + id
    && space != [] && AllSpace(space)
    && id != [] && NoLineTerminator(id)
  }

  /** The shape the expression describes: digits, an optional `x`, white space, and
      at least one character that is not a line terminator, up to the end. */
  predicate IsCardLineSplit(line: string, digits: string, x: string, space: string, id: string) {
    && line == digits + x + space + id
    && digits != [] && AllDigits(digits)
    && (x == [] || x == "x" || x == "X")
    && IsSpaceSplit(space + id, space, id)
  }

  lemma SpaceThenRestSound(after: string)
    requires SpaceThenRest(after).Some?
    ensures exists space :: IsSpaceSplit(after, space, SpaceThenRest(after).value)
  {
    var w := SpaceRun(after);
    var tail := after[w..];
    if tail != [] {
      assert after == after[..w] + tail;
      assert IsSpaceSplit(after, after[..w], tail);
    } else {
      var space := after[..w - 1];
      assert after == space + [after[w - 1]];
      forall j | 0 <= j < w - 1 ensures IsSpace(space[j]) {
        assert space[j] == after[..w][j];
      }
      assert IsSpaceSplit(after, space, [after[w - 1]]);
    }
  }

  lemma SpaceThenRestComplete(space: string, id: string)
    requires IsSpaceSplit(space + id, space, id)
    ensures SpaceThenRest(space + id).Some?
  {
    var after := space + id;
    assert after[..|space|] == space;
    SpaceRunAtLeast(after, |space|);
    var w := SpaceRun(after);
    var tail := after[w..];
    if tail != [] {
      forall j | 0 <= j < |tail| ensures !IsLineTerminator(tail[j]) {
        assert tail[j] == id[w - |space| + j];
      }
    } else {
      assert after[w - 1] == id[|id| - 1];
    }
  }

  /** Group 1 is a non-empty run of digits. */
  lemma CardLineDigits(line: string)
    requires CardLineMatch(line).Some?
    ensures CardLineMatch(line).value.0 != [] && AllDigits(CardLineMatch(line).value.0)
  {
  }

  /** Soundness: every match splits the line as the expression describes. */
  lemma CardLineSound(line: string)
    requires CardLineMatch(line).Some?
    ensures var (digits, id) := CardLineMatch(line).value;
      exists x, space :: IsCardLineSplit(line, digits, x, space, id)
  {
    var d := DigitRun(line);
    var rest := line[d..];
    var xn := XLength(rest);
    var after := rest[xn..];
    SpaceThenRestSound(after);
    var id := SpaceThenRest(after).value;
    var space :| IsSpaceSplit(after, space, id);
    assert line == line[..d] + rest[..xn] + space + id;
    assert rest[..xn] == [] || rest[..xn] == "x" || rest[..xn] == "X";
    assert IsCardLineSplit(line, line[..d], rest[..xn], space, id);
  }

  /** Once the digits and the `x` are past, the match is decided by `\s+(.+)$` alone. */
  lemma CardLineShape(line: string, digits: string, x: string, after: string)
    requires line == digits + x + after
    requires digits != [] && AllDigits(digits)
    requires x == [] || x == "x" || x == "X"
    requires after != [] && IsSpace(after[0])
    ensures CardLineMatch(line) == (if SpaceThenRest(after).Some? then Some((digits, SpaceThenRest(after).value)) else None)
  {
    assert line == digits + (x + after);
    DigitRunOf(digits, x + after);
    var rest := line[|digits|..];
    assert rest == x + after;
    assert XLength(rest) == |x|;
    assert rest[|x|..] == after;
  }

  /** Completeness: a line of that shape always matches, and group 1 is its digits. */
  lemma CardLineComplete(line: string, digits: string, x: string, space: string, id: string)
    requires IsCardLineSplit(line, digits, x, space, id)
    ensures CardLineMatch(line).Some?
    ensures CardLineMatch(line).value.0 == digits
  {
    CardLineShape(line, digits, x, space + id);
    SpaceThenRestComplete(space, id);
  }

  /** When the id does not start with white space, group 2 is exactly the id. */
  lemma CardLineExact(line: string, digits: string, x: string, space: string, id: string)
    requires IsCardLineSplit(line, digits, x, space, id)
    requires !IsSpace(id[0])
    ensures CardLineMatch(line) == Some((digits, id))
  {
    CardLineShape(line, digits, x, space + id);
    SpaceRunOf(space, id);
    assert (space + id)[|space|..] == id;
  }

  lemma {:induction false} SpaceRunAtLeast(s: string, k: nat)
    requires k <= |s| && AllSpace(s[..k])
    ensures SpaceRun(s) >= k
  {
    if k > 0 {
      assert IsSpace(s[..k][0]);
      assert s[1..][..k - 1] == s[..k][1..];
      SpaceRunAtLeast(s[1..], k - 1);
    }
  }

  /** A trimmed line that matches yields a trimmed, non-empty card id. */
  lemma CardLineIdTrimmed(line: string)
    requires Trim(line) == line
    requires CardLineMatch(line).Some?
    ensures var id := CardLineMatch(line).value.1;
      id != [] && Trim(id) == id
  {
    var d := DigitRun(line);
    var rest := line[d..];
    var after := rest[XLength(rest)..];
    var w := SpaceRun(after);
    var tail := after[w..];
    assert line != [];
    assert line[|line| - 1] == after[|after| - 1];
    assert tail != [];
    assert tail[|tail| - 1] == line[|line| - 1];
    TrimNoop(tail);
  }
}
