/** The string logic of the card-art download script (scripts/pull-card-art.mjs):
    which image URLs count as card art, the URL stored without its query, and
    the collision-free file names handed out while downloading. */
module CardArt {
  import opened Text

  /** `isCardLike(url)`. */
  predicate IsCardLike(url: string) {
    Contains(url, "card") || Contains(url, "art") || Contains(url, "card-gallery")
  }

  /** The `card-gallery` test adds nothing: a URL is card-like exactly when it
      contains `card` or `art`. */
  lemma CardGalleryRedundant(url: string)
    ensures IsCardLike(url) <==> Contains(url, "card") || Contains(url, "art")
  {
    if Contains(url, "card-gallery") {
      ContainsPrefix(url, "card-gallery", "card");
    }
  }

  /** `url.split("?")[0]`: the URL up to its first `?`. */
  function StripQuery(url: string): (r: string)
    ensures StartsWith(url, r)
    ensures forall i :: 0 <= i < |r| ==> r[i] != '?'
    ensures |r| < |url| ==> url[|r|] == '?'
  {
    if url == [] || url[0] == '?' then []
    else [url[0]] + StripQuery(url[1..])
  }

  /** A stored URL holds no query, and stripping again changes nothing. */
  lemma StripQueryIdempotent(url: string)
    ensures StripQuery(StripQuery(url)) == StripQuery(url)
  {
    var r := StripQuery(url);
    QueryFree(r);
  }

  lemma {:induction false} QueryFree(s: string)
    requires forall i :: 0 <= i < |s| ==> s[i] != '?'
    ensures StripQuery(s) == s
  {
    if s != [] {
      QueryFree(s[1..]);
    }
  }

  // ---- sanitizeFilename ----

  /** `${name}-${counter}${extension}`. */
  function Candidate(name: string, ext: string, k: nat): string {
    name + "-" + NatToString(k) + ext
  }

  /** Different counters give different candidates. */
  lemma CandidateInjective(name: string, ext: string, a: nat, b: nat)
    requires Candidate(name, ext, a) == Candidate(name, ext, b)
    ensures a == b
  {
    var x := Candidate(name, ext, a);
    var da := NatToString(a);
    var db := NatToString(b);
    var lo := |name| + 1;
    assert |da| == |db|;
    assert da == x[lo..lo + |da|];
    assert db == x[lo..lo + |db|];
    NatToStringInjective(a, b);
  }

  function CandidatesUpTo(name: string, ext: string, k: nat): (c: set<string>)
    ensures forall j :: 1 <= j <= k ==> Candidate(name, ext, j) in c
  {
    set j | 1 <= j <= k :: Candidate(name, ext, j)
  }

  lemma {:induction false} CandidatesCount(name: string, ext: string, k: nat)
    ensures |CandidatesUpTo(name, ext, k)| == k
  {
    if k > 0 {
      CandidatesCount(name, ext, k - 1);
      var c := Candidate(name, ext, k);
      assert CandidatesUpTo(name, ext, k) == CandidatesUpTo(name, ext, k - 1) + {c};
      if c in CandidatesUpTo(name, ext, k - 1) {
        var j :| 1 <= j <= k - 1 && Candidate(name, ext, j) == c;
        CandidateInjective(name, ext, j, k);
      }
    }
  }

  /** At most `|seen|` candidates can be taken: the search for a free one ends. */
  lemma CandidatesBound(seen: set<string>, name: string, ext: string, k: nat)
    requires forall j :: 1 <= j <= k ==> Candidate(name, ext, j) in seen
    ensures k <= |seen|
  {
    CandidatesCount(name, ext, k);
    assert CandidatesUpTo(name, ext, k) <= seen;
    SubsetCard(CandidatesUpTo(name, ext, k), seen);
  }

  lemma {:induction false} SubsetCard(a: set<string>, b: set<string>)
    requires a <= b
    ensures |a| <= |b|
    decreases |a|
  {
    if a != {} {
      var x :| x in a;
      SubsetCard(a - {x}, b - {x});
    }
  }

  /** The first candidate from counter `k` on that is not taken. */
  function FirstFree(seen: set<string>, name: string, ext: string, k: nat): (r: nat)
    requires k >= 1 && forall j :: 1 <= j < k ==> Candidate(name, ext, j) in seen
    ensures r >= k && Candidate(name, ext, r) !in seen
    ensures forall j :: 1 <= j < r ==> Candidate(name, ext, j) in seen
    decreases |seen| + 1 - k
  {
    if Candidate(name, ext, k) !in seen then k
    else
      CandidatesBound(seen, name, ext, k);
      FirstFree(seen, name, ext, k + 1)
  }

  /** The name `sanitizeFilename` hands out when `seen` holds the names taken:
      the base name when it is free, otherwise the candidate with the smallest
      free counter. */
  function FileName(seen: set<string>, name: string, ext: string): (r: string)
    ensures r !in seen
    ensures name + ext !in seen ==> r == name + ext
    ensures name + ext in seen ==>
      exists k :: k >= 1 && r == Candidate(name, ext, k) && (forall j :: 1 <= j < k ==> Candidate(name, ext, j) in seen)
  {
    if name + ext !in seen then name + ext
    else Candidate(name, ext, FirstFree(seen, name, ext, 1))
  }

  /** The `seen` set shared by the downloads of one run. */
  class FileNameRegistry {
    var seen: set<string>

    constructor()
      ensures seen == {}
    {
      seen := {};
    }

    /** `sanitizeFilename(url, seen)` on the base name `name + ext` of the URL's path. */
    method SanitizeFilename(name: string, ext: string) returns (fileName: string)
      modifies this
      ensures fileName == FileName(old(seen), name, ext)
      ensures seen == old(seen) + {fileName}
    {
      var base := name + ext;
      if base !in seen {
        seen := seen + {base};
        return base;
      }
      var counter := 1;
      var candidate := Candidate(name, ext, counter);
      while candidate in seen
        invariant seen == old(seen)
        invariant counter >= 1 && candidate == Candidate(name, ext, counter)
        invariant forall j :: 1 <= j < counter ==> Candidate(name, ext, j) in seen
        decreases |seen| + 1 - counter
      {
        CandidatesBound(seen, name, ext, counter);
        counter := counter + 1;
        candidate := Candidate(name, ext, counter);
      }
      FirstFreeIs(seen, name, ext, 1, counter);
      seen := seen + {candidate};
      return candidate;
    }

    /** The file names of one run of `downloadImages`, one per URL in order. */
    method NameDownloads(files: seq<(string, string)>) returns (names: seq<string>)
      modifies this
      ensures |names| == |files|
      ensures forall i, j :: 0 <= i < j < |names| ==> names[i] != names[j]
      ensures forall i :: 0 <= i < |names| ==> names[i] !in old(seen)
      ensures forall x :: x in seen <==> x in old(seen) || x in names
    {
      names := [];
      var i := 0;
      while i < |files|
        invariant 0 <= i <= |files| && |names| == i
        invariant forall a, b :: 0 <= a < b < i ==> names[a] != names[b]
        invariant forall a :: 0 <= a < i ==> names[a] !in old(seen)
        invariant forall x :: x in seen <==> x in old(seen) || x in names
      {
        var fileName := SanitizeFilename(files[i].0, files[i].1);
        assert forall a :: 0 <= a < i ==> names[a] in seen;
        names := names + [fileName];
        i := i + 1;
      }
    }
  }

  /** When every candidate before `r` is taken and `r` is free, the search finds `r`. */
  lemma {:induction false} FirstFreeIs(seen: set<string>, name: string, ext: string, k: nat, r: nat)
    requires 1 <= k <= r && Candidate(name, ext, r) !in seen
    requires forall j :: 1 <= j < r ==> Candidate(name, ext, j) in seen
    ensures FirstFree(seen, name, ext, k) == r
    decreases r - k
  {
    if k < r {
      FirstFreeIs(seen, name, ext, k + 1, r);
    }
  }
}
