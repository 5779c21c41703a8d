/** The text rewriting `decodeBase64` does before calling `atob`
    (src/game/deckImporter.ts), and the inputs `atob` rejects: the
    "forgiving-base64 decode" algorithm of the WHATWG Infra Standard, section 4.2. */
module Base64 {

  /** `value.replace(/-/g, "+").replace(/_/g, "/")`: base64url to base64. */
  function UrlToStandard(s: string): (r: string)
    ensures |r| == |s|
    ensures forall i :: 0 <= i < |s| ==>
      r[i] == (if s[i] == '-' then '+' else if s[i] == '_' then '/' else s[i])
  {
    seq(|s|, i requires 0 <= i < |s| => if s[i] == '-' then '+' else if s[i] == '_' then '/' else s[i])
  }

  /** No `-` or `_` survives, and every other character is kept. */
  lemma UrlToStandardClean(s: string)
    ensures forall i :: 0 <= i < |s| ==> UrlToStandard(s)[i] != '-' && UrlToStandard(s)[i] != '_'
    ensures (forall i :: 0 <= i < |s| ==> s[i] != '-' && s[i] != '_') ==> UrlToStandard(s) == s
  {
  }

  /** `s.padEnd(Math.ceil(s.length / 4) * 4, "=")`. */
  function Pad(s: string): (r: string)
    ensures |r| % 4 == 0 && |s| <= |r| < |s| + 4
    ensures r[..|s|] == s
    ensures forall i :: |s| <= i < |r| ==> r[i] == '='
  {
    s + seq((4 - |s| % 4) % 4, _ => '=')
  }

  /** The padded length is the smallest multiple of 4 that is at least the length. */
  lemma PadSmallest(s: string, m: nat)
    requires m % 4 == 0 && m >= |s|
    ensures |Pad(s)| <= m
  {
  }

  /** Text already a multiple of 4 long is not padded. */
  lemma PadAligned(s: string)
    requires |s| % 4 == 0
    ensures Pad(s) == s
  {
    assert Pad(s) == s + [];
  }

  /** The text `atob` receives. */
  function Prepared(s: string): (r: string) {
    Pad(UrlToStandard(s))
  }

  /** ASCII white space: TAB, LF, FF, CR and SPACE. */
  predicate IsAsciiSpace(c: char) {
    c == '\t' || c == '\n' || c == '\U{000C}' || c == '\r' || c == ' '
  }

  predicate IsBase64Char(c: char) {
    ('A' <= c <= 'Z') || ('a' <= c <= 'z') || ('0' <= c <= '9') || c == '+' || c == '/'
  }

  /** The base64url alphabet: what a well-formed deck code is written in. */
  predicate IsUrlChar(c: char) {
    ('A' <= c <= 'Z') || ('a' <= c <= 'z') || ('0' <= c <= '9') || c == '-' || c == '_'
  }

  /** Step 1 of forgiving-base64 decode: remove ASCII white space. */
  function StripAsciiSpace(s: string): (r: string)
    ensures |r| <= |s|
    ensures forall i :: 0 <= i < |r| ==> !IsAsciiSpace(r[i])
  {
    if s == [] then []
    else
      var rest := StripAsciiSpace(s[1..]);
      if IsAsciiSpace(s[0]) then rest else [s[0]] + rest
  }

  /** Every character that is not white space is kept, and nothing else appears. */
  lemma {:induction false} StripAsciiSpaceKeeps(s: string)
    ensures forall c :: c in StripAsciiSpace(s) <==> c in s && !IsAsciiSpace(c)
  {
    if s != [] {
      StripAsciiSpaceKeeps(s[1..]);
      assert forall c :: c in s <==> c == s[0] || c in s[1..];
    }
  }

  /** One character is dropped when it is white space and kept otherwise. */
  lemma StripAsciiSpaceChar(c: char)
    ensures StripAsciiSpace([c]) == if IsAsciiSpace(c) then [] else [c]
  {
    assert [c][1..] == [];
  }

  /** Removing white space works piece by piece, so the kept characters stay in order. */
  lemma {:induction false} StripAsciiSpaceAppend(a: string, b: string)
    ensures StripAsciiSpace(a + b) == StripAsciiSpace(a) + StripAsciiSpace(b)
  {
    if a != [] {
      assert (a + b)[0] == a[0];
      assert (a + b)[1..] == a[1..] + b;
      StripAsciiSpaceAppend(a[1..], b);
    } else {
      assert a + b == b;
    }
  }

  lemma {:induction false} StripNoSpace(s: string)
    requires forall i :: 0 <= i < |s| ==> !IsAsciiSpace(s[i])
    ensures StripAsciiSpace(s) == s
  {
    if s != [] {
      StripNoSpace(s[1..]);
    }
  }

  /** Steps 1 and 2 of forgiving-base64 decode: drop white space, then up to
      two trailing `=` when the length is a multiple of 4. */
  function Unpadded(s: string): string {
    var d := StripAsciiSpace(s);
    if |d| % 4 == 0 && |d| >= 2 && d[|d| - 1] == '=' && d[|d| - 2] == '=' then d[..|d| - 2]
    else if |d| % 4 == 0 && |d| >= 1 && d[|d| - 1] == '=' then d[..|d| - 1]
    else d
  }

  /** `atob(s)` does not throw. */
  predicate Accepts(s: string) {
    var d := Unpadded(s);
    |d| % 4 != 1 && forall i :: 0 <= i < |d| ==> IsBase64Char(d[i])
  }

  /** Padding a base64 text adds exactly what steps 1 and 2 remove, except for
      the third `=` a text of length 4k + 1 gets. */
  lemma PadUnpadded(u: string)
    requires forall i :: 0 <= i < |u| ==> IsBase64Char(u[i])
    ensures |u| % 4 != 1 ==> Unpadded(Pad(u)) == u
    ensures |u| % 4 == 1 ==> Unpadded(Pad(u)) == u + "="
  {
    var p := Pad(u);
    assert forall i :: 0 <= i < |p| ==> !IsAsciiSpace(p[i]) by {
      forall i | 0 <= i < |p| ensures !IsAsciiSpace(p[i]) {
        if i < |u| { assert p[i] == u[i]; }
      }
    }
    StripNoSpace(p);
    var k := |u| % 4;
    if k == 0 {
      PadUnpaddedAligned(u);
    } else if k == 1 {
      PadUnpaddedThree(u);
    } else if k == 2 {
      PadUnpaddedTwo(u);
    } else {
      PadUnpaddedOne(u);
    }
  }

  lemma PadUnpaddedAligned(u: string)
    requires forall i :: 0 <= i < |u| ==> IsBase64Char(u[i])
    requires |u| % 4 == 0 && StripAsciiSpace(Pad(u)) == Pad(u)
    ensures Unpadded(Pad(u)) == u
  {
    PadAligned(u);
    if |u| > 0 { assert !IsBase64Char('=') && IsBase64Char(u[|u| - 1]); }
  }

  lemma PadUnpaddedThree(u: string)
    requires |u| % 4 == 1 && StripAsciiSpace(Pad(u)) == Pad(u)
    ensures Unpadded(Pad(u)) == u + "="
  {
    var p := Pad(u);
    assert p == u + "===";
    assert p[..|p| - 2] == u + "=";
  }

  lemma PadUnpaddedTwo(u: string)
    requires |u| % 4 == 2 && StripAsciiSpace(Pad(u)) == Pad(u)
    ensures Unpadded(Pad(u)) == u
  {
    var p := Pad(u);
    assert p == u + "==";
    assert p[..|p| - 2] == u;
  }

  lemma PadUnpaddedOne(u: string)
    requires forall i :: 0 <= i < |u| ==> IsBase64Char(u[i])
    requires |u| % 4 == 3 && StripAsciiSpace(Pad(u)) == Pad(u)
    ensures Unpadded(Pad(u)) == u
  {
    var p := Pad(u);
    assert p == u + "=";
    assert p[|p| - 2] == u[|u| - 1] && IsBase64Char(u[|u| - 1]);
    assert p[..|p| - 1] == u;
  }

  /** A base64url text is accepted exactly when its length is not 1 more than a
      multiple of 4, which no encoder produces. */
  lemma UrlTextAccepted(s: string)
    requires forall i :: 0 <= i < |s| ==> IsUrlChar(s[i])
    ensures Accepts(Prepared(s)) <==> |s| % 4 != 1
  {
    var u := UrlToStandard(s);
    assert forall i :: 0 <= i < |u| ==> IsBase64Char(u[i]);
    PadUnpadded(u);
    if |s| % 4 == 1 {
      assert (u + "=")[|u|] == '=';
    }
  }

  /** Any character outside the base64 alphabet, white space and the padding
      that is not removed, makes `atob` throw: a space-separated deck list, for one. */
  lemma SampleLineRejected()
    ensures !Accepts(Prepared("1 A"))
  {
    SamplePrepared();
    SampleUnpadded();
    assert !IsBase64Char(Unpadded("1 A=")[2]);
  }

  lemma SamplePrepared()
    ensures Prepared("1 A") == "1 A="
  {
    var u := UrlToStandard("1 A");
    assert u == "1 A" by {
      assert |u| == 3 && u[0] == '1' && u[1] == ' ' && u[2] == 'A';
    }
    var p := Pad(u);
    assert |p| == 4 && p[..3] == u && p[3] == '=';
  }

  lemma SampleUnpadded()
    ensures Unpadded("1 A=") == "1A="
  {
    assert StripAsciiSpace("=") == "=";
    assert StripAsciiSpace("A=") == "A=";
    assert StripAsciiSpace(" A=") == "A=";
    assert StripAsciiSpace("1 A=") == "1A=";
  }
}
