/** The few string operations the model needs; letter case is that of ASCII. */
module Text {

  function LowerChar(c: char): char {
    if 'A' <= c <= 'Z' then (c as int + 32) as char else c
  }

  function Lower(s: string): (r: string)
    ensures |r| == |s|
    ensures forall i :: 0 <= i < |s| ==> r[i] == LowerChar(s[i])
  {
    if s == "" then "" else [LowerChar(s[0])] + Lower(s[1..])
  }

  /** The characters that Python's `str.strip()` removes. */
  predicate IsSpace(c: char) {
    var n := c as int;
    || 9 <= n <= 13 || 28 <= n <= 32 || n == 0x85 || n == 0xA0
    || n == 0x1680 || 0x2000 <= n <= 0x200A || 0x2028 <= n <= 0x2029
    || n == 0x202F || n == 0x205F || n == 0x3000
  }

  function StripLeft(s: string): string {
    if s != "" && IsSpace(s[0]) then StripLeft(s[1..]) else s
  }

  function StripRight(s: string): string {
    if s != "" && IsSpace(s[|s| - 1]) then StripRight(s[..|s| - 1]) else s
  }

  /** Python's `str.strip()`. */
  function Strip(s: string): string {
    StripRight(StripLeft(s))
  }

  predicate Trimmed(s: string) {
    s == "" || (!IsSpace(s[0]) && !IsSpace(s[|s| - 1]))
  }

  lemma StripLeftStarts(s: string)
    ensures var r := StripLeft(s); r == "" || !IsSpace(r[0])
  {
  }

  lemma StripRightEnds(s: string)
    ensures var r := StripRight(s); r == "" || (!IsSpace(r[|r| - 1]) && r[0] == s[0])
  {
  }

  lemma StripIsTrimmed(s: string)
    ensures Trimmed(Strip(s))
  {
    StripLeftStarts(s);
    StripRightEnds(StripLeft(s));
  }

  lemma TrimmedIsStripped(s: string)
    requires Trimmed(s)
    ensures Strip(s) == s
  {
  }

  predicate Blank(s: string) {
    forall i :: 0 <= i < |s| ==> IsSpace(s[i])
  }

  lemma BlankSplits(a: string, b: string)
    ensures Blank(a + b) <==> Blank(a) && Blank(b)
  {
    if Blank(a + b) {
      assert forall i :: 0 <= i < |a| ==> a[i] == (a + b)[i];
      assert forall i :: 0 <= i < |b| ==> b[i] == (a + b)[|a| + i];
    }
  }

  /** Only blanks are stripped on the left. */
  lemma {:induction false} StripLeftSuffix(s: string)
    ensures |StripLeft(s)| <= |s| && StripLeft(s) == s[|s| - |StripLeft(s)|..]
    ensures Blank(s[..|s| - |StripLeft(s)|])
    ensures StripLeft(s) == "" <==> Blank(s)
  {
    if s != "" && IsSpace(s[0]) {
      StripLeftSuffix(s[1..]);
      assert s == s[..1] + s[1..];
      BlankSplits(s[..1], s[1..]);
      var n := |s| - |StripLeft(s)|;
      assert s[..n] == s[..1] + s[1..][..n - 1];
      BlankSplits(s[..1], s[1..][..n - 1]);
    }
  }

  /** Only blanks are stripped on the right. */
  lemma {:induction false} StripRightPrefix(s: string)
    ensures StripRight(s) <= s && Blank(s[|StripRight(s)|..])
  {
    if s != "" && IsSpace(s[|s| - 1]) {
      var n := |s| - 1;
      StripRightPrefix(s[..n]);
      assert s[..n] <= s;
      var k := |StripRight(s)|;
      assert s[k..] == s[..n][k..] + [s[n]];
      BlankSplits(s[..n][k..], [s[n]]);
    }
  }

  lemma LowerKeepsTrimmed(s: string)
    requires Trimmed(s)
    ensures Trimmed(Lower(s))
  {
  }

  lemma LowerIsIdempotent(s: string)
    ensures Lower(Lower(s)) == Lower(s)
  {
    assert forall i :: 0 <= i < |s| ==> Lower(Lower(s))[i] == Lower(s)[i];
  }

  lemma SpaceHasNoCase(c: char)
    ensures IsSpace(LowerChar(c)) <==> IsSpace(c)
  {
  }

  lemma LowerSlice(s: string, i: nat, j: nat)
    requires i <= j <= |s|
    ensures Lower(s)[i..j] == Lower(s[i..j])
  {
    forall k | 0 <= k < j - i ensures Lower(s)[i..j][k] == Lower(s[i..j])[k] {
      assert Lower(s)[i..j][k] == LowerChar(s[i + k]);
    }
  }

  lemma {:induction false} StripLeftLower(s: string)
    ensures StripLeft(Lower(s)) == Lower(StripLeft(s))
  {
    if s != "" && IsSpace(s[0]) {
      SpaceHasNoCase(s[0]);
      LowerSlice(s, 1, |s|);
      assert Lower(s)[1..] == Lower(s[1..]);
      StripLeftLower(s[1..]);
    } else if s != "" {
      SpaceHasNoCase(s[0]);
    }
  }

  lemma {:induction false} StripRightLower(s: string)
    ensures StripRight(Lower(s)) == Lower(StripRight(s))
  {
    if s != "" && IsSpace(s[|s| - 1]) {
      SpaceHasNoCase(s[|s| - 1]);
      LowerSlice(s, 0, |s| - 1);
      assert Lower(s)[..|s| - 1] == Lower(s[..|s| - 1]);
      StripRightLower(s[..|s| - 1]);
    } else if s != "" {
      SpaceHasNoCase(s[|s| - 1]);
    }
  }

  /** Stripping and lower-casing do not get in each other's way. */
  lemma StripLower(s: string)
    ensures Strip(Lower(s)) == Lower(Strip(s))
  {
    StripLeftLower(s);
    StripRightLower(StripLeft(s));
  }

  /** The same text but for the case of its letters. */
  predicate SameLetters(a: string, b: string) {
    |a| == |b| && forall i :: 0 <= i < |a| ==> LowerChar(a[i]) == LowerChar(b[i])
  }

  lemma SameLettersSameLower(a: string, b: string)
    ensures SameLetters(a, b) <==> Lower(a) == Lower(b)
  {
    if Lower(a) == Lower(b) {
      forall i | 0 <= i < |a| ensures LowerChar(a[i]) == LowerChar(b[i]) {
        assert Lower(a)[i] == Lower(b)[i];
      }
    }
  }

  /** `phrase in text`. */
  predicate Has(text: string, phrase: string) {
    phrase <= text || (text != "" && Has(text[1..], phrase))
  }

  /** `lower` is the lower-case form of `text`, which has no blanks at its ends. */
  predicate Reads(text: string, lower: string) {
    Strip(text) == text && Lower(text) == lower
  }

  lemma ReadsAs(text: string, lower: string)
    requires Trimmed(text) && |text| == |lower|
    requires forall i :: 0 <= i < |text| ==> LowerChar(text[i]) == lower[i]
    ensures Reads(text, lower)
  {
    TrimmedIsStripped(text);
  }

  // ---- Where things are --------------------------------------------------------------

  /** `piece` stands in `text` from index `p` on. */
  predicate StandsAt(text: string, piece: string, p: nat) {
    p + |piece| <= |text| && forall k :: 0 <= k < |piece| ==> text[p + k] == piece[k]
  }

  /** A prefix of the rest of a text is a piece that stands there. */
  lemma FrontIff(text: string, piece: string, p: nat)
    requires p <= |text|
    ensures piece <= text[p..] <==> StandsAt(text, piece, p)
  {
    if piece <= text[p..] {
      forall k | 0 <= k < |piece| ensures text[p + k] == piece[k] {
        assert text[p..][k] == text[p + k];
      }
    }
    if StandsAt(text, piece, p) {
      assert text[p..][..|piece|] == piece;
    }
  }

  lemma {:induction false} HasFromIff(text: string, phrase: string, p: nat)
    requires p <= |text|
    ensures Has(text[p..], phrase) <==> exists q: nat :: p <= q && StandsAt(text, phrase, q)
    decreases |text| - p
  {
    FrontIff(text, phrase, p);
    if !(phrase <= text[p..]) && p < |text| {
      assert text[p..][1..] == text[p + 1..];
      HasFromIff(text, phrase, p + 1);
    }
  }

  /** `in` finds a phrase exactly if it stands somewhere. */
  lemma HasIff(text: string, phrase: string)
    ensures Has(text, phrase) <==> exists p: nat :: StandsAt(text, phrase, p)
  {
    assert text[0..] == text;
    HasFromIff(text, phrase, 0);
  }

  /** After blanks only, `start` begins, in whatever case. */
  predicate BeginsAt(s: string, start: string, p: nat) {
    && p + |start| <= |s| && (forall k :: 0 <= k < p ==> IsSpace(s[k]))
    && forall k :: 0 <= k < |start| ==> LowerChar(s[p + k]) == start[k]
  }

  /** A text that is stripped and lower-cased starts with a word exactly if it begins with it so. */
  lemma BeginsIff(s: string, start: string)
    requires start != "" && Trimmed(start)
    ensures start <= Lower(Strip(s)) <==> exists p: nat :: BeginsAt(s, start, p)
  {
    var t := StripLeft(s);
    var i := |s| - |t|;
    StripLeftSuffix(s);
    StripRightPrefix(t);
    if start <= Lower(Strip(s)) {
      forall k | 0 <= k < |start| ensures LowerChar(s[i + k]) == start[k] {
        assert Lower(Strip(s))[k] == start[k] && Strip(s)[k] == t[k] == s[i + k];
      }
      assert forall k :: 0 <= k < i ==> s[k] == s[..i][k];
      assert BeginsAt(s, start, i);
    }
    if p: nat :| BeginsAt(s, start, p) {
      BeginsAfterBlanks(s, start, p);
    }
  }

  lemma BeginsAfterBlanks(s: string, start: string, p: nat)
    requires start != "" && Trimmed(start) && BeginsAt(s, start, p)
    ensures start <= Lower(Strip(s))
  {
    var t := StripLeft(s);
    var i := |s| - |t|;
    var n := |start|;
    StripLeftSuffix(s);
    StripLeftStarts(s);
    StripRightPrefix(t);
    SpaceHasNoCase(s[p]);
    SpaceHasNoCase(s[p + n - 1]);
    assert LowerChar(s[p + (n - 1)]) == start[n - 1];
    forall k | 0 <= k < i ensures IsSpace(s[k]) {
      assert s[..i][k] == s[k];
    }
    assert t[0] == s[i];
    assert p == i;
    assert t[n - 1] == s[p + (n - 1)];
    var r := |StripRight(t)|;
    forall k | r <= k < |t| ensures IsSpace(t[k]) {
      assert t[r..][k - r] == t[k];
    }
    assert n <= r;
    forall k | 0 <= k < n ensures Lower(Strip(s))[k] == start[k] {
      assert Strip(s)[k] == t[k] == s[p + k];
    }
  }
}
