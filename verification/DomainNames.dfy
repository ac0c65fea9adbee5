/** Cleaning a domain name before it reaches a privileged call (`clean_domain` in `emaild/jobs.py`). */
module DomainNames {
  import opened Prelude
  import opened Text

  datatype NameError = Missing | HasScheme | IsAnAddress | NotADomain

  function StripDots(s: string): string {
    if s != "" && s[|s| - 1] == '.' then StripDots(s[..|s| - 1]) else s
  }

  // ---- The pattern -------------------------------------------------------------------

  /** `s.split(".")`. */
  function Labels(s: string): (r: seq<string>)
    ensures r != []
  {
    if s == "" then [""]
    else
      var before := Labels(s[..|s| - 1]);
      if s[|s| - 1] == '.' then before + [""]
      else before[..|before| - 1] + [before[|before| - 1] + [s[|s| - 1]]]
  }

  predicate IsLetter(c: char) {
    'a' <= c <= 'z'
  }

  predicate IsNameChar(c: char) {
    IsLetter(c) || '0' <= c <= '9' || c == '-'
  }

  /** `[a-z0-9]([a-z0-9-]{0,61}[a-z0-9])?` */
  predicate HostLabel(part: string) {
    && 1 <= |part| <= 63
    && (forall i :: 0 <= i < |part| ==> IsNameChar(part[i]))
    && part[0] != '-' && part[|part| - 1] != '-'
  }

  /** `[a-z]{2,63}` */
  predicate TopLabel(part: string) {
    2 <= |part| <= 63 && forall i :: 0 <= i < |part| ==> IsLetter(part[i])
  }

  /** At most 253 characters: host labels and one top-level label, joined by dots. */
  predicate IsName(s: string) {
    var labels := Labels(s);
    && 1 <= |s| <= 253
    && |labels| >= 2
    && (forall i :: 0 <= i < |labels| - 1 ==> HostLabel(labels[i]))
    && TopLabel(labels[|labels| - 1])
  }

  predicate EndsInNewline(s: string) {
    s != "" && s[|s| - 1] == '\n'
  }

  function WithoutNewline(s: string): string {
    if EndsInNewline(s) then s[..|s| - 1] else s
  }

  /** The whole pattern. Its `$` also matches just before a newline at the very end. */
  predicate Matches(s: string) {
    IsName(s) || IsName(WithoutNewline(s))
  }

  function Tidy(raw: string): string {
    StripDots(Lower(Strip(raw)))
  }

  function CleanDomain(raw: string): Result<string, NameError> {
    var name := Tidy(raw);
    if name == "" then Err(Missing)
    else if "http://" <= name || "https://" <= name then Err(HasScheme)
    else if '@' in name then Err(IsAnAddress)
    else if !Matches(name) then Err(NotADomain)
    else Ok(name)
  }

  /** Cleaning takes no notice of letter case. */
  lemma CaseIsDropped(raw: string, other: string)
    requires SameLetters(raw, other)
    ensures CleanDomain(raw) == CleanDomain(other)
  {
    SameLettersSameLower(raw, other);
    StripLower(raw);
    StripLower(other);
  }

  /** Some text starts with this one, in any case. */
  predicate Opens(text: string, start: string) {
    |text| >= |start| && SameLetters(text[..|start|], start)
  }

  lemma OpensIff(text: string, start: string)
    requires Lower(start) == start
    ensures Opens(text, start) <==> start <= Lower(text)
  {
    if |text| >= |start| {
      SameLettersSameLower(text[..|start|], start);
      LowerSlice(text, 0, |start|);
      assert Lower(text)[..|start|] == Lower(text[..|start|]);
    }
  }

  /**
    What becomes of a name, without the blanks around it and the dots after it: nothing left, a link, an
    address, not a name, or the name in lower case, perhaps with a newline after it.
  */
  lemma CleaningDecides(raw: string)
    ensures var text := StripDots(Strip(raw));
            var link := Opens(text, "http://") || Opens(text, "https://");
            match CleanDomain(raw)
            case Err(Missing) => text == ""
            case Err(HasScheme) => link
            case Err(IsAnAddress) => !link && '@' in text
            case Err(NotADomain) =>
              text != "" && !link && '@' !in text && !IsName(Lower(text)) && !IsName(WithoutNewline(Lower(text)))
            case Ok(name) =>
              SameLetters(name, text) && (IsName(name) || (EndsInNewline(name) && IsName(name[..|name| - 1])))
  {
    var text := StripDots(Strip(raw));
    StripDotsKeepsCase(Strip(raw));
    LinksOpen(text);
    AtHasNoCase(text);
    LowerIsIdempotent(text);
    SameLettersSameLower(Lower(text), text);
  }

  lemma LinksOpen(text: string)
    ensures Opens(text, "http://") <==> "http://" <= Lower(text)
    ensures Opens(text, "https://") <==> "https://" <= Lower(text)
  {
    LinksAreLower();
    OpensIff(text, "http://");
    OpensIff(text, "https://");
  }

  lemma LinksAreLower()
    ensures Lower("http://") == "http://" && Lower("https://") == "https://"
  {
  }

  lemma AtHasNoCase(text: string)
    ensures '@' in text <==> '@' in Lower(text)
  {
    forall i | 0 <= i < |text| ensures text[i] == '@' <==> Lower(text)[i] == '@' {
    }
    if '@' in text {
      var i :| 0 <= i < |text| && text[i] == '@';
      assert Lower(text)[i] == '@';
    }
  }

  // ---- What an accepted name looks like ----------------------------------------------

  lemma {:induction false} CharactersAreInLabels(s: string, i: nat)
    requires i < |s|
    ensures s[i] == '.' || exists k :: 0 <= k < |Labels(s)| && s[i] in Labels(s)[k]
  {
    var before := Labels(s[..|s| - 1]);
    if i == |s| - 1 {
      assert s[i] == '.' || s[i] in Labels(s)[|Labels(s)| - 1];
    } else {
      CharactersAreInLabels(s[..|s| - 1], i);
      if s[i] != '.' {
        var k :| 0 <= k < |before| && s[i] in before[k];
        assert s[i] in Labels(s)[k];
      }
    }
  }

  predicate PlainChar(c: char) {
    IsNameChar(c) || c == '.'
  }

  lemma NamesArePlain(s: string)
    requires IsName(s)
    ensures forall i :: 0 <= i < |s| ==> PlainChar(s[i])
    ensures IsLetter(s[|s| - 1])
  {
    forall i | 0 <= i < |s| ensures PlainChar(s[i]) {
      CharactersAreInLabels(s, i);
    }
    var top := Labels(s)[|Labels(s)| - 1];
    assert top[|top| - 1] == s[|s| - 1];
  }

  // ---- Names by their characters -----------------------------------------------------

  /** From `a` to `b` there is no dot, and on either side there is one, or an end. */
  predicate Between(s: string, a: nat, b: nat) {
    && a <= b <= |s| && (a == 0 || s[a - 1] == '.') && (b == |s| || s[b] == '.')
    && forall i :: a <= i < b ==> s[i] != '.'
  }

  function StartOf(s: string, i: nat): (a: nat)
    requires i <= |s|
    ensures a <= i && (a == 0 || s[a - 1] == '.') && forall j :: a <= j < i ==> s[j] != '.'
  {
    if i > 0 && s[i - 1] != '.' then StartOf(s, i - 1) else i
  }

  function EndOf(s: string, i: nat): (b: nat)
    requires i <= |s|
    ensures i <= b <= |s| && (b == |s| || s[b] == '.') && forall j :: i <= j < b ==> s[j] != '.'
    decreases |s| - i
  {
    if i < |s| && s[i] != '.' then EndOf(s, i + 1) else i
  }

  /** Leaving out the last character. */
  lemma BetweenBefore(s: string, a: nat, b: nat)
    requires s != "" && a <= b < |s|
    ensures s[..|s| - 1][a..b] == s[a..b]
    ensures Between(s, a, b) ==> Between(s[..|s| - 1], a, b)
    ensures Between(s[..|s| - 1], a, b) && (b < |s| - 1 || s[b] == '.') ==> Between(s, a, b)
  {
    var t := s[..|s| - 1];
    assert forall k :: 0 <= k < |t| ==> t[k] == s[k];
  }

  lemma BetweenToTheEnd(s: string, a: nat)
    requires s != "" && s[|s| - 1] != '.' && a < |s|
    ensures s[a..] == s[..|s| - 1][a..] + [s[|s| - 1]]
    ensures Between(s, a, |s|) <==> Between(s[..|s| - 1], a, |s| - 1)
  {
    var t := s[..|s| - 1];
    assert forall k :: 0 <= k < |t| ==> t[k] == s[k];
  }

  lemma LabelsGrow(s: string)
    requires s != ""
    ensures var before := Labels(s[..|s| - 1]);
            && (s[|s| - 1] == '.' ==> Labels(s) == before + [""])
            && (s[|s| - 1] != '.' ==>
                  && |Labels(s)| == |before|
                  && (forall k :: 0 <= k < |before| - 1 ==> Labels(s)[k] == before[k])
                  && Labels(s)[|before| - 1] == before[|before| - 1] + [s[|s| - 1]])
  {
  }

  /** What stands between two dots is a label, the last one if it ends with the text. */
  lemma {:induction false} LabelOf(s: string, a: nat, b: nat) returns (k: nat)
    requires Between(s, a, b)
    ensures k < |Labels(s)| && Labels(s)[k] == s[a..b] && (k == |Labels(s)| - 1 <==> b == |s|)
  {
    if s == "" {
      k := 0;
    } else {
      LabelsGrow(s);
      var n := |s| - 1;
      if b < |s| {
        BetweenBefore(s, a, b);
        k := LabelOf(s[..n], a, b);
      } else if s[n] == '.' {
        k := |Labels(s)| - 1;
      } else {
        BetweenToTheEnd(s, a);
        k := LabelOf(s[..n], a, n);
        assert s[a..b] == s[a..] && s[..n][a..n] == s[..n][a..];
      }
    }
  }

  /** And every label stands between two dots. */
  lemma {:induction false} SpanOf(s: string, k: nat) returns (a: nat, b: nat)
    requires k < |Labels(s)|
    ensures Between(s, a, b) && Labels(s)[k] == s[a..b] && (k == |Labels(s)| - 1 <==> b == |s|)
  {
    if s == "" {
      a, b := 0, 0;
    } else {
      LabelsGrow(s);
      var n := |s| - 1;
      if s[n] == '.' && k == |Labels(s)| - 1 {
        a, b := |s|, |s|;
      } else if s[n] != '.' && k == |Labels(s)| - 1 {
        a, b := SpanOf(s[..n], k);
        BetweenToTheEnd(s, a);
        assert s[a..|s|] == s[a..] && s[..n][a..n] == s[..n][a..];
        b := |s|;
      } else {
        a, b := SpanOf(s[..n], k);
        BetweenBefore(s, a, b);
      }
    }
  }

  predicate Inner(c: char) {
    c != '.' && c != '-'
  }

  /** Any 64 characters in a row have a dot among them. */
  predicate Dotted(s: string) {
    forall i :: 0 <= i && i + 63 < |s| ==> EndOf(s, i) <= i + 63
  }

  /** After the dot at `d` there are two or more letters, and nothing else. */
  predicate TopAfter(s: string, d: nat) {
    d + 2 < |s| && s[d] == '.' && forall j :: d < j < |s| ==> IsLetter(s[j])
  }

  /** What a domain name is, character by character. */
  predicate NameByCharacters(s: string) {
    && 1 <= |s| <= 253
    && (forall i :: 0 <= i < |s| ==> PlainChar(s[i]))
    && Inner(s[0])
    && (forall i :: 0 <= i < |s| && s[i] == '.' ==> 0 < i < |s| - 1 && Inner(s[i - 1]) && Inner(s[i + 1]))
    && Dotted(s)
    && exists d :: 0 <= d < |s| && TopAfter(s, d)
  }

  /** A part of a name that stands between dots. */
  lemma PartOfName(s: string, a: nat, b: nat)
    requires IsName(s) && Between(s, a, b)
    ensures a < b <= a + 63 && Inner(s[a]) && Inner(s[b - 1])
    ensures b == |s| ==> b >= a + 2 && forall j :: a <= j < b ==> IsLetter(s[j])
  {
    var k := LabelOf(s, a, b);
    var part := s[a..b];
    assert part == Labels(s)[k] && |part| == b - a;
    assert b < |s| ==> HostLabel(part);
    assert b == |s| ==> TopLabel(part);
    assert part[0] == s[a] && part[|part| - 1] == s[b - 1];
    forall j | a <= j < b && b == |s| ensures IsLetter(s[j]) {
      assert part[j - a] == s[j];
    }
  }

  lemma NamesHaveIt(s: string)
    requires IsName(s)
    ensures NameByCharacters(s)
  {
    NamesArePlain(s);
    PartOfName(s, 0, EndOf(s, 0));
    forall i | 0 <= i < |s| && s[i] == '.' ensures 0 < i < |s| - 1 && Inner(s[i - 1]) && Inner(s[i + 1]) {
      PartOfName(s, StartOf(s, i), i);
      PartOfName(s, i + 1, EndOf(s, i + 1));
    }
    forall i | 0 <= i && i + 63 < |s| ensures EndOf(s, i) <= i + 63 {
      PartOfName(s, StartOf(s, i), EndOf(s, i));
    }
    var a, b := SpanOf(s, 0);
    var top := StartOf(s, |s|);
    PartOfName(s, top, |s|);
    assert top > b;
    assert TopAfter(s, top - 1);
  }

  lemma ItMakesNames(s: string)
    requires NameByCharacters(s)
    ensures IsName(s)
  {
    var d :| 0 <= d < |s| && TopAfter(s, d);
    var labels := Labels(s);
    var first := LabelOf(s, StartOf(s, d), d);
    forall k | 0 <= k < |labels| ensures if k < |labels| - 1 then HostLabel(labels[k]) else TopLabel(labels[k]) {
      var a, b := SpanOf(s, k);
      PartMakesLabel(s, a, b, d);
    }
  }

  lemma PartMakesLabel(s: string, a: nat, b: nat, d: nat)
    requires NameByCharacters(s) && TopAfter(s, d) && Between(s, a, b)
    ensures if b < |s| then HostLabel(s[a..b]) else TopLabel(s[a..b])
  {
    var part := s[a..b];
    assert a < |s| && a < b;
    assert Inner(s[a]);
    if a + 63 < |s| {
      assert EndOf(s, a) <= a + 63;
    }
    assert b <= a + 63;
    forall i | 0 <= i < |part| ensures IsNameChar(part[i]) {
      assert PlainChar(s[a + i]);
    }
    if b == |s| {
      assert a == d + 1;
    } else {
      assert s[b] == '.' && Inner(s[b - 1]);
    }
  }

  /** The pattern accepts exactly that. */
  lemma NamesIff(s: string)
    ensures IsName(s) <==> NameByCharacters(s)
  {
    if IsName(s) {
      NamesHaveIt(s);
    }
    if NameByCharacters(s) {
      ItMakesNames(s);
    }
  }

  /** No lower-casing, stripping or trimming changes a name, and only a newline after it is stripped. */
  lemma NamesAreTidy(s: string)
    requires IsName(s)
    ensures Tidy(s) == s && Tidy(s + "\n") == s
  {
    NamesArePlain(s);
    assert Lower(s) == s;
    TrimmedIsStripped(s);
    assert StripLeft(s + "\n") == s + "\n";
    assert (s + "\n")[..|s|] == s;
  }

  /** Nothing that consists of name characters, or of those and a newline, is mistaken for a URL or an address. */
  lemma PlainIsNoLink(s: string)
    requires forall i :: 0 <= i < |s| ==> PlainChar(s[i]) || s[i] == '\n'
    ensures !("http://" <= s) && !("https://" <= s) && '@' !in s
  {
    assert "http://"[4] == ':' && "https://"[5] == ':';
    assert forall i :: 0 <= i < |s| ==> s[i] != ':' && s[i] != '@';
  }

  /** A name is its own cleaned form. */
  lemma NamesAreFixed(s: string)
    requires IsName(s)
    ensures CleanDomain(s) == Ok(s)
  {
    NamesAreTidy(s);
    NamesArePlain(s);
    PlainIsNoLink(s);
  }

  /** A name with a newline after it is cleaned to the name. */
  lemma NewlineIsDropped(s: string)
    requires IsName(s)
    ensures CleanDomain(s + "\n") == Ok(s)
  {
    NamesAreTidy(s);
    NamesArePlain(s);
    PlainIsNoLink(s);
  }

  /** Cleaning what was accepted is accepted again, and takes off at most one newline. */
  lemma AcceptedAgain(raw: string)
    requires CleanDomain(raw).Ok?
    ensures CleanDomain(CleanDomain(raw).value) == Ok(WithoutNewline(CleanDomain(raw).value))
    ensures IsName(WithoutNewline(CleanDomain(raw).value))
  {
    var name := CleanDomain(raw).value;
    if IsName(name) {
      NamesArePlain(name);
      NamesAreFixed(name);
    } else {
      assert name == WithoutNewline(name) + "\n";
      NewlineIsDropped(WithoutNewline(name));
    }
  }

  lemma {:induction false} StripDotsKeepsCase(s: string)
    ensures StripDots(Lower(s)) == Lower(StripDots(s))
  {
    if s != "" {
      assert Lower(s)[..|s| - 1] == Lower(s[..|s| - 1]);
      assert LowerChar(s[|s| - 1]) == '.' <==> s[|s| - 1] == '.';
      StripDotsKeepsCase(s[..|s| - 1]);
    }
  }

  /**
    Cleaning is idempotent exactly on inputs that, without surrounding blanks and trailing dots, do not
    end in a newline.
  */
  lemma IdempotentIff(raw: string)
    requires CleanDomain(raw).Ok?
    ensures CleanDomain(CleanDomain(raw).value) == CleanDomain(raw) <==> !EndsInNewline(StripDots(Strip(raw)))
  {
    AcceptedAgain(raw);
    StripDotsKeepsCase(Strip(raw));
    var text := StripDots(Strip(raw));
    assert EndsInNewline(Lower(text)) <==> EndsInNewline(text);
  }

  /** The second cleaning, the one before the privileged call, always yields a plain domain name, for good. */
  lemma SecondCleaningIsFinal(raw: string)
    requires CleanDomain(raw).Ok?
    ensures var second := CleanDomain(CleanDomain(raw).value);
            second.Ok? && IsName(second.value) && CleanDomain(second.value) == second
  {
    AcceptedAgain(raw);
    NamesAreFixed(WithoutNewline(CleanDomain(raw).value));
  }

  /** For every name there is an input whose first cleaning is not final: a dot shields a newline from stripping. */
  lemma ShieldedNewline(name: string)
    requires IsName(name)
    ensures CleanDomain(name + "\n.") == Ok(name + "\n")
    ensures CleanDomain(name + "\n") == Ok(name)
  {
    var kept := name + "\n";
    NewlineIsDropped(name);
    DotIsStripped(name);
    NamesArePlain(name);
    assert WithoutNewline(kept) == name;
    PlainIsNoLink(kept);
  }

  lemma DotIsStripped(name: string)
    requires IsName(name)
    ensures Tidy(name + "\n.") == name + "\n"
  {
    var raw := name + "\n.";
    NamesArePlain(name);
    TrimmedIsStripped(raw);
    assert Lower(raw) == raw;
    var kept := name + "\n";
    assert raw[..|raw| - 1] == kept && StripDots(kept) == kept;
  }

  /** A last part without dots is split off whole. */
  lemma {:induction false} LastPart(before: string, part: string)
    requires '.' !in part
    ensures Labels(before + "." + part) == Labels(before) + [part]
  {
    var s := before + "." + part;
    if part == "" {
      assert s[..|s| - 1] == before;
    } else {
      var n := |part| - 1;
      LastPart(before, part[..n]);
      assert s[..|s| - 1] == before + "." + part[..n];
      assert part == part[..n] + [part[n]];
      var labels := Labels(before) + [part[..n]];
      assert labels[..|labels| - 1] == Labels(before);
    }
  }

  /** So there are inputs on which cleaning twice is not cleaning once. */
  lemma CleaningIsNotIdempotent()
    ensures exists raw :: CleanDomain(raw).Ok? && CleanDomain(CleanDomain(raw).value) != CleanDomain(raw)
  {
    ExampleIsAName();
    ShieldedNewline("a.bc");
    var raw := "a.bc" + "\n.";
    assert CleanDomain(raw).Ok? && CleanDomain(CleanDomain(raw).value) != CleanDomain(raw);
  }

  /** There are names. */
  lemma ExampleIsAName()
    ensures IsName("a.bc")
  {
    LastPart("a", "bc");
    assert "a" + "." + "bc" == "a.bc";
    assert Labels("a")[0] == "a" by {
      assert "a"[..0] == "";
      assert "" + ['a'] == "a";
    }
  }
}
