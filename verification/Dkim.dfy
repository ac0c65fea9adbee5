/**
  TXT records: the comparison of `emaild/dnscheck.py` and the display of `emaild/domains.py`. What is
  displayed to the operator must verify once it is published, however a registrar splits it.
*/
module Dkim {
  import opened Prelude
  import opened Text

  // ---- Comparing ---------------------------------------------------------------------

  /** `value.replace(c, "")` for one character. */
  function Drop(value: string, c: char): string {
    if value == "" then ""
    else (if value[0] == c then "" else [value[0]]) + Drop(value[1..], c)
  }

  /** `_normalise_txt`. */
  function Normalise(value: string): string {
    Strip(Drop(Drop(Drop(Drop(value, '"'), '\\'), ' '), '\t'))
  }

  predicate Dropped(c: char) {
    c == '"' || c == '\\' || c == ' ' || c == '\t'
  }

  /** The characters that survive normalisation, before the final strip. */
  function Significant(value: string): string {
    if value == "" then ""
    else (if Dropped(value[0]) then "" else [value[0]]) + Significant(value[1..])
  }

  lemma {:induction false} DropConcat(a: string, b: string, c: char)
    ensures Drop(a + b, c) == Drop(a, c) + Drop(b, c)
  {
    if a == "" {
      assert a + b == b;
    } else {
      DropConcat(a[1..], b, c);
      assert (a + b)[1..] == a[1..] + b && (a + b)[0] == a[0];
      var head := if a[0] == c then "" else [a[0]];
      assert head + (Drop(a[1..], c) + Drop(b, c)) == (head + Drop(a[1..], c)) + Drop(b, c);
    }
  }

  function DropAll(value: string): string {
    Drop(Drop(Drop(Drop(value, '"'), '\\'), ' '), '\t')
  }

  lemma DropAllConcat(a: string, b: string)
    ensures DropAll(a + b) == DropAll(a) + DropAll(b)
  {
    DropConcat(a, b, '"');
    var a1, b1 := Drop(a, '"'), Drop(b, '"');
    DropConcat(a1, b1, '\\');
    var a2, b2 := Drop(a1, '\\'), Drop(b1, '\\');
    DropConcat(a2, b2, ' ');
    DropConcat(Drop(a2, ' '), Drop(b2, ' '), '\t');
  }

  lemma DropSingle(c: char, d: char)
    ensures Drop([c], d) == if c == d then "" else [c]
    ensures Drop("", d) == ""
  {
    assert [c][1..] == "";
  }

  lemma DropAllSingle(c: char)
    ensures DropAll([c]) == if Dropped(c) then "" else [c]
  {
    DropSingle(c, '"');
    DropSingle(c, '\\');
    DropSingle(c, ' ');
    DropSingle(c, '\t');
  }

  lemma {:induction false} NormaliseKeepsSignificant(value: string)
    ensures DropAll(value) == Significant(value)
  {
    if value != "" {
      NormaliseKeepsSignificant(value[1..]);
      DropAllConcat([value[0]], value[1..]);
      DropAllSingle(value[0]);
      assert value == [value[0]] + value[1..];
    }
  }

  lemma NormaliseIs(value: string)
    ensures Normalise(value) == Strip(Significant(value))
  {
    NormaliseKeepsSignificant(value);
  }

  /** A value without quotes, backslashes and blanks is its own normal form. */
  lemma NothingToDrop(value: string)
    requires Trimmed(value) && forall i :: 0 <= i < |value| ==> !Dropped(value[i])
    ensures Normalise(value) == value
  {
    NormaliseKeepsSignificant(value);
    AllSignificant(value);
    TrimmedIsStripped(value);
  }

  lemma {:induction false} AllSignificant(value: string)
    requires forall i :: 0 <= i < |value| ==> !Dropped(value[i])
    ensures Significant(value) == value
  {
    if value != "" {
      AllSignificant(value[1..]);
    }
  }

  lemma {:induction false} SignificantConcat(a: string, b: string)
    ensures Significant(a + b) == Significant(a) + Significant(b)
  {
    if a == "" {
      assert a + b == b;
    } else {
      SignificantConcat(a[1..], b);
      assert (a + b)[1..] == a[1..] + b && (a + b)[0] == a[0];
      var head := if Dropped(a[0]) then "" else [a[0]];
      assert head + (Significant(a[1..]) + Significant(b)) == (head + Significant(a[1..])) + Significant(b);
    }
  }

  // ---- Displaying --------------------------------------------------------------------

  /** `value.strip('"')`. */
  function StripQuotesLeft(value: string): string {
    if value != "" && value[0] == '"' then StripQuotesLeft(value[1..]) else value
  }

  function StripQuotesRight(value: string): string {
    if value != "" && value[|value| - 1] == '"' then StripQuotesRight(value[..|value| - 1]) else value
  }

  /** `value.replace('\\"', "")`: every escaped quote, left to right. */
  function DropEscapedQuotes(value: string): string {
    if |value| >= 2 && value[0] == '\\' && value[1] == '"' then DropEscapedQuotes(value[2..])
    else if value == "" then ""
    else [value[0]] + DropEscapedQuotes(value[1..])
  }

  /** The DKIM value of `required_dns_records`. */
  function Displayed(value: string): string {
    DropEscapedQuotes(StripQuotesRight(StripQuotesLeft(value)))
  }

  /** Chunks as the provider sends them in one value: an escaped quote between one and the next. */
  function Escaped(chunks: seq<string>): string {
    if chunks == [] then ""
    else if |chunks| == 1 then chunks[0]
    else chunks[0] + "\\\"" + Escaped(chunks[1..])
  }

  predicate Unquoted(s: string) {
    forall i :: 0 <= i < |s| ==> s[i] != '"'
  }

  lemma {:induction false} UnquotedStays(s: string)
    requires Unquoted(s)
    ensures DropEscapedQuotes(s) == s
  {
    if s != "" {
      UnquotedStays(s[1..]);
    }
  }

  lemma {:induction false} EscapeIsDropped(s: string, rest: string)
    requires Unquoted(s)
    ensures DropEscapedQuotes(s + "\\\"" + rest) == s + DropEscapedQuotes(rest)
  {
    var text := s + "\\\"" + rest;
    if s == "" {
      assert text[2..] == rest;
    } else {
      EscapeIsDropped(s[1..], rest);
      assert text[1..] == s[1..] + "\\\"" + rest;
      assert |s| > 1 ==> text[1] == s[1];
      assert [s[0]] + (s[1..] + DropEscapedQuotes(rest)) == s + DropEscapedQuotes(rest);
    }
  }

  lemma {:induction false} EscapesAreDropped(chunks: seq<string>)
    requires forall i :: 0 <= i < |chunks| ==> Unquoted(chunks[i])
    ensures DropEscapedQuotes(Escaped(chunks)) == Join(chunks)
  {
    if |chunks| == 1 {
      UnquotedStays(chunks[0]);
      assert Join(chunks[1..]) == "" && chunks[0] + "" == chunks[0];
    } else if |chunks| > 1 {
      EscapesAreDropped(chunks[1..]);
      EscapeIsDropped(chunks[0], Escaped(chunks[1..]));
    }
  }

  lemma {:induction false} EscapedEnds(chunks: seq<string>)
    requires chunks != [] && chunks[|chunks| - 1] != ""
    requires forall i :: 0 <= i < |chunks| ==> Unquoted(chunks[i])
    ensures var s := Escaped(chunks); s != "" && s[0] != '"' && s[|s| - 1] != '"'
  {
    if |chunks| > 1 {
      EscapedEnds(chunks[1..]);
    }
  }

  /** A value that the provider quotes, and splits with escaped quotes, is displayed as the one value it means. */
  lemma DisplayedAsMeant(chunks: seq<string>)
    requires chunks != [] && chunks[|chunks| - 1] != ""
    requires forall i :: 0 <= i < |chunks| ==> Unquoted(chunks[i])
    ensures Displayed("\"" + Escaped(chunks) + "\"") == Join(chunks)
  {
    EscapedEnds(chunks);
    EscapesAreDropped(chunks);
    QuotesAreStripped(Escaped(chunks));
  }

  lemma QuotesAreStripped(s: string)
    requires s != "" && s[0] != '"' && s[|s| - 1] != '"'
    ensures StripQuotesRight(StripQuotesLeft("\"" + s + "\"")) == s
  {
    QuoteOnTheLeft(s + "\"");
    QuoteOnTheRight(s);
    assert "\"" + s + "\"" == "\"" + (s + "\"");
  }

  lemma QuoteOnTheLeft(s: string)
    requires s != "" && s[0] != '"'
    ensures StripQuotesLeft("\"" + s) == s
  {
    assert ("\"" + s)[1..] == s;
  }

  lemma QuoteOnTheRight(s: string)
    requires s != "" && s[|s| - 1] != '"'
    ensures StripQuotesRight(s + "\"") == s
  {
    assert (s + "\"")[..|s|] == s;
  }

  lemma {:induction false} StripQuotesKeepsSignificant(value: string)
    ensures Significant(StripQuotesLeft(value)) == Significant(value)
    ensures Significant(StripQuotesRight(value)) == Significant(value)
    decreases |value|
  {
    if value != "" {
      StripQuotesKeepsSignificant(value[1..]);
      var front, last := value[..|value| - 1], value[|value| - 1..];
      StripQuotesKeepsSignificant(front);
      SignificantConcat(front, last);
      assert value == front + last;
      assert last[1..] == "";
      if value[|value| - 1] == '"' {
        assert Significant(last) == "";
      }
    }
  }

  lemma {:induction false} DropEscapedKeepsSignificant(value: string)
    ensures Significant(DropEscapedQuotes(value)) == Significant(value)
    decreases |value|
  {
    if |value| >= 2 && value[0] == '\\' && value[1] == '"' {
      DropEscapedKeepsSignificant(value[2..]);
      assert value[1..][1..] == value[2..];
    } else if value != "" {
      DropEscapedKeepsSignificant(value[1..]);
      assert ([value[0]] + DropEscapedQuotes(value[1..]))[1..] == DropEscapedQuotes(value[1..]);
    }
  }

  lemma SameSignificantSameNormal(a: string, b: string)
    requires Significant(a) == Significant(b)
    ensures Normalise(a) == Normalise(b)
  {
    NormaliseKeepsSignificant(a);
    NormaliseKeepsSignificant(b);
  }

  lemma DisplayedSignificant(value: string)
    ensures Significant(Displayed(value)) == Significant(value)
  {
    StripQuotesKeepsSignificant(value);
    StripQuotesKeepsSignificant(StripQuotesLeft(value));
    DropEscapedKeepsSignificant(StripQuotesRight(StripQuotesLeft(value)));
  }

  /** What the operator is shown compares equal to what the provider asked for, whatever the provider sent. */
  lemma DisplayedNormalises(value: string)
    ensures Normalise(Displayed(value)) == Normalise(value)
  {
    DisplayedSignificant(value);
    SameSignificantSameNormal(Displayed(value), value);
  }

  // ---- Publishing --------------------------------------------------------------------

  function Join(chunks: seq<string>): string {
    if chunks == [] then "" else chunks[0] + Join(chunks[1..])
  }

  /** Chunks as a zone file or a registrar writes them: each in quotes, blanks in between. */
  function Quoted(chunks: seq<string>): string {
    if chunks == [] then "" else "\"" + chunks[0] + "\" " + Quoted(chunks[1..])
  }

  lemma {:induction false} QuotingIsSilent(chunks: seq<string>)
    ensures Significant(Quoted(chunks)) == Significant(Join(chunks))
  {
    if chunks != [] {
      QuotingIsSilent(chunks[1..]);
      SignificantConcat(chunks[0], Join(chunks[1..]));
      SignificantConcat("\"" + chunks[0], "\" ");
      SignificantConcat("\"" + chunks[0] + "\" ", Quoted(chunks[1..]));
      QuoteOpens(chunks[0]);
      QuoteCloses();
    }
  }

  lemma QuoteOpens(chunk: string)
    ensures Significant("\"" + chunk) == Significant(chunk)
  {
    assert ("\"" + chunk)[1..] == chunk;
  }

  lemma QuoteCloses()
    ensures Significant("\" ") == ""
  {
    assert "\" "[1..] == " ";
    assert " "[1..] == "";
  }

  /** The forms in which a published value can come back from a resolver. */
  ghost predicate PublishedAs(value: string, found: string) {
    exists chunks :: Join(chunks) == value && (found == Join(chunks) || found == Quoted(chunks))
  }

  // ---- Checking ----------------------------------------------------------------------

  datatype CheckResult = Pass | Fail | Missing | Error

  /** A TXT lookup: an error, or the values found; no value and no error means there is no record. */
  datatype Lookup = Values(values: seq<string>) | LookupError

  /** `check_dkim`. */
  function CheckDkim(selector: Option<string>, expected: Option<string>, lookup: Lookup): CheckResult {
    if selector.GetOr("") == "" || expected.GetOr("") == "" then Missing
    else if lookup.LookupError? then Error
    else if lookup.values == [] then Missing
    else if exists i :: 0 <= i < |lookup.values| && Normalise(lookup.values[i]) == Normalise(expected.value) then Pass
    else Fail
  }

  /**
    Publishing what is displayed makes the check pass: for every value the provider may send, every
    split into chunks (joined as section 3.6.2.2 of RFC 6376 says, or still quoted), and whatever
    other records the name carries.
  */
  lemma PublishingWhatIsShownPasses(selector: string, value: string, values: seq<string>, i: nat)
    requires selector != "" && value != ""
    requires i < |values| && PublishedAs(Displayed(value), values[i])
    ensures CheckDkim(Some(selector), Some(value), Values(values)) == Pass
  {
    var chunks :| Join(chunks) == Displayed(value) && (values[i] == Join(chunks) || values[i] == Quoted(chunks));
    QuotingIsSilent(chunks);
    DisplayedSignificant(value);
    SameSignificantSameNormal(values[i], value);
  }

  /** Conversely the check passes only on a value with the same significant characters, blanks at the ends aside. */
  lemma PassMeansSameKey(selector: string, value: string, values: seq<string>)
    requires CheckDkim(Some(selector), Some(value), Values(values)) == Pass
    ensures exists i :: 0 <= i < |values| && Strip(Significant(values[i])) == Strip(Significant(Displayed(value)))
  {
    var i :| 0 <= i < |values| && Normalise(values[i]) == Normalise(value);
    NormaliseKeepsSignificant(values[i]);
    NormaliseKeepsSignificant(value);
    DisplayedSignificant(value);
  }
}
