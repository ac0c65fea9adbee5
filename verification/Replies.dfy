/**
  Replies of the provider in words (`tests/test_phase5.py` has the ones it was seen to give): what the
  classification table makes of them, whatever the case of their letters.
*/
module Replies {
  import opened Prelude
  import opened Text
  import opened Verdicts

  /** Whatever is found is spelt out in the lower-case text. */
  lemma FoundIsSpelt(text: string, pieces: seq<string>, j: nat, k: nat)
    requires j < |pieces| && k < |pieces[j]| && Find(text, pieces)
    ensures pieces[j][k] in text
  {
    FindIff(text, pieces);
    var at :| Laid(text, pieces, at);
    assert text[at[j] + k] == pieces[j][k];
  }

  /** Which alternative it was. */
  lemma Alternative(pattern: Pattern, text: string) returns (i: nat)
    requires Search(pattern, text)
    ensures i < |pattern| && Find(Lower(text), pattern[i])
  {
    i :| 0 <= i < |pattern| && Find(Lower(text), pattern[i]);
  }

  /** A found phrase has these letters. */
  lemma Spelt(text: string, phrase: string, k: nat, l: nat, m: nat)
    requires k < |phrase| && l < |phrase| && m < |phrase| && Find(text, [phrase])
    ensures phrase[k] in text && phrase[l] in text && phrase[m] in text
  {
    FoundIsSpelt(text, [phrase], 0, k);
    FoundIsSpelt(text, [phrase], 0, l);
    FoundIsSpelt(text, [phrase], 0, m);
  }

  // Letters without which a pattern cannot be found.

  predicate LimitLetters(lower: string) {
    && 't' in lower && ('a' in lower || 'm' in lower || 'o' in lower)
    && ('i' in lower || 'n' in lower || 'q' in lower || 'x' in lower || 'g' in lower || 'h' in lower)
  }

  lemma LimitSpelt0(lower: string, i: nat)
    requires 0 <= i < 3 && Find(lower, OverLimit()[i])
    ensures LimitLetters(lower)
  {
    if i == 0 {
      Spelt(lower, "rate limit", 2, 1, 6);
    } else if i == 1 {
      Spelt(lower, "too many messages", 0, 1, 6);
    } else {
      Spelt(lower, "message limit", 12, 0, 9);
    }
  }

  lemma LimitSpelt1(lower: string, i: nat)
    requires 3 <= i < 6 && Find(lower, OverLimit()[i])
    ensures LimitLetters(lower)
  {
    if i == 3 {
      Spelt(lower, "sending limit", 12, 10, 4);
    } else if i == 4 {
      Spelt(lower, "quota exceeded", 3, 2, 0);
    } else {
      FoundIsSpelt(lower, ["exceeded ", "limit"], 1, 4);
      FoundIsSpelt(lower, ["exceeded ", "limit"], 1, 2);
      FoundIsSpelt(lower, ["exceeded ", "limit"], 1, 1);
    }
  }

  lemma LimitSpelt2(lower: string, i: nat)
    requires 6 <= i < 9 && Find(lower, OverLimit()[i])
    ensures LimitLetters(lower)
  {
    if i == 6 {
      Spelt(lower, "limit exceeded", 4, 2, 1);
    } else if i == 7 {
      Spelt(lower, "try again later", 0, 4, 5);
    } else {
      Spelt(lower, "throttl", 0, 3, 1);
    }
  }

  lemma LimitSpelt(text: string)
    ensures Search(OverLimit(), text) ==> LimitLetters(Lower(text))
  {
    if Search(OverLimit(), text) {
      var i := Alternative(OverLimit(), text);
      if i < 3 {
        LimitSpelt0(Lower(text), i);
      } else if i < 6 {
        LimitSpelt1(Lower(text), i);
      } else {
        LimitSpelt2(Lower(text), i);
      }
    }
  }

  predicate RecipientLetters(lower: string) {
    'n' in lower
  }

  lemma RecipientSpelt0(lower: string, i: nat)
    requires 0 <= i < 3 && Find(lower, BadRecipient()[i])
    ensures RecipientLetters(lower)
  {
    if i == 0 {
      Spelt(lower, "user unknown", 6, 6, 6);
    } else if i == 1 {
      Spelt(lower, "no such user", 0, 0, 0);
    } else {
      Spelt(lower, "mailbox unavailable", 9, 9, 9);
    }
  }

  lemma RecipientSpelt1(lower: string, i: nat)
    requires 3 <= i < 5 && Find(lower, BadRecipient()[i])
    ensures RecipientLetters(lower)
  {
    if i == 3 {
      Spelt(lower, "does not exist", 5, 5, 5);
    } else {
      Spelt(lower, "invalid recipient", 1, 1, 1);
    }
  }

  lemma RecipientSpelt(text: string)
    ensures Search(BadRecipient(), text) ==> RecipientLetters(Lower(text))
  {
    if Search(BadRecipient(), text) {
      var i := Alternative(BadRecipient(), text);
      if i < 3 {
        RecipientSpelt0(Lower(text), i);
      } else {
        RecipientSpelt1(Lower(text), i);
      }
    }
  }

  predicate PolicyLetters(lower: string) {
    && ('p' in lower || 'b' in lower || 'j' in lower)
    && ('s' in lower || 'k' in lower || 'u' in lower || 'i' in lower || 'j' in lower)
  }

  lemma PolicySpelt0(lower: string, i: nat)
    requires 0 <= i < 3 && Find(lower, Policy()[i])
    ensures PolicyLetters(lower)
  {
    if i == 0 {
      Spelt(lower, "spam", 1, 0, 0);
    } else if i == 1 {
      Spelt(lower, "blocked", 0, 4, 0);
    } else {
      Spelt(lower, "blacklist", 0, 4, 0);
    }
  }

  lemma PolicySpelt1(lower: string, i: nat)
    requires 3 <= i < 6 && Find(lower, Policy()[i])
    ensures PolicyLetters(lower)
  {
    if i == 3 {
      Spelt(lower, "reputation", 2, 3, 0);
    } else if i == 4 {
      Spelt(lower, "policy", 0, 3, 0);
    } else {
      Spelt(lower, "rejected due to", 2, 2, 0);
    }
  }

  lemma PolicySpelt(text: string)
    ensures Search(Policy(), text) ==> PolicyLetters(Lower(text))
  {
    if Search(Policy(), text) {
      var i := Alternative(Policy(), text);
      if i < 3 {
        PolicySpelt0(Lower(text), i);
      } else {
        PolicySpelt1(Lower(text), i);
      }
    }
  }

  predicate SizeLetters(lower: string) {
    's' in lower && ('m' in lower || 'z' in lower || 'x' in lower)
  }

  lemma SizeSpelt0(lower: string, i: nat)
    requires 0 <= i < 3 && Find(lower, TooLarge()[i])
    ensures SizeLetters(lower)
  {
    if i == 0 {
      Spelt(lower, "message too large", 2, 0, 0);
    } else if i == 1 {
      Spelt(lower, "size exceeds", 0, 2, 0);
    } else {
      Spelt(lower, "exceeds maximum", 6, 8, 0);
    }
  }

  lemma SizeSpelt(text: string)
    ensures Search(TooLarge(), text) ==> SizeLetters(Lower(text))
  {
    if Search(TooLarge(), text) {
      var i := Alternative(TooLarge(), text);
      SizeSpelt0(Lower(text), i);
    }
  }

  predicate GreylistLetters(lower: string) {
    'r' in lower && ('g' in lower || 'i' in lower)
  }

  lemma GreylistSpelt0(lower: string, i: nat)
    requires 0 <= i < 3 && Find(lower, Greylisted()[i])
    ensures GreylistLetters(lower)
  {
    if i == 0 {
      Spelt(lower, "greylist", 1, 0, 0);
    } else if i == 1 {
      Spelt(lower, "greylisted", 1, 0, 0);
    } else {
      Spelt(lower, "temporarily deferred", 5, 8, 0);
    }
  }

  lemma GreylistSpelt1(lower: string, i: nat)
    requires 3 <= i < 4 && Find(lower, Greylisted()[i])
    ensures GreylistLetters(lower)
  {
    Spelt(lower, "try again", 1, 5, 0);
  }

  lemma GreylistSpelt(text: string)
    ensures Search(Greylisted(), text) ==> GreylistLetters(Lower(text))
  {
    if Search(Greylisted(), text) {
      var i := Alternative(Greylisted(), text);
      if i < 3 {
        GreylistSpelt0(Lower(text), i);
      } else {
        GreylistSpelt1(Lower(text), i);
      }
    }
  }

  /** None of the rules that name a code applies. */
  predicate Unnamed(code: int, text: string) {
    code != 535 && (code == 550 ==> !Search(NoSuchRecipient(), text) && !Search(LoginMismatch(), text)
                                    && !Search(IpRange(), text))
  }

  lemma LimitVerdict(code: int, text: string)
    requires Strip(text) == text && Unnamed(code, text) && Search(OverLimit(), text)
    ensures Classify(Some(code), Some(text)) == Verdict(RateLimited, true, false)
  {
    TableByCases(code, text);
  }

  lemma RecipientVerdict(code: int, text: string)
    requires Strip(text) == text && Unnamed(code, text) && Search(BadRecipient(), text)
    requires !LimitLetters(Lower(text))
    ensures Classify(Some(code), Some(text)) == Verdict(RecipientRejected, false, false)
  {
    TableByCases(code, text);
    LimitSpelt(text);
  }

  lemma PolicyVerdict(code: int, text: string)
    requires Strip(text) == text && Unnamed(code, text) && Search(Policy(), text)
    requires !LimitLetters(Lower(text)) && !RecipientLetters(Lower(text))
    ensures Classify(Some(code), Some(text)) == Verdict(PolicyRejected, false, true)
  {
    TableByCases(code, text);
    LimitSpelt(text);
    RecipientSpelt(text);
  }

  lemma SizeVerdict(code: int, text: string)
    requires Strip(text) == text && Unnamed(code, text) && Search(TooLarge(), text)
    requires !LimitLetters(Lower(text)) && !RecipientLetters(Lower(text)) && !PolicyLetters(Lower(text))
    ensures Classify(Some(code), Some(text)) == Verdict(MessageInvalid, false, false)
  {
    TableByCases(code, text);
    LimitSpelt(text);
    RecipientSpelt(text);
    PolicySpelt(text);
  }

  lemma GreylistVerdict(code: int, text: string)
    requires Strip(text) == text && Unnamed(code, text) && Search(Greylisted(), text)
    requires !LimitLetters(Lower(text)) && !RecipientLetters(Lower(text)) && !PolicyLetters(Lower(text))
    requires !SizeLetters(Lower(text))
    ensures Classify(Some(code), Some(text)) == Verdict(ProviderDeferral, true, false)
  {
    TableByCases(code, text);
    LimitSpelt(text);
    RecipientSpelt(text);
    PolicySpelt(text);
    SizeSpelt(text);
  }

  lemma DefaultVerdict(code: int, text: string)
    requires Strip(text) == text && Unnamed(code, text)
    requires !LimitLetters(Lower(text)) && !RecipientLetters(Lower(text)) && !PolicyLetters(Lower(text))
    requires !SizeLetters(Lower(text)) && !GreylistLetters(Lower(text))
    ensures Classify(Some(code), Some(text))
         == if 200 <= code < 300 then Verdict(Unknown, false, false)
            else if 400 <= code < 500 then Verdict(ProviderDeferral, true, false)
            else Verdict(Unknown, true, true)
  {
    TableByCases(code, text);
    LimitSpelt(text);
    RecipientSpelt(text);
    PolicySpelt(text);
    SizeSpelt(text);
    GreylistSpelt(text);
  }

  /** The text begins with this alternative. */
  lemma SaysIt(pattern: Pattern, i: nat, text: string, phrase: string)
    requires i < |pattern| && pattern[i] == [phrase] && phrase <= Lower(text)
    ensures Search(pattern, text)
  {
    assert MatchAt(Lower(text), [phrase]);
    assert Find(Lower(text), pattern[i]);
  }

  /** Two letters next to each other in a phrase are next to each other where it is found. */
  lemma SideBySide(text: string, phrase: string, k: nat) returns (p: nat)
    requires k + 1 < |phrase| && Find(text, [phrase])
    ensures p + 1 < |text| && text[p] == phrase[k] && text[p + 1] == phrase[k + 1]
  {
    FindIff(text, [phrase]);
    var at :| Laid(text, [phrase], at);
    p := at[0] + k;
    assert text[at[0] + (k + 1)] == phrase[k + 1];
  }

  /** A pattern that is one phrase. */
  lemma OnlyPhrase(pattern: Pattern, text: string, phrase: string)
    requires pattern == [[phrase]] && Search(pattern, text)
    ensures Find(Lower(text), [phrase])
  {
    var i := Alternative(pattern, text);
  }

  predicate Together(lower: string, c: char, d: char) {
    exists p :: 0 <= p < |lower| - 1 && lower[p] == c && lower[p + 1] == d
  }

  lemma FoundTogether(lower: string, phrase: string, k: nat, c: char, d: char)
    requires k + 1 < |phrase| && phrase[k] == c && phrase[k + 1] == d && Find(lower, [phrase])
    ensures Together(lower, c, d)
  {
    var p := SideBySide(lower, phrase, k);
  }

  lemma RecipientIsSpelt(text: string)
    requires Search(NoSuchRecipient(), text)
    ensures 'e' in Lower(text) && 'n' in Lower(text)
  {
    OnlyPhrase(NoSuchRecipient(), text, "no such recipient here");
    HasLetter(Lower(text), "no such recipient here", 9, 'e');
    HasLetter(Lower(text), "no such recipient here", 0, 'n');
  }

  lemma RecipientIsTogether(text: string)
    requires Search(NoSuchRecipient(), text)
    ensures Together(Lower(text), 'u', 'c')
  {
    OnlyPhrase(NoSuchRecipient(), text, "no such recipient here");
    FoundTogether(Lower(text), "no such recipient here", 4, 'u', 'c');
  }

  lemma LoginIsTogether(text: string)
    requires Search(LoginMismatch(), text)
    ensures Together(Lower(text), 'm', 'u')
  {
    OnlyPhrase(LoginMismatch(), text, "must match your login");
    FoundTogether(Lower(text), "must match your login", 0, 'm', 'u');
  }

  /** One letter of a found phrase. */
  lemma HasLetter(text: string, phrase: string, k: nat, c: char)
    requires k < |phrase| && phrase[k] == c && Find(text, [phrase])
    ensures c in text
  {
    FoundIsSpelt(text, [phrase], 0, k);
  }

  lemma RangeIsSpelt(text: string)
    requires Search(IpRange(), text)
    ensures 'n' in Lower(text)
  {
    OnlyPhrase(IpRange(), text, "only accepted from authorized ip ranges");
    HasLetter(Lower(text), "only accepted from authorized ip ranges", 1, 'n');
  }

  /** Which of the named rules for 550 are out, by the letters that are missing. */
  lemma NamesMissing(text: string)
    ensures 'e' !in Lower(text) || 'n' !in Lower(text) || !Together(Lower(text), 'u', 'c') ==>
              !Search(NoSuchRecipient(), text)
    ensures !Together(Lower(text), 'm', 'u') ==> !Search(LoginMismatch(), text)
    ensures 'n' !in Lower(text) ==> !Search(IpRange(), text)
  {
    if Search(NoSuchRecipient(), text) {
      RecipientIsSpelt(text);
      RecipientIsTogether(text);
    }
    if Search(LoginMismatch(), text) {
      LoginIsTogether(text);
    }
    if Search(IpRange(), text) {
      RangeIsSpelt(text);
    }
  }

  lemma NamedVerdict(code: int, text: string)
    requires Strip(text) == text
    ensures code == 535 && Search(BadCredential(), text) ==>
              Classify(Some(code), Some(text)) == Verdict(AuthFailure, false, true)
    ensures code == 550 && Search(NoSuchRecipient(), text) ==>
              Classify(Some(code), Some(text)) == Verdict(RecipientRejected, false, false)
    ensures code == 550 && !Search(NoSuchRecipient(), text) && Search(LoginMismatch(), text) ==>
              Classify(Some(code), Some(text)) == Verdict(SenderMismatch, false, true)
    ensures code == 550 && !Search(NoSuchRecipient(), text) && !Search(LoginMismatch(), text)
            && Search(IpRange(), text) ==>
              Classify(Some(code), Some(text)) == Verdict(SenderUnauthorized, false, true)
  {
    TableByCases(code, text);
  }

  lemma LoginLetters()
    ensures 'e' !in "must match your login"
  {
  }

  lemma RangeLetters()
    ensures !Together("only accepted from authorized ip ranges", 'u', 'c')
    ensures !Together("only accepted from authorized ip ranges", 'm', 'u')
  {
  }

  lemma ThrottledLetters()
    ensures 'n' !in "throttled" && !Together("throttled", 'm', 'u')
  {
  }

  lemma SizeLettersOnly()
    ensures !LimitLetters("size exceeds") && !RecipientLetters("size exceeds") && !PolicyLetters("size exceeds")
  {
  }

  lemma GreylistedLetters()
    ensures !LimitLetters("greylisted") && !RecipientLetters("greylisted") && !PolicyLetters("greylisted")
    ensures !SizeLetters("greylisted")
  {
  }

  lemma LocalLetters()
    ensures var lower := "local problem";
            && !LimitLetters(lower) && !RecipientLetters(lower) && !PolicyLetters(lower)
            && !SizeLetters(lower) && !GreylistLetters(lower)
  {
  }

  lemma CredentialReply(text: string)
    requires Reads(text, "incorrect authentication data")
    ensures Classify(Some(535), Some(text)) == Verdict(AuthFailure, false, true)
  {
    SaysIt(BadCredential(), 0, text, "incorrect authentication data");
    NamedVerdict(535, text);
  }

  lemma RecipientReply(text: string)
    requires Reads(text, "no such recipient here")
    ensures Classify(Some(550), Some(text)) == Verdict(RecipientRejected, false, false)
    ensures Condemns(Some(550), Some(text))
  {
    SaysIt(NoSuchRecipient(), 0, text, "no such recipient here");
    NamedVerdict(550, text);
    SaysIt(AddressIsDead(), 0, text, "no such recipient");
  }

  lemma LoginReply(text: string)
    requires Reads(text, "must match your login")
    ensures Classify(Some(550), Some(text)) == Verdict(SenderMismatch, false, true)
  {
    LoginLetters();
    SaysIt(LoginMismatch(), 0, text, "must match your login");
    NamesMissing(text);
    NamedVerdict(550, text);
  }

  lemma RangeReply(text: string)
    requires Reads(text, "only accepted from authorized ip ranges")
    ensures Classify(Some(550), Some(text)) == Verdict(SenderUnauthorized, false, true)
  {
    RangeLetters();
    SaysIt(IpRange(), 0, text, "only accepted from authorized ip ranges");
    NamesMissing(text);
    NamedVerdict(550, text);
  }

  lemma LimitReply(text: string)
    requires Reads(text, "throttled")
    ensures Classify(Some(550), Some(text)) == Verdict(RateLimited, true, false)
  {
    ThrottledLetters();
    SaysIt(OverLimit(), 8, text, "throttl");
    NamesMissing(text);
    LimitVerdict(550, text);
  }

  lemma MailboxReply(text: string)
    requires Reads(text, "mailbox unavailable")
    ensures Classify(Some(450), Some(text)) == Verdict(RecipientRejected, false, false)
    ensures !Condemns(Some(450), Some(text))
  {
    SaysIt(BadRecipient(), 2, text, "mailbox unavailable");
    RecipientVerdict(450, text);
  }

  lemma PolicyReply(text: string)
    requires Reads(text, "blocked")
    ensures Classify(Some(554), Some(text)) == Verdict(PolicyRejected, false, true)
  {
    SaysIt(Policy(), 1, text, "blocked");
    PolicyVerdict(554, text);
  }

  lemma SizeReply(text: string)
    requires Reads(text, "size exceeds")
    ensures Classify(Some(552), Some(text)) == Verdict(MessageInvalid, false, false)
  {
    SizeLettersOnly();
    SaysIt(TooLarge(), 1, text, "size exceeds");
    SizeVerdict(552, text);
  }

  lemma GreylistReply(text: string)
    requires Reads(text, "greylisted")
    ensures Classify(Some(554), Some(text)) == Verdict(ProviderDeferral, true, false)
  {
    GreylistedLetters();
    SaysIt(Greylisted(), 0, text, "greylist");
    GreylistVerdict(554, text);
  }

  lemma LocalReply(text: string)
    requires Reads(text, "local problem")
    ensures Classify(Some(451), Some(text)) == Verdict(ProviderDeferral, true, false)
  {
    LocalLetters();
    DefaultVerdict(451, text);
  }

  lemma UnknownReply(text: string)
    requires Reads(text, "go away")
    ensures Classify(Some(521), Some(text)) == Verdict(Unknown, true, true)
  {
    DefaultVerdict(521, text);
  }

  lemma SuccessReply(text: string)
    requires Reads(text, "ok")
    ensures Classify(Some(250), Some(text)) == Verdict(Unknown, false, false)
  {
    DefaultVerdict(250, text);
  }

  lemma StrayReply(text: string)
    requires Reads(text, "go ahead")
    ensures Classify(Some(354), Some(text)) == Verdict(Unknown, true, true)
  {
    DefaultVerdict(354, text);
  }

  lemma ActualCredentialReply()
    ensures Classify(Some(535), Some("Incorrect authentication data")) == Verdict(AuthFailure, false, true)
  {
    ReadsAs("Incorrect authentication data", "incorrect authentication data");
    CredentialReply("Incorrect authentication data");
  }

  lemma ActualRecipientReply()
    ensures Classify(Some(550), Some("No such recipient here")) == Verdict(RecipientRejected, false, false)
    ensures Condemns(Some(550), Some("No such recipient here"))
  {
    ReadsAs("No such recipient here", "no such recipient here");
    RecipientReply("No such recipient here");
  }

  lemma ActualLoginReply()
    ensures Classify(Some(550), Some("Must match your login")) == Verdict(SenderMismatch, false, true)
  {
    ReadsAs("Must match your login", "must match your login");
    LoginReply("Must match your login");
  }

  lemma RangeSpelling(text: string, lower: string)
    requires text == "Only accepted from authorized IP ranges" && lower == "only accepted from authorized ip ranges"
    ensures Trimmed(text) && |text| == |lower|
    ensures forall i :: 0 <= i < |text| ==> LowerChar(text[i]) == lower[i]
  {
  }

  lemma ActualRangeReply()
    ensures Classify(Some(550), Some("Only accepted from authorized IP ranges"))
         == Verdict(SenderUnauthorized, false, true)
  {
    RangeSpelling("Only accepted from authorized IP ranges", "only accepted from authorized ip ranges");
    ReadsAs("Only accepted from authorized IP ranges", "only accepted from authorized ip ranges");
    RangeReply("Only accepted from authorized IP ranges");
  }

  lemma ActualLimitReply()
    ensures Classify(Some(550), Some("Throttled")) == Verdict(RateLimited, true, false)
  {
    ReadsAs("Throttled", "throttled");
    LimitReply("Throttled");
  }

  lemma ActualMailboxReply()
    ensures Classify(Some(450), Some("Mailbox unavailable")) == Verdict(RecipientRejected, false, false)
    ensures !Condemns(Some(450), Some("Mailbox unavailable"))
  {
    ReadsAs("Mailbox unavailable", "mailbox unavailable");
    MailboxReply("Mailbox unavailable");
  }

  lemma ActualPolicyReply()
    ensures Classify(Some(554), Some("Blocked")) == Verdict(PolicyRejected, false, true)
  {
    ReadsAs("Blocked", "blocked");
    PolicyReply("Blocked");
  }

  lemma ActualSizeReply()
    ensures Classify(Some(552), Some("Size exceeds")) == Verdict(MessageInvalid, false, false)
  {
    ReadsAs("Size exceeds", "size exceeds");
    SizeReply("Size exceeds");
  }

  lemma ActualGreylistReply()
    ensures Classify(Some(554), Some("Greylisted")) == Verdict(ProviderDeferral, true, false)
  {
    ReadsAs("Greylisted", "greylisted");
    GreylistReply("Greylisted");
  }

  lemma ActualLocalReply()
    ensures Classify(Some(451), Some("Local problem")) == Verdict(ProviderDeferral, true, false)
  {
    ReadsAs("Local problem", "local problem");
    LocalReply("Local problem");
  }

  lemma ActualUnknownReply()
    ensures Classify(Some(521), Some("Go away")) == Verdict(Unknown, true, true)
  {
    ReadsAs("Go away", "go away");
    UnknownReply("Go away");
  }

  lemma ActualSuccessReply()
    ensures Classify(Some(250), Some("Ok")) == Verdict(Unknown, false, false)
  {
    ReadsAs("Ok", "ok");
    SuccessReply("Ok");
  }

  lemma ActualStrayReply()
    ensures Classify(Some(354), Some("Go ahead")) == Verdict(Unknown, true, true)
  {
    ReadsAs("Go ahead", "go ahead");
    StrayReply("Go ahead");
  }

  /**
    One reply for each rule and each default, in mixed case: the four seen at the provider, and one of each
    general kind. Over the limit is retried even as a 550; a 4xx can be final, but condemns nobody.
  */
  lemma KnownReplies()
    ensures Classify(Some(535), Some("Incorrect authentication data")) == Verdict(AuthFailure, false, true)
    ensures Classify(Some(550), Some("No such recipient here")) == Verdict(RecipientRejected, false, false)
    ensures Condemns(Some(550), Some("No such recipient here"))
    ensures Classify(Some(550), Some("Must match your login")) == Verdict(SenderMismatch, false, true)
    ensures Classify(Some(550), Some("Only accepted from authorized IP ranges"))
         == Verdict(SenderUnauthorized, false, true)
    ensures Classify(Some(550), Some("Throttled")) == Verdict(RateLimited, true, false)
    ensures Classify(Some(450), Some("Mailbox unavailable")) == Verdict(RecipientRejected, false, false)
    ensures !Condemns(Some(450), Some("Mailbox unavailable"))
    ensures Classify(Some(554), Some("Blocked")) == Verdict(PolicyRejected, false, true)
    ensures Classify(Some(552), Some("Size exceeds")) == Verdict(MessageInvalid, false, false)
    ensures Classify(Some(554), Some("Greylisted")) == Verdict(ProviderDeferral, true, false)
    ensures Classify(Some(451), Some("Local problem")) == Verdict(ProviderDeferral, true, false)
    ensures Classify(Some(521), Some("Go away")) == Verdict(Unknown, true, true)
    ensures Classify(Some(250), Some("Ok")) == Verdict(Unknown, false, false)
    ensures Classify(Some(354), Some("Go ahead")) == Verdict(Unknown, true, true)
    ensures Classify(None, Some("Connection reset")) == Verdict(Connection, true, false)
  {
    ActualCredentialReply();
    ActualRecipientReply();
    ActualLoginReply();
    ActualRangeReply();
    ActualLimitReply();
    ActualMailboxReply();
    ActualPolicyReply();
    ActualSizeReply();
    ActualGreylistReply();
    ActualLocalReply();
    ActualUnknownReply();
    ActualSuccessReply();
    ActualStrayReply();
  }
}
