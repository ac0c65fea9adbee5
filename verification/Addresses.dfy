/**
  Address normalisation, shared by ingestion, suppression and sender authorization
  (`_normalise_recipients`, `normalise_address`, `parse_from_address`). The library parser that strips
  a display name is a parameter.
*/
module Addresses {
  import opened Prelude
  import opened Text

  type Parser = string -> string

  /** The part of `address.rpartition("@")` after the last `@`; everything if there is none. */
  function DomainPart(address: string): string {
    if address == "" then ""
    else if address[|address| - 1] == '@' then ""
    else DomainPart(address[..|address| - 1]) + [address[|address| - 1]]
  }

  /** A local part, an `@`, and a domain that holds a dot and does not start with one. */
  predicate WellFormed(address: string) {
    var domain := DomainPart(address);
    |address| > |domain| + 1 && domain != "" && '.' in domain && domain[0] != '.'
  }

  /** Only the last `@` counts. */
  predicate LastAt(address: string, i: nat) {
    i < |address| && address[i] == '@' && forall j :: i < j < |address| ==> address[j] != '@'
  }

  lemma {:induction false} DomainPartIs(address: string)
    ensures '@' !in address ==> DomainPart(address) == address
    ensures forall i :: 0 <= i < |address| && LastAt(address, i) ==> DomainPart(address) == address[i + 1..]
  {
    if address != "" && address[|address| - 1] != '@' {
      var n := |address| - 1;
      DomainPartIs(address[..n]);
      forall i | 0 <= i < |address| && LastAt(address, i) ensures DomainPart(address) == address[i + 1..] {
        assert LastAt(address[..n], i);
        assert address[..n][i + 1..] + [address[n]] == address[i + 1..];
      }
      assert '@' !in address ==> '@' !in address[..n];
    }
  }

  lemma {:induction false} LastAtExists(address: string) returns (i: nat)
    requires '@' in address
    ensures LastAt(address, i)
  {
    var n := |address| - 1;
    if address[n] == '@' {
      i := n;
    } else {
      assert address == address[..n] + [address[n]];
      i := LastAtExists(address[..n]);
    }
  }

  /** Something, an `@`, and after the last one a name with a dot in it but not at its start. */
  lemma WellFormedIff(address: string)
    ensures WellFormed(address) <==>
            exists i :: 0 < i < |address| - 1 && LastAt(address, i) && address[i + 1] != '.'
                        && exists j :: i + 1 < j < |address| && address[j] == '.'
  {
    DomainPartIs(address);
    if '@' in address {
      var at := LastAtExists(address);
      var domain := DomainPart(address);
      assert domain == address[at + 1..];
      forall i | 0 <= i < |address| && LastAt(address, i) ensures i == at {
      }
      if '.' in domain && domain[0] != '.' {
        var k :| 0 <= k < |domain| && domain[k] == '.';
        assert address[at + 1 + k] == '.';
      }
      if j :| at + 1 < j < |address| && address[j] == '.' {
        assert domain[j - (at + 1)] == '.';
      }
    }
  }

  function Canonical(parse: Parser, raw: string): string {
    Lower(Strip(parse(raw)))
  }

  function Normalise(parse: Parser, raw: string): Option<string> {
    var address := Canonical(parse, raw);
    if WellFormed(address) then Some(address) else None
  }

  /** A normal form is a well-formed address in lower case, without blanks around it. */
  lemma NormalFormsAreTidy(parse: Parser, raw: string)
    requires Normalise(parse, raw).Some?
    ensures var address := Normalise(parse, raw).value;
            WellFormed(address) && Trimmed(address) && forall i :: 0 <= i < |address| ==> !('A' <= address[i] <= 'Z')
  {
    StripIsTrimmed(parse(raw));
    LowerKeepsTrimmed(Strip(parse(raw)));
  }

  /** Neither letter case nor blanks around it make a different address. */
  lemma SpellingsCoincide(parse: Parser, raw: string, other: string)
    requires SameLetters(Strip(parse(raw)), Strip(parse(other)))
    ensures Normalise(parse, raw) == Normalise(parse, other)
  {
    SameLettersSameLower(Strip(parse(raw)), Strip(parse(other)));
  }

  /** How a raw value is read as an address, with everything above folded into one function. */
  type Reading = string -> Option<string>

  function Reader(parse: Parser): Reading {
    raw => Normalise(parse, raw)
  }

  /** Reading a normalised address once more changes nothing. */
  ghost predicate Stable(read: Reading) {
    forall raw :: read(raw).Some? ==> read(read(raw).value) == read(raw)
  }

  lemma ReaderIsStable(parse: Parser)
    requires Idempotent(parse)
    ensures Stable(Reader(parse))
  {
    forall raw | Reader(parse)(raw).Some? ensures Reader(parse)(Reader(parse)(raw).value) == Reader(parse)(raw) {
      NormaliseIsIdempotent(parse, raw);
    }
  }

  /** An address that parsing leaves alone, as it does every bare address. */
  predicate Bare(parse: Parser, address: string) {
    parse(address) == address
  }

  /** The parser is idempotent as far as normalised addresses go. */
  ghost predicate Idempotent(parse: Parser) {
    forall raw :: Normalise(parse, raw).Some? ==> Bare(parse, Normalise(parse, raw).value)
  }

  /** Where the parser leaves normalised addresses alone, a normal form is its own normal form. */
  lemma NormaliseIsIdempotent(parse: Parser, raw: string)
    requires Idempotent(parse)
    ensures Normalise(parse, raw).Some? ==> Normalise(parse, Normalise(parse, raw).value) == Normalise(parse, raw)
  {
    if Normalise(parse, raw).Some? {
      CanonicalIsFixed(parse, Normalise(parse, raw).value, parse(raw));
    }
  }

  lemma CanonicalIsFixed(parse: Parser, address: string, text: string)
    requires address == Lower(Strip(text)) && Bare(parse, address)
    ensures Canonical(parse, address) == address
  {
    StripIsTrimmed(text);
    LowerKeepsTrimmed(Strip(text));
    TrimmedIsStripped(address);
    LowerIsIdempotent(Strip(text));
  }
}
