/**
  The domain row and the operations that change it: `refresh_domain` and `required_dns_records`
  (`emaild/domains.py`) and `provision_mailbox` (`emaild/provisioning.py`).
*/
module Registry {
  import opened Prelude
  import opened Text
  import opened Lifecycle
  import Dkim
  import DomainNames

  // ---- The records to publish --------------------------------------------------------

  datatype MxRecord = MxRecord(hostname: Option<string>, priority: Option<int>)

  datatype Key = Key(name: Option<string>, value: Option<string>)

  /** The provider's answer; an absent entry is an empty one. */
  datatype DnsInfo = DnsInfo(mx: seq<MxRecord>, spf: Option<string>, dkim: Key, verification: Key)

  datatype Record =
    | MxShown(value: string, priority: int)
    | TxtShown(name: string, value: string)

  function ShowMx(mx: MxRecord): Record {
    MxShown(mx.hostname.GetOr(""), mx.priority.GetOr(10))
  }

  function ShowAllMx(mx: seq<MxRecord>): (r: seq<Record>)
    ensures |r| == |mx| && forall i :: 0 <= i < |mx| ==> r[i] == ShowMx(mx[i])
  {
    if mx == [] then [] else [ShowMx(mx[0])] + ShowAllMx(mx[1..])
  }

  function DkimShown(info: DnsInfo): Record {
    TxtShown(info.dkim.name.GetOr("x._domainkey"), Dkim.Displayed(info.dkim.value.GetOr("")))
  }

  predicate HasText(value: Option<string>) {
    value.GetOr("") != ""
  }

  /** What the operator must publish, in the order shown. */
  function RequiredRecords(info: DnsInfo): seq<Record> {
    ShowAllMx(info.mx)
    + (if HasText(info.spf) then [TxtShown("@", info.spf.value)] else [])
    + (if HasText(info.dkim.value) then [DkimShown(info)] else [])
    + (if HasText(info.verification.name) then
         [TxtShown(info.verification.name.value, info.verification.value.GetOr("domain-verified"))] else [])
    + [TxtShown("_dmarc", "v=DMARC1; p=none;")]
  }

  method BuildRecords(info: DnsInfo) returns (records: seq<Record>)
    ensures records == RequiredRecords(info)
  {
    records := [];
    for i := 0 to |info.mx|
      invariant records == ShowAllMx(info.mx)[..i]
    {
      records := records + [MxShown(info.mx[i].hostname.GetOr(""), info.mx[i].priority.GetOr(10))];
    }
    if HasText(info.spf) {
      records := records + [TxtShown("@", info.spf.value)];
    }
    if HasText(info.dkim.value) {
      var shown := Dkim.DropEscapedQuotes(Dkim.StripQuotesRight(Dkim.StripQuotesLeft(info.dkim.value.value)));
      records := records + [TxtShown(info.dkim.name.GetOr("x._domainkey"), shown)];
    }
    if HasText(info.verification.name) {
      records := records + [TxtShown(info.verification.name.value, info.verification.value.GetOr("domain-verified"))];
    }
    records := records + [TxtShown("_dmarc", "v=DMARC1; p=none;")];
  }

  const DMARC_SHOWN: Record := TxtShown("_dmarc", "v=DMARC1; p=none;")

  /** A record that the provider's answer, or our own advice, asks for. */
  predicate AskedFor(info: DnsInfo, r: Record) {
    || (exists i :: 0 <= i < |info.mx| &&
          r == MxShown(if info.mx[i].hostname.Some? then info.mx[i].hostname.value else "",
                       if info.mx[i].priority.Some? then info.mx[i].priority.value else 10))
    || (HasText(info.spf) && r == TxtShown("@", info.spf.value))
    || (HasText(info.dkim.value) && r.TxtShown? && r.value == Dkim.Displayed(info.dkim.value.value)
        && r.name == (if info.dkim.name.Some? then info.dkim.name.value else "x._domainkey"))
    || (HasText(info.verification.name) && r.TxtShown? && r.name == info.verification.name.value
        && r.value == (if info.verification.value.Some? then info.verification.value.value else "domain-verified"))
    || r == DMARC_SHOWN
  }

  /** The list has all of these and nothing else: the exchanges first, in the provider's order, and DMARC last. */
  lemma ListIsExact(info: DnsInfo, r: Record)
    ensures var records := RequiredRecords(info);
            && (r in records <==> AskedFor(info, r))
            && |records| > |info.mx| && records[|records| - 1] == DMARC_SHOWN
            && (forall i :: 0 <= i < |info.mx| ==>
                  records[i].MxShown? && records[i].value == info.mx[i].hostname.GetOr("")
                  && (info.mx[i].priority.Some? ==> records[i].priority == info.mx[i].priority.value))
  {
    var shown := ShowAllMx(info.mx);
    if r in shown {
      var i :| 0 <= i < |shown| && shown[i] == r;
      assert r == ShowMx(info.mx[i]);
    }
    if i :| 0 <= i < |info.mx| && r == ShowMx(info.mx[i]) {
      assert shown[i] == r;
    }
  }

  /** A name carries, among its TXT values, the value of a shown record in some published form. */
  ghost predicate Carries(values: seq<string>, record: Record)
    requires record.TxtShown?
  {
    exists i :: 0 <= i < |values| && Dkim.PublishedAs(record.value, values[i])
  }

  /**
    Once the provider has generated a DKIM key, the list shows a record for it. Publishing that record
    passes the check if and only if the provider has named the key: a key without a name is shown under
    a default name that the check never looks at.
  */
  lemma ShownDkimVerifiesIff(info: DnsInfo, values: seq<string>)
    requires HasText(info.dkim.value) && Carries(values, DkimShown(info))
    ensures DkimShown(info) in RequiredRecords(info)
    ensures HasText(info.dkim.name) ==> DkimShown(info).name == info.dkim.name.value
    ensures Dkim.CheckDkim(info.dkim.name, info.dkim.value, Dkim.Values(values)) == Dkim.Pass
       <==> HasText(info.dkim.name)
  {
    if HasText(info.dkim.name) {
      var i :| 0 <= i < |values| && Dkim.PublishedAs(DkimShown(info).value, values[i]);
      Dkim.PublishingWhatIsShownPasses(info.dkim.name.value, info.dkim.value.value, values, i);
    }
  }

  // ---- Checking what was published ---------------------------------------------------

  /** What the five lookups of a sweep find. MX answers are exchange names, without their final dot. */
  datatype Zone = Zone(
    mx: Dkim.Lookup, apex: Dkim.Lookup, selector: Dkim.Lookup, token: Dkim.Lookup, dmarc: Dkim.Lookup)

  /** `[r["hostname"] for r in mx_records if r.get("hostname")]`. */
  function Hosts(mx: seq<MxRecord>): seq<string> {
    if mx == [] then []
    else (if HasText(mx[0].hostname) then [mx[0].hostname.value] else []) + Hosts(mx[1..])
  }

  /** `check_mx`: the first host must be there, others may. */
  function CheckMx(expected: seq<string>, lookup: Dkim.Lookup): Dkim.CheckResult {
    if lookup.LookupError? then Dkim.Error
    else if lookup.values == [] then Dkim.Missing
    else
      var primary := if expected == [] then "" else DomainNames.StripDots(Lower(expected[0]));
      if primary != "" && exists i :: 0 <= i < |lookup.values| && Lower(lookup.values[i]) == primary then Dkim.Pass
      else Dkim.Fail
  }

  predicate IsSpf(value: string) {
    "v=spf1" <= Lower(Strip(value))
  }

  function SpfRecords(values: seq<string>): seq<string> {
    if values == [] then [] else (if IsSpf(values[0]) then [values[0]] else []) + SpfRecords(values[1..])
  }

  predicate Authorises(value: string) {
    Has(Lower(Dkim.Normalise(value)), "include:mxroute.com")
  }

  /** `check_spf`. */
  function CheckSpf(lookup: Dkim.Lookup): Dkim.CheckResult {
    if lookup.LookupError? then Dkim.Error
    else
      var records := SpfRecords(lookup.values);
      if records == [] then Dkim.Missing
      else if |records| > 1 || !Authorises(records[0]) then Dkim.Fail
      else Dkim.Pass
  }

  /** `check_ownership`. */
  function CheckOwnership(token: Option<string>, lookup: Dkim.Lookup): Dkim.CheckResult {
    if !HasText(token) then Dkim.Missing
    else if lookup.LookupError? then Dkim.Error
    else if exists i :: 0 <= i < |lookup.values| && Dkim.Normalise(lookup.values[i]) == "domain-verified" then Dkim.Pass
    else if lookup.values == [] then Dkim.Missing
    else Dkim.Fail
  }

  predicate IsDmarc(value: string) {
    "v=dmarc1" <= Lower(Strip(value))
  }

  /** `check_dmarc`, which only advises. */
  function CheckDmarc(lookup: Dkim.Lookup): Dkim.CheckResult {
    if lookup.LookupError? then Dkim.Error
    else if exists i :: 0 <= i < |lookup.values| && IsDmarc(lookup.values[i]) then Dkim.Pass
    else Dkim.Missing
  }

  /** `verify_domain`. */
  function VerifyDomain(info: DnsInfo, zone: Zone): (report: Report)
    ensures Complete(report)
  {
    map[
      Mx := CheckMx(Hosts(info.mx), zone.mx),
      Spf := CheckSpf(zone.apex),
      DkimKey := Dkim.CheckDkim(info.dkim.name, info.dkim.value, zone.selector),
      Dmarc := CheckDmarc(zone.dmarc),
      Ownership := CheckOwnership(info.verification.name, zone.token)]
  }

  /** Exchange names as a resolver returns them. */
  function Exchanges(hosts: seq<string>): seq<string> {
    if hosts == [] then [] else [DomainNames.StripDots(hosts[0])] + Exchanges(hosts[1..])
  }

  function TokenShown(info: DnsInfo): string {
    info.verification.value.GetOr("domain-verified")
  }

  /** The exchange names that a list of records shows. */
  function ShownHosts(records: seq<Record>): seq<string> {
    if records == [] then []
    else (if records[0].MxShown? && records[0].value != "" then [records[0].value] else []) + ShownHosts(records[1..])
  }

  /** What to publish under a name, if the list of records shows it. */
  function IfShown(records: seq<Record>, r: Record): seq<string>
    requires r.TxtShown?
  {
    if r in records then [r.value] else []
  }

  /**
    Each lookup of the sweep finds what the list of records says to publish for it, in any published form
    where there are several, and nothing beside it.
  */
  ghost predicate Publishes(zone: Zone, info: DnsInfo, records: seq<Record>) {
    && zone.mx == Dkim.Values(Exchanges(ShownHosts(records)))
    && zone.apex == Dkim.Values(IfShown(records, TxtShown("@", info.spf.GetOr(""))))
    && (if DkimShown(info) in records then zone.selector.Values? && Carries(zone.selector.values, DkimShown(info))
        else zone.selector == Dkim.Values([]))
    && zone.token == Dkim.Values(IfShown(records, TxtShown(info.verification.name.GetOr(""), TokenShown(info))))
    && zone.dmarc.Values?
    && forall r :: r in records && r.TxtShown? && r.name == "_dmarc" ==> r.value in zone.dmarc.values
  }

  /** What the provider must have said for its own records to be enough. */
  predicate Sufficient(info: DnsInfo) {
    && Hosts(info.mx) != [] && DomainNames.StripDots(Hosts(info.mx)[0]) != ""
    && HasText(info.spf) && IsSpf(info.spf.value) && Authorises(info.spf.value)
    && HasText(info.dkim.value) && HasText(info.dkim.name)
    && HasText(info.verification.name) && Dkim.Normalise(TokenShown(info)) == "domain-verified"
  }

  /**
    Publishing exactly the records listed proves the domain to the next sweep if and only if the provider's
    answer is sufficient: a primary host, an SPF value that authorises it, a named key, and a token whose
    value, if it sends one, reads as the one the check looks for. DMARC passes in any case.
  */
  lemma PublishingEverythingProvesIff(info: DnsInfo, zone: Zone)
    requires Publishes(zone, info, RequiredRecords(info))
    ensures Proven(VerifyDomain(info, zone)) <==> Sufficient(info)
    ensures VerifyDomain(info, zone)[Dmarc].Pass?
  {
    PrimaryIsPublished(info, zone);
    SpfIsPublished(info, zone);
    KeyIsPublished(info, zone);
    TokenIsPublished(info, zone);
    DmarcIsPublished(info, zone);
    ProvenByChecks(info, zone);
  }

  /** The report proves the domain if its four checks pass. */
  lemma ProvenByChecks(info: DnsInfo, zone: Zone)
    ensures Proven(VerifyDomain(info, zone)) <==>
            && CheckMx(Hosts(info.mx), zone.mx).Pass? && CheckSpf(zone.apex).Pass?
            && Dkim.CheckDkim(info.dkim.name, info.dkim.value, zone.selector).Pass?
            && CheckOwnership(info.verification.name, zone.token).Pass?
    ensures VerifyDomain(info, zone)[Dmarc] == CheckDmarc(zone.dmarc)
  {
  }

  lemma {:induction false} ShownHostsConcat(a: seq<Record>, b: seq<Record>)
    ensures ShownHosts(a + b) == ShownHosts(a) + ShownHosts(b)
  {
    if a == [] {
      assert a + b == b;
    } else {
      ShownHostsConcat(a[1..], b);
      assert (a + b)[1..] == a[1..] + b;
    }
  }

  lemma {:induction false} NoHostsInText(records: seq<Record>)
    requires forall i :: 0 <= i < |records| ==> records[i].TxtShown?
    ensures ShownHosts(records) == []
  {
    if records != [] {
      NoHostsInText(records[1..]);
    }
  }

  lemma {:induction false} ShownHostsOfMx(mx: seq<MxRecord>)
    ensures ShownHosts(ShowAllMx(mx)) == Hosts(mx)
  {
    if mx != [] {
      ShownHostsOfMx(mx[1..]);
      assert ShowAllMx(mx)[1..] == ShowAllMx(mx[1..]);
    }
  }

  lemma TextsComeLast(info: DnsInfo) returns (texts: seq<Record>)
    ensures RequiredRecords(info) == ShowAllMx(info.mx) + texts
    ensures forall i :: 0 <= i < |texts| ==> texts[i].TxtShown?
  {
    texts := RequiredRecords(info)[|info.mx|..];
  }

  /** The hosts in the list are those the provider gave. */
  lemma ListedHosts(info: DnsInfo)
    ensures ShownHosts(RequiredRecords(info)) == Hosts(info.mx)
  {
    var texts := TextsComeLast(info);
    ShownHostsConcat(ShowAllMx(info.mx), texts);
    NoHostsInText(texts);
    ShownHostsOfMx(info.mx);
  }

  lemma PrimaryIsPublished(info: DnsInfo, zone: Zone)
    requires zone.mx == Dkim.Values(Exchanges(ShownHosts(RequiredRecords(info))))
    ensures CheckMx(Hosts(info.mx), zone.mx).Pass? <==>
            Hosts(info.mx) != [] && DomainNames.StripDots(Hosts(info.mx)[0]) != ""
  {
    ListedHosts(info);
    var hosts := Hosts(info.mx);
    if hosts != [] {
      DomainNames.StripDotsKeepsCase(hosts[0]);
      assert zone.mx.values[0] == DomainNames.StripDots(hosts[0]);
      assert |Lower(DomainNames.StripDots(hosts[0]))| == |DomainNames.StripDots(hosts[0])|;
    }
  }

  lemma SpfIsPublished(info: DnsInfo, zone: Zone)
    requires zone.apex == Dkim.Values(IfShown(RequiredRecords(info), TxtShown("@", info.spf.GetOr(""))))
    ensures CheckSpf(zone.apex).Pass? <==> HasText(info.spf) && IsSpf(info.spf.value) && Authorises(info.spf.value)
  {
    ListIsExact(info, TxtShown("@", info.spf.GetOr("")));
    var value := info.spf.GetOr("");
    assert SpfRecords([value][1..]) == [];
    assert SpfRecords([value]) == if IsSpf(value) then [value] else [];
    if !HasText(info.spf) {
      EmptyIsNoSpf();
    }
  }

  lemma EmptyIsNoSpf()
    ensures !IsSpf("")
  {
  }

  lemma KeyIsPublished(info: DnsInfo, zone: Zone)
    requires Publishes(zone, info, RequiredRecords(info))
    ensures Dkim.CheckDkim(info.dkim.name, info.dkim.value, zone.selector).Pass? <==>
            HasText(info.dkim.value) && HasText(info.dkim.name)
  {
    if HasText(info.dkim.value) {
      ListIsExact(info, DkimShown(info));
      ShownDkimVerifiesIff(info, zone.selector.values);
    }
  }

  lemma TokenIsPublished(info: DnsInfo, zone: Zone)
    requires Publishes(zone, info, RequiredRecords(info))
    ensures CheckOwnership(info.verification.name, zone.token).Pass? <==>
            HasText(info.verification.name) && Dkim.Normalise(TokenShown(info)) == "domain-verified"
  {
    if HasText(info.verification.name) {
      ListIsExact(info, TxtShown(info.verification.name.value, TokenShown(info)));
      assert zone.token.values[0] == TokenShown(info);
    }
  }

  lemma DmarcIsPublished(info: DnsInfo, zone: Zone)
    requires Publishes(zone, info, RequiredRecords(info))
    ensures CheckDmarc(zone.dmarc).Pass?
  {
    ListIsExact(info, DMARC_SHOWN);
    DmarcReads(DMARC_SHOWN.value);
    OneDmarcPasses(zone.dmarc.values, DMARC_SHOWN.value);
  }

  lemma OneDmarcPasses(values: seq<string>, value: string)
    requires value in values && IsDmarc(value)
    ensures CheckDmarc(Dkim.Values(values)).Pass?
  {
    var i :| 0 <= i < |values| && values[i] == value;
  }

  lemma DmarcReads(value: string)
    requires value == "v=DMARC1; p=none;"
    ensures IsDmarc(value)
  {
    DmarcSpelling(value, "v=dmarc1; p=none;");
    ReadsAs(value, "v=dmarc1; p=none;");
    StartsWithIt(value, "v=dmarc1; p=none;");
  }

  lemma DmarcSpelling(value: string, lower: string)
    requires value == "v=DMARC1; p=none;" && lower == "v=dmarc1; p=none;"
    ensures Trimmed(value) && |value| == |lower|
    ensures forall i :: 0 <= i < |value| ==> LowerChar(value[i]) == lower[i]
    ensures "v=dmarc1" <= lower
  {
  }

  lemma StartsWithIt(value: string, lower: string)
    requires Reads(value, lower) && "v=dmarc1" <= lower
    ensures IsDmarc(value)
  {
  }

  // ---- What a sweep makes of its lookups ---------------------------------------------

  /** The host that mail must go to is among the exchanges found, letter case and final dots aside. */
  predicate PrimaryFound(info: DnsInfo, values: seq<string>) {
    && Hosts(info.mx) != []
    && var primary := DomainNames.StripDots(Hosts(info.mx)[0]);
       primary != "" && exists i :: 0 <= i < |values| && Lower(values[i]) == Lower(primary)
  }

  /** Value `i` is the only SPF record. */
  predicate OnlySpf(values: seq<string>, i: nat) {
    && i < |values| && IsSpf(values[i])
    && forall j :: 0 <= j < |values| && j != i ==> !IsSpf(values[j])
  }

  /**
    Each check passes on just the evidence it names, finds nothing missing but where nothing was found or
    nothing named, and a failed lookup is an error: never a refusal.
  */
  lemma LookupsDecide(info: DnsInfo, zone: Zone)
    ensures var report := VerifyDomain(info, zone);
            && (report[Mx].Error? <==> zone.mx.LookupError?)
            && (report[Mx].Missing? <==> zone.mx == Dkim.Values([]))
            && (report[Mx].Pass? <==> zone.mx.Values? && PrimaryFound(info, zone.mx.values))
            && (report[Spf].Error? <==> zone.apex.LookupError?)
            && (report[Spf].Missing? <==>
                  zone.apex.Values? && NoSpf(zone.apex.values))
            && (report[Spf].Pass? <==>
                  zone.apex.Values?
                  && exists i :: 0 <= i < |zone.apex.values| && OnlySpf(zone.apex.values, i)
                                 && Authorises(zone.apex.values[i]))
    ensures var report := VerifyDomain(info, zone);
            var named := HasText(info.dkim.name) && HasText(info.dkim.value);
            && (report[DkimKey].Error? <==> named && zone.selector.LookupError?)
            && (report[DkimKey].Missing? <==> !named || zone.selector == Dkim.Values([]))
            && (report[DkimKey].Pass? <==>
                  named && zone.selector.Values?
                  && exists v :: v in zone.selector.values
                                 && Dkim.Normalise(v) == Dkim.Normalise(info.dkim.value.value))
    ensures var report, named := VerifyDomain(info, zone), HasText(info.verification.name);
            && (report[Ownership].Error? <==> named && zone.token.LookupError?)
            && (report[Ownership].Missing? <==> !named || zone.token == Dkim.Values([]))
            && (report[Ownership].Pass? <==>
                  named && zone.token.Values?
                  && exists v :: v in zone.token.values && Dkim.Normalise(v) == "domain-verified")
    ensures var report := VerifyDomain(info, zone);
            && (report[Dmarc].Error? <==> zone.dmarc.LookupError?)
            && (report[Dmarc].Pass? <==>
                  zone.dmarc.Values? && exists v :: v in zone.dmarc.values && IsDmarc(v))
  {
    MxDecides(info, zone.mx);
    if zone.apex.Values? {
      SpfRecordsAre(zone.apex.values);
    }
    KeysDecide(info, zone);
  }

  /** SPF and DMARC records are known by how they begin, blanks before it and letter case aside. */
  lemma RecordsAreKnownByTheirStart(value: string)
    ensures IsSpf(value) <==> exists p: nat :: BeginsAt(value, "v=spf1", p)
    ensures IsDmarc(value) <==> exists p: nat :: BeginsAt(value, "v=dmarc1", p)
  {
    BeginsIff(value, "v=spf1");
    BeginsIff(value, "v=dmarc1");
  }

  /** A value authorises the provider if the mechanism stands in it anywhere, blanks and quotes aside. */
  lemma AuthorisesIff(value: string)
    ensures Authorises(value) <==>
            exists p: nat :: StandsAt(Lower(Strip(Dkim.Significant(value))), "include:mxroute.com", p)
  {
    var text := Lower(Strip(Dkim.Significant(value)));
    Dkim.NormaliseIs(value);
    HasIff(text, "include:mxroute.com");
    assert Lower(Dkim.Normalise(value)) == text;
    assert Authorises(value) <==> Has(Lower(Dkim.Normalise(value)), "include:mxroute.com");
    assert Authorises(value) <==> Has(text, "include:mxroute.com");
    assert Has(text, "include:mxroute.com") <==> exists p: nat :: StandsAt(text, "include:mxroute.com", p);
  }

  lemma MxDecides(info: DnsInfo, lookup: Dkim.Lookup)
    ensures var result := CheckMx(Hosts(info.mx), lookup);
            && (result.Error? <==> lookup.LookupError?)
            && (result.Missing? <==> lookup == Dkim.Values([]))
            && (result.Pass? <==> lookup.Values? && PrimaryFound(info, lookup.values))
  {
    var hosts := Hosts(info.mx);
    if hosts != [] {
      DomainNames.StripDotsKeepsCase(hosts[0]);
      assert |Lower(DomainNames.StripDots(hosts[0]))| == |DomainNames.StripDots(hosts[0])|;
    }
  }

  lemma KeysDecide(info: DnsInfo, zone: Zone)
    ensures zone.selector.Values? && HasText(info.dkim.name) && HasText(info.dkim.value) ==>
              (Dkim.CheckDkim(info.dkim.name, info.dkim.value, zone.selector).Pass? <==>
                 exists v :: v in zone.selector.values && Dkim.Normalise(v) == Dkim.Normalise(info.dkim.value.value))
    ensures zone.token.Values? && HasText(info.verification.name) ==>
              (CheckOwnership(info.verification.name, zone.token).Pass? <==>
                 exists v :: v in zone.token.values && Dkim.Normalise(v) == "domain-verified")
    ensures zone.dmarc.Values? ==>
              (CheckDmarc(zone.dmarc).Pass? <==>
                 exists v :: v in zone.dmarc.values && IsDmarc(v))
  {
  }

  /** The SPF records are the values that are one, in order. */
  lemma {:induction false} SpfRecordsAre(values: seq<string>)
    ensures SpfRecords(values) == [] <==> NoSpf(values)
    ensures |SpfRecords(values)| == 1 <==> exists i :: 0 <= i < |values| && OnlySpf(values, i)
    ensures forall i :: 0 <= i < |values| && OnlySpf(values, i) ==> SpfRecords(values) == [values[i]]
  {
    if values != [] {
      SpfRecordsAre(values[1..]);
      if IsSpf(values[0]) {
        SpfFirst(values);
      } else {
        SpfLater(values);
      }
    }
  }

  predicate NoSpf(values: seq<string>) {
    forall i :: 0 <= i < |values| ==> !IsSpf(values[i])
  }

  /** If the first value is one, it is the only one if the rest have none. */
  lemma SpfFirst(values: seq<string>)
    requires values != [] && IsSpf(values[0])
    ensures OnlySpf(values, 0) <==> NoSpf(values[1..])
    ensures forall i :: 0 < i < |values| ==> !OnlySpf(values, i)
  {
    assert forall i :: 0 <= i < |values[1..]| ==> values[1..][i] == values[i + 1];
    if NoSpf(values[1..]) {
      forall j | 0 <= j < |values| && j != 0 ensures !IsSpf(values[j]) {
        assert values[j] == values[1..][j - 1];
      }
    }
  }

  /** If it is not, the only one is in the rest. */
  lemma SpfLater(values: seq<string>)
    requires values != [] && !IsSpf(values[0])
    ensures NoSpf(values) <==> NoSpf(values[1..])
    ensures !OnlySpf(values, 0)
    ensures forall i :: 0 <= i < |values| - 1 ==> (OnlySpf(values[1..], i) <==> OnlySpf(values, i + 1))
    ensures forall i :: 0 < i < |values| ==> (OnlySpf(values, i) <==> OnlySpf(values[1..], i - 1))
  {
    var rest := values[1..];
    forall i: nat | i < |rest| ensures OnlySpf(rest, i) <==> OnlySpf(values, i + 1) {
      assert rest[i] == values[i + 1];
      if OnlySpf(rest, i) {
        forall j | 0 <= j < |values| && j != i + 1 ensures !IsSpf(values[j]) {
          assert j > 0 ==> values[j] == rest[j - 1];
        }
      }
      if OnlySpf(values, i + 1) {
        forall j | 0 <= j < |rest| && j != i ensures !IsSpf(rest[j]) {
          assert rest[j] == values[j + 1];
        }
      }
    }
    if NoSpf(rest) {
      forall i | 0 <= i < |values| ensures !IsSpf(values[i]) {
        assert i > 0 ==> values[i] == rest[i - 1];
      }
    }
    forall i | 0 < i < |values| ensures OnlySpf(values, i) <==> OnlySpf(rest, i - 1) {
      assert OnlySpf(rest, i - 1) <==> OnlySpf(values, (i - 1) + 1);
    }
  }

  /** A sweep whose lookups all fail, for a provider's answer that names what to look for, changes no status. */
  lemma OutagesChangeNothing(info: DnsInfo, zone: Zone, current: Status, hasMailbox: bool)
    requires zone == Zone(Dkim.LookupError, Dkim.LookupError, Dkim.LookupError, Dkim.LookupError, Dkim.LookupError)
    requires HasText(info.dkim.name) && HasText(info.dkim.value) && HasText(info.verification.name)
    ensures Held(VerifyDomain(info, zone)) && NextStatus(current, VerifyDomain(info, zone), hasMailbox) == current
  {
    LookupsDecide(info, zone);
  }

  /** A token sent without a value is shown with the one the check looks for. */
  lemma DefaultTokenPasses(info: DnsInfo)
    requires info.verification.value.None?
    ensures Dkim.Normalise(TokenShown(info)) == "domain-verified"
  {
    Dkim.NothingToDrop("domain-verified");
  }

  // ---- The row -----------------------------------------------------------------------

  /** How the provider answered the request to create a mailbox. */
  datatype Provider = Created | AlreadyThere(resetOk: bool) | Refused

  predicate Cooperates(provider: Provider) {
    provider.Created? || (provider.AlreadyThere? && provider.resetOk)
  }

  datatype ProvisioningError =
    | NotAnAddress
    | MissingLocalPart
    | WrongDomain
    | NotVerifiedYet
    | AlreadyProvisioned
    | PolicyViolation
    | ProviderFailed

  /** The part of `address` before its first `@`, or all of it. */
  function LocalPart(address: string): string {
    if address == "" || address[0] == '@' then "" else [address[0]] + LocalPart(address[1..])
  }

  /** This local part, which has no `@`, an `@`, and this name. */
  predicate IsAddressAt(address: string, local: string, name: string) {
    local != "" && '@' !in local && address == local + "@" + name
  }

  lemma {:induction false} LocalPartIs(address: string)
    ensures '@' !in LocalPart(address) && LocalPart(address) <= address
    ensures '@' in address ==> |LocalPart(address)| < |address| && address[|LocalPart(address)|] == '@'
  {
    if address != "" && address[0] != '@' {
      LocalPartIs(address[1..]);
      assert address == [address[0]] + address[1..];
    }
  }

  lemma AddressesAt(address: string, name: string)
    ensures (LocalPart(address) != "" && address == LocalPart(address) + "@" + name)
       <==> exists local :: IsAddressAt(address, local, name)
  {
    LocalPartIs(address);
    if LocalPart(address) != "" && address == LocalPart(address) + "@" + name {
      assert IsAddressAt(address, LocalPart(address), name);
    }
    if local :| IsAddressAt(address, local, name) {
      var found := LocalPart(address);
      assert address[|local|] == '@' && local == address[..|local|];
      NoAtBefore(address, local);
      NoAtBefore(address, found);
      assert found == address[..|found|];
    }
  }

  lemma NoAtBefore(address: string, part: string)
    requires part <= address && '@' !in part
    ensures forall k :: 0 <= k < |part| ==> address[k] != '@'
  {
    forall k | 0 <= k < |part| ensures address[k] != '@' {
      assert part[k] in part && part[k] == address[k];
    }
  }

  class DomainRow {
    const name: string
    var status: Status
    var smtpHost: Option<string>
    var requiredRecords: seq<Record>
    var verificationToken: Option<string>
    var mailboxes: set<string>

    constructor (name: string)
      ensures this.name == name && Model() == Domain(Added, 0)
    {
      this.name, status, smtpHost, requiredRecords, verificationToken, mailboxes := name, Added, None, [], None, {};
    }

    function Model(): Domain
      reads this
    {
      Domain(status, |mailboxes|)
    }

    /** `refresh_domain`. A failed provider call is None, and changes nothing. */
    method Refresh(info: Option<DnsInfo>, report: Report) returns (changed: bool)
      modifies this
      ensures Model() == Next(old(Model()), Sweep(if info.Some? then Some(report) else None))
      ensures changed == (status != old(status)) && mailboxes == old(mailboxes)
      ensures info.None? ==> smtpHost == old(smtpHost) && requiredRecords == old(requiredRecords)
                             && verificationToken == old(verificationToken)
      ensures info.Some? ==>
                && requiredRecords == RequiredRecords(info.value)
                && smtpHost == (if info.value.mx != [] then info.value.mx[0].hostname else old(smtpHost))
                && verificationToken == (if HasText(info.value.verification.name) then info.value.verification.name
                                         else old(verificationToken))
    {
      var previous := status;
      if info.None? {
        return false;
      }
      var next := NextStatus(previous, report, |mailboxes| > 0);
      if info.value.mx != [] {
        smtpHost := info.value.mx[0].hostname;
      }
      requiredRecords := BuildRecords(info.value);
      if HasText(info.value.verification.name) {
        verificationToken := info.value.verification.name;
      }
      status := next;
      changed := next != previous;
    }

    /** `provision_mailbox`, given the domain its address names. */
    method ProvisionMailbox(raw: string, provider: Provider, allowAdditional: bool)
      returns (result: Result<string, ProvisioningError>)
      modifies this`status, this`mailboxes
      ensures var address := Lower(Strip(raw));
              result.Ok? <==>
                && '@' in address && LocalPart(address) != "" && address == LocalPart(address) + "@" + name
                && address !in old(mailboxes)
                && Provisions(old(Model()), Cooperates(provider), allowAdditional)
      ensures result.Ok? ==> exists local :: IsAddressAt(Lower(Strip(raw)), local, name)
      ensures result.Ok? ==>
                && result.value == Lower(Strip(raw))
                && mailboxes == old(mailboxes) + {result.value}
                && Model() == Next(old(Model()), Provision(Cooperates(provider), allowAdditional))
      ensures result.Err? ==> status == old(status) && mailboxes == old(mailboxes)
    {
      var address := Lower(Strip(raw));
      if '@' !in address {
        return Err(NotAnAddress);
      }
      var local := LocalPart(address);
      if local == "" {
        return Err(MissingLocalPart);
      }
      if address != local + "@" + name {
        return Err(WrongDomain);
      }
      if status == Added || status == OwnershipPending {
        return Err(NotVerifiedYet);
      }
      if address in mailboxes {
        return Err(AlreadyProvisioned);
      }
      if |mailboxes| != 0 && !allowAdditional {
        return Err(PolicyViolation);
      }
      match provider {
        case Created =>
        case AlreadyThere(resetOk) =>
          // The old password is unknown, so it is reset to one that is known.
          if !resetOk {
            return Err(ProviderFailed);
          }
        case Refused =>
          return Err(ProviderFailed);
      }
      AddressesAt(address, name);
      mailboxes := mailboxes + {address};
      if status == Verified {
        status := Ready;
      }
      result := Ok(address);
    }
  }
}
