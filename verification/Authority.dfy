/**
  Who may send as whom (`emaild/auth.py`), and the two dashboard views that must say the same
  (`emaild/dashboard/testsend.py`).
*/
module Authority {
  import opened Prelude
  import opened Addresses
  import opened Ordering
  import Lifecycle

  // ---- The tables; the id of a row is its index --------------------------------------

  datatype Project = Project(active: bool)
  datatype Domain = Domain(name: string, status: Lifecycle.Status)
  datatype Mailbox = Mailbox(domain: nat, address: string, active: bool)
  datatype ApiKey = ApiKey(name: string, project: nat, hash: string, active: bool, revoked: bool, scopes: seq<nat>)

  datatype Tables = Tables(projects: seq<Project>, domains: seq<Domain>, mailboxes: seq<Mailbox>, keys: seq<ApiKey>)

  /** Foreign keys and unique constraints of `emaild/models.py`. */
  predicate Consistent(db: Tables) {
    && (forall m :: 0 <= m < |db.mailboxes| ==> db.mailboxes[m].domain < |db.domains|)
    && (forall k :: 0 <= k < |db.keys| ==> db.keys[k].project < |db.projects|)
    && (forall k, i :: 0 <= k < |db.keys| && 0 <= i < |db.keys[k].scopes| ==> db.keys[k].scopes[i] < |db.mailboxes|)
    && (forall m, n :: 0 <= m < n < |db.mailboxes| ==> db.mailboxes[m].address != db.mailboxes[n].address)
    && (forall k, l :: 0 <= k < l < |db.keys| ==> db.keys[k].hash != db.keys[l].hash)
    && (forall k, i, j :: 0 <= k < |db.keys| && 0 <= i < j < |db.keys[k].scopes| ==>
          db.keys[k].scopes[i] != db.keys[k].scopes[j])
  }

  // ---- Authorization -----------------------------------------------------------------

  /** An authenticated caller: the mailboxes its key is scoped to, by address. */
  datatype Principal = Principal(key: nat, project: nat, mailboxes: map<string, nat>)

  datatype AuthError =
    | InvalidKey
    | InactiveProject
    | Unreadable
    | NotPermitted
    | Deactivated
    | DomainNotReady

  predicate Usable(key: ApiKey) {
    key.active && !key.revoked
  }

  /** `{m.address: m for m in rows}` over the scoped mailboxes. */
  function ByAddress(db: Tables, scopes: seq<nat>): (r: map<string, nat>)
    requires forall i :: 0 <= i < |scopes| ==> scopes[i] < |db.mailboxes|
    ensures forall a :: a in r ==> r[a] in scopes && r[a] < |db.mailboxes| && db.mailboxes[r[a]].address == a
    ensures forall i :: 0 <= i < |scopes| ==> db.mailboxes[scopes[i]].address in r
  {
    if scopes == [] then map[]
    else
      var last := scopes[|scopes| - 1];
      ByAddress(db, scopes[..|scopes| - 1])[db.mailboxes[last].address := last]
  }

  /** `_principal_for`: what the dashboard rebuilds from a stored key. */
  function PrincipalFor(db: Tables, key: nat): Result<Principal, AuthError>
    requires Consistent(db)
  {
    if key >= |db.keys| || !Usable(db.keys[key]) then Err(InvalidKey)
    else if !db.projects[db.keys[key].project].active then Err(InactiveProject)
    else Ok(Principal(key, db.keys[key].project, ByAddress(db, db.keys[key].scopes)))
  }

  function FindHash(keys: seq<ApiKey>, digest: string): Option<nat> {
    if keys == [] then None
    else if keys[|keys| - 1].hash == digest then Some(|keys| - 1)
    else FindHash(keys[..|keys| - 1], digest)
  }

  /** `resolve_principal`, for the digest of the key presented; every refusal looks the same from outside. */
  function ResolvePrincipal(db: Tables, digest: string): Result<Principal, AuthError>
    requires Consistent(db)
  {
    var found := FindHash(db.keys, digest);
    if found.None? then Err(InvalidKey)
    else
      FindHashIsThere(db.keys, digest);
      var key := db.keys[found.value];
      if key.revoked || !key.active then Err(InvalidKey)
      else if !db.projects[key.project].active then Err(InvalidKey)
      else Ok(Principal(found.value, key.project, ByAddress(db, key.scopes)))
  }

  lemma {:induction false} FindHashIsThere(keys: seq<ApiKey>, digest: string)
    ensures var found := FindHash(keys, digest);
            && (found.Some? ==> found.value < |keys| && keys[found.value].hash == digest)
            && (found.None? ==> forall k :: 0 <= k < |keys| ==> keys[k].hash != digest)
  {
    if keys != [] {
      FindHashIsThere(keys[..|keys| - 1], digest);
      assert forall k :: 0 <= k < |keys| - 1 ==> keys[..|keys| - 1][k] == keys[k];
    }
  }

  /** `authorize_sender`: the mailbox this caller may send as right now. */
  function AuthorizeSender(db: Tables, read: Reading, principal: Principal, from: string): Result<nat, AuthError>
    requires Consistent(db)
    requires forall a :: a in principal.mailboxes ==> principal.mailboxes[a] < |db.mailboxes|
  {
    match read(from)
    case None => Err(Unreadable)
    case Some(address) =>
      if address !in principal.mailboxes then Err(NotPermitted)
      else
        var mailbox := db.mailboxes[principal.mailboxes[address]];
        if !mailbox.active then Err(Deactivated)
        else if db.domains[mailbox.domain].status != Lifecycle.Ready then Err(DomainNotReady)
        else Ok(principal.mailboxes[address])
  }

  /** The whole path of a request from a stored key: authenticate, then authorize. */
  function MaySend(db: Tables, read: Reading, key: nat, from: string): Result<nat, AuthError>
    requires Consistent(db)
  {
    match PrincipalFor(db, key)
    case Err(e) => Err(e)
    case Ok(principal) => AuthorizeSender(db, read, principal, from)
  }

  /** The dashboard's shortcut around the bearer token reaches exactly the principal the token would. */
  lemma RebuiltPrincipalIsTheRealOne(db: Tables, key: nat)
    requires Consistent(db) && key < |db.keys|
    ensures ResolvePrincipal(db, db.keys[key].hash).Ok? <==> PrincipalFor(db, key).Ok?
    ensures PrincipalFor(db, key).Ok? ==> ResolvePrincipal(db, db.keys[key].hash) == PrincipalFor(db, key)
  {
    FindHashIsThere(db.keys, db.keys[key].hash);
    var found := FindHash(db.keys, db.keys[key].hash);
    assert found.Some?;
    assert found.value == key;
  }

  // ---- The view of what may send -----------------------------------------------------

  datatype SendOption = SendOption(key: nat, sender: string)

  predicate Sendable(db: Tables, m: nat)
    requires Consistent(db)
  {
    m < |db.mailboxes| && db.mailboxes[m].active && db.domains[db.mailboxes[m].domain].status == Lifecycle.Ready
  }

  predicate KeyOffers(db: Tables, k: nat)
    requires Consistent(db)
  {
    k < |db.keys| && Usable(db.keys[k]) && db.projects[db.keys[k].project].active
  }

  /** Scope number `i` of key `k` yields this option. */
  predicate Yields(db: Tables, k: nat, i: nat, option: SendOption)
    requires Consistent(db)
  {
    && KeyOffers(db, k) && i < |db.keys[k].scopes| && Sendable(db, db.keys[k].scopes[i])
    && option == SendOption(k, db.mailboxes[db.keys[k].scopes[i]].address)
  }

  predicate YieldedBefore(db: Tables, k: nat, i: nat, option: SendOption)
    requires Consistent(db)
  {
    exists j :: 0 <= j < i && Yields(db, k, j, option)
  }

  /** Addresses and scopes are unique, so no two scopes of a key yield the same option. */
  lemma OneScopeEach(db: Tables, k: nat, i: nat, option: SendOption)
    requires Consistent(db) && Yields(db, k, i, option)
    ensures !YieldedBefore(db, k, i, option)
  {
    var scopes := db.keys[k].scopes;
    forall j | 0 <= j < i ensures !Yields(db, k, j, option) {
      assert scopes[j] != scopes[i];
      DifferentAddresses(db, scopes[j], scopes[i]);
    }
  }

  lemma DifferentAddresses(db: Tables, m: nat, n: nat)
    requires Consistent(db) && m < |db.mailboxes| && n < |db.mailboxes| && m != n
    ensures db.mailboxes[m].address != db.mailboxes[n].address
  {
  }

  lemma SameMailbox(db: Tables, m: nat, n: nat)
    requires Consistent(db) && m < |db.mailboxes| && n < |db.mailboxes|
    requires db.mailboxes[m].address == db.mailboxes[n].address
    ensures m == n
  {
  }

  /** The inner loop of `send_options`. */
  method OptionsOfKey(db: Tables, k: nat) returns (options: seq<SendOption>)
    requires Consistent(db) && KeyOffers(db, k)
    ensures forall option :: option in options <==> exists i :: Yields(db, k, i, option)
    ensures NoRepeats(options)
  {
    options := [];
    var scopes := db.keys[k].scopes;
    for i := 0 to |scopes|
      invariant forall option :: option in options ==> YieldedBefore(db, k, i, option)
      invariant forall j, option :: 0 <= j < i && Yields(db, k, j, option) ==> option in options
      invariant NoRepeats(options)
    {
      if Sendable(db, scopes[i]) {
        var option := SendOption(k, db.mailboxes[scopes[i]].address);
        assert Yields(db, k, i, option);
        OneScopeEach(db, k, i, option);
        options := options + [option];
      }
    }
    forall option | option in options ensures exists i :: Yields(db, k, i, option) {
      var j :| 0 <= j < |scopes| && Yields(db, k, j, option);
    }
  }

  function KeyName(db: Tables, key: nat): string {
    if key < |db.keys| then db.keys[key].name else ""
  }

  /** `lambda o: (o.sender, o.key_name)`. */
  function OptionKey(db: Tables, option: SendOption): (string, string) {
    (option.sender, KeyName(db, option.key))
  }

  function ByOptionKey(db: Tables): Key<SendOption> {
    option => OptionKey(db, option)
  }

  /** The nested loops of `send_options`. */
  method CollectOptions(db: Tables) returns (options: seq<SendOption>)
    requires Consistent(db)
    ensures forall option :: option in options <==> exists i :: Yields(db, option.key, i, option)
    ensures NoRepeats(options)
  {
    options := [];
    for k := 0 to |db.keys|
      invariant forall option :: option in options <==> option.key < k && exists i :: Yields(db, option.key, i, option)
      invariant NoRepeats(options)
    {
      if Usable(db.keys[k]) && db.projects[db.keys[k].project].active {
        var more := OptionsOfKey(db, k);
        forall option | option in more ensures option.key == k {
          var i :| Yields(db, k, i, option);
        }
        options := options + more;
      }
    }
  }

  /** `send_options`. */
  method SendOptions(db: Tables) returns (options: seq<SendOption>)
    requires Consistent(db)
    ensures forall option :: option in options <==> exists i :: Yields(db, option.key, i, option)
    ensures NoRepeats(options) && Sorted(options, ByOptionKey(db))
    ensures forall i, j :: 0 <= i < j < |options| ==>
              && Leq(options[i].sender, options[j].sender)
              && (options[i].sender == options[j].sender ==>
                    Leq(KeyName(db, options[i].key), KeyName(db, options[j].key)))
  {
    var collected := CollectOptions(db);
    options := SortBy(collected, ByOptionKey(db));
    SortBySorts(collected, ByOptionKey(db));
    RearrangedNoRepeats(collected, options);
    forall i, j | 0 <= i < j < |options|
      ensures Leq(options[i].sender, options[j].sender)
      ensures options[i].sender == options[j].sender ==> Leq(KeyName(db, options[i].key), KeyName(db, options[j].key))
    {
      PairsByTheFirst(OptionKey(db, options[i]), OptionKey(db, options[j]));
      assert PairLeq(ByOptionKey(db)(options[i]), ByOptionKey(db)(options[j]));
    }
    forall option ensures option in options <==> option in collected {
      assert option in multiset(options) <==> option in multiset(collected);
    }
  }

  // ---- The view agrees with the authority --------------------------------------------

  predicate Offered(db: Tables, option: SendOption)
    requires Consistent(db)
  {
    exists i :: 0 <= i < (if option.key < |db.keys| then |db.keys[option.key].scopes| else 0)
      && Yields(db, option.key, i, option)
  }

  /**
    The authority accepts a sender exactly when the view offers its normal form: no option is
    certain to be refused because of the key, the mailbox or the domain, and none is missing.
  */
  lemma ViewAgreesWithAuthority(db: Tables, read: Reading, key: nat, from: string)
    requires Consistent(db)
    ensures MaySend(db, read, key, from).Ok? <==>
            var address := read(from); address.Some? && Offered(db, SendOption(key, address.value))
  {
    var address := read(from);
    if address.Some? && KeyOffers(db, key) {
      OfferedIsHeld(db, key, address.value);
    }
  }

  /** A key offers an address exactly when it holds a sendable mailbox of that address. */
  lemma OfferedIsHeld(db: Tables, key: nat, address: string)
    requires Consistent(db) && KeyOffers(db, key)
    ensures Offered(db, SendOption(key, address)) <==>
            var held := ByAddress(db, db.keys[key].scopes);
            address in held && Sendable(db, held[address])
  {
    var scopes := db.keys[key].scopes;
    var held := ByAddress(db, scopes);
    if address in held && Sendable(db, held[address]) {
      HeldIsOffered(db, key, address);
    }
    if Offered(db, SendOption(key, address)) {
      OfferedIsInScope(db, key, address);
    }
  }

  lemma HeldIsOffered(db: Tables, key: nat, address: string)
    requires Consistent(db) && KeyOffers(db, key)
    requires var held := ByAddress(db, db.keys[key].scopes); address in held && Sendable(db, held[address])
    ensures Offered(db, SendOption(key, address))
  {
    var i := ScopeOf(db, db.keys[key].scopes, address);
    assert Yields(db, key, i, SendOption(key, address));
  }

  /** Which scope an address is held through. */
  lemma ScopeOf(db: Tables, scopes: seq<nat>, address: string) returns (i: nat)
    requires forall k :: 0 <= k < |scopes| ==> scopes[k] < |db.mailboxes|
    requires address in ByAddress(db, scopes)
    ensures i < |scopes| && scopes[i] == ByAddress(db, scopes)[address] && db.mailboxes[scopes[i]].address == address
  {
    i :| 0 <= i < |scopes| && scopes[i] == ByAddress(db, scopes)[address];
  }

  lemma OfferedIsInScope(db: Tables, key: nat, address: string)
    requires Consistent(db) && KeyOffers(db, key) && Offered(db, SendOption(key, address))
    ensures var held := ByAddress(db, db.keys[key].scopes); address in held && Sendable(db, held[address])
  {
    var scopes := db.keys[key].scopes;
    var held := ByAddress(db, scopes);
    var i :| 0 <= i < |scopes| && Yields(db, key, i, SendOption(key, address));
    assert db.mailboxes[scopes[i]].address == address;
    SameMailbox(db, held[address], scopes[i]);
  }

  /**
    The view compares stored addresses as they are; the authority reads them again. So an offered
    option is accepted, as itself, exactly when its address is its own normal form.
  */
  lemma OfferedIsAcceptedIff(db: Tables, read: Reading, option: SendOption)
    requires Consistent(db) && Offered(db, option)
    ensures var verdict := MaySend(db, read, option.key, option.sender);
            (verdict.Ok? && verdict.value < |db.mailboxes| && db.mailboxes[verdict.value].address == option.sender)
            <==> read(option.sender) == Some(option.sender)
  {
    ViewAgreesWithAuthority(db, read, option.key, option.sender);
    AcceptedAsRead(db, read, option.key, option.sender);
  }

  /** Who is accepted is accepted as the mailbox of the address that was read. */
  lemma AcceptedAsRead(db: Tables, read: Reading, key: nat, from: string)
    requires Consistent(db)
    ensures var verdict := MaySend(db, read, key, from);
            verdict.Ok? ==> read(from).Some? && verdict.value < |db.mailboxes|
                            && db.mailboxes[verdict.value].address == read(from).value
  {
  }

  predicate KeyInUse(db: Tables, key: nat) {
    key < |db.keys| && db.keys[key].active && !db.keys[key].revoked
  }

  /** This key offers something, and mailbox `m` of that address is in its scope. */
  predicate Scopes(db: Tables, key: nat, address: string, m: nat)
    requires Consistent(db)
  {
    KeyOffers(db, key) && m in db.keys[key].scopes && m < |db.mailboxes| && db.mailboxes[m].address == address
  }

  /** What must have been so for this answer: the key, its project, the address, its scope, the mailbox, the domain. */
  predicate Explains(db: Tables, key: nat, address: Option<string>, answer: Result<nat, AuthError>)
    requires Consistent(db)
  {
    if !KeyInUse(db, key) then answer == Err(InvalidKey)
    else if !KeyOffers(db, key) then answer == Err(InactiveProject)
    else if address.None? then answer == Err(Unreadable)
    else
      match answer
      case Ok(m) => Scopes(db, key, address.value, m) && Sendable(db, m)
      case Err(NotPermitted) =>
        forall m :: 0 <= m < |db.mailboxes| ==> !Scopes(db, key, address.value, m)
      case Err(Deactivated) =>
        exists m :: 0 <= m < |db.mailboxes| && Scopes(db, key, address.value, m) && !db.mailboxes[m].active
      case Err(DomainNotReady) =>
        exists m :: 0 <= m < |db.mailboxes| && Scopes(db, key, address.value, m) && db.mailboxes[m].active
                    && !Sendable(db, m)
      case Err(_) => false
  }

  lemma HeldIsScoped(db: Tables, key: nat, address: string)
    requires Consistent(db) && KeyOffers(db, key) && address in ByAddress(db, db.keys[key].scopes)
    ensures Scopes(db, key, address, ByAddress(db, db.keys[key].scopes)[address])
  {
  }

  lemma UnheldIsUnscoped(db: Tables, key: nat, address: string)
    requires Consistent(db) && KeyOffers(db, key) && address !in ByAddress(db, db.keys[key].scopes)
    ensures forall m :: 0 <= m < |db.mailboxes| ==> !Scopes(db, key, address, m)
  {
    forall m: nat | m < |db.mailboxes| && m in db.keys[key].scopes ensures db.mailboxes[m].address != address {
      var i :| 0 <= i < |db.keys[key].scopes| && db.keys[key].scopes[i] == m;
    }
  }

  /** What is said of a mailbox in scope. */
  function AnswerFor(db: Tables, m: nat): Result<nat, AuthError>
    requires Consistent(db) && m < |db.mailboxes|
  {
    if !db.mailboxes[m].active then Err(Deactivated) else if !Sendable(db, m) then Err(DomainNotReady) else Ok(m)
  }

  lemma AnswerIsExplained(db: Tables, key: nat, address: string, m: nat)
    requires Consistent(db) && Scopes(db, key, address, m)
    ensures Explains(db, key, Some(address), AnswerFor(db, m))
  {
  }

  lemma HeldIsAnswered(db: Tables, read: Reading, key: nat, from: string)
    requires Consistent(db) && KeyOffers(db, key) && read(from).Some?
    requires read(from).value in ByAddress(db, db.keys[key].scopes)
    ensures MaySend(db, read, key, from) == AnswerFor(db, ByAddress(db, db.keys[key].scopes)[read(from).value])
  {
  }

  /** Every answer, and every refusal in its order, has its reason. */
  lemma AnswersAreExplained(db: Tables, read: Reading, key: nat, from: string)
    requires Consistent(db)
    ensures Explains(db, key, read(from), MaySend(db, read, key, from))
  {
    if KeyOffers(db, key) && read(from).Some? {
      var address, held := read(from).value, ByAddress(db, db.keys[key].scopes);
      if address in held {
        HeldIsScoped(db, key, address);
        HeldIsAnswered(db, read, key, from);
        AnswerIsExplained(db, key, address, held[address]);
      } else {
        UnheldIsUnscoped(db, key, address);
      }
    }
  }

  /** The mailboxes of a principal are those its key is scoped to, each under its own address. */
  lemma HeldIsTheScope(db: Tables, key: nat)
    requires Consistent(db) && key < |db.keys|
    ensures var held := ByAddress(db, db.keys[key].scopes);
            forall a, m :: a in held && held[a] == m <==>
                           m in db.keys[key].scopes && m < |db.mailboxes| && db.mailboxes[m].address == a
  {
    var scopes := db.keys[key].scopes;
    var held := ByAddress(db, scopes);
    forall a, m: nat | m in scopes && m < |db.mailboxes| && db.mailboxes[m].address == a
      ensures a in held && held[a] == m
    {
      var i :| 0 <= i < |scopes| && scopes[i] == m;
      SameMailbox(db, held[a], m);
    }
  }

  /** From outside every refused key looks the same, and a key is accepted exactly if it is in use. */
  lemma RefusedKeysLookTheSame(db: Tables, digest: string)
    requires Consistent(db)
    ensures ResolvePrincipal(db, digest).Err? ==> ResolvePrincipal(db, digest) == Err(InvalidKey)
    ensures ResolvePrincipal(db, digest).Ok? <==>
            exists k :: 0 <= k < |db.keys| && KeyOffers(db, k) && db.keys[k].hash == digest
    ensures ResolvePrincipal(db, digest).Ok? ==>
              var principal := ResolvePrincipal(db, digest).value;
              && principal.key < |db.keys| && db.keys[principal.key].hash == digest
              && principal.project == db.keys[principal.key].project
              && forall a, m :: a in principal.mailboxes && principal.mailboxes[a] == m <==>
                                m in db.keys[principal.key].scopes && m < |db.mailboxes| && db.mailboxes[m].address == a
  {
    FindHashIsThere(db.keys, digest);
    var found := FindHash(db.keys, digest);
    if found.Some? {
      forall k | 0 <= k < |db.keys| && db.keys[k].hash == digest ensures k == found.value {
      }
      HeldIsTheScope(db, found.value);
    }
  }

  // ---- The view of what may not send, and why ----------------------------------------

  datatype Reason = DomainIsNotReady | MailboxIsOff | NoKeyHasIt

  /** What an empty domain lacks: only an identity, an identity although it is ready, or readiness. */
  datatype Lack = NoIdentityYet | OnlyAnIdentity | Readiness

  datatype Blocked =
    | BlockedMailbox(mailbox: nat, reason: Reason)
    | BlockedDomain(domain: nat, lack: Lack)

  /** Some active key of an active project is scoped to mailbox `m`. */
  predicate Scoped(db: Tables, m: nat)
    requires Consistent(db)
  {
    exists k :: 0 <= k < |db.keys| && KeyOffers(db, k) && m in db.keys[k].scopes
  }

  function ReasonFor(db: Tables, m: nat): Option<Reason>
    requires Consistent(db) && m < |db.mailboxes|
  {
    if db.domains[db.mailboxes[m].domain].status != Lifecycle.Ready then Some(DomainIsNotReady)
    else if !db.mailboxes[m].active then Some(MailboxIsOff)
    else if !Scoped(db, m) then Some(NoKeyHasIt)
    else None
  }

  /** The reason given is the first of the three that holds: the domain, the mailbox, the keys. */
  lemma ReasonsInOrder(db: Tables, m: nat)
    requires Consistent(db) && m < |db.mailboxes|
    ensures var ready := db.domains[db.mailboxes[m].domain].status == Lifecycle.Ready;
            && (ReasonFor(db, m) == Some(DomainIsNotReady) <==> !ready)
            && (ReasonFor(db, m) == Some(MailboxIsOff) <==> ready && !db.mailboxes[m].active)
            && (ReasonFor(db, m) == Some(NoKeyHasIt) <==>
                  ready && db.mailboxes[m].active
                  && forall k :: 0 <= k < |db.keys| && m in db.keys[k].scopes ==>
                       !db.keys[k].active || db.keys[k].revoked || !db.projects[db.keys[k].project].active)
  {
  }

  predicate HasMailbox(db: Tables, d: nat) {
    exists m :: 0 <= m < |db.mailboxes| && db.mailboxes[m].domain == d
  }

  function LackOf(status: Lifecycle.Status): Lack {
    match status
    case Ready => NoIdentityYet
    case Verified => OnlyAnIdentity
    case _ => Readiness
  }

  /** What an empty domain is said to lack is what provisioning a first identity for it would not supply. */
  lemma LacksAreReal(status: Lifecycle.Status)
    ensures var before := Lifecycle.Domain(status, 0);
            var after := Lifecycle.Next(before, Lifecycle.Provision(true, false));
            && (LackOf(status) == OnlyAnIdentity <==> status != Lifecycle.Ready && after.status == Lifecycle.Ready)
            && (LackOf(status) == NoIdentityYet <==> status == Lifecycle.Ready)
            && (LackOf(status) == Readiness <==> after.status != Lifecycle.Ready)
  {
  }

  function ByAddressKey(db: Tables): Key<nat> {
    (m: nat) => (if m < |db.mailboxes| then db.mailboxes[m].address else "", "")
  }

  function ByNameKey(db: Tables): Key<nat> {
    (d: nat) => (if d < |db.domains| then db.domains[d].name else "", "")
  }

  /** `blocked` entry `a` comes before entry `b`: mailboxes by address, then domains by name. */
  predicate Precedes(db: Tables, a: Blocked, b: Blocked) {
    match (a, b)
    case (BlockedMailbox(m, _), BlockedMailbox(n, _)) => PairLeq(ByAddressKey(db)(m), ByAddressKey(db)(n))
    case (BlockedMailbox(_, _), BlockedDomain(_, _)) => true
    case (BlockedDomain(_, _), BlockedMailbox(_, _)) => false
    case (BlockedDomain(d, _), BlockedDomain(e, _)) => PairLeq(ByNameKey(db)(d), ByNameKey(db)(e))
  }

  predicate InOrder(db: Tables, blocked: seq<Blocked>) {
    forall i, j :: 0 <= i < j < |blocked| ==> Precedes(db, blocked[i], blocked[j])
  }

  /** Mailboxes before domains, the ones by address and the others by name. */
  predicate OrderedPair(db: Tables, a: Blocked, b: Blocked) {
    && (b.BlockedMailbox? ==> a.BlockedMailbox?)
    && (a.BlockedMailbox? && b.BlockedMailbox? && a.mailbox < |db.mailboxes| && b.mailbox < |db.mailboxes| ==>
          Leq(db.mailboxes[a.mailbox].address, db.mailboxes[b.mailbox].address))
    && (a.BlockedDomain? && b.BlockedDomain? && a.domain < |db.domains| && b.domain < |db.domains| ==>
          Leq(db.domains[a.domain].name, db.domains[b.domain].name))
  }

  lemma PrecedesMeans(db: Tables, a: Blocked, b: Blocked)
    requires Precedes(db, a, b)
    ensures OrderedPair(db, a, b)
  {
    if a.BlockedMailbox? && b.BlockedMailbox? {
      PairsByTheFirst(ByAddressKey(db)(a.mailbox), ByAddressKey(db)(b.mailbox));
    } else if a.BlockedDomain? && b.BlockedDomain? {
      PairsByTheFirst(ByNameKey(db)(a.domain), ByNameKey(db)(b.domain));
    }
  }

  /** The ids 0 to n - 1, sorted. */
  method SortedIds(n: nat, key: Key<nat>) returns (ids: seq<nat>)
    ensures Sorted(ids, key) && NoRepeats(ids)
    ensures forall id: nat :: id in ids <==> id < n
  {
    var all: seq<nat> := seq(n, i => i);
    assert forall id: nat :: id < n ==> all[id] == id;
    ids := SortBy(all, key);
    SortBySorts(all, key);
    RearrangedNoRepeats(all, ids);
    forall id: nat ensures id in ids <==> id < n {
      assert id in multiset(ids) <==> id in multiset(all);
      assert id < n ==> all[id] in all;
    }
  }

  predicate RightMailbox(db: Tables, b: Blocked)
    requires Consistent(db)
  {
    b.BlockedMailbox? && b.mailbox < |db.mailboxes| && ReasonFor(db, b.mailbox) == Some(b.reason)
  }

  predicate RightDomain(db: Tables, b: Blocked) {
    b.BlockedDomain? && b.domain < |db.domains| && !HasMailbox(db, b.domain)
      && b.lack == LackOf(db.domains[b.domain].status)
  }

  /** The first loop of `blocked_senders`. */
  method BlockedMailboxes(db: Tables) returns (blocked: seq<Blocked>)
    requires Consistent(db)
    ensures forall b :: b in blocked <==> RightMailbox(db, b)
    ensures NoRepeats(blocked) && InOrder(db, blocked)
  {
    blocked := [];
    var ids := SortedIds(|db.mailboxes|, ByAddressKey(db));
    for k := 0 to |ids|
      invariant forall b :: b in blocked <==> RightMailbox(db, b) && b.mailbox in ids[..k]
      invariant NoRepeats(blocked) && InOrder(db, blocked)
    {
      var m := ids[k];
      assert ids[..k + 1] == ids[..k] + [m] && m in ids && m !in ids[..k];
      var reason := ReasonFor(db, m);
      if reason.Some? {
        var b := BlockedMailbox(m, reason.value);
        forall i | 0 <= i < |blocked| ensures Precedes(db, blocked[i], b) {
          assert blocked[i] in blocked && blocked[i].mailbox in ids[..k];
        }
        blocked := blocked + [b];
      }
    }
    assert ids[..|ids|] == ids;
  }

  /** The second loop. */
  method BlockedDomains(db: Tables) returns (blocked: seq<Blocked>)
    requires Consistent(db)
    ensures forall b :: b in blocked <==> RightDomain(db, b)
    ensures NoRepeats(blocked) && InOrder(db, blocked)
  {
    blocked := [];
    var ids := SortedIds(|db.domains|, ByNameKey(db));
    for k := 0 to |ids|
      invariant forall b :: b in blocked <==> RightDomain(db, b) && b.domain in ids[..k]
      invariant NoRepeats(blocked) && InOrder(db, blocked)
    {
      var d := ids[k];
      assert ids[..k + 1] == ids[..k] + [d] && d in ids && d !in ids[..k];
      if !HasMailbox(db, d) {
        var b := BlockedDomain(d, LackOf(db.domains[d].status));
        forall i | 0 <= i < |blocked| ensures Precedes(db, blocked[i], b) {
          assert blocked[i] in blocked && blocked[i].domain in ids[..k];
        }
        blocked := blocked + [b];
      }
    }
    assert ids[..|ids|] == ids;
  }

  /** `blocked_senders`. */
  method BlockedSenders(db: Tables) returns (blocked: seq<Blocked>)
    requires Consistent(db)
    ensures forall b :: b in blocked <==> RightMailbox(db, b) || RightDomain(db, b)
    ensures NoRepeats(blocked) && InOrder(db, blocked)
    ensures forall i, j :: 0 <= i < j < |blocked| ==> OrderedPair(db, blocked[i], blocked[j])
  {
    var mailboxes := BlockedMailboxes(db);
    var domains := BlockedDomains(db);
    blocked := mailboxes + domains;
    forall i, j | 0 <= i < j < |blocked| ensures blocked[i] != blocked[j] && Precedes(db, blocked[i], blocked[j]) {
      if j < |mailboxes| {
        assert Precedes(db, mailboxes[i], mailboxes[j]);
      } else if i >= |mailboxes| {
        assert Precedes(db, domains[i - |mailboxes|], domains[j - |mailboxes|]);
      } else {
        assert mailboxes[i] in mailboxes && domains[j - |mailboxes|] in domains;
      }
    }
    forall i, j | 0 <= i < j < |blocked| ensures OrderedPair(db, blocked[i], blocked[j]) {
      PrecedesMeans(db, blocked[i], blocked[j]);
    }
  }

  predicate OfferedBySomeKey(db: Tables, m: nat)
    requires Consistent(db) && m < |db.mailboxes|
  {
    exists k :: 0 <= k < |db.keys| && Offered(db, SendOption(k, db.mailboxes[m].address))
  }

  /** Every mailbox is on exactly one of the two views: offered by some key, or listed with the one reason why not. */
  lemma EveryMailboxIsOnOneView(db: Tables, m: nat)
    requires Consistent(db) && m < |db.mailboxes|
    ensures OfferedBySomeKey(db, m) <==> ReasonFor(db, m).None?
  {
    if OfferedBySomeKey(db, m) {
      var k :| 0 <= k < |db.keys| && Offered(db, SendOption(k, db.mailboxes[m].address));
      var i :| 0 <= i < |db.keys[k].scopes| && Yields(db, k, i, SendOption(k, db.mailboxes[m].address));
      SameMailbox(db, db.keys[k].scopes[i], m);
    }
    if ReasonFor(db, m).None? {
      var k :| 0 <= k < |db.keys| && KeyOffers(db, k) && m in db.keys[k].scopes;
      var i :| 0 <= i < |db.keys[k].scopes| && db.keys[k].scopes[i] == m;
      assert Yields(db, k, i, SendOption(k, db.mailboxes[m].address));
    }
  }
}
