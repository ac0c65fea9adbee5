/**
  Accepting a message (`emaild/ingest.py`, with the lookups of `emaild/suppressions.py`): recipients in
  normal form, the limits, the suppression list, the idempotency key, and the one durable write.
*/
module Ingest {
  import opened Prelude
  import opened Addresses
  import opened Messages
  import Authority
  import Tables

  const MAX_RECIPIENTS: nat := 150
  const MAX_MESSAGE_BYTES: nat := 52_428_800

  // ---- Recipient lists ---------------------------------------------------------------

  /** What `_normalise_recipients` returns: a list of addresses, or the first value it cannot read. */
  function NormalForm(read: Reading, values: seq<string>): Result<seq<string>, string> {
    if values == [] then Ok([])
    else
      var last := values[|values| - 1];
      match NormalForm(read, values[..|values| - 1])
      case Err(raw) => Err(raw)
      case Ok(out) =>
        match read(last)
        case None => Err(last)
        case Some(address) => Ok(if address in out then out else out + [address])
  }

  method NormaliseRecipients(read: Reading, values: seq<string>) returns (r: Result<seq<string>, string>)
    ensures r == NormalForm(read, values)
  {
    var out: seq<string> := [];
    var seen: set<string> := {};
    for i := 0 to |values|
      invariant NormalForm(read, values[..i]) == Ok(out)
      invariant seen == set address | address in out
    {
      assert values[..i + 1][..i] == values[..i];
      var address := read(values[i]);
      if address.None? {
        ErrorsStick(read, values, i + 1);
        return Err(values[i]);
      }
      if address.value !in seen {
        seen := seen + {address.value};
        out := out + [address.value];
      }
    }
    assert values[..|values|] == values;
    return Ok(out);
  }

  lemma {:induction false} ErrorsStick(read: Reading, values: seq<string>, n: nat)
    requires n <= |values| && NormalForm(read, values[..n]).Err?
    ensures NormalForm(read, values) == NormalForm(read, values[..n])
    decreases |values|
  {
    if n == |values| {
      assert values[..n] == values;
    } else {
      assert values[..|values| - 1][..n] == values[..n];
      ErrorsStick(read, values[..|values| - 1], n);
    }
  }

  predicate Mentions(read: Reading, values: seq<string>, address: string) {
    exists k :: 0 <= k < |values| && read(values[k]) == Some(address)
  }

  /** Value number `k` is the first that reads as `address`. */
  predicate Introduces(read: Reading, values: seq<string>, k: nat, address: string) {
    && k < |values| && read(values[k]) == Some(address)
    && forall j :: 0 <= j < k ==> read(values[j]) != Some(address)
  }

  predicate AllReadable(read: Reading, values: seq<string>) {
    forall k :: 0 <= k < |values| ==> read(values[k]).Some?
  }

  /** Every address once, and in the order of first mention. */
  ghost predicate IsNormalForm(read: Reading, values: seq<string>, out: seq<string>) {
    && (forall address :: address in out <==> Mentions(read, values, address))
    && (forall i, j :: 0 <= i < j < |out| ==> out[i] != out[j])
    && (forall i, j, k, l ::
          0 <= i < j < |out| && 0 <= k && 0 <= l
          && Introduces(read, values, k, out[i]) && Introduces(read, values, l, out[j])
          ==> k < l)
  }

  /** A list is refused with its first unreadable value, and accepted when there is none. */
  lemma {:induction false} RefusedForTheFirst(read: Reading, values: seq<string>)
    ensures NormalForm(read, values).Ok? <==> AllReadable(read, values)
    ensures NormalForm(read, values).Err? ==>
              exists k :: 0 <= k < |values| && FirstUnreadable(read, values, k)
                && values[k] == NormalForm(read, values).error
  {
    if values != [] {
      var n := |values| - 1;
      RefusedForTheFirst(read, values[..n]);
      assert forall k :: 0 <= k < n ==> values[..n][k] == values[k];
      if NormalForm(read, values[..n]).Err? {
        var k :| 0 <= k < n && FirstUnreadable(read, values[..n], k)
          && values[..n][k] == NormalForm(read, values[..n]).error;
        assert FirstUnreadable(read, values, k);
      } else if read(values[n]).None? {
        assert FirstUnreadable(read, values, n);
      }
    }
  }

  predicate FirstUnreadable(read: Reading, values: seq<string>, k: nat) {
    k < |values| && read(values[k]).None? && forall j :: 0 <= j < k ==> read(values[j]).Some?
  }

  /** An accepted list comes out in duplicate-free normal form. */
  lemma {:induction false} AcceptedInNormalForm(read: Reading, values: seq<string>)
    requires NormalForm(read, values).Ok?
    ensures IsNormalForm(read, values, NormalForm(read, values).value)
  {
    if values != [] {
      AcceptedInNormalForm(read, values[..|values| - 1]);
      AppendKeepsNormalForm(read, values, NormalForm(read, values[..|values| - 1]).value);
    }
  }

  lemma AppendKeepsNormalForm(read: Reading, values: seq<string>, out: seq<string>)
    requires values != [] && read(values[|values| - 1]).Some?
    requires IsNormalForm(read, values[..|values| - 1], out)
    ensures var address := read(values[|values| - 1]).value;
            IsNormalForm(read, values, if address in out then out else out + [address])
  {
    var n := |values| - 1;
    var init := values[..n];
    var address := read(values[n]).value;
    var out' := if address in out then out else out + [address];
    assert forall k :: 0 <= k < n ==> init[k] == values[k];
    forall i, j, k, l | 0 <= i < j < |out'| && 0 <= k && 0 <= l
      && Introduces(read, values, k, out'[i]) && Introduces(read, values, l, out'[j])
      ensures k < l
    {
      assert out'[i] in out;
      var mention :| 0 <= mention < n && read(init[mention]) == Some(out'[i]);
      assert k <= mention;
      assert Introduces(read, init, k, out'[i]);
      if j < |out| {
        assert out'[j] in out;
        var other :| 0 <= other < n && read(init[other]) == Some(out'[j]);
        assert l <= other;
        assert Introduces(read, init, l, out'[j]);
      } else {
        assert l < n ==> address in out;
      }
    }
    forall a | exists k :: 0 <= k < |values| && read(values[k]) == Some(a) ensures a in out' {
      var k :| 0 <= k < |values| && read(values[k]) == Some(a);
      if k < n {
        assert read(init[k]) == Some(a);
      }
    }
    forall a | a in out' ensures exists k :: 0 <= k < |values| && read(values[k]) == Some(a) {
      if a in out {
        var k :| 0 <= k < n && read(init[k]) == Some(a);
        assert read(values[k]) == Some(a);
      } else {
        assert read(values[n]) == Some(a);
      }
    }
  }

  /** Normalising a recipient list again changes nothing. */
  lemma {:induction false} NormalFormIsFixed(read: Reading, values: seq<string>, n: nat)
    requires Stable(read) && NormalForm(read, values).Ok? && n <= |NormalForm(read, values).value|
    ensures var out := NormalForm(read, values).value; NormalForm(read, out[..n]) == Ok(out[..n])
  {
    var out := NormalForm(read, values).value;
    if n > 0 {
      NormalFormIsFixed(read, values, n - 1);
      AcceptedInNormalForm(read, values);
      assert out[n - 1] in out;
      var k :| 0 <= k < |values| && read(values[k]) == Some(out[n - 1]);
      assert out[..n][..n - 1] == out[..n - 1];
      assert out[..n] == out[..n - 1] + [out[n - 1]];
    }
  }

  // ---- The suppression lookup --------------------------------------------------------

  /** What `find_suppressed` returns: it reads again the addresses it is given. */
  function Caught(read: Reading, suppressed: set<string>, addresses: seq<string>): set<string> {
    set a | a in suppressed && exists i :: 0 <= i < |addresses| && read(addresses[i]) == Some(a)
  }

  method FindSuppressed(read: Reading, suppressed: set<string>, addresses: seq<string>) returns (r: set<string>)
    ensures r == Caught(read, suppressed, addresses)
  {
    var normalised: set<string> := {};
    for i := 0 to |addresses|
      invariant forall a :: a in normalised <==> exists j :: 0 <= j < i && read(addresses[j]) == Some(a)
    {
      var address := read(addresses[i]);
      if address.Some? {
        normalised := normalised + {address.value};
      }
    }
    r := normalised * suppressed;
  }

  /** On recipient lists in normal form the second reading is harmless: the lookup is plain intersection. */
  lemma CaughtIsIntersection(read: Reading, suppressed: set<string>, addresses: seq<string>)
    requires Stable(read)
    requires forall i :: 0 <= i < |addresses| ==> exists raw :: read(raw) == Some(addresses[i])
    ensures Caught(read, suppressed, addresses) == set a | a in addresses && a in suppressed
  {
    forall i | 0 <= i < |addresses| ensures read(addresses[i]) == Some(addresses[i]) {
      var raw :| read(raw) == Some(addresses[i]);
    }
  }

  // ---- Deciding a request ------------------------------------------------------------

  datatype Field = To | Cc | Bcc | ReplyTo

  /** A request body. `size` is its estimated size on the wire; an empty `replyTo` is none. */
  datatype Request = Request(
    from: string, to: seq<string>, cc: seq<string>, bcc: seq<string>, replyTo: string, body: Body, size: nat)

  datatype Refusal =
    | Unauthorized(error: Authority.AuthError)
    | BadRecipient(field: Field, raw: string)
    | NoRecipients
    | TooManyRecipients(total: nat)
    | TooLarge(size: nat)
    | Suppressed(addresses: set<string>)
    | KeyReused
    | KeyInProgress

  datatype Envelope = Envelope(mailbox: MailboxId, recipients: Recipients)

  type KeyId = (nat, string)

  /** A stored idempotency key: the fingerprint of its request and the id it was answered with. */
  datatype KeyRow = KeyRow(hash: string, response: Option<nat>)

  datatype Decision = Replay(id: nat) | Write(envelope: Envelope)

  function All(recipients: Recipients): seq<string> {
    recipients.to + recipients.cc + recipients.bcc
  }

  /** Who is asking, and the tables that say what they may do. */
  datatype Caller = Caller(tables: Authority.Tables, principal: Authority.Principal)

  predicate Known(caller: Caller) {
    && Authority.Consistent(caller.tables)
    && forall a :: a in caller.principal.mailboxes ==> caller.principal.mailboxes[a] < |caller.tables.mailboxes|
  }

  /** Recipients and the provider's limits. */
  function Address(read: Reading, request: Request): Result<Recipients, Refusal> {
    match NormalForm(read, request.to)
    case Err(raw) => Err(BadRecipient(To, raw))
    case Ok(to) =>
      match NormalForm(read, request.cc)
      case Err(raw) => Err(BadRecipient(Cc, raw))
      case Ok(cc) =>
        match NormalForm(read, request.bcc)
        case Err(raw) => Err(BadRecipient(Bcc, raw))
        case Ok(bcc) =>
          var total := |to| + |cc| + |bcc|;
          if total == 0 then Err(NoRecipients)
          else if total > MAX_RECIPIENTS then Err(TooManyRecipients(total))
          else if request.size > MAX_MESSAGE_BYTES then Err(TooLarge(request.size))
          else if request.replyTo != "" && NormalForm(read, [request.replyTo]).Err? then
            Err(BadRecipient(ReplyTo, request.replyTo))
          else Ok(Recipients(to, cc, bcc))
  }

  // ---- What becomes of a request -----------------------------------------------------

  /** The addresses that some value reads as. */
  function Named(read: Reading, values: seq<string>): set<string> {
    set k | 0 <= k < |values| && read(values[k]).Some? :: read(values[k]).value
  }

  lemma NormalFormSize(read: Reading, values: seq<string>)
    requires NormalForm(read, values).Ok?
    ensures |NormalForm(read, values).value| == |Named(read, values)|
  {
    var out := NormalForm(read, values).value;
    AcceptedInNormalForm(read, values);
    DistinctSize(out);
    forall a ensures a in Named(read, values) <==> a in (set address | address in out) {
      assert a in out <==> Mentions(read, values, a);
    }
    assert Named(read, values) == set address | address in out;
  }

  lemma {:induction false} DistinctSize(out: seq<string>)
    requires forall i, j :: 0 <= i < j < |out| ==> out[i] != out[j]
    ensures |set address | address in out| == |out|
  {
    if out != [] {
      var n := |out| - 1;
      DistinctSize(out[..n]);
      assert (set address | address in out) == (set address | address in out[..n]) + {out[n]};
    }
  }

  /** How many recipients a request has, each list counted by itself. */
  function HeadCount(read: Reading, request: Request): nat {
    |Named(read, request.to)| + |Named(read, request.cc)| + |Named(read, request.bcc)|
  }

  predicate ReadableLists(read: Reading, request: Request) {
    AllReadable(read, request.to) && AllReadable(read, request.cc) && AllReadable(read, request.bcc)
  }

  predicate ReadableReply(read: Reading, request: Request) {
    request.replyTo == "" || read(request.replyTo).Some?
  }

  predicate Unreadable(read: Reading, values: seq<string>, raw: string) {
    exists k :: 0 <= k < |values| && FirstUnreadable(read, values, k) && values[k] == raw
  }

  /** The lists of an addressed message are those of the request, each of them, in normal form. */
  ghost predicate AddressedAs(read: Reading, request: Request, recipients: Recipients) {
    && IsNormalForm(read, request.to, recipients.to)
    && IsNormalForm(read, request.cc, recipients.cc)
    && IsNormalForm(read, request.bcc, recipients.bcc)
  }

  /**
    The recipients of a request are taken exactly if every value is readable, they are at least one and at
    most 150, and the message has at most 50 MB; each list keeps its own. Otherwise the refusal names the
    first thing that is wrong, in the order to, cc, bcc, number, size, reply address.
  */
  lemma AddressDecides(read: Reading, request: Request)
    ensures var r, total := Address(read, request), HeadCount(read, request);
            match r
            case Ok(recipients) =>
              && ReadableLists(read, request) && ReadableReply(read, request)
              && 1 <= total <= 150 && request.size <= 52_428_800 && AddressedAs(read, request, recipients)
            case Err(BadRecipient(To, raw)) => Unreadable(read, request.to, raw)
            case Err(BadRecipient(Cc, raw)) => AllReadable(read, request.to) && Unreadable(read, request.cc, raw)
            case Err(BadRecipient(Bcc, raw)) =>
              AllReadable(read, request.to) && AllReadable(read, request.cc) && Unreadable(read, request.bcc, raw)
            case Err(NoRecipients) => ReadableLists(read, request) && total == 0
            case Err(TooManyRecipients(n)) => ReadableLists(read, request) && n == total > 150
            case Err(TooLarge(n)) => ReadableLists(read, request) && 1 <= total <= 150 && n == request.size > 52_428_800
            case Err(BadRecipient(ReplyTo, raw)) =>
              && ReadableLists(read, request) && 1 <= total <= 150 && request.size <= 52_428_800
              && raw == request.replyTo && !ReadableReply(read, request)
            case Err(_) => false
  {
    RefusedForTheFirst(read, request.to);
    RefusedForTheFirst(read, request.cc);
    RefusedForTheFirst(read, request.bcc);
    RefusedForTheFirst(read, [request.replyTo]);
    assert AllReadable(read, [request.replyTo]) <==> read([request.replyTo][0]).Some?;
    if ReadableLists(read, request) {
      NormalFormSize(read, request.to);
      NormalFormSize(read, request.cc);
      NormalFormSize(read, request.bcc);
      AcceptedInNormalForm(read, request.to);
      AcceptedInNormalForm(read, request.cc);
      AcceptedInNormalForm(read, request.bcc);
    }
  }

  /** Everything that is checked before the idempotency key is looked at. */
  function Admit(read: Reading, caller: Caller, request: Request, suppressed: set<string>): Result<Envelope, Refusal>
    requires Known(caller)
  {
    match Authority.AuthorizeSender(caller.tables, read, caller.principal, request.from)
    case Err(e) => Err(Unauthorized(e))
    case Ok(mailbox) =>
      match Address(read, request)
      case Err(e) => Err(e)
      case Ok(recipients) =>
        var caught := Caught(read, suppressed, All(recipients));
        if caught != {} then Err(Suppressed(caught)) else Ok(Envelope(mailbox, recipients))
  }

  /** `_replay_if_seen`. */
  function Replayed(keys: map<KeyId, KeyRow>, id: KeyId, hash: string): Option<Result<nat, Refusal>> {
    if id !in keys then None
    else if keys[id].hash != hash then Some(Err(KeyReused))
    else if keys[id].response.None? then Some(Err(KeyInProgress))
    else Some(Ok(keys[id].response.value))
  }

  /** A request without a key is never a replay. */
  function Seen(keys: map<KeyId, KeyRow>, project: nat, key: string, hash: string): Option<Result<nat, Refusal>> {
    if key == "" then None else Replayed(keys, (project, key), hash)
  }

  function Decide(
    read: Reading, caller: Caller, request: Request, key: string, hash: string,
    suppressed: set<string>, keys: map<KeyId, KeyRow>): Result<Decision, Refusal>
    requires Known(caller)
  {
    match Admit(read, caller, request, suppressed)
    case Err(e) => Err(e)
    case Ok(envelope) =>
      match Seen(keys, caller.principal.project, key, hash)
      case None => Ok(Write(envelope))
      case Some(Err(e)) => Err(e)
      case Some(Ok(id)) => Ok(Replay(id))
  }

  /** The suppressed addresses among these, as the lookup reads them. */
  predicate Hits(read: Reading, suppressed: set<string>, recipients: Recipients, hits: set<string>) {
    && (forall a :: a in hits ==> a in suppressed && Mentions(read, All(recipients), a))
    && (forall a :: a in suppressed && Mentions(read, All(recipients), a) ==> a in hits)
  }

  /**
    The order of the decision: the sender, then the recipients and limits, then the suppression list, with
    all it catches, then the key; and what is written is for the mailbox the sender was authorised for.
  */
  lemma DecidedInOrder(
    read: Reading, caller: Caller, request: Request, key: string, hash: string,
    suppressed: set<string>, keys: map<KeyId, KeyRow>)
    requires Known(caller)
    ensures var decision := Decide(read, caller, request, key, hash, suppressed, keys);
            var sender := Authority.AuthorizeSender(caller.tables, read, caller.principal, request.from);
            var recipients, id := Address(read, request), (caller.principal.project, key);
            if sender.Err? then decision == Err(Unauthorized(sender.error))
            else if recipients.Err? then decision == Err(recipients.error)
            else
              match decision
              case Err(Suppressed(hits)) => hits != {} && Hits(read, suppressed, recipients.value, hits)
              case Err(KeyReused) =>
                Hits(read, suppressed, recipients.value, {}) && key != "" && id in keys && keys[id].hash != hash
              case Err(KeyInProgress) =>
                && Hits(read, suppressed, recipients.value, {}) && key != "" && id in keys
                && keys[id] == KeyRow(hash, None)
              case Ok(Replay(n)) =>
                && Hits(read, suppressed, recipients.value, {}) && key != "" && id in keys
                && keys[id] == KeyRow(hash, Some(n))
              case Ok(Write(envelope)) =>
                && Hits(read, suppressed, recipients.value, {}) && (key == "" || id !in keys)
                && envelope.mailbox == sender.value && AddressedAs(read, request, envelope.recipients)
              case Err(_) => false
  {
    AddressDecides(read, request);
  }

  function Remember(keys: map<KeyId, KeyRow>, project: nat, key: string, hash: string, id: nat): map<KeyId, KeyRow> {
    if key == "" then keys else keys[(project, key) := KeyRow(hash, Some(id))]
  }

  lemma NewLogIs(now: Time)
    ensures NewLog(now) == [Event(1, ApiAccepted, now), Event(2, MessageQueued, now)]
  {
    assert [Event(1, ApiAccepted, now)][..0] == [];
  }

  // ---- The transaction ---------------------------------------------------------------

  datatype Receipt = Receipt(id: nat, replayed: bool)

  class Intake {
    const database: Tables.Database
    var keys: map<KeyId, KeyRow>

    constructor (database: Tables.Database)
      ensures this.database == database && keys == map[]
    {
      this.database := database;
      keys := map[];
    }

    /** `_normalise_recipients` on the three lists, then the limits, in the order of the code. */
    method ReadRecipients(read: Reading, request: Request) returns (r: Result<Recipients, Refusal>)
      ensures r == Address(read, request)
    {
      var to := NormaliseRecipients(read, request.to);
      if to.Err? { return Err(BadRecipient(To, to.error)); }
      var cc := NormaliseRecipients(read, request.cc);
      if cc.Err? { return Err(BadRecipient(Cc, cc.error)); }
      var bcc := NormaliseRecipients(read, request.bcc);
      if bcc.Err? { return Err(BadRecipient(Bcc, bcc.error)); }
      var total := |to.value| + |cc.value| + |bcc.value|;
      if total == 0 { return Err(NoRecipients); }
      if total > MAX_RECIPIENTS { return Err(TooManyRecipients(total)); }
      if request.size > MAX_MESSAGE_BYTES { return Err(TooLarge(request.size)); }
      if request.replyTo != "" {
        var replyTo := NormaliseRecipients(read, [request.replyTo]);
        if replyTo.Err? { return Err(BadRecipient(ReplyTo, request.replyTo)); }
      }
      return Ok(Recipients(to.value, cc.value, bcc.value));
    }

    /** Steps 1 to 4 of `ingest_message`: may this be sent, and was it sent already? */
    method Consider(read: Reading, caller: Caller, request: Request, key: string, hash: string)
      returns (r: Result<Decision, Refusal>)
      requires Known(caller)
      ensures r == Decide(read, caller, request, key, hash, database.suppressed, keys)
    {
      var sender := Authority.AuthorizeSender(caller.tables, read, caller.principal, request.from);
      if sender.Err? { return Err(Unauthorized(sender.error)); }
      var recipients := ReadRecipients(read, request);
      if recipients.Err? { return Err(recipients.error); }
      var caught := FindSuppressed(read, database.suppressed, All(recipients.value));
      if caught != {} { return Err(Suppressed(caught)); }
      if key != "" {
        var replay := Replayed(keys, (caller.principal.project, key), hash);
        if replay.Some? {
          match replay.value {
            case Err(e) => return Err(e);
            case Ok(seen) => return Ok(Replay(seen));
          }
        }
      }
      return Ok(Write(Envelope(sender.value, recipients.value)));
    }

    /** Step 5, the durable write: a queued message, its first two events, and the key it answers. */
    method Accept(envelope: Envelope, body: Body, project: nat, key: string, hash: string, now: Time)
      returns (id: nat)
      modifies this, database
      ensures id == |old(database.rows)|
      ensures keys == Remember(old(keys), project, key, hash, id)
      ensures database.rows == old(database.rows) + [NewMessage(envelope.mailbox, envelope.recipients, body, now)]
      ensures database.events == old(database.events) + [NewLog(now)]
      ensures database.suppressed == old(database.suppressed)
    {
      id := |database.rows|;
      NewLogIs(now);
      database.rows := database.rows + [NewMessage(envelope.mailbox, envelope.recipients, body, now)];
      database.events := database.events + [[Event(1, ApiAccepted, now), Event(2, MessageQueued, now)]];
      if key != "" {
        keys := keys[(project, key) := KeyRow(hash, Some(id))];
      }
    }

    /** `ingest_message`, when no other transaction inserts the same key in between. */
    method IngestMessage(read: Reading, caller: Caller, request: Request, key: string, hash: string, now: Time)
      returns (r: Result<Receipt, Refusal>)
      requires Known(caller)
      modifies this, database
      ensures var decision := Decide(read, caller, request, key, hash, old(database.suppressed), old(keys));
              if decision.Ok? && decision.value.Write? then
                var envelope := decision.value.envelope;
                && r == Ok(Receipt(|old(database.rows)|, false))
                && keys == Remember(old(keys), caller.principal.project, key, hash, |old(database.rows)|)
                && database.rows == old(database.rows)
                                    + [NewMessage(envelope.mailbox, envelope.recipients, request.body, now)]
                && database.events == old(database.events) + [NewLog(now)]
              else
                && r == (if decision.Ok? then Ok(Receipt(decision.value.id, true)) else Err(decision.error))
                && keys == old(keys)
                && database.rows == old(database.rows) && database.events == old(database.events)
      ensures database.suppressed == old(database.suppressed)
      ensures r.Ok? && !r.value.replayed ==>
                && |database.rows| == |old(database.rows)| + 1
                && var row := database.rows[|old(database.rows)|];
                   && AddressedAs(read, request, row.recipients) && row.body == request.body
                   && Authority.AuthorizeSender(caller.tables, read, caller.principal, request.from) == Ok(row.mailbox)
                   && row.status == Queued && row.attempts == 0 && row.nextAttemptAt == now
    {
      DecidedInOrder(read, caller, request, key, hash, database.suppressed, keys);
      var decision := Consider(read, caller, request, key, hash);
      match decision {
        case Err(e) => return Err(e);
        case Ok(Replay(seen)) => return Ok(Receipt(seen, true));
        case Ok(Write(envelope)) =>
          var id := Accept(envelope, request.body, caller.principal.project, key, hash, now);
          return Ok(Receipt(id, false));
      }
    }
  }
}
