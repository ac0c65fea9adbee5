/**
  The life of a sending domain (`emaild/domains.py`, `emaild/provisioning.py`): what a DNS sweep and
  the provisioning of a mailbox make of its status, over whole runs.
*/
module Lifecycle {
  import opened Prelude
  import Dkim

  datatype Status = Added | OwnershipPending | DnsIncomplete | Verified | Ready | Suspended | Misconfigured

  datatype Check = Mx | Spf | DkimKey | Dmarc | Ownership

  type Report = map<Check, Dkim.CheckResult>

  predicate Ok(report: Report, check: Check) {
    check in report && report[check].Pass?
  }

  predicate Required(check: Check) {
    check == Mx || check == Spf || check == DkimKey
  }

  /** `can_send`: every required check that was made passed. */
  predicate CanSend(report: Report) {
    forall check :: check in report && Required(check) ==> report[check].Pass?
  }

  predicate HadLookupErrors(report: Report) {
    exists check :: check in report && report[check].Error?
  }

  /** `verify_domain` makes all five checks. */
  predicate Complete(report: Report) {
    report.Keys == {Mx, Spf, DkimKey, Dmarc, Ownership}
  }

  /** `_next_status`. */
  function NextStatus(current: Status, report: Report, hasMailbox: bool): Status {
    if current == Suspended then current
    else if Ownership in report && !report[Ownership].Pass? then
      if report[Ownership].Error? then current else OwnershipPending
    else if !CanSend(report) then
      if HadLookupErrors(report) then current
      else if current == Ready then Misconfigured
      else DnsIncomplete
    else if !hasMailbox then Verified
    else Ready
  }

  // ---- One sweep ---------------------------------------------------------------------

  /** Proof that the domain is set up. */
  predicate Proven(report: Report) {
    Ok(report, Ownership) && Ok(report, Mx) && Ok(report, Spf) && Ok(report, DkimKey)
  }

  /** A lookup that answered, and answered no. */
  predicate Denied(report: Report, check: Check) {
    check in report && (report[check].Fail? || report[check].Missing?)
  }

  /** Positive evidence that something is wrong. */
  predicate Refuted(report: Report) {
    || Denied(report, Ownership)
    || (!HadLookupErrors(report) && exists check :: Required(check) && Denied(report, check))
  }

  /** A sweep that decides nothing: something failed to resolve, and nothing else is conclusive. */
  predicate Held(report: Report) {
    !Proven(report) && !Refuted(report)
  }

  /** DNS alone stands against the domain. */
  predicate Broken(report: Report) {
    Refuted(report) && !Denied(report, Ownership)
  }

  /**
    What a complete report does to a domain no operator controls: it proves, refutes or holds, and each
    status is reached by just the evidence it names, or kept while nothing is decided.
  */
  lemma SweepDecides(current: Status, report: Report, hasMailbox: bool)
    requires Complete(report) && current != Suspended
    ensures var next := NextStatus(current, report, hasMailbox);
            && (Proven(report) ==> next == if hasMailbox then Ready else Verified)
            && (Refuted(report) ==> next == OwnershipPending || next == DnsIncomplete || next == Misconfigured)
            && (Held(report) ==> next == current)
            && !(Proven(report) && Refuted(report))
    ensures var next := NextStatus(current, report, hasMailbox);
            && (next == OwnershipPending <==>
                  Denied(report, Ownership) || (Held(report) && current == OwnershipPending))
            && (next == DnsIncomplete <==>
                  (Broken(report) && current != Ready) || (Held(report) && current == DnsIncomplete))
            && (next == Misconfigured <==>
                  (Broken(report) && current == Ready) || (Held(report) && current == Misconfigured))
  {
    assert Ownership in report.Keys && Mx in report.Keys && Spf in report.Keys && DkimKey in report.Keys;
  }

  /**
    The same evidence settles the status within two sweeps; the second one moves it only after an outage of
    a ready domain.
  */
  lemma EvidenceSettles(current: Status, report: Report, hasMailbox: bool)
    ensures var once := NextStatus(current, report, hasMailbox);
            var twice := NextStatus(once, report, hasMailbox);
            && NextStatus(twice, report, hasMailbox) == twice
            && (twice != once <==>
                  && current == Ready && (Ownership in report ==> report[Ownership].Pass?)
                  && !CanSend(report) && !HadLookupErrors(report))
  {
  }

  // ---- Runs --------------------------------------------------------------------------

  datatype Domain = Domain(status: Status, mailboxes: nat)

  /** A sweep without a report is one whose provider call failed. */
  datatype Step =
    | Sweep(report: Option<Report>)
    | Provision(providerOk: bool, distinctIdentity: bool)
    | Suspend

  predicate Sensible(step: Step) {
    step.Sweep? && step.report.Some? ==> Complete(step.report.value)
  }

  /** `refresh_domain`, as far as the status goes. */
  function Refreshed(d: Domain, report: Option<Report>): Domain {
    match report
    case None => d
    case Some(r) => d.(status := NextStatus(d.status, r, d.mailboxes > 0))
  }

  /** Whether `provision_mailbox` gets as far as creating a new address on this domain. */
  predicate Provisions(d: Domain, providerOk: bool, distinctIdentity: bool) {
    && d.status != Added && d.status != OwnershipPending
    && (d.mailboxes == 0 || distinctIdentity)
    && providerOk
  }

  function Provisioned(d: Domain): Domain {
    Domain(if d.status == Verified then Ready else d.status, d.mailboxes + 1)
  }

  function Next(d: Domain, step: Step): Domain {
    match step
    case Sweep(report) => Refreshed(d, report)
    case Provision(providerOk, distinct) => if Provisions(d, providerOk, distinct) then Provisioned(d) else d
    case Suspend => d.(status := Suspended)
  }

  datatype Run = Start | Then(before: Run, step: Step)

  predicate Valid(run: Run) {
    run.Then? ==> Valid(run.before) && Sensible(run.step)
  }

  function After(run: Run): Domain {
    match run
    case Start => Domain(Added, 0)
    case Then(before, step) => Next(After(before), step)
  }

  /** The last report of the run that was not held. */
  function LastWord(run: Run): Option<Report> {
    match run
    case Start => None
    case Then(before, step) =>
      if step.Sweep? && step.report.Some? && !Held(step.report.value) then step.report else LastWord(before)
  }

  predicate EverSuspended(run: Run) {
    run.Then? && (run.step.Suspend? || EverSuspended(run.before))
  }

  /**
    A domain that may send, or lacks only a mailbox, was proven by the last sweep that decided
    anything: ownership, MX, SPF and DKIM all passed. Ready exactly when it also has a mailbox.
  */
  lemma {:induction false} ReadyIsProven(run: Run)
    requires Valid(run)
    ensures var d := After(run);
            d.status == Ready || d.status == Verified ==>
              && LastWord(run).Some? && Proven(LastWord(run).value)
              && (d.status == Ready <==> d.mailboxes > 0)
  {
    if run.Then? {
      ReadyIsProven(run.before);
      var d := After(run.before);
      if run.step.Sweep? && run.step.report.Some? && d.status != Suspended {
        SweepDecides(d.status, run.step.report.value, d.mailboxes > 0);
      }
    }
  }

  /** And the other way round: proven by its last word and never suspended, it may send or lacks only a mailbox. */
  lemma {:induction false} ProvenIsReady(run: Run)
    requires Valid(run) && !EverSuspended(run)
    ensures var d := After(run);
            && d.status != Suspended
            && (LastWord(run).Some? && Proven(LastWord(run).value) ==>
                  d.status == if d.mailboxes > 0 then Ready else Verified)
  {
    if run.Then? {
      ProvenIsReady(run.before);
      var d := After(run.before);
      if run.step.Sweep? && run.step.report.Some? {
        SweepDecides(d.status, run.step.report.value, d.mailboxes > 0);
      }
    }
  }

  /**
    A domain past the first two statuses, unless suspended, was shown to be ours: ownership passed in the
    last sweep that decided anything. So no mailbox is ever created for one whose ownership was not.
  */
  lemma {:induction false} OwnershipWasShown(run: Run)
    requires Valid(run)
    ensures var d := After(run);
            d.status != Added && d.status != OwnershipPending && d.status != Suspended ==>
              LastWord(run).Some? && Ok(LastWord(run).value, Ownership)
  {
    if run.Then? {
      OwnershipWasShown(run.before);
      var d := After(run.before);
      if run.step.Sweep? && run.step.report.Some? && d.status != Suspended {
        SweepDecides(d.status, run.step.report.value, d.mailboxes > 0);
        assert Ownership in run.step.report.value.Keys;
      }
    }
  }

  /** The requests for a mailbox that the provider granted, and those of them for a distinct identity. */
  function Granted(run: Run): nat {
    if run.Start? then 0
    else Granted(run.before) + if run.step.Provision? && run.step.providerOk then 1 else 0
  }

  function Asserted(run: Run): nat {
    if run.Start? then 0
    else
      Asserted(run.before)
      + if run.step.Provision? && run.step.providerOk && run.step.distinctIdentity then 1 else 0
  }

  /**
    The policy of one identity: apart from a first, every mailbox of a domain was granted by the provider
    and asserted by the caller to be a distinct identity.
  */
  lemma {:induction false} OneIdentityUnlessAsserted(run: Run)
    ensures After(run).mailboxes <= 1 + Asserted(run) && After(run).mailboxes <= Granted(run)
  {
    if run.Then? {
      OneIdentityUnlessAsserted(run.before);
    }
  }

  /** A request that the policy, the provider and the status allow is never turned away. */
  lemma AllowedIsProvisioned(d: Domain)
    requires d.status != Added && d.status != OwnershipPending
    ensures Next(d, Provision(true, true)).mailboxes == d.mailboxes + 1
    ensures d.mailboxes == 0 ==> Next(d, Provision(true, false)).mailboxes == 1
  {
  }

  /** Ready is left only by an operator or on positive evidence: never by a failed lookup or a failed provider call. */
  lemma ReadyIsLeftOnEvidence(d: Domain, step: Step)
    requires Sensible(step) && d.status == Ready && Next(d, step).status != Ready
    requires d.mailboxes > 0
    ensures step.Suspend? || (step.Sweep? && step.report.Some? && Refuted(step.report.value))
  {
    if step.Sweep? && step.report.Some? {
      SweepDecides(d.status, step.report.value, true);
    }
  }

  predicate Extends(run: Run, more: Run) {
    more == run || (more.Then? && Extends(run, more.before))
  }

  /** Nothing automatic overwrites an operator's decision. */
  lemma {:induction false} SuspendedStays(run: Run, more: Run)
    requires Extends(run, more) && After(run).status == Suspended
    ensures After(more).status == Suspended
  {
    if more != run {
      SuspendedStays(run, more.before);
    }
  }

  /** Provisioning and sweeping agree: promoting a verified domain is what the next sweep would have done. */
  lemma {:induction false} ProvisioningAnticipatesTheSweep(run: Run, providerOk: bool, distinct: bool)
    requires Valid(run) && After(run).status == Verified && Provisions(After(run), providerOk, distinct)
    ensures LastWord(run).Some?
    ensures var d := Next(After(run), Provision(providerOk, distinct));
            d.status == Ready && Refreshed(d, LastWord(run)) == d
  {
    ReadyIsProven(run);
    LastWordIsComplete(run);
    SweepDecides(Ready, LastWord(run).value, true);
  }

  lemma {:induction false} LastWordIsComplete(run: Run)
    requires Valid(run)
    ensures LastWord(run).Some? ==> Complete(LastWord(run).value)
  {
    if run.Then? {
      LastWordIsComplete(run.before);
    }
  }
}
