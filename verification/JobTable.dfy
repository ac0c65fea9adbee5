/** The transactions of the job queue, run one at a time on the table they update (`emaild/jobs.py`). */
module JobTable {
  import opened Prelude
  import opened Jobs
  import opened DomainNames

  /** Every stored domain passes the check that `execute` repeats. */
  predicate AllClean(jobs: seq<Job>) {
    forall i :: 0 <= i < |jobs| ==> CleanDomain(jobs[i].target.domain).Ok?
  }

  /** `execute`: the domain is cleaned again before the provider, whose answer is `accepted`, is asked. */
  predicate Executes(job: Job, accepted: bool) {
    CleanDomain(job.target.domain).Ok? && accepted
  }

  class Queue {
    var jobs: seq<Job>

    constructor ()
      ensures jobs == [] && OneEach(jobs) && AllClean(jobs)
    {
      jobs := [];
    }

    method Enqueue(jobType: JobType, raw: string, now: Time) returns (r: Result<nat, NameError>)
      modifies this
      ensures r.Err? ==> CleanDomain(raw) == Err(r.error) && jobs == old(jobs)
      ensures r.Ok? ==> CleanDomain(raw).Ok? && r.value < |jobs| && Outstanding(jobs[r.value])
                        && jobs[r.value].target == Target(jobType, CleanDomain(raw).value)
      ensures r.Ok? ==> jobs == (if Wanted(old(jobs), Target(jobType, CleanDomain(raw).value)) then old(jobs)
                                 else old(jobs) + [NewJob(Target(jobType, CleanDomain(raw).value), now)])
      ensures OneEach(old(jobs)) ==> OneEach(jobs)
      ensures AllClean(old(jobs)) ==> AllClean(jobs)
    {
      var name := CleanDomain(raw);
      if name.Err? {
        return Err(name.error);
      }
      AcceptedAgain(raw);
      r := Place(Target(jobType, name.value), now);
    }

    /** The part of `enqueue` after the name is clean. */
    method Place(target: Target, now: Time) returns (r: Result<nat, NameError>)
      modifies this
      ensures r.Ok? && r.value < |jobs| && Outstanding(jobs[r.value]) && jobs[r.value].target == target
      ensures jobs == if Wanted(old(jobs), target) then old(jobs) else old(jobs) + [NewJob(target, now)]
      ensures OneEach(old(jobs)) ==> OneEach(jobs)
    {
      for i := 0 to |jobs|
        invariant forall j :: 0 <= j < i ==> !(Outstanding(jobs[j]) && jobs[j].target == target)
      {
        if Outstanding(jobs[i]) && jobs[i].target.jobType == target.jobType && jobs[i].target.domain == target.domain {
          return Ok(i);
        }
      }
      r := Ok(|jobs|);
      jobs := jobs + [Job(target, now, Pending, None, None)];
    }

    /** `claim_one`, among the rows no other transaction has locked. */
    method ClaimOne(locked: set<nat>, now: Time) returns (claimed: Option<nat>)
      modifies this
      ensures claimed.None? ==> jobs == old(jobs) && forall j :: 0 <= j < |jobs| ==> !Claimable(old(jobs), locked, j)
      ensures claimed.Some? ==>
                && Oldest(old(jobs), locked, claimed.value)
                && jobs == old(jobs)[claimed.value := ClaimRow(old(jobs)[claimed.value], now)]
                && jobs[claimed.value].status == Running && jobs[claimed.value].claimedAt == Some(now)
    {
      claimed := None;
      for i := 0 to |jobs|
        invariant claimed.None? ==> forall j :: 0 <= j < i ==> !Claimable(jobs, locked, j)
        invariant claimed.Some? ==>
                    && Claimable(jobs, locked, claimed.value)
                    && forall j :: 0 <= j < i && Claimable(jobs, locked, j) ==>
                         jobs[claimed.value].createdAt <= jobs[j].createdAt
      {
        if Claimable(jobs, locked, i) && (claimed.None? || jobs[i].createdAt < jobs[claimed.value].createdAt) {
          claimed := Some(i);
        }
      }
      if claimed.Some? {
        jobs := jobs[claimed.value := jobs[claimed.value].(status := Running, claimedAt := Some(now))];
      }
    }

    /**
      `run_one`: claim, execute and record in one transaction. What becomes of the oldest claimable job
      is its recorded result, and no other row changes.
    */
    method RunOne(locked: set<nat>, accepted: bool, now: Time, later: Time) returns (processed: bool)
      modifies this
      ensures processed <==> exists id :: 0 <= id < |old(jobs)| && Claimable(old(jobs), locked, id)
      ensures !processed ==> jobs == old(jobs)
      ensures processed ==>
                exists id :: 0 <= id < |old(jobs)| && Oldest(old(jobs), locked, id)
                             && jobs == old(jobs)[id :=
                                  FinishRow(old(jobs)[id], now, Executes(old(jobs)[id], accepted), later)]
      ensures AllClean(old(jobs)) && processed ==>
                exists id :: 0 <= id < |old(jobs)| && Oldest(old(jobs), locked, id)
                             && jobs == old(jobs)[id := FinishRow(old(jobs)[id], now, accepted, later)]
                             && Reports(jobs[id], Some((accepted, later))) && jobs[id].claimedAt == Some(now)
    {
      var claimed := ClaimOne(locked, now);
      if claimed.None? {
        return false;
      }
      var id := claimed.value;
      var name := CleanDomain(jobs[id].target.domain);
      if name.Err? {
        jobs := jobs[id := jobs[id].(status := Failed, completedAt := Some(later))];
      } else {
        jobs := jobs[id := jobs[id].(status := if accepted then Succeeded else Failed, completedAt := Some(later))];
      }
      assert jobs == old(jobs)[id := FinishRow(old(jobs)[id], now, Executes(old(jobs)[id], accepted), later)];
      return true;
    }

    /** `reap_stale`. */
    method ReapStale(now: Time) returns (count: nat)
      modifies this
      ensures jobs == ReapAll(old(jobs), now)
      ensures count == |set i | 0 <= i < |old(jobs)| && Stale(old(jobs)[i], now - STALE_CLAIM_AFTER)|
    {
      var cutoff := now - STALE_CLAIM_AFTER;
      ghost var before := jobs;
      ghost var taken: set<nat> := {};
      count := 0;
      for i := 0 to |jobs|
        invariant |jobs| == |before|
        invariant forall j :: 0 <= j < i ==> jobs[j] == ReapRow(before[j], cutoff)
        invariant forall j :: i <= j < |jobs| ==> jobs[j] == before[j]
        invariant taken == set j | 0 <= j < i && Stale(before[j], cutoff)
        invariant count == |taken|
      {
        if Stale(jobs[i], cutoff) {
          jobs := jobs[i := jobs[i].(status := Pending, claimedAt := None)];
          taken := taken + {i};
          count := count + 1;
        }
      }
    }
  }

  /**
    The queue keeps apart what it has cleaned once; a provisioner acts on what it cleans twice. Two
    stored domains lead to one and the same call exactly when they are equal up to a final newline.
  */
  lemma SameCallIff(raw: string, other: string)
    requires CleanDomain(raw).Ok? && CleanDomain(other).Ok?
    ensures CleanDomain(CleanDomain(raw).value) == CleanDomain(CleanDomain(other).value)
            <==> WithoutNewline(CleanDomain(raw).value) == WithoutNewline(CleanDomain(other).value)
  {
    AcceptedAgain(raw);
    AcceptedAgain(other);
  }

  /** So two jobs for one domain can be outstanding although there is only one per stored target. */
  lemma SpellingsEscape(name: string, now: Time)
    requires IsName(name)
    ensures CleanDomain(name).Ok? && CleanDomain(name + "\n.").Ok?
    ensures var one := NewJob(Target(AddDomain, CleanDomain(name).value), now);
            var two := NewJob(Target(AddDomain, CleanDomain(name + "\n.").value), now);
            OneEach([one, two]) && CleanDomain(one.target.domain) == CleanDomain(two.target.domain) == Ok(name)
  {
    NamesAreFixed(name);
    ShieldedNewline(name);
  }
}
