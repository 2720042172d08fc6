/**
 * Recurring payment jobs: an employer registers a job paying a fixed amount
 * every interval, anyone may trigger a sweep that pays every due job out of
 * the scheduler's own balance, and a job that cannot be paid is retried a
 * bounded number of times before it fails.
 */
module PaymentScheduler {
  import opened Ledger

  datatype JobStatus = Active | Paused | Failed | Completed

  datatype Job = Job(
    id: nat,
    employer: Address,
    recipient: Address,
    token: Address,
    amount: int,
    interval: nat,
    nextTime: nat,
    maxExecutions: Option<nat>,
    executions: nat,
    maxRetries: nat,
    retryCount: nat,
    status: JobStatus)

  datatype Error =
    | AlreadyInitialized | NotInitialized | NonPositiveAmount | NonPositiveInterval
    | IdOverflow | JobNotFound | NotEmployer | NotActive | NotPaused | InsufficientBalance

  /** Unsigned addition that sticks at `max` instead of overflowing. */
  function SaturatingAdd(a: nat, b: nat, max: nat): (r: nat)
    ensures a <= max ==> a <= r <= max
    ensures a + b <= max ==> r == a + b
    ensures a + b > max ==> r == max
  {
    if a + b > max then max else a + b
  }

  predicate IsDue(job: Job, now: nat)
  {
    job.status == Active && now >= job.nextTime
  }

  /** A job never runs past its execution limit; a limit of zero still lets the first payment through. */
  predicate ExecutionsWithinLimit(job: Job)
  {
    && (job.status == Completed ==> job.maxExecutions.Some?)
    && match job.maxExecutions
       case None => true
       case Some(m) =>
         && job.executions <= Max(m, 1)
         && (job.status == Completed ==> job.executions >= m)
         && (job.status != Completed ==> job.executions < m || job.executions == 0)
  }

  /** What holds of every stored job: the checks of create_job, the integer widths, and the retry and execution bookkeeping. */
  predicate JobInvariant(job: Job)
  {
    && 0 < job.amount <= I128_MAX
    && 0 < job.interval <= U64_MAX
    && job.nextTime <= U64_MAX
    && job.maxRetries <= U32_MAX
    && job.executions <= U32_MAX
    && (job.maxExecutions.Some? ==> job.maxExecutions.value <= U32_MAX)
    && (job.status == Failed ==> job.retryCount == job.maxRetries + 1)
    && (job.status == Active || job.status == Paused ==> job.retryCount <= job.maxRetries)
    && (job.status == Completed ==> job.retryCount == 0)
    && ExecutionsWithinLimit(job)
  }

  /** The job stored under `k`, if any, keeps its invariant. */
  ghost predicate JobOk(jobs: map<nat, Job>, k: nat)
  {
    k in jobs ==> JobInvariant(jobs[k])
  }

  ghost predicate JobsValid(jobs: map<nat, Job>)
  {
    forall k: nat {:trigger JobOk(jobs, k)} :: JobOk(jobs, k)
  }

  /**
   * One attempt at a due job, given the scheduler's balance in the job's
   * token: short of funds, the job is retried one interval later or fails
   * once its retries are used up; otherwise it is paid, its retries reset,
   * and it completes on reaching its execution limit.
   */
  function Attempt(job: Job, balance: int, now: nat): (r: Job)
    ensures r.(nextTime := job.nextTime, executions := job.executions,
               retryCount := job.retryCount, status := job.status) == job
    ensures r.id == job.id && r.amount == job.amount && r.interval == job.interval
    ensures balance < job.amount ==> r.executions == job.executions
    ensures balance < job.amount ==> r.retryCount == SaturatingAdd(job.retryCount, 1, U32_MAX)
    ensures balance < job.amount && r.retryCount > job.maxRetries ==> r.status == Failed && r.nextTime == job.nextTime
    ensures balance >= job.amount ==> r.retryCount == 0 && r.executions == SaturatingAdd(job.executions, 1, U32_MAX)
    ensures balance >= job.amount && job.maxExecutions.Some? && r.executions >= job.maxExecutions.value ==>
              r.status == Completed
    ensures r.status != Failed ==> r.nextTime == SaturatingAdd(now, job.interval, U64_MAX)
    ensures job.interval > 0 && now < U64_MAX ==> !IsDue(r, now)
  {
    var later := SaturatingAdd(now, job.interval, U64_MAX);
    if balance < job.amount then
      var retries := SaturatingAdd(job.retryCount, 1, U32_MAX);
      if retries > job.maxRetries then job.(retryCount := retries, status := Failed)
      else job.(retryCount := retries, nextTime := later)
    else
      var executions := SaturatingAdd(job.executions, 1, U32_MAX);
      var paid := job.(executions := executions, retryCount := 0, nextTime := later);
      match job.maxExecutions
      case Some(m) => if executions >= m then paid.(status := Completed) else paid
      case None => paid
  }

  /**
   * An attempt keeps the job invariant: a job fails exactly when the retry
   * that exhausts its budget comes, a payment that reaches the execution
   * limit completes the job, and the counters stay within their widths.
   */
  lemma AttemptKeepsInvariant(job: Job, balance: int, now: nat)
    requires JobInvariant(job) && job.status == Active && now <= U64_MAX
    ensures JobInvariant(Attempt(job, balance, now))
    ensures var r := Attempt(job, balance, now);
            && (balance < job.amount ==>
                  && (r.status == Failed <==> job.retryCount == job.maxRetries < U32_MAX)
                  && (r.status != Failed ==> r.status == Active))
            && (balance >= job.amount ==>
                  && (r.executions == job.executions + 1 || r.executions == job.executions == U32_MAX)
                  && (r.status == Completed <==> job.maxExecutions.Some? && r.executions >= job.maxExecutions.value)
                  && (r.status != Completed ==> r.status == Active))
  {
  }

  /** What the sweep itself relies on: every job pays a positive amount at a positive interval. */
  predicate Schedulable(jobs: map<nat, Job>)
  {
    forall k :: k in jobs ==> jobs[k].amount > 0 && jobs[k].interval > 0
  }

  ghost predicate NonNegative(b: Balances)
  {
    forall t: Address, h: Address :: BalanceOf(b, t, h) >= 0
  }

  /**
   * The payment of a job the balance covers. Stored jobs have positive
   * amounts, so the transfer always goes through there; the fallback to the
   * unchanged balances only keeps the function total.
   */
  function Pay(b: Balances, token: Address, from: Address, to: Address, amount: int): (r: Balances)
    ensures 0 <= amount <= BalanceOf(b, token, from) ==> Transfer(b, token, from, to, amount) == Some(r)
    ensures !(0 <= amount <= BalanceOf(b, token, from)) ==> r == b
  {
    match Transfer(b, token, from, to, amount)
    case Some(paid) => paid
    case None => b
  }

  /**
   * One turn of the sweep: job `id`, when it exists and is due, is
   * attempted and, when the balance covers it, paid from `vault`. The flag
   * says whether the job was attempted.
   */
  function Step(jobs: map<nat, Job>, b: Balances, vault: Address, id: nat, now: nat): (r: (map<nat, Job>, Balances, bool))
    ensures r.0.Keys == jobs.Keys
    ensures r.2 <==> id in jobs && IsDue(jobs[id], now)
    ensures !r.2 ==> r.0 == jobs && r.1 == b
    ensures r.2 ==> r.0 == jobs[id := Attempt(jobs[id], BalanceOf(b, jobs[id].token, vault), now)]
    ensures r.2 && 0 <= jobs[id].amount <= BalanceOf(b, jobs[id].token, vault) ==>
              Transfer(b, jobs[id].token, vault, jobs[id].recipient, jobs[id].amount) == Some(r.1)
    ensures r.2 && BalanceOf(b, jobs[id].token, vault) < jobs[id].amount ==> r.1 == b
    ensures NonNegative(b) ==> NonNegative(r.1)
  {
    if id in jobs && IsDue(jobs[id], now) then
      var job := jobs[id];
      var balance := BalanceOf(b, job.token, vault);
      var after := if balance < job.amount then b else Pay(b, job.token, vault, job.recipient, job.amount);
      (jobs[id := Attempt(job, balance, now)], after, true)
    else (jobs, b, false)
  }

  /**
   * The sweep of process_due_payments from job `id` on: jobs up to
   * `highest` are taken in id order until `maxJobs` of them have been
   * attempted. The result is the new jobs, the new balances and the number
   * of jobs attempted.
   */
  function RunFrom(jobs: map<nat, Job>, b: Balances, vault: Address, id: nat, highest: nat,
                   processed: nat, maxJobs: nat, now: nat): (r: (map<nat, Job>, Balances, nat))
    ensures r.0.Keys == jobs.Keys
    ensures processed <= r.2
    ensures processed <= maxJobs ==> r.2 <= maxJobs
    decreases highest + 1 - id
  {
    if id > highest || processed >= maxJobs then (jobs, b, processed)
    else
      var s := Step(jobs, b, vault, id, now);
      RunFrom(s.0, s.1, vault, id + 1, highest, if s.2 then processed + 1 else processed, maxJobs, now)
  }

  /** The sweep touches only jobs in its id range that were due. */
  lemma {:induction false} RunFromTouchesOnlyDue(jobs: map<nat, Job>, b: Balances, vault: Address, id: nat,
                                                 highest: nat, processed: nat, maxJobs: nat, now: nat)
    ensures forall k :: k in jobs && (k < id || k > highest || !IsDue(jobs[k], now)) ==>
              RunFrom(jobs, b, vault, id, highest, processed, maxJobs, now).0[k] == jobs[k]
    decreases highest + 1 - id
  {
    if id <= highest && processed < maxJobs {
      var s := Step(jobs, b, vault, id, now);
      RunFromTouchesOnlyDue(s.0, s.1, vault, id + 1, highest, if s.2 then processed + 1 else processed, maxJobs, now);
    }
  }

  /**
   * Within one sweep a job is attempted at most once: it ends as it was, or
   * as the result of one attempt, at some balance, made while it was due.
   */
  lemma {:induction false} RunFromAttemptsAtMostOnce(jobs: map<nat, Job>, b: Balances, vault: Address, id: nat,
                                                     highest: nat, processed: nat, maxJobs: nat, now: nat, k: nat)
    requires k in jobs
    ensures var j := RunFrom(jobs, b, vault, id, highest, processed, maxJobs, now).0[k];
            || j == jobs[k]
            || (IsDue(jobs[k], now) && exists balance: int :: j == Attempt(jobs[k], balance, now))
    decreases highest + 1 - id
  {
    if id <= highest && processed < maxJobs {
      var s := Step(jobs, b, vault, id, now);
      var p := if s.2 then processed + 1 else processed;
      if s.2 && k == id {
        RunFromTouchesOnlyDue(s.0, s.1, vault, id + 1, highest, p, maxJobs, now);
        var balance := BalanceOf(b, jobs[k].token, vault);
        assert RunFrom(jobs, b, vault, id, highest, processed, maxJobs, now).0[k] == Attempt(jobs[k], balance, now);
      } else {
        RunFromAttemptsAtMostOnce(s.0, s.1, vault, id + 1, highest, p, maxJobs, now, k);
      }
    }
  }

  lemma ValidJobsSchedulable(jobs: map<nat, Job>)
    requires JobsValid(jobs)
    ensures Schedulable(jobs)
  {
    forall k | k in jobs
      ensures jobs[k].amount > 0 && jobs[k].interval > 0
    {
      assert JobOk(jobs, k);
    }
  }

  /** Storing a job that keeps its invariant keeps every stored job's invariant. */
  lemma StoreJobKeepsValid(jobs: map<nat, Job>, id: nat, job: Job)
    requires JobsValid(jobs) && JobInvariant(job)
    ensures JobsValid(jobs[id := job])
  {
    var jobs' := jobs[id := job];
    forall k: nat
      ensures JobOk(jobs', k)
    {
      assert JobOk(jobs, k);
    }
  }

  /** Each job of `after` carries the id it had in `before`. */
  predicate SameIds(after: map<nat, Job>, before: map<nat, Job>)
  {
    forall k :: k in after && k in before ==> after[k].id == before[k].id
  }

  /** No job with an id from `lo` to `hi` is due at `now`. */
  predicate NoneDue(jobs: map<nat, Job>, lo: nat, hi: nat, now: nat)
  {
    forall k :: lo <= k <= hi && k in jobs ==> !IsDue(jobs[k], now)
  }

  /** The sweep keeps every job's invariant and its id. */
  lemma RunFromKeepsInvariant(jobs: map<nat, Job>, b: Balances, vault: Address, id: nat,
                              highest: nat, processed: nat, maxJobs: nat, now: nat)
    requires JobsValid(jobs) && now <= U64_MAX
    ensures JobsValid(RunFrom(jobs, b, vault, id, highest, processed, maxJobs, now).0)
    ensures SameIds(RunFrom(jobs, b, vault, id, highest, processed, maxJobs, now).0, jobs)
  {
    var r := RunFrom(jobs, b, vault, id, highest, processed, maxJobs, now).0;
    forall k: nat | k in r
      ensures JobOk(r, k) && r[k].id == jobs[k].id
    {
      assert JobOk(jobs, k);
      RunFromAttemptsAtMostOnce(jobs, b, vault, id, highest, processed, maxJobs, now, k);
      if r[k] != jobs[k] {
        AttemptKeepsInvariant(jobs[k], jobs[k].amount, now);
        AttemptKeepsInvariant(jobs[k], jobs[k].amount - 1, now);
      }
    }
  }

  /**
   * Unless the sweep stopped at its budget, no job in its id range is left
   * due: an attempted job is rescheduled past `now` or leaves the Active
   * state.
   */
  lemma {:induction false} RunFromClearsDue(jobs: map<nat, Job>, b: Balances, vault: Address, id: nat,
                                            highest: nat, processed: nat, maxJobs: nat, now: nat)
    requires Schedulable(jobs) && now < U64_MAX
    ensures RunFrom(jobs, b, vault, id, highest, processed, maxJobs, now).2 < maxJobs ==>
              NoneDue(RunFrom(jobs, b, vault, id, highest, processed, maxJobs, now).0, id, highest, now)
    decreases highest + 1 - id
  {
    if id <= highest && processed < maxJobs {
      var s := Step(jobs, b, vault, id, now);
      var p := if s.2 then processed + 1 else processed;
      assert Schedulable(s.0);
      RunFromClearsDue(s.0, s.1, vault, id + 1, highest, p, maxJobs, now);
      RunFromTouchesOnlyDue(s.0, s.1, vault, id + 1, highest, p, maxJobs, now);
      var r := RunFrom(s.0, s.1, vault, id + 1, highest, p, maxJobs, now);
      assert RunFrom(jobs, b, vault, id, highest, processed, maxJobs, now) == r;
      if id in r.0 {
        assert r.0[id] == s.0[id];
        assert !IsDue(s.0[id], now);
      }
    }
  }

  /** Payments are made only when covered, so no balance is ever driven below zero. */
  lemma {:induction false} RunFromKeepsBalancesNonNegative(jobs: map<nat, Job>, b: Balances, vault: Address, id: nat,
                                                           highest: nat, processed: nat, maxJobs: nat, now: nat)
    requires NonNegative(b)
    ensures NonNegative(RunFrom(jobs, b, vault, id, highest, processed, maxJobs, now).1)
    decreases highest + 1 - id
  {
    if id <= highest && processed < maxJobs {
      var s := Step(jobs, b, vault, id, now);
      RunFromKeepsBalancesNonNegative(s.0, s.1, vault, id + 1, highest, if s.2 then processed + 1 else processed, maxJobs, now);
    }
  }

  class Scheduler {
    /** The scheduler's own address, which holds the funds jobs are paid from. */
    const vault: Address
    var initialized: bool
    var owner: Address
    /** The last job id handed out; 0 before the first. */
    var nextJobId: nat
    var jobs: map<nat, Job>
    var balances: Balances

    ghost predicate Valid()
      reads this
    {
      && nextJobId <= U128_MAX
      && (!initialized ==> jobs == map[])
      && JobsValid(jobs)
      && forall id :: id in jobs ==> 1 <= id <= nextJobId && jobs[id].id == id
    }

    constructor (vault: Address, balances: Balances)
      ensures Valid()
      ensures this.vault == vault && this.balances == balances
      ensures !initialized && nextJobId == 0 && jobs == map[]
    {
      this.vault := vault;
      this.balances := balances;
      initialized := false;
      owner := 0;
      nextJobId := 0;
      jobs := map[];
    }

    method Initialize(caller: Address) returns (r: Result<(), Error>)
      requires Valid()
      modifies this`initialized, this`owner
      ensures Valid()
      ensures r.Ok? <==> !old(initialized)
      ensures r.Err? ==> r.error == AlreadyInitialized && unchanged(this)
      ensures r.Ok? ==> initialized && owner == caller
    {
      if initialized {
        return Err(AlreadyInitialized);
      }
      owner := caller;
      initialized := true;
      return Ok(());
    }

    /** Registers an Active job whose first payment falls due at `start`. */
    method CreateJob(employer: Address, recipient: Address, token: Address, amount: int, interval: nat,
                     start: nat, maxExecutions: Option<nat>, maxRetries: nat)
      returns (r: Result<nat, Error>)
      requires Valid()
      requires I128_MIN <= amount <= I128_MAX && interval <= U64_MAX && start <= U64_MAX
      requires maxRetries <= U32_MAX && (maxExecutions.Some? ==> maxExecutions.value <= U32_MAX)
      modifies this`nextJobId, this`jobs
      ensures Valid()
      ensures !initialized ==> r == Err(NotInitialized)
      ensures initialized && amount <= 0 ==> r == Err(NonPositiveAmount)
      ensures initialized && amount > 0 && interval == 0 ==> r == Err(NonPositiveInterval)
      ensures r.Ok? <==> initialized && amount > 0 && interval > 0 && old(nextJobId) < U128_MAX
      ensures r.Err? ==> unchanged(this)
      ensures r.Ok? ==>
                && r.value == nextJobId == old(nextJobId) + 1
                && r.value !in old(jobs)
                && jobs == old(jobs)[r.value := Job(r.value, employer, recipient, token, amount, interval, start,
                                                    maxExecutions, 0, maxRetries, 0, Active)]
    {
      if !initialized {
        return Err(NotInitialized);
      }
      if amount <= 0 {
        return Err(NonPositiveAmount);
      }
      if interval == 0 {
        return Err(NonPositiveInterval);
      }
      if nextJobId == U128_MAX {
        return Err(IdOverflow);
      }
      var id := nextJobId + 1;
      var job := Job(id, employer, recipient, token, amount, interval, start, maxExecutions, 0, maxRetries, 0, Active);
      StoreJobKeepsValid(jobs, id, job);
      nextJobId := id;
      jobs := jobs[id := job];
      return Ok(id);
    }

    /** Attempts every due job in id order, at most `maxJobs` of them, and returns how many were attempted. */
    method ProcessDuePayments(maxJobs: nat, now: nat) returns (r: Result<nat, Error>)
      requires Valid()
      requires maxJobs <= U32_MAX && now <= U64_MAX
      modifies this`jobs, this`balances
      ensures Valid()
      ensures r.Err? <==> !initialized
      ensures r.Err? ==> r.error == NotInitialized && unchanged(this)
      ensures r.Ok? ==> (jobs, balances, r.value) == RunFrom(old(jobs), old(balances), vault, 1, nextJobId, 0, maxJobs, now)
      ensures r.Ok? ==> r.value <= maxJobs && (nextJobId == 0 ==> r.value == 0)
      ensures r.Ok? && r.value < maxJobs && now < U64_MAX ==> NoneDue(jobs, 1, nextJobId, now)
    {
      if !initialized {
        return Err(NotInitialized);
      }
      var highest := nextJobId;
      if highest == 0 || maxJobs == 0 {
        return Ok(0);
      }
      var id := 1;
      var processed := 0;
      while id <= highest && processed < maxJobs
        invariant 1 <= id <= highest + 1
        invariant processed <= maxJobs
        invariant RunFrom(jobs, balances, vault, id, highest, processed, maxJobs, now)
                  == RunFrom(old(jobs), old(balances), vault, 1, highest, 0, maxJobs, now)
        decreases highest + 1 - id
      {
        ghost var before := (jobs, balances, processed);
        if id in jobs && IsDue(jobs[id], now) {
          var job := jobs[id];
          var balance := BalanceOf(balances, job.token, vault);
          if balance >= job.amount {
            balances := Pay(balances, job.token, vault, job.recipient, job.amount);
          }
          jobs := jobs[id := Attempt(job, balance, now)];
          processed := processed + 1;
          assert Step(before.0, before.1, vault, id, now) == (jobs, balances, true);
        } else {
          assert Step(before.0, before.1, vault, id, now) == (jobs, balances, false);
        }
        assert RunFrom(before.0, before.1, vault, id, highest, before.2, maxJobs, now)
            == RunFrom(jobs, balances, vault, id + 1, highest, processed, maxJobs, now);
        id := id + 1;
      }
      RunFromKeepsInvariant(old(jobs), old(balances), vault, 1, highest, 0, maxJobs, now);
      if now < U64_MAX {
        ValidJobsSchedulable(old(jobs));
        RunFromClearsDue(old(jobs), old(balances), vault, 1, highest, 0, maxJobs, now);
      }
      return Ok(processed);
    }

    method PauseJob(employer: Address, id: nat) returns (r: Result<(), Error>)
      requires Valid()
      modifies this`jobs
      ensures Valid()
      ensures !initialized ==> r == Err(NotInitialized)
      ensures initialized && id !in old(jobs) ==> r == Err(JobNotFound)
      ensures initialized && id in old(jobs) && old(jobs)[id].employer != employer ==> r == Err(NotEmployer)
      ensures r.Ok? <==> initialized && id in old(jobs) && old(jobs)[id].employer == employer
                         && old(jobs)[id].status == Active
      ensures r.Err? ==> jobs == old(jobs)
      ensures r.Ok? ==> jobs == old(jobs)[id := old(jobs)[id].(status := Paused)]
    {
      if !initialized {
        return Err(NotInitialized);
      }
      if id !in jobs {
        return Err(JobNotFound);
      }
      var job := jobs[id];
      if job.employer != employer {
        return Err(NotEmployer);
      }
      if job.status != Active {
        return Err(NotActive);
      }
      assert JobOk(jobs, id);
      StoreJobKeepsValid(jobs, id, job.(status := Paused));
      jobs := jobs[id := job.(status := Paused)];
      return Ok(());
    }

    method ResumeJob(employer: Address, id: nat) returns (r: Result<(), Error>)
      requires Valid()
      modifies this`jobs
      ensures Valid()
      ensures !initialized ==> r == Err(NotInitialized)
      ensures initialized && id !in old(jobs) ==> r == Err(JobNotFound)
      ensures initialized && id in old(jobs) && old(jobs)[id].employer != employer ==> r == Err(NotEmployer)
      ensures r.Ok? <==> initialized && id in old(jobs) && old(jobs)[id].employer == employer
                         && old(jobs)[id].status == Paused
      ensures r.Err? ==> jobs == old(jobs)
      ensures r.Ok? ==> jobs == old(jobs)[id := old(jobs)[id].(status := Active)]
    {
      if !initialized {
        return Err(NotInitialized);
      }
      if id !in jobs {
        return Err(JobNotFound);
      }
      var job := jobs[id];
      if job.employer != employer {
        return Err(NotEmployer);
      }
      if job.status != Paused {
        return Err(NotPaused);
      }
      assert JobOk(jobs, id);
      StoreJobKeepsValid(jobs, id, job.(status := Active));
      jobs := jobs[id := job.(status := Active)];
      return Ok(());
    }

    /** Moves `amount` of the job's token from `from` into the scheduler. */
    method FundJob(from: Address, id: nat, amount: int) returns (r: Result<(), Error>)
      requires Valid()
      modifies this`balances
      ensures Valid()
      ensures !initialized ==> r == Err(NotInitialized)
      ensures initialized && amount <= 0 ==> r == Err(NonPositiveAmount)
      ensures initialized && amount > 0 && id !in jobs ==> r == Err(JobNotFound)
      ensures r.Ok? <==> initialized && amount > 0 && id in jobs
                         && amount <= BalanceOf(old(balances), jobs[id].token, from)
      ensures r.Err? ==> balances == old(balances)
      ensures r.Ok? ==> Transfer(old(balances), jobs[id].token, from, vault, amount) == Some(balances)
    {
      if !initialized {
        return Err(NotInitialized);
      }
      if amount <= 0 {
        return Err(NonPositiveAmount);
      }
      if id !in jobs {
        return Err(JobNotFound);
      }
      var moved := Transfer(balances, jobs[id].token, from, vault, amount);
      if moved.None? {
        return Err(InsufficientBalance);
      }
      balances := moved.value;
      return Ok(());
    }
  }
}
