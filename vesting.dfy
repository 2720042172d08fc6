/**
 * Token vesting: an employer escrows `total` tokens for a beneficiary, who
 * may claim them as they vest (linearly between two times, all at once at a
 * cliff, or by explicit cumulative checkpoints). The contract owner may
 * approve early releases, and the employer may revoke a revocable schedule,
 * which freezes vesting and refunds the unvested part.
 */
module TokenVesting {
  import opened Ledger
  import Arith

  datatype Kind = Linear | Cliff | Custom

  datatype Status = Active | Revoked | Completed

  /** At `time`, `cumulative` tokens in all have vested. */
  datatype Checkpoint = Checkpoint(time: nat, cumulative: int)

  datatype Schedule = Schedule(
    id: nat,
    employer: Address,
    beneficiary: Address,
    token: Address,
    kind: Kind,
    total: int,
    released: int,
    start: nat,
    end: nat,
    cliff: Option<nat>,
    checkpoints: seq<Checkpoint>,
    status: Status,
    revocable: bool,
    revokedAt: Option<nat>)

  datatype Error =
    | NotInitialized | AlreadyInitialized
    | NonPositiveTotal | EndNotAfterStart | CliffOutsideRange
    | NoCheckpoints | CheckpointsUnsorted | CheckpointAmountsDecrease | LastCheckpointNotTotal
    | InsufficientBalance | IdOverflow | ScheduleNotFound
    | NotBeneficiary | AlreadyCompleted | NothingToClaim
    | NotOwner | NonPositiveAmount | NotActive | NoUnvestedRemaining
    | NotEmployer | NotRevocable

  // ---------------------------------------------------------------------
  // Vesting arithmetic
  // ---------------------------------------------------------------------

  /** The time vesting is evaluated at: a revoked schedule stays frozen at its revocation time. */
  function EffectiveNow(now: nat, s: Schedule): nat
  {
    if s.status == Revoked && s.revokedAt.Some? then s.revokedAt.value else now
  }

  /** Linear interpolation of `total` over (start, end]. */
  function LinearVested(t: nat, start: nat, end: nat, total: int): (v: int)
    requires total > 0
    ensures 0 <= v <= total
    ensures t <= start ==> v == 0
    ensures start < t && end <= t ==> v == total
  {
    if t <= start then 0
    else if t >= end then total
    else
      var elapsed := t - start;
      var duration := end - start;
      if duration == 0 then total
      else
        Arith.MulDivBounded(total, elapsed, duration);
        total * elapsed / duration
  }

  function CliffVested(t: nat, cliff: Option<nat>, total: int): int
  {
    if cliff.Some? && t >= cliff.value then total else 0
  }

  /**
   * The scan over the checkpoints in order: `last` is the amount of the
   * latest checkpoint reached so far, and the scan stops at the first
   * checkpoint whose time is still in the future.
   */
  function ScanCheckpoints(cps: seq<Checkpoint>, t: nat, last: int): int
    decreases |cps|
  {
    if cps == [] then last
    else if t >= cps[0].time then ScanCheckpoints(cps[1..], t, cps[0].cumulative)
    else last
  }

  function CustomVested(t: nat, cps: seq<Checkpoint>, total: int): int
  {
    if |cps| == 0 then 0 else Min(ScanCheckpoints(cps, t, 0), total)
  }

  /**
   * The checkpoint loop of compute_vested_amount: remember the amount of
   * each checkpoint already reached, stop at the first one still ahead, and
   * cap the result at `total`.
   */
  method ComputeCustomVested(t: nat, cps: seq<Checkpoint>, total: int) returns (v: int)
    ensures v == CustomVested(t, cps, total)
  {
    if |cps| == 0 {
      return 0;
    }
    var last := 0;
    var i := 0;
    while i < |cps|
      invariant 0 <= i <= |cps|
      invariant ScanCheckpoints(cps[i..], t, last) == ScanCheckpoints(cps, t, 0)
    {
      if t >= cps[i].time {
        assert cps[i..][1..] == cps[i + 1..];
        last := cps[i].cumulative;
      } else {
        break;
      }
      i := i + 1;
    }
    v := if last > total then total else last;
  }

  /** The amount vested at `now`; a schedule with a non-positive total vests nothing. */
  function VestedAmount(now: nat, s: Schedule): (v: int)
    ensures v <= Max(s.total, 0)
    ensures s.total <= 0 ==> v == 0
  {
    if s.total <= 0 then 0
    else
      var t := EffectiveNow(now, s);
      match s.kind
      case Linear => LinearVested(t, s.start, s.end, s.total)
      case Cliff => CliffVested(t, s.cliff, s.total)
      case Custom => CustomVested(t, s.checkpoints, s.total)
  }

  /** What the beneficiary may claim now: vested minus already released, never negative. */
  function Releasable(now: nat, s: Schedule): (r: int)
    ensures r >= 0
    ensures r >= VestedAmount(now, s) - s.released
    ensures r == 0 || r == VestedAmount(now, s) - s.released
  {
    var d := VestedAmount(now, s) - s.released;
    if d < 0 then 0 else d
  }

  // ---------------------------------------------------------------------
  // Well-formed schedules
  // ---------------------------------------------------------------------

  predicate TimesSorted(cps: seq<Checkpoint>)
  {
    forall i :: 0 < i < |cps| ==> cps[i - 1].time <= cps[i].time
  }

  predicate AmountsNonDecreasing(cps: seq<Checkpoint>)
  {
    forall i :: 0 < i < |cps| ==> cps[i - 1].cumulative <= cps[i].cumulative
  }

  /** The checkpoint validation of custom schedule creation. */
  predicate ValidCheckpoints(cps: seq<Checkpoint>, total: int)
  {
    && |cps| > 0
    && TimesSorted(cps)
    && cps[0].cumulative >= 0
    && AmountsNonDecreasing(cps)
    && cps[|cps| - 1].cumulative == total
  }

  /** The shape each creation entry point gives a schedule. */
  predicate WellFormed(s: Schedule)
  {
    && s.total > 0
    && match s.kind
       case Linear =>
         s.start < s.end && (s.cliff.Some? ==> s.start <= s.cliff.value <= s.end) && s.checkpoints == []
       case Cliff =>
         s.cliff == Some(s.start) && s.end == s.start && s.checkpoints == []
       case Custom =>
         && ValidCheckpoints(s.checkpoints, s.total)
         && s.cliff.None?
         && s.start == s.checkpoints[0].time
         && s.end == s.checkpoints[|s.checkpoints| - 1].time
  }

  /** What every stored schedule satisfies between calls. */
  predicate ScheduleInvariant(s: Schedule)
  {
    && WellFormed(s)
    && 0 <= s.released <= s.total
    && (s.status == Completed <==> s.released == s.total)
    && (s.status == Active ==> s.revokedAt.None?)
    && (s.status == Revoked ==> s.revokedAt.Some?)
  }

  lemma {:induction false} TimesSortedPairwise(cps: seq<Checkpoint>, i: nat, j: nat)
    requires TimesSorted(cps) && i <= j < |cps|
    ensures cps[i].time <= cps[j].time
    decreases j - i
  {
    if i < j {
      TimesSortedPairwise(cps, i, j - 1);
    }
  }

  lemma {:induction false} AmountsPairwise(cps: seq<Checkpoint>, i: nat, j: nat)
    requires AmountsNonDecreasing(cps) && i <= j < |cps|
    ensures cps[i].cumulative <= cps[j].cumulative
    decreases j - i
  {
    if i < j {
      AmountsPairwise(cps, i, j - 1);
    }
  }

  /** With non-decreasing amounts starting at or above `last`, the scan never goes below `last`. */
  lemma {:induction false} ScanAtLeast(cps: seq<Checkpoint>, t: nat, last: int)
    requires AmountsNonDecreasing(cps)
    requires cps != [] ==> last <= cps[0].cumulative
    ensures ScanCheckpoints(cps, t, last) >= last
    decreases |cps|
  {
    if cps != [] && t >= cps[0].time {
      ScanAtLeast(cps[1..], t, cps[0].cumulative);
    }
  }

  /**
   * The scan returns the amount of the checkpoint just before the first one
   * in the future (or `last` if the very first one is in the future),
   * whether or not the checkpoints are sorted.
   */
  lemma {:induction false} ScanStopsAtFirstFuture(cps: seq<Checkpoint>, t: nat, last: int, j: nat)
    requires j <= |cps|
    requires forall i :: 0 <= i < j ==> cps[i].time <= t
    requires j < |cps| ==> t < cps[j].time
    ensures ScanCheckpoints(cps, t, last) == if j == 0 then last else cps[j - 1].cumulative
    decreases |cps|
  {
    if j > 0 {
      assert cps[0].time <= t;
      ScanStopsAtFirstFuture(cps[1..], t, cps[0].cumulative, j - 1);
    }
  }

  /**
   * For valid checkpoints, custom vesting is the cumulative amount of the
   * last checkpoint whose time has passed.
   */
  lemma CustomVestedIsLastReached(t: nat, cps: seq<Checkpoint>, total: int, k: nat)
    requires ValidCheckpoints(cps, total)
    requires k < |cps| && cps[k].time <= t
    requires k + 1 < |cps| ==> t < cps[k + 1].time
    ensures CustomVested(t, cps, total) == cps[k].cumulative
  {
    forall i | 0 <= i < k + 1
      ensures cps[i].time <= t
    {
      TimesSortedPairwise(cps, i, k);
    }
    ScanStopsAtFirstFuture(cps, t, 0, k + 1);
    AmountsPairwise(cps, k, |cps| - 1);
  }

  /** For valid checkpoints, nothing has vested before the first checkpoint. */
  lemma CustomVestedBeforeFirst(t: nat, cps: seq<Checkpoint>, total: int)
    requires ValidCheckpoints(cps, total) && t < cps[0].time
    ensures CustomVested(t, cps, total) == 0
  {
    ScanStopsAtFirstFuture(cps, t, 0, 0);
    AmountsPairwise(cps, 0, |cps| - 1);
  }

  lemma {:induction false} ScanMonotone(cps: seq<Checkpoint>, t1: nat, t2: nat, last1: int, last2: int)
    requires t1 <= t2 && last1 <= last2
    requires AmountsNonDecreasing(cps)
    requires cps != [] ==> last2 <= cps[0].cumulative
    ensures ScanCheckpoints(cps, t1, last1) <= ScanCheckpoints(cps, t2, last2)
    decreases |cps|
  {
    if cps != [] {
      if t1 >= cps[0].time {
        ScanMonotone(cps[1..], t1, t2, cps[0].cumulative, cps[0].cumulative);
      } else if t2 >= cps[0].time {
        ScanAtLeast(cps[1..], t2, cps[0].cumulative);
      }
    }
  }

  lemma LinearMonotone(t1: nat, t2: nat, start: nat, end: nat, total: int)
    requires total > 0 && t1 <= t2
    ensures LinearVested(t1, start, end, total) <= LinearVested(t2, start, end, total)
  {
    if start < t1 && t2 < end {
      Arith.MulMonotone(total, t1 - start, t2 - start);
      assert 0 <= total * (t1 - start);
      Arith.DivMonotone(total * (t1 - start), total * (t2 - start), end - start);
    }
  }

  /** A well-formed schedule has vested between nothing and everything. */
  lemma VestedWithinTotal(now: nat, s: Schedule)
    requires WellFormed(s)
    ensures 0 <= VestedAmount(now, s) <= s.total
  {
    if s.kind == Custom {
      ScanAtLeast(s.checkpoints, EffectiveNow(now, s), 0);
    }
  }

  /** Vesting never goes backwards as time passes. */
  lemma VestedMonotone(now1: nat, now2: nat, s: Schedule)
    requires WellFormed(s) && now1 <= now2
    ensures VestedAmount(now1, s) <= VestedAmount(now2, s)
  {
    var t1, t2 := EffectiveNow(now1, s), EffectiveNow(now2, s);
    match s.kind
    case Linear => LinearMonotone(t1, t2, s.start, s.end, s.total);
    case Cliff =>
    case Custom => ScanMonotone(s.checkpoints, t1, t2, 0, 0);
  }

  /** A cliff schedule vests nothing before the cliff and everything from it on. */
  lemma CliffAllOrNothing(now: nat, s: Schedule)
    requires WellFormed(s) && s.kind == Cliff
    ensures EffectiveNow(now, s) < s.start ==> VestedAmount(now, s) == 0
    ensures EffectiveNow(now, s) >= s.start ==> VestedAmount(now, s) == s.total
  {
  }

  // ---------------------------------------------------------------------
  // Transitions of one schedule record
  // ---------------------------------------------------------------------

  /** The record after `amount` more has been paid to the beneficiary; it completes once everything is out. */
  function Release(s: Schedule, amount: int): Schedule
  {
    var released := s.released + amount;
    s.(released := released, status := if released >= s.total then Completed else s.status)
  }

  function Revoke(s: Schedule, now: nat): Schedule
  {
    s.(status := Revoked, revokedAt := Some(now))
  }

  /**
   * The most an early release may pay: the part of `total` that has neither
   * vested nor been paid out already.
   */
  function EarlyReleaseCap(now: nat, s: Schedule): (c: int)
    ensures c <= s.total - VestedAmount(now, s)
    ensures c <= s.total - s.released
    ensures c == s.total - VestedAmount(now, s) || c == s.total - s.released
  {
    s.total - Max(VestedAmount(now, s), s.released)
  }

  /** The refund on revocation: what is still escrowed minus what the beneficiary may still claim. */
  function RevokeRefund(now: nat, s: Schedule): (c: int)
    ensures c <= s.total - VestedAmount(now, s)
    ensures c <= s.total - s.released
  {
    s.total - Max(VestedAmount(now, s), s.released)
  }

  /** A successful claim pays out exactly what has vested and keeps the record invariant. */
  lemma ClaimSettlesVested(now: nat, s: Schedule)
    requires ScheduleInvariant(s) && s.status != Completed && Releasable(now, s) > 0
    ensures Release(s, Releasable(now, s)).released == VestedAmount(now, s)
    ensures ScheduleInvariant(Release(s, Releasable(now, s)))
    ensures Release(s, Releasable(now, s)).status == Completed <==> VestedAmount(now, s) == s.total
  {
    VestedWithinTotal(now, s);
  }

  /** An early release within the cap keeps the record invariant, so nothing beyond `total` is ever released. */
  lemma EarlyReleaseWithinTotal(now: nat, s: Schedule, amount: int)
    requires ScheduleInvariant(s) && s.status == Active && amount > 0 && EarlyReleaseCap(now, s) > 0
    ensures ScheduleInvariant(Release(s, Min(amount, EarlyReleaseCap(now, s))))
    ensures Release(s, Min(amount, EarlyReleaseCap(now, s))).released <= s.total
  {
  }

  /**
   * Revocation freezes vesting at the revocation time, and what has been
   * released, the refund and what remains claimable add up to exactly
   * `total`, at any later time.
   */
  lemma RevokeSettlesExactly(now: nat, later: nat, s: Schedule)
    requires ScheduleInvariant(s) && s.status == Active
    ensures VestedAmount(later, Revoke(s, now)) == VestedAmount(now, s)
    ensures ScheduleInvariant(Revoke(s, now))
    ensures s.released + RevokeRefund(now, s) + Releasable(later, Revoke(s, now)) == s.total
  {
    VestedWithinTotal(now, s);
    assert EffectiveNow(later, Revoke(s, now)) == now;
  }

  // ---------------------------------------------------------------------
  // The caps as the contract computes them (see Findings in README.md)
  // ---------------------------------------------------------------------

  /** approve_early_release as written caps at the unvested amount, ignoring what was already released. */
  function EarlyReleaseCapAsWritten(now: nat, s: Schedule): int
  {
    s.total - VestedAmount(now, s)
  }

  /** revoke as written refunds the unvested amount, ignoring what was already released. */
  function RevokeRefundAsWritten(now: nat, s: Schedule): int
  {
    s.total - VestedAmount(now, s)
  }

  /** Custom schedule of 500 tokens, 100 vested at time 10 and the rest at time 30, nothing released. */
  function OverpaidExample(): Schedule
  {
    Schedule(1, 1, 2, 3, Custom, 500, 0, 10, 30, None,
             [Checkpoint(10, 100), Checkpoint(30, 500)], Active, true, None)
  }

  /**
   * Two early releases of 400 at time 15 are both admitted by the as-written
   * cap and release 800 of a 500-token schedule.
   */
  lemma RepeatedEarlyReleaseOverpays()
    ensures ScheduleInvariant(OverpaidExample())
    ensures VestedAmount(15, OverpaidExample()) == 100
    ensures var s1 := Release(OverpaidExample(), Min(400, EarlyReleaseCapAsWritten(15, OverpaidExample())));
            && s1.status == Active
            && EarlyReleaseCapAsWritten(15, s1) == 400
            && Release(s1, Min(400, EarlyReleaseCapAsWritten(15, s1))).released == 800
  {
    var s0 := OverpaidExample();
    ScanStopsAtFirstFuture(s0.checkpoints, 15, 0, 1);
    var s1 := Release(s0, 400);
    ScanStopsAtFirstFuture(s1.checkpoints, 15, 0, 1);
  }

  /**
   * After one early release of 400 at time 15, revoking refunds 400 as
   * written: 800 of a 500-token schedule leave the contract.
   */
  lemma RevokeAfterEarlyReleaseOverpays()
    ensures var s1 := Release(OverpaidExample(), 400);
            && ScheduleInvariant(s1)
            && RevokeRefundAsWritten(15, s1) == 400
            && Releasable(15, Revoke(s1, 15)) == 0
            && s1.released + RevokeRefundAsWritten(15, s1) == 800
  {
    var s1 := Release(OverpaidExample(), 400);
    ScanStopsAtFirstFuture(s1.checkpoints, 15, 0, 1);
  }

  // ---------------------------------------------------------------------
  // Creation-time validation
  // ---------------------------------------------------------------------

  /** The argument checks of create_linear_schedule, in order. */
  function CheckLinear(total: int, start: nat, end: nat, cliff: Option<nat>): (e: Option<Error>)
    ensures e.None? <==> total > 0 && start < end && (cliff.Some? ==> start <= cliff.value <= end)
    ensures total <= 0 ==> e == Some(NonPositiveTotal)
  {
    if total <= 0 then Some(NonPositiveTotal)
    else if end <= start then Some(EndNotAfterStart)
    else if cliff.Some? && !(start <= cliff.value <= end) then Some(CliffOutsideRange)
    else None
  }

  /** The checkpoint loop of create_custom_schedule: every checkpoint at or after the previous one, in time and in amount. */
  method CheckCheckpoints(total: int, cps: seq<Checkpoint>) returns (e: Option<Error>)
    ensures e.None? <==> ValidCheckpoints(cps, total)
    ensures e == Some(NoCheckpoints) <==> cps == []
    ensures e == Some(LastCheckpointNotTotal) ==> TimesSorted(cps) && AmountsNonDecreasing(cps)
  {
    if |cps| == 0 {
      return Some(NoCheckpoints);
    }
    var lastTime: nat := 0;
    var lastAmount := 0;
    var i := 0;
    while i < |cps|
      invariant 0 <= i <= |cps|
      invariant i == 0 ==> lastTime == 0 && lastAmount == 0
      invariant i > 0 ==> lastTime == cps[i - 1].time && lastAmount == cps[i - 1].cumulative
      invariant i > 0 ==> cps[0].cumulative >= 0
      invariant TimesSorted(cps[..i]) && AmountsNonDecreasing(cps[..i])
    {
      if cps[i].time < lastTime {
        assert !TimesSorted(cps) by { assert cps[i - 1].time > cps[i].time; }
        return Some(CheckpointsUnsorted);
      }
      if cps[i].cumulative < lastAmount {
        assert i == 0 || !AmountsNonDecreasing(cps) by {
          if i > 0 { assert cps[i - 1].cumulative > cps[i].cumulative; }
        }
        return Some(CheckpointAmountsDecrease);
      }
      lastTime, lastAmount := cps[i].time, cps[i].cumulative;
      i := i + 1;
    }
    assert cps[..i] == cps;
    if lastAmount != total {
      return Some(LastCheckpointNotTotal);
    }
    return None;
  }

  // ---------------------------------------------------------------------
  // The contract and its storage
  // ---------------------------------------------------------------------

  class VestingContract {
    /** The contract's own address, which holds the escrowed tokens. */
    const vault: Address
    var initialized: bool
    var owner: Address
    /** The last schedule id handed out; 0 before the first. */
    var nextScheduleId: nat
    var schedules: map<nat, Schedule>
    /** Balances kept by the token contracts. */
    var balances: Balances

    ghost predicate Valid()
      reads this
    {
      && nextScheduleId <= U128_MAX
      && (!initialized ==> schedules == map[])
      && forall id :: id in schedules ==>
           1 <= id <= nextScheduleId && schedules[id].id == id && ScheduleInvariant(schedules[id])
    }

    constructor (vault: Address, balances: Balances)
      ensures Valid()
      ensures this.vault == vault && this.balances == balances
      ensures !initialized && nextScheduleId == 0 && schedules == map[]
    {
      this.vault := vault;
      this.balances := balances;
      initialized := false;
      owner := 0;
      nextScheduleId := 0;
      schedules := map[];
    }

    method Initialize(caller: Address) returns (r: Result<(), Error>)
      requires Valid()
      modifies this`initialized, this`owner
      ensures Valid()
      ensures r.Ok? <==> !old(initialized)
      ensures r.Ok? ==> initialized && owner == caller
      ensures r.Err? ==> r.error == AlreadyInitialized && owner == old(owner)
      ensures initialized
    {
      if initialized {
        return Err(AlreadyInitialized);
      }
      owner := caller;
      initialized := true;
      return Ok(());
    }

    /** Escrows the template's total from its employer and stores it under the next id. */
    method Open(template: Schedule) returns (r: Result<nat, Error>)
      requires Valid() && initialized && ScheduleInvariant(template) && template.released == 0
      modifies this`nextScheduleId, this`schedules, this`balances
      ensures Valid()
      ensures var paid := Transfer(old(balances), template.token, template.employer, vault, template.total);
              r == if paid.None? then Err(InsufficientBalance)
                   else if old(nextScheduleId) == U128_MAX then Err(IdOverflow)
                   else Ok(old(nextScheduleId) + 1)
      ensures r.Err? ==> unchanged(this)
      ensures r.Ok? ==>
                && nextScheduleId == r.value
                && schedules == old(schedules)[r.value := template.(id := r.value)]
                && Transfer(old(balances), template.token, template.employer, vault, template.total) == Some(balances)
    {
      var paid := Transfer(balances, template.token, template.employer, vault, template.total);
      if paid.None? {
        return Err(InsufficientBalance);
      }
      if nextScheduleId == U128_MAX {
        return Err(IdOverflow);
      }
      var id := nextScheduleId + 1;
      nextScheduleId := id;
      balances := paid.value;
      schedules := schedules[id := template.(id := id)];
      return Ok(id);
    }

    method CreateLinearSchedule(employer: Address, beneficiary: Address, token: Address, total: int,
                                start: nat, end: nat, cliff: Option<nat>, revocable: bool)
      returns (r: Result<nat, Error>)
      requires Valid()
      modifies this`nextScheduleId, this`schedules, this`balances
      ensures Valid()
      ensures !initialized ==> r == Err(NotInitialized)
      ensures initialized && CheckLinear(total, start, end, cliff).Some? ==>
                r == Err(CheckLinear(total, start, end, cliff).value)
      ensures initialized && CheckLinear(total, start, end, cliff).None? ==>
                (r.Ok? <==> Transfer(old(balances), token, employer, vault, total).Some? && old(nextScheduleId) < U128_MAX)
      ensures r.Err? ==> unchanged(this)
      ensures r.Ok? ==>
                && r.value == old(nextScheduleId) + 1 == nextScheduleId
                && schedules == old(schedules)[r.value :=
                     Schedule(r.value, employer, beneficiary, token, Linear, total, 0, start, end, cliff, [],
                              Active, revocable, None)]
                && Transfer(old(balances), token, employer, vault, total) == Some(balances)
    {
      if !initialized {
        return Err(NotInitialized);
      }
      var e := CheckLinear(total, start, end, cliff);
      if e.Some? {
        return Err(e.value);
      }
      r := Open(Schedule(0, employer, beneficiary, token, Linear, total, 0, start, end, cliff, [],
                         Active, revocable, None));
    }

    method CreateCliffSchedule(employer: Address, beneficiary: Address, token: Address, total: int,
                               cliff: nat, revocable: bool)
      returns (r: Result<nat, Error>)
      requires Valid()
      modifies this`nextScheduleId, this`schedules, this`balances
      ensures Valid()
      ensures !initialized ==> r == Err(NotInitialized)
      ensures initialized && total <= 0 ==> r == Err(NonPositiveTotal)
      ensures initialized && total > 0 ==>
                (r.Ok? <==> Transfer(old(balances), token, employer, vault, total).Some? && old(nextScheduleId) < U128_MAX)
      ensures r.Err? ==> unchanged(this)
      ensures r.Ok? ==>
                && r.value == old(nextScheduleId) + 1 == nextScheduleId
                && schedules == old(schedules)[r.value :=
                     Schedule(r.value, employer, beneficiary, token, Cliff, total, 0, cliff, cliff, Some(cliff), [],
                              Active, revocable, None)]
                && Transfer(old(balances), token, employer, vault, total) == Some(balances)
    {
      if !initialized {
        return Err(NotInitialized);
      }
      if total <= 0 {
        return Err(NonPositiveTotal);
      }
      r := Open(Schedule(0, employer, beneficiary, token, Cliff, total, 0, cliff, cliff, Some(cliff), [],
                         Active, revocable, None));
    }

    method CreateCustomSchedule(employer: Address, beneficiary: Address, token: Address, total: int,
                                checkpoints: seq<Checkpoint>, revocable: bool)
      returns (r: Result<nat, Error>)
      requires Valid()
      modifies this`nextScheduleId, this`schedules, this`balances
      ensures Valid()
      ensures !initialized ==> r == Err(NotInitialized)
      ensures initialized && total <= 0 ==> r == Err(NonPositiveTotal)
      ensures initialized && total > 0 && !ValidCheckpoints(checkpoints, total) ==> r.Err?
      ensures initialized && total > 0 && ValidCheckpoints(checkpoints, total) ==>
                (r.Ok? <==> Transfer(old(balances), token, employer, vault, total).Some? && old(nextScheduleId) < U128_MAX)
      ensures r.Err? ==> unchanged(this)
      ensures r.Ok? ==>
                && ValidCheckpoints(checkpoints, total)
                && r.value == old(nextScheduleId) + 1 == nextScheduleId
                && schedules == old(schedules)[r.value :=
                     Schedule(r.value, employer, beneficiary, token, Custom, total, 0,
                              checkpoints[0].time, checkpoints[|checkpoints| - 1].time, None, checkpoints,
                              Active, revocable, None)]
                && Transfer(old(balances), token, employer, vault, total) == Some(balances)
    {
      if !initialized {
        return Err(NotInitialized);
      }
      if total <= 0 {
        return Err(NonPositiveTotal);
      }
      var e := CheckCheckpoints(total, checkpoints);
      if e.Some? {
        return Err(e.value);
      }
      r := Open(Schedule(0, employer, beneficiary, token, Custom, total, 0,
                         checkpoints[0].time, checkpoints[|checkpoints| - 1].time, None, checkpoints,
                         Active, revocable, None));
    }

    /** The beneficiary takes everything vested and not yet released. */
    method Claim(beneficiary: Address, id: nat, now: nat) returns (r: Result<int, Error>)
      requires Valid()
      modifies this`schedules, this`balances
      ensures Valid()
      ensures !initialized ==> r == Err(NotInitialized)
      ensures initialized && id !in old(schedules) ==> r == Err(ScheduleNotFound)
      ensures initialized && id in old(schedules) ==>
                var s := old(schedules)[id];
                && (beneficiary != s.beneficiary ==> r == Err(NotBeneficiary))
                && (beneficiary == s.beneficiary && s.status == Completed ==> r == Err(AlreadyCompleted))
                && (beneficiary == s.beneficiary && s.status != Completed && Releasable(now, s) == 0 ==>
                      r == Err(NothingToClaim))
                && (beneficiary == s.beneficiary && s.status != Completed && Releasable(now, s) > 0 ==>
                      (r.Ok? <==> Transfer(old(balances), s.token, vault, beneficiary, Releasable(now, s)).Some?))
      ensures r.Err? ==> unchanged(this)
      ensures r.Ok? ==>
                var s := old(schedules)[id];
                && r.value == Releasable(now, s) > 0
                && schedules == old(schedules)[id := Release(s, r.value)]
                && schedules[id].released == VestedAmount(now, s)
                && Transfer(old(balances), s.token, vault, beneficiary, r.value) == Some(balances)
    {
      if !initialized {
        return Err(NotInitialized);
      }
      if id !in schedules {
        return Err(ScheduleNotFound);
      }
      var s := schedules[id];
      if s.beneficiary != beneficiary {
        return Err(NotBeneficiary);
      }
      if s.status == Completed {
        return Err(AlreadyCompleted);
      }
      var amount := Releasable(now, s);
      if amount <= 0 {
        return Err(NothingToClaim);
      }
      var paid := Transfer(balances, s.token, vault, beneficiary, amount);
      if paid.None? {
        return Err(InsufficientBalance);
      }
      ClaimSettlesVested(now, s);
      balances := paid.value;
      schedules := schedules[id := Release(s, amount)];
      return Ok(amount);
    }

    /** The owner pays out part of the unvested tokens ahead of schedule. */
    method ApproveEarlyRelease(admin: Address, id: nat, amount: int, now: nat) returns (r: Result<int, Error>)
      requires Valid()
      modifies this`schedules, this`balances
      ensures Valid()
      ensures !initialized ==> r == Err(NotInitialized)
      ensures initialized && admin != owner ==> r == Err(NotOwner)
      ensures initialized && admin == owner && amount <= 0 ==> r == Err(NonPositiveAmount)
      ensures initialized && admin == owner && amount > 0 ==>
                && (id !in old(schedules) ==> r == Err(ScheduleNotFound))
                && (id in old(schedules) && old(schedules)[id].status != Active ==> r == Err(NotActive))
                && ((id in old(schedules) && old(schedules)[id].status == Active &&
                     EarlyReleaseCap(now, old(schedules)[id]) <= 0) ==> r == Err(NoUnvestedRemaining))
                && ((id in old(schedules) && old(schedules)[id].status == Active &&
                     EarlyReleaseCap(now, old(schedules)[id]) > 0) ==>
                      var s := old(schedules)[id];
                      (r.Ok? <==> Transfer(old(balances), s.token, vault, s.beneficiary,
                                           Min(amount, EarlyReleaseCap(now, s))).Some?))
      ensures r.Err? ==> unchanged(this)
      ensures r.Ok? ==>
                var s := old(schedules)[id];
                && r.value == Min(amount, EarlyReleaseCap(now, s)) > 0
                && schedules == old(schedules)[id := Release(s, r.value)]
                && schedules[id].released <= s.total
                && Transfer(old(balances), s.token, vault, s.beneficiary, r.value) == Some(balances)
    {
      if !initialized {
        return Err(NotInitialized);
      }
      if admin != owner {
        return Err(NotOwner);
      }
      if amount <= 0 {
        return Err(NonPositiveAmount);
      }
      if id !in schedules {
        return Err(ScheduleNotFound);
      }
      var s := schedules[id];
      if s.status != Active {
        return Err(NotActive);
      }
      var cap := EarlyReleaseCap(now, s);
      if cap <= 0 {
        return Err(NoUnvestedRemaining);
      }
      var release := if amount > cap then cap else amount;
      var paid := Transfer(balances, s.token, vault, s.beneficiary, release);
      if paid.None? {
        return Err(InsufficientBalance);
      }
      EarlyReleaseWithinTotal(now, s, amount);
      balances := paid.value;
      schedules := schedules[id := Release(s, release)];
      return Ok(release);
    }

    /** The employer revokes a revocable active schedule: vesting freezes now and the rest is refunded. */
    method RevokeSchedule(employer: Address, id: nat, now: nat) returns (r: Result<int, Error>)
      requires Valid()
      modifies this`schedules, this`balances
      ensures Valid()
      ensures !initialized ==> r == Err(NotInitialized)
      ensures initialized && id !in old(schedules) ==> r == Err(ScheduleNotFound)
      ensures initialized && id in old(schedules) ==>
                var s := old(schedules)[id];
                && (employer != s.employer ==> r == Err(NotEmployer))
                && (employer == s.employer && !s.revocable ==> r == Err(NotRevocable))
                && (employer == s.employer && s.revocable && s.status != Active ==> r == Err(NotActive))
                && (employer == s.employer && s.revocable && s.status == Active ==>
                      (r.Ok? <==> RevokeRefund(now, s) <= 0
                                  || Transfer(old(balances), s.token, vault, employer, RevokeRefund(now, s)).Some?))
      ensures r.Err? ==> unchanged(this)
      ensures r.Ok? ==>
                var s := old(schedules)[id];
                && r.value == RevokeRefund(now, s) >= 0
                && schedules == old(schedules)[id := Revoke(s, now)]
                && (r.value > 0 ==> Transfer(old(balances), s.token, vault, employer, r.value) == Some(balances))
                && (r.value == 0 ==> balances == old(balances))
    {
      if !initialized {
        return Err(NotInitialized);
      }
      if id !in schedules {
        return Err(ScheduleNotFound);
      }
      var s := schedules[id];
      if s.employer != employer {
        return Err(NotEmployer);
      }
      if !s.revocable {
        return Err(NotRevocable);
      }
      if s.status != Active {
        return Err(NotActive);
      }
      var refund := RevokeRefund(now, s);
      if refund > 0 {
        var paid := Transfer(balances, s.token, vault, employer, refund);
        if paid.None? {
          return Err(InsufficientBalance);
        }
        balances := paid.value;
      }
      RevokeSettlesExactly(now, now, s);
      schedules := schedules[id := Revoke(s, now)];
      return Ok(refund);
    }
  }
}
