# Stellopay ledger contracts in Dafny

This project models the six self-contained Soroban contracts of the stellopay
repository. It proves properties of each contract's state machine and arithmetic.

- **Token vesting** (`vesting.dfy`, module `TokenVesting`). Vesting schedules come in three kinds: linear, cliff and custom checkpoints.
  - The employer escrows the total when the schedule is created.
  - The beneficiary claims what has vested.
  - The owner may approve early releases.
  - The employer may revoke a revocable schedule. Vesting is then frozen at the revocation time.
- **Multisig** (`multisig.dfy`, module `Multisig`). N-of-M approval of operations.
  - A proposal counts as its proposer's approval.
  - An operation executes automatically once its approvals reach the threshold.
  - The creator or the owner may cancel a pending operation.
  - An optional emergency guardian may execute one without the threshold.
- **Payment scheduler** (`scheduler.dfy`, module `PaymentScheduler`). Recurring payment jobs.
  - A sweep visits the jobs in id order and pays every due job from the scheduler's own balance.
  - A job short of funds is retried a bounded number of times before it fails.
  - A job completes after its maximum number of executions.
- **Department manager** (`department.dfy`, module `DepartmentManager`). Organisations, departments, and the assignment of employees.
  - Each department may sit under a parent department of the same organisation.
  - Each employee is assigned to at most one department per organisation.
- **Payment splitter** (`splitter.dfy`, module `PaymentSplitter`). Splits of a payment into percentage shares (basis points that must sum to 10000) and fixed shares.
  - Validation of a split against a total.
  - Computation of each recipient's amount.
- **Compliance reporting** (`compliance.dfy`, module `ComplianceReporting`). A per-employer, append-only log of payment records.
  - A report walks the log backwards, newest first.
  - It keeps records inside a date range, optionally of one type, up to a limit.
  - It stops at the first record older than the range.

`ledger.dfy` holds what they share:
- addresses, `Option`, `Result` and the integer widths;
- the token balances, as a map from (token, holder) to amount;
- `Transfer`, which aborts when the sender holds less than the amount.

Each contract is a class whose fields are its persistent storage. Each entry point is a method with these conventions:
- A panic (`assert!`, `expect`, a missing record) becomes an `Err` result that leaves the state unchanged.
- `require_auth` becomes a comparison of the caller with the stored address.
- The ledger timestamp becomes a `now` parameter.
- Token transfers update the balance map.

Loops of the source are methods with loop invariants, proved equal to recursive functions. The lemmas then state the contracts' properties about those functions:
- the scheduler's sweep;
- the multisig signer and duplicate searches;
- the splitter's sums;
- the vesting checkpoint scans;
- the department list removal;
- the compliance report scan.

Where the code and the repository's tests or documentation disagree, the model follows the code:
- A linear schedule's cliff time is validated at creation but ignored by the vesting computation.
- A job interval of 0 is rejected.
- No "conflict" check exists for duplicate jobs.

## Model

| member | source | states |
|---|---|---|
| TokenVesting.LinearVested | onchain/contracts/token_vesting/src/lib.rs:121-138 | linear vesting is 0 up to the start, the whole total from the end on, and always within [0, total] |
| TokenVesting.LinearMonotone | onchain/contracts/token_vesting/src/lib.rs:121-138 | linear vesting never decreases as time advances |
| TokenVesting.ComputeCustomVested | onchain/contracts/token_vesting/src/lib.rs:145-163 | the checkpoint loop with its early break computes the custom vested amount (last checkpoint reached, capped at the total) |
| TokenVesting.ScanStopsAtFirstFuture | onchain/contracts/token_vesting/src/lib.rs:150-157 | the checkpoint scan yields the amount of the checkpoint just before the first one still in the future |
| TokenVesting.CustomVestedIsLastReached | onchain/contracts/token_vesting/src/lib.rs:145-163 | for valid checkpoints, custom vesting equals the cumulative amount of the last checkpoint whose time has been reached |
| TokenVesting.CustomVestedBeforeFirst | onchain/contracts/token_vesting/src/lib.rs:145-163 | before the first checkpoint nothing has vested |
| TokenVesting.VestedAmount | onchain/contracts/token_vesting/src/lib.rs:110-165 | the vested amount never exceeds the total, and is 0 for a non-positive total |
| TokenVesting.VestedWithinTotal | onchain/contracts/token_vesting/src/lib.rs:110-165 | for every well-formed schedule the vested amount lies in [0, total] |
| TokenVesting.VestedMonotone | onchain/contracts/token_vesting/src/lib.rs:110-165 | for every well-formed schedule the vested amount never decreases over time, including a revoked schedule frozen at its revocation time |
| TokenVesting.CliffAllOrNothing | onchain/contracts/token_vesting/src/lib.rs:139-144 | a cliff schedule has vested nothing before the cliff and everything from the cliff on |
| TokenVesting.Releasable | onchain/contracts/token_vesting/src/lib.rs:167-176 | releasable is never negative, and equals vested minus released whenever that is positive |
| TokenVesting.ClaimSettlesVested | onchain/contracts/token_vesting/src/lib.rs:361-393 | claiming the releasable amount brings released up to exactly the vested amount, keeps the schedule invariant, and completes the schedule iff everything has vested |
| TokenVesting.EarlyReleaseCap | onchain/contracts/token_vesting/src/lib.rs:420-435 | corrected cap: never more than the unvested amount nor than the unreleased amount, and equal to one of them |
| TokenVesting.EarlyReleaseWithinTotal | onchain/contracts/token_vesting/src/lib.rs:401-455 | an early release under the corrected cap keeps released within the total and the schedule invariant |
| TokenVesting.RevokeRefund | onchain/contracts/token_vesting/src/lib.rs:480-488 | corrected refund: never more than the unvested amount nor than the unreleased amount |
| TokenVesting.RevokeSettlesExactly | onchain/contracts/token_vesting/src/lib.rs:462-496 | a revoked schedule stays vested at its revocation-time amount forever, keeps its invariant, and released + refund + later claims add up to exactly the total |
| TokenVesting.RepeatedEarlyReleaseOverpays | onchain/contracts/token_vesting/src/lib.rs:420-446 | under the cap as written, two early releases of 400 from a 500-token schedule both go through and release 800 |
| TokenVesting.RevokeAfterEarlyReleaseOverpays | onchain/contracts/token_vesting/src/lib.rs:480-488 | under the refund as written, revoking after an early release of 400 refunds 400 more, so 800 of 500 tokens leave |
| TokenVesting.CheckLinear | onchain/contracts/token_vesting/src/lib.rs:224-232 | linear creation is accepted iff total > 0, start < end and any cliff lies in [start, end]; a non-positive total is reported first |
| TokenVesting.CheckCheckpoints | onchain/contracts/token_vesting/src/lib.rs:313-331 | the checkpoint loop accepts exactly non-empty lists sorted in time, non-decreasing in amount from 0, whose last amount is the total |
| TokenVesting.VestingContract.Initialize | onchain/contracts/token_vesting/src/lib.rs:184-198 | succeeds only once and records the owner |
| TokenVesting.VestingContract.Open | onchain/contracts/token_vesting/src/lib.rs:82-95 | escrows the total from the employer and stores the schedule under the next id (previous id + 1), failing on a failed transfer or at the u128 limit |
| TokenVesting.VestingContract.CreateLinearSchedule | onchain/contracts/token_vesting/src/lib.rs:210-257 | rejects invalid arguments with the first failing check; for valid arguments succeeds iff the employer can fund the escrow and the id counter is below the u128 limit; on success stores an Active linear schedule under a fresh id and escrows its total |
| TokenVesting.VestingContract.CreateCliffSchedule | onchain/contracts/token_vesting/src/lib.rs:261-297 | rejects a non-positive total; otherwise succeeds iff the escrow transfer and the id counter allow it, storing an Active cliff schedule with start = end = cliff and escrowing its total |
| TokenVesting.VestingContract.CreateCustomSchedule | onchain/contracts/token_vesting/src/lib.rs:301-355 | rejects invalid checkpoints; otherwise succeeds iff the escrow transfer and the id counter allow it, storing an Active custom schedule spanning its first and last checkpoint and escrowing its total |
| TokenVesting.VestingContract.Claim | onchain/contracts/token_vesting/src/lib.rs:361-393 | fails for a missing schedule, a non-beneficiary, a completed schedule or nothing releasable; otherwise succeeds iff the vault can pay the releasable amount, pays exactly that and records released = vested |
| TokenVesting.VestingContract.ApproveEarlyRelease | onchain/contracts/token_vesting/src/lib.rs:401-455 | owner only, positive amount, Active schedule with something left; succeeds iff the vault can pay min(amount, cap) and pays exactly that to the beneficiary; uses the corrected cap (see Findings) |
| TokenVesting.VestingContract.RevokeSchedule | onchain/contracts/token_vesting/src/lib.rs:462-496 | employer only, revocable and Active; succeeds iff the refund is not positive or the vault can pay it; refunds it and freezes the schedule as Revoked at now; uses the corrected refund (see Findings) |
| Multisig.Contains | onchain/contracts/multisig/src/lib.rs:114-122 | the signer search finds an address iff it is in the list |
| Multisig.HasDuplicate | onchain/contracts/multisig/src/lib.rs:262-270 | the pairwise loop reports a duplicate iff the signer list is not duplicate-free |
| Multisig.ApprovalsWithinSigners | onchain/contracts/multisig/src/lib.rs:340-357 | a duplicate-free approval list made of signers is no longer than the signer list |
| Multisig.Execute | onchain/contracts/multisig/src/lib.rs:201-229 | a non-pending operation is left alone; a large payment needs a positive amount that the wallet holds and moves exactly that amount; other kinds only become Executed at now |
| Multisig.ApprovalStep | onchain/contracts/multisig/src/lib.rs:337-370 | adding a new signer's approval, and executing at the threshold, keeps the approvals duplicate-free, signer-only and below the threshold while pending |
| Multisig.MultisigWallet.Initialize | onchain/contracts/multisig/src/lib.rs:240-291 | succeeds iff not yet initialised, 0 < threshold <= signer count and no duplicate signers, reporting each failure in the source's order |
| Multisig.MultisigWallet.IsSigner | onchain/contracts/multisig/src/lib.rs:114-122 | true iff the address is a stored signer |
| Multisig.MultisigWallet.HasApproved | onchain/contracts/multisig/src/lib.rs:165-173 | true iff the signer is in the operation's approval list |
| Multisig.MultisigWallet.ProposeOperation | onchain/contracts/multisig/src/lib.rs:298-330 | signer only; fails at the u128 id limit; succeeds iff the proposer is a signer, the counter is below the limit and, at threshold 1, the immediate execution succeeds; the new operation gets id counter + 1, approvals [proposer] |
| Multisig.MultisigWallet.ApproveOperation | onchain/contracts/multisig/src/lib.rs:337-370 | signer only, pending only; a repeated approval changes nothing; a new one is appended and the operation executes iff the count reaches the threshold; succeeds iff the approval is repeated, short of the threshold, or the execution succeeds |
| Multisig.MultisigWallet.CancelOperation | onchain/contracts/multisig/src/lib.rs:376-404 | succeeds iff the operation is pending and the caller is its creator or the owner, and then only marks it Cancelled |
| Multisig.MultisigWallet.EmergencyExecute | onchain/contracts/multisig/src/lib.rs:410-425 | only the configured guardian (none if unset) may execute, bypassing the threshold; a missing id and a non-pending operation fail with their own errors; succeeds iff the guardian calls on a pending operation whose execution succeeds |
| PaymentScheduler.SaturatingAdd | onchain/contracts/payment_scheduler/src/lib.rs:225-232 | unsigned addition that sticks at the maximum instead of wrapping |
| PaymentScheduler.Attempt | onchain/contracts/payment_scheduler/src/lib.rs:218-271 | an attempt changes only the schedule time, executions, retry count and status; short of funds it adds one saturating retry and fails the job once retries exceed the maximum; a payment adds one saturating execution, resets retries and completes the job at its maximum; unless failed, the next time is now + interval, saturating; the job is no longer due afterwards |
| PaymentScheduler.AttemptKeepsInvariant | onchain/contracts/payment_scheduler/src/lib.rs:223-260 | a job fails exactly on the retry that exhausts its budget, a payment adds one execution and completes the job iff it reaches its limit, and the job invariant is kept |
| PaymentScheduler.Pay | onchain/contracts/payment_scheduler/src/lib.rs:246-250 | a payment the balance covers is exactly the token transfer |
| PaymentScheduler.Step | onchain/contracts/payment_scheduler/src/lib.rs:213-274 | a job is attempted iff it exists and is due, otherwise nothing changes; an attempted job is paid by exactly one vault-to-recipient transfer when the vault holds its amount, and no balance moves when it does not |
| PaymentScheduler.RunFrom | onchain/contracts/payment_scheduler/src/lib.rs:211-277 | the sweep keeps the set of job ids and counts at most max_jobs attempts |
| PaymentScheduler.RunFromTouchesOnlyDue | onchain/contracts/payment_scheduler/src/lib.rs:211-218 | jobs outside the id range or not due are left unchanged |
| PaymentScheduler.RunFromAttemptsAtMostOnce | onchain/contracts/payment_scheduler/src/lib.rs:211-277 | each job ends unchanged or as the result of a single attempt, at some vault balance, made while it was due |
| PaymentScheduler.RunFromKeepsInvariant | onchain/contracts/payment_scheduler/src/lib.rs:211-277 | the sweep keeps every job's invariant and id |
| PaymentScheduler.RunFromClearsDue | onchain/contracts/payment_scheduler/src/lib.rs:211-277 | a sweep that stops short of max_jobs leaves no due job in its id range |
| PaymentScheduler.RunFromKeepsBalancesNonNegative | onchain/contracts/payment_scheduler/src/lib.rs:221-250 | payments never drive a balance negative |
| PaymentScheduler.Scheduler.Initialize | onchain/contracts/payment_scheduler/src/lib.rs:118-132 | succeeds only once and records the owner |
| PaymentScheduler.Scheduler.CreateJob | onchain/contracts/payment_scheduler/src/lib.rs:145-189 | rejects a non-positive amount, then a zero interval; otherwise stores an Active job under id counter + 1 with no executions or retries, first due at the start time |
| PaymentScheduler.Scheduler.ProcessDuePayments | onchain/contracts/payment_scheduler/src/lib.rs:195-280 | the loop computes the sweep over ids 1..next id; the count is at most max_jobs, 0 without jobs, and a short sweep leaves nothing due |
| PaymentScheduler.Scheduler.PauseJob | onchain/contracts/payment_scheduler/src/lib.rs:285-295 | employer only, and only Active → Paused |
| PaymentScheduler.Scheduler.ResumeJob | onchain/contracts/payment_scheduler/src/lib.rs:300-310 | employer only, and only Paused → Active |
| PaymentScheduler.Scheduler.FundJob | onchain/contracts/payment_scheduler/src/lib.rs:316-324 | moves a positive amount of the job's token from the funder into the scheduler |
| DepartmentManager.RemoveFirst | onchain/contracts/department_manager/src/lib.rs:260-280 | removing the first occurrence takes exactly one copy of the employee out of the list (as a multiset) |
| DepartmentManager.RemoveFirstOccurrence | onchain/contracts/department_manager/src/lib.rs:260-280 | the search-and-remove loop with its early break computes that removal |
| DepartmentManager.NewDepartmentKeepsMembership | onchain/contracts/department_manager/src/lib.rs:171-196 | a new department with an empty employee list keeps the three membership records consistent |
| DepartmentManager.UnassignKeepsMembership | onchain/contracts/department_manager/src/lib.rs:231-238 | removing an employee from their department keeps the membership records consistent |
| DepartmentManager.AssignFreshKeepsMembership | onchain/contracts/department_manager/src/lib.rs:240-257 | recording an unassigned employee in a department of the organisation keeps the membership records consistent |
| DepartmentManager.ReassignKeepsMembership | onchain/contracts/department_manager/src/lib.rs:231-257 | moving an employee from the old department to the new one keeps the membership records consistent |
| DepartmentManager.ListedOnce | onchain/contracts/department_manager/src/lib.rs:240-257 | an assigned employee appears exactly once in their department's list and in no other list of that organisation |
| DepartmentManager.AtMostOneDepartment | onchain/contracts/department_manager/src/lib.rs:208-258 | an employee is listed in at most one department per organisation |
| DepartmentManager.NewOrganizationKeepsPlacement | onchain/contracts/department_manager/src/lib.rs:90-115 | a new organisation takes a fresh id and keeps the organisation and department lists consistent |
| DepartmentManager.NewDepartmentKeepsPlacement | onchain/contracts/department_manager/src/lib.rs:126-199 | a new department takes a fresh id, joins its organisation's list and its parent's children, and keeps every list pointing at matching departments |
| DepartmentManager.Registry.Initialize | onchain/contracts/department_manager/src/lib.rs:69-81 | succeeds only once and seeds both id counters at 1 |
| DepartmentManager.Registry.CreateOrganization | onchain/contracts/department_manager/src/lib.rs:90-115 | stores the organisation under the next organisation id and starts its department list empty |
| DepartmentManager.Registry.CreateDepartment | onchain/contracts/department_manager/src/lib.rs:126-199 | owner only; a parent must exist and belong to the same organisation; the department takes the next department id and is appended to its organisation's and parent's lists |
| DepartmentManager.Registry.RemoveEmployeeFromDepartment | onchain/contracts/department_manager/src/lib.rs:260-280 | clears the membership flag and removes the first occurrence from the department's list |
| DepartmentManager.Registry.AssignEmployee | onchain/contracts/department_manager/src/lib.rs:208-258 | owner only, and the department must belong to the organisation; the employee's record becomes d, they leave any previous department's list and flag, and are appended to d's list |
| DepartmentManager.Registry.EmployeeDepartment | onchain/contracts/department_manager/src/lib.rs:315-319 | returns the employee's recorded department in the organisation, if any |
| DepartmentManager.Registry.DepartmentReport | onchain/contracts/department_manager/src/lib.rs:322-333 | returns the employee count, the children (each a department whose parent is d) and the employee list |
| PaymentSplitter.CheckShares | onchain/contracts/payment_splitter/src/lib.rs:78-94 | a split with a percentage share is accepted iff its basis points sum to 10000; an overflow of the u32 sum is reported as such |
| PaymentSplitter.CheckedFixedSum | onchain/contracts/payment_splitter/src/lib.rs:124-133 | the checked sum of fixed shares, when it succeeds, is their total and fits i128 |
| PaymentSplitter.CheckedFixedSumSucceeds | onchain/contracts/payment_splitter/src/lib.rs:124-133 | the checked sum succeeds iff every prefix sum fits i128 |
| PaymentSplitter.ValidateForAmount | onchain/contracts/payment_splitter/src/lib.rs:118-146 | true without fixed shares, otherwise true iff the fixed amounts sum to the total; an error only on an overflowing prefix sum |
| PaymentSplitter.TruncDiv | onchain/contracts/payment_splitter/src/lib.rs:163-165 | division truncating toward zero, as the source's integer division does |
| PaymentSplitter.ShareAmount | onchain/contracts/payment_splitter/src/lib.rs:159-170 | a fixed share gets its amount; a percentage share gets bps × total / 10000, truncated |
| PaymentSplitter.ComputeSplit | onchain/contracts/payment_splitter/src/lib.rs:149-171 | one entry per recipient, in order, with that recipient's share amount |
| PaymentSplitter.PercentSplitSum | onchain/contracts/payment_splitter/src/lib.rs:159-170 | the computed percentage amounts sum to the exact proportional share less at most one unit per recipient, strictly less for a non-empty list |
| PaymentSplitter.PercentSplitWithinTotal | onchain/contracts/payment_splitter/src/lib.rs:159-170 | a whole percentage split of a non-negative total pays at most the total and loses strictly less than one unit per recipient (total − n < sum for n recipients) |
| PaymentSplitter.Splitter.Initialize | onchain/contracts/payment_splitter/src/lib.rs:54-65 | succeeds only once and starts split ids at 1 |
| PaymentSplitter.Splitter.CreateSplit | onchain/contracts/payment_splitter/src/lib.rs:74-114 | rejects an empty list and invalid basis points; otherwise stores the split under the next id |
| PaymentSplitter.Splitter.ValidateSplitForAmount | onchain/contracts/payment_splitter/src/lib.rs:118-146 | the two loops compute the validation of the stored split, or report a missing split |
| PaymentSplitter.Splitter.ComputeSplitFor | onchain/contracts/payment_splitter/src/lib.rs:149-171 | the loop computes the split of the stored recipients, or reports a missing split |
| ComplianceReporting.ScanExtends | onchain/contracts/compliance_reporting/src/lib.rs:158-187 | the scan only appends, and never beyond the limit |
| ComplianceReporting.ScanSound | onchain/contracts/compliance_reporting/src/lib.rs:168-175 | every record the scan returns is one of the employer's logged records, inside the date range and of the requested type |
| ComplianceReporting.ScanDescending | onchain/contracts/compliance_reporting/src/lib.rs:158-187 | the scan returns records newest first (strictly decreasing ids) |
| ComplianceReporting.ScanComplete | onchain/contracts/compliance_reporting/src/lib.rs:158-187 | when timestamps do not decrease with ids, a scan that stops short of the limit has returned every matching record |
| ComplianceReporting.ReportShape | onchain/contracts/compliance_reporting/src/lib.rs:154-196 | a report from the newest record holds at most limit records, newest first, each logged and matching |
| ComplianceReporting.ComplianceLog.Initialize | onchain/contracts/compliance_reporting/src/lib.rs:66-72 | succeeds only once and records the admin |
| ComplianceReporting.ComplianceLog.LogRecord | onchain/contracts/compliance_reporting/src/lib.rs:82-125 | fails before initialisation; otherwise stores the record under the employer's count + 1 and bumps only that employer's count |
| ComplianceReporting.ComplianceLog.RecordCount | onchain/contracts/compliance_reporting/src/lib.rs:200-205 | the count is the last id, and the employer's records are exactly ids 1..count |
| ComplianceReporting.ComplianceLog.GenerateReport | onchain/contracts/compliance_reporting/src/lib.rs:134-197 | reports NotInitialized, InvalidDateRange and QueryLimitExceeded in that order; otherwise the loop computes the scan, its total and its count, at most limit records, newest first, each inside the range and of the type |

## Left out

- The payroll, escrow and milestone agreement engine with its disputes: its source is not part of this model.
- Events (`env.events().publish`): they do not affect state.
- The token contracts themselves: a transfer is modelled only as a balance-map update that aborts on an insufficient balance.
- Storage time-to-live, authentication signatures and the Soroban host: authentication is a comparison of the caller with the stored address.
- The read-only getters that only return a stored record: get_schedule, get_operation, get_signers, get_threshold, get_approvals, get_job, get_owner, get_split, get_organization, get_department, get_org_departments and get_department_employees.
- The off-chain effects of multisig ContractUpgrade and DisputeResolution operations: the contract only records them as executed.
- Multisig.Execute: a DisputeResolution is recorded as executed without reaching the payroll contract, as in the source.
- TokenVesting.LinearVested: the i128 overflow of `total × elapsed` and the `as i64` casts are not modelled; amounts are unbounded.
- TokenVesting.VestingContract.Claim: the `checked_add` overflow of the released amount cannot occur under the schedule invariant (released ≤ total), so it is not modelled as an error.
- PaymentSplitter.ShareAmount: the i128 overflow of `bps × total` is not modelled.
- PaymentSplitter.CheckShares: only the overflow of the u32 basis-point sum is modelled; the shares' own widths are a precondition.
- ComplianceReporting.ComplianceLog.LogRecord: the u32 overflow of the per-employer record counter is not modelled.
- ComplianceReporting.ComplianceLog.GenerateReport: the i128 overflow of the report total is not modelled.
- PaymentScheduler.Scheduler.ProcessDuePayments: ids are unbounded, so the loop's saturating id increment, which would loop forever at the u128 limit, is not modelled.
- PaymentScheduler.Scheduler.CreateJob: the source's arguments are typed u64, u32 and i128; the model states these widths as preconditions.
- DepartmentManager.Registry.CreateOrganization: ids are unbounded; the unchecked u128 `next_id + 1` (department_manager/src/lib.rs:100), which would abort at the limit, is not modelled.
- DepartmentManager.Registry.CreateDepartment: ids are unbounded; the unchecked u128 `next_id + 1` (department_manager/src/lib.rs:158) is not modelled.
- PaymentSplitter.Splitter.CreateSplit: ids are unbounded; the unchecked u128 `next_id + 1` (payment_splitter/src/lib.rs:103) is not modelled.
- TokenVesting.VestingContract.ApproveEarlyRelease: pays min(amount, total − max(vested, released)) where the source pays min(amount, total − vested) (token_vesting/src/lib.rs:420-435); the as-written cap is modelled separately, see Findings.
- TokenVesting.VestingContract.RevokeSchedule: refunds total − max(vested, released) where the source refunds total − vested (token_vesting/src/lib.rs:480-488); the as-written refund is modelled separately, see Findings.
- The scheduler tests expecting a zero interval to be accepted, and a "Conflict" panic, contradict the code: the model follows the code.

## Findings

| source | as written | input that shows it | evidently intended | confidence | as-written member | corrected member |
|---|---|---|---|---|---|---|
| onchain/contracts/token_vesting/src/lib.rs:420-435 | the early-release cap is total − vested, ignoring what was already released | a custom schedule of 500 (100 at time 10, 500 at time 30); at time 15 two early releases of 400 both pass, so released = 800 > 500 | cap at total − max(vested, released), so that released never exceeds the total | not executed | TokenVesting.RepeatedEarlyReleaseOverpays | TokenVesting.EarlyReleaseWithinTotal |
| onchain/contracts/token_vesting/src/lib.rs:480-488 | the revoke refund is total − vested, ignoring early releases beyond the vested amount | the same schedule after one early release of 400 at time 15: revoke refunds 400, so 800 of 500 tokens leave the contract | refund total − max(vested, released), so that released + refund + later claims equal the total | not executed | TokenVesting.RevokeAfterEarlyReleaseOverpays | TokenVesting.RevokeSettlesExactly |

In both rows the excess is paid out of other schedules' escrow held by the same contract. The contract model (`VestingContract.ApproveEarlyRelease`, `VestingContract.RevokeSchedule`) uses the corrected definitions `EarlyReleaseCap` and `RevokeRefund`. The definitions as written are kept as `EarlyReleaseCapAsWritten` and `RevokeRefundAsWritten`.
