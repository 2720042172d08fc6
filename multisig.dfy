/**
 * N-of-M multisig: signers propose operations, each proposal counts as its
 * proposer's approval, and an operation executes automatically once its
 * approvals reach the threshold. The creator or the owner may cancel a
 * pending operation; an optional emergency guardian may execute one without
 * the threshold.
 */
module Multisig {
  import opened Ledger

  datatype OperationKind =
    | ContractUpgrade(target: Address, wasmHash: seq<bv8>)
    | LargePayment(token: Address, to: Address, amount: int)
    | DisputeResolution(payrollContract: Address, agreementId: nat, payEmployee: int, refundEmployer: int)

  datatype OperationStatus = Pending | Executed | Cancelled

  datatype Operation = Operation(
    id: nat,
    kind: OperationKind,
    creator: Address,
    status: OperationStatus,
    createdAt: nat,
    executedAt: Option<nat>)

  datatype Error =
    | AlreadyInitialized | NoSigners | InvalidThreshold | DuplicateSigner
    | NotInitialized | NotSigner | IdOverflow | OperationNotFound | NotPending
    | NonPositiveAmount | InsufficientBalance | NotCreatorOrOwner | NotGuardian

  predicate NoDuplicates(xs: seq<Address>)
  {
    forall i, j :: 0 <= i < j < |xs| ==> xs[i] != xs[j]
  }

  /** The index scan of is_signer and has_approved. */
  method Contains(xs: seq<Address>, x: Address) returns (found: bool)
    ensures found <==> x in xs
  {
    var i := 0;
    while i < |xs|
      invariant 0 <= i <= |xs|
      invariant x !in xs[..i]
    {
      if xs[i] == x {
        return true;
      }
      i := i + 1;
    }
    return false;
  }

  /** The pairwise comparison of initialize that rejects a signer listed twice. */
  method HasDuplicate(xs: seq<Address>) returns (dup: bool)
    ensures dup <==> !NoDuplicates(xs)
  {
    var i := 0;
    while i < |xs|
      invariant 0 <= i <= |xs|
      invariant forall a, b :: 0 <= a < i && a < b < |xs| ==> xs[a] != xs[b]
    {
      var j := i + 1;
      while j < |xs|
        invariant i + 1 <= j <= |xs|
        invariant forall b :: i < b < j ==> xs[i] != xs[b]
      {
        if xs[i] == xs[j] {
          return true;
        }
        j := j + 1;
      }
      i := i + 1;
    }
    return false;
  }

  /** The addresses a list mentions. */
  function Elems(xs: seq<Address>): set<Address>
  {
    set x | x in xs
  }

  lemma {:induction false} DistinctCard(xs: seq<Address>)
    requires NoDuplicates(xs)
    ensures |Elems(xs)| == |xs|
  {
    if xs != [] {
      DistinctCard(xs[1..]);
      assert Elems(xs) == Elems(xs[1..]) + {xs[0]};
    }
  }

  lemma {:induction false} CardAtMostLength(ys: seq<Address>)
    ensures |Elems(ys)| <= |ys|
  {
    if ys != [] {
      CardAtMostLength(ys[1..]);
      assert Elems(ys) == Elems(ys[1..]) + {ys[0]};
    }
  }

  lemma SubsetCard(a: set<Address>, b: set<Address>)
    requires a <= b
    ensures |a| <= |b|
  {
    assert b == a + (b - a);
  }

  /** A duplicate-free list of signers' approvals is never longer than the signer list. */
  lemma ApprovalsWithinSigners(approvals: seq<Address>, signers: seq<Address>)
    requires NoDuplicates(approvals)
    requires forall a :: a in approvals ==> a in signers
    ensures |approvals| <= |signers|
  {
    DistinctCard(approvals);
    CardAtMostLength(signers);
    SubsetCard(Elems(approvals), Elems(signers));
  }

  /** What the stored approvals of an operation satisfy between calls. */
  predicate ApprovalsValid(op: Operation, approvals: seq<Address>, signers: seq<Address>, threshold: nat)
  {
    && NoDuplicates(approvals)
    && (forall a :: a in approvals ==> a in signers)
    && op.creator in approvals
    && (op.status == Pending ==> |approvals| < threshold && op.executedAt.None?)
    && (op.status == Executed ==> op.executedAt.Some?)
  }

  /** Statuses only ever leave Pending, to Executed or Cancelled. */
  predicate StatusStep(before: OperationStatus, after: OperationStatus)
  {
    before == after || (before == Pending && after != Pending)
  }

  /** Every operation of `before` is still there with the same kind and creator, and its status moved at most one step. */
  predicate OperationsAdvance(before: map<nat, Operation>, after: map<nat, Operation>)
  {
    forall id :: id in before ==>
      && id in after
      && after[id].kind == before[id].kind
      && after[id].creator == before[id].creator
      && StatusStep(before[id].status, after[id].status)
  }

  lemma AdvanceByUpdate(operations: map<nat, Operation>, id: nat, op: Operation)
    requires id in operations
    requires op.kind == operations[id].kind && op.creator == operations[id].creator
    requires StatusStep(operations[id].status, op.status)
    ensures OperationsAdvance(operations, operations[id := op])
  {
  }

  /**
   * perform_execute: an operation that is no longer pending is left alone;
   * otherwise a large payment moves its amount out of the wallet (aborting
   * on a non-positive amount or a failed transfer), the other kinds are only
   * recorded, and the operation becomes Executed at `now`.
   */
  function Execute(op: Operation, b: Balances, vault: Address, now: nat): (r: Result<(Operation, Balances), Error>)
    ensures op.status != Pending ==> r == Ok((op, b))
    ensures op.status == Pending && r.Ok? ==> r.value.0 == op.(status := Executed, executedAt := Some(now))
    ensures op.status == Pending && !op.kind.LargePayment? ==> r.Ok? && r.value.1 == b
    ensures op.status == Pending && op.kind.LargePayment? ==>
              && (r.Ok? <==> 0 < op.kind.amount <= BalanceOf(b, op.kind.token, vault))
              && (r.Ok? ==> Transfer(b, op.kind.token, vault, op.kind.to, op.kind.amount) == Some(r.value.1))
  {
    if op.status != Pending then Ok((op, b))
    else
      var executed := op.(status := Executed, executedAt := Some(now));
      match op.kind
      case LargePayment(token, to, amount) =>
        if amount <= 0 then Err(NonPositiveAmount)
        else
          var paid := Transfer(b, token, vault, to, amount);
          if paid.None? then Err(InsufficientBalance) else Ok((executed, paid.value))
      case ContractUpgrade(_, _) => Ok((executed, b))
      case DisputeResolution(_, _, _, _) => Ok((executed, b))
  }

  /** Adding a new signer's approval, and executing once the threshold is reached, keeps the approvals valid. */
  lemma ApprovalStep(op: Operation, newOp: Operation, approvals: seq<Address>, signer: Address,
                     signers: seq<Address>, threshold: nat)
    requires ApprovalsValid(op, approvals, signers, threshold)
    requires op.status == Pending && signer in signers && signer !in approvals
    requires newOp.creator == op.creator
    requires |approvals + [signer]| < threshold ==> newOp == op
    requires |approvals + [signer]| >= threshold ==> newOp.status == Executed && newOp.executedAt.Some?
    ensures ApprovalsValid(newOp, approvals + [signer], signers, threshold)
  {
    var list := approvals + [signer];
    forall i, j | 0 <= i < j < |list|
      ensures list[i] != list[j]
    {
      if j == |approvals| {
        assert list[i] in approvals;
      }
    }
  }

  /** The stored operation under `id`, if any, carries that id, lies within the counter and has valid approvals. */
  ghost predicate OperationOk(operations: map<nat, Operation>, approvals: map<nat, seq<Address>>,
                        signers: seq<Address>, threshold: nat, counter: nat, id: nat)
  {
    id in operations ==>
      && id in approvals
      && 1 <= id <= counter
      && operations[id].id == id
      && ApprovalsValid(operations[id], approvals[id], signers, threshold)
  }

  /** Every stored operation sits under its own id, at most the counter, with valid approvals. */
  ghost predicate StoreValid(operations: map<nat, Operation>, approvals: map<nat, seq<Address>>,
                       signers: seq<Address>, threshold: nat, counter: nat)
  {
    && approvals.Keys == operations.Keys
    && forall id: nat {:trigger OperationOk(operations, approvals, signers, threshold, counter, id)} ::
         OperationOk(operations, approvals, signers, threshold, counter, id)
  }

  /** Replacing one operation and its approvals by valid ones keeps the store valid. */
  lemma StoreUpdate(operations: map<nat, Operation>, approvals: map<nat, seq<Address>>,
                    signers: seq<Address>, threshold: nat, counter: nat,
                    id: nat, op: Operation, list: seq<Address>)
    requires StoreValid(operations, approvals, signers, threshold, counter)
    requires 1 <= id <= counter && op.id == id
    requires ApprovalsValid(op, list, signers, threshold)
    ensures StoreValid(operations[id := op], approvals[id := list], signers, threshold, counter)
  {
    var operations', approvals' := operations[id := op], approvals[id := list];
    forall k: nat
      ensures OperationOk(operations', approvals', signers, threshold, counter, k)
    {
      assert OperationOk(operations, approvals, signers, threshold, counter, k);
    }
  }

  /** Storing a valid operation under the next id keeps the store valid with the counter advanced. */
  lemma StoreAppend(operations: map<nat, Operation>, approvals: map<nat, seq<Address>>,
                    signers: seq<Address>, threshold: nat, counter: nat, op: Operation, list: seq<Address>)
    requires StoreValid(operations, approvals, signers, threshold, counter)
    requires op.id == counter + 1
    requires ApprovalsValid(op, list, signers, threshold)
    ensures op.id !in operations
    ensures StoreValid(operations[op.id := op], approvals[op.id := list], signers, threshold, counter + 1)
  {
    assert OperationOk(operations, approvals, signers, threshold, counter, op.id);
    var operations', approvals', counter' := operations[op.id := op], approvals[op.id := list], counter + 1;
    forall k: nat
      ensures OperationOk(operations', approvals', signers, threshold, counter', k)
    {
      assert OperationOk(operations, approvals, signers, threshold, counter, k);
    }
  }

  class MultisigWallet {
    /** The wallet's own address, which holds the tokens large payments spend. */
    const vault: Address
    var initialized: bool
    var owner: Address
    var guardian: Option<Address>
    var signers: seq<Address>
    var threshold: nat
    /** The last operation id handed out; 0 before the first. */
    var counter: nat
    var operations: map<nat, Operation>
    var approvals: map<nat, seq<Address>>
    var balances: Balances

    ghost predicate Valid()
      reads this
    {
      && counter <= U128_MAX
      && (!initialized ==> operations == map[] && guardian.None?)
      && (initialized ==> 0 < threshold <= |signers| && NoDuplicates(signers))
      && StoreValid(operations, approvals, signers, threshold, counter)
    }

    constructor (vault: Address, balances: Balances)
      ensures Valid()
      ensures this.vault == vault && this.balances == balances
      ensures !initialized && counter == 0 && operations == map[] && approvals == map[]
    {
      this.vault := vault;
      this.balances := balances;
      initialized := false;
      owner := 0;
      guardian := None;
      signers := [];
      threshold := 0;
      counter := 0;
      operations := map[];
      approvals := map[];
    }

    method Initialize(caller: Address, newSigners: seq<Address>, newThreshold: nat, newGuardian: Option<Address>)
      returns (r: Result<(), Error>)
      requires Valid()
      modifies this`initialized, this`owner, this`signers, this`threshold, this`guardian
      ensures Valid()
      ensures old(initialized) ==> r == Err(AlreadyInitialized)
      ensures !old(initialized) && newSigners == [] ==> r == Err(NoSigners)
      ensures !old(initialized) && newSigners != [] && !(0 < newThreshold <= |newSigners|) ==>
                r == Err(InvalidThreshold)
      ensures r.Ok? <==> !old(initialized) && 0 < newThreshold <= |newSigners| && NoDuplicates(newSigners)
      ensures r.Err? ==> unchanged(this)
      ensures r.Ok? ==>
                && initialized && owner == caller && signers == newSigners && threshold == newThreshold
                && guardian == newGuardian
    {
      if initialized {
        return Err(AlreadyInitialized);
      }
      if |newSigners| == 0 {
        return Err(NoSigners);
      }
      if !(0 < newThreshold <= |newSigners|) {
        return Err(InvalidThreshold);
      }
      var dup := HasDuplicate(newSigners);
      if dup {
        return Err(DuplicateSigner);
      }
      owner := caller;
      signers := newSigners;
      threshold := newThreshold;
      if newGuardian.Some? {
        guardian := newGuardian;
      }
      initialized := true;
      return Ok(());
    }

    method IsSigner(addr: Address) returns (b: bool)
      ensures b <==> addr in signers
    {
      b := Contains(signers, addr);
    }

    method HasApproved(id: nat, signer: Address) returns (b: bool)
      ensures b <==> id in approvals && signer in approvals[id]
    {
      var list := if id in approvals then approvals[id] else [];
      b := Contains(list, signer);
    }

    /**
     * A signer proposes an operation under the next id; the proposal is its
     * first approval, and with a threshold of one it executes at once.
     */
    method ProposeOperation(proposer: Address, kind: OperationKind, now: nat) returns (r: Result<nat, Error>)
      requires Valid()
      modifies this`counter, this`operations, this`approvals, this`balances
      ensures Valid()
      ensures OperationsAdvance(old(operations), operations)
      ensures !initialized ==> r == Err(NotInitialized)
      ensures initialized && proposer !in signers ==> r == Err(NotSigner)
      ensures initialized && proposer in signers && old(counter) == U128_MAX ==> r == Err(IdOverflow)
      ensures r.Ok? <==>
                && initialized && proposer in signers && old(counter) < U128_MAX
                && (threshold <= 1 ==>
                      Execute(Operation(old(counter) + 1, kind, proposer, Pending, now, None), old(balances), vault, now).Ok?)
      ensures r.Err? ==> unchanged(this)
      ensures r.Ok? ==>
                var id := r.value;
                var proposed := Operation(id, kind, proposer, Pending, now, None);
                && id == old(counter) + 1 == counter
                && id !in old(operations)
                && approvals == old(approvals)[id := [proposer]]
                && (threshold > 1 ==> operations == old(operations)[id := proposed] && balances == old(balances))
                && (threshold <= 1 ==>
                      && Execute(proposed, old(balances), vault, now) == Ok((operations[id], balances))
                      && operations == old(operations)[id := operations[id]]
                      && operations[id].status == Executed)
    {
      if !initialized {
        return Err(NotInitialized);
      }
      var isSigner := Contains(signers, proposer);
      if !isSigner {
        return Err(NotSigner);
      }
      if counter == U128_MAX {
        return Err(IdOverflow);
      }
      var id := counter + 1;
      var op := Operation(id, kind, proposer, Pending, now, None);
      var newBalances := balances;
      if 1 >= threshold {
        var ex := Execute(op, balances, vault, now);
        if ex.Err? {
          return Err(ex.error);
        }
        op, newBalances := ex.value.0, ex.value.1;
      }
      StoreAppend(operations, approvals, signers, threshold, counter, op, [proposer]);
      counter := id;
      operations := operations[id := op];
      approvals := approvals[id := [proposer]];
      balances := newBalances;
      return Ok(id);
    }

    /**
     * A signer approves a pending operation; approving twice changes
     * nothing, and the approval that reaches the threshold executes it.
     */
    method ApproveOperation(signer: Address, id: nat, now: nat) returns (r: Result<(), Error>)
      requires Valid()
      modifies this`operations, this`approvals, this`balances
      ensures Valid()
      ensures OperationsAdvance(old(operations), operations)
      ensures !initialized ==> r == Err(NotInitialized)
      ensures initialized && signer !in signers ==> r == Err(NotSigner)
      ensures initialized && signer in signers && id !in old(operations) ==> r == Err(OperationNotFound)
      ensures initialized && signer in signers && id in old(operations) && old(operations)[id].status != Pending ==>
                r == Err(NotPending)
      ensures r.Err? ==> unchanged(this)
      ensures r.Ok? ==> id in old(operations) && old(operations)[id].status == Pending
      ensures initialized && signer in signers && id in old(operations) && old(operations)[id].status == Pending ==>
                (r.Ok? <==> || signer in old(approvals)[id]
                            || |old(approvals)[id]| + 1 < threshold
                            || Execute(old(operations)[id], old(balances), vault, now).Ok?)
      ensures r.Ok? && signer in old(approvals)[id] ==> unchanged(this)
      ensures r.Ok? && signer !in old(approvals)[id] ==>
                && approvals == old(approvals)[id := old(approvals)[id] + [signer]]
                && (operations[id].status == Executed <==> |approvals[id]| >= threshold)
                && (|approvals[id]| < threshold ==> operations == old(operations) && balances == old(balances))
                && (|approvals[id]| >= threshold ==>
                      && Execute(old(operations)[id], old(balances), vault, now) == Ok((operations[id], balances))
                      && operations == old(operations)[id := operations[id]])
    {
      if !initialized {
        return Err(NotInitialized);
      }
      var isSigner := Contains(signers, signer);
      if !isSigner {
        return Err(NotSigner);
      }
      if id !in operations {
        return Err(OperationNotFound);
      }
      var op := operations[id];
      if op.status != Pending {
        return Err(NotPending);
      }
      assert OperationOk(operations, approvals, signers, threshold, counter, id);
      var already := HasApproved(id, signer);
      if already {
        return Ok(());
      }
      var list := approvals[id] + [signer];
      var newOp, newBalances := op, balances;
      if |list| >= threshold {
        var ex := Execute(op, balances, vault, now);
        if ex.Err? {
          return Err(ex.error);
        }
        newOp, newBalances := ex.value.0, ex.value.1;
        assert newOp.status == Executed;
      }
      assert newOp.status == Executed <==> |list| >= threshold;
      ApprovalStep(op, newOp, approvals[id], signer, signers, threshold);
      StoreUpdate(operations, approvals, signers, threshold, counter, id, newOp, list);
      AdvanceByUpdate(operations, id, newOp);
      approvals := approvals[id := list];
      operations := operations[id := newOp];
      balances := newBalances;
      return Ok(());
    }

    /** The creator or the owner cancels a pending operation. */
    method CancelOperation(caller: Address, id: nat) returns (r: Result<(), Error>)
      requires Valid()
      modifies this`operations
      ensures Valid()
      ensures OperationsAdvance(old(operations), operations)
      ensures !initialized ==> r == Err(NotInitialized)
      ensures initialized && id !in old(operations) ==> r == Err(OperationNotFound)
      ensures initialized && id in old(operations) && old(operations)[id].status != Pending ==> r == Err(NotPending)
      ensures r.Ok? <==>
                && initialized && id in old(operations) && old(operations)[id].status == Pending
                && (caller == old(operations)[id].creator || caller == owner)
      ensures r.Err? ==> operations == old(operations)
      ensures r.Ok? ==> operations == old(operations)[id := old(operations)[id].(status := Cancelled)]
    {
      if !initialized {
        return Err(NotInitialized);
      }
      if id !in operations {
        return Err(OperationNotFound);
      }
      var op := operations[id];
      if op.status != Pending {
        return Err(NotPending);
      }
      if caller != op.creator && caller != owner {
        return Err(NotCreatorOrOwner);
      }
      assert OperationOk(operations, approvals, signers, threshold, counter, id);
      StoreUpdate(operations, approvals, signers, threshold, counter, id, op.(status := Cancelled), approvals[id]);
      assert approvals[id := approvals[id]] == approvals;
      operations := operations[id := op.(status := Cancelled)];
      return Ok(());
    }

    /** The configured guardian executes a pending operation regardless of its approvals. */
    method EmergencyExecute(caller: Address, id: nat, now: nat) returns (r: Result<(), Error>)
      requires Valid()
      modifies this`operations, this`balances
      ensures Valid()
      ensures OperationsAdvance(old(operations), operations)
      ensures !initialized ==> r == Err(NotInitialized)
      ensures initialized && guardian != Some(caller) ==> r == Err(NotGuardian)
      ensures initialized && guardian == Some(caller) && id !in old(operations) ==> r == Err(OperationNotFound)
      ensures initialized && guardian == Some(caller) && id in old(operations) && old(operations)[id].status != Pending ==>
                r == Err(NotPending)
      ensures r.Ok? <==>
                && initialized && guardian == Some(caller) && id in old(operations)
                && old(operations)[id].status == Pending
                && Execute(old(operations)[id], old(balances), vault, now).Ok?
      ensures r.Err? ==> unchanged(this)
      ensures r.Ok? ==>
                && Execute(old(operations)[id], old(balances), vault, now) == Ok((operations[id], balances))
                && operations == old(operations)[id := operations[id]]
                && operations[id].status == Executed
    {
      if !initialized {
        return Err(NotInitialized);
      }
      if guardian != Some(caller) {
        return Err(NotGuardian);
      }
      if id !in operations {
        return Err(OperationNotFound);
      }
      var op := operations[id];
      if op.status != Pending {
        return Err(NotPending);
      }
      var ex := Execute(op, balances, vault, now);
      if ex.Err? {
        return Err(ex.error);
      }
      assert OperationOk(operations, approvals, signers, threshold, counter, id);
      StoreUpdate(operations, approvals, signers, threshold, counter, id, ex.value.0, approvals[id]);
      assert approvals[id := approvals[id]] == approvals;
      operations := operations[id := ex.value.0];
      balances := ex.value.1;
      return Ok(());
    }
  }
}
