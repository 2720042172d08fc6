/**
 * Payment splitting: a split definition lists recipients, each with a share
 * that is either a percentage in basis points (10000 = 100%) or a fixed
 * amount. Creation checks that percentage shares make up exactly 100%;
 * fixed shares are checked against a total only on request; a total is
 * divided by truncating each percentage share.
 */
module PaymentSplitter {
  import opened Ledger
  import Arith

  const WHOLE: int := 10000

  datatype ShareKind = Percent(bps: nat) | Fixed(amount: int)

  datatype RecipientShare = RecipientShare(recipient: Address, kind: ShareKind)

  datatype SplitDefinition = SplitDefinition(id: nat, creator: Address, recipients: seq<RecipientShare>)

  datatype Error =
    | AlreadyInitialized | NotInitialized | NoRecipients | PercentOverflow | PercentNotWhole
    | SplitNotFound | FixedSumOverflow

  /** Basis points fit a u32 and fixed amounts an i128. */
  predicate WellTyped(rs: seq<RecipientShare>)
  {
    forall i :: 0 <= i < |rs| ==>
      match rs[i].kind
      case Percent(bps) => bps <= U32_MAX
      case Fixed(a) => I128_MIN <= a <= I128_MAX
  }

  function BpsOf(kind: ShareKind): nat
  {
    if kind.Percent? then kind.bps else 0
  }

  function FixedOf(kind: ShareKind): int
  {
    if kind.Fixed? then kind.amount else 0
  }

  /** The basis points of all percentage shares, added without bound. */
  function PercentTotal(rs: seq<RecipientShare>): nat
  {
    if rs == [] then 0 else PercentTotal(rs[..|rs| - 1]) + BpsOf(rs[|rs| - 1].kind)
  }

  /** The amounts of all fixed shares, added without bound. */
  function FixedTotal(rs: seq<RecipientShare>): int
  {
    if rs == [] then 0 else FixedTotal(rs[..|rs| - 1]) + FixedOf(rs[|rs| - 1].kind)
  }

  predicate HasPercent(rs: seq<RecipientShare>)
  {
    exists i :: 0 <= i < |rs| && rs[i].kind.Percent?
  }

  predicate HasFixed(rs: seq<RecipientShare>)
  {
    exists i :: 0 <= i < |rs| && rs[i].kind.Fixed?
  }

  /** The percentage total of a prefix never exceeds that of the whole list. */
  lemma {:induction false} PercentTotalPrefix(rs: seq<RecipientShare>, n: nat)
    requires n <= |rs|
    ensures PercentTotal(rs[..n]) <= PercentTotal(rs)
    decreases |rs|
  {
    if n < |rs| {
      var init := rs[..|rs| - 1];
      assert init[..n] == rs[..n];
      PercentTotalPrefix(init, n);
    } else {
      assert rs[..n] == rs;
    }
  }

  /** Without a percentage share the percentage total is zero. */
  lemma {:induction false} NoPercentTotal(rs: seq<RecipientShare>)
    requires !HasPercent(rs)
    ensures PercentTotal(rs) == 0
  {
    if rs != [] {
      var init := rs[..|rs| - 1];
      assert !HasPercent(init) by {
        forall i | 0 <= i < |init| ensures !init[i].kind.Percent? {
          assert init[i] == rs[i];
        }
      }
      NoPercentTotal(init);
    }
  }

  /** A list is accepted at creation when it is non-empty and its percentage shares, if any, make up exactly 100%. */
  predicate Accepted(rs: seq<RecipientShare>)
  {
    |rs| > 0 && (HasPercent(rs) ==> PercentTotal(rs) == WHOLE)
  }

  /**
   * The percentage check of create_split: a u32 running total of the basis
   * points that aborts when an addition overflows, and, if any share is a
   * percentage, a final comparison with 10000.
   */
  method CheckShares(rs: seq<RecipientShare>) returns (r: Result<(), Error>)
    requires WellTyped(rs)
    ensures r.Ok? <==> (HasPercent(rs) ==> PercentTotal(rs) == WHOLE)
    ensures r.Err? ==> (r.error == PercentOverflow <==> PercentTotal(rs) > U32_MAX)
    ensures r.Err? ==> r.error == PercentOverflow || r.error == PercentNotWhole
  {
    var hasPercent := false;
    var totalBps := 0;
    var i := 0;
    while i < |rs|
      invariant 0 <= i <= |rs|
      invariant totalBps == PercentTotal(rs[..i]) <= U32_MAX
      invariant hasPercent <==> HasPercent(rs[..i])
    {
      assert rs[..i + 1][..i] == rs[..i];
      match rs[i].kind {
        case Percent(bps) =>
          hasPercent := true;
          if totalBps + bps > U32_MAX {
            PercentTotalPrefix(rs, i + 1);
            return Err(PercentOverflow);
          }
          totalBps := totalBps + bps;
        case Fixed(_) =>
          assert HasPercent(rs[..i + 1]) ==> HasPercent(rs[..i]) by {
            if HasPercent(rs[..i + 1]) {
              var j :| 0 <= j < i + 1 && rs[..i + 1][j].kind.Percent?;
              assert j < i && rs[..i][j] == rs[..i + 1][j];
            }
          }
      }
      i := i + 1;
    }
    assert rs[..i] == rs;
    if !hasPercent {
      NoPercentTotal(rs);
    }
    if hasPercent && totalBps != WHOLE {
      return Err(PercentNotWhole);
    }
    return Ok(());
  }

  /**
   * The checked running sum of the fixed amounts that
   * validate_split_for_amount computes: None as soon as a partial sum leaves
   * the i128 range.
   */
  function CheckedFixedSum(rs: seq<RecipientShare>): (r: Option<int>)
    ensures r.Some? ==> r.value == FixedTotal(rs) && I128_MIN <= r.value <= I128_MAX
  {
    if rs == [] then Some(0)
    else
      match CheckedFixedSum(rs[..|rs| - 1])
      case None => None
      case Some(s) =>
        var s' := s + FixedOf(rs[|rs| - 1].kind);
        if I128_MIN <= s' <= I128_MAX then Some(s') else None
  }

  /** The checked sum succeeds exactly when every partial sum of fixed amounts fits an i128. */
  lemma {:induction false} CheckedFixedSumSucceeds(rs: seq<RecipientShare>)
    ensures CheckedFixedSum(rs).Some? <==>
            forall n :: 0 <= n <= |rs| ==> I128_MIN <= FixedTotal(rs[..n]) <= I128_MAX
  {
    if rs == [] {
      assert forall n :: 0 <= n <= |rs| ==> rs[..n] == [];
    } else {
      var init := rs[..|rs| - 1];
      CheckedFixedSumSucceeds(init);
      forall n | 0 <= n <= |init|
        ensures init[..n] == rs[..n]
      {
      }
      assert rs[..|rs|] == rs;
    }
  }

  /** Without a fixed share the checked sum is zero. */
  lemma {:induction false} NoFixedSum(rs: seq<RecipientShare>)
    requires !HasFixed(rs)
    ensures CheckedFixedSum(rs) == Some(0)
  {
    if rs != [] {
      var init := rs[..|rs| - 1];
      assert !HasFixed(init) by {
        forall i | 0 <= i < |init| ensures !init[i].kind.Fixed? {
          assert init[i] == rs[i];
        }
      }
      NoFixedSum(init);
    }
  }

  /** Once a partial sum has overflowed, the checked sum of the whole list fails too. */
  lemma {:induction false} CheckedFixedSumFailsLater(rs: seq<RecipientShare>, n: nat)
    requires n <= |rs| && CheckedFixedSum(rs[..n]).None?
    ensures CheckedFixedSum(rs).None?
    decreases |rs| - n
  {
    if n < |rs| {
      assert rs[..n + 1][..n] == rs[..n];
      CheckedFixedSumFailsLater(rs, n + 1);
    } else {
      assert rs[..n] == rs;
    }
  }

  /**
   * validate_split_for_amount on a recipient list: true when there is no
   * fixed share, and otherwise whether the fixed amounts add up to the
   * total; an overflowing sum aborts.
   */
  function ValidateForAmount(rs: seq<RecipientShare>, total: int): (r: Result<bool, Error>)
    ensures !HasFixed(rs) ==> r == Ok(true)
    ensures r.Ok? ==> (r.value <==> (HasFixed(rs) ==> FixedTotal(rs) == total))
    ensures r.Err? ==> r.error == FixedSumOverflow && exists n :: 0 <= n <= |rs| && !(I128_MIN <= FixedTotal(rs[..n]) <= I128_MAX)
  {
    assert !HasFixed(rs) ==> CheckedFixedSum(rs) == Some(0) by {
      if !HasFixed(rs) { NoFixedSum(rs); }
    }
    match CheckedFixedSum(rs)
    case None => CheckedFixedSumSucceeds(rs); Err(FixedSumOverflow)
    case Some(s) => if HasFixed(rs) then Ok(s == total) else Ok(true)
  }

  /** Integer division rounding toward zero, as Rust's `/` does. */
  function TruncDiv(x: int, d: int): (q: int)
    requires d > 0
    ensures x >= 0 ==> q * d <= x < q * d + d
    ensures x < 0 ==> q * d - d < x <= q * d
  {
    if x >= 0 then
      Arith.DivBounds(x, d);
      x / d
    else
      Arith.DivBounds(-x, d);
      -((-x) / d)
  }

  /** The amount one share receives out of `total`. */
  function ShareAmount(kind: ShareKind, total: int): (a: int)
    ensures kind.Fixed? ==> a == kind.amount
    ensures kind.Percent? && total >= 0 ==> a * 10000 <= kind.bps * total < a * 10000 + 10000
    ensures kind.Percent? && total < 0 ==> a * 10000 - 10000 < kind.bps * total <= a * 10000
  {
    match kind
    case Percent(bps) =>
      assert total >= 0 ==> bps * total >= 0;
      assert total < 0 ==> bps * total <= 0;
      TruncDiv(bps * total, 10000)
    case Fixed(a) => a
  }

  /** compute_split on a recipient list: one (recipient, amount) pair per share, in order. */
  function ComputeSplit(rs: seq<RecipientShare>, total: int): (out: seq<(Address, int)>)
    ensures |out| == |rs|
    ensures forall i :: 0 <= i < |rs| ==> out[i].0 == rs[i].recipient && out[i].1 == ShareAmount(rs[i].kind, total)
  {
    if rs == [] then []
    else ComputeSplit(rs[..|rs| - 1], total) + [(rs[|rs| - 1].recipient, ShareAmount(rs[|rs| - 1].kind, total))]
  }

  function SumAmounts(out: seq<(Address, int)>): int
  {
    if out == [] then 0 else SumAmounts(out[..|out| - 1]) + out[|out| - 1].1
  }

  predicate PercentOnly(rs: seq<RecipientShare>)
  {
    forall i :: 0 <= i < |rs| ==> rs[i].kind.Percent?
  }

  /** Splitting a non-negative total by percentages pays out at most the share of the total, losing less than one unit per recipient. */
  lemma {:induction false} PercentSplitSum(rs: seq<RecipientShare>, total: int)
    requires PercentOnly(rs) && total >= 0
    ensures SumAmounts(ComputeSplit(rs, total)) * 10000 <= PercentTotal(rs) * total
    ensures PercentTotal(rs) * total <= SumAmounts(ComputeSplit(rs, total)) * 10000 + 10000 * |rs|
    ensures rs != [] ==> PercentTotal(rs) * total < SumAmounts(ComputeSplit(rs, total)) * 10000 + 10000 * |rs|
  {
    if rs != [] {
      var init := rs[..|rs| - 1];
      var last := rs[|rs| - 1];
      assert PercentOnly(init) by {
        forall i | 0 <= i < |init| ensures init[i].kind.Percent? {
          assert init[i] == rs[i];
        }
      }
      PercentSplitSum(init, total);
      var out := ComputeSplit(rs, total);
      assert out[..|out| - 1] == ComputeSplit(init, total);
      var a := ShareAmount(last.kind, total);
      var s0, p0, b := SumAmounts(ComputeSplit(init, total)), PercentTotal(init), last.kind.bps;
      assert SumAmounts(out) == s0 + a;
      assert PercentTotal(rs) == p0 + b;
      Arith.MulAddRight(p0, b, total);
    }
  }

  /** With percentage shares making up 100%, a non-negative total is never overpaid, and less than one unit per recipient is left over. */
  lemma PercentSplitWithinTotal(rs: seq<RecipientShare>, total: int)
    requires PercentOnly(rs) && PercentTotal(rs) == WHOLE && total >= 0
    ensures total - |rs| < SumAmounts(ComputeSplit(rs, total)) <= total
  {
    PercentSplitSum(rs, total);
  }

  class Splitter {
    var initialized: bool
    var admin: Address
    var nextSplitId: nat
    var splits: map<nat, SplitDefinition>

    /** Ids are handed out from 1 upwards, and every stored split passed the creation checks. */
    ghost predicate Valid()
      reads this
    {
      && (initialized ==> nextSplitId >= 1)
      && (!initialized ==> splits == map[])
      && forall id :: id in splits ==> 1 <= id < nextSplitId && splits[id].id == id && Accepted(splits[id].recipients)
    }

    constructor ()
      ensures Valid() && !initialized && splits == map[]
    {
      initialized := false;
      admin := 0;
      nextSplitId := 0;
      splits := map[];
    }

    /** Records the admin and starts split ids at 1; a second call aborts. */
    method Initialize(caller: Address) returns (r: Result<(), Error>)
      requires Valid()
      modifies this
      ensures Valid()
      ensures r.Ok? <==> !old(initialized)
      ensures r.Err? ==> r.error == AlreadyInitialized && unchanged(this)
      ensures r.Ok? ==> initialized && admin == caller && nextSplitId == 1 && splits == old(splits)
    {
      if initialized {
        return Err(AlreadyInitialized);
      }
      initialized := true;
      admin := caller;
      nextSplitId := 1;
      return Ok(());
    }

    /** Stores a split under the next id once the recipient list passes the creation checks. */
    method CreateSplit(creator: Address, recipients: seq<RecipientShare>) returns (r: Result<nat, Error>)
      requires Valid() && WellTyped(recipients)
      modifies this`nextSplitId, this`splits
      ensures Valid()
      ensures !initialized ==> r == Err(NotInitialized)
      ensures initialized && recipients == [] ==> r == Err(NoRecipients)
      ensures r.Ok? <==> initialized && Accepted(recipients)
      ensures r.Err? ==> unchanged(this)
      ensures r.Ok? ==>
                && r.value == old(nextSplitId) && nextSplitId == r.value + 1
                && r.value !in old(splits)
                && splits == old(splits)[r.value := SplitDefinition(r.value, creator, recipients)]
    {
      if !initialized {
        return Err(NotInitialized);
      }
      if recipients == [] {
        return Err(NoRecipients);
      }
      var check := CheckShares(recipients);
      if check.Err? {
        return Err(check.error);
      }
      var id := nextSplitId;
      nextSplitId := id + 1;
      splits := splits[id := SplitDefinition(id, creator, recipients)];
      return Ok(id);
    }

    /**
     * Adds up the fixed amounts with an overflow check, then looks for a
     * fixed share: with one, the sum must equal `total`; without, any total
     * is valid.
     */
    method ValidateSplitForAmount(splitId: nat, total: int) returns (r: Result<bool, Error>)
      requires Valid()
      ensures splitId !in splits ==> r == Err(SplitNotFound)
      ensures splitId in splits ==> r == ValidateForAmount(splits[splitId].recipients, total)
    {
      if splitId !in splits {
        return Err(SplitNotFound);
      }
      var rs := splits[splitId].recipients;
      var fixedSum := 0;
      var i := 0;
      while i < |rs|
        invariant 0 <= i <= |rs|
        invariant CheckedFixedSum(rs[..i]) == Some(fixedSum)
      {
        assert rs[..i + 1][..i] == rs[..i];
        match rs[i].kind {
          case Percent(_) =>
          case Fixed(amount) =>
            if !(I128_MIN <= fixedSum + amount <= I128_MAX) {
              CheckedFixedSumFailsLater(rs, i + 1);
              return Err(FixedSumOverflow);
            }
            fixedSum := fixedSum + amount;
        }
        i := i + 1;
      }
      assert rs[..|rs|] == rs;
      var hasFixed := false;
      var j := 0;
      while j < |rs|
        invariant 0 <= j <= |rs|
        invariant forall k :: 0 <= k < j ==> !rs[k].kind.Fixed?
      {
        if rs[j].kind.Fixed? {
          hasFixed := true;
          break;
        }
        j := j + 1;
      }
      if hasFixed {
        return Ok(fixedSum == total);
      }
      return Ok(true);
    }

    /** Pays each recipient in order: a percentage share its basis points of `total`, rounded toward zero, a fixed share its amount. */
    method ComputeSplitFor(splitId: nat, total: int) returns (r: Result<seq<(Address, int)>, Error>)
      requires Valid()
      ensures splitId !in splits ==> r == Err(SplitNotFound)
      ensures splitId in splits ==> r == Ok(ComputeSplit(splits[splitId].recipients, total))
    {
      if splitId !in splits {
        return Err(SplitNotFound);
      }
      var rs := splits[splitId].recipients;
      var out: seq<(Address, int)> := [];
      var i := 0;
      while i < |rs|
        invariant 0 <= i <= |rs|
        invariant out == ComputeSplit(rs[..i], total)
      {
        assert rs[..i + 1][..i] == rs[..i];
        var amount := match rs[i].kind
          case Percent(bps) => TruncDiv(bps * total, 10000)
          case Fixed(a) => a;
        out := out + [(rs[i].recipient, amount)];
        i := i + 1;
      }
      assert rs[..|rs|] == rs;
      return Ok(out);
    }
  }
}
