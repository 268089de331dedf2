/** Coin selection for a spend: the shortest prefix of the ordered coins for which some
    fee is its own estimate, found by a bounded search in unsigned 64-bit arithmetic.
    The Operator's fee programs are an arbitrary pure estimator. */
module CoinSelection {
  import opened Basics
  import Ordering

  const MAX_EVALUATIONS := 20_000
  const MAX_LISTED := 0xffff

  datatype FeeInput = FeeInput(amount: nat, birth: int, expiry: int, kind: string)
  datatype Output = Output(amount: nat, script: string)

  /** An estimate in satoshis, or a program error. */
  datatype Estimate = Sats(sats: nat) | ProgramError

  datatype Estimator = Estimator(
    input: FeeInput -> Estimate,
    intent: (seq<FeeInput>, seq<Output>) -> Estimate)

  /** exactFeeSats: only results below 2^63 are usable. */
  predicate Usable(e: Estimate) { e.Sats? && e.sats <= MAX_I64 }

  datatype Vtxo = Vtxo(txid: string, vout: nat, value: u64, script: string, feeInput: FeeInput)

  datatype Coin = Coin(txid: string, vout: nat, value: u64, feeInput: FeeInput, effective: u64)

  datatype Problem = Problem(dest: string, changeScript: string, amount: u64, cap: u64, est: Estimator)

  datatype Failure = Cancelled | BudgetSpent | InvalidVtxo | FeeProgram | Overflow | TooMany | DuplicateOutpoint

  datatype Solution = Solved(fee: u64, change: u64) | NoSolution | SolveFailed(failure: Failure)

  datatype Selection = Selected(picked: seq<Coin>, fee: u64, change: u64) | Insufficient | SelectFailed(why: Failure)

  // ----- what a solution is

  function FeeInputs(coins: seq<Coin>): seq<FeeInput> {
    seq(|coins|, i requires 0 <= i < |coins| => coins[i].feeInput)
  }

  function Value(c: Coin): int { c.value }

  ghost function Total(coins: seq<Coin>): int { Ordering.SumOf(Value, coins) }

  ghost predicate ExactWithoutChange(p: Problem, coins: seq<Coin>, fee: nat) {
    && fee <= p.cap && Total(coins) == p.amount + fee
    && p.est.intent(FeeInputs(coins), [Output(p.amount, p.dest)]) == Sats(fee)
  }

  ghost predicate FixedPointWithChange(p: Problem, coins: seq<Coin>, fee: nat, change: nat) {
    && fee <= p.cap && change >= DUST && Total(coins) == p.amount + fee + change
    && p.est.intent(FeeInputs(coins), [Output(p.amount, p.dest), Output(change, p.changeScript)]) == Sats(fee)
  }

  ghost predicate Solvable(p: Problem, coins: seq<Coin>) {
    || (exists fee :: ExactWithoutChange(p, coins, fee))
    || (exists fee, change :: FixedPointWithChange(p, coins, fee, change))
  }

  /** The solution the search prefers: no change if that balances exactly, otherwise the
      smallest fee that is its own estimate. */
  ghost predicate Best(p: Problem, coins: seq<Coin>, fee: nat, change: nat) {
    && Total(coins) <= MAX_U64
    && (|| (change == 0 && ExactWithoutChange(p, coins, fee))
        || (&& FixedPointWithChange(p, coins, fee, change)
            && (forall f :: !ExactWithoutChange(p, coins, f))
            && forall f, c :: FixedPointWithChange(p, coins, f, c) ==> fee <= f))
  }

  // ----- the evaluation budget and the request context

  class FeeMeter {
    var remaining: nat
    var polls: nat
    const cancelled: nat -> bool
    /** Every evaluation of a fee program so far. */
    ghost var evaluations: nat

    ghost predicate Valid() reads this { remaining + evaluations == MAX_EVALUATIONS }

    constructor (cancelled: nat -> bool)
      ensures Valid() && evaluations == 0
    {
      this.cancelled := cancelled;
      remaining, polls, evaluations := MAX_EVALUATIONS, 0, 0;
    }

    method Poll() returns (dead: bool)
      requires Valid()
      modifies this`polls
      ensures Valid() && (dead ==> exists k :: cancelled(k))
    {
      dead := cancelled(polls);
      polls := polls + 1;
    }

    method Consume() returns (ok: bool)
      requires Valid()
      modifies this`remaining
      ensures ok == (old(remaining) > 0)
      ensures remaining == if ok then old(remaining) - 1 else old(remaining)
    {
      ok := remaining != 0;
      if ok { remaining := remaining - 1; }
    }

    method EvalInput(est: Estimator, x: FeeInput) returns (ok: bool, e: Estimate)
      requires Valid()
      modifies this`remaining, this`evaluations
      ensures Valid() && (ok ==> e == est.input(x)) && (!ok ==> remaining == 0)
    {
      ok := Consume();
      e := ProgramError;
      if ok {
        e := est.input(x);
        evaluations := evaluations + 1;
      }
    }

    method EvalIntent(est: Estimator, inputs: seq<FeeInput>, outputs: seq<Output>) returns (ok: bool, e: Estimate)
      requires Valid()
      modifies this`remaining, this`evaluations
      ensures Valid() && (ok ==> e == est.intent(inputs, outputs)) && (!ok ==> remaining == 0)
    {
      ok := Consume();
      e := ProgramError;
      if ok {
        e := est.intent(inputs, outputs);
        evaluations := evaluations + 1;
      }
    }
  }

  // ----- why a search may fail

  /** An estimate that no fee can be taken from. */
  ghost predicate Unusable(e: Estimate) { e.ProgramError? || e.sats >= 0x8000_0000_0000_0000 }

  /** The request was cancelled, or 20,000 estimates have been spent. */
  ghost predicate CutShort(f: Failure, meter: FeeMeter)
    reads meter
  {
    (f == Cancelled && exists k :: meter.cancelled(k)) || (f == BudgetSpent && meter.evaluations == 20_000)
  }

  /** Besides, one of the transactions tried has no usable estimate, or the coins overflow. */
  ghost predicate SolveFails(p: Problem, coins: seq<Coin>, f: Failure, meter: FeeMeter)
    reads meter
  {
    || CutShort(f, meter)
    || (f == Overflow && Total(coins) > MAX_U64)
    || (f == FeeProgram && Unusable(p.est.intent(FeeInputs(coins), [Output(p.amount, p.dest)])))
    || (f == FeeProgram && exists change :: Unusable(p.est.intent(FeeInputs(coins), [Output(p.amount, p.dest), Output(change, p.changeScript)])))
  }

  ghost predicate Invalid(v: Vtxo, script: string) { !ValidTxid(v.txid) || v.script != script || v.value >= 0x8000_0000_0000_0000 }

  ghost predicate ListFails(vtxos: seq<Vtxo>, script: string, est: Estimator, f: Failure, meter: FeeMeter)
    reads meter
  {
    || CutShort(f, meter)
    || (f == InvalidVtxo && exists v :: v in vtxos && Invalid(v, script))
    || (f == FeeProgram && exists v :: v in vtxos && Unusable(est.input(v.feeInput)))
  }

  /** The search fails for one of these reasons and for no other. */
  ghost predicate SelectFails(p: Problem, vtxos: seq<Vtxo>, script: string, ordered: seq<Coin>, f: Failure, meter: FeeMeter)
    reads meter
  {
    || ListFails(vtxos, script, p.est, f, meter)
    || (f == TooMany && |Economic(vtxos, p.est)| > 65535)
    || (f == DuplicateOutpoint && !DistinctOutpoints(Economic(vtxos, p.est)))
    || (Listed(vtxos, script, p.est, ordered)
        && exists n :: 1 <= n <= Limit(ordered) && Unpayable(p, ordered, n) && SolveFails(p, ordered[..n], f, meter))
  }

  /** A sum that would not fit is refused, so the reported one is exact. */
  method SumCoins(coins: seq<Coin>) returns (ok: bool, total: u64)
    ensures ok <==> Total(coins) <= MAX_U64
    ensures ok ==> total == Total(coins)
  {
    total := 0;
    for i := 0 to |coins|
      invariant total == Total(coins[..i])
    {
      assert coins[..i + 1][..i] == coins[..i];
      Ordering.SumOfPrefix(Value, coins, i + 1);
      if coins[i].value > MAX_U64 - total {
        return false, 0;
      }
      total := total + coins[i].value;
    }
    assert coins[..|coins|] == coins;
    ok := true;
  }

  /** The scan over candidate fees 0, 1, 2, ... with change. */
  method ScanFees(p: Problem, coins: seq<Coin>, available: u64, meter: FeeMeter) returns (r: Solution)
    requires meter.Valid() && Total(coins) == p.amount + available
    modifies meter
    ensures meter.Valid()
    ensures r.Solved? ==> FixedPointWithChange(p, coins, r.fee, r.change)
    ensures r.Solved? ==> forall f, c :: FixedPointWithChange(p, coins, f, c) ==> r.fee <= f
    ensures r.NoSolution? ==> forall f, c :: !FixedPointWithChange(p, coins, f, c)
    ensures r.SolveFailed? ==> SolveFails(p, coins, r.failure, meter)
  {
    var inputs := FeeInputs(coins);
    var most: u64 := if p.cap > available then available else p.cap;
    var candidate: u64 := 0;
    while candidate <= most
      invariant meter.Valid()
      invariant forall f, c :: FixedPointWithChange(p, coins, f, c) ==> candidate <= f
      decreases most + 1 - candidate
    {
      var dead := meter.Poll();
      if dead {
        return SolveFailed(Cancelled);
      }
      var change: u64 := available - candidate;
      if change >= DUST {
        var ok, e := meter.EvalIntent(p.est, inputs, [Output(p.amount, p.dest), Output(change, p.changeScript)]);
        if !ok {
          return SolveFailed(BudgetSpent);
        }
        if !Usable(e) {
          return SolveFailed(FeeProgram);
        }
        if e.sats == candidate {
          return Solved(candidate, change);
        }
      }
      assert !FixedPointWithChange(p, coins, candidate, change);
      if candidate == MAX_U64 {
        break;
      }
      candidate := candidate + 1;
    }
    return NoSolution;
  }

  /** solveVtxoSpendWithBudget, for one prefix. */
  method Solve(p: Problem, coins: seq<Coin>, meter: FeeMeter) returns (r: Solution)
    requires meter.Valid()
    modifies meter
    ensures meter.Valid()
    ensures r.Solved? ==> Best(p, coins, r.fee, r.change)
    ensures r.NoSolution? ==> !Solvable(p, coins)
    ensures r.SolveFailed? ==> SolveFails(p, coins, r.failure, meter)
  {
    var dead := meter.Poll();
    if dead {
      return SolveFailed(Cancelled);
    }
    var ok, total := SumCoins(coins);
    if !ok {
      return SolveFailed(Overflow);
    }
    if total < p.amount {
      return NoSolution;
    }
    var evaluated, e := meter.EvalIntent(p.est, FeeInputs(coins), [Output(p.amount, p.dest)]);
    if !evaluated {
      return SolveFailed(BudgetSpent);
    }
    if !Usable(e) {
      return SolveFailed(FeeProgram);
    }
    if e.sats <= p.cap && total - p.amount == e.sats {
      return Solved(e.sats, 0);
    }
    r := ScanFees(p, coins, total - p.amount, meter);
  }

  // ----- the coins

  predicate ValidVtxo(v: Vtxo, script: string) {
    && ValidTxid(v.txid) && v.script == script && v.value <= MAX_I64
  }

  /** What a listed coin yields: itself if it is worth more than its own input fee. */
  function Yield(v: Vtxo, est: Estimator): seq<Coin> {
    match est.input(v.feeInput)
    case Sats(fee) => if fee >= v.value then [] else [Coin(v.txid, v.vout, v.value, v.feeInput, v.value - fee)]
    case ProgramError => []
  }

  /** The economic coins: those worth more than their own input fee. */
  function Economic(vtxos: seq<Vtxo>, est: Estimator): seq<Coin> {
    if |vtxos| == 0 then [] else Economic(vtxos[..|vtxos| - 1], est) + Yield(vtxos[|vtxos| - 1], est)
  }

  ghost predicate Listable(vtxos: seq<Vtxo>, script: string, est: Estimator) {
    forall i :: 0 <= i < |vtxos| ==> ValidVtxo(vtxos[i], script) && Usable(est.input(vtxos[i].feeInput))
  }

  datatype Listing = Coins(coins: seq<Coin>) | ListFailed(failure: Failure)

  method ListCoins(vtxos: seq<Vtxo>, script: string, est: Estimator, meter: FeeMeter) returns (r: Listing)
    requires meter.Valid()
    modifies meter
    ensures meter.Valid()
    ensures r.Coins? ==> Listable(vtxos, script, est) && r.coins == Economic(vtxos, est)
    ensures r.ListFailed? ==> ListFails(vtxos, script, est, r.failure, meter)
  {
    var coins := [];
    for i := 0 to |vtxos|
      invariant meter.Valid()
      invariant Listable(vtxos[..i], script, est) && coins == Economic(vtxos[..i], est)
    {
      var v := vtxos[i];
      assert vtxos[..i + 1][..i] == vtxos[..i];
      if !ValidVtxo(v, script) {
        assert v in vtxos && Invalid(v, script);
        return ListFailed(InvalidVtxo);
      }
      var ok, e := meter.EvalInput(est, v.feeInput);
      if !ok {
        return ListFailed(BudgetSpent);
      }
      if !Usable(e) {
        return ListFailed(FeeProgram);
      }
      if e.sats < v.value {
        coins := coins + [Coin(v.txid, v.vout, v.value, v.feeInput, v.value - e.sats)];
      }
    }
    assert vtxos[..|vtxos|] == vtxos;
    return Coins(coins);
  }

  datatype Outpoint = Outpoint(txid: string, vout: nat)

  ghost predicate DistinctOutpoints(coins: seq<Coin>) {
    forall i, j :: 0 <= i < j < |coins| ==> Outpoint(coins[i].txid, coins[i].vout) != Outpoint(coins[j].txid, coins[j].vout)
  }

  method CheckOutpoints(coins: seq<Coin>) returns (ok: bool)
    ensures ok <==> DistinctOutpoints(coins)
  {
    var seen: set<Outpoint> := {};
    for i := 0 to |coins|
      invariant forall o :: o in seen <==> exists j :: 0 <= j < i && Outpoint(coins[j].txid, coins[j].vout) == o
      invariant DistinctOutpoints(coins[..i])
    {
      var o := Outpoint(coins[i].txid, coins[i].vout);
      if o in seen {
        return false;
      }
      seen := seen + {o};
    }
    assert coins[..|coins|] == coins;
    return true;
  }

  predicate ByOutpoint(a: Coin, b: Coin) {
    if a.txid != b.txid then Ordering.Less(a.txid, b.txid) else a.vout < b.vout
  }

  /** Largest effective value first, then by outpoint. */
  predicate ByValue(a: Coin, b: Coin) {
    if a.effective != b.effective then a.effective > b.effective else ByOutpoint(a, b)
  }

  lemma OutpointOrders(coins: seq<Coin>)
    requires DistinctOutpoints(coins)
    ensures Ordering.Orders(ByOutpoint, coins)
  {
    forall a | a in coins ensures !ByOutpoint(a, a) { Ordering.LessIrreflexive(a.txid); }
    forall a, b | a in coins && b in coins && a != b ensures ByOutpoint(a, b) || ByOutpoint(b, a) {
      var i :| 0 <= i < |coins| && coins[i] == a;
      var j :| 0 <= j < |coins| && coins[j] == b;
      assert i < j || j < i;
      Ordering.LessTotal(a.txid, b.txid);
    }
    forall a, b, c | a in coins && b in coins && c in coins && ByOutpoint(a, b) && ByOutpoint(b, c)
      ensures ByOutpoint(a, c)
    {
      OutpointTransitive(a, b, c);
    }
  }

  lemma OutpointTransitive(a: Coin, b: Coin, c: Coin)
    requires ByOutpoint(a, b) && ByOutpoint(b, c)
    ensures ByOutpoint(a, c)
  {
    if a.txid != b.txid && b.txid != c.txid {
      Ordering.LessTransitive(a.txid, b.txid, c.txid);
      Ordering.LessIrreflexive(a.txid);
    }
  }

  lemma ValueOrders(coins: seq<Coin>)
    requires DistinctOutpoints(coins)
    ensures Ordering.Orders(ByValue, coins)
  {
    OutpointOrders(coins);
    forall a, b, c | a in coins && b in coins && c in coins && ByValue(a, b) && ByValue(b, c) ensures ByValue(a, c) {
      if a.effective == b.effective == c.effective { OutpointTransitive(a, b, c); }
    }
  }

  lemma OutpointsDiffer(coins: seq<Coin>)
    requires DistinctOutpoints(coins)
    ensures Ordering.Distinct(coins)
  {
  }

  /** A reordering, or a prefix of one, still has distinct outpoints. */
  lemma OutpointsKept(coins: seq<Coin>, other: seq<Coin>, n: nat)
    requires DistinctOutpoints(coins) && multiset(coins) == multiset(other) && n <= |other|
    ensures DistinctOutpoints(other[..n])
  {
    OutpointsDiffer(coins);
    Ordering.DistinctByMultiset(coins, other);
    Ordering.SameElements(coins, other);
    forall i, j | 0 <= i < j < n
      ensures Outpoint(other[i].txid, other[i].vout) != Outpoint(other[j].txid, other[j].vout)
    {
      assert other[i] in coins && other[j] in coins;
      var k :| 0 <= k < |coins| && coins[k] == other[i];
      var l :| 0 <= l < |coins| && coins[l] == other[j];
      assert k < l || l < k;
    }
  }

  // ----- selection

  ghost predicate Listed(vtxos: seq<Vtxo>, script: string, est: Estimator, ordered: seq<Coin>) {
    && Listable(vtxos, script, est)
    && multiset(ordered) == multiset(Economic(vtxos, est))
    && DistinctOutpoints(Economic(vtxos, est))
    && Ordering.Sorted(ByValue, ordered)
  }

  lemma {:induction false} EconomicConcat(a: seq<Vtxo>, b: seq<Vtxo>, est: Estimator)
    ensures Economic(a + b, est) == Economic(a, est) + Economic(b, est)
  {
    if |b| == 0 {
      assert a + b == a;
    } else {
      EconomicConcat(a, b[..|b| - 1], est);
      assert (a + b)[..|a + b| - 1] == a + b[..|b| - 1];
    }
  }

  lemma EconomicWithout(vtxos: seq<Vtxo>, i: nat, est: Estimator)
    requires i < |vtxos|
    ensures multiset(Economic(vtxos, est)) == multiset(Economic(vtxos[..i] + vtxos[i + 1..], est)) + multiset(Yield(vtxos[i], est))
  {
    var a, b := vtxos[..i], vtxos[i + 1..];
    assert vtxos == vtxos[..i + 1] + b && vtxos[..i + 1][..i] == a;
    EconomicConcat(vtxos[..i + 1], b, est);
    EconomicConcat(a, b, est);
  }

  /** The same coins listed in another order are the same economic coins. */
  lemma {:induction false} EconomicIsOrderFree(a: seq<Vtxo>, b: seq<Vtxo>, est: Estimator)
    requires multiset(a) == multiset(b)
    ensures multiset(Economic(a, est)) == multiset(Economic(b, est))
    decreases |a|
  {
    Ordering.SameElements(a, b);
    if |a| > 0 {
      var last := |a| - 1;
      assert a[last] in b;
      var i :| 0 <= i < |b| && b[i] == a[last];
      Ordering.MultisetWithout(a, last);
      Ordering.MultisetWithout(b, i);
      EconomicWithout(a, last, est);
      EconomicWithout(b, i, est);
      EconomicIsOrderFree(a[..last] + a[last + 1..], b[..i] + b[i + 1..], est);
    }
  }

  /** The ordered coins do not depend on the order in which the indexer listed them. */
  lemma OrderIsUnique(vtxos: seq<Vtxo>, others: seq<Vtxo>, script: string, est: Estimator, a: seq<Coin>, b: seq<Coin>)
    requires multiset(vtxos) == multiset(others)
    requires Listed(vtxos, script, est, a) && Listed(others, script, est, b)
    ensures a == b
  {
    EconomicIsOrderFree(vtxos, others, est);
    OutpointsKept(Economic(vtxos, est), a, |a|);
    assert a[..|a|] == a;
    ValueOrders(a);
    Ordering.SortedUnique(ByValue, a, b);
  }

  ghost function Limit(ordered: seq<Coin>): nat { if |ordered| > MAX_INPUTS then MAX_INPUTS else |ordered| }

  /** No prefix shorter than `n` can pay. */
  ghost predicate Unpayable(p: Problem, ordered: seq<Coin>, n: nat) {
    forall m :: 1 <= m < n && m <= |ordered| ==> !Solvable(p, ordered[..m])
  }

  ghost predicate ShortestChoice(p: Problem, ordered: seq<Coin>, picked: seq<Coin>, fee: u64, change: u64) {
    exists n :: 1 <= n <= Limit(ordered)
      && Unpayable(p, ordered, n) && Best(p, ordered[..n], fee, change)
      && multiset(picked) == multiset(ordered[..n]) && Ordering.Sorted(ByOutpoint, picked)
  }

  /** What SelectSpendVtxos promises of a result that is not a failure. */
  ghost predicate Answers(p: Problem, vtxos: seq<Vtxo>, script: string, r: Selection, ordered: seq<Coin>) {
    && Listed(vtxos, script, p.est, ordered)
    && match r
       case Selected(picked, fee, change) => ShortestChoice(p, ordered, picked, fee, change)
       case Insufficient => Unpayable(p, ordered, Limit(ordered) + 1)
       case SelectFailed(_) => false
  }

  /** The first half of selectSpendVtxos: the economic coins, largest first. */
  method OrderCoins(vtxos: seq<Vtxo>, script: string, est: Estimator, meter: FeeMeter) returns (r: Listing)
    requires meter.Valid()
    modifies meter
    ensures meter.Valid()
    ensures r.Coins? ==> Listed(vtxos, script, est, r.coins)
    ensures r.ListFailed? ==>
              || ListFails(vtxos, script, est, r.failure, meter)
              || (r.failure == TooMany && |Economic(vtxos, est)| > 65535)
              || (r.failure == DuplicateOutpoint && !DistinctOutpoints(Economic(vtxos, est)))
  {
    r := ListCoins(vtxos, script, est, meter);
    if r.ListFailed? {
      return;
    }
    var coins := r.coins;
    if |coins| > MAX_LISTED {
      return ListFailed(TooMany);
    }
    var distinct := CheckOutpoints(coins);
    if !distinct {
      return ListFailed(DuplicateOutpoint);
    }
    ValueOrders(coins);
    OutpointsDiffer(coins);
    var ordered := Ordering.Sort(ByValue, coins);
    return Coins(ordered);
  }

  /** The chosen prefix in the order of the bundle. */
  method PickInOrder(vtxos: seq<Vtxo>, script: string, est: Estimator, ordered: seq<Coin>, n: nat) returns (picked: seq<Coin>)
    requires Listed(vtxos, script, est, ordered) && n <= |ordered|
    ensures multiset(picked) == multiset(ordered[..n]) && Ordering.Sorted(ByOutpoint, picked)
  {
    OutpointsKept(Economic(vtxos, est), ordered, n);
    OutpointOrders(ordered[..n]);
    OutpointsDiffer(ordered[..n]);
    picked := Ordering.Sort(ByOutpoint, ordered[..n]);
  }

  /** selectSpendVtxos. */
  method SelectSpendVtxos(p: Problem, vtxos: seq<Vtxo>, script: string, meter: FeeMeter)
    returns (r: Selection, ordered: seq<Coin>)
    requires meter.Valid()
    modifies meter
    ensures meter.Valid() && meter.evaluations <= MAX_EVALUATIONS
    ensures !r.SelectFailed? ==> Answers(p, vtxos, script, r, ordered)
    ensures r.SelectFailed? ==> SelectFails(p, vtxos, script, ordered, r.why, meter)
  {
    var listing := OrderCoins(vtxos, script, p.est, meter);
    if listing.ListFailed? {
      return SelectFailed(listing.failure), [];
    }
    ordered := listing.coins;
    var limit := if |ordered| > MAX_INPUTS then MAX_INPUTS else |ordered|;
    for count := 1 to limit + 1
      invariant meter.Valid()
      invariant Unpayable(p, ordered, count)
    {
      var s := Solve(p, ordered[..count], meter);
      if s.SolveFailed? {
        return SelectFailed(s.failure), ordered;
      }
      if s.Solved? {
        var picked := PickInOrder(vtxos, script, p.est, ordered, count);
        assert ShortestChoice(p, ordered, picked, s.fee, s.change);
        return Selected(picked, s.fee, s.change), ordered;
      }
    }
    return Insufficient, ordered;
  }

  lemma TotalIsOrderFree(a: seq<Coin>, b: seq<Coin>)
    requires multiset(a) == multiset(b)
    ensures Total(a) == Total(b)
  {
    Ordering.SumIsOrderFree(Value, a, b);
  }

  /** A selection balances in exact integers: what the picked coins hold is the amount,
      the fee and the change, the fee is within the cap, and change is absent or not dust. */
  lemma SelectionBalances(p: Problem, ordered: seq<Coin>, picked: seq<Coin>, fee: u64, change: u64)
    requires ShortestChoice(p, ordered, picked, fee, change)
    ensures Total(picked) == p.amount + fee + change <= MAX_U64 && fee <= p.cap
    ensures change == 0 || change >= DUST
    ensures 1 <= |picked| <= MAX_INPUTS
  {
    var n :| 1 <= n <= Limit(ordered) && Unpayable(p, ordered, n) && Best(p, ordered[..n], fee, change)
      && multiset(picked) == multiset(ordered[..n]) && Ordering.Sorted(ByOutpoint, picked);
    TotalIsOrderFree(picked, ordered[..n]);
    Ordering.SameElements(picked, ordered[..n]);
  }

  // ----- the choice does not depend on the listing

  lemma BestIsUnique(p: Problem, coins: seq<Coin>, fee: nat, change: nat, fee': nat, change': nat)
    requires Best(p, coins, fee, change) && Best(p, coins, fee', change')
    ensures fee == fee' && change == change'
  {
  }

  lemma BestSolves(p: Problem, coins: seq<Coin>, fee: nat, change: nat)
    requires Best(p, coins, fee, change)
    ensures Solvable(p, coins)
  {
  }

  /** One prefix is chosen, with one solution and one order of its coins. */
  lemma ChoiceIsUnique(p: Problem, ordered: seq<Coin>, x: Selection, y: Selection)
    requires DistinctOutpoints(ordered) && x.Selected? && y.Selected?
    requires ShortestChoice(p, ordered, x.picked, x.fee, x.change) && ShortestChoice(p, ordered, y.picked, y.fee, y.change)
    ensures x == y
  {
    var n :| 1 <= n <= Limit(ordered) && Unpayable(p, ordered, n) && Best(p, ordered[..n], x.fee, x.change)
      && multiset(x.picked) == multiset(ordered[..n]) && Ordering.Sorted(ByOutpoint, x.picked);
    var m :| 1 <= m <= Limit(ordered) && Unpayable(p, ordered, m) && Best(p, ordered[..m], y.fee, y.change)
      && multiset(y.picked) == multiset(ordered[..m]) && Ordering.Sorted(ByOutpoint, y.picked);
    BestSolves(p, ordered[..n], x.fee, x.change);
    BestSolves(p, ordered[..m], y.fee, y.change);
    assert n == m;
    BestIsUnique(p, ordered[..n], x.fee, x.change, y.fee, y.change);
    OutpointsKept(ordered, ordered, n);
    OutpointsKept(ordered[..n], x.picked, n);
    Ordering.SameElements(x.picked, ordered[..n]);
    assert x.picked[..n] == x.picked;
    OutpointOrders(x.picked);
    Ordering.SortedUnique(ByOutpoint, x.picked, y.picked);
  }

  /** Whatever order the indexer lists the coins in, two searches that end without a failure
      give the same answer: the same coins in the same order, the same fee and change, or
      both that the coins do not suffice. */
  lemma SelectionIsOrderFree(
    p: Problem, vtxos: seq<Vtxo>, others: seq<Vtxo>, script: string, x: Selection, a: seq<Coin>, y: Selection, b: seq<Coin>)
    requires multiset(vtxos) == multiset(others)
    requires Answers(p, vtxos, script, x, a) && Answers(p, others, script, y, b)
    ensures x == y
  {
    OrderIsUnique(vtxos, others, script, p.est, a, b);
    OutpointsKept(Economic(vtxos, p.est), a, |a|);
    assert a[..|a|] == a;
    if x.Selected? { ChosenIsPayable(p, a, x); }
    if y.Selected? { ChosenIsPayable(p, a, y); }
    if x.Selected? && y.Selected? { ChoiceIsUnique(p, a, x, y); }
  }

  lemma ChosenIsPayable(p: Problem, ordered: seq<Coin>, x: Selection)
    requires x.Selected? && ShortestChoice(p, ordered, x.picked, x.fee, x.change)
    ensures !Unpayable(p, ordered, Limit(ordered) + 1)
  {
    var n :| 1 <= n <= Limit(ordered) && Unpayable(p, ordered, n) && Best(p, ordered[..n], x.fee, x.change)
      && multiset(x.picked) == multiset(ordered[..n]) && Ordering.Sorted(ByOutpoint, x.picked);
    BestSolves(p, ordered[..n], x.fee, x.change);
  }

  /** A list is accepted exactly when every coin in it has a txid, the vault's script and a
      value below 2^63, and a usable estimate for its input. */
  lemma ListableExactly(vtxos: seq<Vtxo>, script: string, est: Estimator)
    ensures Listable(vtxos, script, est) <==> forall v :: v in vtxos ==> !Invalid(v, script) && !Unusable(est.input(v.feeInput))
  {
    if Listable(vtxos, script, est) {
      forall v | v in vtxos ensures !Invalid(v, script) && !Unusable(est.input(v.feeInput)) {
        var i :| 0 <= i < |vtxos| && vtxos[i] == v;
        assert ValidVtxo(vtxos[i], script);
      }
    }
  }

  // ----- which coins come first

  /** What is left of a listed coin after the fee of its own input; it has to be something. */
  predicate IsWorth(v: Vtxo, est: Estimator, c: Coin) {
    && c.txid == v.txid && c.vout == v.vout && c.value == v.value && c.feeInput == v.feeInput
    && est.input(v.feeInput).Sats? && est.input(v.feeInput).sats < v.value && c.effective == v.value - est.input(v.feeInput).sats
  }

  ghost predicate Worth(vtxos: seq<Vtxo>, est: Estimator, c: Coin) { exists v :: v in vtxos && IsWorth(v, est, c) }

  lemma {:induction false} EconomicExactly(vtxos: seq<Vtxo>, est: Estimator, c: Coin)
    ensures c in Economic(vtxos, est) <==> Worth(vtxos, est, c)
  {
    if |vtxos| > 0 {
      var front, last := vtxos[..|vtxos| - 1], vtxos[|vtxos| - 1];
      EconomicExactly(front, est, c);
      assert vtxos == front + [last];
      assert c in Yield(last, est) <==> IsWorth(last, est, c);
    }
  }

  /** The order, whatever defines it: what a coin is worth after its own input fee never
      increases, and coins worth the same go by txid and then by index. */
  lemma LargestFirst(vtxos: seq<Vtxo>, script: string, est: Estimator, ordered: seq<Coin>, i: nat, j: nat)
    requires Listed(vtxos, script, est, ordered) && i < j < |ordered|
    ensures ordered[i].effective >= ordered[j].effective
    ensures ordered[i].effective == ordered[j].effective ==>
              if ordered[i].txid == ordered[j].txid then ordered[i].vout < ordered[j].vout
              else exists k :: 0 <= k <= |ordered[i].txid| && k < |ordered[j].txid| && ordered[i].txid[..k] == ordered[j].txid[..k]
                     && (k == |ordered[i].txid| || ordered[i].txid[k] < ordered[j].txid[k])
  {
    Ordering.LessIff(ordered[i].txid, ordered[j].txid);
  }

  function Effective(c: Coin): int { c.effective }

  /** No listed coins, as few as they may be, are worth more together than as many coins from
      the head of the order. */
  lemma HeadIsWorthMost(vtxos: seq<Vtxo>, script: string, est: Estimator, ordered: seq<Coin>, n: nat, others: seq<Coin>)
    requires Listed(vtxos, script, est, ordered) && |others| <= n <= |ordered|
    requires Ordering.Distinct(others) && forall c :: c in others ==> Worth(vtxos, est, c)
    ensures Ordering.SumOf(Effective, others) <= Ordering.SumOf(Effective, ordered[..n])
  {
    Ordering.SameElements(ordered, Economic(vtxos, est));
    forall c | c in others ensures c in ordered { EconomicExactly(vtxos, est, c); }
    forall i, j | 0 <= i < j < |ordered| ensures Effective(ordered[i]) >= Effective(ordered[j]) {
      LargestFirst(vtxos, script, est, ordered, i, j);
    }
    Ordering.PrefixIsLargest(Effective, ordered, n, others);
  }

  /** Every picked coin is a listed one, of a value that fits 63 bits. */
  lemma PickedIsListed(p: Problem, vtxos: seq<Vtxo>, script: string, r: Selection, ordered: seq<Coin>, c: Coin)
    requires Answers(p, vtxos, script, r, ordered) && r.Selected? && c in r.picked
    ensures Worth(vtxos, p.est, c) && c.value <= MAX_I64
  {
    var n :| 1 <= n <= Limit(ordered) && Unpayable(p, ordered, n) && Best(p, ordered[..n], r.fee, r.change)
      && multiset(r.picked) == multiset(ordered[..n]) && Ordering.Sorted(ByOutpoint, r.picked);
    Ordering.SameElements(r.picked, ordered[..n]);
    Ordering.SameElements(ordered, Economic(vtxos, p.est));
    assert c in ordered[..n] && c in ordered;
    EconomicExactly(vtxos, p.est, c);
    var v :| v in vtxos && IsWorth(v, p.est, c);
    var i :| 0 <= i < |vtxos| && vtxos[i] == v;
    assert ValidVtxo(vtxos[i], script);
  }

  /** Every picked coin is a listed one, and worth at least as much as every coin left out. */
  lemma PickedAreWorthMost(p: Problem, vtxos: seq<Vtxo>, script: string, r: Selection, ordered: seq<Coin>, c: Coin, out: Coin)
    requires Answers(p, vtxos, script, r, ordered) && r.Selected? && c in r.picked
    requires Worth(vtxos, p.est, out) && out !in r.picked
    ensures Worth(vtxos, p.est, c) && c.effective >= out.effective
  {
    var n :| 1 <= n <= Limit(ordered) && Unpayable(p, ordered, n) && Best(p, ordered[..n], r.fee, r.change)
      && multiset(r.picked) == multiset(ordered[..n]) && Ordering.Sorted(ByOutpoint, r.picked);
    Ordering.SameElements(r.picked, ordered[..n]);
    Ordering.SameElements(ordered, Economic(vtxos, p.est));
    EconomicExactly(vtxos, p.est, out);
    EconomicExactly(vtxos, p.est, c);
    var i :| 0 <= i < n && ordered[..n][i] == c;
    assert ordered[i] == c;
    var j :| 0 <= j < |ordered| && ordered[j] == out;
    LargestFirst(vtxos, script, p.est, ordered, i, j);
  }

  /** An insufficient answer is about the best coins: for every number of inputs up to 50, the
      coins that are worth most together admit no fee. */
  lemma InsufficientIsAboutTheBest(p: Problem, vtxos: seq<Vtxo>, script: string, ordered: seq<Coin>, m: nat)
    requires Answers(p, vtxos, script, Insufficient, ordered) && 1 <= m <= 50 && m <= |ordered|
    ensures forall fee :: !ExactWithoutChange(p, ordered[..m], fee)
    ensures forall fee, change :: !FixedPointWithChange(p, ordered[..m], fee, change)
    ensures forall others :: |others| <= m && Ordering.Distinct(others) && (forall c :: c in others ==> Worth(vtxos, p.est, c)) ==>
              Ordering.SumOf(Effective, others) <= Ordering.SumOf(Effective, ordered[..m])
  {
    assert !Solvable(p, ordered[..m]);
    forall others | |others| <= m && Ordering.Distinct(others) && (forall c :: c in others ==> Worth(vtxos, p.est, c))
      ensures Ordering.SumOf(Effective, others) <= Ordering.SumOf(Effective, ordered[..m])
    {
      HeadIsWorthMost(vtxos, script, p.est, ordered, m, others);
    }
  }
}
