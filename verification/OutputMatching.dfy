/** Required on-chain outputs are matched one by one against a commitment's outputs, each
    of which may serve one requirement only. */
module OutputMatching {
  import opened Basics

  datatype TxOut = TxOut(value: int, script: string)

  /** The first two outputs of a commitment belong to the batch itself. */
  const FIRST := 2

  /** The requirements proper; an absent one matches nothing. */
  ghost function Wanted(required: seq<Option<TxOut>>): seq<TxOut> {
    if |required| == 0 then []
    else if required[|required| - 1].None? then Wanted(required[..|required| - 1])
    else Wanted(required[..|required| - 1]) + [required[|required| - 1].value]
  }

  ghost predicate AllPresent(required: seq<Option<TxOut>>) {
    forall i :: 0 <= i < |required| ==> required[i].Some?
  }

  /** How many outputs from index 2 on equal `x` and serve no requirement yet. */
  ghost function FreeCount(outputs: seq<TxOut>, used: set<nat>, k: nat, x: TxOut): nat
    requires k <= |outputs|
  {
    if k <= FIRST then 0
    else FreeCount(outputs, used, k - 1, x) + if k - 1 !in used && outputs[k - 1] == x then 1 else 0
  }

  /** The outputs a requirement may use. */
  function Usable(outputs: seq<TxOut>): seq<TxOut> { if |outputs| <= FIRST then [] else outputs[FIRST..] }

  lemma {:induction false} AllFree(outputs: seq<TxOut>, k: nat, x: TxOut)
    requires FIRST <= k <= |outputs|
    ensures FreeCount(outputs, {}, k, x) == multiset(outputs[FIRST..k])[x]
  {
    if k > FIRST {
      AllFree(outputs, k - 1, x);
      assert outputs[FIRST..k] == outputs[FIRST..k - 1] + [outputs[k - 1]];
    }
  }

  lemma UsableCount(outputs: seq<TxOut>, x: TxOut)
    ensures FreeCount(outputs, {}, |outputs|, x) == multiset(Usable(outputs))[x]
  {
    if |outputs| > FIRST {
      AllFree(outputs, |outputs|, x);
      assert outputs[FIRST..|outputs|] == outputs[FIRST..];
    }
  }

  lemma {:induction false} FreeAfterUse(outputs: seq<TxOut>, used: set<nat>, i: nat, k: nat, x: TxOut)
    requires FIRST <= i < |outputs| && i !in used && k <= |outputs|
    ensures FreeCount(outputs, used, k, x) == FreeCount(outputs, used + {i}, k, x) + if i < k && outputs[i] == x then 1 else 0
  {
    if k > FIRST { FreeAfterUse(outputs, used, i, k - 1, x); }
  }

  /** Something is free exactly when some unused output from index 2 on equals it. */
  lemma {:induction false} FreeMeans(outputs: seq<TxOut>, used: set<nat>, k: nat, x: TxOut)
    requires k <= |outputs|
    ensures FreeCount(outputs, used, k, x) > 0 <==> exists i :: FIRST <= i < k && i !in used && outputs[i] == x
  {
    if k > FIRST { FreeMeans(outputs, used, k - 1, x); }
  }

  /** The inner scan: the first unused output that equals the requirement. */
  method FirstMatch(outputs: seq<TxOut>, used: set<nat>, want: Option<TxOut>) returns (found: Option<nat>)
    ensures found.Some? <==> want.Some? && FreeCount(outputs, used, |outputs|, want.value) > 0
    ensures found.Some? ==> FIRST <= found.value < |outputs| && found.value !in used && outputs[found.value] == want.value
  {
    if want.Some? { FreeMeans(outputs, used, |outputs|, want.value); }
    for i := 0 to |outputs|
      invariant want.Some? ==> forall k :: FIRST <= k < i && k !in used ==> outputs[k] != want.value
    {
      if i < FIRST || i in used || want.None? || outputs[i] != want.value {
        continue;
      }
      return Some(i);
    }
    return None;
  }

  ghost function WantedCount(required: seq<Option<TxOut>>, x: TxOut): nat { multiset(Wanted(required))[x] }

  lemma {:induction false} WantedNext(required: seq<Option<TxOut>>, i: nat, x: TxOut)
    requires i < |required| && required[i].Some?
    ensures WantedCount(required[..i + 1], x) == WantedCount(required[..i], x) + if required[i].value == x then 1 else 0
  {
    assert required[..i + 1][..i] == required[..i];
  }

  lemma {:induction false} WantedGrows(required: seq<Option<TxOut>>, i: nat, x: TxOut)
    requires i <= |required|
    ensures WantedCount(required[..i], x) <= WantedCount(required, x)
  {
    if i == |required| {
      assert required[..i] == required;
    } else {
      var front := required[..|required| - 1];
      WantedGrows(front, i, x);
      assert front[..i] == required[..i];
    }
  }

  /** What is still free and what has been served make up all usable outputs equal to `x`. */
  ghost predicate BalancedAt(required: seq<Option<TxOut>>, outputs: seq<TxOut>, used: set<nat>, i: nat, x: TxOut)
    requires i <= |required|
  {
    FreeCount(outputs, used, |outputs|, x) + WantedCount(required[..i], x) == multiset(Usable(outputs))[x]
  }

  ghost predicate Balanced(required: seq<Option<TxOut>>, outputs: seq<TxOut>, used: set<nat>, i: nat)
    requires i <= |required|
  {
    forall x :: BalancedAt(required, outputs, used, i, x)
  }

  lemma BalancedStart(required: seq<Option<TxOut>>, outputs: seq<TxOut>)
    ensures Balanced(required, outputs, {}, 0)
  {
    forall x ensures BalancedAt(required, outputs, {}, 0, x) { UsableCount(outputs, x); }
  }

  lemma BalancedNext(required: seq<Option<TxOut>>, outputs: seq<TxOut>, used: set<nat>, i: nat, at: nat)
    requires i < |required| && Balanced(required, outputs, used, i) && required[i].Some?
    requires FIRST <= at < |outputs| && at !in used && outputs[at] == required[i].value
    ensures Balanced(required, outputs, used + {at}, i + 1)
  {
    var later, next := used + {at}, i + 1;
    forall x ensures BalancedAt(required, outputs, later, next, x) {
      assert BalancedAt(required, outputs, used, i, x);
      FreeAfterUse(outputs, used, at, |outputs|, x);
      WantedNext(required, i, x);
    }
  }

  /** The commitment offers all that is required. */
  ghost predicate Contained(required: seq<Option<TxOut>>, outputs: seq<TxOut>) {
    multiset(Wanted(required)) <= multiset(Usable(outputs))
  }

  /** A requirement that finds nothing free exceeds what the commitment offers. */
  lemma NothingFree(required: seq<Option<TxOut>>, outputs: seq<TxOut>, used: set<nat>, i: nat)
    requires i < |required| && Balanced(required, outputs, used, i) && required[i].Some?
    requires FreeCount(outputs, used, |outputs|, required[i].value) == 0
    ensures !Contained(required, outputs)
  {
    var x := required[i].value;
    assert BalancedAt(required, outputs, used, i, x);
    WantedNext(required, i, x);
    WantedGrows(required, i + 1, x);
    assert multiset(Wanted(required))[x] > multiset(Usable(outputs))[x];
  }

  lemma AllServed(required: seq<Option<TxOut>>, outputs: seq<TxOut>, used: set<nat>)
    requires Balanced(required, outputs, used, |required|)
    ensures Contained(required, outputs)
  {
    assert required[..|required|] == required;
    forall x ensures multiset(Wanted(required))[x] <= multiset(Usable(outputs))[x] {
      assert BalancedAt(required, outputs, used, |required|, x);
    }
  }

  /** The greedy scan succeeds exactly when every requirement is present and the multiset of
      requirements is contained in the multiset of outputs from index 2 on: taking the
      first match never spoils a matching, and no output serves two requirements. */
  method MatchOutputs(required: seq<Option<TxOut>>, outputs: seq<TxOut>) returns (ok: bool)
    ensures ok <==> AllPresent(required) && Contained(required, outputs)
  {
    BalancedStart(required, outputs);
    var used: set<nat> := {};
    for i := 0 to |required|
      invariant forall k :: 0 <= k < i ==> required[k].Some?
      invariant Balanced(required, outputs, used, i)
    {
      var found := FirstMatch(outputs, used, required[i]);
      if found.None? {
        if required[i].Some? { NothingFree(required, outputs, used, i); }
        return false;
      }
      BalancedNext(required, outputs, used, i, found.value);
      used := used + {found.value};
    }
    AllServed(required, outputs, used);
    return true;
  }
}
