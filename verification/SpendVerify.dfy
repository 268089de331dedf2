/** The check of an Ark spend transaction against its reserved operation, in the 64-bit
    arithmetic it uses, and what acceptance means in exact integers. */
module SpendVerify {
  import opened Basics
  import Ordering
  import CoinSelection

  const FINAL_SEQUENCE := 0xFFFF_FFFF
  const ANCHOR := "51024e73"

  datatype Outpoint = Outpoint(txid: string, index: nat)
  datatype TxIn = TxIn(previous: Outpoint, sequence: nat)
  datatype TxOut = TxOut(value: i64, script: string)

  /** `leafOk` and `signed` are the verdicts on the revealed leaf and the owner's signature. */
  datatype PsbtInput = PsbtInput(utxo: Option<TxOut>, leafOk: bool, signed: bool)

  datatype Packet = Packet(version: int, locktime: nat, ins: seq<TxIn>, outs: seq<TxOut>, inputs: seq<PsbtInput>)

  datatype Checkpoint = Checkpoint(txid: string)

  datatype Operation = Operation(
    amount: i64, fee: i64, change: i64, destScript: string, changeScript: string, changeVout: Option<nat>)

  datatype Reserved = Reserved(value: i64)

  /** Scripts the vault's tree and the checkpoint program determine. */
  datatype Scripts = Scripts(checkpoint: string, vault: string)

  // ----- what is to be accepted, in exact integers

  function Held(input: Reserved): int { input.value }

  function Paid(out: TxOut): int { out.value }

  ghost function Sum(inputs: seq<Reserved>): int { Ordering.SumOf(Held, inputs) }

  /** Input `i` spends checkpoint `i` and carries the reserved value. */
  predicate SpendsCheckpoint(ptx: Packet, inputs: seq<Reserved>, checkpoints: seq<Option<Checkpoint>>, scripts: Scripts, i: nat)
    requires i < |inputs| && |ptx.ins| == |inputs| && |ptx.inputs| == |inputs| && |checkpoints| == |inputs|
  {
    && ptx.ins[i].sequence == FINAL_SEQUENCE && checkpoints[i].Some?
    && ptx.ins[i].previous == Outpoint(checkpoints[i].value.txid, 0)
    && ptx.inputs[i].utxo == Some(TxOut(inputs[i].value, scripts.checkpoint)) && inputs[i].value >= 0
    && ptx.inputs[i].leafOk && ptx.inputs[i].signed
  }

  /** The outputs: destination, change if any, anchor, and nothing else. */
  function Outputs(op: Operation): seq<TxOut> {
    [TxOut(op.amount, op.destScript)] + (if op.change == 0 then [] else [TxOut(op.change, op.changeScript)]) + [TxOut(0, ANCHOR)]
  }

  predicate ChangeShape(op: Operation, scripts: Scripts) {
    if op.change == 0 then op.changeVout.None? && op.changeScript == ""
    else op.changeVout == Some(1) && op.change >= DUST && op.changeScript == scripts.vault
  }

  /** The transaction spends the operation's checkpoints and pays its outputs. */
  ghost predicate Shaped(ptx: Packet, op: Operation, inputs: seq<Reserved>, checkpoints: seq<Option<Checkpoint>>, scripts: Scripts) {
    && ptx.version == 3 && ptx.locktime == 0
    && |checkpoints| == |inputs| && |ptx.ins| == |inputs| && |ptx.inputs| == |inputs|
    && SpendsAll(ptx, inputs, checkpoints, scripts) && ptx.outs == Outputs(op)
  }

  ghost predicate Acceptable(ptx: Packet, op: Operation, inputs: seq<Reserved>, checkpoints: seq<Option<Checkpoint>>, scripts: Scripts) {
    && Shaped(ptx, op, inputs, checkpoints, scripts)
    && 1 <= |inputs| <= MAX_INPUTS && ChangeShape(op, scripts) && op.amount >= DUST && op.fee >= 0
    && Sum(inputs) == op.amount + op.change + op.fee <= MAX_U64
  }

  ghost predicate SpendsAll(ptx: Packet, inputs: seq<Reserved>, checkpoints: seq<Option<Checkpoint>>, scripts: Scripts)
    requires |ptx.ins| == |inputs| && |ptx.inputs| == |inputs| && |checkpoints| == |inputs|
  {
    forall i :: 0 <= i < |inputs| ==> SpendsCheckpoint(ptx, inputs, checkpoints, scripts, i)
  }

  lemma PrefixFits(ptx: Packet, inputs: seq<Reserved>, checkpoints: seq<Option<Checkpoint>>, scripts: Scripts, k: nat)
    requires |ptx.ins| == |inputs| && |ptx.inputs| == |inputs| && |checkpoints| == |inputs| && k <= |inputs|
    requires SpendsAll(ptx, inputs, checkpoints, scripts)
    ensures 0 <= Sum(inputs[..k]) <= Sum(inputs)
  {
    forall i | 0 <= i < |inputs| ensures inputs[i].value >= 0 {
      assert SpendsCheckpoint(ptx, inputs, checkpoints, scripts, i);
    }
    Ordering.SumOfPrefix(Held, inputs, k);
  }

  /** The loop over the inputs: their sum, unless one does not fit its checkpoint or the
      sum leaves 64 bits. */
  method SumInputs(ptx: Packet, inputs: seq<Reserved>, checkpoints: seq<Option<Checkpoint>>, scripts: Scripts)
    returns (sum: Option<u64>)
    requires |ptx.ins| == |inputs| && |ptx.inputs| == |inputs| && |checkpoints| == |inputs|
    ensures sum.Some? <==> SpendsAll(ptx, inputs, checkpoints, scripts) && Sum(inputs) <= MAX_U64
    ensures sum.Some? ==> sum.value == Sum(inputs)
  {
    var inSum: u64 := 0;
    for i := 0 to |inputs|
      invariant forall k :: 0 <= k < i ==> SpendsCheckpoint(ptx, inputs, checkpoints, scripts, k)
      invariant inSum == Sum(inputs[..i])
    {
      ghost var spends := SpendsCheckpoint(ptx, inputs, checkpoints, scripts, i);
      if ptx.ins[i].sequence != FINAL_SEQUENCE || checkpoints[i].None? {
        return None;
      }
      if ptx.ins[i].previous != Outpoint(checkpoints[i].value.txid, 0) || ptx.inputs[i].utxo.None? {
        return None;
      }
      var wu := ptx.inputs[i].utxo.value;
      if wu.value < 0 || AsU64(wu.value) != AsU64(inputs[i].value) || wu.script != scripts.checkpoint {
        return None;
      }
      assert inputs[..i + 1][..i] == inputs[..i];
      if AsU64(wu.value) > MAX_U64 - inSum {
        if SpendsAll(ptx, inputs, checkpoints, scripts) { PrefixFits(ptx, inputs, checkpoints, scripts, i + 1); }
        return None;
      }
      inSum := inSum + AsU64(wu.value);
      if !ptx.inputs[i].leafOk || !ptx.inputs[i].signed {
        return None;
      }
    }
    assert inputs[..|inputs|] == inputs;
    return Some(inSum);
  }

  lemma NothingWraps(x: nat)
    requires x <= MAX_U64
    ensures x % (MAX_U64 + 1) == x
  {
  }

  /** The checks of the outputs, in wrapping arithmetic. */
  method CheckOutputs(ptx: Packet, op: Operation, scripts: Scripts, inSum: u64) returns (ok: bool)
    ensures ok <==> && ptx.outs == Outputs(op) && ChangeShape(op, scripts) && op.amount >= DUST && op.fee >= 0
                    && inSum == op.amount + op.change + op.fee
  {
    var wantOutputs := if op.change > 0 then 3 else 2;
    if |ptx.outs| != wantOutputs {
      return false;
    }
    var dest, anchor := ptx.outs[0], ptx.outs[|ptx.outs| - 1];
    if AsU64(dest.value) != AsU64(op.amount) || dest.script != op.destScript || dest.value < DUST {
      return false;
    }
    var changeValue: u64 := 0;
    if op.change == 0 {
      if op.changeVout.Some? || op.changeScript != "" {
        return false;
      }
    } else {
      if op.changeVout != Some(1) || op.change < DUST {
        return false;
      }
      var change := ptx.outs[1];
      if change.script != scripts.vault || change.script != op.changeScript || change.value != op.change {
        return false;
      }
      changeValue := AsU64(change.value);
    }
    if anchor.script != ANCHOR || anchor.value != 0 {
      return false;
    }
    assert changeValue == op.change && AsU64(dest.value) == op.amount;
    NothingWraps(AsU64(dest.value) + changeValue);
    var outSum := (AsU64(dest.value) + changeValue) % (MAX_U64 + 1);
    if op.fee >= 0 && AsU64(op.fee) <= MAX_U64 - outSum { NothingWraps(outSum + AsU64(op.fee)); }
    if op.fee < 0 || AsU64(op.fee) > MAX_U64 - outSum || inSum != (outSum + AsU64(op.fee)) % (MAX_U64 + 1) {
      return false;
    }
    return true;
  }

  /** verifySpendPSBT */
  method VerifySpendPsbt(packet: Option<Packet>, op: Operation, inputs: seq<Reserved>,
                         checkpoints: seq<Option<Checkpoint>>, scripts: Option<Scripts>)
    returns (ok: bool)
    ensures ok <==> packet.Some? && scripts.Some? && Acceptable(packet.value, op, inputs, checkpoints, scripts.value)
  {
    if packet.None? || scripts.None? {
      return false;
    }
    var ptx := packet.value;
    if |inputs| == 0 || |inputs| > MAX_INPUTS || |checkpoints| != |inputs| {
      return false;
    }
    if ptx.version != 3 || ptx.locktime != 0 || |ptx.ins| != |inputs| || |ptx.inputs| != |inputs| {
      return false;
    }
    var inSum := SumInputs(ptx, inputs, checkpoints, scripts.value);
    if inSum.None? {
      return false;
    }
    ok := CheckOutputs(ptx, op, scripts.value, inSum.value);
  }

  // ----- operations that reserve stored

  /** The row reserve writes for a selection; the amounts are cast to signed 64 bits. */
  function RowFor(p: CoinSelection.Problem, fee: u64, change: u64, vault: string): Operation {
    Operation(AsI64(p.amount), AsI64(fee), AsI64(change), p.dest,
      if change > 0 then vault else "", if change > 0 then Some(1) else None)
  }

  function InputRows(picked: seq<CoinSelection.Coin>): seq<Reserved> {
    seq(|picked|, i requires 0 <= i < |picked| => Reserved(AsI64(picked[i].value)))
  }

  /** The checks of the two tables; a row that fails them is not stored. */
  predicate Storable(op: Operation, inputs: seq<Reserved>) {
    && op.amount >= 0 && op.fee >= 0 && op.change >= 0
    && (forall i :: 0 <= i < |inputs| ==> inputs[i].value >= 0)
    && ((op.change == 0 && op.changeVout.None? && op.changeScript == "")
        || (op.change >= DUST && op.changeVout == Some(1) && op.changeScript != ""))
  }

  lemma {:induction false} SumOfPicked(picked: seq<CoinSelection.Coin>)
    requires forall i :: 0 <= i < |picked| ==> AsI64(picked[i].value) >= 0
    ensures Sum(InputRows(picked)) == CoinSelection.Total(picked)
  {
    if |picked| > 0 {
      SumOfPicked(picked[..|picked| - 1]);
      assert InputRows(picked)[..|picked| - 1] == InputRows(picked[..|picked| - 1]);
    }
  }

  /** Whatever coin selection chose and the store accepted balances exactly: the casts
      lost nothing. */
  lemma StoredOperationBalances(p: CoinSelection.Problem, ordered: seq<CoinSelection.Coin>,
                                picked: seq<CoinSelection.Coin>, fee: u64, change: u64, vault: string)
    requires CoinSelection.ShortestChoice(p, ordered, picked, fee, change)
    requires Storable(RowFor(p, fee, change, vault), InputRows(picked))
    ensures var op, inputs := RowFor(p, fee, change, vault), InputRows(picked);
            && 1 <= |inputs| <= MAX_INPUTS
            && op.amount == p.amount && op.fee == fee && op.change == change
            && Sum(inputs) == op.amount + op.change + op.fee == CoinSelection.Total(picked) <= MAX_U64
  {
    CoinSelection.SelectionBalances(p, ordered, picked, fee, change);
    forall i | 0 <= i < |picked| ensures AsI64(picked[i].value) >= 0 {
      assert InputRows(picked)[i].value >= 0;
    }
    SumOfPicked(picked);
  }

  /** A selection within the vault's caps fits the tables exactly when its change fits 63 bits
      and has a script to go to; the row then says what was selected. */
  lemma SelectionIsStorableIff(
    p: CoinSelection.Problem, vtxos: seq<CoinSelection.Vtxo>, script: string, r: CoinSelection.Selection,
    ordered: seq<CoinSelection.Coin>, recipientCap: i64, feeCap: i64, vault: string)
    requires CoinSelection.Answers(p, vtxos, script, r, ordered) && r.Selected?
    requires DUST <= p.amount <= recipientCap && r.fee <= feeCap
    ensures Storable(RowFor(p, r.fee, r.change, vault), InputRows(r.picked)) <==> r.change <= MAX_I64 && (r.change > 0 ==> vault != "")
    ensures var op := RowFor(p, r.fee, r.change, vault);
            && op.amount == p.amount && op.fee == r.fee && op.destScript == p.dest
            && (r.change <= MAX_I64 ==> op.change == r.change)
            && (op.changeVout, op.changeScript) == if r.change == 0 then (None, "") else (Some(1), vault)
  {
    CoinSelection.SelectionBalances(p, ordered, r.picked, r.fee, r.change);
    forall i | 0 <= i < |r.picked| ensures InputRows(r.picked)[i].value >= 0 {
      assert r.picked[i] in r.picked;
      CoinSelection.PickedIsListed(p, vtxos, script, r, ordered, r.picked[i]);
    }
  }

  /** So a transaction is accepted for a stored operation on its shape alone: it needs to
      spend the checkpoints in order and to pay the operation's outputs, and the amounts
      then balance. */
  lemma StoredOperationAcceptedByShape(
    p: CoinSelection.Problem, ordered: seq<CoinSelection.Coin>, picked: seq<CoinSelection.Coin>, fee: u64, change: u64,
    recipientCap: i64, feeCap: i64, ptx: Packet, checkpoints: seq<Option<Checkpoint>>, scripts: Scripts)
    requires CoinSelection.ShortestChoice(p, ordered, picked, fee, change)
    requires DUST <= p.amount <= recipientCap && fee <= feeCap
    requires Storable(RowFor(p, fee, change, scripts.vault), InputRows(picked))
    ensures var op, inputs := RowFor(p, fee, change, scripts.vault), InputRows(picked);
            Acceptable(ptx, op, inputs, checkpoints, scripts) <==> Shaped(ptx, op, inputs, checkpoints, scripts)
  {
    StoredOperationBalances(p, ordered, picked, fee, change, scripts.vault);
  }

  ghost function OutSum(outs: seq<TxOut>): int { Ordering.SumOf(Paid, outs) }

  /** Exact conservation: the outputs are what the operation says, they and the fee are
      all that the reserved inputs carry, and nothing wrapped. */
  lemma AcceptedConserves(ptx: Packet, op: Operation, inputs: seq<Reserved>, checkpoints: seq<Option<Checkpoint>>, scripts: Scripts)
    requires Acceptable(ptx, op, inputs, checkpoints, scripts)
    ensures Sum(inputs) == OutSum(ptx.outs) + op.fee
    ensures forall i :: 0 <= i < |ptx.outs| ==> 0 <= ptx.outs[i].value <= Sum(inputs)
    ensures |ptx.outs| == (if op.change == 0 then 2 else 3) && ptx.outs[0] == TxOut(op.amount, op.destScript)
    ensures op.change != 0 ==> ptx.outs[1] == TxOut(op.change, scripts.vault)
  {
    var outs := ptx.outs;
    var n := |outs| - 1;
    var first := outs[..1];
    assert first[..|first| - 1] == [] && OutSum(first) == OutSum([]) + Paid(first[0]) && OutSum([]) == 0;
    assert OutSum(outs) == OutSum(outs[..n]) + Paid(outs[n]);
    if op.change == 0 {
      assert outs[..n] == first;
    } else {
      var two := outs[..2];
      assert two[..|two| - 1] == first && OutSum(two) == OutSum(first) + Paid(two[1]);
      assert outs[..n] == two;
    }
  }
}
