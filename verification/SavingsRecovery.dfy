/** Concurrent recovery requests: reserve, sign, commit the completion, return.

    Between its reservation and its completion a request holds nothing but the record
    the journal gave it, so a run is any sequence of journal calls whose completions are
    built from records handed out since the last restart. The signer may answer
    differently every time. */
module SavingsRecovery {
  import opened Basics
  import Runs
  import opened SavingsJournal

  datatype Returned = Returned(key: Key, sighash: string, signature: string)

  /** `held` are reservations some request is still signing; `returned` is everything
      handed to a caller so far. */
  datatype World = World(log: seq<Event>, held: set<Recovery>, returned: set<Returned>)

  /** `shapeOk` is the verdict of the checks on a stored signed transaction. */
  datatype Step =
    | Request(next: Recovery, now: int, sequence: Sequence, shapeOk: bool)
    | Complete(reserved: Recovery, signature: string, now: int, sequence: Sequence)
    | Restart

  /** What one step of some request may be: a request names no signature, a completion
      puts the signer's answer on a record the journal gave out. */
  ghost predicate Enabled(w: World, s: Step) {
    match s
    case Request(next, _, _, _) => next.signature == ""
    case Complete(reserved, signature, _, _) => reserved in w.held && signature != ""
    case Restart => true
  }

  function Hand(r: Recovery): Returned { Returned(KeyOf(r), r.sighash, r.signature) }

  function Do(w: World, s: Step): World {
    match s
    case Request(next, now, sequence, shapeOk) =>
      var a := Apply(w.log, next, now, sequence);
      if a.answer.Failed? then w.(log := a.log)
      else if a.answer.stored.signature == "" then w.(log := a.log, held := w.held + {a.answer.stored})
      else if shapeOk then w.(log := a.log, returned := w.returned + {Hand(a.answer.stored)})
      else w.(log := a.log)
    case Complete(reserved, signature, now, sequence) =>
      var next := reserved.(signature := signature);
      var a := Apply(w.log, next, now, sequence);
      if a.answer.Failed? || a.answer.stored.signature != signature then w.(log := a.log)
      else w.(log := a.log, returned := w.returned + {Hand(next)})
    case Restart => w.(held := {})
  }

  datatype Outcome = Outcome(log: seq<Event>, signed: Option<string>)

  /** One undisturbed request with its completion: what the journal holds afterwards and what
      is returned. */
  function Undisturbed(log: seq<Event>, next: Recovery, now: int, sequence: Sequence, shapeOk: bool,
                       signature: Option<string>, later: int, laterSequence: Sequence): Outcome {
    var first := Apply(log, next, now, sequence);
    if first.answer.Failed? then Outcome(first.log, None)
    else if first.answer.stored.signature != "" then Outcome(first.log, if shapeOk then Some(first.answer.stored.signature) else None)
    else if signature.None? then Outcome(first.log, None)
    else
      var second := Apply(first.log, first.answer.stored.(signature := signature.value), later, laterSequence);
      Outcome(second.log, if second.answer.Done? && second.answer.stored.signature == signature.value then signature else None)
  }

  /** One undisturbed request: a completed record is returned as it is, otherwise the
      reservation is signed and only what the journal then says it stored is returned.
      `signature` is the signer's answer, absent when it fails. */
  method SignLedgerSavingsRecovery(ledger: SavingsLedger, next: Recovery, now: int, sequence: Sequence, shapeOk: bool,
                                   signature: Option<string>, later: int, laterSequence: Sequence)
    returns (signed: Option<string>)
    requires WellFormed(ledger.log)
    modifies ledger
    ensures Outcome(ledger.log, signed) == Undisturbed(old(ledger.log), next, now, sequence, shapeOk, signature, later, laterSequence)
    ensures WellFormed(ledger.log) && old(ledger.log) <= ledger.log
  {
    ApplyKeepsWellFormed(ledger.log, next, now, sequence);
    var answer := ledger.ApplyLedgerSavingsRecovery(next, now, sequence);
    if answer.Failed? {
      return None;
    }
    var stored := answer.stored;
    if stored.signature != "" {
      return if shapeOk then Some(stored.signature) else None;
    }
    if signature.None? {
      return None;
    }
    var completion := stored.(signature := signature.value);
    ApplyKeepsWellFormed(ledger.log, completion, later, laterSequence);
    answer := ledger.ApplyLedgerSavingsRecovery(completion, later, laterSequence);
    if answer.Failed? || answer.stored.signature != signature.value {
      return None;
    }
    return signature;
  }

  /** What one request returns is the signature of a completion event of its own key and
      sighash; one other than the signer's answer was completed before the request. */
  lemma UndisturbedIsDurable(log: seq<Event>, next: Recovery, now: int, sequence: Sequence, shapeOk: bool,
                             signature: Option<string>, later: int, laterSequence: Sequence)
    requires next.signature == "" && WellFormed(log) && (signature.Some? ==> signature.value != "")
    ensures var r := Undisturbed(log, next, now, sequence, shapeOk, signature, later, laterSequence);
            r.signed.Some? ==>
              && r.signed.value != "" && Completed(r.log, KeyOf(next), next.sighash, r.signed.value)
              && (signature.Some? && r.signed != signature ==> Completed(log, KeyOf(next), next.sighash, r.signed.value))
  {
    var first := Apply(log, next, now, sequence);
    if first.answer.Done? {
      StoredIsLogged(log, next, now, sequence);
      if first.answer.stored.signature != "" {
        if first.log != log { AppendFollows(log, next, now, sequence); }
      } else if signature.Some? {
        var second := Apply(first.log, first.answer.stored.(signature := signature.value), later, laterSequence);
        if second.answer.Done? { StoredIsLogged(first.log, first.answer.stored.(signature := signature.value), later, laterSequence); }
      }
    }
  }

  /** The exact retry of a completed recovery gets the stored signature back, if the stored
      transaction has its shape, and writes nothing. */
  lemma RetryReturnsTheStored(log: seq<Event>, next: Recovery, now: int, sequence: Sequence, shapeOk: bool,
                              signature: Option<string>, later: int, laterSequence: Sequence)
    requires WellFormed(log) && Valid(next) && next.signature == "" && sequence == Sequence(true, true) && CompletedNewest(log, next)
    ensures var h := History(log, KeyOf(next));
            Undisturbed(log, next, now, sequence, shapeOk, signature, later, laterSequence)
            == Outcome(log, if shapeOk then Some(h[|h| - 1].signature) else None)
  {
    var h := History(log, KeyOf(next));
    AnswerAfterCompletion(log, next, now, sequence, h[|h| - 1]);
  }

  /** A request that may be reserved and is signed is completed and returned. */
  lemma ReservableIsSigned(log: seq<Event>, next: Recovery, now: int, sequence: Sequence, shapeOk: bool,
                           signature: string, later: int, laterSequence: Sequence)
    requires WellFormed(log) && Valid(next) && next.signature == "" && Reservable(log, next) && LastId(log) < MAX_I64 - 1
    requires sequence == Sequence(true, true) && laterSequence == Sequence(true, true) && 0 < |signature| <= MAX_BLOB
    ensures Undisturbed(log, next, now, sequence, shapeOk, Some(signature), later, laterSequence).signed == Some(signature)
  {
    var first := Apply(log, next, now, sequence);
    ReservedIsNewest(log, next, now, sequence);
    ApplyKeepsWellFormed(log, next, now, sequence);
    StoredIsLogged(log, next, now, sequence);
    var reserved := first.answer.stored;
    AnswerAfterReservation(first.log, reserved.(signature := signature), later, laterSequence, reserved);
  }

  /** The newest record of the key is a completion of this sighash and destination. */
  ghost predicate CompletedNewest(log: seq<Event>, next: Recovery) {
    var h := History(log, KeyOf(next));
    |h| > 0 && h[|h| - 1].signature != "" && h[|h| - 1].sighash == next.sighash && h[|h| - 1].dest == next.dest
  }

  /** The key is new, or its newest record is a reservation of this sighash or a completion
      of another, for the same destination. */
  ghost predicate Reservable(log: seq<Event>, next: Recovery) {
    var h := History(log, KeyOf(next));
    |h| > 0 ==> h[|h| - 1].dest == next.dest && (h[|h| - 1].signature == "" <==> h[|h| - 1].sighash == next.sighash)
  }

  /** What the journal answers a reservable request is then the newest record of its key. */
  lemma ReservedIsNewest(log: seq<Event>, next: Recovery, now: int, sequence: Sequence)
    requires WellFormed(log) && Valid(next) && sequence == Sequence(true, true) && next.signature == "" && Reservable(log, next)
    requires LastId(log) != MAX_I64
    ensures var a := Apply(log, next, now, sequence);
            && a.answer.Done? && a.answer.stored.signature == "" && Valid(a.answer.stored)
            && var h := History(a.log, KeyOf(next)); |h| > 0 && h[|h| - 1] == a.answer.stored && LastId(a.log) <= LastId(log) + 1
  {
    var h := History(log, KeyOf(next));
    if |h| == 0 { AnswerToFirst(log, next, now, sequence); }
    else if h[|h| - 1].signature == "" { AnswerAfterReservation(log, next, now, sequence, h[|h| - 1]); }
    else { AnswerAfterCompletion(log, next, now, sequence, h[|h| - 1]); }
    var a := Apply(log, next, now, sequence);
    if a.log != log { HistoryOfAppend(log, a.log[|log|], KeyOf(next)); }
    else { assert Alternates(History(log, KeyOf(next))); }
  }

  /** The log holds a completion of this key and sighash with exactly this signature. */
  ghost predicate Completed(log: seq<Event>, key: Key, sighash: string, signature: string) {
    exists i :: 0 <= i < |log| && log[i].rec.signature == signature && log[i].rec.sighash == sighash
      && KeyOf(log[i].rec) == key
  }

  lemma {:induction false} ExistingIsLogged(log: seq<Event>, key: Key)
    requires Existing(log, key).Some?
    ensures exists i :: 0 <= i < |log| && log[i].rec == Existing(log, key).value
    ensures KeyOf(Existing(log, key).value) == key
  {
    var front := log[..|log| - 1];
    if KeyOf(log[|log| - 1].rec) != key {
      ExistingIsLogged(front, key);
      var i :| 0 <= i < |front| && front[i].rec == Existing(front, key).value;
      assert log[i] == front[i];
    }
  }

  /** Whatever the journal answers is a record of the asked key and sighash that it holds. */
  lemma StoredIsLogged(log: seq<Event>, next: Recovery, now: int, sequence: Sequence)
    requires Apply(log, next, now, sequence).answer.Done?
    ensures var a := Apply(log, next, now, sequence);
            && KeyOf(a.answer.stored) == KeyOf(next) && a.answer.stored.sighash == next.sighash
            && Completed(a.log, KeyOf(next), next.sighash, a.answer.stored.signature)
  {
    var a := Apply(log, next, now, sequence);
    var existing := Existing(log, KeyOf(next));
    if a.log == log {
      ExistingIsLogged(log, KeyOf(next));
      var i :| 0 <= i < |log| && log[i].rec == existing.value;
      assert log[i].rec == a.answer.stored;
    } else {
      assert a.log[|a.log| - 1].rec == a.answer.stored;
    }
  }

  /** A completion is recorded exactly when the newest record of its key is a reservation
      of the same sighash, candidate, proof and destination. In particular the late
      completion of an older attempt is never recorded. */
  lemma CompletionRecordedIff(log: seq<Event>, next: Recovery, now: int, sequence: Sequence)
    requires WellFormed(log) && next.signature != ""
    ensures var e := Existing(log, KeyOf(next));
            Apply(log, next, now, sequence).log != log <==>
            && Valid(next) && sequence.before && LastId(log) != MAX_I64
            && e.Some? && e.value.signature == "" && e.value.sighash == next.sighash
            && e.value.candidate == next.candidate && e.value.proof == next.proof && e.value.dest == next.dest
  {
    var e := Existing(log, KeyOf(next));
    if Valid(next) {
      NormalIsIdentity(next.dest);
      NormalIsIdentity(next.txid);
      if e.Some? { ExistingIsLogged(log, KeyOf(next)); }
    }
  }

  // ----- every run

  ghost predicate Init(w: World) { w == World([], {}, {}) }

  ghost predicate Next(w: World, w': World) { exists s :: Enabled(w, s) && w' == Do(w, s) }

  ghost predicate Logged(log: seq<Event>, r: Recovery) { exists i :: 0 <= i < |log| && log[i].rec == r }

  ghost predicate Durable(log: seq<Event>, r: Returned) {
    r.signature != "" && Completed(log, r.key, r.sighash, r.signature)
  }

  ghost predicate Inv(w: World) {
    && WellFormed(w.log)
    && (forall r :: r in w.held ==> r.signature == "" && Logged(w.log, r))
    && (forall r :: r in w.returned ==> Durable(w.log, r))
  }

  ghost predicate Grows(w: World, w': World) { w.log <= w'.log && w.returned <= w'.returned }

  lemma LoggedStays(log: seq<Event>, log': seq<Event>, r: Recovery)
    requires log <= log' && Logged(log, r)
    ensures Logged(log', r)
  {
    var i :| 0 <= i < |log| && log[i].rec == r;
    assert log'[i] == log[i];
  }

  lemma DurableStays(log: seq<Event>, log': seq<Event>, r: Returned)
    requires log <= log' && Durable(log, r)
    ensures Durable(log', r)
  {
    var i :| 0 <= i < |log| && log[i].rec.signature == r.signature && log[i].rec.sighash == r.sighash
             && KeyOf(log[i].rec) == r.key;
    assert log'[i] == log[i];
  }

  lemma LogGrowthKeepsInv(w: World, log: seq<Event>)
    requires Inv(w) && WellFormed(log) && w.log <= log
    ensures Inv(w.(log := log))
  {
    forall r | r in w.held ensures Logged(log, r) { LoggedStays(w.log, log, r); }
    forall r | r in w.returned ensures Durable(log, r) { DurableStays(w.log, log, r); }
  }

  lemma StoredRecordIsLogged(log: seq<Event>, next: Recovery, now: int, sequence: Sequence)
    requires Apply(log, next, now, sequence).answer.Done?
    ensures var a := Apply(log, next, now, sequence); Logged(a.log, a.answer.stored)
  {
    var a := Apply(log, next, now, sequence);
    if a.log == log {
      ExistingIsLogged(log, KeyOf(next));
    } else {
      assert a.log[|a.log| - 1].rec == a.answer.stored;
    }
  }

  lemma HoldKeepsInv(w: World, r: Recovery)
    requires Inv(w) && r.signature == "" && Logged(w.log, r)
    ensures Inv(w.(held := w.held + {r}))
  {
  }

  lemma ReturnKeepsInv(w: World, r: Returned)
    requires Inv(w) && Durable(w.log, r)
    ensures Inv(w.(returned := w.returned + {r}))
  {
  }

  lemma {:induction false} RequestKeepsInv(w: World, s: Step)
    requires Inv(w) && s.Request?
    ensures Inv(Do(w, s)) && Grows(w, Do(w, s))
  {
    var a := Apply(w.log, s.next, s.now, s.sequence);
    ApplyKeepsWellFormed(w.log, s.next, s.now, s.sequence);
    LogGrowthKeepsInv(w, a.log);
    if a.answer.Done? {
      StoredIsLogged(w.log, s.next, s.now, s.sequence);
      StoredRecordIsLogged(w.log, s.next, s.now, s.sequence);
      if a.answer.stored.signature == "" {
        HoldKeepsInv(w.(log := a.log), a.answer.stored);
      } else {
        ReturnKeepsInv(w.(log := a.log), Hand(a.answer.stored));
      }
    }
  }

  lemma {:induction false} CompleteKeepsInv(w: World, s: Step)
    requires Inv(w) && s.Complete? && Enabled(w, s)
    ensures Inv(Do(w, s)) && Grows(w, Do(w, s))
  {
    var next := s.reserved.(signature := s.signature);
    var a := Apply(w.log, next, s.now, s.sequence);
    ApplyKeepsWellFormed(w.log, next, s.now, s.sequence);
    LogGrowthKeepsInv(w, a.log);
    if a.answer.Done? && a.answer.stored.signature == s.signature {
      StoredIsLogged(w.log, next, s.now, s.sequence);
      ReturnKeepsInv(w.(log := a.log), Hand(next));
    }
  }

  lemma {:induction false} StepKeepsInv(w: World, s: Step)
    requires Inv(w) && Enabled(w, s)
    ensures Inv(Do(w, s)) && Grows(w, Do(w, s))
  {
    match s
    case Request(_, _, _, _) => RequestKeepsInv(w, s);
    case Complete(_, _, _, _) => CompleteKeepsInv(w, s);
    case Restart =>
  }

  lemma InvIsInductive()
    ensures Runs.Inductive(Init, Next, Inv)
    ensures Runs.KeptByStep(Next, Inv, Grows)
  {
    forall w, w' | Inv(w) && Next(w, w') ensures Inv(w') && Grows(w, w') {
      var s :| Enabled(w, s) && w' == Do(w, s);
      StepKeepsInv(w, s);
    }
  }

  /** Everything ever returned is, from then on and for good, the signature of a
      completion event of its own vault, outpoint, purpose and sighash. */
  lemma ReturnedIsDurable(run: seq<World>, i: nat, j: nat, r: Returned)
    requires Runs.IsRun(Init, Next, run) && i <= j < |run| && r in run[i].returned
    ensures r.signature != "" && Completed(run[j].log, r.key, r.sighash, r.signature)
  {
    InvIsInductive();
    Runs.InvariantHolds(Init, Next, Inv, run, j);
    Runs.RelationHolds(Init, Next, Inv, Grows, run, i, j);
  }

  /** A completion step of any run changes the journal only by completing the reservation
      that is newest for its key: what it appends agrees with that reservation, and a
      completion of anything else leaves the journal as it was. */
  lemma LateCompletionIsNotRecorded(run: seq<World>, k: nat, s: Step)
    requires Runs.IsRun(Init, Next, run) && k < |run| && s.Complete? && Enabled(run[k], s)
    ensures var log, log' := run[k].log, Do(run[k], s).log;
            var newest := Existing(log, KeyOf(s.reserved));
            && (log' == log || |log'| == |log| + 1)
            && (log' != log ==>
                  && newest.Some? && newest.value.signature == ""
                  && newest.value.sighash == s.reserved.sighash && newest.value.candidate == s.reserved.candidate
                  && newest.value.proof == s.reserved.proof && newest.value.dest == s.reserved.dest
                  && log'[|log|].rec.signature == s.signature && Follows(newest.value, log'[|log|].rec))
  {
    InvIsInductive();
    Runs.InvariantHolds(Init, Next, Inv, run, k);
    var next := s.reserved.(signature := s.signature);
    CompletionRecordedIff(run[k].log, next, s.now, s.sequence);
    if Apply(run[k].log, next, s.now, s.sequence).log != run[k].log {
      AppendFollows(run[k].log, next, s.now, s.sequence);
    }
  }

  /** The steps of a run are the journal's calls: a request that finds a reservation holds it, one
      that finds a completion returns it if its shape is good, and a completion is returned
      exactly when the journal says it stored this very signature. */
  lemma StepsExactly(w: World, s: Step)
    requires Enabled(w, s)
    ensures match s
            case Request(next, now, sequence, shapeOk) =>
              var (a, w') := (Apply(w.log, next, now, sequence), Do(w, s));
              && w'.log == a.log
              && w'.held == (if a.answer.Done? && a.answer.stored.signature == "" then w.held + {a.answer.stored} else w.held)
              && w'.returned == (if a.answer.Done? && a.answer.stored.signature != "" && shapeOk
                                 then w.returned + {Returned(KeyOf(next), next.sighash, a.answer.stored.signature)} else w.returned)
            case Complete(reserved, signature, now, sequence) =>
              var (a, w') := (Apply(w.log, reserved.(signature := signature), now, sequence), Do(w, s));
              && w'.log == a.log && w'.held == w.held
              && w'.returned == (if a.answer.Done? && a.answer.stored.signature == signature
                                 then w.returned + {Returned(KeyOf(reserved), reserved.sighash, signature)} else w.returned)
            case Restart => Do(w, s) == World(w.log, {}, w.returned)
  {
    if s.Request? && Apply(w.log, s.next, s.now, s.sequence).answer.Done? { StoredIsLogged(w.log, s.next, s.now, s.sequence); }
  }
}
