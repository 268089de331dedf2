/** The Ledger Savings recovery journal: reservations and completions appended to an
    authenticated log, one decision per request. */
module SavingsJournal {
  import opened Basics
  import Runs

  const MAX_U32 := 0xFFFF_FFFF
  const MAX_BLOB := 131072

  /** One record; an empty signature makes it a reservation, otherwise it is a completion. */
  datatype Recovery = Recovery(
    vault: string, purpose: string, txid: string, vout: int, dest: string, sighash: string,
    signature: string, candidate: string, proof: string, created: int, updated: int)

  datatype Event = Event(id: int, rec: Recovery)

  datatype Key = Key(vault: string, txid: string, vout: int, purpose: string)

  function KeyOf(r: Recovery): Key { Key(r.vault, r.txid, r.vout, r.purpose) }

  // ----- validation and the normalisation DecideReplay applies

  predicate CanonicalHex(s: string) { |s| % 2 == 0 && forall i :: 0 <= i < |s| ==> LowerHex(s[i]) }

  predicate ValidPurpose(p: string) { p == "initiate" || p == "clawback" }

  predicate Valid(r: Recovery) {
    && ValidPurpose(r.purpose) && r.vault != ""
    && |r.txid| == 64 && 0 <= r.vout <= MAX_U32 && |r.dest| == 68 && |r.sighash| == 64
    && 0 < |r.candidate| <= MAX_BLOB && |r.signature| <= MAX_BLOB && (|r.proof| == 0 || |r.proof| == 64)
    && CanonicalHex(r.txid) && CanonicalHex(r.dest) && CanonicalHex(r.sighash)
  }

  predicate Space(c: char) { c == ' ' || c == '\t' || c == '\n' || c == '\r' || c == '\U{000B}' || c == '\U{000C}' }

  function TrimLeft(s: string): string { if |s| > 0 && Space(s[0]) then TrimLeft(s[1..]) else s }

  function TrimRight(s: string): string {
    if |s| > 0 && Space(s[|s| - 1]) then TrimRight(s[..|s| - 1]) else s
  }

  function Normal(s: string): string { ToLower(TrimRight(TrimLeft(s))) }

  lemma {:induction false} LowerIsIdentity(s: string)
    requires forall i :: 0 <= i < |s| ==> LowerHex(s[i])
    ensures ToLower(s) == s
  {
    if |s| > 0 { LowerIsIdentity(s[1..]); }
  }

  /** On a validated record the normalisation changes nothing. */
  lemma NormalIsIdentity(s: string)
    requires CanonicalHex(s)
    ensures Normal(s) == s
  {
    LowerIsIdentity(s);
  }

  // ----- the decision

  datatype Action = Sign | Replay | Resign

  datatype Decision = Allow(action: Action) | Refuse

  function DecideReplay(existing: Option<Recovery>, next: Recovery): Decision {
    var txid, dest := Normal(next.txid), Normal(next.dest);
    if !ValidPurpose(next.purpose) || next.vault == "" || txid == "" || dest == "" then Refuse
    else match existing
      case None => Allow(Sign)
      case Some(e) =>
        if e.dest != dest || e.txid != txid || e.vout != next.vout then Refuse
        else if e.signature == "" then
          if e.sighash == "" || next.sighash == "" || e.sighash != next.sighash then Refuse else Allow(Resign)
        else if next.sighash != "" && e.sighash == next.sighash then Allow(Replay)
        else if next.signature != "" then Refuse
        else Allow(Resign)
  }

  // ----- one request against the log

  /** The verdicts of the external sequence before the scan and after the decision. */
  datatype Sequence = Sequence(before: bool, after: bool)

  datatype Answer = Done(action: Action, stored: Recovery) | Failed

  datatype Applied = Applied(log: seq<Event>, answer: Answer)

  function LastId(log: seq<Event>): int { if |log| == 0 then 0 else log[|log| - 1].id }

  /** The newest record for the same vault, outpoint and purpose. */
  function Existing(log: seq<Event>, key: Key): Option<Recovery> {
    if |log| == 0 then None
    else if KeyOf(log[|log| - 1].rec) == key then Some(log[|log| - 1].rec)
    else Existing(log[..|log| - 1], key)
  }

  function Stamped(next: Recovery, existing: Option<Recovery>, now: int): Recovery {
    next.(created := if existing.Some? then existing.value.created else now, updated := now)
  }

  function Apply(log: seq<Event>, next: Recovery, now: int, sequence: Sequence): Applied {
    if !Valid(next) || !sequence.before then Applied(log, Failed)
    else
      var existing := Existing(log, KeyOf(next));
      if next.signature != "" &&
        (existing.None? || next.candidate != existing.value.candidate || next.proof != existing.value.proof)
      then Applied(log, Failed)
      else match DecideReplay(existing, next)
        case Refuse => Applied(log, Failed)
        case Allow(action) =>
          if existing.Some? && (action == Replay ||
            (existing.value.signature == "" && next.signature == "" && existing.value.sighash == next.sighash))
          then Applied(log, if sequence.after then Done(action, existing.value) else Failed)
          else if LastId(log) == MAX_I64 then Applied(log, Failed)
          else
            var rec := Stamped(next, existing, now);
            Applied(log + [Event(LastId(log) + 1, rec)], if sequence.after then Done(action, rec) else Failed)
  }

  /** The journal as the ledger holds it. */
  class SavingsLedger {
    var log: seq<Event>

    constructor ()
      ensures log == []
    {
      log := [];
    }

    /** The scan of every row: the newest record of a key and the last id, unless the ids do
        not increase. */
    method ScanRows(key: Key) returns (ordered: bool, existing: Option<Recovery>, lastId: int)
      requires forall i :: 0 <= i < |log| ==> log[i].id <= MAX_I64
      ensures ordered <==> IdsIncrease(log)
      ensures ordered ==> existing == Existing(log, key) && lastId == LastId(log)
    {
      existing, lastId := None, 0;
      for i := 0 to |log|
        invariant IdsIncrease(log[..i])
        invariant existing == Existing(log[..i], key) && lastId == LastId(log[..i])
      {
        assert log[..i + 1][..i] == log[..i];
        var event := log[i];
        if event.id <= lastId {
          NotIncreasing(log, i);
          return false, None, 0;
        }
        lastId := event.id;
        if KeyOf(event.rec) == key {
          existing := Some(event.rec);
        }
      }
      assert log[..|log|] == log;
      ordered := true;
    }

    /** ApplyLedgerSavingsRecovery: scan every row, decide, append at most one event. The
        event is committed before the sequence is advanced, so a failed advance leaves it.
        A log whose ids do not increase is refused and left alone. */
    method ApplyLedgerSavingsRecovery(next: Recovery, now: int, sequence: Sequence) returns (answer: Answer)
      requires forall i :: 0 <= i < |log| ==> log[i].id <= MAX_I64
      modifies this
      ensures !IdsIncrease(old(log)) ==> log == old(log) && answer == Failed
      ensures IdsIncrease(old(log)) ==> log == Apply(old(log), next, now, sequence).log
      ensures IdsIncrease(old(log)) ==> answer == Apply(old(log), next, now, sequence).answer
    {
      if !Valid(next) || !sequence.before {
        return Failed;
      }
      var ordered, existing, lastId := ScanRows(KeyOf(next));
      if !ordered {
        return Failed;
      }
      if next.signature != "" &&
        (existing.None? || next.candidate != existing.value.candidate || next.proof != existing.value.proof) {
        return Failed;
      }
      var decision := DecideReplay(existing, next);
      if decision.Refuse? {
        return Failed;
      }
      if existing.Some? && (decision.action == Replay ||
        (existing.value.signature == "" && next.signature == "" && existing.value.sighash == next.sighash)) {
        return if sequence.after then Done(decision.action, existing.value) else Failed;
      }
      if lastId == MAX_I64 {
        return Failed;
      }
      var rec := Stamped(next, existing, now);
      log := log + [Event(lastId + 1, rec)];
      return if sequence.after then Done(decision.action, rec) else Failed;
    }
  }

  // ----- what every reachable log looks like

  ghost predicate IdsIncrease(log: seq<Event>) {
    && (forall i :: 0 <= i < |log| ==> 0 < log[i].id <= MAX_I64)
    && forall i, j :: 0 <= i < j < |log| ==> log[i].id < log[j].id
  }

  lemma NotIncreasing(log: seq<Event>, i: nat)
    requires i < |log| && log[i].id <= LastId(log[..i])
    ensures !IdsIncrease(log)
  {
    if i > 0 { assert log[..i][i - 1] == log[i - 1]; }
  }

  /** The records for one key, oldest first. */
  ghost function History(log: seq<Event>, key: Key): seq<Recovery> {
    if |log| == 0 then []
    else
      var front, last := History(log[..|log| - 1], key), log[|log| - 1].rec;
      if KeyOf(last) == key then front + [last] else front
  }

  /** `b` may directly follow `a` in the history of one key. */
  ghost predicate Follows(a: Recovery, b: Recovery) {
    && b.dest == a.dest && b.created == a.created
    && (a.signature == "" ==>
          b.signature != "" && b.sighash == a.sighash && b.candidate == a.candidate && b.proof == a.proof)
    && (a.signature != "" ==> b.signature == "" && b.sighash != a.sighash)
  }

  /** Reservation, completion, reservation, completion, ... as Follows links them. */
  ghost predicate Alternates(h: seq<Recovery>) {
    && (|h| > 0 ==> h[0].signature == "")
    && (forall i :: 0 <= i < |h| ==> Valid(h[i]))
    && forall i :: 0 <= i < |h| - 1 ==> Follows(h[i], h[i + 1])
  }

  ghost predicate WellFormed(log: seq<Event>) {
    IdsIncrease(log) && forall key :: Alternates(History(log, key))
  }

  lemma {:induction false} ExistingIsLast(log: seq<Event>, key: Key)
    ensures var h := History(log, key);
            Existing(log, key) == if |h| == 0 then None else Some(h[|h| - 1])
    ensures forall i :: 0 <= i < |History(log, key)| ==> KeyOf(History(log, key)[i]) == key
  {
    if |log| > 0 { ExistingIsLast(log[..|log| - 1], key); }
  }

  lemma HistoryOfAppend(log: seq<Event>, e: Event, key: Key)
    ensures History(log + [e], key) == if KeyOf(e.rec) == key then History(log, key) + [e.rec] else History(log, key)
  {
    assert (log + [e])[..|log|] == log;
  }

  /** The record Apply appends may follow the newest one of its key, or starts a history. */
  lemma AppendFollows(log: seq<Event>, next: Recovery, now: int, sequence: Sequence)
    requires WellFormed(log) && Apply(log, next, now, sequence).log != log
    ensures var existing := Existing(log, KeyOf(next));
            var rec := Stamped(next, existing, now);
            && Apply(log, next, now, sequence).log == log + [Event(LastId(log) + 1, rec)]
            && KeyOf(rec) == KeyOf(next) && Valid(rec) && LastId(log) < MAX_I64
            && (existing.None? ==> rec.signature == "")
            && (existing.Some? ==> Follows(existing.value, rec))
  {
    NormalIsIdentity(next.dest);
    NormalIsIdentity(next.txid);
  }

  // ----- what each request is answered

  /** The next free id, if there is one, and the record that gets it. */
  function Appended(log: seq<Event>, rec: Recovery, action: Action, sequence: Sequence): Applied {
    var last := if |log| == 0 then 0 else log[|log| - 1].id;
    if last == MAX_I64 then Applied(log, Failed)
    else Applied(log + [Event(last + 1, rec)], if sequence.after then Done(action, rec) else Failed)
  }

  function Answered(log: seq<Event>, rec: Recovery, action: Action, sequence: Sequence): Applied {
    Applied(log, if sequence.after then Done(action, rec) else Failed)
  }

  lemma AnswerToInvalid(log: seq<Event>, next: Recovery, now: int, sequence: Sequence)
    requires !Valid(next) || !sequence.before
    ensures Apply(log, next, now, sequence) == Applied(log, Failed)
  {
  }

  lemma DecideOnFirst(next: Recovery)
    requires Valid(next)
    ensures DecideReplay(None, next) == Allow(Sign)
  {
    NormalIsIdentity(next.dest);
    NormalIsIdentity(next.txid);
  }

  /** The decision on validated records of one key. */
  lemma DecideOnNewest(e: Recovery, next: Recovery)
    requires Valid(next) && Valid(e) && KeyOf(e) == KeyOf(next)
    ensures DecideReplay(Some(e), next)
         == if next.dest != e.dest then Refuse
            else if e.signature == "" then if next.sighash == e.sighash then Allow(Resign) else Refuse
            else if next.sighash == e.sighash then Allow(Replay)
            else if next.signature == "" then Allow(Resign) else Refuse
  {
    NormalIsIdentity(next.dest);
    NormalIsIdentity(next.txid);
  }

  lemma NewestIsExisting(log: seq<Event>, key: Key)
    requires WellFormed(log)
    ensures var (h, e) := (History(log, key), Existing(log, key));
            if |h| == 0 then e.None? else e == Some(h[|h| - 1]) && Valid(e.value) && KeyOf(e.value) == key
  {
    ExistingIsLast(log, key);
    assert Alternates(History(log, key));
  }

  /** The first request of a key is a reservation, stamped now; a completion is refused. */
  lemma AnswerToFirst(log: seq<Event>, next: Recovery, now: int, sequence: Sequence)
    requires WellFormed(log) && Valid(next) && sequence.before && History(log, KeyOf(next)) == []
    ensures Apply(log, next, now, sequence)
         == if next.signature == "" then Appended(log, next.(created := now, updated := now), Sign, sequence) else Applied(log, Failed)
  {
    NewestIsExisting(log, KeyOf(next));
    DecideOnFirst(next);
  }

  lemma AnswerToReserved(log: seq<Event>, next: Recovery, now: int, sequence: Sequence, newest: Recovery)
    requires Valid(next) && sequence.before && Existing(log, KeyOf(next)) == Some(newest)
    requires Valid(newest) && KeyOf(newest) == KeyOf(next) && newest.signature == ""
    ensures Apply(log, next, now, sequence)
         == if next.dest != newest.dest || next.sighash != newest.sighash then Applied(log, Failed)
            else if next.signature == "" then Answered(log, newest, Resign, sequence)
            else if next.candidate != newest.candidate || next.proof != newest.proof then Applied(log, Failed)
            else Appended(log, next.(created := newest.created, updated := now), Resign, sequence)
  {
    DecideOnNewest(newest, next);
  }

  lemma AnswerToCompleted(log: seq<Event>, next: Recovery, now: int, sequence: Sequence, newest: Recovery)
    requires Valid(next) && sequence.before && Existing(log, KeyOf(next)) == Some(newest)
    requires Valid(newest) && KeyOf(newest) == KeyOf(next) && newest.signature != ""
    ensures Apply(log, next, now, sequence)
         == if next.dest != newest.dest then Applied(log, Failed)
            else if next.signature != "" && (next.candidate != newest.candidate || next.proof != newest.proof) then Applied(log, Failed)
            else if next.sighash == newest.sighash then Answered(log, newest, Replay, sequence)
            else if next.signature != "" then Applied(log, Failed)
            else Appended(log, next.(created := newest.created, updated := now), Resign, sequence)
  {
    DecideOnNewest(newest, next);
  }

  /** While the newest record is a reservation, only its own sighash and destination go on:
      the request again is answered with the reservation as it is stored, and a completion
      of its candidate and proof is recorded. */
  lemma AnswerAfterReservation(log: seq<Event>, next: Recovery, now: int, sequence: Sequence, newest: Recovery)
    requires WellFormed(log) && Valid(next) && sequence.before
    requires var h := History(log, KeyOf(next)); |h| > 0 && h[|h| - 1] == newest && newest.signature == ""
    ensures Apply(log, next, now, sequence)
         == if next.dest != newest.dest || next.sighash != newest.sighash then Applied(log, Failed)
            else if next.signature == "" then Answered(log, newest, Resign, sequence)
            else if next.candidate != newest.candidate || next.proof != newest.proof then Applied(log, Failed)
            else Appended(log, next.(created := newest.created, updated := now), Resign, sequence)
  {
    NewestIsExisting(log, KeyOf(next));
    AnswerToReserved(log, next, now, sequence, newest);
  }

  /** After a completion the same sighash is answered with it and nothing is written; another
      sighash is a new reservation; another completion is refused. */
  lemma AnswerAfterCompletion(log: seq<Event>, next: Recovery, now: int, sequence: Sequence, newest: Recovery)
    requires WellFormed(log) && Valid(next) && sequence.before
    requires var h := History(log, KeyOf(next)); |h| > 0 && h[|h| - 1] == newest && newest.signature != ""
    ensures Apply(log, next, now, sequence)
         == if next.dest != newest.dest then Applied(log, Failed)
            else if next.signature != "" && (next.candidate != newest.candidate || next.proof != newest.proof) then Applied(log, Failed)
            else if next.sighash == newest.sighash then Answered(log, newest, Replay, sequence)
            else if next.signature != "" then Applied(log, Failed)
            else Appended(log, next.(created := newest.created, updated := now), Resign, sequence)
  {
    NewestIsExisting(log, KeyOf(next));
    AnswerToCompleted(log, next, now, sequence, newest);
  }

  lemma ExtendAlternates(h: seq<Recovery>, rec: Recovery)
    requires Alternates(h) && Valid(rec)
    requires if |h| == 0 then rec.signature == "" else Follows(h[|h| - 1], rec)
    ensures Alternates(h + [rec])
  {
    var g := h + [rec];
    forall i | 0 <= i < |g| - 1 ensures Follows(g[i], g[i + 1]) {
      if i < |h| - 1 { assert g[i] == h[i] && g[i + 1] == h[i + 1]; }
    }
  }

  lemma AppendKeepsIds(log: seq<Event>, rec: Recovery)
    requires IdsIncrease(log) && LastId(log) < MAX_I64
    ensures IdsIncrease(log + [Event(LastId(log) + 1, rec)])
  {
  }

  lemma AppendKeepsAlternation(log: seq<Event>, e: Event, key: Key)
    requires Alternates(History(log, key)) && Valid(e.rec)
    requires var existing := Existing(log, KeyOf(e.rec));
             if existing.None? then e.rec.signature == "" else Follows(existing.value, e.rec)
    ensures Alternates(History(log + [e], key))
  {
    HistoryOfAppend(log, e, key);
    if KeyOf(e.rec) == key {
      ExistingIsLast(log, key);
      ExtendAlternates(History(log, key), e.rec);
    }
  }

  /** Every request keeps the journal well formed. */
  lemma {:induction false} ApplyKeepsWellFormed(log: seq<Event>, next: Recovery, now: int, sequence: Sequence)
    requires WellFormed(log)
    ensures WellFormed(Apply(log, next, now, sequence).log)
    ensures log <= Apply(log, next, now, sequence).log
  {
    if Apply(log, next, now, sequence).log != log {
      AppendFollows(log, next, now, sequence);
      var rec := Stamped(next, Existing(log, KeyOf(next)), now);
      var e := Event(LastId(log) + 1, rec);
      var log' := log + [e];
      AppendKeepsIds(log, rec);
      forall key ensures Alternates(History(log', key)) {
        AppendKeepsAlternation(log, e, key);
      }
    }
  }

  ghost predicate Init(log: seq<Event>) { log == [] }

  ghost predicate Next(log: seq<Event>, log': seq<Event>) {
    exists next, now, sequence :: log' == Apply(log, next, now, sequence).log
  }

  ghost predicate Extends(log: seq<Event>, log': seq<Event>) { log <= log' }

  lemma WellFormedIsInductive()
    ensures Runs.Inductive(Init, Next, WellFormed)
    ensures Runs.KeptByStep(Next, WellFormed, Extends)
  {
    forall log, log' | WellFormed(log) && Next(log, log') ensures WellFormed(log') && Extends(log, log') {
      var next, now, sequence :| log' == Apply(log, next, now, sequence).log;
      ApplyKeepsWellFormed(log, next, now, sequence);
    }
  }

  // ----- main results

  /** In every reachable log the records of one key strictly alternate, reservation first;
      each completion carries its reservation's sighash, candidate and proof; each later
      reservation differs from the completion before it; all share one destination. */
  lemma ReachableLogAlternates(run: seq<seq<Event>>, k: nat, key: Key, i: nat)
    requires Runs.IsRun(Init, Next, run) && k < |run| && i < |History(run[k], key)|
    ensures var h := History(run[k], key);
            && (h[i].signature == "" <==> i % 2 == 0)
            && h[i].dest == h[0].dest && KeyOf(h[i]) == key
            && (i % 2 == 1 ==> h[i].sighash == h[i - 1].sighash && h[i].candidate == h[i - 1].candidate && h[i].proof == h[i - 1].proof)
            && (i % 2 == 0 && i > 0 ==> h[i].sighash != h[i - 1].sighash)
  {
    WellFormedIsInductive();
    Runs.InvariantHolds(Init, Next, WellFormed, run, k);
    ExistingIsLast(run[k], key);
    AlternatesByParity(History(run[k], key), i);
  }

  lemma {:induction false} AlternatesByParity(h: seq<Recovery>, i: nat)
    requires Alternates(h) && i < |h|
    ensures h[i].signature == "" <==> i % 2 == 0
    ensures h[i].dest == h[0].dest
    ensures i > 0 ==> Follows(h[i - 1], h[i])
  {
    if i > 0 {
      AlternatesByParity(h, i - 1);
      assert Follows(h[i - 1], h[i - 1 + 1]);
    }
  }

  /** Ids strictly increase and no event is ever rewritten or removed. */
  lemma ReachableLogGrows(run: seq<seq<Event>>, i: nat, j: nat)
    requires Runs.IsRun(Init, Next, run) && i <= j < |run|
    ensures IdsIncrease(run[j]) && run[i] <= run[j]
  {
    WellFormedIsInductive();
    Runs.InvariantHolds(Init, Next, WellFormed, run, j);
    Runs.RelationHolds(Init, Next, WellFormed, Extends, run, i, j);
  }

  lemma {:induction false} RecordInHistory(log: seq<Event>, i: nat)
    requires i < |log|
    ensures log[i].rec in History(log, KeyOf(log[i].rec))
  {
    if i < |log| - 1 {
      var front := log[..|log| - 1];
      RecordInHistory(front, i);
      assert front[i] == log[i];
    }
  }

  /** What a record has to look like: a known purpose, a vault, an outpoint, a destination of 34
      bytes and a sighash of 32 in lower-case hex, and bounded candidate, signature and proof. */
  ghost predicate WellShaped(r: Recovery) {
    && r.purpose in {"initiate", "clawback"} && r.vault != "" && ValidTxid(r.txid) && 0 <= r.vout < 0x1_0000_0000
    && |r.dest| == 2 * 34 && |r.sighash| == 2 * 32
    && (forall j :: 0 <= j < |r.dest| ==> LowerHex(r.dest[j])) && (forall j :: 0 <= j < |r.sighash| ==> LowerHex(r.sighash[j]))
    && r.candidate != "" && |r.candidate| <= 128 * 1024 && |r.signature| <= 128 * 1024 && |r.proof| in {0, 64}
  }

  lemma ValidIffWellShaped(r: Recovery)
    ensures Valid(r) <==> WellShaped(r)
  {
    assert ValidTxid(r.txid) <==> |r.txid| == 64 && CanonicalHex(r.txid);
  }

  /** Every record of a reachable log is well shaped. */
  lemma ReachableRecordsAreValid(run: seq<seq<Event>>, k: nat, i: nat)
    requires Runs.IsRun(Init, Next, run) && k < |run| && i < |run[k]|
    ensures WellShaped(run[k][i].rec)
  {
    ValidIffWellShaped(run[k][i].rec);
    WellFormedIsInductive();
    Runs.InvariantHolds(Init, Next, WellFormed, run, k);
    RecordInHistory(run[k], i);
    assert Alternates(History(run[k], KeyOf(run[k][i].rec)));
  }
}
