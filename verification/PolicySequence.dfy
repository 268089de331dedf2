/** The policy ledger and its sequence number kept outside the database.

    Economic rows are only appended. Two kinds of writer exist: the recovery journal
    commits its event and then observes the new count, every other writer observes the
    new count inside its transaction and then commits. Either may fail or crash at any
    point. While the service is down an operator may restore any earlier state of the
    database's history; the external counter is not restored with it. */
module PolicySequence {
  import opened Basics
  import Runs

  type Row = string

  // ----- the counter file

  /** How the replacement of the file ends: not renamed, renamed but the directory not
      synced (an error although the file changed), or synced. */
  datatype Fate = Lost | Unsynced | Synced

  datatype Observed = Observed(file: Option<nat>, ok: bool)

  function Write(file: Option<nat>, n: nat, fate: Fate): Observed {
    match fate
    case Lost => Observed(file, false)
    case Unsynced => Observed(Some(n), false)
    case Synced => Observed(Some(n), true)
  }

  function Observe(file: Option<nat>, n: nat, fate: Fate): Observed {
    match file
    case None => if n != 0 then Observed(file, false) else Write(file, 0, fate)
    case Some(c) =>
      if n < c then Observed(file, false)
      else if n == c then Observed(file, true)
      else Write(file, n, fate)
  }

  class Monotonic {
    var file: Option<nat>

    constructor (present: Option<nat>)
      ensures file == present
    {
      file := present;
    }

    /** The file never goes back, and a count below it is refused without a write. */
    method ObserveCount(n: nat, fate: Fate) returns (ok: bool)
      modifies this
      ensures Observed(file, ok) == Observe(old(file), n, fate)
      ensures old(file).Some? ==> file.Some? && old(file).value <= file.value
      ensures ok ==> file == Some(n)
    {
      if file.None? {
        if n != 0 {
          return false;
        }
      } else if n < file.value {
        return false;
      } else if n == file.value {
        return true;
      }
      if fate == Lost {
        return false;
      }
      file := Some(n);
      return fate == Synced;
    }
  }

  // ----- the sequence

  /** currentEconomicSequence: base plus rows, refused when it leaves 64 bits. */
  function Sequence(base: nat, rows: nat): (r: Option<nat>)
    ensures base <= MAX_I64 && rows <= MAX_I64 ==> r == Some(base + rows)
    ensures r.Some? ==> r.value == base + rows <= MAX_U64
  {
    if base > MAX_U64 || rows > MAX_U64 - base then None else Some(base + rows)
  }

  function ObserveRows(base: nat, file: Option<nat>, rows: nat, fate: Fate): Observed {
    var n := Sequence(base, rows);
    if n.None? then Observed(file, false) else Observe(file, n.value, fate)
  }

  // ----- the system

  /** `history` is the line of database states an operator can restore from, `db` the
      state the service has, `reported` what the database held when success was last
      reported to a caller. */
  datatype State = State(base: nat, db: seq<Row>, history: seq<Row>, file: Option<nat>, up: bool, reported: seq<Row>)

  datatype Verdict = Reject | Replay | Append(row: Row)

  datatype Step =
    | Attach(fate: Fate)
    | Recovery(verdict: Verdict, first: Fate, commit: Commit, crash: bool, second: Fate)
    | Economic(rows: seq<Row>, fate: Fate, commit: Commit)
    | Crash
    | Restore(k: nat)

  predicate Enabled(s: State, step: Step) {
    match step
    case Attach(_) => !s.up
    case Recovery(_, _, _, _, _) => s.up
    case Economic(_, _, _) => s.up
    case Crash => true
    case Restore(k) => !s.up && k <= |s.history|
  }

  function Grown(s: State, rows: seq<Row>): State { s.(db := s.db + rows, history := s.db + rows) }

  function Reported(s: State): State { s.(reported := s.db) }

  datatype Outcome = Outcome(state: State, success: bool)

  function Observing(s: State, fate: Fate): Outcome {
    var o := ObserveRows(s.base, s.file, |s.db|, fate);
    Outcome(s.(file := o.file), o.ok)
  }

  /** ApplyLedgerSavingsRecovery: observe, decide, commit, observe again. */
  function DoRecovery(s: State, verdict: Verdict, first: Fate, commit: Commit, crash: bool, second: Fate): Outcome {
    var o := Observing(s, first);
    if !o.success || verdict.Reject? then Outcome(o.state, false)
    else if verdict.Replay? then Observing(o.state, second)
    else if commit == Refused then Outcome(o.state, false)
    else
      var grown := Grown(o.state, [verdict.row]);
      if crash then Outcome(grown.(up := false), false)
      else if commit == Unacknowledged then Outcome(grown, false)
      else Observing(grown, second)
  }

  /** The other writers: observe the count the transaction would leave, then commit. */
  function DoEconomic(s: State, rows: seq<Row>, fate: Fate, commit: Commit): Outcome {
    var o := ObserveRows(s.base, s.file, |s.db| + |rows|, fate);
    var seen := s.(file := o.file);
    if !o.ok || commit == Refused then Outcome(seen, false)
    else Outcome(Grown(seen, rows), commit == Committed)
  }

  function Do(s: State, step: Step): Outcome {
    match step
    case Attach(fate) => var o := Observing(s, fate); Outcome(o.state.(up := o.success), false)
    case Recovery(verdict, first, commit, crash, second) =>
      var o := DoRecovery(s, verdict, first, commit, crash, second);
      if o.success then Outcome(Reported(o.state), true) else o
    case Economic(rows, fate, commit) =>
      var o := DoEconomic(s, rows, fate, commit);
      if o.success then Outcome(Reported(o.state), true) else o
    case Crash => Outcome(s.(up := false), false)
    case Restore(k) => Outcome(s.(db := s.history[..if k <= |s.history| then k else 0]), false)
  }

  // ----- what every step keeps

  /** The counter is at least the sequence of what was reported. */
  ghost predicate Covers(s: State) {
    |s.reported| > 0 ==> s.file.Some? && s.base + |s.reported| <= s.file.value
  }

  ghost predicate Inv(s: State) {
    && s.db <= s.history && s.reported <= s.history
    && Covers(s)
    && (s.up ==> s.reported <= s.db)
  }

  ghost predicate Init(s: State) {
    && !s.up && s.history == s.db && s.reported == []
    && (s.file.Some? ==> s.file.value <= s.base + |s.db|)
  }

  ghost predicate Next(s: State, s': State) { exists step :: Enabled(s, step) && s' == Do(s, step).state }

  ghost predicate Keeps(s: State, s': State) { s.reported <= s'.reported && s.base == s'.base }

  /** The file never goes back under any step. */
  lemma ObserveAdvances(base: nat, file: Option<nat>, rows: nat, fate: Fate)
    ensures var o := ObserveRows(base, file, rows, fate);
            && (file.Some? ==> o.file.Some? && file.value <= o.file.value)
            && (o.ok ==> o.file == Some(base + rows))
            && (o.ok && file.Some? ==> file.value <= base + rows)
  {
  }

  lemma PrefixByLength(a: seq<Row>, b: seq<Row>, c: seq<Row>)
    requires a <= c && b <= c && |a| <= |b|
    ensures a <= b
  {
  }

  lemma ObservingKeepsInv(s: State, fate: Fate)
    requires Inv(s)
    ensures var o := Observing(s, fate);
            && Inv(o.state) && o.state == s.(file := o.state.file)
            && (o.success ==> o.state.file == Some(s.base + |s.db|) && s.reported <= s.db)
  {
    ObserveAdvances(s.base, s.file, |s.db|, fate);
    if Observing(s, fate).success { PrefixByLength(s.reported, s.db, s.history); }
  }

  ghost predicate GoodOutcome(s: State, o: Outcome) {
    && Inv(o.state) && o.state.base == s.base && o.state.reported == s.reported
    && (o.success ==> o.state.up && s.reported <= o.state.db && o.state.file == Some(s.base + |o.state.db|))
  }

  lemma RecoveryOutcome(s: State, verdict: Verdict, first: Fate, commit: Commit, crash: bool, second: Fate)
    requires Inv(s) && s.up
    ensures GoodOutcome(s, DoRecovery(s, verdict, first, commit, crash, second))
  {
    ObservingKeepsInv(s, first);
    var o := Observing(s, first);
    if o.success && verdict.Replay? { ObservingKeepsInv(o.state, second); }
    if o.success && verdict.Append? { ObservingKeepsInv(Grown(o.state, [verdict.row]), second); }
  }

  lemma EconomicOutcome(s: State, rows: seq<Row>, fate: Fate, commit: Commit)
    requires Inv(s) && s.up
    ensures GoodOutcome(s, DoEconomic(s, rows, fate, commit))
  {
    ObserveAdvances(s.base, s.file, |s.db| + |rows|, fate);
  }

  lemma StepKeepsInv(s: State, step: Step)
    requires Inv(s) && Enabled(s, step)
    ensures Inv(Do(s, step).state) && Keeps(s, Do(s, step).state)
    ensures Do(s, step).success ==>
              var s' := Do(s, step).state; s'.up && s'.reported == s'.db && s'.file == Some(s'.base + |s'.db|)
  {
    match step
    case Attach(fate) => ObservingKeepsInv(s, fate);
    case Recovery(verdict, first, commit, crash, second) =>
      RecoveryOutcome(s, verdict, first, commit, crash, second);
    case Economic(rows, fate, commit) => EconomicOutcome(s, rows, fate, commit);
    case Crash =>
    case Restore(k) =>
  }

  lemma InvIsInductive()
    ensures Runs.Inductive(Init, Next, Inv)
    ensures Runs.KeptByStep(Next, Inv, Keeps)
  {
    forall s, s' | Inv(s) && Next(s, s') ensures Inv(s') && Keeps(s, s') {
      var step :| Enabled(s, step) && s' == Do(s, step).state;
      StepKeepsInv(s, step);
    }
  }

  // ----- main results

  /** Whenever the service is up, its database still begins with everything the database
      held at any earlier moment when success was reported: no restore, crash or failed
      write in between has lost a reported event. */
  lemma ReportedIsNeverLost(run: seq<State>, i: nat, j: nat)
    requires Runs.IsRun(Init, Next, run) && i <= j < |run| && run[j].up
    ensures run[i].reported <= run[j].db
  {
    InvIsInductive();
    Runs.InvariantHolds(Init, Next, Inv, run, j);
    Runs.RelationHolds(Init, Next, Inv, Keeps, run, i, j);
  }

  /** When any write reports success the counter equals the sequence of the database. */
  lemma SuccessMeansEqual(run: seq<State>, k: nat, step: Step)
    requires Runs.IsRun(Init, Next, run) && k < |run| && Enabled(run[k], step) && Do(run[k], step).success
    ensures var s := Do(run[k], step).state; s.file == Some(s.base + |s.db|) && s.reported == s.db
  {
    InvIsInductive();
    Runs.InvariantHolds(Init, Next, Inv, run, k);
    StepKeepsInv(run[k], step);
  }

  /** Attaching to a restored database succeeds exactly when its sequence has not fallen
      below the counter; so a restore that would lose a reported event is refused. */
  lemma RestoreDecidedByCounter(run: seq<State>, j: nat, k: nat)
    requires Runs.IsRun(Init, Next, run) && j < |run| && !run[j].up && k <= |run[j].history|
    ensures var s := Do(run[j], Restore(k)).state;
            && (Do(s, Attach(Synced)).state.up <==>
                  && s.base + k <= MAX_U64
                  && if s.file.Some? then s.file.value <= s.base + k else s.base + k == 0)
            && forall i, fate :: 0 <= i <= j && k < |run[i].reported| ==> !Do(s, Attach(fate)).state.up
  {
    InvIsInductive();
    Runs.InvariantHolds(Init, Next, Inv, run, j);
    var s := Do(run[j], Restore(k)).state;
    forall i, fate | 0 <= i <= j && k < |run[i].reported| ensures !Do(s, Attach(fate)).state.up {
      Runs.RelationHolds(Init, Next, Inv, Keeps, run, i, j);
    }
  }

  /** Any database at all may be put in place of the stored one while the service is down.
      Attaching accepts it by its length alone. An accepted one is at least as long as what
      was reported, and it loses a reported event if and only if it differs from the current
      history somewhere within what was reported. */
  lemma ReplacementDecidedByCounter(run: seq<State>, i: nat, j: nat, db: seq<Row>)
    requires Runs.IsRun(Init, Next, run) && i <= j < |run| && !run[j].up
    ensures run[i].reported <= run[j].history
    ensures var s := run[j].(db := db);
            && (Do(s, Attach(Synced)).state.up <==>
                  && s.base + |db| <= MAX_U64
                  && if s.file.Some? then s.file.value <= s.base + |db| else s.base + |db| == 0)
            && forall fate :: Do(s, Attach(fate)).state.up ==>
                 && |run[i].reported| <= |db|
                 && (run[i].reported <= db <==> forall k :: 0 <= k < |run[i].reported| ==> db[k] == run[j].history[k])
  {
    InvIsInductive();
    Runs.InvariantHolds(Init, Next, Inv, run, j);
    Runs.RelationHolds(Init, Next, Inv, Keeps, run, i, j);
    var s, was := run[j].(db := db), run[i].reported;
    assert was <= run[j].history;
    forall fate | Do(s, Attach(fate)).state.up
      ensures |was| <= |db|
      ensures was <= db <==> forall k :: 0 <= k < |was| ==> db[k] == run[j].history[k]
    {
      ObserveAdvances(s.base, s.file, |db|, fate);
    }
  }

  /** Only states of the current history are told apart by the counter: a backup of a line
      that was itself abandoned by an earlier accepted restore has the right length, is
      accepted, and loses an event whose success was reported. */
  lemma AbandonedBackupIsAccepted(a: Row, b: Row)
    requires a != b
    ensures var crashed := Do(State(0, [], [], Some(0), true, []), Recovery(Append(a), Synced, Committed, true, Synced)).state;
            var restored := Do(Do(crashed, Restore(0)).state, Attach(Synced)).state;
            var written := Do(restored, Recovery(Append(b), Synced, Committed, false, Synced));
            var abandoned := written.state.(up := false, db := crashed.db);
            && restored.up && written.success && written.state.reported == [b]
            && Do(abandoned, Attach(Synced)).state.up && !(written.state.reported <= abandoned.db)
  {
    var crashed := Do(State(0, [], [], Some(0), true, []), Recovery(Append(a), Synced, Committed, true, Synced)).state;
    assert crashed == State(0, [a], [a], Some(0), false, []);
    var restored := Do(Do(crashed, Restore(0)).state, Attach(Synced)).state;
    assert restored == State(0, [], [a], Some(0), true, []);
    var written := Do(restored, Recovery(Append(b), Synced, Committed, false, Synced));
    assert written.state == State(0, [b], [b], Some(1), true, [b]);
    assert [b][0] != [a][0];
  }

  // ----- when the counter runs ahead of the database

  predicate Ahead(s: State) { s.file.Some? && s.file.value > s.base + |s.db| }

  /** The one write that puts the counter ahead of the database it has: an observe-first
      write with rows whose count reached the file while its commit did not happen. */
  predicate Overshoots(s: State, step: Step) {
    && step.Economic? && |step.rows| > 0 && s.file.Some? && s.base + |s.db| + |step.rows| <= MAX_U64
    && (step.fate == Unsynced || (step.fate == Synced && step.commit == Refused))
  }

  lemma RecoveryNeverOvershoots(s: State, verdict: Verdict, first: Fate, commit: Commit, crash: bool, second: Fate)
    requires !Ahead(s)
    ensures !Ahead(DoRecovery(s, verdict, first, commit, crash, second).state)
  {
    var file := Observing(s, first).state.file;
    ObserveAdvances(s.base, s.file, |s.db|, first);
    ObserveAdvances(s.base, file, |s.db|, second);
    ObserveAdvances(s.base, file, |s.db| + 1, second);
  }

  /** The other one is a restore to before the counter. */
  predicate RestoresBelow(s: State, step: Step) { step.Restore? && s.file.Some? && s.file.value > s.base + step.k }

  lemma AheadExactlyByOvershoot(s: State, step: Step)
    requires Enabled(s, step) && !Ahead(s)
    ensures Ahead(Do(s, step).state) <==> Overshoots(s, step) || RestoresBelow(s, step)
  {
    match step
    case Attach(fate) =>
    case Recovery(verdict, first, commit, crash, second) =>
      RecoveryNeverOvershoots(s, verdict, first, commit, crash, second);
    case Economic(rows, fate, commit) => ObserveAdvances(s.base, s.file, |s.db| + |rows|, fate);
    case Crash =>
    case Restore(k) =>
  }

  /** A run that gets there: the service attaches to an empty ledger and the commit of its
      first write is refused after the count was observed. */
  lemma OvershootRun(a: Row) returns (run: seq<State>)
    ensures Runs.IsRun(Init, Next, run) && Ahead(run[|run| - 1]) && run[|run| - 1].up
  {
    var start := State(0, [], [], Some(0), false, []);
    var first, second := Attach(Synced), Economic([a], Synced, Refused);
    var attached := Do(start, first).state;
    run := [start, attached, Do(attached, second).state];
    assert Enabled(start, first) && Enabled(attached, second);
    assert Next(run[0], run[1]) && Next(run[1], run[2]);
  }

  /** A counter that is ahead fails closed: the service neither attaches nor writes a
      recovery event. */
  lemma AheadFailsClosed(s: State, step: Step)
    requires Ahead(s) && (step.Attach? || step.Recovery?)
    ensures !Do(s, step).success && Do(s, step).state.db == s.db && Do(s, step).state.file == s.file
    ensures step.Attach? ==> !Do(s, step).state.up
  {
  }

  ghost predicate OnHistory(s: State) {
    && s.db <= s.history
    && (s.file.Some? ==> s.file.value <= s.base + |s.history|)
    && (s.up ==> !Ahead(s))
  }

  ghost predicate NextWithoutOvershoot(s: State, s': State) {
    exists step :: Enabled(s, step) && !Overshoots(s, step) && s' == Do(s, step).state
  }

  lemma RecoveryStaysOnHistory(s: State, verdict: Verdict, first: Fate, commit: Commit, crash: bool, second: Fate)
    requires OnHistory(s) && s.up
    ensures OnHistory(DoRecovery(s, verdict, first, commit, crash, second).state)
  {
    RecoveryNeverOvershoots(s, verdict, first, commit, crash, second);
    ObserveAdvances(s.base, s.file, |s.db|, first);
  }

  lemma WithoutOvershootStep(s: State, step: Step)
    requires OnHistory(s) && Enabled(s, step) && !Overshoots(s, step)
    ensures OnHistory(Do(s, step).state)
  {
    match step
    case Attach(fate) => ObserveAdvances(s.base, s.file, |s.db|, fate);
    case Recovery(verdict, first, commit, crash, second) =>
      RecoveryStaysOnHistory(s, verdict, first, commit, crash, second);
    case Economic(rows, fate, commit) =>
      AheadExactlyByOvershoot(s, step);
      ObserveAdvances(s.base, s.file, |s.db| + |rows|, fate);
    case Crash =>
    case Restore(k) =>
  }

  /** In every run of recovery writes, and of other writes whose commit follows their
      observation, the counter never exceeds the sequence of the current history, nor
      that of the database whenever the service is up. */
  lemma CounterStaysOnHistory(run: seq<State>, k: nat)
    requires Runs.IsRun(Init, NextWithoutOvershoot, run) && k < |run|
    ensures var s := run[k];
            && (s.file.Some? ==> s.file.value <= s.base + |s.history|)
            && (s.file.Some? && s.up ==> s.file.value <= s.base + |s.db|)
  {
    forall s, s' | OnHistory(s) && NextWithoutOvershoot(s, s') ensures OnHistory(s') {
      var step :| Enabled(s, step) && !Overshoots(s, step) && s' == Do(s, step).state;
      WithoutOvershootStep(s, step);
    }
    Runs.InvariantHolds(Init, NextWithoutOvershoot, OnHistory, run, k);
  }

  // ----- what each call reports and leaves

  /** A count is accepted and written exactly so: at the counter it is accepted as it is, above
      it once the file is replaced and synced, below it never; without a file only zero starts
      one. A file that was renamed but not synced has changed although the call fails. */
  lemma ObservedExactly(base: nat, file: Option<nat>, rows: nat, fate: Fate)
    ensures var (o, n) := (ObserveRows(base, file, rows, fate), base + rows);
            var start, above := file.None? && n == 0, file.Some? && file.value < n;
            if n > MAX_U64 then o == Observed(file, false)
            else && (o.ok <==> (file.Some? && file.value == n) || ((start || above) && fate == Synced))
                 && o.file == if (start || above) && fate != Lost then Some(n) else file
  {
  }

  /** A write that observes first reports success exactly when the new count was accepted and
      the commit was acknowledged; its rows are there exactly when the count was accepted and
      the commit took effect. */
  lemma EconomicExactly(s: State, rows: seq<Row>, fate: Fate, commit: Commit)
    ensures var o := ObserveRows(s.base, s.file, |s.db| + |rows|, fate);
            var r := Do(s, Economic(rows, fate, commit));
            && (r.success <==> o.ok && commit == Committed)
            && r.state.file == o.file && r.state.up == s.up && r.state.base == s.base
            && r.state.db == (if o.ok && commit != Refused then s.db + rows else s.db)
            && r.state.history == (if o.ok && commit != Refused then s.db + rows else s.history)
            && r.state.reported == if r.success then s.db + rows else s.reported
  {
  }

  /** A recovery write: refused or unconfirmed it reports failure; the event is there exactly
      when the count before it was accepted and its commit took effect; success is reported
      exactly when the count after it was accepted too, by a process that is still there. */
  lemma RecoveryExactly(s: State, verdict: Verdict, first: Fate, commit: Commit, crash: bool, second: Fate)
    ensures var before := ObserveRows(s.base, s.file, |s.db|, first);
            var r := Do(s, Recovery(verdict, first, commit, crash, second));
            var written := before.ok && verdict.Append? && commit != Refused;
            && r.state.base == s.base
            && r.state.db == (if written then s.db + [verdict.row] else s.db)
            && r.state.history == (if written then s.db + [verdict.row] else s.history)
            && r.state.up == (s.up && !(written && crash))
            && (r.success <==>
                  && before.ok
                  && match verdict
                     case Reject => false
                     case Replay => true
                     case Append(_) => commit == Committed && !crash && ObserveRows(s.base, before.file, |s.db| + 1, second).ok)
            && r.state.reported == (if r.success then r.state.db else s.reported)
            && (!written ==> r.state.file == before.file)
            && (written ==> r.state.file == if commit == Committed && !crash then ObserveRows(s.base, before.file, |s.db| + 1, second).file else before.file)
  {
    ObserveAdvances(s.base, s.file, |s.db|, first);
  }

  /** Attaching, crashing and restoring report nothing and change no more than they say. */
  lemma OthersExactly(s: State, step: Step)
    requires Enabled(s, step) && (step.Attach? || step.Crash? || step.Restore?)
    ensures !Do(s, step).success
    ensures match step
            case Attach(fate) =>
              var o := ObserveRows(s.base, s.file, |s.db|, fate); Do(s, step).state == s.(file := o.file, up := o.ok)
            case Restore(k) => Do(s, step).state == s.(db := s.history[..k])
            case _ => Do(s, step).state == s.(up := false)
  {
  }
}
