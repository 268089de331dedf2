/** Boarding attempts and the Operator calls they allow.

    An outbound call is allowed only to the caller whose store call created the durable
    dispatch row and learned of it. Callers run concurrently, crash anywhere, and a commit
    may take effect without its caller learning it. */
module BoardDispatch {
  import opened Basics
  import Runs
  import Ordering

  type OpId = string

  const MAX_ATTEMPT := 0xFFFF_FFFF

  datatype Phase = Register | Delete | Finalize

  datatype Key = Key(op: OpId, attempt: nat, phase: Phase)

  /** An authorized request: its digest, the tree session key of a register, and all other
      facts bound by it. */
  datatype Auth = Auth(digest: string, session: string, facts: string)

  datatype Outcome = Submitted | Released | Rejected

  datatype Submission = Submission(digest: string, outcome: Outcome, result: string)

  datatype Conflict = Conflict(op: OpId, attempt: nat, digest: string)

  /** The rows, with the number of register attempts of each operation. */
  datatype Store = Store(
    attempts: map<OpId, nat>, auths: map<Key, Auth>, dispatches: map<Key, string>,
    submissions: map<Key, Submission>, conflicts: set<Conflict>)

  function Attempts(s: Store, op: OpId): nat { if op in s.attempts then s.attempts[op] else 0 }

  predicate IsLatest(s: Store, key: Key) { key.attempt + 1 == Attempts(s, key.op) }

  /** The verdicts of chain checks, conflict checks and clocks at the time of a call. */
  datatype Verdicts = Verdicts(admitted: bool, quarantineOver: bool)

  // ----- starting an attempt

  /** requireVaultBoardAttemptCanRotate */
  predicate CanRotate(s: Store, op: OpId, a: nat, v: Verdicts) {
    var register, delete, final := Key(op, a, Register), Key(op, a, Delete), Key(op, a, Finalize);
    if final in s.auths then Conflict(op, a, s.auths[final].digest) in s.conflicts
    else if register !in s.dispatches then true
    else if register !in s.submissions then false
    else if s.submissions[register].outcome == Rejected then true
    else if delete in s.auths && delete in s.dispatches then
      delete in s.submissions && s.submissions[delete].outcome == Released && s.submissions[delete].digest == s.auths[delete].digest
    else s.submissions[register].outcome == Submitted && v.quarantineOver
  }

  /** requireVaultBoardAttemptCurrent */
  predicate IsCurrent(s: Store, op: OpId, a: nat) {
    && (Key(op, a, Register) in s.submissions ==> s.submissions[Key(op, a, Register)].outcome != Rejected)
    && Key(op, a, Finalize) !in s.auths && Key(op, a, Delete) !in s.auths && Key(op, a, Delete) !in s.submissions
  }

  predicate Reuses(s: Store, op: OpId, a: nat, request: Auth) {
    && Key(op, a, Register) in s.auths
    && (s.auths[Key(op, a, Register)].digest == request.digest || s.auths[Key(op, a, Register)].session == request.session)
  }

  datatype Begun = Begun(store: Store, attempt: Option<nat>)

  /** BeginVaultBoardAttempt: the exact latest request again, or a fresh one on a fresh attempt. */
  function Begin(s: Store, op: OpId, request: Auth, v: Verdicts): Begun {
    var n := Attempts(s, op);
    if !v.admitted then Begun(s, None)
    else if exists a :: 0 <= a < n - 1 && Reuses(s, op, a, request) then Begun(s, None)
    else if n > 0 && Reuses(s, op, n - 1, request) then
      if s.auths[Key(op, n - 1, Register)] == request && IsCurrent(s, op, n - 1) then Begun(s, Some(n - 1)) else Begun(s, None)
    else if n > MAX_ATTEMPT || (n > 0 && !CanRotate(s, op, n - 1, v)) then Begun(s, None)
    else Begun(s.(attempts := s.attempts[op := n + 1], auths := s.auths[Key(op, n, Register) := request]), Some(n))
  }

  // ----- crossing the boundary

  datatype Appended = Appended(store: Store, created: bool) | Failed

  /** AppendVaultBoardDispatch */
  function Dispatch(s: Store, key: Key, digest: string, v: Verdicts): Appended {
    if !v.admitted then Failed
    else if key in s.dispatches then if s.dispatches[key] == digest then Appended(s, false) else Failed
    else if key !in s.auths || s.auths[key].digest != digest || !IsLatest(s, key) || key in s.submissions then Failed
    else Appended(s.(dispatches := s.dispatches[key := digest]), true)
  }

  function Opposite(p: Phase): Phase { if p == Finalize then Delete else Finalize }

  /** validateVaultBoardPhaseOrder */
  predicate InOrder(s: Store, key: Key) {
    var register := Key(key.op, key.attempt, Register);
    && IsLatest(s, key) && register in s.auths
    && register in s.submissions && s.submissions[register].outcome == Submitted
    && Key(key.op, key.attempt, Opposite(key.phase)) !in s.auths
  }

  /** AppendVaultBoardAuthorizationAndDispatch */
  function AuthorizeAndDispatch(s: Store, key: Key, auth: Auth, v: Verdicts): Appended {
    if key.phase == Register || !v.admitted || !IsLatest(s, key) then Failed
    else if key in s.auths && s.auths[key] != auth then Failed
    else if key !in s.auths && !InOrder(s, key) then Failed
    else
      var authorized := s.(auths := s.auths[key := auth]);
      if key in s.dispatches then if s.dispatches[key] == auth.digest then Appended(authorized, false) else Failed
      else if key in s.submissions then Failed
      else Appended(authorized.(dispatches := s.dispatches[key := auth.digest]), true)
  }

  /** AppendVaultBoardSubmission: the new rows, or a refusal. */
  function Submit(s: Store, key: Key, rec: Submission, v: Verdicts): Appended {
    if !v.admitted then Failed
    else if key in s.submissions then if s.submissions[key] == rec then Appended(s, false) else Failed
    else if key !in s.auths || s.auths[key].digest != rec.digest then Failed
    else if key.phase == Finalize && (exists c :: c in s.conflicts && c.op == key.op && c.attempt == key.attempt) then Failed
    else if key !in s.dispatches || s.dispatches[key] != rec.digest then Failed
    else Appended(s.(submissions := s.submissions[key := rec]), true)
  }

  /** AppendVaultBoardConflict */
  function Invalidate(s: Store, c: Conflict, v: Verdicts): Store {
    var final := Key(c.op, c.attempt, Finalize);
    if !v.admitted || final !in s.auths || s.auths[final].digest != c.digest || !IsLatest(s, final) || final in s.submissions then s
    else s.(conflicts := s.conflicts + {c})
  }

  /** The board journal as the object it is; each method is one transaction. */
  class BoardJournal {
    var store: Store

    constructor ()
      ensures store == Store(map[], map[], map[], map[], {})
    {
      store := Store(map[], map[], map[], map[], {});
    }

    /** BeginVaultBoardAttempt: the earlier registers are scanned oldest first. */
    method BeginVaultBoardAttempt(op: OpId, request: Auth, v: Verdicts) returns (attempt: Option<nat>)
      modifies this
      ensures Begun(store, attempt) == Begin(old(store), op, request, v)
    {
      if !v.admitted {
        return None;
      }
      var n := Attempts(store, op);
      for a := 0 to n
        invariant store == old(store)
        invariant forall b :: 0 <= b < a ==> !Reuses(store, op, b, request)
      {
        if Reuses(store, op, a, request) {
          if a == n - 1 && store.auths[Key(op, a, Register)] == request && IsCurrent(store, op, a) {
            return Some(a);
          }
          return None;
        }
      }
      if n > MAX_ATTEMPT || (n > 0 && !CanRotate(store, op, n - 1, v)) {
        return None;
      }
      store := store.(attempts := store.attempts[op := n + 1], auths := store.auths[Key(op, n, Register) := request]);
      return Some(n);
    }

    method AppendVaultBoardDispatch(key: Key, digest: string, v: Verdicts) returns (r: Appended)
      modifies this
      ensures r == Dispatch(old(store), key, digest, v)
      ensures store == if r.Appended? then r.store else old(store)
    {
      if !v.admitted {
        return Failed;
      }
      if key in store.dispatches {
        return if store.dispatches[key] == digest then Appended(store, false) else Failed;
      }
      if key !in store.auths || store.auths[key].digest != digest {
        return Failed;
      }
      if !IsLatest(store, key) || key in store.submissions {
        return Failed;
      }
      store := store.(dispatches := store.dispatches[key := digest]);
      return Appended(store, true);
    }

    method AppendVaultBoardAuthorizationAndDispatch(key: Key, auth: Auth, v: Verdicts) returns (r: Appended)
      modifies this
      ensures r == AuthorizeAndDispatch(old(store), key, auth, v)
      ensures store == if r.Appended? then r.store else old(store)
    {
      if key.phase == Register || !v.admitted || !IsLatest(store, key) {
        return Failed;
      }
      var before := store;
      if key in store.auths {
        if store.auths[key] != auth {
          return Failed;
        }
      } else if !InOrder(store, key) {
        return Failed;
      }
      store := store.(auths := store.auths[key := auth]);
      if key in store.dispatches {
        if store.dispatches[key] != auth.digest {
          store := before;
          return Failed;
        }
        return Appended(store, false);
      }
      if key in store.submissions {
        store := before;
        return Failed;
      }
      store := store.(dispatches := store.dispatches[key := auth.digest]);
      return Appended(store, true);
    }
  }

  // ----- concurrent callers

  /** `permits` are calls some live caller is about to make, `calls` those made, in order. */
  datatype World = World(store: Store, permits: set<Key>, calls: seq<Key>)

  datatype Step =
    | BeginAttempt(op: OpId, request: Auth, v: Verdicts)
    | DispatchRequest(key: Key, digest: string, v: Verdicts, commit: Commit)
    | AuthorizeRequest(key: Key, auth: Auth, v: Verdicts, commit: Commit)
    | CallOperator(key: Key)
    | RecordResult(key: Key, rec: Submission, v: Verdicts)
    | RecordConflict(c: Conflict, v: Verdicts)
    | Crash

  /** A result is recorded only by a caller that made the call. */
  ghost predicate Enabled(w: World, s: Step) {
    match s
    case CallOperator(key) => key in w.permits
    case RecordResult(key, _, _) => key in w.calls
    case _ => true
  }

  function Settle(w: World, key: Key, a: Appended, commit: Commit): World {
    if a.Failed? || commit == Refused then w
    else if a.created && commit == Committed then w.(store := a.store, permits := w.permits + {key})
    else w.(store := a.store)
  }

  function Do(w: World, s: Step): World {
    match s
    case BeginAttempt(op, request, v) => w.(store := Begin(w.store, op, request, v).store)
    case DispatchRequest(key, digest, v, commit) => Settle(w, key, Dispatch(w.store, key, digest, v), commit)
    case AuthorizeRequest(key, auth, v, commit) => Settle(w, key, AuthorizeAndDispatch(w.store, key, auth, v), commit)
    case CallOperator(key) => w.(permits := w.permits - {key}, calls := w.calls + [key])
    case RecordResult(key, rec, v) =>
      var a := Submit(w.store, key, rec, v);
      if a.Failed? then w else w.(store := a.store)
    case RecordConflict(c, v) => w.(store := Invalidate(w.store, c, v))
    case Crash => w.(permits := {})
  }

  // ----- the invariant

  ghost predicate RowOk(s: Store, key: Key) {
    && (key in s.dispatches ==> key in s.auths)
    && (key in s.auths ==> key.attempt < Attempts(s, key.op))
    && (key in s.auths && key.phase != Register ==>
          && Key(key.op, key.attempt, Register) in s.submissions
          && s.submissions[Key(key.op, key.attempt, Register)].outcome == Submitted
          && Key(key.op, key.attempt, Opposite(key.phase)) !in s.auths)
  }

  ghost predicate RowsOk(s: Store) { forall key :: RowOk(s, key) }

  ghost predicate CallsOk(w: World) {
    && Ordering.Distinct(w.calls)
    && (forall key :: key in w.calls ==> key in w.store.dispatches && key !in w.permits)
    && (forall key :: key in w.permits ==> key in w.store.dispatches)
    && (forall key :: key in w.store.submissions ==> key in w.calls)
  }

  /** A call still to be made belongs to the latest attempt, or is a final submission whose
      commitment a confirmed conflict has invalidated. */
  ghost predicate Live(s: Store, key: Key) {
    || IsLatest(s, key)
    || (key.phase == Finalize && key in s.auths && Conflict(key.op, key.attempt, s.auths[key].digest) in s.conflicts)
  }

  ghost predicate Inv(w: World) {
    RowsOk(w.store) && CallsOk(w) && forall key :: key in w.permits ==> Live(w.store, key)
  }

  ghost predicate Init(w: World) { w == World(Store(map[], map[], map[], map[], {}), {}, []) }

  ghost predicate Next(w: World, w': World) { exists s :: Enabled(w, s) && w' == Do(w, s) }

  ghost predicate Grows(w: World, w': World) {
    w.calls <= w'.calls && (forall key :: key in w.store.dispatches ==> key in w'.store.dispatches)
  }

  /** Rotation leaves no call of the old attempt outstanding but an invalidated final one. */
  lemma RotationLeavesNoPermit(w: World, op: OpId, a: nat, v: Verdicts, key: Key)
    requires Inv(w) && CanRotate(w.store, op, a, v) && key in w.permits && key.op == op && key.attempt == a
    ensures key.phase == Finalize && key in w.store.auths && Conflict(op, a, w.store.auths[key].digest) in w.store.conflicts
  {
    assert key == Key(op, a, key.phase) && key in w.store.dispatches && key !in w.store.submissions;
    assert RowOk(w.store, key) && RowOk(w.store, Key(op, a, Finalize));
    assert Key(op, a, Register) in w.store.submissions ==> Key(op, a, Register) in w.store.dispatches;
  }

  lemma BeginKeepsRows(s: Store, op: OpId, request: Auth, v: Verdicts)
    requires RowsOk(s)
    ensures RowsOk(Begin(s, op, request, v).store)
  {
    var s' := Begin(s, op, request, v).store;
    forall key ensures RowOk(s', key) {
      assert RowOk(s, key) && RowOk(s, Key(key.op, key.attempt, Opposite(key.phase)));
    }
  }

  lemma BeginKeepsInv(w: World, op: OpId, request: Auth, v: Verdicts)
    requires Inv(w)
    ensures Inv(w.(store := Begin(w.store, op, request, v).store))
  {
    var s, s' := w.store, Begin(w.store, op, request, v).store;
    var n := Attempts(s, op);
    BeginKeepsRows(s, op, request, v);
    if s' != s {
      forall key | key in w.permits ensures Live(s', key) {
        assert Live(s, key) && RowOk(s, key);
        if key.op == op && key.attempt == n - 1 { RotationLeavesNoPermit(w, op, n - 1, v, key); }
      }
    }
  }

  /** What a dispatch does to the rows: nothing but one new dispatch row of a latest
      attempt, with its authorization. */
  ghost predicate Extends(s: Store, key: Key, a: Appended) {
    a.Appended? ==>
      && a.store.attempts == s.attempts && a.store.submissions == s.submissions && a.store.conflicts == s.conflicts
      && (forall k :: k in s.auths ==> k in a.store.auths && a.store.auths[k] == s.auths[k])
      && a.store.dispatches.Keys == (if a.created then s.dispatches.Keys + {key} else s.dispatches.Keys)
      && (a.created ==> key !in s.dispatches && IsLatest(s, key) && key in a.store.auths)
  }

  lemma DispatchExtends(s: Store, key: Key, digest: string, v: Verdicts)
    requires RowsOk(s)
    ensures Extends(s, key, Dispatch(s, key, digest, v))
    ensures Dispatch(s, key, digest, v).Appended? ==> RowsOk(Dispatch(s, key, digest, v).store)
  {
    var a := Dispatch(s, key, digest, v);
    if a.Appended? {
      forall k ensures RowOk(a.store, k) { assert RowOk(s, k); }
    }
  }

  lemma AuthorizeExtends(s: Store, key: Key, auth: Auth, v: Verdicts)
    requires RowsOk(s)
    ensures Extends(s, key, AuthorizeAndDispatch(s, key, auth, v))
    ensures AuthorizeAndDispatch(s, key, auth, v).Appended? ==> RowsOk(AuthorizeAndDispatch(s, key, auth, v).store)
  {
    var a := AuthorizeAndDispatch(s, key, auth, v);
    if a.Appended? {
      assert RowOk(s, key);
      assert key == Key(key.op, key.attempt, key.phase);
      forall k ensures RowOk(a.store, k) { assert RowOk(s, k); }
    }
  }

  lemma SettleKeepsInv(w: World, key: Key, a: Appended, commit: Commit)
    requires Inv(w) && Extends(w.store, key, a) && (a.Appended? ==> RowsOk(a.store))
    ensures Inv(Settle(w, key, a, commit)) && Grows(w, Settle(w, key, a, commit))
  {
    var w' := Settle(w, key, a, commit);
    forall k | k in w'.permits ensures Live(w'.store, k) {
      if k in w.permits { assert Live(w.store, k); }
    }
  }

  lemma ResultKeepsInv(w: World, key: Key, rec: Submission, v: Verdicts)
    requires Inv(w) && key in w.calls
    ensures Inv(Do(w, RecordResult(key, rec, v))) && Grows(w, Do(w, RecordResult(key, rec, v)))
  {
    var w' := Do(w, RecordResult(key, rec, v));
    forall k ensures RowOk(w'.store, k) { assert RowOk(w.store, k); }
    forall k | k in w'.permits ensures Live(w'.store, k) { assert Live(w.store, k); }
  }

  lemma ConflictKeepsInv(w: World, c: Conflict, v: Verdicts)
    requires Inv(w)
    ensures Inv(Do(w, RecordConflict(c, v))) && Grows(w, Do(w, RecordConflict(c, v)))
  {
    var w' := Do(w, RecordConflict(c, v));
    forall k ensures RowOk(w'.store, k) { assert RowOk(w.store, k); }
    forall k | k in w'.permits ensures Live(w'.store, k) { assert Live(w.store, k); }
  }

  lemma CallKeepsInv(w: World, key: Key)
    requires Inv(w) && key in w.permits
    ensures Inv(Do(w, CallOperator(key))) && Grows(w, Do(w, CallOperator(key)))
  {
  }

  lemma StepKeepsInv(w: World, s: Step)
    requires Inv(w) && Enabled(w, s)
    ensures Inv(Do(w, s)) && Grows(w, Do(w, s))
  {
    match s
    case BeginAttempt(op, request, v) => BeginKeepsInv(w, op, request, v);
    case DispatchRequest(key, digest, v, commit) =>
      DispatchExtends(w.store, key, digest, v);
      SettleKeepsInv(w, key, Dispatch(w.store, key, digest, v), commit);
    case AuthorizeRequest(key, auth, v, commit) =>
      AuthorizeExtends(w.store, key, auth, v);
      SettleKeepsInv(w, key, AuthorizeAndDispatch(w.store, key, auth, v), commit);
    case CallOperator(key) => CallKeepsInv(w, key);
    case RecordResult(key, rec, v) => ResultKeepsInv(w, key, rec, v);
    case RecordConflict(c, v) => ConflictKeepsInv(w, c, v);
    case Crash =>
  }

  lemma InvIsInductive()
    ensures Runs.Inductive(Init, Next, Inv)
    ensures Runs.KeptByStep(Next, Inv, Grows)
  {
    forall w, w' | Inv(w) && Next(w, w') ensures Inv(w') && Grows(w, w') {
      var s :| Enabled(w, s) && w' == Do(w, s);
      StepKeepsInv(w, s);
    }
  }

  // ----- main results

  /** In every run each Operator call of an attempt's phase is made at most once, every call
      made has its durable dispatch row, and an attempt never sees both a delete and a
      final submission. */
  lemma CallsAtMostOnce(run: seq<World>, k: nat, i: nat, j: nat)
    requires Runs.IsRun(Init, Next, run) && k < |run| && i < |run[k].calls| && j < |run[k].calls|
    ensures run[k].calls[i] == run[k].calls[j] ==> i == j
    ensures run[k].calls[i] in run[k].store.dispatches
    ensures run[k].calls[i].phase == Delete ==>
              run[k].calls[j] != Key(run[k].calls[i].op, run[k].calls[i].attempt, Finalize)
  {
    InvIsInductive();
    Runs.InvariantHolds(Init, Next, Inv, run, k);
    var a, b := run[k].calls[i], run[k].calls[j];
    assert a in run[k].store.dispatches && b in run[k].store.dispatches;
    assert RowOk(run[k].store, a) && RowOk(run[k].store, b);
  }

  /** A call is made only after its dispatch row is durable, and only for the latest attempt
      of its operation, or as a final submission already invalidated by a conflict. */
  lemma CallsFollowDispatch(run: seq<World>, k: nat, key: Key)
    requires Runs.IsRun(Init, Next, run) && k < |run| && Enabled(run[k], CallOperator(key))
    ensures key in run[k].store.dispatches && key !in run[k].calls
    ensures IsLatest(run[k].store, key) ||
            (key.phase == Finalize && exists digest :: Conflict(key.op, key.attempt, digest) in run[k].store.conflicts)
  {
    InvIsInductive();
    Runs.InvariantHolds(Init, Next, Inv, run, k);
    assert Live(run[k].store, key);
  }

  // ----- across attempts

  /** A final submission of an attempt that is no longer the latest was invalidated. */
  ghost predicate Superseded(s: Store, key: Key) {
    key.phase == Finalize && key in s.auths && !IsLatest(s, key) ==>
      Conflict(key.op, key.attempt, s.auths[key].digest) in s.conflicts
  }

  ghost predicate Separated(s: Store) {
    && (forall key :: Superseded(s, key))
    && (forall c :: c in s.conflicts ==> Key(c.op, c.attempt, Finalize) !in s.submissions)
  }

  ghost predicate InvAcross(w: World) { Inv(w) && Separated(w.store) }

  lemma BeginSeparates(s: Store, op: OpId, request: Auth, v: Verdicts)
    requires RowsOk(s) && Separated(s)
    ensures Separated(Begin(s, op, request, v).store)
  {
    var s', n := Begin(s, op, request, v).store, Attempts(s, op);
    forall key ensures Superseded(s', key) {
      assert Superseded(s, key) && RowOk(s, key);
      assert key == Key(key.op, key.attempt, key.phase);
    }
  }

  lemma SettleSeparates(w: World, key: Key, a: Appended, commit: Commit)
    requires Separated(w.store) && Extends(w.store, key, a)
    requires a.Appended? ==> forall k :: k in a.store.auths ==> k in w.store.auths || (k == key && IsLatest(w.store, key))
    ensures Separated(Settle(w, key, a, commit).store)
  {
    var s' := Settle(w, key, a, commit).store;
    forall k ensures Superseded(s', k) { assert Superseded(w.store, k); }
  }

  lemma StepSeparates(w: World, s: Step)
    requires InvAcross(w) && Enabled(w, s)
    ensures Separated(Do(w, s).store)
  {
    var s' := Do(w, s).store;
    match s
    case BeginAttempt(op, request, v) => BeginSeparates(w.store, op, request, v);
    case DispatchRequest(key, digest, v, commit) =>
      DispatchExtends(w.store, key, digest, v);
      SettleSeparates(w, key, Dispatch(w.store, key, digest, v), commit);
    case AuthorizeRequest(key, auth, v, commit) =>
      AuthorizeExtends(w.store, key, auth, v);
      SettleSeparates(w, key, AuthorizeAndDispatch(w.store, key, auth, v), commit);
    case RecordResult(key, rec, v) => forall k ensures Superseded(s', k) { assert Superseded(w.store, k); }
    case RecordConflict(c, v) => forall k ensures Superseded(s', k) { assert Superseded(w.store, k); }
    case _ =>
  }

  lemma AcrossIsInductive()
    ensures Runs.Inductive(Init, Next, InvAcross)
  {
    InvIsInductive();
    forall w, w' | InvAcross(w) && Next(w, w') ensures InvAcross(w') {
      var s :| Enabled(w, s) && w' == Do(w, s);
      StepSeparates(w, s);
    }
  }

  /** Final submissions of one operation are separated by a confirmed conflict: in every
      reachable state, once a later attempt has even been authorized to submit, the final
      submission of every earlier attempt is invalidated, and has no recorded result. */
  lemma FinalsSeparatedByConflict(run: seq<World>, k: nat, first: Key, second: Key)
    requires Runs.IsRun(Init, Next, run) && k < |run|
    requires first.phase == Finalize && second.phase == Finalize
    requires first.op == second.op && first.attempt < second.attempt
    requires first in run[k].store.auths && second in run[k].store.auths
    ensures Conflict(first.op, first.attempt, run[k].store.auths[first].digest) in run[k].store.conflicts
    ensures first !in run[k].store.submissions
  {
    AcrossIsInductive();
    Runs.InvariantHolds(Init, Next, InvAcross, run, k);
    assert Superseded(run[k].store, first) && RowOk(run[k].store, second);
    assert first == Key(first.op, first.attempt, Finalize);
  }

  /** So an operation has at most one recorded final result, whatever its attempts did. */
  lemma OneFinalResult(run: seq<World>, k: nat, first: Key, second: Key)
    requires Runs.IsRun(Init, Next, run) && k < |run|
    requires first.phase == Finalize && second.phase == Finalize && first.op == second.op
    requires first in run[k].store.submissions && second in run[k].store.submissions
    ensures first == second
  {
    InvIsInductive();
    Runs.InvariantHolds(Init, Next, Inv, run, k);
    assert first in run[k].calls && second in run[k].calls;
    assert RowOk(run[k].store, first) && RowOk(run[k].store, second);
    if first.attempt < second.attempt {
      FinalsSeparatedByConflict(run, k, first, second);
    } else if second.attempt < first.attempt {
      FinalsSeparatedByConflict(run, k, second, first);
    }
  }

  // ----- what each call answers

  /** An attempt may be followed by another exactly when its final submission was invalidated,
      or it has none and its registration was never dispatched, was rejected, was deleted under
      the authorized digest, or was accepted with no deletion under way and has timed out. */
  lemma RotatesExactly(s: Store, op: OpId, a: nat, v: Verdicts)
    ensures var (register, delete, final) := (Key(op, a, Register), Key(op, a, Delete), Key(op, a, Finalize));
            var deleting := delete in s.auths && delete in s.dispatches;
            var result := if register in s.submissions then Some(s.submissions[register].outcome) else None;
            CanRotate(s, op, a, v) <==>
              || (final in s.auths && Conflict(op, a, s.auths[final].digest) in s.conflicts)
              || (final !in s.auths &&
                  (|| register !in s.dispatches
                   || result == Some(Rejected)
                   || (result.Some? && deleting && delete in s.submissions && s.submissions[delete].outcome == Released
                       && s.submissions[delete].digest == s.auths[delete].digest)
                   || (result == Some(Submitted) && !deleting && v.quarantineOver)))
  {
  }

  /** A request names a registration that is there: by its digest or by its tree session. */
  ghost predicate Names(s: Store, op: OpId, a: nat, request: Auth) {
    var key := Key(op, a, Register);
    key in s.auths && (s.auths[key].digest == request.digest || s.auths[key].session == request.session)
  }

  /** The latest attempt goes on: not rejected, and neither finalized nor deleted. */
  ghost predicate GoesOn(s: Store, op: OpId, a: nat) {
    var (register, delete, final) := (Key(op, a, Register), Key(op, a, Delete), Key(op, a, Finalize));
    && !(register in s.submissions && s.submissions[register].outcome == Rejected)
    && final !in s.auths && delete !in s.auths && delete !in s.submissions
  }

  /** A request that names no earlier registration starts the next attempt exactly when the
      last one may rotate; one that names only the latest is answered with it exactly when it
      is the very same request and the attempt goes on; anything else is refused, and nothing
      but a new attempt changes the store. */
  lemma BegunExactly(s: Store, op: OpId, request: Auth, v: Verdicts)
    ensures var (n, r) := (Attempts(s, op), Begin(s, op, request, v));
            var earlier := exists a: nat :: a + 1 < n && Names(s, op, a, request);
            var latest := n > 0 && Names(s, op, n - 1, request);
            if v.admitted && !earlier && latest && s.auths[Key(op, n - 1, Register)] == request && GoesOn(s, op, n - 1)
            then r == Begun(s, Some(n - 1))
            else if v.admitted && !earlier && !latest && n <= 0xFFFF_FFFF && (n == 0 || CanRotate(s, op, n - 1, v))
            then && r.attempt == Some(n) && r.store.attempts == s.attempts[op := n + 1]
                 && r.store.auths == s.auths[Key(op, n, Register) := request]
                 && r.store == s.(attempts := r.store.attempts, auths := r.store.auths)
            else r == Begun(s, None)
  {
    var n := Attempts(s, op);
    forall a: nat ensures Reuses(s, op, a, request) == Names(s, op, a, request) {
    }
    if n > 0 { assert IsCurrent(s, op, n - 1) == GoesOn(s, op, n - 1); }
    if a: nat :| a + 1 < n && Names(s, op, a, request) {
      assert Reuses(s, op, a, request);
    }
  }

  /** A dispatch row is created exactly for the authorized digest of the latest attempt that
      has neither row nor result; the same row again is acknowledged as not created. */
  lemma DispatchedExactly(s: Store, key: Key, digest: string, v: Verdicts)
    ensures var r := Dispatch(s, key, digest, v);
            var again := key in s.dispatches && s.dispatches[key] == digest;
            var unsent := key !in s.dispatches && key in s.auths && s.auths[key].digest == digest
                         && key.attempt + 1 == Attempts(s, key.op) && key !in s.submissions;
            if v.admitted && again then r == Appended(s, false)
            else if v.admitted && unsent then r == Appended(s.(dispatches := s.dispatches[key := digest]), true)
            else r == Failed
  {
  }

  /** A delete or final submission is authorized and dispatched together exactly on the latest
      attempt, under an authorization that is new or the same: a new one needs an accepted
      registration and that the other of the two was not authorized. */
  lemma AuthorizedExactly(s: Store, key: Key, auth: Auth, v: Verdicts)
    ensures var r := AuthorizeAndDispatch(s, key, auth, v);
            var register := Key(key.op, key.attempt, Register);
            var open := register in s.auths && register in s.submissions && s.submissions[register].outcome == Submitted
                        && (if key.phase == Finalize then Key(key.op, key.attempt, Delete) else Key(key.op, key.attempt, Finalize)) !in s.auths;
            var allowed := v.admitted && key.phase != Register && key.attempt + 1 == Attempts(s, key.op)
                           && if key in s.auths then s.auths[key] == auth else open;
            var after := s.(auths := s.auths[key := auth]);
            if allowed && key in s.dispatches && s.dispatches[key] == auth.digest then r == Appended(after, false)
            else if allowed && key !in s.dispatches && key !in s.submissions
            then r == Appended(after.(dispatches := s.dispatches[key := auth.digest]), true)
            else r == Failed
  {
  }

  /** A result is recorded once, for the dispatched digest, and never for a final submission
      that a conflict has invalidated. */
  lemma SubmittedExactly(s: Store, key: Key, rec: Submission, v: Verdicts)
    ensures var r := Submit(s, key, rec, v);
            var invalidated := key.phase == Finalize && exists digest :: Conflict(key.op, key.attempt, digest) in s.conflicts;
            if v.admitted && key in s.submissions && s.submissions[key] == rec then r == Appended(s, false)
            else if && v.admitted && key !in s.submissions && !invalidated && key in s.auths && s.auths[key].digest == rec.digest
                    && key in s.dispatches && s.dispatches[key] == rec.digest
            then r == Appended(s.(submissions := s.submissions[key := rec]), true)
            else r == Failed
  {
    if c :| c in s.conflicts && c.op == key.op && c.attempt == key.attempt {
      assert c == Conflict(key.op, key.attempt, c.digest);
    }
  }

  /** A conflict is recorded exactly against the authorized final submission of the latest
      attempt while it has no result. */
  lemma InvalidatedExactly(s: Store, c: Conflict, v: Verdicts)
    ensures var final := Key(c.op, c.attempt, Finalize);
            Invalidate(s, c, v) ==
              if && v.admitted && final in s.auths && s.auths[final].digest == c.digest
                 && c.attempt + 1 == Attempts(s, c.op) && final !in s.submissions
              then s.(conflicts := s.conflicts + {c}) else s
  {
  }

  /** Only the caller whose own commit created the row, and was acknowledged, may call. */
  lemma PermittedExactly(w: World, key: Key, a: Appended, commit: Commit)
    ensures var w' := Settle(w, key, a, commit);
            && w'.calls == w.calls
            && w'.store == (if a.Appended? && commit != Refused then a.store else w.store)
            && w'.permits == if a.Appended? && a.created && commit == Committed then w.permits + {key} else w.permits
  {
  }

  /** The steps of the callers are these calls: each writes what its call answers, a call made
      uses up its permit, and a crash takes all permits. */
  lemma StepsExactly(w: World, s: Step)
    requires Enabled(w, s)
    ensures var w' := Do(w, s);
            match s
            case BeginAttempt(op, request, v) => w' == World(Begin(w.store, op, request, v).store, w.permits, w.calls)
            case DispatchRequest(key, digest, v, commit) => w' == Settle(w, key, Dispatch(w.store, key, digest, v), commit)
            case AuthorizeRequest(key, auth, v, commit) => w' == Settle(w, key, AuthorizeAndDispatch(w.store, key, auth, v), commit)
            case CallOperator(key) => w' == World(w.store, w.permits - {key}, w.calls + [key])
            case RecordResult(key, rec, v) =>
              w'.permits == w.permits && w'.calls == w.calls
              && w'.store == if Submit(w.store, key, rec, v).Appended? then Submit(w.store, key, rec, v).store else w.store
            case RecordConflict(c, v) => w' == World(Invalidate(w.store, c, v), w.permits, w.calls)
            case Crash => w' == World(w.store, {}, w.calls)
  {
  }

  // ----- the attempts of one operation

  ghost predicate RegisterOk(s: Store, op: OpId, a: nat) {
    a < Attempts(s, op) <==> Key(op, a, Register) in s.auths
  }

  /** Two attempts of one operation share neither digest nor tree session. */
  ghost predicate Apart(s: Store, op: OpId, a: nat, b: nat) {
    a < b < Attempts(s, op) && Key(op, a, Register) in s.auths && Key(op, b, Register) in s.auths ==>
      !Names(s, op, a, s.auths[Key(op, b, Register)])
  }

  /** Every call of an attempt that is no longer the latest has its result, or is the final
      submission that was invalidated. */
  ghost predicate Concluded(s: Store, key: Key) {
    key in s.dispatches && !IsLatest(s, key) ==>
      || key in s.submissions
      || (key.phase == Finalize && key in s.auths && Conflict(key.op, key.attempt, s.auths[key].digest) in s.conflicts)
  }

  ghost predicate AttemptsOk(s: Store) {
    && (forall op, a: nat :: RegisterOk(s, op, a))
    && (forall op, a: nat, b: nat :: Apart(s, op, a, b))
    && (forall key :: Concluded(s, key))
  }

  ghost predicate InvAttempts(w: World) { Inv(w) && AttemptsOk(w.store) }

  lemma BeginKeepsAttempts(s: Store, op: OpId, request: Auth, v: Verdicts)
    requires RowsOk(s) && AttemptsOk(s) && s.submissions.Keys <= s.dispatches.Keys
    ensures AttemptsOk(Begin(s, op, request, v).store)
  {
    var s', n := Begin(s, op, request, v).store, Attempts(s, op);
    BegunExactly(s, op, request, v);
    if s' != s {
      forall o, a: nat ensures RegisterOk(s', o, a) { assert RegisterOk(s, o, a); }
      forall o, a: nat, b: nat ensures Apart(s', o, a, b) {
        assert Apart(s, o, a, b) && RegisterOk(s, o, b) && RegisterOk(s, o, a);
        assert RegisterOk(s, op, a) && (Names(s, op, a, request) ==> a < n);
      }
      forall key ensures Concluded(s', key) { BeginConcludes(s, op, request, v, key); }
    }
  }

  lemma BeginConcludes(s: Store, op: OpId, request: Auth, v: Verdicts, key: Key)
    requires RowsOk(s) && AttemptsOk(s) && s.submissions.Keys <= s.dispatches.Keys && Begin(s, op, request, v).store != s
    ensures Concluded(Begin(s, op, request, v).store, key)
  {
    var n := Attempts(s, op);
    BegunExactly(s, op, request, v);
    assert Concluded(s, key) && RowOk(s, key);
    if key.op == op && key.attempt + 1 == n && key in s.dispatches {
      RotatesExactly(s, op, n - 1, v);
      assert key == Key(op, n - 1, key.phase);
      assert RowOk(s, Key(op, n - 1, Delete)) && RowOk(s, Key(op, n - 1, Finalize));
    }
  }

  lemma ExtendKeepsAttempts(s: Store, key: Key, a: Appended)
    requires AttemptsOk(s) && Extends(s, key, a) && a.Appended?
    requires forall k :: k in a.store.auths && k.phase == Register ==> k in s.auths
    ensures AttemptsOk(a.store)
  {
    var s' := a.store;
    forall op, x: nat ensures RegisterOk(s', op, x) { assert RegisterOk(s, op, x); }
    forall op, x: nat, y: nat ensures Apart(s', op, x, y) { assert Apart(s, op, x, y); }
    forall k ensures Concluded(s', k) { assert Concluded(s, k); }
  }

  lemma SameAuthsKeepAttempts(s: Store, s': Store)
    requires AttemptsOk(s) && s'.attempts == s.attempts && s'.auths == s.auths && s'.dispatches == s.dispatches
    requires s.submissions.Keys <= s'.submissions.Keys && s.conflicts <= s'.conflicts
    ensures AttemptsOk(s')
  {
    forall op, x: nat ensures RegisterOk(s', op, x) { assert RegisterOk(s, op, x); }
    forall op, x: nat, y: nat ensures Apart(s', op, x, y) { assert Apart(s, op, x, y); }
    forall k ensures Concluded(s', k) { assert Concluded(s, k); }
  }

  lemma StepKeepsAttempts(w: World, s: Step)
    requires InvAttempts(w) && Enabled(w, s)
    ensures AttemptsOk(Do(w, s).store)
  {
    match s
    case BeginAttempt(op, request, v) => BeginKeepsAttempts(w.store, op, request, v);
    case DispatchRequest(key, digest, v, commit) =>
      var a := Dispatch(w.store, key, digest, v);
      DispatchExtends(w.store, key, digest, v);
      if a.Appended? { ExtendKeepsAttempts(w.store, key, a); }
    case AuthorizeRequest(key, auth, v, commit) =>
      var a := AuthorizeAndDispatch(w.store, key, auth, v);
      AuthorizeExtends(w.store, key, auth, v);
      if a.Appended? { ExtendKeepsAttempts(w.store, key, a); }
    case RecordResult(key, rec, v) => SameAuthsKeepAttempts(w.store, Do(w, s).store);
    case RecordConflict(c, v) => SameAuthsKeepAttempts(w.store, Do(w, s).store);
    case _ =>
  }

  lemma AttemptsAreInductive()
    ensures Runs.Inductive(Init, Next, InvAttempts)
  {
    InvIsInductive();
    forall w, w' | InvAttempts(w) && Next(w, w') ensures InvAttempts(w') {
      var s :| Enabled(w, s) && w' == Do(w, s);
      StepKeepsAttempts(w, s);
    }
    forall w | Init(w) ensures AttemptsOk(w.store) {
      forall op, a: nat ensures RegisterOk(w.store, op, a) { }
      forall op, a: nat, b: nat ensures Apart(w.store, op, a, b) { }
    }
  }

  /** In every reachable state no two attempts of an operation share a digest or a tree
      session, and of an attempt that was followed by another every dispatched call has its
      result, except a final submission that was invalidated. */
  lemma AttemptsAreApart(run: seq<World>, k: nat, op: OpId, a: nat, b: nat, phase: Phase)
    requires Runs.IsRun(Init, Next, run) && k < |run| && a < b < Attempts(run[k].store, op)
    ensures var (s, x, y) := (run[k].store, Key(op, a, Register), Key(op, b, Register));
            && x in s.auths && y in s.auths && s.auths[x].digest != s.auths[y].digest && s.auths[x].session != s.auths[y].session
            && (Key(op, a, phase) in s.dispatches ==>
                  Key(op, a, phase) in s.submissions || (phase == Finalize && exists digest :: Conflict(op, a, digest) in s.conflicts))
  {
    AttemptsAreInductive();
    Runs.InvariantHolds(Init, Next, InvAttempts, run, k);
    var s := run[k].store;
    assert RegisterOk(s, op, a) && RegisterOk(s, op, b) && Apart(s, op, a, b) && Concluded(s, Key(op, a, phase));
  }
}
