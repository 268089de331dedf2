/** Spend operations under concurrent clients.

    A client call (reserve, authorize, authorize checkpoints, finalize, view, abort)
    is a chain of atomic store calls. Between two of them the client holds nothing but
    rows it read earlier, so a run is any sequence of store calls whose arguments are
    built from rows that somebody read at any earlier time. That covers every
    interleaving, every stale snapshot and every crash. */
module VtxoLifecycle {
  import opened Basics
  import Runs

  type OpId = string
  type VaultId = string
  type Psbt = string

  datatype Outpoint = Outpoint(txid: string, vout: nat)

  datatype OpState = Reserved | Signed | Submitted | Finalized | Aborted | Unresolved

  /** The part of a row that reserve fixes for good, with the reserved inputs. */
  datatype Facts = Facts(
    vault: VaultId, bundle: string, amount: nat, fee: nat, feePolicy: string,
    dest: string, changeScript: string, change: nat, inputs: set<Outpoint>)

  datatype Row = Row(
    facts: Facts, state: OpState,
    unsigned: Psbt, authorized: Psbt, proofDigest: string, authorizedProof: Psbt,
    checkpoints: Psbt, checkpointRequest: Psbt, arkTxid: string,
    expires: int, created: int)

  type Rows = map<OpId, Row>

  datatype Lookup = Missing | Found(row: Row)

  predicate ValidTransition(from: OpState, to: OpState) {
    match from
    case Reserved => to == Signed || to == Aborted
    case Signed => to == Submitted
    case Submitted => to == Finalized || to == Unresolved
    case _ => false
  }

  /** States in which an authorised transaction exists. */
  predicate Authorised(s: OpState) { s != Reserved && s != Aborted }

  /** vtxoStateBlocksNewOperation */
  predicate Blocks(s: OpState) { s == Reserved || s == Signed || s == Submitted || s == Unresolved }

  /** vtxoStateLocksInputs */
  predicate Locks(s: OpState) { s == Reserved || s == Signed || s == Submitted || s == Finalized }

  predicate HasSigningArtifacts(r: Row) {
    || r.unsigned != "" || r.authorized != "" || r.authorizedProof != "" || r.proofDigest != ""
    || r.checkpoints != "" || r.checkpointRequest != "" || r.arkTxid != ""
  }

  // ----- the store: one mutex, one connection, every call atomic

  datatype Swapped = Swapped(rows: Rows, current: Lookup, swapped: bool)

  function Load(rows: Rows, id: OpId): Lookup {
    if id in rows then Found(rows[id]) else Missing
  }

  /** updateVtxoOperation: the row is replaced only while it is in `expected`. */
  function Swap(rows: Rows, id: OpId, expected: OpState, rec: Row): Swapped {
    if id in rows && rows[id].facts.vault == rec.facts.vault && rows[id].state == expected
    then Swapped(rows[id := rec], Found(rec), true)
    else Swapped(rows, Load(rows, id), false)
  }

  function Transition(rows: Rows, id: OpId, expected: OpState, rec: Row): Swapped {
    if ValidTransition(expected, rec.state) then Swap(rows, id, expected, rec)
    else Swapped(rows, Missing, false)
  }

  /** CommitSignedVtxoOperation: `countOk` is the authenticator counter's verdict; a
      refused counter rolls the swap back. */
  function CommitSigned(rows: Rows, id: OpId, rec: Row, countOk: bool): Swapped {
    if rec.state != Signed then Swapped(rows, Missing, false)
    else
      var s := Swap(rows, id, Reserved, rec);
      if s.swapped then
        if countOk then s else Swapped(rows, Missing, false)
      else if s.current.Found? && s.current.row.state == Signed && !countOk then Swapped(rows, Missing, false)
      else s
  }

  predicate Expired(r: Row, vault: VaultId, now: int) {
    r.facts.vault == vault && r.state == Reserved && r.expires <= now
  }

  /** abortExpiredVtxoLocked */
  function AbortExpired(rows: Rows, vault: VaultId, now: int): Rows {
    map id | id in rows :: if Expired(rows[id], vault, now) then rows[id].(state := Aborted) else rows[id]
  }

  predicate Overlaps(rows: Rows, id: OpId, inputs: set<Outpoint>) {
    exists other :: other in rows && other != id && Locks(rows[other].state) && !(rows[other].facts.inputs !! inputs)
  }

  predicate Concurrent(rows: Rows, id: OpId, vault: VaultId) {
    exists other :: other in rows && other != id && rows[other].facts.vault == vault && Blocks(rows[other].state)
  }

  /** ReserveVtxoOperation. `admitted` stands for the checks of other journals and of
      the allowance; a refusal rolls the whole transaction back. */
  function Reserve(rows: Rows, id: OpId, rec: Row, now: int, admitted: bool): Rows {
    var live := AbortExpired(rows, rec.facts.vault, now);
    if rec.state != Reserved || rec.facts.inputs == {} || |rec.facts.inputs| > MAX_INPUTS then rows
    else if Overlaps(live, id, rec.facts.inputs) || Concurrent(live, id, rec.facts.vault) then rows
    else if !admitted || id in live then rows
    else live[id := rec]
  }

  /** The store as the object it is: every method holds the ledger mutex throughout. */
  class VtxoStore {
    var rows: Rows

    constructor ()
      ensures rows == map[]
    {
      rows := map[];
    }

    /** ReserveVtxoOperation: the vault's expired reservations are aborted in the same
        transaction, which a refusal rolls back as a whole. */
    method ReserveVtxoOperation(id: OpId, rec: Row, now: int, admitted: bool) returns (ok: bool)
      modifies this
      ensures rows == Reserve(old(rows), id, rec, now, admitted)
      ensures ok ==> id !in old(rows) && id in rows && rows[id] == rec
      ensures !ok ==> rows == old(rows)
    {
      if rec.state != Reserved || rec.facts.inputs == {} || |rec.facts.inputs| > MAX_INPUTS {
        return false;
      }
      var before, todo := rows, rows.Keys;
      while todo != {}
        invariant rows.Keys == before.Keys && todo <= before.Keys
        invariant forall k :: k in todo ==> rows[k] == before[k]
        invariant forall k :: k in before - todo && Expired(before[k], rec.facts.vault, now) ==>
          rows[k] == before[k].(state := Aborted)
        invariant forall k :: k in before - todo && !Expired(before[k], rec.facts.vault, now) ==> rows[k] == before[k]
        decreases todo
      {
        var k :| k in todo;
        if Expired(rows[k], rec.facts.vault, now) {
          rows := rows[k := rows[k].(state := Aborted)];
        }
        todo := todo - {k};
      }
      assert rows == AbortExpired(before, rec.facts.vault, now);
      if Overlaps(rows, id, rec.facts.inputs) || Concurrent(rows, id, rec.facts.vault) || !admitted || id in rows {
        rows := before;
        return false;
      }
      rows := rows[id := rec];
      return true;
    }

    method TransitionVtxoOperation(id: OpId, expected: OpState, rec: Row) returns (current: Lookup, swapped: bool)
      modifies this
      ensures rows == Transition(old(rows), id, expected, rec).rows
      ensures current == Transition(old(rows), id, expected, rec).current
      ensures swapped == Transition(old(rows), id, expected, rec).swapped
    {
      if !ValidTransition(expected, rec.state) {
        return Missing, false;
      }
      if id in rows && rows[id].facts.vault == rec.facts.vault && rows[id].state == expected {
        rows := rows[id := rec];
        return Found(rec), true;
      }
      current := Load(rows, id);
      swapped := false;
    }

    method CommitSignedVtxoOperation(id: OpId, rec: Row, countOk: bool) returns (current: Lookup, swapped: bool)
      modifies this
      ensures rows == CommitSigned(old(rows), id, rec, countOk).rows
      ensures current == CommitSigned(old(rows), id, rec, countOk).current
      ensures swapped == CommitSigned(old(rows), id, rec, countOk).swapped
    {
      if rec.state != Signed {
        return Missing, false;
      }
      var before := rows;
      if id in rows && rows[id].facts.vault == rec.facts.vault && rows[id].state == Reserved {
        rows := rows[id := rec];
        if !countOk {
          rows := before;
          return Missing, false;
        }
        return Found(rec), true;
      }
      current := Load(rows, id);
      swapped := false;
      if current.Found? && current.row.state == Signed && !countOk {
        current := Missing;
      }
    }
  }

  // ----- the clients

  datatype AuthorizeRequest = AuthorizeRequest(unsigned: Psbt, checkpoints: Psbt, proofDigest: string, arkTxid: string)

  datatype Verdict = SpentByUs | SpentByOther

  /** One atomic step of some client. `op` is always a row the client read earlier;
      signer outputs, clocks and the indexer's verdict are arbitrary. */
  datatype Action =
    | DoReserve(id: OpId, rec: Row, now: int, admitted: bool)
    | DoRead(id: OpId)
    | DoAuthorize(id: OpId, op: Row, req: AuthorizeRequest, signedArk: Psbt, signedProof: Psbt, countOk: bool)
    | DoReplayAuthorize(id: OpId, op: Row, req: AuthorizeRequest, countOk: bool)
    | DoCheckpoints(id: OpId, op: Row, request: Psbt, cosigned: Psbt)
    | DoReplayCheckpoints(id: OpId, op: Row, request: Psbt)
    | DoPromote(id: OpId, op: Row)
    | DoSettle(id: OpId, op: Row, verdict: Verdict, now: int)
    | DoExpire(id: OpId, op: Row, now: int)
    | DoAbort(id: OpId, op: Row)
    | DoView(id: OpId, op: Row)
    | DoRestart

  datatype Seen = Seen(id: OpId, row: Row)
  datatype Sent = Sent(id: OpId, psbt: Psbt)
  datatype Settled = Settled(id: OpId, verdict: Verdict)

  /** What a request was answered with. */
  datatype Answer =
    | ToAuthorize(id: OpId, unsigned: Psbt, proofDigest: string, authorized: Psbt)
    | ToCheckpoints(id: OpId, request: Psbt, checkpoints: Psbt)

  /** `known` is every row some client may still hold; `returned` and `cosigned` are
      every authorised transaction and every checkpoint bundle handed out so far, `answers`
      those that were handed out to a request; `settled` are the verdicts that were written. */
  datatype World = World(
    rows: Rows, known: set<Seen>, returned: set<Sent>, cosigned: set<Sent>, answers: set<Answer>, settled: set<Settled>)

  function SignedRow(op: Row, req: AuthorizeRequest, signedArk: Psbt, signedProof: Psbt): Row {
    op.(unsigned := req.unsigned, proofDigest := req.proofDigest, checkpoints := req.checkpoints,
        arkTxid := req.arkTxid, authorized := signedArk, authorizedProof := signedProof, state := Signed)
  }

  predicate SameRequest(r: Row, req: AuthorizeRequest) {
    && r.unsigned == req.unsigned && r.checkpoints == req.checkpoints
    && r.proofDigest == req.proofDigest && r.authorizedProof != ""
  }

  predicate Enabled(w: World, a: Action) {
    match a
    case DoReserve(_, rec, _, _) => !HasSigningArtifacts(rec)
    case DoRead(_) => true
    case DoAuthorize(id, op, _, _, _, _) => Seen(id, op) in w.known && op.state == Reserved
    case DoReplayAuthorize(id, op, req, _) => Seen(id, op) in w.known && op.state == Signed && SameRequest(op, req)
    case DoCheckpoints(id, op, _, _) => Seen(id, op) in w.known && op.state == Signed
    case DoReplayCheckpoints(id, op, request) =>
      Seen(id, op) in w.known && op.state == Submitted && op.checkpointRequest == request
    case DoPromote(id, op) => Seen(id, op) in w.known && op.state == Signed
    case DoSettle(id, op, _, _) => Seen(id, op) in w.known && op.state == Submitted
    case DoExpire(id, op, now) => Seen(id, op) in w.known && op.state == Reserved && op.expires <= now
    case DoAbort(id, op) => Seen(id, op) in w.known && op.state == Reserved && !HasSigningArtifacts(op)
    case DoView(id, op) => Seen(id, op) in w.known && (op.state == Signed || op.state == Submitted)
    case DoRestart => true
  }

  function Learn(known: set<Seen>, id: OpId, found: Lookup): set<Seen> {
    if found.Found? then known + {Seen(id, found.row)} else known
  }

  function After(w: World, id: OpId, s: Swapped): World {
    w.(rows := s.rows, known := Learn(w.known, id, s.current))
  }

  function AnswerAuthorize(w: World, id: OpId, req: AuthorizeRequest, psbt: Psbt): World {
    w.(returned := w.returned + {Sent(id, psbt)}, answers := w.answers + {ToAuthorize(id, req.unsigned, req.proofDigest, psbt)})
  }

  function AnswerCheckpoints(w: World, id: OpId, request: Psbt, psbt: Psbt): World {
    w.(cosigned := w.cosigned + {Sent(id, psbt)}, answers := w.answers + {ToCheckpoints(id, request, psbt)})
  }

  function Do(w: World, a: Action): World {
    match a
    case DoReserve(id, rec, now, admitted) =>
      w.(rows := Reserve(w.rows, id, rec, now, admitted))
    case DoRead(id) => w.(known := Learn(w.known, id, Load(w.rows, id)))
    case DoAuthorize(id, op, req, signedArk, signedProof, countOk) =>
      var s := CommitSigned(w.rows, id, SignedRow(op, req, signedArk, signedProof), countOk);
      var w' := After(w, id, s);
      if s.swapped then AnswerAuthorize(w', id, req, signedArk)
      else if s.current.Found? && s.current.row.state == Signed && SameRequest(s.current.row, req)
      then AnswerAuthorize(w', id, req, s.current.row.authorized)
      else w'
    case DoReplayAuthorize(id, op, req, countOk) =>
      if id in w.rows && w.rows[id].facts.vault == op.facts.vault && w.rows[id].state == Signed && countOk
      then AnswerAuthorize(w, id, req, op.authorized)
      else w
    case DoCheckpoints(id, op, request, cosigned) =>
      var s := Transition(w.rows, id, Signed, op.(checkpoints := cosigned, checkpointRequest := request, state := Submitted));
      var w' := After(w, id, s);
      if s.swapped then AnswerCheckpoints(w', id, request, cosigned)
      else if s.current.Found? && s.current.row.state == Submitted && s.current.row.checkpointRequest == request
      then AnswerCheckpoints(w', id, request, s.current.row.checkpoints)
      else w'
    case DoReplayCheckpoints(id, op, request) => AnswerCheckpoints(w, id, request, op.checkpoints)
    case DoPromote(id, op) => After(w, id, Transition(w.rows, id, Signed, op.(state := Submitted)))
    case DoSettle(id, op, verdict, now) =>
      var to := if verdict == SpentByUs then Finalized else Unresolved;
      var s := Transition(w.rows, id, Submitted, op.(state := to, created := now));
      After(w, id, s).(settled := if s.swapped then w.settled + {Settled(id, verdict)} else w.settled)
    case DoExpire(id, op, now) => After(w, id, Transition(w.rows, id, Reserved, op.(state := Aborted)))
    case DoAbort(id, op) => After(w, id, Transition(w.rows, id, Reserved, op.(state := Aborted)))
    case DoView(id, op) =>
      var w' := w.(returned := w.returned + {Sent(id, op.authorized)});
      if op.state == Submitted then w'.(cosigned := w.cosigned + {Sent(id, op.checkpoints)}) else w'
    case DoRestart => w.(known := {})
  }

  ghost predicate Init(w: World) { w == World(map[], {}, {}, {}, {}, {}) }

  function Unlearned(w: World, a: Action): World { w.(rows := Do(w, a).rows, settled := Do(w, a).settled) }

  /** A step to its end, or one whose commit took effect although its client never learned
      of it and got nothing. */
  ghost predicate Next(w: World, w': World) {
    exists a :: Enabled(w, a) && (w' == Do(w, a) || w' == Unlearned(w, a))
  }

  // ----- what holds in every reachable state

  /** Reachability in the state graph, in closed form; ReachesIsPath relates it to paths. */
  predicate Reaches(from: OpState, to: OpState) {
    match from
    case Reserved => true
    case Signed => to != Reserved && to != Aborted
    case Submitted => to == Submitted || to == Finalized || to == Unresolved
    case _ => to == from
  }

  /** `now` is a later version of the row `was` was. */
  predicate Version(was: Row, now: Row) {
    && was.facts == now.facts
    && Reaches(was.state, now.state)
    && (was.state == now.state ==> was == now)
    && (Authorised(was.state) ==> was.authorized == now.authorized && was.unsigned == now.unsigned && was.arkTxid == now.arkTxid)
    && (Authorised(was.state) ==> was.proofDigest == now.proofDigest && was.authorizedProof == now.authorizedProof)
    && (Authorised(was.state) && was.state != Signed ==> was.checkpoints == now.checkpoints && was.checkpointRequest == now.checkpointRequest)
  }

  ghost predicate KnownOk(w: World) {
    forall k :: k in w.known ==> k.id in w.rows && Version(k.row, w.rows[k.id])
  }

  ghost predicate ReturnedOk(w: World) {
    forall r :: r in w.returned ==> r.id in w.rows && Authorised(w.rows[r.id].state) && w.rows[r.id].authorized == r.psbt
  }

  ghost predicate CosignedOk(w: World) {
    forall r :: r in w.cosigned ==>
      r.id in w.rows && Authorised(w.rows[r.id].state) && w.rows[r.id].state != Signed && w.rows[r.id].checkpoints == r.psbt
  }

  ghost predicate ArtifactsOk(rows: Rows) {
    forall id :: id in rows && !Authorised(rows[id].state) ==> !HasSigningArtifacts(rows[id])
  }

  /** No outpoint is locked by two operations. */
  ghost predicate InputsExclusive(rows: Rows) {
    forall a, b :: a in rows && b in rows && a != b && Locks(rows[a].state) && Locks(rows[b].state) ==>
      rows[a].facts.inputs !! rows[b].facts.inputs
  }

  /** A vault has at most one operation that is not finalized or aborted. */
  ghost predicate OnePerVault(rows: Rows) {
    forall a, b :: a in rows && b in rows && a != b && Blocks(rows[a].state) && Blocks(rows[b].state) ==>
      rows[a].facts.vault != rows[b].facts.vault
  }

  ghost predicate RowsOk(rows: Rows) { ArtifactsOk(rows) && InputsExclusive(rows) && OnePerVault(rows) }

  ghost predicate Inv(w: World) {
    KnownOk(w) && ReturnedOk(w) && CosignedOk(w) && RowsOk(w.rows)
  }

  /** Every row only moves to a later version of itself. */
  ghost predicate RowsAdvance(rows: Rows, rows': Rows) {
    forall id :: id in rows ==> id in rows' && Version(rows[id], rows'[id])
  }

  ghost predicate Advance(w: World, w': World) {
    RowsAdvance(w.rows, w'.rows) && w.returned <= w'.returned && w.cosigned <= w'.cosigned
  }

  lemma VersionTransitive(a: Row, b: Row, c: Row)
    requires Version(a, b) && Version(b, c)
    ensures Version(a, c)
  {
  }

  lemma MoveKeepsRowsOk(rows: Rows, id: OpId, rec: Row)
    requires RowsOk(rows) && id in rows && rec.facts == rows[id].facts && ValidTransition(rows[id].state, rec.state)
    requires !Authorised(rec.state) ==> !HasSigningArtifacts(rec)
    ensures RowsOk(rows[id := rec])
  {
  }

  /** A swap from a row that was read in the expected state writes a later version of
      the current row: while a row stays in one state it does not change. */
  lemma SwapAdvances(w: World, id: OpId, op: Row, rec: Row)
    requires Inv(w) && Seen(id, op) in w.known
    requires rec.facts == op.facts && ValidTransition(op.state, rec.state)
    requires Version(op, rec)
    requires !Authorised(rec.state) && !HasSigningArtifacts(op) ==> !HasSigningArtifacts(rec)
    ensures var rows := Swap(w.rows, id, op.state, rec).rows; RowsAdvance(w.rows, rows) && RowsOk(rows)
  {
    if Swap(w.rows, id, op.state, rec).swapped {
      assert w.rows[id] == op;
      MoveKeepsRowsOk(w.rows, id, rec);
    }
  }

  lemma AbortExpiredAdvances(rows: Rows, vault: VaultId, now: int)
    requires RowsOk(rows)
    ensures RowsAdvance(rows, AbortExpired(rows, vault, now)) && RowsOk(AbortExpired(rows, vault, now))
  {
  }

  lemma InsertAdvances(rows: Rows, id: OpId, rec: Row)
    requires RowsOk(rows) && id !in rows && !HasSigningArtifacts(rec) && rec.state == Reserved
    requires !Overlaps(rows, id, rec.facts.inputs) && !Concurrent(rows, id, rec.facts.vault)
    ensures RowsAdvance(rows, rows[id := rec]) && RowsOk(rows[id := rec])
  {
    forall a | a in rows && Locks(rows[a].state) ensures rows[a].facts.inputs !! rec.facts.inputs {
      assert a != id;
    }
    forall a | a in rows && Blocks(rows[a].state) ensures rows[a].facts.vault != rec.facts.vault {
      assert a != id;
    }
  }

  lemma ReserveAdvances(rows: Rows, id: OpId, rec: Row, now: int, admitted: bool)
    requires RowsOk(rows) && !HasSigningArtifacts(rec)
    ensures RowsAdvance(rows, Reserve(rows, id, rec, now, admitted)) && RowsOk(Reserve(rows, id, rec, now, admitted))
  {
    var live := AbortExpired(rows, rec.facts.vault, now);
    AbortExpiredAdvances(rows, rec.facts.vault, now);
    if Reserve(rows, id, rec, now, admitted) != rows {
      InsertAdvances(live, id, rec);
      forall k | k in rows ensures Version(rows[k], live[id := rec][k]) {
        VersionTransitive(rows[k], live[k], live[id := rec][k]);
      }
    }
  }

  /** Rows that advance keep what was read and what was handed out valid. */
  lemma AdvanceKeeps(w: World, rows: Rows)
    requires KnownOk(w) && ReturnedOk(w) && CosignedOk(w) && RowsAdvance(w.rows, rows)
    ensures KnownOk(w.(rows := rows)) && ReturnedOk(w.(rows := rows)) && CosignedOk(w.(rows := rows))
  {
    forall k | k in w.known ensures k.id in rows && Version(k.row, rows[k.id]) {
      VersionTransitive(k.row, w.rows[k.id], rows[k.id]);
    }
  }

  lemma LearnStep(w: World, id: OpId, found: Lookup)
    requires Inv(w) && (found.Found? ==> id in w.rows && Version(found.row, w.rows[id]))
    ensures Inv(w.(known := Learn(w.known, id, found)))
  {
  }

  lemma ReturnStep(w: World, sent: Sent)
    requires Inv(w) && sent.id in w.rows
    requires Authorised(w.rows[sent.id].state) && w.rows[sent.id].authorized == sent.psbt
    ensures Inv(w.(returned := w.returned + {sent}))
  {
  }

  lemma CosignStep(w: World, sent: Sent)
    requires Inv(w) && sent.id in w.rows
    requires Reaches(Submitted, w.rows[sent.id].state) && w.rows[sent.id].checkpoints == sent.psbt
    ensures Inv(w.(cosigned := w.cosigned + {sent}))
  {
  }

  lemma SwapStep(w: World, id: OpId, op: Row, rec: Row)
    requires Inv(w) && Seen(id, op) in w.known
    requires rec.facts == op.facts && ValidTransition(op.state, rec.state) && Version(op, rec)
    requires !Authorised(rec.state) && !HasSigningArtifacts(op) ==> !HasSigningArtifacts(rec)
    ensures var w' := After(w, id, Swap(w.rows, id, op.state, rec)); Inv(w') && Advance(w, w')
  {
    var s := Swap(w.rows, id, op.state, rec);
    SwapAdvances(w, id, op, rec);
    AdvanceKeeps(w, s.rows);
    LearnStep(w.(rows := s.rows), id, s.current);
  }

  lemma AuthorizeStep(w: World, a: Action)
    requires Inv(w) && Enabled(w, a) && a.DoAuthorize?
    ensures Inv(Do(w, a)) && Advance(w, Do(w, a))
  {
    var rec := SignedRow(a.op, a.req, a.signedArk, a.signedProof);
    var s := CommitSigned(w.rows, a.id, rec, a.countOk);
    if s == Swap(w.rows, a.id, Reserved, rec) {
      SwapStep(w, a.id, a.op, rec);
      var w' := After(w, a.id, s);
      if s.current.Found? && s.current.row.state == Signed {
        ReturnStep(w', Sent(a.id, s.current.row.authorized));
        RecordsAside(w'.(returned := w'.returned + {Sent(a.id, s.current.row.authorized)}), Do(w, a).answers, w'.settled);
      }
    }
  }

  lemma CheckpointStep(w: World, a: Action)
    requires Inv(w) && Enabled(w, a) && a.DoCheckpoints?
    ensures Inv(Do(w, a)) && Advance(w, Do(w, a))
  {
    var rec := a.op.(checkpoints := a.cosigned, checkpointRequest := a.request, state := Submitted);
    var s := Transition(w.rows, a.id, Signed, rec);
    SwapStep(w, a.id, a.op, rec);
    if s.current.Found? && s.current.row.state == Submitted {
      var w', sent := After(w, a.id, s), Sent(a.id, s.current.row.checkpoints);
      CosignStep(w', sent);
      RecordsAside(w'.(cosigned := w'.cosigned + {sent}), Do(w, a).answers, w'.settled);
    }
  }

  lemma ViewStep(w: World, a: Action)
    requires Inv(w) && Enabled(w, a) && a.DoView?
    ensures Inv(Do(w, a)) && Advance(w, Do(w, a))
  {
    var w' := w.(returned := w.returned + {Sent(a.id, a.op.authorized)});
    ReturnStep(w, Sent(a.id, a.op.authorized));
    if a.op.state == Submitted {
      CosignStep(w', Sent(a.id, a.op.checkpoints));
    }
  }

  lemma ReplayStep(w: World, a: Action)
    requires Inv(w) && Enabled(w, a) && (a.DoReplayAuthorize? || a.DoReplayCheckpoints?)
    ensures Inv(Do(w, a)) && Advance(w, Do(w, a))
  {
    assert Version(a.op, w.rows[a.id]);
    if a.DoReplayAuthorize? {
      ReturnStep(w, Sent(a.id, a.op.authorized));
      RecordsAside(w.(returned := w.returned + {Sent(a.id, a.op.authorized)}), Do(w, a).answers, w.settled);
    } else {
      CosignStep(w, Sent(a.id, a.op.checkpoints));
      RecordsAside(w.(cosigned := w.cosigned + {Sent(a.id, a.op.checkpoints)}), Do(w, a).answers, w.settled);
    }
  }

  /** Steps that write no row: reads, replays, views and a restart. */
  lemma ReadingStep(w: World, a: Action)
    requires Inv(w) && Enabled(w, a)
    requires a.DoRead? || a.DoReplayAuthorize? || a.DoReplayCheckpoints? || a.DoView? || a.DoRestart?
    ensures Inv(Do(w, a)) && Advance(w, Do(w, a))
  {
    if a.DoRead? {
      LearnStep(w, a.id, Load(w.rows, a.id));
    } else if a.DoReplayAuthorize? || a.DoReplayCheckpoints? {
      ReplayStep(w, a);
    } else if a.DoView? {
      ViewStep(w, a);
    }
  }

  /** What was settled and answered is no part of the invariant on rows and returns. */
  lemma RecordsAside(w: World, answers: set<Answer>, settled: set<Settled>)
    requires Inv(w)
    ensures Inv(w.(answers := answers, settled := settled))
  {
  }

  lemma SettlingStep(w: World, a: Action)
    requires Inv(w) && Enabled(w, a)
    requires a.DoPromote? || a.DoSettle? || a.DoExpire? || a.DoAbort?
    ensures Inv(Do(w, a)) && Advance(w, Do(w, a))
  {
    match a
    case DoPromote(id, op) => SwapStep(w, id, op, op.(state := Submitted));
    case DoSettle(id, op, verdict, now) =>
      var rec := op.(state := if verdict == SpentByUs then Finalized else Unresolved, created := now);
      SwapStep(w, id, op, rec);
      RecordsAside(After(w, id, Swap(w.rows, id, Submitted, rec)), w.answers, Do(w, a).settled);
    case DoExpire(id, op, now) => SwapStep(w, id, op, op.(state := Aborted));
    case DoAbort(id, op) => SwapStep(w, id, op, op.(state := Aborted));
  }

  lemma StepKeepsInv(w: World, a: Action)
    requires Inv(w) && Enabled(w, a)
    ensures Inv(Do(w, a)) && Advance(w, Do(w, a))
  {
    if a.DoReserve? {
      ReserveAdvances(w.rows, a.id, a.rec, a.now, a.admitted);
      AdvanceKeeps(w, Reserve(w.rows, a.id, a.rec, a.now, a.admitted));
    } else if a.DoAuthorize? {
      AuthorizeStep(w, a);
    } else if a.DoCheckpoints? {
      CheckpointStep(w, a);
    } else if a.DoPromote? || a.DoSettle? || a.DoExpire? || a.DoAbort? {
      SettlingStep(w, a);
    } else {
      ReadingStep(w, a);
    }
  }

  lemma InvIsInductive()
    ensures Runs.Inductive(Init, Next, Inv)
    ensures Runs.KeptByStep(Next, Inv, Advance)
  {
    forall w, w' | Inv(w) && Next(w, w') ensures Inv(w') && Advance(w, w') {
      var a :| Enabled(w, a) && (w' == Do(w, a) || w' == Unlearned(w, a));
      StepKeepsInv(w, a);
      AdvanceKeeps(w, Do(w, a).rows);
    }
    forall w, w', w'' | Advance(w, w') && Advance(w', w'') ensures Advance(w, w'') {
      forall id | id in w.rows ensures id in w''.rows && Version(w.rows[id], w''.rows[id]) {
        VersionTransitive(w.rows[id], w'.rows[id], w''.rows[id]);
      }
    }
  }

  // ----- main results

  ghost predicate IsPath(p: seq<OpState>, from: OpState, to: OpState) {
    && |p| > 0 && p[0] == from && p[|p| - 1] == to
    && forall i :: 0 <= i < |p| - 1 ==> ValidTransition(p[i], p[i + 1])
  }

  lemma {:induction false} PathReaches(p: seq<OpState>, from: OpState, to: OpState)
    requires IsPath(p, from, to)
    ensures Reaches(from, to)
    decreases |p|
  {
    if |p| > 1 {
      assert ValidTransition(p[0], p[0 + 1]);
      PathReaches(p[1..], p[1], to);
    }
  }

  lemma ReachesIsPath(from: OpState, to: OpState)
    ensures Reaches(from, to) <==> exists p :: IsPath(p, from, to)
  {
    if Reaches(from, to) {
      var p :=
        if from == to then [from]
        else if from == Reserved && (to == Finalized || to == Unresolved) then [Reserved, Signed, Submitted, to]
        else if from == Reserved && to == Submitted then [Reserved, Signed, to]
        else if from == Signed && to != Submitted then [Signed, Submitted, to]
        else [from, to];
      assert IsPath(p, from, to);
    }
    if p :| IsPath(p, from, to) {
      PathReaches(p, from, to);
    }
  }

  /** In every run each operation follows a path of the state graph, keeps its reserved
      facts, and never changes again once it is terminal. */
  lemma OperationsFollowGraph(run: seq<World>, i: nat, j: nat, id: OpId)
    requires Runs.IsRun(Init, Next, run) && i <= j < |run| && id in run[i].rows
    ensures id in run[j].rows && run[j].rows[id].facts == run[i].rows[id].facts
    ensures exists p :: IsPath(p, run[i].rows[id].state, run[j].rows[id].state)
    ensures run[i].rows[id].state in {Finalized, Aborted, Unresolved} ==> run[j].rows[id] == run[i].rows[id]
  {
    InvIsInductive();
    Runs.RelationHolds(Init, Next, Inv, Advance, run, i, j);
    ReachesIsPath(run[i].rows[id].state, run[j].rows[id].state);
  }

  /** Whatever the signer answered and however many clients raced: an authorised
      transaction that was ever returned is, from then on, the one in the durable row,
      and its operation is not and never becomes aborted. */
  lemma ReturnedIsTheDurableOne(run: seq<World>, i: nat, j: nat, sent: Sent)
    requires Runs.IsRun(Init, Next, run) && i <= j < |run| && sent in run[i].returned
    ensures sent.id in run[j].rows && run[j].rows[sent.id].authorized == sent.psbt
    ensures run[j].rows[sent.id].state != Aborted && run[j].rows[sent.id].state != Reserved
    ensures forall other :: other in run[j].returned && other.id == sent.id ==> other.psbt == sent.psbt
  {
    InvIsInductive();
    Runs.RelationHolds(Init, Next, Inv, Advance, run, i, j);
    Runs.InvariantHolds(Init, Next, Inv, run, j);
  }

  /** The same for the cosigned checkpoint bundle. */
  lemma CosignedIsTheDurableOne(run: seq<World>, i: nat, j: nat, sent: Sent)
    requires Runs.IsRun(Init, Next, run) && i <= j < |run| && sent in run[i].cosigned
    ensures sent.id in run[j].rows && run[j].rows[sent.id].checkpoints == sent.psbt
    ensures Reaches(Submitted, run[j].rows[sent.id].state)
    ensures forall other :: other in run[j].cosigned && other.id == sent.id ==> other.psbt == sent.psbt
  {
    InvIsInductive();
    Runs.RelationHolds(Init, Next, Inv, Advance, run, i, j);
    Runs.InvariantHolds(Init, Next, Inv, run, j);
  }

  /** An aborted operation never had, and never will have, a transaction returned. */
  lemma AbortedReturnsNothing(run: seq<World>, i: nat, j: nat, id: OpId)
    requires Runs.IsRun(Init, Next, run) && i < |run| && j < |run|
    requires id in run[i].rows && run[i].rows[id].state == Aborted
    ensures forall sent :: sent in run[j].returned ==> sent.id != id
  {
    forall sent | sent in run[j].returned ensures sent.id != id {
      if sent.id == id {
        if j <= i {
          ReturnedIsTheDurableOne(run, j, i, sent);
        } else {
          OperationsFollowGraph(run, i, j, id);
          ReturnedIsTheDurableOne(run, j, j, sent);
        }
      }
    }
  }

  /** Reservations exclude each other in every reachable state: no outpoint is locked
      twice, no vault has two unfinished operations, and the artifact check of abort
      never fires on a reserved row. */
  lemma ReservationsExclude(run: seq<World>, i: nat)
    requires Runs.IsRun(Init, Next, run) && i < |run|
    ensures InputsExclusive(run[i].rows) && OnePerVault(run[i].rows)
    ensures forall id :: id in run[i].rows && run[i].rows[id].state in {Reserved, Aborted} ==>
              var r := run[i].rows[id];
              r.unsigned == r.authorized == r.proofDigest == r.authorizedProof == r.checkpoints == r.checkpointRequest == r.arkTxid == ""
  {
    InvIsInductive();
    Runs.InvariantHolds(Init, Next, Inv, run, i);
  }

  // ----- what each action writes

  /** ReserveVtxoOperation lets an operation in exactly when it is a reservation of 1 to 50
      inputs under a fresh id, everything else admits it, and among the operations that are
      not expired reservations of its vault none that is unfinished or finalized has one of its
      inputs and none of its vault is unfinished or unresolved. The expired ones are then
      aborted, and nothing else changes. */
  lemma ReserveIff(rows: Rows, id: OpId, rec: Row, now: int, admitted: bool)
    ensures var (rows', vault) := (Reserve(rows, id, rec, now, admitted), rec.facts.vault);
            if && rec.state == Reserved && 1 <= |rec.facts.inputs| <= 50 && admitted && id !in rows
               && forall k :: k in rows && !(rows[k].facts.vault == vault && rows[k].state == Reserved && rows[k].expires <= now) ==>
                    && (rows[k].state in {Reserved, Signed, Submitted, Finalized} ==> rows[k].facts.inputs !! rec.facts.inputs)
                    && (rows[k].facts.vault == vault ==> rows[k].state !in {Reserved, Signed, Submitted, Unresolved})
            then && rows'.Keys == rows.Keys + {id} && rows'[id] == rec
                 && forall k :: k in rows ==>
                      rows'[k] == if rows[k].facts.vault == vault && rows[k].state == Reserved && rows[k].expires <= now
                                  then rows[k].(state := Aborted) else rows[k]
            else rows' == rows
  {
    assert rec.facts.inputs == {} <==> |rec.facts.inputs| == 0;
    if id !in rows { FreeIff(rows, id, rec, now); }
  }

  lemma FreeIff(rows: Rows, id: OpId, rec: Row, now: int)
    requires id !in rows
    ensures var (live, vault) := (AbortExpired(rows, rec.facts.vault, now), rec.facts.vault);
            !Overlaps(live, id, rec.facts.inputs) && !Concurrent(live, id, vault) <==>
            forall k :: k in rows && !(rows[k].facts.vault == vault && rows[k].state == Reserved && rows[k].expires <= now) ==>
              && (rows[k].state in {Reserved, Signed, Submitted, Finalized} ==> rows[k].facts.inputs !! rec.facts.inputs)
              && (rows[k].facts.vault == vault ==> rows[k].state !in {Reserved, Signed, Submitted, Unresolved})
  {
    var live := AbortExpired(rows, rec.facts.vault, now);
    assert forall k :: k in rows <==> k in live;
  }

  /** Authorizing a reserved row stores the request, the proof and the signed transaction, and
      hands that transaction out; with a refused counter nothing is stored. */
  lemma AuthorizeEffect(w: World, id: OpId, req: AuthorizeRequest, ark: Psbt, proof: Psbt, countOk: bool)
    requires id in w.rows && w.rows[id].state == Reserved
    ensures var (op, w') := (w.rows[id], Do(w, DoAuthorize(id, w.rows[id], req, ark, proof, countOk)));
            if countOk then
              && w'.rows == w.rows[id := Row(op.facts, Signed, req.unsigned, ark, req.proofDigest, proof, req.checkpoints,
                                             op.checkpointRequest, req.arkTxid, op.expires, op.created)]
              && w'.returned == w.returned + {Sent(id, ark)} && w'.known == w.known + {Seen(id, w'.rows[id])}
              && w'.answers == w.answers + {ToAuthorize(id, req.unsigned, req.proofDigest, ark)}
            else w'.rows == w.rows && w'.returned == w.returned && w'.answers == w.answers
  {
  }

  /** A request that lost the race gets the stored transaction if it is the very request that
      was signed with a counter that is accepted, and nothing otherwise; no row changes. */
  lemma LateAuthorizeEffect(w: World, id: OpId, op: Row, req: AuthorizeRequest, ark: Psbt, proof: Psbt, countOk: bool)
    requires id in w.rows && w.rows[id].facts.vault == op.facts.vault && w.rows[id].state != Reserved
    ensures var (row, w') := (w.rows[id], Do(w, DoAuthorize(id, op, req, ark, proof, countOk)));
            && w'.rows == w.rows
            && w'.returned == (if && row.state == Signed && countOk
                                  && row.unsigned == req.unsigned && row.checkpoints == req.checkpoints
                                  && row.proofDigest == req.proofDigest && row.authorizedProof != ""
                               then w.returned + {Sent(id, row.authorized)} else w.returned)
            && (w'.returned != w.returned ==> w'.answers == w.answers + {ToAuthorize(id, req.unsigned, req.proofDigest, row.authorized)})
            && w'.known == if row.state == Signed && !countOk then w.known else w.known + {Seen(id, row)}
  {
  }

  lemma ReplayAuthorizeEffect(w: World, id: OpId, op: Row, req: AuthorizeRequest, countOk: bool)
    ensures var w' := Do(w, DoReplayAuthorize(id, op, req, countOk));
            && w'.rows == w.rows
            && w'.returned == if countOk && id in w.rows && w.rows[id].state == Signed && w.rows[id].facts.vault == op.facts.vault
                              then w.returned + {Sent(id, op.authorized)} else w.returned
  {
  }

  /** Cosigning the checkpoints of a signed row stores them with their request and hands them
      out; a request that comes late gets the stored ones if it is the very request. */
  lemma CheckpointsEffect(w: World, id: OpId, op: Row, request: Psbt, cosigned: Psbt)
    requires id in w.rows && w.rows[id].facts.vault == op.facts.vault
    ensures var (row, w') := (w.rows[id], Do(w, DoCheckpoints(id, op, request, cosigned)));
            if row.state == Signed then
              && w'.rows == w.rows[id := op.(checkpoints := cosigned, checkpointRequest := request, state := Submitted)]
              && w'.cosigned == w.cosigned + {Sent(id, cosigned)} && w'.known == w.known + {Seen(id, w'.rows[id])}
              && w'.answers == w.answers + {ToCheckpoints(id, request, cosigned)}
            else
              && w'.rows == w.rows
              && w'.cosigned == (if row.state == Submitted && row.checkpointRequest == request
                                 then w.cosigned + {Sent(id, row.checkpoints)} else w.cosigned)
              && w'.answers == (if row.state == Submitted && row.checkpointRequest == request
                                then w.answers + {ToCheckpoints(id, request, row.checkpoints)} else w.answers)
              && w'.known == w.known + {Seen(id, row)}
  {
  }

  /** The other writes move a row that is still where it was read, and change nothing else in
      it: promote to submitted, expire and abort to aborted, settle to finalized or unresolved
      as the indexer says. */
  lemma MoveEffect(w: World, a: Action)
    requires a.DoPromote? || a.DoExpire? || a.DoAbort? || a.DoSettle?
    requires a.id in w.rows && w.rows[a.id].facts.vault == a.op.facts.vault
    ensures var (row, rows') := (w.rows[a.id], Do(w, a).rows);
            match a
            case DoPromote(id, op) => rows' == if row.state == Signed then w.rows[id := op.(state := Submitted)] else w.rows
            case DoExpire(id, op, _) => rows' == if row.state == Reserved then w.rows[id := op.(state := Aborted)] else w.rows
            case DoAbort(id, op) => rows' == if row.state == Reserved then w.rows[id := op.(state := Aborted)] else w.rows
            case DoSettle(id, op, SpentByUs, now) =>
              rows' == if row.state == Submitted then w.rows[id := op.(state := Finalized, created := now)] else w.rows
            case DoSettle(id, op, SpentByOther, now) =>
              rows' == if row.state == Submitted then w.rows[id := op.(state := Unresolved, created := now)] else w.rows
            case _ => true
    ensures Do(w, a).returned == w.returned && Do(w, a).cosigned == w.cosigned
    ensures Do(w, a).known == w.known + {Seen(a.id, Do(w, a).rows[a.id])}
  {
  }

  /** Reserving writes what the store's rule gives and tells the client nothing else; a restart
      forgets every row that was read. */
  lemma OtherEffects(w: World, a: Action)
    ensures a.DoReserve? ==> Do(w, a) == w.(rows := Reserve(w.rows, a.id, a.rec, a.now, a.admitted))
    ensures a.DoRestart? ==> Do(w, a) == w.(known := {})
    ensures Unlearned(w, a) == w.(rows := Do(w, a).rows, settled := Do(w, a).settled)
  {
  }

  /** Reading, replaying and viewing write nothing; a view hands out what the row holds. */
  lemma ReadingEffect(w: World, a: Action)
    requires a.DoRead? || a.DoReplayCheckpoints? || a.DoView? || a.DoRestart?
    ensures Do(w, a).rows == w.rows
    ensures Do(w, a).returned == if a.DoView? then w.returned + {Sent(a.id, a.op.authorized)} else w.returned
    ensures Do(w, a).cosigned == if a.DoReplayCheckpoints? || (a.DoView? && a.op.state == Submitted)
                                 then w.cosigned + {Sent(a.id, a.op.checkpoints)} else w.cosigned
    ensures a.DoRead? && a.id in w.rows ==> Do(w, a).known == w.known + {Seen(a.id, w.rows[a.id])}
  {
  }

  /** The edges of the state graph, and what a compare-and-swap answers: the row it wrote, or
      the row that is there. */
  lemma TransitionExactly(rows: Rows, id: OpId, expected: OpState, rec: Row)
    ensures var edge := (expected, rec.state) in {(Reserved, Signed), (Reserved, Aborted), (Signed, Submitted),
                                                  (Submitted, Finalized), (Submitted, Unresolved)};
            Transition(rows, id, expected, rec) ==
              if edge && id in rows && rows[id].facts.vault == rec.facts.vault && rows[id].state == expected
              then Swapped(rows[id := rec], Found(rec), true)
              else Swapped(rows, if edge && id in rows then Found(rows[id]) else Missing, false)
  {
  }

  /** Signing commits with the counter or not at all; where it comes too late the stored row is
      shown, but a signed one only to an accepted counter. */
  lemma CommitExactly(rows: Rows, id: OpId, rec: Row, countOk: bool)
    ensures var here := id in rows && rows[id].facts.vault == rec.facts.vault && rows[id].state == Reserved;
            CommitSigned(rows, id, rec, countOk) ==
              if rec.state == Signed && here && countOk then Swapped(rows[id := rec], Found(rec), true)
              else if rec.state == Signed && !here && id in rows && (rows[id].state == Signed ==> countOk)
              then Swapped(rows, Found(rows[id]), false)
              else Swapped(rows, Missing, false)
  {
  }

  // ----- an answer belongs to its request

  ghost predicate AnswerOk(rows: Rows, x: Answer) {
    && x.id in rows && Authorised(rows[x.id].state)
    && match x
       case ToAuthorize(id, unsigned, proofDigest, psbt) =>
         rows[id].unsigned == unsigned && rows[id].proofDigest == proofDigest && rows[id].authorized == psbt
       case ToCheckpoints(id, request, psbt) =>
         rows[id].state != Signed && rows[id].checkpointRequest == request && rows[id].checkpoints == psbt
  }

  ghost predicate InvAnswers(w: World) { Inv(w) && forall x :: x in w.answers ==> AnswerOk(w.rows, x) }

  lemma AnswerStays(rows: Rows, rows': Rows, x: Answer)
    requires RowsAdvance(rows, rows') && AnswerOk(rows, x)
    ensures AnswerOk(rows', x)
  {
    assert Version(rows[x.id], rows'[x.id]);
  }

  /** A new answer is that of the row as the step leaves it. */
  lemma NewAnswerOk(w: World, a: Action, x: Answer)
    requires Inv(w) && Enabled(w, a) && x in Do(w, a).answers && x !in w.answers
    ensures AnswerOk(Do(w, a).rows, x)
  {
    match a
    case DoAuthorize(id, op, _, _, _, _) => assert Version(op, w.rows[id]);
    case DoReplayAuthorize(id, op, _, _) => assert Version(op, w.rows[id]);
    case DoCheckpoints(id, op, _, _) => assert Version(op, w.rows[id]);
    case DoReplayCheckpoints(id, op, _) => assert Version(op, w.rows[id]);
    case _ =>
  }

  lemma AnswersAreInductive()
    ensures Runs.Inductive(Init, Next, InvAnswers)
  {
    InvIsInductive();
    forall w, w' | InvAnswers(w) && Next(w, w') ensures InvAnswers(w') {
      var a :| Enabled(w, a) && (w' == Do(w, a) || w' == Unlearned(w, a));
      StepKeepsInv(w, a);
      forall x | x in w'.answers ensures AnswerOk(w'.rows, x) {
        if x in w.answers { AnswerStays(w.rows, w'.rows, x); } else { NewAnswerOk(w, a, x); }
      }
    }
  }

  /** In every run an authorize request is answered only with the transaction that was signed
      for this very request, and a checkpoint request only with the bundle cosigned for it: the
      durable row still holds request and answer together. */
  lemma AnswersMatchTheirRequest(run: seq<World>, i: nat, j: nat, x: Answer)
    requires Runs.IsRun(Init, Next, run) && i <= j < |run| && x in run[i].answers
    ensures x.id in run[j].rows
    ensures var row := run[j].rows[x.id];
            match x
            case ToAuthorize(_, unsigned, proofDigest, psbt) => row.unsigned == unsigned && row.proofDigest == proofDigest && row.authorized == psbt
            case ToCheckpoints(_, request, psbt) => row.checkpointRequest == request && row.checkpoints == psbt
  {
    AnswersAreInductive();
    InvIsInductive();
    Runs.InvariantHolds(Init, Next, InvAnswers, run, i);
    Runs.RelationHolds(Init, Next, Inv, Advance, run, i, j);
    AnswerStays(run[i].rows, run[j].rows, x);
  }

  // ----- a terminal state has its verdict

  ghost predicate VerdictsOk(w: World) {
    forall id :: id in w.rows ==>
      && (w.rows[id].state == Finalized ==> Settled(id, SpentByUs) in w.settled)
      && (w.rows[id].state == Unresolved ==> Settled(id, SpentByOther) in w.settled)
  }

  ghost predicate InvSettled(w: World) { Inv(w) && VerdictsOk(w) }

  ghost predicate Ends(s: OpState) { s == Finalized || s == Unresolved }

  /** Reserving ends no operation, but for aborting the expired. */
  lemma ReserveEndsNothing(rows: Rows, id: OpId, rec: Row, now: int, admitted: bool, k: OpId)
    requires var rows' := Reserve(rows, id, rec, now, admitted); k in rows' && Ends(rows'[k].state)
    ensures k in rows && rows[k] == Reserve(rows, id, rec, now, admitted)[k]
  {
  }

  /** An operation that ends in a step was ended by the verdict of that step. */
  lemma EndedByItsVerdict(w: World, a: Action, k: OpId)
    requires Enabled(w, a) && k in Do(w, a).rows && Ends(Do(w, a).rows[k].state)
    requires k !in w.rows || w.rows[k].state != Do(w, a).rows[k].state
    ensures a.DoSettle? && Settled(k, if Do(w, a).rows[k].state == Finalized then SpentByUs else SpentByOther) in Do(w, a).settled
  {
    match a
    case DoReserve(id, rec, now, admitted) => ReserveEndsNothing(w.rows, id, rec, now, admitted, k);
    case DoSettle(_, _, _, _) =>
    case _ =>
  }

  lemma StepKeepsVerdicts(w: World, a: Action)
    requires InvSettled(w) && Enabled(w, a)
    ensures VerdictsOk(Do(w, a)) && VerdictsOk(Unlearned(w, a))
  {
    assert w.settled <= Do(w, a).settled;
    forall k | k in Do(w, a).rows && Ends(Do(w, a).rows[k].state)
      ensures Settled(k, if Do(w, a).rows[k].state == Finalized then SpentByUs else SpentByOther) in Do(w, a).settled
    {
      if k !in w.rows || w.rows[k].state != Do(w, a).rows[k].state { EndedByItsVerdict(w, a, k); }
    }
  }

  lemma SettledIsInductive()
    ensures Runs.Inductive(Init, Next, InvSettled)
  {
    InvIsInductive();
    forall w, w' | InvSettled(w) && Next(w, w') ensures InvSettled(w') {
      var a :| Enabled(w, a) && (w' == Do(w, a) || w' == Unlearned(w, a));
      StepKeepsVerdicts(w, a);
    }
  }

  /** In every run an operation is finalized only after the indexer found its inputs spent by
      this operation, and unresolved only after it found them spent by another. */
  lemma TerminalHasItsVerdict(run: seq<World>, i: nat, id: OpId)
    requires Runs.IsRun(Init, Next, run) && i < |run| && id in run[i].rows
    ensures run[i].rows[id].state == Finalized ==> Settled(id, SpentByUs) in run[i].settled
    ensures run[i].rows[id].state == Unresolved ==> Settled(id, SpentByOther) in run[i].settled
  {
    SettledIsInductive();
    Runs.InvariantHolds(Init, Next, InvSettled, run, i);
  }

  /** A verdict is recorded by nothing but a settle step with it that found the row submitted. */
  lemma OnlySettlingSettles(w: World, a: Action, x: Settled)
    requires Enabled(w, a) && x in Do(w, a).settled && x !in w.settled
    ensures a.DoSettle? && a.id == x.id && a.verdict == x.verdict
    ensures x.id in w.rows && w.rows[x.id].state == Submitted
  {
  }
}
