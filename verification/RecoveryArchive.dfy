/** The recovery archive: one opaque payload per vault, replaced under a revision fence by
    any number of sessions, with the header of the first payload pinned for good. */
module RecoveryArchive {
  import opened Basics
  import Runs

  type VaultId = string
  type Token = string

  const MAX_BYTES := 3_000_000
  const MAX_REVISION := 0x1F_FFFF_FFFF_FFFF
  const MAX_SESSIONS := 256
  const SESSION_TTL := 28_800

  /** The enrolled facts an archive header must repeat. */
  type Binding = string

  /** A header; its digest is injective, so headers stand for their digests. */
  datatype Header = Header(binding: Binding, rest: string)

  /** A payload text of some size: a well-formed envelope, or anything else. */
  datatype Payload = Envelope(header: Header, sealed: string, size: nat) | Malformed(size: nat)

  datatype Backup = Backup(revision: nat, payload: Payload)

  type Rows = map<VaultId, Backup>

  // ----- the store

  datatype Put = Saved(rows: Rows, backup: Backup) | Fenced

  /** PutRecoveryBackup */
  function PutBackup(rows: Rows, id: VaultId, expected: nat, payload: Payload): Put {
    if |id| == 0 || |id| > 128 || payload.size == 0 || payload.size > MAX_BYTES || expected >= MAX_REVISION then Fenced
    else
      var current := if id in rows then rows[id].revision else 0;
      if id in rows && current == expected + 1 && rows[id].payload == payload then Saved(rows, rows[id])
      else if current != expected then Fenced
      else Saved(rows[id := Backup(expected + 1, payload)], Backup(expected + 1, payload))
  }

  // ----- sessions

  datatype Session = Session(vault: VaultId, binding: Binding, pinned: Option<Header>, expires: int)

  /** validateRecoveryArchive */
  function Validate(payload: Payload, binding: Binding): Option<Header> {
    if payload.Envelope? && 0 < payload.size <= MAX_BYTES && payload.header.binding == binding then Some(payload.header) else None
  }

  predicate Agrees(pinned: Option<Header>, header: Header) { pinned.None? || pinned.value == header }

  datatype State = State(rows: Rows, sessions: map<Token, Session>)

  datatype Reply = Failed | Answer(backup: Option<Backup>)

  datatype Result = Result(state: State, reply: Reply)

  /** readArchiveLocked: the session with the stored header pinned, or a refusal. */
  function Pin(rows: Rows, session: Session): Option<Session> {
    if session.vault !in rows then Some(session)
    else
      var header := Validate(rows[session.vault].payload, session.binding);
      if header.None? || !Agrees(session.pinned, header.value) then None
      else Some(session.(pinned := header))
  }

  /** The live session of a token. `binding` is the vault's current enrollment, if any. */
  predicate LiveSession(s: State, token: Token, now: int, binding: Option<Binding>) {
    token in s.sessions && now < s.sessions[token].expires && binding == Some(s.sessions[token].binding)
  }

  function WithoutExpired(s: State, token: Token, now: int): State {
    if token in s.sessions && now >= s.sessions[token].expires then s.(sessions := s.sessions - {token}) else s
  }

  function ReadArchive(s: State, token: Token, now: int, binding: Option<Binding>): Result {
    if !LiveSession(s, token, now, binding) then Result(WithoutExpired(s, token, now), Failed)
    else
      var session := Pin(s.rows, s.sessions[token]);
      if session.None? then Result(s, Failed)
      else
        var vault := session.value.vault;
        Result(s.(sessions := s.sessions[token := session.value]),
          Answer(if vault in s.rows then Some(s.rows[vault]) else None))
  }

  function WriteArchive(s: State, token: Token, now: int, binding: Option<Binding>, revision: nat, payload: Payload): Result {
    if !LiveSession(s, token, now, binding) then Result(WithoutExpired(s, token, now), Failed)
    else
      var session := Pin(s.rows, s.sessions[token]);
      if session.None? then Result(s, Failed)
      else
        var header := Validate(payload, session.value.binding);
        if header.None? || !Agrees(session.value.pinned, header.value) then Result(s, Failed)
        else
          var put := PutBackup(s.rows, session.value.vault, revision, payload);
          if put.Fenced? then Result(s, Failed)
          else Result(State(put.rows, s.sessions[token := session.value.(pinned := header)]), Answer(Some(put.backup)))
  }

  function Unexpired(sessions: map<Token, Session>, now: int): map<Token, Session> {
    map t | t in sessions && now < sessions[t].expires :: sessions[t]
  }

  /** openBackup: `seen` is the backup as it was read before the lock was taken. */
  function OpenArchive(s: State, token: Token, vault: VaultId, binding: Binding, seen: Option<Backup>, now: int): Result {
    var header := if seen.Some? then Validate(seen.value.payload, binding) else None;
    if seen.Some? && header.None? then Result(s, Failed)
    else
      var live := Unexpired(s.sessions, now);
      if |live| >= MAX_SESSIONS then Result(s.(sessions := live), Failed)
      else Result(s.(sessions := live[token := Session(vault, binding, header, now + SESSION_TTL)]), Answer(seen))
  }

  /** The archive as the service holds it; the lock is held throughout each method. */
  class ArchiveService {
    var rows: Rows
    var sessions: map<Token, Session>

    constructor ()
      ensures rows == map[] && sessions == map[]
    {
      rows, sessions := map[], map[];
    }

    ghost function Current(): State
      reads this
    {
      State(rows, sessions)
    }

    method PutRecoveryBackup(id: VaultId, expected: nat, payload: Payload) returns (saved: Option<Backup>)
      modifies `rows
      ensures saved.Some? == PutBackup(old(rows), id, expected, payload).Saved?
      ensures saved.Some? ==> Saved(rows, saved.value) == PutBackup(old(rows), id, expected, payload)
      ensures saved.None? ==> rows == old(rows)
    {
      if |id| == 0 || |id| > 128 || payload.size == 0 || payload.size > MAX_BYTES || expected >= MAX_REVISION {
        return None;
      }
      var current := 0;
      if id in rows {
        current := rows[id].revision;
      }
      if id in rows && current == expected + 1 && rows[id].payload == payload {
        return Some(rows[id]);
      }
      if current != expected {
        return None;
      }
      rows := rows[id := Backup(expected + 1, payload)];
      return Some(rows[id]);
    }

    /** The session table part of openBackup. */
    method OpenRecoveryArchive(token: Token, vault: VaultId, binding: Binding, seen: Option<Backup>, now: int)
      returns (reply: Reply)
      modifies `sessions
      ensures Result(Current(), reply) == OpenArchive(old(Current()), token, vault, binding, seen, now)
    {
      var header: Option<Header> := None;
      if seen.Some? {
        header := Validate(seen.value.payload, binding);
        if header.None? {
          return Failed;
        }
      }
      var before, todo := sessions, sessions.Keys;
      while todo != {}
        invariant todo <= before.Keys
        invariant forall t :: t in sessions <==> t in before && (t in todo || now < before[t].expires)
        invariant forall t :: t in sessions ==> sessions[t] == before[t]
        decreases todo
      {
        var t :| t in todo;
        if now >= before[t].expires {
          sessions := sessions - {t};
        }
        todo := todo - {t};
      }
      assert sessions == Unexpired(before, now);
      if |sessions| >= MAX_SESSIONS {
        return Failed;
      }
      sessions := sessions[token := Session(vault, binding, header, now + SESSION_TTL)];
      return Answer(seen);
    }

    method ReadRecoveryArchive(token: Token, now: int, binding: Option<Binding>) returns (reply: Reply)
      modifies `sessions
      ensures Result(Current(), reply) == ReadArchive(old(Current()), token, now, binding)
    {
      if token !in sessions || now >= sessions[token].expires {
        sessions := sessions - {token};
        return Failed;
      }
      var session := sessions[token];
      if binding != Some(session.binding) {
        return Failed;
      }
      if session.vault !in rows {
        sessions := sessions[token := session];
        return Answer(None);
      }
      var stored := Validate(rows[session.vault].payload, session.binding);
      if stored.None? || !Agrees(session.pinned, stored.value) {
        return Failed;
      }
      sessions := sessions[token := session.(pinned := stored)];
      return Answer(Some(rows[session.vault]));
    }

    method WriteRecoveryArchive(token: Token, now: int, binding: Option<Binding>, revision: nat, payload: Payload)
      returns (reply: Reply)
      modifies this
      ensures Result(Current(), reply) == WriteArchive(old(Current()), token, now, binding, revision, payload)
    {
      if token !in sessions || now >= sessions[token].expires {
        sessions := sessions - {token};
        return Failed;
      }
      var session := sessions[token];
      if binding != Some(session.binding) {
        return Failed;
      }
      if session.vault in rows {
        var stored := Validate(rows[session.vault].payload, session.binding);
        if stored.None? || !Agrees(session.pinned, stored.value) {
          return Failed;
        }
        session := session.(pinned := stored);
      }
      var header := Validate(payload, session.binding);
      if header.None? || !Agrees(session.pinned, header.value) {
        return Failed;
      }
      var saved := PutRecoveryBackup(session.vault, revision, payload);
      if saved.None? {
        return Failed;
      }
      sessions := sessions[token := session.(pinned := header)];
      return Answer(saved);
    }
  }

  // ----- every run

  /** One stored write: the revision its writer named, and the payload. */
  datatype Written = Written(named: nat, payload: Payload)

  /** `history` is every write that changed a row, oldest first. */
  datatype World = World(state: State, history: map<VaultId, seq<Written>>)

  datatype Step =
    | Open(token: Token, vault: VaultId, enrolled: Binding, seen: Option<Backup>, now: int)
    | Read(token: Token, now: int, binding: Option<Binding>)
    | Write(token: Token, now: int, binding: Option<Binding>, revision: nat, payload: Payload, commit: Commit)
    | Restart

  function History(w: World, v: VaultId): seq<Written> { if v in w.history then w.history[v] else [] }

  /** What an opener saw is some earlier state of the row, or its absence. */
  ghost predicate Enabled(w: World, s: Step) {
    s.Open? && s.seen.Some? ==>
      1 <= s.seen.value.revision <= |History(w, s.vault)|
      && History(w, s.vault)[s.seen.value.revision - 1].payload == s.seen.value.payload
  }

  function Do(w: World, s: Step): World {
    match s
    case Open(token, vault, enrolled, seen, now) => w.(state := OpenArchive(w.state, token, vault, enrolled, seen, now).state)
    case Read(token, now, binding) => w.(state := ReadArchive(w.state, token, now, binding).state)
    case Write(token, now, binding, revision, payload, commit) =>
      var next := WriteArchive(w.state, token, now, binding, revision, payload);
      if next.reply == Failed then w.(state := next.state)
      else if commit == Refused then w
      else
        var state := if commit == Committed then next.state else w.state.(rows := next.state.rows);
        if state.rows == w.state.rows || token !in w.state.sessions then w.(state := state)
        else
          var v := w.state.sessions[token].vault;
          World(state, w.history[v := History(w, v) + [Written(revision, payload)]])
    case Restart => w.(state := w.state.(sessions := map[]))
  }

  // ----- the invariant

  predicate Bounded(v: VaultId, b: Backup) { 0 < |v| <= 128 && 0 < b.payload.size <= MAX_BYTES && b.revision <= MAX_REVISION }

  /** The row is the last write, its revision the number of writes; each write named the
      revision before it; all carry one valid header. */
  ghost predicate RowOk(w: World, v: VaultId) {
    var h := History(w, v);
    && (v in w.state.rows <==> |h| > 0)
    && (v in w.state.rows ==> w.state.rows[v].revision == |h| && w.state.rows[v].payload == h[|h| - 1].payload)
    && (v in w.state.rows ==> Bounded(v, w.state.rows[v]))
    && (forall i :: 0 <= i < |h| ==> h[i].named == i && h[i].payload.Envelope?)
    && (forall i :: 0 <= i < |h| ==> h[i].payload.header == h[0].payload.header)
  }

  /** A session is pinned to nothing, or to the header of its vault's first payload. */
  ghost predicate PinOk(w: World, session: Session) {
    session.pinned.Some? ==>
      |History(w, session.vault)| > 0 && History(w, session.vault)[0].payload.Envelope?
      && session.pinned.value == History(w, session.vault)[0].payload.header
  }

  ghost predicate PinsOk(w: World) { forall t :: t in w.state.sessions ==> PinOk(w, w.state.sessions[t]) }

  ghost predicate Inv(w: World) { (forall v :: RowOk(w, v)) && PinsOk(w) && |w.state.sessions| <= MAX_SESSIONS }

  ghost predicate Init(w: World) { w == World(State(map[], map[]), map[]) }

  ghost predicate Next(w: World, w': World) { exists s :: Enabled(w, s) && w' == Do(w, s) }

  ghost predicate Extends(w: World, w': World) { forall v :: History(w, v) <= History(w', v) }

  /** A write that changes anything replaces exactly the named revision, by the next one,
      and keeps the header of what it replaced. */
  lemma WriteReplacesNamed(s: State, token: Token, now: int, binding: Option<Binding>, revision: nat, payload: Payload)
    requires WriteArchive(s, token, now, binding, revision, payload).state.rows != s.rows
    ensures token in s.sessions
    ensures var v, rows := s.sessions[token].vault, WriteArchive(s, token, now, binding, revision, payload).state.rows;
            && rows == s.rows[v := Backup(revision + 1, payload)] && payload.Envelope? && Bounded(v, rows[v])
            && (if v in s.rows then s.rows[v].revision == revision else revision == 0)
            && (v in s.rows && s.rows[v].payload.Envelope? ==> s.rows[v].payload.header == payload.header)
  {
  }

  /** What an answered write leaves in the session: the header of the row it answers. */
  lemma WritePinsAnswered(s: State, token: Token, now: int, binding: Option<Binding>, revision: nat, payload: Payload)
    requires WriteArchive(s, token, now, binding, revision, payload).reply.Answer? && payload.Envelope?
    ensures token in s.sessions
    ensures var next, session := WriteArchive(s, token, now, binding, revision, payload).state, s.sessions[token];
            && next.sessions == s.sessions[token := session.(pinned := Some(payload.header))]
            && session.vault in next.rows && next.rows[session.vault].payload == payload
  {
  }

  lemma AppendKeepsRow(w: World, v: VaultId, payload: Payload, w': World)
    requires RowOk(w, v) && payload.Envelope?
    requires v in w.state.rows && w.state.rows[v].payload.Envelope? ==> w.state.rows[v].payload.header == payload.header
    requires History(w', v) == History(w, v) + [Written(|History(w, v)|, payload)]
    requires v in w'.state.rows && w'.state.rows[v] == Backup(|History(w, v)| + 1, payload) && Bounded(v, w'.state.rows[v])
    ensures RowOk(w', v)
  {
  }

  /** A write step that changes the rows writes one row and its history entry. */
  lemma WriteStep(w: World, s: Step)
    requires s.Write? && Do(w, s).state.rows != w.state.rows
    ensures s.token in w.state.sessions
    ensures var v := w.state.sessions[s.token].vault;
            && Do(w, s).history == w.history[v := History(w, v) + [Written(s.revision, s.payload)]]
            && Do(w, s).state.rows == WriteArchive(w.state, s.token, s.now, s.binding, s.revision, s.payload).state.rows
  {
  }

  lemma WriteKeepsRow(w: World, s: Step, v: VaultId)
    requires RowOk(w, v) && s.Write? && Do(w, s).state.rows != w.state.rows
    ensures RowOk(Do(w, s), v) && History(w, v) <= History(Do(w, s), v)
  {
    WriteStep(w, s);
    WriteReplacesNamed(w.state, s.token, s.now, s.binding, s.revision, s.payload);
    if v == w.state.sessions[s.token].vault { AppendKeepsRow(w, v, s.payload, Do(w, s)); }
  }

  lemma WriteKeepsRows(w: World, s: Step)
    requires Inv(w) && s.Write?
    ensures forall v :: RowOk(Do(w, s), v)
    ensures Extends(w, Do(w, s))
  {
    var w' := Do(w, s);
    forall v ensures RowOk(w', v) && History(w, v) <= History(w', v) {
      assert RowOk(w, v);
      if w'.state.rows != w.state.rows { WriteKeepsRow(w, s, v); }
    }
  }

  lemma PinsMove(w: World, w': World, session: Session)
    requires PinOk(w, session) && Extends(w, w')
    ensures PinOk(w', session)
  {
    assert History(w, session.vault) <= History(w', session.vault);
  }

  /** A header found in the row is that of the first payload. */
  lemma RowPins(w: World, session: Session)
    requires RowOk(w, session.vault) && session.vault in w.state.rows && w.state.rows[session.vault].payload.Envelope?
    ensures PinOk(w, session.(pinned := Some(w.state.rows[session.vault].payload.header)))
  {
  }

  lemma WriteKeepsPins(w: World, s: Step)
    requires Inv(w) && s.Write? && Extends(w, Do(w, s)) && forall v :: RowOk(Do(w, s), v)
    ensures PinsOk(Do(w, s))
  {
    var w' := Do(w, s);
    var next := WriteArchive(w.state, s.token, s.now, s.binding, s.revision, s.payload);
    if next.reply.Answer? { WritePinsAnswered(w.state, s.token, s.now, s.binding, s.revision, s.payload); }
    forall t | t in w'.state.sessions ensures PinOk(w', w'.state.sessions[t]) {
      if w'.state.sessions[t] == w.state.sessions[t] {
        PinsMove(w, w', w.state.sessions[t]);
      } else {
        assert RowOk(w', w.state.sessions[t].vault);
        RowPins(w', w.state.sessions[t]);
      }
    }
  }

  lemma WriteKeepsInv(w: World, s: Step)
    requires Inv(w) && s.Write?
    ensures Inv(Do(w, s)) && Extends(w, Do(w, s))
  {
    WriteKeepsRows(w, s);
    WriteKeepsPins(w, s);
    FewerKeys(Do(w, s).state.sessions, w.state.sessions);
  }

  /** Without a write the invariant looks at nothing but the sessions. */
  lemma SameRowsKeepInv(w: World, w': World)
    requires Inv(w) && w'.state.rows == w.state.rows && w'.history == w.history && |w'.state.sessions| <= MAX_SESSIONS
    requires forall t :: t in w'.state.sessions ==> PinOk(w, w'.state.sessions[t])
    ensures Inv(w') && Extends(w, w')
  {
    forall v ensures RowOk(w', v) { assert RowOk(w, v); }
    forall t | t in w'.state.sessions ensures PinOk(w', w'.state.sessions[t]) { PinsMove(w, w', w'.state.sessions[t]); }
  }

  lemma OpenFits(s: State, token: Token, vault: VaultId, binding: Binding, seen: Option<Backup>, now: int)
    requires |s.sessions| <= MAX_SESSIONS
    ensures |OpenArchive(s, token, vault, binding, seen, now).state.sessions| <= MAX_SESSIONS
  {
    FewerKeys(Unexpired(s.sessions, now), s.sessions);
  }

  lemma OpenKeepsInv(w: World, s: Step)
    requires Inv(w) && s.Open? && Enabled(w, s)
    ensures Inv(Do(w, s)) && Extends(w, Do(w, s))
  {
    OpenFits(w.state, s.token, s.vault, s.enrolled, s.seen, s.now);
    assert RowOk(w, s.vault);
    SameRowsKeepInv(w, Do(w, s));
  }

  lemma ReadKeepsInv(w: World, s: Step)
    requires Inv(w) && s.Read?
    ensures Inv(Do(w, s)) && Extends(w, Do(w, s))
  {
    var w' := Do(w, s);
    FewerKeys(w'.state.sessions, w.state.sessions);
    forall t | t in w'.state.sessions ensures PinOk(w, w'.state.sessions[t]) {
      if w'.state.sessions[t] != w.state.sessions[t] {
        assert RowOk(w, w.state.sessions[t].vault);
        RowPins(w, w.state.sessions[t]);
      }
    }
    SameRowsKeepInv(w, w');
  }

  lemma InvIsInductive()
    ensures Runs.Inductive(Init, Next, Inv)
    ensures Runs.KeptByStep(Next, Inv, Extends)
  {
    forall w, w' | Inv(w) && Next(w, w') ensures Inv(w') && Extends(w, w') {
      var s :| Enabled(w, s) && w' == Do(w, s);
      match s
      case Write(_, _, _, _, _, _) => WriteKeepsInv(w, s);
      case Open(_, _, _, _, _) => OpenKeepsInv(w, s);
      case Read(_, _, _) => ReadKeepsInv(w, s);
      case Restart => SameRowsKeepInv(w, w');
    }
  }

  // ----- main results

  /** In every run the stored revision of a vault is the number of writes that changed it;
      write `i` named revision `i`, nothing stored is ever taken back, and every stored
      payload carries the header of the first. */
  lemma RevisionsAndHeaders(run: seq<World>, i: nat, j: nat, v: VaultId)
    requires Runs.IsRun(Init, Next, run) && i <= j < |run|
    ensures History(run[i], v) <= History(run[j], v) && |run[j].state.sessions| <= MAX_SESSIONS
    ensures var h, rows := History(run[j], v), run[j].state.rows;
            && (v in rows <==> |h| > 0)
            && (v in rows ==> rows[v].revision == |h| && rows[v].payload == h[|h| - 1].payload)
            && (forall k :: 0 <= k < |h| ==> h[k].named == k && h[k].payload.Envelope?)
            && (forall k :: 0 <= k < |h| ==> h[k].payload.header == h[0].payload.header)
  {
    InvIsInductive();
    Runs.InvariantHolds(Init, Next, Inv, run, j);
    Runs.RelationHolds(Init, Next, Inv, Extends, run, i, j);
    assert RowOk(run[j], v);
  }

  /** The state with a session's pin taken out. */
  function Unpinned(s: State, token: Token): State {
    if token in s.sessions then s.(sessions := s.sessions[token := s.sessions[token].(pinned := None)]) else s
  }

  lemma PinAgrees(w: World, session: Session)
    requires RowOk(w, session.vault) && PinOk(w, session)
    ensures session.pinned.Some? ==> session.vault in w.state.rows
    ensures session.pinned.Some? && session.vault in w.state.rows && w.state.rows[session.vault].payload.Envelope? ==>
              session.pinned.value == w.state.rows[session.vault].payload.header
    ensures Pin(w.state.rows, session.(pinned := None)).Some? == Pin(w.state.rows, session).Some?
    ensures session.vault in w.state.rows ==> Pin(w.state.rows, session.(pinned := None)) == Pin(w.state.rows, session)
  {
  }

  /** The pin never decides anything: in every reachable state a read or a write of any
      session is answered, and changes the rows, as if the session had no pin. So whatever
      a session saw when it was opened, the stored header is still the one it saw. */
  lemma PinNeverDecides(
    run: seq<World>, k: nat, token: Token, now: int, binding: Option<Binding>, revision: nat, payload: Payload)
    requires Runs.IsRun(Init, Next, run) && k < |run|
    ensures var s := run[k].state;
            var (with, without) := (WriteArchive(s, token, now, binding, revision, payload),
                                    WriteArchive(Unpinned(s, token), token, now, binding, revision, payload));
            && with.reply == without.reply && with.state.rows == without.state.rows
            && ReadArchive(s, token, now, binding).reply == ReadArchive(Unpinned(s, token), token, now, binding).reply
  {
    InvIsInductive();
    Runs.InvariantHolds(Init, Next, Inv, run, k);
    var s := run[k].state;
    if token in s.sessions {
      assert RowOk(run[k], s.sessions[token].vault);
      PinAgrees(run[k], s.sessions[token]);
    }
  }

  /** The exact retry of the last write, by any live session of the vault with the same
      enrollment and whether or not the first commit was ever acknowledged, is answered
      with the stored row and changes neither row nor history. */
  lemma RetryIsAnswered(run: seq<World>, k: nat, token: Token, now: int, binding: Option<Binding>, commit: Commit)
    requires Runs.IsRun(Init, Next, run) && k < |run| && LiveSession(run[k].state, token, now, binding)
    requires var v, rows := run[k].state.sessions[token].vault, run[k].state.rows;
             v in rows && Validate(rows[v].payload, run[k].state.sessions[token].binding).Some?
    ensures var w := run[k];
            var row := w.state.rows[w.state.sessions[token].vault];
            && row.revision > 0
            && WriteArchive(w.state, token, now, binding, row.revision - 1, row.payload).reply == Answer(Some(row))
            && var w' := Do(w, Write(token, now, binding, row.revision - 1, row.payload, commit));
               w'.state.rows == w.state.rows && w'.history == w.history
  {
    InvIsInductive();
    Runs.InvariantHolds(Init, Next, Inv, run, k);
    var s := run[k].state;
    assert RowOk(run[k], s.sessions[token].vault);
    PinAgrees(run[k], s.sessions[token]);
  }

  // ----- what each call answers

  /** The session is there, not expired, and of the enrollment the vault has now. */
  ghost predicate Serves(s: State, token: Token, now: int, binding: Option<Binding>) {
    token in s.sessions && now < s.sessions[token].expires && binding == Some(s.sessions[token].binding)
  }

  /** A payload of allowed size whose header is of this enrollment. */
  ghost predicate Proper(payload: Payload, binding: Binding) {
    payload.Envelope? && 1 <= payload.size <= 3_000_000 && payload.header.binding == binding
  }

  /** In every reachable state a read is answered with the row of its vault, or that there is
      none, exactly for a session that serves while the row is proper for it. */
  lemma ReadAnsweredExactly(run: seq<World>, k: nat, token: Token, now: int, binding: Option<Binding>)
    requires Runs.IsRun(Init, Next, run) && k < |run|
    ensures var (s, r) := (run[k].state, ReadArchive(run[k].state, token, now, binding));
            && r.state.rows == s.rows
            && if && Serves(s, token, now, binding)
                  && (s.sessions[token].vault in s.rows ==> Proper(s.rows[s.sessions[token].vault].payload, s.sessions[token].binding))
               then var v := s.sessions[token].vault; r.reply == Answer(if v in s.rows then Some(s.rows[v]) else None)
               else r.reply == Failed
  {
    InvIsInductive();
    Runs.InvariantHolds(Init, Next, Inv, run, k);
    var s := run[k].state;
    if token in s.sessions {
      assert RowOk(run[k], s.sessions[token].vault);
      PinAgrees(run[k], s.sessions[token]);
    }
  }

  /** In every reachable state a write is answered exactly for a session that serves, a proper
      payload with the header of the stored one, and either the exact retry of the last write,
      which changes nothing, or the current revision, which becomes the next. */
  lemma WriteAnsweredExactly(
    run: seq<World>, k: nat, token: Token, now: int, binding: Option<Binding>, revision: nat, payload: Payload)
    requires Runs.IsRun(Init, Next, run) && k < |run|
    ensures var (s, r) := (run[k].state, WriteArchive(run[k].state, token, now, binding, revision, payload));
            var fits := && Serves(s, token, now, binding)
                        && Proper(payload, s.sessions[token].binding) && 1 <= |s.sessions[token].vault| <= 128 && revision < 0x1F_FFFF_FFFF_FFFF
                        && (s.sessions[token].vault in s.rows ==>
                              Proper(s.rows[s.sessions[token].vault].payload, s.sessions[token].binding)
                              && s.rows[s.sessions[token].vault].payload.header == payload.header);
            if !fits then r.reply == Failed && r.state.rows == s.rows
            else
              var v := s.sessions[token].vault;
              if v in s.rows && s.rows[v] == Backup(revision + 1, payload) then r.reply == Answer(Some(s.rows[v])) && r.state.rows == s.rows
              else if revision == (if v in s.rows then s.rows[v].revision else 0)
              then r.reply == Answer(Some(Backup(revision + 1, payload))) && r.state.rows == s.rows[v := Backup(revision + 1, payload)]
              else r.reply == Failed && r.state.rows == s.rows
  {
    InvIsInductive();
    Runs.InvariantHolds(Init, Next, Inv, run, k);
    var s := run[k].state;
    if token in s.sessions {
      assert RowOk(run[k], s.sessions[token].vault);
      PinAgrees(run[k], s.sessions[token]);
    }
  }

  /** Opening drops the expired sessions, refuses a 257th and a backup that is not of the
      enrollment, and otherwise adds a session of eight hours, pinned to what was seen. */
  lemma OpenedExactly(s: State, token: Token, vault: VaultId, binding: Binding, seen: Option<Backup>, now: int)
    ensures var r := OpenArchive(s, token, vault, binding, seen, now);
            var live := map t | t in s.sessions && now < s.sessions[t].expires :: s.sessions[t];
            if seen.Some? && !Proper(seen.value.payload, binding) then r == Result(s, Failed)
            else if |live| >= 256 then r == Result(State(s.rows, live), Failed)
            else
              var header := if seen.Some? && seen.value.payload.Envelope? then Some(seen.value.payload.header) else None;
              r == Result(State(s.rows, live[token := Session(vault, binding, header, now + 28800)]), Answer(seen))
  {
    assert Unexpired(s.sessions, now) == map t | t in s.sessions && now < s.sessions[t].expires :: s.sessions[t];
  }

  /** An expired session is dropped by the first call that names it; reads and writes touch no
      other session, and an answered one leaves its own pinned to the stored header. */
  lemma SessionsExactly(s: State, token: Token, now: int, binding: Option<Binding>, revision: nat, payload: Payload, t: Token)
    ensures var (a, b) := (ReadArchive(s, token, now, binding).state.sessions, WriteArchive(s, token, now, binding, revision, payload).state.sessions);
            && (t != token ==>
                  && (t in a <==> t in s.sessions) && (t in b <==> t in s.sessions)
                  && (t in s.sessions ==> a[t] == s.sessions[t] && b[t] == s.sessions[t]))
            && (token in s.sessions && now >= s.sessions[token].expires ==> token !in a && token !in b)
            && (token in s.sessions && now < s.sessions[token].expires ==>
                  && token in a && token in b
                  && a[token] == s.sessions[token].(pinned := a[token].pinned) && b[token] == s.sessions[token].(pinned := b[token].pinned)
                  && (if ReadArchive(s, token, now, binding).reply.Answer? && s.sessions[token].vault in s.rows
                      then s.rows[s.sessions[token].vault].payload.Envelope? && a[token].pinned == Some(s.rows[s.sessions[token].vault].payload.header)
                      else a[token].pinned == s.sessions[token].pinned)
                  && (if WriteArchive(s, token, now, binding, revision, payload).reply.Answer?
                      then payload.Envelope? && b[token].pinned == Some(payload.header)
                      else b[token].pinned == s.sessions[token].pinned))
  {
  }

  /** The store on its own: a vault id of 1 to 128, a payload of 1 to 3,000,000 bytes and a
      revision below the last; then the exact retry, or the current revision. */
  lemma PutExactly(rows: Rows, id: VaultId, expected: nat, payload: Payload)
    ensures var r := PutBackup(rows, id, expected, payload);
            var fits := 1 <= |id| <= 128 && 1 <= payload.size <= 3_000_000 && expected < 0x1F_FFFF_FFFF_FFFF;
            if fits && id in rows && rows[id] == Backup(expected + 1, payload) then r == Saved(rows, rows[id])
            else if fits && expected == (if id in rows then rows[id].revision else 0)
            then r == Saved(rows[id := Backup(expected + 1, payload)], Backup(expected + 1, payload))
            else r == Fenced
  {
  }

  /** The steps of a run are these calls; a write whose commit is refused leaves everything as
      it was, and one that is not acknowledged leaves the session as it was. */
  lemma StepsExactly(w: World, s: Step)
    requires Enabled(w, s)
    ensures match s
            case Open(token, vault, enrolled, seen, now) =>
              Do(w, s) == World(OpenArchive(w.state, token, vault, enrolled, seen, now).state, w.history)
            case Read(token, now, binding) => Do(w, s) == World(ReadArchive(w.state, token, now, binding).state, w.history)
            case Restart => Do(w, s) == World(State(w.state.rows, map[]), w.history)
            case Write(token, now, binding, revision, payload, commit) =>
              var (r, w') := (WriteArchive(w.state, token, now, binding, revision, payload), Do(w, s));
              if r.reply == Failed then w' == World(r.state, w.history)
              else if commit == Refused then w' == w
              else
                && w'.state == State(r.state.rows, if commit == Committed then r.state.sessions else w.state.sessions)
                && token in w.state.sessions
                && w'.history == if r.state.rows == w.state.rows then w.history
                                 else w.history[w.state.sessions[token].vault := History(w, w.state.sessions[token].vault) + [Written(revision, payload)]]
  {
  }
}
