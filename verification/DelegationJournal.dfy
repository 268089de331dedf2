/** The journal of one delegated renewal: each phase is written at most once, in an order
    the journal itself enforces. `E` is the evidence written with a phase. */
module DelegationJournal {
  import opened Basics
  import Runs
  import opened DelegationSlots

  datatype Phase =
    | Claimed | RegisterAuthorized | RegisterDispatched | RegisterResult | BatchStarted
    | TreePrepared | NoncesCommitted | TreeSigned | FinalAuthorized | FinalDispatched | FinalResult
    | CleanupPending | CleanupAuthorized | CleanupDispatched | CleanupResult
    | Confirmed | Invalidated | Cancelled | Expired | NeedsAuthorization | Rejected
    | StreamEvent(slot: Slot)

  type Events<E> = map<Phase, E>

  const TRANSCRIPT_CAPACITY := 2064

  predicate IsTerminal(p: Phase) {
    p == Confirmed || p == Invalidated || p == Cancelled || p == Expired || p == NeedsAuthorization || p == Rejected
  }

  predicate IsCleanup(p: Phase) {
    p == CleanupPending || p == CleanupAuthorized || p == CleanupDispatched || p == CleanupResult
  }

  predicate IsStream(p: Phase) { p.StreamEvent? }

  predicate Terminal<E>(events: Events<E>) { exists p :: p in events && IsTerminal(p) }

  function Phases(): seq<Phase> {
    [Claimed, RegisterAuthorized, RegisterDispatched, RegisterResult, BatchStarted, TreePrepared, NoncesCommitted,
     TreeSigned, FinalAuthorized, FinalDispatched, FinalResult, CleanupPending, CleanupAuthorized, CleanupDispatched,
     CleanupResult, Confirmed, Invalidated, Cancelled, Expired, NeedsAuthorization, Rejected]
  }

  /** The last of the listed phases that was written, or none while armed. */
  function StateUpTo<E>(events: Events<E>, k: nat): Option<Phase>
    requires k <= |Phases()|
  {
    if k == 0 then None
    else if Phases()[k - 1] in events then
      Some(if IsCleanup(Phases()[k - 1]) then CleanupPending else Phases()[k - 1])
    else StateUpTo(events, k - 1)
  }

  function State<E>(events: Events<E>): Option<Phase> { StateUpTo(events, |Phases()|) }

  /** The state is the last of the listed phases that was written. */
  lemma {:induction false} StateIsLast<E>(events: Events<E>, k: nat, j: nat)
    requires j < k <= |Phases()| && Phases()[j] in events && forall i :: j < i < k ==> Phases()[i] !in events
    ensures StateUpTo(events, k) == Some(if IsCleanup(Phases()[j]) then CleanupPending else Phases()[j])
  {
    if j < k - 1 { StateIsLast(events, k - 1, j); }
  }

  lemma {:induction false} LastWritten<E>(events: Events<E>, k: nat) returns (j: nat)
    requires 0 < k <= |Phases()| && exists i :: 0 <= i < k && Phases()[i] in events
    ensures j < k && Phases()[j] in events && forall i :: j < i < k ==> Phases()[i] !in events
  {
    if Phases()[k - 1] in events { j := k - 1; } else { j := LastWritten(events, k - 1); }
  }

  /** Phases after the signed tree: the session is over once one of them is written. */
  ghost predicate SessionOver<E>(events: Events<E>) {
    || FinalAuthorized in events || FinalDispatched in events || FinalResult in events
    || CleanupPending in events || CleanupAuthorized in events || CleanupDispatched in events || CleanupResult in events
    || Terminal(events)
  }

  /** A session whose nonces are committed can sign exactly until one of those is written. */
  lemma SigningStateIff<E>(events: Events<E>)
    requires NoncesCommitted in events
    ensures State(events) == Some(NoncesCommitted) || State(events) == Some(TreeSigned) <==> !SessionOver(events)
  {
    assert Phases()[6] == NoncesCommitted && Phases()[7] == TreeSigned;
    assert forall i :: 8 <= i < |Phases()| ==>
      (Phases()[i] in events ==> SessionOver(events)) && Phases()[i] != NoncesCommitted && Phases()[i] != TreeSigned;
    var j := LastWritten(events, |Phases()|);
    StateIsLast(events, |Phases()|, j);
    if SessionOver(events) {
      assert exists i :: 8 <= i < |Phases()| && Phases()[i] in events by { LaterPhases(events); }
    }
  }

  lemma LaterPhases<E>(events: Events<E>)
    requires SessionOver(events)
    ensures exists i :: 8 <= i < |Phases()| && Phases()[i] in events
  {
    var list := Phases();
    assert list[8] == FinalAuthorized && list[9] == FinalDispatched && list[10] == FinalResult && list[11] == CleanupPending;
    assert list[12] == CleanupAuthorized && list[13] == CleanupDispatched && list[14] == CleanupResult && list[15] == Confirmed;
    assert list[16] == Invalidated && list[17] == Cancelled && list[18] == Expired && list[19] == NeedsAuthorization && list[20] == Rejected;
  }

  /** The phase that must have been written before. */
  function Predecessor(p: Phase): Option<Phase> {
    match p
    case RegisterAuthorized => Some(Claimed)
    case RegisterDispatched => Some(RegisterAuthorized)
    case RegisterResult => Some(RegisterDispatched)
    case BatchStarted => Some(RegisterResult)
    case TreePrepared => Some(BatchStarted)
    case NoncesCommitted => Some(TreePrepared)
    case TreeSigned => Some(NoncesCommitted)
    case FinalAuthorized => Some(TreeSigned)
    case FinalDispatched => Some(FinalAuthorized)
    case FinalResult => Some(FinalDispatched)
    case Confirmed => Some(FinalAuthorized)
    case CleanupAuthorized => Some(CleanupPending)
    case CleanupDispatched => Some(CleanupAuthorized)
    case CleanupResult => Some(CleanupDispatched)
    case Rejected => Some(RegisterDispatched)
    case StreamEvent(slot) =>
      if !ValidSlot(slot) then None
      else if slot.Nonce? then Some(TreePrepared)
      else if slot.Signature? || slot.Final? then Some(TreeSigned)
      else Some(BatchStarted)
    case _ => None
  }

  /** The verdicts of clocks and of other journals at the time of the call. */
  datatype Verdicts = Verdicts(quarantineOver: bool, claimable: bool, beforeExpiry: bool)

  predicate Admissible<E>(events: Events<E>, p: Phase, v: Verdicts) {
    match p
    case Expired =>
      FinalAuthorized !in events && v.quarantineOver && (RegisterDispatched in events ==> CleanupResult in events)
    case CleanupPending => FinalAuthorized !in events && v.quarantineOver
    case Cancelled => events == map[]
    case Invalidated => events == map[]
    case NeedsAuthorization => events == map[] || (|events| == 1 && Claimed in events)
    case Claimed => events == map[] && v.claimable
    case Rejected => RegisterDispatched in events && RegisterResult !in events
    case _ =>
      && (p == FinalAuthorized ==> v.beforeExpiry)
      && (IsStream(p) ==> |events| < TRANSCRIPT_CAPACITY)
      && Predecessor(p).Some? && Predecessor(p).value in events
  }

  /** AdvanceSpendingDelegation: the new events, or a refusal that changes nothing. */
  function Advance<E(==)>(events: Events<E>, p: Phase, evidence: E, v: Verdicts): Option<Events<E>> {
    if Terminal(events) && State(events) != Some(p) then None
    else if CleanupPending in events && !IsCleanup(p) && p != Expired then None
    else if p in events then if events[p] == evidence then Some(events) else None
    else if Terminal(events) || !Admissible(events, p, v) then None
    else Some(events[p := evidence])
  }

  /** When a phase that is not there yet may be written into an open journal. */
  ghost predicate Due<E>(events: Events<E>, p: Phase, v: Verdicts) {
    match p
    case Claimed => events == map[] && v.claimable
    case RegisterAuthorized => Claimed in events
    case RegisterDispatched => RegisterAuthorized in events
    case RegisterResult => RegisterDispatched in events
    case BatchStarted => RegisterResult in events
    case TreePrepared => BatchStarted in events
    case NoncesCommitted => TreePrepared in events
    case TreeSigned => NoncesCommitted in events
    case FinalAuthorized => TreeSigned in events && v.beforeExpiry
    case FinalDispatched => FinalAuthorized in events
    case FinalResult => FinalDispatched in events
    case Confirmed => FinalAuthorized in events
    case CleanupPending => FinalAuthorized !in events && v.quarantineOver
    case CleanupAuthorized => CleanupPending in events
    case CleanupDispatched => CleanupAuthorized in events
    case CleanupResult => CleanupDispatched in events
    case Expired => FinalAuthorized !in events && v.quarantineOver && (RegisterDispatched in events ==> CleanupResult in events)
    case Cancelled => events == map[]
    case Invalidated => events == map[]
    case NeedsAuthorization => events.Keys <= {Claimed}
    case Rejected => RegisterDispatched in events && RegisterResult !in events
    case StreamEvent(slot) =>
      && (slot.Tree? ==> slot.index <= 1) && (slot.Tree? || slot.Nonce? || slot.Signature? ==> ValidTxid(slot.txid)) && |events| < 2064
      && (if slot.Nonce? then TreePrepared else if slot.Signature? || slot.Final? then TreeSigned else BatchStarted) in events
  }

  /** The whole of AdvanceSpendingDelegation: a journal that has ended only acknowledges the
      phase that ended it, one under cleanup takes nothing but cleanup and expiry, a phase that
      is there is acknowledged for the same evidence only, and a new one is written when due. */
  lemma AdvancesExactly<E>(events: Events<E>, p: Phase, evidence: E, v: Verdicts)
    ensures var ended := Confirmed in events || Invalidated in events || Cancelled in events || Expired in events
                         || NeedsAuthorization in events || Rejected in events;
            var cleaning := CleanupPending in events;
            Advance(events, p, evidence, v) ==
              if p in events then
                if && events[p] == evidence
                   && (ended ==> State(events) == Some(p))
                   && (cleaning ==> p in {CleanupPending, CleanupAuthorized, CleanupDispatched, CleanupResult, Expired})
                then Some(events) else None
              else if && !ended && Due(events, p, v)
                      && (cleaning ==> p in {CleanupPending, CleanupAuthorized, CleanupDispatched, CleanupResult, Expired})
              then Some(events[p := evidence]) else None
  {
    TerminalIff(events);
    AdmissibleIff(events, p, v);
  }

  lemma TerminalIff<E>(events: Events<E>)
    ensures Terminal(events) <==>
            || Confirmed in events || Invalidated in events || Cancelled in events || Expired in events
            || NeedsAuthorization in events || Rejected in events
  {
  }

  lemma AdmissibleIff<E>(events: Events<E>, p: Phase, v: Verdicts)
    ensures Admissible(events, p, v) <==> Due(events, p, v)
  {
    if p == NeedsAuthorization { FewEvents(events); }
  }

  lemma FewEvents<E>(events: Events<E>)
    ensures events.Keys <= {Claimed} <==> events == map[] || (|events| == 1 && Claimed in events)
  {
    assert |events| == |events.Keys|;
    if events.Keys <= {Claimed} {
      if Claimed in events { assert events.Keys == {Claimed}; } else { assert events.Keys == {}; }
    }
    if |events| == 1 && Claimed in events {
      SubsetOfSameSize({Claimed}, events.Keys);
    }
  }

  /** A stream event is written into its slot if and only if the journal is open, and the
      slot holds the very same event or is empty with room left and the phase it needs. */
  lemma StreamEventWrittenIff<E>(events: Events<E>, slot: Slot, evidence: E, v: Verdicts)
    requires ValidSlot(slot)
    ensures Advance(events, StreamEvent(slot), evidence, v).Some? <==>
              && Open(events)
              && if StreamEvent(slot) in events then events[StreamEvent(slot)] == evidence
                 else |events| < TRANSCRIPT_CAPACITY && Predecessor(StreamEvent(slot)).value in events
  {
    StateIsListed(events, |Phases()|);
  }

  lemma {:induction false} StateIsListed<E>(events: Events<E>, k: nat)
    requires k <= |Phases()|
    ensures forall slot :: StateUpTo(events, k) != Some(StreamEvent(slot))
  {
    if k > 0 { StateIsListed(events, k - 1); }
  }

  predicate Open<E>(events: Events<E>) { !Terminal(events) && CleanupPending !in events }

  // ----- what every journal satisfies

  /** Everything written stays as it was written. */
  ghost predicate Keeps<E(!new)>(events: Events<E>, events': Events<E>) {
    && (forall p :: p in events ==> p in events' && events'[p] == events[p])
    && (Terminal(events) ==> events' == events)
  }

  ghost predicate Preceded<E>(events: Events<E>, p: Phase) {
    Predecessor(p).Some? ==> Predecessor(p).value in events
  }

  /** A final authorization excludes cleanup and expiry, a rejection a registration. */
  ghost predicate Exclusive<E>(events: Events<E>) {
    && !(FinalAuthorized in events && (CleanupPending in events || Expired in events))
    && (Rejected in events ==> RegisterResult !in events)
    && (Expired in events && RegisterDispatched in events ==> CleanupResult in events)
  }

  ghost predicate Sound<E>(events: Events<E>) {
    && (forall p {:trigger Preceded(events, p)} :: p in events ==> Preceded(events, p))
    && (forall p, q :: p in events && q in events && IsTerminal(p) && IsTerminal(q) ==> p == q)
    && Exclusive(events)
  }

  lemma AdmissibleIsPreceded<E>(events: Events<E>, p: Phase, v: Verdicts)
    requires Admissible(events, p, v)
    ensures Preceded(events, p)
  {
  }

  lemma NewKeepsExclusive<E>(events: Events<E>, p: Phase, evidence: E, v: Verdicts)
    requires Sound(events) && !Terminal(events) && Admissible(events, p, v)
    requires CleanupPending in events ==> IsCleanup(p) || p == Expired
    ensures Exclusive(events[p := evidence])
  {
  }

  lemma NewIsSound<E(!new)>(events: Events<E>, p: Phase, evidence: E, v: Verdicts)
    requires Sound(events) && !Terminal(events) && Admissible(events, p, v)
    requires CleanupPending in events ==> IsCleanup(p) || p == Expired
    ensures Sound(events[p := evidence])
  {
    var events' := events[p := evidence];
    AdmissibleIsPreceded(events, p, v);
    forall q | q in events' ensures Preceded(events', q) {
      if q != p { assert q in events && Preceded(events, q); }
    }
    NewKeepsExclusive(events, p, evidence, v);
    assert forall q :: q in events ==> !IsTerminal(q);
  }

  /** No phase is ever rewritten, an order is enforced, a final authorization and a
      cleanup exclude each other, and a terminal journal is closed for good. */
  lemma AdvanceKeepsSound<E(!new)>(events: Events<E>, p: Phase, evidence: E, v: Verdicts)
    requires Sound(events) && Advance(events, p, evidence, v).Some?
    ensures var events' := Advance(events, p, evidence, v).value;
            Sound(events') && Keeps(events, events') && p in events' && events'[p] == evidence
  {
    if p !in events { NewIsSound(events, p, evidence, v); }
  }

  ghost predicate Init<E>(events: Events<E>) { events == map[] }

  ghost predicate Next<E(!new)>(events: Events<E>, events': Events<E>) {
    exists p, evidence, v :: Advance(events, p, evidence, v) == Some(events')
  }

  lemma SoundIsInductive<E(!new)>()
    ensures Runs.Inductive<Events<E>>(Init, Next, Sound)
    ensures Runs.KeptByStep<Events<E>>(Next, Sound, Keeps)
  {
    forall a: Events<E>, b: Events<E> | Sound(a) && Next(a, b) ensures Sound(b) && Keeps(a, b) {
      var p, evidence, v :| Advance(a, p, evidence, v) == Some(b);
      AdvanceKeepsSound(a, p, evidence, v);
    }
  }

  /** In every reachable journal a signed tree implies its committed nonces, its prepared
      tree, its batch and its registration; a confirmed one implies the whole chain; and
      whatever an earlier state held a later one holds unchanged. */
  lemma ReachableJournal<E(!new)>(run: seq<Events<E>>, i: nat, j: nat)
    requires Runs.IsRun<Events<E>>(Init, Next, run) && i <= j < |run|
    ensures Sound(run[j]) && Keeps(run[i], run[j])
    ensures var e := run[j];
            && (Confirmed in e ==> FinalAuthorized in e)
            && (FinalAuthorized in e ==> TreeSigned in e && CleanupPending !in e && Expired !in e && Rejected !in e)
            && (TreeSigned in e ==> NoncesCommitted in e)
            && (NoncesCommitted in e ==> TreePrepared in e && BatchStarted in e && RegisterResult in e && Claimed in e)
  {
    SoundIsInductive<E>();
    Runs.InvariantHolds<Events<E>>(Init, Next, Sound, run, j);
    Runs.RelationHolds<Events<E>>(Init, Next, Sound, Keeps, run, i, j);
    ChainPresent(run[j]);
  }

  lemma ChainPresent<E>(e: Events<E>)
    requires Sound(e)
    ensures Confirmed in e ==> FinalAuthorized in e
    ensures FinalAuthorized in e ==> TreeSigned in e && CleanupPending !in e && Expired !in e && Rejected !in e
    ensures TreeSigned in e ==> NoncesCommitted in e
    ensures NoncesCommitted in e ==> TreePrepared in e && BatchStarted in e && RegisterResult in e && Claimed in e
  {
    assert Confirmed in e ==> Preceded(e, Confirmed);
    assert FinalAuthorized in e ==> Preceded(e, FinalAuthorized);
    assert TreeSigned in e ==> Preceded(e, TreeSigned);
    assert NoncesCommitted in e ==> Preceded(e, NoncesCommitted);
    assert TreePrepared in e ==> Preceded(e, TreePrepared);
    assert BatchStarted in e ==> Preceded(e, BatchStarted);
    assert RegisterResult in e ==> Preceded(e, RegisterResult);
    assert RegisterDispatched in e ==> Preceded(e, RegisterDispatched);
    assert RegisterAuthorized in e ==> Preceded(e, RegisterAuthorized);
  }

  /** The journal of one operation as the ledger holds it. */
  class Journal<E(==)> {
    var events: Events<E>

    constructor ()
      ensures events == map[]
    {
      events := map[];
    }

    method AdvancePhase(p: Phase, evidence: E, v: Verdicts) returns (ok: bool)
      modifies this
      ensures ok == Advance(old(events), p, evidence, v).Some?
      ensures events == if ok then Advance(old(events), p, evidence, v).value else old(events)
      ensures ok ==> p in events && events[p] == evidence
    {
      var state := State(events);
      if Terminal(events) && state != Some(p) {
        return false;
      }
      if CleanupPending in events && !IsCleanup(p) && p != Expired {
        return false;
      }
      if p in events {
        return events[p] == evidence;
      }
      if Terminal(events) || !Admissible(events, p, v) {
        return false;
      }
      events := events[p := evidence];
      return true;
    }
  }
}
