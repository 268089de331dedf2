/** The journal of a Bitcoin payment and the Operator calls it allows: each phase is
    written once, and only the caller that wrote a dispatch phase may make its call. */
module PaymentDispatch {
  import opened Basics
  import Runs
  import Ordering

  type OpId = string

  const GRACE := 15

  datatype Phase =
    | RegisterAuthorized | RegisterDispatched | RegisterResult
    | FinalAuthorized | FinalDispatched | FinalResult | Confirmed
    | DeleteAuthorized | DeleteDispatched | DeleteResult | Released | Cancelled

  datatype Outcome = NoOutcome | Registered | RejectedByOperator | SubmittedToOperator | ReleasedByOperator | ConfirmedOnChain

  datatype Event = Event(digest: string, outcome: Outcome, evidence: string)

  datatype Operation = Operation(planDigest: string, expires: int)

  type Events = map<Phase, Event>

  /** The verdicts of the passkey counter and of a release proof. */
  datatype Verdicts = Verdicts(admitted: bool, releaseProved: bool)

  predicate Terminal(events: Events) {
    || Confirmed in events || Released in events || Cancelled in events
    || (RegisterResult in events && events[RegisterResult].outcome == RejectedByOperator)
  }

  predicate SameDigest(events: Events, prior: Phase, e: Event) { prior in events && events[prior].digest == e.digest }

  /** validateRenewalTransition */
  predicate Admissible(o: Operation, events: Events, p: Phase, e: Event, now: int, v: Verdicts) {
    && !Terminal(events)
    && match p
       case RegisterAuthorized => events == map[] && now < o.expires
       case RegisterDispatched => SameDigest(events, RegisterAuthorized, e) && now < o.expires
       case RegisterResult =>
         SameDigest(events, RegisterDispatched, e) && DeleteAuthorized !in events && FinalAuthorized !in events
       case FinalAuthorized =>
         RegisterResult in events && events[RegisterResult].outcome == Registered && DeleteAuthorized !in events && now < o.expires
       case FinalDispatched => now < o.expires && DeleteAuthorized !in events && SameDigest(events, FinalAuthorized, e)
       case FinalResult => SameDigest(events, FinalDispatched, e)
       case Confirmed => SameDigest(events, FinalDispatched, e)
       case DeleteAuthorized =>
         RegisterDispatched in events && (FinalAuthorized in events ==> FinalDispatched !in events) && now >= o.expires + GRACE
       case DeleteDispatched => SameDigest(events, DeleteAuthorized, e)
       case DeleteResult => SameDigest(events, DeleteDispatched, e)
       case Released =>
         if FinalDispatched in events then v.releaseProved
         else
           && DeleteResult in events && events[DeleteResult].outcome == ReleasedByOperator
           && SameDigest(events, RegisterDispatched, e) && now >= o.expires + GRACE
       case Cancelled => RegisterDispatched !in events && e.digest == o.planDigest
  }

  datatype Appended = Appended(events: Events, created: bool) | Failed

  /** AppendSpendingRenewalEvent */
  function Append(o: Operation, events: Events, p: Phase, e: Event, now: int, v: Verdicts): Appended {
    if p in events then if events[p] == e && v.admitted then Appended(events, false) else Failed
    else if !v.admitted || !Admissible(o, events, p, e, now, v) then Failed
    else Appended(events[p := e], true)
  }

  /** One payment's journal; the method is one transaction. */
  class PaymentJournal {
    const operation: Operation
    var events: Events

    constructor (operation: Operation)
      ensures this.operation == operation && events == map[]
    {
      this.operation := operation;
      events := map[];
    }

    method AppendSpendingRenewalEvent(p: Phase, e: Event, now: int, v: Verdicts) returns (r: Appended)
      modifies this
      ensures r == Append(operation, old(events), p, e, now, v)
      ensures events == if r.Appended? then r.events else old(events)
    {
      if p in events {
        return if events[p] == e && v.admitted then Appended(events, false) else Failed;
      }
      if !v.admitted || !Admissible(operation, events, p, e, now, v) {
        return Failed;
      }
      events := events[p := e];
      return Appended(events, true);
    }
  }

  // ----- what every journal satisfies

  /** A final submission and a deletion exclude each other, a cancelled payment was never
      registered, and each phase has the phases before it. */
  ghost predicate Sound(events: Events) {
    && !(FinalDispatched in events && DeleteAuthorized in events)
    && !(Cancelled in events && RegisterDispatched in events)
    && (RegisterDispatched in events ==> SameDigest(events, RegisterAuthorized, events[RegisterDispatched]))
    && (RegisterResult in events ==> SameDigest(events, RegisterDispatched, events[RegisterResult]))
    && (FinalAuthorized in events ==> RegisterResult in events && events[RegisterResult].outcome == Registered)
    && (FinalDispatched in events ==> SameDigest(events, FinalAuthorized, events[FinalDispatched]))
    && (FinalResult in events ==> SameDigest(events, FinalDispatched, events[FinalResult]))
    && (Confirmed in events ==> SameDigest(events, FinalDispatched, events[Confirmed]))
    && (DeleteAuthorized in events ==> RegisterDispatched in events)
    && (DeleteDispatched in events ==> SameDigest(events, DeleteAuthorized, events[DeleteDispatched]))
    && (DeleteResult in events ==> SameDigest(events, DeleteDispatched, events[DeleteResult]))
    && !(Confirmed in events && Released in events) && !(Confirmed in events && Cancelled in events)
    && !(Released in events && Cancelled in events)
  }

  ghost predicate Keeps(events: Events, events': Events) {
    && (forall p :: p in events ==> p in events' && events'[p] == events[p])
    && (Terminal(events) ==> events' == events)
  }

  lemma AppendKeepsSound(o: Operation, events: Events, p: Phase, e: Event, now: int, v: Verdicts)
    requires Sound(events) && Append(o, events, p, e, now, v).Appended?
    ensures var a := Append(o, events, p, e, now, v);
            Sound(a.events) && Keeps(events, a.events) && p in a.events && (a.created <==> p !in events)
  {
  }

  // ----- the transitions as a table

  datatype Window = BeforeExpiry | AfterGrace | AnyTime

  /** The phase that must be there under the same digest, the phase that must be there, the
      phases that must not, and the time. */
  datatype Rule = Rule(sameDigest: Option<Phase>, after: Option<Phase>, without: set<Phase>, window: Window)

  function RuleFor(p: Phase): Rule {
    match p
    case RegisterAuthorized => Rule(None, None, {}, BeforeExpiry)
    case RegisterDispatched => Rule(Some(RegisterAuthorized), None, {}, BeforeExpiry)
    case RegisterResult => Rule(Some(RegisterDispatched), None, {DeleteAuthorized, FinalAuthorized}, AnyTime)
    case FinalAuthorized => Rule(None, Some(RegisterResult), {DeleteAuthorized}, BeforeExpiry)
    case FinalDispatched => Rule(Some(FinalAuthorized), None, {DeleteAuthorized}, BeforeExpiry)
    case FinalResult => Rule(Some(FinalDispatched), None, {}, AnyTime)
    case Confirmed => Rule(Some(FinalDispatched), None, {}, AnyTime)
    case DeleteAuthorized => Rule(None, Some(RegisterDispatched), {FinalDispatched}, AfterGrace)
    case DeleteDispatched => Rule(Some(DeleteAuthorized), None, {}, AnyTime)
    case DeleteResult => Rule(Some(DeleteDispatched), None, {}, AnyTime)
    case Released => Rule(Some(RegisterDispatched), Some(DeleteResult), {FinalDispatched}, AfterGrace)
    case Cancelled => Rule(None, None, {RegisterDispatched}, AnyTime)
  }

  predicate InWindow(window: Window, expires: int, now: int) {
    match window case BeforeExpiry => now < expires case AfterGrace => now >= expires + 15 case AnyTime => true
  }

  ghost predicate Allowed(o: Operation, events: Events, p: Phase, e: Event, now: int) {
    var rule := RuleFor(p);
    && (rule.sameDigest.Some? ==> rule.sameDigest.value in events && events[rule.sameDigest.value].digest == e.digest)
    && (rule.after.Some? ==> rule.after.value in events)
    && events.Keys !! rule.without && InWindow(rule.window, o.expires, now)
    && (p == RegisterAuthorized ==> events == map[])
    && (p == FinalAuthorized ==> events[RegisterResult].outcome == Registered)
    && (p == Released ==> events[DeleteResult].outcome == ReleasedByOperator)
    && (p == Cancelled ==> e.digest == o.planDigest)
  }

  /** The journal ends with a confirmation, a release, a cancellation or a rejection. */
  ghost predicate Ended(events: Events) {
    || Confirmed in events || Released in events || Cancelled in events
    || (RegisterResult in events && events[RegisterResult].outcome == RejectedByOperator)
  }

  /** A new phase is written exactly when the table allows it in a journal that has not ended;
      a release after the final submission needs its proof instead. A phase that is there is
      acknowledged exactly for the same event. */
  lemma AppendsExactly(o: Operation, events: Events, p: Phase, e: Event, now: int, v: Verdicts)
    requires Sound(events)
    ensures var r := Append(o, events, p, e, now, v);
            if p in events then r == if v.admitted && events[p] == e then Appended(events, false) else Failed
            else if && v.admitted && !Ended(events)
                    && if p == Released && FinalDispatched in events then v.releaseProved else Allowed(o, events, p, e, now)
            then r == Appended(events[p := e], true)
            else r == Failed
  {
  }

  // ----- concurrent callers

  datatype Call = Call(op: OpId, phase: Phase)

  datatype Payment = Payment(operation: Operation, events: Events)

  datatype World = World(payments: map<OpId, Payment>, permits: set<Call>, calls: seq<Call>)

  datatype Step =
    | Reserve(id: OpId, operation: Operation)
    | Write(id: OpId, p: Phase, e: Event, now: int, v: Verdicts, commit: Commit)
    | CallOperator(call: Call)
    | Crash

  ghost predicate Enabled(w: World, s: Step) {
    match s
    case Reserve(id, _) => id !in w.payments
    case Write(id, p, e, now, v, _) =>
      id in w.payments && Append(w.payments[id].operation, w.payments[id].events, p, e, now, v).Appended?
    case CallOperator(call) => call in w.permits
    case Crash => true
  }

  predicate Outbound(p: Phase) { p == RegisterDispatched || p == FinalDispatched }

  ghost function Do(w: World, s: Step): World
    requires Enabled(w, s)
  {
    match s
    case Reserve(id, operation) => w.(payments := w.payments[id := Payment(operation, map[])])
    case Write(id, p, e, now, v, commit) =>
      var a := Append(w.payments[id].operation, w.payments[id].events, p, e, now, v);
      var w' := w.(payments := w.payments[id := w.payments[id].(events := a.events)]);
      if commit == Refused then w
      else if commit == Committed && a.created && Outbound(p) then w'.(permits := w.permits + {Call(id, p)})
      else w'
    case CallOperator(call) => w.(permits := w.permits - {call}, calls := w.calls + [call])
    case Crash => w.(permits := {})
  }

  ghost predicate Durable(w: World, c: Call) { c.op in w.payments && c.phase in w.payments[c.op].events }

  ghost predicate Inv(w: World) {
    && (forall id {:trigger w.payments[id]} :: id in w.payments ==> Sound(w.payments[id].events))
    && Ordering.Distinct(w.calls)
    && (forall c :: c in w.calls ==> Durable(w, c) && c !in w.permits)
    && (forall c :: c in w.permits ==> Durable(w, c))
  }

  ghost predicate Init(w: World) { w == World(map[], {}, []) }

  ghost predicate Next(w: World, w': World) { exists s :: Enabled(w, s) && w' == Do(w, s) }

  lemma WriteKeepsInv(w: World, s: Step)
    requires Inv(w) && s.Write? && Enabled(w, s)
    ensures Inv(Do(w, s))
  {
    var w' := Do(w, s);
    AppendKeepsSound(w.payments[s.id].operation, w.payments[s.id].events, s.p, s.e, s.now, s.v);
    forall c | Durable(w, c) ensures Durable(w', c) {}
    assert Call(s.id, s.p) in w'.permits && Call(s.id, s.p) !in w.permits ==> !Durable(w, Call(s.id, s.p));
  }

  lemma StepKeepsInv(w: World, s: Step)
    requires Inv(w) && Enabled(w, s)
    ensures Inv(Do(w, s))
  {
    match s
    case Reserve(_, _) =>
    case Write(_, _, _, _, _, _) => WriteKeepsInv(w, s);
    case CallOperator(_) =>
    case Crash =>
  }

  lemma InvIsInductive()
    ensures Runs.Inductive(Init, Next, Inv)
  {
    forall w, w' | Inv(w) && Next(w, w') ensures Inv(w') {
      var s :| Enabled(w, s) && w' == Do(w, s);
      StepKeepsInv(w, s);
    }
  }

  // ----- main results

  /** In every run the register call and the final submission of a payment are each made at
      most once; every call made has its durable dispatch phase; a payment whose final was
      submitted is never deleted, and a registered one never cancelled. */
  lemma CallsAtMostOnce(run: seq<World>, k: nat, i: nat, j: nat)
    requires Runs.IsRun(Init, Next, run) && k < |run| && i < |run[k].calls| && j < |run[k].calls|
    ensures run[k].calls[i] == run[k].calls[j] ==> i == j
    ensures var c := run[k].calls[i];
            && c.op in run[k].payments && c.phase in run[k].payments[c.op].events
            && (c.phase == FinalDispatched ==> DeleteAuthorized !in run[k].payments[c.op].events)
            && (c.phase == RegisterDispatched ==> Cancelled !in run[k].payments[c.op].events)
  {
    InvIsInductive();
    Runs.InvariantHolds(Init, Next, Inv, run, k);
    assert run[k].calls[i] in run[k].calls && Durable(run[k], run[k].calls[i]);
  }

  lemma CallsFollowDispatch(run: seq<World>, k: nat, c: Call)
    requires Runs.IsRun(Init, Next, run) && k < |run| && Enabled(run[k], CallOperator(c))
    ensures c.op in run[k].payments && c.phase in run[k].payments[c.op].events && c !in run[k].calls
  {
    InvIsInductive();
    Runs.InvariantHolds(Init, Next, Inv, run, k);
    assert Durable(run[k], c);
  }

  /** What a write leaves: the event if the commit took effect, and a permit exactly for an
      acknowledged commit that created a dispatch phase. */
  lemma WrittenExactly(w: World, s: Step)
    requires s.Write? && Enabled(w, s)
    ensures var (w', x) := (Do(w, s), w.payments[s.id]);
            var a := Append(x.operation, x.events, s.p, s.e, s.now, s.v);
            && w'.calls == w.calls
            && w'.payments == (if s.commit == Refused then w.payments else w.payments[s.id := Payment(x.operation, a.events)])
            && w'.permits == if s.commit == Committed && s.p !in x.events && (s.p == RegisterDispatched || s.p == FinalDispatched)
                             then w.permits + {Call(s.id, s.p)} else w.permits
  {
  }

  lemma StepsExactly(w: World, s: Step)
    requires Enabled(w, s) && !s.Write?
    ensures match s
            case Reserve(id, operation) => Do(w, s) == World(w.payments[id := Payment(operation, map[])], w.permits, w.calls)
            case CallOperator(call) => Do(w, s) == World(w.payments, w.permits - {call}, w.calls + [call])
            case _ => Do(w, s) == World(w.payments, {}, w.calls)
  {
  }
}
