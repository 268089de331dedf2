/** One-use passkey tickets without server state per issue: a ticket authenticates itself
    under the process key, and only spent tickets are remembered, until they expire. */
module PasskeyTickets {
  import opened Basics
  import Runs
  import Ordering

  type Key = string
  type VaultId = string

  const TICKET_TTL := 120
  const MAX_SPENT := 4096
  const MAX_SPENT_PER_VAULT := 256

  /** The decoded bytes of a ticket: what was authenticated and the key it verifies under.
      A ticket has one encoding, so it is its own replay identity. */
  datatype Ticket = Ticket(key: Key, vault: VaultId, purpose: string, challenge: string, expires: int)

  /** What a caller presents: a ticket, or bytes that do not decode to one. */
  datatype Presented = Presented(ticket: Ticket) | Undecodable

  datatype Spent = Spent(vault: VaultId, expires: int)

  type SpentSet = map<Ticket, Spent>

  predicate Ownerless(purpose: string) {
    || purpose == "recovery-archive-open" || purpose == "lnurl-register" || "lnurl-register:" <= purpose || purpose == "lnurl-revoke"
  }

  /** passkeyChallengeLocked against some record of spent tickets. */
  predicate Usable(key: Option<Key>, spent: SpentSet, vault: VaultId, p: Presented, purpose: string, now: int) {
    && p.Presented? && key == Some(p.ticket.key) && p.ticket.vault == vault && p.ticket.purpose == purpose
    && |p.ticket.challenge| == 32 && now < p.ticket.expires && p.ticket !in spent
  }

  function Unexpired(spent: SpentSet, now: int): SpentSet {
    map t | t in spent && now < spent[t].expires :: spent[t]
  }

  function OwnedBy(spent: SpentSet, vault: VaultId): set<Ticket> { set t | t in spent && spent[t].vault == vault }

  datatype Outcome = Rejected | Busy | Consumed(challenge: string)

  /** What consumePasskeyChallenge decides, given a record of spent tickets. The two clock
      readings are of the check and of the bookkeeping. */
  function Decide(key: Option<Key>, spent: SpentSet, owner: VaultId, p: Presented, purpose: string, now: int, later: int): Outcome {
    if owner == "" || !Usable(key, spent, if Ownerless(purpose) then "" else owner, p, purpose, now) then Rejected
    else
      var live := Unexpired(spent, later);
      if |live| >= MAX_SPENT || |OwnedBy(live, owner)| >= MAX_SPENT_PER_VAULT then Busy
      else Consumed(p.ticket.challenge)
  }

  /** The spent set afterwards: expired entries go as soon as the ticket itself is good. */
  function Remember(spent: SpentSet, outcome: Outcome, owner: VaultId, p: Presented, later: int): SpentSet {
    if outcome.Rejected? || p.Undecodable? then spent
    else if outcome.Busy? then Unexpired(spent, later)
    else Unexpired(spent, later)[p.ticket := Spent(owner, p.ticket.expires)]
  }

  class TicketService {
    var key: Option<Key>
    var spent: SpentSet

    constructor ()
      ensures key == None && spent == map[]
    {
      key, spent := None, map[];
    }

    /** issuePasskeyChallenge: `random` and `challenge` are fresh randomness. */
    method Issue(vault: VaultId, purpose: string, random: Key, challenge: string, now: int) returns (ticket: Ticket)
      modifies `key
      ensures key == if old(key).None? then Some(random) else old(key)
      ensures key == Some(ticket.key) && ticket == Ticket(ticket.key, vault, purpose, challenge, now + TICKET_TTL)
    {
      if key.None? {
        key := Some(random);
      }
      ticket := Ticket(key.value, vault, purpose, challenge, now + TICKET_TTL);
    }

    /** The loop that deletes expired entries and counts the owner's live ones. */
    method PruneAndCount(owner: VaultId, later: int) returns (count: nat)
      modifies `spent
      ensures spent == Unexpired(old(spent), later) && count == |OwnedBy(spent, owner)|
    {
      var before := spent;
      var todo := before.Keys;
      var owned: set<Ticket> := {};
      while todo != {}
        invariant todo <= before.Keys
        invariant forall t :: t in spent <==> t in before && (t in todo || later < before[t].expires)
        invariant forall t :: t in spent ==> spent[t] == before[t]
        invariant owned == set t | t in before && t !in todo && later < before[t].expires && before[t].vault == owner
        decreases todo
      {
        var t :| t in todo;
        if later >= before[t].expires {
          spent := spent - {t};
        } else if before[t].vault == owner {
          owned := owned + {t};
        }
        todo := todo - {t};
      }
      assert spent == Unexpired(before, later);
      assert owned == OwnedBy(spent, owner);
      return |owned|;
    }

    /** consumePasskeyChallenge */
    method Consume(owner: VaultId, p: Presented, purpose: string, now: int, later: int) returns (outcome: Outcome)
      modifies `spent
      ensures outcome == Decide(key, old(spent), owner, p, purpose, now, later)
      ensures spent == Remember(old(spent), outcome, owner, p, later)
    {
      if owner == "" {
        return Rejected;
      }
      var ticketVault := if Ownerless(purpose) then "" else owner;
      if !Usable(key, spent, ticketVault, p, purpose, now) {
        return Rejected;
      }
      var ownerCount := PruneAndCount(owner, later);
      if |spent| >= MAX_SPENT || ownerCount >= MAX_SPENT_PER_VAULT {
        return Busy;
      }
      spent := spent[p.ticket := Spent(owner, p.ticket.expires)];
      return Consumed(p.ticket.challenge);
    }
  }

  // ----- every run of one process, with a clock that does not go back

  /** A ticket with the time at which it was issued. */
  datatype Issued = Issued(ticket: Ticket, at: int)

  /** `all` remembers every ticket spent under the current key, `order` the order in which
      they were consumed, `issued` every ticket made under it, `clock` the last reading. */
  datatype World = World(key: Option<Key>, spent: SpentSet, all: SpentSet, order: seq<Ticket>, issued: set<Issued>, clock: int)

  datatype Step =
    | IssueTicket(vault: VaultId, purpose: string, random: Key, challenge: string, now: int)
    | ConsumeTicket(owner: VaultId, p: Presented, purpose: string, now: int, later: int)
    | Restart

  /** Nobody else can make a ticket that verifies under the key. */
  ghost predicate Enabled(w: World, s: Step) {
    match s
    case IssueTicket(_, _, _, _, now) => w.clock <= now
    case ConsumeTicket(_, p, _, now, later) =>
      w.clock <= now <= later && (p.Presented? && w.key == Some(p.ticket.key) ==> exists at :: Issued(p.ticket, at) in w.issued)
    case Restart => true
  }

  function Do(w: World, s: Step): World {
    match s
    case IssueTicket(vault, purpose, random, challenge, now) =>
      var key := if w.key.None? then random else w.key.value;
      w.(key := Some(key), clock := now, issued := w.issued + {Issued(Ticket(key, vault, purpose, challenge, now + TICKET_TTL), now)})
    case ConsumeTicket(owner, p, purpose, now, later) =>
      var outcome := Decide(w.key, w.spent, owner, p, purpose, now, later);
      var spent := Remember(w.spent, outcome, owner, p, later);
      if outcome.Consumed? && p.Presented? then
        World(w.key, spent, w.all[p.ticket := Spent(owner, p.ticket.expires)], w.order + [p.ticket], w.issued, later)
      else w.(spent := spent, clock := later)
    case Restart => World(None, map[], map[], [], {}, w.clock)
  }

  ghost predicate Init(w: World) { w.key.None? && w.spent == map[] && w.all == map[] && w.order == [] && w.issued == {} }

  ghost predicate Next(w: World, w': World) { exists s :: Enabled(w, s) && w' == Do(w, s) }

  /** The pruned set holds every spent ticket that can still matter. */
  ghost predicate Covers(spent: SpentSet, all: SpentSet, clock: int) {
    && (forall t :: t in spent ==> t in all && spent[t] == all[t])
    && (forall t :: t in all && t !in spent ==> all[t].expires <= clock)
    && (forall t :: t in all ==> all[t].expires == t.expires)
  }

  ghost predicate Pruned(w: World) { Covers(w.spent, w.all, w.clock) }

  ghost predicate Bounded(w: World) {
    |w.spent| <= MAX_SPENT && forall v :: |OwnedBy(w.spent, v)| <= MAX_SPENT_PER_VAULT
  }

  ghost predicate Once(w: World) { Ordering.Distinct(w.order) && forall t :: t in w.order <==> t in w.all }

  ghost predicate MadeHere(w: World) {
    forall x :: x in w.issued ==> w.key == Some(x.ticket.key) && x.ticket.expires == x.at + 120 && x.at <= w.clock
  }

  ghost predicate Inv(w: World) { Pruned(w) && Bounded(w) && Once(w) && MadeHere(w) }

  /** The pruned set decides every request exactly as the full history would. */
  lemma PrunedDecidesLikeFull(w: World, owner: VaultId, p: Presented, purpose: string, now: int, later: int)
    requires Pruned(w) && w.clock <= now <= later
    ensures Decide(w.key, w.spent, owner, p, purpose, now, later) == Decide(w.key, w.all, owner, p, purpose, now, later)
  {
    assert Unexpired(w.spent, later) == Unexpired(w.all, later);
  }

  lemma FewerSpent(small: SpentSet, large: SpentSet)
    requires forall t :: t in small ==> t in large && small[t] == large[t]
    ensures |small| <= |large| && forall v :: |OwnedBy(small, v)| <= |OwnedBy(large, v)|
  {
    FewerKeys(small, large);
    forall v ensures |OwnedBy(small, v)| <= |OwnedBy(large, v)| { SubsetIsSmaller(OwnedBy(small, v), OwnedBy(large, v)); }
  }

  lemma OneMoreSpent(live: SpentSet, t: Ticket, owner: VaultId, v: VaultId)
    ensures |OwnedBy(live[t := Spent(owner, t.expires)], v)| <= |OwnedBy(live, v)| + (if v == owner then 1 else 0)
  {
    var more := live[t := Spent(owner, t.expires)];
    if v == owner {
      SubsetIsSmaller(OwnedBy(more, v), OwnedBy(live, v) + {t});
    } else {
      SubsetIsSmaller(OwnedBy(more, v), OwnedBy(live, v));
    }
  }

  lemma RememberKeepsBounds(w: World, outcome: Outcome, owner: VaultId, p: Presented, later: int)
    requires Bounded(w) && p.Presented? && !outcome.Rejected?
    requires var live := Unexpired(w.spent, later);
             outcome.Consumed? ==> |live| < MAX_SPENT && |OwnedBy(live, owner)| < MAX_SPENT_PER_VAULT
    ensures Bounded(w.(spent := Remember(w.spent, outcome, owner, p, later)))
  {
    var live := Unexpired(w.spent, later);
    FewerSpent(live, w.spent);
    forall v ensures |OwnedBy(Remember(w.spent, outcome, owner, p, later), v)| <= MAX_SPENT_PER_VAULT {
      OneMoreSpent(live, p.ticket, owner, v);
    }
  }

  lemma ConsumeKeepsBounds(w: World, s: Step)
    requires Inv(w) && s.ConsumeTicket?
    ensures Bounded(Do(w, s))
  {
    var outcome := Decide(w.key, w.spent, s.owner, s.p, s.purpose, s.now, s.later);
    if s.p.Presented? && !outcome.Rejected? { RememberKeepsBounds(w, outcome, s.owner, s.p, s.later); }
  }

  lemma PruningCovers(spent: SpentSet, all: SpentSet, clock: int, later: int)
    requires Covers(spent, all, clock) && clock <= later
    ensures Covers(spent, all, later) && Covers(Unexpired(spent, later), all, later)
  {
  }

  lemma SpendingCovers(spent: SpentSet, all: SpentSet, clock: int, t: Ticket, owner: VaultId)
    requires Covers(spent, all, clock)
    ensures Covers(spent[t := Spent(owner, t.expires)], all[t := Spent(owner, t.expires)], clock)
  {
  }

  lemma RememberCovers(w: World, outcome: Outcome, owner: VaultId, p: Presented, later: int)
    requires Pruned(w) && w.clock <= later
    ensures var spent := Remember(w.spent, outcome, owner, p, later);
            Covers(spent, if outcome.Consumed? && p.Presented? then w.all[p.ticket := Spent(owner, p.ticket.expires)] else w.all, later)
  {
    PruningCovers(w.spent, w.all, w.clock, later);
    if p.Presented? { SpendingCovers(Unexpired(w.spent, later), w.all, later, p.ticket, owner); }
  }

  lemma ConsumeKeepsPruned(w: World, s: Step)
    requires Pruned(w) && s.ConsumeTicket? && Enabled(w, s)
    ensures Pruned(Do(w, s))
  {
    RememberCovers(w, Decide(w.key, w.spent, s.owner, s.p, s.purpose, s.now, s.later), s.owner, s.p, s.later);
  }

  lemma ConsumeKeepsOnce(w: World, s: Step)
    requires Inv(w) && s.ConsumeTicket? && Enabled(w, s)
    ensures Once(Do(w, s))
  {
    PrunedDecidesLikeFull(w, s.owner, s.p, s.purpose, s.now, s.later);
  }

  lemma StepKeepsInv(w: World, s: Step)
    requires Inv(w) && Enabled(w, s)
    ensures Inv(Do(w, s))
  {
    match s
    case IssueTicket(_, _, _, _, _) =>
    case ConsumeTicket(owner, p, purpose, now, later) =>
      ConsumeKeepsBounds(w, s);
      ConsumeKeepsPruned(w, s);
      ConsumeKeepsOnce(w, s);
    case Restart =>
  }

  lemma InvIsInductive()
    ensures Runs.Inductive(Init, Next, Inv)
  {
    forall w, w' | Inv(w) && Next(w, w') ensures Inv(w') {
      var s :| Enabled(w, s) && w' == Do(w, s);
      StepKeepsInv(w, s);
    }
  }

  // ----- main results

  /** In every run no ticket is consumed twice while its key lives, the decision on any
      request is that of the full history, and the set never exceeds its bounds. */
  lemma TicketsAreOneUse(run: seq<World>, k: nat, i: nat, j: nat)
    requires Runs.IsRun(Init, Next, run) && k < |run| && i < |run[k].order| && j < |run[k].order|
    ensures run[k].order[i] == run[k].order[j] ==> i == j
  {
    InvIsInductive();
    Runs.InvariantHolds(Init, Next, Inv, run, k);
  }

  lemma ReplaySetIsExactAndBounded(run: seq<World>, k: nat, owner: VaultId, p: Presented, purpose: string, now: int, later: int)
    requires Runs.IsRun(Init, Next, run) && k < |run| && run[k].clock <= now <= later
    ensures var w := run[k];
            Decide(w.key, w.spent, owner, p, purpose, now, later) == Decide(w.key, w.all, owner, p, purpose, now, later)
    ensures |run[k].spent| <= MAX_SPENT && |OwnedBy(run[k].spent, owner)| <= MAX_SPENT_PER_VAULT
    ensures p.Presented? && p.ticket in run[k].order ==> Decide(run[k].key, run[k].spent, owner, p, purpose, now, later).Rejected?
  {
    InvIsInductive();
    Runs.InvariantHolds(Init, Next, Inv, run, k);
    PrunedDecidesLikeFull(run[k], owner, p, purpose, now, later);
  }

  // ----- what each request is answered

  /** A ticket is consumed exactly when it verifies under the live key, is for this purpose and
      for the owner, or for no one where the purpose has no owner, has a challenge of 32 bytes,
      is unexpired and was not spent, and neither limit is reached; it then yields its own
      challenge. Only the limits make the answer busy. */
  lemma DecidedExactly(key: Option<Key>, spent: SpentSet, owner: VaultId, p: Presented, purpose: string, now: int, later: int)
    ensures var (outcome, good) := (Decide(key, spent, owner, p, purpose, now, later),
              && owner != "" && p.Presented? && key == Some(p.ticket.key) && p.ticket.purpose == purpose
              && (p.ticket.vault == if purpose == "recovery-archive-open" || purpose == "lnurl-register" || "lnurl-register:" <= purpose || purpose == "lnurl-revoke"
                                    then "" else owner)
              && |p.ticket.challenge| == 32 && now < p.ticket.expires && p.ticket !in spent);
            var live := set t | t in spent && later < spent[t].expires;
            var crowded := |live| >= 4096 || |set t | t in live && spent[t].vault == owner| >= 256;
            && (good && !crowded ==> outcome == Consumed(p.ticket.challenge))
            && (good && crowded ==> outcome == Busy)
            && (!good ==> outcome == Rejected)
  {
    var kept := Unexpired(spent, later);
    var live := set t | t in spent && later < spent[t].expires;
    assert kept.Keys == live && |kept| == |kept.Keys|;
    assert OwnedBy(kept, owner) == set t | t in live && spent[t].vault == owner;
  }

  /** In every run a consumed ticket was issued by this process, at most 120 seconds before,
      for this purpose and owner, and what is handed back is the challenge it was issued with. */
  lemma ConsumedWasIssued(run: seq<World>, k: nat, owner: VaultId, p: Presented, purpose: string, now: int, later: int)
    requires Runs.IsRun(Init, Next, run) && k < |run| && Enabled(run[k], ConsumeTicket(owner, p, purpose, now, later))
    requires Decide(run[k].key, run[k].spent, owner, p, purpose, now, later).Consumed?
    ensures p.Presented? && Decide(run[k].key, run[k].spent, owner, p, purpose, now, later).challenge == p.ticket.challenge
    ensures p.ticket.purpose == purpose && (p.ticket.vault == owner || p.ticket.vault == "")
    ensures exists at :: Issued(p.ticket, at) in run[k].issued && at <= now < at + 120
  {
    InvIsInductive();
    Runs.InvariantHolds(Init, Next, Inv, run, k);
    DecidedExactly(run[k].key, run[k].spent, owner, p, purpose, now, later);
    var at :| Issued(p.ticket, at) in run[k].issued;
    assert at <= now < at + 120;
  }

  /** What is remembered: expired entries go unless the request was rejected, and a consumed
      ticket is there until it expires. */
  lemma RememberedExactly(spent: SpentSet, outcome: Outcome, owner: VaultId, p: Presented, later: int, t: Ticket)
    requires p.Presented?
    ensures var after := Remember(spent, outcome, owner, p, later);
            if outcome.Consumed? && t == p.ticket then t in after && after[t] == Spent(owner, t.expires)
            else && (t in after <==> t in spent && (outcome.Rejected? || later < spent[t].expires))
                 && (t in after ==> after[t] == spent[t])
  {
  }

  /** The steps of a run are the calls of the service, with what they are remembered by. */
  lemma StepsExactly(w: World, s: Step)
    requires Enabled(w, s)
    ensures var w' := Do(w, s);
            match s
            case IssueTicket(vault, purpose, random, challenge, now) =>
              && w'.key == (if w.key.None? then Some(random) else w.key) && w'.clock == now
              && w'.issued == w.issued + {Issued(Ticket(w'.key.value, vault, purpose, challenge, now + 120), now)}
              && w'.spent == w.spent && w'.all == w.all && w'.order == w.order
            case ConsumeTicket(owner, p, purpose, now, later) =>
              var outcome := Decide(w.key, w.spent, owner, p, purpose, now, later);
              && w'.key == w.key && w'.issued == w.issued && w'.clock == later && w'.spent == Remember(w.spent, outcome, owner, p, later)
              && (if outcome.Consumed? then p.Presented? && w'.order == w.order + [p.ticket] else w'.order == w.order && w'.all == w.all)
            case Restart => w'.key == None && w'.spent == map[] && w'.order == [] && w'.issued == {} && w'.clock == w.clock
  {
  }
}
