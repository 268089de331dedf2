/** The Operator's event stream of one batch: every event of the batch is written to the
    journal before it is applied, and after a restart the journal is replayed, in an order
    of its own, before anything live. */
module DelegationStream {
  import opened Basics
  import Runs
  import Ordering
  import opened DelegationSlots
  import DelegationJournal

  /** A tree node's transaction: everything but the key-spend signature, and that signature
      in lower-case hex, empty when there is none. */
  datatype Packet = Packet(core: string, signature: string)

  /** The child map of an event may be absent, which is not the same as an empty one. */
  datatype Node = Node(packet: Packet, children: Option<map<nat, Txid>>)

  type NonceMap = Option<map<string, string>>

  datatype Event =
    | TreeTx(batch: string, index: nat, txid: Txid, node: Node)
    | SigningStarted(batch: string, owns: bool, commitment: string)
    | TreeNonces(batch: string, txid: Txid, nonces: NonceMap)
    | TreeSignature(batch: string, index: nat, txid: Txid, signature: string)
    | Finalization(batch: string, commitment: string)
    | Unrelated

  // ----- where an event is kept

  datatype Phase = Kept(slot: Slot) | Ignored | Malformed

  /** delegationStreamPhase */
  function PhaseOf(e: Event, batch: string): Phase {
    if batch == "" then Ignored
    else match e
      case TreeTx(b, index, txid, _) =>
        if b != batch then Ignored else if !ValidTxid(txid) || index > 1 then Malformed else Kept(Tree(index, txid))
      case TreeNonces(b, txid, _) =>
        if b != batch then Ignored else if !ValidTxid(txid) then Malformed else Kept(Nonce(txid))
      case TreeSignature(b, index, txid, _) =>
        if b != batch then Ignored else if !ValidTxid(txid) || index != 0 then Malformed else Kept(Signature(txid))
      case SigningStarted(b, _, _) => if b != batch then Ignored else Kept(Signing)
      case Finalization(b, _) => if b != batch then Ignored else Kept(Final)
      case Unrelated => Ignored
  }

  /** The batch an event names. */
  function BatchOf(e: Event): Option<string> {
    match e
    case TreeTx(batch, _, _, _) => Some(batch)
    case SigningStarted(batch, _, _) => Some(batch)
    case TreeNonces(batch, _, _) => Some(batch)
    case TreeSignature(batch, _, _, _) => Some(batch)
    case Finalization(batch, _) => Some(batch)
    case Unrelated => None
  }

  /** The slot of an event by its kind, index and txid. */
  predicate Belongs(e: Event, slot: Slot) {
    match slot
    case Tree(index, txid) => e.TreeTx? && e.index == index && e.txid == txid && index <= 1 && ValidTxid(txid)
    case Signing => e.SigningStarted?
    case Nonce(txid) => e.TreeNonces? && e.txid == txid && ValidTxid(txid)
    case Signature(txid) => e.TreeSignature? && e.txid == txid && e.index == 0 && ValidTxid(txid)
    case Final => e.Finalization?
  }

  /** An event is kept exactly when it names this batch and has a slot, and it is an error
      exactly when it names this batch and has none. */
  lemma KeptExactly(e: Event, batch: string, slot: Slot)
    ensures PhaseOf(e, batch) == Kept(slot) <==> batch != "" && BatchOf(e) == Some(batch) && Belongs(e, slot)
    ensures PhaseOf(e, batch).Malformed? <==> batch != "" && BatchOf(e) == Some(batch) && forall s :: !Belongs(e, s)
    ensures PhaseOf(e, batch).Ignored? <==> batch == "" || BatchOf(e) != Some(batch)
  {
    if PhaseOf(e, batch).Kept? { assert Belongs(e, PhaseOf(e, batch).slot); }
  }

  type Journal = map<Slot, Event>

  /** The slots of the journal, each once, in replay order. */
  ghost predicate ReplayOrder(journal: Journal, order: seq<Slot>) {
    && Ordering.Distinct(order) && (forall s :: s in order <==> s in journal)
    && Ordering.Sorted(Earlier, order)
  }

  /** replayDelegationStream: `listing` is the journal in whatever order its map yields. */
  method SortForReplay(journal: Journal, listing: seq<Slot>) returns (order: seq<Slot>)
    requires Ordering.Distinct(listing) && forall s :: s in listing <==> s in journal
    requires forall s :: s in journal ==> ValidSlot(s)
    ensures ReplayOrder(journal, order)
  {
    EarlierIsTotalOrder(listing);
    order := Ordering.Sort(Earlier, listing);
    Ordering.SameElements(order, listing);
    Ordering.DistinctByMultiset(listing, order);
  }

  /** There is one replay order, whatever order the map yielded. */
  lemma ReplayOrderIsUnique(journal: Journal, a: seq<Slot>, b: seq<Slot>)
    requires ReplayOrder(journal, a) && ReplayOrder(journal, b)
    requires forall s :: s in journal ==> ValidSlot(s)
    ensures a == b
  {
    EarlierIsTotalOrder(a);
    Ordering.SameMultiset(a, b);
    Ordering.SortedUnique(Earlier, a, b);
  }

  // ----- the accumulators

  datatype Accumulators = Accumulators(vtxos: map<Txid, Node>, connectors: map<Txid, Node>, nonces: map<Txid, NonceMap>)

  /** The prepared signing tree, with the public nonces of the capsule: one for every node
      we sign. */
  datatype Prepared = Prepared(tree: map<Txid, Node>, commitment: string, nonces: map<Txid, string>)

  function Ours(prepared: Prepared): set<Txid> { prepared.nonces.Keys }

  /** The phases that handling an event writes: tree_prepared, nonces_committed,
      tree_signed and final_authorized. */
  datatype Saved = Saved(prepared: Option<Prepared>, committed: Option<map<Txid, NonceMap>>, signed: bool, authorized: bool)

  datatype Applied = Applied(acc: Accumulators, saved: Saved)

  /** What the code computes from the contract, the plan and the events alone:
      `tree` is the check of canonicalSpendingRenewalTree; `signing` the checks made before a
      tree is prepared, against its commitment, with the size of the entry written;
      `capsule` the public nonces made for our nodes from fresh randomness;
      `cosigners` the keys a node names and `own` ours among them;
      `musig` the aggregation of a node's nonces and the signature over its digest;
      `fits` the size of an entry of committed nonces; and `final` the checks of a final
      commitment against the prepared tree, the batch tree with its signatures and the
      connectors, with the size of the entry written. */
  datatype Checks = Checks(
    tree: map<Txid, Node> -> bool,
    signing: (map<Txid, Node>, string) -> bool,
    capsule: (map<Txid, Node>, string, string) -> map<Txid, string>,
    cosigners: Node -> seq<string>, own: string,
    musig: (Prepared, Txid, map<string, string>) -> bool,
    fits: map<Txid, NonceMap> -> bool,
    final: (Prepared, string, map<Txid, Node>, map<Txid, Node>) -> bool)

  /** What comes from outside while an event is handled: whether the journal is open and has
      room, whether the keys are at hand, the Operator answers and the clock allows, and
      fresh randomness. */
  datatype Verdicts = Verdicts(admitted: bool, ok: bool, seed: string)

  function Signed(node: Node, signature: string): Node { node.(packet := node.packet.(signature := signature)) }

  /** Canonicalising a tree gives every node a child map. */
  function Normal(node: Node): Node { if node.children.None? then node.(children := Some(map[])) else node }

  function NormalTree(nodes: map<Txid, Node>): map<Txid, Node> { map txid | txid in nodes :: Normal(nodes[txid]) }

  /** Puts a node into one of the two trees; a different node under the same txid is refused. */
  function Place(nodes: map<Txid, Node>, txid: Txid, node: Node): Option<map<Txid, Node>> {
    if |nodes| >= MAX_NODES && txid !in nodes then None
    else if txid in nodes && nodes[txid] != node then None
    else Some(nodes[txid := node])
  }

  /** The signature text of an event: 64 bytes of hex in either case. */
  predicate SignatureText(s: string) { |s| == 128 && forall i :: 0 <= i < |s| ==> HexDigit(s[i]) }

  /** A public nonce in an event: 66 bytes of hex in either case. */
  predicate NonceText(s: string) { |s| == 132 && forall i :: 0 <= i < |s| ==> HexDigit(s[i]) }

  function Received(nonces: NonceMap): map<string, string> { if nonces.Some? then nonces.value else map[] }

  /** A node can be signed with what its event brought: as many nonces as the node has
      cosigners, one for each of them, and our own as the capsule has it. */
  predicate NodeReady(checks: Checks, prepared: Prepared, txid: Txid, nonces: NonceMap) {
    var received := Received(nonces);
    && txid in prepared.tree && txid in prepared.nonces
    && |checks.cosigners(prepared.tree[txid])| == |received|
    && checks.own in received && received[checks.own] == prepared.nonces[txid]
    && (forall key :: key in checks.cosigners(prepared.tree[txid]) ==> key in received && NonceText(received[key]))
    && checks.musig(prepared, txid, received)
  }

  predicate ReadyAt(checks: Checks, prepared: Prepared, all: map<Txid, NonceMap>, txid: Txid) {
    txid in all && NodeReady(checks, prepared, txid, all[txid])
  }

  /** signSpendingDelegationTree signs all of our nodes or none. */
  predicate Ready(checks: Checks, prepared: Prepared, all: map<Txid, NonceMap>) {
    forall txid {:trigger ReadyAt(checks, prepared, all, txid)} :: txid in prepared.nonces ==> ReadyAt(checks, prepared, all, txid)
  }

  /** The nonces for one node are for a node we sign and agree with what was received. Once
      they are complete they agree with what was committed, or fit a new entry. */
  predicate NoncesFit(checks: Checks, acc: Accumulators, saved: Saved, txid: Txid, nonces: NonceMap) {
    && saved.prepared.Some? && txid in Ours(saved.prepared.value)
    && (txid in acc.nonces ==> acc.nonces[txid] == nonces)
    && (NoncesComplete(acc, saved, txid, nonces) ==>
          var all := acc.nonces[txid := nonces];
          if saved.committed.Some? then saved.committed.value == all else checks.fits(all))
  }

  predicate NoncesComplete(acc: Accumulators, saved: Saved, txid: Txid, nonces: NonceMap) {
    saved.prepared.Some? && |acc.nonces[txid := nonces]| == |Ours(saved.prepared.value)|
  }

  /** What handling one persisted event does to the maps and to the phases. */
  function Apply(checks: Checks, acc: Accumulators, saved: Saved, e: Event, v: Verdicts): Option<Applied> {
    match e
    case TreeTx(_, index, txid, node) =>
      var placed := Place(if index == 1 then acc.connectors else acc.vtxos, txid, node);
      if placed.None? then None
      else if index == 1 then Some(Applied(acc.(connectors := placed.value), saved))
      else Some(Applied(acc.(vtxos := placed.value), saved))
    case SigningStarted(_, owns, commitment) =>
      var tree := NormalTree(acc.vtxos);
      if !owns || !checks.tree(tree) || !v.ok then None
      else if saved.prepared.None? then
        if !checks.signing(tree, commitment) then None
        else Some(Applied(acc, saved.(prepared := Some(Prepared(tree, commitment, checks.capsule(tree, commitment, v.seed))))))
      else if tree != saved.prepared.value.tree || commitment != saved.prepared.value.commitment then None
      else Some(Applied(acc, saved))
    case TreeNonces(_, txid, nonces) =>
      var all := acc.nonces[txid := nonces];
      if !NoncesFit(checks, acc, saved, txid, nonces) then None
      else if !NoncesComplete(acc, saved, txid, nonces) then Some(Applied(acc.(nonces := all), saved))
      else if !saved.signed && !Ready(checks, saved.prepared.value, all) then None
      else if !v.ok then None
      else Some(Applied(acc.(nonces := all), saved.(committed := Some(all), signed := true)))
    case TreeSignature(_, _, txid, signature) =>
      if txid !in acc.vtxos || !SignatureText(signature) then None
      else if acc.vtxos[txid].packet.signature != "" && acc.vtxos[txid].packet.signature != ToLower(signature) then None
      else Some(Applied(acc.(vtxos := acc.vtxos[txid := Signed(acc.vtxos[txid], ToLower(signature))]), saved))
    case Finalization(_, commitment) =>
      if !v.ok then None
      else if saved.authorized then Some(Applied(acc, saved))
      else if saved.prepared.None? || !checks.final(saved.prepared.value, commitment, acc.vtxos, acc.connectors) then None
      else if !saved.signed then None
      else Some(Applied(acc, saved.(authorized := true)))
    case Unrelated => Some(Applied(acc, saved))
  }

  /** The phases left when handling an event stops at the signer: the nonces are committed
      before it is asked. */
  function Left(checks: Checks, acc: Accumulators, saved: Saved, e: Event): Saved {
    if e.TreeNonces? && NoncesFit(checks, acc, saved, e.txid, e.nonces) && NoncesComplete(acc, saved, e.txid, e.nonces)
    then saved.(committed := Some(acc.nonces[e.txid := e.nonces])) else saved
  }

  /** The maps as the event loop keeps them. */
  class BatchAccumulators {
    const checks: Checks
    var vtxos: map<Txid, Node>
    var connectors: map<Txid, Node>
    var nonces: map<Txid, NonceMap>
    var saved: Saved

    constructor (checks: Checks, saved: Saved)
      ensures this.checks == checks && this.saved == saved && connectors == map[] && nonces == map[]
      ensures vtxos == if saved.prepared.Some? then saved.prepared.value.tree else map[]
    {
      this.checks, this.saved, connectors, nonces := checks, saved, map[], map[];
      vtxos := if saved.prepared.Some? then saved.prepared.value.tree else map[];
    }

    ghost function Maps(): Accumulators
      reads this
    {
      Accumulators(vtxos, connectors, nonces)
    }

    /** The nonces of one node; the last of them commits all and has the tree signed. */
    method TakeNonces(e: Event, v: Verdicts) returns (ok: bool)
      requires e.TreeNonces?
      modifies `nonces, `saved
      ensures ok == Apply(checks, old(Maps()), old(saved), e, v).Some?
      ensures if ok then Applied(Maps(), saved) == Apply(checks, old(Maps()), old(saved), e, v).value
              else Maps() == old(Maps()) && saved == Left(checks, old(Maps()), old(saved), e)
    {
      var txid, received := e.txid, e.nonces;
      if saved.prepared.None? || txid !in saved.prepared.value.nonces || (txid in nonces && nonces[txid] != received) {
        return false;
      }
      var all := nonces[txid := received];
      if |all| == |saved.prepared.value.nonces.Keys| {
        var kept := if saved.committed.Some? then saved.committed.value == all else checks.fits(all);
        if !kept {
          return false;
        }
        saved := saved.(committed := Some(all));
        if (!saved.signed && !Ready(checks, saved.prepared.value, all)) || !v.ok {
          return false;
        }
        saved := saved.(signed := true);
      }
      nonces := all;
      return true;
    }

    /** One event of the batch; a refusal leaves the maps alone, and of the phases writes at
        most the committed nonces. */
    method Take(e: Event, v: Verdicts) returns (ok: bool)
      modifies this
      ensures ok == Apply(checks, old(Maps()), old(saved), e, v).Some?
      ensures if ok then Applied(Maps(), saved) == Apply(checks, old(Maps()), old(saved), e, v).value
              else Maps() == old(Maps()) && saved == Left(checks, old(Maps()), old(saved), e)
    {
      ok := true;
      match e
      case TreeTx(_, index, txid, node) =>
        var target := if index == 1 then connectors else vtxos;
        if |target| >= MAX_NODES && txid !in target {
          return false;
        }
        if txid in target && target[txid] != node {
          return false;
        }
        if index == 1 {
          connectors := connectors[txid := node];
        } else {
          vtxos := vtxos[txid := node];
        }
      case SigningStarted(_, owns, commitment) =>
        var tree := NormalTree(vtxos);
        if !owns || !checks.tree(tree) || !v.ok {
          return false;
        }
        if saved.prepared.None? {
          if !checks.signing(tree, commitment) {
            return false;
          }
          saved := saved.(prepared := Some(Prepared(tree, commitment, checks.capsule(tree, commitment, v.seed))));
        } else if tree != saved.prepared.value.tree || commitment != saved.prepared.value.commitment {
          return false;
        }
      case TreeNonces(_, _, _) => ok := TakeNonces(e, v);
      case TreeSignature(_, _, txid, signature) =>
        if txid !in vtxos || !SignatureText(signature) {
          return false;
        }
        var node := vtxos[txid];
        if node.packet.signature != "" && node.packet.signature != ToLower(signature) {
          return false;
        }
        vtxos := vtxos[txid := Signed(node, ToLower(signature))];
      case Finalization(_, commitment) =>
        if !v.ok {
          return false;
        }
        if !saved.authorized {
          if saved.prepared.None? || !checks.final(saved.prepared.value, commitment, vtxos, connectors) || !saved.signed {
            return false;
          }
          saved := saved.(authorized := true);
        }
      case Unrelated =>
    }
  }

  // ----- lives of the process

  /** `checks` never change; `journal` and `saved` are durable. `acc`, `pending` (what is
      still to be replayed) and `applied` (what this life has applied) last until the life
      ends. */
  datatype System = System(
    batch: string, checks: Checks, journal: Journal, saved: Saved,
    running: bool, acc: Accumulators, pending: seq<Slot>, applied: set<Slot>)

  datatype Step =
    | Boot(order: seq<Slot>)
    | Handle(e: Event, v: Verdicts, crash: bool)
    | Crash

  /** A renewal whose final submission is authorized does not join its batch again. */
  ghost predicate Enabled(s: System, step: Step) {
    match step
    case Boot(order) => !s.saved.authorized && ReplayOrder(s.journal, order)
    case Handle(e, _, _) =>
      s.running && (|s.pending| > 0 ==> s.pending[0] in s.journal && e == s.journal[s.pending[0]])
    case Crash => true
  }

  /** The journal takes a new event in its slot, or the very same one again. A nonce needs
      a prepared tree, a signature or the finalization a signed one. */
  predicate Persistable(s: System, slot: Slot, e: Event, v: Verdicts) {
    && v.admitted
    && if slot in s.journal then s.journal[slot] == e
       else (slot.Nonce? ==> s.saved.prepared.Some?) && (slot.Signature? || slot.Final? ==> s.saved.signed)
  }

  ghost function Do(s: System, step: Step): System {
    match step
    case Boot(order) =>
      var tree := if s.saved.prepared.Some? then s.saved.prepared.value.tree else map[];
      s.(running := true, acc := Accumulators(tree, map[], map[]), pending := order, applied := {})
    case Crash => s.(running := false)
    case Handle(e, v, crash) =>
      match PhaseOf(e, s.batch)
      case Malformed => s.(running := false)
      case Ignored => s
      case Kept(slot) =>
        if !Persistable(s, slot, e, v) then s.(running := false)
        else
          var journal := s.journal[slot := e];
          var a := Apply(s.checks, s.acc, s.saved, e, v);
          if crash then s.(journal := journal, running := false)
          else if a.None? then s.(journal := journal, saved := Left(s.checks, s.acc, s.saved, e), running := false)
          else s.(journal := journal, acc := a.value.acc, saved := a.value.saved, applied := s.applied + {slot},
            pending := if |s.pending| > 0 then s.pending[1..] else [])
  }

  // ----- the phase journal behind it

  /** The phase journal `events` of the operation, as this system sees it: the stream slots
      with their events, and whether the tree has been prepared and signed. */
  ghost predicate Mirrors<E(!new)>(s: System, events: DelegationJournal.Events<E>, encode: Event -> E) {
    && DelegationJournal.BatchStarted in events
    && (s.saved.prepared.Some? <==> DelegationJournal.TreePrepared in events)
    && (s.saved.signed <==> DelegationJournal.TreeSigned in events)
    && forall slot :: SlotMirrors(s, events, encode, slot)
  }

  ghost predicate SlotMirrors<E(!new)>(s: System, events: DelegationJournal.Events<E>, encode: Event -> E, slot: Slot) {
    && (slot in s.journal <==> DelegationJournal.StreamEvent(slot) in events)
    && (slot in s.journal ==> events[DelegationJournal.StreamEvent(slot)] == encode(s.journal[slot]))
  }

  /** This system persists an event exactly when the phase journal takes its encoding, and
      both journals then still agree. */
  lemma PersistsAsJournalAdvances<E(!new)>(
    s: System, events: DelegationJournal.Events<E>, encode: Event -> E, slot: Slot, e: Event, v: Verdicts, w: DelegationJournal.Verdicts)
    requires Mirrors(s, events, encode) && ValidSlot(slot)
    requires forall x, y :: encode(x) == encode(y) ==> x == y
    requires v.admitted <==>
      DelegationJournal.Open(events) && (slot in s.journal || |events| < DelegationJournal.TRANSCRIPT_CAPACITY)
    ensures var written := DelegationJournal.Advance(events, DelegationJournal.StreamEvent(slot), encode(e), w);
            && (written.Some? <==> Persistable(s, slot, e, v))
            && (written.Some? ==> Mirrors(s.(journal := s.journal[slot := e]), written.value, encode))
  {
    DelegationJournal.StreamEventWrittenIff(events, slot, encode(e), w);
    assert SlotMirrors(s, events, encode, slot);
    var written := DelegationJournal.Advance(events, DelegationJournal.StreamEvent(slot), encode(e), w);
    if written.Some? {
      var s' := s.(journal := s.journal[slot := e]);
      forall x ensures SlotMirrors(s', written.value, encode, x) { assert SlotMirrors(s, events, encode, x); }
    }
  }

  // ----- what the maps are

  function NodeAt(journal: Journal, slot: Slot): Node {
    if slot in journal && journal[slot].TreeTx? then journal[slot].node else Node(Packet("", ""), None)
  }

  function SignatureAt(journal: Journal, txid: Txid): string {
    if Signature(txid) in journal && journal[Signature(txid)].TreeSignature? then ToLower(journal[Signature(txid)].signature) else ""
  }

  function NoncesAt(journal: Journal, txid: Txid): NonceMap {
    if Nonce(txid) in journal && journal[Nonce(txid)].TreeNonces? then journal[Nonce(txid)].nonces else None
  }

  /** A node of the batch tree, with its signature once that has been applied. */
  function Dressed(journal: Journal, txid: Txid, signed: bool): Node {
    if signed then Signed(NodeAt(journal, Tree(0, txid)), SignatureAt(journal, txid)) else NodeAt(journal, Tree(0, txid))
  }

  function TreeTxids(journal: Journal, index: nat): set<Txid> {
    set slot | slot in journal && slot.Tree? && slot.index == index :: slot.txid
  }

  function NonceTxids(journal: Journal): set<Txid> { set slot | slot in journal && slot.Nonce? :: slot.txid }

  /** The maps as a function of the set of persisted events alone. */
  function Canonical(journal: Journal): Accumulators {
    Accumulators(
      map txid | txid in TreeTxids(journal, 0) :: Dressed(journal, txid, Signature(txid) in journal),
      map txid | txid in TreeTxids(journal, 1) :: NodeAt(journal, Tree(1, txid)),
      map txid | txid in NonceTxids(journal) :: NoncesAt(journal, txid))
  }

  // ----- the invariant

  ghost predicate WellKept(s: System) {
    forall slot {:trigger s.journal[slot]} :: slot in s.journal ==>
      ValidSlot(slot) && PhaseOf(s.journal[slot], s.batch) == Kept(slot)
  }

  ghost predicate FromJournal(s: System, txid: Txid)
    requires s.saved.prepared.Some?
  {
    txid in s.saved.prepared.value.tree ==>
      Tree(0, txid) in s.journal && s.saved.prepared.value.tree[txid] == Normal(NodeAt(s.journal, Tree(0, txid)))
  }

  function CommitmentAt(journal: Journal): string {
    if Signing in journal && journal[Signing].SigningStarted? then journal[Signing].commitment else ""
  }

  /** A prepared tree is made of persisted nodes, canonicalised, under the persisted
      commitment. */
  ghost predicate PreparedFromJournal(s: System) {
    s.saved.prepared.Some? ==>
      && Signing in s.journal && s.saved.prepared.value.commitment == CommitmentAt(s.journal)
      && forall txid :: FromJournal(s, txid)
  }

  /** The committed nonces are the persisted ones of exactly the nodes we sign. */
  ghost predicate CommittedFromJournal(s: System) {
    s.saved.committed.Some? ==>
      && s.saved.prepared.Some? && s.saved.committed.value.Keys == Ours(s.saved.prepared.value)
      && forall txid :: txid in s.saved.committed.value ==>
           Nonce(txid) in s.journal && s.saved.committed.value[txid] == NoncesAt(s.journal, txid)
  }

  /** Nothing is committed that does not fit, and nothing signed that is not ready. */
  ghost predicate SignedWhenReady(s: System) {
    && (s.saved.committed.Some? ==> s.checks.fits(s.saved.committed.value))
    && (s.saved.signed ==>
          s.saved.prepared.Some? && s.saved.committed.Some? && Ready(s.checks, s.saved.prepared.value, s.saved.committed.value))
  }

  /** A life that has received all nonces has a signed tree. */
  ghost predicate Completed(s: System) {
    s.saved.prepared.Some? && s.acc.nonces != map[] && s.acc.nonces.Keys == Ours(s.saved.prepared.value) ==> s.saved.signed
  }

  /** The order of the phases. */
  ghost predicate Ordered(s: System) {
    && (s.saved.signed ==> s.saved.committed.Some?)
    && (s.saved.authorized ==> s.saved.signed)
    && (s.saved.prepared.None? ==> forall slot :: slot in s.journal ==> slot.Tree? || slot.Signing?)
    && (!s.saved.signed ==> forall slot :: slot in s.journal ==> !slot.Signature? && !slot.Final?)
  }

  ghost predicate VtxoOk(s: System, txid: Txid) {
    && (txid in s.acc.vtxos <==> Tree(0, txid) in s.applied || (s.saved.prepared.Some? && txid in s.saved.prepared.value.tree))
    && (Signature(txid) in s.applied ==> txid in s.acc.vtxos)
    && (txid in s.acc.vtxos ==> Tree(0, txid) in s.journal)
    && (txid in s.acc.vtxos ==>
          var node := Dressed(s.journal, txid, Signature(txid) in s.applied);
          s.acc.vtxos[txid] == if Tree(0, txid) in s.applied then node else Normal(node))
  }

  ghost predicate ConnectorOk(s: System, txid: Txid) {
    && (txid in s.acc.connectors <==> Tree(1, txid) in s.applied)
    && (txid in s.acc.connectors ==> s.acc.connectors[txid] == NodeAt(s.journal, Tree(1, txid)))
  }

  ghost predicate NonceOk(s: System, txid: Txid) {
    && (txid in s.acc.nonces <==> Nonce(txid) in s.applied)
    && (txid in s.acc.nonces ==>
          && s.acc.nonces[txid] == NoncesAt(s.journal, txid)
          && s.saved.prepared.Some? && txid in Ours(s.saved.prepared.value))
  }

  ghost predicate Tracked(s: System) {
    && (forall slot :: slot in s.journal ==> slot in s.applied || slot in s.pending)
    && (forall slot :: slot in s.pending ==> slot in s.journal)
  }

  ghost predicate MapsOk(s: System) {
    && (forall txid :: VtxoOk(s, txid))
    && (forall txid :: ConnectorOk(s, txid))
    && (forall txid :: NonceOk(s, txid))
  }

  /** What the durable part satisfies. */
  ghost predicate DurableOk(s: System) {
    WellKept(s) && PreparedFromJournal(s) && CommittedFromJournal(s) && SignedWhenReady(s) && Ordered(s)
  }

  ghost predicate Inv(s: System) {
    DurableOk(s) && s.applied <= s.journal.Keys && (s.running ==> Tracked(s) && MapsOk(s) && Completed(s))
  }

  ghost predicate Init(s: System) {
    !s.running && s.journal == map[] && s.saved == Saved(None, None, false, false) && s.applied == {}
  }

  ghost predicate Next(s: System, s': System) { exists step :: Enabled(s, step) && s' == Do(s, step) }

  /** Only the journal and the phases matter to the durable part. */
  lemma DurableMoves(s: System, s': System)
    requires DurableOk(s) && s'.batch == s.batch && s'.checks == s.checks && s'.journal == s.journal && s'.saved == s.saved
    ensures DurableOk(s')
  {
    if s.saved.prepared.Some? { forall txid ensures FromJournal(s', txid) { assert FromJournal(s, txid); } }
  }

  lemma BootKeepsInv(s: System, order: seq<Slot>)
    requires Inv(s) && ReplayOrder(s.journal, order)
    ensures Inv(Do(s, Boot(order)))
  {
    var s' := Do(s, Boot(order));
    DurableMoves(s, s');
    forall txid ensures VtxoOk(s', txid) {
      if s.saved.prepared.Some? { assert FromJournal(s, txid); }
    }
    assert MapsOk(s');
  }

  /** The journal takes an event, as new or as the same again. */
  ghost predicate Persists(s: System, slot: Slot, e: Event, s': System) {
    && (slot in s.journal ==> s.journal[slot] == e) && s'.journal == s.journal[slot := e]
    && s'.batch == s.batch && s'.checks == s.checks && s'.saved == s.saved
  }

  lemma PersistKeepsPrepared(s: System, slot: Slot, e: Event, s': System)
    requires PreparedFromJournal(s) && Persists(s, slot, e, s')
    ensures PreparedFromJournal(s')
  {
    if s.saved.prepared.Some? { forall txid ensures FromJournal(s', txid) { assert FromJournal(s, txid); } }
  }

  lemma PersistKeepsCommitted(s: System, slot: Slot, e: Event, s': System)
    requires CommittedFromJournal(s) && Persists(s, slot, e, s')
    ensures CommittedFromJournal(s')
  {
  }

  /** Writing an event to the journal, whether or not it is then applied. */
  lemma PersistKeeps(s: System, slot: Slot, e: Event, v: Verdicts, s': System)
    requires DurableOk(s) && PhaseOf(e, s.batch) == Kept(slot) && Persistable(s, slot, e, v)
    requires s'.batch == s.batch && s'.checks == s.checks && s'.journal == s.journal[slot := e] && s'.saved == s.saved
    ensures DurableOk(s')
  {
    PersistKeepsPrepared(s, slot, e, s');
    PersistKeepsCommitted(s, slot, e, s');
    assert WellKept(s') && Ordered(s') && SignedWhenReady(s');
  }

  /** From `s` to `s'` an event was persisted, as new or as the same again, and applied. */
  ghost predicate Grows(s: System, slot: Slot, e: Event, s': System) {
    && (slot in s.journal ==> s.journal[slot] == e) && s.applied <= s.journal.Keys
    && s'.journal == s.journal[slot := e] && s'.applied == s.applied + {slot}
  }

  lemma VtxosStay(s: System, slot: Slot, e: Event, s': System)
    requires Grows(s, slot, e, s') && s'.acc.vtxos == s.acc.vtxos && s'.saved.prepared == s.saved.prepared
    requires slot.Tree? ==> slot.index != 0
    requires !slot.Signature? && forall txid :: VtxoOk(s, txid)
    ensures forall txid :: VtxoOk(s', txid)
  {
    forall txid ensures VtxoOk(s', txid) { assert VtxoOk(s, txid); }
  }

  lemma ConnectorsStay(s: System, slot: Slot, e: Event, s': System)
    requires Grows(s, slot, e, s') && s'.acc.connectors == s.acc.connectors
    requires slot.Tree? ==> slot.index != 1
    requires forall txid :: ConnectorOk(s, txid)
    ensures forall txid :: ConnectorOk(s', txid)
  {
    forall txid ensures ConnectorOk(s', txid) { assert ConnectorOk(s, txid); }
  }

  lemma NoncesStay(s: System, slot: Slot, e: Event, s': System)
    requires Grows(s, slot, e, s') && s'.acc.nonces == s.acc.nonces && !slot.Nonce?
    requires s.saved.prepared.Some? ==> s'.saved.prepared == s.saved.prepared
    requires forall txid :: NonceOk(s, txid)
    ensures forall txid :: NonceOk(s', txid)
  {
    forall txid ensures NonceOk(s', txid) { assert NonceOk(s, txid); }
  }

  /** A batch node is placed; one that a prepared tree had brought along is now as persisted. */
  lemma PlacedVtxo(s: System, e: Event, s': System, txid: Txid)
    requires e.TreeTx? && Grows(s, Tree(0, e.txid), e, s') && VtxoOk(s, txid)
    requires Place(s.acc.vtxos, e.txid, e.node) == Some(s'.acc.vtxos) && s'.saved.prepared == s.saved.prepared
    ensures VtxoOk(s', txid)
  {
    if txid != e.txid { assert Signature(txid) in s.applied ==> Signature(txid) in s.journal; }
  }

  lemma PlacedConnector(s: System, e: Event, s': System, txid: Txid)
    requires e.TreeTx? && Grows(s, Tree(1, e.txid), e, s') && ConnectorOk(s, txid)
    requires Place(s.acc.connectors, e.txid, e.node) == Some(s'.acc.connectors)
    ensures ConnectorOk(s', txid)
  {
  }

  lemma TreeKeepsMaps(s: System, e: Event, v: Verdicts, s': System)
    requires MapsOk(s) && e.TreeTx? && e.index <= 1 && Grows(s, Tree(e.index, e.txid), e, s')
    requires Apply(s.checks, s.acc, s.saved, e, v) == Some(Applied(s'.acc, s'.saved))
    ensures MapsOk(s')
  {
    var slot := Tree(e.index, e.txid);
    NoncesStay(s, slot, e, s');
    if e.index == 1 {
      VtxosStay(s, slot, e, s');
      forall txid ensures ConnectorOk(s', txid) { PlacedConnector(s, e, s', txid); }
    } else {
      ConnectorsStay(s, slot, e, s');
      forall txid ensures VtxoOk(s', txid) { PlacedVtxo(s, e, s', txid); }
    }
  }

  lemma SignatureKeepsMaps(s: System, e: Event, v: Verdicts, s': System)
    requires MapsOk(s) && e.TreeSignature? && Grows(s, Signature(e.txid), e, s')
    requires Apply(s.checks, s.acc, s.saved, e, v) == Some(Applied(s'.acc, s'.saved))
    ensures MapsOk(s')
  {
    ConnectorsStay(s, Signature(e.txid), e, s');
    NoncesStay(s, Signature(e.txid), e, s');
    forall txid ensures VtxoOk(s', txid) { assert VtxoOk(s, txid); }
  }

  lemma SigningKeepsMaps(s: System, e: Event, v: Verdicts, s': System)
    requires MapsOk(s) && e.SigningStarted? && Grows(s, Signing, e, s')
    requires Apply(s.checks, s.acc, s.saved, e, v) == Some(Applied(s'.acc, s'.saved))
    ensures MapsOk(s')
  {
    ConnectorsStay(s, Signing, e, s');
    NoncesStay(s, Signing, e, s');
    forall txid ensures VtxoOk(s', txid) { assert VtxoOk(s, txid); }
  }

  lemma NoncesKeepMaps(s: System, e: Event, v: Verdicts, s': System)
    requires MapsOk(s) && e.TreeNonces? && Grows(s, Nonce(e.txid), e, s')
    requires Apply(s.checks, s.acc, s.saved, e, v) == Some(Applied(s'.acc, s'.saved))
    ensures MapsOk(s')
  {
    VtxosStay(s, Nonce(e.txid), e, s');
    ConnectorsStay(s, Nonce(e.txid), e, s');
    forall txid ensures NonceOk(s', txid) { assert NonceOk(s, txid); }
  }

  lemma FinalKeepsMaps(s: System, e: Event, v: Verdicts, s': System)
    requires MapsOk(s) && e.Finalization? && Grows(s, Final, e, s')
    requires Apply(s.checks, s.acc, s.saved, e, v) == Some(Applied(s'.acc, s'.saved))
    ensures MapsOk(s')
  {
    VtxosStay(s, Final, e, s');
    ConnectorsStay(s, Final, e, s');
    NoncesStay(s, Final, e, s');
  }

  lemma AppliedCompletes(s: System, slot: Slot, e: Event, v: Verdicts, s': System)
    requires MapsOk(s) && Completed(s) && PhaseOf(e, s.batch) == Kept(slot)
    requires Apply(s.checks, s.acc, s.saved, e, v) == Some(Applied(s'.acc, s'.saved))
    ensures Completed(s')
  {
    if e.TreeNonces? {
      assert |s'.acc.nonces.Keys| == |s'.acc.nonces|;
    } else if e.SigningStarted? && s.saved.prepared.None? {
      forall txid ensures txid !in s.acc.nonces { assert NonceOk(s, txid); }
      assert s.acc.nonces == map[];
    }
  }

  lemma AppliedKeepsMaps(s: System, slot: Slot, e: Event, v: Verdicts, s': System)
    requires MapsOk(s) && PhaseOf(e, s.batch) == Kept(slot) && Grows(s, slot, e, s')
    requires Apply(s.checks, s.acc, s.saved, e, v) == Some(Applied(s'.acc, s'.saved))
    ensures MapsOk(s')
  {
    match e
    case TreeTx(_, _, _, _) => TreeKeepsMaps(s, e, v, s');
    case SigningStarted(_, _, _) => SigningKeepsMaps(s, e, v, s');
    case TreeNonces(_, _, _) => NoncesKeepMaps(s, e, v, s');
    case TreeSignature(_, _, _, _) => SignatureKeepsMaps(s, e, v, s');
    case Finalization(_, _) => FinalKeepsMaps(s, e, v, s');
  }

  /** A first signing event prepares the tree of the nodes received so far. */
  lemma PreparingKeeps(s: System, e: Event, v: Verdicts, s': System)
    requires Inv(s) && s.running && e.SigningStarted? && PhaseOf(e, s.batch) == Kept(Signing)
    requires Persistable(s, Signing, e, v) && Apply(s.checks, s.acc, s.saved, e, v).Some?
    requires s'.batch == s.batch && s'.checks == s.checks && s'.journal == s.journal[Signing := e]
    requires Applied(s'.acc, s'.saved) == Apply(s.checks, s.acc, s.saved, e, v).value
    ensures DurableOk(s')
  {
    forall txid ensures FromJournal(s', txid) {
      assert VtxoOk(s, txid);
      if s.saved.prepared.Some? { assert FromJournal(s, txid); }
    }
  }

  /** Received nonces for as many nodes as we sign are nonces for exactly the nodes we sign. */
  lemma CompleteIsAll(s: System, txid: Txid, nonces: NonceMap)
    requires MapsOk(s) && NoncesFit(s.checks, s.acc, s.saved, txid, nonces) && NoncesComplete(s.acc, s.saved, txid, nonces)
    ensures s.acc.nonces[txid := nonces].Keys == Ours(s.saved.prepared.value)
  {
    var all, ours := s.acc.nonces[txid := nonces].Keys, Ours(s.saved.prepared.value);
    forall t | t in all ensures t in ours { assert NonceOk(s, t); }
    assert |all| == |s.acc.nonces[txid := nonces]|;
    SubsetOfSameSize(all, ours);
  }

  lemma CommittingKeeps(s: System, e: Event, v: Verdicts, s': System)
    requires Inv(s) && s.running && e.TreeNonces? && PhaseOf(e, s.batch) == Kept(Nonce(e.txid))
    requires Persistable(s, Nonce(e.txid), e, v) && NoncesFit(s.checks, s.acc, s.saved, e.txid, e.nonces)
    requires NoncesComplete(s.acc, s.saved, e.txid, e.nonces)
    requires s'.batch == s.batch && s'.checks == s.checks && s'.journal == s.journal[Nonce(e.txid) := e]
    requires s'.saved == s.saved.(committed := Some(s.acc.nonces[e.txid := e.nonces]), signed := s'.saved.signed)
    requires s'.saved.signed ==> s.saved.signed || Ready(s.checks, s.saved.prepared.value, s.acc.nonces[e.txid := e.nonces])
    requires s.saved.signed ==> s'.saved.signed
    ensures DurableOk(s')
  {
    CompleteIsAll(s, e.txid, e.nonces);
    forall txid ensures FromJournal(s', txid) { assert FromJournal(s, txid); }
    forall txid | txid in s'.saved.committed.value
      ensures Nonce(txid) in s'.journal && s'.saved.committed.value[txid] == NoncesAt(s'.journal, txid)
    {
      assert NonceOk(s, txid);
    }
  }

  /** Handling an event to its end keeps the durable part in order. */
  lemma AppliedKeepsDurable(s: System, slot: Slot, e: Event, v: Verdicts, s': System)
    requires Inv(s) && s.running && PhaseOf(e, s.batch) == Kept(slot)
    requires Persistable(s, slot, e, v) && Apply(s.checks, s.acc, s.saved, e, v).Some?
    requires s'.batch == s.batch && s'.checks == s.checks && s'.journal == s.journal[slot := e]
    requires Applied(s'.acc, s'.saved) == Apply(s.checks, s.acc, s.saved, e, v).value
    ensures DurableOk(s')
  {
    if e.SigningStarted? {
      PreparingKeeps(s, e, v, s');
    } else if e.TreeNonces? && NoncesComplete(s.acc, s.saved, e.txid, e.nonces) {
      CommittingKeeps(s, e, v, s');
    } else {
      var p := s.(journal := s.journal[slot := e]);
      PersistKeeps(s, slot, e, v, p);
      if e.Finalization? { AuthorizingKeeps(p, s'); } else { DurableMoves(p, s'); }
    }
  }

  lemma AuthorizingKeeps(s: System, s': System)
    requires DurableOk(s) && s'.batch == s.batch && s'.checks == s.checks && s'.journal == s.journal
    requires s'.saved == s.saved.(authorized := s'.saved.authorized) && (s'.saved.authorized ==> s.saved.signed)
    ensures DurableOk(s')
  {
    if s.saved.prepared.Some? { forall txid ensures FromJournal(s', txid) { assert FromJournal(s, txid); } }
  }

  lemma RefusedKeepsDurable(s: System, slot: Slot, e: Event, v: Verdicts, s': System)
    requires Inv(s) && s.running && PhaseOf(e, s.batch) == Kept(slot) && Persistable(s, slot, e, v)
    requires s'.batch == s.batch && s'.checks == s.checks && s'.journal == s.journal[slot := e]
    requires s'.saved == s.saved || s'.saved == Left(s.checks, s.acc, s.saved, e)
    ensures DurableOk(s')
  {
    if s'.saved == s.saved { PersistKeeps(s, slot, e, v, s'); } else { CommittingKeeps(s, e, v, s'); }
  }

  lemma HandleKeepsInv(s: System, e: Event, v: Verdicts, crash: bool)
    requires Inv(s) && Enabled(s, Handle(e, v, crash))
    ensures Inv(Do(s, Handle(e, v, crash)))
  {
    var s' := Do(s, Handle(e, v, crash));
    var phase := PhaseOf(e, s.batch);
    if phase.Malformed? {
      DurableMoves(s, s');
    } else if phase.Kept? {
      var slot := phase.slot;
      if !Persistable(s, slot, e, v) {
        DurableMoves(s, s');
      } else if s'.running {
        AppliedKeepsDurable(s, slot, e, v, s');
        AppliedKeepsMaps(s, slot, e, v, s');
        AppliedCompletes(s, slot, e, v, s');
        TrackedKeeps(s, slot, e, s');
      } else {
        RefusedKeepsDurable(s, slot, e, v, s');
      }
    }
  }

  lemma TrackedKeeps(s: System, slot: Slot, e: Event, s': System)
    requires Tracked(s) && s'.journal == s.journal[slot := e] && s'.applied == s.applied + {slot}
    requires s'.pending == if |s.pending| > 0 then s.pending[1..] else []
    requires |s.pending| > 0 ==> s.pending[0] == slot
    ensures Tracked(s')
  {
    forall x | x in s'.journal ensures x in s'.applied || x in s'.pending {
      if x != slot && x in s.pending {
        var i :| 0 <= i < |s.pending| && s.pending[i] == x;
        assert s'.pending[i - 1] == x;
      }
    }
  }

  lemma InvIsInductive()
    ensures Runs.Inductive(Init, Next, Inv)
  {
    forall s, s' | Inv(s) && Next(s, s') ensures Inv(s') {
      var step :| Enabled(s, step) && s' == Do(s, step);
      match step
      case Boot(order) => BootKeepsInv(s, order);
      case Handle(e, v, crash) => HandleKeepsInv(s, e, v, crash);
      case Crash => DurableMoves(s, s');
    }
  }

  // ----- main results

  /** Whenever a life has finished its replay, its maps are the canonical maps of the
      journal: the order in which events arrived, the lives in which they arrived and the
      crashes in between leave no trace. */
  lemma MapsAreCanonical(run: seq<System>, k: nat)
    requires Runs.IsRun(Init, Next, run) && k < |run| && run[k].running && run[k].pending == []
    ensures run[k].acc == Canonical(run[k].journal)
  {
    InvIsInductive();
    Runs.InvariantHolds(Init, Next, Inv, run, k);
    CaughtUpIsCanonical(run[k]);
  }

  lemma CaughtUpVtxos(s: System)
    requires Inv(s) && s.running && s.pending == []
    ensures s.acc.vtxos == Canonical(s.journal).vtxos
  {
    var c := Canonical(s.journal).vtxos;
    forall txid
      ensures txid in s.acc.vtxos <==> txid in c
      ensures txid in c ==> s.acc.vtxos[txid] == c[txid]
    {
      assert VtxoOk(s, txid);
      assert txid in TreeTxids(s.journal, 0) <==> Tree(0, txid) in s.journal;
    }
  }

  lemma CaughtUpIsCanonical(s: System)
    requires Inv(s) && s.running && s.pending == []
    ensures s.acc == Canonical(s.journal)
  {
    var c := Canonical(s.journal);
    CaughtUpVtxos(s);
    forall txid
      ensures txid in s.acc.connectors <==> txid in c.connectors
      ensures txid in c.connectors ==> s.acc.connectors[txid] == c.connectors[txid]
    {
      assert ConnectorOk(s, txid);
      assert txid in TreeTxids(s.journal, 1) <==> Tree(1, txid) in s.journal;
    }
    forall txid
      ensures txid in s.acc.nonces <==> txid in c.nonces
      ensures txid in c.nonces ==> s.acc.nonces[txid] == c.nonces[txid]
    {
      assert NonceOk(s, txid);
      assert txid in NonceTxids(s.journal) <==> Nonce(txid) in s.journal;
    }
    assert s.acc.connectors == c.connectors && s.acc.nonces == c.nonces;
  }

  /** Two histories that persisted the same events have the same maps. */
  lemma SameEventsSameMaps(a: seq<System>, i: nat, b: seq<System>, j: nat)
    requires Runs.IsRun(Init, Next, a) && i < |a| && a[i].running && a[i].pending == []
    requires Runs.IsRun(Init, Next, b) && j < |b| && b[j].running && b[j].pending == []
    requires a[i].journal == b[j].journal
    ensures a[i].acc == b[j].acc
  {
    MapsAreCanonical(a, i);
    MapsAreCanonical(b, j);
  }

  // ----- what is committed

  /** What was prepared, committed or persisted stays as it is. */
  ghost predicate Stays(s: System, s': System) {
    && (s.saved.prepared.Some? ==> s'.saved.prepared == s.saved.prepared)
    && (s.saved.committed.Some? ==> s'.saved.committed == s.saved.committed)
    && (forall slot :: slot in s.journal ==> slot in s'.journal && s'.journal[slot] == s.journal[slot])
  }

  lemma HandleStays(s: System, e: Event, v: Verdicts, crash: bool)
    ensures Stays(s, Do(s, Handle(e, v, crash)))
  {
  }

  lemma StepsStay()
    ensures Runs.KeptByStep(Next, Inv, Stays)
  {
    forall s, s' | Next(s, s') ensures Stays(s, s') {
      var step :| Enabled(s, step) && s' == Do(s, step);
      if step.Handle? { HandleStays(s, step.e, step.v, step.crash); }
    }
  }

  /** The nonces `s` has committed are the persisted ones of exactly the nodes we sign. */
  ghost predicate CommittedCanonically(s: System) {
    && s.saved.prepared.Some? && s.saved.committed.Some?
    && var (nonces, ours) := (Canonical(s.journal).nonces, Ours(s.saved.prepared.value));
       ours <= nonces.Keys && s.saved.committed.value == map txid | txid in ours :: nonces[txid]
  }

  lemma CommittedNow(s: System)
    requires CommittedFromJournal(s) && s.saved.committed.Some?
    ensures CommittedCanonically(s)
  {
    var nonces := Canonical(s.journal).nonces;
    forall txid | txid in Ours(s.saved.prepared.value) ensures txid in nonces && nonces[txid] == s.saved.committed.value[txid] {
      assert txid in NonceTxids(s.journal) <==> Nonce(txid) in s.journal;
    }
  }

  /** The nonces handed to the signer are the persisted ones, for exactly the nodes we sign,
      and no later life prepares another tree or commits other nonces. */
  lemma CommittedIsCanonical(run: seq<System>, i: nat, j: nat)
    requires Runs.IsRun(Init, Next, run) && i <= j < |run| && run[i].saved.committed.Some?
    ensures CommittedCanonically(run[i]) && CommittedCanonically(run[j])
    ensures run[j].saved.prepared == run[i].saved.prepared && run[j].saved.committed == run[i].saved.committed
  {
    InvIsInductive();
    StepsStay();
    Runs.InvariantHolds(Init, Next, Inv, run, i);
    Runs.InvariantHolds(Init, Next, Inv, run, j);
    Runs.RelationHolds(Init, Next, Inv, Stays, run, i, j);
    CommittedNow(run[i]);
    CommittedNow(run[j]);
  }

  // ----- whose events, and what they leave

  /** Only events of the system's own batch are ever persisted, each in its own slot, and the
      batch never changes. */
  lemma PersistedIsOurs(run: seq<System>, k: nat, slot: Slot)
    requires Runs.IsRun(Init, Next, run) && k < |run| && slot in run[k].journal
    ensures run[k].batch == run[0].batch != ""
    ensures BatchOf(run[k].journal[slot]) == Some(run[k].batch) && Belongs(run[k].journal[slot], slot)
  {
    InvIsInductive();
    Runs.InvariantHolds(Init, Next, Inv, run, k);
    BatchStays(run, k);
    KeptExactly(run[k].journal[slot], run[k].batch, slot);
  }

  lemma {:induction false} BatchStays(run: seq<System>, k: nat)
    requires Runs.IsRun(Init, Next, run) && k < |run|
    ensures run[k].batch == run[0].batch
  {
    if k > 0 {
      BatchStays(run, k - 1);
      assert Next(run[k - 1], run[k - 1 + 1]);
    }
  }

  /** An event of another batch changes nothing at all. */
  lemma OtherBatchIgnored(s: System, e: Event, v: Verdicts, crash: bool)
    requires BatchOf(e) != Some(s.batch)
    ensures Do(s, Handle(e, v, crash)) == s
  {
    KeptExactly(e, s.batch, Signing);
  }

  /** An event of this batch that belongs to a slot is persisted there before anything else
      happens, if the journal takes it; whatever is refused afterwards, it stays. */
  lemma OwnBatchPersisted(s: System, e: Event, v: Verdicts, crash: bool, slot: Slot)
    requires s.batch != "" && BatchOf(e) == Some(s.batch) && Belongs(e, slot)
    ensures var s' := Do(s, Handle(e, v, crash));
            if && v.admitted
               && (if slot in s.journal then s.journal[slot] == e
                   else (slot.Nonce? ==> s.saved.prepared.Some?) && (slot.Signature? || slot.Final? ==> s.saved.signed))
            then s'.journal == s.journal[slot := e] else s' == s.(running := false)
  {
    KeptExactly(e, s.batch, slot);
  }

  /** A batch node as the maps hold it: the persisted one, with the persisted signature in
      lower case once there is one. */
  ghost predicate HeldAsSent(s: System, txid: Txid) {
    && (txid in s.acc.vtxos <==> Tree(0, txid) in s.journal)
    && (txid in s.acc.vtxos ==>
          && s.journal[Tree(0, txid)].TreeTx?
          && var (held, sent) := (s.acc.vtxos[txid], s.journal[Tree(0, txid)].node);
             && held.children == sent.children && held.packet.core == sent.packet.core
             && if Signature(txid) in s.journal
                then s.journal[Signature(txid)].TreeSignature? && held.packet.signature == ToLower(s.journal[Signature(txid)].signature)
                else held.packet.signature == sent.packet.signature)
  }

  /** Connectors and nonces as persisted. */
  ghost predicate RestAsSent(s: System, txid: Txid) {
    && (txid in s.acc.connectors <==> Tree(1, txid) in s.journal)
    && (txid in s.acc.connectors ==> s.journal[Tree(1, txid)].TreeTx? && s.acc.connectors[txid] == s.journal[Tree(1, txid)].node)
    && (txid in s.acc.nonces <==> Nonce(txid) in s.journal)
    && (txid in s.acc.nonces ==> s.journal[Nonce(txid)].TreeNonces? && s.acc.nonces[txid] == s.journal[Nonce(txid)].nonces)
  }

  lemma HeldNow(s: System, txid: Txid)
    requires WellKept(s) && VtxoOk(s, txid) && Tracked(s) && s.pending == [] && s.applied <= s.journal.Keys
    ensures HeldAsSent(s, txid)
  {
  }

  lemma RestNow(s: System, txid: Txid)
    requires WellKept(s) && ConnectorOk(s, txid) && NonceOk(s, txid) && Tracked(s) && s.pending == [] && s.applied <= s.journal.Keys
    ensures RestAsSent(s, txid)
  {
  }

  /** The maps after a replay, field by field. */
  lemma ContentsOfMaps(run: seq<System>, k: nat, txid: Txid)
    requires Runs.IsRun(Init, Next, run) && k < |run| && run[k].running && run[k].pending == []
    ensures HeldAsSent(run[k], txid) && RestAsSent(run[k], txid)
  {
    InvIsInductive();
    Runs.InvariantHolds(Init, Next, Inv, run, k);
    HeldNow(run[k], txid);
    RestNow(run[k], txid);
  }

  // ----- what each kind of event does

  /** A tree event is taken exactly when its tree has room or has the txid, and a node that is
      there is the same one. */
  lemma NodeTaken(checks: Checks, acc: Accumulators, saved: Saved, e: Event, v: Verdicts)
    requires e.TreeTx? && e.index <= 1
    ensures var nodes := if e.index == 1 then acc.connectors else acc.vtxos;
            Apply(checks, acc, saved, e, v) ==
              if (if e.txid in nodes then nodes[e.txid] == e.node else |nodes| < 512)
              then Some(Applied(if e.index == 1 then acc.(connectors := nodes[e.txid := e.node]) else acc.(vtxos := nodes[e.txid := e.node]), saved))
              else None
  {
    var nodes := if e.index == 1 then acc.connectors else acc.vtxos;
    if e.txid in nodes { assert nodes[e.txid := nodes[e.txid]] == nodes; }
  }

  /** The tree that a signing event would sign: every node with a child map. */
  ghost predicate Canonicalised(nodes: map<Txid, Node>, tree: map<Txid, Node>) {
    && tree.Keys == nodes.Keys
    && forall txid :: txid in tree ==>
         tree[txid].packet == nodes[txid].packet && tree[txid].children == Some(if nodes[txid].children.Some? then nodes[txid].children.value else map[])
  }

  /** A signing event is taken exactly when it lists us, the canonical tree passes its check and
      the outside is favourable; the first one besides needs the checks before signing and fixes
      tree, commitment and capsule, and any later one has to bring the same tree and commitment. */
  lemma SigningTaken(checks: Checks, acc: Accumulators, saved: Saved, e: Event, v: Verdicts, tree: map<Txid, Node>)
    requires e.SigningStarted? && Canonicalised(acc.vtxos, tree)
    ensures Apply(checks, acc, saved, e, v) ==
              if !(e.owns && checks.tree(tree) && v.ok) then None
              else match saved.prepared
                case None =>
                  if checks.signing(tree, e.commitment)
                  then Some(Applied(acc, saved.(prepared := Some(Prepared(tree, e.commitment, checks.capsule(tree, e.commitment, v.seed))))))
                  else None
                case Some(p) => if p.tree == tree && p.commitment == e.commitment then Some(Applied(acc, saved)) else None
  {
    assert NormalTree(acc.vtxos) == tree;
  }

  /** Nonces are taken exactly for a node we sign and unchanged. The last of them are committed,
      unless others were or they do not fit, and then signed with, unless the tree is signed;
      what was committed stays when the signing is refused. */
  lemma NoncesTaken(checks: Checks, acc: Accumulators, saved: Saved, e: Event, v: Verdicts)
    requires e.TreeNonces?
    ensures var all := acc.nonces[e.txid := e.nonces];
            var ours := if saved.prepared.Some? then saved.prepared.value.nonces.Keys else {};
            var expected := e.txid in ours && (e.txid in acc.nonces ==> acc.nonces[e.txid] == e.nonces);
            var last := |all| == |ours|;
            var committable := if saved.committed.Some? then saved.committed.value == all else checks.fits(all);
            var r := Apply(checks, acc, saved, e, v);
            if expected && !last then r == Some(Applied(acc.(nonces := all), saved)) && Left(checks, acc, saved, e) == saved
            else if expected && last && committable then
              && Left(checks, acc, saved, e) == saved.(committed := Some(all))
              && r == if v.ok && (saved.signed || forall t :: t in ours ==> t in all && NodeReady(checks, saved.prepared.value, t, all[t]))
                      then Some(Applied(acc.(nonces := all), saved.(committed := Some(all), signed := true))) else None
            else r == None && Left(checks, acc, saved, e) == saved
  {
    if saved.prepared.Some? { ReadyExactly(checks, saved.prepared.value, acc.nonces[e.txid := e.nonces]); }
  }

  lemma ReadyExactly(checks: Checks, prepared: Prepared, all: map<Txid, NonceMap>)
    ensures Ready(checks, prepared, all) <==> forall t :: t in prepared.nonces ==> t in all && NodeReady(checks, prepared, t, all[t])
  {
    forall t ensures ReadyAt(checks, prepared, all, t) <==> t in all && NodeReady(checks, prepared, t, all[t]) {
    }
  }

  /** A node whose cosigners are distinct can be signed exactly when its event brought nonces of
      exactly its cosigners, each of 66 bytes, ours among them and as the capsule has it. */
  lemma ReadyForExactlyTheCosigners(checks: Checks, prepared: Prepared, txid: Txid, nonces: map<string, string>)
    requires txid in prepared.tree && txid in prepared.nonces && Ordering.Distinct(checks.cosigners(prepared.tree[txid]))
    ensures NodeReady(checks, prepared, txid, Some(nonces)) <==>
            var keys := checks.cosigners(prepared.tree[txid]);
            && nonces.Keys == (set key | key in keys) && checks.own in keys && nonces[checks.own] == prepared.nonces[txid]
            && (forall key :: key in nonces ==> |nonces[key]| == 2 * 66 && forall c :: c in nonces[key] ==> HexDigit(c))
            && checks.musig(prepared, txid, nonces)
    ensures !NodeReady(checks, prepared, txid, None)
  {
    var keys := checks.cosigners(prepared.tree[txid]);
    var all := set key | key in keys;
    SizeOfDistinct(keys);
    assert |nonces| == |nonces.Keys|;
    if NodeReady(checks, prepared, txid, Some(nonces)) { SubsetOfSameSize(all, nonces.Keys); }
  }

  lemma {:induction false} SizeOfDistinct(s: seq<string>)
    requires Ordering.Distinct(s)
    ensures |set x | x in s| == |s|
  {
    if |s| > 0 {
      var front, last := s[..|s| - 1], s[|s| - 1];
      SizeOfDistinct(front);
      assert s == front + [last] && last !in front;
      assert (set x | x in s) == (set x | x in front) + {last};
    }
  }

  /** A signature of 64 bytes is taken exactly for a node that is there and has none or the same
      one; the node then has it in lower case. */
  lemma SignatureTaken(checks: Checks, acc: Accumulators, saved: Saved, e: Event, v: Verdicts)
    requires e.TreeSignature?
    ensures Apply(checks, acc, saved, e, v) ==
              if && e.txid in acc.vtxos && |e.signature| == 2 * 64 && (forall c :: c in e.signature ==> HexDigit(c))
                 && (acc.vtxos[e.txid].packet.signature == "" || acc.vtxos[e.txid].packet.signature == ToLower(e.signature))
              then
                var node := acc.vtxos[e.txid];
                Some(Applied(acc.(vtxos := acc.vtxos[e.txid := Node(Packet(node.packet.core, ToLower(e.signature)), node.children)]), saved))
              else None
  {
  }

  /** A finalization is taken exactly when the outside is favourable and it is authorized, or the
      tree is signed and its checks pass, which authorizes it. */
  lemma FinalTaken(checks: Checks, acc: Accumulators, saved: Saved, e: Event, v: Verdicts)
    requires e.Finalization?
    ensures Apply(checks, acc, saved, e, v) ==
              if v.ok && saved.authorized then Some(Applied(acc, saved))
              else if v.ok && saved.signed && saved.prepared.Some? && checks.final(saved.prepared.value, e.commitment, acc.vtxos, acc.connectors)
              then Some(Applied(acc, saved.(authorized := true)))
              else None
  {
  }

  /** The steps of a run: a boot starts from the prepared tree and replays, a crash ends the life,
      and a persisted event that is refused ends it with the journal and what was committed. */
  lemma StepsExactly(s: System, step: Step)
    ensures match step
            case Boot(order) =>
              Do(s, step) == s.(running := true, pending := order, applied := {},
                acc := Accumulators(if s.saved.prepared.Some? then s.saved.prepared.value.tree else map[], map[], map[]))
            case Crash => Do(s, step) == s.(running := false)
            case Handle(e, v, crash) =>
              forall slot :: s.batch != "" && BatchOf(e) == Some(s.batch) && Belongs(e, slot) && Persistable(s, slot, e, v) ==>
                var (s', a) := (Do(s, step), Apply(s.checks, s.acc, s.saved, e, v));
                if crash then s' == s.(journal := s.journal[slot := e], running := false)
                else if a.None? then s' == s.(journal := s.journal[slot := e], saved := Left(s.checks, s.acc, s.saved, e), running := false)
                else s' == s.(journal := s.journal[slot := e], acc := a.value.acc, saved := a.value.saved, applied := s.applied + {slot},
                       pending := if |s.pending| > 0 then s.pending[1..] else [])
    ensures step.Handle? && s.batch != "" && BatchOf(step.e) == Some(s.batch) && (forall slot :: !Belongs(step.e, slot)) ==>
              Do(s, step) == s.(running := false)
  {
    if step.Handle? {
      forall slot ensures PhaseOf(step.e, s.batch) == Kept(slot) <==> s.batch != "" && BatchOf(step.e) == Some(s.batch) && Belongs(step.e, slot) {
        KeptExactly(step.e, s.batch, slot);
      }
      KeptExactly(step.e, s.batch, Signing);
    }
  }
}
