/** Journals that no restart gets past: that they stay so, and runs that lead to them. */
module DelegationStops {
  import opened Basics
  import Runs
  import opened DelegationSlots
  import opened DelegationStream
  import opened DelegationReplay

  // ----- once incoherent, for good

  /** Coherence looks at the journal and the prepared tree. */
  lemma SameCoherence(p: System, p': System)
    requires p'.journal == p.journal && p'.checks == p.checks
    requires p'.saved.prepared == p.saved.prepared && Coherent(p')
    ensures Coherent(p)
  {
    forall slot ensures SlotFits(p, slot) { assert SlotFits(p', slot); }
  }

  lemma AboutToAgain(s: System, slot: Slot, p: System)
    requires AboutTo(s, slot, p)
    ensures AboutTo(p, slot, p)
  {
  }

  /** Preparing the tree in a replay does not make an incoherent journal coherent. */
  lemma PreparingGainsNothing(s: System, v: Verdicts, p: System, p': System)
    requires AboutTo(s, Signing, p) && p.saved.prepared.None? && Succeeds(s, v, Signing, p)
    requires p'.journal == p.journal && p'.checks == p.checks && Coherent(p')
    ensures Coherent(p)
  {
    AboutToAgain(s, Signing, p);
    SigningSucceedsIff(p, v, p);
    forall slot ensures SlotFits(p, slot) { assert SlotFits(p', slot); }
  }

  /** What a replayed event does to what is durable. */
  lemma ReplayedDurably(s: System, slot: Slot, v: Verdicts, crash: bool, p: System)
    requires AboutTo(s, slot, p) && p.running
    ensures var (p', a) := (Do(p, Handle(s.journal[slot], v, crash)), Apply(p.checks, p.acc, p.saved, s.journal[slot], v));
            && p'.journal == p.journal && p'.checks == p.checks
            && (p'.running ==> !crash && v.admitted && a.Some?)
            && (p'.saved.prepared == p.saved.prepared || (a.Some? && slot == Signing && p.saved.prepared.None?))
  {
    KeptEvent(s, slot, p);
    assert p.journal[slot := s.journal[slot]] == p.journal;
  }

  lemma ReplayGainsNothing(s: System, slot: Slot, v: Verdicts, crash: bool, p: System)
    requires AboutTo(s, slot, p) && p.running && !Coherent(p)
    ensures !Coherent(Do(p, Handle(s.journal[slot], v, crash)))
  {
    var p' := Do(p, Handle(s.journal[slot], v, crash));
    ReplayedDurably(s, slot, v, crash, p);
    if Coherent(p') {
      if p'.saved.prepared == p.saved.prepared { SameCoherence(p, p'); } else { PreparingGainsNothing(s, v, p, p'); }
    }
  }

  /** The life `p` is in the middle of replaying an incoherent journal. */
  ghost predicate Amid(s: System, order: seq<Slot>, k: nat, p: System) {
    && k < |order| && ReplayOrder(s.journal, order) && Stands(s, order, k, p) && !Coherent(s)
    && forall j :: 0 <= j < k ==> StepFits(s, order[j])
  }

  ghost predicate Confined(p: System) {
    && Inv(p) && Sized(p) && !Coherent(p)
    && (p.running ==> exists s, order, k :: Amid(s, order, k, p))
  }

  lemma BootConfined(p: System, order: seq<Slot>)
    requires Confined(p) && ReplayOrder(p.journal, order) && !p.saved.authorized
    ensures Confined(Do(p, Boot(order)))
  {
    var p' := Do(p, Boot(order));
    BootStands(p, order);
    if Coherent(p') { SameCoherence(p, p'); }
    if |order| == 0 { EndedIsCoherent(p, order, p'); }
    assert Amid(p, order, 0, p');
  }

  lemma HandleConfined(s: System, order: seq<Slot>, k: nat, p: System, v: Verdicts, crash: bool)
    requires Confined(p) && p.running && Amid(s, order, k, p)
    ensures order[k] in s.journal
    ensures var p' := Do(p, Handle(s.journal[order[k]], v, crash)); Confined(p') && p'.journal == p.journal
  {
    assert order[k] in order;
    var slot := order[k];
    var p' := Do(p, Handle(s.journal[slot], v, crash));
    assert p.pending[0] == slot;
    StandsAboutTo(s, order, k, p);
    ReplayGainsNothing(s, slot, v, crash, p);
    ReplayedDurably(s, slot, v, crash, p);
    HandleKeepsInv(p, s.journal[slot], v, crash);
    StepKeepsSized(p, Handle(s.journal[slot], v, crash));
    if p'.running {
      NextSucceeds(s, v, slot, p);
      StandsAfter(s, v, order, k, p);
      if k + 1 == |order| { EndedIsCoherent(s, order, p'); }
      assert Amid(s, order, k + 1, p');
    }
  }

  lemma StepConfined(p: System, step: Step)
    requires Confined(p) && Enabled(p, step)
    ensures Confined(Do(p, step)) && Do(p, step).journal == p.journal
  {
    match step
    case Boot(order) => BootConfined(p, order);
    case Crash =>
      DurableMoves(p, Do(p, step));
      if Coherent(Do(p, step)) { SameCoherence(p, Do(p, step)); }
    case Handle(e, v, crash) =>
      var s, order, k :| Amid(s, order, k, p);
      assert p.pending[0] == order[k];
      HandleConfined(s, order, k, p, v, crash);
  }

  /** A confined life leads to confined lives, over the same journal. */
  ghost predicate StaysConfined(p: System, p': System) { Confined(p) ==> Confined(p') && p'.journal == p.journal }

  lemma ConfinementIsKept()
    ensures Runs.KeptByStep(Next, Inv, StaysConfined)
  {
    forall p, p' | Next(p, p') ensures StaysConfined(p, p') {
      var step :| Enabled(p, step) && p' == Do(p, step);
      if Confined(p) { StepConfined(p, step); }
    }
  }

  /** A journal that is incoherent when a life ends stays as it is, whatever the outside
      verdicts of later lives: no restart gets to a live event again, so nothing that is
      missing can ever be persisted. */
  lemma IncoherentForGood(run: seq<System>, i: nat, j: nat)
    requires Runs.IsRun(Init, Next, run) && i <= j < |run| && !run[i].running && !Coherent(run[i])
    ensures run[j].journal == run[i].journal && !Coherent(run[j])
    ensures run[j].running ==> run[j].pending != []
  {
    ReachableIsSized(run, i);
    InvIsInductive();
    ConfinementIsKept();
    Runs.RelationHolds(Init, Next, Inv, StaysConfined, run, i, j);
    if run[j].running {
      var s, order, k :| Amid(s, order, k, run[j]);
      assert run[j].pending[0] == order[k];
    }
  }

  // ----- what makes a journal incoherent

  /** A node persisted after the signing tree was prepared stops every replay. */
  lemma LateNodeStopsReplay(run: seq<System>, i: nat, v: Verdicts, order: seq<Slot>, life: seq<System>, txid: Txid)
    requires Runs.IsRun(Init, Next, run) && i < |run| && Replay(run[i], v, order, life)
    requires run[i].saved.prepared.Some?
    requires Tree(0, txid) in run[i].journal && txid !in run[i].saved.prepared.value.tree
    ensures !life[|order|].running
  {
    ReplayEndsIff(run, i, v, order, life);
    ReachableIsSized(run, i);
    assert txid in TreeTxids(run[i].journal, 0);
    assert !SlotFits(run[i], Signing);
  }

  /** So does a node of the prepared tree whose event had no child map: the prepared tree
      stores an empty one, and the replayed event differs from it. */
  lemma ChildlessNodeStopsReplay(run: seq<System>, i: nat, v: Verdicts, order: seq<Slot>, life: seq<System>, txid: Txid)
    requires Runs.IsRun(Init, Next, run) && i < |run| && Replay(run[i], v, order, life)
    requires run[i].saved.prepared.Some? && txid in run[i].saved.prepared.value.tree
    requires NodeAt(run[i].journal, Tree(0, txid)).children.None?
    ensures !life[|order|].running
  {
    ReplayEndsIff(run, i, v, order, life);
    ReachableIsSized(run, i);
    assert FromJournal(run[i], txid);
    assert !SlotFits(run[i], Tree(0, txid));
  }

  ghost predicate Unsigned(vtxos: map<Txid, Node>) { exists txid :: txid in vtxos && vtxos[txid].packet.signature == "" }

  /** The check of a final commitment refuses a batch tree with an unsigned node. */
  ghost predicate WantsSignatures(checks: Checks) {
    forall prepared, commitment, vtxos, connectors :: checks.final(prepared, commitment, vtxos, connectors) ==> !Unsigned(vtxos)
  }

  lemma UnsignedFinalIsIncoherent(s: System, txid: Txid)
    requires WantsSignatures(s.checks) && Final in s.journal
    requires Tree(0, txid) in s.journal && NodeAt(s.journal, Tree(0, txid)).packet.signature == "" && Signature(txid) !in s.journal
    ensures !Coherent(s)
  {
    var vtxos := Canonical(s.journal).vtxos;
    assert txid in TreeTxids(s.journal, 0);
    assert txid in vtxos && vtxos[txid].packet.signature == "";
    assert !SlotFits(s, Final);
  }

  /** A finalization that was persisted before a node had its signature stops every replay. */
  lemma UnsignedFinalStopsReplay(run: seq<System>, i: nat, v: Verdicts, order: seq<Slot>, life: seq<System>, txid: Txid)
    requires Runs.IsRun(Init, Next, run) && i < |run| && Replay(run[i], v, order, life)
    requires WantsSignatures(run[i].checks) && Final in run[i].journal
    requires Tree(0, txid) in run[i].journal && NodeAt(run[i].journal, Tree(0, txid)).packet.signature == ""
    requires Signature(txid) !in run[i].journal
    ensures !life[|order|].running
  {
    ReplayEndsIff(run, i, v, order, life);
    UnsignedFinalIsIncoherent(run[i], txid);
  }

  lemma MissingNonceIsIncoherent(s: System, txid: Txid)
    requires ForUs(s, txid) && Ours(s.saved.prepared.value) <= NonceTxids(s.journal)
    requires s.checks.own !in Received(NoncesAt(s.journal, txid))
    ensures !Coherent(s)
  {
    var prepared := s.saved.prepared.value;
    assert txid in NonceTxids(s.journal) && Nonce(txid) in s.journal;
    assert !ReadyAt(s.checks, prepared, OurNonces(s.journal, prepared), txid);
    assert !SlotFits(s, Nonce(txid));
  }

  /** So do nonces for all of our nodes of which one set lacks our own. */
  lemma MissingNonceStopsReplay(run: seq<System>, i: nat, v: Verdicts, order: seq<Slot>, life: seq<System>, txid: Txid)
    requires Runs.IsRun(Init, Next, run) && i < |run| && Replay(run[i], v, order, life)
    requires ForUs(run[i], txid) && Ours(run[i].saved.prepared.value) <= NonceTxids(run[i].journal)
    requires run[i].checks.own !in Received(NoncesAt(run[i].journal, txid))
    ensures !life[|order|].running
  {
    ReplayEndsIff(run, i, v, order, life);
    MissingNonceIsIncoherent(run[i], txid);
  }

  // ----- runs that get there

  const BATCH := "b"
  const PROPOSED := "c"
  const SEED := "s"

  function Started(checks: Checks): System {
    System(BATCH, checks, map[], Saved(None, None, false, false), false, Accumulators(map[], map[], map[]), [], {})
  }

  const FINE := Verdicts(true, true, SEED)

  function NodeEvent(txid: Txid, node: Node): Event { TreeTx(BATCH, 0, txid, node) }

  const SIGNING := SigningStarted(BATCH, true, PROPOSED)

  /** The journal of a batch of one node after its signing event. */
  function Opening(a: Txid, node: Node): Journal { map[Tree(0, a) := NodeEvent(a, node), Signing := SIGNING] }

  function PreparedFor(a: Txid, node: Node, nonce: string): Prepared { Prepared(map[a := Normal(node)], PROPOSED, map[a := nonce]) }

  /** The checks let one node through, and the capsule has one nonce for it. */
  predicate LetThrough(checks: Checks, a: Txid, node: Node, nonce: string) {
    var tree := map[a := Normal(node)];
    checks.tree(tree) && checks.signing(tree, PROPOSED) && checks.capsule(tree, PROPOSED, SEED) == map[a := nonce]
  }

  /** A step that handles one live event. */
  ghost predicate Takes(s: System, e: Event, s': System) {
    s.running && s.pending == [] && s' == Do(s, Handle(e, FINE, false))
  }

  lemma TakesIsNext(s: System, e: Event, s': System)
    requires Takes(s, e, s')
    ensures Next(s, s')
  {
    assert Enabled(s, Handle(e, FINE, false));
  }

  lemma {:induction false} RunGoesOn(run: seq<System>, s: System)
    requires Runs.IsRun(Init, Next, run) && Next(run[|run| - 1], s)
    ensures Runs.IsRun(Init, Next, run + [s])
  {
    var more := run + [s];
    forall i | 0 <= i < |more| - 1 ensures Next(more[i], more[i + 1]) {
      if i < |run| - 1 { assert Next(run[i], run[i + 1]); }
    }
  }

  lemma LiveEvent(run: seq<System>, e: Event) returns (more: seq<System>)
    requires Runs.IsRun(Init, Next, run) && run[|run| - 1].running && run[|run| - 1].pending == []
    ensures Runs.IsRun(Init, Next, more) && more[|more| - 1] == Do(run[|run| - 1], Handle(e, FINE, false))
  {
    var s := Do(run[|run| - 1], Handle(e, FINE, false));
    TakesIsNext(run[|run| - 1], e, s);
    RunGoesOn(run, s);
    more := run + [s];
  }

  /** A first life that receives one batch node. */
  lemma NodeLife(checks: Checks, a: Txid, node: Node) returns (run: seq<System>)
    requires ValidTxid(a)
    ensures Runs.IsRun(Init, Next, run)
    ensures run[|run| - 1] == System(BATCH, checks, map[Tree(0, a) := NodeEvent(a, node)], Saved(None, None, false, false),
                                true, Accumulators(map[a := node], map[], map[]), [], {Tree(0, a)})
  {
    var s0 := Started(checks);
    var s1 := Do(s0, Boot([]));
    assert Enabled(s0, Boot([]));
    RunGoesOn([s0], s1);
    run := LiveEvent([s0] + [s1], NodeEvent(a, node));
    var s := run[|run| - 1];
    assert s.acc.vtxos == map[a := node] && s.applied == {Tree(0, a)};
  }

  /** ... and then the signing event, which prepares the tree. */
  lemma PreparedLife(checks: Checks, a: Txid, node: Node, nonce: string) returns (run: seq<System>)
    requires ValidTxid(a) && LetThrough(checks, a, node, nonce)
    ensures Runs.IsRun(Init, Next, run)
    ensures run[|run| - 1] == System(BATCH, checks, Opening(a, node), Saved(Some(PreparedFor(a, node, nonce)), None, false, false),
                                true, Accumulators(map[a := node], map[], map[]), [], {Tree(0, a), Signing})
  {
    var lived := NodeLife(checks, a, node);
    var before := lived[|lived| - 1];
    var s := Do(before, Handle(SIGNING, FINE, false));
    assert NormalTree(before.acc.vtxos) == map[a := Normal(node)];
    run := LiveEvent(lived, SIGNING);
    assert s.journal == Opening(a, node) && s.applied == {Tree(0, a), Signing};
  }

  lemma CrashGoesOn(run: seq<System>) returns (more: seq<System>)
    requires Runs.IsRun(Init, Next, run)
    ensures Runs.IsRun(Init, Next, more) && more[|more| - 1] == run[|run| - 1].(running := false)
  {
    assert Enabled(run[|run| - 1], Crash);
    RunGoesOn(run, Do(run[|run| - 1], Crash));
    more := run + [Do(run[|run| - 1], Crash)];
  }

  /** The state is dead, and its replay with every verdict favourable does not end. */
  ghost predicate Stops(run: seq<System>, order: seq<Slot>, life: seq<System>) {
    && Runs.IsRun(Init, Next, run) && !run[|run| - 1].running
    && Replay(run[|run| - 1], FINE, order, life) && !life[|order|].running
  }

  lemma ReplayOf(run: seq<System>) returns (order: seq<Slot>, life: seq<System>)
    requires Runs.IsRun(Init, Next, run) && !run[|run| - 1].saved.authorized
    ensures Replay(run[|run| - 1], FINE, order, life)
  {
    ReachableIsSized(run, |run| - 1);
    order, life := ReplayExists(run[|run| - 1], FINE);
  }

  /** A node without a child map, the signing event, a crash. */
  lemma ChildlessRun(checks: Checks, a: Txid, packet: Packet, nonce: string)
    returns (run: seq<System>, order: seq<Slot>, life: seq<System>)
    requires ValidTxid(a) && LetThrough(checks, a, Node(packet, None), nonce)
    ensures Stops(run, order, life)
  {
    var lived := PreparedLife(checks, a, Node(packet, None), nonce);
    run := CrashGoesOn(lived);
    order, life := ReplayOf(run);
    ChildlessNodeStopsReplay(run, |run| - 1, FINE, order, life, a);
  }

  /** A node, the signing event, another node, a crash. */
  lemma LateNodeRun(checks: Checks, a: Txid, b: Txid, node: Node, late: Node, nonce: string)
    returns (run: seq<System>, order: seq<Slot>, life: seq<System>)
    requires ValidTxid(a) && ValidTxid(b) && a != b && LetThrough(checks, a, node, nonce)
    ensures Stops(run, order, life)
  {
    var lived := PreparedLife(checks, a, node, nonce);
    var before := lived[|lived| - 1];
    var taken := LiveEvent(lived, NodeEvent(b, late));
    run := CrashGoesOn(taken);
    order, life := ReplayOf(run);
    assert Tree(0, b) in run[|run| - 1].journal;
    LateNodeStopsReplay(run, |run| - 1, FINE, order, life, b);
  }

  lemma RefusedSigningIsIncoherent(s: System, a: Txid, node: Node)
    requires s.journal == Opening(a, node) && s.saved.prepared.None? && !s.checks.signing(map[a := Normal(node)], PROPOSED)
    ensures !Coherent(s)
  {
    assert TreeTxids(s.journal, 0) == {a};
    assert JournalTree(s.journal) == map[a := Normal(node)];
    assert !SlotFits(s, Signing);
  }

  lemma SigningRefused(s: System, a: Txid, node: Node)
    requires s.batch == BATCH && s.journal == map[Tree(0, a) := NodeEvent(a, node)] && s.acc.vtxos == map[a := node]
    requires s.saved.prepared.None? && !s.checks.signing(map[a := Normal(node)], PROPOSED)
    ensures Do(s, Handle(SIGNING, FINE, false)) == s.(running := false, journal := Opening(a, node))
  {
    assert NormalTree(s.acc.vtxos) == map[a := Normal(node)];
    assert s.journal[Signing := SIGNING] == Opening(a, node);
  }

  /** A tree that the checks before signing refuse, though it may pass the tree check. */
  lemma RefusedSigningRun(checks: Checks, a: Txid, node: Node) returns (run: seq<System>, order: seq<Slot>, life: seq<System>)
    requires ValidTxid(a) && !checks.signing(map[a := Normal(node)], PROPOSED)
    ensures Stops(run, order, life)
  {
    var lived := NodeLife(checks, a, node);
    SigningRefused(lived[|lived| - 1], a, node);
    run := LiveEvent(lived, SIGNING);
    order, life := ReplayOf(run);
    RefusedSigningIsIncoherent(run[|run| - 1], a, node);
    ReplayEndsIff(run, |run| - 1, FINE, order, life);
  }

  lemma MissingNonceRefused(s: System, a: Txid, node: Node, nonce: string, nonces: NonceMap)
    requires s.batch == BATCH && s.journal == Opening(a, node) && s.acc.nonces == map[] && ValidTxid(a)
    requires s.saved == Saved(Some(PreparedFor(a, node, nonce)), None, false, false)
    requires s.checks.own !in Received(nonces) && s.checks.fits(map[a := nonces])
    ensures var s' := Do(s, Handle(TreeNonces(BATCH, a, nonces), FINE, false));
            && s' == s.(running := false, journal := s.journal[Nonce(a) := TreeNonces(BATCH, a, nonces)],
                        saved := s.saved.(committed := Some(map[a := nonces])))
  {
    NoncesOfOne(s, a, node, nonce, nonces);
    assert !ReadyAt(s.checks, PreparedFor(a, node, nonce), map[a := nonces], a);
  }

  /** A node, the signing event, and nonces for it without ours: they are committed before
      the signer refuses them. */
  lemma MissingNonceRun(checks: Checks, a: Txid, node: Node, nonce: string, nonces: NonceMap)
    returns (run: seq<System>, order: seq<Slot>, life: seq<System>)
    requires ValidTxid(a) && LetThrough(checks, a, node, nonce)
    requires checks.own !in Received(nonces) && checks.fits(map[a := nonces])
    ensures Stops(run, order, life) && run[|run| - 1].saved.committed == Some(map[a := nonces])
  {
    var lived := PreparedLife(checks, a, node, nonce);
    var before, e := lived[|lived| - 1], TreeNonces(BATCH, a, nonces);
    MissingNonceRefused(before, a, node, nonce, nonces);
    run := LiveEvent(lived, e);
    order, life := ReplayOf(run);
    assert Nonce(a) in run[|run| - 1].journal;
    MissingNonceStopsReplay(run, |run| - 1, FINE, order, life, a);
  }

  /** With one node of ours its nonces are complete at once. */
  lemma NoncesOfOne(s: System, a: Txid, node: Node, nonce: string, nonces: NonceMap)
    requires s.saved.prepared == Some(PreparedFor(a, node, nonce)) && s.acc.nonces == map[]
    ensures s.acc.nonces[a := nonces] == map[a := nonces] && NoncesComplete(s.acc, s.saved, a, nonces)
  {
    var all := s.acc.nonces[a := nonces];
    assert all == map[a := nonces] && |all| == 1;
    assert Ours(s.saved.prepared.value) == {a};
  }

  /** A node, the signing event and nonces that serve: the tree is signed. */
  lemma SignedLife(checks: Checks, a: Txid, node: Node, nonce: string, nonces: NonceMap) returns (run: seq<System>)
    requires ValidTxid(a) && LetThrough(checks, a, node, nonce)
    requires NodeReady(checks, PreparedFor(a, node, nonce), a, nonces) && checks.fits(map[a := nonces])
    ensures Runs.IsRun(Init, Next, run)
    ensures var s := run[|run| - 1];
            && s.running && s.pending == [] && s.batch == BATCH && s.checks == checks
            && s.journal == Opening(a, node)[Nonce(a) := TreeNonces(BATCH, a, nonces)]
            && s.saved == Saved(Some(PreparedFor(a, node, nonce)), Some(map[a := nonces]), true, false)
            && s.acc.vtxos == map[a := node] && s.acc.connectors == map[]
  {
    var lived := PreparedLife(checks, a, node, nonce);
    var before, e := lived[|lived| - 1], TreeNonces(BATCH, a, nonces);
    var s := Do(before, Handle(e, FINE, false));
    NoncesOfOne(before, a, node, nonce, nonces);
    assert Ready(checks, PreparedFor(a, node, nonce), map[a := nonces]);
    run := LiveEvent(lived, e);
  }

  lemma UnsignedFinalRefused(s: System, a: Txid, node: Node, commitment: string)
    requires s.batch == BATCH && Final !in s.journal && WantsSignatures(s.checks)
    requires s.acc.vtxos == map[a := node] && node.packet.signature == ""
    requires s.saved.prepared.Some? && s.saved.signed && !s.saved.authorized
    ensures Do(s, Handle(Finalization(BATCH, commitment), FINE, false))
         == s.(running := false, journal := s.journal[Final := Finalization(BATCH, commitment)])
  {
    assert a in s.acc.vtxos && Unsigned(s.acc.vtxos);
  }

  /** ... and then the finalization, before the node's signature: it is persisted, refused,
      and in the way of the signature from then on. */
  lemma UnsignedFinalRun(checks: Checks, a: Txid, node: Node, nonce: string, nonces: NonceMap, commitment: string)
    returns (run: seq<System>, order: seq<Slot>, life: seq<System>)
    requires ValidTxid(a) && LetThrough(checks, a, node, nonce) && node.packet.signature == "" && WantsSignatures(checks)
    requires NodeReady(checks, PreparedFor(a, node, nonce), a, nonces) && checks.fits(map[a := nonces])
    ensures Stops(run, order, life) && Signature(a) !in run[|run| - 1].journal && run[|run| - 1].saved.signed
  {
    var lived := SignedLife(checks, a, node, nonce, nonces);
    UnsignedFinalRefused(lived[|lived| - 1], a, node, commitment);
    run := LiveEvent(lived, Finalization(BATCH, commitment));
    order, life := ReplayOf(run);
    assert run[|run| - 1].journal[Tree(0, a)] == NodeEvent(a, node);
    UnsignedFinalStopsReplay(run, |run| - 1, FINE, order, life, a);
  }
}
