/** When a restarted renewal gets through the replay of its journal.

    Events are persisted before they are applied, so a journal may hold an event that was
    refused, a tree node that arrived after the signing tree was fixed, or a node whose form
    the fixed tree has changed. The replay takes all tree events first; this module gives the
    exact condition under which it ends. */
module DelegationReplay {
  import opened Basics
  import Runs
  import Ordering
  import opened DelegationSlots
  import opened DelegationStream

  /** Every outside verdict favourable: the journal is open, keys and Operator are there. */
  predicate Favourable(v: Verdicts) { v.admitted && v.ok }

  /** The next state of a life that replays: it handles the head of what is pending, and
      stays where it is once an event has been refused. */
  ghost function Onward(p: System, v: Verdicts): System {
    if p.running && |p.pending| > 0 && p.pending[0] in p.journal
    then Do(p, Handle(p.journal[p.pending[0]], v, false))
    else p
  }

  ghost predicate Goes(life: seq<System>, v: Verdicts, k: nat)
    requires k + 1 < |life|
  {
    life[k + 1] == Onward(life[k], v)
  }

  /** A replay of `order` after a restart in `s`: one state before each slot and one after
      the last. */
  ghost predicate Replay(s: System, v: Verdicts, order: seq<Slot>, life: seq<System>) {
    && Favourable(v) && !s.saved.authorized && ReplayOrder(s.journal, order) && |life| == |order| + 1 && life[0] == Do(s, Boot(order))
    && forall k: nat {:trigger Goes(life, v, k)} :: k < |order| ==> Goes(life, v, k)
  }

  // ----- the condition

  /** The persisted batch nodes as the signing event would canonicalise them. */
  function JournalTree(journal: Journal): map<Txid, Node> {
    map txid | txid in TreeTxids(journal, 0) :: Normal(NodeAt(journal, Tree(0, txid)))
  }

  /** A batch node that is in the prepared tree carries a child map: the prepared tree has
      one for every node, and the replayed event is compared with it. */
  ghost predicate ChildrenFit(s: System, slot: Slot) {
    slot.Tree? && slot.index == 0 && s.saved.prepared.Some? && slot.txid in s.saved.prepared.value.tree ==>
      NodeAt(s.journal, slot).children.Some?
  }

  ghost predicate ForUs(s: System, txid: Txid) { s.saved.prepared.Some? && txid in Ours(s.saved.prepared.value) }

  /** The persisted nonces of the nodes we sign. */
  function OurNonces(journal: Journal, prepared: Prepared): map<Txid, NonceMap> {
    map txid | txid in Ours(prepared) :: NoncesAt(journal, txid)
  }

  /** Once nonces for all of our nodes are persisted, they can be committed and signed with. */
  ghost predicate NoncesServe(s: System) {
    s.saved.prepared.Some? && Ours(s.saved.prepared.value) <= NonceTxids(s.journal) ==>
      && s.checks.fits(OurNonces(s.journal, s.saved.prepared.value))
      && Ready(s.checks, s.saved.prepared.value, OurNonces(s.journal, s.saved.prepared.value))
  }

  /** What a slot needs, in terms of the journal and the saved phases alone. */
  ghost predicate SlotFits(s: System, slot: Slot) {
    slot in s.journal ==>
      match slot
      case Tree(index, _) => |TreeTxids(s.journal, index)| <= MAX_NODES && ChildrenFit(s, slot)
      case Signing =>
        && s.journal[Signing].SigningStarted? && s.journal[Signing].owns && s.checks.tree(JournalTree(s.journal))
        && if s.saved.prepared.Some? then s.saved.prepared.value.tree.Keys == TreeTxids(s.journal, 0)
           else s.checks.signing(JournalTree(s.journal), CommitmentAt(s.journal))
      case Nonce(txid) => ForUs(s, txid) && NoncesServe(s)
      case Signature(txid) =>
        && Tree(0, txid) in s.journal
        && s.journal[slot].TreeSignature? && SignatureText(s.journal[slot].signature)
        && var own := NodeAt(s.journal, Tree(0, txid)).packet.signature; own == "" || own == SignatureAt(s.journal, txid)
      case Final =>
        && s.saved.prepared.Some? && s.journal[Final].Finalization?
        && s.checks.final(s.saved.prepared.value, s.journal[Final].commitment,
             Canonical(s.journal).vtxos, Canonical(s.journal).connectors)
  }

  ghost predicate Coherent(s: System) { forall slot :: SlotFits(s, slot) }

  // ----- sizes

  /** No tree ever exceeds the limit. */
  ghost predicate Sized(s: System) {
    && (s.saved.prepared.Some? ==> |s.saved.prepared.value.tree| <= MAX_NODES)
    && (s.running ==> |s.acc.vtxos| <= MAX_NODES && |s.acc.connectors| <= MAX_NODES)
  }

  lemma StepKeepsSized(s: System, step: Step)
    requires Sized(s) && Enabled(s, step)
    ensures Sized(Do(s, step))
  {
    if step.Handle? && s.running {
      var phase := PhaseOf(step.e, s.batch);
      if phase.Kept? {
        var a := Apply(s.checks, s.acc, s.saved, step.e, step.v);
        if a.Some? { ApplyKeepsSizes(s.checks, s.acc, s.saved, step.e, step.v); }
      }
    }
  }

  lemma PlaceFits(nodes: map<Txid, Node>, txid: Txid, node: Node)
    requires |nodes| <= MAX_NODES && Place(nodes, txid, node).Some?
    ensures |Place(nodes, txid, node).value| <= MAX_NODES
  {
    var more := nodes[txid := node];
    assert more.Keys == nodes.Keys + {txid};
  }

  lemma SameSize(a: map<Txid, Node>, b: map<Txid, Node>)
    requires a.Keys == b.Keys
    ensures |a| == |b|
  {
    assert |a| == |a.Keys| && |b| == |b.Keys|;
  }

  lemma ApplyKeepsSizes(checks: Checks, acc: Accumulators, saved: Saved, e: Event, v: Verdicts)
    requires |acc.vtxos| <= MAX_NODES && |acc.connectors| <= MAX_NODES
    requires saved.prepared.Some? ==> |saved.prepared.value.tree| <= MAX_NODES
    requires Apply(checks, acc, saved, e, v).Some?
    ensures var a := Apply(checks, acc, saved, e, v).value;
            && |a.acc.vtxos| <= MAX_NODES && |a.acc.connectors| <= MAX_NODES
            && (a.saved.prepared.Some? ==> |a.saved.prepared.value.tree| <= MAX_NODES)
  {
    match e
    case TreeTx(_, index, txid, node) => PlaceFits(if index == 1 then acc.connectors else acc.vtxos, txid, node);
    case SigningStarted(_, _, _) => SameSize(NormalTree(acc.vtxos), acc.vtxos);
    case TreeSignature(_, _, txid, signature) => SameSize(Apply(checks, acc, saved, e, v).value.acc.vtxos, acc.vtxos);
    case _ =>
  }

  // ----- where a replay stands

  function Taken(order: seq<Slot>, k: nat): set<Slot>
    requires k <= |order|
  {
    set i | 0 <= i < k :: order[i]
  }

  /** The phases after some slots: a prepared tree is the durable one, or was made by the
      signing event; a final authorization was made by the last slot. */
  ghost predicate SavedSince(s: System, p: System) {
    && (s.saved.prepared.Some? ==> p.saved.prepared == s.saved.prepared)
    && (s.saved.prepared.None? ==> (p.saved.prepared.Some? <==> Signing in p.applied))
    && !s.saved.authorized && (Final !in p.applied ==> !p.saved.authorized)
  }

  /** What replaying never changes. */
  ghost predicate Alike(s: System, p: System) {
    p.journal == s.journal && p.batch == s.batch && p.checks == s.checks && Ordered(s)
  }

  /** The life `p` has replayed the first `k` slots of `order` since it booted from `s`. */
  ghost predicate Stands(s: System, order: seq<Slot>, k: nat, p: System)
    requires k <= |order|
  {
    && p.running && Alike(s, p) && p.pending == order[k..] && p.applied == Taken(order, k)
    && SavedSince(s, p) && Inv(p) && Sized(p)
  }

  /** The life `p` is about to replay `slot`: everything of lower rank has been applied,
      nothing of higher rank has, and neither has the slot itself. */
  ghost predicate AboutTo(s: System, slot: Slot, p: System) {
    && slot in s.journal && Alike(s, p) && SavedSince(s, p)
    && (forall x {:trigger x in p.applied} :: x in s.journal && Level(x) < Level(slot) ==> x in p.applied)
    && (forall x {:trigger x in p.applied} :: x in p.applied ==> x in s.journal && Level(x) <= Level(slot) && x != slot)
    && DurableOk(p) && MapsOk(p) && p.applied <= p.journal.Keys
  }

  ghost predicate Levelled(order: seq<Slot>) {
    forall i, j :: 0 <= i < j < |order| ==> Level(order[i]) <= Level(order[j]) && order[i] != order[j]
  }

  lemma EarlierLevels(a: Slot, b: Slot)
    requires Earlier(a, b)
    ensures Level(a) <= Level(b)
  {
    RankOfSlot(a);
    RankOfSlot(b);
  }

  lemma ReplayIsLevelled(journal: Journal, order: seq<Slot>)
    requires ReplayOrder(journal, order)
    ensures Levelled(order)
  {
    forall i, j | 0 <= i < j < |order| ensures Level(order[i]) <= Level(order[j]) && order[i] != order[j] {
      EarlierLevels(order[i], order[j]);
    }
  }

  lemma LevelsAround(order: seq<Slot>, k: nat, x: Slot)
    requires Levelled(order) && k < |order| && x in order
    ensures Level(x) < Level(order[k]) ==> x in Taken(order, k)
    ensures x in Taken(order, k) ==> Level(x) <= Level(order[k]) && x != order[k]
  {
    var j :| 0 <= j < |order| && order[j] == x;
  }

  lemma StandsAboutTo(s: System, order: seq<Slot>, k: nat, p: System)
    requires ReplayOrder(s.journal, order) && k < |order| && Stands(s, order, k, p)
    ensures AboutTo(s, order[k], p)
  {
    assert order[k] in order;
    ReplayIsLevelled(s.journal, order);
    forall x | x in s.journal
      ensures Level(x) < Level(order[k]) ==> x in p.applied
      ensures x in p.applied ==> Level(x) <= Level(order[k]) && x != order[k]
    {
      LevelsAround(order, k, x);
    }
  }

  // ----- what each kind of slot needs

  /** The event in a slot is applied, not refused. */
  ghost predicate Succeeds(s: System, v: Verdicts, slot: Slot, p: System)
    requires slot in s.journal
  {
    Apply(p.checks, p.acc, p.saved, s.journal[slot], v).Some?
  }

  lemma KeptEvent(s: System, slot: Slot, p: System)
    requires AboutTo(s, slot, p)
    ensures PhaseOf(s.journal[slot], s.batch) == Kept(slot)
  {
    assert p.journal[slot] == s.journal[slot];
  }

  lemma ProperlyFewer(nodes: map<Txid, Node>, all: set<Txid>, txid: Txid)
    requires nodes.Keys <= all && txid in all && txid !in nodes
    ensures |nodes| < |all|
  {
    SubsetIsSmaller(nodes.Keys + {txid}, all);
    assert |nodes.Keys| == |nodes|;
  }

  lemma VtxosWithin(s: System, slot: Slot, p: System)
    requires AboutTo(s, slot, p)
    ensures p.acc.vtxos.Keys <= TreeTxids(s.journal, 0)
  {
    forall t | t in p.acc.vtxos ensures t in TreeTxids(s.journal, 0) {
      assert VtxoOk(p, t);
      assert Tree(0, t) in s.journal;
    }
  }

  lemma ConnectorsWithin(s: System, slot: Slot, p: System)
    requires AboutTo(s, slot, p)
    ensures p.acc.connectors.Keys <= TreeTxids(s.journal, 1)
  {
    forall t | t in p.acc.connectors ensures t in TreeTxids(s.journal, 1) {
      assert ConnectorOk(p, t);
      assert Tree(1, t) in s.journal;
    }
  }

  /** Before the signatures a node is as it was persisted, or as the prepared tree has it. */
  lemma Unsigned(s: System, slot: Slot, p: System, txid: Txid)
    requires AboutTo(s, slot, p) && (Level(slot) < 3 || slot == Signature(txid)) && txid in p.acc.vtxos
    ensures var node := NodeAt(s.journal, Tree(0, txid));
            p.acc.vtxos[txid] == if Tree(0, txid) in p.applied then node else Normal(node)
  {
    assert VtxoOk(p, txid);
    assert Signature(txid) !in p.applied;
  }

  /** At a batch node's slot its txid is taken exactly when the prepared tree has it. */
  lemma BatchNodeSucceedsIff(s: System, v: Verdicts, slot: Slot, p: System)
    requires AboutTo(s, slot, p) && slot.Tree? && slot.index == 0
    ensures Succeeds(s, v, slot, p) ==> ChildrenFit(s, slot)
    ensures SlotFits(s, slot) && Favourable(v) ==> Succeeds(s, v, slot, p)
  {
    KeptEvent(s, slot, p);
    var txid := slot.txid;
    assert txid in TreeTxids(s.journal, 0);
    assert VtxoOk(p, txid);
    assert Signing !in p.applied && slot !in p.applied;
    if txid in p.acc.vtxos {
      Unsigned(s, slot, p, txid);
    } else {
      VtxosWithin(s, slot, p);
      ProperlyFewer(p.acc.vtxos, TreeTxids(s.journal, 0), txid);
    }
  }

  lemma ConnectorSucceeds(s: System, v: Verdicts, slot: Slot, p: System)
    requires AboutTo(s, slot, p) && slot.Tree? && slot.index == 1 && SlotFits(s, slot)
    ensures Succeeds(s, v, slot, p)
  {
    KeptEvent(s, slot, p);
    var txid := slot.txid;
    assert txid in TreeTxids(s.journal, 1);
    assert ConnectorOk(p, txid);
    assert slot !in p.applied;
    ConnectorsWithin(s, slot, p);
    ProperlyFewer(p.acc.connectors, TreeTxids(s.journal, 1), txid);
  }

  /** From the signing event on, the batch tree has exactly the persisted nodes. */
  lemma TreeIsComplete(s: System, slot: Slot, p: System)
    requires AboutTo(s, slot, p) && Level(slot) >= 1
    ensures p.acc.vtxos.Keys == TreeTxids(s.journal, 0)
  {
    VtxosWithin(s, slot, p);
    forall t | t in TreeTxids(s.journal, 0) ensures t in p.acc.vtxos {
      assert Tree(0, t) in s.journal && Level(Tree(0, t)) < Level(slot);
      assert Tree(0, t) in p.applied;
      assert VtxoOk(p, t);
    }
  }

  /** At the signing event the canonical tree is that of the persisted nodes. */
  lemma SigningTree(s: System, p: System)
    requires AboutTo(s, Signing, p)
    ensures NormalTree(p.acc.vtxos) == JournalTree(s.journal)
  {
    TreeIsComplete(s, Signing, p);
    forall t | t in p.acc.vtxos ensures Normal(p.acc.vtxos[t]) == JournalTree(s.journal)[t] { Unsigned(s, Signing, p, t); }
  }

  /** A prepared tree is that tree exactly when no node came after it. */
  lemma PreparedAgrees(s: System, p: System)
    requires AboutTo(s, Signing, p) && s.saved.prepared.Some?
    ensures JournalTree(s.journal) == s.saved.prepared.value.tree <==> s.saved.prepared.value.tree.Keys == TreeTxids(s.journal, 0)
    ensures s.saved.prepared.value.commitment == CommitmentAt(s.journal)
  {
    var tree := s.saved.prepared.value.tree;
    if tree.Keys == TreeTxids(s.journal, 0) {
      forall t | t in tree ensures tree[t] == JournalTree(s.journal)[t] { assert FromJournal(p, t); }
    }
  }

  lemma SigningSucceedsIff(s: System, v: Verdicts, p: System)
    requires AboutTo(s, Signing, p)
    ensures Succeeds(s, v, Signing, p) <==> SlotFits(s, Signing) && v.ok
  {
    KeptEvent(s, Signing, p);
    SigningTree(s, p);
    if s.saved.prepared.Some? { PreparedAgrees(s, p); }
    assert Signing !in p.applied;
  }

  /** Nonces that are complete in the replay are the persisted ones of all our nodes, and so
      what an earlier life may have committed. */
  lemma CompleteIsPersisted(p: System, txid: Txid)
    requires MapsOk(p) && Nonce(txid) in p.journal && p.applied <= p.journal.Keys
    requires ForUs(p, txid) && txid !in p.acc.nonces
    requires NoncesComplete(p.acc, p.saved, txid, NoncesAt(p.journal, txid))
    ensures p.acc.nonces[txid := NoncesAt(p.journal, txid)] == OurNonces(p.journal, p.saved.prepared.value)
    ensures Ours(p.saved.prepared.value) <= NonceTxids(p.journal)
  {
    var all, ours := p.acc.nonces[txid := NoncesAt(p.journal, txid)], Ours(p.saved.prepared.value);
    forall t | t in all ensures t in ours && all[t] == NoncesAt(p.journal, t) && t in NonceTxids(p.journal) {
      assert NonceOk(p, t);
      assert Nonce(t) in p.journal;
    }
    assert |all.Keys| == |all|;
    SubsetOfSameSize(all.Keys, ours);
  }

  lemma CommittedIsPersisted(p: System)
    requires CommittedFromJournal(p) && p.saved.committed.Some?
    ensures p.saved.committed.value == OurNonces(p.journal, p.saved.prepared.value)
  {
  }

  /** A nonce slot's own step decides whether the node is ours; that the nonces serve is
      decided by the last of them. */
  lemma NonceSucceeds(s: System, v: Verdicts, slot: Slot, p: System)
    requires AboutTo(s, slot, p) && slot.Nonce?
    ensures Succeeds(s, v, slot, p) ==> ForUs(s, slot.txid)
    ensures SlotFits(s, slot) && Favourable(v) ==> Succeeds(s, v, slot, p)
  {
    KeptEvent(s, slot, p);
    assert NonceOk(p, slot.txid);
    assert slot !in p.applied;
    var txid, nonces := slot.txid, NoncesAt(p.journal, slot.txid);
    if SlotFits(s, slot) && NoncesComplete(p.acc, p.saved, txid, nonces) {
      CompleteIsPersisted(p, txid);
      if p.saved.committed.Some? { CommittedIsPersisted(p); }
    }
  }

  lemma SignatureSucceedsIff(s: System, v: Verdicts, slot: Slot, p: System)
    requires AboutTo(s, slot, p) && slot.Signature?
    ensures Succeeds(s, v, slot, p) <==> SlotFits(s, slot)
  {
    KeptEvent(s, slot, p);
    TreeIsComplete(s, slot, p);
    assert slot.txid in TreeTxids(s.journal, 0) <==> Tree(0, slot.txid) in s.journal;
    if slot.txid in p.acc.vtxos { Unsigned(s, slot, p, slot.txid); }
  }

  lemma ConnectorsAreComplete(s: System, slot: Slot, p: System)
    requires AboutTo(s, slot, p) && Level(slot) >= 1
    ensures p.acc.connectors == Canonical(s.journal).connectors
  {
    var c := Canonical(s.journal).connectors;
    ConnectorsWithin(s, slot, p);
    forall t | t in TreeTxids(s.journal, 1) ensures t in p.acc.connectors {
      assert Tree(1, t) in s.journal && Level(Tree(1, t)) < Level(slot);
      assert Tree(1, t) in p.applied;
      assert ConnectorOk(p, t);
    }
    forall t | t in c ensures p.acc.connectors[t] == c[t] { assert ConnectorOk(p, t); }
  }

  lemma VtxosAreComplete(s: System, p: System)
    requires AboutTo(s, Final, p)
    ensures p.acc.vtxos == Canonical(s.journal).vtxos
  {
    var c := Canonical(s.journal).vtxos;
    TreeIsComplete(s, Final, p);
    forall t | t in c ensures p.acc.vtxos[t] == c[t] {
      assert VtxoOk(p, t);
      assert Level(Signature(t)) < Level(Final) && Level(Tree(0, t)) < Level(Final);
      assert Signature(t) in p.applied <==> Signature(t) in s.journal;
      assert Tree(0, t) in s.journal && Tree(0, t) in p.applied;
    }
  }

  lemma FinalSucceedsIff(s: System, v: Verdicts, p: System)
    requires AboutTo(s, Final, p)
    ensures Succeeds(s, v, Final, p) <==> SlotFits(s, Final) && v.ok
  {
    KeptEvent(s, Final, p);
    ConnectorsAreComplete(s, Final, p);
    VtxosAreComplete(s, p);
    assert Final !in p.applied;
  }

  /** The part of a slot's condition that its own step decides: all of it, except that the
      size of a tree is decided by the last of its nodes, and whether the nonces serve by the
      last nonce. */
  ghost predicate StepFits(s: System, slot: Slot) {
    match slot
    case Tree(_, _) => ChildrenFit(s, slot)
    case Nonce(txid) => ForUs(s, txid)
    case _ => SlotFits(s, slot)
  }

  lemma NextSucceeds(s: System, v: Verdicts, slot: Slot, p: System)
    requires AboutTo(s, slot, p)
    ensures SlotFits(s, slot) && Favourable(v) ==> Succeeds(s, v, slot, p)
    ensures Succeeds(s, v, slot, p) ==> StepFits(s, slot)
  {
    match slot
    case Tree(index, _) =>
      assert p.journal[slot] == s.journal[slot];
      if index == 0 { BatchNodeSucceedsIff(s, v, slot, p); } else if SlotFits(s, slot) { ConnectorSucceeds(s, v, slot, p); }
    case Signing => SigningSucceedsIff(s, v, p);
    case Nonce(_) => NonceSucceeds(s, v, slot, p);
    case Signature(_) => SignatureSucceedsIff(s, v, slot, p);
    case Final => FinalSucceedsIff(s, v, p);
  }

  // ----- the whole replay

  /** The step that replays slot `k`. */
  ghost function Advanced(s: System, v: Verdicts, slot: Slot, p: System): System
    requires slot in s.journal
  {
    Do(p, Handle(s.journal[slot], v, false))
  }

  lemma AdvancedFields(s: System, v: Verdicts, slot: Slot, p: System)
    requires AboutTo(s, slot, p) && p.running && |p.pending| > 0
    ensures var next := Advanced(s, v, slot, p);
            if Succeeds(s, v, slot, p) && v.admitted
            then next == p.(acc := next.acc, saved := next.saved, applied := p.applied + {slot}, pending := p.pending[1..])
                 && SavedSince(s, next)
            else !next.running
  {
    KeptEvent(s, slot, p);
    var e := s.journal[slot];
    assert p.journal[slot := e] == p.journal;
    assert slot.Signing? <==> e.SigningStarted?;
    assert slot.Final? <==> e.Finalization?;
  }

  lemma StandsAfter(s: System, v: Verdicts, order: seq<Slot>, k: nat, p: System)
    requires ReplayOrder(s.journal, order) && k < |order| && Stands(s, order, k, p) && order[k] in s.journal
    requires Succeeds(s, v, order[k], p) && v.admitted
    ensures Stands(s, order, k + 1, Advanced(s, v, order[k], p))
  {
    var step := Handle(s.journal[order[k]], v, false);
    StandsAboutTo(s, order, k, p);
    assert p.pending[0] == order[k] && p.pending[1..] == order[k + 1..];
    AdvancedFields(s, v, order[k], p);
    assert Taken(order, k + 1) == Taken(order, k) + {order[k]};
    HandleKeepsInv(p, s.journal[order[k]], v, false);
    StepKeepsSized(p, step);
  }

  lemma BootStands(s: System, order: seq<Slot>)
    requires Inv(s) && Sized(s) && ReplayOrder(s.journal, order) && !s.saved.authorized
    ensures Stands(s, order, 0, Do(s, Boot(order)))
  {
    BootKeepsInv(s, order);
    StepKeepsSized(s, Boot(order));
  }

  /** One more slot: the life goes on exactly when the slot's event is applied. */
  lemma OneMore(s: System, v: Verdicts, order: seq<Slot>, k: nat, p: System)
    requires ReplayOrder(s.journal, order) && k < |order|
    requires p.running ==> Stands(s, order, k, p)
    ensures var next := Onward(p, v);
            && (next.running ==> p.running && Stands(s, order, k + 1, next) && StepFits(s, order[k]))
            && (p.running && SlotFits(s, order[k]) && Favourable(v) ==> next.running)
  {
    assert order[k] in order;
    if p.running {
      assert p.pending[0] == order[k];
      StandsAboutTo(s, order, k, p);
      NextSucceeds(s, v, order[k], p);
      AdvancedFields(s, v, order[k], p);
      assert Onward(p, v) == Advanced(s, v, order[k], p);
      if Succeeds(s, v, order[k], p) && v.admitted { StandsAfter(s, v, order, k, p); }
    }
  }

  /** What is known of state `k` of a replay: it stands where it should if it runs, the
      slots before it fit, and it runs if the journal is coherent. */
  ghost predicate Known(s: System, order: seq<Slot>, k: nat, p: System)
    requires k <= |order|
  {
    && (p.running ==> Stands(s, order, k, p))
    && (p.running ==> forall j :: 0 <= j < k ==> StepFits(s, order[j]))
    && (Coherent(s) ==> p.running)
  }

  lemma KnownNext(s: System, v: Verdicts, order: seq<Slot>, k: nat, p: System, next: System)
    requires ReplayOrder(s.journal, order) && k < |order| && Known(s, order, k, p) && next == Onward(p, v) && Favourable(v)
    ensures Known(s, order, k + 1, next)
  {
    OneMore(s, v, order, k, p);
    assert Coherent(s) ==> SlotFits(s, order[k]);
  }

  ghost predicate Passes(s: System, order: seq<Slot>, life: seq<System>, k: nat)
    requires k < |order| && |life| == |order| + 1
  {
    Known(s, order, k, life[k]) ==> Known(s, order, k + 1, life[k + 1])
  }

  lemma ReplayPasses(s: System, v: Verdicts, order: seq<Slot>, life: seq<System>, k: nat)
    requires Replay(s, v, order, life) && k < |order|
    ensures Passes(s, order, life, k)
  {
    assert Goes(life, v, k);
    if Known(s, order, k, life[k]) { KnownNext(s, v, order, k, life[k], life[k + 1]); }
  }

  lemma {:induction false} KnownAlong(s: System, order: seq<Slot>, life: seq<System>, k: nat)
    requires |life| == |order| + 1 && k <= |order| && Known(s, order, 0, life[0])
    requires forall j: nat {:trigger Passes(s, order, life, j)} :: j < |order| ==> Passes(s, order, life, j)
    ensures Known(s, order, k, life[k])
  {
    if k > 0 {
      KnownAlong(s, order, life, k - 1);
      assert Passes(s, order, life, k - 1);
    }
  }

  lemma ReplayIsKnown(s: System, v: Verdicts, order: seq<Slot>, life: seq<System>)
    requires Replay(s, v, order, life) && Known(s, order, 0, life[0])
    ensures Known(s, order, |order|, life[|order|])
  {
    forall k: nat | k < |order| ensures Passes(s, order, life, k) { ReplayPasses(s, v, order, life, k); }
    KnownAlong(s, order, life, |order|);
  }

  lemma ReplayedTreesFit(s: System, order: seq<Slot>, p: System, slot: Slot)
    requires ReplayOrder(s.journal, order) && Stands(s, order, |order|, p) && slot.Tree? && slot in s.journal
    ensures |TreeTxids(s.journal, slot.index)| <= MAX_NODES
  {
    assert p.journal[slot] == s.journal[slot] && ValidSlot(slot);
    var all, nodes := TreeTxids(s.journal, slot.index), if slot.index == 0 then p.acc.vtxos else p.acc.connectors;
    forall txid | txid in all ensures txid in nodes {
      assert Tree(slot.index, txid) in order;
      assert Tree(slot.index, txid) in p.applied;
      assert VtxoOk(p, txid) && ConnectorOk(p, txid);
    }
    SubsetIsSmaller(all, nodes.Keys);
    assert |nodes| == |nodes.Keys|;
  }

  lemma ReplayedNoncesServe(s: System, order: seq<Slot>, p: System, txid: Txid)
    requires ReplayOrder(s.journal, order) && Stands(s, order, |order|, p) && Nonce(txid) in s.journal
    requires forall t :: Nonce(t) in s.journal ==> ForUs(s, t)
    ensures NoncesServe(s)
  {
    assert ForUs(s, txid);
    var prepared := s.saved.prepared.value;
    if Ours(prepared) <= NonceTxids(s.journal) {
      forall t ensures t in p.acc.nonces <==> t in Ours(prepared) {
        assert NonceOk(p, t);
        assert Nonce(t) in s.journal ==> Nonce(t) in order && Nonce(t) in p.applied;
        assert t in NonceTxids(s.journal) <==> Nonce(t) in s.journal;
      }
      assert txid in p.acc.nonces && p.acc.nonces.Keys == Ours(prepared);
      assert Completed(p);
      CommittedIsPersisted(p);
    }
  }

  lemma ReachableIsSized(run: seq<System>, i: nat)
    requires Runs.IsRun(Init, Next, run) && i < |run|
    ensures Inv(run[i]) && Sized(run[i])
  {
    InvIsInductive();
    Runs.InvariantHolds(Init, Next, Inv, run, i);
    forall s, s' | Sized(s) && Next(s, s') ensures Sized(s') {
      var step :| Enabled(s, step) && s' == Do(s, step);
      StepKeepsSized(s, step);
    }
    Runs.InvariantHolds(Init, Next, Sized, run, i);
  }

  // ----- main result

  /** The end of a replay: every slot fits. */
  lemma EndedIsCoherent(s: System, order: seq<Slot>, p: System)
    requires ReplayOrder(s.journal, order) && Stands(s, order, |order|, p)
    requires forall j :: 0 <= j < |order| ==> StepFits(s, order[j])
    ensures Coherent(s)
  {
    forall slot | slot in s.journal ensures StepFits(s, slot) {
      assert slot in order;
      var j :| 0 <= j < |order| && order[j] == slot;
    }
    forall t | Nonce(t) in s.journal ensures ForUs(s, t) { assert StepFits(s, Nonce(t)); }
    forall slot ensures SlotFits(s, slot) {
      if slot in s.journal {
        assert StepFits(s, slot);
        if slot.Tree? { ReplayedTreesFit(s, order, p, slot); }
        if slot.Nonce? { ReplayedNoncesServe(s, order, p, slot.txid); }
      }
    }
  }

  /** With every outside verdict favourable, a restarted life replays its whole journal if
      and only if the journal is coherent: the trees are within bounds, every batch node of
      the prepared tree was sent with a child map and no batch node came after it, the tree
      passes its checks, every nonce is for a node we sign and the nonces serve once they are
      complete, every signature is for a persisted node and agrees with the one it carries,
      and a finalization passes its checks on the persisted trees. */
  lemma ReplayEndsIff(run: seq<System>, i: nat, v: Verdicts, order: seq<Slot>, life: seq<System>)
    requires Runs.IsRun(Init, Next, run) && i < |run| && Replay(run[i], v, order, life)
    ensures life[|order|].running <==> Coherent(run[i])
  {
    ReachableIsSized(run, i);
    BootStands(run[i], order);
    ReplayIsKnown(run[i], v, order, life);
    if life[|order|].running { EndedIsCoherent(run[i], order, life[|order|]); }
  }

  // ----- every restart has a replay

  ghost function After(p: System, v: Verdicts, k: nat): System {
    if k == 0 then p else Onward(After(p, v, k - 1), v)
  }

  lemma ReplayExists(s: System, v: Verdicts) returns (order: seq<Slot>, life: seq<System>)
    requires WellKept(s) && !s.saved.authorized && Favourable(v)
    ensures Replay(s, v, order, life)
  {
    var listing := Ordering.ListOf(s.journal.Keys);
    EarlierIsTotalOrder(listing);
    order := Ordering.SortedExists(Earlier, listing);
    Ordering.SameElements(order, listing);
    Ordering.DistinctByMultiset(listing, order);
    var start := Do(s, Boot(order));
    life := seq(|order| + 1, k requires 0 <= k => After(start, v, k));
    forall k: nat | k < |order| ensures Goes(life, v, k) {
      assert life[k + 1] == After(start, v, k + 1);
    }
  }
}
