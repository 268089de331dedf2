/** MuSig2 signing of a delegated renewal tree from a sealed nonce seed.

    The seed behind the secret nonces is sealed into a capsule that is bound to one plan
    and one tree. A signing call names its own plan, tree, capsule and peer nonces; the
    signer compares them with the write-once journal before it opens the seed. Between
    that comparison and a signature anything may happen elsewhere, so a run interleaves
    the journal's writes, the comparisons and the signatures freely.

    Hashes are injective and sealed seeds unforgeable: bindings, secret nonces and sealed
    seeds are free constructors of what they are computed from. */
module DelegationSigning {
  import opened Basics
  import Runs
  import opened DelegationJournal

  type OpId = string
  type Txid = string
  type Key = string

  /** The enrolled contract; its descriptor hash identifies it. */
  datatype Contract = Contract(program: string, network: string, cosigner: Key, rest: string)

  datatype Plan = Plan(op: OpId, body: string)

  datatype Node = Node(packet: string, cosigners: seq<Key>, previous: Txid, index: nat, outputs: nat)

  datatype Tree = Tree(batch: string, expiry: nat, commitment: string, commitmentTxid: Txid, nodes: map<Txid, Node>)

  /** delegationTreeBinding */
  datatype Binding = Binding(plan: Plan, tree: Tree)

  /** delegationNodeNonces: derived from the seed with the binding and the txid. */
  datatype SecretNonce = SecretNonce(key: Key, seed: string, binding: Binding, txid: Txid)

  datatype PublicNonce = Ours(secret: SecretNonce) | Theirs(bytes: string)

  /** An AEAD ciphertext of a seed, or anything else. */
  datatype Ciphertext = Sealed(key: Key, seed: string, binding: Binding) | Junk(bytes: string)

  datatype Capsule = Capsule(binding: Binding, nonces: map<Txid, PublicNonce>, ciphertext: Ciphertext)

  datatype Prepared = Prepared(tree: Tree, capsule: Capsule)

  type Peers = map<Txid, map<Key, PublicNonce>>

  datatype Message = Message(tree: Tree, txid: Txid)
  datatype SweepRoot = SweepRoot(network: string, expiry: nat)

  /** What a partial signature commits to: the aggregated keys and nonces, the sighash of
      the node with its previous output, and the taproot tweak. */
  datatype Challenge = Challenge(keys: seq<Key>, nonces: seq<PublicNonce>, message: Message, tweak: SweepRoot)

  datatype PartialSignature = PartialSignature(secret: SecretNonce, challenge: Challenge)

  datatype Evidence =
    | TreeEvidence(prepared: Prepared) | NonceEvidence(peers: Peers)
    | SignatureEvidence(signatures: map<Txid, PartialSignature>) | Other(json: string)

  /** `authentic` is the verdict of the checks on the stored plan against its own record. */
  datatype Operation = Operation(contract: Contract, setId: string, plan: Plan, authentic: bool)

  datatype Snapshot = Snapshot(operation: Operation, events: Events<Evidence>)

  type Store = map<OpId, Snapshot>

  datatype Call = Call(contract: Contract, plan: Plan, prepared: Prepared, peers: Peers)

  // ----- the signer's checks

  /** delegationSigningNodes */
  function SigningNodes(tree: Tree, key: Key): set<Txid> {
    set txid | txid in tree.nodes && key in tree.nodes[txid].cosigners
  }

  function Secret(c: Contract, seed: string, binding: Binding, txid: Txid): SecretNonce {
    SecretNonce(c.cosigner, seed, binding, txid)
  }

  /** What the journal must hold for the call, now and for good. */
  predicate Committed(store: Store, call: Call) {
    && call.plan.op in store
    && var s := store[call.plan.op];
       && s.operation.contract == call.contract && s.operation.plan == call.plan
       && s.operation.setId != "" && s.operation.authentic
       && TreePrepared in s.events && s.events[TreePrepared] == TreeEvidence(call.prepared)
       && NoncesCommitted in s.events && s.events[NoncesCommitted] == NonceEvidence(call.peers)
  }

  /** verifyRenewalTranscript */
  predicate Transcript(store: Store, call: Call) {
    && Committed(store, call)
    && var state := State(store[call.plan.op].events); state == Some(NoncesCommitted) || state == Some(TreeSigned)
  }

  /** The capsule is bound to this plan and tree, and its seed opens under the binding. */
  predicate Opens(call: Call) {
    var binding, capsule := Binding(call.plan, call.prepared.tree), call.prepared.capsule;
    && capsule.binding == binding && capsule.ciphertext.Sealed?
    && capsule.ciphertext.key == call.contract.cosigner && capsule.ciphertext.binding == binding
  }

  function NonceAt(call: Call, txid: Txid): SecretNonce
    requires Opens(call)
  {
    Secret(call.contract, call.prepared.capsule.ciphertext.seed, Binding(call.plan, call.prepared.tree), txid)
  }

  predicate KnownPrevious(tree: Tree, node: Node) {
    || node.previous == tree.commitmentTxid
    || (node.previous in tree.nodes && node.index < tree.nodes[node.previous].outputs)
  }

  /** One node can be signed: every cosigner's nonce is there, ours is the committed one. */
  predicate NodeReady(call: Call, txid: Txid)
    requires Opens(call) && txid in call.prepared.tree.nodes
  {
    var node, own, capsule := call.prepared.tree.nodes[txid], call.contract.cosigner, call.prepared.capsule;
    && txid in call.peers && |node.cosigners| == |call.peers[txid]|
    && txid in capsule.nonces && capsule.nonces[txid] == Ours(NonceAt(call, txid))
    && own in call.peers[txid] && call.peers[txid][own] == capsule.nonces[txid]
    && (forall key :: key in node.cosigners ==> key in call.peers[txid])
    && KnownPrevious(call.prepared.tree, node)
  }

  predicate Covered(call: Call)
    requires Opens(call)
  {
    var nodes := SigningNodes(call.prepared.tree, call.contract.cosigner);
    && |nodes| == |call.peers| && |nodes| == |call.prepared.capsule.nonces|
    && forall txid :: txid in nodes ==> NodeReady(call, txid)
  }

  function ChallengeAt(call: Call, txid: Txid): Challenge
    requires Opens(call) && txid in call.prepared.tree.nodes && NodeReady(call, txid)
  {
    var tree := call.prepared.tree;
    var keys := tree.nodes[txid].cosigners;
    Challenge(keys, seq(|keys|, i requires 0 <= i < |keys| => call.peers[txid][keys[i]]), Message(tree, txid),
      SweepRoot(call.contract.network, tree.expiry))
  }

  /** What a partial signature over one of our nodes must commit to: the node's cosigners in
      its own order, each with the nonce it sent, this node of this tree, and the sweep path
      of the network and the tree's expiry; made with the secret nonce of this capsule. */
  ghost predicate SignsNode(call: Call, txid: Txid, s: PartialSignature) {
    var tree, capsule := call.prepared.tree, call.prepared.capsule;
    && txid in tree.nodes && txid in call.peers && capsule.ciphertext.Sealed? && capsule.binding == Binding(call.plan, tree)
    && s.secret == SecretNonce(call.contract.cosigner, capsule.ciphertext.seed, Binding(call.plan, tree), txid)
    && txid in capsule.nonces && capsule.nonces[txid] == Ours(s.secret)
    && s.challenge.keys == tree.nodes[txid].cosigners && |s.challenge.nonces| == |s.challenge.keys|
    && (forall i :: 0 <= i < |s.challenge.keys| ==>
          s.challenge.keys[i] in call.peers[txid] && s.challenge.nonces[i] == call.peers[txid][s.challenge.keys[i]])
    && s.challenge.message == Message(tree, txid)
    && s.challenge.tweak == SweepRoot(call.contract.network, tree.expiry)
  }

  /** Two calls on one tree and network have one challenge for a node exactly when every
      cosigner of the node sent the same nonce in both. */
  lemma ChallengesAgreeIff(a: Call, b: Call, txid: Txid)
    requires Opens(a) && Opens(b) && txid in a.prepared.tree.nodes && txid in b.prepared.tree.nodes
    requires NodeReady(a, txid) && NodeReady(b, txid)
    requires a.prepared.tree == b.prepared.tree && a.contract.network == b.contract.network
    ensures ChallengeAt(a, txid) == ChallengeAt(b, txid) <==>
            forall key :: key in a.prepared.tree.nodes[txid].cosigners ==> a.peers[txid][key] == b.peers[txid][key]
  {
    var keys := a.prepared.tree.nodes[txid].cosigners;
    var x, y := ChallengeAt(a, txid).nonces, ChallengeAt(b, txid).nonces;
    assert |x| == |keys| && |y| == |keys|;
    assert forall i :: 0 <= i < |keys| ==> x[i] == a.peers[txid][keys[i]] && y[i] == b.peers[txid][keys[i]];
    if x == y {
      forall key | key in keys ensures a.peers[txid][key] == b.peers[txid][key] {
        var i :| 0 <= i < |keys| && keys[i] == key;
        assert x[i] == y[i];
      }
    }
  }

  // ----- the two operations

  /** prepareSpendingDelegationTree: `seed` is fresh randomness, `treeOk` the verdict on
      the tree. Every node of ours gets the public half of its own nonce. */
  method PrepareSpendingDelegationTree(c: Contract, plan: Plan, tree: Tree, seed: string, treeOk: bool)
    returns (capsule: Option<Capsule>)
    ensures capsule.Some? == treeOk
    ensures capsule.Some? ==> capsule.value == CapsuleFor(c, plan, tree, seed)
    ensures capsule.Some? ==> forall txid :: txid in capsule.value.nonces <==>
              txid in tree.nodes && c.cosigner in tree.nodes[txid].cosigners
    ensures capsule.Some? ==> forall txid :: txid in capsule.value.nonces ==>
              capsule.value.nonces[txid] == Ours(SecretNonce(c.cosigner, seed, Binding(plan, tree), txid))
  {
    if !treeOk {
      return None;
    }
    var binding := Binding(plan, tree);
    var nonces: map<Txid, PublicNonce> := map[];
    var todo := SigningNodes(tree, c.cosigner);
    while todo != {}
      invariant nonces.Keys == SigningNodes(tree, c.cosigner) - todo && todo <= SigningNodes(tree, c.cosigner)
      invariant forall txid :: txid in nonces ==> nonces[txid] == Ours(Secret(c, seed, binding, txid))
    {
      var txid :| txid in todo;
      nonces := nonces[txid := Ours(Secret(c, seed, binding, txid))];
      todo := todo - {txid};
    }
    assert nonces == PublicNonces(c, plan, tree, seed);
    return Some(Capsule(binding, nonces, Sealed(c.cosigner, seed, binding)));
  }

  function PublicNonces(c: Contract, plan: Plan, tree: Tree, seed: string): map<Txid, PublicNonce> {
    map txid | txid in SigningNodes(tree, c.cosigner) :: Ours(Secret(c, seed, Binding(plan, tree), txid))
  }

  /** signSpendingDelegationTree: all of our nodes, or nothing. */
  method SignSpendingDelegationTree(store: Store, call: Call, treeOk: bool)
    returns (signatures: Option<map<Txid, PartialSignature>>)
    ensures signatures.Some? <==> Transcript(store, call) && treeOk && Opens(call) && Covered(call)
    ensures signatures.Some? ==> forall txid :: txid in signatures.value <==>
              txid in call.prepared.tree.nodes && call.contract.cosigner in call.prepared.tree.nodes[txid].cosigners
    ensures signatures.Some? ==> forall txid :: txid in signatures.value ==> SignsNode(call, txid, signatures.value[txid])
  {
    if !Transcript(store, call) || !treeOk || !Opens(call) {
      return None;
    }
    var nodes := SigningNodes(call.prepared.tree, call.contract.cosigner);
    if |nodes| != |call.peers| || |nodes| != |call.prepared.capsule.nonces| {
      return None;
    }
    var result: map<Txid, PartialSignature> := map[];
    var todo := nodes;
    while todo != {}
      invariant result.Keys == nodes - todo && todo <= nodes
      invariant forall txid :: txid in result ==> NodeReady(call, txid)
      invariant forall txid :: txid in result ==>
        result[txid] == PartialSignature(NonceAt(call, txid), ChallengeAt(call, txid))
    {
      var txid :| txid in todo;
      if !NodeReady(call, txid) {
        return None;
      }
      result := result[txid := PartialSignature(NonceAt(call, txid), ChallengeAt(call, txid))];
      todo := todo - {txid};
    }
    return Some(result);
  }

  /** The capsule that preparing makes for a tree. */
  function CapsuleFor(c: Contract, plan: Plan, tree: Tree, seed: string): Capsule {
    Capsule(Binding(plan, tree), PublicNonces(c, plan, tree, seed), Sealed(c.cosigner, seed, Binding(plan, tree)))
  }

  /** A node of ours gets its signature: nonces of exactly as many peers as it has cosigners,
      one for each of them, ours the one that was prepared, and its parent at hand. */
  ghost predicate PeersServe(c: Contract, plan: Plan, tree: Tree, seed: string, peers: Peers, txid: Txid)
    requires txid in tree.nodes
  {
    var node := tree.nodes[txid];
    && txid in peers && |peers[txid]| == |node.cosigners|
    && (forall key :: key in node.cosigners ==> key in peers[txid])
    && c.cosigner in peers[txid] && peers[txid][c.cosigner] == Ours(SecretNonce(c.cosigner, seed, Binding(plan, tree), txid))
    && (node.previous == tree.commitmentTxid || (node.previous in tree.nodes && node.index < tree.nodes[node.previous].outputs))
  }

  /** Round trip of preparing and signing: a capsule prepared for one plan, tree and key opens
      in a call exactly when the call is about them, and then everything is signed exactly when
      there is one set of nonces for each node that lists our key, and each set serves. */
  lemma PreparedSignsIff(c: Contract, plan: Plan, tree: Tree, seed: string, call: Call)
    requires call.prepared.capsule == CapsuleFor(c, plan, tree, seed)
    ensures Opens(call) <==> call.plan == plan && call.prepared.tree == tree && call.contract.cosigner == c.cosigner
    ensures Opens(call) ==>
              var ours := set txid | txid in tree.nodes && c.cosigner in tree.nodes[txid].cosigners;
              Covered(call) <==> |call.peers| == |ours| && forall txid :: txid in ours ==> PeersServe(c, plan, tree, seed, call.peers, txid)
  {
    if Opens(call) {
      var ours := set txid | txid in tree.nodes && c.cosigner in tree.nodes[txid].cosigners;
      assert SigningNodes(tree, c.cosigner) == ours && PublicNonces(c, plan, tree, seed).Keys == ours;
      assert |call.prepared.capsule.nonces| == |call.prepared.capsule.nonces.Keys|;
      forall txid | txid in ours ensures NodeReady(call, txid) <==> PeersServe(c, plan, tree, seed, call.peers, txid) {
      }
    }
  }

  /** The comparison with the journal passes exactly while the operation's record is this
      contract and plan, its tree and nonces are the ones presented, and no later phase was
      written. */
  lemma TranscriptIff(store: Store, call: Call)
    ensures Transcript(store, call) <==>
            && call.plan.op in store
            && var s := store[call.plan.op];
               && s.operation.contract == call.contract && s.operation.plan == call.plan
               && s.operation.setId != "" && s.operation.authentic
               && TreePrepared in s.events && s.events[TreePrepared] == TreeEvidence(call.prepared)
               && NoncesCommitted in s.events && s.events[NoncesCommitted] == NonceEvidence(call.peers)
               && !SessionOver(s.events)
  {
    if Committed(store, call) { SigningStateIff(store[call.plan.op].events); }
  }

  // ----- every run

  /** One partial signature that left the signer. */
  datatype Signed = Signed(call: Call, txid: Txid)

  ghost predicate Signable(s: Signed) {
    && Opens(s.call) && s.txid in SigningNodes(s.call.prepared.tree, s.call.contract.cosigner)
    && NodeReady(s.call, s.txid)
  }

  /** `approved` are calls that passed the comparison with the journal and may still sign. */
  datatype World = World(store: Store, approved: set<Call>, signed: set<Signed>)

  datatype Step =
    | Schedule(id: OpId, operation: Operation)
    | Write(id: OpId, phase: Phase, evidence: Evidence, verdicts: Verdicts)
    | Approve(call: Call)
    | SignNode(call: Call, txid: Txid)
    | Restart

  ghost predicate Enabled(w: World, s: Step) {
    match s
    case Schedule(id, _) => id !in w.store
    case Write(id, phase, evidence, v) => id in w.store && Advance(w.store[id].events, phase, evidence, v).Some?
    case Approve(call) => Transcript(w.store, call)
    case SignNode(call, txid) => call in w.approved && Signable(Signed(call, txid))
    case Restart => true
  }

  ghost function Do(w: World, s: Step): World
    requires Enabled(w, s)
  {
    match s
    case Schedule(id, operation) => w.(store := w.store[id := Snapshot(operation, map[])])
    case Write(id, phase, evidence, v) =>
      var events := Advance(w.store[id].events, phase, evidence, v).value;
      w.(store := w.store[id := w.store[id].(events := events)])
    case Approve(call) => w.(approved := w.approved + {call})
    case SignNode(call, txid) => w.(signed := w.signed + {Signed(call, txid)})
    case Restart => w.(approved := {})
  }

  ghost predicate Init(w: World) { w == World(map[], {}, {}) }

  ghost predicate Next(w: World, w': World) { exists s :: Enabled(w, s) && w' == Do(w, s) }

  ghost predicate Inv(w: World) {
    && (forall id {:trigger w.store[id]} :: id in w.store ==> Sound(w.store[id].events))
    && (forall call {:trigger Committed(w.store, call)} :: call in w.approved ==> Committed(w.store, call))
    && (forall s {:trigger Signable(s)} :: s in w.signed ==> Signable(s) && Committed(w.store, s.call))
  }

  ghost predicate Grows(w: World, w': World) { w.signed <= w'.signed }

  lemma WriteKeepsCommitted(store: Store, id: OpId, phase: Phase, evidence: Evidence, v: Verdicts, call: Call)
    requires id in store && Sound(store[id].events) && Advance(store[id].events, phase, evidence, v).Some?
    requires Committed(store, call)
    ensures Committed(store[id := store[id].(events := Advance(store[id].events, phase, evidence, v).value)], call)
  {
    AdvanceKeepsSound(store[id].events, phase, evidence, v);
  }

  /** The journal may grow under approved calls and past signatures. */
  lemma GrowthKeepsInv(w: World, store: Store)
    requires Inv(w)
    requires forall id {:trigger store[id]} :: id in store ==> Sound(store[id].events)
    requires forall call :: Committed(w.store, call) ==> Committed(store, call)
    ensures Inv(w.(store := store))
  {
    forall call | call in w.approved ensures Committed(store, call) { assert Committed(w.store, call); }
    forall s | s in w.signed ensures Signable(s) && Committed(store, s.call) { assert Signable(s); }
  }

  lemma WriteKeepsInv(w: World, id: OpId, phase: Phase, evidence: Evidence, v: Verdicts)
    requires Inv(w) && Enabled(w, Write(id, phase, evidence, v))
    ensures Inv(Do(w, Write(id, phase, evidence, v)))
  {
    var store := Do(w, Write(id, phase, evidence, v)).store;
    AdvanceKeepsSound(w.store[id].events, phase, evidence, v);
    forall call | Committed(w.store, call) ensures Committed(store, call) {
      WriteKeepsCommitted(w.store, id, phase, evidence, v, call);
    }
    GrowthKeepsInv(w, store);
  }

  lemma ScheduleKeepsInv(w: World, id: OpId, operation: Operation)
    requires Inv(w) && id !in w.store
    ensures Inv(Do(w, Schedule(id, operation)))
  {
    GrowthKeepsInv(w, w.store[id := Snapshot(operation, map[])]);
  }

  lemma SignKeepsInv(w: World, call: Call, txid: Txid)
    requires Inv(w) && Enabled(w, SignNode(call, txid))
    ensures Inv(Do(w, SignNode(call, txid)))
  {
    assert Committed(w.store, call);
  }

  lemma StepKeepsInv(w: World, s: Step)
    requires Inv(w) && Enabled(w, s)
    ensures Inv(Do(w, s)) && Grows(w, Do(w, s))
  {
    match s
    case Schedule(id, operation) => ScheduleKeepsInv(w, id, operation);
    case Write(id, phase, evidence, v) => WriteKeepsInv(w, id, phase, evidence, v);
    case Approve(_) =>
    case SignNode(call, txid) => SignKeepsInv(w, call, txid);
    case Restart =>
  }

  lemma InvIsInductive()
    ensures Runs.Inductive(Init, Next, Inv)
    ensures Runs.KeptByStep(Next, Inv, Grows)
  {
    forall w, w' | Inv(w) && Next(w, w') ensures Inv(w') && Grows(w, w') {
      var s :| Enabled(w, s) && w' == Do(w, s);
      StepKeepsInv(w, s);
    }
  }

  // ----- main results

  /** Two signatures under one binding share the tree, the peer nonces and the contract. */
  lemma OneBindingOneTranscript(store: Store, a: Call, b: Call)
    requires Committed(store, a) && Committed(store, b)
    requires Binding(a.plan, a.prepared.tree) == Binding(b.plan, b.prepared.tree)
    ensures a.prepared == b.prepared && a.peers == b.peers && a.contract == b.contract
  {
  }

  /** In every run, with any callers, restarts and stale calls, a secret nonce never meets
      two challenges. */
  lemma NonceMeetsOneChallenge(run: seq<World>, i: nat, j: nat, a: Signed, b: Signed)
    requires Runs.IsRun(Init, Next, run) && i <= j < |run|
    requires a in run[i].signed && b in run[j].signed && Signable(a) && Signable(b)
    requires NonceAt(a.call, a.txid) == NonceAt(b.call, b.txid)
    ensures a.txid == b.txid && ChallengeAt(a.call, a.txid) == ChallengeAt(b.call, b.txid)
  {
    InvIsInductive();
    Runs.InvariantHolds(Init, Next, Inv, run, j);
    Runs.RelationHolds(Init, Next, Inv, Grows, run, i, j);
    assert a in run[j].signed;
    OneBindingOneTranscript(run[j].store, a.call, b.call);
  }

  /** All partial signatures made from one capsule are over one tree and one peer-nonce map. */
  lemma OneCapsuleOneTree(run: seq<World>, i: nat, j: nat, a: Signed, b: Signed)
    requires Runs.IsRun(Init, Next, run) && i <= j < |run|
    requires a in run[i].signed && b in run[j].signed
    requires a.call.prepared.capsule.ciphertext == b.call.prepared.capsule.ciphertext
    ensures a.call.prepared.tree == b.call.prepared.tree && a.call.peers == b.call.peers
    ensures a.call.contract == b.call.contract && a.call.plan == b.call.plan
  {
    InvIsInductive();
    Runs.InvariantHolds(Init, Next, Inv, run, j);
    Runs.RelationHolds(Init, Next, Inv, Grows, run, i, j);
    assert a in run[j].signed && Signable(a) && Signable(b);
    OneBindingOneTranscript(run[j].store, a.call, b.call);
  }

  /** The steps of a run: a schedule is a fresh empty journal, a write is what the journal's own
      rule leaves, an approval and a signature are remembered, and a restart forgets approvals. */
  lemma StepsExactly(w: World, s: Step)
    requires Enabled(w, s)
    ensures match s
            case Schedule(id, operation) => Do(w, s) == World(w.store[id := Snapshot(operation, map[])], w.approved, w.signed)
            case Write(id, phase, evidence, v) =>
              var events := Advance(w.store[id].events, phase, evidence, v).value;
              Do(w, s) == World(w.store[id := Snapshot(w.store[id].operation, events)], w.approved, w.signed)
            case Approve(call) => Do(w, s) == World(w.store, w.approved + {call}, w.signed)
            case SignNode(call, txid) => Do(w, s) == World(w.store, w.approved, w.signed + {Signed(call, txid)})
            case Restart => Do(w, s) == World(w.store, {}, w.signed)
  {
  }
}
