/** The batch-graph checker of renewals: shape and bounds of every transaction, in-degree
    counts, then a stack search from the single root. A stream names children that
    were never sent to this participant, so edges may lead outside the supplied nodes. */
module TreeGraph {
  import opened Basics
  import Ordering

  type Id = string

  datatype Output = Output(value: int, scriptLen: nat, taproot: bool)

  /** One supplied transaction: its outputs and the children named per output index. */
  datatype Node = Node(id: Id, inputs: nat, outputs: seq<Output>, children: map<nat, Id>)

  datatype GraphError =
    | TreeSize | Duplicate | TransactionShape | OutputBounds | ChildCount | EdgeShape | ChildScript
    | RepeatedChild | RootCount | Cycle | MissingDescendant | Disconnected

  datatype Verdict = Accepted | Rejected(error: GraphError)

  const MAX_OUTPUTS := 512
  const MAX_SCRIPT := 10000
  const MAX_MONEY := 21_000_000 * 100_000_000

  /** Child references by node, the checker's byID map. */
  type Graph = map<Id, map<nat, Id>>

  predicate Distinct(flat: seq<Node>) {
    forall i, j :: 0 <= i < j < |flat| ==> flat[i].id != flat[j].id
  }

  function ById(flat: seq<Node>): Graph {
    if |flat| == 0 then map[]
    else ById(flat[..|flat| - 1])[flat[|flat| - 1].id := flat[|flat| - 1].children]
  }

  lemma {:induction false} ByIdNames(flat: seq<Node>, a: Id)
    requires a in ById(flat)
    ensures exists i :: 0 <= i < |flat| && flat[i].id == a
  {
    var front, last := flat[..|flat| - 1], |flat| - 1;
    if a == flat[last].id {
      assert flat[last].id == a;
    } else {
      ByIdNames(front, a);
      var i :| 0 <= i < |front| && front[i].id == a;
      assert flat[i].id == a;
    }
  }

  lemma {:induction false} ByIdLooksUp(flat: seq<Node>)
    requires Distinct(flat)
    ensures forall i :: 0 <= i < |flat| ==> flat[i].id in ById(flat) && ById(flat)[flat[i].id] == flat[i].children
    ensures forall a :: a in ById(flat) ==> exists i :: 0 <= i < |flat| && flat[i].id == a
    ensures |ById(flat)| == |flat|
  {
    forall a | a in ById(flat) ensures exists i :: 0 <= i < |flat| && flat[i].id == a { ByIdNames(flat, a); }
    ByIdEntries(flat);
  }

  lemma {:induction false} ByIdEntries(flat: seq<Node>)
    requires Distinct(flat)
    ensures forall i :: 0 <= i < |flat| ==> flat[i].id in ById(flat) && ById(flat)[flat[i].id] == flat[i].children
    ensures |ById(flat)| == |flat|
  {
    if |flat| > 0 {
      var front, last, g := flat[..|flat| - 1], flat[|flat| - 1], ById(flat);
      ByIdEntries(front);
      forall i | 0 <= i < |flat| ensures flat[i].id in g && g[flat[i].id] == flat[i].children {
        if i < |front| { assert front[i] == flat[i]; }
      }
      assert forall i :: 0 <= i < |front| ==> front[i].id != last.id;
      if last.id in ById(front) { ByIdNames(front, last.id); }
      assert g.Keys == ById(front).Keys + {last.id};
    }
  }

  // ----- what the checker means

  function Value(out: Output): int { out.value }

  ghost function Total(outputs: seq<Output>): int { Ordering.SumOf(Value, outputs) }

  ghost predicate OutputsBounded(outputs: seq<Output>) {
    && (forall i :: 0 <= i < |outputs| ==> outputs[i].value >= 0 && outputs[i].scriptLen <= MAX_SCRIPT)
    && Total(outputs) <= MAX_MONEY
  }

  ghost predicate ShapeOk(n: Node) {
    && n.inputs == 1 && 0 < |n.outputs| <= MAX_OUTPUTS
    && OutputsBounded(n.outputs)
    && |n.children| <= |n.outputs| - 1
    && forall k :: k in n.children ==> k < |n.outputs| && n.children[k] != n.id && n.outputs[k].taproot
  }

  ghost predicate Injective(m: map<nat, Id>) {
    forall k, l :: k in m && l in m && m[k] == m[l] ==> k == l
  }

  /** No transaction is named twice as a child, whether or not it was supplied. */
  ghost predicate NamedOnce(g: Graph) {
    && (forall a :: a in g ==> Injective(g[a]))
    && forall a, b :: a in g && b in g && a != b ==> g[a].Values !! g[b].Values
  }

  ghost predicate Names(g: Graph, a: Id, b: Id) { a in g && b in g[a].Values }

  ghost predicate Named(g: Graph, b: Id) { exists a :: Names(g, a, b) }

  /** The supplied children of `a`. */
  ghost function Kids(g: Graph, a: Id): set<Id> requires a in g { g[a].Values * g.Keys }

  /** A path of supplied nodes from `r` to `v`. */
  ghost predicate Path(g: Graph, r: Id, v: Id, p: seq<Id>) {
    && |p| > 0 && p[0] == r && p[|p| - 1] == v
    && (forall i :: 0 <= i < |p| ==> p[i] in g)
    && forall i :: 0 <= i < |p| - 1 ==> Names(g, p[i], p[i + 1])
  }

  ghost predicate Reachable(g: Graph, r: Id, v: Id) { exists p :: Path(g, r, v, p) }

  ghost predicate UniquePath(g: Graph, r: Id, v: Id) {
    forall p, q :: Path(g, r, v, p) && Path(g, r, v, q) ==> p == q
  }

  /** One rooted tree: every supplied node has exactly one path from the root. */
  ghost predicate TreeFrom(g: Graph, r: Id) {
    r in g && forall v :: v in g ==> Reachable(g, r, v) && UniquePath(g, r, v)
  }

  ghost predicate RootedTree(g: Graph) { exists r :: TreeFrom(g, r) }

  ghost predicate Feeds(g: Graph, a: Id) requires a in g {
    g[a] == map[] || Kids(g, a) != {}
  }

  ghost predicate EveryInternalFeeds(g: Graph) { forall a :: a in g ==> Feeds(g, a) }

  ghost predicate Acceptable(flat: seq<Node>) {
    && 0 < |flat| <= MAX_NODES && Distinct(flat)
    && (forall i :: 0 <= i < |flat| ==> ShapeOk(flat[i]))
    && NamedOnce(ById(flat)) && RootedTree(ById(flat)) && EveryInternalFeeds(ById(flat))
  }

  // ----- per-node checks

  /** The running total never leaves [0, 21 million coins], so the 64-bit sum is exact. */
  method CheckOutputs(outputs: seq<Output>) returns (ok: bool)
    ensures ok <==> OutputsBounded(outputs)
  {
    var total := 0;
    for i := 0 to |outputs|
      invariant 0 <= total <= MAX_MONEY && total == Total(outputs[..i])
      invariant forall j :: 0 <= j < i ==> 0 <= outputs[j].value && outputs[j].scriptLen <= MAX_SCRIPT
    {
      var out := outputs[i];
      assert outputs[..i + 1][..i] == outputs[..i];
      if out.value < 0 || out.value > MAX_MONEY || total > MAX_MONEY - out.value || out.scriptLen > MAX_SCRIPT {
        assert Total(outputs[..i + 1]) == total + out.value;
        if OutputsBounded(outputs) {
          Ordering.SumOfPrefix(Value, outputs, i + 1);
        }
        return false;
      }
      total := total + out.value;
    }
    assert outputs[..|outputs|] == outputs;
    return true;
  }

  method CheckShape(n: Node) returns (v: Verdict)
    ensures v == Accepted <==> ShapeOk(n)
    ensures v != Rejected(Cycle)
  {
    if n.inputs != 1 || |n.outputs| == 0 || |n.outputs| > MAX_OUTPUTS {
      return Rejected(TransactionShape);
    }
    var bounded := CheckOutputs(n.outputs);
    if !bounded {
      return Rejected(OutputBounds);
    }
    if |n.children| > |n.outputs| - 1 {
      return Rejected(ChildCount);
    }
    var rest := n.children.Keys;
    while rest != {}
      invariant rest <= n.children.Keys
      invariant forall k :: k in n.children && k !in rest ==>
        k < |n.outputs| && n.children[k] != n.id && n.outputs[k].taproot
    {
      var k :| k in rest;
      rest := rest - {k};
      if k >= |n.outputs| || n.children[k] == n.id {
        return Rejected(EdgeShape);
      }
      if !n.outputs[k].taproot {
        return Rejected(ChildScript);
      }
    }
    return Accepted;
  }

  // ----- in-degree counts

  method CountChildren(children: map<nat, Id>, before: map<Id, nat>) returns (ok: bool, parents: map<Id, nat>)
    requires forall c :: c in before ==> before[c] == 1
    ensures ok <==> Injective(children) && children.Values !! before.Keys
    ensures ok ==> parents.Keys == before.Keys + children.Values && forall c :: c in parents ==> parents[c] == 1
  {
    parents := before;
    var rest := children.Keys;
    while rest != {}
      invariant rest <= children.Keys
      invariant forall c :: c in parents ==> parents[c] == 1
      invariant forall c :: c in parents <==> c in before || exists k :: k in children && k !in rest && children[k] == c
      invariant forall k :: k in children && k !in rest ==> children[k] !in before
      invariant forall k, l :: k in children && l in children && k !in rest && l !in rest && children[k] == children[l] ==> k == l
    {
      var k :| k in rest;
      var c := children[k];
      var count := (if c in parents then parents[c] else 0) + 1;
      if count > 1 {
        assert c in children.Values;
        return false, parents;
      }
      rest := rest - {k};
      parents := parents[c := count];
    }
    ok := true;
  }

  ghost function NamedIds(flat: seq<Node>): set<Id> {
    if |flat| == 0 then {} else NamedIds(flat[..|flat| - 1]) + flat[|flat| - 1].children.Values
  }

  /** NamedOnce as the counting loop sees it, one node at a time. */
  ghost predicate CountedOnce(flat: seq<Node>) {
    |flat| == 0 ||
    var front, last := flat[..|flat| - 1], flat[|flat| - 1].children;
    CountedOnce(front) && Injective(last) && last.Values !! NamedIds(front)
  }

  ghost predicate Apart(g: Graph, s: set<Id>) { forall a :: a in g ==> g[a].Values !! s }

  lemma NamedOnceExtends(h: Graph, id: Id, m: map<nat, Id>)
    requires id !in h
    ensures NamedOnce(h[id := m]) <==> NamedOnce(h) && Injective(m) && Apart(h, m.Values)
  {
    var g := h[id := m];
    assert forall a :: a in h ==> a in g && g[a] == h[a];
    assert forall a :: a in g ==> a == id || a in h;
    assert g[id] == m;
  }

  lemma {:induction false} NamedIdsMeans(flat: seq<Node>, c: Id)
    requires Distinct(flat)
    ensures c in NamedIds(flat) <==> Named(ById(flat), c)
  {
    if |flat| > 0 {
      var front, last := flat[..|flat| - 1], flat[|flat| - 1];
      NamedIdsMeans(front, c);
      ByIdLooksUp(front);
      var h, g := ById(front), ById(flat);
      assert last.id !in h && g == h[last.id := last.children];
      if c in last.children.Values { assert Names(g, last.id, c); }
      if a :| Names(h, a, c) { assert Names(g, a, c); }
      if a :| Names(g, a, c) { assert a == last.id || Names(h, a, c); }
    }
  }

  lemma NamedIdsDisjoint(flat: seq<Node>, s: set<Id>)
    requires Distinct(flat)
    ensures s !! NamedIds(flat) <==> Apart(ById(flat), s)
  {
    var h := ById(flat);
    forall c ensures c in NamedIds(flat) <==> Named(h, c) { NamedIdsMeans(flat, c); }
    forall a, c | a in h && c in h[a].Values ensures c in NamedIds(flat) { assert Names(h, a, c); }
    if Apart(h, s) {
      forall c | c in NamedIds(flat) ensures c !in s {
        var a :| Names(h, a, c);
      }
    }
  }

  lemma {:induction false} CountedOnceIsNamedOnce(flat: seq<Node>)
    requires Distinct(flat)
    ensures CountedOnce(flat) <==> NamedOnce(ById(flat))
  {
    if |flat| > 0 {
      var front, last := flat[..|flat| - 1], flat[|flat| - 1];
      CountedOnceIsNamedOnce(front);
      ByIdLooksUp(front);
      NamedOnceExtends(ById(front), last.id, last.children);
      NamedIdsDisjoint(front, last.children.Values);
    }
  }

  lemma {:induction false} CountedOncePrefix(flat: seq<Node>, i: nat)
    requires i <= |flat| && CountedOnce(flat)
    ensures CountedOnce(flat[..i])
  {
    if i == |flat| {
      assert flat[..i] == flat;
    } else {
      CountedOncePrefix(flat[..|flat| - 1], i);
      assert flat[..|flat| - 1][..i] == flat[..i];
    }
  }

  method CountParents(flat: seq<Node>) returns (ok: bool, parents: map<Id, nat>)
    requires Distinct(flat)
    ensures ok <==> NamedOnce(ById(flat))
    ensures ok ==> forall c :: c in parents <==> Named(ById(flat), c)
  {
    CountedOnceIsNamedOnce(flat);
    parents := map[];
    for i := 0 to |flat|
      invariant forall c :: c in parents ==> parents[c] == 1
      invariant parents.Keys == NamedIds(flat[..i]) && CountedOnce(flat[..i])
    {
      assert flat[..i + 1][..i] == flat[..i];
      ok, parents := CountChildren(flat[i].children, parents);
      if !ok {
        if CountedOnce(flat) { CountedOncePrefix(flat, i + 1); }
        return;
      }
    }
    assert flat[..|flat|] == flat;
    forall c ensures c in parents <==> Named(ById(flat), c) { NamedIdsMeans(flat, c); }
    ok := true;
  }

  // ----- paths

  lemma PathExtends(g: Graph, r: Id, a: Id, b: Id, p: seq<Id>)
    requires Path(g, r, a, p) && Names(g, a, b) && b in g
    ensures Path(g, r, b, p + [b])
  {
    var q := p + [b];
    forall i | 0 <= i < |q| - 1 ensures Names(g, q[i], q[i + 1]) {
      if i < |p| - 1 {
        assert q[i] == p[i] && q[i + 1] == p[i + 1];
      }
    }
  }

  lemma ReachExtends(g: Graph, r: Id, a: Id, b: Id)
    requires Reachable(g, r, a) && Names(g, a, b) && b in g
    ensures Reachable(g, r, b)
  {
    var p :| Path(g, r, a, p);
    PathExtends(g, r, a, b, p);
  }

  lemma PathPrefix(g: Graph, r: Id, v: Id, p: seq<Id>, k: nat)
    requires Path(g, r, v, p) && k < |p|
    ensures Path(g, r, p[k], p[..k + 1])
  {
    var q := p[..k + 1];
    forall i | 0 <= i < |q| - 1 ensures Names(g, q[i], q[i + 1]) {
      assert q[i] == p[i] && q[i + 1] == p[i + 1];
    }
  }

  ghost predicate IsRoot(g: Graph, r: Id) { r in g && !Named(g, r) }

  lemma RootPathIsShort(g: Graph, r: Id, v: Id, p: seq<Id>)
    requires IsRoot(g, r) && Path(g, r, v, p)
    ensures |p| == 1 <==> v == r
  {
    if |p| > 1 {
      assert Names(g, p[|p| - 2], p[|p| - 2 + 1]);
    }
  }

  /** With every child named once and an unnamed root, two paths to one node agree. */
  lemma {:induction false} PathsAgree(g: Graph, r: Id, v: Id, p: seq<Id>, q: seq<Id>)
    requires NamedOnce(g) && IsRoot(g, r) && Path(g, r, v, p) && Path(g, r, v, q)
    ensures p == q
    decreases |p|
  {
    RootPathIsShort(g, r, v, p);
    RootPathIsShort(g, r, v, q);
    if |p| > 1 {
      var a, b := p[|p| - 2], q[|q| - 2];
      assert Names(g, a, p[|p| - 2 + 1]) && Names(g, b, q[|q| - 2 + 1]);
      assert a == b;
      PathPrefix(g, r, v, p, |p| - 2);
      PathPrefix(g, r, v, q, |q| - 2);
      PathsAgree(g, r, a, p[..|p| - 1], q[..|q| - 1]);
      assert p == p[..|p| - 1] + [v] && q == q[..|q| - 1] + [v];
    }
  }

  lemma NamedRootHasTwoPaths(g: Graph, r: Id, a: Id)
    requires r in g && Reachable(g, r, a) && Names(g, a, r)
    ensures !UniquePath(g, r, r)
  {
    var p :| Path(g, r, a, p);
    PathExtends(g, r, a, r, p);
    assert Path(g, r, r, [r]);
    assert |p + [r]| != |[r]|;
  }

  /** The root of a rooted tree is its only unnamed node. */
  lemma TreeHasOneRoot(g: Graph, r: Id)
    requires TreeFrom(g, r)
    ensures IsRoot(g, r)
    ensures forall v :: v in g && IsRoot(g, v) ==> v == r
  {
    forall a ensures !Names(g, a, r) {
      if Names(g, a, r) {
        NamedRootHasTwoPaths(g, r, a);
      }
    }
    forall v | v in g && v != r ensures !IsRoot(g, v) {
      var p :| Path(g, r, v, p);
      assert Names(g, p[|p| - 2], p[|p| - 2 + 1]);
    }
  }

  /** A set that holds the root and is closed under edges holds everything reachable. */
  lemma {:induction false} ClosedHoldsReachable(g: Graph, r: Id, v: Id, p: seq<Id>, s: set<Id>)
    requires Path(g, r, v, p) && r in s
    requires forall a, b :: a in s && b in g && Names(g, a, b) ==> b in s
    ensures v in s
    decreases |p|
  {
    if |p| > 1 {
      PathPrefix(g, r, v, p, |p| - 2);
      ClosedHoldsReachable(g, r, p[|p| - 2], p[..|p| - 1], s);
      assert Names(g, p[|p| - 2], p[|p| - 2 + 1]);
    }
  }

  // ----- the search

  /** `queue` lists the set `waiting`, each node once. */
  ghost predicate Lists(queue: seq<Id>, waiting: set<Id>) {
    Ordering.Distinct(queue) && forall v :: v in waiting <==> v in queue
  }

  ghost predicate NamedBy(g: Graph, s: set<Id>, b: Id) { exists a :: a in s && Names(g, a, b) }

  lemma OnlyNamer(g: Graph, s: set<Id>, id: Id, c: Id)
    requires NamedOnce(g) && Names(g, id, c) && NamedBy(g, s, c)
    ensures id in s
  {
    var a :| a in s && Names(g, a, c);
  }

  /** What the search keeps: nothing waits that was seen, every child of a seen node
      waits or was seen, and every waiting or seen node but the root was named by a seen
      node and is reachable. */
  ghost predicate Frontier(g: Graph, r: Id, seen: set<Id>, waiting: set<Id>) {
    && seen + waiting <= g.Keys && seen !! waiting && r in seen + waiting
    && (forall a :: a in seen ==> Feeds(g, a) && Kids(g, a) <= seen + waiting)
    && (forall b {:trigger NamedBy(g, seen, b)} :: b in seen + waiting && b != r ==> NamedBy(g, seen, b))
    && (forall b {:trigger Reachable(g, r, b)} :: b in seen + waiting ==> Reachable(g, r, b))
  }

  /** The children of a waiting node neither wait nor were seen: a seen node would have
      named them too. */
  lemma KidsAreFresh(g: Graph, r: Id, seen: set<Id>, waiting: set<Id>, id: Id)
    requires NamedOnce(g) && IsRoot(g, r) && Frontier(g, r, seen, waiting) && id in waiting
    ensures Kids(g, id) !! seen + waiting
  {
    forall c | c in Kids(g, id) ensures c !in seen + waiting {
      assert Names(g, id, c) && c != r;
      if c in seen + waiting {
        assert NamedBy(g, seen, c);
        OnlyNamer(g, seen, id, c);
      }
    }
  }

  lemma ExpandKeeps(g: Graph, r: Id, seen: set<Id>, waiting: set<Id>, id: Id)
    requires Frontier(g, r, seen, waiting) && id in waiting && Feeds(g, id) && Kids(g, id) !! seen + waiting
    ensures Frontier(g, r, seen + {id}, waiting - {id} + Kids(g, id))
  {
    var seen', waiting' := seen + {id}, waiting - {id} + Kids(g, id);
    assert seen' + waiting' == seen + waiting + Kids(g, id);
    assert Reachable(g, r, id);
    forall b | b in seen' + waiting' ensures Reachable(g, r, b) {
      if b in Kids(g, id) { ReachExtends(g, r, id, b); }
    }
    forall b | b in seen' + waiting' && b != r ensures NamedBy(g, seen', b) {
      if b in seen + waiting {
        assert NamedBy(g, seen, b);
        var a :| a in seen && Names(g, a, b);
        assert a in seen';
      } else {
        assert id in seen' && Names(g, id, b);
      }
    }
  }

  lemma PopLists(queue: seq<Id>, waiting: set<Id>)
    requires Lists(queue, waiting) && |queue| > 0
    ensures queue[|queue| - 1] in waiting && Lists(queue[..|queue| - 1], waiting - {queue[|queue| - 1]})
  {
    var rest, id := queue[..|queue| - 1], queue[|queue| - 1];
    assert queue == rest + [id];
    forall v | v in rest ensures v != id {
      var i :| 0 <= i < |rest| && rest[i] == v;
      assert queue[i] == v;
    }
  }

  lemma PushLists(queue: seq<Id>, waiting: set<Id>, c: Id)
    requires Lists(queue, waiting) && c !in waiting
    ensures Lists(queue + [c], waiting + {c})
  {
    forall i | 0 <= i < |queue| ensures queue[i] != c { assert queue[i] in queue; }
  }

  /** Push the supplied children of the popped node `id` and count them. */
  method Expand(g: Graph, id: Id, before: seq<Id>, ghost waiting: set<Id>) returns (queue: seq<Id>, provided: nat)
    requires NamedOnce(g) && id in g && Lists(before, waiting) && Kids(g, id) !! waiting
    ensures Lists(queue, waiting + Kids(g, id))
    ensures provided == 0 <==> Kids(g, id) == {}
  {
    queue, provided := before, 0;
    ghost var pushed: set<Id> := {};
    var todo := g[id].Keys;
    while todo != {}
      invariant todo <= g[id].Keys
      invariant forall c :: c in pushed <==> c in g && exists k :: k in g[id] && k !in todo && g[id][k] == c
      invariant Lists(queue, waiting + pushed)
      invariant provided == 0 <==> pushed == {}
    {
      var k :| k in todo;
      var c := g[id][k];
      assert c in g[id].Values;
      if c in g {
        assert Injective(g[id]);
        PushLists(queue, waiting + pushed, c);
        assert waiting + pushed + {c} == waiting + (pushed + {c});
        queue := queue + [c];
        provided := provided + 1;
        pushed := pushed + {c};
      }
      todo := todo - {k};
    }
    assert pushed == Kids(g, id);
  }

  /** One turn of the loop: pop a node and push its children. The cycle branch is kept as
      the source has it and proved dead. */
  method Visit(g: Graph, r: Id, seen: set<Id>, queue: seq<Id>, ghost waiting: set<Id>)
    returns (v: Verdict, seen': set<Id>, queue': seq<Id>, ghost waiting': set<Id>)
    requires NamedOnce(g) && IsRoot(g, r) && Frontier(g, r, seen, waiting) && Lists(queue, waiting) && |queue| > 0
    ensures v == Accepted ==>
      Frontier(g, r, seen', waiting') && Lists(queue', waiting') && |seen| < |seen'| <= |g|
    ensures v != Accepted ==> v == Rejected(MissingDescendant) && !EveryInternalFeeds(g)
  {
    PopLists(queue, waiting);
    var id := queue[|queue| - 1];
    queue' := queue[..|queue| - 1];
    if id in seen {
      assert false;
      return Rejected(Cycle), seen, queue, waiting;
    }
    KidsAreFresh(g, r, seen, waiting, id);
    var provided;
    queue', provided := Expand(g, id, queue', waiting - {id});
    if |g[id]| > 0 && provided == 0 {
      assert !Feeds(g, id);
      return Rejected(MissingDescendant), seen, queue, waiting;
    }
    ExpandKeeps(g, r, seen, waiting, id);
    v, seen', waiting' := Accepted, seen + {id}, waiting - {id} + Kids(g, id);
    SubsetIsSmaller(seen', g.Keys);
  }

  /** The stack search from the only unnamed node. */
  method Search(g: Graph, r: Id) returns (v: Verdict)
    requires NamedOnce(g) && IsRoot(g, r)
    ensures v == Accepted <==> (forall a :: a in g ==> Reachable(g, r, a)) && EveryInternalFeeds(g)
    ensures v != Rejected(Cycle)
  {
    var queue := [r];
    var seen: set<Id> := {};
    ghost var waiting := {r};
    assert Path(g, r, r, [r]);
    while |queue| > 0
      invariant Frontier(g, r, seen, waiting) && Lists(queue, waiting)
      decreases |g| - |seen|
    {
      v, seen, queue, waiting := Visit(g, r, seen, queue, waiting);
      if v != Accepted {
        return;
      }
    }
    assert waiting == {};
    SearchComplete(g, r, seen);
    if |seen| != |g| {
      return Rejected(Disconnected);
    }
    return Accepted;
  }

  lemma SearchComplete(g: Graph, r: Id, seen: set<Id>)
    requires IsRoot(g, r) && Frontier(g, r, seen, {})
    ensures |seen| == |g| <==> (forall a :: a in g ==> Reachable(g, r, a))
    ensures |seen| == |g| ==> EveryInternalFeeds(g)
  {
    if |seen| == |g| { SubsetOfSameSize(seen, g.Keys); }
    if forall a :: a in g ==> Reachable(g, r, a) {
      forall a | a in g ensures a in seen {
        var p :| Path(g, r, a, p);
        ClosedHoldsReachable(g, r, a, p, seen);
      }
      assert seen == g.Keys;
    }
  }

  // ----- the checker

  method CheckDistinct(flat: seq<Node>) returns (ok: bool)
    ensures ok <==> Distinct(flat)
  {
    var seen: set<Id> := {};
    for i := 0 to |flat|
      invariant forall a :: a in seen <==> exists j :: 0 <= j < i && flat[j].id == a
      invariant forall j, k :: 0 <= j < k < i ==> flat[j].id != flat[k].id
    {
      if flat[i].id in seen {
        return false;
      }
      seen := seen + {flat[i].id};
    }
    return true;
  }

  method Roots(flat: seq<Node>, parents: map<Id, nat>) returns (roots: seq<Id>)
    requires Distinct(flat)
    ensures forall v :: v in roots <==> v in ById(flat) && v !in parents
    ensures Ordering.Distinct(roots)
  {
    ByIdLooksUp(flat);
    roots := [];
    for i := 0 to |flat|
      invariant forall v :: v in roots <==> exists j :: 0 <= j < i && flat[j].id == v && v !in parents
      invariant Ordering.Distinct(roots)
    {
      if flat[i].id !in parents {
        roots := roots + [flat[i].id];
      }
    }
  }

  lemma TreeRootCount(g: Graph, roots: seq<Id>)
    requires Ordering.Distinct(roots) && forall v :: v in roots <==> IsRoot(g, v)
    ensures RootedTree(g) ==> |roots| == 1
  {
    if t :| TreeFrom(g, t) {
      TreeHasOneRoot(g, t);
      assert t in roots;
      forall i | 0 <= i < |roots| ensures roots[i] in {t} {
        assert roots[i] in roots && IsRoot(g, roots[i]);
      }
      DistinctFit(roots, {t});
    }
  }

  /** Of nodes that are canonical, canonicalSpendingRenewalTree accepts exactly the acceptable
      graphs, and it never reports a cycle. */
  method CheckRenewalTree(flat: seq<Node>) returns (v: Verdict)
    ensures v == Accepted <==> Acceptable(flat)
    ensures v != Rejected(Cycle)
  {
    if |flat| == 0 || |flat| > MAX_NODES {
      return Rejected(TreeSize);
    }
    var distinct := CheckDistinct(flat);
    if !distinct {
      return Rejected(Duplicate);
    }
    for i := 0 to |flat|
      invariant forall j :: 0 <= j < i ==> ShapeOk(flat[j])
    {
      v := CheckShape(flat[i]);
      if v != Accepted {
        return;
      }
    }
    var once, parents := CountParents(flat);
    if !once {
      return Rejected(RepeatedChild);
    }
    var g := ById(flat);
    var roots := Roots(flat, parents);
    TreeRootCount(g, roots);
    if |roots| != 1 {
      return Rejected(RootCount);
    }
    assert roots[0] in roots;
    RootMeans(g, roots[0]);
    v := Search(g, roots[0]);
  }

  /** With one unnamed node, being a rooted tree is everything being reachable from it. */
  lemma RootMeans(g: Graph, r: Id)
    requires NamedOnce(g) && IsRoot(g, r)
    ensures RootedTree(g) <==> forall a :: a in g ==> Reachable(g, r, a)
  {
    if RootedTree(g) {
      var t :| TreeFrom(g, t);
      TreeHasOneRoot(g, t);
      assert r == t;
    }
    if forall a :: a in g ==> Reachable(g, r, a) {
      forall v | v in g ensures UniquePath(g, r, v) {
        forall p, q | Path(g, r, v, p) && Path(g, r, v, q) ensures p == q {
          PathsAgree(g, r, v, p, q);
        }
      }
      assert TreeFrom(g, r);
    }
  }

  // ----- consequence: every accepted node leads to a supplied leaf

  lemma RepeatGivesTwoPaths(g: Graph, r: Id, v: Id, p: seq<Id>, i: nat, j: nat)
    requires Path(g, r, v, p) && i < j < |p| && p[i] == p[j]
    ensures !UniquePath(g, r, p[i])
  {
    PathPrefix(g, r, v, p, i);
    PathPrefix(g, r, v, p, j);
    assert |p[..i + 1]| != |p[..j + 1]|;
  }

  lemma PathVisitsOnce(g: Graph, r: Id, v: Id, p: seq<Id>)
    requires TreeFrom(g, r) && Path(g, r, v, p)
    ensures Ordering.Distinct(p) && |p| <= |g|
  {
    forall i, j | 0 <= i < j < |p| ensures p[i] != p[j] {
      if p[i] == p[j] {
        RepeatGivesTwoPaths(g, r, v, p, i, j);
      }
    }
    DistinctFit(p, g.Keys);
  }

  lemma {:induction false} DistinctFit(p: seq<Id>, s: set<Id>)
    requires Ordering.Distinct(p) && forall i :: 0 <= i < |p| ==> p[i] in s
    ensures |p| <= |s|
  {
    if |p| > 0 {
      DistinctFit(p[1..], s - {p[0]});
    }
  }

  ghost predicate LeadsToLeaf(g: Graph, v: Id) {
    exists leaf, p :: Path(g, v, leaf, p) && leaf in g && g[leaf] == map[]
  }

  /** From every node of an accepted graph a path of supplied nodes ends in a leaf. */
  lemma {:induction false} AcceptedLeadsToLeaf(g: Graph, r: Id, v: Id, p: seq<Id>)
    requires TreeFrom(g, r) && EveryInternalFeeds(g) && Path(g, r, v, p)
    ensures LeadsToLeaf(g, v)
    decreases |g| - |p|
  {
    PathVisitsOnce(g, r, v, p);
    if g[v] == map[] {
      assert Path(g, v, v, [v]);
    } else {
      var c :| c in Kids(g, v);
      assert Names(g, v, c);
      PathExtends(g, r, v, c, p);
      PathVisitsOnce(g, r, c, p + [c]);
      AcceptedLeadsToLeaf(g, r, c, p + [c]);
      var leaf, q :| Path(g, c, leaf, q) && leaf in g && g[leaf] == map[];
      var full := [v] + q;
      forall i | 0 <= i < |full| - 1 ensures Names(g, full[i], full[i + 1]) {
        if i > 0 { assert full[i] == q[i - 1] && full[i + 1] == q[i - 1 + 1]; }
      }
      assert Path(g, v, leaf, full);
    }
  }

  lemma AcceptableLeadsToLeaf(flat: seq<Node>, v: Id)
    requires Acceptable(flat) && v in ById(flat)
    ensures LeadsToLeaf(ById(flat), v)
  {
    var g := ById(flat);
    var r :| TreeFrom(g, r);
    var p :| Path(g, r, v, p);
    AcceptedLeadsToLeaf(g, r, v, p);
  }
}
