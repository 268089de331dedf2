/** The canonical bytes of a final boarding request: the tree nodes are checked and sorted,
    every field is length-prefixed, and a decoder recovers the whole request. */
module FinalDigest {
  import opened Basics
  import Ordering
  import opened ByteCodec

  const DOMAIN := "arkade-vault/vault-board-v1-final-request/v1"
  const MAX_TX := 256 * 1024
  const MAX_TREE := 0x10_0000
  const MAX_BATCH := 256
  const CHILD_SIZE := 72

  /** Child transactions by output index. */
  datatype Node = Node(txid: Bytes, tx: Bytes, children: map<nat, Bytes>)

  datatype Request = Request(
    batch: Bytes, signed: Bytes, unsigned: Bytes, expiry: nat, input: nat, script: Bytes, amount: i64)

  // ----- canonical nodes

  /** `parse` is the txid of the canonical PSBT a node carries, if it is one. */
  predicate ValidNode(parse: Bytes -> Option<Bytes>, n: Node) {
    && ValidTxid(n.txid) && 0 < |n.tx| <= MAX_TX && parse(n.tx) == Some(n.txid)
    && forall i :: i in n.children ==> i < U32 && ValidTxid(n.children[i])
  }

  function Size(n: Node): int { |n.tx| + |n.txid| + |n.children| * CHILD_SIZE }

  predicate ByTxid(a: Node, b: Node) { Ordering.Less(a.txid, b.txid) }

  ghost predicate DistinctTxids(nodes: seq<Node>) {
    forall i, j :: 0 <= i < j < |nodes| ==> nodes[i].txid != nodes[j].txid
  }

  ghost predicate Acceptable(parse: Bytes -> Option<Bytes>, nodes: seq<Node>) {
    && 1 <= |nodes| <= MAX_NODES && (forall n :: n in nodes ==> ValidNode(parse, n))
    && DistinctTxids(nodes) && Ordering.SumOf(Size, nodes) <= MAX_TREE
  }

  ghost predicate Canonical(nodes: seq<Node>, out: seq<Node>) {
    multiset(out) == multiset(nodes) && Ordering.Sorted(ByTxid, out)
  }

  lemma TxidsOrder(nodes: seq<Node>)
    requires DistinctTxids(nodes)
    ensures Ordering.Orders(ByTxid, nodes) && Ordering.Distinct(nodes)
  {
    forall a, b, c | a in nodes && b in nodes && c in nodes
      ensures !ByTxid(a, a)
      ensures a != b ==> ByTxid(a, b) || ByTxid(b, a)
      ensures ByTxid(a, b) && ByTxid(b, c) ==> ByTxid(a, c)
    {
      Ordering.LessIrreflexive(a.txid);
      Ordering.LessTotal(a.txid, b.txid);
      if ByTxid(a, b) && ByTxid(b, c) { Ordering.LessTransitive(a.txid, b.txid, c.txid); }
    }
  }

  method CheckNode(parse: Bytes -> Option<Bytes>, node: Node) returns (ok: bool)
    requires forall i :: i in node.children ==> i < U32
    ensures ok <==> ValidNode(parse, node)
  {
    if !ValidTxid(node.txid) || |node.tx| == 0 || |node.tx| > MAX_TX || parse(node.tx) != Some(node.txid) {
      return false;
    }
    return forall index :: index in node.children ==> ValidTxid(node.children[index]);
  }

  /** What the loop over the nodes has established before node `i`. */
  ghost predicate Checked(parse: Bytes -> Option<Bytes>, flat: seq<Node>, i: nat, seen: set<Bytes>, total: nat)
    requires i <= |flat|
  {
    && (forall k :: 0 <= k < i ==> ValidNode(parse, flat[k]) && flat[k].txid in seen)
    && (forall t :: t in seen ==> exists k :: 0 <= k < i && flat[k].txid == t)
    && (forall k, l :: 0 <= k < l < i ==> flat[k].txid != flat[l].txid)
    && total == Ordering.SumOf(Size, flat[..i]) <= MAX_TREE
  }

  lemma CheckedSize(flat: seq<Node>, i: nat, total: nat)
    requires i < |flat| && total == Ordering.SumOf(Size, flat[..i])
    ensures total + Size(flat[i]) == Ordering.SumOf(Size, flat[..i + 1])
    ensures total + Size(flat[i]) > MAX_TREE ==> Ordering.SumOf(Size, flat) > MAX_TREE
  {
    assert flat[..i + 1][..i] == flat[..i];
    Ordering.SumOfPrefix(Size, flat, i + 1);
  }

  lemma InvalidNode(parse: Bytes -> Option<Bytes>, flat: seq<Node>, i: nat)
    requires i < |flat| && !ValidNode(parse, flat[i])
    ensures !Acceptable(parse, flat)
  {
    assert flat[i] in flat;
  }

  lemma SeenTwice(parse: Bytes -> Option<Bytes>, flat: seq<Node>, i: nat, seen: set<Bytes>, total: nat)
    requires i < |flat| && Checked(parse, flat, i, seen, total) && flat[i].txid in seen
    ensures !Acceptable(parse, flat)
  {
    var k :| 0 <= k < i && flat[k].txid == flat[i].txid;
  }

  lemma CheckedNext(parse: Bytes -> Option<Bytes>, flat: seq<Node>, i: nat, seen: set<Bytes>, total: nat)
    requires i < |flat| && Checked(parse, flat, i, seen, total) && ValidNode(parse, flat[i]) && flat[i].txid !in seen
    requires total + Size(flat[i]) == Ordering.SumOf(Size, flat[..i + 1]) <= MAX_TREE
    ensures Checked(parse, flat, i + 1, seen + {flat[i].txid}, total + Size(flat[i]))
  {
    var later := seen + {flat[i].txid};
    forall t | t in later ensures exists k :: 0 <= k < i + 1 && flat[k].txid == t {
      if t in seen {
        var k :| 0 <= k < i && flat[k].txid == t;
      } else {
        assert flat[i].txid == t;
      }
    }
  }

  lemma CheckedAll(parse: Bytes -> Option<Bytes>, flat: seq<Node>, seen: set<Bytes>, total: nat)
    requires 1 <= |flat| <= MAX_NODES && Checked(parse, flat, |flat|, seen, total)
    ensures Acceptable(parse, flat)
  {
    assert flat[..|flat|] == flat;
  }

  /** The loop of canonicalVaultBoardTreeNodes: every node well formed, no txid twice, and
      the whole within bounds. */
  method CheckNodes(parse: Bytes -> Option<Bytes>, flat: seq<Node>) returns (ok: bool)
    requires forall k :: 0 <= k < |flat| ==> forall i :: i in flat[k].children ==> i < U32
    ensures ok <==> Acceptable(parse, flat)
  {
    if |flat| == 0 || |flat| > MAX_NODES {
      return false;
    }
    var total: nat := 0;
    var seen: set<Bytes> := {};
    for i := 0 to |flat|
      invariant Checked(parse, flat, i, seen, total)
    {
      var node := flat[i];
      var valid := CheckNode(parse, node);
      if !valid {
        InvalidNode(parse, flat, i);
        return false;
      }
      if node.txid in seen {
        SeenTwice(parse, flat, i, seen, total);
        return false;
      }
      CheckedSize(flat, i, total);
      if total + Size(node) > MAX_TREE {
        return false;
      }
      CheckedNext(parse, flat, i, seen, total);
      seen := seen + {node.txid};
      total := total + Size(node);
    }
    CheckedAll(parse, flat, seen, total);
    return true;
  }

  /** canonicalVaultBoardTreeNodes */
  method CanonicalTreeNodes(parse: Bytes -> Option<Bytes>, flat: seq<Node>) returns (out: Option<seq<Node>>)
    requires forall k :: 0 <= k < |flat| ==> forall i :: i in flat[k].children ==> i < U32
    ensures out.Some? <==> Acceptable(parse, flat)
    ensures out.Some? ==> Canonical(flat, out.value)
  {
    var ok := CheckNodes(parse, flat);
    if !ok {
      return None;
    }
    TxidsOrder(flat);
    var sorted := Ordering.Sort(ByTxid, flat);
    return Some(sorted);
  }

  /** The canonical list does not depend on the order in which the nodes were supplied. */
  lemma CanonicalIsOrderFree(parse: Bytes -> Option<Bytes>, a: seq<Node>, b: seq<Node>, out: seq<Node>, other: seq<Node>)
    requires multiset(a) == multiset(b) && Acceptable(parse, a)
    requires Canonical(a, out) && Canonical(b, other)
    ensures out == other && Acceptable(parse, b)
  {
    TxidsOrder(a);
    Ordering.SameElements(a, b);
    Ordering.SameElements(a, out);
    Ordering.OrdersPart(ByTxid, a, out);
    Ordering.SortedUnique(ByTxid, out, other);
    Ordering.SumIsOrderFree(Size, a, b);
    Ordering.DistinctByMultiset(a, b);
    forall i, j | 0 <= i < j < |b| ensures b[i].txid != b[j].txid {
      assert b[i] in a && b[j] in a && b[i] != b[j];
      var k :| 0 <= k < |a| && a[k] == b[i];
      var l :| 0 <= l < |a| && a[l] == b[j];
      assert k != l;
    }
  }

  // ----- the children of a node in index order

  predicate Ascending(r: seq<nat>) { forall i, j :: 0 <= i < j < |r| ==> r[i] < r[j] }

  function InsertKey(a: nat, r: seq<nat>): seq<nat> {
    if |r| == 0 then [a] else if a < r[0] then [a] + r else [r[0]] + InsertKey(a, r[1..])
  }

  lemma {:induction false} InsertKeySorts(a: nat, r: seq<nat>)
    requires Ascending(r) && a !in r
    ensures Ascending(InsertKey(a, r)) && |InsertKey(a, r)| == |r| + 1
    ensures forall x :: x in InsertKey(a, r) <==> x == a || x in r
  {
    if |r| > 0 && a >= r[0] {
      var more := InsertKey(a, r[1..]);
      InsertKeySorts(a, r[1..]);
      assert r == [r[0]] + r[1..];
      forall j | 0 <= j < |more| ensures r[0] < more[j] { assert more[j] in more; }
    }
  }

  /** The elements of a set in ascending order. */
  ghost function SortedKeys(s: set<nat>): (r: seq<nat>)
    decreases |s|
  {
    if s == {} then [] else var a :| a in s; InsertKey(a, SortedKeys(s - {a}))
  }

  lemma {:induction false} SortedKeysSorts(s: set<nat>)
    ensures Ascending(SortedKeys(s)) && |SortedKeys(s)| == |s| && forall x :: x in SortedKeys(s) <==> x in s
    decreases |s|
  {
    if s != {} {
      var a :| a in s && SortedKeys(s) == InsertKey(a, SortedKeys(s - {a}));
      SortedKeysSorts(s - {a});
      InsertKeySorts(a, SortedKeys(s - {a}));
    }
  }

  datatype Child = Child(index: nat, txid: Bytes)

  ghost function Children(n: map<nat, Bytes>, keys: seq<nat>): seq<Child> {
    seq(|keys|, i requires 0 <= i < |keys| => Child(keys[i], if keys[i] in n then n[keys[i]] else ""))
  }

  function ToMap(children: seq<Child>): map<nat, Bytes> {
    if |children| == 0 then map[] else ToMap(children[..|children| - 1])[children[|children| - 1].index := children[|children| - 1].txid]
  }

  lemma {:induction false} ToMapOf(n: map<nat, Bytes>, keys: seq<nat>)
    requires forall k :: k in keys ==> k in n
    ensures ToMap(Children(n, keys)) == map k | k in n && k in keys :: n[k]
  {
    if |keys| > 0 {
      var front, last := keys[..|keys| - 1], keys[|keys| - 1];
      ToMapOf(n, front);
      assert Children(n, keys)[..|keys| - 1] == Children(n, front);
      assert forall k :: k in keys <==> k in front || k == last;
    }
  }

  lemma ChildrenDetermineMap(n: map<nat, Bytes>)
    ensures ToMap(Children(n, SortedKeys(n.Keys))) == n
  {
    SortedKeysSorts(n.Keys);
    ToMapOf(n, SortedKeys(n.Keys));
  }

  // ----- the encoding; every writer is given what follows

  ghost function EncodeChild(c: Child, rest: Bytes): Bytes { Word(c.index, Field(c.txid, rest)) }

  /** A node as it is written: its children listed by ascending index. */
  datatype Flat = Flat(txid: Bytes, tx: Bytes, children: seq<Child>)

  ghost function FlatOf(n: Node): Flat { Flat(n.txid, n.tx, Children(n.children, SortedKeys(n.children.Keys))) }

  function NodeOf(f: Flat): Node { Node(f.txid, f.tx, ToMap(f.children)) }

  ghost function Flats(nodes: seq<Node>): seq<Flat> { seq(|nodes|, i requires 0 <= i < |nodes| => FlatOf(nodes[i])) }

  function NodesOf(flats: seq<Flat>): seq<Node> { seq(|flats|, i requires 0 <= i < |flats| => NodeOf(flats[i])) }

  lemma FlatsDetermineNodes(nodes: seq<Node>)
    ensures NodesOf(Flats(nodes)) == nodes
  {
    forall i | 0 <= i < |nodes| ensures NodeOf(FlatOf(nodes[i])) == nodes[i] {
      ChildrenDetermineMap(nodes[i].children);
    }
  }

  ghost function EncodeFlat(f: Flat, rest: Bytes): Bytes {
    Field(f.txid, Field(f.tx, Word(|f.children|, EncodeMany(EncodeChild, f.children, rest))))
  }

  ghost function EncodeTail(r: Request): Bytes { Field(r.script, LittleEndian(AsU64(r.amount), 8)) }

  ghost function EncodeNumbers(r: Request, count: nat, rest: Bytes): Bytes {
    Word(count, Word(r.expiry, Word(r.input, rest)))
  }

  ghost function EncodeHead(r: Request, rest: Bytes): Bytes {
    Field(DOMAIN, Field(r.batch, Field(r.signed, Field(r.unsigned, rest))))
  }

  ghost function EncodeFlatRequest(r: Request, flats: seq<Flat>): Bytes {
    EncodeHead(r, EncodeNumbers(r, |flats|, EncodeMany(EncodeFlat, flats, EncodeTail(r))))
  }

  /** What vaultBoardFinalRequestDigest hashes. */
  ghost function Preimage(r: Request, nodes: seq<Node>): Bytes {
    EncodeFlatRequest(r, Flats(nodes))
  }

  // ----- the decoder

  function ReadChild(b: Bytes): Option<Read<Child>> {
    var index := ReadInt(b, 4);
    if index.None? then None
    else
      var txid := ReadField(index.value.rest);
      if txid.None? then None else Some(Read(Child(index.value.value, txid.value.value), txid.value.rest))
  }

  function ReadFlat(b: Bytes): Option<Read<Flat>> {
    var txid := ReadField(b);
    if txid.None? then None
    else
      var tx := ReadField(txid.value.rest);
      if tx.None? then None
      else
        var count := ReadInt(tx.value.rest, 4);
        if count.None? then None
        else
          var children := ReadMany(ReadChild, count.value.rest, count.value.value);
          if children.None? then None
          else Some(Read(Flat(txid.value.value, tx.value.value, children.value.value), children.value.rest))
  }

  datatype Head = Head(domain: Bytes, batch: Bytes, signed: Bytes, unsigned: Bytes)

  function ReadHead(b: Bytes): Option<Read<Head>> {
    var domain := ReadField(b);
    if domain.None? then None
    else
      var batch := ReadField(domain.value.rest);
      if batch.None? then None
      else
        var signed := ReadField(batch.value.rest);
        if signed.None? then None
        else
          var unsigned := ReadField(signed.value.rest);
          if unsigned.None? then None
          else Some(Read(Head(domain.value.value, batch.value.value, signed.value.value, unsigned.value.value), unsigned.value.rest))
  }

  datatype Numbers = Numbers(count: nat, expiry: nat, input: nat)

  function ReadNumbers(b: Bytes): Option<Read<Numbers>> {
    var count := ReadInt(b, 4);
    if count.None? then None
    else
      var expiry := ReadInt(count.value.rest, 4);
      if expiry.None? then None
      else
        var input := ReadInt(expiry.value.rest, 4);
        if input.None? then None
        else Some(Read(Numbers(count.value.value, expiry.value.value, input.value.value), input.value.rest))
  }

  datatype Decoded = Decoded(request: Request, nodes: seq<Node>)

  function Decode(b: Bytes): Option<Decoded> {
    var head := ReadHead(b);
    if head.None? || head.value.value.domain != DOMAIN then None
    else
      var numbers := ReadNumbers(head.value.rest);
      if numbers.None? then None
      else
        var flats := ReadMany(ReadFlat, numbers.value.rest, numbers.value.value.count);
        if flats.None? then None
        else DecodeTail(head.value.value, numbers.value.value, flats.value.value, flats.value.rest)
  }

  function DecodeTail(h: Head, n: Numbers, flats: seq<Flat>, b: Bytes): Option<Decoded> {
    var script := ReadField(b);
    if script.None? then None
    else
      var amount := ReadInt(script.value.rest, 8);
      if amount.None? || amount.value.value > MAX_U64 || amount.value.rest != [] then None
      else
        var r := Request(h.batch, h.signed, h.unsigned, n.expiry, n.input, script.value.value, AsI64(amount.value.value));
        Some(Decoded(r, NodesOf(flats)))
  }

  // ----- the decoder undoes the encoder

  ghost predicate FittingNode(n: Node) {
    && |n.txid| < U32 && |n.tx| < U32 && |n.children| < U32
    && forall i :: i in n.children ==> i < U32 && |n.children[i]| < U32
  }

  ghost predicate FittingFlat(f: Flat) {
    && |f.txid| < U32 && |f.tx| < U32 && |f.children| < U32
    && forall c :: c in f.children ==> c.index < U32 && |c.txid| < U32
  }

  lemma FlatsFit(nodes: seq<Node>)
    requires forall n :: n in nodes ==> FittingNode(n)
    ensures forall f :: f in Flats(nodes) ==> FittingFlat(f)
  {
    forall i | 0 <= i < |nodes| ensures FittingFlat(FlatOf(nodes[i])) {
      assert nodes[i] in nodes;
      SortedKeysSorts(nodes[i].children.Keys);
    }
  }

  /** The sizes the verification of a request guarantees. */
  ghost predicate Fitting(r: Request, nodes: seq<Node>) {
    && |r.batch| < U32 && |r.signed| < U32 && |r.unsigned| < U32 && |r.script| < U32
    && r.expiry < U32 && r.input < U32 && |nodes| < U32
    && forall n :: n in nodes ==> FittingNode(n)
  }

  lemma {:induction false} ReadsChild(c: Child, rest: Bytes)
    requires c.index < U32 && |c.txid| < U32
    ensures ReadChild(EncodeChild(c, rest)) == Some(Read(c, rest))
  {
    ReadsField(c.txid, rest);
    ReadsWord(c.index, Field(c.txid, rest));
  }

  lemma {:induction false} ReadsFlat(f: Flat, rest: Bytes)
    requires FittingFlat(f)
    ensures ReadFlat(EncodeFlat(f, rest)) == Some(Read(f, rest))
  {
    var tail := EncodeMany(EncodeChild, f.children, rest);
    var counted := Word(|f.children|, tail);
    forall c, r | c in f.children ensures ReadChild(EncodeChild(c, r)) == Some(Read(c, r)) { ReadsChild(c, r); }
    ReadsMany(ReadChild, EncodeChild, f.children, rest);
    ReadsWord(|f.children|, tail);
    ReadsField(f.tx, counted);
    ReadsField(f.txid, Field(f.tx, counted));
  }

  lemma {:induction false} ReadsHead(r: Request, rest: Bytes)
    requires |r.batch| < U32 && |r.signed| < U32 && |r.unsigned| < U32
    ensures ReadHead(EncodeHead(r, rest)) == Some(Read(Head(DOMAIN, r.batch, r.signed, r.unsigned), rest))
  {
    var u := Field(r.unsigned, rest);
    var s := Field(r.signed, u);
    ReadsField(r.unsigned, rest);
    ReadsField(r.signed, u);
    ReadsField(r.batch, s);
    ReadsField(DOMAIN, Field(r.batch, s));
  }

  lemma {:induction false} ReadsNumbers(r: Request, count: nat, rest: Bytes)
    requires count < U32 && r.expiry < U32 && r.input < U32
    ensures ReadNumbers(EncodeNumbers(r, count, rest)) == Some(Read(Numbers(count, r.expiry, r.input), rest))
  {
    var i := Word(r.input, rest);
    ReadsWord(r.input, rest);
    ReadsWord(r.expiry, i);
    ReadsWord(count, Word(r.expiry, i));
  }

  lemma {:induction false} ReadsTail(r: Request, h: Head, n: Numbers, flats: seq<Flat>)
    requires |r.script| < U32
    requires h.batch == r.batch && h.signed == r.signed && h.unsigned == r.unsigned && n.expiry == r.expiry && n.input == r.input
    ensures DecodeTail(h, n, flats, EncodeTail(r)) == Some(Decoded(r, NodesOf(flats)))
  {
    var amount := LittleEndian(AsU64(r.amount), 8);
    ReadsField(r.script, amount);
    PowersOf256();
    ReadsInt(AsU64(r.amount), 8, []);
    assert amount + [] == amount;
  }

  /** The decoder recovers the whole request, nodes and child maps included. */
  lemma {:induction false} DecodeEncode(r: Request, nodes: seq<Node>)
    requires Fitting(r, nodes)
    ensures Decode(Preimage(r, nodes)) == Some(Decoded(r, nodes))
  {
    FlatsFit(nodes);
    DecodeFlatRequest(r, Flats(nodes));
    FlatsDetermineNodes(nodes);
  }

  lemma {:induction false} DecodeFlatRequest(r: Request, flats: seq<Flat>)
    requires |r.batch| < U32 && |r.signed| < U32 && |r.unsigned| < U32 && |r.script| < U32
    requires r.expiry < U32 && r.input < U32 && |flats| < U32 && forall f :: f in flats ==> FittingFlat(f)
    ensures Decode(EncodeFlatRequest(r, flats)) == Some(Decoded(r, NodesOf(flats)))
  {
    var tail := EncodeTail(r);
    var body := EncodeMany(EncodeFlat, flats, tail);
    var numbered := EncodeNumbers(r, |flats|, body);
    ReadsHead(r, numbered);
    ReadsNumbers(r, |flats|, body);
    ReadsAllFlats(flats, tail);
    var h, n := Head(DOMAIN, r.batch, r.signed, r.unsigned), Numbers(|flats|, r.expiry, r.input);
    ReadsTail(r, h, n, flats);
    DecodeInStages(EncodeHead(r, numbered), h, numbered, n, body, flats, tail);
  }

  lemma {:induction false} ReadsAllFlats(flats: seq<Flat>, rest: Bytes)
    requires forall f :: f in flats ==> FittingFlat(f)
    ensures ReadMany(ReadFlat, EncodeMany(EncodeFlat, flats, rest), |flats|) == Some(Read(flats, rest))
  {
    forall f, b | f in flats ensures ReadFlat(EncodeFlat(f, b)) == Some(Read(f, b)) { ReadsFlat(f, b); }
    ReadsMany(ReadFlat, EncodeFlat, flats, rest);
  }

  lemma DecodeInStages(b: Bytes, h: Head, b1: Bytes, n: Numbers, b2: Bytes, flats: seq<Flat>, b3: Bytes)
    requires ReadHead(b) == Some(Read(h, b1)) && h.domain == DOMAIN && ReadNumbers(b1) == Some(Read(n, b2))
    requires ReadMany(ReadFlat, b2, n.count) == Some(Read(flats, b3))
    ensures Decode(b) == DecodeTail(h, n, flats, b3)
  {
  }

  /** Two requests with equal preimages are the same request. */
  lemma PreimageIsInjective(a: Request, m: seq<Node>, b: Request, n: seq<Node>)
    requires Fitting(a, m) && Fitting(b, n) && Preimage(a, m) == Preimage(b, n)
    ensures a == b && m == n
  {
    DecodeEncode(a, m);
    DecodeEncode(b, n);
  }

  /** Permuting the supplied nodes never changes the preimage of an accepted request. */
  lemma PreimageIsOrderFree(parse: Bytes -> Option<Bytes>, r: Request, a: seq<Node>, b: seq<Node>, out: seq<Node>, other: seq<Node>)
    requires multiset(a) == multiset(b) && Acceptable(parse, a) && Canonical(a, out) && Canonical(b, other)
    ensures Preimage(r, out) == Preimage(r, other)
  {
    CanonicalIsOrderFree(parse, a, b, out, other);
  }

  /** The bounds a request has passed when it is accepted. */
  ghost predicate Accepted(parse: Bytes -> Option<Bytes>, r: Request, flat: seq<Node>) {
    && 0 < |r.batch| <= MAX_BATCH && |r.signed| <= MAX_TX && |r.unsigned| <= MAX_TX && 0 < |r.script| <= 10000
    && r.expiry < U32 && r.input < U32 && Acceptable(parse, flat)
  }

  lemma AcceptedFits(parse: Bytes -> Option<Bytes>, r: Request, flat: seq<Node>, out: seq<Node>)
    requires Accepted(parse, r, flat) && Canonical(flat, out)
    ensures Fitting(r, out)
  {
    Ordering.SameElements(flat, out);
    forall n | n in out ensures FittingNode(n) {
      assert n in flat && ValidNode(parse, n);
      var i :| 0 <= i < |flat| && flat[i] == n;
      Ordering.SumWithout(Size, flat, i);
      Ordering.SumIsNatural(Size, flat[..i] + flat[i + 1..]);
    }
  }

  /** Two accepted requests with equal preimages agree on batch, both PSBTs, expiry, input,
      receiver and the whole set of nodes with their children. */
  lemma AcceptedRequestsAgree(parse: Bytes -> Option<Bytes>, a: Request, flatA: seq<Node>, outA: seq<Node>,
                              b: Request, flatB: seq<Node>, outB: seq<Node>)
    requires Accepted(parse, a, flatA) && Canonical(flatA, outA)
    requires Accepted(parse, b, flatB) && Canonical(flatB, outB)
    requires Preimage(a, outA) == Preimage(b, outB)
    ensures a == b && multiset(flatA) == multiset(flatB)
  {
    AcceptedFits(parse, a, flatA, outA);
    AcceptedFits(parse, b, flatB, outB);
    PreimageIsInjective(a, outA, b, outB);
  }

  // ----- the writer

  predicate Below(a: nat, b: nat) { a < b }

  method SortIndexes(keys: set<nat>) returns (indexes: seq<nat>)
    ensures indexes == SortedKeys(keys)
  {
    var listed: seq<nat> := [];
    var todo := keys;
    while todo != {}
      invariant todo <= keys && Ordering.Distinct(listed) && forall x :: x in listed <==> x in keys && x !in todo
    {
      var x :| x in todo;
      listed := listed + [x];
      todo := todo - {x};
    }
    indexes := Ordering.Sort(Below, listed);
    Ordering.SameElements(indexes, listed);
    SortedKeysSorts(keys);
    Ordering.SameMultiset(indexes, SortedKeys(keys));
    Ordering.SortedUnique(Below, indexes, SortedKeys(keys));
  }

  method WriteNode(h: Bytes, node: Node, ghost rest: Bytes) returns (h': Bytes)
    ensures h' + rest == h + EncodeFlat(FlatOf(node), rest)
  {
    ghost var children := FlatOf(node).children;
    ghost var tail := EncodeMany(EncodeChild, children, rest);
    SortedKeysSorts(node.children.Keys);
    ghost var counted := Word(|node.children|, tail);
    h' := WriteField(h, node.txid, Field(node.tx, counted));
    h' := WriteField(h', node.tx, counted);
    h' := WriteWord(h', |node.children|, tail);
    var indexes := SortIndexes(node.children.Keys);
    ghost var whole := h + EncodeFlat(FlatOf(node), rest);
    for i := 0 to |indexes|
      invariant h' + EncodeMany(EncodeChild, children[i..], rest) == whole
    {
      var index := indexes[i];
      assert index in indexes;
      ghost var more := EncodeMany(EncodeChild, children[i + 1..], rest);
      assert children[i..][0] == Child(index, node.children[index]) && children[i..][1..] == children[i + 1..];
      h' := WriteWord(h', index, Field(node.children[index], more));
      h' := WriteField(h', node.children[index], more);
    }
  }

  datatype Recipient = Recipient(script: Bytes, amount: i64)

  datatype Evidence = Evidence(
    batch: Bytes, signed: Bytes, unsigned: Bytes, expiry: nat, inputs: seq<nat>, recipients: seq<Recipient>)

  function RequestOf(e: Evidence): Request
    requires |e.inputs| == 1 && |e.recipients| == 1
  {
    Request(e.batch, e.signed, e.unsigned, e.expiry, e.inputs[0], e.recipients[0].script, e.recipients[0].amount)
  }

  /** vaultBoardFinalRequestDigest, up to the hash. */
  method WriteFinalRequest(e: Evidence, nodes: seq<Node>) returns (preimage: Option<Bytes>)
    ensures preimage.Some? <==> |e.inputs| == 1 && |e.recipients| == 1
    ensures preimage.Some? ==> preimage.value == Preimage(RequestOf(e), nodes)
  {
    if |e.recipients| != 1 || |e.inputs| != 1 {
      return None;
    }
    ghost var r, flats := RequestOf(e), Flats(nodes);
    ghost var tail := EncodeTail(r);
    ghost var body := EncodeMany(EncodeFlat, flats, tail);
    ghost var numbered := EncodeNumbers(r, |nodes|, body);
    var h := WriteHead(e.batch, e.signed, e.unsigned, r, numbered);
    h := WriteNumbers(h, |nodes|, e.expiry, e.inputs[0], r, body);
    for i := 0 to |nodes|
      invariant h + EncodeMany(EncodeFlat, flats[i..], tail) == Preimage(r, nodes)
    {
      assert flats[i..][0] == FlatOf(nodes[i]) && flats[i..][1..] == flats[i + 1..];
      h := WriteNode(h, nodes[i], EncodeMany(EncodeFlat, flats[i + 1..], tail));
    }
    ghost var amount := LittleEndian(AsU64(e.recipients[0].amount), 8);
    h := WriteField(h, e.recipients[0].script, amount);
    h := h + LittleEndian(AsU64(e.recipients[0].amount), 8);
    return Some(h);
  }

  method WriteHead(batch: Bytes, signed: Bytes, unsigned: Bytes, ghost r: Request, ghost rest: Bytes) returns (h: Bytes)
    requires r.batch == batch && r.signed == signed && r.unsigned == unsigned
    ensures h + rest == EncodeHead(r, rest)
  {
    ghost var u := Field(unsigned, rest);
    ghost var s := Field(signed, u);
    h := WriteField([], DOMAIN, Field(batch, s));
    h := WriteField(h, batch, s);
    h := WriteField(h, signed, u);
    h := WriteField(h, unsigned, rest);
  }

  method WriteNumbers(h: Bytes, count: nat, expiry: nat, input: nat, ghost r: Request, ghost rest: Bytes) returns (h': Bytes)
    requires r.expiry == expiry && r.input == input
    ensures h' + rest == h + EncodeNumbers(r, count, rest)
  {
    ghost var i := Word(input, rest);
    h' := WriteWord(h, count, Word(expiry, i));
    h' := WriteWord(h', expiry, i);
    h' := WriteWord(h', input, rest);
  }
}
