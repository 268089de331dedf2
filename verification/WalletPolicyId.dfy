/** The Ledger wallet policy id: a Merkle root over the keys as in section 2.1 of RFC 6962,
    and a prefix-free serialization, both hashed.

    A hash with 32-byte results cannot be injective on all strings, so the claim that an id
    determines its policy is stated for hashes that are injective on what is hashed while
    the two ids are computed. */
module WalletPolicyId {
  import opened Basics
  import opened ByteCodec

  type Hash = Bytes -> Bytes

  ghost predicate Digests(hash: Hash) { forall x :: |hash(x)| == 32 }

  ghost predicate InjectiveOn(hash: Hash, s: set<Bytes>) {
    forall x, y :: x in s && y in s && hash(x) == hash(y) ==> x == y
  }

  const LEAF: Bytes := [0 as char]
  const INNER: Bytes := [1 as char]
  const VERSION: Bytes := [2 as char]

  // ----- the split

  ghost predicate PowerOfTwo(k: nat) { k == 1 || (k > 1 && k % 2 == 0 && PowerOfTwo(k / 2)) }

  /** The largest power of two smaller than n. */
  ghost predicate LargestBelow(k: nat, n: nat) {
    PowerOfTwo(k) && k < n && forall j: nat :: PowerOfTwo(j) && j < n ==> j <= k
  }

  lemma {:induction false} PowersAreApart(j: nat, k: nat)
    requires PowerOfTwo(j) && PowerOfTwo(k) && k < j
    ensures 2 * k <= j
  {
    if k > 1 { PowersAreApart(j / 2, k / 2); }
  }

  lemma HalfwayIsLargest(k: nat, n: nat)
    requires PowerOfTwo(k) && k < n <= 2 * k
    ensures LargestBelow(k, n)
  {
    forall j: nat | PowerOfTwo(j) && j < n ensures j <= k {
      if k < j { PowersAreApart(j, k); }
    }
  }

  /** The doubling loop. */
  method Split(n: nat) returns (split: nat)
    requires n >= 2
    ensures LargestBelow(split, n)
  {
    split := 1;
    while split * 2 < n
      invariant PowerOfTwo(split) && 1 <= split < n
    {
      assert (split * 2) / 2 == split;
      split := split * 2;
    }
    HalfwayIsLargest(split, n);
  }

  lemma {:induction false} LargestExists(n: nat)
    requires n >= 2
    ensures exists k: nat :: LargestBelow(k, n)
  {
    if n == 2 {
      HalfwayIsLargest(1, 2);
    } else {
      LargestExists(n - 1);
      var k: nat :| LargestBelow(k, n - 1);
      if n <= 2 * k {
        HalfwayIsLargest(k, n);
      } else {
        assert (2 * k) / 2 == k && PowerOfTwo(2 * k);
        assert 2 * k >= n - 1;
        HalfwayIsLargest(2 * k, n);
      }
    }
  }

  // ----- RFC 6962, section 2.1

  ghost function SplitOf(n: nat): (k: nat)
    requires n >= 2
    ensures LargestBelow(k, n) && 0 < k < n
  {
    LargestExists(n);
    var k: nat :| LargestBelow(k, n);
    k
  }

  /** The Merkle Tree Hash of a list. */
  ghost function TreeHash(hash: Hash, d: seq<Bytes>): Bytes
    decreases |d|
  {
    if |d| == 0 then hash([])
    else if |d| == 1 then hash(LEAF + d[0])
    else
      var k := SplitOf(|d|);
      hash(INNER + TreeHash(hash, d[..k]) + TreeHash(hash, d[k..]))
  }

  // ----- the root as it is computed

  function Leaves(hash: Hash, keys: seq<Bytes>): seq<Bytes> {
    seq(|keys|, i requires 0 <= i < |keys| => hash(LEAF + keys[i]))
  }

  const ZEROS: Bytes := LittleEndian(0, 32)

  /** The recursion over the leaves: RFC 6962 for every non-empty list. For an empty one the
      code takes 32 zero bytes where the RFC takes the hash of the empty string. */
  method Root(hash: Hash, keys: seq<Bytes>, leaves: seq<Bytes>) returns (root: Bytes)
    requires leaves == Leaves(hash, keys)
    ensures |keys| > 0 ==> root == TreeHash(hash, keys)
    ensures |keys| == 0 ==> root == ZEROS
    decreases |leaves|
  {
    if |leaves| == 0 {
      return ZEROS;
    }
    if |leaves| == 1 {
      return leaves[0];
    }
    var split := Split(|leaves|);
    SplitIsUnique(split, SplitOf(|leaves|), |leaves|);
    assert leaves[..split] == Leaves(hash, keys[..split]) && leaves[split..] == Leaves(hash, keys[split..]);
    var left := Root(hash, keys[..split], leaves[..split]);
    var right := Root(hash, keys[split..], leaves[split..]);
    root := hash(INNER + left + right);
  }

  lemma SplitIsUnique(a: nat, b: nat, n: nat)
    requires LargestBelow(a, n) && LargestBelow(b, n)
    ensures a == b
  {
  }

  // ----- the serialization

  /** Bitcoin's variable-length integer. */
  function VarInt(n: nat): Bytes {
    if n < 0xFD then [n as char]
    else if n <= 0xFFFF then [0xFD as char] + LittleEndian(n, 2)
    else if n < U32 then [0xFE as char] + LittleEndian(n, 4)
    else [0xFF as char] + LittleEndian(n % U64, 8)
  }

  function ReadVarInt(b: Bytes): Option<Read<nat>> {
    if |b| == 0 then None
    else if b[0] as int < 0xFD then Some(Read(b[0] as int, b[1..]))
    else ReadInt(b[1..], if b[0] as int == 0xFD then 2 else if b[0] as int == 0xFE then 4 else 8)
  }

  lemma ReadsVarInt(n: nat, rest: Bytes)
    requires n < U64
    ensures ReadVarInt(VarInt(n) + rest) == Some(Read(n, rest))
  {
    var k := if n <= 0xFFFF then 2 else if n < U32 then 4 else 8;
    var b := VarInt(n) + rest;
    if n < 0xFD {
      assert b[1..] == rest;
    } else {
      assert b[1..] == LittleEndian(n, k) + rest;
      PowersOf256();
      assert Pow256(2) == 0x1_0000;
      ReadsInt(n, k, rest);
    }
  }

  datatype Policy = Policy(name: Bytes, template: Bytes, keys: seq<Bytes>)

  ghost function RootOf(hash: Hash, keys: seq<Bytes>): Bytes {
    if |keys| == 0 then ZEROS else TreeHash(hash, keys)
  }

  /** The bytes whose hash is the id. */
  ghost function Preimage(hash: Hash, p: Policy): Bytes {
    VERSION + (VarInt(|p.name|) + (p.name + (VarInt(|p.template|) + (hash(p.template) + (VarInt(|p.keys|) + RootOf(hash, p.keys))))))
  }

  ghost function Id(hash: Hash, p: Policy): Bytes { hash(Preimage(hash, p)) }

  /** ledgerSavingsWalletPolicyID, before the hexadecimal encoding. */
  method ComputeId(hash: Hash, p: Policy) returns (id: Bytes)
    ensures id == Id(hash, p)
  {
    var leaves: seq<Bytes> := [];
    for i := 0 to |p.keys|
      invariant leaves == Leaves(hash, p.keys[..i])
    {
      leaves := leaves + [hash(LEAF + p.keys[i])];
    }
    assert p.keys[..|p.keys|] == p.keys;
    var root := Root(hash, p.keys, leaves);
    var out := VERSION + VarInt(|p.name|);
    out := out + p.name;
    out := out + VarInt(|p.template|);
    out := out + hash(p.template);
    out := out + VarInt(|p.keys|);
    out := out + root;
    Regroup(VERSION, VarInt(|p.name|), p.name, VarInt(|p.template|), hash(p.template), VarInt(|p.keys|), root);
    id := hash(out);
  }

  lemma Regroup(a: Bytes, b: Bytes, c: Bytes, d: Bytes, e: Bytes, f: Bytes, g: Bytes)
    ensures a + b + c + d + e + f + g == a + (b + (c + (d + (e + (f + g)))))
  {
  }

  // ----- an id determines its policy

  /** Everything hashed while a root is computed. */
  ghost function TreePreimages(hash: Hash, d: seq<Bytes>): set<Bytes>
    decreases |d|
  {
    if |d| == 0 then {}
    else if |d| == 1 then {LEAF + d[0]}
    else
      var k := SplitOf(|d|);
      {INNER + TreeHash(hash, d[..k]) + TreeHash(hash, d[k..])} + TreePreimages(hash, d[..k]) + TreePreimages(hash, d[k..])
  }

  ghost function Preimages(hash: Hash, p: Policy): set<Bytes> {
    {Preimage(hash, p), p.template} + TreePreimages(hash, p.keys)
  }

  lemma TreeHashLength(hash: Hash, d: seq<Bytes>)
    requires Digests(hash)
    ensures |TreeHash(hash, d)| == 32
  {
  }

  lemma SplitConcat(a: Bytes, b: Bytes, c: Bytes, x: Bytes, y: Bytes)
    requires |b| == |x| && a + b + c == a + x + y
    ensures b == x && c == y
  {
    var s := a + b + c;
    assert s[|a|..|a| + |b|] == b && s[|a| + |b|..] == c;
    assert s[|a|..|a| + |b|] == x && s[|a| + |b|..] == y;
  }

  /** Equal roots of lists of equal length are roots of equal lists. */
  lemma {:induction false} RootDeterminesList(hash: Hash, a: seq<Bytes>, b: seq<Bytes>)
    requires Digests(hash) && |a| == |b| && |a| > 0 && TreeHash(hash, a) == TreeHash(hash, b)
    requires InjectiveOn(hash, TreePreimages(hash, a) + TreePreimages(hash, b))
    ensures a == b
    decreases |a|
  {
    if |a| == 1 {
      var x, y := LEAF + a[0], LEAF + b[0];
      assert x == y && x[1..] == a[0] && y[1..] == b[0];
    } else {
      var k := SplitOf(|a|);
      var l, r, m, s := TreeHash(hash, a[..k]), TreeHash(hash, a[k..]), TreeHash(hash, b[..k]), TreeHash(hash, b[k..]);
      assert INNER + l + r == INNER + m + s;
      TreeHashLength(hash, a[..k]);
      TreeHashLength(hash, b[..k]);
      SplitConcat(INNER, l, r, m, s);
      RootDeterminesList(hash, a[..k], b[..k]);
      RootDeterminesList(hash, a[k..], b[k..]);
      assert a == a[..k] + a[k..] && b == b[..k] + b[k..];
    }
  }

  lemma VarIntDetermines(m: nat, x: Bytes, n: nat, y: Bytes)
    requires m < U64 && n < U64 && VarInt(m) + x == VarInt(n) + y
    ensures m == n && x == y
  {
    ReadsVarInt(m, x);
    ReadsVarInt(n, y);
  }

  lemma FieldDetermines(a: Bytes, x: Bytes, b: Bytes, y: Bytes)
    requires |a| == |b| && a + x == b + y
    ensures a == b && x == y
  {
    var s := a + x;
    assert s[..|a|] == a && s[..|a|] == b && s[|a|..] == x && s[|a|..] == y;
  }

  /** Equal serializations agree on the name, the template's length and digest, the number
      of keys and their root. */
  lemma PreimageDetermines(hash: Hash, p: Policy, q: Policy)
    requires Digests(hash) && Preimage(hash, p) == Preimage(hash, q)
    requires |p.name| < U64 && |p.template| < U64 && |p.keys| < U64 && |q.name| < U64 && |q.template| < U64 && |q.keys| < U64
    ensures p.name == q.name && hash(p.template) == hash(q.template)
    ensures |p.keys| == |q.keys| && RootOf(hash, p.keys) == RootOf(hash, q.keys)
  {
    var p4, q4 := VarInt(|p.keys|) + RootOf(hash, p.keys), VarInt(|q.keys|) + RootOf(hash, q.keys);
    var p3, q3 := hash(p.template) + p4, hash(q.template) + q4;
    var p2, q2 := VarInt(|p.template|) + p3, VarInt(|q.template|) + q3;
    var p1, q1 := p.name + p2, q.name + q2;
    FieldDetermines(VERSION, VarInt(|p.name|) + p1, VERSION, VarInt(|q.name|) + q1);
    VarIntDetermines(|p.name|, p1, |q.name|, q1);
    FieldDetermines(p.name, p2, q.name, q2);
    VarIntDetermines(|p.template|, p3, |q.template|, q3);
    FieldDetermines(hash(p.template), p4, hash(q.template), q4);
    VarIntDetermines(|p.keys|, RootOf(hash, p.keys), |q.keys|, RootOf(hash, q.keys));
  }

  /** Equal ids mean equal name, template and ordered keys, for every hash that is injective
      on what the two computations hash: two different policies with one id would exhibit
      a collision among those strings. */
  lemma IdDeterminesPolicy(hash: Hash, p: Policy, q: Policy)
    requires Digests(hash) && InjectiveOn(hash, Preimages(hash, p) + Preimages(hash, q))
    requires |p.name| < U64 && |p.template| < U64 && |p.keys| < U64 && |q.name| < U64 && |q.template| < U64 && |q.keys| < U64
    requires Id(hash, p) == Id(hash, q)
    ensures p == q
  {
    PreimageDetermines(hash, p, q);
    if |p.keys| > 0 { RootDeterminesList(hash, p.keys, q.keys); }
  }
}
