/** Byte strings, little-endian integers and length-prefixed fields, each with the reader
    that undoes its writer whatever follows. */
module ByteCodec {
  import opened Basics

  /** A byte string is a string of characters below 256. */
  type Bytes = string

  datatype Read<T> = Read(value: T, rest: Bytes)

  function Pow256(k: nat): nat { if k == 0 then 1 else 256 * Pow256(k - 1) }

  const U32 := 0x1_0000_0000
  const U64 := 0x1_0000_0000_0000_0000

  lemma PowersOf256()
    ensures Pow256(4) == U32 && Pow256(8) == U64
  {
    assert Pow256(4) == 256 * 256 * 256 * 256;
    assert Pow256(8) == 256 * 256 * 256 * 256 * Pow256(4);
  }

  /** `k` bytes of `n`, low byte first; higher bits are dropped. */
  function LittleEndian(n: nat, k: nat): (b: Bytes)
    ensures |b| == k
  {
    if k == 0 then [] else [(n % 256) as char] + LittleEndian(n / 256, k - 1)
  }

  function FromLittleEndian(b: Bytes): nat {
    if |b| == 0 then 0 else b[0] as int + 256 * FromLittleEndian(b[1..])
  }

  lemma {:induction false} LittleEndianRoundTrip(n: nat, k: nat)
    requires n < Pow256(k)
    ensures FromLittleEndian(LittleEndian(n, k)) == n
  {
    if k > 0 {
      LittleEndianRoundTrip(n / 256, k - 1);
      assert LittleEndian(n, k)[1..] == LittleEndian(n / 256, k - 1);
    }
  }

  function ReadInt(b: Bytes, k: nat): Option<Read<nat>> {
    if |b| < k then None else Some(Read(FromLittleEndian(b[..k]), b[k..]))
  }

  lemma ReadsInt(n: nat, k: nat, rest: Bytes)
    requires n < Pow256(k)
    ensures ReadInt(LittleEndian(n, k) + rest, k) == Some(Read(n, rest))
  {
    var b := LittleEndian(n, k) + rest;
    assert b[..k] == LittleEndian(n, k) && b[k..] == rest;
    LittleEndianRoundTrip(n, k);
  }

  /** A field and what follows it: its length in four bytes, the field, the rest. */
  function Field(b: Bytes, rest: Bytes): Bytes { LittleEndian(|b| % U32, 4) + (b + rest) }

  /** A 32-bit integer and what follows it. */
  function Word(n: nat, rest: Bytes): Bytes { LittleEndian(n % U32, 4) + rest }

  function ReadField(b: Bytes): Option<Read<Bytes>> {
    var size := ReadInt(b, 4);
    if size.None? || |size.value.rest| < size.value.value then None
    else Some(Read(size.value.rest[..size.value.value], size.value.rest[size.value.value..]))
  }

  lemma {:induction false} ReadsWord(n: nat, rest: Bytes)
    requires n < U32
    ensures ReadInt(Word(n, rest), 4) == Some(Read(n, rest))
  {
    PowersOf256();
    ReadsInt(n, 4, rest);
  }

  lemma {:induction false} ReadsField(b: Bytes, rest: Bytes)
    requires |b| < U32
    ensures ReadField(Field(b, rest)) == Some(Read(b, rest))
  {
    ReadsWord(|b|, b + rest);
    assert (b + rest)[..|b|] == b && (b + rest)[|b|..] == rest;
  }

  // ----- writers that append; `rest` is what will follow

  method WriteField(h: Bytes, b: Bytes, ghost rest: Bytes) returns (h': Bytes)
    ensures h' + rest == h + Field(b, rest)
  {
    var size := LittleEndian(|b| % U32, 4);
    h' := h + size + b;
    assert (h + size + b) + rest == h + (size + (b + rest));
  }

  method WriteWord(h: Bytes, n: nat, ghost rest: Bytes) returns (h': Bytes)
    ensures h' + rest == h + Word(n, rest)
  {
    h' := h + LittleEndian(n % U32, 4);
    assert h' + rest == h + (LittleEndian(n % U32, 4) + rest);
  }

  // ----- lists of anything that can be read back

  ghost function EncodeMany<T>(write: (T, Bytes) -> Bytes, xs: seq<T>, rest: Bytes): Bytes {
    if |xs| == 0 then rest else write(xs[0], EncodeMany(write, xs[1..], rest))
  }

  function ReadMany<T>(read: Bytes -> Option<Read<T>>, b: Bytes, n: nat): Option<Read<seq<T>>>
    decreases n
  {
    if n == 0 then Some(Read([], b))
    else
      var first := read(b);
      if first.None? then None
      else
        var more := ReadMany(read, first.value.rest, n - 1);
        if more.None? then None else Some(Read([first.value.value] + more.value.value, more.value.rest))
  }

  /** If one item reads back whatever follows it, so does a list of them. */
  lemma {:induction false} ReadsMany<T>(read: Bytes -> Option<Read<T>>, write: (T, Bytes) -> Bytes, xs: seq<T>, rest: Bytes)
    requires forall x, r {:trigger write(x, r)} :: x in xs ==> read(write(x, r)) == Some(Read(x, r))
    ensures ReadMany(read, EncodeMany(write, xs, rest), |xs|) == Some(Read(xs, rest))
  {
    if |xs| > 0 {
      ReadsMany(read, write, xs[1..], rest);
      assert xs == [xs[0]] + xs[1..];
    }
  }
}
