/** What several components share: optional values, 64-bit integers, hex text,
    shared limits, and the fates of a database commit. */
module Basics {
  datatype Option<T> = None | Some(value: T)

  const MAX_U64 := 0xFFFF_FFFF_FFFF_FFFF
  const MAX_I64 := 0x7FFF_FFFF_FFFF_FFFF

  /** The inputs one operation may have, and the value below which an output is dust. */
  const MAX_INPUTS := 50
  const DUST := 330

  /** The nodes one tree may have. */
  const MAX_NODES := 512

  type u64 = x: nat | x <= MAX_U64
  type i64 = x: int | -MAX_I64 - 1 <= x <= MAX_I64

  /** uint64(x) and int64(x): the same 64 bits read the other way. */
  function AsU64(x: i64): u64 { if x < 0 then x + MAX_U64 + 1 else x }

  function AsI64(x: u64): i64 { if x > MAX_I64 then x - MAX_U64 - 1 else x }

  /** Two's complement: both directions keep the value modulo 2^64 and undo each other. */
  lemma SameBits(x: i64, y: u64)
    ensures AsU64(x) % 0x1_0000_0000_0000_0000 == x % 0x1_0000_0000_0000_0000 && AsI64(AsU64(x)) == x
    ensures AsI64(y) % 0x1_0000_0000_0000_0000 == y % 0x1_0000_0000_0000_0000 && AsU64(AsI64(y)) == y
  {
    assert (x + 0x1_0000_0000_0000_0000) % 0x1_0000_0000_0000_0000 == x % 0x1_0000_0000_0000_0000;
    assert (y - 0x1_0000_0000_0000_0000) % 0x1_0000_0000_0000_0000 == y % 0x1_0000_0000_0000_0000;
  }

  predicate LowerHex(c: char) { '0' <= c <= '9' || 'a' <= c <= 'f' }

  /** What a hex decoder takes: both cases. */
  predicate HexDigit(c: char) { LowerHex(c) || 'A' <= c <= 'F' }

  function LowerChar(c: char): char { if 'A' <= c <= 'Z' then (c as int + 32) as char else c }

  function ToLower(s: string): string { if |s| == 0 then "" else [LowerChar(s[0])] + ToLower(s[1..]) }

  function HexValue(c: char): int
    requires HexDigit(c)
  {
    if '0' <= c <= '9' then c as int - '0' as int else if 'a' <= c <= 'f' then c as int - 'a' as int + 10 else c as int - 'A' as int + 10
  }

  const DIGITS := "0123456789abcdef"

  /** The digits by name, and each one's value its place among them. */
  lemma HexSpelledOut(c: char)
    ensures LowerHex(c) <==> c in DIGITS
    ensures HexDigit(c) <==> c in DIGITS || c in "ABCDEF"
    ensures c in DIGITS ==> 0 <= HexValue(c) < 16 && DIGITS[HexValue(c)] == c
    ensures c in "ABCDEF" ==> LowerChar(c) in "abcdef" && HexValue(LowerChar(c)) == HexValue(c)
  {
    assert DIGITS[0] == '0' && DIGITS[9] == '9' && DIGITS[10] == 'a' && DIGITS[15] == 'f';
  }

  /** Lower-casing hex text changes neither its length nor the value of any digit. */
  lemma {:induction false} LowerKeepsHex(s: string)
    requires forall i :: 0 <= i < |s| ==> HexDigit(s[i])
    ensures |ToLower(s)| == |s|
    ensures forall i :: 0 <= i < |s| ==> LowerHex(ToLower(s)[i]) && HexValue(ToLower(s)[i]) == HexValue(s[i])
  {
    if |s| > 0 {
      LowerKeepsHex(s[1..]);
      forall i | 0 <= i < |s| ensures LowerHex(ToLower(s)[i]) && HexValue(ToLower(s)[i]) == HexValue(s[i]) {
        if i > 0 { assert ToLower(s)[i] == ToLower(s[1..])[i - 1] && s[i] == s[1..][i - 1]; }
      }
    }
  }

  /** requireTxid */
  predicate ValidTxid(s: string) { |s| == 64 && forall i :: 0 <= i < 64 ==> LowerHex(s[i]) }

  /** A commit is refused, takes effect without the caller learning it, or succeeds. */
  datatype Commit = Refused | Unacknowledged | Committed

  lemma SubsetIsSmaller<T>(a: set<T>, b: set<T>)
    requires a <= b
    ensures |a| <= |b|
  {
    assert b == a + (b - a);
  }

  lemma FewerKeys<K, V>(small: map<K, V>, large: map<K, V>)
    requires small.Keys <= large.Keys
    ensures |small| <= |large|
  {
    SubsetIsSmaller(small.Keys, large.Keys);
    assert |small| == |small.Keys| && |large| == |large.Keys|;
  }

  lemma SubsetOfSameSize<T>(a: set<T>, b: set<T>)
    requires a <= b && |a| == |b|
    ensures a == b
  {
    assert b == a + (b - a);
  }
}
