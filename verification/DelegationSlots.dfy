/** Where the journal of a delegated renewal keeps the events of the Operator's stream. */
module DelegationSlots {
  import opened Basics
  import Ordering

  type Txid = string

  datatype Slot = Tree(index: nat, txid: Txid) | Signing | Nonce(txid: Txid) | Signature(txid: Txid) | Final

  predicate ValidSlot(s: Slot) {
    match s
    case Tree(index, txid) => index <= 1 && ValidTxid(txid)
    case Nonce(txid) => ValidTxid(txid)
    case Signature(txid) => ValidTxid(txid)
    case _ => true
  }

  function Name(s: Slot): string {
    match s
    case Tree(index, txid) => (if index == 0 then "stream_tree_0_" else "stream_tree_1_") + txid
    case Signing => "stream_signing_started"
    case Nonce(txid) => "stream_nonce_" + txid
    case Signature(txid) => "stream_signature_" + txid
    case Final => "stream_finalization"
  }

  /** The rank the replay gives a journal name. */
  function Rank(name: string): nat {
    if "stream_tree_" <= name then 0
    else if name == "stream_signing_started" then 1
    else if "stream_nonce_" <= name then 2
    else if "stream_signature_" <= name then 3
    else 4
  }

  function Level(slot: Slot): nat {
    match slot case Tree(_, _) => 0 case Signing => 1 case Nonce(_) => 2 case Signature(_) => 3 case Final => 4
  }

  predicate Earlier(a: Slot, b: Slot) {
    var (x, y) := (Name(a), Name(b));
    if Rank(x) != Rank(y) then Rank(x) < Rank(y) else Ordering.Less(x, y)
  }

  lemma RankOfSlot(s: Slot)
    ensures Rank(Name(s)) == Level(s)
  {
    var name := Name(s);
    match s
    case Tree(index, txid) => assert name[..12] == "stream_tree_";
    case Signing => assert name[7] == 's';
    case Nonce(txid) => assert name[7] == 'n' && name[..13] == "stream_nonce_";
    case Signature(txid) =>
      assert name[7] == 's' && name[8..10] == "ig" && name[10] == 'n' && name[11] == 'a';
      assert name[..17] == "stream_signature_";
    case Final => assert name[7] == 'f';
  }

  /** One name per slot. */
  lemma NamesAreInjective(a: Slot, b: Slot)
    requires Name(a) == Name(b) && ValidSlot(a) && ValidSlot(b)
    ensures a == b
  {
    RankOfSlot(a);
    RankOfSlot(b);
    match a
    case Tree(index, txid) =>
      assert Name(a)[12] == if index == 0 then '0' else '1';
      assert Name(a)[14..] == txid && Name(b)[14..] == b.txid;
    case Nonce(txid) => assert Name(a)[13..] == txid && Name(b)[13..] == b.txid;
    case Signature(txid) => assert Name(a)[17..] == txid && Name(b)[17..] == b.txid;
    case _ =>
  }

  /** The replay order is a strict total order on what a journal can hold. */
  lemma EarlierIsTotalOrder(s: seq<Slot>)
    requires forall x :: x in s ==> ValidSlot(x)
    ensures Ordering.Orders(Earlier, s)
  {
    forall a, b, c | a in s && b in s && c in s
      ensures !Earlier(a, a)
      ensures a != b ==> Earlier(a, b) || Earlier(b, a)
      ensures Earlier(a, b) && Earlier(b, c) ==> Earlier(a, c)
    {
      Ordering.LessIrreflexive(Name(a));
      Ordering.LessTotal(Name(a), Name(b));
      if Name(a) == Name(b) { NamesAreInjective(a, b); }
      if Ordering.Less(Name(a), Name(b)) && Ordering.Less(Name(b), Name(c)) {
        Ordering.LessTransitive(Name(a), Name(b), Name(c));
      }
    }
  }
}
