/** The migration from schema 11 to schema 12: whole accounts are deleted by an ordered
    list of statements, and a stored base takes over the count of the rows that go.

    Tables, foreign keys and statements are data here, so that one proof covers every
    foreign key and every statement. A row carries the columns that foreign keys and
    statements look at; everything else in it, its MAC included, is `rest`. */
module SchemaRetirement {
  import opened Basics

  datatype Table =
    | Vault | Credential | Envelope | SignCount | VaultMap | Backup | Invite | Pending
    | VtxoOperation | VtxoInput | RenewalOperation | RenewalEvent | DelegationOperation | DelegationEvent
    | BoardEnrollment | BoardOperation | BoardAuthorization | BoardDispatch | BoardSubmission | BoardConflict
    | SavingsEnrollment | SavingsEvent

  datatype Row = Row(
    vault: string, op: string, attempt: nat, phase: string, token: string,
    consumed: Option<string>, template: string, rest: string)

  /** A row in its table; the database is the set of them. */
  datatype Stored = Stored(table: Table, row: Row)

  type Tables = set<Stored>

  // ----- foreign keys

  datatype Link = ByVault | ByOp | ByPhase | ByToken | ByConsumed

  datatype ForeignKey = ForeignKey(link: Link, parent: Table)

  function ForeignKeys(t: Table): (keys: seq<ForeignKey>)
    ensures forall key :: key in keys ==> Last(t) < Last(key.parent)
  {
    match t
    case Vault => []
    case Credential => [ForeignKey(ByVault, Vault)]
    case Envelope => [ForeignKey(ByVault, Vault)]
    case SignCount => [ForeignKey(ByVault, Vault)]
    case VaultMap => [ForeignKey(ByVault, Vault)]
    case Backup => [ForeignKey(ByVault, Vault)]
    case Invite => [ForeignKey(ByConsumed, Vault)]
    case Pending => [ForeignKey(ByToken, Invite)]
    case VtxoOperation => [ForeignKey(ByVault, Vault)]
    case VtxoInput => [ForeignKey(ByOp, VtxoOperation)]
    case RenewalOperation => [ForeignKey(ByVault, Vault)]
    case RenewalEvent => [ForeignKey(ByOp, RenewalOperation)]
    case DelegationOperation => [ForeignKey(ByVault, Vault)]
    case DelegationEvent => [ForeignKey(ByOp, DelegationOperation)]
    case BoardEnrollment => [ForeignKey(ByVault, Vault)]
    case BoardOperation => [ForeignKey(ByVault, BoardEnrollment)]
    case BoardAuthorization => [ForeignKey(ByOp, BoardOperation)]
    case BoardDispatch => [ForeignKey(ByPhase, BoardAuthorization)]
    case BoardSubmission => [ForeignKey(ByPhase, BoardAuthorization), ForeignKey(ByPhase, BoardDispatch)]
    case BoardConflict => [ForeignKey(ByPhase, BoardAuthorization)]
    case SavingsEnrollment => [ForeignKey(ByVault, Vault)]
    case SavingsEvent => [ForeignKey(ByVault, SavingsEnrollment)]
  }

  predicate RefersTo(link: Link, child: Row, parent: Row) {
    match link
    case ByVault => child.vault == parent.vault
    case ByOp => child.op == parent.op
    case ByPhase => child.op == parent.op && child.attempt == parent.attempt && child.phase == parent.phase
    case ByToken => child.token == parent.token
    case ByConsumed => child.consumed == Some(parent.vault)
  }

  /** A null column refers to nothing. */
  predicate HasReference(link: Link, child: Row) { link == ByConsumed ==> child.consumed.Some? }

  ghost predicate Resolved(db: Tables, t: Table, child: Row) {
    forall key :: key in ForeignKeys(t) && HasReference(key.link, child) ==>
      exists parent :: Stored(key.parent, parent) in db && RefersTo(key.link, child, parent)
  }

  /** No foreign key dangles. */
  ghost predicate Clean(db: Tables) {
    forall t, child {:trigger Resolved(db, t, child)} :: Stored(t, child) in db ==> Resolved(db, t, child)
  }

  /** What each foreign key asks for, column by column. */
  lemma ReferencesSpelledOut(db: Tables, t: Table, r: Row)
    ensures Resolved(db, t, r) <==>
            match t
            case Vault => true
            case Invite => r.consumed.None? || exists x :: x in db && x.table == Vault && x.row.vault == r.consumed.value
            case Pending => exists x :: x in db && x.table == Invite && x.row.token == r.token
            case VtxoInput => exists x :: x in db && x.table == VtxoOperation && x.row.op == r.op
            case RenewalEvent => exists x :: x in db && x.table == RenewalOperation && x.row.op == r.op
            case DelegationEvent => exists x :: x in db && x.table == DelegationOperation && x.row.op == r.op
            case BoardOperation => exists x :: x in db && x.table == BoardEnrollment && x.row.vault == r.vault
            case BoardAuthorization => exists x :: x in db && x.table == BoardOperation && x.row.op == r.op
            case BoardDispatch => PhaseIn(db, BoardAuthorization, r)
            case BoardSubmission => PhaseIn(db, BoardAuthorization, r) && PhaseIn(db, BoardDispatch, r)
            case BoardConflict => PhaseIn(db, BoardAuthorization, r)
            case SavingsEvent => exists x :: x in db && x.table == SavingsEnrollment && x.row.vault == r.vault
            case _ => exists x :: x in db && x.table == Vault && x.row.vault == r.vault
  {
    ResolvedByKey(db, t, r);
    var keys := ForeignKeys(t);
    if |keys| > 0 { ParentSpelledOut(db, keys[0], r); }
    if |keys| > 1 { ParentSpelledOut(db, keys[1], r); }
  }

  ghost predicate ParentIn(db: Tables, key: ForeignKey, r: Row) {
    HasReference(key.link, r) ==> exists parent :: Stored(key.parent, parent) in db && RefersTo(key.link, r, parent)
  }

  lemma ResolvedByKey(db: Tables, t: Table, r: Row)
    ensures var keys := ForeignKeys(t);
            && |keys| <= 2
            && (Resolved(db, t, r) <==> (|keys| > 0 ==> ParentIn(db, keys[0], r)) && (|keys| > 1 ==> ParentIn(db, keys[1], r)))
  {
    var keys := ForeignKeys(t);
    assert |keys| <= 2;
    assert |keys| > 0 ==> keys[0] in keys;
    assert |keys| > 1 ==> keys[1] in keys;
    assert forall key :: key in keys ==> (|keys| > 0 && key == keys[0]) || (|keys| > 1 && key == keys[1]);
  }

  lemma ParentSpelledOut(db: Tables, key: ForeignKey, r: Row)
    ensures ParentIn(db, key, r) <==>
            match key.link
            case ByVault => exists x :: x in db && x.table == key.parent && x.row.vault == r.vault
            case ByOp => exists x :: x in db && x.table == key.parent && x.row.op == r.op
            case ByPhase => PhaseIn(db, key.parent, r)
            case ByToken => exists x :: x in db && x.table == key.parent && x.row.token == r.token
            case ByConsumed => r.consumed.None? || exists x :: x in db && x.table == key.parent && x.row.vault == r.consumed.value
  {
    forall x | x in db && x.table == key.parent ensures Stored(key.parent, x.row) in db { assert x == Stored(key.parent, x.row); }
    if ParentIn(db, key, r) && HasReference(key.link, r) {
      var parent :| Stored(key.parent, parent) in db && RefersTo(key.link, r, parent);
      var x := Stored(key.parent, parent);
      assert x in db && x.table == key.parent && x.row == parent;
    }
  }

  /** A row of the table has the operation, attempt and phase of `r`. */
  ghost predicate PhaseIn(db: Tables, t: Table, r: Row) {
    exists x :: x in db && x.table == t && x.row.op == r.op && x.row.attempt == r.attempt && x.row.phase == r.phase
  }

  // ----- the statements of deleteRetiredAccount, in their order

  datatype Where = VaultIs | OpIn(operations: Table) | ConsumedIs | TokenIn(invites: Table)

  datatype Statement = Delete(table: Table, selects: Where)

  function Statements(): (list: seq<Statement>) {
    [ Delete(DelegationEvent, OpIn(DelegationOperation)),
      Delete(DelegationOperation, VaultIs),
      Delete(RenewalEvent, OpIn(RenewalOperation)),
      Delete(RenewalOperation, VaultIs),
      Delete(VtxoInput, OpIn(VtxoOperation)),
      Delete(VtxoOperation, VaultIs),
      Delete(BoardSubmission, OpIn(BoardOperation)),
      Delete(BoardDispatch, OpIn(BoardOperation)),
      Delete(BoardConflict, OpIn(BoardOperation)),
      Delete(BoardAuthorization, OpIn(BoardOperation)),
      Delete(BoardOperation, VaultIs),
      Delete(BoardEnrollment, VaultIs),
      Delete(SavingsEvent, VaultIs),
      Delete(SavingsEnrollment, VaultIs),
      Delete(Backup, VaultIs),
      Delete(SignCount, VaultIs),
      Delete(VaultMap, VaultIs),
      Delete(Envelope, VaultIs),
      Delete(Credential, VaultIs),
      Delete(Pending, VaultIs),
      Delete(Pending, TokenIn(Invite)),
      Delete(Invite, ConsumedIs),
      Delete(Vault, VaultIs) ]
  }

  /** The place of the last statement on each table. */
  function Last(t: Table): nat {
    match t
    case DelegationEvent => 0
    case DelegationOperation => 1
    case RenewalEvent => 2
    case RenewalOperation => 3
    case VtxoInput => 4
    case VtxoOperation => 5
    case BoardSubmission => 6
    case BoardDispatch => 7
    case BoardConflict => 8
    case BoardAuthorization => 9
    case BoardOperation => 10
    case BoardEnrollment => 11
    case SavingsEvent => 12
    case SavingsEnrollment => 13
    case Backup => 14
    case SignCount => 15
    case VaultMap => 16
    case Envelope => 17
    case Credential => 18
    case Pending => 20
    case Invite => 21
    case Vault => 22
  }

  /** What the last statement on each table selects. */
  function Selects(t: Table): Where {
    match t
    case DelegationEvent => OpIn(DelegationOperation)
    case RenewalEvent => OpIn(RenewalOperation)
    case VtxoInput => OpIn(VtxoOperation)
    case BoardSubmission => OpIn(BoardOperation)
    case BoardDispatch => OpIn(BoardOperation)
    case BoardConflict => OpIn(BoardOperation)
    case BoardAuthorization => OpIn(BoardOperation)
    case Pending => TokenIn(Invite)
    case Invite => ConsumedIs
    case _ => VaultIs
  }

  predicate Matches(db: Tables, selects: Where, id: string, r: Row) {
    match selects
    case VaultIs => r.vault == id
    case OpIn(operations) => exists x :: x in db && x.table == operations && x.row.op == r.op && x.row.vault == id
    case ConsumedIs => r.consumed == Some(id)
    case TokenIn(invites) => exists x :: x in db && x.table == invites && x.row.token == r.token && x.row.consumed == Some(id)
  }

  function Exec(db: Tables, s: Statement, id: string): Tables {
    set x | x in db && !(x.table == s.table && Matches(db, s.selects, id, x.row))
  }

  /** The database after the first `k` of some statements, for one account. */
  function After(db: Tables, at: seq<Statement>, id: string, k: nat): Tables
    requires k <= |at|
  {
    if k == 0 then db else Exec(After(db, at, id, k - 1), at[k - 1], id)
  }

  /** Every account in turn. */
  function Retire(db: Tables, at: seq<Statement>, ids: seq<string>): Tables {
    if |ids| == 0 then db else After(Retire(db, at, ids[..|ids| - 1]), at, ids[|ids| - 1], |at|)
  }

  // ----- what makes an ordered list of statements safe

  /** If the parent's statement selects a parent, the child's statement selects every child
      that refers to it. */
  predicate Cascading(link: Link, parent: Table, parentSelects: Where, childSelects: Where) {
    match link
    case ByVault => parentSelects == VaultIs && childSelects == VaultIs
    case ByOp => parentSelects == VaultIs && childSelects == OpIn(parent)
    case ByPhase => parentSelects.OpIn? && childSelects == parentSelects
    case ByToken => parentSelects == ConsumedIs && childSelects == TokenIn(parent)
    case ByConsumed => parentSelects == VaultIs && childSelects == ConsumedIs
  }

  predicate Guards(at: seq<Statement>, t: Table, key: ForeignKey, j: nat, k: nat)
    requires j < |at| && k < |at|
  {
    j < k && at[j].table == t && Cascading(key.link, key.parent, at[k].selects, at[j].selects)
  }

  /** Children go before their parents. */
  ghost predicate ChildrenFirst(at: seq<Statement>) {
    forall t, key, k :: key in ForeignKeys(t) && 0 <= k < |at| && at[k].table == key.parent ==>
      exists j :: 0 <= j < |at| && Guards(at, t, key, j, k)
  }

  predicate Reads(selects: Where, t: Table) {
    match selects
    case OpIn(operations) => operations == t
    case TokenIn(invites) => invites == t
    case _ => false
  }

  /** A subquery reads only tables that are deleted from later. */
  ghost predicate SubqueriesFirst(at: seq<Statement>) {
    forall j, k :: 0 <= j <= k < |at| ==> !Reads(at[k].selects, at[j].table)
  }

  /** A table that subqueries read is deleted from by owner only. */
  ghost predicate SubqueriesReadOwners(at: seq<Statement>) {
    forall j, k :: 0 <= j < |at| && 0 <= k < |at| && Reads(at[k].selects, at[j].table) ==>
      at[j].selects == if at[k].selects.OpIn? then VaultIs else ConsumedIs
  }

  lemma LastStatement(t: Table)
    ensures Last(t) < |Statements()| && Statements()[Last(t)] == Delete(t, Selects(t))
  {
  }

  lemma StatementsCascade(t: Table, key: ForeignKey)
    requires key in ForeignKeys(t)
    ensures key.parent != Pending && Last(t) < Last(key.parent)
    ensures Cascading(key.link, key.parent, Selects(key.parent), Selects(t))
  {
  }

  lemma OneStatementEach(k: nat)
    requires k < |Statements()|
    ensures k == Last(Statements()[k].table) || Statements()[k] == Delete(Pending, VaultIs)
  {
  }

  lemma StatementsOrdered()
    ensures ChildrenFirst(Statements()) && SubqueriesFirst(Statements()) && SubqueriesReadOwners(Statements())
  {
    var at := Statements();
    forall t, key, k | key in ForeignKeys(t) && 0 <= k < |at| && at[k].table == key.parent
      ensures exists j :: 0 <= j < |at| && Guards(at, t, key, j, k)
    {
      StatementsCascade(t, key);
      OneStatementEach(k);
      LastStatement(t);
      LastStatement(key.parent);
      assert Guards(at, t, key, Last(t), k);
    }
    forall j, k | 0 <= j <= k < |at| ensures !Reads(at[k].selects, at[j].table) { SubqueryBelow(j, k); }
    forall j, k | 0 <= j < |at| && 0 <= k < |at| && Reads(at[k].selects, at[j].table)
      ensures at[j].selects == if at[k].selects.OpIn? then VaultIs else ConsumedIs
    {
      SubqueryOwner(j, k);
    }
  }

  lemma SubqueryBelow(j: nat, k: nat)
    requires j <= k < |Statements()|
    ensures !Reads(Statements()[k].selects, Statements()[j].table)
  {
  }

  lemma SubqueryOwner(j: nat, k: nat)
    requires j < |Statements()| && k < |Statements()| && Reads(Statements()[k].selects, Statements()[j].table)
    ensures Statements()[j].selects == if Statements()[k].selects.OpIn? then VaultIs else ConsumedIs
  {
  }

  // ----- every statement keeps the foreign keys

  lemma ChildIsSelected(db: Tables, key: ForeignKey, parentSelects: Where, childSelects: Where, child: Row, parent: Row, id: string)
    requires Stored(key.parent, parent) in db && RefersTo(key.link, child, parent)
    requires Cascading(key.link, key.parent, parentSelects, childSelects)
    requires Matches(db, parentSelects, id, parent)
    ensures Matches(db, childSelects, id, child)
  {
  }

  lemma FewerMatch(small: Tables, large: Tables, selects: Where, id: string, r: Row)
    requires small <= large && Matches(small, selects, id, r)
    ensures Matches(large, selects, id, r)
  {
  }

  /** Nothing that the statement selects is left in its table. */
  ghost predicate Exhausted(db: Tables, id: string, s: Statement) {
    forall r :: Stored(s.table, r) in db ==> !Matches(db, s.selects, id, r)
  }

  lemma {:induction false} StaysExhausted(db: Tables, at: seq<Statement>, id: string, k: nat, j: nat)
    requires j < k <= |at|
    ensures Exhausted(After(db, at, id, k), id, at[j])
  {
    var before, after := After(db, at, id, k - 1), After(db, at, id, k);
    forall r | Stored(at[j].table, r) in after ensures !Matches(after, at[j].selects, id, r) {
      if Matches(after, at[j].selects, id, r) { FewerMatch(after, before, at[j].selects, id, r); }
      if j < k - 1 { StaysExhausted(db, at, id, k - 1, j); }
    }
  }

  lemma {:induction false} CleanAfterOneMore(db: Tables, at: seq<Statement>, id: string, k: nat, after: Tables)
    requires ChildrenFirst(at) && k < |at| && Clean(After(db, at, id, k)) && after == After(db, at, id, k + 1)
    ensures Clean(after)
  {
    forall t, child | Stored(t, child) in after ensures Resolved(after, t, child) {
      ResolvedAfterDelete(db, at, id, k, t, child);
    }
  }

  /** The foreign keys hold after every single statement. */
  lemma {:induction false} CleanThroughout(db: Tables, at: seq<Statement>, id: string, k: nat)
    requires Clean(db) && ChildrenFirst(at) && k <= |at|
    ensures Clean(After(db, at, id, k))
  {
    if k == 0 {
      assert After(db, at, id, k) == db;
    } else {
      CleanThroughout(db, at, id, k - 1);
      CleanAfterOneMore(db, at, id, k - 1, After(db, at, id, k));
    }
  }

  lemma {:induction false} ResolvedAfterDelete(db: Tables, at: seq<Statement>, id: string, k: nat, t: Table, child: Row)
    requires ChildrenFirst(at) && k < |at| && Clean(After(db, at, id, k)) && Stored(t, child) in After(db, at, id, k + 1)
    ensures Resolved(After(db, at, id, k + 1), t, child)
  {
    var before, after := After(db, at, id, k), After(db, at, id, k + 1);
    assert Stored(t, child) in before && Resolved(before, t, child);
    forall key | key in ForeignKeys(t) && HasReference(key.link, child)
      ensures exists parent :: Stored(key.parent, parent) in after && RefersTo(key.link, child, parent)
    {
      var parent :| Stored(key.parent, parent) in before && RefersTo(key.link, child, parent);
      ParentSurvives(db, at, id, k, t, key, child, parent);
    }
  }

  lemma {:induction false} ParentSurvives(
    db: Tables, at: seq<Statement>, id: string, k: nat, t: Table, key: ForeignKey, child: Row, parent: Row)
    requires ChildrenFirst(at) && k < |at| && key in ForeignKeys(t) && Stored(t, child) in After(db, at, id, k)
    requires Stored(key.parent, parent) in After(db, at, id, k) && RefersTo(key.link, child, parent)
    ensures Stored(key.parent, parent) in After(db, at, id, k + 1)
  {
    var before := After(db, at, id, k);
    if at[k].table == key.parent && Matches(before, at[k].selects, id, parent) {
      var j :| 0 <= j < |at| && Guards(at, t, key, j, k);
      StaysExhausted(db, at, id, k, j);
      ChildIsSelected(before, key, at[k].selects, at[j].selects, child, parent, id);
    }
  }

  // ----- what the statements leave, in terms of the database they started from

  /** None of the first `k` statements, read against `db`, selects the row. */
  ghost predicate Spared(db: Tables, at: seq<Statement>, id: string, k: nat, t: Table, r: Row)
    requires k <= |at|
  {
    forall j :: 0 <= j < k && at[j].table == t ==> !Matches(db, at[j].selects, id, r)
  }

  lemma {:induction false} UntouchedSoFar(db: Tables, at: seq<Statement>, id: string, k: nat, t: Table)
    requires k <= |at| && forall j :: 0 <= j < k ==> at[j].table != t
    ensures forall r :: Stored(t, r) in After(db, at, id, k) <==> Stored(t, r) in db
  {
    if k > 0 { UntouchedSoFar(db, at, id, k - 1, t); }
  }

  lemma SameSubquery(a: Tables, b: Tables, selects: Where, id: string, r: Row)
    requires forall t, o :: Reads(selects, t) ==> (Stored(t, o) in a <==> Stored(t, o) in b)
    requires Matches(a, selects, id, r)
    ensures Matches(b, selects, id, r)
  {
    match selects
    case OpIn(operations) =>
      var x :| x in a && x.table == operations && x.row.op == r.op && x.row.vault == id;
      assert Stored(operations, x.row) in b;
    case TokenIn(invites) =>
      var x :| x in a && x.table == invites && x.row.token == r.token && x.row.consumed == Some(id);
      assert Stored(invites, x.row) in b;
    case _ =>
  }

  lemma SubqueryUnchanged(db: Tables, at: seq<Statement>, id: string, k: nat, r: Row)
    requires SubqueriesFirst(at) && k < |at|
    ensures Matches(After(db, at, id, k), at[k].selects, id, r) == Matches(db, at[k].selects, id, r)
  {
    var after, selects := After(db, at, id, k), at[k].selects;
    forall t | Reads(selects, t) ensures forall o :: Stored(t, o) in after <==> Stored(t, o) in db {
      UntouchedSoFar(db, at, id, k, t);
    }
    if Matches(after, selects, id, r) { SameSubquery(after, db, selects, id, r); }
    if Matches(db, selects, id, r) { SameSubquery(db, after, selects, id, r); }
  }

  lemma {:induction false} AfterSpares(db: Tables, at: seq<Statement>, id: string, k: nat, t: Table, r: Row)
    requires SubqueriesFirst(at) && k <= |at|
    ensures Stored(t, r) in After(db, at, id, k) <==> Stored(t, r) in db && Spared(db, at, id, k, t, r)
  {
    if k > 0 {
      AfterSpares(db, at, id, k - 1, t, r);
      SubqueryUnchanged(db, at, id, k - 1, r);
    }
  }

  lemma {:induction false} AfterShrinks(db: Tables, at: seq<Statement>, id: string, k: nat)
    requires k <= |at|
    ensures After(db, at, id, k) <= db
  {
    if k > 0 { AfterShrinks(db, at, id, k - 1); }
  }

  lemma {:induction false} RetireShrinks(db: Tables, at: seq<Statement>, ids: seq<string>)
    ensures Retire(db, at, ids) <= db
  {
    if |ids| > 0 {
      RetireShrinks(db, at, ids[..|ids| - 1]);
      AfterShrinks(Retire(db, at, ids[..|ids| - 1]), at, ids[|ids| - 1], |at|);
    }
  }

  /** Every row is there exactly when no statement for any of the accounts selects it. */
  ghost predicate Spares(db: Tables, at: seq<Statement>, ids: seq<string>, result: Tables) {
    forall t, r :: Stored(t, r) in result <==>
      Stored(t, r) in db && forall id :: id in ids ==> Spared(db, at, id, |at|, t, r)
  }

  /** Retiring other accounts does not change what a statement selects for this one. */
  lemma OtherAccountsApart(db: Tables, at: seq<Statement>, ids: seq<string>, prev: Tables, id: string, k: nat, r: Row)
    requires SubqueriesReadOwners(at) && Spares(db, at, ids, prev) && k < |at| && id !in ids
    requires Matches(db, at[k].selects, id, r)
    ensures Matches(prev, at[k].selects, id, r)
  {
    match at[k].selects
    case OpIn(operations) =>
      var x :| x in db && x.table == operations && x.row.op == r.op && x.row.vault == id;
      assert x == Stored(operations, x.row) && x in prev;
    case TokenIn(invites) =>
      var x :| x in db && x.table == invites && x.row.token == r.token && x.row.consumed == Some(id);
      assert x == Stored(invites, x.row) && x in prev;
    case _ =>
  }

  lemma SparedAgrees(db: Tables, at: seq<Statement>, ids: seq<string>, prev: Tables, id: string, t: Table, r: Row)
    requires SubqueriesReadOwners(at) && Spares(db, at, ids, prev) && prev <= db && Stored(t, r) in prev
    ensures Spared(prev, at, id, |at|, t, r) == Spared(db, at, id, |at|, t, r)
  {
    forall j | 0 <= j < |at| && at[j].table == t
      ensures Matches(prev, at[j].selects, id, r) ==> Matches(db, at[j].selects, id, r)
      ensures Matches(db, at[j].selects, id, r) ==> Matches(prev, at[j].selects, id, r)
    {
      if Matches(prev, at[j].selects, id, r) { FewerMatch(prev, db, at[j].selects, id, r); }
      if id !in ids && Matches(db, at[j].selects, id, r) { OtherAccountsApart(db, at, ids, prev, id, j, r); }
    }
  }

  /** The accounts may be retired in any order: what is left is the same. */
  lemma {:induction false} RetireSpares(db: Tables, at: seq<Statement>, ids: seq<string>)
    requires SubqueriesFirst(at) && SubqueriesReadOwners(at)
    ensures Spares(db, at, ids, Retire(db, at, ids))
  {
    if |ids| > 0 {
      var front, id := ids[..|ids| - 1], ids[|ids| - 1];
      var prev := Retire(db, at, front);
      RetireSpares(db, at, front);
      RetireShrinks(db, at, front);
      assert ids == front + [id];
      forall t, r ensures Stored(t, r) in After(prev, at, id, |at|) <==>
        Stored(t, r) in db && forall other :: other in ids ==> Spared(db, at, other, |at|, t, r)
      {
        AfterSpares(prev, at, id, |at|, t, r);
        if Stored(t, r) in prev { SparedAgrees(db, at, front, prev, id, t, r); }
      }
    }
  }

  // ----- the statements are exactly the cascade of the foreign keys

  /** The row is the vault itself or reaches it through foreign keys. */
  ghost predicate BelongsTo(db: Tables, t: Table, r: Row, id: string)
    decreases 22 - Last(t)
  {
    || (t == Vault && r.vault == id)
    || exists key, parent :: key in ForeignKeys(t) && Stored(key.parent, parent) in db
         && RefersTo(key.link, r, parent) && BelongsTo(db, key.parent, parent, id)
  }

  lemma {:induction false} BelongingIsSelected(db: Tables, t: Table, r: Row, id: string)
    requires BelongsTo(db, t, r, id)
    ensures Matches(db, Selects(t), id, r)
    decreases 22 - Last(t)
  {
    if !(t == Vault && r.vault == id) {
      var key, parent :| key in ForeignKeys(t) && Stored(key.parent, parent) in db
        && RefersTo(key.link, r, parent) && BelongsTo(db, key.parent, parent, id);
      BelongingIsSelected(db, key.parent, parent, id);
      StatementsCascade(t, key);
      ChildIsSelected(db, key, Selects(key.parent), Selects(t), r, parent, id);
    }
  }

  /** A selected row has a parent that the parent's statement selects. */
  lemma SelectedParent(db: Tables, t: Table, key: ForeignKey, r: Row, id: string) returns (parent: Row)
    requires Clean(db) && Stored(t, r) in db && key in ForeignKeys(t) && Matches(db, Selects(t), id, r)
    ensures Stored(key.parent, parent) in db && RefersTo(key.link, r, parent)
    ensures Matches(db, Selects(key.parent), id, parent)
  {
    StatementsCascade(t, key);
    assert Resolved(db, t, r);
    match key.link
    case ByOp =>
      var x :| x in db && x.table == key.parent && x.row.op == r.op && x.row.vault == id;
      assert x == Stored(key.parent, x.row);
      parent := x.row;
    case ByToken =>
      var x :| x in db && x.table == key.parent && x.row.token == r.token && x.row.consumed == Some(id);
      assert x == Stored(key.parent, x.row);
      parent := x.row;
    case _ =>
      parent :| Stored(key.parent, parent) in db && RefersTo(key.link, r, parent);
  }

  lemma {:induction false} SelectedBelongs(db: Tables, t: Table, r: Row, id: string)
    requires Clean(db) && Stored(t, r) in db && Matches(db, Selects(t), id, r)
    ensures BelongsTo(db, t, r, id)
    decreases 22 - Last(t)
  {
    if t != Vault {
      var key := ForeignKeys(t)[0];
      var parent := SelectedParent(db, t, key, r, id);
      SelectedBelongs(db, key.parent, parent, id);
    }
  }

  lemma SparedByLast(db: Tables, id: string, t: Table, r: Row)
    ensures Spared(db, Statements(), id, |Statements()|, t, r) <==>
            !Matches(db, Selects(t), id, r) && (t == Pending ==> r.vault != id)
  {
    var at := Statements();
    LastStatement(t);
    assert at[19] == Delete(Pending, VaultIs);
    forall j | 0 <= j < |at| && at[j].table == t ensures j == Last(t) || at[j] == Delete(Pending, VaultIs) {
      OneStatementEach(j);
    }
  }

  /** Retiring any accounts, in any order, deletes exactly the rows that reach one of them
      through the foreign keys, and the pending enrollments that name one. */
  lemma RetireIsTheCascade(db: Tables, ids: seq<string>, t: Table, r: Row)
    requires Clean(db) && Stored(t, r) in db
    ensures Stored(t, r) !in Retire(db, Statements(), ids) <==>
            exists id :: id in ids && (BelongsTo(db, t, r, id) || (t == Pending && r.vault == id))
  {
    StatementsOrdered();
    RetireSpares(db, Statements(), ids);
    forall id | id in ids
      ensures Spared(db, Statements(), id, |Statements()|, t, r) <==>
              !(BelongsTo(db, t, r, id) || (t == Pending && r.vault == id))
    {
      SparedByLast(db, id, t, r);
      if BelongsTo(db, t, r, id) { BelongingIsSelected(db, t, r, id); }
      if Matches(db, Selects(t), id, r) { SelectedBelongs(db, t, r, id); }
    }
  }

  // ----- retained accounts

  predicate OperationTable(t: Table) {
    t == VtxoOperation || t == RenewalOperation || t == DelegationOperation || t == BoardOperation
  }

  /** operation_id is the primary key of the operation tables. */
  ghost predicate KeysUnique(db: Tables) {
    forall a, b :: a in db && b in db && a.table == b.table && OperationTable(a.table) && a.row.op == b.row.op ==> a == b
  }

  lemma OneOwner(db: Tables, t: Table, r: Row, a: string, b: string)
    requires KeysUnique(db) && t != Pending && Matches(db, Selects(t), a, r) && Matches(db, Selects(t), b, r)
    ensures a == b
  {
    match Selects(t)
    case OpIn(operations) =>
      assert OperationTable(operations);
      var x :| x in db && x.table == operations && x.row.op == r.op && x.row.vault == a;
      var y :| y in db && y.table == operations && y.row.op == r.op && y.row.vault == b;
      assert x == y;
    case _ =>
  }

  /** The invite that a pending enrollment holds was consumed by none of the accounts. */
  ghost predicate InviteFree(db: Tables, ids: seq<string>, token: string) {
    forall x :: x in db && x.table == Invite && x.row.token == token && x.row.consumed.Some? ==> x.row.consumed.value !in ids
  }

  /** A pending enrollment stays exactly when it names no retired account and its invite was
      consumed by none. */
  lemma PendingStaysIff(db: Tables, ids: seq<string>, r: Row)
    requires Stored(Pending, r) in db
    ensures Stored(Pending, r) in Retire(db, Statements(), ids) <==> r.vault !in ids && InviteFree(db, ids, r.token)
  {
    StatementsOrdered();
    RetireSpares(db, Statements(), ids);
    forall id ensures Spared(db, Statements(), id, |Statements()|, Pending, r) <==>
                      !Matches(db, TokenIn(Invite), id, r) && r.vault != id
    {
      SparedByLast(db, id, Pending, r);
    }
    forall x | x in db && x.table == Invite && x.row.token == r.token && x.row.consumed.Some?
      ensures Matches(db, TokenIn(Invite), x.row.consumed.value, r)
    {
    }
  }

  lemma BelongingRowStays(db: Tables, ids: seq<string>, t: Table, r: Row, owner: string)
    requires Clean(db) && KeysUnique(db) && Stored(t, r) in db && t != Pending
    requires BelongsTo(db, t, r, owner) && owner !in ids
    ensures Stored(t, r) in Retire(db, Statements(), ids)
  {
    RetireIsTheCascade(db, ids, t, r);
    BelongingIsSelected(db, t, r, owner);
    forall id | id in ids ensures !BelongsTo(db, t, r, id) {
      if BelongsTo(db, t, r, id) {
        BelongingIsSelected(db, t, r, id);
        OneOwner(db, t, r, owner, id);
      }
    }
  }

  /** Every row of an account that is not retired stays as it was, a pending enrollment if
      and only if no retired account consumed its invite. */
  lemma RetainedRowsStay(db: Tables, ids: seq<string>, t: Table, r: Row, owner: string)
    requires Clean(db) && KeysUnique(db) && Stored(t, r) in db && owner !in ids
    requires if t == Pending then r.vault == owner else BelongsTo(db, t, r, owner)
    ensures Stored(t, r) in Retire(db, Statements(), ids) <==> (t == Pending ==> InviteFree(db, ids, r.token))
  {
    if t == Pending { PendingStaysIff(db, ids, r); } else { BelongingRowStays(db, ids, t, r, owner); }
  }

  // ----- the pending enrollments that the writers leave

  /** token_hash is unique in both tables. */
  ghost predicate TokensUnique(db: Tables) {
    forall x, y :: x in db && y in db && x.table == y.table && (x.table == Invite || x.table == Pending) && x.row.token == y.row.token
      ==> x == y
  }

  /** No pending enrollment holds a consumed invite. */
  ghost predicate PendingsFree(db: Tables) {
    forall x, y :: x in db && y in db && x.table == Pending && y.table == Invite && x.row.token == y.row.token ==> y.row.consumed.None?
  }

  predicate Available(db: Tables, token: string) {
    exists x :: x in db && x.table == Invite && x.row.token == token && x.row.consumed.None?
  }

  function WithoutPending(db: Tables, token: string): Tables { set x | x in db && !(x.table == Pending && x.row.token == token) }

  /** reservePendingEnrollmentTx: inserts a row for an available invite, or replaces an
      expired one; `live` says that the stored one is answered again. */
  function ReservePending(db: Tables, r: Row, live: bool): Tables {
    if !Available(db, r.token) || live then db else WithoutPending(db, r.token) + {Stored(Pending, r)}
  }

  /** CreateVault with the pending enrollment it completes: the row goes, the invite is
      consumed, the vault is there. */
  function CreateVault(db: Tables, vault: Row, pending: Row): Tables {
    if !Available(db, pending.token) || Stored(Pending, pending) !in db then db
    else
      (set x | x in WithoutPending(db, pending.token) ::
         if x.table == Invite && x.row.token == pending.token then Stored(Invite, x.row.(consumed := Some(vault.vault))) else x)
      + {Stored(Vault, vault)}
  }

  lemma ReserveKeepsFree(db: Tables, r: Row, live: bool)
    requires TokensUnique(db) && PendingsFree(db)
    ensures TokensUnique(ReservePending(db, r, live)) && PendingsFree(ReservePending(db, r, live))
  {
  }

  lemma CreateKeepsFree(db: Tables, vault: Row, pending: Row)
    requires TokensUnique(db) && PendingsFree(db)
    ensures TokensUnique(CreateVault(db, vault, pending)) && PendingsFree(CreateVault(db, vault, pending))
  {
  }

  /** What the two writers leave: a reserved row is the only pending one of its invite, and a
      created vault has consumed the invite of the row it completes, which is gone. */
  lemma WrittenExactly(db: Tables, r: Row, live: bool, vault: Row)
    requires TokensUnique(db) && exists x :: x in db && x.table == Invite && x.row.token == r.token && x.row.consumed.None?
    ensures !live ==> forall x :: x in ReservePending(db, r, live) <==>
              x == Stored(Pending, r) || (x in db && !(x.table == Pending && x.row.token == r.token))
    ensures live ==> ReservePending(db, r, live) == db
    ensures Stored(Pending, r) in db ==>
              var after := CreateVault(db, vault, r);
              && Stored(Vault, vault) in after && (forall x :: x in after && x.table == Pending ==> x in db && x.row.token != r.token)
              && (forall x :: x in after && x.table == Invite && x.row.token == r.token ==> x.row.consumed == Some(vault.vault))
              && (forall x :: x in db && x.table != Pending && !(x.table == Invite && x.row.token == r.token) ==> x in after)
              && (forall x :: x in db && x.table == Pending && x.row.token != r.token ==> x in after)
    ensures Stored(Pending, r) !in db ==> CreateVault(db, vault, r) == db
  {
  }

  /** So in a database that was written by these every retained pending enrollment stays. */
  lemma FreePendingsStay(db: Tables, ids: seq<string>, r: Row)
    requires PendingsFree(db) && Stored(Pending, r) in db
    ensures Stored(Pending, r) in Retire(db, Statements(), ids) <==> r.vault !in ids
  {
    PendingStaysIff(db, ids, r);
    forall x | x in db && x.table == Invite && x.row.token == r.token ensures x.row.consumed.None? {
      assert Stored(Pending, r).table == Pending;
    }
  }

  function VaultRow(id: string, template: string): Row { Row(id, "", 0, "", "", None, template, "") }

  function InviteRow(token: string, consumed: string): Row { Row("", "", 0, "", token, Some(consumed), "", "") }

  function PendingRow(id: string, token: string): Row { Row(id, "", 0, "", token, None, "", "") }

  /** A retained account with a pending enrollment, and a retired one that consumed its invite. */
  function SharedInvite(kept: string, gone: string, token: string): Tables {
    { Stored(Vault, VaultRow(kept, "current")), Stored(Vault, VaultRow(gone, "vaulted-light-v1")),
      Stored(Invite, InviteRow(token, gone)), Stored(Pending, PendingRow(kept, token)) }
  }

  lemma SharedInviteResolved(kept: string, gone: string, token: string, t: Table, child: Row)
    requires Stored(t, child) in SharedInvite(kept, gone, token)
    ensures Resolved(SharedInvite(kept, gone, token), t, child)
  {
    var db, goes, invite := SharedInvite(kept, gone, token), VaultRow(gone, "vaulted-light-v1"), InviteRow(token, gone);
    assert Stored(Vault, goes) in db && Stored(Invite, invite) in db;
    match t
    case Vault =>
    case Invite => assert RefersTo(ByConsumed, child, goes);
    case Pending => assert RefersTo(ByToken, child, invite);
    case _ =>
  }

  lemma SharedInviteIsSound(kept: string, gone: string, token: string)
    ensures Clean(SharedInvite(kept, gone, token)) && KeysUnique(SharedInvite(kept, gone, token))
  {
    var db := SharedInvite(kept, gone, token);
    forall t, child | Stored(t, child) in db ensures Resolved(db, t, child) { SharedInviteResolved(kept, gone, token, t, child); }
  }

  lemma SharedInviteTemplates(kept: string, gone: string, token: string)
    requires kept != gone
    ensures RetiredAccount(SharedInvite(kept, gone, token), gone) && !RetiredAccount(SharedInvite(kept, gone, token), kept)
  {
    var db := SharedInvite(kept, gone, token);
    assert Stored(Vault, VaultRow(gone, "vaulted-light-v1")) in db;
    assert "current"[0] == 'c' && !RetiredTemplate("current");
  }

  /** A database the schema admits in which a retained account loses its pending enrollment. */
  lemma RetainedPendingGoes(kept: string, gone: string, token: string)
    requires kept != gone
    ensures var db := SharedInvite(kept, gone, token);
            && Clean(db) && KeysUnique(db) && RetiredAccount(db, gone) && !RetiredAccount(db, kept)
            && Stored(Pending, PendingRow(kept, token)) in db
            && Stored(Pending, PendingRow(kept, token)) !in Retire(db, Statements(), [gone])
  {
    var db, invite, pending := SharedInvite(kept, gone, token), InviteRow(token, gone), PendingRow(kept, token);
    SharedInviteIsSound(kept, gone, token);
    SharedInviteTemplates(kept, gone, token);
    assert Stored(Pending, pending) in db && Stored(Invite, invite) in db;
    PendingStaysIff(db, [gone], pending);
  }

  // ----- the economic sequence

  predicate Economic(t: Table) {
    || t == VtxoOperation || t == BoardAuthorization || t == BoardDispatch || t == BoardSubmission
    || t == RenewalOperation || t == RenewalEvent || t == DelegationOperation || t == DelegationEvent
    || t == SavingsEvent || t == BoardConflict
  }

  function EconomicRows(db: Tables): Tables { set x | x in db && Economic(x.table) }

  /** The count SQLite returns as a signed 64-bit integer, or its overflow. */
  function EconomicCount(db: Tables): (n: Option<nat>) {
    if |EconomicRows(db)| > MAX_I64 then None else Some(|EconomicRows(db)|)
  }

  /** The sequence counts the rows of exactly these ten tables: a row written to one of them
      raises it by one, and no other row changes it. */
  lemma CountedRows(db: Tables, x: Stored)
    requires x !in db
    ensures |EconomicRows(db + {x})| == |EconomicRows(db)| +
            match x.table
            case VtxoOperation => 1
            case BoardAuthorization => 1
            case BoardDispatch => 1
            case BoardSubmission => 1
            case BoardConflict => 1
            case RenewalOperation => 1
            case RenewalEvent => 1
            case DelegationOperation => 1
            case DelegationEvent => 1
            case SavingsEvent => 1
            case _ => 0
  {
    var counted := EconomicRows(db);
    assert EconomicRows(db + {x}) == if Economic(x.table) then counted + {x} else counted;
  }

  lemma CountShrinks(small: Tables, large: Tables)
    requires small <= large
    ensures |EconomicRows(small)| <= |EconomicRows(large)|
  {
    SubsetIsSmaller(EconomicRows(small), EconomicRows(large));
  }

  // ----- the migration

  predicate RetiredTemplate(template: string) {
    || template == "phone-connector-recovery-savings-v1" || template == "phone-connector-recovery-savings-v2"
    || template == "vaulted-light-v1" || template == "phone-hww-recovery-savings-v1"
  }

  ghost predicate RetiredAccount(db: Tables, id: string) {
    exists x :: x in db && x.table == Vault && x.row.vault == id && RetiredTemplate(x.row.template)
  }

  /** The ledger database. `connectorOperations` is a table that only schema 11 has, `base`
      the row that only schema 12 has. */
  class LedgerDatabase {
    var tables: Tables
    var connectorOperations: set<string>
    var base: Option<nat>
    var version: nat

    constructor (tables: Tables, connectorOperations: set<string>, base: Option<nat>, version: nat)
      ensures this.tables == tables && this.connectorOperations == connectorOperations
      ensures this.base == base && this.version == version
    {
      this.tables, this.connectorOperations := tables, connectorOperations;
      this.base, this.version := base, version;
    }

    /** deleteRetiredAccount: no statement ever leaves a dangling reference. */
    method DeleteRetiredAccount(id: string)
      requires Clean(tables)
      modifies `tables
      ensures tables == After(old(tables), Statements(), id, |Statements()|) && Clean(tables)
    {
      var at := Statements();
      StatementsOrdered();
      for k := 0 to |at|
        invariant tables == After(old(tables), at, id, k) && Clean(tables)
      {
        tables := Exec(tables, at[k], id);
        CleanThroughout(old(tables), at, id, k + 1);
      }
    }

    method CollectRetired() returns (ids: seq<string>)
      ensures forall id :: id in ids <==> RetiredAccount(tables, id)
      ensures forall id :: id in ids <==>
                exists x :: x in tables && x.table == Vault && x.row.vault == id &&
                  x.row.template in {"phone-connector-recovery-savings-v1", "phone-connector-recovery-savings-v2",
                                     "vaulted-light-v1", "phone-hww-recovery-savings-v1"}
    {
      ids := [];
      var todo := tables;
      while todo != {}
        invariant todo <= tables
        invariant forall id :: id in ids <==>
          exists x :: x in tables - todo && x.table == Vault && x.row.vault == id && RetiredTemplate(x.row.template)
        decreases todo
      {
        var x :| x in todo;
        if x.table == Vault && RetiredTemplate(x.row.template) {
          ids := ids + [x.row.vault];
        }
        ghost var done := tables - todo;
        todo := todo - {x};
        assert tables - todo == done + {x};
      }
      assert tables - todo == tables;
    }

    /** retireSchemaEleven in its transaction. `authentic` is the verdict on every
        descriptor, credential and ownership row. A refusal changes nothing. */
    method RetireSchemaEleven(authentic: bool) returns (ok: bool)
      requires Clean(tables)
      modifies this
      ensures Clean(tables) && tables <= old(tables)
      ensures !ok ==> unchanged(`tables, `connectorOperations, `base, `version)
      ensures ok ==> old(version) == 11 && version == 12 && connectorOperations == {} && authentic
      ensures ok ==> base.Some? && base.value <= MAX_I64
      ensures ok ==> base.value + |EconomicRows(tables)| == |EconomicRows(old(tables))| + |old(connectorOperations)|
      ensures ok ==> forall t, r :: Stored(t, r) in old(tables) ==>
                (Stored(t, r) !in tables <==>
                   exists id :: RetiredAccount(old(tables), id) && (BelongsTo(old(tables), t, r, id) || (t == Pending && r.vault == id)))
      ensures authentic && old(version) == 11 && |EconomicRows(old(tables))| + |old(connectorOperations)| <= MAX_I64 ==> ok
    {
      var before := EconomicCount(tables);
      if !authentic || before.None? || |connectorOperations| > MAX_U64 - before.value {
        return false;
      }
      var total := before.value + |connectorOperations|;
      var ids := CollectRetired();
      var saved := tables;
      for i := 0 to |ids|
        invariant tables == Retire(saved, Statements(), ids[..i]) && Clean(tables)
        invariant saved == old(tables) && unchanged(`connectorOperations, `base, `version)
      {
        assert ids[..i + 1][..i] == ids[..i];
        DeleteRetiredAccount(ids[i]);
      }
      assert ids[..|ids|] == ids;
      RetireShrinks(saved, Statements(), ids);
      CountShrinks(tables, saved);
      var after := EconomicCount(tables).value;
      if total - after > MAX_I64 || version != 11 {
        tables := saved;
        return false;
      }
      forall t, r | Stored(t, r) in saved
        ensures Stored(t, r) !in tables <==>
          exists id :: RetiredAccount(saved, id) && (BelongsTo(saved, t, r, id) || (t == Pending && r.vault == id))
      {
        RetireIsTheCascade(saved, ids, t, r);
      }
      connectorOperations, base, version := {}, Some(total - after), 12;
      return true;
    }

    /** initializeIntegrityState: whichever way a database is opened, its economic
        sequence is what it was; `shapeOk` is the verdict on the schema text. */
    method InitializeIntegrityState(shapeOk: bool, authentic: bool) returns (ok: bool)
      requires Clean(tables)
      modifies this
      ensures Clean(tables)
      ensures !ok ==> unchanged(`tables, `connectorOperations, `base, `version)
      ensures ok ==> version == 12 && base.Some?
      ensures ok ==> shapeOk && old(version) in {11, 12}
      ensures shapeOk && old(version) == 12 && (old(base).Some? || (EconomicRows(old(tables)) == {} && forall x :: x in old(tables) ==> x.table != Vault)) ==> ok
      ensures shapeOk && old(version) == 11 && authentic && |EconomicRows(old(tables))| + |old(connectorOperations)| <= MAX_I64 ==> ok
      ensures ok && old(version) == 11 ==>
                base.value + |EconomicRows(tables)| == |EconomicRows(old(tables))| + |old(connectorOperations)|
      ensures ok && old(version) == 12 ==> tables == old(tables) && (old(base).Some? ==> base == old(base))
      ensures ok && old(version) == 12 && old(base).None? ==>
                base == Some(0) && EconomicRows(tables) == {} && forall x :: x in tables ==> x.table != Vault
    {
      if !shapeOk || (version != 11 && version != 12) {
        return false;
      }
      if version == 11 {
        ok := RetireSchemaEleven(authentic);
        return;
      }
      if base.None? {
        var vaults := set x | x in tables && x.table == Vault;
        if EconomicRows(tables) != {} || vaults != {} {
          return false;
        }
        assert forall x :: x in tables && x.table == Vault ==> x in vaults;
        base := Some(0);
      }
      return true;
    }
  }
}
