/**
 Concurrent writers of identity values.  Each transaction reads its rows, takes one advisory lock per
 key of its list, searches field by field on whatever is committed at that moment, and commits; a lock
 is released only when its transaction ends.  Every sequence of actions is a run.
 */
module LockProtocol {
  import opened Prelude
  import opened PartnerGroup
  import opened OwnerGroups
  import opened IdentityLocks

  type TxnId = nat

  /** The tenant, its policy, and the hash that turns a key text into a lock number. */
  datatype World = World(client: ClientId, policy: Policy, hash: string -> int)

  /** `our`, `details` and `except` are what the writer read before it took its locks; `keys` is its
      key list. */
  datatype Txn = Txn(op: Op, our: Option<PartnerId>, details: Details, except: Option<PartnerId>,
                     keys: seq<string>, locked: nat, searched: nat, done: bool)

  datatype State = State(db: Db, held: map<int, TxnId>, txns: seq<Txn>)

  datatype Action = Begin(op: Op) | Lock(t: TxnId) | Search(t: TxnId) | Commit(t: TxnId) | Abort(t: TxnId)

  /** The operations that take identity locks, and what each refuses at once. */
  predicate CanBegin(db: Db, op: Op) {
    match op
    case CreateParent(id, raw, phone) => id !in db.partners
    case ApproveParent(id) => LiveParent(db, id)
    case LinkOutlet(o, parent, seen) => LinkAllowed(db, parent, seen) && seen == SeenGroup(db, o)
    case KycWrite(o, owner, raw, phone) => KycAllowed(db, o, owner)
    case _ => false
  }

  function NewTxn(w: World, op: Op, our: Option<PartnerId>, details: Details,
                  except: Option<PartnerId>): Txn
  {
    Txn(op, our, details, except, LockOrder(w.client, details, w.policy), 0, 0, false)
  }

  function Opened(w: World, db: Db, op: Op): Txn
    requires CanBegin(db, op)
  {
    match op
    case CreateParent(id, raw, phone) => NewTxn(w, op, None, Canonical(raw), None)
    case ApproveParent(id) =>
      NewTxn(w, op, Some(id), Canonical(db.partners[id].details), Some(id))
    case LinkOutlet(o, parent, seen) => NewTxn(w, op, Some(parent), LinkDetails(db, o), LinkOwner(db, o))
    case KycWrite(o, owner, raw, phone) =>
      NewTxn(w, op, db.outlets[o].parentId, Canonical(raw), db.outlets[o].partner)
  }

  /** The rows the transaction writes still allow it: a created id is still free, the parent is still
      live, and the outlet has not been moved to another group or given another owner. */
  predicate RowsKept(db: Db, txn: Txn) {
    match txn.op
    case CreateParent(id, raw, phone) => id !in db.partners
    case ApproveParent(id) => LiveParent(db, id)
    case LinkOutlet(o, parent, seen) =>
      LiveParent(db, parent) &&
      (o in db.outlets ==> db.outlets[o].parentId in {None, Some(parent)})
    case KycWrite(o, owner, raw, phone) =>
      KycAllowed(db, o, owner) && db.outlets[o].partner == txn.except &&
      (txn.our.Some? ==> db.outlets[o].parentId == txn.our)
    case _ => false
  }

  /** What a commit writes. */
  function Written(db: Db, txn: Txn): Db {
    match txn.op
    case CreateParent(id, raw, phone) =>
      if id in db.partners then db    // the unique index refuses the row
      else db.(partners := db.partners[id := Partner(true, false, txn.details, phone)])
    case ApproveParent(id) =>
      if id !in db.partners then db
      else db.(partners := db.partners[id := db.partners[id].(details := txn.details)])
    case LinkOutlet(o, parent, seen) => Linked(db, o, parent)
    case KycWrite(o, owner, raw, phone) =>
      if KycAllowed(db, o, owner) then KycWritten(db, o, owner, txn.details, phone) else db
    case _ => db
  }

  /** The lock number of the i-th key. */
  function LockOf(w: World, txn: Txn, i: nat): int
    requires i < |txn.keys|
  {
    (w.hash)(txn.keys[i])
  }

  predicate Running(st: State, t: TxnId) { t < |st.txns| && !st.txns[t].done }

  predicate WantsLock(w: World, st: State, t: TxnId) {
    Running(st, t) && st.txns[t].locked < |st.txns[t].keys|
  }

  function Wanted(w: World, st: State, t: TxnId): int
    requires WantsLock(w, st, t)
  {
    LockOf(w, st.txns[t], st.txns[t].locked)
  }

  predicate CanSearch(w: World, st: State, t: TxnId) {
    Running(st, t) && st.txns[t].locked == |st.txns[t].keys| && st.txns[t].searched < |FIELDS|
  }

  predicate CanCommit(w: World, st: State, t: TxnId) {
    Running(st, t) && st.txns[t].locked == |st.txns[t].keys| && st.txns[t].searched == |FIELDS|
  }

  function Ended(st: State, t: TxnId): State
    requires t < |st.txns|
  {
    State(st.db, map x | x in st.held && st.held[x] != t :: st.held[x],
          st.txns[t := st.txns[t].(done := true)])
  }

  function Begun(w: World, st: State, op: Op): State {
    if CanBegin(st.db, op) then st.(txns := st.txns + [Opened(w, st.db, op)]) else st
  }

  /** Waits when another transaction has the lock; a transaction may take its own lock again. */
  function Locked(w: World, st: State, t: TxnId): State {
    if !WantsLock(w, st, t) then st
    else
      var x := Wanted(w, st, t);
      if x in st.held && st.held[x] != t then st
      else st.(held := st.held[x := t],
               txns := st.txns[t := st.txns[t].(locked := st.txns[t].locked + 1)])
  }

  /** A clash rolls the transaction back. */
  ghost function Searched(w: World, st: State, t: TxnId): State {
    if !CanSearch(w, st, t) then st
    else
      var txn := st.txns[t];
      if FieldClashes(st.db, txn.our, txn.details, w.policy, txn.except, FIELDS[txn.searched])
      then Ended(st, t)
      else st.(txns := st.txns[t := txn.(searched := txn.searched + 1)])
  }

  function Committed(w: World, st: State, t: TxnId): State {
    if CanCommit(w, st, t) then Ended(st, t).(db := Written(st.db, st.txns[t])) else st
  }

  ghost function Apply(w: World, st: State, a: Action): State {
    match a
    case Begin(op) => Begun(w, st, op)
    case Lock(t) => Locked(w, st, t)
    case Search(t) => Searched(w, st, t)
    case Commit(t) => Committed(w, st, t)
    case Abort(t) => if Running(st, t) then Ended(st, t) else st
  }

  ghost function Exec(w: World, db: Db, acts: seq<Action>): State {
    if acts == [] then State(db, map[], [])
    else Apply(w, Exec(w, db, acts[..|acts| - 1]), acts[|acts| - 1])
  }

  /** The rule for uniqueness: a commit still finds the rows it read outside its locks. */
  predicate SteadyStep(w: World, st: State, a: Action) {
    a.Commit? && CanCommit(w, st, a.t) ==> RowsKept(st.db, st.txns[a.t])
  }

  ghost predicate Steady(w: World, db: Db, acts: seq<Action>) {
    forall n: nat :: n < |acts| ==> SteadyStep(w, Exec(w, db, acts[..n]), acts[n])
  }

  // ---- Locks ------------------------------------------------------------------------------------

  /** Lock `x` is the lock of a key the transaction has taken. */
  predicate Took(w: World, txn: Txn, x: int) {
    exists i: nat :: i < txn.locked && i < |txn.keys| && LockOf(w, txn, i) == x
  }

  /** A lock has one owner at a time, a running transaction; it has every lock it took. */
  ghost predicate LocksAgree(w: World, st: State) {
    && (forall t: TxnId | Running(st, t) :: st.txns[t].locked <= |st.txns[t].keys|)
    && (forall t: TxnId | Running(st, t) && st.txns[t].searched > 0 ::
          st.txns[t].locked == |st.txns[t].keys|)
    && (forall t: TxnId, x | Running(st, t) && Took(w, st.txns[t], x) ::
          x in st.held && st.held[x] == t)
    && (forall x | x in st.held :: Running(st, st.held[x]) && Took(w, st.txns[st.held[x]], x))
  }

  lemma TookMore(w: World, txn: Txn, x: int)
    requires txn.locked < |txn.keys|
    ensures Took(w, txn.(locked := txn.locked + 1), x) <==>
      Took(w, txn, x) || x == LockOf(w, txn, txn.locked)
  {
    var more := txn.(locked := txn.locked + 1);
    if Took(w, txn, x) {
      var i: nat :| i < txn.locked && i < |txn.keys| && LockOf(w, txn, i) == x;
      assert LockOf(w, more, i) == x;
    }
    if x == LockOf(w, txn, txn.locked) { assert LockOf(w, more, txn.locked) == x; }
    if Took(w, more, x) {
      var i: nat :| i < more.locked && i < |more.keys| && LockOf(w, more, i) == x;
      assert LockOf(w, txn, i) == x;
    }
  }

  lemma SearchedTook(w: World, txn: Txn, n: nat, x: int)
    ensures Took(w, txn.(searched := n), x) <==> Took(w, txn, x)
  {
    var more := txn.(searched := n);
    if Took(w, txn, x) {
      var i: nat :| i < txn.locked && i < |txn.keys| && LockOf(w, txn, i) == x;
      assert LockOf(w, more, i) == x;
    }
    if Took(w, more, x) {
      var i: nat :| i < more.locked && i < |more.keys| && LockOf(w, more, i) == x;
      assert LockOf(w, txn, i) == x;
    }
  }

  lemma EndKeepsLocks(w: World, st: State, t: TxnId)
    requires LocksAgree(w, st) && Running(st, t)
    ensures LocksAgree(w, Ended(st, t))
  {
  }

  lemma BeginKeepsLocks(w: World, st: State, op: Op)
    requires LocksAgree(w, st)
    ensures LocksAgree(w, Begun(w, st, op))
  {
  }

  lemma LockKeepsLocks(w: World, st: State, t: TxnId)
    requires LocksAgree(w, st)
    ensures LocksAgree(w, Locked(w, st, t))
  {
    if WantsLock(w, st, t) {
      forall x { TookMore(w, st.txns[t], x); }
    }
  }

  lemma SearchKeepsLocks(w: World, st: State, t: TxnId)
    requires LocksAgree(w, st)
    ensures LocksAgree(w, Searched(w, st, t))
  {
    if CanSearch(w, st, t) {
      EndKeepsLocks(w, st, t);
      forall x { SearchedTook(w, st.txns[t], st.txns[t].searched + 1, x); }
    }
  }

  lemma CommitKeepsLocks(w: World, st: State, t: TxnId)
    requires LocksAgree(w, st)
    ensures LocksAgree(w, Committed(w, st, t))
  {
    if CanCommit(w, st, t) { EndKeepsLocks(w, st, t); }
  }

  lemma StepKeepsLocks(w: World, st: State, a: Action)
    requires LocksAgree(w, st)
    ensures LocksAgree(w, Apply(w, st, a))
  {
    match a
    case Begin(op) => BeginKeepsLocks(w, st, op);
    case Lock(t) => LockKeepsLocks(w, st, t);
    case Search(t) => SearchKeepsLocks(w, st, t);
    case Commit(t) => CommitKeepsLocks(w, st, t);
    case Abort(t) => if Running(st, t) { EndKeepsLocks(w, st, t); }
  }

  lemma {:induction false} RunKeepsLocks(w: World, db: Db, acts: seq<Action>)
    ensures LocksAgree(w, Exec(w, db, acts))
  {
    if acts != [] {
      RunKeepsLocks(w, db, acts[..|acts| - 1]);
      StepKeepsLocks(w, Exec(w, db, acts[..|acts| - 1]), acts[|acts| - 1]);
    }
  }

  // ---- Uniqueness -------------------------------------------------------------------------------

  /** The searches a running transaction has done are still clean on the tables as they are now. */
  ghost predicate StillClean(w: World, db: Db, txn: Txn) {
    forall i: nat | i < txn.searched && i < |FIELDS| ::
      !FieldClashes(db, txn.our, txn.details, w.policy, txn.except, FIELDS[i])
  }

  /** What the transaction read fits its operation. */
  predicate Shaped(w: World, txn: Txn) {
    && txn.details == Canonical(txn.details)
    && txn.keys == LockOrder(w.client, txn.details, w.policy)
    && match txn.op
       case CreateParent(id, raw, phone) => txn.our == None && txn.except == None
       case ApproveParent(id) => txn.our == Some(id) && txn.except == Some(id)
       case LinkOutlet(o, parent, seen) => txn.our == Some(parent)
       case KycWrite(o, owner, raw, phone) => txn.except in {None, Some(owner)}
       case _ => false
  }

  ghost predicate Inv(w: World, st: State) {
    && WellFormed(st.db) && UniqueOutsideGroups(w.policy, st.db) && LocksAgree(w, st)
    && forall t: TxnId | Running(st, t) :: Shaped(w, st.txns[t]) && StillClean(w, st.db, st.txns[t])
  }

  /** Every value in the new tables was there before, or is one `who` has just written. */
  ghost predicate OnlyWrites(db: Db, db': Db, d: Details) {
    forall p, f: Field | LivePartner(db', p) :: db'.partners[p].details.Get(f) == d.Get(f) ||
      (LivePartner(db, p) && db'.partners[p].details.Get(f) == db.partners[p].details.Get(f))
  }

  lemma CommitWrites(w: World, db: Db, txn: Txn)
    requires WellFormed(db) && RowsKept(db, txn) && Shaped(w, txn)
    ensures GroupsGrow(db, Written(db, txn)) && OnlyWrites(db, Written(db, txn), txn.details)
  {
    var db' := Written(db, txn);
    match txn.op
    case CreateParent(id, raw, phone) => PlacesKept(db, db');
    case ApproveParent(id) => PlacesKept(db, db');
    case LinkOutlet(o, parent, seen) => PlacesKept(db, db');
    case KycWrite(o, owner, raw, phone) =>
      KycGrowsGroups(db, o, owner, txn.details, phone);
      if db.outlets[o].partner.Some? {
        forall f: Field { PatchPicks(db.partners[owner].details, txn.details, f); }
      }
  }

  lemma CommitKeepsWellFormed(w: World, db: Db, txn: Txn)
    requires WellFormed(db) && RowsKept(db, txn) && Shaped(w, txn)
    ensures WellFormed(Written(db, txn))
  {
    match txn.op
    case KycWrite(o, owner, raw, phone) => KycKeepsWellFormed(db, o, owner, txn.details, phone);
    case _ =>
  }

  lemma AllSearchedIsCleared(w: World, db: Db, txn: Txn)
    requires StillClean(w, db, txn) && txn.searched == |FIELDS|
    ensures Cleared(db, txn.our, txn.details, w.policy, txn.except)
  {
    forall f: Field, q | Enforced(f, w.policy) && Normalize(f, txn.details.Get(f)).Some? &&
      LivePartner(db, q) && txn.except != Some(q) &&
      db.partners[q].details.Get(f) == Normalize(f, txn.details.Get(f))
      ensures txn.our.Some? && InGroup(db, q, txn.our.value)
    {
      var i: nat :| i < |FIELDS| && FIELDS[i] == f by {
        assert FIELDS[0] == Pan && FIELDS[1] == Gst && FIELDS[2] == Bank && FIELDS[3] == Upi;
      }
      assert !ClashesOutside(db, txn.our, f, Normalize(f, txn.details.Get(f)).value, txn.except, q);
    }
  }

  lemma CommitKeepsUnique(w: World, db: Db, txn: Txn)
    requires WellFormed(db) && UniqueOutsideGroups(w.policy, db)
    requires RowsKept(db, txn) && Shaped(w, txn)
    requires StillClean(w, db, txn) && txn.searched == |FIELDS|
    ensures UniqueOutsideGroups(w.policy, Written(db, txn))
  {
    var db' := Written(db, txn);
    AllSearchedIsCleared(w, db, txn);
    CommitWrites(w, db, txn);
    match txn.op
    case CreateParent(id, raw, phone) =>
      WriteKeepsUnique(w.policy, db, db', id, None, txn.details, None);
    case ApproveParent(id) =>
      WriteKeepsUnique(w.policy, db, db', id, txn.our, txn.details, txn.except);
    case LinkOutlet(o, parent, seen) => FewerKeepUnique(w.policy, db, db');
    case KycWrite(o, owner, raw, phone) =>
      KycGrowsGroups(db, o, owner, txn.details, phone);
      if db.outlets[o].partner.Some? {
        forall f: Field { PatchPicks(db.partners[owner].details, txn.details, f); }
      }
      WriteKeepsUnique(w.policy, db, db', owner, txn.our, txn.details, txn.except);
  }

  /** A value the transaction enforces is behind a lock it has taken. */
  lemma ValueIsLocked(w: World, txn: Txn, f: Field)
    requires txn.locked == |txn.keys| && Shaped(w, txn) && Enforced(f, w.policy)
    requires Normalize(f, txn.details.Get(f)).Some?
    ensures Took(w, txn, (w.hash)(KeyText(w.client, f, Normalize(f, txn.details.Get(f)).value)))
  {
    FourFields(w.client, txn.details, w.policy, Bank, Gst, Pan, Upi);
    var key := KeyText(w.client, f, Normalize(f, txn.details.Get(f)).value);
    assert key in FieldKey(w.client, txn.details, w.policy, f);
    assert key in txn.keys;
    var i: nat :| i < |txn.keys| && txn.keys[i] == key;
    assert LockOf(w, txn, i) == (w.hash)(key);
  }

  /** Mutual exclusion: two running transactions never both have a lock. */
  lemma OneOwner(w: World, st: State, t: TxnId, u: TxnId, x: int)
    requires LocksAgree(w, st) && Running(st, t) && Running(st, u)
    requires Took(w, st.txns[t], x) && Took(w, st.txns[u], x)
    ensures t == u
  {
    assert st.held[x] == t;
  }

  /** Two running transactions that both have all their locks write different values. */
  lemma LockedValuesDiffer(w: World, st: State, t: TxnId, u: TxnId, f: Field)
    requires LocksAgree(w, st) && Running(st, t) && Running(st, u) && t != u
    requires st.txns[t].locked == |st.txns[t].keys| && st.txns[u].locked == |st.txns[u].keys|
    requires Shaped(w, st.txns[t]) && Shaped(w, st.txns[u])
    requires Enforced(f, w.policy) && Normalize(f, st.txns[t].details.Get(f)).Some?
    ensures Normalize(f, st.txns[u].details.Get(f)) != Normalize(f, st.txns[t].details.Get(f))
  {
    if Normalize(f, st.txns[u].details.Get(f)) == Normalize(f, st.txns[t].details.Get(f)) {
      var key := KeyText(w.client, f, Normalize(f, st.txns[t].details.Get(f)).value);
      var x := (w.hash)(key);
      ValueIsLocked(w, st.txns[t], f);
      ValueIsLocked(w, st.txns[u], f);
      OneOwner(w, st, t, u, x);
    }
  }

  /** The commit of another transaction leaves a finished search clean: it adds no holder of a value
      this one has locked, and takes nobody out of a group. */
  lemma CommitKeepsClean(w: World, st: State, t: TxnId, u: TxnId)
    requires Inv(w, st) && Running(st, t) && CanCommit(w, st, u) && t != u
    requires RowsKept(st.db, st.txns[u])
    ensures StillClean(w, Written(st.db, st.txns[u]), st.txns[t])
  {
    var txn := st.txns[t];
    var db' := Written(st.db, st.txns[u]);
    CommitWrites(w, st.db, st.txns[u]);
    forall i: nat | i < txn.searched && i < |FIELDS|
      ensures !FieldClashes(db', txn.our, txn.details, w.policy, txn.except, FIELDS[i])
    {
      var f := FIELDS[i];
      var value := Normalize(f, txn.details.Get(f));
      assert !FieldClashes(st.db, txn.our, txn.details, w.policy, txn.except, f);
      if Enforced(f, w.policy) && value.Some? {
        LockedValuesDiffer(w, st, t, u, f);
        CanonicalGet(st.txns[u].details, f);
        forall q ensures !ClashesOutside(db', txn.our, f, value.value, txn.except, q) {
          assert !ClashesOutside(st.db, txn.our, f, value.value, txn.except, q);
        }
      }
    }
  }

  lemma OpenedIsShaped(w: World, db: Db, op: Op)
    requires WellFormed(db) && CanBegin(db, op)
    ensures Shaped(w, Opened(w, db, op))
  {
    match op
    case CreateParent(id, raw, phone) => CanonicalGet(raw, Pan);
    case ApproveParent(id) =>
    case LinkOutlet(o, parent, seen) => CanonicalGet(NO_DETAILS, Pan);
    case KycWrite(o, owner, raw, phone) => CanonicalGet(raw, Pan);
  }

  lemma CommitKeepsInv(w: World, st: State, t: TxnId)
    requires Inv(w, st) && CanCommit(w, st, t) && RowsKept(st.db, st.txns[t])
    ensures Inv(w, Apply(w, st, Commit(t)))
  {
    var st' := Apply(w, st, Commit(t));
    StepKeepsLocks(w, st, Commit(t));
    CommitKeepsWellFormed(w, st.db, st.txns[t]);
    CommitKeepsUnique(w, st.db, st.txns[t]);
    forall u: TxnId | Running(st', u)
      ensures Shaped(w, st'.txns[u]) && StillClean(w, st'.db, st'.txns[u])
    {
      CommitKeepsClean(w, st, u, t);
    }
  }

  /** A step that leaves the tables alone: what a transaction read stays, and a search is recorded only
      when it is clean. */
  lemma QuietKeepsClean(w: World, st: State, a: Action, t: TxnId)
    requires WellFormed(st.db) && Running(Apply(w, st, a), t)
    requires Running(st, t) ==> Shaped(w, st.txns[t]) && StillClean(w, st.db, st.txns[t])
    requires a.Commit? ==> !CanCommit(w, st, a.t)
    ensures Shaped(w, Apply(w, st, a).txns[t]) && StillClean(w, st.db, Apply(w, st, a).txns[t])
  {
    match a
    case Begin(op) => if CanBegin(st.db, op) { OpenedIsShaped(w, st.db, op); }
    case Search(u) => SearchRecordsClean(w, st, u, t);
    case _ =>
  }

  lemma SearchRecordsClean(w: World, st: State, u: TxnId, t: TxnId)
    requires Running(Searched(w, st, u), t)
    requires Running(st, t) ==> Shaped(w, st.txns[t]) && StillClean(w, st.db, st.txns[t])
    ensures var txn := Searched(w, st, u).txns[t]; Shaped(w, txn) && StillClean(w, st.db, txn)
  {
    assert Running(st, t);
  }

  lemma StepKeepsInv(w: World, st: State, a: Action)
    requires Inv(w, st) && SteadyStep(w, st, a)
    ensures Inv(w, Apply(w, st, a))
  {
    if a.Commit? && CanCommit(w, st, a.t) {
      CommitKeepsInv(w, st, a.t);
    } else {
      StepKeepsLocks(w, st, a);
      TablesStay(w, st, a);
      forall t: TxnId | Running(Apply(w, st, a), t)
        ensures Shaped(w, Apply(w, st, a).txns[t]) && StillClean(w, st.db, Apply(w, st, a).txns[t])
      {
        QuietKeepsClean(w, st, a, t);
      }
    }
  }

  lemma TablesStay(w: World, st: State, a: Action)
    requires a.Commit? ==> !CanCommit(w, st, a.t)
    ensures Apply(w, st, a).db == st.db
  {
  }

  /** In every steady interleaving of any number of writers, from any tables where it holds, and for
      any hash whatever: two live partners with the same enforced value are in one group. */
  lemma {:induction false} RunKeepsUniqueness(w: World, db: Db, acts: seq<Action>)
    requires WellFormed(db) && UniqueOutsideGroups(w.policy, db) && Steady(w, db, acts)
    ensures Inv(w, Exec(w, db, acts))
    ensures UniqueOutsideGroups(w.policy, Exec(w, db, acts).db)
  {
    if acts != [] {
      var before := acts[..|acts| - 1];
      forall n: nat | n < |before|
        ensures SteadyStep(w, Exec(w, db, before[..n]), before[n])
      {
        assert before[..n] == acts[..n];
      }
      RunKeepsUniqueness(w, db, before);
      assert SteadyStep(w, Exec(w, db, acts[..|acts| - 1]), acts[|acts| - 1]);
      StepKeepsInv(w, Exec(w, db, before), acts[|acts| - 1]);
    }
  }

  /** A writer waits for a lock if and only if another transaction has it: never for one of its own. */
  lemma LockWaitsIff(w: World, st: State, t: TxnId)
    requires WantsLock(w, st, t)
    ensures var x := Wanted(w, st, t); var waits := x in st.held && st.held[x] != t;
      Apply(w, st, Lock(t)) == if waits then st
        else State(st.db, st.held[x := t], st.txns[t := st.txns[t].(locked := st.txns[t].locked + 1)])
  {
  }

  // ---- One writer alone -----------------------------------------------------------------------------

  lemma CleanVerdictClears(db: Db, our: Option<PartnerId>, d: Details, policy: Policy, except: Option<PartnerId>,
                           f: Field)
    requires VerdictMayBe(db, our, d, policy, except, None)
    ensures !FieldClashes(db, our, d, policy, except, f)
  {
    var i: nat :| i < |FIELDS| && FIELDS[i] == f by {
      assert FIELDS[0] == Pan && FIELDS[1] == Gst && FIELDS[2] == Bank && FIELDS[3] == Upi;
    }
    CleanFromStart(db, our, d, policy, except, i);
  }

  /** What a writer that is alone reads, searches and commits is its operation: when the operation is accepted
      and changes something, every search is clean and the commit leaves the same tables. */
  lemma CommitDoesTheOp(w: World, db: Db, op: Op, db': Db)
    requires CanBegin(db, op) && Next(w.policy, db, op, db') && db' != db
    ensures Written(db, Opened(w, db, op)) == db'
    ensures var txn := Opened(w, db, op);
      forall f: Field :: !FieldClashes(db, txn.our, txn.details, w.policy, txn.except, f)
  {
    var txn := Opened(w, db, op);
    if op.CreateParent? && !HasDetails(txn.details) {
      forall f: Field ensures Normalize(f, txn.details.Get(f)) == None {}
    } else {
      assert VerdictMayBe(db, txn.our, txn.details, w.policy, txn.except, None);
      forall f: Field { CleanVerdictClears(db, txn.our, txn.details, w.policy, txn.except, f); }
    }
  }
}
