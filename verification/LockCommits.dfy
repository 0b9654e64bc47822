/** When a commit keeps outside-group uniqueness, whatever has happened to the rows it read: the exact
    condition on the tables it finds, for one commit and for a whole run of writers. */
module LockCommits {
  import opened Prelude
  import opened PartnerGroup
  import opened OwnerGroups
  import opened IdentityLocks
  import opened LockProtocol

  /** Partner `q` already has a value that `who` is about to write. */
  ghost predicate HoldsWritten(policy: Policy, db: Db, who: PartnerId, d: Details, q: PartnerId, f: Field) {
    Enforced(f, policy) && d.Get(f).Some? && q != who && LivePartner(db, q) &&
    db.partners[q].details.Get(f) == d.Get(f)
  }

  /** `q` is in a group that `who` is in, or will be in by the written outlet. */
  ghost predicate WillShare(db: Db, who: PartnerId, joins: Option<PartnerId>, q: PartnerId) {
    exists g :: InGroup(db, q, g) && (InGroup(db, who, g) || joins == Some(g))
  }

  /** On the tables it finds, everybody who has a value the commit writes, or who shares a value with the
      owner whose outlet it moves, is together with that owner afterwards. */
  ghost predicate CommitFits(policy: Policy, db: Db, txn: Txn) {
    match txn.op
    case CreateParent(id, raw, phone) =>
      id !in db.partners ==>
        forall q, f | HoldsWritten(policy, db, id, txn.details, q, f) :: InGroup(db, q, id)
    case ApproveParent(id) =>
      forall q, f | HoldsWritten(policy, db, id, txn.details, q, f) :: WillShare(db, id, None, q)
    case LinkOutlet(o, parent, seen) =>
      forall q, f | LeftBehind(policy, db, o, q, f) ::
        StaysWith(db, o, Some(parent), db.outlets[o].partner.value, q)
    case KycWrite(o, owner, raw, phone) =>
      KycAllowed(db, o, owner) ==>
        forall q, f | HoldsWritten(policy, db, owner, txn.details, q, f) ::
          WillShare(db, owner, db.outlets[o].parentId, q)
    case _ => true
  }

  /** Only the details of `who` change, and only its groups may grow. */
  ghost predicate OnlyTouches(db: Db, db': Db, who: PartnerId, d: Details) {
    && LivePartner(db', who)
    && (forall p | p != who ::
          && (LivePartner(db', p) <==> LivePartner(db, p))
          && (LivePartner(db, p) ==> db'.partners[p].details == db.partners[p].details))
    && (forall p, g | p != who :: InGroup(db', p, g) <==> InGroup(db, p, g))
    && (forall g | InGroup(db, who, g) :: InGroup(db', who, g))
    && forall f: Field ::
         || db'.partners[who].details.Get(f) == d.Get(f)
         || (d.Get(f).None? && LivePartner(db, who) &&
             db'.partners[who].details.Get(f) == db.partners[who].details.Get(f))
  }

  /** Such a write keeps uniqueness if and only if all earlier holders of its values share a group with
      the writer afterwards. */
  lemma WriteKeepsUniqueIff(policy: Policy, db: Db, db': Db, who: PartnerId, d: Details)
    requires UniqueOutsideGroups(policy, db) && OnlyTouches(db, db', who, d)
    requires forall f: Field | d.Get(f).Some? :: db'.partners[who].details.Get(f) == d.Get(f)
    ensures UniqueOutsideGroups(policy, db') <==>
      forall q, f | HoldsWritten(policy, db, who, d, q, f) :: ShareGroup(db', who, q)
  {
    if UniqueOutsideGroups(policy, db') {
      forall q, f | HoldsWritten(policy, db, who, d, q, f) ensures ShareGroup(db', who, q) {
        assert SameValue(db', who, q, f);
      }
    }
    if forall q, f | HoldsWritten(policy, db, who, d, q, f) :: ShareGroup(db', who, q) {
      forall q, f: Field | Enforced(f, policy) && SameValue(db', who, q, f) ensures ShareGroup(db', who, q) {
        WriterStaysWith(policy, db, db', who, d, q, f);
      }
      forall p, q, f | Enforced(f, policy) && SameValue(db', p, q, f) ensures ShareGroup(db', p, q) {
        if q == who {
          assert SameValue(db', who, p, f);
        } else if p != who {
          assert SameValue(db, p, q, f);
          var g :| InGroup(db, p, g) && InGroup(db, q, g);
          assert InGroup(db', p, g) && InGroup(db', q, g);
        }
      }
    }
  }

  lemma WriterStaysWith(policy: Policy, db: Db, db': Db, who: PartnerId, d: Details, q: PartnerId, f: Field)
    requires UniqueOutsideGroups(policy, db) && OnlyTouches(db, db', who, d)
    requires forall q, f | HoldsWritten(policy, db, who, d, q, f) :: ShareGroup(db', who, q)
    requires Enforced(f, policy) && SameValue(db', who, q, f)
    ensures ShareGroup(db', who, q)
  {
    if d.Get(f).Some? {
      assert HoldsWritten(policy, db, who, d, q, f);
    } else {
      assert SameValue(db, who, q, f);
      var g :| InGroup(db, who, g) && InGroup(db, q, g);
      assert InGroup(db', who, g) && InGroup(db', q, g);
    }
  }

  lemma CreateTouches(db: Db, id: PartnerId, d: Details, phone: Option<string>)
    requires WellFormed(db) && id !in db.partners
    ensures var db' := db.(partners := db.partners[id := Partner(true, false, d, phone)]);
      && OnlyTouches(db, db', id, d) && db'.partners[id].details == d
      && forall q :: q != id ==> (ShareGroup(db', id, q) <==> InGroup(db, q, id))
  {
    var db' := db.(partners := db.partners[id := Partner(true, false, d, phone)]);
    forall o, p, g ensures Places(db', o, p, g) <==> Places(db, o, p, g) {}
    forall p, g | p != id ensures InGroup(db', p, g) <==> InGroup(db, p, g) {}
    forall q | q != id ensures ShareGroup(db', id, q) <==> InGroup(db, q, id) {
      if InGroup(db, q, id) { assert InGroup(db', id, id); }
    }
  }

  lemma ApproveTouches(db: Db, id: PartnerId, d: Details)
    requires LivePartner(db, id)
    ensures var db' := db.(partners := db.partners[id := db.partners[id].(details := d)]);
      && OnlyTouches(db, db', id, d) && db'.partners[id].details == d
      && forall q :: q != id ==> (ShareGroup(db', id, q) <==> WillShare(db, id, None, q))
  {
    var db' := db.(partners := db.partners[id := db.partners[id].(details := d)]);
    forall o, p, g ensures Places(db', o, p, g) <==> Places(db, o, p, g) {}
    forall p, g ensures InGroup(db', p, g) <==> InGroup(db, p, g) {}
  }

  lemma KycGroups(db: Db, o: OutletId, owner: PartnerId, d: Details, phone: Option<string>, p: PartnerId,
                  g: PartnerId)
    requires WellFormed(db) && KycAllowed(db, o, owner)
    ensures InGroup(KycWritten(db, o, owner, d, phone), p, g) <==>
      InGroup(db, p, g) || (p == owner && db.outlets[o].parentId == Some(g))
  {
    var db' := KycWritten(db, o, owner, d, phone);
    if p == owner && db.outlets[o].parentId == Some(g) { assert Places(db', o, owner, g); }
    if InGroup(db, p, g) && !db.partners[p].isParent {
      var o' :| Places(db, o', p, g);
      assert Places(db', o', p, g);
    }
    if InGroup(db', p, g) && !db'.partners[p].isParent {
      var o' :| Places(db', o', p, g);
      assert Places(db, o', p, g) || (o' == o && p == owner && db.outlets[o].parentId == Some(g));
    }
  }

  lemma KycTouches(db: Db, o: OutletId, owner: PartnerId, d: Details, phone: Option<string>)
    requires WellFormed(db) && KycAllowed(db, o, owner)
    ensures var db' := KycWritten(db, o, owner, d, phone);
      && OnlyTouches(db, db', owner, d)
      && (forall f: Field | d.Get(f).Some? :: db'.partners[owner].details.Get(f) == d.Get(f))
      && forall q :: q != owner ==> (ShareGroup(db', owner, q) <==> WillShare(db, owner, db.outlets[o].parentId, q))
  {
    var db' := KycWritten(db, o, owner, d, phone);
    forall p, g { KycGroups(db, o, owner, d, phone, p, g); }
    if db.outlets[o].partner.Some? {
      forall f: Field { PatchPicks(db.partners[owner].details, d, f); }
      forall f: Field | d.Get(f).Some?
        ensures Patch(db.partners[owner].details, d).Get(f) == d.Get(f) {}
    }
  }

  /** A commit keeps uniqueness if and only if it fits the tables it finds. */
  lemma CommitKeepsUniqueIff(w: World, db: Db, txn: Txn)
    requires WellFormed(db) && UniqueOutsideGroups(w.policy, db) && ParentsStand(db, txn)
    ensures UniqueOutsideGroups(w.policy, Written(db, txn)) <==> CommitFits(w.policy, db, txn)
  {
    var db' := Written(db, txn);
    match txn.op
    case CreateParent(id, raw, phone) =>
      if id !in db.partners {
        CreateTouches(db, id, txn.details, phone);
        WriteKeepsUniqueIff(w.policy, db, db', id, txn.details);
      }
    case ApproveParent(id) =>
      ApproveTouches(db, id, txn.details);
      WriteKeepsUniqueIff(w.policy, db, db', id, txn.details);
    case LinkOutlet(o, parent, seen) =>
      if o in db.outlets {
        assert Linked(db, o, parent) == Moved(db, o, Some(parent));
        MoveKeepsUniqueIff(w.policy, db, o, Some(parent));
      } else {
        PlacesKept(db, db');
        FewerKeepUnique(w.policy, db, db');
      }
    case KycWrite(o, owner, raw, phone) =>
      if KycAllowed(db, o, owner) {
        KycTouches(db, o, owner, txn.details, phone);
        WriteKeepsUniqueIff(w.policy, db, db', owner, txn.details);
      }
    case _ =>
  }

  // ---- Runs -----------------------------------------------------------------------------------------------

  /** The parent that the operation names is live: it was when the transaction began, and no writer
      dissolves a parent. */
  predicate ParentsStand(db: Db, txn: Txn) {
    match txn.op
    case ApproveParent(id) => LiveParent(db, id)
    case LinkOutlet(o, parent, seen) => LiveParent(db, parent)
    case _ => true
  }

  ghost predicate TablesStand(w: World, st: State) {
    WellFormed(st.db) &&
    forall t: TxnId | Running(st, t) :: ParentsStand(st.db, st.txns[t]) && Shaped(w, st.txns[t])
  }

  lemma WrittenKeepsParents(db: Db, txn: Txn, p: PartnerId)
    requires LiveParent(db, p)
    ensures LiveParent(Written(db, txn), p)
  {
  }

  lemma WrittenIsWellFormed(w: World, db: Db, txn: Txn)
    requires WellFormed(db) && ParentsStand(db, txn) && Shaped(w, txn)
    ensures WellFormed(Written(db, txn))
  {
    match txn.op
    case LinkOutlet(o, parent, seen) => LinkKeepsWellFormed(db, o, parent);
    case KycWrite(o, owner, raw, phone) =>
      if KycAllowed(db, o, owner) { KycKeepsWellFormed(db, o, owner, txn.details, phone); }
    case CreateParent(id, raw, phone) =>
      if id !in db.partners { CreateKeepsWellFormed(db, id, txn.details, phone); }
    case ApproveParent(id) =>
    case _ =>
  }

  /** A running transaction after a step was running before it, on the same rows, or has just begun. */
  lemma RunningComesFrom(w: World, st: State, a: Action, t: TxnId)
    requires WellFormed(st.db) && Running(Apply(w, st, a), t)
    ensures if Running(st, t) then
        Apply(w, st, a).txns[t].op == st.txns[t].op && (Shaped(w, st.txns[t]) ==> Shaped(w, Apply(w, st, a).txns[t]))
      else Shaped(w, Apply(w, st, a).txns[t]) && ParentsStand(st.db, Apply(w, st, a).txns[t])
  {
    if a.Begin? && CanBegin(st.db, a.op) { OpenedIsShaped(w, st.db, a.op); }
  }

  lemma TablesMove(w: World, st: State, a: Action)
    ensures Apply(w, st, a).db == if a.Commit? && CanCommit(w, st, a.t) then Written(st.db, st.txns[a.t]) else st.db
  {
  }

  lemma StepKeepsTables(w: World, st: State, a: Action)
    requires TablesStand(w, st)
    ensures TablesStand(w, Apply(w, st, a))
  {
    TablesMove(w, st, a);
    if a.Commit? && CanCommit(w, st, a.t) {
      WrittenIsWellFormed(w, st.db, st.txns[a.t]);
      forall p | LiveParent(st.db, p) ensures LiveParent(Written(st.db, st.txns[a.t]), p) {
        WrittenKeepsParents(st.db, st.txns[a.t], p);
      }
    }
    forall t: TxnId | Running(Apply(w, st, a), t)
      ensures ParentsStand(Apply(w, st, a).db, Apply(w, st, a).txns[t]) && Shaped(w, Apply(w, st, a).txns[t])
    {
      RunningComesFrom(w, st, a, t);
    }
  }

  lemma {:induction false} RunKeepsTables(w: World, db: Db, acts: seq<Action>)
    requires WellFormed(db)
    ensures TablesStand(w, Exec(w, db, acts))
  {
    if acts != [] {
      RunKeepsTables(w, db, acts[..|acts| - 1]);
      StepKeepsTables(w, Exec(w, db, acts[..|acts| - 1]), acts[|acts| - 1]);
    }
  }

  /** The step commits nothing, or commits what fits. */
  ghost predicate FitStep(w: World, st: State, a: Action) {
    a.Commit? && CanCommit(w, st, a.t) ==> CommitFits(w.policy, st.db, st.txns[a.t])
  }

  lemma StepKeepsUniqueIffFit(w: World, st: State, a: Action)
    requires TablesStand(w, st) && UniqueOutsideGroups(w.policy, st.db)
    ensures UniqueOutsideGroups(w.policy, Apply(w, st, a).db) <==> FitStep(w, st, a)
  {
    TablesMove(w, st, a);
    if a.Commit? && CanCommit(w, st, a.t) { CommitKeepsUniqueIff(w, st.db, st.txns[a.t]); }
  }

  /** What a run has reached after `n` actions. */
  ghost function At(w: World, db: Db, acts: seq<Action>, n: nat): State
    requires n <= |acts|
  {
    Exec(w, db, acts[..n])
  }

  lemma NextAt(w: World, db: Db, acts: seq<Action>, n: nat)
    requires n < |acts|
    ensures At(w, db, acts, n + 1) == Apply(w, At(w, db, acts, n), acts[n])
  {
    assert acts[..n + 1][..n] == acts[..n];
  }

  lemma {:induction false} FitRunKeepsUnique(w: World, db: Db, acts: seq<Action>, n: nat)
    requires WellFormed(db) && UniqueOutsideGroups(w.policy, db) && n <= |acts|
    requires forall k: nat | k < n :: FitStep(w, At(w, db, acts, k), acts[k])
    ensures UniqueOutsideGroups(w.policy, At(w, db, acts, n).db)
  {
    if n > 0 {
      FitRunKeepsUnique(w, db, acts, n - 1);
      RunKeepsTables(w, db, acts[..n - 1]);
      NextAt(w, db, acts, n - 1);
      StepKeepsUniqueIffFit(w, At(w, db, acts, n - 1), acts[n - 1]);
    }
  }

  /** A run of writers, however they overlap, keeps uniqueness throughout if and only if each commit fits
      the tables it finds. */
  lemma RunKeepsUniqueIffFit(w: World, db: Db, acts: seq<Action>)
    requires WellFormed(db) && UniqueOutsideGroups(w.policy, db)
    ensures (forall n: nat | n <= |acts| :: UniqueOutsideGroups(w.policy, At(w, db, acts, n).db)) <==>
      forall n: nat | n < |acts| :: FitStep(w, At(w, db, acts, n), acts[n])
  {
    if forall n: nat | n < |acts| :: FitStep(w, At(w, db, acts, n), acts[n]) {
      forall n: nat | n <= |acts| ensures UniqueOutsideGroups(w.policy, At(w, db, acts, n).db) {
        FitRunKeepsUnique(w, db, acts, n);
      }
    } else {
      var n: nat :| n < |acts| && !FitStep(w, At(w, db, acts, n), acts[n]);
      RunKeepsTables(w, db, acts[..n]);
      NextAt(w, db, acts, n);
      assert n + 1 <= |acts|;
      if UniqueOutsideGroups(w.policy, At(w, db, acts, n).db) {
        StepKeepsUniqueIffFit(w, At(w, db, acts, n), acts[n]);
      }
    }
  }
}
