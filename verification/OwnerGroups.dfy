/**
 Owner groups over sequential runs: every operation that creates a partner, moves an outlet between
 groups or writes identity details, and what all of them together keep.
 */
module OwnerGroups {
  import opened Prelude
  import opened PartnerGroup

  datatype Op =
    | CreateParent(id: PartnerId, raw: Details, phone: Option<string>)
    | ApproveParent(id: PartnerId)
    | LinkOutlet(outlet: OutletId, parent: PartnerId, seen: Option<PartnerId>)   // an upload row
    | Ungroup(outlet: OutletId)
    | DeactivateParent(id: PartnerId)
    | KycWrite(outlet: OutletId, owner: PartnerId, raw: Details, phone: Option<string>)
    | DeleteOutlets(ids: set<OutletId>)
    | AddOutlet(outlet: OutletId, owner: PartnerId)   // data brings a further outlet of an owner

  predicate HasDetails(d: Details) { d.pan.Some? || d.gst.Some? || d.bank.Some? || d.upi.Some? }

  /** A field absent from the patch is left as it was. */
  function Patch(d: Details, patch: Details): Details {
    Details(if patch.pan.Some? then patch.pan else d.pan,
            if patch.gst.Some? then patch.gst else d.gst,
            if patch.bank.Some? then patch.bank else d.bank,
            if patch.upi.Some? then patch.upi else d.upi)
  }

  const NO_DETAILS := Details(None, None, None, None)

  predicate LiveOutlet(db: Db, o: OutletId) { o in db.outlets && !db.outlets[o].deleted }

  predicate LiveParent(db: Db, p: PartnerId) { LivePartner(db, p) && db.partners[p].isParent }

  /** The owner whose details a link checks: none for a new, ownerless or deleted outlet. */
  function LinkOwner(db: Db, o: OutletId): Option<PartnerId> {
    if LiveOutlet(db, o) && db.outlets[o].partner.Some? && db.outlets[o].partner.value in db.partners
    then db.outlets[o].partner else None
  }

  function LinkDetails(db: Db, o: OutletId): Details {
    var owner := LinkOwner(db, o);
    if owner.Some? then db.partners[owner.value].details else NO_DETAILS
  }

  /** The group of an outlet as the one read at the start of an upload request shows it: none for an
      outlet that does not exist yet or is soft-deleted. */
  function SeenGroup(db: Db, o: OutletId): Option<PartnerId> {
    if LiveOutlet(db, o) then db.outlets[o].parentId else None
  }

  predicate SeenIn(db: Db, o: OutletId, g: PartnerId) {
    o in db.outlets && db.outlets[o].parentId == Some(g)
  }

  /** The guard of an upload row trusts the group seen when the request started. */
  predicate LinkAllowed(db: Db, parent: PartnerId, seen: Option<PartnerId>) {
    LiveParent(db, parent) && seen in {None, Some(parent)}
  }

  /** The upsert finds the row by code even when it is soft-deleted. */
  function Linked(db: Db, o: OutletId, parent: PartnerId): Db {
    db.(outlets := db.outlets[o :=
          if o in db.outlets then db.outlets[o].(parentId := Some(parent))
          else Outlet(None, Some(parent), false)])
  }

  predicate HasLiveChildren(db: Db, parent: PartnerId) {
    exists o :: o in db.outlets && !db.outlets[o].deleted && db.outlets[o].parentId == Some(parent)
  }

  predicate KycAllowed(db: Db, o: OutletId, owner: PartnerId) {
    LiveOutlet(db, o) &&
    if db.outlets[o].partner.None? then owner !in db.partners
    else db.outlets[o].partner == Some(owner) && LivePartner(db, owner) &&
         !db.partners[owner].isParent
  }

  function KycWritten(db: Db, o: OutletId, owner: PartnerId, d: Details, phone: Option<string>): Db
    requires KycAllowed(db, o, owner)
  {
    if db.outlets[o].partner.None? then
      Db(db.partners[owner := Partner(false, false, d, phone)],
         db.outlets[o := db.outlets[o].(partner := Some(owner))])
    else
      var p := db.partners[owner];
      db.(partners := db.partners[owner := p.(details := Patch(p.details, d),
                                              phone := if phone.Some? then phone else p.phone)])
  }

  /** A live, grouped outlet whose owner shares no guarded detail with whoever remains. */
  ghost predicate UngroupPasses(policy: Policy, db: Db, o: OutletId) {
    LiveOutlet(db, o) && db.outlets[o].parentId.Some? &&
    !SharesWithGroup(db, db.outlets[o].parentId.value, o, db.outlets[o].partner, policy)
  }

  function Ungrouped(db: Db, o: OutletId): Db
    requires o in db.outlets
  {
    db.(outlets := db.outlets[o := db.outlets[o].(parentId := None)])
  }

  /** One operation: accepted as written below, or refused and nothing changes. */
  ghost predicate Next(policy: Policy, db: Db, op: Op, db': Db) {
    match op
    case CreateParent(id, raw, phone) =>
      var d := Canonical(raw);
      if id in db.partners then db' == db
      else
        exists v ::
          (if HasDetails(d) then VerdictMayBe(db, None, d, policy, None, v) else v == None) &&
          db' == if v.None? then db.(partners := db.partners[id := Partner(true, false, d, phone)])
                 else db
    case ApproveParent(id) =>
      if !LiveParent(db, id) then db' == db
      else
        var p := db.partners[id];
        var d := Canonical(p.details);
        exists v ::
          VerdictMayBe(db, Some(id), d, policy, Some(id), v) &&
          db' == if v.None? then db.(partners := db.partners[id := p.(details := d)]) else db
    case LinkOutlet(o, parent, seen) =>
      if !LinkAllowed(db, parent, seen) then db' == db
      else
        exists v ::
          VerdictMayBe(db, Some(parent), LinkDetails(db, o), policy, LinkOwner(db, o), v) &&
          db' == if v.None? then Linked(db, o, parent) else db
    case Ungroup(o) =>
      db' == if UngroupPasses(policy, db, o) then Ungrouped(db, o) else db
    case DeactivateParent(id) =>
      db' == if LiveParent(db, id) && !HasLiveChildren(db, id)
             then db.(partners := db.partners[id := db.partners[id].(deleted := true)]) else db
    case KycWrite(o, owner, raw, phone) =>
      if !KycAllowed(db, o, owner) then db' == db
      else
        exists v ::
          VerdictMayBe(db, db.outlets[o].parentId, Canonical(raw), policy,
                       db.outlets[o].partner, v) &&
          db' == if v.None? then KycWritten(db, o, owner, Canonical(raw), phone) else db
    case DeleteOutlets(ids) =>
      db' == db.(outlets := map o | o in db.outlets ::
                   if o in ids then db.outlets[o].(deleted := true) else db.outlets[o])
    case AddOutlet(o, owner) =>
      db' == if o !in db.outlets && LivePartner(db, owner)
             then db.(outlets := db.outlets[o := Outlet(Some(owner), None, false)]) else db
  }

  // ---- The service ------------------------------------------------------------------------------

  /** How a request ends: done, refused by the uniqueness check or by the un-group guard, or about rows
      that do not allow it at all. */
  datatype Outcome = Accepted | Refused(why: Violation) | StillShares | NotAllowed

  class OwnerRegistry {
    const policy: Policy
    var partners: map<PartnerId, Partner>
    var outlets: map<OutletId, Outlet>

    function Tables(): Db
      reads this
    {
      Db(partners, outlets)
    }

    constructor (policy: Policy)
      ensures this.policy == policy && Tables() == Db(map[], map[])
    {
      this.policy := policy;
      partners, outlets := map[], map[];
    }

    method Create(id: PartnerId, raw: Details, phone: Option<string>) returns (outcome: Outcome)
      modifies this
      ensures Next(policy, old(Tables()), CreateParent(id, raw, phone), Tables())
      ensures outcome.NotAllowed? <==> id in old(partners)
      ensures outcome.Accepted? <==> Tables() != old(Tables())
      ensures !outcome.StillShares?
      ensures outcome.Refused? ==>
        VerdictMayBe(old(Tables()), None, Canonical(raw), policy, None, Some(outcome.why))
    {
      if id in partners { return NotAllowed; }
      var d := Canonical(raw);
      if HasDetails(d) {
        var refused := CheckGroupUniqueness(Tables(), None, d, policy, None);
        if refused.Some? { return Refused(refused.value); }
      }
      partners := partners[id := Partner(true, false, d, phone)];
      return Accepted;
    }

    method Approve(id: PartnerId) returns (outcome: Outcome)
      modifies this
      ensures Next(policy, old(Tables()), ApproveParent(id), Tables())
      ensures outcome.NotAllowed? <==> !LiveParent(old(Tables()), id)
      ensures !outcome.Accepted? ==> Tables() == old(Tables())
      ensures !outcome.StillShares?
      ensures outcome.Refused? ==>
        VerdictMayBe(old(Tables()), Some(id), Canonical(old(partners)[id].details), policy, Some(id),
                     Some(outcome.why))
    {
      if !LiveParent(Tables(), id) { return NotAllowed; }
      var d := Canonical(partners[id].details);
      var refused := CheckGroupUniqueness(Tables(), Some(id), d, policy, Some(id));
      if refused.Some? { return Refused(refused.value); }
      partners := partners[id := partners[id].(details := d)];
      return Accepted;
    }

    /** One upload row; `seen` is the outlet's group as the request read it when it started. */
    method Link(outlet: OutletId, parent: PartnerId, seen: Option<PartnerId>) returns (outcome: Outcome)
      modifies this
      ensures Next(policy, old(Tables()), LinkOutlet(outlet, parent, seen), Tables())
      ensures outcome.Accepted? ==> outlet in outlets && outlets[outlet].parentId == Some(parent)
      ensures !outcome.Accepted? ==> Tables() == old(Tables())
      ensures outcome.NotAllowed? <==> !LinkAllowed(old(Tables()), parent, seen)
      ensures !outcome.StillShares?
      ensures outcome.Refused? ==>
        VerdictMayBe(old(Tables()), Some(parent), LinkDetails(old(Tables()), outlet), policy,
                     LinkOwner(old(Tables()), outlet), Some(outcome.why))
    {
      if !LinkAllowed(Tables(), parent, seen) { return NotAllowed; }
      var refused := CheckGroupUniqueness(Tables(), Some(parent), LinkDetails(Tables(), outlet), policy,
                                          LinkOwner(Tables(), outlet));
      if refused.Some? { return Refused(refused.value); }
      outlets := outlets[outlet :=
        if outlet in outlets then outlets[outlet].(parentId := Some(parent))
        else Outlet(None, Some(parent), false)];
      return Accepted;
    }

    /** One upload: the groups are read once, then the rows are taken in order - an outlet may be named
        more than once. */
    method UploadLinks(rows: seq<(OutletId, PartnerId)>) returns (outcomes: seq<Outcome>, ghost dbs: seq<Db>)
      modifies this
      ensures |outcomes| == |rows| && |dbs| == |rows| + 1
      ensures dbs[0] == old(Tables()) && dbs[|rows|] == Tables()
      ensures forall i | 0 <= i < |rows| ::
        && Next(policy, dbs[i], LinkOutlet(rows[i].0, rows[i].1, SeenGroup(old(Tables()), rows[i].0)), dbs[i + 1])
        && (outcomes[i].Accepted? ==> SeenIn(dbs[i + 1], rows[i].0, rows[i].1))
    {
      var preload := map o | o in outlets :: SeenGroup(Tables(), o);
      outcomes, dbs := [], [Tables()];
      for n := 0 to |rows|
        invariant |outcomes| == n && |dbs| == n + 1
        invariant dbs[0] == old(Tables()) && dbs[n] == Tables()
        invariant forall i | 0 <= i < n ::
          && Next(policy, dbs[i], LinkOutlet(rows[i].0, rows[i].1, SeenGroup(old(Tables()), rows[i].0)), dbs[i + 1])
          && (outcomes[i].Accepted? ==> SeenIn(dbs[i + 1], rows[i].0, rows[i].1))
      {
        var o := rows[n].0;
        var outcome := Link(o, rows[n].1, if o in preload then preload[o] else None);
        outcomes, dbs := outcomes + [outcome], dbs + [Tables()];
      }
    }

    method UngroupOutlet(outlet: OutletId) returns (outcome: Outcome)
      modifies this
      ensures Next(policy, old(Tables()), Ungroup(outlet), Tables())
      ensures outcome.NotAllowed? <==>
        !LiveOutlet(old(Tables()), outlet) || old(outlets)[outlet].parentId == None
      ensures outcome.Accepted? <==> UngroupPasses(policy, old(Tables()), outlet)
      ensures !outcome.Refused?
      ensures outcome.Accepted? ==> outlet in outlets && outlets[outlet].parentId == None
      ensures !outcome.Accepted? ==> Tables() == old(Tables())
    {
      if !LiveOutlet(Tables(), outlet) || outlets[outlet].parentId.None? { return NotAllowed; }
      var row := outlets[outlet];
      var shares := ChildSharesDetailWithGroup(Tables(), row.parentId.value, outlet, row.partner,
                                               policy);
      if shares { return StillShares; }
      outlets := outlets[outlet := row.(parentId := None)];
      return Accepted;
    }

    method Deactivate(id: PartnerId) returns (done: bool)
      modifies this
      ensures Next(policy, old(Tables()), DeactivateParent(id), Tables())
      ensures done <==> old(LiveParent(Tables(), id) && !HasLiveChildren(Tables(), id))
    {
      if !LiveParent(Tables(), id) { return false; }
      var children := set o | o in outlets && !outlets[o].deleted && outlets[o].parentId == Some(id);
      if children != {} {
        var o :| o in children;
        assert HasLiveChildren(Tables(), id);
        return false;
      }
      assert forall o :: o in outlets && !outlets[o].deleted && outlets[o].parentId == Some(id) ==>
        o in children;
      partners := partners[id := partners[id].(deleted := true)];
      return true;
    }
  }

  // ---- What every run keeps ---------------------------------------------------------------------

  /** Stored values are canonical, and outlets point at rows that exist: their owner, and for a live
      grouped outlet a live parent. */
  ghost predicate WellFormed(db: Db) {
    && (forall p :: p in db.partners ==> db.partners[p].details == Canonical(db.partners[p].details))
    && (forall o :: o in db.outlets ==>
          && (db.outlets[o].partner.Some? ==> db.outlets[o].partner.value in db.partners)
          && (db.outlets[o].parentId.Some? && !db.outlets[o].deleted ==>
                LiveParent(db, db.outlets[o].parentId.value)))
  }

  ghost predicate ShareGroup(db: Db, p: PartnerId, q: PartnerId) {
    exists g :: InGroup(db, p, g) && InGroup(db, q, g)
  }

  predicate SameValue(db: Db, p: PartnerId, q: PartnerId, f: Field) {
    LivePartner(db, p) && LivePartner(db, q) && p != q &&
    db.partners[p].details.Get(f).Some? &&
    db.partners[q].details.Get(f) == db.partners[p].details.Get(f)
  }

  /** Two live partners with the same enforced value are in one group. */
  ghost predicate UniqueOutsideGroups(policy: Policy, db: Db) {
    forall p, q, f | Enforced(f, policy) && SameValue(db, p, q, f) :: ShareGroup(db, p, q)
  }

  /** Owner `p` is in group `g` by something other than outlet `o`. */
  ghost predicate InWithout(db: Db, o: OutletId, p: PartnerId, g: PartnerId) {
    p in db.partners &&
    if db.partners[p].isParent then p == g else exists o' :: o' != o && Places(db, o', p, g)
  }

  /** Where `p` is once its outlet `o` is in group `to`. */
  ghost predicate WillBeIn(db: Db, o: OutletId, to: Option<PartnerId>, p: PartnerId, g: PartnerId) {
    InWithout(db, o, p, g) || (p in db.partners && !db.partners[p].isParent && to == Some(g))
  }

  /** `p` and `q` share a group once outlet `o` of `p` is in group `to`. */
  ghost predicate StaysWith(db: Db, o: OutletId, to: Option<PartnerId>, p: PartnerId, q: PartnerId) {
    exists g :: InGroup(db, q, g) && WillBeIn(db, o, to, p, g)
  }

  /** Partner `q` shares an enforced value with the owner of outlet `o`, in the group that `o` leaves. */
  ghost predicate LeftBehind(policy: Policy, db: Db, o: OutletId, q: PartnerId, f: Field) {
    && o in db.outlets && db.outlets[o].partner.Some? && db.outlets[o].parentId.Some?
    && InGroup(db, q, db.outlets[o].parentId.value)
    && Enforced(f, policy) && SameValue(db, db.outlets[o].partner.value, q, f)
  }

  /** What the un-group guard does not look at: a value the policy does not guard, or a partner that is
      in the group only by deleted outlets. */
  ghost predicate Overlooked(policy: Policy, db: Db, o: OutletId, q: PartnerId, f: Field) {
    LeftBehind(policy, db, o, q, f) &&
    (!Guarded(f, policy) || !Remains(db, db.outlets[o].parentId.value, o, db.outlets[o].partner.value, q))
  }

  /** What the link check does not look at: the owner of a soft-deleted outlet, when the row takes the
      outlet out of another group. */
  ghost predicate Unseen(policy: Policy, db: Db, o: OutletId, parent: PartnerId, q: PartnerId, f: Field) {
    LeftBehind(policy, db, o, q, f) && db.outlets[o].deleted && db.outlets[o].parentId != Some(parent)
  }

  /** The exact rule for uniqueness: whoever is left behind unseen still shares a group with the owner
      that leaves. */
  ghost predicate FitsUnique(policy: Policy, db: Db, op: Op) {
    match op
    case Ungroup(o) =>
      forall q, f | Overlooked(policy, db, o, q, f) :: StaysWith(db, o, None, db.outlets[o].partner.value, q)
    case LinkOutlet(o, parent, seen) =>
      forall q, f | Unseen(policy, db, o, parent, q, f) ::
        StaysWith(db, o, Some(parent), db.outlets[o].partner.value, q)
    case _ => true
  }

  predicate HiddenIn(db: Db, o: OutletId, g: PartnerId) {
    o in db.outlets && db.outlets[o].deleted && db.outlets[o].parentId == Some(g)
  }

  lemma CanonicalGet(d: Details, f: Field)
    ensures Canonical(d).Get(f) == Normalize(f, d.Get(f))
    ensures Normalize(f, Canonical(d).Get(f)) == Canonical(d).Get(f)
    ensures Canonical(Canonical(d)) == Canonical(d)
  {
    NormalizeTwice(Pan, d.pan);
    NormalizeTwice(Gst, d.gst);
    NormalizeTwice(Bank, d.bank);
    NormalizeTwice(Upi, d.upi);
  }

  lemma PatchKeepsCanonical(d: Details, patch: Details)
    requires d == Canonical(d)
    ensures Patch(d, Canonical(patch)) == Canonical(Patch(d, Canonical(patch)))
  {
    CanonicalGet(patch, Pan);
  }

  lemma KycKeepsWellFormed(db: Db, o: OutletId, owner: PartnerId, raw: Details,
                           phone: Option<string>)
    requires WellFormed(db) && KycAllowed(db, o, owner)
    ensures WellFormed(KycWritten(db, o, owner, Canonical(raw), phone))
  {
    CanonicalGet(raw, Pan);
    if db.outlets[o].partner.Some? { PatchKeepsCanonical(db.partners[owner].details, raw); }
  }

  lemma LinkKeepsWellFormed(db: Db, o: OutletId, parent: PartnerId)
    requires WellFormed(db) && LiveParent(db, parent)
    ensures WellFormed(Linked(db, o, parent))
  {
  }

  lemma DeactivateKeepsWellFormed(db: Db, id: PartnerId)
    requires WellFormed(db) && LiveParent(db, id) && !HasLiveChildren(db, id)
    ensures WellFormed(db.(partners := db.partners[id := db.partners[id].(deleted := true)]))
  {
  }

  lemma CreateKeepsWellFormed(db: Db, id: PartnerId, raw: Details, phone: Option<string>)
    requires WellFormed(db) && id !in db.partners
    ensures WellFormed(db.(partners := db.partners[id := Partner(true, false, Canonical(raw), phone)]))
  {
    CanonicalGet(raw, Pan);
  }

  lemma StepKeepsWellFormed(policy: Policy, db: Db, op: Op, db': Db)
    requires WellFormed(db) && Next(policy, db, op, db')
    ensures WellFormed(db')
  {
    if db' != db {
      match op
      case CreateParent(id, raw, phone) => CreateKeepsWellFormed(db, id, raw, phone);
      case ApproveParent(id) =>
      case LinkOutlet(o, parent, seen) => LinkKeepsWellFormed(db, o, parent);
      case Ungroup(o) =>
      case DeactivateParent(id) => DeactivateKeepsWellFormed(db, id);
      case KycWrite(o, owner, raw, phone) => KycKeepsWellFormed(db, o, owner, raw, phone);
      case DeleteOutlets(ids) =>
      case AddOutlet(o, owner) =>
    }
  }

  /** Nobody leaves a group: everyone in a group stays in it. */
  ghost predicate GroupsGrow(db: Db, db': Db) {
    forall p, g :: InGroup(db, p, g) ==> InGroup(db', p, g)
  }

  /** One partner's details change, to values checked against everybody else. */
  lemma WriteKeepsUnique(policy: Policy, db: Db, db': Db, who: PartnerId, our: Option<PartnerId>,
                         d: Details, except: Option<PartnerId>)
    requires WellFormed(db) && UniqueOutsideGroups(policy, db) && GroupsGrow(db, db')
    requires forall p | LivePartner(db', p) && p != who ::
      LivePartner(db, p) && db'.partners[p].details == db.partners[p].details
    requires Cleared(db, our, d, policy, except) && d == Canonical(d)
    requires except == Some(who) || (except == None && who !in db.partners)
    requires who in db'.partners
    requires forall f: Field ::
      || db'.partners[who].details.Get(f) == d.Get(f)
      || (LivePartner(db, who) &&
          db'.partners[who].details.Get(f) == db.partners[who].details.Get(f))
    requires our.Some? ==> InGroup(db', who, our.value)
    ensures UniqueOutsideGroups(policy, db')
  {
    forall q, f: Field | Enforced(f, policy) && SameValue(db', who, q, f)
      ensures ShareGroup(db', who, q)
    {
      WriterShares(policy, db, db', who, our, d, except, q, f);
    }
    forall p, q, f | Enforced(f, policy) && SameValue(db', p, q, f) ensures ShareGroup(db', p, q) {
      if q == who {
        assert SameValue(db', who, p, f);
      } else if p != who {
        assert SameValue(db, p, q, f);
        var g :| InGroup(db, p, g) && InGroup(db, q, g);
        assert InGroup(db', p, g) && InGroup(db', q, g);
      }
    }
  }

  lemma WriterShares(policy: Policy, db: Db, db': Db, who: PartnerId, our: Option<PartnerId>,
                     d: Details, except: Option<PartnerId>, q: PartnerId, f: Field)
    requires UniqueOutsideGroups(policy, db) && GroupsGrow(db, db')
    requires LivePartner(db, q) && LivePartner(db', q)
    requires db'.partners[q].details == db.partners[q].details
    requires Cleared(db, our, d, policy, except) && d == Canonical(d)
    requires except == Some(who) || (except == None && who !in db.partners)
    requires Enforced(f, policy) && SameValue(db', who, q, f)
    requires
      || db'.partners[who].details.Get(f) == d.Get(f)
      || (LivePartner(db, who) &&
          db'.partners[who].details.Get(f) == db.partners[who].details.Get(f))
    requires our.Some? ==> InGroup(db', who, our.value)
    ensures ShareGroup(db', who, q)
  {
    if db'.partners[who].details.Get(f) == d.Get(f) {
      CanonicalGet(d, f);
      assert InGroup(db, q, our.value) && InGroup(db', q, our.value);
    } else {
      assert SameValue(db, who, q, f);
      var g :| InGroup(db, who, g) && InGroup(db, q, g);
      assert InGroup(db', who, g) && InGroup(db', q, g);
    }
  }

  /** Live partners only disappear, and nobody leaves a group. */
  lemma FewerKeepUnique(policy: Policy, db: Db, db': Db)
    requires UniqueOutsideGroups(policy, db) && GroupsGrow(db, db')
    requires forall p | LivePartner(db', p) ::
      LivePartner(db, p) && db'.partners[p].details == db.partners[p].details
    ensures UniqueOutsideGroups(policy, db')
  {
    forall p, q, f | Enforced(f, policy) && SameValue(db', p, q, f) ensures ShareGroup(db', p, q) {
      assert SameValue(db, p, q, f);
      var g :| InGroup(db, p, g) && InGroup(db, q, g);
      assert InGroup(db', p, g) && InGroup(db', q, g);
    }
  }

  lemma PlacesKept(db: Db, db': Db)
    requires forall p :: p in db.partners ==>
      p in db'.partners && db'.partners[p].isParent == db.partners[p].isParent
    requires forall o, p, g :: Places(db, o, p, g) ==> Places(db', o, p, g)
    ensures GroupsGrow(db, db')
  {
    forall p, g | InGroup(db, p, g) ensures InGroup(db', p, g) {
      if !db.partners[p].isParent {
        var o :| Places(db, o, p, g);
        assert Places(db', o, p, g);
      }
    }
  }

  /** Outlet `o` moved to group `to`, or to none. */
  function Moved(db: Db, o: OutletId, to: Option<PartnerId>): Db
    requires o in db.outlets
  {
    db.(outlets := db.outlets[o := db.outlets[o].(parentId := to)])
  }

  lemma MoveChangesOwner(db: Db, o: OutletId, to: Option<PartnerId>, x: PartnerId, g: PartnerId)
    requires WellFormed(db) && o in db.outlets
    ensures InGroup(Moved(db, o, to), x, g) <==>
      if db.outlets[o].partner == Some(x) then WillBeIn(db, o, to, x, g) else InGroup(db, x, g)
  {
    var db' := Moved(db, o, to);
    forall o' | o' != o ensures Places(db', o', x, g) <==> Places(db, o', x, g) {}
    assert Places(db', o, x, g) <==> db.outlets[o].partner == Some(x) && to == Some(g);
  }

  /** A partner of the owner is left behind, or shares another group with it that stays. */
  lemma OnlyTheLeftBehindPart(policy: Policy, db: Db, o: OutletId, to: Option<PartnerId>, q: PartnerId,
                              f: Field)
    requires WellFormed(db) && UniqueOutsideGroups(policy, db)
    requires o in db.outlets && db.outlets[o].partner.Some?
    requires Enforced(f, policy) && SameValue(db, db.outlets[o].partner.value, q, f)
    ensures LeftBehind(policy, db, o, q, f) || StaysWith(db, o, to, db.outlets[o].partner.value, q)
  {
    var p := db.outlets[o].partner.value;
    var g :| InGroup(db, p, g) && InGroup(db, q, g);
    if db.outlets[o].parentId != Some(g) && !db.partners[p].isParent {
      var o' :| Places(db, o', p, g);
      assert o' != o;
    }
    if db.outlets[o].parentId != Some(g) || db.partners[p].isParent { assert WillBeIn(db, o, to, p, g); }
  }

  /** Moving one outlet keeps uniqueness if and only if nobody who shares a value is left behind. */
  lemma MoveKeepsUniqueIff(policy: Policy, db: Db, o: OutletId, to: Option<PartnerId>)
    requires WellFormed(db) && UniqueOutsideGroups(policy, db) && o in db.outlets
    ensures UniqueOutsideGroups(policy, Moved(db, o, to)) <==>
      forall q, f | LeftBehind(policy, db, o, q, f) ::
        StaysWith(db, o, to, db.outlets[o].partner.value, q)
  {
    var db' := Moved(db, o, to);
    forall x, g { MoveChangesOwner(db, o, to, x, g); }
    if UniqueOutsideGroups(policy, db') {
      forall q, f | LeftBehind(policy, db, o, q, f)
        ensures StaysWith(db, o, to, db.outlets[o].partner.value, q)
      {
        assert SameValue(db', db.outlets[o].partner.value, q, f);
      }
    }
    if forall q, f | LeftBehind(policy, db, o, q, f) :: StaysWith(db, o, to, db.outlets[o].partner.value, q) {
      forall p, q, f | Enforced(f, policy) && SameValue(db', p, q, f) ensures ShareGroup(db', p, q) {
        PairStays(policy, db, o, to, p, q, f);
      }
    }
  }

  lemma PairStays(policy: Policy, db: Db, o: OutletId, to: Option<PartnerId>, p: PartnerId, q: PartnerId,
                  f: Field)
    requires WellFormed(db) && UniqueOutsideGroups(policy, db) && o in db.outlets
    requires forall q, f | LeftBehind(policy, db, o, q, f) ::
      StaysWith(db, o, to, db.outlets[o].partner.value, q)
    requires forall x, g :: InGroup(Moved(db, o, to), x, g) <==>
      if db.outlets[o].partner == Some(x) then WillBeIn(db, o, to, x, g) else InGroup(db, x, g)
    requires Enforced(f, policy) && SameValue(db, p, q, f)
    ensures ShareGroup(Moved(db, o, to), p, q)
  {
    var owner := db.outlets[o].partner;
    assert SameValue(db, q, p, f);
    if owner == Some(p) {
      OnlyTheLeftBehindPart(policy, db, o, to, q, f);
      var g :| InGroup(db, q, g) && WillBeIn(db, o, to, p, g);
      assert InGroup(Moved(db, o, to), p, g) && InGroup(Moved(db, o, to), q, g);
    } else if owner == Some(q) {
      OnlyTheLeftBehindPart(policy, db, o, to, p, f);
      var g :| InGroup(db, p, g) && WillBeIn(db, o, to, q, g);
      assert InGroup(Moved(db, o, to), p, g) && InGroup(Moved(db, o, to), q, g);
    } else {
      var g :| InGroup(db, p, g) && InGroup(db, q, g);
      assert InGroup(Moved(db, o, to), p, g) && InGroup(Moved(db, o, to), q, g);
    }
  }

  /** A passing guard leaves nobody behind but those it overlooks. */
  lemma GuardSeesTheRest(policy: Policy, db: Db, o: OutletId, q: PartnerId, f: Field)
    requires WellFormed(db) && UngroupPasses(policy, db, o) && LeftBehind(policy, db, o, q, f)
    ensures Overlooked(policy, db, o, q, f)
  {
    var p := db.outlets[o].partner.value;
    if Guarded(f, policy) && Remains(db, db.outlets[o].parentId.value, o, p, q) {
      CanonicalGet(db.partners[p].details, f);
      CanonicalGet(db.partners[q].details, f);
      assert SameField(db.partners[p], db.partners[q], f);
      assert ShareDetail(db.partners[p], db.partners[q], policy);
    }
  }

  /** An un-group that the guard lets through keeps uniqueness if and only if everybody the guard overlooks
      still shares a group with the owner. */
  lemma UngroupKeepsUniqueIff(policy: Policy, db: Db, o: OutletId)
    requires WellFormed(db) && UniqueOutsideGroups(policy, db) && UngroupPasses(policy, db, o)
    ensures UniqueOutsideGroups(policy, Ungrouped(db, o)) <==> FitsUnique(policy, db, Ungroup(o))
  {
    MoveKeepsUniqueIff(policy, db, o, None);
    assert Ungrouped(db, o) == Moved(db, o, None);
    forall q, f | LeftBehind(policy, db, o, q, f) ensures Overlooked(policy, db, o, q, f) {
      GuardSeesTheRest(policy, db, o, q, f);
    }
  }

  /** With GST guarded and nothing hidden in the group the guard overlooks nobody. */
  lemma UngroupKeepsUnique(policy: Policy, db: Db, o: OutletId)
    requires WellFormed(db) && UniqueOutsideGroups(policy, db) && UngroupPasses(policy, db, o)
    requires policy.gst && !exists h :: HiddenIn(db, h, db.outlets[o].parentId.value)
    ensures FitsUnique(policy, db, Ungroup(o)) && UniqueOutsideGroups(policy, Ungrouped(db, o))
  {
    var g := db.outlets[o].parentId.value;
    forall q, f ensures !Overlooked(policy, db, o, q, f) {
      if LeftBehind(policy, db, o, q, f) && !db.partners[q].isParent {
        var o' :| Places(db, o', q, g);
        assert !HiddenIn(db, o', g);
        assert RemainsBy(db, g, o, db.outlets[o].partner.value, q, o');
      }
    }
    UngroupKeepsUniqueIff(policy, db, o);
  }

  /** A checked owner leaves nobody behind: all its sharers are in the group it joins. */
  lemma CheckedOwnerJoinsItsSharers(policy: Policy, db: Db, o: OutletId, parent: PartnerId, q: PartnerId,
                                    f: Field)
    requires WellFormed(db) && UniqueOutsideGroups(policy, db)
    requires LiveOutlet(db, o) && LeftBehind(policy, db, o, q, f)
    requires Cleared(db, Some(parent), LinkDetails(db, o), policy, LinkOwner(db, o))
    ensures StaysWith(db, o, Some(parent), db.outlets[o].partner.value, q)
  {
    var p := db.outlets[o].partner.value;
    CanonicalGet(db.partners[p].details, f);
    assert InGroup(db, q, parent);
    if db.partners[p].isParent {
      var g :| InGroup(db, p, g) && InGroup(db, q, g);
      assert WillBeIn(db, o, Some(parent), p, g);
    } else {
      assert WillBeIn(db, o, Some(parent), p, parent);
    }
  }

  /** A link that passes its check keeps uniqueness if and only if everybody it does not see still shares
      a group with the owner. */
  lemma LinkKeepsUniqueIff(policy: Policy, db: Db, o: OutletId, parent: PartnerId, seen: Option<PartnerId>)
    requires WellFormed(db) && UniqueOutsideGroups(policy, db) && LinkAllowed(db, parent, seen)
    requires VerdictMayBe(db, Some(parent), LinkDetails(db, o), policy, LinkOwner(db, o), None)
    ensures UniqueOutsideGroups(policy, Linked(db, o, parent)) <==>
      FitsUnique(policy, db, LinkOutlet(o, parent, seen))
  {
    if o in db.outlets {
      MoveKeepsUniqueIff(policy, db, o, Some(parent));
      assert Linked(db, o, parent) == Moved(db, o, Some(parent));
      CleanVerdictMeans(db, Some(parent), LinkDetails(db, o), policy, LinkOwner(db, o));
      forall q, f | LeftBehind(policy, db, o, q, f) && !Unseen(policy, db, o, parent, q, f)
        ensures StaysWith(db, o, Some(parent), db.outlets[o].partner.value, q)
      {
        if !db.outlets[o].deleted {
          CheckedOwnerJoinsItsSharers(policy, db, o, parent, q, f);
        } else {
          SameGroupStays(policy, db, o, q, f);
        }
      }
    } else {
      PlacesKept(db, Linked(db, o, parent));
      FewerKeepUnique(policy, db, Linked(db, o, parent));
    }
  }

  /** Affirming the group an outlet is in changes nothing. */
  lemma SameGroupStays(policy: Policy, db: Db, o: OutletId, q: PartnerId, f: Field)
    requires WellFormed(db) && UniqueOutsideGroups(policy, db) && LeftBehind(policy, db, o, q, f)
    ensures StaysWith(db, o, db.outlets[o].parentId, db.outlets[o].partner.value, q)
  {
    MoveKeepsUniqueIff(policy, db, o, db.outlets[o].parentId);
    assert Moved(db, o, db.outlets[o].parentId) == db;
  }

  lemma CreateKeepsUnique(policy: Policy, db: Db, id: PartnerId, raw: Details,
                          phone: Option<string>, db': Db)
    requires WellFormed(db) && UniqueOutsideGroups(policy, db) && id !in db.partners
    requires Next(policy, db, CreateParent(id, raw, phone), db')
    ensures UniqueOutsideGroups(policy, db')
  {
    if db' != db {
      var d := Canonical(raw);
      CanonicalGet(raw, Pan);
      PlacesKept(db, db');
      if HasDetails(d) {
        CleanVerdictMeans(db, None, d, policy, None);
        WriteKeepsUnique(policy, db, db', id, None, d, None);
      } else {
        FewerExceptBare(policy, db, db', id);
      }
    }
  }

  /** A new partner without details shares nothing with anyone. */
  lemma FewerExceptBare(policy: Policy, db: Db, db': Db, id: PartnerId)
    requires UniqueOutsideGroups(policy, db) && GroupsGrow(db, db')
    requires forall p | LivePartner(db', p) && p != id ::
      LivePartner(db, p) && db'.partners[p].details == db.partners[p].details
    requires id in db'.partners && db'.partners[id].details == NO_DETAILS
    ensures UniqueOutsideGroups(policy, db')
  {
    forall p, q, f | Enforced(f, policy) && SameValue(db', p, q, f) ensures ShareGroup(db', p, q) {
      assert p != id && q != id;
      assert SameValue(db, p, q, f);
      var g :| InGroup(db, p, g) && InGroup(db, q, g);
      assert InGroup(db', p, g) && InGroup(db', q, g);
    }
  }

  lemma KycGrowsGroups(db: Db, o: OutletId, owner: PartnerId, d: Details, phone: Option<string>)
    requires KycAllowed(db, o, owner)
    ensures var db' := KycWritten(db, o, owner, d, phone);
      && GroupsGrow(db, db')
      && (db.outlets[o].parentId.Some? ==> InGroup(db', owner, db.outlets[o].parentId.value))
  {
    var db' := KycWritten(db, o, owner, d, phone);
    PlacesKept(db, db');
    if db.outlets[o].parentId.Some? {
      assert Places(db', o, owner, db.outlets[o].parentId.value);
    }
  }

  lemma PatchPicks(d: Details, patch: Details, f: Field)
    ensures Patch(d, patch).Get(f) == patch.Get(f) || Patch(d, patch).Get(f) == d.Get(f)
  {
  }

  lemma KycKeepsUnique(policy: Policy, db: Db, o: OutletId, owner: PartnerId, raw: Details,
                       phone: Option<string>)
    requires WellFormed(db) && UniqueOutsideGroups(policy, db) && KycAllowed(db, o, owner)
    requires VerdictMayBe(db, db.outlets[o].parentId, Canonical(raw), policy,
                          db.outlets[o].partner, None)
    ensures UniqueOutsideGroups(policy, KycWritten(db, o, owner, Canonical(raw), phone))
  {
    var d := Canonical(raw);
    CanonicalGet(raw, Pan);
    KycGrowsGroups(db, o, owner, d, phone);
    if db.outlets[o].partner.Some? {
      forall f: Field {
        PatchPicks(db.partners[owner].details, d, f);
      }
    }
    CleanVerdictMeans(db, db.outlets[o].parentId, d, policy, db.outlets[o].partner);
    WriteKeepsUnique(policy, db, KycWritten(db, o, owner, d, phone), owner, db.outlets[o].parentId,
                     d, db.outlets[o].partner);
  }

  /** A step that changes the tables keeps two live partners with the same enforced value in one group if
      and only if it fits. */
  lemma StepKeepsUniqueIff(policy: Policy, db: Db, op: Op, db': Db)
    requires WellFormed(db) && UniqueOutsideGroups(policy, db) && Next(policy, db, op, db') && db' != db
    ensures UniqueOutsideGroups(policy, db') <==> FitsUnique(policy, db, op)
  {
    match op
    case CreateParent(id, raw, phone) => CreateKeepsUnique(policy, db, id, raw, phone, db');
    case ApproveParent(id) =>
    case LinkOutlet(o, parent, seen) => LinkKeepsUniqueIff(policy, db, o, parent, seen);
    case Ungroup(o) => UngroupKeepsUniqueIff(policy, db, o);
    case KycWrite(o, owner, raw, phone) => KycKeepsUnique(policy, db, o, owner, raw, phone);
    case _ =>
      PlacesKept(db, db');
      FewerKeepUnique(policy, db, db');
  }

  // ---- One PAN per group --------------------------------------------------------------------------

  /** A live parent is a member of its own group; a live owner is one of each group a live outlet of
      its puts it in. */
  ghost predicate Member(db: Db, p: PartnerId, g: PartnerId) {
    LivePartner(db, p) &&
    if db.partners[p].isParent then p == g else exists o :: LivePlaces(db, o, p, g)
  }

  predicate LivePlaces(db: Db, o: OutletId, p: PartnerId, g: PartnerId) {
    Places(db, o, p, g) && !db.outlets[o].deleted
  }

  function PanOf(db: Db, p: PartnerId): Option<string>
    requires p in db.partners
  {
    db.partners[p].details.pan
  }

  ghost predicate OnePanPerGroup(db: Db) {
    forall p, q, g | Member(db, p, g) && Member(db, q, g) ::
      PanOf(db, p).Some? && PanOf(db, q).Some? ==> PanOf(db, p) == PanOf(db, q)
  }

  /** Member `m` of a group that the owner is in, but not by way of the written outlet's group, has a PAN
      other than the one written. */
  ghost predicate OtherPan(db: Db, o: OutletId, owner: PartnerId, d: Details, m: PartnerId, g: PartnerId) {
    && o in db.outlets && db.outlets[o].parentId != Some(g)
    && m != owner && Member(db, owner, g) && Member(db, m, g)
    && d.pan.Some? && PanOf(db, m).Some? && PanOf(db, m) != d.pan
  }

  /** The exact rule for the PAN: nobody in the owner's other groups has another one. */
  ghost predicate FitsPan(db: Db, op: Op) {
    op.KycWrite? ==> forall m, g :: !OtherPan(db, op.outlet, op.owner, Canonical(op.raw), m, g)
  }

  /** What the PAN lookup finds is what every other member has. */
  lemma GroupPanIsEveryones(db: Db, g: PartnerId, except: Option<PartnerId>, pan: Option<string>,
                            m: PartnerId)
    requires WellFormed(db) && OnePanPerGroup(db) && LiveParent(db, g)
    requires GroupPanMayBe(db, g, except, pan)
    requires Member(db, m, g) && except != Some(m) && PanOf(db, m).Some?
    ensures pan == PanOf(db, m)
  {
    CanonicalGet(db.partners[m].details, Pan);
    CanonicalGet(db.partners[g].details, Pan);
    assert Member(db, g, g);
    if !ParentHasPan(db, g) {
      if db.partners[m].isParent {
        NormalizedIsBare(Pan, PanOf(db, m));
      } else {
        var o :| LivePlaces(db, o, m, g);
        assert SiblingWithPan(db, o, g, except);
        var s :| SiblingWithPan(db, s, g, except) &&
          pan == Normalize(Pan, PanOf(db, db.outlets[s].partner.value));
        var sib := db.outlets[s].partner.value;
        assert LivePlaces(db, s, sib, g) && Member(db, sib, g);
        CanonicalGet(db.partners[sib].details, Pan);
      }
    }
  }

  /** A clean verdict for group `g` fits every other member's PAN. */
  lemma CleanVerdictFitsGroup(policy: Policy, db: Db, g: PartnerId, d: Details,
                              except: Option<PartnerId>, m: PartnerId)
    requires WellFormed(db) && OnePanPerGroup(db) && LiveParent(db, g)
    requires VerdictMayBe(db, Some(g), d, policy, except, None) && d == Canonical(d)
    requires Member(db, m, g) && except != Some(m) && PanOf(db, m).Some? && d.pan.Some?
    ensures d.pan == PanOf(db, m)
  {
    var pan :| GroupPanMayBe(db, g, except, pan) &&
      None == Verdict(db, Some(g), d, policy, except, pan);
    GroupPanIsEveryones(db, g, except, pan, m);
    CanonicalGet(d, Pan);
  }

  /** One partner joins a group or changes its PAN, after a clean verdict for that group. */
  lemma WriteKeepsOnePan(policy: Policy, db: Db, db': Db, who: PartnerId, our: Option<PartnerId>,
                         d: Details, except: Option<PartnerId>)
    requires WellFormed(db) && OnePanPerGroup(db)
    requires our.Some? ==> LiveParent(db, our.value)
    requires VerdictMayBe(db, our, d, policy, except, None) && d == Canonical(d)
    requires except == Some(who) || (except == None && who !in db.partners)
    requires forall m, g | m != who && Member(db', m, g) ::
      Member(db, m, g) && PanOf(db', m) == PanOf(db, m)
    requires forall g | Member(db', who, g) ::
      || (our == Some(g) && PanOf(db', who) == d.pan)
      || (Member(db, who, g) && PanOf(db', who) == PanOf(db, who))
      || forall m | m != who && Member(db, m, g) && PanOf(db, m).Some? && PanOf(db', who).Some? ::
           PanOf(db, m) == PanOf(db', who)
    ensures OnePanPerGroup(db')
  {
    forall m, g | Member(db', who, g) && Member(db', m, g) && m != who &&
      PanOf(db', who).Some? && PanOf(db', m).Some?
      ensures PanOf(db', who) == PanOf(db', m)
    {
      if our == Some(g) && PanOf(db', who) == d.pan {
        CleanVerdictFitsGroup(policy, db, g, d, except, m);
      }
    }
    forall p, q, g | Member(db', p, g) && Member(db', q, g) && PanOf(db', p).Some? && PanOf(db', q).Some?
      ensures PanOf(db', p) == PanOf(db', q)
    {
    }
  }

  lemma FewerKeepOnePan(db: Db, db': Db)
    requires OnePanPerGroup(db)
    requires forall m, g | Member(db', m, g) :: Member(db, m, g) && PanOf(db', m) == PanOf(db, m)
    ensures OnePanPerGroup(db')
  {
  }

  /** Every live placement in the new tables was one in the old. */
  lemma FewerMembers(db: Db, db': Db)
    requires forall p | LivePartner(db', p) ::
      LivePartner(db, p) && db'.partners[p].isParent == db.partners[p].isParent
    requires forall o, p, g :: LivePlaces(db', o, p, g) ==> LivePlaces(db, o, p, g)
    ensures forall m, g :: Member(db', m, g) ==> Member(db, m, g)
  {
    forall m, g | Member(db', m, g) ensures Member(db, m, g) {
      if !db'.partners[m].isParent {
        var o :| LivePlaces(db', o, m, g);
        assert LivePlaces(db, o, m, g);
      }
    }
  }

  lemma LinkKeepsOnePan(policy: Policy, db: Db, o: OutletId, parent: PartnerId)
    requires WellFormed(db) && OnePanPerGroup(db) && LiveParent(db, parent)
    requires VerdictMayBe(db, Some(parent), LinkDetails(db, o), policy, LinkOwner(db, o), None)
    ensures OnePanPerGroup(Linked(db, o, parent))
  {
    var db' := Linked(db, o, parent);
    var owner := LinkOwner(db, o);
    forall m, g | Member(db', m, g) && !Member(db, m, g)
      ensures owner == Some(m) && g == parent
    {
      var o' :| LivePlaces(db', o', m, g);
      assert o' == o || LivePlaces(db, o', m, g);
    }
    if owner.Some? {
      CanonicalGet(db.partners[owner.value].details, Pan);
      WriteKeepsOnePan(policy, db, db', owner.value, Some(parent), LinkDetails(db, o), owner);
    } else {
      FewerKeepOnePan(db, db');
    }
  }

  lemma CreateKeepsOnePan(db: Db, id: PartnerId, p: Partner)
    requires WellFormed(db) && OnePanPerGroup(db) && id !in db.partners && p.isParent
    ensures OnePanPerGroup(db.(partners := db.partners[id := p]))
  {
    var db' := db.(partners := db.partners[id := p]);
    forall m, g | Member(db', m, g) && m != id ensures Member(db, m, g) && g != id {
      NotTheNewParent(db, id, p, m, g);
    }
  }

  lemma NotTheNewParent(db: Db, id: PartnerId, p: Partner, m: PartnerId, g: PartnerId)
    requires WellFormed(db) && id !in db.partners
    requires Member(db.(partners := db.partners[id := p]), m, g) && m != id
    ensures Member(db, m, g) && g != id
  {
    if !db.partners[m].isParent {
      var o :| LivePlaces(db.(partners := db.partners[id := p]), o, m, g);
      assert LivePlaces(db, o, m, g);
    }
  }

  /** A detail write changes nobody's groups but the new owner's. */
  lemma KycMembers(db: Db, o: OutletId, owner: PartnerId, d: Details, phone: Option<string>, m: PartnerId,
                   g: PartnerId)
    requires WellFormed(db) && KycAllowed(db, o, owner)
    ensures var db' := KycWritten(db, o, owner, d, phone);
      && (m != owner || owner in db.partners ==> (Member(db', m, g) <==> Member(db, m, g)))
      && (m == owner && owner !in db.partners ==> (Member(db', m, g) ==> db.outlets[o].parentId == Some(g)))
      && (m != owner && Member(db, m, g) ==> PanOf(db', m) == PanOf(db, m))
  {
    var db' := KycWritten(db, o, owner, d, phone);
    forall o' ensures m != owner || owner in db.partners ==>
        (LivePlaces(db', o', m, g) <==> LivePlaces(db, o', m, g)) {}
    if m == owner && owner !in db.partners && Member(db', m, g) {
      var o' :| LivePlaces(db', o', m, g);
      assert o' == o;
    }
  }

  /** A detail write that passes its check keeps one PAN per group if and only if nobody in the owner's
      other groups has another PAN. */
  lemma KycKeepsOnePanIff(policy: Policy, db: Db, o: OutletId, owner: PartnerId, raw: Details,
                          phone: Option<string>)
    requires WellFormed(db) && OnePanPerGroup(db) && KycAllowed(db, o, owner)
    requires VerdictMayBe(db, db.outlets[o].parentId, Canonical(raw), policy,
                          db.outlets[o].partner, None)
    ensures OnePanPerGroup(KycWritten(db, o, owner, Canonical(raw), phone)) <==>
      FitsPan(db, KycWrite(o, owner, raw, phone))
  {
    var d := Canonical(raw);
    var db' := KycWritten(db, o, owner, d, phone);
    CanonicalGet(raw, Pan);
    forall m, g { KycMembers(db, o, owner, d, phone, m, g); }
    if FitsPan(db, KycWrite(o, owner, raw, phone)) {
      forall g | Member(db', owner, g)
        ensures || (db.outlets[o].parentId == Some(g) && PanOf(db', owner) == d.pan)
                || (Member(db, owner, g) && PanOf(db', owner) == PanOf(db, owner))
                || forall m | m != owner && Member(db, m, g) && PanOf(db, m).Some? && PanOf(db', owner).Some? ::
                     PanOf(db, m) == PanOf(db', owner)
      {
        if db.outlets[o].parentId != Some(g) && d.pan.Some? {
          forall m | m != owner && Member(db, m, g) && PanOf(db, m).Some? && PanOf(db', owner).Some?
            ensures PanOf(db, m) == PanOf(db', owner)
          {
            KycMembers(db, o, owner, d, phone, owner, g);
            assert !OtherPan(db, o, owner, d, m, g);
          }
        }
      }
      WriteKeepsOnePan(policy, db, db', owner, db.outlets[o].parentId, d, db.outlets[o].partner);
    } else {
      var m, g :| OtherPan(db, o, owner, d, m, g);
      assert Member(db', owner, g) && Member(db', m, g);
    }
  }

  /** A step keeps one PAN per group if and only if it is refused or fits. */
  lemma StepKeepsOnePanIff(policy: Policy, db: Db, op: Op, db': Db)
    requires WellFormed(db) && OnePanPerGroup(db) && Next(policy, db, op, db') && db' != db
    ensures OnePanPerGroup(db') <==> FitsPan(db, op)
  {
    match op
    case CreateParent(id, raw, phone) =>
      CreateKeepsOnePan(db, id, Partner(true, false, Canonical(raw), phone));
    case ApproveParent(id) =>
    case LinkOutlet(o, parent, seen) => LinkKeepsOnePan(policy, db, o, parent);
    case Ungroup(o) =>
      UngroupPlaces(db, o);
      FewerMembers(db, db');
      FewerKeepOnePan(db, db');
    case KycWrite(o, owner, raw, phone) => KycKeepsOnePanIff(policy, db, o, owner, raw, phone);
    case _ =>
      FewerMembers(db, db');
      FewerKeepOnePan(db, db');
  }

  lemma UngroupPlaces(db: Db, o: OutletId)
    requires o in db.outlets
    ensures forall o', p, g :: LivePlaces(Ungrouped(db, o), o', p, g) ==> LivePlaces(db, o', p, g)
  {
  }

  // ---- Runs -----------------------------------------------------------------------------------------

  const EMPTY := Db(map[], map[])

  /** An upload row trusts the group that some earlier state showed: the one its request started in. */
  ghost predicate SeenBefore(dbs: seq<Db>, n: nat, o: OutletId, seen: Option<PartnerId>) {
    exists j | 0 <= j <= n && j < |dbs| :: SeenGroup(dbs[j], o) == seen
  }

  /** A run: the tables before the first operation and after each one. */
  ghost predicate Run(policy: Policy, ops: seq<Op>, dbs: seq<Db>) {
    && |dbs| == |ops| + 1 && dbs[0] == EMPTY
    && forall i | 0 <= i < |ops| ::
         && Next(policy, dbs[i], ops[i], dbs[i + 1])
         && (ops[i].LinkOutlet? ==> SeenBefore(dbs, i, ops[i].outlet, ops[i].seen))
  }

  lemma {:induction false} RunKeepsWellFormed(policy: Policy, ops: seq<Op>, dbs: seq<Db>, n: nat)
    requires Run(policy, ops, dbs) && n <= |ops|
    ensures WellFormed(dbs[n])
  {
    if n > 0 {
      RunKeepsWellFormed(policy, ops, dbs, n - 1);
      StepKeepsWellFormed(policy, dbs[n - 1], ops[n - 1], dbs[n]);
    }
  }

  /** Every step that changed the tables fitted. */
  ghost predicate AllFitUnique(policy: Policy, ops: seq<Op>, dbs: seq<Db>, n: nat)
    requires n <= |ops| < |dbs|
  {
    forall i | 0 <= i < n && dbs[i + 1] != dbs[i] :: FitsUnique(policy, dbs[i], ops[i])
  }

  /** In every run whose steps fit, two live partners with the same enforced value are in one group. */
  lemma {:induction false} RunKeepsUnique(policy: Policy, ops: seq<Op>, dbs: seq<Db>, n: nat)
    requires Run(policy, ops, dbs) && n <= |ops| && AllFitUnique(policy, ops, dbs, n)
    ensures UniqueOutsideGroups(policy, dbs[n])
  {
    if n > 0 {
      RunKeepsUnique(policy, ops, dbs, n - 1);
      RunKeepsWellFormed(policy, ops, dbs, n - 1);
      if dbs[n] != dbs[n - 1] { StepKeepsUniqueIff(policy, dbs[n - 1], ops[n - 1], dbs[n]); }
    }
  }

  /** A run keeps uniqueness throughout if and only if all its steps fit. */
  lemma RunKeepsUniqueIff(policy: Policy, ops: seq<Op>, dbs: seq<Db>)
    requires Run(policy, ops, dbs)
    ensures (forall n | 0 <= n <= |ops| :: UniqueOutsideGroups(policy, dbs[n])) <==>
      AllFitUnique(policy, ops, dbs, |ops|)
  {
    if AllFitUnique(policy, ops, dbs, |ops|) {
      forall n | 0 <= n <= |ops| ensures UniqueOutsideGroups(policy, dbs[n]) {
        RunKeepsUnique(policy, ops, dbs, n);
      }
    } else {
      var i :| 0 <= i < |ops| && dbs[i + 1] != dbs[i] && !FitsUnique(policy, dbs[i], ops[i]);
      RunKeepsWellFormed(policy, ops, dbs, i);
      if UniqueOutsideGroups(policy, dbs[i]) { StepKeepsUniqueIff(policy, dbs[i], ops[i], dbs[i + 1]); }
    }
  }

  ghost predicate AllFitPan(ops: seq<Op>, dbs: seq<Db>, n: nat)
    requires n <= |ops| < |dbs|
  {
    forall i | 0 <= i < n && dbs[i + 1] != dbs[i] :: FitsPan(dbs[i], ops[i])
  }

  /** In every run whose steps fit, all members of a group that have a PAN, parent included, have the same
      one. */
  lemma {:induction false} RunKeepsOnePan(policy: Policy, ops: seq<Op>, dbs: seq<Db>, n: nat)
    requires Run(policy, ops, dbs) && n <= |ops| && AllFitPan(ops, dbs, n)
    ensures OnePanPerGroup(dbs[n])
  {
    if n > 0 {
      RunKeepsOnePan(policy, ops, dbs, n - 1);
      RunKeepsWellFormed(policy, ops, dbs, n - 1);
      if dbs[n] != dbs[n - 1] { StepKeepsOnePanIff(policy, dbs[n - 1], ops[n - 1], dbs[n]); }
    }
  }

  /** A run keeps one PAN per group throughout if and only if all its steps fit. */
  lemma RunKeepsOnePanIff(policy: Policy, ops: seq<Op>, dbs: seq<Db>)
    requires Run(policy, ops, dbs)
    ensures (forall n | 0 <= n <= |ops| :: OnePanPerGroup(dbs[n])) <==> AllFitPan(ops, dbs, |ops|)
  {
    if AllFitPan(ops, dbs, |ops|) {
      forall n | 0 <= n <= |ops| ensures OnePanPerGroup(dbs[n]) { RunKeepsOnePan(policy, ops, dbs, n); }
    } else {
      var i :| 0 <= i < |ops| && dbs[i + 1] != dbs[i] && !FitsPan(dbs[i], ops[i]);
      RunKeepsWellFormed(policy, ops, dbs, i);
      if OnePanPerGroup(dbs[i]) { StepKeepsOnePanIff(policy, dbs[i], ops[i], dbs[i + 1]); }
    }
  }
}
