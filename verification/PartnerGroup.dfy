/**
 The shared contract of parent-child owner groups: canonical identity values, the group a partner
 belongs to, the group's PAN, and the two checks every writer runs - uniqueness before a write or a
 link, and "still shares a detail" before an un-group.  One tenant; tables are maps.
 */
module PartnerGroup {
  import opened Prelude

  type PartnerId = string
  type OutletId = string

  // ---- Canonical identity values ----------------------------------------------------------------

  datatype Field = Pan | Gst | Bank | Upi

  const FIELDS: seq<Field> := [Pan, Gst, Bank, Upi]

  /** The one form used to compare, to lock and to store a value; blank is no value. */
  function Normalize(field: Field, value: Option<string>): Option<string> {
    if value.None? then None
    else
      var trimmed := Trim(value.value);
      if trimmed == "" then None
      else Some(if field.Pan? || field.Gst? then Upper(trimmed) else trimmed)
  }

  lemma NormalizedIsBare(field: Field, value: Option<string>)
    requires Normalize(field, value).Some?
    ensures Normalize(field, value).value != "" && Bare(Normalize(field, value).value)
  {
    TrimStartStops(value.value);
    TrimEndStops(TrimStart(value.value));
  }

  /** A stored value always equals its own canonical form, so the equality query finds it. */
  lemma NormalizeTwice(field: Field, value: Option<string>)
    ensures Normalize(field, Normalize(field, value)) == Normalize(field, value)
  {
    var r := Normalize(field, value);
    if r.Some? {
      NormalizedIsBare(field, value);
      assert Trim(r.value) == r.value;
      if field.Pan? || field.Gst? {
        assert Upper(r.value) == r.value;
      }
    }
  }

  /** Whatever the blanks around it - and, for a PAN or a GST number, whatever the case it is typed in - a
      value has one canonical form. */
  lemma NormalizeIgnoresCase(field: Field, before: string, typed: string, after: string, value: string)
    requires AllBlank(before) && AllBlank(after)
    requires typed == value || ((field.Pan? || field.Gst?) && Recased(typed, value))
    ensures Normalize(field, Some(before + typed + after)) == Normalize(field, Some(value))
  {
    SurroundingBlanksGo(before, typed, after);
    if typed != value {
      TrimStartRecased(typed, value);
      TrimEndRecased(TrimStart(typed), TrimStart(value));
      SameWhenUpper(Trim(typed), Trim(value));
    }
  }

  // ---- Policy -----------------------------------------------------------------------------------

  datatype Policy = Policy(gst: bool, phone: bool, bank: bool, upi: bool)

  /** Fields the uniqueness check enforces: PAN and GST always. */
  predicate Enforced(field: Field, policy: Policy) {
    match field
    case Pan => true
    case Gst => true
    case Bank => policy.bank
    case Upi => policy.upi
  }

  /** Fields the un-group guard compares: GST only when the policy says so. */
  predicate Guarded(field: Field, policy: Policy) {
    match field
    case Pan => true
    case Gst => policy.gst
    case Bank => policy.bank
    case Upi => policy.upi
  }

  // ---- Tables -----------------------------------------------------------------------------------

  datatype Details = Details(
    pan: Option<string>, gst: Option<string>, bank: Option<string>, upi: Option<string>)
  {
    function Get(field: Field): Option<string> {
      match field
      case Pan => pan
      case Gst => gst
      case Bank => bank
      case Upi => upi
    }
  }

  function Canonical(d: Details): Details {
    Details(Normalize(Pan, d.pan), Normalize(Gst, d.gst), Normalize(Bank, d.bank),
            Normalize(Upi, d.upi))
  }

  datatype Partner = Partner(isParent: bool, deleted: bool, details: Details, phone: Option<string>)

  datatype Outlet = Outlet(partner: Option<PartnerId>, parentId: Option<PartnerId>, deleted: bool)

  datatype Db = Db(partners: map<PartnerId, Partner>, outlets: map<OutletId, Outlet>)

  predicate LivePartner(db: Db, p: PartnerId) { p in db.partners && !db.partners[p].deleted }

  /** Outlet `o` puts its owner `p` in group `g`; a deleted outlet still counts here. */
  predicate Places(db: Db, o: OutletId, p: PartnerId, g: PartnerId) {
    o in db.outlets && db.outlets[o].partner == Some(p) && db.outlets[o].parentId == Some(g)
  }

  /** A parent is its own group; anyone else is in the groups of its outlets. */
  ghost predicate InGroup(db: Db, p: PartnerId, g: PartnerId) {
    p in db.partners &&
    if db.partners[p].isParent then p == g else exists o :: Places(db, o, p, g)
  }

  // ---- The group's PAN --------------------------------------------------------------------------

  /** Outlet `o` is a live outlet of group `g` whose live, non-parent owner - other than `except` -
      has a PAN. */
  predicate SiblingWithPan(db: Db, o: OutletId, g: PartnerId, except: Option<PartnerId>) {
    o in db.outlets && !db.outlets[o].deleted && db.outlets[o].parentId == Some(g) &&
    db.outlets[o].partner.Some? &&
    var p := db.outlets[o].partner.value;
    LivePartner(db, p) && !db.partners[p].isParent && except != Some(p) &&
    db.partners[p].details.pan.Some?
  }

  predicate ParentHasPan(db: Db, g: PartnerId) {
    g in db.partners && db.partners[g].details.pan.Some? && db.partners[g].details.pan.value != ""
  }

  /** What the lookup of a group's PAN may return; which sibling it reads is the database's choice. */
  ghost predicate GroupPanMayBe(db: Db, g: PartnerId, except: Option<PartnerId>, pan: Option<string>) {
    if ParentHasPan(db, g) then pan == Normalize(Pan, db.partners[g].details.pan)
    else
      || (pan.None? && forall o :: !SiblingWithPan(db, o, g, except))
      || exists o :: SiblingWithPan(db, o, g, except) &&
           pan == Normalize(Pan, db.partners[db.outlets[o].partner.value].details.pan)
  }

  method ResolveGroupPan(db: Db, g: PartnerId, except: Option<PartnerId>)
    returns (pan: Option<string>)
    ensures GroupPanMayBe(db, g, except, pan)
  {
    if ParentHasPan(db, g) {
      return Normalize(Pan, db.partners[g].details.pan);
    }
    var siblings := set o | o in db.outlets && SiblingWithPan(db, o, g, except);
    if siblings == {} {
      forall o ensures !SiblingWithPan(db, o, g, except) { assert o !in siblings; }
      return None;
    }
    var o :| o in siblings;
    pan := Normalize(Pan, db.partners[db.outlets[o].partner.value].details.pan);
  }

  // ---- The uniqueness check ---------------------------------------------------------------------

  datatype Reason = DuplicateOutsideGroup | PanGroupMismatch

  datatype Violation = Violation(field: Field, reason: Reason)

  /** Partner `q` holds the value and is not excused by sharing our group. */
  ghost predicate ClashesOutside(db: Db, our: Option<PartnerId>, field: Field, value: string,
                                 except: Option<PartnerId>, q: PartnerId)
  {
    LivePartner(db, q) && except != Some(q) && db.partners[q].details.Get(field) == Some(value) &&
    (our.None? || !InGroup(db, q, our.value))
  }

  ghost predicate FieldClashes(db: Db, our: Option<PartnerId>, d: Details, policy: Policy,
                               except: Option<PartnerId>, field: Field)
  {
    var value := Normalize(field, d.Get(field));
    Enforced(field, policy) && value.Some? &&
    exists q :: ClashesOutside(db, our, field, value.value, except, q)
  }

  function Blame(field: Field, our: Option<PartnerId>): Violation {
    Violation(field, if field.Pan? && our.Some? then PanGroupMismatch else DuplicateOutsideGroup)
  }

  /** The first violation: the group's PAN first, then the fields in order. */
  ghost function Verdict(db: Db, our: Option<PartnerId>, d: Details, policy: Policy,
                         except: Option<PartnerId>, groupPan: Option<string>): Option<Violation>
  {
    var pan := Normalize(Pan, d.pan);
    if our.Some? && pan.Some? && groupPan.Some? && groupPan != pan then
      Some(Violation(Pan, PanGroupMismatch))
    else FirstClash(db, our, d, policy, except, 0)
  }

  ghost function FirstClash(db: Db, our: Option<PartnerId>, d: Details, policy: Policy,
                            except: Option<PartnerId>, from: nat): Option<Violation>
    requires from <= |FIELDS|
    decreases |FIELDS| - from
  {
    if from == |FIELDS| then None
    else if FieldClashes(db, our, d, policy, except, FIELDS[from]) then Some(Blame(FIELDS[from], our))
    else FirstClash(db, our, d, policy, except, from + 1)
  }

  ghost predicate VerdictMayBe(db: Db, our: Option<PartnerId>, d: Details, policy: Policy,
                               except: Option<PartnerId>, v: Option<Violation>)
  {
    exists groupPan ::
      (our.Some? ==> GroupPanMayBe(db, our.value, except, groupPan)) &&
      v == Verdict(db, our, d, policy, except, groupPan)
  }

  /** The groups of a candidate, as the clash search reads them. */
  function GroupIds(db: Db, q: PartnerId): (gs: set<PartnerId>)
    requires q in db.partners
    ensures forall g :: g in gs <==> InGroup(db, q, g)
  {
    if db.partners[q].isParent then {q}
    else
      var placing := set o | o in db.outlets && db.outlets[o].partner == Some(q) &&
                             db.outlets[o].parentId.Some?;
      var gs := set o | o in placing :: db.outlets[o].parentId.value;
      assert forall g :: (exists o :: Places(db, o, q, g)) ==> g in gs by {
        forall g, o | Places(db, o, q, g) ensures g in gs { assert o in placing; }
      }
      assert forall g | g in gs :: exists o :: Places(db, o, q, g) by {
        forall g | g in gs ensures exists o :: Places(db, o, q, g) {
          var o :| o in placing && db.outlets[o].parentId.value == g;
          assert Places(db, o, q, g);
        }
      }
      gs
  }

  predicate ClashIsOutsideGroup(our: Option<PartnerId>, candidateGroups: set<PartnerId>) {
    our.None? || our.value !in candidateGroups
  }

  /** The search of one field: every live holder of the value, in any order. */
  method SearchField(db: Db, our: Option<PartnerId>, d: Details, policy: Policy,
                     except: Option<PartnerId>, field: Field) returns (clashes: bool)
    ensures clashes <==> FieldClashes(db, our, d, policy, except, field)
  {
    var value := Normalize(field, d.Get(field));
    if !Enforced(field, policy) || value.None? { return false; }
    var candidates := set q | q in db.partners && LivePartner(db, q) && except != Some(q) &&
                              db.partners[q].details.Get(field) == value;
    var rest := candidates;
    while rest != {}
      invariant rest <= candidates
      invariant forall q :: q in candidates - rest ==>
        !ClashesOutside(db, our, field, value.value, except, q)
      decreases rest
    {
      var q :| q in rest;
      if ClashIsOutsideGroup(our, GroupIds(db, q)) {
        assert ClashesOutside(db, our, field, value.value, except, q);
        return true;
      }
      rest := rest - {q};
    }
    forall q ensures !ClashesOutside(db, our, field, value.value, except, q) {
      assert ClashesOutside(db, our, field, value.value, except, q) ==> q in candidates;
    }
    return false;
  }

  method CheckGroupUniqueness(db: Db, our: Option<PartnerId>, d: Details, policy: Policy,
                              except: Option<PartnerId>) returns (v: Option<Violation>)
    ensures VerdictMayBe(db, our, d, policy, except, v)
  {
    var pan := Normalize(Pan, d.pan);
    var groupPan: Option<string> := None;
    if our.Some? { groupPan := ResolveGroupPan(db, our.value, except); }
    if our.Some? && pan.Some? && groupPan.Some? && groupPan != pan {
      v := Some(Violation(Pan, PanGroupMismatch));
      assert v == Verdict(db, our, d, policy, except, groupPan);
      return;
    }
    for i := 0 to |FIELDS|
      invariant FirstClash(db, our, d, policy, except, 0) ==
                FirstClash(db, our, d, policy, except, i)
    {
      var clashes := SearchField(db, our, d, policy, except, FIELDS[i]);
      if clashes {
        v := Some(Blame(FIELDS[i], our));
        assert v == Verdict(db, our, d, policy, except, groupPan);
        return;
      }
    }
    v := None;
    assert v == Verdict(db, our, d, policy, except, groupPan);
  }

  /** No live partner other than `except` holds one of the enforced values, unless it is in our
      group. */
  ghost predicate Cleared(db: Db, our: Option<PartnerId>, d: Details, policy: Policy,
                          except: Option<PartnerId>)
  {
    forall f: Field, q | Enforced(f, policy) && Normalize(f, d.Get(f)).Some? && LivePartner(db, q) ::
      except != Some(q) && db.partners[q].details.Get(f) == Normalize(f, d.Get(f)) ==>
      our.Some? && InGroup(db, q, our.value)
  }

  /** What a clean verdict means, said without the search. */
  lemma CleanVerdictMeans(db: Db, our: Option<PartnerId>, d: Details, policy: Policy,
                          except: Option<PartnerId>)
    requires VerdictMayBe(db, our, d, policy, except, None)
    ensures Cleared(db, our, d, policy, except)
    ensures our.Some? && Normalize(Pan, d.pan).Some? ==>
      GroupPanMayBe(db, our.value, except, None) ||
      GroupPanMayBe(db, our.value, except, Normalize(Pan, d.pan))
  {
    forall f: Field, q | Enforced(f, policy) && Normalize(f, d.Get(f)).Some? &&
      LivePartner(db, q) && except != Some(q) &&
      db.partners[q].details.Get(f) == Normalize(f, d.Get(f))
      ensures our.Some? && InGroup(db, q, our.value)
    {
      var i: nat :| i < |FIELDS| && FIELDS[i] == f by {
        assert FIELDS[0] == Pan && FIELDS[1] == Gst && FIELDS[2] == Bank && FIELDS[3] == Upi;
      }
      CleanFromStart(db, our, d, policy, except, i);
      assert !ClashesOutside(db, our, f, Normalize(f, d.Get(f)).value, except, q);
    }
  }

  lemma CleanFromStart(db: Db, our: Option<PartnerId>, d: Details, policy: Policy,
                       except: Option<PartnerId>, i: nat)
    requires FirstClash(db, our, d, policy, except, 0).None? && i < |FIELDS|
    ensures !FieldClashes(db, our, d, policy, except, FIELDS[i])
  {
    assert FirstClash(db, our, d, policy, except, 1).None?;
    assert FirstClash(db, our, d, policy, except, 2).None?;
    assert FirstClash(db, our, d, policy, except, 3).None?;
  }

  // ---- The un-group guard -----------------------------------------------------------------------

  predicate IsDigit(c: char) { '0' <= c <= '9' }

  function Digits(s: string): string {
    if s == "" then ""
    else (if IsDigit(s[0]) then [s[0]] else []) + Digits(s[1..])
  }

  function PhoneLast10(raw: Option<string>): (r: Option<string>)
    ensures r.Some? ==> |r.value| == 10
  {
    if raw.None? then None
    else
      var digits := Digits(raw.value);
      if |digits| < 10 then None else Some(digits[|digits| - 10..])
  }

  /** Partner `m` stays in group `g` when outlet `child` leaves: the parent itself, whether deleted or
      not, or the live owner of another live outlet - never the child's own owner. */
  ghost predicate Remains(db: Db, g: PartnerId, child: OutletId, owner: PartnerId, m: PartnerId) {
    m in db.partners &&
    (m == g || exists o :: RemainsBy(db, g, child, owner, m, o))
  }

  predicate RemainsBy(db: Db, g: PartnerId, child: OutletId, owner: PartnerId, m: PartnerId,
                      o: OutletId)
  {
    o != child && m != owner && Places(db, o, m, g) && !db.outlets[o].deleted &&
    LivePartner(db, m) && !db.partners[m].isParent
  }

  predicate SameField(a: Partner, b: Partner, field: Field) {
    var value := Normalize(field, a.details.Get(field));
    value.Some? && Normalize(field, b.details.Get(field)) == value
  }

  /** Two partners share a detail the policy guards. */
  predicate ShareDetail(a: Partner, b: Partner, policy: Policy) {
    || (Guarded(Pan, policy) && SameField(a, b, Pan))
    || (Guarded(Gst, policy) && SameField(a, b, Gst))
    || (Guarded(Bank, policy) && SameField(a, b, Bank))
    || (Guarded(Upi, policy) && SameField(a, b, Upi))
    || (policy.phone && PhoneLast10(a.phone).Some? && PhoneLast10(b.phone) == PhoneLast10(a.phone))
  }

  /** Does the child outlet's owner still share a guarded detail with whoever remains? */
  ghost predicate SharesWithGroup(db: Db, g: PartnerId, child: OutletId, owner: Option<PartnerId>,
                                  policy: Policy)
  {
    owner.Some? && owner.value in db.partners &&
    exists m :: Remains(db, g, child, owner.value, m) &&
                ShareDetail(db.partners[owner.value], db.partners[m], policy)
  }

  method ChildSharesDetailWithGroup(db: Db, g: PartnerId, child: OutletId, owner: Option<PartnerId>,
                                    policy: Policy) returns (shares: bool)
    ensures shares <==> SharesWithGroup(db, g, child, owner, policy)
  {
    if owner.None? || owner.value !in db.partners { return false; }
    var me := db.partners[owner.value];
    var siblingOutlets := set o | o in db.outlets && o != child && !db.outlets[o].deleted &&
      db.outlets[o].parentId == Some(g) && db.outlets[o].partner.Some? &&
      db.outlets[o].partner != owner && LivePartner(db, db.outlets[o].partner.value) &&
      !db.partners[db.outlets[o].partner.value].isParent;
    var members := set o | o in siblingOutlets :: db.outlets[o].partner.value;
    if g in db.partners { members := members + {g}; }
    assert forall m :: m in members <==> Remains(db, g, child, owner.value, m) by {
      forall m, o | RemainsBy(db, g, child, owner.value, m, o) ensures m in members {
        assert o in siblingOutlets;
      }
      forall m | m in members && m != g ensures Remains(db, g, child, owner.value, m) {
        var o :| o in siblingOutlets && db.outlets[o].partner.value == m;
        assert RemainsBy(db, g, child, owner.value, m, o);
      }
    }
    var rest := members;
    while rest != {}
      invariant rest <= members
      invariant forall m :: m in members - rest ==> !ShareDetail(me, db.partners[m], policy)
      decreases rest
    {
      var m :| m in rest;
      if ShareDetail(me, db.partners[m], policy) { return true; }
      rest := rest - {m};
    }
    return false;
  }
}
