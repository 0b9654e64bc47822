/** Where the owner-group rules are needed: for each, a run from empty tables that keeps the property up
    to its last step and loses it there, because the code does not check the rule itself. */
module OwnerGroupLimits {
  import opened Prelude
  import opened PartnerGroup
  import opened OwnerGroups

  const SHARED_GST := Details(None, Some("G1"), None, None)
  const SHARED_PAN := Details(Some("P1"), None, None, None)

  /** Parent "g" with two shops, each with its own owner; the second outlet may be soft-deleted. */
  function TwoShops(d: Details, secondDeleted: bool): Db {
    Db(map["g" := Partner(true, false, NO_DETAILS, None),
           "a" := Partner(false, false, d, None),
           "b" := Partner(false, false, d, None)],
       map["oa" := Outlet(Some("a"), Some("g"), false),
           "ob" := Outlet(Some("b"), Some("g"), secondDeleted)])
  }

  lemma TwoShopsAreWellFormed(d: Details, secondDeleted: bool)
    requires d == SHARED_GST || d == SHARED_PAN
    ensures WellFormed(TwoShops(d, secondDeleted))
  {
    ShortValues();
    assert Canonical(d) == d && Canonical(NO_DETAILS) == NO_DETAILS;
  }

  lemma TwoShopsAreUnique(policy: Policy, d: Details, secondDeleted: bool)
    requires d == SHARED_GST || d == SHARED_PAN
    ensures UniqueOutsideGroups(policy, TwoShops(d, secondDeleted))
  {
    var db := TwoShops(d, secondDeleted);
    assert Places(db, "oa", "a", "g") && Places(db, "ob", "b", "g");
    assert InGroup(db, "a", "g") && InGroup(db, "b", "g");
    forall p, q, f | SameValue(db, p, q, f) ensures ShareGroup(db, p, q) {
      assert p != "g" && q != "g";
    }
  }

  lemma ShortValues()
    ensures Normalize(Gst, Some("G1")) == Some("G1") && Normalize(Pan, Some("P1")) == Some("P1")
    ensures Normalize(Pan, Some("P2")) == Some("P2")
  {
    assert Trim("G1") == "G1" && Trim("P1") == "P1" && Trim("P2") == "P2";
    assert Upper("G1") == "G1" && Upper("P1") == "P1" && Upper("P2") == "P2";
  }

  // ---- A run to the two shops -------------------------------------------------------------------------

  lemma CleanVerdict(db: Db, our: Option<PartnerId>, d: Details, policy: Policy, except: Option<PartnerId>,
                     groupPan: Option<string>)
    requires our.Some? ==> GroupPanMayBe(db, our.value, except, groupPan)
    requires groupPan in {None, Normalize(Pan, d.pan)}
    requires forall f: Field :: !FieldClashes(db, our, d, policy, except, f)
    ensures VerdictMayBe(db, our, d, policy, except, None)
  {
    assert FirstClash(db, our, d, policy, except, 4).None?;
    assert FirstClash(db, our, d, policy, except, 3).None?;
    assert FirstClash(db, our, d, policy, except, 2).None?;
    assert FirstClash(db, our, d, policy, except, 1).None?;
    assert None == Verdict(db, our, d, policy, except, groupPan);
  }

  /** One more operation at the end of a run. */
  lemma RunExtends(policy: Policy, ops: seq<Op>, dbs: seq<Db>, op: Op, db': Db)
    requires Run(policy, ops, dbs) && Next(policy, dbs[|ops|], op, db')
    requires op.LinkOutlet? ==> SeenGroup(dbs[|ops|], op.outlet) == op.seen
    ensures Run(policy, ops + [op], dbs + [db'])
  {
    var ops', dbs' := ops + [op], dbs + [db'];
    forall i | 0 <= i < |ops'|
      ensures Next(policy, dbs'[i], ops'[i], dbs'[i + 1])
      ensures ops'[i].LinkOutlet? ==> SeenBefore(dbs', i, ops'[i].outlet, ops'[i].seen)
    {
      if i < |ops| {
        if ops[i].LinkOutlet? {
          var j :| 0 <= j <= i && j < |dbs| && SeenGroup(dbs[j], ops[i].outlet) == ops[i].seen;
          assert dbs'[j] == dbs[j];
        }
      } else {
        assert dbs'[i] == dbs[|ops|];
      }
    }
  }

  const P_BARE := Partner(true, false, NO_DETAILS, None)

  function ShopsOps(d: Details): seq<Op> {
    [CreateParent("g", NO_DETAILS, None), LinkOutlet("oa", "g", None), LinkOutlet("ob", "g", None),
     KycWrite("oa", "a", d, None), KycWrite("ob", "b", d, None)]
  }

  function ShopsDb(d: Details, n: nat): Db {
    var oa, ob := Outlet(None, Some("g"), false), Outlet(None, Some("g"), false);
    var a := Partner(false, false, d, None);
    match n
    case 0 => EMPTY
    case 1 => Db(map["g" := P_BARE], map[])
    case 2 => Db(map["g" := P_BARE], map["oa" := oa])
    case 3 => Db(map["g" := P_BARE], map["oa" := oa, "ob" := ob])
    case 4 => Db(map["g" := P_BARE, "a" := a], map["oa" := oa.(partner := Some("a")), "ob" := ob])
    case _ => TwoShops(d, false)
  }

  function ShopsDbs(d: Details): (dbs: seq<Db>)
    ensures |dbs| == 6 && forall i | 0 <= i < 6 :: dbs[i] == ShopsDb(d, i)
  {
    seq(6, i requires 0 <= i => ShopsDb(d, i))
  }

  lemma CreatesG(policy: Policy, d: Details)
    ensures Next(policy, ShopsDb(d, 0), CreateParent("g", NO_DETAILS, None), ShopsDb(d, 1))
  {
    assert Canonical(NO_DETAILS) == NO_DETAILS;
  }

  /** An outlet without an owner always fits. */
  lemma LinksOwnerless(policy: Policy, db: Db, o: OutletId, parent: PartnerId)
    requires LiveParent(db, parent) && LinkOwner(db, o) == None
    requires !ParentHasPan(db, parent) && forall s :: !SiblingWithPan(db, s, parent, None)
    ensures Next(policy, db, LinkOutlet(o, parent, None), Linked(db, o, parent))
  {
    CleanVerdict(db, Some(parent), NO_DETAILS, policy, None, None);
  }

  lemma LinksShops(policy: Policy, d: Details)
    ensures Next(policy, ShopsDb(d, 1), LinkOutlet("oa", "g", None), ShopsDb(d, 2))
    ensures Next(policy, ShopsDb(d, 2), LinkOutlet("ob", "g", None), ShopsDb(d, 3))
  {
    LinksOwnerless(policy, ShopsDb(d, 1), "oa", "g");
    LinksOwnerless(policy, ShopsDb(d, 2), "ob", "g");
  }

  lemma FirstVerdict(policy: Policy, d: Details)
    requires (d == SHARED_GST || d == SHARED_PAN) && Canonical(d) == d
    ensures VerdictMayBe(ShopsDb(d, 3), Some("g"), d, policy, None, None)
  {
    var db := ShopsDb(d, 3);
    forall o ensures !SiblingWithPan(db, o, "g", None) {}
    CleanVerdict(db, Some("g"), d, policy, None, None);
  }

  lemma SecondVerdict(policy: Policy, d: Details)
    requires (d == SHARED_GST || d == SHARED_PAN) && Canonical(d) == d
    ensures VerdictMayBe(ShopsDb(d, 4), Some("g"), d, policy, None, None)
  {
    var db := ShopsDb(d, 4);
    assert Places(db, "oa", "a", "g") && InGroup(db, "a", "g");
    forall f: Field ensures !FieldClashes(db, Some("g"), d, policy, None, f) {}
    if d.pan.Some? { assert SiblingWithPan(db, "oa", "g", None); }
    CleanVerdict(db, Some("g"), d, policy, None, d.pan);
  }

  /** A first detail write of an outlet, checked clean. */
  lemma WritesNewOwner(policy: Policy, db: Db, o: OutletId, owner: PartnerId, d: Details)
    requires LiveOutlet(db, o) && db.outlets[o].partner == None && owner !in db.partners
    requires Canonical(d) == d && VerdictMayBe(db, db.outlets[o].parentId, d, policy, None, None)
    ensures Next(policy, db, KycWrite(o, owner, d, None),
      Db(db.partners[owner := Partner(false, false, d, None)],
         db.outlets[o := db.outlets[o].(partner := Some(owner))]))
  {
  }

  lemma FirstOwner(policy: Policy, d: Details)
    requires (d == SHARED_GST || d == SHARED_PAN) && Canonical(d) == d
    ensures Next(policy, ShopsDb(d, 3), KycWrite("oa", "a", d, None), ShopsDb(d, 4))
  {
    var db := ShopsDb(d, 3);
    FirstVerdict(policy, d);
    WritesNewOwner(policy, db, "oa", "a", d);
    assert db.partners["a" := Partner(false, false, d, None)] == ShopsDb(d, 4).partners;
    assert db.outlets["oa" := db.outlets["oa"].(partner := Some("a"))] == ShopsDb(d, 4).outlets;
  }

  lemma SecondOwner(policy: Policy, d: Details)
    requires (d == SHARED_GST || d == SHARED_PAN) && Canonical(d) == d
    ensures Next(policy, ShopsDb(d, 4), KycWrite("ob", "b", d, None), ShopsDb(d, 5))
  {
    var db := ShopsDb(d, 4);
    SecondVerdict(policy, d);
    WritesNewOwner(policy, db, "ob", "b", d);
    assert db.partners["b" := Partner(false, false, d, None)] == ShopsDb(d, 5).partners;
    assert db.outlets["ob" := db.outlets["ob"].(partner := Some("b"))] == ShopsDb(d, 5).outlets;
  }

  lemma ShopsStep(policy: Policy, d: Details, i: nat)
    requires (d == SHARED_GST || d == SHARED_PAN) && Canonical(d) == d && i < 5
    ensures Next(policy, ShopsDb(d, i), ShopsOps(d)[i], ShopsDb(d, i + 1))
  {
    if i == 0 { CreatesG(policy, d); }
    else if i < 3 { LinksShops(policy, d); }
    else if i == 3 { FirstOwner(policy, d); }
    else { SecondOwner(policy, d); }
  }

  lemma ShopsSeen(d: Details, i: nat)
    requires i < 5 && ShopsOps(d)[i].LinkOutlet?
    ensures SeenGroup(ShopsDb(d, i), ShopsOps(d)[i].outlet) == ShopsOps(d)[i].seen
  {
  }

  /** The two shops are reached from empty tables. */
  lemma ReachesTwoShops(policy: Policy, d: Details)
    requires d == SHARED_GST || d == SHARED_PAN
    ensures Run(policy, ShopsOps(d), ShopsDbs(d)) && ShopsDbs(d)[5] == TwoShops(d, false)
  {
    var ops, dbs := ShopsOps(d), ShopsDbs(d);
    ShortValues();
    assert Canonical(d) == d;
    forall i | 0 <= i < |ops|
      ensures Next(policy, dbs[i], ops[i], dbs[i + 1])
      ensures ops[i].LinkOutlet? ==> SeenBefore(dbs, i, ops[i].outlet, ops[i].seen)
    {
      ShopsStep(policy, d, i);
      if ops[i].LinkOutlet? {
        ShopsSeen(d, i);
        assert SeenGroup(dbs[i], ops[i].outlet) == ops[i].seen;
      }
    }
  }

  /** A run that keeps uniqueness up to its last operation and loses it there. */
  ghost predicate LosesUnique(policy: Policy, ops: seq<Op>, dbs: seq<Db>) {
    Run(policy, ops, dbs) && ops != [] &&
    UniqueOutsideGroups(policy, dbs[|ops| - 1]) && !UniqueOutsideGroups(policy, dbs[|ops|])
  }

  // ---- A guard that does not look at GST --------------------------------------------------------------

  lemma TwoShopsApart(policy: Policy, d: Details, secondDeleted: bool, f: Field)
    requires d == SHARED_GST || d == SHARED_PAN
    requires Enforced(f, policy) && d.Get(f).Some?
    ensures !UniqueOutsideGroups(policy, Ungrouped(TwoShops(d, secondDeleted), "oa"))
  {
    var db := Ungrouped(TwoShops(d, secondDeleted), "oa");
    assert SameValue(db, "a", "b", f);
    forall g ensures !InGroup(db, "a", g) {
      forall o ensures !Places(db, o, "a", g) { assert o in db.outlets ==> o in {"oa", "ob"}; }
    }
  }

  lemma UnguardedGstPasses(policy: Policy)
    requires !policy.gst
    ensures UngroupPasses(policy, TwoShops(SHARED_GST, false), "oa")
    ensures !exists h :: HiddenIn(TwoShops(SHARED_GST, false), h, "g")
  {
    var db := TwoShops(SHARED_GST, false);
    assert PhoneLast10(None) == None;
    forall m | Remains(db, "g", "oa", "a", m)
      ensures !ShareDetail(db.partners["a"], db.partners[m], policy)
    {
    }
  }

  /** The un-group guard keeps uniqueness, on all tables that keep the invariants and hide nothing, if
      and only if the tenant's policy guards GST: the check always enforces it, the guard does not. */
  lemma GuardIsEnoughIffGstGuarded(policy: Policy)
    ensures policy.gst <==>
      forall db, o | WellFormed(db) && UniqueOutsideGroups(policy, db) && UngroupPasses(policy, db, o) &&
        !exists h :: HiddenIn(db, h, db.outlets[o].parentId.value) ::
        UniqueOutsideGroups(policy, Ungrouped(db, o))
  {
    if policy.gst {
      forall db, o | WellFormed(db) && UniqueOutsideGroups(policy, db) &&
        UngroupPasses(policy, db, o) &&
        !exists h :: HiddenIn(db, h, db.outlets[o].parentId.value)
        ensures UniqueOutsideGroups(policy, Ungrouped(db, o))
      {
        UngroupKeepsUnique(policy, db, o);
      }
    } else {
      TwoShopsAreWellFormed(SHARED_GST, false);
      TwoShopsAreUnique(policy, SHARED_GST, false);
      TwoShopsApart(policy, SHARED_GST, false, Gst);
      UnguardedGstPasses(policy);
    }
  }

  /** A run in which it does not: both owners have one GST number, and the first leaves. */
  lemma UnguardedGstSlipsOut(policy: Policy)
    requires !policy.gst
    ensures var db := TwoShops(SHARED_GST, false);
      LosesUnique(policy, ShopsOps(SHARED_GST) + [Ungroup("oa")], ShopsDbs(SHARED_GST) + [Ungrouped(db, "oa")])
  {
    ReachesTwoShops(policy, SHARED_GST);
    UnguardedGstPasses(policy);
    TwoShopsAreUnique(policy, SHARED_GST, false);
    TwoShopsApart(policy, SHARED_GST, false, Gst);
    RunExtends(policy, ShopsOps(SHARED_GST), ShopsDbs(SHARED_GST), Ungroup("oa"),
               Ungrouped(TwoShops(SHARED_GST, false), "oa"));
  }

  // ---- A hidden sibling -------------------------------------------------------------------------------

  lemma HiddenSiblingIsNotSeen(policy: Policy)
    ensures UngroupPasses(policy, TwoShops(SHARED_PAN, true), "oa")
  {
    var db := TwoShops(SHARED_PAN, true);
    assert PhoneLast10(None) == None;
    forall m | Remains(db, "g", "oa", "a", m) ensures m == "g" {}
  }

  /** With every field guarded, a soft-deleted outlet still hides its live owner from the guard: the
      clash search counts that outlet, the guard does not. */
  lemma HiddenSiblingBreaksUniqueness(policy: Policy)
    ensures var ops := ShopsOps(SHARED_PAN) + [DeleteOutlets({"ob"})] + [Ungroup("oa")];
      var db := TwoShops(SHARED_PAN, true);
      LosesUnique(policy, ops, ShopsDbs(SHARED_PAN) + [db] + [Ungrouped(db, "oa")])
  {
    var ops, dbs := ShopsOps(SHARED_PAN), ShopsDbs(SHARED_PAN);
    var db := TwoShops(SHARED_PAN, true);
    ReachesTwoShops(policy, SHARED_PAN);
    RunExtends(policy, ops, dbs, DeleteOutlets({"ob"}), db);
    TwoShopsAreUnique(policy, SHARED_PAN, true);
    HiddenSiblingIsNotSeen(policy);
    TwoShopsApart(policy, SHARED_PAN, true, Pan);
    RunExtends(policy, ops + [DeleteOutlets({"ob"})], dbs + [db], Ungroup("oa"), Ungrouped(db, "oa"));
  }

  // ---- A deleted outlet in an upload --------------------------------------------------------------------

  /** The two shops and a parent "h" without outlets; the first outlet may be soft-deleted. */
  function TwoParents(firstDeleted: bool): Db {
    var db := TwoShops(SHARED_PAN, false);
    Db(db.partners["h" := P_BARE],
       db.outlets["oa" := Outlet(Some("a"), Some("g"), firstDeleted)])
  }

  lemma TwoParentsAreFine(policy: Policy, firstDeleted: bool)
    ensures WellFormed(TwoParents(firstDeleted)) && UniqueOutsideGroups(policy, TwoParents(firstDeleted))
  {
    var db := TwoParents(firstDeleted);
    ShortValues();
    assert Canonical(SHARED_PAN) == SHARED_PAN && Canonical(NO_DETAILS) == NO_DETAILS;
    assert Places(db, "oa", "a", "g") && Places(db, "ob", "b", "g");
    assert InGroup(db, "a", "g") && InGroup(db, "b", "g");
    forall p, q, f | SameValue(db, p, q, f) ensures ShareGroup(db, p, q) {
      assert {p, q} == {"a", "b"};
    }
  }

  lemma TwoParentsApart(policy: Policy, firstDeleted: bool)
    ensures !UniqueOutsideGroups(policy, Linked(TwoParents(firstDeleted), "oa", "h"))
  {
    var db := Linked(TwoParents(firstDeleted), "oa", "h");
    assert SameValue(db, "a", "b", Pan);
    forall g ensures !(InGroup(db, "a", g) && InGroup(db, "b", g)) {
      forall o ensures !Places(db, o, "a", "g") { assert o in db.outlets ==> o in {"oa", "ob"}; }
      forall o | Places(db, o, "b", g) ensures g == "g" { assert o in {"oa", "ob"}; }
    }
  }

  const H_OP := CreateParent("h", NO_DETAILS, None)

  lemma ReachesTwoParents(policy: Policy)
    ensures Run(policy, ShopsOps(SHARED_PAN) + [H_OP], ShopsDbs(SHARED_PAN) + [TwoParents(false)])
  {
    ReachesTwoShops(policy, SHARED_PAN);
    assert Canonical(NO_DETAILS) == NO_DETAILS;
    assert TwoParents(false) == TwoShops(SHARED_PAN, false).(partners := TwoParents(false).partners);
    RunExtends(policy, ShopsOps(SHARED_PAN), ShopsDbs(SHARED_PAN), H_OP, TwoParents(false));
  }

  lemma DeletedOwnerIsUnseen(policy: Policy)
    ensures Next(policy, TwoParents(true), LinkOutlet("oa", "h", None), Linked(TwoParents(true), "oa", "h"))
  {
    LinksOwnerless(policy, TwoParents(true), "oa", "h");
  }

  /** An upload row that names a soft-deleted outlet of another group: the one read at the start of the
      request does not show it, so neither its group nor its owner is checked, but the row is found by its
      code and moved - and its live owner leaves the sharer of its PAN. */
  lemma RelinkedDeletedOutletBreaksUniqueness(policy: Policy)
    ensures var ops := ShopsOps(SHARED_PAN) + [H_OP] + [DeleteOutlets({"oa"})] + [LinkOutlet("oa", "h", None)];
      var dbs := ShopsDbs(SHARED_PAN) + [TwoParents(false)] + [TwoParents(true)];
      LosesUnique(policy, ops, dbs + [Linked(TwoParents(true), "oa", "h")])
  {
    var ops, dbs := ShopsOps(SHARED_PAN) + [H_OP], ShopsDbs(SHARED_PAN) + [TwoParents(false)];
    ReachesTwoParents(policy);
    RunExtends(policy, ops, dbs, DeleteOutlets({"oa"}), TwoParents(true));
    TwoParentsAreFine(policy, true);
    TwoParentsApart(policy, true);
    DeletedOwnerIsUnseen(policy);
    RunExtends(policy, ops + [DeleteOutlets({"oa"})], dbs + [TwoParents(true)],
               LinkOutlet("oa", "h", None), Linked(TwoParents(true), "oa", "h"));
  }

  // ---- An outlet named twice ----------------------------------------------------------------------------

  /** Two rows of one upload for one ungrouped outlet: both see it ungrouped, and the second takes it from
      the first row's group to its own, which the guard is there to prevent. */
  lemma SecondRowMovesOutlet(policy: Policy, db: Db, o: OutletId, first: PartnerId, second: PartnerId)
    requires WellFormed(db) && LiveParent(db, first) && LiveParent(db, second) && first != second
    requires SeenGroup(db, o) == None && LinkOwner(db, o) == None && (o in db.outlets ==> LiveOutlet(db, o))
    requires !ParentHasPan(db, first) && forall s :: !SiblingWithPan(db, s, first, None)
    requires !ParentHasPan(db, second) && forall s :: !SiblingWithPan(db, s, second, None)
    ensures var db1 := Linked(db, o, first); var db2 := Linked(db1, o, second);
      && Next(policy, db, LinkOutlet(o, first, SeenGroup(db, o)), db1) && SeenIn(db1, o, first)
      && Next(policy, db1, LinkOutlet(o, second, SeenGroup(db, o)), db2) && SeenIn(db2, o, second)
  {
    var db1 := Linked(db, o, first);
    LinksOwnerless(policy, db, o, first);
    forall s ensures !SiblingWithPan(db1, s, second, None) { assert !SiblingWithPan(db, s, second, None); }
    LinksOwnerless(policy, db1, o, second);
  }

  // ---- A second door ------------------------------------------------------------------------------------

  /** Owner "a" has a second, ungrouped outlet. */
  function TwoDoors(): Db {
    var db := TwoShops(SHARED_PAN, false);
    db.(outlets := db.outlets["free" := Outlet(Some("a"), None, false)])
  }

  const NEW_PAN := Details(Some("P2"), None, None, None)

  lemma TwoDoorsAreFine()
    ensures OnePanPerGroup(TwoDoors())
  {
  }

  lemma NewPanIsFree(policy: Policy)
    ensures Canonical(NEW_PAN) == NEW_PAN
    ensures VerdictMayBe(TwoDoors(), None, NEW_PAN, policy, Some("a"), None)
  {
    ShortValues();
    forall f: Field ensures !FieldClashes(TwoDoors(), None, NEW_PAN, policy, Some("a"), f) {}
    CleanVerdict(TwoDoors(), None, NEW_PAN, policy, Some("a"), None);
  }

  lemma TwoPansInGroup()
    ensures !OnePanPerGroup(KycWritten(TwoDoors(), "free", "a", NEW_PAN, None))
  {
    var db' := KycWritten(TwoDoors(), "free", "a", NEW_PAN, None);
    assert LivePlaces(db', "oa", "a", "g") && LivePlaces(db', "ob", "b", "g");
    assert Member(db', "a", "g") && Member(db', "b", "g");
  }

  /** A detail write through an ungrouped outlet of an owner that is also in a group is checked as if
      the owner were in no group, and gives the group a second PAN. */
  lemma SecondDoorSplitsGroupPan(policy: Policy)
    ensures var write := KycWrite("free", "a", NEW_PAN, None);
      var ops := ShopsOps(SHARED_PAN) + [AddOutlet("free", "a")] + [write];
      var dbs := ShopsDbs(SHARED_PAN) + [TwoDoors()] + [KycWritten(TwoDoors(), "free", "a", NEW_PAN, None)];
      && Run(policy, ops, dbs) && OnePanPerGroup(dbs[6]) && !OnePanPerGroup(dbs[7])
  {
    var ops, dbs := ShopsOps(SHARED_PAN), ShopsDbs(SHARED_PAN);
    ReachesTwoShops(policy, SHARED_PAN);
    RunExtends(policy, ops, dbs, AddOutlet("free", "a"), TwoDoors());
    TwoDoorsAreFine();
    NewPanIsFree(policy);
    TwoPansInGroup();
    RunExtends(policy, ops + [AddOutlet("free", "a")], dbs + [TwoDoors()],
               KycWrite("free", "a", NEW_PAN, None), KycWritten(TwoDoors(), "free", "a", NEW_PAN, None));
  }
}
