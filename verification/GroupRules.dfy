/**
 The rules of owner groups in the source's own words: what a canonical value is, which values count as a
 clash and what is reported, whose details keep an outlet in its group, and what each operation writes.
 The checks of `PartnerGroup` and the operations of `OwnerGroups` follow exactly these rules.
 */
module GroupRules {
  import opened Prelude
  import opened PartnerGroup
  import opened OwnerGroups

  // ---- Canonical values -----------------------------------------------------------------------------

  /** The value without the blanks around it; a PAN or a GST number in capitals. */
  ghost predicate CanonicalIs(field: Field, raw: string, value: string) {
    && value != "" && Bare(value)
    && (field.Pan? || field.Gst? ==>
          Reads(raw, value) && forall i | 0 <= i < |value| :: !(97 <= value[i] as int <= 122))
    && (field.Bank? || field.Upi? ==>
          exists before: string, after: string ::
            AllBlank(before) && AllBlank(after) && raw == before + value + after)
  }

  lemma PlainIs(raw: string, value: string)
    ensures (Trim(raw) == value != "") <==>
      value != "" && Bare(value) && exists before: string, after: string ::
        AllBlank(before) && AllBlank(after) && raw == before + value + after
  {
    TrimSplits(raw);
    if before, after :| Bare(value) && AllBlank(before) && AllBlank(after) && raw == before + value + after {
      SurroundingBlanksGo(before, value, after);
      BareStays(value);
    }
  }

  lemma CapitalIs(raw: string, value: string)
    ensures (Upper(Trim(raw)) == value != "") <==>
      value != "" && Bare(value) && Reads(raw, value) &&
      forall i | 0 <= i < |value| :: !(97 <= value[i] as int <= 122)
  {
    TrimSplits(raw);
    UpperIsBare(Trim(raw));
    if Bare(value) && forall i | 0 <= i < |value| :: !(97 <= value[i] as int <= 122) {
      assert Upper(value) == value;
      ReadsIff(raw, value);
    }
  }

  lemma NormalizeIs(field: Field, raw: string, value: string)
    ensures Normalize(field, Some(raw)) == Some(value) <==> CanonicalIs(field, raw, value)
    ensures Normalize(field, Some(raw)) == None <==> AllBlank(raw)
  {
    BlankTrims(raw);
    if field.Pan? || field.Gst? { CapitalIs(raw, value); } else { PlainIs(raw, value); }
  }

  lemma UpperIsBare(s: string)
    requires Bare(s)
    ensures Bare(Upper(s)) && Upper(Upper(s)) == Upper(s)
    ensures forall i | 0 <= i < |s| :: !(97 <= Upper(s)[i] as int <= 122)
  {
  }

  // ---- The clash search -----------------------------------------------------------------------------

  /** The value of a field, as stored. */
  predicate Holds(d: Details, field: Field, value: Option<string>) {
    match field
    case Pan => d.pan == value
    case Gst => d.gst == value
    case Bank => d.bank == value
    case Upi => d.upi == value
  }

  /** PAN and GST always count, bank and UPI when the policy says so. */
  predicate Counts(field: Field, policy: Policy) {
    field.Pan? || field.Gst? || (field.Bank? && policy.bank) || (field.Upi? && policy.upi)
  }

  /** A parent is in its own group, anyone else in the groups of its outlets, deleted ones too. */
  ghost predicate Belongs(db: Db, q: PartnerId, g: PartnerId) {
    q in db.partners &&
    if db.partners[q].isParent then q == g
    else exists o | o in db.outlets :: db.outlets[o].partner == Some(q) && db.outlets[o].parentId == Some(g)
  }

  /** A live partner other than the excepted one has the value, outside our group. */
  ghost predicate HeldElsewhere(db: Db, our: Option<PartnerId>, field: Field, value: string,
                                except: Option<PartnerId>)
  {
    exists q | q in db.partners ::
      && !db.partners[q].deleted && except != Some(q) && Holds(db.partners[q].details, field, Some(value))
      && (our == None || !Belongs(db, q, our.value))
  }

  ghost predicate ClashesIn(db: Db, our: Option<PartnerId>, d: Details, policy: Policy,
                            except: Option<PartnerId>, field: Field)
  {
    Counts(field, policy) &&
    exists raw: string, value: string ::
      Holds(d, field, Some(raw)) && CanonicalIs(field, raw, value) && HeldElsewhere(db, our, field, value, except)
  }

  lemma BelongsIff(db: Db, q: PartnerId, g: PartnerId)
    ensures Belongs(db, q, g) <==> InGroup(db, q, g)
  {
    if Belongs(db, q, g) && !db.partners[q].isParent {
      var o :| o in db.outlets && db.outlets[o].partner == Some(q) && db.outlets[o].parentId == Some(g);
      assert Places(db, o, q, g);
    }
  }

  lemma HeldElsewhereIff(db: Db, our: Option<PartnerId>, field: Field, value: string, except: Option<PartnerId>)
    ensures HeldElsewhere(db, our, field, value, except) <==>
      exists q :: ClashesOutside(db, our, field, value, except, q)
  {
    if our.Some? {
      forall q { BelongsIff(db, q, our.value); }
    }
    if HeldElsewhere(db, our, field, value, except) {
      var q :| q in db.partners && !db.partners[q].deleted && except != Some(q) &&
               Holds(db.partners[q].details, field, Some(value)) && (our == None || !Belongs(db, q, our.value));
      assert ClashesOutside(db, our, field, value, except, q);
    }
  }

  /** The search of one field reports exactly that. */
  lemma ClashesIff(db: Db, our: Option<PartnerId>, d: Details, policy: Policy, except: Option<PartnerId>,
                   field: Field)
    ensures FieldClashes(db, our, d, policy, except, field) <==> ClashesIn(db, our, d, policy, except, field)
  {
    var raw := d.Get(field);
    assert Holds(d, field, raw);
    if raw.Some? {
      var value := Normalize(field, raw);
      if value.Some? {
        NormalizeIs(field, raw.value, value.value);
        HeldElsewhereIff(db, our, field, value.value, except);
      }
      forall v | CanonicalIs(field, raw.value, v) ensures value == Some(v) { NormalizeIs(field, raw.value, v); }
    }
  }

  // ---- The verdict ------------------------------------------------------------------------------------

  /** The group has a PAN that is not ours: the parent's, or else that of some live, non-parent owner of one of
      its live outlets. */
  ghost predicate AnotherGroupPan(db: Db, our: Option<PartnerId>, d: Details, except: Option<PartnerId>) {
    our.Some? && Normalize(Pan, d.pan).Some? &&
    exists raw: string, pan: string ::
      GroupPanRaw(db, our.value, except, raw) && CanonicalIs(Pan, raw, pan) && Normalize(Pan, d.pan) != Some(pan)
  }

  ghost predicate GroupPanRaw(db: Db, g: PartnerId, except: Option<PartnerId>, raw: string) {
    if g in db.partners && db.partners[g].details.pan.Some? && db.partners[g].details.pan != Some("")
    then db.partners[g].details.pan == Some(raw)
    else exists o, p | o in db.outlets && p in db.partners ::
      && db.outlets[o].parentId == Some(g) && !db.outlets[o].deleted && db.outlets[o].partner == Some(p)
      && !db.partners[p].isParent && !db.partners[p].deleted && except != Some(p)
      && db.partners[p].details.pan == Some(raw)
  }

  lemma GroupPanIs(db: Db, g: PartnerId, except: Option<PartnerId>, pan: string)
    requires GroupPanMayBe(db, g, except, Some(pan))
    ensures exists raw: string :: GroupPanRaw(db, g, except, raw) && CanonicalIs(Pan, raw, pan)
  {
    if ParentHasPan(db, g) {
      var raw := db.partners[g].details.pan.value;
      NormalizeIs(Pan, raw, pan);
      assert GroupPanRaw(db, g, except, raw);
    } else {
      var o :| SiblingWithPan(db, o, g, except) &&
        Some(pan) == Normalize(Pan, db.partners[db.outlets[o].partner.value].details.pan);
      var raw := db.partners[db.outlets[o].partner.value].details.pan.value;
      NormalizeIs(Pan, raw, pan);
      assert GroupPanRaw(db, g, except, raw);
    }
  }

  /** Only the PAN of a grouped outlet is ever a mismatch; anything else is a duplicate. */
  predicate ReasonFits(our: Option<PartnerId>, v: Violation) {
    v.reason == if v.field.Pan? && our.Some? then PanGroupMismatch else DuplicateOutsideGroup
  }

  /** No field that comes before this one clashes: the order is PAN, GST, bank, UPI. */
  ghost predicate NothingBefore(db: Db, our: Option<PartnerId>, d: Details, policy: Policy,
                                except: Option<PartnerId>, field: Field)
  {
    && (!field.Pan? ==> !ClashesIn(db, our, d, policy, except, Pan))
    && (field.Bank? || field.Upi? ==> !ClashesIn(db, our, d, policy, except, Gst))
    && (field.Upi? ==> !ClashesIn(db, our, d, policy, except, Bank))
  }

  /** What a verdict says: nothing clashes; or the first field that does, with its reason - a PAN also when it
      is not the group's. */
  lemma VerdictIs(db: Db, our: Option<PartnerId>, d: Details, policy: Policy, except: Option<PartnerId>,
                  v: Option<Violation>)
    requires VerdictMayBe(db, our, d, policy, except, v)
    ensures v == None ==> forall f: Field :: !ClashesIn(db, our, d, policy, except, f)
    ensures v.Some? ==>
      && ReasonFits(our, v.value) && NothingBefore(db, our, d, policy, except, v.value.field)
      && (ClashesIn(db, our, d, policy, except, v.value.field) ||
          (v.value.field.Pan? && AnotherGroupPan(db, our, d, except)))
  {
    forall f: Field { ClashesIff(db, our, d, policy, except, f); }
    var groupPan :| (our.Some? ==> GroupPanMayBe(db, our.value, except, groupPan)) &&
      v == Verdict(db, our, d, policy, except, groupPan);
    if our.Some? && Normalize(Pan, d.pan).Some? && groupPan.Some? && groupPan != Normalize(Pan, d.pan) {
      GroupPanIs(db, our.value, except, groupPan.value);
    } else {
      FirstClashIs(db, our, d, policy, except);
    }
  }

  lemma FirstClashIs(db: Db, our: Option<PartnerId>, d: Details, policy: Policy, except: Option<PartnerId>)
    ensures FirstClash(db, our, d, policy, except, 0) ==
      if FieldClashes(db, our, d, policy, except, Pan) then Some(Blame(Pan, our))
      else if FieldClashes(db, our, d, policy, except, Gst) then Some(Blame(Gst, our))
      else if FieldClashes(db, our, d, policy, except, Bank) then Some(Blame(Bank, our))
      else if FieldClashes(db, our, d, policy, except, Upi) then Some(Blame(Upi, our)) else None
  {
    assert FirstClash(db, our, d, policy, except, 4) == None;
    assert FirstClash(db, our, d, policy, except, 3) ==
      if FieldClashes(db, our, d, policy, except, Upi) then Some(Blame(Upi, our)) else None;
    assert FirstClash(db, our, d, policy, except, 2) ==
      if FieldClashes(db, our, d, policy, except, Bank) then Some(Blame(Bank, our))
      else FirstClash(db, our, d, policy, except, 3);
    assert FirstClash(db, our, d, policy, except, 1) ==
      if FieldClashes(db, our, d, policy, except, Gst) then Some(Blame(Gst, our))
      else FirstClash(db, our, d, policy, except, 2);
  }

  // ---- Phones -------------------------------------------------------------------------------------------

  /** A digit, by its code. */
  predicate Numeral(c: char) { 48 <= c as int <= 57 }

  /** Where the digits of a text are. */
  function DigitPlaces(s: string): (at: seq<nat>)
    ensures forall k | 0 <= k < |at| :: at[k] < |s| && Numeral(s[at[k]])
    ensures Ascends(at)
  {
    if s == "" then []
    else DigitPlaces(s[..|s| - 1]) + if Numeral(s[|s| - 1]) then [|s| - 1] else []
  }

  predicate Ascends(at: seq<nat>) { forall j, k | 0 <= j < k < |at| :: at[j] < at[k] }

  lemma {:induction false} EveryDigitHasAPlace(s: string, i: nat)
    requires i < |s| && Numeral(s[i])
    ensures i in DigitPlaces(s)
  {
    if i < |s| - 1 { EveryDigitHasAPlace(s[..|s| - 1], i); }
  }

  lemma {:induction false} LastDigit(s: string)
    requires s != ""
    ensures Digits(s) == Digits(s[..|s| - 1]) + if IsDigit(s[|s| - 1]) then [s[|s| - 1]] else []
  {
    if |s| > 1 {
      LastDigit(s[1..]);
      assert s[1..][..|s| - 2] == s[..|s| - 1][1..];
    } else {
      assert s[1..] == "" && s[..0] == "";
    }
  }

  /** The digits of a text are those at these places. */
  predicate ReadAt(s: string, digits: string, at: seq<nat>) {
    |digits| == |at| && forall k | 0 <= k < |at| :: at[k] < |s| && s[at[k]] == digits[k]
  }

  lemma {:induction false} DigitsAreAt(s: string)
    ensures ReadAt(s, Digits(s), DigitPlaces(s))
  {
    if s != "" {
      DigitsAreAt(s[..|s| - 1]);
      LastDigit(s);
    }
  }

  /** Where the next of these places lies, or the end of the text. */
  function NextPlace(s: string, at: seq<nat>, k: nat): nat
    requires k < |at|
  {
    if k + 1 < |at| then at[k + 1] else |s|
  }

  /** These are digits, one after the other up to the end of the text: none between two of them, and none after
      the last. */
  ghost predicate LastPlaces(s: string, at: seq<nat>) {
    && (forall k | 0 <= k < |at| :: at[k] < |s| && Numeral(s[at[k]]))
    && Ascends(at)
    && forall i, k | 0 <= k < |at| && at[k] < i < NextPlace(s, at, k) && i < |s| :: !Numeral(s[i])
  }

  lemma LastPlacesOfPrefix(s: string, at: seq<nat>)
    requires s != "" && LastPlaces(s, at) && at != []
    ensures if Numeral(s[|s| - 1]) then at[|at| - 1] == |s| - 1 && LastPlaces(s[..|s| - 1], at[..|at| - 1])
            else LastPlaces(s[..|s| - 1], at)
  {
    var before, n := s[..|s| - 1], |at| - 1;
    assert at[n] < |s| && NextPlace(s, at, n) == |s|;
    if Numeral(s[|s| - 1]) {
      forall i, k | 0 <= k < n && at[k] < i < NextPlace(before, at[..n], k) && i < |before|
        ensures !Numeral(before[i])
      {
        assert NextPlace(before, at[..n], k) <= NextPlace(s, at, k);
      }
    } else {
      forall i, k | 0 <= k < |at| && at[k] < i < NextPlace(before, at, k) && i < |before|
        ensures !Numeral(before[i])
      {
        assert NextPlace(before, at, k) <= NextPlace(s, at, k);
      }
    }
  }

  /** The digits of the text are some first ones and then these. */
  lemma {:induction false} PlacesEndWith(s: string, at: seq<nat>) returns (front: seq<nat>)
    requires LastPlaces(s, at)
    ensures DigitPlaces(s) == front + at
  {
    if at == [] {
      front := DigitPlaces(s);
      assert front + at == front;
    } else {
      assert at[0] < |s|;
      LastPlacesOfPrefix(s, at);
      var before, n := s[..|s| - 1], |at| - 1;
      if Numeral(s[|s| - 1]) {
        front := PlacesEndWith(before, at[..n]);
        assert at == at[..n] + [|s| - 1];
      } else {
        front := PlacesEndWith(before, at);
      }
    }
  }

  /** The last places of all. */
  lemma LastOfAll(s: string, from: nat)
    requires from <= |DigitPlaces(s)|
    ensures LastPlaces(s, DigitPlaces(s)[from..])
  {
    var places := DigitPlaces(s);
    var at := places[from..];
    forall i, k | 0 <= k < |at| && at[k] < i < NextPlace(s, at, k) && i < |s| ensures !Numeral(s[i]) {
      forall m | 0 <= m < |places| ensures places[m] != i {
        assert m <= from + k ==> places[m] <= at[k];
        assert from + k < m ==> NextPlace(s, at, k) <= places[m];
      }
      if Numeral(s[i]) { EveryDigitHasAPlace(s, i); }
    }
  }

  /** `d` are the last ten digits of the text, whatever stands before and between them. */
  ghost predicate LastTenDigits(s: string, d: string) {
    exists at :: LastTenAt(s, d, at)
  }

  ghost predicate LastTenAt(s: string, d: string, at: seq<nat>) {
    |d| == |at| == 10 && LastPlaces(s, at) && forall k | 0 <= k < 10 :: s[at[k]] == d[k]
  }

  /** Phones are compared by their last ten digits. */
  lemma PhoneLast10Iff(s: string, d: string)
    ensures PhoneLast10(Some(s)) == Some(d) <==> LastTenDigits(s, d)
  {
    DigitsAreAt(s);
    var n := |Digits(s)|;
    if PhoneLast10(Some(s)) == Some(d) {
      LastOfAll(s, n - 10);
      assert LastTenAt(s, d, DigitPlaces(s)[n - 10..]);
    }
    if LastTenDigits(s, d) {
      var at :| LastTenAt(s, d, at);
      var front := PlacesEndWith(s, at);
      assert |front| == n - 10;
      forall k | 0 <= k < 10 ensures Digits(s)[n - 10 + k] == d[k] {
        assert DigitPlaces(s)[|front| + k] == at[k];
      }
      assert Digits(s)[n - 10..] == d;
    }
  }

  /** A text with fewer than ten digits has no phone to compare. */
  lemma NoPhoneIff(s: string)
    ensures PhoneLast10(Some(s)) == None <==> |set i | 0 <= i < |s| && Numeral(s[i])| < 10
  {
    DigitsAreAt(s);
    PlacesCounted(DigitPlaces(s));
    forall i: nat | i < |s| && Numeral(s[i]) { EveryDigitHasAPlace(s, i); }
    assert (set i | 0 <= i < |s| && Numeral(s[i])) == SetOf(DigitPlaces(s));
  }

  function SetOf(at: seq<nat>): set<nat> { set i | i in at }

  lemma {:induction false} PlacesCounted(at: seq<nat>)
    requires Ascends(at)
    ensures |SetOf(at)| == |at|
  {
    if at == [] {
      assert SetOf(at) == {};
    } else {
      var before, last := at[..|at| - 1], at[|at| - 1];
      PlacesCounted(before);
      assert last !in SetOf(before);
      assert SetOf(at) == SetOf(before) + {last};
    }
  }

  // ---- Shared details -----------------------------------------------------------------------------------

  predicate SameCanonical(field: Field, a: Option<string>, b: Option<string>) {
    Normalize(field, a).Some? && Normalize(field, a) == Normalize(field, b)
  }

  ghost predicate SamePhone(a: Option<string>, b: Option<string>) {
    a.Some? && b.Some? && exists d :: LastTenDigits(a.value, d) && LastTenDigits(b.value, d)
  }

  /** PAN always, GST, bank, UPI and phone when the policy says so. */
  ghost predicate HaveInCommon(a: Partner, b: Partner, policy: Policy) {
    || SameCanonical(Pan, a.details.pan, b.details.pan)
    || (policy.gst && SameCanonical(Gst, a.details.gst, b.details.gst))
    || (policy.bank && SameCanonical(Bank, a.details.bank, b.details.bank))
    || (policy.upi && SameCanonical(Upi, a.details.upi, b.details.upi))
    || (policy.phone && SamePhone(a.phone, b.phone))
  }

  /** The group's parent, deleted or not, or the live non-parent owner of another outlet of the group that is
      not deleted - the child's own owner apart. */
  ghost predicate StaysInGroup(db: Db, g: PartnerId, child: OutletId, owner: PartnerId, m: PartnerId) {
    m in db.partners &&
    (m == g ||
     (m != owner && !db.partners[m].deleted && !db.partners[m].isParent &&
      exists o | o in db.outlets && o != child ::
        db.outlets[o].partner == Some(m) && db.outlets[o].parentId == Some(g) && !db.outlets[o].deleted))
  }

  lemma PhonesCompare(a: Option<string>, b: Option<string>)
    ensures SamePhone(a, b) <==> PhoneLast10(a).Some? && PhoneLast10(b) == PhoneLast10(a)
  {
    if a.Some? && b.Some? {
      if PhoneLast10(a).Some? && PhoneLast10(b) == PhoneLast10(a) {
        PhoneLast10Iff(a.value, PhoneLast10(a).value);
        PhoneLast10Iff(b.value, PhoneLast10(a).value);
      }
      if SamePhone(a, b) {
        var d :| LastTenDigits(a.value, d) && LastTenDigits(b.value, d);
        PhoneLast10Iff(a.value, d);
        PhoneLast10Iff(b.value, d);
      }
    }
  }

  /** The guard finds a shared detail if and only if the owner and somebody who stays have one in common:
      an identity value in whatever form, or, when phones are guarded, phones with the same last ten digits. */
  lemma SharesIff(db: Db, g: PartnerId, child: OutletId, owner: PartnerId, policy: Policy)
    requires owner in db.partners
    ensures SharesWithGroup(db, g, child, Some(owner), policy) <==>
      exists m :: StaysInGroup(db, g, child, owner, m) && HaveInCommon(db.partners[owner], db.partners[m], policy)
  {
    var me := db.partners[owner];
    forall m | m in db.partners
      ensures StaysInGroup(db, g, child, owner, m) <==> Remains(db, g, child, owner, m)
      ensures HaveInCommon(me, db.partners[m], policy) <==> ShareDetail(me, db.partners[m], policy)
    {
      PhonesCompare(me.phone, db.partners[m].phone);
      if StaysInGroup(db, g, child, owner, m) && m != g {
        var o :| o in db.outlets && o != child && db.outlets[o].partner == Some(m) &&
                 db.outlets[o].parentId == Some(g) && !db.outlets[o].deleted;
        assert RemainsBy(db, g, child, owner, m, o);
      }
    }
  }

  // ---- What each operation writes -------------------------------------------------------------------------

  ghost predicate AnyClash(db: Db, our: Option<PartnerId>, d: Details, policy: Policy, except: Option<PartnerId>) {
    (exists f: Field :: ClashesIn(db, our, d, policy, except, f)) || AnotherGroupPan(db, our, d, except)
  }

  lemma RefusalHasCause(db: Db, our: Option<PartnerId>, d: Details, policy: Policy, except: Option<PartnerId>,
                        v: Option<Violation>)
    requires VerdictMayBe(db, our, d, policy, except, v)
    ensures v.Some? ==> AnyClash(db, our, d, policy, except)
    ensures v == None ==> forall f: Field :: !ClashesIn(db, our, d, policy, except, f)
  {
    VerdictIs(db, our, d, policy, except, v);
  }

  /** Each field of the stored details is canonical, or absent when there was nothing but blanks. */
  ghost predicate StoredAs(raw: Option<string>, field: Field, stored: Option<string>) {
    match raw
    case None => stored == None
    case Some(s) => if AllBlank(s) then stored == None else stored.Some? && CanonicalIs(field, s, stored.value)
  }

  ghost predicate StoredDetails(raw: Details, d: Details) {
    StoredAs(raw.pan, Pan, d.pan) && StoredAs(raw.gst, Gst, d.gst) && StoredAs(raw.bank, Bank, d.bank) &&
    StoredAs(raw.upi, Upi, d.upi)
  }

  lemma NormalizeStores(raw: Option<string>, field: Field)
    ensures StoredAs(raw, field, Normalize(field, raw))
  {
    if raw.Some? {
      var stored := Normalize(field, raw);
      NormalizeIs(field, raw.value, if stored.Some? then stored.value else "");
    }
  }

  lemma CanonicalStores(raw: Details)
    ensures StoredDetails(raw, Canonical(raw))
  {
    NormalizeStores(raw.pan, Pan);
    NormalizeStores(raw.gst, Gst);
    NormalizeStores(raw.bank, Bank);
    NormalizeStores(raw.upi, Upi);
  }

  /** Creating a parent: refused when the id is taken or one of its values clashes, else one new row. */
  lemma CreateWrites(policy: Policy, db: Db, id: PartnerId, raw: Details, phone: Option<string>, db': Db)
    requires Next(policy, db, CreateParent(id, raw, phone), db')
    ensures db'.outlets == db.outlets
    ensures db' == db <==> id in db.partners || AnyClash(db, None, Canonical(raw), policy, None)
    ensures db' != db ==>
      && db'.partners == db.partners[id := Partner(true, false, Canonical(raw), phone)]
      && StoredDetails(raw, Canonical(raw))
  {
    CanonicalStores(raw);
    if id !in db.partners {
      var d := Canonical(raw);
      if HasDetails(d) {
        var v :| VerdictMayBe(db, None, d, policy, None, v) &&
          db' == if v.None? then db.(partners := db.partners[id := Partner(true, false, d, phone)]) else db;
        RefusalHasCause(db, None, d, policy, None, v);
      } else {
        assert forall f: Field, r: string :: !Holds(d, f, Some(r));
      }
    }
  }

  predicate IsLiveParent(db: Db, id: PartnerId) {
    id in db.partners && db.partners[id].isParent && !db.partners[id].deleted
  }

  /** Approving a live parent again stores its details in canonical form, unless they clash. */
  lemma ApproveWrites(policy: Policy, db: Db, id: PartnerId, db': Db)
    requires Next(policy, db, ApproveParent(id), db')
    ensures db' == db ||
      (IsLiveParent(db, id) && db'.outlets == db.outlets &&
       db'.partners == db.partners[id := Partner(true, false, Canonical(db.partners[id].details),
                                                 db.partners[id].phone)])
    ensures IsLiveParent(db, id) && db'.partners[id].details != Canonical(db.partners[id].details) ==>
      AnyClash(db, Some(id), Canonical(db.partners[id].details), policy, Some(id))
  {
    if LiveParent(db, id) {
      var d := Canonical(db.partners[id].details);
      var v :| VerdictMayBe(db, Some(id), d, policy, Some(id), v) &&
        db' == if v.None? then db.(partners := db.partners[id := db.partners[id].(details := d)]) else db;
      RefusalHasCause(db, Some(id), d, policy, Some(id), v);
    }
  }

  /** The live outlet has an owner, whose details a link checks. */
  predicate OwnedBy(db: Db, o: OutletId, p: PartnerId) {
    o in db.outlets && !db.outlets[o].deleted && db.outlets[o].partner == Some(p) && p in db.partners
  }

  predicate MayLink(db: Db, parent: PartnerId, seen: Option<PartnerId>) {
    IsLiveParent(db, parent) && (seen == None || seen == Some(parent))
  }

  /** What a request sees of an outlet's group when it starts: a soft-deleted outlet has none. */
  lemma SeenGroupIs(db: Db, o: OutletId, g: PartnerId)
    ensures SeenGroup(db, o) == Some(g) <==>
      o in db.outlets && !db.outlets[o].deleted && db.outlets[o].parentId == Some(g)
  {
  }

  /** One upload row: the outlet - found by its code, deleted or not, or made pending - is put in the parent's
      group, unless a value of its owner clashes. */
  lemma LinkWrites(policy: Policy, db: Db, o: OutletId, parent: PartnerId, seen: Option<PartnerId>, db': Db)
    requires Next(policy, db, LinkOutlet(o, parent, seen), db')
    ensures db' == db ||
      (MayLink(db, parent, seen) && db'.partners == db.partners &&
       db'.outlets == db.outlets[o :=
         if o in db.outlets then Outlet(db.outlets[o].partner, Some(parent), db.outlets[o].deleted)
         else Outlet(None, Some(parent), false)])
    ensures forall p, f: Field | db' != db && OwnedBy(db, o, p) ::
      !ClashesIn(db, Some(parent), db.partners[p].details, policy, Some(p), f)
    ensures MayLink(db, parent, seen) && !(o in db'.outlets && db'.outlets[o].parentId == Some(parent)) ==>
      exists p :: OwnedBy(db, o, p) && AnyClash(db, Some(parent), db.partners[p].details, policy, Some(p))
  {
    if LinkAllowed(db, parent, seen) {
      var v :| VerdictMayBe(db, Some(parent), LinkDetails(db, o), policy, LinkOwner(db, o), v) &&
        db' == if v.None? then Linked(db, o, parent) else db;
      RefusalHasCause(db, Some(parent), LinkDetails(db, o), policy, LinkOwner(db, o), v);
      if LinkOwner(db, o) == None {
        assert forall f: Field, r: string :: !Holds(NO_DETAILS, f, Some(r));
      } else {
        assert OwnedBy(db, o, LinkOwner(db, o).value);
      }
    }
  }

  /** A live, grouped outlet may leave unless its owner has a guarded detail in common with somebody who
      stays. */
  ghost predicate MayLeave(policy: Policy, db: Db, o: OutletId) {
    o in db.outlets && !db.outlets[o].deleted && db.outlets[o].parentId.Some? &&
    forall p, m | db.outlets[o].partner == Some(p) && p in db.partners &&
      StaysInGroup(db, db.outlets[o].parentId.value, o, p, m) ::
      !HaveInCommon(db.partners[p], db.partners[m], policy)
  }

  lemma MayLeaveIff(policy: Policy, db: Db, o: OutletId)
    ensures UngroupPasses(policy, db, o) <==> MayLeave(policy, db, o)
  {
    if LiveOutlet(db, o) && db.outlets[o].parentId.Some? && db.outlets[o].partner.Some? &&
      db.outlets[o].partner.value in db.partners
    {
      SharesIff(db, db.outlets[o].parentId.value, o, db.outlets[o].partner.value, policy);
    }
  }

  /** An un-group clears the group of such an outlet and touches nothing else. */
  lemma UngroupWrites(policy: Policy, db: Db, o: OutletId, db': Db)
    requires Next(policy, db, Ungroup(o), db')
    ensures db' == if MayLeave(policy, db, o)
      then Db(db.partners, db.outlets[o := Outlet(db.outlets[o].partner, None, false)]) else db
  {
    MayLeaveIff(policy, db, o);
  }

  /** A parent is soft-deleted if and only if it is live and every outlet of its group is deleted. */
  lemma DeactivateWrites(policy: Policy, db: Db, id: PartnerId, db': Db)
    requires Next(policy, db, DeactivateParent(id), db')
    ensures db' ==
      if IsLiveParent(db, id) && forall o | o in db.outlets && db.outlets[o].parentId == Some(id) :: db.outlets[o].deleted
      then Db(db.partners[id := Partner(true, true, db.partners[id].details, db.partners[id].phone)], db.outlets)
      else db
  {
  }

  predicate Overlays<T(==)>(was: Option<T>, patch: Option<T>, now: Option<T>) {
    now == if patch == None then was else patch
  }

  predicate OverlaysAll(d: Details, patch: Details, now: Details) {
    Overlays(d.pan, patch.pan, now.pan) && Overlays(d.gst, patch.gst, now.gst) &&
    Overlays(d.bank, patch.bank, now.bank) && Overlays(d.upi, patch.upi, now.upi)
  }

  /** A detail write: a pending outlet gets a new owner, or its live owner - not a parent - gets the details that
      are given and keeps the others; unless one of them clashes. */
  lemma KycWrites(policy: Policy, db: Db, o: OutletId, owner: PartnerId, raw: Details, phone: Option<string>, db': Db)
    requires Next(policy, db, KycWrite(o, owner, raw, phone), db') && db' != db
    ensures o in db.outlets && !db.outlets[o].deleted
    ensures forall f: Field ::
      !ClashesIn(db, db.outlets[o].parentId, Canonical(raw), policy, db.outlets[o].partner, f)
    ensures db.outlets[o].partner == None ==>
      && owner !in db.partners
      && db'.partners == db.partners[owner := Partner(false, false, Canonical(raw), phone)]
      && db'.outlets == db.outlets[o := Outlet(Some(owner), db.outlets[o].parentId, false)]
    ensures db.outlets[o].partner != None ==>
      && db.outlets[o].partner == Some(owner) && owner in db.partners && db'.outlets == db.outlets
      && !db.partners[owner].isParent && !db.partners[owner].deleted
      && db'.partners == db.partners[owner := db'.partners[owner]]
      && !db'.partners[owner].isParent && !db'.partners[owner].deleted
      && OverlaysAll(db.partners[owner].details, Canonical(raw), db'.partners[owner].details)
      && Overlays(db.partners[owner].phone, phone, db'.partners[owner].phone)
  {
    var v :| VerdictMayBe(db, db.outlets[o].parentId, Canonical(raw), policy, db.outlets[o].partner, v) &&
      db' == if v.None? then KycWritten(db, o, owner, Canonical(raw), phone) else db;
    RefusalHasCause(db, db.outlets[o].parentId, Canonical(raw), policy, db.outlets[o].partner, v);
  }
}
