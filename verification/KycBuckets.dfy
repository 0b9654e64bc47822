/**
 The KYC status an outlet shows, and the database filter that is meant to select exactly the outlets
 that show it.  The filter is a tree of column tests evaluated with SQL's three truth values.
 */
module KycBuckets {
  import opened Prelude

  type OutletId = string
  type PartnerId = string

  datatype KycStatus =
    | DRAFT | SUBMITTED | UNDER_REVIEW | PENDING_PENNY_DROP | PENDING_AGREEMENT
    | PENDING_SO_APPROVAL | PENDING_ASM_APPROVAL | PENDING_RSM_APPROVAL | PENDING_GIFSY
    | APPROVED | REJECTED | RE_UPLOAD_REQUIRED | RESUBMISSION_REQUIRED | RE_KYC_REQUIRED
    | SUSPENDED | NOT_INTERESTED

  datatype Intent = NotInterested | Parked

  datatype Bucket = Approved | Rejected | Submitted | InProgress | ReKycRequired | NotStarted | ParkedBucket

  /** A nullable JSON column. */
  datatype Json = DbNull | JsonNull | Scalar | Object(keys: set<string>)

  datatype Outlet = Outlet(id: OutletId, flags: Json, partner: Option<PartnerId>, intent: Option<Intent>)

  datatype Submission = Submission(partner: Option<PartnerId>, status: KycStatus)

  type Latest = map<PartnerId, KycStatus>

  // ---- The status an outlet shows -----------------------------------------------------------------

  predicate IsReKycPending(flags: Json) { flags.Object? && flags.keys != {} }

  predicate IsKycInFlight(status: Option<KycStatus>) {
    status.Some? && status.value in {SUBMITTED, UNDER_REVIEW, PENDING_SO_APPROVAL, PENDING_ASM_APPROVAL,
                                     PENDING_RSM_APPROVAL, PENDING_GIFSY}
  }

  function LatestOf(partner: Option<PartnerId>, latest: Latest): Option<KycStatus> {
    if partner.Some? && partner.value in latest then Some(latest[partner.value]) else None
  }

  /** Flags are set, and no fresh submission is under review. */
  predicate Actionable(o: Outlet, latest: Latest) {
    IsReKycPending(o.flags) && !IsKycInFlight(LatestOf(o.partner, latest))
  }

  function DeriveKycStatus(o: Outlet, latest: Latest): Bucket {
    if Actionable(o, latest) then ReKycRequired
    else if o.intent == Some(Parked) then ParkedBucket
    else if o.intent == Some(NotInterested) then NotStarted
    else if o.partner.None? then NotStarted
    else if LatestOf(o.partner, latest).None? then NotStarted
    else match LatestOf(o.partner, latest).value
      case APPROVED => Approved
      case REJECTED => Rejected
      case SUBMITTED => Submitted
      case RE_KYC_REQUIRED => ReKycRequired
      case SUSPENDED => NotStarted
      case NOT_INTERESTED => NotStarted
      case _ => InProgress
  }

  // ---- The same, bucket by bucket -----------------------------------------------------------------

  const UNDER_WAY := {SUBMITTED, UNDER_REVIEW, PENDING_SO_APPROVAL, PENDING_ASM_APPROVAL, PENDING_RSM_APPROVAL,
                      PENDING_GIFSY}

  /** The owner's latest submission has one of these statuses. */
  predicate OwnerAt(o: Outlet, latest: Latest, statuses: set<KycStatus>) {
    match o.partner
    case None => false
    case Some(p) => p in latest && latest[p] in statuses
  }

  /** Fields are flagged, and the owner's latest submission - if there is one - is not under way. */
  predicate CallsForReKyc(o: Outlet, latest: Latest) {
    o.flags.Object? && o.flags.keys != {} && !OwnerAt(o, latest, UNDER_WAY)
  }

  /** The outlets that show a bucket: a flagged one re-KYC, then a parked or declined one its intent, any other
      what its owner's latest submission says. */
  predicate ShowsAs(o: Outlet, latest: Latest, b: Bucket) {
    if CallsForReKyc(o, latest) then b == ReKycRequired
    else if o.intent == Some(Parked) then b == ParkedBucket
    else if o.intent == Some(NotInterested) then b == NotStarted
    else match b
      case Approved => OwnerAt(o, latest, {APPROVED})
      case Rejected => OwnerAt(o, latest, {REJECTED})
      case Submitted => OwnerAt(o, latest, {SUBMITTED})
      case ReKycRequired => OwnerAt(o, latest, {RE_KYC_REQUIRED})
      case InProgress =>
        OwnerAt(o, latest, {DRAFT, UNDER_REVIEW, PENDING_PENNY_DROP, PENDING_AGREEMENT, PENDING_SO_APPROVAL,
                            PENDING_ASM_APPROVAL, PENDING_RSM_APPROVAL, PENDING_GIFSY, RE_UPLOAD_REQUIRED,
                            RESUBMISSION_REQUIRED})
      case NotStarted =>
        (match o.partner case None => true case Some(p) => p !in latest) ||
        OwnerAt(o, latest, {SUSPENDED, NOT_INTERESTED})
      case ParkedBucket => false
  }

  lemma CallsForReKycIff(o: Outlet, latest: Latest)
    ensures CallsForReKyc(o, latest) <==> Actionable(o, latest)
  {
  }

  /** Each bucket is shown by exactly those outlets. */
  lemma ShownIff(o: Outlet, latest: Latest, b: Bucket)
    ensures DeriveKycStatus(o, latest) == b <==> ShowsAs(o, latest, b)
  {
    CallsForReKycIff(o, latest);
  }

  // ---- The filter language ------------------------------------------------------------------------

  datatype Where =
    | All(parts: seq<Where>)
    | Any(parts: seq<Where>)
    | IdIn(ids: seq<OutletId>)
    | IdNotIn(ids: seq<OutletId>)
    | PartnerIsNull
    | PartnerIn(partners: seq<PartnerId>)
    | PartnerNotIn(partners: seq<PartnerId>)
    | IntentIsNull
    | IntentIs(intent: Intent)
    | IntentIsNot(intent: Intent)

  datatype Truth = True | False | Unknown

  function Not(t: Truth): Truth {
    match t
    case True => False
    case False => True
    case Unknown => Unknown
  }

  function Of(b: bool): Truth { if b then True else False }

  /** `v IN (list)` on a nullable column; an empty list is false even for NULL. */
  function In(v: Option<string>, list: seq<string>): Truth {
    if list == [] then False else if v.None? then Unknown else Of(v.value in list)
  }

  function IntentEquals(v: Option<Intent>, i: Intent): Truth {
    if v.None? then Unknown else Of(v.value == i)
  }

  function Eval(w: Where, o: Outlet): Truth {
    match w
    case All(parts) =>
      if exists p | p in parts :: Eval(p, o) == False then False
      else if exists p | p in parts :: Eval(p, o) == Unknown then Unknown else True
    case Any(parts) =>
      if exists p | p in parts :: Eval(p, o) == True then True
      else if exists p | p in parts :: Eval(p, o) == Unknown then Unknown else False
    case IdIn(ids) => In(Some(o.id), ids)
    case IdNotIn(ids) => Not(In(Some(o.id), ids))
    case PartnerIsNull => Of(o.partner.None?)
    case PartnerIn(partners) => In(o.partner, partners)
    case PartnerNotIn(partners) => Not(In(o.partner, partners))
    case IntentIsNull => Of(o.intent.None?)
    case IntentIs(i) => IntentEquals(o.intent, i)
    case IntentIsNot(i) => Not(IntentEquals(o.intent, i))
  }

  /** A query returns the rows for which its condition is true, not those for which it is unknown. */
  predicate Selects(w: Where, o: Outlet) { Eval(w, o) == True }

  lemma SelectsThree(a: Where, b: Where, c: Where, o: Outlet)
    ensures Selects(All([a, b, c]), o) <==> Selects(a, o) && Selects(b, o) && Selects(c, o)
  {
    assert a in [a, b, c] && b in [a, b, c] && c in [a, b, c];
  }

  lemma SelectsEither(a: Where, b: Where, o: Outlet)
    ensures Selects(Any([a, b]), o) <==> Selects(a, o) || Selects(b, o)
  {
    assert a in [a, b] && b in [a, b];
  }

  lemma SelectsOneOfFour(a: Where, b: Where, c: Where, d: Where, o: Outlet)
    ensures Selects(Any([a, b, c, d]), o) <==>
      Selects(a, o) || Selects(b, o) || Selects(c, o) || Selects(d, o)
  {
    var parts := [a, b, c, d];
    assert a in parts && b in parts && c in parts && d in parts;
  }

  // ---- The filter of a bucket -----------------------------------------------------------------------

  /** "Not this intent", with NULL let through. */
  function NotIntent(i: Intent): Where { Any([IntentIsNull, IntentIsNot(i)]) }

  lemma NotIntentMeans(i: Intent, o: Outlet)
    ensures Selects(NotIntent(i), o) <==> o.intent != Some(i)
  {
    SelectsEither(IntentIsNull, IntentIsNot(i), o);
  }

  const NOTHING := IdIn([])

  function Statuses(bucket: Bucket): set<KycStatus> {
    match bucket
    case Approved => {APPROVED}
    case Rejected => {REJECTED}
    case Submitted => {SUBMITTED}
    case InProgress => {UNDER_REVIEW, PENDING_PENNY_DROP, PENDING_AGREEMENT, PENDING_SO_APPROVAL,
                        PENDING_ASM_APPROVAL, PENDING_RSM_APPROVAL, PENDING_GIFSY, RE_UPLOAD_REQUIRED,
                        RESUBMISSION_REQUIRED, DRAFT}
    case ReKycRequired => {RE_KYC_REQUIRED}
    case NotStarted => {}
    case ParkedBucket => {}
  }

  /** The partners whose latest status is one of those wanted, in any order. */
  method PartnersWith(latest: Latest, wanted: set<KycStatus>) returns (ids: seq<PartnerId>)
    ensures forall p :: p in ids <==> p in latest && latest[p] in wanted
  {
    ids := [];
    var rest := latest.Keys;
    while rest != {}
      invariant rest <= latest.Keys
      invariant forall p :: p in ids <==> p in latest && p !in rest && latest[p] in wanted
      decreases rest
    {
      var p :| p in rest;
      if latest[p] in wanted { ids := ids + [p]; }
      rest := rest - {p};
    }
  }

  predicate LatestIn(o: Outlet, latest: Latest, wanted: set<KycStatus>) {
    LatestOf(o.partner, latest).Some? && LatestOf(o.partner, latest).value in wanted
  }

  const BACK_TO_START := {SUSPENDED, NOT_INTERESTED}

  /** What the filter of a bucket asks of an outlet, in two truth values. */
  predicate BucketHolds(bucket: Bucket, latest: Latest, flagged: seq<OutletId>, o: Outlet) {
    match bucket
    case ParkedBucket => o.intent == Some(Parked)
    case ReKycRequired =>
      o.id in flagged || (LatestIn(o, latest, Statuses(bucket)) && o.intent != Some(NotInterested))
    case NotStarted =>
      && o.id !in flagged && o.intent != Some(Parked)
      && (o.intent == Some(NotInterested) || LatestOf(o.partner, latest).None? ||
          LatestIn(o, latest, BACK_TO_START))
    case _ =>
      LatestIn(o, latest, Statuses(bucket)) && o.id !in flagged && o.intent != Some(NotInterested)
  }

  method BuildKycStatusWhere(bucket: Bucket, latest: Latest, flagged: seq<OutletId>) returns (w: Where)
    ensures forall o :: Selects(w, o) <==> BucketHolds(bucket, latest, flagged, o)
  {
    if bucket.ParkedBucket? { return IntentIs(Parked); }
    var inBucket := PartnersWith(latest, Statuses(bucket));
    if bucket.ReKycRequired? {
      w := ReKycFilter(inBucket, flagged);
      return;
    }
    if bucket.NotStarted? {
      var back := PartnersWith(latest, BACK_TO_START);
      var elsewhere := PartnersWith(latest, ALL_STATUSES - BACK_TO_START);
      w := NotStartedFilter(flagged, back, elsewhere);
      forall o ensures Selects(w, o) <==> BucketHolds(bucket, latest, flagged, o) {
        NotStartedMeans(flagged, back, elsewhere, o);
        if LatestOf(o.partner, latest).Some? { EveryStatus(LatestOf(o.partner, latest).value); }
      }
      return;
    }
    if inBucket == [] { return NOTHING; }
    w := All([PartnerIn(inBucket), IdNotIn(flagged), NotIntent(NotInterested)]);
    forall o ensures Selects(w, o) <==> BucketHolds(bucket, latest, flagged, o) {
      NotIntentMeans(NotInterested, o);
      SelectsThree(PartnerIn(inBucket), IdNotIn(flagged), NotIntent(NotInterested), o);
    }
  }

  const ALL_STATUSES: set<KycStatus> :=
    {DRAFT, SUBMITTED, UNDER_REVIEW, PENDING_PENNY_DROP, PENDING_AGREEMENT, PENDING_SO_APPROVAL,
     PENDING_ASM_APPROVAL, PENDING_RSM_APPROVAL, PENDING_GIFSY, APPROVED, REJECTED, RE_UPLOAD_REQUIRED,
     RESUBMISSION_REQUIRED, RE_KYC_REQUIRED, SUSPENDED, NOT_INTERESTED}

  lemma EveryStatus(s: KycStatus)
    ensures s in ALL_STATUSES
  {
    match s
    case _ =>
  }

  /** Flagged outlets, or owners of a re-KYC submission that are neither flagged nor not interested;
      a branch without ids is left out, and with no branch at all nothing matches. */
  method ReKycFilter(partners: seq<PartnerId>, flagged: seq<OutletId>) returns (w: Where)
    ensures forall o :: Selects(w, o) <==>
      o.id in flagged ||
      (o.partner.Some? && o.partner.value in partners && o.intent != Some(NotInterested))
  {
    var byPartner := All([PartnerIn(partners), IdNotIn(flagged), NotIntent(NotInterested)]);
    forall o
      ensures Selects(byPartner, o) <==> (o.partner.Some? && o.partner.value in partners &&
                                          o.id !in flagged && o.intent != Some(NotInterested))
    {
      NotIntentMeans(NotInterested, o);
      SelectsThree(PartnerIn(partners), IdNotIn(flagged), NotIntent(NotInterested), o);
    }
    var parts: seq<Where> := [];
    if flagged != [] { parts := parts + [IdIn(flagged)]; }
    if partners != [] { parts := parts + [byPartner]; }
    w := if parts != [] then Any(parts) else NOTHING;
    forall o ensures Selects(w, o) <==> (flagged != [] && Selects(IdIn(flagged), o)) ||
                                        (partners != [] && Selects(byPartner, o))
    {
      if flagged != [] && partners != [] {
        assert parts == [IdIn(flagged), byPartner];
        SelectsEither(IdIn(flagged), byPartner, o);
      } else if flagged != [] {
        SelectsEither(IdIn(flagged), IdIn(flagged), o);
        assert parts == [IdIn(flagged)];
      } else if partners != [] {
        assert parts == [byPartner];
      }
    }
  }

  function NotStartedFilter(flagged: seq<OutletId>, back: seq<PartnerId>, elsewhere: seq<PartnerId>): Where {
    All([IdNotIn(flagged), NotIntent(Parked),
         Any([IntentIs(NotInterested), PartnerIsNull, PartnerIn(back), PartnerNotIn(elsewhere)])])
  }

  lemma NotStartedMeans(flagged: seq<OutletId>, back: seq<PartnerId>, elsewhere: seq<PartnerId>,
                        o: Outlet)
    ensures Selects(NotStartedFilter(flagged, back, elsewhere), o) <==>
      && o.id !in flagged && o.intent != Some(Parked)
      && (o.intent == Some(NotInterested) || o.partner.None? || o.partner.value in back ||
          o.partner.value !in elsewhere)
  {
    NotIntentMeans(Parked, o);
    SelectsOneOfFour(IntentIs(NotInterested), PartnerIsNull, PartnerIn(back), PartnerNotIn(elsewhere), o);
    SelectsThree(IdNotIn(flagged), NotIntent(Parked),
      Any([IntentIs(NotInterested), PartnerIsNull, PartnerIn(back), PartnerNotIn(elsewhere)]), o);
  }

  // ---- The list -------------------------------------------------------------------------------------

  /** The first submission of a partner, newest first. */
  function FirstOf(subs: seq<Submission>, p: PartnerId): Option<KycStatus> {
    if subs == [] then None
    else if subs[0].partner == Some(p) then Some(subs[0].status)
    else FirstOf(subs[1..], p)
  }

  lemma {:induction false} FirstOfAppend(subs: seq<Submission>, s: Submission, p: PartnerId)
    ensures FirstOf(subs + [s], p) ==
      if FirstOf(subs, p).Some? then FirstOf(subs, p)
      else if s.partner == Some(p) then Some(s.status) else None
  {
    if subs != [] {
      FirstOfAppend(subs[1..], s, p);
      assert (subs + [s])[1..] == subs[1..] + [s];
    }
  }

  method LatestStatuses(subs: seq<Submission>) returns (latest: Latest)
    ensures forall p :: LatestOf(Some(p), latest) == FirstOf(subs, p)
  {
    latest := map[];
    for i := 0 to |subs|
      invariant forall p :: LatestOf(Some(p), latest) == FirstOf(subs[..i], p)
    {
      var s := subs[i];
      assert subs[..i + 1] == subs[..i] + [s];
      forall p { FirstOfAppend(subs[..i], s, p); }
      if s.partner.Some? && s.partner.value !in latest {
        latest := latest[s.partner.value := s.status];
      }
    }
    assert subs[..|subs|] == subs;
  }

  /** The outlets whose re-KYC flags call for action. */
  method FlaggedIds(outlets: seq<Outlet>, latest: Latest) returns (ids: seq<OutletId>)
    ensures forall id :: id in ids <==> exists i :: 0 <= i < |outlets| && outlets[i].id == id && Actionable(outlets[i], latest)
  {
    ids := [];
    for n := 0 to |outlets|
      invariant forall id :: id in ids <==>
        exists i :: 0 <= i < n && outlets[i].id == id && Actionable(outlets[i], latest)
    {
      var o := outlets[n];
      if o.flags != DbNull && o.flags.Object? && o.flags.keys != {} &&
        !(o.partner.Some? && IsKycInFlight(LatestOf(o.partner, latest)))
      {
        ids := ids + [o.id];
      }
    }
  }

  ghost predicate DistinctIds(outlets: seq<Outlet>) {
    forall i, j | 0 <= i < j < |outlets| :: outlets[i].id != outlets[j].id
  }

  /** The rows the filter of a bucket selects, out of the rows in scope. */
  method ListBucket(outlets: seq<Outlet>, subs: seq<Submission>, bucket: Bucket)
    returns (rows: seq<Outlet>, ghost latest: Latest)
    requires DistinctIds(outlets)
    ensures forall p :: LatestOf(Some(p), latest) == FirstOf(subs, p)
    ensures forall o :: o in rows <==> o in outlets && Listed(bucket, latest, o)
    ensures DistinctIds(rows)
  {
    var statuses := LatestStatuses(subs);
    latest := statuses;
    var flagged := FlaggedIds(outlets, statuses);
    var w := BuildKycStatusWhere(bucket, statuses, flagged);
    rows := [];
    for i := 0 to |outlets|
      invariant DistinctIds(rows)
      invariant forall o :: o in rows <==> o in outlets[..i] && Selects(w, o)
    {
      assert forall o | o in outlets[..i] :: o.id != outlets[i].id by {
        forall j | 0 <= j < i ensures outlets[..i][j].id != outlets[i].id {}
      }
      if Selects(w, outlets[i]) { rows := rows + [outlets[i]]; }
    }
    assert outlets[..|outlets|] == outlets;
    forall o | o in outlets ensures Selects(w, o) <==> Listed(bucket, latest, o) {
      var i :| 0 <= i < |outlets| && outlets[i] == o;
      assert o.id in flagged <==> Actionable(o, latest);
    }
  }

  /** An outlet of the scope is in the list of a bucket. */
  predicate Listed(bucket: Bucket, latest: Latest, o: Outlet) {
    BucketHolds(bucket, latest, if Actionable(o, latest) then [o.id] else [], o)
  }

  // ---- List and label -----------------------------------------------------------------------------

  /** A parked outlet that the lists show where its label says. */
  predicate CleanlyParked(o: Outlet, latest: Latest) {
    !Actionable(o, latest) &&
    (LatestOf(o.partner, latest).None? || LatestIn(o, latest, BACK_TO_START))
  }

  /** The re-KYC list holds the flagged outlets whose owner has no submission under way, and the owners of a
      re-KYC submission that did not decline. */
  lemma ReKycListed(o: Outlet, latest: Latest)
    ensures Listed(ReKycRequired, latest, o) <==>
      CallsForReKyc(o, latest) || (OwnerAt(o, latest, {RE_KYC_REQUIRED}) && o.intent != Some(NotInterested))
  {
    CallsForReKycIff(o, latest);
  }

  /** An outlet is listed in exactly the bucket it shows if and only if it is not parked, or is parked
      with nothing to act on and no submission beyond the start. */
  lemma ListedWhereShownIff(o: Outlet, latest: Latest)
    ensures (forall b :: Listed(b, latest, o) <==> DeriveKycStatus(o, latest) == b) <==>
      (o.intent != Some(Parked) || CleanlyParked(o, latest))
  {
    if o.intent == Some(Parked) && !CleanlyParked(o, latest) {
      if Actionable(o, latest) {
        assert Listed(ParkedBucket, latest, o);
      } else {
        var b := BucketOf(LatestOf(o.partner, latest).value);
        assert Listed(b, latest, o);
      }
    }
  }

  function BucketOf(s: KycStatus): (b: Bucket)
    requires s !in BACK_TO_START
    ensures s in Statuses(b)
  {
    match s
    case APPROVED => Approved
    case REJECTED => Rejected
    case SUBMITTED => Submitted
    case RE_KYC_REQUIRED => ReKycRequired
    case _ => InProgress
  }

  /** Every outlet is listed in the bucket it shows; a parked one may be listed a second time. */
  lemma ListedWhereShown(o: Outlet, latest: Latest)
    ensures Listed(DeriveKycStatus(o, latest), latest, o)
    ensures forall b | Listed(b, latest, o) && b != DeriveKycStatus(o, latest) :: o.intent == Some(Parked)
  {
  }

  /** A parked outlet whose owner's submission is under review is listed twice: as parked, which is what it
      shows, and in the bucket of the submission. */
  lemma ParkedListedTwice(id: OutletId, p: PartnerId, flags: Json, s: KycStatus)
    requires s !in BACK_TO_START && IsKycInFlight(Some(s))
    ensures var o := Outlet(id, flags, Some(p), Some(Parked)); var latest: Latest := map[p := s];
      && DeriveKycStatus(o, latest) == ParkedBucket && Listed(ParkedBucket, latest, o)
      && BucketOf(s) != ParkedBucket && Listed(BucketOf(s), latest, o)
  {
  }

  /** The filter with the missing condition: parked outlets are in the submission buckets only by their
      flags, and flagged ones are not in the parked bucket. */
  predicate RepairedHolds(bucket: Bucket, latest: Latest, flagged: seq<OutletId>, o: Outlet) {
    match bucket
    case ParkedBucket => o.intent == Some(Parked) && o.id !in flagged
    case NotStarted => BucketHolds(bucket, latest, flagged, o)
    case ReKycRequired => BucketHolds(bucket, latest, flagged, o) && (o.id in flagged || o.intent != Some(Parked))
    case _ => BucketHolds(bucket, latest, flagged, o) && o.intent != Some(Parked)
  }

  /** With it, list and label agree for every outlet. */
  lemma RepairedListedWhereShown(o: Outlet, latest: Latest, b: Bucket)
    ensures RepairedHolds(b, latest, if Actionable(o, latest) then [o.id] else [], o) <==>
      DeriveKycStatus(o, latest) == b
  {
  }
}
